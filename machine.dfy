/**
 * The machine's three mutable fields as a value, and one function per
 * operation giving the fields after a call.  The class in module Engine is
 * proved against these functions; the lemmas here are about sequences of calls.
 */
module Machine {
  import opened Wrappers
  import opened Configuration

  /** The three kinds of error the operations raise, plus the TypeError of a missing state entry. */
  datatype Error =
    | ConfigRequired      // the constructor got no configuration
    | InvalidState        // changeState named a state that is not configured
    | UnknownTransition   // trigger named an event the active state has no transition for
    | MissingStateEntry   // trigger found no entry at all for the active state

  /**
   * `active` is `_active_state`, `last` is the one-step undo slot
   * `_last_state`, and `redo` is the one-step redo slot `_for_undo_undo`.
   */
  datatype Fields = Fields(active: string, last: Option<string>, redo: Option<string>)

  /** Every state the fields name is a configured state. */
  ghost predicate Consistent(c: Config, f: Fields) {
    && IsState(c, f.active)
    && (f.last.Some? ==> IsState(c, f.last.value))
    && (f.redo.Some? ==> IsState(c, f.redo.value))
  }

  /** The constructor: fails without a configuration, else starts at `initial` with no history. */
  function Init(config: Option<Config>): Result<Fields, Error>
  {
    match config
    case None => Err(ConfigRequired)
    case Some(c) => Ok(Fields(c.initial, None, None))
  }

  /** `changeState`: a configured state becomes active and the old one fills the undo slot; the redo slot is kept. */
  function ChangeState(c: Config, f: Fields, state: string): Result<Fields, Error>
  {
    if IsState(c, state) then Ok(Fields(state, Some(f.active), f.redo))
    else Err(InvalidState)
  }

  /** `trigger`: follow the active state's transition for `event`, with the history update of `changeState`. */
  function Trigger(c: Config, f: Fields, event: string): Result<Fields, Error>
  {
    if f.active !in c.trans then Err(MissingStateEntry)
    else if event in c.trans[f.active] then Ok(Fields(c.trans[f.active][event], Some(f.active), f.redo))
    else Err(UnknownTransition)
  }

  /** `reset`: back to `initial`, undo slot emptied, redo slot kept. */
  function Reset(c: Config, f: Fields): Fields
  {
    Fields(c.initial, None, f.redo)
  }

  /** What `undo` returns. */
  predicate CanUndo(f: Fields) {
    f.last.Some?
  }

  /** `undo`: the active state moves to the redo slot and the undo slot's state becomes active. */
  function Undo(f: Fields): Fields
  {
    match f.last
    case None => f
    case Some(s) => Fields(s, None, Some(f.active))
  }

  /** What `redo` returns. */
  predicate CanRedo(f: Fields) {
    f.redo.Some?
  }

  /** `redo`: the redo slot's state becomes active and the slot is emptied; the undo slot is kept. */
  function Redo(f: Fields): Fields
  {
    match f.redo
    case None => f
    case Some(s) => Fields(s, f.last, None)
  }

  /** `clearHistory`: both slots emptied. */
  function ClearHistory(f: Fields): Fields
  {
    Fields(f.active, None, None)
  }

  /** One call on the machine; `getState` and `getStates` change nothing and are not listed. */
  datatype Call =
    | ChangeStateCall(state: string)
    | TriggerCall(event: string)
    | ResetCall
    | UndoCall
    | RedoCall
    | ClearHistoryCall

  /** The fields after one call; a call that throws leaves them as they were. */
  function Step(c: Config, f: Fields, call: Call): Fields
  {
    match call
    case ChangeStateCall(s) => (match ChangeState(c, f, s) case Ok(g) => g case Err(_) => f)
    case TriggerCall(e) => (match Trigger(c, f, e) case Ok(g) => g case Err(_) => f)
    case ResetCall => Reset(c, f)
    case UndoCall => Undo(f)
    case RedoCall => Redo(f)
    case ClearHistoryCall => ClearHistory(f)
  }

  /** The fields after a sequence of calls, made one after the other. */
  function Run(c: Config, f: Fields, calls: seq<Call>): Fields
    decreases |calls|
  {
    if calls == [] then f else Run(c, Step(c, f, calls[0]), calls[1..])
  }

  /** A call that leaves the redo slot alone: `changeState`, `trigger` and `reset`. */
  predicate KeepsRedo(call: Call) {
    call.ChangeStateCall? || call.TriggerCall? || call.ResetCall?
  }

  // ----- Single calls -----

  /** A machine built from a well-formed configuration starts consistent, at `initial`, with no history. */
  lemma InitStartsAtInitial(config: Option<Config>)
    requires config.Some? ==> WellFormed(config.value)
    ensures Init(config).Err? <==> config.None?
    ensures Init(config).Err? ==> Init(config).error == ConfigRequired
    ensures Init(config).Ok? ==> var f := Init(config).value;
      f.active == config.value.initial && !CanUndo(f) && !CanRedo(f) && Consistent(config.value, f)
  {
  }

  /** `trigger` follows the active state's transition when there is one; otherwise it fails and changes nothing. */
  lemma TriggerEffect(c: Config, f: Fields, event: string)
    requires WellFormed(c) && Consistent(c, f)
    ensures Trigger(c, f, event).Ok? <==> event in c.trans[f.active]
    ensures Trigger(c, f, event).Err? ==> Trigger(c, f, event).error == UnknownTransition
    ensures Trigger(c, f, event).Err? ==> Step(c, f, TriggerCall(event)) == f
    ensures Trigger(c, f, event).Ok? ==> var g := Trigger(c, f, event).value;
      g.active == c.trans[f.active][event] && g.last == Some(f.active) && g.redo == f.redo
  {
  }

  /** Every call keeps the fields consistent with a well-formed configuration. */
  lemma StepConsistent(c: Config, f: Fields, call: Call)
    requires WellFormed(c) && Consistent(c, f)
    ensures Consistent(c, Step(c, f, call))
  {
  }

  /** Any sequence of calls keeps the fields consistent: the active state is always a configured state. */
  lemma {:induction false} RunConsistent(c: Config, f: Fields, calls: seq<Call>)
    requires WellFormed(c) && Consistent(c, f)
    ensures Consistent(c, Run(c, f, calls))
    decreases |calls|
  {
    if calls != [] {
      StepConsistent(c, f, calls[0]);
      RunConsistent(c, Step(c, f, calls[0]), calls[1..]);
    }
  }

  // ----- History -----

  /** Two consecutive `undo` calls never both return true. */
  lemma SecondUndoFails(f: Fields)
    ensures !CanUndo(Undo(f))
  {
  }

  /** Two consecutive `redo` calls never both return true. */
  lemma SecondRedoFails(f: Fields)
    ensures !CanRedo(Redo(f))
  {
  }

  /**
   * After a successful `changeState` or `trigger` from `f` to `g`, `undo`
   * returns true and goes back to `f`'s state, and `redo` then returns true
   * and goes forward to `g`'s state again.  `redo` does not refill the undo
   * slot, so a third call, `undo`, returns false.
   */
  lemma UndoRedoRoundTrip(c: Config, f: Fields, call: Call)
    requires call.ChangeStateCall? || call.TriggerCall?
    requires call.ChangeStateCall? ==> ChangeState(c, f, call.state).Ok?
    requires call.TriggerCall? ==> Trigger(c, f, call.event).Ok?
    ensures var g := Step(c, f, call);
      && CanUndo(g) && Undo(g).active == f.active
      && CanRedo(Undo(g)) && Redo(Undo(g)).active == g.active
      && !CanUndo(Redo(Undo(g)))
  {
  }

  /**
   * `reset` empties the undo slot, so a following `undo` returns false, but
   * keeps the redo slot, so a following `redo` succeeds exactly when it would
   * have before and restores the same state.
   */
  lemma ResetKeepsRedo(c: Config, f: Fields)
    ensures Reset(c, f).active == c.initial
    ensures !CanUndo(Reset(c, f)) && Undo(Reset(c, f)) == Reset(c, f)
    ensures CanRedo(Reset(c, f)) <==> CanRedo(f)
    ensures CanRedo(f) ==> Redo(Reset(c, f)).active == f.redo.value
  {
  }

  /** After `clearHistory` both `undo` and `redo` return false, and the active state is unchanged. */
  lemma ClearHistoryDisablesBoth(f: Fields)
    ensures ClearHistory(f).active == f.active
    ensures !CanUndo(ClearHistory(f)) && !CanRedo(ClearHistory(f))
  {
  }

  /**
   * Through any sequence of `changeState`, `trigger` and `reset` calls, the
   * redo slot survives unchanged.
   */
  lemma {:induction false} RedoSurvivesNonHistoryCalls(c: Config, f: Fields, calls: seq<Call>)
    requires forall i :: 0 <= i < |calls| ==> KeepsRedo(calls[i])
    ensures Run(c, f, calls).redo == f.redo
    decreases |calls|
  {
    if calls != [] {
      RedoSurvivesNonHistoryCalls(c, Step(c, f, calls[0]), calls[1..]);
    }
  }

  /**
   * Only `undo` fills the redo slot: through any sequence of calls without
   * `undo`, the redo slot either keeps its value or becomes empty.
   */
  lemma {:induction false} OnlyUndoFillsRedo(c: Config, f: Fields, calls: seq<Call>)
    requires forall i :: 0 <= i < |calls| ==> !calls[i].UndoCall?
    ensures Run(c, f, calls).redo == f.redo || Run(c, f, calls).redo == None
    decreases |calls|
  {
    if calls != [] {
      var g := Step(c, f, calls[0]);
      assert g.redo == f.redo || g.redo == None;
      OnlyUndoFillsRedo(c, g, calls[1..]);
    }
  }
}
