/**
 * The `FSM` class: a read-only configuration and three fields that the
 * methods reassign.  Each mutating method states its effect on the fields
 * directly and ties the new fields to the matching function of module Machine.
 */
module Engine {
  import opened Wrappers
  import opened Configuration
  import opened Machine

  class Fsm {
    const config: Config
    var activeState: string
    var lastState: Option<string>
    var redoState: Option<string>

    /** The fields as a value. */
    function View(): Fields
      reads this
    {
      Fields(activeState, lastState, redoState)
    }

    /** The object invariant: a well-formed configuration and fields that name configured states only. */
    ghost predicate Valid()
      reads this
    {
      WellFormed(config) && Consistent(config, View())
    }

    /** Creates a machine at the configuration's initial state, with both history slots empty. */
    constructor (config: Config)
      requires WellFormed(config)
      ensures Valid() && this.config == config
      ensures activeState == config.initial && lastState == None && redoState == None
      ensures Init(Some(config)) == Ok(View())
    {
      this.config := config;
      activeState := config.initial;
      lastState := None;
      redoState := None;
    }

    /** The constructor's guard: no configuration fails with `ConfigRequired`, else a fresh machine. */
    static method Create(config: Option<Config>) returns (r: Result<Fsm, Error>)
      requires config.Some? ==> WellFormed(config.value)
      ensures r.Err? <==> config.None?
      ensures r.Err? ==> r.error == ConfigRequired
      ensures r.Ok? ==> fresh(r.value) && r.value.Valid() && r.value.config == config.value
      ensures r.Ok? ==> Init(config) == Ok(r.value.View())
    {
      if config.None? {
        return Err(ConfigRequired);
      }
      var m := new Fsm(config.value);
      return Ok(m);
    }

    /** Returns the active state. */
    method GetState() returns (state: string)
      requires Valid()
      ensures state == activeState && IsState(config, state)
    {
      state := activeState;
    }

    /** Goes to `state` when it is configured; otherwise fails with `InvalidState` and changes nothing. */
    method ChangeState(state: string) returns (outcome: Outcome<Error>)
      requires Valid()
      modifies this
      ensures Valid()
      ensures IsState(config, state) ==>
        outcome == Pass && activeState == state && lastState == Some(old(activeState)) && redoState == old(redoState)
      ensures !IsState(config, state) ==> outcome == Fail(InvalidState) && View() == old(View())
      ensures Machine.ChangeState(config, old(View()), state) == if outcome.Pass? then Ok(View()) else Err(outcome.error)
    {
      if state in config.trans {
        lastState := Some(activeState);
        activeState := state;
        outcome := Pass;
      } else {
        outcome := Fail(InvalidState);
      }
    }

    /**
     * Follows the active state's transition for `event`; without one, fails
     * with `UnknownTransition` and changes nothing.
     */
    method Trigger(event: string) returns (outcome: Outcome<Error>)
      requires Valid()
      modifies this
      ensures Valid()
      ensures event in config.trans[old(activeState)] ==>
        && outcome == Pass
        && activeState == config.trans[old(activeState)][event]
        && lastState == Some(old(activeState)) && redoState == old(redoState)
      ensures event !in config.trans[old(activeState)] ==> outcome == Fail(UnknownTransition) && View() == old(View())
      ensures Machine.Trigger(config, old(View()), event) == if outcome.Pass? then Ok(View()) else Err(outcome.error)
    {
      var table := config.trans[activeState];
      if event in table {
        var newState := table[event];
        lastState := Some(activeState);
        activeState := newState;
        outcome := Pass;
      } else {
        outcome := Fail(UnknownTransition);
      }
    }

    /** Goes back to the initial state and empties the undo slot; the redo slot is kept. */
    method Reset()
      requires Valid()
      modifies this
      ensures Valid()
      ensures activeState == config.initial && lastState == None && redoState == old(redoState)
      ensures View() == Machine.Reset(config, old(View()))
    {
      lastState := None;
      activeState := config.initial;
    }

    /**
     * Lists the states that have a transition for `event`, in configuration
     * order, or every state when no event is given.  Changes nothing.
     */
    method GetStates(event: Option<string>) returns (states: seq<string>)
      requires Valid()
      ensures states == StatesFor(config, event)
    {
      if event.None? {
        return config.order;
      }
      states := ScanStates(config.order, config.trans, event.value);
    }

    /**
     * With an empty undo slot returns false and changes nothing; otherwise
     * moves the active state to the redo slot, makes the undo slot's state
     * active, empties the undo slot and returns true.
     */
    method Undo() returns (ok: bool)
      requires Valid()
      modifies this
      ensures Valid()
      ensures ok == old(lastState).Some?
      ensures !ok ==> View() == old(View())
      ensures ok ==> activeState == old(lastState).value && lastState == None && redoState == Some(old(activeState))
      ensures ok == CanUndo(old(View())) && View() == Machine.Undo(old(View()))
    {
      if lastState == None {
        return false;
      }
      redoState := Some(activeState);
      activeState := lastState.value;
      lastState := None;
      return true;
    }

    /**
     * With an empty redo slot returns false and changes nothing; otherwise
     * makes the redo slot's state active, empties the redo slot and returns
     * true.  The undo slot is kept.
     */
    method Redo() returns (ok: bool)
      requires Valid()
      modifies this
      ensures Valid()
      ensures ok == old(redoState).Some?
      ensures !ok ==> View() == old(View())
      ensures ok ==> activeState == old(redoState).value && redoState == None && lastState == old(lastState)
      ensures ok == CanRedo(old(View())) && View() == Machine.Redo(old(View()))
    {
      if redoState.Some? {
        activeState := redoState.value;
        redoState := None;
        return true;
      } else {
        return false;
      }
    }

    /** Empties both history slots; the active state is kept. */
    method ClearHistory()
      requires Valid()
      modifies this
      ensures Valid()
      ensures redoState == None && lastState == None && activeState == old(activeState)
      ensures View() == Machine.ClearHistory(old(View()))
    {
      redoState := None;
      lastState := None;
    }
  }

  /**
   * The loops of `getStates`: for each key in order, walk its transition
   * table's keys and push the key on the first match, then stop the walk.
   */
  method ScanStates(order: seq<string>, trans: map<string, Transitions>, event: string) returns (states: seq<string>)
    requires forall k :: k in order ==> k in trans
    ensures states == StatesWith(order, trans, event)
  {
    states := [];
    var i := 0;
    while i < |order|
      invariant 0 <= i <= |order|
      invariant states == StatesWith(order[..i], trans, event)
    {
      var key := order[i];
      StatesWithExtend(order, i, trans, event);
      var table := trans[key];
      var eventKeys := table.Keys;
      ghost var done := states;
      while eventKeys != {}
        invariant eventKeys <= table.Keys
        invariant event in table ==> event in eventKeys
        invariant states == done
        decreases eventKeys
      {
        var eventKey :| eventKey in eventKeys;
        if eventKey == event {
          states := states + [key];
          break;
        }
        eventKeys := eventKeys - {eventKey};
      }
      i := i + 1;
    }
    assert order[..i] == order;
  }

  /** The two-state power switch: `off` and `on`, each with a `power` transition to the other. */
  function PowerSwitchConfig(): Config
  {
    Config("off", ["off", "on"], map["off" := map["power" := "on"], "on" := map["power" := "off"]])
  }

  /** The power switch is well formed. */
  lemma PowerSwitchWellFormed()
    ensures WellFormed(PowerSwitchConfig())
  {
    var c := PowerSwitchConfig();
    assert c.trans.Keys == {"off", "on"};
    assert forall k :: k in c.trans ==> c.trans[k].Keys == {"power"};
  }

  /** Both states of the power switch have a `power` transition, listed in key order. */
  lemma PowerSwitchScan()
    ensures StatesFor(PowerSwitchConfig(), Some("power")) == ["off", "on"]
  {
    var c := PowerSwitchConfig();
    assert "power" in c.trans["off"] && "power" in c.trans["on"];
    assert c.order[..0] == [] && c.order[..2] == c.order;
    StatesWithExtend(c.order, 0, c.trans, "power");
    StatesWithExtend(c.order, 1, c.trans, "power");
  }

  /** The power switch driven through trigger, undo and redo, using only the class contracts. */
  method PowerSwitch()
  {
    PowerSwitchWellFormed();
    PowerSwitchScan();
    var m := new Fsm(PowerSwitchConfig());
    var s := m.GetState();
    assert s == "off";
    var outcome := m.Trigger("power");
    s := m.GetState();
    assert outcome == Pass && s == "on";
    var ok := m.Undo();
    s := m.GetState();
    assert ok && s == "off";
    ok := m.Redo();
    s := m.GetState();
    assert ok && s == "on";
    ok := m.Undo();
    assert !ok;
    outcome := m.Trigger("missing");
    assert outcome == Fail(UnknownTransition);
    var states := m.GetStates(Some("power"));
    assert states == ["off", "on"];
  }
}
