/**
 * The read-only configuration of a state machine: the initial state, the
 * states in the order their keys were inserted, and per state a transition
 * table from events to destination states.  Also the scan that lists the
 * states having a transition for a given event.
 */
module Configuration {
  import opened Wrappers

  /** A transition table: event identifier to destination state identifier. */
  type Transitions = map<string, string>

  /**
   * `order` lists the keys of `states` in insertion order (the order in which
   * `Object.keys` and `for … in` visit them); `trans` gives each state's
   * `transitions` object.
   */
  datatype Config = Config(initial: string, order: seq<string>, trans: map<string, Transitions>)

  /** True iff no identifier occurs twice in `s`. */
  ghost predicate Distinct(s: seq<string>) {
    forall i, j :: 0 <= i < j < |s| ==> s[i] != s[j]
  }

  /** True iff `state` is a key of the configuration's `states` object. */
  predicate IsState(c: Config, state: string) {
    state in c.trans
  }

  /**
   * What a configuration must satisfy for the machine to behave as described:
   * `order` enumerates exactly the state keys, once each; `initial` and every
   * transition destination are state keys; and state identifiers are non-empty
   * strings, so that the truthiness tests on them coincide with presence.
   */
  ghost predicate WellFormed(c: Config) {
    && Distinct(c.order)
    && (forall k :: k in c.order ==> k in c.trans)
    && (forall k :: k in c.trans ==> k in c.order)
    && c.initial in c.trans
    && (forall k :: k in c.trans ==> k != "")
    && (forall k, e :: k in c.trans && e in c.trans[k] ==> c.trans[k][e] in c.trans)
  }

  /**
   * The states among `keys`, kept in the order of `keys`, whose transition
   * table has `event` as a key.  Defined from the back so that it follows a
   * left-to-right scan one key at a time.
   */
  function StatesWith(keys: seq<string>, trans: map<string, Transitions>, event: string): seq<string>
  {
    if keys == [] then []
    else
      var rest := StatesWith(keys[..|keys| - 1], trans, event);
      var k := keys[|keys| - 1];
      if k in trans && event in trans[k] then rest + [k] else rest
  }

  /** The result `getStates` promises: every state without an event, else those with a transition for it. */
  function StatesFor(c: Config, event: Option<string>): seq<string>
  {
    match event
    case None => c.order
    case Some(e) => StatesWith(c.order, c.trans, e)
  }

  /** Scanning one more key appends it exactly when it has a transition for the event. */
  lemma StatesWithExtend(keys: seq<string>, i: nat, trans: map<string, Transitions>, event: string)
    requires i < |keys|
    ensures StatesWith(keys[..i + 1], trans, event) ==
      if keys[i] in trans && event in trans[keys[i]] then StatesWith(keys[..i], trans, event) + [keys[i]]
      else StatesWith(keys[..i], trans, event)
  {
    assert keys[..i + 1][..i] == keys[..i];
  }

  /** True iff `a` can be obtained from `b` by deleting elements. */
  ghost predicate IsSubsequence(a: seq<string>, b: seq<string>)
    decreases |b|
  {
    if a == [] then true
    else if b == [] then false
    else
      (a[|a| - 1] == b[|b| - 1] && IsSubsequence(a[..|a| - 1], b[..|b| - 1]))
      || IsSubsequence(a, b[..|b| - 1])
  }

  /** A state is listed exactly when it is among the keys and has a transition for the event. */
  lemma {:induction false} StatesWithMembers(keys: seq<string>, trans: map<string, Transitions>, event: string, x: string)
    ensures x in StatesWith(keys, trans, event) <==> x in keys && x in trans && event in trans[x]
  {
    if keys != [] {
      var init := keys[..|keys| - 1];
      StatesWithMembers(init, trans, event, x);
      assert keys == init + [keys[|keys| - 1]];
    }
  }

  /** The scan keeps the relative order of the keys. */
  lemma {:induction false} StatesWithIsSubsequence(keys: seq<string>, trans: map<string, Transitions>, event: string)
    ensures IsSubsequence(StatesWith(keys, trans, event), keys)
  {
    if keys != [] {
      var init := keys[..|keys| - 1];
      var rest := StatesWith(init, trans, event);
      StatesWithIsSubsequence(init, trans, event);
      var k := keys[|keys| - 1];
      if k in trans && event in trans[k] {
        var r := rest + [k];
        assert r[..|r| - 1] == rest;
      } else if rest != [] {
        assert IsSubsequence(rest, init);
      }
    }
  }

  /** Distinct keys give a result without duplicates: each state is pushed at most once. */
  lemma {:induction false} StatesWithDistinct(keys: seq<string>, trans: map<string, Transitions>, event: string)
    requires Distinct(keys)
    ensures Distinct(StatesWith(keys, trans, event))
  {
    if keys != [] {
      var init := keys[..|keys| - 1];
      var k := keys[|keys| - 1];
      assert Distinct(init);
      StatesWithDistinct(init, trans, event);
      StatesWithMembers(init, trans, event, k);
      assert k !in init;
    }
  }

  /** Without an event, `getStates` lists exactly the state keys, in configuration order. */
  lemma AllStatesListed(c: Config, x: string)
    requires WellFormed(c)
    ensures StatesFor(c, None) == c.order
    ensures x in StatesFor(c, None) <==> IsState(c, x)
  {
  }

  /**
   * With an event, `getStates` lists exactly the states whose transition table
   * has that event, in configuration order and without duplicates.
   */
  lemma StatesForEvent(c: Config, event: string)
    requires WellFormed(c)
    ensures forall x :: x in StatesFor(c, Some(event)) <==> IsState(c, x) && event in c.trans[x]
    ensures IsSubsequence(StatesFor(c, Some(event)), c.order)
    ensures Distinct(StatesFor(c, Some(event)))
  {
    forall x ensures x in StatesFor(c, Some(event)) <==> IsState(c, x) && event in c.trans[x] {
      StatesWithMembers(c.order, c.trans, event, x);
    }
    StatesWithIsSubsequence(c.order, c.trans, event);
    StatesWithDistinct(c.order, c.trans, event);
  }
}
