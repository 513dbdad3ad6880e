# FSM: a verified model of a one-level-undo finite-state machine

The `FSM` class in `src/fsm.js` is a synchronous finite-state machine over a
read-only configuration. The configuration gives an initial state and, for
each state, a table from event names to destination states. An instance keeps
three fields:

- `_active_state`, the current state;
- `_last_state`, a one-step undo slot;
- `_for_undo_undo`, a one-step redo slot.

These fields are changed by `changeState`, `trigger`, `reset`, `undo`, `redo`
and `clearHistory`. `getState` and `getStates` only read.

The model has four modules:

- `Wrappers` (`wrappers.dfy`) defines `Option`, `Result` and `Outcome`.
- `Configuration` (`configuration.dfy`) defines the configuration as an
  immutable `Config`. It holds `initial`, `order` (the state keys in insertion
  order) and `trans` (state to transition table). It also defines the
  well-formedness predicate, the specification `StatesFor` of `getStates`, and
  lemmas about that scan.
- `Machine` (`machine.dfy`) represents the three fields as a value, `Fields`.
  It has one function per operation and an error kind per `throw`. It also
  defines `Run`, which applies a sequence of calls, and the lemmas about the
  history slots and about sequences of calls.
- `Engine` (`engine.dfy`) is the class `Fsm`, with fields `activeState`,
  `lastState` and `redoState`. Each mutating method states its effect on the
  fields and ties the new fields to the matching `Machine` function. The
  object invariant `Valid()` says that the configuration is well formed and
  that every field names a configured state. `GetStates` hands its scan to
  the module-level method `ScanStates`. That method has the source's nested
  loops: an outer walk over the state keys and an inner walk over the event
  keys that stops at the match (the `break`). It is proved equal to
  `StatesFor`.
- `Engine.PowerSwitch` is a single example, checked by the verifier. It
  drives a two-state on/off machine through the class contracts: `trigger`,
  `undo`, `redo`, a second `undo`, an unknown event, and `getStates`.
  `PowerSwitchConfig`, `PowerSwitchWellFormed` and `PowerSwitchScan` support
  it. They model no operation of the source.

Each thrown `Error` becomes a result value: `Fail(InvalidState)`,
`Fail(UnknownTransition)`, or `Err(ConfigRequired)` from `Fsm.Create`. A
failed call leaves all three fields unchanged.

Behaviour of the code that the model keeps:

- After `trigger`, `undo` and `redo`, a further `undo()` returns false.
  `undo` empties `_last_state` (`src/fsm.js:97`), and `redo` does not refill
  it (`src/fsm.js:107-116`). `Machine.UndoRedoRoundTrip` states this.
- If the active state has no entry in `config.states`, `trigger` reads
  `.transitions` of `undefined` and throws a `TypeError`
  (`src/fsm.js:41`). It does not throw its own error. `Machine.Trigger` models
  this as a separate error kind, `MissingStateEntry`.
  `Machine.TriggerEffect` and `Valid()` show that this error cannot occur
  under a well-formed configuration.
- `getStates` returns an array in key order, not a set. The model returns a
  `seq<string>` and proves it is duplicate-free and in key order.

## Model

| member | source | states |
|---|---|---|
| Configuration.StatesWithMembers | src/fsm.js:72-80 | a key is in the scan's result exactly when it is one of the scanned keys and its transition table has the event |
| Configuration.StatesWithExtend | src/fsm.js:72-80 | scanning one more key appends that key exactly when its table has the event, and otherwise leaves the result as it was |
| Configuration.StatesWithIsSubsequence | src/fsm.js:72-80 | the scan's result is a subsequence of the key order |
| Configuration.StatesWithDistinct | src/fsm.js:74-78 | with distinct keys, no state is listed twice (one push, then `break`) |
| Configuration.AllStatesListed | src/fsm.js:66-68 | without an event, the result is the key order, and it holds exactly the configured states |
| Configuration.StatesForEvent | src/fsm.js:65-83 | with an event, the result holds exactly the states with a transition for it, in key order, without duplicates |
| Machine.Init | src/fsm.js:6-14 | the constructor as a function: `Err(ConfigRequired)` for a missing configuration; otherwise the fields at `initial` with both slots empty (properties: `InitStartsAtInitial`) |
| Machine.ChangeState | src/fsm.js:27-34 | `changeState` as a function. A configured state gives the new fields: that state active, the old active state in the undo slot, and the redo slot kept. Any other state gives `Err(InvalidState)`. Properties: `UndoRedoRoundTrip`, `StepConsistent` |
| Machine.Trigger | src/fsm.js:40-49 | `trigger` as a function. If the active state has no entry, it gives `Err(MissingStateEntry)`, the `TypeError` of line 41. If the event is in the active state's table, it gives the destination with `changeState`'s history update. Otherwise it gives `Err(UnknownTransition)`. Properties: `TriggerEffect`, `UndoRedoRoundTrip` |
| Machine.Reset | src/fsm.js:54-57 | `reset` as a function: `initial` active, undo slot empty, redo slot kept (properties: `ResetKeepsRedo`) |
| Machine.Undo | src/fsm.js:90-100 | `undo` as a function; what it returns is `CanUndo` (properties: `SecondUndoFails`, `UndoRedoRoundTrip`) |
| Machine.Redo | src/fsm.js:107-116 | `redo` as a function; what it returns is `CanRedo` (properties: `SecondRedoFails`, `UndoRedoRoundTrip`) |
| Machine.ClearHistory | src/fsm.js:121-124 | `clearHistory` as a function (properties: `ClearHistoryDisablesBoth`) |
| Machine.Step | src/fsm.js:27-124 | one call of any mutating method; a call that throws leaves the fields unchanged (properties: `StepConsistent`) |
| Machine.Run | src/fsm.js:27-124 | a sequence of calls made one after another (properties: `RunConsistent`, `RedoSurvivesNonHistoryCalls`, `OnlyUndoFillsRedo`) |
| Machine.InitStartsAtInitial | src/fsm.js:6-14 | no configuration fails with `ConfigRequired`; otherwise the machine starts at `initial`, both slots empty, and consistent |
| Machine.TriggerEffect | src/fsm.js:40-49 | on a consistent machine, succeeds exactly when the active state has the event: it moves to the destination, with the same history update as `changeState`; otherwise fails with `UnknownTransition` and changes nothing |
| Machine.StepConsistent | src/fsm.js:27-124 | every call keeps every field naming a configured state |
| Machine.RunConsistent | src/fsm.js:27-124 | any sequence of calls keeps the active state and both slots within the configured states |
| Machine.SecondUndoFails | src/fsm.js:91-97 | after one `undo`, a second `undo` returns false |
| Machine.SecondRedoFails | src/fsm.js:108-110 | after one `redo`, a second `redo` returns false |
| Machine.UndoRedoRoundTrip | src/fsm.js:29-116 | after a successful transition from A to B, `undo` returns true and goes to A, then `redo` returns true and goes to B, and a following `undo` returns false |
| Machine.ResetKeepsRedo | src/fsm.js:54-57 | `reset` goes to `initial` and a following `undo` returns false; `redo` is available afterwards exactly when it was before, and restores the same state |
| Machine.ClearHistoryDisablesBoth | src/fsm.js:121-124 | after `clearHistory`, `undo` and `redo` both return false and the active state is unchanged |
| Machine.RedoSurvivesNonHistoryCalls | src/fsm.js:27-57 | any sequence of `changeState`, `trigger` and `reset` calls leaves the redo slot unchanged |
| Machine.OnlyUndoFillsRedo | src/fsm.js:95-123 | in any sequence of calls without `undo`, the redo slot keeps its value or becomes empty |
| Engine.Fsm.constructor | src/fsm.js:6-14 | the machine starts at `initial` with both slots empty, and is valid |
| Engine.Fsm.Create | src/fsm.js:6-9 | fails with `ConfigRequired` exactly when no configuration is given; otherwise returns a fresh, valid machine on that configuration |
| Engine.Fsm.GetState | src/fsm.js:20-22 | returns the active state, which is a configured state |
| Engine.Fsm.ChangeState | src/fsm.js:27-34 | for a configured state: `Pass`, the state becomes active, the undo slot gets the old active state, and the redo slot is kept; otherwise `Fail(InvalidState)` and no field changes |
| Engine.Fsm.Trigger | src/fsm.js:40-49 | when the active state has the event: `Pass`, with the destination active, the old state in the undo slot and the redo slot kept; otherwise `Fail(UnknownTransition)` and no field changes |
| Engine.Fsm.Reset | src/fsm.js:54-57 | the active state is `initial`, the undo slot is empty, and the redo slot is unchanged |
| Engine.Fsm.GetStates | src/fsm.js:65-83 | the nested scan returns exactly `StatesFor`: all keys without an event, else the states with a transition for it, in key order; no field changes |
| Engine.ScanStates | src/fsm.js:69-82 | the nested loops with `push` and `break` return exactly `StatesWith` of the key order: the states with a transition for the event, in key order |
| Engine.Fsm.Undo | src/fsm.js:90-100 | returns whether the undo slot was filled; if so, the undo slot's state becomes active, the old active state fills the redo slot, and the undo slot is emptied; otherwise no field changes |
| Engine.Fsm.Redo | src/fsm.js:107-116 | returns whether the redo slot was filled; if so, its state becomes active, the slot is emptied, and the undo slot is kept; otherwise no field changes |
| Engine.Fsm.ClearHistory | src/fsm.js:121-124 | both slots are empty and the active state is unchanged |

## Left out

- `module.exports`, the author comment and the error message texts
  (`src/fsm.js:8`, `33`, `47`, `127-129`) are left out. Errors are modelled as
  `Error` kinds, not as strings.
- JavaScript truthiness and coercion are left out. State identifiers are
  non-empty strings and keys are the configuration's own keys. Under that
  assumption, these coincide with plain membership tests:
  - the truthy lookup `config.states[state]`, which also succeeds for
    inherited names such as `toString` in JavaScript;
  - the `if (new_state)` test;
  - the `== null` test in `undo` against the truthy test in `redo`;
  - the loose `==` between event keys.
- `Object.keys` moves integer-like keys to the front in JavaScript. This is
  left out; `order` is taken as the key order.
- The configuration is a shared JavaScript object that callers could mutate
  after construction. The model treats it as an immutable value.
- `getStates` visits a transition table's keys in an arbitrary order in the
  model. The result does not depend on that order.
- Engine.Fsm.constructor: requires a well-formed configuration: `order` lists
  each key once, `initial` and every destination are keys, and keys are
  non-empty. The source accepts any defined value. This precondition is the
  class invariant, and it rules out the `TypeError` path at `src/fsm.js:41`.
  `Machine.Trigger` models that path as `MissingStateEntry`.
- Engine.Fsm.Create: has the same well-formedness requirement when a
  configuration is given.
