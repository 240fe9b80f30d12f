# ExtAppKit state machines and utilities, modelled in Dafny

This project models the logic-bearing core of ExtAppKit, a Swift utility library:

- **`StateMachine<S, E>`** (module `StateMachine`) is the event-aware finite-state machine. It holds:
  - a plain transition list for direct-state triggers (`machine => state`);
  - a per-event transition table for event triggers (`event => machine`);
  - enter-, leave- and event-handler registries;
  - the current `state`.

  Registering a `(from, to)` pair twice in the same list throws `NonDeterministic`. A trigger finds its candidates and throws `NoTransition` (none) or `NonDeterministic` (more than one), changing nothing. Otherwise it submits:
  1. the leave-handlers of the old state;
  2. for an event trigger, the event's handlers;
  3. then it writes `state`;
  4. then it submits the enter-handlers of the new state.

  Handlers go to a performer that may run them later. The model records each submission, in order, in the `submitted` trace.
- **`XStateMachine<S, E>`** (module `XStateMachine`) is the earlier variant. It has one transition list, the same duplicate check and a direct-state trigger. Because registration keeps pairs unique, its `NonDeterministic` guard and the recheck of the taken transition can never fire (`TransitionTable.UniqueTableIsDeterministic`).
- **`XStateTransition<S>`** (module `XStateTransition`) is a single edge. It has fixed `fromState`/`toState`, an optional guard (`condition`, absent means eligible) and optional in-/after-transition callbacks. Running a callback appends a record to the `performed` trace.
- **`CommandBus`** (module `CommandBus`) is a directory from a command key to the ordered list of `(owner, handler)` registrations.
  - Registering appends.
  - Removing drops the owner's entries and deletes a key whose list becomes empty.
  - Calling or sending a command runs or queues the key's handlers in order (the `calls` trace).
- **`Logger` level filtering** (module `Logging`): the ranked levels with their raw values and names, the per-area override map, the filter check, the write gate of `log` (the `written` trace) and the closure gate of `execute` and its six per-level wrappers (a run count).
- **`Time`** (module `Time`): hour/minute/second/millisecond, the millisecond total, and the comparison operators, all defined through the total.
- **`Optional<T>`** (module `Optional`): a mutable box with `isPresent`, `ifPresent`, `orElse` and `orElseGet`.

`TransitionTable` holds what both machines share: the `(from, to)` record, the error kinds, the search filters, the count guards of a trigger and the duplicate-freedom lemmas. `Wrappers` holds `Option`, `Outcome` (a throwing call without a result), `Result` and the dictionary-of-lists lookup, in which an absent key reads as an empty list.

A few modelling choices:
- The transition records of the two machines (`StateMachineTransition`, `XStateMachineTransition`) are defined elsewhere in the library. They are modelled as the plain `Edge(from, to)` record.
- The state and event marker protocols become type parameters with equality.
- Handlers and callbacks are represented by identifiers. A guard is a pure function of the two states and the context. A supplier is a pure function `() -> T`, and its calls are counted. A closure's effect on the world is not modelled.
- Each Swift operator is a named method that delegates:
  - `+=` is `AddPair` and `AddEventTriple`;
  - `=>` is `GoTo`, `Fire` and `Arrow`;
  - `>+`, `+>` and `<+>` are `OnEnter`, `OnLeave` and `OnEvent`.
- The command key that the bus derives from the type name by reflection is given as a key. A class that is not a command is a `CommandClass` whose `isCommand` is false.
- `object` is a reserved word in Dafny, so the box's field is called `obj`.

Three facts about the triggers that the code fixes:
- There is no guarded, first-match trigger. The only guard logic is a single transition's `checkCondition`, and no machine calls it.
- An event transition is added to the event's list only, not also to the plain list. So a direct trigger never takes it (`StateMachine.EventOnlyRun`).
- `tryEvent` fails with `NoTransition` only when none of the event's transitions leaves the current state. It fails with `NonDeterministic` when two or more do (`TransitionTable.LeavingAmbiguous`).

`Logger.log` hands no area to the filter, so a per-area override never affects what `log` writes. It only affects explicit `isLogLevelEnabled(level, area)` checks. The model keeps this behaviour as written; `Logging.AreaOverrideRun` exhibits it.

## Model

| member | source | states |
|---|---|---|
| TransitionTable.Between | Sources/Classes/Utiliies/StateMachine/StateMachine.swift:321-338 | the `(from, to)` search returns only entries equal to `(from, to)`; it is empty exactly when the pair is not in the list |
| TransitionTable.Leaving | Sources/Classes/Utiliies/StateMachine/StateMachine.swift:309-319 | the `from` search returns only entries leaving `from`, never more than the list holds |
| TransitionTable.LeavingSelectsExactly | Sources/Classes/Utiliies/StateMachine/StateMachine.swift:295-319 | an entry is a candidate exactly when it is in the list and leaves `from` (both directions) |
| TransitionTable.LeavingNonEmpty | Sources/Classes/Utiliies/StateMachine/StateMachine.swift:309-319 | the search finds a candidate exactly when some entry of the list leaves `from` |
| TransitionTable.LeavingAmbiguous | Sources/Classes/Utiliies/StateMachine/StateMachine.swift:258-266 | an event trigger sees two or more candidates, and so throws NonDeterministic, exactly when two distinct entries of the event's list leave the current state |
| TransitionTable.Decide | Sources/Classes/Utiliies/StateMachine/StateMachine.swift:258-268 | the count guards: no candidate is NoTransition, two or more are NonDeterministic, exactly one is taken and it is the first |
| TransitionTable.AppendFreshPair | Sources/Classes/Utiliies/StateMachine/StateMachine.swift:100-112 | appending a pair that is not yet present keeps the list free of duplicate pairs |
| TransitionTable.AtMostOneBetween | Sources/Classes/Utiliies/StateMachine/XStateMachine.swift:106-114 | in a duplicate-free list at most one entry runs between two given states |
| TransitionTable.UniqueTableIsDeterministic | Sources/Classes/Utiliies/StateMachine/XStateMachine.swift:103-122 | over a duplicate-free list the direct trigger never reaches NonDeterministic; it succeeds exactly when the pair is registered, and the taken entry always passes the recheck |
| StateMachine.Submissions | Sources/Classes/Utiliies/StateMachine/StateMachine.swift:281-293 | one submission per handler of the list |
| StateMachine.SubmissionAt | Sources/Classes/Utiliies/StateMachine/StateMachine.swift:281-293 | the handler at position i is submitted at position i: list order is kept |
| StateMachine.SubmissionsAppend | Sources/Classes/Utiliies/StateMachine/StateMachine.swift:158-198 | a handler appended to a list is submitted after all earlier ones |
| StateMachine.Dispatched | Sources/Classes/Utiliies/StateMachine/StateMachine.swift:270-275 | a successful trigger submits one call per leave-handler of the old state, per handler of the event (event triggers only) and per enter-handler of the new state, and no other |
| StateMachine.DispatchedOrder | Sources/Classes/Utiliies/StateMachine/StateMachine.swift:235-239 | every call carries the trigger's event and target; only enter-handlers get the new state as `from`; a direct trigger submits no event handler; all leave-handlers precede every other call and all enter-handlers follow every other call |
| StateMachine.Machine.Candidates | Sources/Classes/Utiliies/StateMachine/StateMachine.swift:257-258 | every candidate of an event trigger leaves the given state |
| StateMachine.Machine.constructor | Sources/Classes/Utiliies/StateMachine/StateMachine.swift:80-84 | starts in the initial state with empty tables, empty registries and nothing submitted |
| StateMachine.Machine.AddTransition | Sources/Classes/Utiliies/StateMachine/StateMachine.swift:100-112 | a registered pair throws NonDeterministic and leaves the list unchanged; otherwise exactly that pair is appended; duplicate-freedom is kept |
| StateMachine.Machine.AddEventTransition | Sources/Classes/Utiliies/StateMachine/StateMachine.swift:129-148 | the duplicate check looks at the event's own list only; on success only that list grows, by exactly the pair; the plain list is not touched (frame) |
| StateMachine.Machine.AddEnterStateHandler | Sources/Classes/Utiliies/StateMachine/StateMachine.swift:158-170 | appends the handler to the state's list; every other state keeps its list |
| StateMachine.Machine.AddLeaveStateHandler | Sources/Classes/Utiliies/StateMachine/StateMachine.swift:172-184 | appends the handler to the state's list; every other state keeps its list |
| StateMachine.Machine.AddEventHandler | Sources/Classes/Utiliies/StateMachine/StateMachine.swift:186-198 | appends the handler to the event's list; every other event keeps its list |
| StateMachine.Machine.TryTransition | Sources/Classes/Utiliies/StateMachine/StateMachine.swift:217-240 | fails with NoTransition exactly when `(state, toState)` is not in the plain list (event transitions do not count); never NonDeterministic; a failure changes neither state nor submissions; success sets `state` to `toState` and submits leave-handlers of the old state, then enter-handlers of the new state with the new state as `from`; the tables and registries are outside its frame |
| StateMachine.Machine.TryEvent | Sources/Classes/Utiliies/StateMachine/StateMachine.swift:254-276 | NoTransition exactly when no transition of the event leaves the state, NonDeterministic exactly when two or more do, nothing changes on failure; success moves to the candidate's target and submits leave-, then event-, then enter-handlers |
| StateMachine.Machine.Apply | Sources/Classes/Utiliies/StateMachine/StateMachine.swift:268-275 | the commit step: leave-handlers, then event handlers for an event trigger, then the state write, then enter-handlers |
| StateMachine.Machine.CallHandlers | Sources/Classes/Utiliies/StateMachine/StateMachine.swift:281-293 | every handler of the list is submitted once, in list order; an absent list submits nothing |
| StateMachine.AddPair | Sources/Classes/Utiliies/StateMachine/StateMachine.swift:350-356 | `+= (from, to)` has exactly the contract of AddTransition |
| StateMachine.AddEventTriple | Sources/Classes/Utiliies/StateMachine/StateMachine.swift:370-376 | `+= (event, from, to)` has exactly the contract of AddEventTransition |
| StateMachine.GoTo | Sources/Classes/Utiliies/StateMachine/StateMachine.swift:400-404 | `machine => state` has the whole contract of TryTransition: the same outcome, the same new state and the same submissions (leave-handlers of the old state, then enter-handlers of the new one) |
| StateMachine.Fire | Sources/Classes/Utiliies/StateMachine/StateMachine.swift:418-422 | `event => machine` has the whole contract of TryEvent: the same outcome, the same new state and the same submissions (leave-, then event-, then enter-handlers) |
| StateMachine.OnEnter | Sources/Classes/Utiliies/StateMachine/StateMachine.swift:424-430 | `>+` appends an enter-handler |
| StateMachine.OnLeave | Sources/Classes/Utiliies/StateMachine/StateMachine.swift:432-438 | `+>` appends a leave-handler |
| StateMachine.OnEvent | Sources/Classes/Utiliies/StateMachine/StateMachine.swift:440-446 | `<+>` appends an event handler |
| StateMachine.EventOnlyRun | Sources/Classes/Utiliies/StateMachine/StateMachine.swift:217-276 | with `Red -> Green` registered for `Go` only, a direct trigger to `Green` fails, firing `Go` reaches `Green`, and firing `Go` again fails with NoTransition |
| StateMachine.DirectDispatchRun | Sources/Classes/Utiliies/StateMachine/StateMachine.swift:235-239 | a direct move from `Red` to `Green` submits the leave-handler of `Red` and then the enter-handler of `Green`, which gets `Green` as `from` |
| XStateMachine.XMachine.Transitions | Sources/Classes/Utiliies/StateMachine/XStateMachine.swift:127-136 | the search returns only `(from, to)` entries and is empty exactly when the pair is not registered |
| XStateMachine.XMachine.constructor | Sources/Classes/Utiliies/StateMachine/XStateMachine.swift:55-59 | starts in the initial state with no transitions |
| XStateMachine.XMachine.AddTransition | Sources/Classes/Utiliies/StateMachine/XStateMachine.swift:72-84 | a registered pair throws NonDeterministic and leaves the list unchanged; otherwise exactly that pair is appended; duplicate-freedom is kept |
| XStateMachine.XMachine.TryTransition | Sources/Classes/Utiliies/StateMachine/XStateMachine.swift:103-122 | never NonDeterministic; NoTransition with the state unchanged exactly when the pair is absent; otherwise the state becomes `toState`; the list is outside its frame |
| XStateMachine.AddPair | Sources/Classes/Utiliies/StateMachine/XStateMachine.swift:148-154 | `+= (from, to)` has exactly the contract of AddTransition |
| XStateMachine.GoTo | Sources/Classes/Utiliies/StateMachine/XStateMachine.swift:171-175 | `machine => state` has the contract of TryTransition |
| XStateMachine.TransitionTest | ExtAppKitTests/StateMachineTests.swift:24-37 | from `State0` with `(State0, State1)` added, `=> State1` succeeds and leaves the machine in `State1` |
| XStateTransition.Invocations | Sources/Classes/Utiliies/StateMachine/XStateTransition.swift:116-140 | a `do...` call makes exactly one call of a set callback, with the given context, and none of an absent one |
| XStateTransition.XTransition.constructor | Sources/Classes/Utiliies/StateMachine/XStateTransition.swift:88-95 | stores the states, the guard and the callbacks as given; the states are constants, so they always read back as given |
| XStateTransition.XTransition.CheckCondition | Sources/Classes/Utiliies/StateMachine/XStateTransition.swift:100-114 | true when no guard is set; otherwise exactly the guard's verdict for this transition and context |
| XStateTransition.XTransition.DoInTransition | Sources/Classes/Utiliies/StateMachine/XStateTransition.swift:116-127 | runs the in-transition callback exactly once when set, nothing otherwise |
| XStateTransition.XTransition.DoAfterTransition | Sources/Classes/Utiliies/StateMachine/XStateTransition.swift:129-140 | runs the after-transition callback exactly once when set, nothing otherwise |
| XStateTransition.Arrow | Sources/Classes/Utiliies/StateMachine/XStateTransition.swift:158-165 | `a => b` is a new transition from `a` to `b` without guard or callbacks, eligible in every context |
| XStateTransition.RunWithoutCallbacks | Sources/Classes/Utiliies/StateMachine/XStateTransition.swift:116-140 | a transition without callbacks records nothing when both `do...` operations run |
| CommandBus.WithoutOwner | Sources/Classes/Utiliies/CommandBus/CommandBus.swift:128-130 | no survivor of the removal filter belongs to the removed owner |
| CommandBus.WithoutOwnerKeepsExactly | Sources/Classes/Utiliies/CommandBus/CommandBus.swift:128-130 | an entry survives exactly when it was in the list and belongs to another owner |
| CommandBus.WithoutOwnerAppend | Sources/Classes/Utiliies/CommandBus/CommandBus.swift:128-130 | the filter distributes over concatenation, so survivors keep their order |
| CommandBus.WithoutAbsentOwner | Sources/Classes/Utiliies/CommandBus/CommandBus.swift:128-130 | a list without entries of the owner is unchanged by the filter |
| CommandBus.WithoutOwnerIdempotent | Sources/Classes/Utiliies/CommandBus/CommandBus.swift:128-130 | filtering twice by the same owner equals filtering once |
| CommandBus.Registered | Sources/Classes/Utiliies/CommandBus/CommandBus.swift:93-105 | the key is present with its old list plus the new entry at the end (a one-entry list for a new key); other keys are untouched; no-empty-list is kept |
| CommandBus.Removed | Sources/Classes/Utiliies/CommandBus/CommandBus.swift:128-139 | the key keeps the filtered list when it is non-empty and is deleted otherwise; other keys are untouched; no-empty-list is kept |
| CommandBus.RegisterThenRemove | Sources/Classes/Utiliies/CommandBus/CommandBus.swift:83-144 | registering an owner new to the key and then removing that owner restores the directory |
| CommandBus.RemoveTwice | Sources/Classes/Utiliies/CommandBus/CommandBus.swift:123-139 | after a removal, a second removal of the same owner is a no-op when the key survived (otherwise it throws, see Bus.RemoveHandler) |
| CommandBus.CallsFor | Sources/Classes/Utiliies/CommandBus/CommandBus.swift:174-180 | one call per registered handler |
| CommandBus.CallAt | Sources/Classes/Utiliies/CommandBus/CommandBus.swift:174-180 | the handler at position i is called at position i with the command |
| CommandBus.CallsForAppend | Sources/Classes/Utiliies/CommandBus/CommandBus.swift:176-179 | one more handler adds exactly its call at the end |
| CommandBus.Bus.constructor | Sources/Classes/Utiliies/CommandBus/CommandBus.swift:76-78 | starts with an empty directory |
| CommandBus.Bus.RegisterHandler | Sources/Classes/Utiliies/CommandBus/CommandBus.swift:83-110 | a non-command class throws ClassNotACommand and changes nothing; otherwise the directory becomes Registered(...) |
| CommandBus.Bus.RemoveHandler | Sources/Classes/Utiliies/CommandBus/CommandBus.swift:112-144 | a non-command class throws ClassNotACommand, an absent key throws CommandNotRegistered, both changing nothing; otherwise the directory becomes Removed(...) |
| CommandBus.Bus.SendCommand | Sources/Classes/Utiliies/CommandBus/CommandBus.swift:146-166 | queues each registered handler once, in order; an absent key queues nothing |
| CommandBus.Bus.CallHandler | Sources/Classes/Utiliies/CommandBus/CommandBus.swift:168-185 | calls each registered handler once, in order; an absent key calls nothing |
| CommandBus.Bus.Dispatch | Sources/Classes/Utiliies/CommandBus/CommandBus.swift:174-180 | the shared loop appends exactly the calls of the key's list, in order |
| CommandBus.CallOrderRun | Sources/Classes/Utiliies/CommandBus/CommandBus.swift:168-185 | two handlers registered for one key are called in registration order; an unregistered key calls nothing |
| CommandBus.RemovalRun | Sources/Classes/Utiliies/CommandBus/CommandBus.swift:112-144 | removing one owner keeps the other's entry, removing the last one deletes the key so another removal throws CommandNotRegistered, and a non-command class is refused |
| Logging.RawValue | Sources/Classes/Logging/Logger.swift:18-26 | raw values lie in 1..0xffff and only `None` has 0xffff |
| Logging.Description | Sources/Classes/Logging/Logger.swift:28-55 | every level prints as a four- or five-letter upper-case name, and exactly `None` prints as `NONE` |
| Logging.RawValueInjective | Sources/Classes/Logging/Logger.swift:18-26 | distinct levels have distinct raw values, so the levels are strictly ranked |
| Logging.DescriptionInjective | Sources/Classes/Logging/Logger.swift:28-55 | distinct levels print distinct names |
| Logging.Enabled | Sources/Classes/Logging/Logger.swift:191 | a level passes a filter set to itself and any filter set to `Trace`, and a message at `None` passes every filter |
| Logging.EnabledMonotone | Sources/Classes/Logging/Logger.swift:191 | if a level passes the filter, every level with a larger raw value passes too |
| Logging.NoneDisablesAllLevels | Sources/Classes/Logging/Logger.swift:191 | a `None` filter passes nothing from `Trace` to `Fatal`, only `None` itself |
| Logging.DefaultFilter | Sources/Classes/Logging/Logger.swift:113 | the default `Info` filter passes exactly `Info` to `None`, not `Trace` or `Debug` |
| Logging.EffectiveLevel | Sources/Classes/Logging/Logger.swift:175-189 | the area's override when an area with an override is given, the global level otherwise |
| Logging.OverrideIsLocal | Sources/Classes/Logging/Logger.swift:157-160 | setting the override of one area changes the filter of that area only |
| Logging.Logger.constructor | Sources/Classes/Logging/Logger.swift:113-137 | the global level starts at `Info`, with no overrides and nothing written |
| Logging.Logger.SetAreaLogLevel | Sources/Classes/Logging/Logger.swift:157-160 | stores the override; afterwards every check for that area uses it |
| Logging.Logger.IsLogLevelEnabled | Sources/Classes/Logging/Logger.swift:173-194 | a level passes exactly when its raw value is at least that of the effective filter |
| Logging.Logger.Log | Sources/Classes/Logging/Logger.swift:209-223 | writes exactly one record when the level passes the global filter, nothing otherwise |
| Logging.Logger.Execute | Sources/Classes/Logging/Logger.swift:372-378 | runs the closure exactly once when the level passes the global filter, never otherwise |
| Logging.Logger.TraceExec | Sources/Classes/Logging/Logger.swift:380-383 | runs the closure once exactly when `Trace` passes |
| Logging.Logger.DebugExec | Sources/Classes/Logging/Logger.swift:385-388 | runs the closure once exactly when `Debug` passes |
| Logging.Logger.InfoExec | Sources/Classes/Logging/Logger.swift:390-393 | runs the closure once exactly when `Info` passes |
| Logging.Logger.WarnExec | Sources/Classes/Logging/Logger.swift:395-398 | runs the closure once exactly when `Warn` passes |
| Logging.Logger.ErrorExec | Sources/Classes/Logging/Logger.swift:400-403 | runs the closure once exactly when `Error` passes |
| Logging.Logger.FatalExec | Sources/Classes/Logging/Logger.swift:405-408 | runs the closure once exactly when `Fatal` passes |
| Logging.AreaOverrideRun | Sources/Classes/Logging/Logger.swift:209-223 | an area set to `Trace` passes a `Trace` check, yet `log` at `Trace` for that area writes nothing under the default filter, while `Warn` is written |
| Time.Time.Milliseconds | Sources/Classes/Utiliies/Time.swift:19-24 | for a normalized time the total lies within its hour |
| Time.Midnight | Sources/Classes/Utiliies/Time.swift:34-39 | all fields zero: 0 milliseconds |
| Time.At | Sources/Classes/Utiliies/Time.swift:41-46 | stores the fields, with seconds and milliseconds defaulting to 0; total is hour*3600000 + minute*60000 + second*1000 + millisecond |
| Time.Equal | Sources/Classes/Utiliies/Time.swift:127-129 | times with equal fields are equal, and two times that differ in the hour, the minute or the second alone are never equal |
| Time.Less | Sources/Classes/Utiliies/Time.swift:93-95 | `<` is irreflexive, never holds between equal times, and when neither `<` nor `==` holds the right-hand time is the earlier |
| Time.LessEq | Sources/Classes/Utiliies/Time.swift:103-105 | `<=` holds exactly when `<` or `==` does |
| Time.GreaterEq | Sources/Classes/Utiliies/Time.swift:113-115 | `>=` is `<=` with the operands swapped, and holds exactly when `>` or `==` does |
| Time.Greater | Sources/Classes/Utiliies/Time.swift:123-125 | `>` is `<` with the operands swapped |
| Time.Trichotomy | Sources/Classes/Utiliies/Time.swift:93-129 | exactly one of `<`, `==`, `>` holds |
| Time.OrderLaws | Sources/Classes/Utiliies/Time.swift:93-129 | `==` is symmetric and transitive, and `<` is transitive |
| Time.MinuteEqualsSixtySeconds | Sources/Classes/Utiliies/Time.swift:127-129 | `==` compares totals, not fields: 0h1m equals 0h0m60s though the fields differ |
| Time.NormalizedOrderIsLexicographic | Sources/Classes/Utiliies/Time.swift:93-95 | on normalized times `<` is the lexicographic order of (hour, minute, second, millisecond) and `==` is field equality |
| Optional.Optional.constructor | Sources/Classes/Utiliies/Optional.swift:25-28 | stores the given object |
| Optional.Optional.IsPresent | Sources/Classes/Utiliies/Optional.swift:17-20 | the box is present exactly when its object is not absent |
| Optional.Optional.IfPresent | Sources/Classes/Utiliies/Optional.swift:41-49 | the closure gets the object exactly once when present, is never called when empty, and the same box is returned unchanged |
| Optional.Optional.OrElse | Sources/Classes/Utiliies/Optional.swift:51-58 | an empty box gets the new object, a present one keeps its own; afterwards the box is present; the same box is returned |
| Optional.Optional.OrElseGet | Sources/Classes/Utiliies/Optional.swift:60-67 | an empty box calls the supplier once and stores its result; a present box keeps its object and never calls the supplier |
| Optional.Empty | Sources/Classes/Utiliies/Optional.swift:33-36 | a new box that is not present |
| Optional.OrElseTwice | Sources/Classes/Utiliies/Optional.swift:52-54 | after a first `orElse`, another `orElse` or `orElseGet` changes nothing and calls no supplier |
| Optional.FillRun | Sources/Classes/Utiliies/Optional.swift:41-58 | an empty box hands nothing to the closure, `orElse(7)` fills it, `orElse(9)` is ignored, and then the closure gets 7 |

## Left out

- Handler concurrency: the performer (`performBackgroundAsync`/`performAsync`, the `backgroundHandlers` switch) and `sendCommand`'s asynchronous dispatch run closures on other threads. The model records each submission, in order, and does not run handlers.
- The `userInfo` value and the machine reference passed to state-machine handlers: both are opaque to the machine and are not recorded.
- The `enter()`/`leave()` trace calls: logging side effects with no bearing on behaviour.
- Handler, callback, guard and supplier bodies: handlers and callbacks are identifiers, guards are pure functions of the two states and the context, and suppliers are pure functions `() -> T`. Their own effects are not modelled.
- XStateTransition.XTransition.CheckCondition: the guard is given only the transition's two states, not the transition object. Whatever a guard could read or change on the object itself (its condition and callback fields, a subclass's state) is not modelled.
- The `E` type parameter of `XStateMachine`: no operation of the class reads the events, so the model drops it.
- Logger I/O: `format`, `write` (`NSLog` on a dispatch queue), timestamps, the `formatter`/`writer` fields, `defaultInstance`, `TypeName` and the per-level `trace`...`fatal` message wrappers and global functions. A written message is recorded as its level, area and text.
- CommandBus reflection: the command identifier is a given key. In the code, registration and removal use the part of the type name before the first ".". `sendCommand` and `callHandler` use the full type name, so for a qualified name the two can differ. The model uses one key for all four and does not reproduce this difference.
- The CommandBus `sharedInstance` singleton.
- Time: `timeIntervall` (floating point), `init(fromDate:)` and `+`, `-`, `+=`, `-=` (through `Date` and `Calendar`), and `hashValue`/`hash(into:)`.
- Time.Time.Milliseconds: Swift's `Int` traps on overflow past 64 bits; the model computes over unbounded integers.
- The Date extensions, the string-to-class lookup, the application services manager and the marker protocols hold no logic of the core.
