/**
 * The event-aware state machine: a plain transition list for direct-state
 * triggers, a per-event transition table for event triggers, and enter-,
 * leave- and event-handler registries whose handlers are submitted to a
 * performer around the single write of `state`.
 */
module StateMachine {
  import opened Wrappers
  import opened TransitionTable

  /** The registry a submitted handler was taken from. */
  datatype HandlerKind = LeaveHandler | EventHandler | EnterHandler

  /**
   * One handler call handed to the performer, with the arguments the handler
   * receives: the triggering event (none for a direct-state trigger) and the
   * `from` and `to` states.
   */
  datatype Submission<S, E, H> = Submission(kind: HandlerKind, handler: H, event: Option<E>, from: S, to: S)

  /** The calls submitted for one handler list: one per handler, in list order. */
  function Submissions<S, E, H>(kind: HandlerKind, handlers: seq<H>, event: Option<E>, from: S, to: S)
    : (r: seq<Submission<S, E, H>>)
    ensures |r| == |handlers|
  {
    if handlers == [] then []
    else [Submission(kind, handlers[0], event, from, to)] + Submissions(kind, handlers[1..], event, from, to)
  }

  /** The call for the handler at position `i` sits at position `i`: handlers are submitted in list order. */
  lemma {:induction false} SubmissionAt<S, E, H>(kind: HandlerKind, handlers: seq<H>, event: Option<E>, from: S, to: S, i: nat)
    requires i < |handlers|
    ensures Submissions(kind, handlers, event, from, to)[i] == Submission(kind, handlers[i], event, from, to)
  {
    if i > 0 {
      SubmissionAt(kind, handlers[1..], event, from, to, i - 1);
    }
  }

  /** Submitting one more handler appends exactly its call. */
  lemma {:induction false} SubmissionsAppend<S, E, H>(kind: HandlerKind, handlers: seq<H>, h: H, event: Option<E>, from: S, to: S)
    ensures Submissions(kind, handlers + [h], event, from, to)
         == Submissions(kind, handlers, event, from, to) + [Submission(kind, h, event, from, to)]
  {
    if handlers != [] {
      assert (handlers + [h])[1..] == handlers[1..] + [h];
      SubmissionsAppend(kind, handlers[1..], h, event, from, to);
    }
  }

  /**
   * The calls a successful trigger from `from` to `to` submits, in order:
   * the leave-handlers of `from`, then the handlers of the event when the
   * trigger was an event, then the enter-handlers of `to`, which are given
   * the new state as their `from` argument.
   */
  function Dispatched<S, E, H>(leave: map<S, seq<H>>, onEvent: map<E, seq<H>>, enter: map<S, seq<H>>,
                               event: Option<E>, from: S, to: S): (r: seq<Submission<S, E, H>>)
    ensures |r| == |Lookup(leave, from)| + (if event.Some? then |Lookup(onEvent, event.value)| else 0)
                   + |Lookup(enter, to)|
  {
    Submissions(LeaveHandler, Lookup(leave, from), event, from, to)
      + (if event.Some? then Submissions(EventHandler, Lookup(onEvent, event.value), event, from, to) else [])
      + Submissions(EnterHandler, Lookup(enter, to), event, to, to)
  }

  /**
   * Every dispatched call carries the trigger's event and target; the
   * enter-handlers alone get the new state as `from`; a direct-state trigger
   * submits no event handler; and all leave-handlers come before every other
   * call, all enter-handlers after every other call.
   */
  lemma DispatchedOrder<S, E, H>(leave: map<S, seq<H>>, onEvent: map<E, seq<H>>, enter: map<S, seq<H>>,
                                 event: Option<E>, from: S, to: S)
    ensures var r := Dispatched(leave, onEvent, enter, event, from, to);
      && (forall i :: 0 <= i < |r| ==> r[i].event == event && r[i].to == to)
      && (forall i :: 0 <= i < |r| ==> r[i].from == if r[i].kind == EnterHandler then to else from)
      && (event.None? ==> forall i :: 0 <= i < |r| ==> r[i].kind != EventHandler)
      && (forall i, j :: 0 <= i < j < |r| ==> r[i].kind == LeaveHandler || r[j].kind != LeaveHandler)
      && (forall i, j :: 0 <= i < j < |r| ==> r[j].kind == EnterHandler || r[i].kind != EnterHandler)
  {
    var leaves := Submissions(LeaveHandler, Lookup(leave, from), event, from, to);
    var fired: seq<Submission<S, E, H>> :=
      if event.Some? then Submissions(EventHandler, Lookup(onEvent, event.value), event, from, to) else [];
    var enters := Submissions(EnterHandler, Lookup(enter, to), event, to, to);
    var r := leaves + fired + enters;
    assert r == Dispatched(leave, onEvent, enter, event, from, to);
    forall i | 0 <= i < |r|
      ensures r[i].kind == LeaveHandler <==> i < |leaves|
      ensures r[i].kind == EnterHandler <==> |leaves| + |fired| <= i
      ensures r[i].event == event && r[i].to == to
      ensures r[i].from == if r[i].kind == EnterHandler then to else from
      ensures event.None? ==> r[i].kind != EventHandler
    {
      if i < |leaves| {
        assert r[i] == leaves[i];
        SubmissionAt(LeaveHandler, Lookup(leave, from), event, from, to, i);
      } else if i < |leaves| + |fired| {
        assert r[i] == fired[i - |leaves|];
        SubmissionAt(EventHandler, Lookup(onEvent, event.value), event, from, to, i - |leaves|);
      } else {
        assert r[i] == enters[i - |leaves| - |fired|];
        SubmissionAt(EnterHandler, Lookup(enter, to), event, to, to, i - |leaves| - |fired|);
      }
    }
  }

  /** Regrouping four concatenated call lists; stated once so `Apply` need not rediscover it. */
  lemma AppendAssoc<T>(a: seq<T>, b: seq<T>, c: seq<T>, d: seq<T>)
    ensures a + b + c + d == a + (b + c + d)
  {
  }

  class Machine<S(==), E(==), H> {
    /** The current state; written only by a successful trigger. */
    var state: S
    /** Transitions for direct-state triggers, in registration order. */
    var transitions: seq<Edge<S>>
    /** Transitions per event, in registration order. */
    var events: map<E, seq<Edge<S>>>
    var enterHandlers: map<S, seq<H>>
    var leaveHandlers: map<S, seq<H>>
    var eventHandlers: map<E, seq<H>>
    /** Every handler call handed to the performer so far, in submission order. */
    var submitted: seq<Submission<S, E, H>>

    /** Neither the plain list nor any event's list holds a `(from, to)` pair twice. */
    ghost predicate Valid()
      reads this`transitions, this`events
    {
      && NoDuplicatePairs(transitions)
      && forall e :: e in events ==> NoDuplicatePairs(events[e])
    }

    /** The transitions of `event` that leave `from`: the candidates an event trigger chooses among. */
    function Candidates(event: E, from: S): (r: seq<Edge<S>>)
      reads this`events
      ensures forall i :: 0 <= i < |r| ==> r[i].from == from
    {
      Leaving(Lookup(events, event), from)
    }

    constructor (initialState: S)
      ensures Valid()
      ensures state == initialState && transitions == [] && events == map[]
      ensures enterHandlers == map[] && leaveHandlers == map[] && eventHandlers == map[]
      ensures submitted == []
    {
      state := initialState;
      transitions := [];
      events := map[];
      enterHandlers := map[];
      leaveHandlers := map[];
      eventHandlers := map[];
      submitted := [];
    }

    /** Registers a direct-state transition; a pair already in the plain list throws NonDeterministic. */
    method AddTransition(from: S, to: S) returns (r: Outcome<MachineError>)
      requires Valid()
      modifies this`transitions
      ensures Valid()
      ensures Edge(from, to) in old(transitions) ==> r == Fail(NonDeterministic) && transitions == old(transitions)
      ensures Edge(from, to) !in old(transitions) ==> r == Pass && transitions == old(transitions) + [Edge(from, to)]
    {
      var found := Between(transitions, from, to);
      if |found| != 0 {
        return Fail(NonDeterministic);
      }
      AppendFreshPair(transitions, Edge(from, to));
      transitions := transitions + [Edge(from, to)];
      r := Pass;
    }

    /**
     * Registers a transition taken when `event` fires; only the event's own
     * list is checked for the pair, and only that list grows.
     */
    method AddEventTransition(from: S, to: S, event: E) returns (r: Outcome<MachineError>)
      requires Valid()
      modifies this`events
      ensures Valid()
      ensures Edge(from, to) in Lookup(old(events), event) ==>
                r == Fail(NonDeterministic) && events == old(events)
      ensures Edge(from, to) !in Lookup(old(events), event) ==>
                r == Pass && events == old(events)[event := Lookup(old(events), event) + [Edge(from, to)]]
    {
      var eventTransitions := Get(events, event);
      var found := Between(OrEmpty(eventTransitions), from, to);
      if |found| != 0 {
        return Fail(NonDeterministic);
      }
      if eventTransitions.None? {
        eventTransitions := Some([]);
      }
      AppendFreshPair(eventTransitions.value, Edge(from, to));
      events := events[event := eventTransitions.value + [Edge(from, to)]];
      r := Pass;
    }

    /** Appends `handler` to the enter-handlers of `s`. */
    method AddEnterStateHandler(s: S, handler: H)
      requires Valid()
      modifies this`enterHandlers
      ensures Valid()
      ensures enterHandlers == old(enterHandlers)[s := Lookup(old(enterHandlers), s) + [handler]]
    {
      var handlers := Get(enterHandlers, s);
      if handlers.None? {
        handlers := Some([]);
      }
      enterHandlers := enterHandlers[s := handlers.value + [handler]];
    }

    /** Appends `handler` to the leave-handlers of `s`. */
    method AddLeaveStateHandler(s: S, handler: H)
      requires Valid()
      modifies this`leaveHandlers
      ensures Valid()
      ensures leaveHandlers == old(leaveHandlers)[s := Lookup(old(leaveHandlers), s) + [handler]]
    {
      var handlers := Get(leaveHandlers, s);
      if handlers.None? {
        handlers := Some([]);
      }
      leaveHandlers := leaveHandlers[s := handlers.value + [handler]];
    }

    /** Appends `handler` to the handlers of `event`. */
    method AddEventHandler(event: E, handler: H)
      requires Valid()
      modifies this`eventHandlers
      ensures Valid()
      ensures eventHandlers == old(eventHandlers)[event := Lookup(old(eventHandlers), event) + [handler]]
    {
      var handlers := Get(eventHandlers, event);
      if handlers.None? {
        handlers := Some([]);
      }
      eventHandlers := eventHandlers[event := handlers.value + [handler]];
    }

    /**
     * Moves to `toState` along a plain-list transition. Event transitions do
     * not count. On failure nothing changes and nothing is submitted; on
     * success the leave-handlers of the old state are submitted, then the
     * state is written, then the enter-handlers of the new state are
     * submitted with the new state as their `from` argument.
     */
    method TryTransition(toState: S) returns (r: Outcome<MachineError>)
      requires Valid()
      modifies this`state, this`submitted
      ensures Valid()
      ensures r != Fail(NonDeterministic)
      ensures r == Fail(NoTransition) <==> Edge(old(state), toState) !in transitions
      ensures r == Pass <==> Edge(old(state), toState) in transitions
      ensures r.Fail? ==> state == old(state) && submitted == old(submitted)
      ensures r.Pass? ==> state == toState
      ensures r.Pass? ==> submitted == old(submitted) + Dispatched(leaveHandlers, eventHandlers, enterHandlers, None, old(state), toState)
    {
      AtMostOneBetween(transitions, state, toState);
      var decision := Decide(Between(transitions, state, toState));
      if decision.Failure? {
        return Fail(decision.error);
      }
      var trans := decision.value;
      if !(trans.from == state && trans.to == toState) {
        return Fail(NoTransition);
      }
      Apply(None, trans.to);
      r := Pass;
    }

    /**
     * Fires `event`: the candidates are the event's transitions that leave
     * the current state. None throws NoTransition, two or more throw
     * NonDeterministic, and either way nothing changes. With one candidate,
     * the leave-handlers of the old state and then the event's handlers are
     * submitted, the state is written, and the enter-handlers of the new
     * state are submitted.
     */
    method TryEvent(event: E) returns (r: Outcome<MachineError>)
      modifies this`state, this`submitted
      ensures r == Fail(NoTransition) <==> |Candidates(event, old(state))| == 0
      ensures r == Fail(NonDeterministic) <==> |Candidates(event, old(state))| >= 2
      ensures r == Pass <==> |Candidates(event, old(state))| == 1
      ensures r.Fail? ==> state == old(state) && submitted == old(submitted)
      ensures r.Pass? ==> state == Candidates(event, old(state))[0].to
      ensures r.Pass? ==>
                submitted == old(submitted) + Dispatched(leaveHandlers, eventHandlers, enterHandlers, Some(event), old(state), state)
    {
      var decision := Decide(Leaving(OrEmpty(Get(events, event)), state));
      if decision.Failure? {
        return Fail(decision.error);
      }
      var trans := decision.value;
      Apply(Some(event), trans.to);
      r := Pass;
    }

    /**
     * The effect shared by both triggers once a transition is chosen: submit
     * the leave-handlers of the current state and, for an event trigger, the
     * event's handlers; write `state`; then submit the enter-handlers of the
     * new state.
     */
    method Apply(event: Option<E>, to: S)
      modifies this`state, this`submitted
      ensures state == to
      ensures submitted == old(submitted) + Dispatched(leaveHandlers, eventHandlers, enterHandlers, event, old(state), to)
    {
      ghost var start := submitted;
      ghost var leaves := Submissions(LeaveHandler, Lookup(leaveHandlers, state), event, state, to);
      ghost var fired: seq<Submission<S, E, H>> :=
        if event.Some? then Submissions(EventHandler, Lookup(eventHandlers, event.value), event, state, to) else [];
      ghost var enters := Submissions(EnterHandler, Lookup(enterHandlers, to), event, to, to);
      CallHandlers(Get(leaveHandlers, state), LeaveHandler, event, state, to);
      if event.Some? {
        CallHandlers(Get(eventHandlers, event.value), EventHandler, event, state, to);
      } else {
        assert submitted == start + leaves + fired;
      }
      state := to;
      CallHandlers(Get(enterHandlers, state), EnterHandler, event, state, to);
      AppendAssoc(start, leaves, fired, enters);
    }

    /** Submits every handler of the list to the performer, in list order; an absent list submits nothing. */
    method CallHandlers(handlerList: Option<seq<H>>, kind: HandlerKind, event: Option<E>, from: S, to: S)
      modifies this`submitted
      ensures submitted == old(submitted) + Submissions(kind, OrEmpty(handlerList), event, from, to)
    {
      if handlerList.Some? {
        var handlers := handlerList.value;
        ghost var start := submitted;
        for i := 0 to |handlers|
          invariant submitted == start + Submissions(kind, handlers[..i], event, from, to)
        {
          assert handlers[..i + 1] == handlers[..i] + [handlers[i]];
          SubmissionsAppend(kind, handlers[..i], handlers[i], event, from, to);
          submitted := submitted + [Submission(kind, handlers[i], event, from, to)];
        }
        assert handlers[..|handlers|] == handlers;
      }
    }
  }

  /** `machine += (from, to)`: registers a direct-state transition. */
  method AddPair<S, E, H>(machine: Machine<S, E, H>, right: (S, S)) returns (r: Outcome<MachineError>)
    requires machine.Valid()
    modifies machine`transitions
    ensures machine.Valid()
    ensures Edge(right.0, right.1) in old(machine.transitions) ==>
              r == Fail(NonDeterministic) && machine.transitions == old(machine.transitions)
    ensures Edge(right.0, right.1) !in old(machine.transitions) ==>
              r == Pass && machine.transitions == old(machine.transitions) + [Edge(right.0, right.1)]
  {
    r := machine.AddTransition(right.0, right.1);
  }

  /** `machine += (event, from, to)`: registers an event transition. */
  method AddEventTriple<S, E, H>(machine: Machine<S, E, H>, right: (E, S, S)) returns (r: Outcome<MachineError>)
    requires machine.Valid()
    modifies machine`events
    ensures machine.Valid()
    ensures Edge(right.1, right.2) in Lookup(old(machine.events), right.0) ==>
              r == Fail(NonDeterministic) && machine.events == old(machine.events)
    ensures Edge(right.1, right.2) !in Lookup(old(machine.events), right.0) ==>
              r == Pass && machine.events ==
                old(machine.events)[right.0 := Lookup(old(machine.events), right.0) + [Edge(right.1, right.2)]]
  {
    r := machine.AddEventTransition(right.1, right.2, right.0);
  }

  /** `machine => toState`: the direct-state trigger. */
  method GoTo<S, E, H>(machine: Machine<S, E, H>, toState: S) returns (r: Outcome<MachineError>)
    requires machine.Valid()
    modifies machine`state, machine`submitted
    ensures machine.Valid()
    ensures r != Fail(NonDeterministic)
    ensures r == Fail(NoTransition) <==> Edge(old(machine.state), toState) !in machine.transitions
    ensures r == Pass <==> Edge(old(machine.state), toState) in machine.transitions
    ensures r.Fail? ==> machine.state == old(machine.state) && machine.submitted == old(machine.submitted)
    ensures r.Pass? ==> machine.state == toState
    ensures r.Pass? ==>
              machine.submitted == old(machine.submitted)
                + Dispatched(machine.leaveHandlers, machine.eventHandlers, machine.enterHandlers, None, old(machine.state), toState)
  {
    r := machine.TryTransition(toState);
  }

  /** `event => machine`: the event trigger. */
  method Fire<S, E, H>(event: E, machine: Machine<S, E, H>) returns (r: Outcome<MachineError>)
    requires machine.Valid()
    modifies machine`state, machine`submitted
    ensures machine.Valid()
    ensures r == Fail(NoTransition) <==> |machine.Candidates(event, old(machine.state))| == 0
    ensures r == Fail(NonDeterministic) <==> |machine.Candidates(event, old(machine.state))| >= 2
    ensures r == Pass <==> |machine.Candidates(event, old(machine.state))| == 1
    ensures r.Fail? ==> machine.state == old(machine.state) && machine.submitted == old(machine.submitted)
    ensures r.Pass? ==> machine.state == machine.Candidates(event, old(machine.state))[0].to
    ensures r.Pass? ==>
              machine.submitted == old(machine.submitted)
                + Dispatched(machine.leaveHandlers, machine.eventHandlers, machine.enterHandlers, Some(event),
                             old(machine.state), machine.state)
  {
    r := machine.TryEvent(event);
  }

  /** `(machine, s) >+ handler`: registers an enter-handler. */
  method OnEnter<S, E, H>(machine: Machine<S, E, H>, s: S, handler: H)
    requires machine.Valid()
    modifies machine`enterHandlers
    ensures machine.Valid()
    ensures machine.enterHandlers ==
              old(machine.enterHandlers)[s := Lookup(old(machine.enterHandlers), s) + [handler]]
  {
    machine.AddEnterStateHandler(s, handler);
  }

  /** `(machine, s) +> handler`: registers a leave-handler. */
  method OnLeave<S, E, H>(machine: Machine<S, E, H>, s: S, handler: H)
    requires machine.Valid()
    modifies machine`leaveHandlers
    ensures machine.Valid()
    ensures machine.leaveHandlers ==
              old(machine.leaveHandlers)[s := Lookup(old(machine.leaveHandlers), s) + [handler]]
  {
    machine.AddLeaveStateHandler(s, handler);
  }

  /** `(machine, event) <+> handler`: registers an event handler. */
  method OnEvent<S, E, H>(machine: Machine<S, E, H>, event: E, handler: H)
    requires machine.Valid()
    modifies machine`eventHandlers
    ensures machine.Valid()
    ensures machine.eventHandlers ==
              old(machine.eventHandlers)[event := Lookup(old(machine.eventHandlers), event) + [handler]]
  {
    machine.AddEventHandler(event, handler);
  }

  /** The states of a two-state example machine. */
  datatype Light = Red | Green

  /** The single event of the example machine. */
  datatype Signal = Go

  /**
   * An example run: `Red -> Green` is registered for `Go` only. A direct
   * trigger to `Green` fails, because event transitions do not count for
   * it; firing `Go` moves to `Green`; firing `Go` again from `Green` fails.
   */
  method EventOnlyRun() returns (direct: Outcome<MachineError>, fired: Outcome<MachineError>,
                                 again: Outcome<MachineError>, final: Light)
    ensures direct == Fail(NoTransition) && fired == Pass && again == Fail(NoTransition)
    ensures final == Green
  {
    var m := new Machine<Light, Signal, nat>(Red);
    var added := m.AddEventTransition(Red, Green, Go);
    assert m.Candidates(Go, Red) == [Edge(Red, Green)];
    assert m.Candidates(Go, Green) == [];
    direct := m.TryTransition(Green);
    fired := m.TryEvent(Go);
    again := m.TryEvent(Go);
    final := m.state;
  }

  /**
   * An example run of the dispatch order: with leave-handler 1 on `Red` and
   * enter-handler 2 on `Green`, moving from `Red` to `Green` submits 1 and
   * then 2, and the enter-handler is given `Green` as its `from` argument.
   */
  method DirectDispatchRun() returns (r: Outcome<MachineError>, calls: seq<Submission<Light, Signal, nat>>)
    ensures r == Pass
    ensures calls == [Submission(LeaveHandler, 1, None, Red, Green), Submission(EnterHandler, 2, None, Green, Green)]
  {
    var m := new Machine<Light, Signal, nat>(Red);
    var added := m.AddTransition(Red, Green);
    m.AddLeaveStateHandler(Red, 1);
    m.AddEnterStateHandler(Green, 2);
    assert Lookup(m.leaveHandlers, Red) == [1] && Lookup(m.enterHandlers, Green) == [2];
    assert Submissions<Light, Signal, nat>(LeaveHandler, [1], None, Red, Green) == [Submission(LeaveHandler, 1, None, Red, Green)];
    assert Submissions<Light, Signal, nat>(EnterHandler, [2], None, Green, Green) == [Submission(EnterHandler, 2, None, Green, Green)];
    assert m.state == Red && m.submitted == [];
    assert m.transitions == [Edge(Red, Green)];
    assert Edge(Red, Green) in m.transitions;
    r := m.TryTransition(Green);
    calls := m.submitted;
  }
}
