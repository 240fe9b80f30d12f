/**
 * The earlier state machine variant: a single transition list, the same
 * duplicate-pair check at registration, and a direct-state trigger. It has
 * no events and no handlers.
 */
module XStateMachine {
  import opened Wrappers
  import opened TransitionTable

  class XMachine<S(==)> {
    /** The current state; written only by a successful trigger. */
    var state: S
    /** The registered transitions, in registration order. */
    var transitions: seq<Edge<S>>

    /** No `(from, to)` pair is registered twice: the registration check keeps this. */
    ghost predicate Valid()
      reads this`transitions
    {
      NoDuplicatePairs(transitions)
    }

    /** The registered transitions that run from `from` to `to`. */
    function Transitions(from: S, to: S): (r: seq<Edge<S>>)
      reads this`transitions
      ensures forall i :: 0 <= i < |r| ==> r[i] == Edge(from, to)
      ensures |r| == 0 <==> Edge(from, to) !in transitions
    {
      Between(transitions, from, to)
    }

    constructor (initialState: S)
      ensures Valid()
      ensures state == initialState && transitions == []
    {
      state := initialState;
      transitions := [];
    }

    /** Registers a transition; a pair already registered throws NonDeterministic. */
    method AddTransition(from: S, to: S) returns (r: Outcome<MachineError>)
      requires Valid()
      modifies this`transitions
      ensures Valid()
      ensures Edge(from, to) in old(transitions) ==> r == Fail(NonDeterministic) && transitions == old(transitions)
      ensures Edge(from, to) !in old(transitions) ==> r == Pass && transitions == old(transitions) + [Edge(from, to)]
    {
      var found := Transitions(from, to);
      if |found| != 0 {
        return Fail(NonDeterministic);
      }
      AppendFreshPair(transitions, Edge(from, to));
      transitions := transitions + [Edge(from, to)];
      r := Pass;
    }

    /**
     * Moves to `toState` when a transition from the current state to it is
     * registered; otherwise throws NoTransition and the state stays. On a
     * duplicate-free list the NonDeterministic guard and the recheck of the
     * taken transition's states never fire.
     */
    method TryTransition(toState: S) returns (r: Outcome<MachineError>)
      requires Valid()
      modifies this`state
      ensures r != Fail(NonDeterministic)
      ensures r == Fail(NoTransition) <==> Edge(old(state), toState) !in transitions
      ensures r == Pass <==> Edge(old(state), toState) in transitions
      ensures r.Fail? ==> state == old(state)
      ensures r.Pass? ==> state == toState
    {
      UniqueTableIsDeterministic(transitions, state, toState);
      var decision := Decide(Transitions(state, toState));
      if decision.Failure? {
        return Fail(decision.error);
      }
      var trans := decision.value;
      if !(trans.from == state && trans.to == toState) {
        return Fail(NoTransition);
      }
      state := trans.to;
      r := Pass;
    }
  }

  /** `machine += (from, to)`: registers a transition. */
  method AddPair<S>(machine: XMachine<S>, right: (S, S)) returns (r: Outcome<MachineError>)
    requires machine.Valid()
    modifies machine`transitions
    ensures machine.Valid()
    ensures Edge(right.0, right.1) in old(machine.transitions) ==>
              r == Fail(NonDeterministic) && machine.transitions == old(machine.transitions)
    ensures Edge(right.0, right.1) !in old(machine.transitions) ==>
              r == Pass && machine.transitions == old(machine.transitions) + [Edge(right.0, right.1)]
  {
    r := machine.AddTransition(right.0, right.1);
  }

  /** `machine => toState`: the trigger. */
  method GoTo<S>(machine: XMachine<S>, toState: S) returns (r: Outcome<MachineError>)
    requires machine.Valid()
    modifies machine`state
    ensures r != Fail(NonDeterministic)
    ensures r == Pass <==> Edge(old(machine.state), toState) in machine.transitions
    ensures r.Fail? ==> r == Fail(NoTransition) && machine.state == old(machine.state)
    ensures r.Pass? ==> machine.state == toState
  {
    r := machine.TryTransition(toState);
  }

  /** The states of the two-state machine the repository's own test builds. */
  datatype TestState = State0 | State1

  /**
   * The repository's transition test: from `State0`, with `(State0, State1)`
   * registered, triggering `State1` succeeds and leaves the machine in
   * `State1`.
   */
  method TransitionTest() returns (added: Outcome<MachineError>, r: Outcome<MachineError>, final: TestState)
    ensures added == Pass && r == Pass
    ensures final == State1
  {
    var machine := new XMachine<TestState>(State0);
    added := AddPair(machine, (State0, State1));
    assert Edge(State0, State1) in machine.transitions;
    r := GoTo(machine, State1);
    final := machine.state;
  }
}
