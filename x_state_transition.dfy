/**
 * A single transition object: fixed source and target states, an optional
 * guard and two optional callbacks. The guard and the callbacks receive the
 * transition itself and a context; here they see the transition's two
 * states and an optional context of an opaque type `C`. A callback is known
 * by an identifier of type `K`, and running it appends a record to the
 * `performed` trace.
 */
module XStateTransition {
  import opened Wrappers

  /** The guard: whether the transition between two states is eligible in a context. */
  type Condition<!S, !C> = (S, S, Option<C>) -> bool

  /** Which of the two callbacks ran. */
  datatype Phase = InTransition | AfterTransition

  /** One callback invocation, with the context it was given. */
  datatype CallbackRun<C, K> = CallbackRun(phase: Phase, callback: K, context: Option<C>)

  /** The calls one `do...` operation makes: one when the callback is set, none otherwise. */
  function Invocations<C, K>(phase: Phase, callback: Option<K>, context: Option<C>): (r: seq<CallbackRun<C, K>>)
    ensures callback.None? <==> r == []
    ensures callback.Some? ==> |r| == 1 && r[0].callback == callback.value
    ensures forall i :: 0 <= i < |r| ==> r[i].phase == phase && r[i].context == context
  {
    if callback.Some? then [CallbackRun(phase, callback.value, context)] else []
  }

  class XTransition<S, C, K> {
    /** The source state; set once, by the initializer. */
    const fromState: S
    /** The target state; set once, by the initializer. */
    const toState: S
    var condition: Option<Condition<S, C>>
    var inTransition: Option<K>
    var afterTransition: Option<K>
    /** Every callback invocation so far, in order. */
    var performed: seq<CallbackRun<C, K>>

    constructor (fromState: S, toState: S, condition: Option<Condition<S, C>> := None,
                 inTransition: Option<K> := None, afterTransition: Option<K> := None)
      ensures this.fromState == fromState && this.toState == toState
      ensures this.condition == condition
      ensures this.inTransition == inTransition && this.afterTransition == afterTransition
      ensures performed == []
    {
      this.fromState := fromState;
      this.toState := toState;
      this.condition := condition;
      this.inTransition := inTransition;
      this.afterTransition := afterTransition;
      performed := [];
    }

    /**
     * Whether the transition is eligible in `context`: an absent guard means
     * eligible, a present one decides alone.
     */
    function CheckCondition(context: Option<C> := None): (r: bool)
      reads this`condition
      ensures condition.None? ==> r
      ensures condition.Some? ==> (r <==> condition.value(fromState, toState, context))
    {
      if condition.Some? then condition.value(fromState, toState, context) else true
    }

    /** Runs the in-transition callback once when it is set; does nothing otherwise. */
    method DoInTransition(context: Option<C> := None)
      modifies this`performed
      ensures performed == old(performed) + Invocations(InTransition, inTransition, context)
    {
      if inTransition.Some? {
        performed := performed + [CallbackRun(InTransition, inTransition.value, context)];
      }
    }

    /** Runs the after-transition callback once when it is set; does nothing otherwise. */
    method DoAfterTransition(context: Option<C> := None)
      modifies this`performed
      ensures performed == old(performed) + Invocations(AfterTransition, afterTransition, context)
    {
      if afterTransition.Some? {
        performed := performed + [CallbackRun(AfterTransition, afterTransition.value, context)];
      }
    }
  }

  /**
   * `left => right`: a new transition from `left` to `right` with no guard
   * and no callbacks, so it is eligible in every context.
   */
  method Arrow<S, C, K>(left: S, right: S) returns (t: XTransition<S, C, K>)
    ensures fresh(t)
    ensures t.fromState == left && t.toState == right
    ensures t.condition.None? && t.inTransition.None? && t.afterTransition.None?
    ensures forall context: Option<C> :: t.CheckCondition(context)
    ensures t.performed == []
  {
    t := new XTransition(left, right);
  }

  /**
   * A transition without callbacks records nothing however often it runs:
   * its `do...` operations leave the trace as it was.
   */
  method RunWithoutCallbacks<S, C, K>(t: XTransition<S, C, K>, context: Option<C>)
    requires t.inTransition.None? && t.afterTransition.None?
    modifies t`performed
    ensures t.performed == old(t.performed)
  {
    t.DoInTransition(context);
    t.DoAfterTransition(context);
  }
}
