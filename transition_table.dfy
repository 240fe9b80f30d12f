/**
 * The transition records both state machines store, the filters they search
 * their tables with, and the count guards their triggers share.
 */
module TransitionTable {
  import opened Wrappers

  /** A registered transition: the plain `(from, to)` record both machines append to their lists. */
  datatype Edge<S> = Edge(from: S, to: S)

  /** The failures a registration or a trigger throws. */
  datatype MachineError = NoTransition | NonDeterministic

  /** No `(from, to)` pair occurs twice in the list. */
  ghost predicate NoDuplicatePairs<S>(ts: seq<Edge<S>>) {
    forall i, j :: 0 <= i < j < |ts| ==> ts[i] != ts[j]
  }

  /** The entries of `ts` that run from `from` to `to`, in list order. */
  function Between<S(==)>(ts: seq<Edge<S>>, from: S, to: S): (r: seq<Edge<S>>)
    ensures |r| <= |ts|
    ensures forall i :: 0 <= i < |r| ==> r[i] == Edge(from, to)
    ensures |r| == 0 <==> Edge(from, to) !in ts
  {
    if ts == [] then []
    else if ts[0].from == from && ts[0].to == to then [ts[0]] + Between(ts[1..], from, to)
    else Between(ts[1..], from, to)
  }

  /** The entries of `ts` that leave `from`, in list order. */
  function Leaving<S(==)>(ts: seq<Edge<S>>, from: S): (r: seq<Edge<S>>)
    ensures |r| <= |ts|
    ensures forall i :: 0 <= i < |r| ==> r[i].from == from
  {
    if ts == [] then []
    else if ts[0].from == from then [ts[0]] + Leaving(ts[1..], from)
    else Leaving(ts[1..], from)
  }

  /** An entry of `ts` is among the candidates `Leaving` returns exactly when it leaves `from`. */
  lemma {:induction false} LeavingSelectsExactly<S>(ts: seq<Edge<S>>, from: S, t: Edge<S>)
    ensures t in Leaving(ts, from) <==> t in ts && t.from == from
  {
    if ts != [] {
      LeavingSelectsExactly(ts[1..], from, t);
    }
  }

  /** Some candidate leaves `from` exactly when some entry of `ts` does. */
  lemma LeavingNonEmpty<S>(ts: seq<Edge<S>>, from: S)
    ensures |Leaving(ts, from)| >= 1 <==> exists k :: 0 <= k < |ts| && ts[k].from == from
  {
    if |Leaving(ts, from)| >= 1 {
      var t := Leaving(ts, from)[0];
      LeavingSelectsExactly(ts, from, t);
      var k :| 0 <= k < |ts| && ts[k] == t;
      assert ts[k].from == from;
    }
    if k :| 0 <= k < |ts| && ts[k].from == from {
      LeavingSelectsExactly(ts, from, ts[k]);
    }
  }

  /**
   * A trigger finds two or more candidates, and so throws NonDeterministic,
   * exactly when two distinct entries of its list leave the state.
   */
  lemma {:induction false} LeavingAmbiguous<S>(ts: seq<Edge<S>>, from: S)
    ensures |Leaving(ts, from)| >= 2 <==>
              exists i, j :: 0 <= i < j < |ts| && ts[i].from == from && ts[j].from == from
  {
    if ts != [] {
      var rest := ts[1..];
      LeavingAmbiguous(rest, from);
      LeavingNonEmpty(rest, from);
      if exists i, j :: 0 <= i < j < |ts| && ts[i].from == from && ts[j].from == from {
        var i, j :| 0 <= i < j < |ts| && ts[i].from == from && ts[j].from == from;
        if ts[0].from == from {
          assert rest[j - 1].from == from;
        } else {
          assert rest[i - 1].from == from && rest[j - 1].from == from;
        }
      }
      if |Leaving(ts, from)| >= 2 {
        if ts[0].from == from {
          var k :| 0 <= k < |rest| && rest[k].from == from;
          assert ts[0].from == from && ts[k + 1].from == from;
        } else {
          var i, j :| 0 <= i < j < |rest| && rest[i].from == from && rest[j].from == from;
          assert ts[i + 1].from == from && ts[j + 1].from == from;
        }
      }
    }
  }

  /**
   * The count guards of a trigger: no candidate throws NoTransition, two or
   * more throw NonDeterministic, and a single candidate is the one taken.
   */
  function Decide<S>(candidates: seq<Edge<S>>): (r: Result<Edge<S>, MachineError>)
    ensures r == Failure(NoTransition) <==> |candidates| == 0
    ensures r == Failure(NonDeterministic) <==> |candidates| >= 2
    ensures r.Success? <==> |candidates| == 1
    ensures r.Success? ==> r.value == candidates[0]
  {
    if |candidates| == 0 then Failure(NoTransition)
    else if |candidates| >= 2 then Failure(NonDeterministic)
    else Success(candidates[0])
  }

  /** Appending a pair that is not yet in a duplicate-free list keeps it duplicate-free. */
  lemma AppendFreshPair<S>(ts: seq<Edge<S>>, t: Edge<S>)
    requires NoDuplicatePairs(ts) && t !in ts
    ensures NoDuplicatePairs(ts + [t])
  {
    var u := ts + [t];
    forall i, j | 0 <= i < j < |u| ensures u[i] != u[j] {
      if j == |ts| {
        assert u[i] == ts[i] && ts[i] in ts;
      } else {
        assert u[i] == ts[i] && u[j] == ts[j];
      }
    }
  }

  /** In a duplicate-free list at most one entry runs between two given states. */
  lemma {:induction false} AtMostOneBetween<S>(ts: seq<Edge<S>>, from: S, to: S)
    requires NoDuplicatePairs(ts)
    ensures |Between(ts, from, to)| <= 1
  {
    if ts != [] {
      var rest := ts[1..];
      assert NoDuplicatePairs(rest) by {
        forall i, j | 0 <= i < j < |rest| ensures rest[i] != rest[j] {
          assert rest[i] == ts[i + 1] && rest[j] == ts[j + 1];
        }
      }
      if ts[0] == Edge(from, to) {
        assert Edge(from, to) !in rest by {
          forall k | 0 <= k < |rest| ensures rest[k] != Edge(from, to) {
            assert rest[k] == ts[k + 1];
          }
        }
      } else {
        AtMostOneBetween(rest, from, to);
      }
    }
  }

  /**
   * Over a duplicate-free list the direct-state trigger never throws
   * NonDeterministic, and the one candidate it takes always passes the
   * `fromState`/`toState` recheck.
   */
  lemma UniqueTableIsDeterministic<S>(ts: seq<Edge<S>>, from: S, to: S)
    requires NoDuplicatePairs(ts)
    ensures Decide(Between(ts, from, to)) != Failure(NonDeterministic)
    ensures Decide(Between(ts, from, to)).Success? <==> Edge(from, to) in ts
    ensures Decide(Between(ts, from, to)).Success? ==>
              Decide(Between(ts, from, to)).value == Edge(from, to)
  {
    AtMostOneBetween(ts, from, to);
  }
}
