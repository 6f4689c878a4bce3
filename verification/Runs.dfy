/** Runs of a machine given by its step relation: the states passed through, and what led from each
    to the next. */
module Runs {

  /** `states` with the actions between them. */
  ghost predicate IsRun<S(!new), A(!new)>(step: (S, A, S) -> bool, states: seq<S>, run: seq<A>) {
    |states| == |run| + 1 && forall k {:trigger run[k]} :: 0 <= k < |run| ==> step(states[k], run[k], states[k + 1])
  }

  /** The states some run from an initial state ends in. */
  ghost predicate Reached<S(!new), A(!new)>(init: S -> bool, step: (S, A, S) -> bool, s: S) {
    exists states, run :: IsRun(step, states, run) && init(states[0]) && states[|run|] == s
  }

  lemma Extends<S(!new), A(!new)>(step: (S, A, S) -> bool, states: seq<S>, run: seq<A>, a: A, n: S)
    requires IsRun(step, states, run) && step(states[|run|], a, n)
    ensures IsRun(step, states + [n], run + [a])
  {
  }

  lemma RestOfRun<S(!new), A(!new)>(step: (S, A, S) -> bool, states: seq<S>, run: seq<A>)
    requires IsRun(step, states, run) && run != []
    ensures IsRun(step, states[1..], run[1..])
  {
    forall k | 0 <= k < |run[1..]| ensures step(states[1..][k], run[1..][k], states[1..][k + 1]) {
      assert run[k + 1] == run[1..][k];
    }
  }

  lemma ReachedNext<S(!new), A(!new)>(init: S -> bool, step: (S, A, S) -> bool, s: S, a: A, n: S)
    requires Reached(init, step, s) && step(s, a, n)
    ensures Reached(init, step, n)
  {
    var states, run :| IsRun(step, states, run) && init(states[0]) && states[|run|] == s;
    Extends(step, states, run, a, n);
    assert (states + [n])[0] == states[0];
  }

  /** What every step keeps holds all along a run. */
  lemma {:induction false} Kept<S(!new), A(!new)>(
    step: (S, A, S) -> bool, inv: S -> bool, states: seq<S>, run: seq<A>, k: nat)
    requires IsRun(step, states, run) && k < |states| && inv(states[0])
    requires forall s, a, n :: inv(s) && step(s, a, n) ==> inv(n)
    ensures inv(states[k])
  {
    if k > 0 {
      Kept(step, inv, states, run, k - 1);
      assert step(states[k - 1], run[k - 1], states[k]);
    }
  }

  /** When every step lowers a rank, a run is no longer than the rank it starts from. */
  lemma {:induction false} Shortens<S(!new), A(!new)>(
    step: (S, A, S) -> bool, inv: S -> bool, rank: S -> nat, states: seq<S>, run: seq<A>, k: nat)
    requires IsRun(step, states, run) && k < |states| && inv(states[0])
    requires forall s, a, n :: inv(s) && step(s, a, n) ==> inv(n) && rank(n) < rank(s)
    ensures inv(states[k]) && k + rank(states[k]) <= rank(states[0])
  {
    if k > 0 {
      Shortens(step, inv, rank, states, run, k - 1);
      assert step(states[k - 1], run[k - 1], states[k]);
    }
  }

  /** What holds at first and is kept by every step holds in every state reached. */
  lemma ReachedInv<S(!new), A(!new)>(init: S -> bool, step: (S, A, S) -> bool, inv: S -> bool, s: S)
    requires Reached(init, step, s)
    requires forall t :: init(t) ==> inv(t)
    requires forall t, a, n :: inv(t) && step(t, a, n) ==> inv(n)
    ensures inv(s)
  {
    var states, run :| IsRun(step, states, run) && init(states[0]) && states[|run|] == s;
    Kept(step, inv, states, run, |run|);
  }
}
