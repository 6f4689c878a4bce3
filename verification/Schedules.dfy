/** Schedules: what the others do between two steps of a method, and where they fall silent. */
module Schedules {

  /** The last n turns of a schedule begin here; at its end if it has fewer. */
  function CalmFrom<T>(n: nat, env: seq<T>): (from: nat)
    ensures from <= |env|
  {
    if |env| < n then |env| else |env| - n
  }

  function Latest(a: nat, b: nat): nat { if a < b then b else a }

  /** The state after a turn: the others' actions one after the other, each taken as `taken` says. */
  function AfterTurn<M, S, A>(taken: (M, S, A) -> S, mine: M, s: S, others: seq<A>): S {
    if others == [] then s
    else
      var last := |others| - 1;
      taken(mine, AfterTurn(taken, mine, s, others[..last]), others[last])
  }

  lemma AfterOne<M, S, A>(taken: (M, S, A) -> S, mine: M, s: S, others: seq<A>, k: nat)
    requires k < |others|
    ensures AfterTurn(taken, mine, s, others[..k + 1]) == taken(mine, AfterTurn(taken, mine, s, others[..k]), others[k])
  {
    assert others[..k + 1][..k] == others[..k];
  }
}
