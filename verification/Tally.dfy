/** Adding up a weight over the threads of a machine. */
module Tally {

  function Sum<T>(f: T -> nat, ts: seq<T>): nat {
    if ts == [] then 0 else Sum(f, ts[..|ts| - 1]) + f(ts[|ts| - 1])
  }

  lemma {:induction false} Updated<T>(f: T -> nat, ts: seq<T>, t: nat, x: T)
    requires t < |ts|
    ensures Sum(f, ts[t := x]) == Sum(f, ts) - f(ts[t]) + f(x)
    ensures Sum(f, ts) >= f(ts[t])
  {
    var last := |ts| - 1;
    if t == last {
      assert ts[t := x][..last] == ts[..last];
    } else {
      assert ts[t := x][..last] == ts[..last][t := x];
      Updated(f, ts[..last], t, x);
    }
  }

  lemma {:induction false} Same<T>(f: T -> nat, ts: seq<T>, us: seq<T>)
    requires |ts| == |us| && forall i :: 0 <= i < |ts| ==> f(ts[i]) == f(us[i])
    ensures Sum(f, ts) == Sum(f, us)
  {
    if ts != [] {
      Same(f, ts[..|ts| - 1], us[..|us| - 1]);
    }
  }

  lemma {:induction false} Positive<T>(f: T -> nat, ts: seq<T>)
    ensures Sum(f, ts) > 0 <==> exists i :: 0 <= i < |ts| && f(ts[i]) > 0
  {
    if ts != [] {
      Positive(f, ts[..|ts| - 1]);
      assert forall i :: 0 <= i < |ts| - 1 ==> ts[..|ts| - 1][i] == ts[i];
    }
  }

  /** When all but one weigh nothing, the sum is that one's weight. */
  lemma {:induction false} Single<T>(f: T -> nat, ts: seq<T>, t: nat)
    requires t < |ts| && forall i :: 0 <= i < |ts| && i != t ==> f(ts[i]) == 0
    ensures Sum(f, ts) == f(ts[t])
  {
    var last := |ts| - 1;
    if t == last {
      Positive(f, ts[..last]);
    } else {
      Single(f, ts[..last], t);
    }
  }

  lemma {:induction false} AtMost<T>(f: T -> nat, ts: seq<T>, bound: nat)
    requires forall i :: 0 <= i < |ts| ==> f(ts[i]) <= bound
    ensures Sum(f, ts) <= bound * |ts|
  {
    if ts != [] {
      AtMost(f, ts[..|ts| - 1], bound);
      assert bound * |ts| == bound * (|ts| - 1) + bound;
    }
  }

  /** Things that each have a hole of their own are no more than the holes. */
  lemma {:induction false} OwnHoles<T>(f: T -> nat, hole: T -> nat, ts: seq<T>, holes: set<nat>)
    requires forall i :: 0 <= i < |ts| && f(ts[i]) > 0 ==> f(ts[i]) == 1 && hole(ts[i]) in holes
    requires forall i, j :: 0 <= i < j < |ts| && f(ts[i]) > 0 && f(ts[j]) > 0 ==> hole(ts[i]) != hole(ts[j])
    ensures Sum(f, ts) <= |holes|
  {
    if ts != [] {
      var last := |ts| - 1;
      OwnHoles(f, hole, ts[..last], if f(ts[last]) > 0 then holes - {hole(ts[last])} else holes);
    }
  }

  function Numbers(n: nat): (r: set<nat>)
    ensures |r| == n && forall h: nat :: h in r <==> h < n
  {
    if n == 0 then {} else Numbers(n - 1) + {n - 1}
  }

  lemma Pigeons<T>(f: T -> nat, hole: T -> nat, ts: seq<T>, holes: nat)
    requires forall i :: 0 <= i < |ts| && f(ts[i]) > 0 ==> f(ts[i]) == 1 && hole(ts[i]) < holes
    requires forall i, j :: 0 <= i < j < |ts| && f(ts[i]) > 0 && f(ts[j]) > 0 ==> hole(ts[i]) != hole(ts[j])
    ensures Sum(f, ts) <= holes
  {
    OwnHoles(f, hole, ts, Numbers(holes));
  }

  /** Splitting one weight into two. */
  lemma {:induction false} Split<T>(f: T -> nat, g: T -> nat, h: T -> nat, ts: seq<T>)
    requires forall i :: 0 <= i < |ts| ==> f(ts[i]) == g(ts[i]) + h(ts[i])
    ensures Sum(f, ts) == Sum(g, ts) + Sum(h, ts)
  {
    if ts != [] {
      Split(f, g, h, ts[..|ts| - 1]);
    }
  }

  lemma {:induction false} AllOnes<T>(f: T -> nat, ts: seq<T>)
    requires forall i :: 0 <= i < |ts| ==> f(ts[i]) == 1
    ensures Sum(f, ts) == |ts|
  {
    if ts != [] {
      AllOnes(f, ts[..|ts| - 1]);
    }
  }
}
