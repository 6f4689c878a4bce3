/** Off-loop spreads with the list that hands their nodes over: the pushers and the handler of
    HandoffList, each node with the spread of LibuvSpread it belongs to. What keeps a node alive
    while the list or the handler still uses it is the queuer's share. */
module LibuvHandoff {
  import opened Runs
  import H = HandoffList
  import L = LibuvSpread

  /** `spreads[i]` is the spread of the node that pusher i pushes. */
  datatype State = State(hand: H.State, spreads: seq<L.State>)

  /** `Spread` is a step inside a spread; `Reuse` gives the address of a deleted node to a new call. */
  datatype Action = Push(i: nat, spurious: bool) | Handle | Spread(i: nat, a: L.Action) | Reuse(i: nat, chunks: nat)

  /** This step of the push links the node: the caller's hand-off. */
  predicate Links(s: State, i: nat, spurious: bool)
    requires i < |s.hand.pushers|
  {
    s.hand.pushers[i].pc.PushCas? && s.hand.pending == s.hand.pushers[i].pc.expected && !spurious
  }

  /** The caller goes on once its push is through; `queue_chunks` runs once the handler has called it. */
  predicate Enabled(s: State, a: Action) {
    match a
    case Push(i, spurious) => i < |s.spreads| && H.Enabled(s.hand, H.Push(i, spurious))
    case Handle => H.Enabled(s.hand, H.Handle)
    case Spread(i, b) =>
      && i < |s.spreads| && i < |s.hand.pushers| && L.Enabled(s.spreads[i], b)
      && (b == L.CallerStep ==> s.spreads[i].caller != L.HandOff && s.hand.pushers[i].pc == H.Pushed)
      && (b.QueuerStep? ==> s.hand.pushers[i].handled == s.hand.pushers[i].pushes)
    case Reuse(i, _) => i < |s.spreads| && s.spreads[i].deletes == 1
  }

  function Next(s: State, a: Action): State
    requires Enabled(s, a)
  {
    match a
    case Push(i, spurious) =>
      State(H.Next(s.hand, H.Push(i, spurious)),
            if Links(s, i, spurious) && L.Enabled(s.spreads[i], L.CallerStep)
            then s.spreads[i := L.Next(s.spreads[i], L.CallerStep)] else s.spreads)
    case Handle => s.(hand := H.Next(s.hand, H.Handle))
    case Spread(i, b) => s.(spreads := s.spreads[i := L.Next(s.spreads[i], b)])
    case Reuse(i, n) =>
      State(if H.Enabled(s.hand, H.Recycle(i)) then H.Next(s.hand, H.Recycle(i)) else s.hand,
            s.spreads[i := L.Init(n)])
  }

  predicate Initial(s: State) {
    && H.Initial(s.hand) && |s.spreads| == |s.hand.pushers|
    && forall i :: 0 <= i < |s.spreads| ==> L.Initial(s.spreads[i])
  }

  predicate StepsTo(s: State, a: Action, n: State) {
    Enabled(s, a) && Next(s, a) == n
  }

  ghost predicate Reachable(s: State) {
    Reached(Initial, StepsTo, s)
  }

  // ----- the invariant

  /** The caller is at its hand-off exactly until the node is linked, waits for its push to end, and
      the queuer has not begun while the node is on its way. */
  predicate Agree(p: H.Pusher, l: L.State) {
    && (l.caller == L.HandOff <==> !H.Linked(p.pc))
    && (p.pc == H.PushSend ==> l.caller == L.TailRun)
    && (p.handled < p.pushes ==> l.queuer == L.QueueNext(0))
  }

  ghost predicate Coupled(s: State, i: nat)
    requires i < |s.spreads| && i < |s.hand.pushers|
  {
    Agree(s.hand.pushers[i], s.spreads[i]) && L.Inv(s.spreads[i])
  }

  ghost predicate Inv(s: State) {
    && H.Inv(s.hand) && |s.spreads| == |s.hand.pushers|
    && forall i: nat :: i < |s.spreads| ==> Coupled(s, i)
  }

  /** A node on its way to its queuer holds the queuer's share. */
  lemma OnItsWayIsAlive(l: L.State)
    requires L.Inv(l) && (l.queuer == L.QueueNext(0) || l.caller == L.HandOff)
    ensures l.refs > 0 && l.deletes == 0
  {
  }

  /** Once a node is deleted, its push is long over and its handling has been. */
  lemma DeletedIsFree(s: State, i: nat)
    requires Inv(s) && i < |s.spreads| && s.spreads[i].deletes == 1
    ensures H.Enabled(s.hand, H.Recycle(i))
  {
    assert Coupled(s, i) && H.PlacedOnce(s.hand, i);
  }

  /** A step of the push, seen from its own node. */
  lemma AgreeAfterPush(s: State, i: nat, spurious: bool)
    requires Inv(s) && Enabled(s, Push(i, spurious))
    ensures var n := Next(s, Push(i, spurious));
      |n.hand.pushers| == |n.spreads| == |s.spreads| && Agree(n.hand.pushers[i], n.spreads[i])
  {
    assert Coupled(s, i) && H.PlacedOnce(s.hand, i);
  }

  lemma CoupledAfterPush(s: State, i: nat, spurious: bool, j: nat)
    requires Inv(s) && Enabled(s, Push(i, spurious)) && j < |s.spreads|
    ensures var n := Next(s, Push(i, spurious)); |n.hand.pushers| == |n.spreads| == |s.spreads| && Coupled(n, j)
  {
    AgreeAfterPush(s, i, spurious);
    assert Coupled(s, j);
    if L.Enabled(s.spreads[i], L.CallerStep) {
      assert Coupled(s, i);
      L.InvKept(s.spreads[i], L.CallerStep);
    }
  }

  lemma CoupledAfterHandle(s: State, j: nat)
    requires Inv(s) && Enabled(s, Handle) && j < |s.spreads|
    ensures var n := Next(s, Handle); |n.hand.pushers| == |n.spreads| == |s.spreads| && Coupled(n, j)
  {
    assert Coupled(s, j);
  }

  lemma SpreadMoves(l: L.State, a: L.Action)
    requires L.Enabled(l, a)
    ensures a != L.CallerStep ==> L.Next(l, a).caller == l.caller
    ensures l.caller != L.HandOff && !a.QueuerStep? ==> L.Next(l, a).queuer == l.queuer
    ensures l.caller != L.HandOff ==> L.Next(l, a).caller != L.HandOff
  {
  }

  lemma CoupledAfterSpread(s: State, i: nat, a: L.Action, j: nat)
    requires Inv(s) && Enabled(s, Spread(i, a)) && j < |s.spreads|
    ensures var n := Next(s, Spread(i, a)); |n.hand.pushers| == |n.spreads| == |s.spreads| && Coupled(n, j)
  {
    assert Coupled(s, j) && H.PlacedOnce(s.hand, j);
    if i == j {
      SpreadMoves(s.spreads[i], a);
      L.InvKept(s.spreads[i], a);
    }
  }

  lemma CoupledAfterReuse(s: State, i: nat, chunks: nat, j: nat)
    requires Inv(s) && Enabled(s, Reuse(i, chunks)) && j < |s.spreads|
    ensures var n := Next(s, Reuse(i, chunks)); |n.hand.pushers| == |n.spreads| == |s.spreads| && Coupled(n, j)
  {
    assert Coupled(s, j);
    DeletedIsFree(s, i);
    L.InitialInv(L.Init(chunks));
  }

  lemma InvKept(s: State, a: Action)
    requires Inv(s) && Enabled(s, a)
    ensures Inv(Next(s, a))
  {
    var n := Next(s, a);
    match a {
      case Push(i, spurious) => H.InvKept(s.hand, H.Push(i, spurious));
      case Handle => H.InvKept(s.hand, H.Handle);
      case Reuse(i, _) => DeletedIsFree(s, i); H.InvKept(s.hand, H.Recycle(i));
      case _ =>
    }
    forall j: nat | j < |s.spreads| ensures |n.hand.pushers| == |n.spreads| == |s.spreads| && Coupled(n, j) {
      match a
      case Push(i, spurious) => CoupledAfterPush(s, i, spurious, j);
      case Handle => CoupledAfterHandle(s, j);
      case Spread(i, b) => CoupledAfterSpread(s, i, b, j);
      case Reuse(i, chunks) => CoupledAfterReuse(s, i, chunks, j);
    }
  }

  lemma InitialInv(s: State)
    requires Initial(s)
    ensures Inv(s)
  {
    forall i: nat | i < |s.spreads| ensures Coupled(s, i) {
      L.InitialInv(s.spreads[i]);
    }
    assert H.Placed(s.hand);
  }

  lemma ReachableInv(s: State)
    requires Reachable(s)
    ensures Inv(s)
  {
    forall t | Initial(t) ensures Inv(t) {
      InitialInv(t);
    }
    forall t, a, n | Inv(t) && StepsTo(t, a, n) ensures Inv(n) {
      InvKept(t, a);
    }
    ReachedInv(Initial, StepsTo, Inv, s);
  }

  // ----- what it gives

  /** The node whose `next` the handler is about to read has not been freed, and cannot be before it
      is passed on: the queuer's share, which only `queue_chunks` gives up, is still out. */
  lemma NextIsReadAlive(s: State)
    requires Reachable(s) && s.hand.handler.Walk? && s.hand.handler.node.Node?
    ensures var i := s.hand.handler.node.i;
      && i < |s.spreads| && s.spreads[i].refs > 0 && s.spreads[i].deletes == 0
      && s.spreads[i].queuer == L.QueueNext(0)
      && !Enabled(s, Spread(i, L.QueuerStep(true))) && !Enabled(s, Spread(i, L.QueuerStep(false)))
  {
    ReachableInv(s);
    var i := s.hand.handler.node.i;
    assert s.hand.batch[0] in multiset(s.hand.batch);
    assert H.PlacedOnce(s.hand, i) && Coupled(s, i);
    OnItsWayIsAlive(s.spreads[i]);
  }

  /** No node in the list, in the handler's hands, or in a push has been freed. */
  lemma ListedIsAlive(s: State, i: nat)
    requires Reachable(s) && i < |s.spreads| && i < |s.hand.pushers|
    requires i in s.hand.list || i in s.hand.batch || !H.Linked(s.hand.pushers[i].pc)
    ensures s.spreads[i].refs > 0 && s.spreads[i].deletes == 0
  {
    ReachableInv(s);
    assert H.PlacedOnce(s.hand, i) && Coupled(s, i);
    assert i in s.hand.list ==> i in multiset(s.hand.list);
    assert i in s.hand.batch ==> i in multiset(s.hand.batch);
    OnItsWayIsAlive(s.spreads[i]);
  }

  /** A freed node's address is free to be pushed again: its last push and its last handling are
      over, so a reused address is never in two pushes at once. */
  lemma ReuseIsSafe(s: State, i: nat, chunks: nat)
    requires Reachable(s) && Enabled(s, Reuse(i, chunks))
    ensures i < |s.hand.pushers| && s.hand.pushers[i].pc == H.Pushed
    ensures s.hand.pushers[i].handled == s.hand.pushers[i].pushes && i !in s.hand.list && i !in s.hand.batch
  {
    ReachableInv(s);
    DeletedIsFree(s, i);
    assert H.PlacedOnce(s.hand, i);
    assert i in s.hand.list ==> i in multiset(s.hand.list);
    assert i in s.hand.batch ==> i in multiset(s.hand.batch);
  }
}
