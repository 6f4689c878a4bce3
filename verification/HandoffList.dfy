/** The list through which off-loop callers hand their spread nodes to the loop thread: a
    lock-free push, a coalescing async signal, and a handler that takes the whole list. */
module HandoffList {
  import opened Runs

  /** A pointer to the node of some pusher. */
  datatype Ptr = Null | Node(i: nat)

  /** The push in `spread_impl`. */
  datatype PushPc = PushLoad | PushSet(expected: Ptr) | PushCas(expected: Ptr) | PushSend | Pushed

  /** A pusher with its one node: the node's `next`, how often it was linked into the list, and how
      often it was passed to `queue_chunks`. A node that was passed on may be freed and its address
      come back as the node of a later call, under the same number. */
  datatype Pusher = Pusher(pc: PushPc, next: Ptr, pushes: nat, handled: nat)

  /** `on_spread_async` on the loop thread. */
  datatype HandlerPc = Waiting | Exchange | Walk(node: Ptr) | Queue(taken: nat, next: Ptr)

  /** `list` and `batch` record the nodes in `pending_` and in the handler's hands, in link order. */
  datatype State = State(
    pushers: seq<Pusher>, pending: Ptr, signalled: bool, handler: HandlerPc, list: seq<nat>, batch: seq<nat>)

  datatype Action = Push(i: nat, spurious: bool) | Recycle(i: nat) | Handle

  function Init(n: nat): State {
    State(seq(n, i => Pusher(PushLoad, Null, 0, 0)), Null, false, Waiting, [], [])
  }

  predicate Enabled(s: State, a: Action) {
    match a
    case Push(i, _) => i < |s.pushers| && s.pushers[i].pc != Pushed
    case Recycle(i) =>
      i < |s.pushers| && s.pushers[i].pc == Pushed && s.pushers[i].handled == s.pushers[i].pushes
    case Handle =>
      (match s.handler
       case Waiting => s.signalled
       case Exchange => true
       case Walk(node) => node.Node? ==> node.i < |s.pushers|
       case Queue(node, _) => node < |s.pushers|)
  }

  function PushNext(s: State, i: nat, spurious: bool): State
    requires Enabled(s, Push(i, spurious))
  {
    var p := s.pushers[i];
    match p.pc
    case PushLoad => s.(pushers := s.pushers[i := p.(pc := PushSet(s.pending))])
    case PushSet(expected) => s.(pushers := s.pushers[i := p.(pc := PushCas(expected), next := expected)])
    case PushCas(expected) =>
      if s.pending == expected && !spurious
      then s.(pushers := s.pushers[i := p.(pc := PushSend, pushes := p.pushes + 1)],
              pending := Node(i), list := [i] + s.list)
      else s.(pushers := s.pushers[i := p.(pc := PushSet(s.pending))])
    case PushSend => s.(pushers := s.pushers[i := p.(pc := Pushed)], signalled := true)
  }

  /** The loop clears the signal before it calls the handler; `next` is read before the node is
      passed on, since it may be freed from then on. */
  function HandleNext(s: State): State
    requires Enabled(s, Handle)
  {
    match s.handler
    case Waiting => s.(handler := Exchange, signalled := false)
    case Exchange => s.(handler := Walk(s.pending), pending := Null, batch := s.list, list := [])
    case Walk(node) =>
      (match node
       case Null => s.(handler := Waiting)
       case Node(i) => s.(handler := Queue(i, s.pushers[i].next)))
    case Queue(i, next) =>
      s.(handler := Walk(next), pushers := s.pushers[i := s.pushers[i].(handled := s.pushers[i].handled + 1)],
         batch := if s.batch == [] then [] else s.batch[1..])
  }

  function Next(s: State, a: Action): State
    requires Enabled(s, a)
  {
    match a
    case Push(i, spurious) => PushNext(s, i, spurious)
    case Recycle(i) => s.(pushers := s.pushers[i := s.pushers[i].(pc := PushLoad)])
    case Handle => HandleNext(s)
  }

  predicate Initial(s: State) {
    s == Init(|s.pushers|)
  }

  predicate StepsTo(s: State, a: Action, n: State) {
    Enabled(s, a) && Next(s, a) == n
  }

  ghost predicate Reachable(s: State) {
    Reached(Initial, StepsTo, s)
  }

  // ----- the invariant

  /** The node is in the list or beyond it. */
  predicate Linked(pc: PushPc) { pc == PushSend || pc == Pushed }

  /** `p` is the head of a chain of exactly these nodes. */
  predicate Chain(p: Ptr, nodes: seq<nat>, ps: seq<Pusher>)
    decreases |nodes|
  {
    if nodes == [] then p == Null
    else p == Node(nodes[0]) && nodes[0] < |ps| && Chain(ps[nodes[0]].next, nodes[1..], ps)
  }

  /** Where a node is: in the list, in the handler's hands, or passed on. */
  function Places(s: State, i: nat): nat
    requires i < |s.pushers|
  {
    multiset(s.list)[i] + multiset(s.batch)[i] + s.pushers[i].handled
  }

  /** Each push is in exactly one place: passed on, or, the latest one, on its way. */
  predicate PlacedOnce(s: State, i: nat)
    requires i < |s.pushers|
  {
    && Places(s, i) == s.pushers[i].pushes
    && s.pushers[i].pushes <= s.pushers[i].handled + (if Linked(s.pushers[i].pc) then 1 else 0)
    && (s.pushers[i].pc.PushCas? ==> s.pushers[i].next == s.pushers[i].pc.expected)
  }

  ghost predicate Placed(s: State) {
    forall i :: 0 <= i < |s.pushers| ==> PlacedOnce(s, i)
  }

  predicate BatchChained(s: State) {
    match s.handler
    case Walk(node) => Chain(node, s.batch, s.pushers)
    case Queue(node, next) => s.batch != [] && s.batch[0] == node && Chain(next, s.batch[1..], s.pushers)
    case _ => s.batch == []
  }

  predicate Chains(s: State) {
    Chain(s.pending, s.list, s.pushers) && BatchChained(s)
  }

  /** A non-empty list is announced. */
  ghost predicate Announced(s: State) {
    s.list != [] ==>
      s.signalled || s.handler == Exchange || exists i :: 0 <= i < |s.pushers| && s.pushers[i].pc == PushSend
  }

  ghost predicate Inv(s: State) {
    Placed(s) && Chains(s) && Announced(s)
  }

  lemma {:induction false} ChainFrame(p: Ptr, nodes: seq<nat>, ps: seq<Pusher>, qs: seq<Pusher>)
    requires Chain(p, nodes, ps) && |ps| == |qs|
    requires forall k :: 0 <= k < |nodes| && nodes[k] < |ps| ==> qs[nodes[k]].next == ps[nodes[k]].next
    ensures Chain(p, nodes, qs)
    decreases |nodes|
  {
    if nodes != [] {
      ChainFrame(ps[nodes[0]].next, nodes[1..], ps, qs);
    }
  }

  /** A node in a chain is not written by its pusher any more. */
  lemma ChainIsLinked(s: State, nodes: seq<nat>, k: nat)
    requires Placed(s) && k < |nodes| && nodes[k] < |s.pushers|
    requires multiset(nodes) <= multiset(s.list) || multiset(nodes) <= multiset(s.batch)
    ensures Linked(s.pushers[nodes[k]].pc)
  {
    var i := nodes[k];
    assert i in multiset(nodes);
    assert PlacedOnce(s, i);
  }

  lemma PushKeepsChain(s: State, i: nat, spurious: bool, p: Ptr, nodes: seq<nat>)
    requires Placed(s) && Enabled(s, Push(i, spurious)) && Chain(p, nodes, s.pushers)
    requires multiset(nodes) <= multiset(s.list) || multiset(nodes) <= multiset(s.batch)
    ensures Chain(p, nodes, PushNext(s, i, spurious).pushers)
  {
    var n := PushNext(s, i, spurious);
    forall k | 0 <= k < |nodes| && nodes[k] < |s.pushers| ensures n.pushers[nodes[k]].next == s.pushers[nodes[k]].next {
      ChainIsLinked(s, nodes, k);
    }
    ChainFrame(p, nodes, s.pushers, n.pushers);
  }

  lemma RecycleKeepsChains(s: State, i: nat)
    requires Chains(s) && Enabled(s, Recycle(i))
    ensures Chains(Next(s, Recycle(i)))
  {
    var n := Next(s, Recycle(i));
    ChainFrame(s.pending, s.list, s.pushers, n.pushers);
    if s.handler.Walk? {
      ChainFrame(s.handler.node, s.batch, s.pushers, n.pushers);
    } else if s.handler.Queue? {
      ChainFrame(s.handler.next, s.batch[1..], s.pushers, n.pushers);
    }
  }

  lemma RecycleKeepsPlaced(s: State, i: nat)
    requires Placed(s) && Enabled(s, Recycle(i))
    ensures Placed(Next(s, Recycle(i)))
  {
    var n := Next(s, Recycle(i));
    forall j | 0 <= j < |n.pushers| ensures PlacedOnce(n, j) {
      assert PlacedOnce(s, j);
    }
  }

  lemma PushKeepsList(s: State, i: nat, spurious: bool)
    requires Placed(s) && Chain(s.pending, s.list, s.pushers) && Enabled(s, Push(i, spurious))
    ensures var n := PushNext(s, i, spurious); Chain(n.pending, n.list, n.pushers)
  {
    assert PlacedOnce(s, i);
    PushKeepsChain(s, i, spurious, s.pending, s.list);
    assert ([i] + s.list)[1..] == s.list;
  }

  lemma TailIsPart(nodes: seq<nat>)
    requires nodes != []
    ensures multiset(nodes[1..]) <= multiset(nodes)
  {
    assert nodes == [nodes[0]] + nodes[1..];
  }

  lemma PushLeavesHandler(s: State, i: nat, spurious: bool)
    requires Enabled(s, Push(i, spurious))
    ensures var n := PushNext(s, i, spurious); n.handler == s.handler && n.batch == s.batch
  {
  }

  lemma PushKeepsBatch(s: State, i: nat, spurious: bool)
    requires Placed(s) && BatchChained(s) && Enabled(s, Push(i, spurious))
    ensures BatchChained(PushNext(s, i, spurious))
  {
    PushLeavesHandler(s, i, spurious);
    if s.handler.Walk? {
      PushKeepsChain(s, i, spurious, s.handler.node, s.batch);
    } else if s.handler.Queue? {
      TailIsPart(s.batch);
      PushKeepsChain(s, i, spurious, s.handler.next, s.batch[1..]);
    }
  }

  lemma HandleKeepsChains(s: State)
    requires Chains(s) && Enabled(s, Handle)
    ensures Chains(HandleNext(s))
  {
    var n := HandleNext(s);
    match s.handler
    case Queue(taken, next) =>
      ChainFrame(next, s.batch[1..], s.pushers, n.pushers);
      ChainFrame(s.pending, s.list, s.pushers, n.pushers);
    case _ =>
  }

  lemma PushKeepsPlaced(s: State, i: nat, spurious: bool)
    requires Placed(s) && Enabled(s, Push(i, spurious))
    ensures Placed(PushNext(s, i, spurious))
  {
    var n := PushNext(s, i, spurious);
    assert multiset([i] + s.list) == multiset{i} + multiset(s.list);
    forall j | 0 <= j < |n.pushers| ensures PlacedOnce(n, j) {
      assert PlacedOnce(s, j);
    }
  }

  lemma HandleKeepsPlaced(s: State)
    requires Placed(s) && Chains(s) && Enabled(s, Handle)
    ensures Placed(HandleNext(s))
  {
    var n := HandleNext(s);
    if s.handler.Queue? {
      assert s.batch == [s.batch[0]] + s.batch[1..];
      assert multiset(s.batch) == multiset{s.batch[0]} + multiset(s.batch[1..]);
    }
    forall j | 0 <= j < |n.pushers| ensures PlacedOnce(n, j) {
      assert PlacedOnce(s, j);
    }
  }

  lemma AnnouncedKept(s: State, a: Action)
    requires Announced(s) && Enabled(s, a)
    ensures Announced(Next(s, a))
  {
    var n := Next(s, a);
    if u :| 0 <= u < |s.pushers| && s.pushers[u].pc == PushSend {
      assert n.signalled || n.pushers[u].pc == PushSend;
    }
    if a.Push? {
      assert n.pushers[a.i].pc == PushSend || n.list == s.list;
    }
  }

  lemma InvKept(s: State, a: Action)
    requires Inv(s) && Enabled(s, a)
    ensures Inv(Next(s, a))
  {
    AnnouncedKept(s, a);
    match a
    case Push(i, spurious) =>
      PushKeepsList(s, i, spurious);
      PushKeepsBatch(s, i, spurious);
      PushKeepsPlaced(s, i, spurious);
    case Recycle(i) =>
      RecycleKeepsChains(s, i);
      RecycleKeepsPlaced(s, i);
    case Handle =>
      HandleKeepsChains(s);
      HandleKeepsPlaced(s);
  }

  lemma ReachableInv(s: State)
    requires Reachable(s)
    ensures Inv(s)
  {
    forall t, a, n | Inv(t) && StepsTo(t, a, n) ensures Inv(n) {
      InvKept(t, a);
    }
    ReachedInv(Initial, StepsTo, Inv, s);
  }

  // ----- what the hand-off guarantees

  /** One handling for each push: a node is passed on at most once for each time it was linked, and
      only the latest push can still be on its way. */
  lemma OneHandlingPerPush(s: State, i: nat)
    requires Reachable(s) && i < |s.pushers|
    ensures s.pushers[i].handled <= s.pushers[i].pushes <= s.pushers[i].handled + 1
    ensures s.pushers[i].handled < s.pushers[i].pushes <==> i in s.list || i in s.batch
    ensures s.pushers[i].handled < s.pushers[i].pushes ==> Linked(s.pushers[i].pc)
  {
    ReachableInv(s);
    assert PlacedOnce(s, i);
  }

  /** The node whose `next` the handler is about to read has not been passed on since it was linked,
      and its pusher no longer writes it. */
  lemma NextIsReadInTime(s: State)
    requires Reachable(s) && s.handler.Walk? && s.handler.node.Node?
    ensures var i := s.handler.node.i;
      i < |s.pushers| && s.pushers[i].handled < s.pushers[i].pushes && Linked(s.pushers[i].pc)
  {
    ReachableInv(s);
    assert s.batch[0] in multiset(s.batch);
    assert PlacedOnce(s, s.handler.node.i);
  }

  /** A non-empty list always has a signal pending, a pusher about to send one, or the handler
      about to take the list. */
  lemma NonEmptyListIsAnnounced(s: State)
    requires Reachable(s) && s.pending != Null
    ensures s.signalled || s.handler == Exchange || exists i :: 0 <= i < |s.pushers| && s.pushers[i].pc == PushSend
  {
    ReachableInv(s);
  }

  /** When the pushers are done and the loop has nothing to do, every push was passed on exactly
      once. */
  lemma AllHandledWhenIdle(s: State)
    requires Reachable(s) && s.handler == Waiting && !s.signalled
    requires forall i :: 0 <= i < |s.pushers| ==> s.pushers[i].pc != PushSend
    ensures s.pending == Null && forall i :: 0 <= i < |s.pushers| ==> s.pushers[i].handled == s.pushers[i].pushes
  {
    ReachableInv(s);
    assert s.list == [] && s.batch == [];
    forall i | 0 <= i < |s.pushers| ensures s.pushers[i].handled == s.pushers[i].pushes {
      assert PlacedOnce(s, i);
    }
  }
}
