/** The push of a node and the handler of the async signal in the source's own form, with the other
    pushers and the handler at work between any two steps. Whatever those do, each method is a run
    of the machine of module HandoffList. */
module HandoffListCode {
  import opened HandoffList
  import opened Runs
  import opened Schedules
  import opened Tally

  /** What the others do before a step, and whether a weak compare-exchange fails without cause. */
  datatype Turn = Turn(others: seq<Action>, spurious: bool)

  /** From here on nobody else moves, and nothing fails without cause. */
  predicate Undisturbed(env: seq<Turn>, from: nat) {
    forall k :: from <= k < |env| ==> env[k] == Turn([], false)
  }

  datatype Side = PushSide(i: nat) | HandlerSide

  predicate IsOf(side: Side, a: Action) {
    match side
    case PushSide(i) => a != Handle && a.i == i
    case HandlerSide => a == Handle
  }

  /** The others leave a pusher and its node's link, or the handler, where they are. */
  lemma SideStays(s: State, a: Action, i: nat)
    requires Enabled(s, a)
    ensures var n := Next(s, a);
      && |n.pushers| == |s.pushers|
      && (a != Handle ==> n.handler == s.handler && n.batch == s.batch && (s.signalled ==> n.signalled))
      && (a != Handle ==> forall k :: 0 <= k < |s.list| ==> s.list[k] in n.list)
      && (a != Handle ==> forall j :: 0 <= j < |s.pushers| ==> n.pushers[j].handled == s.pushers[j].handled)
      && (i < |s.pushers| && !IsOf(PushSide(i), a) ==>
            && n.pushers[i].pc == s.pushers[i].pc && n.pushers[i].next == s.pushers[i].next
            && n.pushers[i].pushes == s.pushers[i].pushes)
  {
  }

  lemma {:induction false} ChainIsOfPushers(p: Ptr, nodes: seq<nat>, ps: seq<Pusher>, k: nat)
    requires Chain(p, nodes, ps) && k < |nodes|
    ensures nodes[k] < |ps|
    decreases |nodes|
  {
    if k > 0 {
      ChainIsOfPushers(ps[nodes[0]].next, nodes[1..], ps, k - 1);
    }
  }

  function One(i: nat): nat { 1 }

  function Itself(i: nat): nat { i }

  lemma DistinctBelow(s: seq<nat>, n: nat)
    requires forall j :: 0 <= j < |s| ==> Itself(s[j]) < n
    requires forall j, k :: 0 <= j < k < |s| ==> Itself(s[j]) != Itself(s[k])
    ensures |s| <= n
  {
    AllOnes(One, s);
    Pigeons(One, Itself, s, n);
  }

  lemma OccursTwice(s: seq<nat>, j: nat, k: nat)
    requires j < k < |s| && s[j] == s[k]
    ensures multiset(s)[s[j]] >= 2
  {
    assert s == s[..k] + s[k..];
    assert s[j] in multiset(s[..k]) by { assert s[..k][j] == s[j]; }
    assert s[k] in multiset(s[k..]) by { assert s[k..][0] == s[k]; }
  }

  /** What the others make of a state: an action of theirs is taken if it can be. */
  function OthersTake(mine: Side, s: State, a: Action): State {
    if !IsOf(mine, a) && Enabled(s, a) then Next(s, a) else s
  }

  class Pending {
    var pushers: seq<Pusher>
    /** `pending_`. */
    var pending: Ptr
    var signalled: bool
    var handler: HandlerPc
    /** The nodes in the list and in the handler's hands, every step so far, and the states around. */
    var list: seq<nat>
    var batch: seq<nat>
    ghost var run: seq<Action>
    ghost var trace: seq<State>
    /** How many turns of the schedules have gone by. */
    ghost var turns: nat

    function Machine(): State
      reads this
    {
      State(pushers, pending, signalled, handler, list, batch)
    }

    ghost predicate History(last: State)
      reads this
    {
      IsRun(StepsTo, trace, run) && Initial(trace[0]) && trace[|run|] == last
    }

    ghost predicate Valid()
      reads this
    {
      History(Machine())
    }

    constructor (n: nat)
      ensures Valid() && |pushers| == n && handler == Waiting && pending == Null
    {
      pushers := Init(n).pushers;
      pending, signalled, handler, list, batch := Null, false, Waiting, [], [];
      run, turns := [], 0;
      new;
      trace := [Machine()];
    }

    lemma ValidIsReachable()
      requires Valid()
      ensures Reachable(Machine()) && Inv(Machine())
    {
      ReachableInv(Machine());
    }

    /** Adds the step that has just led from `was` to the present state. */
    ghost method Record(was: State, a: Action)
      requires History(was) && Enabled(was, a) && Next(was, a) == Machine() && |pushers| == |was.pushers|
      modifies `run, `trace
      ensures Valid() && run == old(run) + [a]
    {
      Extends(StepsTo, trace, run, a, Machine());
      run, trace := run + [a], trace + [Machine()];
    }

    /** Nodes stay in the list until the handler takes it, and only the handler passes them on. */
    predicate Settled(before: State)
      reads this
    {
      && |pushers| == |before.pushers|
      && (forall k :: 0 <= k < |before.list| ==> before.list[k] in list)
      && (forall j :: 0 <= j < |pushers| ==> pushers[j].handled == before.pushers[j].handled)
    }

    predicate Stands(side: Side, before: State)
      reads this
    {
      && |pushers| == |before.pushers|
      && match side
         case PushSide(i) =>
           i < |pushers| ==>
             && pushers[i].pc == before.pushers[i].pc && pushers[i].next == before.pushers[i].next
             && pushers[i].pushes == before.pushers[i].pushes
         case HandlerSide =>
           handler == before.handler && batch == before.batch && (before.signalled ==> signalled) && Settled(before)
    }

    method Other(mine: Side, a: Action)
      requires Valid() && Enabled(Machine(), a) && !IsOf(mine, a)
      modifies this
      ensures turns == old(turns)
      ensures Valid() && old(run) <= run && Stands(mine, old(Machine()))
      ensures Machine() == Next(old(Machine()), a)
    {
      ghost var was := Machine();
      SideStays(was, a, if mine.PushSide? then mine.i else 0);
      var n := Next(Machine(), a);
      pushers, pending, signalled, handler := n.pushers, n.pending, n.signalled, n.handler;
      list, batch := n.list, n.batch;
      Record(was, a);
    }

    /** The others' steps; one that cannot be taken is passed over. */
    method Interfere(mine: Side, others: seq<Action>)
      requires Valid()
      modifies this
      ensures turns == old(turns) + 1
      ensures Valid() && old(run) <= run && Stands(mine, old(Machine()))
      ensures Machine() == AfterTurn(OthersTake, mine, old(Machine()), others)
      ensures others == [] ==> Machine() == old(Machine())
    {
      for k := 0 to |others|
        invariant Valid() && old(run) <= run && Stands(mine, old(Machine()))
        invariant Machine() == AfterTurn(OthersTake, mine, old(Machine()), others[..k])
        invariant turns == old(turns)
        invariant others == [] ==> Machine() == old(Machine())
      {
        AfterOne(OthersTake, mine, old(Machine()), others, k);
        if !IsOf(mine, others[k]) && Enabled(Machine(), others[k]) {
          Other(mine, others[k]);
        }
      }
      assert others[..|others|] == others;
      turns := turns + 1;
    }

    // ----- the push

    method LoadPending(i: nat, others: seq<Action>) returns (expected: Ptr)
      requires Valid() && i < |pushers| && pushers[i].pc == PushLoad
      modifies this
      ensures turns == old(turns) + 1
      ensures Valid() && old(run) <= run && |pushers| == |old(pushers)| && pushers[i].pc == PushSet(expected)
      ensures others == [] ==> expected == pending
      ensures pushers[i].pushes == old(pushers)[i].pushes
      ensures others == [] ==> list == old(list) && pending == old(pending) && signalled == old(signalled)
    {
      Interfere(PushSide(i), others);
      ghost var was := Machine();
      expected := pending;
      pushers := pushers[i := pushers[i].(pc := PushSet(expected))];
      Record(was, Push(i, false));
    }

    /** `node->next = expected`. */
    method SetNext(i: nat, expected: Ptr, others: seq<Action>)
      requires Valid() && i < |pushers| && pushers[i].pc == PushSet(expected)
      modifies this
      ensures turns == old(turns) + 1
      ensures Valid() && old(run) <= run && |pushers| == |old(pushers)|
      ensures pushers[i].pc == PushCas(expected) && pushers[i].next == expected
      ensures others == [] ==> pending == old(pending)
      ensures pushers[i].pushes == old(pushers)[i].pushes
      ensures others == [] ==> list == old(list) && pending == old(pending) && signalled == old(signalled)
    {
      Interfere(PushSide(i), others);
      ghost var was := Machine();
      pushers := pushers[i := pushers[i].(pc := PushCas(expected), next := expected)];
      Record(was, Push(i, false));
    }

    /** The weak compare-exchange; when it fails, `expected` is what it found. */
    method CasPending(i: nat, expected: Ptr, turn: Turn) returns (linked: bool, found: Ptr)
      requires Valid() && i < |pushers| && pushers[i].pc == PushCas(expected)
      modifies this
      ensures turns == old(turns) + 1
      ensures Valid() && old(run) <= run && |pushers| == |old(pushers)|
      ensures pushers[i].pc == if linked then PushSend else PushSet(found)
      ensures turn == Turn([], false) && old(pending) == expected ==> linked
      ensures pushers[i].pushes == old(pushers)[i].pushes + (if linked then 1 else 0)
      ensures turn == Turn([], false) && old(pending) == expected ==>
        list == [i] + old(list) && pending == Node(i) && signalled == old(signalled)
      ensures !linked ==> found == pending
    {
      Interfere(PushSide(i), turn.others);
      ghost var was := Machine();
      linked, found := pending == expected && !turn.spurious, pending;
      if linked {
        pending := Node(i);
        list := [i] + list;
        pushers := pushers[i := pushers[i].(pc := PushSend, pushes := pushers[i].pushes + 1)];
      } else {
        pushers := pushers[i := pushers[i].(pc := PushSet(found))];
      }
      Record(was, Push(i, turn.spurious));
    }

    /** `uv_async_send`. */
    method Send(i: nat, others: seq<Action>)
      requires Valid() && i < |pushers| && pushers[i].pc == PushSend
      modifies this
      ensures turns == old(turns) + 1
      ensures Valid() && old(run) <= run && |pushers| == |old(pushers)| && pushers[i].pc == Pushed
      ensures pushers[i].pushes == old(pushers)[i].pushes
      ensures signalled && (others == [] ==> list == old(list) && pending == old(pending))
    {
      Interfere(PushSide(i), others);
      ghost var was := Machine();
      signalled := true;
      pushers := pushers[i := pushers[i].(pc := Pushed)];
      Record(was, Push(i, false));
    }

    /** The push in `spread_impl`. When it is through, the node has been passed on or the handler
        is still to come for it; left alone, it is the first of the list, and the signal is sent.
        Whatever came before, left alone for eight steps the push is through. */
    method PushNode(i: nat, env: seq<Turn>) returns (done: bool)
      requires Valid() && i < |pushers| && pushers[i].pc == PushLoad
      modifies this
      ensures !done ==> turns + 2 >= old(turns) + |env|
      ensures Undisturbed(env, 0) && |env| >= 4 ==> done
      ensures Valid() && old(run) <= run && |pushers| == |old(pushers)|
      ensures done <==> pushers[i].pc == Pushed
      ensures done ==> pushers[i].pushes == old(pushers)[i].pushes + 1
      ensures done ==> pushers[i].handled == pushers[i].pushes || i in list || i in batch
      ensures Undisturbed(env, 0) && |env| >= 4 ==> list == [i] + old(list) && pending == Node(i) && signalled
      ensures |env| >= 8 && Undisturbed(env, |env| - 8) ==> done
    {
      if env == [] { return false; }
      ghost var calm := CalmFrom(8, env);
      var expected := LoadPending(i, env[0].others);
      var k: nat := 1;
      while k + 3 <= |env|
        invariant Valid() && old(run) <= run && |pushers| == |old(pushers)|
        invariant turns == old(turns) + k
        invariant pushers[i].pc == PushSet(expected) && pushers[i].pushes == old(pushers)[i].pushes
        invariant Undisturbed(env, 0) && |env| >= 4 ==> k == 1 && expected == pending && list == old(list)
        invariant 1 <= k && (Undisturbed(env, calm) && calm + 8 == |env| ==>
                               k <= calm + 1 || (k <= calm + 3 && expected == pending))
      {
        var linked;
        SetNext(i, expected, env[k].others);
        linked, expected := CasPending(i, expected, env[k + 1]);
        if linked {
          Send(i, env[k + 2].others);
          IsSomewhere(i);
          return true;
        }
        k := k + 2;
      }
      return false;
    }

    lemma IsSomewhere(i: nat)
      requires Valid() && i < |pushers|
      ensures pushers[i].handled == pushers[i].pushes || i in list || i in batch
    {
      ValidIsReachable();
      OneHandlingPerPush(Machine(), i);
    }

    // ----- the handler

    /** The loop delivers the signal and calls the handler. */
    method Deliver(others: seq<Action>) returns (called: bool)
      requires Valid() && handler == Waiting
      modifies this
      ensures Valid() && old(run) <= run && |pushers| == |old(pushers)|
      ensures handler == if called then Exchange else Waiting
      ensures Settled(old(Machine()))
      ensures others == [] ==> called == old(signalled) && list == old(list)
      ensures others == [] ==> pushers == old(pushers) && !signalled
      ensures old(signalled) ==> called
    {
      Interfere(HandlerSide, others);
      called := signalled;
      if called {
        ghost var was := Machine();
        signalled := false;
        handler := Exchange;
        Record(was, Handle);
      }
    }

    /** The exchange that takes the whole list. */
    method TakeList(others: seq<Action>) returns (node: Ptr)
      requires Valid() && handler == Exchange
      modifies this
      ensures Valid() && old(run) <= run && |pushers| == |old(pushers)| && handler == Walk(node)
      ensures forall k :: 0 <= k < |old(list)| ==> old(list)[k] in batch
      ensures forall j :: 0 <= j < |pushers| ==> pushers[j].handled == old(pushers)[j].handled
      ensures others == [] ==> batch == old(list)
      ensures others == [] ==> list == [] && pending == Null && signalled == old(signalled) && pushers == old(pushers)
    {
      Interfere(HandlerSide, others);
      ghost var was := Machine();
      node := pending;
      pending, batch, list := Null, list, [];
      handler := Walk(node);
      Record(was, Handle);
    }

    /** `next` is read while the node is still there. */
    method ReadNext(i: nat, others: seq<Action>) returns (next: Ptr)
      requires Valid() && handler == Walk(Node(i)) && i < |pushers|
      modifies this
      ensures Valid() && old(run) <= run && |pushers| == |old(pushers)| && handler == HandlerPc.Queue(i, next)
      ensures pushers[i].handled < pushers[i].pushes && next == pushers[i].next && batch == old(batch)
      ensures forall j :: 0 <= j < |pushers| ==> pushers[j].handled == old(pushers)[j].handled
      ensures others == [] ==> list == old(list) && signalled == old(signalled)
    {
      Interfere(HandlerSide, others);
      ValidIsReachable();
      NextIsReadInTime(Machine());
      ghost var was := Machine();
      next := pushers[i].next;
      handler := HandlerPc.Queue(i, next);
      Record(was, Handle);
    }

    /** `queue_chunks( node )`: from here on the node may be gone. */
    method PassOn(i: nat, next: Ptr, others: seq<Action>)
      requires Valid() && handler == HandlerPc.Queue(i, next) && i < |pushers|
      modifies this
      ensures Valid() && old(run) <= run && |pushers| == |old(pushers)| && handler == Walk(next)
      ensures pushers[i].handled == old(pushers)[i].handled + 1 && (next.Node? ==> next.i < |pushers|)
      ensures old(batch) == [i] + batch && i !in batch
      ensures forall j :: 0 <= j < |pushers| && j != i ==> pushers[j].handled == old(pushers)[j].handled
      ensures others == [] ==> list == old(list) && signalled == old(signalled)
    {
      Interfere(HandlerSide, others);
      IsFirst(i, next);
      ghost var was := Machine();
      pushers := pushers[i := pushers[i].(handled := pushers[i].handled + 1)];
      batch := batch[1..];
      handler := Walk(next);
      Record(was, Handle);
    }

    /** The node about to be passed on is the first of the batch. */
    lemma IsFirst(i: nat, next: Ptr)
      requires Valid() && handler == HandlerPc.Queue(i, next) && i < |pushers|
      ensures batch != [] && batch[0] == i && batch == [i] + batch[1..]
      ensures i !in batch[1..]
      ensures next.Node? ==> next.i < |pushers|
    {
      ValidIsReachable();
      assert batch == [i] + batch[1..];
      assert i in multiset(batch);
      assert PlacedOnce(Machine(), i);
    }

    /** Passed on once more than `before` times, or about to be. */
    predicate OnItsWay(i: nat, before: nat)
      reads this
    {
      i < |pushers| && pushers[i].handled == before + (if i in batch then 0 else 1)
    }

    predicate AllOnTheirWay(nodes: seq<nat>, before: seq<Pusher>)
      reads this
    {
      |before| == |pushers| && forall i :: 0 <= i < |pushers| && i in nodes ==> OnItsWay(i, before[i].handled)
    }

    /** No node is twice in the handler's hands. */
    lemma BatchFits()
      requires Valid() && handler.Walk?
      ensures |batch| <= |pushers|
    {
      ValidIsReachable();
      forall k | 0 <= k < |batch| ensures Itself(batch[k]) < |pushers| {
        ChainIsOfPushers(handler.node, batch, pushers, k);
      }
      forall j, k | 0 <= j < k < |batch| ensures Itself(batch[j]) != Itself(batch[k]) {
        ChainIsOfPushers(handler.node, batch, pushers, j);
        assert PlacedOnce(Machine(), batch[j]);
        if batch[j] == batch[k] {
          OccursTwice(batch, j, k);
        }
      }
      DistinctBelow(batch, |pushers|);
    }

    /** Only these nodes are passed on, and nobody has pushed or signalled meanwhile. */
    predicate NoOthers(nodes: seq<nat>, before: seq<Pusher>)
      reads this
    {
      && |before| == |pushers| && list == [] && !signalled
      && (forall k :: 0 <= k < |batch| ==> batch[k] in nodes)
      && forall i :: 0 <= i < |pushers| && i !in nodes ==> pushers[i].handled == before[i].handled
    }

    /** One turn of the handler's loop. */
    method HandleNode(node: Ptr, turn: Turn, between: Turn, ghost nodes: seq<nat>, ghost before: seq<Pusher>)
      returns (next: Ptr)
      requires Valid() && handler == Walk(node) && node != Null && AllOnTheirWay(nodes, before)
      modifies this
      ensures Valid() && old(run) <= run && |pushers| == |old(pushers)|
      ensures handler == Walk(next) && |batch| == |old(batch)| - 1 && AllOnTheirWay(nodes, before)
      ensures turn == between == Turn([], false) && old(NoOthers(nodes, before)) ==> NoOthers(nodes, before)
    {
      NodeIsThere(node);
      ghost var first := batch;
      next := ReadNext(node.i, turn.others);
      PassOn(node.i, next, between.others);
      assert first == [node.i] + batch;
      assert first[0] == node.i && forall k :: 0 <= k < |batch| ==> batch[k] == first[k + 1];
    }

    /** `on_spread_async`, from the delivery of the signal: every node that was in the list is passed
        on, once; left alone, it passes on no other and leaves the list empty. It never waits: once
        signalled it is through after two steps for each node, whatever the pushers do. */
    method OnSpreadAsync(env: seq<Turn>) returns (done: bool)
      requires Valid() && handler == Waiting
      modifies this
      ensures Valid() && old(run) <= run && |pushers| == |old(pushers)|
      ensures done ==> handler == Waiting && batch == []
      ensures done ==> forall i :: 0 <= i < |pushers| && i in old(list) ==>
        pushers[i].handled == old(pushers)[i].handled + 1
      ensures Undisturbed(env, 0) && old(signalled) && |env| >= 2 + 2 * |old(list)| ==> done
      ensures Undisturbed(env, 0) && old(signalled) && |env| >= 2 + 2 * |old(list)| ==>
        NoOthers(old(list), old(pushers))
      ensures Undisturbed(env, 0) && !old(signalled) ==> !done && pushers == old(pushers) && list == old(list)
      ensures old(signalled) && |env| >= 2 + 2 * |pushers| ==> done
    {
      if |env| < 2 { return false; }
      var called := Deliver(env[0].others);
      if !called { return false; }
      var node := TakeList(env[1].others);
      BatchFits();
      var k: nat := 2;
      while node != Null && k + 2 <= |env|
        invariant Valid() && old(run) <= run && |pushers| == |old(pushers)|
        invariant handler == Walk(node)
        invariant AllOnTheirWay(old(list), old(pushers))
        invariant Undisturbed(env, 0) && old(signalled) ==>
          k + 2 * |batch| == 2 + 2 * |old(list)| && NoOthers(old(list), old(pushers))
        invariant Undisturbed(env, 0) ==> old(signalled)
        invariant k + 2 * |batch| <= 2 + 2 * |pushers|
        decreases |env| - k
      {
        node := HandleNode(node, env[k], env[k + 1], old(list), old(pushers));
        k := k + 2;
      }
      NodeIsThere(node);
      if node != Null { return false; }
      Finish();
      return true;
    }

    lemma NodeIsThere(node: Ptr)
      requires Valid() && handler == Walk(node)
      ensures node == Null <==> batch == []
      ensures node.Node? ==> node.i < |pushers|
    {
      ValidIsReachable();
    }

    method Finish()
      requires Valid() && handler == Walk(Null)
      modifies this
      ensures Valid() && old(run) <= run && |pushers| == |old(pushers)| && handler == Waiting
      ensures batch == old(batch) == [] && pushers == old(pushers)
      ensures list == old(list) && signalled == old(signalled)
    {
      ghost var was := Machine();
      handler := Waiting;
      Record(was, Handle);
      ValidIsReachable();
    }
  }
}
