/** A spread that only queues and waits, run on the pool: the caller and its barrier of SpreadJoin, the
    shared queue and the workers of WorkerPool. The slices are the items of one bulk enqueue, each
    hand is a worker, and the pool's other producers and items go on beside them. */
module PoolSpread {
  import opened Runs
  import J = SpreadJoin
  import P = WorkerPool

  /** The spread's own bulk enqueue is `bulk`, and slice j is item `at + j`. */
  datatype State = State(pool: P.State, join: J.State, bulk: nat, at: nat)

  /** `Spread` is a step of the spread, with what it does to the queue and the worker; `Pool` any
      other step of the pool. */
  datatype Action = Spread(b: J.Action) | Pool(a: P.Action)

  predicate IsSlice(s: State, i: nat) { s.at <= i < s.at + |s.join.works| }

  /** What a step of the spread is to the pool. */
  datatype Partner = Nothing | Its(a: P.Action)

  function PartnerOf(s: State, b: J.Action): Partner {
    match b
    case Caller(_) =>
      (match s.join.caller
       case Start => Its(P.BulkStep(s.bulk, 0))
       case Enqueue(k, upTo) => if k < upTo then Its(P.BulkStep(s.bulk, s.at + k)) else Nothing
       case _ => Nothing)
    case Take(j, h) => Its(P.WorkerStep(h, s.at + j))
    case Arrive(j) => if j < |s.join.works| then Its(P.WorkerStep(J.HandOf(s.join.works[j]), s.at + j)) else Nothing
    case _ => Nothing
  }

  predicate WorkerAt(p: P.State, w: nat, pc: P.WorkerPc) { w < |p.workers| && p.workers[w].pc == pc }

  predicate WorksOn(p: P.State, w: nat, i: nat) {
    w < |p.workers| && p.workers[w].pc.Working? && p.workers[w].pc.item == i
  }

  predicate BulkAt(p: P.State, b: nat, pc: P.BulkPc) { b < |p.bulks| && p.bulks[b] == pc }

  /** A slice is dequeued by the worker's second loop, and its arrival is the end of the worker's
      call; the caller goes on to wait once it has told every worker. */
  predicate PoolAllows(s: State, b: J.Action) {
    match b
    case Caller(_) =>
      (match s.join.caller
       case Enqueue(k, upTo) => k < upTo || BulkAt(s.pool, s.bulk, P.Told)
       case _ => true)
    case Take(j, h) => WorkerAt(s.pool, h, P.DrainAny)
    case Arrive(j) => j < |s.join.works| && WorksOn(s.pool, J.HandOf(s.join.works[j]), s.at + j)
    case _ => true
  }

  /** Not a step of the spread. The shop outlives the spreads called on it. */
  predicate Alone(s: State, a: P.Action) {
    match a
    case BulkStep(b, i) =>
      || b != s.bulk
      || (b < |s.pool.bulks| && s.pool.bulks[b].Telling?)
      || (i >= |s.pool.items| && s.join.caller == J.Enqueue(|s.join.works|, |s.join.works|))
    case WorkerStep(w, i) =>
      w < |s.pool.workers| &&
      (match s.pool.workers[w].pc
       case DrainOwn => !IsSlice(s, i)
       case DrainAny => !IsSlice(s, i)
       case Working(item, _) => !IsSlice(s, item)
       case _ => true)
    case StopStep => s.join.caller == J.Returned
    case _ => true
  }

  predicate Enabled(s: State, a: Action) {
    match a
    case Spread(b) =>
      J.Enabled(s.join, b) && PoolAllows(s, b) && (PartnerOf(s, b).Its? ==> P.Enabled(s.pool, PartnerOf(s, b).a))
    case Pool(b) => P.Enabled(s.pool, b) && Alone(s, b)
  }

  function Next(s: State, a: Action): State
    requires Enabled(s, a)
  {
    match a
    case Spread(b) =>
      s.(join := J.Next(s.join, b),
         pool := if PartnerOf(s, b).Its? then P.Next(s.pool, PartnerOf(s, b).a) else s.pool)
    case Pool(b) => s.(pool := P.Next(s.pool, b))
  }

  /** The slices, and they alone, are the items of this bulk. */
  predicate Homes(s: State) {
    && s.bulk < |s.pool.bulks| && s.at + |s.join.works| <= |s.pool.items|
    && forall i :: 0 <= i < |s.pool.items| ==> (s.pool.items[i].home == P.Shared(s.bulk) <==> IsSlice(s, i))
  }

  predicate OnPool(s: State) {
    && s.join.mode.blocking && !s.join.mode.incremental && s.join.mode.hands == |s.pool.workers|
    && Homes(s)
  }

  predicate Initial(s: State) {
    P.Initial(s.pool) && J.Initial(s.join) && OnPool(s)
  }

  predicate StepsTo(s: State, a: Action, n: State) {
    Enabled(s, a) && Next(s, a) == n
  }

  ghost predicate Reachable(s: State) {
    Reached(Initial, StepsTo, s)
  }

  // ----- the invariant

  /** The pool says of a slice's item what the spread says of the slice, and who has it. */
  predicate Agrees(p: P.State, i: nat, stage: J.Stage) {
    i < |p.items| &&
    match stage
    case Unmade => p.items[i].stage == P.Fresh
    case Registered => p.items[i].stage == P.Fresh
    case Queued => p.items[i].stage == P.Queued
    case Taken(hand) => p.items[i].stage == P.Taken && hand.Other? && P.HasItem(p, hand.h, i)
    case Ran(hand) => p.items[i].stage == P.Taken && hand.Other? && P.HasItem(p, hand.h, i)
    case Arrived => p.items[i].stage == P.Done
  }

  predicate SliceOk(s: State, j: nat)
    requires j < |s.join.works|
  {
    Agrees(s.pool, s.at + j, s.join.works[j].stage)
  }

  /** How far the bulk enqueue is, seen from the caller. */
  predicate BulkOk(s: State)
    requires s.bulk < |s.pool.bulks|
  {
    var b := s.pool.bulks[s.bulk];
    match s.join.caller
    case Start => b == P.NotBegun
    case Enqueue(k, upTo) =>
      upTo == |s.join.works| && (b == P.Filling || (k == upTo && (b.Telling? || b == P.Told)))
    case Register(_, _) => false
    case _ => b == P.Told
  }

  ghost predicate Inv(s: State) {
    && OnPool(s) && P.Inv(s.pool) && J.Inv(s.join)
    && BulkOk(s)
    && (s.join.caller != J.Returned ==> !s.pool.exit)
    && forall j: nat :: j < |s.join.works| ==> SliceOk(s, j)
  }

  /** The steps of the pool keep its sizes and homes. */
  lemma PoolKeepsShape(p: P.State, a: P.Action)
    requires P.Enabled(p, a)
    ensures var n := P.Next(p, a);
      && |n.workers| == |p.workers| && |n.items| == |p.items| && |n.bulks| == |p.bulks|
      && forall i :: 0 <= i < |p.items| ==> n.items[i].home == p.items[i].home
  {
    P.SizesStay(p, a);
    forall i | 0 <= i < |p.items| ensures P.Next(p, a).items[i].home == p.items[i].home {
      P.HomeStays(p, a, i);
    }
  }

  lemma OnlyStopExits(p: P.State, a: P.Action)
    requires P.Enabled(p, a) && a != P.StopStep
    ensures P.Next(p, a).exit == p.exit
  {
  }

  lemma SpreadKeepsShape(s: J.State, b: J.Action)
    requires J.Enabled(s, b)
    ensures |J.Next(s, b).works| == |s.works| && J.Next(s, b).mode == s.mode
    ensures s.caller == J.Returned ==> J.Next(s, b).caller == J.Returned
  {
  }

  lemma ShapeKept(s: State, a: Action)
    requires OnPool(s) && Enabled(s, a)
    ensures OnPool(Next(s, a)) && |Next(s, a).join.works| == |s.join.works|
  {
    match a
    case Pool(b) => PoolKeepsShape(s.pool, b);
    case Spread(b) =>
      SpreadKeepsShape(s.join, b);
      if PartnerOf(s, b).Its? {
        PoolKeepsShape(s.pool, PartnerOf(s, b).a);
      }
  }

  /** An item that has not moved, and is still in the hands it was in. */
  predicate Unmoved(p: P.State, n: P.State, i: nat) {
    && i < |p.items| && i < |n.items| && n.items[i].stage == p.items[i].stage
    && forall w: nat :: w < |p.workers| && P.HasItem(p, w, i) ==> P.HasItem(n, w, i)
  }

  lemma UnmovedAgrees(p: P.State, n: P.State, i: nat, stage: J.Stage)
    requires Agrees(p, i, stage) && Unmoved(p, n, i)
    ensures Agrees(n, i, stage)
  {
  }

  /** A step beside the spread leaves the slices' items where they are ... */
  lemma ItemStays(s: State, a: P.Action, i: nat)
    requires Enabled(s, Pool(a)) && IsSlice(s, i) && i < |s.pool.items| && s.pool.items[i].home == P.Shared(s.bulk)
    ensures |P.Next(s.pool, a).items| == |s.pool.items|
    ensures P.Next(s.pool, a).items[i].stage == s.pool.items[i].stage
  {
  }

  /** ... and in the hands they are in, whether the step is the holder's own ... */
  lemma HolderKeeps(s: State, w: nat, x: nat, i: nat)
    requires Enabled(s, Pool(P.WorkerStep(w, x))) && IsSlice(s, i) && P.HasItem(s.pool, w, i)
    ensures P.HasItem(P.Next(s.pool, P.WorkerStep(w, x)), w, i)
  {
  }

  /** ... or another's. */
  lemma HoldStays(s: State, a: P.Action, w: nat, i: nat)
    requires P.Enabled(s.pool, a) && P.HasItem(s.pool, w, i) && !(a.WorkerStep? && a.w == w)
    ensures P.HasItem(P.Next(s.pool, a), w, i)
  {
  }

  lemma SliceStays(s: State, a: P.Action, i: nat)
    requires OnPool(s) && Enabled(s, Pool(a)) && IsSlice(s, i)
    ensures Unmoved(s.pool, P.Next(s.pool, a), i)
  {
    ItemStays(s, a, i);
    forall w: nat | w < |s.pool.workers| && P.HasItem(s.pool, w, i) ensures P.HasItem(P.Next(s.pool, a), w, i) {
      if a.WorkerStep? && a.w == w {
        HolderKeeps(s, w, a.i, i);
      } else {
        HoldStays(s, a, w, i);
      }
    }
  }

  lemma SliceAfterPool(s: State, a: P.Action, j: nat)
    requires Inv(s) && Enabled(s, Pool(a)) && j < |s.join.works|
    ensures SliceOk(Next(s, Pool(a)), j)
  {
    assert SliceOk(s, j);
    SliceStays(s, a, s.at + j);
    UnmovedAgrees(s.pool, P.Next(s.pool, a), s.at + j, s.join.works[j].stage);
  }

  lemma BulkAfterPool(s: State, a: P.Action)
    requires Inv(s) && Enabled(s, Pool(a))
    ensures var n := Next(s, Pool(a)); n.bulk < |n.pool.bulks| && BulkOk(n)
    ensures s.join.caller != J.Returned ==> !Next(s, Pool(a)).pool.exit
  {
    PoolKeepsShape(s.pool, a);
    if a != P.StopStep {
      OnlyStopExits(s.pool, a);
    }
  }

  lemma BulkAfterSpread(s: State, b: J.Action)
    requires Inv(s) && Enabled(s, Spread(b))
    ensures var n := Next(s, Spread(b)); n.bulk < |n.pool.bulks| && BulkOk(n)
    ensures Next(s, Spread(b)).pool.exit == s.pool.exit
  {
    if PartnerOf(s, b).Its? {
      PoolKeepsShape(s.pool, PartnerOf(s, b).a);
      OnlyStopExits(s.pool, PartnerOf(s, b).a);
    }
  }

  /** The slice the caller puts in the queue. */
  lemma QueuedSlice(s: State, choice: J.Choice)
    requires Inv(s) && Enabled(s, Spread(J.Caller(choice))) && s.join.caller.Enqueue?
    requires s.join.caller.k < s.join.caller.upTo
    ensures var n, t := Next(s, Spread(J.Caller(choice))), s.join.caller.k;
      |n.join.works| == |s.join.works| && SliceOk(n, t)
  {
  }

  lemma TakenSlice(s: State, j: nat, h: nat)
    requires Inv(s) && Enabled(s, Spread(J.Take(j, h)))
    ensures var n := Next(s, Spread(J.Take(j, h))); |n.join.works| == |s.join.works| && SliceOk(n, j)
  {
    assert SliceOk(s, j);
  }

  lemma RanSlice(s: State, j: nat)
    requires Inv(s) && Enabled(s, Spread(J.Run(j)))
    ensures var n := Next(s, Spread(J.Run(j))); |n.join.works| == |s.join.works| && SliceOk(n, j)
  {
    assert SliceOk(s, j);
  }

  lemma ArrivedSlice(s: State, j: nat)
    requires Inv(s) && Enabled(s, Spread(J.Arrive(j)))
    ensures var n := Next(s, Spread(J.Arrive(j))); |n.join.works| == |s.join.works| && SliceOk(n, j)
  {
    assert SliceOk(s, j);
  }

  /** The partner of a step moves no other item, and takes none out of other hands. */
  lemma PartnerElsewhere(s: State, b: J.Action, i: nat)
    requires Enabled(s, Spread(b)) && J.Later(s.join, b) && PartnerOf(s, b).Its?
    requires i < |s.pool.items| && i != s.at + J.Target(s.join, b)
    ensures Unmoved(s.pool, P.Next(s.pool, PartnerOf(s, b).a), i)
  {
  }

  lemma JoinElsewhere(s: J.State, b: J.Action, j: nat)
    requires J.Enabled(s, b) && J.Later(s, b) && j < |s.works| && j != J.Target(s, b)
    ensures |J.Next(s, b).works| == |s.works| && J.Next(s, b).works[j] == s.works[j]
  {
    J.OneSlice(s, b);
  }

  /** Another slice: neither the item nor the hand it is in has moved. */
  lemma OtherSlice(s: State, b: J.Action, j: nat)
    requires Enabled(s, Spread(b)) && J.Later(s.join, b)
    requires j < |s.join.works| && j != J.Target(s.join, b) && SliceOk(s, j)
    ensures var n := Next(s, Spread(b)); |n.join.works| == |s.join.works| && SliceOk(n, j)
  {
    JoinElsewhere(s.join, b, j);
    if PartnerOf(s, b).Its? {
      PartnerElsewhere(s, b, s.at + j);
    }
    UnmovedAgrees(s.pool, Next(s, Spread(b)).pool, s.at + j, s.join.works[j].stage);
  }

  lemma FirstStep(s: State, choice: J.Choice, j: nat)
    requires Inv(s) && Enabled(s, Spread(J.Caller(choice))) && s.join.caller == J.Start && j < |s.join.works|
    ensures var n := Next(s, Spread(J.Caller(choice)));
      |n.join.works| == |s.join.works| && SliceOk(n, j)
  {
    assert SliceOk(s, j) && J.DispatchOk(s.join.works[j], j, s.join.caller);
  }

  lemma SliceAfterSpread(s: State, b: J.Action, j: nat)
    requires Inv(s) && Enabled(s, Spread(b)) && j < |s.join.works|
    ensures var n := Next(s, Spread(b));
      |n.join.works| == |s.join.works| && SliceOk(n, j)
  {
    if !J.Later(s.join, b) {
      FirstStep(s, b.choice, j);
    } else if j != J.Target(s.join, b) {
      assert SliceOk(s, j);
      OtherSlice(s, b, j);
    } else {
      match b
      case Caller(choice) => QueuedSlice(s, choice);
      case Take(_, h) => TakenSlice(s, j, h);
      case Run(_) => RanSlice(s, j);
      case Arrive(_) => ArrivedSlice(s, j);
    }
  }

  lemma InvKept(s: State, a: Action)
    requires Inv(s) && Enabled(s, a)
    ensures Inv(Next(s, a))
  {
    var n := Next(s, a);
    ShapeKept(s, a);
    match a {
      case Pool(b) =>
        P.InvKept(s.pool, b);
        BulkAfterPool(s, b);
      case Spread(b) =>
        J.InvKept(s.join, b);
        SpreadKeepsShape(s.join, b);
        if PartnerOf(s, b).Its? {
          P.InvKept(s.pool, PartnerOf(s, b).a);
        }
        BulkAfterSpread(s, b);
    }
    forall j: nat | j < |n.join.works| ensures SliceOk(n, j) {
      match a
      case Pool(b) => SliceAfterPool(s, b, j);
      case Spread(b) => SliceAfterSpread(s, b, j);
    }
  }

  lemma ReachableInv(s: State)
    requires Reachable(s)
    ensures Inv(s)
  {
    forall t | Initial(t) ensures Inv(t) {
      P.InitialInv(t.pool);
      J.InitialInv(t.join);
    }
    forall t, a, n | Inv(t) && StepsTo(t, a, n) ensures Inv(n) {
      InvKept(t, a);
    }
    ReachedInv(Initial, StepsTo, Inv, s);
  }

  // ----- the waiting caller

  /** A step of worker w: of its loop, or on the slice in its hands. */
  predicate StepOf(s: State, a: Action, w: nat) {
    match a
    case Pool(b) => b.WorkerStep? && b.w == w
    case Spread(b) =>
      match b
      case Take(_, h) => h == w
      case Run(j) => j < |s.join.works| && J.Holds(s.join.works[j], w)
      case Arrive(j) => j < |s.join.works| && J.Holds(s.join.works[j], w)
      case _ => false
  }

  /** A step of somebody about to notify worker w. */
  predicate Signals(s: State, a: Action, w: nat) {
    a.Pool? &&
    match a.a
    case OutsideNotify(i) => P.ItemTells(s.pool, i, w)
    case WorkerStep(v, _) => P.WorkerTells(s.pool, v, w)
    case BulkStep(b, _) => P.BulkTells(s.pool, b, w)
    case _ => false
  }

  ghost predicate WorkerMoves(s: State, w: nat) {
    exists a :: StepOf(s, a, w) && Enabled(s, a)
  }

  ghost predicate SignalComes(s: State, w: nat) {
    exists a :: Signals(s, a, w) && Enabled(s, a)
  }

  /** What a worker has in hand it can go on with. */
  lemma HolderMoves(s: State, j: nat, w: nat)
    requires Inv(s) && j < |s.join.works| && J.Holds(s.join.works[j], w)
    ensures WorkerMoves(s, w)
  {
    assert SliceOk(s, j);
    var pc := s.pool.workers[w].pc;
    if s.join.works[j].stage.Taken? {
      assert StepOf(s, Spread(J.Run(j)), w) && Enabled(s, Spread(J.Run(j)));
    } else if pc.Working? {
      assert StepOf(s, Spread(J.Arrive(j)), w) && Enabled(s, Spread(J.Arrive(j)));
    } else {
      assert StepOf(s, Pool(P.WorkerStep(w, 0)), w) && Enabled(s, Pool(P.WorkerStep(w, 0)));
    }
  }

  /** A worker that dequeues from all queues while slice j is queued can take it. */
  lemma CanTake(s: State, j: nat, w: nat)
    requires Inv(s) && j < |s.join.works| && s.join.works[j].stage == J.Queued && WorkerAt(s.pool, w, P.DrainAny)
    ensures StepOf(s, Spread(J.Take(j, w)), w) && Enabled(s, Spread(J.Take(j, w)))
  {
    assert SliceOk(s, j);
    forall i: nat | i < |s.join.works| ensures !J.Holds(s.join.works[i], w) {
      assert SliceOk(s, i);
    }
  }

  /** The slice a worker is at is in its hands for the spread too. */
  lemma AtItsSlice(s: State, j: nat, w: nat)
    requires Inv(s) && j < |s.join.works| && P.HasItem(s.pool, w, s.at + j)
    ensures J.Holds(s.join.works[j], w)
  {
    assert SliceOk(s, j);
  }

  /** A worker that empties its own queue, with a slice waiting elsewhere. */
  lemma DrainsOwnFirst(s: State, w: nat)
    requires Inv(s) && WorkerAt(s.pool, w, P.DrainOwn)
    ensures WorkerMoves(s, w)
  {
    var i: nat := |s.pool.items|;
    if !P.OwnEmpty(s.pool, w) {
      i :| i < |s.pool.items| && s.pool.items[i].stage == P.Queued && s.pool.items[i].home == P.Own(w);
    }
    assert StepOf(s, Pool(P.WorkerStep(w, i)), w) && Enabled(s, Pool(P.WorkerStep(w, i)));
  }

  lemma BusyMoves(s: State, w: nat)
    requires Inv(s) && w < |s.pool.workers| && P.Busy(s.pool.workers[w].pc)
    ensures WorkerMoves(s, w)
  {
    var item := s.pool.workers[w].pc.item;
    assert P.HasItem(s.pool, w, item);
    if IsSlice(s, item) {
      AtItsSlice(s, item - s.at, w);
      HolderMoves(s, item - s.at, w);
    } else {
      assert StepOf(s, Pool(P.WorkerStep(w, 0)), w) && Enabled(s, Pool(P.WorkerStep(w, 0)));
    }
  }

  /** An awake worker has a step, also with a slice waiting for it. */
  lemma AwakeMoves(s: State, j: nat, w: nat)
    requires Inv(s) && j < |s.join.works| && s.join.works[j].stage == J.Queued
    requires w < |s.pool.workers| && P.Awake(s.pool.workers[w].pc)
    ensures WorkerMoves(s, w)
  {
    if WorkerAt(s.pool, w, P.DrainOwn) {
      DrainsOwnFirst(s, w);
    } else if WorkerAt(s.pool, w, P.DrainAny) {
      CanTake(s, j, w);
    } else {
      BusyMoves(s, w);
    }
  }

  /** A notice that is coming has a step. */
  lemma ComingHasAStep(s: State, w: nat)
    requires Inv(s) && P.NotifyComing(s.pool, w) && w < |s.pool.workers| && BulkAt(s.pool, s.bulk, P.Told)
    ensures SignalComes(s, w)
  {
    if i: nat :| P.ItemTells(s.pool, i, w) {
      assert Signals(s, Pool(P.OutsideNotify(i)), w) && Enabled(s, Pool(P.OutsideNotify(i)));
    } else if v: nat :| P.WorkerTells(s.pool, v, w) {
      assert Signals(s, Pool(P.WorkerStep(v, 0)), w) && Enabled(s, Pool(P.WorkerStep(v, 0)));
    } else {
      var b: nat :| P.BulkTells(s.pool, b, w);
      var none := |s.pool.items|;
      assert Signals(s, Pool(P.BulkStep(b, none)), w) && Enabled(s, Pool(P.BulkStep(b, none)));
    }
  }

  /** While a slice is queued and the caller waits, no worker at all is stuck: it has a step, or
      somebody is about to signal it. */
  lemma QueuedSliceIsServed(s: State, j: nat, w: nat)
    requires Reachable(s) && s.join.caller == J.Parked
    requires j < |s.join.works| && s.join.works[j].stage == J.Queued && w < |s.pool.workers|
    ensures WorkerMoves(s, w) || SignalComes(s, w)
  {
    ReachableInv(s);
    assert SliceOk(s, j);
    var i := s.at + j;
    assert P.IsQueued(s.pool, i) && P.Wants(s.pool.items[i].home, w);
    if P.Awake(s.pool.workers[w].pc) {
      AwakeMoves(s, j, w);
    } else {
      assert P.TokenOrComing(s.pool, w);
      if s.pool.workers[w].pc == P.CheckExit || s.pool.workers[w].tokens > 0 {
        assert StepOf(s, Pool(P.WorkerStep(w, 0)), w) && Enabled(s, Pool(P.WorkerStep(w, 0)));
      } else {
        ComingHasAStep(s, w);
      }
    }
  }

  /** A parked caller is never left alone: its wake is owed, or a slice is in the hands of a worker
      that has a step, or a slice is queued and every worker has a step or a signal coming. */
  lemma ParkedCallerIsServed(s: State)
    requires Reachable(s) && s.join.caller == J.Parked
    ensures || Enabled(s, Spread(J.Wake))
            || (exists w: nat, j: nat :: j < |s.join.works| && J.Holds(s.join.works[j], w) && WorkerMoves(s, w))
            || forall w: nat :: w < |s.pool.workers| ==> WorkerMoves(s, w) || SignalComes(s, w)
  {
    ReachableInv(s);
    J.SomeoneIsLive(s.join);
    if s.join.wakes == 0 {
      var j: nat :| j < |s.join.works| && J.Live(s.join.works[j]) > 0;
      J.LiveCanGoOn(s.join, j, 0);
      assert SliceOk(s, j);
      if s.join.works[j].stage == J.Queued {
        forall w: nat | w < |s.pool.workers| ensures WorkerMoves(s, w) || SignalComes(s, w) {
          QueuedSliceIsServed(s, j, w);
        }
      } else {
        HolderMoves(s, j, J.HandOf(s.join.works[j]));
      }
    }
  }

  /** When the wait lets the caller go, every slice's item has been run by a worker exactly once, and
      none is left in the queue. */
  lemma ReturnFindsAllDone(s: State, choice: J.Choice, j: nat)
    requires Reachable(s) && Enabled(s, Spread(J.Caller(choice))) && J.Returns(s.join, J.Caller(choice))
    requires j < |s.join.works|
    ensures s.at + j < |s.pool.items| && s.pool.items[s.at + j].stage == P.Done && s.pool.items[s.at + j].runs == 1
  {
    ReachableInv(s);
    J.ReturnIsComplete(s.join, J.Caller(choice));
    assert SliceOk(s, j) && P.ItemOk(s.pool, s.at + j);
  }
}
