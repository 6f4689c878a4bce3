/** The generic shop's workers: dequeue until empty, check the exit flag, sleep on the own event;
    producers that enqueue and then notify; and the shutdown that wakes and joins every worker.
    A worker's event is its semaphore, taken here as a token count: `wait` takes a token. */
module WorkerPool {
  import opened Runs

  /** The loop of `worker_loop`. `own` tells which of its two inner loops runs the item. */
  datatype WorkerPc =
    | DrainOwn | DrainAny | Working(item: nat, own: bool) | Notifying(item: nat, own: bool, target: nat)
    | CheckExit | Sleep | Exited

  /** A worker with the tokens of its event. */
  datatype Worker = Worker(pc: WorkerPc, tokens: nat)

  datatype Stage = Fresh | Queued | Taken | Done

  /** Where an item is enqueued: on one worker, or, by one bulk enqueue, for any of them. */
  datatype Home = Own(target: nat) | Shared(bulk: nat)

  /** A work item. `announcing` is set while an outside producer has enqueued it on a worker and not
      yet notified that worker. */
  datatype Item = Item(home: Home, stage: Stage, announcing: bool, runs: nat)

  /** The bulk path of `spread_work`: the items into the shared queue, then `wake_all_workers`, which
      signals one worker after the other. */
  datatype BulkPc = NotBegun | Filling | Telling(w: nat) | Told

  /** `stop_and_destroy_pool`. */
  datatype StopPc = NotStopped | WakeNext(w: nat) | Join(w: nat) | Joined

  /** `doomed` records, at the store of the exit flag, whether items were queued while every worker
      was between its last empty dequeue and its look at the flag. */
  datatype State = State(
    workers: seq<Worker>, items: seq<Item>, bulks: seq<BulkPc>, exit: bool, stop: StopPc, doomed: bool)

  /** `i` names an item: the one an outside producer enqueues or announces, the one a dequeue
      returns, the one running work enqueues, or the next of a bulk; past the end it means none. */
  datatype Action =
    | OutsideEnqueue(i: nat) | OutsideNotify(i: nat) | BulkStep(b: nat, i: nat)
    | WorkerStep(w: nat, i: nat) | WorkEnqueues(w: nat, i: nat)
    | OtherNotify(w: nat)
    | StopStep

  /** A started pool, the items that may be enqueued, and the bulk enqueues that may be made. */
  predicate Initial(s: State) {
    && |s.workers| > 0 && !s.exit && s.stop == NotStopped && !s.doomed
    && (forall w :: 0 <= w < |s.workers| ==> s.workers[w] == Worker(DrainOwn, 0))
    && (forall b :: 0 <= b < |s.bulks| ==> s.bulks[b] == NotBegun)
    && (forall i :: 0 <= i < |s.items| ==>
          s.items[i] == Item(s.items[i].home, Fresh, false, 0) && HomeOk(s, s.items[i].home))
  }

  predicate HomeOk(s: State, home: Home) {
    match home
    case Own(target) => target < |s.workers|
    case Shared(b) => b < |s.bulks|
  }

  predicate IsQueued(s: State, i: nat) { i < |s.items| && s.items[i].stage == Queued }

  predicate QueueEmpty(s: State) {
    forall i :: 0 <= i < |s.items| ==> s.items[i].stage != Queued
  }

  /** Nothing on this worker's own producer queue. */
  predicate OwnEmpty(s: State, w: nat) {
    forall i :: 0 <= i < |s.items| && s.items[i].stage == Queued ==> s.items[i].home != Own(w)
  }

  predicate NoOutsiderAtWork(s: State) {
    && (forall i :: 0 <= i < |s.items| ==> !s.items[i].announcing)
    && (forall b :: 0 <= b < |s.bulks| ==> s.bulks[b] == NotBegun || s.bulks[b] == Told)
  }

  predicate NotifiesSomeone(s: State, i: nat)
    requires i < |s.items|
  {
    s.items[i].home.Own? && s.items[i].home.target < |s.workers|
  }

  /** The queue is a linearizable bag: a dequeue fails only when it is empty. Outside producers are
      through before the shutdown starts, as its caller must see to. */
  predicate Enabled(s: State, a: Action) {
    match a
    case OutsideEnqueue(i) =>
      i < |s.items| && s.items[i].stage == Fresh && s.items[i].home.Own? && s.stop == NotStopped
    case OutsideNotify(i) => i < |s.items| && s.items[i].announcing && NotifiesSomeone(s, i)
    case BulkStep(b, i) =>
      b < |s.bulks| &&
      (match s.bulks[b]
       case NotBegun => s.stop == NotStopped
       case Filling => i < |s.items| ==> s.items[i].stage == Fresh && s.items[i].home == Shared(b)
       case Telling(_) => true
       case Told => false)
    case WorkerStep(w, i) =>
      w < |s.workers| &&
      (match s.workers[w].pc
       case DrainOwn => (IsQueued(s, i) && s.items[i].home == Own(w)) || (i >= |s.items| && OwnEmpty(s, w))
       case DrainAny => IsQueued(s, i) || (i >= |s.items| && QueueEmpty(s))
       case Working(item, _) => item < |s.items|
       case Notifying(_, _, target) => target < |s.workers|
       case CheckExit => true
       case Sleep => s.workers[w].tokens > 0
       case Exited => false)
    case WorkEnqueues(w, i) =>
      && w < |s.workers| && s.workers[w].pc.Working?
      && i < |s.items| && s.items[i].stage == Fresh && NotifiesSomeone(s, i)
    case OtherNotify(w) => w < |s.workers|
    case StopStep =>
      (match s.stop
       case NotStopped => NoOutsiderAtWork(s)
       case WakeNext(w) => w <= |s.workers|
       case Join(w) => w < |s.workers| ==> s.workers[w].pc == Exited
       case Joined => false)
  }

  function SetWorker(s: State, w: nat, pc: WorkerPc): State
    requires w < |s.workers|
  {
    s.(workers := s.workers[w := s.workers[w].(pc := pc)])
  }

  function SetStage(s: State, i: nat, stage: Stage): State
    requires i < |s.items|
  {
    s.(items := s.items[i := s.items[i].(stage := stage)])
  }

  /** `event_.signal()`. */
  function Notify(s: State, w: nat): State
    requires w < |s.workers|
  {
    s.(workers := s.workers[w := s.workers[w].(tokens := s.workers[w].tokens + 1)])
  }

  function WorkerNext(s: State, w: nat, i: nat): State
    requires w < |s.workers|
  {
    match s.workers[w].pc
    case DrainOwn =>
      if i < |s.items| then SetWorker(SetStage(s, i, Taken), w, Working(i, true)) else SetWorker(s, w, DrainAny)
    case DrainAny =>
      if i < |s.items| then SetWorker(SetStage(s, i, Taken), w, Working(i, false)) else SetWorker(s, w, CheckExit)
    case Working(item, own) =>
      if item < |s.items| then
        SetWorker(s.(items := s.items[item := s.items[item].(stage := Done, runs := s.items[item].runs + 1)]),
                  w, if own then DrainOwn else DrainAny)
      else s
    case Notifying(item, own, target) =>
      if target < |s.workers| then SetWorker(Notify(s, target), w, Working(item, own)) else s
    case CheckExit => SetWorker(s, w, if s.exit then Exited else Sleep)
    case Sleep =>
      if s.workers[w].tokens > 0
      then s.(workers := s.workers[w := Worker(DrainOwn, s.workers[w].tokens - 1)])
      else s
    case Exited => s
  }

  predicate AllAtTheFlag(s: State) {
    forall w :: 0 <= w < |s.workers| ==> s.workers[w].pc == CheckExit
  }

  function BulkNext(s: State, b: nat, i: nat): State
    requires b < |s.bulks|
  {
    match s.bulks[b]
    case NotBegun => s.(bulks := s.bulks[b := Filling])
    case Filling => if i < |s.items| then SetStage(s, i, Queued) else s.(bulks := s.bulks[b := Telling(0)])
    case Telling(w) =>
      if w < |s.workers| then Notify(s, w).(bulks := s.bulks[b := Telling(w + 1)]) else s.(bulks := s.bulks[b := Told])
    case Told => s
  }

  function StopNext(s: State): State {
    match s.stop
    case NotStopped => s.(stop := WakeNext(0), exit := true, doomed := !QueueEmpty(s) && AllAtTheFlag(s))
    case WakeNext(w) => if w < |s.workers| then Notify(s, w).(stop := WakeNext(w + 1)) else s.(stop := Join(0))
    case Join(w) => s.(stop := if w < |s.workers| then Join(w + 1) else Joined)
    case Joined => s
  }

  function Next(s: State, a: Action): State
    requires Enabled(s, a)
  {
    match a
    case OutsideEnqueue(i) => s.(items := s.items[i := s.items[i].(stage := Queued, announcing := true)])
    case OutsideNotify(i) => Notify(s, s.items[i].home.target).(items := s.items[i := s.items[i].(announcing := false)])
    case BulkStep(b, i) => BulkNext(s, b, i)
    case WorkerStep(w, i) => WorkerNext(s, w, i)
    case WorkEnqueues(w, i) =>
      var pc := s.workers[w].pc;
      SetWorker(SetStage(s, i, Queued), w, Notifying(pc.item, pc.own, s.items[i].home.target))
    case OtherNotify(w) => Notify(s, w)
    case StopStep => StopNext(s)
  }

  predicate StepsTo(s: State, a: Action, n: State) {
    Enabled(s, a) && Next(s, a) == n
  }

  ghost predicate Reachable(s: State) {
    Reached(Initial, StepsTo, s)
  }

  // ----- the invariant

  /** Has an item in hand. */
  predicate Busy(pc: WorkerPc) { pc.Working? || pc.Notifying? }

  /** Will dequeue again before it looks at the exit flag. */
  predicate Awake(pc: WorkerPc) { pc == DrainOwn || pc == DrainAny || Busy(pc) }

  /** Between its last empty dequeue and the return of its wait. */
  predicate Resting(pc: WorkerPc) { pc == CheckExit || pc == Sleep }

  /** Enqueued on a worker, an item is that worker's to find; shared, any worker's. */
  predicate Wants(home: Home, t: nat) { home == Own(t) || home.Shared? }

  predicate ItemTells(s: State, i: nat, t: nat) {
    i < |s.items| && s.items[i].announcing && s.items[i].home == Own(t)
  }

  predicate WorkerTells(s: State, w: nat, t: nat) {
    w < |s.workers| && s.workers[w].pc.Notifying? && s.workers[w].pc.target == t
  }

  predicate BulkTells(s: State, b: nat, t: nat) {
    b < |s.bulks| && (s.bulks[b] == Filling || (s.bulks[b].Telling? && s.bulks[b].w <= t))
  }

  /** Somebody has enqueued for this worker and is about to notify it. */
  ghost predicate NotifyComing(s: State, t: nat) {
    || (exists i: nat :: ItemTells(s, i, t))
    || (exists w: nat :: WorkerTells(s, w, t))
    || (exists b: nat :: BulkTells(s, b, t))
  }

  predicate ItemOk(s: State, i: nat)
    requires i < |s.items|
  {
    && HomeOk(s, s.items[i].home)
    && s.items[i].runs == (if s.items[i].stage == Done then 1 else 0)
    && (s.items[i].announcing ==> s.items[i].stage != Fresh && s.items[i].home.Own?)
  }

  predicate HasItem(s: State, w: nat, i: nat) {
    w < |s.workers| && Busy(s.workers[w].pc) && s.workers[w].pc.item == i
  }

  /** Items run once, when taken; a taken item is in the hands of exactly one worker. */
  ghost predicate ItemsOk(s: State) {
    && (forall i :: 0 <= i < |s.items| ==> ItemOk(s, i))
    && (forall w: nat, i: nat :: HasItem(s, w, i) ==> i < |s.items| && s.items[i].stage == Taken)
    && (forall v: nat, w: nat, i: nat :: HasItem(s, v, i) && HasItem(s, w, i) ==> v == w)
    && (forall i :: 0 <= i < |s.items| && s.items[i].stage == Taken ==> exists w: nat :: HasItem(s, w, i))
    && (forall w :: 0 <= w < |s.workers| && s.workers[w].pc.Notifying? ==> s.workers[w].pc.target < |s.workers|)
  }

  /** A resting worker has a token on its event, or one is coming. */
  ghost predicate TokenOrComing(s: State, t: nat) {
    t < |s.workers| && Resting(s.workers[t].pc) ==> s.workers[t].tokens > 0 || NotifyComing(s, t)
  }

  ghost predicate NotStranded(s: State) {
    forall i: nat, t: nat :: IsQueued(s, i) && Wants(s.items[i].home, t) ==> TokenOrComing(s, t)
  }

  /** This worker will dequeue again: it is awake, or it sleeps with a token or with the shutdown's
      wake still to come. */
  predicate WillDrain(s: State, w: nat)
    requires w < |s.workers|
  {
    || Awake(s.workers[w].pc)
    || (s.workers[w].pc == Sleep && (s.workers[w].tokens > 0 || (s.stop.WakeNext? && s.stop.w <= w)))
  }

  ghost predicate StopOk(s: State) {
    && (s.exit <==> s.stop != NotStopped)
    && (!s.exit ==> !s.doomed && forall w :: 0 <= w < |s.workers| ==> s.workers[w].pc != Exited)
    && (s.exit ==> NoOutsiderAtWork(s))
    && (s.exit ==> forall w :: 0 <= w < |s.workers| && s.workers[w].pc == Sleep ==> WillDrain(s, w))
    && (s.stop.WakeNext? ==> s.stop.w <= |s.workers|)
    && (s.stop.Join? ==> s.stop.w <= |s.workers| && forall w :: 0 <= w < s.stop.w ==> s.workers[w].pc == Exited)
    && (s.stop == Joined ==> forall w :: 0 <= w < |s.workers| ==> s.workers[w].pc == Exited)
    && (s.exit && !s.doomed && !QueueEmpty(s) ==> exists w :: 0 <= w < |s.workers| && WillDrain(s, w))
    && (s.doomed ==>
          && !QueueEmpty(s)
          && forall w :: 0 <= w < |s.workers| ==> s.workers[w].pc == CheckExit || s.workers[w].pc == Exited)
  }

  ghost predicate Inv(s: State) {
    |s.workers| > 0 && ItemsOk(s) && NotStranded(s) && StopOk(s)
  }

  // ----- every step keeps the invariant

  lemma ItemsAfterTake(s: State, w: nat, i: nat)
    requires ItemsOk(s) && Enabled(s, WorkerStep(w, i)) && (s.workers[w].pc == DrainOwn || s.workers[w].pc == DrainAny)
    ensures ItemsOk(WorkerNext(s, w, i))
  {
    var n := WorkerNext(s, w, i);
    forall v: nat, j: nat | HasItem(n, v, j) ensures HasItem(s, v, j) || (v == w && j == i) {
    }
    forall v: nat, j: nat | HasItem(s, v, j) ensures HasItem(n, v, j) {
    }
    assert i < |s.items| ==> HasItem(n, w, i);
    forall j | 0 <= j < |n.items| ensures ItemOk(n, j) {
      assert ItemOk(s, j);
    }
    forall j | 0 <= j < |n.items| && n.items[j].stage == Taken ensures exists v: nat :: HasItem(n, v, j) {
      if j != i {
        var v: nat :| HasItem(s, v, j);
        assert HasItem(n, v, j);
      }
    }
  }

  lemma ItemsAfterWork(s: State, w: nat, i: nat)
    requires ItemsOk(s) && Enabled(s, WorkerStep(w, i)) && s.workers[w].pc.Working?
    ensures ItemsOk(WorkerNext(s, w, i))
  {
    var n := WorkerNext(s, w, i);
    var item := s.workers[w].pc.item;
    assert HasItem(s, w, item);
    forall v: nat, j: nat | HasItem(n, v, j) ensures HasItem(s, v, j) && v != w && j != item {
      assert !Busy(n.workers[w].pc) && HasItem(s, v, j);
    }
    forall j | 0 <= j < |n.items| ensures ItemOk(n, j) {
      assert ItemOk(s, j);
    }
    forall j | 0 <= j < |n.items| && n.items[j].stage == Taken ensures exists v: nat :: HasItem(n, v, j) {
      var v: nat :| HasItem(s, v, j);
      assert HasItem(n, v, j);
    }
  }

  /** The worker keeps what it has in hand, and items change only where nobody has them. */
  lemma ItemsAfterOther(s: State, n: State)
    requires ItemsOk(s) && |n.workers| == |s.workers| && |n.items| == |s.items|
    requires forall i :: 0 <= i < |n.items| ==>
      ItemOk(n, i) && (n.items[i].stage == Taken <==> s.items[i].stage == Taken)
    requires forall w :: 0 <= w < |n.workers| ==>
      && (Busy(n.workers[w].pc) <==> Busy(s.workers[w].pc))
      && (Busy(n.workers[w].pc) ==> n.workers[w].pc.item == s.workers[w].pc.item)
      && (n.workers[w].pc.Notifying? ==> n.workers[w].pc.target < |n.workers|)
    ensures ItemsOk(n)
  {
    forall v: nat, j: nat ensures HasItem(n, v, j) <==> HasItem(s, v, j) {
    }
    forall j | 0 <= j < |n.items| && n.items[j].stage == Taken ensures exists v: nat :: HasItem(n, v, j) {
      var v: nat :| HasItem(s, v, j);
      assert HasItem(n, v, j);
    }
  }

  predicate Dequeues(s: State, a: Action) {
    a.WorkerStep? && a.w < |s.workers| && (s.workers[a.w].pc == DrainOwn || s.workers[a.w].pc == DrainAny)
  }

  predicate Works(s: State, a: Action) {
    a.WorkerStep? && a.w < |s.workers| && s.workers[a.w].pc.Working?
  }

  lemma ItemElsewhere(s: State, a: Action, i: nat)
    requires Enabled(s, a) && !Dequeues(s, a) && !Works(s, a) && i < |s.items| && ItemOk(s, i)
    ensures var n := Next(s, a);
      && |n.items| == |s.items| && ItemOk(n, i)
      && (n.items[i].stage == Taken <==> s.items[i].stage == Taken)
  {
  }

  lemma WorkerElsewhere(s: State, a: Action, w: nat)
    requires Enabled(s, a) && !Dequeues(s, a) && !Works(s, a) && w < |s.workers|
    requires s.workers[w].pc.Notifying? ==> s.workers[w].pc.target < |s.workers|
    ensures var n := Next(s, a);
      && |n.workers| == |s.workers| && (Busy(n.workers[w].pc) <==> Busy(s.workers[w].pc))
      && (Busy(n.workers[w].pc) ==> n.workers[w].pc.item == s.workers[w].pc.item)
      && (n.workers[w].pc.Notifying? ==> n.workers[w].pc.target < |n.workers|)
  {
  }

  lemma ItemsElsewhere(s: State, a: Action)
    requires ItemsOk(s) && Enabled(s, a) && !Dequeues(s, a) && !Works(s, a)
    ensures ItemsOk(Next(s, a))
  {
    var n := Next(s, a);
    SizesStay(s, a);
    forall i | 0 <= i < |n.items|
      ensures ItemOk(n, i) && (n.items[i].stage == Taken <==> s.items[i].stage == Taken) {
      ItemElsewhere(s, a, i);
    }
    forall w | 0 <= w < |n.workers|
      ensures (Busy(n.workers[w].pc) <==> Busy(s.workers[w].pc))
              && (Busy(n.workers[w].pc) ==> n.workers[w].pc.item == s.workers[w].pc.item)
              && (n.workers[w].pc.Notifying? ==> n.workers[w].pc.target < |n.workers|) {
      WorkerElsewhere(s, a, w);
    }
    ItemsAfterOther(s, n);
  }

  lemma ItemsKept(s: State, a: Action)
    requires ItemsOk(s) && Enabled(s, a)
    ensures ItemsOk(Next(s, a))
  {
    if Dequeues(s, a) {
      ItemsAfterTake(s, a.w, a.i);
    } else if Works(s, a) {
      ItemsAfterWork(s, a.w, a.i);
    } else {
      ItemsElsewhere(s, a);
    }
  }

  /** A notice that was coming still comes, or has come. */
  lemma ComingKept(s: State, a: Action, t: nat)
    requires Enabled(s, a) && NotifyComing(s, t) && t < |s.workers|
    ensures |Next(s, a).workers| == |s.workers|
    ensures NotifyComing(Next(s, a), t) || Next(s, a).workers[t].tokens > 0
  {
    var n := Next(s, a);
    if i: nat :| ItemTells(s, i, t) {
      ItemTellsOn(s, a, i, t);
    } else if w: nat :| WorkerTells(s, w, t) {
      WorkerTellsOn(s, a, w, t);
    } else {
      var b: nat :| BulkTells(s, b, t);
      BulkTellsOn(s, a, b, t);
    }
  }

  lemma ItemTellsOn(s: State, a: Action, i: nat, t: nat)
    requires Enabled(s, a) && ItemTells(s, i, t) && t < |s.workers|
    ensures |Next(s, a).workers| == |s.workers|
    ensures ItemTells(Next(s, a), i, t) || Next(s, a).workers[t].tokens > 0
  {
  }

  lemma WorkerTellsOn(s: State, a: Action, w: nat, t: nat)
    requires Enabled(s, a) && WorkerTells(s, w, t) && t < |s.workers|
    ensures |Next(s, a).workers| == |s.workers|
    ensures WorkerTells(Next(s, a), w, t) || Next(s, a).workers[t].tokens > 0
  {
  }

  lemma BulkTellsOn(s: State, a: Action, b: nat, t: nat)
    requires Enabled(s, a) && BulkTells(s, b, t) && t < |s.workers|
    ensures |Next(s, a).workers| == |s.workers|
    ensures BulkTells(Next(s, a), b, t) || Next(s, a).workers[t].tokens > 0
  {
  }

  /** What is newly enqueued is about to be announced to those it is for. */
  lemma NewIsComing(s: State, a: Action, i: nat, t: nat)
    requires Enabled(s, a) && i < |s.items| && !IsQueued(s, i) && IsQueued(Next(s, a), i)
    requires Wants(Next(s, a).items[i].home, t)
    ensures NotifyComing(Next(s, a), t)
  {
    var n := Next(s, a);
    match a {
      case OutsideEnqueue(_) => assert ItemTells(n, i, t);
      case WorkEnqueues(w, _) => assert WorkerTells(n, w, t);
      case BulkStep(b, _) => assert BulkTells(n, b, t);
      case _ => assert false;
    }
  }

  lemma HomeStays(s: State, a: Action, i: nat)
    requires Enabled(s, a) && i < |s.items|
    ensures |Next(s, a).items| == |s.items| && Next(s, a).items[i].home == s.items[i].home
  {
  }

  /** A worker that rests was resting, with no more tokens, or has just found the queue empty. */
  lemma RestKept(s: State, a: Action, t: nat)
    requires Enabled(s, a) && t < |s.workers|
    ensures |Next(s, a).workers| == |s.workers|
    ensures Resting(Next(s, a).workers[t].pc) ==>
      || (Resting(s.workers[t].pc) && Next(s, a).workers[t].tokens >= s.workers[t].tokens)
      || QueueEmpty(Next(s, a))
  {
    if a.WorkerStep? && s.workers[a.w].pc == DrainAny && a.i >= |s.items| {
      assert Next(s, a).items == s.items;
    }
  }

  lemma StrandedKept(s: State, a: Action)
    requires NotStranded(s) && Enabled(s, a)
    ensures NotStranded(Next(s, a))
  {
    var n := Next(s, a);
    forall i: nat, t: nat | IsQueued(n, i) && Wants(n.items[i].home, t) && t < |n.workers| ensures TokenOrComing(n, t) {
      TokenKept(s, a, i, t);
    }
  }

  lemma TokenKept(s: State, a: Action, i: nat, t: nat)
    requires NotStranded(s) && Enabled(s, a)
    requires IsQueued(Next(s, a), i) && Wants(Next(s, a).items[i].home, t) && t < |Next(s, a).workers|
    ensures TokenOrComing(Next(s, a), t)
  {
    var n := Next(s, a);
    SizesStay(s, a);
    HomeStays(s, a, i);
    RestKept(s, a, t);
    if Resting(n.workers[t].pc) && n.workers[t].tokens == 0 {
      if IsQueued(s, i) {
        assert TokenOrComing(s, t);
        ComingKept(s, a, t);
      } else {
        NewIsComing(s, a, i, t);
      }
    }
  }

  lemma SizesStay(s: State, a: Action)
    requires Enabled(s, a)
    ensures |Next(s, a).workers| == |s.workers| && |Next(s, a).items| == |s.items| && |Next(s, a).bulks| == |s.bulks|
  {
  }

  lemma StopAfterStop(s: State)
    requires StopOk(s) && Enabled(s, StopStep)
    ensures StopOk(StopNext(s))
  {
    var n := StopNext(s);
    if !s.exit && !n.doomed && !QueueEmpty(n) {
      var w :| 0 <= w < |s.workers| && s.workers[w].pc != CheckExit;
      assert WillDrain(n, w);
    } else if s.exit && !n.doomed && !QueueEmpty(n) {
      var w :| 0 <= w < |s.workers| && WillDrain(s, w);
      assert WillDrain(n, w);
    }
    forall w | 0 <= w < |n.workers| && n.workers[w].pc == Sleep ensures WillDrain(n, w) {
      assert s.exit ==> WillDrain(s, w);
    }
  }

  /** A worker's step leaves every worker that will drain so, or finds the queue empty. */
  lemma WillDrainAfterWorker(s: State, w: nat, i: nat, v: nat)
    requires Enabled(s, WorkerStep(w, i)) && v < |s.workers|
    requires forall u :: 0 <= u < |s.workers| && s.workers[u].pc.Notifying? ==> s.workers[u].pc.target < |s.workers|
    ensures |WorkerNext(s, w, i).workers| == |s.workers|
    ensures WillDrain(s, v) ==> WillDrain(WorkerNext(s, w, i), v) || QueueEmpty(WorkerNext(s, w, i))
    ensures s.exit && s.workers[v].pc != Sleep ==> WorkerNext(s, w, i).workers[v].pc != Sleep
    ensures s.workers[v].pc == Sleep && WillDrain(s, v) ==> WillDrain(WorkerNext(s, w, i), v)
  {
  }

  lemma SomeoneDrainsAfterWorker(s: State, w: nat, i: nat)
    requires StopOk(s) && Enabled(s, WorkerStep(w, i))
    requires forall v :: 0 <= v < |s.workers| && s.workers[v].pc.Notifying? ==> s.workers[v].pc.target < |s.workers|
    ensures var n := WorkerNext(s, w, i);
      n.exit && !n.doomed && !QueueEmpty(n) ==> exists v :: 0 <= v < |n.workers| && WillDrain(n, v)
  {
    var n := WorkerNext(s, w, i);
    if n.exit && !n.doomed && !QueueEmpty(n) {
      WillDrainAfterWorker(s, w, i, w);
      var v :| 0 <= v < |s.workers| && WillDrain(s, v);
      WillDrainAfterWorker(s, w, i, v);
    }
  }

  lemma StopAfterWorker(s: State, w: nat, i: nat)
    requires StopOk(s) && Enabled(s, WorkerStep(w, i))
    requires forall v :: 0 <= v < |s.workers| && s.workers[v].pc.Notifying? ==> s.workers[v].pc.target < |s.workers|
    ensures StopOk(WorkerNext(s, w, i))
  {
    var n := WorkerNext(s, w, i);
    WillDrainAfterWorker(s, w, i, w);
    forall v | 0 <= v < |n.workers| && n.exit && n.workers[v].pc == Sleep ensures WillDrain(n, v) {
      WillDrainAfterWorker(s, w, i, v);
    }
    SomeoneDrainsAfterWorker(s, w, i);
  }

  /** Producers and notices do not touch the shutdown's own fields. */
  lemma StopAfterOther(s: State, a: Action)
    requires StopOk(s) && Enabled(s, a) && !a.WorkerStep? && !a.StopStep?
    ensures StopOk(Next(s, a))
  {
    var n := Next(s, a);
    forall v | 0 <= v < |n.workers| && n.exit && n.workers[v].pc == Sleep ensures WillDrain(n, v) {
      assert WillDrain(s, v);
    }
    if n.exit && !n.doomed && !QueueEmpty(n) {
      if a.WorkEnqueues? {
        assert WillDrain(n, a.w);
      } else {
        var v :| 0 <= v < |s.workers| && WillDrain(s, v);
        assert WillDrain(n, v);
      }
    }
  }

  lemma StopOkKept(s: State, a: Action)
    requires Inv(s) && Enabled(s, a)
    ensures StopOk(Next(s, a))
  {
    match a
    case StopStep => StopAfterStop(s);
    case WorkerStep(w, i) => StopAfterWorker(s, w, i);
    case _ => StopAfterOther(s, a);
  }

  lemma InvKept(s: State, a: Action)
    requires Inv(s) && Enabled(s, a)
    ensures Inv(Next(s, a))
  {
    ItemsKept(s, a);
    StrandedKept(s, a);
    StopOkKept(s, a);
  }

  lemma InitialInv(s: State)
    requires Initial(s)
    ensures Inv(s)
  {
    forall i | 0 <= i < |s.items| ensures ItemOk(s, i) {
    }
  }

  lemma ReachableInv(s: State)
    requires Reachable(s)
    ensures Inv(s)
  {
    forall t | Initial(t) ensures Inv(t) {
      InitialInv(t);
    }
    forall t, a, n | Inv(t) && StepsTo(t, a, n) ensures Inv(n) {
      InvKept(t, a);
    }
    ReachedInv(Initial, StepsTo, Inv, s);
  }
}
