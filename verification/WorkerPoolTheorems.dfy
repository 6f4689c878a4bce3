/** What the invariant of the worker pool gives: nothing queued is stranded, nothing runs twice, the
    shutdown is never stuck, and exactly when it drains the queue. */
module WorkerPoolTheorems {
  import opened Runs
  import opened WorkerPool

  /** The step that posts a token for worker t, or comes before it, can be taken. */
  ghost predicate NoticeOnItsWay(s: State, t: nat) {
    || (exists j: nat :: ItemTells(s, j, t) && Enabled(s, OutsideNotify(j)))
    || (exists w: nat :: WorkerTells(s, w, t) && Enabled(s, WorkerStep(w, 0)))
    || (exists b: nat :: BulkTells(s, b, t) && Enabled(s, BulkStep(b, |s.items|)))
  }

  lemma ComingIsOnItsWay(s: State, t: nat)
    requires Inv(s) && NotifyComing(s, t) && t < |s.workers|
    ensures NoticeOnItsWay(s, t)
  {
    if j: nat :| ItemTells(s, j, t) {
      assert ItemOk(s, j) && Enabled(s, OutsideNotify(j));
    } else if w: nat :| WorkerTells(s, w, t) {
      assert Enabled(s, WorkerStep(w, 0));
    } else {
      var b: nat :| BulkTells(s, b, t);
      assert Enabled(s, BulkStep(b, |s.items|));
    }
  }

  /** A worker in its first inner loop, over the items of its own producer. */
  predicate InOwnLoop(pc: WorkerPc) {
    pc == DrainOwn || ((pc.Working? || pc.Notifying?) && pc.own)
  }

  /** Only finding its own producer empty takes a worker out of its first loop. */
  lemma OwnLoopEnds(s: State, a: Action, w: nat)
    requires Enabled(s, a) && w < |s.workers| && InOwnLoop(s.workers[w].pc)
    ensures |Next(s, a).workers| == |s.workers|
    ensures InOwnLoop(Next(s, a).workers[w].pc) || (a.WorkerStep? && a.w == w && OwnEmpty(s, w))
  {
  }

  /** Own items first: once a worker is in its first loop, as it is after every wake, it takes an
      item of anybody else's only after it has found its own producer empty. */
  lemma {:induction false} OwnItemsFirst(states: seq<State>, run: seq<Action>, w: nat, i: nat, j: nat)
    requires IsRun(StepsTo, states, run) && i <= j < |run| && w < |states[i].workers|
    requires InOwnLoop(states[i].workers[w].pc)
    requires run[j].WorkerStep? && run[j].w == w && run[j].i < |states[j].items|
    requires states[j].workers[w].pc == DrainOwn || states[j].workers[w].pc == DrainAny
    requires states[j].items[run[j].i].home != Own(w)
    ensures exists k :: i <= k < j && run[k].WorkerStep? && run[k].w == w && OwnEmpty(states[k], w)
    decreases j - i
  {
    assert StepsTo(states[i], run[i], states[i + 1]);
    OwnLoopEnds(states[i], run[i], w);
    if i < j && InOwnLoop(states[i + 1].workers[w].pc) {
      OwnItemsFirst(states, run, w, i + 1, j);
    }
  }

  /** While the worker an item is enqueued on is between its last empty dequeue and the return of
      its wait, its event has a token or the step that posts one can be taken. */
  lemma NoStrandedItem(s: State, i: nat)
    requires Reachable(s) && IsQueued(s, i) && s.items[i].home.Own?
    ensures var t := s.items[i].home.target;
      t < |s.workers| && (Resting(s.workers[t].pc) ==> s.workers[t].tokens > 0 || NoticeOnItsWay(s, t))
  {
    ReachableInv(s);
    var t := s.items[i].home.target;
    assert ItemOk(s, i) && TokenOrComing(s, t);
    if Resting(s.workers[t].pc) && s.workers[t].tokens == 0 {
      ComingIsOnItsWay(s, t);
    }
  }

  /** While an item of a bulk enqueue is queued, every worker that has not exited is awake, has a
      token, or is still to be signalled: so none of them goes back to sleep past the item. */
  lemma SharedItemIsServed(s: State, i: nat, t: nat)
    requires Reachable(s) && IsQueued(s, i) && s.items[i].home.Shared? && t < |s.workers|
    ensures s.workers[t].pc == Exited || Awake(s.workers[t].pc) || s.workers[t].tokens > 0 || NoticeOnItsWay(s, t)
  {
    ReachableInv(s);
    assert TokenOrComing(s, t);
    if Resting(s.workers[t].pc) && s.workers[t].tokens == 0 {
      ComingIsOnItsWay(s, t);
    }
  }

  /** No item runs twice, and one that is taken is in the hands of one worker alone. */
  lemma RunsAtMostOnce(s: State, i: nat)
    requires Reachable(s) && i < |s.items|
    ensures s.items[i].runs <= 1 && (s.items[i].runs == 1 <==> s.items[i].stage == Done)
    ensures s.items[i].stage == Taken <==> exists w: nat :: HasItem(s, w, i)
    ensures forall v: nat, w: nat :: HasItem(s, v, i) && HasItem(s, w, i) ==> v == w
  {
    ReachableInv(s);
    assert ItemOk(s, i);
  }

  // ----- the shutdown

  /** Once it has begun, the shutdown is never stuck: it can go on, or a worker it waits for can. */
  lemma StopNeverHangs(s: State)
    requires Reachable(s) && s.stop != NotStopped && s.stop != Joined
    ensures Enabled(s, StopStep) || exists w: nat, i: nat :: Enabled(s, WorkerStep(w, i))
  {
    ReachableInv(s);
    if s.stop.Join? && s.stop.w < |s.workers| && s.workers[s.stop.w].pc != Exited {
      var w := s.stop.w;
      var none := |s.items|;
      match s.workers[w].pc {
        case DrainOwn =>
          if i :| 0 <= i < |s.items| && s.items[i].stage == Queued && s.items[i].home == Own(w) {
            assert Enabled(s, WorkerStep(w, i));
          } else {
            assert Enabled(s, WorkerStep(w, none));
          }
        case DrainAny =>
          if i :| 0 <= i < |s.items| && s.items[i].stage == Queued {
            assert Enabled(s, WorkerStep(w, i));
          } else {
            assert Enabled(s, WorkerStep(w, none));
          }
        case Sleep =>
          assert WillDrain(s, w);
          assert Enabled(s, WorkerStep(w, none));
        case Working(item, _) =>
          assert HasItem(s, w, item);
          assert Enabled(s, WorkerStep(w, none));
        case Notifying(_, _, _) =>
          assert Enabled(s, WorkerStep(w, none));
        case CheckExit =>
          assert Enabled(s, WorkerStep(w, none));
        case Exited =>
          assert false;
      }
    }
  }

  /** Every item that was ever enqueued has run, exactly once. */
  ghost predicate Drained(s: State) {
    forall i :: 0 <= i < |s.items| && s.items[i].stage != Fresh ==> s.items[i].stage == Done && s.items[i].runs == 1
  }

  ghost predicate StaysDoomed(s: State) { Inv(s) && s.exit && s.doomed }
  ghost predicate StaysWell(s: State) { Inv(s) && s.exit && !s.doomed }

  lemma DoomStays(s: State, a: Action)
    requires Inv(s) && s.exit && Enabled(s, a)
    ensures Inv(Next(s, a)) && Next(s, a).exit && Next(s, a).doomed == s.doomed
  {
    InvKept(s, a);
  }

  lemma DoomIsSettled(states: seq<State>, run: seq<Action>)
    requires IsRun(StepsTo, states, run) && Inv(states[0]) && states[0].exit
    ensures Inv(states[|run|]) && states[|run|].doomed == states[0].doomed
  {
    forall s, a, n | Inv(s) && s.exit && StepsTo(s, a, n) ensures Inv(n) && n.exit && n.doomed == s.doomed {
      DoomStays(s, a);
    }
    if states[0].doomed {
      Kept(StepsTo, StaysDoomed, states, run, |run|);
    } else {
      Kept(StepsTo, StaysWell, states, run, |run|);
    }
  }

  lemma JoinedIsDrained(s: State)
    requires Inv(s) && s.stop == Joined
    ensures Drained(s) <==> !s.doomed
  {
    forall i | 0 <= i < |s.items| ensures ItemOk(s, i) && s.items[i].stage != Taken {
      assert forall w: nat :: !HasItem(s, w, i);
    }
    if !s.doomed {
      assert QueueEmpty(s);
    }
  }

  /** The shutdown drains the queue, items enqueued by running work included, if and only if, when
      it is called, the queue is empty or some worker has yet to make its last look at the queue
      (it is dequeuing, working or asleep). No outside producer is at work then. */
  lemma DrainsExactlyWhen(states: seq<State>, run: seq<Action>)
    requires IsRun(StepsTo, states, run) && Reachable(states[0]) && states[0].stop == NotStopped
    requires run != [] && run[0] == StopStep && states[|run|].stop == Joined
    ensures Drained(states[|run|]) <==> QueueEmpty(states[0]) || !AllAtTheFlag(states[0])
  {
    ReachableInv(states[0]);
    assert StepsTo(states[0], run[0], states[1]);
    InvKept(states[0], StopStep);
    RestOfRun(StepsTo, states, run);
    DoomIsSettled(states[1..], run[1..]);
    JoinedIsDrained(states[|run|]);
  }

  /** What a caller can see to: shut down when everything enqueued so far has been taken, the
      shutdown runs all there is, what running work still enqueues included. */
  lemma EmptyQueueDrains(states: seq<State>, run: seq<Action>)
    requires IsRun(StepsTo, states, run) && Reachable(states[0]) && states[0].stop == NotStopped
    requires run != [] && run[0] == StopStep && states[|run|].stop == Joined
    requires QueueEmpty(states[0])
    ensures Drained(states[|run|])
  {
    DrainsExactlyWhen(states, run);
  }

  // ----- a lost item

  lemma Leads(s: State, a: Action, n: State)
    requires Reachable(s) && Enabled(s, a) && Next(s, a) == n
    ensures Reachable(n)
  {
    ReachedNext(Initial, StepsTo, s, a, n);
  }

  /** One worker and one item. */
  function One(pc: WorkerPc, tokens: nat, stage: Stage, announcing: bool, stop: StopPc): State {
    State([Worker(pc, tokens)], [Item(Own(0), stage, announcing, 0)], [], stop != NotStopped, stop, stop != NotStopped)
  }

  /** An item enqueued and announced while the worker is between its last empty dequeue and its look
      at the exit flag. */
  lemma EnqueuedTooLate()
    ensures Reachable(One(CheckExit, 1, Queued, false, NotStopped))
  {
    var s := One(DrainOwn, 0, Fresh, false, NotStopped);
    assert IsRun<State, Action>(StepsTo, [s], []) && Initial([s][0]);
    Leads(s, WorkerStep(0, 1), One(DrainAny, 0, Fresh, false, NotStopped));
    Leads(One(DrainAny, 0, Fresh, false, NotStopped), WorkerStep(0, 1), One(CheckExit, 0, Fresh, false, NotStopped));
    Leads(One(CheckExit, 0, Fresh, false, NotStopped), OutsideEnqueue(0), One(CheckExit, 0, Queued, true, NotStopped));
    Leads(One(CheckExit, 0, Queued, true, NotStopped), OutsideNotify(0), One(CheckExit, 1, Queued, false, NotStopped));
  }

  lemma StoppedTooLate()
    ensures Reachable(One(CheckExit, 2, Queued, false, Join(0)))
  {
    EnqueuedTooLate();
    var late := One(CheckExit, 1, Queued, false, NotStopped);
    assert late.items[0].stage == Queued;
    Leads(late, StopStep, One(CheckExit, 1, Queued, false, WakeNext(0)));
    Leads(One(CheckExit, 1, Queued, false, WakeNext(0)), StopStep, One(CheckExit, 2, Queued, false, WakeNext(1)));
    Leads(One(CheckExit, 2, Queued, false, WakeNext(1)), StopStep, One(CheckExit, 2, Queued, false, Join(0)));
  }

  /** So a full drain is not promised: with every producer through, the joined pool can leave an
      announced item queued, never run. */
  lemma LostItem()
    ensures exists s :: Reachable(s) && s.stop == Joined && IsQueued(s, 0) && s.items[0].runs == 0
  {
    StoppedTooLate();
    Leads(One(CheckExit, 2, Queued, false, Join(0)), WorkerStep(0, 1), One(Exited, 2, Queued, false, Join(0)));
    Leads(One(Exited, 2, Queued, false, Join(0)), StopStep, One(Exited, 2, Queued, false, Join(1)));
    Leads(One(Exited, 2, Queued, false, Join(1)), StopStep, One(Exited, 2, Queued, false, Joined));
    assert IsQueued(One(Exited, 2, Queued, false, Joined), 0);
  }
}
