/** What one libuv spread guarantees, over every interleaving of its participants and every answer
    of `uv_queue_work`. */
module LibuvTheorems {
  import opened Tally
  import opened LibuvSpread
  import opened Runs

  /** The step reads or writes the node. Deleting it is told apart. */
  predicate TouchesNode(s: State, a: Action)
    requires Enabled(s, a)
  {
    match a
    case CallerStep => s.caller != LatchWait && s.caller != CallerDelete
    case QueuerStep(_) => s.queuer != QueuerDelete
    case WorkerStep(_) => true
    case AfterStep(j) => s.chunks[j].req != AfterDelete
  }

  /** The step deletes the node. */
  predicate DeletesNode(s: State, a: Action)
    requires Enabled(s, a)
  {
    match a
    case CallerStep => s.caller == CallerDelete
    case QueuerStep(_) => s.queuer == QueuerDelete
    case WorkerStep(_) => false
    case AfterStep(j) => s.chunks[j].req == AfterDelete
  }

  /** The step calls the work body or counts down the latch, which live in the caller's frame. */
  predicate UsesCallerFrame(s: State, a: Action)
    requires Enabled(s, a)
  {
    match a
    case CallerStep => false
    case QueuerStep(_) => s.queuer.QueueRun? || s.queuer.QueueCount?
    case WorkerStep(j) => s.chunks[j].req == Started || s.chunks[j].req == Ran
    case AfterStep(_) => false
  }

  /** The count is exactly the shares still out: the caller's, the queuer's, and one for every
      chunk whose after-callback has not run, the one about to be queued included. */
  lemma RefsAreShares(s: State)
    requires Reachable(s)
    ensures s.refs == CallerShare(s.caller) + QueuerShare(s.queuer) + Sum(Holds, s.chunks)
  {
    ReachableInv(s);
  }

  /** Neither a touch nor a second delete happens after the node was deleted. */
  lemma NoUseAfterDelete(s: State, a: Action)
    requires Reachable(s) && Enabled(s, a) && (TouchesNode(s, a) || DeletesNode(s, a))
    ensures s.deletes == 0
  {
    ReachableInv(s);
    if a.WorkerStep? || a.AfterStep? {
      Updated(Holds, s.chunks, a.j, s.chunks[a.j]);
      Updated(Deleting, s.chunks, a.j, s.chunks[a.j]);
    }
  }

  /** A chunk nobody has anything left to do for holds no reference. */
  lemma NothingLeft(s: State, j: nat)
    requires Inv(s) && s.caller == Returned && s.queuer == QueuerDone && j < |s.chunks|
    requires !Enabled(s, WorkerStep(j)) && !Enabled(s, AfterStep(j))
    ensures Holds(s.chunks[j]) == 0 && Deleting(s.chunks[j]) == 0
  {
    assert ChunkOk(s.chunks[j], CallerRole(s.caller, j), QueuerRole(s.queuer, j));
  }

  /** Every participant is through: the node has been deleted, exactly once. */
  lemma DeletedOnceAtTheEnd(s: State)
    requires Reachable(s) && s.caller == Returned && s.queuer == QueuerDone
    requires forall j :: 0 <= j < |s.chunks| ==> !Enabled(s, WorkerStep(j)) && !Enabled(s, AfterStep(j))
    ensures s.deletes == 1
  {
    ReachableInv(s);
    Positive(Holds, s.chunks);
    Positive(Deleting, s.chunks);
    forall j | 0 <= j < |s.chunks| ensures Holds(s.chunks[j]) == 0 && Deleting(s.chunks[j]) == 0 {
      NothingLeft(s, j);
    }
  }

  /** Once the caller is past its latch, nobody calls the work body or uses the latch any more. */
  lemma CallerFrameUnusedAfterReturn(s: State, a: Action)
    requires Reachable(s) && Enabled(s, a) && UsesCallerFrame(s, a)
    ensures s.caller != CallerRelease && s.caller != CallerDelete && s.caller != Returned
    ensures s.latch > 0
  {
    ReachableInv(s);
    var j := Target(s, a);
    assert ChunkOk(s.chunks[j], CallerRole(s.caller, j), QueuerRole(s.queuer, j));
    Positive(Uncounted, s.chunks);
  }

  predicate PastTheLatch(pc: CallerPc) { pc == CallerRelease || pc == CallerDelete || pc == Returned }

  /** In every state the latch is the chunks still to be counted down, and no body has run twice;
      when the caller is past its latch every body, the tail's included, has run exactly once. */
  lemma EveryChunkRunsOnce(s: State)
    requires Reachable(s)
    ensures s.latch == TailLeft(s.caller) + Sum(Uncounted, s.chunks)
    ensures s.tailRuns <= 1 && forall j :: 0 <= j < |s.chunks| ==> s.chunks[j].runs <= 1
    ensures PastTheLatch(s.caller) ==> s.tailRuns == 1 && forall j :: 0 <= j < |s.chunks| ==> s.chunks[j].runs == 1
  {
    ReachableInv(s);
    Positive(Uncounted, s.chunks);
    forall j | 0 <= j < |s.chunks|
      ensures s.chunks[j].runs <= 1 && (s.chunks[j].counted ==> s.chunks[j].runs == 1)
    {
      assert ChunkOk(s.chunks[j], CallerRole(s.caller, j), QueuerRole(s.queuer, j));
    }
    if PastTheLatch(s.caller) {
      assert forall j :: 0 <= j < |s.chunks| ==> Uncounted(s.chunks[j]) == 0;
    }
  }

  /** When the caller waits on its latch, no chunk is pending or still waiting for a pool slot:
      each one not counted down is already executing on a worker or on the loop thread. */
  lemma NeverWaitsForASlot(s: State, j: nat)
    requires Reachable(s) && s.caller == LatchWait && j < |s.chunks|
    ensures s.chunks[j].mark != Pending && s.chunks[j].req != InPool
    ensures !s.chunks[j].counted ==>
      || s.chunks[j].req == Started || s.chunks[j].req == Ran
      || (s.queuer == QueueUnlock(j, true) || s.queuer == QueueRun(j) || s.queuer == QueueCount(j))
  {
    ReachableInv(s);
    assert ChunkOk(s.chunks[j], CallerRole(s.caller, j), QueuerRole(s.queuer, j));
    assert Passed(s.chunks[j]);
  }

  /** The step hands a chunk from the pool's queue to a worker, which takes a free pool slot. */
  predicate TakesASlot(s: State, a: Action)
    requires Enabled(s, a)
  {
    a.WorkerStep? && s.chunks[a.j].req == InPool
  }

  /** Until the caller has returned, the caller, the queuer, or a worker that already has its slot
      can take a step, so a spread called from a saturated pool is never stuck. After-callbacks,
      which do nothing for the caller, are not counted on. */
  lemma AlwaysAStepWithoutASlot(s: State)
    requires Reachable(s) && s.caller != Returned
    ensures exists a :: Enabled(s, a) && !TakesASlot(s, a) && !a.AfterStep?
  {
    ReachableInv(s);
    if Enabled(s, CallerStep) {
      assert !TakesASlot(s, CallerStep);
    } else if Enabled(s, QueuerStep(true)) {
      assert !TakesASlot(s, QueuerStep(true));
    } else {
      assert s.caller == LatchWait && s.latch > 0;
      Positive(Uncounted, s.chunks);
      var j :| 0 <= j < |s.chunks| && Uncounted(s.chunks[j]) > 0;
      NeverWaitsForASlot(s, j);
      assert Enabled(s, WorkerStep(j)) && !TakesASlot(s, WorkerStep(j));
    }
  }

  // ----- every run ends, and with the caller returned

  /** Steps the caller still has to take, at most. */
  function CallerLeft(n: nat, pc: CallerPc): nat {
    match pc
    case HandOff => 5 * n + 7
    case TailRun => 5 * n + 6
    case TailCount => 5 * n + 5
    case StealNext(left) => 5 * left + 4
    case StealClaim(i) => 5 * i + 8
    case StealUnlock(i, _) => 5 * i + 7
    case StealRun(i) => 5 * i + 6
    case StealCount(i) => 5 * i + 5
    case LatchWait => 3
    case CallerRelease => 2
    case CallerDelete => 1
    case Returned => 0
  }

  function Rest(n: nat, i: nat): nat { if i < n then 8 * (n - i) else 0 }

  /** Steps the queuer still has to take, at most. */
  function QueuerLeft(n: nat, pc: QueuerPc): nat {
    match pc
    case NotHanded => Rest(n, 0) + 3
    case QueueNext(i) => Rest(n, i) + 3
    case QueueCheck(i) => Rest(n, i + 1) + 10
    case QueueAddRef(i) => Rest(n, i + 1) + 9
    case QueueWork(i) => Rest(n, i + 1) + 8
    case QueueMark(i) => Rest(n, i + 1) + 7
    case QueueDropRef(i) => Rest(n, i + 1) + 7
    case QueueUnlock(i, _) => Rest(n, i + 1) + 6
    case QueueRun(i) => Rest(n, i + 1) + 5
    case QueueCount(i) => Rest(n, i + 1) + 4
    case QueuerRelease => 2
    case QueuerDelete => 1
    case QueuerDone => 0
  }

  /** Steps the pool and the loop still have to take for a chunk, at most. */
  function RequestLeft(c: Chunk): nat {
    match c.req
    case NotQueued => 6
    case Tentative => 6
    case InPool => 5
    case Started => 4
    case Ran => 3
    case Finished => 2
    case Cancelled => 2
    case AfterDelete => 1
    case Released => 0
  }

  function Rank(s: State): nat {
    CallerLeft(|s.chunks|, s.caller) + QueuerLeft(|s.chunks|, s.queuer) + Sum(RequestLeft, s.chunks)
  }

  lemma CallerStepLowers(s: State)
    requires PcsOk(s) && CallerEnabled(s)
    ensures Rank(CallerNext(s)) < Rank(s)
  {
    Weigh(RequestLeft, s, CallerStep);
  }

  lemma QueuerMovesOn(s: State, accepted: bool)
    requires PcsOk(s) && QueuerEnabled(s)
    ensures var n := QueuerNext(s, accepted);
      n.caller == s.caller && QueuerLeft(|s.chunks|, n.queuer) < QueuerLeft(|s.chunks|, s.queuer)
  {
  }

  lemma QueuerRaisesNothing(s: State, accepted: bool)
    requires QueuerEnabled(s) && TargetOk(s, QueuerStep(accepted))
    ensures var n, j := QueuerNext(s, accepted), Target(s, QueuerStep(accepted));
      |n.chunks| == |s.chunks| && (j < |s.chunks| ==> RequestLeft(n.chunks[j]) <= RequestLeft(s.chunks[j]))
  {
  }

  lemma QueuerStepLowers(s: State, accepted: bool)
    requires PcsOk(s) && QueuerEnabled(s) && TargetOk(s, QueuerStep(accepted))
    ensures Rank(QueuerNext(s, accepted)) < Rank(s)
  {
    QueuerMovesOn(s, accepted);
    QueuerRaisesNothing(s, accepted);
    Weigh(RequestLeft, s, QueuerStep(accepted));
  }

  lemma PoolStepLowers(s: State, a: Action)
    requires Enabled(s, a) && (a.WorkerStep? || a.AfterStep?)
    ensures Rank(Next(s, a)) < Rank(s)
  {
    Weigh(RequestLeft, s, a);
  }

  /** Every step of every participant brings the spread nearer to its end. */
  lemma StepLowers(s: State, a: Action)
    requires Inv(s) && Enabled(s, a)
    ensures Rank(Next(s, a)) < Rank(s)
  {
    match a
    case CallerStep => CallerStepLowers(s);
    case QueuerStep(accepted) => QueuerStepLowers(s, accepted);
    case _ => PoolStepLowers(s, a);
  }

  /** Termination: no run of a spread of n chunks and the tail is longer than 19 n + 10 steps, and
      one that can only go on by taking pool slots or by after-callbacks has let the caller return.
      So every spread returns, from a saturated pool too. */
  lemma EveryRunReturns(states: seq<State>, run: seq<Action>)
    requires IsRun(StepsTo, states, run) && Initial(states[0])
    ensures |run| <= 19 * |states[0].chunks| + 10
    ensures
      (forall a :: Enabled(states[|run|], a) ==> TakesASlot(states[|run|], a) || a.AfterStep?) ==>
        states[|run|].caller == Returned
  {
    var s := states[|run|];
    InitialInv(states[0]);
    forall t, a, n | Inv(t) && StepsTo(t, a, n) ensures Inv(n) && Rank(n) < Rank(t) {
      InvKept(t, a);
      StepLowers(t, a);
    }
    Shortens(StepsTo, Inv, Rank, states, run, |run|);
    AtMost(RequestLeft, states[0].chunks, 6);
    if s.caller != Returned {
      AlwaysAStepWithoutASlot(s);
    }
  }

  // ----- the queuer leaves nothing behind

  /** The bundles the queuer has been through. */
  function Visited(n: nat, pc: QueuerPc): nat {
    match pc
    case NotHanded => 0
    case QueueNext(i) => i
    case QueueUnlock(i, _) => i + 1
    case QueueRun(i) => i + 1
    case QueueCount(i) => i + 1
    case QueuerRelease => n
    case QueuerDelete => n
    case QueuerDone => n
    case _ => pc.i
  }

  ghost predicate VisitedOk(s: State) {
    forall j :: 0 <= j < |s.chunks| && j < Visited(|s.chunks|, s.queuer) ==> s.chunks[j].mark != Pending
  }

  lemma VisitedKept(s: State, a: Action)
    requires VisitedOk(s) && PcsOk(s) && Enabled(s, a)
    ensures VisitedOk(Next(s, a))
  {
    OneChunk(s, a);
  }

  ghost predicate VisitedInv(s: State) { VisitedOk(s) && Inv(s) }

  /** When the queuer is through, no chunk is left pending, although it skips those it finds
      claimed: each is the pool's, or was claimed inline by one side. */
  lemma QueuerLeavesNothingPending(s: State)
    requires Reachable(s) && (s.queuer == QueuerRelease || s.queuer == QueuerDelete || s.queuer == QueuerDone)
    ensures forall j :: 0 <= j < |s.chunks| ==> s.chunks[j].mark != Pending
  {
    forall t | Initial(t) ensures VisitedInv(t) {
      InitialInv(t);
    }
    forall t, a, n | VisitedInv(t) && StepsTo(t, a, n) ensures VisitedInv(n) {
      VisitedKept(t, a);
      InvKept(t, a);
    }
    ReachedInv(Initial, StepsTo, VisitedInv, s);
  }
}
