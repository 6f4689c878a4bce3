/** `spread_impl` and `queue_chunks` of the libuv backend in the source's own form: their loops over
    the bundles, with every other participant at work between any two steps. Whatever those do,
    each method is a run of the machine of module LibuvSpread. */
module LibuvCode {
  import opened LibuvSpread
  import opened Runs
  import opened Schedules
  import LibuvTheorems
  import opened Tally

  /** A side moves by its own steps only, the queuer also by the hand-off. */
  lemma SidesKept(s: State, a: Action)
    requires Enabled(s, a)
    ensures a != CallerStep ==> Next(s, a).caller == s.caller
    ensures s.caller != HandOff ==> Next(s, a).caller != HandOff && (!a.QueuerStep? ==> Next(s, a).queuer == s.queuer)
  {
  }

  datatype Side = CallerSide | QueuerSide

  predicate IsOf(side: Side, a: Action) {
    match side
    case CallerSide => a == CallerStep
    case QueuerSide => a.QueuerStep?
  }

  /** What the others do before each step of a method, in order. */
  type Schedule = seq<seq<Action>>

  /** From here on nobody else moves. */
  predicate Undisturbed(env: Schedule, from: nat) {
    forall k :: from <= k < |env| ==> env[k] == []
  }

  /** What the steal-back makes of a chunk that nobody else touches: one it can still claim has been
      run and counted down by the caller. */
  function StolenAs(c: Chunk): Chunk {
    if c.mark == Pending then c.(mark := DoneInline, runs := c.runs + 1, counted := true)
    else if c.mark == Queued && c.req == InPool then
      c.(mark := DoneInline, req := Cancelled, runs := c.runs + 1, counted := true)
    else c
  }

  predicate Stealable(c: Chunk) { c.mark == Pending || (c.mark == Queued && c.req == InPool) }

  /** What the queuer makes of a chunk that nobody else touches: the pool has a pending one it has
      accepted, and the loop thread has run and counted down one it has refused. */
  function QueuedAs(c: Chunk, accepted: bool): Chunk {
    if c.mark != Pending then c
    else if accepted then c.(mark := Queued, req := InPool)
    else c.(mark := DoneInline, req := NotQueued, runs := c.runs + 1, counted := true)
  }

  /** Pending chunks among the first n that got this answer. */
  function Answered(chunks: seq<Chunk>, accepted: seq<bool>, answer: bool, n: nat): nat
    requires n <= |chunks| == |accepted|
  {
    if n == 0 then 0
    else
      Answered(chunks, accepted, answer, n - 1)
      + (if chunks[n - 1].mark == Pending && accepted[n - 1] == answer then 1 else 0)
  }

  /** What the others make of a state: an action of theirs is taken if it can be. */
  function OthersTake(mine: Side, s: State, a: Action): State {
    if !IsOf(mine, a) && Enabled(s, a) then Next(s, a) else s
  }

  /** A node, its latch, and where the caller and the queuer stand. */
  class SpreadNode {
    var chunks: seq<Chunk>
    var refs: nat
    var latch: nat
    var lock: Lock
    var deletes: nat
    var tailRuns: nat
    var caller: CallerPc
    var queuer: QueuerPc
    /** Every step since the node was made, and the machine's states around them. */
    ghost var run: seq<Action>
    ghost var trace: seq<State>
    /** How many turns of the schedules have gone by. */
    ghost var turns: nat

    function Machine(): State
      reads this
    {
      State(chunks, refs, latch, lock, deletes, tailRuns, caller, queuer)
    }

    ghost predicate History(last: State)
      reads this
    {
      IsRun(StepsTo, trace, run) && Initial(trace[0]) && trace[|run|] == last
    }

    ghost predicate Valid()
      reads this
    {
      History(Machine())
    }

    /** `spread_node::create` for so many queued chunks, and the latch for those and the tail. */
    constructor (queued: nat)
      ensures Valid() && |chunks| == queued && caller == HandOff && queuer == NotHanded
    {
      chunks := seq(queued, i => FRESH);
      refs, latch, lock, deletes, tailRuns := 2, queued + 1, Unlocked, 0, 0;
      caller, queuer := HandOff, NotHanded;
      run, turns := [], 0;
      new;
      trace := [Machine()];
    }

    lemma ValidIsReachable()
      requires Valid()
      ensures Reachable(Machine())
    {
    }

    lemma ValidInv()
      requires Valid()
      ensures Inv(Machine())
    {
      ValidIsReachable();
      ReachableInv(Machine());
    }

    /** Who drops a reference has one, so the count does not underflow. */
    lemma HoldsAReference()
      requires Valid() && (caller == CallerRelease || queuer.QueueDropRef? || queuer == QueuerRelease)
      ensures refs > 0
    {
      ValidInv();
    }

    lemma TailIsInLatch()
      requires Valid() && caller == TailCount
      ensures latch > 0
    {
      ValidInv();
    }

    /** Adds the step that has just led from `was` to the present state. */
    ghost method Record(was: State, a: Action)
      requires History(was) && |was.chunks| == |chunks| && Enabled(was, a) && Next(was, a) == Machine()
      modifies `run, `trace
      ensures Valid() && run == old(run) + [a]
    {
      Extends(StepsTo, trace, run, a, Machine());
      run, trace := run + [a], trace + [Machine()];
    }

    method Other(mine: Side, a: Action)
      requires Valid() && Enabled(Machine(), a) && !IsOf(mine, a) && (mine == QueuerSide ==> caller != HandOff)
      modifies this
      ensures turns == old(turns)
      ensures Valid() && old(run) <= run && |chunks| == |old(chunks)|
      ensures mine == CallerSide ==> caller == old(caller)
      ensures mine == QueuerSide ==> queuer == old(queuer) && caller != HandOff
      ensures Machine() == Next(old(Machine()), a)
    {
      ghost var was := Machine();
      OneChunk(was, a);
      SidesKept(was, a);
      var n := Next(Machine(), a);
      chunks, refs, latch, lock, deletes, tailRuns, caller, queuer :=
        n.chunks, n.refs, n.latch, n.lock, n.deletes, n.tailRuns, n.caller, n.queuer;
      Record(was, a);
    }

    /** The others' steps; one that cannot be taken, or is the method's own side's, is passed over. */
    method Interfere(mine: Side, others: seq<Action>)
      requires Valid() && (mine == QueuerSide ==> caller != HandOff)
      modifies this
      ensures turns == old(turns) + 1
      ensures Valid() && old(run) <= run && |chunks| == |old(chunks)|
      ensures Machine() == AfterTurn(OthersTake, mine, old(Machine()), others)
      ensures mine == CallerSide ==> caller == old(caller)
      ensures mine == QueuerSide ==> queuer == old(queuer) && caller != HandOff
      ensures others == [] ==> Machine() == old(Machine())
    {
      for k := 0 to |others|
        invariant Valid() && old(run) <= run && |chunks| == |old(chunks)|
        invariant Machine() == AfterTurn(OthersTake, mine, old(Machine()), others[..k])
        invariant turns == old(turns)
        invariant mine == CallerSide ==> caller == old(caller)
        invariant others == [] ==> Machine() == old(Machine())
        invariant mine == QueuerSide ==> queuer == old(queuer) && caller != HandOff
      {
        AfterOne(OthersTake, mine, old(Machine()), others, k);
        var a := others[k];
        if !IsOf(mine, a) && Enabled(Machine(), a) {
          Other(mine, a);
        }
      }
      assert others[..|others|] == others;
      turns := turns + 1;
    }

    // ----- spread_impl

    /** The push of the node, or the direct call of `queue_chunks`. */
    method HandNodeOff()
      requires Valid() && caller == HandOff
      modifies this
      ensures turns == old(turns)
      ensures Valid() && old(run) <= run && |chunks| == |old(chunks)|
      ensures caller == TailRun
      ensures Machine() == old(Machine()).(caller := TailRun, queuer := QueueNext(0))
    {
      ghost var was := Machine();
      caller, queuer := TailRun, QueueNext(0);
      Record(was, CallerStep);
    }

    /** Only chunk `i` has changed. */
    predicate Elsewhere(before: seq<Chunk>, i: nat)
      reads this
    {
      |before| == |chunks| && forall j :: 0 <= j < |chunks| && j != i ==> chunks[j] == before[j]
    }

    /** The tail chunk, run inline. */
    method RunTail(others: seq<Action>)
      requires Valid() && caller == TailRun
      modifies this
      ensures turns == old(turns) + 1
      ensures Valid() && old(run) <= run && |chunks| == |old(chunks)|
      ensures caller == TailCount
      ensures others == [] ==> Machine() == old(Machine()).(tailRuns := old(tailRuns) + 1, caller := TailCount)
    {
      Interfere(CallerSide, others);
      ghost var was := Machine();
      tailRuns := tailRuns + 1;
      caller := TailCount;
      Record(was, CallerStep);
    }

    method CountTail(others: seq<Action>)
      requires Valid() && caller == TailCount
      modifies this
      ensures turns == old(turns) + 1
      ensures Valid() && old(run) <= run && |chunks| == |old(chunks)|
      ensures caller == StealNext(|chunks|)
      ensures others == [] ==> latch == old(latch) - 1 && lock == old(lock) && chunks == old(chunks)
    {
      Interfere(CallerSide, others);
      TailIsInLatch();
      ghost var was := Machine();
      latch := latch - 1;
      caller := StealNext(|chunks|);
      Record(was, CallerStep);
    }

    /** Takes the node's spin lock; each turn of the schedule is one try. */
    method LockToSteal(i: nat, env: Schedule, from: nat, ghost calm: nat) returns (locked: bool, k: nat)
      requires Valid() && i < |chunks| && caller == StealNext(i + 1) && from <= |env|
      modifies this
      ensures turns == old(turns) + (k - from)
      ensures Valid() && old(run) <= run && |chunks| == |old(chunks)|
      ensures from <= k <= |env| && caller == (if locked then StealClaim(i) else StealNext(i + 1))
      ensures !locked ==> k == |env|
      ensures from < |env| && env[from] == [] && old(lock) == Unlocked ==>
        locked && k == from + 1 && latch == old(latch) && chunks == old(chunks) && refs == old(refs)
      ensures Undisturbed(env, calm) ==>
        if locked then k <= Latest(from, calm) + 1 else lock != Unlocked || |env| <= Latest(from, calm)
    {
      k := from;
      while k < |env|
        invariant Valid() && old(run) <= run && |chunks| == |old(chunks)|
        invariant turns == old(turns) + (k - from)
        invariant from <= k <= |env| && caller == StealNext(i + 1)
        invariant from < |env| && env[from] == [] && old(lock) == Unlocked ==> k == from && Machine() == old(Machine())
        invariant Undisturbed(env, calm) ==> k <= Latest(from, calm) || lock != Unlocked
      {
        Interfere(CallerSide, env[k]);
        k := k + 1;
        if lock == Unlocked {
          ghost var was := Machine();
          lock := ByCaller;
          caller := StealClaim(i);
          Record(was, CallerStep);
          return true, k;
        }
      }
      locked := false;
    }

    /** Under the lock: a pending chunk is claimed outright, a queued one if `uv_cancel` still can. */
    method Claim(i: nat, others: seq<Action>) returns (runInline: bool)
      requires Valid() && i < |chunks| && caller == StealClaim(i)
      modifies this
      ensures turns == old(turns) + 1
      ensures Valid() && old(run) <= run && |chunks| == |old(chunks)|
      ensures caller == StealUnlock(i, runInline)
      ensures others == [] ==>
        && runInline == Stealable(old(chunks)[i]) && latch == old(latch) && lock == old(lock) && refs == old(refs)
        && chunks == old(chunks)[i := Claimed(old(chunks)[i]).0]
    {
      Interfere(CallerSide, others);
      ghost var was := Machine();
      var bundle := chunks[i];
      runInline := false;
      if bundle.mark == Pending {
        chunks := chunks[i := bundle.(mark := DoneInline)];
        runInline := true;
      } else if bundle.mark == Queued && bundle.req == InPool {
        chunks := chunks[i := bundle.(mark := DoneInline, req := Cancelled)];
        runInline := true;
      }
      caller := StealUnlock(i, runInline);
      Record(was, CallerStep);
    }

    method UnlockStolen(i: nat, runInline: bool, others: seq<Action>)
      requires Valid() && i < |chunks| && caller == StealUnlock(i, runInline)
      modifies this
      ensures turns == old(turns) + 1
      ensures Valid() && old(run) <= run && |chunks| == |old(chunks)|
      ensures caller == (if runInline then StealRun(i) else StealNext(i))
      ensures others == [] ==>
        lock == Unlocked && latch == old(latch) && chunks == old(chunks) && refs == old(refs)
    {
      Interfere(CallerSide, others);
      ghost var was := Machine();
      lock := Unlocked;
      caller := if runInline then StealRun(i) else StealNext(i);
      Record(was, CallerStep);
    }

    method RunStolen(i: nat, others: seq<Action>)
      requires Valid() && i < |chunks| && caller == StealRun(i)
      modifies this
      ensures turns == old(turns) + 1
      ensures Valid() && old(run) <= run && |chunks| == |old(chunks)|
      ensures caller == StealCount(i)
      ensures others == [] ==>
        && lock == old(lock) && latch == old(latch) && refs == old(refs)
        && chunks == old(chunks)[i := Invoked(old(chunks)[i])]
    {
      Interfere(CallerSide, others);
      ghost var was := Machine();
      chunks := chunks[i := chunks[i].(runs := chunks[i].runs + 1)];
      caller := StealCount(i);
      Record(was, CallerStep);
    }

    method CountStolen(i: nat, others: seq<Action>)
      requires Valid() && i < |chunks| && caller == StealCount(i)
      modifies this
      ensures turns == old(turns) + 1
      ensures Valid() && old(run) <= run && |chunks| == |old(chunks)|
      ensures caller == StealNext(i)
      ensures others == [] ==>
        && lock == old(lock) && latch == old(latch) - 1 && refs == old(refs)
        && chunks == old(chunks)[i := CountedDown(old(chunks)[i])]
    {
      Interfere(CallerSide, others);
      LatchCovers(i);
      ghost var was := Machine();
      chunks := chunks[i := chunks[i].(counted := true)];
      latch := latch - 1;
      caller := StealNext(i);
      Record(was, CallerStep);
    }

    /** A chunk about to be counted down is in the latch, so the count does not underflow. */
    lemma LatchCovers(i: nat)
      requires Valid() && i < |chunks| && (caller == StealCount(i) || queuer == QueueCount(i))
      ensures latch > 0
    {
      ValidIsReachable();
      ValidInv();
      Positive(Uncounted, chunks);
      assert ChunkOk(chunks[i], CallerRole(caller, i), QueuerRole(queuer, i));
    }

    /** The body and the count-down of a claimed chunk. */
    method RunClaimed(i: nat, env: Schedule, from: nat) returns (done: bool, k: nat)
      requires Valid() && i < |chunks| && caller == StealRun(i) && from <= |env|
      modifies this
      ensures turns == old(turns) + (k - from)
      ensures Valid() && old(run) <= run && |chunks| == |old(chunks)|
      ensures from <= k <= |env| && (if done then caller == StealNext(i) else caller != Returned)
      ensures Undisturbed(env, from) && from + 2 <= |env| ==>
        && done && k == from + 2 && lock == old(lock) && latch == old(latch) - 1 && refs == old(refs)
        && chunks == old(chunks)[i := CountedDown(Invoked(old(chunks)[i]))]
      ensures if done then k == from + 2 else |env| <= from + 1
    {
      k := from;
      if k + 2 > |env| { return false, k; }
      RunStolen(i, env[k]);
      CountStolen(i, env[k + 1]);
      return true, k + 2;
    }

    /** The critical section once the lock is held. */
    method ClaimAndUnlock(i: nat, others: seq<Action>, between: seq<Action>) returns (runInline: bool)
      requires Valid() && i < |chunks| && caller == StealClaim(i)
      modifies this
      ensures turns == old(turns) + 2
      ensures Valid() && old(run) <= run && |chunks| == |old(chunks)|
      ensures caller == (if runInline then StealRun(i) else StealNext(i))
      ensures others == between == [] ==>
        && runInline == Stealable(old(chunks)[i]) && latch == old(latch) && lock == Unlocked && refs == old(refs)
        && chunks == old(chunks)[i := Claimed(old(chunks)[i]).0]
    {
      runInline := Claim(i, others);
      UnlockStolen(i, runInline, between);
    }

    /** The steal-back of one chunk. */
    method StealBack(i: nat, env: Schedule, from: nat, ghost calm: nat) returns (done: bool, k: nat)
      requires Valid() && i < |chunks| && caller == StealNext(i + 1) && from <= |env|
      modifies this
      ensures turns == old(turns) + (k - from) && (!done ==> k + 1 >= |env|)
      ensures Valid() && old(run) <= run && |chunks| == |old(chunks)|
      ensures from <= k <= |env| && (done ==> caller == StealNext(i)) && (!done ==> caller != Returned)
      ensures Undisturbed(env, from) && from + 5 <= |env| && old(lock) == Unlocked ==>
        && done && k <= from + 5 && lock == Unlocked && refs == old(refs)
        && latch == old(latch) - (if Stealable(old(chunks)[i]) then 1 else 0)
        && chunks == old(chunks)[i := StolenAs(old(chunks)[i])]
      ensures Undisturbed(env, calm) ==>
        if done then k <= Latest(from, calm) + 5
        else |env| <= Latest(from, calm) + 5 || (caller == StealNext(i + 1) && lock != Unlocked)
    {
      var locked;
      locked, k := LockToSteal(i, env, from, calm);
      if !locked || k + 2 > |env| { return false, k; }
      var runInline := ClaimAndUnlock(i, env[k], env[k + 1]);
      k := k + 2;
      if !runInline { return true, k; }
      done, k := RunClaimed(i, env, k);
    }

    /** `sync.wait()`. */
    method WaitForLatch(env: Schedule, from: nat, ghost calm: nat) returns (passed: bool, k: nat)
      requires Valid() && caller == LatchWait && from <= |env|
      modifies this
      ensures turns == old(turns) + (k - from)
      ensures Valid() && old(run) <= run && |chunks| == |old(chunks)|
      ensures from <= k <= |env| && caller == (if passed then CallerRelease else LatchWait) && (!passed ==> k == |env|)
      ensures from < |env| && env[from] == [] && old(latch) == 0 ==> passed && k == from + 1
      ensures Undisturbed(env, calm) ==>
        if passed then k <= Latest(from, calm) + 1 else latch > 0 || |env| <= Latest(from, calm)
    {
      k := from;
      while k < |env|
        invariant Valid() && old(run) <= run && |chunks| == |old(chunks)|
        invariant turns == old(turns) + (k - from)
        invariant from <= k <= |env| && caller == LatchWait
        invariant from < |env| && env[from] == [] && old(latch) == 0 ==> k == from && latch == 0
        invariant Undisturbed(env, calm) ==> k <= Latest(from, calm) || latch > 0
      {
        Interfere(CallerSide, env[k]);
        k := k + 1;
        if latch == 0 {
          ghost var was := Machine();
          caller := CallerRelease;
          Record(was, CallerStep);
          return true, k;
        }
      }
      passed := false;
    }

    /** `spread_node::release` by the caller. */
    method ReleaseByCaller(others: seq<Action>) returns (last: bool)
      requires Valid() && caller == CallerRelease
      modifies this
      ensures turns == old(turns) + 1
      ensures Valid() && old(run) <= run && |chunks| == |old(chunks)|
      ensures caller == (if last then CallerDelete else Returned)
    {
      Interfere(CallerSide, others);
      HoldsAReference();
      ghost var was := Machine();
      last := refs == 1;
      refs := refs - 1;
      caller := if last then CallerDelete else Returned;
      Record(was, CallerStep);
    }

    method DeleteByCaller(others: seq<Action>)
      requires Valid() && caller == CallerDelete
      modifies this
      ensures turns == old(turns) + 1
      ensures Valid() && old(run) <= run && |chunks| == |old(chunks)|
      ensures caller == Returned
    {
      Interfere(CallerSide, others);
      ghost var was := Machine();
      deletes := deletes + 1;
      caller := Returned;
      Record(was, CallerStep);
    }

    /** Every chunk's body, the tail's included, has run exactly once. */
    ghost predicate AllRunOnce()
      reads this
    {
      tailRuns == 1 && forall j :: 0 <= j < |chunks| ==> chunks[j].runs == 1
    }

    lemma PastTheLatch()
      requires Valid() && (caller == CallerRelease || caller == CallerDelete || caller == Returned)
      ensures AllRunOnce() && latch == 0
    {
      ValidIsReachable();
      ValidInv();
      LibuvTheorems.EveryChunkRunsOnce(Machine());
    }

    /** From the hand-off to before the steal-back. */
    method RunOwnPart(env: Schedule) returns (done: bool)
      requires Valid() && caller == HandOff
      modifies this
      ensures turns == old(turns) + if done then 2 else 0
      ensures Valid() && old(run) <= run && |chunks| == |old(chunks)|
      ensures if done then caller == StealNext(|chunks|) else caller != Returned
      ensures done <==> |env| >= 2
      ensures Undisturbed(env, 0) && |env| >= 2 ==>
        done && latch == old(latch) - 1 && lock == old(lock) && chunks == old(chunks)
    {
      HandNodeOff();
      if |env| < 2 { return false; }
      RunTail(env[0]);
      CountTail(env[1]);
      return true;
    }

    /** No chunk has been claimed, started or counted down; the pool may have some in its queue. */
    predicate Untouched()
      reads this
    {
      lock == Unlocked && latch == |chunks| && forall j :: 0 <= j < |chunks| ==> Stealable(chunks[j])
    }

    /** The steal-back pass, tail first. */
    method StealAllBack(env: Schedule, from: nat, ghost calm: nat) returns (done: bool, k: nat)
      requires Valid() && caller == StealNext(|chunks|) && from <= |env|
      modifies this
      ensures turns == old(turns) + (k - from) && (!done ==> k + 1 >= |env|)
      ensures Valid() && old(run) <= run && |chunks| == |old(chunks)|
      ensures from <= k <= |env| && (if done then caller == LatchWait else caller != Returned)
      ensures Undisturbed(env, from) && from + 5 * |chunks| + 1 <= |env| && old(Untouched()) ==>
        done && k <= from + 5 * |chunks| + 1 && latch == 0
      ensures Undisturbed(env, calm) ==>
        if done then k <= Latest(from, calm) + 5 * |chunks| + 1
        else |env| <= Latest(from, calm) + 5 * |chunks| || (caller.StealNext? && lock != Unlocked)
    {
      k := from;
      var i: nat := |chunks|;
      while i > 0
        invariant Valid() && old(run) <= run && |chunks| == |old(chunks)|
        invariant turns == old(turns) + (k - from)
        invariant from <= k <= |env| && i <= |chunks| && caller == StealNext(i)
        invariant Undisturbed(env, from) && from + 5 * |chunks| + 1 <= |env| && old(Untouched()) ==>
          && k <= from + 5 * (|chunks| - i) && lock == Unlocked && latch == i
          && forall j :: 0 <= j < i ==> Stealable(chunks[j])
        invariant Undisturbed(env, calm) ==> k <= Latest(from, calm) + 5 * (|chunks| - i)
      {
        done, k := StealBack(i - 1, env, k, calm);
        if !done { return; }
        i := i - 1;
      }
      if k == |env| { return false, k; }
      Interfere(CallerSide, env[k]);
      ghost var was := Machine();
      caller := LatchWait;
      Record(was, CallerStep);
      return true, k + 1;
    }

    /** `spread_impl`, from the filled node on. When it returns, every chunk has run exactly once,
        whoever ran it; and the caller needs nobody: with no queuer, no worker and no free pool slot
        it runs everything itself. Whatever came before, left alone for long enough it has returned,
        or waits for a lock that is held or for chunks that others have yet to count down. */
    method SpreadImpl(env: Schedule) returns (returned: bool)
      requires Valid() && caller == HandOff
      modifies this
      ensures !returned ==> turns + 1 >= old(turns) + |env|
      ensures Valid() && old(run) <= run && |chunks| == |old(chunks)|
      ensures returned <==> caller == Returned
      ensures returned ==> AllRunOnce()
      ensures Undisturbed(env, 0) && |env| >= 5 * |chunks| + 6 && old(Machine()) == Init(|chunks|) ==> returned
      ensures |env| >= 5 * |chunks| + 6 && Undisturbed(env, |env| - (5 * |chunks| + 6)) ==>
        returned || (caller.StealNext? && lock != Unlocked) || (caller == LatchWait && latch > 0)
    {
      var k;
      returned := RunOwnPart(env);
      if !returned { return; }
      ghost var calm := CalmFrom(5 * |chunks| + 6, env);
      returned, k := StealAllBack(env, 2, calm);
      if !returned { return; }
      returned := WaitAndRelease(env, k, calm);
    }

    /** `sync.wait()` and the release. */
    method WaitAndRelease(env: Schedule, from: nat, ghost calm: nat) returns (returned: bool)
      requires Valid() && caller == LatchWait && from <= |env|
      modifies this
      ensures !returned ==> turns == old(turns) + (|env| - from)
      ensures Valid() && old(run) <= run && |chunks| == |old(chunks)|
      ensures returned <==> caller == Returned
      ensures returned ==> AllRunOnce()
      ensures Undisturbed(env, from) && old(latch) == 0 && from + 3 <= |env| ==> returned
      ensures Undisturbed(env, calm) && Latest(from, calm) + 3 <= |env| ==>
        returned || (caller == LatchWait && latch > 0)
    {
      var k;
      returned, k := WaitForLatch(env, from, calm);
      if !returned || k == |env| { return false; }
      var last := ReleaseByCaller(env[k]);
      if last {
        if k + 1 == |env| { return false; }
        DeleteByCaller(env[k + 1]);
      }
      PastTheLatch();
    }

    lemma NonePending()
      requires Valid() && queuer == QueuerDone
      ensures forall j :: 0 <= j < |chunks| ==> chunks[j].mark != Pending
    {
      ValidIsReachable();
      LibuvTheorems.QueuerLeavesNothingPending(Machine());
    }

    // ----- queue_chunks

    method LockToQueue(i: nat, env: Schedule, from: nat, ghost calm: nat) returns (locked: bool, k: nat)
      requires Valid() && caller != HandOff && i < |chunks| && queuer == QueueNext(i) && from <= |env|
      modifies this
      ensures turns == old(turns) + (k - from)
      ensures Valid() && old(run) <= run && |chunks| == |old(chunks)|
      ensures caller != HandOff && from <= k <= |env| && queuer == (if locked then QueueCheck(i) else QueueNext(i))
      ensures !locked ==> k == |env|
      ensures from < |env| && env[from] == [] && old(lock) == Unlocked ==>
        locked && k == from + 1 && refs == old(refs) && latch == old(latch) && chunks == old(chunks)
      ensures Undisturbed(env, calm) ==>
        if locked then k <= Latest(from, calm) + 1 else lock != Unlocked || |env| <= Latest(from, calm)
    {
      k := from;
      while k < |env|
        invariant Valid() && old(run) <= run && |chunks| == |old(chunks)| && caller != HandOff
        invariant turns == old(turns) + (k - from)
        invariant from <= k <= |env| && queuer == QueueNext(i)
        invariant from < |env| && env[from] == [] && old(lock) == Unlocked ==> k == from && Machine() == old(Machine())
        invariant Undisturbed(env, calm) ==> k <= Latest(from, calm) || lock != Unlocked
      {
        Interfere(QueuerSide, env[k]);
        k := k + 1;
        if lock == Unlocked {
          ghost var was := Machine();
          lock := ByQueuer;
          queuer := QueueCheck(i);
          Record(was, QueuerStep(true));
          return true, k;
        }
      }
      locked := false;
    }

    /** Stolen by the caller, or still pending. */
    method CheckPending(i: nat, others: seq<Action>) returns (pending: bool)
      requires Valid() && caller != HandOff && i < |chunks| && queuer == QueueCheck(i)
      modifies this
      ensures turns == old(turns) + 1
      ensures Valid() && old(run) <= run && |chunks| == |old(chunks)|
      ensures caller != HandOff && queuer == (if pending then QueueAddRef(i) else QueueUnlock(i, false))
      ensures others == [] ==>
        && pending == (old(chunks)[i].mark == Pending)
        && lock == old(lock) && refs == old(refs) && latch == old(latch) && chunks == old(chunks)
    {
      Interfere(QueuerSide, others);
      ghost var was := Machine();
      pending := chunks[i].mark == Pending;
      queuer := if pending then QueueAddRef(i) else QueueUnlock(i, false);
      Record(was, QueuerStep(true));
    }

    /** The reference for the after-callback. */
    method AddRef(i: nat, others: seq<Action>)
      requires Valid() && caller != HandOff && i < |chunks| && queuer == QueueAddRef(i)
      modifies this
      ensures turns == old(turns) + 1
      ensures Valid() && old(run) <= run && |chunks| == |old(chunks)|
      ensures caller != HandOff && queuer == QueueWork(i)
      ensures others == [] ==>
        && lock == old(lock) && refs == old(refs) + 1 && latch == old(latch)
        && chunks == old(chunks)[i := old(chunks)[i].(req := Tentative)]
    {
      Interfere(QueuerSide, others);
      ghost var was := Machine();
      refs := refs + 1;
      chunks := chunks[i := chunks[i].(req := Tentative)];
      queuer := QueueWork(i);
      Record(was, QueuerStep(true));
    }

    /** `uv_queue_work`, answering `accepted`. */
    method OfferWork(i: nat, accepted: bool, others: seq<Action>)
      requires Valid() && caller != HandOff && i < |chunks| && queuer == QueueWork(i)
      modifies this
      ensures turns == old(turns) + 1
      ensures Valid() && old(run) <= run && |chunks| == |old(chunks)|
      ensures caller != HandOff && queuer == (if accepted then QueueMark(i) else QueueDropRef(i))
      ensures others == [] ==>
        && lock == old(lock) && refs == old(refs) && latch == old(latch)
        && chunks == if accepted then old(chunks)[i := old(chunks)[i].(req := InPool)] else old(chunks)
    {
      Interfere(QueuerSide, others);
      ghost var was := Machine();
      if accepted {
        chunks := chunks[i := chunks[i].(req := InPool)];
      }
      queuer := if accepted then QueueMark(i) else QueueDropRef(i);
      Record(was, QueuerStep(accepted));
    }

    method MarkQueued(i: nat, others: seq<Action>)
      requires Valid() && caller != HandOff && i < |chunks| && queuer == QueueMark(i)
      modifies this
      ensures turns == old(turns) + 1
      ensures Valid() && old(run) <= run && |chunks| == |old(chunks)|
      ensures caller != HandOff && queuer == QueueUnlock(i, false)
      ensures others == [] ==>
        && lock == old(lock) && refs == old(refs) && latch == old(latch)
        && chunks == old(chunks)[i := old(chunks)[i].(mark := Queued)]
    {
      Interfere(QueuerSide, others);
      ghost var was := Machine();
      chunks := chunks[i := chunks[i].(mark := Queued)];
      queuer := QueueUnlock(i, false);
      Record(was, QueuerStep(true));
    }

    /** Cannot queue: the reference goes back and the chunk is to run inline. */
    method DropRef(i: nat, others: seq<Action>)
      requires Valid() && caller != HandOff && i < |chunks| && queuer == QueueDropRef(i)
      modifies this
      ensures turns == old(turns) + 1
      ensures Valid() && old(run) <= run && |chunks| == |old(chunks)|
      ensures caller != HandOff && queuer == QueueUnlock(i, true)
      ensures others == [] ==>
        && lock == old(lock) && refs == old(refs) - 1 && latch == old(latch)
        && chunks == old(chunks)[i := old(chunks)[i].(mark := DoneInline, req := NotQueued)]
    {
      Interfere(QueuerSide, others);
      HoldsAReference();
      ghost var was := Machine();
      refs := refs - 1;
      chunks := chunks[i := chunks[i].(mark := DoneInline, req := NotQueued)];
      queuer := QueueUnlock(i, true);
      Record(was, QueuerStep(true));
    }

    method UnlockQueued(i: nat, runInline: bool, others: seq<Action>)
      requires Valid() && caller != HandOff && i < |chunks| && queuer == QueueUnlock(i, runInline)
      modifies this
      ensures turns == old(turns) + 1
      ensures Valid() && old(run) <= run && |chunks| == |old(chunks)|
      ensures caller != HandOff && queuer == (if runInline then QueueRun(i) else QueueNext(i + 1))
      ensures others == [] ==>
        lock == Unlocked && refs == old(refs) && latch == old(latch) && chunks == old(chunks)
    {
      Interfere(QueuerSide, others);
      ghost var was := Machine();
      lock := Unlocked;
      queuer := if runInline then QueueRun(i) else QueueNext(i + 1);
      Record(was, QueuerStep(true));
    }

    /** The body and the count-down on the loop thread. */
    method RunOnLoop(i: nat, before: seq<Action>, between: seq<Action>)
      requires Valid() && caller != HandOff && i < |chunks| && queuer == QueueRun(i)
      modifies this
      ensures turns == old(turns) + 2
      ensures Valid() && old(run) <= run && |chunks| == |old(chunks)|
      ensures caller != HandOff && queuer == QueueNext(i + 1)
      ensures before == [] && between == [] ==>
        && lock == old(lock) && refs == old(refs) && latch == old(latch) - 1
        && chunks == old(chunks)[i := CountedDown(Invoked(old(chunks)[i]))]
    {
      Interfere(QueuerSide, before);
      ghost var was := Machine();
      chunks := chunks[i := chunks[i].(runs := chunks[i].runs + 1)];
      queuer := QueueCount(i);
      Record(was, QueuerStep(true));
      CountOnLoop(i, between);
    }

    method CountOnLoop(i: nat, others: seq<Action>)
      requires Valid() && caller != HandOff && i < |chunks| && queuer == QueueCount(i)
      modifies this
      ensures turns == old(turns) + 1
      ensures Valid() && old(run) <= run && |chunks| == |old(chunks)|
      ensures caller != HandOff && queuer == QueueNext(i + 1)
      ensures others == [] ==>
        && lock == old(lock) && refs == old(refs) && latch == old(latch) - 1
        && chunks == old(chunks)[i := CountedDown(old(chunks)[i])]
    {
      Interfere(QueuerSide, others);
      LatchCovers(i);
      ghost var was := Machine();
      chunks := chunks[i := chunks[i].(counted := true)];
      latch := latch - 1;
      queuer := QueueNext(i + 1);
      Record(was, QueuerStep(true));
    }

    /** `uv_queue_work` and what its answer leads to: the mark, or the reference given back. */
    method Offer(i: nat, accepted: bool, before: seq<Action>, between: seq<Action>, after: seq<Action>)
      requires Valid() && caller != HandOff && i < |chunks| && queuer == QueueAddRef(i)
      modifies this
      ensures turns == old(turns) + 3
      ensures Valid() && old(run) <= run && |chunks| == |old(chunks)|
      ensures caller != HandOff && queuer == QueueUnlock(i, !accepted)
      ensures before == between == after == [] ==>
        && lock == old(lock) && latch == old(latch) && refs == old(refs) + (if accepted then 1 else 0)
        && chunks == old(chunks)[i := if accepted then old(chunks)[i].(mark := Queued, req := InPool)
                                      else old(chunks)[i].(mark := DoneInline, req := NotQueued)]
    {
      AddRef(i, before);
      OfferWork(i, accepted, between);
      if accepted {
        MarkQueued(i, after);
      } else {
        DropRef(i, after);
      }
    }

    /** Under the lock: queues a pending chunk, or finds that it must be run inline. */
    method QueueUnderLock(i: nat, accepted: bool, env: Schedule, from: nat)
      returns (done: bool, runInline: bool, k: nat)
      requires Valid() && caller != HandOff && i < |chunks| && queuer == QueueCheck(i) && from <= |env|
      modifies this
      ensures turns == old(turns) + (k - from) && (!done ==> k + 3 >= |env|)
      ensures Valid() && old(run) <= run && |chunks| == |old(chunks)|
      ensures caller != HandOff && from <= k <= |env|
      ensures if done then queuer == QueueUnlock(i, runInline) else queuer != QueuerDone
      ensures from + 4 <= |env| ==> done && k <= from + 4
      ensures done && runInline ==> !accepted
      ensures Undisturbed(env, from) && from + 4 <= |env| ==>
        var c := old(chunks)[i];
        && lock == old(lock) && latch == old(latch)
        && runInline == (c.mark == Pending && !accepted)
        && refs == old(refs) + (if c.mark == Pending && accepted then 1 else 0)
        && chunks == if c.mark != Pending then old(chunks)
                     else old(chunks)[i := if accepted then c.(mark := Queued, req := InPool)
                                           else c.(mark := DoneInline, req := NotQueued)]
    {
      k, done, runInline := from, false, false;
      if k + 4 > |env| { return; }
      var pending := CheckPending(i, env[k]);
      k := k + 1;
      if !pending { return true, false, k; }
      Offer(i, accepted, env[k], env[k + 1], env[k + 2]);
      return true, !accepted, k + 3;
    }

    /** The end of the critical section, and the inline run if it has come to one. */
    method UnlockAndRun(i: nat, runInline: bool, env: Schedule, from: nat) returns (done: bool, k: nat)
      requires Valid() && caller != HandOff && i < |chunks| && queuer == QueueUnlock(i, runInline) && from <= |env|
      modifies this
      ensures turns == old(turns) + (k - from) && (!done ==> k + 1 >= |env|)
      ensures Valid() && old(run) <= run && |chunks| == |old(chunks)|
      ensures caller != HandOff && from <= k <= |env|
      ensures if done then queuer == QueueNext(i + 1) else queuer != QueuerDone
      ensures Undisturbed(env, from) && from + 3 <= |env| ==>
        && done && k <= from + 3 && lock == Unlocked && refs == old(refs)
        && latch == old(latch) - (if runInline then 1 else 0)
        && chunks == if runInline then old(chunks)[i := CountedDown(Invoked(old(chunks)[i]))] else old(chunks)
      ensures if done then k <= from + 3 else |env| < from + 3
    {
      k := from;
      if k == |env| { return false, k; }
      UnlockQueued(i, runInline, env[k]);
      k := k + 1;
      if !runInline { return true, k; }
      if k + 2 > |env| { return false, k; }
      RunOnLoop(i, env[k], env[k + 1]);
      return true, k + 2;
    }

    /** One turn of the loop over the bundles. */
    method QueueOne(i: nat, accepted: bool, env: Schedule, from: nat, ghost calm: nat) returns (done: bool, k: nat)
      requires Valid() && caller != HandOff && i < |chunks| && queuer == QueueNext(i) && from <= |env|
      modifies this
      ensures turns == old(turns) + (k - from) && (!done ==> k + 3 >= |env|)
      ensures Valid() && old(run) <= run && |chunks| == |old(chunks)|
      ensures caller != HandOff && from <= k <= |env|
      ensures if done then queuer == QueueNext(i + 1) else queuer != QueuerDone
      ensures Undisturbed(env, from) && from + 8 <= |env| && old(lock) == Unlocked ==>
        var pending := old(chunks)[i].mark == Pending;
        && done && k <= from + 8 && lock == Unlocked
        && refs == old(refs) + (if pending && accepted then 1 else 0)
        && latch == old(latch) - (if pending && !accepted then 1 else 0)
        && chunks == old(chunks)[i := QueuedAs(old(chunks)[i], accepted)]
      ensures Undisturbed(env, calm) ==>
        if done then k <= Latest(from, calm) + 8
        else |env| < Latest(from, calm) + 8 || (queuer == QueueNext(i) && lock != Unlocked)
    {
      var runInline;
      done, k := LockToQueue(i, env, from, calm);
      if !done { return; }
      done, runInline, k := QueueUnderLock(i, accepted, env, k);
      if !done { return false, k; }
      done, k := UnlockAndRun(i, runInline, env, k);
    }

    method EndOfBundles(others: seq<Action>)
      requires Valid() && caller != HandOff && queuer == QueueNext(|chunks|)
      modifies this
      ensures turns == old(turns) + 1
      ensures Valid() && old(run) <= run && |chunks| == |old(chunks)|
      ensures caller != HandOff && queuer == QueuerRelease
      ensures others == [] ==> chunks == old(chunks) && refs == old(refs) && latch == old(latch)
    {
      Interfere(QueuerSide, others);
      ghost var was := Machine();
      queuer := QueuerRelease;
      Record(was, QueuerStep(true));
    }

    /** `spread_node::release` by the queuer. */
    method ReleaseByQueuer(others: seq<Action>) returns (last: bool)
      requires Valid() && caller != HandOff && queuer == QueuerRelease
      modifies this
      ensures Valid() && old(run) <= run && |chunks| == |old(chunks)|
      ensures caller != HandOff && queuer == (if last then QueuerDelete else QueuerDone)
      ensures others == [] ==>
        old(refs) > 0 && chunks == old(chunks) && refs == old(refs) - 1 && latch == old(latch) && last == (refs == 0)
    {
      Interfere(QueuerSide, others);
      HoldsAReference();
      ghost var was := Machine();
      last := refs == 1;
      refs := refs - 1;
      queuer := if last then QueuerDelete else QueuerDone;
      Record(was, QueuerStep(true));
    }

    method DeleteByQueuer(others: seq<Action>)
      requires Valid() && caller != HandOff && queuer == QueuerDelete
      modifies this
      ensures Valid() && old(run) <= run && |chunks| == |old(chunks)|
      ensures queuer == QueuerDone
      ensures others == [] ==> chunks == old(chunks) && refs == old(refs) && latch == old(latch)
    {
      Interfere(QueuerSide, others);
      ghost var was := Machine();
      deletes := deletes + 1;
      queuer := QueuerDone;
      Record(was, QueuerStep(true));
    }

    /** The queuer's release, and the deletion if that was the last reference. */
    method GiveUpShare(env: Schedule, from: nat) returns (done: bool)
      requires Valid() && caller != HandOff && queuer == QueueNext(|chunks|) && from <= |env|
      modifies this
      ensures !done ==> turns == old(turns)
      ensures Valid() && old(run) <= run && |chunks| == |old(chunks)|
      ensures done == (from + 3 <= |env|) && (done <==> queuer == QueuerDone)
      ensures Undisturbed(env, from) && done ==>
        old(refs) > 0 && chunks == old(chunks) && refs == old(refs) - 1 && latch == old(latch)
    {
      if from + 3 > |env| { return false; }
      EndOfBundles(env[from]);
      var last := ReleaseByQueuer(env[from + 1]);
      if last {
        DeleteByQueuer(env[from + 2]);
      }
      return true;
    }

    /** The first n chunks are as the queuer leaves them, and the others as they were. */
    predicate QueuedUpTo(n: nat, was: State, accepted: seq<bool>)
      requires n <= |was.chunks| == |accepted|
      reads this
    {
      && |chunks| == |was.chunks|
      && (forall j :: 0 <= j < |chunks| ==>
            chunks[j] == if j < n then QueuedAs(was.chunks[j], accepted[j]) else was.chunks[j])
      && refs == was.refs + Answered(was.chunks, accepted, true, n)
      && latch == was.latch - Answered(was.chunks, accepted, false, n)
    }

    /** The loop over the bundles, head first. */
    method QueueAll(accepted: seq<bool>, env: Schedule, ghost calm: nat) returns (done: bool, k: nat)
      requires Valid() && caller != HandOff && queuer == QueueNext(0) && |accepted| == |chunks|
      modifies this
      ensures turns == old(turns) + k && (!done ==> k + 3 >= |env|)
      ensures Valid() && old(run) <= run && |chunks| == |old(chunks)| && caller != HandOff
      ensures k <= |env| && (if done then queuer == QueueNext(|chunks|) else queuer != QueuerDone)
      ensures Undisturbed(env, 0) && |env| >= 8 * |chunks| && old(lock) == Unlocked ==>
        done && k <= 8 * |chunks| && QueuedUpTo(|chunks|, old(Machine()), accepted)
      ensures Undisturbed(env, calm) ==>
        if done then k <= calm + 8 * |chunks|
        else |env| < calm + 8 * |chunks| || (queuer.QueueNext? && lock != Unlocked)
    {
      var i: nat := 0;
      k := 0;
      while i < |chunks|
        invariant Valid() && old(run) <= run && |chunks| == |old(chunks)| && caller != HandOff
        invariant turns == old(turns) + k
        invariant i <= |chunks| && k <= |env| && queuer == QueueNext(i)
        invariant Undisturbed(env, 0) && |env| >= 8 * |chunks| && old(lock) == Unlocked ==>
          k <= 8 * i && lock == Unlocked && QueuedUpTo(i, old(Machine()), accepted)
        invariant Undisturbed(env, calm) ==> k <= calm + 8 * i
      {
        done, k := QueueOne(i, accepted[i], env, k, calm);
        if !done { return; }
        i := i + 1;
      }
      done := true;
    }

    /** `queue_chunks`: head first, each bundle queued, run inline, or left to the caller that stole
        it. `accepted[i]` is what `uv_queue_work` answers for bundle i. When it returns no chunk is
        left pending. Left alone, the pool has exactly the pending chunks it has accepted, with one
        reference more for each, and the loop thread has run those it has refused. Whatever came
        before, left alone for long enough it has returned or waits for a lock that is held. */
    method QueueChunks(accepted: seq<bool>, env: Schedule) returns (returned: bool)
      requires Valid() && queuer == QueueNext(0) && |accepted| == |chunks|
      modifies this
      ensures !returned ==> turns + 3 >= old(turns) + |env|
      ensures Valid() && old(run) <= run && |chunks| == |old(chunks)|
      ensures returned <==> queuer == QueuerDone
      ensures returned ==> forall j :: 0 <= j < |chunks| ==> chunks[j].mark != Pending
      ensures Undisturbed(env, 0) && |env| >= 8 * |chunks| + 3 && old(lock) == Unlocked ==>
        && returned
        && (forall j :: 0 <= j < |chunks| ==> chunks[j] == QueuedAs(old(chunks)[j], accepted[j]))
        && refs + 1 == old(refs) + Answered(old(chunks), accepted, true, |chunks|)
        && latch == old(latch) - Answered(old(chunks), accepted, false, |chunks|)
      ensures |env| >= 8 * |chunks| + 3 && Undisturbed(env, |env| - (8 * |chunks| + 3)) ==>
        returned || (queuer.QueueNext? && lock != Unlocked)
    {
      ValidInv();
      var k;
      returned, k := QueueAll(accepted, env, CalmFrom(8 * |chunks| + 3, env));
      if !returned { return; }
      returned := GiveUpShare(env, k);
      if returned {
        NonePending();
      }
    }
  }
}
