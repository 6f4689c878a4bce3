/** One `spread_impl` of the libuv backend: the caller, the queuer on the loop thread, the pool
    workers and the after-callbacks around one refcounted node. */
module LibuvSpread {
  import opened Runs
  import opened Tally

  /** `chunk_state` of the source. */
  datatype Mark = Pending | Queued | DoneInline

  /** The life of a chunk's `uv_work_t`: refcount taken, in the pool's queue, started, invoked,
      finished with its after-callback outstanding, and the callback's release. */
  datatype Request = NotQueued | Tentative | InPool | Started | Ran | Finished | Cancelled | AfterDelete | Released

  /** `runs` counts invocations of the body, `counted` that the latch was counted down for it. */
  datatype Chunk = Chunk(mark: Mark, req: Request, runs: nat, counted: bool)

  datatype Lock = Unlocked | ByCaller | ByQueuer

  /** `spread_impl`, from the filled node on. `StealNext(i)` has the chunks below `i` left. */
  datatype CallerPc =
    | HandOff | TailRun | TailCount
    | StealNext(left: nat) | StealClaim(i: nat) | StealUnlock(i: nat, run: bool) | StealRun(i: nat) | StealCount(i: nat)
    | LatchWait | CallerRelease | CallerDelete | Returned

  /** `queue_chunks`. */
  datatype QueuerPc =
    | NotHanded
    | QueueNext(i: nat) | QueueCheck(i: nat) | QueueAddRef(i: nat) | QueueWork(i: nat) | QueueMark(i: nat)
    | QueueDropRef(i: nat) | QueueUnlock(i: nat, run: bool) | QueueRun(i: nat) | QueueCount(i: nat)
    | QueuerRelease | QueuerDelete | QueuerDone

  datatype State = State(
    chunks: seq<Chunk>, refs: nat, latch: nat, lock: Lock, deletes: nat,
    tailRuns: nat, caller: CallerPc, queuer: QueuerPc)

  /** `accepted` is the answer of `uv_queue_work`. */
  datatype Action = CallerStep | QueuerStep(accepted: bool) | WorkerStep(j: nat) | AfterStep(j: nat)

  const FRESH := Chunk(Pending, NotQueued, 0, false)

  /** `num_chunks - 1` chunks to queue; the caller keeps the tail. */
  function Init(n: nat): State {
    State(seq(n, i => FRESH), 2, n + 1, Unlocked, 0, 0, HandOff, NotHanded)
  }

  // ----- steps

  predicate CallerEnabled(s: State) {
    match s.caller
    case StealNext(left) => left <= |s.chunks| && (left > 0 ==> s.lock == Unlocked)
    case StealClaim(i) => i < |s.chunks|
    case StealRun(i) => i < |s.chunks|
    case StealCount(i) => i < |s.chunks|
    case LatchWait => s.latch == 0
    case Returned => false
    case _ => true
  }

  predicate QueuerEnabled(s: State) {
    match s.queuer
    case NotHanded => false
    case QueueNext(i) => i <= |s.chunks| && (i < |s.chunks| ==> s.lock == Unlocked)
    case QueuerRelease => true
    case QueuerDelete => true
    case QueuerDone => false
    case pc => pc.i < |s.chunks|
  }

  predicate Enabled(s: State, a: Action) {
    match a
    case CallerStep => CallerEnabled(s)
    case QueuerStep(_) => QueuerEnabled(s)
    case WorkerStep(j) =>
      j < |s.chunks| && (s.chunks[j].req == InPool || s.chunks[j].req == Started || s.chunks[j].req == Ran)
    case AfterStep(j) =>
      && j < |s.chunks|
      && (s.chunks[j].req == Finished || s.chunks[j].req == Cancelled || s.chunks[j].req == AfterDelete)
  }

  function Minus(x: nat, y: nat): nat { if x < y then 0 else x - y }

  /** The body is invoked on the chunk's range, or the latch is counted down for it. */
  function Invoked(c: Chunk): Chunk { c.(runs := c.runs + 1) }
  function CountedDown(c: Chunk): Chunk { c.(counted := true) }

  /** The steal: a pending chunk is claimed, a queued one if `uv_cancel` still can. */
  function Claimed(c: Chunk): (Chunk, bool) {
    if c.mark == Pending then (c.(mark := DoneInline), true)
    else if c.mark == Queued && c.req == InPool then (c.(mark := DoneInline, req := Cancelled), true)
    else (c, false)
  }

  function CallerNext(s: State): State
    requires CallerEnabled(s)
  {
    match s.caller
    case HandOff => s.(caller := TailRun, queuer := QueueNext(0))
    case TailRun => s.(caller := TailCount, tailRuns := s.tailRuns + 1)
    case TailCount => s.(caller := StealNext(|s.chunks|), latch := Minus(s.latch, 1))
    case StealNext(left) =>
      if left == 0 then s.(caller := LatchWait) else s.(caller := StealClaim(left - 1), lock := ByCaller)
    case StealClaim(i) =>
      var (c, run) := Claimed(s.chunks[i]);
      s.(caller := StealUnlock(i, run), chunks := s.chunks[i := c])
    case StealUnlock(i, run) => s.(caller := if run then StealRun(i) else StealNext(i), lock := Unlocked)
    case StealRun(i) => s.(caller := StealCount(i), chunks := s.chunks[i := Invoked(s.chunks[i])])
    case StealCount(i) =>
      s.(caller := StealNext(i), chunks := s.chunks[i := CountedDown(s.chunks[i])], latch := Minus(s.latch, 1))
    case LatchWait => s.(caller := CallerRelease)
    case CallerRelease => s.(caller := if s.refs == 1 then CallerDelete else Returned, refs := Minus(s.refs, 1))
    case CallerDelete => s.(caller := Returned, deletes := s.deletes + 1)
  }

  function QueuerNext(s: State, accepted: bool): State
    requires QueuerEnabled(s)
  {
    match s.queuer
    case QueueNext(i) =>
      if i == |s.chunks| then s.(queuer := QueuerRelease) else s.(queuer := QueueCheck(i), lock := ByQueuer)
    case QueueCheck(i) => s.(queuer := if s.chunks[i].mark == Pending then QueueAddRef(i) else QueueUnlock(i, false))
    case QueueAddRef(i) =>
      s.(queuer := QueueWork(i), refs := s.refs + 1, chunks := s.chunks[i := s.chunks[i].(req := Tentative)])
    case QueueWork(i) =>
      if accepted then s.(queuer := QueueMark(i), chunks := s.chunks[i := s.chunks[i].(req := InPool)])
      else s.(queuer := QueueDropRef(i))
    case QueueMark(i) =>
      s.(queuer := QueueUnlock(i, false), chunks := s.chunks[i := s.chunks[i].(mark := Queued)])
    case QueueDropRef(i) =>
      s.(queuer := QueueUnlock(i, true), refs := Minus(s.refs, 1),
         chunks := s.chunks[i := s.chunks[i].(mark := DoneInline, req := NotQueued)])
    case QueueUnlock(i, run) => s.(queuer := if run then QueueRun(i) else QueueNext(i + 1), lock := Unlocked)
    case QueueRun(i) => s.(queuer := QueueCount(i), chunks := s.chunks[i := Invoked(s.chunks[i])])
    case QueueCount(i) =>
      s.(queuer := QueueNext(i + 1), chunks := s.chunks[i := CountedDown(s.chunks[i])], latch := Minus(s.latch, 1))
    case QueuerRelease => s.(queuer := if s.refs == 1 then QueuerDelete else QueuerDone, refs := Minus(s.refs, 1))
    case QueuerDelete => s.(queuer := QueuerDone, deletes := s.deletes + 1)
  }

  /** `spread_work_cb`: start, invoke, count down. */
  function WorkerNext(s: State, j: nat): State
    requires Enabled(s, WorkerStep(j))
  {
    var c := s.chunks[j];
    match c.req
    case InPool => s.(chunks := s.chunks[j := c.(req := Started)])
    case Started => s.(chunks := s.chunks[j := Invoked(c).(req := Ran)])
    case _ => s.(chunks := s.chunks[j := CountedDown(c).(req := Finished)], latch := Minus(s.latch, 1))
  }

  /** `spread_after_cb`: release, and delete if that was the last reference. */
  function AfterNext(s: State, j: nat): State
    requires Enabled(s, AfterStep(j))
  {
    var c := s.chunks[j];
    if c.req == AfterDelete then s.(chunks := s.chunks[j := c.(req := Released)], deletes := s.deletes + 1)
    else s.(chunks := s.chunks[j := c.(req := if s.refs == 1 then AfterDelete else Released)], refs := Minus(s.refs, 1))
  }

  function Next(s: State, a: Action): State
    requires Enabled(s, a)
  {
    match a
    case CallerStep => CallerNext(s)
    case QueuerStep(accepted) => QueuerNext(s, accepted)
    case WorkerStep(j) => WorkerNext(s, j)
    case AfterStep(j) => AfterNext(s, j)
  }

  predicate Initial(s: State) {
    s == Init(|s.chunks|)
  }

  predicate StepsTo(s: State, a: Action, n: State) {
    Enabled(s, a) && Next(s, a) == n
  }

  ghost predicate Reachable(s: State) {
    Reached(Initial, StepsTo, s)
  }

  // ----- the invariant

  /** What a side still has to do for one chunk. */
  datatype Role = NoRole | ToRun | ToCount | Adding | Offering | Marking

  function CallerRole(pc: CallerPc, j: nat): Role {
    if pc == StealUnlock(j, true) || pc == StealRun(j) then ToRun
    else if pc == StealCount(j) then ToCount
    else NoRole
  }

  function QueuerRole(pc: QueuerPc, j: nat): Role {
    if pc == QueueUnlock(j, true) || pc == QueueRun(j) then ToRun
    else if pc == QueueCount(j) then ToCount
    else if pc == QueueAddRef(j) then Adding
    else if pc == QueueWork(j) || pc == QueueDropRef(j) then Offering
    else if pc == QueueMark(j) then Marking
    else NoRole
  }

  /** The pool has the chunk, or had it: what ran and what was counted follows the request. */
  predicate PoolRuns(c: Chunk) {
    match c.req
    case InPool => c.runs == 0 && !c.counted
    case Started => c.runs == 0 && !c.counted
    case Ran => c.runs == 1 && !c.counted
    case Finished => c.runs == 1 && c.counted
    case AfterDelete => c.runs == 1 && c.counted
    case Released => c.runs == 1 && c.counted
    case _ => false
  }

  /** Exactly one party is to run a chunk, ran it, or has counted it down. */
  predicate ChunkOk(c: Chunk, caller: Role, queuer: Role) {
    match c.mark
    case Pending =>
      && caller == NoRole
      && (match queuer
          case NoRole => c.req == NotQueued && c.runs == 0 && !c.counted
          case Adding => c.req == NotQueued && c.runs == 0 && !c.counted
          case Offering => c.req == Tentative && c.runs == 0 && !c.counted
          case Marking => PoolRuns(c)
          case _ => false)
    case Queued => caller == NoRole && queuer == NoRole && PoolRuns(c)
    case DoneInline =>
      && (c.req == NotQueued || c.req == Cancelled || c.req == AfterDelete || c.req == Released)
      && (caller == NoRole || queuer == NoRole)
      && (var role := if caller == NoRole then queuer else caller;
          match role
          case ToRun => c.runs == 0 && !c.counted
          case ToCount => c.runs == 1 && !c.counted
          case NoRole => c.runs == 1 && c.counted
          case _ => false)
  }

  /** After the steal-back has passed a chunk it is neither pending nor cancellable. */
  predicate Passed(c: Chunk) {
    c.mark != Pending && c.req != InPool && c.req != Tentative
  }

  /** The chunks from here on have been passed by the steal-back. */
  function Left(n: nat, pc: CallerPc): nat {
    match pc
    case HandOff => n
    case TailRun => n
    case TailCount => n
    case StealNext(left) => left
    case StealClaim(i) => i + 1
    case StealUnlock(i, _) => i
    case StealRun(i) => i
    case StealCount(i) => i
    case _ => 0
  }

  predicate CallerLocks(pc: CallerPc) { pc.StealClaim? || pc.StealUnlock? }
  predicate QueuerLocks(pc: QueuerPc) {
    pc.QueueCheck? || pc.QueueAddRef? || pc.QueueWork? || pc.QueueMark? || pc.QueueDropRef? || pc.QueueUnlock?
  }

  function Holds(c: Chunk): nat {
    if c.req == NotQueued || c.req == AfterDelete || c.req == Released then 0 else 1
  }
  function Uncounted(c: Chunk): nat { if c.counted then 0 else 1 }
  function Deleting(c: Chunk): nat { if c.req == AfterDelete then 1 else 0 }

  function CallerShare(pc: CallerPc): nat { if pc == CallerDelete || pc == Returned then 0 else 1 }
  function QueuerShare(pc: QueuerPc): nat { if pc == QueuerDelete || pc == QueuerDone then 0 else 1 }
  function TailLeft(pc: CallerPc): nat { if pc == HandOff || pc == TailRun || pc == TailCount then 1 else 0 }

  /** refs is the caller's share, the queuer's share and the chunks whose after-callback is still
      outstanding. */
  predicate RefsCounted(s: State) {
    s.refs == CallerShare(s.caller) + QueuerShare(s.queuer) + Sum(Holds, s.chunks)
  }

  /** The node is deleted once, after the last reference. */
  predicate DeletedLast(s: State) {
    s.deletes + (if s.caller == CallerDelete then 1 else 0) + (if s.queuer == QueuerDelete then 1 else 0)
      + Sum(Deleting, s.chunks) == (if s.refs == 0 then 1 else 0)
  }

  predicate RefsOk(s: State) {
    RefsCounted(s) && DeletedLast(s)
  }

  /** The latch is the chunks not counted down yet, the tail included. */
  predicate LatchOk(s: State) {
    && s.latch == TailLeft(s.caller) + Sum(Uncounted, s.chunks)
    && s.tailRuns == (if s.caller == HandOff || s.caller == TailRun then 0 else 1)
    && (s.caller == CallerRelease || s.caller == CallerDelete || s.caller == Returned ==> s.latch == 0)
  }

  predicate LockOk(s: State) {
    && (s.lock == ByCaller <==> CallerLocks(s.caller))
    && (s.lock == ByQueuer <==> QueuerLocks(s.queuer))
  }

  ghost predicate ChunksOk(s: State) {
    && (forall j :: 0 <= j < |s.chunks| ==> ChunkOk(s.chunks[j], CallerRole(s.caller, j), QueuerRole(s.queuer, j)))
    && (forall j :: 0 <= j < |s.chunks| && j >= Left(|s.chunks|, s.caller) ==> Passed(s.chunks[j]))
  }

  ghost predicate PcsOk(s: State) {
    && Left(|s.chunks|, s.caller) <= |s.chunks|
    && (s.caller == HandOff <==> s.queuer == NotHanded)
    && (match s.caller
        case StealClaim(i) => i < |s.chunks|
        case StealUnlock(i, _) => i < |s.chunks|
        case StealRun(i) => i < |s.chunks|
        case StealCount(i) => i < |s.chunks|
        case _ => true)
    && (match s.queuer
        case QueueNext(i) => i <= |s.chunks|
        case NotHanded => true
        case QueuerRelease => true
        case QueuerDelete => true
        case QueuerDone => true
        case pc => pc.i < |s.chunks|)
  }

  ghost predicate Inv(s: State) {
    RefsOk(s) && LatchOk(s) && LockOk(s) && PcsOk(s) && ChunksOk(s)
  }

  // ----- one action, one chunk

  /** The chunk an action works on; the number of chunks when it works on none. */
  function Target(s: State, a: Action): nat
    requires Enabled(s, a)
  {
    match a
    case CallerStep =>
      (match s.caller
       case StealClaim(i) => i
       case StealRun(i) => i
       case StealCount(i) => i
       case _ => |s.chunks|)
    case QueuerStep(_) =>
      (match s.queuer
       case QueueCheck(i) => i
       case QueueAddRef(i) => i
       case QueueWork(i) => i
       case QueueMark(i) => i
       case QueueDropRef(i) => i
       case QueueRun(i) => i
       case QueueCount(i) => i
       case _ => |s.chunks|)
    case WorkerStep(j) => j
    case AfterStep(j) => j
  }

  lemma OneChunk(s: State, a: Action)
    requires Enabled(s, a)
    ensures var n, j := Next(s, a), Target(s, a);
      && |n.chunks| == |s.chunks| && j <= |s.chunks|
      && (forall i :: 0 <= i < |s.chunks| && i != j ==> n.chunks[i] == s.chunks[i])
  {
  }

  lemma Weigh(f: Chunk -> nat, s: State, a: Action)
    requires Enabled(s, a)
    ensures var n, j := Next(s, a), Target(s, a);
      && |n.chunks| == |s.chunks|
      && (j >= |s.chunks| ==> Sum(f, n.chunks) == Sum(f, s.chunks))
      && (j < |s.chunks| ==> Sum(f, n.chunks) == Sum(f, s.chunks) - f(s.chunks[j]) + f(n.chunks[j])
                             && Sum(f, s.chunks) >= f(s.chunks[j]))
  {
    var n, j := Next(s, a), Target(s, a);
    OneChunk(s, a);
    if j < |s.chunks| {
      Updated(f, s.chunks, j, n.chunks[j]);
      assert n.chunks == s.chunks[j := n.chunks[j]];
    } else {
      assert n.chunks == s.chunks;
    }
  }

  /** What the invariant says about the one chunk an action works on. */
  predicate TargetOk(s: State, a: Action)
    requires Enabled(s, a)
  {
    var j := Target(s, a);
    j < |s.chunks| ==> ChunkOk(s.chunks[j], CallerRole(s.caller, j), QueuerRole(s.queuer, j))
  }

  lemma RefsAfterCaller(s: State)
    requires RefsOk(s) && PcsOk(s) && Enabled(s, CallerStep) && TargetOk(s, CallerStep)
    ensures RefsOk(CallerNext(s))
  {
    Weigh(Holds, s, CallerStep);
    Weigh(Deleting, s, CallerStep);
  }

  lemma RefsCountedAfterQueuer(s: State, accepted: bool)
    requires RefsCounted(s) && Enabled(s, QueuerStep(accepted)) && TargetOk(s, QueuerStep(accepted))
    ensures RefsCounted(QueuerNext(s, accepted))
  {
    Weigh(Holds, s, QueuerStep(accepted));
  }

  lemma DeletedLastAfterQueuer(s: State, accepted: bool)
    requires RefsOk(s) && Enabled(s, QueuerStep(accepted)) && TargetOk(s, QueuerStep(accepted))
    requires RefsCounted(QueuerNext(s, accepted))
    ensures DeletedLast(QueuerNext(s, accepted))
  {
    Weigh(Deleting, s, QueuerStep(accepted));
  }

  lemma RefsAfterQueuer(s: State, accepted: bool)
    requires RefsOk(s) && Enabled(s, QueuerStep(accepted)) && TargetOk(s, QueuerStep(accepted))
    ensures RefsOk(QueuerNext(s, accepted))
  {
    RefsCountedAfterQueuer(s, accepted);
    DeletedLastAfterQueuer(s, accepted);
  }

  lemma RefsAfterPool(s: State, a: Action)
    requires RefsOk(s) && Enabled(s, a) && TargetOk(s, a) && (a.WorkerStep? || a.AfterStep?)
    ensures RefsOk(Next(s, a))
  {
    Weigh(Holds, s, a);
    Weigh(Deleting, s, a);
  }

  lemma LatchAfterCaller(s: State)
    requires LatchOk(s) && Enabled(s, CallerStep) && TargetOk(s, CallerStep)
    ensures LatchOk(CallerNext(s))
  {
    Weigh(Uncounted, s, CallerStep);
  }

  lemma LatchAfterOther(s: State, a: Action)
    requires LatchOk(s) && Enabled(s, a) && TargetOk(s, a) && a != CallerStep
    ensures LatchOk(Next(s, a))
  {
    Weigh(Uncounted, s, a);
  }

  lemma LatchKept(s: State, a: Action)
    requires LatchOk(s) && Enabled(s, a) && TargetOk(s, a)
    ensures LatchOk(Next(s, a))
  {
    if a == CallerStep {
      LatchAfterCaller(s);
    } else {
      LatchAfterOther(s, a);
    }
  }

  lemma LockKept(s: State, a: Action)
    requires LockOk(s) && PcsOk(s) && Enabled(s, a)
    ensures LockOk(Next(s, a))
  {
  }

  lemma PcsAfterCaller(s: State)
    requires PcsOk(s) && CallerEnabled(s)
    ensures PcsOk(CallerNext(s))
  {
  }

  lemma PcsAfterQueuer(s: State, accepted: bool)
    requires PcsOk(s) && QueuerEnabled(s)
    ensures PcsOk(QueuerNext(s, accepted))
  {
  }

  /** The chunk acted on, told without the others. */
  lemma TargetAfterCaller(s: State)
    requires CallerEnabled(s) && LockOk(s) && TargetOk(s, CallerStep) && Target(s, CallerStep) < |s.chunks|
    ensures var n, j := CallerNext(s), Target(s, CallerStep);
      && ChunkOk(n.chunks[j], CallerRole(n.caller, j), QueuerRole(n.queuer, j))
      && (s.caller.StealClaim? ==> Passed(n.chunks[j]))
      && (Passed(s.chunks[j]) ==> Passed(n.chunks[j]))
  {
  }

  lemma TargetAfterQueuer(s: State, accepted: bool)
    requires QueuerEnabled(s) && LockOk(s)
    requires TargetOk(s, QueuerStep(accepted)) && Target(s, QueuerStep(accepted)) < |s.chunks|
    ensures var n, j := QueuerNext(s, accepted), Target(s, QueuerStep(accepted));
      && ChunkOk(n.chunks[j], CallerRole(n.caller, j), QueuerRole(n.queuer, j))
      && (Passed(s.chunks[j]) ==> Passed(n.chunks[j]))
  {
  }

  lemma TargetAfterPool(s: State, a: Action)
    requires Enabled(s, a) && TargetOk(s, a) && (a.WorkerStep? || a.AfterStep?)
    ensures var n, j := Next(s, a), Target(s, a);
      && ChunkOk(n.chunks[j], CallerRole(n.caller, j), QueuerRole(n.queuer, j))
      && (Passed(s.chunks[j]) ==> Passed(n.chunks[j]))
  {
  }

  /** A side's role for the chunks it is not working on stays as it was, and the steal-back passes
      at most the chunk it works on. */
  lemma RolesElsewhere(s: State, a: Action, j: nat)
    requires PcsOk(s) && Enabled(s, a) && j < |s.chunks| && j != Target(s, a)
    ensures var n := Next(s, a);
      && CallerRole(n.caller, j) == CallerRole(s.caller, j)
      && QueuerRole(n.queuer, j) == QueuerRole(s.queuer, j)
      && (j >= Left(|s.chunks|, n.caller) ==> j >= Left(|s.chunks|, s.caller))
  {
  }

  lemma TargetPassed(s: State, a: Action)
    requires PcsOk(s) && Enabled(s, a) && Target(s, a) < |s.chunks|
    ensures Target(s, a) >= Left(|s.chunks|, Next(s, a).caller) ==>
              Target(s, a) >= Left(|s.chunks|, s.caller) || (a.CallerStep? && s.caller.StealClaim?)
  {
  }

  lemma TargetKept(s: State, a: Action)
    requires Enabled(s, a) && LockOk(s) && TargetOk(s, a) && Target(s, a) < |s.chunks|
    ensures var n, j := Next(s, a), Target(s, a);
      && ChunkOk(n.chunks[j], CallerRole(n.caller, j), QueuerRole(n.queuer, j))
      && (Passed(s.chunks[j]) || (a.CallerStep? && s.caller.StealClaim?) ==> Passed(n.chunks[j]))
  {
    match a
    case CallerStep => TargetAfterCaller(s);
    case QueuerStep(accepted) => TargetAfterQueuer(s, accepted);
    case _ => TargetAfterPool(s, a);
  }

  lemma ChunksKept(s: State, a: Action)
    requires Inv(s) && Enabled(s, a)
    ensures ChunksOk(Next(s, a))
  {
    var n, t := Next(s, a), Target(s, a);
    OneChunk(s, a);
    if t < |s.chunks| {
      TargetKept(s, a);
      TargetPassed(s, a);
    }
    forall j | 0 <= j < |n.chunks|
      ensures ChunkOk(n.chunks[j], CallerRole(n.caller, j), QueuerRole(n.queuer, j))
      ensures j >= Left(|n.chunks|, n.caller) ==> Passed(n.chunks[j])
    {
      if j != t {
        RolesElsewhere(s, a, j);
      }
    }
  }

  lemma RefsKept(s: State, a: Action)
    requires RefsOk(s) && PcsOk(s) && Enabled(s, a) && TargetOk(s, a)
    ensures RefsOk(Next(s, a))
  {
    match a
    case CallerStep => RefsAfterCaller(s);
    case QueuerStep(accepted) => RefsAfterQueuer(s, accepted);
    case _ => RefsAfterPool(s, a);
  }

  lemma PcsKept(s: State, a: Action)
    requires PcsOk(s) && Enabled(s, a)
    ensures PcsOk(Next(s, a))
  {
    match a
    case CallerStep => PcsAfterCaller(s);
    case QueuerStep(accepted) => PcsAfterQueuer(s, accepted);
    case _ =>
  }

  lemma InvKept(s: State, a: Action)
    requires Inv(s) && Enabled(s, a)
    ensures Inv(Next(s, a))
  {
    assert TargetOk(s, a);
    ChunksKept(s, a);
    LatchKept(s, a);
    LockKept(s, a);
    RefsKept(s, a);
    PcsKept(s, a);
  }

  lemma InitialInv(s: State)
    requires Initial(s)
    ensures Inv(s)
  {
    Positive(Holds, s.chunks);
    Positive(Deleting, s.chunks);
    AllOnes(Uncounted, s.chunks);
  }

  lemma ReachableInv(s: State)
    requires Reachable(s)
    ensures Inv(s)
  {
    forall t | Initial(t) ensures Inv(t) {
      InitialInv(t);
    }
    forall t, a, n | Inv(t) && StepsTo(t, a, n) ensures Inv(n) {
      InvKept(t, a);
    }
    ReachedInv(Initial, StepsTo, Inv, s);
  }
}
