/** `futex_rw_mutex` and `reader_preferring_futex_rw_mutex` as a machine of any number of threads.
    Every load, compare-exchange, fetch_sub, exchange, park and wake of the source is one step. */
module RwMutex {
  import opened RwWord
  import opened Runs
  import opened Tally

  datatype Policy = WriterPreferring | ReaderPreferring

  /** The `reader_blocking_bits` of the policy, tested on a word. */
  predicate Blocks(policy: Policy, w: Word) {
    w.locked || (policy == WriterPreferring && w.waiting)
  }

  /** Where a thread stands. `seen` is the local `observed` of the source. */
  datatype Pc =
    | Idle
    | RwLoad | RwTry(seen: Word) | RwParked      // acquire_rw
    | RwExchange | RwWake                        // release_rw
    | TryRwLoad | TryRwCas(seen: Word)           // try_acquire_rw
    | RoLoad | RoTry(seen: Word) | RoParked      // acquire_ro_core
    | RoSub | RoWake                             // release_ro
    | TryRoLoad | TryRoCas(seen: Word)           // try_acquire_ro_core

  /** A thread: its program counter, its live read holds, and whether it holds exclusively. */
  datatype Thread = Thread(pc: Pc, holds: nat, exclusive: bool)

  datatype State = State(policy: Policy, word: Word, threads: seq<Thread>)

  datatype Op = AcquireRw | ReleaseRw | TryAcquireRw | AcquireRo | ReleaseRo | TryAcquireRo

  /** `Call` enters an operation; `Step` runs the next atomic operation of one in progress. A set
      `spurious` makes a weak compare-exchange fail or a park return without cause. */
  datatype Action = Call(t: nat, op: Op) | Step(t: nat, spurious: bool)

  datatype Wake = NoWake | WakeWriters | WakeEveryone

  /** What one step does: to the word, to the thread itself, and which parked threads it wakes. */
  datatype Effect = Effect(op: WordOp, self: Thread, wake: Wake)

  function Entered(op: Op): Pc {
    match op
    case AcquireRw => RwLoad
    case ReleaseRw => RwExchange
    case TryAcquireRw => TryRwLoad
    case AcquireRo => RoLoad
    case ReleaseRo => RoSub
    case TryAcquireRo => TryRoLoad
  }

  /** Releasing needs a hold to release; the source asserts it. */
  predicate MayCall(th: Thread, op: Op) {
    && th.pc == Idle
    && (op == ReleaseRw ==> th.exclusive)
    && (op == ReleaseRo ==> th.holds > 0)
  }

  /** A compare against the loaded word succeeds, a weak one or a park only when it does not fail
      without cause. */
  predicate Hit(w: Word, seen: Word, spurious: bool) {
    w == seen && !spurious
  }

  /** The next step of an operation in progress. */
  function Local(policy: Policy, w: Word, th: Thread, spurious: bool): Effect
    requires th.pc != Idle
  {
    match th.pc
    // acquire_rw
    case RwLoad => Effect(Keep, th.(pc := RwTry(w)), NoWake)
    case RwTry(seen) =>
      if Takeable(seen) then
        if Hit(w, seen, spurious) then Effect(TakeExclusive, th.(pc := Idle, exclusive := true), NoWake)
        else Effect(Keep, th.(pc := RwTry(w)), NoWake)
      else if !seen.waiting then
        if Hit(w, seen, spurious) then Effect(AnnounceWriter, th.(pc := RwTry(seen.(waiting := true))), NoWake)
        else Effect(Keep, th.(pc := RwTry(w)), NoWake)
      else Effect(Keep, th.(pc := if Hit(w, seen, spurious) then RwParked else RwLoad), NoWake)
    case RwParked => Effect(Keep, th.(pc := RwLoad), NoWake)
    // release_rw
    case RwExchange => Effect(Clear, th.(pc := if Announced(w) then RwWake else Idle, exclusive := false), NoWake)
    case RwWake => Effect(Keep, th.(pc := Idle), WakeEveryone)
    // try_acquire_rw
    case TryRwLoad => Effect(Keep, th.(pc := if Takeable(w) then TryRwCas(w) else Idle), NoWake)
    case TryRwCas(seen) =>
      if w == seen && Takeable(seen) then Effect(TakeExclusive, th.(pc := Idle, exclusive := true), NoWake)
      else Effect(Keep, th.(pc := Idle), NoWake)
    // acquire_ro_core
    case RoLoad => Effect(Keep, th.(pc := RoTry(w)), NoWake)
    case RoTry(seen) =>
      if !Blocks(policy, seen) then
        if Hit(w, seen, spurious) then Effect(AdmitReader, th.(pc := Idle, holds := th.holds + 1), NoWake)
        else Effect(Keep, th.(pc := RoLoad), NoWake)
      else if !seen.parked then
        Effect(if Hit(w, seen, spurious) then AnnounceReader else Keep, th.(pc := RoLoad), NoWake)
      else Effect(Keep, th.(pc := if Hit(w, seen, spurious) then RoParked else RoLoad), NoWake)
    case RoParked => Effect(Keep, th.(pc := RoLoad), NoWake)
    // release_ro
    case RoSub =>
      if w.readers == 0 || th.holds == 0 then Effect(Keep, th.(pc := Idle), NoWake)
      else
        var pc := if w.readers == 1 && w.waiting then RoWake else Idle;
        Effect(DepartReader, th.(pc := pc, holds := th.holds - 1), NoWake)
    case RoWake => Effect(Keep, th.(pc := Idle), WakeWriters)
    // try_acquire_ro_core
    case TryRoLoad => Effect(Keep, th.(pc := if Blocks(policy, w) then Idle else TryRoCas(w)), NoWake)
    case TryRoCas(seen) =>
      if w == seen && !Blocks(policy, seen) then Effect(AdmitReader, th.(pc := Idle, holds := th.holds + 1), NoWake)
      else Effect(Keep, th.(pc := Idle), NoWake)
  }

  /** A woken thread goes back to the load at the top of its loop. */
  function Woken(wake: Wake, th: Thread): Thread {
    if wake != NoWake && th.pc == RwParked then th.(pc := RwLoad)
    else if wake == WakeEveryone && th.pc == RoParked then th.(pc := RoLoad)
    else th
  }

  function WakeAll(wake: Wake, ts: seq<Thread>): (r: seq<Thread>)
    ensures |r| == |ts|
  {
    seq(|ts|, i requires 0 <= i < |ts| => Woken(wake, ts[i]))
  }

  predicate Parked(pc: Pc) {
    pc == RwParked || pc == RoParked
  }

  predicate MayAct(th: Thread, a: Action) {
    match a
    case Call(_, op) => MayCall(th, op)
    case Step(_, spurious) => th.pc != Idle && (Parked(th.pc) ==> spurious)
  }

  function Act(policy: Policy, w: Word, th: Thread, a: Action): (e: Effect)
    requires MayAct(th, a)
    ensures Applicable(w, e.op)
  {
    match a
    case Call(_, op) => Effect(Keep, th.(pc := Entered(op)), NoWake)
    case Step(_, spurious) => Local(policy, w, th, spurious)
  }

  predicate Enabled(s: State, a: Action) {
    a.t < |s.threads| && MayAct(s.threads[a.t], a)
  }

  function EffectOf(s: State, a: Action): (e: Effect)
    requires Enabled(s, a)
    ensures Applicable(s.word, e.op)
  {
    Act(s.policy, s.word, s.threads[a.t], a)
  }

  function Next(s: State, a: Action): State
    requires Enabled(s, a)
  {
    var e := EffectOf(s, a);
    State(s.policy, Apply(s.word, e.op), WakeAll(e.wake, s.threads[a.t := e.self]))
  }

  predicate Initial(s: State) {
    s.word == FREE && forall i :: 0 <= i < |s.threads| ==> s.threads[i] == Thread(Idle, 0, false)
  }

  predicate StepsTo(s: State, a: Action, n: State) {
    Enabled(s, a) && Next(s, a) == n
  }

  /** The states any number of threads can reach. */
  ghost predicate Reachable(s: State) {
    Reached(Initial, StepsTo, s)
  }

  // ----- the invariant

  function Holds(th: Thread): nat { th.holds }

  function TotalReads(ts: seq<Thread>): nat { Sum(Holds, ts) }

  /** Inside acquire_rw, parked or not. */
  predicate Acquiring(pc: Pc) {
    pc == RwLoad || pc.RwTry? || pc == RwParked
  }

  predicate OwesWriters(pc: Pc) {
    pc == RwWake || pc == RoWake
  }

  predicate HeldUp(w: Word) {
    w.waiting && (w.readers > 0 || w.locked)
  }

  predicate ReadersHeldUp(policy: Policy, w: Word) {
    w.parked && Blocks(policy, w)
  }

  /** The part of the invariant about nested reads, for one thread. */
  predicate NestedFree(policy: Policy, th: Thread) {
    policy == ReaderPreferring && th.holds > 0 ==>
      th.pc != RoParked && (th.pc.RoTry? ==> !th.pc.seen.locked)
  }

  /** The count is the number of read holds; the locked bit is exactly one exclusive holder. */
  ghost predicate Exclusion(s: State) {
    && s.word.readers == TotalReads(s.threads)
    && (s.word.locked ==> s.word.readers == 0)
    && (s.word.locked <==> exists i :: 0 <= i < |s.threads| && s.threads[i].exclusive)
    && (forall i, j :: 0 <= i < |s.threads| && 0 <= j < |s.threads| ==>
          s.threads[i].exclusive && s.threads[j].exclusive ==> i == j)
    && (forall i :: 0 <= i < |s.threads| && s.threads[i].pc == RwExchange ==> s.threads[i].exclusive)
    && (forall i :: 0 <= i < |s.threads| && s.threads[i].pc == RoSub ==> s.threads[i].holds > 0)
  }

  /** A parked writer is announced behind a holder, or a wake that reaches writers is owed. */
  ghost predicate WritersCovered(s: State) {
    (exists i :: 0 <= i < |s.threads| && s.threads[i].pc == RwParked) ==>
      || HeldUp(s.word)
      || exists u :: 0 <= u < |s.threads| && OwesWriters(s.threads[u].pc)
  }

  /** A parked reader is announced behind a blocking bit, or a wake of release_rw is owed. */
  ghost predicate ReadersCovered(s: State) {
    (exists i :: 0 <= i < |s.threads| && s.threads[i].pc == RoParked) ==>
      || ReadersHeldUp(s.policy, s.word)
      || exists u :: 0 <= u < |s.threads| && s.threads[u].pc == RwWake
  }

  /** Announce bits never outlive their reason. */
  ghost predicate AnnounceBacked(s: State) {
    && (s.word.waiting ==> s.word.locked || exists i :: 0 <= i < |s.threads| && Acquiring(s.threads[i].pc))
    && (s.word.parked ==> Blocks(s.policy, s.word))
  }

  /** Under reader preference a thread that already reads never sees a reason to park. */
  ghost predicate NestedReadsFree(s: State) {
    forall i :: 0 <= i < |s.threads| ==> NestedFree(s.policy, s.threads[i])
  }

  ghost predicate Inv(s: State) {
    && Exclusion(s)
    && WritersCovered(s)
    && ReadersCovered(s)
    && AnnounceBacked(s)
    && NestedReadsFree(s)
  }

  // ----- every step keeps the invariant

  lemma ReadsNext(s: State, a: Action)
    requires Enabled(s, a)
    ensures TotalReads(Next(s, a).threads) == TotalReads(s.threads) - s.threads[a.t].holds + EffectOf(s, a).self.holds
    ensures TotalReads(s.threads) >= s.threads[a.t].holds
  {
    var e := EffectOf(s, a);
    Updated(Holds, s.threads, a.t, e.self);
    Same(Holds, s.threads[a.t := e.self], Next(s, a).threads);
  }

  /** `n` is `s` after thread `t` moved and issued `wake`: other threads are unparked or unchanged. */
  ghost predicate Moved(s: State, n: State, t: nat, wake: Wake) {
    && t < |s.threads| == |n.threads|
    && n.policy == s.policy
    && (forall i :: 0 <= i < |s.threads| && i != t ==> n.threads[i] == Woken(wake, s.threads[i]))
  }

  lemma NextMoves(s: State, a: Action)
    requires Enabled(s, a)
    ensures var e := EffectOf(s, a); Moved(s, Next(s, a), a.t, e.wake) && Next(s, a).threads[a.t] == e.self
  {
    var e := EffectOf(s, a);
    WakersDoNotPark(s.policy, s.word, s.threads[a.t], a);
  }

  lemma WakersDoNotPark(policy: Policy, w: Word, th: Thread, a: Action)
    requires MayAct(th, a)
    ensures var e := Act(policy, w, th, a); e.wake != NoWake ==> e.self.pc == Idle
  {
  }

  /** What the invariant says about one thread. */
  predicate Sound(policy: Policy, w: Word, th: Thread) {
    && (w.locked ==> w.readers == 0)
    && (th.exclusive ==> w.locked)
    && th.holds <= w.readers
    && (th.pc == RwExchange ==> th.exclusive)
    && (th.pc == RoSub ==> th.holds > 0)
  }

  /** The count follows the thread's holds. */
  predicate HoldsFollow(w: Word, th: Thread, e: Effect)
    requires Applicable(w, e.op)
  {
    var w', me := Apply(w, e.op), e.self;
    && (w'.locked ==> w'.readers == 0)
    && w'.readers - w.readers == me.holds - th.holds
    && (me.pc == RoSub ==> me.holds > 0)
  }

  predicate Reading(pc: Pc) {
    pc == RoLoad || pc.RoTry? || pc == RoParked || pc == RoSub || pc == RoWake || pc == TryRoLoad || pc.TryRoCas?
  }

  lemma ReaderHolds(policy: Policy, w: Word, th: Thread, spurious: bool)
    requires MayAct(th, Step(0, spurious)) && Sound(policy, w, th) && Reading(th.pc)
    ensures Applicable(w, Local(policy, w, th, spurious).op)
    ensures HoldsFollow(w, th, Local(policy, w, th, spurious))
  {
  }

  lemma WriterHolds(policy: Policy, w: Word, th: Thread, spurious: bool)
    requires MayAct(th, Step(0, spurious)) && Sound(policy, w, th) && !Reading(th.pc)
    ensures Applicable(w, Local(policy, w, th, spurious).op)
    ensures HoldsFollow(w, th, Local(policy, w, th, spurious))
  {
  }

  /** One action, told without the other threads. */
  lemma ActHolds(policy: Policy, w: Word, th: Thread, a: Action)
    requires MayAct(th, a) && Sound(policy, w, th)
    ensures HoldsFollow(w, th, Act(policy, w, th, a))
  {
    match a
    case Call(_, _) =>
    case Step(_, spurious) =>
      if Reading(th.pc) {
        ReaderHolds(policy, w, th, spurious);
      } else {
        WriterHolds(policy, w, th, spurious);
      }
  }

  /** The locked bit follows the thread's exclusive hold. */
  lemma ActLocks(policy: Policy, w: Word, th: Thread, a: Action)
    requires MayAct(th, a) && Sound(policy, w, th)
    ensures var e := Act(policy, w, th, a); var w', me := Apply(w, e.op), e.self;
      && (me.exclusive && !th.exclusive ==> w'.locked && !w.locked)
      && (w'.locked && !w.locked ==> me.exclusive)
      && (w.locked && !w'.locked ==> th.exclusive && !me.exclusive)
      && (th.exclusive && !me.exclusive ==> !w'.locked)
      && (me.pc == RwExchange ==> me.exclusive)
  {
  }

  /** A writer parks announced behind a holder, and a word that stops holding writers up leaves a
      wake owed. */
  lemma ActWakesWriters(policy: Policy, w: Word, th: Thread, a: Action)
    requires MayAct(th, a) && Sound(policy, w, th)
    ensures var e := Act(policy, w, th, a); var w', me := Apply(w, e.op), e.self;
      && (OwesWriters(th.pc) ==> e.wake != NoWake)
      && (me.pc == RwParked ==> HeldUp(w'))
      && (HeldUp(w) ==> HeldUp(w') || OwesWriters(me.pc))
  {
  }

  /** The same for readers, whose wake is always release_rw's. */
  lemma ActWakesReaders(policy: Policy, w: Word, th: Thread, a: Action)
    requires MayAct(th, a) && Sound(policy, w, th)
    ensures var e := Act(policy, w, th, a); var w', me := Apply(w, e.op), e.self;
      && (th.pc == RwWake ==> e.wake == WakeEveryone)
      && (me.pc == RoParked ==> ReadersHeldUp(policy, w'))
      && (ReadersHeldUp(policy, w) ==> ReadersHeldUp(policy, w') || me.pc == RwWake)
  {
  }

  /** An announce bit appears and stays only with its reason. */
  lemma ActAnnounces(policy: Policy, w: Word, th: Thread, a: Action)
    requires MayAct(th, a) && Sound(policy, w, th)
    ensures var e := Act(policy, w, th, a); var w', me := Apply(w, e.op), e.self;
      && (w'.waiting && !w'.locked && !Acquiring(me.pc) ==> w.waiting && !w.locked && !Acquiring(th.pc))
      && ((w.parked ==> Blocks(policy, w)) ==> w'.parked ==> Blocks(policy, w'))
  {
  }

  lemma ExclusionMoved(s: State, n: State, t: nat, wake: Wake)
    requires Exclusion(s) && Moved(s, n, t, wake)
    requires n.word.readers == TotalReads(n.threads)
    requires var me, me' := s.threads[t], n.threads[t];
      && (n.word.locked ==> n.word.readers == 0)
      && (me'.exclusive && !me.exclusive ==> n.word.locked && !s.word.locked)
      && (n.word.locked && !s.word.locked ==> me'.exclusive)
      && (s.word.locked && !n.word.locked ==> me.exclusive && !me'.exclusive)
      && (me.exclusive && !me'.exclusive ==> !n.word.locked)
      && (me'.pc == RwExchange ==> me'.exclusive)
      && (me'.pc == RoSub ==> me'.holds > 0)
    ensures Exclusion(n)
  {
    forall i | 0 <= i < |n.threads| && i != t
      ensures n.threads[i].exclusive == s.threads[i].exclusive && n.threads[i].holds == s.threads[i].holds
      ensures n.threads[i].pc == RwExchange ==> s.threads[i].pc == RwExchange
      ensures n.threads[i].pc == RoSub ==> s.threads[i].pc == RoSub
    {
    }
    if n.word.locked && s.word.locked {
      var i :| 0 <= i < |s.threads| && s.threads[i].exclusive;
      assert n.threads[i].exclusive;
    }
  }

  lemma IsSound(s: State, t: nat)
    requires Exclusion(s) && t < |s.threads|
    ensures Sound(s.policy, s.word, s.threads[t])
  {
    Updated(Holds, s.threads, t, s.threads[t]);
  }

  lemma ExclusionKept(s: State, a: Action)
    requires Exclusion(s) && Enabled(s, a)
    ensures Exclusion(Next(s, a))
  {
    ReadsNext(s, a);
    NextMoves(s, a);
    IsSound(s, a.t);
    ActHolds(s.policy, s.word, s.threads[a.t], a);
    ActLocks(s.policy, s.word, s.threads[a.t], a);
    ExclusionMoved(s, Next(s, a), a.t, EffectOf(s, a).wake);
  }

  lemma WritersMoved(s: State, n: State, t: nat, wake: Wake)
    requires WritersCovered(s) && Moved(s, n, t, wake)
    requires OwesWriters(s.threads[t].pc) ==> wake != NoWake
    requires n.threads[t].pc == RwParked ==> HeldUp(n.word)
    requires HeldUp(s.word) ==> HeldUp(n.word) || OwesWriters(n.threads[t].pc)
    ensures WritersCovered(n)
  {
    if i :| 0 <= i < |n.threads| && n.threads[i].pc == RwParked {
      if i != t {
        assert s.threads[i].pc == RwParked && wake == NoWake;
        if u :| 0 <= u < |s.threads| && OwesWriters(s.threads[u].pc) {
          assert OwesWriters(n.threads[u].pc);
        }
      }
    }
  }

  lemma ReadersMoved(s: State, n: State, t: nat, wake: Wake)
    requires ReadersCovered(s) && Moved(s, n, t, wake)
    requires s.threads[t].pc == RwWake ==> wake == WakeEveryone
    requires n.threads[t].pc == RoParked ==> ReadersHeldUp(n.policy, n.word)
    requires ReadersHeldUp(s.policy, s.word) ==> ReadersHeldUp(n.policy, n.word) || n.threads[t].pc == RwWake
    ensures ReadersCovered(n)
  {
    if i :| 0 <= i < |n.threads| && n.threads[i].pc == RoParked {
      if i != t {
        assert s.threads[i].pc == RoParked && wake != WakeEveryone;
        if u :| 0 <= u < |s.threads| && s.threads[u].pc == RwWake {
          assert n.threads[u].pc == RwWake;
        }
      }
    }
  }

  lemma AnnounceMoved(s: State, n: State, t: nat, wake: Wake)
    requires AnnounceBacked(s) && Moved(s, n, t, wake)
    requires n.word.waiting && !n.word.locked && !Acquiring(n.threads[t].pc) ==>
               s.word.waiting && !s.word.locked && !Acquiring(s.threads[t].pc)
    requires n.word.parked ==> Blocks(n.policy, n.word)
    ensures AnnounceBacked(n)
  {
    if n.word.waiting && !n.word.locked && !Acquiring(n.threads[t].pc) {
      var i :| 0 <= i < |s.threads| && Acquiring(s.threads[i].pc);
      assert Acquiring(n.threads[i].pc);
    }
  }

  lemma WakesKept(s: State, a: Action)
    requires Inv(s) && Enabled(s, a)
    ensures WritersCovered(Next(s, a)) && ReadersCovered(Next(s, a)) && AnnounceBacked(Next(s, a))
  {
    NextMoves(s, a);
    IsSound(s, a.t);
    ActWakesWriters(s.policy, s.word, s.threads[a.t], a);
    ActWakesReaders(s.policy, s.word, s.threads[a.t], a);
    ActAnnounces(s.policy, s.word, s.threads[a.t], a);
    var n, wake := Next(s, a), EffectOf(s, a).wake;
    WritersMoved(s, n, a.t, wake);
    ReadersMoved(s, n, a.t, wake);
    AnnounceMoved(s, n, a.t, wake);
  }

  lemma ActNested(policy: Policy, w: Word, th: Thread, a: Action)
    requires MayAct(th, a) && Sound(policy, w, th) && NestedFree(policy, th)
    ensures NestedFree(policy, Act(policy, w, th, a).self)
  {
  }

  lemma NestedKept(s: State, a: Action)
    requires Exclusion(s) && NestedReadsFree(s) && Enabled(s, a)
    ensures NestedReadsFree(Next(s, a))
  {
    var n := Next(s, a);
    NextMoves(s, a);
    IsSound(s, a.t);
    ActNested(s.policy, s.word, s.threads[a.t], a);
    forall i | 0 <= i < |n.threads| ensures NestedFree(n.policy, n.threads[i]) {
      assert i != a.t ==> NestedFree(s.policy, s.threads[i]);
    }
  }

  lemma InvKept(s: State, a: Action)
    requires Inv(s) && Enabled(s, a)
    ensures Inv(Next(s, a))
  {
    ExclusionKept(s, a);
    WakesKept(s, a);
    NestedKept(s, a);
  }

  lemma InitialInv(s: State)
    requires Initial(s)
    ensures Inv(s)
  {
    Positive(Holds, s.threads);
  }

  lemma ReachableInv(s: State)
    requires Reachable(s)
    ensures Inv(s)
  {
    forall t | Initial(t) ensures Inv(t) {
      InitialInv(t);
    }
    forall t, a, n | Inv(t) && StepsTo(t, a, n) ensures Inv(n) {
      InvKept(t, a);
    }
    ReachedInv(Initial, StepsTo, Inv, s);
  }
}
