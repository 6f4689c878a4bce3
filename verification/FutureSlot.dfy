/** The promise/future slot: two owners, an intrusive count of two, and completion through the
    semaphore, with every atomic step of `signal()` and `wait()` kept apart. */
module FutureSlot {
  import Sem = Semaphore
  import opened Runs
  import opened Tally

  datatype Outcome = Value | Exception

  /** The promise side. `Store` writes the result, `Signalling` runs `completion_.signal()`. */
  datatype PromisePc =
    | Live
    | Store(what: Outcome, inRun: bool)
    | Signalling(dropping: bool)
    | CheckCompleted
    | Release
    | Delete
    | Gone

  /** The future side. `next` is what follows a wait. */
  datatype After = ToCaller | ToGet | ToRelease
  datatype FuturePc =
    | Holding
    | CheckWaited(next: After)
    | Waiting(next: After)
    | MarkWaited(next: After)
    | ReadResult
    | FRelease
    | FDelete
    | FGone

  /** The slot's fields, the two sides, and how often the slot was deleted. Thread 0 of the
      semaphore is the promise, thread 1 the future. */
  datatype State = State(
    completion: Sem.State, owners: nat, hasValue: bool, exception: bool, completed: bool, waited: bool,
    promise: PromisePc, future: FuturePc, deletes: nat)

  datatype Op = SetValue | SetException | Run | DropPromise | Wait | Get | DropFuture

  /** `throws` makes the work or the construction of the value throw. */
  datatype Action =
    | Call(op: Op)
    | PromiseStep(throws: bool, victim: nat)
    | FutureStep(spurious: bool)

  const PROMISE := 0
  const FUTURE := 1

  /** Completing twice is a caller's error, asserted in the source. */
  predicate MayCall(s: State, op: Op) {
    match op
    case SetValue | SetException | Run => s.promise == Live && !s.completed
    case DropPromise => s.promise == Live
    case Wait | Get | DropFuture => s.future == Holding
  }

  function Entered(s: State, op: Op): State {
    match op
    case SetValue => s.(promise := Store(Value, false))
    case SetException => s.(promise := Store(Exception, false))
    case Run => s.(promise := Store(Value, true))
    case DropPromise => s.(promise := CheckCompleted)
    case Wait => s.(future := CheckWaited(ToCaller))
    case Get => s.(future := CheckWaited(ToGet))
    case DropFuture => s.(future := CheckWaited(ToRelease))
  }

  /** The semaphore's own action an action runs, if any: entering `signal()` or `wait()`, or their
      next atomic step. */
  datatype SemAction = None | Some(b: Sem.Action)

  function SemActionOf(s: State, a: Action): SemAction
    requires |s.completion.threads| == 2
  {
    match a
    case Call(_) => None
    case PromiseStep(throws, victim) =>
      (match s.promise
       case Store(what, _) => if what == Value && throws then None else Some(Sem.Call(PROMISE, Sem.Signal(1)))
       case CheckCompleted => if s.completed then None else Some(Sem.Call(PROMISE, Sem.Signal(1)))
       case Signalling(_) =>
         if s.completion.threads[PROMISE] == Sem.Idle then None else Some(Sem.Step(PROMISE, false, victim))
       case _ => None)
    case FutureStep(spurious) =>
      (match s.future
       case CheckWaited(_) => if s.waited then None else Some(Sem.Call(FUTURE, Sem.Wait))
       case Waiting(_) => if s.completion.threads[FUTURE] == Sem.Idle then None else Some(Sem.Step(FUTURE, spurious, 0))
       case _ => None)
  }

  predicate Enabled(s: State, a: Action) {
    && |s.completion.threads| == 2
    && (match a
        case Call(op) => MayCall(s, op)
        case PromiseStep(_, _) => s.promise != Live && s.promise != Gone
        case FutureStep(_) => s.future != Holding && s.future != FGone)
    && (SemActionOf(s, a).Some? ==> Sem.Enabled(s.completion, SemActionOf(s, a).b))
  }

  /** Marking completion on the way into `signal()`. */
  function Complete(s: State, what: Outcome, dropping: bool): State {
    s.(hasValue := s.hasValue || what == Value, exception := s.exception || what == Exception, completed := true,
       promise := Signalling(dropping))
  }

  function PromiseNext(s: State, throws: bool): State
    requires |s.completion.threads| == 2
  {
    match s.promise
    case Store(Value, inRun) =>
      if throws then s.(promise := if inRun then Store(Exception, false) else Live) else Complete(s, Value, false)
    case Store(Exception, _) => Complete(s, Exception, false)
    case Signalling(dropping) =>
      if s.completion.threads[PROMISE] != Sem.Idle then s else s.(promise := if dropping then Release else Live)
    case CheckCompleted => if s.completed then s.(promise := Release) else Complete(s, Exception, true)
    case Release => s.(owners := Sem.Max(0, s.owners - 1), promise := if s.owners == 1 then Delete else Gone)
    case Delete => s.(deletes := s.deletes + 1, promise := Gone)
    case _ => s
  }

  function Waited(next: After): FuturePc {
    match next
    case ToCaller => Holding
    case ToGet => ReadResult
    case ToRelease => FRelease
  }

  function FutureNext(s: State): State
    requires |s.completion.threads| == 2
  {
    match s.future
    case CheckWaited(next) => s.(future := if s.waited then Waited(next) else Waiting(next))
    case Waiting(next) => if s.completion.threads[FUTURE] != Sem.Idle then s else s.(future := MarkWaited(next))
    case MarkWaited(next) => s.(waited := true, future := Waited(next))
    case ReadResult => s.(future := Holding)
    case FRelease => s.(owners := Sem.Max(0, s.owners - 1), future := if s.owners == 1 then FDelete else FGone)
    case FDelete => s.(deletes := s.deletes + 1, future := FGone)
    case _ => s
  }

  /** Everything but the semaphore. */
  function Move(s: State, a: Action): State
    requires |s.completion.threads| == 2
  {
    match a
    case Call(op) => Entered(s, op)
    case PromiseStep(throws, _) => PromiseNext(s, throws)
    case FutureStep(_) => FutureNext(s)
  }

  function Next(s: State, a: Action): State
    requires |s.completion.threads| == 2
  {
    match SemActionOf(s, a)
    case None => Move(s, a)
    case Some(b) => Move(s, a).(completion := Sem.Next(s.completion, b))
  }

  /** The step reads or writes memory of the slot. */
  predicate Touches(s: State, a: Action)
    requires |s.completion.threads| == 2
  {
    match a
    case Call(_) => false
    case PromiseStep(_, _) =>
      (s.promise.Signalling? ==> s.completion.threads[PROMISE] != Sem.Idle) && s.promise != Live && s.promise != Gone
    case FutureStep(_) =>
      (s.future.Waiting? ==> s.completion.threads[FUTURE] != Sem.Idle) && s.future != Holding && s.future != FGone
  }

  const INIT := State(Sem.Init(2), 2, false, false, false, false, Live, Holding, 0)

  predicate Initial(s: State) {
    s == INIT
  }

  predicate StepsTo(s: State, a: Action, n: State) {
    Enabled(s, a) && Next(s, a) == n
  }

  ghost predicate Reachable(s: State) {
    |s.completion.threads| == 2 && Reached(Initial, StepsTo, s)
  }

  // ----- the invariant

  predicate PromiseShares(s: State) { s.promise != Delete && s.promise != Gone }
  predicate FutureShares(s: State) { s.future != FDelete && s.future != FGone }

  /** The count is the live shares; a side that leaves the other behind does not delete; the last
      one out deletes, once. */
  predicate Ownership(s: State) {
    && s.owners == (if PromiseShares(s) then 1 else 0) + (if FutureShares(s) then 1 else 0)
    && (s.owners > 0 ==> s.deletes == 0 && s.promise != Delete && s.future != FDelete)
    && (s.owners == 0 ==>
          || (s.deletes == 0 && s.promise == Delete && s.future == FGone)
          || (s.deletes == 0 && s.promise == Gone && s.future == FDelete)
          || (s.deletes == 1 && s.promise == Gone && s.future == FGone))
  }

  predicate SignalPc(pc: Sem.Pc) {
    pc == Sem.SigAdd(1) || pc.SigDeposit? || pc.SigLoad? || pc.SigWake? || pc == Sem.Idle
  }

  predicate WaitPc(pc: Sem.Pc) {
    pc == Sem.WaitSub || pc == Sem.WaitRegister || pc == Sem.WaitLoad || pc.WaitCas? || pc == Sem.WaitPark
    || pc == Sem.Asleep || pc == Sem.WaitLeave || pc == Sem.Idle
  }

  /** The promise is completed exactly when its one signal has been entered. */
  predicate Signalled(s: State) {
    && |s.completion.threads| == 2
    && var pc := s.completion.threads[PROMISE];
    && SignalPc(pc)
    && (!s.promise.Signalling? ==> pc == Sem.Idle)
    && (s.completed <==> s.completion.signalled == 1 || pc == Sem.SigAdd(1))
    && s.completion.signalled <= 1
    && (pc == Sem.SigAdd(1) ==> s.completion.signalled == 0)
    && (s.completed <==> s.hasValue || s.exception)
    && !(s.hasValue && s.exception)
    && (s.promise.Signalling? || s.promise == Release || s.promise == Delete || s.promise == Gone ==> s.completed)
    && (s.promise.Store? ==> !s.completed)
  }

  /** The future waits on the semaphore once, and remembers it. */
  predicate WaitedOnce(s: State) {
    && |s.completion.threads| == 2
    && var pc := s.completion.threads[FUTURE];
    && WaitPc(pc)
    && (!s.future.Waiting? ==> pc == Sem.Idle)
    && (s.waited || s.future.MarkWaited? || (s.future.Waiting? && pc == Sem.Idle) <==> s.completion.returned > 0)
    && (s.future == ReadResult || s.future == FRelease || s.future == FDelete || s.future == FGone ==> s.waited)
    && (s.future.Waiting? || s.future.MarkWaited? ==> !s.waited)
  }

  ghost predicate Inv(s: State) {
    && Sem.Inv(s.completion)
    && Ownership(s)
    && Signalled(s)
    && WaitedOnce(s)
  }

  lemma PromiseOwnership(s: State, throws: bool)
    requires Ownership(s) && |s.completion.threads| == 2
    ensures Ownership(PromiseNext(s, throws))
  {
  }

  lemma FutureOwnership(s: State)
    requires Ownership(s) && |s.completion.threads| == 2
    ensures Ownership(FutureNext(s))
  {
  }

  lemma OwnershipMoves(s: State, a: Action)
    requires Ownership(s) && |s.completion.threads| == 2 && (a.Call? ==> MayCall(s, a.op))
    ensures Ownership(Move(s, a))
  {
    match a
    case Call(_) =>
    case PromiseStep(throws, _) => PromiseOwnership(s, throws);
    case FutureStep(_) => FutureOwnership(s);
  }

  /** A step of `signal()`, seen from both threads. */
  lemma SignalSteps(q: Sem.State, b: Sem.Action)
    requires |q.threads| == 2 && Sem.Enabled(q, b) && b.t == PROMISE && SignalPc(q.threads[PROMISE])
    requires b.Call? ==> b.op == Sem.Signal(1)
    ensures var n := Sem.Next(q, b);
      && |n.threads| == 2 && SignalPc(n.threads[PROMISE])
      && (n.threads[PROMISE] == Sem.SigAdd(1) <==> b.Call?)
      && (n.threads[PROMISE] == Sem.Idle ==> b.Step?)
      && n.signalled == q.signalled + (if q.threads[PROMISE] == Sem.SigAdd(1) then 1 else 0)
      && n.returned == q.returned
      && n.threads[FUTURE] == (if Sem.Unparks(q, b) && b.victim == FUTURE then Sem.WaitLoad else q.threads[FUTURE])
  {
  }

  /** A step of `wait()`, seen from both threads. */
  lemma WaitSteps(q: Sem.State, b: Sem.Action)
    requires |q.threads| == 2 && Sem.Enabled(q, b) && b.t == FUTURE && WaitPc(q.threads[FUTURE])
    requires b.Call? ==> b.op == Sem.Wait
    ensures var n := Sem.Next(q, b);
      && |n.threads| == 2 && WaitPc(n.threads[FUTURE])
      && (n.threads[FUTURE] == Sem.Idle ==> b.Step?)
      && n.signalled == q.signalled
      && n.returned == q.returned + (if n.threads[FUTURE] == Sem.Idle then 1 else 0)
      && n.threads[PROMISE] == q.threads[PROMISE]
  {
  }

  /** The semaphore thread that runs is the side that acts. */
  lemma RunsItsOwnSide(s: State, a: Action)
    requires Enabled(s, a) && SemActionOf(s, a).Some?
    ensures var b := SemActionOf(s, a).b;
      && b.t == (if a.PromiseStep? then PROMISE else FUTURE) && !a.Call?
      && (b.Call? ==> b.op == if a.PromiseStep? then Sem.Signal(1) else Sem.Wait)
  {
  }

  lemma SemFieldsKept(s: State, a: Action)
    requires Signalled(s) && WaitedOnce(s) && Enabled(s, a)
    ensures Signalled(Next(s, a)) && WaitedOnce(Next(s, a))
  {
    if SemActionOf(s, a).Some? {
      RunsItsOwnSide(s, a);
      if a.PromiseStep? {
        SignalSteps(s.completion, SemActionOf(s, a).b);
        SignalledStep(s, a, Sem.Next(s.completion, SemActionOf(s, a).b));
      } else {
        WaitSteps(s.completion, SemActionOf(s, a).b);
        WaitedStep(s, a, Sem.Next(s.completion, SemActionOf(s, a).b));
      }
    } else {
      PlainStep(s, a);
    }
  }

  lemma PlainStep(s: State, a: Action)
    requires Signalled(s) && WaitedOnce(s) && Enabled(s, a) && SemActionOf(s, a) == None
    ensures Signalled(Move(s, a)) && WaitedOnce(Move(s, a))
  {
  }

  lemma SignalledStep(s: State, a: Action, q: Sem.State)
    requires Signalled(s) && WaitedOnce(s) && a.PromiseStep? && SemActionOf(s, a).Some?
    requires var b := SemActionOf(s, a).b;
      && |q.threads| == 2 && SignalPc(q.threads[PROMISE])
      && (q.threads[PROMISE] == Sem.SigAdd(1) <==> b.Call?)
      && q.signalled == s.completion.signalled + (if s.completion.threads[PROMISE] == Sem.SigAdd(1) then 1 else 0)
      && q.returned == s.completion.returned
      && (q.threads[FUTURE] == s.completion.threads[FUTURE]
          || (q.threads[FUTURE] == Sem.WaitLoad && s.completion.threads[FUTURE] == Sem.Asleep))
    ensures Signalled(Move(s, a).(completion := q)) && WaitedOnce(Move(s, a).(completion := q))
  {
  }

  lemma WaitedStep(s: State, a: Action, q: Sem.State)
    requires Signalled(s) && WaitedOnce(s) && a.FutureStep? && SemActionOf(s, a).Some?
    requires
      && |q.threads| == 2 && WaitPc(q.threads[FUTURE])
      && (q.threads[FUTURE] == Sem.Idle ==> SemActionOf(s, a).b.Step?)
      && q.signalled == s.completion.signalled
      && q.returned == s.completion.returned + (if q.threads[FUTURE] == Sem.Idle then 1 else 0)
      && q.threads[PROMISE] == s.completion.threads[PROMISE]
    ensures Signalled(Move(s, a).(completion := q)) && WaitedOnce(Move(s, a).(completion := q))
  {
  }

  lemma InvKept(s: State, a: Action)
    requires Inv(s) && Enabled(s, a)
    ensures Inv(Next(s, a))
  {
    OwnershipMoves(s, a);
    SemFieldsKept(s, a);
    if SemActionOf(s, a).Some? {
      Sem.InvKept(s.completion, SemActionOf(s, a).b);
    }
  }

  lemma InitialInv()
    ensures Inv(INIT)
  {
    Sem.InitialInv(INIT.completion);
  }

  lemma ReachableInv(s: State)
    requires Reachable(s)
    ensures Inv(s)
  {
    InitialInv();
    forall t, a, n | Inv(t) && StepsTo(t, a, n) ensures Inv(n) {
      InvKept(t, a);
    }
    ReachedInv(Initial, StepsTo, Inv, s);
  }

  // ----- what the slot guarantees

  /** No step of either side touches the slot after it was deleted, although `signal()` goes on
      after the wait it completes can return. */
  lemma NoUseAfterDelete(s: State, a: Action)
    requires Reachable(s) && Enabled(s, a) && Touches(s, a)
    ensures s.deletes == 0
  {
    ReachableInv(s);
  }

  /** The slot is deleted at most once, and has been exactly when both sides are done with it. */
  lemma DeletedOnce(s: State)
    requires Reachable(s)
    ensures s.deletes <= 1
    ensures s.deletes == 1 <==> s.promise == Gone && s.future == FGone
  {
    ReachableInv(s);
  }

  /** A wait or get is past its semaphore only when the promise is completed, with a value or with
      an exception and never both. */
  lemma WaitMeansCompleted(s: State)
    requires Reachable(s) && (s.waited || s.future.MarkWaited? || s.future == ReadResult)
    ensures s.completed && s.completion.signalled == 1 && (s.hasValue <==> !s.exception)
  {
    ReachableInv(s);
  }

  /** Completion is signalled at most once, and exactly once by the time the promise side is
      through with a completion or gone, which covers the abandoned promise. */
  lemma SignalledOnce(s: State)
    requires Reachable(s)
    ensures s.completion.signalled <= 1
    ensures s.promise == Release || s.promise == Delete || s.promise == Gone || (s.promise == Live && s.completed) ==>
              s.completion.signalled == 1 && s.completion.threads[PROMISE] == Sem.Idle
  {
    ReachableInv(s);
  }

  /** Dropped before it was completed, and not looked at yet. */
  predicate BreakingOff(s: State) { s.promise == CheckCompleted && !s.completed }

  /** Failed by the drop: completed, by the exception alone, and never live again. */
  predicate Broken(s: State) {
    && s.completed && s.exception && !s.hasValue
    && (s.promise == Signalling(true) || s.promise == Release || s.promise == Delete || s.promise == Gone)
  }

  ghost predicate OnTheWayOut(s: State) {
    Inv(s) && (BreakingOff(s) || Broken(s))
  }

  lemma OnTheWayOutKept(s: State, a: Action)
    requires OnTheWayOut(s) && Enabled(s, a)
    ensures OnTheWayOut(Next(s, a))
  {
    InvKept(s, a);
  }

  /** Dropping a promise that was never completed fails the future instead of leaving it blocked:
      whatever the future does meanwhile, by the time the promise is gone its one outcome is the
      exception, and that has been signalled. */
  lemma BrokenPromise(states: seq<State>, run: seq<Action>)
    requires IsRun(StepsTo, states, run) && Reachable(states[0]) && BreakingOff(states[0])
    ensures BreakingOff(states[|run|]) || Broken(states[|run|])
    ensures var s := states[|run|]; s.promise == Gone ==>
              s.completed && s.exception && !s.hasValue && s.completion.signalled == 1
  {
    ReachableInv(states[0]);
    forall s, a, n | OnTheWayOut(s) && StepsTo(s, a, n) ensures OnTheWayOut(n) {
      OnTheWayOutKept(s, a);
    }
    Kept(StepsTo, OnTheWayOut, states, run, |run|);
  }

  lemma SumOfTwo<T>(f: T -> nat, ts: seq<T>)
    requires |ts| == 2
    ensures Sum(f, ts) == f(ts[0]) + f(ts[1])
  {
    assert ts[..1] == [ts[0]] && ts[..1][..0] == [];
    assert Sum(f, ts[..1]) == Sum(f, ts[..1][..0]) + f(ts[0]);
  }

  lemma AsleepMeansNoToken(q: Sem.State)
    requires Sem.Inv(q) && |q.threads| == 2 && q.threads[PROMISE] == Sem.Idle && q.threads[FUTURE] == Sem.Asleep
    ensures q.signalled == q.returned
  {
    Sem.SettledInv(q);
    SumOfTwo(Sem.AsleepCount, q.threads);
    SumOfTwo(Sem.Leaving, q.threads);
  }

  /** Once the promise side has finished its signal, the future is not left parked. */
  lemma FutureNotStranded(s: State)
    requires Reachable(s) && s.completed && s.completion.threads[PROMISE] == Sem.Idle
    ensures s.completion.threads[FUTURE] != Sem.Asleep
  {
    ReachableInv(s);
    if s.completion.threads[FUTURE] == Sem.Asleep {
      AsleepMeansNoToken(s.completion);
    }
  }

  // ----- why one owner would not do

  lemma Leads(s: State, a: Action, n: State)
    requires Reachable(s) && Enabled(s, a) && Next(s, a) == n && |n.completion.threads| == 2
    ensures Reachable(n)
  {
    ReachedNext(Initial, StepsTo, s, a, n);
  }

  function Words(
    value: int, credits: nat, sleepers: nat, p: Sem.Pc, f: Sem.Pc, signalled: nat, returned: nat): Sem.State
  {
    Sem.State(value, credits, sleepers, [p, f], signalled, returned)
  }

  const F := FutureStep(false)
  const P := PromiseStep(false, 0)
  const WAITING := INIT.(future := Waiting(ToRelease), completion := Words(0, 0, 0, Sem.Idle, Sem.WaitSub, 0, 0))
  const ABOUT_TO_PARK := WAITING.(completion := Words(-1, 0, 1, Sem.Idle, Sem.WaitPark, 0, 0))
  const DEPOSITED := ABOUT_TO_PARK.(promise := Signalling(false), hasValue := true, completed := true,
    completion := Words(0, 1, 1, Sem.SigLoad(1), Sem.WaitPark, 1, 0))
  const FUTURE_GONE := DEPOSITED.(future := FGone, waited := true, owners := 1,
    completion := Words(0, 0, 0, Sem.SigLoad(1), Sem.Idle, 1, 1))

  /** A step of the wait whose effect on the semaphore is known. */
  lemma Waits(s: State, q: Sem.State)
    requires Reachable(s) && s.future.Waiting? && |q.threads| == 2
    requires s.completion.threads[FUTURE] != Sem.Idle && s.completion.threads[FUTURE] != Sem.Asleep
    requires !s.completion.threads[FUTURE].SigWake?
    requires q == Sem.Next(s.completion, Sem.Step(FUTURE, false, 0))
    ensures Reachable(s.(completion := q))
  {
    Leads(s, F, s.(completion := q));
  }

  lemma FutureComesFirst()
    ensures Reachable(ABOUT_TO_PARK)
  {
    var s := WAITING;
    assert IsRun<State, Action>(StepsTo, [INIT], []) && Initial([INIT][0]);
    Leads(INIT, Call(DropFuture), INIT.(future := CheckWaited(ToRelease)));
    Leads(INIT.(future := CheckWaited(ToRelease)), F, s);
    var q1, q2 := Words(-1, 0, 0, Sem.Idle, Sem.WaitRegister, 0, 0), Words(-1, 0, 1, Sem.Idle, Sem.WaitLoad, 0, 0);
    Waits(s, q1);
    Waits(s.(completion := q1), q2);
    Waits(s.(completion := q2), ABOUT_TO_PARK.completion);
  }

  lemma PromiseDeposits()
    ensures Reachable(DEPOSITED)
  {
    FutureComesFirst();
    var s := ABOUT_TO_PARK;
    var t := s.(promise := Signalling(false), hasValue := true, completed := true);
    var q1 := Words(-1, 0, 1, Sem.SigAdd(1), Sem.WaitPark, 0, 0);
    var q2 := Words(0, 0, 1, Sem.SigDeposit(1), Sem.WaitPark, 1, 0);
    Leads(s, Call(SetValue), s.(promise := Store(Value, false)));
    Leads(s.(promise := Store(Value, false)), P, t.(completion := q1));
    Leads(t.(completion := q1), P, t.(completion := q2));
    Leads(t.(completion := q2), P, DEPOSITED);
  }

  const RETURNED := DEPOSITED.(completion := Words(0, 0, 0, Sem.SigLoad(1), Sem.Idle, 1, 1))

  lemma FutureTakesCredit()
    ensures Reachable(RETURNED)
  {
    PromiseDeposits();
    var s := DEPOSITED;
    var q1 := Words(0, 1, 1, Sem.SigLoad(1), Sem.WaitLoad, 1, 0);
    var q2 := Words(0, 1, 1, Sem.SigLoad(1), Sem.WaitCas(1), 1, 0);
    var q3 := Words(0, 0, 1, Sem.SigLoad(1), Sem.WaitLeave, 1, 0);
    Waits(s, q1);
    Waits(s.(completion := q1), q2);
    Waits(s.(completion := q2), q3);
    Waits(s.(completion := q3), RETURNED.completion);
  }

  /** A future can wait, return and let go of the slot while `signal()` has yet to read
      `sleepers_` in it: had the future been the only owner, that read would be of freed memory. */
  lemma SignalOutlivesFuture()
    ensures exists s :: Reachable(s) && s.future == FGone && s.promise == Signalling(false)
              && s.completion.threads[PROMISE] == Sem.SigLoad(1) && Touches(s, PromiseStep(false, 0))
  {
    FutureTakesCredit();
    var s := RETURNED;
    Leads(s, F, s.(future := MarkWaited(ToRelease)));
    Leads(s.(future := MarkWaited(ToRelease)), F, s.(future := FRelease, waited := true));
    Leads(s.(future := FRelease, waited := true), F, FUTURE_GONE);
  }
}
