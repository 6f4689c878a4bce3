/** The methods of `future_state`, `promise` and `future` in the source's own form, with the other
    side at work between any two steps. Whatever it does, each method is a run of the machine of
    module FutureSlot. */
module FutureCode {
  import opened FutureSlot
  import opened Runs
  import opened Schedules

  /** What the other side does before a step, and whether that step fails or returns without cause. */
  datatype Interlude = Interlude(others: seq<Action>, spurious: bool)

  datatype Side = PromiseSide | FutureSide

  predicate IsOf(side: Side, a: Action) {
    match a
    case Call(op) => (side == FutureSide) == (op == Op.Wait || op == Get || op == DropFuture)
    case PromiseStep(_, _) => side == PromiseSide
    case FutureStep(_) => side == FutureSide
  }

  /** The other side leaves a side where it is; it can only move its semaphore thread from a park
      to the load behind it. */
  lemma SidesKept(s: State, a: Action)
    requires Inv(s) && Enabled(s, a)
    ensures |Next(s, a).completion.threads| == 2
    ensures IsOf(FutureSide, a) ==>
      && Next(s, a).promise == s.promise && Next(s, a).completed == s.completed
      && Next(s, a).hasValue == s.hasValue && Next(s, a).exception == s.exception
      && Next(s, a).completion.threads[PROMISE] == s.completion.threads[PROMISE]
    ensures IsOf(PromiseSide, a) ==>
      && Next(s, a).future == s.future && Next(s, a).waited == s.waited
      && WaitGoesOn(s.completion.threads[FUTURE], Next(s, a).completion.threads[FUTURE])
    ensures s.completed ==> Next(s, a).completed
    ensures IsOf(PromiseSide, a) && s.completed && s.completion.threads[PROMISE] == Sem.Idle ==>
      Next(s, a).completion == s.completion
  {
    if SemActionOf(s, a).Some? {
      RunsItsOwnSide(s, a);
      if a.PromiseStep? {
        SignalSteps(s.completion, SemActionOf(s, a).b);
      } else {
        WaitSteps(s.completion, SemActionOf(s, a).b);
      }
    }
  }

  /** Steps of `signal()` still to come, at most. */
  function SignalLeft(pc: Sem.Pc): nat {
    match pc
    case SigAdd(_) => 5
    case SigDeposit(k) => k + 3
    case SigLoad(k) => k + 2
    case SigWake(k) => k + 1
    case _ => 0
  }

  /** A step of `signal()` or `wait()` moves the semaphore alone. */
  lemma SignalMoves(s: State, victim: nat)
    requires Inv(s) && s.promise.Signalling? && s.completion.threads[PROMISE] != Sem.Idle
    requires victim == if s.completion.threads[FUTURE] == Sem.Asleep then FUTURE else PROMISE
    ensures Enabled(s, PromiseStep(false, victim))
    ensures Next(s, PromiseStep(false, victim)) ==
      s.(completion := Sem.Next(s.completion, Sem.Step(PROMISE, false, victim)))
    ensures
      var after := Sem.Next(s.completion, Sem.Step(PROMISE, false, victim)).threads;
      |after| == 2 && SignalLeft(after[PROMISE]) < SignalLeft(s.completion.threads[PROMISE])
  {
  }

  /** The store completes the promise and enters `signal()`. */
  lemma StoreMoves(s: State)
    requires Inv(s) && s.promise.Store?
    ensures Enabled(s, PromiseStep(false, 0))
    ensures Next(s, PromiseStep(false, 0)) ==
      s.(hasValue := s.promise.what == Value, exception := s.promise.what == Exception, completed := true,
         promise := Signalling(false), completion := Sem.Next(s.completion, Sem.Call(PROMISE, Sem.Signal(1))))
  {
  }

  lemma WaitMoves(s: State, spurious: bool)
    requires Inv(s) && s.future.Waiting? && s.completion.threads[FUTURE] != Sem.Idle
    requires s.completion.threads[FUTURE] == Sem.Asleep ==> spurious
    ensures Enabled(s, FutureStep(spurious))
    ensures Next(s, FutureStep(spurious)) == s.(completion := Sem.Next(s.completion, Sem.Step(FUTURE, spurious, 0)))
  {
  }

  /** Steps of `wait()` still to come, at most, until it has returned or is parked, when nobody disturbs. */
  function WaitLeft(s: Sem.State): nat
    requires |s.threads| == 2
  {
    match s.threads[FUTURE]
    case WaitLeave => 1
    case WaitCas(seen) => if seen > 0 && seen == s.credits then 2 else 3
    case WaitPark => if s.credits == 0 then 1 else 4
    case WaitLoad => 3
    case WaitRegister => 4
    case WaitSub => 5
    case _ => 0
  }

  lemma WaitStepCounts(s: Sem.State)
    requires |s.threads| == 2 && WaitLeft(s) > 0
    ensures var n := Sem.Next(s, Sem.Step(FUTURE, false, 0));
      |n.threads| == 2 && WaitLeft(n) < WaitLeft(s)
  {
  }

  /** From here on nobody disturbs, and nothing fails or returns without cause. */
  predicate Undisturbed(env: seq<Interlude>, from: nat) {
    forall i :: from <= i < |env| ==> env[i] == Interlude([], false)
  }

  predicate WaitGoesOn(before: Sem.Pc, after: Sem.Pc) {
    after == before || (before == Sem.Asleep && after == Sem.WaitLoad)
  }

  /** What the others make of a state: an action of theirs is taken if it can be. */
  function OthersTake(mine: Side, s: State, a: Action): State {
    if !IsOf(mine, a) && Enabled(s, a) then Next(s, a) else s
  }

  class Slot {
    /** The fields of `future_state`. */
    var completion: Sem.State
    var owners: nat
    var hasValue: bool
    var exception: bool
    var completed: bool
    var waited: bool
    /** Where the two sides stand, and how often the slot was deleted. */
    var promise: PromisePc
    var future: FuturePc
    var deletes: nat
    /** Every step since the slot was made, and the machine's states around them. */
    ghost var run: seq<Action>
    ghost var trace: seq<State>
    /** How many turns of the schedules have gone by. */
    ghost var turns: nat

    function Machine(): State
      reads this
    {
      State(completion, owners, hasValue, exception, completed, waited, promise, future, deletes)
    }

    ghost predicate History(last: State)
      reads this
    {
      && IsRun(StepsTo, trace, run) && Initial(trace[0])
      && trace[|run|] == last && |last.completion.threads| == 2
    }

    ghost predicate Valid()
      reads this
    {
      History(Machine())
    }

    /** `future::make`. */
    constructor ()
      ensures Valid() && promise == Live && future == Holding
    {
      completion := INIT.completion;
      owners, hasValue, exception, completed, waited := 2, false, false, false, false;
      promise, future, deletes := Live, Holding, 0;
      run, turns := [], 0;
      new;
      trace := [Machine()];
    }

    lemma ValidIsReachable()
      requires Valid()
      ensures Reachable(Machine()) && Inv(Machine())
    {
      ReachableInv(Machine());
    }

    /** Adds the step that has just led from `was` to the present state. */
    ghost method Record(was: State, a: Action)
      requires History(was) && Enabled(was, a) && Next(was, a) == Machine() && |completion.threads| == 2
      modifies `run, `trace
      ensures Valid() && run == old(run) + [a]
    {
      Extends(StepsTo, trace, run, a, Machine());
      run, trace := run + [a], trace + [Machine()];
    }

    /** The promise is completed, and its signal is through. */
    predicate Delivered()
      reads this
    {
      |completion.threads| == 2 && completed && completion.threads[PROMISE] == Sem.Idle
    }

    /** A step of the machine. */
    method Move(a: Action)
      requires Valid() && Enabled(Machine(), a) && |Next(Machine(), a).completion.threads| == 2
      modifies this
      ensures Valid() && run == old(run) + [a] && turns == old(turns)
      ensures Machine() == Next(old(Machine()), a)
    {
      ghost var was := Machine();
      var n := Next(Machine(), a);
      completion, owners, hasValue, exception, completed, waited, promise, future, deletes :=
        n.completion, n.owners, n.hasValue, n.exception, n.completed, n.waited, n.promise, n.future, n.deletes;
      Record(was, a);
    }

    method Other(mine: Side, a: Action)
      requires Valid() && Enabled(Machine(), a) && !IsOf(mine, a)
      modifies this
      ensures turns == old(turns)
      ensures Valid() && old(run) <= run
      ensures Stands(mine, old(Machine())) && (old(completed) ==> completed)
      ensures mine == FutureSide && old(Delivered()) ==> completion == old(completion) && Delivered()
      ensures Machine() == Next(old(Machine()), a)
    {
      ValidIsReachable();
      SidesKept(Machine(), a);
      Move(a);
    }

    /** The side is where it was. */
    predicate Stands(side: Side, before: State)
      requires |before.completion.threads| == 2 && |completion.threads| == 2
      reads this
    {
      match side
      case PromiseSide =>
        && promise == before.promise && completed == before.completed
        && hasValue == before.hasValue && exception == before.exception
        && completion.threads[PROMISE] == before.completion.threads[PROMISE]
      case FutureSide =>
        && future == before.future && waited == before.waited
        && WaitGoesOn(before.completion.threads[FUTURE], completion.threads[FUTURE])
    }

    /** The other side's steps; one that cannot be taken is passed over. */
    method Interfere(mine: Side, others: seq<Action>)
      requires Valid()
      modifies this
      ensures turns == old(turns) + 1
      ensures Valid() && old(run) <= run
      ensures Machine() == AfterTurn(OthersTake, mine, old(Machine()), others)
      ensures Stands(mine, old(Machine())) && (old(completed) ==> completed)
      ensures mine == FutureSide && old(Delivered()) ==> completion == old(completion) && Delivered()
      ensures others == [] ==> Machine() == old(Machine())
    {
      for k := 0 to |others|
        invariant Valid() && old(run) <= run && Stands(mine, old(Machine())) && (old(completed) ==> completed)
        invariant Machine() == AfterTurn(OthersTake, mine, old(Machine()), others[..k])
        invariant turns == old(turns)
        invariant mine == FutureSide && old(Delivered()) ==> completion == old(completion) && Delivered()
        invariant others == [] ==> Machine() == old(Machine())
      {
        AfterOne(OthersTake, mine, old(Machine()), others, k);
        if !IsOf(mine, others[k]) && Enabled(Machine(), others[k]) {
          Other(mine, others[k]);
        }
      }
      assert others[..|others|] == others;
      turns := turns + 1;
    }

    // ----- the promise

    /** The call of an operation. */
    method Enter(op: Op)
      requires Valid() && MayCall(Machine(), op)
      modifies this
      ensures turns == old(turns)
      ensures Valid() && old(run) <= run
      ensures Machine() == Entered(old(Machine()), op)
    {
      ghost var was := Machine();
      match op {
        case SetValue => promise := Store(Value, false);
        case SetException => promise := Store(Exception, false);
        case Run => promise := Store(Value, true);
        case DropPromise => promise := CheckCompleted;
        case Wait => future := CheckWaited(ToCaller);
        case Get => future := CheckWaited(ToGet);
        case DropFuture => future := CheckWaited(ToRelease);
      }
      Record(was, Call(op));
    }

    /** The result, the completion flag, and the entry of `completion_.signal()`. */
    method StoreAndSignal(what: Outcome, others: seq<Action>)
      requires Valid() && promise.Store? && promise.what == what
      modifies this
      ensures Valid() && old(run) <= run
      ensures promise == Signalling(false) && completed && completion.threads[PROMISE] == Sem.SigAdd(1)
      ensures if what == Value then hasValue else exception
    {
      Interfere(PromiseSide, others);
      ValidIsReachable();
      ghost var was := Machine();
      if what == Value {
        hasValue := true;
      } else {
        exception := true;
      }
      completed := true;
      completion := Sem.Next(completion, Sem.Call(PROMISE, Sem.Signal(1)));
      promise := Signalling(false);
      StoreMoves(was);
      Record(was, PromiseStep(false, 0));
    }

    /** The outcome is what it was. */
    predicate OutcomeOf(before: State)
      reads this
    {
      completed == before.completed && hasValue == before.hasValue && exception == before.exception
    }

    /** One step of `signal()`. */
    method SignalStep(others: seq<Action>)
      requires Valid() && promise.Signalling? && completion.threads[PROMISE] != Sem.Idle
      modifies this
      ensures Valid() && old(run) <= run
      ensures promise == old(promise) && OutcomeOf(old(Machine()))
      ensures SignalLeft(completion.threads[PROMISE]) < old(SignalLeft(completion.threads[PROMISE]))
    {
      Interfere(PromiseSide, others);
      ValidIsReachable();
      ghost var was := Machine();
      var victim := if completion.threads[FUTURE] == Sem.Asleep then FUTURE else PROMISE;
      SignalMoves(was, victim);
      completion := Sem.Next(completion, Sem.Step(PROMISE, false, victim));
      Record(was, PromiseStep(false, victim));
    }

    /** `signal()` to its end, and what follows it. */
    method RunSignal(env: seq<Interlude>, from: nat) returns (done: bool, k: nat)
      requires Valid() && promise.Signalling? && from <= |env|
      modifies this
      ensures Valid() && old(run) <= run
      ensures from <= k <= |env| && OutcomeOf(old(Machine()))
      ensures promise == (if !done then old(promise) else if old(promise).dropping then Release else Live)
      ensures var left := old(SignalLeft(completion.threads[PROMISE]));
        |env| > from + left ==> done && k <= from + 1 + left
    {
      k := from;
      while k < |env|
        invariant Valid() && old(run) <= run && from <= k <= |env|
        invariant promise == old(promise) && OutcomeOf(old(Machine()))
        invariant k + SignalLeft(completion.threads[PROMISE]) <= from + old(SignalLeft(completion.threads[PROMISE]))
      {
        if completion.threads[PROMISE] == Sem.Idle {
          EndSignal(env[k].others);
          return true, k + 1;
        }
        SignalStep(env[k].others);
        k := k + 1;
      }
      done := false;
    }

    method EndSignal(others: seq<Action>)
      requires Valid() && promise.Signalling? && completion.threads[PROMISE] == Sem.Idle
      modifies this
      ensures Valid() && old(run) <= run
      ensures promise == (if old(promise).dropping then Release else Live) && OutcomeOf(old(Machine()))
    {
      Interfere(PromiseSide, others);
      ghost var was := Machine();
      promise := if promise.dropping then Release else Live;
      Record(was, PromiseStep(false, 0));
    }

    /** The work, or the construction of the value, throws. */
    method Throw(others: seq<Action>)
      requires Valid() && promise.Store? && promise.what == Value
      modifies this
      ensures Valid() && old(run) <= run
      ensures promise == (if old(promise).inRun then Store(Exception, false) else Live) && completed == old(completed)
    {
      Interfere(PromiseSide, others);
      ghost var was := Machine();
      promise := if promise.inRun then Store(Exception, false) else Live;
      Record(was, PromiseStep(true, 0));
    }

    /** The promise is completed, by exactly this outcome. */
    predicate CompletedBy(what: Outcome)
      reads this
    {
      completed && (hasValue <==> what == Value) && (exception <==> what == Exception)
    }

    /** Between operations of the promise no signal is under way. */
    lemma LiveIsThrough()
      requires Valid() && (promise == Live || promise == Gone)
      ensures completion.threads[PROMISE] == Sem.Idle
    {
      ValidIsReachable();
    }

    lemma OneOutcome()
      requires Valid() && completed
      ensures if hasValue then CompletedBy(Value) else CompletedBy(Exception)
    {
      ValidIsReachable();
    }

    /** `set_value`. The promise never waits for the future: a few steps see it through. A
        constructor that throws leaves the promise uncompleted. */
    method SetValue(throws: bool, env: seq<Interlude>) returns (done: bool)
      requires Valid() && promise == Live && !completed
      modifies this
      ensures Valid() && old(run) <= run
      ensures done ==> promise == Live && (completed <==> !throws) && (!throws ==> CompletedBy(Value))
      ensures |env| >= 7 ==> done
      ensures done && completed ==> Delivered()
    {
      Enter(Op.SetValue);
      if env == [] { return false; }
      if throws {
        Throw(env[0].others);
        return true;
      }
      StoreAndSignal(Value, env[0].others);
      done := Finish(Value, env, 1);
    }

    /** The rest of a completion. */
    method Finish(what: Outcome, env: seq<Interlude>, from: nat) returns (done: bool)
      requires Valid() && promise == Signalling(false) && completed && from <= |env|
      requires if what == Value then hasValue else exception
      requires completion.threads[PROMISE] == Sem.SigAdd(1)
      modifies this
      ensures Valid() && old(run) <= run
      ensures done ==> promise == Live && CompletedBy(what)
      ensures |env| > from + 5 ==> done
      ensures done ==> Delivered()
    {
      var k;
      done, k := RunSignal(env, from);
      OneOutcome();
      if done {
        LiveIsThrough();
      }
    }

    /** `set_exception`. */
    method SetException(env: seq<Interlude>) returns (done: bool)
      requires Valid() && promise == Live && !completed
      modifies this
      ensures Valid() && old(run) <= run
      ensures done ==> promise == Live && CompletedBy(Exception)
      ensures |env| >= 7 ==> done
      ensures done && completed ==> Delivered()
    {
      Enter(Op.SetException);
      if env == [] { return false; }
      StoreAndSignal(Exception, env[0].others);
      done := Finish(Exception, env, 1);
    }

    /** `run`: whether the work returns or throws, the promise is completed. */
    method Run(throws: bool, env: seq<Interlude>) returns (done: bool)
      requires Valid() && promise == Live && !completed
      modifies this
      ensures Valid() && old(run) <= run
      ensures done ==> promise == Live && CompletedBy(if throws then Exception else Value)
      ensures |env| >= 8 ==> done
      ensures done && completed ==> Delivered()
    {
      Enter(Op.Run);
      if |env| < 2 { return false; }
      if throws {
        Throw(env[0].others);
        StoreAndSignal(Exception, env[1].others);
        done := Finish(Exception, env, 2);
      } else {
        StoreAndSignal(Value, env[0].others);
        done := Finish(Value, env, 1);
      }
    }

    /** `abandon`, up to the release: a promise never completed is failed. */
    method FailIfUncompleted(others: seq<Action>)
      requires Valid() && promise == CheckCompleted
      modifies this
      ensures Valid() && old(run) <= run
      ensures completed && (promise == Release || promise == Signalling(true))
      ensures old(completed) ==> OutcomeOf(old(Machine()))
      ensures !old(completed) ==> exception && !hasValue
      ensures promise == Signalling(true) ==> completion.threads[PROMISE] == Sem.SigAdd(1)
    {
      Interfere(PromiseSide, others);
      ValidIsReachable();
      ghost var was := Machine();
      if completed {
        promise := Release;
      } else {
        exception, completed := true, true;
        completion := Sem.Next(completion, Sem.Call(PROMISE, Sem.Signal(1)));
        promise := Signalling(true);
      }
      Record(was, PromiseStep(false, 0));
    }

    /** `release`, by the promise. */
    method ReleasePromise(others: seq<Action>) returns (last: bool)
      requires Valid() && promise == Release
      modifies this
      ensures Valid() && old(run) <= run
      ensures promise == (if last then Delete else Gone) && OutcomeOf(old(Machine()))
    {
      Interfere(PromiseSide, others);
      ValidIsReachable();
      ghost var was := Machine();
      last := owners == 1;
      owners := owners - 1;
      promise := if last then Delete else Gone;
      Record(was, PromiseStep(false, 0));
    }

    method DeletePromise(others: seq<Action>)
      requires Valid() && promise == Delete
      modifies this
      ensures Valid() && old(run) <= run
      ensures promise == Gone && OutcomeOf(old(Machine()))
    {
      Interfere(PromiseSide, others);
      ghost var was := Machine();
      deletes := deletes + 1;
      promise := Gone;
      Record(was, PromiseStep(false, 0));
    }

    /** `release`, and the deletion if the promise was the last owner. */
    method GiveUpPromise(env: seq<Interlude>, from: nat) returns (done: bool)
      requires Valid() && promise == Release && from <= |env|
      modifies this
      ensures Valid() && old(run) <= run
      ensures done ==> promise == Gone && OutcomeOf(old(Machine()))
      ensures done <==> from + 2 <= |env|
    {
      if from + 2 > |env| { return false; }
      var last := ReleasePromise(env[from].others);
      if last {
        DeletePromise(env[from + 1].others);
      }
      return true;
    }

    /** Dropping the promise. Whoever drops it, the future has an outcome to find, and a promise
        dropped uncompleted leaves it the broken-promise exception. */
    method Abandon(env: seq<Interlude>) returns (done: bool)
      requires Valid() && promise == Live
      modifies this
      ensures Valid() && old(run) <= run
      ensures done ==> promise == Gone && completed
      ensures done && old(completed) ==> OutcomeOf(old(Machine()))
      ensures done && !old(completed) ==> CompletedBy(Exception)
      ensures |env| >= 9 ==> done
      ensures done ==> Delivered()
    {
      Enter(Op.DropPromise);
      if env == [] { return false; }
      FailIfUncompleted(env[0].others);
      var k := 1;
      if promise == Signalling(true) {
        done, k := RunSignal(env, k);
        if !done { return; }
      }
      done := GiveUpPromise(env, k);
      if done {
        LiveIsThrough();
      }
    }

    // ----- the future

    /** The test of `waited_`, and the entry of `completion_.wait()`. */
    method BeginWait(next: After, others: seq<Action>)
      requires Valid() && future == CheckWaited(next)
      modifies this
      ensures turns == old(turns) + 1
      ensures Valid() && old(run) <= run
      ensures future == (if old(waited) then Waited(next) else Waiting(next)) && waited == old(waited)
      ensures old(Delivered()) && !old(waited) ==>
        Delivered() && completion.value == old(completion.value) && completion.threads[FUTURE] == Sem.WaitSub
    {
      Interfere(FutureSide, others);
      ValidIsReachable();
      ghost var was := Machine();
      if waited {
        future := Waited(next);
      } else {
        completion := Sem.Next(completion, Sem.Call(FUTURE, Sem.Wait));
        future := Waiting(next);
      }
      Record(was, FutureStep(false));
    }

    /** The next atomic operation of `wait()`. */
    method StepOn(spurious: bool)
      requires Valid() && future.Waiting? && completion.threads[FUTURE] != Sem.Idle
      requires completion.threads[FUTURE] == Sem.Asleep ==> spurious
      modifies this
      ensures turns == old(turns)
      ensures Valid() && old(run) <= run && future == old(future)
      ensures completion == old(Sem.Next(completion, Sem.Step(FUTURE, spurious, 0)))
      ensures Machine() == old(Machine()).(completion := completion)
    {
      ValidIsReachable();
      ghost var was := Machine();
      WaitMoves(was, spurious);
      completion := Sem.Next(completion, Sem.Step(FUTURE, spurious, 0));
      Record(was, FutureStep(spurious));
    }

    /** One step of `wait()`; a parked wait takes one only when it returns without cause. */
    method WaitStep(around: Interlude)
      requires Valid() && future.Waiting? && completion.threads[FUTURE] != Sem.Idle
      modifies this
      ensures turns == old(turns) + 1
      ensures Valid() && old(run) <= run
      ensures future == old(future)
      ensures old(Delivered()) && old(completion.value) > 0 && old(completion.threads[FUTURE]) == Sem.WaitSub ==>
        Delivered() && completion.threads[FUTURE] == Sem.Idle
      ensures around == Interlude([], false) && old(completion.threads[FUTURE]) == Sem.Asleep ==>
        completion == old(completion)
      ensures around == Interlude([], false) && old(WaitLeft(completion)) > 0 ==>
        WaitLeft(completion) < old(WaitLeft(completion))
    {
      Interfere(FutureSide, around.others);
      if WaitLeft(completion) > 0 {
        WaitStepCounts(completion);
      }
      if completion.threads[FUTURE] != Sem.Asleep || around.spurious {
        StepOn(around.spurious);
      }
    }

    /** Inside `wait()` the future's thread is at one of its steps. */
    lemma IsInWait()
      requires Valid() && future.Waiting?
      ensures var pc := completion.threads[FUTURE];
        pc == Sem.Idle || pc == Sem.Asleep || WaitLeft(completion) > 0
    {
      ValidIsReachable();
    }

    method MarkWait(next: After, others: seq<Action>)
      requires Valid() && future == MarkWaited(next)
      modifies this
      ensures turns == old(turns) + 1
      ensures Valid() && old(run) <= run
      ensures future == Waited(next) && waited
    {
      Interfere(FutureSide, others);
      ghost var was := Machine();
      waited := true;
      future := Waited(next);
      Record(was, FutureStep(false));
    }

    method EndWait(next: After, others: seq<Action>)
      requires Valid() && future == Waiting(next) && completion.threads[FUTURE] == Sem.Idle
      modifies this
      ensures turns == old(turns) + 1
      ensures Valid() && old(run) <= run
      ensures future == MarkWaited(next)
    {
      Interfere(FutureSide, others);
      ghost var was := Machine();
      future := MarkWaited(next);
      Record(was, FutureStep(false));
    }

    /** `completion_.wait()` to its end. */
    method RunWait(next: After, env: seq<Interlude>, from: nat, ghost calm: nat) returns (done: bool, k: nat)
      requires Valid() && future == Waiting(next) && from <= |env|
      modifies this
      ensures turns == old(turns) + (k - from) && (!done ==> k == |env|)
      ensures Valid() && old(run) <= run
      ensures from <= k <= |env| && future == if done then MarkWaited(next) else Waiting(next)
      ensures old(Delivered()) && old(completion.value) > 0 && old(completion.threads[FUTURE]) == Sem.WaitSub ==>
        from + 2 <= |env| ==> done && k == from + 2
      ensures Undisturbed(env, calm) ==>
        if done then k <= Latest(from, calm) + 7
        else completion.threads[FUTURE] == Sem.Asleep || |env| <= Latest(from, calm) + 6
    {
      k := from;
      while k < |env|
        invariant Valid() && old(run) <= run && from <= k <= |env| && future == Waiting(next)
        invariant turns == old(turns) + (k - from)
        invariant old(Delivered()) && old(completion.value) > 0 && old(completion.threads[FUTURE]) == Sem.WaitSub ==>
          || (k == from && completion == old(completion) && Delivered())
          || (k == from + 1 && completion.threads[FUTURE] == Sem.Idle)
        invariant Undisturbed(env, calm) && completion.threads[FUTURE] != Sem.Asleep ==>
          k <= Latest(from, calm) || k + WaitLeft(completion) <= Latest(from, calm) + 6
      {
        if completion.threads[FUTURE] == Sem.Idle {
          EndWait(next, env[k].others);
          return true, k + 1;
        }
        IsInWait();
        WaitStep(env[k]);
        k := k + 1;
      }
      done := false;
    }

    /** A delivered completion is a token for the one wait. */
    lemma TokenIsThere(next: After)
      requires Valid() && future == CheckWaited(next)
      ensures Delivered() && !waited ==> completion.value == 1
    {
      ValidIsReachable();
      SumOfTwo(Sem.Debt, completion.threads);
      SumOfTwo(Sem.Leaving, completion.threads);
      SumOfTwo(Sem.Transit, completion.threads);
    }

    /** `wait()` of the slot, on behalf of the operation that goes on with `next`. */
    method WaitThen(next: After, env: seq<Interlude>, ghost calm: nat) returns (done: bool, k: nat)
      requires Valid() && future == CheckWaited(next)
      modifies this
      ensures turns == old(turns) + k && (!done ==> k == |env|)
      ensures Valid() && old(run) <= run
      ensures k <= |env| && (done ==> future == Waited(next) && waited && completed)
      ensures |env| >= 4 && old(Delivered()) ==> done && k <= 4
      ensures old(waited) && env != [] ==> done && k == 1
      ensures Undisturbed(env, calm) && calm + 10 <= |env| ==>
        if done then k <= calm + 9 else completion.threads[FUTURE] == Sem.Asleep
    {
      if env == [] { return false, 0; }
      TokenIsThere(next);
      BeginWait(next, env[0].others);
      k := 1;
      if future == Waiting(next) {
        done, k := RunWait(next, env, k, calm);
        if !done || k == |env| { return false, k; }
        MarkWait(next, env[k].others);
        k := k + 1;
      }
      WaitedIsCompleted(next);
      done := true;
    }

    lemma WaitedIsCompleted(next: After)
      requires Valid() && (waited || (future == Waited(next) && next != ToCaller))
      ensures waited && completed
    {
      ValidIsReachable();
      WaitMeansCompleted(Machine());
    }

    /** `wait`: it returns only when the promise is completed, at once when that is delivered, and in
        one step once the future has waited before; and whatever came before, left alone for ten steps
        it has returned or is parked. */
    method Wait(env: seq<Interlude>) returns (done: bool)
      requires Valid() && future == Holding
      modifies this
      ensures !done ==> turns == old(turns) + |env|
      ensures Valid() && old(run) <= run
      ensures done ==> future == Holding && waited && completed
      ensures |env| >= 4 && old(Delivered()) ==> done
      ensures old(waited) && env != [] ==> done
      ensures |env| >= 10 && Undisturbed(env, |env| - 10) ==> done || completion.threads[FUTURE] == Sem.Asleep
    {
      Enter(Op.Wait);
      var k;
      done, k := WaitThen(ToCaller, env, CalmFrom(10, env));
    }

    /** The result is taken out of the slot. */
    method TakeOutcome(others: seq<Action>) returns (outcome: Outcome)
      requires Valid() && future == Waited(ToGet) && waited && completed
      modifies this
      ensures turns == old(turns) + 1
      ensures Valid() && old(run) <= run
      ensures future == Holding && waited && CompletedBy(outcome)
    {
      Interfere(FutureSide, others);
      ghost var was := Machine();
      outcome := if exception then Exception else Value;
      future := Holding;
      Record(was, FutureStep(false));
      OneOutcome();
    }

    /** `get`: the outcome the promise was completed by. */
    method Get(env: seq<Interlude>) returns (done: bool, outcome: Outcome)
      requires Valid() && future == Holding
      modifies this
      ensures !done ==> turns == old(turns) + |env|
      ensures Valid() && old(run) <= run
      ensures done ==> future == Holding && waited && CompletedBy(outcome)
      ensures |env| >= 5 && old(Delivered()) ==> done
      ensures old(waited) && |env| >= 2 ==> done
      ensures |env| >= 10 && Undisturbed(env, |env| - 10) ==> done || completion.threads[FUTURE] == Sem.Asleep
    {
      var k;
      Enter(Op.Get);
      outcome := Value;
      done, k := WaitThen(ToGet, env, CalmFrom(10, env));
      if !done || k == |env| { return false, outcome; }
      outcome := TakeOutcome(env[k].others);
      return true, outcome;
    }

    /** `release`, by the future. */
    method ReleaseFuture(others: seq<Action>) returns (last: bool)
      requires Valid() && future == FRelease
      modifies this
      ensures turns == old(turns) + 1
      ensures Valid() && old(run) <= run
      ensures future == if last then FDelete else FGone
      ensures old(completed) ==> completed
    {
      Interfere(FutureSide, others);
      ValidIsReachable();
      ghost var was := Machine();
      last := owners == 1;
      owners := owners - 1;
      future := if last then FDelete else FGone;
      Record(was, FutureStep(false));
    }

    method DeleteFuture(others: seq<Action>)
      requires Valid() && future == FDelete
      modifies this
      ensures turns == old(turns) + 1
      ensures Valid() && old(run) <= run
      ensures future == FGone
      ensures old(completed) ==> completed
    {
      Interfere(FutureSide, others);
      ghost var was := Machine();
      deletes := deletes + 1;
      future := FGone;
      Record(was, FutureStep(false));
    }

    /** `release`, and the deletion if the future was the last owner. */
    method GiveUpFuture(env: seq<Interlude>, from: nat) returns (done: bool)
      requires Valid() && future == FRelease && completed && from <= |env|
      modifies this
      ensures !done ==> turns == old(turns)
      ensures Valid() && old(run) <= run
      ensures done ==> future == FGone && completed && (deletes == 1 <==> promise == Gone)
      ensures done <==> from + 2 <= |env|
    {
      if from + 2 > |env| { return false; }
      var last := ReleaseFuture(env[from].others);
      if last {
        DeleteFuture(env[from + 1].others);
      }
      ValidIsReachable();
      DeletedOnce(Machine());
      done := true;
    }

    /** `future::release`: it waits, lets go of its share, and deletes the slot if the promise is
        through with it. */
    method LetGo(env: seq<Interlude>) returns (done: bool)
      requires Valid() && future == Holding
      modifies this
      ensures !done ==> turns + 1 >= old(turns) + |env|
      ensures Valid() && old(run) <= run
      ensures done ==> future == FGone && completed && (deletes == 1 <==> promise == Gone)
      ensures |env| >= 6 && old(Delivered()) ==> done
      ensures old(waited) && |env| >= 3 ==> done
      ensures |env| >= 12 && Undisturbed(env, |env| - 12) ==> done || completion.threads[FUTURE] == Sem.Asleep
    {
      var k;
      Enter(Op.DropFuture);
      done, k := WaitThen(ToRelease, env, CalmFrom(12, env));
      if done {
        done := GiveUpFuture(env, k);
      }
    }
  }
}
