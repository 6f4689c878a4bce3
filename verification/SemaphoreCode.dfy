/** The methods of the futex semaphore in the source's own form, with other threads at work between
    any two atomic operations. Whatever those do, each method is a run of the machine of module
    Semaphore, so all that holds of its reachable states holds here. */
module SemaphoreCode {
  import opened Runs
  import opened Schedules
  import opened Semaphore
  import opened Tally

  /** What happens around one atomic operation: the steps other threads take before it, and whether
      it fails (a weak compare-exchange) or returns (a wait) without cause. */
  datatype Interlude = Interlude(others: seq<Action>, spurious: bool)

  /** `Pending`: still inside when the schedule ends. */
  datatype Outcome = Completed | Pending

  /** Nobody disturbs the first `k` atomic operations. */
  predicate UndisturbedFor(k: nat, env: seq<Interlude>) {
    |env| >= k && forall i :: 0 <= i < k ==> env[i] == Interlude([], false)
  }

  /** The history counts decide nothing. */
  lemma WordsDecide(s: State, a: Action)
    requires a.t < |s.threads|
    ensures var u := s.(signalled := 0, returned := 0); var m, n := Next(u, a), Next(s, a);
      && (Enabled(u, a) <==> Enabled(s, a))
      && m.value == n.value && m.credits == n.credits && m.sleepers == n.sleepers && m.threads == n.threads
    ensures
      var ts := Next(s, a).threads;
      && |ts| == |s.threads|
      && forall i :: 0 <= i < |ts| && i != a.t && ts[i] != s.threads[i] ==>
           s.threads[i] == Asleep && ts[i] == WaitLoad
  {
  }

  lemma ReturnsGrow(s: State, a: Action)
    requires a.t < |s.threads|
    ensures s.returned <= Next(s, a).returned
  {
  }

  lemma OneFewerAsleep(ts: seq<Pc>, t: nat, pc: Pc, v: nat)
    requires t < |ts| && v < |ts| && ts[v] == Asleep && ts[t] != Asleep && pc != Asleep
    ensures Sum(AsleepCount, ts[t := pc][v := WaitLoad]) == Sum(AsleepCount, ts) - 1
  {
    Updated(AsleepCount, ts, t, pc);
    Updated(AsleepCount, ts[t := pc], v, WaitLoad);
  }

  /** The unpark of sleeper v. */
  lemma UnparkMoves(s: State, t: nat, v: nat)
    requires t < |s.threads| && s.threads[t].SigWake? && s.threads[t].k > 0 && v < |s.threads| && s.threads[v] == Asleep
    ensures StepsTo(s, Step(t, false, v), s.(threads := s.threads[t := SigWake(s.threads[t].k - 1)][v := WaitLoad]))
  {
  }

  /** From here on nobody disturbs, and nothing fails or returns without cause. */
  predicate Undisturbed(env: seq<Interlude>, from: nat) {
    forall i :: from <= i < |env| ==> env[i] == Interlude([], false)
  }

  /** The three words and the two history counts. */
  datatype Counts = Counts(value: int, credits: nat, sleepers: nat, signalled: nat, returned: nat)

  /** What the others make of a state: an action of theirs is taken if it can be. */
  function OthersTake(me: nat, s: State, a: Action): State {
    if a.t != me && Enabled(s, a) then Next(s, a) else s
  }

  class Sem {
    /** `value_`, `credits_` and `sleepers_`. */
    var value: int
    var credits: nat
    var sleepers: nat
    /** Where every thread stands, the callers of the methods below included. */
    var threads: seq<Pc>
    /** Tokens signalled and waits returned so far. */
    ghost var signalled: nat
    ghost var returned: nat
    /** Every step since construction, and the machine's states around them. */
    ghost var run: seq<Action>
    ghost var trace: seq<State>
    /** How many turns of the schedules have gone by. */
    ghost var turns: nat

    ghost function Machine(): State
      reads this
    {
      State(value, credits, sleepers, threads, signalled, returned)
    }

    ghost function Now(): Counts
      reads this
    {
      Counts(value, credits, sleepers, signalled, returned)
    }

    /** How many threads sleep. */
    ghost function Sleepers(): nat
      reads this
    {
      Sum(AsleepCount, threads)
    }

    ghost predicate Valid()
      reads this
    {
      IsRun(StepsTo, trace, run) && Initial(trace[0]) && trace[|run|] == Machine()
    }

    constructor (n: nat)
      ensures Valid() && |threads| == n && run == [] && value == credits == sleepers == 0
    {
      value, credits, sleepers := 0, 0, 0;
      threads := seq(n, i => Idle);
      signalled, returned := 0, 0;
      run, turns := [], 0;
      new;
      trace := [Machine()];
    }

    /** A valid semaphore is in a state the machine can reach. */
    lemma ValidIsReachable()
      requires Valid()
      ensures Reachable(Machine())
    {
    }

    /** No wait has returned without a token of its own. */
    lemma TokensCover()
      requires Valid()
      ensures returned <= signalled
    {
      ValidIsReachable();
      Conservation(Machine());
    }

    /** One atomic operation of thread `t`: the three words, and where the thread goes. */
    method Commit(t: nat, v: int, c: nat, s: nat, self: Pc, ghost a: Action)
      requires Valid() && a.t == t && Enabled(Machine(), a) && !Unparks(Machine(), a)
      requires var e := EffectOf(Machine(), a); e.value == v && e.credits == c && e.sleepers == s && e.self == self
      modifies this
      ensures turns == old(turns)
      ensures Valid() && run == old(run) + [a]
      ensures value == v && credits == c && sleepers == s && threads == old(threads)[t := self]
      ensures signalled == old(EffectOf(Machine(), a).signalled) && returned == old(EffectOf(Machine(), a).returned)
    {
      ghost var n := Next(Machine(), a);
      Extends(StepsTo, trace, run, a, n);
      value, credits, sleepers, threads := v, c, s, threads[t := self];
      signalled, returned, run, trace := n.signalled, n.returned, run + [a], trace + [n];
    }

    /** The other threads' steps; one that cannot be taken is passed over. They can do nothing to
        `me` but wake it. */
    method Interfere(me: nat, others: seq<Action>)
      requires Valid() && me < |threads|
      modifies this
      ensures turns == old(turns) + 1
      ensures Valid() && old(run) <= run && |threads| == |old(threads)|
      ensures Machine() == AfterTurn(OthersTake, me, old(Machine()), others)
      ensures threads[me] == old(threads[me]) || (old(threads[me]) == Asleep && threads[me] == WaitLoad)
      ensures others == [] ==> Now() == old(Now()) && threads == old(threads)
      ensures old(returned) <= returned
    {
      for k := 0 to |others|
        invariant Valid() && old(run) <= run && |threads| == |old(threads)|
        invariant Machine() == AfterTurn(OthersTake, me, old(Machine()), others[..k])
        invariant turns == old(turns)
        invariant threads[me] == old(threads[me]) || (old(threads[me]) == Asleep && threads[me] == WaitLoad)
        invariant k == 0 ==> Now() == old(Now()) && threads == old(threads)
        invariant old(returned) <= returned
      {
        AfterOne(OthersTake, me, old(Machine()), others, k);
        var a := others[k];
        if a.t != me && a.t < |threads| {
          Other(me, a);
        }
      }
      assert others[..|others|] == others;
      turns := turns + 1;
    }

    method Other(me: nat, a: Action)
      requires Valid() && me < |threads| && a.t != me && a.t < |threads|
      modifies this
      ensures turns == old(turns)
      ensures Valid() && old(run) <= run && |threads| == |old(threads)|
      ensures threads[me] == old(threads[me]) || (old(threads[me]) == Asleep && threads[me] == WaitLoad)
      ensures old(returned) <= returned
      ensures Machine() == old(if Enabled(Machine(), a) then Next(Machine(), a) else Machine())
    {
      var s := State(value, credits, sleepers, threads, 0, 0);
      WordsDecide(Machine(), a);
      ReturnsGrow(Machine(), a);
      if Enabled(s, a) {
        var n := Next(s, a);
        ghost var next := Next(Machine(), a);
        value, credits, sleepers, threads := n.value, n.credits, n.sleepers, n.threads;
        signalled, returned, run, trace := next.signalled, next.returned, run + [a], trace + [next];
      }
    }

    /** The call of an operation. */
    method Enter(me: nat, op: Op)
      requires Valid() && me < |threads| && threads[me] == Idle
      modifies this
      ensures turns == old(turns)
      ensures Valid() && old(run) <= run && threads == old(threads)[me := Entered(op)]
      ensures Now() == old(Now())
    {
      Commit(me, value, credits, sleepers, Entered(op), Call(me, op));
    }

    // ----- signal

    method AddTokens(me: nat, count: nat, others: seq<Action>) returns (before: int)
      requires Valid() && me < |threads| && threads[me] == SigAdd(count)
      modifies this
      ensures Valid() && old(run) <= run && |threads| == |old(threads)|
      ensures threads[me] == if before >= 0 then Idle else SigDeposit(Min(-before, count))
      ensures others == [] ==>
        && before == old(value) && threads == old(threads)[me := threads[me]]
        && Sleepers() == old(Sleepers())
        && Now() == old(Now()).(value := old(value) + count, signalled := old(signalled) + count)
    {
      Interfere(me, others);
      before := value;
      Updated(AsleepCount, threads, me, if before >= 0 then Idle else SigDeposit(Min(-before, count)));
      var self := if before >= 0 then Idle else SigDeposit(Min(-before, count));
      Commit(me, value + count, credits, sleepers, self, Step(me, false, 0));
    }

    method Deposit(me: nat, k: nat, others: seq<Action>)
      requires Valid() && me < |threads| && threads[me] == SigDeposit(k)
      modifies this
      ensures Valid() && old(run) <= run && |threads| == |old(threads)|
      ensures threads[me] == SigLoad(k)
      ensures others == [] ==>
        Now() == old(Now()).(credits := old(credits) + k) && Sleepers() == old(Sleepers())
    {
      Interfere(me, others);
      Updated(AsleepCount, threads, me, SigLoad(k));
      Commit(me, value, credits + k, sleepers, SigLoad(k), Step(me, false, 0));
    }

    method LoadSleepers(me: nat, k: nat, others: seq<Action>) returns (wakes: bool)
      requires Valid() && me < |threads| && threads[me] == SigLoad(k)
      modifies this
      ensures Valid() && old(run) <= run && |threads| == |old(threads)|
      ensures threads[me] == if wakes then SigWake(k) else Idle
      ensures others == [] ==>
        Now() == old(Now()) && Sleepers() == old(Sleepers()) && wakes == (old(sleepers) != 0)
    {
      Interfere(me, others);
      wakes := sleepers != 0;
      Updated(AsleepCount, threads, me, if wakes then SigWake(k) else Idle);
      Commit(me, value, credits, sleepers, if wakes then SigWake(k) else Idle, Step(me, false, 0));
    }

    /** Sleeper `v` leaves the queue. */
    method UnparkThis(me: nat, k: nat, v: nat)
      requires Valid() && me < |threads| && threads[me] == SigWake(k) && k > 0
      requires v < |threads| && threads[v] == Asleep
      modifies this
      ensures Valid() && old(run) <= run && |threads| == |old(threads)|
      ensures threads[me] == SigWake(k - 1) && Now() == old(Now())
      ensures Sleepers() == old(Sleepers()) - 1
    {
      OneFewerAsleep(threads, me, SigWake(k - 1), v);
      UnparkMoves(Machine(), me, v);
      threads := threads[me := SigWake(k - 1)][v := WaitLoad];
      Extends(StepsTo, trace, run, Step(me, false, v), Machine());
      run, trace := run + [Step(me, false, v)], trace + [Machine()];
    }

    /** One unpark of `wake`: some sleeper, if there is one. */
    method Unpark(me: nat, k: nat, others: seq<Action>)
      requires Valid() && me < |threads| && threads[me] == SigWake(k)
      modifies this
      ensures Valid() && old(run) <= run && |threads| == |old(threads)|
      ensures threads[me] == if k == 0 then Idle else SigWake(k - 1)
      ensures others == [] ==> Now() == old(Now())
      ensures others == [] ==>
        Sleepers() == Max(0, old(Sleepers()) - if k > 0 then 1 else 0)
    {
      Interfere(me, others);
      Positive(AsleepCount, threads);
      if k > 0 && Sleeping(threads) {
        var v :| 0 <= v < |threads| && threads[v] == Asleep;
        UnparkThis(me, k, v);
      } else {
        Updated(AsleepCount, threads, me, if k == 0 then Idle else SigWake(k - 1));
        Commit(me, value, credits, sleepers, if k == 0 then Idle else SigWake(k - 1), Step(me, false, 0));
      }
    }

    /** `credits_.wake( k )`. */
    method WakeSome(me: nat, k: nat, env: seq<Interlude>, from: nat) returns (outcome: Outcome)
      requires Valid() && me < |threads| && threads[me] == SigWake(k) && from <= |env|
      modifies this
      ensures Valid() && old(run) <= run && |threads| == |old(threads)|
      ensures outcome == Completed ==> threads[me] == Idle
      ensures |env| > from + k ==> outcome == Completed
      ensures Undisturbed(env, from) ==> Now() == old(Now())
      ensures Undisturbed(env, from) && |env| > from + k ==>
        Sleepers() == Max(0, old(Sleepers()) - k)
    {
      var left, at := k, from;
      while at < |env|
        invariant Valid() && old(run) <= run && |threads| == |old(threads)| && 0 <= left <= k
        invariant threads[me] == SigWake(left) && from <= at <= |env| && at + left == from + k
        invariant Undisturbed(env, from) ==>
          Now() == old(Now()) && Sleepers() == Max(0, old(Sleepers()) - (k - left))
      {
        Unpark(me, left, env[at].others);
        if left == 0 { return Completed; }
        left, at := left - 1, at + 1;
      }
      return Pending;
    }

    /** The debtors a signal of `count` pays. */
    function Paid(before: int, count: nat): nat { if before < 0 then Min(-before, count) else 0 }

    /** An undisturbed payment to k debtors: a credit each, and if sleepers are seen as many unparked. */
    ghost predicate PaidThem(k: nat, was: Counts, asleep: nat)
      reads this
    {
      Now() == was.(credits := was.credits + k) && Sleepers() == Max(0, asleep - if was.sleepers != 0 then k else 0)
    }

    /** The look at the sleepers and the wake. */
    method LookAndWake(me: nat, k: nat, env: seq<Interlude>) returns (outcome: Outcome)
      requires Valid() && me < |threads| && threads[me] == SigLoad(k)
      modifies this
      ensures Valid() && old(run) <= run && |threads| == |old(threads)|
      ensures outcome == Completed ==> threads[me] == Idle
      ensures |env| >= k + 4 ==> outcome == Completed
      ensures Undisturbed(env, 0) && |env| >= k + 4 ==>
        Now() == old(Now()) && Sleepers() == Max(0, old(Sleepers()) - if old(sleepers) != 0 then k else 0)
    {
      if |env| <= 2 { return Pending; }
      var wakes := LoadSleepers(me, k, env[2].others);
      if !wakes { return Completed; }
      outcome := WakeSome(me, k, env, 3);
    }

    /** What a signal that finds debtors does after its add: deposit, look, wake. */
    method PayDebtors(me: nat, k: nat, env: seq<Interlude>) returns (outcome: Outcome)
      requires Valid() && me < |threads| && threads[me] == SigDeposit(k)
      modifies this
      ensures Valid() && old(run) <= run && |threads| == |old(threads)|
      ensures outcome == Completed ==> threads[me] == Idle
      ensures |env| >= k + 4 ==> outcome == Completed
      ensures Undisturbed(env, 0) && |env| >= k + 4 ==> PaidThem(k, old(Now()), old(Sleepers()))
    {
      if |env| <= 1 { return Pending; }
      Deposit(me, k, env[1].others);
      outcome := LookAndWake(me, k, env);
    }

    /** An undisturbed signal: the tokens, and the payment to as many debtors as it finds. */
    ghost predicate Signalled(count: nat, was: Counts, asleep: nat)
      reads this
    {
      PaidThem(Paid(was.value, count),
               was.(value := was.value + count, signalled := was.signalled + count), asleep)
    }

    /** `signal`, from its add on. */
    method SignalFrom(me: nat, count: nat, env: seq<Interlude>) returns (outcome: Outcome)
      requires Valid() && me < |threads| && threads[me] == SigAdd(count)
      modifies this
      ensures Valid() && old(run) <= run && |threads| == |old(threads)|
      ensures outcome == Completed ==> threads[me] == Idle
      ensures |env| >= count + 4 ==> outcome == Completed
      ensures old(value) >= 0 && UndisturbedFor(1, env) ==>
        && outcome == Completed && threads == old(threads)[me := Idle]
        && Now() == old(Now()).(value := old(value) + count, signalled := old(signalled) + count)
      ensures Undisturbed(env, 0) && |env| >= count + 4 ==> Signalled(count, old(Now()), old(Sleepers()))
    {
      if env == [] { return Pending; }
      var before := AddTokens(me, count, env[0].others);
      if before >= 0 { return Completed; }
      outcome := PayDebtors(me, Min(-before, count), env);
    }

    /** `signal`. It never waits: three atomic operations and the wakes finish it whatever the
        others do, and with nobody in debt it touches the tokens alone. Left alone it adds its
        tokens, deposits a credit for each debtor it pays, and unparks as many sleepers if it sees
        any. */
    method Signal(me: nat, count: nat, env: seq<Interlude>) returns (outcome: Outcome)
      requires Valid() && me < |threads| && threads[me] == Idle
      modifies this
      ensures Valid() && old(run) <= run && |threads| == |old(threads)|
      ensures outcome == Completed ==> threads[me] == Idle
      ensures |env| >= count + 4 ==> outcome == Completed
      ensures old(value) >= 0 && UndisturbedFor(1, env) ==>
        && outcome == Completed && threads == old(threads)
        && Now() == old(Now()).(value := old(value) + count, signalled := old(signalled) + count)
      ensures Undisturbed(env, 0) && |env| >= count + 4 ==> Signalled(count, old(Now()), old(Sleepers()))
    {
      Updated(AsleepCount, threads, me, Entered(Op.Signal(count)));
      Enter(me, Op.Signal(count));
      if count == 0 { return Completed; }
      outcome := SignalFrom(me, count, env);
    }

    // ----- wait

    method TakeToken(me: nat, others: seq<Action>) returns (before: int)
      requires Valid() && me < |threads| && threads[me] == WaitSub
      modifies this
      ensures turns == old(turns) + 1
      ensures Valid() && old(run) <= run && |threads| == |old(threads)|
      ensures threads[me] == if before > 0 then Idle else WaitRegister
      ensures old(returned) + (if before > 0 then 1 else 0) <= returned
      ensures others == [] ==>
        before == old(value)
        && Now() == old(Now()).(value := old(value) - 1, returned := old(returned) + if before > 0 then 1 else 0)
    {
      Interfere(me, others);
      before := value;
      Commit(me, value - 1, credits, sleepers, if before > 0 then Idle else WaitRegister, Step(me, false, 0));
    }

    method Register(me: nat, others: seq<Action>)
      requires Valid() && me < |threads| && threads[me] == WaitRegister
      modifies this
      ensures turns == old(turns) + 1
      ensures Valid() && old(run) <= run && |threads| == |old(threads)|
      ensures threads[me] == WaitLoad && old(returned) <= returned
      ensures others == [] ==> Now() == old(Now()).(sleepers := old(sleepers) + 1)
    {
      Interfere(me, others);
      Commit(me, value, credits, sleepers + 1, WaitLoad, Step(me, false, 0));
    }

    method LoadCredits(me: nat, others: seq<Action>) returns (seen: nat)
      requires Valid() && me < |threads| && threads[me] == WaitLoad
      modifies this
      ensures turns == old(turns) + 1
      ensures Valid() && old(run) <= run && |threads| == |old(threads)|
      ensures threads[me] == if seen > 0 then WaitCas(seen) else WaitPark
      ensures old(returned) <= returned && (others == [] ==> Now() == old(Now()) && seen == credits)
    {
      Interfere(me, others);
      seen := credits;
      Commit(me, value, credits, sleepers, if seen > 0 then WaitCas(seen) else WaitPark, Step(me, false, 0));
    }

    method TakeCredit(me: nat, seen: nat, around: Interlude) returns (taken: bool, now: nat)
      requires Valid() && me < |threads| && seen > 0 && threads[me] == WaitCas(seen)
      modifies this
      ensures turns == old(turns) + 1
      ensures Valid() && old(run) <= run && |threads| == |old(threads)|
      ensures threads[me] == if taken then WaitLeave else if now > 0 then WaitCas(now) else WaitPark
      ensures old(returned) <= returned && (!taken ==> now == credits)
      ensures around == Interlude([], false) && old(credits) == seen ==>
        taken && Now() == old(Now()).(credits := old(credits) - 1)
    {
      Interfere(me, around.others);
      taken, now := credits == seen && !around.spurious, credits;
      if taken {
        Commit(me, value, credits - 1, sleepers, WaitLeave, Step(me, around.spurious, 0));
      } else {
        Commit(me, value, credits, sleepers, if now > 0 then WaitCas(now) else WaitPark, Step(me, around.spurious, 0));
      }
    }

    /** The sleeper count covers a thread about to leave, so its decrement does not underflow. */
    lemma LeaverIsCounted(me: nat)
      requires Valid() && me < |threads| && threads[me] == WaitLeave
      ensures sleepers > 0
    {
      ValidIsReachable();
      ReachableInv(Machine());
      Positive(Registered, threads);
    }

    method LeaveSleepers(me: nat, others: seq<Action>)
      requires Valid() && me < |threads| && threads[me] == WaitLeave
      modifies this
      ensures turns == old(turns) + 1
      ensures Valid() && old(run) <= run && |threads| == |old(threads)|
      ensures threads[me] == Idle && old(returned) < returned
      ensures others == [] ==>
        old(sleepers) > 0 && Now() == old(Now()).(sleepers := old(sleepers) - 1, returned := old(returned) + 1)
    {
      Interfere(me, others);
      LeaverIsCounted(me);
      Commit(me, value, credits, sleepers - 1, Idle, Step(me, false, 0));
    }

    method TryPark(me: nat, around: Interlude)
      requires Valid() && me < |threads| && threads[me] == WaitPark
      modifies this
      ensures turns == old(turns) + 1
      ensures Valid() && old(run) <= run && |threads| == |old(threads)|
      ensures (threads[me] == WaitLoad || threads[me] == Asleep) && old(returned) <= returned
      ensures around == Interlude([], false) ==>
        Now() == old(Now()) && threads[me] == if credits == 0 then Asleep else WaitLoad
    {
      Interfere(me, around.others);
      var self := if credits == 0 && !around.spurious then Asleep else WaitLoad;
      Commit(me, value, credits, sleepers, self, Step(me, around.spurious, 0));
    }

    /** One turn of a sleeper. */
    method StayAsleep(me: nat, around: Interlude)
      requires Valid() && me < |threads| && threads[me] == Asleep
      modifies this
      ensures turns == old(turns) + 1
      ensures Valid() && old(run) <= run && |threads| == |old(threads)|
      ensures (threads[me] == WaitLoad || threads[me] == Asleep) && old(returned) <= returned
      ensures around == Interlude([], false) ==> Now() == old(Now()) && threads == old(threads)
    {
      Interfere(me, around.others);
      if threads[me] == Asleep && around.spurious {
        Commit(me, value, credits, sleepers, WaitLoad, Step(me, true, 0));
      }
    }

    /** `credits_.wait_if_equal( 0 )`: until a wake or a return without cause. */
    method Park(me: nat, env: seq<Interlude>, from: nat, ghost calm: nat) returns (k: nat)
      requires Valid() && me < |threads| && threads[me] == WaitPark && from < |env|
      modifies this
      ensures turns == old(turns) + (k - from)
      ensures Valid() && old(run) <= run && |threads| == |old(threads)|
      ensures from < k <= |env| && (threads[me] == WaitLoad || (threads[me] == Asleep && k == |env|))
      ensures old(returned) <= returned
      ensures Undisturbed(env, from) && old(credits) == 0 ==> Now() == old(Now()) && threads[me] == Asleep
      ensures Undisturbed(env, calm) && threads[me] == WaitLoad ==> k <= Latest(from + 1, calm)
    {
      TryPark(me, env[from]);
      k := from + 1;
      while k < |env| && threads[me] == Asleep
        invariant Valid() && old(run) <= run && |threads| == |old(threads)|
        invariant turns == old(turns) + (k - from)
        invariant from < k <= |env| && (threads[me] == WaitLoad || threads[me] == Asleep)
        invariant old(returned) <= returned
        invariant Undisturbed(env, from) && old(credits) == 0 ==> Now() == old(Now()) && threads[me] == Asleep
        invariant Undisturbed(env, calm) && threads[me] == WaitLoad ==> k <= Latest(from + 1, calm)
      {
        StayAsleep(me, env[k]);
        k := k + 1;
      }
    }

    /** The inner loop: takes a credit while there are any. */
    method TakeAnyCredit(me: nat, seen: nat, env: seq<Interlude>, from: nat, ghost calm: nat)
      returns (outcome: Outcome, k: nat)
      requires Valid() && me < |threads| && from <= |env|
      requires threads[me] == if seen > 0 then WaitCas(seen) else WaitPark
      modifies this
      ensures turns == old(turns) + (k - from)
      ensures Valid() && old(run) <= run && |threads| == |old(threads)|
      ensures from <= k <= |env|
      ensures if outcome == Completed then threads[me] == Idle else k == |env| || threads[me] == WaitPark
      ensures old(returned) + (if outcome == Completed then 1 else 0) <= returned
      ensures seen == 0 ==> outcome == Pending && k == from && Now() == old(Now()) && threads == old(threads)
      ensures seen > 0 && old(credits) == seen && Undisturbed(env, from) && from + 2 <= |env| ==>
        && outcome == Completed && old(sleepers) > 0
        && Now() == old(Now()).(
             credits := old(credits) - 1, sleepers := old(sleepers) - 1, returned := old(returned) + 1)
      ensures Undisturbed(env, calm) && outcome == Pending && threads[me] == WaitPark ==> k <= Latest(from, calm) + 1
      ensures Undisturbed(env, calm) && outcome == Pending && threads[me] != WaitPark ==>
        |env| <= Latest(from, calm) + 2
    {
      var now := seen;
      k := from;
      while now > 0 && k < |env|
        invariant Valid() && old(run) <= run && |threads| == |old(threads)|
        invariant turns == old(turns) + (k - from)
        invariant from <= k <= |env| && threads[me] == if now > 0 then WaitCas(now) else WaitPark
        invariant old(returned) <= returned
        invariant seen == 0 || (old(credits) == seen && Undisturbed(env, from) && from + 2 <= |env|) ==>
          k == from && now == seen && Now() == old(Now()) && threads == old(threads)
        invariant Undisturbed(env, calm) ==> k <= Latest(from, calm) || (k <= Latest(from, calm) + 1 && now == credits)
        decreases |env| - k
      {
        var taken;
        taken, now := TakeCredit(me, now, env[k]);
        k := k + 1;
        if taken {
          if k == |env| { return Pending, k; }
          LeaveSleepers(me, env[k].others);
          return Completed, k + 1;
        }
      }
      outcome := Pending;
    }

    /** The loop of a registered waiter: a credit, or a park on having none. */
    method WaitForCredit(me: nat, env: seq<Interlude>, from: nat, ghost calm: nat) returns (outcome: Outcome)
      requires Valid() && me < |threads| && threads[me] == WaitLoad && from <= |env|
      modifies this
      ensures outcome == Pending ==> turns == old(turns) + (|env| - from)
      ensures Valid() && old(run) <= run && |threads| == |old(threads)|
      ensures outcome == Completed ==> threads[me] == Idle && old(returned) < returned
      ensures Undisturbed(env, from) && from + 3 <= |env| ==>
        if old(credits) > 0 then
          && outcome == Completed && old(sleepers) > 0
          && Now() == old(Now()).(
               credits := old(credits) - 1, sleepers := old(sleepers) - 1, returned := old(returned) + 1)
        else outcome == Pending && threads[me] == Asleep && Now() == old(Now())
      ensures Undisturbed(env, calm) && Latest(from, calm) + 8 <= |env| ==>
        outcome == Completed || threads[me] == Asleep
    {
      var k := from;
      while k < |env|
        invariant Valid() && old(run) <= run && |threads| == |old(threads)|
        invariant turns == old(turns) + (k - from)
        invariant from <= k <= |env| && threads[me] == WaitLoad && old(returned) <= returned
        invariant Undisturbed(env, from) && from + 3 <= |env| ==> k == from && Now() == old(Now())
        invariant Undisturbed(env, calm) && Latest(from, calm) + 8 <= |env| ==> k <= Latest(from, calm) + 2
        decreases |env| - k
      {
        var seen := LoadCredits(me, env[k].others);
        outcome, k := TakeAnyCredit(me, seen, env, k + 1, calm);
        if outcome == Completed || k == |env| { return; }
        k := Park(me, env, k, calm);
        if threads[me] == Asleep { return Pending; }
      }
      return Pending;
    }

    /** An undisturbed wait: a token if there is one, else a credit, else it registers and parks. */
    ghost predicate Waited(me: nat, was: Counts, outcome: Outcome)
      reads this
    {
      && me < |threads|
      && if was.value > 0 then
           outcome == Completed && Now() == was.(value := was.value - 1, returned := was.returned + 1)
         else if was.credits > 0 then
           && outcome == Completed
           && Now() == was.(value := was.value - 1, credits := was.credits - 1, returned := was.returned + 1)
         else
           && outcome == Pending && threads[me] == Asleep
           && Now() == was.(value := was.value - 1, sleepers := was.sleepers + 1)
    }

    /** `wait`, from its subtraction on. */
    method WaitFrom(me: nat, env: seq<Interlude>, from: nat, ghost calm: nat) returns (outcome: Outcome)
      requires Valid() && me < |threads| && threads[me] == WaitSub && from <= |env|
      modifies this
      ensures outcome == Pending ==> turns == old(turns) + (|env| - from)
      ensures Valid() && old(run) <= run && |threads| == |old(threads)|
      ensures outcome == Completed ==> threads[me] == Idle && old(returned) < returned <= signalled
      ensures old(value) > 0 && from < |env| && env[from].others == [] ==> Waited(me, old(Now()), outcome)
      ensures Undisturbed(env, from) && from + 5 <= |env| ==> Waited(me, old(Now()), outcome)
      ensures Undisturbed(env, calm) && Latest(from, calm) + 10 <= |env| ==>
        outcome == Completed || threads[me] == Asleep
    {
      if from == |env| { return Pending; }
      var before := TakeToken(me, env[from].others);
      if before > 0 {
        TokensCover();
        return Completed;
      }
      if from + 1 == |env| { return Pending; }
      Register(me, env[from + 1].others);
      outcome := WaitForCredit(me, env, from + 2, calm);
      TokensCover();
    }

    /** `wait()`. It returns with a token or a credit of its own; with a token to take it returns at
        once and touches the tokens alone, and left alone with neither it parks; and whatever came
        before, left alone for ten operations it has returned or is parked. */
    method Wait(me: nat, env: seq<Interlude>) returns (outcome: Outcome)
      requires Valid() && me < |threads| && threads[me] == Idle
      modifies this
      ensures outcome == Pending ==> turns == old(turns) + |env|
      ensures Valid() && old(run) <= run && |threads| == |old(threads)|
      ensures outcome == Completed ==> threads[me] == Idle && old(returned) < returned <= signalled
      ensures old(value) > 0 && UndisturbedFor(1, env) ==> Waited(me, old(Now()), outcome)
      ensures Undisturbed(env, 0) && |env| >= 5 ==> Waited(me, old(Now()), outcome)
      ensures |env| >= 10 && Undisturbed(env, |env| - 10) ==> outcome == Completed || threads[me] == Asleep
    {
      Enter(me, Op.Wait);
      outcome := WaitFrom(me, env, 0, CalmFrom(10, env));
    }

    // ----- wait( spin_count )

    method LoadTokens(me: nat, tries: nat, others: seq<Action>) returns (v: int)
      requires Valid() && me < |threads|
      requires
        || threads[me] == SpinLoad(tries)
        || (threads[me].Spin? && threads[me].value <= 0 && threads[me].tries == tries + 1)
      modifies this
      ensures turns == old(turns) + 1
      ensures Valid() && old(run) <= run && |threads| == |old(threads)|
      ensures threads[me] == Spin(v, tries) && v == value && old(returned) <= returned
      ensures others == [] ==> Now() == old(Now())
    {
      Interfere(me, others);
      v := value;
      Commit(me, value, credits, sleepers, Spin(v, tries), Step(me, false, 0));
    }

    /** `try_decrement`, with the refreshed value when it fails. */
    method TryDecrement(me: nat, last: int, tries: nat, around: Interlude) returns (taken: bool, now: int)
      requires Valid() && me < |threads| && threads[me] == Spin(last, tries) && last > 0 && tries > 0
      modifies this
      ensures turns == old(turns) + 1
      ensures Valid() && old(run) <= run && |threads| == |old(threads)|
      ensures threads[me] == if taken then Idle else Spin(now, tries)
      ensures !taken ==> now == value && (around.others == [] ==> value == old(value))
      ensures old(returned) + (if taken then 1 else 0) <= returned
      ensures old(value) == last && around == Interlude([], false) ==> taken && Waited(me, old(Now()), Completed)
    {
      Interfere(me, around.others);
      taken, now := value == last && !around.spurious, value;
      if taken {
        Commit(me, value - 1, credits, sleepers, Idle, Step(me, around.spurious, 0));
      } else {
        Commit(me, value, credits, sleepers, Spin(now, tries), Step(me, around.spurious, 0));
      }
    }

    /** One turn of the spin loop: a try at a token seen, or another look. */
    method SpinTurn(me: nat, last: int, tries: nat, around: Interlude) returns (taken: bool, v: int, left: nat)
      requires Valid() && me < |threads| && threads[me] == Spin(last, tries) && tries > 0
      modifies this
      ensures turns == old(turns) + 1
      ensures Valid() && old(run) <= run && |threads| == |old(threads)|
      ensures threads[me] == if taken then Idle else Spin(v, left)
      ensures left <= tries && old(returned) + (if taken then 1 else 0) <= returned
      ensures last > 0 && old(value) == last && around == Interlude([], false) ==>
        taken && Waited(me, old(Now()), Completed)
      ensures last <= 0 ==> !taken && left == tries - 1 && (around.others == [] ==> Now() == old(Now()))
      ensures !taken ==> v == value && (last > 0 ==> left == tries)
      ensures !taken && around == Interlude([], false) ==> value == old(value)
    {
      if last > 0 {
        taken, v := TryDecrement(me, last, tries, around);
        left := tries;
      } else {
        taken, left := false, tries - 1;
        v := LoadTokens(me, left, around.others);
      }
    }

    /** The spin loop: turn after turn, until a token is taken or the tries are used up. */
    method SpinFor(me: nat, first: int, spinCount: nat, env: seq<Interlude>, from: nat, ghost calm: nat)
      returns (taken: bool, k: nat)
      requires Valid() && me < |threads| && threads[me] == Spin(first, spinCount) && from <= |env|
      modifies this
      ensures turns == old(turns) + (k - from)
      ensures Valid() && old(run) <= run && |threads| == |old(threads)|
      ensures from <= k <= |env| && old(returned) + (if taken then 1 else 0) <= returned
      ensures if taken then threads[me] == Idle
              else threads[me].Spin? && (threads[me].tries == 0 || k == |env|)
      ensures old(value) == first > 0 && spinCount > 0 && from < |env| && env[from] == Interlude([], false) ==>
        taken && Waited(me, old(Now()), Completed)
      ensures old(value) == first <= 0 && Undisturbed(env, from) && from + spinCount <= |env| ==>
        !taken && k == from + spinCount && threads[me].tries == 0 && Now() == old(Now())
      ensures spinCount == 0 ==> !taken && k == from && threads == old(threads) && Now() == old(Now())
      ensures Undisturbed(env, calm) && !taken ==>
        if threads[me].tries == 0 then k <= Latest(from, calm) + spinCount + 1
        else |env| <= Latest(from, calm) + spinCount
    {
      var v, tries := first, spinCount;
      k := from;
      while tries > 0 && k < |env|
        invariant Valid() && old(run) <= run && |threads| == |old(threads)|
        invariant turns == old(turns) + (k - from)
        invariant from <= k <= |env| && 0 <= tries <= spinCount
        invariant threads[me] == Spin(v, tries) && old(returned) <= returned
        invariant old(value) == first > 0 && spinCount > 0 && from < |env| && env[from] == Interlude([], false) ==>
          k == from && tries > 0 && v == first && Now() == old(Now())
        invariant old(value) == first <= 0 && Undisturbed(env, from) ==>
          k + tries == from + spinCount && v == first && Now() == old(Now())
        invariant spinCount == 0 ==> k == from && threads == old(threads) && Now() == old(Now())
        invariant Undisturbed(env, calm) ==>
          k <= Latest(from, calm) || k + tries <= Latest(from, calm) + spinCount + if v == value then 1 else 0
        decreases |env| - k
      {
        taken, v, tries := SpinTurn(me, v, tries, env[k]);
        k := k + 1;
        if taken { return; }
      }
      taken := false;
    }

    /** The call to `wait()` once the tries are used up. */
    method GiveUpSpinning(me: nat, env: seq<Interlude>, from: nat, ghost calm: nat) returns (outcome: Outcome)
      requires Valid() && me < |threads| && threads[me].Spin? && threads[me].tries == 0 && from <= |env|
      modifies this
      ensures outcome == Pending ==> turns == old(turns) + (|env| - from)
      ensures Valid() && old(run) <= run && |threads| == |old(threads)|
      ensures outcome == Completed ==> threads[me] == Idle && old(returned) < returned <= signalled
      ensures Undisturbed(env, from) && from + 5 <= |env| ==> Waited(me, old(Now()), outcome)
      ensures Undisturbed(env, calm) && Latest(from, calm) + 10 <= |env| ==>
        outcome == Completed || threads[me] == Asleep
    {
      Commit(me, value, credits, sleepers, WaitSub, Step(me, false, 0));
      outcome := WaitFrom(me, env, from, calm);
    }

    /** `wait( spin_count )`: only the tokens are tried while it spins, never the credits; when the
        tries are used up it waits like `wait()`. */
    method WaitSpinning(me: nat, spinCount: nat, env: seq<Interlude>) returns (outcome: Outcome)
      requires Valid() && me < |threads| && threads[me] == Idle
      modifies this
      ensures outcome == Pending ==> turns == old(turns) + |env|
      ensures Valid() && old(run) <= run && |threads| == |old(threads)|
      ensures outcome == Completed ==> threads[me] == Idle && old(returned) < returned <= signalled
      ensures old(value) > 0 && spinCount > 0 && UndisturbedFor(2, env) ==> Waited(me, old(Now()), outcome)
      ensures Undisturbed(env, 0) && |env| >= spinCount + 6 ==> Waited(me, old(Now()), outcome)
      ensures |env| >= spinCount + 12 && Undisturbed(env, |env| - (spinCount + 12)) ==>
        outcome == Completed || threads[me] == Asleep
    {
      Enter(me, Op.WaitSpinning(spinCount));
      if env == [] { return Pending; }
      var v := LoadTokens(me, spinCount, env[0].others);
      ghost var calm := CalmFrom(spinCount + 12, env);
      var taken, k := SpinFor(me, v, spinCount, env, 1, calm);
      if taken {
        TokensCover();
        return Completed;
      }
      if threads[me].tries > 0 { return Pending; }
      outcome := GiveUpSpinning(me, env, k, calm);
    }
  }
}
