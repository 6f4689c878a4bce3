/** The futex semaphore as a machine of any number of threads: tokens, wake credits and the
    sleeper count are separate words, and every atomic access to one of them is one step. */
module Semaphore {
  import opened Runs
  import opened Tally

  datatype Pc =
    | Idle
    // signal( count )
    | SigAdd(count: nat) | SigDeposit(k: nat) | SigLoad(k: nat) | SigWake(k: nat)
    // wait()
    | WaitSub | WaitRegister | WaitLoad | WaitCas(seen: nat) | WaitPark | Asleep | WaitLeave
    // wait( spin_count )
    | SpinLoad(tries: nat) | Spin(value: int, tries: nat)

  /** The three words, the threads, and two history counts: tokens signalled, waits returned. */
  datatype State = State(value: int, credits: nat, sleepers: nat, threads: seq<Pc>, signalled: nat, returned: nat)

  datatype Op = Signal(count: nat) | Wait | WaitSpinning(tries: nat)

  /** `spurious` fails a weak compare-exchange or a park without cause; `victim` is the sleeper the
      next unpark of a wake picks. */
  datatype Action = Call(t: nat, op: Op) | Step(t: nat, spurious: bool, victim: nat)

  function Entered(op: Op): Pc {
    match op
    case Signal(count) => if count == 0 then Idle else SigAdd(count)
    case Wait => WaitSub
    case WaitSpinning(tries) => SpinLoad(tries)
  }

  predicate Sleeping(ts: seq<Pc>) {
    exists i :: 0 <= i < |ts| && ts[i] == Asleep
  }

  /** A sleeper only moves when it returns from the park; a wake that still has to unpark someone
      picks a sleeper when there is one. */
  predicate Enabled(s: State, a: Action) {
    && a.t < |s.threads|
    && match a
       case Call(t, _) => s.threads[t] == Idle
       case Step(t, spurious, victim) =>
         && s.threads[t] != Idle
         && (s.threads[t] == Asleep ==> spurious)
         && (s.threads[t].SigWake? && s.threads[t].k > 0 && Sleeping(s.threads) ==>
               victim < |s.threads| && s.threads[victim] == Asleep)
  }

  function Min(a: int, b: int): int { if a < b then a else b }
  function Max(a: int, b: int): int { if a > b then a else b }

  /** What one step does to the words and to its own thread. */
  datatype Effect = Effect(value: int, credits: nat, sleepers: int, self: Pc, signalled: nat, returned: nat)

  function Local(s: State, pc: Pc, spurious: bool): Effect {
    var e := Effect(s.value, s.credits, s.sleepers, pc, s.signalled, s.returned);
    match pc
    case Idle => e
    case SigAdd(count) =>
      e.(value := s.value + count, signalled := s.signalled + count,
         self := if s.value >= 0 then Idle else SigDeposit(Min(-s.value, count)))
    case SigDeposit(k) => e.(credits := s.credits + k, self := SigLoad(k))
    case SigLoad(k) => e.(self := if s.sleepers != 0 then SigWake(k) else Idle)
    case SigWake(k) => e.(self := if k == 0 then Idle else SigWake(k - 1))
    case WaitSub =>
      e.(value := s.value - 1, returned := if s.value > 0 then s.returned + 1 else s.returned,
         self := if s.value > 0 then Idle else WaitRegister)
    case WaitRegister => e.(sleepers := s.sleepers + 1, self := WaitLoad)
    case WaitLoad => e.(self := if s.credits > 0 then WaitCas(s.credits) else WaitPark)
    case WaitCas(seen) =>
      if s.credits == seen && seen > 0 && !spurious then e.(credits := s.credits - 1, self := WaitLeave)
      else e.(self := if s.credits > 0 then WaitCas(s.credits) else WaitPark)
    case WaitPark => e.(self := if s.credits == 0 && !spurious then Asleep else WaitLoad)
    case Asleep => e.(self := WaitLoad)
    case WaitLeave => e.(sleepers := s.sleepers - 1, returned := s.returned + 1, self := Idle)
    case SpinLoad(tries) => e.(self := Spin(s.value, tries))
    case Spin(v, tries) =>
      if tries == 0 then e.(self := WaitSub)
      else if v > 0 then
        if s.value == v && !spurious then e.(value := s.value - 1, returned := s.returned + 1, self := Idle)
        else e.(self := Spin(s.value, tries))
      else e.(self := Spin(s.value, tries - 1))
  }

  function EffectOf(s: State, a: Action): Effect
    requires a.t < |s.threads|
  {
    match a
    case Call(t, op) => Local(s, Idle, false).(self := Entered(op))
    case Step(t, spurious, _) => Local(s, s.threads[t], spurious)
  }

  /** The sleeper this action unparks, if any: `wake( n )` unparks one sleeper a step. */
  predicate Unparks(s: State, a: Action) {
    && a.Step? && a.t < |s.threads| && s.threads[a.t].SigWake? && s.threads[a.t].k > 0
    && a.victim < |s.threads| && s.threads[a.victim] == Asleep
  }

  function Next(s: State, a: Action): State
    requires a.t < |s.threads|
  {
    var e := EffectOf(s, a);
    var ts := s.threads[a.t := e.self];
    var threads := if Unparks(s, a) then ts[a.victim := WaitLoad] else ts;
    State(e.value, e.credits, Max(0, e.sleepers), threads, e.signalled, e.returned)
  }

  function Init(n: nat): State {
    State(0, 0, 0, seq(n, i => Idle), 0, 0)
  }

  predicate Initial(s: State) {
    s == Init(|s.threads|)
  }

  predicate StepsTo(s: State, a: Action, n: State) {
    Enabled(s, a) && Next(s, a) == n
  }

  ghost predicate Reachable(s: State) {
    Reached(Initial, StepsTo, s)
  }

  // ----- weights

  /** Took a token below zero and has not had a credit yet. */
  function Debt(pc: Pc): nat {
    if pc == WaitRegister || pc == WaitLoad || pc.WaitCas? || pc == WaitPark || pc == Asleep then 1 else 0
  }
  /** In debt and not parked. */
  function AwakeDebt(pc: Pc): nat { if pc == Asleep then 0 else Debt(pc) }
  function AsleepCount(pc: Pc): nat { if pc == Asleep then 1 else 0 }
  /** Counted in `sleepers_`. */
  function Registered(pc: Pc): nat {
    if pc == WaitLeave then 1 else if pc == WaitRegister then 0 else Debt(pc)
  }
  /** Consumed a credit and is about to return. */
  function Leaving(pc: Pc): nat { if pc == WaitLeave then 1 else 0 }
  /** Credits claimed by a signaller that has not deposited them yet. */
  function Transit(pc: Pc): nat { if pc.SigDeposit? then pc.k else 0 }
  /** Wakes a signaller past its deposit may still issue. */
  function Owed(pc: Pc): nat { if pc.SigLoad? || pc.SigWake? then pc.k else 0 }

  /** While someone sleeps there are no more credits than awake debtors and wakes still owed. */
  ghost predicate WakesCover(s: State) {
    Sleeping(s.threads) ==> s.credits <= Sum(AwakeDebt, s.threads) + Sum(Owed, s.threads)
  }

  ghost predicate Inv(s: State) {
    && s.sleepers == Sum(Registered, s.threads)
    && Sum(Debt, s.threads) == Max(0, -s.value) + s.credits + Sum(Transit, s.threads)
    && s.signalled == s.returned + Sum(Leaving, s.threads) + s.credits + Sum(Transit, s.threads) + Max(0, s.value)
    && WakesCover(s)
  }

  /** Every weight changes by the acting thread's change and the unparked sleeper's. */
  lemma Weigh(f: Pc -> nat, s: State, a: Action)
    requires Enabled(s, a)
    ensures Sum(f, Next(s, a).threads) == Sum(f, s.threads) - f(s.threads[a.t]) + f(EffectOf(s, a).self)
                                          + (if Unparks(s, a) then f(WaitLoad) - f(Asleep) else 0)
    ensures Sum(f, s.threads) >= f(s.threads[a.t])
  {
    var self := EffectOf(s, a).self;
    Updated(f, s.threads, a.t, self);
    if Unparks(s, a) {
      Updated(f, s.threads[a.t := self], a.victim, WaitLoad);
    }
  }

  lemma RegistrationKept(s: State, a: Action)
    requires s.sleepers == Sum(Registered, s.threads) && Enabled(s, a)
    ensures Next(s, a).sleepers == Sum(Registered, Next(s, a).threads)
  {
    Weigh(Registered, s, a);
  }

  lemma DebtKept(s: State, a: Action)
    requires Sum(Debt, s.threads) == Max(0, -s.value) + s.credits + Sum(Transit, s.threads)
    requires Enabled(s, a)
    ensures var n := Next(s, a); Sum(Debt, n.threads) == Max(0, -n.value) + n.credits + Sum(Transit, n.threads)
  {
    Weigh(Debt, s, a);
    Weigh(Transit, s, a);
  }

  lemma TokensKept(s: State, a: Action)
    requires s.signalled == s.returned + Sum(Leaving, s.threads) + s.credits + Sum(Transit, s.threads) + Max(0, s.value)
    requires Enabled(s, a)
    ensures var n := Next(s, a);
      n.signalled == n.returned + Sum(Leaving, n.threads) + n.credits + Sum(Transit, n.threads) + Max(0, n.value)
  {
    Weigh(Leaving, s, a);
    Weigh(Transit, s, a);
  }

  /** One action, told without the other threads: the credits grow by no more than the awake
      debtors and the wakes owed, except where the skipped wake, the park and the unpark show why. */
  lemma CoverChange(s: State, pc: Pc, spurious: bool)
    ensures var e := Local(s, pc, spurious);
      || e.credits - s.credits <= AwakeDebt(e.self) - AwakeDebt(pc) + Owed(e.self) - Owed(pc)
      || (pc.SigLoad? && s.sleepers == 0)
      || (e.self == Asleep && e.credits == 0)
      || (pc.SigWake? && pc.k > 0 && e.credits == s.credits && Owed(e.self) == Owed(pc) - 1)
  {
  }

  lemma SleepersBefore(s: State, a: Action)
    requires Enabled(s, a) && Sleeping(Next(s, a).threads)
    ensures EffectOf(s, a).self == Asleep || Sleeping(s.threads)
    ensures a.Step? && s.threads[a.t].SigWake? && s.threads[a.t].k > 0 ==> Unparks(s, a)
  {
    var n := Next(s, a);
    var i :| 0 <= i < |n.threads| && n.threads[i] == Asleep;
    assert i != a.t ==> s.threads[i] == Asleep;
  }

  lemma SleepersRegistered(s: State)
    requires s.sleepers == Sum(Registered, s.threads) && Sleeping(s.threads)
    ensures s.sleepers > 0
  {
    Positive(Registered, s.threads);
  }

  lemma WakesKept(s: State, a: Action)
    requires WakesCover(s) && s.sleepers == Sum(Registered, s.threads) && Enabled(s, a)
    ensures WakesCover(Next(s, a))
  {
    if Sleeping(Next(s, a).threads) {
      SleepersBefore(s, a);
      Weigh(AwakeDebt, s, a);
      Weigh(Owed, s, a);
      if EffectOf(s, a).self != Asleep {
        SleepersRegistered(s);
        if a.Step? {
          CoverChange(s, s.threads[a.t], a.spurious);
        }
      }
    }
  }

  lemma InvKept(s: State, a: Action)
    requires Inv(s) && Enabled(s, a)
    ensures Inv(Next(s, a))
  {
    RegistrationKept(s, a);
    DebtKept(s, a);
    TokensKept(s, a);
    WakesKept(s, a);
  }

  lemma InitialInv(s: State)
    requires Initial(s)
    ensures Inv(s)
  {
    var ts := s.threads;
    Positive(Registered, ts);
    Positive(Debt, ts);
    Positive(Transit, ts);
    Positive(Leaving, ts);
  }

  lemma ReachableInv(s: State)
    requires Reachable(s)
    ensures Inv(s)
  {
    forall t | Initial(t) ensures Inv(t) {
      InitialInv(t);
    }
    forall t, a, n | Inv(t) && StepsTo(t, a, n) ensures Inv(n) {
      InvKept(t, a);
    }
    ReachedInv(Initial, StepsTo, Inv, s);
  }

  // ----- what the semaphore guarantees

  /** Conservation: every signalled token was returned by a wait, is held by a leaving waiter, or
      is a credit, a claimed deposit or a free token; every thread in debt is owed exactly one of
      the negative tokens, the credits and the claimed deposits. */
  lemma Conservation(s: State)
    requires Reachable(s)
    ensures s.signalled == s.returned + Sum(Leaving, s.threads) + s.credits + Sum(Transit, s.threads) + Max(0, s.value)
    ensures Sum(Debt, s.threads) == Max(0, -s.value) + s.credits + Sum(Transit, s.threads)
    ensures s.returned <= s.signalled
  {
    ReachableInv(s);
  }

  /** No missed wakeup: while someone sleeps, every credit is about to be found by a waiter that is
      awake or is announced by a wake still to be issued. */
  lemma NoMissedWakeup(s: State)
    requires Reachable(s) && Sleeping(s.threads)
    ensures s.credits <= Sum(AwakeDebt, s.threads) + Sum(Owed, s.threads)
    ensures s.credits > 0 ==>
      exists u :: 0 <= u < |s.threads| && (AwakeDebt(s.threads[u]) > 0 || Owed(s.threads[u]) > 0)
  {
    ReachableInv(s);
    Positive(AwakeDebt, s.threads);
    Positive(Owed, s.threads);
    if s.credits > 0 && Sum(AwakeDebt, s.threads) > 0 {
      var u :| 0 <= u < |s.threads| && AwakeDebt(s.threads[u]) > 0;
    }
  }

  /** No thread is inside a signal past its first step, or in debt and awake. */
  ghost predicate Settled(s: State) {
    forall i :: 0 <= i < |s.threads| ==>
      AwakeDebt(s.threads[i]) == 0 && Transit(s.threads[i]) == 0 && Owed(s.threads[i]) == 0
  }

  lemma SettledInv(s: State)
    requires Inv(s) && Settled(s)
    ensures s.credits == 0
    ensures Sum(AsleepCount, s.threads) == Max(0, -s.value)
    ensures s.signalled == s.returned + Sum(Leaving, s.threads) + Max(0, s.value)
  {
    Positive(AwakeDebt, s.threads);
    Positive(Transit, s.threads);
    Positive(Owed, s.threads);
    Positive(AsleepCount, s.threads);
    Split(Debt, AwakeDebt, AsleepCount, s.threads);
    if !Sleeping(s.threads) {
      assert forall i :: 0 <= i < |s.threads| ==> AsleepCount(s.threads[i]) == 0;
    }
  }

  /** Once no signaller and no awake debtor is under way, no credit is left over and the sleepers
      are exactly the negative tokens, although signallers skip the wake when they read no sleeper. */
  lemma SettledState(s: State)
    requires Reachable(s) && Settled(s)
    ensures s.credits == 0
    ensures Sum(AsleepCount, s.threads) == Max(0, -s.value)
  {
    ReachableInv(s);
    SettledInv(s);
  }

  /** A wake is skipped only when nobody is parked at that moment. */
  lemma SkippedWakeIsSound(s: State, t: nat)
    requires Reachable(s) && t < |s.threads| && s.threads[t].SigLoad? && s.sleepers == 0
    ensures !Sleeping(s.threads)
  {
    ReachableInv(s);
    Positive(Registered, s.threads);
  }

  /** Credits are steal-proof: only a thread in debt and awake takes one, and all it can do then is
      return from its wait. */
  lemma OnlyDebtorsTakeCredits(s: State, a: Action, spurious: bool, victim: nat)
    requires Enabled(s, a) && Next(s, a).credits < s.credits
    ensures AwakeDebt(s.threads[a.t]) == 1 && Next(s, a).credits == s.credits - 1
    ensures var n := Next(s, a); var b := Step(a.t, spurious, victim);
      && n.threads[a.t] == WaitLeave && Enabled(n, b)
      && Next(n, b).threads[a.t] == Idle && Next(n, b).returned == n.returned + 1
  {
  }

  /** Inside `wait()` or `wait( spin_count )`. */
  predicate InWait(pc: Pc) {
    pc == WaitSub || pc.SpinLoad? || pc.Spin? || Debt(pc) == 1 || pc == WaitLeave
  }

  /** Every return of a wait is counted, by whichever way the thread comes out of it, and nothing else
      is: what is said of `returned` is said of the waits. */
  lemma ReturnsAreCounted(s: State, a: Action)
    requires Enabled(s, a)
    ensures Next(s, a).returned ==
      s.returned + if InWait(s.threads[a.t]) && EffectOf(s, a).self == Idle then 1 else 0
  {
  }

  /** A thread in a wait stays in it until that return. */
  lemma WaitEndsInReturn(s: State, a: Action)
    requires Enabled(s, a) && InWait(s.threads[a.t])
    ensures InWait(EffectOf(s, a).self) || EffectOf(s, a).self == Idle
  {
  }

  /** Credits taken, and tokens taken off a positive count, in the first k steps. */
  function CreditsTaken(states: seq<State>, k: nat): nat
    requires k < |states|
  {
    if k == 0 then 0
    else CreditsTaken(states, k - 1) + (if states[k].credits < states[k - 1].credits then 1 else 0)
  }

  function TokensTaken(states: seq<State>, k: nat): nat
    requires k < |states|
  {
    if k == 0 then 0
    else
      TokensTaken(states, k - 1)
      + (if states[k].value < states[k - 1].value && states[k - 1].value > 0 then 1 else 0)
  }

  lemma ReturnStep(s: State, a: Action)
    requires Enabled(s, a)
    ensures var n := Next(s, a);
      n.returned + Sum(Leaving, n.threads) == s.returned + Sum(Leaving, s.threads)
        + (if n.credits < s.credits then 1 else 0) + (if n.value < s.value && s.value > 0 then 1 else 0)
  {
    Weigh(Leaving, s, a);
  }

  /** Over every run the waits that have returned or are returning took exactly one credit or one
      token each, and nobody else took any. */
  lemma {:induction false} EveryReturnPaid(states: seq<State>, run: seq<Action>, k: nat)
    requires IsRun(StepsTo, states, run) && Initial(states[0]) && k <= |run|
    ensures states[k].returned + Sum(Leaving, states[k].threads) == CreditsTaken(states, k) + TokensTaken(states, k)
  {
    if k == 0 {
      Positive(Leaving, states[0].threads);
    } else {
      EveryReturnPaid(states, run, k - 1);
      assert StepsTo(states[k - 1], run[k - 1], states[k]);
      ReturnStep(states[k - 1], run[k - 1]);
    }
  }

  /** Every count fits the number of threads, so the casts of the source to the thread-count type
      are exact whenever that number fits it. */
  lemma CountsFit(s: State)
    requires Reachable(s)
    ensures var n := |s.threads|; -s.value <= n && s.credits <= n && s.sleepers <= n
  {
    ReachableInv(s);
    AtMost(Debt, s.threads, 1);
    AtMost(Registered, s.threads, 1);
  }
}
