/** A worker's event is a semaphore only that worker waits on. The worker pool takes it as a counter
    of tokens: a signal adds one, a return of the wait takes one and needs one. Here that counter is
    what the semaphore's own steps amount to. */
module WorkerEvent {
  import opened Semaphore
  import opened Tally

  /** The tokens of the event. */
  function Tokens(s: State): int { s.signalled - s.returned }

  /** The tokens this action posts. */
  function Posted(s: State, a: Action): nat
    requires a.t < |s.threads|
  {
    if a.Step? && s.threads[a.t].SigAdd? then s.threads[a.t].count else 0
  }

  /** The semaphore refines the counter: it is never negative, changes only by what is posted and by
      returns, one at a time, and a wait returns only when it is positive. */
  lemma EventIsACounter(s: State, a: Action)
    requires Reachable(s) && Enabled(s, a)
    ensures Tokens(s) >= 0
    ensures var n := Next(s, a);
      && s.returned <= n.returned <= s.returned + 1
      && Tokens(n) == Tokens(s) + Posted(s, a) - (n.returned - s.returned)
      && (n.returned > s.returned ==> Tokens(s) > 0)
  {
    Conservation(s);
    ReachableInv(s);
    InvKept(s, a);
  }

  predicate Signals(pc: Pc) {
    pc == Idle || pc.SigAdd? || pc.SigDeposit? || pc.SigLoad? || pc.SigWake?
  }

  /** Past the add and not through: the rest of a signal is still to come. */
  predicate InFlight(pc: Pc) {
    (pc.SigDeposit? && pc.k > 0) || (pc.SigLoad? && pc.k > 0) || (pc.SigWake? && pc.k > 0)
  }

  /** Thread w is the only one that waits. */
  ghost predicate OnlyWaits(s: State, w: nat) {
    w < |s.threads| && forall i :: 0 <= i < |s.threads| && i != w ==> Signals(s.threads[i])
  }

  /** While there is a token, the waiting thread finds it, or the signal that will let it is still
      under way: a token is never left behind with the waiter asleep. */
  lemma TokenReachesWaiter(s: State, w: nat)
    requires Reachable(s) && OnlyWaits(s, w) && Debt(s.threads[w]) == 1 && Tokens(s) > 0
    ensures || (exists u :: 0 <= u < |s.threads| && InFlight(s.threads[u]))
            || (s.threads[w] != Asleep && s.credits > 0)
  {
    ReachableInv(s);
    Single(Debt, s.threads, w);
    Single(Leaving, s.threads, w);
    Single(AwakeDebt, s.threads, w);
    Positive(Transit, s.threads);
    Positive(Owed, s.threads);
    if u :| 0 <= u < |s.threads| && Transit(s.threads[u]) > 0 {
      assert InFlight(s.threads[u]);
    } else if u :| 0 <= u < |s.threads| && Owed(s.threads[u]) > 0 {
      assert InFlight(s.threads[u]);
    }
  }

  /** A signal under way does reach a sleeping waiter: it sees the waiter registered, and its wake
      has nobody else to pick. */
  lemma SignalWakesWaiter(s: State, u: nat, w: nat)
    requires Reachable(s) && OnlyWaits(s, w) && s.threads[w] == Asleep && u < |s.threads| && InFlight(s.threads[u])
    ensures Enabled(s, Step(u, false, w)) && |Next(s, Step(u, false, w)).threads| == |s.threads|
    ensures var pc, n := s.threads[u], Next(s, Step(u, false, w));
      && (pc.SigDeposit? ==> n.threads[u] == SigLoad(pc.k) && n.threads[w] == Asleep)
      && (pc.SigLoad? ==> n.threads[u] == SigWake(pc.k) && n.threads[w] == Asleep)
      && (pc.SigWake? ==> n.threads[w] == WaitLoad)
  {
    ReachableInv(s);
    Positive(Registered, s.threads);
  }

  /** A waiter that is awake with a credit about returns in three steps of its own, undisturbed. */
  lemma WaiterTakesCredit(s: State, w: nat)
    requires Reachable(s) && w < |s.threads| && s.threads[w] == WaitLoad && s.credits > 0
    ensures
      var step := Step(w, false, 0);
      var n := Next(s, step); var m := Next(n, step); var e := Next(m, step);
      && Enabled(s, step) && Enabled(n, step) && Enabled(m, step)
      && e.threads[w] == Idle && Tokens(e) == Tokens(s) - 1
  {
  }
}
