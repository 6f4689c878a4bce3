/** When the spinning join's look at the barrier, cast to the thread-count type, is exact: with more
    slices out than that type tells apart the caller is let go too early, and only then. */
module SpreadJoinCast {
  import opened Runs
  import opened SpreadJoin

  /** Slices that are `low` below k and `high` from there on. */
  function Line(n: nat, k: nat, low: nat -> Work, high: Work): seq<Work> {
    seq(n, (i: nat) => if i < k then low(i) else high)
  }

  function Early(mode: Mode, works: seq<Work>, counter: nat, ownRuns: nat, caller: CallerPc): State {
    State(mode, works, counter, 0, ownRuns, caller)
  }

  /** The states such a run passes through: k slices registered, k queued, k taken by a hand each,
      and, from the end, k through. */
  function Registering(mode: Mode, n: nat, k: nat): State {
    Early(mode, Line(n, k, i => Work(Registered, 0), Work(Unmade, 0)), k, 0, Register(0, k))
  }

  function Queueing(mode: Mode, n: nat, k: nat): State {
    Early(mode, Line(n, k, i => Work(Queued, 0), Work(Registered, 0)), n, 0, Enqueue(k, n))
  }

  function Serving(mode: Mode, n: nat, k: nat): State
    requires k <= n
  {
    Early(mode, Line(n, n - k, i => Work(Queued, 0), Work(Arrived, 1)), n - k, 1, CheckEmpty)
  }

  function Holding(mode: Mode, n: nat, k: nat): State
    requires mode.indexMax < n
  {
    Early(mode, Line(n, mode.indexMax + 1,
                     (i: nat) => if i < k then Work(Taken(Other(i)), 0) else Work(Queued, 0), Work(Arrived, 1)),
          mode.indexMax + 1, 1, CheckEmpty)
  }

  /** Room for an early return: the caller spins, and there are more slices and hands than the
      thread-count type tells apart. */
  predicate Roomy(mode: Mode, n: nat) {
    mode.incremental && !mode.blocking && mode.indexMax < n && mode.indexMax < mode.hands
  }

  lemma {:induction false} AllRegistered(mode: Mode, n: nat, k: nat)
    requires Roomy(mode, n) && k <= n
    ensures Reachable(Registering(mode, n, k))
  {
    if k == 0 {
      var s := Init(n, mode);
      assert IsRun<State, Action>(StepsTo, [s], []) && Initial([s][0]);
      Leads(s, Caller(GoOn), Registering(mode, n, 0));
    } else {
      AllRegistered(mode, n, k - 1);
      Leads(Registering(mode, n, k - 1), Caller(GoOn), Registering(mode, n, k));
    }
  }

  lemma {:induction false} AllQueued(mode: Mode, n: nat, k: nat)
    requires Roomy(mode, n) && k <= n
    ensures Reachable(Queueing(mode, n, k))
  {
    if k == 0 {
      AllRegistered(mode, n, n);
      Leads(Registering(mode, n, n), Caller(EndPart), Queueing(mode, n, 0));
    } else {
      AllQueued(mode, n, k - 1);
      Leads(Queueing(mode, n, k - 1), Caller(GoOn), Queueing(mode, n, k));
    }
  }

  /** The caller is through with its own part, and no slice has been taken. */
  lemma OwnPartDone(mode: Mode, n: nat)
    requires Roomy(mode, n)
    ensures Reachable(Serving(mode, n, 0))
  {
    AllQueued(mode, n, n);
    var works := Serving(mode, n, 0).works;
    Leads(Queueing(mode, n, n), Caller(GoOn), Early(mode, works, n, 0, OwnRegister));
    Leads(Early(mode, works, n, 0, OwnRegister), Caller(GoOn), Early(mode, works, n + 1, 0, OwnRun));
    Leads(Early(mode, works, n + 1, 0, OwnRun), Caller(GoOn), Early(mode, works, n + 1, 1, OwnArrive));
    Leads(Early(mode, works, n + 1, 1, OwnArrive), Caller(GoOn), Serving(mode, n, 0));
  }

  /** Hand 0 serves the last slices. */
  lemma {:induction false} LastServed(mode: Mode, n: nat, k: nat)
    requires Roomy(mode, n) && k < n - mode.indexMax
    ensures Reachable(Serving(mode, n, k))
  {
    if k == 0 {
      OwnPartDone(mode, n);
    } else {
      LastServed(mode, n, k - 1);
      var s := Serving(mode, n, k - 1);
      var taken := Moved(s, n - k, Taken(Other(0)));
      Leads(s, Take(n - k, 0), taken);
      var ran := Invoked(taken, n - k);
      Leads(taken, Run(n - k), ran);
      assert Serving(mode, n, k).works == ran.works[n - k := Work(Arrived, 1)];
      Leads(ran, Arrive(n - k), Serving(mode, n, k));
    }
  }

  /** Each of the others is taken by a hand of its own. */
  lemma {:induction false} FirstHeld(mode: Mode, n: nat, k: nat)
    requires Roomy(mode, n) && k <= mode.indexMax + 1
    ensures Reachable(Holding(mode, n, k))
  {
    if k == 0 {
      LastServed(mode, n, n - mode.indexMax - 1);
      assert Serving(mode, n, n - mode.indexMax - 1).works == Holding(mode, n, 0).works;
    } else {
      FirstHeld(mode, n, k - 1);
      Leads(Holding(mode, n, k - 1), Take(k - 1, k - 1), Holding(mode, n, k));
    }
  }

  /** The caller, with nothing left to steal, looks at the barrier. */
  function Looking(mode: Mode, n: nat): State
    requires mode.indexMax < n
  {
    Holding(mode, n, mode.indexMax + 1).(caller := WaitLoad)
  }

  lemma NothingToSteal(mode: Mode, n: nat)
    requires Roomy(mode, n)
    ensures Reachable(Looking(mode, n))
  {
    FirstHeld(mode, n, mode.indexMax + 1);
    Leads(Holding(mode, n, mode.indexMax + 1), Caller(FoundEmpty), Looking(mode, n));
  }

  /** With more slices and more hands than that, the wait can let the caller go with a slice not
      even begun. */
  lemma EarlyReturn(mode: Mode, n: nat)
    requires Roomy(mode, n)
    ensures exists s, a :: Reachable(s) && s.mode == mode && |s.works| == n && Returns(s, a)
              && StageIs(s, 0, Taken(Other(0))) && s.works[0].runs == 0
  {
    NothingToSteal(mode, n);
    assert Returns(Looking(mode, n), Caller(GoOn));
  }

  /** The promise of the join, over all runs of such a spread. */
  ghost predicate AlwaysComplete(n: nat, mode: Mode) {
    forall s, a :: Reachable(s) && s.mode == mode && |s.works| == n && Returns(s, a) ==> Complete(s)
  }

  /** The join keeps its promise exactly where the cast is exact. */
  lemma CompleteExactlyWhen(n: nat, mode: Mode)
    requires mode.incremental || n <= mode.indexMax
    ensures AlwaysComplete(n, mode) <==> CastIsExact(n, mode)
  {
    if CastIsExact(n, mode) {
      forall s, a | Reachable(s) && s.mode == mode && |s.works| == n && Returns(s, a) ensures Complete(s) {
        JoinIsComplete(s, a);
      }
    } else {
      EarlyReturn(mode, n);
    }
  }
}
