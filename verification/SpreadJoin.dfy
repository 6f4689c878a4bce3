/** The join of one generic spread: slices registered with the barrier, queued, taken by workers,
    other callers or the caller itself, and the caller's wait for all of them to arrive. */
module SpreadJoin {
  import opened Runs
  import opened Tally

  /** Whose hands a slice is in. A worker or another caller that steals is one hand, and one more for
      every spread it calls from inside a slice. */
  datatype Hand = OfCaller | Other(h: nat)

  /** The life of a slice: made, counted by the barrier, in the queue, taken, invoked, arrived. */
  datatype Stage = Unmade | Registered | Queued | Taken(hand: Hand) | Ran(hand: Hand) | Arrived

  datatype Work = Work(stage: Stage, runs: nat)

  /** `spread_work` after the split. `first` is where the part under construction starts. */
  datatype CallerPc =
    | Start
    | Register(first: nat, k: nat)            // dispatch_workers: count the part's slices ...
    | Enqueue(k: nat, upTo: nat)              // ... then put them in the queue
    | OwnRegister | OwnRun | OwnArrive        // perform_caller_work
    | CheckEmpty | Steal | StealRun(j: nat) | StealArrive(j: nat)
    | WaitLoad | WaitPark(seen: nat) | Parked
    | Returned

  /** What stays the same during a spread. `incremental`: the workers' own queues, else the shared
      queue in bulk. `blocking`: queue and wait, else the caller takes part, steals and spins.
      `indexMax` is the largest thread count, `hands` the number of other hands. */
  datatype Mode = Mode(incremental: bool, blocking: bool, indexMax: nat, hands: nat)

  /** `wakes` is the owed `wake_one`s. */
  datatype State = State(mode: Mode, works: seq<Work>, counter: nat, wakes: nat, ownRuns: nat, caller: CallerPc)

  /** `Choice` says how the caller goes on: end the part here, or which slice a dequeue returns;
      a slice number past the end stands for an item of another spread. */
  datatype Choice = GoOn | EndPart | Dequeued(j: nat) | FoundEmpty
  datatype Action = Caller(choice: Choice) | Take(j: nat, h: nat) | Run(j: nat) | Arrive(j: nat) | Wake | SpuriousWake

  function Init(n: nat, mode: Mode): State {
    State(mode, seq(n, i => Work(Unmade, 0)), 0, 0, 0, Start)
  }

  predicate NothingQueued(s: State) {
    forall j :: 0 <= j < |s.works| ==> s.works[j].stage != Queued
  }

  predicate StageIs(s: State, j: nat, stage: Stage) {
    j < |s.works| && s.works[j].stage == stage
  }

  predicate Holds(w: Work, h: nat) {
    w.stage == Taken(Other(h)) || w.stage == Ran(Other(h))
  }

  predicate HandFree(s: State, h: nat) {
    forall j :: 0 <= j < |s.works| ==> !Holds(s.works[j], h)
  }

  /** `everyone_arrived` looks at the counter cast to the thread-count type. */
  predicate EveryoneArrived(s: State) {
    s.counter % (s.mode.indexMax + 1) == 0
  }

  /** The queue is linearizable: it is found empty only when no slice is in it. */
  predicate Enabled(s: State, a: Action) {
    match a
    case Caller(choice) =>
      (match s.caller
       case Register(first, k) =>
         k <= |s.works| && (k == |s.works| || choice == GoOn || (choice == EndPart && first < k))
       case Enqueue(k, upTo) => k <= upTo <= |s.works|
       case CheckEmpty => choice == FoundEmpty ==> NothingQueued(s)
       case Steal =>
         (match choice
          case Dequeued(j) => j < |s.works| ==> s.works[j].stage == Queued
          case FoundEmpty => NothingQueued(s)
          case _ => false)
       case StealRun(j) => StageIs(s, j, Taken(OfCaller))
       case StealArrive(j) => StageIs(s, j, Ran(OfCaller))
       case WaitLoad => s.mode.blocking || EveryoneArrived(s)
       case Parked => false
       case Returned => false
       case _ => true)
    case Take(j, h) => StageIs(s, j, Queued) && h < s.mode.hands && HandFree(s, h)
    case Run(j) => j < |s.works| && s.works[j].stage.Taken? && s.works[j].stage.hand.Other?
    case Arrive(j) => j < |s.works| && s.works[j].stage.Ran? && s.works[j].stage.hand.Other?
    case Wake => s.wakes > 0
    case SpuriousWake => s.caller == Parked
  }

  function Moved(s: State, j: nat, stage: Stage): State
    requires j < |s.works|
  {
    s.(works := s.works[j := s.works[j].(stage := stage)])
  }

  function Invoked(s: State, j: nat): State
    requires j < |s.works| && s.works[j].stage.Taken?
  {
    s.(works := s.works[j := Work(Ran(s.works[j].stage.hand), s.works[j].runs + 1)])
  }

  function Minus(x: nat): nat { if x == 0 then 0 else x - 1 }

  /** `arrive()`: a spinning caller needs no wake, a blocked one gets it from the last arrival. */
  function Arrival(s: State): State {
    s.(counter := Minus(s.counter), wakes := if s.mode.blocking && s.counter == 1 then s.wakes + 1 else s.wakes)
  }

  /** After the dispatch the caller runs its own part unless it only queues and waits. */
  function AfterDispatch(blocking: bool): CallerPc { if blocking then WaitLoad else OwnRegister }

  function CallerNext(s: State, choice: Choice): State
    requires Enabled(s, Caller(choice))
  {
    match s.caller
    case Start =>
      if s.mode.incremental then s.(caller := Register(0, 0))
      else s.(caller := Enqueue(0, |s.works|), counter := |s.works|,
              works := seq(|s.works|, i requires 0 <= i < |s.works| => Work(Registered, s.works[i].runs)))
    case Register(first, k) =>
      if k == |s.works| || choice == EndPart then s.(caller := Enqueue(first, k))
      else Moved(s, k, Registered).(caller := Register(first, k + 1), counter := s.counter + 1)
    case Enqueue(k, upTo) =>
      if k < upTo then Moved(s, k, Queued).(caller := Enqueue(k + 1, upTo))
      else s.(caller := if upTo < |s.works| then Register(upTo, upTo) else AfterDispatch(s.mode.blocking))
    case OwnRegister => s.(caller := OwnRun, counter := s.counter + 1)
    case OwnRun => s.(caller := OwnArrive, ownRuns := s.ownRuns + 1)
    case OwnArrive => Arrival(s).(caller := CheckEmpty)
    case CheckEmpty => s.(caller := if choice == FoundEmpty then WaitLoad else Steal)
    case Steal =>
      (match choice
       case Dequeued(j) => if j < |s.works| then Moved(s, j, Taken(OfCaller)).(caller := StealRun(j)) else s
       case _ => s.(caller := WaitLoad))
    case StealRun(j) => Invoked(s, j).(caller := StealArrive(j))
    case StealArrive(j) => Arrival(Moved(s, j, Arrived)).(caller := Steal)
    case WaitLoad => s.(caller := if s.mode.blocking && s.counter > 0 then WaitPark(s.counter) else Returned)
    case WaitPark(seen) => s.(caller := if s.counter == seen then Parked else WaitLoad)
  }

  function Next(s: State, a: Action): State
    requires Enabled(s, a)
  {
    match a
    case Caller(choice) => CallerNext(s, choice)
    case Take(j, h) => Moved(s, j, Taken(Other(h)))
    case Run(j) => Invoked(s, j)
    case Arrive(j) => Arrival(Moved(s, j, Arrived))
    case Wake => s.(wakes := s.wakes - 1, caller := if s.caller == Parked then WaitLoad else s.caller)
    case SpuriousWake => s.(caller := WaitLoad)
  }

  /** The bulk path hands the barrier the number of slices in the thread-count type. */
  predicate Initial(s: State) {
    s == Init(|s.works|, s.mode) && (s.mode.incremental || |s.works| <= s.mode.indexMax)
  }

  predicate StepsTo(s: State, a: Action, n: State) {
    Enabled(s, a) && Next(s, a) == n
  }

  ghost predicate Reachable(s: State) {
    Reached(Initial, StepsTo, s)
  }

  // ----- the invariant

  /** Registered with the barrier and not arrived. */
  function Live(w: Work): nat {
    if w.stage == Unmade || w.stage == Arrived then 0 else 1
  }

  function OwnLive(pc: CallerPc): nat { if pc == OwnRun || pc == OwnArrive then 1 else 0 }

  /** The body has run exactly when the slice is past it; the caller's own slice is the one its
      program counter names. */
  predicate WorkOk(w: Work, j: nat, pc: CallerPc) {
    && w.runs == (if w.stage.Ran? || w.stage == Arrived then 1 else 0)
    && (w.stage == Taken(OfCaller) <==> pc == StealRun(j))
    && (w.stage == Ran(OfCaller) <==> pc == StealArrive(j))
  }

  /** How far the dispatch has come with a slice. */
  predicate DispatchOk(w: Work, j: nat, pc: CallerPc) {
    match pc
    case Start => w.stage == Unmade
    case Register(first, k) =>
      (j >= k ==> w.stage == Unmade) && (first <= j < k ==> w.stage == Registered)
      && (j < first ==> w.stage != Unmade && w.stage != Registered)
    case Enqueue(k, upTo) =>
      (j >= upTo ==> w.stage == Unmade) && (k <= j < upTo ==> w.stage == Registered)
      && (j < k ==> w.stage != Unmade && w.stage != Registered)
    case _ => w.stage != Unmade && w.stage != Registered
  }

  predicate Waits(pc: CallerPc) { pc == WaitLoad || pc.WaitPark? || pc == Parked || pc == Returned }

  predicate Dispatching(pc: CallerPc) { pc == Start || pc.Register? || pc.Enqueue? }

  /** The spinning caller's cast loses nothing: it does not spin, or all the slices fit the
      thread-count type, or all the hands they can be in do. */
  predicate CastIsExact(n: nat, mode: Mode) {
    mode.blocking || n <= mode.indexMax || mode.hands <= mode.indexMax
  }

  /** What the caller's program counter says about the rest of the state. */
  predicate CallerOk(s: State) {
    && (s.caller.Register? ==> s.caller.first <= s.caller.k <= |s.works|)
    && (s.caller.Enqueue? ==> s.caller.k <= s.caller.upTo <= |s.works|)
    && (s.mode.blocking ==> s.ownRuns == 0 && (Dispatching(s.caller) || Waits(s.caller)))
    && (!s.mode.blocking ==> !s.caller.WaitPark? && s.caller != Parked && s.wakes == 0)
    && (!s.mode.blocking ==>
          s.ownRuns == if Dispatching(s.caller) || s.caller == OwnRegister || s.caller == OwnRun then 0 else 1)
    && (s.caller == Parked ==> s.counter > 0 || s.wakes > 0)
    && (s.caller.WaitPark? ==> s.caller.seen > 0)
    && (s.caller == Returned && CastIsExact(|s.works|, s.mode) ==> s.counter == 0)
  }

  ghost predicate WorksOk(s: State) {
    forall j :: 0 <= j < |s.works| ==> WorkOk(s.works[j], j, s.caller) && DispatchOk(s.works[j], j, s.caller)
  }

  predicate CounterOk(s: State) {
    s.counter == Sum(Live, s.works) + OwnLive(s.caller)
  }

  /** A hand holds one slice at a time. */
  ghost predicate HandsOk(s: State) {
    forall i: nat, j: nat, h: nat ::
      i < |s.works| && j < |s.works| && Holds(s.works[i], h) && Holds(s.works[j], h) ==> i == j && h < s.mode.hands
  }

  ghost predicate Inv(s: State) {
    && CounterOk(s)
    && WorksOk(s)
    && CallerOk(s)
    && HandsOk(s)
    && (!s.mode.blocking && Waits(s.caller) ==> NothingQueued(s))
  }

  /** The slice an action works on; the number of slices when it works on none. */
  function Target(s: State, a: Action): nat {
    match a
    case Caller(choice) =>
      (match s.caller
       case Register(_, k) => if choice == EndPart then |s.works| else k
       case Enqueue(k, upTo) => if k < upTo then k else |s.works|
       case Steal => if choice.Dequeued? then choice.j else |s.works|
       case StealRun(j) => j
       case StealArrive(j) => j
       case _ => |s.works|)
    case Take(j, _) => j
    case Run(j) => j
    case Arrive(j) => j
    case _ => |s.works|
  }

  /** Every action but the caller's first works on at most one slice. */
  predicate Later(s: State, a: Action) { s.caller == Start ==> !a.Caller? }

  lemma OneSlice(s: State, a: Action)
    requires Enabled(s, a) && Later(s, a)
    ensures var n, t := Next(s, a), Target(s, a);
      |n.works| == |s.works| && n.works == (if t < |s.works| then s.works[t := n.works[t]] else s.works)
  {
  }

  /** What the invariant says about the one slice an action works on. */
  predicate TargetOk(s: State, a: Action) {
    var t := Target(s, a);
    t < |s.works| ==> WorkOk(s.works[t], t, s.caller) && DispatchOk(s.works[t], t, s.caller)
  }

  lemma CounterMoves(s: State, a: Action)
    requires Enabled(s, a) && Later(s, a) && TargetOk(s, a) && CounterOk(s) && CallerOk(s)
    ensures CounterOk(Next(s, a))
  {
    var n, t := Next(s, a), Target(s, a);
    OneSlice(s, a);
    if t < |s.works| {
      Updated(Live, s.works, t, n.works[t]);
    }
  }

  /** The slice worked on, told without the others. */
  lemma TargetKept(s: State, a: Action)
    requires Enabled(s, a) && Later(s, a) && TargetOk(s, a) && CallerOk(s) && Target(s, a) < |s.works|
    ensures var n, t := Next(s, a), Target(s, a);
      WorkOk(n.works[t], t, n.caller) && DispatchOk(n.works[t], t, n.caller)
  {
  }

  /** The other slices: what the caller's program counter says about them does not change. */
  lemma ElsewhereKept(s: State, a: Action, j: nat)
    requires Enabled(s, a) && Later(s, a) && CallerOk(s) && j < |s.works| && j != Target(s, a)
    requires WorkOk(s.works[j], j, s.caller) && DispatchOk(s.works[j], j, s.caller)
    ensures WorkOk(s.works[j], j, Next(s, a).caller) && DispatchOk(s.works[j], j, Next(s, a).caller)
  {
  }

  lemma WorksKept(s: State, a: Action)
    requires Enabled(s, a) && Later(s, a) && WorksOk(s) && CallerOk(s)
    ensures WorksOk(Next(s, a))
  {
    var n, t := Next(s, a), Target(s, a);
    OneSlice(s, a);
    if t < |s.works| {
      TargetKept(s, a);
    }
    forall j | 0 <= j < |n.works| ensures WorkOk(n.works[j], j, n.caller) && DispatchOk(n.works[j], j, n.caller) {
      if j != t {
        ElsewhereKept(s, a, j);
      }
    }
  }

  /** Which hand a slice is in, and whether it is in one at all. */
  function HandOf(w: Work): nat {
    if (w.stage.Taken? || w.stage.Ran?) && w.stage.hand.Other? then w.stage.hand.h else 0
  }

  /** While the caller spins every slice not arrived is in a hand of its own, so the hands bound the
      counter, and the slices do. */
  lemma CounterFits(s: State)
    requires Inv(s) && !s.mode.blocking && s.caller == WaitLoad
    ensures s.counter <= |s.works| && s.counter <= s.mode.hands
  {
    AtMost(Live, s.works, 1);
    forall j | 0 <= j < |s.works| && Live(s.works[j]) > 0 ensures Holds(s.works[j], HandOf(s.works[j])) {
      assert WorkOk(s.works[j], j, s.caller) && DispatchOk(s.works[j], j, s.caller);
    }
    Pigeons(Live, HandOf, s.works, s.mode.hands);
  }

  lemma SmallMultiple(x: nat, m: nat)
    requires x <= m && x % (m + 1) == 0
    ensures x == 0
  {
  }

  /** The load that lets the caller go, while the cast is exact, has read zero. */
  lemma ExactReturn(s: State, a: Action)
    requires Inv(s) && Enabled(s, a) && s.caller != Returned && Next(s, a).caller == Returned
    requires CastIsExact(|s.works|, s.mode)
    ensures s.counter == 0
  {
    if !s.mode.blocking {
      CounterFits(s);
      SmallMultiple(s.counter, s.mode.indexMax);
    }
  }

  lemma CallerKept(s: State, a: Action)
    requires Enabled(s, a) && TargetOk(s, a) && CallerOk(s) && CounterOk(s)
    requires s.caller != Returned && Next(s, a).caller == Returned && CastIsExact(|s.works|, s.mode) ==> s.counter == 0
    ensures CallerOk(Next(s, a))
  {
    var t := Target(s, a);
    if t < |s.works| {
      Updated(Live, s.works, t, s.works[t]);
    }
  }

  /** A hand takes a slice only when it is free, and gives it up when it arrives. */
  lemma HandsKept(s: State, a: Action)
    requires HandsOk(s) && Enabled(s, a) && Later(s, a)
    ensures HandsOk(Next(s, a))
  {
    var n, t := Next(s, a), Target(s, a);
    OneSlice(s, a);
    forall j: nat, h: nat | j < |n.works| && Holds(n.works[j], h)
      ensures Holds(s.works[j], h) || (j == t && a == Take(j, h)) {
    }
  }

  lemma QueueStaysEmpty(s: State, a: Action)
    requires Inv(s) && Enabled(s, a)
    requires !Next(s, a).mode.blocking && Waits(Next(s, a).caller)
    ensures NothingQueued(Next(s, a))
  {
    OneSlice(s, a);
  }

  lemma Begins(s: State, choice: Choice)
    requires Inv(s) && s.caller == Start && Enabled(s, Caller(choice))
    ensures Inv(Next(s, Caller(choice)))
  {
    var n := Next(s, Caller(choice));
    Positive(Live, s.works);
    if !s.mode.incremental {
      AllOnes(Live, n.works);
    }
  }

  lemma InvKept(s: State, a: Action)
    requires Inv(s) && Enabled(s, a)
    ensures Inv(Next(s, a))
  {
    if !Later(s, a) {
      Begins(s, a.choice);
    } else {
      assert TargetOk(s, a);
      CounterMoves(s, a);
      WorksKept(s, a);
      if s.caller != Returned && Next(s, a).caller == Returned && CastIsExact(|s.works|, s.mode) {
        ExactReturn(s, a);
      }
      CallerKept(s, a);
      HandsKept(s, a);
      if !s.mode.blocking && Waits(Next(s, a).caller) {
        QueueStaysEmpty(s, a);
      }
    }
  }

  lemma InitialInv(s: State)
    requires Initial(s)
    ensures Inv(s)
  {
    Positive(Live, s.works);
  }

  lemma ReachableInv(s: State)
    requires Reachable(s)
    ensures Inv(s)
  {
    forall t | Initial(t) ensures Inv(t) {
      InitialInv(t);
    }
    forall t, a, n | Inv(t) && StepsTo(t, a, n) ensures Inv(n) {
      InvKept(t, a);
    }
    ReachedInv(Initial, StepsTo, Inv, s);
  }

  // ----- what the join guarantees

  /** The barrier counts exactly the slices registered and not arrived, the caller's included. */
  lemma CounterIsUnarrived(s: State)
    requires Reachable(s)
    ensures s.counter == Sum(Live, s.works) + OwnLive(s.caller)
  {
    ReachableInv(s);
  }

  /** This step returns from the join. */
  predicate Returns(s: State, a: Action) {
    Enabled(s, a) && s.caller != Returned && Next(s, a).caller == Returned
  }

  /** Every slice has been registered, has run exactly once and has arrived, and so has the caller's
      own part. */
  predicate Complete(s: State) {
    && s.counter == 0 && s.ownRuns == (if s.mode.blocking then 0 else 1)
    && forall j :: 0 <= j < |s.works| ==> s.works[j].stage == Arrived && s.works[j].runs == 1
  }

  lemma ReturnIsComplete(s: State, a: Action)
    requires Inv(s) && Returns(s, a)
    ensures Complete(s) <==> s.counter == 0
    ensures CastIsExact(|s.works|, s.mode) ==> Complete(s)
  {
    Positive(Live, s.works);
    if CastIsExact(|s.works|, s.mode) {
      ExactReturn(s, a);
    }
    if s.counter == 0 {
      forall j | 0 <= j < |s.works| ensures s.works[j].stage == Arrived && s.works[j].runs == 1 {
        assert Live(s.works[j]) == 0;
        assert WorkOk(s.works[j], j, s.caller) && DispatchOk(s.works[j], j, s.caller);
      }
    }
  }

  /** A wait that ends on a counter of zero ends on a complete spread: the dispatch is over, so the
      zero is not a transient one. */
  lemma ZeroIsComplete(s: State, a: Action)
    requires Reachable(s) && Returns(s, a)
    ensures Complete(s) <==> s.counter == 0
  {
    ReachableInv(s);
    ReturnIsComplete(s, a);
  }

  /** Where the cast is exact the wait never lets the caller go early. */
  lemma JoinIsComplete(s: State, a: Action)
    requires Reachable(s) && Returns(s, a) && CastIsExact(|s.works|, s.mode)
    ensures Complete(s)
  {
    ReachableInv(s);
    ReturnIsComplete(s, a);
  }

  /** The slices out while the caller spins are no more than the hands that can hold one. */
  lemma OutAreHeld(s: State)
    requires Reachable(s) && !s.mode.blocking && s.caller == WaitLoad
    ensures s.counter <= |s.works| && s.counter <= s.mode.hands
  {
    ReachableInv(s);
    CounterFits(s);
  }

  /** No body ever runs twice, before or after the join. */
  lemma NeverTwice(s: State)
    requires Reachable(s)
    ensures s.ownRuns <= 1 && forall j :: 0 <= j < |s.works| ==> s.works[j].runs <= 1
  {
    ReachableInv(s);
  }

  /** On the stealing path no slice of this spread is still queued when the caller starts waiting. */
  lemma NothingQueuedWhileSpinning(s: State)
    requires Reachable(s) && !s.mode.blocking && Waits(s.caller)
    ensures NothingQueued(s)
  {
    ReachableInv(s);
  }

  /** After the return no slice can be taken, run or arrive; all that can be left of a blocking
      join is a wake of the last arrival. */
  lemma AfterReturnOnlyAWake(s: State, a: Action)
    requires Reachable(s) && s.caller == Returned && CastIsExact(|s.works|, s.mode) && Enabled(s, a)
    ensures a == Wake && s.mode.blocking
  {
    ReachableInv(s);
    Positive(Live, s.works);
  }

  /** Somebody can take this slice, run it or arrive for it. */
  ghost predicate OnItsWay(s: State, j: nat) {
    (exists h :: Enabled(s, Take(j, h))) || Enabled(s, Run(j)) || Enabled(s, Arrive(j))
  }

  /** A slice not arrived can go on, unless it is queued and every hand is full. */
  lemma LiveCanGoOn(s: State, j: nat, h: nat)
    requires Inv(s) && Waits(s.caller) && j < |s.works| && s.works[j].stage != Arrived
    ensures s.works[j].stage != Queued ==> Enabled(s, Run(j)) || Enabled(s, Arrive(j))
    ensures s.works[j].stage == Queued && h < s.mode.hands && HandFree(s, h) ==> Enabled(s, Take(j, h))
  {
    assert WorkOk(s.works[j], j, s.caller) && DispatchOk(s.works[j], j, s.caller);
  }

  lemma SomeoneIsLive(s: State)
    requires Inv(s) && s.caller == Parked
    ensures s.wakes > 0 || exists j: nat :: j < |s.works| && Live(s.works[j]) > 0
  {
    Positive(Live, s.works);
  }

  /** A parked caller is never stranded: with any worker at all a slice is still on its way, or its
      wake is owed. */
  lemma ParkedCallerIsCovered(s: State)
    requires Reachable(s) && s.caller == Parked && s.mode.hands > 0
    ensures s.wakes > 0 || exists j :: OnItsWay(s, j)
  {
    ReachableInv(s);
    SomeoneIsLive(s);
    if s.wakes == 0 {
      var j: nat :| j < |s.works| && Live(s.works[j]) > 0;
      LiveCanGoOn(s, j, 0);
      if !HandFree(s, 0) {
        var i: nat :| i < |s.works| && Holds(s.works[i], 0);
        LiveCanGoOn(s, i, 0);
        assert OnItsWay(s, i);
      }
      assert OnItsWay(s, j) || exists i :: OnItsWay(s, i);
    }
  }

  /** A spinning caller never waits for nothing: every slice that has not arrived is in the hands of
      a worker, which can go on with it. */
  lemma SpinningCallerIsCovered(s: State, j: nat)
    requires Reachable(s) && !s.mode.blocking && s.caller == WaitLoad
    requires j < |s.works| && s.works[j].stage != Arrived
    ensures Enabled(s, Run(j)) || Enabled(s, Arrive(j))
  {
    ReachableInv(s);
    NothingQueuedWhileSpinning(s);
    LiveCanGoOn(s, j, 0);
  }

  // ----- the transient zero

  lemma Leads(s: State, a: Action, n: State)
    requires Reachable(s) && Enabled(s, a) && Next(s, a) == n
    ensures Reachable(n)
  {
    ReachedNext(Initial, StepsTo, s, a, n);
  }

  function Two(first: Stage, runs: nat, counter: nat, caller: CallerPc): State {
    State(Mode(true, false, 1, 1), [Work(first, runs), Work(Unmade, 0)], counter, 0, 0, caller)
  }

  lemma FirstPartQueued()
    ensures Reachable(Two(Queued, 0, 1, Enqueue(1, 1)))
  {
    var s := Two(Unmade, 0, 0, Start);
    assert IsRun<State, Action>(StepsTo, [s], []) && Initial([s][0]);
    Leads(s, Caller(GoOn), Two(Unmade, 0, 0, Register(0, 0)));
    Leads(Two(Unmade, 0, 0, Register(0, 0)), Caller(GoOn), Two(Registered, 0, 1, Register(0, 1)));
    Leads(Two(Registered, 0, 1, Register(0, 1)), Caller(EndPart), Two(Registered, 0, 1, Enqueue(0, 1)));
    Leads(Two(Registered, 0, 1, Enqueue(0, 1)), Caller(GoOn), Two(Queued, 0, 1, Enqueue(1, 1)));
  }

  /** During an incremental dispatch the counter really does pass through zero while slices are
      still to come. */
  lemma TransientZero()
    ensures exists s :: Reachable(s) && s.counter == 0 && s.caller == Enqueue(1, 1)
              && StageIs(s, 0, Arrived) && StageIs(s, 1, Unmade)
  {
    FirstPartQueued();
    var pc := Enqueue(1, 1);
    Leads(Two(Queued, 0, 1, pc), Take(0, 0), Two(Taken(Other(0)), 0, 1, pc));
    Leads(Two(Taken(Other(0)), 0, 1, pc), Run(0), Two(Ran(Other(0)), 1, 1, pc));
    Leads(Two(Ran(Other(0)), 1, 1, pc), Arrive(0), Two(Arrived, 1, 0, pc));
    assert StageIs(Two(Arrived, 1, 0, pc), 0, Arrived);
  }
}
