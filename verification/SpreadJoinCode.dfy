/** `spread_work` after the split, and the barrier's `arrive` and `wait`, in the source's own form,
    with the workers at work between any two steps. Whatever those do, each method is a run of the
    machine of module SpreadJoin. */
module SpreadJoinCode {
  import opened Runs
  import opened Schedules
  import opened SpreadJoin
  import opened Tally

  /** What the workers do before a step; whether a dequeue of the caller gets an item of another
      spread, and whether a blocked wait returns without cause. */
  datatype Turn = Turn(others: seq<Action>, foreign: bool, spurious: bool)

  /** From here on no worker moves, and nothing of another spread is in the queue. */
  predicate Undisturbed(env: seq<Turn>, from: nat) {
    forall k :: from <= k < |env| ==> env[k] == Turn([], false, false)
  }

  function Waiting(w: Work): nat { if w.stage == Queued then 1 else 0 }

  /** Queued, or through. */
  predicate QueuedOrArrived(works: seq<Work>) {
    forall j :: 0 <= j < |works| ==> works[j].stage == Queued || works[j].stage == Arrived
  }

  /** Where the parts of so many slices end: non-empty parts, one after the other, up to the last
      slice. */
  predicate Ends(ends: seq<nat>, slices: nat) {
    && (ends == [] <==> slices == 0)
    && (ends != [] ==> ends[0] > 0 && ends[|ends| - 1] == slices)
    && (forall i :: 0 <= i < |ends| - 1 ==> ends[i] < ends[i + 1])
    && (forall i :: 0 <= i < |ends| ==> 0 < ends[i] <= slices)
  }

  /** The workers leave the caller where it is, but for unparking it. */
  lemma CallerStays(s: State, a: Action)
    requires Enabled(s, a) && !a.Caller?
    ensures var n := Next(s, a);
      && |n.works| == |s.works| && n.mode == s.mode && n.ownRuns == s.ownRuns
      && (n.caller == s.caller || (s.caller == Parked && n.caller == WaitLoad))
  {
  }

  datatype Side = CallerSide

  predicate IsOf(side: Side, a: Action) {
    match side
    case CallerSide => a.Caller?
  }

  /** What the others make of a state: an action of theirs is taken if it can be. */
  function OthersTake(mine: Side, s: State, a: Action): State {
    if !IsOf(mine, a) && Enabled(s, a) then Next(s, a) else s
  }

  class Spread {
    const mode: Mode
    var works: seq<Work>
    /** The barrier's `counter_`, and its wakes still to be issued. */
    var counter: nat
    var wakes: nat
    var ownRuns: nat
    var caller: CallerPc
    /** Every step since the spread began, and the machine's states around them. */
    ghost var run: seq<Action>
    ghost var trace: seq<State>
    /** How many turns of the schedules have gone by. */
    ghost var turns: nat

    function Machine(): State
      reads this
    {
      State(mode, works, counter, wakes, ownRuns, caller)
    }

    ghost predicate History(last: State)
      reads this
    {
      IsRun(StepsTo, trace, run) && Initial(trace[0]) && trace[|run|] == last
    }

    ghost predicate Valid()
      reads this
    {
      History(Machine())
    }

    /** A spread of so many slices. */
    constructor (slices: nat, mode: Mode)
      requires mode.incremental || slices <= mode.indexMax
      ensures Valid() && |works| == slices && caller == Start && this.mode == mode
    {
      this.mode := mode;
      works := Init(slices, mode).works;
      counter, wakes, ownRuns, caller := 0, 0, 0, Start;
      run, turns := [], 0;
      new;
      trace := [Machine()];
    }

    lemma ValidIsReachable()
      requires Valid()
      ensures Reachable(Machine()) && Inv(Machine())
    {
      ReachableInv(Machine());
    }

    /** Adds the step that has just led from `was` to the present state. */
    ghost method Record(was: State, a: Action)
      requires History(was) && Enabled(was, a) && Next(was, a) == Machine() && |works| == |was.works|
      modifies `run, `trace
      ensures Valid() && run == old(run) + [a]
    {
      Extends(StepsTo, trace, run, a, Machine());
      run, trace := run + [a], trace + [Machine()];
    }

    method Other(a: Action)
      requires Valid() && Enabled(Machine(), a) && !a.Caller?
      modifies this
      ensures turns == old(turns)
      ensures Valid() && old(run) <= run && |works| == |old(works)|
      ensures caller == old(caller) || (old(caller) == Parked && caller == WaitLoad)
      ensures Machine() == Next(old(Machine()), a)
    {
      ghost var was := Machine();
      CallerStays(was, a);
      var n := Next(Machine(), a);
      works, counter, wakes, ownRuns, caller := n.works, n.counter, n.wakes, n.ownRuns, n.caller;
      Record(was, a);
    }

    /** The workers' steps; one that cannot be taken is passed over. */
    method Interfere(others: seq<Action>)
      requires Valid()
      modifies this
      ensures turns == old(turns) + 1
      ensures Valid() && old(run) <= run && |works| == |old(works)|
      ensures Machine() == AfterTurn(OthersTake, CallerSide, old(Machine()), others)
      ensures caller == old(caller) || (old(caller) == Parked && caller == WaitLoad)
      ensures others == [] ==> Machine() == old(Machine())
    {
      for k := 0 to |others|
        invariant Valid() && old(run) <= run && |works| == |old(works)|
        invariant Machine() == AfterTurn(OthersTake, CallerSide, old(Machine()), others[..k])
        invariant turns == old(turns)
        invariant caller == old(caller) || (old(caller) == Parked && caller == WaitLoad)
        invariant others == [] ==> Machine() == old(Machine())
      {
        AfterOne(OthersTake, CallerSide, old(Machine()), others, k);
        if !others[k].Caller? && Enabled(Machine(), others[k]) {
          Other(others[k]);
        }
      }
      assert others[..|others|] == others;
      turns := turns + 1;
    }

    /** A step that moves the caller alone. */
    method Go(pc: CallerPc, ghost choice: Choice)
      requires Valid() && Enabled(Machine(), Caller(choice))
      requires Next(Machine(), Caller(choice)) == Machine().(caller := pc)
      modifies this
      ensures turns == old(turns)
      ensures Valid() && old(run) <= run && |works| == |old(works)|
      ensures caller == pc && works == old(works) && counter == old(counter) && ownRuns == old(ownRuns)
    {
      ghost var was := Machine();
      caller := pc;
      Record(was, Caller(choice));
    }

    // ----- the dispatch

    /** `add_expected_arrival` for one slice. */
    method RegisterSlice(first: nat, k: nat, others: seq<Action>)
      requires Valid() && caller == CallerPc.Register(first, k) && k < |works|
      modifies this
      ensures turns == old(turns) + 1
      ensures Valid() && old(run) <= run && |works| == |old(works)|
      ensures caller == CallerPc.Register(first, k + 1)
      ensures others == [] ==> works == old(works)[k := old(works)[k].(stage := Registered)]
    {
      Interfere(others);
      ghost var was := Machine();
      works := works[k := works[k].(stage := Registered)];
      counter := counter + 1;
      caller := CallerPc.Register(first, k + 1);
      Record(was, Caller(GoOn));
    }

    method EnqueueSlice(k: nat, upTo: nat, others: seq<Action>)
      requires Valid() && caller == CallerPc.Enqueue(k, upTo) && k < upTo <= |works|
      modifies this
      ensures turns == old(turns) + 1
      ensures Valid() && old(run) <= run && |works| == |old(works)|
      ensures caller == CallerPc.Enqueue(k + 1, upTo)
      ensures others == [] ==> works == old(works)[k := old(works)[k].(stage := Queued)]
    {
      Interfere(others);
      ghost var was := Machine();
      works := works[k := works[k].(stage := Queued)];
      caller := CallerPc.Enqueue(k + 1, upTo);
      Record(was, Caller(GoOn));
    }

    /** The slices of one part: all counted, then the part is closed. */
    method RegisterPart(first: nat, upTo: nat, env: seq<Turn>, from: nat) returns (done: bool, k: nat)
      requires Valid() && caller == CallerPc.Register(first, first) && first < upTo <= |works| && from <= |env|
      modifies this
      ensures turns == old(turns) + (k - from) && (!done ==> k == |env|)
      ensures Valid() && old(run) <= run && |works| == |old(works)|
      ensures from <= k <= |env| && (if done then caller == CallerPc.Enqueue(first, upTo) else caller != Returned)
      ensures Undisturbed(env, from) && from + (upTo - first) <= |env| ==>
        done && k == from + (upTo - first) && forall i :: 0 <= i < |works| && i < first ==> works[i] == old(works)[i]
      ensures from + (upTo - first) <= |env| ==> done && k == from + (upTo - first)
    {
      var j: nat := first;
      k := from;
      while j < upTo
        invariant Valid() && old(run) <= run && |works| == |old(works)|
        invariant turns == old(turns) + (k - from)
        invariant from <= k <= |env| && first <= j <= upTo && k == from + (j - first)
        invariant caller == CallerPc.Register(first, j)
        invariant Undisturbed(env, from) ==>
          k == from + (j - first) && forall i :: 0 <= i < |works| && i < first ==> works[i] == old(works)[i]
      {
        if k == |env| { return false, k; }
        RegisterSlice(first, j, env[k].others);
        j, k := j + 1, k + 1;
      }
      Go(CallerPc.Enqueue(first, upTo), EndPart);
      done := true;
    }

    /** `enqueue_bulk`, slice by slice: a dequeue may come between any two. */
    method EnqueuePart(first: nat, upTo: nat, env: seq<Turn>, from: nat) returns (done: bool, k: nat)
      requires Valid() && caller == CallerPc.Enqueue(first, upTo) && first <= upTo <= |works| && from <= |env|
      modifies this
      ensures turns == old(turns) + (k - from) && (!done ==> k == |env|)
      ensures Valid() && old(run) <= run && |works| == |old(works)|
      ensures from <= k <= |env|
      ensures if !done then caller != Returned
              else caller == if upTo < |works| then CallerPc.Register(upTo, upTo) else AfterDispatch(mode.blocking)
      ensures Undisturbed(env, from) && from + (upTo - first) <= |env| ==>
        && done && k == from + (upTo - first)
        && (forall i :: 0 <= i < |works| && i < first ==> works[i] == old(works)[i])
        && (forall i :: first <= i < upTo ==> works[i].stage == Queued)
      ensures from + (upTo - first) <= |env| ==> done && k == from + (upTo - first)
    {
      var j: nat := first;
      k := from;
      while j < upTo
        invariant Valid() && old(run) <= run && |works| == |old(works)|
        invariant turns == old(turns) + (k - from)
        invariant from <= k <= |env| && first <= j <= upTo && k == from + (j - first)
        invariant caller == CallerPc.Enqueue(j, upTo)
        invariant Undisturbed(env, from) ==>
          && k == from + (j - first)
          && (forall i :: 0 <= i < |works| && i < first ==> works[i] == old(works)[i])
          && (forall i :: first <= i < j ==> works[i].stage == Queued)
      {
        if k == |env| { return false, k; }
        EnqueueSlice(j, upTo, env[k].others);
        j, k := j + 1, k + 1;
      }
      Go(if upTo < |works| then CallerPc.Register(upTo, upTo) else AfterDispatch(mode.blocking), GoOn);
      done := true;
    }

    /** One part: counted, then queued. */
    method DispatchPart(first: nat, upTo: nat, env: seq<Turn>, from: nat) returns (done: bool, k: nat)
      requires Valid() && caller == CallerPc.Register(first, first) && first < upTo <= |works| && from <= |env|
      modifies this
      ensures turns == old(turns) + (k - from) && (!done ==> k == |env|)
      ensures Valid() && old(run) <= run && |works| == |old(works)|
      ensures from <= k <= |env|
      ensures if !done then caller != Returned
              else caller == if upTo < |works| then CallerPc.Register(upTo, upTo) else AfterDispatch(mode.blocking)
      ensures Undisturbed(env, from) && from + 2 * (upTo - first) <= |env| ==>
        && done && k == from + 2 * (upTo - first)
        && (forall i :: 0 <= i < |works| && i < first ==> works[i] == old(works)[i])
        && (forall i :: first <= i < upTo ==> works[i].stage == Queued)
      ensures from + 2 * (upTo - first) <= |env| ==> done && k == from + 2 * (upTo - first)
    {
      done, k := RegisterPart(first, upTo, env, from);
      if !done { return; }
      done, k := EnqueuePart(first, upTo, env, k);
    }

    /** No part to dispatch: the loop of `dispatch_workers` is not entered. */
    method DispatchNothing()
      requires Valid() && mode.incremental && caller == Start && works == []
      modifies this
      ensures turns == old(turns)
      ensures Valid() && old(run) <= run && works == []
      ensures caller == AfterDispatch(mode.blocking)
    {
      Go(CallerPc.Register(0, 0), GoOn);
      Go(CallerPc.Enqueue(0, 0), GoOn);
      Go(AfterDispatch(mode.blocking), GoOn);
    }

    /** The loop over the parts, each counted and then queued. */
    method DispatchAll(ends: seq<nat>, env: seq<Turn>, from: nat) returns (done: bool, k: nat)
      requires Valid() && caller == CallerPc.Register(0, 0) && works != [] && Ends(ends, |works|) && from <= |env|
      modifies this
      ensures turns == old(turns) + (k - from) && (!done ==> k == |env|)
      ensures Valid() && old(run) <= run && |works| == |old(works)|
      ensures from <= k <= |env| && (if done then caller == AfterDispatch(mode.blocking) else caller != Returned)
      ensures Undisturbed(env, from) && from + 2 * |works| <= |env| ==>
        forall i :: 0 <= i < |works| ==> works[i].stage == Queued
      ensures from + 2 * |works| <= |env| ==> done && k == from + 2 * |works|
    {
      var p: nat, first: nat := 0, 0;
      k := from;
      while p < |ends|
        invariant Valid() && old(run) <= run && |works| == |old(works)|
        invariant turns == old(turns) + (k - from)
        invariant from <= k <= |env| && p <= |ends| && first == (if p == 0 then 0 else ends[p - 1])
        invariant caller == if p < |ends| then CallerPc.Register(first, first) else AfterDispatch(mode.blocking)
        invariant Undisturbed(env, from) && from + 2 * |works| <= |env| ==>
          forall i :: 0 <= i < first ==> works[i].stage == Queued
        invariant p == |ends| ==> first == |works|
        invariant first <= |works| && (from + 2 * |works| <= |env| ==> k == from + 2 * first)
      {
        assert p + 1 < |ends| ==> ends[p] < ends[p + 1];
        done, k := DispatchPart(first, ends[p], env, k);
        if !done { return; }
        first, p := ends[p], p + 1;
      }
      done := true;
    }

    /** `dispatch_workers`: part after part. */
    method DispatchParts(ends: seq<nat>, env: seq<Turn>, from: nat) returns (done: bool, k: nat)
      requires Valid() && mode.incremental && caller == Start && Ends(ends, |works|) && from <= |env|
      modifies this
      ensures turns == old(turns) + (k - from) && (!done ==> k == |env|)
      ensures Valid() && old(run) <= run && |works| == |old(works)|
      ensures from <= k <= |env| && (if done then caller == AfterDispatch(mode.blocking) else caller != Returned)
      ensures Undisturbed(env, from) && from + 2 * |works| <= |env| ==>
        done && k == from + 2 * |works| && forall i :: 0 <= i < |works| ==> works[i].stage == Queued
      ensures from + 2 * |works| <= |env| ==> done && k == from + 2 * |works|
    {
      if works == [] {
        DispatchNothing();
        return true, from;
      }
      Go(CallerPc.Register(0, 0), GoOn);
      done, k := DispatchAll(ends, env, from);
    }

    /** The bulk path: the barrier initialised with all the slices at once, then the queue. */
    method DispatchBulk(env: seq<Turn>, from: nat) returns (done: bool, k: nat)
      requires Valid() && !mode.incremental && caller == Start && from <= |env|
      modifies this
      ensures turns == old(turns) + (k - from) && (!done ==> k == |env|)
      ensures Valid() && old(run) <= run && |works| == |old(works)|
      ensures from <= k <= |env| && (if done then caller == AfterDispatch(mode.blocking) else caller != Returned)
      ensures Undisturbed(env, from) && from + |works| <= |env| ==>
        done && k == from + |works| && forall i :: 0 <= i < |works| ==> works[i].stage == Queued
      ensures from + |works| <= |env| ==> done && k == from + |works|
    {
      Initialize();
      done, k := EnqueuePart(0, |works|, env, from);
    }

    method Initialize()
      requires Valid() && !mode.incremental && caller == Start
      modifies this
      ensures turns == old(turns)
      ensures Valid() && old(run) <= run && |works| == |old(works)|
      ensures caller == CallerPc.Enqueue(0, |works|)
    {
      ghost var was := Machine();
      works := seq(|works|, i requires 0 <= i < |works| reads this => Work(Registered, works[i].runs));
      counter := |works|;
      caller := CallerPc.Enqueue(0, |works|);
      Record(was, Caller(GoOn));
    }

    // ----- the caller's own part, and stealing

    /** `perform_caller_work`. */
    method PerformCallerWork(env: seq<Turn>, from: nat) returns (done: bool, k: nat)
      requires Valid() && caller == OwnRegister && from <= |env|
      modifies this
      ensures turns == old(turns) + (k - from)
      ensures Valid() && old(run) <= run && |works| == |old(works)|
      ensures from <= k <= |env| && (if done then caller == CheckEmpty else caller != Returned)
      ensures Undisturbed(env, from) && from + 3 <= |env| ==> done && k == from + 3 && works == old(works)
      ensures if done then k == from + 3 else |env| < from + 3
    {
      k := from;
      if k + 3 > |env| { return false, k; }
      RegisterOwn(env[k].others);
      RunOwn(env[k + 1].others);
      ArriveOwn(env[k + 2].others);
      return true, k + 3;
    }

    method RegisterOwn(others: seq<Action>)
      requires Valid() && caller == OwnRegister
      modifies this
      ensures turns == old(turns) + 1
      ensures Valid() && old(run) <= run && |works| == |old(works)|
      ensures caller == OwnRun
      ensures others == [] ==> works == old(works)
    {
      Interfere(others);
      ghost var was := Machine();
      counter := counter + 1;
      caller := OwnRun;
      Record(was, Caller(GoOn));
    }

    method RunOwn(others: seq<Action>)
      requires Valid() && caller == OwnRun
      modifies this
      ensures turns == old(turns) + 1
      ensures Valid() && old(run) <= run && |works| == |old(works)|
      ensures caller == OwnArrive
      ensures others == [] ==> works == old(works)
    {
      Interfere(others);
      ghost var was := Machine();
      ownRuns := ownRuns + 1;
      caller := OwnArrive;
      Record(was, Caller(GoOn));
    }

    method ArriveOwn(others: seq<Action>)
      requires Valid() && caller == OwnArrive
      modifies this
      ensures turns == old(turns) + 1
      ensures Valid() && old(run) <= run && |works| == |old(works)|
      ensures caller == CheckEmpty
      ensures others == [] ==> works == old(works)
    {
      Interfere(others);
      ValidIsReachable();
      ghost var was := Machine();
      counter := counter - 1;
      caller := CheckEmpty;
      Record(was, Caller(GoOn));
    }

    /** The caller has slice `j` in its hands, and one slice fewer is waiting. */
    predicate Stolen(before: seq<Work>, j: nat)
      reads this
    {
      && j < |works| && |before| == |works|
      && Sum(Waiting, works) == Sum(Waiting, before) - 1
      && works[j].stage != Queued
      && forall i :: 0 <= i < |works| && i != j ==> works[i] == before[i]
    }

    method TakeQueued(i: nat)
      requires Valid() && caller == Steal && i < |works| && works[i].stage == Queued
      modifies this
      ensures turns == old(turns)
      ensures Valid() && old(run) <= run && |works| == |old(works)|
      ensures caller == StealRun(i) && Stolen(old(works), i)
    {
      ghost var was := Machine();
      Updated(Waiting, works, i, works[i].(stage := Taken(OfCaller)));
      works := works[i := works[i].(stage := Taken(OfCaller))];
      caller := StealRun(i);
      Record(was, Caller(Dequeued(i)));
    }

    /** The dequeue of the stealing loop: some slice of this spread, an item of another, or nothing. */
    method DequeueToSteal(turn: Turn) returns (found: bool, j: nat)
      requires Valid() && caller == Steal
      modifies this
      ensures turns == old(turns) + 1
      ensures Valid() && old(run) <= run && |works| == |old(works)|
      ensures if !found then caller == WaitLoad else if j < |works| then caller == StealRun(j) else caller == Steal
      ensures turn == Turn([], false, false) ==>
        if found then j < |works| && Stolen(old(works), j) else works == old(works) && NothingQueued(Machine())
    {
      Interfere(turn.others);
      if turn.foreign {
        Go(Steal, Dequeued(|works|));
        return true, |works|;
      }
      if i :| 0 <= i < |works| && works[i].stage == Queued {
        TakeQueued(i);
        return true, i;
      }
      Go(WaitLoad, FoundEmpty);
      return false, 0;
    }

    /** The slice the caller's program counter names is the one in its hands. */
    lemma InHand(j: nat)
      requires Valid() && j < |works|
      ensures caller == StealRun(j) ==> works[j].stage == Taken(OfCaller) && !mode.blocking
      ensures caller == StealArrive(j) ==> works[j].stage == Ran(OfCaller) && !mode.blocking && counter > 0
    {
      ValidIsReachable();
      OwnSliceIs(Machine(), j);
    }

    /** Only slice `j`, which was not waiting, has changed, and it is not waiting now. */
    predicate Worked(before: seq<Work>, j: nat)
      reads this
    {
      && j < |works| && |before| == |works|
      && Sum(Waiting, works) == Sum(Waiting, before)
      && forall i :: 0 <= i < |works| && i != j ==> works[i] == before[i]
    }

    method RunStolen(j: nat, others: seq<Action>)
      requires Valid() && j < |works| && caller == StealRun(j)
      modifies this
      ensures turns == old(turns) + 1
      ensures Valid() && old(run) <= run && |works| == |old(works)|
      ensures caller == StealArrive(j)
      ensures others == [] ==> Worked(old(works), j)
    {
      Interfere(others);
      InHand(j);
      ghost var was := Machine();
      Updated(Waiting, works, j, Work(Ran(OfCaller), works[j].runs + 1));
      works := works[j := Work(Ran(OfCaller), works[j].runs + 1)];
      caller := StealArrive(j);
      Record(was, Caller(GoOn));
    }

    method ArriveStolen(j: nat, others: seq<Action>)
      requires Valid() && j < |works| && caller == StealArrive(j)
      modifies this
      ensures turns == old(turns) + 1
      ensures Valid() && old(run) <= run && |works| == |old(works)|
      ensures caller == Steal
      ensures others == [] ==> Worked(old(works), j) && works[j].stage == Arrived
    {
      Interfere(others);
      InHand(j);
      ghost var was := Machine();
      Updated(Waiting, works, j, works[j].(stage := Arrived));
      works := works[j := works[j].(stage := Arrived)];
      counter := counter - 1;
      caller := Steal;
      Record(was, Caller(GoOn));
    }

    /** The look at the queue before the stealing loop. */
    method CheckQueue(others: seq<Action>) returns (empty: bool)
      requires Valid() && caller == CheckEmpty
      modifies this
      ensures turns == old(turns) + 1
      ensures Valid() && old(run) <= run && |works| == |old(works)|
      ensures caller == if empty then WaitLoad else Steal
      ensures others == [] ==> works == old(works) && (empty ==> NothingQueued(Machine()))
    {
      Interfere(others);
      empty := NothingQueued(Machine());
      if empty {
        Go(WaitLoad, FoundEmpty);
      } else {
        Go(Steal, GoOn);
      }
    }

    /** One turn of the stealing loop: an item dequeued and worked on, if there is one. */
    method StealOne(turn: Turn, before: seq<Action>, between: seq<Action>)
      returns (found: bool, used: nat)
      requires Valid() && caller == Steal
      modifies this
      ensures turns == old(turns) + used && (used == 1 || (found && used == 3))
      ensures Valid() && old(run) <= run && |works| == |old(works)|
      ensures caller == if found then Steal else WaitLoad
      ensures turn == Turn([], false, false) && before == [] && between == [] ==>
        && (QueuedOrArrived(old(works)) ==> QueuedOrArrived(works))
        && (if found then Sum(Waiting, works) == old(Sum(Waiting, works)) - 1
            else works == old(works) && NothingQueued(Machine()))
    {
      var j;
      found, j := DequeueToSteal(turn);
      used := 1;
      if found && j < |works| {
        RunStolen(j, before);
        ArriveStolen(j, between);
        used := 3;
      }
    }

    /** The caller's stealing loop, entered when the queue does not look empty. */
    method StealUntilEmpty(env: seq<Turn>, from: nat, ghost calm: nat) returns (done: bool, k: nat)
      requires Valid() && caller == CheckEmpty && from <= |env|
      modifies this
      ensures turns == old(turns) + (k - from) && (!done ==> k + 2 >= |env|)
      ensures Valid() && old(run) <= run && |works| == |old(works)|
      ensures from <= k <= |env| && (if done then caller == WaitLoad else caller != Returned)
      ensures
        Undisturbed(env, from) && QueuedOrArrived(old(works)) && from + 3 * old(Sum(Waiting, works)) + 4 <= |env| ==>
        done && k <= from + 3 * old(Sum(Waiting, works)) + 2 && QueuedOrArrived(works) && NothingQueued(Machine())
      ensures Undisturbed(env, calm) ==>
        if done then k <= Latest(from, calm) + 3 * |works| + 4 else |env| <= Latest(from, calm) + 3 * |works| + 5
    {
      if from == |env| { return false, from; }
      var empty := CheckQueue(env[from].others);
      k := from + 1;
      WaitingAtMostAll(works);
      if empty { return true, k; }
      while k + 3 <= |env|
        invariant Valid() && old(run) <= run && |works| == |old(works)|
        invariant turns == old(turns) + (k - from)
        invariant from <= k <= |env| && caller == Steal
        invariant Undisturbed(env, from) && QueuedOrArrived(old(works)) ==>
          k + 3 * Sum(Waiting, works) <= from + 3 * old(Sum(Waiting, works)) + 1 && QueuedOrArrived(works)
        invariant Undisturbed(env, calm) ==> k + 3 * Sum(Waiting, works) <= Latest(from, calm) + 3 * |works| + 3
      {
        var found, used := StealOne(env[k], env[k + 1].others, env[k + 2].others);
        WaitingAtMostAll(works);
        k := k + used;
        if !found { return true, k; }
      }
      done := false;
    }

    // ----- the join

    /** What the join leaves: where the looks at the barrier are exact, a complete spread. */
    ghost predicate Joined()
      reads this
    {
      && (Complete(Machine()) <==> counter == 0)
      && (CastIsExact(|works|, mode) ==> Complete(Machine()))
    }

    lemma JoinedHere()
      requires Valid() && Returns(Machine(), Caller(GoOn))
      ensures Joined()
    {
      ZeroIsComplete(Machine(), Caller(GoOn));
      if CastIsExact(|works|, mode) {
        JoinIsComplete(Machine(), Caller(GoOn));
      }
    }

    /** A look at the barrier: `wait` compares the counter, `spin_wait` the counter cast to the
        thread-count type. */
    predicate SeesAllArrived()
      reads this
    {
      if mode.blocking then counter == 0 else counter % (mode.indexMax + 1) == 0
    }

    /** One look, and the return if it finds nobody missing. */
    method ReturnIfComplete(others: seq<Action>) returns (done: bool)
      requires Valid() && caller == WaitLoad
      modifies this
      ensures turns == old(turns) + 1
      ensures Valid() && old(run) <= run && |works| == |old(works)|
      ensures if done then caller == Returned && Joined() else caller == WaitLoad && counter > 0
      ensures others == [] ==>
        counter == old(counter) && (done <==> old(SeesAllArrived()))
      ensures others == [] ==> works == old(works)
    {
      Interfere(others);
      done := SeesAllArrived();
      if done {
        JoinedHere();
        Go(Returned, GoOn);
      }
    }

    /** `spin_wait`. */
    method SpinWait(env: seq<Turn>, from: nat, ghost calm: nat) returns (done: bool)
      requires Valid() && !mode.blocking && caller == WaitLoad && from <= |env|
      modifies this
      ensures !done ==> turns == old(turns) + (|env| - from)
      ensures Valid() && old(run) <= run && |works| == |old(works)|
      ensures if done then caller == Returned && Joined() else caller != Returned
      ensures Undisturbed(env, from) && from < |env| ==>
        counter == old(counter) && (done <==> old(SeesAllArrived()))
      ensures Undisturbed(env, calm) && Latest(from, calm) < |env| && !done ==> caller == WaitLoad && !SeesAllArrived()
    {
      var k: nat := from;
      while k < |env|
        invariant Valid() && old(run) <= run && |works| == |old(works)|
        invariant turns == old(turns) + (k - from)
        invariant k <= |env| && caller == WaitLoad
        invariant Undisturbed(env, from) ==>
          from <= k && counter == old(counter) && (k > from ==> !SeesAllArrived())
        invariant Undisturbed(env, calm) ==> k <= Latest(from, calm) || !SeesAllArrived()
      {
        done := ReturnIfComplete(env[k].others);
        if done { return; }
        k := k + 1;
      }
      done := false;
    }

    /** The wait's own comparison. */
    method TryPark(seen: nat, others: seq<Action>)
      requires Valid() && caller == WaitPark(seen)
      modifies this
      ensures turns == old(turns) + 1
      ensures Valid() && old(run) <= run && |works| == |old(works)|
      ensures caller == Parked || caller == WaitLoad
      ensures others == [] ==>
        works == old(works) && counter == old(counter) && caller == if counter == seen then Parked else WaitLoad
    {
      Interfere(others);
      Go(if counter == seen then Parked else WaitLoad, GoOn);
    }

    method StayParked(turn: Turn)
      requires Valid() && caller == Parked
      modifies this
      ensures turns == old(turns) + 1
      ensures Valid() && old(run) <= run && |works| == |old(works)|
      ensures caller == Parked || caller == WaitLoad
      ensures turn == Turn([], false, false) ==> Machine() == old(Machine())
    {
      Interfere(turn.others);
      if caller == Parked && turn.spurious {
        ghost var was := Machine();
        caller := WaitLoad;
        Record(was, SpuriousWake);
      }
    }

    /** `counter_.wait_if_equal`: parked until a wake or a return without cause. */
    method WaitIfEqual(seen: nat, env: seq<Turn>, from: nat, ghost calm: nat) returns (woken: bool, k: nat)
      requires Valid() && caller == WaitPark(seen) && from <= |env|
      modifies this
      ensures turns == old(turns) + (k - from) && (!woken ==> k == |env|)
      ensures Valid() && old(run) <= run && |works| == |old(works)|
      ensures from <= k <= |env| && (if woken then caller == WaitLoad else caller != Returned)
      ensures Undisturbed(env, from) && from < |env| && old(counter) == seen ==>
        !woken && caller == Parked && works == old(works) && counter == old(counter)
      ensures Undisturbed(env, calm) ==>
        if woken then k <= Latest(from + 1, calm) else caller == Parked || |env| <= from
    {
      k := from;
      if k == |env| { return false, k; }
      TryPark(seen, env[k].others);
      k := k + 1;
      while k < |env| && caller == Parked
        invariant Valid() && old(run) <= run && |works| == |old(works)|
        invariant turns == old(turns) + (k - from)
        invariant from <= k <= |env| && (caller == Parked || caller == WaitLoad)
        invariant Undisturbed(env, from) && old(counter) == seen ==>
          caller == Parked && works == old(works) && counter == old(counter)
        invariant Undisturbed(env, calm) && caller == WaitLoad ==> k <= Latest(from + 1, calm)
      {
        StayParked(env[k]);
        k := k + 1;
      }
      woken := caller == WaitLoad;
    }

    /** `wait`. Left alone it returns at once from a counter of zero, and parks on any other. */
    method BlockingWait(env: seq<Turn>, from: nat, ghost calm: nat) returns (done: bool)
      requires Valid() && mode.blocking && caller == WaitLoad && from <= |env|
      modifies this
      ensures !done ==> turns == old(turns) + (|env| - from)
      ensures Valid() && old(run) <= run && |works| == |old(works)|
      ensures if done then caller == Returned && Complete(Machine()) else caller != Returned
      ensures Undisturbed(env, from) && from + 2 <= |env| ==>
        && (done <==> old(counter) == 0) && works == old(works) && counter == old(counter)
        && (!done ==> caller == Parked)
      ensures Undisturbed(env, calm) && Latest(from, calm) + 3 <= |env| ==> done || caller == Parked
    {
      var k: nat := from;
      while k < |env|
        invariant Valid() && old(run) <= run && |works| == |old(works)|
        invariant turns == old(turns) + (k - from)
        invariant from <= k <= |env| && caller == WaitLoad
        invariant Undisturbed(env, from) && from + 2 <= |env| ==>
          k == from && works == old(works) && counter == old(counter)
        invariant Undisturbed(env, calm) && Latest(from, calm) + 3 <= |env| ==> k <= Latest(from, calm) + 1
        decreases |env| - k
      {
        done := ReturnIfComplete(env[k].others);
        if done { return; }
        var seen := counter;
        Go(WaitPark(seen), GoOn);
        var woken;
        woken, k := WaitIfEqual(seen, env, k + 1, calm);
        if !woken { return false; }
      }
      done := false;
    }

    /** With every slice through and the caller's own part done, the barrier is at zero. */
    lemma NobodyMissing()
      requires Valid() && caller == WaitLoad
      ensures QueuedOrArrived(works) && NothingQueued(Machine()) ==> counter == 0
    {
      ValidIsReachable();
      Positive(Live, works);
    }

    /** A caller that takes part: its own work, then stealing, then the spinning join. */
    method TakePart(env: seq<Turn>, from: nat, ghost calm: nat) returns (done: bool)
      requires Valid() && !mode.blocking && caller == OwnRegister && from <= |env|
      modifies this
      ensures !done ==> turns + 2 >= old(turns) + (|env| - from)
      ensures Valid() && old(run) <= run && |works| == |old(works)|
      ensures if done then caller == Returned && Joined() else caller != Returned
      ensures Undisturbed(env, from) && QueuedOrArrived(old(works)) && from + 3 * |works| + 8 <= |env| ==>
        done && Complete(Machine())
      ensures Undisturbed(env, calm) && Latest(from, calm) + 3 * |works| + 9 <= |env| ==>
        done || (caller == WaitLoad && !SeesAllArrived())
    {
      var k;
      done, k := PerformCallerWork(env, from);
      if !done { return; }
      WaitingAtMostAll(works);
      done, k := StealUntilEmpty(env, k, calm);
      if !done { return; }
      NobodyMissing();
      done := SpinWait(env, k, calm);
    }

    /** Slices in the queue are in the barrier. */
    lemma QueuedAreCounted()
      requires Valid() && caller == WaitLoad
      ensures (forall i :: 0 <= i < |works| ==> works[i].stage == Queued) ==> counter == |works|
    {
      ValidIsReachable();
      if forall i :: 0 <= i < |works| ==> works[i].stage == Queued {
        AllOnes(Live, works);
      }
    }

    /** `spread_work` after the split. When it returns, every slice has been worked on exactly once,
        by a worker or by the caller, and nothing of the spread is left in the queue, provided the look
        at the barrier is exact or has found a counter of zero. A caller that takes part needs no
        worker: left alone, it runs everything itself, however many slices there are. One that only
        waits leaves them all in the queue and parks. Whatever came before, left alone for long
        enough it has returned, or is parked, or spins on slices that have not arrived. */
    method SpreadWork(ends: seq<nat>, env: seq<Turn>) returns (done: bool)
      requires Valid() && caller == Start && Ends(ends, |works|)
      modifies this
      ensures !done ==> turns + 2 >= old(turns) + |env|
      ensures Valid() && old(run) <= run && |works| == |old(works)|
      ensures done <==> caller == Returned
      ensures done ==> Joined()
      ensures !mode.blocking && Undisturbed(env, 0) && |env| >= 5 * |works| + 8 ==> done && Complete(Machine())
      ensures mode.blocking && Undisturbed(env, 0) && |env| >= 2 * |works| + 2 ==>
        if works == [] then done
        else caller == Parked && forall i :: 0 <= i < |works| ==> works[i].stage == Queued
      ensures |env| >= 5 * |works| + 12 && Undisturbed(env, |env| - (5 * |works| + 12)) ==>
        done || (if mode.blocking then caller == Parked else caller == WaitLoad && !SeesAllArrived())
    {
      ghost var calm := CalmFrom(5 * |works| + 12, env);
      var k;
      if mode.incremental {
        done, k := DispatchParts(ends, env, 0);
      } else {
        done, k := DispatchBulk(env, 0);
      }
      if !done { return; }
      if mode.blocking {
        QueuedAreCounted();
        done := BlockingWait(env, k, calm);
        return;
      }
      done := TakePart(env, k, calm);
    }
  }

  lemma WaitingAtMostAll(works: seq<Work>)
    ensures Sum(Waiting, works) <= |works|
  {
    AtMost(Waiting, works, 1);
  }

  /** The slice the caller's program counter names is the one in its hands, and the barrier counts it. */
  lemma OwnSliceIs(s: State, j: nat)
    requires Inv(s) && j < |s.works|
    ensures s.caller == StealRun(j) ==> s.works[j].stage == Taken(OfCaller) && s.counter > 0
    ensures s.caller == StealArrive(j) ==> s.works[j].stage == Ran(OfCaller) && s.counter > 0
    ensures s.caller.StealRun? || s.caller.StealArrive? ==> !s.mode.blocking
  {
    Positive(Live, s.works);
    assert WorkOk(s.works[j], j, s.caller);
  }
}
