/** The worker loop and the shutdown of the generic shop in the source's own form, with every other
    participant at work between any two steps. Whatever those do, each method is a run of the
    machine of module WorkerPool. */
module WorkerPoolCode {
  import opened Runs
  import opened Schedules
  import opened WorkerPool
  import opened WorkerPoolTheorems
  import opened Tally

  /** What the others do before a step, and the items that the work run in that step enqueues. */
  datatype Turn = Turn(others: seq<Action>, spawns: seq<nat>)

  /** From here on nobody else moves, and the work enqueues nothing. */
  predicate Undisturbed(env: seq<Turn>, from: nat) {
    forall k :: from <= k < |env| ==> env[k] == Turn([], [])
  }

  function Waiting(i: Item): nat { if i.stage == Queued then 1 else 0 }

  /** The item's body has run once. */
  function HasRun(i: Item): Item { i.(stage := Done, runs := i.runs + 1) }

  /** Some of the items that were queued have run, once each; nothing else has happened to any. */
  predicate RanSome(before: seq<Item>, after: seq<Item>) {
    && |after| == |before|
    && forall i :: 0 <= i < |after| ==>
         after[i] == before[i] || (before[i].stage == Queued && after[i] == HasRun(before[i]))
  }

  datatype Side = WorkerSide(w: nat) | StopSide | ItemSide(i: nat) | BulkSide(b: nat)

  predicate IsOf(side: Side, a: Action) {
    match side
    case WorkerSide(w) => (a.WorkerStep? || a.WorkEnqueues?) && a.w == w
    case StopSide => a == StopStep
    case ItemSide(i) => a.OutsideNotify? && a.i == i
    case BulkSide(b) => a.BulkStep? && a.b == b
  }

  /** Nothing has become fresh again or changed its home. */
  predicate NoneFreshAgain(before: seq<Item>, after: seq<Item>) {
    && |after| == |before|
    && forall i :: 0 <= i < |after| ==>
         after[i].home == before[i].home && (before[i].stage != Fresh ==> after[i].stage != Fresh)
  }

  /** The side is where it was. */
  predicate Stands(side: Side, before: State, after: State) {
    && |after.workers| == |before.workers| && |after.items| == |before.items| && |after.bulks| == |before.bulks|
    && match side
       case WorkerSide(w) =>
         w < |after.workers| ==>
           after.workers[w].pc == before.workers[w].pc && after.workers[w].tokens >= before.workers[w].tokens
       case StopSide => after.stop == before.stop && after.exit == before.exit && after.doomed == before.doomed
       case ItemSide(i) =>
         && NoneFreshAgain(before.items, after.items)
         && (i < |after.items| && before.items[i].announcing ==> after.items[i].announcing)
       case BulkSide(b) =>
         && NoneFreshAgain(before.items, after.items)
         && (b < |after.bulks| ==> after.bulks[b] == before.bulks[b])
  }

  /** The others leave a worker where it is, and only add tokens to its event. */
  lemma WorkerStays(s: State, a: Action, w: nat)
    requires Enabled(s, a) && w < |s.workers| && !IsOf(WorkerSide(w), a)
    ensures var n := Next(s, a);
      && |n.workers| == |s.workers|
      && n.workers[w].pc == s.workers[w].pc && n.workers[w].tokens >= s.workers[w].tokens
  {
  }

  lemma StopStays(s: State, a: Action)
    requires Enabled(s, a) && a != StopStep
    ensures var n := Next(s, a); n.stop == s.stop && n.exit == s.exit && n.doomed == s.doomed
  {
  }

  lemma ItemsStay(s: State, a: Action)
    requires Enabled(s, a)
    ensures NoneFreshAgain(s.items, Next(s, a).items)
  {
  }

  /** Nobody else announces an item that has been enqueued. */
  lemma AnnouncingStays(s: State, a: Action, i: nat)
    requires Enabled(s, a) && i < |s.items| && s.items[i].announcing && !IsOf(ItemSide(i), a)
    ensures i < |Next(s, a).items| && Next(s, a).items[i].announcing
  {
  }

  /** Nobody else moves a bulk enqueue. */
  lemma BulkStays(s: State, a: Action, b: nat)
    requires Enabled(s, a) && b < |s.bulks| && !IsOf(BulkSide(b), a)
    ensures b < |Next(s, a).bulks| && Next(s, a).bulks[b] == s.bulks[b]
  {
  }

  lemma SideStays(side: Side, s: State, a: Action)
    requires Enabled(s, a) && !IsOf(side, a)
    ensures Stands(side, s, Next(s, a))
  {
    SizesStay(s, a);
    match side
    case WorkerSide(w) =>
      if w < |s.workers| {
        WorkerStays(s, a, w);
      }
    case StopSide => StopStays(s, a);
    case ItemSide(i) =>
      ItemsStay(s, a);
      if i < |s.items| && s.items[i].announcing {
        AnnouncingStays(s, a, i);
      }
    case BulkSide(b) =>
      ItemsStay(s, a);
      if b < |s.bulks| {
        BulkStays(s, a, b);
      }
  }

  /** What the others make of a state: an action of theirs is taken if it can be. */
  function OthersTake(mine: Side, s: State, a: Action): State {
    if !IsOf(mine, a) && Enabled(s, a) then Next(s, a) else s
  }

  class Pool {
    var workers: seq<Worker>
    var items: seq<Item>
    var bulks: seq<BulkPc>
    /** `brexit_`. */
    var exit: bool
    var stop: StopPc
    var doomed: bool
    /** Every step so far, and the machine's states around them. */
    ghost var run: seq<Action>
    ghost var trace: seq<State>
    /** How many turns of the schedules have gone by. */
    ghost var turns: nat

    function Machine(): State
      reads this
    {
      State(workers, items, bulks, exit, stop, doomed)
    }

    ghost predicate History(last: State)
      reads this
    {
      IsRun(StepsTo, trace, run) && Initial(trace[0]) && trace[|run|] == last
    }

    ghost predicate Valid()
      reads this
    {
      History(Machine())
    }

    /** A started pool of n workers, the items that may be enqueued, and the bulk enqueues that may
        be made. */
    constructor (n: nat, homes: seq<Home>, bulkCount: nat)
      requires n > 0
      requires forall i :: 0 <= i < |homes| ==> if homes[i].Own? then homes[i].target < n else homes[i].bulk < bulkCount
      ensures Valid() && |workers| == n && |items| == |homes| && |bulks| == bulkCount && stop == NotStopped
      ensures forall i :: 0 <= i < |homes| ==> items[i] == Item(homes[i], Fresh, false, 0)
    {
      workers := seq(n, w => Worker(DrainOwn, 0));
      items := seq(|homes|, i requires 0 <= i < |homes| => Item(homes[i], Fresh, false, 0));
      bulks := seq(bulkCount, b => NotBegun);
      exit, stop, doomed := false, NotStopped, false;
      run, turns := [], 0;
      new;
      trace := [Machine()];
    }

    lemma ValidIsReachable()
      requires Valid()
      ensures Reachable(Machine()) && Inv(Machine())
    {
      ReachableInv(Machine());
    }

    /** Adds the step that has just led from `was` to the present state. */
    ghost method Record(was: State, a: Action)
      requires History(was) && Enabled(was, a) && Next(was, a) == Machine() && |workers| == |was.workers|
      modifies `run, `trace
      ensures Valid() && run == old(run) + [a]
    {
      Extends(StepsTo, trace, run, a, Machine());
      run, trace := run + [a], trace + [Machine()];
    }

    method Other(mine: Side, a: Action)
      requires Valid() && Enabled(Machine(), a) && !IsOf(mine, a)
      modifies this
      ensures turns == old(turns)
      ensures Valid() && old(run) <= run && Stands(mine, old(Machine()), Machine())
      ensures Machine() == Next(old(Machine()), a)
    {
      ghost var was := Machine();
      SideStays(mine, was, a);
      var n := Next(Machine(), a);
      workers, items, bulks, exit, stop, doomed := n.workers, n.items, n.bulks, n.exit, n.stop, n.doomed;
      Record(was, a);
    }

    /** The others' steps; one that cannot be taken is passed over. */
    method OthersStep(mine: Side, others: seq<Action>)
      requires Valid()
      modifies this
      ensures turns == old(turns)
      ensures Valid() && old(run) <= run && |workers| == |old(workers)| && |items| == |old(items)|
      ensures Machine() == AfterTurn(OthersTake, mine, old(Machine()), others)
      ensures Stands(mine, old(Machine()), Machine())
      ensures others == [] ==> Machine() == old(Machine())
    {
      for k := 0 to |others|
        invariant turns == old(turns)
        invariant Valid() && old(run) <= run && Stands(mine, old(Machine()), Machine())
        invariant Machine() == AfterTurn(OthersTake, mine, old(Machine()), others[..k])
        invariant others == [] ==> Machine() == old(Machine())
      {
        AfterOne(OthersTake, mine, old(Machine()), others, k);
        if !IsOf(mine, others[k]) && Enabled(Machine(), others[k]) {
          Other(mine, others[k]);
        }
      }
      assert others[..|others|] == others;
    }

    /** A turn of the schedule. */
    method Interfere(mine: Side, others: seq<Action>)
      requires Valid()
      modifies this
      ensures turns == old(turns) + 1
      ensures Valid() && old(run) <= run && |workers| == |old(workers)| && |items| == |old(items)|
      ensures Machine() == AfterTurn(OthersTake, mine, old(Machine()), others)
      ensures Stands(mine, old(Machine()), Machine())
      ensures others == [] ==> Machine() == old(Machine())
    {
      OthersStep(mine, others);
      turns := turns + 1;
    }

    /** The worker's program counter; the items, here and below, where the step changes them. */
    method Move(w: nat, pc: WorkerPc, ghost a: Action)
      requires Valid() && w < |workers| && Enabled(Machine(), a) && Next(Machine(), a) == SetWorker(Machine(), w, pc)
      modifies this
      ensures turns == old(turns)
      ensures Valid() && old(run) <= run && |workers| == |old(workers)| && |items| == |old(items)|
      ensures workers == old(workers)[w := old(workers)[w].(pc := pc)] && items == old(items) && exit == old(exit)
    {
      ghost var was := Machine();
      workers := workers[w := workers[w].(pc := pc)];
      Record(was, a);
    }

    // ----- worker_loop

    method Take(me: nat, own: bool, j: nat)
      requires Valid() && me < |workers| && workers[me].pc == (if own then DrainOwn else DrainAny)
      requires j < |items| && items[j].stage == Queued && (own ==> items[j].home == Own(me))
      modifies this
      ensures turns == old(turns)
      ensures Valid() && old(run) <= run && |workers| == |old(workers)| && |items| == |old(items)|
      ensures items == old(items)[j := old(items)[j].(stage := Taken)] && exit == old(exit)
      ensures workers[me] == old(workers)[me].(pc := Working(j, own))
      ensures Sum(Waiting, items) == old(Sum(Waiting, items)) - 1
    {
      ghost var was := Machine();
      Updated(Waiting, items, j, items[j].(stage := Taken));
      items := items[j := items[j].(stage := Taken)];
      workers := workers[me := workers[me].(pc := Working(j, own))];
      Record(was, WorkerStep(me, j));
    }

    /** A dequeue: from the worker's own producer first, from anybody's then. */
    method Dequeue(me: nat, own: bool, others: seq<Action>) returns (found: bool, i: nat)
      requires Valid() && me < |workers| && workers[me].pc == (if own then DrainOwn else DrainAny)
      modifies this
      ensures turns == old(turns) + 1
      ensures Valid() && old(run) <= run && |workers| == |old(workers)| && |items| == |old(items)|
      ensures found ==> i < |items| && items[i].stage == Taken
      ensures workers[me].pc == if found then Working(i, own) else if own then DrainAny else CheckExit
      ensures others == [] ==> exit == old(exit) && workers[me].tokens == old(workers[me].tokens)
      ensures others == [] && found ==>
        && Sum(Waiting, items) == old(Sum(Waiting, items)) - 1
        && old(items)[i].stage == Queued && items == old(items)[i := old(items)[i].(stage := Taken)]
      ensures others == [] && !found ==> items == old(items) && (!own ==> QueueEmpty(Machine()))
    {
      Interfere(WorkerSide(me), others);
      if j :| 0 <= j < |items| && items[j].stage == Queued && (own ==> items[j].home == Own(me)) {
        found, i := true, j;
        Take(me, own, j);
      } else {
        found, i := false, |items|;
        Move(me, if own then DrainAny else CheckExit, WorkerStep(me, i));
      }
    }

    /** `enqueue` by running work: the item, then the notice to its worker. */
    method Spawn(me: nat, j: nat, others: seq<Action>)
      requires Valid() && me < |workers| && workers[me].pc.Working? && j < |items|
      requires items[j].stage == Fresh && NotifiesSomeone(Machine(), j)
      modifies this
      ensures turns == old(turns)
      ensures Valid() && old(run) <= run && |workers| == |old(workers)| && |items| == |old(items)|
      ensures workers[me].pc == old(workers)[me].pc
      ensures others == [] ==>
        var t := old(items)[j].home.target;
        && items == old(items)[j := old(items)[j].(stage := Queued)] && t < |workers|
        && workers == old(workers)[t := old(workers)[t].(tokens := old(workers)[t].tokens + 1)]
    {
      ghost var was := Machine();
      var pc, target := workers[me].pc, items[j].home.target;
      items := items[j := items[j].(stage := Queued)];
      workers := workers[me := workers[me].(pc := Notifying(pc.item, pc.own, target))];
      Record(was, WorkEnqueues(me, j));
      NotifyTarget(me, pc.item, pc.own, target, others);
    }

    /** `event_.signal()`, by running work. */
    method NotifyTarget(me: nat, item: nat, own: bool, target: nat, others: seq<Action>)
      requires Valid() && me < |workers| && target < |workers| && workers[me].pc == Notifying(item, own, target)
      modifies this
      ensures turns == old(turns)
      ensures Valid() && old(run) <= run && |workers| == |old(workers)| && |items| == |old(items)|
      ensures workers[me].pc == Working(item, own)
      ensures others == [] ==>
        && items == old(items)
        && workers == old(workers)[me := old(workers)[me].(pc := Working(item, own))]
                      [target := Worker(if target == me then Working(item, own) else old(workers)[target].pc,
                                        old(workers)[target].tokens + 1)]
    {
      OthersStep(WorkerSide(me), others);
      ghost var was := Machine();
      workers := workers[target := workers[target].(tokens := workers[target].tokens + 1)];
      workers := workers[me := workers[me].(pc := Working(item, own))];
      Record(was, WorkerStep(me, 0));
    }

    /** What the running work enqueues. */
    method SpawnAll(me: nat, i: nat, own: bool, turn: Turn)
      requires Valid() && me < |workers| && i < |items| && workers[me].pc == Working(i, own)
      modifies this
      ensures turns == old(turns)
      ensures Valid() && old(run) <= run && |workers| == |old(workers)| && |items| == |old(items)|
      ensures workers[me].pc == Working(i, own)
      ensures turn.spawns == [] ==> Machine() == old(Machine())
    {
      for n := 0 to |turn.spawns|
        invariant Valid() && old(run) <= run && |workers| == |old(workers)| && |items| == |old(items)|
        invariant turns == old(turns)
        invariant workers[me].pc == Working(i, own)
        invariant turn.spawns == [] ==> Machine() == old(Machine())
      {
        var j := turn.spawns[n];
        if j < |items| && items[j].stage == Fresh && NotifiesSomeone(Machine(), j) {
          Spawn(me, j, turn.others);
        }
      }
    }

    /** The end of `work()`. */
    method FinishWork(me: nat, i: nat, own: bool)
      requires Valid() && me < |workers| && i < |items| && workers[me].pc == Working(i, own)
      modifies this
      ensures turns == old(turns)
      ensures Valid() && old(run) <= run && |workers| == |old(workers)| && |items| == |old(items)|
      ensures workers[me] == old(workers)[me].(pc := if own then DrainOwn else DrainAny) && exit == old(exit)
      ensures items == old(items)[i := HasRun(old(items)[i])]
      ensures old(items)[i].stage != Queued ==> Sum(Waiting, items) == old(Sum(Waiting, items))
    {
      ghost var was := Machine();
      Updated(Waiting, items, i, items[i].(stage := Done, runs := items[i].runs + 1));
      items := items[i := items[i].(stage := Done, runs := items[i].runs + 1)];
      workers := workers[me := workers[me].(pc := if own then DrainOwn else DrainAny)];
      Record(was, WorkerStep(me, 0));
    }

    /** `work()`, with whatever it enqueues. */
    method Work(me: nat, i: nat, own: bool, turn: Turn)
      requires Valid() && me < |workers| && i < |items| && workers[me].pc == Working(i, own)
      modifies this
      ensures turns == old(turns) + 1
      ensures Valid() && old(run) <= run && |workers| == |old(workers)| && |items| == |old(items)|
      ensures workers[me].pc == if own then DrainOwn else DrainAny
      ensures turn == Turn([], []) ==>
        && exit == old(exit) && workers[me].tokens == old(workers[me].tokens)
        && items == old(items)[i := HasRun(old(items)[i])]
        && (old(items)[i].stage != Queued ==> Sum(Waiting, items) == old(Sum(Waiting, items)))
    {
      Interfere(WorkerSide(me), turn.others);
      SpawnAll(me, i, own, turn);
      FinishWork(me, i, own);
    }

    /** Where a drain stands: at its dequeue, or past it once that has found nothing. */
    function DrainPc(own: bool, empty: bool): WorkerPc {
      if !empty then (if own then DrainOwn else DrainAny) else if own then DrainAny else CheckExit
    }

    /** A dequeue, and the work if it has found some. */
    method DrainOne(me: nat, own: bool, before: Turn, during: Turn) returns (found: bool)
      requires Valid() && me < |workers| && workers[me].pc == (if own then DrainOwn else DrainAny)
      modifies this
      ensures turns == old(turns) + (if found then 2 else 1)
      ensures Valid() && old(run) <= run && |workers| == |old(workers)| && |items| == |old(items)|
      ensures workers[me].pc == DrainPc(own, !found)
      ensures before == during == Turn([], []) ==>
        && exit == old(exit) && workers[me].tokens == old(workers[me].tokens) && RanSome(old(items), items)
        && Sum(Waiting, items) == old(Sum(Waiting, items)) - (if found then 1 else 0)
        && (!found ==> items == old(items) && (!own ==> QueueEmpty(Machine())))
      ensures Sum(Waiting, items) <= |items|
    {
      var i;
      found, i := Dequeue(me, own, before.others);
      if found {
        Work(me, i, own, during);
      }
      AtMost(Waiting, items, 1);
    }

    /** Nothing has happened but that queued items have run. */
    predicate OnlyRan(me: nat, was: State)
      reads this
    {
      && |workers| == |was.workers| && me < |workers| && workers[me].tokens == was.workers[me].tokens
      && exit == was.exit && RanSome(was.items, items)
    }

    /** Either inner loop: dequeue and work until nothing is found. */
    method Drain(me: nat, own: bool, env: seq<Turn>, from: nat, ghost calm: nat) returns (empty: bool, k: nat)
      requires Valid() && me < |workers| && workers[me].pc == (if own then DrainOwn else DrainAny) && from <= |env|
      modifies this
      ensures turns == old(turns) + (k - from)
      ensures Valid() && old(run) <= run && |workers| == |old(workers)| && |items| == |old(items)|
      ensures from <= k <= |env| && workers[me].pc != Exited
      ensures empty ==> workers[me].pc == if own then DrainAny else CheckExit
      ensures Undisturbed(env, from) ==>
        && OnlyRan(me, old(Machine()))
        && k + 2 * Sum(Waiting, items) <= from + 2 * old(Sum(Waiting, items)) + 1
        && (empty && !own ==> QueueEmpty(Machine()))
        && (from + 2 * old(Sum(Waiting, items)) + 1 < |env| ==> empty)
      ensures Undisturbed(env, calm) ==>
        && k + 2 * Sum(Waiting, items) <= Latest(from, calm) + 2 * |items| + 2
        && (empty && !own && k > calm ==> QueueEmpty(Machine()))
      ensures !empty ==> |env| <= k + 1
    {
      k, empty := from, false;
      AtMost(Waiting, items, 1);
      while !empty && k + 1 < |env|
        invariant Valid() && old(run) <= run && |workers| == |old(workers)| && |items| == |old(items)|
        invariant turns == old(turns) + (k - from)
        invariant from <= k <= |env|
        invariant workers[me].pc == DrainPc(own, empty)
        invariant Undisturbed(env, from) ==>
          && OnlyRan(me, old(Machine()))
          && k + 2 * Sum(Waiting, items) <= from + 2 * old(Sum(Waiting, items)) + (if empty then 1 else 0)
          && (empty && !own ==> QueueEmpty(Machine()))
        invariant Undisturbed(env, calm) ==>
          && k + 2 * Sum(Waiting, items) <= Latest(from, calm) + 2 * |items| + (if empty then 2 else 1)
          && (empty && !own && k > calm ==> QueueEmpty(Machine()))
        decreases |env| - k
      {
        var found := DrainOne(me, own, env[k], env[k + 1]);
        empty, k := !found, if found then k + 2 else k + 1;
      }
    }

    /** The look at the exit flag. */
    method CheckFlag(me: nat, others: seq<Action>) returns (exits: bool)
      requires Valid() && me < |workers| && workers[me].pc == CheckExit
      modifies this
      ensures turns == old(turns) + 1
      ensures Valid() && old(run) <= run && |workers| == |old(workers)| && |items| == |old(items)|
      ensures workers[me].pc == (if exits then Exited else Sleep) && (exits ==> exit)
      ensures others == [] ==>
        exits == old(exit) == exit && items == old(items) && workers[me].tokens == old(workers[me].tokens)
    {
      Interfere(WorkerSide(me), others);
      exits := exit;
      Move(me, if exits then Exited else Sleep, WorkerStep(me, 0));
    }

    /** `work_event.wait()`: a token that is there is taken at once, whatever the others do. */
    method WaitForEvent(me: nat, env: seq<Turn>, from: nat, ghost calm: nat) returns (woken: bool, k: nat)
      requires Valid() && me < |workers| && workers[me].pc == Sleep && from <= |env|
      modifies this
      ensures turns == old(turns) + (k - from)
      ensures Valid() && old(run) <= run && |workers| == |old(workers)| && |items| == |old(items)|
      ensures from <= k <= |env| && workers[me].pc == (if woken then DrainOwn else Sleep) && (!woken ==> k == |env|)
      ensures from < |env| && old(workers[me].tokens) > 0 ==> woken && k == from + 1
      ensures Undisturbed(env, from) ==>
        && items == old(items) && exit == old(exit)
        && workers[me].tokens == old(workers[me].tokens) - (if woken then 1 else 0)
      ensures Undisturbed(env, calm) ==>
        if woken then k <= Latest(from, calm) + 1 else workers[me].tokens == 0 || |env| <= Latest(from, calm)
    {
      k := from;
      while k < |env|
        invariant Valid() && old(run) <= run && |workers| == |old(workers)| && |items| == |old(items)|
        invariant turns == old(turns) + (k - from)
        invariant from <= k <= |env| && workers[me].pc == Sleep
        invariant from < |env| && old(workers[me].tokens) > 0 ==> k == from && workers[me].tokens > 0
        invariant Undisturbed(env, from) ==>
          items == old(items) && exit == old(exit) && workers[me].tokens == old(workers[me].tokens)
        invariant Undisturbed(env, calm) ==> k <= Latest(from, calm) || workers[me].tokens == 0
      {
        Interfere(WorkerSide(me), env[k].others);
        k := k + 1;
        if workers[me].tokens > 0 {
          ghost var was := Machine();
          workers := workers[me := Worker(DrainOwn, workers[me].tokens - 1)];
          Record(was, WorkerStep(me, 0));
          return true, k;
        }
      }
      woken := false;
    }

    /** The two inner loops. */
    method DrainBoth(me: nat, env: seq<Turn>, from: nat, ghost calm: nat) returns (empty: bool, k: nat)
      requires Valid() && me < |workers| && workers[me].pc == DrainOwn && from < |env|
      modifies this
      ensures turns == old(turns) + (k - from) && (!empty ==> k + 1 >= |env|)
      ensures Valid() && old(run) <= run && |workers| == |old(workers)| && |items| == |old(items)|
      ensures from <= k <= |env| && workers[me].pc != Exited && (empty ==> workers[me].pc == CheckExit)
      ensures Undisturbed(env, from) ==> OnlyRan(me, old(Machine())) && (empty ==> QueueEmpty(Machine()))
      ensures Undisturbed(env, from) && from + 2 * old(Sum(Waiting, items)) + 4 <= |env| ==>
        empty && k + 2 * Sum(Waiting, items) <= from + 2 * old(Sum(Waiting, items)) + 2
      ensures Undisturbed(env, calm) ==>
        && (empty && k > calm ==> QueueEmpty(Machine()))
        && (if empty then k <= Latest(from, calm) + 2 * |items| + 3 else |env| <= Latest(from, calm) + 2 * |items| + 4)
    {
      empty, k := Drain(me, true, env, from, calm);
      if empty {
        empty, k := Drain(me, false, env, k, calm);
      }
    }

    /** One round of the loop: both inner loops, the look at the exit flag, and the wait. */
    method Round(me: nat, env: seq<Turn>, from: nat, ghost calm: nat) returns (exits: bool, woken: bool, k: nat)
      requires Valid() && me < |workers| && workers[me].pc == DrainOwn && from < |env|
      modifies this
      ensures turns == old(turns) + (k - from) && (!exits && !woken ==> k + 1 >= |env|)
      ensures Valid() && old(run) <= run && |workers| == |old(workers)| && |items| == |old(items)|
      ensures from <= k <= |env| && (woken ==> from < k)
      ensures if exits then workers[me].pc == Exited && exit else workers[me].pc != Exited
      ensures woken ==> !exits && workers[me].pc == DrainOwn
      ensures Undisturbed(env, from) ==>
        && RanSome(old(items), items) && exit == old(exit)
        && workers[me].tokens == old(workers[me].tokens) - (if woken then 1 else 0)
      ensures Undisturbed(env, from) && from + 2 * old(Sum(Waiting, items)) + 4 <= |env| ==>
        && QueueEmpty(Machine()) && exits == exit && woken == (!exit && old(workers[me].tokens) > 0)
        && (!exits && !woken ==> workers[me].pc == Sleep)
        && (woken ==> k + 2 * Sum(Waiting, items) <= from + 2 * old(Sum(Waiting, items)) + 4)
      ensures Undisturbed(env, calm) && woken ==> k <= calm + 2 || QueueEmpty(Machine())
      ensures Undisturbed(env, calm) && Latest(from, calm) + 2 * |items| + 8 <= |env| ==>
        exits || woken || workers[me] == Worker(Sleep, 0)
    {
      var empty;
      exits, woken := false, false;
      empty, k := DrainBoth(me, env, from, calm);
      if !empty || k == |env| { return false, false, k; }
      exits := CheckFlag(me, env[k].others);
      k := k + 1;
      if !exits {
        woken, k := WaitForEvent(me, env, k, calm);
      }
    }

    /** With nothing queued, nothing waits. */
    lemma NoneWaiting()
      ensures QueueEmpty(Machine()) ==> Sum(Waiting, items) == 0
    {
      Positive(Waiting, items);
    }

    /** `worker_loop`. The worker exits only with the flag set. Left alone, it works off everything
        that is queued, on whichever worker and whatever the flag says, and then exits if the flag is
        set; if not, it stands at its wait once it has used up the tokens on its event. Whatever came
        before, left alone for long enough it has exited, waits for a token, or has emptied the queue. */
    method WorkerLoop(me: nat, env: seq<Turn>) returns (exits: bool)
      requires Valid() && me < |workers| && workers[me].pc == DrainOwn
      modifies this
      ensures !exits ==> turns + 1 >= old(turns) + |env|
      ensures Valid() && old(run) <= run && |workers| == |old(workers)| && |items| == |old(items)|
      ensures exits <==> workers[me].pc == Exited
      ensures exits ==> exit
      ensures Undisturbed(env, 0) ==> RanSome(old(items), items) && exit == old(exit)
      ensures Undisturbed(env, 0) && |env| >= 2 * old(Sum(Waiting, items)) + 4 ==>
        QueueEmpty(Machine()) && exits == exit
      ensures Undisturbed(env, 0) && !old(exit)
              && |env| >= 2 * old(Sum(Waiting, items)) + 4 * old(workers[me].tokens) + 4 ==>
        workers[me] == Worker(Sleep, 0)
      ensures |env| >= 2 * |items| + 12 && Undisturbed(env, |env| - (2 * |items| + 12)) ==>
        exits || workers[me] == Worker(Sleep, 0) || QueueEmpty(Machine())
    {
      ghost var calm := CalmFrom(2 * |items| + 12, env);
      var k := 0;
      while k < |env|
        invariant Valid() && old(run) <= run && |workers| == |old(workers)| && |items| == |old(items)|
        invariant turns == old(turns) + k
        invariant k <= |env| && workers[me].pc == DrainOwn
        invariant Undisturbed(env, 0) ==> RanSome(old(items), items) && exit == old(exit)
        invariant Undisturbed(env, 0) && |env| >= 2 * old(Sum(Waiting, items)) + 4 ==>
          (k == 0 && items == old(items)) || (QueueEmpty(Machine()) && !exit)
        invariant Undisturbed(env, 0) && !exit
                  && |env| >= 2 * old(Sum(Waiting, items)) + 4 * old(workers[me].tokens) + 4 ==>
          k + 2 * Sum(Waiting, items) + 4 * workers[me].tokens
            <= 2 * old(Sum(Waiting, items)) + 4 * old(workers[me].tokens)
        invariant Undisturbed(env, calm) ==> k <= calm + 2 || QueueEmpty(Machine())
        decreases |env| - k
      {
        var woken;
        NoneWaiting();
        exits, woken, k := Round(me, env, k, calm);
        if !woken { return; }
      }
      return false;
    }

    // ----- producers

    /** `worker_thread::enqueue` by a thread outside the pool: the item, then the notice. When it
        returns, the item has been taken or its worker's event has a token. */
    method Enqueue(i: nat, others: seq<Action>)
      requires Valid() && i < |items| && items[i].stage == Fresh && items[i].home.Own? && stop == NotStopped
      modifies this
      ensures Valid() && old(run) <= run && |workers| == |old(workers)| && |items| == |old(items)|
      ensures items[i].home == old(items)[i].home && items[i].stage != Fresh && !items[i].announcing
      ensures NotifiesSomeone(Machine(), i) && workers[items[i].home.target].tokens > 0
      ensures others == [] ==>
        var t := old(items)[i].home.target;
        && t < |workers| && workers == old(workers)[t := old(workers)[t].(tokens := old(workers)[t].tokens + 1)]
        && items == old(items)[i := old(items)[i].(stage := Queued, announcing := false)]
    {
      ghost var was := Machine();
      items := items[i := items[i].(stage := Queued, announcing := true)];
      Record(was, OutsideEnqueue(i));
      Interfere(ItemSide(i), others);
      NotifyOwner(i);
    }

    /** `notify()` by the producer. */
    method NotifyOwner(i: nat)
      requires Valid() && i < |items| && items[i].announcing
      modifies this
      ensures Valid() && old(run) <= run && |workers| == |old(workers)| && |items| == |old(items)|
      ensures items == old(items)[i := old(items)[i].(announcing := false)]
      ensures NotifiesSomeone(Machine(), i) && workers[items[i].home.target].tokens > 0
      ensures var t := old(items)[i].home.target;
        t < |workers| && workers == old(workers)[t := old(workers)[t].(tokens := old(workers)[t].tokens + 1)]
    {
      HasOwner(i);
      ghost var was := Machine();
      var t := items[i].home.target;
      workers := workers[t := workers[t].(tokens := workers[t].tokens + 1)];
      items := items[i := items[i].(announcing := false)];
      Record(was, OutsideNotify(i));
    }

    lemma HasOwner(i: nat)
      requires Valid() && i < |items| && items[i].announcing
      ensures NotifiesSomeone(Machine(), i)
    {
      ValidIsReachable();
      assert ItemOk(Machine(), i);
    }

    /** The next item of a bulk enqueue. */
    method FillOne(b: nat, i: nat, others: seq<Action>)
      requires Valid() && b < |bulks| && bulks[b] == Filling && i < |items| && items[i].home == Shared(b)
      modifies this
      ensures Valid() && old(run) <= run && |workers| == |old(workers)| && |items| == |old(items)|
      ensures |bulks| == |old(bulks)| && bulks[b] == Filling
      ensures NoneFreshAgain(old(items), items) && items[i].stage != Fresh
      ensures others == [] ==>
        && workers == old(workers)
        && items == if old(items)[i].stage == Fresh then old(items)[i := old(items)[i].(stage := Queued)]
                    else old(items)
    {
      Interfere(BulkSide(b), others);
      if items[i].stage == Fresh {
        ghost var was := Machine();
        items := items[i := items[i].(stage := Queued)];
        Record(was, BulkStep(b, i));
      }
    }

    /** Only the bulk enqueue moves: from filling to the wakes, or past the last of them. */
    method BulkMoves(b: nat, next: BulkPc, others: seq<Action>)
      requires Valid() && b < |bulks|
      requires (bulks[b] == Filling && next == Telling(0)) || (bulks[b] == Telling(|workers|) && next == Told)
      modifies this
      ensures Valid() && old(run) <= run && |workers| == |old(workers)| && |items| == |old(items)|
      ensures |bulks| == |old(bulks)| && bulks[b] == next && NoneFreshAgain(old(items), items)
      ensures others == [] ==> workers == old(workers) && items == old(items)
    {
      Interfere(BulkSide(b), others);
      ghost var was := Machine();
      bulks := bulks[b := next];
      Record(was, BulkStep(b, |items|));
    }

    method TellOne(b: nat, w: nat, others: seq<Action>)
      requires Valid() && b < |bulks| && w < |workers| && bulks[b] == Telling(w)
      modifies this
      ensures Valid() && old(run) <= run && |workers| == |old(workers)| && |items| == |old(items)|
      ensures |bulks| == |old(bulks)| && bulks[b] == Telling(w + 1) && NoneFreshAgain(old(items), items)
      ensures others == [] ==>
        workers == old(workers)[w := old(workers)[w].(tokens := old(workers)[w].tokens + 1)] && items == old(items)
    {
      Interfere(BulkSide(b), others);
      ghost var was := Machine();
      workers := workers[w := workers[w].(tokens := workers[w].tokens + 1)];
      bulks := bulks[b := Telling(w + 1)];
      Record(was, BulkStep(b, 0));
    }

    /** The first n workers have one token more. */
    predicate ToldUpTo(n: nat, was: seq<Worker>)
      reads this
    {
      && |workers| == |was|
      && forall w :: 0 <= w < |workers| ==>
           workers[w] == if w < n then was[w].(tokens := was[w].tokens + 1) else was[w]
    }

    /** `wake_all_workers` after a bulk enqueue. */
    method TellAll(b: nat, env: seq<Turn>, from: nat) returns (done: bool)
      requires Valid() && b < |bulks| && bulks[b] == Telling(0) && from <= |env|
      modifies this
      ensures Valid() && old(run) <= run && |workers| == |old(workers)| && |items| == |old(items)|
      ensures |bulks| == |old(bulks)| && NoneFreshAgain(old(items), items) && (done ==> bulks[b] == Told)
      ensures |env| > from + |workers| ==> done
      ensures Undisturbed(env, from) && done ==> items == old(items) && ToldUpTo(|workers|, old(workers))
    {
      var w: nat := 0;
      while w < |workers|
        invariant Valid() && old(run) <= run && |workers| == |old(workers)| && |items| == |old(items)|
        invariant |bulks| == |old(bulks)| && NoneFreshAgain(old(items), items)
        invariant w <= |workers| && from + w <= |env| && bulks[b] == Telling(w)
        invariant Undisturbed(env, from) ==> items == old(items) && ToldUpTo(w, old(workers))
      {
        if from + w == |env| { return false; }
        TellOne(b, w, env[from + w].others);
        w := w + 1;
      }
      if from + w == |env| { return false; }
      BulkMoves(b, Told, env[from + w].others);
      return true;
    }

    /** The first n of a batch have been put in the queue. */
    predicate FilledUpTo(n: nat, batch: seq<nat>, was: seq<Item>)
      requires n <= |batch|
      reads this
    {
      && |items| == |was|
      && forall i :: 0 <= i < |items| ==>
           items[i] == if i in batch[..n] && was[i].stage == Fresh then was[i].(stage := Queued) else was[i]
    }

    /** The items of a bulk enqueue, one after the other. */
    method FillAll(b: nat, batch: seq<nat>, env: seq<Turn>) returns (done: bool)
      requires Valid() && b < |bulks| && bulks[b] == Filling
      requires forall k :: 0 <= k < |batch| ==> batch[k] < |items| && items[batch[k]].home == Shared(b)
      modifies this
      ensures Valid() && old(run) <= run && |workers| == |old(workers)| && |items| == |old(items)|
      ensures |bulks| == |old(bulks)| && NoneFreshAgain(old(items), items) && bulks[b] == Filling
      ensures done == (|env| >= |batch|)
      ensures done ==> forall k :: 0 <= k < |batch| ==> items[batch[k]].stage != Fresh
      ensures Undisturbed(env, 0) && done ==> workers == old(workers) && FilledUpTo(|batch|, batch, old(items))
    {
      var k := 0;
      while k < |batch|
        invariant Valid() && old(run) <= run && |workers| == |old(workers)| && |items| == |old(items)|
        invariant |bulks| == |old(bulks)| && NoneFreshAgain(old(items), items) && bulks[b] == Filling
        invariant 0 <= k <= |batch| && k <= |env|
        invariant forall j :: 0 <= j < k ==> items[batch[j]].stage != Fresh
        invariant Undisturbed(env, 0) ==> workers == old(workers) && FilledUpTo(k, batch, old(items))
      {
        if k == |env| { return false; }
        FillOne(b, batch[k], env[k].others);
        assert batch[..k + 1] == batch[..k] + [batch[k]];
        k := k + 1;
      }
      done := true;
    }

    /** The bulk path: all the items into the shared queue, then a signal to every worker. When it
        is done no worker that still rests can do so without a token while one of the items is
        queued, unless somebody else is about to signal it. Left alone, it queues what was fresh and
        gives every worker one token. */
    method EnqueueBulk(b: nat, batch: seq<nat>, env: seq<Turn>) returns (done: bool)
      requires Valid() && b < |bulks| && bulks[b] == NotBegun && stop == NotStopped
      requires forall k :: 0 <= k < |batch| ==> batch[k] < |items| && items[batch[k]].home == Shared(b)
      modifies this
      ensures Valid() && old(run) <= run && |workers| == |old(workers)| && |items| == |old(items)|
      ensures |bulks| == |old(bulks)| && NoneFreshAgain(old(items), items)
      ensures done ==> bulks[b] == Told && forall k :: 0 <= k < |batch| ==> items[batch[k]].stage != Fresh
      ensures |env| > |batch| + |workers| + 1 ==> done
      ensures done ==> forall k, w: nat :: 0 <= k < |batch| && w < |workers| && IsQueued(Machine(), batch[k]) ==>
        Served(w)
      ensures Undisturbed(env, 0) && done ==>
        ToldUpTo(|workers|, old(workers)) && FilledUpTo(|batch|, batch, old(items))
    {
      ghost var was := Machine();
      bulks := bulks[b := Filling];
      Record(was, BulkStep(b, |items|));
      done := FillAll(b, batch, env);
      if !done || |env| == |batch| { return false; }
      BulkMoves(b, Telling(0), env[|batch|].others);
      done := TellAll(b, env, |batch| + 1);
      BatchIsServed(b, batch);
      assert batch[..|batch|] == batch;
    }

    lemma BatchIsServed(b: nat, batch: seq<nat>)
      requires Valid() && forall k :: 0 <= k < |batch| ==> batch[k] < |items| && items[batch[k]].home == Shared(b)
      ensures forall k, w: nat :: 0 <= k < |batch| && w < |workers| && IsQueued(Machine(), batch[k]) ==> Served(w)
    {
      forall k, w: nat | 0 <= k < |batch| && w < |workers| && IsQueued(Machine(), batch[k]) ensures Served(w) {
        ValidIsReachable();
        SharedItemIsServed(Machine(), batch[k], w);
      }
    }

    /** The worker has exited, will look at the queue again, or is about to be signalled. */
    ghost predicate Served(w: nat)
      requires w < |workers|
      reads this
    {
      workers[w].pc == Exited || Awake(workers[w].pc) || workers[w].tokens > 0 || NoticeOnItsWay(Machine(), w)
    }

    // ----- stop_and_destroy_pool

    /** The store of the exit flag. */
    method StoreExit()
      requires Valid() && stop == NotStopped && NoOutsiderAtWork(Machine())
      modifies this
      ensures turns == old(turns)
      ensures Valid() && old(run) <= run && |workers| == |old(workers)| && |items| == |old(items)|
      ensures stop == WakeNext(0) && exit && doomed == old(!QueueEmpty(Machine()) && AllAtTheFlag(Machine()))
      ensures workers == old(workers) && items == old(items)
    {
      ghost var was := Machine();
      doomed := !QueueEmpty(Machine()) && AllAtTheFlag(Machine());
      exit := true;
      stop := WakeNext(0);
      Record(was, StopStep);
    }

    method WakeWorker(w: nat, others: seq<Action>)
      requires Valid() && w < |workers| && stop == WakeNext(w)
      modifies this
      ensures turns == old(turns) + 1
      ensures Valid() && old(run) <= run && |workers| == |old(workers)| && |items| == |old(items)|
      ensures stop == WakeNext(w + 1) && exit == old(exit) && doomed == old(doomed)
      ensures others == [] ==>
        workers == old(workers)[w := old(workers)[w].(tokens := old(workers)[w].tokens + 1)] && items == old(items)
    {
      Interfere(StopSide, others);
      ghost var was := Machine();
      workers := workers[w := workers[w].(tokens := workers[w].tokens + 1)];
      stop := WakeNext(w + 1);
      Record(was, StopStep);
    }

    /** Only `stop` moves: the end of the wakes, a join that finds its worker gone, the last join. */
    method Advance(next: StopPc, others: seq<Action>)
      requires Valid() && (stop.WakeNext? || stop.Join?)
      requires if stop.WakeNext? then stop.w == |workers| && next == Join(0) else stop.w == |workers| && next == Joined
      modifies this
      ensures turns == old(turns) + 1
      ensures Valid() && old(run) <= run && |workers| == |old(workers)| && |items| == |old(items)|
      ensures stop == next && exit == old(exit) && doomed == old(doomed)
      ensures others == [] ==> workers == old(workers) && items == old(items)
    {
      Interfere(StopSide, others);
      ghost var was := Machine();
      stop := next;
      Record(was, StopStep);
    }

    /** `worker.join()`. */
    method JoinWorker(w: nat, env: seq<Turn>, from: nat, ghost calm: nat) returns (joined: bool, k: nat)
      requires Valid() && w < |workers| && stop == Join(w) && from <= |env|
      modifies this
      ensures turns == old(turns) + (k - from)
      ensures Valid() && old(run) <= run && |workers| == |old(workers)| && |items| == |old(items)|
      ensures from <= k <= |env| && exit == old(exit) && doomed == old(doomed)
      ensures stop == Join(if joined then w + 1 else w) && (!joined ==> k == |env|)
      ensures from < |env| && env[from].others == [] && old(workers)[w].pc == Exited ==> joined && k == from + 1
      ensures Undisturbed(env, from) ==>
        workers == old(workers) && items == old(items) && (joined ==> workers[w].pc == Exited)
      ensures Undisturbed(env, calm) ==>
        if joined then k <= Latest(from, calm) + 1 else workers[w].pc != Exited || |env| <= Latest(from, calm)
    {
      k := from;
      while k < |env|
        invariant Valid() && old(run) <= run && |workers| == |old(workers)| && |items| == |old(items)|
        invariant turns == old(turns) + (k - from)
        invariant from <= k <= |env| && exit == old(exit) && doomed == old(doomed) && stop == Join(w)
        invariant (Undisturbed(env, from) || k == from) ==> workers == old(workers) && items == old(items)
        invariant from < |env| && env[from].others == [] && old(workers)[w].pc == Exited ==> k == from
        invariant Undisturbed(env, calm) ==> k <= Latest(from, calm) || workers[w].pc != Exited
      {
        Interfere(StopSide, env[k].others);
        k := k + 1;
        if workers[w].pc == Exited {
          ghost var was := Machine();
          stop := Join(w + 1);
          Record(was, StopStep);
          return true, k;
        }
      }
      joined := false;
    }

    /** `wake_all_workers` on behalf of the shutdown. */
    method WakeAllToStop(env: seq<Turn>) returns (done: bool)
      requires Valid() && stop == WakeNext(0)
      modifies this
      ensures turns == old(turns) + if done then |workers| + 1 else |env|
      ensures Valid() && old(run) <= run && |workers| == |old(workers)| && |items| == |old(items)|
      ensures exit == old(exit) && doomed == old(doomed)
      ensures done == (|env| > |workers|) && stop != Joined && (done ==> stop == Join(0))
      ensures Undisturbed(env, 0) && done ==> items == old(items) && ToldUpTo(|workers|, old(workers))
    {
      var w: nat := 0;
      while w < |workers|
        invariant Valid() && old(run) <= run && |workers| == |old(workers)| && |items| == |old(items)|
        invariant turns == old(turns) + w
        invariant w <= |workers| && w <= |env| && stop == WakeNext(w) && exit == old(exit) && doomed == old(doomed)
        invariant Undisturbed(env, 0) ==> items == old(items) && ToldUpTo(w, old(workers))
      {
        if w == |env| { return false; }
        WakeWorker(w, env[w].others);
        w := w + 1;
      }
      if w == |env| { return false; }
      Advance(Join(0), env[w].others);
      done := true;
    }

    /** The worker to be joined has not exited. */
    predicate JoinHangs()
      reads this
    {
      stop.Join? && stop.w < |workers| && workers[stop.w].pc != Exited
    }

    /** Every worker joined, in order: each as soon as it has exited. */
    method JoinAll(env: seq<Turn>, from: nat, ghost calm: nat) returns (done: bool)
      requires Valid() && stop == Join(0) && from <= |env|
      modifies this
      ensures !done ==> turns == old(turns) + (|env| - from)
      ensures Valid() && old(run) <= run && |workers| == |old(workers)| && |items| == |old(items)|
      ensures exit == old(exit) && doomed == old(doomed)
      ensures (stop.Join? || stop == Joined) && (done <==> stop == Joined)
      ensures Undisturbed(env, from) ==> workers == old(workers) && items == old(items)
      ensures Undisturbed(env, from) && from + |workers| < |env| && old(AllExited()) ==> done
      ensures Undisturbed(env, calm) ==> done || JoinHangs() || |env| <= Latest(from, calm) + |workers|
    {
      var w: nat, k: nat := 0, from;
      while w < |workers|
        invariant Valid() && old(run) <= run && |workers| == |old(workers)| && |items| == |old(items)|
        invariant turns == old(turns) + (k - from)
        invariant w <= |workers| && from <= k <= |env|
        invariant stop == Join(w) && exit == old(exit) && doomed == old(doomed)
        invariant Undisturbed(env, from) ==> workers == old(workers) && items == old(items)
        invariant Undisturbed(env, from) && from + |workers| < |env| && old(AllExited()) ==> k == from + w
        invariant Undisturbed(env, calm) ==> k <= Latest(from, calm) + w
      {
        done, k := JoinWorker(w, env, k, calm);
        if !done { return; }
        w := w + 1;
      }
      if k == |env| { return false; }
      Advance(Joined, env[k].others);
      return true;
    }

    predicate AllExited()
      reads this
    {
      forall w :: 0 <= w < |workers| ==> workers[w].pc == Exited
    }

    /** `stop_and_destroy_pool`, with no outside producer at work. It leaves the queue drained if and
        only if, when it was called, the queue was empty or some worker had yet to make its last
        look at it. Left alone, it sets the flag, wakes every worker once and waits for them. Whatever
        came before, left alone for long enough it has ended or waits for a worker that has not exited. */
    method StopAndDestroyPool(env: seq<Turn>) returns (done: bool)
      requires Valid() && stop == NotStopped && NoOutsiderAtWork(Machine())
      modifies this
      ensures !done ==> turns == old(turns) + |env|
      ensures Valid() && old(run) <= run && |workers| == |old(workers)| && |items| == |old(items)|
      ensures done <==> stop == Joined
      ensures done ==> AllExited()
      ensures done ==> (Drained(Machine()) <==> old(QueueEmpty(Machine()) || !AllAtTheFlag(Machine())))
      ensures Undisturbed(env, 0) && |env| > |workers| ==>
        exit && stop != NotStopped && !stop.WakeNext? && items == old(items) && ToldUpTo(|workers|, old(workers))
      ensures |env| >= 2 * |workers| + 2 && Undisturbed(env, |env| - (2 * |workers| + 2)) ==> done || JoinHangs()
    {
      StoreExit();
      done := WakeAllToStop(env);
      if !done { return; }
      done := JoinAll(env, |workers| + 1, CalmFrom(2 * |workers| + 2, env));
      if done {
        Ended();
      }
    }

    lemma Ended()
      requires Valid() && stop == Joined
      ensures Drained(Machine()) <==> !doomed
      ensures AllExited()
    {
      ValidIsReachable();
      JoinedIsDrained(Machine());
    }
  }
}
