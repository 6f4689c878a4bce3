/** The methods of `futex_rw_mutex` in the source's own form: loops over the packed lock word, with
    other threads at work between any two atomic operations. Whatever those do, each method is a
    run of the machine of module RwMutex, so all that holds of its reachable states holds here. */
module RwMutexCode {
  import opened MachineWord
  import opened RwWord
  import opened RwMutex
  import opened RwMutexTheorems
  import opened Runs
  import opened Schedules

  /** What happens around one atomic operation: the steps other threads take before it, and whether
      it fails (a weak compare-exchange) or returns (a wait) without cause. */
  datatype Interlude = Interlude(others: seq<Action>, spurious: bool)

  /** `Pending`: still inside when the schedule ends. `Overflow`: the source's assertion on the
      reader count fires. */
  datatype Outcome = Completed | Refused | Pending | Overflow

  /** The thread is where it was, or has been woken from its park. */
  predicate OnlyWoken(before: Thread, after: Thread) {
    after == before || (Parked(before.pc) && after == Woken(WakeEveryone, before))
  }

  /** Nobody disturbs the first `k` atomic operations. */
  predicate UndisturbedFor(k: nat, env: seq<Interlude>) {
    |env| >= k && forall i :: 0 <= i < k ==> env[i] == Interlude([], false)
  }

  /** From here on nobody disturbs, and nothing fails or returns without cause. */
  predicate Undisturbed(env: seq<Interlude>, from: nat) {
    forall i :: from <= i < |env| ==> env[i] == Interlude([], false)
  }

  /** In this history thread `t`, standing at `pc`, has taken step k, which found `saw`. */
  predicate FoundAt(run: seq<Action>, trace: seq<State>, t: nat, pc: Pc, saw: Word, k: nat) {
    && k < |run| && k < |trace| && t < |trace[k].threads|
    && run[k] == Step(t, false) && trace[k].threads[t].pc == pc && trace[k].word == saw
  }

  ghost predicate FoundIn(run: seq<Action>, trace: seq<State>, t: nat, pc: Pc, saw: Word, from: nat) {
    exists k: nat :: from <= k < |run| && FoundAt(run, trace, t, pc, saw, k)
  }

  /** What a step has found stays found. */
  lemma FoundStays(
    run: seq<Action>, trace: seq<State>, longer: seq<Action>, states: seq<State>, t: nat, pc: Pc, saw: Word, from: nat)
    requires run <= longer && trace <= states && FoundIn(run, trace, t, pc, saw, from)
    ensures FoundIn(longer, states, t, pc, saw, from)
  {
    var k: nat :| from <= k < |run| && FoundAt(run, trace, t, pc, saw, k);
    assert FoundAt(longer, states, t, pc, saw, k);
  }

  /** A thread, and the count at which the source's assertion stops a reader. */
  datatype Onlooker = Onlooker(me: nat, mostReaders: nat)

  /** What the others make of a state: an action of theirs is taken if it can be. */
  function OthersTake(onlooker: Onlooker, s: State, a: Action): State {
    if a.t == onlooker.me || !Enabled(s, a) then s
    else if EffectOf(s, a).op == AdmitReader && s.word.readers >= onlooker.mostReaders then s
    else Next(s, a)
  }

  class Mutex {
    const policy: Policy
    /** `state_`. */
    var state: Bits
    /** Where every thread stands, the callers of the methods below included. */
    var threads: seq<Thread>
    /** Every step since construction, and the machine's states around them. */
    ghost var run: seq<Action>
    ghost var trace: seq<State>
    /** How many turns of the schedules have gone by. */
    ghost var turns: nat

    ghost function Machine(): State
      requires IsWord(state)
      reads this
    {
      State(policy, Unpack(state), threads)
    }

    ghost predicate Valid()
      reads this
    {
      && IsWord(state)
      && IsRun(StepsTo, trace, run) && Initial(trace[0]) && trace[|run|] == Machine()
    }

    constructor (policy: Policy, width: nat, n: nat)
      requires width >= 4
      ensures Valid() && this.policy == policy && |state| == width && |threads| == n && run == []
    {
      this.policy := policy;
      state := Zero(width);
      threads := seq(n, i => Thread(Idle, 0, false));
      run, turns := [], 0;
      new;
      UnpackBits(state);
      ValueBound(state[..width - 3]);
      assert state[..width - 3] == Zero(width - 3);
      trace := [Machine()];
    }

    /** A valid lock is in a state the machine can reach. */
    lemma ValidIsReachable()
      requires Valid()
      ensures Reachable(Machine())
    {
    }

    /** Adds the machine's next step to the history. */
    ghost method Record(a: Action)
      requires Valid() && Enabled(Machine(), a)
      modifies `run, `trace
      ensures run == old(run) + [a] && trace == old(trace) + [Next(Machine(), a)]
      ensures IsRun(StepsTo, trace, run) && Initial(trace[0])
    {
      Extends(StepsTo, trace, run, a, Next(Machine(), a));
      run, trace := run + [a], trace + [Next(Machine(), a)];
    }

    /** One atomic operation of thread `t`: the word takes its new value and the thread moves on. */
    method Commit(t: nat, word: Bits, self: Thread, ghost a: Action, ghost op: WordOp)
      requires Valid() && a.t == t && Enabled(Machine(), a)
      requires EffectOf(Machine(), a) == Effect(op, self, NoWake)
      requires op == AdmitReader ==> Unpack(state).readers < MaxReaders(|state|)
      requires word == RawApply(state, op)
      modifies this
      ensures turns == old(turns)
      ensures Valid() && run == old(run) + [a] && old(trace) <= trace
      ensures state == word && threads == old(threads)[t := self]
      ensures Applicable(Unpack(old(state)), op) && Unpack(state) == Apply(Unpack(old(state)), op)
    {
      RawRefines(state, op);
      Quiet(Machine(), a);
      Record(a);
      state, threads := word, threads[t := self];
    }

    /** `wake_all`, by thread `t`, which then leaves its operation. */
    method WakeAndLeave(t: nat, wake: Wake)
      requires Valid() && t < |threads|
      requires wake == (if threads[t].pc == RwWake then WakeEveryone else WakeWriters)
      requires threads[t].pc == RwWake || threads[t].pc == RoWake
      modifies this
      ensures Valid() && run == old(run) + [Step(t, false)] && old(trace) <= trace && state == old(state)
      ensures |threads| == |old(threads)| && threads[t] == old(threads[t]).(pc := Idle)
      ensures forall i :: 0 <= i < |threads| && i != t ==> threads[i] == Woken(wake, old(threads[i]))
    {
      Record(Step(t, false));
      threads := WakeAll(wake, threads[t := threads[t].(pc := Idle)]);
    }

    /** Since step `from` thread `t`, standing at `pc`, has taken an atomic step that found `saw`. */
    ghost predicate Found(t: nat, pc: Pc, saw: Word, from: nat)
      reads this
    {
      FoundIn(run, trace, t, pc, saw, from)
    }

    /** The wait of others is over: the interleaved steps, then `wake_all` by thread `me`. */
    method Wake(me: nat, others: seq<Action>, wake: RwMutex.Wake)
      requires Valid() && me < |threads|
      requires wake == (if threads[me].pc == RwWake then WakeEveryone else WakeWriters)
      requires threads[me].pc == RwWake || threads[me].pc == RoWake
      modifies this
      ensures Valid() && old(run) <= run && |state| == |old(state)| && |threads| == |old(threads)|
      ensures threads[me] == old(threads[me]).(pc := Idle)
      ensures old(trace) <= trace
      ensures forall i :: 0 <= i < |threads| ==> threads[i].pc != RwParked
      ensures wake == WakeEveryone ==> forall i :: 0 <= i < |threads| ==> !Parked(threads[i].pc)
      ensures others == [] ==> state == old(state)
    {
      Interfere(me, others);
      WakeAndLeave(me, wake);
    }

    /** The end of a release: the wake, if the atomic step before has found somebody to wake. */
    method WakeIfOwed(
      me: nat, owed: bool, wake: RwMutex.Wake, env: seq<Interlude>, ghost pc: Pc, ghost saw: Word, ghost from: nat)
      returns (outcome: Outcome)
      requires Valid() && me < |threads| && env != [] && Found(me, pc, saw, from)
      requires threads[me].pc == if !owed then Idle else if wake == WakeEveryone then RwWake else RoWake
      requires wake != NoWake
      modifies this
      ensures Valid() && old(run) <= run && Found(me, pc, saw, from)
      ensures |state| == |old(state)| && |threads| == |old(threads)|
      ensures outcome == Completed || outcome == Pending
      ensures outcome == Completed ==> threads[me] == old(threads[me]).(pc := Idle)
      ensures outcome == Completed && owed ==> forall i :: 0 <= i < |threads| ==> threads[i].pc != RwParked
      ensures outcome == Completed && owed && wake == WakeEveryone ==>
        forall i :: 0 <= i < |threads| ==> !Parked(threads[i].pc)
      ensures |env| >= 2 ==> outcome == Completed
      ensures UndisturbedFor(2, env) ==> state == old(state)
    {
      if owed {
        if |env| == 1 { return Pending; }
        Wake(me, env[1].others, wake);
        FoundStays(old(run), old(trace), run, trace, me, pc, saw, from);
      }
      outcome := Completed;
    }

    /** The other threads' steps; one that cannot be taken, or would take the count past the mask,
        is passed over. They can do nothing to `me` but wake it. */
    method Interfere(me: nat, others: seq<Action>)
      requires Valid() && me < |threads|
      modifies this
      ensures turns == old(turns) + 1
      ensures Valid() && old(run) <= run && old(trace) <= trace
      ensures Machine() == AfterTurn(OthersTake, Onlooker(me, MaxReaders(|old(state)|)), old(Machine()), others)
      ensures |state| == |old(state)| && |threads| == |old(threads)|
      ensures OnlyWoken(old(threads[me]), threads[me])
      ensures others == [] ==> state == old(state) && threads == old(threads)
    {
      for k := 0 to |others|
        invariant Valid() && old(run) <= run && old(trace) <= trace
        invariant Machine() ==
          AfterTurn(OthersTake, Onlooker(me, MaxReaders(|old(state)|)), old(Machine()), others[..k])
        invariant turns == old(turns)
        invariant |state| == |old(state)| && |threads| == |old(threads)|
        invariant k == 0 ==> state == old(state) && threads == old(threads)
        invariant OnlyWoken(old(threads[me]), threads[me])
      {
        AfterOne(OthersTake, Onlooker(me, MaxReaders(|old(state)|)), old(Machine()), others, k);
        var a := others[k];
        if a.t != me && a.t < |threads| && MayAct(threads[a.t], a) {
          Other(me, a);
        }
      }
      assert others[..|others|] == others;
      turns := turns + 1;
    }

    method Other(me: nat, a: Action)
      requires Valid() && me < |threads| && a.t != me && Enabled(Machine(), a)
      modifies this
      ensures turns == old(turns)
      ensures Valid() && old(run) <= run && old(trace) <= trace
      ensures |state| == |old(state)| && |threads| == |old(threads)|
      ensures exists wake :: threads[me] == Woken(wake, old(threads[me]))
      ensures Machine() == OthersTake(Onlooker(me, MaxReaders(|old(state)|)), old(Machine()), a)
    {
      var e := Act(policy, Unpack(state), threads[a.t], a);
      if e.op != AdmitReader || Unpack(state).readers < MaxReaders(|state|) {
        RawRefines(state, e.op);
        Record(a);
        state, threads := RawApply(state, e.op), WakeAll(e.wake, threads[a.t := e.self]);
        assert threads[me] == Woken(e.wake, old(threads[me]));
      } else {
        assert threads[me] == Woken(NoWake, old(threads[me]));
      }
    }

    /** One turn of a parked thread's wait. */
    method StayParked(me: nat, around: Interlude)
      requires Valid() && me < |threads| && Parked(threads[me].pc)
      modifies this
      ensures turns == old(turns) + 1
      ensures Valid() && old(run) <= run && |state| == |old(state)| && |threads| == |old(threads)|
      ensures OnlyWoken(old(threads[me]), threads[me])
      ensures around == Interlude([], false) ==> threads == old(threads) && state == old(state)
    {
      Interfere(me, around.others);
      if Parked(threads[me].pc) && around.spurious {
        var up := threads[me].(pc := if threads[me].pc == RwParked then RwLoad else RoLoad);
        Commit(me, state, up, Step(me, true), Keep);
      }
    }

    /** The wait of a thread that has parked: until a wake or a return without cause. */
    method Sleep(me: nat, env: seq<Interlude>, from: nat, ghost calm: nat) returns (k: nat)
      requires Valid() && me < |threads| && from <= |env|
      requires Parked(threads[me].pc) || threads[me].pc == RwLoad || threads[me].pc == RoLoad
      modifies this
      ensures turns == old(turns) + (k - from)
      ensures Valid() && old(run) <= run && |state| == |old(state)| && |threads| == |old(threads)|
      ensures from <= k <= |env| && (Parked(threads[me].pc) ==> k == |env|)
      ensures OnlyWoken(old(threads[me]), threads[me])
      ensures Undisturbed(env, from) ==> threads == old(threads) && state == old(state)
      ensures Undisturbed(env, calm) && !Parked(threads[me].pc) ==> k <= Latest(from, calm)
    {
      k := from;
      while k < |env| && Parked(threads[me].pc)
        invariant Valid() && old(run) <= run && |state| == |old(state)| && |threads| == |old(threads)|
        invariant turns == old(turns) + (k - from)
        invariant from <= k <= |env|
        invariant OnlyWoken(old(threads[me]), threads[me])
        invariant Undisturbed(env, from) ==> threads == old(threads) && state == old(state)
        invariant Undisturbed(env, calm) && !Parked(threads[me].pc) ==> k <= Latest(from, calm)
      {
        StayParked(me, env[k]);
        k := k + 1;
      }
    }

    /** The call of an operation. */
    method Enter(me: nat, op: Op)
      requires Valid() && me < |threads| && MayCall(threads[me], op)
      modifies this
      ensures turns == old(turns)
      ensures Valid() && old(run) <= run && state == old(state)
      ensures threads == old(threads)[me := old(threads[me]).(pc := Entered(op))]
    {
      Commit(me, state, threads[me].(pc := Entered(op)), Call(me, op), Keep);
    }

    // ----- acquire_rw

    /** The load at the top of the loop. */
    method LoadRw(me: nat, others: seq<Action>) returns (observed: Bits)
      requires Valid() && me < |threads| && threads[me].pc == RwLoad
      modifies this
      ensures turns == old(turns) + 1
      ensures Valid() && old(run) <= run && |state| == |old(state)| && |threads| == |old(threads)|
      ensures observed == state && threads[me] == old(threads[me]).(pc := RwTry(Unpack(observed)))
      ensures others == [] ==> state == old(state)
    {
      Interfere(me, others);
      observed := state;
      Commit(me, state, threads[me].(pc := RwTry(Unpack(observed))), Step(me, false), Keep);
    }

    /** The compare-exchange that takes a free lock. */
    method TakeRw(me: nat, observed: Bits, spurious: bool) returns (taken: bool)
      requires Valid() && me < |threads| && |observed| == |state| && threads[me].pc == RwTry(Unpack(observed))
      requires Takeable(Unpack(observed))
      modifies this
      ensures turns == old(turns)
      ensures Valid() && old(run) <= run && |state| == |old(state)| && |threads| == |old(threads)|
      ensures taken == (old(state) == observed && !spurious)
      ensures if taken then
                && threads[me] == old(threads[me]).(pc := Idle, exclusive := true) && NobodyElse(me)
                && Unpack(state) == Unpack(observed).(locked := true)
              else threads[me] == old(threads[me]).(pc := RwTry(Unpack(state))) && state == old(state)
    {
      var n, mine, at := |state|, threads[me], Step(me, spurious);
      UnpackInjective(state, observed);
      taken := state == observed && !spurious;
      if taken {
        var desired := Or(LockedBit(n), And(observed, ParkedBits(n)));
        Commit(me, desired, mine.(pc := Idle, exclusive := true), at, TakeExclusive);
        Alone(me);
      } else {
        Commit(me, state, mine.(pc := RwTry(Unpack(state))), at, Keep);
      }
    }

    /** The compare-exchange that announces a writer. */
    method AnnounceRw(me: nat, observed: Bits, spurious: bool)
      requires Valid() && me < |threads| && |observed| == |state| && threads[me].pc == RwTry(Unpack(observed))
      requires !Takeable(Unpack(observed)) && !Unpack(observed).waiting
      modifies this
      ensures turns == old(turns)
      ensures Valid() && old(run) <= run && |state| == |old(state)| && |threads| == |old(threads)|
      ensures threads[me] == old(threads[me]).(pc := RwTry(Unpack(state)))
      ensures Unpack(state) ==
        if old(state) == observed && !spurious then Unpack(observed).(waiting := true) else Unpack(old(state))
    {
      var n, mine, at := |state|, threads[me], Step(me, spurious);
      UnpackInjective(state, observed);
      if state == observed && !spurious {
        var desired := Or(observed, WaitingBit(n));
        RawRefines(observed, AnnounceWriter);
        Commit(me, desired, mine.(pc := RwTry(Unpack(desired))), at, AnnounceWriter);
      } else {
        Commit(me, state, mine.(pc := RwTry(Unpack(state))), at, Keep);
      }
    }

    /** The wait's own comparison. */
    method CompareAndPark(me: nat, observed: Bits, spurious: bool)
      requires Valid() && me < |threads| && |observed| == |state| && threads[me].pc == RwTry(Unpack(observed))
      requires !Takeable(Unpack(observed)) && Unpack(observed).waiting
      modifies this
      ensures turns == old(turns)
      ensures Valid() && old(run) <= run && state == old(state) && |threads| == |old(threads)|
      ensures threads[me] ==
        old(threads[me]).(pc := if old(state) == observed && !spurious then RwParked else RwLoad)
    {
      UnpackInjective(state, observed);
      var pc := if state == observed && !spurious then RwParked else RwLoad;
      Commit(me, state, threads[me].(pc := pc), Step(me, spurious), Keep);
    }

    /** A blocked, undisturbed pass: it announces the writer, or parks it behind the announcement. */
    predicate BlockedRw(me: nat, was: Word)
      requires IsWord(state)
      reads this
    {
      && me < |threads| && Unpack(state) == was.(waiting := true)
      && threads[me].pc == if was.waiting then RwParked else RwTry(Unpack(state))
    }

    /** One pass of the loop up to the wait: the compare-exchange that takes the lock, the one that
        announces, or the wait's own comparison. */
    method PassRw(me: nat, observed: Bits, around: Interlude) returns (taken: bool, seen: Bits)
      requires Valid() && me < |threads| && |observed| == |state| && threads[me].pc == RwTry(Unpack(observed))
      modifies this
      ensures turns == old(turns) + 1
      ensures Valid() && old(run) <= run && |state| == |old(state)| && seen == state && |threads| == |old(threads)|
      ensures taken ==> threads[me] == old(threads[me]).(pc := Idle, exclusive := true) && NobodyElse(me)
      ensures !taken ==>
        && Acquiring(threads[me].pc) && threads[me] == old(threads[me]).(pc := threads[me].pc)
        && (threads[me].pc.RwTry? ==> threads[me].pc.seen == Unpack(seen))
      ensures old(state) == observed && around == Interlude([], false) ==>
        var w := Unpack(observed);
        if Takeable(w) then taken && Unpack(state) == w.(locked := true) else !taken && BlockedRw(me, w)
    {
      Interfere(me, around.others);
      var n := |state|;
      RawGuards(observed);
      taken := false;
      if And(observed, Or(ReaderMask(n), LockedBit(n))) == Zero(n) {
        taken := TakeRw(me, observed, around.spurious);
      } else if And(observed, WaitingBit(n)) == Zero(n) {
        AnnounceRw(me, observed, around.spurious);
      } else {
        CompareAndPark(me, observed, around.spurious);
      }
      seen := state;
    }

    /** The wait, then the load that re-arms the loop. */
    method WaitRw(me: nat, env: seq<Interlude>, from: nat, ghost calm: nat)
      returns (ended: bool, observed: Bits, k: nat)
      requires Valid() && me < |threads| && from <= |env| && (threads[me].pc == RwParked || threads[me].pc == RwLoad)
      modifies this
      ensures turns == old(turns) + (k - from)
      ensures Valid() && old(run) <= run && |state| == |old(state)| == |observed| && |threads| == |old(threads)|
      ensures from <= k <= |env| && (!ended ==> from < k)
      ensures if ended then Acquiring(threads[me].pc)
              else threads[me] == old(threads[me]).(pc := RwTry(Unpack(observed)))
      ensures Undisturbed(env, from) && old(threads[me]).pc == RwParked ==>
        ended && threads[me].pc == RwParked && state == old(state)
      ensures old(threads[me]).pc == RwLoad && from < |env| && env[from].others == [] ==> state == old(state)
      ensures !ended ==> observed == state
      ensures Undisturbed(env, calm) ==>
        if ended then threads[me].pc == RwParked || |env| <= Latest(from, calm) else k <= Latest(from, calm) + 1
      ensures ended ==> k == |env|
    {
      k := from;
      if threads[me].pc == RwParked {
        k := Sleep(me, env, from, calm);
      }
      ended, observed := k == |env|, state;
      if !ended {
        observed := LoadRw(me, env[k].others);
        k := k + 1;
      }
    }

    /** Passes still to come, at most, for a writer that nobody disturbs and that has seen `observed`. */
    function PassesLeft(observed: Bits): nat
      requires IsWord(observed) && IsWord(state)
      reads this
    {
      if observed != state then 2 else if Takeable(Unpack(state)) || Unpack(state).waiting then 0 else 1
    }

    /** One pass, and the wait if it comes to one. `Refused` here means: round again. */
    method TurnRw(me: nat, observed: Bits, env: seq<Interlude>, from: nat, ghost calm: nat)
      returns (outcome: Outcome, seen: Bits, k: nat)
      requires Valid() && me < |threads| && |observed| == |state| && threads[me].pc == RwTry(Unpack(observed))
      requires from < |env|
      modifies this
      ensures turns == old(turns) + (k - from)
      ensures Valid() && old(run) <= run && |state| == |old(state)| == |seen| && |threads| == |old(threads)|
      ensures from < k <= |env| && outcome != Overflow
      ensures outcome == Completed ==> threads[me] == old(threads[me]).(pc := Idle, exclusive := true) && NobodyElse(me)
      ensures outcome == Refused ==> threads[me] == old(threads[me]).(pc := RwTry(Unpack(seen)))
      ensures outcome == Pending ==> Acquiring(threads[me].pc)
      ensures old(state) == observed && Takeable(Unpack(observed)) && env[from] == Interlude([], false) ==>
        outcome == Completed && Unpack(state) == Unpack(observed).(locked := true)
      ensures old(state) == observed && !Takeable(Unpack(observed)) && Undisturbed(env, from) ==>
        && BlockedRw(me, Unpack(observed))
        && (if Unpack(observed).waiting then outcome == Pending
            else outcome == Refused && k == from + 1 && seen == state)
      ensures Undisturbed(env, calm) && outcome == Pending ==>
        threads[me].pc == RwParked || |env| <= Latest(from + 1, calm)
      ensures Undisturbed(env, calm) && outcome == Refused ==>
        && seen == state && k <= Latest(from + 1, calm) + 1
        && (from >= calm ==> PassesLeft(seen) < old(PassesLeft(observed)))
      ensures outcome == Pending ==> k == |env|
    {
      var taken;
      outcome := Refused;
      taken, seen := PassRw(me, observed, env[from]);
      k := from + 1;
      if taken { return Completed, seen, k; }
      if !threads[me].pc.RwTry? {
        var ended;
        ended, seen, k := WaitRw(me, env, k, calm);
        if ended { return Pending, seen, k; }
      }
    }

    /** How a call of `acquire_rw` stands at the end of its schedule. */
    ghost predicate EndsRw(me: nat, mine: Thread, outcome: Outcome)
      reads this
    {
      && me < |threads|
      && if outcome == Completed then threads[me] == mine.(pc := Idle, exclusive := true) && NobodyElse(me)
         else outcome == Pending && Acquiring(threads[me].pc)
    }

    /** A writer that meets a lock that is not free, undisturbed from its first load on. */
    predicate StaysBlocked(first: Bits)
      requires IsWord(first) && IsWord(state)
      reads this
    {
      state == first || Unpack(state) == Unpack(first).(waiting := true)
    }

    /** The loop, from its first load on. */
    method LoopRw(me: nat, first: Bits, env: seq<Interlude>, ghost calm: nat) returns (outcome: Outcome)
      requires Valid() && me < |threads| && first == state && threads[me].pc == RwTry(Unpack(first)) && env != []
      modifies this
      ensures outcome == Pending ==> turns == old(turns) + |env| - 1
      ensures Valid() && old(run) <= run && |state| == |old(state)| && |threads| == |old(threads)|
      ensures EndsRw(me, old(threads[me]), outcome)
      ensures Takeable(Unpack(first)) && |env| >= 2 && env[1] == Interlude([], false) ==>
        outcome == Completed && Unpack(state) == Unpack(first).(locked := true)
      ensures Undisturbed(env, calm) && calm + 8 <= |env| ==> outcome == Completed || threads[me].pc == RwParked
      ensures Undisturbed(env, 0) && !Takeable(Unpack(first)) ==>
        outcome == Pending && (threads[me].pc == RwParked ==> Unpack(state) == Unpack(first).(waiting := true))
    {
      var n, mine, observed := |state|, threads[me], first;
      var k := 1;
      outcome := Refused;
      while outcome == Refused && k < |env|
        invariant Valid() && old(run) <= run && |threads| == |old(threads)|
        invariant outcome != Completed ==> turns == old(turns) + (k - 1) && (outcome == Refused || k == |env|)
        invariant 1 <= k <= |env| && |state| == |observed| == n
        invariant if outcome == Refused then threads[me] == mine.(pc := RwTry(Unpack(observed)))
                  else EndsRw(me, mine, outcome)
        invariant Takeable(Unpack(first)) && |env| >= 2 && env[1] == Interlude([], false) ==>
          if outcome == Refused then k == 1 && observed == state == first
          else outcome == Completed && Unpack(state) == Unpack(first).(locked := true)
        invariant Undisturbed(env, 0) && !Takeable(Unpack(first)) ==>
          if outcome == Refused then observed == state && StaysBlocked(first)
          else outcome == Pending && (threads[me].pc == RwParked ==> Unpack(state) == Unpack(first).(waiting := true))
        invariant Undisturbed(env, calm) ==>
          if outcome == Refused then k <= calm || k + 2 * PassesLeft(observed) <= calm + 5
          else outcome == Completed || threads[me].pc == RwParked || |env| < calm + 8
        decreases |env| - k
      {
        outcome, observed, k := TurnRw(me, observed, env, k, calm);
      }
      outcome := if outcome == Refused then Pending else outcome;
    }

    /** `acquire_rw`. When it returns, the caller is the only thread holding anything. Undisturbed, it
        takes a free lock at once, and on any other announces itself and parks; and whatever came
        before, left alone for eight operations it has the lock or is parked. */
    method AcquireRw(me: nat, env: seq<Interlude>) returns (outcome: Outcome)
      requires Valid() && me < |threads| && MayCall(threads[me], Op.AcquireRw)
      modifies this
      ensures outcome == Pending ==> turns == old(turns) + |env|
      ensures Valid() && old(run) <= run && |state| == |old(state)| && |threads| == |old(threads)|
      ensures outcome == Completed || outcome == Pending
      ensures outcome == Completed ==> threads[me] == old(threads[me]).(exclusive := true) && NobodyElse(me)
      ensures outcome == Pending ==> Acquiring(threads[me].pc)
      ensures Takeable(Unpack(old(state))) && UndisturbedFor(2, env) ==>
        outcome == Completed && Unpack(state) == Unpack(old(state)).(locked := true)
      ensures !Takeable(Unpack(old(state))) && Undisturbed(env, 0) && |env| >= 8 ==>
        outcome == Pending && threads[me].pc == RwParked && Unpack(state) == Unpack(old(state)).(waiting := true)
      ensures |env| >= 8 && Undisturbed(env, |env| - 8) ==> outcome == Completed || threads[me].pc == RwParked
    {
      Enter(me, Op.AcquireRw);
      if env == [] { return Pending; }
      var observed := LoadRw(me, env[0].others);
      outcome := LoopRw(me, observed, env, CalmFrom(8, env));
    }

    ghost predicate NobodyElse(me: nat)
      reads this
    {
      forall j :: 0 <= j < |threads| && j != me ==> !HoldsSomething(threads[j])
    }

    lemma Alone(me: nat)
      requires Valid() && me < |threads| && threads[me].exclusive
      ensures NobodyElse(me)
    {
      ValidIsReachable();
      MutualExclusion(Machine());
    }

    // ----- release_rw

    /** The exchange. */
    method Exchange(me: nat) returns (announced: bool, ghost saw: Word)
      requires Valid() && me < |threads| && threads[me].pc == RwExchange
      modifies this
      ensures Valid() && run == old(run) + [Step(me, false)] && old(trace) <= trace
      ensures |state| == |old(state)| && |threads| == |old(threads)| && saw == Unpack(old(state))
      ensures threads[me] == old(threads[me]).(pc := if announced then RwWake else Idle, exclusive := false)
      ensures announced == Announced(saw) && Unpack(state) == FREE
    {
      var n, before := |state|, state;
      saw := Unpack(before);
      RawGuards(before);
      announced := And(before, ParkedBits(n)) != Zero(n);
      var self := threads[me].(pc := if announced then RwWake else Idle, exclusive := false);
      Commit(me, Zero(n), self, Step(me, false), Clear);
    }

    method ExchangeAmong(me: nat, others: seq<Action>, ghost from: nat) returns (announced: bool, ghost saw: Word)
      requires Valid() && me < |threads| && threads[me].pc == RwExchange && from <= |run|
      modifies this
      ensures Valid() && old(run) <= run && |state| == |old(state)| && |threads| == |old(threads)|
      ensures threads[me] == old(threads[me]).(pc := if announced then RwWake else Idle, exclusive := false)
      ensures announced == Announced(saw) && Found(me, RwExchange, saw, from)
      ensures Unpack(state) == FREE && (others == [] ==> saw == Unpack(old(state)))
    {
      Interfere(me, others);
      ghost var at := |run|;
      announced, saw := Exchange(me);
      assert FoundAt(run, trace, me, RwExchange, saw, at);
    }

    /** `release_rw`: the exchange, then the wake unless nobody has announced: if the exchange found
        an announcement, nobody is left parked. */
    method ReleaseRw(me: nat, env: seq<Interlude>) returns (outcome: Outcome, ghost saw: Word)
      requires Valid() && me < |threads| && MayCall(threads[me], Op.ReleaseRw)
      modifies this
      ensures Valid() && old(run) <= run && |threads| == |old(threads)|
      ensures outcome == Completed || outcome == Pending
      ensures outcome == Completed ==> threads[me] == old(threads[me]).(exclusive := false)
      ensures outcome == Completed ==> Found(me, RwExchange, saw, |old(run)|)
      ensures outcome == Completed && Announced(saw) ==> forall i :: 0 <= i < |threads| ==> !Parked(threads[i].pc)
      ensures |env| >= 2 ==> outcome == Completed
      ensures UndisturbedFor(2, env) ==> saw == Unpack(old(state)) && |state| == |old(state)| && Unpack(state) == FREE
    {
      saw := FREE;
      Enter(me, Op.ReleaseRw);
      if env == [] { return Pending, saw; }
      var announced;
      announced, saw := ExchangeAmong(me, env[0].others, |old(run)|);
      outcome := WakeIfOwed(me, announced, WakeEveryone, env, RwExchange, saw, |old(run)|);
    }

    // ----- try_acquire_rw

    /** What a refusal has found: somebody reading or writing, or a word that changed under it. */
    ghost predicate RwWasTaken(me: nat, from: nat)
      reads this
    {
      || (exists saw :: Found(me, TryRwLoad, saw, from) && !Takeable(saw))
      || (exists seen, saw :: Found(me, TryRwCas(seen), saw, from) && saw != seen)
    }

    /** The load, by itself. */
    method LookTryRw(me: nat) returns (observed: Bits, free: bool)
      requires Valid() && me < |threads| && threads[me].pc == TryRwLoad
      modifies this
      ensures Valid() && run == old(run) + [Step(me, false)] && old(trace) <= trace
      ensures |threads| == |old(threads)| && observed == state == old(state) && (free <==> Takeable(Unpack(observed)))
      ensures threads[me] == old(threads[me]).(pc := if free then TryRwCas(Unpack(observed)) else Idle)
    {
      observed := state;
      var n := |state|;
      RawGuards(observed);
      free := And(observed, Or(ReaderMask(n), LockedBit(n))) == Zero(n);
      Commit(me, state, threads[me].(pc := if free then TryRwCas(Unpack(observed)) else Idle), Step(me, false), Keep);
    }

    method LoadTryRw(me: nat, others: seq<Action>, ghost from: nat) returns (observed: Bits, free: bool)
      requires Valid() && me < |threads| && threads[me].pc == TryRwLoad && from <= |run|
      modifies this
      ensures Valid() && old(run) <= run && |state| == |old(state)| && |threads| == |old(threads)|
      ensures observed == state && (free <==> Takeable(Unpack(observed))) && (others == [] ==> state == old(state))
      ensures threads[me] == old(threads[me]).(pc := if free then TryRwCas(Unpack(observed)) else Idle)
      ensures !free ==> RwWasTaken(me, from)
    {
      Interfere(me, others);
      ghost var at := |run|;
      observed, free := LookTryRw(me);
      assert FoundAt(run, trace, me, TryRwLoad, Unpack(observed), at);
      assert Found(me, TryRwLoad, Unpack(observed), from);
    }

    /** The strong compare-exchange, by itself. */
    method CompareTryRw(me: nat, observed: Bits) returns (taken: bool)
      requires Valid() && me < |threads| && |observed| == |state|
      requires Takeable(Unpack(observed)) && threads[me].pc == TryRwCas(Unpack(observed))
      modifies this
      ensures Valid() && run == old(run) + [Step(me, false)] && old(trace) <= trace
      ensures |state| == |old(state)| && |threads| == |old(threads)| && taken == (old(state) == observed)
      ensures threads[me] == old(threads[me]).(pc := Idle, exclusive := taken || old(threads[me]).exclusive)
      ensures Unpack(state) == if taken then Unpack(observed).(locked := true) else Unpack(old(state))
    {
      var n, mine := |state|, threads[me];
      UnpackInjective(state, observed);
      taken := state == observed;
      if taken {
        var desired := Or(LockedBit(n), And(observed, ParkedBits(n)));
        Commit(me, desired, mine.(pc := Idle, exclusive := true), Step(me, false), TakeExclusive);
      } else {
        Commit(me, state, mine.(pc := Idle), Step(me, false), Keep);
      }
    }

    method CasTryRw(me: nat, observed: Bits, others: seq<Action>, ghost from: nat) returns (taken: bool)
      requires Valid() && me < |threads| && |observed| == |state|
      requires Takeable(Unpack(observed)) && threads[me].pc == TryRwCas(Unpack(observed))
      requires from <= |run|
      modifies this
      ensures Valid() && old(run) <= run && |state| == |old(state)| && |threads| == |old(threads)|
      ensures taken ==> threads[me] == old(threads[me]).(pc := Idle, exclusive := true) && NobodyElse(me)
      ensures taken ==> Unpack(state) == Unpack(observed).(locked := true)
      ensures !taken ==> threads[me] == old(threads[me]).(pc := Idle) && RwWasTaken(me, from)
      ensures others == [] && old(state) == observed ==> taken
    {
      Interfere(me, others);
      ghost var at, saw := |run|, Unpack(state);
      UnpackInjective(state, observed);
      taken := CompareTryRw(me, observed);
      assert FoundAt(run, trace, me, TryRwCas(Unpack(observed)), saw, at);
      assert Found(me, TryRwCas(Unpack(observed)), saw, from);
      if taken {
        Alone(me);
      }
    }

    /** `try_acquire_rw`. A refusal leaves the caller as it was, and has found a reason; a free lock
        that nobody disturbs is taken. */
    method TryAcquireRw(me: nat, env: seq<Interlude>) returns (outcome: Outcome)
      requires Valid() && me < |threads| && MayCall(threads[me], Op.TryAcquireRw)
      modifies this
      ensures Valid() && old(run) <= run && |state| == |old(state)| && |threads| == |old(threads)|
      ensures outcome != Overflow && (|env| >= 2 ==> outcome != Pending)
      ensures outcome == Completed ==> threads[me] == old(threads[me]).(exclusive := true) && NobodyElse(me)
      ensures outcome == Refused ==> threads[me] == old(threads[me]) && RwWasTaken(me, |old(run)|)
      ensures UndisturbedFor(2, env) ==>
        var was := Unpack(old(state));
        if Takeable(was) then outcome == Completed && Unpack(state) == was.(locked := true)
        else outcome == Refused && Unpack(state) == was
    {
      Enter(me, Op.TryAcquireRw);
      if env == [] { return Pending; }
      var observed, free := LoadTryRw(me, env[0].others, |old(run)|);
      if !free { return Refused; }
      if |env| == 1 { return Pending; }
      var taken := CasTryRw(me, observed, env[1].others, |old(run)|);
      return if taken then Completed else Refused;
    }

    // ----- acquire_ro_core

    /** `reader_blocking_bits` of the policy. */
    function BlockingBits(n: nat): (x: Bits)
      requires n >= 4
      ensures |x| == n
    {
      if policy == WriterPreferring then Or(LockedBit(n), WaitingBit(n)) else LockedBit(n)
    }

    /** A reader is let in: no blocking bit, and the count is below the mask. */
    predicate Admits(x: Bits)
      requires IsWord(x)
    {
      !Blocks(policy, Unpack(x)) && Unpack(x).readers < MaxReaders(|x|)
    }

    lemma BlockingGuard(x: Bits)
      requires IsWord(x)
      ensures And(x, BlockingBits(|x|)) != Zero(|x|) <==> Blocks(policy, Unpack(x))
    {
      RawGuards(x);
    }

    ghost predicate NobodyWrites()
      reads this
    {
      forall j :: 0 <= j < |threads| ==> !threads[j].exclusive
    }

    lemma NoWriter(me: nat)
      requires Valid() && me < |threads| && threads[me].holds > 0
      ensures NobodyWrites()
    {
      ValidIsReachable();
      MutualExclusion(Machine());
    }

    /** The load, by itself. */
    method LookRo(me: nat) returns (observed: Bits)
      requires Valid() && me < |threads| && threads[me].pc == RoLoad
      modifies this
      ensures turns == old(turns)
      ensures Valid() && run == old(run) + [Step(me, false)] && old(trace) <= trace
      ensures observed == state == old(state) && |threads| == |old(threads)|
      ensures threads[me] == old(threads[me]).(pc := RoTry(Unpack(observed)))
    {
      observed := state;
      Commit(me, state, threads[me].(pc := RoTry(Unpack(observed))), Step(me, false), Keep);
    }

    /** The source's assertion would fire: no bit blocks readers, and the count is at the mask. */
    predicate AtTheMask(x: Bits)
      requires IsWord(x)
    {
      !Blocks(policy, Unpack(x)) && Unpack(x).readers == MaxReaders(|x|)
    }

    /** Since step `from` a load of this thread has found a word at which the assertion fires. */
    ghost predicate FoundTheMask(me: nat, from: nat)
      requires IsWord(state)
      reads this
    {
      exists saw ::
        Found(me, RoLoad, saw, from) && !Blocks(policy, saw) && saw.readers == MaxReaders(|state|)
    }

    method LoadRo(me: nat, others: seq<Action>, ghost from: nat) returns (observed: Bits)
      requires Valid() && me < |threads| && threads[me].pc == RoLoad && from <= |run|
      modifies this
      ensures turns == old(turns) + 1
      ensures Valid() && old(run) <= run && |state| == |old(state)| && |threads| == |old(threads)|
      ensures observed == state && threads[me] == old(threads[me]).(pc := RoTry(Unpack(observed)))
      ensures others == [] ==> state == old(state)
      ensures AtTheMask(observed) ==> FoundTheMask(me, from)
    {
      Interfere(me, others);
      ghost var at := |run|;
      observed := LookRo(me);
      assert FoundAt(run, trace, me, RoLoad, Unpack(observed), at);
      assert Found(me, RoLoad, Unpack(observed), from);
    }

    /** The compare-exchange that admits the reader. */
    method AdmitRo(me: nat, observed: Bits, spurious: bool) returns (admitted: bool)
      requires Valid() && me < |threads| && |observed| == |state| && threads[me].pc == RoTry(Unpack(observed))
      requires Admits(observed)
      modifies this
      ensures turns == old(turns)
      ensures Valid() && old(run) <= run && |state| == |old(state)| && |threads| == |old(threads)|
      ensures admitted == (old(state) == observed && !spurious)
      ensures if admitted then
                && threads[me] == old(threads[me]).(pc := Idle, holds := old(threads[me]).holds + 1) && NobodyWrites()
                && Unpack(state) == Unpack(observed).(readers := Unpack(observed).readers + 1)
              else threads[me] == old(threads[me]).(pc := RoLoad) && state == old(state)
    {
      var mine, at := threads[me], Step(me, spurious);
      UnpackInjective(state, observed);
      admitted := state == observed && !spurious;
      if admitted {
        Commit(me, Increment(observed), mine.(pc := Idle, holds := mine.holds + 1), at, AdmitReader);
        NoWriter(me);
      } else {
        Commit(me, state, mine.(pc := RoLoad), at, Keep);
      }
    }

    /** The compare-exchange that announces a reader. */
    method AnnounceRo(me: nat, observed: Bits, spurious: bool)
      requires Valid() && me < |threads| && |observed| == |state| && threads[me].pc == RoTry(Unpack(observed))
      requires Blocks(policy, Unpack(observed)) && !Unpack(observed).parked
      modifies this
      ensures turns == old(turns)
      ensures Valid() && old(run) <= run && |state| == |old(state)| && |threads| == |old(threads)|
      ensures threads[me] == old(threads[me]).(pc := RoLoad)
      ensures Unpack(state) ==
        if old(state) == observed && !spurious then Unpack(observed).(parked := true) else Unpack(old(state))
    {
      var n, mine, at := |state|, threads[me], Step(me, spurious);
      UnpackInjective(state, observed);
      if state == observed && !spurious {
        Commit(me, Or(observed, ParkedBit(n)), mine.(pc := RoLoad), at, AnnounceReader);
      } else {
        Commit(me, state, mine.(pc := RoLoad), at, Keep);
      }
    }

    /** The wait's own comparison. */
    method CompareAndParkRo(me: nat, observed: Bits, spurious: bool)
      requires Valid() && me < |threads| && |observed| == |state| && threads[me].pc == RoTry(Unpack(observed))
      requires Blocks(policy, Unpack(observed)) && Unpack(observed).parked
      modifies this
      ensures turns == old(turns)
      ensures Valid() && old(run) <= run && state == old(state) && |threads| == |old(threads)|
      ensures threads[me] ==
        old(threads[me]).(pc := if old(state) == observed && !spurious then RoParked else RoLoad)
    {
      UnpackInjective(state, observed);
      var pc := if state == observed && !spurious then RoParked else RoLoad;
      Commit(me, state, threads[me].(pc := pc), Step(me, spurious), Keep);
    }

    /** A blocked, undisturbed pass: it announces the reader, or parks it behind the announcement. */
    predicate BlockedRo(me: nat, was: Word)
      requires IsWord(state)
      reads this
    {
      && me < |threads| && Unpack(state) == was.(parked := true)
      && threads[me].pc == if was.parked then RoParked else RoLoad
    }

    /** An undisturbed pass after a load of `was`. */
    predicate PassedRo(me: nat, was: Word, outcome: Outcome)
      requires IsWord(state)
      reads this
    {
      if Blocks(policy, was) then outcome == Pending && BlockedRo(me, was)
      else if was.readers >= MaxReaders(|state|) then outcome == Overflow && Unpack(state) == was
      else outcome == Completed && Unpack(state) == was.(readers := was.readers + 1)
    }

    /** One pass of the loop after its load: the admission, the announcement, or the wait's own
        comparison. */
    method PassRo(me: nat, observed: Bits, around: Interlude, ghost from: nat) returns (outcome: Outcome)
      requires Valid() && me < |threads| && |observed| == |state| && threads[me].pc == RoTry(Unpack(observed))
      requires AtTheMask(observed) ==> FoundTheMask(me, from)
      modifies this
      ensures turns == old(turns) + 1
      ensures Valid() && old(run) <= run && |state| == |old(state)| && |threads| == |old(threads)|
      ensures outcome != Refused && (outcome == Overflow ==> FoundTheMask(me, from))
      ensures outcome == Completed ==>
        threads[me] == old(threads[me]).(pc := Idle, holds := old(threads[me]).holds + 1) && NobodyWrites()
      ensures outcome == Pending ==>
        threads[me] == old(threads[me]).(pc := RoLoad) || threads[me] == old(threads[me]).(pc := RoParked)
      ensures old(state) == observed && around == Interlude([], false) ==> PassedRo(me, Unpack(observed), outcome)
    {
      Interfere(me, around.others);
      if AtTheMask(observed) {
        ghost var saw :|
          old(Found(me, RoLoad, saw, from)) && !Blocks(policy, saw) && saw.readers == MaxReaders(|state|);
        FoundStays(old(run), old(trace), run, trace, me, RoLoad, saw, from);
      }
      var n := |state|;
      outcome := Pending;
      BlockingGuard(observed);
      UnpackBits(observed);
      RawGuards(observed);
      if And(observed, BlockingBits(n)) == Zero(n) {
        CountFits(observed);
        if And(observed, ReaderMask(n)) == ReaderMask(n) { return Overflow; }
        var admitted := AdmitRo(me, observed, around.spurious);
        outcome := if admitted then Completed else Pending;
      } else if And(observed, ParkedBit(n)) == Zero(n) {
        AnnounceRo(me, observed, around.spurious);
      } else {
        CompareAndParkRo(me, observed, around.spurious);
      }
    }

    /** The wait. */
    method WaitRo(me: nat, env: seq<Interlude>, from: nat, ghost calm: nat) returns (k: nat)
      requires Valid() && me < |threads| && from <= |env| && (threads[me].pc == RoParked || threads[me].pc == RoLoad)
      modifies this
      ensures turns == old(turns) + (k - from)
      ensures Valid() && old(run) <= run && |state| == |old(state)| && |threads| == |old(threads)|
      ensures from <= k <= |env|
      ensures threads[me] == old(threads[me]).(pc := RoLoad) || threads[me] == old(threads[me]).(pc := RoParked)
      ensures Undisturbed(env, from) ==> threads == old(threads) && state == old(state)
      ensures old(threads[me]).pc == RoLoad ==> k == from && threads == old(threads) && state == old(state)
      ensures Undisturbed(env, calm) && threads[me].pc == RoLoad ==> k <= Latest(from, calm)
      ensures Parked(threads[me].pc) ==> k == |env|
    {
      k := from;
      if threads[me].pc == RoParked {
        k := Sleep(me, env, from, calm);
      }
    }

    /** The load and the pass after it. */
    method TurnRo(me: nat, others: seq<Action>, around: Interlude, ghost from: nat) returns (outcome: Outcome)
      requires Valid() && me < |threads| && threads[me].pc == RoLoad && from <= |run|
      modifies this
      ensures turns == old(turns) + 2
      ensures Valid() && old(run) <= run && |state| == |old(state)| && |threads| == |old(threads)|
      ensures outcome != Refused && (outcome == Overflow ==> FoundTheMask(me, from))
      ensures outcome == Completed ==>
        threads[me] == old(threads[me]).(pc := Idle, holds := old(threads[me]).holds + 1) && NobodyWrites()
      ensures outcome == Pending ==>
        threads[me] == old(threads[me]) || threads[me] == old(threads[me]).(pc := RoParked)
      ensures others == [] && around == Interlude([], false) ==> PassedRo(me, Unpack(old(state)), outcome)
    {
      var observed := LoadRo(me, others, from);
      outcome := PassRo(me, observed, around, from);
    }

    /** Undisturbed, the loop admits an admissible reader, and has any other announce itself and park. */
    predicate EndedRo(me: nat, was: Word, outcome: Outcome)
      requires IsWord(state)
      reads this
    {
      if Blocks(policy, was) then
        outcome == Pending && me < |threads| && threads[me].pc == RoParked && Unpack(state) == was.(parked := true)
      else PassedRo(me, was, outcome)
    }

    /** Left alone for long enough: two operations to admit a reader, four to park one. */
    predicate Calm(was: Word, env: seq<Interlude>) {
      (!Blocks(policy, was) && UndisturbedFor(2, env)) || (Undisturbed(env, 0) && |env| >= 4)
    }

    /** How a call of `acquire_ro_core` stands at the end of its schedule. */
    ghost predicate EndsRo(me: nat, mine: Thread, outcome: Outcome, from: nat)
      requires IsWord(state)
      reads this
    {
      && me < |threads| && outcome != Refused
      && (outcome == Completed ==>
            threads[me] == mine.(pc := Idle, holds := mine.holds + 1) && NobodyWrites())
      && (outcome == Overflow ==> FoundTheMask(me, from))
    }

    /** Once round the loop: a turn, and the wait if it parked. */
    method RoundRo(me: nat, env: seq<Interlude>, at: nat, ghost from: nat, ghost calm: nat)
      returns (outcome: Outcome, ended: bool, k: nat)
      requires Valid() && me < |threads| && threads[me].pc == RoLoad && from <= |run| && at + 1 < |env|
      modifies this
      ensures turns == old(turns) + (k - at)
      ensures Valid() && old(run) <= run && |state| == |old(state)| && |threads| == |old(threads)|
      ensures at + 2 <= k <= |env| && (ended && outcome == Pending ==> k == |env| && threads[me].pc == RoParked)
      ensures if ended then EndsRo(me, old(threads[me]), outcome, from)
              else outcome == Pending && threads[me] == old(threads[me])
      ensures env[at].others == [] && env[at + 1] == Interlude([], false) && !Blocks(policy, Unpack(old(state))) ==>
        ended && PassedRo(me, Unpack(old(state)), outcome)
      ensures Undisturbed(env, at) && Blocks(policy, Unpack(old(state))) ==>
        && outcome == Pending && Unpack(state) == Unpack(old(state)).(parked := true)
        && ended == Unpack(old(state)).parked && (!ended ==> k == at + 2)
      ensures Undisturbed(env, calm) && !ended ==> k <= Latest(at + 2, calm)
    {
      outcome := TurnRo(me, env[at].others, env[at + 1], from);
      ended, k := outcome != Pending, at + 2;
      if !ended {
        k := WaitRo(me, env, k, calm);
        ended := threads[me].pc == RoParked;
      }
    }

    /** The loop of `acquire_ro_core`. */
    method LoopRo(me: nat, env: seq<Interlude>, ghost from: nat, ghost calm: nat) returns (outcome: Outcome)
      requires Valid() && me < |threads| && threads[me].pc == RoLoad && from <= |run|
      modifies this
      ensures outcome == Pending ==> turns + 1 >= old(turns) + |env|
      ensures Valid() && old(run) <= run && |state| == |old(state)| && |threads| == |old(threads)|
      ensures EndsRo(me, old(threads[me]), outcome, from)
      ensures Calm(Unpack(old(state)), env) ==> EndedRo(me, Unpack(old(state)), outcome)
      ensures Undisturbed(env, calm) && calm + 8 <= |env| ==> outcome != Pending || threads[me].pc == RoParked
    {
      var n, mine, k := |state|, threads[me], 0;
      var ended := false;
      outcome := Pending;
      while !ended && k + 1 < |env|
        invariant Valid() && old(run) <= run && |threads| == |old(threads)|
        invariant turns == old(turns) + k && (ended && outcome == Pending ==> k == |env|)
        invariant k <= |env| && |state| == n
        invariant if ended then EndsRo(me, mine, outcome, from)
                  else outcome == Pending && threads[me] == mine.(pc := RoLoad)
        invariant Calm(Unpack(old(state)), env) ==>
          if ended then EndedRo(me, Unpack(old(state)), outcome)
          else
            || (k == 0 && state == old(state))
            || (k == 2 && Blocks(policy, Unpack(old(state))) && Unpack(state) == Unpack(old(state)).(parked := true))
        invariant Undisturbed(env, calm) ==>
          if ended then outcome != Pending || threads[me].pc == RoParked
          else k <= calm + 1 || (k <= calm + 3 && Blocks(policy, Unpack(state)) && Unpack(state).parked)
        decreases |env| - k, !ended
      {
        outcome, ended, k := RoundRo(me, env, k, from, calm);
      }
    }

    /** `acquire_ro_core`. When it returns, the caller has one read hold more and nobody writes.
        Undisturbed, it admits an admissible reader at once; any other announces itself and parks; and
        whatever came before, left alone for eight operations it has ended or is parked. */
    method AcquireRo(me: nat, env: seq<Interlude>) returns (outcome: Outcome)
      requires Valid() && me < |threads| && MayCall(threads[me], Op.AcquireRo)
      modifies this
      ensures outcome == Pending ==> turns + 1 >= old(turns) + |env|
      ensures Valid() && old(run) <= run && |state| == |old(state)| && |threads| == |old(threads)|
      ensures EndsRo(me, old(threads[me]), outcome, |old(run)|)
      ensures Calm(Unpack(old(state)), env) ==> EndedRo(me, Unpack(old(state)), outcome)
      ensures |env| >= 8 && Undisturbed(env, |env| - 8) ==> outcome != Pending || threads[me].pc == RoParked
    {
      Enter(me, Op.AcquireRo);
      outcome := LoopRo(me, env, |old(run)|, CalmFrom(8, env));
    }

    // ----- try_acquire_ro_core

    /** What a refusal has found: a bit that blocks readers, or a word that changed under it. */
    ghost predicate RoWasBlocked(me: nat, from: nat)
      reads this
    {
      || (exists saw :: Found(me, TryRoLoad, saw, from) && Blocks(policy, saw))
      || (exists seen, saw :: Found(me, TryRoCas(seen), saw, from) && saw != seen)
    }

    /** The load, by itself. With the count at the mask the source's assertion fires. */
    method LookTryRo(me: nat) returns (observed: Bits, outcome: Outcome)
      requires Valid() && me < |threads| && threads[me].pc == TryRoLoad
      modifies this
      ensures Valid() && old(run) <= run && old(trace) <= trace && |threads| == |old(threads)|
      ensures observed == state == old(state)
      ensures outcome == if Blocks(policy, Unpack(observed)) then Refused
                         else if Unpack(observed).readers == MaxReaders(|observed|) then Overflow else Pending
      ensures outcome != Overflow ==> run == old(run) + [Step(me, false)]
      ensures outcome == Refused ==> threads[me] == old(threads[me]).(pc := Idle)
      ensures outcome == Pending ==>
        Admits(observed) && threads[me] == old(threads[me]).(pc := TryRoCas(Unpack(observed)))
    {
      observed := state;
      var n := |state|;
      BlockingGuard(observed);
      CountFits(observed);
      UnpackBits(observed);
      if And(observed, BlockingBits(n)) != Zero(n) {
        Commit(me, state, threads[me].(pc := Idle), Step(me, false), Keep);
        outcome := Refused;
      } else if And(observed, ReaderMask(n)) == ReaderMask(n) {
        outcome := Overflow;
      } else {
        Commit(me, state, threads[me].(pc := TryRoCas(Unpack(observed))), Step(me, false), Keep);
        outcome := Pending;
      }
    }

    method LoadTryRo(me: nat, others: seq<Action>, ghost from: nat) returns (observed: Bits, outcome: Outcome)
      requires Valid() && me < |threads| && threads[me].pc == TryRoLoad && from <= |run|
      modifies this
      ensures Valid() && old(run) <= run && |state| == |old(state)| && |threads| == |old(threads)|
      ensures observed == state && (others == [] ==> state == old(state))
      ensures outcome == if Blocks(policy, Unpack(observed)) then Refused
                         else if Unpack(observed).readers == MaxReaders(|observed|) then Overflow else Pending
      ensures outcome == Refused ==> threads[me] == old(threads[me]).(pc := Idle) && RoWasBlocked(me, from)
      ensures outcome == Pending ==>
        Admits(observed) && threads[me] == old(threads[me]).(pc := TryRoCas(Unpack(observed)))
    {
      Interfere(me, others);
      ghost var at := |run|;
      observed, outcome := LookTryRo(me);
      if outcome == Refused {
        assert FoundAt(run, trace, me, TryRoLoad, Unpack(observed), at);
        assert Found(me, TryRoLoad, Unpack(observed), from);
      }
    }

    /** The strong compare-exchange, by itself. */
    method CompareTryRo(me: nat, observed: Bits) returns (admitted: bool)
      requires Valid() && me < |threads| && |observed| == |state| && threads[me].pc == TryRoCas(Unpack(observed))
      requires Admits(observed)
      modifies this
      ensures Valid() && run == old(run) + [Step(me, false)] && old(trace) <= trace
      ensures |state| == |old(state)| && |threads| == |old(threads)| && admitted == (old(state) == observed)
      ensures threads[me] == old(threads[me]).(
                pc := Idle, holds := old(threads[me]).holds + if admitted then 1 else 0)
      ensures Unpack(state) ==
        if admitted then Unpack(observed).(readers := Unpack(observed).readers + 1) else Unpack(old(state))
    {
      var mine := threads[me];
      UnpackInjective(state, observed);
      admitted := state == observed;
      if admitted {
        Commit(me, Increment(observed), mine.(pc := Idle, holds := mine.holds + 1), Step(me, false), AdmitReader);
      } else {
        Commit(me, state, mine.(pc := Idle), Step(me, false), Keep);
      }
    }

    method CasTryRo(me: nat, observed: Bits, others: seq<Action>, ghost from: nat) returns (admitted: bool)
      requires Valid() && me < |threads| && |observed| == |state| && threads[me].pc == TryRoCas(Unpack(observed))
      requires Admits(observed) && from <= |run|
      modifies this
      ensures Valid() && old(run) <= run && |state| == |old(state)| && |threads| == |old(threads)|
      ensures admitted ==>
        && threads[me] == old(threads[me]).(pc := Idle, holds := old(threads[me]).holds + 1) && NobodyWrites()
        && Unpack(state) == Unpack(observed).(readers := Unpack(observed).readers + 1)
      ensures !admitted ==> threads[me] == old(threads[me]).(pc := Idle) && RoWasBlocked(me, from)
      ensures others == [] && old(state) == observed ==> admitted
    {
      Interfere(me, others);
      ghost var at, saw := |run|, Unpack(state);
      UnpackInjective(state, observed);
      admitted := CompareTryRo(me, observed);
      assert FoundAt(run, trace, me, TryRoCas(Unpack(observed)), saw, at);
      assert Found(me, TryRoCas(Unpack(observed)), saw, from);
      if admitted {
        NoWriter(me);
      }
    }

    /** An undisturbed try on the word `was`. */
    predicate TriedRo(was: Word, outcome: Outcome)
      requires IsWord(state)
      reads this
    {
      if Blocks(policy, was) then outcome == Refused && Unpack(state) == was
      else if was.readers == MaxReaders(|state|) then outcome == Overflow && Unpack(state) == was
      else outcome == Completed && Unpack(state) == was.(readers := was.readers + 1)
    }

    /** The compare-exchange after a load of `observed`, if the schedule comes to it. */
    method FinishTryRo(me: nat, observed: Bits, env: seq<Interlude>, ghost from: nat) returns (outcome: Outcome)
      requires Valid() && me < |threads| && observed == state && threads[me].pc == TryRoCas(Unpack(observed))
      requires Admits(observed) && from <= |run|
      modifies this
      ensures Valid() && old(run) <= run && |state| == |old(state)| && |threads| == |old(threads)|
      ensures outcome != Overflow && (|env| >= 2 ==> outcome != Pending)
      ensures outcome == Completed ==>
        threads[me] == old(threads[me]).(pc := Idle, holds := old(threads[me]).holds + 1) && NobodyWrites()
      ensures outcome == Refused ==> threads[me] == old(threads[me]).(pc := Idle) && RoWasBlocked(me, from)
      ensures UndisturbedFor(2, env) ==> TriedRo(Unpack(observed), outcome)
    {
      if |env| < 2 { return Pending; }
      var admitted := CasTryRo(me, observed, env[1].others, from);
      return if admitted then Completed else Refused;
    }

    /** `try_acquire_ro_core`. A refusal leaves the caller as it was, and has found a reason; an
        admissible read that nobody disturbs is admitted. The assertion fires only at the mask. */
    method TryAcquireRo(me: nat, env: seq<Interlude>) returns (outcome: Outcome)
      requires Valid() && me < |threads| && MayCall(threads[me], Op.TryAcquireRo)
      modifies this
      ensures Valid() && old(run) <= run && |state| == |old(state)| && |threads| == |old(threads)|
      ensures outcome == Completed ==>
        threads[me] == old(threads[me]).(holds := old(threads[me]).holds + 1) && NobodyWrites()
      ensures outcome == Refused ==> threads[me] == old(threads[me]) && RoWasBlocked(me, |old(run)|)
      ensures outcome == Overflow ==> Unpack(state).readers == MaxReaders(|state|) && !Blocks(policy, Unpack(state))
      ensures |env| >= 2 ==> outcome != Pending
      ensures UndisturbedFor(2, env) ==> TriedRo(Unpack(old(state)), outcome)
    {
      Enter(me, Op.TryAcquireRo);
      if env == [] { return Pending; }
      var observed;
      observed, outcome := LoadTryRo(me, env[0].others, |old(run)|);
      if outcome == Pending {
        outcome := FinishTryRo(me, observed, env, |old(run)|);
      }
    }

    // ----- release_ro

    /** The fetch_sub. Its assertion, that the count was not zero, always holds. */
    method SubRo(me: nat) returns (wakes: bool, ghost saw: Word)
      requires Valid() && me < |threads| && threads[me].pc == RoSub && threads[me].holds > 0
      modifies this
      ensures Valid() && run == old(run) + [Step(me, false)] && old(trace) <= trace
      ensures |state| == |old(state)| && |threads| == |old(threads)| && saw == Unpack(old(state))
      ensures threads[me] ==
        old(threads[me]).(pc := if wakes then RoWake else Idle, holds := old(threads[me]).holds - 1)
      ensures wakes == (saw.readers == 1 && saw.waiting)
      ensures saw.readers > 0 && Unpack(state) == saw.(readers := saw.readers - 1)
    {
      HoldIsCounted(me);
      var n, before, mine := |state|, state, threads[me];
      saw := Unpack(before);
      wakes := Value(And(before, ReaderMask(n))) == 1 && And(before, WaitingBit(n)) != Zero(n);
      var self := mine.(pc := if wakes then RoWake else Idle, holds := mine.holds - 1);
      Commit(me, Decrement(before), self, Step(me, false), DepartReader);
    }

    method SubRoAmong(me: nat, others: seq<Action>, ghost from: nat) returns (wakes: bool, ghost saw: Word)
      requires Valid() && me < |threads| && threads[me].pc == RoSub && threads[me].holds > 0 && from <= |run|
      modifies this
      ensures Valid() && old(run) <= run && |state| == |old(state)| && |threads| == |old(threads)|
      ensures threads[me] ==
        old(threads[me]).(pc := if wakes then RoWake else Idle, holds := old(threads[me]).holds - 1)
      ensures wakes == (saw.readers == 1 && saw.waiting) && Found(me, RoSub, saw, from)
      ensures saw.readers > 0 && Unpack(state) == saw.(readers := saw.readers - 1)
      ensures others == [] ==> saw == Unpack(old(state))
    {
      Interfere(me, others);
      ghost var at := |run|;
      wakes, saw := SubRo(me);
      assert FoundAt(run, trace, me, RoSub, saw, at);
    }

    lemma HoldIsCounted(me: nat)
      requires Valid() && me < |threads| && threads[me].holds > 0
      ensures Unpack(state).readers > 0
    {
      ValidIsReachable();
      ReachableInv(Machine());
      IsSound(Machine(), me);
    }

    /** What `release_ro` promises once it is through: it has found `saw`, and woken the writers it owed
        a wake. */
    ghost predicate LeftRo(me: nat, saw: Word, from: nat)
      reads this
    {
      && Found(me, RoSub, saw, from)
      && (saw.readers == 1 && saw.waiting ==> forall i :: 0 <= i < |threads| ==> threads[i].pc != RwParked)
    }

    /** The fetch_sub and the wake. */
    method SubAndWake(me: nat, env: seq<Interlude>, ghost from: nat) returns (outcome: Outcome, ghost saw: Word)
      requires Valid() && me < |threads| && threads[me].pc == RoSub && threads[me].holds > 0
      requires from <= |run| && env != []
      modifies this
      ensures Valid() && old(run) <= run && |threads| == |old(threads)| && |state| == |old(state)|
      ensures outcome == Completed || outcome == Pending
      ensures outcome == Completed ==>
        threads[me] == old(threads[me]).(pc := Idle, holds := old(threads[me]).holds - 1) && LeftRo(me, saw, from)
      ensures |env| >= 2 ==> outcome == Completed
      ensures UndisturbedFor(2, env) ==>
        saw == Unpack(old(state)) && saw.readers > 0 && Unpack(state) == saw.(readers := saw.readers - 1)
    {
      var wakes;
      wakes, saw := SubRoAmong(me, env[0].others, from);
      outcome := WakeIfOwed(me, wakes, WakeWriters, env, RoSub, saw, from);
    }

    /** `release_ro`: the fetch_sub, then the wake if it found the last reader and a waiting writer:
        in that case no writer is left parked. */
    method ReleaseRo(me: nat, env: seq<Interlude>) returns (outcome: Outcome, ghost saw: Word)
      requires Valid() && me < |threads| && MayCall(threads[me], Op.ReleaseRo)
      modifies this
      ensures Valid() && old(run) <= run && |threads| == |old(threads)| && |state| == |old(state)|
      ensures outcome == Completed || outcome == Pending
      ensures outcome == Completed ==>
        threads[me] == old(threads[me]).(holds := old(threads[me]).holds - 1) && LeftRo(me, saw, |old(run)|)
      ensures |env| >= 2 ==> outcome == Completed
      ensures UndisturbedFor(2, env) ==>
        saw == Unpack(old(state)) && saw.readers > 0 && Unpack(state) == saw.(readers := saw.readers - 1)
    {
      saw := FREE;
      Enter(me, Op.ReleaseRo);
      if env == [] { return Pending, saw; }
      outcome, saw := SubAndWake(me, env, |old(run)|);
    }
  }

  /** The count's own test of the mask. */
  lemma CountFits(x: Bits)
    requires IsWord(x)
    ensures And(x, ReaderMask(|x|)) != ReaderMask(|x|) <==> Unpack(x).readers < MaxReaders(|x|)
  {
    var n := |x|;
    UnpackBits(x);
    var low := x[..n - 3];
    ValueBound(low);
    assert And(x, ReaderMask(n)) == low + [false, false, false];
    if And(x, ReaderMask(n)) == ReaderMask(n) {
      forall i | 0 <= i < n - 3 ensures low[i] {
        assert And(x, ReaderMask(n))[i] == ReaderMask(n)[i];
      }
    } else {
      assert low != seq(n - 3, i => true);
    }
  }
}
