/** What the reader-writer lock guarantees, over every run of every number of threads. */
module RwMutexTheorems {
  import opened RwWord
  import opened MachineWord
  import opened RwMutex
  import opened Runs
  import opened Tally

  /** The locked bit is one exclusive holder, the count is the read holds, and the two kinds of
      hold never exist together. */
  lemma MutualExclusion(s: State)
    requires Reachable(s)
    ensures s.word.readers == TotalReads(s.threads)
    ensures s.word.locked <==> exists i :: 0 <= i < |s.threads| && s.threads[i].exclusive
    ensures forall i, j :: 0 <= i < |s.threads| && 0 <= j < |s.threads| && s.threads[i].exclusive ==>
              s.threads[j].holds == 0 && (s.threads[j].exclusive ==> i == j)
  {
    ReachableInv(s);
    Positive(Holds, s.threads);
  }

  predicate HoldsSomething(th: Thread) {
    th.holds > 0 || th.exclusive
  }

  /** About to take a step of an operation, without being parked. */
  predicate Running(th: Thread) {
    th.pc != Idle && !Parked(th.pc)
  }

  lemma SomeoneHolds(s: State)
    requires Exclusion(s) && (s.word.readers > 0 || s.word.locked)
    ensures exists u :: 0 <= u < |s.threads| && HoldsSomething(s.threads[u])
  {
    Positive(Holds, s.threads);
    if s.word.readers > 0 {
      var u :| 0 <= u < |s.threads| && s.threads[u].holds > 0;
      assert HoldsSomething(s.threads[u]);
    } else {
      var u :| 0 <= u < |s.threads| && s.threads[u].exclusive;
      assert HoldsSomething(s.threads[u]);
    }
  }

  /** No lost wakeup for writers: a parked writer is announced behind a live hold, or some thread
      is about to issue a wake that reaches writers. */
  lemma NoLostWriterWakeup(s: State, i: nat)
    requires Reachable(s) && i < |s.threads| && s.threads[i].pc == RwParked
    ensures || (s.word.waiting && exists u :: 0 <= u < |s.threads| && HoldsSomething(s.threads[u]))
            || exists u :: 0 <= u < |s.threads| && OwesWriters(s.threads[u].pc)
  {
    ReachableInv(s);
    if HeldUp(s.word) {
      SomeoneHolds(s);
    }
  }

  /** The threads a reader may have to wait for. */
  predicate InTheWay(policy: Policy, th: Thread) {
    th.exclusive || (policy == WriterPreferring && Acquiring(th.pc))
  }

  /** No lost wakeup for readers: a parked reader is announced behind the exclusive holder or an
      acquiring writer, or a wake of release_rw is about to be issued. */
  lemma NoLostReaderWakeup(s: State, i: nat)
    requires Reachable(s) && i < |s.threads| && s.threads[i].pc == RoParked
    ensures || (s.word.parked && exists u :: 0 <= u < |s.threads| && InTheWay(s.policy, s.threads[u]))
            || exists u :: 0 <= u < |s.threads| && s.threads[u].pc == RwWake
  {
    ReachableInv(s);
    if ReadersHeldUp(s.policy, s.word) {
      if s.word.locked {
        var u :| 0 <= u < |s.threads| && s.threads[u].exclusive;
        assert InTheWay(s.policy, s.threads[u]);
      } else {
        var u :| 0 <= u < |s.threads| && Acquiring(s.threads[u].pc);
        assert InTheWay(s.policy, s.threads[u]);
      }
    }
  }

  /** No state has everyone parked with nobody holding and no wake owed. */
  lemma SomeoneCanMove(s: State, i: nat)
    requires Reachable(s) && i < |s.threads| && Parked(s.threads[i].pc)
    ensures exists u :: 0 <= u < |s.threads| && (HoldsSomething(s.threads[u]) || Running(s.threads[u]))
  {
    ReachableInv(s);
    if s.word.readers > 0 || s.word.locked {
      SomeoneHolds(s);
    } else if s.threads[i].pc == RwParked {
      NoLostWriterWakeup(s, i);
      if u :| 0 <= u < |s.threads| && OwesWriters(s.threads[u].pc) {
        assert Running(s.threads[u]);
      }
    } else {
      NoLostReaderWakeup(s, i);
      if u :| 0 <= u < |s.threads| && s.threads[u].pc == RwWake {
        assert Running(s.threads[u]);
      } else {
        var u :| 0 <= u < |s.threads| && Acquiring(s.threads[u].pc);
        if s.threads[u].pc == RwParked {
          NoLostWriterWakeup(s, u);
          if v :| 0 <= v < |s.threads| && OwesWriters(s.threads[v].pc) {
            assert Running(s.threads[v]);
          }
        } else {
          assert Running(s.threads[u]);
        }
      }
    }
  }

  /** The usage the types allow: no thread waits for the write side while it holds, and only the
      reader-preferring type may nest reads. */
  ghost predicate NonRecursive(s: State) {
    forall i :: 0 <= i < |s.threads| && Parked(s.threads[i].pc) ==>
      && !s.threads[i].exclusive
      && (s.threads[i].holds > 0 ==> s.policy == ReaderPreferring && s.threads[i].pc == RoParked)
  }

  /** Under that usage a parked thread is never the last hope: some thread that is not parked has
      something to release or something to finish. */
  lemma NeverStuck(s: State, i: nat)
    requires Reachable(s) && NonRecursive(s) && i < |s.threads| && Parked(s.threads[i].pc)
    ensures exists u :: 0 <= u < |s.threads| && !Parked(s.threads[u].pc)
              && (HoldsSomething(s.threads[u]) || Running(s.threads[u]))
  {
    ReachableInv(s);
    SomeoneCanMove(s, i);
    var u :| 0 <= u < |s.threads| && (HoldsSomething(s.threads[u]) || Running(s.threads[u]));
    assert NestedFree(s.policy, s.threads[u]);
  }

  /** One action that wakes nobody, on two threads. */
  lemma Quiet(s: State, a: Action)
    requires Enabled(s, a) && EffectOf(s, a).wake == NoWake
    ensures Next(s, a).threads == s.threads[a.t := EffectOf(s, a).self]
  {
  }

  function Two(w: Word, a: Thread, b: Thread): State {
    State(WriterPreferring, w, [a, b])
  }

  const IDLE := Thread(Idle, 0, false)
  const READING := Thread(Idle, 1, false)
  const ONE_READER := FREE.(readers := 1)
  const WRITER_QUEUED := ONE_READER.(waiting := true)
  const BOTH_ANNOUNCED := WRITER_QUEUED.(parked := true)

  /** A reachable state leads to the state one quiet action of thread t leaves. */
  lemma Leads(s: State, a: Action, w: Word, th: Thread)
    requires Reachable(s) && Enabled(s, a) && EffectOf(s, a).wake == NoWake
    requires Apply(s.word, EffectOf(s, a).op) == w && EffectOf(s, a).self == th
    ensures Reachable(State(s.policy, w, s.threads[a.t := th]))
  {
    Quiet(s, a);
    ReachedNext(Initial, StepsTo, s, a, State(s.policy, w, s.threads[a.t := th]));
  }

  lemma FirstRead()
    ensures Reachable(Two(ONE_READER, READING, IDLE))
  {
    var s := Two(FREE, IDLE, IDLE);
    assert IsRun(StepsTo, [s], []) && Initial([s][0]);
    Leads(s, Call(0, AcquireRo), FREE, IDLE.(pc := RoLoad));
    Leads(Two(FREE, IDLE.(pc := RoLoad), IDLE), Step(0, false), FREE, IDLE.(pc := RoTry(FREE)));
    Leads(Two(FREE, IDLE.(pc := RoTry(FREE)), IDLE), Step(0, false), ONE_READER, READING);
  }

  lemma WriterQueues()
    ensures Reachable(Two(WRITER_QUEUED, READING, IDLE.(pc := RwParked)))
  {
    FirstRead();
    var w := ONE_READER;
    Leads(Two(w, READING, IDLE), Call(1, AcquireRw), w, IDLE.(pc := RwLoad));
    Leads(Two(w, READING, IDLE.(pc := RwLoad)), Step(1, false), w, IDLE.(pc := RwTry(w)));
    Leads(Two(w, READING, IDLE.(pc := RwTry(w))), Step(1, false), WRITER_QUEUED, IDLE.(pc := RwTry(WRITER_QUEUED)));
    Leads(Two(WRITER_QUEUED, READING, IDLE.(pc := RwTry(WRITER_QUEUED))), Step(1, false), WRITER_QUEUED,
      IDLE.(pc := RwParked));
  }

  lemma ReadAnnounces()
    ensures Reachable(Two(BOTH_ANNOUNCED, READING.(pc := RoLoad), IDLE.(pc := RwParked)))
  {
    WriterQueues();
    var w, queued := WRITER_QUEUED, IDLE.(pc := RwParked);
    Leads(Two(w, READING, queued), Call(0, AcquireRo), w, READING.(pc := RoLoad));
    Leads(Two(w, READING.(pc := RoLoad), queued), Step(0, false), w, READING.(pc := RoTry(w)));
    Leads(Two(w, READING.(pc := RoTry(w)), queued), Step(0, false), BOTH_ANNOUNCED, READING.(pc := RoLoad));
  }

  /** The documented hang of the writer-preferring type: a second read by a thread that already
      reads, behind a queued writer, leaves every thread parked. The usage rule above is needed. */
  lemma NestedReadHangs()
    ensures exists s :: Reachable(s) && s.policy == WriterPreferring && |s.threads| == 2
              && (forall i :: 0 <= i < 2 ==> Parked(s.threads[i].pc)) && s.threads[0].holds == 1
  {
    ReadAnnounces();
    var w, queued := BOTH_ANNOUNCED, IDLE.(pc := RwParked);
    Leads(Two(w, READING.(pc := RoLoad), queued), Step(0, false), w, READING.(pc := RoTry(w)));
    Leads(Two(w, READING.(pc := RoTry(w)), queued), Step(0, false), w, READING.(pc := RoParked));
    assert Reachable(Two(w, READING.(pc := RoParked), queued));
  }

  /** The wake that release_rw skips was not needed: nobody is parked unless another thread is
      already about to wake them. */
  lemma SkippedWakeIsSound(s: State, t: nat, i: nat)
    requires Reachable(s) && t < |s.threads| && s.threads[t].pc == RwExchange && !Announced(s.word)
    requires i < |s.threads|
    ensures var n := Next(s, Step(t, false));
      && n.word == FREE && n.threads[t].pc == Idle
      && (n.threads[i].pc == RwParked ==> exists u :: 0 <= u < |n.threads| && OwesWriters(n.threads[u].pc))
      && (n.threads[i].pc == RoParked ==> exists u :: 0 <= u < |n.threads| && n.threads[u].pc == RwWake)
  {
    ReachableInv(s);
    InvKept(s, Step(t, false));
  }

  /** A word nobody has a reason to mark is exactly zero: `is_locked()` is false at quiescence. */
  lemma QuiescentWordIsFree(s: State)
    requires Reachable(s)
    requires forall i :: 0 <= i < |s.threads| ==> !HoldsSomething(s.threads[i]) && !Acquiring(s.threads[i].pc)
    ensures s.word == FREE
  {
    ReachableInv(s);
    Positive(Holds, s.threads);
  }

  /** The announce bits are never stale: a waiting bit means a holder or a writer in acquire_rw, a
      parked bit means a bit that blocks readers. */
  lemma AnnounceBits(s: State)
    requires Reachable(s)
    ensures s.word.waiting ==> s.word.locked || exists i :: 0 <= i < |s.threads| && Acquiring(s.threads[i].pc)
    ensures s.word.parked ==> s.word.locked || (s.policy == WriterPreferring && s.word.waiting)
  {
    ReachableInv(s);
  }

  // ----- preference over whole runs

  /** The operation the k-th action of a run performs on the word. */
  function OpAt(states: seq<State>, run: seq<Action>, k: nat): WordOp
    requires k < |run| && k < |states| && Enabled(states[k], run[k])
  {
    EffectOf(states[k], run[k]).op
  }

  /** Writer preference: once a writer is announced, no reader is admitted, by acquire or by try,
      before some release_rw clears the word. */
  lemma {:induction false} WriterPreference(states: seq<State>, run: seq<Action>, i: nat, j: nat)
    requires IsRun(StepsTo, states, run) && i <= j < |run|
    requires states[i].policy == WriterPreferring && states[i].word.waiting
    requires StepsTo(states[j], run[j], states[j + 1]) && OpAt(states, run, j) == AdmitReader
    ensures exists k :: i <= k < j && StepsTo(states[k], run[k], states[k + 1]) && OpAt(states, run, k) == Clear
    decreases j - i
  {
    assert StepsTo(states[i], run[i], states[i + 1]);
    if i < j && OpAt(states, run, i) != Clear {
      WriterPreference(states, run, i + 1, j);
    }
  }

  /** Only the exclusive holder, in release_rw, clears the word. */
  lemma ClearIsRelease(s: State, a: Action)
    requires Reachable(s) && Enabled(s, a) && EffectOf(s, a).op == Clear
    ensures s.threads[a.t].pc == RwExchange && s.threads[a.t].exclusive && !Next(s, a).threads[a.t].exclusive
  {
    ReachableInv(s);
  }

  /** Reader preference: whatever writers do, a thread that already reads is never parked and never
      about to park or announce in a nested acquire; its next try is an admission. */
  lemma NestedReadNeverParks(s: State, t: nat)
    requires Reachable(s) && s.policy == ReaderPreferring && t < |s.threads| && s.threads[t].holds > 0
    ensures s.threads[t].pc != RoParked
    ensures s.threads[t].pc.RoTry? ==> !Blocks(s.policy, s.threads[t].pc.seen)
    ensures s.threads[t].pc.RoTry? && s.threads[t].pc.seen == s.word ==>
              EffectOf(s, Step(t, false)).op == AdmitReader
  {
    ReachableInv(s);
    assert NestedFree(s.policy, s.threads[t]);
  }

  // ----- the packed word over whole runs

  /** The packed word along a run: the source's own operators applied one after another. */
  ghost predicate PackedAlong(words: seq<Bits>, states: seq<State>, run: seq<Action>)
    requires IsRun(StepsTo, states, run)
  {
    && |words| == |states| && IsWord(words[0])
    && forall k :: 0 <= k < |run| ==>
         StepsTo(states[k], run[k], states[k + 1]) && IsWord(words[k])
         && words[k + 1] == RawApply(words[k], OpAt(states, run, k))
  }

  /** No admission of the run finds the count at the mask. */
  ghost predicate CountsFit(n: nat, states: seq<State>, run: seq<Action>)
    requires n >= 4 && IsRun(StepsTo, states, run)
  {
    forall k :: 0 <= k < |run| && StepsTo(states[k], run[k], states[k + 1]) ==>
      OpAt(states, run, k) == AdmitReader ==> states[k].word.readers < MaxReaders(n)
  }

  /** Through every run the packed word reads out as the model's word: no carry or borrow ever
      crosses between the count and the flag bits. */
  lemma {:induction false} PackedRunRefines(words: seq<Bits>, states: seq<State>, run: seq<Action>, k: nat)
    requires IsRun(StepsTo, states, run) && PackedAlong(words, states, run) && k <= |run|
    requires Unpack(words[0]) == states[0].word && CountsFit(|words[0]|, states, run)
    ensures |words[k]| == |words[0]| && Unpack(words[k]) == states[k].word
  {
    if k > 0 {
      PackedRunRefines(words, states, run, k - 1);
      assert StepsTo(states[k - 1], run[k - 1], states[k]);
      RawRefines(words[k - 1], OpAt(states, run, k - 1));
    }
  }
}
