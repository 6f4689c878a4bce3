/** The per-thread registry of read holds, and the reentrant read lock built on it. */
module ReadRegistry {

  /** A mutex, by identity. */
  type Mutex = nat

  datatype ReadHold = ReadHold(mutex: Mutex, depth: nat)

  /** The recursion depth the list records for a mutex. */
  function Depth(held: seq<ReadHold>, m: Mutex): nat {
    if held == [] then 0 else if held[0].mutex == m then held[0].depth else Depth(held[1..], m)
  }

  /** One entry per mutex, none of depth zero. */
  predicate Distinct(held: seq<ReadHold>) {
    && (forall i :: 0 <= i < |held| ==> held[i].depth > 0)
    && (forall i, j :: 0 <= i < j < |held| ==> held[i].mutex != held[j].mutex)
  }

  lemma {:induction false} DepthAt(held: seq<ReadHold>, i: nat)
    requires i < |held| && forall j :: 0 <= j < i ==> held[j].mutex != held[i].mutex
    ensures Depth(held, held[i].mutex) == held[i].depth
  {
    if i > 0 {
      DepthAt(held[1..], i - 1);
    }
  }

  lemma {:induction false} DepthAbsent(held: seq<ReadHold>, m: Mutex)
    requires forall j :: 0 <= j < |held| ==> held[j].mutex != m
    ensures Depth(held, m) == 0
  {
    if held != [] {
      DepthAbsent(held[1..], m);
    }
  }

  /** Which entry, if any, is for the mutex decides its depth: order does not matter. */
  lemma DepthSame(held: seq<ReadHold>, other: seq<ReadHold>, m: Mutex)
    requires Distinct(held) && Distinct(other)
    requires forall h: ReadHold :: h.mutex == m ==> (h in held <==> h in other)
    ensures Depth(held, m) == Depth(other, m)
  {
    if i :| 0 <= i < |held| && held[i].mutex == m {
      DepthAt(held, i);
      var j :| 0 <= j < |other| && other[j] == held[i];
      DepthAt(other, j);
    } else {
      DepthAbsent(held, m);
      assert forall j :: 0 <= j < |other| && other[j].mutex == m ==> other[j] in held;
      DepthAbsent(other, m);
    }
  }

  /** The registry of one thread. */
  class Registry {
    var held: seq<ReadHold>

    predicate Valid() reads this { Distinct(held) }

    constructor ()
      ensures Valid() && held == []
    {
      held := [];
    }

    /** True iff this is the thread's first hold, so that the OS lock must be taken. */
    method Enter(m: Mutex) returns (first: bool)
      requires Valid()
      modifies this
      ensures Valid() && first == (old(Depth(held, m)) == 0)
      ensures forall k :: Depth(held, k) == old(Depth(held, k)) + (if k == m then 1 else 0)
    {
      var i := 0;
      while i < |held|
        invariant 0 <= i <= |held| && held == old(held)
        invariant forall j :: 0 <= j < i ==> held[j].mutex != m
      {
        if held[i].mutex == m {
          Deepen(i);
          return false;
        }
        i := i + 1;
      }
      NoteFirst(m);
      return true;
    }

    /** `++e.depth` on the entry found. */
    method Deepen(i: nat)
      requires Valid() && i < |held|
      modifies this
      ensures Valid() && |held| == |old(held)|
      ensures old(Depth(held, held[i].mutex)) > 0
      ensures forall k :: Depth(held, k) == old(Depth(held, k)) + (if k == old(held[i].mutex) then 1 else 0)
    {
      ghost var before := held;
      held := held[i := held[i].(depth := held[i].depth + 1)];
      DepthAt(before, i);
      DepthAt(held, i);
      forall k | k != before[i].mutex ensures Depth(held, k) == Depth(before, k) {
        SetElsewhere(before, held, i);
        DepthSame(before, held, k);
      }
    }

    /** True iff this was the thread's last hold, so that the OS lock must be dropped. A release
        without a hold changes nothing. */
    method Leave(m: Mutex) returns (last: bool)
      requires Valid()
      modifies this
      ensures Valid() && last == (old(Depth(held, m)) == 1)
      ensures forall k :: Depth(held, k) == old(Depth(held, k)) - (if k == m && old(Depth(held, m)) > 0 then 1 else 0)
      ensures old(Depth(held, m)) == 0 ==> held == old(held)
    {
      ghost var before := held;
      var i := 0;
      while i < |held|
        invariant 0 <= i <= |held| && held == before
        invariant forall j :: 0 <= j < i ==> held[j].mutex != m
      {
        if held[i].mutex == m {
          DepthAt(before, i);
          held := held[i := held[i].(depth := held[i].depth - 1)];
          if held[i].depth == 0 {
            held := held[i := held[|held| - 1]];
            held := held[..|held| - 1];
            SwapRemoved(before, held, i);
            DepthAbsent(held, m);
            forall k | k != m ensures Depth(held, k) == Depth(before, k) {
              DepthSame(before, held, k);
            }
            return true;
          }
          DepthAt(held, i);
          forall k | k != m ensures Depth(held, k) == Depth(before, k) {
            SetElsewhere(before, held, i);
            DepthSame(before, held, k);
          }
          return false;
        }
        i := i + 1;
      }
      DepthAbsent(held, m);
      return false;
    }

    /** True iff the thread already holds the mutex, and then one level deeper. */
    method BumpIfHeld(m: Mutex) returns (bumped: bool)
      requires Valid()
      modifies this
      ensures Valid() && bumped == (old(Depth(held, m)) > 0)
      ensures forall k :: Depth(held, k) == old(Depth(held, k)) + (if bumped && k == m then 1 else 0)
      ensures !bumped ==> held == old(held)
    {
      var i := 0;
      while i < |held|
        invariant 0 <= i <= |held| && held == old(held)
        invariant forall j :: 0 <= j < i ==> held[j].mutex != m
      {
        if held[i].mutex == m {
          Deepen(i);
          return true;
        }
        i := i + 1;
      }
      DepthAbsent(held, m);
      return false;
    }

    /** Records a fresh hold. */
    method NoteFirst(m: Mutex)
      requires Valid() && forall j :: 0 <= j < |held| ==> held[j].mutex != m
      modifies this
      ensures Valid() && old(Depth(held, m)) == 0
      ensures forall k :: Depth(held, k) == old(Depth(held, k)) + (if k == m then 1 else 0)
    {
      ghost var before := held;
      held := held + [ReadHold(m, 1)];
      DepthAbsent(before, m);
      DepthAt(held, |before|);
      forall k | k != m ensures Depth(held, k) == Depth(before, k) {
        DepthSame(before, held, k);
      }
    }
  }

  lemma SetElsewhere(before: seq<ReadHold>, after: seq<ReadHold>, i: nat)
    requires i < |before| == |after| && after[i].mutex == before[i].mutex
    requires after == before[i := after[i]]
    ensures forall h: ReadHold :: h.mutex != before[i].mutex ==> (h in before <==> h in after)
  {
    forall h: ReadHold | h.mutex != before[i].mutex ensures h in before <==> h in after {
      if h in before {
        var j :| 0 <= j < |before| && before[j] == h;
        assert after[j] == h;
      }
    }
  }

  /** Overwriting an entry with the last one and dropping the last one removes just that entry. */
  lemma SwapRemoved(before: seq<ReadHold>, after: seq<ReadHold>, i: nat)
    requires Distinct(before) && i < |before|
    requires |after| == |before| - 1
    requires forall j :: 0 <= j < |after| ==> after[j] == (if j == i then before[|before| - 1] else before[j])
    ensures Distinct(after)
    ensures forall j :: 0 <= j < |after| ==> after[j].mutex != before[i].mutex
    ensures forall h: ReadHold :: h.mutex != before[i].mutex ==> (h in before <==> h in after)
  {
    forall h: ReadHold | h.mutex != before[i].mutex ensures h in before <==> h in after {
      if h in before {
        var j :| 0 <= j < |before| && before[j] == h;
        assert j < |after| ==> after[j] == h;
        assert j == |after| ==> after[i] == h;
      }
    }
  }

  // ----- the reentrant read lock, on one thread

  /** A call to the OS lock that was made and succeeded. */
  datatype OsCall = OsAcquire(m: Mutex) | OsRelease(m: Mutex)

  function Weight(c: OsCall, m: Mutex): int {
    if c == OsAcquire(m) then 1 else if c == OsRelease(m) then -1 else 0
  }

  /** OS acquires minus OS releases of a mutex. */
  function Balance(log: seq<OsCall>, m: Mutex): int {
    if log == [] then 0
    else Balance(log[..|log| - 1], m) + Weight(log[|log| - 1], m)
  }

  /** The OS read side of a mutex is only taken when it is not held, and only dropped when it is. */
  predicate Alternates(log: seq<OsCall>) {
    log != [] ==>
      var before, c := log[..|log| - 1], log[|log| - 1];
      Alternates(before) && Balance(before, c.m) == (if c.OsAcquire? then 0 else 1)
  }

  /** A call of `basic_rrw_mutex`; `osGrants` is what the OS try would answer. */
  datatype Call = Acquire(m: Mutex) | Release(m: Mutex) | Try(m: Mutex, osGrants: bool)

  /** A counter for one mutex alone: what the calls on it add up to. */
  function Count(calls: seq<Call>, m: Mutex): nat {
    if calls == [] then 0
    else
      var d := Count(calls[..|calls| - 1], m);
      match calls[|calls| - 1]
      case Acquire(k) => if k == m then d + 1 else d
      case Release(k) => if k == m && d > 0 then d - 1 else d
      case Try(k, osGrants) => if k == m && (d > 0 || osGrants) then d + 1 else d
  }

  predicate On(c: Call, m: Mutex) { c.m == m }

  function Only(calls: seq<Call>, m: Mutex): seq<Call> {
    if calls == [] then []
    else
      var last := calls[|calls| - 1];
      Only(calls[..|calls| - 1], m) + (if On(last, m) then [last] else [])
  }

  /** Mutexes do not disturb one another: only the calls on a mutex count for it. */
  lemma {:induction false} CountsAreIndependent(calls: seq<Call>, m: Mutex)
    ensures Count(calls, m) == Count(Only(calls, m), m)
  {
    if calls != [] {
      var last := |calls| - 1;
      var before := Only(calls[..last], m);
      CountsAreIndependent(calls[..last], m);
      var all := Only(calls, m);
      if On(calls[last], m) {
        assert all == before + [calls[last]];
        assert all[..|all| - 1] == before && all[|all| - 1] == calls[last];
      } else {
        assert all == before;
      }
    }
  }

  /** Successful acquires and tries of a mutex minus its releases. */
  function Net(calls: seq<Call>, m: Mutex): int {
    if calls == [] then 0
    else
      var d := Net(calls[..|calls| - 1], m);
      match calls[|calls| - 1]
      case Acquire(k) => if k == m then d + 1 else d
      case Release(k) => if k == m then d - 1 else d
      case Try(k, osGrants) => if k == m && (d > 0 || osGrants) then d + 1 else d
  }

  /** When no release comes without a hold, which the source asserts, the counter is the net count;
      a balanced sequence therefore ends with the OS lock not held. */
  lemma {:induction false} CountIsNet(calls: seq<Call>, m: Mutex)
    requires forall n :: 0 <= n <= |calls| ==> Net(calls[..n], m) >= 0
    ensures Count(calls, m) == Net(calls, m)
  {
    if calls != [] {
      var last := |calls| - 1;
      forall n | 0 <= n <= last ensures Net(calls[..last][..n], m) >= 0 {
        assert calls[..last][..n] == calls[..n];
      }
      CountIsNet(calls[..last], m);
      assert calls[..|calls|] == calls && Net(calls[..|calls|], m) >= 0;
    }
  }

  lemma LogAppend(log: seq<OsCall>, c: OsCall)
    ensures forall m :: Balance(log + [c], m) == Balance(log, m) + Weight(c, m)
    ensures Alternates(log) && Balance(log, c.m) == (if c.OsAcquire? then 0 else 1) ==> Alternates(log + [c])
  {
    assert (log + [c])[..|log|] == log;
  }

  /** What one thread does to any number of reentrant mutexes. */
  class ReentrantReads {
    const registry: Registry
    var osLog: seq<OsCall>

    /** The OS read side is held exactly while the recorded depth is positive. */
    ghost predicate Valid() reads this, registry {
      && registry.Valid()
      && Alternates(osLog)
      && forall m :: Balance(osLog, m) == (if Depth(registry.held, m) > 0 then 1 else 0)
    }

    constructor ()
      ensures Valid() && registry.held == [] && osLog == [] && fresh(registry)
    {
      registry := new Registry();
      osLog := [];
    }

    /** The OS call `c`, recorded. */
    method Os(c: OsCall)
      requires Alternates(osLog) && Balance(osLog, c.m) == (if c.OsAcquire? then 0 else 1)
      modifies this`osLog
      ensures osLog == old(osLog) + [c] && Alternates(osLog)
      ensures forall m :: Balance(osLog, m) == old(Balance(osLog, m)) + Weight(c, m)
    {
      LogAppend(osLog, c);
      osLog := osLog + [c];
    }

    method AcquireRo(m: Mutex)
      requires Valid()
      modifies this`osLog, registry
      ensures Valid()
      ensures forall k :: Depth(registry.held, k) == old(Depth(registry.held, k)) + (if k == m then 1 else 0)
      ensures osLog == old(osLog) + (if old(Depth(registry.held, m)) == 0 then [OsAcquire(m)] else [])
    {
      var first := registry.Enter(m);
      if first {
        Os(OsAcquire(m));
      }
    }

    method ReleaseRo(m: Mutex)
      requires Valid()
      modifies this`osLog, registry
      ensures Valid()
      ensures forall k :: k != m ==> Depth(registry.held, k) == old(Depth(registry.held, k))
      ensures var d := old(Depth(registry.held, m)); Depth(registry.held, m) == if d > 0 then d - 1 else 0
      ensures osLog == old(osLog) + (if old(Depth(registry.held, m)) == 1 then [OsRelease(m)] else [])
    {
      var last := registry.Leave(m);
      if last {
        Os(OsRelease(m));
      }
    }

    method TryAcquireRo(m: Mutex, osGrants: bool) returns (acquired: bool)
      requires Valid()
      modifies this`osLog, registry
      ensures Valid() && acquired == (old(Depth(registry.held, m)) > 0 || osGrants)
      ensures forall k ::
        Depth(registry.held, k) == old(Depth(registry.held, k)) + (if acquired && k == m then 1 else 0)
      ensures osLog == old(osLog) + (if acquired && old(Depth(registry.held, m)) == 0 then [OsAcquire(m)] else [])
    {
      var bumped := registry.BumpIfHeld(m);
      if bumped {
        return true;
      }
      if osGrants {
        Os(OsAcquire(m));
        NotHeld(registry.held, m);
        registry.NoteFirst(m);
        return true;
      }
      return false;
    }

    /** Any sequence of calls: the list behaves as one independent counter per mutex, and the OS
        lock of each is held exactly while its counter is positive. */
    method Run(calls: seq<Call>)
      requires Valid() && registry.held == [] && osLog == []
      modifies this`osLog, registry
      ensures Valid()
      ensures forall m :: Depth(registry.held, m) == Count(calls, m)
      ensures forall m :: Balance(osLog, m) == (if Count(calls, m) > 0 then 1 else 0)
    {
      var n := 0;
      while n < |calls|
        invariant 0 <= n <= |calls| && Valid()
        invariant forall m :: Depth(registry.held, m) == Count(calls[..n], m)
      {
        assert calls[..n + 1][..n] == calls[..n];
        match calls[n] {
          case Acquire(m) => AcquireRo(m);
          case Release(m) => ReleaseRo(m);
          case Try(m, osGrants) => var _ := TryAcquireRo(m, osGrants);
        }
        n := n + 1;
      }
      assert calls[..n] == calls;
    }
  }

  lemma NotHeld(held: seq<ReadHold>, m: Mutex)
    requires Distinct(held) && Depth(held, m) == 0
    ensures forall j :: 0 <= j < |held| ==> held[j].mutex != m
  {
    forall j | 0 <= j < |held| ensures held[j].mutex != m {
      DepthAt(held, j);
    }
  }
}
