/** `chunked_spread`: dividing a 32-bit iteration count into chunks, and the worker that turns runs
    of chunk indices back into iteration ranges. */
module ChunkedSpread {

  const U32: nat := 0x1_0000_0000

  /** Arithmetic of the source's 32-bit `iterations_t` wraps around. */
  function Wrap(x: nat): nat { x % U32 }

  function Min(a: nat, b: nat): nat { if a < b then a else b }

  /** Iterations per chunk, and how many of the first chunks take one more. */
  datatype Setup = Setup(perChunk: nat, extra: nat)

  /** The constructor; `indexMax` is the largest value of the chunk index type, to which the
      remainder is cast. */
  function Make(iterations: nat, chunks: nat, indexMax: nat): Setup
    requires chunks > 0
  {
    Setup(iterations / chunks, (iterations % chunks) % (indexMax + 1))
  }

  /** `chunk_range`, in the order and with the wrap-around of the source's arithmetic. */
  function ChunkRange(s: Setup, index: nat): (nat, nat) {
    var extraIters := Min(index, s.extra);
    var plainIters := index - extraIters;
    var start := Wrap(Wrap(extraIters * Wrap(s.perChunk + 1)) + Wrap(plainIters * s.perChunk));
    (start, Wrap(Wrap(start + s.perChunk) + if index < s.extra then 1 else 0))
  }

  /** Where chunk `index` starts, over unbounded integers. */
  function Bound(s: Setup, index: nat): nat {
    index * s.perChunk + Min(index, s.extra)
  }

  /** A division the source may make: the count fits 32 bits, and the chunk count the index type. */
  predicate Sensible(iterations: nat, chunks: nat, indexMax: nat) {
    iterations < U32 && 0 < chunks <= indexMax
  }

  /** The chunks a spread uses: no more than there are iterations. */
  function Used(iterations: nat, chunks: nat): nat { Min(chunks, iterations) }

  lemma WrapExact(x: nat)
    requires x < U32
    ensures Wrap(x) == x
  {
  }

  lemma BoundSteps(s: Setup, index: nat)
    ensures Bound(s, index + 1) == Bound(s, index) + s.perChunk + if index < s.extra then 1 else 0
  {
    assert (index + 1) * s.perChunk == index * s.perChunk + s.perChunk;
  }

  lemma {:induction false} BoundGrows(s: Setup, i: nat, j: nat)
    requires i <= j
    ensures Bound(s, i) <= Bound(s, j)
    decreases j - i
  {
    if i < j {
      BoundSteps(s, i);
      BoundGrows(s, i + 1, j);
    }
  }

  lemma BoundEnds(iterations: nat, chunks: nat, indexMax: nat)
    requires Sensible(iterations, chunks, indexMax)
    ensures var s := Make(iterations, chunks, indexMax);
      && s.extra == iterations % chunks
      && Bound(s, 0) == 0 && Bound(s, Used(iterations, chunks)) == iterations
      && (iterations < chunks ==> s.perChunk == 0)
  {
    var s := Make(iterations, chunks, indexMax);
    assert s.extra == iterations % chunks;
    assert iterations == chunks * (iterations / chunks) + iterations % chunks;
    if iterations < chunks {
      assert iterations / chunks == 0;
    }
  }

  lemma Distribute(e: nat, index: nat, p: nat)
    requires e <= index
    ensures e * p + (index - e) * p == index * p && e * (p + 1) == e * p + e
    ensures e * p >= 0 && (index - e) * p >= 0 && (e > 0 ==> e * p >= p)
  {
    if e > 0 {
      assert e * p == p + (e - 1) * p && (e - 1) * p >= 0;
    }
  }

  /** The first product of the source: the chunks with one more iteration. */
  lemma ExtraProduct(e: nat, p: nat)
    requires e * p + e < U32 && (e > 0 ==> e * p >= p)
    ensures Wrap(e * Wrap(p + 1)) == e * p + e
  {
    if e > 0 {
      WrapExact(p + 1);
      assert e * (p + 1) == e * p + e;
      WrapExact(e * p + e);
    }
  }

  lemma RangeExact(s: Setup, index: nat)
    requires Bound(s, index + 1) < U32
    ensures ChunkRange(s, index) == (Bound(s, index), Bound(s, index + 1))
  {
    var e := Min(index, s.extra);
    var a, b := e * s.perChunk, (index - e) * s.perChunk;
    BoundSteps(s, index);
    Distribute(e, index, s.perChunk);
    ExtraProduct(e, s.perChunk);
    WrapExact(b);
    assert a + e + b == Bound(s, index);
    WrapExact(a + e + b);
    WrapExact(a + e + b + s.perChunk);
    WrapExact(Bound(s, index + 1));
  }

  lemma Quotient(x: nat, y: nat)
    requires 0 < y <= x
    ensures x / y >= 1
  {
  }

  /** The 32-bit arithmetic gives the exact range of every chunk in use; the ranges are not empty,
      they follow one another from 0 to the iteration count, and their sizes differ by at most one. */
  lemma ChunksTile(iterations: nat, chunks: nat, indexMax: nat, index: nat)
    requires Sensible(iterations, chunks, indexMax) && index < Used(iterations, chunks)
    ensures var s := Make(iterations, chunks, indexMax);
      && ChunkRange(s, index) == (Bound(s, index), Bound(s, index + 1))
      && Bound(s, index) < Bound(s, index + 1) <= iterations
      && s.perChunk <= Bound(s, index + 1) - Bound(s, index) <= s.perChunk + 1
      && Bound(s, 0) == 0 && Bound(s, Used(iterations, chunks)) == iterations
  {
    var s := Make(iterations, chunks, indexMax);
    BoundEnds(iterations, chunks, indexMax);
    BoundSteps(s, index);
    BoundGrows(s, index + 1, Used(iterations, chunks));
    RangeExact(s, index);
    if iterations >= chunks {
      Quotient(iterations, chunks);
    }
  }

  // ----- the merging worker of spread_chunked

  /** The worker: the range of the first chunk, stretched to the end of the last one when the shop
      hands over more than one chunk index. */
  method MergedRange(iterations: nat, chunks: nat, indexMax: nat, start: nat, end: nat)
    returns (first: nat, second: nat)
    requires Sensible(iterations, chunks, indexMax) && start < end <= Used(iterations, chunks)
    ensures var s := Make(iterations, chunks, indexMax); first == Bound(s, start) && second == Bound(s, end)
    ensures first < second <= iterations
  {
    var setup := Make(iterations, chunks, indexMax);
    ChunksTile(iterations, chunks, indexMax, start);
    ChunksTile(iterations, chunks, indexMax, end - 1);
    var range := ChunkRange(setup, start);
    first, second := range.0, range.1;
    if end != start + 1 {
      var lastChunkRange := ChunkRange(setup, end - 1);
      second := lastChunkRange.1;
    }
    BoundGrows(setup, start + 1, end);
  }

  /** The chunk an iteration belongs to. */
  lemma {:induction false} ChunkOf(s: Setup, x: nat, m: nat) returns (i: nat)
    requires x < Bound(s, m)
    ensures i < m && Bound(s, i) <= x < Bound(s, i + 1)
    decreases m
  {
    assert m > 0;
    if Bound(s, m - 1) <= x {
      i := m - 1;
    } else {
      i := ChunkOf(s, x, m - 1);
    }
  }

  /** A run of chunk indices, or a range of iterations. */
  datatype Run = Run(start: nat, end: nat)

  predicate Contains(r: Run, i: nat) { r.start <= i < r.end }

  predicate Apart(r: Run, q: Run) { r.end <= q.start || q.end <= r.start }

  function Merged(s: Setup, r: Run): Run {
    Run(Bound(s, r.start), Bound(s, r.end))
  }

  function AllMerged(s: Setup, runs: seq<Run>): seq<Run> {
    seq(|runs|, k requires 0 <= k < |runs| => Merged(s, runs[k]))
  }

  ghost predicate Covered(runs: seq<Run>, i: nat) {
    exists k :: 0 <= k < |runs| && Contains(runs[k], i)
  }

  /** Non-empty runs that do not overlap and cover exactly the indices below m. */
  ghost predicate Partition(runs: seq<Run>, m: nat) {
    && (forall k :: 0 <= k < |runs| ==> runs[k].start < runs[k].end <= m)
    && (forall k, l :: 0 <= k < l < |runs| ==> Apart(runs[k], runs[l]))
    && (forall i: nat :: i < m ==> Covered(runs, i))
  }

  /** However a shop partitions the chunk indices, in whatever order, the merged ranges partition
      the iterations: every iteration is worked on exactly once. */
  lemma MergingKeepsPartition(iterations: nat, chunks: nat, indexMax: nat, runs: seq<Run>)
    requires Sensible(iterations, chunks, indexMax) && Partition(runs, Used(iterations, chunks))
    ensures Partition(AllMerged(Make(iterations, chunks, indexMax), runs), iterations)
  {
    var s := Make(iterations, chunks, indexMax);
    var m := Used(iterations, chunks);
    var merged := AllMerged(s, runs);
    BoundEnds(iterations, chunks, indexMax);
    forall k | 0 <= k < |runs| ensures merged[k].start < merged[k].end <= iterations {
      ChunksTile(iterations, chunks, indexMax, runs[k].start);
      BoundGrows(s, runs[k].start + 1, runs[k].end);
      BoundGrows(s, runs[k].end, m);
    }
    forall k, l | 0 <= k < l < |runs| ensures Apart(merged[k], merged[l]) {
      assert Apart(runs[k], runs[l]);
      if runs[k].end <= runs[l].start {
        BoundGrows(s, runs[k].end, runs[l].start);
      } else {
        BoundGrows(s, runs[l].end, runs[k].start);
      }
    }
    forall x: nat | x < iterations ensures Covered(merged, x) {
      var i := ChunkOf(s, x, m);
      assert Covered(runs, i);
      var k :| 0 <= k < |runs| && Contains(runs[k], i);
      BoundGrows(s, runs[k].start, i);
      BoundGrows(s, i + 1, runs[k].end);
      assert Contains(merged[k], x);
    }
  }
}
