/** The spreads end to end: the split of the iterations put together with the protocol that runs the
    pieces. When the caller's spread returns, every iteration has been worked on exactly once. */
module Coverage {
  import opened WorkSplit
  import ChunkedSpread
  import SpreadJoin
  import SpreadJoinCast
  import LibuvSpread
  import LibuvTheorems

  predicate Holds(p: Slice, x: nat) { p.start <= x < p.end }

  /** How often iteration `x` has been worked on, when piece k has been run `runs[k]` times. */
  function Times(pieces: seq<Slice>, runs: seq<nat>, x: nat): nat
    requires |pieces| == |runs|
  {
    if pieces == [] then 0
    else
      var last := |pieces| - 1;
      Times(pieces[..last], runs[..last], x) + (if Holds(pieces[last], x) then runs[last] else 0)
  }

  /** Pieces that tile a range and have each run once have worked on everything in it once, and on
      nothing else. */
  lemma {:induction false} TilesOnce(pieces: seq<Slice>, runs: seq<nat>, from: nat, to: nat, x: nat)
    requires |pieces| == |runs| && Tiles(pieces, from, to)
    requires forall k :: 0 <= k < |runs| ==> runs[k] == 1
    ensures from <= to && Times(pieces, runs, x) == (if from <= x < to then 1 else 0)
  {
    if pieces != [] {
      var last := |pieces| - 1;
      TilesOnce(pieces[..last], runs[..last], from, pieces[last].start, x);
    }
  }

  function WorkRuns(works: seq<SpreadJoin.Work>): (runs: seq<nat>)
    ensures |runs| == |works|
  {
    seq(|works|, k requires 0 <= k < |works| => works[k].runs)
  }

  /** The caller's part and the slices together have worked on every iteration once, and on nothing
      else. */
  ghost predicate WorkedOnce(callerEnd: nat, slices: seq<Slice>, iterations: nat, ownRuns: nat, runs: seq<nat>)
    requires |slices| == |runs|
  {
    forall x: nat :: (if x < callerEnd then ownRuns else 0) + Times(slices, runs, x) == if x < iterations then 1 else 0
  }

  lemma EachOnce(callerEnd: nat, slices: seq<Slice>, iterations: nat, ownRuns: nat, runs: seq<nat>)
    requires Tiles(slices, callerEnd, iterations) && |slices| == |runs|
    requires callerEnd > 0 ==> ownRuns == 1
    requires forall k :: 0 <= k < |runs| ==> runs[k] == 1
    ensures WorkedOnce(callerEnd, slices, iterations, ownRuns, runs)
  {
    forall x: nat
      ensures (if x < callerEnd then ownRuns else 0) + Times(slices, runs, x) == if x < iterations then 1 else 0 {
      TilesOnce(slices, runs, callerEnd, iterations, x);
    }
  }

  /** The generic spread: the caller's part, then the slices. With no caller's part the caller only
      queues and waits. */
  lemma GenericSpreadRunsEachOnce(
    callerEnd: nat, slices: seq<Slice>, iterations: nat, s: SpreadJoin.State, a: SpreadJoin.Action)
    requires Tiles(slices, callerEnd, iterations) && |s.works| == |slices|
    requires s.mode.blocking <==> callerEnd == 0
    requires SpreadJoin.Reachable(s) && SpreadJoin.Returns(s, a)
    requires s.counter == 0 || SpreadJoin.CastIsExact(|slices|, s.mode)
    ensures WorkedOnce(callerEnd, slices, iterations, s.ownRuns, WorkRuns(s.works))
  {
    SpreadJoin.ZeroIsComplete(s, a);
    if s.counter > 0 {
      SpreadJoin.JoinIsComplete(s, a);
    }
    EachOnce(callerEnd, slices, iterations, s.ownRuns, WorkRuns(s.works));
  }

  /** In pieces that tile a range, an iteration has been worked on as often as its own piece has. */
  lemma {:induction false} TimesAt(pieces: seq<Slice>, runs: seq<nat>, from: nat, to: nat, k: nat, x: nat)
    requires |pieces| == |runs| && Tiles(pieces, from, to) && k < |pieces| && Holds(pieces[k], x)
    ensures Times(pieces, runs, x) == runs[k]
  {
    var last := |pieces| - 1;
    if k == last {
      NoneBelow(pieces[..last], runs[..last], from, pieces[last].start, x);
    } else {
      TilesCover(pieces, from, to, x);
      assert !Holds(pieces[last], x);
      TimesAt(pieces[..last], runs[..last], from, pieces[last].start, k, x);
    }
  }

  lemma {:induction false} NoneBelow(pieces: seq<Slice>, runs: seq<nat>, from: nat, to: nat, x: nat)
    requires |pieces| == |runs| && Tiles(pieces, from, to) && x >= to
    ensures Times(pieces, runs, x) == 0
  {
    if pieces != [] {
      var last := |pieces| - 1;
      NoneBelow(pieces[..last], runs[..last], from, pieces[last].start, x);
    }
  }

  /** Whatever the run, the returning step finds every iteration worked on once. */
  ghost predicate AlwaysWorkedOnce(callerEnd: nat, slices: seq<Slice>, iterations: nat, mode: SpreadJoin.Mode) {
    forall s, a ::
      SpreadJoin.Reachable(s) && s.mode == mode && |s.works| == |slices| && SpreadJoin.Returns(s, a) ==>
        WorkedOnce(callerEnd, slices, iterations, s.ownRuns, WorkRuns(s.works))
  }

  /** The generic spread keeps its promise to the iterations exactly where the look of its spinning
      join is exact: anywhere else some run returns before an iteration has been worked on at all. */
  lemma GenericSpreadExactlyWhen(callerEnd: nat, slices: seq<Slice>, iterations: nat, mode: SpreadJoin.Mode)
    requires Tiles(slices, callerEnd, iterations) && (mode.blocking <==> callerEnd == 0)
    requires mode.incremental || |slices| <= mode.indexMax
    ensures AlwaysWorkedOnce(callerEnd, slices, iterations, mode) <==> SpreadJoin.CastIsExact(|slices|, mode)
  {
    if SpreadJoin.CastIsExact(|slices|, mode) {
      forall s, a
        | SpreadJoin.Reachable(s) && s.mode == mode && |s.works| == |slices| && SpreadJoin.Returns(s, a)
        ensures WorkedOnce(callerEnd, slices, iterations, s.ownRuns, WorkRuns(s.works)) {
        GenericSpreadRunsEachOnce(callerEnd, slices, iterations, s, a);
      }
    } else {
      SpreadJoinCast.EarlyReturn(mode, |slices|);
      var s, a :| SpreadJoin.Reachable(s) && s.mode == mode && |s.works| == |slices| && SpreadJoin.Returns(s, a)
                  && s.works[0].runs == 0;
      var x := slices[0].start;
      TimesAt(slices, WorkRuns(s.works), callerEnd, iterations, 0, x);
      TilesCover(slices, callerEnd, iterations, x);
      assert !WorkedOnce(callerEnd, slices, iterations, s.ownRuns, WorkRuns(s.works));
    }
  }

  /** The chunks of a libuv spread: the ranges the source computes, the tail chunk last. */
  function Pieces(setup: ChunkedSpread.Setup, n: nat): (pieces: seq<Slice>)
    ensures |pieces| == n
  {
    seq(n, i requires 0 <= i < n => var r := ChunkedSpread.ChunkRange(setup, i); Slice(r.0, r.1))
  }

  lemma PieceAt(iterations: nat, chunks: nat, indexMax: nat, i: nat)
    requires ChunkedSpread.Sensible(iterations, chunks, indexMax) && i < chunks <= iterations
    ensures var s := ChunkedSpread.Make(iterations, chunks, indexMax); var p := Pieces(s, chunks)[i];
      && p.start < p.end
      && p.start == ChunkedSpread.Bound(s, i) && p.end == ChunkedSpread.Bound(s, i + 1)
      && (i == 0 ==> p.start == 0) && (i + 1 == chunks ==> p.end == iterations)
  {
    ChunkedSpread.ChunksTile(iterations, chunks, indexMax, i);
  }

  lemma PiecesTile(iterations: nat, chunks: nat, indexMax: nat)
    requires ChunkedSpread.Sensible(iterations, chunks, indexMax) && chunks <= iterations
    ensures Tiles(Pieces(ChunkedSpread.Make(iterations, chunks, indexMax), chunks), 0, iterations)
  {
    var pieces := Pieces(ChunkedSpread.Make(iterations, chunks, indexMax), chunks);
    forall k | 0 <= k < chunks ensures pieces[k].start < pieces[k].end {
      PieceAt(iterations, chunks, indexMax, k);
    }
    forall k | 0 <= k < chunks - 1 ensures pieces[k].end == pieces[k + 1].start {
      PieceAt(iterations, chunks, indexMax, k);
      PieceAt(iterations, chunks, indexMax, k + 1);
    }
    PieceAt(iterations, chunks, indexMax, 0);
    PieceAt(iterations, chunks, indexMax, chunks - 1);
  }

  function ChunkRuns(s: LibuvSpread.State): (runs: seq<nat>)
    ensures |runs| == |s.chunks| + 1
  {
    seq(|s.chunks|, k requires 0 <= k < |s.chunks| => s.chunks[k].runs) + [s.tailRuns]
  }

  /** The libuv spread: when `spread_impl` is past its latch, on whatever mixture of workers, caller
      and loop thread the chunks ran, every iteration has been worked on exactly once. */
  lemma LibuvSpreadRunsEachOnce(iterations: nat, chunks: nat, indexMax: nat, s: LibuvSpread.State, x: nat)
    requires ChunkedSpread.Sensible(iterations, chunks, indexMax) && 2 <= chunks <= iterations
    requires LibuvSpread.Reachable(s) && |s.chunks| == chunks - 1
    requires LibuvTheorems.PastTheLatch(s.caller)
    ensures var pieces := Pieces(ChunkedSpread.Make(iterations, chunks, indexMax), chunks);
      Times(pieces, ChunkRuns(s), x) == if x < iterations then 1 else 0
  {
    PiecesTile(iterations, chunks, indexMax);
    LibuvTheorems.EveryChunkRunsOnce(s);
    TilesOnce(Pieces(ChunkedSpread.Make(iterations, chunks, indexMax), chunks), ChunkRuns(s), 0, iterations, x);
  }
}
