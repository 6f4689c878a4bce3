/** How the generic shop splits a spread: the caller's part, the workers' parts, and their slices. */
module WorkSplit {

  /** A range of iterations, the `spread_work_base` of one work item. */
  datatype Slice = Slice(start: nat, end: nat)

  const DIVISION_MIN: nat := 4
  const DIVISION_MAX: nat := 16
  const U32: nat := 0x1_0000_0000

  function Min(a: int, b: int): int { if a < b then a else b }
  function Max(a: int, b: int): int { if a > b then a else b }

  /** Slices that follow one another without gap, overlap or empty slice. */
  predicate Tiles(slices: seq<Slice>, from: nat, to: nat) {
    && (slices == [] ==> from == to)
    && (slices != [] ==> slices[0].start == from && slices[|slices| - 1].end == to)
    && (forall k :: 0 <= k < |slices| ==> slices[k].start < slices[k].end)
    && (forall k :: 0 <= k < |slices| - 1 ==> slices[k].end == slices[k + 1].start)
  }

  lemma TilesJoin(a: seq<Slice>, b: seq<Slice>, from: nat, mid: nat, to: nat)
    requires Tiles(a, from, mid) && Tiles(b, mid, to)
    ensures Tiles(a + b, from, to)
  {
    var c := a + b;
    forall k | 0 <= k < |c| - 1 ensures c[k].end == c[k + 1].start {
      if k < |a| - 1 {
        assert c[k] == a[k] && c[k + 1] == a[k + 1];
      } else if k >= |a| {
        assert c[k] == b[k - |a|] && c[k + 1] == b[k + 1 - |a|];
      }
    }
  }

  /** What a tiling is for: every iteration lies in exactly one slice, and there are no more slices
      than iterations. */
  lemma {:induction false} TilesCover(slices: seq<Slice>, from: nat, to: nat, x: nat)
    requires Tiles(slices, from, to)
    ensures from <= to && |slices| <= to - from
    ensures from <= x < to ==> exists k :: 0 <= k < |slices| && slices[k].start <= x < slices[k].end
    ensures forall k :: 0 <= k < |slices| && slices[k].start <= x < slices[k].end ==> from <= x < to
    ensures forall k, l :: 0 <= k < |slices| && 0 <= l < |slices| ==>
      slices[k].start <= x < slices[k].end && slices[l].start <= x < slices[l].end ==> k == l
  {
    if slices != [] {
      var last := |slices| - 1;
      var init := slices[..last];
      var mid := slices[last].start;
      TilesCover(init, from, mid, x);
      if from <= x < mid {
        var k :| 0 <= k < |init| && init[k].start <= x < init[k].end;
        assert slices[k].start <= x < slices[k].end;
      }
      forall k | 0 <= k < last && slices[k].start <= x < slices[k].end ensures x < mid {
        assert init[k] == slices[k];
      }
      forall k, l | 0 <= k < last && 0 <= l < last
                    && slices[k].start <= x < slices[k].end && slices[l].start <= x < slices[l].end
        ensures k == l
      {
        assert init[k] == slices[k] && init[l] == slices[l];
      }
    }
  }

  function Flat(parts: seq<seq<Slice>>): seq<Slice> {
    if parts == [] then [] else Flat(parts[..|parts| - 1]) + parts[|parts| - 1]
  }

  /** `slice_div`. */
  function SliceDivision(division: nat, perPart: nat): nat {
    Min(division, Max(perPart, 1))
  }

  function Length(s: Slice): int { s.end - s.start }

  /** The slices of a part of `len` iterations: all alike, but that the first takes the remainder. */
  predicate EvenSlices(slices: seq<Slice>, len: nat) {
    forall k :: 0 <= k < |slices| ==>
      Length(slices[k]) == len / |slices| + (if k == 0 then len % |slices| else 0)
  }

  /** Cutting one part into slices; the first takes the remainder. */
  method SlicePart(start: nat, end: nat, division: nat) returns (slices: seq<Slice>)
    requires start < end && 1 <= division <= end - start
    ensures Tiles(slices, start, end) && |slices| == division && EvenSlices(slices, end - start)
  {
    var sliceIter := (end - start) / division;
    var firstSliceExtraIter := (end - start) % division;
    ghost var extra := firstSliceExtraIter;
    slices := [];
    var iter := start;
    assert sliceIter >= 1 && sliceIter * division + extra == end - start by {
      PartQuotient(end - start, division);
    }
    while iter < end
      invariant Tiles(slices, start, iter)
      invariant slices == [] ==> firstSliceExtraIter == extra
      invariant slices != [] ==> firstSliceExtraIter == 0 && iter == start + extra + |slices| * sliceIter
      invariant forall k :: 0 <= k < |slices| ==> Length(slices[k]) == sliceIter + (if k == 0 then extra else 0)
      invariant |slices| <= division && iter <= end
      invariant iter < end ==> |slices| < division
      decreases end - iter
    {
      var sliceEnd := iter + firstSliceExtraIter + sliceIter;
      SliceStep(|slices|, sliceIter, division);
      TilesJoin(slices, [Slice(iter, sliceEnd)], start, iter, sliceEnd);
      slices := slices + [Slice(iter, sliceEnd)];
      firstSliceExtraIter := 0;
      iter := sliceEnd;
    }
    if |slices| < division {
      SliceStep(|slices|, sliceIter, division);
    }
  }

  lemma PartQuotient(len: nat, d: nat)
    requires 1 <= d <= len
    ensures len / d >= 1 && (len / d) * d + len % d == len
  {
  }

  lemma SliceStep(k: nat, q: nat, d: nat)
    requires k < d && q >= 1
    ensures (k + 1) * q == k * q + q
    ensures (k + 1) * q <= d * q && (k + 1 < d ==> (k + 1) * q < d * q)
    ensures q * d == d * q && k * q < d * q
  {
    assert d * q == (k + 1) * q + (d - k - 1) * q;
    assert (d - k - 1) * q >= 0;
  }

  /** Iterations in the first k parts when the first e of them take one more. */
  function Offset(p: nat, k: nat, e: nat): nat {
    if k == 0 then 0 else Offset(p, k - 1, e) + p + (if k - 1 < e then 1 else 0)
  }

  lemma {:induction false} OffsetClosed(p: nat, k: nat, e: nat)
    ensures Offset(p, k, e) == p * k + Min(k, e)
  {
    if k > 0 {
      OffsetClosed(p, k - 1, e);
      assert p * k == p * (k - 1) + p;
    }
  }

  /** Later parts start later, and strictly so unless they are all empty. */
  lemma {:induction false} OffsetGrows(p: nat, k: nat, m: nat, e: nat)
    requires k <= m
    ensures Offset(p, k, e) <= Offset(p, m, e)
    ensures k < m && (p > 0 || k < e) ==> Offset(p, k, e) < Offset(p, m, e)
    ensures p == 0 && e <= k ==> Offset(p, k, e) == Offset(p, m, e)
    decreases m - k
  {
    if k < m {
      OffsetGrows(p, k + 1, m, e);
    }
  }

  /** A part the loop reaches before the end is not empty and does not pass it. */
  lemma PartFits(p: nat, k: nat, m: nat, e: nat)
    requires k < m && Offset(p, k, e) < Offset(p, m, e)
    ensures Offset(p, k, e) < Offset(p, k + 1, e) <= Offset(p, m, e)
    ensures Offset(p, k + 1, e) == Offset(p, k, e) + p + (if k < e then 1 else 0)
  {
    OffsetGrows(p, k, m, e);
    OffsetGrows(p, k + 1, m, e);
  }

  lemma FlatAppend(parts: seq<seq<Slice>>, slices: seq<Slice>)
    ensures Flat(parts + [slices]) == Flat(parts) + slices
  {
    assert (parts + [slices])[..|parts|] == parts;
  }

  /** One part, cut into slices and queued on the next worker. */
  method DispatchPart(parts: seq<seq<Slice>>, from: nat, start: nat, end: nat, sliceDiv: nat)
    returns (more: seq<seq<Slice>>)
    requires Tiles(Flat(parts), from, start) && start < end && 1 <= sliceDiv <= end - start
    ensures |more| == |parts| + 1 && parts <= more && |more[|parts|]| == sliceDiv
    ensures EvenSlices(more[|parts|], end - start)
    ensures Tiles(Flat(more), from, end)
  {
    var slices := SlicePart(start, end, sliceDiv);
    TilesJoin(Flat(parts), slices, from, start, end);
    FlatAppend(parts, slices);
    more := parts + [slices];
  }

  /** `dispatch_workers`: one part per worker from `workerIndex` on, each cut into slices. Returns
      the parts in worker order, and the two values of the source. */
  method DispatchWorkers(
    workerIndex: nat, from: nat, maxParts: nat, perPart: nat, partsWithExtra: nat, iterations: nat, division: nat)
    returns (parts: seq<seq<Slice>>, worker: nat, iteration: nat)
    requires DIVISION_MIN <= division <= DIVISION_MAX
    requires from + Offset(perPart, maxParts, partsWithExtra) == iterations < U32 && partsWithExtra <= maxParts
    ensures Tiles(Flat(parts), from, iterations) && iteration == iterations
    ensures worker == workerIndex + |parts| <= workerIndex + maxParts
    ensures perPart > 0 ==> |parts| == maxParts
    ensures forall p :: 0 <= p < |parts| ==>
      |parts[p]| == SliceDivision(division, perPart)
      && EvenSlices(parts[p], perPart + if p < partsWithExtra then 1 else 0)
  {
    var sliceDiv := SliceDivision(division, perPart);
    worker, iteration, parts := workerIndex, from, [];
    var workPart := 0;
    while workPart < maxParts && iteration != iterations
      invariant workPart == |parts| <= maxParts && worker == workerIndex + workPart
      invariant iteration == from + Offset(perPart, workPart, partsWithExtra) <= iterations
      invariant Tiles(Flat(parts), from, iteration)
      invariant forall p :: 0 <= p < |parts| ==>
        |parts[p]| == sliceDiv && EvenSlices(parts[p], perPart + if p < partsWithExtra then 1 else 0)
    {
      PartFits(perPart, workPart, maxParts, partsWithExtra);
      var extraIteration := if workPart < partsWithExtra then 1 else 0;
      var endIteration := iteration + perPart + extraIteration;
      parts := DispatchPart(parts, from, iteration, endIteration, sliceDiv);
      iteration := endIteration;
      worker := worker + 1;
      workPart := workPart + 1;
    }
    OffsetGrows(perPart, workPart, maxParts, partsWithExtra);
  }

  /** Re-slicing for the shared queue: the parts with one more iteration, the iterations per part
      and the parts, before and after. */
  datatype Shape = Shape(withExtra: nat, perPart: nat, parts: nat)

  function Resliced(s: Shape, division: nat): Shape
    requires division >= 1
  {
    var d := SliceDivision(division, s.perPart);
    Shape(s.withExtra + (s.perPart % d) * s.parts, s.perPart / d, s.parts * d)
  }

  /** Re-slicing keeps the total, keeps the extra iterations below the part count, and leaves no
      part empty. */
  lemma ReslicedFits(s: Shape, division: nat)
    requires division >= 1 && s.parts > 0 && s.perPart > 0 && s.withExtra < s.parts
    ensures var r := Resliced(s, division);
      && r.perPart * r.parts + r.withExtra == s.perPart * s.parts + s.withExtra
      && r.withExtra < r.parts && r.perPart > 0
      && r.parts <= s.parts * division
  {
    var d := SliceDivision(division, s.perPart);
    PartQuotient(s.perPart, d);
    Regroup(s.perPart / d, s.perPart % d, d, s.parts);
    Scale(s.perPart % d, d, division, s.parts);
  }

  lemma Scale(m: nat, d: nat, division: nat, parts: nat)
    requires m < d <= division
    ensures m * parts + parts <= parts * d <= parts * division
  {
    assert parts * d == (m + 1) * parts + (d - m - 1) * parts && (d - m - 1) * parts >= 0;
    assert parts * division == parts * d + parts * (division - d) && parts * (division - d) >= 0;
  }

  lemma Regroup(q: nat, m: nat, d: nat, parts: nat)
    ensures q * (parts * d) + m * parts == (q * d + m) * parts
  {
    assert q * (parts * d) == q * d * parts;
  }

  /** As long as the shape says, the longer ones first. */
  predicate Alike(slices: seq<Slice>, s: Shape) {
    forall k :: 0 <= k < |slices| ==> Length(slices[k]) == s.perPart + (if k < s.withExtra then 1 else 0)
  }

  /** The bulk path's loop: parts straight into the shared queue. */
  method BulkParts(from: nat, s: Shape, iterations: nat) returns (slices: seq<Slice>)
    requires s.perPart > 0 && s.withExtra <= s.parts && from + s.perPart * s.parts + s.withExtra == iterations < U32
    ensures Tiles(slices, from, iterations) && |slices| == s.parts && Alike(slices, s)
  {
    OffsetClosed(s.perPart, s.parts, s.withExtra);
    slices := [];
    var iteration := from;
    var workPart := 0;
    while workPart < s.parts
      invariant workPart == |slices| <= s.parts
      invariant iteration == from + Offset(s.perPart, workPart, s.withExtra) <= iterations
      invariant Tiles(slices, from, iteration) && Alike(slices, s)
    {
      OffsetGrows(s.perPart, workPart + 1, s.parts, s.withExtra);
      var endIteration := iteration + s.perPart + (if workPart < s.withExtra then 1 else 0);
      TilesJoin(slices, [Slice(iteration, endIteration)], from, iteration, endIteration);
      slices := slices + [Slice(iteration, endIteration)];
      iteration := endIteration;
      workPart := workPart + 1;
    }
  }

  /** What `spread_work` reads from the shop before it splits: the pool size, the items in the shop,
      whether the caller is a worker, whether thread signals are slow, and the slicing knob. */
  datatype Shop = Shop(workers: nat, items: nat, callerIsWorker: bool, slowSignals: bool, division: nat)

  /** With items about, a shop without workers and a caller that is a worker itself do everything in
      the caller. */
  predicate RunsInline(shop: Shop) {
    shop.items > 0 && (shop.workers == 0 || shop.callerIsWorker)
  }

  /** Where the iterations go. */
  datatype Plan = Plan(callerEnd: nat, perWorker: seq<seq<Slice>>, shared: seq<Slice>)

  /** The number of parts a spread is to have, the caller's included: as many as there are threads
      for, but none below the cost that makes a part worth its while. */
  predicate BestParts(n: nat, iterations: nat, parallelizable: nat, most: nat) {
    && 1 <= n <= most
    && (n > 1 ==> n * parallelizable <= iterations)
    && (n == most || iterations < (n + 1) * parallelizable)
  }

  /** There is only one such number. */
  lemma BestIsUnique(m: nat, n: nat, iterations: nat, parallelizable: nat, most: nat)
    requires BestParts(m, iterations, parallelizable, most) && BestParts(n, iterations, parallelizable, most)
    ensures m == n
  {
    if m < n {
      Product(m + 1, parallelizable, n, parallelizable);
    } else if n < m {
      Product(n + 1, parallelizable, m, parallelizable);
    }
  }

  lemma Chosen(iterations: nat, parallelizable: nat, most: nat)
    requires iterations > 0 && parallelizable >= 1 && most >= 1
    ensures BestParts(Min(Max(1, iterations / parallelizable), most), iterations, parallelizable, most)
  {
    var q := iterations / parallelizable;
    var n := Min(Max(1, q), most);
    assert q * parallelizable <= iterations < (q + 1) * parallelizable;
    if n > 1 {
      Product(n, parallelizable, q, parallelizable);
    }
    if n < most {
      Product(q + 1, parallelizable, n + 1, parallelizable);
    }
  }

  lemma WorthIts(n: nat, iterations: nat, parallelizable: nat)
    requires n >= 1 && n * parallelizable <= iterations
    ensures iterations / n >= parallelizable
  {
    var q := iterations / n;
    assert n * (q + 1) == n * q + n && iterations < n * q + n;
    if q < parallelizable {
      Product(n, q + 1, n, parallelizable);
    }
  }

  /** The number of parts, the caller's part, and what is left for the workers. */
  method Divide(iterations: nat, parallelizable: nat, maxWorkParts: nat, useCaller: bool)
    returns (callerEnd: nat, shape: Shape)
    requires iterations > 0 && parallelizable >= 1 && maxWorkParts >= 1
    ensures callerEnd + shape.perPart * shape.parts + shape.withExtra == iterations
    ensures shape.perPart >= 1 && (shape.withExtra < shape.parts || (shape.parts == 0 && shape.withExtra == 0))
    ensures useCaller ==> callerEnd >= 1 && shape.parts <= maxWorkParts - 1
    ensures !useCaller ==> callerEnd == 0 && 1 <= shape.parts <= maxWorkParts
    ensures callerEnd == 0 || callerEnd == shape.perPart || callerEnd == shape.perPart + 1
    ensures useCaller && shape.withExtra > 0 ==> callerEnd == shape.perPart + 1
    ensures var n := shape.parts + (if useCaller then 1 else 0);
      && BestParts(n, iterations, parallelizable, maxWorkParts) && shape.perPart == iterations / n
      && (n > 1 ==> shape.perPart >= parallelizable)
  {
    var parallelizableParts := Max(1, iterations / parallelizable);
    var workParts := Min(parallelizableParts, maxWorkParts);
    var dispatched := Max(0, workParts - (if useCaller then 1 else 0));
    PartsFit(iterations, parallelizable, maxWorkParts);
    Chosen(iterations, parallelizable, maxWorkParts);
    if workParts > 1 {
      WorthIts(workParts, iterations, parallelizable);
    }
    var perPart, withExtra := iterations / workParts, iterations % workParts;
    Remaining(perPart, workParts, withExtra);
    callerEnd := 0;
    if useCaller {
      var extraIteration := if withExtra != 0 then 1 else 0;
      callerEnd := perPart + extraIteration;
      withExtra := withExtra - extraIteration;
    }
    shape := Shape(withExtra, perPart, dispatched);
  }

  /** The shared-queue path: with no other items about the parts are sliced up first. */
  method SplitBulk(from: nat, parts: Shape, iterations: nat, shop: Shop, indexMax: nat) returns (slices: seq<Slice>)
    requires parts.parts > 0 && parts.perPart > 0 && parts.withExtra < parts.parts <= shop.workers < indexMax
    requires from + parts.perPart * parts.parts + parts.withExtra == iterations < U32
    requires shop.division >= 1 && (shop.items == 0 ==> shop.workers * shop.division <= indexMax)
    ensures Tiles(slices, from, iterations) && 0 < |slices| <= indexMax && |slices| <= shop.workers * shop.division
    ensures var shape := if shop.items == 0 then Resliced(parts, shop.division) else parts;
      |slices| == shape.parts && Alike(slices, shape)
  {
    var shape := parts;
    Product(parts.parts, 1, shop.workers, shop.division);
    if shop.items == 0 {
      ReslicedFits(parts, shop.division);
      shape := Resliced(parts, shop.division);
      Product(parts.parts, shop.division, shop.workers, shop.division);
    }
    slices := BulkParts(from, shape, iterations);
  }

  lemma {:induction false} FlatAtMost(parts: seq<seq<Slice>>, most: nat)
    requires forall p :: 0 <= p < |parts| ==> |parts[p]| <= most
    ensures |Flat(parts)| <= |parts| * most
  {
    if parts != [] {
      var init := parts[..|parts| - 1];
      FlatAtMost(init, most);
      assert |parts| * most == |init| * most + most;
    }
  }

  /** The exact-worker path: parts on the workers' own queues, of which none is indexed past the
      pool. */
  method SplitAmongWorkers(from: nat, parts: Shape, iterations: nat, shop: Shop) returns (perWorker: seq<seq<Slice>>)
    requires parts.perPart > 0 && parts.withExtra <= parts.parts <= shop.workers
    requires from + parts.perPart * parts.parts + parts.withExtra == iterations < U32
    requires DIVISION_MIN <= shop.division <= DIVISION_MAX
    ensures Tiles(Flat(perWorker), from, iterations)
    ensures |perWorker| <= shop.workers && |Flat(perWorker)| <= shop.workers * shop.division
    ensures |perWorker| == parts.parts
    ensures forall p :: 0 <= p < |perWorker| ==> 1 <= |perWorker[p]| <= shop.division
    ensures forall p :: 0 <= p < |perWorker| ==>
      |perWorker[p]| == SliceDivision(shop.division, parts.perPart)
      && EvenSlices(perWorker[p], parts.perPart + if p < parts.withExtra then 1 else 0)
  {
    OffsetClosed(parts.perPart, parts.parts, parts.withExtra);
    var perPart, _, _ := DispatchWorkers(
      0, from, parts.parts, parts.perPart, parts.withExtra, iterations, shop.division);
    perWorker := perPart;
    FlatAtMost(perWorker, shop.division);
    Product(|perWorker|, shop.division, shop.workers, shop.division);
  }

  /** The threads a spread may use: those that have nothing to do, the caller counted in; with none
      of them free, the workers alone. */
  function MostParts(shop: Shop): nat {
    if shop.items <= shop.workers then shop.workers + 1 - shop.items else shop.workers
  }

  /** The caller waits only, with its own hands off the work. */
  predicate OnlyQueues(shop: Shop) { shop.items > shop.workers }

  /** The caller's own part counts as one. */
  function OwnPart(shop: Shop): nat { if OnlyQueues(shop) then 0 else 1 }

  /** The parts of this shape, each cut into slices, one per worker. */
  predicate OnWorkers(perWorker: seq<seq<Slice>>, shape: Shape, division: nat) {
    && |perWorker| == shape.parts
    && forall p :: 0 <= p < |perWorker| ==>
         && |perWorker[p]| == SliceDivision(division, shape.perPart)
         && EvenSlices(perWorker[p], shape.perPart + if p < shape.withExtra then 1 else 0)
  }

  /** The parts of this shape in the shared queue, sliced up when nothing else is there to steal. */
  predicate InQueue(shared: seq<Slice>, shape: Shape, shop: Shop)
    requires shop.division >= 1
  {
    var cut := if shop.items == 0 && shape.parts > 0 then Resliced(shape, shop.division) else shape;
    |shared| == cut.parts && Alike(shared, cut)
  }

  predicate Shared(shop: Shop) { shop.slowSignals || shop.items > 0 }

  predicate Places(plan: Plan, shape: Shape, shop: Shop)
    requires shop.division >= 1
  {
    if Shared(shop) then plan.perWorker == [] && InQueue(plan.shared, shape, shop)
    else plan.shared == [] && OnWorkers(plan.perWorker, shape, shop.division)
  }

  /** `n` parts, the caller's included, alike but for one iteration. */
  predicate HasParts(plan: Plan, n: nat, iterations: nat, shop: Shop)
    requires n > 0 && shop.division >= 1
  {
    var own, q, r := OwnPart(shop), iterations / n, iterations % n;
    && n >= own && plan.callerEnd == (if own == 0 then 0 else q + if r > 0 then 1 else 0)
    && Places(plan, Shape(if r > own then r - own else 0, q, n - own), shop)
  }

  /** The slices tile what the caller leaves, and do not outnumber what the source counts them in. */
  predicate Covers(plan: Plan, iterations: nat, shop: Shop, indexMax: nat) {
    && Tiles(Flat(plan.perWorker) + plan.shared, plan.callerEnd, iterations)
    && |plan.perWorker| <= shop.workers && |plan.shared| <= indexMax
    && |Flat(plan.perWorker) + plan.shared| <= shop.workers * shop.division
    && forall p :: 0 <= p < |plan.perWorker| ==> 1 <= |plan.perWorker[p]| <= shop.division
  }

  /** What the split asks of a shop: the pool and the caller fit the thread-count type, and so does
      what the split multiplies into it. */
  predicate Fits(shop: Shop, indexMax: nat) {
    && DIVISION_MIN <= shop.division <= DIVISION_MAX && shop.workers < indexMax
    && (shop.slowSignals && shop.items == 0 ==> shop.workers * shop.division <= indexMax)
  }

  /** The caller has had its part, and this shape is what is left. */
  predicate Leaves(shape: Shape, callerEnd: nat, iterations: nat) {
    && callerEnd + shape.perPart * shape.parts + shape.withExtra == iterations < U32
    && shape.perPart > 0 && (shape.withExtra < shape.parts || (shape.parts == 0 && shape.withExtra == 0))
  }

  method PlaceOnWorkers(callerEnd: nat, shape: Shape, iterations: nat, shop: Shop, indexMax: nat)
    returns (plan: Plan)
    requires Leaves(shape, callerEnd, iterations) && shape.parts <= shop.workers && Fits(shop, indexMax)
    ensures plan.callerEnd == callerEnd && plan.shared == [] && OnWorkers(plan.perWorker, shape, shop.division)
    ensures Covers(plan, iterations, shop, indexMax)
  {
    var parts := SplitAmongWorkers(callerEnd, shape, iterations, shop);
    plan := Plan(callerEnd, parts, []);
    assert Flat(parts) + [] == Flat(parts);
  }

  method PlaceInQueue(callerEnd: nat, shape: Shape, iterations: nat, shop: Shop, indexMax: nat)
    returns (plan: Plan)
    requires Leaves(shape, callerEnd, iterations) && shape.parts <= shop.workers && Fits(shop, indexMax)
    requires Shared(shop)
    ensures plan.callerEnd == callerEnd && plan.perWorker == [] && InQueue(plan.shared, shape, shop)
    ensures Covers(plan, iterations, shop, indexMax)
  {
    plan := Plan(callerEnd, [], []);
    if shape.parts > 0 {
      var slices := SplitBulk(callerEnd, shape, iterations, shop, indexMax);
      plan := Plan(callerEnd, [], slices);
      assert Flat([]) + slices == slices;
    }
  }

  /** A spread that does not run inline: the division, and the parts to their queues. */
  method SplitInParts(iterations: nat, parallelizable: nat, shop: Shop, indexMax: nat) returns (plan: Plan)
    requires 0 < iterations < U32 && parallelizable >= 1 && Fits(shop, indexMax) && MostParts(shop) > 0
    ensures Covers(plan, iterations, shop, indexMax)
    ensures if Shared(shop) then plan.perWorker == [] else plan.shared == []
    ensures plan.callerEnd == 0 <==> OnlyQueues(shop)
    ensures plan.callerEnd == 0 ==> plan.shared != []
    ensures exists n: nat ::
      BestParts(n, iterations, parallelizable, MostParts(shop)) && HasParts(plan, n, iterations, shop)
    ensures !Shared(shop) && iterations >= (shop.workers + 1) * parallelizable ==> |plan.perWorker| == shop.workers
  {
    var freeWorkers := Max(0, shop.workers + 1 - shop.items);
    var maxWorkParts := if freeWorkers > 0 then freeWorkers else shop.workers;
    var useCaller := freeWorkers > 0;

    var callerEnd, shape := Divide(iterations, parallelizable, maxWorkParts, useCaller);
    if !shop.slowSignals && shop.items == 0 {
      plan := PlaceOnWorkers(callerEnd, shape, iterations, shop, indexMax);
    } else {
      plan := PlaceInQueue(callerEnd, shape, iterations, shop, indexMax);
    }
    PartsAsWanted(plan, shape, iterations, parallelizable, shop);
  }

  lemma PartsAsWanted(plan: Plan, shape: Shape, iterations: nat, parallelizable: nat, shop: Shop)
    requires Leaves(shape, plan.callerEnd, iterations) && shop.division >= 1 && Places(plan, shape, shop)
    requires BestParts(shape.parts + OwnPart(shop), iterations, parallelizable, MostParts(shop))
    requires shape.perPart == iterations / (shape.parts + OwnPart(shop))
    requires if OnlyQueues(shop) then plan.callerEnd == 0
             else plan.callerEnd == shape.perPart || plan.callerEnd == shape.perPart + 1
    requires !OnlyQueues(shop) && shape.withExtra > 0 ==> plan.callerEnd == shape.perPart + 1
    ensures exists n: nat ::
      BestParts(n, iterations, parallelizable, MostParts(shop)) && HasParts(plan, n, iterations, shop)
    ensures !Shared(shop) && iterations >= (shop.workers + 1) * parallelizable ==> |plan.perWorker| == shop.workers
  {
    var n := shape.parts + OwnPart(shop);
    Divided(iterations, n, OwnPart(shop), plan.callerEnd, shape);
    AllWorkersUsed(n, iterations, parallelizable, MostParts(shop));
    assert HasParts(plan, n, iterations, shop);
  }

  lemma CallerTakesAll(iterations: nat, shop: Shop, indexMax: nat)
    requires iterations == 0 || RunsInline(shop)
    ensures Covers(Plan(iterations, [], []), iterations, shop, indexMax)
  {
    assert shop.workers * shop.division >= 0;
  }

  lemma NothingToShare(workers: nat, parallelizable: nat)
    requires parallelizable >= 1
    ensures (workers + 1) * parallelizable > 0
  {
  }

  /** `spread_work` with its caller participating: the caller takes [0, callerEnd), the rest is
      handed to the workers or to the shared queue. `indexMax` is the largest thread count, which
      workers and caller together do not exceed; the slices on the workers' queues may. */
  method SplitSpread(iterations: nat, parallelizable: nat, shop: Shop, indexMax: nat) returns (plan: Plan)
    requires iterations < U32 && parallelizable >= 1 && Fits(shop, indexMax)
    ensures Covers(plan, iterations, shop, indexMax)
    ensures if shop.slowSignals || shop.items > 0 then plan.perWorker == [] else plan.shared == []
    ensures shop.items > 0 && (shop.workers == 0 || shop.callerIsWorker) ==> plan == Plan(iterations, [], [])
    ensures plan.callerEnd == 0 <==>
      iterations == 0 || (shop.items > shop.workers > 0 && !shop.callerIsWorker)
    ensures iterations > 0 && plan.callerEnd == 0 ==> plan.shared != []
    ensures iterations > 0 && (shop.items == 0 || (shop.workers > 0 && !shop.callerIsWorker)) ==>
      exists n: nat :: BestParts(n, iterations, parallelizable, MostParts(shop)) && HasParts(plan, n, iterations, shop)
    ensures shop.items == 0 && !shop.slowSignals && iterations >= (shop.workers + 1) * parallelizable ==>
      |plan.perWorker| == shop.workers
  {
    NothingToShare(shop.workers, parallelizable);
    if iterations == 0 || RunsInline(shop) {
      CallerTakesAll(iterations, shop, indexMax);
      return Plan(iterations, [], []);
    }
    plan := SplitInParts(iterations, parallelizable, shop, indexMax);
  }

  lemma AllWorkersUsed(n: nat, iterations: nat, parallelizable: nat, most: nat)
    requires BestParts(n, iterations, parallelizable, most)
    ensures iterations >= most * parallelizable ==> n == most
  {
    if n < most {
      Product(n + 1, parallelizable, most, parallelizable);
    }
  }

  /** What is left for the workers is what division with remainder leaves. */
  lemma Divided(iterations: nat, n: nat, own: nat, callerEnd: nat, shape: Shape)
    requires n > 0 && own <= 1 && n == shape.parts + own && shape.perPart == iterations / n
    requires callerEnd + shape.perPart * shape.parts + shape.withExtra == iterations
    requires shape.withExtra < shape.parts || (shape.parts == 0 && shape.withExtra == 0)
    requires if own == 0 then callerEnd == 0 else callerEnd == shape.perPart || callerEnd == shape.perPart + 1
    requires own == 1 && shape.withExtra > 0 ==> callerEnd == shape.perPart + 1
    ensures var r := iterations % n;
      && shape.withExtra == (if r > own then r - own else 0)
      && (own == 1 ==> callerEnd == shape.perPart + if r > 0 then 1 else 0)
  {
    var q, r := iterations / n, iterations % n;
    assert iterations == n * q + r;
    assert n * q == q * shape.parts + q * own;
  }

  lemma Remaining(p: nat, parts: nat, extra: nat)
    requires parts >= 1
    ensures p * parts == p + p * (parts - 1) && p * parts == parts * p
  {
  }

  /** There are never more parts than iterations, so no part is empty. */
  lemma PartsFit(iterations: nat, parallelizable: nat, maxParts: nat)
    requires iterations > 0 && parallelizable >= 1 && maxParts >= 1
    ensures var parts := Min(Max(1, iterations / parallelizable), maxParts);
      && 1 <= parts <= iterations && iterations / parts >= 1
      && (iterations / parts) * parts + iterations % parts == iterations
  {
    Shrinks(iterations, parallelizable);
    PartQuotient(iterations, Min(Max(1, iterations / parallelizable), maxParts));
  }

  lemma Product(a: nat, b: nat, c: nat, d: nat)
    requires a <= c && b <= d
    ensures a * b <= c * d
  {
    assert c * d == a * b + (c - a) * d + a * (d - b);
    assert (c - a) * d >= 0 && a * (d - b) >= 0;
  }

  lemma Shrinks(x: nat, y: nat)
    requires y >= 1
    ensures x / y <= x
  {
  }
}
