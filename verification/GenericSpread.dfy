/** `spread_work` as a whole: the split of the iterations, and the dispatch and join of the slices it
    made. */
module GenericSpread {
  import opened Coverage
  import opened SpreadJoin
  import opened SpreadJoinCode
  import opened WorkSplit

  function Slices(plan: Plan): seq<Slice> { Flat(plan.perWorker) + plan.shared }

  /** Where the parts end, counted in slices. */
  function PartEnds(parts: seq<seq<Slice>>): (ends: seq<nat>)
    ensures |ends| == |parts|
  {
    if parts == [] then [] else PartEnds(parts[..|parts| - 1]) + [|Flat(parts)|]
  }

  lemma {:induction false} PartEndsGrow(parts: seq<seq<Slice>>)
    requires forall p :: 0 <= p < |parts| ==> |parts[p]| >= 1
    ensures Ends(PartEnds(parts), |Flat(parts)|)
  {
    if parts != [] {
      var init := parts[..|parts| - 1];
      PartEndsGrow(init);
      assert |Flat(parts)| == |Flat(init)| + |parts[|parts| - 1]|;
    }
  }

  /** Where the parts of a plan end; the shared queue takes all its slices as one part. */
  function PlanEnds(plan: Plan): seq<nat> {
    PartEnds(plan.perWorker) + (if plan.shared == [] then [] else [|plan.shared|])
  }

  lemma PlanEndsGrow(plan: Plan)
    requires forall p :: 0 <= p < |plan.perWorker| ==> |plan.perWorker[p]| >= 1
    requires plan.shared == [] || plan.perWorker == []
    ensures Ends(PlanEnds(plan), |Slices(plan)|)
  {
    PartEndsGrow(plan.perWorker);
    assert plan.shared == [] ==> PlanEnds(plan) == PartEnds(plan.perWorker);
  }

  /** The slices of a plan through the queue and the barrier. */
  method DispatchAndJoin(plan: Plan, incremental: bool, indexMax: nat, hands: nat, env: seq<Turn>)
    returns (spread: Spread, done: bool, ownRuns: nat, runs: seq<nat>)
    requires forall p :: 0 <= p < |plan.perWorker| ==> |plan.perWorker[p]| >= 1
    requires plan.shared == [] || plan.perWorker == []
    requires incremental || |Slices(plan)| <= indexMax
    ensures spread.mode == Mode(incremental, plan.callerEnd == 0, indexMax, hands)
    ensures spread.Valid() && |runs| == |Slices(plan)| && ownRuns == spread.ownRuns && runs == WorkRuns(spread.works)
    ensures plan.callerEnd == 0 && Slices(plan) != [] && Undisturbed(env, 0) && |env| >= 2 * |Slices(plan)| + 2 ==>
      !done && spread.caller == Parked
    ensures done && (plan.callerEnd == 0 || |Slices(plan)| <= indexMax || hands <= indexMax) ==>
      ownRuns == (if plan.callerEnd == 0 then 0 else 1) && forall k :: 0 <= k < |runs| ==> runs[k] == 1
    ensures Undisturbed(env, 0) && |env| >= 5 * |Slices(plan)| + 8 && plan.callerEnd > 0 ==>
      done && ownRuns == 1 && forall k :: 0 <= k < |runs| ==> runs[k] == 1
  {
    PlanEndsGrow(plan);
    spread := new Spread(|Slices(plan)|, Mode(incremental, plan.callerEnd == 0, indexMax, hands));
    done := spread.SpreadWork(PlanEnds(plan), env);
    ownRuns, runs := spread.ownRuns, WorkRuns(spread.works);
  }

  /** `spread_work` on any shop, with any workers and callers at work meanwhile, of whom `hands` can
      hold a slice. When it returns, every iteration has been worked on exactly once and nothing else
      has, unless both slices and hands outnumber the thread-count type, in which the spinning caller
      looks at the barrier. A caller that takes part gets there without any worker's help. */
  method SpreadWork(
    iterations: nat, parallelizable: nat, shop: Shop, indexMax: nat, hands: nat, env: seq<Turn>)
    returns (done: bool, plan: Plan, ownRuns: nat, runs: seq<nat>)
    requires iterations < U32 && parallelizable >= 1 && Fits(shop, indexMax)
    ensures |runs| == |Slices(plan)|
    ensures shop.items > 0 && (shop.workers == 0 || shop.callerIsWorker) ==> plan == Plan(iterations, [], []) && done
    ensures iterations > 0 && (shop.items == 0 || (shop.workers > 0 && !shop.callerIsWorker)) ==>
      exists n: nat :: BestParts(n, iterations, parallelizable, MostParts(shop)) && HasParts(plan, n, iterations, shop)
    ensures done && (|Slices(plan)| <= indexMax || hands <= indexMax) ==>
      WorkedOnce(plan.callerEnd, Slices(plan), iterations, ownRuns, runs)
    ensures shop.slowSignals || shop.items > 0 || shop.workers * shop.division <= indexMax ==>
      |Slices(plan)| <= indexMax
    ensures Undisturbed(env, 0) && |env| >= 2 * |Slices(plan)| + 2 && plan.callerEnd == 0 && iterations > 0 ==> !done
    ensures Undisturbed(env, 0) && |env| >= 5 * |Slices(plan)| + 8 && plan.callerEnd > 0 ==>
      done && WorkedOnce(plan.callerEnd, Slices(plan), iterations, ownRuns, runs)
  {
    plan := SplitSpread(iterations, parallelizable, shop, indexMax);
    ownRuns, runs := 0, [];
    if iterations == 0 || RunsInline(shop) {
      ownRuns := if iterations == 0 then 0 else 1;
      done := true;
    } else {
      var spread;
      spread, done, ownRuns, runs := DispatchAndJoin(plan, !shop.slowSignals && shop.items == 0, indexMax, hands, env);
    }
    if (plan.callerEnd > 0 ==> ownRuns == 1) && forall k :: 0 <= k < |runs| ==> runs[k] == 1 {
      EachOnce(plan.callerEnd, Slices(plan), iterations, ownRuns, runs);
    }
  }
}
