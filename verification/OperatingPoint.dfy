/** Choosing an operating point from a sweep of thresholds
    (detector/eval/recall_eval.py, `sweep`, `recall_at_fp_per_image`). */
module OperatingPoint {
  import opened Common
  import opened Matching
  import opened EvalRecords

  const SWEEP_SIZE: nat := 99

  function SweepThreshold(k: nat): real { (k + 1) as real / 100.0 }

  function Sweep(records: seq<PredRecord>, nGt: nat, nImages: nat): seq<ClassPoint> {
    seq(SWEEP_SIZE, k requires 0 <= k < SWEEP_SIZE => Point(records, nGt, nImages, SweepThreshold(k)))
  }

  /** The sweep: 99 thresholds from 0.01 to 0.99 in steps of 0.01, each with its point. */
  lemma SweepGrid(records: seq<PredRecord>, nGt: nat, nImages: nat, k: nat)
    requires k < 99
    ensures var s := Sweep(records, nGt, nImages);
            && |s| == 99 && s[0].threshold == 0.01 && s[98].threshold == 0.99
            && (k > 0 ==> s[k].threshold == s[k - 1].threshold + 0.01)
            && s[k] == Point(records, nGt, nImages, s[k].threshold)
  {
  }

  predicate Feasible(p: ClassPoint, budget: real) { p.fpPerImage.AtMost(budget) }

  function WithinBudget(budget: real): ClassPoint -> bool { (p: ClassPoint) => Feasible(p, budget) }

  /** `max(points, key=recall)`: the first point no later one exceeds. */
  function MaxRecall(points: seq<ClassPoint>): ClassPoint
    requires points != []
  {
    var n := |points| - 1;
    if n == 0 then points[0] else
    var best := MaxRecall(points[..n]);
    if points[n].recall.Exceeds(best.recall) then points[n] else best
  }

  function RecallAtFp(records: seq<PredRecord>, nGt: nat, nImages: nat, budget: real): ClassPoint {
    var feasible := Filter(Sweep(records, nGt, nImages), WithinBudget(budget));
    if feasible == [] then Point(records, nGt, nImages, 0.99) else MaxRecall(feasible)
  }

  // ------------------------------------------------------------- monotonicity

  lemma QuotientMonotone(a: nat, b: nat, n: nat)
    requires a <= b && n > 0
    ensures a as real / n as real <= b as real / n as real
  {
  }

  /** Raising the threshold never adds a true or a false positive, so neither recall nor
      the false positives per image ever rise. */
  lemma ThresholdMonotone(records: seq<PredRecord>, nGt: nat, nImages: nat, t: real, u: real)
    requires t <= u
    ensures var low, high := Point(records, nGt, nImages, t), Point(records, nGt, nImages, u);
            && high.tp <= low.tp && high.fp <= low.fp && high.fn >= low.fn
            && (nGt > 0 ==> high.recall.Val? && low.recall.Val? && high.recall.v <= low.recall.v)
            && (nGt == 0 ==> high.recall == low.recall == NaN)
            && (nImages > 0 ==> high.fpPerImage.Val? && low.fpPerImage.Val? && high.fpPerImage.v <= low.fpPerImage.v)
            && (nImages == 0 ==> high.fpPerImage == low.fpPerImage == NaN)
  {
    FilterMonotone(records, HitAbove(u), HitAbove(t));
    FilterMonotone(records, FalseAbove(u), FalseAbove(t));
    if nGt > 0 {
      QuotientMonotone(TpAt(records, u), TpAt(records, t), nGt);
    }
    if nImages > 0 {
      QuotientMonotone(FpAt(records, u), FpAt(records, t), nImages);
    }
  }

  lemma SweepMonotone(records: seq<PredRecord>, nGt: nat, nImages: nat, j: nat, k: nat, budget: real)
    requires j <= k < SWEEP_SIZE
    ensures var s := Sweep(records, nGt, nImages);
            && !s[k].recall.Exceeds(s[j].recall)
            && (Feasible(s[j], budget) ==> Feasible(s[k], budget))
  {
    ThresholdMonotone(records, nGt, nImages, SweepThreshold(j), SweepThreshold(k));
  }

  // ----------------------------------------------------- the point that is chosen

  lemma {:induction false} MaxIsFirst(points: seq<ClassPoint>)
    requires points != []
    requires forall i :: 0 <= i < |points| ==> !points[i].recall.Exceeds(points[0].recall)
    ensures MaxRecall(points) == points[0]
  {
    if |points| > 1 {
      MaxIsFirst(points[..|points| - 1]);
    }
  }

  lemma {:induction false} FilterFirst<T>(s: seq<T>, keep: T -> bool, k: nat)
    requires k < |s| && keep(s[k])
    requires forall j :: 0 <= j < k ==> !keep(s[j])
    ensures Filter(s, keep) != [] && Filter(s, keep)[0] == s[k]
  {
    if k == |s| - 1 {
      FilterNone(s[..k], keep);
    } else {
      FilterFirst(s[..|s| - 1], keep, k);
    }
  }

  /** The chosen point is the one at the lowest feasible threshold of the sweep; when no
      threshold is feasible it is the last one, 0.99.  No ground truth, no images and
      NaN comparisons included. */
  lemma LowestFeasible(records: seq<PredRecord>, nGt: nat, nImages: nat, budget: real) returns (k: nat)
    ensures k < SWEEP_SIZE
    ensures RecallAtFp(records, nGt, nImages, budget) == Sweep(records, nGt, nImages)[k]
    ensures forall j :: 0 <= j < SWEEP_SIZE ==>
              (Feasible(Sweep(records, nGt, nImages)[j], budget) <==>
               j >= k && Feasible(Sweep(records, nGt, nImages)[k], budget))
    ensures Feasible(Sweep(records, nGt, nImages)[k], budget) || k == SWEEP_SIZE - 1
  {
    var s := Sweep(records, nGt, nImages);
    k := 0;
    while k < SWEEP_SIZE - 1 && !Feasible(s[k], budget)
      invariant k < SWEEP_SIZE
      invariant forall j :: 0 <= j < k ==> !Feasible(s[j], budget)
    {
      k := k + 1;
    }
    forall j: nat | k <= j < SWEEP_SIZE && Feasible(s[k], budget) ensures Feasible(s[j], budget) {
      SweepMonotone(records, nGt, nImages, k, j, budget);
    }
    var feasible := Filter(s, WithinBudget(budget));
    if Feasible(s[k], budget) {
      FilterFirst(s, WithinBudget(budget), k);
      forall i | 0 <= i < |feasible| ensures !feasible[i].recall.Exceeds(feasible[0].recall) {
        FilterMember(s, WithinBudget(budget), feasible[i]);
        var j: nat :| j < SWEEP_SIZE && s[j] == feasible[i];
        SweepMonotone(records, nGt, nImages, k, j, budget);
      }
      MaxIsFirst(feasible);
    } else {
      FilterNone(s, WithinBudget(budget));
    }
  }

  /** The same in counts: the answer is the point at the lowest threshold of the sweep whose
      false positives per image stay within the budget, and 0.99 when none does or there are
      no images. */
  lemma AnswerInCounts(records: seq<PredRecord>, nGt: nat, nImages: nat, budget: real) returns (k: nat)
    ensures k < 99 && RecallAtFp(records, nGt, nImages, budget) == Point(records, nGt, nImages, SweepThreshold(k))
    ensures nImages == 0 ==> k == 98
    ensures nImages > 0 ==>
              && (forall j :: 0 <= j < k ==> FpAt(records, SweepThreshold(j)) as real / nImages as real > budget)
              && (k == 98 || FpAt(records, SweepThreshold(k)) as real / nImages as real <= budget)
  {
    k := LowestFeasible(records, nGt, nImages, budget);
    var s := Sweep(records, nGt, nImages);
    forall j: nat | j < SWEEP_SIZE
      ensures Feasible(s[j], budget) <==>
                nImages > 0 && FpAt(records, SweepThreshold(j)) as real / nImages as real <= budget
    {
      assert s[j] == Point(records, nGt, nImages, SweepThreshold(j));
    }
  }

  /** `max` over points whose recall is a number: the one returned is exceeded by none, and
      exceeds every point before it. */
  lemma {:induction false} MaxRecallIsFirstMaximum(points: seq<ClassPoint>) returns (k: nat)
    requires points != [] && forall i :: 0 <= i < |points| ==> points[i].recall.Val?
    ensures k < |points| && points[k] == MaxRecall(points)
    ensures forall i :: 0 <= i < |points| ==> points[i].recall.v <= points[k].recall.v
    ensures forall i :: 0 <= i < k ==> points[i].recall.v < points[k].recall.v
  {
    var n := |points| - 1;
    if n == 0 {
      k := 0;
    } else {
      k := MaxRecallIsFirstMaximum(points[..n]);
      if points[n].recall.v > points[k].recall.v {
        k := n;
      }
    }
  }

  /** No point of the sweep within budget has a higher recall than the one returned. */
  lemma BestWithinBudget(records: seq<PredRecord>, nGt: nat, nImages: nat, budget: real, j: nat)
    requires j < SWEEP_SIZE && Feasible(Sweep(records, nGt, nImages)[j], budget)
    ensures Feasible(RecallAtFp(records, nGt, nImages, budget), budget)
    ensures !Sweep(records, nGt, nImages)[j].recall.Exceeds(RecallAtFp(records, nGt, nImages, budget).recall)
  {
    var k := LowestFeasible(records, nGt, nImages, budget);
    SweepMonotone(records, nGt, nImages, k, j, budget);
  }

  /** Tightening the budget never raises the recall returned and never lowers the
      threshold, across the switch to the 0.99 fallback as well. */
  lemma TighterBudget(records: seq<PredRecord>, nGt: nat, nImages: nat, tight: real, loose: real)
    requires tight <= loose
    ensures var a, b := RecallAtFp(records, nGt, nImages, tight), RecallAtFp(records, nGt, nImages, loose);
            a.threshold >= b.threshold && !a.recall.Exceeds(b.recall)
  {
    var k := LowestFeasible(records, nGt, nImages, tight);
    var l := LowestFeasible(records, nGt, nImages, loose);
    assert l <= k;
    SweepMonotone(records, nGt, nImages, l, k, loose);
  }
}
