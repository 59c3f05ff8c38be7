/** Area under the precision/recall curve (detector/eval/recall_eval.py, `average_precision`). */
module AveragePrecision {
  import opened Common
  import opened Matching
  import opened EvalRecords

  function RecordScore(): PredRecord -> real { (r: PredRecord) => r.score }

  /** The order in which the curve is drawn. */
  function Ranked(records: seq<PredRecord>): seq<PredRecord> { SortDesc(records, RecordScore()) }

  /** True positives among the first `i` ranks. */
  function TpUpTo(r: seq<PredRecord>, i: nat): (n: nat)
    requires i <= |r|
    ensures n <= i
  {
    if i == 0 then 0 else TpUpTo(r, i - 1) + if r[i - 1].isTp then 1 else 0
  }

  /** Precision of the first `i` ranks; the curve starts at precision 1. */
  function PrecisionAt(r: seq<PredRecord>, i: nat): real
    requires i <= |r|
  {
    if i == 0 then 1.0 else TpUpTo(r, i) as real / i as real
  }

  function Larger(a: real, b: real): real { if a >= b then a else b }

  function Precisions(r: seq<PredRecord>): (p: seq<real>)
    ensures |p| == |r| + 1
  {
    seq(|r| + 1, k requires 0 <= k <= |r| => PrecisionAt(r, k))
  }

  /** The largest entry at position `i` or later. */
  function SuffixMax(p: seq<real>, i: nat): real
    requires i < |p|
    decreases |p| - i
  {
    if i == |p| - 1 then p[i] else Larger(p[i], SuffixMax(p, i + 1))
  }

  /** The best precision at rank `i` or any later one. */
  function BestFrom(r: seq<PredRecord>, i: nat): real
    requires i <= |r|
  {
    SuffixMax(Precisions(r), i)
  }

  /** Over the true positives at position `i` or later, the sum of the best precision
      at their rank or beyond. */
  function BestSum(r: seq<PredRecord>, i: nat): real
    requires i <= |r|
    decreases |r| - i
  {
    if i == |r| then 0.0 else (if r[i].isTp then BestFrom(r, i + 1) else 0.0) + BestSum(r, i + 1)
  }

  lemma {:induction false} SuffixMaxIsMaximum(p: seq<real>, i: nat) returns (k: nat)
    requires i < |p|
    ensures i <= k < |p| && SuffixMax(p, i) == p[k]
    ensures forall l :: i <= l < |p| ==> p[l] <= SuffixMax(p, i)
    decreases |p| - i
  {
    k := i;
    if i < |p| - 1 {
      var later := SuffixMaxIsMaximum(p, i + 1);
      if p[i] < SuffixMax(p, i + 1) {
        k := later;
      }
    }
  }

  lemma BestFromIsMaximum(r: seq<PredRecord>, i: nat) returns (k: nat)
    requires i <= |r|
    ensures i <= k <= |r| && BestFrom(r, i) == PrecisionAt(r, k)
    ensures forall l :: i <= l <= |r| ==> PrecisionAt(r, l) <= BestFrom(r, i)
  {
    k := SuffixMaxIsMaximum(Precisions(r), i);
    forall l | i <= l <= |r| ensures PrecisionAt(r, l) <= BestFrom(r, i) {
      assert Precisions(r)[l] == PrecisionAt(r, l);
    }
  }

  // ------------------------------------------------------- the program, and what it is

  /** The envelope pass: walking backwards, every entry becomes the best one at or after it. */
  method Envelope(precisions: array<real>)
    requires precisions.Length > 0
    modifies precisions
    ensures forall i :: 0 <= i < precisions.Length ==> precisions[i] == SuffixMax(old(precisions[..]), i)
  {
    ghost var p := precisions[..];
    for i := precisions.Length - 1 downto 0
      invariant forall k :: i <= k < precisions.Length ==> precisions[k] == SuffixMax(p, k)
      invariant forall k :: 0 <= k < i ==> precisions[k] == p[k]
    {
      precisions[i] := Larger(precisions[i], precisions[i + 1]);
    }
  }

  lemma SumOfQuotients(a: real, b: real, n: real)
    requires n > 0.0
    ensures a / n + b / n == (a + b) / n
  {
  }

  function RecallAt(r: seq<PredRecord>, i: nat, nGt: nat): real
    requires i <= |r| && nGt > 0
  {
    TpUpTo(r, i) as real / nGt as real
  }

  /** The area still to come when the curve stands at rank `i`. */
  function Remaining(r: seq<PredRecord>, i: nat, nGt: nat): real
    requires i <= |r| && nGt > 0
  {
    BestSum(r, i) / nGt as real
  }

  /** `1 / nGt` times the sum, over the true positives of the ranking, of the best
      precision at their rank or later. */
  function Ap(records: seq<PredRecord>, nGt: nat): real
    requires nGt > 0
  {
    Remaining(Ranked(records), 0, nGt)
  }

  function Strip(low: real, high: real, height: real): real { (high - low) * height }

  /** Recall moves exactly at the true positives, and there the area grows by one term. */
  lemma RecallStep(r: seq<PredRecord>, i: nat, nGt: nat)
    requires i < |r| && nGt > 0
    ensures RecallAt(r, i + 1, nGt) != RecallAt(r, i, nGt) <==> r[i].isTp
    ensures Remaining(r, i, nGt) == Remaining(r, i + 1, nGt) +
            if r[i].isTp then Strip(RecallAt(r, i, nGt), RecallAt(r, i + 1, nGt), BestFrom(r, i + 1)) else 0.0
  {
    var n := nGt as real;
    if r[i].isTp {
      SumOfQuotients(TpUpTo(r, i) as real, 1.0, n);
      assert TpUpTo(r, i + 1) as real == TpUpTo(r, i) as real + 1.0;
      StepArea(BestFrom(r, i + 1), n);
      SumOfQuotients(BestFrom(r, i + 1), BestSum(r, i + 1), n);
    }
  }

  lemma StepArea(p: real, n: real)
    requires n > 0.0
    ensures 1.0 / n > 0.0
    ensures (1.0 / n) * p == p / n
  {
  }

  /** The curve: one pass over the ranking. */
  method Curve(preds: seq<PredRecord>, nGt: nat, recalls: array<real>, precisions: array<real>)
    requires nGt > 0 && recalls != precisions
    requires recalls.Length == precisions.Length == |preds| + 1
    requires recalls[0] == 0.0 && precisions[0] == 1.0
    modifies recalls, precisions
    ensures forall k :: 0 <= k <= |preds| ==> recalls[k] == RecallAt(preds, k, nGt)
    ensures forall k :: 0 <= k <= |preds| ==> precisions[k] == PrecisionAt(preds, k)
  {
    var tpCum, fpCum := 0, 0;
    for i := 0 to |preds|
      invariant tpCum == TpUpTo(preds, i) && tpCum + fpCum == i
      invariant forall k :: 0 <= k <= i ==> recalls[k] == RecallAt(preds, k, nGt)
      invariant forall k :: 0 <= k <= i ==> precisions[k] == PrecisionAt(preds, k)
    {
      tpCum := tpCum + if preds[i].isTp then 1 else 0;
      fpCum := fpCum + if preds[i].isTp then 0 else 1;
      recalls[i + 1] := tpCum as real / nGt as real;
      precisions[i + 1] := tpCum as real / (tpCum + fpCum) as real;
    }
  }

  /** The integral over the recall steps. */
  method Integrate(ghost r: seq<PredRecord>, nGt: nat, recalls: array<real>, precisions: array<real>) returns (area: real)
    requires nGt > 0 && recalls.Length == precisions.Length == |r| + 1
    requires forall k :: 0 <= k <= |r| ==> recalls[k] == RecallAt(r, k, nGt)
    requires forall k :: 0 <= k <= |r| ==> precisions[k] == BestFrom(r, k)
    ensures area == Remaining(r, 0, nGt)
  {
    area := 0.0;
    for i := 0 to recalls.Length - 1
      invariant area + Remaining(r, i, nGt) == Remaining(r, 0, nGt)
    {
      RecallStep(r, i, nGt);
      if recalls[i + 1] != recalls[i] {
        area := area + Strip(recalls[i], recalls[i + 1], precisions[i + 1]);
      }
    }
  }

  /** Curve, envelope, integral. */
  method ComputeAp(records: seq<PredRecord>, nGt: nat) returns (ap: Num)
    ensures nGt == 0 ==> ap == NaN
    ensures nGt > 0 ==> ap == Val(Ap(records, nGt))
  {
    var preds := Ranked(records);
    if nGt == 0 {
      return NaN;
    }
    var recalls := new real[|preds| + 1](_ => 0.0);
    var precisions := new real[|preds| + 1](_ => 1.0);
    Curve(preds, nGt, recalls, precisions);
    assert precisions[..] == Precisions(preds);
    Envelope(precisions);
    var area := Integrate(preds, nGt, recalls, precisions);
    ap := Val(area);
  }

  /** The share of true positives among the first `k` records. */
  function Share(r: seq<PredRecord>, k: nat): real
    requires 0 < k <= |r|
  {
    |Filter(r[..k], (x: PredRecord) => x.isTp)| as real / k as real
  }

  /** `v` is the largest share at rank `i` or a later one. */
  ghost predicate BestShare(r: seq<PredRecord>, i: nat, v: real)
    requires 0 < i <= |r|
  {
    && (forall k :: i <= k <= |r| ==> Share(r, k) <= v)
    && exists k :: i <= k <= |r| && Share(r, k) == v
  }

  lemma ShareIsPrecision(r: seq<PredRecord>, k: nat)
    requires 0 < k <= |r|
    ensures Share(r, k) == PrecisionAt(r, k)
  {
    TpUpToPrefix(r, k, k);
    TpUpToEnd(r[..k]);
    SameFilter(r[..k], IsTp(), (x: PredRecord) => x.isTp);
  }

  lemma BestShareIsBest(r: seq<PredRecord>, i: nat, v: real)
    requires 0 < i <= |r| && BestShare(r, i, v)
    ensures BestFrom(r, i) == v
  {
    var k := BestFromIsMaximum(r, i);
    ShareIsPrecision(r, k);
    var l :| i <= l <= |r| && Share(r, l) == v;
    ShareIsPrecision(r, l);
  }

  function Terms(r: seq<PredRecord>, best: seq<real>): seq<real>
    requires |best| == |r|
  {
    seq(|r|, i requires 0 <= i < |r| => if r[i].isTp then best[i] else 0.0)
  }

  lemma {:induction false} TermsSum(r: seq<PredRecord>, best: seq<real>, i: nat)
    requires i <= |r| == |best|
    requires forall j :: 0 <= j < |r| && r[j].isTp ==> BestShare(r, j + 1, best[j])
    ensures BestSum(r, 0) == Total(Terms(r, best)[..i]) + BestSum(r, i)
  {
    if i > 0 {
      TermsSum(r, best, i - 1);
      var terms := Terms(r, best);
      assert terms[..i] == terms[..i - 1] + [terms[i - 1]];
      TotalSnoc(terms[..i - 1], terms[i - 1]);
      if r[i - 1].isTp {
        BestShareIsBest(r, i, best[i - 1]);
      }
    }
  }

  /** Average precision from the ranking alone: over its true positives, the largest share of
      true positives among the first k records, k their rank or a later one, summed and divided
      by the number of ground truths. */
  lemma ApIsMeanOfBestShares(records: seq<PredRecord>, nGt: nat, best: seq<real>)
    requires nGt > 0
    requires var r := SortDesc(records, RecordScore());
             |best| == |r| && forall i :: 0 <= i < |r| && r[i].isTp ==> BestShare(r, i + 1, best[i])
    ensures Ap(records, nGt) == Total(Terms(SortDesc(records, RecordScore()), best)) / nGt as real
  {
    var r := Ranked(records);
    TermsSum(r, best, |r|);
    assert Terms(r, best)[..|r|] == Terms(r, best);
  }

  // ------------------------------------------------------------------ properties

  lemma PrecisionIsFraction(r: seq<PredRecord>, i: nat)
    requires i <= |r|
    ensures 0.0 <= PrecisionAt(r, i) <= 1.0
    ensures PrecisionAt(r, i) == 1.0 <==> TpUpTo(r, i) == i
  {
    if i > 0 {
      FractionOf(TpUpTo(r, i), i);
    }
  }

  lemma FractionOf(a: nat, n: nat)
    requires a <= n && n > 0
    ensures 0.0 <= a as real / n as real <= 1.0
    ensures a as real / n as real == 1.0 <==> a == n
  {
  }

  lemma BestIsFraction(r: seq<PredRecord>, i: nat)
    requires i <= |r|
    ensures 0.0 <= BestFrom(r, i) <= 1.0
  {
    var k := BestFromIsMaximum(r, i);
    PrecisionIsFraction(r, k);
  }

  /** Positions from `i` on hold only true positives whose best precision is 1. */
  ghost predicate Flawless(r: seq<PredRecord>, i: nat)
    requires i <= |r|
  {
    forall j :: i <= j < |r| && r[j].isTp ==> BestFrom(r, j + 1) == 1.0
  }

  lemma {:induction false} SumBelowCount(r: seq<PredRecord>, i: nat)
    requires i <= |r|
    ensures 0.0 <= BestSum(r, i) <= (TpUpTo(r, |r|) - TpUpTo(r, i)) as real
    ensures BestSum(r, i) == (TpUpTo(r, |r|) - TpUpTo(r, i)) as real <==> Flawless(r, i)
    decreases |r| - i
  {
    if i < |r| {
      SumBelowCount(r, i + 1);
      BestIsFraction(r, i + 1);
    }
  }

  /** No false positive is ranked above a true positive. */
  ghost predicate NoFalseAlarmBefore(r: seq<PredRecord>) {
    forall i, j :: 0 <= i < j < |r| && r[j].isTp ==> r[i].isTp
  }

  lemma {:induction false} AllTpPrefix(r: seq<PredRecord>, k: nat)
    requires k <= |r|
    ensures TpUpTo(r, k) == k <==> forall i :: 0 <= i < k ==> r[i].isTp
  {
    if k > 0 {
      AllTpPrefix(r, k - 1);
    }
  }

  lemma FlawlessIsNoFalseAlarm(r: seq<PredRecord>)
    ensures Flawless(r, 0) <==> NoFalseAlarmBefore(r)
  {
    forall j | 0 <= j < |r| && r[j].isTp
      ensures BestFrom(r, j + 1) == 1.0 <==> forall i :: 0 <= i <= j ==> r[i].isTp
    {
      var k := BestFromIsMaximum(r, j + 1);
      PrecisionIsFraction(r, k);
      AllTpPrefix(r, k);
      PrecisionIsFraction(r, j + 1);
      AllTpPrefix(r, j + 1);
      BestIsFraction(r, j + 1);
    }
  }

  lemma QuotientOrder(a: real, b: real, n: real)
    requires 0.0 <= a <= b && n > 0.0
    ensures 0.0 <= a / n <= b / n
    ensures a / n == 1.0 <==> a == n
  {
  }

  /** Average precision lies between 0 and the recall reached at the end of the ranking. */
  lemma ApBelowFinalRecall(records: seq<PredRecord>, nGt: nat)
    requires nGt > 0
    ensures 0.0 <= Ap(records, nGt) <= TpUpTo(Ranked(records), |Ranked(records)|) as real / nGt as real
  {
    var r := Ranked(records);
    SumBelowCount(r, 0);
    QuotientOrder(BestSum(r, 0), TpUpTo(r, |r|) as real, nGt as real);
  }

  /** For records of an evaluation (never more true positives than ground truths) the
      score is 1 exactly when every ground truth is matched and no false positive is
      ranked above a true positive. */
  lemma PerfectAp(records: seq<PredRecord>, nGt: nat)
    requires nGt > 0
    requires TpUpTo(Ranked(records), |Ranked(records)|) <= nGt
    ensures Ap(records, nGt) == 1.0 <==>
            TpUpTo(Ranked(records), |Ranked(records)|) == nGt && NoFalseAlarmBefore(Ranked(records))
  {
    var r := Ranked(records);
    SumBelowCount(r, 0);
    QuotientOrder(BestSum(r, 0), TpUpTo(r, |r|) as real, nGt as real);
    FlawlessIsNoFalseAlarm(r);
  }

  lemma {:induction false} TpUpToPrefix(r: seq<PredRecord>, n: nat, i: nat)
    requires i <= n <= |r|
    ensures TpUpTo(r[..n], i) == TpUpTo(r, i)
  {
    if i > 0 {
      TpUpToPrefix(r, n, i - 1);
    }
  }

  lemma {:induction false} TpUpToEnd(r: seq<PredRecord>)
    ensures TpUpTo(r, |r|) == CountTp(r)
  {
    if r != [] {
      var n := |r| - 1;
      TpUpToEnd(r[..n]);
      TpUpToPrefix(r, n, n);
    }
  }

  lemma RankedTp(records: seq<PredRecord>)
    ensures TpUpTo(Ranked(records), |Ranked(records)|) == CountTp(records)
  {
    TpUpToEnd(Ranked(records));
    SortDescIsSort(records, RecordScore());
    FilterPermute(Ranked(records), records, IsTp());
  }

  /** For any evaluation: the score is at most its total recall, and it is 1 exactly when
      every ground truth is matched and no false positive outranks a true positive. */
  lemma PerfectEvaluation(images: seq<Image>, c: string, m: Metric)
    requires GtCount(images, c) > 0
    ensures var records, nGt := PredTable(images, c, m), GtCount(images, c);
            && 0.0 <= Ap(records, nGt) <= CountTp(records) as real / nGt as real <= 1.0
            && (Ap(records, nGt) == 1.0 <==> CountTp(records) == nGt && NoFalseAlarmBefore(Ranked(records)))
  {
    var records, nGt := PredTable(images, c, m), GtCount(images, c);
    TpWithinGt(images, c, m);
    RankedTp(records);
    ApBelowFinalRecall(records, nGt);
    PerfectAp(records, nGt);
    FractionOf(CountTp(records), nGt);
  }
}
