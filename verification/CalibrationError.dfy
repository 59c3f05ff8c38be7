/** Reliability table, expected and maximum calibration error
    (detector/eval/calibration.py, `reliability_table`, `expected_calibration_error`,
    `maximum_calibration_error`). */
module CalibrationError {
  import opened Common
  import opened Calibration

  // -------------------------------------------------------------------- sums

  lemma {:induction false} RealSumDisjoint<T>(s: seq<T>, f: T -> bool, g: T -> bool, either: T -> bool, v: T -> real)
    requires forall x :: x in s ==> either(x) == (f(x) || g(x)) && !(f(x) && g(x))
    ensures RealSum(Filter(s, either), v) == RealSum(Filter(s, f), v) + RealSum(Filter(s, g), v)
  {
    if s != [] {
      assert s[|s| - 1] in s;
      RealSumDisjoint(s[..|s| - 1], f, g, either, v);
      RealSumSnoc(Filter(s[..|s| - 1], either), s[|s| - 1], v);
      RealSumSnoc(Filter(s[..|s| - 1], f), s[|s| - 1], v);
      RealSumSnoc(Filter(s[..|s| - 1], g), s[|s| - 1], v);
    }
  }

  function ScoreOf(): Sample -> real { (x: Sample) => x.score }

  function HitOf(): Sample -> real { (x: Sample) => if x.isTp then 1.0 else 0.0 }

  function One(): Sample -> real { (x: Sample) => 1.0 }

  /** Signed error of a group of detections: scores claimed minus true positives found. */
  function Excess(s: seq<Sample>): real { RealSum(s, ScoreOf()) - RealSum(s, HitOf()) }

  // -------------------------------------------------------------------- table

  /** Half-open bins, the last one closed. */
  function InBin(edges: seq<real>, i: nat): Sample -> bool
    requires i + 1 < |edges|
  {
    (x: Sample) => x.score >= edges[i] && if i + 2 < |edges| then x.score < edges[i + 1] else x.score <= edges[i + 1]
  }

  function Bin(samples: seq<Sample>, edges: seq<real>, i: nat): seq<Sample>
    requires i + 1 < |edges|
  {
    Filter(samples, InBin(edges, i))
  }

  function Mean(s: seq<Sample>, v: Sample -> real): real
    requires s != []
  {
    RealSum(s, v) / |s| as real
  }

  function Row(samples: seq<Sample>, edges: seq<real>, i: nat): ReliabilityBin
    requires i + 1 < |edges|
  {
    var m := Bin(samples, edges, i);
    if m == [] then ReliabilityBin(edges[i], edges[i + 1], 0, NaN, NaN)
    else ReliabilityBin(edges[i], edges[i + 1], |m|, Val(Mean(m, ScoreOf())), Val(Mean(m, HitOf())))
  }

  function Table(samples: seq<Sample>, edges: seq<real>): seq<ReliabilityBin>
    requires edges != []
  {
    seq(|edges| - 1, i requires 0 <= i < |edges| - 1 => Row(samples, edges, i))
  }

  method ReliabilityTable(samples: seq<Sample>, nBins: nat, strategy: Strategy) returns (table: seq<ReliabilityBin>)
    ensures Edges(samples, nBins, strategy) != []
    ensures table == Table(samples, Edges(samples, nBins, strategy))
  {
    EdgesNonEmpty(samples, nBins, strategy);
    var edges := Edges(samples, nBins, strategy);
    var nReal := |edges| - 1;
    table := [];
    for i := 0 to nReal
      invariant table == Table(samples, edges)[..i]
    {
      var lo, hi := edges[i], edges[i + 1];
      var m := Bin(samples, edges, i);
      if |m| == 0 {
        table := table + [ReliabilityBin(lo, hi, 0, NaN, NaN)];
      } else {
        table := table + [ReliabilityBin(lo, hi, |m|, Val(Mean(m, ScoreOf())), Val(Mean(m, HitOf())))];
      }
      assert table[i] == Table(samples, edges)[i];
    }
  }

  lemma EdgesNonEmpty(samples: seq<Sample>, nBins: nat, strategy: Strategy)
    ensures Edges(samples, nBins, strategy) != []
  {
    ScoresAt(samples);
    if strategy.Quantile? && samples != [] {
      var forced := RawQuantiles(Scores(samples), nBins)[0 := 0.0][nBins := 1.0];
      AscendingIsSorted(forced);
      DedupStrict(Ascending(forced));
    }
  }

  // ------------------------------------------------------------------- errors

  function Abs(v: real): real { if v < 0.0 then -v else v }

  function Gap(b: ReliabilityBin): real
    requires b.meanScore.Val? && b.fracPositive.Val?
  {
    Abs(b.meanScore.v - b.fracPositive.v)
  }

  predicate WellFormed(table: seq<ReliabilityBin>) {
    forall i :: 0 <= i < |table| && table[i].count > 0 ==> table[i].meanScore.Val? && table[i].fracPositive.Val?
  }

  /** What one bin adds to the expected error over `n` detections. */
  function Share(b: ReliabilityBin, n: nat): real
    requires n > 0 && (b.count > 0 ==> b.meanScore.Val? && b.fracPositive.Val?)
  {
    if b.count > 0 then (b.count as real / n as real) * Gap(b) else 0.0
  }

  function WeightedGaps(table: seq<ReliabilityBin>, n: nat): real
    requires WellFormed(table) && n > 0
  {
    if table == [] then 0.0 else
    WeightedGaps(table[..|table| - 1], n) + Share(table[|table| - 1], n)
  }

  function WorstGap(table: seq<ReliabilityBin>): Num
    requires WellFormed(table)
  {
    if table == [] then NaN else
    var b, before := table[|table| - 1], WorstGap(table[..|table| - 1]);
    if b.count == 0 then before
    else if before.NaN? || Gap(b) > before.v then Val(Gap(b)) else before
  }

  function Ece(samples: seq<Sample>, edges: seq<real>): Num
    requires edges != []
  {
    if samples == [] then NaN else Val(WeightedGaps(Table(samples, edges), |samples|))
  }

  function Mce(samples: seq<Sample>, edges: seq<real>): Num
    requires edges != []
  {
    WorstGap(Table(samples, edges))
  }

  // ---------------------------------------------------------------- partition

  /** Below the `k`-th edge, or anywhere up to the last one. */
  function Below(edges: seq<real>, k: nat): Sample -> bool
    requires k < |edges|
  {
    (x: Sample) => x.score >= edges[0] && if k + 1 < |edges| then x.score < edges[k] else x.score <= edges[k]
  }

  function BinTotal(samples: seq<Sample>, edges: seq<real>, v: Sample -> real, k: nat): real
    requires k < |edges|
  {
    if k == 0 then 0.0 else BinTotal(samples, edges, v, k - 1) + RealSum(Bin(samples, edges, k - 1), v)
  }

  lemma {:induction false} BinsBelow(samples: seq<Sample>, edges: seq<real>, v: Sample -> real, k: nat)
    requires Cuts(edges) && k < |edges|
    ensures BinTotal(samples, edges, v, k) == RealSum(Filter(samples, Below(edges, k)), v)
  {
    if k == 0 {
      NothingBelow(samples, edges);
    } else {
      BinsBelow(samples, edges, v, k - 1);
      RealSumDisjoint(samples, Below(edges, k - 1), InBin(edges, k - 1), Below(edges, k), v);
    }
  }

  lemma {:induction false} NothingBelow(samples: seq<Sample>, edges: seq<real>)
    requires Cuts(edges)
    ensures Filter(samples, Below(edges, 0)) == []
  {
    if samples != [] {
      NothingBelow(samples[..|samples| - 1], edges);
    }
  }

  /** The bins are a partition: any quantity summed bin by bin is the sum over all detections. */
  lemma BinsPartition(samples: seq<Sample>, edges: seq<real>, v: Sample -> real)
    requires Cuts(edges) && UnitScores(samples)
    ensures BinTotal(samples, edges, v, |edges| - 1) == RealSum(samples, v)
  {
    BinsBelow(samples, edges, v, |edges| - 1);
    FilterAll(samples, Below(edges, |edges| - 1));
  }

  /** Every score in [0, 1] has exactly one bin, every other score has none. */
  lemma ExactlyOneBin(edges: seq<real>, x: Sample)
    requires Cuts(edges)
    ensures 0.0 <= x.score <= 1.0 <==> exists i :: 0 <= i < |edges| - 1 && InBin(edges, i)(x)
    ensures forall i, j :: 0 <= i < |edges| - 1 && 0 <= j < |edges| - 1 && InBin(edges, i)(x) && InBin(edges, j)(x) ==> i == j
  {
    if 0.0 <= x.score <= 1.0 {
      var i := 0;
      while i < |edges| - 2 && x.score >= edges[i + 1]
        invariant 0 <= i < |edges| - 1 && x.score >= edges[i]
      {
        i := i + 1;
      }
      assert InBin(edges, i)(x);
    }
  }

  // ----------------------------------------------------------------- sandwich

  lemma {:induction false} SumBounds(s: seq<Sample>)
    requires UnitScores(s)
    ensures 0.0 <= RealSum(s, ScoreOf()) <= |s| as real
    ensures 0.0 <= RealSum(s, HitOf()) <= |s| as real
    ensures RealSum(s, One()) == |s| as real
  {
    if s != [] {
      SumBounds(s[..|s| - 1]);
    }
  }

  lemma MeanDifference(a: real, b: real, c: real)
    requires c > 0.0
    ensures a / c - b / c == (a - b) / c
    ensures Abs(a / c - b / c) == Abs(a - b) / c
  {
    assert a / c - b / c == (a - b) / c;
    if a - b < 0.0 {
      assert (a - b) / c < 0.0 && -((a - b) / c) == (b - a) / c;
    } else {
      assert (a - b) / c >= 0.0;
    }
  }

  lemma WeightCancels(c: real, n: real, e: real)
    requires c > 0.0 && n > 0.0
    ensures (c / n) * (e / c) == e / n
    ensures c * (e / c) == e
  {
    assert (c / n) * (e / c) == (c * (e / c)) / n;
  }

  /** A filled bin contributes the size of its signed error, per detection overall. */
  lemma BinTerm(samples: seq<Sample>, edges: seq<real>, i: nat)
    requires i + 1 < |edges| && Bin(samples, edges, i) != []
    ensures var b, m := Row(samples, edges, i), Bin(samples, edges, i);
            && Gap(b) == Abs(Excess(m)) / |m| as real
            && |samples| > 0
            && Share(b, |samples|) == Abs(Excess(m)) / |samples| as real
            && b.count as real * Gap(b) == Abs(Excess(m))
  {
    var m := Bin(samples, edges, i);
    assert samples != [];
    MeanDifference(RealSum(m, ScoreOf()), RealSum(m, HitOf()), |m| as real);
    WeightCancels(|m| as real, |samples| as real, Abs(Excess(m)));
  }

  function AbsTotal(samples: seq<Sample>, edges: seq<real>, k: nat): real
    requires k < |edges|
  {
    if k == 0 then 0.0 else AbsTotal(samples, edges, k - 1) + Abs(Excess(Bin(samples, edges, k - 1)))
  }

  lemma WeightedStep(table: seq<ReliabilityBin>, i: nat, n: nat)
    requires WellFormed(table) && i < |table| && n > 0
    ensures WeightedGaps(table[..i + 1], n) ==
            WeightedGaps(table[..i], n) + Share(table[i], n)
  {
    assert table[..i + 1][..i] == table[..i];
  }

  lemma EceStep(samples: seq<Sample>, edges: seq<real>, i: nat)
    requires i + 1 < |edges| && samples != []
    ensures var t := Table(samples, edges);
            WeightedGaps(t[..i + 1], |samples|) ==
            WeightedGaps(t[..i], |samples|) + Abs(Excess(Bin(samples, edges, i))) / |samples| as real
  {
    var t := Table(samples, edges);
    WeightedStep(t, i, |samples|);
    assert t[i] == Row(samples, edges, i);
    RowShare(samples, edges, i);
  }

  lemma RowShare(samples: seq<Sample>, edges: seq<real>, i: nat)
    requires i + 1 < |edges| && samples != []
    ensures Share(Row(samples, edges, i), |samples|) == Abs(Excess(Bin(samples, edges, i))) / |samples| as real
  {
    if Bin(samples, edges, i) != [] {
      BinTerm(samples, edges, i);
    } else {
      assert Abs(Excess([])) == 0.0;
    }
  }

  lemma {:induction false} EceIsAbsTotal(samples: seq<Sample>, edges: seq<real>, k: nat)
    requires k < |edges| && samples != []
    ensures WeightedGaps(Table(samples, edges)[..k], |samples|) == AbsTotal(samples, edges, k) / |samples| as real
  {
    if k > 0 {
      EceIsAbsTotal(samples, edges, k - 1);
      EceStep(samples, edges, k - 1);
      AddQuotients(AbsTotal(samples, edges, k - 1), Abs(Excess(Bin(samples, edges, k - 1))), |samples| as real);
    }
  }

  lemma AddQuotients(a: real, b: real, n: real)
    requires n > 0.0
    ensures a / n + b / n == (a + b) / n
  {
  }

  lemma {:induction false} Triangle(samples: seq<Sample>, edges: seq<real>, k: nat)
    requires k < |edges|
    ensures Abs(BinTotal(samples, edges, ScoreOf(), k) - BinTotal(samples, edges, HitOf(), k)) <= AbsTotal(samples, edges, k)
  {
    if k > 0 {
      Triangle(samples, edges, k - 1);
    }
  }

  lemma {:induction false} WorstGapIsMaximum(table: seq<ReliabilityBin>, i: nat)
    requires WellFormed(table) && i < |table| && table[i].count > 0
    ensures WorstGap(table).Val? && Gap(table[i]) <= WorstGap(table).v
  {
    if i < |table| - 1 {
      WorstGapIsMaximum(table[..|table| - 1], i);
    }
  }

  lemma {:induction false} WorstGapIsAttained(table: seq<ReliabilityBin>) returns (i: nat)
    requires WellFormed(table) && WorstGap(table).Val?
    ensures i < |table| && table[i].count > 0 && WorstGap(table).v == Gap(table[i])
  {
    var n := |table| - 1;
    if table[n].count > 0 && WorstGap(table) == Val(Gap(table[n])) {
      i := n;
    } else {
      i := WorstGapIsAttained(table[..n]);
    }
  }

  lemma BinBelowWorst(samples: seq<Sample>, edges: seq<real>, i: nat, worst: real)
    requires i + 1 < |edges|
    requires Row(samples, edges, i).count > 0 ==> Gap(Row(samples, edges, i)) <= worst
    ensures Abs(Excess(Bin(samples, edges, i))) <= RealSum(Bin(samples, edges, i), One()) * worst
  {
    var m := Bin(samples, edges, i);
    CountIsSum(m);
    if m != [] {
      BinTerm(samples, edges, i);
      ScaleOrder(|m| as real, Gap(Row(samples, edges, i)), worst);
    }
  }

  lemma Distribute(a: real, b: real, w: real)
    ensures (a + b) * w == a * w + b * w
  {
  }

  ghost predicate GapsBelow(samples: seq<Sample>, edges: seq<real>, worst: real) {
    forall i :: 0 <= i < |edges| - 1 && Row(samples, edges, i).count > 0 ==> Gap(Row(samples, edges, i)) <= worst
  }

  lemma AbsStep(samples: seq<Sample>, edges: seq<real>, k: nat, worst: real)
    requires 0 < k < |edges| && GapsBelow(samples, edges, worst)
    ensures AbsTotal(samples, edges, k) - AbsTotal(samples, edges, k - 1) <=
            RealSum(Bin(samples, edges, k - 1), One()) * worst
  {
    BinBelowWorst(samples, edges, k - 1, worst);
  }

  lemma {:induction false} AbsBelowWorst(samples: seq<Sample>, edges: seq<real>, k: nat, worst: real)
    requires k < |edges| && GapsBelow(samples, edges, worst)
    ensures AbsTotal(samples, edges, k) <= BinTotal(samples, edges, One(), k) * worst
  {
    if k > 0 {
      AbsBelowWorst(samples, edges, k - 1, worst);
      AbsStep(samples, edges, k, worst);
      var a, b := BinTotal(samples, edges, One(), k - 1), RealSum(Bin(samples, edges, k - 1), One());
      Distribute(a, b, worst);
      assert BinTotal(samples, edges, One(), k) == a + b;
    }
  }

  lemma {:induction false} CountIsSum(s: seq<Sample>)
    ensures RealSum(s, One()) == |s| as real
  {
    if s != [] {
      CountIsSum(s[..|s| - 1]);
    }
  }

  lemma ScaleOrder(c: real, a: real, b: real)
    requires c >= 0.0 && a <= b
    ensures c * a <= c * b
  {
  }

  lemma QuotientBound(a: real, b: real, n: real)
    requires n > 0.0
    ensures a <= b ==> a / n <= b / n
    ensures a <= n * b ==> a / n <= b
    ensures 0.0 <= a <= n ==> 0.0 <= a / n <= 1.0
  {
  }

  lemma {:induction false} BinScoresInUnit(samples: seq<Sample>, keep: Sample -> bool)
    requires UnitScores(samples)
    ensures UnitScores(Filter(samples, keep))
  {
    var f := Filter(samples, keep);
    forall i | 0 <= i < |f| ensures 0.0 <= f[i].score <= 1.0 {
      FilterMember(samples, keep, f[i]);
    }
  }

  lemma GapAtMostOne(samples: seq<Sample>, edges: seq<real>, i: nat)
    requires UnitScores(samples) && i + 1 < |edges| && Bin(samples, edges, i) != []
    ensures Gap(Row(samples, edges, i)) <= 1.0
  {
    var m := Bin(samples, edges, i);
    BinScoresInUnit(samples, InBin(edges, i));
    SumBounds(m);
    QuotientBound(RealSum(m, ScoreOf()), 0.0, |m| as real);
    QuotientBound(RealSum(m, HitOf()), 0.0, |m| as real);
  }

  lemma SomeBinFilled(samples: seq<Sample>, edges: seq<real>) returns (i: nat)
    requires Cuts(edges) && UnitScores(samples) && samples != []
    ensures i + 1 < |edges| && Row(samples, edges, i).count > 0
  {
    ExactlyOneBin(edges, samples[0]);
    i :| 0 <= i < |edges| - 1 && InBin(edges, i)(samples[0]);
    FilterMember(samples, InBin(edges, i), samples[0]);
  }

  /** How far the scores of bin `i` are, in total, from its true positives. */
  function BinError(samples: seq<Sample>, edges: seq<real>, i: nat): real
    requires i + 1 < |edges|
  {
    var bin := Bin(samples, edges, i);
    Abs(RealSum(bin, (x: Sample) => x.score) - |Filter(bin, (x: Sample) => x.isTp)| as real)
  }

  function BinErrors(samples: seq<Sample>, edges: seq<real>, k: nat): real
    requires k < |edges|
  {
    if k == 0 then 0.0 else BinErrors(samples, edges, k - 1) + BinError(samples, edges, k - 1)
  }

  lemma {:induction false} SumsAgree(s: seq<Sample>, v: Sample -> real, hit: Sample -> bool)
    requires forall x :: v(x) == x.score && hit(x) == x.isTp
    ensures RealSum(s, ScoreOf()) == RealSum(s, v) && RealSum(s, HitOf()) == |Filter(s, hit)| as real
  {
    if s != [] {
      SumsAgree(s[..|s| - 1], v, hit);
    }
  }

  lemma {:induction false} ErrorsAgree(samples: seq<Sample>, edges: seq<real>, k: nat)
    requires k < |edges|
    ensures BinErrors(samples, edges, k) == AbsTotal(samples, edges, k)
  {
    if k > 0 {
      ErrorsAgree(samples, edges, k - 1);
      SumsAgree(Bin(samples, edges, k - 1), (x: Sample) => x.score, (x: Sample) => x.isTp);
    }
  }

  /** ECE counts every bin by itself: it is the sum, over the bins, of how far the scores of
      the bin are from its true positives, per detection. */
  lemma EceIsBinErrors(samples: seq<Sample>, edges: seq<real>)
    requires edges != [] && samples != []
    ensures Ece(samples, edges) == Val(BinErrors(samples, edges, |edges| - 1) / |samples| as real)
  {
    var t := Table(samples, edges);
    EceIsAbsTotal(samples, edges, |edges| - 1);
    ErrorsAgree(samples, edges, |edges| - 1);
    assert t[..|edges| - 1] == t;
  }

  lemma {:induction false} NoErrors(samples: seq<Sample>, edges: seq<real>, k: nat)
    requires k < |edges|
    ensures BinErrors(samples, edges, k) >= 0.0
    ensures BinErrors(samples, edges, k) == 0.0 <==> forall i :: 0 <= i < k ==> BinError(samples, edges, i) == 0.0
  {
    if k > 0 {
      NoErrors(samples, edges, k - 1);
    }
  }

  /** So ECE is 0 exactly when in every bin the scores add up to the true positives: errors
      in different bins never cancel. */
  lemma EceIsZeroExactlyWhen(samples: seq<Sample>, edges: seq<real>)
    requires edges != [] && samples != []
    ensures Ece(samples, edges) == Val(0.0) <==> forall i :: 0 <= i < |edges| - 1 ==> BinError(samples, edges, i) == 0.0
  {
    EceIsBinErrors(samples, edges);
    NoErrors(samples, edges, |edges| - 1);
    ZeroQuotient(BinErrors(samples, edges, |edges| - 1), |samples| as real);
  }

  lemma ZeroQuotient(a: real, n: real)
    requires n > 0.0
    ensures a / n == 0.0 <==> a == 0.0
  {
  }

  lemma GapIsBinError(samples: seq<Sample>, edges: seq<real>, i: nat)
    requires i + 1 < |edges| && Bin(samples, edges, i) != []
    ensures Row(samples, edges, i).count > 0
    ensures Gap(Row(samples, edges, i)) == BinError(samples, edges, i) / |Bin(samples, edges, i)| as real
  {
    BinTerm(samples, edges, i);
    SumsAgree(Bin(samples, edges, i), (x: Sample) => x.score, (x: Sample) => x.isTp);
  }

  /** MCE is the largest error per detection of a bin: no filled bin exceeds it, one reaches
      it, and it is NaN exactly when no bin is filled. */
  lemma MceIsWorstBin(samples: seq<Sample>, edges: seq<real>)
    requires edges != []
    ensures Mce(samples, edges).NaN? <==> forall i :: 0 <= i < |edges| - 1 ==> Bin(samples, edges, i) == []
    ensures Mce(samples, edges).Val? ==>
              && (forall i :: 0 <= i < |edges| - 1 && Bin(samples, edges, i) != [] ==>
                    BinError(samples, edges, i) / |Bin(samples, edges, i)| as real <= Mce(samples, edges).v)
              && (exists i :: 0 <= i < |edges| - 1 && Bin(samples, edges, i) != [] &&
                    BinError(samples, edges, i) / |Bin(samples, edges, i)| as real == Mce(samples, edges).v)
  {
    var t := Table(samples, edges);
    forall i | 0 <= i < |edges| - 1 && Bin(samples, edges, i) != []
      ensures Mce(samples, edges).Val?
      ensures BinError(samples, edges, i) / |Bin(samples, edges, i)| as real <= Mce(samples, edges).v
    {
      GapIsBinError(samples, edges, i);
      WorstGapIsMaximum(t, i);
    }
    if Mce(samples, edges).Val? {
      var i := WorstGapIsAttained(t);
      assert Bin(samples, edges, i) != [];
      GapIsBinError(samples, edges, i);
    }
  }

  /** ECE averages what MCE takes the worst of, and neither hides the overall bias: for
      edges that cut [0, 1],
      |mean score - fraction of true positives| <= ECE <= MCE <= 1. */
  lemma Sandwich(samples: seq<Sample>, edges: seq<real>)
    requires Cuts(edges) && UnitScores(samples) && samples != []
    ensures Ece(samples, edges).Val? && Mce(samples, edges).Val?
    ensures Abs(Mean(samples, ScoreOf()) - Mean(samples, HitOf())) <= Ece(samples, edges).v
    ensures Ece(samples, edges).v <= Mce(samples, edges).v <= 1.0
  {
    var n, k := |samples| as real, |edges| - 1;
    var table := Table(samples, edges);
    assert table[..k] == table;
    EceIsAbsTotal(samples, edges, k);
    BiasBelow(samples, edges);
    var filled := SomeBinFilled(samples, edges);
    WorstGapIsMaximum(table, filled);
    var w := WorstGapIsAttained(table);
    GapAtMostOne(samples, edges, w);
    EceBelowWorst(samples, edges, Mce(samples, edges).v);
  }

  lemma BiasBelow(samples: seq<Sample>, edges: seq<real>)
    requires Cuts(edges) && UnitScores(samples) && samples != []
    ensures Abs(Mean(samples, ScoreOf()) - Mean(samples, HitOf())) <= AbsTotal(samples, edges, |edges| - 1) / |samples| as real
  {
    ExcessBelow(samples, edges);
    MeanDifference(RealSum(samples, ScoreOf()), RealSum(samples, HitOf()), |samples| as real);
    QuotientBound(Abs(Excess(samples)), AbsTotal(samples, edges, |edges| - 1), |samples| as real);
  }

  lemma ExcessBelow(samples: seq<Sample>, edges: seq<real>)
    requires Cuts(edges) && UnitScores(samples)
    ensures Abs(Excess(samples)) <= AbsTotal(samples, edges, |edges| - 1)
  {
    BinsPartition(samples, edges, ScoreOf());
    BinsPartition(samples, edges, HitOf());
    Triangle(samples, edges, |edges| - 1);
  }

  lemma {:induction false} EceBelowWorst(samples: seq<Sample>, edges: seq<real>, worst: real)
    requires Cuts(edges) && UnitScores(samples) && samples != []
    requires Mce(samples, edges) == Val(worst)
    ensures AbsTotal(samples, edges, |edges| - 1) / |samples| as real <= worst
  {
    var table := Table(samples, edges);
    forall i | 0 <= i < |edges| - 1 && Row(samples, edges, i).count > 0
      ensures Gap(Row(samples, edges, i)) <= worst
    {
      assert table[i] == Row(samples, edges, i);
      WorstGapIsMaximum(table, i);
    }
    AbsBelowWorst(samples, edges, |edges| - 1, worst);
    BinsPartition(samples, edges, One());
    CountIsSum(samples);
    QuotientBound(AbsTotal(samples, edges, |edges| - 1), worst, |samples| as real);
  }

  /** So it is for both binning strategies, any positive number of bins and any detections
      with scores in [0, 1]; without detections both errors are NaN. */
  lemma CalibrationSandwich(samples: seq<Sample>, nBins: nat, strategy: Strategy)
    requires nBins > 0 && UnitScores(samples)
    ensures var edges := Edges(samples, nBins, strategy);
            && edges != []
            && (samples == [] ==> Ece(samples, edges) == Mce(samples, edges) == NaN)
            && (samples != [] ==>
                  && Ece(samples, edges).Val? && Mce(samples, edges).Val?
                  && Abs(Mean(samples, ScoreOf()) - Mean(samples, HitOf())) <= Ece(samples, edges).v
                  && Ece(samples, edges).v <= Mce(samples, edges).v <= 1.0)
  {
    EdgesCut(samples, nBins, strategy);
    var edges := Edges(samples, nBins, strategy);
    if samples == [] {
      if Mce(samples, edges).Val? {
        var i := WorstGapIsAttained(Table(samples, edges));
        assert false;
      }
    } else {
      Sandwich(samples, edges);
    }
  }
}
