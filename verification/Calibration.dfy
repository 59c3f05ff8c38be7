/** Reliability bins and calibration errors (detector/eval/calibration.py, `_equal_mass_edges`,
    `reliability_table`, `expected_calibration_error`, `maximum_calibration_error`), in exact reals. */
module Calibration {
  import opened Common

  /** A matched detection: its score and whether it was a true positive. */
  datatype Sample = Sample(score: real, isTp: bool)

  datatype ReliabilityBin = ReliabilityBin(lo: real, hi: real, count: nat, meanScore: Num, fracPositive: Num)

  datatype Strategy = Uniform | Quantile

  // -------------------------------------------------------------------- edges

  function UniformEdges(nBins: nat): seq<real> {
    if nBins == 0 then [0.0] else seq(nBins + 1, i => i as real / nBins as real)
  }

  function Negate(): real -> real { (v: real) => -v }

  function Ascending(s: seq<real>): seq<real> { SortDesc(s, Negate()) }

  /** Linear interpolation between the two entries around a position. */
  function Interpolate(sorted: seq<real>, position: real): real
    requires 0.0 <= position <= (|sorted| - 1) as real
  {
    var k := position.Floor;
    if k == |sorted| - 1 then sorted[k] else
    sorted[k] + (position - k as real) * (sorted[k + 1] - sorted[k])
  }

  /** Where the quantile of `n` sorted entries lies. */
  function PositionOf(q: real, n: nat): real { q * (n - 1) as real }

  /** `numpy.quantile`: interpolate at position `q * (n - 1)`. */
  function QuantileOf(sorted: seq<real>, q: real): real
    requires sorted != [] && 0.0 <= q <= 1.0
  {
    QuantilePosition(sorted, q);
    Interpolate(sorted, PositionOf(q, |sorted|))
  }

  lemma QuantilePosition(sorted: seq<real>, q: real)
    requires sorted != [] && 0.0 <= q <= 1.0
    ensures 0.0 <= PositionOf(q, |sorted|) <= (|sorted| - 1) as real
  {
    var n := (|sorted| - 1) as real;
    assert n >= 0.0;
    assert q * n <= 1.0 * n;
  }

  /** Keep the first of each run of equal values. */
  function Dedup(s: seq<real>): seq<real> {
    if |s| < 2 then s
    else Dedup(s[..|s| - 1]) + if s[|s| - 1] == s[|s| - 2] then [] else [s[|s| - 1]]
  }

  /** `numpy.unique`. */
  function Unique(s: seq<real>): seq<real> { Dedup(Ascending(s)) }

  function RawQuantiles(scores: seq<real>, nBins: nat): (r: seq<real>)
    requires scores != []
    ensures |r| == nBins + 1
  {
    SortDescIsSort(scores, Negate());
    seq(nBins + 1, i requires 0 <= i <= nBins =>
      Fraction(i, nBins);
      QuantileOf(Ascending(scores), if nBins == 0 then 0.0 else i as real / nBins as real))
  }

  lemma Fraction(i: nat, n: nat)
    requires i <= n
    ensures n > 0 ==> 0.0 <= i as real / n as real <= 1.0
  {
  }

  /** Quantile edges with the two ends forced to 0 and 1 and duplicates collapsed. */
  function EqualMassEdges(scores: seq<real>, nBins: nat): seq<real> {
    if scores == [] then UniformEdges(nBins)
    else Unique(RawQuantiles(scores, nBins)[0 := 0.0][nBins := 1.0])
  }

  function Scores(samples: seq<Sample>): seq<real> { Map(samples, (x: Sample) => x.score) }

  function Edges(samples: seq<Sample>, nBins: nat, strategy: Strategy): seq<real> {
    match strategy
    case Uniform => UniformEdges(nBins)
    case Quantile => EqualMassEdges(Scores(samples), nBins)
  }

  /** Edges that cut [0, 1] into intervals. */
  ghost predicate Cuts(edges: seq<real>) {
    && |edges| >= 2
    && edges[0] == 0.0 && edges[|edges| - 1] == 1.0
    && forall i, j :: 0 <= i < j < |edges| ==> edges[i] < edges[j]
  }

  ghost predicate InUnit(s: seq<real>) { forall i :: 0 <= i < |s| ==> 0.0 <= s[i] <= 1.0 }

  lemma FractionOrder(i: nat, j: nat, n: nat)
    requires i < j && n > 0
    ensures i as real / n as real < j as real / n as real
  {
  }

  lemma UniformCuts(nBins: nat)
    requires nBins > 0
    ensures Cuts(UniformEdges(nBins))
  {
    var edges := UniformEdges(nBins);
    forall i, j | 0 <= i < j < |edges| ensures edges[i] < edges[j] {
      FractionOrder(i, j, nBins);
    }
    assert edges[nBins] == nBins as real / nBins as real == 1.0;
  }

  lemma Interpolated(a: real, b: real, f: real)
    requires 0.0 <= a <= b <= 1.0 && 0.0 <= f <= 1.0
    ensures 0.0 <= a + f * (b - a) <= 1.0
  {
    assert 0.0 <= f * (b - a) <= 1.0 * (b - a);
  }

  ghost predicate Ordered(s: seq<real>) { forall i, j :: 0 <= i < j < |s| ==> s[i] <= s[j] }

  lemma AscendingIsSorted(s: seq<real>)
    ensures Ordered(Ascending(s)) && |Ascending(s)| == |s|
    ensures forall v :: v in Ascending(s) <==> v in s
  {
    SortDescIsSort(s, Negate());
    var r := Ascending(s);
    forall i, j | 0 <= i < j < |r| ensures r[i] <= r[j] {
      assert Negate()(r[i]) >= Negate()(r[j]);
    }
    forall v ensures v in r <==> v in s {
      assert v in multiset(r) <==> v in multiset(s);
    }
  }

  lemma InterpolateInUnit(s: seq<real>, position: real)
    requires InUnit(s) && Ordered(s) && 0.0 <= position <= (|s| - 1) as real
    ensures 0.0 <= Interpolate(s, position) <= 1.0
  {
    var k := position.Floor;
    if k < |s| - 1 {
      Interpolated(s[k], s[k + 1], position - k as real);
    }
  }

  lemma QuantileInUnit(s: seq<real>, q: real)
    requires s != [] && InUnit(s) && Ordered(s) && 0.0 <= q <= 1.0
    ensures 0.0 <= QuantileOf(s, q) <= 1.0
  {
    QuantilePosition(s, q);
    InterpolateInUnit(s, PositionOf(q, |s|));
  }

  lemma RawInUnit(scores: seq<real>, nBins: nat)
    requires scores != [] && InUnit(scores)
    ensures InUnit(RawQuantiles(scores, nBins))
  {
    AscendingIsSorted(scores);
    var sorted := Ascending(scores);
    forall i | 0 <= i < |sorted| ensures 0.0 <= sorted[i] <= 1.0 {
      assert sorted[i] in scores;
    }
    forall i: nat | i <= nBins ensures 0.0 <= RawQuantiles(scores, nBins)[i] <= 1.0 {
      Fraction(i, nBins);
      QuantileInUnit(sorted, if nBins == 0 then 0.0 else i as real / nBins as real);
    }
  }

  lemma {:induction false} DedupStrict(s: seq<real>)
    requires Ordered(s) && s != []
    ensures var d := Dedup(s);
            && d != [] && d[0] == s[0] && d[|d| - 1] == s[|s| - 1]
            && (forall i, j :: 0 <= i < j < |d| ==> d[i] < d[j])
  {
    if |s| >= 2 {
      DedupStrict(s[..|s| - 1]);
    }
  }

  lemma UniqueCuts(s: seq<real>)
    requires InUnit(s) && 0.0 in s && 1.0 in s
    ensures Cuts(Unique(s))
  {
    var sorted := Ascending(s);
    AscendingIsSorted(s);
    assert 0.0 in sorted && 1.0 in sorted;
    var i :| 0 <= i < |sorted| && sorted[i] == 0.0;
    var j :| 0 <= j < |sorted| && sorted[j] == 1.0;
    assert sorted[0] in s && sorted[|sorted| - 1] in s;
    assert sorted[0] <= sorted[i] && sorted[j] <= sorted[|sorted| - 1];
    DedupStrict(sorted);
  }

  /** Whatever the scores in [0, 1], collapsed quantile edges cut the unit interval. */
  lemma QuantileCuts(scores: seq<real>, nBins: nat)
    requires nBins > 0 && InUnit(scores)
    ensures Cuts(EqualMassEdges(scores, nBins))
  {
    if scores == [] {
      UniformCuts(nBins);
    } else {
      RawInUnit(scores, nBins);
      var forced := RawQuantiles(scores, nBins)[0 := 0.0][nBins := 1.0];
      assert forced[0] == 0.0 && forced[nBins] == 1.0;
      UniqueCuts(forced);
    }
  }

  // ------------------------------------------------------ what the edges mean

  lemma EqualSteps(i: nat, n: nat)
    requires n > 0
    ensures (i + 1) as real / n as real - i as real / n as real == 1.0 / n as real
  {
  }

  /** Uniform edges go from 0 to 1 in equal steps. */
  lemma UniformGrid(nBins: nat, i: nat)
    requires i < nBins
    ensures var edges := UniformEdges(nBins);
            && |edges| == nBins + 1 && edges[0] == 0.0 && edges[nBins] == 1.0
            && edges[i + 1] - edges[i] == 1.0 / nBins as real
  {
    EqualSteps(i, nBins);
    assert nBins as real / nBins as real == 1.0;
  }

  lemma Between(a: real, b: real, f: real)
    requires a <= b && 0.0 <= f <= 1.0
    ensures a <= a + f * (b - a) <= b
  {
    Product(f, b - a);
    Product(1.0 - f, b - a);
    assert (1.0 - f) * (b - a) == (b - a) - f * (b - a);
  }

  lemma Product(x: real, y: real)
    requires x >= 0.0 && y >= 0.0
    ensures x * y >= 0.0
  {
  }

  /** The value at a position weighs its two neighbours by their distance, and lies above
      everything that comes before the position and below everything behind it. */
  lemma InterpolateWeighs(s: seq<real>, position: real, k: nat)
    requires Ordered(s) && k < |s| - 1 && k as real <= position < (k + 1) as real
    ensures var v, f := Interpolate(s, position), position - k as real;
            && v == (1.0 - f) * s[k] + f * s[k + 1]
            && (forall i :: 0 <= i <= k ==> s[i] <= v)
            && (forall i :: k < i < |s| ==> v <= s[i])
  {
    assert position.Floor == k;
    Between(s[k], s[k + 1], position - k as real);
    Weighted(s[k], s[k + 1], position - k as real);
  }

  /** At an entry it is that entry. */
  lemma InterpolateAtEntry(s: seq<real>, k: nat)
    requires k < |s|
    ensures Interpolate(s, k as real) == s[k]
  {
    assert (k as real).Floor == k;
    if k < |s| - 1 {
      NoWeight(s[k], s[k + 1], k as real - k as real);
    }
  }

  lemma NoWeight(a: real, b: real, f: real)
    requires f == 0.0
    ensures a + f * (b - a) == a
  {
  }

  lemma Weighted(a: real, b: real, f: real)
    ensures a + f * (b - a) == (1.0 - f) * a + f * b
  {
  }

  lemma FrontKept(s: seq<real>, keep: real -> bool, n: nat)
    requires n <= |s| && forall i :: 0 <= i < n ==> keep(s[i])
    ensures |Filter(s, keep)| >= n
  {
    FilterAll(s[..n], keep);
    FilterConcat(s[..n], s[n..], keep);
    assert s == s[..n] + s[n..];
  }

  lemma BackKept(s: seq<real>, keep: real -> bool, n: nat)
    requires n <= |s| && forall i :: n <= i < |s| ==> keep(s[i])
    ensures |Filter(s, keep)| >= |s| - n
  {
    FilterAll(s[n..], keep);
    FilterConcat(s[..n], s[n..], keep);
    assert s == s[..n] + s[n..];
  }

  function AtMost(v: real): real -> bool { (x: real) => x <= v }

  function AtLeast(v: real): real -> bool { (x: real) => x >= v }

  lemma PositionMass(s: seq<real>, position: real)
    requires Ordered(s) && 0.0 <= position <= (|s| - 1) as real
    ensures var v := Interpolate(s, position);
            && |Filter(s, AtMost(v))| as real > position
            && |Filter(s, AtLeast(v))| as real > (|s| - 1) as real - position
  {
    var k, v := position.Floor, Interpolate(s, position);
    if k == |s| - 1 {
      FrontKept(s, AtMost(v), |s|);
      BackKept(s, AtLeast(v), |s| - 1);
    } else {
      InterpolateWeighs(s, position, k);
      if position == k as real {
        InterpolateAtEntry(s, k);
      }
      FrontKept(s, AtMost(v), k + 1);
      BackKept(s, AtLeast(v), if position == k as real then k else k + 1);
    }
  }

  lemma MassOf(scores: seq<real>, position: real)
    requires |Ascending(scores)| == |scores| && 0.0 <= position <= (|scores| - 1) as real
    ensures var v := Interpolate(Ascending(scores), position);
            && |Filter(scores, AtMost(v))| as real > position
            && |Filter(scores, AtLeast(v))| as real > (|scores| - 1) as real - position
  {
    AscendingIsSorted(scores);
    SortDescIsSort(scores, Negate());
    PositionMass(Ascending(scores), position);
    FilterPermute(Ascending(scores), scores, AtMost(Interpolate(Ascending(scores), position)));
    FilterPermute(Ascending(scores), scores, AtLeast(Interpolate(Ascending(scores), position)));
  }

  lemma AscendingLength(s: seq<real>)
    ensures |Ascending(s)| == |s|
  {
    SortDescIsSort(s, Negate());
  }

  /** More than `below` of the scores lie at or below `v`, more than `above` at or above. */
  predicate Mass(scores: seq<real>, v: real, below: real, above: real) {
    |Filter(scores, AtMost(v))| as real > below && |Filter(scores, AtLeast(v))| as real > above
  }

  lemma MassAt(scores: seq<real>, v: real, position: real)
    requires |Ascending(scores)| == |scores| && 0.0 <= position <= (|scores| - 1) as real
    requires v == Interpolate(Ascending(scores), position)
    ensures Mass(scores, v, position, (|scores| - 1) as real - position)
  {
    MassOf(scores, position);
  }

  lemma MassMeans(scores: seq<real>, v: real, below: real, above: real)
    requires Mass(scores, v, below, above)
    ensures |Filter(scores, (x: real) => x <= v)| as real > below
    ensures |Filter(scores, (x: real) => x >= v)| as real > above
  {
    SameFilter(scores, AtMost(v), (x: real) => x <= v);
    SameFilter(scores, AtLeast(v), (x: real) => x >= v);
  }

  /** The position of a quantile, `q` of the way from the first score to the last. */
  lemma PositionMeans(q: real, n: nat)
    requires n > 0 && 0.0 <= q <= 1.0
    ensures PositionOf(q, n) == q * (n - 1) as real
    ensures 0.0 <= PositionOf(q, n) <= (n - 1) as real
    ensures PositionOf(0.0, n) == 0.0 && PositionOf(1.0, n) == (n - 1) as real
  {
    Product(q, (n - 1) as real);
    Product(1.0 - q, (n - 1) as real);
    Rest(q, (n - 1) as real);
  }

  lemma Rest(q: real, n: real)
    ensures n - q * n == (1.0 - q) * n
  {
  }

  /** A quantile holds its mass: of n scores more than q * (n - 1) lie at or below it, and more
      than what is left, (n - 1) - q * (n - 1), at or above. */
  lemma QuantileMass(scores: seq<real>, q: real)
    requires scores != [] && 0.0 <= q <= 1.0
    ensures |Ascending(scores)| == |scores|
    ensures var v, below := QuantileOf(Ascending(scores), q), PositionOf(q, |scores|);
            && |Filter(scores, (x: real) => x <= v)| as real > below
            && |Filter(scores, (x: real) => x >= v)| as real > (|scores| - 1) as real - below
  {
    AscendingLength(scores);
    QuantilePosition(Ascending(scores), q);
    var v, below := QuantileOf(Ascending(scores), q), PositionOf(q, |Ascending(scores)|);
    MassAt(scores, v, below);
    MassMeans(scores, v, below, (|scores| - 1) as real - below);
  }

  lemma {:induction false} DedupKeeps(s: seq<real>, v: real)
    ensures v in Dedup(s) <==> v in s
  {
    if |s| >= 2 {
      DedupKeeps(s[..|s| - 1], v);
      assert s == s[..|s| - 1] + [s[|s| - 1]];
      assert s[|s| - 2] in s[..|s| - 1];
    }
  }

  /** The `i`-th of `n` equal parts of 1. */
  function Level(i: nat, n: nat): (q: real)
    requires i <= n && n > 0
    ensures 0.0 <= q <= 1.0 && q * n as real == i as real
  {
    i as real / n as real
  }

  /** The edges of the quantile bins: 0, 1 and the inner quantiles, each once, rising. */
  lemma EqualMassEdgesAre(scores: seq<real>, nBins: nat, e: real)
    requires scores != [] && nBins > 0
    ensures |Ascending(scores)| == |scores|
    ensures e in EqualMassEdges(scores, nBins) <==>
              || e == 0.0 || e == 1.0
              || exists i :: 0 < i < nBins && e == QuantileOf(Ascending(scores), Level(i, nBins))
    ensures var edges := EqualMassEdges(scores, nBins); forall i, j :: 0 <= i < j < |edges| ==> edges[i] < edges[j]
  {
    AscendingIsSorted(scores);
    var raw := RawQuantiles(scores, nBins);
    var forced := raw[0 := 0.0][nBins := 1.0];
    assert forced[0] == 0.0 && forced[nBins] == 1.0;
    AscendingIsSorted(forced);
    DedupStrict(Ascending(forced));
    DedupKeeps(Ascending(forced), e);
    forall i | 0 < i < nBins ensures forced[i] == QuantileOf(Ascending(scores), Level(i, nBins)) {
    }
    assert e in forced <==> exists i :: 0 <= i <= nBins && forced[i] == e;
  }

  lemma ScoresAt(samples: seq<Sample>)
    ensures |Scores(samples)| == |samples|
    ensures forall i :: 0 <= i < |samples| ==> Scores(samples)[i] == samples[i].score
  {
    forall i: nat | i < |samples| ensures Scores(samples)[i] == samples[i].score {
      MapAt(samples, (x: Sample) => x.score, i);
    }
  }

  ghost predicate UnitScores(samples: seq<Sample>) {
    forall i :: 0 <= i < |samples| ==> 0.0 <= samples[i].score <= 1.0
  }

  lemma EdgesCut(samples: seq<Sample>, nBins: nat, strategy: Strategy)
    requires nBins > 0 && UnitScores(samples)
    ensures Cuts(Edges(samples, nBins, strategy))
  {
    ScoresAt(samples);
    UniformCuts(nBins);
    QuantileCuts(Scores(samples), nBins);
  }

  /** The program: quantiles into an array, both ends overwritten, duplicates collapsed. */
  method ComputeEqualMassEdges(scores: seq<real>, nBins: nat) returns (edges: seq<real>)
    ensures edges == EqualMassEdges(scores, nBins)
    ensures nBins > 0 && InUnit(scores) ==> Cuts(edges)
  {
    if scores == [] {
      edges := UniformEdges(nBins);
    } else {
      var quantiles := RawQuantiles(scores, nBins);
      var a := new real[nBins + 1](i requires 0 <= i <= nBins => quantiles[i]);
      a[0] := 0.0;
      a[nBins] := 1.0;
      assert a[..] == quantiles[0 := 0.0][nBins := 1.0];
      edges := Unique(a[..]);
    }
    if nBins > 0 && InUnit(scores) {
      QuantileCuts(scores, nBins);
    }
  }
}
