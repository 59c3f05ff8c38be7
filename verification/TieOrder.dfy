/** When average precision depends on the order of the stored records
    (detector/eval/recall_eval.py, `average_precision`): ranks within one score follow the
    order in which the images were fed, and the score may or may not show it. */
module TieOrder {
  import opened Common
  import opened Matching
  import opened EvalRecords
  import opened AveragePrecision

  // ------------------------------------------------------------------ the condition

  function TpOver(records: seq<PredRecord>, s: real): nat { |Filter(records, HitOver(s))| }

  function FpOver(records: seq<PredRecord>, s: real): nat { |Filter(records, FalseOver(s))| }

  function HitOver(s: real): PredRecord -> bool { (r: PredRecord) => r.score > s && r.isTp }

  function FalseOver(s: real): PredRecord -> bool { (r: PredRecord) => r.score > s && !r.isTp }

  function Fraction(tp: nat, fp: nat): real {
    if tp + fp == 0 then 0.0 else tp as real / (tp + fp) as real
  }

  /** Precision of the records scoring at least `u`: what `point_at` reports at `u`. */
  function CutPrecision(records: seq<PredRecord>, u: real): real { Fraction(TpAt(records, u), FpAt(records, u)) }

  /** The same without the false positives that score exactly `s`: the best that any order
      can make of the records tied at `s`. */
  function TopPrecision(records: seq<PredRecord>, s: real): real { Fraction(TpAt(records, s), FpOver(records, s)) }

  /** A true and a false positive share the score `s`. */
  predicate Mixed(records: seq<PredRecord>, s: real) {
    PredRecord(s, true) in records && PredRecord(s, false) in records
  }

  /** Cutting at `s` or at some lower score is at least as precise as `s` can look. */
  predicate Shielded(records: seq<PredRecord>, s: real) {
    exists x :: x in records && x.score <= s && CutPrecision(records, x.score) >= TopPrecision(records, s)
  }

  predicate TiesHarmless(records: seq<PredRecord>) {
    forall x :: x in records && Mixed(records, x.score) ==> Shielded(records, x.score)
  }

  // --------------------------------------------------------------- ranks and cuts

  ghost predicate Ranking(r: seq<PredRecord>) { forall i, j :: 0 <= i <= j < |r| ==> NotBelow(r, i, j) }

  predicate NotBelow(r: seq<PredRecord>, i: nat, j: nat)
    requires i < |r| && j < |r|
  {
    r[i].score >= r[j].score
  }

  /** A property of records that only the first ranks have, split by kind. */
  ghost predicate Splits(r: seq<PredRecord>, keep: PredRecord -> bool, hit: PredRecord -> bool, miss: PredRecord -> bool) {
    && (forall i, j :: 0 <= i < j < |r| && keep(r[j]) ==> keep(r[i]))
    && (forall x :: x in r ==> hit(x) == (keep(x) && x.isTp) && miss(x) == (keep(x) && !x.isTp))
  }

  /** Such records fill the ranks up to their number. */
  lemma {:induction false} PrefixRank(r: seq<PredRecord>, keep: PredRecord -> bool, hit: PredRecord -> bool, miss: PredRecord -> bool)
    requires Splits(r, keep, hit, miss)
    ensures var n := |Filter(r, hit)| + |Filter(r, miss)|;
            && n <= |r| && TpUpTo(r, n) == |Filter(r, hit)|
            && forall i :: 0 <= i < |r| ==> (keep(r[i]) <==> i < n)
  {
    if r != [] {
      var front, last := r[..|r| - 1], r[|r| - 1];
      assert last in r && r == front + [last];
      PrefixRank(front, keep, hit, miss);
      FilterSnoc(front, last, hit);
      FilterSnoc(front, last, miss);
      var n := |Filter(front, hit)| + |Filter(front, miss)|;
      TpUpToPrefix(r, |front|, n);
      assert n < |front| ==> r[n] == front[n] && !keep(r[n]);
      if keep(last) {
        assert n == |front|;
      }
    }
  }

  lemma CutSplits(r: seq<PredRecord>, v: real)
    requires Ranking(r)
    ensures Splits(r, RecordAbove(v), HitAbove(v), FalseAbove(v)) && Splits(r, Over(v), HitOver(v), FalseOver(v))
  {
    forall i, j | 0 <= i < j < |r| ensures r[i].score >= r[j].score {
      assert NotBelow(r, i, j);
    }
  }

  function Over(v: real): PredRecord -> bool { (r: PredRecord) => r.score > v }

  lemma CutRank(r: seq<PredRecord>, v: real)
    requires Ranking(r)
    ensures var n := TpAt(r, v) + FpAt(r, v); n <= |r| && TpUpTo(r, n) == TpAt(r, v)
  {
    CutSplits(r, v);
    PrefixRank(r, RecordAbove(v), HitAbove(v), FalseAbove(v));
  }

  lemma CutRankAt(r: seq<PredRecord>, v: real, i: nat)
    requires Ranking(r) && i < |r|
    ensures r[i].score >= v <==> i < TpAt(r, v) + FpAt(r, v)
  {
    CutSplits(r, v);
    PrefixRank(r, RecordAbove(v), HitAbove(v), FalseAbove(v));
    assert RecordAbove(v)(r[i]) <==> r[i].score >= v;
  }

  lemma OverRank(r: seq<PredRecord>, v: real)
    requires Ranking(r)
    ensures var n := TpOver(r, v) + FpOver(r, v); n <= |r| && TpUpTo(r, n) == TpOver(r, v)
  {
    CutSplits(r, v);
    PrefixRank(r, Over(v), HitOver(v), FalseOver(v));
  }

  lemma OverRankAt(r: seq<PredRecord>, v: real, i: nat)
    requires Ranking(r) && i < |r|
    ensures r[i].score > v <==> i < TpOver(r, v) + FpOver(r, v)
  {
    CutSplits(r, v);
    PrefixRank(r, Over(v), HitOver(v), FalseOver(v));
    assert Over(v)(r[i]) <==> r[i].score > v;
  }

  lemma OverWithinCut(records: seq<PredRecord>, v: real)
    ensures TpOver(records, v) <= TpAt(records, v) && FpOver(records, v) <= FpAt(records, v)
  {
    FilterMonotone(records, HitOver(v), HitAbove(v));
    FilterMonotone(records, FalseOver(v), FalseAbove(v));
  }

  /** The precision at the rank where the scores fall below `v` is the precision of the cut. */
  lemma CutIsRank(r: seq<PredRecord>, v: real)
    requires Ranking(r) && TpAt(r, v) + FpAt(r, v) > 0
    ensures var n := TpAt(r, v) + FpAt(r, v); n <= |r| && PrecisionAt(r, n) == CutPrecision(r, v)
  {
    CutRank(r, v);
  }

  lemma {:induction false} TpSteps(r: seq<PredRecord>, i: nat, j: nat)
    requires i <= j <= |r|
    ensures TpUpTo(r, i) <= TpUpTo(r, j) <= TpUpTo(r, i) + (j - i)
    ensures (forall l :: i <= l < j ==> r[l].isTp) ==> TpUpTo(r, j) == TpUpTo(r, i) + (j - i)
    ensures (forall l :: i <= l < j ==> !r[l].isTp) ==> TpUpTo(r, j) == TpUpTo(r, i)
    decreases j - i
  {
    if i < j {
      TpSteps(r, i, j - 1);
    }
  }

  lemma FractionGrows(t: nat, f: nat, more: nat, fewer: nat)
    requires t <= more && fewer <= f
    ensures 0.0 <= Fraction(t, f) <= 1.0
    ensures Fraction(t, f) <= Fraction(more, fewer)
  {
    if t + f > 0 && more + fewer > 0 {
      assert t * (more + fewer) <= more * (t + f) by {
        Product(t, fewer, more, f);
      }
      CrossMultiply(t, t + f, more, more + fewer);
    }
    if t + f > 0 {
      CrossMultiply(t, t + f, 1, 1);
    }
  }

  lemma Product(a: nat, b: nat, c: nat, d: nat)
    requires a <= c && b <= d
    ensures a * b <= c * d
  {
  }

  lemma CrossMultiply(a: nat, b: nat, c: nat, d: nat)
    requires b > 0 && d > 0 && a * d <= c * b
    ensures 0.0 <= a as real / b as real <= c as real / d as real
  {
    var x, y := a as real / b as real, c as real / d as real;
    assert x * b as real == a as real && y * d as real == c as real;
    assert (a * d) as real == a as real * d as real && (c * b) as real == c as real * b as real;
    ScaleDown(x, y, b as real * d as real);
  }

  lemma ScaleDown(x: real, y: real, k: real)
    requires k > 0.0 && x * k <= y * k
    ensures x <= y
  {
  }

  lemma PrecisionIsFractionOf(r: seq<PredRecord>, k: nat)
    requires 0 < k <= |r|
    ensures PrecisionAt(r, k) == Fraction(TpUpTo(r, k), k - TpUpTo(r, k))
  {
  }

  /** No rank inside a tie looks better than the tie can. */
  lemma InsideTie(r: seq<PredRecord>, k: nat)
    requires Ranking(r) && 0 < k <= |r|
    ensures PrecisionAt(r, k) <= TopPrecision(r, r[k - 1].score)
  {
    var v := r[k - 1].score;
    CutRank(r, v);
    OverRank(r, v);
    CutRankAt(r, v, k - 1);
    OverRankAt(r, v, k - 1);
    TpSteps(r, k, TpAt(r, v) + FpAt(r, v));
    TpSteps(r, TpOver(r, v) + FpOver(r, v), k);
    PrecisionIsFractionOf(r, k);
    FractionGrows(TpUpTo(r, k), k - TpUpTo(r, k), TpAt(r, v), FpOver(r, v));
  }

  // ------------------------------------------------------------------ the floor

  /** The best precision of a cut at one of the candidates' scores, `s` or lower. */
  function Floor(all: seq<PredRecord>, candidates: seq<PredRecord>, s: real): real {
    if candidates == [] then 0.0
    else
      var rest, x := Floor(all, candidates[..|candidates| - 1], s), candidates[|candidates| - 1];
      if x.score <= s then Larger(rest, CutPrecision(all, x.score)) else rest
  }

  lemma {:induction false} FloorIsBest(all: seq<PredRecord>, candidates: seq<PredRecord>, s: real)
    ensures Floor(all, candidates, s) >= 0.0
    ensures forall x :: x in candidates && x.score <= s ==> CutPrecision(all, x.score) <= Floor(all, candidates, s)
    ensures Floor(all, candidates, s) == 0.0
            || exists x :: x in candidates && x.score <= s && CutPrecision(all, x.score) == Floor(all, candidates, s)
  {
    if candidates != [] {
      var front, x := candidates[..|candidates| - 1], candidates[|candidates| - 1];
      assert candidates == front + [x];
      FloorIsBest(all, front, s);
      FractionGrows(TpAt(all, x.score), FpAt(all, x.score), TpAt(all, x.score), FpAt(all, x.score));
    }
  }

  /** What a record adds to the area in the worst order. */
  function Worst(records: seq<PredRecord>): PredRecord -> real {
    (x: PredRecord) => if x.isTp then Floor(records, records, x.score) else 0.0
  }

  /** A ranking of the records. */
  ghost predicate RankingOf(r: seq<PredRecord>, records: seq<PredRecord>) {
    Ranking(r) && multiset(r) == multiset(records)
  }

  lemma SameCuts(r: seq<PredRecord>, records: seq<PredRecord>, v: real)
    requires multiset(r) == multiset(records)
    ensures TpAt(r, v) == TpAt(records, v) && FpAt(r, v) == FpAt(records, v) && FpOver(r, v) == FpOver(records, v)
    ensures CutPrecision(r, v) == CutPrecision(records, v) && TopPrecision(r, v) == TopPrecision(records, v)
  {
    FilterPermute(r, records, HitAbove(v));
    FilterPermute(r, records, FalseAbove(v));
    FilterPermute(r, records, FalseOver(v));
  }

  /** Cuts at the score of rank `i`, at least as low as `s`, stay below the floor. */
  lemma CutBelowFloor(r: seq<PredRecord>, records: seq<PredRecord>, i: nat, s: real)
    requires RankingOf(r, records) && i < |r| && r[i].score <= s
    ensures CutPrecision(r, r[i].score) <= Floor(records, records, s)
  {
    assert r[i] in r;
    SameElements(r, records, r[i]);
    SameCuts(r, records, r[i].score);
    FloorIsBest(records, records, s);
  }

  /** Every cut at or below the score of a true positive is still to come at its rank. */
  lemma FloorIsReached(r: seq<PredRecord>, records: seq<PredRecord>, p: nat)
    requires RankingOf(r, records) && p < |r|
    ensures Floor(records, records, r[p].score) <= BestFrom(r, p + 1)
  {
    var s := r[p].score;
    FloorIsBest(records, records, s);
    var k := BestFromIsMaximum(r, p + 1);
    PrecisionIsFraction(r, k);
    if Floor(records, records, s) != 0.0 {
      var x :| x in records && x.score <= s && CutPrecision(records, x.score) == Floor(records, records, s);
      SameCuts(r, records, x.score);
      CutRankAt(r, x.score, p);
      CutIsRank(r, x.score);
    }
  }

  /** Where the scores fall, the precision is that of a cut. */
  lemma TieEnds(r: seq<PredRecord>, n: nat)
    requires Ranking(r) && 0 < n <= |r| && (n < |r| ==> r[n].score < r[n - 1].score)
    ensures PrecisionAt(r, n) == CutPrecision(r, r[n - 1].score)
  {
    var w := r[n - 1].score;
    CutRank(r, w);
    CutRankAt(r, w, n - 1);
    if n < |r| {
      CutRankAt(r, w, n);
    }
    CutIsRank(r, w);
  }

  /** The last rank that scores above `v` ends a tie. */
  lemma CutAbove(r: seq<PredRecord>, v: real) returns (n: nat)
    requires Ranking(r) && r != [] && r[0].score > v
    ensures n == TpOver(r, v) + FpOver(r, v) && 0 < n <= |r| && TpUpTo(r, n) == TpOver(r, v)
    ensures r[n - 1].score > v && PrecisionAt(r, n) == CutPrecision(r, r[n - 1].score)
  {
    OverRank(r, v);
    OverRankAt(r, v, 0);
    n := TpOver(r, v) + FpOver(r, v);
    OverRankAt(r, v, n - 1);
    if n < |r| {
      OverRankAt(r, v, n);
    }
    TieEnds(r, n);
  }

  lemma Dilutes(r: seq<PredRecord>, n: nat, k: nat)
    requires 0 < n <= k <= |r| && TpUpTo(r, n) == TpUpTo(r, k)
    ensures PrecisionAt(r, k) <= PrecisionAt(r, n)
  {
    PrecisionIsFractionOf(r, k);
    PrecisionIsFractionOf(r, n);
    FractionGrows(TpUpTo(r, k), k - TpUpTo(r, k), TpUpTo(r, n), n - TpUpTo(r, n));
  }

  /** Where no true positive has come since the last cut, precision has only fallen. */
  lemma FallsFromCut(r: seq<PredRecord>, records: seq<PredRecord>, p: nat, k: nat)
    requires RankingOf(r, records) && p + 1 < k <= |r|
    requires var v := r[k - 1].score;
             r[p].score > v && TpUpTo(r, k) == TpOver(r, v)
    ensures PrecisionAt(r, k) <= Floor(records, records, r[p].score)
  {
    var v := r[k - 1].score;
    assert NotBelow(r, 0, p);
    var n := CutAbove(r, v);
    OverRankAt(r, v, p);
    OverRankAt(r, v, k - 1);
    assert NotBelow(r, p, n - 1);
    Dilutes(r, n, k);
    CutBelowFloor(r, records, n - 1, r[p].score);
  }

  // ------------------------------------------------------- harmless ties: one value

  lemma NoTpAtScore(r: seq<PredRecord>, v: real, k: nat)
    requires Ranking(r) && PredRecord(v, true) !in r && 0 < k <= |r| && r[k - 1].score == v
    ensures TpUpTo(r, k) == TpOver(r, v)
  {
    OverRank(r, v);
    OverRankAt(r, v, k - 1);
    var n := TpOver(r, v) + FpOver(r, v);
    forall l | n <= l < k ensures !r[l].isTp {
      OverRankAt(r, v, l);
      assert NotBelow(r, l, k - 1);
      assert r[l] in r && r[l] == PredRecord(r[l].score, r[l].isTp);
    }
    TpSteps(r, n, k);
  }

  lemma NoFpAtScore(records: seq<PredRecord>, v: real)
    requires PredRecord(v, false) !in records
    ensures FpAt(records, v) == FpOver(records, v)
  {
    forall x | x in records ensures FalseAbove(v)(x) == FalseOver(v)(x) {
      assert x == PredRecord(x.score, x.isTp);
    }
    FilterSame(records, FalseAbove(v), FalseOver(v));
  }

  lemma {:induction false} FilterSame<T>(s: seq<T>, f: T -> bool, g: T -> bool)
    requires forall x :: x in s ==> f(x) == g(x)
    ensures Filter(s, f) == Filter(s, g)
  {
    if s != [] {
      assert s[|s| - 1] in s;
      FilterSame(s[..|s| - 1], f, g);
    }
  }

  /** With harmless ties no later rank beats the floor of a true positive. */
  lemma HarmlessBound(r: seq<PredRecord>, records: seq<PredRecord>, p: nat, k: nat)
    requires RankingOf(r, records) && TiesHarmless(records) && p < k <= |r| && r[p].isTp
    ensures PrecisionAt(r, k) <= Floor(records, records, r[p].score)
  {
    var v, s := r[k - 1].score, r[p].score;
    assert NotBelow(r, p, k - 1);
    assert r[k - 1] in r && r[p] in r && r[p] == PredRecord(s, true);
    SameElements(r, records, r[k - 1]);
    SameElements(r, records, PredRecord(v, true));
    SameElements(r, records, PredRecord(v, false));
    if PredRecord(v, true) !in r {
      assert v != s;
      NoTpAtScore(r, v, k);
      FallsFromCut(r, records, p, k);
    } else {
      InsideTie(r, k);
      SameCuts(r, records, v);
      FloorIsBest(records, records, s);
      if PredRecord(v, false) !in r {
        NoFpAtScore(r, v);
        CutBelowFloor(r, records, k - 1, s);
      } else {
        assert Mixed(records, v) && Shielded(records, r[k - 1].score);
      }
    }
  }

  lemma HarmlessIsFloor(r: seq<PredRecord>, records: seq<PredRecord>, p: nat)
    requires RankingOf(r, records) && TiesHarmless(records) && p < |r| && r[p].isTp
    ensures BestFrom(r, p + 1) == Floor(records, records, r[p].score)
  {
    FloorIsReached(r, records, p);
    var k := BestFromIsMaximum(r, p + 1);
    HarmlessBound(r, records, p, k);
  }

  // --------------------------------------------------------- sums over a ranking

  /** The area counted from position `i` on, against any measure of the records. */
  lemma {:induction false} SumAbove(r: seq<PredRecord>, w: PredRecord -> real, i: nat)
    requires i <= |r|
    requires forall p :: i <= p < |r| ==> w(r[p]) <= if r[p].isTp then BestFrom(r, p + 1) else 0.0
    ensures BestSum(r, i) >= RealSum(r, w) - RealSum(r[..i], w)
    ensures forall p :: i <= p < |r| && r[p].isTp && w(r[p]) < BestFrom(r, p + 1) ==>
              BestSum(r, i) > RealSum(r, w) - RealSum(r[..i], w)
    decreases |r| - i
  {
    if i < |r| {
      SumAbove(r, w, i + 1);
      assert r[..i + 1] == r[..i] + [r[i]];
      RealSumSnoc(r[..i], r[i], w);
    } else {
      assert r[..i] == r;
    }
  }

  lemma {:induction false} SumEqual(r: seq<PredRecord>, w: PredRecord -> real, i: nat)
    requires i <= |r|
    requires forall p :: i <= p < |r| ==> w(r[p]) == if r[p].isTp then BestFrom(r, p + 1) else 0.0
    ensures BestSum(r, i) == RealSum(r, w) - RealSum(r[..i], w)
    decreases |r| - i
  {
    if i < |r| {
      SumEqual(r, w, i + 1);
      assert r[..i + 1] == r[..i] + [r[i]];
      RealSumSnoc(r[..i], r[i], w);
    } else {
      assert r[..i] == r;
    }
  }

  lemma RankedIsRanking(b: seq<PredRecord>, records: seq<PredRecord>)
    requires multiset(b) == multiset(records)
    ensures RankingOf(Ranked(b), records)
  {
    SortDescIsSort(b, RecordScore());
    var r := Ranked(b);
    forall i, j | 0 <= i <= j < |r| ensures NotBelow(r, i, j) {
      assert i < j ==> RecordScore()(r[i]) >= RecordScore()(r[j]);
    }
  }

  /** The area no order can go below. */
  function LeastArea(records: seq<PredRecord>): real { RealSum(records, Worst(records)) }

  lemma AreaAtLeast(b: seq<PredRecord>, records: seq<PredRecord>, p: nat)
    requires multiset(b) == multiset(records) && p < |Ranked(b)|
    requires Ranked(b)[p].isTp && Floor(records, records, Ranked(b)[p].score) < BestFrom(Ranked(b), p + 1)
    ensures BestSum(Ranked(b), 0) > LeastArea(records)
  {
    var r, w := Ranked(b), Worst(records);
    RankedIsRanking(b, records);
    forall p | 0 <= p < |r| ensures w(r[p]) <= if r[p].isTp then BestFrom(r, p + 1) else 0.0 {
      FloorIsReached(r, records, p);
    }
    SumAbove(r, w, 0);
    RealSumPermute(r, records, w);
    assert r[..0] == [];
  }

  lemma HarmlessArea(b: seq<PredRecord>, records: seq<PredRecord>)
    requires multiset(b) == multiset(records) && TiesHarmless(records)
    ensures BestSum(Ranked(b), 0) == LeastArea(records)
  {
    var r, w := Ranked(b), Worst(records);
    RankedIsRanking(b, records);
    forall p | 0 <= p < |r| ensures w(r[p]) == if r[p].isTp then BestFrom(r, p + 1) else 0.0 {
      if r[p].isTp {
        HarmlessIsFloor(r, records, p);
      }
    }
    SumEqual(r, w, 0);
    RealSumPermute(r, records, w);
    assert r[..0] == [];
  }

  // ------------------------------------------------------- two extreme orders

  function Is(tp: bool): PredRecord -> bool { (x: PredRecord) => x.isTp == tp }

  function AtScore(v: real): PredRecord -> bool { (x: PredRecord) => x.score == v }

  /** All true positives first, or all false positives first. */
  function Lead(records: seq<PredRecord>, tp: bool): seq<PredRecord> {
    Filter(records, Is(tp)) + Filter(records, Is(!tp))
  }

  /** Within every tie the records of one kind come first. */
  ghost predicate Leads(r: seq<PredRecord>, tp: bool) {
    forall i, j :: 0 <= i < j < |r| && r[i].score == r[j].score && r[j].isTp == tp ==> r[i].isTp == tp
  }

  lemma LeadIsOrder(records: seq<PredRecord>, tp: bool)
    ensures multiset(Lead(records, tp)) == multiset(records)
  {
    forall x ensures multiset(Lead(records, tp))[x] == multiset(records)[x] {
      FilterMultiset(records, Is(tp), x);
      FilterMultiset(records, Is(!tp), x);
    }
  }

  lemma LeadIsLed(records: seq<PredRecord>, tp: bool)
    ensures Leads(Lead(records, tp), tp)
  {
    var first, second := Filter(records, Is(tp)), Filter(records, Is(!tp));
    forall i | 0 <= i < |first| ensures first[i].isTp == tp {
      FilterMember(records, Is(tp), first[i]);
    }
    forall i | 0 <= i < |second| ensures second[i].isTp != tp {
      FilterMember(records, Is(!tp), second[i]);
    }
  }

  lemma {:induction false} FilterLeads(b: seq<PredRecord>, keep: PredRecord -> bool, tp: bool)
    requires Leads(b, tp)
    ensures Leads(Filter(b, keep), tp)
  {
    if b != [] {
      var n := |b| - 1;
      FilterLeads(b[..n], keep, tp);
      var kept := Filter(b[..n], keep);
      forall i | 0 <= i < |kept| && kept[i].score == b[n].score && b[n].isTp == tp ensures kept[i].isTp == tp {
        FilterMember(b[..n], keep, kept[i]);
        var k :| 0 <= k < n && b[..n][k] == kept[i];
        assert b[k] == kept[i];
      }
    }
  }

  /** Ranking is stable, so a tie holds the same records in the same order. */
  lemma TieKept(b: seq<PredRecord>, v: real)
    ensures Filter(Ranked(b), AtScore(v)) == Filter(b, AtScore(v))
  {
    var tie := Filter(b, AtScore(v));
    SortFilter(b, RecordScore(), AtScore(v));
    forall i | 0 <= i < |tie| ensures tie[i].score == v {
      FilterMember(b, AtScore(v), tie[i]);
    }
    SortSorted(tie, RecordScore());
  }

  lemma RankedLeads(b: seq<PredRecord>, tp: bool)
    requires Leads(b, tp)
    ensures Leads(Ranked(b), tp)
  {
    var r := Ranked(b);
    forall i, j | 0 <= i < j < |r| && r[i].score == r[j].score && r[j].isTp == tp ensures r[i].isTp == tp {
      var keep := AtScore(r[i].score);
      TieKept(b, r[i].score);
      FilterLeads(b, keep, tp);
      FilterAt(r, keep, i);
      FilterAt(r, keep, j);
      FilterAt(r[..j], keep, i);
      assert r[..j][..i] == r[..i];
      var x, y := |Filter(r[..i], keep)|, |Filter(r[..j], keep)|;
      assert Filter(r, keep)[x] == r[i] && Filter(r, keep)[y] == r[j] && x < y;
    }
  }

  /** With the false positives first in every tie, no later rank beats the floor. */
  lemma WorstOrderBound(r: seq<PredRecord>, records: seq<PredRecord>, p: nat, k: nat)
    requires RankingOf(r, records) && Leads(r, false) && p < k <= |r| && r[p].isTp
    ensures PrecisionAt(r, k) <= Floor(records, records, r[p].score)
  {
    var v, s := r[k - 1].score, r[p].score;
    assert NotBelow(r, p, k - 1);
    if !r[k - 1].isTp {
      assert v != s;
      OverRank(r, v);
      OverRankAt(r, v, k - 1);
      var n := TpOver(r, v) + FpOver(r, v);
      forall l | n <= l < k ensures !r[l].isTp {
        OverRankAt(r, v, l);
        assert NotBelow(r, l, k - 1);
      }
      TpSteps(r, n, k);
      FallsFromCut(r, records, p, k);
    } else {
      RisesToCut(r, k);
      CutBelowFloor(r, records, k - 1, s);
    }
  }

  lemma RisesToCut(r: seq<PredRecord>, k: nat)
    requires Ranking(r) && Leads(r, false) && 0 < k <= |r| && r[k - 1].isTp
    ensures PrecisionAt(r, k) <= CutPrecision(r, r[k - 1].score)
  {
    var v := r[k - 1].score;
    CutRank(r, v);
    CutRankAt(r, v, k - 1);
    var n := TpAt(r, v) + FpAt(r, v);
    forall l | k <= l < n ensures r[l].isTp {
      CutRankAt(r, v, l);
      assert NotBelow(r, k - 1, l);
    }
    TpSteps(r, k, n);
    CutIsRank(r, v);
    PrecisionIsFractionOf(r, k);
    PrecisionIsFractionOf(r, n);
    FractionGrows(TpUpTo(r, k), k - TpUpTo(r, k), TpUpTo(r, n), n - TpUpTo(r, n));
  }

  /** So such an order has the least area there is. */
  lemma LeastWhenLed(b: seq<PredRecord>, records: seq<PredRecord>)
    requires multiset(b) == multiset(records) && Leads(b, false)
    ensures BestSum(Ranked(b), 0) == LeastArea(records)
  {
    var r, w := Ranked(b), Worst(records);
    RankedIsRanking(b, records);
    RankedLeads(b, false);
    forall p | 0 <= p < |r| ensures w(r[p]) == if r[p].isTp then BestFrom(r, p + 1) else 0.0 {
      if r[p].isTp {
        FloorIsReached(r, records, p);
        var k := BestFromIsMaximum(r, p + 1);
        WorstOrderBound(r, records, p, k);
      }
    }
    SumEqual(r, w, 0);
    RealSumPermute(r, records, w);
    assert r[..0] == [];
  }

  lemma LeastAreaIsReached(records: seq<PredRecord>)
    ensures multiset(Lead(records, false)) == multiset(records)
    ensures BestSum(Ranked(Lead(records, false)), 0) == LeastArea(records)
  {
    LeadIsOrder(records, false);
    LeadIsLed(records, false);
    LeastWhenLed(Lead(records, false), records);
  }

  /** Ranks n0 .. n hold a tie with `a` true positives; led by them, its first `a` ranks are they. */
  lemma LedByTp(r: seq<PredRecord>, n0: nat, n: nat, a: nat)
    requires n0 <= n <= |r| && TpUpTo(r, n) == TpUpTo(r, n0) + a
    requires forall i, j :: n0 <= i < j < n && r[j].isTp ==> r[i].isTp
    ensures n0 + a <= n && forall l :: n0 <= l < n0 + a ==> r[l].isTp
    ensures TpUpTo(r, n0 + a) == TpUpTo(r, n0) + a
  {
    TpSteps(r, n0, n);
    forall l | n0 <= l < n0 + a ensures r[l].isTp {
      TpSteps(r, l, n);
      TpSteps(r, n0, l);
    }
    TpSteps(r, n0, n0 + a);
  }

  lemma TpInTie(r: seq<PredRecord>, s: real)
    requires Ranking(r) && PredRecord(s, true) in r
    ensures TpAt(r, s) > TpOver(r, s)
  {
    OverRank(r, s);
    CutRank(r, s);
    var q :| 0 <= q < |r| && r[q] == PredRecord(s, true);
    CutRankAt(r, s, q);
    OverRankAt(r, s, q);
    TpSteps(r, TpOver(r, s) + FpOver(r, s), q);
    TpSteps(r, q + 1, TpAt(r, s) + FpAt(r, s));
    assert TpUpTo(r, q + 1) == TpUpTo(r, q) + 1;
  }

  /** With the true positives first, the last of them looks as good as the tie can. */
  lemma TieLooksItsBest(r: seq<PredRecord>, s: real) returns (p: nat)
    requires Ranking(r) && Leads(r, true) && PredRecord(s, true) in r
    ensures p < |r| && r[p] == PredRecord(s, true) && PrecisionAt(r, p + 1) == TopPrecision(r, s)
  {
    OverRank(r, s);
    CutRank(r, s);
    TpInTie(r, s);
    var n0, n := TpOver(r, s) + FpOver(r, s), TpAt(r, s) + FpAt(r, s);
    OverWithinCut(r, s);
    var a := TpAt(r, s) - TpOver(r, s);
    forall l | n0 <= l < n ensures r[l].score == s {
      CutRankAt(r, s, l);
      OverRankAt(r, s, l);
    }
    LedByTp(r, n0, n, a);
    p := n0 + a - 1;
    PrecisionIsFractionOf(r, p + 1);
  }

  lemma FloorBelowTop(records: seq<PredRecord>, s: real)
    requires Mixed(records, s) && !Shielded(records, s)
    ensures Floor(records, records, s) < TopPrecision(records, s)
  {
    FloorIsBest(records, records, s);
    TopIsPositive(records, s);
  }

  lemma TopBeatsFloor(r: seq<PredRecord>, records: seq<PredRecord>, s: real) returns (p: nat)
    requires RankingOf(r, records) && Leads(r, true) && Mixed(records, s) && !Shielded(records, s)
    ensures p < |r| && r[p].isTp && Floor(records, records, r[p].score) < BestFrom(r, p + 1)
  {
    SameElements(r, records, PredRecord(s, true));
    p := TieLooksItsBest(r, s);
    SameCuts(r, records, s);
    FloorBelowTop(records, s);
    var k := BestFromIsMaximum(r, p + 1);
  }

  /** An exposed tie makes an order with the true positives first better than the worst one. */
  lemma MoreWhenLed(b: seq<PredRecord>, records: seq<PredRecord>, s: real)
    requires multiset(b) == multiset(records) && Leads(b, true)
    requires Mixed(records, s) && !Shielded(records, s)
    ensures BestSum(Ranked(b), 0) > LeastArea(records)
  {
    RankedIsRanking(b, records);
    RankedLeads(b, true);
    var p := TopBeatsFloor(Ranked(b), records, s);
    AreaAtLeast(b, records, p);
  }

  lemma ExposedTie(records: seq<PredRecord>, s: real)
    requires Mixed(records, s) && !Shielded(records, s)
    ensures multiset(Lead(records, true)) == multiset(records)
    ensures BestSum(Ranked(Lead(records, true)), 0) > LeastArea(records)
  {
    LeadIsOrder(records, true);
    LeadIsLed(records, true);
    MoreWhenLed(Lead(records, true), records, s);
  }

  lemma TopIsPositive(records: seq<PredRecord>, s: real)
    requires PredRecord(s, true) in records
    ensures TopPrecision(records, s) > 0.0
  {
    FilterMember(records, HitAbove(s), PredRecord(s, true));
  }

  // ------------------------------------------------------------------- theorems

  ghost predicate ApIgnoresOrder(records: seq<PredRecord>, nGt: nat)
    requires nGt > 0
  {
    forall b :: multiset(b) == multiset(records) ==> Ap(b, nGt) == Ap(records, nGt)
  }

  lemma QuotientEqual(a: real, b: real, n: real)
    requires n > 0.0
    ensures a / n == b / n <==> a == b
  {
  }

  lemma HarmlessAp(a: seq<PredRecord>, b: seq<PredRecord>, nGt: nat)
    requires nGt > 0 && multiset(a) == multiset(b) && TiesHarmless(a)
    ensures Ap(b, nGt) == Ap(a, nGt)
  {
    HarmlessArea(a, a);
    HarmlessArea(b, a);
  }

  /** Two orders of records with an exposed tie, one led by the true positives and one by the
      false positives, have different average precision. */
  lemma LedOrdersDiffer(records: seq<PredRecord>, good: seq<PredRecord>, bad: seq<PredRecord>, nGt: nat)
    requires nGt > 0 && !TiesHarmless(records)
    requires multiset(good) == multiset(records) && Leads(good, true)
    requires multiset(bad) == multiset(records) && Leads(bad, false)
    ensures Ap(good, nGt) != Ap(bad, nGt)
  {
    var x :| x in records && Mixed(records, x.score) && !Shielded(records, x.score);
    MoreWhenLed(good, records, x.score);
    LeastWhenLed(bad, records);
    QuotientEqual(BestSum(Ranked(good), 0), BestSum(Ranked(bad), 0), nGt as real);
  }

  /** Average precision is the same for every order of the records if and only if every tie
      between a true and a false positive is harmless: some cut at that score or a lower one
      is at least as precise as the tie can look. */
  lemma ApIgnoresOrderExactlyWhen(records: seq<PredRecord>, nGt: nat)
    requires nGt > 0
    ensures ApIgnoresOrder(records, nGt) <==> TiesHarmless(records)
  {
    if TiesHarmless(records) {
      forall b | multiset(b) == multiset(records) ensures Ap(b, nGt) == Ap(records, nGt) {
        HarmlessAp(records, b, nGt);
      }
    } else {
      var good, bad := Lead(records, true), Lead(records, false);
      LeadIsOrder(records, true);
      LeadIsOrder(records, false);
      LeadIsLed(records, true);
      LeadIsLed(records, false);
      LedOrdersDiffer(records, good, bad, nGt);
    }
  }

  /** In particular where no true and no false positive share a score. */
  lemma ApOrderFree(a: seq<PredRecord>, b: seq<PredRecord>, nGt: nat)
    requires nGt > 0 && multiset(a) == multiset(b)
    requires forall s :: !Mixed(a, s)
    ensures Ap(a, nGt) == Ap(b, nGt)
  {
    ApIgnoresOrderExactlyWhen(a, nGt);
  }
}
