/** Greedy assignment of predictions to ground truth for one class in one image
    (detector/eval/recall_eval.py, `_match_label`). */
module Matching {
  import opened Common
  import opened Geometry

  datatype GroundTruth = GroundTruth(imageId: string, category: string, box: Box, occlusion: Option<string>)

  datatype Prediction = Prediction(imageId: string, category: string, box: Box, score: real)

  /** What is stored per prediction: its score and whether it claimed a ground truth. */
  datatype PredRecord = PredRecord(score: real, isTp: bool)

  /** What is stored per ground truth; the score is -1 when nothing claimed it. */
  datatype GtRecord = GtRecord(matched: bool, score: real, occlusion: Option<string>)

  /** How matching scores a pair of boxes, and the least score it accepts.  Everything in
      this module holds for an arbitrary overlap function; the evaluation uses IoU. */
  datatype Metric = Metric(overlap: (Box, Box) -> real, threshold: real)

  /** By ground truth: the position of the prediction that claimed it. */
  type Claims = seq<Option<nat>>

  predicate Compatible(p: Prediction, g: GroundTruth, m: Metric) {
    m.overlap(p.box, g.box) >= m.threshold && m.overlap(p.box, g.box) > 0.0
  }

  predicate Open(p: Prediction, gts: seq<GroundTruth>, claims: Claims, m: Metric, j: nat)
    requires j < |gts| == |claims|
  {
    claims[j].None? && Compatible(p, gts[j], m)
  }

  /** The scan of the inner loop over the first `n` ground truths: the unclaimed one
      that overlaps best, the earliest of those on a tie. */
  function BestGt(p: Prediction, gts: seq<GroundTruth>, claims: Claims, m: Metric, n: nat): (best: Option<nat>)
    requires n <= |gts| == |claims|
    ensures best.None? ==> forall j :: 0 <= j < n ==> !Open(p, gts, claims, m, j)
    ensures best.Some? ==>
              && best.value < n && Open(p, gts, claims, m, best.value)
              && forall j :: 0 <= j < n && Open(p, gts, claims, m, j) ==>
                   Prefers(p, gts, m, best.value, j) || j == best.value
  {
    if n == 0 then None else
    var prev := BestGt(p, gts, claims, m, n - 1);
    if Open(p, gts, claims, m, n - 1) && (prev.None? || m.overlap(p.box, gts[n - 1].box) > m.overlap(p.box, gts[prev.value].box))
    then Some(n - 1) else prev
  }

  /** Prediction `p` would rather have ground truth `j` than `k`. */
  predicate Prefers(p: Prediction, gts: seq<GroundTruth>, m: Metric, j: nat, k: nat)
    requires j < |gts| && k < |gts|
  {
    var vj, vk := m.overlap(p.box, gts[j].box), m.overlap(p.box, gts[k].box);
    vj > vk || (vj == vk && j < k)
  }

  /** The claims after the loop over `preds`, taken in the order given. */
  function Assign(preds: seq<Prediction>, gts: seq<GroundTruth>, m: Metric): (claims: Claims)
    ensures |claims| == |gts|
  {
    if preds == [] then seq(|gts|, _ => None) else
    var n := |preds| - 1;
    var before := Assign(preds[..n], gts, m);
    match BestGt(preds[n], gts, before, m, |gts|)
    case None => before
    case Some(j) => before[j := Some(n)]
  }

  /** The ground truth that prediction `i` claims when its turn comes. */
  function ClaimOf(preds: seq<Prediction>, gts: seq<GroundTruth>, m: Metric, i: nat): (claim: Option<nat>)
    requires i < |preds|
    ensures claim.Some? ==> claim.value < |gts|
  {
    BestGt(preds[i], gts, Assign(preds[..i], gts, m), m, |gts|)
  }

  function PredRecords(preds: seq<Prediction>, gts: seq<GroundTruth>, m: Metric): (r: seq<PredRecord>)
    ensures |r| == |preds|
  {
    if preds == [] then [] else
    var n := |preds| - 1;
    PredRecords(preds[..n], gts, m) + [PredRecord(preds[n].score, ClaimOf(preds, gts, m, n).Some?)]
  }

  function RecordOf(preds: seq<Prediction>, g: GroundTruth, claim: Option<nat>): GtRecord
    requires claim.Some? ==> claim.value < |preds|
  {
    match claim
    case None => GtRecord(false, -1.0, g.occlusion)
    case Some(i) => GtRecord(true, preds[i].score, g.occlusion)
  }

  function GtRecords(preds: seq<Prediction>, gts: seq<GroundTruth>, m: Metric): (r: seq<GtRecord>)
    ensures |r| == |gts|
  {
    ClaimsInRange(preds, gts, m);
    seq(|gts|, j requires 0 <= j < |gts| => RecordOf(preds, gts[j], Assign(preds, gts, m)[j]))
  }

  lemma {:induction false} ClaimsInRange(preds: seq<Prediction>, gts: seq<GroundTruth>, m: Metric)
    ensures forall j :: 0 <= j < |gts| && Assign(preds, gts, m)[j].Some? ==>
              Assign(preds, gts, m)[j].value < |preds|
  {
    if preds != [] {
      ClaimsInRange(preds[..|preds| - 1], gts, m);
    }
  }

  // ------------------------------------------------------------- one to one

  /** A ground truth records exactly the prediction that claimed it: the two stored
      tables are two views of one one-to-one relation. */
  lemma {:induction false} AssignExact(preds: seq<Prediction>, gts: seq<GroundTruth>, m: Metric, i: nat, j: nat)
    requires j < |gts|
    ensures Assign(preds, gts, m)[j] == Some(i) <==>
            i < |preds| && ClaimOf(preds, gts, m, i) == Some(j)
  {
    if preds != [] {
      var n := |preds| - 1;
      AssignExact(preds[..n], gts, m, i, j);
      if i < n {
        assert preds[..n][..i] == preds[..i];
      }
    }
  }

  lemma ClaimedEarlier(preds: seq<Prediction>, gts: seq<GroundTruth>, m: Metric, k: nat, j: nat)
    requires k <= |preds| && j < |gts|
    ensures Assign(preds[..k], gts, m)[j] ==
            (match Assign(preds, gts, m)[j]
             case Some(i) => if i < k then Some(i) else None
             case None => None)
  {
    ClaimsInRange(preds[..k], gts, m);
    ClaimsInRange(preds, gts, m);
    forall i: nat | i < k
      ensures Assign(preds[..k], gts, m)[j] == Some(i) <==> Assign(preds, gts, m)[j] == Some(i)
    {
      assert preds[..k][..i] == preds[..i];
      AssignExact(preds, gts, m, i, j);
      AssignExact(preds[..k], gts, m, i, j);
    }
  }

  // ----------------------------------------------------- stability, uniqueness

  /** A claim table pairs predictions and ground truths one to one, compatibly. */
  ghost predicate Pairing(preds: seq<Prediction>, gts: seq<GroundTruth>, m: Metric, c: Claims) {
    && |c| == |gts|
    && (forall j :: 0 <= j < |c| && c[j].Some? ==>
          && c[j].value < |preds|
          && m.overlap(preds[c[j].value].box, gts[j].box) >= m.threshold
          && m.overlap(preds[c[j].value].box, gts[j].box) > 0.0)
    && (forall j, k :: 0 <= j < k < |c| && c[j].Some? ==> c[j] != c[k])
  }

  /** Prediction `i` holds `j`, or holds something it prefers to `j`. */
  ghost predicate Content(preds: seq<Prediction>, gts: seq<GroundTruth>, m: Metric, c: Claims, i: nat, j: nat)
    requires |c| == |gts| && i < |preds| && j < |gts|
  {
    exists k :: 0 <= k < |gts| && c[k] == Some(i) && (k == j || Prefers(preds[i], gts, m, k, j))
  }

  /** No compatible pair is left that would both gain: for each, the prediction already
      holds something at least as good, or the ground truth went to an earlier one. */
  ghost predicate Stable(preds: seq<Prediction>, gts: seq<GroundTruth>, m: Metric, c: Claims)
    requires |c| == |gts|
  {
    forall i, j :: 0 <= i < |preds| && 0 <= j < |gts| &&
                   m.overlap(preds[i].box, gts[j].box) >= m.threshold && m.overlap(preds[i].box, gts[j].box) > 0.0 ==>
      Content(preds, gts, m, c, i, j) || (c[j].Some? && c[j].value < i)
  }

  lemma GreedyIsPairing(preds: seq<Prediction>, gts: seq<GroundTruth>, m: Metric)
    ensures Pairing(preds, gts, m, Assign(preds, gts, m))
  {
    var c := Assign(preds, gts, m);
    ClaimsInRange(preds, gts, m);
    forall j | 0 <= j < |c| && c[j].Some?
      ensures ClaimOf(preds, gts, m, c[j].value) == Some(j)
    {
      AssignExact(preds, gts, m, c[j].value, j);
    }
  }

  /** When its turn comes, a prediction takes the best that is left: what it does not
      get was gone already. */
  lemma Settled(preds: seq<Prediction>, gts: seq<GroundTruth>, m: Metric, i: nat, j: nat)
    requires i < |preds| && j < |gts| && Compatible(preds[i], gts[j], m)
    ensures var mine, taker := ClaimOf(preds, gts, m, i), Assign(preds, gts, m)[j];
            || (mine.Some? && (mine.value == j || Prefers(preds[i], gts, m, mine.value, j)))
            || (taker.Some? && taker.value < i)
  {
    ClaimedEarlier(preds, gts, m, i, j);
    var before := Assign(preds[..i], gts, m);
    assert before[j].None? ==> Open(preds[i], gts, before, m, j);
  }

  lemma GreedyIsStable(preds: seq<Prediction>, gts: seq<GroundTruth>, m: Metric)
    ensures Stable(preds, gts, m, Assign(preds, gts, m))
  {
    var c := Assign(preds, gts, m);
    forall i, j | 0 <= i < |preds| && 0 <= j < |gts| && Compatible(preds[i], gts[j], m)
      ensures Content(preds, gts, m, c, i, j) || (c[j].Some? && c[j].value < i)
    {
      Settled(preds, gts, m, i, j);
      var mine := ClaimOf(preds, gts, m, i);
      if mine.Some? {
        AssignExact(preds, gts, m, i, mine.value);
      }
    }
  }

  /** The part of a claim table made by the first `k` predictions. */
  function Restrict(c: Claims, k: nat): (r: Claims)
    ensures |r| == |c|
  {
    seq(|c|, j requires 0 <= j < |c| => if c[j].Some? && c[j].value < k then c[j] else None)
  }

  /** Where a table agrees with greedy on the predictions before `i`, what is open to `i`
      is what the table leaves to it and to later ones. */
  lemma OpenAgrees(preds: seq<Prediction>, gts: seq<GroundTruth>, m: Metric, c: Claims, i: nat, j: nat)
    requires |c| == |gts| && i < |preds| && j < |gts|
    requires Restrict(c, i) == Assign(preds[..i], gts, m)
    ensures Open(preds[i], gts, Assign(preds[..i], gts, m), m, j) <==>
            Compatible(preds[i], gts[j], m) && !(c[j].Some? && c[j].value < i)
  {
    assert Assign(preds[..i], gts, m)[j] == Restrict(c, i)[j];
  }

  /** So a stable table gives prediction `i` exactly what greedy gives it. */
  lemma StableStep(preds: seq<Prediction>, gts: seq<GroundTruth>, m: Metric, c: Claims, i: nat, j: nat)
    requires Pairing(preds, gts, m, c) && Stable(preds, gts, m, c)
    requires i < |preds| && j < |gts|
    requires Restrict(c, i) == Assign(preds[..i], gts, m)
    ensures c[j] == Some(i) <==> ClaimOf(preds, gts, m, i) == Some(j)
  {
    var best := ClaimOf(preds, gts, m, i);
    OpenAgrees(preds, gts, m, c, i, j);
    if best.Some? {
      OpenAgrees(preds, gts, m, c, i, best.value);
      assert Content(preds, gts, m, c, i, best.value);
      var held :| 0 <= held < |gts| && c[held] == Some(i) &&
                  (held == best.value || Prefers(preds[i], gts, m, held, best.value));
      OpenAgrees(preds, gts, m, c, i, held);
      assert held == best.value;
    }
  }

  lemma {:induction false} StablePrefix(preds: seq<Prediction>, gts: seq<GroundTruth>, m: Metric, c: Claims, k: nat)
    requires Pairing(preds, gts, m, c) && Stable(preds, gts, m, c)
    requires k <= |preds|
    ensures Restrict(c, k) == Assign(preds[..k], gts, m)
  {
    if k > 0 {
      var i := k - 1;
      StablePrefix(preds, gts, m, c, i);
      assert preds[..k][..i] == preds[..i];
      forall j | 0 <= j < |gts|
        ensures Restrict(c, k)[j] == Assign(preds[..k], gts, m)[j]
      {
        StableStep(preds, gts, m, c, i, j);
        assert Assign(preds[..i], gts, m)[j] == Restrict(c, i)[j];
      }
    }
  }

  /** What the loop does, on the overlaps themselves: a claimed pair clears the threshold and
      overlaps, and among the ground truths that were left it overlaps best, the first of
      those on a tie. */
  lemma ClaimOverlaps(preds: seq<Prediction>, gts: seq<GroundTruth>, m: Metric, i: nat, j: nat)
    requires j < |gts| && Assign(preds, gts, m)[j] == Some(i)
    ensures i < |preds|
    ensures m.overlap(preds[i].box, gts[j].box) >= m.threshold && m.overlap(preds[i].box, gts[j].box) > 0.0
    ensures forall l :: 0 <= l < |gts| && l != j && (Assign(preds, gts, m)[l].Some? ==> Assign(preds, gts, m)[l].value > i) ==>
              && m.overlap(preds[i].box, gts[l].box) <= m.overlap(preds[i].box, gts[j].box)
              && (m.overlap(preds[i].box, gts[l].box) == m.overlap(preds[i].box, gts[j].box) ==> j < l)
  {
    AssignExact(preds, gts, m, i, j);
    var before := Assign(preds[..i], gts, m);
    forall l | 0 <= l < |gts| && l != j && (Assign(preds, gts, m)[l].Some? ==> Assign(preds, gts, m)[l].value > i)
      ensures m.overlap(preds[i].box, gts[l].box) <= m.overlap(preds[i].box, gts[j].box)
      ensures m.overlap(preds[i].box, gts[l].box) == m.overlap(preds[i].box, gts[j].box) ==> j < l
    {
      ClaimedEarlier(preds, gts, m, i, l);
      assert before[l].None?;
      assert Open(preds[i], gts, before, m, l) ==> Prefers(preds[i], gts, m, j, l);
    }
  }

  /** Nothing that could be matched is left over: of every pair that clears the threshold and
      overlaps, the prediction is stored as a true positive or the ground truth as matched. */
  lemma NothingLeftOver(preds: seq<Prediction>, gts: seq<GroundTruth>, m: Metric, i: nat, j: nat)
    requires i < |preds| && j < |gts|
    requires m.overlap(preds[i].box, gts[j].box) >= m.threshold && m.overlap(preds[i].box, gts[j].box) > 0.0
    ensures PredRecords(preds, gts, m)[i].isTp || GtRecords(preds, gts, m)[j].matched
  {
    Settled(preds, gts, m, i, j);
    PredRecordAt(preds, gts, m, i);
  }

  /** What is stored of a prediction: its score, and whether some ground truth records it. */
  lemma {:induction false} PredRecordAt(preds: seq<Prediction>, gts: seq<GroundTruth>, m: Metric, i: nat)
    requires i < |preds|
    ensures PredRecords(preds, gts, m)[i] == PredRecord(preds[i].score, ClaimOf(preds, gts, m, i).Some?)
    ensures PredRecords(preds, gts, m)[i].isTp <==> exists j :: 0 <= j < |gts| && Assign(preds, gts, m)[j] == Some(i)
  {
    var n := |preds| - 1;
    if i < n {
      PredRecordAt(preds[..n], gts, m, i);
      assert preds[..n][..i] == preds[..i];
    }
    forall j: nat | j < |gts| ensures Assign(preds, gts, m)[j] == Some(i) <==> ClaimOf(preds, gts, m, i) == Some(j) {
      AssignExact(preds, gts, m, i, j);
    }
  }

  /** What is stored of a ground truth: whether a prediction claimed it, that prediction's
      score, or -1, and its own occlusion. */
  lemma GtRecordAt(preds: seq<Prediction>, gts: seq<GroundTruth>, m: Metric, j: nat)
    requires j < |gts|
    ensures var r, claim := GtRecords(preds, gts, m)[j], Assign(preds, gts, m)[j];
            && r.matched == claim.Some? && r.occlusion == gts[j].occlusion
            && (claim.Some? ==> claim.value < |preds| && r.score == preds[claim.value].score)
            && (claim.None? ==> r.score == -1.0)
  {
    ClaimsInRange(preds, gts, m);
  }

  /** Independent definition of the result: the greedy loop computes the one and only
      stable one-to-one pairing. */
  lemma GreedyIsTheStablePairing(preds: seq<Prediction>, gts: seq<GroundTruth>, m: Metric, c: Claims)
    ensures Pairing(preds, gts, m, c) && Stable(preds, gts, m, c) <==> c == Assign(preds, gts, m)
  {
    if Pairing(preds, gts, m, c) && Stable(preds, gts, m, c) {
      StablePrefix(preds, gts, m, c, |preds|);
      assert preds[..|preds|] == preds;
      assert Restrict(c, |preds|) == c;
    }
    if c == Assign(preds, gts, m) {
      GreedyIsPairing(preds, gts, m);
      GreedyIsStable(preds, gts, m);
    }
  }

  // ------------------------------------------------------- half of the optimum

  function IsTp(): PredRecord -> bool { (r: PredRecord) => r.isTp }

  function CountTp(records: seq<PredRecord>): nat {
    |Filter(records, IsTp())|
  }

  ghost function ClaimedGts(preds: seq<Prediction>, gts: seq<GroundTruth>, m: Metric): set<nat> {
    set j: nat | j < |gts| && Assign(preds, gts, m)[j].Some?
  }

  ghost function ClaimingPreds(preds: seq<Prediction>, gts: seq<GroundTruth>, m: Metric): set<nat> {
    set i: nat | i < |preds| && ClaimOf(preds, gts, m, i).Some?
  }

  lemma ClaimPrefix(preds: seq<Prediction>, gts: seq<GroundTruth>, m: Metric, n: nat, i: nat)
    requires i < n <= |preds|
    ensures ClaimOf(preds[..n], gts, m, i) == ClaimOf(preds, gts, m, i)
  {
    assert preds[..n][..i] == preds[..i];
  }

  lemma ClaimingPredsSnoc(preds: seq<Prediction>, gts: seq<GroundTruth>, m: Metric)
    requires preds != []
    ensures var n := |preds| - 1;
            |ClaimingPreds(preds, gts, m)| ==
            |ClaimingPreds(preds[..n], gts, m)| + if ClaimOf(preds, gts, m, n).Some? then 1 else 0
  {
    var n := |preds| - 1;
    forall i: nat | i < n ensures ClaimOf(preds[..n], gts, m, i) == ClaimOf(preds, gts, m, i) {
      ClaimPrefix(preds, gts, m, n, i);
    }
    var last := if ClaimOf(preds, gts, m, n).Some? then {n} else {};
    assert ClaimingPreds(preds, gts, m) == ClaimingPreds(preds[..n], gts, m) + last;
  }

  lemma {:induction false} TpAreClaimingPreds(preds: seq<Prediction>, gts: seq<GroundTruth>, m: Metric)
    ensures CountTp(PredRecords(preds, gts, m)) == |ClaimingPreds(preds, gts, m)|
  {
    if preds != [] {
      var n := |preds| - 1;
      TpAreClaimingPreds(preds[..n], gts, m);
      ClaimingPredsSnoc(preds, gts, m);
      var r := PredRecord(preds[n].score, ClaimOf(preds, gts, m, n).Some?);
      assert PredRecords(preds, gts, m) == PredRecords(preds[..n], gts, m) + [r];
      FilterSnoc(PredRecords(preds[..n], gts, m), r, IsTp());
    }
  }

  /** True positives counted over predictions and over ground truths are the same number. */
  lemma TpAreClaimedGts(preds: seq<Prediction>, gts: seq<GroundTruth>, m: Metric)
    ensures CountTp(PredRecords(preds, gts, m)) == |ClaimedGts(preds, gts, m)| <= |gts|
  {
    TpAreClaimingPreds(preds, gts, m);
    var c := Assign(preds, gts, m);
    var byGt, byPred := ClaimedGts(preds, gts, m), ClaimingPreds(preds, gts, m);
    ClaimsInRange(preds, gts, m);
    forall j | j in byGt ensures ClaimOf(preds, gts, m, c[j].value) == Some(j) {
      AssignExact(preds, gts, m, c[j].value, j);
    }
    InjectionBound(byGt, byPred, (j: nat) => if j < |c| && c[j].Some? then c[j].value else 0);
    var claim := (i: nat) => if i < |preds| && ClaimOf(preds, gts, m, i).Some? then ClaimOf(preds, gts, m, i).value else 0;
    forall i | i in byPred ensures claim(i) in byGt && c[claim(i)] == Some(i) {
      AssignExact(preds, gts, m, i, claim(i));
    }
    InjectionBound(byPred, byGt, claim);
    IndexBound(byGt, |gts|);
  }

  lemma {:induction false} IndexBound(s: set<nat>, n: nat)
    requires forall x :: x in s ==> x < n
    ensures |s| <= n
  {
    if n > 0 {
      IndexBound(s - {n - 1}, n - 1);
    } else {
      assert s == {};
    }
  }

  /** Greedy matching is maximal, so no set of one-to-one pairs whose overlaps meet the
      threshold is more than twice as large as the set of greedy's true positives. */
  lemma GreedyIsHalfOptimal(preds: seq<Prediction>, gts: seq<GroundTruth>, m: Metric, pairs: set<(nat, nat)>)
    requires forall q :: q in pairs ==>
               && q.0 < |preds| && q.1 < |gts|
               && m.overlap(preds[q.0].box, gts[q.1].box) >= m.threshold && m.overlap(preds[q.0].box, gts[q.1].box) > 0.0
    requires forall q, r :: q in pairs && r in pairs && (q.0 == r.0 || q.1 == r.1) ==> q == r
    ensures |pairs| <= 2 * CountTp(PredRecords(preds, gts, m))
  {
    TpAreClaimingPreds(preds, gts, m);
    TpAreClaimedGts(preds, gts, m);
    forall q | q in pairs
      ensures q.1 in ClaimedGts(preds, gts, m) || q.0 in ClaimingPreds(preds, gts, m)
    {
      Settled(preds, gts, m, q.0, q.1);
    }
    CoveredPairs(pairs, ClaimingPreds(preds, gts, m), ClaimedGts(preds, gts, m));
  }

  /** One-to-one pairs that each touch one of two sets are no more than their members. */
  lemma CoveredPairs(pairs: set<(nat, nat)>, firsts: set<nat>, seconds: set<nat>)
    requires forall q, r :: q in pairs && r in pairs && (q.0 == r.0 || q.1 == r.1) ==> q == r
    requires forall q :: q in pairs ==> q.1 in seconds || q.0 in firsts
    ensures |pairs| <= |firsts| + |seconds|
  {
    var a := set q | q in pairs && q.1 in seconds;
    var b := pairs - a;
    InjectionBound(a, seconds, (q: (nat, nat)) => q.1);
    InjectionBound(b, firsts, (q: (nat, nat)) => q.0);
    assert pairs == a + b;
  }

  // ----------------------------------------------- threshold now or match again

  function Above(t: real): Prediction -> bool { (p: Prediction) => p.score >= t }

  function RecordAbove(t: real): PredRecord -> bool { (r: PredRecord) => r.score >= t }

  function Score(): Prediction -> real { (p: Prediction) => p.score }

  predicate Recalled(r: GtRecord, t: real) {
    r.matched && r.score >= t
  }

  /** A stored ground-truth record as it looks at threshold `t`. */
  function Mask(r: GtRecord, t: real): GtRecord {
    if Recalled(r, t) then r else GtRecord(false, -1.0, r.occlusion)
  }

  lemma {:induction false} AllAboveKept(preds: seq<Prediction>, t: real)
    requires forall i :: 0 <= i < |preds| ==> preds[i].score >= t
    ensures Filter(preds, Above(t)) == preds
  {
    if preds != [] {
      AllAboveKept(preds[..|preds| - 1], t);
    }
  }

  /** On score-sorted predictions, filtering the stored prediction records gives the
      records that matching the filtered predictions would have stored. */
  lemma {:induction false} FilterThenMatch(preds: seq<Prediction>, gts: seq<GroundTruth>, m: Metric, t: real)
    requires SortedDesc(preds, Score())
    ensures PredRecords(Filter(preds, Above(t)), gts, m) == Filter(PredRecords(preds, gts, m), RecordAbove(t))
  {
    if preds != [] {
      var n := |preds| - 1;
      SortedPrefix(preds);
      FilterThenMatch(preds[..n], gts, m, t);
      var r := PredRecord(preds[n].score, ClaimOf(preds, gts, m, n).Some?);
      assert PredRecords(preds, gts, m) == PredRecords(preds[..n], gts, m) + [r];
      FilterSnoc(PredRecords(preds[..n], gts, m), r, RecordAbove(t));
      if preds[n].score >= t {
        AllAboveKept(preds, t);
        AllAboveKept(preds[..n], t);
      } else {
        assert Filter(preds, Above(t)) == Filter(preds[..n], Above(t));
      }
    }
  }

  lemma SortedPrefix(preds: seq<Prediction>)
    requires SortedDesc(preds, Score()) && preds != []
    ensures SortedDesc(preds[..|preds| - 1], Score())
    ensures forall i :: 0 <= i < |preds| ==> preds[i].score >= preds[|preds| - 1].score
  {
    forall i | 0 <= i < |preds| ensures preds[i].score >= preds[|preds| - 1].score {
      assert Score()(preds[i]) == preds[i].score && Score()(preds[|preds| - 1]) == preds[|preds| - 1].score;
    }
  }

  /** The same for the ground-truth records: the ones recalled at `t` are the ones matched
      when only predictions scoring at least `t` take part, with the same score. */
  lemma {:induction false} MaskIsRematch(preds: seq<Prediction>, gts: seq<GroundTruth>, m: Metric, t: real, j: nat)
    requires SortedDesc(preds, Score())
    requires j < |gts|
    ensures GtRecords(Filter(preds, Above(t)), gts, m)[j] == Mask(GtRecords(preds, gts, m)[j], t)
  {
    if preds != [] {
      var n := |preds| - 1;
      SortedPrefix(preds);
      ClaimsInRange(preds, gts, m);
      ClaimsInRange(preds[..n], gts, m);
      if preds[n].score >= t {
        AllAboveKept(preds, t);
      } else {
        MaskIsRematch(preds[..n], gts, m, t, j);
        assert Filter(preds, Above(t)) == Filter(preds[..n], Above(t));
        var before, after := Assign(preds[..n], gts, m)[j], Assign(preds, gts, m)[j];
        assert after == before || (before.None? && after == Some(n));
      }
    }
  }
}
