/** The evaluation object that is filled image by image (detector/eval/recall_eval.py,
    `DetectionEval`).  Each method is proved against the record tables of EvalRecords. */
module DetectionEvaluation {
  import opened Common
  import opened Geometry
  import opened Matching
  import opened EvalRecords
  import opened Occlusion
  import opened OperatingPoint

  /** Reading a `defaultdict(list)` that may lack the key. */
  function At<T>(table: map<string, seq<T>>, c: string): seq<T> {
    if c in table then table[c] else []
  }

  function CountOf(counts: map<string, nat>, c: string): nat {
    if c in counts then counts[c] else 0
  }

  /** Appending through a `defaultdict(list)`: no element, no new key. */
  function Extend<T>(table: map<string, seq<T>>, c: string, more: seq<T>): map<string, seq<T>> {
    if more == [] then table else table[c := At(table, c) + more]
  }

  lemma ExtendTwice<T>(table: map<string, seq<T>>, c: string, a: seq<T>, b: seq<T>)
    ensures Extend(Extend(table, c, a), c, b) == Extend(table, c, a + b)
  {
    if a != [] {
      assert (At(table, c) + a) + b == At(table, c) + (a + b);
    } else {
      assert a + b == b;
    }
    assert b == [] ==> a + b == a;
  }

  /** One more turn of the matching loop. */
  lemma OneMore(ranked: seq<Prediction>, gts: seq<GroundTruth>, m: Metric, i: nat)
    requires i < |ranked|
    ensures var before := Assign(ranked[..i], gts, m);
            var best := BestGt(ranked[i], gts, before, m, |gts|);
            && Assign(ranked[..i + 1], gts, m) == (if best.Some? then before[best.value := Some(i)] else before)
            && PredRecords(ranked[..i + 1], gts, m) ==
               PredRecords(ranked[..i], gts, m) + [PredRecord(ranked[i].score, best.Some?)]
  {
    assert ranked[..i + 1][..i] == ranked[..i];
  }

  // ------------------------------------------------- what the loops have done so far

  ghost predicate Grouped<T>(byLabel: map<string, seq<T>>, done: seq<T>, of: string -> (T -> bool)) {
    forall c :: At(byLabel, c) == Filter(done, of(c))
  }

  function GtsOf(): string -> (GroundTruth -> bool) { (c: string) => GtOf(c) }

  function PredsOf(): string -> (Prediction -> bool) { (c: string) => PredOf(c) }

  lemma GroupOne<T>(byLabel: map<string, seq<T>>, done: seq<T>, x: T, home: string, of: string -> (T -> bool))
    requires Grouped(byLabel, done, of)
    requires forall c :: of(c)(x) == (c == home)
    ensures Grouped(byLabel[home := At(byLabel, home) + [x]], done + [x], of)
  {
    var next := byLabel[home := At(byLabel, home) + [x]];
    forall c ensures At(next, c) == Filter(done + [x], of(c)) {
      FilterSnoc(done, x, of(c));
      assert At(byLabel, c) == Filter(done, of(c));
      assert of(c)(x) == (c == home);
    }
  }

  ghost predicate Counted(now: map<string, nat>, before: map<string, nat>, done: seq<GroundTruth>) {
    && (forall c :: CountOf(now, c) == CountOf(before, c) + |Filter(done, GtOf(c))|)
    && (forall c :: c in now ==> now[c] > 0 || (c in before && now[c] == before[c]))
  }

  lemma CountOne(now: map<string, nat>, before: map<string, nat>, done: seq<GroundTruth>, g: GroundTruth)
    requires Counted(now, before, done)
    ensures Counted(now[g.category := CountOf(now, g.category) + 1], before, done + [g])
  {
    var next := now[g.category := CountOf(now, g.category) + 1];
    forall c ensures CountOf(next, c) == CountOf(before, c) + |Filter(done + [g], GtOf(c))| {
      FilterSnoc(done, g, GtOf(c));
      assert CountOf(now, c) == CountOf(before, c) + |Filter(done, GtOf(c))|;
    }
  }

  /** The classes in `labels` have had their records appended, the others have not. */
  ghost predicate Appended<T>(now: map<string, seq<T>>, before: map<string, seq<T>>, more: string -> seq<T>,
                              labels: set<string>) {
    && (forall c :: At(now, c) == At(before, c) + if c in labels then more(c) else [])
    && (forall c :: c in now ==> now[c] != [] || (c in before && now[c] == before[c]))
  }

  lemma AppendOne<T>(now: map<string, seq<T>>, before: map<string, seq<T>>, more: string -> seq<T>,
                     labels: set<string>, home: string)
    requires Appended(now, before, more, labels) && home !in labels
    ensures Appended(Extend(now, home, more(home)), before, more, labels + {home})
  {
    var next := Extend(now, home, more(home));
    forall c ensures At(next, c) == At(before, c) + if c in labels + {home} then more(c) else [] {
      assert At(now, c) == At(before, c) + if c in labels then more(c) else [];
    }
  }

  function NewPreds(img: Image, m: Metric): string -> seq<PredRecord> { (c: string) => ImagePreds(img, c, m) }

  function NewGts(img: Image, m: Metric): string -> seq<GtRecord> { (c: string) => ImageGts(img, c, m) }

  lemma TablesAfter(images: seq<Image>, img: Image, c: string, m: Metric)
    ensures PredTable(images + [img], c, m) == PredTable(images, c, m) + ImagePreds(img, c, m)
    ensures GtTable(images + [img], c, m) == GtTable(images, c, m) + ImageGts(img, c, m)
    ensures GtCount(images + [img], c) == GtCount(images, c) + |ClassGts(img, c)|
  {
    assert (images + [img])[..|images|] == images;
  }

  /** Recalled and total ground truths of one bucket. */
  function Tally(table: seq<GtRecord>, k: string, t: real): (nat, nat) {
    (RecalledAt(Bucket(table, k), t), |Bucket(table, k)|)
  }

  function Seen(buckets: map<string, (nat, nat)>, k: string): (nat, nat) {
    if k in buckets then buckets[k] else (0, 0)
  }

  lemma TallySnoc(done: seq<GtRecord>, r: GtRecord, k: string, t: real)
    ensures Tally(done + [r], k, t) ==
            if k != BucketKey(r.occlusion) then Tally(done, k, t)
            else (Tally(done, k, t).0 + (if Recalled(r, t) then 1 else 0), Tally(done, k, t).1 + 1)
  {
    FilterSnoc(done, r, InBucket(k));
    FilterSnoc(Bucket(done, k), r, IsRecalled(t));
    assert k != BucketKey(r.occlusion) ==> Bucket(done + [r], k) == Bucket(done, k);
  }

  ghost predicate Tallied(buckets: map<string, (nat, nat)>, done: seq<GtRecord>, t: real) {
    && buckets.Keys == BucketKeys(done)
    && (forall k :: Seen(buckets, k) == Tally(done, k, t))
    && (forall k :: k in buckets ==> buckets[k].1 > 0)
  }

  lemma BucketKeysSnoc(done: seq<GtRecord>, r: GtRecord)
    ensures BucketKeys(done + [r]) == BucketKeys(done) + {BucketKey(r.occlusion)}
  {
    forall x | x in done ensures x in done + [r] {
    }
    assert r in done + [r];
  }

  lemma TalliedAt(buckets: map<string, (nat, nat)>, done: seq<GtRecord>, t: real, k: string)
    requires Tallied(buckets, done, t)
    ensures Seen(buckets, k) == Tally(done, k, t)
  {
  }

  lemma TallyOne(buckets: map<string, (nat, nat)>, next: map<string, (nat, nat)>, done: seq<GtRecord>, r: GtRecord, t: real)
    requires Tallied(buckets, done, t)
    requires var key := BucketKey(r.occlusion);
             next == buckets[key := (Seen(buckets, key).0 + (if Recalled(r, t) then 1 else 0), Seen(buckets, key).1 + 1)]
    ensures Tallied(next, done + [r], t)
  {
    var key := BucketKey(r.occlusion);
    BucketKeysSnoc(done, r);
    forall k ensures Seen(next, k) == Tally(done + [r], k, t) {
      TallySnoc(done, r, k, t);
      TalliedAt(buckets, done, t, k);
      assert Seen(next, k) == if k == key then next[key] else Seen(buckets, k);
    }
  }

  class DetectionEval {
    const metric: Metric
    var predRecords: map<string, seq<PredRecord>>
    var gtRecords: map<string, seq<GtRecord>>
    var nGt: map<string, nat>
    var nImages: nat
    ghost var images: seq<Image>

    ghost predicate Valid()
      reads this
    {
      && nImages == |images|
      && (forall c :: At(predRecords, c) == PredTable(images, c, metric))
      && (forall c :: At(gtRecords, c) == GtTable(images, c, metric))
      && (forall c :: CountOf(nGt, c) == GtCount(images, c))
      && (forall c :: c in predRecords ==> predRecords[c] != [])
      && (forall c :: c in nGt ==> nGt[c] > 0)
    }

    constructor (iouThresh: real)
      ensures Valid() && images == [] && metric == Metric(Iou, iouThresh)
    {
      metric := Metric(Iou, iouThresh);
      predRecords, gtRecords, nGt, nImages, images := map[], map[], map[], 0, [];
    }

    /** The inner loop: the best still unmatched ground truth for one prediction. */
    method BestUnmatched(p: Prediction, gts: seq<GroundTruth>, gtMatched: array<bool>, ghost claims: Claims)
      returns (best: Option<nat>)
      requires gtMatched.Length == |gts| == |claims|
      requires forall j :: 0 <= j < |gts| ==> gtMatched[j] == claims[j].Some?
      ensures best == BestGt(p, gts, claims, metric, |gts|)
    {
      var bestIou, bestJ: int := 0.0, -1;
      for j := 0 to |gts|
        invariant -1 <= bestJ < j
        invariant BestGt(p, gts, claims, metric, j) == if bestJ < 0 then None else Some(bestJ)
        invariant bestIou == if bestJ < 0 then 0.0 else metric.overlap(p.box, gts[bestJ].box)
        invariant bestIou >= 0.0
      {
        if !gtMatched[j] {
          var v := metric.overlap(p.box, gts[j].box);
          if v >= metric.threshold && v > bestIou {
            bestIou, bestJ := v, j;
          }
        }
      }
      best := if bestJ >= 0 then Some(bestJ) else None;
    }

    /** The two arrays of the matching loop show the claims made so far. */
    ghost predicate Shows(claims: Claims, ranked: seq<Prediction>, gtMatched: array<bool>, gtMatchScore: array<real>)
      reads gtMatched, gtMatchScore
    {
      && gtMatched.Length == gtMatchScore.Length == |claims|
      && forall j :: 0 <= j < |claims| ==>
           match claims[j]
           case None => !gtMatched[j] && gtMatchScore[j] == -1.0
           case Some(i) => gtMatched[j] && i < |ranked| && gtMatchScore[j] == ranked[i].score
    }

    method MatchRanked(c: string, gts: seq<GroundTruth>, ranked: seq<Prediction>,
                       gtMatched: array<bool>, gtMatchScore: array<real>)
      requires gtMatched.Length == gtMatchScore.Length == |gts|
      requires forall j :: 0 <= j < |gts| ==> !gtMatched[j] && gtMatchScore[j] == -1.0
      modifies this`predRecords, gtMatched, gtMatchScore
      ensures predRecords == Extend(old(predRecords), c, PredRecords(ranked, gts, metric))
      ensures Shows(Assign(ranked, gts, metric), ranked, gtMatched, gtMatchScore)
    {
      ghost var claims := Assign(ranked[..0], gts, metric);
      for i := 0 to |ranked|
        invariant claims == Assign(ranked[..i], gts, metric)
        invariant predRecords == Extend(old(predRecords), c, PredRecords(ranked[..i], gts, metric))
        invariant Shows(claims, ranked, gtMatched, gtMatchScore)
      {
        var p := ranked[i];
        var best := BestUnmatched(p, gts, gtMatched, claims);
        OneMore(ranked, gts, metric, i);
        if best.Some? {
          gtMatched[best.value] := true;
          gtMatchScore[best.value] := p.score;
        }
        ExtendTwice(old(predRecords), c, PredRecords(ranked[..i], gts, metric), [PredRecord(p.score, best.Some?)]);
        predRecords := Extend(predRecords, c, [PredRecord(p.score, best.Some?)]);
        claims := Assign(ranked[..i + 1], gts, metric);
      }
      assert ranked[..|ranked|] == ranked;
    }

    /** The last loop: one record per ground truth, in their order. */
    method StoreGts(c: string, gts: seq<GroundTruth>, gtMatched: array<bool>, gtMatchScore: array<real>,
                    ghost table: seq<GtRecord>)
      requires gtMatched.Length == gtMatchScore.Length == |gts| == |table|
      requires forall j :: 0 <= j < |gts| ==>
                 table[j] == GtRecord(gtMatched[j], gtMatchScore[j], gts[j].occlusion)
      modifies this`gtRecords
      ensures gtRecords == Extend(old(gtRecords), c, table)
    {
      for j := 0 to |gts|
        invariant gtRecords == Extend(old(gtRecords), c, table[..j])
      {
        ExtendTwice(old(gtRecords), c, table[..j], [table[j]]);
        gtRecords := Extend(gtRecords, c, [GtRecord(gtMatched[j], gtMatchScore[j], gts[j].occlusion)]);
        assert table[..j + 1] == table[..j] + [table[j]];
      }
      assert table[..|gts|] == table;
    }

    /** Match one class of one image and append the records. */
    method MatchLabel(c: string, gts: seq<GroundTruth>, preds: seq<Prediction>)
      modifies this`predRecords, this`gtRecords
      ensures predRecords == Extend(old(predRecords), c, PredRecords(SortDesc(preds, Score()), gts, metric))
      ensures gtRecords == Extend(old(gtRecords), c, GtRecords(SortDesc(preds, Score()), gts, metric))
    {
      var ranked := SortDesc(preds, Score());
      var gtMatched := new bool[|gts|](_ => false);
      var gtMatchScore := new real[|gts|](_ => -1.0);
      MatchRanked(c, gts, ranked, gtMatched, gtMatchScore);
      ghost var claims := Assign(ranked, gts, metric);
      ClaimsInRange(ranked, gts, metric);
      forall j | 0 <= j < |gts|
        ensures GtRecords(ranked, gts, metric)[j] == GtRecord(gtMatched[j], gtMatchScore[j], gts[j].occlusion)
      {
        assert GtRecords(ranked, gts, metric)[j] == RecordOf(ranked, gts[j], claims[j]);
      }
      StoreGts(c, gts, gtMatched, gtMatchScore, GtRecords(ranked, gts, metric));
    }

    /** Group the ground truth of an image by class, counting it as it goes. */
    method GroupGts(gts: seq<GroundTruth>) returns (byLabel: map<string, seq<GroundTruth>>)
      modifies this`nGt
      ensures Grouped(byLabel, gts, GtsOf())
      ensures Counted(nGt, old(nGt), gts)
    {
      byLabel := map[];
      for i := 0 to |gts|
        invariant Grouped(byLabel, gts[..i], GtsOf())
        invariant Counted(nGt, old(nGt), gts[..i])
      {
        var g := gts[i];
        GroupOne(byLabel, gts[..i], g, g.category, GtsOf());
        CountOne(nGt, old(nGt), gts[..i], g);
        byLabel := byLabel[g.category := At(byLabel, g.category) + [g]];
        nGt := nGt[g.category := CountOf(nGt, g.category) + 1];
        assert gts[..i + 1] == gts[..i] + [g];
      }
      assert gts[..|gts|] == gts;
    }

    method GroupPreds(preds: seq<Prediction>) returns (byLabel: map<string, seq<Prediction>>)
      ensures Grouped(byLabel, preds, PredsOf())
    {
      byLabel := map[];
      for i := 0 to |preds|
        invariant Grouped(byLabel, preds[..i], PredsOf())
      {
        var p := preds[i];
        GroupOne(byLabel, preds[..i], p, p.category, PredsOf());
        byLabel := byLabel[p.category := At(byLabel, p.category) + [p]];
        assert preds[..i + 1] == preds[..i] + [p];
      }
      assert preds[..|preds|] == preds;
    }

    method MatchOne(c: string, byGt: map<string, seq<GroundTruth>>, byPred: map<string, seq<Prediction>>, ghost img: Image)
      requires Grouped(byGt, img.gts, GtsOf()) && Grouped(byPred, img.preds, PredsOf())
      modifies this`predRecords, this`gtRecords
      ensures predRecords == Extend(old(predRecords), c, NewPreds(img, metric)(c))
      ensures gtRecords == Extend(old(gtRecords), c, NewGts(img, metric)(c))
    {
      assert At(byGt, c) == ClassGts(img, c);
      assert At(byPred, c) == Filter(img.preds, PredOf(c));
      MatchLabel(c, At(byGt, c), At(byPred, c));
    }

    /** Match every class of an image; the classes are visited in no particular order. */
    method MatchAll(byGt: map<string, seq<GroundTruth>>, byPred: map<string, seq<Prediction>>, ghost img: Image)
      returns (ghost labels: set<string>)
      requires Grouped(byGt, img.gts, GtsOf()) && Grouped(byPred, img.preds, PredsOf())
      modifies this`predRecords, this`gtRecords
      ensures labels == byGt.Keys + byPred.Keys
      ensures Appended(predRecords, old(predRecords), NewPreds(img, metric), labels)
      ensures Appended(gtRecords, old(gtRecords), NewGts(img, metric), labels)
    {
      var todo := byGt.Keys + byPred.Keys;
      labels := {};
      while todo != {}
        invariant labels !! todo && labels + todo == byGt.Keys + byPred.Keys
        invariant Appended(predRecords, old(predRecords), NewPreds(img, metric), labels)
        invariant Appended(gtRecords, old(gtRecords), NewGts(img, metric), labels)
        decreases todo
      {
        var c :| c in todo;
        AppendOne(predRecords, old(predRecords), NewPreds(img, metric), labels, c);
        AppendOne(gtRecords, old(gtRecords), NewGts(img, metric), labels, c);
        MatchOne(c, byGt, byPred, img);
        todo, labels := todo - {c}, labels + {c};
      }
    }

    /** Feed one image.  Afterwards every table is the one the images seen so far define. */
    method AddImage(gts: seq<GroundTruth>, preds: seq<Prediction>)
      requires Valid()
      modifies this
      ensures Valid()
      ensures images == old(images) + [Image(gts, preds)]
    {
      ghost var img := Image(gts, preds);
      nImages := nImages + 1;
      var byGt := GroupGts(gts);
      var byPred := GroupPreds(preds);
      ghost var labels := MatchAll(byGt, byPred, img);
      images := images + [img];
      forall c
        ensures At(predRecords, c) == PredTable(images, c, metric)
        ensures At(gtRecords, c) == GtTable(images, c, metric)
        ensures CountOf(nGt, c) == GtCount(images, c)
      {
        TablesAfter(old(images), img, c, metric);
        assert At(byGt, c) == ClassGts(img, c) && At(byPred, c) == Filter(img.preds, PredOf(c));
        assert c !in labels ==> ImagePreds(img, c, metric) == [] && ImageGts(img, c, metric) == [];
      }
    }

    // ---------------------------------------------------------------- queries

    function PointAt(c: string, threshold: real): ClassPoint
      reads this
    {
      Point(At(predRecords, c), CountOf(nGt, c), nImages, threshold)
    }

    function RecallAtFpPerImage(c: string, budget: real): ClassPoint
      reads this
    {
      RecallAtFp(At(predRecords, c), CountOf(nGt, c), nImages, budget)
    }

    /** Recall per occlusion bucket, counted in one pass over the ground-truth records. */
    method RecallByOcclusion(c: string, threshold: real) returns (recall: map<string, Num>)
      requires Valid()
      ensures recall.Keys == BucketKeys(GtTable(images, c, metric))
      ensures forall k :: k in recall ==>
                var bucket := Bucket(GtTable(images, c, metric), k);
                recall[k] == Quotient(RecalledAt(bucket, threshold), |bucket|) && recall[k].Val?
    {
      var table := At(gtRecords, c);
      var buckets: map<string, (nat, nat)> := map[];
      for i := 0 to |table|
        invariant Tallied(buckets, table[..i], threshold)
      {
        var r := table[i];
        var key := BucketKey(r.occlusion);
        var seen := Seen(buckets, key);
        ghost var before := buckets;
        buckets := buckets[key := (seen.0 + (if Recalled(r, threshold) then 1 else 0), seen.1 + 1)];
        TallyOne(before, buckets, table[..i], r, threshold);
        assert table[..i + 1] == table[..i] + [r];
      }
      assert table[..|table|] == table;
      recall := map k | k in buckets :: Quotient(buckets[k].0, buckets[k].1);
      assert forall k :: k in buckets ==> Seen(buckets, k) == Tally(table, k, threshold);
    }
  }

  /** The operating point a filled evaluation answers is its own point at the lowest feasible
      threshold of the sweep (0.99 when there is none), and that is the point of an evaluation
      of the same images that drops every prediction below that threshold before matching. */
  lemma RecallAtFpIsRematch(ev: DetectionEval, c: string, budget: real) returns (k: nat)
    requires ev.Valid()
    ensures k < SWEEP_SIZE && (Feasible(ev.PointAt(c, SweepThreshold(k)), budget) || k == SWEEP_SIZE - 1)
    ensures forall j: nat :: j < SWEEP_SIZE ==>
              (Feasible(ev.PointAt(c, SweepThreshold(j)), budget) <==>
               j >= k && Feasible(ev.PointAt(c, SweepThreshold(k)), budget))
    ensures var again := PruneAll(ev.images, SweepThreshold(k));
            ev.RecallAtFpPerImage(c, budget) ==
            Point(PredTable(again, c, ev.metric), GtCount(again, c), |again|, SweepThreshold(k))
  {
    var records, n := At(ev.predRecords, c), CountOf(ev.nGt, c);
    k := LowestFeasible(records, n, ev.nImages, budget);
    forall j: nat | j < SWEEP_SIZE ensures ev.PointAt(c, SweepThreshold(j)) == Sweep(records, n, ev.nImages)[j] {
    }
    assert records == PredTable(ev.images, c, ev.metric) && n == GtCount(ev.images, c);
    PointIsRematch(ev.images, c, ev.metric, SweepThreshold(k), SweepThreshold(k));
  }
}
