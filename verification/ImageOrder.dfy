/** When average precision depends on the order in which the images are fed
    (detector/eval/recall_eval.py, `add_image`, `average_precision`): an order of images is an
    order of the stored records in which the records of one image stay together. */
module ImageOrder {
  import opened Common
  import opened Geometry
  import opened Matching
  import opened EvalRecords
  import opened AveragePrecision
  import opened TieOrder

  // -------------------------------------------------------- one table, many orders

  lemma TableSnoc(images: seq<Image>, img: Image, c: string, m: Metric)
    ensures PredTable(images + [img], c, m) == PredTable(images, c, m) + ImagePreds(img, c, m)
    ensures GtCount(images + [img], c) == GtCount(images, c) + |ClassGts(img, c)|
  {
    assert (images + [img])[..|images|] == images;
  }

  function Copies(c: string, m: Metric, r: PredRecord): Image -> int {
    (img: Image) => multiset(ImagePreds(img, c, m))[r]
  }

  lemma {:induction false} TableIsSum(images: seq<Image>, c: string, m: Metric, r: PredRecord)
    ensures multiset(PredTable(images, c, m))[r] == Sum(images, Copies(c, m, r))
  {
    if images != [] {
      TableIsSum(images[..|images| - 1], c, m, r);
    }
  }

  /** The order of the images decides the order of the records, and nothing else. */
  lemma TablesPermute(a: seq<Image>, b: seq<Image>, c: string, m: Metric)
    requires multiset(a) == multiset(b)
    ensures multiset(PredTable(a, c, m)) == multiset(PredTable(b, c, m)) && GtCount(a, c) == GtCount(b, c)
  {
    CountsPermute(a, b, c, m, 0.0);
    forall r ensures multiset(PredTable(a, c, m))[r] == multiset(PredTable(b, c, m))[r] {
      TableIsSum(a, c, m, r);
      TableIsSum(b, c, m, r);
      SumPermute(a, b, Copies(c, m, r));
    }
  }

  /** `average_precision` of class `c` after the given images. */
  function ImageAp(images: seq<Image>, c: string, m: Metric): real
    requires GtCount(images, c) > 0
  {
    Ap(PredTable(images, c, m), GtCount(images, c))
  }

  /** Harmless ties: the order of the images does not show. */
  lemma ImageOrderHarmless(a: seq<Image>, b: seq<Image>, c: string, m: Metric)
    requires multiset(a) == multiset(b) && GtCount(a, c) > 0 && TiesHarmless(PredTable(a, c, m))
    ensures GtCount(b, c) == GtCount(a, c) && ImageAp(b, c, m) == ImageAp(a, c, m)
  {
    TablesPermute(a, b, c, m);
    HarmlessAp(PredTable(a, c, m), PredTable(b, c, m), GtCount(a, c));
  }

  // ------------------------------------------------------------ one-sided images

  /** The image does not hold both a true and a false positive at scores where true and false
      positives meet. */
  ghost predicate OneSided(img: Image, table: seq<PredRecord>, c: string, m: Metric) {
    forall x, y :: x in ImagePreds(img, c, m) && y in ImagePreds(img, c, m) && x.isTp && !y.isTp ==>
                     !Mixed(table, x.score) || !Mixed(table, y.score)
  }

  ghost predicate AllOneSided(images: seq<Image>, c: string, m: Metric) {
    forall img :: img in images ==> OneSided(img, PredTable(images, c, m), c, m)
  }

  /** In particular an image with one record of the class. */
  lemma OneRecordIsOneSided(images: seq<Image>, c: string, m: Metric)
    requires forall img :: img in images ==> |ImagePreds(img, c, m)| <= 1
    ensures AllOneSided(images, c, m)
  {
    forall img | img in images ensures OneSided(img, PredTable(images, c, m), c, m) {
      var records := ImagePreds(img, c, m);
      forall x, y | x in records && y in records ensures x == y {
        var i :| 0 <= i < |records| && records[i] == x;
        var j :| 0 <= j < |records| && records[j] == y;
      }
    }
  }

  /** The image holds a true positive at a score where true and false positives meet. */
  predicate HitsMixed(img: Image, table: seq<PredRecord>, c: string, m: Metric) {
    exists x :: x in ImagePreds(img, c, m) && x.isTp && Mixed(table, x.score)
  }

  /** The images of the side that is to lead. */
  function Side(table: seq<PredRecord>, c: string, m: Metric, tp: bool): Image -> bool {
    (img: Image) => HitsMixed(img, table, c, m) == tp
  }

  /** The images that hold the hits of mixed ties first (`tp`), or last. */
  function LeadImages(images: seq<Image>, c: string, m: Metric, tp: bool): seq<Image> {
    var table := PredTable(images, c, m);
    Filter(images, Side(table, c, m, tp)) + Filter(images, Side(table, c, m, !tp))
  }

  lemma LeadImagesIsOrder(images: seq<Image>, c: string, m: Metric, tp: bool)
    ensures multiset(LeadImages(images, c, m, tp)) == multiset(images)
  {
    var table := PredTable(images, c, m);
    forall img ensures multiset(LeadImages(images, c, m, tp))[img] == multiset(images)[img] {
      FilterMultiset(images, Side(table, c, m, tp), img);
      FilterMultiset(images, Side(table, c, m, !tp), img);
    }
  }

  lemma {:induction false} RecordHasImage(images: seq<Image>, c: string, m: Metric, r: PredRecord) returns (img: Image)
    requires r in PredTable(images, c, m)
    ensures img in images && r in ImagePreds(img, c, m)
  {
    var n := |images| - 1;
    if r in ImagePreds(images[n], c, m) {
      img := images[n];
    } else {
      img := RecordHasImage(images[..n], c, m, r);
    }
  }

  /** A record at a mixed score comes from an image of its side. */
  lemma RecordOnSide(images: seq<Image>, c: string, m: Metric, tp: bool, r: PredRecord)
    requires AllOneSided(images, c, m)
    requires var table := PredTable(images, c, m);
             Mixed(table, r.score) && r in PredTable(Filter(images, Side(table, c, m, tp)), c, m)
    ensures r.isTp == tp
  {
    var table := PredTable(images, c, m);
    var img := RecordHasImage(Filter(images, Side(table, c, m, tp)), c, m, r);
    FilterMember(images, Side(table, c, m, tp), img);
    assert OneSided(img, table, c, m);
  }

  /** In that order of the images every mixed tie is led by the records of one kind. */
  lemma LeadImagesLead(images: seq<Image>, c: string, m: Metric, tp: bool)
    requires AllOneSided(images, c, m)
    ensures Leads(PredTable(LeadImages(images, c, m, tp), c, m), tp)
  {
    var table, order := PredTable(images, c, m), LeadImages(images, c, m, tp);
    var first, second := Filter(images, Side(table, c, m, tp)), Filter(images, Side(table, c, m, !tp));
    var a, b := PredTable(first, c, m), PredTable(second, c, m);
    TablesAppend(c, m);
    AppendsConcat(PredTableOf(c, m), (img: Image) => ImagePreds(img, c, m), first, second);
    LeadImagesIsOrder(images, c, m, tp);
    TablesPermute(order, images, c, m);
    var r := a + b;
    assert r == PredTable(order, c, m);
    forall i, j | 0 <= i < j < |r| && r[i].score == r[j].score && r[j].isTp == tp ensures r[i].isTp == tp {
      if r[i].isTp != tp {
        MeetIsMixed(r, table, i, j);
        if i < |a| {
          assert r[i] in a;
          RecordOnSide(images, c, m, tp, r[i]);
        } else {
          assert r[j] in b;
          RecordOnSide(images, c, m, !tp, r[j]);
        }
      }
    }
  }

  lemma MeetIsMixed(r: seq<PredRecord>, table: seq<PredRecord>, i: nat, j: nat)
    requires multiset(r) == multiset(table) && i < |r| && j < |r|
    requires r[i].score == r[j].score && r[i].isTp != r[j].isTp
    ensures Mixed(table, r[i].score)
  {
    var s := r[i].score;
    assert r[i] in r && r[j] in r;
    assert r[i] == PredRecord(s, r[i].isTp) && r[j] == PredRecord(s, r[j].isTp);
    SameElements(r, table, PredRecord(s, true));
    SameElements(r, table, PredRecord(s, false));
  }

  ghost predicate ApIgnoresImageOrder(images: seq<Image>, c: string, m: Metric)
    requires GtCount(images, c) > 0
  {
    forall order :: multiset(order) == multiset(images) ==>
                      GtCount(order, c) == GtCount(images, c) && ImageAp(order, c, m) == ImageAp(images, c, m)
  }

  /** For images that are one-sided, average precision is the same for every order in which
      they are fed if and only if every tie between a true and a false positive is harmless. */
  lemma ApIgnoresImageOrderExactlyWhen(images: seq<Image>, c: string, m: Metric)
    requires GtCount(images, c) > 0 && AllOneSided(images, c, m)
    ensures ApIgnoresImageOrder(images, c, m) <==> TiesHarmless(PredTable(images, c, m))
  {
    if TiesHarmless(PredTable(images, c, m)) {
      forall order | multiset(order) == multiset(images)
        ensures GtCount(order, c) == GtCount(images, c) && ImageAp(order, c, m) == ImageAp(images, c, m)
      {
        ImageOrderHarmless(images, order, c, m);
      }
    } else {
      ExposedImages(images, c, m);
    }
  }

  lemma ExposedImages(images: seq<Image>, c: string, m: Metric)
    requires GtCount(images, c) > 0 && AllOneSided(images, c, m) && !TiesHarmless(PredTable(images, c, m))
    ensures !ApIgnoresImageOrder(images, c, m)
  {
    var good, bad := LeadImages(images, c, m, true), LeadImages(images, c, m, false);
    LeadImagesIsOrder(images, c, m, true);
    LeadImagesIsOrder(images, c, m, false);
    LeadImagesLead(images, c, m, true);
    LeadImagesLead(images, c, m, false);
    TablesPermute(good, images, c, m);
    TablesPermute(bad, images, c, m);
    LedOrdersDiffer(PredTable(images, c, m), PredTable(good, c, m), PredTable(bad, c, m), GtCount(images, c));
    assert ImageAp(good, c, m) != ImageAp(bad, c, m);
  }

  // ------------------------------------------------------ two images, two orders

  const BOX: Box := Box(0.0, 0.0, 1.0, 1.0)

  /** An object that is found, and a false alarm in another image, both at score 0.5. */
  function Found(c: string): Image {
    Image([GroundTruth("1", c, BOX, None)], [Prediction("1", c, BOX, 0.5)])
  }

  function FalseAlarm(c: string): Image { Image([], [Prediction("2", c, BOX, 0.5)]) }

  lemma OneClass(img: Image, c: string)
    requires |img.preds| == 1 && img.preds[0].category == c
    requires |img.gts| <= 1 && (img.gts != [] ==> img.gts[0].category == c)
    ensures ClassPreds(img, c) == img.preds && ClassGts(img, c) == img.gts
  {
    FilterAll(img.preds, PredOf(c));
    FilterAll(img.gts, GtOf(c));
    SortSorted(img.preds, Score());
  }

  lemma FirstClaims(p: Prediction, g: GroundTruth, m: Metric)
    requires Compatible(p, g, m)
    ensures PredRecords([p], [g], m) == [PredRecord(p.score, true)] && Assign([p], [g], m) == [Some(0)]
  {
    var preds, gts := [p], [g];
    assert preds[..0] == [];
    assert PredRecords([], gts, m) == [];
    assert Open(p, gts, Assign([], gts, m), m, 0);
    assert BestGt(p, gts, Assign([], gts, m), m, 1) == Some(0);
    assert ClaimOf(preds, gts, m, 0) == Some(0);
  }

  lemma MatchedAlone(img: Image, c: string, m: Metric)
    requires |img.preds| == |img.gts| == 1 && img.preds[0].category == img.gts[0].category == c
    requires Compatible(img.preds[0], img.gts[0], m)
    ensures ImagePreds(img, c, m) == [PredRecord(img.preds[0].score, true)]
  {
    OneClass(img, c);
    assert img.preds == [img.preds[0]] && img.gts == [img.gts[0]];
    FirstClaims(img.preds[0], img.gts[0], m);
  }

  lemma UnmatchedAlone(img: Image, c: string, m: Metric)
    requires |img.preds| == 1 && img.preds[0].category == c && img.gts == []
    ensures ImagePreds(img, c, m) == [PredRecord(img.preds[0].score, false)]
  {
    OneClass(img, c);
    var preds := img.preds;
    assert preds[..0] == [];
    assert PredRecords([], [], m) == [];
  }

  lemma TableOfTwo(a: Image, b: Image, c: string, m: Metric)
    ensures PredTable([a, b], c, m) == ImagePreds(a, c, m) + ImagePreds(b, c, m)
    ensures GtCount([a, b], c) == |ClassGts(a, c)| + |ClassGts(b, c)|
  {
    TableSnoc([], a, c, m);
    TableSnoc([a], b, c, m);
    assert [] + [a] == [a] && [a] + [b] == [a, b];
  }

  lemma ApOfTwo(a: PredRecord, b: PredRecord)
    requires a.score == b.score
    ensures a.isTp && !b.isTp ==> Ap([a, b], 1) == 1.0
    ensures !a.isTp && b.isTp ==> Ap([a, b], 1) == 0.5
  {
    SortSorted([a, b], RecordScore());
    BestSumOfTwo([a, b]);
  }

  lemma TwoTables(c: string, m: Metric)
    requires m.overlap(BOX, BOX) >= m.threshold && m.overlap(BOX, BOX) > 0.0
    ensures var hit, miss := PredRecord(0.5, true), PredRecord(0.5, false);
            && PredTable([Found(c), FalseAlarm(c)], c, m) == [hit, miss]
            && PredTable([FalseAlarm(c), Found(c)], c, m) == [miss, hit]
  {
    MatchedAlone(Found(c), c, m);
    UnmatchedAlone(FalseAlarm(c), c, m);
    TwoRecords(Found(c), FalseAlarm(c), c, m, PredRecord(0.5, true), PredRecord(0.5, false));
    TwoRecords(FalseAlarm(c), Found(c), c, m, PredRecord(0.5, false), PredRecord(0.5, true));
  }

  lemma TwoRecords(one: Image, two: Image, c: string, m: Metric, a: PredRecord, b: PredRecord)
    requires ImagePreds(one, c, m) == [a] && ImagePreds(two, c, m) == [b]
    ensures PredTable([one, two], c, m) == [a, b]
  {
    TableOfTwo(one, two, c, m);
    assert [a] + [b] == [a, b];
  }

  lemma TwoCounts(c: string, m: Metric)
    ensures GtCount([Found(c), FalseAlarm(c)], c) == GtCount([FalseAlarm(c), Found(c)], c) == 1
  {
    TableOfTwo(Found(c), FalseAlarm(c), c, m);
    TableOfTwo(FalseAlarm(c), Found(c), c, m);
    OneClass(Found(c), c);
    OneClass(FalseAlarm(c), c);
  }

  /** The order of two images decides between an average precision of 1 and of 1/2. */
  lemma ApDependsOnImageOrder(c: string, m: Metric)
    requires m.overlap(BOX, BOX) >= m.threshold && m.overlap(BOX, BOX) > 0.0
    ensures var one, two := [Found(c), FalseAlarm(c)], [FalseAlarm(c), Found(c)];
            && multiset(one) == multiset(two) && GtCount(one, c) == GtCount(two, c) == 1
            && Ap(PredTable(one, c, m), 1) == 1.0 && Ap(PredTable(two, c, m), 1) == 0.5
  {
    TwoTables(c, m);
    TwoCounts(c, m);
    ApOfTwo(PredRecord(0.5, true), PredRecord(0.5, false));
    ApOfTwo(PredRecord(0.5, false), PredRecord(0.5, true));
  }

  /** So it does for the overlap the evaluation uses, at any threshold up to 1. */
  lemma ApDependsOnImageOrderForIou(c: string, threshold: real)
    requires threshold <= 1.0
    ensures var one, two := [Found(c), FalseAlarm(c)], [FalseAlarm(c), Found(c)];
            var m := Metric(Iou, threshold);
            Ap(PredTable(one, c, m), 1) == 1.0 && Ap(PredTable(two, c, m), 1) == 0.5
  {
    PerfectIouIsIdentity(BOX, BOX);
    ApDependsOnImageOrder(c, Metric(Iou, threshold));
  }

  lemma BestSumOfTwo(r: seq<PredRecord>)
    requires |r| == 2
    ensures r[0].isTp && !r[1].isTp ==> BestSum(r, 0) == 1.0
    ensures !r[0].isTp && r[1].isTp ==> BestSum(r, 0) == 0.5
  {
    assert TpUpTo(r, 1) == if r[0].isTp then 1 else 0;
    assert TpUpTo(r, 2) == TpUpTo(r, 1) + if r[1].isTp then 1 else 0;
    assert BestSum(r, 2) == 0.0;
    assert BestSum(r, 1) == if r[1].isTp then PrecisionAt(r, 2) else 0.0;
    var p := Precisions(r);
    assert p[1] == PrecisionAt(r, 1) && p[2] == PrecisionAt(r, 2);
    assert SuffixMax(p, 2) == p[2];
    assert SuffixMax(p, 1) == Larger(p[1], p[2]);
  }

  // ---------------------------------------------------- an image with both kinds

  /** An object that is found twice, at one score. */
  function FoundTwice(c: string): Image {
    var p := Prediction("1", c, BOX, 0.5);
    Image([GroundTruth("1", c, BOX, None)], [p, p])
  }

  lemma SecondMisses(p: Prediction, g: GroundTruth, m: Metric)
    requires Compatible(p, g, m)
    ensures PredRecords([p, p], [g], m) == [PredRecord(p.score, true), PredRecord(p.score, false)]
  {
    var preds, gts := [p, p], [g];
    FirstClaims(p, g, m);
    assert preds[..1] == [p];
    assert ClaimOf(preds, gts, m, 1) == BestGt(p, gts, [Some(0)], m, 1) == None;
  }

  lemma FoundTwiceRecords(c: string, m: Metric)
    requires m.overlap(BOX, BOX) >= m.threshold && m.overlap(BOX, BOX) > 0.0
    ensures PredTable([FoundTwice(c)], c, m) == [PredRecord(0.5, true), PredRecord(0.5, false)]
    ensures GtCount([FoundTwice(c)], c) == 1
  {
    var img := FoundTwice(c);
    FilterAll(img.preds, PredOf(c));
    FilterAll(img.gts, GtOf(c));
    SortSorted(img.preds, Score());
    SecondMisses(img.preds[0], img.gts[0], m);
    TableSnoc([], img, c, m);
    assert [] + [img] == [img];
  }

  lemma PairIsExposed()
    ensures !TiesHarmless([PredRecord(0.5, true), PredRecord(0.5, false)])
  {
    var hit, miss := PredRecord(0.5, true), PredRecord(0.5, false);
    var table := [hit, miss];
    assert [] + [hit] == [hit] && [hit] + [miss] == table;
    FilterSnoc([], hit, HitAbove(0.5));
    FilterSnoc([hit], miss, HitAbove(0.5));
    FilterSnoc([], hit, FalseAbove(0.5));
    FilterSnoc([hit], miss, FalseAbove(0.5));
    FilterSnoc([], hit, FalseOver(0.5));
    FilterSnoc([hit], miss, FalseOver(0.5));
    assert CutPrecision(table, 0.5) == 0.5 && TopPrecision(table, 0.5) == 1.0;
    assert hit in table && miss in table && Mixed(table, hit.score);
    assert !Shielded(table, hit.score);
  }

  lemma OneOrder<T>(x: T, order: seq<T>)
    requires multiset(order) == multiset([x])
    ensures order == [x]
  {
    SameLength(order, [x]);
    assert order == [order[0]];
    assert order[0] in multiset([x]);
  }

  /** An image that is not one-sided can keep an exposed tie from showing: a single image has
      one order only. */
  lemma ExposedWithinOneImage(c: string, m: Metric)
    requires m.overlap(BOX, BOX) >= m.threshold && m.overlap(BOX, BOX) > 0.0
    ensures var images := [FoundTwice(c)];
            && GtCount(images, c) == 1 && ApIgnoresImageOrder(images, c, m)
            && !TiesHarmless(PredTable(images, c, m)) && !AllOneSided(images, c, m)
  {
    var images := [FoundTwice(c)];
    FoundTwiceRecords(c, m);
    PairIsExposed();
    forall order | multiset(order) == multiset(images)
      ensures GtCount(order, c) == GtCount(images, c) && ImageAp(order, c, m) == ImageAp(images, c, m)
    {
      OneOrder(FoundTwice(c), order);
    }
    if AllOneSided(images, c, m) {
      ExposedImages(images, c, m);
    }
  }
}
