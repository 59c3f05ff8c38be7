/** What an evaluation run stores, and the threshold questions answered from it
    (detector/eval/recall_eval.py, `add_image`, `point_at`, `sweep`, `recall_at_fp_per_image`). */
module EvalRecords {
  import opened Common
  import opened Matching

  /** The ground truth and the predictions handed to one `add_image` call. */
  datatype Image = Image(gts: seq<GroundTruth>, preds: seq<Prediction>)

  datatype ClassPoint = ClassPoint(threshold: real, recall: Num, precision: Num, fpPerImage: Num,
                                   tp: nat, fp: nat, fn: int)

  // ----------------------------------------------------------- stored records

  function GtOf(c: string): GroundTruth -> bool { (g: GroundTruth) => g.category == c }

  function PredOf(c: string): Prediction -> bool { (p: Prediction) => p.category == c }

  function ClassGts(img: Image, c: string): seq<GroundTruth> { Filter(img.gts, GtOf(c)) }

  function ClassPreds(img: Image, c: string): seq<Prediction> {
    SortDesc(Filter(img.preds, PredOf(c)), Score())
  }

  function ImagePreds(img: Image, c: string, m: Metric): seq<PredRecord> {
    PredRecords(ClassPreds(img, c), ClassGts(img, c), m)
  }

  function ImageGts(img: Image, c: string, m: Metric): seq<GtRecord> {
    GtRecords(ClassPreds(img, c), ClassGts(img, c), m)
  }

  /** The prediction records of class `c` after the given images, in order. */
  function PredTable(images: seq<Image>, c: string, m: Metric): seq<PredRecord> {
    if images == [] then [] else
    PredTable(images[..|images| - 1], c, m) + ImagePreds(images[|images| - 1], c, m)
  }

  function GtTable(images: seq<Image>, c: string, m: Metric): seq<GtRecord> {
    if images == [] then [] else
    GtTable(images[..|images| - 1], c, m) + ImageGts(images[|images| - 1], c, m)
  }

  function GtCount(images: seq<Image>, c: string): nat {
    if images == [] then 0 else
    GtCount(images[..|images| - 1], c) + |ClassGts(images[|images| - 1], c)|
  }

  // ------------------------------------------------------------------ queries

  function HitAbove(t: real): PredRecord -> bool { (r: PredRecord) => r.score >= t && r.isTp }

  function FalseAbove(t: real): PredRecord -> bool { (r: PredRecord) => r.score >= t && !r.isTp }

  function TpAt(records: seq<PredRecord>, t: real): nat { |Filter(records, HitAbove(t))| }

  function FpAt(records: seq<PredRecord>, t: real): nat { |Filter(records, FalseAbove(t))| }

  function Point(records: seq<PredRecord>, nGt: nat, nImages: nat, t: real): ClassPoint {
    PointOf(TpAt(records, t), FpAt(records, t), nGt, nImages, t)
  }

  function PointOf(tp: nat, fp: nat, nGt: nat, nImages: nat, t: real): ClassPoint {
    ClassPoint(t, Quotient(tp, nGt), Quotient(tp, tp + fp), Quotient(fp, nImages), tp, fp, nGt - tp)
  }

  /** What a point says: the true and false positives among the records scoring at least `t`,
      the ground truths that are missed, and three quotients of these counts that are NaN when
      there is nothing to divide by. */
  lemma PointMeans(records: seq<PredRecord>, nGt: nat, nImages: nat, t: real)
    ensures var p := Point(records, nGt, nImages, t);
            var tp := |Filter(records, (r: PredRecord) => r.score >= t && r.isTp)|;
            var fp := |Filter(records, (r: PredRecord) => r.score >= t && !r.isTp)|;
            && p.threshold == t && p.tp == tp && p.fp == fp && p.fn == nGt - tp
            && p.recall == (if nGt == 0 then NaN else Val(tp as real / nGt as real))
            && p.precision == (if tp + fp == 0 then NaN else Val(tp as real / (tp + fp) as real))
            && p.fpPerImage == (if nImages == 0 then NaN else Val(fp as real / nImages as real))
  {
    SameFilter(records, HitAbove(t), (r: PredRecord) => r.score >= t && r.isTp);
    SameFilter(records, FalseAbove(t), (r: PredRecord) => r.score >= t && !r.isTp);
  }

  // ---------------------------------------------------- what is matched and stored

  /** The predictions of a class in an image, ranked: those of the class and no others, by
      falling score, equal scores in the order they were given. */
  lemma ClassPredsAre(img: Image, c: string, v: real)
    ensures var ranked := ClassPreds(img, c);
            && multiset(ranked) == multiset(Filter(img.preds, (p: Prediction) => p.category == c))
            && (forall i, j :: 0 <= i < j < |ranked| ==> ranked[i].score >= ranked[j].score)
            && Filter(ranked, (p: Prediction) => p.score == v)
               == Filter(img.preds, (p: Prediction) => p.category == c && p.score == v)
  {
    var given, same := Filter(img.preds, PredOf(c)), (p: Prediction) => p.score == v;
    SameFilter(img.preds, PredOf(c), (p: Prediction) => p.category == c);
    SortDescIsSort(given, Score());
    var ranked := ClassPreds(img, c);
    forall i, j | 0 <= i < j < |ranked| ensures ranked[i].score >= ranked[j].score {
      assert Score()(ranked[i]) >= Score()(ranked[j]);
    }
    SortFilter(given, Score(), same);
    forall p | p in Filter(given, same) ensures p.score == v {
      FilterMember(given, same, p);
    }
    SortSorted(Filter(given, same), Score());
    FilterBoth(img.preds, PredOf(c), same, (p: Prediction) => p.category == c && p.score == v);
  }

  function PredTableOf(c: string, m: Metric): seq<Image> -> seq<PredRecord> {
    (images: seq<Image>) => PredTable(images, c, m)
  }

  function GtTableOf(c: string, m: Metric): seq<Image> -> seq<GtRecord> {
    (images: seq<Image>) => GtTable(images, c, m)
  }

  lemma TablesAppend(c: string, m: Metric)
    ensures Appends(PredTableOf(c, m), (img: Image) => ImagePreds(img, c, m))
    ensures Appends(GtTableOf(c, m), (img: Image) => ImageGts(img, c, m))
  {
    forall s: seq<Image>, img: Image
      ensures PredTableOf(c, m)(s + [img]) == PredTableOf(c, m)(s) + ImagePreds(img, c, m)
      ensures GtTableOf(c, m)(s + [img]) == GtTableOf(c, m)(s) + ImageGts(img, c, m)
    {
      assert (s + [img])[..|s|] == s;
    }
  }

  /** The tables hold the records of every image, image after image. */
  lemma TablesInOrder(a: seq<Image>, img: Image, b: seq<Image>, c: string, m: Metric)
    ensures var gts := Filter(img.gts, (g: GroundTruth) => g.category == c);
            && PredTable(a + [img] + b, c, m)
               == PredTable(a, c, m) + PredRecords(ClassPreds(img, c), gts, m) + PredTable(b, c, m)
            && GtTable(a + [img] + b, c, m) == GtTable(a, c, m) + GtRecords(ClassPreds(img, c), gts, m) + GtTable(b, c, m)
    ensures PredTable([], c, m) == [] && GtTable([], c, m) == []
  {
    SameFilter(img.gts, GtOf(c), (g: GroundTruth) => g.category == c);
    TablesAppend(c, m);
    AppendsInPlace(PredTableOf(c, m), (img: Image) => ImagePreds(img, c, m), a, img, b);
    AppendsInPlace(GtTableOf(c, m), (img: Image) => ImageGts(img, c, m), a, img, b);
  }

  /** The count is that of the ground truths of the class, image by image. */
  lemma {:induction false} GtCountIsSum(images: seq<Image>, c: string)
    ensures GtCount(images, c)
            == Sum(images, (img: Image) => |Filter(img.gts, (g: GroundTruth) => g.category == c)|)
  {
    if images != [] {
      var n := |images| - 1;
      GtCountIsSum(images[..n], c);
      SameFilter(images[n].gts, GtOf(c), (g: GroundTruth) => g.category == c);
    }
  }

  // ---------------------------------------- thresholding is filter-and-rematch

  /** The same image with every prediction scoring below `t` left out. */
  function Prune(img: Image, t: real): Image {
    img.(preds := Filter(img.preds, Above(t)))
  }

  function PruneAll(images: seq<Image>, t: real): seq<Image> {
    if images == [] then [] else
    PruneAll(images[..|images| - 1], t) + [Prune(images[|images| - 1], t)]
  }

  lemma PrunedClass(img: Image, c: string, t: real)
    ensures ClassPreds(Prune(img, t), c) == Filter(ClassPreds(img, c), Above(t))
    ensures SortedDesc(ClassPreds(img, c), Score())
  {
    FilterCommutes(img.preds, Above(t), PredOf(c));
    SortFilter(Filter(img.preds, PredOf(c)), Score(), Above(t));
    SortDescIsSort(Filter(img.preds, PredOf(c)), Score());
  }

  lemma PrunedImage(img: Image, c: string, m: Metric, t: real)
    ensures ImagePreds(Prune(img, t), c, m) == Filter(ImagePreds(img, c, m), RecordAbove(t))
  {
    PrunedClass(img, c, t);
    FilterThenMatch(ClassPreds(img, c), ClassGts(img, c), m, t);
  }

  lemma PrunedImageGts(img: Image, c: string, m: Metric, t: real)
    ensures ImageGts(Prune(img, t), c, m) == MaskAll(ImageGts(img, c, m), t)
  {
    PrunedClass(img, c, t);
    forall j | 0 <= j < |ClassGts(img, c)|
      ensures ImageGts(Prune(img, t), c, m)[j] == Mask(ImageGts(img, c, m)[j], t)
    {
      MaskIsRematch(ClassPreds(img, c), ClassGts(img, c), m, t, j);
    }
  }

  function MaskAll(table: seq<GtRecord>, t: real): (r: seq<GtRecord>)
    ensures |r| == |table|
  {
    seq(|table|, j requires 0 <= j < |table| => Mask(table[j], t))
  }

  /** Matching once and filtering the records is re-running the whole evaluation on the
      predictions at or above the threshold, record for record. */
  lemma {:induction false} MatchOnceThenFilter(images: seq<Image>, c: string, m: Metric, t: real)
    ensures PredTable(PruneAll(images, t), c, m) == Filter(PredTable(images, c, m), RecordAbove(t))
    ensures GtTable(PruneAll(images, t), c, m) == MaskAll(GtTable(images, c, m), t)
  {
    if images != [] {
      var n := |images| - 1;
      var pruned := PruneAll(images[..n], t);
      assert PruneAll(images, t)[..n] == pruned by { PruneLength(images[..n], t); }
      PruneLength(images[..n], t);
      MatchOnceThenFilter(images[..n], c, m, t);
      PrunedImage(images[n], c, m, t);
      PrunedImageGts(images[n], c, m, t);
      FilterConcat(PredTable(images[..n], c, m), ImagePreds(images[n], c, m), RecordAbove(t));
    }
  }

  lemma {:induction false} PruneLength(images: seq<Image>, t: real)
    ensures |PruneAll(images, t)| == |images|
  {
    if images != [] {
      PruneLength(images[..|images| - 1], t);
    }
  }

  lemma {:induction false} PruneKeepsGts(images: seq<Image>, c: string, t: real)
    ensures GtCount(PruneAll(images, t), c) == GtCount(images, c)
  {
    if images != [] {
      var n := |images| - 1;
      PruneLength(images[..n], t);
      assert PruneAll(images, t)[..n] == PruneAll(images[..n], t);
      PruneKeepsGts(images[..n], c, t);
    }
  }

  /** Counting stored records at `t` gives the counts of an evaluation re-matched from
      scratch, asked for everything it has (any threshold `u` at or below `t`). */
  lemma PointIsRematch(images: seq<Image>, c: string, m: Metric, t: real, u: real)
    requires u <= t
    ensures var stored := Point(PredTable(images, c, m), GtCount(images, c), |images|, t);
            var again := PruneAll(images, t);
            var fresh' := Point(PredTable(again, c, m), GtCount(again, c), |again|, u);
            stored == fresh'.(threshold := t)
  {
    MatchOnceThenFilter(images, c, m, t);
    PruneLength(images, t);
    PruneKeepsGts(images, c, t);
    var records := PredTable(images, c, m);
    forall r | r in records ensures HitAbove(t)(r) == (RecordAbove(t)(r) && HitAbove(u)(r)) {
    }
    FilterBoth(records, RecordAbove(t), HitAbove(u), HitAbove(t));
    FilterBoth(records, RecordAbove(t), FalseAbove(u), FalseAbove(t));
  }

  // ----------------------------------------------------------- two-sided count

  function IsRecalled(t: real): GtRecord -> bool { (r: GtRecord) => Recalled(r, t) }

  function IsMatched(): GtRecord -> bool { (r: GtRecord) => r.matched }

  function RecalledAt(table: seq<GtRecord>, t: real): nat { |Filter(table, IsRecalled(t))| }

  lemma MatchedIsClaimed(preds: seq<Prediction>, gts: seq<GroundTruth>, m: Metric)
    ensures |Filter(GtRecords(preds, gts, m), IsMatched())| == CountTp(PredRecords(preds, gts, m))
  {
    var table := GtRecords(preds, gts, m);
    FilterCard(table, IsMatched());
    ClaimsInRange(preds, gts, m);
    assert Positions(table, IsMatched()) == ClaimedGts(preds, gts, m);
    TpAreClaimedGts(preds, gts, m);
  }

  lemma {:induction false} MaskedCount(table: seq<GtRecord>, t: real)
    ensures RecalledAt(table, t) == |Filter(MaskAll(table, t), IsMatched())|
  {
    if table != [] {
      var n := |table| - 1;
      MaskedCount(table[..n], t);
      assert MaskAll(table, t)[..n] == MaskAll(table[..n], t);
    }
  }

  lemma ImageTpIsRecalled(img: Image, c: string, m: Metric, t: real)
    ensures TpAt(ImagePreds(img, c, m), t) == RecalledAt(ImageGts(img, c, m), t)
  {
    PrunedImage(img, c, m, t);
    PrunedImageGts(img, c, m, t);
    FilterBoth(ImagePreds(img, c, m), RecordAbove(t), IsTp(), HitAbove(t));
    MatchedIsClaimed(ClassPreds(Prune(img, t), c), ClassGts(img, c), m);
    MaskedCount(ImageGts(img, c, m), t);
  }

  /** At every threshold the true positives counted over predictions are the ground
      truths recalled, so recall never exceeds 1 and `fn` is never negative. */
  lemma {:induction false} TpIsRecalled(images: seq<Image>, c: string, m: Metric, t: real)
    ensures TpAt(PredTable(images, c, m), t) == RecalledAt(GtTable(images, c, m), t)
    ensures |GtTable(images, c, m)| == GtCount(images, c)
    ensures TpAt(PredTable(images, c, m), t) <= GtCount(images, c)
  {
    if images != [] {
      var n := |images| - 1;
      TpIsRecalled(images[..n], c, m, t);
      ImageTpIsRecalled(images[n], c, m, t);
      FilterConcat(PredTable(images[..n], c, m), ImagePreds(images[n], c, m), HitAbove(t));
      FilterConcat(GtTable(images[..n], c, m), ImageGts(images[n], c, m), IsRecalled(t));
      FilterSplit(ImageGts(images[n], c, m), IsRecalled(t), (r: GtRecord) => !Recalled(r, t));
    }
  }

  /** No evaluation ever stores more true positives than ground truths. */
  lemma {:induction false} TpWithinGt(images: seq<Image>, c: string, m: Metric)
    ensures CountTp(PredTable(images, c, m)) <= GtCount(images, c)
  {
    if images != [] {
      var n := |images| - 1;
      TpWithinGt(images[..n], c, m);
      TpAreClaimedGts(ClassPreds(images[n], c), ClassGts(images[n], c), m);
      FilterConcat(PredTable(images[..n], c, m), ImagePreds(images[n], c, m), IsTp());
    }
  }

  // -------------------------------------------------------- order of the images

  function TpIn(c: string, m: Metric, t: real): Image -> int {
    (img: Image) => TpAt(ImagePreds(img, c, m), t)
  }

  function FpIn(c: string, m: Metric, t: real): Image -> int {
    (img: Image) => FpAt(ImagePreds(img, c, m), t)
  }

  function GtIn(c: string): Image -> int {
    (img: Image) => |ClassGts(img, c)|
  }

  /** Every count is a sum over the images. */
  lemma {:induction false} CountsAreSums(images: seq<Image>, c: string, m: Metric, t: real)
    ensures TpAt(PredTable(images, c, m), t) == Sum(images, TpIn(c, m, t))
    ensures FpAt(PredTable(images, c, m), t) == Sum(images, FpIn(c, m, t))
    ensures GtCount(images, c) == Sum(images, GtIn(c))
  {
    if images != [] {
      var n := |images| - 1;
      CountsAreSums(images[..n], c, m, t);
      FilterConcat(PredTable(images[..n], c, m), ImagePreds(images[n], c, m), HitAbove(t));
      FilterConcat(PredTable(images[..n], c, m), ImagePreds(images[n], c, m), FalseAbove(t));
    }
  }

  lemma CountsPermute(a: seq<Image>, b: seq<Image>, c: string, m: Metric, t: real)
    requires multiset(a) == multiset(b)
    ensures TpAt(PredTable(a, c, m), t) == TpAt(PredTable(b, c, m), t)
    ensures FpAt(PredTable(a, c, m), t) == FpAt(PredTable(b, c, m), t)
    ensures GtCount(a, c) == GtCount(b, c)
  {
    CountsAreSums(a, c, m, t);
    CountsAreSums(b, c, m, t);
    SumPermute(a, b, TpIn(c, m, t));
    SumPermute(a, b, FpIn(c, m, t));
    SumPermute(a, b, GtIn(c));
  }

  /** Every answer of `point_at` is the same for every order of the images. */
  lemma OrderIrrelevant(a: seq<Image>, b: seq<Image>, c: string, m: Metric, t: real)
    requires multiset(a) == multiset(b)
    ensures Point(PredTable(a, c, m), GtCount(a, c), |a|, t) == Point(PredTable(b, c, m), GtCount(b, c), |b|, t)
  {
    CountsPermute(a, b, c, m, t);
    SameLength(a, b);
  }
}
