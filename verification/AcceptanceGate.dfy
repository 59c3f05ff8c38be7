/** The ship / no-ship gate: an optimised model against its baseline
    (detector/eval/accuracy_delta.py, `gt_fingerprint`, `_eval_of`, `compare`). */
module AcceptanceGate {
  import opened Common
  import opened Geometry
  import opened Matching
  import opened EvalRecords
  import opened DetectionEvaluation

  /** Ground truth and one model's predictions over a held-out split. */
  datatype Bundle = Bundle(groundTruth: seq<GroundTruth>, predictions: seq<Prediction>)

  const MIN_PRIMARY_GT: nat := 30

  predicate IsPrimary(c: string) { c == "firearm" || c == "bladed_weapon" }

  function DeployThreshold(c: string): real {
    if c == "firearm" || c == "bladed_weapon" then 0.20
    else if c == "metallic_anomaly" then 0.35
    else if c == "unknown" then 0.40
    else 0.30
  }

  // -------------------------------------------------------------- fingerprint

  /** A ground truth with its box rounded to tenths and its missing tag filled in. */
  datatype Canonical = Canonical(imageId: string, category: string, x: int, y: int, w: int, h: int, occlusion: string)

  /** Tenths nearest to `v`, halves to the even one. */
  function Tenths(v: real): int {
    var scaled := v * 10.0;
    var low := scaled.Floor;
    var rest := scaled - low as real;
    if rest < 0.5 || (rest == 0.5 && low % 2 == 0) then low else low + 1
  }

  /** No integer is nearer to ten times `v`, and of two that are equally near it is the even one. */
  lemma TenthsIsNearest(v: real)
    ensures -0.5 <= v * 10.0 - Tenths(v) as real <= 0.5
    ensures v * 10.0 - Tenths(v) as real in {-0.5, 0.5} ==> Tenths(v) % 2 == 0
  {
  }

  function Canon(g: GroundTruth): Canonical {
    Canonical(g.imageId, g.category, Tenths(g.box.x), Tenths(g.box.y), Tenths(g.box.w), Tenths(g.box.h),
              if g.occlusion.None? || g.occlusion.value == "" then "all" else g.occlusion.value)
  }

  function CanonFn(): GroundTruth -> Canonical { (g: GroundTruth) => Canon(g) }

  function CanonAll(gts: seq<GroundTruth>): seq<Canonical> { Map(gts, CanonFn()) }

  /** The hash of the sorted canonical list stands for the list up to order. */
  function Fingerprint(gts: seq<GroundTruth>): multiset<Canonical> { multiset(CanonAll(gts)) }

  /** The ground truth is of this image and class, its box lies here in tenths, and this is its
      tag; no tag and an empty one count as "all". */
  function LooksLike(k: Canonical): GroundTruth -> bool {
    (g: GroundTruth) =>
      && g.imageId == k.imageId && g.category == k.category
      && Tenths(g.box.x) == k.x && Tenths(g.box.y) == k.y && Tenths(g.box.w) == k.w && Tenths(g.box.h) == k.h
      && (if g.occlusion == None || g.occlusion == Some("") then k.occlusion == "all" else g.occlusion == Some(k.occlusion))
  }

  lemma {:induction false} FingerprintCounts(gts: seq<GroundTruth>, k: Canonical)
    ensures Fingerprint(gts)[k] == |Filter(gts, LooksLike(k))|
  {
    if gts != [] {
      var front, last := gts[..|gts| - 1], gts[|gts| - 1];
      FingerprintCounts(front, k);
      MapSnoc(front, last, CanonFn());
      assert front + [last] == gts;
      assert CanonAll(gts) == CanonAll(front) + [Canon(last)];
      assert LooksLike(k)(last) <==> Canon(last) == k;
    }
  }

  /** Two held-out sets count as the same exactly when, for every image, class, box in tenths
      and occlusion tag, they have equally many ground truths that look so. */
  lemma SameFingerprintExactly(a: seq<GroundTruth>, b: seq<GroundTruth>)
    ensures Fingerprint(a) == Fingerprint(b) <==> forall k :: |Filter(a, LooksLike(k))| == |Filter(b, LooksLike(k))|
  {
    forall k
      ensures Fingerprint(a)[k] == |Filter(a, LooksLike(k))| && Fingerprint(b)[k] == |Filter(b, LooksLike(k))|
    {
      FingerprintCounts(a, k);
      FingerprintCounts(b, k);
    }
  }

  function CanonOf(c: string): Canonical -> bool { (k: Canonical) => k.category == c }

  lemma {:induction false} CanonKeepsClass(gts: seq<GroundTruth>, c: string)
    ensures |Filter(gts, GtOf(c))| == |Filter(CanonAll(gts), CanonOf(c))|
  {
    if gts != [] {
      CanonKeepsClass(gts[..|gts| - 1], c);
    }
  }

  /** The same fingerprint means the same number of ground truths of every class. */
  lemma SameFingerprintSameCount(a: seq<GroundTruth>, b: seq<GroundTruth>, c: string)
    requires Fingerprint(a) == Fingerprint(b)
    ensures |Filter(a, GtOf(c))| == |Filter(b, GtOf(c))|
  {
    CanonKeepsClass(a, c);
    CanonKeepsClass(b, c);
    FilterPermute(CanonAll(a), CanonAll(b), CanonOf(c));
  }

  // ------------------------------------------------------- grouping by image

  function GtIn(id: string): GroundTruth -> bool { (g: GroundTruth) => g.imageId == id }

  function PredIn(id: string): Prediction -> bool { (p: Prediction) => p.imageId == id }

  function ImageIds(b: Bundle): set<string> {
    (set g | g in b.groundTruth :: g.imageId) + (set p | p in b.predictions :: p.imageId)
  }

  function ImageOf(b: Bundle, id: string): Image {
    Image(Filter(b.groundTruth, GtIn(id)), Filter(b.predictions, PredIn(id)))
  }

  function ImageFn(b: Bundle): string -> Image { (id: string) => ImageOf(b, id) }

  function ImagesIn(b: Bundle, order: seq<string>): seq<Image> { Map(order, ImageFn(b)) }

  /** `order` visits every image id once. */
  ghost predicate Visits(order: seq<string>, ids: set<string>) {
    && (forall id :: id in order <==> id in ids)
    && (forall i, j :: 0 <= i < j < |order| ==> order[i] != order[j])
  }

  lemma {:induction false} VisitsOnce(order: seq<string>, ids: set<string>)
    requires Visits(order, ids)
    ensures multiset(order) == multiset(ids)
  {
    if order == [] {
      assert ids == {};
    } else {
      var n := |order| - 1;
      assert order == order[..n] + [order[n]];
      VisitsOnce(order[..n], ids - {order[n]});
    }
  }

  function PointIn(b: Bundle, order: seq<string>, m: Metric, c: string, t: real): ClassPoint {
    var images := ImagesIn(b, order);
    Point(PredTable(images, c, m), GtCount(images, c), |images|, t)
  }

  /** The answers about a bundle do not depend on the order in which its images are visited. */
  lemma VisitingOrderIrrelevant(b: Bundle, x: seq<string>, y: seq<string>, m: Metric, c: string, t: real)
    requires Visits(x, ImageIds(b)) && Visits(y, ImageIds(b))
    ensures PointIn(b, x, m, c, t) == PointIn(b, y, m, c, t)
  {
    VisitsOnce(x, ImageIds(b));
    VisitsOnce(y, ImageIds(b));
    MapPermute(x, y, ImageFn(b));
    OrderIrrelevant(ImagesIn(b, x), ImagesIn(b, y), c, m, t);
  }

  // -------------------------------------------- nothing is lost by the grouping

  /** Items accepted by `keep` that carry image id `id`. */
  function OnImage<T>(idOf: T -> string, keep: T -> bool, id: string): T -> bool {
    (x: T) => idOf(x) == id && keep(x)
  }

  function OnListed<T>(idOf: T -> string, keep: T -> bool, order: seq<string>): T -> bool {
    (x: T) => idOf(x) in order && keep(x)
  }

  function PerImage<T>(items: seq<T>, idOf: T -> string, keep: T -> bool): string -> int {
    (id: string) => |Filter(items, OnImage(idOf, keep, id))|
  }

  lemma {:induction false} ListedCount<T>(items: seq<T>, idOf: T -> string, keep: T -> bool, order: seq<string>)
    requires forall i, j :: 0 <= i < j < |order| ==> order[i] != order[j]
    ensures Sum(order, PerImage(items, idOf, keep)) == |Filter(items, OnListed(idOf, keep, order))|
  {
    if order == [] {
      FilterDisjoint(items, OnListed(idOf, keep, []), OnListed(idOf, keep, []), OnListed(idOf, keep, []));
    } else {
      var n := |order| - 1;
      ListedCount(items, idOf, keep, order[..n]);
      assert order == order[..n] + [order[n]];
      FilterDisjoint(items, OnListed(idOf, keep, order[..n]), OnImage(idOf, keep, order[n]), OnListed(idOf, keep, order));
    }
  }

  /** Counted image by image over a list that covers the ids, every item counts once. */
  lemma GroupedCount<T>(items: seq<T>, idOf: T -> string, keep: T -> bool, order: seq<string>)
    requires forall i, j :: 0 <= i < j < |order| ==> order[i] != order[j]
    requires forall x :: x in items ==> idOf(x) in order
    ensures Sum(order, PerImage(items, idOf, keep)) == |Filter(items, keep)|
  {
    ListedCount(items, idOf, keep, order);
    FilterAll(items, Listed(idOf, order));
    FilterBoth(items, Listed(idOf, order), keep, OnListed(idOf, keep, order));
  }

  function Listed<T>(idOf: T -> string, order: seq<string>): T -> bool { (x: T) => idOf(x) in order }

  function GtId(): GroundTruth -> string { (g: GroundTruth) => g.imageId }

  function PredId(): Prediction -> string { (p: Prediction) => p.imageId }

  lemma {:induction false} TableSizes(b: Bundle, order: seq<string>, m: Metric, c: string)
    ensures GtCount(ImagesIn(b, order), c) == Sum(order, PerImage(b.groundTruth, GtId(), GtOf(c)))
    ensures |PredTable(ImagesIn(b, order), c, m)| == Sum(order, PerImage(b.predictions, PredId(), PredOf(c)))
  {
    if order != [] {
      var n := |order| - 1;
      TableSizes(b, order[..n], m, c);
      FilterBoth(b.groundTruth, GtIn(order[n]), GtOf(c), OnImage(GtId(), GtOf(c), order[n]));
      FilterBoth(b.predictions, PredIn(order[n]), PredOf(c), OnImage(PredId(), PredOf(c), order[n]));
      SortDescIsSort(Filter(ImageOf(b, order[n]).preds, PredOf(c)), Score());
    }
  }

  /** Grouping by image loses nothing: a class has as many ground truths and stored
      prediction records in the evaluation as the bundle has of that class. */
  lemma GroupingKeepsAll(b: Bundle, order: seq<string>, m: Metric, c: string)
    requires Visits(order, ImageIds(b))
    ensures GtCount(ImagesIn(b, order), c) == |Filter(b.groundTruth, GtOf(c))|
    ensures |PredTable(ImagesIn(b, order), c, m)| == |Filter(b.predictions, PredOf(c))|
  {
    TableSizes(b, order, m, c);
    forall g | g in b.groundTruth ensures GtId()(g) in order {
      assert g.imageId in ImageIds(b);
    }
    forall p | p in b.predictions ensures PredId()(p) in order {
      assert p.imageId in ImageIds(b);
    }
    GroupedCount(b.groundTruth, GtId(), GtOf(c), order);
    GroupedCount(b.predictions, PredId(), PredOf(c), order);
  }

  // ------------------------------------------------------------------ the gate

  datatype ClassDelta = ClassDelta(nGt: int, threshold: real, isPrimary: bool, base: ClassPoint, cand: ClassPoint,
                                   dRecall: real, gatePass: bool, sufficientN: bool)

  datatype Report = Report(classes: map<string, ClassDelta>, overallPass: bool)

  datatype Outcome = Mismatch | Compared(report: Report)

  /** NaN counts as 0 in the delta. */
  function NanSafe(n: Num): real { if n.Val? then n.v else 0.0 }

  function DeltaOf(c: string, base: ClassPoint, cand: ClassPoint, tolerance: real): ClassDelta {
    var d := NanSafe(cand.recall) - NanSafe(base.recall);
    var n := base.tp + base.fn;
    var enough := !IsPrimary(c) || n >= MIN_PRIMARY_GT;
    ClassDelta(n, DeployThreshold(c), IsPrimary(c), base, cand, d,
               !IsPrimary(c) || (d >= -tolerance && enough), enough)
  }

  ghost function SomeOrder(ids: set<string>): (order: seq<string>)
    ensures Visits(order, ids)
  {
    if ids == {} then [] else
    var id :| id in ids;
    SomeOrder(ids - {id}) + [id]
  }

  /** The point of a class at its deploy threshold; by VisitingOrderIrrelevant the order is immaterial. */
  ghost function DeployPoint(b: Bundle, m: Metric, c: string): ClassPoint {
    PointIn(b, SomeOrder(ImageIds(b)), m, c, DeployThreshold(c))
  }

  ghost function Verdict(base: Bundle, cand: Bundle, m: Metric, tolerance: real, c: string): ClassDelta {
    DeltaOf(c, DeployPoint(base, m, c), DeployPoint(cand, m, c), tolerance)
  }

  /** The classes an evaluation of the bundle knows about. */
  function BundleClasses(b: Bundle): set<string> {
    (set g | g in b.groundTruth :: g.category) + (set p | p in b.predictions :: p.category)
  }

  /** The candidate ships: same held-out set, and no primary class blocks. */
  ghost predicate Ships(base: Bundle, cand: Bundle, m: Metric, tolerance: real) {
    && Fingerprint(base.groundTruth) == Fingerprint(cand.groundTruth)
    && forall c :: c in BundleClasses(base) + BundleClasses(cand) ==>
         Verdict(base, cand, m, tolerance, c).gatePass
  }

  lemma ClassPresent(b: Bundle, c: string)
    ensures |Filter(b.groundTruth, GtOf(c))| > 0 <==> exists g :: g in b.groundTruth && g.category == c
    ensures |Filter(b.predictions, PredOf(c))| > 0 <==> exists p :: p in b.predictions && p.category == c
  {
    if |Filter(b.groundTruth, GtOf(c))| > 0 {
      FilterMember(b.groundTruth, GtOf(c), Filter(b.groundTruth, GtOf(c))[0]);
    }
    if g :| g in b.groundTruth && g.category == c {
      FilterMember(b.groundTruth, GtOf(c), g);
    }
    if |Filter(b.predictions, PredOf(c))| > 0 {
      FilterMember(b.predictions, PredOf(c), Filter(b.predictions, PredOf(c))[0]);
    }
    if p :| p in b.predictions && p.category == c {
      FilterMember(b.predictions, PredOf(c), p);
    }
  }

  // ---------------------------------------------------------------- the program

  function GtsIn(): string -> (GroundTruth -> bool) { (id: string) => GtIn(id) }

  function PredsIn(): string -> (Prediction -> bool) { (id: string) => PredIn(id) }

  method GroupBy<T>(items: seq<T>, idOf: T -> string, ghost inImage: string -> (T -> bool))
    returns (byImage: map<string, seq<T>>)
    requires forall id, x :: inImage(id)(x) == (idOf(x) == id)
    ensures Grouped(byImage, items, inImage)
    ensures byImage.Keys == set x | x in items :: idOf(x)
  {
    byImage := map[];
    for i := 0 to |items|
      invariant Grouped(byImage, items[..i], inImage)
      invariant byImage.Keys == set x | x in items[..i] :: idOf(x)
    {
      var x := items[i];
      GroupOne(byImage, items[..i], x, idOf(x), inImage);
      byImage := byImage[idOf(x) := At(byImage, idOf(x)) + [x]];
      assert items[..i + 1] == items[..i] + [x];
    }
    assert items[..|items|] == items;
  }

  method Visit(ev: DetectionEval, ghost b: Bundle, id: string,
               byImg: map<string, seq<GroundTruth>>, prImg: map<string, seq<Prediction>>)
    requires ev.Valid()
    requires Grouped(byImg, b.groundTruth, GtsIn()) && Grouped(prImg, b.predictions, PredsIn())
    modifies ev
    ensures ev.Valid() && ev.images == old(ev.images) + [ImageOf(b, id)]
  {
    assert At(byImg, id) == Filter(b.groundTruth, GtIn(id));
    assert At(prImg, id) == Filter(b.predictions, PredIn(id));
    ev.AddImage(At(byImg, id), At(prImg, id));
  }

  lemma VisitMore(b: Bundle, order: seq<string>, seen: set<string>, id: string)
    requires Visits(order, seen) && id !in seen
    ensures Visits(order + [id], seen + {id})
    ensures ImagesIn(b, order + [id]) == ImagesIn(b, order) + [ImageOf(b, id)]
  {
    assert (order + [id])[..|order|] == order;
  }

  /** Feed every image whose id is still to do, in whatever order the set yields them. */
  method VisitAll(ev: DetectionEval, ghost b: Bundle, ids: set<string>,
                  byImg: map<string, seq<GroundTruth>>, prImg: map<string, seq<Prediction>>)
    returns (ghost order: seq<string>)
    requires ev.Valid() && ev.images == []
    requires Grouped(byImg, b.groundTruth, GtsIn()) && Grouped(prImg, b.predictions, PredsIn())
    modifies ev
    ensures ev.Valid() && Visits(order, ids) && ev.images == ImagesIn(b, order)
  {
    var todo := ids;
    order := [];
    ghost var seen: set<string> := {};
    while todo != {}
      invariant ev.Valid() && seen !! todo && seen + todo == ids
      invariant Visits(order, seen) && ev.images == ImagesIn(b, order)
      decreases todo
    {
      var id :| id in todo;
      Visit(ev, b, id, byImg, prImg);
      VisitMore(b, order, seen, id);
      order, todo, seen := order + [id], todo - {id}, seen + {id};
    }
  }

  /** Evaluate a bundle, visiting each of its images once. */
  method EvalOf(b: Bundle, iou: real) returns (ev: DetectionEval, ghost order: seq<string>)
    ensures fresh(ev) && ev.Valid() && ev.metric == Metric(Iou, iou)
    ensures Visits(order, ImageIds(b)) && ev.images == ImagesIn(b, order)
  {
    ev := new DetectionEval(iou);
    var byImg := GroupBy(b.groundTruth, (g: GroundTruth) => g.imageId, GtsIn());
    var prImg := GroupBy(b.predictions, (p: Prediction) => p.imageId, PredsIn());
    order := VisitAll(ev, b, byImg.Keys + prImg.Keys, byImg, prImg);
  }

  lemma ClassesAgree(b: Bundle, order: seq<string>, ev: DetectionEval)
    requires ev.Valid() && Visits(order, ImageIds(b)) && ev.images == ImagesIn(b, order)
    ensures ev.nGt.Keys + ev.predRecords.Keys == BundleClasses(b)
  {
    forall c ensures c in ev.nGt.Keys + ev.predRecords.Keys <==> c in BundleClasses(b) {
      GroupingKeepsAll(b, order, ev.metric, c);
      ClassPresent(b, c);
      assert CountOf(ev.nGt, c) == GtCount(ev.images, c);
      assert At(ev.predRecords, c) == PredTable(ev.images, c, ev.metric);
    }
  }

  /** What the evaluation answers is the bundle's point, whatever order it was filled in. */
  lemma PointAgrees(b: Bundle, order: seq<string>, ev: DetectionEval, c: string)
    requires ev.Valid() && Visits(order, ImageIds(b)) && ev.images == ImagesIn(b, order)
    ensures ev.PointAt(c, DeployThreshold(c)) == DeployPoint(b, ev.metric, c)
  {
    assert CountOf(ev.nGt, c) == GtCount(ev.images, c);
    assert At(ev.predRecords, c) == PredTable(ev.images, c, ev.metric);
    VisitingOrderIrrelevant(b, order, SomeOrder(ImageIds(b)), ev.metric, c, DeployThreshold(c));
  }

  /** The loop over the classes: one delta each, and the gate closes on the first primary
      class that does not pass. */
  method CompareClasses(baseEval: DetectionEval, candEval: DetectionEval, classes: set<string>, tolerance: real,
                        ghost verdict: string -> ClassDelta)
    returns (deltas: map<string, ClassDelta>, overallPass: bool)
    requires forall c :: c in classes ==>
               verdict(c) == DeltaOf(c, baseEval.PointAt(c, DeployThreshold(c)), candEval.PointAt(c, DeployThreshold(c)), tolerance)
    ensures deltas.Keys == classes
    ensures forall c :: c in deltas ==> deltas[c] == verdict(c)
    ensures overallPass <==> forall c :: c in classes ==> verdict(c).gatePass
  {
    var todo := classes;
    deltas, overallPass := map[], true;
    while todo != {}
      invariant deltas.Keys == classes - todo && todo <= classes
      invariant forall c :: c in deltas ==> deltas[c] == verdict(c)
      invariant overallPass <==> forall c :: c in deltas ==> verdict(c).gatePass
      decreases todo
    {
      var c :| c in todo;
      var thr := DeployThreshold(c);
      var d := DeltaOf(c, baseEval.PointAt(c, thr), candEval.PointAt(c, thr), tolerance);
      if d.isPrimary && !d.gatePass {
        overallPass := false;
      }
      assert !d.isPrimary ==> d.gatePass;
      deltas, todo := deltas[c := d], todo - {c};
    }
  }

  /** Compare a candidate with its baseline class by class.  The verdict is a function of
      the two bundles: no visiting order shows in it. */
  method Compare(baseline: Bundle, candidate: Bundle, iou: real, tolerance: real) returns (out: Outcome)
    ensures out.Mismatch? <==> Fingerprint(baseline.groundTruth) != Fingerprint(candidate.groundTruth)
    ensures out.Compared? ==> (out.report.overallPass <==> Ships(baseline, candidate, Metric(Iou, iou), tolerance))
    ensures out.Compared? ==> out.report.classes.Keys == BundleClasses(baseline) + BundleClasses(candidate)
    ensures out.Compared? ==> forall c :: c in out.report.classes ==>
              out.report.classes[c] == Verdict(baseline, candidate, Metric(Iou, iou), tolerance, c)
  {
    if Fingerprint(baseline.groundTruth) != Fingerprint(candidate.groundTruth) {
      return Mismatch;
    }
    ghost var m := Metric(Iou, iou);
    var baseEval, baseOrder := EvalOf(baseline, iou);
    var candEval, candOrder := EvalOf(candidate, iou);
    ClassesAgree(baseline, baseOrder, baseEval);
    ClassesAgree(candidate, candOrder, candEval);
    var classes := (baseEval.nGt.Keys + baseEval.predRecords.Keys) + (candEval.nGt.Keys + candEval.predRecords.Keys);
    ghost var verdict := (c: string) => Verdict(baseline, candidate, m, tolerance, c);
    forall c | c in classes
      ensures verdict(c) ==
              DeltaOf(c, baseEval.PointAt(c, DeployThreshold(c)), candEval.PointAt(c, DeployThreshold(c)), tolerance)
    {
      PointAgrees(baseline, baseOrder, baseEval, c);
      PointAgrees(candidate, candOrder, candEval, c);
    }
    var deltas, overallPass := CompareClasses(baseEval, candEval, classes, tolerance, verdict);
    out := Compared(Report(deltas, overallPass));
  }

  // ------------------------------------------------------------- what PASS means

  lemma DeployCounts(b: Bundle, m: Metric, c: string)
    ensures var p := DeployPoint(b, m, c); var n := |Filter(b.groundTruth, GtOf(c))|;
            && p.tp + p.fn == n && p.tp <= n && p.recall == Quotient(p.tp, n)
  {
    var images := ImagesIn(b, SomeOrder(ImageIds(b)));
    GroupingKeepsAll(b, SomeOrder(ImageIds(b)), m, c);
    TpIsRecalled(images, c, m, DeployThreshold(c));
  }

  /** A shipped candidate was measured on at least 30 ground truths of every primary class
      in play, the same number as the baseline, and its recall there dropped by no more
      than the tolerance. */
  lemma ShipMeansRecall(base: Bundle, cand: Bundle, m: Metric, tolerance: real, c: string)
    requires Ships(base, cand, m, tolerance)
    requires IsPrimary(c) && c in BundleClasses(base) + BundleClasses(cand)
    ensures var n := |Filter(base.groundTruth, GtOf(c))|;
            var b, k := DeployPoint(base, m, c), DeployPoint(cand, m, c);
            && n == |Filter(cand.groundTruth, GtOf(c))| >= MIN_PRIMARY_GT
            && b.recall.Val? && k.recall.Val? && k.recall.v >= b.recall.v - tolerance
  {
    SameFingerprintSameCount(base.groundTruth, cand.groundTruth, c);
    DeployCounts(base, m, c);
    DeployCounts(cand, m, c);
    assert Verdict(base, cand, m, tolerance, c).gatePass;
  }

  /** The operating points, and the classes that can block. */
  lemma ThresholdTable(c: string)
    ensures DeployThreshold("firearm") == DeployThreshold("bladed_weapon") == 0.20
    ensures DeployThreshold("metallic_anomaly") == 0.35 && DeployThreshold("unknown") == 0.40
    ensures c !in {"firearm", "bladed_weapon", "metallic_anomaly", "unknown"} ==> DeployThreshold(c) == 0.30
    ensures IsPrimary(c) <==> c in {"firearm", "bladed_weapon"}
  {
    assert "metallic_anomaly"[0] == 'm' && "unknown"[0] == 'u' && "firearm"[0] == 'f' && "bladed_weapon"[0] == 'b';
  }

  function OrZero(n: Num): real { match n case NaN => 0.0 case Val(v) => v }

  /** What the delta of a class reports: the counts of the baseline, both points at the deploy
      threshold, the change in recall with NaN as 0, and whether the class passes: always when
      it is secondary, else with 30 ground truths and no more than the tolerated loss. */
  lemma DeltaReports(base: Bundle, cand: Bundle, m: Metric, tolerance: real, c: string)
    ensures var d, b, k := Verdict(base, cand, m, tolerance, c), DeployPoint(base, m, c), DeployPoint(cand, m, c);
            && d.nGt == |Filter(base.groundTruth, GtOf(c))| && d.threshold == DeployThreshold(c)
            && d.isPrimary == (c in {"firearm", "bladed_weapon"})
            && d.base == b && d.cand == k && b.threshold == k.threshold == DeployThreshold(c)
            && d.dRecall == OrZero(k.recall) - OrZero(b.recall)
            && d.sufficientN == (c in {"firearm", "bladed_weapon"} ==> d.nGt >= 30)
            && d.gatePass == (c in {"firearm", "bladed_weapon"} ==> d.nGt >= 30 && d.dRecall >= -tolerance)
  {
    DeployCounts(base, m, c);
    ThresholdTable(c);
  }

  /** Some ground truth or prediction of either bundle is of the class. */
  ghost predicate InPlay(base: Bundle, cand: Bundle, c: string) {
    || (exists g :: g in base.groundTruth + cand.groundTruth && g.category == c)
    || (exists p :: p in base.predictions + cand.predictions && p.category == c)
  }

  /** The true positives a bundle has of a class at score 0.20 or more. */
  ghost function Hits(b: Bundle, m: Metric, c: string): nat {
    TpAt(PredTable(ImagesIn(b, SomeOrder(ImageIds(b))), c, m), 0.20)
  }

  ghost function Held(b: Bundle, c: string): nat { |Filter(b.groundTruth, (g: GroundTruth) => g.category == c)| }

  lemma {:induction false} HeldIsClass(gts: seq<GroundTruth>, same: GroundTruth -> bool, c: string)
    requires forall g :: same(g) == (g.category == c)
    ensures Filter(gts, same) == Filter(gts, GtOf(c))
  {
    if gts != [] {
      HeldIsClass(gts[..|gts| - 1], same, c);
    }
  }

  lemma WithinTolerance(a: nat, b: nat, n: nat, tolerance: real)
    requires n > 0
    ensures a as real / n as real >= b as real / n as real - tolerance <==>
              a as real >= b as real - tolerance * n as real
  {
    var x, y, k := a as real / n as real, b as real / n as real, n as real;
    assert x * k == a as real && y * k == b as real;
    assert (x - (y - tolerance)) * k == a as real - (b as real - tolerance * k);
    SignOfProduct(x - (y - tolerance), k);
  }

  lemma SignOfProduct(d: real, k: real)
    requires k > 0.0
    ensures d >= 0.0 <==> d * k >= 0.0
  {
  }

  /** 30 ground truths, and the hits lost stay within the tolerance. */
  predicate Enough(hits: nat, baseHits: nat, n: nat, tolerance: real) {
    n >= 30 && hits as real >= baseHits as real - tolerance * n as real
  }

  /** A class holds its own. */
  ghost predicate HoldsUp(base: Bundle, cand: Bundle, m: Metric, tolerance: real, c: string) {
    Enough(Hits(cand, m, c), Hits(base, m, c), Held(base, c), tolerance)
  }

  lemma HitsAreDeployed(b: Bundle, m: Metric, c: string)
    requires c in {"firearm", "bladed_weapon"}
    ensures DeployPoint(b, m, c).recall == Quotient(Hits(b, m, c), |Filter(b.groundTruth, GtOf(c))|)
  {
    DeployCounts(b, m, c);
    ThresholdTable(c);
    assert DeployPoint(b, m, c).tp == Hits(b, m, c);
  }

  /** The recall test in counts, for any recalls that are hits over `n` ground truths. */
  lemma RecallTest(hits: nat, baseHits: nat, n: nat, tolerance: real, recall: Num, baseRecall: Num)
    requires recall == Quotient(hits, n) && baseRecall == Quotient(baseHits, n)
    ensures Enough(hits, baseHits, n, tolerance) <==>
            n >= MIN_PRIMARY_GT && NanSafe(recall) >= NanSafe(baseRecall) - tolerance
  {
    if n >= 30 {
      WithinTolerance(hits, baseHits, n, tolerance);
    }
  }

  lemma HeldIsCount(base: Bundle, c: string)
    ensures Held(base, c) == |Filter(base.groundTruth, GtOf(c))|
  {
    HeldIsClass(base.groundTruth, (g: GroundTruth) => g.category == c, c);
  }
  lemma RecallHoldsUp(base: Bundle, cand: Bundle, m: Metric, tolerance: real, c: string, rc: Num, rb: Num)
    requires rc == Quotient(Hits(cand, m, c), |Filter(base.groundTruth, GtOf(c))|)
    requires rb == Quotient(Hits(base, m, c), |Filter(base.groundTruth, GtOf(c))|)
    ensures HoldsUp(base, cand, m, tolerance, c) <==>
              && |Filter(base.groundTruth, GtOf(c))| >= MIN_PRIMARY_GT
              && NanSafe(rc) >= NanSafe(rb) - tolerance
  {
    HeldIsCount(base, c);
    RecallTest(Hits(cand, m, c), Hits(base, m, c), Held(base, c), tolerance, rc, rb);
  }

  lemma HoldsUpAgrees(base: Bundle, cand: Bundle, m: Metric, tolerance: real, c: string)
    requires Fingerprint(base.groundTruth) == Fingerprint(cand.groundTruth) && c in {"firearm", "bladed_weapon"}
    ensures HoldsUp(base, cand, m, tolerance, c) <==>
              && |Filter(base.groundTruth, GtOf(c))| >= MIN_PRIMARY_GT
              && NanSafe(DeployPoint(cand, m, c).recall) >= NanSafe(DeployPoint(base, m, c).recall) - tolerance
  {
    RecallHoldsUp(base, cand, m, tolerance, c, DeployPoint(cand, m, c).recall, DeployPoint(base, m, c).recall) by {
      HitsAreDeployed(base, m, c);
      HitsAreDeployed(cand, m, c);
      SameFingerprintSameCount(base.groundTruth, cand.groundTruth, c);
    }
  }
  lemma InPlayAgrees(base: Bundle, cand: Bundle, c: string)
    ensures InPlay(base, cand, c) <==> c in BundleClasses(base) + BundleClasses(cand)
  {
  }

  /** The whole gate in numbers: it opens exactly when the held-out sets are the same and each
      of the two weapon classes that occurs has 30 ground truths and loses no more hits at its
      operating point than the tolerance allows. */
  lemma ShipsInNumbers(base: Bundle, cand: Bundle, m: Metric, tolerance: real)
    ensures Ships(base, cand, m, tolerance) <==>
              && Fingerprint(base.groundTruth) == Fingerprint(cand.groundTruth)
              && (InPlay(base, cand, "firearm") ==> HoldsUp(base, cand, m, tolerance, "firearm"))
              && (InPlay(base, cand, "bladed_weapon") ==> HoldsUp(base, cand, m, tolerance, "bladed_weapon"))
  {
    ShipsExactlyWhen(base, cand, m, tolerance);
    if Fingerprint(base.groundTruth) == Fingerprint(cand.groundTruth) {
      NoLossAgrees(base, cand, m, tolerance);
    }
  }

  lemma NoLossAgrees(base: Bundle, cand: Bundle, m: Metric, tolerance: real)
    requires Fingerprint(base.groundTruth) == Fingerprint(cand.groundTruth)
    ensures NoPrimaryLoss(base, cand, m, tolerance) <==>
              && (InPlay(base, cand, "firearm") ==> HoldsUp(base, cand, m, tolerance, "firearm"))
              && (InPlay(base, cand, "bladed_weapon") ==> HoldsUp(base, cand, m, tolerance, "bladed_weapon"))
  {
    forall c | c in {"firearm", "bladed_weapon"}
      ensures InPlay(base, cand, c) <==> c in BundleClasses(base) + BundleClasses(cand)
      ensures HoldsUp(base, cand, m, tolerance, c) <==>
                && |Filter(base.groundTruth, GtOf(c))| >= MIN_PRIMARY_GT
                && NanSafe(DeployPoint(cand, m, c).recall) >= NanSafe(DeployPoint(base, m, c).recall) - tolerance
    {
      InPlayAgrees(base, cand, c);
      HoldsUpAgrees(base, cand, m, tolerance, c);
    }
    assert IsPrimary("firearm") && IsPrimary("bladed_weapon");
    forall c ensures IsPrimary(c) <==> c in {"firearm", "bladed_weapon"} {
      ThresholdTable(c);
    }
  }

  lemma QuotientReflects(a: nat, b: nat, n: nat)
    requires n > 0
    ensures a as real / n as real >= b as real / n as real <==> a >= b
  {
  }

  /** Without a signed tolerance, shipping means no primary class loses a true positive. */
  lemma ShipLosesNothing(base: Bundle, cand: Bundle, m: Metric, c: string)
    requires Ships(base, cand, m, 0.0)
    requires IsPrimary(c) && c in BundleClasses(base) + BundleClasses(cand)
    ensures DeployPoint(cand, m, c).tp >= DeployPoint(base, m, c).tp
    ensures DeployPoint(cand, m, c).fn <= DeployPoint(base, m, c).fn
  {
    ShipMeansRecall(base, cand, m, 0.0, c);
    DeployCounts(base, m, c);
    DeployCounts(cand, m, c);
    QuotientReflects(DeployPoint(cand, m, c).tp, DeployPoint(base, m, c).tp, |Filter(base.groundTruth, GtOf(c))|);
  }

  lemma ShipsAt(base: Bundle, cand: Bundle, m: Metric, tolerance: real, c: string)
    requires Fingerprint(base.groundTruth) == Fingerprint(cand.groundTruth)
    requires IsPrimary(c) ==>
               && |Filter(base.groundTruth, GtOf(c))| >= MIN_PRIMARY_GT
               && NanSafe(DeployPoint(cand, m, c).recall) >= NanSafe(DeployPoint(base, m, c).recall) - tolerance
    ensures Verdict(base, cand, m, tolerance, c).gatePass
  {
    DeployCounts(base, m, c);
  }

  /** No primary class of either model falls short: enough ground truth, and a recall that
      drops by no more than the tolerance. */
  ghost predicate NoPrimaryLoss(base: Bundle, cand: Bundle, m: Metric, tolerance: real) {
    forall c :: c in BundleClasses(base) + BundleClasses(cand) && IsPrimary(c) ==>
      && |Filter(base.groundTruth, GtOf(c))| >= MIN_PRIMARY_GT
      && NanSafe(DeployPoint(cand, m, c).recall) >= NanSafe(DeployPoint(base, m, c).recall) - tolerance
  }

  /** The verdict in terms of what was measured, both ways: secondary classes never block. */
  lemma ShipsExactlyWhen(base: Bundle, cand: Bundle, m: Metric, tolerance: real)
    ensures Ships(base, cand, m, tolerance) <==>
              Fingerprint(base.groundTruth) == Fingerprint(cand.groundTruth) && NoPrimaryLoss(base, cand, m, tolerance)
  {
    if Fingerprint(base.groundTruth) == Fingerprint(cand.groundTruth) {
      forall c | c in BundleClasses(base) + BundleClasses(cand)
        ensures Verdict(base, cand, m, tolerance, c).gatePass <==>
                  (IsPrimary(c) ==>
                     && |Filter(base.groundTruth, GtOf(c))| >= MIN_PRIMARY_GT
                     && NanSafe(DeployPoint(cand, m, c).recall) >= NanSafe(DeployPoint(base, m, c).recall) - tolerance)
      {
        DeployCounts(base, m, c);
      }
    }
  }

  lemma SameClasses(a: Bundle, b: Bundle, c: string)
    requires Fingerprint(a.groundTruth) == Fingerprint(b.groundTruth)
    requires |Filter(a.groundTruth, GtOf(c))| > 0
    ensures c in BundleClasses(a) && c in BundleClasses(b)
  {
    SameFingerprintSameCount(a.groundTruth, b.groundTruth, c);
    ClassPresent(a, c);
    ClassPresent(b, c);
  }

  /** The gate composes along a chain of releases: tolerances add up, so a sequence of
      signed allowances bounds the total loss against the first model. */
  lemma ShipsCompose(a: Bundle, b: Bundle, c: Bundle, m: Metric, t1: real, t2: real)
    requires Ships(a, b, m, t1) && Ships(b, c, m, t2)
    ensures Ships(a, c, m, t1 + t2)
  {
    forall k | k in BundleClasses(a) + BundleClasses(c)
      ensures Verdict(a, c, m, t1 + t2, k).gatePass
    {
      if IsPrimary(k) {
        if k in BundleClasses(a) {
          ShipMeansRecall(a, b, m, t1, k);
          SameClasses(b, c, k);
        } else {
          ShipMeansRecall(b, c, m, t2, k);
          SameFingerprintSameCount(a.groundTruth, b.groundTruth, k);
          SameClasses(a, b, k);
        }
        ShipMeansRecall(a, b, m, t1, k);
        ShipMeansRecall(b, c, m, t2, k);
      }
      ShipsAt(a, c, m, t1 + t2, k);
    }
  }

  /** Releases along a chain, each shipped against its predecessor. */
  ghost predicate ShippedChain(chain: seq<Bundle>, m: Metric, tolerances: seq<real>) {
    && |chain| == |tolerances| + 1
    && (tolerances != [] ==>
          var n := |tolerances| - 1;
          ShippedChain(chain[..n + 1], m, tolerances[..n]) && Ships(chain[n], chain[n + 1], m, tolerances[n]))
  }

  lemma {:induction false} ChainShips(chain: seq<Bundle>, m: Metric, tolerances: seq<real>)
    requires ShippedChain(chain, m, tolerances) && tolerances != []
    ensures Ships(chain[0], chain[|chain| - 1], m, Total(tolerances))
  {
    var n := |tolerances| - 1;
    if n == 0 {
      assert Total(tolerances) == 0.0 + tolerances[0];
    } else {
      ChainShips(chain[..n + 1], m, tolerances[..n]);
      ShipsCompose(chain[0], chain[n], chain[n + 1], m, Total(tolerances[..n]), tolerances[n]);
    }
  }

  /** A model passes against itself exactly when its held-out set is large enough. */
  lemma SelfShips(a: Bundle, m: Metric)
    ensures Ships(a, a, m, 0.0) <==>
            forall c :: c in BundleClasses(a) && IsPrimary(c) ==> |Filter(a.groundTruth, GtOf(c))| >= MIN_PRIMARY_GT
  {
    if Ships(a, a, m, 0.0) {
      forall c | c in BundleClasses(a) && IsPrimary(c) ensures |Filter(a.groundTruth, GtOf(c))| >= MIN_PRIMARY_GT {
        ShipMeansRecall(a, a, m, 0.0, c);
      }
    } else {
      var c :| c in BundleClasses(a) && !Verdict(a, a, m, 0.0, c).gatePass;
      if |Filter(a.groundTruth, GtOf(c))| >= MIN_PRIMARY_GT {
        ShipsAt(a, a, m, 0.0, c);
      }
    }
  }
}
