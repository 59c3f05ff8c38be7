/** Axis-aligned boxes `(x, y, w, h)` and their intersection over union
    (detector/eval/recall_eval.py, `iou_xywh`), in exact reals. */
module Geometry {

  datatype Box = Box(x: real, y: real, w: real, h: real)

  function Max(a: real, b: real): real {
    if a >= b then a else b
  }

  function Min(a: real, b: real): real {
    if a <= b then a else b
  }

  /** Length of the overlap of two intervals given by origin and extent. */
  function Overlap(a: real, aw: real, b: real, bw: real): real {
    Max(0.0, Min(a + aw, b + bw) - Max(a, b))
  }

  function Intersection(a: Box, b: Box): real {
    Overlap(a.x, a.w, b.x, b.w) * Overlap(a.y, a.h, b.y, b.h)
  }

  function Union(a: Box, b: Box): real {
    a.w * a.h + b.w * b.h - Intersection(a, b)
  }

  function Ratio(inter: real, union: real): real {
    if inter <= 0.0 then 0.0
    else if union > 0.0 then inter / union else 0.0
  }

  function Iou(a: Box, b: Box): real {
    Ratio(Intersection(a, b), Union(a, b))
  }

  lemma ProductMonotone(a: real, b: real, c: real, d: real)
    requires 0.0 <= a <= c && 0.0 <= b <= d
    ensures 0.0 <= a * b <= c * d
  {
    assert a * b <= c * b <= c * d;
  }

  /** An intersection is never larger than either box, whatever the signs of the extents. */
  lemma IntersectionBound(a: Box, b: Box)
    ensures Intersection(a, b) >= 0.0
    ensures Intersection(a, b) > 0.0 ==>
              && a.w > 0.0 && a.h > 0.0 && b.w > 0.0 && b.h > 0.0
              && Intersection(a, b) <= a.w * a.h && Intersection(a, b) <= b.w * b.h
  {
    var ox, oy := Overlap(a.x, a.w, b.x, b.w), Overlap(a.y, a.h, b.y, b.h);
    if ox > 0.0 && oy > 0.0 {
      ProductMonotone(ox, oy, a.w, a.h);
      ProductMonotone(ox, oy, b.w, b.h);
    } else {
      assert ox == 0.0 || oy == 0.0;
      assert ox * oy == 0.0;
    }
  }

  lemma OverlapCommutes(a: real, aw: real, b: real, bw: real)
    ensures Overlap(a, aw, b, bw) == Overlap(b, bw, a, aw)
  {
  }

  lemma RatioAtMostOne(i: real, u: real)
    requires i > 0.0 ==> u >= i
    ensures 0.0 <= Ratio(i, u) <= 1.0
    ensures Ratio(i, u) == 1.0 <==> i > 0.0 && i == u
  {
  }

  lemma UnionCovers(a: Box, b: Box)
    ensures Intersection(a, b) > 0.0 ==> Union(a, b) >= Intersection(a, b)
  {
    IntersectionBound(a, b);
  }

  lemma IntersectionCommutes(a: Box, b: Box)
    ensures Intersection(a, b) == Intersection(b, a)
  {
    OverlapCommutes(a.x, a.w, b.x, b.w);
    OverlapCommutes(a.y, a.h, b.y, b.h);
  }

  lemma IouCommutes(a: Box, b: Box)
    ensures Iou(a, b) == Iou(b, a)
  {
    IntersectionCommutes(a, b);
    assert Union(a, b) == Union(b, a);
  }

  /** For every two boxes, degenerate ones included, the score is symmetric and a fraction. */
  lemma IouIsSymmetricFraction(a: Box, b: Box)
    ensures Iou(a, b) == Iou(b, a)
    ensures 0.0 <= Iou(a, b) <= 1.0
  {
    IouCommutes(a, b);
    UnionCovers(a, b);
    RatioAtMostOne(Intersection(a, b), Union(a, b));
  }

  /** A product of fractions of `w` and `h` is the whole of `w * h` only when both are whole. */
  lemma FullOverlap(ox: real, oy: real, w: real, h: real)
    requires 0.0 < ox <= w && 0.0 < oy <= h
    ensures ox * oy == w * h <==> ox == w && oy == h
  {
    if ox < w {
      assert ox * oy < w * oy;
      assert w * oy <= w * h;
    } else if oy < h {
      assert w * oy < w * h;
    }
  }

  lemma OverlapIsWhole(a: real, aw: real, b: real, bw: real)
    requires aw > 0.0 && bw > 0.0
    ensures Overlap(a, aw, b, bw) == aw == bw <==> a == b && aw == bw
    ensures Overlap(a, aw, b, bw) <= aw && Overlap(a, aw, b, bw) <= bw
  {
  }

  lemma PerfectOverlap(ox: real, oy: real, w: real, h: real, w': real, h': real)
    requires w > 0.0 && h > 0.0 && w' > 0.0 && h' > 0.0
    requires 0.0 <= ox <= w && ox <= w' && 0.0 <= oy <= h && oy <= h'
    ensures ox * oy > 0.0 && ox * oy == w * h + w' * h' - ox * oy <==>
            ox == w == w' && oy == h == h'
  {
    if ox > 0.0 && oy > 0.0 {
      ProductMonotone(ox, oy, w, h);
      ProductMonotone(ox, oy, w', h');
      FullOverlap(ox, oy, w, h);
      FullOverlap(ox, oy, w', h');
      assert ox * oy > 0.0;
    } else {
      assert ox * oy == 0.0;
    }
  }

  lemma WholeIntersection(a: Box, b: Box)
    requires a.w > 0.0 && a.h > 0.0 && b.w > 0.0 && b.h > 0.0
    ensures Intersection(a, b) > 0.0 && Intersection(a, b) == Union(a, b) <==> a == b
  {
    OverlapIsWhole(a.x, a.w, b.x, b.w);
    OverlapIsWhole(a.y, a.h, b.y, b.h);
    PerfectOverlap(Overlap(a.x, a.w, b.x, b.w), Overlap(a.y, a.h, b.y, b.h), a.w, a.h, b.w, b.h);
  }

  /** A perfect score means the same box: only a region with positive extents, compared
      with itself, scores 1. */
  lemma PerfectIouIsIdentity(a: Box, b: Box)
    ensures Iou(a, b) == 1.0 <==> a == b && a.w > 0.0 && a.h > 0.0
  {
    IntersectionBound(a, b);
    UnionCovers(a, b);
    RatioAtMostOne(Intersection(a, b), Union(a, b));
    if a.w > 0.0 && a.h > 0.0 && b.w > 0.0 && b.h > 0.0 {
      WholeIntersection(a, b);
    }
  }

  /** The point lies in the interval given by origin and extent. */
  predicate Within(p: real, origin: real, extent: real) { origin <= p <= origin + extent }

  /** The points of two intervals that lie in both are those of a third. */
  ghost predicate Share(a: real, aw: real, b: real, bw: real, c: real, cw: real) {
    forall p :: Within(p, a, aw) && Within(p, b, bw) <==> Within(p, c, cw)
  }

  /** The overlap is the length of what two intervals share. */
  lemma OverlapIsCommonLength(a: real, aw: real, b: real, bw: real, c: real, cw: real)
    requires cw >= 0.0 && Share(a, aw, b, bw, c, cw)
    ensures Overlap(a, aw, b, bw) == cw
  {
    assert Within(c, c, cw) && Within(c + cw, c, cw);
    assert Within(c, a, aw) && Within(c, b, bw) && Within(c + cw, a, aw) && Within(c + cw, b, bw);
    var l, r := Max(a, b), Min(a + aw, b + bw);
    assert Within(l, a, aw) && Within(l, b, bw) && Within(r, a, aw) && Within(r, b, bw);
    assert Within(l, c, cw) && Within(r, c, cw);
  }

  /** Boxes that share the rectangle `c`: the score is its area over the area the two boxes
      cover together. */
  lemma IouIsSharedOverCovered(a: Box, b: Box, c: Box)
    requires a.w > 0.0 && a.h > 0.0 && b.w > 0.0 && b.h > 0.0 && c.w > 0.0 && c.h > 0.0
    requires Share(a.x, a.w, b.x, b.w, c.x, c.w) && Share(a.y, a.h, b.y, b.h, c.y, c.h)
    ensures c.w * c.h > 0.0 && a.w * a.h + b.w * b.h - c.w * c.h > 0.0
    ensures Iou(a, b) == (c.w * c.h) / (a.w * a.h + b.w * b.h - c.w * c.h)
  {
    OverlapIsCommonLength(a.x, a.w, b.x, b.w, c.x, c.w);
    OverlapIsCommonLength(a.y, a.h, b.y, b.h, c.y, c.h);
    Area(c);
    assert Intersection(a, b) == c.w * c.h;
    UnionCovers(a, b);
  }

  lemma Area(c: Box)
    requires c.w > 0.0 && c.h > 0.0
    ensures c.w * c.h > 0.0
  {
  }

  /** Boxes that share no inner point, or have no extent, score 0, and only those. */
  lemma IouIsZeroExactlyWhen(a: Box, b: Box)
    ensures Iou(a, b) > 0.0 <==>
              && a.w > 0.0 && a.h > 0.0 && b.w > 0.0 && b.h > 0.0
              && a.x < b.x + b.w && b.x < a.x + a.w && a.y < b.y + b.h && b.y < a.y + a.h
  {
    var ox, oy := Overlap(a.x, a.w, b.x, b.w), Overlap(a.y, a.h, b.y, b.h);
    IntersectionBound(a, b);
    UnionCovers(a, b);
    RatioAtMostOne(Intersection(a, b), Union(a, b));
    PositiveRatio(Intersection(a, b), Union(a, b));
    PositiveArea(ox, oy);
  }

  lemma PositiveRatio(i: real, u: real)
    requires i > 0.0 ==> u >= i
    ensures Ratio(i, u) > 0.0 <==> i > 0.0
  {
  }

  lemma PositiveArea(ox: real, oy: real)
    requires ox >= 0.0 && oy >= 0.0
    ensures ox * oy > 0.0 <==> ox > 0.0 && oy > 0.0
  {
  }
}
