/** The Wilson score interval for a recall of `k` out of `n`
    (detector/eval/recall_eval.py, `wilson_interval`), in exact reals.
    The square root is an argument: every statement holds for the number that is one. */
module Wilson {

  predicate IsRoot(root: real, x: real) { root >= 0.0 && root * root == x }

  function Proportion(k: nat, n: nat): real
    requires n > 0
  {
    k as real / n as real
  }

  function Radicand(k: nat, n: nat, z: real): real
    requires n > 0
  {
    var p, nn := Proportion(k, n), n as real;
    p * (1.0 - p) / nn + z * z / (4.0 * nn * nn)
  }

  function RawInterval(k: nat, n: nat, z: real, root: real): (real, real)
    requires n > 0
  {
    var p, nn := Proportion(k, n), n as real;
    var z2 := z * z;
    var denom := 1.0 + z2 / nn;
    assert z2 >= 0.0 && z2 / nn >= 0.0;
    var center := (p + z2 / (2.0 * nn)) / denom;
    var margin := z * root / denom;
    (center - margin, center + margin)
  }

  function Interval(k: nat, n: nat, z: real, root: real): (real, real) {
    if n == 0 then (0.0, 1.0) else
    var (low, high) := RawInterval(k, n, z, root);
    (if low > 0.0 then low else 0.0, if high < 1.0 then high else 1.0)
  }

  // ------------------------------------------------------------ in normal form

  /** The ends in terms of the proportion `p`, the weight `q = z*z/n` and the half width
      `w = z*root` before scaling. */
  function Low(p: real, q: real, w: real): real
    requires q >= 0.0
  {
    (p + q / 2.0 - w) / (1.0 + q)
  }

  function High(p: real, q: real, w: real): real
    requires q >= 0.0
  {
    (p + q / 2.0 + w) / (1.0 + q)
  }

  ghost predicate Consistent(p: real, q: real, w: real) {
    0.0 <= p <= 1.0 && q >= 0.0 && w >= 0.0 && w * w == q * (p * (1.0 - p)) + q * q / 4.0
  }

  lemma SquareOrder(a: real, b: real)
    requires a >= 0.0 && b >= 0.0
    ensures a <= b <==> a * a <= b * b
    ensures a < b <==> a * a < b * b
  {
    if a < b {
      StrictSquare(a, b);
    } else if b < a {
      StrictSquare(b, a);
    }
  }

  lemma StrictSquare(a: real, b: real)
    requires 0.0 <= a < b
    ensures a * a < b * b
  {
    PositiveProduct(b - a, b + a);
    assert (b - a) * (b + a) == b * b - a * a;
  }

  lemma PositiveProduct(a: real, b: real)
    requires a > 0.0 && b > 0.0
    ensures a * b > 0.0
  {
  }

  lemma ProductSign(a: real, b: real)
    requires a >= 0.0 && b >= 0.0
    ensures a * b >= 0.0
  {
  }

  lemma LowIsNonNegative(p: real, q: real, w: real)
    requires Consistent(p, q, w)
    ensures w <= p + q / 2.0
    ensures p == 0.0 ==> w == q / 2.0
  {
    var a := p + q / 2.0;
    assert a * a == p * p + p * q + q * q / 4.0;
    assert w * w == p * q - p * p * q + q * q / 4.0;
    ProductSign(p, p);
    ProductSign(p * p, q);
    SquareOrder(w, a);
    if p == 0.0 {
      SquareOrder(a, w);
    }
  }

  lemma LowBelow(p: real, q: real, w: real)
    requires Consistent(p, q, w)
    ensures q / 2.0 - p * q <= w
  {
    var a := q / 2.0 - p * q;
    if a > 0.0 {
      ProductSign(p, 1.0 - p);
      var v := p * (1.0 - p);
      ProductSign(q, q);
      ProductSign(q * q, v);
      ProductSign(q, v);
      assert a * a == q * q / 4.0 - q * q * v;
      SquareOrder(a, w);
    }
  }

  lemma Flip(p: real, q: real, w: real)
    requires Consistent(p, q, w)
    ensures Consistent(1.0 - p, q, w)
    ensures Low(1.0 - p, q, w) == 1.0 - High(p, q, w)
    ensures High(1.0 - p, q, w) == 1.0 - Low(p, q, w)
  {
    var d := 1.0 + q;
    Shift(d - (p + q / 2.0 + w), d);
    Shift(d - (p + q / 2.0 - w), d);
  }

  lemma Shift(a: real, d: real)
    requires d > 0.0
    ensures a / d == 1.0 - (d - a) / d
  {
    assert a / d + (d - a) / d == d / d;
  }

  lemma DivideOrder(a: real, b: real, d: real)
    requires d > 0.0
    ensures a <= b <==> a / d <= b / d
    ensures a == b <==> a / d == b / d
    ensures (b * d) / d == b
  {
  }

  lemma LowRange(p: real, q: real, w: real)
    requires Consistent(p, q, w)
    ensures 0.0 <= Low(p, q, w) <= p
    ensures p == 0.0 ==> Low(p, q, w) == 0.0
  {
    LowIsNonNegative(p, q, w);
    LowBelow(p, q, w);
    var d := 1.0 + q;
    DivideOrder(0.0, p + q / 2.0 - w, d);
    assert p * d == p + p * q;
    DivideOrder(p + q / 2.0 - w, p * d, d);
    DivideOrder(0.0, p, d);
  }

  lemma NormalRange(p: real, q: real, w: real)
    requires Consistent(p, q, w)
    ensures 0.0 <= Low(p, q, w) <= p <= High(p, q, w) <= 1.0
    ensures p == 0.0 ==> Low(p, q, w) == 0.0
    ensures p == 1.0 ==> High(p, q, w) == 1.0
  {
    LowRange(p, q, w);
    Flip(p, q, w);
    LowRange(1.0 - p, q, w);
  }

  /** The ends are the two roots of the quadratic of the score test. */
  lemma Factored(p: real, q: real, w: real, x: real)
    requires Consistent(p, q, w)
    ensures (x - p) * (x - p) - q * (x * (1.0 - x)) ==
            (1.0 + q) * ((x - Low(p, q, w)) * (x - High(p, q, w)))
  {
    var d := 1.0 + q;
    var l, h := Low(p, q, w), High(p, q, w);
    var a, b := p + q / 2.0 - w, p + q / 2.0 + w;
    assert l * d == a && h * d == b;
    assert a * b == (p + q / 2.0) * (p + q / 2.0) - w * w;
    assert a * b == p * p + p * p * q;
    assert a * b == p * p * d;
    ScaledProduct(l, h, d, x);
    assert d * ((x - l) * (x - h)) == d * (x * x) - (a + b) * x + l * b;
    assert d * (l * b) == a * b;
    CancelScale(l * b, p * p, d);
    assert (x - p) * (x - p) == x * x - 2.0 * p * x + p * p;
    assert (a + b) * x == 2.0 * p * x + q * x;
    assert q * (x * (1.0 - x)) == q * x - q * (x * x);
    assert d * (x * x) == x * x + q * (x * x);
  }

  lemma ScaledProduct(l: real, h: real, d: real, x: real)
    ensures d * ((x - l) * (x - h)) == d * (x * x) - (l * d + h * d) * x + l * (h * d)
  {
  }

  lemma CancelScale(a: real, b: real, d: real)
    requires d > 0.0 && d * a == b * d
    ensures a == b
  {
  }

  lemma SignOfProduct(l: real, h: real, d: real, x: real)
    requires l <= h && d > 0.0
    ensures d * ((x - l) * (x - h)) <= 0.0 <==> l <= x <= h
  {
    var a, b := x - l, x - h;
    var ab := a * b;
    if x < l {
      PositiveProduct(-a, -b);
      assert ab == (-a) * (-b);
      PositiveProduct(d, ab);
    } else if x > h {
      PositiveProduct(a, b);
      PositiveProduct(d, ab);
    } else {
      ProductSign(a, -b);
      assert ab == -(a * (-b));
      ProductSign(d, -ab);
    }
    assert d * ((x - l) * (x - h)) == d * ab;
  }

  // ------------------------------------------------------------------- theorems

  /** The radicand times `z*z`, in terms of the weight `q`. */
  lemma ScaledRadicand(v: real, zz: real, nn: real)
    requires nn > 0.0
    ensures zz * (v / nn + zz / (4.0 * nn * nn)) == zz / nn * v + (zz / nn) * (zz / nn) / 4.0
  {
    var u := 1.0 / nn;
    assert v / nn == v * u && zz / nn == zz * u;
    InverseSquare(zz, nn, u);
    assert zz / (4.0 * nn * nn) == zz * (u * u / 4.0);
    assert zz * (v * u) == (zz * u) * v;
    assert zz * (zz * (u * u / 4.0)) == (zz * u) * (zz * u) / 4.0;
  }

  lemma InverseSquare(zz: real, nn: real, u: real)
    requires nn > 0.0 && u == 1.0 / nn
    ensures zz / (4.0 * nn * nn) == zz * (u * u / 4.0)
  {
    var e, f := 4.0 * nn * nn, u * u / 4.0;
    assert nn * u == 1.0;
    PositiveProduct(4.0 * nn, nn);
    assert e * f == (nn * u) * (nn * u);
    assert e * (zz * f) == zz * (e * f);
    DivideBack(zz, zz * f, e);
  }

  lemma DivideBack(a: real, b: real, e: real)
    requires e > 0.0 && a == e * b
    ensures a / e == b
  {
  }

  lemma SplitQuotient(a: real, w: real, d: real)
    requires d > 0.0
    ensures a / d - w / d == (a - w) / d && a / d + w / d == (a + w) / d
  {
  }

  lemma Normalised(k: nat, n: nat, z: real, root: real)
    requires n > 0 && k <= n && z >= 0.0 && IsRoot(root, Radicand(k, n, z))
    ensures Consistent(Proportion(k, n), z * z / n as real, z * root)
    ensures RawInterval(k, n, z, root).0 == Low(Proportion(k, n), z * z / n as real, z * root)
    ensures RawInterval(k, n, z, root).1 == High(Proportion(k, n), z * z / n as real, z * root)
  {
    ProportionRange(k, n);
    ProductSign(z, z);
    ProductSign(z, root);
    HalfWeight(z * z, n as real);
    NormalisedSquare(k, n, z, root);
    var q := z * z / n as real;
    SplitQuotient(Proportion(k, n) + q / 2.0, z * root, 1.0 + q);
  }

  lemma NormalisedSquare(k: nat, n: nat, z: real, root: real)
    requires n > 0 && IsRoot(root, Radicand(k, n, z))
    ensures var p, q, w := Proportion(k, n), z * z / n as real, z * root;
            w * w == q * (p * (1.0 - p)) + q * q / 4.0
  {
    var p := Proportion(k, n);
    ScaledRadicand(p * (1.0 - p), z * z, n as real);
    assert (z * root) * (z * root) == (z * z) * (root * root);
  }

  lemma ProportionRange(k: nat, n: nat)
    requires n > 0 && k <= n
    ensures 0.0 <= Proportion(k, n) <= 1.0
    ensures k == 0 ==> Proportion(k, n) == 0.0
    ensures k == n ==> Proportion(k, n) == 1.0
    ensures Proportion(n - k, n) == 1.0 - Proportion(k, n)
  {
    Shift((n - k) as real, n as real);
  }

  lemma HalfWeight(zz: real, nn: real)
    requires zz >= 0.0 && nn > 0.0
    ensures zz / nn >= 0.0
    ensures zz / (2.0 * nn) == zz / nn / 2.0
  {
  }

  /** The interval contains the observed recall and lies within [0, 1] before any clamping,
      which therefore never changes it.  Zero out of `n` starts at 0, `n` out of `n` ends at 1. */
  lemma WithinUnit(k: nat, n: nat, z: real, root: real)
    requires n > 0 && k <= n && z >= 0.0 && IsRoot(root, Radicand(k, n, z))
    ensures var (low, high) := RawInterval(k, n, z, root);
            && 0.0 <= low <= Proportion(k, n) <= high <= 1.0
            && Interval(k, n, z, root) == (low, high)
            && (k == 0 ==> low == 0.0)
            && (k == n ==> high == 1.0)
  {
    Normalised(k, n, z, root);
    ProportionRange(k, n);
    NormalRange(Proportion(k, n), z * z / n as real, z * root);
  }

  /** Without a ground truth nothing is known; with one the square root exists. */
  lemma NothingKnown(k: nat, n: nat, z: real, root: real)
    ensures Interval(k, 0, z, root) == (0.0, 1.0)
    ensures IsRoot(root, z) <==> 0.0 <= root && root * root == z
    ensures n > 0 && k <= n ==> Proportion(k, n) == k as real / n as real && Radicand(k, n, z) >= 0.0
  {
    if n > 0 && k <= n {
      ProportionRange(k, n);
      var p, nn := Proportion(k, n), n as real;
      ProductSign(p, 1.0 - p);
      QuotientSign(p * (1.0 - p), nn);
      PositiveProduct(4.0 * nn, nn);
      SquareSign(z);
      QuotientSign(z * z, 4.0 * nn * nn);
    }
  }

  lemma QuotientSign(a: real, b: real)
    requires a >= 0.0 && b > 0.0
    ensures a / b >= 0.0
  {
  }

  lemma SquareSign(z: real)
    ensures z * z >= 0.0
  {
  }

  lemma RadicandMirrors(k: nat, n: nat, z: real)
    requires n > 0 && k <= n
    ensures Radicand(n - k, n, z) == Radicand(k, n, z)
  {
    ProportionRange(k, n);
    var p := Proportion(k, n);
    var v := p * (1.0 - p);
    assert Proportion(n - k, n) * (1.0 - Proportion(n - k, n)) == v;
  }

  /** Misses mirror hits: the interval for `n - k` is the one for `k` seen from the other end. */
  lemma Mirror(k: nat, n: nat, z: real, root: real)
    requires n > 0 && k <= n && z >= 0.0 && IsRoot(root, Radicand(k, n, z))
    ensures IsRoot(root, Radicand(n - k, n, z))
    ensures Interval(n - k, n, z, root) ==
            (1.0 - Interval(k, n, z, root).1, 1.0 - Interval(k, n, z, root).0)
  {
    var p, q, w := Proportion(k, n), z * z / n as real, z * root;
    ProportionRange(k, n);
    RadicandMirrors(k, n, z);
    Normalised(k, n, z, root);
    Normalised(n - k, n, z, root);
    Flip(p, q, w);
    WithinUnit(k, n, z, root);
    WithinUnit(n - k, n, z, root);
  }

  /** What the interval means: it is the set of true recalls that the score test does not
      reject, those within `z` standard errors of the observed proportion. */
  lemma IsScoreTest(k: nat, n: nat, z: real, root: real, x: real)
    requires n > 0 && k <= n && z >= 0.0 && IsRoot(root, Radicand(k, n, z))
    ensures var p, (low, high) := Proportion(k, n), Interval(k, n, z, root);
            low <= x <= high <==> (x - p) * (x - p) <= z * z / n as real * (x * (1.0 - x))
  {
    var p, q, w := Proportion(k, n), z * z / n as real, z * root;
    Normalised(k, n, z, root);
    WithinUnit(k, n, z, root);
    Factored(p, q, w, x);
    SignOfProduct(Low(p, q, w), High(p, q, w), 1.0 + q, x);
  }

  /** However perfect the count, the interval has width as soon as `z` is positive: 8 out
      of 8 never claims the point interval [1, 1]. */
  lemma NeverAPoint(k: nat, n: nat, z: real, root: real)
    requires n > 0 && k <= n && z >= 0.0 && IsRoot(root, Radicand(k, n, z))
    ensures Interval(k, n, z, root).0 < Interval(k, n, z, root).1 <==> z > 0.0
  {
    var p, q, w := Proportion(k, n), z * z / n as real, z * root;
    Normalised(k, n, z, root);
    WithinUnit(k, n, z, root);
    var d := 1.0 + q;
    DivideOrder(p + q / 2.0 - w, p + q / 2.0 + w, d);
    DivideOrder(p + q / 2.0 + w, p + q / 2.0 - w, d);
    if z > 0.0 {
      WidthIsPositive(p, q, w, z, n as real);
    }
  }

  lemma WidthIsPositive(p: real, q: real, w: real, z: real, nn: real)
    requires Consistent(p, q, w) && z > 0.0 && nn > 0.0 && q == z * z / nn
    ensures w > 0.0
  {
    var zz := z * z;
    SquareOrder(0.0, z);
    QuotientPositive(zz, nn);
    PositiveProduct(q, q);
    ProductSign(p, 1.0 - p);
    ProductSign(q, p * (1.0 - p));
    assert w * w > 0.0;
  }

  lemma QuotientPositive(a: real, b: real)
    requires a > 0.0 && b > 0.0
    ensures a / b > 0.0
  {
  }
}
