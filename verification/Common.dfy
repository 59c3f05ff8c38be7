/** Small vocabulary shared by the models: optional values, numbers that may be
    undefined, filters, stable sorting and cardinality facts. */
module Common {

  datatype Option<+T> = None | Some(value: T)

  /** A float result of the evaluation code: a number, or the NaN it returns when
      the quotient has no meaning.  Comparisons with NaN are false. */
  datatype Num = NaN | Val(v: real) {
    predicate AtMost(bound: real) {
      Val? && v <= bound
    }

    predicate Exceeds(other: Num) {
      Val? && other.Val? && v > other.v
    }
  }

  function Quotient(a: int, b: int): Num {
    if b == 0 then NaN else Val(a as real / b as real)
  }

  // ---------------------------------------------------------------- filtering

  /** The elements of `s` accepted by `keep`, in their order. */
  function Filter<T>(s: seq<T>, keep: T -> bool): seq<T> {
    if s == [] then [] else
    Filter(s[..|s| - 1], keep) + (if keep(s[|s| - 1]) then [s[|s| - 1]] else [])
  }

  lemma {:induction false} FilterConcat<T>(a: seq<T>, b: seq<T>, keep: T -> bool)
    ensures Filter(a + b, keep) == Filter(a, keep) + Filter(b, keep)
  {
    if b == [] {
      assert a + b == a;
    } else {
      var n := |b| - 1;
      assert (a + b)[..|a + b| - 1] == a + b[..n];
      FilterConcat(a, b[..n], keep);
    }
  }

  lemma {:induction false} FilterCommutes<T>(s: seq<T>, f: T -> bool, g: T -> bool)
    ensures Filter(Filter(s, f), g) == Filter(Filter(s, g), f)
  {
    if s != [] {
      var n := |s| - 1;
      FilterCommutes(s[..n], f, g);
      assert Filter(s[..n], f) + [] == Filter(s[..n], f);
      assert Filter(s[..n], g) + [] == Filter(s[..n], g);
      FilterSnoc(Filter(s[..n], f), s[n], g);
      FilterSnoc(Filter(s[..n], g), s[n], f);
    }
  }

  lemma {:induction false} FilterMember<T>(s: seq<T>, keep: T -> bool, x: T)
    ensures x in Filter(s, keep) <==> x in s && keep(x)
  {
    if s != [] {
      assert s == s[..|s| - 1] + [s[|s| - 1]];
      FilterMember(s[..|s| - 1], keep, x);
    }
  }

  lemma FilterSnoc<T>(s: seq<T>, x: T, keep: T -> bool)
    ensures Filter(s + [x], keep) == Filter(s, keep) + (if keep(x) then [x] else [])
  {
    assert (s + [x])[..|s|] == s;
  }

  /** Filtering loses nothing it should keep and invents nothing. */
  lemma {:induction false} FilterMultiset<T>(s: seq<T>, keep: T -> bool, x: T)
    ensures multiset(Filter(s, keep))[x] == if keep(x) then multiset(s)[x] else 0
  {
    if s != [] {
      var n := |s| - 1;
      assert s == s[..n] + [s[n]];
      FilterMultiset(s[..n], keep, x);
    }
  }

  /** Filtering twice is filtering once by both tests. */
  lemma {:induction false} FilterBoth<T>(s: seq<T>, f: T -> bool, g: T -> bool, both: T -> bool)
    requires forall x :: x in s ==> both(x) == (f(x) && g(x))
    ensures Filter(Filter(s, f), g) == Filter(s, both)
  {
    if s != [] {
      var n := |s| - 1;
      FilterBoth(s[..n], f, g, both);
      var inner := Filter(s[..n], f);
      FilterSnoc(inner, s[n], g);
      assert s[n] in s;
      assert inner + [] == inner && Filter(inner, g) + [] == Filter(inner, g);
    }
  }

  lemma {:induction false} SameFilter<T>(s: seq<T>, f: T -> bool, g: T -> bool)
    requires forall x :: f(x) == g(x)
    ensures Filter(s, f) == Filter(s, g)
  {
    if s != [] {
      SameFilter(s[..|s| - 1], f, g);
    }
  }

  /** Two complementary filters split a sequence. */
  lemma {:induction false} FilterSplit<T>(s: seq<T>, f: T -> bool, g: T -> bool)
    requires forall x :: x in s ==> f(x) == !g(x)
    ensures |Filter(s, f)| + |Filter(s, g)| == |s|
  {
    if s != [] {
      FilterSplit(s[..|s| - 1], f, g);
    }
  }

  /** A filter that accepts what exactly one of two others accepts counts them together. */
  lemma {:induction false} FilterDisjoint<T>(s: seq<T>, f: T -> bool, g: T -> bool, either: T -> bool)
    requires forall x :: x in s ==> either(x) == (f(x) || g(x)) && !(f(x) && g(x))
    ensures |Filter(s, either)| == |Filter(s, f)| + |Filter(s, g)|
  {
    if s != [] {
      assert s[|s| - 1] in s;
      FilterDisjoint(s[..|s| - 1], f, g, either);
    }
  }

  lemma {:induction false} FilterAll<T>(s: seq<T>, keep: T -> bool)
    requires forall x :: x in s ==> keep(x)
    ensures Filter(s, keep) == s
  {
    if s != [] {
      assert s[|s| - 1] in s;
      FilterAll(s[..|s| - 1], keep);
    }
  }

  lemma {:induction false} FilterMonotone<T>(s: seq<T>, f: T -> bool, g: T -> bool)
    requires forall x :: x in s && f(x) ==> g(x)
    ensures |Filter(s, f)| <= |Filter(s, g)|
  {
    if s != [] {
      FilterMonotone(s[..|s| - 1], f, g);
    }
  }

  ghost function Positions<T>(s: seq<T>, keep: T -> bool): set<nat> {
    set i: nat | i < |s| && keep(s[i])
  }

  lemma {:induction false} FilterCard<T>(s: seq<T>, keep: T -> bool)
    ensures |Filter(s, keep)| == |Positions(s, keep)|
  {
    if s != [] {
      var n := |s| - 1;
      FilterCard(s[..n], keep);
      var last := if keep(s[n]) then {n} else {};
      assert Positions(s, keep) == Positions(s[..n], keep) + last;
    }
  }

  // -------------------------------------------------------------- cardinality

  /** An injection from `s` into `t` bounds the size of `s`. */
  lemma {:induction false} InjectionBound<T, U>(s: set<T>, t: set<U>, f: T -> U)
    requires forall x :: x in s ==> f(x) in t
    requires forall x, y :: x in s && y in s && f(x) == f(y) ==> x == y
    ensures |s| <= |t|
  {
    if s != {} {
      var x :| x in s;
      InjectionBound(s - {x}, t - {f(x)}, f);
    }
  }

  // ------------------------------------------------------------------ mapping

  function Map<T, U>(s: seq<T>, f: T -> U): (r: seq<U>)
    ensures |r| == |s|
  {
    if s == [] then [] else Map(s[..|s| - 1], f) + [f(s[|s| - 1])]
  }

  lemma {:induction false} MapAt<T, U>(s: seq<T>, f: T -> U, i: nat)
    requires i < |s|
    ensures Map(s, f)[i] == f(s[i])
  {
    if i < |s| - 1 {
      MapAt(s[..|s| - 1], f, i);
    }
  }

  lemma {:induction false} MapConcat<T, U>(a: seq<T>, b: seq<T>, f: T -> U)
    ensures Map(a + b, f) == Map(a, f) + Map(b, f)
  {
    if b == [] {
      assert a + b == a;
    } else {
      assert (a + b)[..|a + b| - 1] == a + b[..|b| - 1];
      MapConcat(a, b[..|b| - 1], f);
    }
  }

  lemma MapSnoc<T, U>(s: seq<T>, x: T, f: T -> U)
    ensures Map(s + [x], f) == Map(s, f) + [f(x)]
  {
    assert (s + [x])[..|s|] == s;
  }

  lemma MapInserted<T, U>(a: seq<T>, x: T, b: seq<T>, f: T -> U)
    ensures multiset(Map(a + [x] + b, f)) == multiset(Map(a + b, f)) + multiset{f(x)}
  {
    MapConcat(a + [x], b, f);
    MapSnoc(a, x, f);
    MapConcat(a, b, f);
  }

  lemma SplitAt<T>(s: seq<T>, k: nat)
    requires k < |s|
    ensures s == s[..k] + [s[k]] + s[k + 1..]
  {
  }

  lemma MapWithout<T, U>(s: seq<T>, f: T -> U, k: nat)
    requires k < |s|
    ensures multiset(Map(s, f)) == multiset(Map(s[..k] + s[k + 1..], f)) + multiset{f(s[k])}
  {
    SplitAt(s, k);
    var a, x, b := s[..k], s[k], s[k + 1..];
    MapInserted(a, x, b, f);
  }

  lemma {:induction false} MapPermute<T, U>(a: seq<T>, b: seq<T>, f: T -> U)
    requires multiset(a) == multiset(b)
    ensures multiset(Map(a, f)) == multiset(Map(b, f))
  {
    SameLength(a, b);
    if a != [] {
      var n := |a| - 1;
      assert a[n] in multiset(b);
      var k :| 0 <= k < |b| && b[k] == a[n];
      WithoutMultiset(a, n);
      WithoutMultiset(b, k);
      assert a[..n] + a[n + 1..] == a[..n];
      MapPermute(a[..n], b[..k] + b[k + 1..], f);
      MapWithout(b, f, k);
    }
  }

  /** Counting what a mapping of kept elements yields is counting the elements that yield it. */
  lemma {:induction false} CountMapped<T, U>(s: seq<T>, keep: T -> bool, f: T -> U, kind: U -> bool, judged: T -> bool)
    requires forall x :: x in s ==> judged(x) == (keep(x) && kind(f(x)))
    ensures |Filter(Map(Filter(s, keep), f), kind)| == |Filter(s, judged)|
  {
    if s != [] {
      var front, last := s[..|s| - 1], s[|s| - 1];
      CountMapped(front, keep, f, kind, judged);
      assert last in s && s == front + [last];
      FilterSnoc(front, last, keep);
      FilterSnoc(front, last, judged);
      if keep(last) {
        assert Filter(s, keep) == Filter(front, keep) + [last];
        MapSnoc(Filter(front, keep), last, f);
        FilterSnoc(Map(Filter(front, keep), f), f(last), kind);
      } else {
        assert Filter(s, keep) == Filter(front, keep);
      }
    }
  }

  lemma {:induction false} MapMap<T, U, V>(s: seq<T>, f: T -> U, g: U -> V, h: T -> V)
    requires forall x :: x in s ==> g(f(x)) == h(x)
    ensures Map(Map(s, f), g) == Map(s, h)
  {
    if s != [] {
      var front, last := s[..|s| - 1], s[|s| - 1];
      assert last in s;
      MapMap(front, f, g, h);
      MapSnoc(Map(front, f), f(last), g);
    }
  }

  lemma {:induction false} FilterNone<T>(s: seq<T>, keep: T -> bool)
    requires forall i :: 0 <= i < |s| ==> !keep(s[i])
    ensures Filter(s, keep) == []
  {
    if s != [] {
      FilterNone(s[..|s| - 1], keep);
    }
  }

  lemma {:induction false} FilterShorter<T>(s: seq<T>, keep: T -> bool)
    ensures |Filter(s, keep)| <= |s|
    ensures |Filter(s, keep)| == |s| <==> forall i :: 0 <= i < |s| ==> keep(s[i])
  {
    if s != [] {
      FilterShorter(s[..|s| - 1], keep);
    }
  }

  /** A table that appends one piece for every element. */
  ghost predicate Appends<T(!new), U(!new)>(table: seq<T> -> seq<U>, piece: T -> seq<U>) {
    table([]) == [] && forall s, x :: table(s + [x]) == table(s) + piece(x)
  }

  lemma {:induction false} AppendsConcat<T(!new), U(!new)>(table: seq<T> -> seq<U>, piece: T -> seq<U>, a: seq<T>, b: seq<T>)
    requires Appends(table, piece)
    ensures table(a + b) == table(a) + table(b)
  {
    if b == [] {
      assert a + b == a;
    } else {
      var front, last := b[..|b| - 1], b[|b| - 1];
      AppendsConcat(table, piece, a, front);
      assert a + b == (a + front) + [last] && b == front + [last];
    }
  }

  /** So every element has its piece in its place. */
  lemma AppendsInPlace<T(!new), U(!new)>(table: seq<T> -> seq<U>, piece: T -> seq<U>, a: seq<T>, x: T, b: seq<T>)
    requires Appends(table, piece)
    ensures table(a + [x] + b) == table(a) + piece(x) + table(b)
  {
    AppendsConcat(table, piece, a + [x], b);
  }

  // --------------------------------------------------------------------- sums

  function Sum<T>(s: seq<T>, f: T -> int): int {
    if s == [] then 0 else Sum(s[..|s| - 1], f) + f(s[|s| - 1])
  }

  lemma {:induction false} SumConcat<T>(a: seq<T>, b: seq<T>, f: T -> int)
    ensures Sum(a + b, f) == Sum(a, f) + Sum(b, f)
  {
    if b == [] {
      assert a + b == a;
    } else {
      assert (a + b)[..|a + b| - 1] == a + b[..|b| - 1];
      SumConcat(a, b[..|b| - 1], f);
    }
  }

  /** Putting an element into the middle adds its summand. */
  lemma SumInserted<T>(a: seq<T>, x: T, b: seq<T>, f: T -> int)
    ensures Sum(a + [x] + b, f) == Sum(a + b, f) + f(x)
  {
    SumConcat(a + [x], b, f);
    SumConcat(a, b, f);
    assert (a + [x])[..|a|] == a;
  }

  lemma WithoutMultiset<T>(s: seq<T>, k: nat)
    requires k < |s|
    ensures multiset(s[..k] + s[k + 1..]) == multiset(s) - multiset{s[k]}
  {
    assert s == s[..k] + ([s[k]] + s[k + 1..]);
  }

  lemma SameLength<T>(a: seq<T>, b: seq<T>)
    requires multiset(a) == multiset(b)
    ensures |a| == |b|
  {
    assert |a| == |multiset(a)| == |multiset(b)| == |b|;
  }

  lemma SameElements<T>(a: seq<T>, b: seq<T>, x: T)
    requires multiset(a) == multiset(b)
    ensures x in a <==> x in b
  {
    assert x in a <==> x in multiset(a);
    assert x in b <==> x in multiset(b);
  }

  /** A sum does not depend on the order of its terms. */
  lemma {:induction false} SumPermute<T>(a: seq<T>, b: seq<T>, f: T -> int)
    requires multiset(a) == multiset(b)
    ensures Sum(a, f) == Sum(b, f)
  {
    SameLength(a, b);
    if a != [] {
      var n := |a| - 1;
      assert a[n] in multiset(b);
      var k :| 0 <= k < |b| && b[k] == a[n];
      WithoutMultiset(a, n);
      WithoutMultiset(b, k);
      assert a[..n] + a[n + 1..] == a[..n];
      SumPermute(a[..n], b[..k] + b[k + 1..], f);
      SplitAt(b, k);
      SumInserted(b[..k], b[k], b[k + 1..], f);
    }
  }

  function Total(s: seq<real>): real {
    if s == [] then 0.0 else Total(s[..|s| - 1]) + s[|s| - 1]
  }

  lemma TotalSnoc(s: seq<real>, x: real)
    ensures Total(s + [x]) == Total(s) + x
  {
    assert (s + [x])[..|s|] == s;
  }

  function Indicator<T>(keep: T -> bool): T -> int { (x: T) => if keep(x) then 1 else 0 }

  lemma {:induction false} FilterAsSum<T>(s: seq<T>, keep: T -> bool)
    ensures |Filter(s, keep)| == Sum(s, Indicator(keep))
  {
    if s != [] {
      FilterAsSum(s[..|s| - 1], keep);
    }
  }

  lemma FilterPermute<T>(a: seq<T>, b: seq<T>, keep: T -> bool)
    requires multiset(a) == multiset(b)
    ensures |Filter(a, keep)| == |Filter(b, keep)|
  {
    FilterAsSum(a, keep);
    FilterAsSum(b, keep);
    SumPermute(a, b, Indicator(keep));
  }

  function RealSum<T>(s: seq<T>, g: T -> real): real {
    if s == [] then 0.0 else RealSum(s[..|s| - 1], g) + g(s[|s| - 1])
  }

  lemma RealSumSnoc<T>(s: seq<T>, x: T, v: T -> real)
    ensures RealSum(s + [x], v) == RealSum(s, v) + v(x)
    ensures RealSum(s + [], v) == RealSum(s, v)
  {
    assert (s + [x])[..|s|] == s;
    assert s + [] == s;
  }

  lemma {:induction false} RealSumConcat<T>(a: seq<T>, b: seq<T>, v: T -> real)
    ensures RealSum(a + b, v) == RealSum(a, v) + RealSum(b, v)
  {
    if b == [] {
      assert a + b == a;
    } else {
      assert (a + b)[..|a + b| - 1] == a + b[..|b| - 1];
      RealSumConcat(a, b[..|b| - 1], v);
    }
  }

  lemma RealSumInserted<T>(a: seq<T>, x: T, b: seq<T>, v: T -> real)
    ensures RealSum(a + [x] + b, v) == RealSum(a + b, v) + v(x)
  {
    RealSumConcat(a + [x], b, v);
    RealSumConcat(a, b, v);
    RealSumSnoc(a, x, v);
  }

  /** Nor does a sum of reals depend on the order of its terms. */
  lemma {:induction false} RealSumPermute<T>(a: seq<T>, b: seq<T>, v: T -> real)
    requires multiset(a) == multiset(b)
    ensures RealSum(a, v) == RealSum(b, v)
  {
    SameLength(a, b);
    if a != [] {
      var n := |a| - 1;
      assert a[n] in multiset(b);
      var k :| 0 <= k < |b| && b[k] == a[n];
      WithoutMultiset(a, n);
      WithoutMultiset(b, k);
      assert a[..n] + a[n + 1..] == a[..n];
      RealSumPermute(a[..n], b[..k] + b[k + 1..], v);
      SplitAt(b, k);
      RealSumInserted(b[..k], b[k], b[k + 1..], v);
    }
  }

  // ------------------------------------------------------------------ sorting

  ghost predicate SortedDesc<T>(s: seq<T>, key: T -> real) {
    forall i, j :: 0 <= i < j < |s| ==> key(s[i]) >= key(s[j])
  }

  /** Put `x` behind every element of the sorted sequence that does not rank below it. */
  function InsertDesc<T>(s: seq<T>, x: T, key: T -> real): seq<T> {
    if s == [] || key(s[|s| - 1]) >= key(x) then s + [x]
    else InsertDesc(s[..|s| - 1], x, key) + [s[|s| - 1]]
  }

  /** `sorted(s, key=key, reverse=True)`: descending, and elements of equal key keep
      the order they came in. */
  function SortDesc<T>(s: seq<T>, key: T -> real): seq<T> {
    if s == [] then [] else InsertDesc(SortDesc(s[..|s| - 1], key), s[|s| - 1], key)
  }

  lemma {:induction false} InsertAdds<T>(s: seq<T>, x: T, key: T -> real)
    ensures multiset(InsertDesc(s, x, key)) == multiset(s) + multiset{x}
    ensures |InsertDesc(s, x, key)| == |s| + 1
  {
    if !(s == [] || key(s[|s| - 1]) >= key(x)) {
      var n := |s| - 1;
      assert s == s[..n] + [s[n]];
      InsertAdds(s[..n], x, key);
    }
  }

  lemma {:induction false} InsertIsSorted<T>(s: seq<T>, x: T, key: T -> real)
    requires SortedDesc(s, key)
    ensures SortedDesc(InsertDesc(s, x, key), key)
  {
    if !(s == [] || key(s[|s| - 1]) >= key(x)) {
      var n := |s| - 1;
      var r := InsertDesc(s[..n], x, key);
      InsertIsSorted(s[..n], x, key);
      InsertAdds(s[..n], x, key);
      forall i | 0 <= i < |r| ensures key(r[i]) >= key(s[n]) {
        assert r[i] in multiset(r);
        assert r[i] == x || r[i] in s[..n];
      }
    }
  }

  lemma {:induction false} SortDescIsSort<T>(s: seq<T>, key: T -> real)
    ensures multiset(SortDesc(s, key)) == multiset(s)
    ensures |SortDesc(s, key)| == |s|
    ensures SortedDesc(SortDesc(s, key), key)
  {
    if s != [] {
      var n := |s| - 1;
      assert s == s[..n] + [s[n]];
      SortDescIsSort(s[..n], key);
      InsertIsSorted(SortDesc(s[..n], key), s[n], key);
      InsertAdds(SortDesc(s[..n], key), s[n], key);
    }
  }

  lemma InsertBefore<T>(s: seq<T>, y: T, x: T, key: T -> real)
    requires key(y) < key(x)
    ensures InsertDesc(s + [y], x, key) == InsertDesc(s, x, key) + [y]
  {
    assert (s + [y])[..|s|] == s;
  }

  lemma SortSnoc<T>(s: seq<T>, x: T, key: T -> real)
    ensures SortDesc(s + [x], key) == InsertDesc(SortDesc(s, key), x, key)
  {
    assert (s + [x])[..|s|] == s;
  }

  lemma FilterAppend<T>(s: seq<T>, x: T, key: T -> real, keep: T -> bool)
    requires forall y :: y in s ==> key(y) >= key(x)
    requires keep(x)
    ensures InsertDesc(Filter(s, keep), x, key) == Filter(s, keep) + [x]
  {
    var f := Filter(s, keep);
    if f != [] {
      FilterMember(s, keep, f[|f| - 1]);
    }
  }

  lemma {:induction false} InsertFilter<T>(s: seq<T>, x: T, key: T -> real, keep: T -> bool)
    requires SortedDesc(s, key)
    ensures Filter(InsertDesc(s, x, key), keep) ==
            if keep(x) then InsertDesc(Filter(s, keep), x, key) else Filter(s, keep)
    decreases |s|, 0
  {
    if s == [] || key(s[|s| - 1]) >= key(x) {
      FilterSnoc(s, x, keep);
      if keep(x) {
        FilterAppend(s, x, key, keep);
      }
    } else {
      InsertFilterInner(s[..|s| - 1], s[|s| - 1], x, key, keep);
    }
  }

  lemma {:induction false} InsertFilterInner<T>(s: seq<T>, y: T, x: T, key: T -> real, keep: T -> bool)
    requires SortedDesc(s, key) && key(y) < key(x)
    ensures Filter(InsertDesc(s + [y], x, key), keep) ==
            if keep(x) then InsertDesc(Filter(s + [y], keep), x, key) else Filter(s + [y], keep)
    decreases |s|, 1
  {
    InsertBefore(s, y, x, key);
    FilterSnoc(InsertDesc(s, x, key), y, keep);
    FilterSnoc(s, y, keep);
    InsertFilter(s, x, key, keep);
    var f := Filter(s, keep);
    InsertBefore(f, y, x, key);
    assert f + [] == f && InsertDesc(f, x, key) + [] == InsertDesc(f, x, key);
  }

  /** The sort is stable: it commutes with every filter.  With `keep` fixing one key
      value this says that elements of equal key keep their order. */
  lemma {:induction false} SortFilter<T>(s: seq<T>, key: T -> real, keep: T -> bool)
    ensures Filter(SortDesc(s, key), keep) == SortDesc(Filter(s, keep), key)
  {
    if s != [] {
      var n := |s| - 1;
      SortDescIsSort(s[..n], key);
      SortFilter(s[..n], key, keep);
      InsertFilter(SortDesc(s[..n], key), s[n], key, keep);
      if keep(s[n]) {
        SortSnoc(Filter(s[..n], keep), s[n], key);
      } else {
        assert Filter(s, keep) == Filter(s[..n], keep);
      }
    }
  }

  lemma {:induction false} SortSorted<T>(s: seq<T>, key: T -> real)
    requires SortedDesc(s, key)
    ensures SortDesc(s, key) == s
  {
    if s != [] {
      SortSorted(s[..|s| - 1], key);
    }
  }

  /** A kept element keeps its rank among the kept ones. */
  lemma {:induction false} FilterAt<T>(s: seq<T>, keep: T -> bool, i: nat)
    requires i < |s| && keep(s[i])
    ensures |Filter(s[..i], keep)| < |Filter(s, keep)|
    ensures Filter(s, keep)[|Filter(s[..i], keep)|] == s[i]
  {
    if i < |s| - 1 {
      FilterAt(s[..|s| - 1], keep, i);
      assert s[..|s| - 1][..i] == s[..i];
    }
  }
}
