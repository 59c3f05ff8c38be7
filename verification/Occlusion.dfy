/** Recall split by occlusion bucket (detector/eval/recall_eval.py, `recall_by_occlusion`). */
module Occlusion {
  import opened Common
  import opened Matching
  import opened EvalRecords

  /** `occ or "all"`: a missing or empty tag goes to the common bucket. */
  function BucketKey(occlusion: Option<string>): string {
    if occlusion.None? || occlusion.value == "" then "all" else occlusion.value
  }

  /** Ground truths share a bucket exactly when they carry the same tag, where no tag, an empty
      one and the tag "all" are the same. */
  lemma SameBucket(a: Option<string>, b: Option<string>)
    ensures BucketKey(a) == BucketKey(b) <==>
              a == b || (a in {None, Some(""), Some("all")} && b in {None, Some(""), Some("all")})
  {
  }

  function InBucket(key: string): GtRecord -> bool {
    (r: GtRecord) => BucketKey(r.occlusion) == key
  }

  function Bucket(table: seq<GtRecord>, key: string): seq<GtRecord> { Filter(table, InBucket(key)) }

  function BucketKeys(table: seq<GtRecord>): set<string> {
    set r | r in table :: BucketKey(r.occlusion)
  }

  /** A sum over a finite set of buckets. */
  ghost function SumBuckets(keys: set<string>, f: string -> int): int {
    if keys == {} then 0 else
    var k :| k in keys;
    f(k) + SumBuckets(keys - {k}, f)
  }

  lemma {:induction false} SumBucketsTakeOut(keys: set<string>, f: string -> int, k: string)
    requires k in keys
    ensures SumBuckets(keys, f) == f(k) + SumBuckets(keys - {k}, f)
  {
    var chosen :| chosen in keys && SumBuckets(keys, f) == f(chosen) + SumBuckets(keys - {chosen}, f);
    if chosen != k {
      SumBucketsTakeOut(keys - {chosen}, f, k);
      SumBucketsTakeOut(keys - {k}, f, chosen);
      assert keys - {chosen} - {k} == keys - {k} - {chosen};
    }
  }

  lemma {:induction false} SumBucketsSame(keys: set<string>, f: string -> int, g: string -> int)
    requires forall k :: k in keys ==> f(k) == g(k)
    ensures SumBuckets(keys, f) == SumBuckets(keys, g)
  {
    if keys != {} {
      var k :| k in keys;
      SumBucketsTakeOut(keys, f, k);
      SumBucketsTakeOut(keys, g, k);
      SumBucketsSame(keys - {k}, f, g);
    }
  }

  lemma {:induction false} SumBucketsZero(keys: set<string>, f: string -> int)
    requires forall k :: k in keys ==> f(k) == 0
    ensures SumBuckets(keys, f) == 0
  {
    if keys != {} {
      var k :| k in keys;
      SumBucketsTakeOut(keys, f, k);
      SumBucketsZero(keys - {k}, f);
    }
  }

  function SizeOf(table: seq<GtRecord>, keep: GtRecord -> bool): string -> int {
    (key: string) => |Filter(Bucket(table, key), keep)|
  }

  /** The buckets partition the records: counted bucket by bucket, nothing is lost and
      nothing is counted twice. */
  lemma {:induction false} BucketsPartition(table: seq<GtRecord>, keys: set<string>, keep: GtRecord -> bool)
    requires forall r :: r in table ==> BucketKey(r.occlusion) in keys
    ensures SumBuckets(keys, SizeOf(table, keep)) == |Filter(table, keep)|
  {
    if table == [] {
      SumBucketsZero(keys, SizeOf(table, keep));
    } else {
      var n := |table| - 1;
      var before, last := table[..n], table[n];
      var home := BucketKey(last.occlusion);
      assert last in table;
      BucketsPartition(before, keys, keep);
      FilterSnoc(Bucket(before, home), last, keep);
      assert table == before + [last];
      forall k | k in keys && k != home
        ensures SizeOf(table, keep)(k) == SizeOf(before, keep)(k)
      {
        FilterSnoc(before, last, InBucket(k));
        assert Bucket(table, k) == Bucket(before, k);
      }
      FilterSnoc(before, last, InBucket(home));
      SumBucketsTakeOut(keys, SizeOf(table, keep), home);
      SumBucketsTakeOut(keys, SizeOf(before, keep), home);
      SumBucketsSame(keys - {home}, SizeOf(table, keep), SizeOf(before, keep));
    }
  }

  function Everything(): GtRecord -> bool { (r: GtRecord) => true }

  lemma {:induction false} KeepEverything(table: seq<GtRecord>)
    ensures Filter(table, Everything()) == table
  {
    if table != [] {
      KeepEverything(table[..|table| - 1]);
    }
  }

  /** The recalled ground truths of the buckets sum to the true positives of the class at
      that threshold, and their totals to its number of ground truths. */
  lemma BucketsSumToPoint(images: seq<Image>, c: string, m: Metric, t: real)
    ensures var table := GtTable(images, c, m);
            var p := Point(PredTable(images, c, m), GtCount(images, c), |images|, t);
            && SumBuckets(BucketKeys(table), SizeOf(table, IsRecalled(t))) == p.tp
            && SumBuckets(BucketKeys(table), SizeOf(table, Everything())) == p.tp + p.fn == GtCount(images, c)
  {
    var table := GtTable(images, c, m);
    TpIsRecalled(images, c, m, t);
    BucketsPartition(table, BucketKeys(table), IsRecalled(t));
    BucketsPartition(table, BucketKeys(table), Everything());
    KeepEverything(table);
  }

  lemma {:induction false} MaskKeepsBucket(table: seq<GtRecord>, key: string, t: real)
    ensures Bucket(MaskAll(table, t), key) == MaskAll(Bucket(table, key), t)
  {
    if table != [] {
      var n := |table| - 1;
      MaskKeepsBucket(table[..n], key, t);
      assert MaskAll(table, t) == MaskAll(table[..n], t) + [Mask(table[n], t)];
      FilterSnoc(MaskAll(table[..n], t), Mask(table[n], t), InBucket(key));
    }
  }

  /** Bucket by bucket too, thresholding the stored records is re-matching: the bucket
      holds the same ground truths, and those recalled are those matched again. */
  lemma BucketIsRematch(images: seq<Image>, c: string, m: Metric, t: real, key: string)
    ensures var again := Bucket(GtTable(PruneAll(images, t), c, m), key);
            var stored := Bucket(GtTable(images, c, m), key);
            && |again| == |stored|
            && |Filter(again, IsMatched())| == RecalledAt(stored, t)
  {
    MatchOnceThenFilter(images, c, m, t);
    MaskKeepsBucket(GtTable(images, c, m), key, t);
    MaskedCount(Bucket(GtTable(images, c, m), key), t);
  }
}
