/** From operator feedback to the label queue (datalayer/labelstore.py, quality.py,
    active_learning.py).  The random label id of an entry and its timestamps are not modelled. */
module LabelLoop {
  import opened Common
  import opened FeedbackContracts

  datatype Source = OperatorConfirmed | OperatorReclassified | OperatorMissed | HardNegative | TrueNegativeScan

  datatype LabelEntry = LabelEntry(scanId: Id, sha: string, frameId: string, source: Source, category: Category,
                                   operatorId: string, outcome: Outcome, box: Option<Box>, score: Option<real>,
                                   correctedFrom: Option<Category>, feedbackId: Id)

  // ------------------------------------------------------------------ extraction

  function ShaOf(f: Feedback, frameId: string): string {
    match FindFrame(f.detection.frames, frameId) case Some(frame) => frame.sha case None => "unknown"
  }

  /** The entry of a review that is a label. */
  function ReviewEntry(f: Feedback, r: Review): LabelEntry {
    var d := FindDetection(f.detection.detections, r.detectionId);
    var frameId := match d case Some(x) => x.frameId case None => "unknown";
    var own := match d case Some(x) => x.category case None => Unknown;
    var source := match r.judgement
                  case Confirmed => OperatorConfirmed
                  case Reclassified => OperatorReclassified
                  case _ => HardNegative;
    LabelEntry(f.scanId, ShaOf(f, frameId), frameId, source,
               if r.judgement.Reclassified? && r.corrected.Some? then r.corrected.value else own,
               f.operatorId, f.outcome,
               match d case Some(x) => Some(x.box) case None => None,
               match d case Some(x) => Some(x.score) case None => None,
               if r.judgement.Reclassified? then Some(own) else None, f.id)
  }

  function MissedEntry(f: Feedback, m: Annotation): LabelEntry {
    LabelEntry(f.scanId, ShaOf(f, m.frameId), m.frameId, OperatorMissed, m.category, f.operatorId, f.outcome,
               Some(m.box), None, None, f.id)
  }

  predicate Framed(f: Feedback) { f.detection.frames != [] }

  function ScanEntry(f: Feedback): LabelEntry
    requires Framed(f)
  {
    var first := f.detection.frames[0];
    LabelEntry(f.scanId, first.sha, first.id, TrueNegativeScan, Unknown, f.operatorId, f.outcome, None, None, None, f.id)
  }

  function IsLabel(): Review -> bool { (r: Review) => !r.judgement.Unreviewed? }

  function FromReview(f: Feedback): Review -> LabelEntry { (r: Review) => ReviewEntry(f, r) }

  function FromMissed(f: Feedback): Annotation -> LabelEntry { (m: Annotation) => MissedEntry(f, m) }

  /** Cleared, nothing reviewed, nothing missed, nothing found. */
  predicate IsTrueNegative(f: Feedback) {
    f.outcome.Cleared? && f.reviews == [] && f.missed == [] && f.detection.detections == []
  }

  function CleanScan(f: Feedback): nat { if IsTrueNegative(f) then 1 else 0 }

  /** `extract_label_entries`. */
  function Extracted(f: Feedback): seq<LabelEntry>
    requires Framed(f)
  {
    Map(Filter(f.reviews, IsLabel()), FromReview(f)) + Map(f.missed, FromMissed(f))
    + if IsTrueNegative(f) then [ScanEntry(f)] else []
  }

  lemma ReviewSnoc(f: Feedback, front: seq<Review>, r: Review)
    ensures Map(Filter(front + [r], IsLabel()), FromReview(f)) ==
            Map(Filter(front, IsLabel()), FromReview(f)) + if r.judgement.Unreviewed? then [] else [ReviewEntry(f, r)]
  {
    FilterSnoc(front, r, IsLabel());
    MapSnoc(Filter(front, IsLabel()), r, FromReview(f));
    if r.judgement.Unreviewed? {
      assert Filter(front + [r], IsLabel()) == Filter(front, IsLabel());
    }
  }

  lemma MissedSnoc(f: Feedback, front: seq<Annotation>, m: Annotation)
    ensures Map(front + [m], FromMissed(f)) == Map(front, FromMissed(f)) + [MissedEntry(f, m)]
  {
    MapSnoc(front, m, FromMissed(f));
  }

  /** The loop over the reviews. */
  method ExtractReviews(f: Feedback) returns (entries: seq<LabelEntry>)
    ensures entries == Map(Filter(f.reviews, IsLabel()), FromReview(f))
  {
    entries := [];
    for i := 0 to |f.reviews|
      invariant entries == Map(Filter(f.reviews[..i], IsLabel()), FromReview(f))
    {
      var rev := f.reviews[i];
      ReviewSnoc(f, f.reviews[..i], rev);
      assert f.reviews[..i + 1] == f.reviews[..i] + [rev];
      if !rev.judgement.Unreviewed? {
        entries := entries + [ReviewEntry(f, rev)];
      }
    }
    assert f.reviews[..|f.reviews|] == f.reviews;
  }

  /** The loop over the missed regions. */
  method ExtractMissed(f: Feedback) returns (entries: seq<LabelEntry>)
    ensures entries == Map(f.missed, FromMissed(f))
  {
    entries := [];
    for i := 0 to |f.missed|
      invariant entries == Map(f.missed[..i], FromMissed(f))
    {
      MissedSnoc(f, f.missed[..i], f.missed[i]);
      assert f.missed[..i + 1] == f.missed[..i] + [f.missed[i]];
      entries := entries + [MissedEntry(f, f.missed[i])];
    }
    assert f.missed[..|f.missed|] == f.missed;
  }

  method ExtractLabelEntries(f: Feedback) returns (entries: seq<LabelEntry>)
    requires Framed(f)
    ensures entries == Extracted(f)
  {
    var reviewed := ExtractReviews(f);
    var missed := ExtractMissed(f);
    entries := reviewed + missed;
    if f.outcome.Cleared? && f.reviews == [] && f.missed == [] && f.detection.detections == [] {
      entries := entries + [ScanEntry(f)];
    }
  }

  // -------------------------------------------------------------- what it yields

  predicate Positive(e: LabelEntry) {
    e.source.OperatorConfirmed? || e.source.OperatorReclassified? || e.source.OperatorMissed?
  }

  function IsPositive(): LabelEntry -> bool { (e: LabelEntry) => Positive(e) }

  function IsHardNegative(): LabelEntry -> bool { (e: LabelEntry) => e.source.HardNegative? }

  function IsTrueNegativeEntry(): LabelEntry -> bool { (e: LabelEntry) => e.source.TrueNegativeScan? }

  function IsGold(): Review -> bool { (r: Review) => r.judgement.Confirmed? || r.judgement.Reclassified? }

  function IsRejected(): Review -> bool { (r: Review) => r.judgement.Rejected? }

  /** `n_gold_labels`. */
  function GoldLabels(f: Feedback): nat { |Filter(f.reviews, IsGold())| + |f.missed| }

  /** `n_hard_negatives`. */
  function HardNegatives(f: Feedback): nat { |Filter(f.reviews, IsRejected())| }

  function Never(): Review -> bool { (r: Review) => false }

  lemma CountReviews(f: Feedback, reviews: seq<Review>)
    ensures |Filter(Map(Filter(reviews, IsLabel()), FromReview(f)), IsPositive())| == |Filter(reviews, IsGold())|
    ensures |Filter(Map(Filter(reviews, IsLabel()), FromReview(f)), IsHardNegative())| == |Filter(reviews, IsRejected())|
    ensures |Filter(Map(Filter(reviews, IsLabel()), FromReview(f)), IsTrueNegativeEntry())| == 0
  {
    CountMapped(reviews, IsLabel(), FromReview(f), IsPositive(), IsGold());
    CountMapped(reviews, IsLabel(), FromReview(f), IsHardNegative(), IsRejected());
    CountMapped(reviews, IsLabel(), FromReview(f), IsTrueNegativeEntry(), Never());
    FilterNone(reviews, Never());
  }

  lemma CountMissed(f: Feedback, missed: seq<Annotation>)
    ensures |Filter(Map(missed, FromMissed(f)), IsPositive())| == |missed|
    ensures Filter(Map(missed, FromMissed(f)), IsHardNegative()) == []
    ensures Filter(Map(missed, FromMissed(f)), IsTrueNegativeEntry()) == []
  {
    var entries := Map(missed, FromMissed(f));
    forall i | 0 <= i < |entries| ensures entries[i].source.OperatorMissed? {
      MapAt(missed, FromMissed(f), i);
    }
    FilterAll(entries, IsPositive());
    FilterNone(entries, IsHardNegative());
    FilterNone(entries, IsTrueNegativeEntry());
  }

  /** Exactly the gold labels become positives and the rejections hard negatives; there is one
      true-negative entry for a clean scan and none otherwise. */
  lemma ExtractionCounts(f: Feedback)
    requires Framed(f)
    ensures |Filter(Extracted(f), IsPositive())| == GoldLabels(f)
    ensures |Filter(Extracted(f), IsHardNegative())| == HardNegatives(f)
    ensures |Filter(Extracted(f), IsTrueNegativeEntry())| == CleanScan(f)
  {
    CountReviews(f, f.reviews);
    CountMissed(f, f.missed);
    CountOf(f, IsPositive());
    CountOf(f, IsHardNegative());
    CountOf(f, IsTrueNegativeEntry());
  }

  lemma CountOf(f: Feedback, keep: LabelEntry -> bool)
    requires Framed(f)
    ensures |Filter(Extracted(f), keep)| ==
            |Filter(Map(Filter(f.reviews, IsLabel()), FromReview(f)), keep)|
            + |Filter(Map(f.missed, FromMissed(f)), keep)|
            + if IsTrueNegative(f) && keep(ScanEntry(f)) then 1 else 0
  {
    var reviewed, missed := Map(Filter(f.reviews, IsLabel()), FromReview(f)), Map(f.missed, FromMissed(f));
    FilterConcat(reviewed, missed, keep);
    if IsTrueNegative(f) {
      FilterSnoc(reviewed + missed, ScanEntry(f), keep);
    } else {
      assert Extracted(f) == reviewed + missed;
    }
  }

  /** Positives, hard negatives and true negatives are everything. */
  lemma KindsPartition(entries: seq<LabelEntry>)
    ensures |Filter(entries, IsPositive())| + |Filter(entries, IsHardNegative())| + |Filter(entries, IsTrueNegativeEntry())|
            == |entries|
  {
    FilterDisjoint(entries, IsHardNegative(), IsTrueNegativeEntry(), NotPositive());
    FilterSplit(entries, IsPositive(), NotPositive());
  }

  function NotPositive(): LabelEntry -> bool { (e: LabelEntry) => e.source.HardNegative? || e.source.TrueNegativeScan? }

  /** The entry points at a real frame by its real hash, its box (if any) lies in that frame,
      and a region-level entry has a box. */
  ghost predicate Grounded(f: Feedback, e: LabelEntry) {
    && InFrame(FindFrame(f.detection.frames, e.frameId), e)
    && (e.box.None? <==> e.source.TrueNegativeScan?)
    && (e.source.TrueNegativeScan? ==> e.outcome.Cleared?)
    && e.scanId == f.detection.scanId && e.operatorId == f.operatorId && e.outcome == f.outcome && e.feedbackId == f.id
  }

  ghost predicate InFrame(frame: Option<Frame>, e: LabelEntry) {
    && frame.Some? && e.sha == frame.value.sha && e.frameId == frame.value.id
    && (e.box.Some? ==> e.box.value.Ok() && e.box.value.FitsWithin(frame.value))
  }

  lemma ReviewGrounded(f: Feedback, i: nat)
    requires Accepted(f) && i < |f.reviews|
    ensures var e := ReviewEntry(f, f.reviews[i]);
            && Grounded(f, e)
            && (exists d :: d in f.detection.detections && d.id == f.reviews[i].detectionId
                            && e.frameId == d.frameId && e.box == Some(d.box) && e.score == Some(d.score)
                            && (if f.reviews[i].judgement.Reclassified?
                                then f.reviews[i].corrected == Some(e.category) && e.correctedFrom == Some(d.category)
                                else e.category == d.category && e.correctedFrom == None))
            && (match f.reviews[i].judgement
                case Confirmed => e.source.OperatorConfirmed?
                case Reclassified => e.source.OperatorReclassified?
                case _ => e.source.HardNegative?)
  {
    var r := f.reviews[i];
    DetectionFound(f.detection.detections, r.detectionId);
    var d := FindDetection(f.detection.detections, r.detectionId).value;
    var k :| 0 <= k < |f.detection.detections| && f.detection.detections[k] == d;
    assert Placed(f.detection.frames, d.frameId, d.box);
    FrameFound(f.detection.frames, d.frameId);
    assert ReviewFields(r);
  }

  lemma MissedGrounded(f: Feedback, i: nat)
    requires Accepted(f) && i < |f.missed|
    ensures var e, a := MissedEntry(f, f.missed[i]), f.missed[i];
            && Grounded(f, e)
            && e.source.OperatorMissed? && e.category == a.category && e.box == Some(a.box) && e.frameId == a.frameId
            && e.score == None && e.correctedFrom == None
  {
    FrameFound(f.detection.frames, f.missed[i].frameId);
    assert Placed(f.detection.frames, f.missed[i].frameId, f.missed[i].box);
  }

  /** The entry of a clean scan carries its first frame, no box and no category. */
  lemma ScanEntryFields(f: Feedback)
    requires Framed(f)
    ensures var e, frame := ScanEntry(f), f.detection.frames[0];
            && e.scanId == f.scanId && e.sha == frame.sha && e.frameId == frame.id && e.source.TrueNegativeScan?
            && e.category.Unknown? && e.operatorId == f.operatorId && e.outcome == f.outcome && e.feedbackId == f.id
            && e.box == None && e.score == None && e.correctedFrom == None
  {
  }

  /** A review of a detection that is not there, which no accepted feedback has, yields an entry
      without place, score or category. */
  lemma DanglingReview(f: Feedback, r: Review)
    requires forall i :: 0 <= i < |f.detection.detections| ==> f.detection.detections[i].id != r.detectionId
    requires forall i :: 0 <= i < |f.detection.frames| ==> f.detection.frames[i].id != "unknown"
    ensures var e := ReviewEntry(f, r);
            && e.frameId == "unknown" && e.sha == "unknown" && e.box == None && e.score == None
            && (r.judgement.Reclassified? && r.corrected.Some? ==> e.category == r.corrected.value)
            && (!r.judgement.Reclassified? ==> e.category.Unknown?)
            && (r.judgement.Reclassified? ==> e.correctedFrom == Some(Unknown))
  {
    DetectionFound(f.detection.detections, r.detectionId);
    FrameFound(f.detection.frames, "unknown");
  }

  /** The entries stand in order: one for each review that is a judgement, one for each missed
      region after them, and the scan entry of a clean scan alone. */
  lemma EntriesInOrder(f: Feedback)
    requires Framed(f)
    ensures var judged := Filter(f.reviews, (r: Review) => !r.judgement.Unreviewed?);
            && (forall k :: 0 <= k < |judged| ==> k < |Extracted(f)| && Extracted(f)[k] == ReviewEntry(f, judged[k]))
            && (forall k :: 0 <= k < |f.missed| ==>
                  |judged| + k < |Extracted(f)| && Extracted(f)[|judged| + k] == MissedEntry(f, f.missed[k]))
            && (if f.outcome.Cleared? && f.reviews == [] && f.missed == [] && f.detection.detections == []
                then Extracted(f) == [ScanEntry(f)] else |Extracted(f)| == |judged| + |f.missed|)
  {
    var judged := Filter(f.reviews, (r: Review) => !r.judgement.Unreviewed?);
    SameReviews(f.reviews, (r: Review) => !r.judgement.Unreviewed?);
    forall k | 0 <= k < |judged| ensures Extracted(f)[k] == ReviewEntry(f, judged[k]) {
      MapAt(judged, FromReview(f), k);
    }
    forall k | 0 <= k < |f.missed| ensures Extracted(f)[|judged| + k] == MissedEntry(f, f.missed[k]) {
      MapAt(f.missed, FromMissed(f), k);
    }
  }

  lemma {:induction false} SameReviews(s: seq<Review>, judged: Review -> bool)
    requires forall r :: judged(r) == !r.judgement.Unreviewed?
    ensures Filter(s, judged) == Filter(s, IsLabel())
  {
    if s != [] {
      SameReviews(s[..|s| - 1], judged);
    }
  }

  /** The i-th entry comes from a review, from a missed region, or is the scan entry. */
  lemma Origin(f: Feedback, i: nat)
    requires Framed(f) && i < |Extracted(f)|
    ensures var e := Extracted(f)[i];
            || (exists k :: 0 <= k < |f.reviews| && !f.reviews[k].judgement.Unreviewed? && e == ReviewEntry(f, f.reviews[k]))
            || (exists k :: 0 <= k < |f.missed| && e == MissedEntry(f, f.missed[k]))
            || (IsTrueNegative(f) && e == ScanEntry(f))
  {
    var labels := Filter(f.reviews, IsLabel());
    var reviewed, missed := Map(labels, FromReview(f)), Map(f.missed, FromMissed(f));
    if i < |reviewed| {
      MapAt(labels, FromReview(f), i);
      FilterMember(f.reviews, IsLabel(), labels[i]);
      var k :| 0 <= k < |f.reviews| && f.reviews[k] == labels[i];
      assert Extracted(f)[i] == ReviewEntry(f, f.reviews[k]);
    } else if i < |reviewed| + |missed| {
      MapAt(f.missed, FromMissed(f), i - |reviewed|);
      assert Extracted(f)[i] == MissedEntry(f, f.missed[i - |reviewed|]);
    }
  }

  /** Accepted feedback never falls back to "unknown": every entry is grounded. */
  lemma NoFallback(f: Feedback, i: nat)
    requires Accepted(f) && i < |Extracted(f)|
    ensures Grounded(f, Extracted(f)[i])
  {
    Origin(f, i);
    var e := Extracted(f)[i];
    if k :| 0 <= k < |f.reviews| && e == ReviewEntry(f, f.reviews[k]) {
      ReviewGrounded(f, k);
    } else if k :| 0 <= k < |f.missed| && e == MissedEntry(f, f.missed[k]) {
      MissedGrounded(f, k);
    }
  }

  // ------------------------------------------------------------------- the gate

  datatype CheckResult = Pass | Fail | Skip

  function MinBoxArea(c: Category): int {
    match c
    case Narcotics => 1024
    case Firearm => 2025
    case BladedWeapon => 900
    case Explosive => 1024
    case Currency => 625
    case OrganicAnomaly => 4096
    case MetallicAnomaly => 2025
    case ContrabandOther => 625
    case Unknown => 625
  }

  const MAX_ASPECT_RATIO := 20

  predicate Blank(s: string) { forall i :: 0 <= i < |s| ==> IsSpace(s[i]) }

  function FailIf(b: bool): CheckResult { if b then Fail else Pass }

  function CheckOperatorId(e: LabelEntry): CheckResult { FailIf(e.operatorId == "" || Blank(e.operatorId)) }

  function CheckCategory(e: LabelEntry): CheckResult {
    FailIf(!e.source.TrueNegativeScan? && !e.source.HardNegative? && e.category.Unknown?)
  }

  function CheckBoxPresent(e: LabelEntry): CheckResult { FailIf(Positive(e) && e.box.None?) }

  function CheckBoxArea(e: LabelEntry): CheckResult {
    match e.box case None => Skip case Some(b) => FailIf(b.w * b.h < MinBoxArea(e.category))
  }

  function OrOne(n: int): int { if n == 0 then 1 else n }

  function Larger(a: int, b: int): int { if a >= b then a else b }

  function Smaller(a: int, b: int): int { if a <= b then a else b }

  function CheckAspectRatio(e: LabelEntry): CheckResult {
    match e.box
    case None => Skip
    case Some(b) =>
      var w, h := OrOne(b.w), OrOne(b.h);
      FailIf(Larger(w, h) as real / Larger(Smaller(w, h), 1) as real > MAX_ASPECT_RATIO as real)
  }

  function CheckPositiveDims(e: LabelEntry): CheckResult {
    match e.box case None => Skip case Some(b) => FailIf(b.w <= 0 || b.h <= 0)
  }

  function CheckSha(e: LabelEntry): CheckResult { FailIf(|e.sha| != 64) }

  function CheckSeizure(e: LabelEntry): CheckResult {
    FailIf(e.outcome.Seized? && (e.source.TrueNegativeScan? || e.source.HardNegative?) && e.box.None?)
  }

  function Checks(e: LabelEntry): seq<CheckResult> {
    [CheckOperatorId(e), CheckCategory(e), CheckBoxPresent(e), CheckBoxArea(e), CheckAspectRatio(e),
     CheckPositiveDims(e), CheckSha(e), CheckSeizure(e)]
  }

  function Passes(): LabelEntry -> bool { (e: LabelEntry) => Fail !in Checks(e) }

  lemma PassesMeans(e: LabelEntry)
    ensures Passes()(e) <==>
            && CheckOperatorId(e) != Fail && CheckCategory(e) != Fail && CheckBoxPresent(e) != Fail
            && CheckBoxArea(e) != Fail && CheckAspectRatio(e) != Fail && CheckPositiveDims(e) != Fail
            && CheckSha(e) != Fail && CheckSeizure(e) != Fail
  {
    var c := Checks(e);
    assert c[0] in c && c[1] in c && c[2] in c && c[3] in c && c[4] in c && c[5] in c && c[6] in c && c[7] in c;
  }

  /** The smallest region, in square pixels, that counts as a label of each category. */
  lemma MinimumAreas()
    ensures MinBoxArea(Narcotics) == MinBoxArea(Explosive) == 1024 && MinBoxArea(Firearm) == MinBoxArea(MetallicAnomaly) == 2025
    ensures MinBoxArea(BladedWeapon) == 900 && MinBoxArea(OrganicAnomaly) == 4096
    ensures MinBoxArea(Currency) == MinBoxArea(ContrabandOther) == MinBoxArea(Unknown) == 625
  {
  }

  /** The gate on any entry whatsoever, accepted feedback or not. */
  lemma PassesExactly(e: LabelEntry)
    ensures Passes()(e) <==>
            && (exists i :: 0 <= i < |e.operatorId| && !IsSpace(e.operatorId[i]))
            && |e.sha| == 64
            && (!e.source.TrueNegativeScan? && !e.source.HardNegative? ==> !e.category.Unknown? && e.box.Some?)
            && (e.box.Some? ==>
                  && e.box.value.w > 0 && e.box.value.h > 0
                  && e.box.value.w * e.box.value.h >= MinBoxArea(e.category)
                  && e.box.value.w <= 20 * e.box.value.h && e.box.value.h <= 20 * e.box.value.w)
            && (e.outcome.Seized? && (e.source.TrueNegativeScan? || e.source.HardNegative?) ==> e.box.Some?)
  {
    PassesMeans(e);
    if e.box.Some? && e.box.value.w > 0 && e.box.value.h > 0 {
      RatioBound(e.box.value.w, e.box.value.h);
    }
  }

  /** The shape of the box is all the gate looks at in an entry of accepted feedback, and the
      category where the entry is positive. */
  predicate GoodRegion(e: LabelEntry) {
    e.box.Some? ==>
      && e.box.value.w * e.box.value.h >= MinBoxArea(e.category)
      && Larger(e.box.value.w, e.box.value.h) <= MAX_ASPECT_RATIO * Smaller(e.box.value.w, e.box.value.h)
      && (e.source.HardNegative? || !e.category.Unknown?)
  }

  lemma RatioBound(w: int, h: int)
    requires w > 0 && h > 0
    ensures Larger(w, h) as real / Larger(Smaller(w, h), 1) as real > MAX_ASPECT_RATIO as real <==>
            Larger(w, h) > MAX_ASPECT_RATIO * Smaller(w, h)
  {
    Scale(Larger(w, h) as real, Smaller(w, h) as real);
  }

  lemma Scale(a: real, b: real)
    requires b > 0.0
    ensures a / b > 20.0 <==> a > 20.0 * b
  {
    var q := a / b;
    assert q * b == a;
    if q > 20.0 {
      assert (q - 20.0) * b > 0.0;
    } else {
      assert (20.0 - q) * b >= 0.0;
    }
  }

  /** Of accepted feedback, an entry passes the gate exactly when its region is large enough
      for its category, not too elongated and, for a positive, of a known category: the other
      five checks, the one on seizures among them, never fail. */
  lemma GateExactly(f: Feedback, i: nat)
    requires Accepted(f) && i < |Extracted(f)|
    ensures Passes()(Extracted(f)[i]) <==> GoodRegion(Extracted(f)[i])
  {
    var e := Extracted(f)[i];
    NoFallback(f, i);
    GroundedPasses(f, e);
  }

  lemma GroundedSha(f: Feedback, e: LabelEntry)
    requires Accepted(f) && Grounded(f, e)
    ensures |e.sha| == 64 && !Blank(e.operatorId)
  {
    FrameFound(f.detection.frames, e.frameId);
    var frame := FindFrame(f.detection.frames, e.frameId).value;
    var k :| 0 <= k < |f.detection.frames| && f.detection.frames[k] == frame;
    assert FrameFields(f.detection.frames[k]);
  }

  lemma GroundedPasses(f: Feedback, e: LabelEntry)
    requires Accepted(f) && Grounded(f, e)
    ensures Passes()(e) <==> GoodRegion(e)
  {
    GroundedSha(f, e);
    PassesMeans(e);
    if e.box.Some? {
      RatioBound(e.box.value.w, e.box.value.h);
    }
  }

  // -------------------------------------------------------------- queue and loop

  datatype Receipt = Receipt(feedbackId: Id, scanId: Id, labelsQueued: nat, hardNegativesQueued: nat)

  /** What one feedback adds to the queue. */
  function Banked(f: Feedback): seq<LabelEntry>
    requires Framed(f)
  {
    Filter(Extracted(f), Passes())
  }

  function ReceiptOf(f: Feedback): Receipt
    requires Framed(f)
  {
    Receipt(f.id, f.scanId, |Filter(Banked(f), IsPositive())|, |Filter(Banked(f), IsHardNegative())|)
  }

  /** The receipt counts what was queued: with the scan entry they are all of it, and they
      never exceed what the feedback offered. */
  lemma ReceiptIsTruthful(f: Feedback)
    requires Accepted(f)
    ensures ReceiptOf(f).labelsQueued + ReceiptOf(f).hardNegativesQueued + CleanScan(f) == |Banked(f)|
    ensures ReceiptOf(f).labelsQueued <= GoldLabels(f) && ReceiptOf(f).hardNegativesQueued <= HardNegatives(f)
    ensures |Banked(f)| == GoldLabels(f) + HardNegatives(f) + CleanScan(f) <==>
            forall i :: 0 <= i < |Extracted(f)| ==> GoodRegion(Extracted(f)[i])
  {
    KindsPartition(Banked(f));
    KindsPartition(Extracted(f));
    ExtractionCounts(f);
    KeptKinds(f, IsPositive());
    KeptKinds(f, IsHardNegative());
    ScanEntryPasses(f);
    AllBanked(f);
  }

  lemma KeptKinds(f: Feedback, kind: LabelEntry -> bool)
    requires Framed(f)
    ensures |Filter(Banked(f), kind)| <= |Filter(Extracted(f), kind)|
  {
    FilterCommutes(Extracted(f), Passes(), kind);
    FilterShorter(Filter(Extracted(f), kind), Passes());
  }

  lemma ScanEntryPasses(f: Feedback)
    requires Accepted(f)
    ensures |Filter(Banked(f), IsTrueNegativeEntry())| == CleanScan(f)
  {
    ExtractionCounts(f);
    KeptKinds(f, IsTrueNegativeEntry());
    if IsTrueNegative(f) {
      assert Extracted(f) == [ScanEntry(f)];
      GateExactly(f, 0);
      assert Banked(f) == [ScanEntry(f)] by { FilterAll(Extracted(f), Passes()); }
      FilterAll(Banked(f), IsTrueNegativeEntry());
    }
  }

  lemma AllBanked(f: Feedback)
    requires Accepted(f)
    ensures |Banked(f)| == |Extracted(f)| <==> forall i :: 0 <= i < |Extracted(f)| ==> GoodRegion(Extracted(f)[i])
  {
    FilterShorter(Extracted(f), Passes());
    forall i | 0 <= i < |Extracted(f)| ensures Passes()(Extracted(f)[i]) <==> GoodRegion(Extracted(f)[i]) {
      GateExactly(f, i);
    }
  }

  lemma CandidateCount(f: Feedback)
    requires Framed(f)
    ensures |Extracted(f)| == GoldLabels(f) + HardNegatives(f) + CleanScan(f)
  {
    KindsPartition(Extracted(f));
    ExtractionCounts(f);
  }

  /** `LabelQueue`: an append-only file of entries. */
  class LabelQueue {
    var file: seq<LabelEntry>

    constructor ()
      ensures file == []
    {
      file := [];
    }

    method EnqueueMany(entries: seq<LabelEntry>) returns (n: nat)
      modifies this
      ensures file == old(file) + entries && n == |entries|
    {
      if entries == [] {
        return 0;
      }
      file := file + entries;
      n := |entries|;
    }
  }

  /** `LabelQualityGate.filter_passing`, with the pass mark of every report. */
  method FilterPassing(gate: LabelEntry -> bool, entries: seq<LabelEntry>)
    returns (passing: seq<LabelEntry>, marks: seq<bool>)
    ensures passing == Filter(entries, gate)
    ensures |marks| == |entries| && forall i :: 0 <= i < |entries| ==> marks[i] == gate(entries[i])
  {
    passing, marks := [], [];
    for i := 0 to |entries|
      invariant passing == Filter(entries[..i], gate)
      invariant |marks| == i && forall k :: 0 <= k < i ==> marks[k] == gate(entries[k])
    {
      assert entries[..i + 1] == entries[..i] + [entries[i]];
      FilterSnoc(entries[..i], entries[i], gate);
      var ok := gate(entries[i]);
      marks := marks + [ok];
      if ok {
        passing := passing + [entries[i]];
      }
    }
    assert entries[..|entries|] == entries;
  }

  method CountKind(entries: seq<LabelEntry>, kind: LabelEntry -> bool) returns (n: nat)
    ensures n == |Filter(entries, kind)|
  {
    n := 0;
    for i := 0 to |entries|
      invariant n == |Filter(entries[..i], kind)|
    {
      FilterSnoc(entries[..i], entries[i], kind);
      assert entries[..i + 1] == entries[..i] + [entries[i]];
      n := n + if kind(entries[i]) then 1 else 0;
    }
    assert entries[..|entries|] == entries;
  }

  class ActiveLearningLoop {
    const queue: LabelQueue

    constructor (queue: LabelQueue)
      ensures this.queue == queue
    {
      this.queue := queue;
    }

    /** `process_feedback`: the queue keeps what it had and grows by what the gate lets pass. */
    method ProcessFeedback(f: Feedback) returns (receipt: Receipt, candidates: nat, passed: nat)
      requires Accepted(f)
      modifies queue
      ensures queue.file == old(queue.file) + Banked(f)
      ensures receipt == ReceiptOf(f) && receipt.feedbackId == f.id && receipt.scanId == f.scanId
      ensures receipt.labelsQueued == |Filter(queue.file[|old(queue.file)|..], IsPositive())|
      ensures receipt.hardNegativesQueued == |Filter(queue.file[|old(queue.file)|..], IsHardNegative())|
      ensures candidates == GoldLabels(f) + HardNegatives(f) + CleanScan(f)
      ensures passed == receipt.labelsQueued + receipt.hardNegativesQueued + CleanScan(f)
    {
      var entries := ExtractLabelEntries(f);
      candidates := |entries|;
      var passing, marks := FilterPassing(Passes(), entries);
      passed := queue.EnqueueMany(passing);
      var positives := CountKind(passing, IsPositive());
      var hard := CountKind(passing, IsHardNegative());
      receipt := Receipt(f.id, f.scanId, positives, hard);
      CandidateCount(f);
      ReceiptIsTruthful(f);
    }
  }

  // ------------------------------------------------------------------- every run

  predicate AllFramed(fs: seq<Feedback>) { forall i :: 0 <= i < |fs| ==> Framed(fs[i]) }

  ghost predicate AllAccepted(fs: seq<Feedback>)
    ensures AllAccepted(fs) ==> AllFramed(fs)
  {
    forall i :: 0 <= i < |fs| ==> Accepted(fs[i])
  }

  /** The queue after any messages, one after another. */
  function QueueAfter(fs: seq<Feedback>): seq<LabelEntry>
    requires AllFramed(fs)
  {
    if fs == [] then [] else QueueAfter(fs[..|fs| - 1]) + Banked(fs[|fs| - 1])
  }

  function LabelsReceipted(fs: seq<Feedback>): nat
    requires AllFramed(fs)
  {
    if fs == [] then 0 else LabelsReceipted(fs[..|fs| - 1]) + ReceiptOf(fs[|fs| - 1]).labelsQueued
  }

  function HardNegativesReceipted(fs: seq<Feedback>): nat
    requires AllFramed(fs)
  {
    if fs == [] then 0 else HardNegativesReceipted(fs[..|fs| - 1]) + ReceiptOf(fs[|fs| - 1]).hardNegativesQueued
  }

  function CleanScans(fs: seq<Feedback>): nat {
    if fs == [] then 0 else CleanScans(fs[..|fs| - 1]) + CleanScan(fs[|fs| - 1])
  }

  /** Over any run the receipts add up to the queue: its positives are the labels that were
      acknowledged, its hard negatives likewise, and the rest are the clean scans. */
  lemma {:induction false} QueueIsAccountedFor(fs: seq<Feedback>)
    requires AllAccepted(fs)
    ensures |Filter(QueueAfter(fs), IsPositive())| == LabelsReceipted(fs)
    ensures |Filter(QueueAfter(fs), IsHardNegative())| == HardNegativesReceipted(fs)
    ensures |QueueAfter(fs)| == LabelsReceipted(fs) + HardNegativesReceipted(fs) + CleanScans(fs)
  {
    if fs != [] {
      var front, f := fs[..|fs| - 1], fs[|fs| - 1];
      QueueIsAccountedFor(front);
      ReceiptIsTruthful(f);
      FilterConcat(QueueAfter(front), Banked(f), IsPositive());
      FilterConcat(QueueAfter(front), Banked(f), IsHardNegative());
    }
  }

  function FromMessage(id: Id): LabelEntry -> bool { (e: LabelEntry) => e.feedbackId == id }

  lemma BankedFromMessage(f: Feedback, id: Id)
    requires Framed(f)
    ensures Filter(Banked(f), FromMessage(id)) == if f.id == id then Banked(f) else []
  {
    forall i | 0 <= i < |Banked(f)| ensures Banked(f)[i].feedbackId == f.id {
      FilterMember(Extracted(f), Passes(), Banked(f)[i]);
      var k :| 0 <= k < |Extracted(f)| && Extracted(f)[k] == Banked(f)[i];
      Origin(f, k);
    }
    if f.id == id {
      FilterAll(Banked(f), FromMessage(id));
    } else {
      FilterNone(Banked(f), FromMessage(id));
    }
  }

  function Same(f: Feedback): Feedback -> bool { (g: Feedback) => g == f }

  function Copies(times: nat, n: nat): nat { if times == 0 then 0 else Copies(times - 1, n) + n }

  lemma {:induction false} CopiesMultiply(times: nat, n: nat)
    ensures Copies(times, n) == times * n
  {
    if times > 0 {
      CopiesMultiply(times - 1, n);
      assert (times - 1) * n + n == times * n;
    }
  }

  /** The messages with the id of `f` are `f` itself, sent again. */
  ghost predicate OneMessage(fs: seq<Feedback>, f: Feedback) {
    forall i :: 0 <= i < |fs| ==> (fs[i].id == f.id ==> fs[i] == f)
  }

  lemma {:induction false} BankedInCopies(fs: seq<Feedback>, f: Feedback)
    requires AllFramed(fs) && Framed(f) && OneMessage(fs, f)
    ensures |Filter(QueueAfter(fs), FromMessage(f.id))| == Copies(|Filter(fs, Same(f))|, |Banked(f)|)
  {
    if fs != [] {
      var front, last := fs[..|fs| - 1], fs[|fs| - 1];
      BankedInCopies(front, f);
      BankedFromMessage(last, f.id);
      assert |Filter(Banked(last), FromMessage(f.id))| == if last == f then |Banked(f)| else 0;
      FilterConcat(QueueAfter(front), Banked(last), FromMessage(f.id));
    }
  }

  /** Nothing recognises a message that is sent again: in any run, whatever comes between the
      deliveries, the queue holds the labels of a message once for every time it was sent. */
  lemma BankedOncePerDelivery(fs: seq<Feedback>, f: Feedback)
    requires AllFramed(fs) && Framed(f) && OneMessage(fs, f)
    ensures |Filter(QueueAfter(fs), FromMessage(f.id))| == |Filter(fs, Same(f))| * |Banked(f)|
  {
    BankedInCopies(fs, f);
    CopiesMultiply(|Filter(fs, Same(f))|, |Banked(f)|);
  }

  lemma ReviewsNeedDetections(f: Feedback)
    requires Accepted(f) && f.reviews != []
    ensures f.detection.detections != []
  {
    DetectionFound(f.detection.detections, f.reviews[0].detectionId);
  }

  /** A scan whose detector failed and that is then cleared is banked as a true negative. */
  lemma FailedRunBecomesTrueNegative(f: Feedback)
    requires Accepted(f) && f.detection.status.FailedRun? && f.outcome.Cleared? && f.missed == []
    ensures Banked(f) == [ScanEntry(f)]
  {
    if f.reviews != [] {
      ReviewsNeedDetections(f);
    }
    assert Extracted(f) == [ScanEntry(f)];
    GateExactly(f, 0);
    FilterAll(Extracted(f), Passes());
  }
}
