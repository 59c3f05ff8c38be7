/** The messages that carry an operator's judgement, and their consistency checks
    (contracts/v1/common.py, detection.py, feedback.py). */
module FeedbackContracts {
  import opened Common

  datatype Category =
    | Narcotics | Firearm | BladedWeapon | Explosive | Currency
    | OrganicAnomaly | MetallicAnomaly | ContrabandOther | Unknown

  type Id = nat

  datatype Box = Box(x: int, y: int, w: int, h: int) {
    predicate Ok() { x >= 0 && y >= 0 && w > 0 && h > 0 }
    predicate FitsWithin(f: Frame) { x + w <= f.width && y + h <= f.height }
  }

  datatype Frame = Frame(id: string, width: int, height: int, sha: string)

  datatype Detection = Detection(id: Id, frameId: string, box: Box, category: Category, score: real)

  datatype Status = Completed | CompletedNoFindings | FailedRun

  datatype DetectionResult = DetectionResult(scanId: Id, status: Status, frames: seq<Frame>, detections: seq<Detection>, error: string)

  datatype Judgement = Confirmed | Rejected | Reclassified | Unreviewed

  datatype Review = Review(detectionId: Id, judgement: Judgement, corrected: Option<Category>)

  datatype Annotation = Annotation(frameId: string, box: Box, category: Category)

  datatype Outcome = Cleared | Inspected | Seized | Escalated

  datatype Feedback = Feedback(id: Id, scanId: Id, operatorId: string, detection: DetectionResult, outcome: Outcome,
                               reviews: seq<Review>, missed: seq<Annotation>)

  // ----------------------------------------------------------------- field rules

  predicate IsSpace(c: char) { c == ' ' || c == '\t' || c == '\n' || c == '\r' }

  predicate IsHex(c: char) { '0' <= c <= '9' || 'a' <= c <= 'f' }

  predicate IsSha256(s: string) { |s| == 64 && forall i :: 0 <= i < |s| ==> IsHex(s[i]) }

  predicate FrameFields(f: Frame) { f.id != "" && f.width > 0 && f.height > 0 && IsSha256(f.sha) }

  predicate ReviewFields(r: Review) { r.judgement.Reclassified? <==> r.corrected.Some? }

  /** What the field types of the messages demand; strings arrive stripped. */
  predicate Fields(f: Feedback) {
    && f.operatorId != "" && !IsSpace(f.operatorId[0])
    && f.detection.frames != []
    && (forall i :: 0 <= i < |f.detection.frames| ==> FrameFields(f.detection.frames[i]))
    && (forall i :: 0 <= i < |f.detection.detections| ==> f.detection.detections[i].box.Ok())
    && (forall i :: 0 <= i < |f.reviews| ==> ReviewFields(f.reviews[i]))
    && (forall i :: 0 <= i < |f.missed| ==> f.missed[i].box.Ok())
  }

  // ------------------------------------------------------------------ lookups

  function FindFrame(frames: seq<Frame>, id: string): Option<Frame> {
    if frames == [] then None else if frames[0].id == id then Some(frames[0]) else FindFrame(frames[1..], id)
  }

  function FindDetection(ds: seq<Detection>, id: Id): Option<Detection> {
    if ds == [] then None else if ds[0].id == id then Some(ds[0]) else FindDetection(ds[1..], id)
  }

  lemma {:induction false} FrameFound(frames: seq<Frame>, id: string)
    ensures FindFrame(frames, id).Some? <==> exists i :: 0 <= i < |frames| && frames[i].id == id
    ensures FindFrame(frames, id).Some? ==> FindFrame(frames, id).value in frames && FindFrame(frames, id).value.id == id
  {
    if frames != [] {
      FrameFound(frames[1..], id);
      assert frames == [frames[0]] + frames[1..];
    }
  }

  lemma {:induction false} DetectionFound(ds: seq<Detection>, id: Id)
    ensures FindDetection(ds, id).Some? <==> exists i :: 0 <= i < |ds| && ds[i].id == id
    ensures FindDetection(ds, id).Some? ==> FindDetection(ds, id).value in ds && FindDetection(ds, id).value.id == id
  {
    if ds != [] {
      DetectionFound(ds[1..], id);
      assert ds == [ds[0]] + ds[1..];
    }
  }

  // ------------------------------------------------------------ consistency rules

  ghost predicate Placed(frames: seq<Frame>, frameId: string, box: Box) {
    FindFrame(frames, frameId).Some? && box.FitsWithin(FindFrame(frames, frameId).value)
  }

  ghost predicate FrameIdsDistinct(frames: seq<Frame>) {
    forall i, j :: 0 <= i < j < |frames| ==> frames[i].id != frames[j].id
  }

  ghost predicate DetectionIdsDistinct(ds: seq<Detection>) {
    forall i, j :: 0 <= i < j < |ds| ==> ds[i].id != ds[j].id
  }

  ghost predicate ResultConsistent(r: DetectionResult) {
    && FrameIdsDistinct(r.frames)
    && DetectionIdsDistinct(r.detections)
    && (forall i :: 0 <= i < |r.detections| ==> Placed(r.frames, r.detections[i].frameId, r.detections[i].box))
    && (r.detections != [] ==> r.status.Completed?)
    && (r.status.FailedRun? ==> r.error != "")
  }

  ghost predicate ReviewedOnce(reviews: seq<Review>) {
    forall i, j :: 0 <= i < j < |reviews| ==> reviews[i].detectionId != reviews[j].detectionId
  }

  ghost predicate FeedbackConsistent(f: Feedback) {
    && f.detection.scanId == f.scanId
    && (forall i :: 0 <= i < |f.reviews| ==> FindDetection(f.detection.detections, f.reviews[i].detectionId).Some?)
    && ReviewedOnce(f.reviews)
    && (forall i :: 0 <= i < |f.missed| ==> Placed(f.detection.frames, f.missed[i].frameId, f.missed[i].box))
  }

  /** A message that the wire accepts. */
  ghost predicate Accepted(f: Feedback) { Fields(f) && ResultConsistent(f.detection) && FeedbackConsistent(f) }

  // ------------------------------------------------------------------ the checks

  method LookUpFrame(frames: seq<Frame>, id: string) returns (r: Option<Frame>)
    ensures r == FindFrame(frames, id)
  {
    for i := 0 to |frames|
      invariant FindFrame(frames, id) == FindFrame(frames[i..], id)
    {
      if frames[i].id == id {
        return Some(frames[i]);
      }
    }
    r := None;
  }

  method LookUpDetection(ds: seq<Detection>, id: Id) returns (r: Option<Detection>)
    ensures r == FindDetection(ds, id)
  {
    for i := 0 to |ds|
      invariant FindDetection(ds, id) == FindDetection(ds[i..], id)
    {
      if ds[i].id == id {
        return Some(ds[i]);
      }
    }
    r := None;
  }

  method CheckFrameIds(frames: seq<Frame>) returns (ok: bool)
    ensures ok <==> FrameIdsDistinct(frames)
  {
    var seen: set<string> := {};
    for i := 0 to |frames|
      invariant forall id :: id in seen <==> exists k :: 0 <= k < i && frames[k].id == id
      invariant forall j, k :: 0 <= j < k < i ==> frames[j].id != frames[k].id
    {
      if frames[i].id in seen {
        return false;
      }
      seen := seen + {frames[i].id};
    }
    ok := true;
  }

  method CheckDetections(r: DetectionResult) returns (ok: bool)
    ensures ok <==> DetectionIdsDistinct(r.detections)
                    && forall i :: 0 <= i < |r.detections| ==> Placed(r.frames, r.detections[i].frameId, r.detections[i].box)
  {
    var seen: set<Id> := {};
    for i := 0 to |r.detections|
      invariant forall id :: id in seen <==> exists k :: 0 <= k < i && r.detections[k].id == id
      invariant forall j, k :: 0 <= j < k < i ==> r.detections[j].id != r.detections[k].id
      invariant forall k :: 0 <= k < i ==> Placed(r.frames, r.detections[k].frameId, r.detections[k].box)
    {
      var d := r.detections[i];
      if d.id in seen {
        return false;
      }
      seen := seen + {d.id};
      var frame := LookUpFrame(r.frames, d.frameId);
      if frame.None? || !d.box.FitsWithin(frame.value) {
        return false;
      }
    }
    ok := true;
  }

  /** `DetectionResult._check_consistency` accepts exactly the consistent results. */
  method CheckResult(r: DetectionResult) returns (ok: bool)
    ensures ok <==> ResultConsistent(r)
  {
    ok := CheckFrameIds(r.frames);
    if ok {
      ok := CheckDetections(r);
    }
    if ok {
      if r.status.FailedRun? && r.detections != [] {
        return false;
      }
      if r.status.CompletedNoFindings? && r.detections != [] {
        return false;
      }
      if r.status.FailedRun? && r.error == "" {
        return false;
      }
    }
  }

  method CheckReviews(f: Feedback) returns (ok: bool)
    ensures ok <==> ReviewedOnce(f.reviews)
                    && forall i :: 0 <= i < |f.reviews| ==> FindDetection(f.detection.detections, f.reviews[i].detectionId).Some?
  {
    var seen: set<Id> := {};
    for i := 0 to |f.reviews|
      invariant forall id :: id in seen <==> exists k :: 0 <= k < i && f.reviews[k].detectionId == id
      invariant forall j, k :: 0 <= j < k < i ==> f.reviews[j].detectionId != f.reviews[k].detectionId
      invariant forall k :: 0 <= k < i ==> FindDetection(f.detection.detections, f.reviews[k].detectionId).Some?
    {
      var target := f.reviews[i].detectionId;
      var known := LookUpDetection(f.detection.detections, target);
      if known.None? || target in seen {
        return false;
      }
      seen := seen + {target};
    }
    ok := true;
  }

  /** `OperatorFeedback._check_consistency` accepts exactly the consistent messages. */
  method CheckFeedback(f: Feedback) returns (ok: bool)
    ensures ok <==> FeedbackConsistent(f)
  {
    if f.detection.scanId != f.scanId {
      return false;
    }
    ok := CheckReviews(f);
    if !ok {
      return false;
    }
    for i := 0 to |f.missed|
      invariant forall k :: 0 <= k < i ==> Placed(f.detection.frames, f.missed[k].frameId, f.missed[k].box)
    {
      var frame := LookUpFrame(f.detection.frames, f.missed[i].frameId);
      if frame.None? || !f.missed[i].box.FitsWithin(frame.value) {
        return false;
      }
    }
  }

  /** Distinct ids make every lookup name the one detection it can name. */
  lemma LookupIsUnique(ds: seq<Detection>, d: Detection)
    requires DetectionIdsDistinct(ds) && d in ds
    ensures FindDetection(ds, d.id) == Some(d)
  {
    DetectionFound(ds, d.id);
  }

  /** What the result validator asks for, in terms of the message alone: distinct frame and
      detection ids, every detection inside a frame it names, findings only in a completed run,
      and an error text with a failed one. */
  lemma ResultConsistentExactly(r: DetectionResult)
    ensures ResultConsistent(r) <==>
              && (forall i, j :: 0 <= i < j < |r.frames| ==> r.frames[i].id != r.frames[j].id)
              && (forall i, j :: 0 <= i < j < |r.detections| ==> r.detections[i].id != r.detections[j].id)
              && (forall i :: 0 <= i < |r.detections| ==> InSomeFrame(r.frames, r.detections[i].frameId, r.detections[i].box))
              && (r.detections != [] ==> r.status == Completed)
              && (r.status == FailedRun ==> r.error != "")
  {
    if FrameIdsDistinct(r.frames) {
      forall i | 0 <= i < |r.detections|
        ensures Placed(r.frames, r.detections[i].frameId, r.detections[i].box) <==>
                  InSomeFrame(r.frames, r.detections[i].frameId, r.detections[i].box)
      {
        PlacedExactly(r.frames, r.detections[i].frameId, r.detections[i].box);
      }
    }
  }

  /** What the fields of a message must be: an operator id that starts with no white space, at
      least one frame, frames with an id, a positive extent and 64 lower-case hexadecimal digits
      for a hash, boxes of positive extent that start at 0 or later, and a corrected category
      with a reclassification and with nothing else. */
  lemma FieldsExactly(f: Feedback)
    ensures Fields(f) <==>
              && f.operatorId != "" && f.operatorId[0] !in " \t\n\r"
              && |f.detection.frames| > 0
              && (forall i :: 0 <= i < |f.detection.frames| ==>
                    && f.detection.frames[i].id != "" && f.detection.frames[i].width > 0 && f.detection.frames[i].height > 0
                    && |f.detection.frames[i].sha| == 64
                    && forall k :: 0 <= k < 64 ==> f.detection.frames[i].sha[k] in "0123456789abcdef")
              && (forall i :: 0 <= i < |f.detection.detections| ==>
                    && f.detection.detections[i].box.x >= 0 && f.detection.detections[i].box.y >= 0
                    && f.detection.detections[i].box.w > 0 && f.detection.detections[i].box.h > 0)
              && (forall i :: 0 <= i < |f.missed| ==>
                    && f.missed[i].box.x >= 0 && f.missed[i].box.y >= 0 && f.missed[i].box.w > 0 && f.missed[i].box.h > 0)
              && (forall i :: 0 <= i < |f.reviews| ==>
                    (f.reviews[i].corrected != None <==> f.reviews[i].judgement == Reclassified))
  {
    forall i | 0 <= i < |f.detection.frames|
      ensures IsSha256(f.detection.frames[i].sha) <==>
                && |f.detection.frames[i].sha| == 64
                && forall k :: 0 <= k < 64 ==> f.detection.frames[i].sha[k] in "0123456789abcdef"
    {
      HexDigits(f.detection.frames[i].sha);
    }
  }

  lemma HexDigits(s: string)
    ensures IsSha256(s) <==> |s| == 64 && forall k :: 0 <= k < 64 ==> s[k] in "0123456789abcdef"
  {
    forall k | 0 <= k < |s| ensures IsHex(s[k]) <==> s[k] in "0123456789abcdef" {
      HexDigit(s[k]);
    }
  }

  lemma HexDigit(c: char)
    ensures IsHex(c) <==> c in "0123456789abcdef"
  {
    var digits := "0123456789abcdef";
    if IsHex(c) {
      assert c == digits[if c <= '9' then c as int - '0' as int else c as int - 'a' as int + 10];
    }
  }

  /** Some frame has this id, and the box ends within its width and height. */
  ghost predicate InSomeFrame(frames: seq<Frame>, frameId: string, box: Box) {
    exists k :: 0 <= k < |frames| && frames[k].id == frameId
                && box.x + box.w <= frames[k].width && box.y + box.h <= frames[k].height
  }

  lemma PlacedExactly(frames: seq<Frame>, frameId: string, box: Box)
    requires FrameIdsDistinct(frames)
    ensures Placed(frames, frameId, box) <==> InSomeFrame(frames, frameId, box)
  {
    FrameFound(frames, frameId);
    if FindFrame(frames, frameId).Some? {
      var frame := FindFrame(frames, frameId).value;
      var i :| 0 <= i < |frames| && frames[i] == frame;
      forall k | 0 <= k < |frames| && frames[k].id == frameId ensures k == i {
      }
    }
  }

  /** What the feedback validator asks for: the result is of the same scan, every review names
      a detection of it, none twice, and every missed region lies in a frame of it. */
  lemma FeedbackConsistentExactly(f: Feedback)
    requires FrameIdsDistinct(f.detection.frames)
    ensures FeedbackConsistent(f) <==>
              && f.detection.scanId == f.scanId
              && (forall i :: 0 <= i < |f.reviews| ==> DetectionNamed(f.detection.detections, f.reviews[i].detectionId))
              && (forall i, j :: 0 <= i < j < |f.reviews| ==> f.reviews[i].detectionId != f.reviews[j].detectionId)
              && (forall i :: 0 <= i < |f.missed| ==> InSomeFrame(f.detection.frames, f.missed[i].frameId, f.missed[i].box))
  {
    forall i | 0 <= i < |f.reviews|
      ensures FindDetection(f.detection.detections, f.reviews[i].detectionId).Some? <==>
                DetectionNamed(f.detection.detections, f.reviews[i].detectionId)
    {
      DetectionFound(f.detection.detections, f.reviews[i].detectionId);
    }
    forall i | 0 <= i < |f.missed|
      ensures Placed(f.detection.frames, f.missed[i].frameId, f.missed[i].box) <==>
                InSomeFrame(f.detection.frames, f.missed[i].frameId, f.missed[i].box)
    {
      PlacedExactly(f.detection.frames, f.missed[i].frameId, f.missed[i].box);
    }
  }

  ghost predicate DetectionNamed(ds: seq<Detection>, id: Id) { exists k :: 0 <= k < |ds| && ds[k].id == id }
}
