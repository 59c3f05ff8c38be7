/** One session's statements as they run against the tables (app/state/machine.py,
    `PostgresScanStore`; app/api/v1/scans.py, `decide_scan`).  The identity map may hold any
    state for a scan, however stale; what other sessions do between two statements is the
    subject of ScanSessions. */
module ScanStores {
  import opened Common
  import opened ScanStates
  import opened ScanSessions

  datatype Outcome = Done | NotFound | Invalid | Concurrent | Rejected

  /** The row changed along a path of the table; every other row is as it was. */
  ghost predicate MovedAlong(before: map<ScanId, ScanRow>, after: map<ScanId, ScanRow>, k: ScanId, changes: seq<Change>) {
    && after.Keys == before.Keys
    && (forall o :: o in before && o != k ==> after[o] == before[o])
    && (k in before ==> Path(before[k].state, changes) && after[k].state == End(before[k].state, changes))
    && (k !in before ==> changes == [])
  }

  class ScanStore {
    var rows: map<ScanId, ScanRow>
    var feedback: map<ScanId, Judgement>
    var verdicts: set<ScanId>
    var cached: map<ScanId, ScanState>

    constructor (rows: map<ScanId, ScanRow>, feedback: map<ScanId, Judgement>, verdicts: set<ScanId>,
                 cached: map<ScanId, ScanState>)
      ensures this.rows == rows && this.feedback == feedback && this.verdicts == verdicts && this.cached == cached
    {
      this.rows, this.feedback, this.verdicts, this.cached := rows, feedback, verdicts, cached;
    }

    /** The state this session believes the scan to be in. */
    function Seen(k: ScanId): ScanState
      reads this
      requires k in rows
    {
      if k in cached then cached[k] else rows[k].state
    }

    /** `_transition`: it takes effect exactly when the event is allowed from the state the
        session believes in and the row still is in that state. */
    method Transition(k: ScanId, event: Event, now: Time) returns (r: Outcome, changes: seq<Change>)
      modifies this`rows, this`cached
      ensures r == if k !in old(rows) then NotFound
                   else if Allowed(old(Seen(k)), event).None? then Invalid
                   else if old(rows[k].state) != old(Seen(k)) then Concurrent else Done
      ensures MovedAlong(old(rows), rows, k, changes)
      ensures r == Done ==>
                var to := Allowed(old(rows[k].state), event);
                && to.Some? && cached == old(cached)[k := to.value]
                && changes == [Change(old(rows[k].state), event, to.value, now)]
                && rows == old(rows)[k := Stamp(old(rows[k]), event, now).(state := to.value)]
      ensures r != Done ==> rows == old(rows) && changes == []
                            && (k in old(rows) ==> k in cached && cached[k] == old(Seen(k)))
    {
      changes := [];
      if k !in rows {
        return NotFound, [];
      }
      var expected := Seen(k);
      cached := cached[k := expected];
      match Allowed(expected, event) {
        case None => r := Invalid;
        case Some(to) =>
          if rows[k].state != expected {
            r := Concurrent;
          } else {
            changes := [Change(expected, event, to, now)];
            assert LegalAt(expected, changes, 0);
            rows := rows[k := Stamp(rows[k], event, now).(state := to)];
            cached := cached[k := to];
            r := Done;
          }
      }
    }

    /** `record_detection`: one or two transitions, and only from PENDING or ANALYZING. */
    method RecordDetection(k: ScanId, now: Time) returns (r: Outcome, changes: seq<Change>)
      modifies this`rows, this`cached
      ensures r == Done ==> MovedAlong(old(rows), rows, k, changes)
      ensures r != Done ==> rows == old(rows) && changes == []
      ensures r == if k !in old(rows) then NotFound
                   else if !old(Seen(k)).Pending? && !old(Seen(k)).Analyzing? then Done
                   else if old(rows[k].state) != old(Seen(k)) then Concurrent else Done
      ensures r == Done && (old(Seen(k)).Pending? || old(Seen(k)).Analyzing?) ==>
                k in rows && rows[k] == old(rows[k]).(state := Analyzed, analyzedAt := Some(now))
      ensures r == Done && !old(Seen(k)).Pending? && !old(Seen(k)).Analyzing? ==> rows == old(rows)
    {
      if k !in rows {
        return NotFound, [];
      }
      r, changes := Done, [];
      ghost var start := rows[k].state;
      ghost var entry := rows;
      var state := Seen(k);
      if state.Pending? {
        r, changes := Transition(k, DetectReceived, now);
        if r != Done {
          return;
        }
        state := Analyzing;
      }
      if state.Analyzing? {
        ghost var first := changes;
        var more;
        r, more := Transition(k, DetectCompleted, now);
        if r == Done {
          PathConcat(start, changes, more);
          changes := changes + more;
          assert MovedAlong(entry, rows, k, changes);
        }
      }
    }

    /** `record_acquisition`: a row that is already there is left alone. */
    method RecordAcquisition(k: ScanId)
      modifies this`rows
      ensures rows == if k in old(rows) then old(rows) else old(rows)[k := FRESH_ROW]
    {
      if k !in rows {
        rows := rows[k := FRESH_ROW];
      }
    }

    /** `record_verdict`: the verdict row is kept even when no transition follows it. */
    method RecordVerdict(k: ScanId, now: Time) returns (r: Outcome)
      modifies this`rows, this`cached, this`verdicts
      ensures r == if k !in old(rows) then NotFound
                   else if old(Seen(k)).Analyzed? && !old(rows[k].state).Analyzed? then Concurrent else Done
      ensures verdicts == if r == Done then old(verdicts) + {k} else old(verdicts)
      ensures rows == if r == Done && old(Seen(k)).Analyzed?
                      then old(rows)[k := old(rows[k]).(state := Verdicted, verdictedAt := Some(now))] else old(rows)
    {
      if k !in rows {
        return NotFound;
      }
      r := Done;
      var saved := verdicts;
      verdicts := verdicts + {k};
      if Seen(k).Analyzed? {
        var changes;
        r, changes := Transition(k, VerdictCompleted, now);
        if r != Done {
          verdicts := saved;
        }
      }
    }

    /** `mark_reviewing`: true exactly when it moved the scan from VERDICTED to REVIEWING. */
    method MarkReviewing(k: ScanId, now: Time) returns (r: Outcome, moved: bool)
      modifies this`rows, this`cached
      ensures r == if k !in old(rows) then NotFound
                   else if old(Seen(k)).Verdicted? && !old(rows[k].state).Verdicted? then Concurrent else Done
      ensures moved <==> k in old(rows) && old(Seen(k)).Verdicted? && old(rows[k].state).Verdicted?
      ensures rows == if moved then old(rows)[k := old(rows[k]).(state := Reviewing)] else old(rows)
    {
      if k !in rows {
        return NotFound, false;
      }
      r, moved := Done, false;
      if Seen(k).Verdicted? {
        var changes;
        r, changes := Transition(k, ScanOpened, now);
        moved := r == Done;
      }
    }

    /** `record_feedback`: the insert is kept even when no transition follows it. */
    method RecordFeedback(k: ScanId, j: Judgement, now: Time) returns (r: Outcome)
      modifies this`rows, this`cached, this`feedback
      ensures r == if k !in old(rows) then NotFound
                   else if old(Seen(k)).Verdicted? then Invalid
                   else if Decidable(old(Seen(k))) && old(rows[k].state) != old(Seen(k)) then Concurrent else Done
      ensures r != Done ==> rows == old(rows) && feedback == old(feedback)
      ensures r == Done ==> feedback == if k in old(feedback) then old(feedback) else old(feedback)[k := j]
      ensures r == Done ==> rows == if Decidable(old(Seen(k)))
                                    then old(rows)[k := old(rows[k]).(state := Decided, decidedAt := Some(now))]
                                    else old(rows)
    {
      if k !in rows {
        return NotFound;
      }
      r := Done;
      var filed := feedback;
      if k !in feedback {
        feedback := feedback[k := j];
      }
      if Decidable(Seen(k)) {
        var changes;
        r, changes := Transition(k, FeedbackBanked, now);
        if r != Done {
          feedback := filed;
        }
      }
    }

    /** The transitions of `decide_scan`: a VERDICTED scan is opened first. */
    method DriveToDecided(k: ScanId, now: Time) returns (r: Outcome, changes: seq<Change>)
      requires k in rows && Decidable(Seen(k))
      modifies this`rows, this`cached
      ensures r == if old(rows[k].state) == old(Seen(k)) then Done else Concurrent
      ensures r == Done ==> rows == old(rows)[k := old(rows[k]).(state := Decided, decidedAt := Some(now))]
      ensures r == Done ==> Path(old(rows[k].state), changes) && End(old(rows[k].state), changes) == Decided
                            && |changes| == if old(rows[k].state).Verdicted? then 2 else 1
    {
      ghost var start := rows[k].state;
      changes := [];
      if Seen(k).Verdicted? {
        r, changes := Transition(k, ScanOpened, now);
        if r != Done {
          return;
        }
      }
      var last;
      r, last := Transition(k, FeedbackBanked, now);
      if r == Done {
        PathConcat(start, changes, last);
        changes := changes + last;
      }
    }

    /** `decide_scan`: it succeeds exactly when the scan is there, the session believes it
        decidable, and the belief is true; then the scan is DECIDED through a path of the
        table and has a feedback row.  In every other case nothing is left behind. */
    method DecideScan(k: ScanId, j: Judgement, now: Time) returns (r: Outcome, changes: seq<Change>)
      modifies this`rows, this`cached, this`feedback
      ensures r == if k !in old(rows) then NotFound
                   else if !Decidable(old(Seen(k))) then Rejected
                   else if old(rows[k].state) != old(Seen(k)) then Concurrent else Done
      ensures r != Done ==> rows == old(rows) && feedback == old(feedback) && changes == []
      ensures r == Done ==> MovedAlong(old(rows), rows, k, changes)
                            && |changes| == if old(rows[k].state).Verdicted? then 2 else 1
      ensures r == Done ==> k in rows && rows[k] == old(rows[k]).(state := Decided, decidedAt := Some(now))
      ensures r == Done ==> feedback == if k in old(feedback) then old(feedback) else old(feedback)[k := j]
    {
      changes := [];
      if k !in rows {
        return NotFound, [];
      }
      if !Decidable(Seen(k)) {
        return Rejected, [];
      }
      var savedRows, savedFeedback := rows, feedback;
      if k !in feedback {
        feedback := feedback[k := j];
      }
      r, changes := DriveToDecided(k, now);
      if r != Done {
        rows, feedback, changes := savedRows, savedFeedback, [];
      }
    }
  }
}
