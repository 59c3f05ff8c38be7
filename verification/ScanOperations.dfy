/** What each operation achieves when its session runs alone over the committed tables
    (app/state/machine.py, `PostgresScanStore`), and what a finished operation has achieved in
    every run (ScanSessions). */
module ScanOperations {
  import opened Common
  import opened ScanStates
  import opened ScanSessions
  import opened ScanLifecycle

  // ------------------------------------------------------------- a session alone

  function Steps(n: nat, now: Time): seq<Action> { if n == 0 then [] else Steps(n - 1, now) + [Step(0, now)] }

  /** A session is opened for one operation and executes `n` statements. */
  function Alone(op: Op, k: ScanId, n: nat, now: Time): seq<Action> { [Open(0, [op], k)] + Steps(n, now) }

  function Tick(now: Time): State -> State { (s: State) => Next(s, Step(0, now)) }

  /** A state after `n` statements of session 0. */
  function After(tick: State -> State, s: State, n: nat): State {
    if n == 0 then s else tick(After(tick, s, n - 1))
  }

  function Runner(): seq<Action> -> State { (actions: seq<Action>) => Run(actions) }

  ghost predicate Ticks(run: seq<Action> -> State, tick: State -> State, a: Action) {
    forall actions :: run(actions + [a]) == tick(run(actions))
  }

  lemma {:induction false} RunSteps(run: seq<Action> -> State, before: seq<Action>, tick: State -> State, n: nat, now: Time)
    requires Ticks(run, tick, Step(0, now))
    ensures run(before + Steps(n, now)) == After(tick, run(before), n)
  {
    if n == 0 {
      assert before + Steps(0, now) == before;
    } else {
      RunSteps(run, before, tick, n - 1, now);
      assert before + Steps(n, now) == (before + Steps(n - 1, now)) + [Step(0, now)];
    }
  }

  lemma RunnerTicks(now: Time)
    ensures Ticks(Runner(), Tick(now), Step(0, now))
  {
    forall actions ensures Runner()(actions + [Step(0, now)]) == Tick(now)(Runner()(actions)) {
      RunSnoc(actions, Step(0, now));
    }
  }

  lemma OpensAlone(before: seq<Action>, op: Op, k: ScanId)
    requires Run(before).sessions == map[]
    ensures Run(before + [Open(0, [op], k)]) == At(Run(before), Begin(op, k))
  {
    RunSnoc(before, Open(0, [op], k));
  }

  lemma RunAlone(before: seq<Action>, op: Op, k: ScanId, n: nat, now: Time)
    requires Run(before).sessions == map[]
    ensures Run(before + Alone(op, k, n, now)) == After(Tick(now), At(Run(before), Begin(op, k)), n)
  {
    var run, started := Runner(), before + [Open(0, [op], k)];
    OpensAlone(before, op, k);
    RunnerTicks(now);
    RunSteps(run, started, Tick(now), n, now);
    AloneParts(before, op, k, n, now);
    assert run(started + Steps(n, now)) == Run(started + Steps(n, now));
  }

  lemma AloneParts(before: seq<Action>, op: Op, k: ScanId, n: nat, now: Time)
    ensures before + Alone(op, k, n, now) == (before + [Open(0, [op], k)]) + Steps(n, now)
  {
  }

  lemma Goes(base: State, e: Session, now: Time, instr: Instr, next: Session)
    requires Program(e.op, e.pc, e.cached) == instr && !instr.Swap? && !instr.Finish?
    requires Local(At(base, e), 0, e, instr) == Become(next)
    ensures Next(At(base, e), Step(0, now)) == At(base, next)
  {
    assert Execute(At(base, e), 0, now) == With(At(base, e), 0, next);
    assert With(At(base, e), 0, next) == At(base, next);
  }

  lemma Fails(base: State, e: Session, now: Time, instr: Instr)
    requires base.sessions == map[] && Program(e.op, e.pc, e.cached) == instr && !instr.Swap? && !instr.Finish?
    requires Local(At(base, e), 0, e, instr) == Abandon
    ensures Next(At(base, e), Step(0, now)) == base
  {
    assert Execute(At(base, e), 0, now) == Rollback(At(base, e), 0);
    assert map[0 := e] - {0} == map[];
  }

  lemma Swaps(base: State, e: Session, now: Time, event: Event, to: ScanState)
    requires Program(e.op, e.pc, e.cached) == Swap(event) && e.cached.Some? && RowThere(base, e)
    requires Visible(base, e).state == e.cached.value && Allowed(e.cached.value, event) == Some(to)
    ensures var row := Stamp(Visible(base, e), event, now).(state := to);
            Next(At(base, e), Step(0, now)) == At(base, Advanced(e, row, Change(e.cached.value, event, to, now)))
  {
    var row := Stamp(Visible(base, e), event, now).(state := to);
    var next := Advanced(e, row, Change(e.cached.value, event, to, now));
    assert !RowHeld(At(base, e), 0, e.scan);
    assert SwapStep(At(base, e), 0, event, now) == With(At(base, e), 0, next);
    assert With(At(base, e), 0, next) == At(base, next);
  }

  lemma Refuses(base: State, e: Session, now: Time, event: Event)
    requires base.sessions == map[] && Program(e.op, e.pc, e.cached) == Swap(event) && e.cached.Some? && RowThere(base, e)
    requires Allowed(e.cached.value, event).None?
    ensures Next(At(base, e), Step(0, now)) == base
  {
    assert !RowHeld(At(base, e), 0, e.scan);
    assert SwapStep(At(base, e), 0, event, now) == Rollback(At(base, e), 0);
    assert map[0 := e] - {0} == map[];
  }

  /** One row moves, and its history grows by the changes that led to it. */
  ghost predicate Moved(s: State, t: State, k: ScanId, row: ScanRow, changes: seq<Change>) {
    && t.rows == s.rows[k := row]
    && k in s.history && t.history == s.history[k := s.history[k] + changes]
  }

  ghost predicate RowsStay(s: State, t: State) { t.rows == s.rows && t.history == s.history }

  /** What a commit leaves of the row and beside it. */
  ghost predicate Lands(base: State, t: State, e: Session, changes: seq<Change>) {
    && t.sessions == map[]
    && t.feedback == (if e.fb.Some? then base.feedback[e.scan := e.fb.value.judgement] else base.feedback)
    && t.verdicts == (if e.vd then base.verdicts + {e.scan} else base.verdicts)
    && if e.own.Some? then Moved(base, t, e.scan, e.own.value, changes) else RowsStay(base, t)
  }

  lemma Commits(base: State, e: Session, now: Time, changes: seq<Change>) returns (t: State)
    requires base.sessions == map[] && e.scan in base.history
    requires Program(e.op, e.pc, e.cached).Finish? && e.rest == [] && e.trail == changes
    ensures t == Next(At(base, e), Step(0, now)) && Lands(base, t, e, changes)
  {
    t := Committed(At(base, e), 0);
    assert map[0 := e] - {0} == map[];
  }

  lemma FirstChange(e: Session, row: ScanRow, change: Change)
    requires e.trail == []
    ensures Advanced(e, row, change).trail == [change]
  {
  }

  /** Nothing is open, so a step does nothing. */
  lemma Rests(base: State, now: Time)
    requires base.sessions == map[]
    ensures Next(base, Step(0, now)) == base
  {
  }

  lemma FourSteps(tick: State -> State, s0: State, s1: State, s2: State, s3: State, s4: State)
    requires tick(s0) == s1 && tick(s1) == s2 && tick(s2) == s3 && tick(s3) == s4
    ensures After(tick, s0, 2) == s2 && After(tick, s0, 3) == s3 && After(tick, s0, 4) == s4
  {
    assert After(tick, s0, 0) == s0;
    assert After(tick, s0, 1) == s1;
    assert After(tick, s0, 2) == s2;
    assert After(tick, s0, 3) == s3;
  }

  // --------------------------------------------------------------- each operation

  lemma AcquisitionFrom(base: State, k: ScanId, now: Time)
    requires base.sessions == map[]
    ensures var t := After(Tick(now), At(base, Begin(RecordAcquisition, k)), 2);
            && t.sessions == map[] && t.feedback == base.feedback && t.verdicts == base.verdicts
            && t.rows == if k in base.rows then base.rows else base.rows[k := ScanRow(Pending, None, None, None)]
  {
    var e0 := Begin(RecordAcquisition, k);
    var e1 := e0.(pc := 1, own := if k in base.rows then None else Some(FRESH_ROW));
    var t := Committed(At(base, e1), 0);
    assert !RowHeld(At(base, e0), 0, k);
    Goes(base, e0, now, InsertScan, e1);
    assert map[0 := e1] - {0} == map[];
    Rests(t, now);
    FourSteps(Tick(now), At(base, e0), At(base, e1), t, t, t);
  }

  /** `record_acquisition` inserts a PENDING row, or leaves the row that is there. */
  lemma AcquisitionAlone(before: seq<Action>, k: ScanId, now: Time)
    requires Run(before).sessions == map[]
    ensures var s, t := Run(before), Run(before + Alone(RecordAcquisition, k, 2, now));
            && t.sessions == map[] && t.feedback == s.feedback && t.verdicts == s.verdicts
            && t.rows == if k in s.rows then s.rows else s.rows[k := ScanRow(Pending, None, None, None)]
  {
    RunAlone(before, RecordAcquisition, k, 2, now);
    AcquisitionFrom(Run(before), k, now);
  }

  /** The last two statements of `record_detection` and its commit, after the first transition
      (`trail`) or without one. */
  lemma DetectionEnds(base: State, now: Time, e: Session) returns (t: State)
    requires base.sessions == map[] && e.scan in base.rows && e.scan in base.history
    requires e == Begin(RecordDetection, e.scan).(pc := 2, cached := e.cached, own := e.own, trail := e.trail)
    requires e.cached == Some(Visible(base, e).state) && (e.own.None? ==> e.trail == [])
    ensures After(Tick(now), At(base, e), 2) == t
    ensures t.sessions == map[] && t.feedback == base.feedback && t.verdicts == base.verdicts
    ensures if e.cached == Some(Analyzing)
            then Moved(base, t, e.scan, Visible(base, e).(state := Analyzed, analyzedAt := Some(now)),
                       e.trail + [Change(Analyzing, DetectCompleted, Analyzed, now)])
            else e.own.None? ==> RowsStay(base, t)
  {
    var row := Visible(base, e).(state := Analyzed, analyzedAt := Some(now));
    var e3 := if e.cached == Some(Analyzing) then Advanced(e, row, Change(Analyzing, DetectCompleted, Analyzed, now))
              else e.(pc := 3);
    if e.cached == Some(Analyzing) {
      Swaps(base, e, now, DetectCompleted, Analyzed);
    } else {
      Goes(base, e, now, Skip, e3);
    }
    t := Commits(base, e3, now, e3.trail);
    Rests(t, now);
    FourSteps(Tick(now), At(base, e), At(base, e3), t, t, t);
  }

  lemma DetectionFrom(base: State, k: ScanId, now: Time)
    requires base.sessions == map[] && k in base.rows && k in base.history
    ensures var t := After(Tick(now), At(base, Begin(RecordDetection, k)), 4);
            && t.sessions == map[] && t.feedback == base.feedback && t.verdicts == base.verdicts
            && match base.rows[k].state
               case Pending =>
                 Moved(base, t, k, base.rows[k].(state := Analyzed, analyzedAt := Some(now)),
                       [Change(Pending, DetectReceived, Analyzing, now), Change(Analyzing, DetectCompleted, Analyzed, now)])
               case Analyzing =>
                 Moved(base, t, k, base.rows[k].(state := Analyzed, analyzedAt := Some(now)),
                       [Change(Analyzing, DetectCompleted, Analyzed, now)])
               case _ => RowsStay(base, t)
  {
    var row := base.rows[k];
    var e0 := Begin(RecordDetection, k);
    var e1 := e0.(pc := 1, cached := Some(row.state));
    Goes(base, e0, now, Load, e1);
    var first := Change(Pending, DetectReceived, Analyzing, now);
    var e2 := if row.state.Pending? then Advanced(e1, row.(state := Analyzing), first) else e1.(pc := 2);
    if row.state.Pending? {
      Swaps(base, e1, now, DetectReceived, Analyzing);
      FirstChange(e1, row.(state := Analyzing), first);
    } else {
      Goes(base, e1, now, Skip, e2);
    }
    var t := DetectionEnds(base, now, e2);
    AfterTwo(Tick(now), At(base, e0), At(base, e1), At(base, e2));
    var second := Change(Analyzing, DetectCompleted, Analyzed, now);
    assert [first] + [second] == [first, second] && [] + [second] == [second];
  }

  lemma AfterTwo(tick: State -> State, s0: State, s1: State, s2: State)
    requires tick(s0) == s1 && tick(s1) == s2
    ensures After(tick, s0, 4) == After(tick, s2, 2)
  {
    assert After(tick, s0, 0) == s0 && After(tick, s2, 0) == s2;
    assert After(tick, s0, 1) == s1;
    assert After(tick, s0, 2) == s2;
    assert After(tick, s0, 3) == After(tick, s2, 1);
  }

  /** `record_detection` takes a PENDING scan to ANALYZED, through ANALYZING, and touches no
      scan that is past it. */
  lemma DetectionAlone(before: seq<Action>, k: ScanId, now: Time)
    requires Run(before).sessions == map[] && k in Run(before).rows
    ensures var s, t := Run(before), Run(before + Alone(RecordDetection, k, 4, now));
            && t.sessions == map[] && t.feedback == s.feedback && t.verdicts == s.verdicts
            && match s.rows[k].state
               case Pending =>
                 Moved(s, t, k, s.rows[k].(state := Analyzed, analyzedAt := Some(now)),
                       [Change(Pending, DetectReceived, Analyzing, now), Change(Analyzing, DetectCompleted, Analyzed, now)])
               case Analyzing =>
                 Moved(s, t, k, s.rows[k].(state := Analyzed, analyzedAt := Some(now)),
                       [Change(Analyzing, DetectCompleted, Analyzed, now)])
               case _ => RowsStay(s, t)
  {
    RunKeepsInv(before);
    RunAlone(before, RecordDetection, k, 4, now);
    DetectionFrom(Run(before), k, now);
  }

  lemma VerdictFrom(base: State, k: ScanId, now: Time)
    requires base.sessions == map[] && k in base.rows && k in base.history
    ensures var t := After(Tick(now), At(base, Begin(RecordVerdict, k)), 4);
            && t.sessions == map[] && t.feedback == base.feedback && t.verdicts == base.verdicts + {k}
            && if base.rows[k].state.Analyzed?
               then Moved(base, t, k, base.rows[k].(state := Verdicted, verdictedAt := Some(now)),
                          [Change(Analyzed, VerdictCompleted, Verdicted, now)])
               else RowsStay(base, t)
  {
    var e0 := Begin(RecordVerdict, k);
    var e1 := e0.(pc := 1, vd := true);
    var e2 := e1.(pc := 2, cached := Some(base.rows[k].state));
    Goes(base, e0, now, InsertVerdict, e1);
    Goes(base, e1, now, Load, e2);
    var e3, t := VerdictEnds(base, now, e2);
    FourSteps(Tick(now), At(base, e0), At(base, e1), At(base, e2), At(base, e3), t);
  }

  lemma VerdictEnds(base: State, now: Time, e: Session) returns (last: Session, t: State)
    requires base.sessions == map[] && e.scan in base.rows && e.scan in base.history
    requires e == Begin(RecordVerdict, e.scan).(pc := 2, vd := true, cached := Some(base.rows[e.scan].state))
    ensures Next(At(base, e), Step(0, now)) == At(base, last) && Next(At(base, last), Step(0, now)) == t
    ensures t.sessions == map[] && t.feedback == base.feedback && t.verdicts == base.verdicts + {e.scan}
    ensures if base.rows[e.scan].state.Analyzed?
            then Moved(base, t, e.scan, base.rows[e.scan].(state := Verdicted, verdictedAt := Some(now)),
                       [Change(Analyzed, VerdictCompleted, Verdicted, now)])
            else RowsStay(base, t)
  {
    var row, change := base.rows[e.scan], Change(Analyzed, VerdictCompleted, Verdicted, now);
    if row.state.Analyzed? {
      last := Advanced(e, row.(state := Verdicted, verdictedAt := Some(now)), change);
      Swaps(base, e, now, VerdictCompleted, Verdicted);
      FirstChange(e, row.(state := Verdicted, verdictedAt := Some(now)), change);
      t := Commits(base, last, now, [change]);
    } else {
      last := e.(pc := 3);
      Goes(base, e, now, Skip, last);
      t := Commits(base, last, now, []);
    }
  }

  /** An operation that starts with an insert leaves nothing when the scan is not there. */
  lemma NoScan(base: State, k: ScanId, now: Time, op: Op)
    requires base.sessions == map[] && k !in base.rows && (op.RecordVerdict? || op.RecordFeedback?)
    ensures After(Tick(now), At(base, Begin(op, k)), 4) == base
  {
    var e := Begin(op, k);
    Fails(base, e, now, Program(e.op, e.pc, e.cached));
    Rests(base, now);
    FourSteps(Tick(now), At(base, e), base, base, base, base);
  }

  /** `record_verdict` takes an ANALYZED scan to VERDICTED; the verdict row is kept in every
      state of the scan, and nothing happens to a scan that is not there. */
  lemma VerdictAlone(before: seq<Action>, k: ScanId, now: Time)
    requires Run(before).sessions == map[]
    ensures var s, t := Run(before), Run(before + Alone(RecordVerdict, k, 4, now));
            if k !in s.rows then t == s
            else
              && t.sessions == map[] && t.feedback == s.feedback && t.verdicts == s.verdicts + {k}
              && if s.rows[k].state.Analyzed?
                 then Moved(s, t, k, s.rows[k].(state := Verdicted, verdictedAt := Some(now)),
                            [Change(Analyzed, VerdictCompleted, Verdicted, now)])
                 else RowsStay(s, t)
  {
    RunKeepsInv(before);
    RunAlone(before, RecordVerdict, k, 4, now);
    if k in Run(before).rows {
      VerdictFrom(Run(before), k, now);
    } else {
      NoScan(Run(before), k, now, RecordVerdict);
    }
  }

  lemma ReviewingFrom(base: State, k: ScanId, now: Time)
    requires base.sessions == map[] && k in base.rows && k in base.history
    ensures var t := After(Tick(now), At(base, Begin(MarkReviewing, k)), 3);
            && t.sessions == map[] && t.feedback == base.feedback && t.verdicts == base.verdicts
            && if base.rows[k].state.Verdicted?
               then Moved(base, t, k, base.rows[k].(state := Reviewing), [Change(Verdicted, ScanOpened, Reviewing, now)])
               else RowsStay(base, t)
  {
    var e0 := Begin(MarkReviewing, k);
    var e1 := e0.(pc := 1, cached := Some(base.rows[k].state));
    Goes(base, e0, now, Load, e1);
    var e2, t := ReviewingEnds(base, now, e1);
    Rests(t, now);
    FourSteps(Tick(now), At(base, e0), At(base, e1), At(base, e2), t, t);
  }

  lemma ReviewingEnds(base: State, now: Time, e: Session) returns (last: Session, t: State)
    requires base.sessions == map[] && e.scan in base.rows && e.scan in base.history
    requires e == Begin(MarkReviewing, e.scan).(pc := 1, cached := Some(base.rows[e.scan].state))
    ensures Next(At(base, e), Step(0, now)) == At(base, last) && Next(At(base, last), Step(0, now)) == t
    ensures t.sessions == map[] && t.feedback == base.feedback && t.verdicts == base.verdicts
    ensures if base.rows[e.scan].state.Verdicted?
            then Moved(base, t, e.scan, base.rows[e.scan].(state := Reviewing), [Change(Verdicted, ScanOpened, Reviewing, now)])
            else RowsStay(base, t)
  {
    var row, change := base.rows[e.scan], Change(Verdicted, ScanOpened, Reviewing, now);
    if row.state.Verdicted? {
      last := Advanced(e, row.(state := Reviewing), change);
      Swaps(base, e, now, ScanOpened, Reviewing);
      FirstChange(e, row.(state := Reviewing), change);
      t := Commits(base, last, now, [change]);
    } else {
      last := e.(pc := 2);
      Goes(base, e, now, Skip, last);
      t := Commits(base, last, now, []);
    }
  }

  /** `mark_reviewing` takes a VERDICTED scan to REVIEWING and touches no other. */
  lemma ReviewingAlone(before: seq<Action>, k: ScanId, now: Time)
    requires Run(before).sessions == map[] && k in Run(before).rows
    ensures var s, t := Run(before), Run(before + Alone(MarkReviewing, k, 3, now));
            && t.sessions == map[] && t.feedback == s.feedback && t.verdicts == s.verdicts
            && if s.rows[k].state.Verdicted?
               then Moved(s, t, k, s.rows[k].(state := Reviewing), [Change(Verdicted, ScanOpened, Reviewing, now)])
               else RowsStay(s, t)
  {
    RunKeepsInv(before);
    RunAlone(before, MarkReviewing, k, 3, now);
    ReviewingFrom(Run(before), k, now);
  }

  lemma FeedbackFrom(base: State, k: ScanId, j: Judgement, now: Time)
    requires base.sessions == map[] && k in base.rows && k in base.history
    ensures var t := After(Tick(now), At(base, Begin(RecordFeedback(j), k)), 4);
            if base.rows[k].state.Verdicted? then t == base
            else
              && t.sessions == map[] && t.verdicts == base.verdicts
              && t.feedback == (if k in base.feedback then base.feedback else base.feedback[k := j])
              && if base.rows[k].state.Analyzed? || base.rows[k].state.Reviewing?
                 then Moved(base, t, k, base.rows[k].(state := Decided, decidedAt := Some(now)),
                            [Change(base.rows[k].state, FeedbackBanked, Decided, now)])
                 else RowsStay(base, t)
  {
    var row := base.rows[k];
    var e0 := Begin(RecordFeedback(j), k);
    var e1 := e0.(pc := 1, fb := if k in base.feedback then None else Some(Filing(0, j)));
    var e2 := e1.(pc := 2, cached := Some(row.state));
    assert !FeedbackHeld(At(base, e0), 0, k);
    Goes(base, e0, now, InsertFeedback, e1);
    Goes(base, e1, now, Load, e2);
    if row.state.Verdicted? {
      Refuses(base, e2, now, FeedbackBanked);
      Rests(base, now);
      FourSteps(Tick(now), At(base, e0), At(base, e1), At(base, e2), base, base);
    } else {
      FeedbackEnds(base, now, e2, j);
      FourSteps(Tick(now), At(base, e0), At(base, e1), At(base, e2), Next(At(base, e2), Step(0, now)),
                Next(Next(At(base, e2), Step(0, now)), Step(0, now)));
    }
  }

  lemma FeedbackEnds(base: State, now: Time, e: Session, j: Judgement)
    requires base.sessions == map[] && e.scan in base.rows && e.scan in base.history && !base.rows[e.scan].state.Verdicted?
    requires e == Begin(RecordFeedback(j), e.scan).(pc := 2, cached := Some(base.rows[e.scan].state), fb := e.fb)
    requires e.fb == if e.scan in base.feedback then None else Some(Filing(0, j))
    ensures var t, row := Next(Next(At(base, e), Step(0, now)), Step(0, now)), base.rows[e.scan];
            && t.sessions == map[] && t.verdicts == base.verdicts
            && t.feedback == (if e.scan in base.feedback then base.feedback else base.feedback[e.scan := j])
            && if row.state.Analyzed? || row.state.Reviewing?
               then Moved(base, t, e.scan, row.(state := Decided, decidedAt := Some(now)),
                          [Change(row.state, FeedbackBanked, Decided, now)])
               else RowsStay(base, t)
  {
    var row := base.rows[e.scan];
    if row.state.Analyzed? || row.state.Reviewing? {
      var change, decided := Change(row.state, FeedbackBanked, Decided, now), row.(state := Decided, decidedAt := Some(now));
      Swaps(base, e, now, FeedbackBanked, Decided);
      FirstChange(e, decided, change);
      var t := Commits(base, Advanced(e, decided, change), now, [change]);
    } else {
      Goes(base, e, now, Skip, e.(pc := 3));
      var t := Commits(base, e.(pc := 3), now, []);
    }
  }

  /** `record_feedback` closes an ANALYZED or REVIEWING scan, keeps the feedback of a scan that
      cannot be decided, and leaves nothing on a VERDICTED scan or one that is not there.
      Feedback that is on file already stays as it is. */
  lemma FeedbackAlone(before: seq<Action>, k: ScanId, j: Judgement, now: Time)
    requires Run(before).sessions == map[]
    ensures var s, t := Run(before), Run(before + Alone(RecordFeedback(j), k, 4, now));
            if k !in s.rows || s.rows[k].state.Verdicted? then t == s
            else
              && t.sessions == map[] && t.verdicts == s.verdicts
              && t.feedback == (if k in s.feedback then s.feedback else s.feedback[k := j])
              && if s.rows[k].state.Analyzed? || s.rows[k].state.Reviewing?
                 then Moved(s, t, k, s.rows[k].(state := Decided, decidedAt := Some(now)),
                            [Change(s.rows[k].state, FeedbackBanked, Decided, now)])
                 else RowsStay(s, t)
  {
    RunKeepsInv(before);
    RunAlone(before, RecordFeedback(j), k, 4, now);
    if k in Run(before).rows {
      FeedbackFrom(Run(before), k, j, now);
    } else {
      NoScan(Run(before), k, now, RecordFeedback(j));
    }
  }

  // ------------------------------------------------- finished operations, any run

  /** What an operation has settled at each of its statements: the states it cannot leave the
      scan in, as far as its session knows. */
  ghost predicate Progress(e: Session) {
    match e.op
    case RecordAcquisition => true
    case RecordDetection =>
      && (e.pc >= 1 ==> e.cached.Some?) && (e.pc >= 2 ==> e.cached != Some(Pending))
      && (e.pc >= 3 ==> e.cached != Some(Analyzing))
    case RecordVerdict => (e.pc >= 2 ==> e.cached.Some?) && (e.pc >= 3 ==> e.cached != Some(Analyzed))
    case RecordFeedback(_) =>
      && (e.pc >= 2 ==> e.cached.Some?)
      && (e.pc >= 3 ==> e.cached != Some(Analyzed) && e.cached != Some(Verdicted) && e.cached != Some(Reviewing))
    case Decide(_) => (e.pc >= 1 ==> e.cached.Some?) && (e.pc >= 4 ==> e.cached == Some(Decided))
    case MarkReviewing => (e.pc >= 1 ==> e.cached.Some?) && (e.pc >= 2 ==> e.cached != Some(Verdicted))
  }

  /** A swap that takes effect leaves the session with the state the table gives. */
  lemma SwapLeads(s: State, sid: nat, event: Event, now: Time)
    requires sid in s.sessions
    ensures var e, t := s.sessions[sid], SwapStep(s, sid, event, now);
            sid in t.sessions && t.sessions[sid] != e ==>
              && e.cached.Some? && t.sessions[sid].op == e.op && t.sessions[sid].pc == e.pc + 1
              && t.sessions[sid].cached == Allowed(e.cached.value, event) && t.sessions[sid].cached.Some?
  {
    var e := s.sessions[sid];
    if e.cached.Some? && RowThere(s, e) && !RowHeld(s, sid, e.scan) {
      var r := Cas(e.cached.value, Visible(s, e), event, now);
      if r.Swapped? {
        CasFollowsTable(e.cached.value, Visible(s, e), event, now);
        assert SwapStep(s, sid, event, now) == With(s, sid, Advanced(e, r.row, r.change));
      }
    }
  }

  lemma CasFollowsTable(cached: ScanState, row: ScanRow, event: Event, now: Time)
    ensures var r := Cas(cached, row, event, now); r.Swapped? ==> Some(r.row.state) == Allowed(cached, event)
  {
  }

  lemma SwapProgress(s: State, sid: nat, event: Event, now: Time)
    requires sid in s.sessions && Progress(s.sessions[sid])
    requires var e := s.sessions[sid]; Program(e.op, e.pc, e.cached) == Swap(event)
    ensures var t := SwapStep(s, sid, event, now); sid in t.sessions ==> Progress(t.sessions[sid])
  {
    SwapLeads(s, sid, event, now);
    var e, t := s.sessions[sid], SwapStep(s, sid, event, now);
    if sid in t.sessions && t.sessions[sid] != e {
      SwapSettles(e, event, t.sessions[sid]);
    }
  }

  lemma SwapSettles(e: Session, event: Event, next: Session)
    requires Progress(e) && e.cached.Some? && Program(e.op, e.pc, e.cached) == Swap(event)
    requires next.op == e.op && next.pc == e.pc + 1 && next.cached == Allowed(e.cached.value, event) && next.cached.Some?
    ensures Progress(next)
  {
  }

  lemma LocalProgress(s: State, sid: nat, e: Session)
    requires Progress(e)
    requires var instr := Program(e.op, e.pc, e.cached); !instr.Swap? && !instr.Finish?
    ensures var r := Local(s, sid, e, Program(e.op, e.pc, e.cached)); r.Become? ==> Progress(r.session)
  {
  }

  lemma ExecuteProgress(s: State, sid: nat, now: Time)
    requires sid in s.sessions && Progress(s.sessions[sid])
    ensures var t := Execute(s, sid, now); sid in t.sessions ==> Progress(t.sessions[sid])
  {
    var e := s.sessions[sid];
    var instr := Program(e.op, e.pc, e.cached);
    if instr.Swap? {
      SwapProgress(s, sid, instr.event, now);
    } else if !instr.Finish? {
      LocalProgress(s, sid, e);
    }
  }

  lemma NextProgress(s: State, a: Action, sid: nat)
    requires sid in s.sessions ==> Progress(s.sessions[sid])
    ensures sid in Next(s, a).sessions ==> Progress(Next(s, a).sessions[sid])
  {
    if a.sid != sid {
      OtherSteps(s, a, sid);
    } else if a.Step? && sid in s.sessions {
      ExecuteProgress(s, sid, a.now);
    }
  }

  lemma {:induction false} RunProgress(actions: seq<Action>, sid: nat)
    ensures sid in Run(actions).sessions ==> Progress(Run(actions).sessions[sid])
  {
    if actions != [] {
      var n := |actions| - 1;
      RunProgress(actions[..n], sid);
      NextProgress(Run(actions[..n]), actions[n], sid);
    }
  }

  /** The session has acted on what it knows, and has its side row. */
  ghost predicate Settled(s: State, e: Session) {
    match e.op
    case RecordAcquisition => e.own.Some? || e.scan in s.rows
    case RecordDetection => e.cached.Some? && e.cached != Some(Pending) && e.cached != Some(Analyzing)
    case RecordVerdict => e.cached.Some? && e.cached != Some(Analyzed) && e.vd
    case RecordFeedback(_) =>
      && e.cached.Some? && e.cached != Some(Analyzed) && e.cached != Some(Verdicted) && e.cached != Some(Reviewing)
      && (e.fb.Some? || e.scan in s.feedback)
    case Decide(_) => e.cached == Some(Decided) && e.own.Some? && e.own.value.state.Decided?
    case MarkReviewing => e.cached.Some? && e.cached != Some(Verdicted)
  }

  /** In every run, whatever the other sessions do: an operation that is finished leaves its
      session no belief that it should have acted on.  A detection does not leave the scan
      PENDING or ANALYZING, a verdict not ANALYZED, a feedback in no state it can decide, an
      opening not VERDICTED, and a decision leaves it DECIDED. */
  lemma FinishedHasActed(actions: seq<Action>, sid: nat)
    requires sid in Run(actions).sessions
    requires var e := Run(actions).sessions[sid]; Program(e.op, e.pc, e.cached).Finish?
    ensures Settled(Run(actions), Run(actions).sessions[sid])
  {
    RunProgress(actions, sid);
    RunKeepsInv(actions);
    SettledAtEnd(Run(actions), Run(actions).sessions[sid]);
  }

  lemma SettledAtEnd(s: State, e: Session)
    requires Progress(e) && SessionOk(s, e) && Program(e.op, e.pc, e.cached).Finish?
    ensures Settled(s, e)
  {
  }

  // --------------------------------------------------- waiting, order, first come

  /** What waits for another session changes nothing: an insert of a row or a feedback that
      another session has inserted and not committed, and an update of a row it holds. */
  lemma ConflictsWait(s: State, sid: nat, now: Time)
    requires sid in s.sessions
    requires var e := s.sessions[sid];
             match Program(e.op, e.pc, e.cached)
             case InsertScan => !RowThere(s, e) && RowHeld(s, sid, e.scan)
             case InsertFeedback => RowThere(s, e) && e.fb.None? && e.scan !in s.feedback && FeedbackHeld(s, sid, e.scan)
             case Swap(_) => RowThere(s, e) && e.cached.Some? && RowHeld(s, sid, e.scan)
             case _ => false
    ensures Execute(s, sid, now) == s
  {
  }

  /** A transition that the table refuses, or whose row is not in the state the session believes,
      ends the session, and nothing it has written stays. */
  lemma LostRaceRollsBack(s: State, sid: nat, now: Time)
    requires sid in s.sessions
    requires var e := s.sessions[sid];
             match Program(e.op, e.pc, e.cached)
             case Swap(event) =>
               && e.cached.Some? && RowThere(s, e) && !RowHeld(s, sid, e.scan)
               && (Allowed(e.cached.value, event).None? || Visible(s, e).state != e.cached.value)
             case _ => false
    ensures Next(s, Step(sid, now)) == s.(sessions := s.sessions - {sid})
  {
  }

  /** So does a session that is killed. */
  lemma KilledSessionIsGone(actions: seq<Action>, sid: nat)
    ensures var s := Run(actions); Run(actions + [Kill(sid)]) == s.(sessions := s.sessions - {sid})
  {
    RunSnoc(actions, Kill(sid));
  }

  /** The operations of a session follow in the order in which they were given, none left out. */
  lemma OperationsFollow(s: State, sid: nat, now: Time)
    requires sid in s.sessions && s.sessions[sid].rest != []
    requires var e := s.sessions[sid]; Program(e.op, e.pc, e.cached).Finish?
    ensures var e, t := s.sessions[sid], Execute(s, sid, now);
            && sid in t.sessions && t.sessions[sid].pc == 0
            && [t.sessions[sid].op] + t.sessions[sid].rest == e.rest
            && t.sessions[sid].cached == e.cached && t.sessions[sid].own == e.own && t.sessions[sid].trail == e.trail
            && t.sessions[sid].fb == e.fb && t.sessions[sid].vd == e.vd
            && t.rows == s.rows && t.feedback == s.feedback && t.verdicts == s.verdicts
  {
  }

  lemma AdvancedKeepsFiling(s: State, sid: nat, e: Session, row: ScanRow, change: Change)
    ensures With(s, sid, Advanced(e, row, change)).sessions[sid].fb == e.fb
  {
  }

  lemma SwapKeepsFiling(s: State, sid: nat, event: Event, now: Time)
    requires sid in s.sessions
    ensures var t := SwapStep(s, sid, event, now); sid in t.sessions ==> t.sessions[sid].fb == s.sessions[sid].fb
  {
    var e := s.sessions[sid];
    if e.cached.Some? && RowThere(s, e) {
      if !RowHeld(s, sid, e.scan) {
        var r := Cas(e.cached.value, Visible(s, e), event, now);
        if r.Swapped? {
          AdvancedKeepsFiling(s, sid, e, r.row, r.change);
        }
      }
    }
  }

  lemma ExecuteKeepsFiling(s: State, sid: nat, now: Time)
    requires sid in s.sessions && s.sessions[sid].fb.Some?
    ensures var t := Execute(s, sid, now); sid in t.sessions ==> t.sessions[sid].fb == s.sessions[sid].fb
  {
    var e := s.sessions[sid];
    var instr := Program(e.op, e.pc, e.cached);
    if instr.Swap? {
      SwapKeepsFiling(s, sid, instr.event, now);
    }
  }

  /** The first feedback of a session stays: a later one in the same transaction is ignored,
      like one that finds a committed feedback row. */
  lemma FilingStays(s: State, a: Action, sid: nat)
    requires sid in s.sessions && s.sessions[sid].fb.Some?
    ensures sid in Next(s, a).sessions ==> Next(s, a).sessions[sid].fb == s.sessions[sid].fb
  {
    if a.sid != sid {
      OtherSteps(s, a, sid);
    } else if a.Step? {
      ExecuteKeepsFiling(s, sid, a.now);
    }
  }
}
