/** What every interleaving of sessions keeps (app/state/machine.py, app/api/v1/scans.py). */
module ScanLifecycle {
  import opened Common
  import opened ScanStates
  import opened ScanSessions

  // --------------------------------------------------------------- one scan, any run

  /** In every run, every scan's committed history is a path of the transition table from
      PENDING, and its row says exactly what that history says: the state is where the path
      ends and each timestamp is the time of its own transition. */
  lemma HistoryIsPath(actions: seq<Action>, k: ScanId)
    requires k in Run(actions).rows
    ensures var s := Run(actions);
            && k in s.history && Path(Pending, s.history[k]) && s.rows[k] == RowAfter(s.history[k])
            && (s.rows[k].decidedAt.Some? <==> s.rows[k].state.Decided?)
  {
    RunKeepsInv(actions);
    DecidedByFeedback(Run(actions).history[k]);
  }

  /** No event commits twice for a scan: at most one decision, one verdict, one detection;
      later committed changes always rank higher, and none follows a terminal state. */
  lemma CommittedOnce(actions: seq<Action>, k: ScanId, i: nat, j: nat)
    requires k in Run(actions).history && i < j < |Run(actions).history[k]|
    ensures var h := Run(actions).history[k];
            && h[i].event != h[j].event
            && Rank(h[i].to) < Rank(h[j].to) && !Terminal(h[i].to)
  {
    RunKeepsInv(actions);
    var h := Run(actions).history[k];
    if h[i].event == h[j].event {
      EventsOnce(Pending, h, i, j);
    }
    PathClimbs(Pending, h, i, j);
  }

  /** A decided scan has its feedback row, and a scan shown to an operator its verdict row. */
  lemma DecidedHasFeedback(actions: seq<Action>, k: ScanId)
    requires k in Run(actions).rows
    ensures var s := Run(actions);
            && (s.rows[k].state.Decided? ==> k in s.feedback && k in s.decision)
            && (s.rows[k].state.Verdicted? || s.rows[k].state.Reviewing? ==> k in s.verdicts)
  {
    RunKeepsInv(actions);
  }

  // ----------------------------------------------------------------- nothing is undone

  /** A column that is set stays as it is. */
  predicate Frozen(before: Option<Time>, after: Option<Time>) { before.Some? ==> after == before }

  /** What one state leaves of another: histories grow at the end, feedback rows stay, a
      timestamp that is set keeps its value, and the row of a scan in a terminal state stays
      as it is. */
  ghost predicate Keeps(s: State, t: State, k: ScanId)
    requires k in s.rows && k in s.history
  {
    && k in t.rows && k in t.history && s.history[k] <= t.history[k]
    && (k in s.feedback ==> k in t.feedback && t.feedback[k] == s.feedback[k])
    && (Terminal(s.rows[k].state) ==> t.rows[k] == s.rows[k])
    && Frozen(s.rows[k].analyzedAt, t.rows[k].analyzedAt)
    && Frozen(s.rows[k].verdictedAt, t.rows[k].verdictedAt)
    && Frozen(s.rows[k].decidedAt, t.rows[k].decidedAt)
  }

  lemma KeepsTransitive(s: State, t: State, u: State, k: ScanId)
    requires k in s.rows && k in s.history && Keeps(s, t, k) && Keeps(t, u, k)
    ensures Keeps(s, u, k)
  {
  }

  lemma StepOnlyAppends(s: State, a: Action, k: ScanId)
    requires Inv(s) && k in s.rows
    ensures k in s.history && Keeps(s, Next(s, a), k)
  {
    if a.Step? && a.sid in s.sessions && var e := s.sessions[a.sid]; e.rest == [] && Program(e.op, e.pc, e.cached).Finish? {
      CommitAppends(s, a.sid, k);
    } else {
      OnlyCommitWrites(s, a);
    }
  }

  lemma CommitAppends(s: State, sid: nat, k: ScanId)
    requires Inv(s) && k in s.rows && sid in s.sessions
    ensures k in s.history && Keeps(s, Committed(s, sid), k)
  {
    var e := s.sessions[sid];
    assert SessionOk(s, e);
    if e.scan == k && e.own.Some? {
      var h := s.history[k];
      assert |e.trail| > 0;
      TerminalEnds(h, e.trail);
      TimesStay(h, e.trail, DetectCompleted);
      TimesStay(h, e.trail, VerdictCompleted);
      TimesStay(h, e.trail, FeedbackBanked);
    }
  }

  /** An event that has its time keeps it along every longer path. */
  lemma {:induction false} TimesStay(h: seq<Change>, more: seq<Change>, event: Event)
    requires Path(Pending, h + more)
    ensures Frozen(TimeOf(h, event), TimeOf(h + more, event))
  {
    var full := h + more;
    if TimeOf(h, event).Some? {
      var i := TimeFound(h, event);
      TimeThere(full, event, i);
      var j := TimeFound(full, event);
      EventsOnce(Pending, full, i, j);
    }
  }

  lemma {:induction false} TimeThere(changes: seq<Change>, event: Event, i: nat)
    requires i < |changes| && changes[i].event == event
    ensures TimeOf(changes, event).Some?
  {
    if changes[|changes| - 1].event != event {
      TimeThere(changes[..|changes| - 1], event, i);
    }
  }

  lemma TerminalEnds(h: seq<Change>, more: seq<Change>)
    requires Path(Pending, h + more) && more != []
    ensures !Terminal(End(Pending, h))
  {
    var full := h + more;
    assert LegalAt(Pending, full, |h|);
    TransitionsClimb(full[|h|].from, full[|h|].event);
    if h != [] {
      assert full[|h| - 1] == h[|h| - 1];
    }
  }

  /** So over any continuation of any run: committed changes and feedback stay, and a
      decided or failed scan stays exactly as it is. */
  lemma {:induction false} RunsOnlyAppend(before: seq<Action>, after: seq<Action>, k: ScanId)
    requires k in Run(before).rows
    ensures k in Run(before).history && Keeps(Run(before), Run(before + after), k)
  {
    RunKeepsInv(before);
    if after == [] {
      assert before + after == before;
    } else {
      var n := |after| - 1;
      var middle := before + after[..n];
      RunsOnlyAppend(before, after[..n], k);
      RunOneMore(middle, after[n], k);
      assert before + after == middle + [after[n]];
      KeepsTransitive(Run(before), Run(middle), Run(before + after), k);
    }
  }

  lemma RunOneMore(actions: seq<Action>, a: Action, k: ScanId)
    requires k in Run(actions).rows
    ensures k in Run(actions).history && Keeps(Run(actions), Run(actions + [a]), k)
  {
    RunKeepsInv(actions);
    StepOnlyAppends(Run(actions), a, k);
    RunSnoc(actions, a);
  }

  lemma RunSnoc(actions: seq<Action>, a: Action)
    ensures Run(actions + [a]) == Next(Run(actions), a)
  {
    assert (actions + [a])[..|actions|] == actions;
  }

  // --------------------------------------------------- whose judgement is on file

  /** The stored feedback of a decided scan is the judgement of the operation that decided
      it exactly when no different feedback had been stored before: `on_conflict_do_nothing`
      keeps the older row. */
  lemma StoredJudgement(actions: seq<Action>, k: ScanId)
    requires k in Run(actions).rows && Run(actions).rows[k].state.Decided?
    ensures var s := Run(actions);
            && k in s.feedback && k in s.decision
            && (s.feedback[k] == s.decision[k] <==> k !in s.early || s.early[k] == s.decision[k])
  {
    RunKeepsInv(actions);
  }

  predicate HasFeedbackOp(ops: seq<Op>) { exists i :: 0 <= i < |ops| && ops[i].RecordFeedback? }

  /** The session only files feedback to decide with it: it has decided by the filing
      operation, or that operation is about to. */
  predicate FilesToDecide(e: Session) {
    && !e.op.RecordFeedback? && !HasFeedbackOp(e.rest)
    && (e.fb.Some? ==>
          || (e.decided.Some? && e.decided.value.at == e.fb.value.at)
          || (e.op.Decide? && e.fb.value.at == e.step && 2 <= e.pc <= 3 && e.decided.None?))
  }

  ghost predicate NoEarlyFeedback(s: State) {
    s.early == map[] && forall sid :: sid in s.sessions ==> FilesToDecide(s.sessions[sid])
  }

  lemma SwapFilesToDecide(s: State, e: Session, event: Event, now: Time)
    requires SessionOk(s, e) && FilesToDecide(e) && e.cached.Some? && RowThere(s, e)
    requires Program(e.op, e.pc, e.cached) == Swap(event)
    ensures var r := Cas(e.cached.value, Visible(s, e), event, now);
            r.Swapped? ==> FilesToDecide(Advanced(e, r.row, r.change))
  {
    var r := Cas(e.cached.value, Visible(s, e), event, now);
    if r.Swapped? {
      NotDecidedYet(s, e, event, now);
    }
  }

  lemma LocalFilesToDecide(s: State, sid: nat, e: Session, instr: Instr)
    requires SessionOk(s, e) && FilesToDecide(e)
    requires instr == Program(e.op, e.pc, e.cached) && !instr.Swap? && !instr.Finish?
    ensures var f := Local(s, sid, e, instr); f.Become? ==> FilesToDecide(f.session)
  {
  }

  lemma NextOpFilesToDecide(s: State, e: Session)
    requires SessionOk(s, e) && FilesToDecide(e) && e.rest != [] && Program(e.op, e.pc, e.cached).Finish?
    ensures FilesToDecide(NextOp(e))
  {
    FinishedDecided(s, e);
    assert e.rest == [e.rest[0]] + e.rest[1..];
    assert forall i :: 0 <= i < |e.rest[1..]| ==> e.rest[1..][i] == e.rest[i + 1];
  }

  /** A finished operation that filed feedback has decided. */
  lemma FinishedDecided(s: State, e: Session)
    requires SessionOk(s, e) && FilesToDecide(e) && Program(e.op, e.pc, e.cached).Finish?
    ensures e.fb.Some? ==> e.decided.Some? && e.decided.value.at == e.fb.value.at
  {
  }

  lemma WithKeepsNoEarly(s: State, sid: nat, e: Session)
    requires NoEarlyFeedback(s) && FilesToDecide(e)
    ensures NoEarlyFeedback(With(s, sid, e))
  {
  }

  lemma ExecuteKeepsNoEarly(s: State, sid: nat, now: Time)
    requires Inv(s) && NoEarlyFeedback(s) && sid in s.sessions
    ensures NoEarlyFeedback(Execute(s, sid, now))
  {
    var e := s.sessions[sid];
    assert SessionOk(s, e);
    match Program(e.op, e.pc, e.cached)
    case Swap(event) =>
      if e.cached.Some? && RowThere(s, e) {
        SwapFilesToDecide(s, e, event, now);
        var r := Cas(e.cached.value, Visible(s, e), event, now);
        if r.Swapped? {
          WithKeepsNoEarly(s, sid, Advanced(e, r.row, r.change));
        }
      }
    case Finish =>
      FinishedDecided(s, e);
      if e.rest != [] {
        NextOpFilesToDecide(s, e);
        WithKeepsNoEarly(s, sid, NextOp(e));
      }
    case instr =>
      LocalFilesToDecide(s, sid, e, instr);
      EffectKeepsNoEarly(s, sid, Local(s, sid, e, instr));
  }

  lemma EffectKeepsNoEarly(s: State, sid: nat, f: Effect)
    requires NoEarlyFeedback(s) && (f.Become? ==> FilesToDecide(f.session))
    ensures NoEarlyFeedback(match f case Wait => s case Abandon => Rollback(s, sid) case Become(e) => With(s, sid, e))
  {
  }

  lemma StepKeepsNoEarly(s: State, a: Action)
    requires Inv(s) && NoEarlyFeedback(s)
    requires a.Open? ==> !HasFeedbackOp(a.ops)
    ensures NoEarlyFeedback(Next(s, a))
  {
    match a
    case Open(sid, ops, scan) =>
      if sid !in s.sessions && ops != [] {
        assert forall i :: 0 <= i < |ops[1..]| ==> ops[1..][i] == ops[i + 1];
        WithKeepsNoEarly(s, sid, Start(ops, scan));
      }
    case Step(sid, now) =>
      if sid in s.sessions {
        ExecuteKeepsNoEarly(s, sid, now);
      }
    case Kill(sid) =>
  }

  lemma {:induction false} RunKeepsNoEarly(actions: seq<Action>)
    requires forall i :: 0 <= i < |actions| && actions[i].Open? ==> !HasFeedbackOp(actions[i].ops)
    ensures NoEarlyFeedback(Run(actions))
  {
    if actions != [] {
      var n := |actions| - 1;
      RunKeepsNoEarly(actions[..n]);
      RunKeepsInv(actions[..n]);
      StepKeepsNoEarly(Run(actions[..n]), actions[n]);
    }
  }

  /** Feedback stored ahead of the decision comes from `record_feedback` alone: without it,
      every decided scan carries the judgement that decided it. */
  lemma DecisionsOnFile(actions: seq<Action>, k: ScanId)
    requires forall i :: 0 <= i < |actions| && actions[i].Open? ==> !HasFeedbackOp(actions[i].ops)
    requires k in Run(actions).rows && Run(actions).rows[k].state.Decided?
    ensures var s := Run(actions); k in s.feedback && k in s.decision && s.feedback[k] == s.decision[k]
  {
    RunKeepsNoEarly(actions);
    StoredJudgement(actions, k);
  }

  lemma DecideCommits(s: State, sid: nat, e: Session)
    requires sid in s.sessions && s.sessions[sid] == e && SessionOk(s, e) && e.op.Decide? && e.pc >= 4
    ensures var t := Committed(s, sid);
            && e.scan in t.rows && t.rows[e.scan].state.Decided?
            && e.scan in t.decision && t.decision[e.scan] == JudgementOf(e.op)
            && e.scan in t.feedback
  {
    assert Decides(e);
  }

  lemma DecideFinishes(s: State, sid: nat, now: Time)
    requires Inv(s) && sid in s.sessions
    requires var e := s.sessions[sid]; e.op.Decide? && e.rest == [] && Program(e.op, e.pc, e.cached).Finish?
    ensures var e, t := s.sessions[sid], Next(s, Step(sid, now));
            && e.scan in t.rows && t.rows[e.scan].state.Decided?
            && e.scan in t.decision && t.decision[e.scan] == JudgementOf(e.op)
            && e.scan in t.feedback
  {
    DecideCommits(s, sid, s.sessions[sid]);
    assert Execute(s, sid, now) == Committed(s, sid);
  }

  /** In every run, whatever the other sessions do: a session whose last operation is
      `decide_scan` and which commits leaves the scan DECIDED by its own judgement, with a
      feedback row on file. */
  lemma DecideCloses(actions: seq<Action>, sid: nat, now: Time)
    requires sid in Run(actions).sessions
    requires var e := Run(actions).sessions[sid]; e.op.Decide? && e.rest == [] && Program(e.op, e.pc, e.cached).Finish?
    ensures var e, t := Run(actions).sessions[sid], Run(actions + [Step(sid, now)]);
            && e.scan in t.rows && t.rows[e.scan].state.Decided?
            && e.scan in t.decision && t.decision[e.scan] == JudgementOf(e.op)
            && e.scan in t.feedback
  {
    RunKeepsInv(actions);
    RunSnoc(actions, Step(sid, now));
    DecideFinishes(Run(actions), sid, now);
  }

  // -------------------------------------------------------- a run that shows it

  /** One session alone over the committed tables of `base`. */
  function At(base: State, e: Session): State { base.(sessions := map[0 := e]) }

  /** A request that is one operation. */
  function Begin(op: Op, k: ScanId): Session { Start([op], k) }

  lemma OpenAt(actions: seq<Action>, ops: seq<Op>, k: ScanId) returns (longer: seq<Action>)
    requires Run(actions).sessions == map[] && ops != []
    ensures Run(longer) == At(Run(actions), Start(ops, k))
  {
    longer := actions + [Open(0, ops, k)];
    RunSnoc(actions, Open(0, ops, k));
  }

  lemma LocalAt(actions: seq<Action>, base: State, e: Session, next: Session) returns (longer: seq<Action>)
    requires Run(actions) == At(base, e)
    requires var instr := Program(e.op, e.pc, e.cached);
             !instr.Swap? && !instr.Finish? && Local(At(base, e), 0, e, instr) == Become(next)
    ensures Run(longer) == At(base, next)
  {
    longer := actions + [Step(0, 0)];
    RunSnoc(actions, Step(0, 0));
    assert With(At(base, e), 0, next) == At(base, next);
  }

  lemma SwapAt(actions: seq<Action>, base: State, e: Session, event: Event, now: Time) returns (longer: seq<Action>)
    requires Run(actions) == At(base, e)
    requires Program(e.op, e.pc, e.cached) == Swap(event) && e.cached.Some? && RowThere(base, e)
    requires Cas(e.cached.value, Visible(base, e), event, now).Swapped?
    ensures var r := Cas(e.cached.value, Visible(base, e), event, now);
            Run(longer) == At(base, Advanced(e, r.row, r.change))
  {
    longer := actions + [Step(0, now)];
    RunSnoc(actions, Step(0, now));
    var r := Cas(e.cached.value, Visible(base, e), event, now);
    assert !RowHeld(At(base, e), 0, e.scan);
    assert With(At(base, e), 0, Advanced(e, r.row, r.change)) == At(base, Advanced(e, r.row, r.change));
  }

  lemma FinishAt(actions: seq<Action>, base: State, e: Session) returns (longer: seq<Action>)
    requires Run(actions) == At(base, e) && Program(e.op, e.pc, e.cached).Finish? && e.rest == []
    ensures Run(longer) == Committed(At(base, e), 0) && Run(longer).sessions == map[]
  {
    longer := actions + [Step(0, 0)];
    RunSnoc(actions, Step(0, 0));
  }

  lemma NextOpAt(actions: seq<Action>, base: State, e: Session) returns (longer: seq<Action>)
    requires Run(actions) == At(base, e) && Program(e.op, e.pc, e.cached).Finish? && e.rest != []
    ensures Run(longer) == At(base, NextOp(e))
  {
    longer := actions + [Step(0, 0)];
    RunSnoc(actions, Step(0, 0));
    assert With(At(base, e), 0, NextOp(e)) == At(base, NextOp(e));
  }

  lemma AcquireAlone(k: ScanId) returns (actions: seq<Action>)
    ensures var s := Run(actions);
            && s.sessions == map[] && s.rows == map[k := FRESH_ROW] && s.feedback == map[] && s.early == map[]
  {
    var base := InitState();
    assert Run([]) == base;
    actions := OpenAt([], [RecordAcquisition], k);
    var e := Begin(RecordAcquisition, k).(pc := 1, own := Some(FRESH_ROW));
    actions := LocalAt(actions, base, Begin(RecordAcquisition, k), e);
    actions := FinishAt(actions, base, e);
  }

  /** `record_feedback` on a scan that is still PENDING commits its row and no transition. */
  lemma FeedbackTooEarly(actions: seq<Action>, k: ScanId, j: Judgement) returns (longer: seq<Action>)
    requires var s := Run(actions);
             && s.sessions == map[] && k in s.rows && s.rows[k].state.Pending? && k !in s.feedback
    ensures Run(longer) == Run(actions).(feedback := Run(actions).feedback[k := j], early := Run(actions).early[k := j])
  {
    var base := Run(actions);
    var op := RecordFeedback(j);
    longer := OpenAt(actions, [op], k);
    var e1 := Begin(op, k).(pc := 1, fb := Some(Filing(0, j)));
    assert !FeedbackHeld(At(base, Begin(op, k)), 0, k);
    longer := LocalAt(longer, base, Begin(op, k), e1);
    longer := LocalAt(longer, base, e1, e1.(pc := 2, cached := Some(Pending)));
    longer := LocalAt(longer, base, e1.(pc := 2, cached := Some(Pending)), e1.(pc := 3, cached := Some(Pending)));
    longer := FinishAt(longer, base, e1.(pc := 3, cached := Some(Pending)));
  }

  /** The two transitions of `record_detection` on a row that the session sees as PENDING. */
  lemma DetectFrom(actions: seq<Action>, base: State, e: Session) returns (longer: seq<Action>, last: Session)
    requires Run(actions) == At(base, e) && e.op == RecordDetection && e.pc == 0 && e.cached.None?
    requires RowThere(base, e) && Visible(base, e).state.Pending?
    ensures Run(longer) == At(base, last) && Program(last.op, last.pc, last.cached).Finish? && last.rest == e.rest
    ensures last.scan == e.scan && last.own == Some(Visible(base, e).(state := Analyzed, analyzedAt := Some(0)))
    ensures last.fb == e.fb && last.vd == e.vd && last.decided == e.decided && |last.trail| == |e.trail| + 2
  {
    var e1 := e.(pc := 1, cached := Some(Pending));
    longer := LocalAt(actions, base, e, e1);
    longer := SwapAt(longer, base, e1, DetectReceived, 0);
    var r := Cas(Pending, Visible(base, e), DetectReceived, 0);
    var e2 := Advanced(e1, r.row, r.change);
    longer := SwapAt(longer, base, e2, DetectCompleted, 0);
    var q := Cas(Analyzing, r.row, DetectCompleted, 0);
    last := Advanced(e2, q.row, q.change);
  }

  lemma DetectAlone(actions: seq<Action>, k: ScanId) returns (longer: seq<Action>)
    requires var s := Run(actions); s.sessions == map[] && k in s.rows && s.rows[k].state.Pending?
    ensures var s, t := Run(actions), Run(longer);
            && t.sessions == map[] && k in t.rows && t.rows[k].state.Analyzed?
            && t.feedback == s.feedback && t.early == s.early && t.decision == s.decision
  {
    var base := Run(actions);
    longer := OpenAt(actions, [RecordDetection], k);
    var last;
    longer, last := DetectFrom(longer, base, Begin(RecordDetection, k));
    longer := FinishAt(longer, base, last);
  }

  /** The detect request inserts the scan and analyses it in one transaction: the load sees
      the session's own row, and the row appears with both changes at once. */
  lemma DetectRequest(actions: seq<Action>, k: ScanId) returns (longer: seq<Action>)
    requires var s := Run(actions); s.sessions == map[] && k !in s.rows
    ensures var s, t := Run(actions), Run(longer);
            && t.sessions == map[] && t.rows == s.rows[k := FRESH_ROW.(state := Analyzed, analyzedAt := Some(0))]
            && k in t.history && |t.history[k]| == 2
  {
    RunKeepsInv(actions);
    var base := Run(actions);
    var ops := [RecordAcquisition, RecordDetection];
    longer := OpenAt(actions, ops, k);
    var e := Start(ops, k).(pc := 1, own := Some(FRESH_ROW));
    longer := LocalAt(longer, base, Start(ops, k), e);
    longer := NextOpAt(longer, base, e);
    var last;
    longer, last := DetectFrom(longer, base, NextOp(e));
    longer := FinishAt(longer, base, last);
  }

  function DecidedRow(row: ScanRow, now: Time): ScanRow { row.(state := Decided, decidedAt := Some(now)) }

  /** A session that has filed its feedback and not decided yet, and one that has decided. */
  function Filed(base: State, k: ScanId, j: Judgement): Session
    requires k in base.rows
  {
    Begin(Decide(j), k).(pc := 2, cached := Some(base.rows[k].state),
                         fb := if k in base.feedback then None else Some(Filing(0, j)))
  }

  function Driven(base: State, k: ScanId, j: Judgement, now: Time, trail: seq<Change>): Session
    requires k in base.rows
  {
    Filed(base, k, j).(pc := 4, cached := Some(Decided), own := Some(DecidedRow(base.rows[k], now)), trail := trail,
                       decided := Some(Filing(0, j)))
  }

  /** `decide_scan` up to the insert of the feedback. */
  lemma FileAlone(actions: seq<Action>, k: ScanId, j: Judgement) returns (longer: seq<Action>)
    requires var s := Run(actions); s.sessions == map[] && k in s.rows && Decidable(s.rows[k].state)
    ensures Run(longer) == At(Run(actions), Filed(Run(actions), k, j))
  {
    var base := Run(actions);
    longer := OpenAt(actions, [Decide(j)], k);
    var e := Begin(Decide(j), k).(pc := 1, cached := Some(base.rows[k].state));
    longer := LocalAt(longer, base, Begin(Decide(j), k), e);
    assert !FeedbackHeld(At(base, e), 0, k);
    longer := LocalAt(longer, base, e, Filed(base, k, j));
  }

  /** The transitions of `decide_scan`. */
  lemma DriveAlone(actions: seq<Action>, base: State, k: ScanId, j: Judgement, now: Time)
    returns (longer: seq<Action>, trail: seq<Change>)
    requires k in base.rows && Decidable(base.rows[k].state) && Run(actions) == At(base, Filed(base, k, j))
    ensures Run(longer) == At(base, Driven(base, k, j, now, trail))
  {
    var e, state := Filed(base, k, j), base.rows[k].state;
    var e3: Session;
    if state.Verdicted? {
      longer := SwapAt(actions, base, e, ScanOpened, now);
      var r := Cas(state, base.rows[k], ScanOpened, now);
      e3 := Advanced(e, r.row, r.change);
    } else {
      e3 := e.(pc := 3);
      longer := LocalAt(actions, base, e, e3);
    }
    longer := SwapAt(longer, base, e3, FeedbackBanked, now);
    var q := Cas(e3.cached.value, Visible(base, e3), FeedbackBanked, now);
    trail := e3.trail + [q.change];
    assert Advanced(e3, q.row, q.change) == Driven(base, k, j, now, trail);
  }

  lemma CommitAlone(actions: seq<Action>, base: State, k: ScanId, j: Judgement, now: Time, trail: seq<Change>)
    returns (longer: seq<Action>)
    requires k in base.rows && Run(actions) == At(base, Driven(base, k, j, now, trail))
    ensures var t := Run(longer);
            && t.sessions == map[] && t.rows == base.rows[k := DecidedRow(base.rows[k], now)]
            && t.feedback == (if k in base.feedback then base.feedback else base.feedback[k := j])
            && t.decision == base.decision[k := j]
  {
    longer := FinishAt(actions, base, Driven(base, k, j, now, trail));
  }

  /** Without interference a session that decides a scan leaves what `ScanStore.DecideScan`
      promises: from any of the three decidable states, with feedback on file or not. */
  lemma DecideAlone(actions: seq<Action>, k: ScanId, j: Judgement, now: Time) returns (longer: seq<Action>)
    requires var s := Run(actions); s.sessions == map[] && k in s.rows && Decidable(s.rows[k].state)
    ensures var s, t := Run(actions), Run(longer);
            && t.sessions == map[] && t.rows == s.rows[k := DecidedRow(s.rows[k], now)]
            && t.feedback == (if k in s.feedback then s.feedback else s.feedback[k := j])
            && t.decision == s.decision[k := j]
  {
    var base := Run(actions);
    var trail;
    longer := FileAlone(actions, k, j);
    longer, trail := DriveAlone(longer, base, k, j, now);
    longer := CommitAlone(longer, base, k, j, now, trail);
  }

  /** Two operators, any two judgements: feedback arrives before the detection, is kept, and
      the later decision moves the scan to DECIDED while the older judgement stays on file. */
  lemma EarlyFeedbackShadowsDecision(k: ScanId, first: Judgement, last: Judgement) returns (actions: seq<Action>)
    ensures var s := Run(actions);
            && k in s.rows && s.rows[k].state.Decided?
            && k in s.decision && s.decision[k] == last
            && k in s.feedback && s.feedback[k] == first
  {
    actions := AcquireAlone(k);
    actions := FeedbackTooEarly(actions, k, first);
    actions := DetectAlone(actions, k);
    actions := DecideAlone(actions, k, last, 0);
  }

  // ---------------------------------------------- feedback on a verdicted scan

  /** A `record_feedback` that has read VERDICTED and is about to advance the scan. */
  predicate ReadVerdicted(e: Session) { e.op.RecordFeedback? && e.pc == 2 && e.cached == Some(Verdicted) }

  /** The session waits, or is rolled back: only its own entry changes. */
  lemma VerdictedStep(s: State, sid: nat, now: Time)
    requires sid in s.sessions && ReadVerdicted(s.sessions[sid])
    ensures Execute(s, sid, now) == s || Execute(s, sid, now) == Rollback(s, sid)
  {
  }

  /** The session is as it was, open or not. */
  predicate SameEntry(s: State, t: State, sid: nat) {
    (sid in t.sessions <==> sid in s.sessions) && (sid in s.sessions ==> t.sessions[sid] == s.sessions[sid])
  }

  lemma SwapOthers(s: State, other: nat, event: Event, now: Time, sid: nat)
    requires other in s.sessions && other != sid
    ensures SameEntry(s, SwapStep(s, other, event, now), sid)
  {
  }

  lemma LocalOthers(s: State, other: nat, effect: Effect, sid: nat)
    requires other != sid
    ensures effect.Become? ==> SameEntry(s, With(s, other, effect.session), sid)
    ensures SameEntry(s, Rollback(s, other), sid)
  {
  }

  lemma CommitOthersStay(s: State, other: nat, sid: nat)
    requires other in s.sessions && other != sid
    ensures SameEntry(s, Committed(s, other), sid)
  {
  }

  lemma ExecuteOthers(s: State, other: nat, now: Time, sid: nat)
    requires other in s.sessions && other != sid
    ensures SameEntry(s, Execute(s, other, now), sid)
  {
    var e := s.sessions[other];
    var instr := Program(e.op, e.pc, e.cached);
    if instr.Swap? {
      SwapOthers(s, other, instr.event, now, sid);
    } else if instr.Finish? {
      CommitOthersStay(s, other, sid);
    } else {
      LocalOthers(s, other, Local(s, other, e, instr), sid);
    }
  }

  lemma OtherSteps(s: State, a: Action, sid: nat)
    requires a.sid != sid
    ensures SameEntry(s, Next(s, a), sid)
  {
    if a.Step? && a.sid in s.sessions {
      ExecuteOthers(s, a.sid, a.now, sid);
    }
  }

  predicate Opens(a: Action, sid: nat) { a.Open? && a.sid == sid }

  /** `record_feedback` counts VERDICTED among the states it can decide, but the table has no
      such transition.  So in every run, once a session has read VERDICTED there, whatever the
      others do, it is still at that statement or it is gone, and none of its steps has
      changed a table: it never commits. */
  lemma {:induction false} FeedbackOnVerdictedFails(before: seq<Action>, after: seq<Action>, sid: nat)
    requires sid in Run(before).sessions && ReadVerdicted(Run(before).sessions[sid])
    requires forall i :: 0 <= i < |after| ==> !Opens(after[i], sid)
    ensures var t := Run(before + after); sid in t.sessions ==> t.sessions[sid] == Run(before).sessions[sid]
    ensures after != [] && after[|after| - 1].sid == sid ==>
              var s, t := Run(before + after[..|after| - 1]), Run(before + after);
              t == s.(sessions := t.sessions)
  {
    if after == [] {
      assert before + after == before;
    } else {
      var n := |after| - 1;
      var s, a := Run(before + after[..n]), after[n];
      FeedbackOnVerdictedFails(before, after[..n], sid);
      RunSnoc(before + after[..n], a);
      assert before + after == (before + after[..n]) + [a];
      assert !Opens(a, sid);
      if a.sid != sid {
        OtherSteps(s, a, sid);
      } else if a.Step? && sid in s.sessions {
        VerdictedStep(s, sid, a.now);
      }
    }
  }
}
