/** Sessions racing to advance scans: stale reads, compare-and-swap, commit and rollback
    (app/state/machine.py, `PostgresScanStore`; app/api/v1/scans.py, `decide_scan` and
    `mark_reviewing`).  One step is one statement of one session; statements of different
    sessions interleave freely.  The database gives: an atomic conditional update that holds
    the row until the transaction ends, insert-or-ignore on a unique key, foreign keys,
    commit and rollback. */
module ScanSessions {
  import opened Common
  import opened ScanStates

  type ScanId = nat

  /** An operator's recorded judgement on a scan. */
  datatype Judgement = Judgement(operatorId: string, outcome: string)

  /** The operation a session was opened for. */
  datatype Op =
    | RecordAcquisition
    | RecordDetection
    | RecordVerdict
    | RecordFeedback(judgement: Judgement)
    | Decide(judgement: Judgement)
    | MarkReviewing

  /** A judgement with the number of the operation, within its session, that gave it. */
  datatype Filing = Filing(at: nat, judgement: Judgement)

  /** A session runs operations on a scan one after another in one transaction: the current
      one, how far it is and its number, those to come, the state in the identity map (perhaps
      stale), and what is written but not committed: the row with the changes that led to it,
      the feedback row, the verdict row.  `decided` says which operation decided the scan. */
  datatype Session = Session(op: Op, rest: seq<Op>, scan: ScanId, pc: nat, step: nat, cached: Option<ScanState>,
                             own: Option<ScanRow>, trail: seq<Change>, fb: Option<Filing>, vd: bool,
                             decided: Option<Filing>)

  function Start(ops: seq<Op>, scan: ScanId): Session
    requires ops != []
  {
    Session(ops[0], ops[1..], scan, 0, 0, None, None, [], None, false, None)
  }

  datatype Instr = InsertScan | InsertVerdict | InsertFeedback | Load | Swap(event: Event) | Skip | Finish | GiveUp

  predicate Decidable(state: ScanState) { state.Analyzed? || state.Verdicted? || state.Reviewing? }

  function SwapWhen(guard: bool, event: Event): Instr { if guard then Swap(event) else Skip }

  /** The statement an operation executes next, given what its session has loaded. */
  function Program(op: Op, pc: nat, cached: Option<ScanState>): Instr {
    match op
    case RecordAcquisition => if pc == 0 then InsertScan else Finish
    case RecordDetection =>
      if pc == 0 then Load
      else if pc == 1 then SwapWhen(cached == Some(Pending), DetectReceived)
      else if pc == 2 then SwapWhen(cached == Some(Analyzing), DetectCompleted)
      else Finish
    case RecordVerdict =>
      if pc == 0 then InsertVerdict else if pc == 1 then Load
      else if pc == 2 then SwapWhen(cached == Some(Analyzed), VerdictCompleted)
      else Finish
    case RecordFeedback(_) =>
      if pc == 0 then InsertFeedback else if pc == 1 then Load
      else if pc == 2 then SwapWhen(cached.Some? && Decidable(cached.value), FeedbackBanked)
      else Finish
    case Decide(_) =>
      if pc == 0 then Load
      else if pc == 1 then (if cached.Some? && Decidable(cached.value) then InsertFeedback else GiveUp)
      else if pc == 2 then SwapWhen(cached == Some(Verdicted), ScanOpened)
      else if pc == 3 then Swap(FeedbackBanked)
      else Finish
    case MarkReviewing =>
      if pc == 0 then Load else if pc == 1 then SwapWhen(cached == Some(Verdicted), ScanOpened) else Finish
  }

  /** The committed tables and the open sessions.  `history`, `early` and `decision` are for
      reference: the committed changes of each scan, the feedback stored by another operation
      than the one that decided the scan, and the judgement of the operation that did. */
  datatype State = State(rows: map<ScanId, ScanRow>, feedback: map<ScanId, Judgement>, verdicts: set<ScanId>,
                         sessions: map<nat, Session>,
                         history: map<ScanId, seq<Change>>, early: map<ScanId, Judgement>, decision: map<ScanId, Judgement>)

  function InitState(): State { State(map[], map[], {}, map[], map[], map[], map[]) }

  datatype Action = Open(sid: nat, ops: seq<Op>, scan: ScanId) | Step(sid: nat, now: Time) | Kill(sid: nat)

  /** Another open session holds an uncommitted version of the row. */
  predicate RowHeld(s: State, sid: nat, scan: ScanId) {
    exists o :: o in s.sessions && o != sid && s.sessions[o].scan == scan && s.sessions[o].own.Some?
  }

  predicate FeedbackHeld(s: State, sid: nat, scan: ScanId) {
    exists o :: o in s.sessions && o != sid && s.sessions[o].scan == scan && s.sessions[o].fb.Some?
  }

  function With(s: State, sid: nat, e: Session): State { s.(sessions := s.sessions[sid := e]) }

  function Rollback(s: State, sid: nat): State { s.(sessions := s.sessions - {sid}) }

  function Past(s: State, scan: ScanId): seq<Change> { if scan in s.history then s.history[scan] else [] }

  function JudgementOf(op: Op): Judgement {
    match op
    case RecordFeedback(j) => j
    case Decide(j) => j
    case _ => Judgement("", "")
  }

  /** The feedback row is not the work of the deciding operation. */
  predicate FiledEarly(e: Session) { e.fb.Some? && (e.decided.None? || e.decided.value.at != e.fb.value.at) }

  function Committed(s: State, sid: nat): State
    requires sid in s.sessions
  {
    var e := s.sessions[sid];
    s.(rows := if e.own.Some? then s.rows[e.scan := e.own.value] else s.rows,
       history := if e.own.Some? then s.history[e.scan := Past(s, e.scan) + e.trail] else s.history,
       feedback := if e.fb.Some? then s.feedback[e.scan := e.fb.value.judgement] else s.feedback,
       verdicts := if e.vd then s.verdicts + {e.scan} else s.verdicts,
       early := if FiledEarly(e) then s.early[e.scan := e.fb.value.judgement] else s.early,
       decision := if e.decided.Some? then s.decision[e.scan := e.decided.value.judgement] else s.decision,
       sessions := s.sessions - {sid})
  }

  /** The session sees a row for its scan: a committed one, or one it has inserted itself. */
  predicate RowThere(s: State, e: Session) { e.own.Some? || e.scan in s.rows }

  /** The version of the row this session sees. */
  function Visible(s: State, e: Session): ScanRow
    requires RowThere(s, e)
  {
    if e.own.Some? then e.own.value else s.rows[e.scan]
  }

  function Advanced(e: Session, row: ScanRow, change: Change): Session {
    e.(pc := e.pc + 1, cached := Some(row.state), own := Some(row), trail := e.trail + [change],
       decided := if change.event.FeedbackBanked? then Some(Filing(e.step, JudgementOf(e.op))) else e.decided)
  }

  /** A compare-and-swap waits while another session holds the row; a refused event and a
      lost race both roll the session back. */
  function SwapStep(s: State, sid: nat, event: Event, now: Time): State
    requires sid in s.sessions
  {
    var e := s.sessions[sid];
    if e.cached.None? || !RowThere(s, e) then Rollback(s, sid)
    else if RowHeld(s, sid, e.scan) then s
    else
      match Cas(e.cached.value, Visible(s, e), event, now)
      case Swapped(row, change) => With(s, sid, Advanced(e, row, change))
      case _ => Rollback(s, sid)
  }

  /** What the other statements do to their own session: wait for a lock, fail, or go on. */
  datatype Effect = Wait | Abandon | Become(session: Session)

  /** A load reads the database only when the identity map has no entry yet. */
  function Local(s: State, sid: nat, e: Session, instr: Instr): Effect {
    var next := e.(pc := e.pc + 1);
    match instr
    case InsertScan =>
      if RowThere(s, e) then Become(next)
      else if RowHeld(s, sid, e.scan) then Wait
      else Become(next.(own := Some(FRESH_ROW)))
    case InsertVerdict =>
      if !RowThere(s, e) then Abandon else Become(next.(vd := true))
    case InsertFeedback =>
      if !RowThere(s, e) then Abandon
      else if e.scan in s.feedback || e.fb.Some? then Become(next)
      else if FeedbackHeld(s, sid, e.scan) then Wait
      else Become(next.(fb := Some(Filing(e.step, JudgementOf(e.op)))))
    case Load =>
      if !RowThere(s, e) then Abandon
      else Become(next.(cached := if e.cached.Some? then e.cached else Some(Visible(s, e).state)))
    case GiveUp => Abandon
    case _ => Become(next)
  }

  /** The next operation of the session, in the same transaction. */
  function NextOp(e: Session): Session
    requires e.rest != []
  {
    e.(op := e.rest[0], rest := e.rest[1..], pc := 0, step := e.step + 1)
  }

  /** One statement of session `sid`. */
  function Execute(s: State, sid: nat, now: Time): State
    requires sid in s.sessions
  {
    var e := s.sessions[sid];
    match Program(e.op, e.pc, e.cached)
    case Swap(event) => SwapStep(s, sid, event, now)
    case Finish => if e.rest == [] then Committed(s, sid) else With(s, sid, NextOp(e))
    case instr =>
      match Local(s, sid, e, instr)
      case Wait => s
      case Abandon => Rollback(s, sid)
      case Become(next) => With(s, sid, next)
  }

  function Next(s: State, a: Action): State {
    match a
    case Open(sid, ops, scan) =>
      if sid in s.sessions || ops == [] then s else With(s, sid, Start(ops, scan))
    case Step(sid, now) => if sid in s.sessions then Execute(s, sid, now) else s
    case Kill(sid) => Rollback(s, sid)
  }

  function Run(actions: seq<Action>): State {
    if actions == [] then InitState() else Next(Run(actions[..|actions| - 1]), actions[|actions| - 1])
  }

  // ----------------------------------------------------------------- invariants

  ghost predicate RowsFollowHistory(s: State) {
    && s.rows.Keys == s.history.Keys
    && forall k :: k in s.rows ==> Path(Pending, s.history[k]) && s.rows[k] == RowAfter(s.history[k])
  }

  ghost predicate FeedbackAccounted(s: State) {
    && s.feedback.Keys == s.early.Keys + s.decision.Keys
    && s.feedback.Keys <= s.rows.Keys && s.verdicts <= s.rows.Keys
    && (forall k :: k in s.feedback ==> s.feedback[k] == if k in s.early then s.early[k] else s.decision[k])
    && (forall k :: k in s.rows ==> (s.rows[k].state.Decided? <==> k in s.decision))
    && (forall k :: k in s.rows && (s.rows[k].state.Verdicted? || s.rows[k].state.Reviewing?) ==> k in s.verdicts)
  }

  /** The current operation has passed its feedback insert. */
  predicate BankedBy(e: Session) { (e.op.RecordFeedback? && e.pc >= 1) || (e.op.Decide? && e.pc >= 2) }

  predicate Decides(e: Session) { e.own.Some? && e.own.value.state.Decided? }

  /** The uncommitted version of the row continues the committed history. */
  ghost predicate VersionOk(s: State, e: Session) {
    && (e.own.None? ==> e.trail == [])
    && (e.own.Some? ==>
          && Path(Pending, Past(s, e.scan) + e.trail) && e.own.value == RowAfter(Past(s, e.scan) + e.trail)
          && (e.scan in s.rows ==> e.trail != [] && !s.rows[e.scan].state.Decided?))
    && (e.trail != [] ==> e.own.Some? && e.cached == Some(e.own.value.state))
    && (e.decided.Some? <==> Decides(e))
  }

  ghost predicate FilingsOk(e: Session) {
    && (e.fb.Some? ==> e.fb.value.at <= e.step && (e.fb.value.at == e.step ==> e.fb.value.judgement == JudgementOf(e.op)))
    && (e.decided.Some? ==> e.decided.value.at <= e.step)
    && (e.fb.Some? && e.decided.Some? && e.fb.value.at == e.decided.value.at ==> e.fb == e.decided)
  }

  /** The side rows are written before the transitions that need them. */
  ghost predicate SideRowsOk(s: State, e: Session) {
    && (e.fb.Some? ==> RowThere(s, e) && e.scan !in s.feedback)
    && (e.vd ==> RowThere(s, e))
    && (BankedBy(e) ==> e.fb.Some? || e.scan in s.feedback)
    && (e.op.RecordVerdict? && e.pc >= 1 ==> e.vd)
    && (e.op.RecordAcquisition? && e.pc >= 1 ==> RowThere(s, e))
    && FilingsOk(e)
  }

  ghost predicate StateBacked(s: State, e: Session) {
    && (e.own.Some? ==>
          && (e.own.value.state.Decided? ==> e.fb.Some? || e.scan in s.feedback)
          && (e.own.value.state.Verdicted? || e.own.value.state.Reviewing? ==> e.vd || e.scan in s.verdicts))
    && (e.op.Decide? && e.pc >= 4 ==> e.decided == Some(Filing(e.step, JudgementOf(e.op))))
  }

  ghost predicate SessionOk(s: State, e: Session) {
    VersionOk(s, e) && SideRowsOk(s, e) && StateBacked(s, e)
  }

  ghost predicate Exclusive(s: State) {
    && (forall a, b :: a in s.sessions && b in s.sessions && a != b && s.sessions[a].scan == s.sessions[b].scan ==>
          (s.sessions[a].own.None? || s.sessions[b].own.None?) && (s.sessions[a].fb.None? || s.sessions[b].fb.None?))
  }

  ghost predicate Inv(s: State) {
    && RowsFollowHistory(s)
    && FeedbackAccounted(s)
    && Exclusive(s)
    && (forall sid :: sid in s.sessions ==> SessionOk(s, s.sessions[sid]))
  }

  lemma WithKeepsExclusive(s: State, sid: nat, e: Session)
    requires Exclusive(s)
    requires e.own.Some? ==> !RowHeld(s, sid, e.scan)
    requires e.fb.Some? ==> !FeedbackHeld(s, sid, e.scan)
    ensures Exclusive(With(s, sid, e))
  {
  }

  lemma WithKeepsInv(s: State, sid: nat, e: Session)
    requires Inv(s) && SessionOk(s, e)
    requires e.own.Some? ==> !RowHeld(s, sid, e.scan)
    requires e.fb.Some? ==> !FeedbackHeld(s, sid, e.scan)
    ensures Inv(With(s, sid, e))
  {
    WithKeepsExclusive(s, sid, e);
    var t := With(s, sid, e);
    forall o | o in t.sessions ensures SessionOk(t, t.sessions[o]) {
      SameTables(s, t, t.sessions[o]);
    }
  }

  /** What a session is entitled to depends on the tables only. */
  lemma SameTables(s: State, t: State, e: Session)
    requires SessionOk(s, e) && t == s.(sessions := t.sessions)
    ensures SessionOk(t, e)
  {
  }

  lemma RollbackKeepsInv(s: State, sid: nat)
    requires Inv(s)
    ensures Inv(Rollback(s, sid))
  {
    var t := Rollback(s, sid);
    forall o | o in t.sessions ensures SessionOk(t, t.sessions[o]) {
      assert SessionOk(s, s.sessions[o]);
    }
  }

  // ------------------------------------------------------------------ each statement

  lemma HeldRow(s: State, sid: nat, e: Session)
    requires Inv(s) && sid in s.sessions && s.sessions[sid] == e
    ensures e.own.Some? ==> !RowHeld(s, sid, e.scan)
    ensures e.fb.Some? ==> !FeedbackHeld(s, sid, e.scan)
  {
  }

  /** The version a session sees is where its history and its own changes lead. */
  lemma VisibleIsAfter(s: State, e: Session)
    requires RowsFollowHistory(s) && VersionOk(s, e) && RowThere(s, e)
    ensures Path(Pending, Past(s, e.scan) + e.trail)
    ensures Visible(s, e) == RowAfter(Past(s, e.scan) + e.trail)
  {
    if e.own.None? {
      assert Past(s, e.scan) + e.trail == Past(s, e.scan);
    }
  }

  lemma SwapVersion(s: State, e: Session, event: Event, now: Time)
    requires RowsFollowHistory(s) && VersionOk(s, e) && e.cached.Some? && RowThere(s, e)
    ensures var r := Cas(e.cached.value, Visible(s, e), event, now);
            r.Swapped? ==> VersionOk(s, Advanced(e, r.row, r.change))
  {
    var r := Cas(e.cached.value, Visible(s, e), event, now);
    if r.Swapped? {
      VisibleIsAfter(s, e);
      var before := Past(s, e.scan) + e.trail;
      CasExtendsRow(before, e.cached.value, event, now);
      assert Past(s, e.scan) + (e.trail + [r.change]) == before + [r.change];
      NotDecidedYet(s, e, event, now);
    }
  }

  /** A change can still follow, so the row is not decided, and it is when the decision follows. */
  lemma NotDecidedYet(s: State, e: Session, event: Event, now: Time)
    requires VersionOk(s, e) && e.cached.Some? && RowThere(s, e)
    requires Cas(e.cached.value, Visible(s, e), event, now).Swapped?
    ensures e.decided.None? && (e.scan in s.rows ==> !s.rows[e.scan].state.Decided?)
    ensures Cas(e.cached.value, Visible(s, e), event, now).row.state.Decided? <==> event.FeedbackBanked?
  {
  }

  lemma SwapBacked(s: State, e: Session, event: Event, now: Time)
    requires FeedbackAccounted(s) && SessionOk(s, e) && e.cached.Some? && RowThere(s, e)
    requires Program(e.op, e.pc, e.cached) == Swap(event)
    ensures var r := Cas(e.cached.value, Visible(s, e), event, now);
            r.Swapped? ==> StateBacked(s, Advanced(e, r.row, r.change)) && SideRowsOk(s, Advanced(e, r.row, r.change))
  {
    var r := Cas(e.cached.value, Visible(s, e), event, now);
    if r.Swapped? {
      assert r.row.state.Decided? ==> event.FeedbackBanked?;
      assert r.row.state.Verdicted? ==> event.VerdictCompleted?;
      assert r.row.state.Reviewing? ==> event.ScanOpened? && Visible(s, e).state.Verdicted?;
      assert event.VerdictCompleted? ==> e.op.RecordVerdict? && e.pc == 2;
      assert event.FeedbackBanked? ==> BankedBy(e) && r.row.state.Decided?;
    }
  }

  lemma SwappedKeepsInv(s: State, sid: nat, e: Session, row: ScanRow, change: Change)
    requires Inv(s) && sid in s.sessions && s.sessions[sid] == e
    requires SessionOk(s, Advanced(e, row, change)) && !RowHeld(s, sid, e.scan)
    ensures Inv(With(s, sid, Advanced(e, row, change)))
  {
    HeldRow(s, sid, e);
    WithKeepsInv(s, sid, Advanced(e, row, change));
  }

  lemma SwapKeepsInv(s: State, sid: nat, event: Event, now: Time)
    requires Inv(s) && sid in s.sessions
    requires var e := s.sessions[sid]; Program(e.op, e.pc, e.cached) == Swap(event)
    ensures Inv(SwapStep(s, sid, event, now))
  {
    var e := s.sessions[sid];
    if e.cached.None? || !RowThere(s, e) {
      RollbackKeepsInv(s, sid);
    } else if !RowHeld(s, sid, e.scan) {
      var r := Cas(e.cached.value, Visible(s, e), event, now);
      if r.Swapped? {
        SwapSessionOk(s, sid, event, now);
        SwappedKeepsInv(s, sid, e, r.row, r.change);
      } else {
        RollbackKeepsInv(s, sid);
      }
    }
  }

  lemma SwapSessionOk(s: State, sid: nat, event: Event, now: Time)
    requires Inv(s) && sid in s.sessions
    requires var e := s.sessions[sid]; Program(e.op, e.pc, e.cached) == Swap(event) && e.cached.Some? && RowThere(s, e)
    ensures var e := s.sessions[sid];
            var r := Cas(e.cached.value, Visible(s, e), event, now);
            r.Swapped? ==> SessionOk(s, Advanced(e, r.row, r.change))
  {
    var e := s.sessions[sid];
    assert SessionOk(s, e);
    SwapVersion(s, e, event, now);
    SwapBacked(s, e, event, now);
  }

  lemma LocalVersion(s: State, sid: nat, e: Session, instr: Instr)
    requires RowsFollowHistory(s) && VersionOk(s, e)
    requires instr == Program(e.op, e.pc, e.cached) && !instr.Swap? && !instr.Finish?
    ensures var f := Local(s, sid, e, instr); f.Become? ==> VersionOk(s, f.session)
  {
    if !RowThere(s, e) {
      assert Past(s, e.scan) + e.trail == [];
    }
  }

  lemma LocalSideRows(s: State, sid: nat, e: Session, instr: Instr)
    requires SessionOk(s, e) && instr == Program(e.op, e.pc, e.cached) && !instr.Swap? && !instr.Finish?
    ensures var f := Local(s, sid, e, instr); f.Become? ==> SideRowsOk(s, f.session) && StateBacked(s, f.session)
  {
  }

  lemma LocalHolds(s: State, sid: nat, e: Session, instr: Instr)
    requires Inv(s) && sid in s.sessions && s.sessions[sid] == e
    requires !instr.Swap? && !instr.Finish?
    ensures var f := Local(s, sid, e, instr);
            f.Become? ==>
              && (f.session.own.Some? ==> !RowHeld(s, sid, f.session.scan))
              && (f.session.fb.Some? ==> !FeedbackHeld(s, sid, f.session.scan))
  {
    HeldRow(s, sid, e);
  }

  lemma LocalKeepsInv(s: State, sid: nat, instr: Instr)
    requires Inv(s) && sid in s.sessions
    requires var e := s.sessions[sid]; instr == Program(e.op, e.pc, e.cached) && !instr.Swap? && !instr.Finish?
    ensures var f := Local(s, sid, s.sessions[sid], instr); f.Become? ==> Inv(With(s, sid, f.session))
  {
    var e := s.sessions[sid];
    var f := Local(s, sid, e, instr);
    if f.Become? {
      assert SessionOk(s, e);
      LocalVersion(s, sid, e, instr);
      LocalSideRows(s, sid, e, instr);
      LocalHolds(s, sid, e, instr);
      WithKeepsInv(s, sid, f.session);
    }
  }

  lemma SwapWritesNothing(s: State, sid: nat, event: Event, now: Time)
    requires sid in s.sessions
    ensures var t := SwapStep(s, sid, event, now); t == s.(sessions := t.sessions)
  {
  }

  lemma LocalWritesNothing(s: State, sid: nat, f: Effect)
    ensures var t := match f case Wait => s case Abandon => Rollback(s, sid) case Become(e) => With(s, sid, e);
            t == s.(sessions := t.sessions)
  {
  }

  /** Only a commit changes what is committed. */
  lemma OnlyCommitWrites(s: State, a: Action)
    requires !(a.Step? && a.sid in s.sessions && var e := s.sessions[a.sid]; e.rest == [] && Program(e.op, e.pc, e.cached).Finish?)
    ensures var t := Next(s, a); t == s.(sessions := t.sessions)
  {
    if a.Step? && a.sid in s.sessions {
      var e := s.sessions[a.sid];
      var instr := Program(e.op, e.pc, e.cached);
      if instr.Swap? {
        SwapWritesNothing(s, a.sid, instr.event, a.now);
      } else {
        LocalWritesNothing(s, a.sid, Local(s, a.sid, e, instr));
      }
    }
  }

  // -------------------------------------------------------------------- commit

  lemma CommitRows(s: State, sid: nat)
    requires Inv(s) && sid in s.sessions
    ensures RowsFollowHistory(Committed(s, sid))
  {
    var e := s.sessions[sid];
    assert SessionOk(s, e);
  }

  lemma CommitKey(s: State, sid: nat, k: ScanId)
    requires FeedbackAccounted(s) && sid in s.sessions && SessionOk(s, s.sessions[sid])
    ensures var t := Committed(s, sid);
            && (k in t.feedback <==> k in t.early || k in t.decision)
            && (k in t.feedback || k in t.verdicts ==> k in t.rows)
  {
    var e := s.sessions[sid];
    if k == e.scan {
      assert e.decided.Some? ==> e.fb.Some? || k in s.feedback;
    }
  }

  lemma CommitKeys(s: State, sid: nat)
    requires Inv(s) && sid in s.sessions
    ensures var t := Committed(s, sid);
            && t.feedback.Keys == t.early.Keys + t.decision.Keys
            && t.feedback.Keys <= t.rows.Keys && t.verdicts <= t.rows.Keys
  {
    var t := Committed(s, sid);
    KeysFrom(t.feedback.Keys, t.early.Keys, t.decision.Keys, t.rows.Keys, t.verdicts) by {
      forall k
        ensures k in t.feedback.Keys <==> k in t.early.Keys || k in t.decision.Keys
        ensures k in t.feedback.Keys || k in t.verdicts ==> k in t.rows.Keys
      {
        CommitKey(s, sid, k);
      }
    }
  }

  lemma KeysFrom(feedback: set<ScanId>, early: set<ScanId>, decision: set<ScanId>, rows: set<ScanId>, verdicts: set<ScanId>)
    requires forall k :: k in feedback <==> k in early || k in decision
    requires forall k :: k in feedback || k in verdicts ==> k in rows
    ensures feedback == early + decision && feedback <= rows && verdicts <= rows
  {
  }

  lemma CommitJudgement(s: State, sid: nat, k: ScanId)
    requires FeedbackAccounted(s) && sid in s.sessions && SessionOk(s, s.sessions[sid])
    requires k in Committed(s, sid).feedback
    ensures var t := Committed(s, sid);
            if k in t.early then t.feedback[k] == t.early[k] else k in t.decision && t.feedback[k] == t.decision[k]
  {
    var e := s.sessions[sid];
    if k == e.scan && e.decided.Some? {
      assert k in s.rows ==> k !in s.decision;
      if e.fb.Some? {
        assert k !in s.feedback && k !in s.early;
      }
    } else if k == e.scan && e.fb.Some? {
      assert FiledEarly(e);
    } else {
      assert k in s.feedback;
    }
  }

  lemma CommitSideRows(s: State, sid: nat)
    requires Inv(s) && sid in s.sessions
    ensures var t := Committed(s, sid);
            && t.feedback.Keys == t.early.Keys + t.decision.Keys
            && t.feedback.Keys <= t.rows.Keys && t.verdicts <= t.rows.Keys
            && (forall k :: k in t.feedback ==> t.feedback[k] == if k in t.early then t.early[k] else t.decision[k])
  {
    CommitKeys(s, sid);
    assert SessionOk(s, s.sessions[sid]);
    forall k | k in Committed(s, sid).feedback
      ensures var t := Committed(s, sid); t.feedback[k] == if k in t.early then t.early[k] else t.decision[k]
    {
      CommitJudgement(s, sid, k);
    }
  }

  lemma CommitStates(s: State, sid: nat)
    requires Inv(s) && sid in s.sessions
    ensures var t := Committed(s, sid);
            && (forall k :: k in t.rows ==> (t.rows[k].state.Decided? <==> k in t.decision))
            && (forall k :: k in t.rows && (t.rows[k].state.Verdicted? || t.rows[k].state.Reviewing?) ==> k in t.verdicts)
  {
    var e := s.sessions[sid];
    assert SessionOk(s, e);
  }

  lemma CommitFeedback(s: State, sid: nat)
    requires Inv(s) && sid in s.sessions
    ensures FeedbackAccounted(Committed(s, sid))
  {
    CommitSideRows(s, sid);
    CommitStates(s, sid);
  }

  lemma CommitOthers(s: State, sid: nat, o: nat)
    requires Inv(s) && sid in s.sessions && o in s.sessions && o != sid
    ensures SessionOk(Committed(s, sid), s.sessions[o])
  {
    var e, f := s.sessions[sid], s.sessions[o];
    assert SessionOk(s, e) && SessionOk(s, f);
    if e.scan == f.scan {
      assert e.own.None? || f.own.None?;
      assert e.fb.None? || f.fb.None?;
    }
  }

  lemma CommitKeepsInv(s: State, sid: nat)
    requires Inv(s) && sid in s.sessions
    requires var e := s.sessions[sid]; Program(e.op, e.pc, e.cached) == Finish
    ensures Inv(Committed(s, sid))
  {
    var t := Committed(s, sid);
    CommitRows(s, sid);
    CommitFeedback(s, sid);
    forall o | o in t.sessions ensures SessionOk(t, t.sessions[o]) {
      CommitOthers(s, sid, o);
    }
  }

  lemma NextOpKeepsInv(s: State, sid: nat)
    requires Inv(s) && sid in s.sessions && s.sessions[sid].rest != []
    ensures Inv(With(s, sid, NextOp(s.sessions[sid])))
  {
    var e := s.sessions[sid];
    assert SessionOk(s, e);
    HeldRow(s, sid, e);
    WithKeepsInv(s, sid, NextOp(e));
  }

  lemma NextKeepsInv(s: State, a: Action)
    requires Inv(s)
    ensures Inv(Next(s, a))
  {
    match a
    case Open(sid, ops, scan) =>
      if sid !in s.sessions && ops != [] {
        WithKeepsInv(s, sid, Start(ops, scan));
      }
    case Step(sid, now) =>
      if sid in s.sessions {
        var e := s.sessions[sid];
        match Program(e.op, e.pc, e.cached)
        case Swap(event) => SwapKeepsInv(s, sid, event, now);
        case Finish =>
          if e.rest == [] {
            CommitKeepsInv(s, sid);
          } else {
            NextOpKeepsInv(s, sid);
          }
        case instr =>
          LocalKeepsInv(s, sid, instr);
          RollbackKeepsInv(s, sid);
      }
    case Kill(sid) => RollbackKeepsInv(s, sid);
  }

  lemma {:induction false} RunKeepsInv(actions: seq<Action>)
    ensures Inv(Run(actions))
  {
    if actions != [] {
      RunKeepsInv(actions[..|actions| - 1]);
      NextKeepsInv(Run(actions[..|actions| - 1]), actions[|actions| - 1]);
    }
  }
}
