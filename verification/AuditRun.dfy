/** Recording under the advisory lock (app/audit/sink.py, `record`): any number of workers,
    any interleaving of their database steps, aborts included. */
module AuditRun {
  import opened Common
  import opened AuditChain

  /** The arguments of one `record` call; the payload is its canonical JSON text. */
  datatype Request = Request(eventType: string, scanId: Option<string>, operatorId: Option<string>, payload: string)

  /** What the database does to values: `scan` parses a scan id and gives the text it is read
      back as (None where the parse raises), `payload` gives the canonical text after JSONB. */
  datatype Codec = Codec(scan: string -> Option<string>, payload: string -> string)

  /** A recorded event: the request with the id and clock value the sink drew for it. */
  datatype Entry = Entry(req: Request, eventId: string, createdAt: string)

  function TextOf(o: Option<string>): string { if o.Some? then o.value else "" }

  /** The fields the hash is computed over when the event is recorded. */
  function Covered(e: Entry): Fields {
    Fields(e.eventId, e.req.eventType, TextOf(e.req.scanId), TextOf(e.req.operatorId), e.createdAt, e.req.payload)
  }

  predicate Storable(codec: Codec, req: Request) {
    req.scanId.Some? ==> codec.scan(req.scanId.value).Some?
  }

  /** The fields as they are read back from the row. */
  function Reread(codec: Codec, e: Entry): Fields
    requires Storable(codec, e.req)
  {
    Covered(e).(scanId := if e.req.scanId.Some? then codec.scan(e.req.scanId.value).value else "",
                payload := codec.payload(e.req.payload))
  }

  /** The request survives storage: its scan id is already in the form it is read back in,
      and so is its payload. */
  predicate Faithful(codec: Codec, req: Request) {
    && Storable(codec, req)
    && (req.scanId.Some? ==> codec.scan(req.scanId.value) == Some(req.scanId.value))
    && codec.payload(req.payload) == req.payload
  }

  lemma FaithfulIffUnchanged(codec: Codec, e: Entry)
    requires Storable(codec, e.req)
    ensures Reread(codec, e) == Covered(e) <==> Faithful(codec, e.req)
  {
  }

  /** `ORDER BY seq DESC LIMIT 1`. */
  function Tail(table: seq<Row>): Option<Row> {
    var rows := BySeq(table);
    if rows == [] then None else Some(rows[|rows| - 1])
  }

  function NewRow(code: Code, codec: Codec, tail: Option<Row>, e: Entry, seqNo: nat): Row
    requires Storable(codec, e.req)
  {
    Row(seqNo, Reread(codec, e),
        if tail.Some? then Some(tail.value.fields.eventId) else None,
        code(if tail.Some? then tail.value.hmac else GENESIS, Covered(e)))
  }

  // ------------------------------------------------------------------- workers

  /** Where a `record` call stands. */
  datatype Phase =
    | Idle
    | Waiting(req: Request)
    | Holding(req: Request)
    | Linked(req: Request, tail: Option<Row>)
    | Written(entry: Entry, row: Row)

  datatype Action =
    | Begin(w: nat, req: Request)
    | Acquire(w: nat)
    | ReadTail(w: nat)
    | Write(w: nat, eventId: string, createdAt: string)
    | Commit(w: nat)
    | Abort(w: nat)

  /** The committed table, the sequence counter, the lock, the calls under way, and what
      has been committed so far, for reference. */
  datatype State = State(table: seq<Row>, nextSeq: nat, lock: Option<nat>, calls: map<nat, Phase>, log: seq<Entry>)

  function PhaseOf(s: State, w: nat): Phase { if w in s.calls then s.calls[w] else Idle }

  function InitState(): State { State([], 0, None, map[], []) }

  /** One step of one worker; a step that is not possible leaves everything as it is.
      A scan id that does not parse aborts the call and its transaction. */
  function Next(code: Code, codec: Codec, s: State, a: Action): State {
    var p := PhaseOf(s, a.w);
    match a
    case Begin(w, req) =>
      if p.Idle? then s.(calls := s.calls[w := Waiting(req)]) else s
    case Acquire(w) =>
      if p.Waiting? && s.lock.None? then s.(lock := Some(w), calls := s.calls[w := Holding(p.req)]) else s
    case ReadTail(w) =>
      if p.Holding? then s.(calls := s.calls[w := Linked(p.req, Tail(s.table))]) else s
    case Write(w, eventId, createdAt) =>
      if !p.Linked? then s
      else if !Storable(codec, p.req) then s.(lock := None, calls := s.calls[w := Idle])
      else
        var e := Entry(p.req, eventId, createdAt);
        s.(nextSeq := s.nextSeq + 1, calls := s.calls[w := Written(e, NewRow(code, codec, p.tail, e, s.nextSeq))])
    case Commit(w) =>
      if p.Written? then
        s.(table := s.table + [p.row], log := s.log + [p.entry], lock := None, calls := s.calls[w := Idle])
      else s
    case Abort(w) =>
      if p.Idle? then s
      else s.(lock := if p.Waiting? then s.lock else None, calls := s.calls[w := Idle])
  }

  function Run(code: Code, codec: Codec, actions: seq<Action>): State {
    if actions == [] then InitState()
    else Next(code, codec, Run(code, codec, actions[..|actions| - 1]), actions[|actions| - 1])
  }

  // ----------------------------------------------------------------- invariants

  /** The table in commit order is the table in sequence order. */
  ghost predicate Ascending(table: seq<Row>, bound: nat) {
    && (forall i :: 0 <= i < |table| ==> table[i].seqNo < bound)
    && (forall i, j :: 0 <= i < j < |table| ==> table[i].seqNo < table[j].seqNo)
  }

  lemma {:induction false} AscendingIsBySeq(table: seq<Row>, bound: nat)
    requires Ascending(table, bound)
    ensures BySeq(table) == table
  {
    if table != [] {
      var front, last := table[..|table| - 1], table[|table| - 1];
      AscendingIsBySeq(front, bound);
      assert table == front + [last];
      SortSnoc(front, last, MinusSeq());
      assert front != [] ==> front[|front| - 1].seqNo < last.seqNo;
    }
  }

  lemma TailIsLast(table: seq<Row>, bound: nat)
    requires Ascending(table, bound)
    ensures Tail(table) == if table == [] then None else Some(table[|table| - 1])
  {
    AscendingIsBySeq(table, bound);
  }

  /** Row `i` was made for entry `i` behind row `i - 1`. */
  ghost predicate RowFor(code: Code, codec: Codec, table: seq<Row>, log: seq<Entry>, i: nat)
    requires i < |table| == |log|
  {
    && Storable(codec, log[i].req)
    && table[i] == NewRow(code, codec, if i == 0 then None else Some(table[i - 1]), log[i], table[i].seqNo)
  }

  ghost predicate Chained(code: Code, codec: Codec, table: seq<Row>, log: seq<Entry>) {
    |table| == |log| && forall i :: 0 <= i < |table| ==> RowFor(code, codec, table, log, i)
  }

  predicate Critical(p: Phase) { p.Holding? || p.Linked? || p.Written? }

  /** What a call in the critical section knows is still true. */
  ghost predicate UpToDate(code: Code, codec: Codec, s: State, p: Phase) {
    var last := if s.table == [] then None else Some(s.table[|s.table| - 1]);
    match p
    case Linked(req, tail) => tail == last
    case Written(e, row) =>
      && Storable(codec, e.req) && row == NewRow(code, codec, last, e, row.seqNo)
      && row.seqNo < s.nextSeq
      && (forall i :: 0 <= i < |s.table| ==> s.table[i].seqNo < row.seqNo)
    case _ => true
  }

  ghost predicate Inv(code: Code, codec: Codec, s: State) {
    && Ascending(s.table, s.nextSeq)
    && Chained(code, codec, s.table, s.log)
    && (forall w :: w in s.calls && Critical(s.calls[w]) ==> s.lock == Some(w))
    && (forall w :: w in s.calls ==> UpToDate(code, codec, s, s.calls[w]))
  }

  lemma CommitKeepsInv(code: Code, codec: Codec, s: State, w: nat)
    requires Inv(code, codec, s) && PhaseOf(s, w).Written?
    ensures Inv(code, codec, Next(code, codec, s, Commit(w)))
  {
    var p := PhaseOf(s, w);
    var t := Next(code, codec, s, Commit(w));
    assert UpToDate(code, codec, s, p);
    forall i | 0 <= i < |t.table| ensures RowFor(code, codec, t.table, t.log, i) {
      if i < |s.table| {
        assert RowFor(code, codec, s.table, s.log, i);
      }
    }
    forall v | v in t.calls ensures UpToDate(code, codec, t, t.calls[v]) {
      if v != w {
        assert !Critical(s.calls[v]);
      }
    }
  }

  /** A step that commits nothing leaves every other call as up to date as it was. */
  lemma QuietStepUpToDate(code: Code, codec: Codec, s: State, a: Action, v: nat)
    requires Inv(code, codec, s) && !(a.Commit? && PhaseOf(s, a.w).Written?)
    requires v in Next(code, codec, s, a).calls
    ensures UpToDate(code, codec, Next(code, codec, s, a), Next(code, codec, s, a).calls[v])
  {
    TailIsLast(s.table, s.nextSeq);
    if v in s.calls {
      assert UpToDate(code, codec, s, s.calls[v]);
    }
  }

  lemma StepKeepsInv(code: Code, codec: Codec, s: State, a: Action)
    requires Inv(code, codec, s)
    ensures Inv(code, codec, Next(code, codec, s, a))
  {
    var p, t := PhaseOf(s, a.w), Next(code, codec, s, a);
    if a.Commit? && p.Written? {
      CommitKeepsInv(code, codec, s, a.w);
    } else {
      assert t.table == s.table && t.log == s.log && t.nextSeq >= s.nextSeq;
      forall v | v in t.calls ensures UpToDate(code, codec, t, t.calls[v]) {
        QuietStepUpToDate(code, codec, s, a, v);
      }
    }
  }

  lemma {:induction false} RunKeepsInv(code: Code, codec: Codec, actions: seq<Action>)
    ensures Inv(code, codec, Run(code, codec, actions))
  {
    if actions != [] {
      RunKeepsInv(code, codec, actions[..|actions| - 1]);
      StepKeepsInv(code, codec, Run(code, codec, actions[..|actions| - 1]), actions[|actions| - 1]);
    }
  }

  /** At most one worker is ever between taking the lock and committing. */
  lemma MutualExclusion(code: Code, codec: Codec, actions: seq<Action>, v: nat, w: nat)
    requires var s := Run(code, codec, actions); Critical(PhaseOf(s, v)) && Critical(PhaseOf(s, w))
    ensures v == w
  {
    RunKeepsInv(code, codec, actions);
  }

  /** Whoever holds the lock is between taking it and committing. */
  ghost predicate LockOwned(s: State) { s.lock.Some? ==> Critical(PhaseOf(s, s.lock.value)) }

  lemma StepKeepsLock(code: Code, codec: Codec, s: State, a: Action)
    requires LockOwned(s) && (Critical(PhaseOf(s, a.w)) ==> s.lock == Some(a.w))
    ensures LockOwned(Next(code, codec, s, a))
  {
  }

  lemma {:induction false} LockIsHeld(code: Code, codec: Codec, actions: seq<Action>)
    ensures LockOwned(Run(code, codec, actions))
  {
    if actions != [] {
      var before, a := actions[..|actions| - 1], actions[|actions| - 1];
      LockIsHeld(code, codec, before);
      RunKeepsInv(code, codec, before);
      StepKeepsLock(code, codec, Run(code, codec, before), a);
    }
  }

  /** An abort, at whatever point of whatever run, leaves no trace: the table is as it was, the
      worker is idle, the others stand where they stood, and its lock is free again. */
  lemma AbortLeavesNoTrace(code: Code, codec: Codec, actions: seq<Action>, w: nat)
    ensures var s, t := Run(code, codec, actions), Run(code, codec, actions + [Abort(w)]);
            && t.table == s.table && t.log == s.log && PhaseOf(t, w).Idle?
            && (forall v :: v != w ==> PhaseOf(t, v) == PhaseOf(s, v))
            && t.lock == if s.lock == Some(w) then None else s.lock
  {
    RunKeepsInv(code, codec, actions);
    LockIsHeld(code, codec, actions);
    RunSnoc(code, codec, actions, Abort(w));
  }

  /** Whoever holds the lock gives up. */
  function GiveWay(lock: Option<nat>): seq<Action> { if lock.Some? then [Abort(lock.value)] else [] }

  lemma WayIsFree(code: Code, codec: Codec, actions: seq<Action>, w: nat)
    requires PhaseOf(Run(code, codec, actions), w).Idle?
    ensures var s := Run(code, codec, actions);
            var t := Run(code, codec, actions + GiveWay(s.lock));
            t.lock.None? && PhaseOf(t, w).Idle? && t.log == s.log
  {
    var lock := Run(code, codec, actions).lock;
    if lock.None? {
      assert actions + GiveWay(lock) == actions;
    } else {
      AbortLeavesNoTrace(code, codec, actions, lock.value);
    }
  }

  /** No run gets stuck: once whoever holds the lock has gone, an idle worker records its event
      as the next one. */
  lemma RecordingStaysPossible(code: Code, codec: Codec, actions: seq<Action>, w: nat, e: Entry)
    requires PhaseOf(Run(code, codec, actions), w).Idle? && Storable(codec, e.req)
    ensures var s := Run(code, codec, actions);
            var more := GiveWay(s.lock) + RecordBy(w, e.req, e.eventId, e.createdAt);
            |more| <= 6 && Run(code, codec, actions + more).log == s.log + [e]
  {
    var front, record := GiveWay(Run(code, codec, actions).lock), RecordBy(w, e.req, e.eventId, e.createdAt);
    WayIsFree(code, codec, actions, w);
    RecordAppends(code, codec, actions + front, w, e.req, e.eventId, e.createdAt);
    assert actions + (front + record) == (actions + front) + record;
  }

  // -------------------------------------------------------------- completeness

  lemma RowHashAndLink(code: Code, codec: Codec, table: seq<Row>, log: seq<Entry>, i: nat)
    requires Chained(code, codec, table, log) && i < |table|
    ensures table[i].hmac == code(PrevHmac(table, i), Covered(log[i]))
    ensures Storable(codec, log[i].req)
    ensures table[i].fields == Reread(codec, log[i])
    ensures LinkOk(table, i)
  {
    assert RowFor(code, codec, table, log, i);
  }

  /** In every run, row by row: what a row stores, what its code was computed from and what it
      points back to, in terms of the recorded request. */
  lemma RowsHoldRequests(code: Code, codec: Codec, actions: seq<Action>, i: nat)
    requires i < |Run(code, codec, actions).log|
    ensures var s := Run(code, codec, actions);
            && |s.table| == |s.log|
            && var e, row := s.log[i], s.table[i];
            && (e.req.scanId.Some? ==> codec.scan(e.req.scanId.value).Some?)
            && row.fields.eventId == e.eventId && row.fields.createdAt == e.createdAt
            && row.fields.eventType == e.req.eventType
            && row.fields.operatorId == (match e.req.operatorId case None => "" case Some(t) => t)
            && row.fields.scanId == (match e.req.scanId case None => "" case Some(t) => codec.scan(t).value)
            && row.fields.payload == codec.payload(e.req.payload)
            && row.hmac == code(if i == 0 then GENESIS else s.table[i - 1].hmac,
                                Fields(e.eventId, e.req.eventType, match e.req.scanId case None => "" case Some(t) => t,
                                       match e.req.operatorId case None => "" case Some(t) => t, e.createdAt, e.req.payload))
            && row.prevEventId == (if i == 0 then None else Some(s.table[i - 1].fields.eventId))
            && (i > 0 ==> s.table[i - 1].seqNo < row.seqNo)
  {
    RunKeepsInv(code, codec, actions);
    RowHashAndLink(code, codec, Run(code, codec, actions).table, Run(code, codec, actions).log, i);
    assert RowFor(code, codec, Run(code, codec, actions).table, Run(code, codec, actions).log, i);
  }

  lemma SelectedPrefix(table: seq<Row>, bound: nat, limit: nat)
    requires Ascending(table, bound)
    ensures Selected(table, limit) == if limit == 0 || limit >= |table| then table else table[..limit]
  {
    AscendingIsBySeq(table, bound);
  }

  /** Whatever the interleaving of whatever workers, when the requests survive storage the
      whole table and every limited prefix of it verify.  Nothing is assumed of the hash. */
  lemma EveryRunVerifies(code: Code, codec: Codec, actions: seq<Action>, limit: nat)
    requires forall i :: 0 <= i < |Run(code, codec, actions).log| ==>
               Faithful(codec, Run(code, codec, actions).log[i].req)
    ensures Verifies(code, Selected(Run(code, codec, actions).table, limit))
  {
    var s := Run(code, codec, actions);
    RunKeepsInv(code, codec, actions);
    SelectedPrefix(s.table, s.nextSeq, limit);
    var rows := Selected(s.table, limit);
    forall i | 0 <= i < |rows| ensures HashOk(code, rows, i) && LinkOk(rows, i) {
      RowHashAndLink(code, codec, s.table, s.log, i);
      FaithfulIffUnchanged(codec, s.log[i]);
      assert PrevHmac(rows, i) == PrevHmac(s.table, i);
    }
  }

  ghost predicate CleanEntry(codec: Codec, e: Entry) {
    Clean(Covered(e)) && (Storable(codec, e.req) ==> Clean(Reread(codec, e)))
  }

  ghost predicate CleanLog(codec: Codec, log: seq<Entry>) {
    forall i :: 0 <= i < |log| ==> CleanEntry(codec, log[i])
  }

  lemma PrevHmacClean(code: Code, back: string -> (string, Fields), codec: Codec, table: seq<Row>, log: seq<Entry>, i: nat)
    requires Binding(code, back) && Chained(code, codec, table, log) && i <= |table|
    ensures NulFree(PrevHmac(table, i))
  {
    GenesisClean();
    if i > 0 {
      RowHashAndLink(code, codec, table, log, i - 1);
    }
  }

  /** The hash of a row checks out exactly when storage left its event unchanged. */
  lemma HashOkIffFaithful(code: Code, back: string -> (string, Fields), codec: Codec, table: seq<Row>, log: seq<Entry>, i: nat)
    requires Binding(code, back) && Chained(code, codec, table, log) && CleanLog(codec, log) && i < |table|
    ensures HashOk(code, table, i) <==> Faithful(codec, log[i].req)
  {
    RowHashAndLink(code, codec, table, log, i);
    FaithfulIffUnchanged(codec, log[i]);
    PrevHmacClean(code, back, codec, table, log, i);
    var prev, given, stored := PrevHmac(table, i), Covered(log[i]), table[i].fields;
    assert CleanEntry(codec, log[i]);
    assert back(code(prev, given)) == (prev, given) && back(code(prev, stored)) == (prev, stored);
  }

  /** And that is exactly when: one committed event that storage changed, by rewriting its
      scan id or its payload, makes every replay that reaches it report a break. */
  lemma VerifiesIffFaithful(code: Code, back: string -> (string, Fields), codec: Codec, actions: seq<Action>, limit: nat)
    requires Binding(code, back) && CleanLog(codec, Run(code, codec, actions).log)
    ensures var s := Run(code, codec, actions);
            Verifies(code, Selected(s.table, limit)) <==>
            forall i :: 0 <= i < |Selected(s.table, limit)| && i < |s.log| ==> Faithful(codec, s.log[i].req)
  {
    var s := Run(code, codec, actions);
    RunKeepsInv(code, codec, actions);
    SelectedPrefix(s.table, s.nextSeq, limit);
    var rows := Selected(s.table, limit);
    forall i | 0 <= i < |rows|
      ensures LinkOk(rows, i) && (HashOk(code, rows, i) <==> Faithful(codec, s.log[i].req))
    {
      RowHashAndLink(code, codec, s.table, s.log, i);
      HashOkIffFaithful(code, back, codec, s.table, s.log, i);
      assert PrevHmac(rows, i) == PrevHmac(s.table, i);
    }
  }

  // ---------------------------------------------------------- a run that breaks

  /** Worker `w` records one event without interruption. */
  function RecordBy(w: nat, req: Request, eventId: string, createdAt: string): seq<Action> {
    [Begin(w, req), Acquire(w), ReadTail(w), Write(w, eventId, createdAt), Commit(w)]
  }

  function OneRecord(req: Request, eventId: string, createdAt: string): seq<Action> {
    RecordBy(0, req, eventId, createdAt)
  }

  lemma RunSnoc(code: Code, codec: Codec, actions: seq<Action>, a: Action)
    ensures Run(code, codec, actions + [a]) == Next(code, codec, Run(code, codec, actions), a)
  {
    assert (actions + [a])[..|actions|] == actions;
  }

  lemma RunFive(code: Code, codec: Codec, before: seq<Action>, a: Action, b: Action, c: Action, d: Action, e: Action)
    ensures Run(code, codec, before + [a, b, c, d, e]) ==
            Next(code, codec, Next(code, codec, Next(code, codec, Next(code, codec, Next(code, codec,
              Run(code, codec, before), a), b), c), d), e)
  {
    var a1 := before + [a];
    var a2 := a1 + [b];
    var a3 := a2 + [c];
    var a4 := a3 + [d];
    RunSnoc(code, codec, before, a);
    RunSnoc(code, codec, a1, b);
    RunSnoc(code, codec, a2, c);
    RunSnoc(code, codec, a3, d);
    RunSnoc(code, codec, a4, e);
    assert a4 + [e] == before + [a, b, c, d, e];
  }

  /** After any run: a worker that finds the lock free and is not interrupted appends exactly
      its event, or, when the scan id does not parse, nothing; either way it frees the lock. */
  lemma RecordAppends(code: Code, codec: Codec, before: seq<Action>, w: nat, req: Request, eventId: string, createdAt: string)
    requires var s := Run(code, codec, before); s.lock.None? && PhaseOf(s, w).Idle?
    ensures var s, t := Run(code, codec, before), Run(code, codec, before + RecordBy(w, req, eventId, createdAt));
            && t.lock.None? && PhaseOf(t, w).Idle?
            && (forall v :: v != w ==> PhaseOf(t, v) == PhaseOf(s, v))
            && if Storable(codec, req)
               then t.log == s.log + [Entry(req, eventId, createdAt)] && |t.table| == |s.table| + 1 && s.table <= t.table
               else t.log == s.log && t.table == s.table
  {
    RunFive(code, codec, before, Begin(w, req), Acquire(w), ReadTail(w), Write(w, eventId, createdAt), Commit(w));
  }

  lemma OneRecordLogs(code: Code, codec: Codec, req: Request, eventId: string, createdAt: string)
    requires Storable(codec, req)
    ensures var s := Run(code, codec, OneRecord(req, eventId, createdAt));
            s.log == [Entry(req, eventId, createdAt)] && |s.table| == 1
  {
    RecordAppends(code, codec, [], 0, req, eventId, createdAt);
    assert [] + OneRecord(req, eventId, createdAt) == OneRecord(req, eventId, createdAt);
  }

  /** An event that storage changes breaks the replay of its own chain, with a single worker
      and nobody tampering. */
  lemma ChangedEventBreaks(code: Code, back: string -> (string, Fields), codec: Codec, req: Request, eventId: string, createdAt: string)
    requires Binding(code, back) && Storable(codec, req) && !Faithful(codec, req)
    requires CleanEntry(codec, Entry(req, eventId, createdAt))
    ensures !Verifies(code, Selected(Run(code, codec, OneRecord(req, eventId, createdAt)).table, 0))
  {
    var actions := OneRecord(req, eventId, createdAt);
    OneRecordLogs(code, codec, req, eventId, createdAt);
    var s := Run(code, codec, actions);
    RunKeepsInv(code, codec, actions);
    SelectedPrefix(s.table, s.nextSeq, 0);
    VerifiesIffFaithful(code, back, codec, actions, 0);
    assert !Faithful(codec, s.log[0].req);
  }

  function LowerDigit(c: char): char {
    match c
    case 'A' => 'a'
    case 'B' => 'b'
    case 'C' => 'c'
    case 'D' => 'd'
    case 'E' => 'e'
    case 'F' => 'f'
    case _ => c
  }

  function LowerHex(s: string): (t: string)
    ensures |t| == |s| && forall i :: 0 <= i < |s| ==> t[i] == LowerDigit(s[i])
  {
    seq(|s|, i requires 0 <= i < |s| => LowerDigit(s[i]))
  }

  /** A database that gives hexadecimal ids back in lower case and keeps payloads. */
  function HexCodec(): Codec { Codec((id: string) => Some(LowerHex(id)), (p: string) => p) }

  lemma LowerHexClean(id: string)
    requires NulFree(id)
    ensures NulFree(LowerHex(id))
  {
  }

  /** So a scan id given as text with an upper-case digit breaks the chain.  The endpoints pass
      UUID values, whose text is lower case; only a call of `record` with a string gets here. */
  lemma UpperCaseIdBreaks(code: Code, back: string -> (string, Fields), id: string, i: nat, e: Entry)
    requires Binding(code, back) && i < |id| && 'A' <= id[i] <= 'F'
    requires e.req.scanId == Some(id) && Clean(Covered(e))
    ensures !Verifies(code, Selected(Run(code, HexCodec(), OneRecord(e.req, e.eventId, e.createdAt)).table, 0))
  {
    assert LowerHex(id)[i] != id[i];
    LowerHexClean(id);
    ChangedEventBreaks(code, back, HexCodec(), e.req, e.eventId, e.createdAt);
  }

  // ------------------------------------------------------------------ soundness

  function CoveredLog(log: seq<Entry>): (r: seq<Fields>)
    ensures |r| == |log|
  {
    seq(|log|, i requires 0 <= i < |log| => Covered(log[i]))
  }

  function Codes(table: seq<Row>): (r: seq<string>)
    ensures |r| == |table|
  {
    seq(|table|, i requires 0 <= i < |table| => table[i].hmac)
  }

  ghost predicate CoveredClean(log: seq<Entry>) { forall i :: 0 <= i < |log| ==> Clean(Covered(log[i])) }

  /** What a run leaves in the table is what the sink issued for the recorded events. */
  lemma RunIssues(code: Code, codec: Codec, table: seq<Row>, log: seq<Entry>)
    requires Chained(code, codec, table, log) && CoveredClean(log)
    ensures Issued(code, CoveredLog(log), Codes(table))
  {
    var fields, codes := CoveredLog(log), Codes(table);
    forall i | 0 <= i < |fields| ensures IssuedAt(code, fields, codes, i) {
      RowHashAndLink(code, codec, table, log, i);
      assert PrevCode(codes, i) == PrevHmac(table, i);
    }
  }

  lemma VerifiedIsIssued(code: Code, back: string -> (string, Fields), codec: Codec, table: seq<Row>, log: seq<Entry>, rows: seq<Row>)
    requires Binding(code, back) && Chained(code, codec, table, log) && CoveredClean(log)
    requires forall i :: 0 <= i < |rows| ==> Clean(rows[i].fields) && rows[i].hmac in Codes(table)
    ensures |CoveredLog(log)| == |Codes(table)|
    ensures Verifies(code, rows) <==> IsPrefixOf(rows, CoveredLog(log), Codes(table))
  {
    RunIssues(code, codec, table, log);
    VerifiesIffPrefix(code, back, rows, CoveredLog(log), Codes(table));
  }

  /** End to end: after any run, a table that carries only codes found in the real one
      verifies exactly when it is, on everything the hash covers, a prefix of what was
      recorded, with correct links after its first row. */
  lemma VerifiedIsRecorded(H: string -> string, codec: Codec, actions: seq<Action>, rows: seq<Row>)
    requires KeyedHash(H)
    requires var s := Run(SinkCode(H), codec, actions);
             && CoveredClean(s.log)
             && (forall i :: 0 <= i < |rows| ==> Clean(rows[i].fields) && rows[i].hmac in Codes(s.table))
    ensures var s := Run(SinkCode(H), codec, actions);
            && |CoveredLog(s.log)| == |Codes(s.table)| == |s.log|
            && (forall i :: 0 <= i < |s.log| ==>
                  CoveredLog(s.log)[i] == Fields(s.log[i].eventId, s.log[i].req.eventType,
                                                 match s.log[i].req.scanId case None => "" case Some(t) => t,
                                                 match s.log[i].req.operatorId case None => "" case Some(t) => t,
                                                 s.log[i].createdAt, s.log[i].req.payload))
            && (Verifies(SinkCode(H), rows) <==> IsPrefixOf(rows, CoveredLog(s.log), Codes(s.table)))
  {
    var s := Run(SinkCode(H), codec, actions);
    RunKeepsInv(SinkCode(H), codec, actions);
    SinkCodeIsBinding(H);
    VerifiedIsIssued(SinkCode(H), Back(H), codec, s.table, s.log, rows);
  }

  // ------------------------------------------------------------------ the program

  /** The table with the body of `record` as it runs under the lock. */
  class AuditTable {
    var rows: seq<Row>
    var nextSeq: nat
    ghost var log: seq<Entry>

    ghost predicate Valid(code: Code, codec: Codec)
      reads this
    {
      Ascending(rows, nextSeq) && Chained(code, codec, rows, log)
    }

    constructor (ghost code: Code, ghost codec: Codec)
      ensures Valid(code, codec) && rows == [] && log == []
    {
      rows, nextSeq, log := [], 0, [];
    }

    method Record(code: Code, codec: Codec, req: Request, eventId: string, createdAt: string) returns (ok: bool)
      requires Valid(code, codec)
      modifies this
      ensures Valid(code, codec)
      ensures ok == (req.scanId.Some? ==> codec.scan(req.scanId.value).Some?)
      ensures ok ==> log == old(log) + [Entry(req, eventId, createdAt)]
      ensures ok ==> |rows| == |old(rows)| + 1 && rows[..|old(rows)|] == old(rows)
      ensures ok ==>
                var prev, row := old(rows), rows[|rows| - 1];
                && row.fields.eventId == eventId && row.fields.createdAt == createdAt
                && row.fields.eventType == req.eventType
                && row.fields.operatorId == (match req.operatorId case None => "" case Some(t) => t)
                && row.fields.scanId == (match req.scanId case None => "" case Some(t) => codec.scan(t).value)
                && row.fields.payload == codec.payload(req.payload)
                && row.hmac == code(if prev == [] then GENESIS else prev[|prev| - 1].hmac,
                                    Fields(eventId, req.eventType, match req.scanId case None => "" case Some(t) => t,
                                           match req.operatorId case None => "" case Some(t) => t, createdAt, req.payload))
                && row.prevEventId == (if prev == [] then None else Some(prev[|prev| - 1].fields.eventId))
                && row.seqNo == old(nextSeq)
      ensures !ok ==> rows == old(rows) && log == old(log)
    {
      TailIsLast(rows, nextSeq);
      var tail := Tail(rows);
      var prevEventId := if tail.Some? then Some(tail.value.fields.eventId) else None;
      var prevHmac := if tail.Some? then tail.value.hmac else GENESIS;
      var e := Entry(req, eventId, createdAt);
      var eventHmac := code(prevHmac, Covered(e));
      if !Storable(codec, req) {
        return false;
      }
      var row := Row(nextSeq, Reread(codec, e), prevEventId, eventHmac);
      ghost var before := rows;
      rows, nextSeq, log := rows + [row], nextSeq + 1, log + [e];
      forall i | 0 <= i < |rows| ensures RowFor(code, codec, rows, log, i) {
        if i < |before| {
          assert RowFor(code, codec, before, old(log), i);
        }
      }
      ok := true;
    }
  }
}
