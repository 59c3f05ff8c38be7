/** The tamper-evident audit chain (app/audit/sink.py): the keyed hash over the NUL-joined
    fields of an event, the verification replay, and what a verified table proves.
    Texts stand for their UTF-8 encodings; the keyed hash at the sink's key is a parameter. */
module AuditChain {
  import opened Common

  const NUL: char := '\0'

  function Zeros(n: nat): (s: string)
    ensures |s| == n
  {
    if n == 0 then "" else Zeros(n - 1) + "0"
  }

  const GENESIS: string := Zeros(64)

  /** The texts of one event that the hash covers besides the previous hash. */
  datatype Fields = Fields(eventId: string, eventType: string, scanId: string, operatorId: string,
                           createdAt: string, payload: string)

  /** A row of the table as it is read back. */
  datatype Row = Row(seqNo: nat, fields: Fields, prevEventId: Option<string>, hmac: string)

  // ----------------------------------------------------------------- encoding

  function Join(parts: seq<string>): string
    requires parts != []
  {
    if |parts| == 1 then parts[0] else parts[0] + [NUL] + Join(parts[1..])
  }

  function Parts(prevHmac: string, f: Fields): seq<string> {
    [prevHmac, f.eventId, f.eventType, f.scanId, f.operatorId, f.createdAt, f.payload]
  }

  function Encode(prevHmac: string, f: Fields): string { Join(Parts(prevHmac, f)) }

  predicate NulFree(s: string) { NUL !in s }

  /** Everything but the payload, which comes last, must be free of the separator. */
  predicate Clean(f: Fields) {
    NulFree(f.eventId) && NulFree(f.eventType) && NulFree(f.scanId) && NulFree(f.operatorId) && NulFree(f.createdAt)
  }

  lemma SplitAtNul(a: string, b: string, x: string, y: string)
    requires NulFree(a) && NulFree(b)
    requires a + [NUL] + x == b + [NUL] + y
    ensures a == b && x == y
  {
    var s, t := a + [NUL] + x, b + [NUL] + y;
    assert forall k :: 0 <= k < |a| ==> s[k] == a[k] != NUL;
    assert forall k :: 0 <= k < |b| ==> t[k] == b[k] != NUL;
    assert s[|a|] == NUL && t[|b|] == NUL;
    assert s[..|a|] == a && t[..|b|] == b;
    assert s[|a| + 1..] == x && t[|b| + 1..] == y;
  }

  lemma {:induction false} JoinInjective(a: seq<string>, b: seq<string>)
    requires |a| == |b| > 0
    requires forall i :: 0 <= i < |a| - 1 ==> NulFree(a[i]) && NulFree(b[i])
    requires Join(a) == Join(b)
    ensures a == b
  {
    if |a| > 1 {
      SplitAtNul(a[0], b[0], Join(a[1..]), Join(b[1..]));
      JoinInjective(a[1..], b[1..]);
      assert a == [a[0]] + a[1..] && b == [b[0]] + b[1..];
    }
  }

  lemma EncodeInjective(p: string, f: Fields, q: string, g: Fields)
    requires NulFree(p) && NulFree(q) && Clean(f) && Clean(g)
    requires Encode(p, f) == Encode(q, g)
    ensures p == q && f == g
  {
    JoinInjective(Parts(p, f), Parts(q, g));
    assert Parts(p, f)[0] == p && Parts(q, g)[0] == q;
    assert Parts(p, f)[1] == f.eventId && Parts(p, f)[2] == f.eventType && Parts(p, f)[3] == f.scanId;
    assert Parts(p, f)[4] == f.operatorId && Parts(p, f)[5] == f.createdAt && Parts(p, f)[6] == f.payload;
  }

  /** The text that is hashed: previous hash, event id, event type, scan id, operator id, clock
      value and payload, in this order. */
  lemma EncodedText(p: string, f: Fields)
    ensures Encode(p, f) ==
            p + [NUL] + (f.eventId + [NUL] + (f.eventType + [NUL] + (f.scanId + [NUL]
            + (f.operatorId + [NUL] + (f.createdAt + [NUL] + f.payload)))))
  {
    JoinTwo(p, f.eventId, [f.eventType, f.scanId, f.operatorId, f.createdAt, f.payload]);
    JoinTwo(f.eventType, f.scanId, [f.operatorId, f.createdAt, f.payload]);
    JoinTwo(f.operatorId, f.createdAt, [f.payload]);
    assert [p, f.eventId] + [f.eventType, f.scanId, f.operatorId, f.createdAt, f.payload] == Parts(p, f);
    assert [f.eventType, f.scanId] + [f.operatorId, f.createdAt, f.payload] ==
           [f.eventType, f.scanId, f.operatorId, f.createdAt, f.payload];
    assert [f.operatorId, f.createdAt] + [f.payload] == [f.operatorId, f.createdAt, f.payload];
  }

  lemma JoinTwo(a: string, b: string, rest: seq<string>)
    requires rest != []
    ensures Join([a, b] + rest) == a + [NUL] + (b + [NUL] + Join(rest))
  {
    assert ([a, b] + rest)[1..] == [b] + rest;
    assert ([b] + rest)[1..] == rest;
  }

  /** The condition is needed: with a separator inside a field, two different events have
      one encoding, so no hash can tell them apart. */
  lemma NulMakesAmbiguous(p: string, f: Fields, a: string, b: string, c: string)
    ensures Encode(p, f.(eventType := a + [NUL] + b, scanId := c)) ==
            Encode(p, f.(eventType := a, scanId := b + [NUL] + c))
    ensures f.(eventType := a + [NUL] + b, scanId := c) != f.(eventType := a, scanId := b + [NUL] + c)
  {
    var x := f.(eventType := a + [NUL] + b, scanId := c);
    var y := f.(eventType := a, scanId := b + [NUL] + c);
    var head, tail := [p, f.eventId], [f.operatorId, f.createdAt, f.payload];
    assert Parts(p, x) == head + ([a + [NUL] + b, c] + tail);
    assert Parts(p, y) == head + ([a, b + [NUL] + c] + tail);
    JoinTwo(p, f.eventId, [a + [NUL] + b, c] + tail);
    JoinTwo(p, f.eventId, [a, b + [NUL] + c] + tail);
    JoinShifted(a, b, c, tail);
    assert |x.eventType| > |y.eventType|;
  }

  lemma JoinShifted(a: string, b: string, c: string, tail: seq<string>)
    requires tail != []
    ensures Join([a + [NUL] + b, c] + tail) == Join([a, b + [NUL] + c] + tail)
  {
    JoinTwo(a + [NUL] + b, c, tail);
    JoinTwo(a, b + [NUL] + c, tail);
    var rest := [NUL] + Join(tail);
    assert a + [NUL] + b + [NUL] + (c + rest) == a + [NUL] + (b + [NUL] + c + rest);
    assert c + [NUL] + Join(tail) == c + rest && b + [NUL] + c + [NUL] + Join(tail) == b + [NUL] + c + rest;
  }

  // -------------------------------------------------------------- verification

  /** The code of an event given the code before it. */
  type Code = (string, Fields) -> string

  /** The sink's: the keyed hash of the joined texts. */
  function SinkCode(H: string -> string): Code { (prev: string, f: Fields) => H(Encode(prev, f)) }

  /** What is assumed of HMAC-SHA256 at a fixed key: different data never give one code,
      and codes are hexadecimal texts other than the genesis value. */
  ghost predicate KeyedHash(H: string -> string) {
    && (forall x, y :: H(x) == H(y) ==> x == y)
    && (forall x :: NulFree(H(x)) && H(x) != GENESIS)
  }

  /** A code commits to the previous code and to every field: `back` recovers them. */
  ghost predicate Binding(code: Code, back: string -> (string, Fields)) {
    && (forall p, f :: NulFree(p) && Clean(f) ==> back(code(p, f)) == (p, f))
    && (forall p, f :: NulFree(code(p, f)) && code(p, f) != GENESIS)
  }

  ghost function Preimage(H: string -> string, c: string): (string, Fields) {
    if exists x: (string, Fields) :: NulFree(x.0) && Clean(x.1) && SinkCode(H)(x.0, x.1) == c then
      var x: (string, Fields) :| NulFree(x.0) && Clean(x.1) && SinkCode(H)(x.0, x.1) == c; x
    else ("", Fields("", "", "", "", "", ""))
  }

  ghost function Back(H: string -> string): string -> (string, Fields) { (c: string) => Preimage(H, c) }

  /** The join is unambiguous on clean fields, so the sink's code inherits the hash's strength. */
  lemma SinkCodeIsBinding(H: string -> string)
    requires KeyedHash(H)
    ensures Binding(SinkCode(H), Back(H))
  {
    forall p, f | NulFree(p) && Clean(f) ensures Preimage(H, SinkCode(H)(p, f)) == (p, f) {
      var x := (p, f);
      assert NulFree(x.0) && Clean(x.1) && SinkCode(H)(x.0, x.1) == SinkCode(H)(p, f);
      var y := Preimage(H, SinkCode(H)(p, f));
      assert H(Encode(y.0, y.1)) == H(Encode(p, f));
      EncodeInjective(y.0, y.1, p, f);
    }
    forall p, f ensures NulFree(SinkCode(H)(p, f)) && SinkCode(H)(p, f) != GENESIS {
      assert SinkCode(H)(p, f) == H(Encode(p, f));
    }
  }

  function PrevHmac(rows: seq<Row>, i: nat): string
    requires i <= |rows|
  {
    if i == 0 then GENESIS else rows[i - 1].hmac
  }

  predicate HashOk(code: Code, rows: seq<Row>, i: nat)
    requires i < |rows|
  {
    code(PrevHmac(rows, i), rows[i].fields) == rows[i].hmac
  }

  predicate LinkOk(rows: seq<Row>, i: nat)
    requires i < |rows|
  {
    i == 0 || rows[i].prevEventId == Some(rows[i - 1].fields.eventId)
  }

  predicate Verifies(code: Code, rows: seq<Row>) {
    forall i :: 0 <= i < |rows| ==> HashOk(code, rows, i) && LinkOk(rows, i)
  }

  datatype Verdict = Intact(events: nat) | HashBroken(index: nat) | LinkBroken(index: nat)

  function MinusSeq(): Row -> real { (r: Row) => -(r.seqNo as real) }

  /** `ORDER BY seq`. */
  function BySeq(table: seq<Row>): seq<Row> { SortDesc(table, MinusSeq()) }

  /** The rows the replay looks at; limit 0 means all of them. */
  function Selected(table: seq<Row>, limit: nat): seq<Row> {
    if limit == 0 || limit >= |BySeq(table)| then BySeq(table) else BySeq(table)[..limit]
  }

  /** Where and how the first wrong row shows. */
  ghost predicate Explains(v: Verdict, code: Code, rows: seq<Row>) {
    !v.Intact? ==>
      && v.index < |rows|
      && (forall i :: 0 <= i < v.index ==> HashOk(code, rows, i) && LinkOk(rows, i))
      && (v.HashBroken? <==> !HashOk(code, rows, v.index))
      && (v.LinkBroken? ==> !LinkOk(rows, v.index))
  }

  /** The replay loop: it stops at the first row whose hash or whose link is wrong. */
  method Replay(code: Code, rows: seq<Row>) returns (v: Verdict)
    ensures v.Intact? <==> Verifies(code, rows)
    ensures v.Intact? ==> v.events == |rows|
    ensures Explains(v, code, rows)
  {
    var prevHmac := GENESIS;
    var prevId: Option<string> := None;
    for i := 0 to |rows|
      invariant forall k :: 0 <= k < i ==> HashOk(code, rows, k) && LinkOk(rows, k)
      invariant prevHmac == PrevHmac(rows, i)
      invariant prevId == if i == 0 then None else Some(rows[i - 1].fields.eventId)
    {
      var ev := rows[i];
      if code(prevHmac, ev.fields) != ev.hmac {
        assert !HashOk(code, rows, i);
        return HashBroken(i);
      }
      if prevId.Some? && ev.prevEventId != prevId {
        assert !LinkOk(rows, i);
        return LinkBroken(i);
      }
      prevHmac, prevId := ev.hmac, Some(ev.fields.eventId);
    }
    v := Intact(|rows|);
  }

  /** `verify_chain`. */
  method VerifyChain(code: Code, table: seq<Row>, limit: nat) returns (v: Verdict)
    ensures v.Intact? <==> Verifies(code, Selected(table, limit))
    ensures v.Intact? ==> v.events == |Selected(table, limit)|
    ensures Explains(v, code, Selected(table, limit))
  {
    v := Replay(code, Selected(table, limit));
  }

  // ----------------------------------------------------------------- soundness

  function PrevCode(codes: seq<string>, i: nat): string
    requires i <= |codes|
  {
    if i == 0 then GENESIS else codes[i - 1]
  }

  ghost predicate IssuedAt(code: Code, log: seq<Fields>, codes: seq<string>, i: nat)
    requires i < |log| == |codes|
  {
    Clean(log[i]) && codes[i] == code(PrevCode(codes, i), log[i])
  }

  /** What the sink issued: the fields it hashed, in order, and the codes it computed. */
  ghost predicate Issued(code: Code, log: seq<Fields>, codes: seq<string>) {
    && |log| == |codes|
    && forall i :: 0 <= i < |log| ==> IssuedAt(code, log, codes, i)
  }

  lemma {:induction false} ZerosClean(n: nat)
    ensures NulFree(Zeros(n))
  {
    if n > 0 {
      ZerosClean(n - 1);
    }
  }

  /** The chain starts from 64 zeros. */
  lemma GenesisIsZeros()
    ensures |GENESIS| == 64 && forall i :: 0 <= i < 64 ==> GENESIS[i] == '0'
  {
    ZerosAre(64);
  }

  lemma {:induction false} ZerosAre(n: nat)
    ensures forall i :: 0 <= i < n ==> Zeros(n)[i] == '0'
  {
    if n > 0 {
      ZerosAre(n - 1);
    }
  }

  lemma GenesisClean()
    ensures NulFree(GENESIS)
  {
    ZerosClean(64);
  }

  lemma PrevCodeClean(code: Code, back: string -> (string, Fields), log: seq<Fields>, codes: seq<string>, i: nat)
    requires Binding(code, back) && Issued(code, log, codes) && i < |codes|
    ensures NulFree(PrevCode(codes, i))
    ensures codes[i] == code(PrevCode(codes, i), log[i])
    ensures i > 0 ==> PrevCode(codes, i) != GENESIS
    ensures Clean(log[i])
  {
    GenesisClean();
    assert IssuedAt(code, log, codes, i);
    if i > 0 {
      assert IssuedAt(code, log, codes, i - 1);
    }
  }

  /** Each position of the chain has its own code. */
  lemma {:induction false} CodesDistinct(code: Code, back: string -> (string, Fields), log: seq<Fields>, codes: seq<string>, i: nat, j: nat)
    requires Binding(code, back) && Issued(code, log, codes)
    requires i < |codes| && j < |codes| && codes[i] == codes[j]
    ensures i == j
  {
    PrevCodeClean(code, back, log, codes, i);
    PrevCodeClean(code, back, log, codes, j);
    assert PrevCode(codes, i) == PrevCode(codes, j);
    if i > 0 && j > 0 {
      CodesDistinct(code, back, log, codes, i - 1, j - 1);
    }
  }

  /** A table whose rows are, on everything the hash covers, the first events the sink
      recorded, correctly linked after the first. */
  ghost predicate IsPrefixOf(rows: seq<Row>, log: seq<Fields>, codes: seq<string>)
    requires |log| == |codes|
  {
    && |rows| <= |log|
    && (forall i :: 0 <= i < |rows| ==> rows[i].fields == log[i] && rows[i].hmac == codes[i])
    && (forall i :: 0 <= i < |rows| ==> LinkOk(rows, i))
  }

  lemma PrevHmacClean(code: Code, back: string -> (string, Fields), rows: seq<Row>, i: nat)
    requires Binding(code, back) && i < |rows|
    requires i > 0 ==> HashOk(code, rows, i - 1)
    ensures NulFree(PrevHmac(rows, i))
  {
    GenesisClean();
  }

  /** A row that carries the k-th code is the k-th event, behind the code before it. */
  lemma RowIsEvent(code: Code, back: string -> (string, Fields), rows: seq<Row>, log: seq<Fields>, codes: seq<string>, i: nat, k: nat)
    requires Binding(code, back) && Issued(code, log, codes) && i < |rows| && k < |codes|
    requires HashOk(code, rows, i) && Clean(rows[i].fields) && NulFree(PrevHmac(rows, i)) && rows[i].hmac == codes[k]
    ensures PrevHmac(rows, i) == PrevCode(codes, k) && rows[i].fields == log[k]
  {
    PrevCodeClean(code, back, log, codes, k);
  }

  /** The row carries clean fields and a code the sink issued. */
  ghost predicate Carries(rows: seq<Row>, codes: seq<string>, i: nat)
    requires i < |rows|
  {
    Clean(rows[i].fields) && rows[i].hmac in codes
  }

  ghost predicate AllCarry(rows: seq<Row>, codes: seq<string>) { forall i :: 0 <= i < |rows| ==> Carries(rows, codes, i) }

  /** Row `i` is event `i`. */
  ghost predicate Matches(rows: seq<Row>, log: seq<Fields>, codes: seq<string>, i: nat)
    requires i < |rows|
  {
    i < |log| && i < |codes| && rows[i].fields == log[i] && rows[i].hmac == codes[i]
  }

  lemma {:induction false} VerifiedPrefix(code: Code, back: string -> (string, Fields), rows: seq<Row>, log: seq<Fields>, codes: seq<string>, i: nat)
    requires Binding(code, back) && Issued(code, log, codes) && Verifies(code, rows) && AllCarry(rows, codes)
    requires i < |rows|
    ensures Matches(rows, log, codes, i)
  {
    assert Carries(rows, codes, i);
    var k :| 0 <= k < |codes| && codes[k] == rows[i].hmac;
    if i > 0 {
      VerifiedPrefix(code, back, rows, log, codes, i - 1);
    }
    NextEvent(code, back, rows, log, codes, i, k);
  }

  lemma CodeIsNotGenesis(code: Code, back: string -> (string, Fields), log: seq<Fields>, codes: seq<string>, i: nat)
    requires Binding(code, back) && Issued(code, log, codes) && i < |codes|
    ensures codes[i] != GENESIS
  {
    assert IssuedAt(code, log, codes, i);
  }

  lemma NextEvent(code: Code, back: string -> (string, Fields), rows: seq<Row>, log: seq<Fields>, codes: seq<string>, i: nat, k: nat)
    requires Binding(code, back) && Issued(code, log, codes) && Verifies(code, rows)
    requires i < |rows| && i <= |codes| && k < |codes| && codes[k] == rows[i].hmac && Clean(rows[i].fields)
    requires i > 0 ==> rows[i - 1].hmac == codes[i - 1]
    ensures i == k && rows[i].fields == log[i]
  {
    assert HashOk(code, rows, i);
    assert i > 0 ==> HashOk(code, rows, i - 1);
    PrevHmacClean(code, back, rows, i);
    RowIsEvent(code, back, rows, log, codes, i, k);
    PrevCodeClean(code, back, log, codes, k);
    if i > 0 {
      assert PrevHmac(rows, i) == codes[i - 1];
      CodeIsNotGenesis(code, back, log, codes, i - 1);
      CodesDistinct(code, back, log, codes, i - 1, k - 1);
    }
  }

  lemma VerifiedIsPrefix(code: Code, back: string -> (string, Fields), rows: seq<Row>, log: seq<Fields>, codes: seq<string>)
    requires Binding(code, back) && Issued(code, log, codes) && AllCarry(rows, codes) && Verifies(code, rows)
    ensures IsPrefixOf(rows, log, codes)
  {
    forall i | 0 <= i < |rows| ensures Matches(rows, log, codes, i) {
      VerifiedPrefix(code, back, rows, log, codes, i);
    }
    forall i | 0 <= i < |rows| ensures i < |log| && rows[i].fields == log[i] && rows[i].hmac == codes[i] && LinkOk(rows, i) {
      assert Matches(rows, log, codes, i);
    }
    assert rows != [] ==> Matches(rows, log, codes, |rows| - 1);
  }

  lemma PrefixVerifies(code: Code, back: string -> (string, Fields), rows: seq<Row>, log: seq<Fields>, codes: seq<string>)
    requires Binding(code, back) && Issued(code, log, codes) && IsPrefixOf(rows, log, codes)
    ensures Verifies(code, rows)
  {
    forall i | 0 <= i < |rows| ensures HashOk(code, rows, i) {
      PrevCodeClean(code, back, log, codes, i);
      assert PrevHmac(rows, i) == PrevCode(codes, i);
    }
  }

  /** What a successful replay proves, and all it proves: among tables that carry only codes
      the sink issued, exactly the prefixes of what was recorded verify. */
  lemma VerifiesIffPrefix(code: Code, back: string -> (string, Fields), rows: seq<Row>, log: seq<Fields>, codes: seq<string>)
    requires Binding(code, back) && Issued(code, log, codes)
    requires forall i :: 0 <= i < |rows| ==> Clean(rows[i].fields) && rows[i].hmac in codes
    ensures Verifies(code, rows) <==> IsPrefixOf(rows, log, codes)
  {
    if Verifies(code, rows) {
      forall i | 0 <= i < |rows| ensures Carries(rows, codes, i) {
      }
      VerifiedIsPrefix(code, back, rows, log, codes);
    }
    if IsPrefixOf(rows, log, codes) {
      PrefixVerifies(code, back, rows, log, codes);
    }
  }

  // ------------------------------------------------------------- tampering, row by row

  /** The table exactly as it was recorded. */
  ghost predicate Genuine(rows: seq<Row>, log: seq<Fields>, codes: seq<string>)
    requires |log| == |codes|
  {
    |rows| == |log| && IsPrefixOf(rows, log, codes)
  }

  /** Changing any covered field of any row is detected. */
  lemma EditDetected(code: Code, back: string -> (string, Fields), rows: seq<Row>, log: seq<Fields>, codes: seq<string>, k: nat, f: Fields)
    requires Binding(code, back) && Issued(code, log, codes) && Genuine(rows, log, codes)
    requires k < |rows| && Clean(f) && f != rows[k].fields
    ensures !Verifies(code, rows[k := rows[k].(fields := f)])
  {
    var forged := rows[k := rows[k].(fields := f)];
    forall i | 0 <= i < |forged| ensures Clean(forged[i].fields) && forged[i].hmac in codes {
      assert IssuedAt(code, log, codes, i);
      assert forged[i].hmac == codes[i] && Clean(log[i]);
    }
    VerifiesIffPrefix(code, back, forged, log, codes);
    assert forged[k].fields == f != log[k];
  }

  /** Deleting any row but the last is detected; deleting the last rows is not. */
  lemma DeletionDetected(code: Code, back: string -> (string, Fields), rows: seq<Row>, log: seq<Fields>, codes: seq<string>, k: nat)
    requires Binding(code, back) && Issued(code, log, codes) && Genuine(rows, log, codes)
    requires k < |rows|
    ensures Verifies(code, rows[..k] + rows[k + 1..]) <==> k == |rows| - 1
    ensures Verifies(code, rows[..k])
  {
    var shorter := rows[..k] + rows[k + 1..];
    forall i | 0 <= i < |shorter| ensures Clean(shorter[i].fields) && shorter[i].hmac in codes {
      var j := if i < k then i else i + 1;
      assert IssuedAt(code, log, codes, j);
      assert shorter[i] == rows[j] && rows[j].hmac == codes[j] && Clean(log[j]);
    }
    VerifiesIffPrefix(code, back, shorter, log, codes);
    if k < |rows| - 1 && IsPrefixOf(shorter, log, codes) {
      assert shorter[k] == rows[k + 1];
      CodesDistinct(code, back, log, codes, k, k + 1);
    }
    forall i | 0 <= i < k ensures Clean(rows[..k][i].fields) && rows[..k][i].hmac in codes {
      assert IssuedAt(code, log, codes, i);
    }
    VerifiesIffPrefix(code, back, rows[..k], log, codes);
    forall i | 0 <= i < k ensures LinkOk(rows[..k], i) {
      assert LinkOk(rows, i);
    }
    assert k == |rows| - 1 ==> shorter == rows[..k];
  }

  /** Inserting a row that carries an issued code is detected at every place: it repeats an
      earlier row or displaces a later one. */
  lemma InsertionDetected(code: Code, back: string -> (string, Fields), rows: seq<Row>, log: seq<Fields>, codes: seq<string>, k: nat, extra: Row)
    requires Binding(code, back) && Issued(code, log, codes) && Genuine(rows, log, codes)
    requires k <= |rows| && Clean(extra.fields) && extra.hmac in codes
    ensures !Verifies(code, rows[..k] + [extra] + rows[k..])
  {
    var longer := rows[..k] + [extra] + rows[k..];
    forall i | 0 <= i < |longer| ensures Clean(longer[i].fields) && longer[i].hmac in codes {
      if i != k {
        var j := if i < k then i else i - 1;
        assert IssuedAt(code, log, codes, j);
        assert longer[i] == rows[j] && rows[j].hmac == codes[j] && Clean(log[j]);
      }
    }
    VerifiesIffPrefix(code, back, longer, log, codes);
  }

  /** Changing the back reference of any row but the first is detected. */
  lemma RelinkDetected(code: Code, back: string -> (string, Fields), rows: seq<Row>, log: seq<Fields>, codes: seq<string>, k: nat, link: Option<string>)
    requires Binding(code, back) && Issued(code, log, codes) && Genuine(rows, log, codes)
    requires 0 < k < |rows| && link != rows[k].prevEventId
    ensures rows[k].prevEventId == Some(rows[k - 1].fields.eventId)
    ensures !Verifies(code, rows[k := rows[k].(prevEventId := link)])
  {
    var changed := rows[k := rows[k].(prevEventId := link)];
    assert LinkOk(rows, k);
    assert changed[k - 1] == rows[k - 1] && changed[k].prevEventId == link;
    assert !LinkOk(changed, k);
  }

  /** Exchanging two rows is detected. */
  lemma ReorderDetected(code: Code, back: string -> (string, Fields), rows: seq<Row>, log: seq<Fields>, codes: seq<string>, a: nat, b: nat)
    requires Binding(code, back) && Issued(code, log, codes) && Genuine(rows, log, codes)
    requires a < b < |rows|
    ensures !Verifies(code, rows[a := rows[b]][b := rows[a]])
  {
    var swapped := rows[a := rows[b]][b := rows[a]];
    forall i | 0 <= i < |swapped| ensures Clean(swapped[i].fields) && swapped[i].hmac in codes {
      var j := if i == a then b else if i == b then a else i;
      assert IssuedAt(code, log, codes, j);
      assert swapped[i] == rows[j] && rows[j].hmac == codes[j] && Clean(log[j]);
    }
    VerifiesIffPrefix(code, back, swapped, log, codes);
    if IsPrefixOf(swapped, log, codes) {
      assert swapped[a].hmac == codes[a] && rows[b].hmac == codes[b];
      CodesDistinct(code, back, log, codes, a, b);
    }
  }

  /** A table that matches everything covered by the hash still shows one change: the back
      reference of its first row is neither hashed nor compared. */
  lemma FirstBackReferenceUnchecked(code: Code, rows: seq<Row>, x: Option<string>)
    requires rows != []
    ensures Verifies(code, rows[0 := rows[0].(prevEventId := x)]) <==> Verifies(code, rows)
  {
    var other := rows[0 := rows[0].(prevEventId := x)];
    forall i | 0 <= i < |rows|
      ensures HashOk(code, other, i) == HashOk(code, rows, i) && LinkOk(other, i) == LinkOk(rows, i)
    {
      assert PrevHmac(other, i) == PrevHmac(rows, i);
    }
  }
}
