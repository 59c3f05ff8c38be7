/** How an answer of the screening model is read (vlm/screen.py, `parse`): lines of the form
    `KEY: value`, unknown keys ignored, a repeated key overwritten.  Upper-casing is a parameter. */
module ScreenText {
  import opened Common

  datatype Field = Tavsif | VagonTuri | AsosiyYuk | Qoradori | Qurol | Tamaki | Boshqa | Xavf

  function KeyOf(f: Field): string {
    match f
    case Tavsif => "TAVSIF"
    case VagonTuri => "VAGON_TURI"
    case AsosiyYuk => "ASOSIY_YUK"
    case Qoradori => "QORADORI"
    case Qurol => "QUROL"
    case Tamaki => "TAMAKI"
    case Boshqa => "BOSHQA"
    case Xavf => "XAVF"
  }

  /** Membership in `_STRUCT_FIELDS`. */
  function FieldNamed(key: string): Option<Field> {
    if key == "TAVSIF" then Some(Tavsif)
    else if key == "VAGON_TURI" then Some(VagonTuri)
    else if key == "ASOSIY_YUK" then Some(AsosiyYuk)
    else if key == "QORADORI" then Some(Qoradori)
    else if key == "QUROL" then Some(Qurol)
    else if key == "TAMAKI" then Some(Tamaki)
    else if key == "BOSHQA" then Some(Boshqa)
    else if key == "XAVF" then Some(Xavf)
    else None
  }

  // ------------------------------------------------------------- white space

  /** The code points that `str.strip` removes. */
  predicate IsSpace(c: char) {
    var n := c as int;
    9 <= n <= 13 || 28 <= n <= 32 || n == 0x85 || n == 0xA0 || n == 0x1680 || 0x2000 <= n <= 0x200A
    || n == 0x2028 || n == 0x2029 || n == 0x202F || n == 0x205F || n == 0x3000
  }

  /** The code points that `str.splitlines` breaks at. */
  predicate IsBreak(c: char) {
    var n := c as int;
    10 <= n <= 13 || 28 <= n <= 30 || n == 0x85 || n == 0x2028 || n == 0x2029
  }

  /** The white space and the line breaks one by one; what breaks a line is white space. */
  lemma CharacterClasses(c: char)
    ensures IsSpace(c) <==>
              (c as int in {0x09, 0x0A, 0x0B, 0x0C, 0x0D, 0x1C, 0x1D, 0x1E, 0x1F, 0x20, 0x85, 0xA0, 0x1680,
                            0x2000, 0x2001, 0x2002, 0x2003, 0x2004, 0x2005, 0x2006, 0x2007, 0x2008, 0x2009, 0x200A,
                            0x2028, 0x2029, 0x202F, 0x205F, 0x3000})
    ensures IsBreak(c) <==>
              c as int in {0x0A, 0x0B, 0x0C, 0x0D, 0x1C, 0x1D, 0x1E, 0x85, 0x2028, 0x2029}
    ensures IsBreak(c) ==> IsSpace(c)
  {
  }

  function StripLeft(s: string): string {
    if s != "" && IsSpace(s[0]) then StripLeft(s[1..]) else s
  }

  function StripRight(s: string): string {
    if s != "" && IsSpace(s[|s| - 1]) then StripRight(s[..|s| - 1]) else s
  }

  function Strip(s: string): string { StripRight(StripLeft(s)) }

  predicate Stripped(s: string) { s == "" || (!IsSpace(s[0]) && !IsSpace(s[|s| - 1])) }

  lemma StripSpaced(v: string)
    requires Stripped(v)
    ensures Strip(v) == v && Strip(" " + v) == v
  {
    var s := " " + v;
    assert s[1..] == v && IsSpace(s[0]);
    assert StripLeft(s) == StripLeft(v) == v;
  }

  predicate Blank(s: string) { forall i :: 0 <= i < |s| ==> IsSpace(s[i]) }

  lemma {:induction false} BlankLeft(a: string, v: string)
    requires Blank(a) && (v == "" || !IsSpace(v[0]))
    ensures StripLeft(a + v) == v
  {
    if a == "" {
      assert a + v == v;
    } else {
      BlankLeft(a[1..], v);
      assert (a + v)[1..] == a[1..] + v;
    }
  }

  lemma {:induction false} BlankRight(v: string, b: string)
    requires Blank(b) && (v == "" || !IsSpace(v[|v| - 1]))
    ensures StripRight(v + b) == v
  {
    if b == "" {
      assert v + b == v;
    } else {
      BlankRight(v, b[..|b| - 1]);
      assert (v + b)[..|v + b| - 1] == v + b[..|b| - 1];
    }
  }

  lemma {:induction false} AllBlank(s: string)
    requires Blank(s)
    ensures StripLeft(s) == ""
  {
    BlankLeft(s, "");
    assert s + "" == s;
  }

  /** White space around a text goes, whatever and however much it is, and nothing else. */
  lemma StripOfPadded(a: string, v: string, b: string)
    requires Blank(a) && Blank(b) && Stripped(v)
    ensures Strip(a + v + b) == v
  {
    if v == "" {
      assert a + v + b == a + b;
      AllBlank(a + b);
    } else {
      BlankLeft(a, v + b);
      assert a + v + b == a + (v + b);
      BlankRight(v, b);
    }
  }

  /** Every text is a stripped one with white space around it. */
  lemma StripMeans(s: string) returns (a: string, b: string)
    ensures s == a + Strip(s) + b && Blank(a) && Blank(b) && Stripped(Strip(s))
  {
    var i := 0;
    while i < |s| && IsSpace(s[i])
      invariant i <= |s| && Blank(s[..i])
    {
      i := i + 1;
    }
    var j := |s|;
    while j > i && IsSpace(s[j - 1])
      invariant i <= j <= |s| && Blank(s[j..])
    {
      j := j - 1;
    }
    a, b := s[..i], s[j..];
    StripOfPadded(a, s[i..j], b);
    assert s == a + s[i..j] + b;
  }

  // ------------------------------------------------------------------- lines

  /** Split at every break; the empty lines this leaves carry no key. */
  function Lines(text: string): (lines: seq<string>)
    ensures lines != []
  {
    if text == "" then [""]
    else
      var lines, c := Lines(text[..|text| - 1]), text[|text| - 1];
      if IsBreak(c) then lines + [""] else lines[..|lines| - 1] + [lines[|lines| - 1] + [c]]
  }

  predicate OneLine(s: string) { forall i :: 0 <= i < |s| ==> !IsBreak(s[i]) }

  /** Every break, whichever it is, starts a new line. */
  lemma {:induction false} LinesAppend(text: string, c: char, line: string)
    requires IsBreak(c) && OneLine(line)
    ensures Lines(text + [c] + line) == Lines(text) + [line]
  {
    var all := text + [c] + line;
    if line == "" {
      assert all[..|all| - 1] == text;
    } else {
      var front := line[..|line| - 1];
      LinesAppend(text, c, front);
      assert all[..|all| - 1] == text + [c] + front;
      assert front + [line[|line| - 1]] == line;
    }
  }

  /** Nothing else does. */
  lemma {:induction false} OneLineStaysWhole(line: string)
    requires OneLine(line)
    ensures Lines(line) == [line]
  {
    if line != "" {
      OneLineStaysWhole(line[..|line| - 1]);
      assert line[..|line| - 1] + [line[|line| - 1]] == line;
    }
  }

  // ------------------------------------------------------------------- parsing

  /** Where the first colon is. */
  function ColonAt(line: string): (k: nat)
    ensures k <= |line|
  {
    if line == "" || line[0] == ':' then 0 else 1 + ColonAt(line[1..])
  }

  lemma {:induction false} ColonIsFirst(line: string, k: nat)
    requires k < |line| && line[k] == ':' && forall i :: 0 <= i < k ==> line[i] != ':'
    ensures ColonAt(line) == k
  {
    if k > 0 {
      ColonIsFirst(line[1..], k - 1);
    }
  }

  function ParseLine(upper: string -> string, line: string): Option<(Field, string)> {
    var k := ColonAt(line);
    if k == |line| then None
    else
      match FieldNamed(upper(Strip(line[..k])))
      case None => None
      case Some(f) => Some((f, Strip(line[k + 1..])))
  }

  function ParseLines(upper: string -> string, lines: seq<string>): map<Field, string> {
    if lines == [] then map[]
    else
      var fields := ParseLines(upper, lines[..|lines| - 1]);
      match ParseLine(upper, lines[|lines| - 1])
      case None => fields
      case Some(entry) => fields[entry.0 := entry.1]
  }

  function Parsed(upper: string -> string, text: string): map<Field, string> { ParseLines(upper, Lines(text)) }

  method Parse(upper: string -> string, text: string) returns (out: map<Field, string>)
    ensures out == Parsed(upper, text)
  {
    var lines := Lines(text);
    out := map[];
    for i := 0 to |lines|
      invariant out == ParseLines(upper, lines[..i])
    {
      assert lines[..i + 1][..i] == lines[..i];
      var k := ColonAt(lines[i]);
      if k == |lines[i]| {
        continue;
      }
      var key := FieldNamed(upper(Strip(lines[i][..k])));
      if key.Some? {
        out := out[key.value := Strip(lines[i][k + 1..])];
      }
    }
    assert lines[..|lines|] == lines;
  }

  /** A line gives a field exactly when the text before its first colon is the key of the
      field, stripped and upper-cased, and it gives it the stripped text behind that colon. */
  lemma LineGivesExactly(upper: string -> string, line: string, f: Field, value: string)
    ensures ParseLine(upper, line) == Some((f, value)) <==>
              exists k :: FirstColon(line, k) && upper(Strip(line[..k])) == KeyOf(f) && value == Strip(line[k + 1..])
  {
    var c := ColonAt(line);
    ColonAtMeans(line);
    forall k | FirstColon(line, k) ensures k == c {
    }
    KeyIsNamed(f);
  }

  predicate FirstColon(line: string, k: int) {
    0 <= k < |line| && line[k] == ':' && forall i :: 0 <= i < k ==> line[i] != ':'
  }

  lemma {:induction false} ColonAtMeans(line: string)
    ensures var k := ColonAt(line);
            && (k < |line| ==> FirstColon(line, k))
            && (k == |line| ==> forall i :: 0 <= i < |line| ==> line[i] != ':')
  {
    if line != "" && line[0] != ':' {
      ColonAtMeans(line[1..]);
      assert line == [line[0]] + line[1..];
    }
  }

  /** A field that no line names is not read. */
  lemma {:induction false} UnnamedIsAbsent(upper: string -> string, lines: seq<string>, f: Field)
    requires forall i :: 0 <= i < |lines| ==> !Names(upper, lines[i], f)
    ensures f !in ParseLines(upper, lines)
  {
    if lines != [] {
      UnnamedIsAbsent(upper, lines[..|lines| - 1], f);
      assert !Names(upper, lines[|lines| - 1], f);
    }
  }

  /** A field that some line names has the value of the last such line. */
  lemma {:induction false} LastLineDecides(upper: string -> string, lines: seq<string>, f: Field, i: nat)
    requires i < |lines| && Names(upper, lines[i], f)
    requires forall j :: i < j < |lines| ==> !Names(upper, lines[j], f)
    ensures f in ParseLines(upper, lines) && ParseLine(upper, lines[i]) == Some((f, ParseLines(upper, lines)[f]))
  {
    if i < |lines| - 1 {
      assert !Names(upper, lines[|lines| - 1], f);
      LastLineDecides(upper, lines[..|lines| - 1], f, i);
    }
  }

  predicate Names(upper: string -> string, line: string, f: Field) {
    ParseLine(upper, line).Some? && ParseLine(upper, line).value.0 == f
  }

  // ---------------------------------------------------------------- round trip

  /** An answer written the way the prompt asks for it. */
  function RenderLine(entry: (Field, string)): string { KeyOf(entry.0) + ": " + entry.1 }

  function Render(entries: seq<(Field, string)>): string {
    if entries == [] then "" else Render(entries[..|entries| - 1]) + "\n" + RenderLine(entries[|entries| - 1])
  }

  function Collected(entries: seq<(Field, string)>): map<Field, string> {
    if entries == [] then map[]
    else Collected(entries[..|entries| - 1])[entries[|entries| - 1].0 := entries[|entries| - 1].1]
  }

  predicate Clean(value: string) { Stripped(value) && OneLine(value) }

  ghost predicate KeepsKeys(upper: string -> string) { forall f :: upper(KeyOf(f)) == KeyOf(f) }

  lemma KeyShape(f: Field)
    ensures var k := KeyOf(f); k != "" && Stripped(k) && OneLine(k) && forall i :: 0 <= i < |k| ==> k[i] != ':'
  {
  }

  lemma KeyIsNamed(f: Field)
    ensures FieldNamed(KeyOf(f)) == Some(f)
  {
    var key := KeyOf(f);
    match f
    case Tavsif =>
    case VagonTuri => assert key[0] == 'V';
    case AsosiyYuk => assert key[0] == 'A';
    case Qoradori => assert key[0] == 'Q';
    case Qurol => assert key[0] == 'Q' && |key| == 5;
    case Tamaki => assert key[0] == 'T' && key[2] == 'M';
    case Boshqa => assert key[0] == 'B';
    case Xavf => assert key[0] == 'X';
  }

  lemma LineRoundTrip(upper: string -> string, f: Field, value: string)
    requires KeepsKeys(upper) && Clean(value)
    ensures ParseLine(upper, RenderLine((f, value))) == Some((f, value))
    ensures OneLine(RenderLine((f, value)))
  {
    var key, line := KeyOf(f), RenderLine((f, value));
    KeyShape(f);
    KeyIsNamed(f);
    assert line == key + ": " + value;
    ColonIsFirst(line, |key|);
    assert line[..|key|] == key && line[|key| + 1..] == " " + value;
    StripSpaced(key);
    StripSpaced(value);
  }

  /** What was written in the requested form is read back field by field. */
  lemma {:induction false} RoundTrip(upper: string -> string, entries: seq<(Field, string)>)
    requires KeepsKeys(upper) && forall i :: 0 <= i < |entries| ==> Clean(entries[i].1)
    ensures Parsed(upper, Render(entries)) == Collected(entries)
  {
    if entries == [] {
      assert Lines("") == [""];
      assert ParseLines(upper, [""][..0]) == map[];
    } else {
      var front, last := entries[..|entries| - 1], entries[|entries| - 1];
      RoundTrip(upper, front);
      LineRoundTrip(upper, last.0, last.1);
      LinesAppend(Render(front), '\n', RenderLine(last));
      var lines := Lines(Render(front));
      assert (lines + [RenderLine(last)])[..|lines|] == lines;
    }
  }
}
