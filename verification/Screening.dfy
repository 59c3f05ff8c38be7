/** Conservative voting over several passes of the cargo screener (vlm/screen.py) with the
    language guard (vlm/guard.py).  Everything is a function of the raw answers. */
module Screening {
  import opened Common
  import opened ScreenText

  datatype Flag = No | Suspect | Yes {
    function Rank(): nat { match this case No => 0 case Suspect => 1 case Yes => 2 }
  }

  datatype Flags = Flags(narcotics: Flag, weapon: Flag, tobacco: Flag, other: Flag)

  datatype Risk = Clear | Low | Medium | High {
    function Level(): nat { match this case Clear => 0 case Low => 1 case Medium => 2 case High => 3 }
  }

  datatype ScreenResult = ScreenResult(ok: bool, wagon: string, cargo: string, flags: Flags, risk: Risk, summary: string)

  datatype Kind = EmptySlot | TooShort | TooLong | Cyrillic | MixedScript | Russian | English | ForbiddenClearance

  /** What the model takes as given: the two case mappings, NFKC normalisation, the five script
      and phrase checks of the guard with the violations they find, in order, and the fixed
      texts that stand in for a missing summary and for a missing wagon or cargo. */
  datatype Env = Env(upper: string -> string, lower: string -> string, normalize: string -> string,
                     content: string -> seq<Kind>, noSummary: string, noText: string)

  // ---------------------------------------------------------------------- flags

  predicate StartsWith(s: string, prefix: string) { prefix <= s }

  /** `_normalize_flag` after stripping and upper-casing. */
  function NormalizeFlag(v: string): Flag {
    if v == "" then Suspect
    else if StartsWith(v, "YO") then No
    else if StartsWith(v, "BOR") || StartsWith(v, "HA") then Yes
    else Suspect
  }

  /** The canonical name of a flag. */
  function NameOf(f: Flag): string { match f case No => "YO'Q" case Suspect => "SHUBHALI" case Yes => "BOR" }

  /** Canonical names normalise to themselves; an answer clears a flag only by its first two
      letters and is an alarm only by BOR or HA; everything else, silence included, is suspect. */
  lemma NormalizeIsConservative(f: Flag, v: string)
    ensures NormalizeFlag(NameOf(f)) == f
    ensures NormalizeFlag(v) == No <==> |v| >= 2 && v[0] == 'Y' && v[1] == 'O'
    ensures NormalizeFlag(v) == Yes <==>
              (|v| >= 3 && v[0] == 'B' && v[1] == 'O' && v[2] == 'R') || (|v| >= 2 && v[0] == 'H' && v[1] == 'A')
  {
    assert StartsWith(v, "YO") <==> |v| >= 2 && v[0] == 'Y' && v[1] == 'O';
    assert StartsWith(v, "BOR") <==> |v| >= 3 && v[0] == 'B' && v[1] == 'O' && v[2] == 'R';
    assert StartsWith(v, "HA") <==> |v| >= 2 && v[0] == 'H' && v[1] == 'A';
    var name := NameOf(f);
    assert name[0] == (match f case No => 'Y' case Suspect => 'S' case Yes => 'B');
  }

  /** The vote of one parsed answer on one flag; a missing field counts as SHUBHALI. */
  function AnswerIn(x: Env, fields: map<Field, string>, f: Field): Flag {
    if f in fields then NormalizeFlag(x.upper(Strip(fields[f]))) else Suspect
  }

  function ParseOf(x: Env): string -> map<Field, string> { (raw: string) => Parsed(x.upper, raw) }

  function AnswerTo(x: Env, f: Field): string -> Flag { (raw: string) => AnswerIn(x, Parsed(x.upper, raw), f) }

  function Is(y: Flag): Flag -> bool { (z: Flag) => z == y }

  function Count(votes: seq<Flag>, y: Flag): nat { |Filter(votes, Is(y))| }

  function Need(n: nat): nat { n / 2 + 1 }

  function Voted(votes: seq<Flag>): Flag {
    if Count(votes, Yes) >= Need(|votes|) then Yes
    else if Count(votes, No) >= Need(|votes|) then No
    else Suspect
  }

  function VoteOn(x: Env, raws: seq<string>, f: Field): Flag { Voted(Map(raws, AnswerTo(x, f))) }

  function Votes(x: Env, raws: seq<string>): Flags {
    Flags(VoteOn(x, raws, Qoradori), VoteOn(x, raws, Qurol), VoteOn(x, raws, Tamaki), VoteOn(x, raws, Boshqa))
  }

  /** `risk_from_flags`. */
  function RiskOf(f: Flags): Risk {
    var values := {f.narcotics, f.weapon, f.tobacco, f.other};
    if Yes in values then High else if Suspect in values then Medium else Clear
  }

  /** A vote is an extreme exactly when a strict majority gave that answer. */
  lemma VoteIsMajority(votes: seq<Flag>, y: Flag)
    requires !y.Suspect?
    ensures Voted(votes) == y <==> 2 * Count(votes, y) > |votes|
  {
    FilterDisjoint(votes, Is(Yes), Is(No), Extreme());
    FilterSplit(votes, Extreme(), Is(Suspect));
  }

  function Extreme(): Flag -> bool { (y: Flag) => !y.Suspect? }

  /** The order of the passes does not matter to any vote. */
  lemma VotesIgnoreOrder(x: Env, a: seq<string>, b: seq<string>, f: Field)
    requires multiset(a) == multiset(b)
    ensures VoteOn(x, a, f) == VoteOn(x, b, f)
  {
    MapPermute(a, b, AnswerTo(x, f));
    SameLength(a, b);
    FilterPermute(Map(a, AnswerTo(x, f)), Map(b, AnswerTo(x, f)), Is(Yes));
    FilterPermute(Map(a, AnswerTo(x, f)), Map(b, AnswerTo(x, f)), Is(No));
  }

  ghost predicate Raised(a: seq<Flag>, b: seq<Flag>) {
    |a| == |b| && forall i :: 0 <= i < |a| ==> a[i].Rank() <= b[i].Rank()
  }

  lemma {:induction false} CountsShift(a: seq<Flag>, b: seq<Flag>)
    requires Raised(a, b)
    ensures Count(a, Yes) <= Count(b, Yes) && Count(a, No) >= Count(b, No)
  {
    if a != [] {
      CountsShift(a[..|a| - 1], b[..|b| - 1]);
    }
  }

  /** Raising any pass's answers never lowers a vote. */
  lemma VoteIsMonotone(a: seq<Flag>, b: seq<Flag>)
    requires Raised(a, b)
    ensures Voted(a).Rank() <= Voted(b).Rank()
  {
    CountsShift(a, b);
  }

  predicate FlagsUpTo(a: Flags, b: Flags) {
    && a.narcotics.Rank() <= b.narcotics.Rank() && a.weapon.Rank() <= b.weapon.Rank()
    && a.tobacco.Rank() <= b.tobacco.Rank() && a.other.Rank() <= b.other.Rank()
  }

  lemma RiskIsMonotone(a: Flags, b: Flags)
    requires FlagsUpTo(a, b)
    ensures RiskOf(a).Level() <= RiskOf(b).Level() && !RiskOf(a).Low?
  {
  }

  // ---------------------------------------------------------------------- guard

  const MIN_SLOT_CHARS := 10
  const MAX_SLOT_CHARS := 600

  /** `LanguageGuard.check`: the violations in the order of the checks. */
  function Violations(x: Env, text: string): seq<Kind> {
    var slot := Strip(x.normalize(text));
    if slot == "" then [EmptySlot]
    else (if |slot| < MIN_SLOT_CHARS then [TooShort] else [])
         + (if |slot| > MAX_SLOT_CHARS then [TooLong] else [])
         + x.content(slot)
  }

  /** The screener skips blank texts and looks at the first violation only. */
  predicate Trips(x: Env, text: string) {
    Strip(text) != "" && var v := Violations(x, text); v != [] && !v[0].TooLong? && !v[0].TooShort?
  }

  /** `_text_clean`. */
  predicate TextClean(x: Env, text: string) {
    Strip(text) != "" && var v := Violations(x, text); v == [] || v[0].TooLong? || v[0].TooShort?
  }

  predicate ContentOnly(kinds: seq<Kind>) {
    forall k :: k in kinds ==> !k.TooShort? && !k.TooLong?
  }

  /** So a text trips the guard exactly when nothing of it is left by normalisation, or it has
      a content violation and a length within the bounds: a length violation comes first in
      the list and hides what follows. */
  lemma TripsExactlyWithinBounds(x: Env, text: string)
    requires ContentOnly(x.content(Strip(x.normalize(text))))
    ensures var slot := Strip(x.normalize(text));
            Trips(x, text) <==>
              && Strip(text) != ""
              && (slot == "" || (MIN_SLOT_CHARS <= |slot| <= MAX_SLOT_CHARS && x.content(slot) != []))
    ensures TextClean(x, text) <==> Strip(text) != "" && !Trips(x, text)
  {
    var found := x.content(Strip(x.normalize(text)));
    if found != [] {
      assert found[0] in found;
    }
  }

  /** A one-word clearance is a forbidden phrase that does not trip the guard. */
  lemma ShortClearanceIsNotCaught(x: Env)
    requires x.normalize("xavfsiz") == "xavfsiz" && x.normalize("xavfsiz yuk") == "xavfsiz yuk"
    requires x.content("xavfsiz") == x.content("xavfsiz yuk") == [ForbiddenClearance]
    ensures ForbiddenClearance in Violations(x, "xavfsiz")
    ensures !Trips(x, "xavfsiz") && Trips(x, "xavfsiz yuk")
  {
    StripSpaced("xavfsiz");
    StripSpaced("xavfsiz yuk");
    assert Violations(x, "xavfsiz") == [TooShort, ForbiddenClearance];
    assert Violations(x, "xavfsiz yuk") == [ForbiddenClearance];
  }

  // ---------------------------------------------------------------------- texts

  function TextIn(fields: map<Field, string>, f: Field): string { if f in fields then Strip(fields[f]) else "" }

  /** What a pass says in a text field, "" when it leaves the field out. */
  function TextOf(x: Env, f: Field): string -> string { (raw: string) => TextIn(Parsed(x.upper, raw), f) }

  function NonEmpty(): string -> bool { (t: string) => t != "" }

  function SameText(lower: string -> string, t: string): string -> bool { (u: string) => lower(u) == lower(t) }

  function Length(): string -> real { (t: string) => |t| as real }

  function Support(lower: string -> string, texts: seq<string>, t: string): nat { |Filter(texts, SameText(lower, t))| }

  /** More support, or as much and more characters. */
  predicate Beats(lower: string -> string, texts: seq<string>, t: string, u: string) {
    var a, b := Support(lower, texts, t), Support(lower, texts, u);
    a > b || (a == b && |t| > |u|)
  }

  /** The first of the texts that no later one beats. */
  function Pick(lower: string -> string, all: seq<string>, texts: seq<string>): string {
    if texts == [] then ""
    else
      var best, last := Pick(lower, all, texts[..|texts| - 1]), texts[|texts| - 1];
      if |texts| == 1 || Beats(lower, all, last, best) then last else best
  }

  /** `_vote_text`. */
  function VoteText(lower: string -> string, values: seq<string>): string {
    var cleaned := Filter(values, NonEmpty());
    Pick(lower, cleaned, cleaned)
  }

  lemma Overtakes(lower: string -> string, all: seq<string>, a: string, b: string, c: string)
    requires Beats(lower, all, a, b) && !Beats(lower, all, c, b)
    ensures Beats(lower, all, a, c) && !Beats(lower, all, c, a)
  {
  }

  /** Position `k` holds the first of the best texts. */
  ghost predicate FirstBest(lower: string -> string, all: seq<string>, texts: seq<string>, k: nat) {
    && k < |texts|
    && (forall j :: 0 <= j < k ==> Beats(lower, all, texts[k], texts[j]))
    && (forall j :: 0 <= j < |texts| ==> !Beats(lower, all, texts[j], texts[k]))
  }

  lemma NextBest(lower: string -> string, all: seq<string>, texts: seq<string>, last: string, k: nat)
    requires FirstBest(lower, all, texts, k)
    ensures FirstBest(lower, all, texts + [last], if Beats(lower, all, last, texts[k]) then |texts| else k)
  {
    var more := texts + [last];
    if Beats(lower, all, last, texts[k]) {
      forall j | 0 <= j < |texts| ensures Beats(lower, all, last, more[j]) && !Beats(lower, all, more[j], last) {
        Overtakes(lower, all, last, texts[k], texts[j]);
      }
    } else {
      assert forall j :: 0 <= j < |texts| ==> more[j] == texts[j];
    }
  }

  /** The pick beats everything before it and is beaten by nothing. */
  lemma {:induction false} PickIsFirstBest(lower: string -> string, all: seq<string>, texts: seq<string>) returns (k: nat)
    requires texts != []
    ensures FirstBest(lower, all, texts, k) && Pick(lower, all, texts) == texts[k]
  {
    var n := |texts| - 1;
    if n == 0 {
      k := 0;
    } else {
      var front, last := texts[..n], texts[n];
      k := PickIsFirstBest(lower, all, front);
      NextBest(lower, all, front, last, k);
      assert texts == front + [last];
      k := if Beats(lower, all, last, front[k]) then n else k;
    }
  }

  /** The winning text was given by some pass, no text has more support, and none with as
      much support is longer; there is no winner exactly when every pass left it out. */
  lemma VoteTextIsMode(lower: string -> string, values: seq<string>)
    ensures var w, cleaned := VoteText(lower, values), Filter(values, NonEmpty());
            && (w == "" <==> forall v :: v in values ==> v == "")
            && (w != "" ==> w in values && forall v :: v in values && v != "" ==>
                  Support(lower, cleaned, v) < Support(lower, cleaned, w)
                  || (Support(lower, cleaned, v) == Support(lower, cleaned, w) && |v| <= |w|))
  {
    var cleaned := Filter(values, NonEmpty());
    forall v | v in values ensures v in cleaned <==> v != "" {
      FilterMember(values, NonEmpty(), v);
    }
    if cleaned != [] {
      var k := PickIsFirstBest(lower, cleaned, cleaned);
      FilterMember(values, NonEmpty(), cleaned[k]);
      forall v | v in values && v != "" ensures !Beats(lower, cleaned, v, cleaned[k]) {
        var j :| 0 <= j < |cleaned| && cleaned[j] == v;
      }
    }
  }

  function Or(t: string, fallback: string): string { if t == "" then fallback else t }

  function FirstClean(x: Env, texts: seq<string>): string {
    if texts == [] then "" else if TextClean(x, texts[0]) then texts[0] else FirstClean(x, texts[1..])
  }

  function Stripper(): string -> string { (t: string) => Strip(t) }

  function Descriptions(x: Env, raws: seq<string>): seq<string> {
    SortDesc(Filter(Map(raws, TextOf(x, Tavsif)), NonEmpty()), Length())
  }

  function WholeAnswers(raws: seq<string>): seq<string> { Map(SortDesc(raws, Length()), Stripper()) }

  /** The longest clean description, else the longest clean answer, else the fallback. */
  function SummaryOf(x: Env, raws: seq<string>): string {
    var described := FirstClean(x, Descriptions(x, raws));
    Or(if described != "" then described else FirstClean(x, WholeAnswers(raws)), x.noSummary)
  }

  function Chosen(x: Env, raws: seq<string>, f: Field): string {
    Or(VoteText(x.lower, Map(raws, TextOf(x, f))), x.noText)
  }

  lemma {:induction false} FirstCleanIsClean(x: Env, texts: seq<string>)
    ensures var t := FirstClean(x, texts); t != "" ==> t in texts && TextClean(x, t)
    ensures FirstClean(x, texts) == "" ==> forall t :: t in texts && t != "" ==> !TextClean(x, t)
  {
    if texts != [] && !TextClean(x, texts[0]) {
      FirstCleanIsClean(x, texts[1..]);
    }
  }

  /** The chosen summary never trips the guard; only the voted cargo and wagon can. */
  lemma SummaryIsClean(x: Env, raws: seq<string>)
    requires !Trips(x, x.noSummary)
    ensures !Trips(x, SummaryOf(x, raws))
  {
    FirstCleanIsClean(x, Descriptions(x, raws));
    FirstCleanIsClean(x, WholeAnswers(raws));
  }

  /** The first clean text, as a position. */
  lemma {:induction false} FirstCleanAt(x: Env, texts: seq<string>) returns (k: nat)
    ensures FirstClean(x, texts) == "" ==> k == |texts|
    ensures FirstClean(x, texts) != "" ==> k < |texts| && TextClean(x, texts[k]) && FirstClean(x, texts) == texts[k]
    ensures k <= |texts| && forall i :: 0 <= i < k ==> !TextClean(x, texts[i])
  {
    if texts == [] {
      k := 0;
    } else if TextClean(x, texts[0]) {
      CleanIsSomething(x, texts[0]);
      k := 0;
    } else {
      k := FirstCleanAt(x, texts[1..]);
      k := k + 1;
    }
  }

  lemma CleanIsSomething(x: Env, text: string)
    requires TextClean(x, text)
    ensures text != ""
  {
  }

  /** The pass gives a description that is clean. */
  predicate Describes(x: Env, raw: string) { TextClean(x, TextOf(x, Tavsif)(raw)) }

  lemma {:induction false} MapMember<T, U>(s: seq<T>, f: T -> U, t: U)
    ensures t in Map(s, f) <==> exists x :: x in s && f(x) == t
  {
    forall i | 0 <= i < |s| ensures Map(s, f)[i] == f(s[i]) {
      MapAt(s, f, i);
    }
    if x :| x in s && f(x) == t {
      var i :| 0 <= i < |s| && s[i] == x;
      assert Map(s, f)[i] == t;
    }
  }

  lemma DescriptionsAre(x: Env, raws: seq<string>, say: string -> string, t: string)
    requires t != "" && say == TextOf(x, Tavsif)
    ensures t in Descriptions(x, raws) <==> exists r :: r in raws && say(r) == t
  {
    var said := Map(raws, say);
    SortDescIsSort(Filter(said, NonEmpty()), Length());
    SameElements(SortDesc(Filter(said, NonEmpty()), Length()), Filter(said, NonEmpty()), t);
    FilterMember(said, NonEmpty(), t);
    MapMember(raws, say, t);
  }

  lemma SortedByLength(s: seq<string>, i: nat, j: nat)
    requires i <= j < |SortDesc(s, Length())|
    ensures |SortDesc(s, Length())[j]| <= |SortDesc(s, Length())[i]|
  {
    SortDescIsSort(s, Length());
    var r := SortDesc(s, Length());
    assert i < j ==> Length()(r[i]) >= Length()(r[j]);
  }

  /** Some pass gives this description, it is clean, and none that is clean is longer. */
  ghost predicate LongestDescription(x: Env, raws: seq<string>, t: string) {
    && (exists r :: r in raws && Describes(x, r) && t == TextOf(x, Tavsif)(r))
    && (forall r :: r in raws && Describes(x, r) ==> |TextOf(x, Tavsif)(r)| <= |t|)
  }

  /** This is, stripped, the answer of some pass, it is clean, and none that is clean when
      stripped comes from a longer answer. */
  ghost predicate LongestAnswer(x: Env, raws: seq<string>, t: string) {
    exists r :: r in raws && TextClean(x, Strip(r)) && t == Strip(r)
                && forall q :: q in raws && TextClean(x, Strip(q)) ==> |q| <= |r|
  }

  ghost predicate SomeDescription(x: Env, raws: seq<string>) { exists r :: r in raws && Describes(x, r) }

  ghost predicate SomeAnswer(x: Env, raws: seq<string>) { exists r :: r in raws && TextClean(x, Strip(r)) }

  lemma DescriptionChosen(x: Env, raws: seq<string>)
    ensures var t := FirstClean(x, Descriptions(x, raws));
            if SomeDescription(x, raws) then t != "" && LongestDescription(x, raws, t) else t == ""
  {
    var texts, say := Descriptions(x, raws), TextOf(x, Tavsif);
    var k := FirstCleanAt(x, texts);
    if k < |texts| {
      CleanIsSomething(x, texts[k]);
      DescriptionsAre(x, raws, say, texts[k]);
    }
    forall r | r in raws && Describes(x, r)
      ensures k < |texts| && |say(r)| <= |texts[k]|
    {
      CleanIsSomething(x, say(r));
      DescriptionsAre(x, raws, say, say(r));
      var j :| 0 <= j < |texts| && texts[j] == say(r);
      SortedByLength(Filter(Map(raws, say), NonEmpty()), k, j);
    }
  }

  lemma SameAnswers(raws: seq<string>, r: string)
    ensures r in SortDesc(raws, Length()) <==> r in raws
  {
    SortDescIsSort(raws, Length());
    SameElements(SortDesc(raws, Length()), raws, r);
  }

  lemma AnswerChosen(x: Env, raws: seq<string>)
    ensures var t := FirstClean(x, WholeAnswers(raws));
            if SomeAnswer(x, raws) then t != "" && LongestAnswer(x, raws, t) else t == ""
  {
    var sorted, texts := SortDesc(raws, Length()), WholeAnswers(raws);
    var k := FirstCleanAt(x, texts);
    forall i | 0 <= i < |sorted| ensures texts[i] == Strip(sorted[i]) {
      MapAt(sorted, Stripper(), i);
    }
    forall q | q in raws && TextClean(x, Strip(q)) ensures k < |texts| && |q| <= |sorted[k]| {
      SameAnswers(raws, q);
      var j :| 0 <= j < |sorted| && sorted[j] == q;
      SortedByLength(raws, k, j);
    }
    if k < |texts| {
      SameAnswers(raws, sorted[k]);
      CleanIsSomething(x, texts[k]);
    }
  }

  /** Which text is shown as the summary: a longest clean description; without one the whole
      answer, stripped, of a longest pass that is clean so; without that the fixed text. */
  lemma SummaryChosen(x: Env, raws: seq<string>)
    ensures SomeDescription(x, raws) ==> LongestDescription(x, raws, SummaryOf(x, raws))
    ensures !SomeDescription(x, raws) && SomeAnswer(x, raws) ==> LongestAnswer(x, raws, SummaryOf(x, raws))
    ensures !SomeDescription(x, raws) && !SomeAnswer(x, raws) ==> SummaryOf(x, raws) == x.noSummary
  {
    DescriptionChosen(x, raws);
    AnswerChosen(x, raws);
  }

  // ------------------------------------------------------------------ the verdict

  predicate Tripped(x: Env, raws: seq<string>) {
    || Trips(x, SummaryOf(x, raws))
    || Trips(x, Chosen(x, raws, AsosiyYuk))
    || Trips(x, Chosen(x, raws, VagonTuri))
  }

  function EscalateFlag(f: Flag): Flag { if f.No? then Suspect else f }

  function Escalate(f: Flags): Flags {
    Flags(EscalateFlag(f.narcotics), EscalateFlag(f.weapon), EscalateFlag(f.tobacco), EscalateFlag(f.other))
  }

  function FlagsOf(x: Env, raws: seq<string>): Flags {
    if Tripped(x, raws) then Escalate(Votes(x, raws)) else Votes(x, raws)
  }

  /** Every pass answered this flag. */
  predicate Answered(x: Env, raws: seq<string>, f: Field) { forall r :: r in raws ==> f in Parsed(x.upper, r) }

  predicate Complete(x: Env, raws: seq<string>) {
    Answered(x, raws, Qoradori) && Answered(x, raws, Qurol) && Answered(x, raws, Tamaki) && Answered(x, raws, Boshqa)
  }

  /** What is returned once the votes, the texts and the guard are known. */
  function Verdict(x: Env, tripped: bool, complete: bool, votes: Flags, wagon: string, cargo: string, summary: string): ScreenResult {
    if tripped
    then ScreenResult(false, x.noText, x.noText, Escalate(votes), RiskOf(Escalate(votes)), x.noSummary)
    else ScreenResult(complete, wagon, cargo, votes, RiskOf(votes), summary)
  }

  /** `_aggregate`. */
  function Aggregated(x: Env, raws: seq<string>): ScreenResult {
    Verdict(x, Tripped(x, raws), Complete(x, raws), Votes(x, raws),
            Chosen(x, raws, VagonTuri), Chosen(x, raws, AsosiyYuk), SummaryOf(x, raws))
  }

  predicate SaidNo(x: Env, raws: seq<string>, f: Field) {
    2 * |Filter(raws, Denies(x, f))| > |raws|
  }

  /** The pass answered this flag, and its answer counts as YO'Q. */
  function Denies(x: Env, f: Field): string -> bool {
    (raw: string) => var d := Parsed(x.upper, raw); f in d && NormalizeFlag(x.upper(Strip(d[f]))).No?
  }

  lemma {:induction false} DenialsAreNoVotes(x: Env, raws: seq<string>, f: Field)
    ensures |Filter(raws, Denies(x, f))| == Count(Map(raws, AnswerTo(x, f)), No)
  {
    if raws != [] {
      var front, last := raws[..|raws| - 1], raws[|raws| - 1];
      DenialsAreNoVotes(x, front, f);
      FilterSnoc(Map(front, AnswerTo(x, f)), AnswerTo(x, f)(last), Is(No));
    }
  }

  lemma NoMeansMajority(x: Env, raws: seq<string>, f: Field)
    ensures VoteOn(x, raws, f) == No <==> SaidNo(x, raws, f)
  {
    DenialsAreNoVotes(x, raws, f);
    VoteIsMajority(Map(raws, AnswerTo(x, f)), No);
  }

  lemma RiskOfVerdict(x: Env, raws: seq<string>)
    ensures Aggregated(x, raws).flags == FlagsOf(x, raws)
    ensures Aggregated(x, raws).risk == RiskOf(Aggregated(x, raws).flags)
  {
  }

  lemma EscalationOf(f: Flags)
    ensures FlagsUpTo(f, Escalate(f)) && RiskOf(Escalate(f)).Level() >= 2
    ensures RiskOf(f).Level() <= RiskOf(Escalate(f)).Level()
    ensures RiskOf(f) == Clear <==> f.narcotics.No? && f.weapon.No? && f.tobacco.No? && f.other.No?
  {
  }

  /** The verdict is `clear` exactly when on each of the four flags a strict majority of the
      answering passes said YO'Q and the guard did not trip. */
  lemma ClearExactlyWhen(x: Env, raws: seq<string>)
    ensures Aggregated(x, raws).risk == Clear <==>
              && !Tripped(x, raws)
              && SaidNo(x, raws, Qoradori) && SaidNo(x, raws, Qurol) && SaidNo(x, raws, Tamaki) && SaidNo(x, raws, Boshqa)
  {
    RiskOfVerdict(x, raws);
    ClearVotes(x, raws);
    EscalationOf(Votes(x, raws));
  }

  lemma ClearVotes(x: Env, raws: seq<string>)
    ensures RiskOf(Votes(x, raws)) == Clear <==>
              SaidNo(x, raws, Qoradori) && SaidNo(x, raws, Qurol) && SaidNo(x, raws, Tamaki) && SaidNo(x, raws, Boshqa)
  {
    NoMeansMajority(x, raws, Qoradori);
    NoMeansMajority(x, raws, Qurol);
    NoMeansMajority(x, raws, Tamaki);
    NoMeansMajority(x, raws, Boshqa);
    EscalationOf(Votes(x, raws));
  }

  /** A guard trip lowers neither a flag nor the risk band, and rules `clear` out. */
  lemma TripEscalates(x: Env, raws: seq<string>)
    ensures FlagsUpTo(Votes(x, raws), FlagsOf(x, raws))
    ensures RiskOf(Votes(x, raws)).Level() <= Aggregated(x, raws).risk.Level()
    ensures Tripped(x, raws) ==> Aggregated(x, raws).risk.Level() >= 2
  {
    RiskOfVerdict(x, raws);
    EscalationOf(Votes(x, raws));
  }

  lemma VerdictTexts(x: Env, tripped: bool, complete: bool, votes: Flags, wagon: string, cargo: string, summary: string)
    ensures var r := Verdict(x, tripped, complete, votes, wagon, cargo, summary);
            if tripped
            then r.wagon == x.noText && r.cargo == x.noText && r.summary == x.noSummary && !r.ok
            else r.wagon == wagon && r.cargo == cargo && r.summary == summary && (r.ok <==> complete)
  {
  }

  lemma CompleteMeans(x: Env, raws: seq<string>)
    ensures Complete(x, raws) <==>
              forall raw :: raw in raws ==>
                && Qoradori in Parsed(x.upper, raw) && Qurol in Parsed(x.upper, raw)
                && Tamaki in Parsed(x.upper, raw) && Boshqa in Parsed(x.upper, raw)
  {
  }

  /** What is returned, field by field.  After a guard trip the fixed texts stand in for all
      three and the result is not ok; otherwise each text is the voted one of its own field, and
      the result is ok exactly when every pass answered all four flags. */
  lemma ReturnedTexts(x: Env, raws: seq<string>)
    ensures var r := Aggregated(x, raws);
            var wagon := Or(VoteText(x.lower, Map(raws, TextOf(x, VagonTuri))), x.noText);
            var cargo := Or(VoteText(x.lower, Map(raws, TextOf(x, AsosiyYuk))), x.noText);
            var summary := SummaryOf(x, raws);
            if Trips(x, summary) || Trips(x, cargo) || Trips(x, wagon)
            then r.wagon == x.noText && r.cargo == x.noText && r.summary == x.noSummary && !r.ok
            else && r.wagon == wagon && r.cargo == cargo && r.summary == summary
                 && (r.ok <==> forall raw :: raw in raws ==>
                       && Qoradori in Parsed(x.upper, raw) && Qurol in Parsed(x.upper, raw)
                       && Tamaki in Parsed(x.upper, raw) && Boshqa in Parsed(x.upper, raw))
  {
    CompleteMeans(x, raws);
    VerdictTexts(x, Tripped(x, raws), Complete(x, raws), Votes(x, raws),
                 Chosen(x, raws, VagonTuri), Chosen(x, raws, AsosiyYuk), SummaryOf(x, raws));
  }

  /** Nothing that trips the guard is ever returned. */
  lemma ReturnedTextsAreClean(x: Env, raws: seq<string>)
    requires !Trips(x, x.noSummary) && !Trips(x, x.noText)
    ensures var r := Aggregated(x, raws); !Trips(x, r.summary) && !Trips(x, r.cargo) && !Trips(x, r.wagon)
  {
    ReturnedTexts(x, raws);
  }

  /** The pass raised an alarm on this flag. */
  function Alarms(x: Env, f: Field): string -> bool {
    (raw: string) => var d := Parsed(x.upper, raw); f in d && NormalizeFlag(x.upper(Strip(d[f]))).Yes?
  }

  lemma {:induction false} AlarmsAreYesVotes(x: Env, raws: seq<string>, f: Field)
    ensures |Filter(raws, Alarms(x, f))| == Count(Map(raws, AnswerTo(x, f)), Yes)
  {
    if raws != [] {
      var front, last := raws[..|raws| - 1], raws[|raws| - 1];
      AlarmsAreYesVotes(x, front, f);
      FilterSnoc(Map(front, AnswerTo(x, f)), AnswerTo(x, f)(last), Is(Yes));
    }
  }

  lemma YesMeansMajority(x: Env, raws: seq<string>, f: Field)
    ensures VoteOn(x, raws, f) == Yes <==> 2 * |Filter(raws, Alarms(x, f))| > |raws|
  {
    AlarmsAreYesVotes(x, raws, f);
    VoteIsMajority(Map(raws, AnswerTo(x, f)), Yes);
  }

  /** A flag of the result follows the answers to its own question. */
  ghost predicate FlagFollows(x: Env, raws: seq<string>, tripped: bool, flag: Flag, f: Field) {
    && (flag.Yes? <==> 2 * |Filter(raws, Alarms(x, f))| > |raws|)
    && (flag.No? <==> 2 * |Filter(raws, Denies(x, f))| > |raws| && !tripped)
  }

  lemma FlagOfField(x: Env, raws: seq<string>, f: Field)
    ensures var vote := VoteOn(x, raws, f);
            FlagFollows(x, raws, false, vote, f) && FlagFollows(x, raws, true, EscalateFlag(vote), f)
  {
    YesMeansMajority(x, raws, f);
    NoMeansMajority(x, raws, f);
  }

  /** Narcotics follow QORADORI, weapons QUROL, tobacco TAMAKI, the rest BOSHQA: an alarm of a
      strict majority raises the flag, guard trip or not, and only a strict majority of YO'Q
      without a guard trip clears it. */
  lemma FlagsByField(x: Env, raws: seq<string>)
    ensures var flags, tripped := Aggregated(x, raws).flags, Tripped(x, raws);
            && FlagFollows(x, raws, tripped, flags.narcotics, Qoradori) && FlagFollows(x, raws, tripped, flags.weapon, Qurol)
            && FlagFollows(x, raws, tripped, flags.tobacco, Tamaki) && FlagFollows(x, raws, tripped, flags.other, Boshqa)
  {
    FlagOfField(x, raws, Qoradori);
    FlagOfField(x, raws, Qurol);
    FlagOfField(x, raws, Tamaki);
    FlagOfField(x, raws, Boshqa);
    RiskOfVerdict(x, raws);
  }

  /** The risk band is high exactly when a flag is raised, clear exactly when all are cleared,
      and medium otherwise. */
  lemma RiskByFlags(f: Flags)
    ensures RiskOf(f) == High <==> f.narcotics.Yes? || f.weapon.Yes? || f.tobacco.Yes? || f.other.Yes?
    ensures RiskOf(f) == Clear <==> f.narcotics.No? && f.weapon.No? && f.tobacco.No? && f.other.No?
    ensures RiskOf(f) == Medium <==> RiskOf(f) != High && RiskOf(f) != Clear
  {
  }

  lemma RiskOfResult(x: Env, raws: seq<string>)
    ensures var r := Aggregated(x, raws);
            && (r.risk.High? <==> r.flags.narcotics.Yes? || r.flags.weapon.Yes? || r.flags.tobacco.Yes? || r.flags.other.Yes?)
            && (r.risk.Clear? <==> r.flags.narcotics.No? && r.flags.weapon.No? && r.flags.tobacco.No? && r.flags.other.No?)
            && (r.risk.Medium? <==> !r.risk.High? && !r.risk.Clear?)
  {
    RiskOfVerdict(x, raws);
    RiskByFlags(Aggregated(x, raws).flags);
  }

  predicate IsFlag(f: Field) { f.Qoradori? || f.Qurol? || f.Tamaki? || f.Boshqa? }

  /** Pass by pass the same wagon and cargo, and no lower answer on any flag.  The answers
      themselves, their descriptions included, may be any texts that parse so. */
  ghost predicate AnswersRaised(x: Env, a: seq<string>, b: seq<string>) {
    |a| == |b| && forall i :: 0 <= i < |a| ==> AnswerRaised(x, a[i], b[i])
  }

  ghost predicate AnswerRaised(x: Env, r: string, s: string) {
    && TextOf(x, VagonTuri)(r) == TextOf(x, VagonTuri)(s)
    && TextOf(x, AsosiyYuk)(r) == TextOf(x, AsosiyYuk)(s)
    && forall f :: IsFlag(f) ==> AnswerTo(x, f)(r).Rank() <= AnswerTo(x, f)(s).Rank()
  }

  lemma {:induction false} SameTexts(x: Env, a: seq<string>, b: seq<string>, f: Field)
    requires AnswersRaised(x, a, b) && (f.VagonTuri? || f.AsosiyYuk?)
    ensures Map(a, TextOf(x, f)) == Map(b, TextOf(x, f))
  {
    if a != [] {
      SameTexts(x, a[..|a| - 1], b[..|b| - 1], f);
      assert AnswerRaised(x, a[|a| - 1], b[|b| - 1]);
    }
  }

  lemma RaisedVotes(x: Env, a: seq<string>, b: seq<string>, f: Field)
    requires AnswersRaised(x, a, b) && IsFlag(f)
    ensures VoteOn(x, a, f).Rank() <= VoteOn(x, b, f).Rank()
  {
    var u, v := Map(a, AnswerTo(x, f)), Map(b, AnswerTo(x, f));
    forall i | 0 <= i < |a| ensures u[i].Rank() <= v[i].Rank() {
      MapAt(a, AnswerTo(x, f), i);
      MapAt(b, AnswerTo(x, f), i);
      assert AnswerRaised(x, a[i], b[i]);
    }
    VoteIsMonotone(u, v);
  }

  lemma RaisedFlags(x: Env, a: seq<string>, b: seq<string>)
    requires AnswersRaised(x, a, b)
    ensures FlagsUpTo(Votes(x, a), Votes(x, b))
  {
    RaisedVotes(x, a, b, Qoradori);
    RaisedVotes(x, a, b, Qurol);
    RaisedVotes(x, a, b, Tamaki);
    RaisedVotes(x, a, b, Boshqa);
  }

  lemma RaisedTrips(x: Env, a: seq<string>, b: seq<string>)
    requires AnswersRaised(x, a, b) && !Trips(x, x.noSummary)
    ensures Tripped(x, a) == Tripped(x, b)
  {
    SummaryIsClean(x, a);
    SummaryIsClean(x, b);
    SameTexts(x, a, b, VagonTuri);
    SameTexts(x, a, b, AsosiyYuk);
  }

  lemma EscalationIsMonotone(a: Flags, b: Flags)
    requires FlagsUpTo(a, b)
    ensures FlagsUpTo(Escalate(a), Escalate(b))
    ensures RiskOf(a).Level() <= RiskOf(b).Level() && RiskOf(Escalate(a)).Level() <= RiskOf(Escalate(b)).Level()
  {
    RiskIsMonotone(a, b);
    RiskIsMonotone(Escalate(a), Escalate(b));
  }

  /** Raising the answers of any passes on any flags lowers no flag of the verdict and not
      its risk band, guard included. */
  lemma VerdictIsMonotone(x: Env, a: seq<string>, b: seq<string>)
    requires AnswersRaised(x, a, b) && !Trips(x, x.noSummary)
    ensures FlagsUpTo(Aggregated(x, a).flags, Aggregated(x, b).flags)
    ensures Aggregated(x, a).risk.Level() <= Aggregated(x, b).risk.Level()
  {
    RaisedTrips(x, a, b);
    RaisedFlags(x, a, b);
    EscalationIsMonotone(Votes(x, a), Votes(x, b));
    RiskOfVerdict(x, a);
    RiskOfVerdict(x, b);
  }

  // ------------------------------------------------------------------- the method

  /** The same on a parsed answer. */
  function AnswerOf(x: Env, f: Field): map<Field, string> -> Flag { (d: map<Field, string>) => AnswerIn(x, d, f) }

  predicate AllHave(parsed: seq<map<Field, string>>, f: Field) { forall i :: 0 <= i < |parsed| ==> f in parsed[i] }

  lemma AnswerOfParsed(x: Env, raw: string, f: Field)
    ensures AnswerOf(x, f)(ParseOf(x)(raw)) == AnswerTo(x, f)(raw)
  {
  }

  lemma ParsedAnswers(x: Env, raws: seq<string>, f: Field)
    ensures Map(Map(raws, ParseOf(x)), AnswerOf(x, f)) == Map(raws, AnswerTo(x, f))
    ensures AllHave(Map(raws, ParseOf(x)), f) <==> Answered(x, raws, f)
  {
    ParsedMap(x, raws, f);
    ParsedHave(x, raws, f);
  }

  lemma ParsedMap(x: Env, raws: seq<string>, f: Field)
    ensures Map(Map(raws, ParseOf(x)), AnswerOf(x, f)) == Map(raws, AnswerTo(x, f))
  {
    var parse, answer, answerTo := ParseOf(x), AnswerOf(x, f), AnswerTo(x, f);
    forall r | r in raws ensures answer(parse(r)) == answerTo(r) {
      AnswerOfParsed(x, r, f);
    }
    MapMap(raws, parse, answer, answerTo);
  }

  lemma ParsedHave(x: Env, raws: seq<string>, f: Field)
    ensures AllHave(Map(raws, ParseOf(x)), f) <==> Answered(x, raws, f)
  {
    forall i | 0 <= i < |raws| ensures Map(raws, ParseOf(x))[i] == Parsed(x.upper, raws[i]) {
      MapAt(raws, ParseOf(x), i);
    }
  }

  lemma AllHaveSnoc(parsed: seq<map<Field, string>>, d: map<Field, string>, f: Field)
    ensures AllHave(parsed + [d], f) <==> AllHave(parsed, f) && f in d
  {
    var more := parsed + [d];
    assert more[|parsed|] == d;
    assert forall i :: 0 <= i < |parsed| ==> more[i] == parsed[i];
  }

  /** The answers on one flag: the inner loop of `_aggregate`. */
  method CollectAnswers(x: Env, parsed: seq<map<Field, string>>, f: Field) returns (ranks: seq<Flag>, missing: bool)
    ensures ranks == Map(parsed, AnswerOf(x, f)) && missing == !AllHave(parsed, f)
  {
    ranks, missing := [], false;
    for i := 0 to |parsed|
      invariant ranks == Map(parsed[..i], AnswerOf(x, f))
      invariant missing == !AllHave(parsed[..i], f)
    {
      assert parsed[..i + 1] == parsed[..i] + [parsed[i]];
      MapSnoc(parsed[..i], parsed[i], AnswerOf(x, f));
      AllHaveSnoc(parsed[..i], parsed[i], f);
      if f in parsed[i] {
        ranks := ranks + [NormalizeFlag(x.upper(Strip(parsed[i][f])))];
      } else {
        missing := true;
        ranks := ranks + [Suspect];
      }
    }
    assert parsed[..|parsed|] == parsed;
  }

  method CountAnswers(ranks: seq<Flag>, y: Flag) returns (n: nat)
    ensures n == Count(ranks, y)
  {
    n := 0;
    for i := 0 to |ranks|
      invariant n == Count(ranks[..i], y)
    {
      assert ranks[..i + 1] == ranks[..i] + [ranks[i]];
      FilterSnoc(ranks[..i], ranks[i], Is(y));
      n := n + if ranks[i] == y then 1 else 0;
    }
    assert ranks[..|ranks|] == ranks;
  }

  /** The vote on one flag. */
  method VoteFlag(x: Env, parsed: seq<map<Field, string>>, f: Field) returns (flag: Flag, missing: bool)
    ensures flag == Voted(Map(parsed, AnswerOf(x, f))) && missing == !AllHave(parsed, f)
  {
    var ranks;
    ranks, missing := CollectAnswers(x, parsed, f);
    var no := CountAnswers(ranks, No);
    var yes := CountAnswers(ranks, Yes);
    var need := Need(|parsed|);
    if yes >= need {
      flag := Yes;
    } else if no >= need {
      flag := No;
    } else {
      flag := Suspect;
    }
  }

  method ParseAll(x: Env, raws: seq<string>) returns (parsed: seq<map<Field, string>>)
    ensures parsed == Map(raws, ParseOf(x))
  {
    parsed := [];
    for i := 0 to |raws|
      invariant parsed == Map(raws[..i], ParseOf(x))
    {
      assert raws[..i + 1] == raws[..i] + [raws[i]];
      MapSnoc(raws[..i], raws[i], ParseOf(x));
      var fields := Parse(x.upper, raws[i]);
      parsed := parsed + [fields];
    }
    assert raws[..|raws|] == raws;
  }

  method VoteFlags(x: Env, raws: seq<string>) returns (flags: Flags, missing: bool)
    ensures flags == Votes(x, raws) && missing == !Complete(x, raws)
  {
    var parsed := ParseAll(x, raws);
    var narcotics, m1 := VoteFlag(x, parsed, Qoradori);
    var weapon, m2 := VoteFlag(x, parsed, Qurol);
    var tobacco, m3 := VoteFlag(x, parsed, Tamaki);
    var other, m4 := VoteFlag(x, parsed, Boshqa);
    ParsedAnswers(x, raws, Qoradori);
    ParsedAnswers(x, raws, Qurol);
    ParsedAnswers(x, raws, Tamaki);
    ParsedAnswers(x, raws, Boshqa);
    flags, missing := Flags(narcotics, weapon, tobacco, other), m1 || m2 || m3 || m4;
  }

  /** The first clean text of a list: the two summary loops. */
  method ChooseClean(x: Env, texts: seq<string>) returns (summary: string)
    ensures summary == FirstClean(x, texts)
  {
    summary := "";
    for i := 0 to |texts|
      invariant FirstClean(x, texts) == FirstClean(x, texts[i..])
    {
      if TextClean(x, texts[i]) {
        return texts[i];
      }
    }
  }

  method ChooseSummary(x: Env, raws: seq<string>) returns (summary: string)
    ensures summary == SummaryOf(x, raws)
  {
    summary := ChooseClean(x, Descriptions(x, raws));
    if summary == "" {
      summary := ChooseClean(x, WholeAnswers(raws));
    }
    summary := Or(summary, x.noSummary);
  }

  /** `_aggregate`. */
  method Aggregate(x: Env, raws: seq<string>) returns (r: ScreenResult)
    ensures r == Aggregated(x, raws)
  {
    var flags, missing := VoteFlags(x, raws);
    var wagon, cargo := Chosen(x, raws, VagonTuri), Chosen(x, raws, AsosiyYuk);
    var summary := ChooseSummary(x, raws);
    var tripped := GuardLoop(x, summary, cargo, wagon);
    r := Verdict(x, tripped, !missing, flags, wagon, cargo, summary);
  }

  /** The guard loop over the texts to be shown: it stops at the first that trips. */
  method GuardLoop(x: Env, summary: string, cargo: string, wagon: string) returns (tripped: bool)
    ensures tripped == (Trips(x, summary) || Trips(x, cargo) || Trips(x, wagon))
  {
    var texts := [summary, cargo, wagon];
    tripped := false;
    for i := 0 to 3
      invariant !tripped && forall j :: 0 <= j < i ==> !Trips(x, texts[j])
    {
      if Strip(texts[i]) == "" {
        continue;
      }
      var found := Violations(x, texts[i]);
      if found != [] {
        if found[0].TooLong? || found[0].TooShort? {
          continue;
        }
        return true;
      }
    }
    assert !Trips(x, texts[0]) && !Trips(x, texts[1]) && !Trips(x, texts[2]);
  }

  /** `screen_one`: passes that raised are dropped; when none answered the verdict is the
      fail-safe one, and the verdict is never `clear` without an answer. */
  method ScreenOne(x: Env, passes: seq<Option<string>>) returns (r: ScreenResult)
    ensures var raws := Answers(passes);
            r == if raws == [] then Failed(x) else Aggregated(x, raws)
    ensures r.risk.Clear? ==> exists i :: 0 <= i < |passes| && passes[i].Some?
    ensures !Trips(x, x.noSummary) && !Trips(x, x.noText) ==> !Trips(x, r.summary) && !Trips(x, r.cargo) && !Trips(x, r.wagon)
  {
    var raws := [];
    for i := 0 to |passes|
      invariant raws == Answers(passes[..i])
      invariant raws != [] ==> exists j :: 0 <= j < i && passes[j].Some?
    {
      assert passes[..i + 1][..i] == passes[..i];
      if passes[i].Some? {
        raws := raws + [passes[i].value];
      }
    }
    assert passes[..|passes|] == passes;
    if raws == [] {
      return Failed(x);
    }
    r := Aggregate(x, raws);
    if !Trips(x, x.noSummary) && !Trips(x, x.noText) {
      ReturnedTextsAreClean(x, raws);
    }
  }

  /** The fail-safe result. */
  function Failed(x: Env): ScreenResult {
    ScreenResult(false, x.noText, x.noText, Flags(Suspect, Suspect, Suspect, Suspect), Medium, x.noSummary)
  }

  function Answers(passes: seq<Option<string>>): seq<string> {
    if passes == [] then []
    else Answers(passes[..|passes| - 1])
         + match passes[|passes| - 1] case None => [] case Some(raw) => [raw]
  }
}
