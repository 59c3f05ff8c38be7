/** When the verdict depends on the order of the passes (vlm/screen.py, `_vote_text`,
    `_aggregate`): among the best texts of a field the first one is shown, and the guard
    judges what is shown. */
module ScreenOrder {
  import opened Common
  import opened ScreenText
  import opened Screening

  // ------------------------------------------------------------- the best texts

  /** No text of the list has more support, and none with as much is longer. */
  ghost predicate Best(lower: string -> string, values: seq<string>, v: string) {
    && v in values && v != ""
    && forall u :: u in values && u != "" ==> !Beats(lower, Filter(values, NonEmpty()), u, v)
  }

  lemma SupportPermutes(lower: string -> string, a: seq<string>, b: seq<string>, t: string)
    requires multiset(a) == multiset(b)
    ensures Support(lower, Filter(a, NonEmpty()), t) == Support(lower, Filter(b, NonEmpty()), t)
  {
    FilterCommutes(a, NonEmpty(), SameText(lower, t));
    FilterCommutes(b, NonEmpty(), SameText(lower, t));
    forall x ensures multiset(Filter(a, NonEmpty()))[x] == multiset(Filter(b, NonEmpty()))[x] {
      FilterMultiset(a, NonEmpty(), x);
      FilterMultiset(b, NonEmpty(), x);
    }
    FilterPermute(Filter(a, NonEmpty()), Filter(b, NonEmpty()), SameText(lower, t));
  }

  /** The best texts are those of the collection, in whatever order it comes. */
  lemma BestPermutes(lower: string -> string, a: seq<string>, b: seq<string>, v: string)
    requires multiset(a) == multiset(b) && Best(lower, a, v)
    ensures Best(lower, b, v)
  {
    SameElements(a, b, v);
    forall u | u in b && u != "" ensures !Beats(lower, Filter(b, NonEmpty()), u, v) {
      SameElements(a, b, u);
      SupportPermutes(lower, a, b, u);
      SupportPermutes(lower, a, b, v);
    }
  }

  /** The vote takes the first of the best texts. */
  lemma FirstBestWins(lower: string -> string, values: seq<string>, i: nat)
    requires i < |values| && Best(lower, values, values[i])
    requires forall j :: 0 <= j < i ==> !Best(lower, values, values[j])
    ensures VoteText(lower, values) == values[i]
  {
    var cleaned, here := Filter(values, NonEmpty()), |Filter(values[..i], NonEmpty())|;
    FilterAt(values, NonEmpty(), i);
    var k := PickIsFirstBest(lower, cleaned, cleaned);
    FilterMember(values, NonEmpty(), cleaned[k]);
    NothingBefore(lower, cleaned, k, here);
    if k < here {
      PickedIsBest(lower, values, k);
      EarlierKept(values, i, k);
    }
  }

  lemma NothingBefore(lower: string -> string, all: seq<string>, k: nat, here: nat)
    requires FirstBest(lower, all, all, k) && here < |all| && !Beats(lower, all, all[k], all[here])
    ensures k <= here
  {
  }

  lemma PickedIsBest(lower: string -> string, values: seq<string>, k: nat)
    requires var cleaned := Filter(values, NonEmpty()); FirstBest(lower, cleaned, cleaned, k)
    ensures Best(lower, values, Filter(values, NonEmpty())[k])
  {
    var cleaned := Filter(values, NonEmpty());
    FilterMember(values, NonEmpty(), cleaned[k]);
    forall u | u in values && u != "" ensures !Beats(lower, cleaned, u, cleaned[k]) {
      FilterMember(values, NonEmpty(), u);
      var j :| 0 <= j < |cleaned| && cleaned[j] == u;
    }
  }

  /** A kept element before the rank of position `i` stands before position `i`. */
  lemma EarlierKept(values: seq<string>, i: nat, k: nat)
    requires i < |values| && k < |Filter(values[..i], NonEmpty())|
    ensures k < |Filter(values, NonEmpty())|
    ensures exists j :: 0 <= j < i && values[j] == Filter(values, NonEmpty())[k]
  {
    FilterConcat(values[..i], values[i..], NonEmpty());
    assert values == values[..i] + values[i..];
    var kept := Filter(values[..i], NonEmpty());
    FilterMember(values[..i], NonEmpty(), kept[k]);
    var j :| 0 <= j < i && values[..i][j] == kept[k];
    assert values[j] == kept[k];
  }

  // --------------------------------------------------------------- per pass

  /** What a pass says of cargo and of wagon, which texts the guard rejects, and the text that
      is shown of a field nobody fills. */
  datatype Choice = Choice(lower: string -> string, cargo: string -> string, wagon: string -> string,
                           bad: string -> bool, fallback: string)

  function Shown(c: Choice, raws: seq<string>, say: string -> string): string {
    Or(VoteText(c.lower, Map(raws, say)), c.fallback)
  }

  predicate BadShown(c: Choice, raws: seq<string>) { c.bad(Shown(c, raws, c.cargo)) || c.bad(Shown(c, raws, c.wagon)) }

  /** No pass fills the field. */
  ghost predicate Silent(raws: seq<string>, say: string -> string) { forall r :: r in raws ==> say(r) == "" }

  /** The pass gives one of the best texts of the field. */
  ghost predicate Favourite(c: Choice, raws: seq<string>, say: string -> string, r: string) {
    Best(c.lower, Map(raws, say), say(r))
  }

  lemma FavouritePermutes(c: Choice, a: seq<string>, b: seq<string>, say: string -> string, r: string)
    requires multiset(a) == multiset(b)
    ensures Favourite(c, a, say, r) <==> Favourite(c, b, say, r)
  {
    MapPermute(a, b, say);
    if Favourite(c, a, say, r) {
      BestPermutes(c.lower, Map(a, say), Map(b, say), say(r));
    }
    if Favourite(c, b, say, r) {
      BestPermutes(c.lower, Map(b, say), Map(a, say), say(r));
    }
  }

  lemma SilentPermutes(a: seq<string>, b: seq<string>, say: string -> string)
    requires multiset(a) == multiset(b)
    ensures Silent(a, say) <==> Silent(b, say)
  {
    forall r ensures r in a <==> r in b {
      SameElements(a, b, r);
    }
  }

  /** The first pass with a best text has its text shown. */
  lemma ShownIsFirst(c: Choice, raws: seq<string>, say: string -> string, i: nat)
    requires i < |raws| && Favourite(c, raws, say, raws[i])
    requires forall j :: 0 <= j < i ==> !Favourite(c, raws, say, raws[j])
    ensures Shown(c, raws, say) == say(raws[i])
  {
    var values := Map(raws, say);
    forall j | 0 <= j <= i ensures values[j] == say(raws[j]) {
      MapAt(raws, say, j);
    }
    FirstBestWins(c.lower, values, i);
  }

  lemma SilentShowsFallback(c: Choice, raws: seq<string>, say: string -> string)
    requires Silent(raws, say)
    ensures Shown(c, raws, say) == c.fallback
  {
    var values := Map(raws, say);
    forall i | 0 <= i < |values| ensures values[i] == "" {
      MapAt(raws, say, i);
    }
    FilterNone(values, NonEmpty());
  }

  /** Some pass is the first one with a best text, unless no pass fills the field. */
  lemma SomeoneIsShown(c: Choice, raws: seq<string>, say: string -> string) returns (i: nat)
    requires !Silent(raws, say)
    ensures i < |raws| && Favourite(c, raws, say, raws[i])
    ensures forall j :: 0 <= j < i ==> !Favourite(c, raws, say, raws[j])
    ensures Shown(c, raws, say) == say(raws[i])
  {
    var values := Map(raws, say);
    var r :| r in raws && say(r) != "";
    var n :| 0 <= n < |raws| && raws[n] == r;
    MapAt(raws, say, n);
    assert values[n] in values;
    FilterMember(values, NonEmpty(), values[n]);
    var cleaned := Filter(values, NonEmpty());
    var k := PickIsFirstBest(c.lower, cleaned, cleaned);
    PickedIsBest(c.lower, values, k);
    var m :| 0 <= m < |values| && values[m] == cleaned[k];
    MapAt(raws, say, m);
    i := FirstFavourite(c, raws, say, m);
    ShownIsFirst(c, raws, say, i);
  }

  lemma {:induction false} FirstFavourite(c: Choice, raws: seq<string>, say: string -> string, m: nat) returns (i: nat)
    requires m < |raws| && Favourite(c, raws, say, raws[m])
    ensures i <= m && Favourite(c, raws, say, raws[i]) && forall j :: 0 <= j < i ==> !Favourite(c, raws, say, raws[j])
  {
    if earlier :| 0 <= earlier < m && Favourite(c, raws, say, raws[earlier]) {
      i := FirstFavourite(c, raws, say, earlier);
    } else {
      i := m;
    }
  }

  // --------------------------------------------------------------- the condition

  /** The pass gives a best text that the guard rejects. */
  ghost predicate Spoils(c: Choice, raws: seq<string>, say: string -> string, r: string) {
    Favourite(c, raws, say, r) && c.bad(say(r))
  }

  /** The pass gives a best text that the guard accepts, or nobody fills the field. */
  ghost predicate Settles(c: Choice, raws: seq<string>, say: string -> string, r: string) {
    Silent(raws, say) || (Favourite(c, raws, say, r) && !c.bad(say(r)))
  }

  /** Some best cargo or wagon text is rejected. */
  ghost predicate CanTrip(c: Choice, raws: seq<string>) {
    exists r :: r in raws && (Spoils(c, raws, c.cargo, r) || Spoils(c, raws, c.wagon, r))
  }

  /** A pass settles the cargo and a pass settles the wagon, and one of the two can go first
      because it does not spoil the other's field. */
  ghost predicate CanPass(c: Choice, raws: seq<string>) {
    exists p, q :: p in raws && q in raws && PassedBy(c, raws, p, q)
  }

  ghost predicate PassedBy(c: Choice, raws: seq<string>, p: string, q: string) {
    && Settles(c, raws, c.cargo, p) && Settles(c, raws, c.wagon, q)
    && (!Spoils(c, raws, c.wagon, p) || !Spoils(c, raws, c.cargo, q))
  }

  lemma SettlesPermutes(c: Choice, a: seq<string>, b: seq<string>, say: string -> string, r: string)
    requires multiset(a) == multiset(b)
    ensures Settles(c, a, say, r) <==> Settles(c, b, say, r)
    ensures Spoils(c, a, say, r) <==> Spoils(c, b, say, r)
  {
    FavouritePermutes(c, a, b, say, r);
    SilentPermutes(a, b, say);
  }

  lemma ShownSpoils(c: Choice, raws: seq<string>, say: string -> string) returns (r: string)
    requires !c.bad(c.fallback) && c.bad(Shown(c, raws, say))
    ensures r in raws && Spoils(c, raws, say, r)
  {
    if Silent(raws, say) {
      SilentShowsFallback(c, raws, say);
      r := "";
    } else {
      var i := SomeoneIsShown(c, raws, say);
      r := raws[i];
    }
  }

  /** What is rejected in one order could be rejected in any order of the same answers. */
  lemma TripMeansCanTrip(c: Choice, raws: seq<string>, order: seq<string>)
    requires !c.bad(c.fallback) && multiset(order) == multiset(raws) && BadShown(c, order)
    ensures CanTrip(c, raws)
  {
    var say := if c.bad(Shown(c, order, c.cargo)) then c.cargo else c.wagon;
    var r := ShownSpoils(c, order, say);
    SameElements(order, raws, r);
    SettlesPermutes(c, order, raws, say, r);
  }

  /** Who settles a field that is shown clean; nobody up to him spoils it. */
  lemma ShownSettles(c: Choice, raws: seq<string>, say: string -> string) returns (i: nat)
    requires raws != [] && !c.bad(Shown(c, raws, say))
    ensures i < |raws| && Settles(c, raws, say, raws[i])
    ensures forall j :: 0 <= j <= i ==> !Spoils(c, raws, say, raws[j])
  {
    if Silent(raws, say) {
      i := 0;
      SilentHasNoFavourite(c, raws, say, raws[0]);
    } else {
      i := SomeoneIsShown(c, raws, say);
      assert !c.bad(say(raws[i]));
      forall j | 0 <= j <= i ensures !Spoils(c, raws, say, raws[j]) {
        NotSpoilt(c, raws, say, raws[j]);
      }
    }
  }

  lemma NotSpoilt(c: Choice, raws: seq<string>, say: string -> string, r: string)
    requires !Favourite(c, raws, say, r) || !c.bad(say(r))
    ensures !Spoils(c, raws, say, r)
  {
  }

  lemma SilentHasNoFavourite(c: Choice, raws: seq<string>, say: string -> string, r: string)
    requires Silent(raws, say) && r in raws
    ensures !Favourite(c, raws, say, r)
  {
  }

  lemma PassMeansCanPass(c: Choice, raws: seq<string>, order: seq<string>)
    requires multiset(order) == multiset(raws) && order != [] && !BadShown(c, order)
    ensures CanPass(c, raws)
  {
    var i := ShownSettles(c, order, c.cargo);
    var j := ShownSettles(c, order, c.wagon);
    var p, q := order[i], order[j];
    SameElements(order, raws, p);
    SameElements(order, raws, q);
    SettlesPermutes(c, order, raws, c.cargo, p);
    SettlesPermutes(c, order, raws, c.wagon, q);
    SettlesPermutes(c, order, raws, c.wagon, p);
    SettlesPermutes(c, order, raws, c.cargo, q);
    assert i <= j ==> !Spoils(c, order, c.wagon, p);
    assert PassedBy(c, raws, p, q);
  }

  // --------------------------------------------------------------- two orders

  lemma MoveFirst(raws: seq<string>, r: string) returns (rest: seq<string>)
    requires r in raws
    ensures multiset([r] + rest) == multiset(raws)
  {
    var k :| 0 <= k < |raws| && raws[k] == r;
    rest := raws[..k] + raws[k + 1..];
    WithoutMultiset(raws, k);
    assert multiset([r] + rest) == multiset{r} + multiset(rest);
  }

  lemma OrderThatTrips(c: Choice, raws: seq<string>) returns (order: seq<string>)
    requires CanTrip(c, raws)
    ensures multiset(order) == multiset(raws) && BadShown(c, order)
  {
    var r :| r in raws && (Spoils(c, raws, c.cargo, r) || Spoils(c, raws, c.wagon, r));
    var rest := MoveFirst(raws, r);
    order := [r] + rest;
    var say := if Spoils(c, raws, c.cargo, r) then c.cargo else c.wagon;
    SettlesPermutes(c, raws, order, say, r);
    ShownIsFirst(c, order, say, 0);
  }

  /** A field that the pass in front does not spoil and the pass at `next` settles, where
      `next` is the first or second place, is shown clean. */
  lemma ShownClean(c: Choice, order: seq<string>, say: string -> string, next: nat)
    requires !c.bad(c.fallback) && next < |order| && next <= 1
    requires !Spoils(c, order, say, order[0]) && Settles(c, order, say, order[next])
    ensures !c.bad(Shown(c, order, say))
  {
    if Silent(order, say) {
      SilentShowsFallback(c, order, say);
    } else if Favourite(c, order, say, order[0]) {
      ShownIsFirst(c, order, say, 0);
    } else {
      ShownIsFirst(c, order, say, next);
    }
  }

  /** The passes in the given places. */
  lemma TwoInFront(raws: seq<string>, first: string, second: string) returns (order: seq<string>, next: nat)
    requires first in raws && second in raws
    ensures multiset(order) == multiset(raws) && next < |order| && next <= 1
    ensures order[0] == first && order[next] == second
  {
    var rest := MoveFirst(raws, first);
    order, next := [first] + rest, 0;
    if first != second {
      SecondRemains(raws, first, rest, second);
      var others := MoveFirst(rest, second);
      order, next := [first] + ([second] + others), 1;
      assert multiset(order) == multiset{first} + multiset([second] + others);
      assert multiset([first] + rest) == multiset{first} + multiset(rest);
    }
  }

  lemma SecondRemains(raws: seq<string>, first: string, rest: seq<string>, second: string)
    requires multiset([first] + rest) == multiset(raws) && second in raws && second != first
    ensures second in rest
  {
    assert second in multiset(raws);
    assert second in multiset([first] + rest);
    assert second in [first] + rest;
  }

  /** `first` settles one field, `second` the other, and `first` does not spoil it. */
  lemma PassingOrder(c: Choice, raws: seq<string>, say: string -> string, other: string -> string, first: string, second: string)
    returns (order: seq<string>)
    requires !c.bad(c.fallback) && first in raws && second in raws
    requires Settles(c, raws, say, first) && Settles(c, raws, other, second) && !Spoils(c, raws, other, first)
    ensures multiset(order) == multiset(raws)
    ensures !c.bad(Shown(c, order, say)) && !c.bad(Shown(c, order, other))
  {
    var next;
    order, next := TwoInFront(raws, first, second);
    SameElements(raws, order, first);
    SettlesPermutes(c, raws, order, say, first);
    SettlesPermutes(c, raws, order, other, second);
    SettlesPermutes(c, raws, order, other, first);
    if Silent(order, say) {
      SilentHasNoFavourite(c, order, say, first);
    }
    ShownClean(c, order, say, 0);
    ShownClean(c, order, other, next);
  }

  lemma OrderThatPasses(c: Choice, raws: seq<string>) returns (order: seq<string>)
    requires !c.bad(c.fallback) && CanPass(c, raws)
    ensures multiset(order) == multiset(raws) && !BadShown(c, order)
  {
    var p, q :| p in raws && q in raws && PassedBy(c, raws, p, q);
    if !Spoils(c, raws, c.wagon, p) {
      order := PassingOrder(c, raws, c.cargo, c.wagon, p, q);
    } else {
      order := PassingOrder(c, raws, c.wagon, c.cargo, q, p);
    }
  }

  /** Whether something is rejected is the same in every order if and only if no best text is
      rejected, or no passes can settle both fields. */
  lemma JudgementIgnoresOrder(c: Choice, raws: seq<string>)
    requires !c.bad(c.fallback)
    ensures (forall order :: multiset(order) == multiset(raws) ==> BadShown(c, order) == BadShown(c, raws)) <==>
              !CanTrip(c, raws) || !CanPass(c, raws)
  {
    if CanTrip(c, raws) && CanPass(c, raws) {
      var bad := OrderThatTrips(c, raws);
      var good := OrderThatPasses(c, raws);
    } else {
      forall order | multiset(order) == multiset(raws) ensures BadShown(c, order) == BadShown(c, raws) {
        SameJudgement(c, raws, order);
      }
    }
  }

  lemma SameJudgement(c: Choice, raws: seq<string>, order: seq<string>)
    requires !c.bad(c.fallback) && multiset(order) == multiset(raws) && (!CanTrip(c, raws) || !CanPass(c, raws))
    ensures BadShown(c, order) == BadShown(c, raws)
  {
    SameLength(order, raws);
    if raws == [] {
      assert order == raws;
    } else if BadShown(c, order) != BadShown(c, raws) {
      var bad, good := if BadShown(c, order) then order else raws, if BadShown(c, order) then raws else order;
      TripMeansCanTrip(c, raws, bad);
      PassMeansCanPass(c, raws, good);
    }
  }

  // ------------------------------------------------------------------- theorems

  function TripsIn(x: Env): string -> bool { (t: string) => Trips(x, t) }

  function ChoiceOf(x: Env): Choice {
    Choice(x.lower, TextOf(x, AsosiyYuk), TextOf(x, VagonTuri), TripsIn(x), x.noText)
  }

  /** The fixed texts are fit to be shown. */
  ghost predicate FallbacksClean(x: Env) { !Trips(x, x.noSummary) && !Trips(x, x.noText) }

  lemma TrippedByTexts(x: Env, raws: seq<string>)
    requires FallbacksClean(x)
    ensures Tripped(x, raws) <==> BadShown(ChoiceOf(x), raws)
  {
    SummaryIsClean(x, raws);
  }

  ghost predicate FlagsIgnoreOrder(x: Env, raws: seq<string>) {
    forall order :: multiset(order) == multiset(raws) ==> Aggregated(x, order).flags == Aggregated(x, raws).flags
  }

  lemma SameVotes(x: Env, a: seq<string>, b: seq<string>)
    requires multiset(a) == multiset(b)
    ensures Votes(x, a) == Votes(x, b)
  {
    VotesIgnoreOrder(x, a, b, Qoradori);
    VotesIgnoreOrder(x, a, b, Qurol);
    VotesIgnoreOrder(x, a, b, Tamaki);
    VotesIgnoreOrder(x, a, b, Boshqa);
  }

  /** Some flag has been voted YO'Q, so that a trip changes it. */
  predicate SomeNo(f: Flags) { f.narcotics.No? || f.weapon.No? || f.tobacco.No? || f.other.No? }

  lemma EscalationChanges(f: Flags)
    ensures Escalate(f) != f <==> SomeNo(f)
  {
  }

  lemma TwoOrdersDiffer(x: Env, one: seq<string>, two: seq<string>)
    requires FallbacksClean(x) && multiset(one) == multiset(two)
    ensures Aggregated(x, one).flags != Aggregated(x, two).flags <==>
              BadShown(ChoiceOf(x), one) != BadShown(ChoiceOf(x), two) && SomeNo(Votes(x, two))
  {
    SameVotes(x, one, two);
    TrippedByTexts(x, one);
    TrippedByTexts(x, two);
    RiskOfVerdict(x, one);
    RiskOfVerdict(x, two);
    EscalationChanges(Votes(x, two));
  }

  /** Every order of the passes gives the same flags if and only if no flag was voted YO'Q, or
      no best cargo or wagon text trips the guard, or no passes can settle both fields. */
  lemma OrderIgnoredExactlyWhen(x: Env, raws: seq<string>)
    requires FallbacksClean(x)
    ensures FlagsIgnoreOrder(x, raws) <==>
              !SomeNo(Votes(x, raws)) || !CanTrip(ChoiceOf(x), raws) || !CanPass(ChoiceOf(x), raws)
  {
    var c := ChoiceOf(x);
    assert !c.bad(c.fallback);
    JudgementIgnoresOrder(c, raws);
    forall order | multiset(order) == multiset(raws)
      ensures Aggregated(x, order).flags == Aggregated(x, raws).flags <==>
                BadShown(c, order) == BadShown(c, raws) || !SomeNo(Votes(x, raws))
    {
      TwoOrdersDiffer(x, order, raws);
    }
  }

  // --------------------------------------------------------- an order that matters

  lemma TieOfTwo(lower: string -> string, a: string, b: string)
    requires a != "" && b != "" && |a| == |b| && lower(a) != lower(b)
    ensures VoteText(lower, [a, b]) == a
  {
    var values := [a, b];
    assert [a] + [b] == values && [] + [a] == [a];
    FilterAll(values, NonEmpty());
    SupportOfTwo(lower, a, b, a);
    SupportOfTwo(lower, a, b, b);
    assert values[..1] == [a];
    assert Pick(lower, values, [a]) == a;
  }

  lemma SupportOfTwo(lower: string -> string, a: string, b: string, t: string)
    requires lower(a) != lower(b) && (t == a || t == b)
    ensures Support(lower, [a, b], t) == 1
  {
    assert [a] + [b] == [a, b] && [] + [a] == [a];
    FilterSnoc([], a, SameText(lower, t));
    FilterSnoc([a], b, SameText(lower, t));
  }

  lemma ShowsFirst(c: Choice, r: string, s: string)
    requires c.cargo(r) != "" && c.cargo(s) != "" && |c.cargo(r)| == |c.cargo(s)|
    requires c.lower(c.cargo(r)) != c.lower(c.cargo(s)) && c.wagon(r) == c.wagon(s) == ""
    ensures Shown(c, [r, s], c.cargo) == c.cargo(r) && Shown(c, [r, s], c.wagon) == c.fallback
  {
    var raws := [r, s];
    MapAt(raws, c.cargo, 0);
    MapAt(raws, c.cargo, 1);
    assert Map(raws, c.cargo) == [c.cargo(r), c.cargo(s)];
    TieOfTwo(c.lower, c.cargo(r), c.cargo(s));
    SilentShowsFallback(c, raws, c.wagon);
  }

  lemma BothNo(answer: string -> Flag, r: string, s: string)
    requires answer(r) == No && answer(s) == No
    ensures Voted(Map([r, s], answer)) == No
  {
    var votes := Map([r, s], answer);
    MapAt([r, s], answer, 0);
    MapAt([r, s], answer, 1);
    FilterAll(votes, Is(No));
    VoteIsMajority(votes, No);
  }

  /** The pass clears every flag, names a cargo and no wagon. */
  ghost predicate ClearsAll(x: Env, r: string, cargo: string) {
    && (forall f :: IsFlag(f) ==> AnswerTo(x, f)(r) == No)
    && TextOf(x, AsosiyYuk)(r) == cargo && TextOf(x, VagonTuri)(r) == ""
  }

  lemma ClearVotesOf(x: Env, r: string, s: string, a: string, b: string)
    requires ClearsAll(x, r, a) && ClearsAll(x, s, b)
    ensures Votes(x, [r, s]) == Flags(No, No, No, No)
  {
    BothNo(AnswerTo(x, Qoradori), r, s);
    BothNo(AnswerTo(x, Qurol), r, s);
    BothNo(AnswerTo(x, Tamaki), r, s);
    BothNo(AnswerTo(x, Boshqa), r, s);
  }

  lemma FirstShown(x: Env, r: string, s: string, a: string, b: string)
    requires ClearsAll(x, r, a) && ClearsAll(x, s, b) && !Trips(x, x.noText)
    requires a != "" && b != "" && |a| == |b| && x.lower(a) != x.lower(b)
    ensures BadShown(ChoiceOf(x), [r, s]) == TripsIn(x)(a)
  {
    var c := ChoiceOf(x);
    ShowsFirst(c, r, s);
    assert c.cargo(r) == a && !c.bad(c.fallback);
  }

  const ALL_CLEAR := Flags(No, No, No, No)
  const ALL_SUSPECT := Flags(Suspect, Suspect, Suspect, Suspect)

  lemma FlagsWhen(x: Env, raws: seq<string>, votes: Flags)
    requires FallbacksClean(x) && Votes(x, raws) == votes
    ensures Aggregated(x, raws).flags == if BadShown(ChoiceOf(x), raws) then Escalate(votes) else votes
  {
    TrippedByTexts(x, raws);
    RiskOfVerdict(x, raws);
  }

  /** Two passes that clear everything and tie on the cargo: the cargo of the first one is
      shown, and the guard's opinion of it decides the verdict. */
  lemma {:induction false} FirstDecides(x: Env, r: string, s: string, a: string, b: string)
    requires FallbacksClean(x) && ClearsAll(x, r, a) && ClearsAll(x, s, b)
    requires a != "" && b != "" && |a| == |b| && x.lower(a) != x.lower(b)
    ensures Aggregated(x, [r, s]).flags == if TripsIn(x)(a) then ALL_SUSPECT else ALL_CLEAR
  {
    ClearVotesOf(x, r, s, a, b);
    FirstShown(x, r, s, a, b);
    FlagsWhen(x, [r, s], ALL_CLEAR);
  }

  /** So when one of the two texts trips the guard and the other does not, the verdict is
      `clear` in one order, and in the other every flag is SHUBHALI. */
  lemma {:induction false} OrderMatters(x: Env, r: string, s: string, good: string, bad: string)
    requires FallbacksClean(x) && ClearsAll(x, r, good) && ClearsAll(x, s, bad)
    requires good != "" && |good| == |bad| && x.lower(good) != x.lower(bad)
    requires TripsIn(x)(bad) && !TripsIn(x)(good)
    ensures Aggregated(x, [r, s]).flags == ALL_CLEAR && Aggregated(x, [s, r]).flags == ALL_SUSPECT
  {
    FirstDecides(x, r, s, good, bad);
    FirstDecides(x, s, r, bad, good);
  }

  // ----------------------------------------------------- and answers that show it

  function ClearFields(cargo: string): seq<(Field, string)> {
    [(AsosiyYuk, cargo), (Qoradori, "YO'Q"), (Qurol, "YO'Q"), (Tamaki, "YO'Q"), (Boshqa, "YO'Q")]
  }

  /** An answer in the requested form that clears all flags and names a cargo. */
  function ClearAnswer(cargo: string): string { Render(ClearFields(cargo)) }

  lemma CollectedSnoc(front: seq<(Field, string)>, f: Field, v: string)
    ensures Collected(front + [(f, v)]) == Collected(front)[f := v]
  {
    assert (front + [(f, v)])[..|front|] == front;
  }

  lemma CollectedFields(cargo: string, no: string)
    ensures Collected([(AsosiyYuk, cargo), (Qoradori, no), (Qurol, no), (Tamaki, no), (Boshqa, no)]) ==
            map[AsosiyYuk := cargo, Qoradori := no, Qurol := no, Tamaki := no, Boshqa := no]
  {
    var e1 := [(AsosiyYuk, cargo)];
    var e2 := e1 + [(Qoradori, no)];
    var e3 := e2 + [(Qurol, no)];
    var e4 := e3 + [(Tamaki, no)];
    CollectedSnoc([], AsosiyYuk, cargo);
    assert [] + [(AsosiyYuk, cargo)] == e1;
    CollectedSnoc(e1, Qoradori, no);
    CollectedSnoc(e2, Qurol, no);
    CollectedSnoc(e3, Tamaki, no);
    CollectedSnoc(e4, Boshqa, no);
    assert e4 + [(Boshqa, no)] == [(AsosiyYuk, cargo), (Qoradori, no), (Qurol, no), (Tamaki, no), (Boshqa, no)];
  }

  lemma ReadBack(x: Env, cargo: string)
    requires KeepsKeys(x.upper) && ScreenText.Clean(cargo)
    ensures Parsed(x.upper, ClearAnswer(cargo)) == FieldsOf(cargo, "YO'Q")
  {
    RoundTrip(x.upper, ClearFields(cargo));
    CollectedFields(cargo, "YO'Q");
  }

  function FieldsOf(cargo: string, no: string): map<Field, string> {
    map[AsosiyYuk := cargo, Qoradori := no, Qurol := no, Tamaki := no, Boshqa := no]
  }

  lemma ClearFieldsClear(x: Env, r: string, cargo: string, no: string)
    requires Strip(no) == no && x.upper(no) == no && NormalizeFlag(no) == No && Strip(cargo) == cargo
    requires Parsed(x.upper, r) == FieldsOf(cargo, no)
    ensures ClearsAll(x, r, cargo)
  {
    var d := FieldsOf(cargo, no);
    forall f | IsFlag(f) ensures AnswerTo(x, f)(r) == No {
      assert f in d && d[f] == no;
      assert AnswerIn(x, d, f) == No;
    }
    assert TextIn(d, AsosiyYuk) == cargo && TextIn(d, VagonTuri) == "";
  }

  /** Such answers exist for every cargo text, as long as upper-casing leaves the keys and the
      flag name as they are. */
  lemma ClearAnswersExist(x: Env, cargo: string)
    requires KeepsKeys(x.upper) && x.upper("YO'Q") == "YO'Q" && ScreenText.Clean(cargo)
    ensures ClearsAll(x, ClearAnswer(cargo), cargo)
  {
    ReadBack(x, cargo);
    StripSpaced("YO'Q");
    StripSpaced(cargo);
    NormalizeIsConservative(No, "YO'Q");
    ClearFieldsClear(x, ClearAnswer(cargo), cargo, "YO'Q");
  }

  lemma Swapped<T>(r: T, s: T)
    ensures multiset([r, s]) == multiset([s, r])
  {
  }

  lemma {:induction false} AnswersThatDiffer(x: Env, good: string, bad: string)
    requires FallbacksClean(x) && KeepsKeys(x.upper) && x.upper("YO'Q") == "YO'Q"
    requires ScreenText.Clean(good) && ScreenText.Clean(bad)
    requires good != "" && |good| == |bad| && x.lower(good) != x.lower(bad)
    requires TripsIn(x)(bad) && !TripsIn(x)(good)
    ensures Aggregated(x, [ClearAnswer(good), ClearAnswer(bad)]).flags == ALL_CLEAR
    ensures Aggregated(x, [ClearAnswer(bad), ClearAnswer(good)]).flags == ALL_SUSPECT
  {
    ClearAnswersExist(x, good);
    ClearAnswersExist(x, bad);
    OrderMatters(x, ClearAnswer(good), ClearAnswer(bad), good, bad);
  }

  function Same(): string -> string { (t: string) => t }

  /** A guard that knows one forbidden text. */
  function Forbids(bad: string): string -> seq<Kind> { (t: string) => if t == bad then [ForbiddenClearance] else [] }

  function Simple(bad: string): Env { Env(Same(), Same(), Same(), Forbids(bad), "", "") }

  lemma SimpleTrips(bad: string, t: string)
    requires Stripped(bad) && Stripped(t) && MIN_SLOT_CHARS <= |bad| <= MAX_SLOT_CHARS
    ensures TripsIn(Simple(bad))(t) <==> t == bad
  {
    StripSpaced(t);
    TripsExactlyWithinBounds(Simple(bad), t);
  }

  lemma {:induction false} SimpleOrders(good: string, bad: string) returns (x: Env, one: seq<string>, two: seq<string>)
    requires ScreenText.Clean(good) && ScreenText.Clean(bad) && good != bad
    requires |good| == |bad| && MIN_SLOT_CHARS <= |bad| <= MAX_SLOT_CHARS
    ensures FallbacksClean(x) && multiset(one) == multiset(two)
    ensures Aggregated(x, one).flags == ALL_CLEAR && Aggregated(x, two).flags == ALL_SUSPECT
  {
    x := Simple(bad);
    SimpleTrips(bad, good);
    SimpleTrips(bad, bad);
    SimpleFallbacks(bad);
    AnswersThatDiffer(x, good, bad);
    Swapped(ClearAnswer(good), ClearAnswer(bad));
    one, two := [ClearAnswer(good), ClearAnswer(bad)], [ClearAnswer(bad), ClearAnswer(good)];
  }

  /** A whole input: two answers that clear every flag, the same but for the cargo they name. */
  lemma {:induction false} OrderMattersSomewhere() returns (x: Env, one: seq<string>, two: seq<string>)
    ensures FallbacksClean(x) && multiset(one) == multiset(two)
    ensures Aggregated(x, one).flags == ALL_CLEAR && Aggregated(x, two).flags == ALL_SUSPECT
  {
    assert "metall buyum"[0] != "xavfsiz yuki"[0];
    x, one, two := SimpleOrders("metall buyum", "xavfsiz yuki");
  }

  lemma SimpleFallbacks(bad: string)
    ensures FallbacksClean(Simple(bad))
  {
    assert Strip("") == "";
  }
}
