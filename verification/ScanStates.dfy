/** The scan lifecycle table and one compare-and-swap transition (app/state/machine.py). */
module ScanStates {
  import opened Common

  datatype ScanState = Pending | Analyzing | Analyzed | Verdicted | Reviewing | Decided | Failed

  datatype Event =
    | DetectReceived | DetectCompleted | DetectFailed
    | VerdictCompleted | VerdictFailed
    | ScanOpened | FeedbackBanked

  /** The transition table; None where `allowed_transition` raises. */
  function Allowed(from: ScanState, event: Event): Option<ScanState> {
    match (from, event)
    case (Pending, DetectReceived) => Some(Analyzing)
    case (Analyzing, DetectCompleted) => Some(Analyzed)
    case (Analyzing, DetectFailed) => Some(Failed)
    case (Analyzed, VerdictCompleted) => Some(Verdicted)
    case (Analyzed, VerdictFailed) => Some(Failed)
    case (Analyzed, FeedbackBanked) => Some(Decided)
    case (Verdicted, ScanOpened) => Some(Reviewing)
    case (Reviewing, FeedbackBanked) => Some(Decided)
    case _ => None
  }

  /** Progress through the lifecycle. */
  function Rank(s: ScanState): nat {
    match s
    case Pending => 0
    case Analyzing => 1
    case Analyzed => 2
    case Verdicted => 3
    case Reviewing => 4
    case Decided => 5
    case Failed => 5
  }

  predicate Terminal(s: ScanState) { s.Decided? || s.Failed? }

  type Time = int

  /** The columns of a scan row that the lifecycle writes. */
  datatype ScanRow = ScanRow(state: ScanState, analyzedAt: Option<Time>, verdictedAt: Option<Time>, decidedAt: Option<Time>)

  const FRESH_ROW: ScanRow := ScanRow(Pending, None, None, None)

  /** The timestamp column that goes with an event. */
  function Stamp(r: ScanRow, event: Event, now: Time): ScanRow {
    match event
    case DetectCompleted => r.(analyzedAt := Some(now))
    case VerdictCompleted => r.(verdictedAt := Some(now))
    case FeedbackBanked => r.(decidedAt := Some(now))
    case _ => r
  }

  /** One transition that took effect. */
  datatype Change = Change(from: ScanState, event: Event, to: ScanState, at: Time)

  predicate Legal(c: Change) { Allowed(c.from, c.event) == Some(c.to) }

  datatype CasResult = Swapped(row: ScanRow, change: Change) | Refused | Lost

  /** `_transition`: check the event against the cached state, then
      `UPDATE .. SET state = new, ts WHERE state = cached`. */
  function Cas(cached: ScanState, current: ScanRow, event: Event, now: Time): CasResult {
    match Allowed(cached, event)
    case None => Refused
    case Some(to) =>
      if current.state != cached then Lost
      else Swapped(Stamp(current, event, now).(state := to), Change(cached, event, to, now))
  }

  /** The table is acyclic: every transition climbs, and nothing leaves a terminal state. */
  lemma TransitionsClimb(from: ScanState, event: Event)
    ensures Allowed(from, event).Some? ==> Rank(from) < Rank(Allowed(from, event).value)
    ensures Allowed(from, event).Some? ==> !Terminal(from) && from != Decided && from != Failed
  {
  }

  /** The table, event by event: where each may happen and where it leads. */
  lemma TableByEvent(from: ScanState, to: ScanState)
    ensures Allowed(from, DetectReceived) == Some(to) <==> from.Pending? && to.Analyzing?
    ensures Allowed(from, DetectCompleted) == Some(to) <==> from.Analyzing? && to.Analyzed?
    ensures Allowed(from, DetectFailed) == Some(to) <==> from.Analyzing? && to.Failed?
    ensures Allowed(from, VerdictCompleted) == Some(to) <==> from.Analyzed? && to.Verdicted?
    ensures Allowed(from, VerdictFailed) == Some(to) <==> from.Analyzed? && to.Failed?
    ensures Allowed(from, ScanOpened) == Some(to) <==> from.Verdicted? && to.Reviewing?
    ensures Allowed(from, FeedbackBanked) == Some(to) <==> (from.Analyzed? || from.Reviewing?) && to.Decided?
  {
  }

  // ------------------------------------------------------------ paths of changes

  /** Changes that follow one another through the table from `start`. */
  ghost predicate Path(start: ScanState, changes: seq<Change>) {
    forall i :: 0 <= i < |changes| ==> LegalAt(start, changes, i)
  }

  ghost predicate LegalAt(start: ScanState, changes: seq<Change>, i: nat)
    requires i < |changes|
  {
    Legal(changes[i]) && changes[i].from == if i == 0 then start else changes[i - 1].to
  }

  function End(start: ScanState, changes: seq<Change>): ScanState {
    if changes == [] then start else changes[|changes| - 1].to
  }

  lemma {:induction false} PathConcat(start: ScanState, a: seq<Change>, b: seq<Change>)
    requires Path(start, a) && Path(End(start, a), b)
    ensures Path(start, a + b) && End(start, a + b) == End(End(start, a), b)
  {
    forall i | 0 <= i < |a + b|
      ensures LegalAt(start, a + b, i)
    {
      if i < |a| {
        assert LegalAt(start, a, i);
      } else {
        assert LegalAt(End(start, a), b, i - |a|);
      }
    }
  }

  /** Along a path the rank strictly increases, so no state is entered twice and nothing
      follows a terminal state. */
  lemma {:induction false} PathClimbs(start: ScanState, changes: seq<Change>, i: nat, j: nat)
    requires Path(start, changes) && i <= j < |changes|
    ensures Rank(start) <= Rank(changes[i].from) < Rank(changes[j].to)
    ensures i < j ==> Rank(changes[i].to) < Rank(changes[j].to) && !Terminal(changes[i].to)
    decreases j + i
  {
    TransitionsClimb(changes[j].from, changes[j].event);
    assert LegalAt(start, changes, i) && LegalAt(start, changes, j);
    if i < j {
      PathClimbs(start, changes, i, j - 1);
    } else if i > 0 {
      PathClimbs(start, changes, i - 1, i - 1);
    }
  }

  /** Every event happens at most once on a path. */
  lemma EventsOnce(start: ScanState, changes: seq<Change>, i: nat, j: nat)
    requires Path(start, changes) && i < |changes| && j < |changes|
    requires changes[i].event == changes[j].event
    ensures i == j
  {
    if i < j {
      NotTwice(start, changes, i, j);
    } else if j < i {
      NotTwice(start, changes, j, i);
    }
  }

  lemma NotTwice(start: ScanState, changes: seq<Change>, i: nat, j: nat)
    requires Path(start, changes) && i < j < |changes|
    ensures changes[i].event != changes[j].event
  {
    PathClimbs(start, changes, i, j);
    PathClimbs(start, changes, j, j);
    PathClimbs(start, changes, i + 1, j);
    assert LegalAt(start, changes, i) && LegalAt(start, changes, j);
  }

  // --------------------------------------------------------------- the columns

  /** The moment at which an event happened, if it did. */
  function TimeOf(changes: seq<Change>, event: Event): Option<Time> {
    if changes == [] then None
    else if changes[|changes| - 1].event == event then Some(changes[|changes| - 1].at)
    else TimeOf(changes[..|changes| - 1], event)
  }

  /** The row a path of changes leads to: the state is where it ends, and each timestamp is
      the time of its own transition and nothing else. */
  function RowAfter(changes: seq<Change>): ScanRow {
    ScanRow(End(Pending, changes), TimeOf(changes, DetectCompleted), TimeOf(changes, VerdictCompleted),
            TimeOf(changes, FeedbackBanked))
  }

  lemma CasExtendsRow(changes: seq<Change>, cached: ScanState, event: Event, now: Time)
    requires Path(Pending, changes)
    requires Cas(cached, RowAfter(changes), event, now).Swapped?
    ensures var r := Cas(cached, RowAfter(changes), event, now);
            Path(Pending, changes + [r.change]) && r.row == RowAfter(changes + [r.change])
  {
    var r := Cas(cached, RowAfter(changes), event, now);
    PathConcat(Pending, changes, [r.change]);
    assert (changes + [r.change])[..|changes|] == changes;
  }

  /** The only way to DECIDED runs through the decision event. */
  lemma DecidedByFeedback(changes: seq<Change>)
    requires Path(Pending, changes)
    ensures End(Pending, changes).Decided? ==>
              changes != [] && changes[|changes| - 1].event == FeedbackBanked
    ensures TimeOf(changes, FeedbackBanked).Some? <==> End(Pending, changes).Decided?
  {
    if changes != [] {
      assert LegalAt(Pending, changes, |changes| - 1);
      if TimeOf(changes, FeedbackBanked).Some? {
        var k := TimeFound(changes, FeedbackBanked);
        assert LegalAt(Pending, changes, k);
        if k < |changes| - 1 {
          PathClimbs(Pending, changes, k, |changes| - 1);
          assert false;
        }
      }
    }
  }

  lemma {:induction false} TimeFound(changes: seq<Change>, event: Event) returns (k: nat)
    requires TimeOf(changes, event).Some?
    ensures k < |changes| && changes[k].event == event && TimeOf(changes, event) == Some(changes[k].at)
  {
    var n := |changes| - 1;
    if changes[n].event == event {
      k := n;
    } else {
      k := TimeFound(changes[..n], event);
    }
  }
}
