/** The self-healing read loop around a scanner driver (acquisition/watchdog.py).  What the
    driver answers is a script: one `Turn` for each pass of the read loop. */
module Watchdogs {
  import opened Common

  /** `reconnect_attempts`, `reconnect_delay_s`. */
  datatype Config = Config(attempts: nat, delay: real)

  const MAX_BACKOFF := 120.0
  const MAX_CONSECUTIVE_FRAME_ERRORS := 5

  /** `driver.connect()`: fine, a ScannerConnectionError, or something else that propagates. */
  datatype Answer = Accept | Refuse | Break

  /** `driver.read_scan()` as the future shows it.  `Nothing` is a return value that is not a
      bundle; `Hang` overruns the hard limit; `Other` is an exception of another type. */
  datatype Read = Bundle | Nothing | TimeoutError | ConnectionError | FrameError | Hang | Other

  /** One pass of the loop: is the driver connected, what do its `connect` calls answer
      (before and after the read), has an earlier hung read finished, how does the read go. */
  datatype Turn = Turn(connected: bool, before: nat -> Answer, settled: bool, read: Read, after: nat -> Answer)

  /** Counters of `WatchdogStats`, the read worker, and a record of what was done: `busy` says
      that a hung read occupies the current worker, `behind` counts reads submitted to a busy
      worker, `unhealed` counts raises since `consecutive` was last zeroed. */
  datatype Watch = Watch(scans: nat, errors: nat, reconnects: nat, consecutive: nat, pending: bool,
                         busy: bool, hangs: nat, abandoned: nat, submits: nat, behind: nat,
                         dials: nat, slept: seq<real>, raises: nat, unhealed: nat)

  const START: Watch := Watch(0, 0, 0, 0, false, false, 0, 0, 0, 0, 0, [], 0, 0)

  // ------------------------------------------------------------------- reconnect

  function Pow2(n: nat): real { if n == 0 then 1.0 else 2.0 * Pow2(n - 1) }

  function Delay(base: real, attempt: nat): real {
    if base * Pow2(attempt) <= MAX_BACKOFF then base * Pow2(attempt) else MAX_BACKOFF
  }

  /** The pauses before dials 1 .. n-1; the first dial is immediate. */
  function Pauses(base: real, n: nat): seq<real> {
    if n <= 1 then [] else Pauses(base, n - 1) + [Delay(base, n - 1)]
  }

  /** The first dial that is not refused, or `max`. */
  function Picked(answers: nat -> Answer, max: nat): nat {
    if max == 0 then 0
    else var k := Picked(answers, max - 1); if k < max - 1 || answers(k) != Refuse then k else max
  }

  datatype Ending = Connected | Exhausted | Broken

  function Dialled(answers: nat -> Answer, max: nat): nat {
    var k := Picked(answers, max);
    if k < max then k + 1 else max
  }

  function EndOf(answers: nat -> Answer, max: nat): Ending {
    var k := Picked(answers, max);
    if k == max then Exhausted else if answers(k).Accept? then Connected else Broken
  }

  /** `_reconnect`. */
  function Redialled(w: Watch, cfg: Config, answers: nat -> Answer): Watch {
    var d := Dialled(answers, cfg.attempts);
    var logged := w.(dials := w.dials + d, slept := w.slept + Pauses(cfg.delay, d));
    if EndOf(answers, cfg.attempts).Connected?
    then logged.(reconnects := w.reconnects + 1, consecutive := 0, unhealed := 0)
    else logged.(raises := w.raises + 1, unhealed := w.unhealed + 1)
  }

  lemma {:induction false} PickedIsFirst(answers: nat -> Answer, max: nat)
    ensures Picked(answers, max) <= max
    ensures forall i: nat :: i < Picked(answers, max) ==> answers(i) == Refuse
    ensures Picked(answers, max) < max ==> answers(Picked(answers, max)) != Refuse
  {
    if max > 0 {
      PickedIsFirst(answers, max - 1);
    }
  }

  lemma {:induction false} PausesAt(base: real, n: nat)
    ensures |Pauses(base, n)| == if n <= 1 then 0 else n - 1
    ensures forall i :: 0 <= i < |Pauses(base, n)| ==> Pauses(base, n)[i] == Delay(base, i + 1)
  {
    if n > 1 {
      PausesAt(base, n - 1);
    }
  }

  lemma {:induction false} PowersGrow(a: nat, b: nat)
    requires a <= b
    ensures 1.0 <= Pow2(a) <= Pow2(b)
    decreases b
  {
    if a < b {
      PowersGrow(a, b - 1);
    } else if b > 0 {
      PowersGrow(b - 1, b - 1);
    }
  }

  lemma DelaysGrow(base: real, a: nat, b: nat)
    requires base >= 0.0 && a <= b
    ensures 0.0 <= Delay(base, a) <= Delay(base, b) <= MAX_BACKOFF
  {
    PowersGrow(a, b);
    Times(base, Pow2(a), Pow2(b));
  }

  lemma Times(base: real, x: real, y: real)
    requires base >= 0.0 && 0.0 <= x <= y
    ensures 0.0 <= base * x <= base * y
  {
  }

  /** How many of the attempts 1 .. n-1 stay under the cap. */
  function Uncapped(base: real, n: nat): nat {
    if n <= 1 then 0
    else Uncapped(base, n - 1) + if base * Pow2(n - 1) <= MAX_BACKOFF then 1 else 0
  }

  lemma {:induction false} UncappedIsPrefix(base: real, n: nat)
    requires base >= 0.0
    ensures Uncapped(base, n) <= if n <= 1 then 0 else n - 1
    ensures forall a: nat :: 1 <= a < n ==> (a <= Uncapped(base, n) <==> base * Pow2(a) <= MAX_BACKOFF)
  {
    if n > 1 {
      UncappedIsPrefix(base, n - 1);
      if n > 2 {
        PowersGrow(n - 2, n - 1);
        Times(base, Pow2(n - 2), Pow2(n - 1));
      }
    }
  }

  function ClosedForm(base: real, k: nat, capped: nat): real {
    base * (Pow2(k + 1) - 2.0) + MAX_BACKOFF * (capped as real)
  }

  lemma ClosedFormGrows(base: real, k: nat, capped: nat)
    ensures ClosedForm(base, k, capped + 1) == ClosedForm(base, k, capped) + MAX_BACKOFF
    ensures ClosedForm(base, k + 1, capped) == ClosedForm(base, k, capped) + base * Pow2(k + 1)
  {
    var p := Pow2(k + 1);
    assert Pow2(k + 2) == 2.0 * p;
    assert base * (2.0 * p - 2.0) == base * (p - 2.0) + base * p;
  }

  /** The pauses add up to a geometric sum below the cap and a multiple of the cap above it. */
  lemma {:induction false} TotalPause(base: real, n: nat)
    requires base >= 0.0 && n >= 1
    ensures Uncapped(base, n) <= n - 1
    ensures Total(Pauses(base, n)) == ClosedForm(base, Uncapped(base, n), n - 1 - Uncapped(base, n))
  {
    UncappedIsPrefix(base, n);
    if n > 1 {
      TotalPause(base, n - 1);
      TotalSnoc(Pauses(base, n - 1), Delay(base, n - 1));
      var k := Uncapped(base, n - 1);
      ClosedFormGrows(base, k, n - 2 - k);
      assert Uncapped(base, n) != k ==> k + 1 == n - 1;
    }
  }

  /** The pauses never shrink and stay under the cap. */
  lemma PausesOrdered(base: real, n: nat, i: nat, j: nat)
    requires base >= 0.0 && i < j < n - 1
    ensures |Pauses(base, n)| == n - 1
    ensures 0.0 <= Pauses(base, n)[i] <= Pauses(base, n)[j] <= MAX_BACKOFF
  {
    PausesAt(base, n);
    DelaysGrow(base, i + 1, j + 1);
  }

  /** A reconnect that gives up made exactly the configured number of dials, all refused,
      after the pauses that `PausesOrdered` and `TotalPause` describe. */
  lemma GivingUp(w: Watch, cfg: Config, answers: nat -> Answer)
    ensures EndOf(answers, cfg.attempts).Exhausted? <==> forall i: nat :: i < cfg.attempts ==> answers(i) == Refuse
    ensures EndOf(answers, cfg.attempts).Exhausted? ==>
              var t := Redialled(w, cfg, answers);
              && t.dials == w.dials + cfg.attempts && t.reconnects == w.reconnects
              && t.slept == w.slept + Pauses(cfg.delay, cfg.attempts)
  {
    PickedIsFirst(answers, cfg.attempts);
  }

  // ------------------------------------------------------------------ timed read

  /** `_timed_read` up to the submit: a worker that still runs a hung read is abandoned. */
  function Submitted(w: Watch, settled: bool): Watch {
    var stuck := w.busy && !settled;
    var rotate := w.pending && stuck;
    w.(abandoned := w.abandoned + (if rotate then 1 else 0),
       pending := false,
       busy := stuck && !rotate,
       submits := w.submits + 1,
       behind := w.behind + (if stuck && !rotate then 1 else 0))
  }

  function Answered(w: Watch, read: Read): Watch {
    var u := if read.Hang? then w.(pending := true, busy := true, hangs := w.hangs + 1) else w;
    if read.Bundle? then u.(scans := w.scans + 1, consecutive := 0, unhealed := 0)
    else u.(errors := w.errors + 1, consecutive := w.consecutive + 1)
  }

  /** Does this answer make the loop reconnect? */
  predicate Heals(w: Watch, read: Read) {
    match read
    case TimeoutError | ConnectionError | Hang => true
    case Nothing | FrameError => w.consecutive >= MAX_CONSECUTIVE_FRAME_ERRORS
    case _ => false
  }

  // ------------------------------------------------------------------- the loop

  datatype Verdict = Returned | Unavailable | Raised | Again

  function Failure(e: Ending): Verdict {
    match e
    case Connected => Again
    case Exhausted => Unavailable
    case Broken => Raised
  }

  function Head(w: Watch, cfg: Config, t: Turn): (Watch, Verdict) {
    if t.connected then (w, Again)
    else (Redialled(w, cfg, t.before), Failure(EndOf(t.before, cfg.attempts)))
  }

  function Tail(w: Watch, cfg: Config, t: Turn): (Watch, Verdict) {
    var u := Answered(Submitted(w, t.settled), t.read);
    if t.read.Bundle? then (u, Returned)
    else if t.read.Other? then (u.(raises := u.raises + 1, unhealed := u.unhealed + 1), Raised)
    else if Heals(u, t.read) then (Redialled(u, cfg, t.after), Failure(EndOf(t.after, cfg.attempts)))
    else (u, Again)
  }

  /** One pass of `monitored_read`. */
  function Pass(w: Watch, cfg: Config, t: Turn): (Watch, Verdict) {
    var (u, v) := Head(w, cfg, t);
    if v.Again? then Tail(u, cfg, t) else (u, v)
  }

  function Passing(cfg: Config): (Watch, Turn) -> (Watch, Verdict) { (w: Watch, t: Turn) => Pass(w, cfg, t) }

  /** Passes one after another, over any number of `monitored_read` calls. */
  function Passes(pass: (Watch, Turn) -> (Watch, Verdict), w: Watch, turns: seq<Turn>): Watch {
    if turns == [] then w else pass(Passes(pass, w, turns[..|turns| - 1]), turns[|turns| - 1]).0
  }

  lemma PassesSnoc(pass: (Watch, Turn) -> (Watch, Verdict), w: Watch, turns: seq<Turn>, t: Turn)
    ensures Passes(pass, w, turns + [t]) == pass(Passes(pass, w, turns), t).0
  {
    assert (turns + [t])[..|turns|] == turns;
  }

  function Served(cfg: Config, turns: seq<Turn>): Watch { Passes(Passing(cfg), START, turns) }

  /** `slack` is 1 between an error and the reconnect it may call for. */
  ghost predicate InvUpTo(w: Watch, slack: nat) {
    && w.consecutive < MAX_CONSECUTIVE_FRAME_ERRORS + w.unhealed + slack
    && w.unhealed <= w.raises
    && (w.busy ==> w.pending)
    && w.behind == 0
    && w.abandoned + (if w.pending then 1 else 0) <= w.hangs <= w.errors
    && w.submits == w.scans + w.errors
    && w.reconnects <= w.dials
  }

  ghost predicate Inv(w: Watch) { InvUpTo(w, 0) }

  lemma RedialKeepsInv(w: Watch, cfg: Config, answers: nat -> Answer)
    requires InvUpTo(w, 1)
    ensures Inv(Redialled(w, cfg, answers))
    ensures Redialled(w, cfg, answers).raises == w.raises + if EndOf(answers, cfg.attempts).Connected? then 0 else 1
  {
    PickedIsFirst(answers, cfg.attempts);
  }

  lemma ReadKeepsInv(w: Watch, settled: bool, read: Read)
    requires Inv(w)
    ensures var u := Answered(Submitted(w, settled), read);
            && InvUpTo(u, 1) && u.raises == w.raises
            && (read.Bundle? ==> Inv(u) && u.consecutive == 0)
            && (!read.Bundle? && !Heals(u, read) && !read.Other? ==> Inv(u))
  {
  }

  lemma TailKeepsInv(w: Watch, cfg: Config, t: Turn)
    requires Inv(w)
    ensures var (u, v) := Tail(w, cfg, t);
            && Inv(u) && (v.Returned? ==> u.consecutive == 0)
            && u.raises == w.raises + if v.Returned? || v.Again? then 0 else 1
  {
    ReadKeepsInv(w, t.settled, t.read);
    var a := Answered(Submitted(w, t.settled), t.read);
    RedialKeepsInv(a, cfg, t.after);
  }

  lemma PassKeepsInv(w: Watch, cfg: Config, t: Turn)
    requires Inv(w)
    ensures var (u, v) := Pass(w, cfg, t);
            && Inv(u) && (v.Returned? ==> u.consecutive == 0)
            && u.raises == w.raises + if v.Returned? || v.Again? then 0 else 1
  {
    RedialKeepsInv(w, cfg, t.before);
    var (u, v) := Head(w, cfg, t);
    if v.Again? {
      TailKeepsInv(u, cfg, t);
    }
  }

  lemma DialsAdd(w: Watch, cfg: Config, answers: nat -> Answer)
    requires cfg.attempts > 0
    ensures Redialled(w, cfg, answers).dials > w.dials
  {
    PickedIsFirst(answers, cfg.attempts);
  }

  /** A pass dials exactly when it finds the driver disconnected, or its read times out, hangs
      or loses the connection, or it is the fifth bad frame in a row or a later one. */
  lemma DialsExactlyWhen(w: Watch, cfg: Config, t: Turn)
    requires cfg.attempts > 0
    ensures Pass(w, cfg, t).0.dials > w.dials <==>
              || !t.connected
              || t.read.TimeoutError? || t.read.Hang? || t.read.ConnectionError?
              || ((t.read.FrameError? || t.read.Nothing?) && w.consecutive + 1 >= MAX_CONSECUTIVE_FRAME_ERRORS)
  {
    DialsAdd(w, cfg, t.before);
    var (u, v) := Head(w, cfg, t);
    DialsAdd(Answered(Submitted(u, t.settled), t.read), cfg, t.after);
  }

  /** The dials of a reconnect end in an accepted one, or in an exception that propagates. */
  ghost predicate Accepts(answers: nat -> Answer, attempts: nat) {
    exists k: nat :: k < attempts && answers(k) == Accept && forall i: nat :: i < k ==> answers(i) == Refuse
  }

  ghost predicate Breaks(answers: nat -> Answer, attempts: nat) {
    exists k: nat :: k < attempts && answers(k) == Break && forall i: nat :: i < k ==> answers(i) == Refuse
  }

  ghost predicate AllRefuse(answers: nat -> Answer, attempts: nat) {
    forall i: nat :: i < attempts ==> answers(i) == Refuse
  }

  lemma EndingMeans(answers: nat -> Answer, attempts: nat)
    ensures EndOf(answers, attempts).Connected? <==> Accepts(answers, attempts)
    ensures EndOf(answers, attempts).Broken? <==> Breaks(answers, attempts)
    ensures EndOf(answers, attempts).Exhausted? <==> AllRefuse(answers, attempts)
  {
    PickedIsFirst(answers, attempts);
    forall j: nat | j < attempts && answers(j) != Refuse && forall i: nat :: i < j ==> answers(i) == Refuse
      ensures Picked(answers, attempts) == j
    {
      FirstIsPicked(answers, attempts, j);
    }
  }

  lemma FirstIsPicked(answers: nat -> Answer, attempts: nat, j: nat)
    requires j < attempts && answers(j) != Refuse && forall i: nat :: i < j ==> answers(i) == Refuse
    ensures Picked(answers, attempts) == j
  {
    PickedIsFirst(answers, attempts);
  }

  /** The read is tried: the driver is connected, or the dials before it succeed. */
  ghost predicate Tried(cfg: Config, t: Turn) { t.connected || Accepts(t.before, cfg.attempts) }

  /** The read fails in a way that calls for a reconnect; a bad frame only as the fifth error in
      a row or a later one. */
  ghost predicate CallsForReconnect(w: Watch, t: Turn) {
    || t.read.TimeoutError? || t.read.Hang? || t.read.ConnectionError?
    || ((t.read.FrameError? || t.read.Nothing?) && t.connected && w.consecutive + 1 >= 5)
  }

  /** How a pass ends: with a bundle, with ScannerUnavailableError exactly when all dials of a
      reconnect it needs are refused, with another exception exactly when one breaks a reconnect
      or the read, and by going on otherwise. */
  lemma PassEnds(w: Watch, cfg: Config, t: Turn)
    ensures var v := Pass(w, cfg, t).1;
            && (v.Returned? <==> Tried(cfg, t) && t.read.Bundle?)
            && (v.Unavailable? <==>
                  || (!t.connected && AllRefuse(t.before, cfg.attempts))
                  || (Tried(cfg, t) && CallsForReconnect(w, t) && AllRefuse(t.after, cfg.attempts)))
            && (v.Raised? <==>
                  || (!t.connected && Breaks(t.before, cfg.attempts))
                  || (Tried(cfg, t) && t.read.Other?)
                  || (Tried(cfg, t) && CallsForReconnect(w, t) && Breaks(t.after, cfg.attempts)))
  {
    EndingMeans(t.before, cfg.attempts);
    EndingMeans(t.after, cfg.attempts);
    var (u, v) := Head(w, cfg, t);
    if v.Again? {
      TailEnds(u, cfg, t);
    }
  }

  lemma TailEnds(w: Watch, cfg: Config, t: Turn)
    ensures var u, v := Answered(Submitted(w, t.settled), t.read), Tail(w, cfg, t).1;
            && u.consecutive == (if t.read.Bundle? then 0 else w.consecutive + 1)
            && (v.Returned? <==> t.read.Bundle?)
            && (v.Unavailable? <==> Heals(u, t.read) && EndOf(t.after, cfg.attempts).Exhausted?)
            && (v.Raised? <==> t.read.Other? || (Heals(u, t.read) && EndOf(t.after, cfg.attempts).Broken?))
  {
  }

  /** The pauses in numbers: twice as long each time, never more than two minutes, none before
      the first dial. */
  lemma PausesInSeconds(base: real, n: nat, i: nat)
    requires base >= 0.0 && i + 1 < n
    ensures |Pauses(base, n)| == n - 1
    ensures Pauses(base, n)[i] == if base * Pow2(i + 1) <= 120.0 then base * Pow2(i + 1) else 120.0
    ensures i == 0 ==> Pauses(base, n)[i] == if 2.0 * base <= 120.0 then 2.0 * base else 120.0
    ensures i > 0 ==> Pauses(base, n)[i] == if 2.0 * Pauses(base, n)[i - 1] <= 120.0 then 2.0 * Pauses(base, n)[i - 1] else 120.0
  {
    PausesAt(base, n);
    PowersGrow(0, i);
    PowersGrow(i, i + 1);
    Times(base, Pow2(i), Pow2(i + 1));
    assert base * Pow2(i + 1) == 2.0 * (base * Pow2(i));
    assert Pow2(1) == 2.0 * Pow2(0);
  }

  /** Whatever the driver does: the error counter at a loop head is below five plus the
      raises since it was last zeroed, so below five until something is raised; no read is
      ever queued behind an unfinished one; abandoned workers are at most the hung reads;
      every read is counted once, as a scan or as an error. */
  lemma {:induction false} EveryRun(cfg: Config, turns: seq<Turn>)
    ensures var w := Served(cfg, turns);
            && Inv(w) && (w.raises == 0 ==> w.consecutive < MAX_CONSECUTIVE_FRAME_ERRORS)
  {
    if turns != [] {
      EveryRun(cfg, turns[..|turns| - 1]);
      PassKeepsInv(Served(cfg, turns[..|turns| - 1]), cfg, turns[|turns| - 1]);
    }
  }

  // ------------------------------------------------------------ the bound is tight

  function Deaf(): nat -> Answer { (i: nat) => Refuse }

  function FrameTurn(): Turn { Turn(true, Deaf(), true, FrameError, Deaf()) }

  function Repeat(t: Turn, n: nat): seq<Turn> { if n == 0 then [] else Repeat(t, n - 1) + [t] }

  lemma {:induction false} DeafPicked(max: nat)
    ensures Picked(Deaf(), max) == max && EndOf(Deaf(), max) == Exhausted
  {
    if max > 0 {
      DeafPicked(max - 1);
    }
  }

  lemma FramePass(w: Watch, cfg: Config)
    ensures var u := Pass(w, cfg, FrameTurn()).0;
            && u.consecutive == w.consecutive + 1
            && u.raises == w.raises + (if w.consecutive >= 4 then 1 else 0)
            && u.unhealed == w.unhealed + (if w.consecutive >= 4 then 1 else 0)
  {
    DeafPicked(cfg.attempts);
  }

  /** Against a driver that stays deaf the counter passes five: callers that keep calling
      after ScannerUnavailableError see one more error for each raise. */
  lemma {:induction false} BoundIsTight(cfg: Config, n: nat)
    ensures var w := Served(cfg, Repeat(FrameTurn(), n));
            && w.consecutive == n
            && w.raises == w.unhealed == (if n <= 4 then 0 else n - 4)
  {
    if n > 0 {
      BoundIsTight(cfg, n - 1);
      PassesSnoc(Passing(cfg), START, Repeat(FrameTurn(), n - 1), FrameTurn());
      FramePass(Served(cfg, Repeat(FrameTurn(), n - 1)), cfg);
    }
  }

  // -------------------------------------------------- when the counter is high

  /** Nothing zeroed the counter in between: no bundle, no successful reconnect. */
  predicate Quiet(a: Watch, b: Watch) { b.scans == a.scans && b.reconnects == a.reconnects }

  /** The pass reconnects before its read, and its read then fails without another reconnect. */
  predicate FailsAfterReconnect(cfg: Config, t: Turn) {
    && !t.connected
    && match t.read
       case Bundle => false
       case TimeoutError | ConnectionError | Hang => !EndOf(t.after, cfg.attempts).Connected?
       case _ => true
  }

  /** From `a` to `b`: the counters climb; quietly, `consecutive` grows with `errors`; when
      something zeroed it, it was left at `rest`. */
  predicate Counted(a: Watch, b: Watch, rest: nat) {
    && a.scans <= b.scans && a.reconnects <= b.reconnects && a.errors <= b.errors
    && if Quiet(a, b) then b.consecutive - a.consecutive == b.errors - a.errors else b.consecutive == rest
  }

  lemma RedialCounts(w: Watch, cfg: Config, answers: nat -> Answer)
    ensures Counted(w, Redialled(w, cfg, answers), 0)
    ensures Quiet(w, Redialled(w, cfg, answers)) <==> !EndOf(answers, cfg.attempts).Connected?
    ensures Redialled(w, cfg, answers).errors == w.errors
  {
  }

  lemma ReadCounts(w: Watch, settled: bool, read: Read)
    ensures var u := Answered(Submitted(w, settled), read);
            && Counted(w, u, 0) && (Quiet(w, u) <==> !read.Bundle?)
            && u.errors == w.errors + if read.Bundle? then 0 else 1
  {
  }

  /** What the reads and reconnects of a pass leave on the counter, once it is connected. */
  lemma TailCounts(w: Watch, cfg: Config, t: Turn)
    ensures var u := Tail(w, cfg, t).0;
            && Counted(w, u, 0)
            && (w.consecutive == 0 ==> (Quiet(w, u) <==> FailsAfterReconnect(cfg, t.(connected := false))))
            && (Quiet(w, u) ==> u.errors == w.errors + 1)
  {
    ReadCounts(w, t.settled, t.read);
    RedialCounts(Answered(Submitted(w, t.settled), t.read), cfg, t.after);
  }

  /** What a pass does to the counter. */
  lemma PassCounts(w: Watch, cfg: Config, t: Turn)
    ensures Counted(w, Pass(w, cfg, t).0, if FailsAfterReconnect(cfg, t) then 1 else 0)
  {
    RedialCounts(w, cfg, t.before);
    var (u, v) := Head(w, cfg, t);
    TailCounts(u, cfg, t);
    assert !t.connected ==> t == t.(connected := false);
  }

  lemma {:induction false} CountersOnlyClimb(cfg: Config, turns: seq<Turn>, k: nat)
    requires k <= |turns|
    ensures var a, b := Served(cfg, turns[..k]), Served(cfg, turns);
            a.scans <= b.scans && a.reconnects <= b.reconnects && a.errors <= b.errors
  {
    var n := |turns| - 1;
    if k <= n {
      assert turns[..n][..k] == turns[..k];
      CountersOnlyClimb(cfg, turns[..n], k);
      PassCounts(Served(cfg, turns[..n]), cfg, turns[n]);
    } else {
      assert turns[..k] == turns;
    }
  }

  /** As long as nothing zeroes it, the counter grows by exactly the failed reads. */
  lemma {:induction false} QuietPassesCount(cfg: Config, turns: seq<Turn>, k: nat)
    requires k <= |turns| && Quiet(Served(cfg, turns[..k]), Served(cfg, turns))
    ensures var a, b := Served(cfg, turns[..k]), Served(cfg, turns);
            b.consecutive - a.consecutive == b.errors - a.errors
  {
    var n := |turns| - 1;
    if k <= n {
      var w := Served(cfg, turns[..n]);
      assert turns[..n][..k] == turns[..k];
      CountersOnlyClimb(cfg, turns[..n], k);
      PassCounts(w, cfg, turns[n]);
      QuietPassesCount(cfg, turns[..n], k);
    } else {
      assert turns[..k] == turns;
    }
  }

  /** The counter is five or more at a loop head exactly when five or more reads failed since
      the last bundle or successful reconnect: those of the later passes, and the read of the
      pass of that reconnect if it came after it. */
  lemma {:induction false} HighExactlyWhen(cfg: Config, turns: seq<Turn>, k: nat)
    requires k <= |turns| && Quiet(Served(cfg, turns[..k]), Served(cfg, turns))
    requires k > 0 ==> !Quiet(Served(cfg, turns[..k - 1]), Served(cfg, turns[..k]))
    ensures var since := Served(cfg, turns).errors - Served(cfg, turns[..k]).errors
                         + if k > 0 && FailsAfterReconnect(cfg, turns[k - 1]) then 1 else 0;
            Served(cfg, turns).consecutive >= MAX_CONSECUTIVE_FRAME_ERRORS <==> since >= MAX_CONSECUTIVE_FRAME_ERRORS
  {
    QuietPassesCount(cfg, turns, k);
    if k > 0 {
      assert turns[..k][..k - 1] == turns[..k - 1];
      PassCounts(Served(cfg, turns[..k - 1]), cfg, turns[k - 1]);
    }
  }

  // ------------------------------------------------------------------ the class

  /** The watchdog as the program keeps it: `_stats`, `_pending`, `_executor`.  The ghost
      fields record what the driver and the clock were asked for. */
  class ConnectionWatchdog {
    const cfg: Config
    var scans: nat
    var errors: nat
    var reconnects: nat
    var consecutive: nat
    var pending: bool
    var busy: bool
    ghost var hangs: nat
    ghost var abandoned: nat
    ghost var submits: nat
    ghost var behind: nat
    ghost var dials: nat
    ghost var slept: seq<real>
    ghost var raises: nat
    ghost var unhealed: nat

    ghost function View(): Watch
      reads this
    {
      Watch(scans, errors, reconnects, consecutive, pending, busy, hangs, abandoned, submits, behind,
            dials, slept, raises, unhealed)
    }

    constructor (cfg: Config)
      ensures this.cfg == cfg && View() == START
    {
      this.cfg := cfg;
      scans, errors, reconnects, consecutive, pending, busy := 0, 0, 0, 0, false, false;
      hangs, abandoned, submits, behind, dials, slept, raises, unhealed := 0, 0, 0, 0, 0, [], 0, 0;
    }

    /** The dial loop of `_reconnect`. */
    method Dial(answers: nat -> Answer) returns (e: Ending)
      modifies this`dials, this`slept
      ensures dials == old(dials) + Dialled(answers, cfg.attempts)
      ensures slept == old(slept) + Pauses(cfg.delay, Dialled(answers, cfg.attempts))
      ensures e == EndOf(answers, cfg.attempts)
    {
      ghost var before := slept;
      for attempt := 0 to cfg.attempts
        invariant Picked(answers, attempt) == attempt
        invariant dials == old(dials) + attempt && slept == before + Pauses(cfg.delay, attempt)
      {
        if attempt > 0 {
          slept := slept + [Delay(cfg.delay, attempt)];
        }
        dials := dials + 1;
        PauseOneMore(before, cfg.delay, attempt);
        PickedStays(answers, attempt, cfg.attempts);
        var answer := answers(attempt);
        if answer.Accept? {
          return Connected;
        } else if answer.Break? {
          return Broken;
        }
      }
      e := Exhausted;
    }

    /** `_reconnect`. */
    method Reconnect(answers: nat -> Answer) returns (e: Ending)
      modifies this
      ensures View() == Redialled(old(View()), cfg, answers) && e == EndOf(answers, cfg.attempts)
    {
      e := Dial(answers);
      if e.Connected? {
        reconnects, consecutive, unhealed := reconnects + 1, 0, 0;
      } else {
        raises, unhealed := raises + 1, unhealed + 1;
      }
    }

    /** `_timed_read` up to the submit. */
    method Submit(settled: bool)
      modifies this
      ensures View() == Submitted(old(View()), settled)
    {
      busy := busy && !settled;
      if pending && busy {
        abandoned := abandoned + 1;
        busy := false;
      }
      pending := false;
      submits := submits + 1;
      behind := behind + if busy then 1 else 0;
    }

    /** Returns what the caller sees of the read. */
    method TimedRead(settled: bool, outcome: Read) returns (read: Read)
      modifies this
      ensures var u := Submitted(old(View()), settled);
              View() == if outcome.Hang? then u.(pending := true, busy := true, hangs := u.hangs + 1) else u
      ensures read == match outcome
                      case Hang => TimeoutError
                      case Nothing => FrameError
                      case _ => outcome
    {
      Submit(settled);
      read := outcome;
      if outcome.Hang? {
        pending, busy, read := true, true, TimeoutError;
        hangs := hangs + 1;
      } else if outcome.Nothing? {
        read := FrameError;
      }
    }

    /** After an error: reconnect if the error calls for it. */
    method Recover(read: Read, answers: nat -> Answer) returns (v: Verdict)
      requires read in {TimeoutError, ConnectionError, FrameError, Other}
      modifies this
      ensures var w := old(View());
              (View(), v) == if read.Other? then (w.(raises := w.raises + 1, unhealed := w.unhealed + 1), Raised)
                             else if Heals(w, read) then (Redialled(w, cfg, answers), Failure(EndOf(answers, cfg.attempts)))
                             else (w, Again)
    {
      v := Again;
      if read.TimeoutError? || read.ConnectionError? {
        var e := Reconnect(answers);
        v := Failure(e);
      } else if read.FrameError? {
        if consecutive >= MAX_CONSECUTIVE_FRAME_ERRORS {
          var e := Reconnect(answers);
          v := Failure(e);
        }
      } else {
        raises, unhealed := raises + 1, unhealed + 1;
        v := Raised;
      }
    }

    /** The timed read and what follows it in the loop. */
    method ReadAndRecover(t: Turn) returns (v: Verdict)
      modifies this
      ensures (View(), v) == Tail(old(View()), cfg, t)
    {
      var read := TimedRead(t.settled, t.read);
      if read.Bundle? {
        scans, consecutive, unhealed := scans + 1, 0, 0;
        return Returned;
      }
      errors, consecutive := errors + 1, consecutive + 1;
      assert View() == Answered(Submitted(old(View()), t.settled), t.read);
      v := Recover(read, t.after);
    }

    /** The body of the loop of `monitored_read`. */
    method ReadOnce(t: Turn) returns (v: Verdict)
      modifies this
      ensures (View(), v) == Pass(old(View()), cfg, t)
    {
      if !t.connected {
        var e := Reconnect(t.before);
        if !e.Connected? {
          return Failure(e);
        }
      }
      v := ReadAndRecover(t);
    }

    /** `monitored_read` against a script; `Again` when the script ends inside the loop. */
    method MonitoredRead(script: seq<Turn>) returns (v: Verdict, used: nat)
      modifies this
      ensures used <= |script| && (v.Again? ==> used == |script|)
      ensures (View(), v) == Reading(Passing(cfg), old(View()), script[..used])
    {
      used, v := 0, Again;
      while used < |script| && v.Again?
        invariant used <= |script|
        invariant (View(), v) == Reading(Passing(cfg), old(View()), script[..used])
      {
        v := ReadOnce(script[used]);
        used := used + 1;
        assert script[..used][..used - 1] == script[..used - 1];
      }
    }
  }

  lemma PauseOneMore(slept: seq<real>, base: real, attempt: nat)
    ensures slept + Pauses(base, attempt + 1) ==
            (slept + Pauses(base, attempt)) + if attempt > 0 then [Delay(base, attempt)] else []
  {
  }

  /** The passes of one call: nothing follows a pass that ends it. */
  function Reading(pass: (Watch, Turn) -> (Watch, Verdict), w: Watch, turns: seq<Turn>): (Watch, Verdict) {
    if turns == [] then (w, Again)
    else
      var (u, v) := Reading(pass, w, turns[..|turns| - 1]);
      if v.Again? then pass(u, turns[|turns| - 1]) else (u, v)
  }

  /** A first dial that is not refused is the pick for every larger budget. */
  lemma {:induction false} PickedStays(answers: nat -> Answer, k: nat, max: nat)
    requires k < max && Picked(answers, k) == k
    ensures answers(k) != Refuse ==> Picked(answers, max) == k
    ensures answers(k) == Refuse ==> Picked(answers, k + 1) == k + 1
  {
    if answers(k) != Refuse {
      if max > k + 1 {
        PickedStays(answers, k, max - 1);
      }
    }
  }

  lemma {:induction false} PassesConcat(pass: (Watch, Turn) -> (Watch, Verdict), w: Watch, a: seq<Turn>, b: seq<Turn>)
    ensures Passes(pass, w, a + b) == Passes(pass, Passes(pass, w, a), b)
  {
    if b == [] {
      assert a + b == a;
    } else {
      var n := |b| - 1;
      PassesConcat(pass, w, a, b[..n]);
      PassesSnoc(pass, w, a + b[..n], b[n]);
      assert a + b == (a + b[..n]) + [b[n]];
    }
  }

  lemma {:induction false} ReadingPasses(pass: (Watch, Turn) -> (Watch, Verdict), w: Watch, turns: seq<Turn>)
    requires forall i :: 0 <= i < |turns| ==> Reading(pass, w, turns[..i]).1.Again?
    ensures Reading(pass, w, turns).0 == Passes(pass, w, turns)
  {
    if turns != [] {
      var front := turns[..|turns| - 1];
      assert forall i :: 0 <= i < |front| ==> front[..i] == turns[..i];
      ReadingPasses(pass, w, front);
    }
  }

  /** A call that returns a bundle leaves the error counter at zero. */
  lemma {:induction false} ReturnsAtZero(cfg: Config, w: Watch, turns: seq<Turn>)
    requires Inv(w)
    ensures var (u, v) := Reading(Passing(cfg), w, turns); Inv(u) && (v.Returned? ==> u.consecutive == 0)
  {
    if turns != [] {
      var front, t := turns[..|turns| - 1], turns[|turns| - 1];
      ReturnsAtZero(cfg, w, front);
      PassKeepsInv(Reading(Passing(cfg), w, front).0, cfg, t);
    }
  }

  /** A call's passes are passes of the run, so everything above holds of every call. */
  lemma CallIsPartOfRun(cfg: Config, earlier: seq<Turn>, turns: seq<Turn>)
    requires forall i :: 0 <= i < |turns| ==> Reading(Passing(cfg), Served(cfg, earlier), turns[..i]).1.Again?
    ensures Reading(Passing(cfg), Served(cfg, earlier), turns).0 == Served(cfg, earlier + turns)
  {
    ReadingPasses(Passing(cfg), Served(cfg, earlier), turns);
    PassesConcat(Passing(cfg), START, earlier, turns);
  }
}
