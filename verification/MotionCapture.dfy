/** The motion-triggered snapshot loop of the USB camera (camera/driver.py, `_reader_loop`). */
module MotionCapture {
  import opened Common

  /** `motion_thresh`, `stable_frames`. */
  datatype Config = Config(thresh: real, stableFrames: int) {
    /** How many quiet frames the loop waits for: the test comes after the first one. */
    function Quiet(): nat { if stableFrames <= 1 then 1 else stableFrames }
  }

  datatype Phase = Idle | Active | Stable | Captured

  /** A snapshot: the frame it shows, the frame at which it was taken, and the frame that
      cleared the scene before it (-1 for the first); frames are counted as read. */
  datatype Shot = Shot(frame: nat, at: nat, cleared: int)

  /** The loop's variables, the snapshots so far, and the latest frame that cleared the scene. */
  datatype Loop = Loop(phase: Phase, stable: nat, best: Option<nat>, shots: seq<Shot>, cleared: int)

  const START: Loop := Loop(Idle, 0, None, [], -1)

  /** One frame, number `i`, with its motion score. */
  function Step(c: Config, l: Loop, i: nat, score: real): Loop {
    match l.phase
    case Idle => if score > c.thresh then l.(phase := Active, stable := 0) else l
    case Active =>
      var seen := l.(best := Some(i));
      if score > c.thresh then seen.(stable := 0)
      else seen.(stable := l.stable + 1, phase := if l.stable + 1 >= c.stableFrames then Stable else Active)
    case Stable =>
      l.(phase := Captured, shots := if l.best.Some? then l.shots + [Shot(l.best.value, i, l.cleared)] else l.shots)
    case Captured =>
      if score > c.thresh * 2.0 then l.(phase := Idle, stable := 0, cleared := i) else l
  }

  function Watched(c: Config, scores: seq<real>): Loop {
    if scores == [] then START
    else Step(c, Watched(c, scores[..|scores| - 1]), |scores| - 1, scores[|scores| - 1])
  }

  lemma WatchedSnoc(c: Config, scores: seq<real>, score: real)
    ensures Watched(c, scores + [score]) == Step(c, Watched(c, scores), |scores|, score)
  {
    assert (scores + [score])[..|scores|] == scores;
  }

  // ------------------------------------------------------------------ invariants

  /** Frame `last` ends a run of exactly `n` quiet frames that follows a frame with motion. */
  ghost predicate QuietRun(c: Config, scores: seq<real>, last: int, n: nat) {
    && 0 <= last - n && last < |scores|
    && scores[last - n] > c.thresh
    && forall k :: last - n < k <= last ==> scores[k] <= c.thresh
  }

  ghost predicate ShotOk(c: Config, scores: seq<real>, s: Shot) {
    && s.at == s.frame + 1 && s.at < |scores|
    && QuietRun(c, scores, s.frame, c.Quiet())
    && s.cleared < s.frame - c.Quiet()
  }

  /** The scene was cleared between two snapshots, by a frame with twice the threshold. */
  ghost predicate Apart(c: Config, scores: seq<real>, s: Shot, t: Shot) {
    s.at < t.cleared < |scores| && scores[t.cleared] > c.thresh * 2.0
  }

  /** Where the loop stands between two snapshots. */
  ghost predicate PhaseOk(c: Config, scores: seq<real>, l: Loop) {
    var n := |scores|;
    && -1 <= l.cleared < n
    && match l.phase
       case Idle => true
       case Active => l.stable < c.Quiet() && QuietRun(c, scores, n - 1, l.stable) && l.cleared < n - 1 - l.stable
                      && (l.stable > 0 ==> l.best == Some(n - 1))
       case Stable => QuietRun(c, scores, n - 1, c.Quiet()) && l.cleared < n - 1 - c.Quiet() && l.best == Some(n - 1)
       case Captured => |l.shots| > 0
  }

  ghost predicate ClearedOk(c: Config, scores: seq<real>, l: Loop) {
    |l.shots| > 0 && !l.phase.Captured? ==>
      l.shots[|l.shots| - 1].at < l.cleared < |scores| && scores[l.cleared] > c.thresh * 2.0
  }

  ghost predicate ShotsOk(c: Config, scores: seq<real>, l: Loop) {
    && (forall i :: 0 <= i < |l.shots| ==> ShotOk(c, scores, l.shots[i]))
    && (forall i :: 0 < i < |l.shots| ==> Apart(c, scores, l.shots[i - 1], l.shots[i]))
  }

  /** Frames used up by the finished cycles and the current one. */
  function Spent(c: Config, l: Loop): int {
    var cycles := |l.shots| * (c.Quiet() + 3);
    match l.phase
    case Idle => cycles
    case Active => cycles + 1 + l.stable
    case Stable => cycles + 1 + c.Quiet()
    case Captured => cycles - 1
  }

  ghost predicate Inv(c: Config, scores: seq<real>, l: Loop) {
    PhaseOk(c, scores, l) && ClearedOk(c, scores, l) && ShotsOk(c, scores, l) && Spent(c, l) <= |scores|
  }

  lemma QuietRunGrows(c: Config, scores: seq<real>, score: real, last: int, n: nat)
    requires QuietRun(c, scores, last, n)
    ensures QuietRun(c, scores + [score], last, n)
    ensures last == |scores| - 1 && score <= c.thresh ==> QuietRun(c, scores + [score], last + 1, n + 1)
  {
    var more := scores + [score];
    assert forall k :: 0 <= k < |scores| ==> more[k] == scores[k];
  }

  lemma ShotsGrow(c: Config, scores: seq<real>, score: real, l: Loop)
    requires ShotsOk(c, scores, l)
    ensures ShotsOk(c, scores + [score], l)
  {
    forall i | 0 <= i < |l.shots| ensures ShotOk(c, scores + [score], l.shots[i]) {
      QuietRunGrows(c, scores, score, l.shots[i].frame, c.Quiet());
    }
    forall i | 0 < i < |l.shots| ensures Apart(c, scores + [score], l.shots[i - 1], l.shots[i]) {
      assert Apart(c, scores, l.shots[i - 1], l.shots[i]);
    }
  }

  lemma StepPhase(c: Config, scores: seq<real>, l: Loop, score: real)
    requires PhaseOk(c, scores, l)
    ensures PhaseOk(c, scores + [score], Step(c, l, |scores|, score))
  {
    if l.phase.Active? {
      QuietRunGrows(c, scores, score, |scores| - 1, l.stable);
    }
  }

  lemma StepCleared(c: Config, scores: seq<real>, l: Loop, score: real)
    requires PhaseOk(c, scores, l) && ClearedOk(c, scores, l) && ShotsOk(c, scores, l)
    ensures ClearedOk(c, scores + [score], Step(c, l, |scores|, score))
  {
    if l.phase.Captured? {
      assert ShotOk(c, scores, l.shots[|l.shots| - 1]);
    }
  }

  /** The snapshot that the STABLE phase takes at frame |scores|. */
  lemma NewShot(c: Config, scores: seq<real>, l: Loop, score: real)
    requires l.phase.Stable? && PhaseOk(c, scores, l) && ClearedOk(c, scores, l)
    ensures var s := Shot(|scores| - 1, |scores|, l.cleared);
            && Step(c, l, |scores|, score).shots == l.shots + [s]
            && ShotOk(c, scores + [score], s)
            && (|l.shots| > 0 ==> Apart(c, scores + [score], l.shots[|l.shots| - 1], s))
  {
    QuietRunGrows(c, scores, score, |scores| - 1, c.Quiet());
  }

  lemma StepShots(c: Config, scores: seq<real>, l: Loop, score: real)
    requires PhaseOk(c, scores, l) && ClearedOk(c, scores, l) && ShotsOk(c, scores, l)
    ensures ShotsOk(c, scores + [score], Step(c, l, |scores|, score))
  {
    ShotsGrow(c, scores, score, l);
    if l.phase.Stable? {
      NewShot(c, scores, l, score);
      ShotAdded(c, scores + [score], l, Shot(|scores| - 1, |scores|, l.cleared), Step(c, l, |scores|, score));
    }
  }

  lemma ShotAdded(c: Config, scores: seq<real>, l: Loop, s: Shot, m: Loop)
    requires ShotsOk(c, scores, l) && ShotOk(c, scores, s) && m.shots == l.shots + [s]
    requires |l.shots| > 0 ==> Apart(c, scores, l.shots[|l.shots| - 1], s)
    ensures ShotsOk(c, scores, m)
  {
  }

  lemma StepSpent(c: Config, n: nat, l: Loop, score: real)
    requires Spent(c, l) <= n && (l.phase.Stable? ==> l.best.Some?) && (l.phase.Active? ==> l.stable < c.Quiet())
    ensures Spent(c, Step(c, l, n, score)) <= n + 1
  {
    var q := c.Quiet() + 3;
    assert (|l.shots| + 1) * q == |l.shots| * q + q;
  }

  lemma {:induction false} WatchedInv(c: Config, scores: seq<real>)
    ensures Inv(c, scores, Watched(c, scores))
  {
    if scores != [] {
      var before, score := scores[..|scores| - 1], scores[|scores| - 1];
      WatchedInv(c, before);
      var l := Watched(c, before);
      StepPhase(c, before, l, score);
      StepCleared(c, before, l, score);
      StepShots(c, before, l, score);
      StepSpent(c, |before|, l, score);
      assert scores == before + [score];
    }
  }

  // ---------------------------------------------------------------- every stream

  /** On every stream of scores, a snapshot shows the last frame of a run of exactly the
      configured number of quiet frames after motion, and is taken one frame later. */
  lemma ShotsAreStill(c: Config, scores: seq<real>, i: nat)
    requires i < |Watched(c, scores).shots|
    ensures var s := Watched(c, scores).shots[i];
            && s.at == s.frame + 1 && s.at < |scores| && c.Quiet() <= s.frame
            && c.Quiet() == (if c.stableFrames <= 1 then 1 else c.stableFrames)
            && scores[s.frame - c.Quiet()] > c.thresh
            && forall k :: s.frame - c.Quiet() < k <= s.frame ==> scores[k] <= c.thresh
  {
    WatchedInv(c, scores);
    assert ShotOk(c, scores, Watched(c, scores).shots[i]);
  }

  /** Between two snapshots the scene was cleared: some frame after the first one was taken,
      and before the motion that led to the second, scored above twice the threshold. */
  lemma ShotsAreApart(c: Config, scores: seq<real>, i: nat) returns (k: nat)
    requires i + 1 < |Watched(c, scores).shots|
    ensures var s, t := Watched(c, scores).shots[i], Watched(c, scores).shots[i + 1];
            s.at < k < t.frame - c.Quiet() && k < |scores| && scores[k] > c.thresh * 2.0
  {
    WatchedInv(c, scores);
    var shots := Watched(c, scores).shots;
    assert Apart(c, scores, shots[i], shots[i + 1]) && ShotOk(c, scores, shots[i + 1]);
    k := shots[i + 1].cleared;
  }

  /** k snapshots take at least k * (quiet + 3) - 1 frames. */
  lemma ShotsAreRare(c: Config, scores: seq<real>)
    ensures |Watched(c, scores).shots| * (c.Quiet() + 3) <= |scores| + 1
  {
    WatchedInv(c, scores);
  }

  // ------------------------------------------------------- nothing is overlooked

  function Times(n: nat, score: real): seq<real> { if n == 0 then [] else Times(n - 1, score) + [score] }

  ghost predicate AllQuiet(c: Config, scores: seq<real>) {
    forall k :: 0 <= k < |scores| ==> scores[k] <= c.thresh
  }

  lemma {:induction false} QuietFrames(c: Config, scores: seq<real>, quiet: seq<real>)
    requires Watched(c, scores).phase.Active? && Watched(c, scores).stable == 0
    requires AllQuiet(c, quiet) && |quiet| <= c.Quiet()
    ensures var l, m := Watched(c, scores), Watched(c, scores + quiet);
            && m.shots == l.shots && m.cleared == l.cleared && m.stable == |quiet|
            && m.phase == (if |quiet| == c.Quiet() then Stable else Active)
            && (|quiet| > 0 ==> m.best == Some(|scores| + |quiet| - 1))
  {
    if quiet == [] {
      assert scores + quiet == scores;
    } else {
      var n := |quiet| - 1;
      QuietFrames(c, scores, quiet[..n]);
      WatchedSnoc(c, scores + quiet[..n], quiet[n]);
      assert scores + quiet == (scores + quiet[..n]) + [quiet[n]];
    }
  }

  /** An object is never missed: while the loop waits for motion or sees it, a frame with
      motion, then the configured number of quiet frames, then any frame, gives one new
      snapshot, and it shows the last quiet frame. */
  lemma ObjectIsCaptured(c: Config, scores: seq<real>, motion: real, quiet: seq<real>, next: real)
    requires var p := Watched(c, scores).phase; p.Idle? || p.Active?
    requires motion > c.thresh && AllQuiet(c, quiet) && |quiet| == c.Quiet()
    ensures var l, m := Watched(c, scores), Watched(c, scores + [motion] + quiet + [next]);
            && m.phase.Captured? && |m.shots| == |l.shots| + 1 && m.shots[..|l.shots|] == l.shots
            && m.shots[|l.shots|].frame == |scores| + |quiet|
  {
    WatchedSnoc(c, scores, motion);
    QuietFrames(c, scores + [motion], quiet);
    WatchedSnoc(c, scores + [motion] + quiet, next);
  }

  /** An object, and a frame that clears the scene. */
  function Cycle(c: Config): seq<real> { [Loud(c)] + Times(c.Quiet(), c.thresh) + [Loud(c)] + [Loud(c)] }

  function Parade(c: Config, k: nat): seq<real> { if k == 0 then [] else Parade(c, k - 1) + Cycle(c) }

  function Loud(c: Config): real { if c.thresh >= 0.0 then c.thresh * 2.0 + 1.0 else 1.0 }

  lemma {:induction false} TimesQuiet(c: Config, n: nat)
    ensures |Times(n, c.thresh)| == n && AllQuiet(c, Times(n, c.thresh))
  {
    if n > 0 {
      TimesQuiet(c, n - 1);
    }
  }

  lemma OneMoreObject(c: Config, before: seq<real>)
    requires Watched(c, before).phase.Idle?
    ensures var after := before + Cycle(c);
            && |after| == |before| + c.Quiet() + 3
            && Watched(c, after).phase.Idle? && |Watched(c, after).shots| == |Watched(c, before).shots| + 1
  {
    TimesQuiet(c, c.Quiet());
    var quiet := Times(c.Quiet(), c.thresh);
    ObjectIsCaptured(c, before, Loud(c), quiet, Loud(c));
    var taken := before + [Loud(c)] + quiet + [Loud(c)];
    WatchedSnoc(c, taken, Loud(c));
    assert before + Cycle(c) == taken + [Loud(c)];
  }

  lemma {:induction false} ParadeShots(c: Config, k: nat)
    ensures |Parade(c, k)| == k * (c.Quiet() + 3)
    ensures Watched(c, Parade(c, k)).phase.Idle? && |Watched(c, Parade(c, k)).shots| == k
  {
    if k > 0 {
      ParadeShots(c, k - 1);
      OneMoreObject(c, Parade(c, k - 1));
      var q := c.Quiet() + 3;
      assert k * q == (k - 1) * q + q;
    }
  }

  /** The bound of `ShotsAreRare` is met for every positive count. */
  lemma BoundIsTight(c: Config, k: nat) returns (scores: seq<real>)
    requires k > 0
    ensures |Watched(c, scores).shots| == k && k * (c.Quiet() + 3) == |scores| + 1
  {
    ParadeShots(c, k);
    var all := Parade(c, k);
    assert k * (c.Quiet() + 3) > 0;
    scores := all[..|all| - 1];
  }

  // ------------------------------------------------------------------- the thread

  /** What `read()` gives: a frame with its motion score against the frame before, or nothing. */
  datatype Capture = Failed | Frame(score: real)

  function ScoresOf(captures: seq<Capture>): seq<real> {
    if captures == [] then []
    else ScoresOf(captures[..|captures| - 1]) +
         match captures[|captures| - 1] case Failed => [] case Frame(score) => [score]
  }

  lemma {:induction false} ScoresConcat(a: seq<Capture>, b: seq<Capture>)
    ensures ScoresOf(a + b) == ScoresOf(a) + ScoresOf(b)
  {
    if b == [] {
      assert a + b == a;
    } else {
      ScoresConcat(a, b[..|b| - 1]);
      assert (a + b)[..|a + b| - 1] == a + b[..|b| - 1];
    }
  }

  /** A failed read changes nothing, wherever it falls; a frame counts with its own score. */
  lemma FailedReadsChangeNothing(c: Config, a: seq<Capture>, b: seq<Capture>, score: real)
    ensures Watched(c, ScoresOf(a + [Failed] + b)) == Watched(c, ScoresOf(a + b))
    ensures ScoresOf(a + [Frame(score)] + b) == ScoresOf(a) + [score] + ScoresOf(b)
  {
    ScoresConcat(a, b);
    ScoresConcat(a, [Failed]);
    ScoresConcat(a + [Failed], b);
    ScoresConcat(a, [Frame(score)]);
    ScoresConcat(a + [Frame(score)], b);
    assert ScoresOf([Failed]) == [] && ScoresOf([Frame(score)]) == [score];
    assert ScoresOf(a + [Failed]) == ScoresOf(a);
  }

  class Camera {
    const config: Config
    var pending: Option<Shot>

    constructor (config: Config)
      ensures this.config == config && pending == None
    {
      this.config, this.pending := config, None;
    }

    /** `_reader_loop` over the captures until the stop flag: failed reads change nothing, and
        the pending frame is the latest snapshot. */
    method ReaderLoop(captures: seq<Capture>) returns (shots: seq<Shot>)
      modifies this
      ensures shots == Watched(config, ScoresOf(captures)).shots
      ensures pending == if shots == [] then old(pending) else Some(shots[|shots| - 1])
    {
      shots := [];
      var state, stable, best, frames, cleared := Idle, 0, None, 0, -1;
      for i := 0 to |captures|
        invariant frames == |ScoresOf(captures[..i])|
        invariant Watched(config, ScoresOf(captures[..i])) == Loop(state, stable, best, shots, cleared)
        invariant pending == if shots == [] then old(pending) else Some(shots[|shots| - 1])
      {
        assert captures[..i + 1][..i] == captures[..i];
        var capture := captures[i];
        if capture.Failed? {
          assert ScoresOf(captures[..i + 1]) == ScoresOf(captures[..i]);
          continue;
        }
        var score := capture.score;
        ghost var before := ScoresOf(captures[..i]);
        assert ScoresOf(captures[..i + 1]) == before + [score];
        WatchedSnoc(config, before, score);
        WatchedInv(config, before);
        if state.Idle? {
          if score > config.thresh {
            state, stable := Active, 0;
          }
        } else if state.Active? {
          best := Some(frames);
          if score <= config.thresh {
            stable := stable + 1;
            if stable >= config.stableFrames {
              state := Stable;
            }
          } else {
            stable := 0;
          }
        } else if state.Stable? {
          var shot := Shot(best.value, frames, cleared);
          pending := Some(shot);
          shots := shots + [shot];
          state := Captured;
        } else {
          if score > config.thresh * 2.0 {
            state, stable, cleared := Idle, 0, frames;
          }
        }
        frames := frames + 1;
      }
      assert captures[..|captures|] == captures;
    }
  }
}
