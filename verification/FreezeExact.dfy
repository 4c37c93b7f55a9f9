/** When a verdict is frozen by the end of its own window, exactly: if and only if no earlier note
    leaks into the note. A leak is exhibited as two event lists the outcome tells apart. */
module FreezeExact {
  import opened ScoringTypes
  import opened Tempo
  import opened TempoProofs
  import opened Config
  import opened Matcher
  import opened FreezeProofs
  import StableSort

  // ----- Runs over copies of two events ------------------------------------------------------

  function Copies(e: PlayedNote, n: nat): (r: seq<PlayedNote>)
    ensures |r| == n && forall i :: 0 <= i < n ==> r[i] == e
  {
    seq(n, _ => e)
  }

  /** The target can be matched with the event. */
  predicate Fits(tg: Target, e: PlayedNote) { e.pitch == tg.pitch && InWindow(e, tg) }

  /** Offered both events, `f` first, the target is matched with `e`. */
  predicate Prefers(tg: Target, f: PlayedNote, e: PlayedNote) {
    Fits(tg, e) && (Fits(tg, f) ==> Deviation(e, tg) < Deviation(f, tg))
  }

  /** How many of the first `n` targets fit `f`. */
  function Takers(targets: seq<Target>, f: PlayedNote, n: nat): nat
    requires n <= |targets|
  {
    if n == 0 then 0 else Takers(targets, f, n - 1) + if Fits(targets[n - 1], f) then 1 else 0
  }

  /** How many of the first `n` targets are matched with `f` even when `e` is offered. */
  function Loyal(targets: seq<Target>, f: PlayedNote, e: PlayedNote, n: nat): (r: nat)
    requires n <= |targets|
    ensures r <= Takers(targets, f, n)
  {
    if n == 0 then 0
    else
      Loyal(targets, f, e, n - 1) +
      if Fits(targets[n - 1], f) && !Prefers(targets[n - 1], f, e) then 1 else 0
  }

  function Drawn(targets: seq<Target>, f: PlayedNote, e: PlayedNote, n: nat): (r: nat)
    requires n <= |targets|
    ensures r <= n
  {
    if n == 0 then 0 else Drawn(targets, f, e, n - 1) + if Prefers(targets[n - 1], f, e) then 1 else 0
  }

  lemma {:induction false} OneIsDrawn(targets: seq<Target>, f: PlayedNote, e: PlayedNote, j: nat, n: nat)
    requires j < n <= |targets| && Fits(targets[j], f) && Prefers(targets[j], f, e)
    ensures Loyal(targets, f, e, n) < Takers(targets, f, n)
    decreases n
  {
    hide Fits, Prefers;
    if j < n - 1 { OneIsDrawn(targets, f, e, j, n - 1); }
  }

  lemma {:induction false} PickIs(events: seq<PlayedNote>, consumed: set<nat>, tg: Target, b: nat)
    requires b < |events| && Candidate(events, consumed, tg, b)
    requires forall i: nat :: i < |events| && Candidate(events, consumed, tg, i) ==>
               Deviation(events[b], tg) <= Deviation(events[i], tg) &&
               (i < b ==> Deviation(events[b], tg) < Deviation(events[i], tg))
    ensures Pick(events, consumed, tg, |events|) == Some(b)
  {
    hide Candidate, Deviation;
    assert Pick(events, consumed, tg, |events|).Some?;
  }

  function From(a: nat, b: nat): (r: set<nat>)
    ensures forall i :: i in r <==> a <= i < b
    decreases b
  {
    if b <= a then {} else From(a, b - 1) + {b - 1}
  }

  /** `a` copies of `f` and `b` copies of `e` are gone. */
  function Gone(n: nat, a: nat, b: nat): set<nat> { From(0, a) + From(n, n + b) }

  /** What one target does when copies of both events are left. */
  lemma {:induction false} PickCopies(tg: Target, f: PlayedNote, e: PlayedNote, n: nat, m: nat, a: nat, b: nat)
    requires f.pitch == e.pitch && a <= n && b <= m
    requires Fits(tg, f) && !Prefers(tg, f, e) ==> a < n
    requires Prefers(tg, f, e) ==> b < m
    ensures Pick(Copies(f, n) + Copies(e, m), Gone(n, a, b), tg, n + m) ==
            if Prefers(tg, f, e) then Some(n + b) else if Fits(tg, f) then Some(a) else None
  {
    hide Deviation, InWindow;
    var events := Copies(f, n) + Copies(e, m);
    assert forall i :: 0 <= i < n + m ==> events[i] == if i < n then f else e;
    if Prefers(tg, f, e) {
      PickIs(events, Gone(n, a, b), tg, n + b);
    } else if Fits(tg, f) {
      PickIs(events, Gone(n, a, b), tg, a);
    }
  }

  lemma {:induction false} RunCopies(
    targets: seq<Target>, f: PlayedNote, e: PlayedNote, n: nat, m: nat, k: nat)
    requires f.pitch == e.pitch && k <= |targets| && Takers(targets, f, k) <= n && k <= m
    ensures ConsumedAfter(targets, Copies(f, n) + Copies(e, m), k) ==
            Gone(n, Loyal(targets, f, e, k), Drawn(targets, f, e, k))
    decreases k
  {
    hide Pick, Prefers, Fits, Copies;
    if k > 0 {
      RunCopies(targets, f, e, n, m, k - 1);
      PickCopies(targets[k - 1], f, e, n, m, Loyal(targets, f, e, k - 1), Drawn(targets, f, e, k - 1));
    }
  }

  /** Without the late event every target that fits takes a copy. */
  lemma {:induction false} RunOne(targets: seq<Target>, f: PlayedNote, n: nat, k: nat)
    requires k <= |targets| && Takers(targets, f, k) <= n
    ensures ConsumedAfter(targets, Copies(f, n), k) == From(0, Takers(targets, f, k))
    decreases k
  {
    hide Pick, Fits, Copies;
    if k > 0 {
      RunOne(targets, f, n, k - 1);
      PickOne(targets[k - 1], f, n, Takers(targets, f, k - 1));
    }
  }

  lemma {:induction false} PickOne(tg: Target, f: PlayedNote, n: nat, a: nat)
    requires a <= n && (Fits(tg, f) ==> a < n)
    ensures Pick(Copies(f, n), From(0, a), tg, n) == if Fits(tg, f) then Some(a) else None
  {
    hide Deviation, InWindow;
    if Fits(tg, f) { PickIs(Copies(f, n), From(0, a), tg, a); }
  }

  // ----- A leak changes a verdict --------------------------------------------------------------

  /** As many copies of `f` as there are takers are all gone when note `k` comes: it is MISSED. */
  lemma {:induction false} NothingLeft(band: real, targets: seq<Target>, f: PlayedNote, k: nat)
    requires k < |targets|
    ensures OutcomeAt(band, targets, Copies(f, Takers(targets, f, k)), k).verdict == MISSED
  {
    RunOne(targets, f, Takers(targets, f, k), k);
    hide Takers, ConsumedAfter;
  }

  /** With the late event on offer a copy of `f` is left for note `k`. */
  lemma {:induction false} OneLeft(band: real, targets: seq<Target>, f: PlayedNote, e: PlayedNote, j: nat, k: nat)
    requires f.pitch == e.pitch && j < k < |targets|
    requires Fits(targets[j], f) && Prefers(targets[j], f, e) && InWindow(f, targets[k])
    ensures OutcomeAt(band, targets, Copies(f, Takers(targets, f, k)) + Copies(e, k), k).verdict != MISSED
  {
    var n := Takers(targets, f, k);
    OneIsDrawn(targets, f, e, j, k);
    RunCopies(targets, f, e, n, k, k);
    hide Takers, Loyal, Drawn, ConsumedAfter, Fits, Prefers, Copies;
    var events, a := Copies(f, n) + Copies(e, k), Loyal(targets, f, e, k);
    var gone := Gone(n, a, Drawn(targets, f, e, k));
    assert events[a] == f && a !in gone;
    assert Candidate(events, gone, targets[k], a) || WrongPitch(events, gone, targets[k], a);
  }

  lemma CopiesInOrder(f: PlayedNote, e: PlayedNote, n: nat, m: nat)
    requires f.onTimeNs < e.onTimeNs
    ensures InTime(Copies(f, n)) == Copies(f, n)
    ensures InTime(Copies(f, n) + Copies(e, m)) == Copies(f, n) + Copies(e, m)
  {
    StableSort.SortIdempotent(EventLe, Copies(f, n));
    StableSort.SortIdempotent(EventLe, Copies(f, n) + Copies(e, m));
  }

  lemma LateUnheard(time: real, early: seq<PlayedNote>, e: PlayedNote, m: nat)
    requires e.Seconds() > time
    ensures Heard(time, early + Copies(e, m)) == Heard(time, early)
  {
    var p := (x: PlayedNote) => UpTo(time, x);
    StableSort.FilterAppend(p, early, Copies(e, m));
    StableSort.FilterNone(p, Copies(e, m));
  }

  /** The outcome of note `k` is settled by the events up to `time`. */
  ghost predicate SettledAt(config: ScoreConfig, m: TempoMap, expected: seq<ExpectedNote>, k: nat, time: real)
    requires k < |Canonical(expected)|
  {
    forall events, events' :: Heard(time, events) == Heard(time, events') ==>
      Matched(config, m, expected, events).outcomes[k] == Matched(config, m, expected, events').outcomes[k]
  }

  /** The end of its own window settles note `k`. */
  ghost predicate FrozenAtClose(config: ScoreConfig, m: TempoMap, expected: seq<ExpectedNote>, k: nat)
    requires k < |Canonical(expected)|
  {
    SettledAt(config, m, expected, k, Targets(config, m, Canonical(expected))[k].end)
  }

  /** Two event lists that agree up to the moment of the leak, on which the verdict of `k` differs. */
  lemma LeakThaws(
    config: ScoreConfig, m: TempoMap, expected: seq<ExpectedNote>, j: nat, k: nat, time: real)
    returns (events: seq<PlayedNote>, events': seq<PlayedNote>)
    requires j < k < |Canonical(expected)|
    requires var targets := Targets(config, m, Canonical(expected)); Leaks(time, targets[j], targets[k])
    ensures Heard(time, events) == Heard(time, events')
    ensures Matched(config, m, expected, events).outcomes[k].verdict == MISSED
    ensures Matched(config, m, expected, events').outcomes[k].verdict != MISSED
  {
    var notes := Canonical(expected);
    var targets := Targets(config, m, notes);
    var ns, ns' :| Draws(time, targets[j], targets[k], ns, ns');
    var f: PlayedNote, e: PlayedNote := DrawnEvents(notes[j].pitch, ns, ns');
    var n := Takers(targets, f, k);
    assert targets[j].pitch == f.pitch;
    assert Fits(targets[j], f) && Prefers(targets[j], f, e) && InWindow(f, targets[k]);
    hide Canonical, Targets, Draws, Leaks, Fits, Prefers, Copies, Heard, OutcomeAt, Takers;
    events, events' := Copies(f, n), Copies(f, n) + Copies(e, k);
    LateUnheard(time, events, e, k);
    CopiesInOrder(f, e, n, k);
    NothingLeft(config.perfectBandMs, targets, f, k);
    OneLeft(config.perfectBandMs, targets, f, e, j, k);
  }

  lemma DrawnEvents(pitch: int, ns: int, ns': int) returns (f: PlayedNote, e: PlayedNote)
    requires 0 <= pitch <= 127 && 0 <= ns && Moment(ns) < Moment(ns')
    ensures f.pitch == e.pitch == pitch && f.onTimeNs == ns < ns' == e.onTimeNs
    ensures f.Seconds() == Moment(ns) && e.Seconds() == Moment(ns')
  {
    f, e := EventFields(pitch, 64, ns, -1), EventFields(pitch, 64, ns', -1);
  }

  lemma OutcomeForEach(config: ScoreConfig, m: TempoMap, expected: seq<ExpectedNote>)
    ensures forall events :: |Matched(config, m, expected, events).outcomes| == |Canonical(expected)|
  {
    hide Canonical;
  }

  /** Main result: the end of its own window freezes note `k`, whatever is played, if and only if no
      earlier note of the song leaks into it. */
  lemma FrozenExactlyWhenTight(config: ScoreConfig, m: TempoMap, expected: seq<ExpectedNote>, k: nat)
    requires k < |Canonical(expected)|
    ensures FrozenAtClose(config, m, expected, k) <==> Tight(Targets(config, m, Canonical(expected)), k)
  {
    hide Canonical, Targets, Leaks, Heard, Matched;
    var targets := Targets(config, m, Canonical(expected));
    OutcomeForEach(config, m, expected);
    if Tight(targets, k) {
      forall events, events' | Heard(targets[k].end, events) == Heard(targets[k].end, events')
        ensures Matched(config, m, expected, events).outcomes[k] == Matched(config, m, expected, events').outcomes[k]
      {
        FreezeTheorem(config, m, expected, events, expected, events', k);
      }
    } else {
      var j :| 0 <= j < k && Leaks(targets[k].end, targets[j], targets[k]);
      var events, events' := LeakThaws(config, m, expected, j, k, targets[k].end);
    }
  }

  // ----- The leak test -------------------------------------------------------------------------

  /** The first nanosecond at or after a moment, and the first after it. */
  function FirstFrom(t: real): int { -((-t * 1000000000.0).Floor) }
  function FirstAfter(t: real): int { (t * 1000000000.0).Floor + 1 }

  lemma FirstFromIs(t: real, ns: int)
    ensures Moment(ns) >= t <==> ns >= FirstFrom(t)
  {}

  lemma FirstAfterIs(t: real, ns: int)
    ensures Moment(ns) > t <==> ns >= FirstAfter(t)
  {}

  /** Whether a note leaks, computed from the two windows: the earliest event in both against the
      earliest one after the moment. */
  predicate LeakTest(time: real, j: Target, k: Target) {
    var f, e := FirstFrom(Max(0.0, Max(j.start, k.start))), FirstAfter(time);
    Draws(time, j, k, f, e)
  }

  lemma MomentOrder(a: int, b: int)
    ensures a <= b <==> Moment(a) <= Moment(b)
  {}

  /** The condition of the freeze theorem can be checked before anything is played. */
  lemma LeakTestExact(time: real, j: Target, k: Target)
    ensures LeakTest(time, j, k) <==> Leaks(time, j, k)
  {
    hide Moment, FirstFrom, FirstAfter;
    if Leaks(time, j, k) {
      var f', e' :| Draws(time, j, k, f', e');
      var from := Max(0.0, Max(j.start, k.start));
      var f, e := FirstFrom(from), FirstAfter(time);
      assert Moment(0) == 0.0 by { ZeroMoment(); }
      MomentOrder(0, f');
      FirstFromIs(from, f');
      FirstFromIs(from, f);
      FirstAfterIs(time, e');
      FirstAfterIs(time, e);
      MomentOrder(f, f');
      MomentOrder(e, e');
      MomentOrder(0, f);
      assert Draws(time, j, k, f, e);
    }
  }

  lemma ZeroMoment()
    ensures Moment(0) == 0.0
  {}

  // ----- Where nothing leaks -------------------------------------------------------------------

  /** Note times do not decrease up to note `k`. */
  ghost predicate InOrderUpTo(targets: seq<Target>, k: nat) {
    k < |targets| && forall i, j :: 0 <= i <= j <= k ==> targets[i].time <= targets[j].time
  }

  /** A late side at least as wide as the early side lets nothing leak between notes in order. */
  lemma WideLateSideHolds(config: ScoreConfig, m: TempoMap, notes: seq<ExpectedNote>, k: nat)
    requires config.EarlyBase() <= config.LateBase() && InOrderUpTo(Targets(config, m, notes), k)
    ensures Tight(Targets(config, m, notes), k)
  {
    WindowShape(config, notes[k].startBeat, m);
    hide WindowMs;
  }

  /** Nor does anything leak where no earlier window ends later, whatever its shape. */
  lemma EarlierClosesHold(targets: seq<Target>, k: nat)
    requires k < |targets| && forall j :: 0 <= j < k ==> targets[j].end <= targets[k].end
    ensures Tight(targets, k)
  {}

  lemma TargetTime(config: ScoreConfig, m: TempoMap, notes: seq<ExpectedNote>, i: nat)
    requires i < |notes|
    ensures Targets(config, m, notes)[i].time == m.BeatToSeconds(notes[i].startBeat)
  {
    hide MapFields.BeatToSeconds, WindowMs;
  }

  lemma CanonicalInOrder(expected: seq<ExpectedNote>)
    ensures var notes := Canonical(expected);
            forall i, j :: 0 <= i <= j < |notes| ==> notes[i].startBeat <= notes[j].startBeat
  {
    StableSort.SortCorrect(NoteLe, expected);
    var notes := Canonical(expected);
    forall i, j | 0 <= i <= j < |notes|
      ensures notes[i].startBeat <= notes[j].startBeat
    {
      if i < j { assert NoteLe(notes[i], notes[j]); }
    }
  }

  lemma LaterNotEarlier(m: TempoMap, a: real, b: real)
    requires IsLogarithm(m.ln) && AllCalm(m) && 0.0 <= a <= b
    ensures m.BeatToSeconds(a) <= m.BeatToSeconds(b)
  {
    hide IsLogarithm, AllCalm, MapFields.BeatToSeconds;
    RunsForwardExactlyWhenCalm(m);
  }

  /** On a tempo map without accelerando ramps the notes of a song are in order of time. */
  lemma CalmMapsOrder(config: ScoreConfig, m: TempoMap, expected: seq<ExpectedNote>, k: nat)
    requires IsLogarithm(m.ln) && AllCalm(m) && k < |Canonical(expected)|
    ensures InOrderUpTo(Targets(config, m, Canonical(expected)), k)
  {
    hide IsLogarithm, AllCalm, MapFields.BeatToSeconds, Canonical, Targets;
    var notes := Canonical(expected);
    CanonicalInOrder(expected);
    forall i, j | 0 <= i <= j <= k
      ensures Targets(config, m, notes)[i].time <= Targets(config, m, notes)[j].time
    {
      TargetTime(config, m, notes, i);
      TargetTime(config, m, notes, j);
      LaterNotEarlier(m, notes[i].startBeat, notes[j].startBeat);
    }
  }

  /** Main result, the documented claim: on a tempo map without accelerando ramps a late side at
      least as wide as the early side freezes every note at the end of its own window. */
  lemma DocumentedFreeze(config: ScoreConfig, m: TempoMap, expected: seq<ExpectedNote>, k: nat)
    requires IsLogarithm(m.ln) && AllCalm(m) && config.EarlyBase() <= config.LateBase()
    requires k < |Canonical(expected)|
    ensures FrozenAtClose(config, m, expected, k)
  {
    hide *;
    CalmMapsOrder(config, m, expected, k);
    WideLateSideHolds(config, m, Canonical(expected), k);
    FrozenExactlyWhenTight(config, m, expected, k);
  }
}
