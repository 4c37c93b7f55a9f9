/** When, exactly, a verdict is settled: for every moment, the condition under which no event after it
    can change the outcome of a note. The windows of earlier notes matter only through the pairs that
    leak, because the windows of one configuration keep one ratio and note times do not decrease. */
module SettledMoment {
  import opened ScoringTypes
  import opened Tempo
  import opened Config
  import opened Matcher
  import opened FreezeProofs
  import opened FreezeExact
  import RealtimeProofs
  import StableSort

  // ----- Sufficient ----------------------------------------------------------------------------

  /** The times do not decrease up to note `k`, and no window lies inside a later one. */
  ghost predicate Staggered(targets: seq<Target>, k: nat) {
    && k < |targets|
    && forall i, j :: 0 <= i <= j <= k ==>
         && targets[i].time <= targets[j].time
         && (targets[i].start <= targets[j].start || targets[i].end <= targets[j].end)
  }

  /** An event at `e`, after `time`, lies in the window of `j` and nearer to it than the one at `f`. */
  predicate Tempts(time: real, j: Target, f: int, e: int) {
    && 0 <= f && j.start <= Moment(f) <= time < Moment(e) <= j.end
    && Abs(Moment(e) - j.time) < Abs(Moment(f) - j.time)
  }

  /** One of the first `n` notes may have left the event for one after `time`. */
  ghost predicate Tempted(time: real, targets: seq<Target>, n: nat, f: PlayedNote)
    requires n <= |targets|
  {
    exists j, e :: 0 <= j < n && targets[j].pitch == f.pitch && Tempts(time, targets[j], f.onTimeNs, e)
  }

  /** Nothing the big run consumed is free in the small run, and every event freed was left by a note
      that was tempted. */
  ghost predicate FreedAreTempted(
    time: real, targets: seq<Target>, small: seq<PlayedNote>, big: seq<PlayedNote>, n: nat)
    requires n <= |targets|
  {
    var cs, cb := ConsumedAfter(targets, small, n), ConsumedAfter(targets, big, n);
    && (forall i: nat :: i < |small| && i in cb ==> i in cs)
    && (forall i: nat :: i < |small| && i in cs && i !in cb ==> Tempted(time, targets, n, small[i]))
  }

  /** A note that passes over `f` for an event `g` that an earlier note left was tempted itself, or the
      earlier one would have left `f` as well. */
  lemma PassedOn(time: real, j: Target, n: Target, f: int, g: int, e: int)
    requires j.time <= n.time && (j.start <= n.start || j.end <= n.end)
    requires Tempts(time, j, g, e)
    requires 0 <= f && n.start <= Moment(f) <= n.end && Moment(f) <= time && n.start <= Moment(g) <= n.end
    requires Abs(Moment(g) - n.time) <= Abs(Moment(f) - n.time)
    ensures Tempts(time, n, f, e) || Tempts(time, j, f, e)
  {}

  lemma {:induction false} TemptedStep(
    time: real, targets: seq<Target>, k: nat, small: seq<PlayedNote>, big: seq<PlayedNote>, n: nat, s: nat, b: nat)
    requires n < k < |targets| && Staggered(targets, k) && ExtendsAfter(time, small, big) && s < |small| && b < |big|
    requires FreedAreTempted(time, targets, small, big, n)
    requires small[s].pitch == targets[n].pitch && InWindow(small[s], targets[n])
    requires big[b].pitch == targets[n].pitch && InWindow(big[b], targets[n])
    requires Deviation(big[b], targets[n]) <= Deviation(small[s], targets[n])
    requires s < b ==> Deviation(big[b], targets[n]) < Deviation(small[s], targets[n])
    requires b < |small| ==> b in ConsumedAfter(targets, small, n) && b !in ConsumedAfter(targets, big, n)
    ensures Tempted(time, targets, n + 1, small[s])
  {
    hide ConsumedAfter;
    var f, late := small[s].onTimeNs, big[b].onTimeNs;
    if b >= |small| {
      assert Tempts(time, targets[n], f, late);
    } else {
      assert Tempted(time, targets, n, small[b]);
      var j, e :| 0 <= j < n && targets[j].pitch == small[b].pitch && Tempts(time, targets[j], small[b].onTimeNs, e);
      hide Staggered;
      StaggeredAt(targets, k, j, n);
      PassedOn(time, targets[j], targets[n], f, small[b].onTimeNs, e);
    }
  }

  lemma StaggeredAt(targets: seq<Target>, k: nat, i: nat, j: nat)
    requires Staggered(targets, k) && i <= j <= k
    ensures targets[i].time <= targets[j].time
    ensures targets[i].start <= targets[j].start || targets[i].end <= targets[j].end
  {}

  lemma {:induction false} FreedByTemptation(
    time: real, targets: seq<Target>, k: nat, small: seq<PlayedNote>, big: seq<PlayedNote>, n: nat,
    s: Option<nat>, b: Option<nat>)
    requires n < k < |targets| && Staggered(targets, k) && ExtendsAfter(time, small, big)
    requires FreedAreTempted(time, targets, small, big, n)
    requires s == MatchOf(targets, small, n) && b == MatchOf(targets, big, n)
    ensures b.Some? && b.value < |small| ==> b == s || b.value in ConsumedAfter(targets, small, n)
    ensures s.Some? && s != b ==> Tempted(time, targets, n + 1, small[s.value])
  {
    hide ConsumedAfter, Staggered, Tempted;
    var cs, cb, tg := ConsumedAfter(targets, small, n), ConsumedAfter(targets, big, n), targets[n];
    if b.Some? && b.value < |small| && b.value !in cs {
      assert Candidate(small, cs, tg, b.value);
    }
    if s.Some? {
      assert Candidate(big, cb, tg, s.value);
      if b != s { TemptedStep(time, targets, k, small, big, n, s.value, b.value); }
    }
  }

  lemma {:induction false} FreedAreTemptedUpTo(
    time: real, targets: seq<Target>, k: nat, small: seq<PlayedNote>, big: seq<PlayedNote>, n: nat)
    requires n <= k && Staggered(targets, k) && ExtendsAfter(time, small, big)
    ensures FreedAreTempted(time, targets, small, big, n)
    decreases n
  {
    hide MatchOf, ConsumedAfter, Tempts, Staggered, ExtendsAfter;
    assert k < |targets| by { StaggeredLength(targets, k); }
    if n == 0 {
      NothingTempted(time, targets, small, big);
    } else {
      FreedAreTemptedUpTo(time, targets, k, small, big, n - 1);
      var s, b := MatchOf(targets, small, n - 1), MatchOf(targets, big, n - 1);
      FreedByTemptation(time, targets, k, small, big, n - 1, s, b);
      ConsumedNext(targets, small, n - 1);
      ConsumedNext(targets, big, n - 1);
    }
  }

  lemma StaggeredLength(targets: seq<Target>, k: nat)
    requires Staggered(targets, k)
    ensures k < |targets|
  {}

  lemma NothingTempted(time: real, targets: seq<Target>, small: seq<PlayedNote>, big: seq<PlayedNote>)
    ensures FreedAreTempted(time, targets, small, big, 0)
  {}

  /** No event of the window of `k` comes after `time`. */
  ghost predicate NoneToCome(time: real, k: Target) {
    forall ns {:trigger Moment(ns)} :: 0 <= ns && k.start <= Moment(ns) <= k.end ==> Moment(ns) <= time
  }

  /** Nothing that happens after `time` can reach note `k`. */
  ghost predicate OutOfReach(time: real, targets: seq<Target>, k: nat) {
    && k < |targets| && NoneToCome(time, targets[k])
    && forall j :: 0 <= j < k ==> !Leaks(time, targets[j], targets[k])
  }

  lemma TemptationLeaks(time: real, j: Target, k: Target, f: int, e: int)
    requires Tempts(time, j, f, e) && k.start <= Moment(f) <= k.end
    ensures Leaks(time, j, k)
  {
    assert Draws(time, j, k, f, e);
  }

  lemma SettledOutcome(
    band: real, time: real, targets: seq<Target>, k: nat, small: seq<PlayedNote>, big: seq<PlayedNote>)
    requires Staggered(targets, k) && OutOfReach(time, targets, k) && ExtendsAfter(time, small, big)
    ensures OutcomeAt(band, targets, small, k) == OutcomeAt(band, targets, big, k)
  {
    FreedAreTemptedUpTo(time, targets, k, small, big, k);
    var cs, cb := ConsumedAfter(targets, small, k), ConsumedAfter(targets, big, k);
    forall i: nat | i < |small| && InWindow(small[i], targets[k])
      ensures i in cs <==> i in cb
    {
      if i in cs && i !in cb {
        var j, e :| 0 <= j < k && targets[j].pitch == small[i].pitch && Tempts(time, targets[j], small[i].onTimeNs, e);
        TemptationLeaks(time, targets[j], targets[k], small[i].onTimeNs, e);
      }
    }
    assert NoneInWindow(big, targets[k], |small|) by {
      forall i | |small| <= i < |big|
        ensures !InWindow(big[i], targets[k])
      {
        assert big[i].Seconds() == Moment(big[i].onTimeNs);
      }
    }
    hide Staggered, OutOfReach, FreedAreTempted;
    OutcomeAgrees(band, k, small, cs, big, cb, targets[k], |small|);
  }

  lemma SettledByHeard(
    config: ScoreConfig, m: TempoMap, expected: seq<ExpectedNote>, events: seq<PlayedNote>, k: nat, time: real)
    requires var targets := Targets(config, m, Canonical(expected));
             Staggered(targets, k) && OutOfReach(time, targets, k)
    ensures var targets := Targets(config, m, Canonical(expected));
            OutcomeAt(config.perfectBandMs, targets, InTime(events), k) ==
            OutcomeAt(config.perfectBandMs, targets, InTime(Heard(time, events)), k)
  {
    hide InTime, Heard, Targets, Canonical, Staggered, OutOfReach;
    var targets := Targets(config, m, Canonical(expected));
    HeardIsPrefix(events, time);
    SettledOutcome(config.perfectBandMs, time, targets, k, InTime(Heard(time, events)), InTime(events));
  }

  /** The windows of one configuration, at notes in order, are staggered. */
  lemma WindowsStaggered(config: ScoreConfig, m: TempoMap, notes: seq<ExpectedNote>, k: nat)
    requires InOrderUpTo(Targets(config, m, notes), k)
    ensures Staggered(Targets(config, m, notes), k)
  {
    var targets := Targets(config, m, notes);
    forall i, j | 0 <= i <= j <= k
      ensures targets[i].start <= targets[j].start || targets[i].end <= targets[j].end
    {
      OneRatio(config, m, notes[i].startBeat, notes[j].startBeat);
    }
    hide WindowMs;
  }

  /** Of two windows of one configuration one is at least as wide on both sides. */
  lemma OneRatio(config: ScoreConfig, m: TempoMap, a: real, b: real)
    ensures var v, w := WindowMs(config, a, m), WindowMs(config, b, m);
            v.earlyMs >= w.earlyMs || v.lateMs <= w.lateMs
  {
    hide Scaled;
    var s, t := Scale(config, a, m), Scale(config, b, m);
    if s <= t {
      ScaledClamp(config.LateBase(), s, s, t);
    } else {
      ScaledClamp(config.EarlyBase(), s, t, s);
    }
  }

  // ----- Necessary -----------------------------------------------------------------------------

  /** More copies of an event in window `k` than there are notes before it leave one for `k`. */
  lemma EnoughCopies(band: real, targets: seq<Target>, x: PlayedNote, k: nat)
    requires k < |targets| && Fits(targets[k], x)
    ensures OutcomeAt(band, targets, Copies(x, k + 1), k).verdict != MISSED
    ensures OutcomeAt(band, targets, [], k).verdict == MISSED
  {
    TakersFew(targets, x, k);
    RunOne(targets, x, k + 1, k);
    hide Takers, ConsumedAfter, InWindow, Copies;
    var a := Takers(targets, x, k);
    assert Candidate(Copies(x, k + 1), From(0, a), targets[k], a);
  }

  lemma {:induction false} TakersFew(targets: seq<Target>, x: PlayedNote, n: nat)
    requires n <= |targets|
    ensures Takers(targets, x, n) <= n
    decreases n
  {
    if n > 0 { TakersFew(targets, x, n - 1); }
  }

  lemma CopiesSorted(x: PlayedNote, n: nat)
    ensures InTime([]) == [] && InTime(Copies(x, n)) == Copies(x, n)
  {
    StableSort.SortIdempotent(EventLe, []);
    StableSort.SortIdempotent(EventLe, Copies(x, n));
  }

  lemma OutcomeOfMatched(
    config: ScoreConfig, m: TempoMap, expected: seq<ExpectedNote>, events: seq<PlayedNote>, k: nat)
    requires k < |Canonical(expected)|
    ensures Matched(config, m, expected, events).outcomes[k] ==
            OutcomeAt(config.perfectBandMs, Targets(config, m, Canonical(expected)), InTime(events), k)
  {
    hide Canonical, InTime;
  }

  /** An event of its own window that is still to come decides note `k`. */
  lemma OpenWindowThaws(config: ScoreConfig, m: TempoMap, expected: seq<ExpectedNote>, k: nat, time: real, ns: int)
    returns (events: seq<PlayedNote>)
    requires k < |Canonical(expected)| && 0 <= ns && time < Moment(ns)
    requires var tg := Targets(config, m, Canonical(expected))[k]; tg.start <= Moment(ns) <= tg.end
    ensures Heard(time, events) == Heard(time, [])
    ensures Matched(config, m, expected, []).outcomes[k].verdict == MISSED
    ensures Matched(config, m, expected, events).outcomes[k].verdict != MISSED
  {
    var notes := Canonical(expected);
    var targets := Targets(config, m, notes);
    var x: PlayedNote := EventFields(notes[k].pitch, 64, ns, -1);
    assert x.Seconds() == Moment(ns) && Fits(targets[k], x);
    hide *;
    events := Copies(x, k + 1);
    LateUnheard(time, [], x, k + 1);
    assert [] + events == events;
    CopiesSorted(x, k + 1);
    EnoughCopies(config.perfectBandMs, targets, x, k);
    OutcomeOfMatched(config, m, expected, [], k);
    OutcomeOfMatched(config, m, expected, events, k);
    OutcomeForEach(config, m, expected);
  }

  // ----- Exactly ---------------------------------------------------------------------------------

  /** Main result: on a song whose note times do not decrease, a moment settles the outcome of note `k`,
      whatever is played, if and only if no event of its window is still to come and no earlier note
      leaks into it at that moment. */
  lemma SettledExactly(config: ScoreConfig, m: TempoMap, expected: seq<ExpectedNote>, k: nat, time: real)
    requires InOrderUpTo(Targets(config, m, Canonical(expected)), k)
    ensures SettledAt(config, m, expected, k, time) <==>
            OutOfReach(time, Targets(config, m, Canonical(expected)), k)
  {
    hide Canonical, Targets, Leaks, Heard, Matched, OutcomeAt, InTime;
    var targets := Targets(config, m, Canonical(expected));
    OutcomeForEach(config, m, expected);
    if OutOfReach(time, targets, k) {
      WindowsStaggered(config, m, Canonical(expected), k);
      forall events, events' | Heard(time, events) == Heard(time, events')
        ensures Matched(config, m, expected, events).outcomes[k] == Matched(config, m, expected, events').outcomes[k]
      {
        SettledByHeard(config, m, expected, events, k, time);
        SettledByHeard(config, m, expected, events', k, time);
        OutcomeOfMatched(config, m, expected, events, k);
        OutcomeOfMatched(config, m, expected, events', k);
      }
    } else if NoneToCome(time, targets[k]) {
      var j :| 0 <= j < k && Leaks(time, targets[j], targets[k]);
      var events, events' := LeakThaws(config, m, expected, j, k, time);
    } else {
      var ns :| 0 <= ns && targets[k].start <= Moment(ns) <= targets[k].end && Moment(ns) > time;
      var events := OpenWindowThaws(config, m, expected, k, time, ns);
    }
  }

  /** From the latest close of the notes up to it on, every note of every song is settled, whatever the
      order of note times. */
  lemma RunningMaxSettles(config: ScoreConfig, m: TempoMap, expected: seq<ExpectedNote>, k: nat, time: real)
    requires k < |Canonical(expected)|
    requires var targets := Targets(config, m, Canonical(expected));
             forall j :: 0 <= j <= k ==> targets[j].end <= time
    ensures SettledAt(config, m, expected, k, time)
    ensures OutOfReach(time, Targets(config, m, Canonical(expected)), k)
  {
    hide Canonical, Targets, Heard, Matched, OutcomeAt, InTime, SameUpTo;
    var targets := Targets(config, m, Canonical(expected));
    OutcomeForEach(config, m, expected);
    forall events, events' | Heard(time, events) == Heard(time, events')
      ensures Matched(config, m, expected, events).outcomes[k] == Matched(config, m, expected, events').outcomes[k]
    {
      RealtimeProofs.CommonPrefix(targets, k + 1, time, events, events');
      PrefixOutcome(config.perfectBandMs, targets, InTime(events), InTime(events'), k, |InTime(Heard(time, events))|);
      OutcomeOfMatched(config, m, expected, events, k);
      OutcomeOfMatched(config, m, expected, events', k);
    }
  }

  // ----- The test -------------------------------------------------------------------------------

  /** The first moment of window `k` that is still to come lies after its end. */
  predicate NoneToComeTest(time: real, k: Target) {
    var from, after := FirstFrom(Max(0.0, k.start)), FirstAfter(time);
    k.end < Moment(if from < after then after else from)
  }

  lemma NoneToComeExact(time: real, k: Target)
    ensures NoneToComeTest(time, k) <==> NoneToCome(time, k)
  {
    hide Moment, FirstFrom, FirstAfter;
    var start := Max(0.0, k.start);
    var from, after := FirstFrom(start), FirstAfter(time);
    var first := if from < after then after else from;
    assert Moment(0) == 0.0 by { ZeroMoment(); }
    FirstFromIs(start, first);
    FirstAfterIs(time, first);
    MomentOrder(0, first);
    forall ns | 0 <= ns && k.start <= Moment(ns) <= k.end && Moment(ns) > time
      ensures Moment(first) <= k.end
    {
      MomentOrder(0, ns);
      FirstFromIs(start, ns);
      FirstAfterIs(time, ns);
      MomentOrder(first, ns);
    }
  }

  /** Whether anything after `time` can reach note `k`, computed from the windows. */
  predicate OutOfReachTest(time: real, targets: seq<Target>, k: nat) {
    && k < |targets| && NoneToComeTest(time, targets[k])
    && forall j :: 0 <= j < k ==> !LeakTest(time, targets[j], targets[k])
  }

  /** The exact condition can be checked before anything is played. */
  lemma OutOfReachTestExact(time: real, targets: seq<Target>, k: nat)
    ensures OutOfReachTest(time, targets, k) <==> OutOfReach(time, targets, k)
  {
    hide NoneToComeTest, NoneToCome, LeakTest, Leaks;
    if k < |targets| {
      NoneToComeExact(time, targets[k]);
      forall j | 0 <= j < k
        ensures LeakTest(time, targets[j], targets[k]) <==> Leaks(time, targets[j], targets[k])
      {
        LeakTestExact(time, targets[j], targets[k]);
      }
    }
  }
}
