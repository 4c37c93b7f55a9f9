/** When later events can no longer change a note's outcome: two runs of the greedy matcher
    over different event lists, compared step by step. */
module FreezeProofs {
  import opened ScoringTypes
  import opened Tempo
  import opened Config
  import opened Matcher
  import StableSort

  // ----- Comparing one pick in two runs ---------------------------------------------------

  /** The first `p` events agree in everything the matcher looks at. */
  ghost predicate SameUpTo(a: seq<PlayedNote>, b: seq<PlayedNote>, p: nat) {
    && p <= |a| && p <= |b|
    && forall i :: 0 <= i < p ==> a[i].onTimeNs == b[i].onTimeNs && a[i].pitch == b[i].pitch
  }

  /** Two runs have consumed the same of the first `p` events that lie in the window. */
  ghost predicate SameFree(a: seq<PlayedNote>, ca: set<nat>, cb: set<nat>, tg: Target, p: nat)
    requires p <= |a|
  {
    forall i: nat :: i < p && InWindow(a[i], tg) ==> (i in ca <==> i in cb)
  }

  ghost predicate NoneInWindow(a: seq<PlayedNote>, tg: Target, p: nat) {
    forall i :: p <= i < |a| ==> !InWindow(a[i], tg)
  }

  lemma {:induction false} PickTail(a: seq<PlayedNote>, ca: set<nat>, tg: Target, p: nat, n: nat)
    requires p <= n <= |a| && NoneInWindow(a, tg, p)
    ensures Pick(a, ca, tg, n) == Pick(a, ca, tg, p)
    decreases n
  {
    if p < n {
      PickTail(a, ca, tg, p, n - 1);
    }
  }

  lemma {:induction false} PickAgrees(
    a: seq<PlayedNote>, ca: set<nat>, b: seq<PlayedNote>, cb: set<nat>, tg: Target, p: nat)
    requires SameUpTo(a, b, p) && SameFree(a, ca, cb, tg, p)
    ensures Pick(a, ca, tg, p) == Pick(b, cb, tg, p)
  {
    SameSeconds(a, b, p);
    hide Pick, EventFields.Seconds;
    assert forall i: nat :: i < p ==> (Candidate(a, ca, tg, i) <==> Candidate(b, cb, tg, i));
    assert forall i: nat :: i < p ==> Deviation(a[i], tg) == Deviation(b[i], tg);
    hide SameUpTo, SameFree, Candidate, Deviation;
    var r, r' := Pick(a, ca, tg, p), Pick(b, cb, tg, p);
    if r.Some? {
      assert Candidate(b, cb, tg, r.value);
    }
    if r'.Some? {
      assert Candidate(a, ca, tg, r'.value);
    }
  }

  lemma SameSeconds(a: seq<PlayedNote>, b: seq<PlayedNote>, p: nat)
    requires SameUpTo(a, b, p)
    ensures forall i :: 0 <= i < p ==> a[i].Seconds() == b[i].Seconds()
  {}

  ghost predicate SameView(
    a: seq<PlayedNote>, ca: set<nat>, b: seq<PlayedNote>, cb: set<nat>, tg: Target, p: nat)
  {
    && SameUpTo(a, b, p) && SameFree(a, ca, cb, tg, p)
    && NoneInWindow(a, tg, p) && NoneInWindow(b, tg, p)
  }

  lemma {:induction false} FullPickAgrees(
    a: seq<PlayedNote>, ca: set<nat>, b: seq<PlayedNote>, cb: set<nat>, tg: Target, p: nat)
    requires SameView(a, ca, b, cb, tg, p)
    ensures Pick(a, ca, tg, |a|) == Pick(b, cb, tg, |b|)
    ensures Pick(a, ca, tg, |a|).Some? ==> Pick(a, ca, tg, |a|).value < p
  {
    PickTail(a, ca, tg, p, |a|);
    PickTail(b, cb, tg, p, |b|);
    PickAgrees(a, ca, b, cb, tg, p);
  }

  lemma WrongPitchAgrees(a: seq<PlayedNote>, ca: set<nat>, b: seq<PlayedNote>, cb: set<nat>, tg: Target, p: nat)
    requires SameView(a, ca, b, cb, tg, p)
    requires AnyWrong(a, ca, tg)
    ensures AnyWrong(b, cb, tg)
  {
    var i: nat :| i < |a| && WrongPitch(a, ca, tg, i);
    assert i < p && WrongPitch(b, cb, tg, i);
  }

  lemma SameViewSymmetric(a: seq<PlayedNote>, ca: set<nat>, b: seq<PlayedNote>, cb: set<nat>, tg: Target, p: nat)
    requires SameView(a, ca, b, cb, tg, p)
    ensures SameView(b, cb, a, ca, tg, p)
  {}

  /** A note sees the same candidates in both runs, so it gets the same outcome. */
  lemma OutcomeAgrees(
    band: real, k: nat, a: seq<PlayedNote>, ca: set<nat>, b: seq<PlayedNote>, cb: set<nat>, tg: Target, p: nat)
    requires SameView(a, ca, b, cb, tg, p)
    ensures OutcomeOf(band, k, a, ca, tg) == OutcomeOf(band, k, b, cb, tg)
  {
    FullPickAgrees(a, ca, b, cb, tg, p);
    SameViewSymmetric(a, ca, b, cb, tg, p);
    if AnyWrong(a, ca, tg) { WrongPitchAgrees(a, ca, b, cb, tg, p); }
    if AnyWrong(b, cb, tg) { WrongPitchAgrees(b, cb, a, ca, tg, p); }
    hide Pick, AnyWrong;
  }

  // ----- The running-maximum rule: all windows so far lie before the cut ------------------

  /** The first `n` windows end before every event from index `p` on. */
  ghost predicate ClosedBefore(targets: seq<Target>, a: seq<PlayedNote>, n: nat, p: nat)
    requires n <= |targets|
  {
    forall k :: 0 <= k < n ==> NoneInWindow(a, targets[k], p)
  }

  lemma {:induction false} PrefixRun(
    targets: seq<Target>, a: seq<PlayedNote>, b: seq<PlayedNote>, n: nat, p: nat)
    requires n <= |targets| && SameUpTo(a, b, p)
    requires ClosedBefore(targets, a, n, p) && ClosedBefore(targets, b, n, p)
    ensures ConsumedAfter(targets, a, n) == ConsumedAfter(targets, b, n)
    decreases n
  {
    if n > 0 {
      PrefixRun(targets, a, b, n - 1, p);
      FullPickAgrees(a, ConsumedAfter(targets, a, n - 1), b, ConsumedAfter(targets, b, n - 1),
                     targets[n - 1], p);
    }
  }

  /** Notes whose windows all end before the cut do not see what comes after it. */
  lemma PrefixOutcome(
    band: real, targets: seq<Target>, a: seq<PlayedNote>, b: seq<PlayedNote>, k: nat, p: nat)
    requires k < |targets| && SameUpTo(a, b, p)
    requires ClosedBefore(targets, a, k + 1, p) && ClosedBefore(targets, b, k + 1, p)
    ensures OutcomeAt(band, targets, a, k) == OutcomeAt(band, targets, b, k)
  {
    PrefixRun(targets, a, b, k, p);
    OutcomeAgrees(band, k, a, ConsumedAfter(targets, a, k), b, ConsumedAfter(targets, b, k), targets[k], p);
  }

  // ----- Only the note's own window has to be over -------------------------------------------

  /** A moment in nanoseconds, in seconds. */
  function Moment(ns: int): real { ns as real / 1000000000.0 }

  /** An event at `e`, after `time`, draws the note `j` away from an event at `f` that was there by then
      and lies in the window of the later note `k` too. */
  predicate Draws(time: real, j: Target, k: Target, f: int, e: int) {
    && 0 <= f && j.start <= Moment(f) <= j.end && k.start <= Moment(f) <= k.end
    && Moment(f) <= time < Moment(e) <= j.end
    && Abs(Moment(e) - j.time) < Abs(Moment(f) - j.time)
  }

  /** Note `j`, still open after `time`, may hand an event on to `k`. */
  ghost predicate Leaks(time: real, j: Target, k: Target) {
    exists f, e :: Draws(time, j, k, f, e)
  }

  /** No earlier note leaks into note `k` once its window is over. */
  ghost predicate Tight(targets: seq<Target>, k: nat) {
    k < |targets| && forall j :: 0 <= j < k ==> !Leaks(targets[k].end, targets[j], targets[k])
  }

  /** `big` is `small` with events added after `time`. */
  ghost predicate ExtendsAfter(time: real, small: seq<PlayedNote>, big: seq<PlayedNote>) {
    && SameUpTo(small, big, |small|)
    && (forall i :: 0 <= i < |small| ==> small[i].Seconds() <= time)
    && (forall i :: |small| <= i < |big| ==> big[i].Seconds() > time)
  }

  /** Note `j` of the pitch took one of the added events, and its window reaches back before the
      window of `k`. */
  ghost predicate Opened(targets: seq<Target>, big: seq<PlayedNote>, split: nat, k: nat, pitch: int, j: nat)
    requires k < |targets|
  {
    && j < k && targets[j].pitch == pitch && targets[j].start < targets[k].start
    && MatchOf(targets, big, j).Some? && MatchOf(targets, big, j).value >= split
  }

  /** What the added events can free: nothing the big run consumed is free in the small run, and
      every event freed lies before window `k`, where some note opened its pitch. */
  ghost predicate FreedAreEarly(
    targets: seq<Target>, small: seq<PlayedNote>, big: seq<PlayedNote>, k: nat, n: nat)
    requires n <= k < |targets|
  {
    var cs, cb := ConsumedAfter(targets, small, n), ConsumedAfter(targets, big, n);
    && (forall i: nat :: i < |small| && i in cb ==> i in cs)
    && (forall i: nat :: i < |small| && i in cs && i !in cb ==>
          && small[i].Seconds() < targets[k].start
          && exists j :: 0 <= j < n && Opened(targets, big, |small|, k, small[i].pitch, j))
  }

  /** A note that took an added event passed over every candidate, so a candidate in window `k` would
      be a leak. */
  lemma {:induction false} PassedOver(
    targets: seq<Target>, small: seq<PlayedNote>, big: seq<PlayedNote>, k: nat, j: nat, s: nat)
    requires j < k < |targets| && ExtendsAfter(targets[k].end, small, big) && s < |small|
    requires Candidate(big, ConsumedAfter(targets, big, j), targets[j], s)
    requires MatchOf(targets, big, j).Some? && MatchOf(targets, big, j).value >= |small|
    requires targets[k].start <= small[s].Seconds()
    ensures Leaks(targets[k].end, targets[j], targets[k])
  {
    hide ConsumedAfter;
    var e := MatchOf(targets, big, j).value;
    assert Deviation(big[e], targets[j]) < Deviation(big[s], targets[j]);
    hide Pick;
    assert Draws(targets[k].end, targets[j], targets[k], big[s].onTimeNs, big[e].onTimeNs);
  }

  /** The same for an event that is still free when note `n` comes to it. */
  lemma {:induction false} PassedOverBefore(
    targets: seq<Target>, small: seq<PlayedNote>, big: seq<PlayedNote>, k: nat, n: nat, j: nat, s: nat)
    requires j <= n < k < |targets| && ExtendsAfter(targets[k].end, small, big) && s < |small|
    requires s !in ConsumedAfter(targets, big, n)
    requires Opened(targets, big, |small|, k, small[s].pitch, j)
    requires targets[k].start <= small[s].Seconds()
    ensures Leaks(targets[k].end, targets[j], targets[k])
  {
    ConsumedGrows(targets, big, j, n);
    var e := MatchOf(targets, big, j).value;
    assert InWindow(big[e], targets[j]) && big[e].Seconds() > targets[k].end;
    assert Candidate(big, ConsumedAfter(targets, big, j), targets[j], s) by { hide Pick, ConsumedAfter; }
    hide *;
    PassedOver(targets, small, big, k, j, s);
  }

  /** One note of the comparison: the event this note leaves was passed over for an added event, or
      for one freed before. */
  lemma {:induction false} FreedByStep(
    targets: seq<Target>, small: seq<PlayedNote>, big: seq<PlayedNote>, k: nat, n: nat,
    s: Option<nat>, b: Option<nat>)
    requires n < k < |targets| && Tight(targets, k) && ExtendsAfter(targets[k].end, small, big)
    requires FreedAreEarly(targets, small, big, k, n)
    requires s == MatchOf(targets, small, n) && b == MatchOf(targets, big, n)
    ensures b.Some? && b.value < |small| ==> b == s || b.value in ConsumedAfter(targets, small, n)
    ensures s.Some? && s != b ==>
              && small[s.value].Seconds() < targets[k].start
              && exists j :: 0 <= j < n + 1 && Opened(targets, big, |small|, k, small[s.value].pitch, j)
  {
    hide ConsumedAfter, Opened, Leaks;
    var cs, cb, tg := ConsumedAfter(targets, small, n), ConsumedAfter(targets, big, n), targets[n];
    if b.Some? && b.value < |small| && b.value !in cs {
      assert Candidate(small, cs, tg, b.value);
    }
    if s.Some? {
      assert Candidate(big, cb, tg, s.value);
      if b != s { FreedBy(targets, small, big, k, n, s.value, b.value); }
    }
  }

  lemma {:induction false} FreedBy(
    targets: seq<Target>, small: seq<PlayedNote>, big: seq<PlayedNote>, k: nat, n: nat, s: nat, b: nat)
    requires n < k < |targets| && Tight(targets, k) && ExtendsAfter(targets[k].end, small, big)
    requires FreedAreEarly(targets, small, big, k, n)
    requires MatchOf(targets, small, n) == Some(s) && MatchOf(targets, big, n) == Some(b)
    requires s < |small| && Candidate(small, ConsumedAfter(targets, small, n), targets[n], s)
    requires s !in ConsumedAfter(targets, big, n)
    requires b < |small| ==> b in ConsumedAfter(targets, small, n) && b !in ConsumedAfter(targets, big, n)
    requires b < |small| ==> small[b].pitch == small[s].pitch
    ensures small[s].Seconds() < targets[k].start
    ensures exists j :: 0 <= j < n + 1 && Opened(targets, big, |small|, k, small[s].pitch, j)
  {
    hide ConsumedAfter, Leaks, MatchOf;
    if b >= |small| {
      if targets[k].start <= small[s].Seconds() {
        assert Candidate(big, ConsumedAfter(targets, big, n), targets[n], s);
        PassedOver(targets, small, big, k, n, s);
      }
      assert Opened(targets, big, |small|, k, small[s].pitch, n);
    } else {
      var j :| 0 <= j < n && Opened(targets, big, |small|, k, small[b].pitch, j);
      if targets[k].start <= small[s].Seconds() {
        PassedOverBefore(targets, small, big, k, n, j, s);
      }
    }
  }

  lemma FreedStep(targets: seq<Target>, small: seq<PlayedNote>, big: seq<PlayedNote>, k: nat, n: nat)
    requires n < k < |targets| && Tight(targets, k) && ExtendsAfter(targets[k].end, small, big)
    requires FreedAreEarly(targets, small, big, k, n)
    ensures FreedAreEarly(targets, small, big, k, n + 1)
  {
    hide MatchOf, ConsumedAfter, Opened, Tight, ExtendsAfter;
    FreedByStep(targets, small, big, k, n, MatchOf(targets, small, n), MatchOf(targets, big, n));
    ConsumedNext(targets, small, n);
    ConsumedNext(targets, big, n);
  }

  lemma FreedStart(targets: seq<Target>, small: seq<PlayedNote>, big: seq<PlayedNote>, k: nat)
    requires k < |targets|
    ensures FreedAreEarly(targets, small, big, k, 0)
  {}

  lemma {:induction false} FreedUpTo(
    targets: seq<Target>, small: seq<PlayedNote>, big: seq<PlayedNote>, k: nat, n: nat)
    requires n <= k < |targets| && Tight(targets, k) && ExtendsAfter(targets[k].end, small, big)
    ensures FreedAreEarly(targets, small, big, k, n)
    decreases n
  {
    hide ExtendsAfter, FreedAreEarly, Tight;
    if n == 0 {
      FreedStart(targets, small, big, k);
    } else {
      FreedUpTo(targets, small, big, k, n - 1);
      FreedStep(targets, small, big, k, n - 1);
    }
  }

  /** Where no earlier note leaks into note `k`, events after its own window do not touch it. */
  lemma StrongOutcome(band: real, targets: seq<Target>, small: seq<PlayedNote>, big: seq<PlayedNote>, k: nat)
    requires Tight(targets, k) && ExtendsAfter(targets[k].end, small, big)
    ensures OutcomeAt(band, targets, small, k) == OutcomeAt(band, targets, big, k)
  {
    FreedUpTo(targets, small, big, k, k);
    var cs, cb := ConsumedAfter(targets, small, k), ConsumedAfter(targets, big, k);
    hide Opened, Tight;
    assert SameFree(small, cs, cb, targets[k], |small|);
    OutcomeAgrees(band, k, small, cs, big, cb, targets[k], |small|);
  }

  // ----- From ordered lists to the lists the caller passes ----------------------------------

  predicate UpTo(time: real, e: PlayedNote) { e.Seconds() <= time }

  function Heard(time: real, events: seq<PlayedNote>): seq<PlayedNote> {
    StableSort.Filter((e: PlayedNote) => UpTo(time, e), events)
  }

  /** What was heard up to a moment comes first in the ordered list. */
  lemma HeardIsPrefix(events: seq<PlayedNote>, time: real)
    ensures var sorted, heard := InTime(events), InTime(Heard(time, events));
            && heard <= sorted
            && (forall i :: 0 <= i < |heard| ==> heard[i].Seconds() <= time)
            && (forall i :: |heard| <= i < |sorted| ==> sorted[i].Seconds() > time)
  {
    var p := (e: PlayedNote) => UpTo(time, e);
    var sorted := InTime(events);
    StableSort.SortCorrect(EventLe, events);
    StableSort.SortFilter(EventLe, p, events);
    StableSort.FilterIsPrefix(EventLe, p, sorted);
    var heard := StableSort.Filter(p, sorted);
    forall i | 0 <= i < |heard| ensures heard[i].Seconds() <= time {
      StableSort.FilterMember(p, sorted, heard[i]);
    }
  }

  /** The outcome of note `k` looks at no later note. */
  lemma LaterNotesIrrelevant(band: real, targets: seq<Target>, targets': seq<Target>, events: seq<PlayedNote>, k: nat)
    requires k < |targets| && k < |targets'| && targets[..k + 1] == targets'[..k + 1]
    ensures OutcomeAt(band, targets, events, k) == OutcomeAt(band, targets', events, k)
  {
    ConsumedByPrefix(targets, targets', events, k);
    assert targets[k] == targets[..k + 1][k];
  }

  lemma {:induction false} ConsumedByPrefix(
    targets: seq<Target>, targets': seq<Target>, events: seq<PlayedNote>, n: nat)
    requires n <= |targets| && n <= |targets'| && targets[..n] == targets'[..n]
    ensures ConsumedAfter(targets, events, n) == ConsumedAfter(targets', events, n)
    decreases n
  {
    if n > 0 {
      assert targets[n - 1] == targets[..n][n - 1] && targets[..n - 1] == targets[..n][..n - 1];
      assert targets'[..n - 1] == targets'[..n][..n - 1];
      ConsumedByPrefix(targets, targets', events, n - 1);
    }
  }

  lemma OutcomeByHeard(
    config: ScoreConfig, m: TempoMap, expected: seq<ExpectedNote>, events: seq<PlayedNote>, k: nat)
    requires Tight(Targets(config, m, Canonical(expected)), k)
    ensures var targets := Targets(config, m, Canonical(expected));
            OutcomeAt(config.perfectBandMs, targets, InTime(events), k) ==
            OutcomeAt(config.perfectBandMs, targets, InTime(Heard(targets[k].end, events)), k)
  {
    var targets := Targets(config, m, Canonical(expected));
    HeardIsPrefix(events, targets[k].end);
    hide InTime, Heard, Targets, Canonical, Tight;
    StrongOutcome(config.perfectBandMs, targets, InTime(Heard(targets[k].end, events)), InTime(events), k);
  }

  /** Main result, the freeze theorem: where no earlier note leaks into note `k`, its whole outcome
      depends only on notes 0..k and on the events up to the end of its own window. */
  lemma FreezeTheorem(
    config: ScoreConfig, m: TempoMap, expected: seq<ExpectedNote>, events: seq<PlayedNote>,
    expected': seq<ExpectedNote>, events': seq<PlayedNote>, k: nat)
    requires k < |Canonical(expected)| && k < |Canonical(expected')|
    requires Canonical(expected)[..k + 1] == Canonical(expected')[..k + 1]
    requires Tight(Targets(config, m, Canonical(expected)), k)
    requires var close := Targets(config, m, Canonical(expected))[k].end;
             Heard(close, events) == Heard(close, events')
    ensures Matched(config, m, expected, events).outcomes[k] == Matched(config, m, expected', events').outcomes[k]
  {
    hide Canonical, Targets, Heard, InTime, OutcomeAt, Leaks;
    var ts, ts' := Targets(config, m, Canonical(expected)), Targets(config, m, Canonical(expected'));
    var band := config.perfectBandMs;
    assert ts[..k + 1] == ts'[..k + 1] by {
      SamePrefixTargets(config, m, Canonical(expected), Canonical(expected'), k + 1);
    }
    assert forall i :: 0 <= i <= k ==> ts[i] == ts[..k + 1][i] && ts'[i] == ts'[..k + 1][i];
    OutcomeByHeard(config, m, expected, events, k);
    OutcomeByHeard(config, m, expected', events', k);
    LaterNotesIrrelevant(band, ts, ts', InTime(Heard(ts[k].end, events)), k);
  }

  lemma SamePrefixTargets(config: ScoreConfig, m: TempoMap, a: seq<ExpectedNote>, b: seq<ExpectedNote>, n: nat)
    requires n <= |a| && n <= |b| && a[..n] == b[..n]
    ensures Targets(config, m, a)[..n] == Targets(config, m, b)[..n]
  {
    hide TargetOf;
    assert forall i :: 0 <= i < n ==> a[i] == a[..n][i] && b[i] == b[..n][i];
  }
}
