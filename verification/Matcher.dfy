/** The greedy note matcher. Notes are taken in canonical order; each consumes the nearest
    unconsumed event of its pitch inside its window. */
module Matcher {
  import opened ScoringTypes
  import opened Tempo
  import opened Config
  import StableSort

  /** What the matcher needs to know of an expected note: its pitch, its time and its window,
      in seconds. */
  datatype Target = Target(pitch: int, time: real, start: real, end: real)

  function TargetOf(config: ScoreConfig, m: TempoMap, note: ExpectedNote): Target {
    var t := m.BeatToSeconds(note.startBeat);
    var window := WindowMs(config, note.startBeat, m);
    Target(note.pitch, t, t - window.earlyMs / 1000.0, t + window.lateMs / 1000.0)
  }

  function Targets(config: ScoreConfig, m: TempoMap, notes: seq<ExpectedNote>): (ts: seq<Target>)
    ensures |ts| == |notes|
  {
    seq(|notes|, i requires 0 <= i < |notes| => TargetOf(config, m, notes[i]))
  }

  function Canonical(expected: seq<ExpectedNote>): seq<ExpectedNote> {
    StableSort.Sort(NoteLe, expected)
  }

  function InTime(events: seq<PlayedNote>): seq<PlayedNote> {
    StableSort.Sort(EventLe, events)
  }

  predicate InWindow(e: PlayedNote, tg: Target) { tg.start <= e.Seconds() <= tg.end }

  function Deviation(e: PlayedNote, tg: Target): real { Abs(e.Seconds() - tg.time) }

  /** Event `i` is free, has the pitch of the target and lies in its window. */
  predicate Candidate(events: seq<PlayedNote>, consumed: set<nat>, tg: Target, i: nat)
    requires i < |events|
  {
    i !in consumed && events[i].pitch == tg.pitch && InWindow(events[i], tg)
  }

  /** Event `i` is free, has another pitch and lies in the target's window. */
  predicate WrongPitch(events: seq<PlayedNote>, consumed: set<nat>, tg: Target, i: nat)
    requires i < |events|
  {
    i !in consumed && events[i].pitch != tg.pitch && InWindow(events[i], tg)
  }

  predicate AnyWrong(events: seq<PlayedNote>, consumed: set<nat>, tg: Target) {
    exists i: nat :: i < |events| && WrongPitch(events, consumed, tg, i)
  }

  /** The candidate among the first `n` events with the least deviation, the earliest on ties. */
  function Pick(events: seq<PlayedNote>, consumed: set<nat>, tg: Target, n: nat): (best: Option<nat>)
    requires n <= |events|
    ensures best.None? ==> forall i: nat :: i < n ==> !Candidate(events, consumed, tg, i)
    ensures best.Some? ==>
            && best.value < n && Candidate(events, consumed, tg, best.value)
            && forall i: nat :: i < n && Candidate(events, consumed, tg, i) ==>
                 Deviation(events[best.value], tg) <= Deviation(events[i], tg) &&
                 (i < best.value ==> Deviation(events[best.value], tg) < Deviation(events[i], tg))
  {
    if n == 0 then None
    else
      var best := Pick(events, consumed, tg, n - 1);
      if Candidate(events, consumed, tg, n - 1) &&
         (best.None? || Deviation(events[n - 1], tg) < Deviation(events[best.value], tg))
      then Some(n - 1)
      else best
  }

  /** The events consumed by the first `n` targets. */
  function ConsumedAfter(targets: seq<Target>, events: seq<PlayedNote>, n: nat): (consumed: set<nat>)
    requires n <= |targets|
    ensures forall i :: i in consumed ==> i < |events|
  {
    if n == 0 then {}
    else
      var before := ConsumedAfter(targets, events, n - 1);
      match Pick(events, before, targets[n - 1], |events|)
      case None => before
      case Some(best) => before + {best}
  }

  /** The event index target `k` is matched with, if any. */
  function MatchOf(targets: seq<Target>, events: seq<PlayedNote>, k: nat): Option<nat>
    requires k < |targets|
  {
    Pick(events, ConsumedAfter(targets, events, k), targets[k], |events|)
  }

  lemma ConsumedNext(targets: seq<Target>, events: seq<PlayedNote>, n: nat)
    requires n < |targets|
    ensures ConsumedAfter(targets, events, n + 1) ==
            ConsumedAfter(targets, events, n) +
            match MatchOf(targets, events, n) case None => {} case Some(best) => {best}
  {}

  lemma {:induction false} ConsumedGrows(targets: seq<Target>, events: seq<PlayedNote>, k: nat, n: nat)
    requires k <= n <= |targets|
    ensures ConsumedAfter(targets, events, k) <= ConsumedAfter(targets, events, n)
    decreases n
  {
    hide ConsumedAfter, MatchOf;
    if k < n {
      ConsumedGrows(targets, events, k, n - 1);
      ConsumedNext(targets, events, n - 1);
    }
  }

  function OutcomeOf(band: real, k: nat, events: seq<PlayedNote>, consumed: set<nat>, tg: Target): NoteOutcome {
    match Pick(events, consumed, tg, |events|)
    case Some(best) =>
      var deviationMs := (events[best].Seconds() - tg.time) * 1000.0;
      NoteOutcome(k, if Abs(deviationMs) <= band then PERFECT else GOOD,
                  Some(best), Some(deviationMs), Some(events[best].pitch))
    case None =>
      NoteOutcome(k, if AnyWrong(events, consumed, tg) then WRONG else MISSED, None, None, None)
  }

  function OutcomeAt(band: real, targets: seq<Target>, events: seq<PlayedNote>, k: nat): NoteOutcome
    requires k < |targets|
  {
    OutcomeOf(band, k, events, ConsumedAfter(targets, events, k), targets[k])
  }

  function Outcomes(band: real, targets: seq<Target>, events: seq<PlayedNote>): (r: seq<NoteOutcome>)
    ensures |r| == |targets|
  {
    seq(|targets|, k requires 0 <= k < |targets| => OutcomeAt(band, targets, events, k))
  }

  /** Those of the first `n` events that nobody consumed, in time order. */
  function Unconsumed<E>(events: seq<E>, consumed: set<nat>, n: nat): seq<E>
    requires n <= |events|
  {
    if n == 0 then []
    else Unconsumed(events, consumed, n - 1) + if n - 1 in consumed then [] else [events[n - 1]]
  }

  function Extras(targets: seq<Target>, events: seq<PlayedNote>): seq<PlayedNote> {
    Unconsumed(events, ConsumedAfter(targets, events, |targets|), |events|)
  }

  datatype MatchResult = MatchResult(outcomes: seq<NoteOutcome>, extraEvents: seq<PlayedNote>)

  /** The result of matching `events` against `expected`, both in any order. */
  function Matched(
    config: ScoreConfig, m: TempoMap, expected: seq<ExpectedNote>, events: seq<PlayedNote>): MatchResult {
    var targets, sorted := Targets(config, m, Canonical(expected)), InTime(events);
    MatchResult(Outcomes(config.perfectBandMs, targets, sorted), Extras(targets, sorted))
  }

  ghost function Flags(consumed: array<bool>): set<nat>
    reads consumed
  {
    set i: nat | i < consumed.Length && consumed[i]
  }

  /** The scan for the best event of the target's pitch. */
  method BestEqualPitchEvent(events: seq<PlayedNote>, consumed: array<bool>, tg: Target) returns (best: Option<nat>)
    requires consumed.Length == |events|
    ensures best == Pick(events, Flags(consumed), tg, |events|)
  {
    best := None;
    var bestAbsDeviation := 0.0;
    for index := 0 to |events|
      invariant best == Pick(events, Flags(consumed), tg, index)
      invariant best.Some? ==> bestAbsDeviation == Deviation(events[best.value], tg)
    {
      if consumed[index] { continue; }
      var event := events[index];
      if event.pitch != tg.pitch { continue; }
      var timeSeconds := event.Seconds();
      if timeSeconds < tg.start || timeSeconds > tg.end { continue; }
      var absDeviation := Abs(timeSeconds - tg.time);
      if best.None? || absDeviation < bestAbsDeviation {
        best := Some(index);
        bestAbsDeviation := absDeviation;
      }
    }
  }

  method AnyWrongPitch(events: seq<PlayedNote>, consumed: array<bool>, tg: Target) returns (found: bool)
    requires consumed.Length == |events|
    ensures found <==> AnyWrong(events, Flags(consumed), tg)
  {
    for index := 0 to |events|
      invariant forall i: nat :: i < index ==> !WrongPitch(events, Flags(consumed), tg, i)
    {
      if !consumed[index] && events[index].pitch != tg.pitch && InWindow(events[index], tg) {
        assert WrongPitch(events, Flags(consumed), tg, index);
        return true;
      }
    }
    return false;
  }

  /** One note: consumes its best event, or reports whether a wrong pitch was played. */
  method MatchNote(band: real, k: nat, events: seq<PlayedNote>, consumed: array<bool>, tg: Target)
    returns (outcome: NoteOutcome)
    requires consumed.Length == |events|
    modifies consumed
    ensures outcome == OutcomeOf(band, k, events, old(Flags(consumed)), tg)
    ensures Flags(consumed) == old(Flags(consumed)) +
            match Pick(events, old(Flags(consumed)), tg, |events|) case None => {} case Some(best) => {best}
  {
    var best := BestEqualPitchEvent(events, consumed, tg);
    if best.Some? {
      consumed[best.value] := true;
      var event := events[best.value];
      var deviationMs := (event.Seconds() - tg.time) * 1000.0;
      var verdict := if Abs(deviationMs) <= band then PERFECT else GOOD;
      outcome := NoteOutcome(k, verdict, best, Some(deviationMs), Some(event.pitch));
    } else {
      var wrongInWindow := AnyWrongPitch(events, consumed, tg);
      outcome := NoteOutcome(k, if wrongInWindow then WRONG else MISSED, None, None, None);
    }
  }

  method NotConsumed(events: seq<PlayedNote>, consumed: array<bool>) returns (extras: seq<PlayedNote>)
    requires consumed.Length == |events|
    ensures extras == Unconsumed(events, Flags(consumed), |events|)
  {
    extras := [];
    for index := 0 to |events|
      invariant extras == Unconsumed(events, Flags(consumed), index)
    {
      if !consumed[index] { extras := extras + [events[index]]; }
    }
  }

  /** The matcher's pass over the ordered notes, flipping the flag of every event it consumes. */
  method MatchNotes(band: real, targets: seq<Target>, events: seq<PlayedNote>)
    returns (outcomes: seq<NoteOutcome>, consumed: array<bool>)
    ensures outcomes == Outcomes(band, targets, events)
    ensures fresh(consumed) && consumed.Length == |events|
    ensures Flags(consumed) == ConsumedAfter(targets, events, |targets|)
  {
    hide OutcomeOf, Pick;
    consumed := new bool[|events|](_ => false);
    outcomes := [];
    ghost var all := Outcomes(band, targets, events);
    for k := 0 to |targets|
      invariant Flags(consumed) == ConsumedAfter(targets, events, k)
      invariant |outcomes| == k && forall i :: 0 <= i < k ==> outcomes[i] == all[i]
    {
      var outcome := MatchNote(band, k, events, consumed, targets[k]);
      assert outcome == all[k];
      outcomes := outcomes + [outcome];
    }
  }

  /** The matcher, on inputs in any order. */
  method Match(config: ScoreConfig, m: TempoMap, expected: seq<ExpectedNote>, events: seq<PlayedNote>)
    returns (result: MatchResult)
    ensures result == Matched(config, m, expected, events)
  {
    var sortedEvents, targets := InTime(events), Targets(config, m, Canonical(expected));
    var outcomes, consumed := MatchNotes(config.perfectBandMs, targets, sortedEvents);
    var extras := NotConsumed(sortedEvents, consumed);
    result := MatchResult(outcomes, extras);
  }
}
