/** What the end of a note's own window does not freeze: with the wide side of the windows early at a
    jump in tempo, or with a ramp on which time steps back, a later event changes the verdict. */
module FreezeLimits {
  import opened ScoringTypes
  import opened Tempo
  import opened TempoProofs
  import opened Config
  import opened Matcher
  import opened FreezeProofs
  import opened FreezeExact
  import opened SettledMoment
  import RealtimeProofs
  import StableSort

  const EARLY_WIDER :=
    ConfigFields(120.0, 1000.0, 100.0, false, 250.0, 250.0, 0.5, 2.0, 50.0, 0.1, 90.0)

  /** 60 bpm, then 240 bpm from beat 8 on. */
  function SpeedUp(): TempoMap {
    MapFields([PointFields(0.0, 60.0, STEP), PointFields(8.0, 240.0, STEP)], x => x)
  }

  const BEFORE: ExpectedNote := NoteFields(60, 7.875, 1.0, R, 1.0)
  const AFTER: ExpectedNote := NoteFields(60, 8.0, 1.0, R, 1.0)
  const IN_TIME: PlayedNote := EventFields(60, 64, 7_600_000_000, -1)
  const TOO_LATE: PlayedNote := EventFields(60, 64, 8_060_000_000, -1)

  lemma SpeedUpTargets()
    ensures TargetOf(EARLY_WIDER, SpeedUp(), BEFORE) == Target(60, 7.875, 5.875, 8.075)
    ensures TargetOf(EARLY_WIDER, SpeedUp(), AFTER) == Target(60, 8.0, 7.5, 8.05)
  {
    var m := SpeedUp();
    assert m.SegmentSum(1, 7.875) == 7.875 && m.SegmentSum(2, 7.875) == 7.875;
    assert m.SegmentSum(1, 8.0) == 8.0 && m.SegmentSum(2, 8.0) == 8.0;
    assert m.LastEntry(7.875) == 0 && m.LastEntry(8.0) == 1;
  }

  /** The event in time goes to the first note, unless the late event lies nearer to it. */
  lemma GreedyRuns(targets: seq<Target>)
    requires targets == [Target(60, 7.875, 5.875, 8.075), Target(60, 8.0, 7.5, 8.05)]
    ensures OutcomeAt(50.0, targets, [IN_TIME], 1).verdict == MISSED
    ensures OutcomeAt(50.0, targets, [IN_TIME, TOO_LATE], 1).verdict == GOOD
  {
    var one, two := [IN_TIME], [IN_TIME, TOO_LATE];
    assert IN_TIME.Seconds() == 7.6 && TOO_LATE.Seconds() == 8.06;
    assert Pick(one, {}, targets[0], 1) == Some(0);
    assert ConsumedAfter(targets, one, 1) == {0};
    assert Pick(one, {0}, targets[1], 1) == None;
    assert Pick(two, {}, targets[0], 1) == Some(0);
    assert Pick(two, {}, targets[0], 2) == Some(1);
    assert ConsumedAfter(targets, two, 1) == {1};
    assert Pick(two, {1}, targets[1], 1) == Some(0);
    assert Pick(two, {1}, targets[1], 2) == Some(0);
  }

  /** A concrete run outside the hypothesis: the last note's window is over at 8.05 s, and the
      event at 8.06 s still turns its MISSED into a GOOD. */
  lemma WiderEarlyWindowThaws()
    ensures EARLY_WIDER.Valid() && EARLY_WIDER.EarlyBase() > EARLY_WIDER.LateBase()
    ensures var targets := Targets(EARLY_WIDER, SpeedUp(), Canonical([BEFORE, AFTER]));
            && InOrderUpTo(targets, 1)
            && Heard(targets[1].end, [IN_TIME]) == Heard(targets[1].end, [IN_TIME, TOO_LATE])
    ensures Matched(EARLY_WIDER, SpeedUp(), [BEFORE, AFTER], [IN_TIME]).outcomes[1].verdict == MISSED
    ensures Matched(EARLY_WIDER, SpeedUp(), [BEFORE, AFTER], [IN_TIME, TOO_LATE]).outcomes[1].verdict == GOOD
  {
    SpeedUpCanonical();
    HeardBoth();
    AlreadySorted();
    GreedyRuns(Targets(EARLY_WIDER, SpeedUp(), Canonical([BEFORE, AFTER])));
    hide TargetOf, Canonical, InTime, Heard, OutcomeAt;
  }

  lemma SpeedUpCanonical()
    ensures Canonical([BEFORE, AFTER]) == [BEFORE, AFTER]
    ensures Targets(EARLY_WIDER, SpeedUp(), [BEFORE, AFTER])
         == [Target(60, 7.875, 5.875, 8.075), Target(60, 8.0, 7.5, 8.05)]
  {
    hide TargetOf;
    SpeedUpTargets();
    StableSort.SortIdempotent(NoteLe, [BEFORE, AFTER]);
  }

  lemma AlreadySorted()
    ensures InTime([IN_TIME]) == [IN_TIME] && InTime([IN_TIME, TOO_LATE]) == [IN_TIME, TOO_LATE]
  {
    StableSort.SortIdempotent(EventLe, [IN_TIME]);
    StableSort.SortIdempotent(EventLe, [IN_TIME, TOO_LATE]);
  }

  lemma HeardBoth()
    ensures Heard(8.05, [IN_TIME]) == [IN_TIME] == Heard(8.05, [IN_TIME, TOO_LATE])
  {
    var p := (e: PlayedNote) => UpTo(8.05, e);
    assert p(IN_TIME) && !p(TOO_LATE);
    assert [IN_TIME, TOO_LATE][1..] == [TOO_LATE] && [TOO_LATE][1..] == [] && [IN_TIME][1..] == [];
    assert StableSort.Filter(p, [TOO_LATE]) == [];
    assert StableSort.Filter(p, [IN_TIME]) == [IN_TIME];
    assert StableSort.Filter(p, [IN_TIME, TOO_LATE]) == [IN_TIME];
  }

  // ----- Where time steps back ---------------------------------------------------------------

  /** Windows of equal sides. */
  const EQUAL_SIDES :=
    ConfigFields(120.0, 10_000_000_000.0, 10_000_000_000.0, false, 250.0, 250.0, 0.5, 2.0, 50.0, 0.1, 90.0)

  /** A very slow song that doubles its tempo: the ramp gains exactly what the near-equal test lets
      pass, so its last beat is the first that is timed by the integral. */
  function StepBack(ln: real -> real): TempoMap {
    MapFields([PointFields(0.0, 0.000000000001, LINEAR), PointFields(0.000001, 0.000000000002, STEP)], ln)
  }

  const INSIDE: ExpectedNote := NoteFields(60, 0.0000009, 1.0, R, 1.0)
  const AT_END: ExpectedNote := NoteFields(60, 0.000001, 1.0, R, 1.0)

  lemma StepBackTimes(ln: real -> real)
    requires IsLogarithm(ln)
    ensures StepBack(ln).BeatToSeconds(INSIDE.startBeat) == 54_000_000.0
    ensures 30_000_000.0 <= StepBack(ln).BeatToSeconds(AT_END.startBeat) <= 50_000_000.0
  {
    hide IsLogarithm;
    var m := StepBack(ln);
    LnBounds(ln, 2.0);
    LnStrictlyBelow(ln, 1.0);
    assert m.SegmentSum(0, INSIDE.startBeat) == m.SegmentSum(0, AT_END.startBeat) == 0.0;
    assert m.SegmentSum(1, INSIDE.startBeat) == m.SegmentSeconds(0, INSIDE.startBeat);
    assert m.SegmentSum(1, AT_END.startBeat) == m.SegmentSeconds(0, AT_END.startBeat);
  }

  lemma StepBackWindows(ln: real -> real, beat: real)
    requires 0.0 <= beat
    ensures WindowMs(EQUAL_SIDES, beat, StepBack(ln)) == HitWindow(20_000_000_000.0, 20_000_000_000.0)
  {}

  /** The documented condition alone does not freeze: the windows have equal sides, and yet the
      verdict of the last note depends on events after the end of its window. */
  lemma StepBackThaws(ln: real -> real)
    requires IsLogarithm(ln)
    ensures EQUAL_SIDES.Valid() && EQUAL_SIDES.EarlyBase() <= EQUAL_SIDES.LateBase()
    ensures |Canonical([INSIDE, AT_END])| == 2 && !FrozenAtClose(EQUAL_SIDES, StepBack(ln), [INSIDE, AT_END], 1)
  {
    hide IsLogarithm;
    StableSort.SortIdempotent(NoteLe, [INSIDE, AT_END]);
    StepBackTimes(ln);
    StepBackWindows(ln, INSIDE.startBeat);
    StepBackWindows(ln, AT_END.startBeat);
    hide StepBack, MapFields.BeatToSeconds, WindowMs;
    var targets := Targets(EQUAL_SIDES, StepBack(ln), [INSIDE, AT_END]);
    assert Draws(targets[1].end, targets[0], targets[1], 34_000_000_000_000_000, 71_000_000_000_000_000);
    FrozenExactlyWhenTight(EQUAL_SIDES, StepBack(ln), [INSIDE, AT_END], 1);
  }

  // ----- Where notes pass an event on ---------------------------------------------------------

  const CHAIN_SIDES :=
    ConfigFields(120.0, 1_500_000_000.0, 750_000_000.0, false, 250.0, 250.0, 0.5, 2.0, 50.0, 0.1, 90.0)

  /** The beat of the slow song that is played at `seconds`, once the ramp is over. */
  function SlowBeat(ln: real -> real, seconds: real): real {
    0.000001 + (seconds - 60_000_000.0 * ln(2.0)) / 30_000_000_000_000.0
  }

  /** Bounds on the logarithm that put the ramp before the notes. */
  predicate LnTwo(ln: real -> real) { 0.5 <= ln(2.0) && 6.0 * ln(2.0) <= 5.0 }

  lemma LnTwoHolds(ln: real -> real)
    requires IsLogarithm(ln)
    ensures LnTwo(ln)
  {
    LnBounds(ln, 2.0);
    LnStrictlyBelow(ln, 1.0);
  }

  lemma SlowBeats(ln: real -> real)
    requires LnTwo(ln)
    ensures 0.000001 <= SlowBeat(ln, 50_000_000.0) < SlowBeat(ln, 50_010_000.0)
  {}

  /** The slow song, with a sudden speed-up that narrows the windows. */
  function ChainTempo(ln: real -> real): TempoMap
    requires LnTwo(ln)
  {
    SlowBeats(ln);
    MapFields([PointFields(0.0, 0.000000000001, LINEAR), PointFields(0.000001, 0.000000000002, STEP),
               PointFields(SlowBeat(ln, 50_010_000.0), 120.0, STEP)], ln)
  }

  function ChainNote(beat: real): ExpectedNote
    requires beat >= 0.0
  {
    NoteFields(60, beat, 1.0, R, 1.0)
  }

  /** Three notes of one pitch: in the ramp, after it, and at the speed-up. */
  function ChainSong(ln: real -> real): seq<ExpectedNote>
    requires LnTwo(ln)
  {
    SlowBeats(ln);
    [ChainNote(0.0000009), ChainNote(SlowBeat(ln, 50_000_000.0)), ChainNote(SlowBeat(ln, 50_010_000.0))]
  }

  const EARLY: PlayedNote := EventFields(60, 64, 48_800_000_000_000_000, -1)
  const MIDDLE: PlayedNote := EventFields(60, 64, 51_000_000_000_000_000, -1)
  const LATE: PlayedNote := EventFields(60, 64, 54_000_000_000_000_000, -1)
  const CHAIN_MOMENT := 52_000_000.0

  const CHAIN_TARGETS := [Target(60, 54_000_000.0, 51_000_000.0, 55_500_000.0),
                          Target(60, 50_000_000.0, 47_000_000.0, 51_500_000.0),
                          Target(60, 50_010_000.0, 48_510_000.0, 50_760_000.0)]

  lemma ChainSeconds()
    ensures EARLY.Seconds() == 48_800_000.0 && MIDDLE.Seconds() == 51_000_000.0 && LATE.Seconds() == 54_000_000.0
  {}

  lemma {:induction false} ChainBefore()
    ensures OutcomeAt(50.0, CHAIN_TARGETS, [EARLY, MIDDLE], 2).verdict == MISSED
  {
    ChainSeconds();
    hide EventFields.Seconds;
    var ts, two := CHAIN_TARGETS, [EARLY, MIDDLE];
    assert Pick(two, {}, ts[0], 1) == None && Pick(two, {}, ts[0], 2) == Some(1);
    assert ConsumedAfter(ts, two, 0) == {} && ConsumedAfter(ts, two, 1) == {1};
    assert Pick(two, {1}, ts[1], 1) == Some(0) && Pick(two, {1}, ts[1], 2) == Some(0);
    assert ConsumedAfter(ts, two, 2) == {0, 1};
    assert Pick(two, {0, 1}, ts[2], 2) == None;
  }

  /** The first note leaves the middle event for the late one, the second the early one for the middle
      one, and the third takes the early one. */
  lemma {:induction false} ChainAfter()
    ensures OutcomeAt(50.0, CHAIN_TARGETS, [EARLY, MIDDLE, LATE], 2).verdict == GOOD
  {
    ChainSeconds();
    hide EventFields.Seconds;
    var ts, three := CHAIN_TARGETS, [EARLY, MIDDLE, LATE];
    assert Pick(three, {}, ts[0], 1) == None && Pick(three, {}, ts[0], 2) == Some(1);
    assert Pick(three, {}, ts[0], 3) == Some(2);
    assert ConsumedAfter(ts, three, 0) == {} && ConsumedAfter(ts, three, 1) == {2};
    assert Pick(three, {2}, ts[1], 1) == Some(0) && Pick(three, {2}, ts[1], 2) == Some(1);
    assert Pick(three, {2}, ts[1], 3) == Some(1);
    assert ConsumedAfter(ts, three, 2) == {1, 2};
    assert Pick(three, {1, 2}, ts[2], 1) == Some(0) && Pick(three, {1, 2}, ts[2], 2) == Some(0);
    assert Pick(three, {1, 2}, ts[2], 3) == Some(0);
  }

  lemma ChainTimes(ln: real -> real)
    requires LnTwo(ln)
    ensures ChainTempo(ln).BeatToSeconds(0.0000009) == 54_000_000.0
    ensures ChainTempo(ln).BeatToSeconds(SlowBeat(ln, 50_000_000.0)) == 50_000_000.0
    ensures ChainTempo(ln).BeatToSeconds(SlowBeat(ln, 50_010_000.0)) == 50_010_000.0
  {
    var m, a := ChainTempo(ln), 0.0000009;
    SlowBeats(ln);
    assert m.SegmentSum(0, a) == 0.0;
    assert m.SegmentSum(1, a) == m.SegmentSum(2, a) == m.SegmentSum(3, a) == m.SegmentSeconds(0, a);
    SlowTime(ln, 50_000_000.0);
    SlowTime(ln, 50_010_000.0);
  }

  lemma SlowTime(ln: real -> real, seconds: real)
    requires LnTwo(ln) && 50_000_000.0 <= seconds <= 50_010_000.0
    ensures ChainTempo(ln).BeatToSeconds(SlowBeat(ln, seconds)) == seconds
  {
    var m, beat := ChainTempo(ln), SlowBeat(ln, seconds);
    SlowBeats(ln);
    assert m.SegmentSum(0, beat) == 0.0;
    assert m.SegmentSum(1, beat) == m.SegmentSeconds(0, beat) == 60_000_000.0 * ln(2.0);
    assert m.SegmentSum(2, beat) == m.SegmentSum(1, beat) + m.SegmentSeconds(1, beat);
    assert m.SegmentSum(3, beat) == m.SegmentSum(2, beat);
  }

  lemma ChainWindows(ln: real -> real)
    requires LnTwo(ln)
    ensures var m, wide := ChainTempo(ln), HitWindow(3_000_000_000.0, 1_500_000_000.0);
            && WindowMs(CHAIN_SIDES, 0.0000009, m) == wide
            && WindowMs(CHAIN_SIDES, SlowBeat(ln, 50_000_000.0), m) == wide
            && WindowMs(CHAIN_SIDES, SlowBeat(ln, 50_010_000.0), m) == HitWindow(1_500_000_000.0, 750_000_000.0)
  {
    SlowBeats(ln);
    var m := ChainTempo(ln);
    assert m.LastEntry(SlowBeat(ln, 50_000_000.0)) == 1;
    assert m.LastEntry(SlowBeat(ln, 50_010_000.0)) == 2;
    assert m.LastEntry(0.0000009) == 0;
  }

  lemma ChainCanonical(ln: real -> real)
    requires LnTwo(ln)
    ensures Canonical(ChainSong(ln)) == ChainSong(ln) && |ChainSong(ln)| == 3
    ensures Targets(CHAIN_SIDES, ChainTempo(ln), ChainSong(ln)) == CHAIN_TARGETS
  {
    SlowBeats(ln);
    ChainTimes(ln);
    ChainWindows(ln);
    hide ChainTempo, SlowBeat, MapFields.BeatToSeconds, WindowMs;
    StableSort.SortIdempotent(NoteLe, ChainSong(ln));
  }

  lemma ChainEvents()
    ensures InTime([EARLY, MIDDLE]) == [EARLY, MIDDLE] && InTime([EARLY, MIDDLE, LATE]) == [EARLY, MIDDLE, LATE]
    ensures Heard(CHAIN_MOMENT, [EARLY, MIDDLE]) == Heard(CHAIN_MOMENT, [EARLY, MIDDLE, LATE])
  {
    StableSort.SortIdempotent(EventLe, [EARLY, MIDDLE]);
    StableSort.SortIdempotent(EventLe, [EARLY, MIDDLE, LATE]);
    ChainSeconds();
    RealtimeProofs.NotHeard(CHAIN_MOMENT, [EARLY, MIDDLE], LATE);
    assert [EARLY, MIDDLE] + [LATE] == [EARLY, MIDDLE, LATE];
  }

  lemma ChainOutOfReach()
    ensures !InOrderUpTo(CHAIN_TARGETS, 2) && OutOfReach(CHAIN_MOMENT, CHAIN_TARGETS, 2)
  {
    assert CHAIN_TARGETS[0].time > CHAIN_TARGETS[1].time;
    forall j | 0 <= j < 2
      ensures !Leaks(CHAIN_MOMENT, CHAIN_TARGETS[j], CHAIN_TARGETS[2])
    {
      hide Moment;
    }
  }

  /** Out of order the condition on pairs is not enough: nothing of the third note's window is to come and
      neither earlier note leaks into it at the moment, and yet its verdict still depends on what follows. */
  lemma ChainThaws(ln: real -> real)
    requires IsLogarithm(ln)
    ensures CHAIN_SIDES.Valid() && LnTwo(ln) && |Canonical(ChainSong(ln))| == 3
    ensures var targets := Targets(CHAIN_SIDES, ChainTempo(ln), Canonical(ChainSong(ln)));
            !InOrderUpTo(targets, 2) && OutOfReach(CHAIN_MOMENT, targets, 2)
    ensures !SettledAt(CHAIN_SIDES, ChainTempo(ln), ChainSong(ln), 2, CHAIN_MOMENT)
  {
    hide *;
    LnTwoHolds(ln);
    ChainCanonical(ln);
    ChainOutOfReach();
    ChainEvents();
    ChainBefore();
    ChainAfter();
    assert CHAIN_SIDES.Valid() && CHAIN_SIDES.perfectBandMs == 50.0 by { ChainConfig(); }
    var m, song := ChainTempo(ln), ChainSong(ln);
    OutcomeForEach(CHAIN_SIDES, m, song);
    OutcomeOfMatched(CHAIN_SIDES, m, song, [EARLY, MIDDLE], 2);
    OutcomeOfMatched(CHAIN_SIDES, m, song, [EARLY, MIDDLE, LATE], 2);
    NotSettled(CHAIN_SIDES, m, song, 2, CHAIN_MOMENT, [EARLY, MIDDLE], [EARLY, MIDDLE, LATE]);
  }

  lemma ChainConfig()
    ensures CHAIN_SIDES.Valid() && CHAIN_SIDES.perfectBandMs == 50.0
  {}

  lemma NotSettled(
    config: ScoreConfig, m: TempoMap, expected: seq<ExpectedNote>, k: nat, time: real, events: seq<PlayedNote>,
    events': seq<PlayedNote>)
    requires k < |Canonical(expected)| && Heard(time, events) == Heard(time, events')
    requires |Matched(config, m, expected, events).outcomes| == |Canonical(expected)|
    requires |Matched(config, m, expected, events').outcomes| == |Canonical(expected)|
    requires Matched(config, m, expected, events).outcomes[k] != Matched(config, m, expected, events').outcomes[k]
    ensures !SettledAt(config, m, expected, k, time)
  {
    hide Canonical, Heard, Matched;
  }
}
