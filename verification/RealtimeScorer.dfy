/** The live scorer: a state driven by events and clock ticks that freezes the verdict of a note
    once its deadline has passed. `Live` is its state as a value; the class keeps it in place. */
module Realtime {
  import opened ScoringTypes
  import opened Matcher
  import opened Scorer

  /** What a pass is scored against. */
  datatype Lesson = Lesson(setup: Setup, expected: seq<ExpectedNote>) {
    function Notes(): (notes: seq<ExpectedNote>)
      ensures |notes| == |expected|
    {
      CanonicalTwice(expected);
      Canonical(expected)
    }

    function NoteTargets(): (ts: seq<Target>)
      ensures |ts| == |expected|
    {
      Targets(setup.config, setup.tempoMap, Notes())
    }

    /** The late edge of the window of note `k`. */
    function Close(k: nat): real
      requires k < |expected|
    {
      NoteTargets()[k].end
    }

    /** The freeze deadline of note `k`: the latest of the late edges up to it. */
    function Deadline(k: nat): real
      requires k < |expected|
    {
      if k == 0 then Close(0) else Max(Deadline(k - 1), Close(k))
    }

    /** How many notes are frozen at `watermark` when `from` of them already are. */
    function FrozenTo(from: nat, watermark: real): (to: nat)
      requires from <= |expected|
      ensures from <= to <= |expected|
      ensures forall k :: from <= k < to ==> watermark > Deadline(k)
      ensures to < |expected| ==> watermark <= Deadline(to)
      decreases |expected| - from
    {
      if from < |expected| && watermark > Deadline(from) then FrozenTo(from + 1, watermark) else from
    }

    function Batch(events: seq<PlayedNote>): (r: ScoreReport)
      ensures |r.outcomes| == |expected|
    {
      CanonicalTwice(expected);
      Scored(setup, expected, events)
    }
  }

  datatype Live = Live(
    events: seq<PlayedNote>,
    sessionSeconds: real,
    lastEventNs: int,
    watermark: real,
    frozen: seq<Verdict>,
    tentative: ScoreReport)

  function FrozenScore(lesson: Lesson, st: Live): real
    requires |st.frozen| <= |lesson.expected|
  {
    ScoreOf(lesson.setup.config.perfectBonus, lesson.Notes(), st.frozen, |st.frozen|)
  }

  predicate Sized(lesson: Lesson, st: Live) {
    |st.frozen| <= |lesson.expected| == |st.tentative.outcomes|
  }

  function Initially(lesson: Lesson): (st: Live)
    ensures Sized(lesson, st)
  {
    Live([], 0.0, -1, 0.0, [], lesson.Batch([]))
  }

  /** Freezes, with its current tentative verdict, every open note whose deadline has passed. */
  function Filled(lesson: Lesson, st: Live): (r: Live)
    requires Sized(lesson, st)
    ensures Sized(lesson, r) && st.frozen <= r.frozen
  {
    var to := lesson.FrozenTo(|st.frozen|, st.watermark);
    st.(frozen := st.frozen + Verdicts(st.tentative.outcomes)[|st.frozen|..to])
  }

  /** Delivery of one event; None when it is older than the one before. */
  function AfterEvent(lesson: Lesson, st: Live, note: PlayedNote): (r: Option<Live>)
    requires Sized(lesson, st)
    ensures r.Some? <==> note.onTimeNs >= st.lastEventNs
    ensures r.Some? ==> Sized(lesson, r.value) && st.frozen <= r.value.frozen
    ensures r.Some? ==> r.value.sessionSeconds == st.sessionSeconds && r.value.lastEventNs == note.onTimeNs
    ensures r.Some? ==> r.value.watermark == Max(st.watermark, note.Seconds())
  {
    if note.onTimeNs < st.lastEventNs then None
    else
      var events := st.events + [note];
      Some(Filled(lesson, st.(events := events,
                              lastEventNs := note.onTimeNs,
                              watermark := Max(st.watermark, note.Seconds()),
                              tentative := lesson.Batch(events))))
  }

  /** A tick of the session clock; None when the clock runs backwards. */
  function AfterTick(lesson: Lesson, st: Live, now: real): (r: Option<Live>)
    requires Sized(lesson, st)
    ensures r.Some? <==> now >= st.sessionSeconds
    ensures r.Some? ==> Sized(lesson, r.value) && st.frozen <= r.value.frozen
    ensures r.Some? ==> r.value.sessionSeconds == now && r.value.lastEventNs == st.lastEventNs
    ensures r.Some? ==> r.value.watermark == Max(st.watermark, now)
  {
    if now < st.sessionSeconds then None
    else Some(Filled(lesson, st.(sessionSeconds := now, watermark := Max(st.watermark, now))))
  }

  datatype Snapshot = Snapshot(
    frozenVerdicts: seq<Option<Verdict>>,
    tentativeVerdicts: seq<Verdict>,
    matchedPitches: seq<Option<int>>,
    deviationMs: seq<Option<real>>,
    frozenCount: nat,
    tentativeScore: real,
    frozenScore: real,
    tentativeStars: nat)

  /** The frozen prefix, followed by nothing for every open note. */
  function Padded(frozen: seq<Verdict>, n: nat): (r: seq<Option<Verdict>>)
    requires |frozen| <= n
    ensures |r| == n
  {
    seq(n, i requires 0 <= i < n => if i < |frozen| then Some(frozen[i]) else None)
  }

  function SnapshotOf(lesson: Lesson, st: Live): Snapshot
    requires Sized(lesson, st)
  {
    var outcomes := st.tentative.outcomes;
    Snapshot(
      Padded(st.frozen, |lesson.expected|),
      Verdicts(outcomes),
      seq(|outcomes|, i requires 0 <= i < |outcomes| => outcomes[i].matchedPitch),
      seq(|outcomes|, i requires 0 <= i < |outcomes| => outcomes[i].deviationMs),
      |st.frozen|,
      st.tentative.score,
      FrozenScore(lesson, st),
      st.tentative.stars)
  }

  lemma SnapshotShows(lesson: Lesson, st: Live)
    requires Sized(lesson, st)
    ensures var s := SnapshotOf(lesson, st);
            && s.frozenCount == |st.frozen| <= |s.frozenVerdicts|
            && forall k :: 0 <= k < s.frozenCount ==> s.frozenVerdicts[k] == Some(st.frozen[k])
  {}

  /** The freeze deadlines, as a running maximum over the late edges of the windows. */
  method RunningMaxClose(lesson: Lesson) returns (deadlines: array<real>)
    ensures fresh(deadlines) && deadlines.Length == |lesson.expected|
    ensures forall k :: 0 <= k < deadlines.Length ==> deadlines[k] == lesson.Deadline(k)
  {
    hide Lesson.Close, Lesson.NoteTargets;
    var targets := lesson.NoteTargets();
    deadlines := new real[|lesson.expected|];
    var runningMax := 0.0;
    for index := 0 to |lesson.expected|
      invariant index > 0 ==> runningMax == lesson.Deadline(index - 1)
      invariant forall k :: 0 <= k < index ==> deadlines[k] == lesson.Deadline(k)
    {
      assert targets[index].end == lesson.Close(index) by { LateEdge(lesson, index); }
      runningMax := if index == 0 then targets[index].end else Max(runningMax, targets[index].end);
      deadlines[index] := runningMax;
    }
  }

  lemma LateEdge(lesson: Lesson, k: nat)
    requires k < |lesson.expected|
    ensures lesson.Close(k) == lesson.NoteTargets()[k].end
  {}

  class RealtimeScorer {
    const lesson: Lesson
    const runningMaxClose: array<real>
    const frozenVerdicts: array<Option<Verdict>>
    var events: seq<PlayedNote>
    var sessionSeconds: real
    var lastEventNs: int
    var watermark: real
    var frozenCount: nat
    var frozenScore: real
    var tentative: ScoreReport

    ghost predicate Shaped()
      reads this, runningMaxClose, frozenVerdicts
    {
      && lesson.setup.Valid()
      && runningMaxClose.Length == frozenVerdicts.Length == |lesson.expected| == |tentative.outcomes|
      && (forall k :: 0 <= k < runningMaxClose.Length ==> runningMaxClose[k] == lesson.Deadline(k))
      && frozenCount <= frozenVerdicts.Length
      && (forall k :: 0 <= k < frozenVerdicts.Length ==> (frozenVerdicts[k].Some? <==> k < frozenCount))
    }

    ghost function Frozen(): (r: seq<Verdict>)
      requires Shaped()
      reads this, runningMaxClose, frozenVerdicts
      ensures |r| == frozenCount
    {
      seq(frozenCount, k requires 0 <= k < frozenCount && Shaped() reads this, runningMaxClose, frozenVerdicts
                       => frozenVerdicts[k].value)
    }

    /** The state as a value. */
    ghost function View(): (st: Live)
      requires Shaped()
      reads this, runningMaxClose, frozenVerdicts
      ensures Sized(lesson, st)
    {
      Live(events, sessionSeconds, lastEventNs, watermark, Frozen(), tentative)
    }

    ghost predicate Valid()
      reads this, runningMaxClose, frozenVerdicts
    {
      Shaped() && frozenScore == FrozenScore(lesson, View())
    }

    constructor (lesson: Lesson)
      requires lesson.setup.Valid()
      ensures Valid() && this.lesson == lesson && View() == Initially(lesson)
      ensures fresh(runningMaxClose) && fresh(frozenVerdicts)
    {
      hide Scored, Lesson.Deadline, Setup.Valid;
      this.lesson := lesson;
      var deadlines := RunningMaxClose(lesson);
      var report := Score(lesson.setup, lesson.expected, []);
      runningMaxClose := deadlines;
      frozenVerdicts := new Option<Verdict>[|lesson.expected|](_ => None);
      events, sessionSeconds, lastEventNs, watermark := [], 0.0, -1, 0.0;
      frozenCount, frozenScore, tentative := 0, 0.0, report;
      new;
      assert report == lesson.Batch([]);
      assert Frozen() == [];
    }

    /** Freezes what the watermark has passed, then sums the score of the frozen prefix. */
    method FillFrozen()
      requires Shaped()
      modifies this`frozenCount, this`frozenScore, frozenVerdicts
      ensures Valid() && View() == Filled(lesson, old(View()))
    {
      hide Lesson.Deadline, Lesson.Notes, Setup.Valid, FrozenScore;
      ghost var before, vs := View(), Verdicts(tentative.outcomes);
      ghost var from, to := frozenCount, lesson.FrozenTo(frozenCount, watermark);
      while frozenCount < |lesson.expected| && watermark > runningMaxClose[frozenCount]
        invariant Shaped() && from <= frozenCount <= to
        invariant lesson.FrozenTo(frozenCount, watermark) == to
        invariant Frozen() == before.frozen + vs[from..frozenCount]
      {
        ghost var prefix := Frozen();
        if frozenVerdicts[frozenCount].None? {
          frozenVerdicts[frozenCount] := Some(tentative.outcomes[frozenCount].verdict);
        }
        frozenCount := frozenCount + 1;
        assert Frozen() == prefix + [vs[frozenCount - 1]];
      }
      SumFrozen();
    }

    method SumFrozen()
      requires Shaped()
      modifies this`frozenScore
      ensures Valid() && View() == old(View())
    {
      hide Lesson.Deadline, Setup.Valid;
      var canonical, bonus := lesson.Notes(), lesson.setup.config.perfectBonus;
      ghost var frozen := Frozen();
      var totalWeight, hitWeight := 0.0, 0.0;
      for index := 0 to frozenCount
        invariant totalWeight == TotalWeight(canonical, index)
        invariant hitWeight == HitWeight(bonus, canonical, frozen, index)
      {
        var weight := canonical[index].scoringWeight;
        totalWeight := totalWeight + weight;
        match frozenVerdicts[index].value {
          case PERFECT => hitWeight := hitWeight + weight * (1.0 + bonus);
          case GOOD => hitWeight := hitWeight + weight;
          case MISSED =>
          case WRONG =>
        }
      }
      frozenScore := if totalWeight == 0.0 then 0.0 else Min(100.0, 100.0 * hitWeight / totalWeight);
      assert Frozen() == frozen;
    }

    /** Delivers one event; refused, leaving everything as it was, when it is out of order. */
    method OnEvent(note: PlayedNote) returns (r: Option<Snapshot>)
      requires Valid()
      modifies this, frozenVerdicts
      ensures Valid()
      ensures AfterEvent(lesson, old(View()), note) == None ==> r == None && View() == old(View())
      ensures AfterEvent(lesson, old(View()), note).Some? ==>
                View() == AfterEvent(lesson, old(View()), note).value && r == Some(SnapshotOf(lesson, View()))
    {
      hide Scored, ScoreOf, FrozenScore, SnapshotOf, Filled, Lesson.Deadline, Lesson.Notes, Setup.Valid;
      if note.onTimeNs < lastEventNs { return None; }
      events := events + [note];
      lastEventNs := note.onTimeNs;
      watermark := Max(watermark, note.Seconds());
      tentative := Score(lesson.setup, lesson.expected, events);
      assert tentative == lesson.Batch(events);
      assert Frozen() == old(Frozen());
      FillFrozen();
      var snapshot := GetSnapshot();
      r := Some(snapshot);
    }

    /** Advances the session clock; refused when it would run backwards. */
    method Tick(now: real) returns (r: Option<Snapshot>)
      requires Valid()
      modifies this, frozenVerdicts
      ensures Valid()
      ensures AfterTick(lesson, old(View()), now) == None ==> r == None && View() == old(View())
      ensures AfterTick(lesson, old(View()), now).Some? ==>
                View() == AfterTick(lesson, old(View()), now).value && r == Some(SnapshotOf(lesson, View()))
    {
      hide Scored, ScoreOf, FrozenScore, SnapshotOf, Filled, Lesson.Deadline, Lesson.Notes, Setup.Valid;
      if now < sessionSeconds { return None; }
      sessionSeconds := now;
      watermark := Max(watermark, now);
      assert Frozen() == old(Frozen());
      FillFrozen();
      var snapshot := GetSnapshot();
      r := Some(snapshot);
    }

    method Finalize() returns (report: ScoreReport)
      requires Valid()
      ensures report == lesson.Batch(events)
    {
      report := Score(lesson.setup, lesson.expected, events);
    }

    method GetSnapshot() returns (snapshot: Snapshot)
      requires Valid()
      ensures snapshot == SnapshotOf(lesson, View())
    {
      var outcomes := tentative.outcomes;
      assert frozenVerdicts[..] == Padded(Frozen(), |lesson.expected|);
      snapshot := Snapshot(
        frozenVerdicts[..],
        Verdicts(outcomes),
        seq(|outcomes|, i requires 0 <= i < |outcomes| => outcomes[i].matchedPitch),
        seq(|outcomes|, i requires 0 <= i < |outcomes| => outcomes[i].deviationMs),
        frozenCount,
        tentative.score,
        frozenScore,
        tentative.stars);
    }
  }
}
