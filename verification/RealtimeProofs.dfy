/** The live scorer agrees with the batch scorer over every run: a frozen verdict is the verdict
    of the final report, whatever is still to come. */
module RealtimeProofs {
  import opened ScoringTypes
  import opened Tempo
  import opened TempoProofs
  import opened Config
  import opened Matcher
  import opened Measures
  import opened Scorer
  import opened FreezeProofs
  import opened ScorerProofs
  import opened Realtime
  import StableSort

  // ----- The running-maximum rule ---------------------------------------------------------

  lemma {:induction false} DeadlineCovers(lesson: Lesson, j: nat, k: nat)
    requires j <= k < |lesson.expected|
    ensures lesson.NoteTargets()[j].end <= lesson.Deadline(k)
    decreases k
  {
    hide Lesson.NoteTargets;
    if j < k { DeadlineCovers(lesson, j, k - 1); }
  }

  /** What was heard up to the deadline is the same prefix of both ordered lists, and windows 0..k
      end before the rest. */
  lemma CommonPrefix(targets: seq<Target>, n: nat, time: real, events: seq<PlayedNote>, events': seq<PlayedNote>)
    requires n <= |targets| && forall j :: 0 <= j < n ==> targets[j].end <= time
    requires Heard(time, events) == Heard(time, events')
    ensures var p := |InTime(Heard(time, events))|;
            && SameUpTo(InTime(events), InTime(events'), p)
            && ClosedBefore(targets, InTime(events), n, p) && ClosedBefore(targets, InTime(events'), n, p)
  {
    HeardIsPrefix(events, time);
    HeardIsPrefix(events', time);
    var heard, a, b := InTime(Heard(time, events)), InTime(events), InTime(events');
    hide InTime, Heard;
    assert forall i :: 0 <= i < |heard| ==> a[i] == heard[i] == b[i];
  }

  /** Main result: whatever the shape of the windows, the outcomes of notes 0..k depend only on the
      events up to the latest of their late edges. */
  lemma {:induction false} RunningMaxFreeze(lesson: Lesson, events: seq<PlayedNote>, events': seq<PlayedNote>, k: nat)
    requires k < |lesson.expected|
    requires Heard(lesson.Deadline(k), events) == Heard(lesson.Deadline(k), events')
    ensures lesson.Batch(events).outcomes[..k + 1] == lesson.Batch(events').outcomes[..k + 1]
  {
    hide Lesson.Batch, Lesson.NoteTargets, Lesson.Deadline, InTime, Heard, OutcomeAt, SameUpTo;
    var targets, band := lesson.NoteTargets(), lesson.setup.config.perfectBandMs;
    BatchOutcomes(lesson, events);
    BatchOutcomes(lesson, events');
    forall j | 0 <= j <= k ensures targets[j].end <= lesson.Deadline(k) {
      DeadlineCovers(lesson, j, k);
    }
    CommonPrefix(targets, k + 1, lesson.Deadline(k), events, events');
    var p := |InTime(Heard(lesson.Deadline(k), events))|;
    forall j | 0 <= j <= k
      ensures OutcomeAt(band, targets, InTime(events), j) == OutcomeAt(band, targets, InTime(events'), j)
    {
      PrefixOutcome(band, targets, InTime(events), InTime(events'), j, p);
    }
  }

  lemma BatchOutcomes(lesson: Lesson, events: seq<PlayedNote>)
    ensures lesson.Batch(events).outcomes
         == Outcomes(lesson.setup.config.perfectBandMs, lesson.NoteTargets(), InTime(events))
  {
  }

  // ----- Runs -------------------------------------------------------------------------------

  datatype Input = Event(note: PlayedNote) | Tick(now: real)

  function Step(lesson: Lesson, st: Live, input: Input): (r: Option<Live>)
    requires Sized(lesson, st)
    ensures r.Some? ==> Sized(lesson, r.value)
  {
    match input
    case Event(note) => AfterEvent(lesson, st, note)
    case Tick(now) => AfterTick(lesson, st, now)
  }

  /** An event that lies in none of the windows of the first `n` notes. */
  predicate Harmless(lesson: Lesson, n: nat, note: PlayedNote)
    requires n <= |lesson.expected|
  {
    forall j :: 0 <= j < n ==> !InWindow(note, lesson.NoteTargets()[j])
  }

  /** The delivery contract, as far as it matters: events in order, none in the window of a note already
      frozen, and no clock running backwards. */
  predicate Honoured(lesson: Lesson, st: Live, input: Input)
    requires Sized(lesson, st)
  {
    match input
    case Event(note) => note.onTimeNs >= st.lastEventNs && Harmless(lesson, |st.frozen|, note)
    case Tick(now) => now >= st.sessionSeconds
  }

  /** The contract as it is documented: every event is delivered before the watermark passes it. */
  predicate Punctual(st: Live, input: Input) {
    match input
    case Event(note) => note.Seconds() >= st.watermark
    case Tick(now) => now >= st.sessionSeconds
  }

  /** All events are at or before the moment. */
  predicate NoneAfter(events: seq<PlayedNote>, ns: int) { forall e :: e in events ==> e.onTimeNs <= ns }

  /** What holds in every state reached, under the contract or not: the tentative report is the batch
      report so far, and the deadlines of the frozen notes have passed. */
  ghost predicate Steady(lesson: Lesson, st: Live) {
    && Sized(lesson, st)
    && st.tentative == lesson.Batch(st.events)
    && (forall k :: 0 <= k < |st.frozen| ==> st.watermark > lesson.Deadline(k))
  }

  /** What holds besides in every state reached under the contract: each frozen note has its verdict in
      the batch report. */
  ghost predicate Consistent(lesson: Lesson, st: Live) {
    && Steady(lesson, st)
    && st.lastEventNs as real / 1000000000.0 <= st.watermark
    && st.sessionSeconds <= st.watermark
    && NoneAfter(st.events, st.lastEventNs)
    && st.frozen == Verdicts(st.tentative.outcomes)[..|st.frozen|]
  }

  lemma InitiallyConsistent(lesson: Lesson)
    ensures Consistent(lesson, Initially(lesson))
  {}

  lemma {:induction false} FrozenToSkips(lesson: Lesson, from: nat, n: nat, watermark: real)
    requires from <= n <= |lesson.expected|
    requires forall k :: from <= k < n ==> watermark > lesson.Deadline(k)
    ensures lesson.FrozenTo(from, watermark) == lesson.FrozenTo(n, watermark)
    decreases n - from
  {
    hide Lesson.Deadline;
    if from < n { FrozenToSkips(lesson, from + 1, n, watermark); }
  }

  /** Freezing with a batch report that agrees on what is frozen already. */
  lemma {:induction false} FillConsistent(lesson: Lesson, st: Live)
    requires Sized(lesson, st) && st.tentative == lesson.Batch(st.events)
    requires st.lastEventNs as real / 1000000000.0 <= st.watermark && st.sessionSeconds <= st.watermark
    requires NoneAfter(st.events, st.lastEventNs)
    requires forall k :: 0 <= k < |st.frozen| ==> st.watermark > lesson.Deadline(k)
    requires st.frozen == Verdicts(st.tentative.outcomes)[..|st.frozen|]
    ensures Consistent(lesson, Filled(lesson, st)) && st.frozen <= Filled(lesson, st).frozen
  {
    hide Lesson.Deadline, Lesson.Batch;
    FrozenToSkips(lesson, 0, |st.frozen|, st.watermark);
  }

  // ----- Which events are harmless, exactly -----------------------------------------------------

  lemma {:induction false} InTimeNoneAfter(events: seq<PlayedNote>, ns: int)
    requires NoneAfter(events, ns)
    ensures NoneAfter(InTime(events), ns)
  {
    StableSort.SortCorrect(EventLe, events);
    forall e | e in InTime(events)
      ensures e.onTimeNs <= ns
    {
      assert e in multiset(InTime(events));
    }
  }

  /** The last events of the ordered list, those no earlier than `note`, are at its very moment. */
  lemma TailAtNote(events: seq<PlayedNote>, note: PlayedNote, tg: Target)
    requires NoneAfter(events, note.onTimeNs) && !InWindow(note, tg)
    ensures NoneInWindow(InTime(events), tg, |InTime(Heard(Moment(note.onTimeNs - 1), events))|)
  {
    hide InTime, Heard, InWindow, Moment, EventFields.Seconds, NoneAfter;
    HeardIsPrefix(events, Moment(note.onTimeNs - 1));
    InTimeNoneAfter(events, note.onTimeNs);
    var sorted, p := InTime(events), |InTime(Heard(Moment(note.onTimeNs - 1), events))|;
    forall i | p <= i < |sorted|
      ensures !InWindow(sorted[i], tg)
    {
      AtNote(sorted, i, note, tg);
    }
  }

  lemma AtNote(sorted: seq<PlayedNote>, i: nat, note: PlayedNote, tg: Target)
    requires i < |sorted| && NoneAfter(sorted, note.onTimeNs) && !InWindow(note, tg)
    requires sorted[i].Seconds() > Moment(note.onTimeNs - 1)
    ensures !InWindow(sorted[i], tg)
  {
    assert sorted[i].onTimeNs == note.onTimeNs;
  }

  /** Whatever was played before, a harmless event that comes last changes none of the first `n`
      outcomes. */
  lemma {:induction false} HarmlessKeeps(lesson: Lesson, n: nat, events: seq<PlayedNote>, note: PlayedNote)
    requires n <= |lesson.expected| && Harmless(lesson, n, note) && NoneAfter(events, note.onTimeNs)
    ensures lesson.Batch(events + [note]).outcomes[..n] == lesson.Batch(events).outcomes[..n]
  {
    hide Lesson.Batch, Lesson.NoteTargets, InTime, Heard, OutcomeAt, InWindow, Moment;
    var targets, band := lesson.NoteTargets(), lesson.setup.config.perfectBandMs;
    var events', time := events + [note], Moment(note.onTimeNs - 1);
    assert note.Seconds() > time by { MomentBefore(note); }
    NotHeard(time, events, note);
    BatchOutcomes(lesson, events);
    BatchOutcomes(lesson, events');
    HeardIsPrefix(events, time);
    HeardIsPrefix(events', time);
    var p := |InTime(Heard(time, events))|;
    forall j | 0 <= j < n
      ensures NoneInWindow(InTime(events), targets[j], p) && NoneInWindow(InTime(events'), targets[j], p)
    {
      TailAtNote(events, note, targets[j]);
      TailAtNote(events', note, targets[j]);
    }
    forall j | 0 <= j < n
      ensures OutcomeAt(band, targets, InTime(events), j) == OutcomeAt(band, targets, InTime(events'), j)
    {
      PrefixOutcome(band, targets, InTime(events), InTime(events'), j, p);
    }
  }

  lemma MomentBefore(note: PlayedNote)
    ensures note.Seconds() > Moment(note.onTimeNs - 1)
  {}

  /** With nothing played every note is MISSED. */
  lemma {:induction false} NothingPlayed(band: real, targets: seq<Target>, j: nat)
    requires j < |targets|
    ensures OutcomeAt(band, targets, [], j).verdict == MISSED
  {}

  lemma {:induction false} NothingConsumed(targets: seq<Target>, note: PlayedNote, n: nat)
    requires n <= |targets| && forall j :: 0 <= j < n ==> !InWindow(note, targets[j])
    ensures ConsumedAfter(targets, [note], n) == {}
    decreases n
  {
    hide InWindow;
    if n > 0 { NothingConsumed(targets, note, n - 1); }
  }

  /** A single event decides the first note in whose window it lies. */
  lemma {:induction false} FirstHit(band: real, targets: seq<Target>, note: PlayedNote, j: nat)
    requires j < |targets| && InWindow(note, targets[j])
    requires forall i :: 0 <= i < j ==> !InWindow(note, targets[i])
    ensures OutcomeAt(band, targets, [note], j).verdict != MISSED
  {
    NothingConsumed(targets, note, j);
    hide ConsumedAfter, InWindow;
    assert Candidate([note], {}, targets[j], 0) || WrongPitch([note], {}, targets[j], 0);
  }

  lemma {:induction false} FirstInWindow(lesson: Lesson, n: nat, note: PlayedNote) returns (j: nat)
    requires n <= |lesson.expected| && !Harmless(lesson, n, note)
    ensures j < n && InWindow(note, lesson.NoteTargets()[j]) && Harmless(lesson, j, note)
    decreases n
  {
    if Harmless(lesson, n - 1, note) { j := n - 1; } else { j := FirstInWindow(lesson, n - 1, note); }
  }

  /** No event that comes in order can change the verdicts of the first `n` notes by adding `note`. */
  ghost predicate KeepsVerdicts(lesson: Lesson, n: nat, note: PlayedNote)
    requires n <= |lesson.expected|
  {
    forall events :: NoneAfter(events, note.onTimeNs) ==>
      Verdicts(lesson.Batch(events + [note]).outcomes)[..n] == Verdicts(lesson.Batch(events).outcomes)[..n]
  }

  lemma {:induction false} HarmfulChanges(lesson: Lesson, n: nat, note: PlayedNote)
    requires n <= |lesson.expected| && !Harmless(lesson, n, note)
    ensures Verdicts(lesson.Batch([note]).outcomes)[..n] != Verdicts(lesson.Batch([]).outcomes)[..n]
  {
    hide Lesson.Batch, Lesson.NoteTargets, InWindow, OutcomeAt;
    var j := FirstInWindow(lesson, n, note);
    var targets, band := lesson.NoteTargets(), lesson.setup.config.perfectBandMs;
    BatchOutcomes(lesson, []);
    BatchOutcomes(lesson, [note]);
    assert InTime([]) == [] && InTime([note]) == [note] by { SortedAlready(note); }
    NothingPlayed(band, targets, j);
    FirstHit(band, targets, note, j);
    var before, after := Verdicts(lesson.Batch([]).outcomes), Verdicts(lesson.Batch([note]).outcomes);
    assert before[..n][j] == before[j] && after[..n][j] == after[j];
  }

  lemma SortedAlready(note: PlayedNote)
    ensures InTime([]) == [] && InTime([note]) == [note]
  {
    StableSort.SortIdempotent(EventLe, []);
    StableSort.SortIdempotent(EventLe, [note]);
  }

  /** Main result: an event that comes in order leaves the verdicts of the first `n` notes alone, whatever
      was played before, if and only if it lies in none of their windows. */
  lemma {:induction false} HarmlessExactly(lesson: Lesson, n: nat, note: PlayedNote)
    requires n <= |lesson.expected|
    ensures KeepsVerdicts(lesson, n, note) <==> Harmless(lesson, n, note)
  {
    hide Lesson.Batch, Harmless;
    if Harmless(lesson, n, note) {
      forall events | NoneAfter(events, note.onTimeNs)
        ensures Verdicts(lesson.Batch(events + [note]).outcomes)[..n] == Verdicts(lesson.Batch(events).outcomes)[..n]
      {
        HarmlessKeeps(lesson, n, events, note);
        SameVerdicts(lesson.Batch(events + [note]).outcomes, lesson.Batch(events).outcomes, n);
      }
    } else {
      HarmfulChanges(lesson, n, note);
      assert [] + [note] == [note];
      assert NoneAfter([], note.onTimeNs);
    }
  }

  lemma SameVerdicts(a: seq<NoteOutcome>, b: seq<NoteOutcome>, n: nat)
    requires n <= |a| && n <= |b| && a[..n] == b[..n]
    ensures Verdicts(a)[..n] == Verdicts(b)[..n]
  {
    assert forall i :: 0 <= i < n ==> a[i] == a[..n][i] && b[i] == b[..n][i];
  }

  /** A late event leaves the verdicts of the frozen notes as they are in the batch report. */
  lemma LateEventKeepsFrozen(lesson: Lesson, st: Live, note: PlayedNote)
    requires Consistent(lesson, st) && Honoured(lesson, st, Event(note))
    ensures st.frozen == Verdicts(lesson.Batch(st.events + [note]).outcomes)[..|st.frozen|]
  {
    hide Lesson.Deadline, Lesson.Batch, Initially, Harmless, Lesson.FrozenTo;
    HarmlessKeeps(lesson, |st.frozen|, st.events, note);
    SameVerdicts(lesson.Batch(st.events + [note]).outcomes, st.tentative.outcomes, |st.frozen|);
  }

  lemma NotHeard(time: real, events: seq<PlayedNote>, note: PlayedNote)
    requires note.Seconds() > time
    ensures Heard(time, events + [note]) == Heard(time, events)
  {
    var p := (e: PlayedNote) => UpTo(time, e);
    StableSort.FilterAppend(p, events, [note]);
    assert [note][1..] == [];
    assert StableSort.Filter(p, [note]) == [];
  }

  /** Every step under the contract is accepted and keeps the live state consistent. */
  lemma StepConsistent(lesson: Lesson, st: Live, input: Input)
    requires Consistent(lesson, st) && Honoured(lesson, st, input)
    ensures Step(lesson, st, input).Some?
    ensures var next := Step(lesson, st, input).value;
            && Consistent(lesson, next) && st.frozen <= next.frozen
            && next.events == st.events + EventsOf([input])
  {
    hide Lesson.Deadline, Lesson.Batch;
    match input
    case Event(note) =>
      LateEventKeepsFrozen(lesson, st, note);
      var events := st.events + [note];
      var raw := st.(events := events, lastEventNs := note.onTimeNs,
                     watermark := Max(st.watermark, note.Seconds()), tentative := lesson.Batch(events));
      hide Consistent, Initially;
      FillConsistent(lesson, raw);
    case Tick(now) =>
      var raw := st.(sessionSeconds := now, watermark := Max(st.watermark, now));
      FillConsistent(lesson, raw);
      assert st.events + [] == st.events;
  }

  function EventsOf(inputs: seq<Input>): seq<PlayedNote> {
    if inputs == [] then []
    else
      EventsOf(inputs[..|inputs| - 1]) +
      match inputs[|inputs| - 1] case Event(note) => [note] case Tick(_) => []
  }

  /** The state after a run; None as soon as one input is refused. */
  function Run(lesson: Lesson, inputs: seq<Input>): (r: Option<Live>)
    ensures r.Some? ==> Sized(lesson, r.value)
  {
    if inputs == [] then Some(Initially(lesson))
    else
      match Run(lesson, inputs[..|inputs| - 1])
      case None => None
      case Some(st) => Step(lesson, st, inputs[|inputs| - 1])
  }

  /** Every input of the run honours the delivery contract in the state it meets. */
  predicate HonouredRun(lesson: Lesson, inputs: seq<Input>) {
    inputs == [] ||
    (HonouredRun(lesson, inputs[..|inputs| - 1]) &&
     match Run(lesson, inputs[..|inputs| - 1])
     case None => false
     case Some(st) => Honoured(lesson, st, inputs[|inputs| - 1]))
  }

  predicate PunctualRun(lesson: Lesson, inputs: seq<Input>) {
    inputs == [] ||
    (PunctualRun(lesson, inputs[..|inputs| - 1]) &&
     match Run(lesson, inputs[..|inputs| - 1])
     case None => false
     case Some(st) => Punctual(st, inputs[|inputs| - 1]))
  }

  lemma PunctualHonours(lesson: Lesson, st: Live, input: Input)
    requires Consistent(lesson, st) && Punctual(st, input)
    ensures Honoured(lesson, st, input)
  {
    hide Lesson.Deadline, Lesson.Batch, Initially, Lesson.FrozenTo, Lesson.NoteTargets;
    if input.Event? {
      var note := input.note;
      assert note.Seconds() >= st.lastEventNs as real / 1000000000.0;
      assert note.onTimeNs >= st.lastEventNs;
      forall j | 0 <= j < |st.frozen|
        ensures !InWindow(note, lesson.NoteTargets()[j])
      {
        DeadlineCovers(lesson, j, j);
      }
    }
  }

  /** Documented delivery is more than is needed. */
  lemma {:induction false} PunctualRunHonours(lesson: Lesson, inputs: seq<Input>)
    requires PunctualRun(lesson, inputs)
    ensures HonouredRun(lesson, inputs)
    decreases |inputs|
  {
    hide Consistent, Step, Honoured, Punctual;
    if inputs != [] {
      var past, last := inputs[..|inputs| - 1], inputs[|inputs| - 1];
      PunctualRunHonours(lesson, past);
      RunConsistent(lesson, past);
      PunctualHonours(lesson, Run(lesson, past).value, last);
    }
  }

  lemma {:induction false} RunConsistent(lesson: Lesson, inputs: seq<Input>)
    requires HonouredRun(lesson, inputs)
    ensures Run(lesson, inputs).Some?
    ensures Consistent(lesson, Run(lesson, inputs).value)
    ensures Run(lesson, inputs).value.events == EventsOf(inputs)
    decreases |inputs|
  {
    hide Consistent, Step, Honoured;
    if inputs == [] {
      InitiallyConsistent(lesson);
    } else {
      var past, last := inputs[..|inputs| - 1], inputs[|inputs| - 1];
      RunConsistent(lesson, past);
      StepConsistent(lesson, Run(lesson, past).value, last);
      assert [last][..0] == [] && EventsOf([last][..0]) == [];
    }
  }

  // ----- Every accepted run -------------------------------------------------------------------

  /** Freezing what has passed keeps a steady state steady. */
  lemma {:induction false} FillSteady(lesson: Lesson, st: Live)
    requires Steady(lesson, st)
    ensures Steady(lesson, Filled(lesson, st)) && st.frozen <= Filled(lesson, st).frozen
    ensures |Filled(lesson, st).frozen| == lesson.FrozenTo(0, st.watermark)
  {
    hide Lesson.Deadline, Lesson.Batch;
    FrozenToSkips(lesson, 0, |st.frozen|, st.watermark);
  }

  /** Every accepted step keeps a steady state steady, and freezes exactly up to the watermark. */
  lemma {:induction false} StepSteady(lesson: Lesson, st: Live, input: Input)
    requires Steady(lesson, st) && Step(lesson, st, input).Some?
    ensures var next := Step(lesson, st, input).value;
            && Steady(lesson, next) && st.frozen <= next.frozen
            && |next.frozen| == lesson.FrozenTo(0, next.watermark)
            && next.events == st.events + EventsOf([input])
  {
    hide Lesson.Deadline, Lesson.Batch, Filled;
    match input
    case Event(note) =>
      var events := st.events + [note];
      var raw := st.(events := events, lastEventNs := note.onTimeNs,
                     watermark := Max(st.watermark, note.Seconds()), tentative := lesson.Batch(events));
      FillSteady(lesson, raw);
      FilledFields(lesson, raw);
    case Tick(now) =>
      var raw := st.(sessionSeconds := now, watermark := Max(st.watermark, now));
      FillSteady(lesson, raw);
      FilledFields(lesson, raw);
      assert st.events + [] == st.events;
  }

  lemma FilledFields(lesson: Lesson, st: Live)
    requires Sized(lesson, st)
    ensures Filled(lesson, st).watermark == st.watermark && Filled(lesson, st).events == st.events
  {}

  lemma {:induction false} RunSteady(lesson: Lesson, inputs: seq<Input>)
    requires Run(lesson, inputs).Some?
    ensures Steady(lesson, Run(lesson, inputs).value)
    ensures Run(lesson, inputs).value.events == EventsOf(inputs)
    decreases |inputs|
  {
    hide Step, Lesson.Batch, Lesson.Deadline;
    if inputs != [] {
      var past, last := inputs[..|inputs| - 1], inputs[|inputs| - 1];
      RunSteady(lesson, past);
      StepSteady(lesson, Run(lesson, past).value, last);
      assert [last][..0] == [] && EventsOf([last][..0]) == [];
    }
  }

  /** Main result: in every run the scorer accepts, the report is at every moment the batch report over
      the events delivered, and the frozen verdicts are a prefix that only grows: none ever flips. */
  lemma {:induction false} FrozenGrows(lesson: Lesson, past: seq<Input>, future: seq<Input>)
    requires Run(lesson, past + future).Some?
    ensures Run(lesson, past).Some?
    ensures Run(lesson, past).value.frozen <= Run(lesson, past + future).value.frozen
    ensures Run(lesson, past + future).value.tentative == lesson.Batch(EventsOf(past + future))
    decreases |future|
  {
    hide Step, Lesson.Batch, Lesson.Deadline;
    RunSteady(lesson, past + future);
    if future == [] {
      assert past + future == past;
    } else {
      var earlier, last := future[..|future| - 1], future[|future| - 1];
      assert (past + future)[..|past + future| - 1] == past + earlier;
      FrozenGrows(lesson, past, earlier);
      RunSteady(lesson, past + earlier);
      StepSteady(lesson, Run(lesson, past + earlier).value, last);
    }
  }

  /** Main result, online equals offline: over every run that honours the contract and every way it
      may go on, the frozen verdicts are those of the final batch report, a prefix that only grows. */
  lemma {:induction false} OnlineEqualsOffline(lesson: Lesson, past: seq<Input>, future: seq<Input>)
    requires HonouredRun(lesson, past + future)
    ensures Run(lesson, past).Some? && Run(lesson, past + future).Some?
    ensures var now, end := Run(lesson, past).value, Run(lesson, past + future).value;
            && end.tentative == lesson.Batch(EventsOf(past + future))
            && now.frozen <= end.frozen
            && now.frozen <= Verdicts(lesson.Batch(EventsOf(past + future)).outcomes)
  {
    hide Step, Honoured, Lesson.Batch, Lesson.Deadline;
    RunConsistent(lesson, past + future);
    FrozenGrows(lesson, past, future);
    var end := Run(lesson, past + future).value;
    assert end.frozen <= Verdicts(end.tentative.outcomes);
  }

  /** The same under the contract as documented. */
  lemma {:induction false} PunctualOnlineEqualsOffline(lesson: Lesson, past: seq<Input>, future: seq<Input>)
    requires PunctualRun(lesson, past + future)
    ensures Run(lesson, past).Some? && Run(lesson, past + future).Some?
    ensures Run(lesson, past).value.frozen <= Verdicts(lesson.Batch(EventsOf(past + future)).outcomes)
  {
    hide *;
    PunctualRunHonours(lesson, past + future);
    OnlineEqualsOffline(lesson, past, future);
  }

  /** No deadline lies before the start of the session. */
  lemma {:induction false} DeadlinePositive(lesson: Lesson, k: nat)
    requires IsLogarithm(lesson.setup.tempoMap.ln) && k < |lesson.expected|
    ensures lesson.Deadline(k) > 0.0
  {
    hide IsLogarithm, Lesson.Deadline;
    var config, m, first := lesson.setup.config, lesson.setup.tempoMap, lesson.Notes()[0];
    TimeNonNegative(m, first.startBeat);
    WindowShape(config, first.startBeat, m);
    hide MapFields.BeatToSeconds, WindowMs;
    DeadlineCovers(lesson, 0, k);
  }

  /** Main result: in every state of every accepted run a note is frozen exactly when the watermark has
      passed its deadline. */
  lemma {:induction false} FrozenExactlyPastDeadline(lesson: Lesson, inputs: seq<Input>, k: nat)
    requires Run(lesson, inputs).Some? && k < |lesson.expected|
    requires inputs == [] ==> IsLogarithm(lesson.setup.tempoMap.ln)
    ensures var st := Run(lesson, inputs).value; k < |st.frozen| <==> st.watermark > lesson.Deadline(k)
  {
    if inputs == [] {
      DeadlinePositive(lesson, k);
      return;
    }
    hide Lesson.Batch, Lesson.Deadline, Steady, Step;
    var past, last := inputs[..|inputs| - 1], inputs[|inputs| - 1];
    RunSteady(lesson, past);
    StepSteady(lesson, Run(lesson, past).value, last);
    var st := Run(lesson, inputs).value;
    if |st.frozen| <= k {
      DeadlinesGrow(lesson, |st.frozen|, k);
    } else {
      DeadlinesGrow(lesson, k, |st.frozen| - 1);
    }
  }

  lemma {:induction false} DeadlinesGrow(lesson: Lesson, j: nat, k: nat)
    requires j <= k < |lesson.expected|
    ensures lesson.Deadline(j) <= lesson.Deadline(k)
    decreases k
  {
    hide Lesson.Close;
    if j < k { DeadlinesGrow(lesson, j, k - 1); }
  }

  lemma {:induction false} ScorePrefix(
    bonus: real, notes: seq<ExpectedNote>, vs: seq<Verdict>, ws: seq<Verdict>, n: nat)
    requires n <= |notes| && n <= |vs| && n <= |ws| && vs[..n] == ws[..n]
    ensures HitWeight(bonus, notes, vs, n) == HitWeight(bonus, notes, ws, n)
    decreases n
  {
    if n > 0 {
      assert vs[n - 1] == vs[..n][n - 1] && ws[n - 1] == ws[..n][n - 1];
      assert vs[..n - 1] == vs[..n][..n - 1] && ws[..n - 1] == ws[..n][..n - 1];
      ScorePrefix(bonus, notes, vs, ws, n - 1);
    }
  }

  /** Main result: the frozen score is the batch formula over the frozen prefix of the final report, and
      the final score once every note is frozen. */
  lemma {:induction false} FrozenScoreIsBatchScore(lesson: Lesson, past: seq<Input>, future: seq<Input>)
    requires HonouredRun(lesson, past + future)
    ensures Run(lesson, past).Some?
    ensures var now, report := Run(lesson, past).value, lesson.Batch(EventsOf(past + future));
            && FrozenScore(lesson, now) == ScoreOf(lesson.setup.config.perfectBonus, lesson.Notes(),
                                                   Verdicts(report.outcomes), |now.frozen|)
            && (|now.frozen| == |lesson.expected| ==> FrozenScore(lesson, now) == report.score)
  {
    hide *;
    OnlineEqualsOffline(lesson, past, future);
    BatchScore(lesson, EventsOf(past + future));
    PrefixScore(lesson, Run(lesson, past).value, Verdicts(lesson.Batch(EventsOf(past + future)).outcomes));
  }

  lemma PrefixScore(lesson: Lesson, st: Live, vs: seq<Verdict>)
    requires Sized(lesson, st) && st.frozen <= vs && |vs| == |lesson.expected|
    ensures FrozenScore(lesson, st) == ScoreOf(lesson.setup.config.perfectBonus, lesson.Notes(), vs, |st.frozen|)
  {
    hide Lesson.Notes, HitWeight, TotalWeight;
    var n, bonus, notes := |st.frozen|, lesson.setup.config.perfectBonus, lesson.Notes();
    assert vs[..n] == st.frozen == st.frozen[..n];
    ScorePrefix(bonus, notes, st.frozen, vs, n);
  }

  lemma BatchScore(lesson: Lesson, events: seq<PlayedNote>)
    ensures lesson.Batch(events).score == ScoreOf(lesson.setup.config.perfectBonus, lesson.Notes(),
                                                  Verdicts(lesson.Batch(events).outcomes), |lesson.expected|)
  {
  }

  lemma {:induction false} FrozenScoreBounds(lesson: Lesson, st: Live)
    requires Sized(lesson, st)
    ensures 0.0 <= FrozenScore(lesson, st) <= 100.0
  {
    ScoreInRange(lesson.setup.config.perfectBonus, lesson.Notes(), st.frozen, |st.frozen|);
  }

  /** Main result: every snapshot of every accepted run is one its constructor accepts; in particular the
      frozen score always lies in [0, 100]. */
  lemma {:induction false} SnapshotAccepted(lesson: Lesson, inputs: seq<Input>)
    requires Run(lesson, inputs).Some?
    ensures var s, n := SnapshotOf(lesson, Run(lesson, inputs).value), |lesson.expected|;
            && |s.frozenVerdicts| == |s.tentativeVerdicts| == |s.matchedPitches| == |s.deviationMs| == n
            && s.frozenCount <= n
            && (forall i :: 0 <= i < n ==> (s.frozenVerdicts[i].Some? <==> i < s.frozenCount))
            && 0.0 <= s.tentativeScore <= 100.0 && 0.0 <= s.frozenScore <= 100.0 && s.tentativeStars <= 3
  {
    hide Run, Lesson.Batch, Lesson.Deadline, FrozenScore, Initially;
    RunSteady(lesson, inputs);
    var st := Run(lesson, inputs).value;
    BatchInRange(lesson, st.events);
    FrozenScoreBounds(lesson, st);
  }

  lemma BatchInRange(lesson: Lesson, events: seq<PlayedNote>)
    ensures 0.0 <= lesson.Batch(events).score <= 100.0 && lesson.Batch(events).stars <= 3
  {
    hide Scored;
    ReportInRange(lesson.setup, lesson.expected, events);
  }

  // ----- The contract is needed ----------------------------------------------------------------

  /** A note at one second, at 120 bpm under the default configuration. */
  function OneNote(): Lesson {
    var tempo: TempoMap := MapFields([PointFields(0.0, 120.0, STEP)], x => x);
    var mapper: MeasureMapper := MapperFields([SignatureFields(0.0, 4, 4)], 0.0, None);
    Lesson(Setup(DEFAULT_CONFIG, tempo, mapper, [], StarThresholds(60.0, 80.0, 95.0)),
           [NoteFields(60, 2.0, 1.0, R, 1.0)])
  }

  const ON_TIME: PlayedNote := EventFields(60, 64, 1_000_000_000, -1)

  lemma OneNoteTargets()
    ensures OneNote().NoteTargets() == [Target(60, 1.0, 0.88, 1.18)]
    ensures OneNote().Deadline(0) == 1.18 && |OneNote().expected| == 1
  {
    var lesson := OneNote();
    StableSort.SortIdempotent(NoteLe, lesson.expected);
    var m := lesson.setup.tempoMap;
    assert m.SegmentSum(1, 2.0) == 1.0;
    assert m.LastEntry(2.0) == 0;
  }

  lemma OneNoteVerdicts()
    ensures OneNote().Batch([]).outcomes[0].verdict == MISSED
    ensures OneNote().Batch([ON_TIME]).outcomes[0].verdict == PERFECT
  {
    OneNoteTargets();
    BatchOutcomes(OneNote(), []);
    BatchOutcomes(OneNote(), [ON_TIME]);
    hide Lesson.NoteTargets, Lesson.Batch;
    StableSort.SortIdempotent(EventLe, [ON_TIME]);
    assert ON_TIME.Seconds() == 1.0;
    assert Pick([ON_TIME], {}, Target(60, 1.0, 0.88, 1.18), 1) == Some(0);
  }

  /** A concrete run outside the contract: the clock passes the deadline before the event that
      decides the note is delivered. The scorer accepts both, and the frozen verdict is wrong. */
  lemma LateDeliveryFreezesWrong()
    ensures var lesson := OneNote();
            && Run(lesson, [Tick(10.0), Event(ON_TIME)]).Some?
            && Run(lesson, [Tick(10.0), Event(ON_TIME)]).value.frozen == [MISSED]
            && Verdicts(lesson.Batch([ON_TIME]).outcomes) == [PERFECT]
            && !HonouredRun(lesson, [Tick(10.0), Event(ON_TIME)])
  {
    var lesson := OneNote();
    OneNoteVerdicts();
    OneNoteTargets();
    hide Lesson.Batch, Lesson.Deadline, Lesson.NoteTargets, OneNote;
    var first := Initially(lesson);
    var second := AfterTick(lesson, first, 10.0).value;
    assert lesson.FrozenTo(0, 10.0) == 1;
    assert second.frozen == [MISSED];
    assert [Tick(10.0)][..0] == [] && Run(lesson, [Tick(10.0)]) == Some(second);
    assert [Tick(10.0), Event(ON_TIME)][..1] == [Tick(10.0)];
    assert ON_TIME.Seconds() == 1.0;
    assert InWindow(ON_TIME, lesson.NoteTargets()[0]);
    assert !Honoured(lesson, second, Event(ON_TIME));
    var third := AfterEvent(lesson, second, ON_TIME).value;
    assert lesson.FrozenTo(1, 10.0) == 1;
    assert third.frozen == [MISSED];
  }
}
