/** What the live scorer does, read off the inputs alone: which runs it accepts, when a note freezes and
    with which verdict, and what its snapshots show. */
module LiveMeaning {
  import opened ScoringTypes
  import opened Tempo
  import opened TempoProofs
  import opened Config
  import opened Scorer
  import opened Realtime
  import opened RealtimeProofs
  import opened ReportMeaning

  // ----- Deadlines -----------------------------------------------------------------------------

  /** The moment the window of note `k` ends. */
  ghost function WindowEnds(lesson: Lesson, k: nat): real
    requires k < |lesson.expected|
  {
    var m, note := lesson.setup.tempoMap, lesson.Notes()[k];
    m.BeatToSeconds(note.startBeat) + WindowMs(lesson.setup.config, note.startBeat, m).lateMs / 1000.0
  }

  lemma ClosesThere(lesson: Lesson, k: nat)
    requires k < |lesson.expected|
    ensures lesson.Close(k) == WindowEnds(lesson, k)
  {
    hide MapFields.BeatToSeconds, WindowMs, Lesson.Notes;
  }

  /** Everything up to note `k` has ended by `time`. */
  ghost predicate AllEnded(lesson: Lesson, k: nat, time: real)
    requires k < |lesson.expected|
  {
    forall j: nat :: j <= k ==> time > WindowEnds(lesson, j)
  }

  lemma {:induction false} DeadlineAttained(lesson: Lesson, k: nat) returns (j: nat)
    requires k < |lesson.expected|
    ensures j <= k && lesson.Deadline(k) == WindowEnds(lesson, j)
    decreases k
  {
    hide Lesson.Close, WindowEnds;
    ClosesThere(lesson, k);
    if k == 0 {
      j := 0;
    } else {
      j := DeadlineAttained(lesson, k - 1);
      if lesson.Deadline(k) == lesson.Close(k) { j := k; }
    }
  }

  lemma {:induction false} DeadlineEnded(lesson: Lesson, k: nat, time: real)
    requires k < |lesson.expected|
    ensures time > lesson.Deadline(k) <==> AllEnded(lesson, k, time)
  {
    hide Lesson.Deadline, WindowEnds, Lesson.Close, Lesson.NoteTargets;
    forall j: nat | j <= k ensures WindowEnds(lesson, j) <= lesson.Deadline(k) {
      ClosesThere(lesson, j);
      LateEdge(lesson, j);
      DeadlineCovers(lesson, j, k);
    }
    var j := DeadlineAttained(lesson, k);
  }

  // ----- The watermark -----------------------------------------------------------------------------

  function MomentOf(input: Input): real {
    match input
    case Event(note) => note.Seconds()
    case Tick(now) => now
  }

  /** The watermark is the latest moment handed in. */
  lemma {:induction false} WatermarkLatest(lesson: Lesson, inputs: seq<Input>) returns (latest: nat)
    requires Run(lesson, inputs).Some? && inputs != []
    ensures latest < |inputs| && Run(lesson, inputs).value.watermark == MomentOf(inputs[latest])
    ensures forall i :: 0 <= i < |inputs| ==> MomentOf(inputs[i]) <= Run(lesson, inputs).value.watermark
    decreases |inputs|
  {
    hide MomentOf, Lesson.Batch, Lesson.Deadline, Filled;
    var past, last := inputs[..|inputs| - 1], inputs[|inputs| - 1];
    WatermarkMoves(lesson, Run(lesson, past).value, last);
    if past == [] {
      MomentNonNegative(lesson, Run(lesson, past).value, last);
      latest := 0;
    } else {
      latest := WatermarkLatest(lesson, past);
      if MomentOf(last) >= Run(lesson, past).value.watermark { latest := |inputs| - 1; }
    }
    hide Run, Step;
    forall i | 0 <= i < |inputs|
      ensures MomentOf(inputs[i]) <= Run(lesson, inputs).value.watermark
    {
      if i < |past| { assert inputs[i] == past[i]; }
    }
  }

  lemma WatermarkMoves(lesson: Lesson, st: Live, input: Input)
    requires Sized(lesson, st) && Step(lesson, st, input).Some?
    ensures Step(lesson, st, input).value.watermark == Max(st.watermark, MomentOf(input))
  {
    hide Lesson.Batch, Lesson.Deadline, Filled;
  }

  lemma MomentNonNegative(lesson: Lesson, st: Live, input: Input)
    requires Sized(lesson, st) && Step(lesson, st, input).Some? && st.sessionSeconds >= 0.0
    ensures MomentOf(input) >= 0.0
  {
    hide Lesson.Batch, Lesson.Deadline, Filled;
  }

  // ----- Which runs are accepted ---------------------------------------------------------------------

  /** The stamps of the events never fall, nor does the clock, which starts at zero. */
  ghost predicate InOrder(inputs: seq<Input>) {
    && (forall i, j :: 0 <= i < j < |inputs| && inputs[i].Event? && inputs[j].Event? ==>
          inputs[i].note.onTimeNs <= inputs[j].note.onTimeNs)
    && (forall i, j :: 0 <= i < j < |inputs| && inputs[i].Tick? && inputs[j].Tick? ==> inputs[i].now <= inputs[j].now)
    && (forall i :: 0 <= i < |inputs| && inputs[i].Tick? ==> inputs[i].now >= 0.0)
  }

  /** The two clocks of a state are the latest stamp and the latest tick. */
  ghost predicate ClocksAt(st: Live, inputs: seq<Input>) {
    && (forall i :: 0 <= i < |inputs| && inputs[i].Event? ==> inputs[i].note.onTimeNs <= st.lastEventNs)
    && (forall i :: 0 <= i < |inputs| && inputs[i].Tick? ==> inputs[i].now <= st.sessionSeconds)
    && (st.lastEventNs == -1 ||
        exists i :: 0 <= i < |inputs| && inputs[i].Event? && inputs[i].note.onTimeNs == st.lastEventNs)
    && st.sessionSeconds >= 0.0
    && (st.sessionSeconds == 0.0 ||
        exists i :: 0 <= i < |inputs| && inputs[i].Tick? && inputs[i].now == st.sessionSeconds)
  }

  lemma NothingYet(lesson: Lesson)
    ensures InOrder([]) && ClocksAt(Initially(lesson), [])
  {
    hide Lesson.Batch;
  }

  /** Main result: the scorer accepts exactly the runs in order. */
  lemma {:induction false} AcceptedExactly(lesson: Lesson, inputs: seq<Input>)
    ensures Run(lesson, inputs).Some? <==> InOrder(inputs)
    ensures Run(lesson, inputs).Some? ==> ClocksAt(Run(lesson, inputs).value, inputs)
    decreases |inputs|
  {
    hide Step, Lesson.Batch, ClocksAt, InOrder, Initially;
    if inputs == [] {
      NothingYet(lesson);
    } else {
      var past, last := inputs[..|inputs| - 1], inputs[|inputs| - 1];
      AcceptedExactly(lesson, past);
      assert inputs == past + [last];
      if Run(lesson, past).Some? {
        AcceptsNext(lesson, Run(lesson, past).value, past, last);
      } else if InOrder(inputs) {
        OrderedPrefix(past, last);
      }
    }
  }

  lemma OrderedPrefix(past: seq<Input>, last: Input)
    requires InOrder(past + [last])
    ensures InOrder(past)
  {
    assert forall i :: 0 <= i < |past| ==> past[i] == (past + [last])[i];
  }

  lemma OrderedNext(st: Live, past: seq<Input>, last: Input)
    requires InOrder(past) && ClocksAt(st, past)
    ensures InOrder(past + [last]) <==>
              match last
              case Event(note) => note.onTimeNs >= st.lastEventNs
              case Tick(now) => now >= st.sessionSeconds
  {
    var inputs := past + [last];
    assert inputs[|past|] == last && forall i :: 0 <= i < |past| ==> inputs[i] == past[i];
    if InOrder(inputs) {
      match last
      case Event(note) =>
        if st.lastEventNs != -1 {
          var i :| 0 <= i < |past| && past[i].Event? && past[i].note.onTimeNs == st.lastEventNs;
          assert inputs[i].Event? && inputs[|past|].Event?;
        }
      case Tick(now) =>
        if st.sessionSeconds != 0.0 {
          var i :| 0 <= i < |past| && past[i].Tick? && past[i].now == st.sessionSeconds;
          assert inputs[i].Tick? && inputs[|past|].Tick?;
        }
    }
  }

  lemma ClocksNext(st: Live, next: Live, past: seq<Input>, last: Input)
    requires ClocksAt(st, past)
    requires match last
             case Event(note) =>
               note.onTimeNs >= st.lastEventNs && next.lastEventNs == note.onTimeNs
               && next.sessionSeconds == st.sessionSeconds
             case Tick(now) =>
               now >= st.sessionSeconds && next.sessionSeconds == now && next.lastEventNs == st.lastEventNs
    ensures ClocksAt(next, past + [last])
  {
    var inputs := past + [last];
    assert inputs[|past|] == last && forall i :: 0 <= i < |past| ==> inputs[i] == past[i];
    if last.Event? && st.sessionSeconds != 0.0 {
      var i :| 0 <= i < |past| && past[i].Tick? && past[i].now == st.sessionSeconds;
      assert inputs[i].Tick? && inputs[i].now == next.sessionSeconds;
    }
    if last.Tick? && st.lastEventNs != -1 {
      var i :| 0 <= i < |past| && past[i].Event? && past[i].note.onTimeNs == st.lastEventNs;
      assert inputs[i].Event? && inputs[i].note.onTimeNs == next.lastEventNs;
    }
  }

  lemma AcceptsNext(lesson: Lesson, st: Live, past: seq<Input>, last: Input)
    requires Sized(lesson, st) && InOrder(past) && ClocksAt(st, past)
    ensures Step(lesson, st, last).Some? <==> InOrder(past + [last])
    ensures Step(lesson, st, last).Some? ==> ClocksAt(Step(lesson, st, last).value, past + [last])
  {
    OrderedNext(st, past, last);
    hide InOrder, ClocksAt, AfterEvent, AfterTick;
    if Step(lesson, st, last).Some? {
      ClocksNext(st, Step(lesson, st, last).value, past, last);
    }
  }

  // ----- When a note freezes, and with which verdict -------------------------------------------------

  /** Main result: in every accepted run a note is frozen if and only if some input was handed in later
      than the end of its own window and of every window before it. */
  lemma {:induction false} FrozenWhenPassed(lesson: Lesson, inputs: seq<Input>, k: nat)
    requires Run(lesson, inputs).Some? && k < |lesson.expected|
    ensures k < |Run(lesson, inputs).value.frozen| <==>
              exists i :: 0 <= i < |inputs| && AllEnded(lesson, k, MomentOf(inputs[i]))
  {
    hide Step, Lesson.Deadline, AllEnded, MomentOf;
    if inputs != [] {
      FrozenExactlyPastDeadline(lesson, inputs, k);
      var st := Run(lesson, inputs).value;
      var latest := WatermarkLatest(lesson, inputs);
      DeadlineEnded(lesson, k, st.watermark);
      forall i | 0 <= i < |inputs|
        ensures AllEnded(lesson, k, MomentOf(inputs[i])) ==> AllEnded(lesson, k, st.watermark)
      {
        EndedLater(lesson, k, MomentOf(inputs[i]), st.watermark);
      }
    }
  }

  lemma EndedLater(lesson: Lesson, k: nat, time: real, later: real)
    requires k < |lesson.expected| && time <= later
    ensures AllEnded(lesson, k, time) ==> AllEnded(lesson, k, later)
  {
    hide WindowEnds;
  }

  /** The same, of the watermark. */
  lemma {:induction false} FrozenPastEveryWindow(lesson: Lesson, inputs: seq<Input>, k: nat)
    requires Run(lesson, inputs).Some? && k < |lesson.expected|
    requires inputs == [] ==> IsLogarithm(lesson.setup.tempoMap.ln)
    ensures var st := Run(lesson, inputs).value;
            k < |st.frozen| <==> forall j: nat :: j <= k ==> st.watermark > WindowEnds(lesson, j)
  {
    hide Run, Lesson.Deadline, WindowEnds, IsLogarithm;
    FrozenExactlyPastDeadline(lesson, inputs, k);
    DeadlineEnded(lesson, k, Run(lesson, inputs).value.watermark);
  }

  /** Main result: in every accepted run the first input past all windows up to note `k` freezes it with
      the verdict the batch scorer gives it over the events handed in by then, for good. */
  lemma {:induction false} FrozenAsJudged(lesson: Lesson, inputs: seq<Input>, k: nat, i: nat)
    requires Run(lesson, inputs).Some? && k < |lesson.expected| && i < |inputs|
    requires AllEnded(lesson, k, MomentOf(inputs[i]))
    requires forall h :: 0 <= h < i ==> !AllEnded(lesson, k, MomentOf(inputs[h]))
    ensures var frozen := Run(lesson, inputs).value.frozen;
            k < |frozen| && frozen[k] == lesson.Batch(EventsOf(inputs[..i + 1])).outcomes[k].verdict
  {
    hide Step, Lesson.Batch, Lesson.Deadline, AllEnded, MomentOf, Steady, Initially;
    var before, after := inputs[..i], inputs[..i + 1];
    assert after[..i] == before && after[i] == inputs[i] && after + inputs[i + 1..] == inputs;
    FrozenGrows(lesson, after, inputs[i + 1..]);
    assert Run(lesson, before).Some?;
    FrozenWhenPassed(lesson, before, k);
    assert forall h :: 0 <= h < i ==> before[h] == inputs[h];
    FrozenWhenPassed(lesson, after, k);
    RunSteady(lesson, after);
    FrozenNow(lesson, Run(lesson, before).value, inputs[i], k);
    SteadyReport(lesson, after);
  }

  lemma {:induction false} SteadyReport(lesson: Lesson, inputs: seq<Input>)
    requires Run(lesson, inputs).Some?
    ensures Run(lesson, inputs).value.tentative == lesson.Batch(EventsOf(inputs))
  {
    hide Run, Lesson.Batch;
    RunSteady(lesson, inputs);
  }

  /** What a step freezes has its tentative verdict. */
  lemma FrozenNow(lesson: Lesson, st: Live, input: Input, k: nat)
    requires Sized(lesson, st) && Step(lesson, st, input).Some?
    requires |st.frozen| <= k < |Step(lesson, st, input).value.frozen|
    ensures var next := Step(lesson, st, input).value;
            next.frozen[k] == next.tentative.outcomes[k].verdict
  {
    hide Lesson.Batch, Lesson.Deadline;
  }

  // ----- What a snapshot shows ---------------------------------------------------------------------

  /** Main result: every snapshot of every accepted run shows the batch report over the events so far,
      the frozen verdicts, and the score those earn. */
  lemma {:induction false} SnapshotMeaning(lesson: Lesson, inputs: seq<Input>)
    requires Run(lesson, inputs).Some?
    ensures var st, report := Run(lesson, inputs).value, lesson.Batch(EventsOf(inputs));
            var s, n := SnapshotOf(lesson, st), |lesson.expected|;
            && |report.outcomes| == n && |st.frozen| <= n
            && |s.frozenVerdicts| == |s.tentativeVerdicts| == |s.matchedPitches| == |s.deviationMs| == n
            && (forall i :: 0 <= i < n ==> s.tentativeVerdicts[i] == report.outcomes[i].verdict)
            && (forall i :: 0 <= i < n ==> s.matchedPitches[i] == report.outcomes[i].matchedPitch)
            && (forall i :: 0 <= i < n ==> s.deviationMs[i] == report.outcomes[i].deviationMs)
            && (forall i :: 0 <= i < n ==>
                  s.frozenVerdicts[i] == if i < |st.frozen| then Some(st.frozen[i]) else None)
            && s.frozenCount == |st.frozen|
            && s.tentativeScore == report.score && s.tentativeStars == report.stars
            && Earned(lesson, st.frozen, s.frozenScore)
  {
    hide Run, Lesson.Batch, Earned, FrozenScore;
    RunSteady(lesson, inputs);
    FrozenScoreMeans(lesson, Run(lesson, inputs).value);
  }

  /** The score that verdicts on the first notes of the lesson earn. */
  ghost predicate Earned(lesson: Lesson, vs: seq<Verdict>, score: real)
    requires |vs| <= |lesson.expected|
  {
    exists total, earned ::
      Earns(lesson.setup.config.perfectBonus, lesson.Notes(), vs, |vs|, total, earned, score)
  }

  /** Main result: the frozen score is what the frozen verdicts earn. */
  lemma {:induction false} FrozenScoreMeans(lesson: Lesson, st: Live)
    requires Sized(lesson, st)
    ensures Earned(lesson, st.frozen, FrozenScore(lesson, st))
  {
    hide Lesson.Notes, Earns, ScoreOf, TotalWeight, HitWeight;
    ScoreEarned(lesson.setup.config.perfectBonus, lesson.Notes(), st.frozen, |st.frozen|);
  }
}
