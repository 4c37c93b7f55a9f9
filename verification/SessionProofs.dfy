/** What every run of a practice session keeps: its combo, its clocks, and its agreement with the
    batch scorer, through pauses, retries, chunk changes and loops. */
module SessionProofs {
  import opened ScoringTypes
  import opened RealArith
  import opened Scorer
  import opened Realtime
  import opened Lessons
  import RealtimeProofs

  datatype Input = Play | Pause | Retry | Next | Loop(on: bool) | Frame(seconds: real) | Note(event: EventFields)

  /** One call of the session; None when it throws. */
  ghost function Apply(p: Program, s: Session, input: Input): (r: Option<Session>)
    requires Sound(p, s)
  {
    match input
    case Play => Some(Played(s))
    case Pause => Some(Paused(s))
    case Retry => Some(Rearmed(p, s))
    case Next => Advanced(p, s)
    case Loop(on) => Some(s.(loopEnabled := on))
    case Frame(seconds) => Ticked(p, s, seconds)
    case Note(event) => Delivered(p, s, event)
  }

  // ----- Combo -------------------------------------------------------------------------------

  /** The length of the run of hits that ends the list. */
  function TrailingRun(vs: seq<Verdict>): nat {
    if vs == [] || !vs[|vs| - 1].Hit() then 0 else TrailingRun(vs[..|vs| - 1]) + 1
  }

  ghost predicate AllHit(vs: seq<Verdict>, from: nat, to: nat) {
    from <= to <= |vs| && forall i :: from <= i < to ==> vs[i].Hit()
  }

  /** `n` is the length of the longest run of hits in `vs`. */
  ghost predicate IsLongestRun(vs: seq<Verdict>, n: nat) {
    && (exists from: nat, to: nat :: AllHit(vs, from, to) && to - from == n)
    && (forall from: nat, to: nat :: AllHit(vs, from, to) ==> to - from <= n)
  }

  lemma {:induction false} TrailingIsRun(vs: seq<Verdict>)
    ensures TrailingRun(vs) <= |vs| && AllHit(vs, |vs| - TrailingRun(vs), |vs|)
    ensures forall from: nat :: AllHit(vs, from, |vs|) ==> |vs| - from <= TrailingRun(vs)
    decreases |vs|
  {
    if vs != [] && vs[|vs| - 1].Hit() {
      var front := vs[..|vs| - 1];
      TrailingIsRun(front);
      forall from: nat | AllHit(vs, from, |vs|) ensures |vs| - from <= TrailingRun(vs) {
        if from < |vs| { assert AllHit(front, from, |front|); }
      }
    }
  }

  /** Main result: counted over a list of verdicts, the combo is the trailing run of hits and the
      best combo the longest run. */
  lemma {:induction false} ComboMeaning(vs: seq<Verdict>)
    ensures NO_COMBO.AfterAll(vs).combo == TrailingRun(vs)
    ensures IsLongestRun(vs, NO_COMBO.AfterAll(vs).best)
    decreases |vs|
  {
    if vs == [] {
      assert AllHit(vs, 0, 0);
    } else {
      var front := vs[..|vs| - 1];
      ComboMeaning(front);
      TrailingIsRun(vs);
      var n, n' := NO_COMBO.AfterAll(front).best, NO_COMBO.AfterAll(vs).best;
      assert n' == if TrailingRun(vs) > n then TrailingRun(vs) else n;
      LongestNext(vs, n);
    }
  }

  lemma {:induction false} LongestNext(vs: seq<Verdict>, n: nat)
    requires vs != [] && IsLongestRun(vs[..|vs| - 1], n)
    requires TrailingRun(vs) <= |vs| && AllHit(vs, |vs| - TrailingRun(vs), |vs|)
    requires forall from: nat :: AllHit(vs, from, |vs|) ==> |vs| - from <= TrailingRun(vs)
    ensures IsLongestRun(vs, if TrailingRun(vs) > n then TrailingRun(vs) else n)
  {
    hide TrailingRun;
    var front := vs[..|vs| - 1];
    var from: nat, to: nat :| AllHit(front, from, to) && to - from == n;
    assert AllHit(vs, from, to);
    forall from: nat, to: nat | AllHit(vs, from, to)
      ensures to - from <= if TrailingRun(vs) > n then TrailingRun(vs) else n
    {
      if to < |vs| { assert AllHit(front, from, to); }
    }
  }

  lemma {:induction false} ComboSplits(c: Combo, a: seq<Verdict>, b: seq<Verdict>)
    ensures c.AfterAll(a + b) == c.AfterAll(a).AfterAll(b)
    decreases |b|
  {
    if b == [] {
      assert a + b == a;
    } else {
      assert (a + b)[..|a + b| - 1] == a + b[..|b| - 1];
      ComboSplits(c, a, b[..|b| - 1]);
    }
  }

  /** The combo has counted exactly the verdicts frozen in this pass. */
  predicate ComboCounted(s: Session) {
    s.combo == NO_COMBO.AfterAll(s.live.frozen)
  }

  lemma CountedKeeps(s: Session, live: Live)
    requires ComboCounted(s) && s.live.frozen <= live.frozen
    ensures ComboCounted(Counted(s, live))
  {
    var before, after := s.live.frozen, live.frozen;
    assert after == before + after[|before|..];
    ComboSplits(NO_COMBO, before, after[|before|..]);
  }

  // ----- Runs ---------------------------------------------------------------------------------

  lemma OpenedSound(p: Program)
    requires p.Valid() && p.Playable(0)
    ensures Sound(p, Opened(p)) && ComboCounted(Opened(p))
  {
    hide Lesson.Batch, Program.LessonOf, Program.Chunks;
  }

  lemma ApplySound(p: Program, s: Session, input: Input)
    requires Sound(p, s) && ComboCounted(s) && Apply(p, s, input).Some?
    ensures Sound(p, Apply(p, s, input).value) && ComboCounted(Apply(p, s, input).value)
  {
    hide Lesson.Batch, Program.LessonOf, Program.Chunks, Filled, AfterEvent, AfterTick, Combo.AfterAll,
         Program.EndSeconds;
    assert NO_COMBO.AfterAll([]) == NO_COMBO by { EmptyCombo(); }
    match input
    case Frame(seconds) =>
      if s.phase == PLAYING {
        var live := AfterTick(p.LessonOf(s.chunkIndex), s.live, seconds - s.passStart).value;
        CountedKeeps(s.(lastFrame := seconds), live);
      }
    case Note(event) =>
      var note := Rebased(s.passStart, event);
      if s.phase == PLAYING && note.onTimeNs >= 0 {
        CountedKeeps(s, AfterEvent(p.LessonOf(s.chunkIndex), s.live, note).value);
      }
    case Play =>
    case Pause =>
    case Retry =>
    case Next =>
    case Loop(_) =>
  }

  lemma EmptyCombo()
    ensures NO_COMBO.AfterAll([]) == NO_COMBO
  {}

  /** The session after a run; None when a call threw. */
  ghost function Run(p: Program, inputs: seq<Input>): (r: Option<Session>)
    requires p.Valid() && p.Playable(0)
    ensures r.Some? ==> Sound(p, r.value) && ComboCounted(r.value)
    decreases |inputs|
  {
    if inputs == [] then
      OpenedSound(p);
      Some(Opened(p))
    else
      match Run(p, inputs[..|inputs| - 1])
      case None => None
      case Some(s) =>
        var last := inputs[|inputs| - 1];
        var next := Apply(p, s, last);
        assert next.Some? ==> Sound(p, next.value) && ComboCounted(next.value) by {
          if next.Some? { ApplySound(p, s, last); }
        }
        next
  }

  /** Main result: whatever was called, the combo is the trailing run of hits and the best combo the
      longest run of hits of the verdicts frozen in the current pass. */
  lemma {:induction false} ComboOverRuns(p: Program, inputs: seq<Input>)
    requires p.Valid() && p.Playable(0) && Run(p, inputs).Some?
    ensures var s := Run(p, inputs).value;
            s.combo.combo == TrailingRun(s.live.frozen) && IsLongestRun(s.live.frozen, s.combo.best)
  {
    ComboMeaning(Run(p, inputs).value.live.frozen);
  }

  // ----- Clocks -------------------------------------------------------------------------------

  /** The last value of the frame clock. */
  function LastFrame(inputs: seq<Input>): real {
    if inputs == [] then 0.0
    else if inputs[|inputs| - 1].Frame? then inputs[|inputs| - 1].seconds
    else LastFrame(inputs[..|inputs| - 1])
  }

  function LastStamp(inputs: seq<Input>): int {
    if inputs == [] then -1
    else if inputs[|inputs| - 1].Note? then inputs[|inputs| - 1].event.onTimeNs
    else LastStamp(inputs[..|inputs| - 1])
  }

  /** A user interface with a monotone frame clock and monotone event stamps. */
  predicate Orderly(inputs: seq<Input>) {
    inputs == [] ||
    (var past, last := inputs[..|inputs| - 1], inputs[|inputs| - 1];
     && Orderly(past)
     && (last.Frame? ==> last.seconds >= LastFrame(past))
     && (last.Note? ==> last.event.Valid() && last.event.onTimeNs >= LastStamp(past)))
  }

  /** Every event is delivered before the frame that passes it. */
  predicate Prompt(inputs: seq<Input>) {
    inputs == [] ||
    (var past, last := inputs[..|inputs| - 1], inputs[|inputs| - 1];
     && Prompt(past)
     && (last.Note? ==> last.event.Seconds() >= LastFrame(past)))
  }

  /** The pass clock in nanoseconds starts here. */
  function BaseNs(s: Session): int { (s.passStart * 1000000000.0).Floor }

  /** The session's two clocks have not run ahead of what it was handed. */
  ghost predicate InStep(s: Session, frame: real, stamp: int) {
    && s.lastFrame <= frame
    && (s.live.lastEventNs == -1 || s.live.lastEventNs <= stamp - BaseNs(s))
    && (s.phase == READY ==> s.live.lastEventNs == -1)
  }

  predicate HasNextChunk(p: Program, s: Session) { s.chunkIndex + 1 < |p.Chunks()| }

  lemma ApplyInStep(p: Program, s: Session, input: Input, frame: real, stamp: int)
    requires Sound(p, s) && InStep(s, frame, stamp)
    requires input.Frame? ==> input.seconds >= frame
    requires input.Note? ==> input.event.Valid() && input.event.onTimeNs >= stamp
    ensures Apply(p, s, input).Some? <==> (input.Next? && HasNextChunk(p, s) ==> p.Playable(s.chunkIndex + 1))
    ensures Apply(p, s, input).Some? ==>
              var next := Apply(p, s, input).value;
              && next.chunkIndex == s.chunkIndex + (if input.Next? && HasNextChunk(p, s) then 1 else 0)
              && InStep(next, if input.Frame? then input.seconds else frame,
                        if input.Note? then input.event.onTimeNs else stamp)
  {
    hide Lesson.Batch, Program.LessonOf, Program.Chunks, Filled, AfterEvent, AfterTick, Combo.AfterAll,
         Program.EndSeconds;
    match input
    case Note(event) =>
      var note := Rebased(s.passStart, event);
      MulNonNegative(s.passStart, 1000000000.0);
      assert BaseNs(s) >= 0;
      if note.onTimeNs >= 0 { assert note.Valid(); }
    case Frame(seconds) =>
    case Play =>
    case Pause =>
    case Retry =>
    case Next =>
    case Loop(_) =>
  }

  /** How often `next` was called. */
  function Nexts(inputs: seq<Input>): nat {
    if inputs == [] then 0
    else Nexts(inputs[..|inputs| - 1]) + if inputs[|inputs| - 1].Next? then 1 else 0
  }

  /** The last chunk reached. */
  function Reached(p: Program, inputs: seq<Input>): nat
    requires p.Chunks() != []
  {
    if Nexts(inputs) < |p.Chunks()| then Nexts(inputs) else |p.Chunks()| - 1
  }

  predicate PlayableUpTo(p: Program, index: nat) {
    forall i :: 0 <= i <= index ==> p.Playable(i)
  }

  lemma {:induction false} RunInStep(p: Program, inputs: seq<Input>)
    requires p.Valid() && p.Playable(0) && Orderly(inputs)
    ensures Run(p, inputs).Some? <==> PlayableUpTo(p, Reached(p, inputs))
    ensures Run(p, inputs).Some? ==>
              var s := Run(p, inputs).value;
              s.chunkIndex == Reached(p, inputs) && InStep(s, LastFrame(inputs), LastStamp(inputs))
    decreases |inputs|
  {
    hide Apply, Lesson.Batch, Program.LessonOf, Program.Chunks, Program.Playable, Sound, ComboCounted;
    if inputs != [] {
      var past, last := inputs[..|inputs| - 1], inputs[|inputs| - 1];
      RunInStep(p, past);
      hide InStep;
      if Run(p, past).Some? {
        ApplyInStep(p, Run(p, past).value, last, LastFrame(past), LastStamp(past));
      }
    }
  }

  /** Main result: under a monotone frame clock and monotone stamps no call throws - the scorer is never
      handed a clock or an event out of order - except to move on to a chunk outside the song pack. */
  lemma {:induction false} OrderlyNeverThrows(p: Program, inputs: seq<Input>)
    requires p.Valid() && p.Playable(0) && Orderly(inputs)
    ensures Run(p, inputs).Some? <==> PlayableUpTo(p, Reached(p, inputs))
    ensures Run(p, inputs).Some? ==>
              var s := Run(p, inputs).value;
              && 0.0 <= s.passStart <= s.lastFrame <= LastFrame(inputs)
              && s.live.sessionSeconds <= s.lastFrame - s.passStart
  {
    hide Lesson.Batch, Program.LessonOf, Program.Chunks, Program.Playable, PlayableUpTo;
    RunInStep(p, inputs);
  }

  // ----- Agreement with the batch scorer ---------------------------------------------------------

  /** The live scorer is consistent, and its watermark is the later of the pass clock and the last
      event. */
  ghost predicate Agrees(p: Program, s: Session)
    requires Sound(p, s)
  {
    && RealtimeProofs.Consistent(p.LessonOf(s.chunkIndex), s.live)
    && s.live.watermark <= if s.phase == READY then 0.0
                           else Max(s.lastFrame - s.passStart, s.live.lastEventNs as real / 1000000000.0)
  }

  /** Rebasing keeps an event that is not behind the frame clock not behind the pass clock. */
  lemma RebasedNotBehind(passStart: real, event: EventFields, frame: real)
    requires passStart >= 0.0 && event.Seconds() >= frame
    ensures Rebased(passStart, event).Seconds() >= frame - passStart
  {
    var base := (passStart * 1000000000.0).Floor;
    assert base as real <= passStart * 1000000000.0;
    assert (event.onTimeNs - base) as real == event.onTimeNs as real - base as real;
  }

  lemma FrameAgrees(p: Program, s: Session, seconds: real)
    requires Sound(p, s) && Agrees(p, s) && s.phase == PLAYING && seconds >= s.lastFrame
    ensures Agrees(p, Clocked(p, s, seconds))
  {
    hide RealtimeProofs.Consistent, AfterTick, Program.LessonOf, Program.Chunks, Combo.AfterAll,
         Lesson.Batch;
    RealtimeProofs.StepConsistent(p.LessonOf(s.chunkIndex), s.live, RealtimeProofs.Tick(seconds - s.passStart));
  }

  lemma NoteHonours(p: Program, s: Session, event: EventFields)
    requires Sound(p, s) && Agrees(p, s) && s.phase == PLAYING && event.Seconds() >= s.lastFrame
    requires var note := Rebased(s.passStart, event);
             note.onTimeNs >= 0 && note.Valid() && note.onTimeNs >= s.live.lastEventNs
    ensures RealtimeProofs.Honoured(p.LessonOf(s.chunkIndex), s.live, RealtimeProofs.Event(Rebased(s.passStart, event)))
  {
    hide RealtimeProofs.Consistent, RealtimeProofs.Harmless, Program.LessonOf, Program.Chunks, Lesson.Batch;
    var note := Rebased(s.passStart, event);
    RebasedNotBehind(s.passStart, event, s.lastFrame);
    assert note.Seconds() >= s.live.lastEventNs as real / 1000000000.0;
    RealtimeProofs.PunctualHonours(p.LessonOf(s.chunkIndex), s.live, RealtimeProofs.Event(note));
  }

  lemma NoteAgrees(p: Program, s: Session, event: EventFields)
    requires Sound(p, s) && Agrees(p, s) && s.phase == PLAYING && event.Seconds() >= s.lastFrame
    requires var note := Rebased(s.passStart, event);
             note.onTimeNs >= 0 && note.Valid() && note.onTimeNs >= s.live.lastEventNs
    ensures Delivered(p, s, event).Some? && Agrees(p, Delivered(p, s, event).value)
  {
    hide RealtimeProofs.Consistent, RealtimeProofs.Harmless, AfterEvent, Program.LessonOf, Program.Chunks,
         Combo.AfterAll, Lesson.Batch;
    var note := Rebased(s.passStart, event);
    NoteHonours(p, s, event);
    RebasedNotBehind(s.passStart, event, s.lastFrame);
    RealtimeProofs.StepConsistent(p.LessonOf(s.chunkIndex), s.live, RealtimeProofs.Event(note));
  }

  lemma ArmedAgrees(p: Program, s: Session)
    requires Sound(p, s) && s.live == Initially(p.LessonOf(s.chunkIndex))
    ensures Agrees(p, s)
  {
    RealtimeProofs.InitiallyConsistent(p.LessonOf(s.chunkIndex));
    hide RealtimeProofs.Consistent, Lesson.Batch, Program.LessonOf, Program.Chunks;
  }

  lemma ApplyAgrees(p: Program, s: Session, input: Input, frame: real, stamp: int)
    requires Sound(p, s) && Agrees(p, s) && InStep(s, frame, stamp)
    requires input.Frame? ==> input.seconds >= frame
    requires input.Note? ==> input.event.Valid() && input.event.onTimeNs >= stamp && input.event.Seconds() >= frame
    requires Apply(p, s, input).Some?
    ensures Sound(p, Apply(p, s, input).value) && Agrees(p, Apply(p, s, input).value)
  {
    hide RealtimeProofs.Consistent, AfterEvent, AfterTick, Program.LessonOf, Program.Chunks, Combo.AfterAll,
         Lesson.Batch, Program.EndSeconds, EventFields.Seconds;
    match input
    case Frame(seconds) =>
      if s.phase == PLAYING {
        FrameAgrees(p, s, seconds);
        var clocked := Clocked(p, s, seconds);
        var rearmed := Rearmed(p, clocked);
        ArmedAgrees(p, rearmed);
        PlayedAgrees(p, rearmed);
      }
    case Note(event) =>
      var note := Rebased(s.passStart, event);
      if s.phase == PLAYING && note.onTimeNs >= 0 { NoteAgrees(p, s, event); }
    case Play => PlayedAgrees(p, s);
    case Pause =>
    case Retry => ArmedAgrees(p, Rearmed(p, s));
    case Next =>
      if HasNextChunk(p, s) { ArmedAgrees(p, Advanced(p, s).value); }
    case Loop(_) =>
  }

  lemma OpenedAgrees(p: Program)
    requires p.Valid() && p.Playable(0)
    ensures Sound(p, Opened(p)) && Agrees(p, Opened(p))
  {
    hide Lesson.Batch, Program.LessonOf, Program.Chunks;
    OpenedSound(p);
    ArmedAgrees(p, Opened(p));
  }

  lemma PlayedAgrees(p: Program, s: Session)
    requires Sound(p, s) && Agrees(p, s)
    ensures Sound(p, Played(s)) && Agrees(p, Played(s))
  {
    hide RealtimeProofs.Consistent, Program.LessonOf, Program.Chunks, Lesson.Batch;
  }

  lemma {:induction false} RunAgrees(p: Program, inputs: seq<Input>)
    requires p.Valid() && p.Playable(0) && Orderly(inputs) && Prompt(inputs) && Run(p, inputs).Some?
    ensures Agrees(p, Run(p, inputs).value)
    decreases |inputs|
  {
    hide Apply, Lesson.Batch, Program.LessonOf, Program.Chunks, Sound, ComboCounted, Program.Valid, Agrees, InStep;
    RunInStep(p, inputs);
    if inputs == [] {
      OpenedAgrees(p);
    } else {
      var past, last := inputs[..|inputs| - 1], inputs[|inputs| - 1];
      RunAgrees(p, past);
      RunInStep(p, past);
      ApplyAgrees(p, Run(p, past).value, last, LastFrame(past), LastStamp(past));
    }
  }

  // ----- Agreement, exactly as far as the events delivered allow ----------------------------------

  /** An event that reaches the scorer lies in no window of a frozen note. */
  ghost predicate DeliveryHonoured(p: Program, s: Session, input: Input)
    requires Sound(p, s)
  {
    input.Note? && s.phase == PLAYING ==>
      var note := Rebased(s.passStart, input.event);
      note.onTimeNs >= 0 && note.Valid() ==>
        RealtimeProofs.Harmless(p.LessonOf(s.chunkIndex), |s.live.frozen|, note)
  }

  /** So it was for every call; events that are ignored or refused do not matter. */
  ghost predicate HonouredSession(p: Program, inputs: seq<Input>)
    requires p.Valid() && p.Playable(0)
    decreases |inputs|
  {
    inputs == [] ||
    (var past, last := inputs[..|inputs| - 1], inputs[|inputs| - 1];
     && HonouredSession(p, past)
     && (Run(p, past).Some? ==> DeliveryHonoured(p, Run(p, past).value, last)))
  }

  ghost predicate LiveConsistent(p: Program, s: Session)
    requires Sound(p, s)
  {
    RealtimeProofs.Consistent(p.LessonOf(s.chunkIndex), s.live)
  }

  lemma ArmedConsistent(p: Program, s: Session)
    requires Sound(p, s) && s.live == Initially(p.LessonOf(s.chunkIndex))
    ensures LiveConsistent(p, s)
  {
    RealtimeProofs.InitiallyConsistent(p.LessonOf(s.chunkIndex));
  }

  lemma FrameConsistent(p: Program, s: Session, seconds: real)
    requires Sound(p, s) && LiveConsistent(p, s) && s.phase == PLAYING && seconds >= s.lastFrame
    ensures LiveConsistent(p, Clocked(p, s, seconds))
  {
    hide RealtimeProofs.Consistent, AfterTick, Program.LessonOf, Program.Chunks, Combo.AfterAll, Lesson.Batch;
    RealtimeProofs.StepConsistent(p.LessonOf(s.chunkIndex), s.live, RealtimeProofs.Tick(seconds - s.passStart));
  }

  lemma NoteConsistent(p: Program, s: Session, event: EventFields)
    requires Sound(p, s) && LiveConsistent(p, s) && DeliveryHonoured(p, s, Note(event))
    requires Delivered(p, s, event).Some?
    ensures Sound(p, Delivered(p, s, event).value) && LiveConsistent(p, Delivered(p, s, event).value)
  {
    hide RealtimeProofs.Consistent, RealtimeProofs.Harmless, AfterEvent, Program.LessonOf, Program.Chunks,
         Combo.AfterAll, Lesson.Batch;
    var note := Rebased(s.passStart, event);
    if s.phase == PLAYING && note.onTimeNs >= 0 {
      RealtimeProofs.StepConsistent(p.LessonOf(s.chunkIndex), s.live, RealtimeProofs.Event(note));
    }
  }

  lemma ApplyConsistent(p: Program, s: Session, input: Input)
    requires Sound(p, s) && ComboCounted(s) && LiveConsistent(p, s) && DeliveryHonoured(p, s, input)
    requires Apply(p, s, input).Some?
    ensures Sound(p, Apply(p, s, input).value) && LiveConsistent(p, Apply(p, s, input).value)
  {
    hide RealtimeProofs.Consistent, RealtimeProofs.Harmless, AfterEvent, AfterTick, Program.LessonOf, Program.Chunks,
         Combo.AfterAll, Lesson.Batch, Program.EndSeconds, Clocked, DeliveryHonoured;
    ApplySound(p, s, input);
    match input
    case Frame(seconds) =>
      if s.phase == PLAYING {
        FrameConsistent(p, s, seconds);
        ArmedConsistent(p, Rearmed(p, Clocked(p, s, seconds)));
      }
    case Note(event) => NoteConsistent(p, s, event);
    case Play =>
    case Pause =>
    case Retry => ArmedConsistent(p, Rearmed(p, s));
    case Next =>
      if HasNextChunk(p, s) { ArmedConsistent(p, Advanced(p, s).value); }
    case Loop(_) =>
  }

  lemma {:induction false} SessionConsistent(p: Program, inputs: seq<Input>)
    requires p.Valid() && p.Playable(0) && HonouredSession(p, inputs) && Run(p, inputs).Some?
    ensures LiveConsistent(p, Run(p, inputs).value)
    decreases |inputs|
  {
    hide Apply, Lesson.Batch, Program.LessonOf, Program.Chunks, Sound, ComboCounted, LiveConsistent, DeliveryHonoured,
         Program.Valid;
    if inputs == [] {
      OpenedSound(p);
      ArmedConsistent(p, Opened(p));
    } else {
      var past, last := inputs[..|inputs| - 1], inputs[|inputs| - 1];
      SessionConsistent(p, past);
      ApplyConsistent(p, Run(p, past).value, last);
    }
  }

  /** Delivery as documented is more than is needed. */
  lemma {:induction false} PromptHonours(p: Program, inputs: seq<Input>)
    requires p.Valid() && p.Playable(0) && Orderly(inputs) && Prompt(inputs) && Run(p, inputs).Some?
    ensures HonouredSession(p, inputs)
    decreases |inputs|
  {
    hide Apply, Lesson.Batch, Program.LessonOf, Program.Chunks, Agrees, RealtimeProofs.Harmless;
    if inputs != [] {
      var past, last := inputs[..|inputs| - 1], inputs[|inputs| - 1];
      PromptHonours(p, past);
      RunAgrees(p, past);
      RunInStep(p, past);
      var s := Run(p, past).value;
      if last.Note? && s.phase == PLAYING {
        var note := Rebased(s.passStart, last.event);
        if note.onTimeNs >= 0 && note.Valid() { NoteHonours(p, s, last.event); }
      }
    }
  }

  /** Main result: when no event that reaches the scorer lies in a window already frozen, every state of
      the session shows the batch scorer's truth: its frozen verdicts are those of the report over the
      pass's events, and the combo is the trailing run of hits of that part of the report. */
  lemma {:induction false} SessionShowsBatch(p: Program, inputs: seq<Input>)
    requires p.Valid() && p.Playable(0) && HonouredSession(p, inputs) && Run(p, inputs).Some?
    ensures var s := Run(p, inputs).value;
            var vs := Verdicts(p.LessonOf(s.chunkIndex).Batch(s.live.events).outcomes);
            && s.live.frozen <= vs
            && s.combo.combo == TrailingRun(vs[..|s.live.frozen|])
            && IsLongestRun(vs[..|s.live.frozen|], s.combo.best)
  {
    hide Lesson.Batch, Program.LessonOf, Program.Chunks, Run, HonouredSession, TrailingRun, IsLongestRun, Initially,
         Lesson.Deadline, Lesson.FrozenTo;
    SessionConsistent(p, inputs);
    ComboOverRuns(p, inputs);
  }
}
