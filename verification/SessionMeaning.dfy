/** A practice session read off its calls: where the pass clock is anchored, when a pass ends, and what
    the scorer of the pass was handed. */
module SessionMeaning {
  import opened ScoringTypes
  import opened Tempo
  import opened Realtime
  import opened SongPacks
  import opened Lessons
  import opened SessionProofs
  import opened LiveMeaning
  import Scoring = RealtimeProofs
  import StableSort

  /** The chunks are practised in teaching order, those of one ordinal as the song pack lists them. */
  lemma TeachingOrder(p: Program, ord: int)
    ensures multiset(p.Chunks()) == multiset(p.pack.chunks)
    ensures forall i, j :: 0 <= i < j < |p.Chunks()| ==> p.Chunks()[i].ord <= p.Chunks()[j].ord
    ensures StableSort.Filter((c: SongChunk) => c.ord == ord, p.Chunks()) ==
            StableSort.Filter((c: SongChunk) => c.ord == ord, p.pack.chunks)
  {
    StableSort.SortCorrect(ChunkLe, p.pack.chunks);
    assert StableSort.Sorted(ChunkLe, p.Chunks());
    StableSort.SortStable(ChunkLe, (c: SongChunk) => c.ord == ord, p.pack.chunks);
  }

  /** A session opens ready on the first chunk, with the loop off, nothing frozen and no combo. */
  lemma {:induction false} Opening(p: Program)
    requires p.Valid() && p.Playable(0)
    ensures Run(p, []).Some?
    ensures var s := Run(p, []).value;
            && s.phase == READY && s.chunkIndex == 0 && !s.loopEnabled && s.live.frozen == [] && s.live.events == []
            && s.combo.combo == 0 && s.combo.best == 0 && s.passStart == 0.0 == s.lastFrame
  {
    hide Lesson.Batch, Program.LessonOf, Program.Chunks;
  }

  // ----- One call ------------------------------------------------------------------------------

  /** The length of a chunk, in seconds. */
  ghost function ChunkSeconds(p: Program, index: nat): real
    requires index < |p.Chunks()|
  {
    var m, chunk := p.setup.tempoMap, p.Chunks()[index];
    m.BeatToSeconds(chunk.endBeat) - m.BeatToSeconds(chunk.startBeat)
  }

  /** A frame at `seconds` is at or past the end of the chunk, counted from the start of the pass. */
  ghost predicate PassOver(p: Program, s: Session, seconds: real)
    requires s.chunkIndex < |p.Chunks()|
  {
    s.phase == PLAYING && seconds - s.passStart >= ChunkSeconds(p, s.chunkIndex)
  }

  /** The call starts a pass from the top: a play from READY, or a frame that ends a looped pass. */
  ghost predicate StartsPass(p: Program, s: Session, input: Input)
    requires s.chunkIndex < |p.Chunks()|
  {
    || (input.Play? && s.phase == READY)
    || (input.Frame? && PassOver(p, s, input.seconds) && s.loopEnabled)
  }

  /** Main result: what a call does to the transport, the two clocks and the chunk. */
  lemma CallEffect(p: Program, s: Session, input: Input)
    requires Sound(p, s) && Apply(p, s, input).Some?
    ensures var next, more := Apply(p, s, input).value, s.chunkIndex + 1 < |p.Chunks()|;
            && next.phase == (match input
                 case Play => if s.phase == READY || s.phase == PAUSED then PLAYING else s.phase
                 case Pause => if s.phase == PLAYING then PAUSED else s.phase
                 case Retry => READY
                 case Next => if more then READY else s.phase
                 case Frame(t) => if PassOver(p, s, t) && !s.loopEnabled then FINISHED else s.phase
                 case Loop(_) => s.phase
                 case Note(_) => s.phase)
            && next.chunkIndex == s.chunkIndex + (if input.Next? && more then 1 else 0)
            && next.loopEnabled == (if input.Loop? then input.on else s.loopEnabled)
            && next.lastFrame == (if input.Frame? && s.phase == PLAYING then input.seconds else s.lastFrame)
            && next.passStart == if StartsPass(p, s, input) then next.lastFrame else s.passStart
  {
    hide Lesson.Batch, Program.LessonOf, Program.Chunks, AfterEvent, AfterTick, Combo.AfterAll, MapFields.BeatToSeconds,
         Initially;
  }

  /** The event as the scorer of a pass that started at `passStart` gets it: only its key-down time is
      counted from there, in whole nanoseconds. */
  function OnPassClock(passStart: real, e: EventFields): EventFields {
    EventFields(e.pitch, e.velocity, e.onTimeNs - (passStart * 1000000000.0).Floor, e.offTimeNs)
  }

  /** Main result: which calls throw. */
  lemma CallAccepted(p: Program, s: Session, input: Input)
    requires Sound(p, s)
    ensures Apply(p, s, input).Some? <==>
              match input
              case Frame(t) => s.phase == PLAYING ==> t >= s.lastFrame
              case Next => s.chunkIndex + 1 < |p.Chunks()| ==> p.Playable(s.chunkIndex + 1)
              case Note(e) =>
                var note := OnPassClock(s.passStart, e);
                s.phase == PLAYING && note.onTimeNs >= 0 ==>
                  && 0 <= e.pitch <= 127 && 0 <= e.velocity <= 127
                  && (e.offTimeNs == -1 || e.offTimeNs >= note.onTimeNs)
                  && note.onTimeNs >= s.live.lastEventNs
              case Play => true
              case Pause => true
              case Retry => true
              case Loop(_) => true
  {
    hide Lesson.Batch, Program.LessonOf, Program.Chunks, AfterTick, Combo.AfterAll, Initially;
  }

  // ----- The clocks over a run -------------------------------------------------------------------

  /** The last frame the session took notice of: one that came while playing. */
  ghost function LastSeen(p: Program, inputs: seq<Input>): real
    requires p.Valid() && p.Playable(0) && Run(p, inputs).Some?
    decreases |inputs|
  {
    if inputs == [] then 0.0
    else
      var past, last := inputs[..|inputs| - 1], inputs[|inputs| - 1];
      if last.Frame? && Run(p, past).value.phase == PLAYING then last.seconds else LastSeen(p, past)
  }

  /** The last frame seen when the current pass started. */
  ghost function Anchor(p: Program, inputs: seq<Input>): real
    requires p.Valid() && p.Playable(0) && Run(p, inputs).Some?
    decreases |inputs|
  {
    if inputs == [] then 0.0
    else
      var past, last := inputs[..|inputs| - 1], inputs[|inputs| - 1];
      if StartsPass(p, Run(p, past).value, last) then LastSeen(p, inputs) else Anchor(p, past)
  }

  /** Main result: after any calls the pass is anchored at the last frame seen when it was started, by a
      play from READY or by a loop; nothing else moves the anchor. */
  lemma {:induction false} PassAnchored(p: Program, inputs: seq<Input>)
    requires p.Valid() && p.Playable(0) && Run(p, inputs).Some?
    ensures var s := Run(p, inputs).value; s.passStart == Anchor(p, inputs) && s.lastFrame == LastSeen(p, inputs)
    decreases |inputs|
  {
    hide Apply, Program.Valid, Program.Playable, Program.Chunks, Sound, ComboCounted;
    if inputs != [] {
      var past, last := inputs[..|inputs| - 1], inputs[|inputs| - 1];
      PassAnchored(p, past);
      hide StartsPass;
      SoundIndex(p, Run(p, past).value);
      CallEffect(p, Run(p, past).value, last);
    }
  }

  lemma SoundIndex(p: Program, s: Session)
    requires Sound(p, s)
    ensures s.chunkIndex < |p.Chunks()| && p.Playable(s.chunkIndex)
  {
    hide Program.LessonOf, Program.Chunks, Lesson.Batch;
  }

  // ----- What the scorer was handed ----------------------------------------------------------------

  /** What the scorer has been handed in the current pass after one more call. */
  ghost function HandedBy(p: Program, s: Session, anchor: real, before: seq<Scoring.Input>, call: Input)
    : seq<Scoring.Input>
    requires s.chunkIndex < |p.Chunks()|
  {
    match call
    case Retry => []
    case Next => if s.chunkIndex + 1 < |p.Chunks()| then [] else before
    case Frame(t) =>
      if s.phase != PLAYING then before
      else if PassOver(p, s, t) && s.loopEnabled then []
      else before + [Scoring.Tick(t - anchor)]
    case Note(e) =>
      var note := OnPassClock(anchor, e);
      if s.phase == PLAYING && note.onTimeNs >= 0 && note.Valid() then before + [Scoring.Event(note)] else before
    case Play => before
    case Pause => before
    case Loop(_) => before
  }

  /** What the scorer has been handed since the current pass was armed: the frames and the events that
      came while playing, counted from the anchor. */
  ghost function Handed(p: Program, inputs: seq<Input>): seq<Scoring.Input>
    requires p.Valid() && p.Playable(0) && Run(p, inputs).Some?
    decreases |inputs|
  {
    if inputs == [] then []
    else
      var past, last := inputs[..|inputs| - 1], inputs[|inputs| - 1];
      HandedBy(p, Run(p, past).value, Anchor(p, past), Handed(p, past), last)
  }

  ghost predicate IsRunOf(p: Program, index: nat, handed: seq<Scoring.Input>, live: Live) {
    p.Playable(index) && Scoring.Run(p.LessonOf(index), handed) == Some(live)
  }

  lemma NothingHanded(p: Program, s: Session)
    requires Sound(p, s) && s.live == Initially(p.LessonOf(s.chunkIndex))
    ensures IsRunOf(p, s.chunkIndex, [], s.live)
  {
    hide Initially, Program.LessonOf, Program.Chunks;
  }

  lemma HandOver(p: Program, index: nat, handed: seq<Scoring.Input>, live: Live, more: Scoring.Input)
    requires IsRunOf(p, index, handed, live) && Sized(p.LessonOf(index), live)
    ensures Scoring.Step(p.LessonOf(index), live, more).Some? ==>
              IsRunOf(p, index, handed + [more], Scoring.Step(p.LessonOf(index), live, more).value)
  {
    hide Scoring.Step, Program.LessonOf, Program.Playable;
    assert (handed + [more])[..|handed|] == handed;
  }

  lemma HandsOver(p: Program, s: Session, before: seq<Scoring.Input>, call: Input)
    requires Sound(p, s) && IsRunOf(p, s.chunkIndex, before, s.live) && Apply(p, s, call).Some?
    requires Sound(p, Apply(p, s, call).value)
    ensures var next := Apply(p, s, call).value;
            IsRunOf(p, next.chunkIndex, HandedBy(p, s, s.passStart, before, call), next.live)
  {
    hide Lesson.Batch, Program.LessonOf, Program.Chunks, AfterEvent, AfterTick, Combo.AfterAll, MapFields.BeatToSeconds,
         Initially, IsRunOf;
    var next := Apply(p, s, call).value;
    match call
    case Retry => NothingHanded(p, next);
    case Next => if s.chunkIndex + 1 < |p.Chunks()| { NothingHanded(p, next); }
    case Frame(t) =>
      if s.phase == PLAYING {
        HandOver(p, s.chunkIndex, before, s.live, Scoring.Tick(t - s.passStart));
        if PassOver(p, s, t) && s.loopEnabled { NothingHanded(p, next); }
      }
    case Note(e) =>
      var note := OnPassClock(s.passStart, e);
      if s.phase == PLAYING && note.onTimeNs >= 0 {
        HandOver(p, s.chunkIndex, before, s.live, Scoring.Event(note));
      }
    case Play =>
    case Pause =>
    case Loop(_) =>
  }

  /** Main result: after any calls the scorer is where the frames and events of the current pass have
      taken it, counted from the anchor, so that everything proved of its runs holds of every pass. */
  lemma {:induction false} PassIsScorerRun(p: Program, inputs: seq<Input>)
    requires p.Valid() && p.Playable(0) && Run(p, inputs).Some?
    ensures var s := Run(p, inputs).value;
            p.Playable(s.chunkIndex) && Scoring.Run(p.LessonOf(s.chunkIndex), Handed(p, inputs)) == Some(s.live)
    decreases |inputs|
  {
    hide Apply, Program.Valid, Program.Playable, Program.Chunks, Sound, ComboCounted, HandedBy, Program.LessonOf;
    if inputs == [] {
      OpenedSound(p);
      NothingHanded(p, Opened(p));
    } else {
      var past, last := inputs[..|inputs| - 1], inputs[|inputs| - 1];
      PassIsScorerRun(p, past);
      PassAnchored(p, past);
      HandsOver(p, Run(p, past).value, Handed(p, past), last);
    }
  }

  /** Main result: in every state of every session a note is frozen exactly when the scorer was handed a
      frame or an event of this pass past the end of its window and of all windows before. */
  lemma {:induction false} SessionFreezes(p: Program, inputs: seq<Input>, k: nat)
    requires p.Valid() && p.Playable(0) && Run(p, inputs).Some?
    requires var s := Run(p, inputs).value; p.Playable(s.chunkIndex) && k < |p.LessonOf(s.chunkIndex).expected|
    ensures var s, handed := Run(p, inputs).value, Handed(p, inputs);
            k < |s.live.frozen| <==>
              exists i :: 0 <= i < |handed| && AllEnded(p.LessonOf(s.chunkIndex), k, MomentOf(handed[i]))
  {
    hide Run, Handed, AllEnded, MomentOf, Program.Playable, Program.LessonOf, Scoring.Run;
    PassIsScorerRun(p, inputs);
    FrozenWhenPassed(p.LessonOf(Run(p, inputs).value.chunkIndex), Handed(p, inputs), k);
  }

  // ----- The pass clock --------------------------------------------------------------------------------

  /** Main result: after any calls the pass clock shows the last frame seen, counted from the anchor; in a
      pass not yet started it shows zero. */
  lemma {:induction false} PassClock(p: Program, inputs: seq<Input>)
    requires p.Valid() && p.Playable(0) && Run(p, inputs).Some?
    ensures var s := Run(p, inputs).value;
            s.live.sessionSeconds == if s.phase == READY then 0.0 else s.lastFrame - s.passStart
    decreases |inputs|
  {
    hide Apply, Program.Valid, Program.Playable, Program.Chunks, Sound, ComboCounted;
    if inputs == [] {
      ClockAtStart(p);
    } else {
      var past, last := inputs[..|inputs| - 1], inputs[|inputs| - 1];
      PassClock(p, past);
      ClockMoves(p, Run(p, past).value, last);
    }
  }

  ghost predicate ClockRight(s: Session) {
    s.live.sessionSeconds == if s.phase == READY then 0.0 else s.lastFrame - s.passStart
  }

  lemma ClockAtStart(p: Program)
    requires p.Valid() && p.Playable(0)
    ensures ClockRight(Opened(p))
  {
    hide Lesson.Batch, Program.LessonOf, Program.Chunks;
  }

  lemma ClockMoves(p: Program, s: Session, call: Input)
    requires Sound(p, s) && ClockRight(s) && Apply(p, s, call).Some?
    ensures ClockRight(Apply(p, s, call).value)
  {
    hide Lesson.Batch, Program.LessonOf, Program.Chunks, Filled, AfterEvent, AfterTick, Combo.AfterAll,
         Program.EndSeconds;
  }

  // ----- When a pass ends ----------------------------------------------------------------------------

  /** No frame among these has reached `length`. */
  ghost predicate AllWithin(handed: seq<Scoring.Input>, length: real) {
    forall i :: 0 <= i < |handed| && handed[i].Tick? ==> handed[i].now < length
  }

  ghost predicate EndsWhenOver(phase: LessonPhase, handed: seq<Scoring.Input>, length: real) {
    match phase
    case READY => handed == []
    case PLAYING => AllWithin(handed, length)
    case PAUSED => AllWithin(handed, length)
    case FINISHED =>
      var n := |handed|;
      n > 0 && handed[n - 1].Tick? && handed[n - 1].now >= length && AllWithin(handed[..n - 1], length)
  }

  /** Main result: a pass ends with the first of its frames that reaches the length of the chunk: in a pass
      under way or paused no frame has, in a finished one the last has and none before. */
  lemma {:induction false} PassEnds(p: Program, inputs: seq<Input>)
    requires p.Valid() && p.Playable(0) && Run(p, inputs).Some?
    ensures var s := Run(p, inputs).value;
            s.chunkIndex < |p.Chunks()| && EndsWhenOver(s.phase, Handed(p, inputs), ChunkSeconds(p, s.chunkIndex))
    decreases |inputs|
  {
    hide Apply, Program.Valid, Program.Playable, Program.Chunks, Sound, ComboCounted, HandedBy, ChunkSeconds,
         EndsWhenOver, StartsPass;
    SoundIndex(p, Run(p, inputs).value);
    if inputs == [] {
      StartsUnfinished(p);
    } else {
      var past, last := inputs[..|inputs| - 1], inputs[|inputs| - 1];
      PassEnds(p, past);
      PassAnchored(p, past);
      EndsStep(p, Run(p, past).value, Handed(p, past), last);
    }
  }

  lemma StartsUnfinished(p: Program)
    requires p.Playable(0)
    ensures EndsWhenOver(Opened(p).phase, [], ChunkSeconds(p, 0))
  {
    hide Lesson.Batch, Program.LessonOf, Program.Chunks;
  }

  lemma EndsStep(p: Program, s: Session, before: seq<Scoring.Input>, call: Input)
    requires Sound(p, s) && EndsWhenOver(s.phase, before, ChunkSeconds(p, s.chunkIndex)) && Apply(p, s, call).Some?
    requires Apply(p, s, call).value.chunkIndex < |p.Chunks()|
    ensures var next := Apply(p, s, call).value;
            EndsWhenOver(next.phase, HandedBy(p, s, s.passStart, before, call), ChunkSeconds(p, next.chunkIndex))
  {
    CallEffect(p, s, call);
    hide Sound, Apply, Program.Chunks, ChunkSeconds, StartsPass;
    match call
    case Frame(t) => FrameEnds(p, s, before, t);
    case Note(e) => NoteEnds(p, s, before, e);
    case Retry =>
    case Next =>
    case Play =>
    case Pause =>
    case Loop(_) =>
  }

  lemma FrameEnds(p: Program, s: Session, before: seq<Scoring.Input>, t: real)
    requires s.chunkIndex < |p.Chunks()| && EndsWhenOver(s.phase, before, ChunkSeconds(p, s.chunkIndex))
    ensures EndsWhenOver(if PassOver(p, s, t) && !s.loopEnabled then FINISHED else s.phase,
                         HandedBy(p, s, s.passStart, before, Frame(t)), ChunkSeconds(p, s.chunkIndex))
  {
    hide Program.Chunks, ChunkSeconds, AllWithin;
    if s.phase == PLAYING { OneMore(before, Scoring.Tick(t - s.passStart), ChunkSeconds(p, s.chunkIndex)); }
    if PassOver(p, s, t) && s.loopEnabled { NothingWithin(ChunkSeconds(p, s.chunkIndex)); }
  }

  lemma NoteEnds(p: Program, s: Session, before: seq<Scoring.Input>, e: EventFields)
    requires s.chunkIndex < |p.Chunks()| && EndsWhenOver(s.phase, before, ChunkSeconds(p, s.chunkIndex))
    ensures EndsWhenOver(s.phase, HandedBy(p, s, s.passStart, before, Note(e)), ChunkSeconds(p, s.chunkIndex))
  {
    hide Program.Chunks, ChunkSeconds, AllWithin, OnPassClock;
    var note := OnPassClock(s.passStart, e);
    if s.phase == PLAYING && note.Valid() { OneMore(before, Scoring.Event(note), ChunkSeconds(p, s.chunkIndex)); }
  }

  lemma NothingWithin(length: real)
    ensures AllWithin([], length)
  {}

  lemma OneMore(before: seq<Scoring.Input>, more: Scoring.Input, length: real)
    requires AllWithin(before, length)
    ensures if more.Tick? && more.now >= length then EndsWhenOver(FINISHED, before + [more], length)
            else AllWithin(before + [more], length)
  {
    assert (before + [more])[..|before|] == before;
  }
}
