/** One practice session over the chunks of a pack: the transport state machine, its clock, and the
    combo counted from the verdicts as they freeze. */
module Lessons {
  import opened ScoringTypes
  import opened Tempo
  import opened Config
  import opened Measures
  import opened Scorer
  import opened Realtime
  import opened SongPacks
  import StableSort

  // ----- Combo ---------------------------------------------------------------------------

  datatype Combo = Combo(combo: nat, best: nat) {
    function After(v: Verdict): Combo {
      var now := if v.Hit() then combo + 1 else 0;
      Combo(now, if now > best then now else best)
    }

    /** The combo after the verdicts `vs`, in order. */
    function AfterAll(vs: seq<Verdict>): Combo
      decreases |vs|
    {
      if vs == [] then this else AfterAll(vs[..|vs| - 1]).After(vs[|vs| - 1])
    }
  }

  const NO_COMBO := Combo(0, 0)

  lemma {:induction false} AfterNone(c: Combo, vs: seq<Verdict>)
    requires vs == []
    ensures c.AfterAll(vs) == c
  {}

  lemma {:induction false} AfterNext(c: Combo, vs: seq<Verdict>, from: nat, to: nat)
    requires from <= to < |vs|
    ensures c.AfterAll(vs[from..to + 1]) == c.AfterAll(vs[from..to]).After(vs[to])
  {
    assert vs[from..to + 1][..to - from] == vs[from..to];
  }

  class ComboTracker {
    var combo: nat
    var bestCombo: nat

    function View(): Combo
      reads this
    {
      Combo(combo, bestCombo)
    }

    constructor ()
      ensures View() == NO_COMBO
    {
      combo, bestCombo := 0, 0;
    }

    method OnVerdict(verdict: Verdict)
      modifies this
      ensures View() == old(View()).After(verdict)
    {
      match verdict {
        case PERFECT => combo := combo + 1;
        case GOOD => combo := combo + 1;
        case MISSED => combo := 0;
        case WRONG => combo := 0;
      }
      if combo > bestCombo { bestCombo := combo; }
    }

    method Reset()
      modifies this
      ensures View() == NO_COMBO
    {
      combo, bestCombo := 0, 0;
    }
  }

  // ----- The session as a value -------------------------------------------------------------

  datatype LessonPhase = READY | PLAYING | PAUSED | FINISHED

  predicate ChunkLe(a: SongChunk, b: SongChunk) { a.ord <= b.ord }

  /** What a session is opened with. */
  datatype Program = Program(setup: Setup, pack: SongPack) {
    /** The song pack's chunks in teaching order. */
    function Chunks(): seq<SongChunk> { StableSort.Sort(ChunkLe, pack.chunks) }

    ghost predicate Valid() { setup.Valid() && Chunks() != [] }

    /** A pass over the chunk can be armed: the chunk lies within the song pack. */
    predicate Playable(index: nat) {
      index < |Chunks()| && WithinPack(Chunks()[index], pack)
    }

    function LessonOf(index: nat): (lesson: Lesson)
      requires Playable(index)
      ensures lesson.setup == setup
    {
      Lesson(setup, ToExpectedNotes(pack, Chunks()[index]))
    }

    /** The length of chunk `index` in seconds. */
    function EndSeconds(index: nat): real
      requires index < |Chunks()|
    {
      setup.tempoMap.BeatToSeconds(Chunks()[index].endBeat) - setup.tempoMap.BeatToSeconds(Chunks()[index].startBeat)
    }
  }

  datatype Session = Session(
    phase: LessonPhase,
    chunkIndex: nat,
    lastFrame: real,
    passStart: real,
    loopEnabled: bool,
    live: Live,
    combo: Combo)

  /** The state describes a pass over one of the program's chunks, and the pass clock has not run
      ahead of the frame clock. */
  ghost predicate Sound(p: Program, s: Session) {
    && p.Valid() && p.Playable(s.chunkIndex)
    && Sized(p.LessonOf(s.chunkIndex), s.live)
    && 0.0 <= s.passStart <= s.lastFrame
    && (s.phase == READY ==> s.live == Initially(p.LessonOf(s.chunkIndex)))
    && s.live.sessionSeconds <= if s.phase == READY then 0.0 else s.lastFrame - s.passStart
  }

  function Rearmed(p: Program, s: Session): Session
    requires p.Playable(s.chunkIndex)
  {
    s.(phase := READY, live := Initially(p.LessonOf(s.chunkIndex)), combo := NO_COMBO)
  }

  function Opened(p: Program): Session
    requires p.Playable(0)
  {
    Session(READY, 0, 0.0, 0.0, false, Initially(p.LessonOf(0)), NO_COMBO)
  }

  function Played(s: Session): Session {
    match s.phase
    case READY => s.(passStart := s.lastFrame, phase := PLAYING)
    case PAUSED => s.(phase := PLAYING)
    case PLAYING => s
    case FINISHED => s
  }

  function Paused(s: Session): Session {
    if s.phase == PLAYING then s.(phase := PAUSED) else s
  }

  /** The next chunk; None when it cannot be armed. */
  function Advanced(p: Program, s: Session): Option<Session> {
    if s.chunkIndex + 1 >= |p.Chunks()| then Some(s)
    else if p.Playable(s.chunkIndex + 1) then Some(Rearmed(p, s.(chunkIndex := s.chunkIndex + 1)))
    else None
  }

  /** The scorer moved on: the verdicts that froze meanwhile count towards the combo. */
  function Counted(s: Session, live: Live): Session
    requires |s.live.frozen| <= |live.frozen|
  {
    s.(live := live, combo := s.combo.AfterAll(live.frozen[|s.live.frozen|..]))
  }

  /** At the end of the chunk the pass is played again from the top, or the session finishes. */
  ghost function Ended(p: Program, s: Session): Session
    requires Sound(p, s)
  {
    if s.lastFrame - s.passStart < p.EndSeconds(s.chunkIndex) then s
    else if s.loopEnabled then Played(Rearmed(p, s))
    else s.(phase := FINISHED)
  }

  /** The clock part of a frame. */
  ghost function Clocked(p: Program, s: Session, frame: real): (r: Session)
    requires Sound(p, s) && s.phase == PLAYING && frame >= s.lastFrame
    ensures Sound(p, r) && r.phase == PLAYING && r.lastFrame == frame && r.passStart == s.passStart
  {
    var live := AfterTick(p.LessonOf(s.chunkIndex), s.live, frame - s.passStart).value;
    Counted(s.(lastFrame := frame), live)
  }

  /** One frame; None when the frame clock runs backwards. The scorer never refuses the pass clock
      of a sound session. */
  ghost function Ticked(p: Program, s: Session, frame: real): (r: Option<Session>)
    requires Sound(p, s)
    ensures r.Some? ==> Sound(p, r.value)
  {
    if s.phase != PLAYING then Some(s)
    else if frame < s.lastFrame then None
    else Some(Ended(p, Clocked(p, s, frame)))
  }

  /** An incoming event on the pass clock. */
  function Rebased(passStart: real, event: EventFields): EventFields {
    event.(onTimeNs := event.onTimeNs - (passStart * 1000000000.0).Floor)
  }

  /** One event; None when it is no playable note or the scorer refuses it. */
  ghost function Delivered(p: Program, s: Session, event: EventFields): (r: Option<Session>)
    requires Sound(p, s)
  {
    var note := Rebased(s.passStart, event);
    if s.phase != PLAYING || note.onTimeNs < 0 then Some(s)
    else if !note.Valid() then None
    else
      match AfterEvent(p.LessonOf(s.chunkIndex), s.live, note)
      case None => None
      case Some(live) => Some(Counted(s, live))
  }

  /** The session. */
  class LessonSession {
    const program: Program
    const comboTracker: ComboTracker
    var scorer: RealtimeScorer
    var phase: LessonPhase
    var chunkIndex: nat
    var lastFrameSeconds: real
    var passStartFrameSeconds: real
    var loopEnabled: bool

    ghost predicate Valid()
      reads this, comboTracker, scorer, scorer.runningMaxClose, scorer.frozenVerdicts
    {
      && program.Valid() && program.Playable(chunkIndex)
      && scorer.Valid() && scorer.lesson == program.LessonOf(chunkIndex)
      && Sound(program, View())
    }

    ghost function View(): Session
      requires scorer.Valid()
      reads this, comboTracker, scorer, scorer.runningMaxClose, scorer.frozenVerdicts
    {
      Session(phase, chunkIndex, lastFrameSeconds, passStartFrameSeconds, loopEnabled,
              scorer.View(), comboTracker.View())
    }

    constructor (program: Program)
      requires program.Valid() && program.Playable(0)
      ensures Valid() && this.program == program && View() == Opened(program)
      ensures fresh(comboTracker) && fresh(scorer) && fresh(scorer.frozenVerdicts)
    {
      hide Lesson.Batch, Program.EndSeconds, FrozenScore;
      this.program := program;
      comboTracker := new ComboTracker();
      scorer := new RealtimeScorer(program.LessonOf(0));
      phase, chunkIndex, lastFrameSeconds, passStartFrameSeconds, loopEnabled := READY, 0, 0.0, 0.0, false;
    }

    method Play()
      requires Valid()
      modifies this
      ensures Valid() && View() == Played(old(View())) && scorer == old(scorer)
    {
      hide Program.LessonOf, Lesson.Batch, Program.Valid;
      match phase {
        case READY =>
          passStartFrameSeconds := lastFrameSeconds;
          phase := PLAYING;
        case PAUSED => phase := PLAYING;
        case PLAYING =>
        case FINISHED =>
      }
    }

    method Pause()
      requires Valid()
      modifies this
      ensures Valid() && View() == Paused(old(View())) && scorer == old(scorer)
    {
      hide Program.LessonOf, Lesson.Batch, Program.Valid;
      if phase == PLAYING { phase := PAUSED; }
    }

    /** Builds a fresh scorer for the current chunk, dropping the events of the last pass. */
    method Retry()
      requires program.Valid() && program.Playable(chunkIndex)
      requires 0.0 <= passStartFrameSeconds <= lastFrameSeconds
      modifies this, comboTracker
      ensures Valid() && fresh(scorer) && fresh(scorer.frozenVerdicts)
      ensures View() == Session(READY, old(chunkIndex), old(lastFrameSeconds), old(passStartFrameSeconds),
                                old(loopEnabled), Initially(program.LessonOf(old(chunkIndex))), NO_COMBO)
    {
      hide Program.LessonOf, Lesson.Batch, Program.Chunks;
      scorer := new RealtimeScorer(program.LessonOf(chunkIndex));
      comboTracker.Reset();
      phase := READY;
    }

    /** False when the next chunk does not lie within the song pack; the index has moved on to it all
        the same, and the pass is still that of the chunk before. */
    method Next() returns (ok: bool)
      requires Valid()
      modifies this, comboTracker
      ensures ok <==> Advanced(program, old(View())).Some?
      ensures ok ==> Valid() && View() == Advanced(program, old(View())).value
      ensures !ok ==> scorer == old(scorer) && scorer.Valid()
      ensures !ok ==> View() == old(View()).(chunkIndex := old(chunkIndex) + 1)
      ensures scorer == old(scorer) || (fresh(scorer) && fresh(scorer.frozenVerdicts))
    {
      hide Program.LessonOf, Lesson.Batch, Program.Chunks;
      if chunkIndex + 1 < |program.Chunks()| {
        chunkIndex := chunkIndex + 1;
        if !program.Playable(chunkIndex) { return false; }
        Retry();
      }
      ok := true;
    }

    /** Advances the pass clock by one frame, counts what froze, and ends the pass at the end of
        the chunk. False when the frame clock runs backwards. */
    method Tick(frameSeconds: real) returns (ok: bool)
      requires Valid()
      modifies this, comboTracker, scorer, scorer.frozenVerdicts
      ensures Valid()
      ensures ok <==> old(phase) != PLAYING || frameSeconds >= old(lastFrameSeconds)
      ensures ok <==> Ticked(program, old(View()), frameSeconds).Some?
      ensures View() == if ok then Ticked(program, old(View()), frameSeconds).value else old(View())
    {
      hide Clocked, Ended, Sound, Lesson.Batch, RealtimeScorer.Valid;
      if phase != PLAYING { return true; }
      if frameSeconds < lastFrameSeconds { return false; }
      AdvanceClock(frameSeconds);
      EndPass();
      ok := true;
    }

    method AdvanceClock(frameSeconds: real)
      requires Valid() && phase == PLAYING && frameSeconds >= lastFrameSeconds
      modifies this`lastFrameSeconds, comboTracker, scorer, scorer.frozenVerdicts
      ensures Valid() && phase == PLAYING && View() == Clocked(program, old(View()), frameSeconds)
    {
      hide Program.LessonOf, Lesson.Batch, Program.Chunks, Program.Valid, Program.EndSeconds, Filled, AfterTick,
           FrozenScore;
      ghost var s := View();
      var passSeconds := frameSeconds - passStartFrameSeconds;
      var before := scorer.frozenCount;
      var snapshot := scorer.Tick(passSeconds);
      assert snapshot.Some?;
      lastFrameSeconds := frameSeconds;
      CountFrozen(before, snapshot.value);
    }

    method EndPass()
      requires Valid() && phase == PLAYING
      modifies this, comboTracker
      ensures Valid() && View() == Ended(program, old(View()))
    {
      hide Program.LessonOf, Lesson.Batch, Program.Valid;
      if lastFrameSeconds - passStartFrameSeconds >= program.EndSeconds(chunkIndex) {
        if loopEnabled {
          Retry();
          Play();
        } else {
          phase := FINISHED;
        }
      }
    }

    /** Hands the verdicts frozen since `before` to the combo tracker, in order. */
    method CountFrozen(before: nat, snapshot: Snapshot)
      requires scorer.Valid() && before <= scorer.frozenCount
      requires snapshot == SnapshotOf(scorer.lesson, scorer.View())
      modifies comboTracker
      ensures comboTracker.View() == old(comboTracker.View()).AfterAll(scorer.View().frozen[before..])
    {
      hide Lesson.Batch, SnapshotOf, RealtimeScorer.Shaped, Combo.After, Combo.AfterAll;
      ghost var frozen := scorer.View().frozen;
      assert old(comboTracker.View()).AfterAll(frozen[before..before]) == old(comboTracker.View()) by {
        AfterNone(old(comboTracker.View()), frozen[before..before]);
      }
      SnapshotShows(scorer.lesson, scorer.View());
      for index := before to snapshot.frozenCount
        invariant comboTracker.View() == old(comboTracker.View()).AfterAll(frozen[before..index])
      {
        AfterNext(old(comboTracker.View()), frozen, before, index);
        comboTracker.OnVerdict(snapshot.frozenVerdicts[index].value);
      }
      assert frozen[before..snapshot.frozenCount] == frozen[before..];
    }

    /** Delivers one event to the pass. False when it is no playable note, or out of order. */
    method OnEvent(event: EventFields) returns (ok: bool)
      requires Valid()
      modifies comboTracker, scorer, scorer.frozenVerdicts
      ensures Valid()
      ensures ok <==> Delivered(program, old(View()), event).Some?
      ensures View() == if ok then Delivered(program, old(View()), event).value else old(View())
    {
      hide Program.LessonOf, Lesson.Batch, Program.Chunks, Program.Valid, Filled, AfterEvent, FrozenScore;
      if phase != PLAYING { return true; }
      var played := Rebased(passStartFrameSeconds, event);
      if played.onTimeNs < 0 { return true; }
      if !played.Valid() { return false; }
      var before := scorer.frozenCount;
      var snapshot := scorer.OnEvent(played);
      if snapshot.None? { return false; }
      CountFrozen(before, snapshot.value);
      ok := true;
    }

    /** The report of the active or last pass. */
    method Results() returns (report: ScoreReport)
      requires Valid()
      ensures report == program.LessonOf(chunkIndex).Batch(scorer.events)
    {
      report := scorer.Finalize();
    }
  }

  /** Opens a session on a song pack. Null is the exception raised when there is no chunk, the tempo map
      or the measure mapper refuses what the song pack says, or the first chunk does not lie within it. */
  method NewLessonSession(pack: SongPack, ln: real -> real, config: ScoreConfig, thresholds: StarThresholds)
    returns (session: LessonSession?)
    requires thresholds.Valid()
    ensures session == null <==>
              || pack.chunks == [] || MakeTempoMap(pack.tempoMap, ln) == None
              || MakeMeasureMapper(pack.timeSignatures, pack.pickupBeats, Some(pack.durationBeats)) == None
              || !WithinPack(StableSort.Sort(ChunkLe, pack.chunks)[0], pack)
    ensures session != null ==>
              var setup := session.program.setup;
              && fresh(session) && session.Valid()
              && session.program.Playable(0) && session.View() == Opened(session.program)
              && session.program.pack == pack && setup.config == config && setup.thresholds == thresholds
              && Some(setup.tempoMap) == MakeTempoMap(pack.tempoMap, ln)
              && Some(setup.mapper) ==
                 MakeMeasureMapper(pack.timeSignatures, pack.pickupBeats, Some(pack.durationBeats))
  {
    hide Program.LessonOf, Lesson.Batch, IsTable;
    StableSort.SortCorrect(ChunkLe, pack.chunks);
    if pack.chunks == [] { return null; }
    var chunk := StableSort.Sort(ChunkLe, pack.chunks)[0];
    var tempoMap := MakeTempoMap(pack.tempoMap, ln);
    if tempoMap == None || !WithinPack(chunk, pack) { return null; }
    var mapper := MakeMeasureMapper(pack.timeSignatures, pack.pickupBeats, Some(pack.durationBeats));
    if mapper == None { return null; }
    var starts := MeasureStarts(mapper.value);
    var program := Program(Setup(config, tempoMap.value, mapper.value, starts, thresholds), pack);
    session := new LessonSession(program);
  }
}
