/** The pass clock starts at zero with every chunk, the expected notes stay on the song's clock: what that
    means for a player who keeps time with the notes as they are drawn. */
module ChunkClock {
  import opened ScoringTypes
  import opened Tempo
  import opened TempoProofs
  import opened Config
  import opened Matcher
  import opened Scorer
  import opened Realtime
  import opened RealtimeProofs
  import opened SongPacks
  import opened Lessons
  import StableSort

  /** When the chunk starts, on the song's clock. */
  ghost function ChunkStart(p: Program, index: nat): real
    requires index < |p.Chunks()|
  {
    p.setup.tempoMap.BeatToSeconds(p.Chunks()[index].startBeat)
  }

  /** Main result: a key pressed at the very moment a note is drawn at lies in the note's window if and only
      if the chunk starts no later in the song than the early side of that window is wide. */
  lemma PlayedAsDrawn(p: Program, index: nat, k: nat, e: PlayedNote)
    requires IsLogarithm(p.setup.tempoMap.ln) && p.Playable(index) && k < |p.LessonOf(index).expected|
    requires var m, note := p.setup.tempoMap, p.LessonOf(index).Notes()[k];
             e.Seconds() == m.BeatToSeconds(note.startBeat) - ChunkStart(p, index)
    ensures var lesson := p.LessonOf(index);
            InWindow(e, lesson.NoteTargets()[k]) <==>
              ChunkStart(p, index) * 1000.0 <=
                WindowMs(p.setup.config, lesson.Notes()[k].startBeat, p.setup.tempoMap).earlyMs
  {
    var m, note := p.setup.tempoMap, p.LessonOf(index).Notes()[k];
    TimeNonNegative(m, p.Chunks()[index].startBeat);
    WindowShape(p.setup.config, note.startBeat, m);
    hide IsLogarithm, MapFields.BeatToSeconds, WindowMs, Lesson.Notes, Program.Chunks;
  }

  /** A song of one note at one second, whose only chunk starts with that note. */
  function LateChunk(): Program {
    var note: ExpectedNote := NoteFields(60, 2.0, 1.0, R, 1.0);
    Program(OneNote().setup, SongPack([SongNote(note, 1, None)], 4.0, [SongChunk(1, 2.0, 4.0)], 0.0, 120.0, [], [], []))
  }

  const AT_ONCE: PlayedNote := EventFields(60, 64, 0, -1)

  lemma LateChunkLesson()
    ensures var p := LateChunk();
            p.Playable(0) && p.Chunks() == [SongChunk(1, 2.0, 4.0)] && p.LessonOf(0) == OneNote()
  {
    var p := LateChunk();
    StableSort.SortIdempotent(ChunkLe, p.pack.chunks);
    var chunk, notes := SongChunk(1, 2.0, 4.0), p.pack.notes;
    assert Selected(notes, chunk, 1) == [0] by { assert Selected(notes, chunk, 0) == []; }
  }

  lemma TooEarly()
    ensures OneNote().Batch([AT_ONCE]).outcomes[0].verdict == MISSED
  {
    OneNoteTargets();
    BatchOutcomes(OneNote(), [AT_ONCE]);
    hide Lesson.NoteTargets, Lesson.Batch, OneNote;
    StableSort.SortIdempotent(EventLe, [AT_ONCE]);
    assert AT_ONCE.Seconds() == 0.0;
  }

  /** A concrete case: drawn at the start of the chunk and played at the start of the pass, the note is
      MISSED; it would have been PERFECT a second later, where the song has it. */
  lemma LateChunkMissed()
    ensures var p := LateChunk();
            && p.Playable(0) && p.LessonOf(0).expected == [NoteFields(60, 2.0, 1.0, R, 1.0)]
            && p.Chunks()[0].startBeat == p.LessonOf(0).expected[0].startBeat
            && Verdicts(p.LessonOf(0).Batch([AT_ONCE]).outcomes) == [MISSED]
            && Verdicts(p.LessonOf(0).Batch([ON_TIME]).outcomes) == [PERFECT]
  {
    LateChunkLesson();
    TooEarly();
    OneNoteVerdicts();
    hide Lesson.NoteTargets, Lesson.Batch, Program.LessonOf, LateChunk, Program.Chunks;
  }
}
