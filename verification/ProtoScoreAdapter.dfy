/** From a song pack to one chunk of it: the notes inside the chunk, the scorer's expectations, and
    the renderer's notes with their ties renumbered. */
module SongPacks {
  import opened ScoringTypes
  import Tempo
  import Measures

  datatype SongNote = SongNote(note: ExpectedNote, staff: int, tieToIndex: Option<int>)

  datatype SongChunk = SongChunk(ord: int, startBeat: real, endBeat: real)

  datatype SongKeySignature = SongKeySignature(atBeat: real, fifths: int)

  datatype SongPack = SongPack(
    notes: seq<SongNote>,
    durationBeats: real,
    chunks: seq<SongChunk>,
    pickupBeats: real,
    defaultTempoBpm: real,
    tempoMap: seq<Tempo.TempoPoint>,
    timeSignatures: seq<Measures.TimeSignature>,
    keySignatures: seq<SongKeySignature>)

  predicate InChunk(n: SongNote, chunk: SongChunk) {
    chunk.startBeat <= n.note.startBeat < chunk.endBeat
  }

  /** A chunk is a slice of its pack. */
  predicate WithinPack(chunk: SongChunk, pack: SongPack) {
    chunk.startBeat >= 0.0 && chunk.endBeat <= pack.durationBeats + 0.000000001
  }

  /** `s` lists, in order, the indices of those of the first `n` notes that lie in the chunk. */
  ghost predicate IsSelection(notes: seq<SongNote>, chunk: SongChunk, n: nat, s: seq<nat>) {
    && n <= |notes|
    && (forall i :: 0 <= i < |s| ==> s[i] < n && InChunk(notes[s[i]], chunk))
    && (forall i, j :: 0 <= i < j < |s| ==> s[i] < s[j])
    && (forall k: nat :: k < n && InChunk(notes[k], chunk) ==> k in s)
  }

  lemma SelectionNone(notes: seq<SongNote>, chunk: SongChunk)
    ensures IsSelection(notes, chunk, 0, [])
  {}

  lemma SelectionNext(notes: seq<SongNote>, chunk: SongChunk, n: nat, s: seq<nat>)
    requires n < |notes| && IsSelection(notes, chunk, n, s)
    ensures IsSelection(notes, chunk, n + 1, if InChunk(notes[n], chunk) then s + [n] else s)
  {
    hide InChunk;
    if InChunk(notes[n], chunk) {
      var t := s + [n];
      forall i | 0 <= i < |t|
        ensures t[i] < n + 1 && InChunk(notes[t[i]], chunk)
      {
        if i < |s| { assert t[i] == s[i]; }
      }
      forall k: nat | k < n + 1 && InChunk(notes[k], chunk)
        ensures k in t
      {
        if k == n { assert t[|s|] == n; } else { assert k in s; }
      }
    }
  }

  /** The song pack indices of the first `n` notes that lie in the chunk, in pack order. */
  function Selected(notes: seq<SongNote>, chunk: SongChunk, n: nat): (s: seq<nat>)
    requires n <= |notes|
    ensures IsSelection(notes, chunk, n, s)
  {
    hide IsSelection;
    if n == 0 then
      SelectionNone(notes, chunk);
      []
    else
      var before := Selected(notes, chunk, n - 1);
      SelectionNext(notes, chunk, n - 1, before);
      if InChunk(notes[n - 1], chunk) then before + [n - 1] else before
  }

  function Pick(notes: seq<SongNote>, indices: seq<nat>): (r: seq<SongNote>)
    requires forall i :: 0 <= i < |indices| ==> indices[i] < |notes|
    ensures |r| == |indices|
  {
    seq(|indices|, i requires 0 <= i < |indices| => notes[indices[i]])
  }

  function ChunkNotes(notes: seq<SongNote>, chunk: SongChunk): seq<SongNote> {
    Pick(notes, Selected(notes, chunk, |notes|))
  }

  /** `byPack` sends the song pack index of every selected note to its place in the chunk. */
  ghost predicate Inverts(indices: seq<nat>, byPack: map<int, nat>) {
    && (forall i :: 0 <= i < |indices| ==> indices[i] in byPack && byPack[indices[i]] == i)
    && (forall k: int :: k in byPack ==> byPack[k] < |indices| && indices[byPack[k]] == k)
  }

  /** The loop that slices the chunk and remembers where each note went. */
  method NotesInChunk(notes: seq<SongNote>, chunk: SongChunk)
    returns (chunkNotes: seq<SongNote>, chunkIndexByPackIndex: map<int, nat>)
    ensures chunkNotes == ChunkNotes(notes, chunk)
    ensures Inverts(Selected(notes, chunk, |notes|), chunkIndexByPackIndex)
  {
    chunkNotes, chunkIndexByPackIndex := [], map[];
    ghost var indices: seq<nat> := [];
    for packIndex := 0 to |notes|
      invariant indices == Selected(notes, chunk, packIndex)
      invariant chunkNotes == Pick(notes, indices)
      invariant Inverts(indices, chunkIndexByPackIndex)
    {
      var note := notes[packIndex];
      if note.note.startBeat >= chunk.startBeat && note.note.startBeat < chunk.endBeat {
        InvertsNext(indices, chunkIndexByPackIndex, packIndex);
        chunkIndexByPackIndex := chunkIndexByPackIndex[packIndex := |chunkNotes|];
        chunkNotes := chunkNotes + [note];
        indices := indices + [packIndex];
      }
      hide Inverts;
    }
  }

  lemma InvertsNext(indices: seq<nat>, byPack: map<int, nat>, k: nat)
    requires Inverts(indices, byPack) && forall i :: 0 <= i < |indices| ==> indices[i] < k
    ensures Inverts(indices + [k], byPack[k := |indices|])
  {}

  /** Where a note is drawn, on the song's clock. How it is derived is a parameter. */
  datatype NoteHints = NoteHints(lane: nat, xHint: real, beamGroup: Option<int>)

  datatype ProtoNote = ProtoNote(
    pitch: int, startBeat: real, durBeats: real, hand: Hand, staff: int, hints: NoteHints, tieToIndex: Option<nat>)

  function Remapped(tie: Option<int>, byPack: map<int, nat>): Option<nat> {
    if tie.Some? && tie.value in byPack then Some(byPack[tie.value]) else None
  }

  function Rendered(n: SongNote, chunk: SongChunk, hints: NoteHints, byPack: map<int, nat>): ProtoNote {
    ProtoNote(n.note.pitch, n.note.startBeat - chunk.startBeat, n.note.durBeats, n.note.hand, n.staff,
              hints.(xHint := hints.xHint - chunk.startBeat * 1000.0), Remapped(n.tieToIndex, byPack))
  }

  /** What the renderer is handed for a chunk: the sliced notes, on the chunk's own clock, each tie
      leading to the place of its target or cut. */
  ghost predicate IsScoreOf(score: seq<ProtoNote>, notes: seq<SongNote>, chunk: SongChunk) {
    var indices := Selected(notes, chunk, |notes|);
    && |score| == |indices|
    && forall i :: 0 <= i < |score| ==>
         && score[i].pitch == notes[indices[i]].note.pitch
         && score[i].startBeat == notes[indices[i]].note.startBeat - chunk.startBeat
         && score[i].durBeats == notes[indices[i]].note.durBeats
         && score[i].hand == notes[indices[i]].note.hand && score[i].staff == notes[indices[i]].staff
         && (score[i].tieToIndex.Some? ==>
               && notes[indices[i]].tieToIndex.Some? && score[i].tieToIndex.value < |indices|
               && indices[score[i].tieToIndex.value] == notes[indices[i]].tieToIndex.value)
         && (score[i].tieToIndex.None? ==>
               notes[indices[i]].tieToIndex.None? || notes[indices[i]].tieToIndex.value !in indices)
  }

  /** The hints of the notes in the chunk, moved to the chunk's clock. */
  ghost predicate HasHints(score: seq<ProtoNote>, chunk: SongChunk, hints: seq<NoteHints>) {
    && |score| == |hints|
    && forall i :: 0 <= i < |score| ==>
         && score[i].hints.lane == hints[i].lane && score[i].hints.beamGroup == hints[i].beamGroup
         && score[i].hints.xHint == hints[i].xHint - chunk.startBeat * 1000.0
  }

  // ----- The chunk's tempo and signatures ---------------------------------------------------------

  /** A tempo entry as the renderer knows it. */
  datatype RenderTempo = RenderTempo(atBeat: real, bpm: real)

  /** The entries at or after `start`, on the chunk's clock. */
  function EntriesFrom(points: seq<Tempo.TempoPoint>, start: real): seq<RenderTempo> {
    if points == [] then []
    else
      var p := points[|points| - 1];
      EntriesFrom(points[..|points| - 1], start) +
      if p.atBeat >= start then [RenderTempo(p.atBeat - start, p.bpm)] else []
  }

  function ChunkTempoMap(pack: SongPack, chunk: SongChunk): seq<RenderTempo> {
    var entries := EntriesFrom(pack.tempoMap, chunk.startBeat);
    if entries == [] then [RenderTempo(0.0, pack.defaultTempoBpm)] else entries
  }

  ghost predicate StrictlyOrdered(points: seq<Tempo.TempoPoint>) {
    forall i, j :: 0 <= i < j < |points| ==> points[i].atBeat < points[j].atBeat
  }

  /** Every entry the renderer gets stands for one of the song's. */
  lemma {:induction false} EntryFromSong(points: seq<Tempo.TempoPoint>, start: real, k: nat) returns (i: nat)
    requires k < |EntriesFrom(points, start)|
    ensures i < |points| && points[i].atBeat >= start
    ensures EntriesFrom(points, start)[k] == RenderTempo(points[i].atBeat - start, points[i].bpm)
    decreases |points|
  {
    var front := points[..|points| - 1];
    if k < |EntriesFrom(front, start)| { i := EntryFromSong(front, start, k); } else { i := |points| - 1; }
  }

  /** Every entry of the song from `start` on is kept. */
  lemma {:induction false} EntryKept(points: seq<Tempo.TempoPoint>, start: real, i: nat) returns (k: nat)
    requires i < |points| && points[i].atBeat >= start
    ensures k < |EntriesFrom(points, start)|
    ensures EntriesFrom(points, start)[k] == RenderTempo(points[i].atBeat - start, points[i].bpm)
    decreases |points|
  {
    var front := points[..|points| - 1];
    if i < |front| { k := EntryKept(front, start, i); } else { k := |EntriesFrom(front, start)|; }
  }

  lemma {:induction false} EntriesInOrder(points: seq<Tempo.TempoPoint>, start: real)
    requires StrictlyOrdered(points)
    ensures var entries := EntriesFrom(points, start);
            forall i, j :: 0 <= i < j < |entries| ==> entries[i].atBeat < entries[j].atBeat
    decreases |points|
  {
    if points != [] {
      var front, last := points[..|points| - 1], points[|points| - 1];
      EntriesInOrder(front, start);
      var entries := EntriesFrom(front, start);
      forall k | 0 <= k < |entries|
        ensures entries[k].atBeat < last.atBeat - start
      {
        var i := EntryFromSong(front, start, k);
        assert points[i].atBeat < last.atBeat;
      }
      var all := EntriesFrom(points, start);
      assert all == entries + if last.atBeat >= start then [RenderTempo(last.atBeat - start, last.bpm)] else [];
      forall i, j | 0 <= i < j < |all|
        ensures all[i].atBeat < all[j].atBeat
      {
        assert all[i] == entries[i];
        if j < |entries| { assert all[j] == entries[j]; }
      }
    }
  }

  /** Main result: the renderer's tempo map is never empty and in strict order, and covers the start of
      the chunk if and only if an entry of the song stands exactly there or none stands after it. */
  lemma ChunkTempoCovers(pack: SongPack, chunk: SongChunk)
    requires StrictlyOrdered(pack.tempoMap)
    ensures var entries, points, start := ChunkTempoMap(pack, chunk), pack.tempoMap, chunk.startBeat;
            && entries != [] && entries[0].atBeat >= 0.0
            && (forall i, j :: 0 <= i < j < |entries| ==> entries[i].atBeat < entries[j].atBeat)
            && (entries[0].atBeat == 0.0 <==>
                  || (exists i :: 0 <= i < |points| && points[i].atBeat == start)
                  || (forall i :: 0 <= i < |points| ==> points[i].atBeat < start))
  {
    hide EntriesFrom;
    var points, start := pack.tempoMap, chunk.startBeat;
    var entries := EntriesFrom(points, start);
    EntriesInOrder(points, start);
    if entries != [] {
      var first := EntryFromSong(points, start, 0);
    }
    forall i | 0 <= i < |points| && points[i].atBeat >= start
      ensures entries != [] && (points[i].atBeat == start ==> entries[0].atBeat <= 0.0)
    {
      var k := EntryKept(points, start, i);
    }
  }

  /** The entries are those of the song from the start of the chunk on, on the chunk's clock; where there are
      none, the song's default tempo stands for them. */
  lemma ChunkTempoEntries(pack: SongPack, chunk: SongChunk, r: RenderTempo)
    ensures r in ChunkTempoMap(pack, chunk) <==>
              || (exists i :: 0 <= i < |pack.tempoMap| && Moved(pack.tempoMap[i], chunk.startBeat, r))
              || ((forall i :: 0 <= i < |pack.tempoMap| ==> pack.tempoMap[i].atBeat < chunk.startBeat)
                  && r == RenderTempo(0.0, pack.defaultTempoBpm))
  {
    hide EntriesFrom;
    var points, start := pack.tempoMap, chunk.startBeat;
    var entries := EntriesFrom(points, start);
    if entries != [] {
      var i := EntryFromSong(points, start, 0);
    }
    forall k | 0 <= k < |entries| ensures exists i :: 0 <= i < |points| && Moved(points[i], start, entries[k]) {
      var i := EntryFromSong(points, start, k);
    }
    forall i | 0 <= i < |points| && points[i].atBeat >= start
      ensures RenderTempo(points[i].atBeat - start, points[i].bpm) in entries
    {
      var k := EntryKept(points, start, i);
    }
  }

  /** `r` stands for the entry `p`, counted from `start`. */
  predicate Moved(p: Tempo.TempoPoint, start: real, r: RenderTempo) {
    r.bpm == p.bpm && r.atBeat + start == p.atBeat >= start
  }

  datatype ProtoScore = ProtoScore(
    notes: seq<ProtoNote>,
    defaultTempoBpm: real,
    tempoMap: seq<RenderTempo>,
    keyFifths: int,
    numerator: int,
    denominator: int,
    lanesPerHand: nat)

  const LANES_PER_HAND := 5

  /** Builds what is drawn for a chunk. None when the chunk does not lie within the song pack. */
  method ToProtoScore(pack: SongPack, chunk: SongChunk, derive: seq<SongNote> -> seq<NoteHints>)
    returns (score: Option<ProtoScore>)
    requires |derive(ChunkNotes(pack.notes, chunk))| == |ChunkNotes(pack.notes, chunk)|
    ensures score.Some? <==> chunk.startBeat >= 0.0 && chunk.endBeat <= pack.durationBeats + 0.000000001
    ensures score.Some? ==> IsScoreOf(score.value.notes, pack.notes, chunk)
    ensures score.Some? ==> HasHints(score.value.notes, chunk, derive(ChunkNotes(pack.notes, chunk)))
    ensures score.Some? ==>
              && score.value.tempoMap == ChunkTempoMap(pack, chunk)
              && score.value.defaultTempoBpm == pack.defaultTempoBpm && score.value.lanesPerHand == 5
              && score.value.keyFifths == (if pack.keySignatures == [] then 0 else pack.keySignatures[0].fifths)
              && (pack.timeSignatures == [] ==> score.value.numerator == score.value.denominator == 4)
              && (pack.timeSignatures != [] ==>
                    && score.value.numerator == pack.timeSignatures[0].numerator
                    && score.value.denominator == pack.timeSignatures[0].denominator)
  {
    hide Selected, Inverts, IsScoreOf, ChunkNotes;
    if !WithinPack(chunk, pack) { return None; }
    var chunkNotes, byPack := NotesInChunk(pack.notes, chunk);
    var hints := derive(chunkNotes);
    var notes := seq(|chunkNotes|, i requires 0 <= i < |chunkNotes| =>
                       Rendered(chunkNotes[i], chunk, hints[i], byPack));
    RenderedIsScore(pack.notes, chunk, byPack, hints, notes);
    var fifths := if pack.keySignatures == [] then 0 else pack.keySignatures[0].fifths;
    var numerator, denominator := 4, 4;
    if pack.timeSignatures != [] {
      numerator, denominator := pack.timeSignatures[0].numerator, pack.timeSignatures[0].denominator;
    }
    score := Some(ProtoScore(notes, pack.defaultTempoBpm, ChunkTempoMap(pack, chunk), fifths, numerator, denominator,
                             LANES_PER_HAND));
  }

  lemma TieRemapped(indices: seq<nat>, byPack: map<int, nat>, tie: Option<int>)
    requires Inverts(indices, byPack)
    ensures var r := Remapped(tie, byPack);
            && (r.Some? ==> tie.Some? && r.value < |indices| && indices[r.value] == tie.value)
            && (r.None? ==> tie.None? || tie.value !in indices)
  {
    if tie.Some? {
      var t: int := tie.value;
      assert t in byPack ==> byPack[t] < |indices| && indices[byPack[t]] == t;
    }
  }

  lemma {:induction false} RenderedIsScore(
    notes: seq<SongNote>, chunk: SongChunk, byPack: map<int, nat>, hints: seq<NoteHints>, score: seq<ProtoNote>)
    requires Inverts(Selected(notes, chunk, |notes|), byPack)
    requires var chunkNotes := ChunkNotes(notes, chunk);
             && |score| == |chunkNotes| == |hints|
             && forall i :: 0 <= i < |score| ==> score[i] == Rendered(chunkNotes[i], chunk, hints[i], byPack)
    ensures IsScoreOf(score, notes, chunk)
  {
    hide Selected, Inverts, Remapped;
    var indices := Selected(notes, chunk, |notes|);
    forall i | 0 <= i < |score|
      ensures score[i].tieToIndex == Remapped(notes[indices[i]].tieToIndex, byPack)
    {
      assert ChunkNotes(notes, chunk)[i] == notes[indices[i]];
    }
    forall i | 0 <= i < |score|
      ensures var tie, r := notes[indices[i]].tieToIndex, score[i].tieToIndex;
              && (r.Some? ==> tie.Some? && r.value < |indices| && indices[r.value] == tie.value)
              && (r.None? ==> tie.None? || tie.value !in indices)
    {
      TieRemapped(indices, byPack, notes[indices[i]].tieToIndex);
    }
  }

  function ToExpectedNotes(pack: SongPack, chunk: SongChunk): seq<ExpectedNote>
    requires WithinPack(chunk, pack)
  {
    var notes := ChunkNotes(pack.notes, chunk);
    seq(|notes|, i requires 0 <= i < |notes| => notes[i].note)
  }

  /** Main result: the notes to be scored are, in the song pack's order, exactly those that start within the
      chunk, on the song's clock and with all that the scorer looks at. */
  lemma ExpectedNotes(pack: SongPack, chunk: SongChunk) returns (indices: seq<nat>)
    requires WithinPack(chunk, pack)
    ensures |ToExpectedNotes(pack, chunk)| == |indices|
    ensures forall i, j :: 0 <= i < j < |indices| ==> indices[i] < indices[j]
    ensures forall k: nat :: k in indices <==>
              k < |pack.notes| && chunk.startBeat <= pack.notes[k].note.startBeat < chunk.endBeat
    ensures forall i :: 0 <= i < |indices| ==>
              indices[i] < |pack.notes| && ToExpectedNotes(pack, chunk)[i] == pack.notes[indices[i]].note
  {
    hide Selected;
    indices := Selected(pack.notes, chunk, |pack.notes|);
    forall k: nat | k in indices ensures k < |pack.notes| && InChunk(pack.notes[k], chunk) {
      var i :| 0 <= i < |indices| && indices[i] == k;
    }
  }

  /** What is drawn and what is scored line up, note by note: the same notes at the same places, one
      on the chunk's clock and the other on the song's. */
  lemma ScoreLinesUp(pack: SongPack, chunk: SongChunk, score: seq<ProtoNote>, hints: seq<NoteHints>)
    requires WithinPack(chunk, pack) && IsScoreOf(score, pack.notes, chunk) && HasHints(score, chunk, hints)
    ensures var expected, notes := ToExpectedNotes(pack, chunk), ChunkNotes(pack.notes, chunk);
            && |score| == |expected| == |notes| == |hints|
            && forall i :: 0 <= i < |score| ==>
                 && expected[i] == notes[i].note && score[i].staff == notes[i].staff
                 && score[i].pitch == expected[i].pitch && score[i].hand == expected[i].hand
                 && score[i].durBeats == expected[i].durBeats
                 && score[i].startBeat + chunk.startBeat == expected[i].startBeat < chunk.endBeat
                 && score[i].hints.xHint + chunk.startBeat * 1000.0 == hints[i].xHint
                 && score[i].hints.lane == hints[i].lane && score[i].hints.beamGroup == hints[i].beamGroup
  {
    hide Selected;
  }

  // ----- The song pack validator's tie check -----------------------------------------------------

  /** A tie field as it stands in the notes file. */
  datatype TieField = Absent | NotAnInteger | Index(value: int)

  datatype RawNote = RawNote(pitch: int, tieToIndex: TieField)

  datatype TieError =
    | NotAnIndex(index: nat)
    | OutOfRange(index: nat, target: int)
    | NotForward(index: nat, target: int)
    | OtherPitch(index: nat, target: int)

  /** A tie leads forward, inside the array, to a note of the same pitch. */
  predicate TieOk(notes: seq<RawNote>, index: nat)
    requires index < |notes|
  {
    match notes[index].tieToIndex
    case Absent => true
    case NotAnInteger => false
    case Index(target) => index < target < |notes| && notes[target].pitch == notes[index].pitch
  }

  function TieErrorAt(notes: seq<RawNote>, index: nat): seq<TieError>
    requires index < |notes|
  {
    match notes[index].tieToIndex
    case Absent => []
    case NotAnInteger => [NotAnIndex(index)]
    case Index(target) =>
      if target < 0 || target >= |notes| then [OutOfRange(index, target)]
      else if target <= index then [NotForward(index, target)]
      else if notes[target].pitch != notes[index].pitch then [OtherPitch(index, target)]
      else []
  }

  function TieErrors(notes: seq<RawNote>, n: nat): seq<TieError>
    requires n <= |notes|
  {
    if n == 0 then [] else TieErrors(notes, n - 1) + TieErrorAt(notes, n - 1)
  }

  method CheckTies(notes: seq<RawNote>) returns (errors: seq<TieError>)
    ensures errors == TieErrors(notes, |notes|)
  {
    errors := [];
    for index := 0 to |notes|
      invariant errors == TieErrors(notes, index)
    {
      match notes[index].tieToIndex {
        case Absent => continue;
        case NotAnInteger => errors := errors + [NotAnIndex(index)];
        case Index(target) =>
          if target < 0 || target >= |notes| {
            errors := errors + [OutOfRange(index, target)];
            continue;
          }
          if target <= index {
            errors := errors + [NotForward(index, target)];
            continue;
          }
          if notes[target].pitch != notes[index].pitch {
            errors := errors + [OtherPitch(index, target)];
          }
      }
    }
  }

  lemma TieErrorExact(notes: seq<RawNote>, index: nat)
    requires index < |notes|
    ensures TieErrorAt(notes, index) == [] <==> TieOk(notes, index)
    ensures |TieErrorAt(notes, index)| <= 1
    ensures forall e :: e in TieErrorAt(notes, index) ==> e.index == index
  {}

  /** The check reports nothing exactly when every tie is sound. */
  lemma {:induction false} TieCheckExact(notes: seq<RawNote>, n: nat)
    requires n <= |notes|
    ensures TieErrors(notes, n) == [] <==> forall index :: 0 <= index < n ==> TieOk(notes, index)
    decreases n
  {
    hide TieErrorAt, TieOk;
    if n > 0 {
      TieCheckExact(notes, n - 1);
      TieErrorExact(notes, n - 1);
    }
  }

  /** Every report names a note whose tie is not sound. */
  lemma {:induction false} TieReportsFaults(notes: seq<RawNote>, n: nat, e: TieError)
    requires n <= |notes| && e in TieErrors(notes, n)
    ensures e.index < n && !TieOk(notes, e.index)
    decreases n
  {
    hide TieErrorAt, TieOk;
    TieErrorExact(notes, n - 1);
    if e in TieErrors(notes, n - 1) {
      TieReportsFaults(notes, n - 1, e);
    }
  }

  /** Main result: a fault is reported, at its own note, exactly where it is. */
  lemma {:induction false} TieFaultKinds(notes: seq<RawNote>, n: nat, index: nat, target: int)
    requires n <= |notes| && index < |notes|
    ensures var errors, tie := TieErrors(notes, n), notes[index].tieToIndex;
            && (NotAnIndex(index) in errors <==> index < n && tie == NotAnInteger)
            && (OutOfRange(index, target) in errors <==>
                  index < n && tie == Index(target) && !(0 <= target < |notes|))
            && (NotForward(index, target) in errors <==> index < n && tie == Index(target) && 0 <= target <= index)
            && (OtherPitch(index, target) in errors <==>
                  index < n && tie == Index(target) && index < target < |notes|
                  && notes[target].pitch != notes[index].pitch)
    decreases n
  {
    hide TieErrorAt;
    if n > 0 {
      TieFaultKinds(notes, n - 1, index, target);
      TieFaultAt(notes, n - 1, index, target);
    }
  }

  lemma TieFaultAt(notes: seq<RawNote>, at: nat, index: nat, target: int)
    requires at < |notes| && index < |notes|
    ensures var errors, tie := TieErrorAt(notes, at), notes[index].tieToIndex;
            && (NotAnIndex(index) in errors <==> index == at && tie == NotAnInteger)
            && (OutOfRange(index, target) in errors <==>
                  index == at && tie == Index(target) && !(0 <= target < |notes|))
            && (NotForward(index, target) in errors <==> index == at && tie == Index(target) && 0 <= target <= index)
            && (OtherPitch(index, target) in errors <==>
                  index == at && tie == Index(target) && index < target < |notes|
                  && notes[target].pitch != notes[index].pitch)
  {}

  /** The notes as the validator sees them. */
  function Raw(notes: seq<SongNote>): (r: seq<RawNote>)
    ensures |r| == |notes|
  {
    seq(|notes|, i requires 0 <= i < |notes| =>
          RawNote(notes[i].note.pitch, if notes[i].tieToIndex.Some? then Index(notes[i].tieToIndex.value) else Absent))
  }

  // ----- What the two together guarantee ------------------------------------------------------

  /** Main result: in a song pack that passes the tie check, every tie of a chunk's score is in range,
      leads strictly forward to the same pitch, names the song pack's own target, and survives exactly
      when that target lies in the chunk. */
  lemma {:induction false} TiesSound(notes: seq<SongNote>, chunk: SongChunk, score: seq<ProtoNote>, i: nat)
    requires TieErrors(Raw(notes), |notes|) == []
    requires IsScoreOf(score, notes, chunk) && i < |score|
    ensures var indices := Selected(notes, chunk, |notes|);
            var tie := notes[indices[i]].tieToIndex;
            && score[i].startBeat >= 0.0
            && (tie.Some? ==> indices[i] < tie.value < |notes|)
            && (score[i].tieToIndex.Some? ==>
                  var j := score[i].tieToIndex.value;
                  i < j < |score| && score[j].pitch == score[i].pitch && tie == Some(indices[j]))
            && (score[i].tieToIndex.Some? <==> tie.Some? && InChunk(notes[tie.value], chunk))
  {
    hide Selected, TieErrors, Raw, TieOk;
    var indices := Selected(notes, chunk, |notes|);
    CheckedTie(notes, indices[i]);
    if score[i].tieToIndex.Some? { IndicesReflect(notes, chunk, i, score[i].tieToIndex.value); }
  }

  /** In a checked song pack a tie leads forward to a note of the same pitch. */
  lemma {:induction false} CheckedTie(notes: seq<SongNote>, k: nat)
    requires TieErrors(Raw(notes), |notes|) == [] && k < |notes|
    ensures var tie := notes[k].tieToIndex;
            tie.Some? ==> k < tie.value < |notes| && notes[tie.value].note.pitch == notes[k].note.pitch
  {
    hide TieErrors;
    TieCheckExact(Raw(notes), |notes|);
    assert TieOk(Raw(notes), k);
  }

  lemma {:induction false} IndicesReflect(notes: seq<SongNote>, chunk: SongChunk, i: nat, j: nat)
    requires i < |Selected(notes, chunk, |notes|)| && j < |Selected(notes, chunk, |notes|)|
    ensures i < j <==> Selected(notes, chunk, |notes|)[i] < Selected(notes, chunk, |notes|)[j]
  {
    hide Selected;
    var indices := Selected(notes, chunk, |notes|);
    if j < i { assert indices[j] < indices[i]; }
  }

  /** Consecutive chunks: each one starts where the one before ends. */
  ghost predicate Tiles(chunks: seq<SongChunk>) {
    && (forall i :: 0 <= i < |chunks| ==> chunks[i].startBeat <= chunks[i].endBeat)
    && (forall i :: 0 <= i < |chunks| - 1 ==> chunks[i].endBeat == chunks[i + 1].startBeat)
  }

  lemma {:induction false} TilesOrdered(chunks: seq<SongChunk>, i: nat, j: nat)
    requires Tiles(chunks) && i < j < |chunks|
    ensures chunks[i].endBeat <= chunks[j].startBeat
    decreases j
  {
    if i < j - 1 { TilesOrdered(chunks, i, j - 1); }
  }

  lemma {:induction false} SomeChunkHolds(chunks: seq<SongChunk>, n: SongNote)
    requires Tiles(chunks) && chunks != []
    requires chunks[0].startBeat <= n.note.startBeat < chunks[|chunks| - 1].endBeat
    ensures exists i :: 0 <= i < |chunks| && InChunk(n, chunks[i])
    decreases |chunks|
  {
    var last := |chunks| - 1;
    if InChunk(n, chunks[last]) {
    } else {
      var front := chunks[..last];
      SomeChunkHolds(front, n);
      var i :| 0 <= i < |front| && InChunk(n, front[i]);
      assert InChunk(n, chunks[i]);
    }
  }

  /** Main result: chunks that tile a stretch of the song hand every note of it to exactly one of
      them, and no other note to any. */
  lemma TilesPartition(chunks: seq<SongChunk>, n: SongNote)
    requires Tiles(chunks) && chunks != []
    ensures chunks[0].startBeat <= n.note.startBeat < chunks[|chunks| - 1].endBeat <==>
            exists i :: 0 <= i < |chunks| && InChunk(n, chunks[i])
    ensures forall i, j :: 0 <= i < j < |chunks| ==> !(InChunk(n, chunks[i]) && InChunk(n, chunks[j]))
  {
    forall i, j | 0 <= i < j < |chunks| ensures !(InChunk(n, chunks[i]) && InChunk(n, chunks[j])) {
      TilesOrdered(chunks, i, j);
    }
    var last := |chunks| - 1;
    if chunks[0].startBeat <= n.note.startBeat < chunks[last].endBeat {
      SomeChunkHolds(chunks, n);
    } else {
      forall i | 0 <= i < |chunks|
        ensures !InChunk(n, chunks[i])
      {
        if i > 0 { TilesOrdered(chunks, 0, i); }
        if i < last { TilesOrdered(chunks, i, last); }
      }
    }
  }
}
