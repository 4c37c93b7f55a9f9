/** The note detector's command line tool: frames become notes while the samples are fed, notes are
    fused over single dropped frames, and short notes are discarded. */
module NoteSegmenter {
  import opened RealArith
  import opened ScoringTypes
  import opened YinStreams
  import opened Segmentation

  datatype NoteEvent = NoteEvent(onset: real, offset: real, midiPitch: int, confidence: real)

  // ----- Notes in seconds -----------------------------------------------------------------------

  /** The start of frame `k`. */
  function Time(k: nat, hop: real): real { k as real * hop }

  /** A note starts at the frame that confirmed its pitch and ends with its last frame, so a
      single-frame note has no duration. */
  function NoteOf(s: Span, hop: real): NoteEvent {
    NoteEvent(Time(s.first + 1, hop), Time(s.last + 1, hop), s.pitch, s.confidence)
  }

  function NotesOf(spans: seq<Span>, hop: real): (r: seq<NoteEvent>)
    ensures |r| == |spans| && forall i :: 0 <= i < |r| ==> r[i] == NoteOf(spans[i], hop)
  {
    if spans == [] then [] else NotesOf(spans[..|spans| - 1], hop) + [NoteOf(spans[|spans| - 1], hop)]
  }

  lemma {:induction false} NotesOfNext(spans: seq<Span>, s: Span, hop: real)
    ensures NotesOf(spans + [s], hop) == NotesOf(spans, hop) + [NoteOf(s, hop)]
  {
    assert (spans + [s])[..|spans|] == spans;
  }

  lemma {:induction false} NotesOfFront(spans: seq<Span>, hop: real)
    requires spans != []
    ensures NotesOf(spans, hop) == NotesOf(spans[..|spans| - 1], hop) + [NoteOf(spans[|spans| - 1], hop)]
  {}

  /** Joining a span fuses it with the last note, or appends it. */
  lemma {:induction false} NotesOfJoined(slack: nat, spans: seq<Span>, s: Span, hop: real)
    ensures spans == [] ==> NotesOf(Joined(slack, spans, s), hop) == [NoteOf(s, hop)]
    ensures spans != [] ==>
              var last, notes := spans[|spans| - 1], NotesOf(spans, hop);
              var back := notes[|notes| - 1];
              NotesOf(Joined(slack, spans, s), hop) ==
              if last.pitch == s.pitch && s.first - last.last <= slack + 1 then
                notes[..|notes| - 1] +
                [back.(offset := Time(s.last + 1, hop), confidence := Max(back.confidence, s.confidence))]
              else
                notes + [NoteOf(s, hop)]
  {
    hide NotesOf, Time;
    NotesOfNext(spans, s, hop);
    if spans == [] {
      assert NotesOf([], hop) == [];
    } else {
      var front, last := spans[..|spans| - 1], spans[|spans| - 1];
      NotesOfFront(spans, hop);
      NotesOfNext(front, last.(last := s.last, confidence := Max(last.confidence, s.confidence)), hop);
    }
  }

  lemma TimeNext(k: nat, hop: real)
    ensures Time(k, hop) + hop == Time(k + 1, hop)
  {}

  function HopsLong(x: real, hop: real): real { x * hop }

  lemma Ratio(d: int, x: real, hop: real)
    requires hop > 0.0 && x == d as real
    ensures d <= 2 <==> HopsLong(x, hop) <= 2.0 * hop
    ensures d >= 1 ==> HopsLong(x, hop) >= hop
    ensures d >= 0 ==> HopsLong(x, hop) >= 0.0
  {
    if x <= 2.0 { MulMonotone(x, 2.0, hop); } else { MulStrict(2.0, x, hop); }
    if x >= 1.0 { MulMonotone(1.0, x, hop); }
    if x >= 0.0 { MulNonNegative(x, hop); }
  }

  lemma TimeDifference(a: nat, b: nat, x: real, hop: real)
    requires x == b as real - a as real
    ensures HopsLong(x, hop) == Time(b, hop) - Time(a, hop)
  {}

  lemma TimeGap(a: nat, b: nat, hop: real)
    requires hop > 0.0
    ensures b - a <= 2 <==> Time(b, hop) - Time(a, hop) <= 2.0 * hop
    ensures b - a >= 1 ==> Time(b, hop) - Time(a, hop) >= hop
    ensures b >= a ==> Time(b, hop) - Time(a, hop) >= 0.0
  {
    hide Time, HopsLong;
    var x := b as real - a as real;
    TimeDifference(a, b, x, hop);
    Ratio(b - a, x, hop);
  }

  /** The notes that are long enough. */
  function Kept(notes: seq<NoteEvent>, minNoteSec: real): (r: seq<NoteEvent>)
    ensures forall n :: n in r <==> n in notes && n.offset - n.onset >= minNoteSec
  {
    if notes == [] then []
    else
      var n := notes[|notes| - 1];
      Kept(notes[..|notes| - 1], minNoteSec) + if n.offset - n.onset >= minNoteSec then [n] else []
  }

  // ----- Coalescing, frame by frame -------------------------------------------------------------

  ghost predicate Tracks(
    f: seq<PitchResult>, c: real, hop: real, notes: seq<NoteEvent>, current: NoteEvent, active: bool) {
    var runs := Runs(f, c, |f|);
    && (forall i :: 0 <= i < |runs| ==> runs[i].last < |f|)
    && (active <==> runs != [] && runs[|runs| - 1].last == |f| - 1)
    && NotesOf(runs, hop) == if active then notes + [current] else notes
  }

  lemma {:induction false} SpansStable(f: seq<PitchResult>, c: real, slack: nat, x: PitchResult, n: nat)
    requires n <= |f|
    ensures Spans(f + [x], c, slack, n) == Spans(f, c, slack, n)
    decreases n
  {
    if n > 0 { SpansStable(f, c, slack, x, n - 1); }
  }

  lemma {:induction false} RunsNext(f: seq<PitchResult>, c: real, x: PitchResult)
    ensures Runs(f + [x], c, |f| + 1) ==
            if x.pitch >= 0 && x.confidence >= c then Joined(0, Runs(f, c, |f|), Span(|f|, |f|, x.pitch, x.confidence))
            else Runs(f, c, |f|)
  {
    SpansStable(f, c, 0, x, |f|);
  }

  lemma TracksUnvoiced(
    f: seq<PitchResult>, c: real, hop: real, notes: seq<NoteEvent>, current: NoteEvent, active: bool,
    x: PitchResult, after: seq<NoteEvent>)
    requires Tracks(f, c, hop, notes, current, active) && !(x.pitch >= 0 && x.confidence >= c)
    requires after == if active then notes + [current] else notes
    ensures Tracks(f + [x], c, hop, after, current, false)
  {
    hide Time, Runs;
    RunsNext(f, c, x);
  }

  lemma TracksFused(
    f: seq<PitchResult>, c: real, hop: real, notes: seq<NoteEvent>, current: NoteEvent, x: PitchResult,
    u: NoteEvent)
    requires Tracks(f, c, hop, notes, current, true)
    requires x.pitch >= 0 && x.confidence >= c && x.pitch == current.midiPitch
    requires u == current.(offset := Time(|f| + 1, hop), confidence := Max(current.confidence, x.confidence))
    ensures Tracks(f + [x], c, hop, notes, u, true)
  {
    hide Time, Runs, NotesOf;
    RunsNext(f, c, x);
    var runs := Runs(f, c, |f|);
    NotesOfFront(runs, hop);
    NotesOfJoined(0, runs, Span(|f|, |f|, x.pitch, x.confidence), hop);
  }

  lemma TracksAppended(
    f: seq<PitchResult>, c: real, hop: real, notes: seq<NoteEvent>, current: NoteEvent, active: bool,
    x: PitchResult, after: seq<NoteEvent>, u: NoteEvent)
    requires Tracks(f, c, hop, notes, current, active) && x.pitch >= 0 && x.confidence >= c
    requires active ==> x.pitch != current.midiPitch
    requires after == if active then notes + [current] else notes
    requires u == NoteEvent(Time(|f| + 1, hop), Time(|f| + 1, hop), x.pitch, x.confidence)
    ensures Tracks(f + [x], c, hop, after, u, true)
  {
    hide Time, Runs, NotesOf;
    RunsNext(f, c, x);
    var runs := Runs(f, c, |f|);
    if active { NotesOfFront(runs, hop); }
    NotesOfJoined(0, runs, Span(|f|, |f|, x.pitch, x.confidence), hop);
  }

  lemma {:induction false} TracksAll(
    f: seq<PitchResult>, c: real, hop: real, notes: seq<NoteEvent>, current: NoteEvent, active: bool)
    requires Tracks(f, c, hop, notes, current, active)
    ensures NotesOf(Runs(f, c, |f|), hop) == if active then notes + [current] else notes
  {}

  /** The running state of the detector's segmentation. */
  class NoteTracker {
    const confidence: real
    const hopSec: real
    var notes: seq<NoteEvent>
    var current: NoteEvent
    var active: bool
    /** The frames fed so far. */
    ghost var frames: seq<PitchResult>

    ghost predicate Valid()
      reads this
    {
      Tracks(frames, confidence, hopSec, notes, current, active)
    }

    constructor (confidence: real, hopSec: real)
      ensures Valid() && frames == []
      ensures this.confidence == confidence && this.hopSec == hopSec
    {
      this.confidence, this.hopSec := confidence, hopSec;
      notes, current, active, frames := [], NoteEvent(0.0, 0.0, 0, 0.0), false, [];
    }

    /** Hands the current note, if any, over to the finished ones. */
    method CloseNote()
      modifies this`notes, this`active
      ensures !active && notes == if old(active) then old(notes) + [current] else old(notes)
    {
      if active {
        notes := notes + [current];
        active := false;
      }
    }

    /** Takes in one analysed frame. */
    method Feed(result: PitchResult, frameStartSec: real)
      requires Valid() && frameStartSec == Time(|frames|, hopSec)
      modifies this
      ensures Valid() && frames == old(frames) + [result]
    {
      hide Tracks, Time;
      var voiced := result.pitch >= 0 && result.confidence >= confidence;
      frames := frames + [result];
      TimeNext(|old(frames)|, hopSec);
      if !voiced {
        CloseNote();
        TracksUnvoiced(old(frames), confidence, hopSec, old(notes), current, old(active), result, notes);
        return;
      }
      var frameEndSec := frameStartSec + hopSec;
      if active && result.pitch == current.midiPitch {
        current := current.(offset := frameEndSec, confidence := Max(current.confidence, result.confidence));
        TracksFused(old(frames), confidence, hopSec, notes, old(current), result, current);
      } else {
        CloseNote();
        current := NoteEvent(frameStartSec + hopSec, frameEndSec, result.pitch, result.confidence);
        active := true;
        TracksAppended(old(frames), confidence, hopSec, old(notes), old(current), old(active), result, notes, current);
      }
    }
  }

  // ----- The detector ---------------------------------------------------------------------------

  datatype Options = Options(windowSize: nat, hopSize: nat, confidence: real, minNoteSec: real)

  /** The frames of the whole input: every complete window, then the padded rest. */
  function Frames(detect: seq<real> -> PitchResult, x: seq<real>, w: nat, h: nat): seq<PitchResult>
    requires 0 < h <= w
  {
    AllAnalyses(detect, x, w, h) + match Padded(detect, x, w, h) case None => [] case Some(r) => [r]
  }

  /** Main result: the frames are the analyses of all complete windows, and one more of what is left, filled
      up with silence, if anything is; `k` is the first window that is not complete. */
  lemma FramesOfInput(
    detect: seq<real> -> PitchResult, x: seq<real>, w: nat, h: nat, k: nat, window: seq<real>)
    requires 0 < h <= w && |x| < k * h + w && (k > 0 ==> (k - 1) * h + w <= |x|)
    requires IsPadding(x, k * h, w, window)
    ensures var f := Frames(detect, x, w, h);
            && |f| == (if k * h == |x| then k else k + 1)
            && (forall i {:trigger f[i]} :: 0 <= i < k ==>
                  0 <= i * h && i * h + w <= |x| && f[i] == detect(x[i * h..i * h + w]))
            && (k * h < |x| ==> f[k] == detect(window))
  {
    hide AllAnalyses, Padded, IsPadding, WindowCount;
    RestPadded(detect, x, w, h, k, window);
    var all := AllAnalyses(detect, x, w, h);
    SlidingWindows(detect, x, w, h, k);
    if k > 0 { SlidingWindows(detect, x, w, h, k - 1); }
    forall i | 0 <= i < k
      ensures 0 <= i * h && i * h + w <= |x| && all[i] == detect(x[i * h..i * h + w])
    {
      SlidingWindows(detect, x, w, h, i);
    }
  }

  /** `notes` are the bridged notes of the frames that are long enough. */
  ghost predicate NotesHeard(f: seq<PitchResult>, c: real, hop: real, minNoteSec: real, notes: seq<NoteEvent>) {
    exists spans :: Segments(f, c, |f|, 1, spans) && notes == Kept(NotesOf(spans, hop), minNoteSec)
  }

  lemma {:induction false} FuseTest(spans: seq<Span>, s: Span, hop: real)
    requires hop > 0.0 && spans != []
    ensures s.first - spans[|spans| - 1].last <= 2 <==>
            NoteOf(s, hop).onset - NotesOf(spans, hop)[|spans| - 1].offset <= 2.0 * hop
  {
    TimeGap(spans[|spans| - 1].last + 1, s.first + 1, hop);
  }

  /** One step of the merge: fuse with the last note, or append. */
  function MergedWith(merged: seq<NoteEvent>, note: NoteEvent, hop: real): seq<NoteEvent> {
    if merged == [] then [note]
    else
      var front, back := merged[..|merged| - 1], merged[|merged| - 1];
      if note.midiPitch == back.midiPitch && note.onset - back.offset <= 2.0 * hop then
        front + [back.(offset := note.offset, confidence := Max(back.confidence, note.confidence))]
      else
        merged + [note]
  }

  lemma MergeStep(runs: seq<Span>, i: nat, hop: real)
    requires hop > 0.0 && i < |runs|
    ensures MergedWith(NotesOf(Merged(runs, i), hop), NoteOf(runs[i], hop), hop) == NotesOf(Merged(runs, i + 1), hop)
  {
    hide Time, Merged;
    MergedNext(runs, i);
    JoinedNotes(Merged(runs, i), runs[i], hop);
  }

  lemma MergedNext(runs: seq<Span>, i: nat)
    requires i < |runs|
    ensures Merged(runs, i + 1) == Joined(1, Merged(runs, i), runs[i])
  {}

  lemma {:induction false} MergedNone(runs: seq<Span>)
    ensures Merged(runs, 0) == []
  {}

  /** Comparing seconds with two hops fuses what comparing frame numbers would. */
  lemma {:induction false} JoinedNotes(spans: seq<Span>, s: Span, hop: real)
    requires hop > 0.0
    ensures MergedWith(NotesOf(spans, hop), NoteOf(s, hop), hop) == NotesOf(Joined(1, spans, s), hop)
  {
    hide Time, NotesOf, Joined;
    NotesOfJoined(1, spans, s, hop);
    if spans != [] {
      FuseTest(spans, s, hop);
      NotesOfFront(spans, hop);
    }
  }

  /** Fuses notes over single dropped frames. */
  method MergeNotes(notes: seq<NoteEvent>, hopSec: real, ghost runs: seq<Span>) returns (merged: seq<NoteEvent>)
    requires hopSec > 0.0 && notes == NotesOf(runs, hopSec)
    ensures merged == NotesOf(Merged(runs, |runs|), hopSec)
  {
    hide Merged, Time;
    merged := [];
    assert Merged(runs, 0) == [] by { MergedNone(runs); }
    for i := 0 to |notes|
      invariant merged == NotesOf(Merged(runs, i), hopSec)
    {
      MergeStep(runs, i, hopSec);
      var note := notes[i];
      var last := |merged| - 1;
      if merged != [] && note.midiPitch == merged[last].midiPitch &&
         note.onset - merged[last].offset <= 2.0 * hopSec
      {
        var confidence := Max(merged[last].confidence, note.confidence);
        merged := merged[last := merged[last].(offset := note.offset, confidence := confidence)];
      } else {
        merged := merged + [note];
      }
    }
  }

  /** Discards notes that are too short. */
  method KeepLong(merged: seq<NoteEvent>, minNoteSec: real) returns (result: seq<NoteEvent>)
    ensures result == Kept(merged, minNoteSec)
  {
    result := [];
    for i := 0 to |merged|
      invariant result == Kept(merged[..i], minNoteSec)
    {
      assert merged[..i + 1][..i] == merged[..i];
      if merged[i].offset - merged[i].onset >= minNoteSec { result := result + [merged[i]]; }
    }
    assert merged[..|merged|] == merged;
  }

  /** Feeds the samples hop by hop and coalesces the frames into notes. */
  method CoalesceFrames(
    detect: seq<real> -> PitchResult, samples: seq<real>, w: nat, hop: nat, confidence: real, hopSec: real)
    returns (notes: seq<NoteEvent>)
    requires 0 < hop <= w
    ensures var f := Frames(detect, samples, w, hop); notes == NotesOf(Runs(f, confidence, |f|), hopSec)
  {
    hide WindowCount, AllAnalyses, Returned, Padded, Runs, NotesOf, Tracks;
    var stream := new YinStream<PitchResult>(w, hop, detect);
    var tracker := new NoteTracker(confidence, hopSec);
    var frameIndex := 0;
    var offset := 0;
    NoFrames(detect, w, hop);
    while offset < |samples|
      invariant fresh(stream) && stream.Valid() && fresh(tracker) && tracker.Valid()
      invariant stream.history == samples[..Least(offset, |samples|)]
      invariant frameIndex == |tracker.frames|
      invariant tracker.frames == AllAnalyses(detect, stream.history, w, hop)
    {
      hide YinStream.Valid, NoteTracker.Valid;
      var n := Least(hop, |samples| - offset);
      var piece := samples[offset..offset + n];
      HopKeepsAll(detect, stream.history, piece, w, hop);
      assert samples[..offset] + piece == samples[..offset + n];
      var result := stream.Process(piece);
      if result.Some? {
        tracker.Feed(result.value, frameIndex as real * hopSec);
        frameIndex := frameIndex + 1;
      }
      offset := offset + hop;
    }
    assert samples[..|samples|] == samples;
    var result := stream.Finish();
    if result.Some? { tracker.Feed(result.value, frameIndex as real * hopSec); }
    assert tracker.frames == Frames(detect, samples, w, hop);
    TracksAll(tracker.frames, confidence, hopSec, tracker.notes, tracker.current, tracker.active);
    tracker.CloseNote();
    notes := tracker.notes;
  }

  /** Runs the detector over the samples. None is the exception thrown when a stream cannot advance. */
  method RunDetector(
    detect: seq<real> -> PitchResult, samples: seq<real>, sampleRate: int, opts: Options)
    returns (r: Option<seq<NoteEvent>>)
    requires sampleRate > 0
    ensures r.Some? <==> 0 < opts.hopSize <= opts.windowSize
    ensures r.Some? ==>
              NotesHeard(Frames(detect, samples, opts.windowSize, opts.hopSize), opts.confidence,
                         opts.hopSize as real / sampleRate as real, opts.minNoteSec, r.value)
  {
    hide Segments, Frames, Runs, Merged, Kept, NotesOf;
    if opts.windowSize == 0 || opts.hopSize == 0 || opts.hopSize > opts.windowSize { return None; }
    var hopSec := opts.hopSize as real / sampleRate as real;
    ghost var f := Frames(detect, samples, opts.windowSize, opts.hopSize);
    ghost var runs := Runs(f, opts.confidence, |f|);
    var notes := CoalesceFrames(detect, samples, opts.windowSize, opts.hopSize, opts.confidence, hopSec);
    var merged := MergeNotes(notes, hopSec, runs);
    var kept := KeepLong(merged, opts.minNoteSec);
    RunsSegment(f, opts.confidence, |f|);
    MergedSegment(f, opts.confidence, |f|, runs);
    r := Some(kept);
  }

  lemma NoFrames(detect: seq<real> -> PitchResult, w: nat, h: nat)
    requires 0 < h <= w
    ensures AllAnalyses(detect, [], w, h) == []
  {}

  function Least(a: nat, b: nat): nat { if b < a then b else a }

  /** The frames determine the notes the detector reports. */
  lemma NotesHeardUnique(
    f: seq<PitchResult>, c: real, hop: real, minNoteSec: real, r: seq<NoteEvent>, s: seq<NoteEvent>)
    requires NotesHeard(f, c, hop, minNoteSec, r) && NotesHeard(f, c, hop, minNoteSec, s)
    ensures r == s
  {
    hide Segments;
    var p: seq<Span> :| Segments(f, c, |f|, 1, p) && r == Kept(NotesOf(p, hop), minNoteSec);
    var q: seq<Span> :| Segments(f, c, |f|, 1, q) && s == Kept(NotesOf(q, hop), minNoteSec);
    SegmentationUnique(f, c, |f|, 1, p, q);
  }

  /** The note of a span starts and ends one hop after the start of its first and of its last frame. */
  ghost predicate IsNoteOf(n: NoteEvent, s: Span, hop: real) {
    && n.onset == (s.first + 1) as real * hop && n.offset == (s.last + 1) as real * hop
    && n.midiPitch == s.pitch && n.confidence == s.confidence
  }

  /** Main result: the notes reported are those of the bridged segmentation that are long enough. */
  lemma NoteTimes(f: seq<PitchResult>, c: real, hop: real, minNoteSec: real, notes: seq<NoteEvent>)
    returns (spans: seq<Span>)
    requires NotesHeard(f, c, hop, minNoteSec, notes)
    ensures Segments(f, c, |f|, 1, spans)
    ensures forall n :: n in notes <==>
              (exists i :: 0 <= i < |spans| && IsNoteOf(n, spans[i], hop)) && n.offset - n.onset >= minNoteSec
  {
    hide Segments, NotesOf, Kept, IsNoteOf;
    spans :| Segments(f, c, |f|, 1, spans) && notes == Kept(NotesOf(spans, hop), minNoteSec);
    var all := NotesOf(spans, hop);
    forall n: NoteEvent ensures n in all <==> exists i :: 0 <= i < |spans| && IsNoteOf(n, spans[i], hop) {
      AmongNotes(spans, hop, n);
    }
  }

  lemma {:induction false} AmongNotes(spans: seq<Span>, hop: real, n: NoteEvent)
    ensures n in NotesOf(spans, hop) <==> exists i :: 0 <= i < |spans| && IsNoteOf(n, spans[i], hop)
  {
    hide NotesOf, IsNoteOf, NoteOf;
    var all := NotesOf(spans, hop);
    if n in all {
      var i :| 0 <= i < |all| && all[i] == n;
      SameNote(n, spans[i], hop);
    }
    if i :| 0 <= i < |spans| && IsNoteOf(n, spans[i], hop) {
      SameNote(n, spans[i], hop);
      assert all[i] == n;
    }
  }

  lemma SameNote(n: NoteEvent, s: Span, hop: real)
    ensures IsNoteOf(n, s, hop) <==> n == NoteOf(s, hop)
  {}

  // ----- The notes do not overlap ---------------------------------------------------------------

  ghost predicate HopApart(hop: real, notes: seq<NoteEvent>) {
    forall i, j :: 0 <= i < j < |notes| ==> notes[j].onset - notes[i].offset >= hop
  }

  lemma {:induction false} KeptApartToo(hop: real, notes: seq<NoteEvent>, minNoteSec: real)
    requires HopApart(hop, notes)
    ensures HopApart(hop, Kept(notes, minNoteSec))
    decreases |notes|
  {
    if notes != [] {
      var front, last := notes[..|notes| - 1], notes[|notes| - 1];
      KeptApartToo(hop, front, minNoteSec);
      forall n | n in Kept(front, minNoteSec)
        ensures last.onset - n.offset >= hop
      {
        var i :| 0 <= i < |front| && front[i] == n;
        assert notes[i] == n;
      }
    }
  }

  lemma {:induction false} SpansApart(n: nat, spans: seq<Span>, hop: real)
    requires hop > 0.0 && Ordered(n, spans)
    ensures HopApart(hop, NotesOf(spans, hop))
    ensures forall i :: 0 <= i < |spans| ==> NotesOf(spans, hop)[i].offset >= NotesOf(spans, hop)[i].onset
  {
    hide Time;
    var notes := NotesOf(spans, hop);
    forall i, j | 0 <= i < j < |notes|
      ensures notes[j].onset - notes[i].offset >= hop
    {
      TimeGap(spans[i].last + 1, spans[j].first + 1, hop);
    }
    forall i | 0 <= i < |notes|
      ensures notes[i].offset >= notes[i].onset
    {
      TimeGap(spans[i].first + 1, spans[i].last + 1, hop);
    }
  }

  /** The notes reported are in order, at least one hop apart, and long enough. */
  lemma NotesHeardApart(f: seq<PitchResult>, c: real, hop: real, minNoteSec: real, r: seq<NoteEvent>)
    requires hop > 0.0 && NotesHeard(f, c, hop, minNoteSec, r)
    ensures HopApart(hop, r)
    ensures forall n :: n in r ==> n.offset - n.onset >= minNoteSec && n.offset >= n.onset
  {
    hide Segments, HopApart, NotesOf;
    var p: seq<Span> :| Segments(f, c, |f|, 1, p) && r == Kept(NotesOf(p, hop), minNoteSec);
    InRange(f, c, |f|, 1, p);
    SpansApart(|f|, p, hop);
    KeptApartToo(hop, NotesOf(p, hop), minNoteSec);
  }
}
