/** What the notes of a sequence of analysed frames are, in frame indices: consecutive confident
    frames of one pitch coalesce, and runs of one pitch that a single dropped frame separates are
    fused. There is exactly one such segmentation, and fusing run after run finds it. */
module Segmentation {
  import opened ScoringTypes

  datatype PitchResult = PitchResult(pitch: int, confidence: real)

  /** A note in frame indices, from its first frame to its last. */
  datatype Span = Span(first: nat, last: nat, pitch: int, confidence: real) {
    predicate Holds(k: nat) { first <= k <= last }
  }

  // ----- Specification in frame indices -------------------------------------------------------

  predicate Voiced(f: seq<PitchResult>, c: real, k: int) {
    0 <= k < |f| && f[k].pitch >= 0 && f[k].confidence >= c
  }

  /** One of the frames k..k+slack is voiced. */
  ghost predicate Bridged(f: seq<PitchResult>, c: real, slack: nat, k: int) {
    exists j :: k <= j <= k + slack && Voiced(f, c, j)
  }

  /** The span starts and ends with a voiced frame, all its voiced frames have its pitch, and no
      more than `slack` frames in a row are unvoiced. */
  ghost predicate Sounds(f: seq<PitchResult>, c: real, slack: nat, s: Span) {
    && s.first <= s.last && Voiced(f, c, s.first) && Voiced(f, c, s.last)
    && (forall k :: s.first <= k <= s.last && Voiced(f, c, k) ==> f[k].pitch == s.pitch)
    && (forall k :: s.first <= k <= s.last - slack ==> Bridged(f, c, slack, k))
  }

  /** The span's confidence is the best of its voiced frames. */
  ghost predicate BestConfidence(f: seq<PitchResult>, c: real, s: Span) {
    && (forall k :: s.first <= k <= s.last && Voiced(f, c, k) ==> f[k].confidence <= s.confidence)
    && (exists k :: s.first <= k <= s.last && Voiced(f, c, k) && f[k].confidence == s.confidence)
  }

  ghost predicate Covers(spans: seq<Span>, k: nat) {
    exists i :: 0 <= i < |spans| && spans[i].first <= k <= spans[i].last
  }

  /** Neighbours of one pitch are further apart than `slack` dropped frames. */
  predicate Apart(slack: nat, s: Span, t: Span) {
    s.pitch == t.pitch ==> t.first - s.last > slack + 1
  }

  /** The spans follow one another within the first `n` frames. */
  predicate Ordered(n: nat, spans: seq<Span>) {
    && (forall i :: 0 <= i < |spans| ==> spans[i].first <= spans[i].last < n)
    && (forall i, j :: 0 <= i < j < |spans| ==> spans[i].last < spans[j].first)
  }

  ghost predicate Faithful(f: seq<PitchResult>, c: real, slack: nat, spans: seq<Span>) {
    forall i :: 0 <= i < |spans| ==> Sounds(f, c, slack, spans[i]) && BestConfidence(f, c, spans[i])
  }

  ghost predicate Separate(slack: nat, spans: seq<Span>) {
    forall i, j :: 0 <= i && j == i + 1 && j < |spans| ==> Apart(slack, spans[i], spans[j])
  }

  ghost predicate Complete(f: seq<PitchResult>, c: real, n: nat, spans: seq<Span>) {
    forall k :: 0 <= k < n && Voiced(f, c, k) ==> Covers(spans, k)
  }

  /** The spans are the notes of the first `n` frames: they sound, follow one another, take in every
      voiced frame, and none could be joined with the next. */
  ghost predicate Segments(f: seq<PitchResult>, c: real, n: nat, slack: nat, spans: seq<Span>) {
    n <= |f| && Ordered(n, spans) && Faithful(f, c, slack, spans) && Separate(slack, spans) && Complete(f, c, n, spans)
  }

  // ----- There is only one segmentation --------------------------------------------------------

  lemma SpanAt(f: seq<PitchResult>, c: real, n: nat, slack: nat, s: seq<Span>, i: nat)
    requires Segments(f, c, n, slack, s) && i < |s|
    ensures s[i].first <= s[i].last < n && Sounds(f, c, slack, s[i]) && BestConfidence(f, c, s[i])
  {
    hide Sounds, BestConfidence, Separate, Complete;
  }

  lemma VoicedAt(f: seq<PitchResult>, c: real, slack: nat, s: Span)
    requires Sounds(f, c, slack, s)
    ensures Voiced(f, c, s.first) && Voiced(f, c, s.last) && f[s.first].pitch == s.pitch == f[s.last].pitch
  {}

  lemma PitchAt(f: seq<PitchResult>, c: real, slack: nat, s: Span, k: nat)
    requires Sounds(f, c, slack, s) && s.first <= k <= s.last && Voiced(f, c, k)
    ensures f[k].pitch == s.pitch
  {}

  /** The spans before `i` do not reach the voiced frame `k`, so span `i` starts no later. */
  lemma CoveredFrom(f: seq<PitchResult>, c: real, n: nat, slack: nat, t: seq<Span>, i: nat, k: nat)
    requires Segments(f, c, n, slack, t) && i <= |t| && (i > 0 ==> t[i - 1].last < k < n)
    requires k < n && Voiced(f, c, k)
    ensures i < |t| && t[i].first <= k
  {
    hide Faithful, Separate, Voiced;
    assert Covers(t, k);
    var j :| 0 <= j < |t| && t[j].first <= k <= t[j].last;
  }

  lemma InOrder(f: seq<PitchResult>, c: real, n: nat, slack: nat, s: seq<Span>, i: nat, j: nat)
    requires Segments(f, c, n, slack, s) && i < j < |s|
    ensures s[i].last < s[j].first
  {
    hide Faithful, Separate, Complete;
  }

  lemma KeptApart(f: seq<PitchResult>, c: real, n: nat, slack: nat, s: seq<Span>, i: nat)
    requires Segments(f, c, n, slack, s) && i + 1 < |s|
    ensures Apart(slack, s[i], s[i + 1])
  {
    hide Faithful, Complete, Apart;
  }

  lemma FirstLe(f: seq<PitchResult>, c: real, n: nat, slack: nat, s: seq<Span>, t: seq<Span>, i: nat)
    requires Segments(f, c, n, slack, s) && Segments(f, c, n, slack, t)
    requires i < |s| && i <= |t| && s[..i] == t[..i]
    ensures i < |t| && t[i].first <= s[i].first
  {
    hide *;
    SpanAt(f, c, n, slack, s, i);
    VoicedAt(f, c, slack, s[i]);
    if i > 0 {
      assert s[i - 1] == s[..i][i - 1] == t[..i][i - 1] == t[i - 1];
      InOrder(f, c, n, slack, s, i - 1, i);
    }
    CoveredFrom(f, c, n, slack, t, i, s[i].first);
  }

  /** A span's successor starts no later than the next voiced frame. */
  lemma NextStarts(f: seq<PitchResult>, c: real, n: nat, slack: nat, s: seq<Span>, i: nat, j: nat)
    requires Segments(f, c, n, slack, s) && i < |s| && s[i].last < j < n && Voiced(f, c, j)
    ensures i + 1 < |s| && s[i].last < s[i + 1].first <= j
    ensures Apart(slack, s[i], s[i + 1])
  {
    hide *;
    CoveredFrom(f, c, n, slack, s, i + 1, j);
    InOrder(f, c, n, slack, s, i, i + 1);
    KeptApart(f, c, n, slack, s, i);
  }

  /** A span has a voiced frame among the next slack + 1 after each of its frames but the last. */
  lemma NextVoiced(f: seq<PitchResult>, c: real, slack: nat, s: Span, k: nat) returns (j: nat)
    requires Sounds(f, c, slack, s) && s.first <= k <= s.last
    ensures k <= j <= k + slack && j <= s.last && Voiced(f, c, j) && f[j].pitch == s.pitch
  {
    j := s.last;
    if k <= s.last - slack {
      assert Bridged(f, c, slack, k);
      j :| k <= j <= k + slack && Voiced(f, c, j);
    }
  }

  lemma StillApart(slack: nat, s: Span, t: Span)
    requires Apart(slack, s, t) && s.pitch == t.pitch
    ensures t.first - s.last > slack + 1
  {}

  lemma LastLe(f: seq<PitchResult>, c: real, n: nat, slack: nat, s: seq<Span>, t: seq<Span>, i: nat)
    requires Segments(f, c, n, slack, s) && Segments(f, c, n, slack, t)
    requires i < |s| && i < |t| && s[i].first == t[i].first
    ensures t[i].last <= s[i].last
  {
    hide *;
    SpanAt(f, c, n, slack, s, i);
    SpanAt(f, c, n, slack, t, i);
    VoicedAt(f, c, slack, s[i]);
    VoicedAt(f, c, slack, t[i]);
    if s[i].last < t[i].last {
      var j := NextVoiced(f, c, slack, t[i], s[i].last + 1);
      NextStarts(f, c, n, slack, s, i, j);
      SpanAt(f, c, n, slack, s, i + 1);
      VoicedAt(f, c, slack, s[i + 1]);
      PitchAt(f, c, slack, t[i], s[i + 1].first);
      StillApart(slack, s[i], s[i + 1]);
    }
  }

  lemma SameConfidence(f: seq<PitchResult>, c: real, s: Span, t: Span)
    requires s.first == t.first && s.last == t.last && BestConfidence(f, c, s) && BestConfidence(f, c, t)
    ensures s.confidence == t.confidence
  {}

  lemma SameSpan(f: seq<PitchResult>, c: real, n: nat, slack: nat, s: seq<Span>, t: seq<Span>, i: nat)
    requires Segments(f, c, n, slack, s) && Segments(f, c, n, slack, t)
    requires i < |s| && i <= |t| && s[..i] == t[..i]
    ensures i < |t| && s[i] == t[i]
  {
    hide *;
    FirstLe(f, c, n, slack, s, t, i);
    FirstLe(f, c, n, slack, t, s, i);
    LastLe(f, c, n, slack, s, t, i);
    LastLe(f, c, n, slack, t, s, i);
    SpanAt(f, c, n, slack, s, i);
    SpanAt(f, c, n, slack, t, i);
    VoicedAt(f, c, slack, s[i]);
    VoicedAt(f, c, slack, t[i]);
    SameConfidence(f, c, s[i], t[i]);
  }

  lemma {:induction false} SamePrefix(
    f: seq<PitchResult>, c: real, n: nat, slack: nat, s: seq<Span>, t: seq<Span>, i: nat)
    requires Segments(f, c, n, slack, s) && Segments(f, c, n, slack, t) && i <= |s|
    ensures i <= |t| && s[..i] == t[..i]
    decreases i
  {
    hide *;
    if i > 0 {
      SamePrefix(f, c, n, slack, s, t, i - 1);
      SameSpan(f, c, n, slack, s, t, i - 1);
    }
  }

  /** Main result: the frames determine the notes. */
  lemma SegmentationUnique(f: seq<PitchResult>, c: real, n: nat, slack: nat, s: seq<Span>, t: seq<Span>)
    requires Segments(f, c, n, slack, s) && Segments(f, c, n, slack, t)
    ensures s == t
  {
    hide *;
    SamePrefix(f, c, n, slack, s, t, |s|);
    SamePrefix(f, c, n, slack, t, s, |t|);
    assert s[..|s|] == s && t[..|t|] == t;
  }

  // ----- Joining one span after another --------------------------------------------------------

  /** Fuses the span with the last one when both have one pitch and at most `slack` frames lie
      between, and appends it otherwise. */
  function Joined(slack: nat, spans: seq<Span>, s: Span): seq<Span> {
    if spans != [] && spans[|spans| - 1].pitch == s.pitch && s.first - spans[|spans| - 1].last <= slack + 1 then
      var back := spans[|spans| - 1];
      spans[..|spans| - 1] + [back.(last := s.last, confidence := Max(back.confidence, s.confidence))]
    else
      spans + [s]
  }

  /** What joining leaves to prove: where the span lies after the frames already segmented. */
  ghost predicate Follows(f: seq<PitchResult>, c: real, n: nat, s: Span) {
    && n <= s.first && s.last < |f|
    && Sounds(f, c, 0, s) && BestConfidence(f, c, s)
    && (forall k :: n <= k < s.first ==> !Voiced(f, c, k))
  }

  lemma AllVoiced(f: seq<PitchResult>, c: real, s: Span, k: int)
    requires Sounds(f, c, 0, s) && s.first <= k <= s.last
    ensures Voiced(f, c, k)
  {
    assert Bridged(f, c, 0, k);
  }

  lemma JoinedConfidence(f: seq<PitchResult>, c: real, s: Span, t: Span, u: Span)
    requires BestConfidence(f, c, s) && BestConfidence(f, c, t)
    requires s.first <= s.last < t.first <= t.last
    requires forall k :: s.last < k < t.first ==> !Voiced(f, c, k)
    requires u.first == s.first && u.last == t.last && u.confidence == Max(s.confidence, t.confidence)
    ensures BestConfidence(f, c, u)
  {
    var i :| s.first <= i <= s.last && Voiced(f, c, i) && f[i].confidence == s.confidence;
    var j :| t.first <= j <= t.last && Voiced(f, c, j) && f[j].confidence == t.confidence;
  }

  lemma JoinedSounds(f: seq<PitchResult>, c: real, slack: nat, s: Span, t: Span, u: Span)
    requires Sounds(f, c, slack, s) && Sounds(f, c, 0, t) && s.pitch == t.pitch == u.pitch
    requires s.last < t.first <= s.last + slack + 1
    requires forall k :: s.last < k < t.first ==> !Voiced(f, c, k)
    requires u.first == s.first && u.last == t.last
    ensures Sounds(f, c, slack, u)
  {
    forall k | u.first <= k <= u.last - slack
      ensures Bridged(f, c, slack, k)
    {
      if k > s.last - slack {
        if k <= s.last {
          assert Voiced(f, c, s.last);
        } else if k < t.first {
          assert Voiced(f, c, t.first);
        } else {
          AllVoiced(f, c, t, k);
        }
      }
    }
  }

  lemma WiderSlack(f: seq<PitchResult>, c: real, slack: nat, s: Span)
    requires Sounds(f, c, 0, s)
    ensures Sounds(f, c, slack, s)
  {
    forall k | s.first <= k <= s.last - slack
      ensures Bridged(f, c, slack, k)
    {
      AllVoiced(f, c, s, k);
    }
  }

  lemma CoversMore(s: seq<Span>, t: seq<Span>, k: nat)
    requires Covers(s, k) && |s| <= |t|
    requires forall i :: 0 <= i < |s| ==> t[i].first == s[i].first && t[i].last >= s[i].last
    ensures Covers(t, k)
  {
    var i :| 0 <= i < |s| && s[i].first <= k <= s[i].last;
    assert t[i].first <= k <= t[i].last;
  }

  lemma CompleteAfter(f: seq<PitchResult>, c: real, n: nat, s: seq<Span>, t: seq<Span>, r: Span)
    requires Complete(f, c, n, s)
    requires |s| <= |t| && forall i :: 0 <= i < |s| ==> t[i].first == s[i].first && t[i].last >= s[i].last
    requires t != [] && t[|t| - 1].first <= r.first && t[|t| - 1].last == r.last
    requires forall k :: n <= k < r.first ==> !Voiced(f, c, k)
    ensures Complete(f, c, r.last + 1, t)
  {
    hide Voiced;
    forall k | 0 <= k < r.last + 1 && Voiced(f, c, k)
      ensures Covers(t, k)
    {
      if k < n { CoversMore(s, t, k); } else { assert t[|t| - 1].first <= k <= t[|t| - 1].last; }
    }
  }

  lemma NoneCovers(n: nat, spans: seq<Span>, k: nat)
    requires Ordered(n, spans) && spans != [] && Covers(spans, k)
    ensures k <= spans[|spans| - 1].last
  {
    var i :| 0 <= i < |spans| && spans[i].first <= k <= spans[i].last;
  }

  lemma SilentAfter(f: seq<PitchResult>, c: real, n: nat, spans: seq<Span>, s: Span)
    requires n <= |f| && Ordered(n, spans) && Complete(f, c, n, spans) && Follows(f, c, n, s) && spans != []
    ensures forall k :: spans[|spans| - 1].last < k < s.first ==> !Voiced(f, c, k)
    ensures spans[|spans| - 1].last < s.first <= s.last
  {
    hide Voiced, Bridged, BestConfidence, Covers;
    forall k | spans[|spans| - 1].last < k < s.first
      ensures !Voiced(f, c, k)
    {
      if k < n && Covers(spans, k) { NoneCovers(n, spans, k); }
    }
  }

  lemma StartsBefore(f: seq<PitchResult>, c: real, s: Span)
    requires Sounds(f, c, 0, s)
    ensures s.first <= s.last
  {}

  lemma AppendKeeps(f: seq<PitchResult>, c: real, n: nat, slack: nat, spans: seq<Span>, s: Span)
    requires Segments(f, c, n, slack, spans) && Follows(f, c, n, s)
    requires spans == [] || Apart(slack, spans[|spans| - 1], s)
    ensures Segments(f, c, s.last + 1, slack, spans + [s])
  {
    hide Sounds, BestConfidence, Complete, Voiced, Apart;
    StartsBefore(f, c, s);
    if spans != [] { SilentAfter(f, c, n, spans, s); }
    WiderSlack(f, c, slack, s);
    CompleteAfter(f, c, n, spans, spans + [s], s);
  }

  lemma FuseKeeps(f: seq<PitchResult>, c: real, n: nat, slack: nat, spans: seq<Span>, s: Span, u: Span)
    requires Segments(f, c, n, slack, spans) && Follows(f, c, n, s) && spans != []
    requires var back := spans[|spans| - 1];
             && back.pitch == s.pitch && s.first - back.last <= slack + 1
             && u == back.(last := s.last, confidence := Max(back.confidence, s.confidence))
    ensures Segments(f, c, s.last + 1, slack, spans[..|spans| - 1] + [u])
  {
    hide Sounds, BestConfidence, Complete, Voiced;
    var back := spans[|spans| - 1];
    SilentAfter(f, c, n, spans, s);
    JoinedConfidence(f, c, back, s, u);
    JoinedSounds(f, c, slack, back, s, u);
    CompleteAfter(f, c, n, spans, spans[..|spans| - 1] + [u], s);
  }

  lemma JoinedKeeps(f: seq<PitchResult>, c: real, n: nat, slack: nat, spans: seq<Span>, s: Span)
    requires Segments(f, c, n, slack, spans) && Follows(f, c, n, s)
    ensures Segments(f, c, s.last + 1, slack, Joined(slack, spans, s))
  {
    hide Segments, Follows;
    if spans != [] && spans[|spans| - 1].pitch == s.pitch && s.first - spans[|spans| - 1].last <= slack + 1 {
      var back := spans[|spans| - 1];
      FuseKeeps(f, c, n, slack, spans, s, back.(last := s.last, confidence := Max(back.confidence, s.confidence)));
    } else {
      AppendKeeps(f, c, n, slack, spans, s);
    }
  }

  // ----- The runs, and the notes they fuse into -------------------------------------------------

  function FrameSpan(f: seq<PitchResult>, k: nat): Span
    requires k < |f|
  {
    Span(k, k, f[k].pitch, f[k].confidence)
  }

  /** The notes among the first `n` frames, joining one voiced frame after another. */
  function Spans(f: seq<PitchResult>, c: real, slack: nat, n: nat): seq<Span>
    requires n <= |f|
  {
    if n == 0 then []
    else if Voiced(f, c, n - 1) then Joined(slack, Spans(f, c, slack, n - 1), FrameSpan(f, n - 1))
    else Spans(f, c, slack, n - 1)
  }

  /** The runs of voiced frames of one pitch, among the first `n` frames. */
  function Runs(f: seq<PitchResult>, c: real, n: nat): seq<Span>
    requires n <= |f|
  {
    Spans(f, c, 0, n)
  }

  /** The first `k` runs, fused over single dropped frames. */
  function Merged(runs: seq<Span>, k: nat): seq<Span>
    requires k <= |runs|
  {
    if k == 0 then [] else Joined(1, Merged(runs, k - 1), runs[k - 1])
  }

  lemma SilenceKeeps(f: seq<PitchResult>, c: real, n: nat, m: nat, slack: nat, spans: seq<Span>)
    requires Segments(f, c, n, slack, spans) && n <= m <= |f|
    requires forall k :: n <= k < m ==> !Voiced(f, c, k)
    ensures Segments(f, c, m, slack, spans)
  {
    hide Faithful, Separate, Voiced, Covers;
  }

  lemma EmptySegments(f: seq<PitchResult>, c: real, slack: nat)
    ensures Segments(f, c, 0, slack, [])
  {}

  lemma FrameFollows(f: seq<PitchResult>, c: real, n: nat)
    requires n < |f| && Voiced(f, c, n)
    ensures Follows(f, c, n, FrameSpan(f, n))
  {}

  /** Main result: for every slack there is a segmentation, and joining frame by frame finds it. */
  lemma {:induction false} SpansSegment(f: seq<PitchResult>, c: real, slack: nat, n: nat)
    requires n <= |f|
    ensures Segments(f, c, n, slack, Spans(f, c, slack, n))
    decreases n
  {
    hide Segments, Follows, Joined, Voiced;
    if n == 0 {
      EmptySegments(f, c, slack);
    } else {
      SpansSegment(f, c, slack, n - 1);
      if Voiced(f, c, n - 1) {
        FrameFollows(f, c, n - 1);
        JoinedKeeps(f, c, n - 1, slack, Spans(f, c, slack, n - 1), FrameSpan(f, n - 1));
      } else {
        SilenceKeeps(f, c, n - 1, n, slack, Spans(f, c, slack, n - 1));
      }
    }
  }

  lemma RunsSegment(f: seq<PitchResult>, c: real, n: nat)
    requires n <= |f|
    ensures Segments(f, c, n, 0, Runs(f, c, n))
  {
    hide Segments, Spans;
    SpansSegment(f, c, 0, n);
  }

  /** The end of the first `k` spans. */
  function End(spans: seq<Span>, k: nat): nat
    requires k <= |spans|
  {
    if k == 0 then 0 else spans[k - 1].last + 1
  }

  /** Between two successive spans every frame is unvoiced. */
  lemma SilentBetween(f: seq<PitchResult>, c: real, n: nat, slack: nat, s: seq<Span>, i: nat, k: nat)
    requires Segments(f, c, n, slack, s) && i <= |s| && End(s, i) <= k < n && (i < |s| ==> k < s[i].first)
    ensures !Voiced(f, c, k)
  {
    hide *;
    if Voiced(f, c, k) { CoveredFromEnd(f, c, n, slack, s, i, k); }
  }

  lemma CoveredFromEnd(f: seq<PitchResult>, c: real, n: nat, slack: nat, s: seq<Span>, i: nat, k: nat)
    requires Segments(f, c, n, slack, s) && i <= |s| && End(s, i) <= k < n && Voiced(f, c, k)
    ensures i < |s| && s[i].first <= k
  {
    hide Segments, Voiced;
    CoveredFrom(f, c, n, slack, s, i, k);
  }

  lemma RunFollows(f: seq<PitchResult>, c: real, n: nat, runs: seq<Span>, k: nat)
    requires Segments(f, c, n, 0, runs) && k < |runs|
    ensures Follows(f, c, End(runs, k), runs[k])
  {
    hide Segments, Sounds, BestConfidence, Voiced;
    SpanAt(f, c, n, 0, runs, k);
    InRange(f, c, n, 0, runs);
    if k > 0 { InOrder(f, c, n, 0, runs, k - 1, k); }
    forall i | End(runs, k) <= i < runs[k].first
      ensures !Voiced(f, c, i)
    {
      SilentBetween(f, c, n, 0, runs, k, i);
    }
  }

  lemma InRange(f: seq<PitchResult>, c: real, n: nat, slack: nat, spans: seq<Span>)
    requires Segments(f, c, n, slack, spans)
    ensures n <= |f| && Ordered(n, spans)
  {}

  lemma {:induction false} MergedPrefix(f: seq<PitchResult>, c: real, n: nat, runs: seq<Span>, k: nat)
    requires Segments(f, c, n, 0, runs) && k <= |runs|
    ensures Segments(f, c, End(runs, k), 1, Merged(runs, k))
    decreases k
  {
    hide Segments, Follows, Joined, Voiced;
    if k == 0 {
      EmptySegments(f, c, 1);
    } else {
      MergedPrefix(f, c, n, runs, k - 1);
      RunFollows(f, c, n, runs, k - 1);
      JoinedKeeps(f, c, End(runs, k - 1), 1, Merged(runs, k - 1), runs[k - 1]);
    }
  }

  /** Main result: fusing the runs gives the notes that bridge single dropped frames. */
  lemma {:induction false} MergedSegment(f: seq<PitchResult>, c: real, n: nat, runs: seq<Span>)
    requires Segments(f, c, n, 0, runs)
    ensures Segments(f, c, n, 1, Merged(runs, |runs|))
  {
    hide Segments, Merged, Voiced;
    MergedPrefix(f, c, n, runs, |runs|);
    InRange(f, c, n, 0, runs);
    forall k | End(runs, |runs|) <= k < n
      ensures !Voiced(f, c, k)
    {
      SilentBetween(f, c, n, 0, runs, |runs|, k);
    }
    SilenceKeeps(f, c, End(runs, |runs|), n, 1, Merged(runs, |runs|));
  }

  /** Fusing the runs in a second pass gives what bridging single dropped frames in the first would. */
  lemma {:induction false} TwoPassesAreOne(f: seq<PitchResult>, c: real)
    ensures Merged(Runs(f, c, |f|), |Runs(f, c, |f|)|) == Spans(f, c, 1, |f|)
  {
    hide Segments, Merged, Spans;
    SpansSegment(f, c, 0, |f|);
    SpansSegment(f, c, 1, |f|);
    MergedSegment(f, c, |f|, Runs(f, c, |f|));
    SegmentationUnique(f, c, |f|, 1, Merged(Runs(f, c, |f|), |Runs(f, c, |f|)|), Spans(f, c, 1, |f|));
  }

  // ----- When two runs are fused ----------------------------------------------------------------

  /** One of the notes holds both runs. */
  ghost predicate Fused(notes: seq<Span>, r: Span, s: Span) {
    exists i :: 0 <= i < |notes| && notes[i].first <= r.first <= s.last <= notes[i].last
  }

  lemma FusedOnlyOverOneFrame(f: seq<PitchResult>, c: real, n: nat, runs: seq<Span>, notes: seq<Span>, i: nat)
    requires Segments(f, c, n, 0, runs) && Segments(f, c, n, 1, notes) && i + 1 < |runs|
    requires Fused(notes, runs[i], runs[i + 1])
    ensures runs[i].pitch == runs[i + 1].pitch && runs[i + 1].first == runs[i].last + 2
  {
    hide Segments, Sounds, BestConfidence, Voiced;
    var r, s := runs[i], runs[i + 1];
    var t :| 0 <= t < |notes| && notes[t].first <= r.first <= s.last <= notes[t].last;
    SpanAt(f, c, n, 1, notes, t);
    SpanAt(f, c, n, 0, runs, i);
    SpanAt(f, c, n, 0, runs, i + 1);
    VoicedAt(f, c, 0, r);
    VoicedAt(f, c, 0, s);
    PitchAt(f, c, 1, notes[t], r.first);
    InOrder(f, c, n, 0, runs, i, i + 1);
    PitchAt(f, c, 1, notes[t], s.first);
    KeptApart(f, c, n, 0, runs, i);
    var j := NextVoiced(f, c, 1, notes[t], r.last + 1);
    if j < s.first { SilentBetween(f, c, n, 0, runs, i + 1, j); }
  }

  /** A span of the coarser segmentation that starts a finer span also takes it in. */
  lemma RunInside(f: seq<PitchResult>, c: real, n: nat, runs: seq<Span>, notes: seq<Span>, i: nat) returns (t: nat)
    requires Segments(f, c, n, 0, runs) && Segments(f, c, n, 1, notes) && i < |runs|
    ensures t < |notes| && notes[t].first <= runs[i].first <= runs[i].last <= notes[t].last
    ensures notes[t].pitch == runs[i].pitch
  {
    hide Segments, Sounds, BestConfidence, Voiced;
    var r := runs[i];
    SpanAt(f, c, n, 0, runs, i);
    VoicedAt(f, c, 0, r);
    t := CoveringSpan(f, c, n, 1, notes, r.first);
    SpanAt(f, c, n, 1, notes, t);
    PitchAt(f, c, 1, notes[t], r.first);
    if notes[t].last < r.last {
      VoicedInside(f, c, r, notes[t].last + 1);
      NextStarts(f, c, n, 1, notes, t, notes[t].last + 1);
      SpanAt(f, c, n, 1, notes, t + 1);
      VoicedAt(f, c, 1, notes[t + 1]);
    }
  }

  lemma VoicedInside(f: seq<PitchResult>, c: real, s: Span, k: nat)
    requires Sounds(f, c, 0, s) && s.first <= k <= s.last
    ensures Voiced(f, c, k) && f[k].pitch == s.pitch
  {
    hide Bridged;
    AllVoiced(f, c, s, k);
  }

  lemma CoveringSpan(f: seq<PitchResult>, c: real, n: nat, slack: nat, s: seq<Span>, k: nat) returns (i: nat)
    requires Segments(f, c, n, slack, s) && k < n && Voiced(f, c, k)
    ensures i < |s| && s[i].first <= k <= s[i].last
  {
    hide Ordered, Faithful, Separate, Voiced;
    assert Covers(s, k);
    i :| 0 <= i < |s| && s[i].first <= k <= s[i].last;
  }

  lemma FusedOverOneFrame(f: seq<PitchResult>, c: real, n: nat, runs: seq<Span>, notes: seq<Span>, i: nat)
    requires Segments(f, c, n, 0, runs) && Segments(f, c, n, 1, notes) && i + 1 < |runs|
    requires runs[i].pitch == runs[i + 1].pitch && runs[i + 1].first == runs[i].last + 2
    ensures Fused(notes, runs[i], runs[i + 1])
  {
    hide Segments, Sounds, BestConfidence, Voiced, Apart;
    var t := RunInside(f, c, n, runs, notes, i);
    var u := RunInside(f, c, n, runs, notes, i + 1);
    SpanAt(f, c, n, 1, notes, t);
    if notes[t].last < runs[i + 1].first {
      SpanAt(f, c, n, 0, runs, i + 1);
      VoicedAt(f, c, 0, runs[i + 1]);
      NextStarts(f, c, n, 1, notes, t, runs[i + 1].first);
      SpanAt(f, c, n, 1, notes, t + 1);
      VoicedAt(f, c, 1, notes[t + 1]);
      if notes[t + 1].first < runs[i + 1].first {
        SilentBetween(f, c, n, 0, runs, i + 1, notes[t + 1].first);
      }
      StillApart(1, notes[t], notes[t + 1]);
    }
    if t < u { InOrder(f, c, n, 1, notes, t, u); }
    if u < t { InOrder(f, c, n, 1, notes, u, t); }
  }

  /** Main result: two successive runs become one note exactly when they share a pitch and a single
      unvoiced frame separates them. */
  lemma FusedExactly(f: seq<PitchResult>, c: real, n: nat, runs: seq<Span>, notes: seq<Span>, i: nat)
    requires Segments(f, c, n, 0, runs) && Segments(f, c, n, 1, notes) && i + 1 < |runs|
    ensures Fused(notes, runs[i], runs[i + 1]) <==>
            runs[i].pitch == runs[i + 1].pitch && runs[i + 1].first == runs[i].last + 2
  {
    hide *;
    if Fused(notes, runs[i], runs[i + 1]) {
      FusedOnlyOverOneFrame(f, c, n, runs, notes, i);
    } else if runs[i].pitch == runs[i + 1].pitch && runs[i + 1].first == runs[i].last + 2 {
      FusedOverOneFrame(f, c, n, runs, notes, i);
    }
  }

  lemma HeardAs(f: seq<PitchResult>, c: real, slack: nat, s: Span, k: nat)
    requires Sounds(f, c, slack, s) && BestConfidence(f, c, s) && s.Holds(k) && Voiced(f, c, k)
    ensures s.pitch == f[k].pitch && s.confidence >= f[k].confidence
  {
    hide Bridged;
  }

  /** Frame `k` lies in exactly one span, which has its pitch and at least its confidence. */
  ghost predicate InOneSpan(f: seq<PitchResult>, spans: seq<Span>, k: nat)
    requires k < |f|
  {
    && (exists i :: 0 <= i < |spans| && spans[i].Holds(k))
    && (forall i, j :: 0 <= i < j < |spans| ==> !(spans[i].Holds(k) && spans[j].Holds(k)))
    && (forall i :: 0 <= i < |spans| && spans[i].Holds(k) ==>
          spans[i].pitch == f[k].pitch && spans[i].confidence >= f[k].confidence)
  }

  /** Main result: every frame with a pitch and enough confidence lies in exactly one note, a note of its
      own pitch. */
  lemma HeardOnce(f: seq<PitchResult>, c: real, n: nat, slack: nat, spans: seq<Span>, k: nat)
    requires k < n <= |f| && f[k].pitch >= 0 && f[k].confidence >= c && Segments(f, c, n, slack, spans)
    ensures InOneSpan(f, spans, k)
  {
    hide Segments, InOneSpan;
    VoicedOnce(f, c, n, slack, spans, k);
  }

  lemma VoicedOnce(f: seq<PitchResult>, c: real, n: nat, slack: nat, spans: seq<Span>, k: nat)
    requires k < n <= |f| && Voiced(f, c, k) && Segments(f, c, n, slack, spans)
    ensures InOneSpan(f, spans, k)
  {
    hide Segments, Sounds, BestConfidence, Voiced;
    InRange(f, c, n, slack, spans);
    var t := CoveringSpan(f, c, n, slack, spans, k);
    assert spans[t].Holds(k);
    forall i | 0 <= i < |spans| && spans[i].Holds(k)
      ensures spans[i].pitch == f[k].pitch && spans[i].confidence >= f[k].confidence
    {
      SpanAt(f, c, n, slack, spans, i);
      HeardAs(f, c, slack, spans[i], k);
    }
  }
}
