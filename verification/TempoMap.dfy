/** Beats to seconds under step and linear tempo curves. The natural logarithm of a
    linear ramp is a parameter; the facts about it that a result needs are named in
    its requires. */
module Tempo {
  import opened ScoringTypes
  import opened RealArith
  import StableSort

  datatype TempoCurve = STEP | LINEAR

  datatype PointFields = PointFields(atBeat: real, bpm: real, curve: TempoCurve)

  type TempoPoint = p: PointFields | p.atBeat >= 0.0 && p.bpm > 0.0 witness PointFields(0.0, 120.0, STEP)

  predicate PointLe(a: TempoPoint, b: TempoPoint) { a.atBeat <= b.atBeat }

  /** Two tempi closer than this are integrated as one constant tempo. */
  const NEAR_EQUAL_BPM := 0.000000000001

  datatype MapFields = MapFields(points: seq<TempoPoint>, ln: real -> real) {
    predicate Valid() {
      && points != []
      && points[0].atBeat == 0.0
      && forall i, j :: 0 <= i < j < |points| ==> points[i].atBeat < points[j].atBeat
    }

    predicate HasNext(i: nat) { i + 1 < |points| }

    /** The last entry at or before `beat`, searching from entry `i` on. */
    function LastEntryFrom(i: nat, beat: real): (r: nat)
      requires i < |points|
      ensures i <= r < |points|
      ensures points[i].atBeat <= beat ==> points[r].atBeat <= beat
      ensures HasNext(r) ==> beat < points[r + 1].atBeat
      decreases |points| - i
    {
      if HasNext(i) && points[i + 1].atBeat <= beat then LastEntryFrom(i + 1, beat) else i
    }

    function LastEntry(beat: real): (r: nat)
      requires points != []
      ensures r < |points|
      ensures points[0].atBeat <= beat ==> points[r].atBeat <= beat
      ensures HasNext(r) ==> beat < points[r + 1].atBeat
    {
      LastEntryFrom(0, beat)
    }

    /** Interpolated tempo inside the linear segment that starts at entry `i`. */
    function LinearBpmAt(i: nat, beat: real): real
      requires Valid() && HasNext(i)
    {
      var entry, next := points[i], points[i + 1];
      Lerp(entry.bpm, next.bpm, beat - entry.atBeat, next.atBeat - entry.atBeat)
    }

    function BpmAt(beat: real): (bpm: real)
      requires Valid()
      ensures bpm > 0.0
    {
      if beat <= points[0].atBeat then points[0].bpm
      else
        var i := LastEntry(beat);
        if HasNext(i) && points[i].curve == LINEAR then
          LinearBpmPositive(this, i, beat);
          LinearBpmAt(i, beat)
        else points[i].bpm
    }

    /** Seconds of a segment whose tempo ramps from `bpmA` to `bpmB`. */
    function BpmSeconds(start: real, end: real, bpmA: real, bpmB: real): real
      requires start < end && bpmA > 0.0 && bpmB > 0.0
    {
      if Abs(bpmB - bpmA) < NEAR_EQUAL_BPM then (end - start) * 60.0 / bpmA
      else
        var slope := (bpmB - bpmA) / (end - start);
        SlopeIsNotZero(start, end, bpmA, bpmB);
        60.0 / slope * ln(bpmB / bpmA)
    }

    /** Where entry `i` stops contributing to the time of `beat`. */
    function SegmentEnd(i: nat, beat: real): real
      requires i < |points|
    {
      if HasNext(i) then Min(beat, points[i + 1].atBeat) else beat
    }

    /** The part of the time of `beat` spent in the segment of entry `i`. */
    function SegmentSeconds(i: nat, beat: real): real
      requires Valid() && i < |points|
    {
      if beat <= points[i].atBeat then 0.0
      else
        var end := SegmentEnd(i, beat);
        if points[i].curve == LINEAR && HasNext(i) then
          LinearBpmPositive(this, i, end);
          BpmSeconds(points[i].atBeat, end, points[i].bpm, LinearBpmAt(i, end))
        else (end - points[i].atBeat) * 60.0 / points[i].bpm
    }

    function SegmentSum(n: nat, beat: real): real
      requires Valid() && n <= |points|
    {
      if n == 0 then 0.0 else SegmentSum(n - 1, beat) + SegmentSeconds(n - 1, beat)
    }

    /** Absolute seconds at `beat`: the sum over all segments. */
    function BeatToSeconds(beat: real): real
      requires Valid()
    {
      SegmentSum(|points|, beat)
    }
  }

  lemma SlopeIsNotZero(start: real, end: real, bpmA: real, bpmB: real)
    requires start < end && bpmA != bpmB
    ensures (bpmB - bpmA) / (end - start) != 0.0
  {
    assert (bpmB - bpmA) / (end - start) * (end - start) == bpmB - bpmA;
  }

  /** The value `x` of the way along a span from `p` to `q`. */
  function Lerp(p: real, q: real, x: real, span: real): real
    requires span > 0.0
  {
    p + x / span * (q - p)
  }

  lemma Blend(p: real, q: real, x: real, span: real)
    requires 0.0 <= x <= span && 0.0 < span
    ensures Min(p, q) <= Lerp(p, q, x, span) <= Max(p, q)
  {
    var f := x / span;
    DivMonotone(0.0, x, span);
    DivMonotone(x, span, span);
    Quotient(0.0, span, 0.0);
    Quotient(span, span, 1.0);
    assert p + f * (q - p) == q - (1.0 - f) * (q - p);
    if p <= q {
      MulNonNegative(f, q - p);
      MulNonNegative(1.0 - f, q - p);
    } else {
      MulNonNegative(f, p - q);
      MulNonNegative(1.0 - f, p - q);
    }
  }

  /** A ramp never leaves the range between its two tempi, which are positive. */
  lemma LinearBpmPositive(m: MapFields, i: nat, beat: real)
    requires m.Valid() && m.HasNext(i)
    requires m.points[i].atBeat <= beat <= m.points[i + 1].atBeat
    ensures var p, q := m.points[i].bpm, m.points[i + 1].bpm; Min(p, q) <= m.LinearBpmAt(i, beat) <= Max(p, q)
    ensures m.LinearBpmAt(i, beat) > 0.0
  {
    hide Lerp;
    var entry, next := m.points[i], m.points[i + 1];
    Blend(entry.bpm, next.bpm, beat - entry.atBeat, next.atBeat - entry.atBeat);
  }

  type TempoMap = m: MapFields | m.Valid() witness MapFields([PointFields(0.0, 120.0, STEP)], x => x)

  /** Sorts the entries by beat; refuses an empty list, a list that does not start at
      beat 0 and a list with two entries at one beat. */
  function MakeTempoMap(entries: seq<TempoPoint>, ln: real -> real): Option<TempoMap> {
    var m := MapFields(StableSort.Sort(PointLe, entries), ln);
    if m.Valid() then Some(m) else None
  }

  /** The entries of a map may be listed in any order. */
  lemma MapFromAnyOrder(m: TempoMap, entries: seq<TempoPoint>)
    requires multiset(entries) == multiset(m.points)
    ensures MakeTempoMap(entries, m.ln) == Some(m)
  {
    StableSort.SortCorrect(PointLe, entries);
    StableSort.SortedUnique(PointLe, m.points, StableSort.Sort(PointLe, entries));
  }

  /** A map is made of all the entries, or not at all. */
  lemma MapOfEntries(entries: seq<TempoPoint>, ln: real -> real)
    ensures var r := MakeTempoMap(entries, ln);
            r.Some? ==> r.value.ln == ln && multiset(r.value.points) == multiset(entries)
  {
    StableSort.SortCorrect(PointLe, entries);
  }

  function BeatOf(p: TempoPoint): real { p.atBeat }

  /** Main result: a map is made exactly of entries of which one is at beat 0 and no two are at one beat,
      in whatever order they come. */
  lemma MapAcceptedExactly(entries: seq<TempoPoint>, ln: real -> real)
    ensures MakeTempoMap(entries, ln).Some? <==>
              && (exists i :: 0 <= i < |entries| && entries[i].atBeat == 0.0)
              && (forall i, j :: 0 <= i < j < |entries| ==> entries[i].atBeat != entries[j].atBeat)
  {
    StableSort.SortCorrect(PointLe, entries);
    hide StableSort.Sort;
    if entries != [] {
      StableSort.DistinctKeys(PointLe, BeatOf, entries);
      StableSort.LeastFirst(PointLe, BeatOf, entries);
    }
  }

  /** The loop that finds the active entry. */
  method LastEntryAtOrBefore(m: TempoMap, beat: real) returns (index: nat)
    ensures index == m.LastEntry(beat)
  {
    index := 0;
    while index + 1 < |m.points| && m.points[index + 1].atBeat <= beat
      invariant index < |m.points|
      invariant m.LastEntryFrom(index, beat) == m.LastEntry(beat)
    {
      index := index + 1;
    }
  }

  lemma {:induction false} LaterSegmentsEmpty(m: TempoMap, k: nat, beat: real)
    requires k < |m.points| && beat <= m.points[k].atBeat
    ensures m.BeatToSeconds(beat) == m.SegmentSum(k, beat)
  {
    LaterSegmentsEmptyUpTo(m, k, |m.points|, beat);
  }

  lemma {:induction false} LaterSegmentsEmptyUpTo(m: TempoMap, k: nat, n: nat, beat: real)
    requires k <= n <= |m.points| && (k < |m.points| ==> beat <= m.points[k].atBeat)
    ensures m.SegmentSum(n, beat) == m.SegmentSum(k, beat)
  {
    if k < n {
      LaterSegmentsEmptyUpTo(m, k, n - 1, beat);
      assert beat <= m.points[n - 1].atBeat;
    }
  }

  lemma SegmentEnds(m: TempoMap, i: nat, beat: real)
    requires i < |m.points| && m.points[i].atBeat < beat
    ensures m.points[i].atBeat < m.SegmentEnd(i, beat)
    ensures m.HasNext(i) ==> m.LinearBpmAt(i, m.points[i].atBeat) == m.points[i].bpm
    ensures m.HasNext(i) ==> m.LinearBpmAt(i, m.SegmentEnd(i, beat)) > 0.0
  {
    if m.HasNext(i) {
      LinearBpmPositive(m, i, m.SegmentEnd(i, beat));
      Quotient(0.0, m.points[i + 1].atBeat - m.points[i].atBeat, 0.0);
    }
  }

  /** The integration loop: it stops at the first entry not before `beat`. */
  method BeatToSeconds(m: TempoMap, beat: real) returns (total: real)
    ensures total == m.BeatToSeconds(beat)
  {
    hide Lerp, MapFields.LinearBpmAt, MapFields.BpmSeconds;
    total := 0.0;
    if beat <= 0.0 {
      LaterSegmentsEmpty(m, 0, beat);
      return;
    }
    for index := 0 to |m.points|
      invariant total == m.SegmentSum(index, beat)
    {
      var entry := m.points[index];
      if beat <= entry.atBeat {
        LaterSegmentsEmpty(m, index, beat);
        break;
      }
      SegmentEnds(m, index, beat);
      var segmentStart := Max(0.0, entry.atBeat);
      var segmentEnd := m.SegmentEnd(index, beat);
      if segmentEnd <= segmentStart {
        assert false;
      } else if entry.curve == LINEAR && m.HasNext(index) {
        var bpmA := m.LinearBpmAt(index, segmentStart);
        var bpmB := m.LinearBpmAt(index, segmentEnd);
        total := total + m.BpmSeconds(segmentStart, segmentEnd, bpmA, bpmB);
      } else {
        total := total + (segmentEnd - segmentStart) * 60.0 / entry.bpm;
      }
    }
  }
}
