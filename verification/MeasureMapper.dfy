/** Beats to measures: a cursor walk over bar lines, and a table of bar lines with binary search
    when the duration of the song is known. */
module Measures {
  import opened ScoringTypes
  import opened RealArith
  import StableSort

  datatype SignatureFields = SignatureFields(atBeat: real, numerator: int, denominator: int) {
    predicate Valid() { atBeat >= 0.0 && 1 <= numerator <= 32 && denominator in {1, 2, 4, 8, 16, 32} }

    function BeatsPerMeasure(): real
      requires Valid()
    {
      numerator as real * 4.0 / denominator as real
    }
  }

  type TimeSignature = s: SignatureFields | s.Valid() witness SignatureFields(0.0, 4, 4)

  predicate SignatureLe(a: TimeSignature, b: TimeSignature) { a.atBeat <= b.atBeat }

  /** No measure is shorter than an eighth of a beat. */
  lemma ShortestMeasure(s: TimeSignature)
    ensures s.BeatsPerMeasure() >= 0.125
  {
    DivMonotone(4.0, s.numerator as real * 4.0, s.denominator as real);
  }

  /** `duration` is None when the length of the song is unknown. */
  datatype MapperFields = MapperFields(signatures: seq<TimeSignature>, pickup: real, duration: Option<real>) {
    predicate Valid() {
      && pickup >= 0.0
      && (duration.Some? ==> duration.value >= 0.0)
      && signatures != [] && signatures[0].atBeat == 0.0
      && (forall i, j :: 0 <= i < j < |signatures| ==> signatures[i].atBeat < signatures[j].atBeat)
      && pickup <= signatures[0].BeatsPerMeasure()
    }

    function ActiveFrom(i: nat, beat: real): (r: nat)
      requires i < |signatures|
      ensures i <= r < |signatures|
      decreases |signatures| - i
    {
      if i + 1 < |signatures| && signatures[i + 1].atBeat <= beat then ActiveFrom(i + 1, beat) else i
    }

    /** The length of the measure that starts at `beat`. */
    function BeatsAt(beat: real): (beats: real)
      requires Valid()
      ensures beats >= 0.125
    {
      var signature := signatures[ActiveFrom(0, beat)];
      ShortestMeasure(signature);
      signature.BeatsPerMeasure()
    }

    /** The bar line at which measure `n` starts; measure 0 is the pickup. */
    function Start(n: nat): real
      requires Valid()
    {
      if n == 0 then 0.0 else if n == 1 then pickup else Start(n - 1) + BeatsAt(Start(n - 1))
    }

    /** The measure holding `beat`, counting bar lines from measure `n` on. */
    function WalkFrom(n: nat, beat: real): (r: nat)
      requires Valid() && n >= 1 && Start(n) <= beat
      ensures r >= n && Start(r) <= beat < Start(r + 1)
      decreases ((beat - Start(n)) * 8.0).Floor
    {
      if beat < Start(n + 1) then n else WalkFrom(n + 1, beat)
    }

    /** The first measure from `n` on that starts at or after `beat`. */
    function FirstFrom(n: nat, beat: real): (r: nat)
      requires Valid() && n >= 1
      ensures r >= n && Start(r) >= beat
      ensures forall i :: n <= i < r ==> Start(i) < beat
      decreases ((beat - Start(n)) * 8.0).Floor + 1, if Start(n) >= beat then 0 else 1
    {
      if Start(n) >= beat then n else FirstFrom(n + 1, beat)
    }

    /** The last measure that starts before the end of the song; 0 when there is none. */
    function LastMeasure(): nat
      requires Valid() && duration.Some?
    {
      FirstFrom(1, duration.value) - 1
    }

    /** The measure of a beat: the walk, stopped at the last measure of the song. */
    function MeasureIndex(beat: real): nat
      requires Valid() && beat >= 0.0
    {
      if beat < pickup then 0
      else
        var walk := WalkFrom(1, beat);
        if duration.Some? && LastMeasure() < walk then LastMeasure() else walk
    }
  }

  type MeasureMapper = m: MapperFields | m.Valid() witness MapperFields([SignatureFields(0.0, 4, 4)], 0.0, None)

  /** Sorts the signatures by beat; refuses a negative pickup or duration, an empty list, a list that
      does not start at beat 0, two signatures at one beat, and a pickup longer than a measure. */
  function MakeMeasureMapper(
    signatures: seq<TimeSignature>, pickup: real, duration: Option<real>): Option<MeasureMapper> {
    var m := MapperFields(StableSort.Sort(SignatureLe, signatures), pickup, duration);
    if m.Valid() then Some(m) else None
  }

  /** The signatures of a mapper may be listed in any order. */
  lemma MapperFromAnyOrder(m: MeasureMapper, signatures: seq<TimeSignature>)
    requires multiset(signatures) == multiset(m.signatures)
    ensures MakeMeasureMapper(signatures, m.pickup, m.duration) == Some(m)
  {
    StableSort.SortCorrect(SignatureLe, signatures);
    StableSort.SortedUnique(SignatureLe, m.signatures, StableSort.Sort(SignatureLe, signatures));
  }

  /** A mapper is made of all the signatures, or not at all. */
  lemma MapperOfSignatures(signatures: seq<TimeSignature>, pickup: real, duration: Option<real>)
    ensures var r := MakeMeasureMapper(signatures, pickup, duration);
            r.Some? ==> r.value.pickup == pickup && r.value.duration == duration
                        && multiset(r.value.signatures) == multiset(signatures)
  {
    StableSort.SortCorrect(SignatureLe, signatures);
  }

  lemma {:induction false} StartsIncrease(m: MeasureMapper, i: nat, j: nat)
    requires 1 <= i < j
    ensures m.Start(i) + 0.125 * (j - i) as real <= m.Start(j)
    decreases j
  {
    if i < j - 1 {
      StartsIncrease(m, i, j - 1);
    }
  }

  lemma {:induction false} StartsReflect(m: MeasureMapper, i: nat, j: nat)
    requires 1 <= i && 1 <= j && m.Start(i) < m.Start(j)
    ensures i < j
  {
    if j < i { StartsIncrease(m, j, i); }
  }

  /** A beat is at or after a bar line exactly when its measure is. */
  lemma {:induction false} WalkReaches(m: MeasureMapper, n: nat, beat: real)
    requires n >= 1 && m.pickup <= beat
    ensures m.Start(n) <= beat <==> n <= m.WalkFrom(1, beat)
  {
    var w := m.WalkFrom(1, beat);
    hide MapperFields.Start, MapperFields.WalkFrom;
    if m.Start(n) <= beat {
      StartsReflect(m, n, w + 1);
    } else {
      StartsReflect(m, w, n);
    }
  }

  lemma {:induction false} FirstIs(m: MeasureMapper, n: nat, beat: real)
    requires n >= 1 && m.Start(n) >= beat && forall i :: 1 <= i < n ==> m.Start(i) < beat
    ensures m.FirstFrom(1, beat) == n
  {}

  /** The active signature is the last one at or before the beat. */
  lemma {:induction false} ActiveIsLast(m: MeasureMapper, i: nat, beat: real)
    requires i < |m.signatures| && m.signatures[i].atBeat <= beat
    ensures var r := m.ActiveFrom(i, beat);
            m.signatures[r].atBeat <= beat && (r + 1 < |m.signatures| ==> beat < m.signatures[r + 1].atBeat)
    decreases |m.signatures| - i
  {
    if i + 1 < |m.signatures| && m.signatures[i + 1].atBeat <= beat { ActiveIsLast(m, i + 1, beat); }
  }

  /** The loop that finds the signature in force: the last one at or before the beat. */
  method ActiveSignature(m: MeasureMapper, beat: real) returns (beats: real)
    ensures beats == m.BeatsAt(beat)
    ensures beat >= 0.0 ==> exists i ::
              && 0 <= i < |m.signatures| && beats == m.signatures[i].BeatsPerMeasure()
              && m.signatures[i].atBeat <= beat && (i + 1 < |m.signatures| ==> beat < m.signatures[i + 1].atBeat)
  {
    var index := 0;
    while index + 1 < |m.signatures| && m.signatures[index + 1].atBeat <= beat
      invariant 0 <= index < |m.signatures|
      invariant m.ActiveFrom(index, beat) == m.ActiveFrom(0, beat)
    {
      index := index + 1;
    }
    beats := m.signatures[index].BeatsPerMeasure();
    if beat >= 0.0 { ActiveIsLast(m, 0, beat); }
  }

  /** The table of bar lines: the pickup, every measure of the song, and one sentinel. */
  ghost predicate IsTable(m: MeasureMapper, starts: seq<real>) {
    m.duration.Some? && |starts| == m.LastMeasure() + 2 && forall i :: 0 <= i < |starts| ==> starts[i] == m.Start(i)
  }

  method MeasureStarts(m: MeasureMapper) returns (starts: seq<real>)
    requires m.duration.Some?
    ensures IsTable(m, starts)
  {
    hide MapperFields.BeatsAt, MapperFields.FirstFrom, MapperFields.ActiveFrom;
    starts := [0.0];
    var cursor := m.pickup;
    while cursor < m.duration.value
      invariant |starts| >= 1 && cursor == m.Start(|starts|)
      invariant forall i :: 0 <= i < |starts| ==> starts[i] == m.Start(i) && (i > 0 ==> starts[i] < m.duration.value)
      decreases (m.duration.value - cursor) * 8.0
    {
      starts := starts + [cursor];
      var beats := ActiveSignature(m, cursor);
      cursor := cursor + beats;
    }
    FirstIs(m, |starts|, m.duration.value);
    starts := starts + [cursor];
  }

  method MeasureIndexWalk(m: MeasureMapper, beat: real) returns (measure: nat)
    requires m.pickup <= beat
    ensures measure == m.WalkFrom(1, beat)
  {
    measure := 1;
    var start := m.pickup;
    while true
      invariant measure >= 1 && start == m.Start(measure) && start <= beat
      decreases (beat - start) * 8.0
    {
      var length := ActiveSignature(m, start);
      if beat < start + length {
        WalkReaches(m, measure, beat);
        WalkReaches(m, measure + 1, beat);
        return;
      }
      start := start + length;
      measure := measure + 1;
    }
  }

  /** The lookup, by binary search in the table where there is one. */
  method MeasureIndex(m: MeasureMapper, starts: seq<real>, beat: real) returns (measure: nat)
    requires beat >= 0.0 && (m.duration.Some? ==> IsTable(m, starts))
    ensures measure == m.MeasureIndex(beat)
  {
    if beat < m.pickup { return 0; }
    if m.duration.Some? {
      hide MapperFields.WalkFrom;
      if beat >= m.duration.value {
        PastTheEnd(m, beat);
        return |starts| - 2;
      }
      BeforeTheEnd(m, beat);
      measure := SearchTable(m, starts, beat);
      return;
    }
    measure := MeasureIndexWalk(m, beat);
  }

  /** The rightmost bar line at or before `beat`. */
  method SearchTable(m: MeasureMapper, starts: seq<real>, beat: real) returns (lo: nat)
    requires IsTable(m, starts) && m.pickup <= beat < m.duration.value
    ensures lo == m.WalkFrom(1, beat)
  {
    ghost var walk := m.WalkFrom(1, beat);
    hide MapperFields.Start, MapperFields.WalkFrom, MapperFields.LastMeasure;
    BeforeTheEnd(m, beat);
    lo := 0;
    var hi := |starts| - 1;
    while lo < hi
      invariant 0 <= lo <= walk <= hi < |starts|
    {
      var mid := (lo + hi + 1) / 2;
      WalkReaches(m, mid, beat);
      if starts[mid] <= beat { lo := mid; } else { hi := mid - 1; }
    }
  }

  lemma {:induction false} PastTheEnd(m: MeasureMapper, beat: real)
    requires m.duration.Some? && m.pickup <= beat && m.duration.value <= beat
    ensures m.LastMeasure() <= m.WalkFrom(1, beat)
  {
    hide MapperFields.WalkFrom, MapperFields.FirstFrom;
    if m.LastMeasure() > 0 {
      WalkReaches(m, m.LastMeasure(), beat);
    }
  }

  lemma {:induction false} BeforeTheEnd(m: MeasureMapper, beat: real)
    requires m.duration.Some? && m.pickup <= beat < m.duration.value
    ensures m.WalkFrom(1, beat) <= m.LastMeasure()
  {
    hide MapperFields.WalkFrom, MapperFields.FirstFrom;
    WalkReaches(m, m.LastMeasure() + 1, beat);
  }

  /** Main result: later beats never fall in earlier measures. */
  lemma MeasureIndexMonotone(m: MeasureMapper, a: real, b: real)
    requires 0.0 <= a <= b
    ensures m.MeasureIndex(a) <= m.MeasureIndex(b)
  {
    if m.pickup <= a {
      WalkReaches(m, m.WalkFrom(1, a), b);
    }
  }

  lemma {:induction false} StartAfterPickup(m: MeasureMapper, n: nat)
    requires n >= 1
    ensures m.Start(n) >= m.pickup
  {
    if n > 1 { StartsIncrease(m, 1, n); }
  }

  /** Main result: the start of a full measure of the song is mapped back to that measure; with a
      known duration every later bar line is mapped to the last measure. */
  lemma {:induction false} MeasureOfStart(m: MeasureMapper, n: nat)
    requires n >= 1
    ensures m.Start(n) >= 0.0
    ensures m.MeasureIndex(m.Start(n)) == if m.duration.Some? && m.LastMeasure() < n then m.LastMeasure() else n
  {
    StartAfterPickup(m, n);
    var beat := m.Start(n);
    WalkReaches(m, n, beat);
    WalkReaches(m, n + 1, beat);
    StartsIncrease(m, n, n + 1);
    hide MapperFields.WalkFrom, MapperFields.Start, MapperFields.LastMeasure;
  }

  /** Main result: the table agrees with the walk on the whole song, and stops at the last measure
      after it. */
  lemma {:induction false} TableAgreesWithWalk(m: MeasureMapper, beat: real)
    requires m.duration.Some? && m.pickup <= beat
    ensures beat < m.duration.value ==> m.MeasureIndex(beat) == m.WalkFrom(1, beat) >= 1
    ensures beat >= m.duration.value ==> m.MeasureIndex(beat) == m.LastMeasure()
  {
    hide MapperFields.WalkFrom, MapperFields.LastMeasure;
    if beat < m.duration.value { BeforeTheEnd(m, beat); } else { PastTheEnd(m, beat); }
  }

  /** The bar line of a measure, by table or by walk. */
  method MeasureStartBeat(m: MeasureMapper, starts: seq<real>, measureIndex: nat) returns (r: Option<real>)
    requires m.duration.Some? ==> IsTable(m, starts)
    ensures r == if m.duration.Some? && measureIndex > m.LastMeasure() + 1 then None
                 else if m.duration.None? && measureIndex == 0 then Some(m.pickup)
                 else Some(m.Start(measureIndex))
  {
    if m.duration.Some? {
      if measureIndex >= |starts| { return None; }
      return Some(starts[measureIndex]);
    }
    var measure, start := 1, m.pickup;
    while measure < measureIndex
      invariant 1 <= measure && start == m.Start(measure)
      invariant measure <= measureIndex || (measure == 1 && measureIndex == 0)
    {
      var beats := ActiveSignature(m, start);
      start := start + beats;
      measure := measure + 1;
    }
    r := Some(start);
  }

  function BeatOf(s: TimeSignature): real { s.atBeat }

  /** The pickup fits a measure of the signature that opens the song. */
  ghost predicate PickupFits(signatures: seq<TimeSignature>, pickup: real) {
    exists i :: 0 <= i < |signatures| && signatures[i].atBeat == 0.0 && Fits(signatures[i], pickup)
  }

  predicate Fits(s: TimeSignature, pickup: real) {
    pickup * s.denominator as real <= 4.0 * s.numerator as real
  }

  /** Main result: a mapper is made exactly of a pickup and a duration that are not negative and signatures
      no two of which are at one beat and one of which is at beat 0, with a measure the pickup fits. */
  lemma MapperAcceptedExactly(signatures: seq<TimeSignature>, pickup: real, duration: Option<real>)
    ensures MakeMeasureMapper(signatures, pickup, duration).Some? <==>
              && pickup >= 0.0 && (duration.Some? ==> duration.value >= 0.0)
              && (forall i, j :: 0 <= i < j < |signatures| ==> signatures[i].atBeat != signatures[j].atBeat)
              && PickupFits(signatures, pickup)
  {
    hide StableSort.Sort, SignatureFields.BeatsPerMeasure, PickupFits;
    StableSort.SortCorrect(SignatureLe, signatures);
    if signatures == [] {
      assert !PickupFits([], pickup) by { NothingFits(pickup); }
    } else {
      StableSort.DistinctKeys(SignatureLe, BeatOf, signatures);
      if forall i, j :: 0 <= i < j < |signatures| ==> signatures[i].atBeat != signatures[j].atBeat {
        OpeningFits(signatures, pickup);
      }
    }
  }

  lemma NothingFits(pickup: real)
    ensures !PickupFits([], pickup)
  {}

  lemma {:induction false} OpeningFits(signatures: seq<TimeSignature>, pickup: real)
    requires signatures != []
    requires forall i, j :: 0 <= i < j < |signatures| ==> signatures[i].atBeat != signatures[j].atBeat
    ensures var sorted := StableSort.Sort(SignatureLe, signatures);
            && sorted != []
            && (PickupFits(signatures, pickup) <==>
                  sorted[0].atBeat == 0.0 && pickup <= sorted[0].BeatsPerMeasure())
  {
    StableSort.LeastFirst(SignatureLe, BeatOf, signatures);
    var first := StableSort.Sort(SignatureLe, signatures)[0];
    hide StableSort.Sort, SignatureFields.BeatsPerMeasure;
    forall i | 0 <= i < |signatures| && signatures[i].atBeat == 0.0 ensures first == signatures[i] {
      assert signatures[i] in signatures;
      var k :| 0 <= k < |signatures| && signatures[k] == first;
      assert BeatOf(first) <= BeatOf(signatures[i]);
      assert i == k;
    }
    FitsOpening(first, pickup);
    hide Fits;
    if first.atBeat == 0.0 { assert first in signatures; }
  }

  lemma FitsOpening(s: TimeSignature, pickup: real)
    ensures Fits(s, pickup) <==> pickup <= s.BeatsPerMeasure()
  {
    MeasureLength(s);
    hide SignatureFields.BeatsPerMeasure;
    FitsMeasure(pickup, s.BeatsPerMeasure(), s.denominator as real);
  }

  lemma FitsMeasure(pickup: real, beats: real, denominator: real)
    requires denominator > 0.0
    ensures pickup <= beats <==> pickup * denominator <= beats * denominator
  {
    if pickup <= beats { MulMonotone(pickup, beats, denominator); } else { MulStrict(beats, pickup, denominator); }
  }

  // ----- What the numbers mean ---------------------------------------------------------------------

  /** A measure is as many notes of the signature's kind long as the signature says, a whole note being
      four beats. */
  lemma MeasureLength(s: TimeSignature)
    ensures s.BeatsPerMeasure() * s.denominator as real == 4.0 * s.numerator as real
  {
    Cancel(s.numerator as real * 4.0, s.denominator as real);
  }

  /** Main result: the first bar line is at zero and the second after the pickup; from there on each
      measure has the length of the signature in force at its bar line. */
  lemma BarLines(m: MeasureMapper, n: nat) returns (i: nat)
    requires n >= 1
    ensures m.Start(0) == 0.0 && m.Start(1) == m.pickup
    ensures i < |m.signatures| && m.signatures[i].atBeat <= m.Start(n)
    ensures i + 1 < |m.signatures| ==> m.Start(n) < m.signatures[i + 1].atBeat
    ensures var s := m.signatures[i];
            (m.Start(n + 1) - m.Start(n)) * s.denominator as real == 4.0 * s.numerator as real
  {
    StartAfterPickup(m, n);
    i := m.ActiveFrom(0, m.Start(n));
    ActiveIsLast(m, 0, m.Start(n));
    MeasureLength(m.signatures[i]);
    StartStep(m, n);
    hide MapperFields.Start, MapperFields.ActiveFrom;
  }

  lemma StartStep(m: MeasureMapper, n: nat)
    requires n >= 1
    ensures m.Start(n + 1) - m.Start(n) == m.signatures[m.ActiveFrom(0, m.Start(n))].BeatsPerMeasure()
  {}

  /** Main result: a beat before the pickup's end is in measure 0 and any other between the bar lines of
      its measure, but from the end of the song on it stays in the last measure, the one whose next bar
      line is the first at or after the end. */
  lemma {:induction false} MeasureHoldsBeat(m: MeasureMapper, beat: real)
    requires beat >= 0.0
    ensures var k := m.MeasureIndex(beat);
            && (beat < m.pickup ==> k == 0)
            && (beat >= m.pickup && (m.duration.None? || beat < m.duration.value) ==>
                  k >= 1 && m.Start(k) <= beat < m.Start(k + 1))
            && (beat >= m.pickup && m.duration.Some? && beat >= m.duration.value ==>
                  m.Start(k + 1) >= m.duration.value && forall i :: 1 <= i <= k ==> m.Start(i) < m.duration.value)
  {
    hide MapperFields.Start;
    if m.pickup <= beat && m.duration.Some? {
      if beat < m.duration.value { BeforeTheEnd(m, beat); } else { PastTheEnd(m, beat); }
    }
  }
}
