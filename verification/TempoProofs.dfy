/** What `BeatToSeconds` promises: it is the integral of the tempo curve, it stays between
    the slowest and the fastest tempo, and it runs forward exactly on the maps without an
    accelerando ramp. */
module TempoProofs {
  import opened ScoringTypes
  import opened RealArith
  import opened Tempo

  /** The facts about the natural logarithm that the ramp results rest on. */
  ghost predicate IsLogarithm(ln: real -> real) {
    && (forall x, y :: x > 0.0 && y > 0.0 ==> ln(x * y) == ln(x) + ln(y))
    && (forall x :: x > 0.0 ==> ln(x) <= x - 1.0)
  }

  lemma LnTimes(ln: real -> real, x: real, y: real)
    requires IsLogarithm(ln) && x > 0.0 && y > 0.0
    ensures ln(x * y) == ln(x) + ln(y)
  {}

  lemma LnTangent(ln: real -> real, x: real)
    requires IsLogarithm(ln) && x > 0.0
    ensures ln(x) <= x - 1.0
  {}

  lemma LnQuotient(ln: real -> real, x: real, y: real)
    requires IsLogarithm(ln) && x > 0.0 && y > 0.0
    ensures ln(x / y) == ln(x) - ln(y)
  {
    hide IsLogarithm;
    var q := x / y;
    Cancel(x, y);
    DivStrict(0.0, x, y);
    Quotient(0.0, y, 0.0);
    LnTimes(ln, q, y);
  }

  lemma LnBounds(ln: real -> real, x: real)
    requires IsLogarithm(ln) && x > 0.0
    ensures 1.0 - 1.0 / x <= ln(x) <= x - 1.0
  {
    hide IsLogarithm;
    LnTangent(ln, x);
    LnTimes(ln, 1.0, 1.0);
    LnQuotient(ln, 1.0, x);
    DivStrict(0.0, 1.0, x);
    Quotient(0.0, x, 0.0);
    LnTangent(ln, 1.0 / x);
  }

  /** The logarithm lies strictly below its tangent at 1. */
  lemma LnStrictlyBelow(ln: real -> real, x: real)
    requires IsLogarithm(ln) && x > 0.0
    ensures ln(1.0 + x) <= x / 2.0 + (x / 2.0) / (1.0 + x / 2.0)
  {
    hide IsLogarithm;
    var half := x / 2.0;
    var h := 1.0 + half;
    var r := half / h;
    Cancel(half, h);
    DivStrict(0.0, half, h);
    Quotient(0.0, h, 0.0);
    var y := 1.0 + r;
    var p := y * h;
    assert p == 1.0 + x;
    LnTimes(ln, y, h);
    LnTangent(ln, h);
    LnTangent(ln, y);
    assert ln(p) == ln(1.0 + x);
  }

  lemma LnRatioBounds(ln: real -> real, a: real, b: real)
    requires IsLogarithm(ln) && a > 0.0 && b > 0.0
    ensures (b - a) / b <= ln(b / a) <= (b - a) / a
  {
    LnBounds(ln, b / a);
    Quotient(1.0, b / a, a / b);
    Quotient(b - a, a, b / a - 1.0);
    Quotient(b - a, b, 1.0 - a / b);
  }

  lemma RatioOverSlope(w: real, c: real, a: real)
    requires c != 0.0 && a > 0.0
    ensures 60.0 / c * (w * c / a) == w * 60.0 / a
  {
    var k := 60.0 / c;
    Cancel(60.0, c);
    Quotient(w * c, a, w * c / a);
    var q := k * (w * c / a);
    assert q * a == k * (w * c / a * a) == k * (w * c) == w * (k * c);
    Quotient(w * 60.0, a, q);
  }

  /** Time of a ramp that gains `c` bpm per beat over `w` beats, from tempo `a` to `b`. */
  lemma RisingBounds(ln: real -> real, c: real, w: real, a: real, b: real)
    requires IsLogarithm(ln) && a > 0.0 && b > 0.0 && b - a == w * c && w >= 0.0 && c > 0.0
    ensures w * 60.0 / b <= 60.0 / c * ln(b / a) <= w * 60.0 / a
  {
    hide IsLogarithm;
    LnRatioBounds(ln, a, b);
    RatioOverSlope(w, c, a);
    RatioOverSlope(w, c, b);
    DivStrict(0.0, 60.0, c);
    MulMonotone(w * c / b, ln(b / a), 60.0 / c);
    MulMonotone(ln(b / a), w * c / a, 60.0 / c);
  }

  lemma FallingBounds(ln: real -> real, c: real, w: real, a: real, b: real)
    requires IsLogarithm(ln) && a > 0.0 && b > 0.0 && b - a == w * c && w >= 0.0 && c < 0.0
    ensures w * 60.0 / a <= 60.0 / c * ln(b / a) <= w * 60.0 / b
  {
    hide IsLogarithm;
    LnRatioBounds(ln, a, b);
    RatioOverSlope(w, c, a);
    RatioOverSlope(w, c, b);
    var k := 60.0 / -c;
    DivStrict(0.0, 60.0, -c);
    Quotient(60.0, c, -k);
    MulMonotone(w * c / b, ln(b / a), k);
    MulMonotone(ln(b / a), w * c / a, k);
  }

  /** Beats per minute gained per beat by the ramp of entry `i`. */
  ghost function Slope(m: TempoMap, i: nat): real
    requires m.HasNext(i)
  {
    (m.points[i + 1].bpm - m.points[i].bpm) / (m.points[i + 1].atBeat - m.points[i].atBeat)
  }

  ghost predicate IsRamp(m: TempoMap, i: nat)
    requires i < |m.points|
  {
    m.HasNext(i) && m.points[i].curve == LINEAR
  }

  /** `beat` lies in the closed segment of entry `i`. */
  ghost predicate InSegment(m: TempoMap, i: nat, beat: real)
    requires i < |m.points|
  {
    m.points[i].atBeat <= beat && (m.HasNext(i) ==> beat <= m.points[i + 1].atBeat)
  }

  /** The ramp has moved too little at `beat` to be told from a constant tempo. */
  ghost predicate NearStart(m: TempoMap, i: nat, beat: real)
    requires i < |m.points| && IsRamp(m, i)
  {
    Abs(m.LinearBpmAt(i, beat) - m.points[i].bpm) < NEAR_EQUAL_BPM
  }

  lemma RampTempo(m: TempoMap, i: nat, beat: real)
    requires i < |m.points| && IsRamp(m, i) && InSegment(m, i, beat)
    ensures m.LinearBpmAt(i, beat) == m.points[i].bpm + (beat - m.points[i].atBeat) * Slope(m, i)
    ensures m.LinearBpmAt(i, beat) > 0.0
  {
    LinearBpmPositive(m, i, beat);
    var u, span, d := beat - m.points[i].atBeat, m.points[i + 1].atBeat - m.points[i].atBeat,
                      m.points[i + 1].bpm - m.points[i].bpm;
    Cancel(u, span);
    Cancel(d, span);
    assert u / span * d == u / span * (d / span * span) == u / span * span * (d / span);
  }

  /** A ramp contributes its log-integral once it has left the neighbourhood of its start. */
  lemma RampSeconds(m: TempoMap, i: nat, beat: real)
    requires i < |m.points| && IsRamp(m, i) && InSegment(m, i, beat) && m.points[i].atBeat < beat
    ensures NearStart(m, i, beat) ==>
            m.SegmentSeconds(i, beat) == (beat - m.points[i].atBeat) * 60.0 / m.points[i].bpm
    ensures !NearStart(m, i, beat) ==>
            && Slope(m, i) != 0.0
            && m.SegmentSeconds(i, beat) == 60.0 / Slope(m, i) * m.ln(m.LinearBpmAt(i, beat) / m.points[i].bpm)
  {
    RampTempo(m, i, beat);
    var u, c := beat - m.points[i].atBeat, Slope(m, i);
    Quotient(u * c, u, c);
    assert m.LinearBpmAt(i, beat) - m.points[i].bpm == u * c;
    if c == 0.0 {
      assert u * c == 0.0;
    }
  }

  lemma LnTelescopes(ln: real -> real, p: real, a: real, b: real)
    requires IsLogarithm(ln) && p > 0.0 && a > 0.0 && b > 0.0
    ensures ln(b / p) - ln(a / p) == ln(b / a)
  {
    LnQuotient(ln, b, p);
    LnQuotient(ln, a, p);
    LnQuotient(ln, b, a);
  }

  /** Between two beats of one ramp, away from its start, the time grows by the exact
      integral of 60 over the linearly moving tempo. */
  lemma RampIncrement(m: TempoMap, i: nat, a: real, b: real)
    requires IsLogarithm(m.ln)
    requires i < |m.points| && IsRamp(m, i) && InSegment(m, i, a) && InSegment(m, i, b)
    requires m.points[i].atBeat < a && m.points[i].atBeat < b && !NearStart(m, i, a) && !NearStart(m, i, b)
    ensures Slope(m, i) != 0.0 && m.LinearBpmAt(i, a) > 0.0
    ensures m.SegmentSeconds(i, b) - m.SegmentSeconds(i, a)
         == 60.0 / Slope(m, i) * m.ln(m.LinearBpmAt(i, b) / m.LinearBpmAt(i, a))
  {
    hide IsLogarithm;
    RampSeconds(m, i, a);
    RampSeconds(m, i, b);
    RampTempo(m, i, a);
    RampTempo(m, i, b);
    LnTelescopes(m.ln, m.points[i].bpm, m.LinearBpmAt(i, a), m.LinearBpmAt(i, b));
  }

  /** No accelerando worth integrating starts at entry `i`. */
  predicate Calm(m: TempoMap, i: nat)
    requires i < |m.points|
  {
    i + 1 < |m.points| && m.points[i].curve == LINEAR ==>
      m.points[i + 1].bpm - m.points[i].bpm < NEAR_EQUAL_BPM
  }

  lemma SlopeSpan(m: TempoMap, i: nat)
    requires m.HasNext(i)
    ensures Slope(m, i) * (m.points[i + 1].atBeat - m.points[i].atBeat) == m.points[i + 1].bpm - m.points[i].bpm
  {
    Cancel(m.points[i + 1].bpm - m.points[i].bpm, m.points[i + 1].atBeat - m.points[i].atBeat);
  }

  lemma NearStartBySlope(m: TempoMap, i: nat, beat: real)
    requires i < |m.points| && IsRamp(m, i) && InSegment(m, i, beat)
    ensures NearStart(m, i, beat) <==> (beat - m.points[i].atBeat) * Abs(Slope(m, i)) < NEAR_EQUAL_BPM
  {
    RampTempo(m, i, beat);
    var u, c := beat - m.points[i].atBeat, Slope(m, i);
    if c >= 0.0 {
      MulNonNegative(u, c);
    } else {
      MulNonNegative(u, -c);
      assert u * c == -(u * -c);
    }
  }

  /** A ramp that has left the neighbourhood of its start does not come back. */
  lemma RampLeaves(m: TempoMap, i: nat, a: real, b: real)
    requires i < |m.points| && IsRamp(m, i) && InSegment(m, i, a) && InSegment(m, i, b) && a <= b
    ensures !NearStart(m, i, a) ==> !NearStart(m, i, b)
  {
    hide Slope, NearStart;
    NearStartBySlope(m, i, a);
    NearStartBySlope(m, i, b);
    MulMonotone(a - m.points[i].atBeat, b - m.points[i].atBeat, Abs(Slope(m, i)));
  }

  /** In a calm segment only a ritardando leaves the neighbourhood of its start. */
  lemma CalmSlope(m: TempoMap, i: nat, a: real)
    requires i < |m.points| && IsRamp(m, i) && InSegment(m, i, a) && Calm(m, i) && !NearStart(m, i, a)
    ensures Slope(m, i) < 0.0
  {
    hide Slope, NearStart;
    NearStartBySlope(m, i, a);
    var span := m.points[i + 1].atBeat - m.points[i].atBeat;
    assert Slope(m, i) * span == m.points[i + 1].bpm - m.points[i].bpm by { SlopeSpan(m, i); }
    MulMonotone(a - m.points[i].atBeat, span, Abs(Slope(m, i)));
  }

  lemma ConstantGrowth(u: real, v: real, p: real)
    requires u < v && p > 0.0
    ensures u * 60.0 / p < v * 60.0 / p
  {
    DivStrict(u * 60.0, v * 60.0, p);
  }

  lemma PositiveTime(u: real, p: real)
    requires u > 0.0 && p > 0.0
    ensures u * 60.0 / p > 0.0
  {
    DivStrict(0.0, u * 60.0, p);
  }

  lemma FallingGrowth(m: TempoMap, i: nat, a: real, b: real)
    requires IsLogarithm(m.ln) && i < |m.points| && Calm(m, i) && IsRamp(m, i)
    requires InSegment(m, i, a) && InSegment(m, i, b) && m.points[i].atBeat < a < b
    requires !NearStart(m, i, a) && !NearStart(m, i, b)
    ensures m.SegmentSeconds(i, a) < m.SegmentSeconds(i, b)
  {
    hide IsLogarithm, Slope, NearStart, Calm, MapFields.LinearBpmAt, MapFields.SegmentSeconds;
    var A, B, c := m.LinearBpmAt(i, a), m.LinearBpmAt(i, b), Slope(m, i);
    CalmSlope(m, i, a);
    RampIncrement(m, i, a, b);
    assert A > 0.0 && B > 0.0 && B - A == (b - a) * c by {
      RampTempo(m, i, a);
      RampTempo(m, i, b);
    }
    FallingBounds(m.ln, c, b - a, A, B);
    PositiveTime(b - a, A);
  }

  /** A calm ramp never runs faster than its opening tempo. */
  lemma CalmRampSeconds(m: TempoMap, i: nat, b: real)
    requires IsLogarithm(m.ln) && i < |m.points| && Calm(m, i) && IsRamp(m, i)
    requires InSegment(m, i, b) && m.points[i].atBeat < b
    ensures m.SegmentSeconds(i, b) >= (b - m.points[i].atBeat) * 60.0 / m.points[i].bpm > 0.0
  {
    hide IsLogarithm, Slope, NearStart, Calm, MapFields.LinearBpmAt, MapFields.SegmentSeconds;
    var s, p := m.points[i].atBeat, m.points[i].bpm;
    RampSeconds(m, i, b);
    PositiveTime(b - s, p);
    if !NearStart(m, i, b) {
      CalmSlope(m, i, b);
      RampTempo(m, i, b);
      FallingBounds(m.ln, Slope(m, i), b - s, p, m.LinearBpmAt(i, b));
    }
  }

  /** A calm segment takes more time the further it is played. */
  lemma SegmentGrowth(m: TempoMap, i: nat, a: real, b: real)
    requires IsLogarithm(m.ln) && i < |m.points| && Calm(m, i)
    requires InSegment(m, i, a) && InSegment(m, i, b) && a < b
    ensures m.SegmentSeconds(i, a) < m.SegmentSeconds(i, b)
  {
    hide IsLogarithm, Slope, NearStart, Calm, MapFields.LinearBpmAt;
    var s, p := m.points[i].atBeat, m.points[i].bpm;
    ConstantGrowth(a - s, b - s, p);
    PositiveTime(b - s, p);
    if IsRamp(m, i) {
      CalmRampSeconds(m, i, b);
      if s < a {
        RampSeconds(m, i, a);
        if !NearStart(m, i, a) {
          RampLeaves(m, i, a, b);
          FallingGrowth(m, i, a, b);
        }
      }
    }
  }

  /** Two beats of one segment differ by what that segment adds between them. */
  lemma {:induction false} IncrementUpTo(m: TempoMap, k: nat, n: nat, a: real, b: real)
    requires k < |m.points| && n <= |m.points| && InSegment(m, k, a) && InSegment(m, k, b)
    ensures m.SegmentSum(n, b) - m.SegmentSum(n, a)
         == if n <= k then 0.0 else m.SegmentSeconds(k, b) - m.SegmentSeconds(k, a)
  {
    if n > 0 {
      IncrementUpTo(m, k, n - 1, a, b);
      if n - 1 < k {
        assert m.points[n].atBeat <= m.points[k].atBeat;
      }
    }
  }

  lemma ConstantSeconds(m: TempoMap, i: nat, beat: real)
    requires i < |m.points| && !IsRamp(m, i) && InSegment(m, i, beat)
    ensures m.SegmentSeconds(i, beat) == (beat - m.points[i].atBeat) * 60.0 / m.points[i].bpm
  {
    Quotient(0.0, m.points[i].bpm, 0.0);
  }

  lemma {:induction false} LastEntryInside(m: TempoMap, j: nat, i: nat, beat: real)
    requires j <= i < |m.points| && m.points[i].atBeat <= beat
    requires m.HasNext(i) ==> beat < m.points[i + 1].atBeat
    ensures m.LastEntryFrom(j, beat) == i
    decreases i - j
  {
    if j < i {
      assert m.points[j + 1].atBeat <= m.points[i].atBeat;
      LastEntryInside(m, j + 1, i, beat);
    }
  }

  /** Between two beats of one constant segment the time is beats times 60 over the tempo. */
  lemma ConstantIncrement(m: TempoMap, a: real, b: real)
    requires 0.0 <= a <= b
    requires var i := m.LastEntry(a); !IsRamp(m, i) && (m.HasNext(i) ==> b <= m.points[i + 1].atBeat)
    ensures m.BeatToSeconds(b) - m.BeatToSeconds(a) == (b - a) * 60.0 / m.BpmAt(a)
  {
    hide MapFields.SegmentSum, MapFields.SegmentSeconds;
    var i := m.LastEntry(a);
    var s, p := m.points[i].atBeat, m.points[i].bpm;
    assert m.points[0].atBeat == 0.0;
    assert m.BpmAt(a) == p by { LastEntryInside(m, 0, 0, 0.0); }
    IncrementUpTo(m, i, |m.points|, a, b);
    ConstantSeconds(m, i, a);
    ConstantSeconds(m, i, b);
    assert (b - s) * 60.0 / p - (a - s) * 60.0 / p == (b - a) * 60.0 / p by {
      Quotient((b - a) * 60.0, p, (b - s) * 60.0 / p - (a - s) * 60.0 / p);
    }
  }

  /** A ramp starts at the tempo of its entry and ends at that of the next. */
  lemma RampEnds(m: TempoMap, i: nat)
    requires i < |m.points| && IsRamp(m, i)
    ensures m.LinearBpmAt(i, m.points[i].atBeat) == m.points[i].bpm
    ensures m.LinearBpmAt(i, m.points[i + 1].atBeat) == m.points[i + 1].bpm
  {
    var span := m.points[i + 1].atBeat - m.points[i].atBeat;
    Quotient(0.0, span, 0.0);
    Quotient(span, span, 1.0);
  }

  lemma BpmOf(m: TempoMap, i: nat, beat: real)
    requires i < |m.points| && m.points[i].atBeat <= beat && (m.HasNext(i) ==> beat < m.points[i + 1].atBeat)
    ensures m.BpmAt(beat) == if IsRamp(m, i) then m.LinearBpmAt(i, beat) else m.points[i].bpm
  {
    hide MapFields.LinearBpmAt;
    assert m.points[0].atBeat == 0.0;
    LastEntryInside(m, 0, i, beat);
    if beat == 0.0 && IsRamp(m, i) { RampEnds(m, i); }
  }

  /** The tempo of a ramp runs continuously into the next entry. */
  lemma RampBpm(m: TempoMap, i: nat, beat: real)
    requires i < |m.points| && IsRamp(m, i) && InSegment(m, i, beat)
    ensures m.BpmAt(beat) == m.LinearBpmAt(i, beat)
  {
    hide MapFields.LinearBpmAt, MapFields.BpmAt;
    if beat < m.points[i + 1].atBeat {
      BpmOf(m, i, beat);
    } else {
      BpmOf(m, i + 1, beat);
      RampEnds(m, i);
      if IsRamp(m, i + 1) { RampEnds(m, i + 1); }
    }
  }

  lemma SegmentStarts(m: TempoMap, i: nat)
    requires i < |m.points|
    ensures m.SegmentSeconds(i, m.points[i].atBeat) == 0.0
  {}

  /** From the start of a ramp to any beat up to its end: the log-integral of the tempo curve, or the
      constant formula while the ramp cannot be told from a constant tempo. */
  lemma RampFromStart(m: TempoMap, i: nat, b: real)
    requires i < |m.points| && IsRamp(m, i) && m.points[i].atBeat < b <= m.points[i + 1].atBeat
    ensures var s, p := m.points[i].atBeat, m.points[i].bpm;
            && (NearStart(m, i, b) ==> m.BeatToSeconds(b) - m.BeatToSeconds(s) == (b - s) * 60.0 / p)
            && (!NearStart(m, i, b) ==>
                  && Slope(m, i) != 0.0
                  && m.BeatToSeconds(b) - m.BeatToSeconds(s) == 60.0 / Slope(m, i) * m.ln(m.BpmAt(b) / p))
  {
    hide Slope, NearStart, MapFields.SegmentSum, MapFields.SegmentSeconds, MapFields.LinearBpmAt, MapFields.BpmAt;
    assert m.points[0].atBeat == 0.0;
    IncrementUpTo(m, i, |m.points|, m.points[i].atBeat, b);
    SegmentStarts(m, i);
    RampSeconds(m, i, b);
    RampBpm(m, i, b);
  }

  /** Between two beats of one ramp, its start and its end included, the time is the exact integral of
      60 over the linearly moving tempo, provided the ramp has left its start. */
  lemma LinearIncrement(m: TempoMap, i: nat, a: real, b: real)
    requires IsLogarithm(m.ln) && i < |m.points| && IsRamp(m, i)
    requires m.points[i].atBeat <= a < b <= m.points[i + 1].atBeat
    requires if a == m.points[i].atBeat then !NearStart(m, i, b) else !NearStart(m, i, a)
    ensures Slope(m, i) != 0.0
    ensures m.BeatToSeconds(b) - m.BeatToSeconds(a) == 60.0 / Slope(m, i) * m.ln(m.BpmAt(b) / m.BpmAt(a))
  {
    hide IsLogarithm, Slope, NearStart, MapFields.SegmentSum, MapFields.SegmentSeconds, MapFields.LinearBpmAt,
         MapFields.BpmAt;
    assert m.points[0].atBeat == 0.0;
    RampBpm(m, i, a);
    RampBpm(m, i, b);
    RampTempo(m, i, a);
    if a == m.points[i].atBeat {
      RampEnds(m, i);
      RampFromStart(m, i, b);
    } else {
      IncrementUpTo(m, i, |m.points|, a, b);
      RampLeaves(m, i, a, b);
      RampIncrement(m, i, a, b);
    }
  }

  ghost predicate AllCalm(m: TempoMap) {
    forall i :: 0 <= i < |m.points| ==> Calm(m, i)
  }

  lemma SegmentMonotone(m: TempoMap, i: nat, a: real, b: real)
    requires IsLogarithm(m.ln) && i < |m.points| && Calm(m, i) && a < b
    ensures m.SegmentSeconds(i, a) <= m.SegmentSeconds(i, b)
    ensures m.points[i].atBeat <= a && (m.HasNext(i) ==> a < m.points[i + 1].atBeat)
            ==> m.SegmentSeconds(i, a) < m.SegmentSeconds(i, b)
  {
    hide IsLogarithm, Calm;
    var s, x, y := m.points[i].atBeat, m.SegmentEnd(i, a), m.SegmentEnd(i, b);
    if s < b {
      assert m.SegmentSeconds(i, b) == m.SegmentSeconds(i, y);
      if s <= a {
        assert m.SegmentSeconds(i, a) == m.SegmentSeconds(i, x);
        if x < y { SegmentGrowth(m, i, x, y); }
      } else {
        SegmentGrowth(m, i, s, y);
      }
    }
  }

  lemma {:induction false} SumMonotone(m: TempoMap, n: nat, a: real, b: real)
    requires IsLogarithm(m.ln) && AllCalm(m) && n <= |m.points| && 0.0 <= a < b
    ensures m.SegmentSum(n, a) <= m.SegmentSum(n, b)
    ensures m.LastEntry(a) < n ==> m.SegmentSum(n, a) < m.SegmentSum(n, b)
  {
    hide IsLogarithm, Calm, MapFields.SegmentSeconds;
    if n > 0 {
      SumMonotone(m, n - 1, a, b);
      SegmentMonotone(m, n - 1, a, b);
    }
  }

  lemma AccelerandoReach(m: TempoMap, i: nat)
    requires i < |m.points| && !Calm(m, i)
    ensures IsRamp(m, i) && Slope(m, i) > 0.0
    ensures 0.0 < NEAR_EQUAL_BPM / Slope(m, i) <= m.points[i + 1].atBeat - m.points[i].atBeat
    ensures NEAR_EQUAL_BPM / Slope(m, i) * Slope(m, i) == NEAR_EQUAL_BPM
  {
    var span, rise := m.points[i + 1].atBeat - m.points[i].atBeat, m.points[i + 1].bpm - m.points[i].bpm;
    DivStrict(0.0, rise, span);
    var c := Slope(m, i);
    DivStrict(0.0, NEAR_EQUAL_BPM, c);
    SlopeSpan(m, i);
    DivMonotone(NEAR_EQUAL_BPM, span * c, c);
    Quotient(span * c, c, span);
    Cancel(NEAR_EQUAL_BPM, c);
  }

  /** The accelerando of entry `i` is timed at the opening tempo up to the beat where it has
      gained NEAR_EQUAL_BPM, and by the shorter exact integral from that beat on. */
  lemma AccelerandoStepsBack(m: TempoMap, i: nat) returns (a: real, b: real)
    requires IsLogarithm(m.ln) && i < |m.points| && !Calm(m, i)
    ensures 0.0 <= a < b && m.BeatToSeconds(a) > m.BeatToSeconds(b)
  {
    hide IsLogarithm, Slope, NearStart, MapFields.LinearBpmAt, MapFields.SegmentSeconds, Calm;
    AccelerandoReach(m, i);
    var s, p, c, d := m.points[i].atBeat, m.points[i].bpm, Slope(m, i), NEAR_EQUAL_BPM;
    var u := d / c;
    var v := GapBelow(m.ln, c, p);
    a, b := s + v, s + u;
    assert NearStart(m, i, a) by {
      MulStrict(v, u, c);
      NearStartBySlope(m, i, a);
    }
    assert !NearStart(m, i, b) by { NearStartBySlope(m, i, b); }
    assert m.LinearBpmAt(i, b) == p + d by { RampTempo(m, i, b); }
    assert m.SegmentSeconds(i, a) == v * 60.0 / p by { RampSeconds(m, i, a); }
    assert m.SegmentSeconds(i, b) == 60.0 / c * m.ln((p + d) / p) by { RampSeconds(m, i, b); }
    IncrementUpTo(m, i, |m.points|, a, b);
  }

  lemma GapBelow(ln: real -> real, c: real, p: real) returns (v: real)
    requires IsLogarithm(ln) && c > 0.0 && p > 0.0
    ensures 0.0 < v < NEAR_EQUAL_BPM / c
    ensures 60.0 / c * ln((p + NEAR_EQUAL_BPM) / p) < v * 60.0 / p
  {
    hide IsLogarithm;
    var d := NEAR_EQUAL_BPM;
    var x := d / p;
    DivStrict(0.0, d, p);
    Quotient(p + d, p, 1.0 + x);
    LnStrictlyBelow(ln, x);
    var y := x / 2.0 + (x / 2.0) / (1.0 + x / 2.0);
    Cancel(x / 2.0, 1.0 + x / 2.0);
    assert (x / 2.0) / (1.0 + x / 2.0) < x / 2.0;
    var z := (x + y) / 2.0;
    v := z * p / c;
  }

  /** Main result: musical time runs forward on a tempo map exactly when no linear segment
      speeds up by NEAR_EQUAL_BPM or more. Where one does, some later beat comes earlier. */
  lemma RunsForwardExactlyWhenCalm(m: TempoMap)
    requires IsLogarithm(m.ln)
    ensures AllCalm(m) ==> forall a, b :: 0.0 <= a < b ==> m.BeatToSeconds(a) < m.BeatToSeconds(b)
    ensures !AllCalm(m) ==> exists a, b :: 0.0 <= a < b && m.BeatToSeconds(a) > m.BeatToSeconds(b)
  {
    hide IsLogarithm, Calm;
    if AllCalm(m) {
      forall a, b | 0.0 <= a < b ensures m.BeatToSeconds(a) < m.BeatToSeconds(b) {
        SumMonotone(m, |m.points|, a, b);
      }
    } else {
      var i :| 0 <= i < |m.points| && !Calm(m, i);
      var a, b := AccelerandoStepsBack(m, i);
    }
  }

  /** A concrete map that is not monotone: 60 bpm speeding up to 240 bpm over eight beats. */
  lemma AccelerandoExample(ln: real -> real)
    requires IsLogarithm(ln)
    ensures var m := MapFields([PointFields(0.0, 60.0, LINEAR), PointFields(8.0, 240.0, STEP)], ln);
            m.Valid() && exists a, b :: 0.0 <= a < b && m.BeatToSeconds(a) > m.BeatToSeconds(b)
  {
    hide IsLogarithm;
    var m: TempoMap := MapFields([PointFields(0.0, 60.0, LINEAR), PointFields(8.0, 240.0, STEP)], ln);
    assert !Calm(m, 0);
    var a, b := AccelerandoStepsBack(m, 0);
  }

  /** Every map has a slowest and a fastest tempo. */
  lemma {:induction false} SomeBounds(points: seq<TempoPoint>) returns (lo: real, hi: real)
    requires points != []
    ensures 0.0 < lo && forall p :: p in points ==> lo <= p.bpm <= hi
    decreases |points|
  {
    var bpm := points[0].bpm;
    if |points| == 1 {
      return bpm, bpm;
    }
    lo, hi := SomeBounds(points[1..]);
    assert points == [points[0]] + points[1..];
    lo, hi := Min(lo, bpm), Max(hi, bpm);
  }

  /** The song starts at time zero. */
  lemma TimeZero(m: TempoMap, beat: real)
    requires beat <= 0.0
    ensures m.BeatToSeconds(beat) == 0.0
  {
    LaterSegmentsEmpty(m, 0, beat);
  }

  /** No beat lies before time 0. */
  lemma TimeNonNegative(m: TempoMap, beat: real)
    requires IsLogarithm(m.ln) && beat >= 0.0
    ensures m.BeatToSeconds(beat) >= 0.0
  {
    hide IsLogarithm, MapFields.BeatToSeconds;
    var lo, hi := SomeBounds(m.points);
    assert m.points[0] in m.points;
    BetweenSlowestAndFastest(m, beat, lo, hi);
    var t := m.BeatToSeconds(beat);
    if t < 0.0 { MulPositive(-t, hi); }
  }

  /** Every tempo of the map lies between `lo` and `hi`. */
  ghost predicate TemposWithin(m: TempoMap, lo: real, hi: real) {
    0.0 < lo && forall p :: p in m.points ==> lo <= p.bpm <= hi
  }

  /** `seconds` for `beats` is no faster than `hi` bpm and no slower than `lo` bpm. */
  ghost predicate PacedWithin(beats: real, seconds: real, lo: real, hi: real) {
    seconds * lo <= beats * 60.0 <= seconds * hi
  }

  lemma PacedAbove(u: real, t: real, p: real, hi: real)
    requires u >= 0.0 && 0.0 < p <= hi && u * 60.0 / p <= t
    ensures 0.0 <= t && u * 60.0 <= t * hi
  {
    var x := u * 60.0 / p;
    Cancel(u * 60.0, p);
    DivMonotone(0.0, u * 60.0, p);
    assert x * p == u * 60.0 && x >= 0.0;
    MulMonotone(x, t, p);
    MulMonotone(p, hi, t);
  }

  lemma PacedBelow(u: real, t: real, q: real, lo: real)
    requires 0.0 < lo <= q && 0.0 <= t <= u * 60.0 / q
    ensures t * lo <= u * 60.0
  {
    var x := u * 60.0 / q;
    Cancel(u * 60.0, q);
    assert x * q == u * 60.0;
    MulMonotone(t, x, q);
    MulMonotone(lo, q, t);
  }

  /** A time bounded by two tempi of the range is paced within the range. */
  lemma PacedByBounds(u: real, t: real, p: real, q: real, lo: real, hi: real)
    requires u >= 0.0 && 0.0 < lo <= p <= hi && lo <= q <= hi
    requires u * 60.0 / p <= t <= u * 60.0 / q
    ensures PacedWithin(u, t, lo, hi)
  {
    PacedAbove(u, t, p, hi);
    PacedBelow(u, t, q, lo);
  }

  lemma RampBounds(m: TempoMap, i: nat, beat: real, lo: real, hi: real)
    requires IsLogarithm(m.ln) && TemposWithin(m, lo, hi) && i < |m.points| && IsRamp(m, i)
    requires InSegment(m, i, beat) && m.points[i].atBeat < beat && !NearStart(m, i, beat)
    ensures PacedWithin(beat - m.points[i].atBeat, m.SegmentSeconds(i, beat), lo, hi)
  {
    hide IsLogarithm, Slope, NearStart, PacedWithin, MapFields.LinearBpmAt, MapFields.SegmentSeconds;
    var u, p, q, c := beat - m.points[i].atBeat, m.points[i].bpm, m.LinearBpmAt(i, beat), Slope(m, i);
    var t := m.SegmentSeconds(i, beat);
    assert lo <= p <= hi && lo <= q <= hi && 0.0 < lo by {
      assert m.points[i] in m.points && m.points[i + 1] in m.points;
      LinearBpmPositive(m, i, beat);
    }
    assert q - p == u * c by { RampTempo(m, i, beat); }
    assert c != 0.0 && t == 60.0 / c * m.ln(q / p) by { RampSeconds(m, i, beat); }
    LogPaced(m.ln, c, u, p, q, t, lo, hi);
  }

  lemma LogPaced(ln: real -> real, c: real, u: real, p: real, q: real, t: real, lo: real, hi: real)
    requires IsLogarithm(ln) && c != 0.0 && u >= 0.0 && q - p == u * c
    requires 0.0 < lo <= p <= hi && lo <= q <= hi
    requires t == 60.0 / c * ln(q / p)
    ensures PacedWithin(u, t, lo, hi)
  {
    hide IsLogarithm, PacedWithin;
    if c > 0.0 {
      RisingBounds(ln, c, u, p, q);
      PacedByBounds(u, t, q, p, lo, hi);
    } else {
      FallingBounds(ln, c, u, p, q);
      PacedByBounds(u, t, p, q, lo, hi);
    }
  }

  lemma SegmentBounds(m: TempoMap, i: nat, beat: real, lo: real, hi: real)
    requires IsLogarithm(m.ln) && TemposWithin(m, lo, hi) && i < |m.points|
    requires InSegment(m, i, beat)
    ensures PacedWithin(beat - m.points[i].atBeat, m.SegmentSeconds(i, beat), lo, hi)
  {
    hide IsLogarithm, Slope, NearStart, MapFields.LinearBpmAt;
    var u, p := beat - m.points[i].atBeat, m.points[i].bpm;
    assert m.points[i] in m.points;
    if u > 0.0 {
      if IsRamp(m, i) && !NearStart(m, i, beat) {
        RampBounds(m, i, beat, lo, hi);
      } else {
        if IsRamp(m, i) { RampSeconds(m, i, beat); }
        PacedByBounds(u, m.SegmentSeconds(i, beat), p, p, lo, hi);
      }
    }
  }

  lemma SegmentClamp(m: TempoMap, i: nat, beat: real)
    requires i < |m.points|
    ensures m.points[i].atBeat < beat ==> m.SegmentSeconds(i, beat) == m.SegmentSeconds(i, m.SegmentEnd(i, beat))
    ensures beat <= m.points[i].atBeat ==> m.SegmentSeconds(i, beat) == 0.0
  {
  }

  lemma {:induction false} SumBounds(m: TempoMap, n: nat, beat: real, lo: real, hi: real)
    requires IsLogarithm(m.ln) && TemposWithin(m, lo, hi) && n <= |m.points| && beat >= 0.0
    ensures PacedWithin(if n < |m.points| then Min(beat, m.points[n].atBeat) else beat,
                        m.SegmentSum(n, beat), lo, hi)
  {
    hide IsLogarithm, TemposWithin, MapFields.SegmentSeconds;
    if n > 0 {
      SumBounds(m, n - 1, beat, lo, hi);
      SegmentClamp(m, n - 1, beat);
      if m.points[n - 1].atBeat < beat {
        SegmentBounds(m, n - 1, m.SegmentEnd(n - 1, beat), lo, hi);
      }
    }
  }

  /** Main result: a beat never comes before its time at the fastest tempo of the map, nor
      after its time at the slowest. */
  lemma BetweenSlowestAndFastest(m: TempoMap, beat: real, lo: real, hi: real)
    requires IsLogarithm(m.ln) && TemposWithin(m, lo, hi) && beat >= 0.0
    ensures PacedWithin(beat, m.BeatToSeconds(beat), lo, hi)
  {
    SumBounds(m, |m.points|, beat, lo, hi);
  }
}
