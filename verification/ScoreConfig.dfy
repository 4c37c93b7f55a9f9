/** Scoring configuration: hit windows, the PERFECT band, the bonus and the chord tolerance. */
module Config {
  import opened RealArith
  import opened Tempo

  datatype ConfigFields = ConfigFields(
    refBpm: real,
    baseEarlyMs: real,
    baseLateMs: real,
    beginner: bool,
    beginnerEarlyMs: real,
    beginnerLateMs: real,
    windowScaleClampMin: real,
    windowScaleClampMax: real,
    perfectBandMs: real,
    perfectBonus: real,
    chordClusterMs: real)
  {
    predicate Valid() {
      && refBpm > 0.0 && baseEarlyMs > 0.0 && baseLateMs > 0.0
      && beginnerEarlyMs > 0.0 && beginnerLateMs > 0.0
      && 0.0 < windowScaleClampMin <= windowScaleClampMax
      && perfectBandMs > 0.0 && perfectBonus >= 0.0 && chordClusterMs > 0.0
    }

    /** The widths of the two sides at the reference tempo, for the level in force. */
    function EarlyBase(): real { if beginner then beginnerEarlyMs else baseEarlyMs }
    function LateBase(): real { if beginner then beginnerLateMs else baseLateMs }
  }

  const DEFAULT_CONFIG :=
    ConfigFields(120.0, 120.0, 180.0, false, 250.0, 250.0, 0.5, 2.0, 50.0, 0.1, 90.0)

  type ScoreConfig = c: ConfigFields | c.Valid() witness DEFAULT_CONFIG

  datatype HitWindow = HitWindow(earlyMs: real, lateMs: real)

  function CoerceIn(x: real, lo: real, hi: real): real {
    if x < lo then lo else if x > hi then hi else x
  }

  function Scale(c: ScoreConfig, beat: real, m: TempoMap): real {
    CoerceIn(c.refBpm / m.BpmAt(beat), c.windowScaleClampMin, c.windowScaleClampMax)
  }

  /** A base width at the tempo of the note. */
  function Scaled(base: real, scale: real): real { base * scale }

  /** The hit window of a note, tempo-scaled, clamped and widened for beginners. */
  function WindowMs(c: ScoreConfig, beat: real, m: TempoMap): HitWindow {
    var scale := Scale(c, beat, m);
    HitWindow(Scaled(c.EarlyBase(), scale), Scaled(c.LateBase(), scale))
  }

  lemma ScaledOrder(x: real, y: real, scale: real)
    requires x > 0.0 && y > 0.0 && scale > 0.0
    ensures Scaled(x, scale) > 0.0 && Scaled(y, scale) > 0.0
    ensures Scaled(x, scale) <= Scaled(y, scale) <==> x <= y
  {
    ScalingKeepsOrder(x, y, scale);
  }

  lemma ScaledClamp(base: real, scale: real, lo: real, hi: real)
    requires base > 0.0 && lo <= scale <= hi
    ensures Scaled(base, lo) <= Scaled(base, scale) <= Scaled(base, hi)
  {
    MulMonotone(lo, scale, base);
    MulMonotone(scale, hi, base);
  }

  /** Windows stay within the clamp, are never empty, and scaling keeps the late side at least as wide as the early. */
  lemma WindowShape(c: ScoreConfig, beat: real, m: TempoMap)
    ensures var w := WindowMs(c, beat, m);
            && w.earlyMs > 0.0 && w.lateMs > 0.0
            && (w.earlyMs <= w.lateMs <==> c.EarlyBase() <= c.LateBase())
            && Scaled(c.EarlyBase(), c.windowScaleClampMin) <= w.earlyMs <= Scaled(c.EarlyBase(), c.windowScaleClampMax)
            && Scaled(c.LateBase(), c.windowScaleClampMin) <= w.lateMs <= Scaled(c.LateBase(), c.windowScaleClampMax)
  {
    hide Scaled;
    var scale := Scale(c, beat, m);
    ScaledOrder(c.EarlyBase(), c.LateBase(), scale);
    ScaledClamp(c.EarlyBase(), scale, c.windowScaleClampMin, c.windowScaleClampMax);
    ScaledClamp(c.LateBase(), scale, c.windowScaleClampMin, c.windowScaleClampMax);
  }

  /** A side of a window that is `base` wide at the tempo `ref`: between the bounds it shrinks and grows
      with the length of a beat; for a note faster or slower than that it is as wide as at the bound. */
  ghost predicate FollowsTempo(width: real, base: real, ref: real, bpm: real, lo: real, hi: real) {
    && (ref < lo * bpm ==> width == base * lo)
    && (lo * bpm <= ref <= hi * bpm ==> width * bpm == base * ref)
    && (hi * bpm < ref ==> width == base * hi)
  }

  /** Main result: each side of the window is the configured width of the level in force, following the
      tempo of the note. */
  lemma WindowWidths(c: ScoreConfig, beat: real, m: TempoMap)
    ensures var w, bpm, lo, hi := WindowMs(c, beat, m), m.BpmAt(beat), c.windowScaleClampMin, c.windowScaleClampMax;
            && FollowsTempo(w.earlyMs, if c.beginner then c.beginnerEarlyMs else c.baseEarlyMs, c.refBpm, bpm, lo, hi)
            && FollowsTempo(w.lateMs, if c.beginner then c.beginnerLateMs else c.baseLateMs, c.refBpm, bpm, lo, hi)
  {
    hide Scaled, CoerceIn, MapFields.BpmAt, FollowsTempo;
    SideWidth(c.EarlyBase(), c.refBpm, m.BpmAt(beat), c.windowScaleClampMin, c.windowScaleClampMax);
    SideWidth(c.LateBase(), c.refBpm, m.BpmAt(beat), c.windowScaleClampMin, c.windowScaleClampMax);
  }

  lemma SideWidth(base: real, ref: real, bpm: real, lo: real, hi: real)
    requires bpm > 0.0 && lo <= hi
    ensures FollowsTempo(Scaled(base, CoerceIn(ref / bpm, lo, hi)), base, ref, bpm, lo, hi)
  {
    var ratio := ref / bpm;
    Cancel(ref, bpm);
    hide Scaled, CoerceIn;
    RatioOrder(ratio, bpm, lo);
    RatioOrder(ratio, bpm, hi);
    ClampedWidth(base, ratio, lo, hi);
    if lo <= ratio <= hi { SameProduct(base, ratio, bpm, ref); }
  }

  lemma RatioOrder(x: real, d: real, bound: real)
    requires d > 0.0
    ensures x < bound <==> x * d < bound * d
    ensures x > bound <==> x * d > bound * d
  {
    if x < bound { MulStrict(x, bound, d); } else if x > bound { MulStrict(bound, x, d); }
  }

  lemma ClampedWidth(base: real, ratio: real, lo: real, hi: real)
    requires lo <= hi
    ensures var width := Scaled(base, CoerceIn(ratio, lo, hi));
            && (ratio < lo ==> width == base * lo)
            && (lo <= ratio <= hi ==> width == base * ratio)
            && (hi < ratio ==> width == base * hi)
  {}

  lemma SameProduct(a: real, b: real, c: real, d: real)
    requires b * c == d
    ensures a * b * c == a * d
  {
    assert a * (b * c) == a * b * c;
  }
}
