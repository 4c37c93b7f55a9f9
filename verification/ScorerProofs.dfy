/** The parts of a score report agree with each other and with the notes they summarise. */
module ScorerProofs {
  import opened ScoringTypes
  import opened RealArith
  import opened Matcher
  import opened ChordClusterer
  import opened Measures
  import opened Scorer
  import StableSort

  // ----- Verdict counts --------------------------------------------------------------------

  lemma {:induction false} CountsSum(vs: seq<Verdict>, n: nat)
    requires n <= |vs|
    ensures Count(vs, PERFECT, n) + Count(vs, GOOD, n) + Count(vs, MISSED, n) + Count(vs, WRONG, n) == n
    ensures Hits(vs, 0, n) == Count(vs, PERFECT, n) + Count(vs, GOOD, n)
  {
    if n > 0 { CountsSum(vs, n - 1); }
  }

  lemma {:induction false} HitsSplit(vs: seq<Verdict>, a: nat, b: nat)
    requires a + b <= |vs|
    ensures Hits(vs, 0, a + b) == Hits(vs, 0, a) + Hits(vs, a, b)
    decreases b
  {
    if b > 0 { HitsSplit(vs, a, b - 1); }
  }

  // ----- Chords ------------------------------------------------------------------------------

  function TonesHit(chords: seq<ChordOutcome>): nat {
    if chords == [] then 0 else TonesHit(chords[..|chords| - 1]) + chords[|chords| - 1].tonesHit
  }

  /** The tones hit per chord add up to the notes hit so far. */
  lemma {:induction false} TonesHitSum(clusters: seq<Cluster>, vs: seq<Verdict>, k: nat)
    requires k <= |clusters| && Tones(clusters, k) <= |vs|
    ensures TonesHit(ChordOutcomes(clusters, vs, k)) == Hits(vs, 0, Tones(clusters, k))
    decreases k
  {
    if k > 0 {
      TonesHitSum(clusters, vs, k - 1);
      HitsSplit(vs, Tones(clusters, k - 1), |clusters[k - 1]|);
      var chords := ChordOutcomes(clusters, vs, k);
      assert chords[..k - 1] == ChordOutcomes(clusters, vs, k - 1);
    }
  }

  lemma {:induction false} HitsAll(vs: seq<Verdict>, from: nat, n: nat)
    requires from + n <= |vs|
    ensures Hits(vs, from, n) <= n
    ensures Hits(vs, from, n) == n <==> forall i :: from <= i < from + n ==> vs[i].Hit()
    ensures Hits(vs, from, n) == 0 <==> forall i :: from <= i < from + n ==> !vs[i].Hit()
    decreases n
  {
    if n > 0 { HitsAll(vs, from, n - 1); }
  }

  lemma {:induction false} ChordAt(clusters: seq<Cluster>, vs: seq<Verdict>, n: nat, k: nat)
    requires k < n <= |clusters| && Tones(clusters, n) <= |vs|
    ensures Tones(clusters, k) + |clusters[k]| <= |vs|
    ensures ChordOutcomes(clusters, vs, n)[k] == ChordOf(clusters[k], Hits(vs, Tones(clusters, k), |clusters[k]|))
    decreases n
  {
    if k < n - 1 { ChordAt(clusters, vs, n - 1, k); }
  }

  /** Main result: a chord is FULL exactly when all its tones were hit, and without a hit exactly
      when none was; its tones are the notes at its own place in the canonical order. */
  lemma {:induction false} ChordStatusExact(clusters: seq<Cluster>, vs: seq<Verdict>, k: nat)
    requires k < |clusters| && Tones(clusters, |clusters|) <= |vs|
    ensures var chord, from := ChordOutcomes(clusters, vs, |clusters|)[k], Tones(clusters, k);
            && from + chord.tonesTotal <= |vs| && chord.tonesTotal == |clusters[k]|
            && (chord.outcome == FULL <==> forall i :: from <= i < from + chord.tonesTotal ==> vs[i].Hit())
            && (chord.outcome == NONE_HIT <==> forall i :: from <= i < from + chord.tonesTotal ==> !vs[i].Hit())
  {
    ChordAt(clusters, vs, |clusters|, k);
    HitsAll(vs, Tones(clusters, k), |clusters[k]|);
  }

  // ----- Heatmap -----------------------------------------------------------------------------

  /** How many of the first `n` notes lie in `measure` and have verdict `v`. */
  function CountIn(measures: seq<nat>, vs: seq<Verdict>, v: Verdict, measure: nat, n: nat): nat
    requires n <= |measures| && n <= |vs|
  {
    if n == 0 then 0
    else CountIn(measures, vs, v, measure, n - 1) + if measures[n - 1] == measure && vs[n - 1] == v then 1 else 0
  }

  /** Main result: the heatmap holds exactly the measures with an error, each with its own counts. */
  lemma {:induction false} HeatmapExact(measures: seq<nat>, vs: seq<Verdict>, n: nat, measure: nat)
    requires n <= |measures| && n <= |vs|
    ensures var heat := Heatmap(measures, vs, n);
            && Summary(heat, measure).missed == CountIn(measures, vs, MISSED, measure, n)
            && Summary(heat, measure).wrong == CountIn(measures, vs, WRONG, measure, n)
            && (measure in heat <==> Summary(heat, measure) != MeasureErrorSummary(0, 0))
    decreases n
  {
    if n > 0 {
      HeatmapExact(measures, vs, n - 1, measure);
      HeatmapExact(measures, vs, n - 1, measures[n - 1]);
    }
  }

  /** The missed and wrong notes of the measures below `bound`. */
  function HeatTotal(heat: map<nat, MeasureErrorSummary>, bound: nat): MeasureErrorSummary {
    if bound == 0 then MeasureErrorSummary(0, 0)
    else
      var rest, last := HeatTotal(heat, bound - 1), Summary(heat, bound - 1);
      MeasureErrorSummary(rest.missed + last.missed, rest.wrong + last.wrong)
  }

  lemma {:induction false} HeatTotalUpdate(
    heat: map<nat, MeasureErrorSummary>, measure: nat, s: MeasureErrorSummary, bound: nat)
    ensures var now, before := HeatTotal(heat[measure := s], bound), HeatTotal(heat, bound);
            var was := Summary(heat, measure);
            if measure < bound
            then now.missed + was.missed == before.missed + s.missed && now.wrong + was.wrong == before.wrong + s.wrong
            else now == before
    decreases bound
  {
    if bound > 0 { HeatTotalUpdate(heat, measure, s, bound - 1); }
  }

  lemma {:induction false} HeatTotals(measures: seq<nat>, vs: seq<Verdict>, n: nat, bound: nat)
    requires n <= |measures| && n <= |vs| && forall i :: 0 <= i < n ==> measures[i] < bound
    ensures HeatTotal(Heatmap(measures, vs, n), bound)
         == MeasureErrorSummary(Count(vs, MISSED, n), Count(vs, WRONG, n))
    decreases n
  {
    hide HeatTotal, Summary;
    if n == 0 {
      EmptyHeat(bound);
    } else {
      HeatTotals(measures, vs, n - 1, bound);
      var before, measure := Heatmap(measures, vs, n - 1), measures[n - 1];
      var was := Summary(before, measure);
      HeatTotalUpdate(before, measure, MeasureErrorSummary(was.missed + 1, was.wrong), bound);
      HeatTotalUpdate(before, measure, MeasureErrorSummary(was.missed, was.wrong + 1), bound);
    }
  }

  lemma {:induction false} EmptyHeat(bound: nat)
    ensures HeatTotal(map[], bound) == MeasureErrorSummary(0, 0)
    decreases bound
  {
    if bound > 0 { EmptyHeat(bound - 1); }
  }

  // ----- Score and stars -----------------------------------------------------------------------

  lemma {:induction false} WeightsNonNegative(bonus: real, notes: seq<ExpectedNote>, vs: seq<Verdict>, n: nat)
    requires bonus >= 0.0 && n <= |notes| && n <= |vs|
    ensures TotalWeight(notes, n) >= 0.0 && HitWeight(bonus, notes, vs, n) >= 0.0
    decreases n
  {
    if n > 0 {
      WeightsNonNegative(bonus, notes, vs, n - 1);
      CreditBounds(bonus, notes[n - 1].scoringWeight, vs[n - 1]);
    }
  }

  lemma CreditBounds(bonus: real, weight: real, v: Verdict)
    requires bonus >= 0.0 && weight >= 0.0
    ensures Credit(bonus, weight, v) >= 0.0
    ensures v.Hit() ==> Credit(bonus, weight, v) >= weight
    ensures !v.Hit() ==> Credit(bonus, weight, v) == 0.0
  {
    MulNonNegative(weight, bonus);
    assert weight * (1.0 + bonus) == weight + weight * bonus;
  }

  lemma {:induction false} AllHitEarnsTotal(bonus: real, notes: seq<ExpectedNote>, vs: seq<Verdict>, n: nat)
    requires bonus >= 0.0 && n <= |notes| && n <= |vs|
    ensures (forall i :: 0 <= i < n ==> vs[i].Hit()) ==> HitWeight(bonus, notes, vs, n) >= TotalWeight(notes, n)
    ensures (forall i :: 0 <= i < n ==> !vs[i].Hit()) ==> HitWeight(bonus, notes, vs, n) == 0.0
    decreases n
  {
    if n > 0 {
      AllHitEarnsTotal(bonus, notes, vs, n - 1);
      CreditBounds(bonus, notes[n - 1].scoringWeight, vs[n - 1]);
    }
  }

  /** Main result: a score lies in [0, 100]; it is 100 when every note was hit and something
      counts, and 0 when nothing was hit. */
  lemma {:induction false} ScoreInRange(bonus: real, notes: seq<ExpectedNote>, vs: seq<Verdict>, n: nat)
    requires bonus >= 0.0 && n <= |notes| && n <= |vs|
    ensures 0.0 <= ScoreOf(bonus, notes, vs, n) <= 100.0
    ensures (forall i :: 0 <= i < n ==> vs[i].Hit()) && TotalWeight(notes, n) > 0.0 ==>
              ScoreOf(bonus, notes, vs, n) == 100.0
    ensures (forall i :: 0 <= i < n ==> !vs[i].Hit()) ==> ScoreOf(bonus, notes, vs, n) == 0.0
  {
    WeightsNonNegative(bonus, notes, vs, n);
    AllHitEarnsTotal(bonus, notes, vs, n);
    var total, hit := TotalWeight(notes, n), HitWeight(bonus, notes, vs, n);
    if total != 0.0 {
      Quotient(0.0, total, 0.0);
      Quotient(100.0 * total, total, 100.0);
      DivMonotone(0.0, 100.0 * hit, total);
      if hit >= total { DivMonotone(100.0 * total, 100.0 * hit, total); }
    }
  }

  /** Stars are the number of thresholds met. */
  lemma StarsCount(th: StarThresholds, score: real)
    requires th.Valid()
    ensures StarsOf(th, score) ==
      (if score >= th.oneStar then 1 else 0) + (if score >= th.twoStar then 1 else 0)
      + (if score >= th.threeStar then 1 else 0)
  {}

  // ----- The report ------------------------------------------------------------------------------

  lemma MatchedLength(setup: Setup, expected: seq<ExpectedNote>, events: seq<PlayedNote>)
    ensures |Matched(setup.config, setup.tempoMap, expected, events).outcomes| == |expected|
    ensures |Canonical(expected)| == |expected|
  {
    CanonicalTwice(expected);
  }

  /** Main result: in every report the four verdict counts add up to the notes expected, the tones
      hit over all chords to the matched notes, the heatmap to the missed and the wrong notes. */
  lemma {:induction false} ReportAddsUp(setup: Setup, expected: seq<ExpectedNote>, events: seq<PlayedNote>, bound: nat)
    requires forall n :: n in expected ==> setup.mapper.MeasureIndex(n.startBeat) < bound
    ensures var r := Scored(setup, expected, events);
            && r.perfectCount + r.goodCount + r.missedCount + r.wrongCount == |expected| == |r.outcomes|
            && r.matchedCount == r.perfectCount + r.goodCount == TonesHit(r.chordOutcomes)
            && HeatTotal(r.measureHeatmap, bound) == MeasureErrorSummary(r.missedCount, r.wrongCount)
            && 0.0 <= r.score <= 100.0 && r.stars <= 3 && r.totalWeight >= 0.0 && r.hitWeight >= 0.0
  {
    if expected == [] {
      EmptyHeat(bound);
    } else {
      MatchedLength(setup, expected, events);
      var notes, matched := Canonical(expected), Matched(setup.config, setup.tempoMap, expected, events);
      assert forall n :: n in notes ==> n in expected by {
        StableSort.SortCorrect(NoteLe, expected);
        assert forall n :: n in notes ==> n in multiset(notes);
      }
      hide Canonical, Matched;
      MeasuresBelow(setup.mapper, notes, bound);
      ReportedAddsUp(setup, notes, matched, bound);
    }
  }

  lemma MeasuresBelow(mapper: MeasureMapper, notes: seq<ExpectedNote>, bound: nat)
    requires forall n :: n in notes ==> mapper.MeasureIndex(n.startBeat) < bound
    ensures forall i :: 0 <= i < |notes| ==> MeasuresOf(mapper, notes)[i] < bound
  {
    hide MapperFields.MeasureIndex;
  }

  lemma ReportedInRange(setup: Setup, notes: seq<ExpectedNote>, matched: MatchResult)
    requires |matched.outcomes| == |notes|
    ensures var r := Reported(setup, notes, matched);
            && 0.0 <= r.score <= 100.0 && r.stars <= 3 && r.totalWeight >= 0.0 && r.hitWeight >= 0.0
  {
    var n, vs, bonus := |notes|, Verdicts(matched.outcomes), setup.config.perfectBonus;
    ScoreInRange(bonus, notes, vs, n);
    WeightsNonNegative(bonus, notes, vs, n);
    ClusterTones(setup.config, setup.tempoMap, notes);
    hide MeasuresOf, Clusters, Heatmap, ChordOutcomes, ScoreOf, TotalWeight, HitWeight, Count, Tones;
  }

  /** Every report is one its constructor accepts. */
  lemma ReportInRange(setup: Setup, expected: seq<ExpectedNote>, events: seq<PlayedNote>)
    ensures var r := Scored(setup, expected, events);
            && 0.0 <= r.score <= 100.0 && r.stars <= 3 && r.totalWeight >= 0.0 && r.hitWeight >= 0.0
  {
    hide Canonical, Matched, Reported;
    if expected != [] {
      CanonicalTwice(expected);
      MatchedLength(setup, expected, events);
      ReportedInRange(setup, Canonical(expected), Matched(setup.config, setup.tempoMap, expected, events));
    }
  }

  lemma {:induction false} ReportedAddsUp(setup: Setup, notes: seq<ExpectedNote>, matched: MatchResult, bound: nat)
    requires |matched.outcomes| == |notes|
    requires forall i :: 0 <= i < |notes| ==> MeasuresOf(setup.mapper, notes)[i] < bound
    ensures var r := Reported(setup, notes, matched);
            && r.perfectCount + r.goodCount + r.missedCount + r.wrongCount == |notes|
            && r.matchedCount == r.perfectCount + r.goodCount == TonesHit(r.chordOutcomes)
            && HeatTotal(r.measureHeatmap, bound) == MeasureErrorSummary(r.missedCount, r.wrongCount)
            && 0.0 <= r.score <= 100.0 && r.stars <= 3 && r.totalWeight >= 0.0 && r.hitWeight >= 0.0
  {
    var n, vs, bonus := |notes|, Verdicts(matched.outcomes), setup.config.perfectBonus;
    var clusters := Clusters(setup.config, setup.tempoMap, notes);
    var measures := MeasuresOf(setup.mapper, notes);
    ClusterTones(setup.config, setup.tempoMap, notes);
    hide MeasuresOf, Clusters, MapperFields.MeasureIndex, Heatmap, ChordOutcomes, ScoreOf, TotalWeight, HitWeight,
         Count, TonesHit, HeatTotal, Hits, Tones;
    CountsSum(vs, n);
    TonesHitSum(clusters, vs, |clusters|);
    HeatTotals(measures, vs, n, bound);
    ScoreInRange(bonus, notes, vs, n);
    WeightsNonNegative(bonus, notes, vs, n);
  }
}
