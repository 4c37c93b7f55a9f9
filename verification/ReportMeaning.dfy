/** What each number of a report says, read off the outcomes of its own notes: counts as sizes of sets,
    weights as sums over the notes with a verdict, and the score as their ratio. */
module ReportMeaning {
  import opened ScoringTypes
  import opened RealArith
  import opened Matcher
  import opened ChordClusterer
  import opened Measures
  import opened Scorer
  import opened ScorerProofs
  import MatcherProofs

  // ----- Counting ------------------------------------------------------------------------------

  /** The indices below `n` whose verdict is `v`. */
  ghost function With(vs: seq<Verdict>, v: Verdict, n: nat): set<nat>
    requires n <= |vs|
  {
    set i: nat | i < n && vs[i] == v
  }

  lemma WithStep(vs: seq<Verdict>, v: Verdict, n: nat)
    requires n < |vs|
    ensures |With(vs, v, n + 1)| == |With(vs, v, n)| + if vs[n] == v then 1 else 0
  {
    var before, after := With(vs, v, n), With(vs, v, n + 1);
    if vs[n] == v { assert after == before + {n}; } else { assert after == before; }
  }

  lemma {:induction false} CountIsSize(vs: seq<Verdict>, v: Verdict, n: nat)
    requires n <= |vs|
    ensures Count(vs, v, n) == |With(vs, v, n)|
    decreases n
  {
    if n > 0 {
      CountIsSize(vs, v, n - 1);
      WithStep(vs, v, n - 1);
      hide With;
    }
  }

  /** The notes of a measure with verdict `v`. */
  ghost function InMeasure(
    mapper: MeasureMapper, notes: seq<ExpectedNote>, vs: seq<Verdict>, v: Verdict, measure: nat, n: nat): set<nat>
    requires n <= |vs| && n <= |notes|
  {
    set i: nat | i < n && vs[i] == v && mapper.MeasureIndex(notes[i].startBeat) == measure
  }

  lemma InMeasureStep(
    mapper: MeasureMapper, notes: seq<ExpectedNote>, vs: seq<Verdict>, v: Verdict, measure: nat, n: nat)
    requires n < |vs| && n < |notes|
    ensures |InMeasure(mapper, notes, vs, v, measure, n + 1)| == |InMeasure(mapper, notes, vs, v, measure, n)| +
              if vs[n] == v && mapper.MeasureIndex(notes[n].startBeat) == measure then 1 else 0
  {
    hide MapperFields.MeasureIndex;
    var before, after := InMeasure(mapper, notes, vs, v, measure, n), InMeasure(mapper, notes, vs, v, measure, n + 1);
    if vs[n] == v && mapper.MeasureIndex(notes[n].startBeat) == measure {
      assert after == before + {n};
    } else {
      assert after == before;
    }
  }

  lemma {:induction false} CountInIsSize(
    mapper: MeasureMapper, notes: seq<ExpectedNote>, vs: seq<Verdict>, v: Verdict, measure: nat, n: nat)
    requires n <= |vs| && n <= |notes|
    ensures CountIn(MeasuresOf(mapper, notes), vs, v, measure, n) == |InMeasure(mapper, notes, vs, v, measure, n)|
    decreases n
  {
    hide MapperFields.MeasureIndex;
    if n > 0 {
      CountInIsSize(mapper, notes, vs, v, measure, n - 1);
      InMeasureStep(mapper, notes, vs, v, measure, n - 1);
      hide InMeasure;
    }
  }

  // ----- Weighing --------------------------------------------------------------------------------

  /** The weights of those of the first `n` notes whose verdict is one of `which`, added up. */
  ghost function WeightOf(notes: seq<ExpectedNote>, vs: seq<Verdict>, which: set<Verdict>, n: nat): real
    requires n <= |notes| && n <= |vs|
  {
    if n == 0 then 0.0
    else WeightOf(notes, vs, which, n - 1) + if vs[n - 1] in which then notes[n - 1].scoringWeight else 0.0
  }

  /** What can be earned is the weight of all notes; what is earned is the weight of the notes hit, and a
      share `bonus` of the weight of the PERFECT ones on top; the score is their ratio, at most 100. */
  ghost predicate Earns(
    bonus: real, notes: seq<ExpectedNote>, vs: seq<Verdict>, n: nat, total: real, earned: real, score: real)
    requires n <= |notes| && n <= |vs|
  {
    && total == WeightOf(notes, vs, {PERFECT, GOOD, MISSED, WRONG}, n)
    && earned == WeightOf(notes, vs, {PERFECT, GOOD}, n) + bonus * WeightOf(notes, vs, {PERFECT}, n)
    && (total == 0.0 ==> score == 0.0)
    && (total != 0.0 ==> score * total == Min(100.0 * total, 100.0 * earned))
  }

  lemma {:induction false} TotalIsWeight(notes: seq<ExpectedNote>, vs: seq<Verdict>, n: nat)
    requires n <= |notes| && n <= |vs|
    ensures TotalWeight(notes, n) == WeightOf(notes, vs, {PERFECT, GOOD, MISSED, WRONG}, n)
    decreases n
  {
    if n > 0 {
      TotalIsWeight(notes, vs, n - 1);
      match vs[n - 1] { case PERFECT => case GOOD => case MISSED => case WRONG => }
    }
  }

  lemma CreditSplit(bonus: real, weight: real, v: Verdict, hit: real, perfect: real)
    ensures hit + bonus * perfect + Credit(bonus, weight, v) ==
            hit + (if v in {PERFECT, GOOD} then weight else 0.0)
            + bonus * (perfect + if v in {PERFECT} then weight else 0.0)
  {
    assert bonus * (perfect + weight) == bonus * perfect + bonus * weight;
    assert weight * (1.0 + bonus) == weight + bonus * weight;
  }

  lemma {:induction false} EarnedIsWeight(bonus: real, notes: seq<ExpectedNote>, vs: seq<Verdict>, n: nat)
    requires n <= |notes| && n <= |vs|
    ensures HitWeight(bonus, notes, vs, n) ==
            WeightOf(notes, vs, {PERFECT, GOOD}, n) + bonus * WeightOf(notes, vs, {PERFECT}, n)
    decreases n
  {
    hide Credit;
    if n > 0 {
      EarnedIsWeight(bonus, notes, vs, n - 1);
      CreditSplit(bonus, notes[n - 1].scoringWeight, vs[n - 1],
                  WeightOf(notes, vs, {PERFECT, GOOD}, n - 1), WeightOf(notes, vs, {PERFECT}, n - 1));
    }
  }

  /** Main result: the score formula is the capped ratio of what was earned to what could be. */
  lemma {:induction false} ScoreEarned(bonus: real, notes: seq<ExpectedNote>, vs: seq<Verdict>, n: nat)
    requires bonus >= 0.0 && n <= |notes| && n <= |vs|
    ensures var total, earned := TotalWeight(notes, n), HitWeight(bonus, notes, vs, n);
            Earns(bonus, notes, vs, n, total, earned, ScoreOf(bonus, notes, vs, n))
  {
    TotalIsWeight(notes, vs, n);
    EarnedIsWeight(bonus, notes, vs, n);
    WeightsNonNegative(bonus, notes, vs, n);
    var total, earned := TotalWeight(notes, n), HitWeight(bonus, notes, vs, n);
    hide TotalWeight, HitWeight, WeightOf;
    if total != 0.0 { CappedRatio(earned, total); }
  }

  lemma CappedRatio(earned: real, total: real)
    requires total > 0.0
    ensures Min(100.0, 100.0 * earned / total) * total == Min(100.0 * total, 100.0 * earned)
  {
    var q := 100.0 * earned / total;
    Cancel(100.0 * earned, total);
    if q < 100.0 { MulStrict(q, 100.0, total); } else { MulMonotone(100.0, q, total); }
  }

  // ----- The report --------------------------------------------------------------------------------

  /** Main result: outcomes, extras, counts, weights, score and stars of every report. */
  lemma ReportSays(setup: Setup, expected: seq<ExpectedNote>, events: seq<PlayedNote>)
    requires setup.thresholds.Valid()
    ensures var r, notes := Scored(setup, expected, events), Canonical(expected);
            var vs, n, th := Verdicts(r.outcomes), |expected|, setup.thresholds;
            && |vs| == |notes| == n
            && r.outcomes == Matched(setup.config, setup.tempoMap, expected, events).outcomes
            && r.extraEvents == Matched(setup.config, setup.tempoMap, expected, events).extraEvents
            && r.perfectCount == |With(vs, PERFECT, n)| && r.goodCount == |With(vs, GOOD, n)|
            && r.missedCount == |With(vs, MISSED, n)| && r.wrongCount == |With(vs, WRONG, n)|
            && r.matchedCount == |With(vs, PERFECT, n)| + |With(vs, GOOD, n)|
            && Earns(setup.config.perfectBonus, notes, vs, n, r.totalWeight, r.hitWeight, r.score)
            && (expected != [] ==>
                  r.stars == (if r.score >= th.oneStar then 1 else 0) + (if r.score >= th.twoStar then 1 else 0) +
                             (if r.score >= th.threeStar then 1 else 0))
            && (expected == [] ==> r.stars == 0)
  {
    MatchedLength(setup, expected, events);
    if expected == [] {
      NothingExpected(setup, events);
    } else {
      hide Canonical, Matched;
      ReportedSays(setup, Canonical(expected), Matched(setup.config, setup.tempoMap, expected, events));
    }
  }

  lemma NothingExpected(setup: Setup, events: seq<PlayedNote>)
    ensures Matched(setup.config, setup.tempoMap, [], events).outcomes == []
    ensures Matched(setup.config, setup.tempoMap, [], events).extraEvents == InTime(events)
  {
    MatcherProofs.NothingConsumed(InTime(events), |InTime(events)|);
    assert InTime(events)[..|InTime(events)|] == InTime(events);
  }

  lemma ReportedSays(setup: Setup, notes: seq<ExpectedNote>, matched: MatchResult)
    requires setup.thresholds.Valid() && |matched.outcomes| == |notes|
    ensures var r, vs, n, th := Reported(setup, notes, matched), Verdicts(matched.outcomes), |notes|, setup.thresholds;
            && r.outcomes == matched.outcomes && r.extraEvents == matched.extraEvents
            && r.perfectCount == |With(vs, PERFECT, n)| && r.goodCount == |With(vs, GOOD, n)|
            && r.missedCount == |With(vs, MISSED, n)| && r.wrongCount == |With(vs, WRONG, n)|
            && r.matchedCount == |With(vs, PERFECT, n)| + |With(vs, GOOD, n)|
            && Earns(setup.config.perfectBonus, notes, vs, n, r.totalWeight, r.hitWeight, r.score)
            && r.stars == (if r.score >= th.oneStar then 1 else 0) + (if r.score >= th.twoStar then 1 else 0) +
                          (if r.score >= th.threeStar then 1 else 0)
  {
    hide With, Count, TotalWeight, HitWeight, ScoreOf, Earns, Heatmap, ChordOutcomes, Clusters, Tones, MeasuresOf,
         StarsOf;
    var vs, n := Verdicts(matched.outcomes), |notes|;
    CountIsSize(vs, PERFECT, n);
    CountIsSize(vs, GOOD, n);
    CountIsSize(vs, MISSED, n);
    CountIsSize(vs, WRONG, n);
    ScoreEarned(setup.config.perfectBonus, notes, vs, n);
    StarsCount(setup.thresholds, ScoreOf(setup.config.perfectBonus, notes, vs, n));
  }

  /** Main result: the heatmap books every missed and every wrong note in the measure that holds it. */
  lemma HeatmapSays(setup: Setup, expected: seq<ExpectedNote>, events: seq<PlayedNote>, measure: nat)
    ensures var r, notes := Scored(setup, expected, events), Canonical(expected);
            var vs, n := Verdicts(r.outcomes), |expected|;
            && |vs| == |notes| == n
            && Summary(r.measureHeatmap, measure).missed == |InMeasure(setup.mapper, notes, vs, MISSED, measure, n)|
            && Summary(r.measureHeatmap, measure).wrong == |InMeasure(setup.mapper, notes, vs, WRONG, measure, n)|
            && (measure in r.measureHeatmap <==>
                  || InMeasure(setup.mapper, notes, vs, MISSED, measure, n) != {}
                  || InMeasure(setup.mapper, notes, vs, WRONG, measure, n) != {})
  {
    hide Canonical, Matched, MapperFields.MeasureIndex, ScoreOf, TotalWeight, HitWeight, Count, ChordOutcomes, Clusters,
         MeasuresOf, Tones, Heatmap, CountIn;
    MatchedLength(setup, expected, events);
    if expected != [] {
      var matched, notes := Matched(setup.config, setup.tempoMap, expected, events), Canonical(expected);
      var vs, n := Verdicts(matched.outcomes), |notes|;
      HeatmapExact(MeasuresOf(setup.mapper, notes), vs, n, measure);
      CountInIsSize(setup.mapper, notes, vs, MISSED, measure, n);
      CountInIsSize(setup.mapper, notes, vs, WRONG, measure, n);
    }
  }

  /** Main result: the chords of a report are the partition of its notes into maximal chords, each with
      its own notes. */
  lemma ChordsSay(setup: Setup, expected: seq<ExpectedNote>, events: seq<PlayedNote>)
    ensures var r, notes := Scored(setup, expected, events), Canonical(expected);
            var clusters := Clusters(setup.config, setup.tempoMap, notes);
            && IsClustering(setup.config, setup.tempoMap, clusters, notes)
            && |r.chordOutcomes| == |clusters| && Tones(clusters, |clusters|) == |r.outcomes| == |expected|
            && forall k :: 0 <= k < |clusters| ==>
                 var chord, from := r.chordOutcomes[k], Tones(clusters, k);
                 && chord.notes == clusters[k] && chord.tonesTotal == |clusters[k]|
                 && from + chord.tonesTotal <= |r.outcomes|
                 && chord.tonesHit == Hits(Verdicts(r.outcomes), from, chord.tonesTotal)
  {
    hide Canonical, Matched, ScoreOf, TotalWeight, HitWeight, Count, Heatmap, MeasuresOf, Hits, Joins;
    MatchedLength(setup, expected, events);
    var notes := Canonical(expected);
    var clusters := Clusters(setup.config, setup.tempoMap, notes);
    ClustersPartition(setup.config, setup.tempoMap, notes);
    ClusterTones(setup.config, setup.tempoMap, notes);
    if expected != [] {
      var vs := Verdicts(Matched(setup.config, setup.tempoMap, expected, events).outcomes);
      hide Clusters, IsClustering, ChordOutcomes, Tones;
      forall k | 0 <= k < |clusters|
        ensures Tones(clusters, k) + |clusters[k]| <= |vs|
        ensures ChordOutcomes(clusters, vs, |clusters|)[k] ==
                ChordOf(clusters[k], Hits(vs, Tones(clusters, k), |clusters[k]|))
      {
        ChordAt(clusters, vs, |clusters|, k);
      }
    }
  }

  /** The notes hit among the `n` from index `from` on. */
  ghost function HitAmong(vs: seq<Verdict>, from: nat, n: nat): set<nat>
    requires from + n <= |vs|
  {
    set i: nat | from <= i < from + n && (vs[i] == PERFECT || vs[i] == GOOD)
  }

  lemma HitAmongStep(vs: seq<Verdict>, from: nat, n: nat)
    requires from + n < |vs|
    ensures |HitAmong(vs, from, n + 1)| == |HitAmong(vs, from, n)| + if vs[from + n].Hit() then 1 else 0
  {
    var before, after, i := HitAmong(vs, from, n), HitAmong(vs, from, n + 1), from + n;
    if vs[i].Hit() { assert after == before + {i}; } else { assert after == before; }
  }

  /** The tones hit of a chord are counted, too. */
  lemma {:induction false} HitsIsSize(vs: seq<Verdict>, from: nat, n: nat)
    requires from + n <= |vs|
    ensures Hits(vs, from, n) == |HitAmong(vs, from, n)|
    decreases n
  {
    if n > 0 {
      HitsIsSize(vs, from, n - 1);
      HitAmongStep(vs, from, n - 1);
      hide HitAmong;
    }
  }
}
