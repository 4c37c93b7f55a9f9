/** The batch scorer: cluster, match, aggregate. */
module Scorer {
  import opened ScoringTypes
  import opened Tempo
  import opened Config
  import opened Matcher
  import opened ChordClusterer
  import opened Measures
  import StableSort

  datatype StarThresholds = StarThresholds(oneStar: real, twoStar: real, threeStar: real) {
    predicate Valid() { 0.0 <= oneStar <= twoStar <= threeStar <= 100.0 }
  }

  datatype MeasureErrorSummary = MeasureErrorSummary(missed: nat, wrong: nat)

  datatype ChordStatus = FULL | PARTIAL | NONE_HIT

  datatype ChordOutcome = ChordOutcome(notes: Cluster, tonesHit: nat, tonesTotal: nat, outcome: ChordStatus)

  datatype ScoreReport = ScoreReport(
    score: real,
    stars: nat,
    outcomes: seq<NoteOutcome>,
    chordOutcomes: seq<ChordOutcome>,
    measureHeatmap: map<nat, MeasureErrorSummary>,
    extraEvents: seq<PlayedNote>,
    totalWeight: real,
    hitWeight: real,
    perfectCount: nat,
    goodCount: nat,
    missedCount: nat,
    wrongCount: nat,
    matchedCount: nat)

  /** Everything a scorer is built from; `starts` is the measure mapper's table of bar lines. */
  datatype Setup = Setup(
    config: ScoreConfig,
    tempoMap: TempoMap,
    mapper: MeasureMapper,
    starts: seq<real>,
    thresholds: StarThresholds)
  {
    ghost predicate Valid() {
      thresholds.Valid() && (mapper.duration.Some? ==> IsTable(mapper, starts))
    }
  }

  // ----- What is summed -----------------------------------------------------------------

  function Verdicts(outcomes: seq<NoteOutcome>): (vs: seq<Verdict>)
    ensures |vs| == |outcomes| && forall i :: 0 <= i < |vs| ==> vs[i] == outcomes[i].verdict
  {
    seq(|outcomes|, i requires 0 <= i < |outcomes| => outcomes[i].verdict)
  }

  function TotalWeight(notes: seq<ExpectedNote>, n: nat): real
    requires n <= |notes|
  {
    if n == 0 then 0.0 else TotalWeight(notes, n - 1) + notes[n - 1].scoringWeight
  }

  /** What a verdict earns: PERFECT carries the bonus, GOOD the plain weight. */
  function Credit(bonus: real, weight: real, v: Verdict): real {
    match v
    case PERFECT => weight * (1.0 + bonus)
    case GOOD => weight
    case MISSED => 0.0
    case WRONG => 0.0
  }

  function HitWeight(bonus: real, notes: seq<ExpectedNote>, vs: seq<Verdict>, n: nat): real
    requires n <= |notes| && n <= |vs|
  {
    if n == 0 then 0.0
    else HitWeight(bonus, notes, vs, n - 1) + Credit(bonus, notes[n - 1].scoringWeight, vs[n - 1])
  }

  function Count(vs: seq<Verdict>, v: Verdict, n: nat): nat
    requires n <= |vs|
  {
    if n == 0 then 0 else Count(vs, v, n - 1) + if vs[n - 1] == v then 1 else 0
  }

  /** The score of the first `n` notes under the verdicts `vs`. */
  function ScoreOf(bonus: real, notes: seq<ExpectedNote>, vs: seq<Verdict>, n: nat): real
    requires n <= |notes| && n <= |vs|
  {
    var total := TotalWeight(notes, n);
    if total == 0.0 then 0.0 else Min(100.0, 100.0 * HitWeight(bonus, notes, vs, n) / total)
  }

  function StarsOf(thresholds: StarThresholds, score: real): nat {
    if score >= thresholds.threeStar then 3
    else if score >= thresholds.twoStar then 2
    else if score >= thresholds.oneStar then 1
    else 0
  }

  /** How many of the `n` notes from index `from` on were hit. */
  function Hits(vs: seq<Verdict>, from: nat, n: nat): nat
    requires from + n <= |vs|
  {
    if n == 0 then 0 else Hits(vs, from, n - 1) + if vs[from + n - 1].Hit() then 1 else 0
  }

  function Tones(clusters: seq<Cluster>, k: nat): nat
    requires k <= |clusters|
  {
    if k == 0 then 0 else Tones(clusters, k - 1) + |clusters[k - 1]|
  }

  function ChordOf(cluster: Cluster, tonesHit: nat): ChordOutcome {
    ChordOutcome(cluster, tonesHit, |cluster|,
                 if tonesHit == |cluster| then FULL else if tonesHit > 0 then PARTIAL else NONE_HIT)
  }

  function ChordOutcomes(clusters: seq<Cluster>, vs: seq<Verdict>, k: nat): (r: seq<ChordOutcome>)
    requires k <= |clusters| && Tones(clusters, k) <= |vs|
    ensures |r| == k
  {
    if k == 0 then []
    else
      var tonesHit := Hits(vs, Tones(clusters, k - 1), |clusters[k - 1]|);
      ChordOutcomes(clusters, vs, k - 1) + [ChordOf(clusters[k - 1], tonesHit)]
  }

  function Summary(heat: map<nat, MeasureErrorSummary>, measure: nat): MeasureErrorSummary {
    if measure in heat then heat[measure] else MeasureErrorSummary(0, 0)
  }

  /** The per-measure error counts after the first `n` notes. */
  function Heatmap(measures: seq<nat>, vs: seq<Verdict>, n: nat): map<nat, MeasureErrorSummary>
    requires n <= |measures| && n <= |vs|
  {
    if n == 0 then map[]
    else
      var before := Heatmap(measures, vs, n - 1);
      var summary := Summary(before, measures[n - 1]);
      match vs[n - 1]
      case MISSED => before[measures[n - 1] := MeasureErrorSummary(summary.missed + 1, summary.wrong)]
      case WRONG => before[measures[n - 1] := MeasureErrorSummary(summary.missed, summary.wrong + 1)]
      case PERFECT => before
      case GOOD => before
  }

  function MeasuresOf(mapper: MeasureMapper, notes: seq<ExpectedNote>): (ms: seq<nat>)
    ensures |ms| == |notes|
  {
    seq(|notes|, i requires 0 <= i < |notes| => mapper.MeasureIndex(notes[i].startBeat))
  }

  lemma {:induction false} FlattenLength(clusters: seq<Cluster>, k: nat)
    requires k <= |clusters|
    ensures Tones(clusters, k) + |Flatten(clusters[k..])| == |Flatten(clusters)|
    decreases k
  {
    if k == 0 {
      assert clusters[0..] == clusters;
    } else {
      FlattenLength(clusters, k - 1);
      assert clusters[k - 1..][1..] == clusters[k..];
    }
  }

  lemma {:induction false} ClusterTones(config: ScoreConfig, m: TempoMap, notes: seq<ExpectedNote>)
    ensures var clusters := Clusters(config, m, notes); Tones(clusters, |clusters|) == |notes|
  {
    var clusters := Clusters(config, m, notes);
    ClustersPartition(config, m, notes);
    FlattenLength(clusters, |clusters|);
    assert clusters[|clusters|..] == [];
  }

  /** The report on ordered notes and their matches. */
  function Reported(setup: Setup, notes: seq<ExpectedNote>, matched: MatchResult): ScoreReport
    requires |matched.outcomes| == |notes|
  {
    var n, bonus, vs := |notes|, setup.config.perfectBonus, Verdicts(matched.outcomes);
    var clusters := Clusters(setup.config, setup.tempoMap, notes);
    ClusterTones(setup.config, setup.tempoMap, notes);
    var score := ScoreOf(bonus, notes, vs, n);
    ScoreReport(
      score,
      StarsOf(setup.thresholds, score),
      matched.outcomes,
      ChordOutcomes(clusters, vs, |clusters|),
      Heatmap(MeasuresOf(setup.mapper, notes), vs, n),
      matched.extraEvents,
      TotalWeight(notes, n),
      HitWeight(bonus, notes, vs, n),
      Count(vs, PERFECT, n), Count(vs, GOOD, n), Count(vs, MISSED, n), Count(vs, WRONG, n),
      Count(vs, PERFECT, n) + Count(vs, GOOD, n))
  }

  /** The report of one pass: `expected` and `events` in any order. */
  function Scored(setup: Setup, expected: seq<ExpectedNote>, events: seq<PlayedNote>): ScoreReport {
    if expected == [] then
      ScoreReport(0.0, 0, [], [], map[], InTime(events), 0.0, 0.0, 0, 0, 0, 0, 0)
    else
      Reported(setup, Canonical(expected), Matched(setup.config, setup.tempoMap, expected, events))
  }

  // ----- The aggregation loops -------------------------------------------------------------

  method Aggregate(bonus: real, notes: seq<ExpectedNote>, vs: seq<Verdict>)
    returns (hitWeight: real, totalWeight: real, perfect: nat, good: nat, missed: nat, wrong: nat)
    requires |notes| == |vs|
    ensures hitWeight == HitWeight(bonus, notes, vs, |vs|) && totalWeight == TotalWeight(notes, |vs|)
    ensures perfect == Count(vs, PERFECT, |vs|) && good == Count(vs, GOOD, |vs|)
    ensures missed == Count(vs, MISSED, |vs|) && wrong == Count(vs, WRONG, |vs|)
  {
    hitWeight, totalWeight, perfect, good, missed, wrong := 0.0, 0.0, 0, 0, 0, 0;
    for index := 0 to |vs|
      invariant hitWeight == HitWeight(bonus, notes, vs, index) && totalWeight == TotalWeight(notes, index)
      invariant perfect == Count(vs, PERFECT, index) && good == Count(vs, GOOD, index)
      invariant missed == Count(vs, MISSED, index) && wrong == Count(vs, WRONG, index)
    {
      var weight := notes[index].scoringWeight;
      totalWeight := totalWeight + weight;
      match vs[index] {
        case PERFECT =>
          hitWeight := hitWeight + weight * (1.0 + bonus);
          perfect := perfect + 1;
        case GOOD =>
          hitWeight := hitWeight + weight;
          good := good + 1;
        case MISSED => missed := missed + 1;
        case WRONG => wrong := wrong + 1;
      }
    }
  }

  method CountHits(vs: seq<Verdict>, from: nat, n: nat) returns (hits: nat)
    requires from + n <= |vs|
    ensures hits == Hits(vs, from, n)
  {
    hits := 0;
    for offset := 0 to n
      invariant hits == Hits(vs, from, offset)
    {
      if vs[from + offset].Hit() { hits := hits + 1; }
    }
  }

  method CollectChords(clusters: seq<Cluster>, vs: seq<Verdict>) returns (chords: seq<ChordOutcome>)
    requires Tones(clusters, |clusters|) == |vs|
    ensures chords == ChordOutcomes(clusters, vs, |clusters|)
  {
    chords := [];
    var outcomeCursor := 0;
    for k := 0 to |clusters|
      invariant outcomeCursor == Tones(clusters, k) <= |vs|
      invariant chords == ChordOutcomes(clusters, vs, k)
    {
      TonesGrow(clusters, k + 1, |clusters|);
      var cluster := clusters[k];
      var tonesHit := CountHits(vs, outcomeCursor, |cluster|);
      outcomeCursor := outcomeCursor + |cluster|;
      chords := chords + [ChordOf(cluster, tonesHit)];
    }
  }

  lemma {:induction false} TonesGrow(clusters: seq<Cluster>, k: nat, l: nat)
    requires k <= l <= |clusters|
    ensures Tones(clusters, k) <= Tones(clusters, l)
    decreases l
  {
    if k < l { TonesGrow(clusters, k, l - 1); }
  }

  method CollectHeatmap(setup: Setup, notes: seq<ExpectedNote>, vs: seq<Verdict>)
    returns (heatmap: map<nat, MeasureErrorSummary>)
    requires setup.Valid() && |notes| == |vs|
    ensures heatmap == Heatmap(MeasuresOf(setup.mapper, notes), vs, |vs|)
  {
    hide IsTable, MapperFields.MeasureIndex;
    ghost var measures := MeasuresOf(setup.mapper, notes);
    heatmap := map[];
    for index := 0 to |vs|
      invariant heatmap == Heatmap(measures, vs, index)
    {
      if vs[index] != MISSED && vs[index] != WRONG { continue; }
      var measure := Measures.MeasureIndex(setup.mapper, setup.starts, notes[index].startBeat);
      var summary := Summary(heatmap, measure);
      if vs[index] == MISSED {
        heatmap := heatmap[measure := summary.(missed := summary.missed + 1)];
      } else {
        heatmap := heatmap[measure := summary.(wrong := summary.wrong + 1)];
      }
    }
  }

  lemma CanonicalTwice(expected: seq<ExpectedNote>)
    ensures Canonical(Canonical(expected)) == Canonical(expected)
    ensures |Canonical(expected)| == |expected|
  {
    StableSort.SortCorrect(NoteLe, expected);
    StableSort.SortIdempotent(NoteLe, Canonical(expected));
  }

  method Report(setup: Setup, notes: seq<ExpectedNote>, clusters: seq<Cluster>, matched: MatchResult)
    returns (report: ScoreReport)
    requires setup.Valid() && |matched.outcomes| == |notes|
    requires clusters == Clusters(setup.config, setup.tempoMap, notes)
    ensures report == Reported(setup, notes, matched)
  {
    hide Clusters, MeasuresOf, Heatmap, ChordOutcomes, IsTable, HitWeight, TotalWeight, Count;
    var vs := Verdicts(matched.outcomes);
    ClusterTones(setup.config, setup.tempoMap, notes);
    var hitWeight, totalWeight, perfect, good, missed, wrong := Aggregate(setup.config.perfectBonus, notes, vs);
    var score := if totalWeight == 0.0 then 0.0 else Min(100.0, 100.0 * hitWeight / totalWeight);
    var chords := CollectChords(clusters, vs);
    var heatmap := CollectHeatmap(setup, notes, vs);
    report := ScoreReport(
      score, StarsOf(setup.thresholds, score), matched.outcomes, chords, heatmap, matched.extraEvents,
      totalWeight, hitWeight, perfect, good, missed, wrong, perfect + good);
  }

  /** The scorer: the canonical order is computed once and handed to the clusterer and the
      matcher, which order it again. */
  method Score(setup: Setup, expected: seq<ExpectedNote>, events: seq<PlayedNote>) returns (report: ScoreReport)
    requires setup.Valid()
    ensures report == Scored(setup, expected, events)
  {
    if expected == [] {
      return ScoreReport(0.0, 0, [], [], map[], InTime(events), 0.0, 0.0, 0, 0, 0, 0, 0);
    }
    hide Canonical, InTime, Clusters, Reported, Setup.Valid;
    var canonical := Canonical(expected);
    CanonicalTwice(expected);
    var clusters := ClusterNotes(setup.config, setup.tempoMap, canonical);
    var matchResult := Match(setup.config, setup.tempoMap, canonical, events);
    report := Report(setup, canonical, clusters, matchResult);
  }
}
