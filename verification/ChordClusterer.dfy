/** Groups expected notes into chords: a note joins the current cluster while its onset is within
    the tolerance of the cluster's first note. */
module ChordClusterer {
  import opened ScoringTypes
  import opened RealArith
  import opened Tempo
  import opened Config
  import opened Matcher

  /** The gap in seconds from `first` to `note`, at the tempo of the middle of the gap. */
  function GapSeconds(m: TempoMap, first: ExpectedNote, note: ExpectedNote): real {
    var gapBeats := note.startBeat - first.startBeat;
    gapBeats * 60.0 / m.BpmAt(first.startBeat + gapBeats / 2.0)
  }

  predicate Joins(config: ScoreConfig, m: TempoMap, first: ExpectedNote, note: ExpectedNote) {
    GapSeconds(m, first, note) <= config.chordClusterMs / 1000.0
  }

  /** A note joins a chord exactly when the beats between them, at the tempo half way, take no longer than
      the tolerance. */
  lemma JoinsExactly(config: ScoreConfig, m: TempoMap, first: ExpectedNote, note: ExpectedNote)
    ensures Joins(config, m, first, note) <==>
              (note.startBeat - first.startBeat) * 60000.0
                <= config.chordClusterMs * m.BpmAt((first.startBeat + note.startBeat) / 2.0)
  {
    hide MapFields.BpmAt;
    var gapBeats := note.startBeat - first.startBeat;
    assert first.startBeat + gapBeats / 2.0 == (first.startBeat + note.startBeat) / 2.0;
    WithinTolerance(gapBeats * 60.0, m.BpmAt(first.startBeat + gapBeats / 2.0), config.chordClusterMs);
  }

  lemma WithinTolerance(x: real, bpm: real, ms: real)
    requires bpm > 0.0
    ensures x / bpm <= ms / 1000.0 <==> x * 1000.0 <= ms * bpm
  {
    Cancel(x, bpm);
    SameOrder(x / bpm, ms / 1000.0, bpm);
    SameTolerance(ms, ms / 1000.0, bpm);
  }

  lemma SameOrder(q: real, t: real, bpm: real)
    requires bpm > 0.0
    ensures q <= t <==> q * bpm <= t * bpm
  {
    if q <= t { MulMonotone(q, t, bpm); } else { MulStrict(t, q, bpm); }
  }

  lemma SameTolerance(ms: real, t: real, bpm: real)
    requires ms == t * 1000.0
    ensures ms * bpm == t * bpm * 1000.0
  {}

  type Cluster = c: seq<ExpectedNote> | c != [] witness [NoteFields(60, 0.0, 1.0, R, 1.0)]

  /** The first index from `k` on whose note does not join the first one. */
  function RunEnd(config: ScoreConfig, m: TempoMap, notes: seq<ExpectedNote>, k: nat): (end: nat)
    requires 1 <= k <= |notes|
    ensures k <= end <= |notes|
    ensures forall i :: k <= i < end ==> Joins(config, m, notes[0], notes[i])
    ensures end < |notes| ==> !Joins(config, m, notes[0], notes[end])
    decreases |notes| - k
  {
    if k < |notes| && Joins(config, m, notes[0], notes[k]) then RunEnd(config, m, notes, k + 1) else k
  }

  function Clusters(config: ScoreConfig, m: TempoMap, notes: seq<ExpectedNote>): seq<Cluster> {
    if notes == [] then []
    else
      var end := RunEnd(config, m, notes, 1);
      [notes[..end]] + Clusters(config, m, notes[end..])
  }

  /** The notes up to index `i` are `clusters` and the open cluster from index `from` on. */
  ghost predicate ClusteredUpTo(
    config: ScoreConfig, m: TempoMap, sorted: seq<ExpectedNote>, clusters: seq<Cluster>, from: nat, i: nat)
  {
    && from <= i <= |sorted| && (i > 0 ==> from < i)
    && (forall j :: from < j < i ==> Joins(config, m, sorted[from], sorted[j]))
    && Clusters(config, m, sorted) == clusters + Clusters(config, m, sorted[from..])
  }

  /** The open cluster is complete when the next note, if there is one, does not join it. */
  lemma {:induction false} CloseCluster(
    config: ScoreConfig, m: TempoMap, sorted: seq<ExpectedNote>, clusters: seq<Cluster>, from: nat, i: nat)
    requires ClusteredUpTo(config, m, sorted, clusters, from, i) && i > 0
    requires i < |sorted| ==> !Joins(config, m, sorted[from], sorted[i])
    ensures Clusters(config, m, sorted) == clusters + [sorted[from..i]] + Clusters(config, m, sorted[i..])
  {
    hide Clusters, Joins;
    SplitOff(config, m, sorted, from, i);
    Regroup(clusters, sorted[from..i], Clusters(config, m, sorted[i..]));
  }

  /** The clustering loop over the canonical order. */
  method ClusterNotes(config: ScoreConfig, m: TempoMap, expected: seq<ExpectedNote>) returns (clusters: seq<Cluster>)
    ensures clusters == Clusters(config, m, Canonical(expected))
  {
    hide Clusters, Joins, Canonical;
    var sorted := Canonical(expected);
    clusters := [];
    var current: seq<ExpectedNote> := [];
    ghost var from := 0;
    for i := 0 to |sorted|
      invariant ClusteredUpTo(config, m, sorted, clusters, from, i)
      invariant current == sorted[from..i]
    {
      var note := sorted[i];
      if current == [] {
        current := [note];
      } else if !Joins(config, m, current[0], note) {
        CloseCluster(config, m, sorted, clusters, from, i);
        clusters := clusters + [current];
        current := [note];
        from := i;
      } else {
        current := current + [note];
      }
    }
    if current != [] {
      CloseCluster(config, m, sorted, clusters, from, |sorted|);
      clusters := clusters + [current];
    }
    AllClustered(config, m, sorted, clusters);
  }

  lemma {:induction false} AllClustered(
    config: ScoreConfig, m: TempoMap, sorted: seq<ExpectedNote>, clusters: seq<Cluster>)
    requires Clusters(config, m, sorted) == clusters + Clusters(config, m, sorted[|sorted|..])
          || (sorted == [] && clusters == [])
    ensures Clusters(config, m, sorted) == clusters
  {
    assert sorted[|sorted|..] == [];
    assert Clusters(config, m, []) == [];
  }

  lemma Regroup(a: seq<Cluster>, c: Cluster, b: seq<Cluster>)
    ensures a + ([c] + b) == a + [c] + b
  {}

  /** The cluster from index `from` on that ends before index `i` of the ordered notes is complete. */
  lemma {:induction false} SplitOff(config: ScoreConfig, m: TempoMap, sorted: seq<ExpectedNote>, from: nat, i: nat)
    requires from < i <= |sorted|
    requires forall j :: from < j < i ==> Joins(config, m, sorted[from], sorted[j])
    requires i < |sorted| ==> !Joins(config, m, sorted[from], sorted[i])
    ensures Clusters(config, m, sorted[from..]) == [sorted[from..i]] + Clusters(config, m, sorted[i..])
  {
    hide *;
    var tail, n := sorted[from..], i - from;
    assert tail[..n] == sorted[from..i] && tail[n..] == sorted[i..];
    SplitAt(config, m, tail, n);
  }

  lemma {:induction false} RunEndIs(config: ScoreConfig, m: TempoMap, notes: seq<ExpectedNote>, k: nat, n: nat)
    requires 1 <= k <= n <= |notes|
    requires forall j :: k <= j < n ==> Joins(config, m, notes[0], notes[j])
    requires n < |notes| ==> !Joins(config, m, notes[0], notes[n])
    ensures RunEnd(config, m, notes, k) == n
    decreases n - k
  {
    if k < n {
      RunEndIs(config, m, notes, k + 1, n);
    }
  }

  lemma {:induction false} SplitAt(config: ScoreConfig, m: TempoMap, notes: seq<ExpectedNote>, n: nat)
    requires 1 <= n <= |notes|
    requires forall j :: 1 <= j < n ==> Joins(config, m, notes[0], notes[j])
    requires n < |notes| ==> !Joins(config, m, notes[0], notes[n])
    ensures Clusters(config, m, notes) == [notes[..n]] + Clusters(config, m, notes[n..])
  {
    RunEndIs(config, m, notes, 1, n);
  }

  function Flatten(clusters: seq<Cluster>): seq<ExpectedNote> {
    if clusters == [] then [] else clusters[0] + Flatten(clusters[1..])
  }

  /** `clusters` cuts `notes` into chords that cannot be made longer: every tone is within the
      tolerance of its chord's first tone, and the next chord's first tone is not. */
  ghost predicate IsClustering(config: ScoreConfig, m: TempoMap, clusters: seq<Cluster>, notes: seq<ExpectedNote>) {
    && Flatten(clusters) == notes
    && (forall i, j :: 0 <= i < |clusters| && 1 <= j < |clusters[i]| ==>
          Joins(config, m, clusters[i][0], clusters[i][j]))
    && (forall i :: 0 <= i < |clusters| - 1 ==> !Joins(config, m, clusters[i][0], clusters[i + 1][0]))
  }

  /** Main result: the chords are a partition of the notes into maximal chords. */
  lemma {:induction false} ClustersPartition(config: ScoreConfig, m: TempoMap, notes: seq<ExpectedNote>)
    ensures IsClustering(config, m, Clusters(config, m, notes), notes)
    decreases |notes|
  {
    hide Joins;
    if notes != [] {
      var end := RunEnd(config, m, notes, 1);
      ClustersPartition(config, m, notes[end..]);
      hide IsClustering;
      ConsClustering(config, m, notes, end, Clusters(config, m, notes[end..]));
    }
  }

  /** A complete first chord in front of a clustering of the rest. */
  lemma ConsClustering(config: ScoreConfig, m: TempoMap, notes: seq<ExpectedNote>, end: nat, rest: seq<Cluster>)
    requires 1 <= end <= |notes| && IsClustering(config, m, rest, notes[end..])
    requires forall i :: 1 <= i < end ==> Joins(config, m, notes[0], notes[i])
    requires end < |notes| ==> !Joins(config, m, notes[0], notes[end])
    ensures IsClustering(config, m, [notes[..end]] + rest, notes)
  {
    hide Joins;
    var all: seq<Cluster> := [notes[..end]] + rest;
    assert all[1..] == rest && notes[..end] + notes[end..] == notes;
    forall i | 0 <= i < |all| - 1 ensures !Joins(config, m, all[i][0], all[i + 1][0]) {
      if i == 0 {
        FirstOfFlatten(rest);
        assert notes[end..][0] == notes[end];
      } else {
        assert all[i] == rest[i - 1] && all[i + 1] == rest[i];
      }
    }
  }

  lemma {:induction false} FirstOfFlatten(clusters: seq<Cluster>)
    requires clusters != []
    ensures Flatten(clusters) != [] && Flatten(clusters)[0] == clusters[0][0]
  {}

  /** Main result: the clusterer's chords are the only ones that partition the notes into maximal
      chords. */
  lemma {:induction false} ClusteringUnique(
    config: ScoreConfig, m: TempoMap, clusters: seq<Cluster>, notes: seq<ExpectedNote>)
    requires IsClustering(config, m, clusters, notes)
    ensures clusters == Clusters(config, m, notes)
    decreases |clusters|
  {
    if clusters != [] {
      var first, rest := clusters[0], clusters[1..];
      assert notes == first + Flatten(rest);
      var tail := notes[|first|..];
      assert tail == Flatten(rest);
      forall i | 0 <= i < |rest| - 1 ensures !Joins(config, m, rest[i][0], rest[i + 1][0]) {
        assert rest[i] == clusters[i + 1] && rest[i + 1] == clusters[i + 2];
      }
      ClusteringUnique(config, m, rest, tail);
      if rest != [] {
        FirstOfFlatten(rest);
        assert !Joins(config, m, clusters[0][0], clusters[1][0]);
      }
      SplitAt(config, m, notes, |first|);
      assert notes[..|first|] == first;
    }
  }
}
