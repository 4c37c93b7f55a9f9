/** The matcher is deterministic: neither the order in which notes are expected nor the order in
    which events are delivered changes any outcome. */
module OrderProofs {
  import opened ScoringTypes
  import opened Tempo
  import opened Config
  import opened Matcher
  import opened FreezeProofs
  import StableSort

  function Keys(events: seq<PlayedNote>): seq<EventKey> { StableSort.Map(KeyOfEvent, events) }

  lemma SameNoteKeys(a: seq<ExpectedNote>, b: seq<ExpectedNote>)
    requires multiset(a) == multiset(b)
    ensures StableSort.Map(KeyOfNote, Canonical(a)) == StableSort.Map(KeyOfNote, Canonical(b))
  {
    StableSort.SameKeys(NoteLe, KeyOfNote, NoteKeyLe, a, b);
  }

  lemma SameEventKeys(a: seq<PlayedNote>, b: seq<PlayedNote>)
    requires multiset(a) == multiset(b)
    ensures Keys(InTime(a)) == Keys(InTime(b))
  {
    StableSort.SameKeys(EventLe, KeyOfEvent, EventKeyLe, a, b);
  }

  lemma SameTargets(config: ScoreConfig, m: TempoMap, a: seq<ExpectedNote>, b: seq<ExpectedNote>)
    requires StableSort.Map(KeyOfNote, a) == StableSort.Map(KeyOfNote, b)
    ensures Targets(config, m, a) == Targets(config, m, b)
  {
    var ka, kb := StableSort.Map(KeyOfNote, a), StableSort.Map(KeyOfNote, b);
    assert |a| == |b|;
    forall i | 0 <= i < |a| ensures TargetOf(config, m, a[i]) == TargetOf(config, m, b[i]) {
      assert ka[i] == kb[i];
    }
    hide TargetOf;
  }

  lemma {:induction false} SameOutcomes(band: real, targets: seq<Target>, a: seq<PlayedNote>, b: seq<PlayedNote>)
    requires Keys(a) == Keys(b)
    ensures Outcomes(band, targets, a) == Outcomes(band, targets, b)
    ensures ConsumedAfter(targets, a, |targets|) == ConsumedAfter(targets, b, |targets|)
  {
    assert |a| == |b| && forall i :: 0 <= i < |a| ==> KeyOfEvent(a[i]) == Keys(b)[i];
    assert SameUpTo(a, b, |a|);
    PrefixRun(targets, a, b, |targets|, |a|);
    forall k | 0 <= k < |targets| ensures OutcomeAt(band, targets, a, k) == OutcomeAt(band, targets, b, k) {
      PrefixOutcome(band, targets, a, b, k, |a|);
    }
    hide OutcomeAt;
  }

  lemma {:induction false} SameUnconsumed(a: seq<PlayedNote>, b: seq<PlayedNote>, consumed: set<nat>, n: nat)
    requires Keys(a) == Keys(b) && n <= |a| && n <= |b|
    ensures Keys(Unconsumed(a, consumed, n)) == Keys(Unconsumed(b, consumed, n))
    decreases n
  {
    if n > 0 {
      SameUnconsumed(a, b, consumed, n - 1);
      assert Keys(a)[n - 1] == Keys(b)[n - 1];
    }
  }

  /** Main result: any rearrangement of the two inputs yields the same outcomes, and extras that
      agree in time, pitch and velocity. */
  lemma OrderIrrelevant(
    config: ScoreConfig, m: TempoMap, expected: seq<ExpectedNote>, events: seq<PlayedNote>,
    expected': seq<ExpectedNote>, events': seq<PlayedNote>)
    requires multiset(expected) == multiset(expected') && multiset(events) == multiset(events')
    ensures var r, r' := Matched(config, m, expected, events), Matched(config, m, expected', events');
            r.outcomes == r'.outcomes && Keys(r.extraEvents) == Keys(r'.extraEvents)
  {
    SameNoteKeys(expected, expected');
    SameEventKeys(events, events');
    SameTargets(config, m, Canonical(expected), Canonical(expected'));
    var targets, a, b := Targets(config, m, Canonical(expected)), InTime(events), InTime(events');
    hide Canonical, InTime, Targets;
    SameOutcomes(config.perfectBandMs, targets, a, b);
    SameUnconsumed(a, b, ConsumedAfter(targets, a, |targets|), |a|);
  }
}
