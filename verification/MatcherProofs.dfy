/** What the greedy matcher guarantees on every input. */
module MatcherProofs {
  import opened ScoringTypes
  import opened Tempo
  import opened Config
  import opened Matcher
  import StableSort

  // ----- Exactness ---------------------------------------------------------------------

  /** An event is consumed at most once: no two notes share a matched event. */
  lemma MatchesAreDistinct(targets: seq<Target>, events: seq<PlayedNote>, k: nat, l: nat)
    requires k < l < |targets|
    requires MatchOf(targets, events, k).Some? && MatchOf(targets, events, l).Some?
    ensures MatchOf(targets, events, k).value != MatchOf(targets, events, l).value
  {
    ConsumedGrows(targets, events, k + 1, l);
  }

  /** The events matched by the first `n` targets, in note order. */
  function MatchedEvents(targets: seq<Target>, events: seq<PlayedNote>, n: nat): seq<PlayedNote>
    requires n <= |targets|
  {
    if n == 0 then []
    else
      MatchedEvents(targets, events, n - 1) +
      match MatchOf(targets, events, n - 1) case None => [] case Some(best) => [events[best]]
  }

  /** One step of the greedy loop: the picked event was free, and is consumed. */
  lemma ConsumedStep(targets: seq<Target>, events: seq<PlayedNote>, k: nat)
    requires k < |targets|
    ensures MatchOf(targets, events, k).None? ==>
              ConsumedAfter(targets, events, k + 1) == ConsumedAfter(targets, events, k)
    ensures MatchOf(targets, events, k).Some? ==>
              var best := MatchOf(targets, events, k).value;
              && best < |events| && best !in ConsumedAfter(targets, events, k)
              && ConsumedAfter(targets, events, k + 1) == ConsumedAfter(targets, events, k) + {best}
  {
  }

  lemma {:induction false} ConsumeLater<E>(events: seq<E>, consumed: set<nat>, b: nat, n: nat)
    requires n <= |events| && n <= b
    ensures Unconsumed(events, consumed, n) == Unconsumed(events, consumed + {b}, n)
  {
    if n > 0 {
      ConsumeLater(events, consumed, b, n - 1);
    }
  }

  lemma {:induction false} ConsumeOne<E>(events: seq<E>, consumed: set<nat>, b: nat, n: nat)
    requires b < n <= |events| && b !in consumed
    ensures multiset(Unconsumed(events, consumed, n))
         == multiset(Unconsumed(events, consumed + {b}, n)) + multiset{events[b]}
    decreases n
  {
    hide Unconsumed;
    if b == n - 1 {
      ConsumeLast(events, consumed, b);
    } else {
      ConsumeOne(events, consumed, b, n - 1);
      ConsumeNext(events, consumed, b, n - 1);
    }
  }

  lemma {:induction false} ConsumeLast<E>(events: seq<E>, consumed: set<nat>, b: nat)
    requires b < |events| && b !in consumed
    ensures multiset(Unconsumed(events, consumed, b + 1))
         == multiset(Unconsumed(events, consumed + {b}, b + 1)) + multiset{events[b]}
  {
    ConsumeLater(events, consumed, b, b);
    var u, w, e := Unconsumed(events, consumed, b), Unconsumed(events, consumed, b + 1), events[b];
    assert w == u + [e];
    assert Unconsumed(events, consumed + {b}, b + 1) == u + [];
    assert u + [] == u;
    BagAppend(u, w, e);
  }

  lemma ConsumeNext<E>(events: seq<E>, consumed: set<nat>, b: nat, n: nat)
    requires b < n < |events| && b !in consumed
    requires multiset(Unconsumed(events, consumed, n))
          == multiset(Unconsumed(events, consumed + {b}, n)) + multiset{events[b]}
    ensures multiset(Unconsumed(events, consumed, n + 1))
         == multiset(Unconsumed(events, consumed + {b}, n + 1)) + multiset{events[b]}
  {
    var u, v := Unconsumed(events, consumed, n), Unconsumed(events, consumed + {b}, n);
    var tail := if n in consumed then [] else [events[n]];
    assert Unconsumed(events, consumed, n + 1) == u + tail;
    assert Unconsumed(events, consumed + {b}, n + 1) == v + tail;
    BagAppendBoth(u, v, tail, events[b]);
  }

  lemma BagAppend<E>(u: seq<E>, w: seq<E>, e: E)
    requires w == u + [e]
    ensures multiset(w) == multiset(u) + multiset{e}
  {}

  lemma BagAppendBoth<E>(u: seq<E>, v: seq<E>, tail: seq<E>, e: E)
    requires multiset(u) == multiset(v) + multiset{e}
    ensures multiset(u + tail) == multiset(v + tail) + multiset{e}
  {}

  lemma {:induction false} NothingConsumed<E>(events: seq<E>, n: nat)
    requires n <= |events|
    ensures Unconsumed(events, {}, n) == events[..n]
  {
    if n > 0 {
      NothingConsumed(events, n - 1);
    }
  }

  ghost predicate Conserved(targets: seq<Target>, events: seq<PlayedNote>, n: nat)
    requires n <= |targets|
  {
    multiset(MatchedEvents(targets, events, n)) +
    multiset(Unconsumed(events, ConsumedAfter(targets, events, n), |events|)) == multiset(events)
  }

  lemma ConservedStart(targets: seq<Target>, events: seq<PlayedNote>)
    ensures Conserved(targets, events, 0)
  {
    NothingConsumed(events, |events|);
    assert events[..|events|] == events;
    assert MatchedEvents(targets, events, 0) == [];
  }

  lemma ConservedStep(targets: seq<Target>, events: seq<PlayedNote>, k: nat)
    requires k < |targets| && Conserved(targets, events, k)
    ensures Conserved(targets, events, k + 1)
  {
    hide Unconsumed, ConsumedAfter, MatchOf;
    ConsumedStep(targets, events, k);
    var matched := MatchedEvents(targets, events, k);
    match MatchOf(targets, events, k)
    case None =>
      assert matched + [] == matched;
    case Some(best) =>
      ConsumeOne(events, ConsumedAfter(targets, events, k), best, |events|);
      BagAppend(matched, matched + [events[best]], events[best]);
  }

  lemma {:induction false} ConservedUpTo(targets: seq<Target>, events: seq<PlayedNote>, n: nat)
    requires n <= |targets|
    ensures Conserved(targets, events, n)
    decreases n
  {
    hide Conserved;
    if n == 0 {
      ConservedStart(targets, events);
    } else {
      ConservedUpTo(targets, events, n - 1);
      ConservedStep(targets, events, n - 1);
    }
  }

  lemma {:induction false} UnconsumedMember(events: seq<PlayedNote>, consumed: set<nat>, n: nat, e: PlayedNote)
    requires n <= |events| && e in Unconsumed(events, consumed, n)
    ensures exists i: nat :: i < n && i !in consumed && events[i] == e
  {
    if e in Unconsumed(events, consumed, n - 1) {
      UnconsumedMember(events, consumed, n - 1, e);
    } else {
      assert n - 1 !in consumed && events[n - 1] == e;
    }
  }

  /** Main result: every played event is matched once or reported as an extra once. */
  lemma EventsConserved(config: ScoreConfig, m: TempoMap, expected: seq<ExpectedNote>, events: seq<PlayedNote>)
    ensures var targets, sorted := Targets(config, m, Canonical(expected)), InTime(events);
            multiset(MatchedEvents(targets, sorted, |targets|)) +
            multiset(Matched(config, m, expected, events).extraEvents) == multiset(events)
  {
    var targets, sorted := Targets(config, m, Canonical(expected)), InTime(events);
    ConservedUpTo(targets, sorted, |targets|);
    StableSort.SortCorrect(EventLe, events);
  }

  /** Main result: an extra never explains a note away. No extra of the note's pitch lies in
      the window of an unmatched note, and none at all in the window of a MISSED note. */
  lemma ExtrasExplainNothing(band: real, targets: seq<Target>, events: seq<PlayedNote>, k: nat, e: PlayedNote)
    requires k < |targets| && e in Extras(targets, events) && InWindow(e, targets[k])
    ensures !OutcomeAt(band, targets, events, k).verdict.Hit() ==> e.pitch != targets[k].pitch
    ensures OutcomeAt(band, targets, events, k).verdict != MISSED
  {
    UnconsumedMember(events, ConsumedAfter(targets, events, |targets|), |events|, e);
    ConsumedGrows(targets, events, k, |targets|);
    var i: nat :| i < |events| && i !in ConsumedAfter(targets, events, |targets|) && events[i] == e;
    var before := ConsumedAfter(targets, events, k);
    assert i !in before;
    assert Candidate(events, before, targets[k], i) || WrongPitch(events, before, targets[k], i);
  }

  // ----- At least half of the best assignment --------------------------------------------

  /** An assignment of events to notes that respects pitches and windows and uses no event
      twice. */
  ghost predicate Legal(targets: seq<Target>, events: seq<PlayedNote>, a: map<nat, nat>) {
    && (forall k :: k in a ==> k < |targets| && a[k] < |events|)
    && (forall k :: k in a ==> events[a[k]].pitch == targets[k].pitch && InWindow(events[a[k]], targets[k]))
    && (forall k, l :: k in a && l in a && a[k] == a[l] ==> k == l)
  }

  ghost function MatchedNotes(targets: seq<Target>, events: seq<PlayedNote>, n: nat): set<nat>
    requires n <= |targets|
  {
    set k: nat | k < n && MatchOf(targets, events, k).Some?
  }

  /** Matched notes, consumed events and matched events are equally many. */
  lemma {:induction false} MatchedCount(targets: seq<Target>, events: seq<PlayedNote>, n: nat)
    requires n <= |targets|
    ensures |MatchedNotes(targets, events, n)| == |ConsumedAfter(targets, events, n)|
    ensures |MatchedEvents(targets, events, n)| == |ConsumedAfter(targets, events, n)|
    decreases n
  {
    hide MatchOf, ConsumedAfter, MatchedNotes, MatchedEvents;
    if n == 0 {
      MatchedStart(targets, events);
    } else {
      MatchedCount(targets, events, n - 1);
      ConsumedStep(targets, events, n - 1);
      MatchedStep(targets, events, n - 1);
    }
  }

  lemma {:induction false} MatchedStart(targets: seq<Target>, events: seq<PlayedNote>)
    ensures MatchedNotes(targets, events, 0) == {} == ConsumedAfter(targets, events, 0)
    ensures MatchedEvents(targets, events, 0) == []
  {}

  lemma MatchedStep(targets: seq<Target>, events: seq<PlayedNote>, k: nat)
    requires k < |targets|
    ensures MatchedNotes(targets, events, k + 1)
         == MatchedNotes(targets, events, k) + if MatchOf(targets, events, k).Some? then {k} else {}
    ensures k !in MatchedNotes(targets, events, k)
    ensures |MatchedEvents(targets, events, k + 1)|
         == |MatchedEvents(targets, events, k)| + if MatchOf(targets, events, k).Some? then 1 else 0
  {
    hide MatchOf;
  }

  lemma {:induction false} InjectiveImage(a: map<nat, nat>, keys: set<nat>, values: set<nat>)
    requires forall k :: k in keys ==> k in a && a[k] in values
    requires forall k, l :: k in keys && l in keys && a[k] == a[l] ==> k == l
    ensures |keys| <= |values|
  {
    if keys != {} {
      var k :| k in keys;
      InjectiveImage(a, keys - {k}, values - {a[k]});
    }
  }

  lemma SubsetSize(a: set<nat>, b: set<nat>)
    requires a <= b
    ensures |a| <= |b|
  {
    assert |b| == |a| + |b - a| by { assert b == a + (b - a); }
  }

  /** A pair of a legal assignment whose note stayed unmatched uses a consumed event. */
  lemma {:induction false} UnmatchedPair(targets: seq<Target>, events: seq<PlayedNote>, a: map<nat, nat>, k: nat)
    requires Legal(targets, events, a) && k in a && k !in MatchedNotes(targets, events, |targets|)
    ensures a[k] in ConsumedAfter(targets, events, |targets|)
  {
    ConsumedGrows(targets, events, k, |targets|);
    assert MatchOf(targets, events, k).None?;
    assert !Candidate(events, ConsumedAfter(targets, events, k), targets[k], a[k]);
  }

  /** Main result: no legal assignment has more than twice as many pairs as the matcher. */
  lemma {:induction false} HalfOfOptimal(targets: seq<Target>, events: seq<PlayedNote>, a: map<nat, nat>)
    requires Legal(targets, events, a)
    ensures |a| <= 2 * |MatchedEvents(targets, events, |targets|)|
  {
    hide ConsumedAfter, MatchOf, MatchedEvents;
    var matched := MatchedNotes(targets, events, |targets|);
    var consumed := ConsumedAfter(targets, events, |targets|);
    var missed := a.Keys - matched;
    forall k | k in missed ensures a[k] in consumed {
      UnmatchedPair(targets, events, a, k);
    }
    hide MatchedNotes;
    InjectiveImage(a, missed, consumed);
    MatchedCount(targets, events, |targets|);
    SubsetSize(a.Keys, matched + missed);
    assert |matched + missed| <= |matched| + |missed|;
  }

  const EARLIER: ExpectedNote := NoteFields(60, 2.0, 0.1, R, 1.0)
  const LATER: ExpectedNote := NoteFields(60, 2.2, 0.1, R, 1.0)
  const FIRST: PlayedNote := EventFields(60, 64, 900_000_000, -1)
  const SECOND: PlayedNote := EventFields(60, 64, 1_050_000_000, -1)

  function SteadyTempo(): TempoMap { MapFields([PointFields(0.0, 120.0, STEP)], x => x) }

  lemma ExampleTargets()
    ensures TargetOf(DEFAULT_CONFIG, SteadyTempo(), EARLIER) == Target(60, 1.0, 0.88, 1.18)
    ensures TargetOf(DEFAULT_CONFIG, SteadyTempo(), LATER) == Target(60, 1.1, 0.98, 1.28)
  {
    var m := SteadyTempo();
    assert m.SegmentSum(1, 2.0) == 1.0 && m.SegmentSum(1, 2.2) == 1.1;
    assert m.LastEntry(2.0) == 0 && m.LastEntry(2.2) == 0;
  }

  lemma ExampleInOrder()
    ensures Targets(DEFAULT_CONFIG, SteadyTempo(), Canonical([EARLIER, LATER])) ==
            [Target(60, 1.0, 0.88, 1.18), Target(60, 1.1, 0.98, 1.28)]
    ensures InTime([FIRST, SECOND]) == [FIRST, SECOND]
  {
    hide TargetOf;
    ExampleTargets();
    StableSort.SortIdempotent(NoteLe, [EARLIER, LATER]);
    StableSort.SortIdempotent(EventLe, [FIRST, SECOND]);
  }

  lemma {:induction false} GreedyExample(targets: seq<Target>, events: seq<PlayedNote>)
    requires targets == [Target(60, 1.0, 0.88, 1.18), Target(60, 1.1, 0.98, 1.28)] && events == [FIRST, SECOND]
    ensures |MatchedEvents(targets, events, 2)| == 1
  {
    assert FIRST.Seconds() == 0.9 && SECOND.Seconds() == 1.05;
    hide EventFields.Seconds;
    assert Pick(events, {}, targets[0], 1) == Some(0);
    assert Pick(events, {}, targets[0], 2) == Some(1);
    assert ConsumedAfter(targets, events, 0) == {};
    assert MatchOf(targets, events, 0) == Some(1);
    assert ConsumedAfter(targets, events, 1) == {1};
    assert MatchOf(targets, events, 1) == None;
    hide MatchOf;
    assert MatchedEvents(targets, events, 1) == [events[1]];
    assert MatchedEvents(targets, events, 2) == [events[1]];
  }

  /** The factor two is reached under the default configuration at 120 bpm: the first note takes the
      only event of the second. */
  lemma HalfIsReached() returns (a: map<nat, nat>)
    ensures var targets := Targets(DEFAULT_CONFIG, SteadyTempo(), Canonical([EARLIER, LATER]));
            var events := InTime([FIRST, SECOND]);
            Legal(targets, events, a) && |a| == 2 && |MatchedEvents(targets, events, |targets|)| == 1
  {
    hide Targets, Canonical, InTime, MatchedEvents, SteadyTempo;
    ExampleInOrder();
    a := map[0 := 0, 1 := 1];
    assert a.Keys == {0, 1};
    assert FIRST.Seconds() == 0.9 && SECOND.Seconds() == 1.05;
    GreedyExample(Targets(DEFAULT_CONFIG, SteadyTempo(), Canonical([EARLIER, LATER])), InTime([FIRST, SECOND]));
  }
}
