/** The matcher's result spelled out in beats, tempo, configuration and time stamps. */
module MatchMeaning {
  import opened ScoringTypes
  import opened Tempo
  import opened Config
  import opened Matcher
  import GreedyRule
  import StableSort

  /** Starts at an earlier beat; at one beat the right hand comes first; in one hand the lower pitch. */
  predicate NoteBefore(a: ExpectedNote, b: ExpectedNote) {
    || a.startBeat < b.startBeat
    || (a.startBeat == b.startBeat && a.hand == R && b.hand == L)
    || (a.startBeat == b.startBeat && a.hand == b.hand && a.pitch < b.pitch)
  }

  /** Played earlier; at one moment the lower pitch comes first, and of one pitch the softer. */
  predicate PlayedBefore(a: PlayedNote, b: PlayedNote) {
    || a.onTimeNs < b.onTimeNs
    || (a.onTimeNs == b.onTimeNs && a.pitch < b.pitch)
    || (a.onTimeNs == b.onTimeNs && a.pitch == b.pitch && a.velocity < b.velocity)
  }

  /** Nothing comes before what it is listed after. */
  ghost predicate Ordered<T>(before: (T, T) -> bool, s: seq<T>) {
    forall i, j :: 0 <= i < j < |s| ==> !before(s[j], s[i])
  }

  /** The canonical order lists the notes expected, all of them and in order. */
  lemma CanonicalOrder(expected: seq<ExpectedNote>)
    ensures Ordered(NoteBefore, Canonical(expected)) && multiset(Canonical(expected)) == multiset(expected)
  {
    StableSort.SortCorrect(NoteLe, expected);
    hide Canonical;
    var notes := Canonical(expected);
    assert StableSort.Sorted(NoteLe, notes);
  }

  lemma PlayedOrder(events: seq<PlayedNote>)
    ensures Ordered(PlayedBefore, InTime(events)) && multiset(InTime(events)) == multiset(events)
  {
    StableSort.SortCorrect(EventLe, events);
  }

  /** Extra events are reported in the order they were played. */
  lemma ExtrasInOrder(targets: seq<Target>, events: seq<PlayedNote>)
    ensures Ordered(PlayedBefore, Extras(targets, InTime(events)))
  {
    PlayedOrder(events);
    UnconsumedInOrder(InTime(events), ConsumedAfter(targets, InTime(events), |targets|), |InTime(events)|);
  }

  lemma {:induction false} UnconsumedInOrder(events: seq<PlayedNote>, consumed: set<nat>, n: nat)
    requires n <= |events| && Ordered(PlayedBefore, events)
    ensures Ordered(PlayedBefore, Unconsumed(events, consumed, n))
    ensures forall e :: e in Unconsumed(events, consumed, n) ==> e in events[..n]
    decreases n
  {
    hide PlayedBefore, Ordered;
    if n > 0 {
      UnconsumedInOrder(events, consumed, n - 1);
      assert events[..n] == events[..n - 1] + [events[n - 1]];
      LastInOrder(events, n - 1, Unconsumed(events, consumed, n - 1));
    } else {
      NothingInOrder();
    }
  }

  lemma NothingInOrder()
    ensures Ordered(PlayedBefore, [])
  {}

  lemma LastInOrder(events: seq<PlayedNote>, n: nat, kept: seq<PlayedNote>)
    requires n < |events| && Ordered(PlayedBefore, events) && Ordered(PlayedBefore, kept)
    requires forall e :: e in kept ==> e in events[..n]
    ensures Ordered(PlayedBefore, kept + [events[n]]) && Ordered(PlayedBefore, kept + [])
  {
    hide PlayedBefore;
    assert kept + [] == kept;
    forall i | 0 <= i < |kept| ensures !PlayedBefore(events[n], kept[i]) {
      assert kept[i] in events[..n];
    }
  }

  /** How late an event is for a note, in milliseconds. */
  function LateBy(m: TempoMap, note: ExpectedNote, e: PlayedNote): real {
    (e.onTimeNs as real / 1000000000.0 - m.BeatToSeconds(note.startBeat)) * 1000.0
  }

  /** Main result: an event lies in a note's window exactly when it is no earlier and no later than the
      window allows, and is as far from the note as it is early or late. */
  lemma WindowOfNote(config: ScoreConfig, m: TempoMap, notes: seq<ExpectedNote>, k: nat, e: PlayedNote)
    requires k < |notes|
    ensures var tg, w := Targets(config, m, notes)[k], WindowMs(config, notes[k].startBeat, m);
            && tg.pitch == notes[k].pitch && tg.time == m.BeatToSeconds(notes[k].startBeat)
            && (InWindow(e, tg) <==> -w.earlyMs <= LateBy(m, notes[k], e) <= w.lateMs)
            && Deviation(e, tg) * 1000.0 == Abs(LateBy(m, notes[k], e))
  {
    hide MapFields.BeatToSeconds, WindowMs;
  }

  /** Main result: matching notes and events in any order follows the rule, over the notes in canonical
      order and the events as played. */
  lemma MatchedFollowsRule(config: ScoreConfig, m: TempoMap, expected: seq<ExpectedNote>, events: seq<PlayedNote>)
    ensures GreedyRule.FollowsRule(config.perfectBandMs, Targets(config, m, Canonical(expected)), InTime(events),
                                   Matched(config, m, expected, events).outcomes)
  {
    GreedyRule.MatcherFollowsRule(config.perfectBandMs, Targets(config, m, Canonical(expected)), InTime(events));
  }
}
