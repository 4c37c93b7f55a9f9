/** The matching rule in its own words, without the matcher's bookkeeping: what one note's outcome
    must be, given the outcomes of the notes before it. */
module GreedyRule {
  import opened ScoringTypes
  import opened Matcher

  /** One of the first `k` notes was matched with event `i`. */
  ghost predicate Taken(outcomes: seq<NoteOutcome>, k: nat, i: nat)
    requires k <= |outcomes|
  {
    exists j :: 0 <= j < k && outcomes[j].matchedEventIndex == Some(i)
  }

  /** Event `i` could still be matched with note `k`. */
  ghost predicate Eligible(targets: seq<Target>, events: seq<PlayedNote>, outcomes: seq<NoteOutcome>, k: nat, i: nat)
    requires k < |targets| && k < |outcomes| && i < |events|
  {
    !Taken(outcomes, k, i) && events[i].pitch == targets[k].pitch && InWindow(events[i], targets[k])
  }

  /** Event `i` is a wrong key pressed in note `k`'s window and not explained by an earlier note. */
  ghost predicate Slip(targets: seq<Target>, events: seq<PlayedNote>, outcomes: seq<NoteOutcome>, k: nat, i: nat)
    requires k < |targets| && k < |outcomes| && i < |events|
  {
    !Taken(outcomes, k, i) && events[i].pitch != targets[k].pitch && InWindow(events[i], targets[k])
  }

  ghost predicate AnySlip(targets: seq<Target>, events: seq<PlayedNote>, outcomes: seq<NoteOutcome>, k: nat)
    requires k < |targets| && k < |outcomes|
  {
    exists i: nat :: i < |events| && Slip(targets, events, outcomes, k, i)
  }

  ghost predicate Nearest(targets: seq<Target>, events: seq<PlayedNote>, outcomes: seq<NoteOutcome>, k: nat, b: nat)
    requires k < |targets| && k < |outcomes|
  {
    && b < |events| && Eligible(targets, events, outcomes, k, b)
    && forall i: nat :: i < |events| && Eligible(targets, events, outcomes, k, i) ==>
         Deviation(events[b], targets[k]) < Deviation(events[i], targets[k]) ||
         (Deviation(events[b], targets[k]) == Deviation(events[i], targets[k]) && b <= i)
  }

  /** The rule for note `k`: a note with an eligible event is hit by the nearest, PERFECT within the
      band; another note is WRONG if there was a slip and MISSED otherwise. */
  ghost predicate Judged(band: real, targets: seq<Target>, events: seq<PlayedNote>, outcomes: seq<NoteOutcome>, k: nat)
    requires k < |targets| && k < |outcomes|
  {
    var o := outcomes[k];
    && o.expectedIndex == k
    && match o.matchedEventIndex
       case Some(b) =>
         && Nearest(targets, events, outcomes, k, b)
         && o.deviationMs == Some((events[b].Seconds() - targets[k].time) * 1000.0)
         && o.matchedPitch == Some(targets[k].pitch)
         && o.verdict == (if Abs(o.deviationMs.value) <= band then PERFECT else GOOD)
       case None =>
         && (forall i: nat :: i < |events| ==> !Eligible(targets, events, outcomes, k, i))
         && o.deviationMs == None && o.matchedPitch == None
         && o.verdict == (if AnySlip(targets, events, outcomes, k) then WRONG else MISSED)
  }

  ghost predicate FollowsRule(band: real, targets: seq<Target>, events: seq<PlayedNote>, outcomes: seq<NoteOutcome>) {
    |outcomes| == |targets| && forall k :: 0 <= k < |targets| ==> Judged(band, targets, events, outcomes, k)
  }

  /** The matches of the first `k` notes are the matcher's. */
  ghost predicate SameMatches(targets: seq<Target>, events: seq<PlayedNote>, outcomes: seq<NoteOutcome>, k: nat)
    requires k <= |outcomes| && k <= |targets|
  {
    forall j :: 0 <= j < k ==> outcomes[j].matchedEventIndex == MatchOf(targets, events, j)
  }

  /** The consumed events are those taken by earlier notes. */
  lemma {:induction false} TakenIsConsumed(
    targets: seq<Target>, events: seq<PlayedNote>, outcomes: seq<NoteOutcome>, k: nat, i: nat)
    requires k <= |outcomes| && k <= |targets| && SameMatches(targets, events, outcomes, k)
    ensures Taken(outcomes, k, i) <==> i in ConsumedAfter(targets, events, k)
    decreases k
  {
    hide Pick;
    if k > 0 {
      TakenIsConsumed(targets, events, outcomes, k - 1, i);
      assert outcomes[k - 1].matchedEventIndex == MatchOf(targets, events, k - 1);
    }
  }

  lemma {:induction false} SameCandidates(
    targets: seq<Target>, events: seq<PlayedNote>, outcomes: seq<NoteOutcome>, k: nat, i: nat)
    requires k < |outcomes| && k < |targets| && i < |events| && SameMatches(targets, events, outcomes, k)
    ensures var consumed := ConsumedAfter(targets, events, k);
            && (Eligible(targets, events, outcomes, k, i) <==> Candidate(events, consumed, targets[k], i))
            && (Slip(targets, events, outcomes, k, i) <==> WrongPitch(events, consumed, targets[k], i))
  {
    hide Taken, ConsumedAfter, InWindow, SameMatches;
    TakenIsConsumed(targets, events, outcomes, k, i);
  }

  /** Where the earlier matches are the matcher's, the rule allows exactly the matcher's outcome. */
  lemma JudgedExactly(band: real, targets: seq<Target>, events: seq<PlayedNote>, outcomes: seq<NoteOutcome>, k: nat)
    requires k < |outcomes| && k < |targets| && SameMatches(targets, events, outcomes, k)
    ensures Judged(band, targets, events, outcomes, k) <==> outcomes[k] == OutcomeAt(band, targets, events, k)
  {
    hide ConsumedAfter, InWindow, Taken, Eligible, Slip, Candidate, WrongPitch, SameMatches, Deviation;
    var consumed := ConsumedAfter(targets, events, k);
    forall i: nat | i < |events|
      ensures Eligible(targets, events, outcomes, k, i) <==> Candidate(events, consumed, targets[k], i)
      ensures Slip(targets, events, outcomes, k, i) <==> WrongPitch(events, consumed, targets[k], i)
    {
      SameCandidates(targets, events, outcomes, k, i);
    }
    var best := MatchOf(targets, events, k);
    if best.Some? { CandidatePitch(events, ConsumedAfter(targets, events, k), targets[k], best.value); }
  }

  lemma CandidatePitch(events: seq<PlayedNote>, consumed: set<nat>, tg: Target, i: nat)
    requires i < |events| && Candidate(events, consumed, tg, i)
    ensures events[i].pitch == tg.pitch
  {}

  /** Main result: the matcher's outcomes follow the rule. */
  lemma MatcherFollowsRule(band: real, targets: seq<Target>, events: seq<PlayedNote>)
    ensures FollowsRule(band, targets, events, Outcomes(band, targets, events))
  {
    hide Judged, OutcomeAt;
    var outcomes := Outcomes(band, targets, events);
    forall k | 0 <= k < |targets|
      ensures Judged(band, targets, events, outcomes, k)
    {
      forall j | 0 <= j < k
        ensures outcomes[j].matchedEventIndex == MatchOf(targets, events, j)
      {
        OutcomeMatch(band, targets, events, j);
      }
      JudgedExactly(band, targets, events, outcomes, k);
    }
  }

  lemma OutcomeMatch(band: real, targets: seq<Target>, events: seq<PlayedNote>, j: nat)
    requires j < |targets|
    ensures OutcomeAt(band, targets, events, j).matchedEventIndex == MatchOf(targets, events, j)
  {
    hide Pick, ConsumedAfter;
  }

  lemma {:induction false} RuleDeterminesUpTo(
    band: real, targets: seq<Target>, events: seq<PlayedNote>, outcomes: seq<NoteOutcome>, k: nat)
    requires FollowsRule(band, targets, events, outcomes) && k <= |targets|
    ensures SameMatches(targets, events, outcomes, k)
    ensures forall j :: 0 <= j < k ==> outcomes[j] == OutcomeAt(band, targets, events, j)
    decreases k
  {
    hide Judged, OutcomeAt, MatchOf;
    if k > 0 {
      RuleDeterminesUpTo(band, targets, events, outcomes, k - 1);
      JudgedExactly(band, targets, events, outcomes, k - 1);
      OutcomeMatch(band, targets, events, k - 1);
    }
  }

  /** Main result: the rule determines every outcome, so the matcher's are the only ones. */
  lemma RuleDetermines(band: real, targets: seq<Target>, events: seq<PlayedNote>, outcomes: seq<NoteOutcome>)
    requires FollowsRule(band, targets, events, outcomes)
    ensures outcomes == Outcomes(band, targets, events)
  {
    hide FollowsRule, OutcomeAt, SameMatches;
    assert |outcomes| == |targets| by { RuleLength(band, targets, events, outcomes); }
    RuleDeterminesUpTo(band, targets, events, outcomes, |targets|);
  }

  lemma RuleLength(band: real, targets: seq<Target>, events: seq<PlayedNote>, outcomes: seq<NoteOutcome>)
    requires FollowsRule(band, targets, events, outcomes)
    ensures |outcomes| == |targets|
  {}
}
