/** The values the scoring engine works on. Times are exact reals: one beat, one
    second and one nanosecond are never rounded. */
module ScoringTypes {

  datatype Option<+T> = None | Some(value: T)

  datatype Hand = R | L

  datatype Verdict = PERFECT | GOOD | MISSED | WRONG {
    /** A matched note: PERFECT and GOOD count as hits. */
    predicate Hit() { PERFECT? || GOOD? }
  }

  datatype NoteFields = NoteFields(
    pitch: int, startBeat: real, durBeats: real, hand: Hand, scoringWeight: real)
  {
    predicate Valid() {
      0 <= pitch <= 127 && startBeat >= 0.0 && durBeats > 0.0 && scoringWeight >= 0.0
    }
  }

  /** A note the player was supposed to play. */
  type ExpectedNote = n: NoteFields | n.Valid() witness NoteFields(60, 0.0, 1.0, R, 1.0)

  datatype EventFields = EventFields(pitch: int, velocity: int, onTimeNs: int, offTimeNs: int) {
    predicate Valid() {
      0 <= pitch <= 127 && 0 <= velocity <= 127 && onTimeNs >= 0 && (offTimeNs == -1 || offTimeNs >= onTimeNs)
    }

    /** Key-down time in seconds. */
    function Seconds(): real { onTimeNs as real / 1000000000.0 }
  }

  /** A note the player actually played. */
  type PlayedNote = e: EventFields | e.Valid() witness EventFields(60, 64, 0, -1)

  /** What the event order looks at: key-down time, then pitch, then velocity. */
  datatype EventKey = EventKey(onTimeNs: int, pitch: int, velocity: int)

  function KeyOfEvent(e: PlayedNote): EventKey { EventKey(e.onTimeNs, e.pitch, e.velocity) }

  predicate EventKeyLe(a: EventKey, b: EventKey) {
    a.onTimeNs < b.onTimeNs ||
    (a.onTimeNs == b.onTimeNs && (a.pitch < b.pitch || (a.pitch == b.pitch && a.velocity <= b.velocity)))
  }

  /** The deterministic event order. */
  predicate EventLe(a: PlayedNote, b: PlayedNote) { EventKeyLe(KeyOfEvent(a), KeyOfEvent(b)) }

  /** What the canonical note order looks at: start beat, then right hand before left, then pitch. */
  datatype NoteKey = NoteKey(startBeat: real, hand: Hand, pitch: int)

  function KeyOfNote(n: ExpectedNote): NoteKey { NoteKey(n.startBeat, n.hand, n.pitch) }

  predicate NoteKeyLe(a: NoteKey, b: NoteKey) {
    a.startBeat < b.startBeat ||
    (a.startBeat == b.startBeat &&
     ((a.hand == R && b.hand == L) || (a.hand == b.hand && a.pitch <= b.pitch)))
  }

  /** The canonical note order. */
  predicate NoteLe(a: ExpectedNote, b: ExpectedNote) { NoteKeyLe(KeyOfNote(a), KeyOfNote(b)) }

  datatype NoteOutcome = NoteOutcome(
    expectedIndex: nat,
    verdict: Verdict,
    matchedEventIndex: Option<nat>,
    deviationMs: Option<real>,
    matchedPitch: Option<int>)

  function Abs(x: real): real { if x < 0.0 then -x else x }
  function Max(x: real, y: real): real { if x < y then y else x }
  function Min(x: real, y: real): real { if y < x then y else x }
}
