# KeyQuest: a verified model of the scoring engine and its audio transport

KeyQuest is a piano practice app. A song pack is cut into chunks; while a chunk is practised, a
note detector turns microphone samples into played notes, and a scorer judges every expected note as
PERFECT, GOOD, MISSED or WRONG while the player is still playing. This project models that path in
Dafny and proves what its documentation and tests promise of it.

The centre is the live scorer. It re-runs a greedy batch matcher after every played note and
*freezes* verdicts once a note's deadline has passed. The claim that a frozen verdict can never change
is a claim about two runs of the same greedy loop over different event lists, and it is proved here
in both forms the source states: note by note, under a condition on the hit windows
that is exact (`FreezeExact.FrozenExactlyWhenTight`), and with running-maximum deadlines under no
condition on windows or tempo (`RealtimeProofs.OnlineEqualsOffline`).

| files | subject |
|---|---|
| `ScoringTypes`, `RealArith`, `StableSort` | values, a few facts of real arithmetic, stable sorting |
| `TempoMap`, `TempoProofs` | beats to seconds under step and linear tempo curves |
| `ScoreConfig` | tempo-scaled hit windows |
| `Matcher` | the matching loops and their specification |
| `GreedyRule` | the matching rule in its own words; it determines the matcher |
| `MatchMeaning` | windows, orders and the whole call in beats, milliseconds and time stamps |
| `MatcherProofs`, `OrderProofs` | conservation, half of optimal, order independence |
| `FreezeProofs`, `FreezeExact`, `FreezeLimits` | the freeze theorem, its exact condition, and runs outside it |
| `SettledMoment` | for every moment, exactly when it settles a note |
| `ChordClusterer`, `MeasureMapper` | chords as the unique maximal partition; measure table against cursor walk |
| `Scorer`, `ScorerProofs` | aggregation into a report, and what adds up in it |
| `ReportMeaning` | every field of a report, read off its own outcomes |
| `RealtimeScorer`, `RealtimeProofs` | the live scorer, online against offline |
| `LiveMeaning` | which runs it accepts, when and how each note freezes, from the inputs alone |
| `LessonSession`, `SessionProofs` | the practice session and the combo, over all call sequences |
| `SessionMeaning` | every session as runs of the live scorer; its anchor, clock and end |
| `ChunkClock` | the pass clock against the song clock of the expected notes |
| `ProtoScoreAdapter` | slicing chunks, remapping ties, the song pack validator's tie check |
| `Words`, `SpscMachine` | wrapping positions and masks; the lock-free ring under every interleaving |
| `SpscCalls` | whole pushes, pops and reads under every interleaving |
| `RingBuffer` | ring buffer, event queue and audio input as classes, call by call |
| `YinStream` | the sliding-window buffer of the pitch detector |
| `Segmentation`, `NoteSegmenter` | frames into notes: the unique segmentation, and the code that finds it |
| `TextFields`, `SessionFormat` | the recorded-session text format and its round trips |

## Reading the model

- Times, beats and weights are exact reals; nothing is rounded. A time in nanoseconds is an integer;
  `toLong()` on a non-negative number is the floor.
- An exception of the source is a refusal here: `None`, a null reference, `false`, or a named fault.
  The state after a refusal is stated too.
- The natural logarithm of a linear ramp is a parameter of the tempo map. Results about ramps name
  what they use of it: `ln(xy) = ln x + ln y` and `ln x <= x - 1` (`TempoProofs.IsLogarithm`).
- Mutable objects are classes whose methods are proved against functions on values (`View`,
  `Contents`); the lemmas about whole runs are about those functions.
- In `SpscMachine` every atomic load and store and every copied element is one step, and steps of
  the two threads interleave freely. The history variables `pushed`, `popped`, `offered` and
  `dropped` are for stating what happened; `FirstInFirstOut` speaks of every state of every run, and
  `SpscCalls` of every call of every run.
- `LiveMeaning`, `SessionMeaning`, `ReportMeaning` and `MatchMeaning` say what the functions on values
  mean without using them: from inputs, calls, outcomes, beats and configured fields alone.
- `OrderProofs` is about outcomes and extras only: notes that agree in start, hand and pitch but
  differ in weight keep their input order, so the weighted score may depend on it.

## Where code and documentation differ

The model follows the code.

- `scoring-v1.md` promises that time is monotone in the beat. With the near-equal threshold of
  `bpmSeconds` (TempoMap.kt:116) this fails by a tiny step at the start of every ramp that speeds up
  by the threshold or more; `TempoProofs.RunsForwardExactlyWhenCalm` gives the exact condition.
- The per-note freeze theorem in the documentation of `RealtimeScorer` is stated under
  `late >= early`. Alone that is neither enough (`FreezeLimits.StepBackThaws`: equal sides, on a ramp
  where time steps back) nor necessary (`FreezeExact.EarlierClosesHold`).
  `FreezeExact.FrozenExactlyWhenTight` gives the exact condition, which `FreezeExact.LeakTest`
  computes from the windows; `SettledMoment.SettledExactly` gives it for every moment; and
  `FreezeExact.DocumentedFreeze` proves the documented claim for every map without such ramps.
  `FreezeLimits.WiderEarlyWindowThaws` is a run with a wider early side. The rule the code uses, the
  running maximum, needs no condition.
- The delivery contract (events before the tick that passes them) is only partly enforced by the
  code. The model needs less than is documented: events in order, none in the window of a note already
  frozen (`RealtimeProofs.Honoured`; the documented form is `RealtimeProofs.Punctual`). That is exactly
  what leaves the frozen verdicts alone whatever was played (`RealtimeProofs.HarmlessExactly`).
  `RealtimeProofs.LateDeliveryFreezesWrong` shows what happens without it.
- `measureStartBeat(0)` is documented as always 0.0; with an unknown duration the code returns the
  pickup (MeasureMapper.kt:168-174). The sentinel is documented as starting exactly at the duration;
  it is the first measure start at or after it.
- With no expected notes the report has 0 stars even where the lowest threshold is 0
  (Scorer.kt:54-70).
- Parse errors are documented to name the line. Values that a note, event, tempo entry or tempo map
  itself refuses raise an error without one (SessionFormat.kt:58-63); `Section.Failed` has an
  optional line for this reason.
- A chunk may end up to 1e-9 beats after its pack (ProtoScoreAdapter.kt:126), where the documentation
  says `endBeat <= durationBeats`.
- `LessonSession` says that the pass clock restarts at 0 with every chunk; `ProtoScoreAdapter` says that
  the expected notes stay on the song's clock because the scorer aligns events to it. For a chunk that
  does not start with the song the two do not meet: a player in time with the chunk as drawn is early by
  the time at which the chunk starts. `ChunkClock.PlayedAsDrawn` gives the exact condition under which a
  note can still be hit that way, and `ChunkClock.LateChunkMissed` a note that cannot.

## Model

| member | source | states |
|---|---|---|
| `Tempo.LastEntryAtOrBefore` | android/scoring/src/main/kotlin/com/keyquest/scoring/TempoMap.kt:68-72 | The loop finds the last entry at or before the beat (for a beat of at least 0: it is at or before it, and the next entry is after it). |
| `Tempo.BeatToSeconds` | android/scoring/src/main/kotlin/com/keyquest/scoring/TempoMap.kt:133-153 | The loop with its early exit returns the sum over ALL entries of the time spent in each segment, and 0 for a beat at or before 0. |
| `Tempo.LinearBpmPositive` | android/scoring/src/main/kotlin/com/keyquest/scoring/TempoMap.kt:101-106 | The interpolated tempo of a ramp lies between the tempi of its two entries, so it is positive and the logarithm is always taken of a positive number. |
| `Tempo.MapFromAnyOrder` | android/scoring/src/main/kotlin/com/keyquest/scoring/TempoMap.kt:53-65 | The entries of a tempo map may be listed in any order: the constructor sorts them into the same map. |
| `Tempo.MapOfEntries` | android/scoring/src/main/kotlin/com/keyquest/scoring/TempoMap.kt:53-65 | What is built holds exactly the entries given. |
| `Tempo.MapAcceptedExactly` | android/scoring/src/main/kotlin/com/keyquest/scoring/TempoMap.kt:55-65 | Entries in any order are accepted if and only if one is at beat 0 and no two are at one beat. |
| `TempoProofs.TimeZero` | android/scoring/src/main/kotlin/com/keyquest/scoring/TempoMap.kt:133-135 | A beat at or before 0 is at time 0. |
| `TempoProofs.ConstantIncrement` | android/scoring/src/main/kotlin/com/keyquest/scoring/TempoMap.kt:121-153 | Between two beats of one constant segment exactly (b - a) * 60 / bpm seconds pass. |
| `TempoProofs.LinearIncrement` | android/scoring/src/main/kotlin/com/keyquest/scoring/TempoMap.kt:115-153 | Between two beats of one ramp, its start and end included, the time is the exact integral (60/slope) * ln(bpm_b/bpm_a), provided the ramp has moved by the near-equal threshold (at the first beat, or at the second when the first is the start). |
| `TempoProofs.RampFromStart` | android/scoring/src/main/kotlin/com/keyquest/scoring/TempoMap.kt:41-47 | From the start of a ramp to any beat up to its end: the log-integral once the ramp has moved by the threshold, the constant formula before. |
| `TempoProofs.RampBpm` | android/scoring/src/main/kotlin/com/keyquest/scoring/TempoMap.kt:95-106 | The tempo is the interpolated one on the whole closed ramp: at its end it equals the next entry's tempo, whatever that entry's curve. |
| `TempoProofs.BetweenSlowestAndFastest` | android/scoring/src/main/kotlin/com/keyquest/scoring/TempoMap.kt:121-153 | If every tempo lies in [lo, hi], the time of a beat lies between beat*60/hi and beat*60/lo, ramps included. |
| `TempoProofs.RunsForwardExactlyWhenCalm` | android/scoring/src/main/kotlin/com/keyquest/scoring/TempoMap.kt:115-153 | Time is strictly increasing in the beat if no ramp speeds up by the near-equal threshold or more; if one does, some later beat has an earlier time. |
| `TempoProofs.AccelerandoStepsBack` | android/scoring/src/main/kotlin/com/keyquest/scoring/TempoMap.kt:115-119 | For every ramp that speeds up by the threshold or more: two concrete beats, the later of which has the earlier time. |
| `TempoProofs.AccelerandoExample` | android/scoring/src/main/kotlin/com/keyquest/scoring/TempoMap.kt:115-119 | A valid tempo map (60 to 240 bpm over eight beats) whose time is not monotone over exact reals. |
| `Config.WindowShape` | android/scoring/src/main/kotlin/com/keyquest/scoring/ScoreConfig.kt:107-112 | Both sides of a hit window are positive and lie between the clamp bounds times their base, and late is at least early exactly when the late base is at least the early base. |
| `Config.WindowWidths` | android/scoring/src/main/kotlin/com/keyquest/scoring/ScoreConfig.kt:107-113 | For both levels, from the configured fields alone: between the clamps a side times the tempo of the note equals the configured side of that level times the reference tempo; for a slower or faster note the factor is the clamp bound. |
| `Matcher.BestEqualPitchEvent` | android/scoring/src/main/kotlin/com/keyquest/scoring/Matcher.kt:98-123 | The loop returns the free equal-pitch event in the closed window with the least deviation, the earliest on ties; nothing exactly when there is none. |
| `Matcher.AnyWrongPitch` | android/scoring/src/main/kotlin/com/keyquest/scoring/Matcher.kt:71-76 | True exactly when some free event of another pitch lies in the window. |
| `Matcher.MatchNote` | android/scoring/src/main/kotlin/com/keyquest/scoring/Matcher.kt:50-86 | One turn of the matching loop: the outcome is the specified one and exactly the chosen event is newly flagged as consumed. |
| `Matcher.MatchNotes` | android/scoring/src/main/kotlin/com/keyquest/scoring/Matcher.kt:44-89 | The in-place flags and the outcomes after the loop are those of the greedy specification. |
| `Matcher.Match` | android/scoring/src/main/kotlin/com/keyquest/scoring/Matcher.kt:44-89 | The whole call, both sorts included, returns the specified outcomes and extras for lists in any order. |
| `StableSort.SortStable` | android/scoring/src/main/kotlin/com/keyquest/scoring/Matcher.kt:45-47 | The sort standing for sortedWith and sortedBy is stable: elements the comparator ranks alike keep their order. |
| `StableSort.SortCorrect` | android/scoring/src/main/kotlin/com/keyquest/scoring/Matcher.kt:45-47 | It returns an ordered permutation of its input. |
| `Matcher.Pick` | android/scoring/src/main/kotlin/com/keyquest/scoring/Matcher.kt:98-123 | Least deviation among all candidates, strictly less than every earlier one. |
| `GreedyRule.MatcherFollowsRule` | android/scoring/src/main/kotlin/com/keyquest/scoring/Matcher.kt:32-89 | Stated only in terms of the outcomes of earlier notes: a note is hit exactly when an eligible event is left, by the nearest one, PERFECT exactly within the band; otherwise WRONG exactly when a wrong key falls in its window, else MISSED; deviation and pitch are those of the matched event. |
| `GreedyRule.RuleDetermines` | android/scoring/src/main/kotlin/com/keyquest/scoring/Matcher.kt:32-89 | Any list of outcomes that follows this rule IS the matcher's: the rule determines every field. |
| `MatchMeaning.MatchedFollowsRule` | android/scoring/src/main/kotlin/com/keyquest/scoring/Matcher.kt:44-89 | The whole call, on lists in any order, follows the rule over the notes in canonical order and the events as played. |
| `MatchMeaning.WindowOfNote` | android/scoring/src/main/kotlin/com/keyquest/scoring/Matcher.kt:53-66 | In milliseconds: an event lies in a note's window exactly when it is at most the early side early and at most the late side late, counted from the time of the note's beat; its deviation is how early or late it is. |
| `MatchMeaning.CanonicalOrder` | android/scoring/src/main/kotlin/com/keyquest/scoring/ChordClusterer.kt:56-58 | The canonical order lists all notes; none stands behind one of a later beat, of the left hand at its beat, or of a higher pitch in its hand. |
| `MatchMeaning.PlayedOrder` | android/scoring/src/main/kotlin/com/keyquest/scoring/Matcher.kt:125-129 | The played order lists all events by time, then pitch, then velocity. |
| `MatchMeaning.ExtrasInOrder` | android/scoring/src/main/kotlin/com/keyquest/scoring/Matcher.kt:87-88 | Extras are reported in played order. |
| `MatcherProofs.MatchesAreDistinct` | android/scoring/src/main/kotlin/com/keyquest/scoring/Matcher.kt:108-121 | No two notes are matched with the same event. |
| `MatcherProofs.EventsConserved` | android/scoring/src/main/kotlin/com/keyquest/scoring/Matcher.kt:44-89 | As multisets, matched events plus extras are exactly the played events. |
| `MatcherProofs.ExtrasExplainNothing` | android/scoring/src/main/kotlin/com/keyquest/scoring/Matcher.kt:71-87 | No extra of an unmatched note's pitch lies in its window; no extra at all lies in a MISSED note's window. |
| `MatcherProofs.HalfOfOptimal` | android/scoring/src/main/kotlin/com/keyquest/scoring/Matcher.kt:50-123 | No injective assignment of events to notes that respects pitch and window has more than twice as many pairs as the matcher. |
| `MatcherProofs.HalfIsReached` | android/scoring/src/main/kotlin/com/keyquest/scoring/Matcher.kt:50-123 | Under the default configuration at 120 bpm, two notes and two events on which the matcher finds one pair and two exist: the factor two is tight. |
| `MatcherProofs.MatchedCount` | android/scoring/src/main/kotlin/com/keyquest/scoring/Matcher.kt:50-85 | The number of matched notes is the number of matched events. |
| `OrderProofs.OrderIrrelevant` | android/scoring/src/main/kotlin/com/keyquest/scoring/Matcher.kt:125-129 | Permuting either input changes no outcome, and the extras agree in time, pitch and velocity. |
| `FreezeProofs.FreezeTheorem` | android/scoring/src/main/kotlin/com/keyquest/scoring/RealtimeScorer.kt:9-20 | Where no earlier note leaks into note k: its whole outcome (verdict, match, deviation) is the same for any two event lists that agree up to the end of k's own window and any two note lists that agree up to k. No condition on tempo or window shape beyond that. |
| `FreezeExact.FrozenExactlyWhenTight` | android/scoring/src/main/kotlin/com/keyquest/scoring/RealtimeScorer.kt:9-20 | For every configuration, tempo map, song and note: the events up to the end of its own window settle the note's outcome, for all event lists, IF AND ONLY IF no earlier note leaks into it, i.e. stays open longer and prefers an event after the close to one in both windows. |
| `FreezeExact.LeakThaws` | android/scoring/src/main/kotlin/com/keyquest/scoring/Matcher.kt:50-123 | From any leak at any moment, two event lists that agree up to that moment and on which the note's verdict is MISSED and not MISSED. |
| `FreezeExact.LeakTestExact` | android/scoring/src/main/kotlin/com/keyquest/scoring/RealtimeScorer.kt:77-83 | Whether a note leaks is computed from the two windows alone, by one comparison of two event times. |
| `FreezeExact.DocumentedFreeze` | android/scoring/src/main/kotlin/com/keyquest/scoring/RealtimeScorer.kt:9-20 | The documented claim: on a tempo map without ramps that speed up by the threshold, late >= early freezes every note of every song at its own close. |
| `FreezeExact.WideLateSideHolds` | android/scoring/src/main/kotlin/com/keyquest/scoring/RealtimeScorer.kt:9-12 | With late >= early nothing leaks between notes whose times do not decrease. |
| `FreezeExact.EarlierClosesHold` | android/scoring/src/main/kotlin/com/keyquest/scoring/RealtimeScorer.kt:21-33 | Nothing leaks where no earlier window ends later, whatever the shape of the windows. |
| `FreezeExact.CalmMapsOrder` | android/scoring/src/main/kotlin/com/keyquest/scoring/Matcher.kt:47-51 | On such a tempo map the times of the canonically ordered notes do not decrease. |
| `SettledMoment.SettledExactly` | android/scoring/src/main/kotlin/com/keyquest/scoring/RealtimeScorer.kt:9-43 | For EVERY moment, on a song whose note times do not decrease: the events up to the moment settle a note's outcome, for all event lists, if and only if no event of its own window is still to come and no earlier note leaks into it at that moment. |
| `SettledMoment.OutOfReachTestExact` | android/scoring/src/main/kotlin/com/keyquest/scoring/RealtimeScorer.kt:77-93 | That condition is computed from the windows alone, before anything is played. |
| `SettledMoment.RunningMaxSettles` | android/scoring/src/main/kotlin/com/keyquest/scoring/RealtimeScorer.kt:21-33 | From the running maximum of the closes on, every note of every song is settled, whatever the order of note times and the shape of the windows. |
| `FreezeLimits.ChainThaws` | android/scoring/src/main/kotlin/com/keyquest/scoring/Matcher.kt:50-123 | Why the order is needed: a concrete song on a ramp where time steps back in which no pair of notes leaks, and three notes still hand an event on and change a verdict. |
| `SettledMoment.WindowsStaggered` | android/scoring/src/main/kotlin/com/keyquest/scoring/ScoreConfig.kt:107-112 | Of two windows of one configuration at notes in order, the earlier note's starts no later or ends no later. |
| `FreezeProofs.FreedStep` | android/scoring/src/main/kotlin/com/keyquest/scoring/Matcher.kt:50-123 | The step behind it: every event that the longer run leaves free and the shorter one consumes lies before note k's window, whatever the order of note times. |
| `FreezeProofs.StrongOutcome` | android/scoring/src/main/kotlin/com/keyquest/scoring/RealtimeScorer.kt:9-20 | Two greedy runs, one over events added after the close of note k, agree on note k when no earlier note leaks into it. |
| `FreezeProofs.PrefixOutcome` | android/scoring/src/main/kotlin/com/keyquest/scoring/RealtimeScorer.kt:85-93 | Once the windows of notes 0..k lie inside the common prefix, the two runs agree on 0..k, whatever the shape of the windows. |
| `FreezeProofs.HeardIsPrefix` | android/scoring/src/main/kotlin/com/keyquest/scoring/Matcher.kt:125-129 | The events up to a time form a prefix of the sorted events. |
| `FreezeProofs.LaterNotesIrrelevant` | android/scoring/src/main/kotlin/com/keyquest/scoring/Matcher.kt:50-86 | Notes after k have no influence on k. |
| `FreezeLimits.WiderEarlyWindowThaws` | android/scoring/src/main/kotlin/com/keyquest/scoring/RealtimeScorer.kt:9-20 | With an early window wider than the late one the per-note claim fails: a concrete song and two event lists that agree up to the note's close but not on its verdict. |
| `FreezeLimits.StepBackThaws` | android/scoring/src/main/kotlin/com/keyquest/scoring/RealtimeScorer.kt:9-20 | late >= early alone is not enough either: a concrete song with equal sides, on a ramp where time steps back, whose last note is not frozen at its close. |
| `ChordClusterer.ClusterNotes` | android/scoring/src/main/kotlin/com/keyquest/scoring/ChordClusterer.kt:32-53 | The loop with its running cluster yields the specified grouping of the canonically sorted notes. |
| `ChordClusterer.ClustersPartition` | android/scoring/src/main/kotlin/com/keyquest/scoring/ChordClusterer.kt:32-53 | The chords concatenate to the canonical notes; each is non-empty, every member is within tolerance of its FIRST note, and the first note of the next chord is not. |
| `ChordClusterer.ClusteringUnique` | android/scoring/src/main/kotlin/com/keyquest/scoring/ChordClusterer.kt:32-53 | There is no other such partition. |
| `ChordClusterer.JoinsExactly` | android/scoring/src/main/kotlin/com/keyquest/scoring/ChordClusterer.kt:41-44 | A note is within the tolerance exactly when the beats since the chord's first note times 60000 are at most the tolerance in ms times the tempo half way between them. |
| `Measures.ShortestMeasure` | android/scoring/src/main/kotlin/com/keyquest/scoring/MeasureMapper.kt:88-89 | Every legal signature makes a measure of at least 1/8 beat, which is why the loops end. |
| `Measures.MapperFromAnyOrder` | android/scoring/src/main/kotlin/com/keyquest/scoring/MeasureMapper.kt:62-86 | The signatures may be listed in any order: the constructor sorts them into the same mapper. |
| `Measures.MapperOfSignatures` | android/scoring/src/main/kotlin/com/keyquest/scoring/MeasureMapper.kt:62-86 | What is built holds exactly the signatures, pickup and duration given. |
| `Measures.MapperAcceptedExactly` | android/scoring/src/main/kotlin/com/keyquest/scoring/MeasureMapper.kt:66-86 | Signatures in any order are accepted if and only if one is at beat 0, no two are at one beat, pickup and duration are not negative, and the pickup fits the opening measure: pickup * denominator <= 4 * numerator. |
| `Measures.MeasureLength` | android/scoring/src/main/kotlin/com/keyquest/scoring/MeasureMapper.kt:88-89 | The length of a measure times the denominator is four times the numerator. |
| `Measures.BarLines` | android/scoring/src/main/kotlin/com/keyquest/scoring/MeasureMapper.kt:32-38 | Bar line 0 is at 0 and bar line 1 at the pickup; each next one follows by the length, numerator and denominator written out, of the last signature at or before the bar line. |
| `Measures.MeasureHoldsBeat` | android/scoring/src/main/kotlin/com/keyquest/scoring/MeasureMapper.kt:49-53 | Where every beat falls: before the pickup in measure 0, within the song between the bar lines of its measure, after it in the last measure that starts before the end. |
| `Measures.ActiveSignature` | android/scoring/src/main/kotlin/com/keyquest/scoring/MeasureMapper.kt:92-96 | The loop returns the length of a measure under the last signature at or before the beat (for a beat of at least 0): the one at or before it whose successor is after it. |
| `Measures.MeasureStarts` | android/scoring/src/main/kotlin/com/keyquest/scoring/MeasureMapper.kt:102-114 | The table is 0, then every measure start before the duration, then the first one at or after it. |
| `Measures.MeasureIndexWalk` | android/scoring/src/main/kotlin/com/keyquest/scoring/MeasureMapper.kt:143-152 | The cursor walk returns the measure whose half-open span holds the beat. |
| `Measures.SearchTable` | android/scoring/src/main/kotlin/com/keyquest/scoring/MeasureMapper.kt:131-137 | The binary search returns the rightmost start at or before the beat. |
| `Measures.MeasureIndex` | android/scoring/src/main/kotlin/com/keyquest/scoring/MeasureMapper.kt:125-140 | The whole call, with its pickup, clamp, table and walk branches, meets the specification. |
| `Measures.WalkReaches` | android/scoring/src/main/kotlin/com/keyquest/scoring/MeasureMapper.kt:143-152 | The walk passes measure n exactly when the beat is at or after the start of n. |
| `Measures.TableAgreesWithWalk` | android/scoring/src/main/kotlin/com/keyquest/scoring/MeasureMapper.kt:98-152 | For every beat in [pickup, duration) table and walk agree; at and after the duration the table gives the last measure. |
| `Measures.MeasureIndexMonotone` | android/scoring/src/main/kotlin/com/keyquest/scoring/MeasureMapper.kt:125-140 | A later beat is never in an earlier measure. |
| `Measures.MeasureOfStart` | android/scoring/src/main/kotlin/com/keyquest/scoring/MeasureMapper.kt:125-175 | The index of the start of measure n >= 1 is n, clamped to the last measure when the duration is known. |
| `Measures.MeasureStartBeat` | android/scoring/src/main/kotlin/com/keyquest/scoring/MeasureMapper.kt:160-175 | The start of a measure by table or by walk; None exactly for an index past the sentinel; the pickup for index 0 when the duration is unknown. |
| `Scorer.Aggregate` | android/scoring/src/main/kotlin/com/keyquest/scoring/Scorer.kt:81-108 | One pass yields the four counts and both weights of the specification, whose meaning is in `ReportMeaning.ReportSays`. |
| `Scorer.CollectChords` | android/scoring/src/main/kotlin/com/keyquest/scoring/Scorer.kt:113-127 | The cursor hands each chord exactly its own stretch of outcomes. |
| `Scorer.CollectHeatmap` | android/scoring/src/main/kotlin/com/keyquest/scoring/Scorer.kt:130-141 | The mutable map ends as the specified heatmap. |
| `Scorer.Score` | android/scoring/src/main/kotlin/com/keyquest/scoring/Scorer.kt:49-166 | The whole call returns the specified report, the early return for no expected notes included; `ReportMeaning` says what each of its fields is. |
| `ScorerProofs.CountsSum` | android/scoring/src/main/kotlin/com/keyquest/scoring/Scorer.kt:83-103 | The four verdict counts add up to the outcomes. |
| `ScorerProofs.TonesHitSum` | android/scoring/src/main/kotlin/com/keyquest/scoring/Scorer.kt:113-127 | Tones hit over all chords are the hits over all outcomes. |
| `ScorerProofs.ChordStatusExact` | android/scoring/src/main/kotlin/com/keyquest/scoring/Scorer.kt:113-127 | A chord is FULL exactly when all notes of its own stretch were hit and has no hit exactly when none was. |
| `ScorerProofs.HeatmapExact` | android/scoring/src/main/kotlin/com/keyquest/scoring/Scorer.kt:130-141 | A measure is in the heatmap exactly when it has an error, with exactly its own missed and wrong notes. |
| `ScorerProofs.HeatTotals` | android/scoring/src/main/kotlin/com/keyquest/scoring/Scorer.kt:130-141 | The heatmap totals are the missed and wrong counts. |
| `ScorerProofs.ScoreInRange` | android/scoring/src/main/kotlin/com/keyquest/scoring/Scorer.kt:103-108 | The score is in [0, 100], is 100 when all were hit and something weighs, and 0 when nothing was hit. |
| `ScorerProofs.StarsCount` | android/scoring/src/main/kotlin/com/keyquest/scoring/Scorer.kt:144-149 | The stars are the number of thresholds reached. |
| `ScorerProofs.ReportAddsUp` | android/scoring/src/main/kotlin/com/keyquest/scoring/Scorer.kt:49-166 | In every report: the counts add up to the notes expected, matchedCount is perfect + good and the tones hit over all chords, the heatmap adds up to missed and wrong, the score is in [0, 100], stars at most 3. |
| `ScorerProofs.ReportInRange` | android/scoring/src/main/kotlin/com/keyquest/scoring/Scorer.kt:49-166 | Every report is in the ranges a live snapshot demands. |
| `ReportMeaning.ReportSays` | android/scoring/src/main/kotlin/com/keyquest/scoring/Scorer.kt:49-166 | Every report over its own outcomes: each count is the number of notes of that verdict; totalWeight is the weight of all notes; hitWeight is the weight of the hits plus perfectBonus times the weight of the PERFECT ones; score * totalWeight is the smaller of 100 * totalWeight and 100 * hitWeight; stars are the thresholds reached. |
| `ReportMeaning.ScoreEarned` | android/scoring/src/main/kotlin/com/keyquest/scoring/Scorer.kt:81-108 | The same of any verdicts on any first part of the notes, the frozen ones included. |
| `ReportMeaning.HeatmapSays` | android/scoring/src/main/kotlin/com/keyquest/scoring/Scorer.kt:130-141 | Each missed and each wrong note is booked in the measure that the mapper gives for its own start beat, and a measure without one is not in the map. |
| `ReportMeaning.ChordsSay` | android/scoring/src/main/kotlin/com/keyquest/scoring/Scorer.kt:110-127 | The chords of a report are the maximal partition of its notes, each with its notes and the hits of its own stretch. |
| `ReportMeaning.HitsIsSize` | android/scoring/src/main/kotlin/com/keyquest/scoring/Scorer.kt:113-120 | Tones hit of a chord is the number of its notes that are PERFECT or GOOD. |
| `Realtime.RunningMaxClose` | android/scoring/src/main/kotlin/com/keyquest/scoring/RealtimeScorer.kt:77-93 | The array holds, for each note, the deadline: the greatest late edge of the notes up to it, as `LiveMeaning.FrozenPastEveryWindow` says without naming it. |
| `Realtime.RealtimeScorer.constructor` | android/scoring/src/main/kotlin/com/keyquest/scoring/RealtimeScorer.kt:66-127 | Starts with nothing frozen and the batch report of no events. |
| `Realtime.RealtimeScorer.OnEvent` | android/scoring/src/main/kotlin/com/keyquest/scoring/RealtimeScorer.kt:135-147 | Refused, with nothing changed, exactly for an event older than the last; otherwise the new state is the specified one and the snapshot is of it. |
| `Realtime.RealtimeScorer.Tick` | android/scoring/src/main/kotlin/com/keyquest/scoring/RealtimeScorer.kt:158-167 | Refused, with nothing changed, exactly for a clock that runs backwards; otherwise the new state is the specified one. |
| `Realtime.RealtimeScorer.FillFrozen` | android/scoring/src/main/kotlin/com/keyquest/scoring/RealtimeScorer.kt:201-227 | The loop freezes exactly the notes whose deadline the watermark has strictly passed, with their current verdicts, keeps those already frozen, and sums the frozen prefix. |
| `Realtime.RealtimeScorer.Finalize` | android/scoring/src/main/kotlin/com/keyquest/scoring/RealtimeScorer.kt:173-174 | The batch report of the events delivered. |
| `Realtime.RealtimeScorer.GetSnapshot` | android/scoring/src/main/kotlin/com/keyquest/scoring/RealtimeScorer.kt:180-192 | The snapshot shows the state: frozen verdicts first, none after them. |
| `RealtimeProofs.RunningMaxFreeze` | android/scoring/src/main/kotlin/com/keyquest/scoring/RealtimeScorer.kt:21-43 | The outcomes of notes 0..k depend only on the events up to note k's deadline - no assumption on the windows or the tempo. |
| `RealtimeProofs.StepConsistent` | android/scoring/src/main/kotlin/com/keyquest/scoring/RealtimeScorer.kt:44-57 | Every event in order that lies in no window of a frozen note, and every tick forward, is accepted and keeps: the tentative report is the batch report so far, the frozen verdicts are its prefix up to the deadlines passed. |
| `RealtimeProofs.HarmlessExactly` | android/scoring/src/main/kotlin/com/keyquest/scoring/RealtimeScorer.kt:44-48 | An event that comes in order leaves the verdicts of the first n notes alone, whatever was played before, IF AND ONLY IF it lies in none of their windows: the contract above is exact, and can be checked before the call. |
| `RealtimeProofs.OnlineEqualsOffline` | android/scoring/src/main/kotlin/com/keyquest/scoring/RealtimeScorer.kt:9-57 | Over every run under that contract, which is weaker than the documented one, and every continuation of it: the frozen verdicts are a prefix that only grows of the verdicts of the FINAL batch report. |
| `RealtimeProofs.PunctualRunHonours` | android/scoring/src/main/kotlin/com/keyquest/scoring/RealtimeScorer.kt:44-48 | A run in which no event lies before the watermark, as documented, honours the weaker contract. |
| `RealtimeProofs.PunctualOnlineEqualsOffline` | android/scoring/src/main/kotlin/com/keyquest/scoring/RealtimeScorer.kt:9-57 | Online equals offline under the documented contract. |
| `RealtimeProofs.StepSteady` | android/scoring/src/main/kotlin/com/keyquest/scoring/RealtimeScorer.kt:135-167 | Every step the scorer accepts, whether or not the delivery contract is honoured, keeps the report equal to the batch report so far, freezes exactly the notes whose deadline the watermark has passed, and leaves frozen verdicts as they are. |
| `RealtimeProofs.FrozenGrows` | android/scoring/src/main/kotlin/com/keyquest/scoring/RealtimeScorer.kt:38-53 | In EVERY accepted run and every accepted continuation: the report is the batch report over the events delivered, and the frozen verdicts are a prefix that only grows; none ever flips. |
| `RealtimeProofs.FrozenExactlyPastDeadline` | android/scoring/src/main/kotlin/com/keyquest/scoring/RealtimeScorer.kt:201-207 | In every state of every accepted run note k is frozen if and only if the watermark is strictly past its deadline. (That no deadline lies before the start, which the initial state needs, uses the facts about the logarithm.) |
| `LiveMeaning.FrozenPastEveryWindow` | android/scoring/src/main/kotlin/com/keyquest/scoring/RealtimeScorer.kt:77-93 | The same without deadlines: frozen if and only if the watermark is past beatToSeconds(startBeat) + lateMs / 1000 of the note and of every note before it. |
| `LiveMeaning.FrozenWhenPassed` | android/scoring/src/main/kotlin/com/keyquest/scoring/RealtimeScorer.kt:77-207 | The same from the inputs alone: in every accepted run a note is frozen if and only if some event or tick handed in was later than those window ends. |
| `LiveMeaning.FrozenAsJudged` | android/scoring/src/main/kotlin/com/keyquest/scoring/RealtimeScorer.kt:194-207 | In every accepted run, contract or not: the first input past those window ends freezes the note with the verdict of the batch report over the events handed in up to then, for good. |
| `LiveMeaning.AcceptedExactly` | android/scoring/src/main/kotlin/com/keyquest/scoring/RealtimeScorer.kt:135-167 | A run is accepted if and only if event stamps never fall and ticks never fall or lie below zero; the two clocks are then the latest of each. |
| `LiveMeaning.WatermarkLatest` | android/scoring/src/main/kotlin/com/keyquest/scoring/RealtimeScorer.kt:107-111 | The watermark is the latest moment handed in. |
| `LiveMeaning.SnapshotMeaning` | android/scoring/src/main/kotlin/com/keyquest/scoring/RealtimeScorer.kt:176-192 | Every snapshot, field by field: verdicts, pitches, deviations, score and stars of the batch report over the events so far, the frozen prefix, and the score it earns. |
| `LiveMeaning.FrozenScoreMeans` | android/scoring/src/main/kotlin/com/keyquest/scoring/RealtimeScorer.kt:209-227 | The frozen score times the weight of the frozen notes is 100 times what they earn - hits their weight, PERFECT ones the bonus besides - or 100 times that weight if less. |
| `RealtimeProofs.FrozenScoreIsBatchScore` | android/scoring/src/main/kotlin/com/keyquest/scoring/RealtimeScorer.kt:208-227 | Under the contract the frozen score is the batch formula over the frozen prefix of the final report, and the final score once all is frozen. |
| `RealtimeProofs.SnapshotAccepted` | android/scoring/src/main/kotlin/com/keyquest/scoring/RealtimeScorer.kt:252-287 | Every snapshot of every accepted run, contract or not, satisfies all of Snapshot's requirements; in particular the frozen score is always in [0, 100]. |
| `RealtimeProofs.LateDeliveryFreezesWrong` | android/scoring/src/main/kotlin/com/keyquest/scoring/RealtimeScorer.kt:44-57 | Why the contract is needed: an event delivered behind the clock, which the code accepts, leaves a frozen verdict that differs from the batch verdict. |
| `Lessons.ComboTracker.OnVerdict` | android/app/src/main/java/com/keyquest/app/lesson/ComboTracker.kt:33-39 | The two counters move as specified. |
| `Lessons.ComboTracker.Reset` | android/app/src/main/java/com/keyquest/app/lesson/ComboTracker.kt:42-45 | Both counters are 0. |
| `Lessons.NewLessonSession` | android/app/src/main/java/com/keyquest/app/lesson/LessonSession.kt:60-135 | Refused exactly when there is no chunk, the tempo map refuses the entries, the measure mapper refuses the signatures, pickup or duration, or the first chunk in teaching order does not lie within the song pack; otherwise READY on that chunk, with the map and mapper built from the song pack. Later chunks are not looked at. |
| `Lessons.LessonSession.constructor` | android/app/src/main/java/com/keyquest/app/lesson/LessonSession.kt:64-135 | Opens READY on the first chunk in teaching order, given that it lies within the song pack; the refusal is NewLessonSession's. |
| `Lessons.LessonSession.Play` | android/app/src/main/java/com/keyquest/app/lesson/LessonSession.kt:144-154 | From READY the pass is anchored at the last frame; from PAUSED it goes on; otherwise nothing changes. |
| `Lessons.LessonSession.Pause` | android/app/src/main/java/com/keyquest/app/lesson/LessonSession.kt:156-158 | PLAYING becomes PAUSED; otherwise nothing changes. |
| `Lessons.LessonSession.Tick` | android/app/src/main/java/com/keyquest/app/lesson/LessonSession.kt:175-204 | Refused exactly when the frame clock runs backwards while playing; otherwise clock, freezes, combo and the end of the pass, replayed or finished, are as specified. |
| `Lessons.LessonSession.CountFrozen` | android/app/src/main/java/com/keyquest/app/lesson/LessonSession.kt:183-192 | The verdicts frozen by one call reach the combo tracker in order, each once. |
| `Lessons.LessonSession.OnEvent` | android/app/src/main/java/com/keyquest/app/lesson/LessonSession.kt:218-238 | The event is rebased to pass time; dropped before the pass starts; refused exactly when it is no playable note or out of order. |
| `Lessons.LessonSession.Retry` | android/app/src/main/java/com/keyquest/app/lesson/LessonSession.kt:245-259 | A fresh scorer and combo on the same chunk, READY, clocks unchanged. |
| `Lessons.LessonSession.Next` | android/app/src/main/java/com/keyquest/app/lesson/LessonSession.kt:268-273 | Moves to the next chunk, if there is one, with a fresh pass; refused exactly when that chunk does not lie within the song pack, with the index moved on and everything else as it was. |
| `Lessons.LessonSession.Results` | android/app/src/main/java/com/keyquest/app/lesson/LessonSession.kt:288-288 | The batch report of the pass. |
| `SessionProofs.ComboMeaning` | android/app/src/main/java/com/keyquest/app/lesson/ComboTracker.kt:33-39 | Over any verdicts, combo is the length of the trailing run of hits and bestCombo that of the longest run. |
| `SessionProofs.ComboOverRuns` | android/app/src/main/java/com/keyquest/app/lesson/LessonSession.kt:144-273 | After ANY sequence of calls - play, pause, tick, event, retry, next, loop replay - combo is the trailing and bestCombo the longest hit run of the current pass's frozen verdicts. |
| `SessionProofs.OrderlyNeverThrows` | android/app/src/main/java/com/keyquest/app/lesson/LessonSession.kt:175-273 | Under monotone frames and monotone stamps of playable notes a sequence of calls runs through if and only if every chunk it reaches lies within the song pack; then passStart <= lastFrame, and the scorer clock never runs ahead of the pass clock. |
| `SessionProofs.SessionShowsBatch` | android/app/src/main/java/com/keyquest/app/lesson/LessonSession.kt:175-238 | After any sequence of calls that does not throw, if no event that reached the scorer lay in a window already frozen: what is frozen in the current pass is what its batch report says, and the combo is its trailing hit run. Ignored events do not matter. |
| `SessionProofs.PromptHonours` | android/app/src/main/java/com/keyquest/app/lesson/LessonSession.kt:206-238 | Documented delivery - monotone clocks, every event before the frame that passes it - meets that condition. |
| `SessionMeaning.TeachingOrder` | android/app/src/main/java/com/keyquest/app/lesson/LessonSession.kt:66-67 | The chunks are the song pack's, by ordinal, in its order where ordinals agree. |
| `SessionMeaning.Opening` | android/app/src/main/java/com/keyquest/app/lesson/LessonSession.kt:92-135 | A session opens READY on the first chunk, loop off, clocks at zero, nothing frozen, no combo. |
| `SessionMeaning.CallEffect` | android/app/src/main/java/com/keyquest/app/lesson/LessonSession.kt:144-273 | What each call does to phase, chunk, loop, frame clock and anchor; a pass starts with a play from READY, or with the frame that ends a looped one, and only that moves the anchor. |
| `SessionMeaning.CallAccepted` | android/app/src/main/java/com/keyquest/app/lesson/LessonSession.kt:175-273 | Exactly which calls throw: a frame behind the last one while playing, a next chunk outside the song pack, an event that is no playable note or out of order on the pass clock. |
| `SessionMeaning.PassAnchored` | android/app/src/main/java/com/keyquest/app/lesson/LessonSession.kt:137-154 | Over all call sequences: the anchor is the last frame seen when the pass was started; pause, resume, retry and everything else keep it. |
| `SessionMeaning.PassClock` | android/app/src/main/java/com/keyquest/app/lesson/LessonSession.kt:175-182 | After any calls the scorer's clock is the last frame seen minus the anchor, and zero while READY. |
| `SessionMeaning.PassEnds` | android/app/src/main/java/com/keyquest/app/lesson/LessonSession.kt:193-203 | A pass ends at exactly its first frame with t - passStart >= beatToSeconds(endBeat) - beatToSeconds(startBeat) of its chunk. |
| `SessionMeaning.PassIsScorerRun` | android/app/src/main/java/com/keyquest/app/lesson/LessonSession.kt:144-273 | After any calls the scorer is where the frames and events of the current pass, counted from the anchor, have taken it: every theorem about runs of the live scorer holds of every pass. |
| `SessionMeaning.SessionFreezes` | android/app/src/main/java/com/keyquest/app/lesson/LessonSession.kt:175-238 | In every state of every session a note is frozen if and only if a frame or event of this pass was later than the end of its window and of all windows before it. |
| `ChunkClock.PlayedAsDrawn` | android/app/src/main/java/com/keyquest/app/songpack/ProtoScoreAdapter.kt:19-22 | Pass clock and expected notes: a key pressed at the moment its note has on the chunk's own clock lies in the note's window if and only if the chunk starts no later in the song than the early side of that window is wide. |
| `ChunkClock.LateChunkMissed` | android/app/src/main/java/com/keyquest/app/lesson/LessonSession.kt:84-90 | A chunk that starts at one second with a note: played at the start of the pass it is MISSED, played a second later PERFECT. |
| `SongPacks.NotesInChunk` | android/app/src/main/java/com/keyquest/app/songpack/ProtoScoreAdapter.kt:137-150 | The loop selects the notes that start in [start, end) in order, and its map is the exact inverse of the selection. |
| `SongPacks.ToProtoScore` | android/app/src/main/java/com/keyquest/app/songpack/ProtoScoreAdapter.kt:69-95 | None exactly when the chunk is not within the song pack; otherwise each note is on the chunk's clock with its own staff and its derived hints, moved to that clock, and its tie leads to the place of its own target, or is cut exactly when the target was not selected; tempo map, default tempo, key and time signature are as specified. |
| `SongPacks.ChunkTempoCovers` | android/app/src/main/java/com/keyquest/app/songpack/ProtoScoreAdapter.kt:152-172 | The renderer's tempo map is never empty and in strict order, and covers the start of the chunk if and only if an entry of the song stands exactly there or none stands after it. |
| `SongPacks.ChunkTempoEntries` | android/app/src/main/java/com/keyquest/app/songpack/ProtoScoreAdapter.kt:152-172 | Its entries are exactly those of the song from the start of the chunk on, moved to the chunk's clock, or the default tempo where there are none. |
| `SongPacks.ExpectedNotes` | android/app/src/main/java/com/keyquest/app/songpack/ProtoScoreAdapter.kt:105-116 | The notes to be scored are exactly those that start in [startBeat, endBeat), in the song pack's order, unmoved, weight included. |
| `SongPacks.ScoreLinesUp` | android/app/src/main/java/com/keyquest/app/songpack/ProtoScoreAdapter.kt:69-116 | Note i drawn and note i scored are the same note, the one on the chunk's clock, the other on the song's. |
| `SongPacks.CheckTies` | pipeline/pipeline/songpack/validator.py:167-199 | The loop reports the specified errors, in order. |
| `SongPacks.TieCheckExact` | pipeline/pipeline/songpack/validator.py:167-199 | Nothing is reported if and only if every tie leads forward, in range, to the same pitch. |
| `SongPacks.TieReportsFaults` | pipeline/pipeline/songpack/validator.py:167-199 | Every report names a note whose tie is faulty. |
| `SongPacks.TieFaultKinds` | pipeline/pipeline/songpack/validator.py:167-199 | Each kind of fault is reported at a note if and only if the note has it. |
| `SongPacks.TiesSound` | android/app/src/main/java/com/keyquest/app/songpack/ProtoScoreAdapter.kt:69-150 | In a song pack that passes the check every tie of a chunk score is in range, leads strictly forward to the same pitch, names the song pack's own target, and survives exactly when that target starts inside the chunk. |
| `SongPacks.TilesPartition` | android/app/src/main/java/com/keyquest/app/songpack/ProtoScoreAdapter.kt:130-150 | Chunks that tile the timeline put every note of it in exactly one of them. |
| `Words.PowerOfTwoTest` | engine/src/dsp/RingBuffer.cpp:11-22 | The bit test accepts exactly the powers of two. |
| `Words.MaskIsRemainder` | engine/src/dsp/RingBuffer.cpp:44-45 | Masking with a power of two less one is the remainder. |
| `Words.PowersAreGood` | engine/include/engine/NoteEventQueue.h:91-94 | For a power of two up to 2^64, masking a wrapped position is the remainder of the unwrapped one. |
| `Words.WrappedDistance` | engine/src/dsp/RingBuffer.cpp:84-88 | head - tail in wrapping arithmetic is the true distance, also across the wrap. |
| `Words.SlotsDistinct` | engine/include/engine/NoteEventQueue.h:83-117 | Positions less than a capacity apart never share a slot. |
| `SpscMachine.StepKeeps` | engine/include/engine/NoteEventQueue.h:83-125 | Every atomic step of either thread - loads, one copied element, publication - keeps the invariant, whatever the other thread is in the middle of. A push may start whenever `head - tail + n` does not wrap. |
| `SpscMachine.FirstInFirstOut` | engine/include/engine/NoteEventQueue.h:83-117 | In every interleaving, at every moment: what was popped is a prefix of what was pushed, which is a prefix of what will be pushed; at most a capacity is buffered; frames offered = popped + buffered + dropped + in flight; and a read of what was seen available never failed. |
| `SpscMachine.NoSlotShared` | engine/src/dsp/RingBuffer.cpp:30-82 | While both threads copy, no slot being written is one being read. |
| `SpscMachine.CopiesInBounds` | engine/src/dsp/RingBuffer.cpp:44-76 | In every state of every run each element copied in or out is at a slot inside the storage. |
| `SpscMachine.NeverBlocks` | engine/include/engine/NoteEventQueue.h:46-52 | A thread in the middle of a push, pop or read always has an enabled step of its own, whatever the other does. |
| `SpscMachine.EveryStepCounts` | engine/include/engine/NoteEventQueue.h:46-52 | Each such step brings the call closer to its end by a measure bounded by its size, and no step of the other thread sets it back: every call ends within that many steps of its own. |
| `SpscMachine.PushRefusal` | engine/src/dsp/RingBuffer.cpp:38-42 | A push is refused exactly when its elements do not fit beside what was buffered when it loaded the tail; in particular always when they do not fit now. |
| `SpscMachine.PopRefusal` | engine/src/dsp/RingBuffer.cpp:64-69 | A pop is refused exactly when fewer elements than asked for were buffered when it loaded the head. |
| `SpscMachine.ReadAsks` | engine/src/io/OboeInput.cpp:164-179 | A read goes on to pop exactly what it saw, or what it was asked for if that is less; it is over if it saw nothing. |
| `SpscCalls.PushCall` | engine/src/dsp/RingBuffer.cpp:30-54 | Under every interleaving, from call to return: a push has published all of its data, or none of it and counted it as dropped; all exactly when it fits beside what was buffered when it began. |
| `SpscCalls.PopCall` | engine/src/dsp/RingBuffer.cpp:57-83 | Under every interleaving, from call to return: a pop has handed over exactly the oldest n elements, or nothing; the former exactly when they had been pushed by the time it loaded the head, so always when they were buffered when it began. |
| `SpscCalls.ReadCall` | engine/src/io/OboeInput.cpp:164-179 | Under every interleaving, from call to return: a read has handed over exactly the oldest min(max, buffered) elements, of those buffered when it began. |
| `SpscCalls.StepEffect` | engine/src/dsp/RingBuffer.cpp:30-82 | What every step does to the histories: only a publication adds to what was pushed, exactly its data; only a release adds to what was popped, exactly the oldest elements; offered and dropped count whole transfers. |
| `SpscCalls.CallsMayBegin` | engine/include/engine/NoteEventQueue.h:46-52 | An idle thread may begin any push, pop or read, in every state; a push exactly unless the sum would wrap. |
| `SpscMachine.ObservedCount` | engine/include/engine/NoteEventQueue.h:119-125 | What available() returns to any thread that loads head and later tail: it is the elements pushed before the first load and not popped before the second, and within [0, capacity], if and only if the consumer has not passed the loaded head in between; otherwise it wraps and exceeds the capacity, short of nearly 2^64 elements going by. |
| `SpscMachine.OwnCounts` | engine/include/engine/NoteEventQueue.h:119-125 | The consumer's own count never exceeds what is buffered, and the producer's own count is what is buffered. |
| `SpscMachine.FullnessTestExact` | engine/src/dsp/RingBuffer.cpp:40-42 | `head - tail + n > capacity` says what it should if and only if the sum does not wrap; this is the one condition on pushes. |
| `SpscMachine.FullnessTestWraps` | engine/src/dsp/RingBuffer.cpp:40-42 | A concrete sum that wraps and passes the test. |
| `SpscMachine.SingleElementTest` | engine/include/engine/NoteEventQueue.h:87-109 | For one element the bulk tests are the queue's own, `head - tail >= capacity` and `head == tail`, and the sum never wraps, so the machine covers both structures. |
| `RingBuffers.NewRingBuffer` | engine/src/dsp/RingBuffer.cpp:17-28 | Refused exactly when the capacity is no power of two; otherwise empty. |
| `RingBuffers.NewNoteEventQueue` | engine/include/engine/NoteEventQueue.h:70-81 | Refused exactly when the capacity is no power of two; otherwise empty. |
| `RingBuffers.RingBuffer.Push` | engine/src/dsp/RingBuffer.cpp:30-55 | Appends all n elements in order or, exactly when they do not fit, nothing; for every n for which the fullness test is right. |
| `RingBuffers.RingBuffer.CopyIn` | engine/src/dsp/RingBuffer.cpp:44-49 | The two-part wrapped copy puts element i at the slot of position written + i and leaves every buffered slot as it was. |
| `RingBuffers.RingBuffer.Pop` | engine/src/dsp/RingBuffer.cpp:57-82 | Hands over the oldest n elements in order or, exactly when there are fewer, nothing; the rest of the caller's array is untouched. |
| `RingBuffers.RingBuffer.CopyOut` | engine/src/dsp/RingBuffer.cpp:71-76 | The two-part wrapped copy reads position consumed + i into place i. |
| `RingBuffers.RingBuffer.Available` | engine/src/dsp/RingBuffer.cpp:84-88 | The number of buffered elements, also across the wrap. |
| `RingBuffers.RingBuffer.Reset` | engine/src/dsp/RingBuffer.cpp:94-98 | Empties the buffer. |
| `RingBuffers.NoteEventQueue.Push` | engine/include/engine/NoteEventQueue.h:83-99 | Appends the event or, exactly when full, nothing. |
| `RingBuffers.NoteEventQueue.Pop` | engine/include/engine/NoteEventQueue.h:101-117 | Hands over the oldest event; exactly when empty nothing, and the caller's variable is left alone. |
| `RingBuffers.NoteEventQueue.Available` | engine/include/engine/NoteEventQueue.h:119-125 | The number of queued events. |
| `RingBuffers.OboeInput.OnAudioReady` | engine/src/io/OboeInput.h:86-97 | All frames are buffered, or all are counted as dropped, exactly when they do not fit, for every non-negative 32-bit count; a negative count is refused and taken off the counter, which wraps at 2^64. |
| `RingBuffers.OboeInput.Read` | engine/src/io/OboeInput.cpp:164-179 | Hands over min(maxFrames, available) oldest frames, never failing; 0 for a null target. |
| `YinStreams.YinStream.Process` | engine/src/dsp/YinDetector.cpp:216-237 | Whatever was fed before, exactly the sliding windows [k*hop, k*hop + window) of the concatenated input are analysed, each once and in order; fewer than a window's samples stay; the result returned is the last analysis of this call, if any. |
| `YinStreams.YinStream.Finish` | engine/src/dsp/YinDetector.cpp:239-254 | The rest, zero-padded to a window, is analysed, if there is a rest; the stream starts afresh. |
| `YinStreams.Reaches` | engine/src/dsp/YinDetector.cpp:226-235 | Window k is analysed exactly when it ends within the input. |
| `YinStreams.RestFits` | engine/src/dsp/YinDetector.cpp:226-235 | Between 0 and window - 1 samples are left over, for every input length. |
| `YinStreams.NothingDroppedExactly` | engine/src/dsp/YinDetector.cpp:216-237 | As many results are returned as analyses are made if and only if no call completes more than one window; then they are the analyses of exactly the sliding windows of the whole input, in order. |
| `YinStreams.HopsDropNothing` | engine/src/dsp/YinDetector.cpp:216-237 | In particular nothing is dropped, whatever the chunking, if no call feeds more than one hop. |
| `YinStreams.SlidingWindows` | engine/src/dsp/YinDetector.cpp:226-235 | The k-th analysis is that of the samples [k*hop, k*hop + window), and there is one exactly when these lie within the input. |
| `YinStreams.LastWindowReturned` | engine/src/dsp/YinDetector.cpp:216-237 | A call returns the analysis of the last window that ends within the input so far, if it did not before this call. |
| `YinStreams.RestPadded` | engine/src/dsp/YinDetector.cpp:239-254 | What finish analyses: the samples that start no complete window, followed by zeros up to the window size; nothing when there are none. |
| `Segmentation.SpansSegment` | engine/tools/yin_cli.cpp:186-258 | Frames have a segmentation into notes, for every number of dropped frames to be bridged: maximal spans of one pitch that bridge at most so many and take in every confident frame, each with the best confidence of its frames. Joining frame by frame finds it. |
| `Segmentation.SegmentationUnique` | engine/tools/yin_cli.cpp:186-258 | There is at most one such segmentation. |
| `Segmentation.TwoPassesAreOne` | engine/tools/yin_cli.cpp:186-258 | Coalescing and then merging gives the same notes as bridging single dropped frames in one pass. |
| `Segmentation.RunsSegment` | engine/tools/yin_cli.cpp:186-223 | Coalescing frame by frame yields that segmentation with no dropped frame bridged. |
| `Segmentation.MergedSegment` | engine/tools/yin_cli.cpp:246-258 | Fusing run after run yields that segmentation with one dropped frame bridged. |
| `Segmentation.FusedExactly` | engine/tools/yin_cli.cpp:236-258 | Two successive runs become one note if and only if they share a pitch and exactly one unvoiced frame separates them. |
| `Segmentation.HeardOnce` | engine/tools/yin_cli.cpp:186-258 | Every confident frame lies in exactly one note, of its own pitch and at least its confidence. |
| `NoteSegmenter.NoteTracker.CloseNote` | engine/tools/yin_cli.cpp:190-195 | Hands an active note over, once. |
| `NoteSegmenter.NoteTracker.Feed` | engine/tools/yin_cli.cpp:197-223 | After every frame, finished and current notes together are the runs of all frames so far, in seconds. |
| `NoteSegmenter.MergeNotes` | engine/tools/yin_cli.cpp:246-258 | Comparing seconds with two hops fuses exactly what comparing frame numbers would. |
| `NoteSegmenter.KeepLong` | engine/tools/yin_cli.cpp:260-266 | Exactly the notes of at least the minimum length are kept, in order. |
| `NoteSegmenter.CoalesceFrames` | engine/tools/yin_cli.cpp:225-237 | Feeding hop by hop and finishing, no frame is lost: the notes are the runs of all windows of the input and the padded rest. |
| `NoteSegmenter.RunDetector` | engine/tools/yin_cli.cpp:175-267 | The notes returned are the bridged segmentation of the frames of the input, filtered by length; refused exactly when a stream cannot advance. |
| `NoteSegmenter.NotesHeardUnique` | engine/tools/yin_cli.cpp:175-267 | That determines the notes. |
| `NoteSegmenter.FramesOfInput` | engine/tools/yin_cli.cpp:225-237 | The frames that are judged: the analysis of every complete window of the input, in order, and one of the rest followed by zeros, if there is a rest. |
| `NoteSegmenter.NoteTimes` | engine/tools/yin_cli.cpp:186-266 | The notes are exactly those spans of the segmentation that are long enough, from one hop after the start of the first frame to one hop after the start of the last. |
| `NoteSegmenter.NotesHeardApart` | engine/tools/yin_cli.cpp:175-267 | The notes are in order, each offset at least one hop before the next onset, none shorter than the minimum or negative. |
| `TextFields.SplitJoin` | android/scoring/src/main/kotlin/com/keyquest/scoring/replay/SessionFormat.kt:30-57 | Splitting undoes joining when no field contains the separator. |
| `TextFields.JoinSplit` | android/scoring/src/main/kotlin/com/keyquest/scoring/replay/SessionFormat.kt:54-57 | Joining undoes splitting, for every text. |
| `TextFields.DecimalRead` | android/scoring/src/main/kotlin/com/keyquest/scoring/replay/SessionFormat.kt:123-127 | Reading a printed integer gives the integer, -1 and both limits included. |
| `TextFields.TenDigits` | android/scoring/src/main/kotlin/com/keyquest/scoring/replay/SessionFormat.kt:30-35 | Printed integers are decimal: 1234567890 and -1 digit by digit. |
| `TextFields.ReadsExactly` | android/scoring/src/main/kotlin/com/keyquest/scoring/replay/SessionFormat.kt:123-127 | A text of digits, with a sign or without, is read as its value, if that is in range. |
| `TextFields.ReadsNothingElse` | android/scoring/src/main/kotlin/com/keyquest/scoring/replay/SessionFormat.kt:123-127 | No other text is read. |
| `TextFields.TrimExactly` | android/scoring/src/main/kotlin/com/keyquest/scoring/replay/SessionFormat.kt:113-116 | Trimming takes off blanks at both ends, and leaves none there. |
| `SessionFormat.ParseNonEmpty` | android/scoring/src/main/kotlin/com/keyquest/scoring/replay/SessionFormat.kt:113-121 | The loop returns the items of all lines that are neither blank nor comments, or the first fault with its 1-based line. |
| `SessionFormat.WriteEvents` | android/scoring/src/main/kotlin/com/keyquest/scoring/replay/SessionFormat.kt:30-35 | The header, then one line per event. |
| `SessionFormat.ReadEvents` | android/scoring/src/main/kotlin/com/keyquest/scoring/replay/SessionFormat.kt:54-64 | What the lines say as events, each with its own fault: field count, each integer field in order, or an event that refuses its values. |
| `SessionFormat.WriteExpected` | android/scoring/src/main/kotlin/com/keyquest/scoring/replay/SessionFormat.kt:38-43 | The header, then one line per note. |
| `SessionFormat.ReadExpected` | android/scoring/src/main/kotlin/com/keyquest/scoring/replay/SessionFormat.kt:67-82 | What the lines say as notes. |
| `SessionFormat.WriteTempoMap` | android/scoring/src/main/kotlin/com/keyquest/scoring/replay/SessionFormat.kt:46-51 | The header, then one line per entry. |
| `SessionFormat.ReadTempoMap` | android/scoring/src/main/kotlin/com/keyquest/scoring/replay/SessionFormat.kt:85-102 | What the lines say as a tempo map, which may itself refuse the entries. |
| `SessionFormat.EventsRoundTrip` | android/scoring/src/main/kotlin/com/keyquest/scoring/replay/SessionFormat.kt:30-64 | Every list of valid events whose times fit 64 bits is read back exactly as written. |
| `SessionFormat.RewritingKeepsEvents` | android/scoring/src/main/kotlin/com/keyquest/scoring/replay/SessionFormat.kt:30-64 | Whatever is read can be written and read again with the same events. |
| `SessionFormat.NotesRoundTrip` | android/scoring/src/main/kotlin/com/keyquest/scoring/replay/SessionFormat.kt:38-82 | Expected notes are read back as written, given that each of their numbers is. |
| `SessionFormat.TempoMapRoundTrip` | android/scoring/src/main/kotlin/com/keyquest/scoring/replay/SessionFormat.kt:46-102 | A tempo map is read back as written, its sort included, given that each of its numbers is. |
| `SessionFormat.SkippedLineChangesNothing` | android/scoring/src/main/kotlin/com/keyquest/scoring/replay/SessionFormat.kt:113-121 | Inserting a comment or blank line anywhere changes nothing but the number of a faulty line below it. |
| `SessionFormat.FaultWithin` | android/scoring/src/main/kotlin/com/keyquest/scoring/replay/SessionFormat.kt:113-121 | A line named by a fault is one of the lines. |
| `SessionFormat.FaultNamed` | android/scoring/src/main/kotlin/com/keyquest/scoring/replay/SessionFormat.kt:113-121 | The fault of a section is that of its first faulty line, which it names counting from one, unless the value itself was refused. |
| `SessionFormat.FirstBadField` | android/scoring/src/main/kotlin/com/keyquest/scoring/replay/SessionFormat.kt:54-64 | Of an event's four fields the first that is no integer of its width is the fault; with four integers the event is read exactly if pitch, velocity and times are in range. |
| `SessionFormat.FirstBadNoteField` | android/scoring/src/main/kotlin/com/keyquest/scoring/replay/SessionFormat.kt:67-82 | The same of a note's five fields. |
| `SessionFormat.FirstBadPointField` | android/scoring/src/main/kotlin/com/keyquest/scoring/replay/SessionFormat.kt:85-102 | The same of a tempo entry's three. |
| `SessionFormat.WrongFieldCount` | android/scoring/src/main/kotlin/com/keyquest/scoring/replay/SessionFormat.kt:54-102 | A line with any other number of fields than its section's is faulty for that. |
| `SessionFormat.LineLayout` | android/scoring/src/main/kotlin/com/keyquest/scoring/replay/SessionFormat.kt:30-51 | The written lines, field by field. |

## Left out

- Floating point: rounding, infinities other than an unknown duration, NaN.
- The printing and parsing of floating-point numbers: a parameter of the note and tempo sections,
  with "reads back as printed" as the hypothesis of their round trips.
- Integer fields in non-ASCII digits, which the library also accepts; fields here are ASCII.
- The weak memory model: a release store publishes earlier writes, so loads and stores are steps.
- RingBuffers.RingBuffer.Push: does not model a transfer for which `head - tail + n` wraps, where the
  fullness test does not say what it should (`SpscMachine.FullnessTestExact`).
- SpscMachine.StepKeeps: the same transfers are not started.
- SpscMachine.FirstInFirstOut: the same transfers are not started.
- RingBuffers.OboeInput.OnAudioReady: does not model a negative count while the ring holds at least as
  many frames, which wraps the same sum.
- How layout hints are derived from the notes: a parameter of `ToProtoScore`.
- SessionFormat.NotesRoundTrip: takes as its hypothesis that each number of the notes reads back as
  printed, because printing and parsing floating-point numbers is the Kotlin library's.
- SessionFormat.TempoMapRoundTrip: the same hypothesis for the numbers of the entries.
- The pitch detector itself, resampling, WAV files and command-line parsing: the detector is a
  parameter that maps a window to a result.
- The note detector on the device, the audio stream life cycle, JNI and coroutines.
- The rest of the song pack validator, the pipeline, the server side and the CMS.
- Compose screens, drawing, and telemetry.
