/** The recorded-session format: one tab-separated line per event, note or tempo entry, with comment
    and blank lines ignored. How a floating-point number is printed and read is a parameter. */
module SessionFormat {
  import opened ScoringTypes
  import opened TextFields
  import opened Tempo
  import StableSort

  const HEADER := "# keyquest scoring session v1"

  const INT_LIMIT: int := 0x8000_0000
  const LONG_LIMIT: int := 0x8000_0000_0000_0000

  datatype Fault =
    | FieldCount(expected: nat, got: nat)
    | NotAnInteger(field: string, text: string)
    | NotANumber(field: string, text: string)
    | UnknownName(field: string, text: string)
    | Refused

  /** One line: what it says, or what is wrong with it. */
  datatype LineResult<+T> = Parsed(value: T) | Faulty(fault: Fault) {
    predicate IsFailure() { Faulty? }
    function PropagateFailure<U>(): LineResult<U>
      requires Faulty?
    {
      Faulty(fault)
    }
    function Extract(): T
      requires Parsed?
    {
      value
    }
  }

  /** A whole section. The 1-based line is missing when the value itself refuses its fields. */
  datatype Section<+T> = Items(items: seq<T>) | Failed(line: Option<nat>, fault: Fault)

  // ----- One line -------------------------------------------------------------------------------

  function IntField(text: string, field: string): LineResult<int> {
    match ParseInt(text, -INT_LIMIT, INT_LIMIT - 1)
    case None => Faulty(NotAnInteger(field, text))
    case Some(n) => Parsed(n)
  }

  function LongField(text: string, field: string): LineResult<int> {
    match ParseInt(text, -LONG_LIMIT, LONG_LIMIT - 1)
    case None => Faulty(NotAnInteger(field, text))
    case Some(n) => Parsed(n)
  }

  function NumberField(number: string -> Option<real>, text: string, field: string): LineResult<real> {
    match number(text)
    case None => Faulty(NotANumber(field, text))
    case Some(x) => Parsed(x)
  }

  function ParseEvent(line: string): LineResult<PlayedNote> {
    var fields := Split(line, '\t');
    if |fields| != 4 then Faulty(FieldCount(4, |fields|)) else
    var pitch :- IntField(fields[0], "pitch");
    var velocity :- IntField(fields[1], "velocity");
    var onTimeNs :- LongField(fields[2], "onTimeNs");
    var offTimeNs :- LongField(fields[3], "offTimeNs");
    var event := EventFields(pitch, velocity, onTimeNs, offTimeNs);
    if event.Valid() then Parsed(event) else Faulty(Refused)
  }

  function HandField(text: string): LineResult<Hand> {
    if text == "R" then Parsed(R) else if text == "L" then Parsed(L) else Faulty(UnknownName("hand", text))
  }

  function ParseNote(number: string -> Option<real>, line: string): LineResult<ExpectedNote> {
    var fields := Split(line, '\t');
    if |fields| != 5 then Faulty(FieldCount(5, |fields|)) else
    var pitch :- IntField(fields[0], "pitch");
    var startBeat :- NumberField(number, fields[1], "startBeat");
    var durBeats :- NumberField(number, fields[2], "durBeats");
    var hand :- HandField(fields[3]);
    var scoringWeight :- NumberField(number, fields[4], "scoringWeight");
    var note := NoteFields(pitch, startBeat, durBeats, hand, scoringWeight);
    if note.Valid() then Parsed(note) else Faulty(Refused)
  }

  function CurveField(text: string): LineResult<TempoCurve> {
    if text == "step" then Parsed(STEP)
    else if text == "linear" then Parsed(LINEAR)
    else Faulty(UnknownName("curve", text))
  }

  function ParsePoint(number: string -> Option<real>, line: string): LineResult<TempoPoint> {
    var fields := Split(line, '\t');
    if |fields| != 3 then Faulty(FieldCount(3, |fields|)) else
    var atBeat :- NumberField(number, fields[0], "atBeat");
    var bpm :- NumberField(number, fields[1], "bpm");
    var curve :- CurveField(fields[2]);
    if atBeat >= 0.0 && bpm > 0.0 then Parsed(PointFields(atBeat, bpm, curve)) else Faulty(Refused)
  }

  function EventLine(e: PlayedNote): string {
    Join([Decimal(e.pitch), Decimal(e.velocity), Decimal(e.onTimeNs), Decimal(e.offTimeNs)], '\t')
  }

  function HandName(hand: Hand): string { if hand == R then "R" else "L" }

  function NoteLine(show: real -> string, n: ExpectedNote): string {
    Join([Decimal(n.pitch), show(n.startBeat), show(n.durBeats), HandName(n.hand), show(n.scoringWeight)], '\t')
  }

  function CurveName(curve: TempoCurve): string { if curve == STEP then "step" else "linear" }

  function PointLine(show: real -> string, p: TempoPoint): string {
    Join([show(p.atBeat), show(p.bpm), CurveName(p.curve)], '\t')
  }

  // ----- A section ------------------------------------------------------------------------------

  predicate Skipped(line: string) {
    var trimmed := Trim(line);
    trimmed == "" || trimmed[0] == '#'
  }

  function At(line: nat, fault: Fault): Option<nat> { if fault.Refused? then None else Some(line) }

  /** What a section says: the items of the lines that are not skipped, or the first fault. */
  function Contents<T>(parse: string -> LineResult<T>, lines: seq<string>): Section<T> {
    if lines == [] then Items([])
    else
      var line := lines[|lines| - 1];
      match Contents(parse, lines[..|lines| - 1])
      case Failed(l, f) => Failed(l, f)
      case Items(items) =>
        if Skipped(line) then Items(items)
        else
          match parse(Trim(line))
          case Parsed(x) => Items(items + [x])
          case Faulty(f) => Failed(At(|lines|, f), f)
  }

  /** The lines of a section: a header, then one line per item. */
  function Lines<T>(show: T -> string, items: seq<T>): (lines: seq<string>) {
    if items == [] then [HEADER] else Lines(show, items[..|items| - 1]) + [show(items[|items| - 1])]
  }

  /** The loop that reads a section. */
  method ParseNonEmpty<T>(lines: seq<string>, parse: string -> LineResult<T>) returns (r: Section<T>)
    ensures r == Contents(parse, lines)
  {
    hide Trim;
    var result := [];
    for i := 0 to |lines|
      invariant Contents(parse, lines[..i]) == Items(result)
    {
      ghost var front := lines[..i + 1];
      assert front[..i] == lines[..i];
      var trimmed := Trim(lines[i]);
      if trimmed == "" || trimmed[0] == '#' { continue; }
      match parse(trimmed) {
        case Parsed(x) => result := result + [x];
        case Faulty(f) =>
          FaultStops(parse, lines, i + 1);
          return Failed(At(i + 1, f), f);
      }
    }
    assert lines[..|lines|] == lines;
    r := Items(result);
  }

  /** The first fault is the section's. */
  lemma {:induction false} FaultStops<T>(parse: string -> LineResult<T>, lines: seq<string>, n: nat)
    requires n <= |lines| && Contents(parse, lines[..n]).Failed?
    ensures Contents(parse, lines) == Contents(parse, lines[..n])
    decreases |lines|
  {
    if n == |lines| {
      assert lines[..n] == lines;
    } else {
      var front := lines[..|lines| - 1];
      assert front[..n] == lines[..n];
      FaultStops(parse, front, n);
    }
  }

  method WriteLines<T>(items: seq<T>, show: T -> string) returns (lines: seq<string>)
    ensures lines == Lines(show, items)
  {
    lines := [HEADER];
    for i := 0 to |items|
      invariant lines == Lines(show, items[..i])
    {
      assert items[..i + 1][..i] == items[..i];
      lines := lines + [show(items[i])];
    }
    assert items[..|items|] == items;
  }

  // ----- What a line and a fault say ------------------------------------------------------------

  /** The lines as they stand in the file. */
  lemma LineLayout(show: real -> string, e: PlayedNote, n: ExpectedNote, p: TempoPoint)
    ensures EventLine(e) == Decimal(e.pitch) + "\t" + Decimal(e.velocity) + "\t" + Decimal(e.onTimeNs) + "\t" +
                            Decimal(e.offTimeNs)
    ensures NoteLine(show, n) == Decimal(n.pitch) + "\t" + show(n.startBeat) + "\t" + show(n.durBeats) + "\t" +
                                 (match n.hand case R => "R" case L => "L") + "\t" + show(n.scoringWeight)
    ensures PointLine(show, p) == show(p.atBeat) + "\t" + show(p.bpm) + "\t" +
                                  (match p.curve case STEP => "step" case LINEAR => "linear")
  {
    hide Decimal;
    JoinedFive(Decimal(n.pitch), show(n.startBeat), show(n.durBeats), HandName(n.hand), show(n.scoringWeight));
    JoinedFour(Decimal(e.pitch), Decimal(e.velocity), Decimal(e.onTimeNs), Decimal(e.offTimeNs));
    JoinedThree(show(p.atBeat), show(p.bpm), CurveName(p.curve));
  }

  lemma {:induction false} Joined(a: string, rest: seq<string>)
    requires rest != []
    ensures Join([a] + rest, '\t') == a + "\t" + Join(rest, '\t')
  {}

  lemma JoinedThree(a: string, b: string, c: string)
    ensures Join([a, b, c], '\t') == a + "\t" + b + "\t" + c
  {
    Joined(a, [b, c]);
    Joined(b, [c]);
  }

  lemma JoinedFour(a: string, b: string, c: string, d: string)
    ensures Join([a, b, c, d], '\t') == a + "\t" + b + "\t" + c + "\t" + d
  {
    Joined(a, [b, c, d]);
    JoinedThree(b, c, d);
  }

  lemma JoinedFive(a: string, b: string, c: string, d: string, e: string)
    ensures Join([a, b, c, d, e], '\t') == a + "\t" + b + "\t" + c + "\t" + d + "\t" + e
  {
    Joined(a, [b, c, d, e]);
    JoinedFour(b, c, d, e);
  }

  /** A line with too few fields or too many is at fault for that. */
  lemma {:induction false} WrongFieldCount(number: string -> Option<real>, line: string)
    ensures var n := |Split(line, '\t')|;
            && (n != 4 ==> ParseEvent(line) == Faulty(FieldCount(4, n)))
            && (n != 5 ==> ParseNote(number, line) == Faulty(FieldCount(5, n)))
            && (n != 3 ==> ParsePoint(number, line) == Faulty(FieldCount(3, n)))
  {
    hide Split, ParseInt;
  }

  /** Main result: of an event's fields the first that is no integer of its width is at fault. */
  lemma {:induction false} FirstBadField(line: string)
    requires |Split(line, '\t')| == 4
    ensures var f := Split(line, '\t');
            var pitch := ParseInt(f[0], -0x8000_0000, 0x7FFF_FFFF);
            var velocity := ParseInt(f[1], -0x8000_0000, 0x7FFF_FFFF);
            var on := ParseInt(f[2], -0x8000_0000_0000_0000, 0x7FFF_FFFF_FFFF_FFFF);
            var off := ParseInt(f[3], -0x8000_0000_0000_0000, 0x7FFF_FFFF_FFFF_FFFF);
            ParseEvent(line) ==
              if pitch.None? then Faulty(NotAnInteger("pitch", f[0]))
              else if velocity.None? then Faulty(NotAnInteger("velocity", f[1]))
              else if on.None? then Faulty(NotAnInteger("onTimeNs", f[2]))
              else if off.None? then Faulty(NotAnInteger("offTimeNs", f[3]))
              else if 0 <= pitch.value <= 127 && 0 <= velocity.value <= 127 && on.value >= 0
                      && (off.value == -1 || off.value >= on.value)
              then Parsed(EventFields(pitch.value, velocity.value, on.value, off.value))
              else Faulty(Refused)
  {
    hide Split, ParseInt;
  }

  /** The same of a note. */
  lemma {:induction false} FirstBadNoteField(number: string -> Option<real>, line: string)
    requires |Split(line, '\t')| == 5
    ensures var f := Split(line, '\t');
            var pitch := ParseInt(f[0], -0x8000_0000, 0x7FFF_FFFF);
            var start, dur, weight := number(f[1]), number(f[2]), number(f[4]);
            ParseNote(number, line) ==
              if pitch.None? then Faulty(NotAnInteger("pitch", f[0]))
              else if start.None? then Faulty(NotANumber("startBeat", f[1]))
              else if dur.None? then Faulty(NotANumber("durBeats", f[2]))
              else if f[3] != "R" && f[3] != "L" then Faulty(UnknownName("hand", f[3]))
              else if weight.None? then Faulty(NotANumber("scoringWeight", f[4]))
              else if 0 <= pitch.value <= 127 && start.value >= 0.0 && dur.value > 0.0 && weight.value >= 0.0
              then Parsed(NoteFields(pitch.value, start.value, dur.value, if f[3] == "R" then R else L, weight.value))
              else Faulty(Refused)
  {
    hide Split, ParseInt;
  }

  /** The same of a tempo entry. */
  lemma {:induction false} FirstBadPointField(number: string -> Option<real>, line: string)
    requires |Split(line, '\t')| == 3
    ensures var f := Split(line, '\t');
            var beat, bpm := number(f[0]), number(f[1]);
            ParsePoint(number, line) ==
              if beat.None? then Faulty(NotANumber("atBeat", f[0]))
              else if bpm.None? then Faulty(NotANumber("bpm", f[1]))
              else if f[2] != "step" && f[2] != "linear" then Faulty(UnknownName("curve", f[2]))
              else if beat.value >= 0.0 && bpm.value > 0.0
              then Parsed(PointFields(beat.value, bpm.value, if f[2] == "step" then STEP else LINEAR))
              else Faulty(Refused)
  {
    hide Split;
  }

  /** Main result: a section that fails names the first line at fault, counting from one, unless the value
      itself was refused; every line before it is skipped or says an item. */
  lemma {:induction false} FaultNamed<T>(parse: string -> LineResult<T>, lines: seq<string>) returns (n: nat)
    requires Contents(parse, lines).Failed?
    ensures n < |lines| && !Skipped(lines[n]) && Contents(parse, lines[..n]).Items?
    ensures var r := Contents(parse, lines);
            && parse(Trim(lines[n])) == Faulty(r.fault)
            && r.line == if r.fault.Refused? then None else Some(n + 1)
    decreases |lines|
  {
    hide Skipped, Trim;
    var front := lines[..|lines| - 1];
    if Contents(parse, front).Failed? {
      n := FaultNamed(parse, front);
      assert lines[..n] == front[..n];
    } else {
      n := |lines| - 1;
    }
  }

  // ----- Comments and blank lines ---------------------------------------------------------------

  /** A fault after line `n` has moved down by one line. */
  function Moved<T>(r: Section<T>, n: nat): Section<T> {
    match r
    case Items(items) => Items(items)
    case Failed(Some(line), f) => Failed(Some(if line > n then line + 1 else line), f)
    case Failed(None, f) => Failed(None, f)
  }

  lemma {:induction false} FaultWithin<T>(parse: string -> LineResult<T>, lines: seq<string>)
    ensures var r := Contents(parse, lines); r.Failed? && r.line.Some? ==> 1 <= r.line.value <= |lines|
  {
    if lines != [] { FaultWithin(parse, lines[..|lines| - 1]); }
  }

  lemma {:induction false} ContentsNext<T>(parse: string -> LineResult<T>, front: seq<string>, line: string)
    ensures Contents(parse, front + [line]) ==
            match Contents(parse, front)
            case Failed(l, f) => Failed(l, f)
            case Items(items) =>
              if Skipped(line) then Items(items)
              else
                match parse(Trim(line))
                case Parsed(x) => Items(items + [x])
                case Faulty(f) => Failed(At(|front| + 1, f), f)
  {
    assert (front + [line])[..|front|] == front;
  }

  /** Main result: a comment or blank line may be inserted anywhere. It changes nothing but the
      number of a faulty line below it. */
  lemma {:induction false} SkippedLineChangesNothing<T>(
    parse: string -> LineResult<T>, before: seq<string>, line: string, after: seq<string>)
    requires Skipped(line)
    ensures Contents(parse, before + [line] + after) == Moved(Contents(parse, before + after), |before|)
    decreases |after|
  {
    hide Contents, Skipped, Trim;
    if after == [] {
      assert before + [line] + after == before + [line] && before + after == before;
      ContentsNext(parse, before, line);
      FaultWithin(parse, before);
    } else {
      var front, last := after[..|after| - 1], after[|after| - 1];
      SkippedLineChangesNothing(parse, before, line, front);
      assert before + [line] + after == before + [line] + front + [last];
      assert before + after == before + front + [last];
      ContentsNext(parse, before + [line] + front, last);
      ContentsNext(parse, before + front, last);
    }
  }

  // ----- Round trips ----------------------------------------------------------------------------

  /** The line written for an item survives trimming, is not skipped, and reads as the item. */
  predicate ReadsBack<T(==)>(parse: string -> LineResult<T>, line: string, item: T) {
    Trim(line) == line && line != "" && line[0] != '#' && parse(line) == Parsed(item)
  }

  lemma {:induction false} RoundTrip<T>(parse: string -> LineResult<T>, show: T -> string, items: seq<T>)
    requires forall i :: 0 <= i < |items| ==> ReadsBack(parse, show(items[i]), items[i])
    ensures Contents(parse, Lines(show, items)) == Items(items)
  {
    hide Trim, Contents;
    if items == [] {
      HeaderSkipped();
      ContentsNext(parse, [], HEADER);
      assert [] + [HEADER] == [HEADER];
      assert Contents(parse, []) == Items([]) by { NoContents(parse); }
    } else {
      var front, last := items[..|items| - 1], items[|items| - 1];
      RoundTrip(parse, show, front);
      assert ReadsBack(parse, show(last), last);
      ContentsNext(parse, Lines(show, front), show(last));
    }
  }

  lemma NoContents<T>(parse: string -> LineResult<T>)
    ensures Contents(parse, []) == Items([])
  {}

  lemma HeaderSkipped()
    ensures Skipped(HEADER)
  {
    assert HEADER[0] == '#' && HEADER[|HEADER| - 1] == '1';
    TrimNothing(HEADER);
  }

  /** The times a 64-bit integer can hold. */
  predicate FitsLong(e: PlayedNote) { e.onTimeNs < LONG_LIMIT && e.offTimeNs < LONG_LIMIT }

  lemma FourFields(a: string, b: string, c: string, d: string)
    requires Clean(a) && Clean(b) && Clean(c) && Clean(d)
    ensures var s := Join([a, b, c, d], '\t'); Trim(s) == s && Split(s, '\t') == [a, b, c, d] && s != "" && s[0] == a[0]
  {
    CleanLine([a, b, c, d]);
  }

  lemma EventReadsBack(e: PlayedNote)
    requires FitsLong(e)
    ensures ReadsBack(ParseEvent, EventLine(e), e)
  {
    hide Trim, Split, Join, Decimal, ParseInt, Clean;
    DecimalClean(e.pitch);
    DecimalClean(e.velocity);
    DecimalClean(e.onTimeNs);
    DecimalClean(e.offTimeNs);
    FourFields(Decimal(e.pitch), Decimal(e.velocity), Decimal(e.onTimeNs), Decimal(e.offTimeNs));
    DecimalRead(e.pitch, -INT_LIMIT, INT_LIMIT - 1);
    DecimalRead(e.velocity, -INT_LIMIT, INT_LIMIT - 1);
    DecimalRead(e.onTimeNs, -LONG_LIMIT, LONG_LIMIT - 1);
    DecimalRead(e.offTimeNs, -LONG_LIMIT, LONG_LIMIT - 1);
  }

  /** Main result: every list of valid events survives being written and read. */
  lemma {:induction false} EventsRoundTrip(events: seq<PlayedNote>)
    requires forall i :: 0 <= i < |events| ==> FitsLong(events[i])
    ensures Contents(ParseEvent, Lines(EventLine, events)) == Items(events)
  {
    hide ReadsBack, FitsLong;
    forall i | 0 <= i < |events|
      ensures ReadsBack(ParseEvent, EventLine(events[i]), events[i])
    {
      EventReadsBack(events[i]);
    }
    RoundTrip(ParseEvent, EventLine, events);
  }

  lemma ParsedEventFits(line: string)
    ensures ParseEvent(line).Parsed? ==> FitsLong(ParseEvent(line).value)
  {
    hide Split, ParseInt;
  }

  lemma {:induction false} EventsReadFit(lines: seq<string>)
    ensures var r := Contents(ParseEvent, lines); r.Items? ==> forall i :: 0 <= i < |r.items| ==> FitsLong(r.items[i])
  {
    hide ParseEvent, Trim, Skipped, FitsLong, Contents;
    if lines == [] {
      NoContents(ParseEvent);
    } else {
      var front, last := lines[..|lines| - 1], lines[|lines| - 1];
      EventsReadFit(front);
      ParsedEventFits(Trim(last));
      assert front + [last] == lines;
      ContentsNext(ParseEvent, front, last);
    }
  }

  /** Whatever was read can be written and read again: comments, signs and leading zeros go, the
      events stay. */
  lemma {:induction false} RewritingKeepsEvents(lines: seq<string>)
    requires Contents(ParseEvent, lines).Items?
    ensures Contents(ParseEvent, Lines(EventLine, Contents(ParseEvent, lines).items)) == Contents(ParseEvent, lines)
  {
    hide Contents, ParseEvent, EventLine, FitsLong, Lines;
    EventsReadFit(lines);
    EventsRoundTrip(Contents(ParseEvent, lines).items);
  }

  /** The number is printed as a clean field that reads as the number. */
  predicate Prints(show: real -> string, number: string -> Option<real>, x: real) {
    Clean(show(x)) && show(x)[0] != '#' && number(show(x)) == Some(x)
  }

  predicate NotePrints(show: real -> string, number: string -> Option<real>, n: ExpectedNote) {
    && Prints(show, number, n.startBeat)
    && Prints(show, number, n.durBeats)
    && Prints(show, number, n.scoringWeight)
  }

  lemma FiveFields(a: string, b: string, c: string, d: string, e: string)
    requires Clean(a) && Clean(b) && Clean(c) && Clean(d) && Clean(e)
    ensures var s := Join([a, b, c, d, e], '\t');
            Trim(s) == s && Split(s, '\t') == [a, b, c, d, e] && s != "" && s[0] == a[0]
  {
    CleanLine([a, b, c, d, e]);
  }

  lemma NamesClean(hand: Hand, curve: TempoCurve)
    ensures Clean(HandName(hand)) && Clean(CurveName(curve))
  {}

  lemma NoteReadsBack(show: real -> string, number: string -> Option<real>, n: ExpectedNote)
    requires NotePrints(show, number, n)
    ensures ReadsBack(line => ParseNote(number, line), NoteLine(show, n), n)
  {
    hide Trim, Split, Join, Decimal, ParseInt, Clean;
    DecimalClean(n.pitch);
    NamesClean(n.hand, STEP);
    FiveFields(Decimal(n.pitch), show(n.startBeat), show(n.durBeats), HandName(n.hand), show(n.scoringWeight));
    DecimalRead(n.pitch, -INT_LIMIT, INT_LIMIT - 1);
  }

  lemma {:induction false} NotesRoundTrip(
    show: real -> string, number: string -> Option<real>, notes: seq<ExpectedNote>)
    requires forall n :: n in notes ==> NotePrints(show, number, n)
    ensures Contents(line => ParseNote(number, line), Lines(n => NoteLine(show, n), notes)) == Items(notes)
  {
    hide ReadsBack, NotePrints;
    var parse, written := (line: string) => ParseNote(number, line), (n: ExpectedNote) => NoteLine(show, n);
    forall i | 0 <= i < |notes|
      ensures ReadsBack(parse, written(notes[i]), notes[i])
    {
      NoteReadsBack(show, number, notes[i]);
    }
    RoundTrip(parse, written, notes);
  }

  lemma ThreeFields(a: string, b: string, c: string)
    requires Clean(a) && Clean(b) && Clean(c)
    ensures var s := Join([a, b, c], '\t'); Trim(s) == s && Split(s, '\t') == [a, b, c] && s != "" && s[0] == a[0]
  {
    CleanLine([a, b, c]);
  }

  lemma PointReadsBack(show: real -> string, number: string -> Option<real>, p: TempoPoint)
    requires Prints(show, number, p.atBeat) && Prints(show, number, p.bpm)
    ensures ReadsBack(line => ParsePoint(number, line), PointLine(show, p), p)
  {
    hide Trim, Split, Join, Clean;
    NamesClean(R, p.curve);
    ThreeFields(show(p.atBeat), show(p.bpm), CurveName(p.curve));
  }

  lemma {:induction false} PointsRoundTrip(
    show: real -> string, number: string -> Option<real>, points: seq<TempoPoint>)
    requires forall p :: p in points ==> Prints(show, number, p.atBeat) && Prints(show, number, p.bpm)
    ensures Contents(line => ParsePoint(number, line), Lines(p => PointLine(show, p), points)) == Items(points)
  {
    hide ReadsBack, Prints;
    var parse, written := (line: string) => ParsePoint(number, line), (p: TempoPoint) => PointLine(show, p);
    forall i | 0 <= i < |points|
      ensures ReadsBack(parse, written(points[i]), points[i])
    {
      PointReadsBack(show, number, points[i]);
    }
    RoundTrip(parse, written, points);
  }

  datatype TempoSection = Map(tempoMap: TempoMap) | NoMap(line: Option<nat>, fault: Fault)

  /** The tempo map a section describes; the map itself may refuse the entries. */
  function TempoContents(number: string -> Option<real>, ln: real -> real, lines: seq<string>): TempoSection {
    match Contents(line => ParsePoint(number, line), lines)
    case Failed(l, f) => NoMap(l, f)
    case Items(points) =>
      match MakeTempoMap(points, ln)
      case None => NoMap(None, Refused)
      case Some(m) => Map(m)
  }

  /** A tempo map survives being written and read. */
  lemma TempoMapRoundTrip(show: real -> string, number: string -> Option<real>, m: TempoMap)
    requires forall p :: p in m.points ==> Prints(show, number, p.atBeat) && Prints(show, number, p.bpm)
    ensures TempoContents(number, m.ln, Lines(p => PointLine(show, p), m.points)) == Map(m)
  {
    hide Prints, Contents, Lines;
    PointsRoundTrip(show, number, m.points);
    StableSort.SortIdempotent(PointLe, m.points);
  }

  // ----- The readers and writers ----------------------------------------------------------------

  method WriteEvents(events: seq<PlayedNote>) returns (lines: seq<string>)
    ensures lines == Lines(EventLine, events)
  {
    lines := WriteLines(events, EventLine);
  }

  method ReadEvents(lines: seq<string>) returns (r: Section<PlayedNote>)
    ensures r == Contents(ParseEvent, lines)
  {
    r := ParseNonEmpty(lines, ParseEvent);
  }

  method WriteExpected(show: real -> string, notes: seq<ExpectedNote>) returns (lines: seq<string>)
    ensures lines == Lines(n => NoteLine(show, n), notes)
  {
    lines := WriteLines(notes, n => NoteLine(show, n));
  }

  method ReadExpected(number: string -> Option<real>, lines: seq<string>) returns (r: Section<ExpectedNote>)
    ensures r == Contents(line => ParseNote(number, line), lines)
  {
    r := ParseNonEmpty(lines, line => ParseNote(number, line));
  }

  method WriteTempoMap(show: real -> string, points: seq<TempoPoint>) returns (lines: seq<string>)
    ensures lines == Lines(p => PointLine(show, p), points)
  {
    lines := WriteLines(points, p => PointLine(show, p));
  }

  method ReadTempoMap(number: string -> Option<real>, ln: real -> real, lines: seq<string>) returns (r: TempoSection)
    ensures r == TempoContents(number, ln, lines)
  {
    var points := ParseNonEmpty(lines, line => ParsePoint(number, line));
    match points {
      case Failed(l, f) => r := NoMap(l, f);
      case Items(entries) =>
        match MakeTempoMap(entries, ln) {
          case None => r := NoMap(None, Refused);
          case Some(m) => r := Map(m);
        }
    }
  }
}
