/** Lines of text: trimming, fields between separators, and integers in decimal. */
module TextFields {
  import opened ScoringTypes

  // ----- Trimming -----------------------------------------------------------------------------

  /** The characters that trimming removes. */
  predicate IsBlank(c: char) {
    var u := c as int;
    || 0x9 <= u <= 0xD || 0x1C <= u <= 0x20 || u == 0xA0 || u == 0x1680 || 0x2000 <= u <= 0x200A
    || u == 0x2028 || u == 0x2029 || u == 0x202F || u == 0x205F || u == 0x3000
  }

  function TrimStart(s: string): string {
    if s != "" && IsBlank(s[0]) then TrimStart(s[1..]) else s
  }

  function TrimEnd(s: string): string {
    if s != "" && IsBlank(s[|s| - 1]) then TrimEnd(s[..|s| - 1]) else s
  }

  function Trim(s: string): string { TrimEnd(TrimStart(s)) }

  // ----- Fields between separators --------------------------------------------------------------

  function Split(s: string, sep: char): (r: seq<string>)
    ensures r != []
  {
    if s == "" then [""]
    else
      var rest := Split(s[1..], sep);
      if s[0] == sep then [""] + rest else [[s[0]] + rest[0]] + rest[1..]
  }

  function Join(fields: seq<string>, sep: char): string {
    if fields == [] then ""
    else if |fields| == 1 then fields[0]
    else fields[0] + [sep] + Join(fields[1..], sep)
  }

  lemma {:induction false} SplitAtFirst(a: string, sep: char, b: string)
    requires sep !in a
    ensures Split(a + [sep] + b, sep) == [a] + Split(b, sep)
  {
    var s := a + [sep] + b;
    if a == "" {
      assert s[1..] == b;
    } else {
      SplitAtFirst(a[1..], sep, b);
      assert s[1..] == a[1..] + [sep] + b;
      assert [a[0]] + a[1..] == a;
    }
  }

  lemma {:induction false} SplitNone(a: string, sep: char)
    requires sep !in a
    ensures Split(a, sep) == [a]
  {
    if a != "" {
      SplitNone(a[1..], sep);
      assert [a[0]] + a[1..] == a;
    }
  }

  /** Splitting undoes joining when no field contains the separator. */
  lemma {:induction false} SplitJoin(fields: seq<string>, sep: char)
    requires fields != [] && forall i :: 0 <= i < |fields| ==> sep !in fields[i]
    ensures Split(Join(fields, sep), sep) == fields
  {
    if |fields| == 1 {
      SplitNone(fields[0], sep);
    } else {
      SplitJoin(fields[1..], sep);
      SplitAtFirst(fields[0], sep, Join(fields[1..], sep));
    }
  }

  /** Joining undoes splitting: no text is lost. */
  lemma {:induction false} JoinSplit(s: string, sep: char)
    ensures Join(Split(s, sep), sep) == s
  {
    if s != "" {
      JoinSplit(s[1..], sep);
      var rest := Split(s[1..], sep);
      if s[0] == sep {
        assert ([""] + rest)[1..] == rest;
      } else {
        assert ([[s[0]] + rest[0]] + rest[1..])[1..] == rest[1..];
      }
    }
  }

  /** A field that survives trimming and splitting. */
  predicate Clean(f: string) {
    f != "" && forall c :: c in f ==> !IsBlank(c)
  }

  predicate AllClean(fields: seq<string>) {
    fields != [] && forall i :: 0 <= i < |fields| ==> Clean(fields[i])
  }

  lemma CleanHasNoTab(f: string)
    requires Clean(f)
    ensures '\t' !in f
  {
    assert IsBlank('\t');
  }

  lemma TrimNothing(s: string)
    requires s != "" && !IsBlank(s[0]) && !IsBlank(s[|s| - 1])
    ensures Trim(s) == s
  {}

  lemma {:induction false} JoinEnds(fields: seq<string>)
    requires AllClean(fields)
    ensures var s := Join(fields, '\t'); s != "" && s[0] == fields[0][0] && !IsBlank(s[0]) && !IsBlank(s[|s| - 1])
  {
    assert Clean(fields[0]);
    if |fields| > 1 { JoinEnds(fields[1..]); }
  }

  /** A line of clean fields survives trimming and splits into its fields. */
  lemma {:induction false} CleanLine(fields: seq<string>)
    requires AllClean(fields)
    ensures var s := Join(fields, '\t'); Trim(s) == s && Split(s, '\t') == fields && s != "" && s[0] == fields[0][0]
  {
    JoinEnds(fields);
    TrimNothing(Join(fields, '\t'));
    forall i | 0 <= i < |fields|
      ensures '\t' !in fields[i]
    {
      CleanHasNoTab(fields[i]);
    }
    SplitJoin(fields, '\t');
  }

  // ----- Integers in decimal --------------------------------------------------------------------

  function Digit(d: nat): char
    requires d < 10
  {
    ('0' as int + d) as char
  }

  function DigitValue(c: char): Option<nat> {
    if '0' <= c <= '9' then Some(c as int - '0' as int) else None
  }

  function Digits(n: nat): string {
    (if n < 10 then "" else Digits(n / 10)) + [Digit(n % 10)]
  }

  /** How an integer is printed. */
  function Decimal(n: int): string { if n < 0 then "-" + Digits(-n) else Digits(n) }

  function DigitsValue(s: string): Option<nat> {
    if s == "" then Some(0)
    else
      match (DigitsValue(s[..|s| - 1]), DigitValue(s[|s| - 1]))
      case (Some(v), Some(d)) => Some(10 * v + d)
      case _ => None
  }

  function Within(v: int, lo: int, hi: int): Option<int> { if lo <= v <= hi then Some(v) else None }

  /** How an integer between `lo` and `hi` is read: an optional sign and at least one digit. */
  function ParseInt(s: string, lo: int, hi: int): (r: Option<int>)
    ensures r.Some? ==> lo <= r.value <= hi
  {
    if s == "" then None
    else if s[0] < '0' then
      if |s| == 1 then None
      else
        match DigitsValue(s[1..])
        case None => None
        case Some(v) =>
          var m: int := v;
          if s[0] == '-' then Within(-m, lo, hi)
          else if s[0] == '+' then Within(v, lo, hi)
          else None
    else
      match DigitsValue(s)
      case None => None
      case Some(v) => Within(v, lo, hi)
  }

  lemma {:induction false} DigitsRead(n: nat)
    ensures DigitsValue(Digits(n)) == Some(n)
    ensures Digits(n) != "" && '0' <= Digits(n)[0] <= '9'
    ensures forall c :: c in Digits(n) ==> '0' <= c <= '9'
  {
    if n >= 10 {
      DigitsRead(n / 10);
      assert Digits(n)[..|Digits(n)| - 1] == Digits(n / 10);
    } else {
      assert Digits(n) == [Digit(n)];
    }
  }

  lemma {:induction false} ReadSigned(s: string, n: int, lo: int, hi: int)
    requires s != "" && n >= 0 && '0' <= s[0] && DigitsValue(s) == Some(n)
    ensures ParseInt(s, lo, hi) == Within(n, lo, hi)
    ensures ParseInt("-" + s, lo, hi) == Within(-n, lo, hi)
  {
    hide DigitsValue;
    assert ("-" + s)[1..] == s;
  }

  /** Reading undoes printing. */
  lemma DecimalRead(n: int, lo: int, hi: int)
    requires lo <= n <= hi
    ensures ParseInt(Decimal(n), lo, hi) == Some(n)
  {
    hide Digits, DigitsValue, ParseInt;
    var m := if n < 0 then -n else n;
    DigitsRead(m);
    ReadSigned(Digits(m), m, lo, hi);
  }

  lemma DecimalClean(n: int)
    ensures Clean(Decimal(n)) && Decimal(n)[0] != '#'
  {
    hide Digits, DigitsValue;
    DigitsRead(if n < 0 then -n else n);
  }

  // ----- What trimming and reading mean ------------------------------------------------------------

  predicate AllBlank(s: string) { forall c :: c in s ==> IsBlank(c) }

  /** Main result: trimming takes blanks off both ends, and all of them. */
  lemma {:induction false} TrimExactly(s: string) returns (a: string, b: string)
    ensures s == a + Trim(s) + b && AllBlank(a) && AllBlank(b)
    ensures var t := Trim(s); t != "" ==> !IsBlank(t[0]) && !IsBlank(t[|t| - 1])
  {
    a := TrimStartExactly(s);
    b := TrimEndExactly(TrimStart(s));
    hide TrimStart, TrimEnd, IsBlank;
    var u, t := TrimStart(s), Trim(s);
    if t != "" { assert t[0] == u[0]; }
  }

  lemma {:induction false} TrimStartExactly(s: string) returns (a: string)
    ensures s == a + TrimStart(s) && AllBlank(a) && (TrimStart(s) != "" ==> !IsBlank(TrimStart(s)[0]))
    decreases s
  {
    hide IsBlank;
    if s != "" && IsBlank(s[0]) {
      var rest := TrimStartExactly(s[1..]);
      a := [s[0]] + rest;
    } else {
      a := "";
    }
  }

  lemma {:induction false} TrimEndExactly(s: string) returns (b: string)
    ensures s == TrimEnd(s) + b && AllBlank(b) && (TrimEnd(s) != "" ==> !IsBlank(TrimEnd(s)[|TrimEnd(s)| - 1]))
    decreases |s|
  {
    hide IsBlank;
    if s != "" && IsBlank(s[|s| - 1]) {
      var rest := TrimEndExactly(s[..|s| - 1]);
      b := rest + [s[|s| - 1]];
    } else {
      b := "";
    }
  }

  predicate AllDigits(s: string) { s != "" && forall c :: c in s ==> '0' <= c <= '9' }

  /** `body` is `s` without a sign. */
  predicate Unsigned(s: string, body: string) { s == body || s == "-" + body || s == "+" + body }

  lemma {:induction false} DigitsValueExactly(s: string)
    ensures DigitsValue(s).Some? <==> forall c :: c in s ==> '0' <= c <= '9'
    decreases |s|
  {
    if s != "" {
      var front, last := s[..|s| - 1], s[|s| - 1];
      DigitsValueExactly(front);
      assert s == front + [last];
      if DigitsValue(s).Some? {
        assert forall c :: c in s ==> c in front || c == last;
      } else {
        assert forall c :: c in front ==> c in s;
        assert last in s;
      }
    }
  }

  /** Main result: exactly the texts of an optional sign and digits are read, if their value is in range. */
  lemma {:induction false} ReadsExactly(s: string, body: string, lo: int, hi: int)
    requires AllDigits(body) && Unsigned(s, body)
    ensures DigitsValue(body).Some?
    ensures var v: int := DigitsValue(body).value;
            ParseInt(s, lo, hi) == Within(if s == "-" + body then -v else v, lo, hi)
  {
    DigitsValueExactly(body);
    assert body[0] in body;
    assert ("-" + body)[1..] == body && ("+" + body)[1..] == body;
  }

  lemma ReadsNothingElse(s: string, lo: int, hi: int) returns (body: string)
    requires ParseInt(s, lo, hi).Some?
    ensures AllDigits(body) && Unsigned(s, body)
  {
    hide DigitsValue;
    body := if s[0] == '-' || s[0] == '+' then s[1..] else s;
    DigitsValueExactly(body);
  }

  /** Zeros in front change nothing. */
  lemma {:induction false} LeadingZero(s: string)
    ensures DigitsValue("0" + s) == DigitsValue(s)
    decreases |s|
  {
    assert "0" + "" == "0" && "0"[..0] == "";
    if s != "" {
      LeadingZero(s[..|s| - 1]);
      assert ("0" + s)[..|s|] == "0" + s[..|s| - 1];
    }
  }

  /** Every digit in its place. */
  lemma TenDigits()
    ensures Decimal(1234567890) == "1234567890" && Decimal(-1) == "-1"
  {
    assert Digits(1) == "1" && Digits(12) == "12" && Digits(123) == "123";
    assert Digits(1234) == "1234" && Digits(12345) == "12345" && Digits(123456) == "123456";
    assert Digits(1234567) == "1234567" && Digits(12345678) == "12345678" && Digits(123456789) == "123456789";
  }
}
