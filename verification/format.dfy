/**
  Rendering and parsing under the popup's default pattern `%Y-%m-%d %H:%M:%S`.

  `Format` is `strftime` with that pattern: every field zero-padded, the year
  to four digits. `Parse` is CPython's `strptime` with that pattern, which is
  more lenient than `Format`:
  - `%Y` takes exactly four digits;
  - `%m`, `%d`, `%H`, `%M` and `%S` take one or two digits within the
    ranges of their regular expressions (`%S` admits 60 and 61);
  - `%d` may also be a space followed by one digit 1-9;
  - the blank in the pattern matches any non-empty run of whitespace;
  - the whole text must be consumed;
  - the fields must then form a valid `datetime`.
 */
module DefaultFormat {
  import opened Wrappers
  import opened Gregorian

  predicate IsDigit(c: char) {
    '0' <= c <= '9'
  }

  /**
    The ASCII characters the pattern's blank (`\s+`) matches: blank, tab,
    line feed, carriage return, vertical tab, form feed, and the
    separators U+001C to U+001F.
   */
  predicate IsSpace(c: char) {
    c == ' ' || c == '\t' || c == '\n' || c == '\r' || 11 <= c as int <= 12 || 28 <= c as int <= 31
  }

  predicate AllDigits(s: string) {
    forall i | 0 <= i < |s| :: IsDigit(s[i])
  }

  function DigitChar(d: int): (c: char)
    requires 0 <= d < 10
    ensures IsDigit(c)
  {
    ['0', '1', '2', '3', '4', '5', '6', '7', '8', '9'][d]
  }

  function DigitValue(c: char): (d: int)
    requires IsDigit(c)
    ensures 0 <= d < 10
  {
    (c as int) - ('0' as int)
  }

  /** The decimal value of a digit string, as Python's `int()` reads it. */
  function Value(s: string): (n: int)
    requires AllDigits(s)
    ensures 0 <= n
  {
    if s == [] then 0 else Value(s[..|s| - 1]) * 10 + DigitValue(s[|s| - 1])
  }

  /** Two digits, zero-padded. */
  function Pad2(n: int): (s: string)
    requires 0 <= n < 100
    ensures |s| == 2 && AllDigits(s)
  {
    [DigitChar(n / 10), DigitChar(n % 10)]
  }

  /** Four digits, zero-padded. */
  function Pad4(n: int): (s: string)
    requires 0 <= n < 10000
    ensures |s| == 4 && AllDigits(s)
  {
    Pad2(n / 100) + Pad2(n % 100)
  }

  /** The ranges the pattern's fields can express, before calendar validity. */
  predicate InFieldRanges(dt: DateTime) {
    && 0 <= dt.year < 10000 && 1 <= dt.month <= 12 && 1 <= dt.day <= 31
    && 0 <= dt.hour <= 23 && 0 <= dt.minute <= 59 && 0 <= dt.second <= 61
  }

  /** The fields of `dt`, zero-padded and laid out as the pattern says. */
  function Padded(dt: DateTime): (s: string)
    requires InFieldRanges(dt)
    ensures |s| == 19
    ensures s[4] == '-' && s[7] == '-' && s[10] == ' ' && s[13] == ':' && s[16] == ':'
  {
    Pad4(dt.year) + "-" + Pad2(dt.month) + "-" + Pad2(dt.day) + " "
      + Pad2(dt.hour) + ":" + Pad2(dt.minute) + ":" + Pad2(dt.second)
  }

  /** Each field of a 19-character text is the zero-padded decimal of its component of `dt`. */
  predicate FieldsDenote(s: string, dt: DateTime)
    requires |s| == 19
  {
    && AllDigits(s[..4]) && Value(s[..4]) == dt.year
    && AllDigits(s[5..7]) && Value(s[5..7]) == dt.month
    && AllDigits(s[8..10]) && Value(s[8..10]) == dt.day
    && AllDigits(s[11..13]) && Value(s[11..13]) == dt.hour
    && AllDigits(s[14..16]) && Value(s[14..16]) == dt.minute
    && AllDigits(s[17..]) && Value(s[17..]) == dt.second
  }

  /** `dt.strftime("%Y-%m-%d %H:%M:%S")` */
  function Format(dt: DateTime): (s: string)
    requires Valid(dt)
    ensures |s| == 19
    ensures s[4] == '-' && s[7] == '-' && s[10] == ' ' && s[13] == ':' && s[16] == ':'
    ensures FieldsDenote(s, dt)
    ensures Parse(s) == Some(dt)
  {
    PaddedFields(dt);
    ParsePadded(dt);
    Padded(dt)
  }

  /** Length of the longest prefix of `s` made of digits. */
  function DigitRun(s: string): (n: nat)
    ensures n <= |s|
    ensures AllDigits(s[..n])
    ensures n < |s| ==> !IsDigit(s[n])
  {
    if s != [] && IsDigit(s[0]) then
      var n := 1 + DigitRun(s[1..]);
      assert s[..n] == [s[0]] + s[1..][..n - 1];
      n
    else 0
  }

  /** Length of the longest prefix of `s` made of whitespace. */
  function SpaceRun(s: string): (n: nat)
    ensures n <= |s|
    ensures forall i | 0 <= i < n :: IsSpace(s[i])
    ensures n < |s| ==> !IsSpace(s[n])
  {
    if s != [] && IsSpace(s[0]) then 1 + SpaceRun(s[1..]) else 0
  }

  /** `%Y`: exactly four digits, then something that is not a digit. */
  function YearField(s: string): (r: Option<(int, string)>)
    ensures r.Some? ==> 0 <= r.value.0 < 10000 && |r.value.1| + 4 == |s|
  {
    var n := DigitRun(s);
    if n == 4 then
      assert Value(s[..4]) < 10000 by { ValueBound(s[..4]); }
      Some((Value(s[..4]), s[4..]))
    else None
  }

  /**
    A one- or two-digit numeric field whose regular expression admits
    every single digit from `lo` up and every two-digit text from `lo` to `hi`.
    The digits must be followed by a non-digit (or the end of the text),
    because every field is followed by a separator.
   */
  function NumberField(s: string, lo: int, hi: int): (r: Option<(int, string)>)
    requires hi >= 9
    ensures r.Some? ==> lo <= r.value.0 <= hi && |r.value.1| < |s|
  {
    var n := DigitRun(s);
    if (n == 1 || n == 2) && lo <= Value(s[..n]) <= hi then
      assert Value(s[..n]) < 100 by { ValueBound(s[..n]); }
      Some((Value(s[..n]), s[n..]))
    else None
  }

  /** `%d`, whose regular expression also admits a blank followed by a digit 1-9. */
  function DayField(s: string): (r: Option<(int, string)>)
    ensures r.Some? ==> 1 <= r.value.0 <= 31 && |r.value.1| < |s|
  {
    if s != [] && s[0] == ' ' then
      var n := DigitRun(s[1..]);
      if n == 1 && 1 <= Value(s[1..2]) then
        assert Value(s[1..2]) < 10 by { ValueBound(s[1..2]); }
        Some((Value(s[1..2]), s[2..]))
      else None
    else NumberField(s, 1, 31)
  }

  /** A literal separator character. */
  function Literal(s: string, c: char): (r: Option<string>)
    ensures r.Some? <==> s != [] && s[0] == c
    ensures r.Some? ==> r.value == s[1..]
  {
    if s != [] && s[0] == c then Some(s[1..]) else None
  }

  /** The pattern's blank: one or more whitespace characters. */
  function Blank(s: string): (r: Option<string>)
    ensures r.Some? ==> |r.value| < |s|
  {
    var n := SpaceRun(s);
    if n >= 1 then Some(s[n..]) else None
  }

  /** `%Y-%m-%d`: year, month, day and what follows them. */
  function DatePart(s: string): (r: Option<(int, int, int, string)>)
    ensures r.Some? ==> 1 <= r.value.1 <= 12 && 1 <= r.value.2 <= 31
  {
    var year :- YearField(s);
    var s1 :- Literal(year.1, '-');
    var month :- NumberField(s1, 1, 12);
    var s2 :- Literal(month.1, '-');
    var day :- DayField(s2);
    Some((year.0, month.0, day.0, day.1))
  }

  /** `%H:%M:%S`: hour, minute, second and what follows them. */
  function TimePart(s: string): (r: Option<(int, int, int, string)>)
    ensures r.Some? ==> 0 <= r.value.0 <= 23 && 0 <= r.value.1 <= 59 && 0 <= r.value.2 <= 61
  {
    var hour :- NumberField(s, 0, 23);
    var s1 :- Literal(hour.1, ':');
    var minute :- NumberField(s1, 0, 59);
    var s2 :- Literal(minute.1, ':');
    var second :- NumberField(s2, 0, 61);
    Some((hour.0, minute.0, second.0, second.1))
  }

  /** `datetime.strptime(s, "%Y-%m-%d %H:%M:%S")`, None where it raises. */
  function Parse(s: string): (r: Option<DateTime>)
    ensures r.Some? ==> Valid(r.value)
  {
    var date :- DatePart(s);
    var rest :- Blank(date.3);
    var time :- TimePart(rest);
    var dt := DateTime(date.0, date.1, date.2, time.0, time.1, time.2);
    if time.3 == [] && Valid(dt) then Some(dt) else None
  }

  // ---------- lemmas ----------

  function Pow10(n: nat): (p: int)
    ensures p >= 1
  {
    if n == 0 then 1 else 10 * Pow10(n - 1)
  }

  /** A digit string of length n denotes a number below 10^n. */
  lemma {:induction false} ValueBound(s: string)
    requires AllDigits(s)
    ensures Value(s) < Pow10(|s|)
  {
    if s != [] {
      var p := s[..|s| - 1];
      ValueBound(p);
      assert Value(p) <= Pow10(|p|) - 1;
      assert Value(s) <= (Pow10(|p|) - 1) * 10 + 9;
    }
  }

  /** The maximal digit run stops where the digits stop. */
  lemma {:induction false} DigitRunOf(d: string, tail: string)
    requires AllDigits(d)
    requires tail == [] || !IsDigit(tail[0])
    ensures DigitRun(d + tail) == |d|
  {
    if d != [] {
      assert (d + tail)[1..] == d[1..] + tail;
      DigitRunOf(d[1..], tail);
    }
  }

  lemma Pad2Value(n: int)
    requires 0 <= n < 100
    ensures Value(Pad2(n)) == n
  {
  }

  lemma Pad4Value(n: int)
    requires 0 <= n < 10000
    ensures Value(Pad4(n)) == n
  {
    var a, b := Pad2(n / 100), Pad2(n % 100);
    var s := a + b;
    assert s[..3] == a + [b[0]];
    assert (a + [b[0]])[..2] == a;
    Pad2Value(n / 100);
    Pad2Value(n % 100);
    assert b[..1][..0] == [];
    assert Value(b[..1]) == DigitValue(b[0]);
  }

  /** The fields of `Padded(dt)` sit at fixed places and denote `dt`'s components. */
  lemma PaddedFields(dt: DateTime)
    requires InFieldRanges(dt)
    ensures FieldsDenote(Padded(dt), dt)
  {
    var s := Padded(dt);
    assert s[..4] == Pad4(dt.year);
    assert s[5..7] == Pad2(dt.month);
    assert s[8..10] == Pad2(dt.day);
    assert s[11..13] == Pad2(dt.hour);
    assert s[14..16] == Pad2(dt.minute);
    assert s[17..] == Pad2(dt.second);
    Pad4Value(dt.year);
    Pad2Value(dt.month);
    Pad2Value(dt.day);
    Pad2Value(dt.hour);
    Pad2Value(dt.minute);
    Pad2Value(dt.second);
  }

  /** A zero-padded two-digit field followed by a separator is read back whole. */
  lemma NumberFieldOfPad2(n: int, tail: string, lo: int, hi: int)
    requires 0 <= n < 100 && hi >= 9 && lo <= n <= hi
    requires tail == [] || !IsDigit(tail[0])
    ensures NumberField(Pad2(n) + tail, lo, hi) == Some((n, tail))
  {
    var s := Pad2(n) + tail;
    DigitRunOf(Pad2(n), tail);
    assert s[..2] == Pad2(n);
    Pad2Value(n);
    assert s[2..] == tail;
  }

  lemma DatePartOfPadded(dt: DateTime, tail: string)
    requires InFieldRanges(dt)
    requires tail == [] || !IsDigit(tail[0])
    ensures DatePart(Pad4(dt.year) + "-" + Pad2(dt.month) + "-" + Pad2(dt.day) + tail)
         == Some((dt.year, dt.month, dt.day, tail))
  {
    var t2 := Pad2(dt.day) + tail;
    var t1 := Pad2(dt.month) + ("-" + t2);
    var s := Pad4(dt.year) + ("-" + t1);
    assert Pad4(dt.year) + "-" + Pad2(dt.month) + "-" + Pad2(dt.day) + tail == s;
    DigitRunOf(Pad4(dt.year), "-" + t1);
    assert s[..4] == Pad4(dt.year) && s[4..] == "-" + t1;
    Pad4Value(dt.year);
    assert YearField(s) == Some((dt.year, "-" + t1));
    assert Literal("-" + t1, '-') == Some(t1);
    NumberFieldOfPad2(dt.month, "-" + t2, 1, 12);
    assert Literal("-" + t2, '-') == Some(t2);
    NumberFieldOfPad2(dt.day, tail, 1, 31);
    assert DayField(t2) == Some((dt.day, tail));
  }

  lemma TimePartOfPadded(dt: DateTime, tail: string)
    requires InFieldRanges(dt)
    requires tail == [] || !IsDigit(tail[0])
    ensures TimePart(Pad2(dt.hour) + ":" + Pad2(dt.minute) + ":" + Pad2(dt.second) + tail)
         == Some((dt.hour, dt.minute, dt.second, tail))
  {
    var t2 := Pad2(dt.second) + tail;
    var t1 := Pad2(dt.minute) + (":" + t2);
    var s := Pad2(dt.hour) + (":" + t1);
    assert Pad2(dt.hour) + ":" + Pad2(dt.minute) + ":" + Pad2(dt.second) + tail == s;
    NumberFieldOfPad2(dt.hour, ":" + t1, 0, 23);
    assert Literal(":" + t1, ':') == Some(t1);
    NumberFieldOfPad2(dt.minute, ":" + t2, 0, 59);
    assert Literal(":" + t2, ':') == Some(t2);
    NumberFieldOfPad2(dt.second, tail, 0, 61);
  }

  /**
    Zero-padded fields within the pattern's ranges are always matched, and
    the text is then accepted exactly when the fields form a valid date-time.
   */
  lemma ParsePadded(dt: DateTime)
    requires InFieldRanges(dt)
    ensures Valid(dt) ==> Parse(Padded(dt)) == Some(dt)
    ensures !Valid(dt) ==> Parse(Padded(dt)) == None
  {
    var time := Pad2(dt.hour) + ":" + Pad2(dt.minute) + ":" + Pad2(dt.second);
    var date := Pad4(dt.year) + "-" + Pad2(dt.month) + "-" + Pad2(dt.day);
    assert Padded(dt) == date + (" " + time);
    DatePartOfPadded(dt, " " + time);
    assert (" " + time)[1..] == time;
    assert SpaceRun(time) == 0;
    assert Blank(" " + time) == Some(time);
    TimePartOfPadded(dt, []);
    assert time + [] == time;
  }

  /** Everything `Format` produces, `Parse` reads back unchanged. */
  lemma RoundTrip(dt: DateTime)
    requires Valid(dt)
    ensures Parse(Format(dt)) == Some(dt)
  {
    ParsePadded(dt);
  }

  /** Distinct date-times render to distinct texts. */
  lemma FormatInjective(a: DateTime, b: DateTime)
    requires Valid(a) && Valid(b)
    requires Format(a) == Format(b)
    ensures a == b
  {
    RoundTrip(a);
    RoundTrip(b);
  }

  /** Text that is not a date-time is rejected. */
  lemma RejectsGarbage()
    ensures Parse("not a date") == None
  {
    assert DigitRun("not a date") == 0;
  }

  /** A day the calendar does not have is rejected: 2023 is not a leap year. */
  lemma RejectsFebruary29InCommonYear()
    ensures Parse("2023-02-29 00:00:00") == None
  {
    var dt := DateTime(2023, 2, 29, 0, 0, 0);
    assert Padded(dt) == "2023-02-29 00:00:00";
    ParsePadded(dt);
  }

  /** Second 60 matches the `%S` pattern but is not a valid `datetime`. */
  lemma RejectsLeapSecond()
    ensures Parse("2024-06-01 08:00:60") == None
  {
    var dt := DateTime(2024, 6, 1, 8, 0, 60);
    assert Padded(dt) == "2024-06-01 08:00:60";
    ParsePadded(dt);
  }

  /** A single digit followed by a non-digit is a whole one-digit field. */
  lemma NumberFieldOfDigit(c: char, tail: string, lo: int, hi: int)
    requires IsDigit(c) && hi >= 9 && lo <= DigitValue(c)
    requires tail == [] || !IsDigit(tail[0])
    ensures NumberField([c] + tail, lo, hi) == Some((DigitValue(c), tail))
  {
    DigitRunOf([c], tail);
    assert ([c] + tail)[..1] == [c];
    assert [c][..0] == [];
    assert Value([c]) == DigitValue(c);
    assert ([c] + tail)[1..] == tail;
  }

  lemma UnpaddedDate(rest: string)
    requires rest != [] && !IsDigit(rest[0])
    ensures DatePart("2024-6-1" + rest) == Some((2024, 6, 1, rest))
  {
    var d2 := ['1'] + rest;
    var m := ['6'] + ("-" + d2);
    var s := Pad4(2024) + ("-" + m);
    assert "2024-6-1" + rest == s;
    DigitRunOf(Pad4(2024), "-" + m);
    assert s[..4] == Pad4(2024) && s[4..] == "-" + m;
    Pad4Value(2024);
    assert YearField(s) == Some((2024, "-" + m));
    assert Literal("-" + m, '-') == Some(m);
    NumberFieldOfDigit('6', "-" + d2, 1, 12);
    assert Literal("-" + d2, '-') == Some(d2);
    NumberFieldOfDigit('1', rest, 1, 31);
    assert DayField(d2) == Some((1, rest));
  }

  lemma UnpaddedTime()
    ensures TimePart("8:0:5") == Some((8, 0, 5, []))
  {
  }

  /** `Parse` succeeds when its three stages do and the fields form a valid date-time. */
  lemma ParseOfStages(s: string, rest: string, time: string, dt: DateTime)
    requires DatePart(s) == Some((dt.year, dt.month, dt.day, rest))
    requires Blank(rest) == Some(time)
    requires TimePart(time) == Some((dt.hour, dt.minute, dt.second, []))
    requires Valid(dt)
    ensures Parse(s) == Some(dt)
  {
  }

  lemma UnpaddedBlank()
    ensures Blank("  8:0:5") == Some("8:0:5")
  {
  }

  /**
    Unpadded fields and a wider blank are read like the padded form. The
    text is written as two literals joined, to match the date and time
    stages it is proved through; a single literal makes the verifier try
    to evaluate `Parse` on it character by character.
   */
  lemma AcceptsUnpaddedFields()
    ensures Parse("2024-6-1" + "  8:0:5") == Some(DateTime(2024, 6, 1, 8, 0, 5))
  {
    UnpaddedDate("  8:0:5");
    UnpaddedBlank();
    UnpaddedTime();
    ParseOfStages("2024-6-1" + "  8:0:5", "  8:0:5", "8:0:5", DateTime(2024, 6, 1, 8, 0, 5));
  }
}
