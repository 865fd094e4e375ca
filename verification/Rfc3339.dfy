/** rfc3339_format of libsol/rfc3339.c: a timestamp as a text. */
module Rfc3339 {
  import opened Bytes
  import opened Text
  import opened Calendar

  // The seconds from the day before 0001-01-01 to 1970-01-01.
  const EPOCH: int := 62135683200

  /** The timestamps that can be printed. */
  predicate Printable(seconds: int)
  {
    0 <= seconds + EPOCH < DAYS * 86400
  }

  function Two(n: nat): (t: string)
    requires n < 100
    ensures |t| == 2
  {
    [DigitChar(n / 10), DigitChar(n % 10)]
  }

  /** A two-digit field, what separates it from the next one, and the fields after it. */
  function Field(n: nat, separator: string, rest: string): (t: string)
    requires n < 100
    ensures |t| == 2 + |separator| + |rest|
  {
    Two(n) + (separator + rest)
  }

  /** The time of day `v` seconds after midnight. */
  function Clock(v: nat): string
    requires v < 86400
  {
    Field(v / 3600, ":", Field(v / 60 % 60, ":", Two(v % 60)))
  }

  /** The fields of a date, one behind the other. */
  function Fields(t: Date, rest: string): (s: string)
    requires t.y < 10000 && t.m < 100 && t.d < 100
    ensures |s| == 11 + |rest|
  {
    Field(t.y / 100, "", Field(t.y % 100, "-", Field(t.m, "-", Field(t.d, " ", rest))))
  }

  /** full-date and partial-time of section 5.6 of RFC 3339, with a blank between them. */
  function Stamp(t: Date, v: nat): (s: string)
    requires t.y < 10000 && t.m < 100 && t.d < 100 && v < 86400
    ensures |s| == 19
  {
    Fields(t, Clock(v))
  }

  function StampDay(n: int, v: nat): string
    requires -306 < n < DAYS && v < 86400
  {
    DateNumberedIs(n);
    Stamp(DateNumbered(n), v)
  }

  /** The text of a timestamp. */
  function StampOf(seconds: int): string
    requires Printable(seconds)
  {
    StampDay((seconds + EPOCH) / 86400, (seconds + EPOCH) % 86400)
  }

  // ---- Reading a text back ----

  /** Timestamps count the seconds from the first moment of this day. */
  const ORIGIN: Date := Date(1970, 1, 1)

  lemma OriginIs()
    ensures Counted(ORIGIN) && DayNumber(ORIGIN) * 86400 == EPOCH
  {
  }

  function Digit(c: char): int
  {
    c as int - '0' as int
  }

  function Num2(t: string, i: nat): int
    requires i + 2 <= |t|
  {
    10 * Digit(t[i]) + Digit(t[i + 1])
  }

  /** The timestamp that a text stands for, if its date is one of the calendar. */
  ghost function ReadStamp(t: string): int
    requires |t| == 19
  {
    var year, month, day := 100 * Num2(t, 0) + Num2(t, 2), Num2(t, 5), Num2(t, 8);
    if year >= 0 && month >= 0 && day >= 0 && Counted(Date(year, month, day)) then
      (DayNumber(Date(year, month, day)) - DayNumber(ORIGIN)) * 86400
        + Num2(t, 11) * 3600 + Num2(t, 14) * 60 + Num2(t, 17)
    else 0
  }

  lemma ClockAt(v: nat)
    requires v < 86400
    ensures var s := Clock(v);
      && |s| == 8 && s[0..2] == Two(v / 3600) && s[2] == ':' && s[3..5] == Two(v / 60 % 60) && s[5] == ':'
      && s[6..8] == Two(v % 60)
  {
  }

  lemma FieldAt(n: nat, separator: string, rest: string)
    requires n < 100
    ensures var s := Field(n, separator, rest);
      s[0..2] == Two(n) && s[2..2 + |separator|] == separator && s[2 + |separator|..] == rest
  {
  }

  /** Behind a field and its separator, everything is as it was. */
  lemma Nested(n: nat, separator: string, rest: string, i: nat, j: nat)
    requires n < 100 && i <= j <= |rest|
    ensures var s, k := Field(n, separator, rest), 2 + |separator|;
      s[k + i..k + j] == rest[i..j] && s[k + j..] == rest[j..]
  {
  }

  lemma DayAt(m: nat, d: nat, rest: string)
    requires m < 100 && d < 100
    ensures var s := Field(m, "-", Field(d, " ", rest));
      && s[0..2] == Two(m) && s[2..3] == "-" && s[3..5] == Two(d) && s[5..6] == " " && s[6..] == rest
  {
    FieldAt(d, " ", rest);
    FieldAt(m, "-", Field(d, " ", rest));
    Nested(m, "-", Field(d, " ", rest), 0, 2);
    Nested(m, "-", Field(d, " ", rest), 2, 3);
  }

  lemma MonthAt(y: nat, m: nat, d: nat, rest: string)
    requires y < 100 && m < 100 && d < 100
    ensures var s := Field(y, "-", Field(m, "-", Field(d, " ", rest)));
      && s[0..2] == Two(y) && s[2..3] == "-" && s[3..5] == Two(m) && s[5..6] == "-" && s[6..8] == Two(d)
      && s[8..9] == " " && s[9..] == rest
  {
    var front := Field(m, "-", Field(d, " ", rest));
    DayAt(m, d, rest);
    FieldAt(y, "-", front);
    Nested(y, "-", front, 0, 2);
    Nested(y, "-", front, 2, 3);
    Nested(y, "-", front, 3, 5);
    Nested(y, "-", front, 5, 6);
  }

  lemma InCentury(n: nat, rest: string, i: nat, j: nat)
    requires n < 100 && i <= j <= |rest|
    ensures var s := Field(n, "", rest); s[2 + i..2 + j] == rest[i..j] && s[2 + j..] == rest[j..]
  {
  }

  lemma CharInCentury(n: nat, rest: string, i: nat, c: char)
    requires n < 100 && i < |rest| && rest[i..i + 1] == [c]
    ensures Field(n, "", rest)[2 + i] == c
  {
    assert rest[i] == rest[i..i + 1][0];
  }

  lemma CenturyAt(century: nat, y: nat, rest: string)
    requires century < 100 && y < 100
    ensures var s := Field(century, "", Field(y, "-", rest));
      |s| >= 5 && s[0..2] == Two(century) && s[2..4] == Two(y) && s[4] == '-'
  {
    var front := Field(y, "-", rest);
    FieldAt(y, "-", rest);
    FieldAt(century, "", front);
    InCentury(century, front, 0, 2);
    CharInCentury(century, front, 2, '-');
  }

  lemma YearAt(t: Date, rest: string)
    requires t.y < 10000 && t.m < 100 && t.d < 100
    ensures var s := Fields(t, rest);
      s[0..2] == Two(t.y / 100) && s[2..4] == Two(t.y % 100) && s[4] == '-'
  {
    CenturyAt(t.y / 100, t.y % 100, Field(t.m, "-", Field(t.d, " ", rest)));
  }

  lemma MonthDayAt(t: Date, rest: string)
    requires t.y < 10000 && t.m < 100 && t.d < 100
    ensures var s := Fields(t, rest);
      s[5..7] == Two(t.m) && s[7] == '-' && s[8..10] == Two(t.d)
  {
    var front := Field(t.y % 100, "-", Field(t.m, "-", Field(t.d, " ", rest)));
    MonthAt(t.y % 100, t.m, t.d, rest);
    InCentury(t.y / 100, front, 3, 5);
    CharInCentury(t.y / 100, front, 5, '-');
    InCentury(t.y / 100, front, 6, 8);
  }

  lemma RestAt(t: Date, rest: string)
    requires t.y < 10000 && t.m < 100 && t.d < 100
    ensures var s := Fields(t, rest); s[10] == ' ' && s[11..] == rest
  {
    var front := Field(t.y % 100, "-", Field(t.m, "-", Field(t.d, " ", rest)));
    MonthAt(t.y % 100, t.m, t.d, rest);
    CharInCentury(t.y / 100, front, 8, ' ');
    InCentury(t.y / 100, front, 9, 9);
  }

  lemma DateAt(t: Date, rest: string)
    requires t.y < 10000 && t.m < 100 && t.d < 100
    ensures var s := Fields(t, rest);
      && s[0..2] == Two(t.y / 100) && s[2..4] == Two(t.y % 100) && s[4] == '-'
      && s[5..7] == Two(t.m) && s[7] == '-' && s[8..10] == Two(t.d) && s[10] == ' ' && s[11..] == rest
  {
    YearAt(t, rest);
    MonthDayAt(t, rest);
    RestAt(t, rest);
  }

  /** Every character of the text. */
  lemma StampAt(t: Date, v: nat)
    requires t.y < 10000 && t.m < 100 && t.d < 100 && v < 86400
    ensures var s := Stamp(t, v);
      && s[0..2] == Two(t.y / 100) && s[2..4] == Two(t.y % 100) && s[4] == '-'
      && s[5..7] == Two(t.m) && s[7] == '-' && s[8..10] == Two(t.d) && s[10] == ' '
      && s[11..13] == Two(v / 3600) && s[13] == ':' && s[14..16] == Two(v / 60 % 60) && s[16] == ':'
      && s[17..19] == Two(v % 60)
  {
    var s := Stamp(t, v);
    DateAt(t, Clock(v));
    ClockAt(v);
    assert s[11..13] == s[11..][0..2] && s[14..16] == s[11..][3..5] && s[17..19] == s[11..][6..8];
    assert s[13] == s[11..][2] && s[16] == s[11..][5];
  }

  lemma ReadTwo(n: nat, t: string, i: nat)
    requires n < 100 && i + 2 <= |t| && t[i..i + 2] == Two(n)
    ensures t[i] == DigitChar(n / 10) && t[i + 1] == DigitChar(n % 10) && Num2(t, i) == n
  {
    assert t[i] == t[i..i + 2][0] && t[i + 1] == t[i..i + 2][1];
  }

  lemma ReadNumbers(t: Date, v: nat)
    requires t.y < 10000 && t.m < 100 && t.d < 100 && v < 86400
    ensures var s := Stamp(t, v);
      && Num2(s, 0) == t.y / 100 && Num2(s, 2) == t.y % 100 && Num2(s, 5) == t.m && Num2(s, 8) == t.d
      && Num2(s, 11) == v / 3600 && Num2(s, 14) == v / 60 % 60 && Num2(s, 17) == v % 60
  {
    var s := Stamp(t, v);
    StampAt(t, v);
    ReadTwo(t.y / 100, s, 0);
    ReadTwo(t.y % 100, s, 2);
    ReadTwo(t.m, s, 5);
    ReadTwo(t.d, s, 8);
    ReadTwo(v / 3600, s, 11);
    ReadTwo(v / 60 % 60, s, 14);
    ReadTwo(v % 60, s, 17);
  }

  lemma ClockSum(v: nat)
    ensures v / 3600 * 3600 + v / 60 % 60 * 60 + v % 60 == v
  {
    assert v / 60 / 60 == v / 3600;
  }

  lemma ReadBack(t: Date, v: nat)
    requires Counted(t) && t.y <= 9999 && v < 86400
    ensures |Stamp(t, v)| == 19 && ReadStamp(Stamp(t, v)) == DayNumber(t) * 86400 + v - EPOCH
  {
    ReadNumbers(t, v);
    ClockSum(v);
    OriginIs();
  }

  lemma DaySplit(n: nat, v: nat)
    requires v < 86400
    ensures (n * 86400 + v) / 86400 == n && (n * 86400 + v) % 86400 == v
  {
  }

  lemma PrintedDay(n: nat, v: nat, seconds: i64)
    requires n < DAYS && v < 86400 && seconds + EPOCH == n * 86400 + v
    ensures TextFor(seconds) == Some(StampDay(n, v))
  {
    DaySplit(n, v);
    PrintableText(seconds);
  }

  /** The moment `v` seconds into a date, counted from the origin, is printed as that date and time. */
  lemma PrintedAs(t: Date, v: nat, seconds: i64)
    requires Counted(t) && t.y <= 9999 && v < 86400 && DayNumber(t) >= 0
    requires seconds == (DayNumber(t) - DayNumber(Date(1970, 1, 1))) * 86400 + v
    ensures TextFor(seconds) == Some(Stamp(t, v))
  {
    var n := DayNumber(t);
    OriginIs();
    LastDay(t);
    DateNumberedIs(n);
    DateUnique(t, DateNumbered(n));
    PrintedDay(n, v, seconds);
  }

  lemma FieldText(n: nat, separator: string, rest: string, text: string)
    requires n < 100 && text == Two(n) + (separator + rest)
    ensures Field(n, separator, rest) == text
  {
  }

  lemma MidnightText()
    ensures Clock(0) == "00:00:00"
  {
    assert Two(0) == "00";
  }

  lemma DayText()
    ensures Field(1, "-", Field(1, " ", "00:00:00")) == "01-01 00:00:00"
  {
    assert Two(1) == "01";
    FieldText(1, " ", "00:00:00", "01 00:00:00");
    FieldText(1, "-", "01 00:00:00", "01-01 00:00:00");
  }

  lemma YearText()
    ensures Field(70, "-", "01-01 00:00:00") == "70-01-01 00:00:00"
  {
    assert Two(70) == "70";
    FieldText(70, "-", "01-01 00:00:00", "70-01-01 00:00:00");
  }

  lemma CenturyText()
    ensures Field(19, "", "70-01-01 00:00:00") == "1970-01-01 00:00:00"
  {
    assert Two(19) == "19";
    FieldText(19, "", "70-01-01 00:00:00", "1970-01-01 00:00:00");
  }

  lemma OriginFields()
    ensures Stamp(Date(1970, 1, 1), 0) == "1970-01-01 00:00:00"
  {
    MidnightText();
    DayText();
    YearText();
    CenturyText();
  }

  /** The origin itself. */
  lemma OriginText()
    ensures TextFor(0) == Some("1970-01-01 00:00:00")
  {
    OriginIs();
    PrintedAs(Date(1970, 1, 1), 0, 0);
    OriginFields();
  }

  /** The text gives the timestamp back. */
  lemma RoundTrip(seconds: int)
    requires Printable(seconds)
    ensures |StampOf(seconds)| == 19 && ReadStamp(StampOf(seconds)) == seconds
  {
    var n, v := (seconds + EPOCH) / 86400, (seconds + EPOCH) % 86400;
    DateNumberedIs(n);
    ReadBack(DateNumbered(n), v);
    assert n * 86400 + v == seconds + EPOCH;
  }

  // ---- Texts are ordered like the timestamps ----

  /** The order of a dictionary. */
  predicate LexLess(a: string, b: string)
  {
    b != "" && (a == "" || a[0] < b[0] || (a[0] == b[0] && LexLess(a[1..], b[1..])))
  }

  lemma {:induction false} LexConcat(x: string, x': string, y: string, y': string)
    requires |x| == |x'|
    ensures LexLess(x + y, x' + y') <==> LexLess(x, x') || (x == x' && LexLess(y, y'))
  {
    if x == "" {
      assert x + y == y && x' + y' == y';
    } else {
      assert (x + y)[1..] == x[1..] + y && (x' + y')[1..] == x'[1..] + y';
      LexConcat(x[1..], x'[1..], y, y');
    }
  }

  lemma LexChar(c: char, d: char)
    ensures LexLess([c], [d]) <==> c < d
  {
    assert [c][1..] == "" && [d][1..] == "";
  }

  lemma LexTwo(a: nat, b: nat)
    requires a < 100 && b < 100
    ensures LexLess(Two(a), Two(b)) <==> a < b
    ensures Two(a) == Two(b) <==> a == b
  {
    var x, y, x', y' := DigitChar(a / 10), DigitChar(a % 10), DigitChar(b / 10), DigitChar(b % 10);
    assert Two(a) == [x] + [y] && Two(b) == [x'] + [y'];
    LexConcat([x], [x'], [y], [y']);
    LexChar(x, x');
    LexChar(y, y');
    assert Two(a)[0] == x && Two(b)[0] == x' && Two(a)[1] == y && Two(b)[1] == y';
  }

  lemma {:induction false} LexIrreflexive(a: string)
    ensures !LexLess(a, a)
  {
    if a != "" {
      LexIrreflexive(a[1..]);
    }
  }

  lemma LexField(a: nat, b: nat, separator: string, x: string, y: string)
    requires a < 100 && b < 100
    ensures LexLess(Field(a, separator, x), Field(b, separator, y)) <==> a < b || (a == b && LexLess(x, y))
  {
    LexConcat(Two(a), Two(b), separator + x, separator + y);
    LexConcat(separator, separator, x, y);
    LexIrreflexive(separator);
    LexTwo(a, b);
  }

  predicate DateLess(t: Date, u: Date)
  {
    t.y < u.y || (t.y == u.y && (t.m < u.m || (t.m == u.m && t.d < u.d)))
  }

  lemma ClockOrder(v: nat, w: nat)
    requires v < 86400 && w < 86400
    ensures LexLess(Clock(v), Clock(w)) <==> v < w
  {
    LexField(v / 3600, w / 3600, ":",
      Field(v / 60 % 60, ":", Two(v % 60)), Field(w / 60 % 60, ":", Two(w % 60)));
    LexField(v / 60 % 60, w / 60 % 60, ":", Two(v % 60), Two(w % 60));
    LexTwo(v % 60, w % 60);
    ClockSum(v);
    ClockSum(w);
  }

  lemma StampOrder(t: Date, v: nat, u: Date, w: nat)
    requires t.y < 10000 && t.m < 100 && t.d < 100 && v < 86400
    requires u.y < 10000 && u.m < 100 && u.d < 100 && w < 86400
    ensures LexLess(Stamp(t, v), Stamp(u, w)) <==> DateLess(t, u) || (t == u && v < w)
  {
    var td, ud := Field(t.d, " ", Clock(v)), Field(u.d, " ", Clock(w));
    var tm, um := Field(t.m, "-", td), Field(u.m, "-", ud);
    LexField(t.y / 100, u.y / 100, "", Field(t.y % 100, "-", tm), Field(u.y % 100, "-", um));
    LexField(t.y % 100, u.y % 100, "-", tm, um);
    LexField(t.m, u.m, "-", td, ud);
    LexField(t.d, u.d, " ", Clock(v), Clock(w));
    ClockOrder(v, w);
  }

  lemma NextIsLater(t: Date)
    requires ValidDate(t)
    ensures DateLess(t, NextDay(t))
  {
  }

  lemma {:induction false} DateOrder(a: nat, b: nat)
    requires a < b
    ensures DateLess(DateOf(a), DateOf(b))
    decreases b
  {
    DateOfNumber(b - 1);
    NextIsLater(DateOf(b - 1));
    if a < b - 1 {
      DateOrder(a, b - 1);
    }
  }

  lemma DayTextOrder(n: nat, v: nat, k: nat, w: nat)
    requires n < DAYS && k < DAYS && v < 86400 && w < 86400
    ensures LexLess(StampDay(n, v), StampDay(k, w)) <==> n < k || (n == k && v < w)
  {
    DateNumberedIs(n);
    DateNumberedIs(k);
    StampOrder(DateOf(n), v, DateOf(k), w);
    if n < k {
      DateOrder(n, k);
    } else if k < n {
      DateOrder(k, n);
    }
  }

  /** The dictionary order of the texts is the order of the timestamps. */
  lemma TextOrder(a: int, b: int)
    requires Printable(a) && Printable(b)
    ensures a < b <==> LexLess(StampOf(a), StampOf(b))
  {
    var n, v := (a + EPOCH) / 86400, (a + EPOCH) % 86400;
    var k, w := (b + EPOCH) / 86400, (b + EPOCH) % 86400;
    DayTextOrder(n, v, k, w);
    assert a + EPOCH == n * 86400 + v && b + EPOCH == k * 86400 + w;
  }

  // ---- The printer ----

  /** Dividing by ten and then by six is dividing by sixty, and leaves the two digits of the remainder. */
  lemma SixtyDigits(n: nat)
    ensures n % 10 == n % 60 % 10 && n / 10 % 6 == n % 60 / 10 && n / 10 / 6 == n / 60
  {
    var q, r := n / 60, n % 60;
    assert n == 60 * q + r;
    assert n / 10 == 6 * q + r / 10;
  }

  lemma TwoDigits(n: nat)
    requires n < 100
    ensures n / 10 % 10 == n / 10
  {
  }

  /** The time of day, written from its last digit to its first. */
  method WriteClock(dst: array<char>, seconds: nat)
    requires dst.Length >= 20 && seconds < 86400
    modifies dst
    ensures Frame(dst, old(dst[..]), 11, 19)
    ensures dst[11..19] == Clock(seconds)
  {
    var v := seconds;
    dst[18] := DigitChar(v % 10);
    v := v / 10;
    dst[17] := DigitChar(v % 6);
    v := v / 6;
    SixtyDigits(seconds);
    var minutes := v;
    dst[16] := ':';
    dst[15] := DigitChar(v % 10);
    v := v / 10;
    dst[14] := DigitChar(v % 6);
    v := v / 6;
    SixtyDigits(minutes);
    var hours := v;
    dst[13] := ':';
    dst[12] := DigitChar(v % 10);
    v := v / 10;
    dst[11] := DigitChar(v % 10);
    TwoDigits(hours);
    assert hours == seconds / 3600;
    ClockAt(seconds);
    assert dst[11..13] == Two(hours) && dst[14..16] == Two(minutes % 60) && dst[17..19] == Two(seconds % 60);
  }

  method WriteYear(dst: array<char>, year: nat)
    requires dst.Length >= 20
    modifies dst
    ensures Frame(dst, old(dst[..]), 0, 4)
    ensures year < 10000 ==> dst[0..2] == Two(year / 100) && dst[2..4] == Two(year % 100)
  {
    var y := year;
    dst[3] := DigitChar(y % 10);
    y := y / 10;
    dst[2] := DigitChar(y % 10);
    y := y / 10;
    dst[1] := DigitChar(y % 10);
    y := y / 10;
    dst[0] := DigitChar(y % 10);
    if year < 10000 { YearDigits(year); }
  }

  /** The date, written from its last digit to its first. */
  method WriteDate(dst: array<char>, t: Date)
    requires dst.Length >= 20
    modifies dst
    ensures Frame(dst, old(dst[..]), 0, 11)
    ensures t.y < 10000 ==> dst[0..2] == Two(t.y / 100) && dst[2..4] == Two(t.y % 100)
    ensures t.m < 100 ==> dst[5..7] == Two(t.m)
    ensures t.d < 100 ==> dst[8..10] == Two(t.d)
    ensures dst[4] == '-' && dst[7] == '-' && dst[10] == ' '
  {
    dst[10] := ' ';
    var d := t.d;
    dst[9] := DigitChar(d % 10);
    d := d / 10;
    dst[8] := DigitChar(d % 10);
    if t.d < 100 { TwoDigits(t.d); }
    dst[7] := '-';
    var m := t.m;
    dst[6] := DigitChar(m % 10);
    m := m / 10;
    dst[5] := DigitChar(m % 10);
    if t.m < 100 { TwoDigits(t.m); }
    dst[4] := '-';
    WriteYear(dst, t.y);
  }

  lemma YearDigits(y: nat)
    requires y < 10000
    ensures y % 10 == y % 100 % 10 && y / 10 % 10 == y % 100 / 10
    ensures y / 10 / 10 % 10 == y / 100 % 10 && y / 10 / 10 / 10 % 10 == y / 100 / 10
  {
    var q, r := y / 100, y % 100;
    assert y == 100 * q + r;
    assert y / 10 == 10 * q + r / 10;
    TwoDigits(q);
  }

  lemma SameStamp(dst: array<char>, t: Date, v: nat)
    requires dst.Length >= 20 && t.y < 10000 && t.m < 100 && t.d < 100 && v < 86400
    requires dst[0..2] == Two(t.y / 100) && dst[2..4] == Two(t.y % 100) && dst[4] == '-'
    requires dst[5..7] == Two(t.m) && dst[7] == '-' && dst[8..10] == Two(t.d) && dst[10] == ' '
    requires dst[11..19] == Clock(v)
    ensures dst[..19] == Stamp(t, v)
  {
    DateAt(t, Clock(v));
    var s := Stamp(t, v);
    assert dst[..19] == dst[0..2] + dst[2..4] + [dst[4]] + dst[5..7] + [dst[7]] + dst[8..10] + [dst[10]] + dst[11..19];
    assert s == s[0..2] + s[2..4] + [s[4]] + s[5..7] + [s[7]] + s[8..10] + [s[10]] + s[11..];
  }

  method FormatDay(dst: array<char>, rdn: u32, v: nat) returns (rc: int)
    requires dst.Length >= 20 && v < 86400
    modifies dst
    ensures rc == 0 <==> Accepted(rdn)
    ensures rc == 0 ==> -306 < DayShown(rdn) < DAYS && Holds(dst, 0, StampDay(DayShown(rdn), v))
    ensures Frame(dst, old(dst[..]), 0, if rc == 0 then 20 else 0)
  {
    var failed, y, m, d := RdnToYmd(rdn);
    if failed != 0 {
      return failed;
    }
    DateNumberedIs(DayShown(rdn));
    WriteClock(dst, v);
    WriteDate(dst, Date(y, m, d));
    dst[19] := '\0';
    SameStamp(dst, Date(y, m, d), v);
    return 0;
  }

  // ---- All timestamps ----

  /** The seconds since the day before 0001-01-01, as an unsigned 64-bit number. */
  function Since(seconds: i64): u64
  {
    (seconds + EPOCH) % TWO_64
  }

  /** The day number, in the 32 bits that it is kept in. */
  function DayNumberOf(seconds: i64): u32
  {
    Since(seconds) / 86400 % TWO_32
  }

  lemma ShownInRange(rdn: u32)
    requires Accepted(rdn)
    ensures -306 < DayShown(rdn) < DAYS
  {
  }

  /** What is printed; None for a timestamp that is refused. */
  function TextFor(seconds: i64): Option<string>
  {
    var rdn := DayNumberOf(seconds);
    if !Accepted(rdn) then None
    else
      ShownInRange(rdn);
      Some(StampDay(DayShown(rdn), Since(seconds) % 86400))
  }

  lemma PrintableDay(seconds: i64)
    requires Printable(seconds)
    ensures DayNumberOf(seconds) == (seconds + EPOCH) / 86400 < DAYS && Since(seconds) == seconds + EPOCH
  {
  }

  lemma PrintableText(seconds: i64)
    requires Printable(seconds)
    ensures TextFor(seconds) == Some(StampOf(seconds))
  {
    PrintableDay(seconds);
  }

  /** A negative number of days comes out far from both ends of the 32-bit range. */
  lemma FarFromEnds(seconds: i64)
    requires -400 * 86400 <= seconds + EPOCH < 0
    ensures !Accepted(DayNumberOf(seconds))
  {
    DayWithin(Since(seconds), 213503982334200, 213503982334602);
    LastTurn(Since(seconds) / 86400);
  }

  lemma DayWithin(since: nat, first: nat, end: nat)
    requires first * 86400 <= since < end * 86400
    ensures first <= since / 86400 < end
  {
  }

  lemma LastTurn(day: nat)
    requires 49710 * TWO_32 <= day < 49711 * TWO_32
    ensures day % TWO_32 == day - 49710 * TWO_32
  {
  }

  /** What is printed is the right date and time exactly for the printable timestamps. */
  lemma RightIff(seconds: i64)
    requires TextFor(seconds).Some?
    ensures |TextFor(seconds).value| == 19 && (ReadStamp(TextFor(seconds).value) == seconds <==> Printable(seconds))
  {
    var n, v := DayShown(DayNumberOf(seconds)), Since(seconds) % 86400;
    ReadShown(seconds);
    ShownInRange(DayNumberOf(seconds));
    if Printable(seconds) {
      PrintableText(seconds);
      RoundTrip(seconds);
    } else if ReadStamp(TextFor(seconds).value) == seconds {
      assert seconds + EPOCH == n * 86400 + v;
      FarFromEnds(seconds);
    }
  }

  lemma ShownSame(a: i64, b: i64)
    requires TextFor(a).Some? && TextFor(b).Some?
    requires DayShown(DayNumberOf(a)) == DayShown(DayNumberOf(b)) && Since(a) % 86400 == Since(b) % 86400
    ensures TextFor(a) == TextFor(b)
  {
  }

  lemma SplitDay(n: int, v: nat, k: int, w: nat)
    requires v < 86400 && w < 86400 && n * 86400 + v == k * 86400 + w
    ensures n == k && v == w
  {
  }

  /** Two timestamps are printed alike exactly when day and time of day that are shown agree. */
  lemma TimesAlike(a: i64, b: i64)
    requires TextFor(a).Some? && TextFor(b).Some?
    ensures TextFor(a) == TextFor(b) <==>
      DayShown(DayNumberOf(a)) == DayShown(DayNumberOf(b)) && Since(a) % 86400 == Since(b) % 86400
  {
    var n, k := DayShown(DayNumberOf(a)), DayShown(DayNumberOf(b));
    var v, w := Since(a) % 86400, Since(b) % 86400;
    if TextFor(a) == TextFor(b) {
      ReadShown(a);
      ReadShown(b);
      SplitDay(n, v, k, w);
    } else if n == k && v == w {
      ShownSame(a, b);
    }
  }

  lemma ReadShown(a: i64)
    requires TextFor(a).Some?
    ensures |TextFor(a).value| == 19
    ensures ReadStamp(TextFor(a).value) == DayShown(DayNumberOf(a)) * 86400 + Since(a) % 86400 - EPOCH
  {
    ShownInRange(DayNumberOf(a));
    DateNumberedIs(DayShown(DayNumberOf(a)));
    ReadBack(DateNumbered(DayShown(DayNumberOf(a))), Since(a) % 86400);
  }

  /** Seconds in 2^32 days, behind which all texts come again. */
  const CYCLE: int := 86400 * TWO_32

  lemma CycleLater(u: nat)
    ensures (u + CYCLE) / 86400 % TWO_32 == u / 86400 % TWO_32 && (u + CYCLE) % 86400 == u % 86400
  {
    assert (u + CYCLE) / 86400 == u / 86400 + TWO_32;
  }

  /** The timestamp that has passed so many seconds. */
  function SecondsAt(since: u64): (seconds: i64)
    ensures Since(seconds) == since
  {
    if since - EPOCH < TWO_63 then since - EPOCH else since - EPOCH - TWO_64
  }

  lemma SameText(a: i64, b: i64)
    requires DayNumberOf(a) == DayNumberOf(b) && Since(a) % 86400 == Since(b) % 86400
    ensures TextFor(a) == TextFor(b)
  {
  }

  /** The same day number and time of day, 2^32 days earlier or later. */
  function OtherCycle(u: u64): (w: u64)
    ensures w != u && w / 86400 % TWO_32 == u / 86400 % TWO_32 && w % 86400 == u % 86400
  {
    if u + CYCLE < TWO_64 then
      CycleLater(u);
      u + CYCLE
    else
      CycleLater(u - CYCLE);
      u - CYCLE
  }

  /**
   * Every timestamp is printed like another one: the days come again after 2^32 of them, and 64 bits
   * of seconds have room for many such turns.
   */
  lemma TimeTwin(a: i64) returns (b: i64)
    ensures b != a && TextFor(b) == TextFor(a)
  {
    b := SecondsAt(OtherCycle(Since(a)));
    SameText(a, b);
  }

  lemma SecondYear()
    ensures DateNumbered(576) == Date(2, 7, 30)
  {
    DateNumberedIs(576);
    SecondYearNumber();
    DateUnique(DateNumbered(576), Date(2, 7, 30));
  }

  lemma SecondYearNumber()
    ensures Counted(Date(2, 7, 30)) && DayNumber(Date(2, 7, 30)) == 576
  {
  }

  /** The first timestamp of day number 4294966990, as any with that number, is shown as a day of the year 2. */
  lemma WrongDate()
    ensures TextFor(4294966990 * 86400 - EPOCH) == Some(Stamp(Date(2, 7, 30), 0))
  {
    assert Since(4294966990 * 86400 - EPOCH) == 4294966990 * 86400;
    FirstSecond(4294966990);
    SecondYear();
  }

  lemma FirstSecond(rdn: u32)
    ensures rdn * 86400 / 86400 % TWO_32 == rdn && rdn * 86400 % 86400 == 0
  {
  }

  /** The call succeeds exactly when the buffer has room for 19 characters and a NUL and there is a text. */
  method Format(dst: array<char>, len: nat, seconds: i64) returns (rc: int)
    requires len <= dst.Length
    modifies dst
    ensures rc == 0 <==> len >= 20 && TextFor(seconds).Some?
    ensures rc == 0 ==> Holds(dst, 0, TextFor(seconds).value)
    ensures Frame(dst, old(dst[..]), 0, if rc == 0 then 20 else 0)
  {
    if 19 >= len {
      return 1;
    }
    var sec := (seconds + EPOCH) % TWO_64;
    var rdn, v := sec / 86400 % TWO_32, sec % 86400;
    rc := FormatDay(dst, rdn, v);
  }
}
