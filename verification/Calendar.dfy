/** rdn_to_ymd of libsol/rfc3339.c, a closed form for dates, against a calendar counted day by day. */
module Calendar {
  import opened Bytes

  datatype Date = Date(y: nat, m: nat, d: nat)

  // ---- The calendar ----

  predicate IsLeap(y: nat)
  {
    y % 4 == 0 && (y % 100 != 0 || y % 400 == 0)
  }

  function DaysInMonth(y: nat, m: nat): nat
  {
    if m == 2 then (if IsLeap(y) then 29 else 28)
    else if m == 4 || m == 6 || m == 9 || m == 11 then 30
    else 31
  }

  function NextDay(t: Date): Date
  {
    if t.d < DaysInMonth(t.y, t.m) then t.(d := t.d + 1)
    else if t.m < 12 then Date(t.y, t.m + 1, 1)
    else Date(t.y + 1, 1, 1)
  }

  predicate ValidDate(t: Date)
  {
    1 <= t.m <= 12 && 1 <= t.d <= DaysInMonth(t.y, t.m)
  }

  /** The date `n` days after 0000-12-31. */
  function DateOf(n: nat): Date
  {
    if n == 0 then Date(0, 12, 31) else NextDay(DateOf(n - 1))
  }

  // ---- Years that begin on the first of March ----

  const DAY_OFFSET: seq<nat> := [0, 306, 337, 0, 31, 61, 92, 122, 153, 184, 214, 245, 275]

  /** Days before the first of March of year `y`. */
  function DaysBefore(y: nat): nat
  {
    365 * y + y / 4 - y / 100 + y / 400
  }

  function MarchYear(t: Date): int
  {
    if t.m >= 3 then t.y else t.y - 1
  }

  function MarchDay(t: Date): int
    requires ValidDate(t)
  {
    DAY_OFFSET[t.m] + t.d
  }

  /** The years in which the closed form counts; the January of year 0 lies before them. */
  predicate Counted(t: Date)
  {
    ValidDate(t) && MarchYear(t) >= 0
  }

  /** The day number of a date. */
  function DayNumber(t: Date): int
    requires Counted(t)
  {
    DaysBefore(MarchYear(t)) + MarchDay(t) - 306
  }

  lemma LeapStep(y: nat)
    ensures DaysBefore(y + 1) == DaysBefore(y) + 365 + if IsLeap(y + 1) then 1 else 0
  {
    Next(y, 4);
    Next(y, 100);
    Next(y, 400);
  }

  lemma Next(y: nat, n: nat)
    requires n in {4, 100, 400}
    ensures (y + 1) / n == y / n + if (y + 1) % n == 0 then 1 else 0
  {
    if n == 4 {
    } else if n == 100 {
    } else {
    }
  }

  lemma NextInYear(t: Date)
    requires Counted(t) && (t.m == 2 ==> t.d < DaysInMonth(t.y, 2))
    ensures Counted(NextDay(t)) && MarchYear(NextDay(t)) == MarchYear(t) && MarchDay(NextDay(t)) == MarchDay(t) + 1
  {
  }

  lemma NextYear(t: Date)
    requires Counted(t) && t.m == 2 && t.d == DaysInMonth(t.y, 2)
    ensures NextDay(t) == Date(t.y, 3, 1) && MarchDay(t) == 365 + if IsLeap(t.y) then 1 else 0
  {
  }

  lemma NextDayNumber(t: Date)
    requires Counted(t)
    ensures Counted(NextDay(t)) && DayNumber(NextDay(t)) == DayNumber(t) + 1
  {
    if t.m == 2 && t.d == DaysInMonth(t.y, 2) {
      NextYear(t);
      LeapStep(MarchYear(t));
    } else {
      NextInYear(t);
    }
  }

  lemma {:induction false} DateOfNumber(n: nat)
    ensures Counted(DateOf(n)) && DayNumber(DateOf(n)) == n
  {
    if n > 0 {
      DateOfNumber(n - 1);
      NextDayNumber(DateOf(n - 1));
    }
  }

  // ---- The closed form ----

  /** A year split into its 400-year cycle, the century within it and the year within that. */
  lemma Parts(q: nat, c: nat, r: nat)
    requires c < 4 && r < 100
    ensures var y := 400 * q + 100 * c + r;
      y / 400 == q && y / 100 == 4 * q + c && y / 4 == 100 * q + 25 * c + r / 4
  {
  }

  /** Whole cycles do not count. */
  lemma Cycles(y: nat, by400: nat, by100: nat, by4: nat)
    ensures 400 * by400 <= y ==> y % 400 == (y - 400 * by400) % 400
    ensures 100 * by100 <= y ==> y % 100 == (y - 100 * by100) % 100
    ensures 4 * by4 <= y ==> y % 4 == (y - 4 * by4) % 4
  {
  }

  lemma LeapInCycle(y: nat, c: nat, r: nat)
    requires c < 4 && r < 100
    requires y % 400 == (100 * c + r + 1) % 400 && y % 100 == (r + 1) % 100 && y % 4 == (r + 1) % 4
    ensures IsLeap(y) <==> r % 4 == 3 && (r == 99 ==> c == 3)
  {
  }

  lemma LeapParts(q: nat, c: nat, r: nat)
    requires c < 4 && r < 100
    ensures IsLeap(400 * q + 100 * c + r + 1) <==> r % 4 == 3 && (r == 99 ==> c == 3)
  {
    var y := 400 * q + 100 * c + r + 1;
    Cycles(y, q, 4 * q + c, 100 * q + 25 * c);
    LeapInCycle(y, c, r);
  }

  /** The century: `z` is a day's number plus 306. */
  lemma CenturyForm(q: nat, c: nat, r: nat, day: nat)
    requires c < 4 && r < 100
    requires 1 <= day <= 365 + if r % 4 == 3 && (r == 99 ==> c == 3) then 1 else 0
    ensures var z := 146097 * q + 36524 * c + 365 * r + r / 4 + day;
      (100 * z - 25) / 3652425 == 4 * q + c
  {
    var z := 146097 * q + 36524 * c + 365 * r + r / 4 + day;
    assert 3652425 * (4 * q + c) <= 100 * z - 25 < 3652425 * (4 * q + c + 1);
  }

  /** The year, from the century. */
  lemma YearForm(q: nat, c: nat, r: nat, day: nat)
    requires c < 4 && r < 100
    requires 1 <= day <= 365 + if r % 4 == 3 && (r == 99 ==> c == 3) then 1 else 0
    ensures var z := 146097 * q + 36524 * c + 365 * r + r / 4 + day;
      (100 * (3 * q + c) + (100 * z - 25)) / 36525 == 400 * q + 100 * c + r
  {
    var z := 146097 * q + 36524 * c + 365 * r + r / 4 + day;
    var n := 100 * (3 * q + c) + (100 * z - 25);
    assert 36525 * (400 * q + 100 * c + r) <= n < 36525 * (400 * q + 100 * c + r + 1);
  }

  lemma Split(year: nat)
    ensures year / 100 % 4 < 4 && year % 100 < 100
    ensures year == 400 * (year / 400) + 100 * (year / 100 % 4) + year % 100
  {
    assert year / 100 / 4 == year / 400;
  }

  lemma DayForm(year: nat)
    ensures 1461 * year / 4 == 365 * year + year / 4
  {
  }

  /** The four divisions of the source, undone: they recover the March year and the day within it. */
  lemma ClosedForm(year: nat, day: nat)
    requires 1 <= day <= 365 + if IsLeap(year + 1) then 1 else 0
    ensures var z := DaysBefore(year) + day;
      var h := 100 * z - 25;
      var b := h / 3652425 - h / 3652425 / 4;
      && b == year / 100 - year / 400
      && (100 * b + h) / 36525 == year
      && b + z - 1461 * year / 4 == day
  {
    var q, c, r := year / 400, year / 100 % 4, year % 100;
    Split(year);
    Parts(q, c, r);
    LeapParts(q, c, r);
    CenturyForm(q, c, r, day);
    YearForm(q, c, r, day);
    DayForm(year);
    assert (4 * q + c) / 4 == q;
  }

  lemma MonthForm(t: Date)
    requires ValidDate(t)
    ensures (535 * MarchDay(t) + 48950) / 16384 == if t.m >= 3 then t.m else t.m + 12
  {
  }

  lemma MarchDayBound(t: Date)
    requires Counted(t)
    ensures 1 <= MarchDay(t) <= 365 + if IsLeap(MarchYear(t) + 1) then 1 else 0
  {
  }

  /** The last day that the source accepts is the last one with a four-digit year. */
  lemma LastDay(t: Date)
    requires Counted(t)
    ensures t.y <= 9999 <==> DayNumber(t) <= 3652059
  {
    var year := MarchYear(t);
    MarchDayBound(t);
    if year < 9999 {
      Earlier(year, 9998);
    } else if year > 9999 {
      Earlier(10000, year);
    }
  }

  lemma Earlier(a: nat, b: nat)
    requires a <= b
    ensures DaysBefore(a) <= DaysBefore(b)
  {
    if a < b {
      Earlier(a, b - 1);
      LeapStep(b - 1);
    }
  }

  /** The greatest day number for which no 32-bit intermediate wraps around. */
  const LAST_EXACT: nat := 42948485

  /** A value stored in an unsigned 32-bit variable. */
  function Wrap(x: int): u32
  {
    x % TWO_32
  }

  lemma WrapSmall(x: int)
    requires 0 <= x < TWO_32
    ensures Wrap(x) == x
  {
  }

  /** The intermediates of the source stay in range up to `LAST_EXACT`. */
  lemma NoWrap(rdn: nat)
    requires rdn <= LAST_EXACT
    ensures var z := rdn + 306;
      var h := 100 * z - 25;
      var b := h / 3652425 - h / 3652425 / 4;
      && Wrap(z) == z && Wrap(h) == h
      && Wrap(100 * b + h) == 100 * b + h
      && (100 * b + h) / 36525 <= 120000
  {
    var z := rdn + 306;
    var h := 100 * z - 25;
    var a := h / 3652425;
    assert a <= 1175;
    assert a - a / 4 <= 882;
    WrapSmall(z);
    WrapSmall(h);
    WrapSmall(100 * (a - a / 4) + h);
  }

  /** The divisions without the wrapping, for the date with the given number. */
  lemma ExactYear(rdn: nat, t: Date)
    requires rdn <= LAST_EXACT && Counted(t) && DayNumber(t) == rdn
    ensures var z := rdn + 306;
      var h := 100 * z - 25;
      var b := h / 3652425 - h / 3652425 / 4;
      (100 * b + h) / 36525 == MarchYear(t) && b + z - 1461 * MarchYear(t) / 4 == MarchDay(t)
  {
    MarchDayBound(t);
    ClosedForm(MarchYear(t), MarchDay(t));
  }

  // The divisions of the source, for a day number plus 306.

  function CenturyOf(z: u32): (b: u32)
    ensures b <= 882
  {
    var a := Wrap(100 * z - 25) / 3652425;
    a - a / 4
  }

  function YearOf(z: u32): (year: u32)
    ensures year <= 117592
  {
    Wrap(100 * CenturyOf(z) + Wrap(100 * z - 25)) / 36525
  }

  function DayOf(z: u32): u32
  {
    Wrap(CenturyOf(z) + z - Wrap(1461 * YearOf(z)) / 4)
  }

  lemma Exact(rdn: nat, t: Date)
    requires rdn <= LAST_EXACT && Counted(t) && DayNumber(t) == rdn
    ensures var z := Wrap(rdn + 306); YearOf(z) == MarchYear(t) && DayOf(z) == MarchDay(t)
  {
    MarchDayBound(t);
    ExactYear(rdn, t);
    NoWrap(rdn);
    WrapSmall(1461 * MarchYear(t));
    WrapSmall(MarchDay(t));
  }

  lemma ExactMonth(t: Date)
    requires Counted(t)
    ensures Wrap(535 * MarchDay(t) + 48950) / 16384 == if t.m >= 3 then t.m else t.m + 12
  {
    MarchDayBound(t);
    MonthForm(t);
    WrapSmall(535 * MarchDay(t) + 48950);
  }

  // ---- Day numbers with more than 32 bits of intermediates ----

  /** The first of the last day numbers that are accepted again. */
  const FIRST_WRAPPED: nat := 4294966109

  // The number of days that have a four-digit year.
  const DAYS: int := 3652060

  predicate Accepted(rdn: u32)
  {
    rdn < DAYS || rdn >= FIRST_WRAPPED
  }

  /**
   * The number of the day that is given for an accepted day number: its own, read as a negative
   * number if it is one of the last 305, and one that is 882 days late just before those.
   */
  function DayShown(rdn: u32): int
  {
    if rdn < DAYS then rdn else if rdn < TWO_32 - 305 then rdn - TWO_32 + 882 else rdn - TWO_32
  }

  /** Up to the 882nd number below the top, either the year or the day is out of range. */
  lemma Refused(z: u32)
    requires 3652503 <= z <= TWO_32 - 882
    ensures YearOf(z) > 9999 || DayOf(z) > 368
  {
    var year := YearOf(z);
    if z == TWO_32 - 882 {
      assert 100 * z - 25 == TWO_32 - 88225 + 99 * TWO_32;
      assert CenturyOf(z) == 882;
    } else if year <= 9999 {
      WrapSmall(1461 * year);
      WrapSmall(CenturyOf(z) + z - 1461 * year / 4);
    }
  }

  lemma WrapTop(x: int)
    requires -TWO_32 <= x < 0
    ensures Wrap(x) == x + TWO_32
  {
  }

  lemma WrapOver(x: int)
    requires TWO_32 <= x < 2 * TWO_32
    ensures Wrap(x) == x - TWO_32
  {
  }

  /** The 32-bit number `k` below zero. */
  function Below(k: nat): u32
    requires k <= 881
  {
    if k == 0 then 0 else TWO_32 - k
  }

  lemma Hundredfold(k: nat)
    requires k <= 881
    ensures Wrap(100 * Below(k) - 25) == TWO_32 - 100 * k - 25
  {
    if k == 0 {
      WrapTop(-25);
    } else {
      assert 100 * (TWO_32 - k) - 25 == TWO_32 - 100 * k - 25 + 99 * TWO_32;
    }
  }

  lemma TopYear(k: nat)
    requires k <= 881
    ensures CenturyOf(Below(k)) == 882
    ensures YearOf(Below(k)) == if k <= 151 then 2 else if k <= 516 then 1 else 0
  {
    Hundredfold(k);
    WrapOver(100 * 882 + TWO_32 - 100 * k - 25);
  }

  lemma TopDay(k: nat)
    requires k <= 881
    ensures DayOf(Below(k)) == 882 - k - 365 * YearOf(Below(k)) && 1 <= DayOf(Below(k)) <= 365
  {
    TopYear(k);
    var year := YearOf(Below(k));
    assert 1461 * year / 4 == 365 * year;
    WrapSmall(1461 * year);
    if k == 0 {
      WrapSmall(882 - 365 * year);
    } else {
      WrapOver(882 + (TWO_32 - k) - 365 * year);
    }
  }

  lemma FirstYear(z: u32)
    requires 1 <= z <= 305
    ensures YearOf(z) == 0 && DayOf(z) == z
  {
    WrapSmall(100 * z - 25);
    WrapSmall(100 * z - 25);
    WrapSmall(z);
  }

  /** An accepted day number that is not one of the calendar leads into the first three years. */
  lemma Wrapped(rdn: u32)
    requires rdn >= FIRST_WRAPPED
    ensures var z := Wrap(rdn + 306);
      YearOf(z) <= 2 && 1 <= DayOf(z) <= 365 && 365 * YearOf(z) + DayOf(z) - 306 == DayShown(rdn)
  {
    if rdn < TWO_32 - 305 {
      var k := TWO_32 - 306 - rdn;
      WrapBelow(k);
      TopYear(k);
      TopDay(k);
    } else {
      WrapOver(rdn + 306);
      FirstYear(rdn + 306 - TWO_32);
    }
  }

  lemma WrapBelow(k: nat)
    requires k <= 881
    ensures Wrap(TWO_32 - k) == Below(k)
  {
  }

  /** The date of a day of a March year. */
  function MarchDate(year: nat, day: nat): Date
    requires 1 <= day <= 365
  {
    var m := (535 * day + 48950) / 16384;
    if m > 12 then Date(year + 1, m - 12, day - DAY_OFFSET[m - 12]) else Date(year, m, day - DAY_OFFSET[m])
  }

  lemma MarchDateIs(year: nat, day: nat)
    requires 1 <= day <= 365
    ensures var t := MarchDate(year, day);
      Counted(t) && MarchYear(t) == year && MarchDay(t) == day
  {
  }

  /** The year, from the number of a day plus 306. */
  function ExactYearOf(z: nat): int
  {
    var h := 100 * z - 25;
    (100 * (h / 3652425 - h / 3652425 / 4) + h) / 36525
  }

  lemma YearFromNumber(t: Date)
    requires Counted(t)
    ensures DayNumber(t) >= -305 && ExactYearOf(DayNumber(t) + 306) == MarchYear(t)
  {
    MarchDayBound(t);
    ClosedForm(MarchYear(t), MarchDay(t));
  }

  /** A day number has one date. */
  lemma DateUnique(t: Date, u: Date)
    requires Counted(t) && Counted(u) && DayNumber(t) == DayNumber(u)
    ensures t == u
  {
    YearFromNumber(t);
    YearFromNumber(u);
    SameDate(t, u);
  }

  lemma SameDate(t: Date, u: Date)
    requires Counted(t) && Counted(u) && MarchYear(t) == MarchYear(u) && MarchDay(t) == MarchDay(u)
    ensures t == u
  {
    MonthForm(t);
    MonthForm(u);
  }

  /** The date with a number; a negative one lies in the year 0. */
  function DateNumbered(n: int): Date
    requires -306 < n < DAYS
  {
    if n >= 0 then DateOf(n) else MarchDate(0, n + 306)
  }

  lemma DateNumberedIs(n: int)
    requires -306 < n < DAYS
    ensures var t := DateNumbered(n); Counted(t) && t.y <= 9999 && t.m <= 12 && t.d <= 31 && DayNumber(t) == n
  {
    if n >= 0 {
      DateOfNumber(n);
      LastDay(DateOf(n));
    } else {
      MarchDateIs(0, n + 306);
    }
  }

  // ---- The divisions ----

  /** The divisions of the source. */
  method Divide(rdn: u32) returns (year: u32, month: u32, day: u32)
    ensures year == YearOf(Wrap(rdn + 306)) && day == DayOf(Wrap(rdn + 306))
    ensures month == Wrap(535 * day + 48950) / 16384
  {
    var Z := Wrap(rdn + 306);
    var H := Wrap(100 * Z - 25);
    var A := H / 3652425;
    var B := A - A / 4;
    year := Wrap(100 * B + H) / 36525;
    day := Wrap(B + Z - Wrap(1461 * year) / 4);
    month := Wrap(535 * day + 48950) / 16384;
  }

  /** The adjustment of the last two months and the range checks. */
  function Checked(year: nat, month: nat, day: nat): Option<Date>
  {
    var y := if month > 12 then year + 1 else year;
    var m := if month > 12 then month - 12 else month;
    if y > 9999 || m > 12 || day > 31 + DAY_OFFSET[m] then None
    else Some(Date(y, m, (day - DAY_OFFSET[m]) % TWO_16))
  }

  lemma CheckedExact(t: Date)
    requires Counted(t)
    ensures Checked(MarchYear(t), if t.m >= 3 then t.m else t.m + 12, MarchDay(t)) ==
      if t.y <= 9999 then Some(t) else None
  {
  }

  lemma CheckedRefused(year: nat, month: nat, day: nat)
    requires year > 9999 || day > 368
    ensures Checked(year, month, day).None?
  {
  }

  lemma CheckedWrapped(year: nat, day: nat)
    requires year <= 2 && 1 <= day <= 365
    ensures Checked(year, (535 * day + 48950) / 16384, day) == Some(MarchDate(year, day))
  {
  }

  method ClosedDate(rdn: u32, ghost t: Date) returns (rc: int, y: u16, m: u16, d: u16)
    requires rdn <= LAST_EXACT ==> Counted(t) && DayNumber(t) == rdn
    ensures rdn <= LAST_EXACT ==> (rc == 0 <==> t.y <= 9999)
    ensures rdn <= LAST_EXACT && rc == 0 ==> Date(y, m, d) == t
    ensures LAST_EXACT < rdn < FIRST_WRAPPED ==> rc != 0
    ensures rdn >= FIRST_WRAPPED ==>
      var z := Wrap(rdn + 306); rc == 0 && 1 <= DayOf(z) <= 365 && Date(y, m, d) == MarchDate(YearOf(z), DayOf(z))
  {
    var year, month, day := Divide(rdn);
    if rdn <= LAST_EXACT {
      Exact(rdn, t);
      ExactMonth(t);
      CheckedExact(t);
    } else if rdn < FIRST_WRAPPED {
      WrapSmall(rdn + 306);
      Refused(rdn + 306);
      CheckedRefused(year, month, day);
    } else {
      Wrapped(rdn);
      WrapSmall(535 * day + 48950);
      CheckedWrapped(year, day);
    }
    rc, y, m, d := Check(year, month, day);
  }

  method Check(year: u32, month: u32, day: u32) returns (rc: int, y: u16, m: u16, d: u16)
    requires year <= 117592
    ensures rc == 0 <==> Checked(year, month, day).Some?
    ensures rc == 0 ==> Checked(year, month, day) == Some(Date(y, m, d))
  {
    var yy, mm := year, month;
    if mm > 12 {
      yy := yy + 1;
      mm := mm - 12;
    }
    if yy > 9999 || mm > 12 || day > 31 + DAY_OFFSET[mm] {
      return 1, 0, 0, 0;
    }
    return 0, yy, mm, (day - DAY_OFFSET[mm]) % TWO_16;
  }

  /**
   * Every intermediate is reduced to 32 bits as in the source.  The days with a four-digit year give
   * the date that counting days gives.  Of the later day numbers of 32 bits just the last 1187 are
   * accepted, and all but 305 of those with a wrong date.
   */
  method RdnToYmd(rdn: u32) returns (rc: int, y: u16, m: u16, d: u16)
    ensures rc == 0 <==> Accepted(rdn)
    ensures rc == 0 ==> -306 < DayShown(rdn) < DAYS && Date(y, m, d) == DateNumbered(DayShown(rdn))
  {
    DateOfNumber(rdn);
    LastDay(DateOf(rdn));
    rc, y, m, d := ClosedDate(rdn, DateOf(rdn));
    if rdn >= FIRST_WRAPPED {
      Wrapped(rdn);
      WrappedDate(YearOf(Wrap(rdn + 306)), DayOf(Wrap(rdn + 306)));
    }
  }

  lemma MarchNumber(year: nat, day: nat)
    requires year <= 2 && 1 <= day <= 365
    ensures Counted(MarchDate(year, day)) && DayNumber(MarchDate(year, day)) == 365 * year + day - 306
  {
    MarchDateIs(year, day);
  }

  lemma WrappedDate(year: nat, day: nat)
    requires year <= 2 && 1 <= day <= 365
    ensures -306 < 365 * year + day - 306 < DAYS
    ensures MarchDate(year, day) == DateNumbered(365 * year + day - 306)
  {
    var n := 365 * year + day - 306;
    MarchNumber(year, day);
    DateNumberedIs(n);
    DateUnique(MarchDate(year, day), DateNumbered(n));
  }
}
