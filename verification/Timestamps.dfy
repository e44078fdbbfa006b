/** The fixed-width UTC timestamps every TEXT comparison in the database relies on. */
module Timestamps {
  import opened Text
  import opened Decimal

  datatype Civil = Civil(year: nat, month: nat, day: nat, hour: nat, minute: nat, second: nat)

  predicate Leap(y: nat) {
    y % 4 == 0 && (y % 100 != 0 || y % 400 == 0)
  }

  function MonthLength(y: nat, m: nat): nat {
    if m == 2 then (if Leap(y) then 29 else 28)
    else if m == 4 || m == 6 || m == 9 || m == 11 then 30 else 31
  }

  function YearLength(y: nat): nat {
    if Leap(y) then 366 else 365
  }

  predicate Valid(c: Civil) {
    && 1 <= c.year <= 9999 && 1 <= c.month <= 12 && 1 <= c.day <= MonthLength(c.year, c.month)
    && c.hour < 24 && c.minute < 60 && c.second < 60
  }

  function DaysBeforeYear(y: nat): nat {
    if y <= 1 then 0 else DaysBeforeYear(y - 1) + YearLength(y - 1)
  }

  function DaysBeforeMonth(y: nat, m: nat): nat {
    if m <= 1 then 0 else DaysBeforeMonth(y, m - 1) + MonthLength(y, m - 1)
  }

  function DayNumber(c: Civil): int {
    DaysBeforeYear(c.year) + DaysBeforeMonth(c.year, c.month) + c.day - 1
  }

  function SecondOfDay(c: Civil): nat {
    (c.hour * 60 + c.minute) * 60 + c.second
  }

  /** Seconds since 0001-01-01T00:00:00Z in the proleptic Gregorian calendar. */
  function Instant(c: Civil): int {
    DayNumber(c) * 86400 + SecondOfDay(c)
  }

  function Pad2(n: nat): (s: string)
    requires n < 100
    ensures |s| == 2
  {
    [DigitChar(n / 10), DigitChar(n % 10)]
  }

  function Pad4(n: nat): (s: string)
    requires n < 10000
    ensures |s| == 4
  {
    Pad2(n / 100) + Pad2(n % 100)
  }

  function Field(separator: char, n: nat, rest: string): string
    requires n < 100
  {
    [separator] + Pad2(n) + rest
  }

  /** isoformat() of a second-precision UTC datetime with "+00:00" written "Z". */
  function Format(c: Civil): string
    requires Valid(c)
  {
    Pad4(c.year) + Field('-', c.month, Field('-', c.day,
      Field('T', c.hour, Field(':', c.minute, Field(':', c.second, "Z")))))
  }

  lemma Pad2Order(a: nat, b: nat)
    requires a < 100 && b < 100
    ensures Less(Pad2(a), Pad2(b)) <==> a < b
    ensures Pad2(a) == Pad2(b) <==> a == b
  {
    var s, t := Pad2(a), Pad2(b);
    assert s == [s[0]] + [s[1]] && t == [t[0]] + [t[1]];
    LessOfBlocks([s[0]], [t[0]], [s[1]], [t[1]]);
    assert a == 10 * (a / 10) + a % 10 && b == 10 * (b / 10) + b % 10;
  }

  lemma Pad4Order(a: nat, b: nat)
    requires a < 10000 && b < 10000
    ensures Less(Pad4(a), Pad4(b)) <==> a < b
    ensures Pad4(a) == Pad4(b) <==> a == b
  {
    LessOfBlocks(Pad2(a / 100), Pad2(b / 100), Pad2(a % 100), Pad2(b % 100));
    Pad2Order(a / 100, b / 100);
    Pad2Order(a % 100, b % 100);
    assert Pad4(a)[..2] == Pad2(a / 100) && Pad4(b)[..2] == Pad2(b / 100);
    assert a == 100 * (a / 100) + a % 100 && b == 100 * (b / 100) + b % 100;
  }

  lemma FieldOrder(separator: char, a: nat, b: nat, x: string, y: string)
    requires a < 100 && b < 100
    ensures Less(Field(separator, a, x), Field(separator, b, y)) <==> a < b || (a == b && Less(x, y))
  {
    Pad2Order(a, b);
    LessOfBlocks(Pad2(a), Pad2(b), x, y);
    assert Field(separator, a, x) == [separator] + (Pad2(a) + x);
    assert Field(separator, b, y) == [separator] + (Pad2(b) + y);
    LessOfBlocks([separator], [separator], Pad2(a) + x, Pad2(b) + y);
  }

  predicate EarlierInDay(a: Civil, b: Civil) {
    a.hour < b.hour || (a.hour == b.hour && (a.minute < b.minute || (a.minute == b.minute && a.second < b.second)))
  }

  predicate SameDay(a: Civil, b: Civil) {
    a.year == b.year && a.month == b.month && a.day == b.day
  }

  predicate EarlierDay(a: Civil, b: Civil) {
    a.year < b.year || (a.year == b.year && (a.month < b.month || (a.month == b.month && a.day < b.day)))
  }

  lemma FormatOrder(a: Civil, b: Civil)
    requires Valid(a) && Valid(b)
    ensures Less(Format(a), Format(b)) <==> EarlierDay(a, b) || (SameDay(a, b) && EarlierInDay(a, b))
  {
    var s1, s2 := Field(':', a.second, "Z"), Field(':', b.second, "Z");
    FieldOrder(':', a.second, b.second, "Z", "Z");
    LessIrreflexive("Z");
    var i1, i2 := Field(':', a.minute, s1), Field(':', b.minute, s2);
    FieldOrder(':', a.minute, b.minute, s1, s2);
    var h1, h2 := Field('T', a.hour, i1), Field('T', b.hour, i2);
    FieldOrder('T', a.hour, b.hour, i1, i2);
    var d1, d2 := Field('-', a.day, h1), Field('-', b.day, h2);
    FieldOrder('-', a.day, b.day, h1, h2);
    var m1, m2 := Field('-', a.month, d1), Field('-', b.month, d2);
    FieldOrder('-', a.month, b.month, d1, d2);
    Pad4Order(a.year, b.year);
    LessOfBlocks(Pad4(a.year), Pad4(b.year), m1, m2);
  }

  lemma {:induction false} YearsAdd(a: nat, b: nat)
    requires 1 <= a < b
    ensures DaysBeforeYear(a) + YearLength(a) <= DaysBeforeYear(b)
  {
    if a + 1 < b {
      YearsAdd(a, b - 1);
    }
  }

  lemma {:induction false} MonthsAdd(y: nat, a: nat, b: nat)
    requires 1 <= a < b
    ensures DaysBeforeMonth(y, a) + MonthLength(y, a) <= DaysBeforeMonth(y, b)
  {
    if a + 1 < b {
      MonthsAdd(y, a, b - 1);
    }
  }

  lemma TwelveMonths(y: nat)
    ensures DaysBeforeMonth(y, 13) == YearLength(y)
  {
    assert DaysBeforeMonth(y, 2) == 31;
    assert DaysBeforeMonth(y, 3) == 31 + MonthLength(y, 2);
    assert DaysBeforeMonth(y, 5) == DaysBeforeMonth(y, 3) + 61;
    assert DaysBeforeMonth(y, 7) == DaysBeforeMonth(y, 5) + 61;
    assert DaysBeforeMonth(y, 9) == DaysBeforeMonth(y, 7) + 62;
    assert DaysBeforeMonth(y, 11) == DaysBeforeMonth(y, 9) + 61;
  }

  lemma DayWithinYear(c: Civil)
    requires Valid(c)
    ensures 0 <= DaysBeforeMonth(c.year, c.month) + c.day - 1 < YearLength(c.year)
  {
    MonthsAdd(c.year, c.month, 13);
    TwelveMonths(c.year);
  }

  lemma EarlierDayIsLess(a: Civil, b: Civil)
    requires Valid(a) && Valid(b) && EarlierDay(a, b)
    ensures DayNumber(a) < DayNumber(b)
  {
    if a.year < b.year {
      DayWithinYear(a);
      YearsAdd(a.year, b.year);
    } else if a.month < b.month {
      MonthsAdd(a.year, a.month, b.month);
    }
  }

  lemma InDayOrder(a: Civil, b: Civil)
    requires Valid(a) && Valid(b)
    ensures SecondOfDay(a) < 86400 && (SecondOfDay(a) < SecondOfDay(b) <==> EarlierInDay(a, b))
  {
  }

  lemma InstantOrder(a: Civil, b: Civil)
    requires Valid(a) && Valid(b)
    ensures Instant(a) < Instant(b) <==> EarlierDay(a, b) || (SameDay(a, b) && EarlierInDay(a, b))
  {
    InDayOrder(a, b);
    InDayOrder(b, a);
    if EarlierDay(a, b) {
      EarlierDayIsLess(a, b);
    } else if EarlierDay(b, a) {
      EarlierDayIsLess(b, a);
    }
  }

  /** RESULT: comparing two timestamps as text compares the instants they name. */
  lemma TextOrderIsTimeOrder(a: Civil, b: Civil)
    requires Valid(a) && Valid(b)
    ensures Less(Format(a), Format(b)) <==> Instant(a) < Instant(b)
    ensures Format(a) == Format(b) <==> Instant(a) == Instant(b)
  {
    FormatOrder(a, b);
    InstantOrder(a, b);
    FormatOrder(b, a);
    InstantOrder(b, a);
    LessTotal(Format(a), Format(b));
    LessIrreflexive(Format(a));
  }

  // ----- the calendar and the layout, written out -----

  lemma {:induction false} DaysClosedForm(y: nat)
    requires y >= 1
    ensures DaysBeforeYear(y) == 365 * (y - 1) + (y - 1) / 4 - (y - 1) / 100 + (y - 1) / 400
    decreases y
  {
    if y > 1 {
      DaysClosedForm(y - 1);
      LeapStep(y - 1);
    }
  }

  lemma Quarters(y: nat)
    requires y >= 1
    ensures y / 4 == (y - 1) / 4 + (if y % 4 == 0 then 1 else 0)
  {
  }

  lemma Hundredths(y: nat)
    requires y >= 1
    ensures y / 100 == (y - 1) / 100 + (if y % 100 == 0 then 1 else 0)
  {
  }

  lemma FourHundredths(y: nat)
    requires y >= 1
    ensures y / 400 == (y - 1) / 400 + (if y % 400 == 0 then 1 else 0)
  {
  }

  lemma HundredTimes(k: nat)
    ensures 100 * k % 100 == 0
  {
  }

  lemma FourTimes(k: nat)
    ensures 4 * k % 4 == 0
  {
  }

  lemma Centuries(y: nat)
    requires y % 400 == 0
    ensures y % 100 == 0
  {
    HundredTimes(4 * (y / 400));
    assert y == 100 * (4 * (y / 400));
  }

  lemma FullCentury(y: nat)
    requires y % 100 == 0
    ensures y % 4 == 0
  {
    FourTimes(25 * (y / 100));
    assert y == 4 * (25 * (y / 100));
  }

  /** A leap day comes exactly in the years that add one to the count of leap years. */
  lemma LeapStep(y: nat)
    requires y >= 1
    ensures y / 4 - y / 100 + y / 400 == (y - 1) / 4 - (y - 1) / 100 + (y - 1) / 400 + (if Leap(y) then 1 else 0)
  {
    Quarters(y);
    Hundredths(y);
    FourHundredths(y);
    if y % 400 == 0 {
      Centuries(y);
    }
    if y % 100 == 0 {
      FullCentury(y);
    }
  }

  /** Days before each month of a common year. */
  const CUMULATIVE: seq<nat> := [0, 31, 59, 90, 120, 151, 181, 212, 243, 273, 304, 334]

  lemma MonthsWrittenOut(y: nat, m: nat)
    requires 1 <= m <= 12
    ensures DaysBeforeMonth(y, m) == CUMULATIVE[m - 1] + (if Leap(y) && m > 2 then 1 else 0)
  {
    assert DaysBeforeMonth(y, 2) == 31;
    assert DaysBeforeMonth(y, 3) == 31 + MonthLength(y, 2);
    assert DaysBeforeMonth(y, 4) == DaysBeforeMonth(y, 3) + 31;
    assert DaysBeforeMonth(y, 5) == DaysBeforeMonth(y, 4) + 30;
    assert DaysBeforeMonth(y, 6) == DaysBeforeMonth(y, 5) + 31;
    assert DaysBeforeMonth(y, 7) == DaysBeforeMonth(y, 6) + 30;
    assert DaysBeforeMonth(y, 8) == DaysBeforeMonth(y, 7) + 31;
    assert DaysBeforeMonth(y, 9) == DaysBeforeMonth(y, 8) + 31;
    assert DaysBeforeMonth(y, 10) == DaysBeforeMonth(y, 9) + 30;
    assert DaysBeforeMonth(y, 11) == DaysBeforeMonth(y, 10) + 31;
    assert DaysBeforeMonth(y, 12) == DaysBeforeMonth(y, 11) + 30;
  }

  lemma DayNumberIs(c: Civil)
    requires Valid(c)
    ensures
      var past := c.year - 1;
      DayNumber(c) == 365 * past + past / 4 - past / 100 + past / 400 + CUMULATIVE[c.month - 1]
                    + (if Leap(c.year) && c.month > 2 then 1 else 0) + c.day - 1
  {
    DaysClosedForm(c.year);
    MonthsWrittenOut(c.year, c.month);
  }

  /** The seconds since the start of year 1 of the Gregorian calendar, in closed form. */
  lemma InstantClosedForm(c: Civil)
    requires Valid(c)
    ensures
      var past := c.year - 1;
      var leap := c.year % 400 == 0 || (c.year % 4 == 0 && c.year % 100 != 0);
      var days := 365 * past + past / 4 - past / 100 + past / 400 + CUMULATIVE[c.month - 1]
                    + (if leap && c.month > 2 then 1 else 0) + c.day - 1;
      Instant(c) == days * 86400 + c.hour * 3600 + c.minute * 60 + c.second
  {
    DayNumberIs(c);
    GregorianLeap(c.year);
    var days := DayNumber(c);
    assert Instant(c) == days * 86400 + c.hour * 3600 + c.minute * 60 + c.second;
  }

  lemma GregorianLeap(y: nat)
    ensures Leap(y) <==> y % 400 == 0 || (y % 4 == 0 && y % 100 != 0)
  {
    if y % 400 == 0 {
      Centuries(y);
      FullCentury(y);
    }
  }

  /** YYYY-MM-DDTHH:MM:SSZ */
  lemma FormatLayout(c: Civil)
    requires Valid(c)
    ensures
      var s := Format(c);
      && |s| == 20 && s[4] == '-' && s[7] == '-' && s[10] == 'T' && s[13] == ':' && s[16] == ':' && s[19] == 'Z'
      && s[..4] == Pad4(c.year) && s[5..7] == Pad2(c.month) && s[8..10] == Pad2(c.day)
      && s[11..13] == Pad2(c.hour) && s[14..16] == Pad2(c.minute) && s[17..19] == Pad2(c.second)
  {
  }

  /** Zero-padded digits. */
  lemma PaddedDigits(n: nat)
    ensures n < 100 ==> Pad2(n) == ["0123456789"[n / 10], "0123456789"[n % 10]]
    ensures n < 10000 ==> Pad4(n) == Pad2(n / 100) + Pad2(n % 100)
  {
    assert forall d: nat :: d < 10 ==> DigitChar(d) == "0123456789"[d];
  }

  const FIRST_DAY_AFTER := DaysBeforeYear(10000)

  /** The last year from lo on whose days before it do not exceed day. */
  function YearOf(day: nat, lo: nat, hi: nat): (y: nat)
    requires 1 <= lo < hi && DaysBeforeYear(lo) <= day < DaysBeforeYear(hi)
    ensures lo <= y < hi && DaysBeforeYear(y) <= day < DaysBeforeYear(y) + YearLength(y)
    decreases hi - lo
  {
    if day < DaysBeforeYear(lo) + YearLength(lo) then lo
    else
      assert DaysBeforeYear(lo + 1) == DaysBeforeYear(lo) + YearLength(lo);
      YearOf(day, lo + 1, hi)
  }

  function MonthOf(y: nat, day: nat, lo: nat): (m: nat)
    requires 1 <= lo <= 12 && DaysBeforeMonth(y, lo) <= day < DaysBeforeMonth(y, 13)
    ensures lo <= m <= 12 && DaysBeforeMonth(y, m) <= day < DaysBeforeMonth(y, m) + MonthLength(y, m)
    decreases 12 - lo
  {
    if day < DaysBeforeMonth(y, lo) + MonthLength(y, lo) then lo
    else
      assert DaysBeforeMonth(y, lo + 1) == DaysBeforeMonth(y, lo) + MonthLength(y, lo);
      MonthOf(y, day, lo + 1)
  }

  lemma ClockReading(second: nat)
    requires second < 86400
    ensures second / 3600 < 24 && (second / 3600 * 60 + second / 60 % 60) * 60 + second % 60 == second
  {
    assert second / 3600 == second / 60 / 60;
  }

  function DateOf(day: nat): (c: Civil)
    requires day < FIRST_DAY_AFTER
    ensures Valid(c) && DayNumber(c) == day && SecondOfDay(c) == 0
  {
    var y := YearOf(day, 1, 10000);
    var inYear := day - DaysBeforeYear(y);
    TwelveMonths(y);
    var m := MonthOf(y, inYear, 1);
    Civil(y, m, inYear - DaysBeforeMonth(y, m) + 1, 0, 0, 0)
  }

  /** The calendar reading of an instant. */
  function CivilOf(t: nat): (c: Civil)
    requires t < FIRST_DAY_AFTER * 86400
    ensures Valid(c) && Instant(c) == t
  {
    var day, second := t / 86400, t % 86400;
    ClockReading(second);
    DateOf(day).(hour := second / 3600, minute := second / 60 % 60, second := second % 60)
  }

  /** Every instant of the four-digit years has exactly one timestamp, so whole-second instants can stand for the
      text. */
  lemma TimestampsAreInstants(c: Civil)
    requires Valid(c)
    ensures 0 <= Instant(c) < FIRST_DAY_AFTER * 86400 && CivilOf(Instant(c)) == c
  {
    DayWithinYear(c);
    YearsAdd(c.year, 10000);
    InDayOrder(c, c);
    InstantOrder(c, CivilOf(Instant(c)));
    InstantOrder(CivilOf(Instant(c)), c);
  }
}
