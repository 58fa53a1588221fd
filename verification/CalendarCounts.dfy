/**
 The calendar in closed form, and the timestamp text digit by digit.
 */
module CalendarCounts {
  import opened Calendar

  /** Days from 1 January 1970 to 1 January of a year: 365 a year, one more for each leap day between. */
  function YearStart(y: int): int {
    365 * (y - 1970) + (y - 1969) / 4 - (y - 1901) / 100 + (y - 1601) / 400
  }

  /** A leap day passes every four years, but not every hundred, but every four hundred. */
  lemma LeapDays(y: int)
    requires y >= 1970
    ensures YearStart(y + 1) - YearStart(y) ==
      365 + (if y % 4 == 0 then 1 else 0) - (if y % 100 == 0 then 1 else 0) + (if y % 400 == 0 then 1 else 0)
  {
    StepOf(y - 1969, 4);
    StepOf(y - 1901, 100);
    StepOf(y - 1601, 400);
  }

  lemma StepOf(x: int, n: int)
    requires n in {4, 100, 400} && x >= 1
    ensures (x + 1) / n - x / n == if (x + 1) % n == 0 then 1 else 0
  {}

  lemma {:induction false} DaysBeforeYearIs(y: nat)
    requires y >= 1970
    ensures DaysBeforeYear(y) == YearStart(y)
  {
    hide YearStart;
    if y > 1970 {
      DaysBeforeYearIs(y - 1);
      LeapDays(y - 1);
      HundredsAndFours(y - 1);
    } else {
      assert YearStart(1970) == 0 by { FirstYear(); }
    }
  }

  lemma FirstYear()
    ensures YearStart(1970) == 0
  {}

  lemma Multiple(n: nat, k: nat, y: nat)
    requires n in {4, 100} && y == n * k
    ensures y % n == 0
  {}

  lemma HundredsAndFours(y: nat)
    ensures (y % 400 == 0 ==> y % 100 == 0) && (y % 100 == 0 ==> y % 4 == 0)
  {
    if y % 100 == 0 {
      Multiple(4, 25 * (y / 100), y);
    }
    if y % 400 == 0 {
      Multiple(100, 4 * (y / 400), y);
    }
  }

  /** Days from 1 January to the first of a month. */
  function MonthStart(leap: bool, month: int): int {
    (367 * month - 362) / 12 - if month <= 2 then 0 else if leap then 1 else 2
  }

  lemma MonthLengthIs(leap: bool, month: nat)
    requires 1 <= month <= 12
    ensures MonthLengths(leap)[month - 1] ==
      if month == 12 then 31 else MonthStart(leap, month + 1) - MonthStart(leap, month)
  {}

  lemma {:induction false} DaysBeforeMonthIs(leap: bool, month: nat)
    requires 1 <= month <= 12
    ensures DaysBeforeMonth(MonthLengths(leap), month - 1) == MonthStart(leap, month)
  {
    hide MonthStart, MonthLengths;
    if month > 1 {
      DaysBeforeMonthIs(leap, month - 1);
      MonthLengthIs(leap, month - 1);
    } else {
      assert MonthStart(leap, 1) == 0 by { FirstMonth(leap); }
    }
  }

  lemma FirstMonth(leap: bool)
    ensures MonthStart(leap, 1) == 0
  {}

  predicate LeapYear(y: int) {
    y % 4 == 0 && (y % 100 == 0 ==> y % 400 == 0)
  }

  /** The day count of a date, as a formula in its year, month and day. */
  function DayCount(y: int, m: int, d: int): int {
    YearStart(y) + MonthStart(LeapYear(y), m) + d - 1
  }

  /** A date: its day count is before that of the first of the next month. */
  predicate IsDate(y: int, m: int, d: int) {
    && y >= 1970 && 1 <= m <= 12 && d >= 1
    && if m == 12 then DayCount(y, 12, d) < DayCount(y + 1, 1, 1) else DayCount(y, m, d) < DayCount(y, m + 1, 1)
  }

  lemma DayNumberIsCount(y: nat, m: nat, d: nat)
    ensures Valid(Date(y, m, d)) <==> IsDate(y, m, d)
    ensures Valid(Date(y, m, d)) ==> DayNumber(Date(y, m, d)) == DayCount(y, m, d)
  {
    hide YearStart, MonthStart, DaysBeforeYear, DaysBeforeMonth, MonthLengths;
    if y >= 1970 && 1 <= m <= 12 {
      DaysBeforeYearIs(y);
      DaysBeforeMonthIs(LeapYear(y), m);
      MonthLengthIs(LeapYear(y), m);
      LastMonth(y);
    }
  }

  lemma LastMonth(y: nat)
    requires y >= 1970
    ensures YearStart(y + 1) + MonthStart(LeapYear(y + 1), 1) == YearStart(y) + MonthStart(LeapYear(y), 12) + 31
  {
    hide YearStart;
    LeapDays(y);
    HundredsAndFours(y);
  }

  // ---- the text ----

  /** The two decimal digits of a number below a hundred. */
  predicate TwoDigits(s: string, i: nat, x: int)
    requires i + 1 < |s|
  {
    && 0 <= x < 100
    && s[i] as int == 48 + x / 10 && s[i + 1] as int == 48 + x % 10
  }

  /** `2026-01-31T12:00:00Z`: four digits and five times two. */
  predicate Spells(s: string, y: int, m: int, d: int, h: int, min: int, sec: int) {
    && |s| == 20
    && TwoDigits(s, 0, y / 100) && TwoDigits(s, 2, y % 100)
    && s[4] == '-' && TwoDigits(s, 5, m) && s[7] == '-' && TwoDigits(s, 8, d)
    && s[10] == 'T' && TwoDigits(s, 11, h) && s[13] == ':' && TwoDigits(s, 14, min) && s[16] == ':'
    && TwoDigits(s, 17, sec) && s[19] == 'Z'
  }

  lemma TwoPadded(n: nat)
    requires n < 100
    ensures |Padded(n, 2)| == 2 && TwoDigits(Padded(n, 2), 0, n)
  {
    if n < 10 {
      assert Decimal(n) == [DigitChar(n)];
      assert Padded(n, 2) == ['0', DigitChar(n)];
    } else {
      assert Decimal(n) == [DigitChar(n / 10)] + [DigitChar(n % 10)];
    }
  }

  lemma ThreeDecimal(n: nat)
    requires 100 <= n < 1000
    ensures Decimal(n) == [DigitChar(n / 100), DigitChar(n / 10 % 10), DigitChar(n % 10)]
  {
    assert Decimal(n / 10) == [DigitChar(n / 10 / 10)] + [DigitChar(n / 10 % 10)];
  }

  lemma Places(n: nat, a: nat, b: nat, c: nat, d: nat)
    requires a < 10 && b < 10 && c < 10 && d < 10 && n == 1000 * a + 100 * b + 10 * c + d
    ensures n / 100 == 10 * a + b && n % 100 == 10 * c + d && n / 10 == 100 * a + 10 * b + c && n % 10 == d
  {}

  lemma FourDecimal(n: nat, a: nat, b: nat, c: nat, d: nat)
    requires 1 <= a < 10 && b < 10 && c < 10 && d < 10 && n == 1000 * a + 100 * b + 10 * c + d
    ensures Decimal(n) == [DigitChar(a), DigitChar(b), DigitChar(c), DigitChar(d)]
  {
    Places(n, a, b, c, d);
    Places(n / 10, 0, a, b, c);
    ThreeDecimal(n / 10);
  }

  lemma FourPadded(n: nat)
    requires 1000 <= n < 10000
    ensures |Padded(n, 4)| == 4 && TwoDigits(Padded(n, 4), 0, n / 100) && TwoDigits(Padded(n, 4), 2, n % 100)
  {
    hide Decimal;
    var a, b, c, d := n / 1000, n % 1000 / 100, n % 100 / 10, n % 10;
    Split(n);
    FourDecimal(n, a, b, c, d);
    Places(n, a, b, c, d);
  }

  lemma Split(n: nat)
    requires n < 10000
    ensures var (a, b, c, d) := (n / 1000, n % 1000 / 100, n % 100 / 10, n % 10);
      a < 10 && b < 10 && c < 10 && d < 10 && n == 1000 * a + 100 * b + 10 * c + d
  {
    var a, r := n / 1000, n % 1000;
    var b, s := r / 100, r % 100;
    Places(n, a, b, s / 10, s % 10);
  }

  lemma TwoMove(s: string, i: nat, t: string, j: nat, x: int)
    requires i + 1 < |s| && j + 1 < |t| && s[i] == t[j] && s[i + 1] == t[j + 1] && TwoDigits(s, i, x)
    ensures TwoDigits(t, j, x)
  {}

  lemma FormatSpells(s: Stamp)
    requires 1000 <= s.date.year < 10000 && s.date.month < 100 && s.date.day < 100
    requires s.hour < 100 && s.minute < 100 && s.second < 100
    ensures Spells(Format(s), s.date.year, s.date.month, s.date.day, s.hour, s.minute, s.second)
  {
    hide Padded, TwoDigits;
    FourPadded(s.date.year);
    TwoPadded(s.date.month);
    TwoPadded(s.date.day);
    TwoPadded(s.hour);
    TwoPadded(s.minute);
    TwoPadded(s.second);
    var year, month, day := Padded(s.date.year, 4), Padded(s.date.month, 2), Padded(s.date.day, 2);
    var hour, minute, second := Padded(s.hour, 2), Padded(s.minute, 2), Padded(s.second, 2);
    var t := Format(s);
    TwoMove(year, 0, t, 0, s.date.year / 100);
    TwoMove(year, 2, t, 2, s.date.year % 100);
    TwoMove(month, 0, t, 5, s.date.month);
    TwoMove(day, 0, t, 8, s.date.day);
    TwoMove(hour, 0, t, 11, s.hour);
    TwoMove(minute, 0, t, 14, s.minute);
    TwoMove(second, 0, t, 17, s.second);
  }

  /** Through 9999 the text spells the one date and time whose seconds since 1970 are the count. */
  lemma TextSpellsTheSecond(s: Stamp, secs: nat)
    requires StampOf(s, secs) && s.date.year < 10000
    ensures var (y, m, d) := (s.date.year, s.date.month, s.date.day);
      && IsDate(y, m, d) && s.hour < 24 && s.minute < 60 && s.second < 60
      && secs == 86400 * DayCount(y, m, d) + 3600 * s.hour + 60 * s.minute + s.second
      && Spells(Format(s), y, m, d, s.hour, s.minute, s.second)
  {
    hide DayNumber, Valid, IsDate, DayCount, Spells, Format;
    ValidStamp(s, secs);
    TimeOfDay(secs);
    DayNumberIsCount(s.date.year, s.date.month, s.date.day);
    Sizes(s.date.year, s.date.month, s.date.day);
    FormatSpells(s);
  }

  lemma Sizes(y: nat, m: nat, d: nat)
    requires Valid(Date(y, m, d))
    ensures y >= 1970 && m <= 12 && d <= 31
  {}
}
