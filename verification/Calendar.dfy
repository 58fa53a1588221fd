/**
 The timestamp of feedback records (crates/feedback/src/lib.rs): seconds since the
 Unix epoch as an RFC 3339 string.
 */
module Calendar {
  // Whole years and then whole months are counted off the day number. Leap seconds do not exist in Unix time.

  import opened Ordering
  import opened Snapshots

  predicate IsLeap(y: nat) {
    y % 4 == 0 && (y % 100 != 0 || y % 400 == 0)
  }

  function YearLength(y: nat): (n: nat)
    ensures 365 <= n <= 366
  {
    if IsLeap(y) then 366 else 365
  }

  function MonthLengths(leap: bool): (m: seq<nat>)
    ensures |m| == 12 && forall i :: 0 <= i < 12 ==> 28 <= m[i] <= 31
  {
    [31, if leap then 29 else 28, 31, 30, 31, 30, 31, 31, 30, 31, 30, 31]
  }

  // ---- an independent count of days ----

  /** Days from 1 January 1970 to 1 January of the year. */
  function DaysBeforeYear(y: nat): nat
    requires y >= 1970
  {
    if y == 1970 then 0 else DaysBeforeYear(y - 1) + YearLength(y - 1)
  }

  function DaysBeforeMonth(lengths: seq<nat>, m: nat): nat
    requires m <= |lengths|
  {
    if m == 0 then 0 else DaysBeforeMonth(lengths, m - 1) + lengths[m - 1]
  }

  /** A date of the Gregorian calendar from 1970 on; months and days count from one. */
  datatype Date = Date(year: nat, month: nat, day: nat)

  predicate Valid(d: Date) {
    && d.year >= 1970
    && 1 <= d.month <= 12
    && 1 <= d.day <= MonthLengths(IsLeap(d.year))[d.month - 1]
  }

  /** Days since 1 January 1970. */
  function DayNumber(d: Date): nat
    requires Valid(d)
  {
    DaysBeforeYear(d.year) + DaysBeforeMonth(MonthLengths(IsLeap(d.year)), d.month - 1) + (d.day - 1)
  }

  lemma MonthsMakeAYear(leap: bool)
    ensures DaysBeforeMonth(MonthLengths(leap), 12) == if leap then 366 else 365
  {
    var m := MonthLengths(leap);
    assert DaysBeforeMonth(m, 1) == m[0];
    assert DaysBeforeMonth(m, 2) == DaysBeforeMonth(m, 1) + m[1];
    assert DaysBeforeMonth(m, 4) == DaysBeforeMonth(m, 2) + m[2] + m[3];
    assert DaysBeforeMonth(m, 6) == DaysBeforeMonth(m, 4) + m[4] + m[5];
    assert DaysBeforeMonth(m, 8) == DaysBeforeMonth(m, 6) + m[6] + m[7];
    assert DaysBeforeMonth(m, 10) == DaysBeforeMonth(m, 8) + m[8] + m[9];
    assert DaysBeforeMonth(m, 12) == DaysBeforeMonth(m, 10) + m[10] + m[11];
  }

  lemma {:induction false} MonthsAdd(lengths: seq<nat>, m: nat, n: nat)
    requires m <= n <= |lengths|
    ensures DaysBeforeMonth(lengths, m) <= DaysBeforeMonth(lengths, n)
    ensures m < n ==> DaysBeforeMonth(lengths, m) + lengths[m] <= DaysBeforeMonth(lengths, n)
  {
    if m < n {
      MonthsAdd(lengths, m, n - 1);
    }
  }

  /** The loops of the conversion: they terminate, never run past December, and end on the date with that day number. */
  method FromDays(days: nat) returns (d: Date)
    ensures Valid(d) && DayNumber(d) == days
  {
    var y, rem := 1970, days;
    while true
      invariant y >= 1970 && DaysBeforeYear(y) + rem == days
      decreases rem
    {
      var leap := if IsLeap(y) then 1 else 0;
      var len := 365 + leap;
      if rem < len {
        break;
      }
      rem := rem - len;
      y := y + 1;
    }
    var months := MonthLengths(IsLeap(y));
    MonthsMakeAYear(IsLeap(y));
    var m := 0;
    while rem >= months[m]
      invariant m < 12
      invariant DaysBeforeYear(y) + DaysBeforeMonth(months, m) + rem == days
      invariant DaysBeforeMonth(months, m) + rem < YearLength(y)
      decreases rem
    {
      MonthsAdd(months, m + 1, 12);
      rem := rem - months[m];
      m := m + 1;
    }
    d := Date(y, m + 1, rem + 1);
  }

  // ---- the calendar is in order ----

  predicate Before(a: Date, b: Date) {
    a.year < b.year || (a.year == b.year && (a.month < b.month || (a.month == b.month && a.day < b.day)))
  }

  lemma {:induction false} YearsAdd(y: nat, z: nat)
    requires 1970 <= y < z
    ensures DaysBeforeYear(y) + YearLength(y) <= DaysBeforeYear(z)
  {
    if y < z - 1 {
      YearsAdd(y, z - 1);
    }
  }

  /** A date falls within its year. */
  lemma WithinYear(d: Date)
    requires Valid(d)
    ensures DaysBeforeYear(d.year) <= DayNumber(d) < DaysBeforeYear(d.year) + YearLength(d.year)
  {
    MonthsMakeAYear(IsLeap(d.year));
    MonthsAdd(MonthLengths(IsLeap(d.year)), d.month - 1, 12);
  }

  /** Day numbers are in calendar order, so every day number has one date. */
  lemma DayNumbersAreInOrder(a: Date, b: Date)
    requires Valid(a) && Valid(b)
    ensures Before(a, b) <==> DayNumber(a) < DayNumber(b)
    ensures a == b <==> DayNumber(a) == DayNumber(b)
  {
    OrderedDays(a, b);
    OrderedDays(b, a);
  }

  lemma OrderedDays(a: Date, b: Date)
    requires Valid(a) && Valid(b)
    ensures Before(a, b) ==> DayNumber(a) < DayNumber(b)
  {
    WithinYear(a);
    WithinYear(b);
    if a.year < b.year {
      YearsAdd(a.year, b.year);
    } else if a.year == b.year && a.month < b.month {
      MonthsAdd(MonthLengths(IsLeap(a.year)), a.month - 1, b.month - 1);
    }
  }

  // ---- the timestamp ----

  datatype Stamp = Stamp(date: Date, hour: nat, minute: nat, second: nat)

  /** What the timestamp of a second count has to be. */
  predicate StampOf(s: Stamp, secs: nat) {
    && Valid(s.date) && DayNumber(s.date) == secs / 86400
    && s.hour == secs / 3600 % 24 && s.minute == secs / 60 % 60 && s.second == secs % 60
  }

  function DigitChar(x: nat): char
    requires x < 10
  {
    '0' + x as char
  }

  /** Decimal digits without padding. */
  function Decimal(n: nat): (s: string)
    ensures s != ""
  {
    if n < 10 then [DigitChar(n)] else Decimal(n / 10) + [DigitChar(n % 10)]
  }

  function Zeros(n: nat): string {
    seq(n, _ => '0')
  }

  /** At least `width` digits, padded with zeros. */
  function Padded(n: nat, width: nat): string {
    var s := Decimal(n);
    if |s| >= width then s else Zeros(width - |s|) + s
  }

  function Format(s: Stamp): string {
    Padded(s.date.year, 4) + ("-" + (Padded(s.date.month, 2) + ("-" + (Padded(s.date.day, 2) + ("T" +
    (Padded(s.hour, 2) + (":" + (Padded(s.minute, 2) + (":" + (Padded(s.second, 2) + "Z"))))))))))
  }

  method Rfc3339(secs: u64) returns (text: string)
    ensures exists s :: StampOf(s, secs) && text == Format(s)
  {
    var date := FromDays(secs / 86400);
    var stamp := Stamp(date, secs / 3600 % 24, secs / 60 % 60, secs % 60);
    assert StampOf(stamp, secs);
    text := Format(stamp);
  }

  predicate Earlier(a: Stamp, b: Stamp) {
    || Before(a.date, b.date)
    || (a.date == b.date && a.hour < b.hour)
    || (a.date == b.date && a.hour == b.hour && a.minute < b.minute)
    || (a.date == b.date && a.hour == b.hour && a.minute == b.minute && a.second < b.second)
  }

  lemma TimeOfDay(t: nat)
    ensures t == t / 86400 * 86400 + t / 3600 % 24 * 3600 + t / 60 % 60 * 60 + t % 60
  {
    assert t / 60 == t / 3600 * 60 + t / 60 % 60 by { assert t / 60 / 60 == t / 3600; }
    assert t / 3600 == t / 86400 * 24 + t / 3600 % 24 by { assert t / 3600 / 24 == t / 86400; }
  }

  /** Timestamps are in the order of their second counts, and one second count has one timestamp. */
  lemma StampsAreInOrder(a: Stamp, b: Stamp, s: nat, t: nat)
    requires StampOf(a, s) && StampOf(b, t)
    ensures Earlier(a, b) <==> s < t
    ensures a == b <==> s == t
  {
    hide DayNumber, Valid;
    ValidStamp(a, s);
    ValidStamp(b, t);
    DayNumbersAreInOrder(a.date, b.date);
    TimeOfDay(s);
    TimeOfDay(t);
  }

  lemma ValidStamp(a: Stamp, s: nat)
    requires StampOf(a, s)
    ensures Valid(a.date) && DayNumber(a.date) == s / 86400
    ensures a.hour < 24 && a.minute < 60 && a.second < 60
  {}

  // ---- reading a timestamp back ----

  function CharDigit(c: char): nat {
    if '0' <= c <= '9' then c as int - '0' as int else 0
  }

  function ParseDecimal(s: string): nat {
    if s == "" then 0 else ParseDecimal(s[..|s| - 1]) * 10 + CharDigit(s[|s| - 1])
  }

  lemma {:induction false} ParsesBack(n: nat)
    ensures ParseDecimal(Decimal(n)) == n
  {
    if n < 10 {
      assert Decimal(n)[..0] == "" && CharDigit(DigitChar(n)) == n;
    } else {
      ParsesBack(n / 10);
      var s := Decimal(n);
      assert s == Decimal(n / 10) + [DigitChar(n % 10)];
      assert s[..|s| - 1] == Decimal(n / 10) && CharDigit(DigitChar(n % 10)) == n % 10;
    }
  }

  lemma {:induction false} ZerosCountNothing(k: nat, s: string)
    ensures ParseDecimal(Zeros(k) + s) == ParseDecimal(s)
    decreases |s|, k
  {
    if s != "" {
      ZerosCountNothing(k, s[..|s| - 1]);
      assert (Zeros(k) + s)[..k + |s| - 1] == Zeros(k) + s[..|s| - 1];
    } else if k > 0 {
      ZerosCountNothing(k - 1, "");
      assert Zeros(k) + "" == Zeros(k) && Zeros(k - 1) + "" == Zeros(k - 1);
      assert Zeros(k)[..k - 1] == Zeros(k - 1);
    }
  }

  /** A padded number reads back as itself. */
  lemma PaddedReadsBack(n: nat, width: nat)
    ensures ParseDecimal(Padded(n, width)) == n
  {
    ParsesBack(n);
    if |Decimal(n)| < width {
      ZerosCountNothing(width - |Decimal(n)|, Decimal(n));
    }
  }

  lemma FieldReadsBack(m: nat, n: nat, width: nat, x: string, y: string)
    requires |x| == |y| && Padded(m, width) + x == Padded(n, width) + y
    ensures m == n && x == y
  {
    var a, b := Padded(m, width), Padded(n, width);
    assert |a| == |b|;
    assert (a + x)[..|a|] == a && (b + y)[..|b|] == b && (a + x)[|a|..] == x && (b + y)[|b|..] == y;
    PaddedReadsBack(m, width);
    PaddedReadsBack(n, width);
  }

  lemma MarkReadsBack(mark: string, x: string, y: string)
    requires mark + x == mark + y
    ensures x == y
  {
    assert (mark + x)[|mark|..] == x && (mark + y)[|mark|..] == y;
  }

  lemma TwoWide(n: nat)
    requires n < 100
    ensures |Padded(n, 2)| == 2
  {
    if n >= 10 {
      assert Decimal(n) == [DigitChar(n / 10)] + [DigitChar(n % 10)];
    }
  }

  /** Two timestamps written alike are the same, in every year; so seconds are written injectively. */
  lemma TextIsInjective(a: Stamp, b: Stamp, s: nat, t: nat)
    requires StampOf(a, s) && StampOf(b, t)
    ensures Format(a) == Format(b) <==> s == t
  {
    hide DayNumber, Valid;
    StampsAreInOrder(a, b, s, t);
    if Format(a) == Format(b) {
      TextDeterminesStamp(a, b, s, t);
    }
  }

  lemma TextDeterminesStamp(a: Stamp, b: Stamp, s: nat, t: nat)
    requires StampOf(a, s) && StampOf(b, t) && Format(a) == Format(b)
    ensures a == b
  {
    hide DayNumber, Padded, Decimal;
    SmallFields(a, s);
    SmallFields(b, t);
    var c, d := Padded(a.second, 2) + "Z", Padded(b.second, 2) + "Z";
    var e, f := Padded(a.minute, 2) + (":" + c), Padded(b.minute, 2) + (":" + d);
    var g, h := Padded(a.hour, 2) + (":" + e), Padded(b.hour, 2) + (":" + f);
    var i, j := Padded(a.date.day, 2) + ("T" + g), Padded(b.date.day, 2) + ("T" + h);
    var k, l := Padded(a.date.month, 2) + ("-" + i), Padded(b.date.month, 2) + ("-" + j);
    FieldReadsBack(a.date.year, b.date.year, 4, "-" + k, "-" + l);
    MarkReadsBack("-", k, l);
    FieldReadsBack(a.date.month, b.date.month, 2, "-" + i, "-" + j);
    MarkReadsBack("-", i, j);
    FieldReadsBack(a.date.day, b.date.day, 2, "T" + g, "T" + h);
    MarkReadsBack("T", g, h);
    FieldReadsBack(a.hour, b.hour, 2, ":" + e, ":" + f);
    MarkReadsBack(":", e, f);
    FieldReadsBack(a.minute, b.minute, 2, ":" + c, ":" + d);
    MarkReadsBack(":", c, d);
    FieldReadsBack(a.second, b.second, 2, "Z", "Z");
  }

  lemma SmallFields(a: Stamp, s: nat)
    requires StampOf(a, s)
    ensures |Padded(a.date.month, 2)| == |Padded(a.date.day, 2)| == |Padded(a.hour, 2)| == |Padded(a.minute, 2)|
            == |Padded(a.second, 2)| == 2
  {
    hide DayNumber, Padded, Decimal;
    TwoWide(a.date.month);
    TwoWide(a.date.day);
    TwoWide(a.hour);
    TwoWide(a.minute);
    TwoWide(a.second);
  }

  // ---- text order ----

  lemma {:induction false} StrLtAppend(a: string, b: string, x: string, y: string)
    requires |a| == |b|
    ensures StrLt(a + x, b + y) <==> StrLt(a, b) || (a == b && StrLt(x, y))
  {
    if a == "" {
      assert a + x == x && b + y == y;
    } else {
      StrLtAppend(a[1..], b[1..], x, y);
      assert (a + x)[1..] == a[1..] + x && (b + y)[1..] == b[1..] + y;
      StrLtFront(a, b);
      StrLtFront(a + x, b + y);
    }
  }

  lemma StrLtFront(a: string, b: string)
    requires a != "" && b != ""
    ensures StrLt(a, b) <==> a[0] < b[0] || (a[0] == b[0] && StrLt(a[1..], b[1..]))
    ensures a == b <==> a[0] == b[0] && a[1..] == b[1..]
  {
    assert a == [a[0]] + a[1..] && b == [b[0]] + b[1..];
  }

  /** The `width` decimal digits of a number below ten to the `width`. */
  function Fixed(n: nat, width: nat): (s: string)
    ensures |s| == width
  {
    if width == 0 then "" else Fixed(n / 10, width - 1) + [DigitChar(n % 10)]
  }

  function Pow10(k: nat): (p: nat)
    ensures p > 0
  {
    if k == 0 then 1 else 10 * Pow10(k - 1)
  }

  lemma {:induction false} FixedInOrder(m: nat, n: nat, width: nat)
    requires m < Pow10(width) && n < Pow10(width)
    ensures StrLt(Fixed(m, width), Fixed(n, width)) <==> m < n
    ensures Fixed(m, width) == Fixed(n, width) <==> m == n
  {
    if width > 0 {
      FixedInOrder(m / 10, n / 10, width - 1);
      var a, b := Fixed(m / 10, width - 1), Fixed(n / 10, width - 1);
      var x, y := DigitChar(m % 10), DigitChar(n % 10);
      StrLtAppend(a, b, [x], [y]);
      StrLtFront([x], [y]);
      assert a + [x] == b + [y] <==> a == b && x == y by {
        assert (a + [x])[..|a|] == a && (b + [y])[..|b|] == b && (a + [x])[|a|] == x && (b + [y])[|b|] == y;
      }
    }
  }

  lemma {:induction false} PaddedIsFixed(n: nat, width: nat)
    requires n < Pow10(width) && width > 0
    ensures Padded(n, width) == Fixed(n, width)
    ensures |Decimal(n)| <= width
  {
    if n < 10 {
      ZeroFixed(width - 1);
      assert n / 10 == 0 && n % 10 == n;
      assert Padded(n, width) == Zeros(width - 1) + [DigitChar(n)];
    } else {
      PaddedIsFixed(n / 10, width - 1);
      var s := Decimal(n / 10);
      assert Decimal(n) == s + [DigitChar(n % 10)];
      assert Zeros(width - 1 - |s|) + (s + [DigitChar(n % 10)]) == (Zeros(width - 1 - |s|) + s) + [DigitChar(n % 10)];
      assert Zeros(0) + s == s;
    }
  }

  lemma {:induction false} ZeroFixed(width: nat)
    ensures Fixed(0, width) == Zeros(width)
  {
    if width > 0 {
      ZeroFixed(width - 1);
    }
  }

  /** Two numbers of equal width before two texts compare first. */
  lemma FieldFirst(m: nat, n: nat, width: nat, x: string, y: string)
    requires width > 0 && m < Pow10(width) && n < Pow10(width)
    ensures StrLt(Padded(m, width) + x, Padded(n, width) + y) <==> m < n || (m == n && StrLt(x, y))
  {
    PaddedIsFixed(m, width);
    PaddedIsFixed(n, width);
    FixedInOrder(m, n, width);
    StrLtAppend(Fixed(m, width), Fixed(n, width), x, y);
  }

  lemma MarkFirst(mark: string, x: string, y: string)
    ensures StrLt(mark + x, mark + y) <==> StrLt(x, y)
  {
    StrLtAppend(mark, mark, x, y);
  }

  lemma Powers()
    ensures Pow10(2) == 100 && Pow10(4) == 10000
  {
    assert Pow10(2) == 10 * Pow10(1);
  }

  function TimeText(s: Stamp): string {
    Padded(s.hour, 2) + (":" + (Padded(s.minute, 2) + (":" + (Padded(s.second, 2) + "Z"))))
  }

  lemma TimesSort(a: Stamp, b: Stamp)
    requires a.hour < 100 && a.minute < 100 && a.second < 100 && b.hour < 100 && b.minute < 100 && b.second < 100
    ensures StrLt(TimeText(a), TimeText(b)) <==>
      a.hour < b.hour || (a.hour == b.hour && (a.minute < b.minute || (a.minute == b.minute && a.second < b.second)))
  {
    hide StrLe, Padded;
    Powers();
    var s, t := Padded(a.second, 2) + "Z", Padded(b.second, 2) + "Z";
    FieldFirst(a.second, b.second, 2, "Z", "Z");
    MarkFirst(":", s, t);
    FieldFirst(a.minute, b.minute, 2, ":" + s, ":" + t);
    MarkFirst(":", Padded(a.minute, 2) + (":" + s), Padded(b.minute, 2) + (":" + t));
    FieldFirst(a.hour, b.hour, 2, ":" + (Padded(a.minute, 2) + (":" + s)), ":" + (Padded(b.minute, 2) + (":" + t)));
  }

  /** What follows the year. */
  function AfterYear(s: Stamp): string {
    "-" + (Padded(s.date.month, 2) + ("-" + (Padded(s.date.day, 2) + ("T" + TimeText(s)))))
  }

  /** Dates whose years are written with the same number of digits sort by date, then by what follows. */
  lemma DatesSort(a: Stamp, b: Stamp, width: nat)
    requires width > 0 && a.date.year < Pow10(width) && b.date.year < Pow10(width)
    requires a.date.month < 100 && b.date.month < 100 && a.date.day < 100 && b.date.day < 100
    ensures StrLt(Padded(a.date.year, width) + AfterYear(a), Padded(b.date.year, width) + AfterYear(b))
            <==> Before(a.date, b.date) || (a.date == b.date && StrLt(TimeText(a), TimeText(b)))
  {
    hide StrLe, Padded, TimeText;
    Powers();
    var x, y := TimeText(a), TimeText(b);
    MarkFirst("T", x, y);
    FieldFirst(a.date.day, b.date.day, 2, "T" + x, "T" + y);
    var d, e := Padded(a.date.day, 2) + ("T" + x), Padded(b.date.day, 2) + ("T" + y);
    MarkFirst("-", d, e);
    FieldFirst(a.date.month, b.date.month, 2, "-" + d, "-" + e);
    var m, n := Padded(a.date.month, 2) + ("-" + d), Padded(b.date.month, 2) + ("-" + e);
    MarkFirst("-", m, n);
    FieldFirst(a.date.year, b.date.year, width, "-" + m, "-" + n);
  }

  lemma SameWidthSorts(a: Stamp, b: Stamp, s: nat, t: nat, width: nat)
    requires StampOf(a, s) && StampOf(b, t) && width > 0 && a.date.year < Pow10(width) && b.date.year < Pow10(width)
    requires Padded(a.date.year, width) == Padded(a.date.year, 4)
            && Padded(b.date.year, width) == Padded(b.date.year, 4)
    ensures StrLt(Format(a), Format(b)) <==> s < t
  {
    hide DayNumber, StrLe, Padded;
    ValidStamp(a, s);
    ValidStamp(b, t);
    StampsAreInOrder(a, b, s, t);
    DatesSort(a, b, width);
    TimesSort(a, b);
  }

  /** Through the year 9999 timestamps sort as text in the order of their second counts. */
  lemma TextSortsChronologically(a: Stamp, b: Stamp, s: nat, t: nat)
    requires StampOf(a, s) && StampOf(b, t) && a.date.year < 10000 && b.date.year < 10000
    ensures StrLt(Format(a), Format(b)) <==> s < t
  {
    hide Format, StampOf, Padded;
    Powers();
    SameWidthSorts(a, b, s, t, 4);
  }

  // ---- years of any length ----

  /** The first `width` digits of a number. */
  function Leading(n: nat, width: nat): (m: nat)
    requires width > 0
    ensures m <= n && m < Pow10(width)
  {
    if n < Pow10(width) then n else Leading(n / 10, width)
  }

  lemma {:induction false} LongerThan(n: nat, k: nat)
    requires n >= Pow10(k)
    ensures |Decimal(n)| > k
  {
    if k > 0 {
      LongerThan(n / 10, k - 1);
    }
  }

  /** A number too long for the width is written as its leading digits and more digits. */
  lemma {:induction false} LeadingDigits(n: nat, width: nat) returns (rest: string)
    requires width > 0 && n >= Pow10(width)
    ensures Decimal(n) == Fixed(Leading(n, width), width) + rest && rest != "" && rest[0] >= '0'
  {
    var d := [DigitChar(n % 10)];
    assert Pow10(width) == 10 * Pow10(width - 1) && n >= 10;
    if n / 10 < Pow10(width) {
      LongerThan(n / 10, width - 1);
      PaddedIsFixed(n / 10, width);
      rest := d;
    } else {
      rest := LeadingDigits(n / 10, width);
      assert Fixed(Leading(n / 10, width), width) + rest + d == Fixed(Leading(n / 10, width), width) + (rest + d);
      rest := rest + d;
    }
  }

  /** The number of characters a year takes. */
  function YearWidth(y: nat): (w: nat)
    ensures w >= 4 && y < Pow10(w) && Padded(y, w) == Padded(y, 4)
  {
    Powers();
    BelowItsPower(y);
    if y < 10000 then PaddedIsFixed(y, 4); 4 else LongerThan(y, 4); |Decimal(y)|
  }

  lemma {:induction false} BelowItsPower(n: nat)
    ensures n < Pow10(|Decimal(n)|)
  {
    if n < 10 {
      assert Pow10(1) == 10 * Pow10(0);
    } else {
      BelowItsPower(n / 10);
    }
  }

  lemma LongerYearSorts(a: Stamp, b: Stamp)
    requires b.date.year >= Pow10(YearWidth(a.date.year))
    ensures StrLt(Format(a), Format(b)) <==> a.date.year <= Leading(b.date.year, YearWidth(a.date.year))
  {
    hide StrLe, Padded, Decimal, YearWidth, Fixed, Leading;
    var y, z, w := a.date.year, b.date.year, YearWidth(a.date.year);
    var rest := LeadingDigits(z, w);
    LongerThan(z, w);
    LongPadded(z);
    PaddedIsFixed(y, w);
    var lead := Fixed(Leading(z, w), w);
    assert Format(a) == Fixed(y, w) + AfterYear(a) && Format(b) == Decimal(z) + AfterYear(b);
    assert lead + rest + AfterYear(b) == lead + (rest + AfterYear(b));
    StrLtAppend(Fixed(y, w), lead, AfterYear(a), rest + AfterYear(b));
    FixedInOrder(y, Leading(z, w), w);
    StrLtFront(AfterYear(a), rest + AfterYear(b));
  }

  lemma LongPadded(n: nat)
    ensures |Decimal(n)| >= 4 ==> Padded(n, 4) == Decimal(n)
  {}

  /**
   In every year: the text of an earlier timestamp sorts first exactly when its year is no greater than the later
   year cut down to as many digits.
   */
  lemma TextOrderExactly(a: Stamp, b: Stamp, s: nat, t: nat)
    requires StampOf(a, s) && StampOf(b, t) && s < t
    ensures StrLt(Format(a), Format(b)) <==> a.date.year <= Leading(b.date.year, YearWidth(a.date.year))
  {
    hide Format, Padded, YearWidth, DayNumber;
    var w := YearWidth(a.date.year);
    ValidStamp(a, s);
    ValidStamp(b, t);
    StampsAreInOrder(a, b, s, t);
    if b.date.year < Pow10(w) {
      SameWidth(a.date.year, b.date.year);
      SameWidthSorts(a, b, s, t, w);
    } else {
      LongerYearSorts(a, b);
    }
  }

  lemma SameWidth(y: nat, z: nat)
    requires y <= z < Pow10(YearWidth(y))
    ensures Padded(z, YearWidth(y)) == Padded(z, 4)
  {
    hide Padded, Decimal;
    Powers();
    var w := YearWidth(y);
    PaddedIsFixed(z, w);
    if y >= 10000 {
      WideYear(y);
      LongerThan(z, w - 1);
      WideEnough(z, w);
    }
  }

  lemma WideYear(y: nat)
    requires y >= 10000
    ensures y >= Pow10(YearWidth(y) - 1)
  {
    Shortest(y);
  }

  lemma {:induction false} Shortest(n: nat)
    ensures n >= 10 ==> n >= Pow10(|Decimal(n)| - 1)
  {
    if n >= 100 {
      Shortest(n / 10);
    } else if n >= 10 {
      assert Decimal(n / 10) == [DigitChar(n / 10)] && Pow10(1) == 10 * Pow10(0);
    }
  }

  lemma WideEnough(n: nat, w: nat)
    ensures 4 <= w && |Decimal(n)| >= w ==> Padded(n, w) == Padded(n, 4)
  {}

  /** So the last timestamps before the year 10000 sort behind the first ones in it. */
  lemma TextOrderEndsAt10000(s: nat, t: nat, a: Stamp, b: Stamp)
    requires StampOf(a, s) && StampOf(b, t) && a.date.year == 9999 && b.date.year == 10000
    ensures s < t && !StrLt(Format(a), Format(b))
  {
    hide Format, Padded, DayNumber;
    Powers();
    ValidStamp(a, s);
    ValidStamp(b, t);
    StampsAreInOrder(a, b, s, t);
    TextOrderExactly(a, b, s, t);
    assert Leading(10000, 4) == Leading(1000, 4) == 1000;
  }
}
