/** Fixed-width UTC timestamps as archive names, and the order of the instants they stand for. */
module Timestamps {
  import opened Wrappers
  import Strings

  datatype Stamp = Stamp(year: nat, month: nat, day: nat, hour: nat, minute: nat, second: nat)

  // ---------- Instants ----------

  predicate Leap(year: nat) {
    year % 4 == 0 && (year % 100 != 0 || year % 400 == 0)
  }

  function YearDays(year: nat): nat {
    if Leap(year) then 366 else 365
  }

  function MonthDays(year: nat, month: nat): nat {
    if month == 2 then (if Leap(year) then 29 else 28)
    else if month in {4, 6, 9, 11} then 30 else 31
  }

  function DaysBeforeYear(year: nat): nat {
    if year == 0 then 0 else DaysBeforeYear(year - 1) + YearDays(year - 1)
  }

  function DaysBeforeMonth(year: nat, month: nat): nat {
    if month <= 1 then 0 else DaysBeforeMonth(year, month - 1) + MonthDays(year, month - 1)
  }

  predicate Valid(s: Stamp) {
    && s.year <= 9999 && 1 <= s.month <= 12 && 1 <= s.day <= MonthDays(s.year, s.month)
    && s.hour < 24 && s.minute < 60 && s.second < 60
  }

  /** Whole days since the start of year 0. */
  function DayOf(s: Stamp): int {
    DaysBeforeYear(s.year) + DaysBeforeMonth(s.year, s.month) + s.day - 1
  }

  /** Seconds since the start of year 0. */
  function Seconds(s: Stamp): int {
    ((DayOf(s) * 24 + s.hour) * 60 + s.minute) * 60 + s.second
  }

  /** Field by field, most significant first. */
  predicate Before(a: Stamp, b: Stamp) {
    a.year < b.year || (a.year == b.year && (
    a.month < b.month || (a.month == b.month && (
    a.day < b.day || (a.day == b.day && (
    a.hour < b.hour || (a.hour == b.hour && (
    a.minute < b.minute || (a.minute == b.minute && a.second < b.second)))))))))
  }

  lemma {:induction false} MonthsAscend(year: nat, m: nat, n: nat)
    requires 1 <= m < n
    ensures DaysBeforeMonth(year, m) + MonthDays(year, m) <= DaysBeforeMonth(year, n)
  {
    if m + 1 < n {
      MonthsAscend(year, m, n - 1);
    }
  }

  lemma MonthsFillTheYear(year: nat, m: nat)
    requires 1 <= m <= 12
    ensures DaysBeforeMonth(year, m) + MonthDays(year, m) <= YearDays(year)
    ensures m == 12 ==> DaysBeforeMonth(year, 13) == YearDays(year)
  {
    var leap := if Leap(year) then 1 else 0;
    assert DaysBeforeMonth(year, 2) == 31;
    assert DaysBeforeMonth(year, 3) == 59 + leap;
    assert DaysBeforeMonth(year, 4) == 90 + leap;
    assert DaysBeforeMonth(year, 5) == 120 + leap;
    assert DaysBeforeMonth(year, 6) == 151 + leap;
    assert DaysBeforeMonth(year, 7) == 181 + leap;
    assert DaysBeforeMonth(year, 8) == 212 + leap;
    assert DaysBeforeMonth(year, 9) == 243 + leap;
    assert DaysBeforeMonth(year, 10) == 273 + leap;
    assert DaysBeforeMonth(year, 11) == 304 + leap;
    assert DaysBeforeMonth(year, 12) == 334 + leap;
    assert DaysBeforeMonth(year, 13) == 365 + leap;
    MonthsAscend(year, m, 13);
  }

  lemma {:induction false} YearsAscend(y: nat, z: nat)
    requires y < z
    ensures DaysBeforeYear(y) + YearDays(y) <= DaysBeforeYear(z)
  {
    if y + 1 < z {
      YearsAscend(y, z - 1);
    }
  }

  lemma DaysAscend(a: Stamp, b: Stamp)
    requires Valid(a) && Valid(b)
    requires a.year < b.year || (a.year == b.year && (a.month < b.month || (a.month == b.month && a.day < b.day)))
    ensures DayOf(a) < DayOf(b)
  {
    if a.year < b.year {
      MonthsFillTheYear(a.year, a.month);
      YearsAscend(a.year, b.year);
    } else if a.month < b.month {
      MonthsAscend(a.year, a.month, b.month);
    }
  }

  lemma SecondsAscend(a: Stamp, b: Stamp)
    requires Valid(a) && Valid(b) && Before(a, b)
    ensures Seconds(a) < Seconds(b)
  {
    if a.(hour := 0, minute := 0, second := 0) != b.(hour := 0, minute := 0, second := 0) {
      DaysAscend(a, b);
    }
  }

  /** The date one day later, by the calendar. */
  function Tomorrow(s: Stamp): Stamp {
    if s.day < MonthDays(s.year, s.month) then s.(day := s.day + 1)
    else if s.month < 12 then s.(month := s.month + 1, day := 1)
    else s.(year := s.year + 1, month := 1, day := 1)
  }

  lemma NextDay(s: Stamp)
    requires Valid(s)
    ensures DayOf(Tomorrow(s)) == DayOf(s) + 1
  {
    MonthsFillTheYear(s.year, 12);
    hide YearDays, MonthDays;
    assert DaysBeforeMonth(s.year, s.month + 1) == DaysBeforeMonth(s.year, s.month) + MonthDays(s.year, s.month);
    assert DaysBeforeYear(s.year + 1) == DaysBeforeYear(s.year) + YearDays(s.year);
    assert DaysBeforeMonth(s.year + 1, 1) == 0;
  }

  lemma FourYears(year: nat)
    ensures (year + 400) % 4 == year % 4
  {
  }

  lemma Centuries(year: nat)
    ensures (year + 400) % 100 == year % 100
  {
  }

  lemma FourCenturies(year: nat)
    ensures (year + 400) % 400 == year % 400
  {
  }

  /** The months fill the year, leap years repeat after four centuries, three of which do not start with one, and
      the next day is one day later, across months and years. */
  lemma CalendarCounts(s: Stamp)
    requires Valid(s)
    ensures DaysBeforeMonth(s.year, 13) == YearDays(s.year)
    ensures Seconds(Tomorrow(s)) == Seconds(s) + 86400
    ensures Leap(s.year + 400) == Leap(s.year)
    ensures Leap(0) && !Leap(1) && !Leap(2) && !Leap(3) && Leap(4) && !Leap(100) && !Leap(200) && !Leap(300)
  {
    FourYears(s.year);
    Centuries(s.year);
    FourCenturies(s.year);
    assert Leap(0) && !Leap(1) && !Leap(2) && !Leap(3) && Leap(4) && !Leap(100) && !Leap(200) && !Leap(300);
    hide Leap, DayOf, MonthDays, YearDays, DaysBeforeMonth;
    MonthsFillTheYear(s.year, 12);
    NextDay(s);
  }

  /** The day after a date is a date again, up to the last one of four digits; so is any time of the same day. */
  lemma TomorrowIsADate(s: Stamp, hour: nat, minute: nat, second: nat)
    requires Valid(s)
    ensures Valid(Tomorrow(s)) <==> !(s.year == 9999 && s.month == 12 && s.day == 31)
    ensures Valid(s.(hour := hour, minute := minute, second := second)) <==> hour < 24 && minute < 60 && second < 60
  {
    hide DaysBeforeYear, DaysBeforeMonth;
    assert MonthDays(s.year, 12) == 31;
    assert s.month < 12 ==> 1 <= MonthDays(s.year, s.month + 1);
  }

  lemma BeforeIsTotal(a: Stamp, b: Stamp)
    ensures Before(a, b) || a == b || Before(b, a)
    ensures !(Before(a, b) && Before(b, a)) && !Before(a, a)
  {
  }

  // ---------- Names ----------

  /** The decimal digits of `n`, padded with zeros or cut to `width`. */
  function Digits(n: nat, width: nat): (d: string)
    ensures |d| == width
  {
    if width == 0 then "" else Digits(n / 10, width - 1) + ['0' + (n % 10) as char]
  }

  function Power(width: nat): nat {
    if width == 0 then 1 else 10 * Power(width - 1)
  }

  const SUFFIX := "Z.tar.gz"

  function DateDigits(s: Stamp): string {
    Digits(s.year, 4) + (Digits(s.month, 2) + Digits(s.day, 2))
  }

  function TimeDigits(s: Stamp): string {
    Digits(s.hour, 2) + (Digits(s.minute, 2) + Digits(s.second, 2))
  }

  /** `20060102T150405Z.tar.gz` */
  function NameOf(s: Stamp): string {
    DateDigits(s) + ("T" + (TimeDigits(s) + SUFFIX))
  }

  /** Strings with fronts of one length compare by their fronts first. */
  lemma {:induction false} BelowByFront(a: string, b: string, c: string, d: string)
    requires |a| == |b|
    ensures Strings.Below(a + c, b + d) <==> Strings.Below(a, b) || (a == b && Strings.Below(c, d))
  {
    if a == "" {
      assert a + c == c && b + d == d;
    } else {
      BelowByFront(a[1..], b[1..], c, d);
      assert (a + c)[1..] == a[1..] + c && (b + d)[1..] == b[1..] + d;
      assert a[0] == b[0] && a[1..] == b[1..] ==> a == b by {
        assert a == [a[0]] + a[1..] && b == [b[0]] + b[1..];
      }
    }
  }

  /** Padded numbers of one width compare as numbers. */
  lemma {:induction false} DigitsAscend(m: nat, n: nat, width: nat)
    requires m < Power(width) && n < Power(width)
    ensures Strings.Below(Digits(m, width), Digits(n, width)) <==> m < n
    ensures Digits(m, width) == Digits(n, width) <==> m == n
  {
    if width > 0 {
      DigitsAscend(m / 10, n / 10, width - 1);
      var (mFront, nFront) := (Digits(m / 10, width - 1), Digits(n / 10, width - 1));
      var (mLast, nLast) := (['0' + (m % 10) as char], ['0' + (n % 10) as char]);
      BelowByFront(mFront, nFront, mLast, nLast);
      assert mLast[1..] == "" && nLast[1..] == "";
      assert Strings.Below(mLast, nLast) <==> m % 10 < n % 10;
      SplitFronts(mFront, nFront, mLast, nLast);
    }
  }

  lemma SplitFronts(a: string, b: string, c: string, d: string)
    requires |a| == |b|
    ensures a + c == b + d <==> a == b && c == d
  {
    if a + c == b + d {
      assert (a + c)[..|a|] == a && (b + d)[..|b|] == b;
      assert (a + c)[|a|..] == c && (b + d)[|b|..] == d;
    }
  }

  lemma Widths(s: Stamp)
    requires Valid(s)
    ensures s.year < Power(4) && s.month < Power(2) && s.day < Power(2)
    ensures s.hour < Power(2) && s.minute < Power(2) && s.second < Power(2)
  {
    assert Power(2) == 100 && Power(4) == 10000 by {
      assert Power(1) == 10 && Power(3) == 1000;
    }
  }

  lemma TwoFields(m: nat, n: nat, width: nat, c: string, d: string)
    requires m < Power(width) && n < Power(width)
    ensures Strings.Below(Digits(m, width) + c, Digits(n, width) + d) <==> m < n || (m == n && Strings.Below(c, d))
    ensures Digits(m, width) + c == Digits(n, width) + d <==> m == n && c == d
  {
    DigitsAscend(m, n, width);
    BelowByFront(Digits(m, width), Digits(n, width), c, d);
    SplitFronts(Digits(m, width), Digits(n, width), c, d);
  }

  lemma DatesCompare(a: Stamp, b: Stamp)
    requires Valid(a) && Valid(b)
    ensures Strings.Below(DateDigits(a), DateDigits(b))
            <==> a.year < b.year || (a.year == b.year && (a.month < b.month || (a.month == b.month && a.day < b.day)))
    ensures DateDigits(a) == DateDigits(b) <==> a.year == b.year && a.month == b.month && a.day == b.day
  {
    Widths(a);
    Widths(b);
    hide Digits, Power, Valid, Strings.Below;
    DigitsAscend(a.day, b.day, 2);
    TwoFields(a.month, b.month, 2, Digits(a.day, 2), Digits(b.day, 2));
    TwoFields(a.year, b.year, 4, Digits(a.month, 2) + Digits(a.day, 2), Digits(b.month, 2) + Digits(b.day, 2));
  }

  lemma TimesCompare(a: Stamp, b: Stamp)
    requires Valid(a) && Valid(b)
    ensures Strings.Below(TimeDigits(a), TimeDigits(b))
            <==> a.hour < b.hour
                 || (a.hour == b.hour && (a.minute < b.minute || (a.minute == b.minute && a.second < b.second)))
    ensures TimeDigits(a) == TimeDigits(b) <==> a.hour == b.hour && a.minute == b.minute && a.second == b.second
  {
    Widths(a);
    Widths(b);
    hide Digits, Power, Valid, Strings.Below;
    DigitsAscend(a.second, b.second, 2);
    TwoFields(a.minute, b.minute, 2, Digits(a.second, 2), Digits(b.second, 2));
    TwoFields(a.hour, b.hour, 2, Digits(a.minute, 2) + Digits(a.second, 2), Digits(b.minute, 2) + Digits(b.second, 2));
  }

  /** Archive names sort in time order, and different names stand for different instants. */
  lemma NamesSortByTime(a: Stamp, b: Stamp)
    requires Valid(a) && Valid(b)
    ensures Strings.Below(NameOf(a), NameOf(b)) <==> Seconds(a) < Seconds(b)
    ensures NameOf(a) == NameOf(b) <==> a == b
    ensures Seconds(a) == Seconds(b) <==> a == b
  {
    NamesCompare(a, b);
    BeforeIsTotal(a, b);
    if Before(a, b) {
      SecondsAscend(a, b);
    } else if Before(b, a) {
      SecondsAscend(b, a);
    }
  }

  lemma NamesCompare(a: Stamp, b: Stamp)
    requires Valid(a) && Valid(b)
    ensures Strings.Below(NameOf(a), NameOf(b)) <==> Before(a, b)
    ensures NameOf(a) == NameOf(b) <==> a == b
  {
    DatesCompare(a, b);
    TimesCompare(a, b);
    Strings.BelowIsTotal(SUFFIX, SUFFIX);
    Strings.BelowIsTotal("T", "T");
    hide Strings.Below, Valid;
    BelowByFront(TimeDigits(a), TimeDigits(b), SUFFIX, SUFFIX);
    SplitFronts(TimeDigits(a), TimeDigits(b), SUFFIX, SUFFIX);
    BelowByFront("T", "T", TimeDigits(a) + SUFFIX, TimeDigits(b) + SUFFIX);
    SplitFronts("T", "T", TimeDigits(a) + SUFFIX, TimeDigits(b) + SUFFIX);
    BelowByFront(DateDigits(a), DateDigits(b), "T" + (TimeDigits(a) + SUFFIX), "T" + (TimeDigits(b) + SUFFIX));
    SplitFronts(DateDigits(a), DateDigits(b), "T" + (TimeDigits(a) + SUFFIX), "T" + (TimeDigits(b) + SUFFIX));
  }
}
