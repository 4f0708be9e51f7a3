/// Proleptic Gregorian calendar arithmetic, the part of JavaScript's `Date`
/// that the analysis relies on: day numbers counted from 1970-01-01,
/// `getDay()`, adding days, `setFullYear` and `toISOString().split('T')[0]`.
/// Time of day and time zones are not part of this model: a `Date` is a
/// calendar day.
module Calendar {
  import opened Text

  datatype CalDate = CalDate(year: int, month: int, day: int)

  predicate IsLeap(y: int) { y % 4 == 0 && (y % 100 != 0 || y % 400 == 0) }

  function YearLength(y: int): int { if IsLeap(y) then 366 else 365 }

  function DaysInMonth(y: int, m: int): int
    requires 1 <= m <= 12
  {
    if m == 2 then (if IsLeap(y) then 29 else 28)
    else if m == 4 || m == 6 || m == 9 || m == 11 then 30
    else 31
  }

  predicate ValidDate(d: CalDate) {
    1 <= d.month <= 12 && 1 <= d.day <= DaysInMonth(d.year, d.month)
  }

  /// A day of the calendar (months 1-12, days 1-28..31).
  type Date = d: CalDate | ValidDate(d) witness CalDate(1970, 1, 1)

  /// Chronological order of two days, field by field.
  predicate Before(a: CalDate, b: CalDate) {
    a.year < b.year
    || (a.year == b.year && (a.month < b.month || (a.month == b.month && a.day < b.day)))
  }

  /// Days of year `y` before the first day of month `m`; `m == 13` gives the
  /// length of the year.
  function DaysBeforeMonth(y: int, m: int): int
    requires 1 <= m <= 13
  {
    var common :=
      if m == 1 then 0 else if m == 2 then 31 else if m == 3 then 59
      else if m == 4 then 90 else if m == 5 then 120 else if m == 6 then 151
      else if m == 7 then 181 else if m == 8 then 212 else if m == 9 then 243
      else if m == 10 then 273 else if m == 11 then 304 else if m == 12 then 334
      else 365;
    if m > 2 && IsLeap(y) then common + 1 else common
  }

  lemma MonthStep(y: int, m: int)
    requires 1 <= m <= 12
    ensures DaysBeforeMonth(y, m + 1) == DaysBeforeMonth(y, m) + DaysInMonth(y, m)
    ensures DaysBeforeMonth(y, 13) == YearLength(y)
  {
  }

  lemma {:induction false} MonthsMonotone(y: int, m1: int, m2: int)
    requires 1 <= m1 <= m2 <= 13
    ensures DaysBeforeMonth(y, m1) + (if m1 < m2 then DaysInMonth(y, m1) else 0) <= DaysBeforeMonth(y, m2)
    decreases m2 - m1
  {
    if m1 < m2 {
      MonthStep(y, m1);
      if m1 + 1 < m2 {
        MonthsMonotone(y, m1 + 1, m2);
        MonthStep(y, m1 + 1);
      }
    }
  }

  /// Ordinal of the day in its year, 1 for 1 January.
  function DayOfYear(d: Date): (n: int)
    ensures 1 <= n <= YearLength(d.year)
  {
    MonthsMonotone(d.year, d.month, 13);
    MonthStep(d.year, d.month);
    DaysBeforeMonth(d.year, d.month) + d.day
  }

  /// Leap years strictly before year `y`, counted from year 0.
  function LeapsBefore(y: int): int { (y - 1) / 4 - (y - 1) / 100 + (y - 1) / 400 }

  /// Day number of 1 January of year `y`; 1970-01-01 is day 0.
  function YearStart(y: int): int { 365 * (y - 1970) + LeapsBefore(y) - LeapsBefore(1970) }

  /// Days since 1970-01-01 (negative before): the time value of the day
  /// divided by 86 400 000 ms.
  function DayNumber(d: Date): int { YearStart(d.year) + DayOfYear(d) - 1 }

  lemma YearStep(y: int)
    ensures YearStart(y + 1) == YearStart(y) + YearLength(y)
  {
    assert y / 4 - (y - 1) / 4 == if y % 4 == 0 then 1 else 0;
    assert y / 100 - (y - 1) / 100 == if y % 100 == 0 then 1 else 0;
    assert y / 400 - (y - 1) / 400 == if y % 400 == 0 then 1 else 0;
    if y % 400 == 0 {
      assert y == 100 * (4 * (y / 400));
    }
    if y % 100 == 0 {
      assert y == 4 * (25 * (y / 100));
    }
  }

  lemma {:induction false} YearStartBounds(y: int)
    ensures y >= 1970 ==> 365 * (y - 1970) <= YearStart(y) <= 366 * (y - 1970)
    ensures y <= 1970 ==> 366 * (y - 1970) <= YearStart(y) <= 365 * (y - 1970)
    decreases if y >= 1970 then y - 1970 else 1970 - y
  {
    if y > 1970 {
      YearStartBounds(y - 1);
      YearStep(y - 1);
    } else if y < 1970 {
      YearStartBounds(y + 1);
      YearStep(y);
    }
  }

  lemma {:induction false} YearStartMonotone(a: int, b: int)
    requires a < b
    ensures YearStart(a) + YearLength(a) <= YearStart(b)
    decreases b - a
  {
    YearStep(a);
    if a + 1 < b {
      YearStartMonotone(a + 1, b);
    }
  }

  function YearFrom(n: int, y: int): (r: int)
    requires YearStart(y) <= n
    ensures YearStart(r) <= n < YearStart(r + 1)
    decreases n - YearStart(y)
  {
    YearStep(y);
    if n < YearStart(y + 1) then y else YearFrom(n, y + 1)
  }

  /// The year that contains day number `n`.
  function YearOf(n: int): (y: int)
    ensures YearStart(y) <= n < YearStart(y + 1)
  {
    var y0 := 1970 + (if n >= 0 then n / 366 else n / 365);
    YearStartBounds(y0);
    YearFrom(n, y0)
  }

  function MonthFrom(y: int, ord: int, m: int): (r: int)
    requires 1 <= m <= 12 && DaysBeforeMonth(y, m) < ord <= YearLength(y)
    ensures m <= r <= 12
    ensures DaysBeforeMonth(y, r) < ord <= DaysBeforeMonth(y, r) + DaysInMonth(y, r)
    decreases 12 - m
  {
    MonthStep(y, m);
    if ord <= DaysBeforeMonth(y, m) + DaysInMonth(y, m) then m else MonthFrom(y, ord, m + 1)
  }

  /// The day with number `n`.
  function FromDayNumber(n: int): (d: Date)
    ensures DayNumber(d) == n
  {
    var y := YearOf(n);
    YearStep(y);
    var ord := n - YearStart(y) + 1;
    var m := MonthFrom(y, ord, 1);
    CalDate(y, m, ord - DaysBeforeMonth(y, m))
  }

  /// Day numbers follow the calendar order.
  lemma DayNumberOrder(a: Date, b: Date)
    requires Before(a, b)
    ensures DayNumber(a) < DayNumber(b)
  {
    if a.year < b.year {
      YearStartMonotone(a.year, b.year);
    } else if a.month < b.month {
      MonthsMonotone(a.year, a.month, b.month);
    }
  }

  /// Comparing two days (JavaScript compares their time values) is the same as
  /// comparing their fields in calendar order.
  lemma ChronologicalOrder(a: Date, b: Date)
    ensures Before(a, b) <==> DayNumber(a) < DayNumber(b)
    ensures a == b <==> DayNumber(a) == DayNumber(b)
  {
    if Before(a, b) {
      DayNumberOrder(a, b);
    } else if Before(b, a) {
      DayNumberOrder(b, a);
    }
  }

  lemma FromDayNumberOfDay(d: Date)
    ensures FromDayNumber(DayNumber(d)) == d
  {
    ChronologicalOrder(FromDayNumber(DayNumber(d)), d);
  }

  /// `getDay()`: 0 for Sunday up to 6 for Saturday (1970-01-01 was a Thursday).
  function Weekday(d: Date): (w: int)
    ensures 0 <= w < 7
  {
    (DayNumber(d) + 4) % 7
  }

  /// The day `k` days after `d` (before it when `k < 0`).
  function AddDays(d: Date, k: int): (r: Date)
    ensures DayNumber(r) == DayNumber(d) + k
  {
    FromDayNumber(DayNumber(d) + k)
  }

  /// `setFullYear(getFullYear() + k)` on a day: month and day are kept, and
  /// 29 February in a common year rolls over to 1 March.
  function ShiftYear(d: Date, k: int): (r: Date)
    ensures r.year == d.year + k
    ensures (d.month, d.day) == (2, 29) && !IsLeap(d.year + k) ==> r.month == 3 && r.day == 1
    ensures !((d.month, d.day) == (2, 29) && !IsLeap(d.year + k)) ==> r.month == d.month && r.day == d.day
  {
    if d.month == 2 && d.day == 29 && !IsLeap(d.year + k) then CalDate(d.year + k, 3, 1)
    else CalDate(d.year + k, d.month, d.day)
  }

  /// The year as `toISOString` writes it: four digits for years 0 to 9999,
  /// otherwise a sign and six digits.
  function IsoYear(y: int): (r: string)
    ensures 0 <= y <= 9999 ==> |r| == 4 && AllDigits(r) && DigitsValue(r) == y
  {
    if 0 <= y <= 9999 then
      NatToStringLength(y, 4);
      PaddedValue(y, 4);
      PadStart(NatToString(y), 4)
    else if y < 0 then "-" + PadStart(NatToString(-y), 6)
    else "+" + PadStart(NatToString(y), 6)
  }

  /// `r` ends with `-MM-DD`: a dash, two digits, a dash and two digits.
  predicate EndsWithMonthDay(r: string) {
    |r| >= 6 && r[|r| - 6] == '-' && r[|r| - 3] == '-'
    && AllDigits(r[|r| - 5..|r| - 3]) && AllDigits(r[|r| - 2..])
  }

  function TailMonth(r: string): nat
    requires EndsWithMonthDay(r)
  {
    DigitsValue(r[|r| - 5..|r| - 3])
  }

  function TailDay(r: string): nat
    requires EndsWithMonthDay(r)
  {
    DigitsValue(r[|r| - 2..])
  }

  /// The parts of `y-c-d` with `c` and `d` two characters long are read
  /// back from the end.
  lemma DashedTail(y: string, c: string, d: string)
    requires |c| == 2 && |d| == 2 && AllDigits(c) && AllDigits(d)
    ensures var r := y + "-" + c + "-" + d;
            EndsWithMonthDay(r) && r[|r| - 5..|r| - 3] == c && r[|r| - 2..] == d && r[..|r| - 6] == y
  {
    var r := y + "-" + c + "-" + d;
    assert r[|r| - 5..|r| - 3] == c;
    assert r[|r| - 2..] == d;
    assert r[..|r| - 6] == y;
  }

  /// Two-digit zero padding of a number below 100 is two digits with its
  /// value.
  lemma TwoDigits(n: nat)
    requires n < 100
    ensures var s := PadStart(NatToString(n), 2); |s| == 2 && AllDigits(s) && DigitsValue(s) == n
  {
    NatToStringLength(n, 2);
    PaddedValue(n, 2);
  }

  /// A year text, then a month and a day below 100 padded to two digits,
  /// joined by dashes, read back from the end.
  lemma PaddedMonthDay(y: string, month: nat, day: nat)
    requires month < 100 && day < 100
    ensures var r := y + "-" + PadStart(NatToString(month), 2) + "-" + PadStart(NatToString(day), 2);
            EndsWithMonthDay(r) && TailMonth(r) == month && TailDay(r) == day && r[..|r| - 6] == y
  {
    TwoDigits(month);
    TwoDigits(day);
    DashedTail(y, PadStart(NatToString(month), 2), PadStart(NatToString(day), 2));
  }

  /// `toISOString().split('T')[0]`: `YYYY-MM-DD`. The month and the day read
  /// back from the last five characters, and a year from 0 to 9999 from the
  /// first four.
  function IsoDateString(d: Date): (r: string)
    ensures EndsWithMonthDay(r) && TailMonth(r) == d.month && TailDay(r) == d.day
    ensures 0 <= d.year <= 9999 ==> |r| == 10 && AllDigits(r[..4]) && DigitsValue(r[..4]) == d.year
  {
    assert d.day <= 31;
    PaddedMonthDay(IsoYear(d.year), d.month, d.day);
    IsoYear(d.year) + "-" + PadStart(NatToString(d.month), 2) + "-" + PadStart(NatToString(d.day), 2)
  }
}
