/// Time conversions of the analysis: a spreadsheet cell "HH:MM" to minutes,
/// and minutes to hours with two decimals.
module Conversions {
  import opened Wrappers
  import opened Text

  /// `tempsVersMinutes`: a missing, empty or "null" cell, a cell without a
  /// colon or with more than one, and a part that does not start with a
  /// number, all count as 0 minutes. Each part is read by `parseInt`, so a
  /// sign and trailing text are accepted.
  function TimeToMinutes(t: Option<string>): int {
    if t.None? || t.value == "" || t.value == "null" then 0
    else
      var cleaned := Trim(t.value);
      if ':' !in cleaned then 0
      else
        var parts := Split(cleaned, ':');
        if |parts| != 2 then 0
        else
          match (ParseInt(parts[0]), ParseInt(parts[1]))
          case (Some(h), Some(m)) => h * 60 + m
          case _ => 0
  }

  /// `trim` of a cell made of two parts around a colon leaves the parts'
  /// inner ends alone, and `split` gives back the two trimmed parts.
  lemma SplitAroundColon(h: string, m: string)
    requires ':' !in h && ':' !in m
    ensures var s := h + ":" + m;
            s != "" && s != "null" && ':' in Trim(s)
            && Split(Trim(s), ':') == [TrimStart(h), TrimEnd(m)]
  {
    var s := h + ":" + m;
    assert s == h + [':'] + m && s[|h|] == ':';
    TrimAround(h, ':', m);
    var th := TrimStart(h);
    var tm := TrimEnd(m);
    assert ':' !in th && ':' !in tm;
    assert (th + [':'] + tm)[|th|] == ':';
    SplitTwo(th, ':', tm);
  }

  /// A cell written as hours, a colon and minutes reads as that many minutes.
  lemma TimeToMinutesOfDigits(hh: string, mm: string)
    requires hh != [] && AllDigits(hh) && mm != [] && AllDigits(mm)
    ensures TimeToMinutes(Some(hh + ":" + mm)) == DigitsValue(hh) * 60 + DigitsValue(mm)
  {
    assert ':' !in hh && ':' !in mm;
    SplitAroundColon(hh, mm);
    assert !IsSpace(hh[0]) && TrimStart(hh) == hh;
    assert !IsSpace(mm[|mm| - 1]) && TrimEnd(mm) == mm;
    ParseIntDigits(hh);
    ParseIntDigits(mm);
  }

  /// A cell with no colon, however it is written, reads as 0 minutes.
  lemma TimeToMinutesNoColon(s: string)
    requires ':' !in s
    ensures TimeToMinutes(Some(s)) == 0
  {
    if s != "" && s != "null" {
      assert ':' !in Trim(s) by {
        assert Trim(s) == TrimStart(s)[..|Trim(s)|];
      }
    }
  }

  /// A cell that does not split into exactly two parts around a colon, once
  /// trimmed, reads as 0 minutes.
  lemma TimeToMinutesNotTwoParts(s: string)
    requires |Split(Trim(s), ':')| != 2
    ensures TimeToMinutes(Some(s)) == 0
  {
  }

  /// A cell that splits into two parts, one of which `parseInt` cannot
  /// read, reads as 0 minutes.
  lemma TimeToMinutesOfParts(s: string, a: string, b: string)
    requires s != "" && s != "null" && ':' in Trim(s)
    requires Split(Trim(s), ':') == [a, b]
    requires ParseInt(a).None? || ParseInt(b).None?
    ensures TimeToMinutes(Some(s)) == 0
  {
  }

  /// A cell whose hours or minutes `parseInt` cannot read, whatever white
  /// space surrounds it, reads as 0 minutes.
  lemma TimeToMinutesUnparsable(h: string, m: string)
    requires ':' !in h && ':' !in m
    requires ParseInt(h).None? || ParseInt(m).None?
    ensures TimeToMinutes(Some(h + ":" + m)) == 0
  {
    SplitAroundColon(h, m);
    ParseIntTrimStart(h);
    var tm := TrimEnd(m);
    if ParseInt(tm).Some? {
      ParseIntPrefix(tm, m);
    }
    TimeToMinutesOfParts(h + ":" + m, TrimStart(h), tm);
  }

  /// `minutesVersHeures`: `Number((m / 60).toFixed(2))` kept exactly as
  /// hundredths of an hour. `toFixed` rounds to the nearest hundredth and,
  /// 100 m / 60 having a fractional part of 0, 1/3 or 2/3, never meets a
  /// tie; negative values round symmetrically.
  function CentiHours(m: int): (c: int)
    ensures -1 <= 3 * c - 5 * m <= 1
  {
    if m >= 0 then (5 * m + 1) / 3 else -((5 * -m + 1) / 3)
  }

  /// Rounding is symmetric about zero.
  lemma CentiHoursSymmetric(m: int)
    ensures CentiHours(-m) == -CentiHours(m)
  {
  }

  /// The rounding never changes the order of two durations.
  lemma CentiHoursMonotone(a: int, b: int)
    requires a <= b
    ensures CentiHours(a) <= CentiHours(b)
  {
  }

  /// The comparisons of the rule engine, on hundredths of an hour, read back
  /// as comparisons of minutes: the tolerance of 0.01 h around each limit
  /// never lets a whole minute through.
  lemma HoursThresholdsInMinutes(m: int)
    ensures CentiHours(m) == 0 <==> m == 0
    ensures CentiHours(m) > 0 <==> m >= 1
    ensures CentiHours(m) > 900 + 1 <==> m > 9 * 60
    ensures CentiHours(m) > 1000 + 1 <==> m > 10 * 60
    ensures CentiHours(m) - 1000 > 100 <==> m > 11 * 60
    ensures CentiHours(m) > 1200 + 1 <==> m > 12 * 60
    ensures CentiHours(m) > 1400 + 1 <==> m > 14 * 60
    ensures CentiHours(m) > 5600 + 1 <==> m > 56 * 60
    ensures CentiHours(m) - 5600 > 1400 <==> m > 70 * 60
    ensures CentiHours(m) < 600 <==> m < 6 * 60
    ensures CentiHours(m) < 900 <==> m < 9 * 60
    ensures CentiHours(m) < 1100 <==> m < 11 * 60
    ensures CentiHours(m) < 2000 <==> m < 20 * 60
    ensures CentiHours(m) < 4500 <==> m < 45 * 60
  {
  }
}
