/// `lib/date-corrections.ts`: putting back the year of dates whose year was
/// guessed wrong when a list crosses New Year. A list going from the end of
/// one year (September to December) back to its start (January to March)
/// is taken to have moved into the next year, and every later date is
/// moved forward by the number of such turns seen so far.
///
/// The records are any records with a `date`; here a record is its date
/// (a calendar day) and the rest of its fields, of any type.
module DateCorrections {
  import opened Calendar
  import opened Sorting

  datatype Dated<T> = Dated(date: Date, fields: T)

  /// `getMonth()`: 0 for January up to 11 for December.
  function MonthIndex(d: Date): int { d.month - 1 }

  /// The test both functions apply to a date and the one before it: the
  /// date is earlier and the list went from September or later to March or
  /// earlier.
  predicate Rollover(prev: Date, curr: Date) {
    Before(curr, prev) && MonthIndex(prev) >= 8 && MonthIndex(curr) <= 2
  }

  /// `newDate.setFullYear(newDate.getFullYear() + yearAdjustment)` on a
  /// record, when the adjustment is positive.
  function Adjust<T>(r: Dated<T>, adjustment: nat): Dated<T> {
    if adjustment > 0 then r.(date := ShiftYear(r.date, adjustment)) else r
  }

  // ---------------------------------------------------------------------
  // corrigerAnneesJournees

  /// The corrected list and the final `yearAdjustment` of
  /// `corrigerAnneesJournees`. Each date is compared with the previous
  /// date as already corrected.
  function ScanDays<T>(s: seq<Dated<T>>): (r: (seq<Dated<T>>, nat))
    ensures |r.0| == |s|
  {
    if |s| <= 1 then (s, 0)
    else
      var (c, adjustment) := ScanDays(s[..|s| - 1]);
      var curr := s[|s| - 1];
      var next := if Rollover(c[|c| - 1].date, curr.date) then adjustment + 1 else adjustment;
      (c + [Adjust(curr, next)], next)
  }

  /// Reading one more record: the scan of `s[..i + 1]` from that of `s[..i]`.
  lemma ScanDaysStep<T>(s: seq<Dated<T>>, i: nat)
    requires 1 <= i < |s|
    ensures var (c, a) := ScanDays(s[..i]);
            var next := if Rollover(c[i - 1].date, s[i].date) then a + 1 else a;
            ScanDays(s[..i + 1]) == (c + [Adjust(s[i], next)], next)
  {
    assert s[..i + 1][..i] == s[..i];
  }

  /// The test of lines 16-25 on one date and the one before it.
  method NextAdjustment(prevDate: Date, currDate: Date, yearAdjustment: nat) returns (next: nat)
    ensures next == if Rollover(prevDate, currDate) then yearAdjustment + 1 else yearAdjustment
  {
    next := yearAdjustment;
    if Before(currDate, prevDate) {
      var prevMonth := MonthIndex(prevDate);
      var currMonth := MonthIndex(currDate);
      if prevMonth >= 8 && currMonth <= 2 {
        next := yearAdjustment + 1;
      }
    }
  }

  method CorrectDayYears<T>(journees: seq<Dated<T>>) returns (corrected: seq<Dated<T>>)
    ensures corrected == ScanDays(journees).0
  {
    if |journees| == 0 {
      return journees;
    }
    corrected := journees;
    var yearAdjustment: nat := 0;
    for i := 1 to |journees|
      invariant |corrected| == |journees|
      invariant corrected[..i] == ScanDays(journees[..i]).0
      invariant yearAdjustment == ScanDays(journees[..i]).1
      invariant corrected[i..] == journees[i..]
    {
      ScanDaysStep(journees, i);
      assert corrected[i - 1] == corrected[..i][i - 1];
      assert corrected[i] == journees[i];
      yearAdjustment := NextAdjustment(corrected[i - 1].date, corrected[i].date, yearAdjustment);
      if yearAdjustment > 0 {
        var newDate := ShiftYear(corrected[i].date, yearAdjustment);
        corrected := corrected[i := corrected[i].(date := newDate)];
      }
      assert corrected[..i + 1] == corrected[..i] + [corrected[i]];
    }
    assert journees[..|journees|] == journees;
  }

  /// The adjustment in force once the records up to `s[i]` have been read.
  function AdjustmentAt<T>(s: seq<Dated<T>>, i: nat): nat
    requires i < |s|
  {
    ScanDays(s[..i + 1]).1
  }

  /// The first record is kept; every other record keeps its fields and has
  /// its year moved by the adjustment in force at it.
  lemma {:induction false} ScanDaysRecords<T>(s: seq<Dated<T>>)
    ensures s != [] ==> ScanDays(s).0[0] == s[0]
    ensures forall i :: 0 <= i < |s| ==> ScanDays(s).0[i] == Adjust(s[i], AdjustmentAt(s, i))
  {
    if |s| > 1 {
      var init := s[..|s| - 1];
      ScanDaysRecords(init);
      forall i | 0 <= i < |s| ensures ScanDays(s).0[i] == Adjust(s[i], AdjustmentAt(s, i)) {
        if i < |init| {
          assert s[..i + 1] == init[..i + 1];
        } else {
          assert s[..i + 1] == s;
        }
      }
    } else if |s| == 1 {
      assert s[..1] == s;
    }
  }

  /// `yearAdjustment` never decreases and goes up by at most one a record.
  lemma {:induction false} AdjustmentSteps<T>(s: seq<Dated<T>>, i: nat)
    requires 0 < i < |s|
    ensures AdjustmentAt(s, i - 1) <= AdjustmentAt(s, i) <= AdjustmentAt(s, i - 1) + 1
  {
    assert s[..i + 1][..i] == s[..i];
  }

  lemma {:induction false} AdjustmentMonotone<T>(s: seq<Dated<T>>, i: nat, j: nat)
    requires i <= j < |s|
    ensures AdjustmentAt(s, i) <= AdjustmentAt(s, j)
    decreases j - i
  {
    if i < j {
      AdjustmentSteps(s, j);
      AdjustmentMonotone(s, i, j - 1);
    }
  }

  // ---------------------------------------------------------------------
  // What the correction achieves on a list written with one year

  /// Every date of `s` carries the year `y`.
  predicate OneYear<T>(s: seq<Dated<T>>, y: int) {
    forall i :: 0 <= i < |s| ==> s[i].date.year == y
  }

  /// Every step back in `s` is a turn of the year.
  predicate BackOnlyAtTurns<T>(s: seq<Dated<T>>) {
    forall i :: 0 < i < |s| ==> Before(s[i].date, s[i - 1].date) ==> Rollover(s[i - 1].date, s[i].date)
  }

  /// The number of turns of the year in `s`, counted on its dates as
  /// written.
  function Turns<T>(s: seq<Dated<T>>): nat {
    if |s| <= 1 then 0
    else Turns(s[..|s| - 1]) + (if Rollover(s[|s| - 2].date, s[|s| - 1].date) then 1 else 0)
  }

  /// Moving a date forward keeps its month on the September-or-later side.
  lemma ShiftYearMonthIndex(d: Date, k: int)
    ensures MonthIndex(ShiftYear(d, k)) >= 8 <==> MonthIndex(d) >= 8
  {
  }

  /// Moving two dates of the same year by the same number of years keeps
  /// their order.
  lemma ShiftYearKeepsOrder(p: Date, q: Date, k: int)
    requires p.year == q.year && !Before(q, p)
    ensures !Before(ShiftYear(q, k), ShiftYear(p, k))
  {
  }

  /// On a list written with one year, comparing with the corrected
  /// previous date finds exactly the turns of the year, so the final
  /// adjustment is their number.
  lemma {:induction false} ScanDaysCountsTurns<T>(s: seq<Dated<T>>, y: int)
    requires OneYear(s, y)
    ensures ScanDays(s).1 == Turns(s)
  {
    if |s| > 1 {
      var n := |s|;
      var init := s[..n - 1];
      assert OneYear(init, y);
      ScanDaysCountsTurns(init, y);
      ScanDaysRecords(init);
      assert init[..n - 1] == init;
      var a := Turns(init);
      var prev, curr := s[n - 2].date, s[n - 1].date;
      var prev' := ScanDays(init).0[n - 2].date;
      assert prev' == Adjust(s[n - 2], a).date;
      if a > 0 {
        ShiftYearMonthIndex(prev, a);
        assert Rollover(prev', curr) == Rollover(prev, curr);
      }
    }
  }

  /// The adjustment in force at each record is the number of turns up to
  /// it.
  lemma AdjustmentCountsTurns<T>(s: seq<Dated<T>>, y: int, i: nat)
    requires OneYear(s, y) && i < |s|
    ensures AdjustmentAt(s, i) == Turns(s[..i + 1])
  {
    assert OneYear(s[..i + 1], y);
    ScanDaysCountsTurns(s[..i + 1], y);
  }

  /// One step of a corrected list written with one year.
  lemma CorrectedStep<T>(s: seq<Dated<T>>, y: int, i: nat)
    requires OneYear(s, y) && BackOnlyAtTurns(s) && 0 < i < |s|
    ensures !Before(ScanDays(s).0[i].date, ScanDays(s).0[i - 1].date)
  {
    ScanDaysRecords(s);
    AdjustmentCountsTurns(s, y, i);
    AdjustmentCountsTurns(s, y, i - 1);
    assert s[..i + 1][..i] == s[..i];
    var prev, curr := s[i - 1].date, s[i].date;
    var a := Turns(s[..i]);
    if !Rollover(prev, curr) {
      ShiftYearKeepsOrder(prev, curr, a);
    }
  }

  /// A list written with one year whose only steps back are turns of the
  /// year comes out in calendar order, each date in the year `y` plus the
  /// turns before it.
  lemma ScanDaysRestoresOrder<T>(s: seq<Dated<T>>, y: int)
    requires OneYear(s, y) && BackOnlyAtTurns(s)
    ensures forall i :: 0 <= i < |s| ==> ScanDays(s).0[i].date.year == y + Turns(s[..i + 1])
    ensures forall i :: 0 < i < |s| ==> !Before(ScanDays(s).0[i].date, ScanDays(s).0[i - 1].date)
  {
    ScanDaysRecords(s);
    forall i | 0 <= i < |s| ensures ScanDays(s).0[i].date.year == y + Turns(s[..i + 1]) {
      AdjustmentCountsTurns(s, y, i);
    }
    forall i | 0 < i < |s| ensures !Before(ScanDays(s).0[i].date, ScanDays(s).0[i - 1].date) {
      CorrectedStep(s, y, i);
    }
  }

  // ---------------------------------------------------------------------
  // corrigerAnneesInfractions

  /// `dateA.getTime() - dateB.getTime()`: the sort key of a record.
  function DateRank<T>(r: Dated<T>): int { DayNumber(r.date) }

  /// The list and final `yearAdjustment` of the `map` in
  /// `corrigerAnneesInfractions`. Each date is compared with the previous
  /// date as it was before correction.
  function ScanInfractions<T>(s: seq<Dated<T>>): (r: (seq<Dated<T>>, nat))
    ensures |r.0| == |s|
  {
    if |s| <= 1 then (s, 0)
    else
      var (c, adjustment) := ScanInfractions(s[..|s| - 1]);
      var curr := s[|s| - 1];
      var next := if Rollover(s[|s| - 2].date, curr.date) then adjustment + 1 else adjustment;
      (c + [Adjust(curr, next)], next)
  }

  /// The `map` of `corrigerAnneesInfractions` over a list.
  method ScanInfractionList<T>(sorted: seq<Dated<T>>) returns (result: seq<Dated<T>>)
    ensures result == ScanInfractions(sorted).0
  {
    var yearAdjustment: nat := 0;
    result := [];
    for i := 0 to |sorted|
      invariant result == ScanInfractions(sorted[..i]).0
      invariant yearAdjustment == ScanInfractions(sorted[..i]).1
    {
      assert sorted[..i + 1][..i] == sorted[..i];
      var inf := sorted[i];
      if i == 0 {
        result := result + [inf];
      } else {
        var prevDate := sorted[i - 1].date;
        var currDate := inf.date;
        if Before(currDate, prevDate) {
          var prevMonth := MonthIndex(prevDate);
          var currMonth := MonthIndex(currDate);
          if prevMonth >= 8 && currMonth <= 2 {
            yearAdjustment := yearAdjustment + 1;
          }
        }
        if yearAdjustment > 0 {
          var newDate := ShiftYear(currDate, yearAdjustment);
          result := result + [inf.(date := newDate)];
        } else {
          result := result + [inf];
        }
      }
    }
    assert sorted[..|sorted|] == sorted;
  }

  /// `corrigerAnneesInfractions` as written: the list is sorted by date
  /// before it is scanned, so no date is ever earlier than the one before
  /// it and the result is the sorted list, every date as it was.
  method CorrectInfractionYears<T>(infractions: seq<Dated<T>>) returns (result: seq<Dated<T>>)
    ensures result == SortBy(infractions, DateRank)
    ensures multiset(result) == multiset(infractions)
    ensures SortedBy(result, DateRank)
  {
    if |infractions| == 0 {
      return infractions;
    }
    var sorted := SortBy(infractions, DateRank);
    result := ScanInfractionList(sorted);
    SortedScanKeepsDates(sorted);
  }

  /// On a list in date order the scan changes nothing.
  lemma {:induction false} SortedScanKeepsDates<T>(s: seq<Dated<T>>)
    requires SortedBy(s, DateRank)
    ensures ScanInfractions(s) == (s, 0)
  {
    if |s| > 1 {
      var init := s[..|s| - 1];
      assert SortedBy(init, DateRank);
      SortedScanKeepsDates(init);
      ChronologicalOrder(s[|s| - 2].date, s[|s| - 1].date);
      assert s == init + [s[|s| - 1]];
    }
  }

  /// The scan counts the turns of the year of the list as given, and moves
  /// each record by the turns up to it.
  lemma {:induction false} ScanInfractionsCountsTurns<T>(s: seq<Dated<T>>)
    ensures ScanInfractions(s).1 == Turns(s)
    ensures forall i :: 0 <= i < |s| ==> ScanInfractions(s).0[i] == Adjust(s[i], Turns(s[..i + 1]))
  {
    if |s| > 1 {
      var init := s[..|s| - 1];
      ScanInfractionsCountsTurns(init);
      forall i | 0 <= i < |s| ensures ScanInfractions(s).0[i] == Adjust(s[i], Turns(s[..i + 1])) {
        if i < |init| {
          assert s[..i + 1] == init[..i + 1];
        } else {
          assert s[..i + 1] == s;
        }
      }
    } else if |s| == 1 {
      assert s[..1] == s;
    }
  }

  /// `corrigerAnneesInfractions` as its comments describe it: the turns of
  /// the year are looked for in the order the list is given, and the
  /// corrected list is sorted by date afterwards.
  method CorrectInfractionYearsInOrder<T>(infractions: seq<Dated<T>>) returns (result: seq<Dated<T>>)
    ensures result == SortBy(ScanInfractions(infractions).0, DateRank)
    ensures multiset(result) == multiset(ScanInfractions(infractions).0)
    ensures SortedBy(result, DateRank)
  {
    if |infractions| == 0 {
      return infractions;
    }
    var corrected := ScanInfractionList(infractions);
    result := SortBy(corrected, DateRank);
  }

  /// A list going from September 2024 to a January written as 2024: as
  /// written, the January record comes first and keeps its year; in order,
  /// it is moved to January 2025 and comes second.
  lemma TurnOfYearExample(a: int, b: int)
    ensures var sep, jan := Dated(CalDate(2024, 9, 30), a), Dated(CalDate(2024, 1, 6), b);
            && SortBy([sep, jan], DateRank) == [jan, sep]
            && SortBy(ScanInfractions([sep, jan]).0, DateRank) == [sep, Dated(CalDate(2025, 1, 6), b)]
  {
    var sep, jan := Dated(CalDate(2024, 9, 30), a), Dated(CalDate(2024, 1, 6), b);
    ChronologicalOrder(sep.date, jan.date);
    var jan' := Dated(CalDate(2025, 1, 6), b);
    assert ScanInfractions([sep, jan]).0 == [sep, jan'] by {
      assert [sep, jan][..1] == [sep];
    }
    ChronologicalOrder(sep.date, jan'.date);
    SortTwo(sep, jan);
    SortTwo(sep, jan');
  }

  /// Sorting two records of distinct dates puts the earlier first.
  lemma SortTwo<T>(x: Dated<T>, y: Dated<T>)
    requires DateRank(x) != DateRank(y)
    ensures SortBy([x, y], DateRank) == if DateRank(x) < DateRank(y) then [x, y] else [y, x]
  {
    SortByTwo(x, y, DateRank);
  }
}
