/// `convertC1BToLigneRaw` as a whole: the activities of one driver read
/// from a C1B/DDD/V1B card file become the spreadsheet rows the analysis
/// reads, day rows week by week, each week closed by its summary row.
module C1BTransformer {
  import opened Wrappers
  import opened Calendar
  import opened Types
  import opened Counting
  import opened Sorting
  import opened C1BFormat
  import opened C1BDays
  import opened C1BWeeks

  /// Step 5's `sortedWeeks`.
  function SortedWeeks(acts: seq<Activity>, localDate: int -> Date): seq<WeekEntry> {
    SortEntries(WeekEntries(SortedDays(acts, localDate), DayWeek))
  }

  /// The rows `convertC1BToLigneRaw` returns.
  function C1BRows(acts: seq<Activity>, localDate: int -> Date): seq<RawRow> {
    if acts == [] then [] else Assemble(SortedWeeks(acts, localDate))
  }

  method Convert(acts: seq<Activity>, localDate: int -> Date) returns (rows: seq<RawRow>)
    ensures rows == C1BRows(acts, localDate)
  {
    if |acts| == 0 {
      return [];
    }
    var keys, dayMap := GroupByDay(acts, localDate);
    var values := DayMapValues(acts, localDate, keys, dayMap);
    var sortedDays := SortBy(values, DayRank);
    var dailyRows := DailyRows(sortedDays);
    var weekKeys, weekMap := GroupByWeek(sortedDays, dailyRows);
    var entries := WeekMapEntries(sortedDays, DayWeek, weekKeys, weekMap);
    var sortedWeeks := SortEntries(entries);
    rows := AssembleRows(sortedWeeks);
  }

  /// `Array.from(dayMap.values())`.
  method DayMapValues(acts: seq<Activity>, localDate: int -> Date, keys: seq<Date>, dayMap: map<Date, DayData>)
    returns (values: seq<DayData>)
    requires keys == DayKeys(acts, localDate)
    requires forall k :: k in dayMap <==> k in keys
    requires forall k :: k in dayMap ==> dayMap[k] == DayOf(acts, localDate, k)
    ensures values == DayValues(acts, localDate)
  {
    values := seq(|keys|, i requires 0 <= i < |keys| => dayMap[keys[i]]);
  }

  /// `Array.from(weekMap.entries())`, each key written as its string.
  method WeekMapEntries(days: seq<DayData>, weekOf: DayData -> WeekId, weekKeys: seq<WeekId>,
                        weekMap: map<WeekId, WeekData>)
    returns (entries: seq<WeekEntry>)
    requires Grouped(days, DailyRows(days), weekOf, weekKeys, weekMap)
    ensures entries == WeekEntries(days, weekOf)
  {
    entries := seq(|weekKeys|, i requires 0 <= i < |weekKeys| => (KeyString(weekKeys[i]), weekMap[weekKeys[i]]));
  }

  // ---------------------------------------------------------------------
  // What the rows say

  /// A file with activities gives at least one row; one without gives none.
  lemma ConvertEmpty(acts: seq<Activity>, localDate: int -> Date)
    ensures C1BRows(acts, localDate) == [] <==> acts == []
  {
    if acts != [] {
      var days := SortedDays(acts, localDate);
      DayKeysOfActivities(acts, localDate);
      assert localDate(acts[0].start) in DayKeys(acts, localDate);
      assert |days| > 0;
      WeekKeysOfDays(days, DayWeek);
      assert DayWeek(days[0]) in WeekKeys(days, DayWeek);
      var es := WeekEntries(days, DayWeek);
      assert |SortedWeeks(acts, localDate)| == |multiset(es)| == |es| > 0;
    }
  }

  /// One row per calendar day with an activity and one summary row per
  /// ISO week of those days.
  lemma ConvertRowCount(acts: seq<Activity>, localDate: int -> Date)
    ensures |C1BRows(acts, localDate)|
            == |DayKeys(acts, localDate)| + |WeekKeys(SortedDays(acts, localDate), DayWeek)|
  {
    if acts != [] {
      var days := SortedDays(acts, localDate);
      var keys := WeekKeys(days, DayWeek);
      var es := WeekEntries(days, DayWeek);
      var sorted := SortedWeeks(acts, localDate);
      var rowCount := (e: WeekEntry) => |e.1.dailyRows|;
      AssembleLength(sorted);
      assert |sorted| == |multiset(sorted)| == |multiset(es)| == |es|;
      SumOfPermutation(sorted, es, rowCount);
      forall i | 0 <= i < |es|
        ensures rowCount(es[i]) == |DaysOfWeek(days, DayWeek, keys[i])|
      {
        WeekContents(days, DailyRows(days), DayWeek, keys[i]);
        RowsOfWeekDaily(days, DayWeek, keys[i]);
      }
      SumOfPointwise(es, rowCount, keys, k => |DaysOfWeek(days, DayWeek, k)|);
      WeekSizes(days, DayWeek);
    }
  }

  /// Each week of the output is one ISO week of the days: its key and
  /// label name it, its rows are the rows of its days in calendar order,
  /// and its summary row carries the sums of their driving and rest.
  lemma ConvertWeeks(acts: seq<Activity>, localDate: int -> Date, i: int)
    requires 0 <= i < |SortedWeeks(acts, localDate)|
    ensures var days := SortedDays(acts, localDate);
            var e := SortedWeeks(acts, localDate)[i];
            exists id :: id in WeekKeys(days, DayWeek)
              && e.0 == KeyString(id)
              && e.1.weekLabel == WeekLabel(id.year, id.number)
              && e.1.dailyRows == DailyRows(DaysOfWeek(days, DayWeek, id))
              && e.1.totalDrivingMinutes == WeekSum(days, DayWeek, id, DrivingOf)
              && e.1.totalRestMinutes == WeekSum(days, DayWeek, id, RestOf)
  {
    var days := SortedDays(acts, localDate);
    var es := WeekEntries(days, DayWeek);
    var e := SortedWeeks(acts, localDate)[i];
    assert e in multiset(es);
    var j :| 0 <= j < |es| && es[j] == e;
    var id := EntryOfWeek(days, j);
  }

  /// The `j`-th entry before sorting is the week of the `j`-th key.
  lemma EntryOfWeek(days: seq<DayData>, j: int) returns (id: WeekId)
    requires 0 <= j < |WeekKeys(days, DayWeek)|
    ensures id == WeekKeys(days, DayWeek)[j] && id in WeekKeys(days, DayWeek)
    ensures var e := WeekEntries(days, DayWeek)[j];
            e.0 == KeyString(id)
            && e.1.weekLabel == WeekLabel(id.year, id.number)
            && e.1.dailyRows == DailyRows(DaysOfWeek(days, DayWeek, id))
            && e.1.totalDrivingMinutes == WeekSum(days, DayWeek, id, DrivingOf)
            && e.1.totalRestMinutes == WeekSum(days, DayWeek, id, RestOf)
  {
    id := WeekKeys(days, DayWeek)[j];
    WeekContents(days, DailyRows(days), DayWeek, id);
    RowsOfWeekDaily(days, DayWeek, id);
  }
}
