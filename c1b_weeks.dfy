/// `convertC1BToLigneRaw`, second half: the sorted days grouped into ISO
/// weeks, the weeks sorted by their key, and the rows assembled week by
/// week: the week's day rows, then its summary row.
module C1BWeeks {
  import opened Wrappers
  import opened Text
  import opened Calendar
  import opened Types
  import opened Counting
  import opened Sorting
  import opened C1BFormat
  import opened C1BDays

  /// A value of `weekMap`.
  datatype WeekData = WeekData(
    weekLabel: string,
    totalDrivingMinutes: int,
    totalRestMinutes: int,
    dailyRows: seq<RawRow>)

  /// The ISO week year and week number a week key is written from. The
  /// map is keyed here by this pair rather than by the string
  /// `${weekYear}-W${weekNum}` made of it: `WeekKeyInjective` shows that
  /// two pairs never share a string, so both group the days alike.
  datatype WeekId = WeekId(year: int, number: nat)

  /// The string key of a week.
  function KeyString(id: WeekId): string { WeekKey(id.year, id.number) }

  /// An entry of `Array.from(weekMap.entries())`: the string key and the
  /// value.
  type WeekEntry = (string, WeekData)

  /// The ISO week of `dateFromKey(day.dateKey)`.
  function DayWeek(d: DayData): WeekId {
    var date := DateFromKey(d.key);
    WeekId(IsoWeekYear(date), IsoWeekNumber(date))
  }

  // The grouping below is stated for any week of a day, `weekOf`; the
  // transformation uses `DayWeek`.

  /// The keys of `weekMap` in the order the loop inserts them.
  function WeekKeys(days: seq<DayData>, weekOf: DayData -> WeekId): seq<WeekId> {
    if days == [] then []
    else
      var keys := WeekKeys(days[..|days| - 1], weekOf);
      var k := weekOf(days[|days| - 1]);
      if k in keys then keys else keys + [k]
  }

  /// The value a week is inserted with, at its first day.
  function NewWeek(id: WeekId): WeekData { WeekData(WeekLabel(id.year, id.number), 0, 0, []) }

  /// What one day, whose row is `row`, does to the value of its week.
  function AddDay(w: WeekData, d: DayData, row: RawRow): WeekData {
    WeekData(w.weekLabel,
             w.totalDrivingMinutes + d.drivingMinutes,
             w.totalRestMinutes + d.restMinutes,
             w.dailyRows + [row])
  }

  /// `weekMap.get(key)` once the days `days` have been read, for a key the
  /// loop has inserted; `rows` are the days' rows.
  function WeekOf(days: seq<DayData>, rows: seq<RawRow>, weekOf: DayData -> WeekId, key: WeekId): WeekData
    requires |rows| == |days|
  {
    if days == [] then NewWeek(key)
    else
      var init := days[..|days| - 1];
      var d := days[|days| - 1];
      var w := WeekOf(init, rows[..|rows| - 1], weekOf, key);
      if weekOf(d) != key then w else AddDay(w, d, rows[|rows| - 1])
  }

  /// Step 4: the loop filling `weekMap` from the sorted days and their rows.
  method GroupByWeek(sortedDays: seq<DayData>, dailyRows: seq<RawRow>)
    returns (weekKeys: seq<WeekId>, weekMap: map<WeekId, WeekData>)
    requires |dailyRows| == |sortedDays|
    ensures weekKeys == WeekKeys(sortedDays, DayWeek)
    ensures forall k :: k in weekMap <==> k in weekKeys
    ensures forall k :: k in weekMap ==> weekMap[k] == WeekOf(sortedDays, dailyRows, DayWeek, k)
    ensures Grouped(sortedDays, dailyRows, DayWeek, weekKeys, weekMap)
  {
    weekKeys, weekMap := [], map[];
    for i := 0 to |sortedDays|
      invariant Grouped(sortedDays[..i], dailyRows[..i], DayWeek, weekKeys, weekMap)
    {
      var weekKey := WeekOfDay(sortedDays[i]);
      weekKeys, weekMap := GroupDay(sortedDays, dailyRows, i, DayWeek, weekKey, weekKeys, weekMap);
    }
    assert sortedDays[..|sortedDays|] == sortedDays;
    assert dailyRows[..|dailyRows|] == dailyRows;
  }

  /// `weekKeys` and `weekMap` are what the loop of step 4 has built from
  /// `days`.
  ghost predicate Grouped(days: seq<DayData>, rows: seq<RawRow>, weekOf: DayData -> WeekId,
                    weekKeys: seq<WeekId>, weekMap: map<WeekId, WeekData>)
    requires |rows| == |days|
  {
    && weekKeys == WeekKeys(days, weekOf)
    && (forall k :: k in weekMap <==> k in weekKeys)
    && (forall k :: k in weekMap ==> weekMap[k] == WeekOf(days, rows, weekOf, k))
  }

  /// One pass of the body of step 4, for the day `days[i]` of week
  /// `weekKey`: the week is created when absent, then the day is added.
  method GroupDay(days: seq<DayData>, rows: seq<RawRow>, i: nat, weekOf: DayData -> WeekId, weekKey: WeekId,
                  weekKeys: seq<WeekId>, weekMap: map<WeekId, WeekData>)
    returns (weekKeys': seq<WeekId>, weekMap': map<WeekId, WeekData>)
    requires |rows| == |days| && i < |days| && weekKey == weekOf(days[i])
    requires Grouped(days[..i], rows[..i], weekOf, weekKeys, weekMap)
    ensures Grouped(days[..i + 1], rows[..i + 1], weekOf, weekKeys', weekMap')
  {
    GroupStep(days, rows, i, weekOf);
    weekKeys', weekMap' := weekKeys, weekMap;
    if weekKey !in weekMap' {
      WeekOfAbsent(days[..i], rows[..i], weekOf, weekKey);
      weekMap' := weekMap'[weekKey := NewWeek(weekKey)];
      weekKeys' := weekKeys' + [weekKey];
    }
    var week := weekMap'[weekKey];
    week := AddToWeek(week, days[i], rows[i]);
    weekMap' := weekMap'[weekKey := week];
  }

  /// The week of a day as the body of step 4 computes it, from
  /// `getISOWeekNumber` and `getISOWeekYear`; the new week's label
  /// `Semaine ${weekNum} ${weekYear}` is `NewWeek(weekKey)`.
  method WeekOfDay(day: DayData) returns (weekKey: WeekId)
    ensures weekKey == DayWeek(day)
  {
    var date := DateFromKey(day.key);
    var weekNum := IsoWeekNumber(date);
    var weekYear := IsoWeekYear(date);
    weekKey := WeekId(weekYear, weekNum);
  }

  /// The body of step 4 once the week is found: the day's totals and row
  /// are added to it.
  method AddToWeek(week: WeekData, day: DayData, row: RawRow) returns (w: WeekData)
    ensures w == AddDay(week, day, row)
  {
    w := week.(totalDrivingMinutes := week.totalDrivingMinutes + day.drivingMinutes);
    w := w.(totalRestMinutes := w.totalRestMinutes + day.restMinutes);
    w := w.(dailyRows := w.dailyRows + [row]);
  }

  /// Reading one more day changes its own week only.
  lemma GroupStep(days: seq<DayData>, rows: seq<RawRow>, i: int, weekOf: DayData -> WeekId)
    requires |rows| == |days| && 0 <= i < |days|
    ensures var d := days[i];
            && WeekKeys(days[..i + 1], weekOf)
               == WeekKeys(days[..i], weekOf) + (if weekOf(d) in WeekKeys(days[..i], weekOf) then [] else [weekOf(d)])
            && (forall k :: k != weekOf(d) ==> WeekOf(days[..i + 1], rows[..i + 1], weekOf, k) == WeekOf(days[..i], rows[..i], weekOf, k))
            && WeekOf(days[..i + 1], rows[..i + 1], weekOf, weekOf(d))
               == AddDay(WeekOf(days[..i], rows[..i], weekOf, weekOf(d)), d, rows[i])
  {
    assert days[..i + 1][..i] == days[..i];
    assert rows[..i + 1][..i] == rows[..i];
  }

  // ---------------------------------------------------------------------
  // What a week holds

  /// The days of `days` that fall in week `key`, in their order.
  function DaysOfWeek(days: seq<DayData>, weekOf: DayData -> WeekId, key: WeekId): seq<DayData> {
    if days == [] then []
    else
      var d := days[|days| - 1];
      DaysOfWeek(days[..|days| - 1], weekOf, key) + (if weekOf(d) == key then [d] else [])
  }

  /// The sum of `f` over the days of week `key`.
  function WeekSum(days: seq<DayData>, weekOf: DayData -> WeekId, key: WeekId, f: DayData -> int): int {
    if days == [] then 0
    else
      var d := days[|days| - 1];
      WeekSum(days[..|days| - 1], weekOf, key, f) + (if weekOf(d) == key then f(d) else 0)
  }

  function DrivingOf(d: DayData): int { d.drivingMinutes }

  function RestOf(d: DayData): int { d.restMinutes }

  /// The rows of the days of `days` that fall in week `key`, in their order.
  function RowsOfWeek(days: seq<DayData>, rows: seq<RawRow>, weekOf: DayData -> WeekId, key: WeekId): seq<RawRow>
    requires |rows| == |days|
  {
    if days == [] then []
    else
      RowsOfWeek(days[..|days| - 1], rows[..|rows| - 1], weekOf, key)
      + (if weekOf(days[|days| - 1]) == key then [rows[|rows| - 1]] else [])
  }

  /// A week's totals are the sums of its days' driving and rest, its rows
  /// are the rows of its days in their order, and its label names it.
  lemma {:induction false} WeekContents(days: seq<DayData>, rows: seq<RawRow>, weekOf: DayData -> WeekId, key: WeekId)
    requires |rows| == |days|
    ensures WeekOf(days, rows, weekOf, key).totalDrivingMinutes == WeekSum(days, weekOf, key, DrivingOf)
    ensures WeekOf(days, rows, weekOf, key).totalRestMinutes == WeekSum(days, weekOf, key, RestOf)
    ensures WeekOf(days, rows, weekOf, key).dailyRows == RowsOfWeek(days, rows, weekOf, key)
    ensures WeekOf(days, rows, weekOf, key).weekLabel == WeekLabel(key.year, key.number)
  {
    if days != [] {
      WeekContents(days[..|days| - 1], rows[..|rows| - 1], weekOf, key);
    }
  }

  /// When each row is made from its day by `rowOf`, the rows of a week are
  /// made from the days of the week.
  lemma {:induction false} RowsOfWeekMapped(days: seq<DayData>, rows: seq<RawRow>, rowOf: DayData -> RawRow,
                                            weekOf: DayData -> WeekId, key: WeekId)
    requires |rows| == |days|
    requires forall i :: 0 <= i < |days| ==> rows[i] == rowOf(days[i])
    ensures |RowsOfWeek(days, rows, weekOf, key)| == |DaysOfWeek(days, weekOf, key)|
    ensures forall j :: 0 <= j < |DaysOfWeek(days, weekOf, key)| ==>
              RowsOfWeek(days, rows, weekOf, key)[j] == rowOf(DaysOfWeek(days, weekOf, key)[j])
  {
    if days != [] {
      var init, initRows := days[..|days| - 1], rows[..|rows| - 1];
      assert forall i :: 0 <= i < |init| ==> initRows[i] == rowOf(init[i]) by {
        forall i | 0 <= i < |init| ensures initRows[i] == rowOf(init[i]) {
          assert initRows[i] == rows[i] && init[i] == days[i];
        }
      }
      RowsOfWeekMapped(init, initRows, rowOf, weekOf, key);
    }
  }

  /// With the days' own rows, the rows of a week are the rows of its days.
  lemma RowsOfWeekDaily(days: seq<DayData>, weekOf: DayData -> WeekId, key: WeekId)
    ensures RowsOfWeek(days, DailyRows(days), weekOf, key) == DailyRows(DaysOfWeek(days, weekOf, key))
  {
    RowsOfWeekMapped(days, DailyRows(days), DailyRow, weekOf, key);
  }

  /// A week the days have not reached yet is still new.
  lemma {:induction false} WeekOfAbsent(days: seq<DayData>, rows: seq<RawRow>, weekOf: DayData -> WeekId, key: WeekId)
    requires |rows| == |days| && key !in WeekKeys(days, weekOf)
    ensures WeekOf(days, rows, weekOf, key) == NewWeek(key)
  {
    if days != [] {
      WeekOfAbsent(days[..|days| - 1], rows[..|rows| - 1], weekOf, key);
    }
  }

  /// Every day's week is among the keys, each key is some day's week, and
  /// no key is listed twice.
  lemma {:induction false} WeekKeysOfDays(days: seq<DayData>, weekOf: DayData -> WeekId)
    ensures forall i :: 0 <= i < |days| ==> weekOf(days[i]) in WeekKeys(days, weekOf)
    ensures forall k :: k in WeekKeys(days, weekOf) ==> exists i :: 0 <= i < |days| && weekOf(days[i]) == k
    ensures Distinct(WeekKeys(days, weekOf))
  {
    if days != [] {
      var init := days[..|days| - 1];
      WeekKeysOfDays(init, weekOf);
      forall k | k in WeekKeys(days, weekOf)
        ensures exists i :: 0 <= i < |days| && weekOf(days[i]) == k
      {
        if k in WeekKeys(init, weekOf) {
          var i :| 0 <= i < |init| && weekOf(init[i]) == k;
          assert days[i] == init[i];
        } else {
          assert weekOf(days[|days| - 1]) == k;
        }
      }
      assert forall i :: 0 <= i < |init| ==> days[i] == init[i];
    }
  }

  /// A week no day has reached has no days.
  lemma {:induction false} DaysOfWeekAbsent(days: seq<DayData>, weekOf: DayData -> WeekId, key: WeekId)
    requires key !in WeekKeys(days, weekOf)
    ensures DaysOfWeek(days, weekOf, key) == []
  {
    if days != [] {
      DaysOfWeekAbsent(days[..|days| - 1], weekOf, key);
    }
  }

  /// The weeks share out the days: the numbers of days of the weeks add
  /// up to the number of days.
  lemma {:induction false} WeekSizes(days: seq<DayData>, weekOf: DayData -> WeekId)
    ensures SumOf(WeekKeys(days, weekOf), k => |DaysOfWeek(days, weekOf, k)|) == |days|
  {
    if days != [] {
      var init, d := days[..|days| - 1], days[|days| - 1];
      var keys := WeekKeys(init, weekOf);
      var f := k => |DaysOfWeek(init, weekOf, k)|;
      var g := k => |DaysOfWeek(days, weekOf, k)|;
      WeekSizes(init, weekOf);
      WeekKeysOfDays(init, weekOf);
      SumOfBump(keys, f, g, weekOf(d));
      if weekOf(d) in keys {
        AtMostOnce(keys, weekOf(d));
        assert multiset(keys)[weekOf(d)] == 1;
      } else {
        DaysOfWeekAbsent(init, weekOf, weekOf(d));
        SumOfAppend(keys, [weekOf(d)], g);
        assert [weekOf(d)][..0] == [];
      }
    }
  }

  // ---------------------------------------------------------------------
  // Sorting the weeks

  /// `Array.from(weekMap.entries())`, in insertion order, with each key
  /// written as its string.
  function WeekEntries(days: seq<DayData>, weekOf: DayData -> WeekId): (es: seq<WeekEntry>)
    ensures |es| == |WeekKeys(days, weekOf)|
    ensures forall i :: 0 <= i < |es| ==>
              es[i] == (KeyString(WeekKeys(days, weekOf)[i]), WeekOf(days, DailyRows(days), weekOf, WeekKeys(days, weekOf)[i]))
  {
    var keys := WeekKeys(days, weekOf);
    seq(|keys|, i requires 0 <= i < |keys| => (KeyString(keys[i]), WeekOf(days, DailyRows(days), weekOf, keys[i])))
  }

  predicate KeysSorted(es: seq<WeekEntry>) {
    forall i, j :: 0 <= i < j < |es| ==> StrLe(es[i].0, es[j].0)
  }

  /// Inserting one entry into a list sorted by key.
  function InsertEntry(es: seq<WeekEntry>, e: WeekEntry): (r: seq<WeekEntry>)
    requires KeysSorted(es)
    ensures multiset(r) == multiset(es) + multiset{e}
    ensures KeysSorted(r)
  {
    if es == [] then [e]
    else if StrLe(e.0, es[0].0) then
      assert forall j :: 0 <= j < |es| ==> StrLe(e.0, es[j].0) by {
        forall j | 0 <= j < |es| ensures StrLe(e.0, es[j].0) {
          if j > 0 {
            StrLeTransitive(e.0, es[0].0, es[j].0);
          }
        }
      }
      [e] + es
    else
      var rest := InsertEntry(es[1..], e);
      StrLeTotal(e.0, es[0].0);
      assert es == [es[0]] + es[1..];
      assert forall x :: x in rest ==> StrLe(es[0].0, x.0) by {
        forall x | x in rest ensures StrLe(es[0].0, x.0) {
          assert x in multiset(rest);
          if x != e {
            assert x in es[1..];
          }
        }
      }
      [es[0]] + rest
  }

  /// `sortedWeeks`: the entries sorted by `a[0].localeCompare(b[0])`.
  function SortEntries(es: seq<WeekEntry>): (r: seq<WeekEntry>)
    ensures multiset(r) == multiset(es)
    ensures KeysSorted(r)
  {
    if es == [] then []
    else
      assert es == es[..|es| - 1] + [es[|es| - 1]];
      InsertEntry(SortEntries(es[..|es| - 1]), es[|es| - 1])
  }

  // ---------------------------------------------------------------------
  // Assembling the rows

  /// The summary row of a week.
  function SummaryRow(w: WeekData): (r: RawRow)
    ensures r.dailyRest == Some("") && r.amplitude == Some("") && r.distance == 0
  {
    RawRow(w.weekLabel,
           Some(FormatHHMM(w.totalDrivingMinutes)),
           Some(""),
           Some(""),
           0,
           Some(FormatHHMM(w.totalRestMinutes)))
  }

  /// Step 5: for each week in turn, its day rows and then its summary row.
  function Assemble(es: seq<WeekEntry>): seq<RawRow> {
    if es == [] then []
    else Assemble(es[..|es| - 1]) + es[|es| - 1].1.dailyRows + [SummaryRow(es[|es| - 1].1)]
  }

  method AssembleRows(sortedWeeks: seq<WeekEntry>) returns (result: seq<RawRow>)
    ensures result == Assemble(sortedWeeks)
  {
    result := [];
    for i := 0 to |sortedWeeks|
      invariant result == Assemble(sortedWeeks[..i])
    {
      var week := sortedWeeks[i].1;
      assert sortedWeeks[..i + 1][..i] == sortedWeeks[..i];
      result := result + week.dailyRows;
      result := result + [SummaryRow(week)];
    }
    assert sortedWeeks[..|sortedWeeks|] == sortedWeeks;
  }

  /// The rows of a list of weeks: each week's days plus its summary row.
  lemma {:induction false} AssembleLength(es: seq<WeekEntry>)
    ensures |Assemble(es)| == SumOf(es, (e: WeekEntry) => |e.1.dailyRows|) + |es|
  {
    if es != [] {
      AssembleLength(es[..|es| - 1]);
    }
  }
}
