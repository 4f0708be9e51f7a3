/// `extraireDonneesAnalyse`: reads the spreadsheet rows in order, turns day
/// rows into analysed days and week rows into analysed weeks, and attaches
/// each day to the week row most recently seen before it.
module Extractor {
  import opened Wrappers
  import opened Types
  import opened Conversions
  import opened Classifier

  /// The analysed day of a day row (lines 434-443).
  function DayOfRow(r: RawRow): (d: Day)
    ensures d.date == r.date && d.distanceKm == r.distance
    ensures d.drivingHours == CentiHours(d.drivingMinutes) && d.drivingMinutes == TimeToMinutes(r.driving)
    ensures d.restHours == CentiHours(d.restMinutes) && d.restMinutes == TimeToMinutes(r.dailyRest)
    ensures d.amplitudeHours == CentiHours(d.amplitudeMinutes) && d.amplitudeMinutes == TimeToMinutes(r.amplitude)
  {
    var driving := TimeToMinutes(r.driving);
    var rest := TimeToMinutes(r.dailyRest);
    var amplitude := TimeToMinutes(r.amplitude);
    Day(r.date, driving, CentiHours(driving), rest, CentiHours(rest), amplitude, CentiHours(amplitude), r.distance)
  }

  /// The analysed week of a week row, before any day is attached (lines
  /// 453-461): its driving and rest come from the row itself.
  function WeekOfRow(r: RawRow): (w: Week)
    ensures w.number == r.date && w.date == r.date && w.days == []
    ensures w.drivingMinutes == TimeToMinutes(r.driving) && w.drivingHours == CentiHours(w.drivingMinutes)
    ensures w.restMinutes == TimeToMinutes(r.weeklyRest) && w.restHours == CentiHours(w.restMinutes)
  {
    var driving := TimeToMinutes(r.driving);
    var rest := TimeToMinutes(r.weeklyRest);
    Week(r.date, r.date, driving, CentiHours(driving), rest, CentiHours(rest), [])
  }

  /// A row as the extraction sees it: a day, a week, or a row it skips
  /// (a total, period, month, quarter or unrecognised row).
  datatype RowView = DayRow(day: Day) | WeekRow(week: Week) | Skipped

  function ViewOf(r: RawRow): (v: RowView)
    ensures v.DayRow? <==> LineTypeOf(r.date) == Some(Journee)
    ensures v.WeekRow? <==> LineTypeOf(r.date) == Some(Semaine)
  {
    match LineTypeOf(r.date)
    case Some(Journee) => DayRow(DayOfRow(r))
    case Some(Semaine) => WeekRow(WeekOfRow(r))
    case _ => Skipped
  }

  /// The view of each row, in order.
  function ViewsOf(rows: seq<RawRow>): (vs: seq<RowView>)
    ensures |vs| == |rows|
  {
    if rows == [] then [] else ViewsOf(rows[..|rows| - 1]) + [ViewOf(rows[|rows| - 1])]
  }

  lemma ViewsOfSnoc(rows: seq<RawRow>, i: int)
    requires 0 <= i < |rows|
    ensures ViewsOf(rows[..i + 1]) == ViewsOf(rows[..i]) + [ViewOf(rows[i])]
  {
    assert rows[..i + 1][..i] == rows[..i];
  }

  /// The days of all day rows, in input order.
  function DaysOf(vs: seq<RowView>): seq<Day> {
    if vs == [] then []
    else if vs[0].DayRow? then [vs[0].day] + DaysOf(vs[1..])
    else DaysOf(vs[1..])
  }

  /// The weeks of all week rows as the rows give them, in input order.
  function WeekRowsOf(vs: seq<RowView>): seq<Week> {
    if vs == [] then []
    else if vs[0].WeekRow? then [vs[0].week] + WeekRowsOf(vs[1..])
    else WeekRowsOf(vs[1..])
  }

  /// The days of the day rows before the first week row.
  function DaysUntilWeekRow(vs: seq<RowView>): seq<Day> {
    if vs == [] || vs[0].WeekRow? then []
    else if vs[0].DayRow? then [vs[0].day] + DaysUntilWeekRow(vs[1..])
    else DaysUntilWeekRow(vs[1..])
  }

  /// Reference definition of the weeks: one per week row, holding the days
  /// of the day rows between it and the next week row.
  function WeeksOf(vs: seq<RowView>): seq<Week> {
    if vs == [] then []
    else if vs[0].WeekRow? then [vs[0].week.(days := vs[0].week.days + DaysUntilWeekRow(vs[1..]))] + WeeksOf(vs[1..])
    else WeeksOf(vs[1..])
  }

  function AppendToLast(ws: seq<Week>, d: Day): seq<Week>
    requires ws != []
  {
    ws[..|ws| - 1] + [ws[|ws| - 1].(days := ws[|ws| - 1].days + [d])]
  }

  /// What one more row at the end does to the day list.
  lemma {:induction false} DaysSnoc(vs: seq<RowView>, v: RowView)
    ensures DaysOf(vs + [v]) == DaysOf(vs) + (if v.DayRow? then [v.day] else [])
  {
    if vs != [] {
      assert (vs + [v])[1..] == vs[1..] + [v];
      DaysSnoc(vs[1..], v);
    }
  }

  /// What one more row at the end does to the days before the first week.
  lemma {:induction false} LeadingDaysSnoc(vs: seq<RowView>, v: RowView)
    ensures DaysUntilWeekRow(vs + [v])
            == DaysUntilWeekRow(vs) + (if v.DayRow? && WeeksOf(vs) == [] then [v.day] else [])
  {
    if vs != [] {
      assert (vs + [v])[1..] == vs[1..] + [v];
      LeadingDaysSnoc(vs[1..], v);
    }
  }

  /// What one more row at the end does to the weeks: a week row opens a new
  /// week, a day row joins the last week (if any), any other row changes
  /// nothing.
  lemma {:induction false} WeeksSnoc(vs: seq<RowView>, v: RowView)
    ensures WeeksOf(vs + [v])
            == if v.WeekRow? then WeeksOf(vs) + [v.week]
               else if v.DayRow? && WeeksOf(vs) != [] then AppendToLast(WeeksOf(vs), v.day)
               else WeeksOf(vs)
  {
    if vs == [] {
      assert [v][1..] == [];
      if v.WeekRow? {
        assert v.week.days + [] == v.week.days;
        assert WeeksOf([v]) == [v.week];
      }
    } else {
      var t := vs[1..];
      assert (vs + [v])[1..] == t + [v];
      WeeksSnoc(t, v);
      if vs[0].WeekRow? {
        LeadingDaysSnoc(t, v);
        var head := vs[0].week.(days := vs[0].week.days + DaysUntilWeekRow(t));
        var ws := WeeksOf(t);
        assert WeeksOf(vs) == [head] + ws;
        if v.DayRow? && ws != [] {
          assert DaysUntilWeekRow(t + [v]) == DaysUntilWeekRow(t);
          assert WeeksOf(vs + [v]) == [head] + AppendToLast(ws, v.day);
          assert ([head] + ws)[..|ws|] == [head] + ws[..|ws| - 1];
          assert ([head] + ws)[|ws|] == ws[|ws| - 1];
        } else if v.DayRow? {
          assert WeeksOf(t + [v]) == [];
          assert DaysUntilWeekRow(t + [v]) == DaysUntilWeekRow(t) + [v.day];
          assert vs[0].week.days + (DaysUntilWeekRow(t) + [v.day]) == head.days + [v.day];
          assert WeeksOf(vs) == [head];
          assert WeeksOf(vs + [v]) == [head.(days := head.days + [v.day])] == AppendToLast([head], v.day);
        } else {
          assert DaysUntilWeekRow(t + [v]) == DaysUntilWeekRow(t);
          assert WeeksOf(vs + [v]) == [head] + WeeksOf(t + [v]);
        }
      }
    }
  }

  /// All days of all weeks, in order.
  function AllWeekDays(ws: seq<Week>): seq<Day> {
    if ws == [] then [] else ws[0].days + AllWeekDays(ws[1..])
  }

  /// No day is lost or counted twice: the days before the first week row,
  /// followed by the days each week row collects, are exactly the day rows.
  lemma {:induction false} DaysPartitioned(vs: seq<RowView>)
    requires forall i :: 0 <= i < |vs| && vs[i].WeekRow? ==> vs[i].week.days == []
    ensures DaysUntilWeekRow(vs) + AllWeekDays(WeeksOf(vs)) == DaysOf(vs)
  {
    if vs != [] {
      DaysPartitioned(vs[1..]);
      if vs[0].WeekRow? {
        var ws := WeeksOf(vs);
        assert ws[1..] == WeeksOf(vs[1..]);
      }
    }
  }

  /// A week with its days removed.
  function Header(w: Week): Week { w.(days := []) }

  /// Each week is made from its own week row alone, in input order: its
  /// driving and rest are never summed from its days.
  lemma {:induction false} WeeksFollowWeekRows(vs: seq<RowView>)
    ensures |WeeksOf(vs)| == |WeekRowsOf(vs)|
    ensures forall i :: 0 <= i < |WeeksOf(vs)| ==> Header(WeeksOf(vs)[i]) == Header(WeekRowsOf(vs)[i])
  {
    if vs != [] {
      WeeksFollowWeekRows(vs[1..]);
    }
  }

  /// How `weekIndex` and `current` follow the weeks read so far: `current`
  /// names the last week row, and the index maps it to the last week.
  predicate Tracking(weeks: seq<Week>, weekIndex: map<string, nat>, current: Option<string>) {
    && (current.None? <==> weeks == [])
    && (current.Some? ==> current.value != [] && current.value in weekIndex
                          && weekIndex[current.value] == |weeks| - 1)
  }

  /// One pass of the loop of `extraireDonneesAnalyse` (lines 425-466).
  method ReadRow(row: RawRow, days: seq<Day>, weeks: seq<Week>, weekIndex: map<string, nat>, current: Option<string>)
    returns (days': seq<Day>, weeks': seq<Week>, weekIndex': map<string, nat>, current': Option<string>)
    requires Tracking(weeks, weekIndex, current)
    ensures Tracking(weeks', weekIndex', current')
    ensures days' == days + (if ViewOf(row).DayRow? then [ViewOf(row).day] else [])
    ensures weeks' == if ViewOf(row).WeekRow? then weeks + [ViewOf(row).week]
                      else if ViewOf(row).DayRow? && weeks != [] then AppendToLast(weeks, ViewOf(row).day)
                      else weeks
  {
    days', weeks', weekIndex', current' := days, weeks, weekIndex, current;
    var kind := LineTypeOf(row.date);
    if kind == Some(Journee) {
      var day := DayOfRow(row);
      days' := days + [day];
      if current.Some? && current.value != [] && current.value in weekIndex {
        var k := weekIndex[current.value];
        weeks' := weeks[k := weeks[k].(days := weeks[k].days + [day])];
      }
    } else if kind == Some(Semaine) {
      weeks' := weeks + [WeekOfRow(row)];
      weekIndex' := weekIndex[row.date := |weeks'| - 1];
      current' := Some(row.date);
    }
  }

  /// `extraireDonneesAnalyse`. Total lines, unrecognised lines and period,
  /// month and quarter rows are skipped. `weekIndex` plays the part of
  /// `semainesMap` and `current` of `semaineActuelle`; the week that the
  /// map finds is the one the source mutates through its reference.
  method ExtractAnalysisData(rows: seq<RawRow>) returns (days: seq<Day>, weeks: seq<Week>)
    ensures days == DaysOf(ViewsOf(rows))
    ensures weeks == WeeksOf(ViewsOf(rows))
  {
    days := [];
    weeks := [];
    var weekIndex: map<string, nat> := map[];
    var current: Option<string> := None;
    for i := 0 to |rows|
      invariant days == DaysOf(ViewsOf(rows[..i]))
      invariant weeks == WeeksOf(ViewsOf(rows[..i]))
      invariant Tracking(weeks, weekIndex, current)
    {
      ViewsOfSnoc(rows, i);
      DaysSnoc(ViewsOf(rows[..i]), ViewOf(rows[i]));
      WeeksSnoc(ViewsOf(rows[..i]), ViewOf(rows[i]));
      days, weeks, weekIndex, current := ReadRow(rows[i], days, weeks, weekIndex, current);
    }
    assert rows[..|rows|] == rows;
  }
}
