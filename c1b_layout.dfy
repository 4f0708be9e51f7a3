/// What `extraireDonneesAnalyse` makes of the rows `convertC1BToLigneRaw`
/// writes. The transformer writes each week's day rows before the week's
/// summary row, while the extraction attaches each day row to the week row
/// read before it: each week row thus collects the days of the following
/// week, the first week's days belong to no week, and the last week gets
/// none. Writing the summary row first gives each week its own days.
module C1BLayout {
  import opened Wrappers
  import opened Calendar
  import opened Types
  import opened Classifier
  import opened Extractor
  import opened C1BFormat
  import opened C1BDays
  import opened C1BWeeks
  import opened C1BTransformer
  import opened C1BReading

  /// The views of a list of day rows.
  function DayViews(ds: seq<Day>): (vs: seq<RowView>)
    ensures |vs| == |ds|
  {
    if ds == [] then [] else DayViews(ds[..|ds| - 1]) + [DayRow(ds[|ds| - 1])]
  }

  /// The analysed days of a list of rows.
  function DaysOfRows(rows: seq<RawRow>): (ds: seq<Day>)
    ensures |ds| == |rows|
  {
    if rows == [] then [] else DaysOfRows(rows[..|rows| - 1]) + [DayOfRow(rows[|rows| - 1])]
  }

  /// The last week with the days `ds` added.
  function AppendDays(ws: seq<Week>, ds: seq<Day>): seq<Week>
    requires ws != []
  {
    ws[..|ws| - 1] + [ws[|ws| - 1].(days := ws[|ws| - 1].days + ds)]
  }

  lemma {:induction false} ViewsOfAppend(a: seq<RawRow>, b: seq<RawRow>)
    ensures ViewsOf(a + b) == ViewsOf(a) + ViewsOf(b)
  {
    if b == [] {
      assert a + b == a;
    } else {
      var init := b[..|b| - 1];
      assert (a + b)[..|a + b| - 1] == a + init;
      ViewsOfAppend(a, init);
    }
  }

  /// Day rows after some rows join the last week, or the days before the
  /// first week when there is none yet.
  lemma {:induction false} AppendDayViews(vs: seq<RowView>, ds: seq<Day>)
    ensures WeeksOf(vs + DayViews(ds)) == if WeeksOf(vs) == [] then [] else AppendDays(WeeksOf(vs), ds)
    ensures DaysUntilWeekRow(vs + DayViews(ds)) == DaysUntilWeekRow(vs) + (if WeeksOf(vs) == [] then ds else [])
  {
    if ds == [] {
      assert vs + DayViews(ds) == vs;
      if WeeksOf(vs) != [] {
        var ws := WeeksOf(vs);
        assert ws[|ws| - 1].days + [] == ws[|ws| - 1].days;
        assert AppendDays(ws, ds) == ws;
      }
    } else {
      var init, d := ds[..|ds| - 1], ds[|ds| - 1];
      AppendDayViews(vs, init);
      var before := vs + DayViews(init);
      assert vs + DayViews(ds) == before + [DayRow(d)];
      WeeksSnoc(before, DayRow(d));
      LeadingDaysSnoc(before, DayRow(d));
      if WeeksOf(vs) != [] {
        var ws := WeeksOf(vs);
        var last := ws[|ws| - 1];
        assert last.days + init + [d] == last.days + ds;
        assert AppendToLast(AppendDays(ws, init), d) == AppendDays(ws, ds);
      }
    }
  }

  /// Each row of `rows` is read as a day.
  predicate ReadAsDays(rows: seq<RawRow>) {
    forall i :: 0 <= i < |rows| ==> ViewOf(rows[i]) == DayRow(DayOfRow(rows[i]))
  }

  /// The day rows of each week are read as days and its summary row as a
  /// week.
  predicate ReadAsWritten(es: seq<WeekEntry>) {
    forall j :: 0 <= j < |es| ==>
      ReadAsDays(es[j].1.dailyRows) && ViewOf(SummaryRow(es[j].1)) == WeekRow(WeekOfRow(SummaryRow(es[j].1)))
  }

  lemma {:induction false} ViewsOfDays(rows: seq<RawRow>)
    requires ReadAsDays(rows)
    ensures ViewsOf(rows) == DayViews(DaysOfRows(rows))
  {
    if rows != [] {
      var init := rows[..|rows| - 1];
      assert ReadAsDays(init);
      ViewsOfDays(init);
      assert DaysOfRows(rows)[..|rows| - 1] == DaysOfRows(init);
    }
  }

  /// The analysed week of the summary row of `w`, before any day joins it.
  function ReadHeader(w: WeekData): (h: Week)
    ensures h.days == []
  {
    WeekOfRow(SummaryRow(w))
  }

  /// The analysed days of the day rows of `w`.
  function ReadDays(w: WeekData): seq<Day> { DaysOfRows(w.dailyRows) }

  // The two layouts are stated for any reading of the weeks (`header`) and
  // of their days (`daysOf`); the rows are read by `ReadHeader` and
  // `ReadDays`.

  /// The views of the rows of `Assemble(es)`: each week's days, then the
  /// week.
  function AssembledViews(es: seq<WeekEntry>, header: WeekData -> Week, daysOf: WeekData -> seq<Day>): seq<RowView> {
    if es == [] then []
    else
      var e := es[|es| - 1];
      AssembledViews(es[..|es| - 1], header, daysOf) + DayViews(daysOf(e.1)) + [WeekRow(header(e.1))]
  }

  /// The views of the rows of `AssembleWeekFirst(es)`: each week, then its
  /// days.
  function WeekFirstViews(es: seq<WeekEntry>, header: WeekData -> Week, daysOf: WeekData -> seq<Day>): seq<RowView> {
    if es == [] then []
    else
      var e := es[|es| - 1];
      WeekFirstViews(es[..|es| - 1], header, daysOf) + [WeekRow(header(e.1))] + DayViews(daysOf(e.1))
  }

  lemma {:induction false} ViewsOfAssembled(es: seq<WeekEntry>)
    requires ReadAsWritten(es)
    ensures ViewsOf(Assemble(es)) == AssembledViews(es, ReadHeader, ReadDays)
  {
    if es != [] {
      var init, e := es[..|es| - 1], es[|es| - 1];
      assert ReadAsWritten(init);
      ViewsOfAssembled(init);
      ViewsOfAppend(Assemble(init), e.1.dailyRows);
      ViewsOfAppend(Assemble(init) + e.1.dailyRows, [SummaryRow(e.1)]);
      ViewsOfDays(e.1.dailyRows);
      assert ViewsOf([SummaryRow(e.1)]) == [WeekRow(ReadHeader(e.1))];
    }
  }

  lemma {:induction false} ViewsOfWeekFirst(es: seq<WeekEntry>)
    requires ReadAsWritten(es)
    ensures ViewsOf(AssembleWeekFirst(es)) == WeekFirstViews(es, ReadHeader, ReadDays)
  {
    if es != [] {
      var init, e := es[..|es| - 1], es[|es| - 1];
      var head := AssembleWeekFirst(init) + [SummaryRow(e.1)];
      assert ReadAsWritten(init);
      assert ReadAsDays(e.1.dailyRows);
      calc {
        ViewsOf(AssembleWeekFirst(es));
        ViewsOf(head + e.1.dailyRows);
        { ViewsOfAppend(head, e.1.dailyRows); }
        ViewsOf(head) + ViewsOf(e.1.dailyRows);
        { ViewsOfAppend(AssembleWeekFirst(init), [SummaryRow(e.1)]); }
        ViewsOf(AssembleWeekFirst(init)) + ViewsOf([SummaryRow(e.1)]) + ViewsOf(e.1.dailyRows);
        { ViewsOfWeekFirst(init);
          assert ViewsOf([SummaryRow(e.1)]) == [WeekRow(ReadHeader(e.1))];
          ViewsOfDays(e.1.dailyRows); }
        WeekFirstViews(init, ReadHeader, ReadDays) + [WeekRow(ReadHeader(e.1))] + DayViews(ReadDays(e.1));
        WeekFirstViews(es, ReadHeader, ReadDays);
      }
    }
  }

  /// The days the extraction gives the `j`-th week of `Assemble(es)`:
  /// those of the next week, none for the last.
  function NextDays(es: seq<WeekEntry>, j: int, daysOf: WeekData -> seq<Day>): seq<Day>
    requires 0 <= j < |es|
  {
    if j + 1 < |es| then daysOf(es[j + 1].1) else []
  }

  /// One more week: the days before its row join the previous week.
  lemma ShiftedStep(init: seq<WeekEntry>, e: WeekEntry, ws: seq<Week>, header: WeekData -> Week, daysOf: WeekData -> seq<Day>)
    requires forall w :: header(w).days == []
    requires |ws| == |init| > 0
    requires forall j :: 0 <= j < |init| ==> ws[j] == header(init[j].1).(days := NextDays(init, j, daysOf))
    ensures forall j :: 0 <= j < |init| + 1 ==>
              (AppendDays(ws, daysOf(e.1)) + [header(e.1)])[j]
              == header((init + [e])[j].1).(days := NextDays(init + [e], j, daysOf))
  {
    var es, ds := init + [e], daysOf(e.1);
    var ws2 := AppendDays(ws, ds) + [header(e.1)];
    forall j | 0 <= j < |es|
      ensures ws2[j] == header(es[j].1).(days := NextDays(es, j, daysOf))
    {
      if j < |init| - 1 {
        assert ws2[j] == ws[j];
        assert es[j] == init[j] && es[j + 1] == init[j + 1];
      } else if j == |init| - 1 {
        assert ws[j].days == [];
        assert es[j] == init[j] && es[j + 1] == e;
        assert ws2[j] == ws[j].(days := [] + ds);
        assert [] + ds == ds;
      } else {
        assert header(e.1).(days := []) == header(e.1);
      }
    }
  }

  /// As written: the week of each summary row holds the days of the next
  /// week, the last one none, and the first week's days come before any
  /// week row.
  lemma {:induction false} AssembledWeeks(es: seq<WeekEntry>, header: WeekData -> Week, daysOf: WeekData -> seq<Day>)
    requires forall w :: header(w).days == []
    ensures |WeeksOf(AssembledViews(es, header, daysOf))| == |es|
    ensures forall j :: 0 <= j < |es| ==>
              WeeksOf(AssembledViews(es, header, daysOf))[j] == header(es[j].1).(days := NextDays(es, j, daysOf))
    ensures es != [] ==> DaysUntilWeekRow(AssembledViews(es, header, daysOf)) == daysOf(es[0].1)
  {
    if es != [] {
      var init, e := es[..|es| - 1], es[|es| - 1];
      AssembledWeeks(init, header, daysOf);
      var before := AssembledViews(init, header, daysOf);
      var ds := daysOf(e.1);
      var middle := before + DayViews(ds);
      var week := WeekRow(header(e.1));
      assert AssembledViews(es, header, daysOf) == middle + [week];
      AppendDayViews(before, ds);
      WeeksSnoc(middle, week);
      LeadingDaysSnoc(middle, week);
      assert es == init + [e];
      if init == [] {
        assert header(e.1).(days := []) == header(e.1);
      } else {
        ShiftedStep(init, e, WeeksOf(before), header, daysOf);
      }
    }
  }

  /// The corrected layout: each week's summary row, then its day rows.
  function AssembleWeekFirst(es: seq<WeekEntry>): seq<RawRow> {
    if es == [] then []
    else AssembleWeekFirst(es[..|es| - 1]) + [SummaryRow(es[|es| - 1].1)] + es[|es| - 1].1.dailyRows
  }

  /// In the corrected layout every week holds its own days and no day
  /// comes before the first week.
  lemma {:induction false} WeekFirstWeeks(es: seq<WeekEntry>, header: WeekData -> Week, daysOf: WeekData -> seq<Day>)
    requires forall w :: header(w).days == []
    ensures |WeeksOf(WeekFirstViews(es, header, daysOf))| == |es|
    ensures forall j :: 0 <= j < |es| ==>
              WeeksOf(WeekFirstViews(es, header, daysOf))[j] == header(es[j].1).(days := daysOf(es[j].1))
    ensures DaysUntilWeekRow(WeekFirstViews(es, header, daysOf)) == []
  {
    if es != [] {
      var init, e := es[..|es| - 1], es[|es| - 1];
      WeekFirstWeeks(init, header, daysOf);
      var before := WeekFirstViews(init, header, daysOf);
      var ds := daysOf(e.1);
      var week := WeekRow(header(e.1));
      var withWeek := before + [week];
      WeeksSnoc(before, week);
      LeadingDaysSnoc(before, week);
      AppendDayViews(withWeek, ds);
      assert header(e.1).(days := [] + ds) == header(e.1).(days := ds);
    }
  }

  /// The day rows the transformer writes are read as days.
  lemma DailyRowsReadAsDays(days: seq<DayData>)
    ensures ReadAsDays(DailyRows(days))
  {
    var rows := DailyRows(days);
    forall i | 0 <= i < |rows| ensures ViewOf(rows[i]) == DayRow(DayOfRow(rows[i])) {
      DateLabelIsDay(DateFromKey(days[i].key));
    }
  }

  /// A week with an ISO week label and the rows of some days is read
  /// back as written.
  lemma WeekReadAsWritten(w: WeekData, id: WeekId, ds: seq<DayData>)
    requires w.weekLabel == WeekLabel(id.year, id.number) && w.dailyRows == DailyRows(ds)
    ensures ReadAsDays(w.dailyRows) && ViewOf(SummaryRow(w)) == WeekRow(WeekOfRow(SummaryRow(w)))
  {
    DailyRowsReadAsDays(ds);
    WeekLabelIsWeek(id.year, id.number);
  }

  /// Every week the transformer writes is read back as written: its day
  /// rows as days and its summary row as a week.
  lemma SortedWeeksReadAsWritten(acts: seq<Activity>, localDate: int -> Date)
    ensures ReadAsWritten(SortedWeeks(acts, localDate))
  {
    var es := SortedWeeks(acts, localDate);
    var days := SortedDays(acts, localDate);
    forall j | 0 <= j < |es|
      ensures ReadAsDays(es[j].1.dailyRows) && ViewOf(SummaryRow(es[j].1)) == WeekRow(WeekOfRow(SummaryRow(es[j].1)))
    {
      ConvertWeeks(acts, localDate, j);
      var id :| id in WeekKeys(days, DayWeek) && es[j].1.weekLabel == WeekLabel(id.year, id.number)
                && es[j].1.dailyRows == DailyRows(DaysOfWeek(days, DayWeek, id));
      WeekReadAsWritten(es[j].1, id, DaysOfWeek(days, DayWeek, id));
    }
  }

  lemma SortedWeeksNonEmpty(acts: seq<Activity>, localDate: int -> Date)
    requires acts != []
    ensures SortedWeeks(acts, localDate) != []
  {
    ConvertEmpty(acts, localDate);
  }

  /// As written, reading the rows of `convertC1BToLigneRaw` back with
  /// `extraireDonneesAnalyse` gives one week per week of the output, each
  /// holding the days of the week after it (the last one none), while the
  /// days of the first week belong to no week.
  lemma C1BWeeksMisread(acts: seq<Activity>, localDate: int -> Date)
    requires acts != []
    ensures var es := SortedWeeks(acts, localDate);
            var vs := ViewsOf(C1BRows(acts, localDate));
            && es != []
            && |WeeksOf(vs)| == |es|
            && (forall j :: 0 <= j < |es| ==> WeeksOf(vs)[j] == ReadHeader(es[j].1).(days := NextDays(es, j, ReadDays)))
            && WeeksOf(vs)[|es| - 1].days == []
            && DaysUntilWeekRow(vs) == ReadDays(es[0].1)
  {
    var es := SortedWeeks(acts, localDate);
    SortedWeeksNonEmpty(acts, localDate);
    SortedWeeksReadAsWritten(acts, localDate);
    ViewsOfAssembled(es);
    AssembledWeeks(es, ReadHeader, ReadDays);
  }

  /// The corrected output: each week's summary row before its day rows.
  function C1BRowsWeekFirst(acts: seq<Activity>, localDate: int -> Date): seq<RawRow> {
    if acts == [] then [] else AssembleWeekFirst(SortedWeeks(acts, localDate))
  }

  /// With the corrected layout every week is read back with its own days
  /// and no day is left before the first week.
  lemma C1BWeekFirstReadBack(acts: seq<Activity>, localDate: int -> Date)
    ensures var es := SortedWeeks(acts, localDate);
            var vs := ViewsOf(C1BRowsWeekFirst(acts, localDate));
            && |WeeksOf(vs)| == |es|
            && (forall j :: 0 <= j < |es| ==> WeeksOf(vs)[j] == ReadHeader(es[j].1).(days := ReadDays(es[j].1)))
            && DaysUntilWeekRow(vs) == []
  {
    var es := SortedWeeks(acts, localDate);
    if acts == [] {
      assert es == [] by { ConvertEmpty(acts, localDate); }
    } else {
      SortedWeeksReadAsWritten(acts, localDate);
      ViewsOfWeekFirst(es);
      WeekFirstWeeks(es, ReadHeader, ReadDays);
    }
  }
}
