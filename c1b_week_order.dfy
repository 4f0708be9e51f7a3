/// The order of the weeks in the output of `convertC1BToLigneRaw`. The
/// weeks are sorted by their string key, `${weekYear}-W${weekNum}`, and the
/// week number is not zero-padded: "2024-W10" sorts before "2024-W9", so
/// weeks 10 to 19 of a year come out before weeks 2 to 9. The order in
/// which the grouping loop inserts the weeks is already chronological.
module C1BWeekOrder {
  import opened Text
  import opened Calendar
  import opened Types
  import opened Sorting
  import opened C1BFormat
  import opened C1BDays
  import opened C1BWeeks
  import opened C1BTransformer

  /// ISO week `a` is not later than ISO week `b`.
  predicate WeekIdLe(a: WeekId, b: WeekId) {
    a.year < b.year || (a.year == b.year && a.number <= b.number)
  }

  /// ISO week `a` is earlier than ISO week `b`.
  predicate WeekIdBefore(a: WeekId, b: WeekId) {
    WeekIdLe(a, b) && a != b
  }

  // ---------------------------------------------------------------------
  // As written: sorting by the string key

  lemma WeekKeyNineTen()
    ensures !StrLe(WeekKey(2024, 9), WeekKey(2024, 10))
    ensures StrLe(WeekKey(2024, 10), WeekKey(2024, 9))
  {
    WeekKeys2024();
    StrLePrefix("2024-W", "9", "10");
    StrLePrefix("2024-W", "10", "9");
    assert !StrLe("9", "10") && StrLe("10", "9");
  }

  /// The keys of weeks 9 and 10 of 2024.
  lemma WeekKeys2024()
    ensures WeekKey(2024, 9) == "2024-W" + "9" && WeekKey(2024, 10) == "2024-W" + "10"
  {
    assert IntToString(2024) == "2024";
    assert NatToString(9) == "9";
    assert NatToString(10) == "10";
  }

  /// Weeks 9 and 10 of 2024, inserted in calendar order, come out of the
  /// sort the other way round.
  lemma SortEntriesWeekTenFirst(w9: WeekData, w10: WeekData)
    ensures SortEntries([(WeekKey(2024, 9), w9), (WeekKey(2024, 10), w10)])
            == [(WeekKey(2024, 10), w10), (WeekKey(2024, 9), w9)]
  {
    var e9, e10 := (WeekKey(2024, 9), w9), (WeekKey(2024, 10), w10);
    var r := SortEntries([e9, e10]);
    WeekKeyNineTen();
    assert multiset(r) == multiset{e9, e10};
    assert |r| == 2;
    assert e9 != e10;
    assert e9 in multiset(r) && e10 in multiset(r);
    assert r == [r[0], r[1]];
    assert multiset(r) == multiset{r[0], r[1]};
    assert StrLe(r[0].0, r[1].0);
  }

  // ---------------------------------------------------------------------
  // Corrected: the insertion order

  /// When later days never have an earlier week, the weeks are inserted
  /// strictly in order.
  lemma {:induction false} WeekKeysIncreasing(days: seq<DayData>, weekOf: DayData -> WeekId)
    requires forall i, j :: 0 <= i < j < |days| ==> WeekIdLe(weekOf(days[i]), weekOf(days[j]))
    ensures forall i, j :: 0 <= i < j < |WeekKeys(days, weekOf)| ==>
              WeekIdBefore(WeekKeys(days, weekOf)[i], WeekKeys(days, weekOf)[j])
  {
    if days != [] {
      var init, d := days[..|days| - 1], days[|days| - 1];
      assert forall i :: 0 <= i < |init| ==> init[i] == days[i];
      WeekKeysIncreasing(init, weekOf);
      WeekKeysOfDays(init, weekOf);
      var ik, keys := WeekKeys(init, weekOf), WeekKeys(days, weekOf);
      if weekOf(d) !in ik {
        assert keys == ik + [weekOf(d)];
        forall i, j | 0 <= i < j < |keys| ensures WeekIdBefore(keys[i], keys[j]) {
          if j == |ik| {
            assert ik[i] in ik;
            var m :| 0 <= m < |init| && weekOf(init[m]) == ik[i];
            assert WeekIdLe(weekOf(days[m]), weekOf(days[|days| - 1]));
          } else {
            assert keys[i] == ik[i] && keys[j] == ik[j];
          }
        }
      }
    }
  }

  /// The days all have a year the key reads as itself.
  predicate ModernDays(days: seq<DayData>) {
    forall i :: 0 <= i < |days| ==> !(0 <= days[i].key.year <= 99)
  }

  /// Later sorted days never have an earlier ISO week.
  lemma DayWeekMonotone(days: seq<DayData>)
    requires ModernDays(days)
    requires forall i, j :: 0 <= i < j < |days| ==> DayNumber(days[i].key) < DayNumber(days[j].key)
    ensures forall i, j :: 0 <= i < j < |days| ==> WeekIdLe(DayWeek(days[i]), DayWeek(days[j]))
  {
    forall i, j | 0 <= i < j < |days| ensures WeekIdLe(DayWeek(days[i]), DayWeek(days[j])) {
      IsoWeekMonotone(DateFromKey(days[i].key), DateFromKey(days[j].key));
    }
  }

  /// The corrected `sortedWeeks`: the weeks in the order the grouping loop
  /// inserts them.
  function WeeksInOrder(acts: seq<Activity>, localDate: int -> Date): seq<WeekEntry> {
    WeekEntries(SortedDays(acts, localDate), DayWeek)
  }

  /// The corrected output: the weeks in calendar order.
  function C1BRowsInOrder(acts: seq<Activity>, localDate: int -> Date): seq<RawRow> {
    if acts == [] then [] else Assemble(WeeksInOrder(acts, localDate))
  }

  /// Each sorted day is the date of one of the activities.
  lemma ModernDay(acts: seq<Activity>, localDate: int -> Date, days: seq<DayData>, i: int)
    requires days == SortedDays(acts, localDate) && 0 <= i < |days|
    requires forall i :: 0 <= i < |acts| ==> !(0 <= localDate(acts[i].start).year <= 99)
    ensures !(0 <= days[i].key.year <= 99)
  {
    var values, keys := DayValues(acts, localDate), DayKeys(acts, localDate);
    SortedDaysChronological(acts, localDate);
    assert days[i] in multiset(values);
    var m :| 0 <= m < |values| && values[m] == days[i];
    DayTotals(acts, localDate, keys[m]);
    DayKeysOfActivities(acts, localDate);
    assert keys[m] in keys;
    var k :| 0 <= k < |acts| && localDate(acts[k].start) == keys[m];
  }

  /// For activities dated after the year 99, the corrected weeks are the
  /// ISO weeks of the days strictly in calendar order, the same weeks the
  /// sort rearranges.
  lemma WeeksInOrderChronological(acts: seq<Activity>, localDate: int -> Date)
    requires forall i :: 0 <= i < |acts| ==> !(0 <= localDate(acts[i].start).year <= 99)
    ensures var keys := WeekKeys(SortedDays(acts, localDate), DayWeek);
            var es := WeeksInOrder(acts, localDate);
            && |es| == |keys|
            && (forall i :: 0 <= i < |es| ==> es[i].0 == KeyString(keys[i]))
            && (forall i, j :: 0 <= i < j < |keys| ==> WeekIdBefore(keys[i], keys[j]))
            && multiset(es) == multiset(SortedWeeks(acts, localDate))
  {
    var days := SortedDays(acts, localDate);
    SortedDaysChronological(acts, localDate);
    assert ModernDays(days) by {
      forall i | 0 <= i < |days| ensures !(0 <= days[i].key.year <= 99) {
        ModernDay(acts, localDate, days, i);
      }
    }
    DayWeekMonotone(days);
    WeekKeysIncreasing(days, DayWeek);
  }
}
