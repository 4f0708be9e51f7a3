/// `convertC1BToLigneRaw`, first half: the activities of one driver grouped
/// into days by the local day of their start, and one spreadsheet row per
/// day.
module C1BDays {
  import opened Wrappers
  import opened Calendar
  import opened Types
  import opened Counting
  import opened Sorting
  import opened C1BFormat

  /// The `type` of a `C1BActivity`.
  datatype ActivityKind = Driving | Work | Rest | Availability | UnknownKind

  /// `C1BActivity`: `start` and `end` are instants in milliseconds since the
  /// epoch, as `new Date(...).getTime()` gives them.
  datatype Activity = Activity(kind: ActivityKind, start: int, end: int, durationMinutes: int)

  /// `DayData`: `earliestWorkStart` is `None` while it is still `Infinity`.
  datatype DayData = DayData(
    key: Date,
    drivingMinutes: int,
    restMinutes: int,
    earliestWorkStart: Option<int>,
    latestWorkEnd: int,
    hasWorkActivity: bool)

  /// The record a day starts with when its first activity is met.
  function NewDay(key: Date): DayData { DayData(key, 0, 0, None, 0, false) }

  /// What one activity of the day does to the day's record.
  function AddActivity(d: DayData, a: Activity): DayData {
    var d1 :=
      if a.kind == Driving then d.(drivingMinutes := d.drivingMinutes + a.durationMinutes)
      else if a.kind == Rest then d.(restMinutes := d.restMinutes + a.durationMinutes)
      else d;
    if a.kind == Rest then d1
    else
      d1.(hasWorkActivity := true,
          earliestWorkStart := if d1.earliestWorkStart.None? || a.start < d1.earliestWorkStart.value
                               then Some(a.start) else d1.earliestWorkStart,
          latestWorkEnd := if a.end > d1.latestWorkEnd then a.end else d1.latestWorkEnd)
  }

  /// The keys of `dayMap` in the order the loop inserts them: each day key
  /// at its first activity. `localDate` is `extractLocalDate`, the local
  /// day of an instant.
  function DayKeys(acts: seq<Activity>, localDate: int -> Date): seq<Date> {
    if acts == [] then []
    else
      var keys := DayKeys(acts[..|acts| - 1], localDate);
      var k := localDate(acts[|acts| - 1].start);
      if k in keys then keys else keys + [k]
  }

  /// `dayMap.get(key)` once the activities `acts` have been read.
  function DayOf(acts: seq<Activity>, localDate: int -> Date, key: Date): DayData {
    if acts == [] then NewDay(key)
    else
      var d := DayOf(acts[..|acts| - 1], localDate, key);
      var a := acts[|acts| - 1];
      if localDate(a.start) == key then AddActivity(d, a) else d
  }

  /// Step 1 of the transformation: the loop filling `dayMap`. The map is
  /// returned with its keys in insertion order.
  method GroupByDay(acts: seq<Activity>, localDate: int -> Date) returns (keys: seq<Date>, dayMap: map<Date, DayData>)
    ensures keys == DayKeys(acts, localDate)
    ensures forall k :: k in dayMap <==> k in keys
    ensures forall k :: k in dayMap ==> dayMap[k] == DayOf(acts, localDate, k)
  {
    keys, dayMap := [], map[];
    var i := 0;
    while i < |acts|
      invariant 0 <= i <= |acts|
      invariant keys == DayKeys(acts[..i], localDate)
      invariant forall k :: k in dayMap <==> k in keys
      invariant forall k :: k in dayMap ==> dayMap[k] == DayOf(acts[..i], localDate, k)
    {
      var activity := acts[i];
      var dateKey := localDate(activity.start);
      var startTs := activity.start;
      var endTs := activity.end;
      assert acts[..i + 1][..i] == acts[..i];
      if dateKey !in dayMap {
        DayOfAbsent(acts[..i], localDate, dateKey);
        dayMap := dayMap[dateKey := NewDay(dateKey)];
        keys := keys + [dateKey];
      }
      var day := dayMap[dateKey];
      ghost var before := day;
      if activity.kind == Driving {
        day := day.(drivingMinutes := day.drivingMinutes + activity.durationMinutes);
      } else if activity.kind == Rest {
        day := day.(restMinutes := day.restMinutes + activity.durationMinutes);
      }
      if activity.kind != Rest {
        day := day.(hasWorkActivity := true);
        if day.earliestWorkStart.None? || startTs < day.earliestWorkStart.value {
          day := day.(earliestWorkStart := Some(startTs));
        }
        if endTs > day.latestWorkEnd {
          day := day.(latestWorkEnd := endTs);
        }
      }
      assert day == AddActivity(before, activity);
      dayMap := dayMap[dateKey := day];
      i := i + 1;
    }
    assert acts[..i] == acts;
  }

  /// A day without activity yet still has its starting record.
  lemma {:induction false} DayOfAbsent(acts: seq<Activity>, localDate: int -> Date, key: Date)
    requires key !in DayKeys(acts, localDate)
    ensures DayOf(acts, localDate, key) == NewDay(key)
  {
    if acts != [] {
      DayOfAbsent(acts[..|acts| - 1], localDate, key);
    }
  }

  // ---------------------------------------------------------------------
  // What a day's record holds

  /// An activity of day `key` that is not a rest: it stretches the amplitude.
  predicate WorksOn(a: Activity, localDate: int -> Date, key: Date) {
    localDate(a.start) == key && a.kind != Rest
  }

  /// The day's driving is the sum of the durations of its DRIVING
  /// activities, and its rest the sum of those of its REST activities; no
  /// other activity and no activity of another day counts.
  lemma {:induction false} DayTotals(acts: seq<Activity>, localDate: int -> Date, key: Date)
    ensures DayOf(acts, localDate, key).key == key
    ensures DayOf(acts, localDate, key).drivingMinutes
            == SumOf(acts, (a: Activity) => if localDate(a.start) == key && a.kind == Driving then a.durationMinutes else 0)
    ensures DayOf(acts, localDate, key).restMinutes
            == SumOf(acts, (a: Activity) => if localDate(a.start) == key && a.kind == Rest then a.durationMinutes else 0)
  {
    if acts != [] {
      DayTotals(acts[..|acts| - 1], localDate, key);
    }
  }

  /// The earliest start is set exactly when the day has an activity other
  /// than a rest, and the flag `hasWorkActivity` says the same.
  lemma {:induction false} DayWorkFlag(acts: seq<Activity>, localDate: int -> Date, key: Date)
    ensures DayOf(acts, localDate, key).hasWorkActivity <==> DayOf(acts, localDate, key).earliestWorkStart.Some?
    ensures DayOf(acts, localDate, key).hasWorkActivity
            <==> exists i :: 0 <= i < |acts| && WorksOn(acts[i], localDate, key)
  {
    if acts != [] {
      var init := acts[..|acts| - 1];
      DayWorkFlag(init, localDate, key);
      if exists i :: 0 <= i < |init| && WorksOn(init[i], localDate, key) {
        var i :| 0 <= i < |init| && WorksOn(init[i], localDate, key);
        assert WorksOn(acts[i], localDate, key);
      }
    }
  }

  /// `earliestWorkStart` is the earliest start of the day's non-rest
  /// activities.
  lemma {:induction false} EarliestWorkStart(acts: seq<Activity>, localDate: int -> Date, key: Date)
    ensures var e := DayOf(acts, localDate, key).earliestWorkStart;
            e.Some? ==> (exists i :: 0 <= i < |acts| && WorksOn(acts[i], localDate, key) && acts[i].start == e.value)
                        && forall i :: 0 <= i < |acts| && WorksOn(acts[i], localDate, key) ==> e.value <= acts[i].start
  {
    if acts != [] {
      var init := acts[..|acts| - 1];
      var last := acts[|acts| - 1];
      EarliestWorkStart(init, localDate, key);
      DayWorkFlag(init, localDate, key);
      var e := DayOf(init, localDate, key).earliestWorkStart;
      assert forall i :: 0 <= i < |init| ==> acts[i] == init[i];
      if e.Some? {
        var i :| 0 <= i < |init| && WorksOn(init[i], localDate, key) && init[i].start == e.value;
        assert acts[i] == init[i];
      }
      if WorksOn(last, localDate, key) && (e.None? || last.start < e.value) {
        assert WorksOn(acts[|acts| - 1], localDate, key);
      }
    }
  }

  /// `latestWorkEnd` starts at 0 and then is the latest end of the day's
  /// non-rest activities, whenever that is later than 0.
  lemma {:induction false} LatestWorkEnd(acts: seq<Activity>, localDate: int -> Date, key: Date)
    ensures var l := DayOf(acts, localDate, key).latestWorkEnd;
            0 <= l
            && (forall i :: 0 <= i < |acts| && WorksOn(acts[i], localDate, key) ==> acts[i].end <= l)
            && (l == 0 || exists i :: 0 <= i < |acts| && WorksOn(acts[i], localDate, key) && acts[i].end == l)
  {
    if acts != [] {
      var init := acts[..|acts| - 1];
      LatestWorkEnd(init, localDate, key);
      var l := DayOf(init, localDate, key).latestWorkEnd;
      if l != 0 {
        var i :| 0 <= i < |init| && WorksOn(init[i], localDate, key) && init[i].end == l;
        assert acts[i] == init[i];
      }
      assert forall i :: 0 <= i < |init| ==> acts[i] == init[i];
    }
  }

  /// Every activity's day is among the keys, and no key is listed twice.
  lemma {:induction false} DayKeysOfActivities(acts: seq<Activity>, localDate: int -> Date)
    ensures forall i :: 0 <= i < |acts| ==> localDate(acts[i].start) in DayKeys(acts, localDate)
    ensures forall k :: k in DayKeys(acts, localDate) ==> exists i :: 0 <= i < |acts| && localDate(acts[i].start) == k
    ensures Distinct(DayKeys(acts, localDate))
  {
    if acts != [] {
      var init := acts[..|acts| - 1];
      DayKeysOfActivities(init, localDate);
      forall k | k in DayKeys(acts, localDate)
        ensures exists i :: 0 <= i < |acts| && localDate(acts[i].start) == k
      {
        if k in DayKeys(init, localDate) {
          var i :| 0 <= i < |init| && localDate(init[i].start) == k;
          assert acts[i] == init[i];
        } else {
          assert localDate(acts[|acts| - 1].start) == k;
        }
      }
      assert forall i :: 0 <= i < |init| ==> acts[i] == init[i];
    }
  }

  predicate Distinct<T(==)>(s: seq<T>) {
    forall i, j :: 0 <= i < j < |s| ==> s[i] != s[j]
  }

  // ---------------------------------------------------------------------
  // Sorting the days and writing their rows

  /// `Array.from(dayMap.values())`: the records in insertion order.
  function DayValues(acts: seq<Activity>, localDate: int -> Date): (days: seq<DayData>)
    ensures |days| == |DayKeys(acts, localDate)|
    ensures forall i :: 0 <= i < |days| ==> days[i] == DayOf(acts, localDate, DayKeys(acts, localDate)[i])
  {
    var keys := DayKeys(acts, localDate);
    seq(|keys|, i requires 0 <= i < |keys| => DayOf(acts, localDate, keys[i]))
  }

  /// The position of a day in the calendar, the order the source's
  /// `a.dateKey.localeCompare(b.dateKey)` gives four-digit years.
  function DayRank(d: DayData): int { DayNumber(d.key) }

  /// Step 2: `sortedDays`.
  function SortedDays(acts: seq<Activity>, localDate: int -> Date): seq<DayData> {
    SortBy(DayValues(acts, localDate), DayRank)
  }

  /// The sorted days are those of `dayMap`, each once, strictly in
  /// calendar order.
  lemma SortedDaysChronological(acts: seq<Activity>, localDate: int -> Date)
    ensures multiset(SortedDays(acts, localDate)) == multiset(DayValues(acts, localDate))
    ensures forall i, j :: 0 <= i < j < |SortedDays(acts, localDate)| ==>
              DayNumber(SortedDays(acts, localDate)[i].key) < DayNumber(SortedDays(acts, localDate)[j].key)
  {
    var values := DayValues(acts, localDate);
    var sorted := SortedDays(acts, localDate);
    var keys := DayKeys(acts, localDate);
    DayKeysOfActivities(acts, localDate);
    forall i | 0 <= i < |values| ensures values[i].key == keys[i] {
      DayTotals(acts, localDate, keys[i]);
    }
    assert Distinct(values);
    forall i, j | 0 <= i < j < |sorted| ensures DayNumber(sorted[i].key) < DayNumber(sorted[j].key) {
      if DayNumber(sorted[i].key) == DayNumber(sorted[j].key) {
        ChronologicalOrder(sorted[i].key, sorted[j].key);
        assert sorted[i] in multiset(values) && sorted[j] in multiset(values);
        var a :| 0 <= a < |values| && values[a] == sorted[i];
        var b :| 0 <= b < |values| && values[b] == sorted[j];
        assert a == b;
        TwoOccurrences(sorted, i, j);
        AtMostOnce(values, sorted[i]);
        assert false;
      }
    }
  }

  lemma TwoOccurrences<T>(s: seq<T>, i: int, j: int)
    requires 0 <= i < j < |s| && s[i] == s[j]
    ensures multiset(s)[s[i]] >= 2
  {
    assert s == s[..j] + [s[j]] + s[j + 1..];
    assert s[i] in s[..j];
  }

  lemma {:induction false} AtMostOnce<T>(s: seq<T>, x: T)
    requires Distinct(s)
    ensures multiset(s)[x] <= 1
  {
    if s != [] {
      var init := s[..|s| - 1];
      assert s == init + [s[|s| - 1]];
      AtMostOnce(init, x);
      if x == s[|s| - 1] {
        assert x !in init;
      }
    }
  }

  /// `Math.round(ms / 60000)` for a whole number of milliseconds: halves
  /// round up.
  function RoundMinutes(ms: int): (m: int)
    ensures 60000 * m - 30000 <= ms < 60000 * m + 30000
  {
    (ms + 30000) / 60000
  }

  /// The amplitude of a day in minutes, 0 when it has no non-rest activity.
  function AmplitudeMinutes(d: DayData): int {
    if d.hasWorkActivity && d.earliestWorkStart.Some?
    then RoundMinutes(d.latestWorkEnd - d.earliestWorkStart.value)
    else 0
  }

  /// Step 3: the row of one day.
  function DailyRow(d: DayData): (r: RawRow)
    ensures r.distance == 0 && r.weeklyRest == Some("")
  {
    RawRow(FormatDateFr(DateFromKey(d.key)),
           Some(FormatHHMM(d.drivingMinutes)),
           Some(FormatHHMM(d.restMinutes)),
           Some(FormatHHMM(AmplitudeMinutes(d))),
           0,
           Some(""))
  }

  /// `dailyRows`, one per sorted day.
  function DailyRows(days: seq<DayData>): (rows: seq<RawRow>)
    ensures |rows| == |days|
    ensures forall i :: 0 <= i < |days| ==> rows[i] == DailyRow(days[i])
  {
    seq(|days|, i requires 0 <= i < |days| => DailyRow(days[i]))
  }

  lemma DailyRowsSnoc(days: seq<DayData>, d: DayData)
    ensures DailyRows(days + [d]) == DailyRows(days) + [DailyRow(d)]
  {
    assert forall i :: 0 <= i < |days| ==> (days + [d])[i] == days[i];
  }

  /// A day without a non-rest activity has amplitude 0.
  lemma DayAmplitudeWithoutWork(acts: seq<Activity>, localDate: int -> Date, key: Date)
    requires forall i :: 0 <= i < |acts| ==> !WorksOn(acts[i], localDate, key)
    ensures AmplitudeMinutes(DayOf(acts, localDate, key)) == 0
  {
    DayWorkFlag(acts, localDate, key);
  }

  /// Otherwise the amplitude is the rounded number of minutes from the
  /// earliest start of its non-rest activities to `latestWorkEnd`, which
  /// `LatestWorkEnd` describes.
  lemma DayAmplitudeWithWork(acts: seq<Activity>, localDate: int -> Date, key: Date, first: int)
    requires 0 <= first < |acts| && WorksOn(acts[first], localDate, key)
    requires forall k :: 0 <= k < |acts| && WorksOn(acts[k], localDate, key) ==> acts[first].start <= acts[k].start
    ensures AmplitudeMinutes(DayOf(acts, localDate, key))
            == RoundMinutes(DayOf(acts, localDate, key).latestWorkEnd - acts[first].start)
  {
    DayWorkFlag(acts, localDate, key);
    EarliestWorkStart(acts, localDate, key);
  }
}
