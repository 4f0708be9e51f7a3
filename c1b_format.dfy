/// The formatting helpers of the C1B transformer: durations as "HH:MM",
/// days as French labels ("Lun. 30 Sept. 2024"), the ISO 8601 week of a day
/// (section 4.1.4 of ISO 8601:2004, the week holding the year's first
/// Thursday is week 1), the week keys and labels, and the file-name test.
module C1BFormat {
  import opened Wrappers
  import opened Text
  import opened Calendar
  import opened Conversions

  // ---------------------------------------------------------------------
  // formatMinutesToHHMM

  /// JavaScript's `%`: the remainder takes the sign of the dividend.
  function JsRem(n: int, d: int): (r: int)
    requires d > 0
    ensures n >= 0 ==> 0 <= r < d
    ensures n < 0 ==> -d < r <= 0
  {
    if n >= 0 then n % d else -((-n) % d)
  }

  /// `formatMinutesToHHMM`: the hours `Math.floor(n / 60)` and the minutes
  /// `n % 60`, each written with at least two digits. For a whole number of
  /// minutes `Math.round` leaves the remainder as it is.
  function FormatHHMM(n: int): string {
    PadStart(IntToString(n / 60), 2) + ":" + PadStart(IntToString(JsRem(n, 60)), 2)
  }

  /// `tempsVersMinutes` reads back every duration the transformer writes.
  lemma FormatHHMMRoundTrip(n: nat)
    ensures TimeToMinutes(Some(FormatHHMM(n))) == n
  {
    var hh := PadStart(NatToString(n / 60), 2);
    var mm := PadStart(NatToString(n % 60), 2);
    PaddedValue(n / 60, 2);
    PaddedValue(n % 60, 2);
    assert FormatHHMM(n) == hh + ":" + mm;
    TimeToMinutesOfDigits(hh, mm);
  }

  /// A negative duration does not read back: -30 minutes is written
  /// "-1:-30", which reads as -90.
  lemma NegativeDurationExample()
    ensures FormatHHMM(-30) == "-1:-30"
  {
    assert IntToString(-1) == "-1";
    assert IntToString(-30) == "-30" by {
      assert NatToString(30) == NatToString(3) + [DigitChar(0)];
    }
  }

  // ---------------------------------------------------------------------
  // formatDateFr

  /// `JOURS_FR`, indexed by `getDay()`.
  const WEEKDAYS: seq<string> := ["Dim", "Lun", "Mar", "Mer", "Jeu", "Ven", "Sam"]

  /// `MOIS_FR`, indexed by `getMonth()` (January is 0).
  const MONTHS: seq<string> := ["Janv", "Févr", "Mars", "Avr", "Mai", "Juin",
                                "Juil", "Août", "Sept", "Oct", "Nov", "Déc"]

  /// `formatDateFr`: "Lun. 30 Sept. 2024".
  function FormatDateFr(d: Date): string {
    WEEKDAYS[Weekday(d)] + ". " + NatToString(d.day) + " " + MONTHS[d.month - 1] + ". " + IntToString(d.year)
  }

  // ---------------------------------------------------------------------
  // dateFromKey

  /// `dateFromKey`: `new Date(y, m - 1, d)` of the key's numbers. JavaScript
  /// reads a year from 0 to 99 as 1900 to 1999, and 29 February of such a
  /// year becomes 1 March when the shifted year is a common one.
  function DateFromKey(key: Date): (d: Date)
    ensures !(0 <= key.year <= 99) ==> d == key
    ensures 0 <= key.year <= 99 ==> d.year == key.year + 1900
  {
    if 0 <= key.year <= 99 then ShiftYear(key, 1900) else key
  }

  // ---------------------------------------------------------------------
  // getISOWeekNumber and getISOWeekYear

  /// `getUTCDay() || 7`: Monday is 1 and Sunday 7.
  function IsoWeekday(d: Date): (w: int)
    ensures 1 <= w <= 7
  {
    if Weekday(d) == 0 then 7 else Weekday(d)
  }

  /// The Thursday of the Monday-to-Sunday week of `d`.
  function IsoThursday(d: Date): (t: Date)
    ensures DayNumber(t) == DayNumber(d) + 4 - IsoWeekday(d)
  {
    AddDays(d, 4 - IsoWeekday(d))
  }

  /// `getISOWeekYear`: the year of that Thursday.
  function IsoWeekYear(d: Date): int { IsoThursday(d).year }

  /// `getISOWeekNumber`: `ceil(n / 7)` where `n` is the day of the year of
  /// that Thursday (the milliseconds between two UTC midnights are a whole
  /// number of days).
  function IsoWeekNumber(d: Date): (n: int)
    ensures 1 <= n <= 53
  {
    (DayOfYear(IsoThursday(d)) + 6) / 7
  }

  lemma IsoThursdayIsThursday(d: Date)
    ensures Weekday(IsoThursday(d)) == 4
  {
    ThursdayStep(DayNumber(d));
  }

  /// Sunday counts as the seventh day: from the day numbered `n`, going to
  /// the fourth day of its week lands on a Thursday.
  lemma ThursdayStep(n: int)
    ensures var w := (n + 4) % 7;
            var dow := if w == 0 then 7 else w;
            (n + 4 - dow + 4) % 7 == 4
  {
    var w := (n + 4) % 7;
    var q := (n + 4) / 7;
    assert n + 4 == 7 * q + w;
    var dow := if w == 0 then 7 else w;
    assert n + 4 - dow + 4 == 7 * (q - (if w == 0 then 1 else 0)) + 4;
  }

  /// The Monday of the week of `d`.
  function WeekStart(d: Date): int { DayNumber(d) - IsoWeekday(d) + 1 }

  /// Days of one Monday-to-Sunday week share their Thursday, so their ISO
  /// week and week year.
  lemma SameWeekSameThursday(a: Date, b: Date)
    requires WeekStart(a) == WeekStart(b)
    ensures IsoThursday(a) == IsoThursday(b)
  {
    ChronologicalOrder(IsoThursday(a), IsoThursday(b));
  }

  /// Later days never have an earlier ISO week: ISO weeks follow the
  /// calendar.
  lemma IsoWeekMonotone(a: Date, b: Date)
    requires DayNumber(a) <= DayNumber(b)
    ensures IsoWeekYear(a) < IsoWeekYear(b)
            || (IsoWeekYear(a) == IsoWeekYear(b) && IsoWeekNumber(a) <= IsoWeekNumber(b))
  {
    var ta, tb := IsoThursday(a), IsoThursday(b);
    WeekStartMonotone(a, b);
    assert DayNumber(ta) <= DayNumber(tb);
    if ta.year > tb.year {
      ChronologicalOrder(tb, ta);
      assert Before(tb, ta);
    } else if ta.year == tb.year {
      DayOfYearMonotone(ta, tb);
    }
  }

  lemma WeekStartMonotone(a: Date, b: Date)
    requires DayNumber(a) <= DayNumber(b)
    ensures WeekStart(a) <= WeekStart(b)
  {
    MondayOf(DayNumber(a));
    MondayOf(DayNumber(b));
    DivMonotone(DayNumber(a) + 3, DayNumber(b) + 3);
  }

  /// The Monday of the week of the day numbered `n`, in closed form.
  lemma MondayOf(n: int)
    ensures var w := (n + 4) % 7;
            var dow := if w == 0 then 7 else w;
            n - dow + 1 == 7 * ((n + 3) / 7) - 3
  {
    var w := (n + 4) % 7;
    var q := (n + 4) / 7;
    assert n + 4 == 7 * q + w;
    var dow := if w == 0 then 7 else w;
    if w == 0 {
      assert n + 3 == 7 * (q - 1) + 6;
    } else {
      assert n + 3 == 7 * q + (w - 1);
    }
  }

  lemma DivMonotone(x: int, y: int)
    requires x <= y
    ensures x / 7 <= y / 7
  {
    assert x == 7 * (x / 7) + x % 7;
    assert y == 7 * (y / 7) + y % 7;
  }

  /// Within one year the day of the year follows the day number.
  lemma DayOfYearMonotone(a: Date, b: Date)
    requires a.year == b.year && DayNumber(a) <= DayNumber(b)
    ensures DayOfYear(a) <= DayOfYear(b)
  {
  }

  // ---------------------------------------------------------------------
  // Week keys and labels

  /// `${weekYear}-W${weekNum}`, the key the weeks are grouped and sorted by.
  function WeekKey(weekYear: int, weekNum: nat): string {
    IntToString(weekYear) + "-W" + NatToString(weekNum)
  }

  /// `Semaine ${weekNum} ${weekYear}`, the Date column of a week row.
  function WeekLabel(weekYear: int, weekNum: nat): string {
    "Semaine " + NatToString(weekNum) + " " + IntToString(weekYear)
  }

  /// Two weeks have the same key only when they have the same year and
  /// number, so grouping by the key is grouping by the pair.
  lemma WeekKeyInjective(y1: int, n1: nat, y2: int, n2: nat)
    requires WeekKey(y1, n1) == WeekKey(y2, n2)
    ensures y1 == y2 && n1 == n2
  {
    var a1, b1 := IntToString(y1), NatToString(n1);
    var a2, b2 := IntToString(y2), NatToString(n2);
    var s := WeekKey(y1, n1);
    LastW(a1, b1);
    LastW(a2, b2);
    assert s == (a1 + "-W") + b1 && s == (a2 + "-W") + b2;
    assert b1 == s[|s| - |b1|..] == b2;
    assert a1 + "-W" == s[..|s| - |b1|] == a2 + "-W";
    assert a1 == (a1 + "-W")[..|a1|];
    assert a2 == (a2 + "-W")[..|a2|];
    NatToStringInjective(n1, n2);
    IntToStringInjective(y1, y2);
  }

  /// The `W` of a week key is its last one.
  lemma LastW(a: string, b: string)
    requires AllDigits(b)
    ensures LastIndex(a + "-W" + b, 'W') == |a| + 1
  {
    var s := a + "-W" + b;
    var w := |a| + 1;
    assert s[w] == 'W';
  }

  lemma NatToStringInjective(m: nat, n: nat)
    requires NatToString(m) == NatToString(n)
    ensures m == n
  {
    NatToStringValue(m);
    NatToStringValue(n);
  }

  lemma IntToStringInjective(x: int, y: int)
    requires IntToString(x) == IntToString(y)
    ensures x == y
  {
    var s := IntToString(x);
    assert IsDigit(NatToString(if x < 0 then -x else x)[0]);
    assert IsDigit(NatToString(if y < 0 then -y else y)[0]);
    if x < 0 && y < 0 {
      assert NatToString(-x) == s[1..] == NatToString(-y);
      NatToStringInjective(-x, -y);
    } else if x >= 0 && y >= 0 {
      NatToStringInjective(x, y);
    }
  }

  // ---------------------------------------------------------------------
  // isC1BFile

  /// `fileName.toLowerCase().slice(fileName.lastIndexOf('.'))`: the index
  /// of the last dot is taken in the name and used in the lower-cased name,
  /// which is longer when the name has a dotted capital I. Without a dot,
  /// `slice(-1)` keeps the last character only.
  function Extension(fileName: string): (ext: string)
    ensures var lower := ToLowerCase(fileName);
            var i := LastIndex(fileName, '.');
            if i >= 0 then ext == lower[i..] else |ext| <= 1
  {
    var lower := ToLowerCase(fileName);
    var i := LastIndex(fileName, '.');
    if i >= 0 then lower[i..] else lower[|lower| - (if lower == [] then 0 else 1)..]
  }

  /// `isC1BFile`: the extension is ".c1b", ".ddd" or ".v1b".
  predicate IsC1BFile(fileName: string) {
    var ext := Extension(fileName);
    |ext| == 4 && ext[0] == '.' && IsC1BExtension(ext[1..])
  }

  predicate IsC1BExtension(ext: string) {
    ext == "c1b" || ext == "ddd" || ext == "v1b"
  }

  /// A file is a C1B file exactly when its name ends with a dot and one of
  /// the three extensions, in any case, and has no dotted capital I before
  /// that dot (which would shift the cut of the lower-cased name).
  lemma IsC1BFileSuffix(fileName: string)
    ensures IsC1BFile(fileName)
            <==> |fileName| >= 4 && fileName[|fileName| - 4] == '.'
                 && IsC1BExtension(LowerEach(fileName[|fileName| - 3..]))
                 && DOTTED_I !in fileName[..|fileName| - 4]
  {
    if IsC1BFile(fileName) {
      IsC1BFileOnlyIf(fileName);
    }
    if |fileName| >= 4 && fileName[|fileName| - 4] == '.'
       && IsC1BExtension(LowerEach(fileName[|fileName| - 3..])) && DOTTED_I !in fileName[..|fileName| - 4] {
      IsC1BFileIf(fileName);
    }
  }

  /// The lower-cased name split at the last dot of the name.
  lemma ExtensionSplit(fileName: string) returns (p: string, rest: string)
    requires LastIndex(fileName, '.') >= 0
    ensures var i := LastIndex(fileName, '.');
            fileName == p + ['.'] + rest && |p| == i && '.' !in rest
            && Extension(fileName) == ToLowerCase(p)[i..] + ['.'] + ToLowerCase(rest)
  {
    var i := LastIndex(fileName, '.');
    p, rest := fileName[..i], fileName[i + 1..];
    assert fileName == p + ['.'] + rest;
    LowerAround(p, rest);
    var lp, lr := ToLowerCase(p), ToLowerCase(rest);
    SliceAround(lp, lr, i);
  }

  lemma SliceAround(lp: string, lr: string, i: nat)
    requires i <= |lp|
    ensures (lp + ['.'] + lr)[i..] == lp[i..] + ['.'] + lr
  {
  }

  /// Lower-casing a name around one of its dots.
  lemma LowerAround(p: string, rest: string)
    ensures ToLowerCase(p + ['.'] + rest) == ToLowerCase(p) + ['.'] + ToLowerCase(rest)
  {
    ToLowerCaseConcat(p + ['.'], rest);
    ToLowerCaseConcat(p, ['.']);
    assert ['.'][..0] == [];
  }

  lemma IsC1BFileOnlyIf(fileName: string)
    requires IsC1BFile(fileName)
    ensures |fileName| >= 4 && fileName[|fileName| - 4] == '.'
    ensures IsC1BExtension(LowerEach(fileName[|fileName| - 3..]))
    ensures DOTTED_I !in fileName[..|fileName| - 4]
  {
    var n := |fileName|;
    var i := LastIndex(fileName, '.');
    var ext := Extension(fileName);
    var p, rest := ExtensionSplit(fileName);
    var e := |ToLowerCase(p)| - i;
    assert ext[e] == '.';
    NoDotInExtension(ext[1..]);
    if e > 0 {
      assert false;
    }
    assert DOTTED_I !in p;
    assert ext == ['.'] + ToLowerCase(rest);
    assert ToLowerCase(rest) == ext[1..];
    assert COMBINING_DOT !in ext[1..];
    assert DOTTED_I !in rest;
    assert |rest| == 3;
    assert i == n - 4;
    assert rest == fileName[n - 3..] && p == fileName[..n - 4];
  }

  lemma IsC1BFileIf(fileName: string)
    requires |fileName| >= 4 && fileName[|fileName| - 4] == '.'
    requires IsC1BExtension(LowerEach(fileName[|fileName| - 3..]))
    requires DOTTED_I !in fileName[..|fileName| - 4]
    ensures IsC1BFile(fileName)
  {
    var n := |fileName|;
    var rest := fileName[n - 3..];
    NoDotInExtension(LowerEach(rest));
    assert forall k :: 0 <= k < 3 ==> LowerEach(rest)[k] == LowerChar(rest[k]);
    assert '.' !in rest;
    assert DOTTED_I !in rest;
    LastIndexAt(fileName, '.', n - 4);
    var p, rest' := ExtensionSplit(fileName);
    assert p == fileName[..n - 4] && rest' == rest;
    assert Extension(fileName) == ['.'] + LowerEach(rest);
  }

  /// The name "İ.ddd" is refused: lower-casing it moves the dot one place
  /// to the right of the index where the name has it.
  lemma DottedINameRefused()
    ensures !IsC1BFile([DOTTED_I] + ".ddd")
  {
    IsC1BFileSuffix([DOTTED_I] + ".ddd");
    assert ([DOTTED_I] + ".ddd")[..1] == [DOTTED_I];
  }

  lemma NoDotInExtension(ext: string)
    requires IsC1BExtension(ext)
    ensures '.' !in ext && COMBINING_DOT !in ext && DOTTED_I !in ext
  {
  }
}
