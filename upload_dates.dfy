/// `parseFrenchDate` of the upload page, which turns the date labels of the
/// analysis ("Ven. 28 Févr. 2025", "Lun. 16 Janv.", "Semaine 40 2024") into
/// `YYYY-MM-DD`, and the mapping of an infraction's class to the severity
/// the page stores.
///
/// Each regular expression is modelled by a matcher at one position and a
/// leftmost search. Every matcher is proved against a declarative shape of
/// the strings its expression accepts: where the shape fixes the captures
/// (the full date and the week expressions) the matcher returns that one
/// decomposition, so backtracking order cannot matter; where it does not
/// (the date without a year) the matcher returns the longest month word,
/// which is the decomposition the greedy `+` prefers.
module UploadDates {
  import opened Wrappers
  import opened Text
  import opened Calendar
  import opened Types

  // ---------------------------------------------------------------------
  // Character classes and runs

  /// `[a-zéû]` under the `i` flag.
  predicate IsDateLetter(c: char) {
    'a' <= c <= 'z' || 'A' <= c <= 'Z' || c == 'é' || c == 'É' || c == 'û' || c == 'Û'
  }

  predicate AllIn(t: string, from: int, to: int, p: char -> bool)
    requires 0 <= from <= to <= |t|
  {
    forall i :: from <= i < to ==> p(t[i])
  }

  /// Length of the longest run of characters satisfying `p` from position
  /// `from` of `t`.
  function RunOf(t: string, from: nat, p: char -> bool): (k: nat)
    requires from <= |t|
    ensures from + k <= |t| && AllIn(t, from, from + k, p)
    ensures from + k < |t| ==> !p(t[from + k])
    decreases |t| - from
  {
    if from < |t| && p(t[from]) then 1 + RunOf(t, from + 1, p) else 0
  }

  /// A run that ends where `p` stops holding is the longest one.
  lemma {:induction false} RunOfExact(t: string, from: nat, p: char -> bool, k: nat)
    requires from + k <= |t| && AllIn(t, from, from + k, p) && (from + k < |t| ==> !p(t[from + k]))
    ensures RunOf(t, from, p) == k
    decreases k
  {
    if k > 0 {
      RunOfExact(t, from + 1, p, k - 1);
    }
  }

  /// Every run satisfying `p` fits in the longest one.
  lemma {:induction false} RunOfLongest(t: string, from: nat, p: char -> bool, k: nat)
    requires from + k <= |t| && AllIn(t, from, from + k, p)
    ensures k <= RunOf(t, from, p)
    decreases k
  {
    if k > 0 {
      RunOfLongest(t, from + 1, p, k - 1);
    }
  }

  // ---------------------------------------------------------------------
  // `/(\d{1,2})\s+([a-zéû]+)\.?/i`: a day and a month word

  /// The two day digits, or the one when a second digit does not follow.
  function DayDigits(t: string): (dl: nat)
    ensures dl <= 2 && dl <= |t| && AllIn(t, 0, dl, IsDigit)
    ensures dl < 2 && dl < |t| ==> !IsDigit(t[dl])
  {
    var n := RunOf(t, 0, IsDigit);
    if n >= 2 then 2 else n
  }

  /// The day digits of any decomposition are the matcher's: one digit
  /// followed by another cannot be followed by white space.
  lemma DayDigitsOfShape(t: string, dl: nat)
    requires 1 <= dl <= 2 && dl < |t| && AllIn(t, 0, dl, IsDigit) && IsSpace(t[dl])
    ensures DayDigits(t) == dl
  {
    RunOfLongest(t, 0, IsDigit, dl);
  }

  /// Lengths of the day digits, the white space and the month letters.
  datatype DayMonthMatch = DayMonthMatch(dl: nat, w: nat, l: nat)

  predicate DayMonthShape(t: string, m: DayMonthMatch) {
    var b := m.dl + m.w;
    1 <= m.dl <= 2 && m.w >= 1 && m.l >= 1 && b + m.l <= |t|
    && AllIn(t, 0, m.dl, IsDigit) && AllIn(t, m.dl, b, IsSpace) && AllIn(t, b, b + m.l, IsDateLetter)
  }

  /// The expression at the start of `t`. The optional dot after the month
  /// word does not change the captures.
  function DayMonthAt(t: string): (r: Option<DayMonthMatch>)
    ensures r.Some? ==> DayMonthShape(t, r.value)
    ensures r.Some? ==> var c := r.value.dl + r.value.w + r.value.l; c == |t| || !IsDateLetter(t[c])
  {
    var dl := DayDigits(t);
    var w := RunOf(t, dl, IsSpace);
    var l := RunOf(t, dl + w, IsDateLetter);
    if dl >= 1 && w >= 1 && l >= 1 then Some(DayMonthMatch(dl, w, l)) else None
  }

  /// The month word a match captures.
  function MonthWord(t: string, m: DayMonthMatch): string
    requires DayMonthShape(t, m)
  {
    t[m.dl + m.w..m.dl + m.w + m.l]
  }

  /// Day digits and white space are fixed by the shape; of the possible
  /// month words the matcher takes the longest, as the greedy `+` does.
  lemma DayMonthAtGreedy(t: string, m: DayMonthMatch)
    requires DayMonthShape(t, m)
    ensures DayMonthAt(t).Some?
    ensures DayMonthAt(t).value.dl == m.dl && DayMonthAt(t).value.w == m.w
    ensures DayMonthAt(t).value.l >= m.l
  {
    var b := m.dl + m.w;
    DayDigitsOfShape(t, m.dl);
    RunOfExact(t, m.dl, IsSpace, m.w);
    RunOfLongest(t, b, IsDateLetter, m.l);
  }

  // ---------------------------------------------------------------------
  // `/(\d{1,2})\s+([a-zéû]+)\.?\s+(\d{4})/i`: a day, a month word, a year

  /// The lengths of the pieces of a match: day digits, white space and
  /// month letters as for the date without a year, then the optional dot
  /// and white space; four year digits follow.
  datatype FullDateMatch = FullDateMatch(dm: DayMonthMatch, dot: nat, w2: nat)

  function MonthEnd(m: DayMonthMatch): nat { m.dl + m.w + m.l }

  function YearStart(m: FullDateMatch): nat { MonthEnd(m.dm) + m.dot + m.w2 }

  /// The strings the expression matches at the start of `t`, piece by piece.
  predicate FullDateShape(t: string, m: FullDateMatch) {
    var c := MonthEnd(m.dm);
    var e := YearStart(m);
    DayMonthShape(t, m.dm) && m.dot <= 1 && m.w2 >= 1 && e + 4 <= |t|
    && (m.dot == 1 ==> t[c] == '.') && AllIn(t, c + m.dot, e, IsSpace) && AllIn(t, e, e + 4, IsDigit)
  }

  /// The expression at the start of `t`: the day and the whole month word,
  /// a dot if there is one, the white space, then four digits.
  function FullDateAt(t: string): (r: Option<FullDateMatch>)
    ensures r.Some? ==> FullDateShape(t, r.value)
  {
    match DayMonthAt(t)
    case None => None
    case Some(dm) =>
      var c := MonthEnd(dm);
      var dot := if c < |t| && t[c] == '.' then 1 else 0;
      var w2 := RunOf(t, c + dot, IsSpace);
      var e := c + dot + w2;
      if w2 >= 1 && e + 4 <= |t| && AllIn(t, e, e + 4, IsDigit)
      then Some(FullDateMatch(dm, dot, w2)) else None
  }

  /// The decomposition is unique, so the matcher returns it whatever order
  /// a backtracking engine tries the alternatives in.
  lemma FullDateAtUnique(t: string, m: FullDateMatch)
    requires FullDateShape(t, m)
    ensures FullDateAt(t) == Some(m)
  {
    var c := MonthEnd(m.dm);
    var d := c + m.dot;
    var e := YearStart(m);
    MonthWordEnds(t, m);
    if m.dot == 0 {
      assert AllIn(t, c, e, IsSpace) && c < e;
      assert IsSpace(t[c]);
      assert t[c] != '.';
    }
    assert IsDigit(t[e]) && !IsSpace(t[e]);
    RunOfExact(t, d, IsSpace, m.w2);
    FullDateAtOfRuns(t, m);
  }

  /// The full-date matcher once the day and month are matched, the dot
  /// read and the white space measured.
  lemma FullDateAtOfRuns(t: string, m: FullDateMatch)
    requires m.dot <= 1 && m.w2 >= 1 && YearStart(m) + 4 <= |t| && AllIn(t, YearStart(m), YearStart(m) + 4, IsDigit)
    requires DayMonthAt(t) == Some(m.dm)
    requires (MonthEnd(m.dm) < |t| && t[MonthEnd(m.dm)] == '.') <==> m.dot == 1
    requires RunOf(t, MonthEnd(m.dm) + m.dot, IsSpace) == m.w2
    ensures FullDateAt(t) == Some(m)
  {
    var c := MonthEnd(m.dm);
    var dot := if c < |t| && t[c] == '.' then 1 else 0;
    assert dot == m.dot;
    assert RunOf(t, c + dot, IsSpace) == m.w2;
    var e := c + dot + m.w2;
    assert e == YearStart(m) && AllIn(t, e, e + 4, IsDigit);
    assert m == FullDateMatch(m.dm, dot, m.w2);
  }

  /// A dot or white space ends the month word, so the day-and-month part of
  /// a full date is the whole match of the shorter expression.
  lemma MonthWordEnds(t: string, m: FullDateMatch)
    requires FullDateShape(t, m)
    ensures DayMonthAt(t) == Some(m.dm)
  {
    var dm := m.dm;
    var c := MonthEnd(dm);
    var b := dm.dl + dm.w;
    assert DayMonthShape(t, dm);
    assert c < |t| && (IsSpace(t[c]) || t[c] == '.') by {
      assert c == c + m.dot || t[c] == '.';
      assert c + m.dot < YearStart(m);
    }
    assert !IsDateLetter(t[c]);
    DayDigitsOfShape(t, dm.dl);
    RunOfExact(t, dm.dl, IsSpace, dm.w);
    RunOfExact(t, b, IsDateLetter, dm.l);
    DayMonthAtOfRuns(t, dm);
  }

  /// The day-and-month expression matches with the runs it finds.
  lemma DayMonthAtOfRuns(t: string, dm: DayMonthMatch)
    requires dm.dl >= 1 && dm.w >= 1 && dm.l >= 1 && dm.dl + dm.w <= |t| && DayDigits(t) == dm.dl
    requires RunOf(t, dm.dl, IsSpace) == dm.w && RunOf(t, dm.dl + dm.w, IsDateLetter) == dm.l
    ensures DayMonthAt(t) == Some(dm)
  {
  }

  // ---------------------------------------------------------------------
  // `/Semaine\s+(\d+)\s+(\d{4})/` and `/Semaine\s+(\d+)\s+(\d{4})\s*\+/`

  /// White space after "Semaine", week digits, white space; four year
  /// digits follow.
  datatype WeekMatch = WeekMatch(w: nat, n: nat, w2: nat)

  const WEEK_WORD: string := "Semaine"

  function WeekYearStart(m: WeekMatch): nat { |WEEK_WORD| + m.w + m.n + m.w2 }

  predicate WeekShape(t: string, m: WeekMatch) {
    var a := |WEEK_WORD| + m.w;
    var b := a + m.n;
    var e := WeekYearStart(m);
    m.w >= 1 && m.n >= 1 && m.w2 >= 1 && e + 4 <= |t| && t[..|WEEK_WORD|] == WEEK_WORD
    && AllIn(t, |WEEK_WORD|, a, IsSpace) && AllIn(t, a, b, IsDigit) && AllIn(t, b, e, IsSpace)
    && AllIn(t, e, e + 4, IsDigit)
  }

  /// The composite label's expression: the week expression, optional white
  /// space, then a plus sign.
  predicate BiWeekShape(t: string, m: WeekMatch, k: nat) {
    var p := WeekYearStart(m) + 4 + k;
    WeekShape(t, m) && p < |t| && AllIn(t, WeekYearStart(m) + 4, p, IsSpace) && t[p] == '+'
  }

  function WeekAt(t: string): (r: Option<WeekMatch>)
    ensures r.Some? ==> WeekShape(t, r.value)
  {
    if |t| < |WEEK_WORD| || t[..|WEEK_WORD|] != WEEK_WORD then None
    else
      var s := |WEEK_WORD|;
      var w := RunOf(t, s, IsSpace);
      var n := RunOf(t, s + w, IsDigit);
      var w2 := RunOf(t, s + w + n, IsSpace);
      var e := s + w + n + w2;
      if w >= 1 && n >= 1 && w2 >= 1 && e + 4 <= |t| && AllIn(t, e, e + 4, IsDigit)
      then Some(WeekMatch(w, n, w2)) else None
  }

  /// The week expression's decomposition is unique too.
  lemma WeekAtUnique(t: string, m: WeekMatch)
    requires WeekShape(t, m)
    ensures WeekAt(t) == Some(m)
  {
    var s := |WEEK_WORD|;
    var a := s + m.w;
    var b := a + m.n;
    var e := WeekYearStart(m);
    assert IsDigit(t[a]) && !IsSpace(t[a]);
    RunOfExact(t, s, IsSpace, m.w);
    assert IsSpace(t[b]) && !IsDigit(t[b]);
    RunOfExact(t, a, IsDigit, m.n);
    assert IsDigit(t[e]) && !IsSpace(t[e]);
    RunOfExact(t, b, IsSpace, m.w2);
    WeekAtOfRuns(t, m);
  }

  /// The week matcher on a string whose runs have the lengths of `m`.
  lemma WeekAtOfRuns(t: string, m: WeekMatch)
    requires WeekShape(t, m)
    requires RunOf(t, |WEEK_WORD|, IsSpace) == m.w
    requires RunOf(t, |WEEK_WORD| + m.w, IsDigit) == m.n
    requires RunOf(t, |WEEK_WORD| + m.w + m.n, IsSpace) == m.w2
    ensures WeekAt(t) == Some(m)
  {
    var s := |WEEK_WORD|;
    assert s == 7;
    assert |t| >= s && t[..s] == WEEK_WORD;
    var e := s + m.w + m.n + m.w2;
    assert e == WeekYearStart(m);
    assert AllIn(t, e, e + 4, IsDigit);
  }

  /// The composite label's expression at the start of `t`: `\s*` takes the
  /// whole white space, since a plus sign is not white space.
  function BiWeekAt(t: string): (r: Option<WeekMatch>)
    ensures r.Some? ==> exists k :: BiWeekShape(t, r.value, k)
  {
    match WeekAt(t)
    case None => None
    case Some(m) =>
      var e := WeekYearStart(m) + 4;
      var k := RunOf(t, e, IsSpace);
      if e + k < |t| && t[e + k] == '+' then
        assert BiWeekShape(t, m, k);
        Some(m)
      else None
  }

  // ---------------------------------------------------------------------
  // `String.prototype.match`: the leftmost position where a matcher succeeds

  /// The first position `p >= from` at which `at` matches the rest of `s`,
  /// with that match.
  function FirstMatch<M>(s: string, from: nat, at: string -> Option<M>): (r: Option<(nat, M)>)
    requires from <= |s|
    ensures r.Some? ==> from <= r.value.0 <= |s| && at(s[r.value.0..]) == Some(r.value.1)
    ensures r.Some? ==> forall q :: from <= q < r.value.0 ==> at(s[q..]).None?
    ensures r.None? <==> forall q :: from <= q <= |s| ==> at(s[q..]).None?
    decreases |s| - from
  {
    match at(s[from..])
    case Some(m) => Some((from, m))
    case None => if from == |s| then None else FirstMatch(s, from + 1, at)
  }

  // ---------------------------------------------------------------------
  // Months

  /// `moisFr`: the first four letters of a French month name, lower-cased.
  function MonthOfKey(key: string): Option<nat> {
    if key == "janv" then Some(1) else if key == "févr" then Some(2)
    else if key == "mars" then Some(3) else if key == "avr" then Some(4)
    else if key == "mai" then Some(5) else if key == "juin" then Some(6)
    else if key == "juil" then Some(7) else if key == "août" then Some(8)
    else if key == "sept" then Some(9) else if key == "oct" then Some(10)
    else if key == "nov" then Some(11) else if key == "déc" then Some(12)
    else None
  }

  /// `moisText`: the month word lower-cased by `toLowerCase`, cut to four
  /// characters.
  function MonthKey(word: string): (k: string)
    ensures |k| <= 4 && |k| <= |ToLowerCase(word)| && k == ToLowerCase(word)[..|k|]
    ensures DOTTED_I !in word ==> |k| == if |word| < 4 then |word| else 4
  {
    var lower := ToLowerCase(word);
    if |lower| < 4 then lower else lower[..4]
  }

  /// The letters the expressions accept never include the dotted capital I
  /// (a case-insensitive match without the `u` flag compares upper cases,
  /// and that of 'İ' is itself), so a month word lower-cases character by
  /// character.
  lemma MonthWordPlain(t: string, m: DayMonthMatch)
    requires DayMonthShape(t, m)
    ensures DOTTED_I !in MonthWord(t, m)
    ensures ToLowerCase(MonthWord(t, m)) == LowerEach(MonthWord(t, m))
  {
    var w := MonthWord(t, m);
    assert forall i :: 0 <= i < |w| ==> IsDateLetter(w[i]);
    assert !IsDateLetter(DOTTED_I);
  }

  /// `moisFr[moisText] || '01'`: an unknown month word counts as January.
  function MonthNumber(word: string): (m: nat)
    ensures 1 <= m <= 12
    ensures MonthOfKey(MonthKey(word)).Some? ==> m == MonthOfKey(MonthKey(word)).value
    ensures MonthOfKey(MonthKey(word)).None? ==> m == 1
  {
    match MonthOfKey(MonthKey(word))
    case Some(m) => m
    case None => 1
  }

  /// Only the first four letters count, whatever the case: "Févr" is
  /// February, "Avr" is April, but "Avril" written out reads as "avri",
  /// which the table lacks, and falls back to January.
  lemma MonthWordsExamples()
    ensures MonthNumber("Févr") == 2 && MonthNumber("Avr") == 4 && MonthNumber("Avril") == 1
  {
    MonthKeyPlain("Févr");
    assert MonthKey("Févr") == "févr";
    MonthKeyPlain("Avr");
    assert MonthKey("Avr") == "avr";
    MonthKeyPlain("Avril");
    assert MonthKey("Avril") == "avri";
  }

  /// Without a dotted capital I the key lower-cases the word character by
  /// character.
  lemma MonthKeyPlain(word: string)
    requires DOTTED_I !in word
    ensures MonthKey(word) == if |word| < 4 then LowerEach(word) else LowerEach(word)[..4]
  {
  }

  /// The table's two-digit code for a month number.
  function MonthCode(m: nat): (c: string)
    requires 1 <= m <= 12
    ensures |c| == 2 && AllDigits(c)
  {
    NatToStringLength(m, 2);
    PadStart(NatToString(m), 2)
  }

  // ---------------------------------------------------------------------
  // Weeks

  /// `new Date(year, 0, 4)`: a year from 0 to 99 is read as 1900 to 1999.
  function JsYear(y: int): int { if 0 <= y <= 99 then 1900 + y else y }

  /// The Monday of ISO week `week` of `year`, counted from 4 January, which
  /// always lies in week 1 (`getDay() || 7` makes Sunday the seventh day).
  function WeekMonday(week: int, year: int): Date {
    var jan4: Date := CalDate(JsYear(year), 1, 4);
    var dow := if Weekday(jan4) == 0 then 7 else Weekday(jan4);
    AddDays(jan4, -dow + 1 + (week - 1) * 7)
  }

  /// The largest distance from 1 January 1970, in days, of a date
  /// `toISOString` accepts (8.64e15 ms); beyond it the call throws and the
  /// `catch` returns today's date.
  const MAX_DAYS: int := 100000000

  // ---------------------------------------------------------------------
  // parseFrenchDate

  /// `parseFrenchDate(label, contextYear, contextMonth)`. A missing or zero
  /// context value is `None` or `Some(0)`; `today` is the current date
  /// (UTC) that the fallback and the missing year come from.
  function ParseFrenchDate(dateLabel: string, contextYear: Option<int>, contextMonth: Option<int>, today: Date): string {
    match FirstMatch(dateLabel, 0, FullDateAt)
    case Some((p, m)) => FullDateText(dateLabel[p..], m)
    case None =>
      match FirstMatch(dateLabel, 0, DayMonthAt)
      case Some((p, m)) => DayMonthText(dateLabel[p..], m, ContextYear(contextYear, today), contextMonth)
      case None =>
        if !Contains(dateLabel, WEEK_WORD) then IsoDateString(today)
        else
          match FirstMatch(dateLabel, 0, WeekAt)
          case Some((p, m)) => WeekLabelDate(dateLabel[p..], m, today)
          case None =>
            // The composite label's expression is never tried with success:
            // where it matches, the week expression has already matched.
            match FirstMatch(dateLabel, 0, BiWeekAt)
            case Some(_) => assert false; IsoDateString(today)
            case None => IsoDateString(today)
  }

  /// The result for a full date: the year as written, the month code, the
  /// day padded to two digits.
  function FullDateText(t: string, m: FullDateMatch): string
    requires FullDateShape(t, m)
  {
    var e := YearStart(m);
    t[e..e + 4] + "-" + MonthCode(MonthNumber(MonthWord(t, m.dm))) + "-" + PadStart(t[..m.dm.dl], 2)
  }

  /// The result for a date without a year, given the year to assume.
  function DayMonthText(t: string, m: DayMonthMatch, baseYear: int, contextMonth: Option<int>): string
    requires DayMonthShape(t, m)
  {
    var month := MonthNumber(MonthWord(t, m));
    var year := baseYear + (if RollsOver(month, contextMonth) then 1 else 0);
    IntToString(year) + "-" + MonthCode(month) + "-" + PadStart(t[..m.dl], 2)
  }

  /// `contextYear || new Date().getFullYear()`.
  function ContextYear(contextYear: Option<int>, today: Date): int {
    if contextYear.Some? && contextYear.value != 0 then contextYear.value else today.year
  }

  /// The year is put forward when the context month is in the second half
  /// of the year and the label's month is an earlier one in the first half.
  predicate RollsOver(month: nat, contextMonth: Option<int>) {
    contextMonth.Some? && contextMonth.value != 0 && month < contextMonth.value
    && contextMonth.value >= 7 && month <= 6
  }

  /// The Monday of week `week` of `year`, or today's date when that Monday
  /// is beyond the dates JavaScript represents.
  function WeekLabelDay(week: int, year: int, today: Date): Date {
    var monday := WeekMonday(week, year);
    if -MAX_DAYS <= DayNumber(monday) <= MAX_DAYS then monday else today
  }

  /// The date of a week match: its week number and its year, both read as
  /// decimal numbers.
  function WeekLabelDate(t: string, m: WeekMatch, today: Date): string
    requires WeekShape(t, m)
  {
    var a := |WEEK_WORD| + m.w;
    var e := WeekYearStart(m);
    IsoDateString(WeekLabelDay(DigitsValue(t[a..a + m.n]), DigitsValue(t[e..e + 4]), today))
  }

  // ---------------------------------------------------------------------
  // Gravity to severity

  /// The severity the upload stores for an infraction's class.
  function SeverityOf(g: Gravity): (s: string)
    ensures g == Delit <==> s == "critical"
    ensures g == Fifth <==> s == "high"
    ensures g == Fourth <==> s == "medium"
    ensures g == Third <==> s == "low"
  {
    match g
    case Delit => "critical"
    case Fifth => "high"
    case Fourth => "medium"
    case Third => "low"
  }

  // ---------------------------------------------------------------------
  // Properties

  /// A full date gives `YYYY-MM-DD`: the four year digits as written, the
  /// month's two-digit code and the day padded to two digits.
  lemma FullDateTextFormat(t: string, m: FullDateMatch)
    requires FullDateShape(t, m)
    ensures var r := FullDateText(t, m);
            |r| == 10 && r[4] == '-' && r[7] == '-' && r[..4] == t[YearStart(m)..YearStart(m) + 4]
            && AllDigits(r[..4]) && AllDigits(r[5..7]) && AllDigits(r[8..])
            && 1 <= DigitsValue(r[5..7]) <= 12 && DigitsValue(r[8..]) == DigitsValue(t[..m.dm.dl])
  {
    var e := YearStart(m);
    var day := PadStart(t[..m.dm.dl], 2);
    var code := MonthCode(MonthNumber(MonthWord(t, m.dm)));
    assert AllDigits(t[e..e + 4]) by {
      assert AllIn(t, e, e + 4, IsDigit);
    }
    DayPadding(t[..m.dm.dl]) by {
      assert AllIn(t, 0, m.dm.dl, IsDigit);
    }
    DashedParts(t[e..e + 4], code, day);
    MonthCodeValue(MonthNumber(MonthWord(t, m.dm)));
  }

  /// The three parts of `y-c-d` are read back at fixed offsets.
  lemma DashedParts(y: string, c: string, d: string)
    requires |y| == 4 && |c| == 2 && |d| == 2
    ensures var r := y + "-" + c + "-" + d;
            |r| == 10 && r[4] == '-' && r[7] == '-' && r[..4] == y && r[5..7] == c && r[8..] == d
  {
    var r := y + "-" + c + "-" + d;
    assert r[..4] == y;
    assert r[5..7] == c;
    assert r[8..] == d;
  }

  /// The result for a date without a year: the year as `toString` writes
  /// it, moved on by one when the year rolls over, then the month code and
  /// the day padded to two digits.
  lemma DayMonthTextFormat(t: string, m: DayMonthMatch, baseYear: int, contextMonth: Option<int>)
    requires DayMonthShape(t, m)
    ensures var r := DayMonthText(t, m, baseYear, contextMonth);
            var month := MonthNumber(MonthWord(t, m));
            EndsWithMonthDay(r) && TailMonth(r) == month && TailDay(r) == DigitsValue(t[..m.dl])
            && r[..|r| - 6] == IntToString(baseYear + (if RollsOver(month, contextMonth) then 1 else 0))
  {
    var month := MonthNumber(MonthWord(t, m));
    var ys := IntToString(baseYear + (if RollsOver(month, contextMonth) then 1 else 0));
    assert AllDigits(t[..m.dl]) by {
      assert AllIn(t, 0, m.dl, IsDigit);
    }
    assert DayMonthText(t, m, baseYear, contextMonth) == ys + "-" + MonthCode(month) + "-" + PadStart(t[..m.dl], 2);
    YearMonthDay(ys, month, t[..m.dl]);
  }

  /// A year text, a month code and a day of one or two digits padded to
  /// two, joined by dashes, read back from the end.
  lemma YearMonthDay(ys: string, month: nat, day: string)
    requires 1 <= month <= 12 && 1 <= |day| <= 2 && AllDigits(day)
    ensures var r := ys + "-" + MonthCode(month) + "-" + PadStart(day, 2);
            EndsWithMonthDay(r) && TailMonth(r) == month && TailDay(r) == DigitsValue(day) && r[..|r| - 6] == ys
  {
    DayPadding(day);
    MonthCodeValue(month);
    DashedTail(ys, MonthCode(month), PadStart(day, 2));
  }

  /// A day of one or two digits padded to two keeps its value.
  lemma DayPadding(s: string)
    requires 1 <= |s| <= 2 && AllDigits(s)
    ensures var d := PadStart(s, 2); |d| == 2 && AllDigits(d) && DigitsValue(d) == DigitsValue(s)
  {
    if |s| < 2 {
      LeadingZerosValue(1, s);
    }
  }

  /// A label with a full date is read the same whatever the context and
  /// whatever today's date: the explicit year always wins.
  lemma ExplicitYearWins(dateLabel: string, contextYear: Option<int>, contextMonth: Option<int>, today: Date,
                         otherYear: Option<int>, otherMonth: Option<int>, otherToday: Date)
    requires FirstMatch(dateLabel, 0, FullDateAt).Some?
    ensures ParseFrenchDate(dateLabel, contextYear, contextMonth, today)
            == ParseFrenchDate(dateLabel, otherYear, otherMonth, otherToday)
  {
  }

  /// The month code reads back as the month number.
  lemma MonthCodeValue(m: nat)
    requires 1 <= m <= 12
    ensures DigitsValue(MonthCode(m)) == m
  {
    PaddedValue(m, 2);
  }

  /// The year of a label without one moves forward exactly when the context
  /// month is July or later and the label's month is June or earlier; the
  /// test that the month comes before the context month follows from
  /// those two.
  lemma RollsOverHalves(month: nat, contextMonth: Option<int>)
    ensures RollsOver(month, contextMonth)
            <==> contextMonth.Some? && contextMonth.value >= 7 && month <= 6
  {
  }

  /// Where the upload page calls the parser, with no context, a label
  /// without a year takes the current year and is never moved forward.
  lemma UploadYearIsCurrent(t: string, m: DayMonthMatch, today: Date)
    requires DayMonthShape(t, m)
    ensures DayMonthText(t, m, ContextYear(None, today), None)
            == IntToString(today.year) + "-" + MonthCode(MonthNumber(MonthWord(t, m))) + "-" + PadStart(t[..m.dl], 2)
  {
  }

  /// `WeekMonday` is a Monday.
  lemma WeekMondayIsMonday(week: int, year: int)
    ensures Weekday(WeekMonday(week, year)) == 1
  {
    var jan4: Date := CalDate(JsYear(year), 1, 4);
    MondayStep(DayNumber(jan4), week - 1);
  }

  /// Going back to the Monday of the day numbered `n` (Sunday counting as
  /// the seventh day), then on by whole weeks, lands on a Monday.
  lemma MondayStep(n: int, weeks: int)
    ensures var w := (n + 4) % 7;
            var dow := if w == 0 then 7 else w;
            (n - dow + 1 + weeks * 7 + 4) % 7 == 1
  {
    var w := (n + 4) % 7;
    var q := (n + 4) / 7;
    assert n + 4 == 7 * q + w;
    var dow := if w == 0 then 7 else w;
    var k := q + weeks - (if w == 0 then 1 else 0);
    assert n - dow + 1 + weeks * 7 + 4 == 7 * k + 1;
  }

  /// The Monday of week 1 is one of the seven days ending on 4 January, so
  /// that week holds 4 January; each later week starts seven days on.
  lemma WeekMondaySteps(week: int, year: int)
    ensures var jan4: Date := CalDate(JsYear(year), 1, 4);
            DayNumber(jan4) - 6 <= DayNumber(WeekMonday(1, year)) <= DayNumber(jan4)
    ensures DayNumber(WeekMonday(week + 1, year)) == DayNumber(WeekMonday(week, year)) + 7
  {
  }

  /// Every string the composite label's expression matches, the week
  /// expression matches at the same place with the same captures.
  lemma BiWeekImpliesWeek(t: string, m: WeekMatch, k: nat)
    requires BiWeekShape(t, m, k)
    ensures WeekAt(t) == Some(m)
  {
    WeekAtUnique(t, m);
  }

  /// The test for the word "Semaine" never rejects a label the week
  /// expression matches.
  lemma WeekWordPresent(dateLabel: string)
    requires FirstMatch(dateLabel, 0, WeekAt).Some?
    ensures Contains(dateLabel, WEEK_WORD)
  {
    var (p, m) := FirstMatch(dateLabel, 0, WeekAt).value;
    WeekWordAt(dateLabel, p, m);
  }

  lemma WeekWordAt(s: string, p: nat, m: WeekMatch)
    requires p <= |s| && WeekShape(s[p..], m)
    ensures OccursAt(s, WEEK_WORD, p)
  {
    assert s[p..p + |WEEK_WORD|] == s[p..][..|WEEK_WORD|];
  }

  /// A week label gives a Monday, or today's date when that Monday is out
  /// of JavaScript's range.
  lemma WeekLabelDayIsMonday(week: int, year: int, today: Date)
    ensures Weekday(WeekLabelDay(week, year, today)) == 1 || WeekLabelDay(week, year, today) == today
  {
    WeekMondayIsMonday(week, year);
  }

  /// A label with neither kind of day date but with a week date is read as
  /// that week's Monday.
  lemma WeekLabelIsMonday(dateLabel: string, contextYear: Option<int>, contextMonth: Option<int>, today: Date)
    requires FirstMatch(dateLabel, 0, FullDateAt).None? && FirstMatch(dateLabel, 0, DayMonthAt).None?
    requires FirstMatch(dateLabel, 0, WeekAt).Some?
    ensures var (p, m) := FirstMatch(dateLabel, 0, WeekAt).value;
            ParseFrenchDate(dateLabel, contextYear, contextMonth, today) == WeekLabelDate(dateLabel[p..], m, today)
  {
    WeekWordPresent(dateLabel);
  }

  /// Every expression needs a digit: a label without one falls back to
  /// today's date.
  lemma NoDigitFallsBack(dateLabel: string, contextYear: Option<int>, contextMonth: Option<int>, today: Date)
    requires forall i :: 0 <= i < |dateLabel| ==> !IsDigit(dateLabel[i])
    ensures ParseFrenchDate(dateLabel, contextYear, contextMonth, today) == IsoDateString(today)
  {
    forall q | 0 <= q <= |dateLabel|
      ensures FullDateAt(dateLabel[q..]).None? && DayMonthAt(dateLabel[q..]).None? && WeekAt(dateLabel[q..]).None?
    {
    }
  }

  /// Whatever the label, the context and the current date, the result is a
  /// date: it ends with `-MM-DD` and a month from 01 to 12.
  lemma ParseFrenchDateFormat(dateLabel: string, contextYear: Option<int>, contextMonth: Option<int>, today: Date)
    ensures var r := ParseFrenchDate(dateLabel, contextYear, contextMonth, today);
            EndsWithMonthDay(r) && 1 <= TailMonth(r) <= 12
  {
    var r := ParseFrenchDate(dateLabel, contextYear, contextMonth, today);
    match FirstMatch(dateLabel, 0, FullDateAt)
    case Some((p, m)) =>
      FullDateTextFormat(dateLabel[p..], m);
      assert r == FullDateText(dateLabel[p..], m);
    case None =>
      match FirstMatch(dateLabel, 0, DayMonthAt)
      case Some((p, m)) =>
        var baseYear := ContextYear(contextYear, today);
        DayMonthTextFormat(dateLabel[p..], m, baseYear, contextMonth);
        assert r == DayMonthText(dateLabel[p..], m, baseYear, contextMonth);
      case None =>
  }
}
