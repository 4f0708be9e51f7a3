/// How the analysis reads the rows `convertC1BToLigneRaw` writes: every day
/// row is classified by `identifierTypeLigne` as a day and every summary
/// row as a week.
module C1BReading {
  import opened Wrappers
  import opened Text
  import opened Calendar
  import opened Types
  import opened Classifier
  import opened C1BFormat

  /// A character that can be part of a word of the labels: not a
  /// separator, a digit or a minus sign.
  predicate WordChar(c: char) { !(c == '.' || c == ' ' || c == '-' || IsDigit(c)) }

  predicate AllWord(t: string) { forall k :: 0 <= k < |t| ==> WordChar(t[k]) }

  predicate NoWordChar(t: string) { forall k :: 0 <= k < |t| ==> !WordChar(t[k]) }

  /// The `n` characters of `s` from `i` on form a word.
  predicate WordAt(s: string, i: nat, n: nat) { i + n <= |s| && AllWord(s[i..i + n]) }

  /// No `n` characters in a row of `s` form a word.
  ghost predicate ShortRuns(s: string, n: nat) {
    forall i: nat :: !WordAt(s, i, n)
  }

  /// A word at least `n` long does not occur where no `n` characters in a
  /// row form a word.
  lemma NotContainsLong(s: string, w: string, n: nat)
    requires 0 < n <= |w| && AllWord(w) && ShortRuns(s, n)
    ensures !Contains(s, w)
  {
    if Contains(s, w) {
      var i :| 0 <= i <= |s| - |w| && OccursAt(s, w, i);
      assert s[i..i + n] == w[..n];
      assert WordAt(s, i, n);
    }
  }

  lemma ShortRunsBase(b: string, n: nat)
    requires n > 0 && (|b| < n || NoWordChar(b))
    ensures ShortRuns(b, n)
  {
    forall i: nat | i + n <= |b| ensures !WordAt(b, i, n) {
      assert b[i..i + n][0] == b[i];
    }
  }

  /// A short piece or a piece without word characters, then a separator,
  /// then a string of short runs.
  lemma ShortRunsCons(a: string, c: char, b: string, n: nat)
    requires n > 0 && !WordChar(c) && (|a| < n || NoWordChar(a)) && ShortRuns(b, n)
    ensures ShortRuns(a + [c] + b, n)
  {
    var s := a + [c] + b;
    forall i: nat | i + n <= |s| ensures !WordAt(s, i, n) {
      if i <= |a| {
        if |a| < n {
          assert s[i..i + n][|a| - i] == c;
        } else if i < |a| {
          assert s[i..i + n][0] == a[i];
        } else {
          assert s[i..i + n][0] == c;
        }
      } else {
        assert s[i..i + n] == b[i - |a| - 1..i - |a| - 1 + n];
        assert !WordAt(b, i - |a| - 1, n);
      }
    }
  }

  lemma IntToStringNoWord(n: int)
    ensures NoWordChar(IntToString(n))
  {
  }

  /// The lower-cased weekday abbreviations.
  const WEEKDAYS_LOWER: seq<string> := ["dim", "lun", "mar", "mer", "jeu", "ven", "sam"]

  lemma WeekdaysLower(k: int)
    requires 0 <= k < 7
    ensures LowerEach(WEEKDAYS[k]) == WEEKDAYS_LOWER[k]
  {
    var w := WEEKDAYS[k];
    assert |w| == 3;
    assert LowerEach(w)[0] == LowerChar(w[0]) && LowerEach(w)[1] == w[1] && LowerEach(w)[2] == w[2];
  }

  /// A label `a. day b. year` lower-cased, split at its separators.
  lemma LowerLabel(a: string, day: string, b: string, year: string)
    requires AllDigits(day) && NoWordChar(year)
    ensures LowerEach(a + ". " + day + " " + b + ". " + year)
            == LowerEach(a) + ['.'] + ([] + [' '] + (day + [' '] + (LowerEach(b) + ['.'] + ([] + [' '] + year))))
  {
    var s := a + ". " + day + " " + b + ". " + year;
    var t := LowerEach(a) + ['.'] + ([] + [' '] + (day + [' '] + (LowerEach(b) + ['.'] + ([] + [' '] + year))));
    assert |s| == |t|;
    forall i | 0 <= i < |s| ensures LowerEach(s)[i] == t[i] {
      if i < |a| {
      } else if i < |a| + 2 + |day| + 1 + |b| {
        assert i >= |a| + 2 + |day| + 1 ==> s[i] == b[i - (|a| + 2 + |day| + 1)];
      } else {
        assert i >= |a| + 2 + |day| + 1 + |b| + 2 ==> s[i] == year[i - (|a| + 2 + |day| + 1 + |b| + 2)];
      }
    }
  }

  /// `formatDateFr` lower-cased, split at its separators.
  lemma DateLabelPieces(d: Date)
    ensures var k, m := Weekday(d), d.month - 1;
            LowerEach(FormatDateFr(d))
            == WEEKDAYS_LOWER[k] + ['.'] + ([] + [' '] + (NatToString(d.day) + [' ']
               + (LowerEach(MONTHS[m]) + ['.'] + ([] + [' '] + IntToString(d.year)))))
  {
    var k, m := Weekday(d), d.month - 1;
    WeekdaysLower(k);
    IntToStringNoWord(d.year);
    LowerLabel(WEEKDAYS[k], NatToString(d.day), MONTHS[m], IntToString(d.year));
  }

  /// A day label has no word of five letters or more.
  lemma DateLabelShortRuns(d: Date)
    ensures ShortRuns(LowerEach(FormatDateFr(d)), 5)
  {
    var k, m := Weekday(d), d.month - 1;
    DateLabelPieces(d);
    var year := IntToString(d.year);
    IntToStringNoWord(d.year);
    ShortRunsBase(year, 5);
    ShortRunsCons([], ' ', year, 5);
    ShortRunsCons(LowerEach(MONTHS[m]), '.', [] + [' '] + year, 5);
    var tail := LowerEach(MONTHS[m]) + ['.'] + ([] + [' '] + year);
    ShortRunsCons(NatToString(d.day), ' ', tail, 5);
    ShortRunsCons([], ' ', NatToString(d.day) + [' '] + tail, 5);
    ShortRunsCons(WEEKDAYS_LOWER[k], '.', [] + [' '] + (NatToString(d.day) + [' '] + tail), 5);
  }

  /// A label starting with a weekday abbreviation and a dot, without a
  /// word of five letters or more, is a day label.
  lemma WeekdayLabelIsDay(s: string, k: int)
    requires 0 <= k < 7
    requires DOTTED_I !in s
    requires StartsWith(LowerEach(s), WEEKDAYS_LOWER[k] + ".")
    requires ShortRuns(LowerEach(s), 5)
    ensures LineTypeOf(s) == Some(Journee)
  {
    var lower := LowerEach(s);
    assert ToLowerCase(s) == lower;
    WeekdayPrefixFound(s, k);
    ShortNotTotal(lower, WEEKDAYS_LOWER[k] + ".");
  }

  /// A weekday abbreviation and a dot at the start are found by the test.
  lemma WeekdayPrefixFound(s: string, k: int)
    requires 0 <= k < 7
    requires StartsWith(LowerEach(s), WEEKDAYS_LOWER[k] + ".")
    ensures HasWeekdayAbbreviation(s)
  {
    var lower := LowerEach(s);
    var w := WEEKDAYS_LOWER[k] + ".";
    assert lower == w + lower[4..];
    ContainsPrefix(w, lower[4..]);
    assert w == ["dim.", "lun.", "mar.", "mer.", "jeu.", "ven.", "sam."][k];
    if k == 0 { assert Contains(lower, "dim."); }
    else if k == 1 { assert Contains(lower, "lun."); }
    else if k == 2 { assert Contains(lower, "mar."); }
    else if k == 3 { assert Contains(lower, "mer."); }
    else if k == 4 { assert Contains(lower, "jeu."); }
    else if k == 5 { assert Contains(lower, "ven."); }
    else { assert Contains(lower, "sam."); }
  }

  /// A text starting with a three-letter abbreviation and a dot, without a
  /// word of five letters or more, is not a total line.
  lemma ShortNotTotal(lower: string, w: string)
    requires |w| == 4 && w[0] != 't' && |lower| >= 4 && lower[..4] == w
    requires ShortRuns(lower, 5)
    ensures !IsTotalLine(lower)
  {
    assert lower[0] == w[0];
    assert !StartsWith(lower, "total ");
    NotContainsLong(lower, "quadrimestre", 5);
    NotContainsLong(lower, "semestre", 5);
    NotContainsLong(lower, "année", 5);
    NotContainsLong(lower, "annee", 5);
  }

  /// `formatDateFr` writes a label `identifierTypeLigne` reads as a day.
  lemma DateLabelIsDay(d: Date)
    ensures LineTypeOf(FormatDateFr(d)) == Some(Journee)
  {
    var k := Weekday(d);
    DateLabelPieces(d);
    DateLabelShortRuns(d);
    DateLabelPlain(d);
    WeekdayLabelIsDay(FormatDateFr(d), k);
  }

  /// A day label has no dotted capital I.
  lemma DateLabelPlain(d: Date)
    ensures DOTTED_I !in FormatDateFr(d)
  {
    var k, m := Weekday(d), d.month - 1;
    assert DOTTED_I !in WEEKDAYS[k];
    assert DOTTED_I !in MONTHS[m];
    assert DOTTED_I !in NatToString(d.day);
    IntToStringNoWord(d.year);
    assert DOTTED_I !in IntToString(d.year);
  }

  /// `Semaine ${weekNum} ${weekYear}` lower-cased.
  lemma WeekLabelLower(y: int, n: nat)
    ensures LowerEach(WeekLabel(y, n)) == "semaine" + [' '] + (NatToString(n) + " " + IntToString(y))
  {
    var rest := NatToString(n) + " " + IntToString(y);
    IntToStringNoWord(y);
    assert WeekLabel(y, n) == "Semaine " + rest;
    LowerEachConcat("Semaine ", rest);
    assert LowerEach(rest) == rest by {
      forall i | 0 <= i < |rest| ensures LowerChar(rest[i]) == rest[i] {
        assert !WordChar(rest[i]);
      }
    }
    assert LowerEach("Semaine ") == "semaine " by {
      assert LowerChar('S') == 's';
    }
  }

  /// `Semaine ${weekNum} ${weekYear}` is a label `identifierTypeLigne`
  /// reads as a week.
  lemma WeekLabelIsWeek(y: int, n: nat)
    ensures LineTypeOf(WeekLabel(y, n)) == Some(Semaine)
  {
    var s := WeekLabel(y, n);
    var rest := NatToString(n) + " " + IntToString(y);
    IntToStringNoWord(y);
    assert NoWordChar(rest) && '.' !in rest;
    WeekLabelLower(y, n);
    assert DOTTED_I !in s by {
      assert WordChar(DOTTED_I);
      assert s == "Semaine " + rest;
    }
    assert ToLowerCase(s) == "semaine" + [' '] + rest;
    SemaineLine(rest);
  }

  /// "semaine " followed by no letter and no dot names a week and nothing else.
  lemma SemaineLine(rest: string)
    requires NoWordChar(rest) && '.' !in rest
    ensures var lower := "semaine" + [' '] + rest;
            !IsTotalLine(lower) && Contains(lower, "semaine")
            && !Contains(lower, "lun.") && !Contains(lower, "mar.") && !Contains(lower, "mer.")
            && !Contains(lower, "jeu.") && !Contains(lower, "ven.") && !Contains(lower, "sam.")
            && !Contains(lower, "dim.")
  {
    var lower := "semaine" + [' '] + rest;
    assert forall i :: 0 <= i < |lower| ==> lower[i] != '.' && lower[i] != 'q' && lower[i] != 't' && lower[i] != 'é';
    NotContainsMissing(lower, "dim.", 3);
    NotContainsMissing(lower, "lun.", 3);
    NotContainsMissing(lower, "mar.", 3);
    NotContainsMissing(lower, "mer.", 3);
    NotContainsMissing(lower, "jeu.", 3);
    NotContainsMissing(lower, "ven.", 3);
    NotContainsMissing(lower, "sam.", 3);
    NotContainsMissing(lower, "quadrimestre", 0);
    NotContainsMissing(lower, "semestre", 5);
    NotContainsMissing(lower, "année", 3);
    assert forall i :: 0 <= i < |rest| ==> rest[i] != 'a';
    NotContainsMissing(rest, "annee", 0);
    ContainsAcross("semaine", ' ', rest, "annee");
    assert !Contains("semaine", "annee") by {
      forall i | 0 <= i <= 2 ensures !OccursAt("semaine", "annee", i) {
        assert "semaine"[i] != 'a';
      }
    }
    ContainsPrefix("semaine", [' '] + rest);
    assert lower == "semaine" + ([' '] + rest);
    assert lower[0] == 's';
  }
}
