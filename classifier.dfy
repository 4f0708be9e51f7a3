/// `identifierTypeLigne`: the kind of a spreadsheet row, read from its Date
/// column by keyword tests taken in a fixed order.
module Classifier {
  import opened Wrappers
  import opened Text
  import opened Types

  /// `/(lun|mar|mer|jeu|ven|sam|dim)\./i`, tested on the label itself.
  /// Without the `u` flag the case-insensitive match compares character by
  /// character and only folds characters onto ASCII when they are ASCII
  /// themselves, so it is a search of the label lower-cased character by
  /// character.
  predicate HasWeekdayAbbreviation(s: string) {
    var lower := LowerEach(s);
    Contains(lower, "lun.") || Contains(lower, "mar.") || Contains(lower, "mer.")
    || Contains(lower, "jeu.") || Contains(lower, "ven.") || Contains(lower, "sam.")
    || Contains(lower, "dim.")
  }

  /// A total line: "total" alone or followed by a space, or any label naming
  /// a four-month, half-year or year period.
  predicate IsTotalLine(lower: string) {
    lower == "total" || StartsWith(lower, "total ")
    || Contains(lower, "quadrimestre") || Contains(lower, "semestre")
    || Contains(lower, "année") || Contains(lower, "annee")
  }

  /// A label that is neither empty nor a total line.
  predicate Recognised(date: string) {
    date != [] && !IsTotalLine(ToLowerCase(date))
  }

  /// The keyword test of each line type.
  predicate Mentions(date: string, t: LineType) {
    var lower := ToLowerCase(date);
    match t
    case Journee => HasWeekdayAbbreviation(date)
    case Semaine => Contains(lower, "semaine")
    case Periode => Contains(lower, "per.") || Contains(lower, "période")
    case Mois => Contains(lower, "mois")
    case Trimestre => Contains(lower, "trimestre")
  }

  /// The order in which the keyword tests are made.
  function Rank(t: LineType): nat {
    match t
    case Journee => 0
    case Semaine => 1
    case Periode => 2
    case Mois => 3
    case Trimestre => 4
  }

  /// `identifierTypeLigne`: `None` for an empty label, a total line or an
  /// unrecognised label; otherwise the first keyword found, in the order
  /// weekday, "semaine", "per."/"période", "mois", "trimestre".
  function LineTypeOf(date: string): (r: Option<LineType>)
    ensures r.Some? ==> Recognised(date)
    ensures r == Some(Journee) <==> Recognised(date) && HasWeekdayAbbreviation(date)
    ensures r == Some(Semaine)
            <==> Recognised(date) && !HasWeekdayAbbreviation(date) && Contains(ToLowerCase(date), "semaine")
  {
    if date == [] then None
    else
      var lower := ToLowerCase(date);
      if lower == "total" || StartsWith(lower, "total ") then None
      else if Contains(lower, "quadrimestre") then None
      else if Contains(lower, "semestre") then None
      else if Contains(lower, "année") || Contains(lower, "annee") then None
      else if HasWeekdayAbbreviation(date) then Some(Journee)
      else if Contains(lower, "semaine") then Some(Semaine)
      else if Contains(lower, "per.") || Contains(lower, "période") then Some(Periode)
      else if Contains(lower, "mois") then Some(Mois)
      else if Contains(lower, "trimestre") then Some(Trimestre)
      else None
  }

  /// A recognised label gets the type of the first keyword test, in test
  /// order, that it passes.
  lemma LineTypeFirstKeyword(date: string, t: LineType)
    ensures LineTypeOf(date) == Some(t)
            <==> Recognised(date) && Mentions(date, t) && forall u :: Rank(u) < Rank(t) ==> !Mentions(date, u)
  {
    if Recognised(date) {
      var lower := ToLowerCase(date);
      assert !(lower == "total" || StartsWith(lower, "total "));
      EarlierTypes(date, t);
    }
  }

  /// No earlier test passes exactly when each earlier type, named, fails.
  lemma EarlierTypes(date: string, t: LineType)
    ensures (forall u :: Rank(u) < Rank(t) ==> !Mentions(date, u))
            <==> match t
                 case Journee => true
                 case Semaine => !Mentions(date, Journee)
                 case Periode => !Mentions(date, Journee) && !Mentions(date, Semaine)
                 case Mois => !Mentions(date, Journee) && !Mentions(date, Semaine) && !Mentions(date, Periode)
                 case Trimestre => !Mentions(date, Journee) && !Mentions(date, Semaine) && !Mentions(date, Periode)
                                   && !Mentions(date, Mois)
  {
    assert Rank(Journee) == 0 && Rank(Semaine) == 1 && Rank(Periode) == 2 && Rank(Mois) == 3;
  }

  /// A label gets no type exactly when it is empty, a total line, or passes
  /// none of the keyword tests.
  lemma LineTypeNone(date: string)
    ensures LineTypeOf(date) == None <==> !Recognised(date) || forall t :: !Mentions(date, t)
  {
    if Recognised(date) {
      var lower := ToLowerCase(date);
      assert !(lower == "total" || StartsWith(lower, "total "));
      if forall t :: !Mentions(date, t) {
        assert !Mentions(date, Journee) && !Mentions(date, Semaine) && !Mentions(date, Periode)
               && !Mentions(date, Mois) && !Mentions(date, Trimestre);
      }
    }
  }

  /// Whatever follows it, a label starting with "Total " (in any case) is
  /// ignored, even one naming a day or a week.
  lemma TotalLinesIgnored(prefix: string, rest: string)
    requires ToLowerCase(prefix) == "total "
    ensures LineTypeOf(prefix + rest) == None
  {
    ToLowerCaseConcat(prefix, rest);
    assert ToLowerCase(prefix + rest)[..6] == "total ";
  }

  /// `GraviteInfraction` has four values and `TypeLigne` five.
  lemma EnumerationsComplete(g: Gravity, t: LineType)
    ensures g == Third || g == Fourth || g == Fifth || g == Delit
    ensures t == Journee || t == Semaine || t == Periode || t == Mois || t == Trimestre
  {
  }

  /// A week label behind "TOTAL " is a total line.
  lemma TotalLabelExample()
    ensures LineTypeOf("TOTAL Semaine 40") == None
  {
    var t := "TOTAL Semaine 40";
    assert t == "TOTAL " + "Semaine 40";
    assert DOTTED_I !in "TOTAL ";
    assert LowerEach("TOTAL ") == "total ";
    TotalLinesIgnored("TOTAL ", "Semaine 40");
  }
}
