/// The records shared by the analysis: rule table, analysed days and weeks,
/// detected infractions and the raw spreadsheet rows.
///
/// Hours are stored the way `minutesVersHeures` produces them, a number with
/// two decimals; here that number is kept exactly as an integer count of
/// hundredths of an hour (9.5 h is 950).
module Types {
  import opened Wrappers

  /// `GraviteInfraction`: contravention of the 3rd, 4th or 5th class, or a
  /// criminal offence (`delit`).
  datatype Gravity = Third | Fourth | Fifth | Delit

  /// `TypeLigne`: the kind of a spreadsheet row.
  datatype LineType = Journee | Semaine | Periode | Mois | Trimestre

  /// `limite` of a rule: a number of hours or a frequency written out.
  datatype RuleLimit = Hours(hours: nat) | Frequency(text: string)

  /// `RegleInfraction`; `title` is its `label` (the long description is not
  /// modelled).
  datatype Rule = Rule(code: string, title: string, limit: RuleLimit, defaultGravity: Gravity, article: string)

  /// `REGLES_INFRACTIONS`, in the source's order.
  const RULES: seq<Rule> := [
    Rule("COND_JOUR_9H", "Conduite journalière > 9h", Hours(9), Fourth, "Art. R. 3312-3"),
    Rule("COND_JOUR_10H_FREQ", "Conduite > 10h trop fréquent", Frequency("2 fois/semaine"), Fourth, "Art. R. 3312-3"),
    Rule("REPOS_JOUR_11H", "Repos journalier < 11h", Hours(11), Fourth, "Art. R. 3312-4"),
    Rule("AMPLITUDE_12H", "Amplitude > 12h", Hours(12), Fourth, "Art. R. 3312-5"),
    Rule("COND_HEBDO_56H", "Conduite hebdomadaire > 56h", Hours(56), Fourth, "Art. R. 3312-6"),
    Rule("REPOS_HEBDO_45H", "Repos hebdomadaire < 45h", Hours(45), Fourth, "Art. R. 3312-7"),
    Rule("COND_2SEM_90H", "Conduite 2 semaines > 90h", Hours(90), Fourth, "Art. R. 3312-6")
  ]

  /// `rules.find(r => r.code === code)`: the first rule with that code.
  function FindIn(rules: seq<Rule>, code: string): (r: Option<Rule>)
    ensures r.None? <==> forall i :: 0 <= i < |rules| ==> rules[i].code != code
    ensures r.Some? ==> exists i :: 0 <= i < |rules| && rules[i] == r.value
                                   && r.value.code == code
                                   && forall j :: 0 <= j < i ==> rules[j].code != code
  {
    if rules == [] then None
    else if rules[0].code == code then Some(rules[0])
    else
      var r := FindIn(rules[1..], code);
      assert forall i :: 1 <= i < |rules| ==> rules[i] == rules[1..][i - 1];
      r
  }

  function FindRule(code: string): (r: Option<Rule>)
    ensures r.Some? ==> r.value in RULES && r.value.code == code
    ensures r.None? <==> forall i :: 0 <= i < |RULES| ==> RULES[i].code != code
  {
    FindIn(RULES, code)
  }

  /// No two rules share a code, so the rule a code finds is the only one.
  lemma RuleCodesDistinct()
    ensures forall i, j :: 0 <= i < j < |RULES| ==> RULES[i].code != RULES[j].code
  {
  }

  /// Every rule of the table defaults to the 4th class.
  lemma DefaultGravities()
    ensures forall i :: 0 <= i < |RULES| ==> RULES[i].defaultGravity == Fourth
  {
  }

  /// A code of the table finds its own rule.
  lemma FindRuleOfCode(k: int)
    requires 0 <= k < |RULES|
    ensures FindRule(RULES[k].code) == Some(RULES[k])
  {
    RuleCodesDistinct();
  }

  /// The codes the detection looks up, by position in the table.
  const DAILY_DRIVING: string := "COND_JOUR_9H"
  const DRIVING_FREQUENCY: string := "COND_JOUR_10H_FREQ"
  const DAILY_REST: string := "REPOS_JOUR_11H"
  const AMPLITUDE: string := "AMPLITUDE_12H"
  const WEEKLY_DRIVING: string := "COND_HEBDO_56H"
  const WEEKLY_REST: string := "REPOS_HEBDO_45H"
  const TWO_WEEK_DRIVING: string := "COND_2SEM_90H"

  /// Where each of those codes sits in the table.
  lemma RuleCodes()
    ensures RULES[0].code == DAILY_DRIVING && RULES[1].code == DRIVING_FREQUENCY
    ensures RULES[2].code == DAILY_REST && RULES[3].code == AMPLITUDE
    ensures RULES[4].code == WEEKLY_DRIVING && RULES[5].code == WEEKLY_REST
    ensures RULES[6].code == TWO_WEEK_DRIVING
  {
  }

  /// Every code the detection looks up is in the table, so none of its
  /// `if (!regle) continue;` exits is ever taken.
  lemma LookedUpRulesPresent()
    ensures FindRule(DAILY_DRIVING) == Some(RULES[0])
    ensures FindRule(DRIVING_FREQUENCY) == Some(RULES[1])
    ensures FindRule(DAILY_REST) == Some(RULES[2])
    ensures FindRule(AMPLITUDE) == Some(RULES[3])
    ensures FindRule(WEEKLY_DRIVING) == Some(RULES[4])
    ensures FindRule(WEEKLY_REST) == Some(RULES[5])
    ensures FindRule(TWO_WEEK_DRIVING) == Some(RULES[6])
  {
    RuleCodes();
    FindRuleOfCode(0);
    FindRuleOfCode(1);
    FindRuleOfCode(2);
    FindRuleOfCode(3);
    FindRuleOfCode(4);
    FindRuleOfCode(5);
    FindRuleOfCode(6);
  }

  /// `JourneeAnalysee`. Hours are hundredths of an hour.
  datatype Day = Day(
    date: string,
    drivingMinutes: int, drivingHours: int,
    restMinutes: int, restHours: int,
    amplitudeMinutes: int, amplitudeHours: int,
    distanceKm: int)

  /// `SemaineAnalysee`: `numero` and `date` both hold the row's label.
  datatype Week = Week(
    number: string, date: string,
    drivingMinutes: int, drivingHours: int,
    restMinutes: int, restHours: int,
    days: seq<Day>)

  /// What the `detail` text of an infraction reports, without its rendering:
  /// the observed hours (hundredths), the excess over the limit, the rank of
  /// the day in a frequency rule (the source's `i + 1`) and, for a refused
  /// amplitude extension, which conditions failed.
  datatype Detail =
    | DailyDriving(hours: int, excess: int)
    | DailyRest(hours: int)
    | AmplitudeAbsolute(hours: int)
    | AmplitudeExtensionRefused(hours: int, drivingTooLong: bool, restTooShort: bool)
    | WeeklyDriving(hours: int, excess: int)
    | DrivingBandFrequency(hours: int, rank: nat)
    | ReducedRestFrequency(hours: int, rank: nat)
    | WeeklyRest(hours: int)
    | TwoWeekDriving(hours: int, excess: int)

  /// `Infraction`; `observed` and `limit` are hundredths of an hour.
  datatype Infraction = Infraction(
    date: string,
    category: string,
    code: string,
    detail: Detail,
    observed: int,
    limit: int,
    gravity: Gravity,
    fineMin: int,
    fineMax: int,
    article: string)

  /// `LigneRaw`: the columns of a spreadsheet row the analysis reads. A time
  /// cell is `None` when the column is absent (`null` or `undefined`).
  datatype RawRow = RawRow(
    date: string,
    driving: Option<string>,
    dailyRest: Option<string>,
    amplitude: Option<string>,
    distance: int,
    weeklyRest: Option<string>)
}
