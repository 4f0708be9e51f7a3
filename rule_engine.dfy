/// `detecterInfractions`: the driving-time and rest-time rules applied to the
/// analysed days and weeks. All hours are hundredths of an hour; the
/// tolerance `EPSILON` of 0.01 h is one hundredth.
module RuleEngine {
  import opened Wrappers
  import opened Types
  import opened Sorting
  import opened Conversions

  /// `EPSILON`.
  const TOLERANCE: int := 1

  /// Every infraction is of the 4th or 5th class, carries the fines of its
  /// class (1500-3000 for the 5th, 135-750 for the 4th) and the code and
  /// article of one rule of the table.
  predicate WellFormed(r: Infraction) {
    (r.gravity == Fourth || r.gravity == Fifth)
    && r.fineMin == (if r.gravity == Fifth then 1500 else 135)
    && r.fineMax == (if r.gravity == Fifth then 3000 else 750)
    && exists k :: 0 <= k < |RULES| && RULES[k].code == r.code && RULES[k].article == r.article
  }

  /// Which loop of the detection raises an infraction of this kind: the
  /// daily loop (0), the weekly loop (1) or the two-week loop (2).
  function Scope(d: Detail): nat {
    match d
    case DailyDriving(_, _) => 0
    case DailyRest(_) => 0
    case AmplitudeAbsolute(_) => 0
    case AmplitudeExtensionRefused(_, _, _) => 0
    case TwoWeekDriving(_, _) => 2
    case _ => 1
  }

  /// An infraction under rule `k` of the table. The rules the detection
  /// looks up by code are, in table order, 0 daily driving, 1 driving
  /// frequency, 2 daily rest, 3 amplitude, 4 weekly driving, 5 weekly rest
  /// and 6 two-week driving (`Types.LookedUpRulesPresent`).
  /// Every infraction of `r` is well formed and raised in loop `scope`.
  predicate AllWellFormed(r: seq<Infraction>, scope: nat) {
    forall i :: 0 <= i < |r| ==> WellFormed(r[i]) && Scope(r[i].detail) == scope
  }

  lemma AllWellFormedConcat(a: seq<Infraction>, b: seq<Infraction>, scope: nat)
    requires AllWellFormed(a, scope) && AllWellFormed(b, scope)
    ensures AllWellFormed(a + b, scope)
  {
    assert forall i :: |a| <= i < |a + b| ==> (a + b)[i] == b[i - |a|];
  }

  function Raise(date: string, category: string, k: nat, detail: Detail,
                 observed: int, limit: int, gravity: Gravity): (r: Infraction)
    requires k < |RULES| && (gravity == Fourth || gravity == Fifth)
    ensures WellFormed(r) && r.code == RULES[k].code && r.article == RULES[k].article
    ensures r.date == date && r.category == category && r.detail == detail
    ensures r.observed == observed && r.limit == limit && r.gravity == gravity
  {
    var fifth := gravity == Fifth;
    Infraction(date, category, RULES[k].code, detail, observed, limit, gravity,
               if fifth then 1500 else 135, if fifth then 3000 else 750, RULES[k].article)
  }

  // ---------------------------------------------------------------------
  // Daily rules (lines 126-224)

  function DailyDrivingCheck(d: Day): (r: seq<Infraction>)
    ensures |r| <= 1 && AllWellFormed(r, 0)
  {
    if d.drivingHours > 1000 + TOLERANCE then
      var excess := d.drivingHours - 1000;
      [Raise(d.date, "Conduite journalière excessive", 0, DailyDriving(d.drivingHours, excess),
             d.drivingHours, 1000, if excess > 100 then Fifth else Fourth)]
    else []
  }

  function DailyRestCheck(d: Day): (r: seq<Infraction>)
    ensures |r| <= 1 && AllWellFormed(r, 0)
  {
    if d.restHours > 0 && d.restHours < 900 then
      [Raise(d.date, "Repos journalier insuffisant", 2, DailyRest(d.restHours),
             d.restHours, 900, if d.restHours < 600 then Fifth else Fourth)]
    else []
  }

  /// Amplitude: above 14 h always; above 12 h unless the extension to 14 h
  /// is allowed, which needs driving of at most 10 h and a rest of 0 or at
  /// least 9 h.
  function AmplitudeCheck(d: Day): (r: seq<Infraction>)
    ensures |r| <= 1 && AllWellFormed(r, 0)
  {
    if d.amplitudeHours > 1400 + TOLERANCE then
      [Raise(d.date, "Amplitude journalière excessive", 3, AmplitudeAbsolute(d.amplitudeHours),
             d.amplitudeHours, 1400, Fourth)]
    else if d.amplitudeHours > 1200 + TOLERANCE then
      var drivingOk := d.drivingHours <= 1000 + TOLERANCE;
      var restOk := d.restHours == 0 || d.restHours >= 900;
      if !drivingOk || !restOk then
        [Raise(d.date, "Amplitude journalière excessive", 3,
               AmplitudeExtensionRefused(d.amplitudeHours, !drivingOk, !restOk), d.amplitudeHours, 1200, Fourth)]
      else []
    else []
  }

  function DayInfractions(d: Day): (r: seq<Infraction>)
    ensures AllWellFormed(r, 0)
  {
    var a, b, c := DailyDrivingCheck(d), DailyRestCheck(d), AmplitudeCheck(d);
    AllWellFormedConcat(a, b, 0);
    AllWellFormedConcat(a + b, c, 0);
    a + b + c
  }

  function DailyInfractions(days: seq<Day>): (r: seq<Infraction>)
    ensures AllWellFormed(r, 0)
  {
    if days == [] then [] else DailyInfractions(days[..|days| - 1]) + DayInfractions(days[|days| - 1])
  }

  // ---------------------------------------------------------------------
  // Weekly rules (lines 227-331)

  /// Driving above 9 h and at most 10 h (with the tolerance on both ends).
  predicate InDrivingBand(d: Day) { 900 + TOLERANCE < d.drivingHours <= 1000 + TOLERANCE }

  /// A reduced daily rest: at least 9 h and under 11 h.
  predicate HasReducedRest(d: Day) { 900 <= d.restHours < 1100 }

  function DescendingDriving(d: Day): int { -d.drivingHours }

  function AscendingRest(d: Day): int { d.restHours }

  /// The week's days in the driving band, most driving first.
  function BandRanking(w: Week): seq<Day> { SortBy(Filter(w.days, InDrivingBand), DescendingDriving) }

  /// The week's days with a reduced rest, shortest rest first.
  function ReducedRestRanking(w: Week): seq<Day> { SortBy(Filter(w.days, HasReducedRest), AscendingRest) }

  function WeeklyDrivingCheck(w: Week): (r: seq<Infraction>)
    ensures |r| <= 1 && AllWellFormed(r, 1)
  {
    if w.drivingHours > 5600 + TOLERANCE then
      var excess := w.drivingHours - 5600;
      [Raise(w.date, "Conduite hebdomadaire excessive", 4, WeeklyDriving(w.drivingHours, excess),
             w.drivingHours, 5600, if excess > 1400 then Fifth else Fourth)]
    else []
  }

  /// The infraction for a day of the driving band at rank `rank`.
  function BandFlag(d: Day, rank: nat): (r: Infraction)
    ensures WellFormed(r) && Scope(r.detail) == 1
  {
    Raise(d.date, "Dépassement fréquence 10h", 1, DrivingBandFrequency(d.drivingHours, rank),
          d.drivingHours, 900, Fourth)
  }

  /// The infraction for a reduced rest at rank `rank`.
  function ReducedRestFlag(d: Day, rank: nat): (r: Infraction)
    ensures WellFormed(r) && Scope(r.detail) == 1
  {
    Raise(d.date, "Repos journalier réduit excessif", 2, ReducedRestFrequency(d.restHours, rank),
          d.restHours, 1100, Fourth)
  }

  /// The infractions for the days of `ranked` from position `from` on, each
  /// citing its rank (position + 1).
  function BandFlags(ranked: seq<Day>, from: nat): (r: seq<Infraction>)
    requires from <= |ranked|
    ensures |r| == |ranked| - from
    ensures forall i :: 0 <= i < |r| ==> r[i] == BandFlag(ranked[from + i], from + i + 1)
  {
    seq(|ranked| - from, k requires 0 <= k < |ranked| - from => BandFlag(ranked[from + k], from + k + 1))
  }

  function ReducedRestFlags(ranked: seq<Day>, from: nat): (r: seq<Infraction>)
    requires from <= |ranked|
    ensures |r| == |ranked| - from
    ensures forall i :: 0 <= i < |r| ==> r[i] == ReducedRestFlag(ranked[from + i], from + i + 1)
  {
    seq(|ranked| - from, k requires 0 <= k < |ranked| - from => ReducedRestFlag(ranked[from + k], from + k + 1))
  }

  /// More than two days in the driving band: all but the two with the most
  /// driving are infractions.
  function BandCheck(w: Week): (r: seq<Infraction>)
    ensures AllWellFormed(r, 1)
  {
    if |Filter(w.days, InDrivingBand)| > 2 then BandFlags(BandRanking(w), 2) else []
  }

  /// More than three reduced rests: all but the three shortest are
  /// infractions.
  function ReducedRestCheck(w: Week): (r: seq<Infraction>)
    ensures AllWellFormed(r, 1)
  {
    if |Filter(w.days, HasReducedRest)| > 3 then ReducedRestFlags(ReducedRestRanking(w), 3) else []
  }

  function WeeklyRestCheck(w: Week): (r: seq<Infraction>)
    ensures |r| <= 1 && AllWellFormed(r, 1)
  {
    if w.restHours > 0 && w.restHours < 4500 then
      [Raise(w.date, "Repos hebdomadaire insuffisant", 5, WeeklyRest(w.restHours),
             w.restHours, 4500, if w.restHours < 2000 then Fifth else Fourth)]
    else []
  }

  function WeekInfractions(w: Week): (r: seq<Infraction>)
    ensures AllWellFormed(r, 1)
  {
    var a, b, c, d := WeeklyDrivingCheck(w), BandCheck(w), ReducedRestCheck(w), WeeklyRestCheck(w);
    AllWellFormedConcat(a, b, 1);
    AllWellFormedConcat(a + b, c, 1);
    AllWellFormedConcat(a + b + c, d, 1);
    a + b + c + d
  }

  function WeeklyInfractions(weeks: seq<Week>): (r: seq<Infraction>)
    ensures AllWellFormed(r, 1)
  {
    if weeks == [] then [] else WeeklyInfractions(weeks[..|weeks| - 1]) + WeekInfractions(weeks[|weeks| - 1])
  }

  // ---------------------------------------------------------------------
  // Two consecutive weeks (lines 333-360)

  /// The date of a two-week infraction: both week labels joined by " + ".
  function PairDate(w1: Week, w2: Week): string { w1.date + " + " + w2.date }

  function PairCheck(w1: Week, w2: Week): (r: seq<Infraction>)
    ensures |r| <= 1 && AllWellFormed(r, 2)
  {
    var total := w1.drivingHours + w2.drivingHours;
    if total > 9000 then
      [Raise(PairDate(w1, w2), "Conduite 2 semaines excessive", 6, TwoWeekDriving(total, total - 9000),
             total, 9000, if total - 9000 > 2250 then Fifth else Fourth)]
    else []
  }

  function TwoWeekInfractions(weeks: seq<Week>): (r: seq<Infraction>)
    ensures AllWellFormed(r, 2)
  {
    if |weeks| < 2 then []
    else
      var init := weeks[..|weeks| - 1];
      var r := TwoWeekInfractions(init) + PairCheck(weeks[|weeks| - 2], weeks[|weeks| - 1]);
      assert forall j :: 0 <= j < |init| ==> init[j] == weeks[j];
      r
  }

  /// Infractions of the daily, weekly and two-week loops, in that order,
  /// come out sorted by loop.
  lemma ScopesInOrder(a: seq<Infraction>, b: seq<Infraction>, c: seq<Infraction>)
    requires AllWellFormed(a, 0) && AllWellFormed(b, 1) && AllWellFormed(c, 2)
    ensures forall i :: 0 <= i < |a + b + c| ==> WellFormed((a + b + c)[i])
    ensures forall i, j :: 0 <= i < j < |a + b + c| ==> Scope((a + b + c)[i].detail) <= Scope((a + b + c)[j].detail)
  {
    var r := a + b + c;
    forall i | 0 <= i < |r|
      ensures WellFormed(r[i]) && Scope(r[i].detail) == if i < |a| then 0 else if i < |a| + |b| then 1 else 2
    {
      if i < |a| {
        assert r[i] == a[i];
      } else if i < |a| + |b| {
        assert r[i] == b[i - |a|];
      } else {
        assert r[i] == c[i - |a| - |b|];
      }
    }
  }

  /// The full result: the daily infractions, then the weekly ones, then the
  /// two-week ones, every one well formed.
  function Infractions(days: seq<Day>, weeks: seq<Week>): (r: seq<Infraction>)
    ensures forall i :: 0 <= i < |r| ==> WellFormed(r[i])
    ensures forall i, j :: 0 <= i < j < |r| ==> Scope(r[i].detail) <= Scope(r[j].detail)
  {
    var a, b, c := DailyInfractions(days), WeeklyInfractions(weeks), TwoWeekInfractions(weeks);
    ScopesInOrder(a, b, c);
    a + b + c
  }

  // ---------------------------------------------------------------------
  // The detection as the source runs it

  /// The rules `detecterInfractions` looks up by code.
  datatype LookedUp = LookedUp(
    dailyDriving: Rule, drivingFrequency: Rule, dailyRest: Rule, amplitude: Rule,
    weeklyDriving: Rule, weeklyRest: Rule, twoWeekDriving: Rule)

  /// Each lookup found the table's rule for that code.
  predicate Found(rules: LookedUp) {
    rules.dailyDriving == RULES[0] && rules.drivingFrequency == RULES[1] && rules.dailyRest == RULES[2]
    && rules.amplitude == RULES[3] && rules.weeklyDriving == RULES[4] && rules.weeklyRest == RULES[5]
    && rules.twoWeekDriving == RULES[6]
  }

  /// The `REGLES_INFRACTIONS.find(r => r.code === ...)` calls. The source
  /// repeats them for every infraction; the table never changes, so each one
  /// finds the same rule every time, and none finds nothing.
  function LookUpRules(): (rules: LookedUp)
    ensures Found(rules)
  {
    LookedUpRulesPresent();
    LookedUp(FindRule(DAILY_DRIVING).value, FindRule(DRIVING_FREQUENCY).value, FindRule(DAILY_REST).value,
             FindRule(AMPLITUDE).value, FindRule(WEEKLY_DRIVING).value, FindRule(WEEKLY_REST).value,
             FindRule(TWO_WEEK_DRIVING).value)
  }

  /// The body of the daily loop (lines 127-223) for one day: the driving,
  /// rest and amplitude checks, each looking its rule up by code. Also
  /// returns whether the day goes into `journeesAvecReposReduit`.
  method CheckDay(d: Day, rules: LookedUp) returns (found: seq<Infraction>, reducedRest: bool)
    requires Found(rules)
    ensures found == DayInfractions(d)
    ensures reducedRest <==> !(d.restHours > 0 && d.restHours < 900) && 900 <= d.restHours < 1100
  {
    var driving := CheckDailyDriving(d, rules);
    var rest;
    rest, reducedRest := CheckDailyRest(d, rules);
    var amplitude := CheckAmplitude(d, rules);
    found := driving + rest + amplitude;
  }

  /// The daily driving check (lines 127-147).
  method CheckDailyDriving(d: Day, rules: LookedUp) returns (found: seq<Infraction>)
    requires Found(rules)
    ensures found == DailyDrivingCheck(d)
  {
    found := [];
    if d.drivingHours > 1000 + TOLERANCE {
      var rule := rules.dailyDriving;
      var excess := d.drivingHours - 1000;
      var gravity := if excess > 100 then Fifth else Fourth;
      found := [Infraction(d.date, "Conduite journalière excessive", rule.code,
        DailyDriving(d.drivingHours, excess), d.drivingHours, 1000, gravity,
        if gravity == Fifth then 1500 else 135, if gravity == Fifth then 3000 else 750, rule.article)];
    }
  }

  /// The daily rest check (lines 150-172): an insufficient rest is an
  /// infraction, a reduced one is only recorded.
  method CheckDailyRest(d: Day, rules: LookedUp) returns (found: seq<Infraction>, reducedRest: bool)
    requires Found(rules)
    ensures found == DailyRestCheck(d)
    ensures reducedRest <==> !(d.restHours > 0 && d.restHours < 900) && 900 <= d.restHours < 1100
  {
    found := [];
    reducedRest := false;
    if d.restHours > 0 && d.restHours < 900 {
      var rule := rules.dailyRest;
      var gravity := if d.restHours < 600 then Fifth else Fourth;
      found := [Infraction(d.date, "Repos journalier insuffisant", rule.code,
        DailyRest(d.restHours), d.restHours, 900, gravity,
        if gravity == Fifth then 1500 else 135, if gravity == Fifth then 3000 else 750, rule.article)];
    } else if d.restHours >= 900 && d.restHours < 1100 {
      reducedRest := true;
    }
  }

  /// The amplitude check (lines 177-223).
  method CheckAmplitude(d: Day, rules: LookedUp) returns (found: seq<Infraction>)
    requires Found(rules)
    ensures found == AmplitudeCheck(d)
  {
    found := [];
    if d.amplitudeHours > 1400 + TOLERANCE {
      var rule := rules.amplitude;
      found := [Infraction(d.date, "Amplitude journalière excessive", rule.code,
        AmplitudeAbsolute(d.amplitudeHours), d.amplitudeHours, 1400, Fourth, 135, 750, rule.article)];
    } else if d.amplitudeHours > 1200 + TOLERANCE {
      var drivingOk := d.drivingHours <= 1000 + TOLERANCE;
      var restOk := d.restHours == 0 || d.restHours >= 900;
      if !drivingOk || !restOk {
        var rule := rules.amplitude;
        found := [Infraction(d.date, "Amplitude journalière excessive", rule.code,
          AmplitudeExtensionRefused(d.amplitudeHours, !drivingOk, !restOk), d.amplitudeHours, 1200, Fourth,
          135, 750, rule.article)];
      }
    }
  }

  /// The driving-band frequency check of one week (lines 250-279): the
  /// band's days, most driving first, all flagged past the first two.
  method CheckBand(w: Week, rules: LookedUp) returns (found: seq<Infraction>)
    requires Found(rules)
    ensures found == BandCheck(w)
  {
    found := [];
    var band := Filter(w.days, InDrivingBand);
    if |band| > 2 {
      found := FlagBand(SortBy(band, DescendingDriving), rules);
    }
  }

  /// The loop over the band's days past the first two (lines 260-277),
  /// each flagged with its rank.
  method FlagBand(ranked: seq<Day>, rules: LookedUp) returns (found: seq<Infraction>)
    requires |ranked| >= 2 && Found(rules)
    ensures found == BandFlags(ranked, 2)
  {
    var rule := rules.drivingFrequency;
    found := [];
    for k := 2 to |ranked|
      invariant found == BandFlags(ranked, 2)[..k - 2]
    {
      var day := ranked[k];
      found := found + [Infraction(day.date, "Dépassement fréquence 10h", rule.code,
        DrivingBandFrequency(day.drivingHours, k + 1), day.drivingHours, 900, Fourth, 135, 750, rule.article)];
      assert BandFlags(ranked, 2)[..k - 1] == BandFlags(ranked, 2)[..k - 2] + [BandFlags(ranked, 2)[k - 2]];
    }
    assert BandFlags(ranked, 2)[..|ranked| - 2] == BandFlags(ranked, 2);
  }

  /// The reduced-rest frequency check of one week (lines 281-309): the
  /// reduced rests, shortest first, all flagged past the first three.
  method CheckReducedRests(w: Week, rules: LookedUp) returns (found: seq<Infraction>)
    requires Found(rules)
    ensures found == ReducedRestCheck(w)
  {
    found := [];
    var reduced := Filter(w.days, HasReducedRest);
    if |reduced| > 3 {
      found := FlagReducedRests(SortBy(reduced, AscendingRest), rules);
    }
  }

  /// The loop over the reduced rests past the first three (lines 291-307),
  /// each flagged with its rank.
  method FlagReducedRests(ranked: seq<Day>, rules: LookedUp) returns (found: seq<Infraction>)
    requires |ranked| >= 3 && Found(rules)
    ensures found == ReducedRestFlags(ranked, 3)
  {
    var rule := rules.dailyRest;
    found := [];
    for k := 3 to |ranked|
      invariant found == ReducedRestFlags(ranked, 3)[..k - 3]
    {
      var day := ranked[k];
      found := found + [Infraction(day.date, "Repos journalier réduit excessif", rule.code,
        ReducedRestFrequency(day.restHours, k + 1), day.restHours, 1100, Fourth, 135, 750, rule.article)];
      assert ReducedRestFlags(ranked, 3)[..k - 2] == ReducedRestFlags(ranked, 3)[..k - 3] + [ReducedRestFlags(ranked, 3)[k - 3]];
    }
    assert ReducedRestFlags(ranked, 3)[..|ranked| - 3] == ReducedRestFlags(ranked, 3);
  }

  /// The body of the weekly loop (lines 228-330) for one week.
  method CheckWeek(w: Week, rules: LookedUp) returns (found: seq<Infraction>)
    requires Found(rules)
    ensures found == WeekInfractions(w)
  {
    var driving := CheckWeeklyDriving(w, rules);
    var band := CheckBand(w, rules);
    var reduced := CheckReducedRests(w, rules);
    var rest := CheckWeeklyRest(w, rules);
    found := driving + band + reduced + rest;
  }

  /// The weekly driving check (lines 229-248).
  method CheckWeeklyDriving(w: Week, rules: LookedUp) returns (found: seq<Infraction>)
    requires Found(rules)
    ensures found == WeeklyDrivingCheck(w)
  {
    found := [];
    if w.drivingHours > 5600 + TOLERANCE {
      var rule := rules.weeklyDriving;
      var excess := w.drivingHours - 5600;
      var gravity := if excess > 1400 then Fifth else Fourth;
      found := [Infraction(w.date, "Conduite hebdomadaire excessive", rule.code,
        WeeklyDriving(w.drivingHours, excess), w.drivingHours, 5600, gravity,
        if gravity == Fifth then 1500 else 135, if gravity == Fifth then 3000 else 750, rule.article)];
    }
  }

  /// The weekly rest check (lines 312-330).
  method CheckWeeklyRest(w: Week, rules: LookedUp) returns (found: seq<Infraction>)
    requires Found(rules)
    ensures found == WeeklyRestCheck(w)
  {
    found := [];
    if w.restHours > 0 && w.restHours < 4500 {
      var rule := rules.weeklyRest;
      var gravity := if w.restHours < 2000 then Fifth else Fourth;
      found := [Infraction(w.date, "Repos hebdomadaire insuffisant", rule.code,
        WeeklyRest(w.restHours), w.restHours, 4500, gravity,
        if gravity == Fifth then 1500 else 135, if gravity == Fifth then 3000 else 750, rule.article)];
    }
  }

  /// The daily loop of `detecterInfractions` (lines 126-224). Also returns
  /// `journeesAvecReposReduit`, which the source fills and never reads.
  method DetectDaily(days: seq<Day>, rules: LookedUp) returns (infractions: seq<Infraction>, reducedRestDays: seq<Day>)
    requires Found(rules)
    ensures infractions == DailyInfractions(days)
  {
    infractions := [];
    reducedRestDays := [];
    for i := 0 to |days|
      invariant infractions == DailyInfractions(days[..i])
    {
      assert days[..i + 1][..i] == days[..i];
      var found, reducedRest := CheckDay(days[i], rules);
      infractions := infractions + found;
      if reducedRest {
        reducedRestDays := reducedRestDays + [days[i]];
      }
    }
    assert days[..|days|] == days;
  }

  /// The weekly loop (lines 227-331).
  method DetectWeekly(weeks: seq<Week>, rules: LookedUp) returns (infractions: seq<Infraction>)
    requires Found(rules)
    ensures infractions == WeeklyInfractions(weeks)
  {
    infractions := [];
    for i := 0 to |weeks|
      invariant infractions == WeeklyInfractions(weeks[..i])
    {
      assert weeks[..i + 1][..i] == weeks[..i];
      var found := CheckWeek(weeks[i], rules);
      infractions := infractions + found;
    }
    assert weeks[..|weeks|] == weeks;
  }

  /// The loop over consecutive weeks (lines 333-360).
  method DetectTwoWeek(weeks: seq<Week>, rules: LookedUp) returns (infractions: seq<Infraction>)
    requires Found(rules)
    ensures infractions == TwoWeekInfractions(weeks)
  {
    infractions := [];
    var i := 0;
    while i < |weeks| - 1
      invariant 0 <= i && (weeks != [] ==> i < |weeks|)
      invariant infractions == TwoWeekInfractions(weeks[..if weeks == [] then 0 else i + 1])
    {
      var w1 := weeks[i];
      var w2 := weeks[i + 1];
      assert weeks[..i + 2][..i + 1] == weeks[..i + 1];
      var total := w1.drivingHours + w2.drivingHours;
      if total > 9000 {
        var rule := rules.twoWeekDriving;
        var excess := total - 9000;
        var gravity := if excess > 2250 then Fifth else Fourth;
        infractions := infractions + [Infraction(w1.date + " + " + w2.date, "Conduite 2 semaines excessive", rule.code,
          TwoWeekDriving(total, excess), total, 9000, gravity,
          if gravity == Fifth then 1500 else 135, if gravity == Fifth then 3000 else 750, rule.article)];
      }
      i := i + 1;
    }
    assert weeks[..if weeks == [] then 0 else i + 1] == weeks;
  }

  /// `detecterInfractions`: the daily loop, the weekly loop, then the loop
  /// over consecutive weeks, after looking the rules up.
  method DetectInfractions(days: seq<Day>, weeks: seq<Week>) returns (infractions: seq<Infraction>)
    ensures infractions == Infractions(days, weeks)
  {
    var rules := LookUpRules();
    var daily, _ := DetectDaily(days, rules);
    var weekly := DetectWeekly(weeks, rules);
    var twoWeek := DetectTwoWeek(weeks, rules);
    infractions := daily + weekly + twoWeek;
  }

  // ---------------------------------------------------------------------
  // What the rules mean

  /// A day whose hours were computed from its minutes, as the extraction
  /// computes them.
  predicate DayConsistent(d: Day) {
    d.drivingHours == CentiHours(d.drivingMinutes) && d.restHours == CentiHours(d.restMinutes)
    && d.amplitudeHours == CentiHours(d.amplitudeMinutes)
  }

  predicate WeekConsistent(w: Week) {
    w.drivingHours == CentiHours(w.drivingMinutes) && w.restHours == CentiHours(w.restMinutes)
  }

  /// The daily rules in whole minutes: driving over 10 h (5th class over
  /// 11 h), a rest under 9 h (5th class under 6 h; no rest recorded is not
  /// an infraction), an amplitude over 14 h, or over 12 h when the
  /// extension is not allowed.
  lemma DailyRulesInMinutes(d: Day)
    requires DayConsistent(d)
    ensures |DailyDrivingCheck(d)| == (if d.drivingMinutes > 10 * 60 then 1 else 0)
    ensures forall r :: r in DailyDrivingCheck(d) ==>
              r.code == DAILY_DRIVING && (r.gravity == Fifth <==> d.drivingMinutes > 11 * 60)
    ensures |DailyRestCheck(d)| == (if 0 < d.restMinutes < 9 * 60 then 1 else 0)
    ensures forall r :: r in DailyRestCheck(d) ==>
              r.code == DAILY_REST && (r.gravity == Fifth <==> d.restMinutes < 6 * 60)
    ensures |AmplitudeCheck(d)| ==
              (if d.amplitudeMinutes > 14 * 60
                  || (d.amplitudeMinutes > 12 * 60
                      && (d.drivingMinutes > 10 * 60 || (d.restMinutes != 0 && d.restMinutes < 9 * 60)))
               then 1 else 0)
    ensures forall r :: r in AmplitudeCheck(d) ==>
              r.code == AMPLITUDE && r.gravity == Fourth
              && r.limit == (if d.amplitudeMinutes > 14 * 60 then 1400 else 1200)
  {
    RuleCodes();
    HoursThresholdsInMinutes(d.drivingMinutes);
    HoursThresholdsInMinutes(d.restMinutes);
    HoursThresholdsInMinutes(d.amplitudeMinutes);
  }

  /// The weekly limits in whole minutes: driving over 56 h (5th class over
  /// 70 h) and a weekly rest under 45 h (5th class under 20 h).
  lemma WeeklyRulesInMinutes(w: Week)
    requires WeekConsistent(w)
    ensures |WeeklyDrivingCheck(w)| == (if w.drivingMinutes > 56 * 60 then 1 else 0)
    ensures forall r :: r in WeeklyDrivingCheck(w) ==>
              r.code == WEEKLY_DRIVING && (r.gravity == Fifth <==> w.drivingMinutes > 70 * 60)
    ensures |WeeklyRestCheck(w)| == (if 0 < w.restMinutes < 45 * 60 then 1 else 0)
    ensures forall r :: r in WeeklyRestCheck(w) ==>
              r.code == WEEKLY_REST && (r.gravity == Fifth <==> w.restMinutes < 20 * 60)
  {
    RuleCodes();
    HoursThresholdsInMinutes(w.drivingMinutes);
    HoursThresholdsInMinutes(w.restMinutes);
  }

  /// The frequency bands in whole minutes: driving of more than 9 h and at
  /// most 10 h; a rest of at least 9 h and under 11 h.
  lemma BandsInMinutes(d: Day)
    requires DayConsistent(d)
    ensures InDrivingBand(d) <==> 9 * 60 < d.drivingMinutes <= 10 * 60
    ensures HasReducedRest(d) <==> 9 * 60 <= d.restMinutes < 11 * 60
  {
    HoursThresholdsInMinutes(d.drivingMinutes);
    HoursThresholdsInMinutes(d.restMinutes);
  }

  /// The band's ranking is its days reordered, most driving first, days
  /// with equal driving keeping their order in the week; all of them come
  /// from the week and lie in the band.
  lemma BandRanked(w: Week)
    ensures multiset(BandRanking(w)) == multiset(Filter(w.days, InDrivingBand))
    ensures forall i, j :: 0 <= i < j < |BandRanking(w)| ==> BandRanking(w)[i].drivingHours >= BandRanking(w)[j].drivingHours
    ensures forall k :: WithKey(BandRanking(w), DescendingDriving, k) == WithKey(Filter(w.days, InDrivingBand), DescendingDriving, k)
    ensures forall i :: 0 <= i < |BandRanking(w)| ==> InDrivingBand(BandRanking(w)[i]) && BandRanking(w)[i] in w.days
  {
    var band := Filter(w.days, InDrivingBand);
    var ranked := BandRanking(w);
    forall k {
      SortByStable(band, DescendingDriving, k);
    }
    forall i | 0 <= i < |ranked|
      ensures InDrivingBand(ranked[i]) && ranked[i] in w.days
    {
      assert ranked[i] in multiset(band);
      assert ranked[i] in band;
      assert ranked[i] in multiset(w.days);
    }
  }

  /// Two days a week may drive in the band: every band day past the two
  /// with the most driving is flagged.
  lemma BandExemptionCount(w: Week)
    ensures |BandCheck(w)| == (if |Filter(w.days, InDrivingBand)| > 2 then |Filter(w.days, InDrivingBand)| - 2 else 0)
  {
  }

  /// The `i`-th band infraction is the day at rank `i + 3`, whose driving
  /// is no more than that of either exempt day.
  lemma BandFlagged(w: Week, i: nat)
    requires i < |BandCheck(w)|
    ensures var r, ranked := BandCheck(w)[i], BandRanking(w);
            r.date == ranked[i + 2].date && r.code == DRIVING_FREQUENCY && r.gravity == Fourth
            && r.detail == DrivingBandFrequency(ranked[i + 2].drivingHours, i + 3)
            && r.observed <= ranked[0].drivingHours && r.observed <= ranked[1].drivingHours
  {
    RuleCodes();
    assert BandCheck(w)[i] == BandFlag(BandRanking(w)[i + 2], i + 3);
  }

  /// The reduced rests' ranking is the reduced rests reordered, shortest
  /// first, equal rests keeping their order in the week.
  lemma ReducedRestRanked(w: Week)
    ensures multiset(ReducedRestRanking(w)) == multiset(Filter(w.days, HasReducedRest))
    ensures forall i, j :: 0 <= i < j < |ReducedRestRanking(w)| ==> ReducedRestRanking(w)[i].restHours <= ReducedRestRanking(w)[j].restHours
    ensures forall k :: WithKey(ReducedRestRanking(w), AscendingRest, k) == WithKey(Filter(w.days, HasReducedRest), AscendingRest, k)
    ensures forall i :: 0 <= i < |ReducedRestRanking(w)| ==> HasReducedRest(ReducedRestRanking(w)[i]) && ReducedRestRanking(w)[i] in w.days
  {
    var reduced := Filter(w.days, HasReducedRest);
    var ranked := ReducedRestRanking(w);
    forall k {
      SortByStable(reduced, AscendingRest, k);
    }
    forall i | 0 <= i < |ranked|
      ensures HasReducedRest(ranked[i]) && ranked[i] in w.days
    {
      assert ranked[i] in multiset(reduced);
      assert ranked[i] in reduced;
      assert ranked[i] in multiset(w.days);
    }
  }

  /// At most three reduced rests a week: every one past the three
  /// shortest is flagged.
  lemma ReducedRestExemptionCount(w: Week)
    ensures |ReducedRestCheck(w)| == (if |Filter(w.days, HasReducedRest)| > 3 then |Filter(w.days, HasReducedRest)| - 3 else 0)
  {
  }

  /// The `i`-th reduced-rest infraction is the rest at rank `i + 4`, no
  /// shorter than any of the three exempt ones.
  lemma ReducedRestFlagged(w: Week, i: nat)
    requires i < |ReducedRestCheck(w)|
    ensures var r, ranked := ReducedRestCheck(w)[i], ReducedRestRanking(w);
            r.date == ranked[i + 3].date && r.code == DAILY_REST && r.gravity == Fourth
            && r.detail == ReducedRestFrequency(ranked[i + 3].restHours, i + 4)
            && r.observed >= ranked[0].restHours && r.observed >= ranked[1].restHours
            && r.observed >= ranked[2].restHours
  {
    RuleCodes();
    assert ReducedRestCheck(w)[i] == ReducedRestFlag(ReducedRestRanking(w)[i + 3], i + 4);
  }

  /// The pairs of consecutive weeks (by the first week's position) whose
  /// driving together exceeds 90 h.
  ghost function HeavyPairs(weeks: seq<Week>): set<int> {
    set j | 0 <= j < |weeks| - 1 && IsHeavyPair(weeks, j)
  }

  predicate IsHeavyPair(weeks: seq<Week>, j: int)
    requires 0 <= j < |weeks| - 1
  {
    weeks[j].drivingHours + weeks[j + 1].drivingHours > 9000
  }

  /// One more week adds at most the pair it closes.
  lemma HeavyPairsSnoc(weeks: seq<Week>)
    requires |weeks| >= 2
    ensures HeavyPairs(weeks) == HeavyPairs(weeks[..|weeks| - 1])
                                 + (if IsHeavyPair(weeks, |weeks| - 2) then {|weeks| - 2} else {})
    ensures |weeks| - 2 !in HeavyPairs(weeks[..|weeks| - 1])
  {
    var init := weeks[..|weeks| - 1];
    forall j | 0 <= j < |init| - 1
      ensures IsHeavyPair(init, j) == IsHeavyPair(weeks, j)
    {
      assert init[j] == weeks[j] && init[j + 1] == weeks[j + 1];
    }
  }

  /// One two-week infraction per heavy pair of consecutive weeks.
  lemma {:induction false} TwoWeekCount(weeks: seq<Week>)
    ensures |TwoWeekInfractions(weeks)| == |HeavyPairs(weeks)|
  {
    if |weeks| >= 2 {
      var init := weeks[..|weeks| - 1];
      TwoWeekCount(init);
      HeavyPairsSnoc(weeks);
      var pair := PairCheck(weeks[|weeks| - 2], weeks[|weeks| - 1]);
      assert |pair| == if IsHeavyPair(weeks, |weeks| - 2) then 1 else 0;
    }
  }

  /// Every heavy pair of consecutive weeks is reported, under the two
  /// weeks' labels.
  lemma {:induction false} TwoWeekCoverage(weeks: seq<Week>, j: int)
    requires 0 <= j < |weeks| - 1 && IsHeavyPair(weeks, j)
    ensures exists i :: 0 <= i < |TwoWeekInfractions(weeks)|
                        && TwoWeekInfractions(weeks)[i].date == PairDate(weeks[j], weeks[j + 1])
                        && TwoWeekInfractions(weeks)[i].observed == weeks[j].drivingHours + weeks[j + 1].drivingHours
  {
    var init := weeks[..|weeks| - 1];
    var before := TwoWeekInfractions(init);
    var pair := PairCheck(weeks[|weeks| - 2], weeks[|weeks| - 1]);
    var all := TwoWeekInfractions(weeks);
    assert all == before + pair;
    if j == |weeks| - 2 {
      assert all[|before|] == pair[0];
    } else {
      assert init[j] == weeks[j] && init[j + 1] == weeks[j + 1];
      TwoWeekCoverage(init, j);
      var i :| 0 <= i < |before| && before[i].date == PairDate(init[j], init[j + 1])
               && before[i].observed == init[j].drivingHours + init[j + 1].drivingHours;
      assert all[i] == before[i];
    }
  }

  /// Every two-week infraction reports a heavy pair of consecutive weeks:
  /// its date joins the two labels, its hours are their sum, and it is of
  /// the 5th class exactly when the sum passes 112.5 h.
  lemma {:induction false} TwoWeekSound(weeks: seq<Week>, i: int)
    requires 0 <= i < |TwoWeekInfractions(weeks)|
    ensures exists j :: 0 <= j < |weeks| - 1 && IsHeavyPair(weeks, j)
                        && TwoWeekInfractions(weeks)[i].date == PairDate(weeks[j], weeks[j + 1])
                        && TwoWeekInfractions(weeks)[i].observed == weeks[j].drivingHours + weeks[j + 1].drivingHours
                        && (TwoWeekInfractions(weeks)[i].gravity == Fifth
                            <==> weeks[j].drivingHours + weeks[j + 1].drivingHours > 9000 + 2250)
  {
    var init := weeks[..|weeks| - 1];
    var last := |weeks| - 2;
    var before := TwoWeekInfractions(init);
    var pair := PairCheck(weeks[last], weeks[last + 1]);
    var all := TwoWeekInfractions(weeks);
    assert all == before + pair;
    if i < |before| {
      TwoWeekSound(init, i);
      var j :| 0 <= j < |init| - 1 && IsHeavyPair(init, j)
               && before[i].date == PairDate(init[j], init[j + 1])
               && before[i].observed == init[j].drivingHours + init[j + 1].drivingHours
               && (before[i].gravity == Fifth <==> init[j].drivingHours + init[j + 1].drivingHours > 9000 + 2250);
      assert init[j] == weeks[j] && init[j + 1] == weeks[j + 1];
      assert all[i] == before[i];
    } else {
      assert all[i] == pair[0];
    }
  }
}
