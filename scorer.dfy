/// `calculerScoreConformite`: the share of days without a day-dated
/// infraction, as a percentage, less 5 points per criminal offence, 2 per
/// 5th-class and 1 per 4th-class infraction, rounded and clamped to 0..100.
module Scorer {
  import opened Types
  import opened Classifier
  import opened Counting

  /// `infractionsJournalieres`: dated by a day label (a weekday
  /// abbreviation and a dot), the same test as the row classifier's.
  predicate IsDayDated(i: Infraction) { HasWeekdayAbbreviation(i.date) }

  predicate IsDelit(i: Infraction) { i.gravity == Delit }
  predicate IsFifth(i: Infraction) { i.gravity == Fifth }
  predicate IsFourth(i: Infraction) { i.gravity == Fourth }

  /// The points taken off for the infractions' classes.
  function Penalty(infs: seq<Infraction>): nat {
    5 * CountIf(infs, IsDelit) + 2 * CountIf(infs, IsFifth) + CountIf(infs, IsFourth)
  }

  /// `Math.round(a / b)`: the nearest integer, a half rounded upwards.
  function RoundDiv(a: int, b: int): (r: int)
    requires b > 0
    ensures b * (2 * r - 1) <= 2 * a < b * (2 * r + 1)
  {
    var q := (2 * a + b) / (2 * b);
    assert 2 * a + b == 2 * b * q + (2 * a + b) % (2 * b);
    assert b * (2 * q - 1) == 2 * b * q - b;
    assert b * (2 * q + 1) == 2 * b * q + b;
    q
  }

  /// `Math.max(0, Math.min(100, x))`.
  function Clamp(x: int): (r: int)
    ensures 0 <= r <= 100
    ensures r == x || (x < 0 && r == 0) || (x > 100 && r == 100)
  {
    if x < 0 then 0 else if x > 100 then 100 else x
  }

  lemma MulLeft(b: int, x: int, y: int)
    requires b >= 0 && x <= y
    ensures b * x <= b * y
  {
    assert b * y - b * x == b * (y - x);
  }

  /// Taking `p` whole points off a rounded value takes them off the value.
  lemma ShiftedBounds(n: int, r: int, p: int, a: int)
    requires n > 0 && n * (2 * r - 1) <= 2 * a < n * (2 * r + 1)
    ensures n * (2 * (r - p) - 1) <= 2 * a - 2 * n * p < n * (2 * (r - p) + 1)
  {
    assert n * (2 * (r - p) - 1) == n * (2 * r - 1) - 2 * n * p;
    assert n * (2 * (r - p) + 1) == n * (2 * r + 1) - 2 * n * p;
  }

  /// When `q` is the nearest integer to `t / (2 n)`, it is at most 0 exactly
  /// when `t / (2 n)` is under one half, and at least 100 exactly when it is
  /// 99.5 or more.
  lemma NearestBounds(n: int, q: int, t: int)
    requires n > 0 && n * (2 * q - 1) <= t < n * (2 * q + 1)
    ensures q <= 0 <==> t < n
    ensures q >= 100 <==> t >= 199 * n
  {
    if q <= 0 {
      MulLeft(n, 2 * q + 1, 1);
    } else {
      MulLeft(n, 1, 2 * q - 1);
    }
    if q >= 100 {
      MulLeft(n, 199, 2 * q - 1);
    } else {
      MulLeft(n, 2 * q + 1, 199);
    }
  }

  /// The score. With `twice` standing for twice the number of days times
  /// the unrounded score, the result is the nearest integer to the
  /// unrounded score when that lies in range, 0 when it is under one half
  /// and 100 when it is 99.5 or more.
  function ComplianceScore(days: nat, infs: seq<Infraction>): (s: int)
    ensures 0 <= s <= 100
    ensures days == 0 ==> s == 100
    ensures days > 0 ==>
              var twice := 200 * (days - CountIf(infs, IsDayDated)) - 2 * days * Penalty(infs);
              (0 < s < 100 ==> days * (2 * s - 1) <= twice < days * (2 * s + 1))
              && (s == 0 <==> twice < days)
              && (s == 100 <==> twice >= 199 * days)
  {
    if days == 0 then 100
    else
      var conforming := days - CountIf(infs, IsDayDated);
      var p := Penalty(infs);
      var r := RoundDiv(100 * conforming, days);
      ShiftedBounds(days, r, p, 100 * conforming);
      NearestBounds(days, r - p, 200 * conforming - 2 * days * p);
      Clamp(r - p)
  }

  /// With no infraction at all the score is 100.
  lemma NoInfractionFullScore(days: nat)
    ensures ComplianceScore(days, []) == 100
  {
  }

  /// Rounding a quotient keeps the order of the dividends.
  lemma RoundDivMonotone(a: int, a': int, b: int)
    requires b > 0 && a' <= a
    ensures RoundDiv(a', b) <= RoundDiv(a, b)
  {
    var r, r' := RoundDiv(a, b), RoundDiv(a', b);
    if r' > r {
      MulLeft(b, 2 * r + 1, 2 * r' - 1);
    }
  }

  /// One more infraction never raises the score.
  lemma ScoreMonotone(days: nat, infs: seq<Infraction>, x: Infraction)
    ensures ComplianceScore(days, infs + [x]) <= ComplianceScore(days, infs)
  {
    var more := infs + [x];
    assert more[..|more| - 1] == infs;
    if days > 0 {
      assert CountIf(more, IsDayDated) >= CountIf(infs, IsDayDated);
      assert Penalty(more) >= Penalty(infs);
      RoundDivMonotone(100 * (days - CountIf(infs, IsDayDated)), 100 * (days - CountIf(more, IsDayDated)), days);
    }
  }

  /// The score depends on which infractions there are, not on their order.
  lemma ScoreOrderIndependent(days: nat, a: seq<Infraction>, b: seq<Infraction>)
    requires multiset(a) == multiset(b)
    ensures ComplianceScore(days, a) == ComplianceScore(days, b)
  {
    CountIfPermutation(a, b, IsDayDated);
    CountIfPermutation(a, b, IsDelit);
    CountIfPermutation(a, b, IsFifth);
    CountIfPermutation(a, b, IsFourth);
  }
}
