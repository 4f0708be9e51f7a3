/// `calculateScore` and its `penalites` table: the driver's score out of
/// 100, less a penalty per recorded infraction by severity.
module DriverScore {
  import opened Counting

  /// `penalites[severity] || 5`: 5 for "critical", 2 for "high", 1 for
  /// "medium"; "low" maps to 0, which `||` replaces by 5, as it does for a
  /// severity missing from the table.
  function PenaltyOf(severity: string): (p: int)
    ensures p == 1 || p == 2 || p == 5
    ensures p == 5 <==> severity != "high" && severity != "medium"
  {
    if severity == "critical" then 5
    else if severity == "high" then 2
    else if severity == "medium" then 1
    else 5
  }

  /// The points all the infractions take off.
  function TotalPenalty(severities: seq<string>): int {
    SumOf(severities, PenaltyOf)
  }

  /// `calculateScore`: start from 100, take each infraction's penalty off in
  /// turn, clamp to 0..100.
  method CalculateScore(severities: seq<string>) returns (score: int)
    ensures score == if TotalPenalty(severities) > 100 then 0 else 100 - TotalPenalty(severities)
  {
    score := 100;
    for i := 0 to |severities|
      invariant score == 100 - TotalPenalty(severities[..i])
    {
      assert severities[..i + 1][..i] == severities[..i];
      score := score - PenaltyOf(severities[i]);
    }
    assert severities[..|severities|] == severities;
    TotalPenaltyBounds(severities);
    score := if score < 0 then 0 else if score > 100 then 100 else score;
  }

  /// Every infraction costs at least one point and at most five.
  lemma {:induction false} TotalPenaltyBounds(severities: seq<string>)
    ensures |severities| <= TotalPenalty(severities) <= 5 * |severities|
  {
    if severities != [] {
      TotalPenaltyBounds(severities[..|severities| - 1]);
    }
  }

  /// The score lies in 0..100, is 100 only for an empty list, and falls to
  /// 0 once the penalties reach 100.
  lemma ScoreRange(severities: seq<string>)
    ensures var s := if TotalPenalty(severities) > 100 then 0 else 100 - TotalPenalty(severities);
            0 <= s <= 100 && (s == 100 <==> severities == [])
  {
    TotalPenaltyBounds(severities);
  }

  /// The order of the infractions does not matter.
  lemma ScoreOrderIndependent(a: seq<string>, b: seq<string>)
    requires multiset(a) == multiset(b)
    ensures TotalPenalty(a) == TotalPenalty(b)
  {
    SumOfPermutation(a, b, PenaltyOf);
  }

  /// One more infraction never raises the score: it adds 1, 2 or 5 points
  /// of penalty.
  lemma PenaltyGrows(severities: seq<string>, s: string)
    ensures TotalPenalty(severities + [s]) == TotalPenalty(severities) + PenaltyOf(s)
    ensures TotalPenalty(severities + [s]) > TotalPenalty(severities)
  {
    assert (severities + [s])[..|severities|] == severities;
  }
}
