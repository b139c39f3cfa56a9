/** The scoring model: ZAP's ordinal risk and confidence codes become a
    severity weight and a confidence coefficient whose product is a
    finding's score.

    Scores are exact integers counted in TENTHS of a point: the source's
    coefficients 0.0, 0.5, 0.8 and 1.0 are 0, 5, 8 and 10 here, so every
    score is a whole number of tenths between 0 and 50 (0.0 to 5.0) and
    rounding to two decimals never changes it. */
module Scoring {

  /** The ordinal codes ZAP uses for risk and for confidence. */
  const Codes: set<string> := {"0", "1", "2", "3"}

  /** Position of a recognised code on its ordinal scale. */
  function Rank(code: string): nat
    requires code in Codes
  {
    if code == "0" then 0 else if code == "1" then 1 else if code == "2" then 2 else 3
  }

  /** Severity weight of a risk code: 3 (critical) -> 5, 2 (high) -> 3,
      1 (medium) -> 2, 0 (low) -> 1, anything else -> 0. */
  function Severity(riskcode: string): (w: nat)
    ensures w <= 5
    ensures w == 0 <==> riskcode !in Codes
  {
    if riskcode == "3" then 5
    else if riskcode == "2" then 3
    else if riskcode == "1" then 2
    else if riskcode == "0" then 1
    else 0
  }

  /** Confidence coefficient in tenths: 0 -> 0.0, 1 -> 0.5, 2 -> 0.8,
      3 -> 1.0, anything else -> 0.0. */
  function Coefficient(confidence: string): (c: nat)
    ensures c <= 10
    ensures c == 0 <==> confidence !in Codes - {"0"}
  {
    if confidence == "0" then 0
    else if confidence == "1" then 5
    else if confidence == "2" then 8
    else if confidence == "3" then 10
    else 0
  }

  /** A finding's score in tenths: severity weight times confidence coefficient. */
  function Score(riskcode: string, confidence: string): (s: nat)
    ensures s <= 50
    ensures s == 0 <==> riskcode !in Codes || confidence !in Codes - {"0"}
  {
    var w, c := Severity(riskcode), Coefficient(confidence);
    assert w * c <= 5 * c <= 50;
    w * c
  }

  /** Both scales are strictly increasing on the recognised codes. */
  lemma ScalesAreMonotone(a: string, b: string)
    requires a in Codes && b in Codes
    ensures Rank(a) < Rank(b) <==> Severity(a) < Severity(b)
    ensures Rank(a) < Rank(b) <==> Coefficient(a) < Coefficient(b)
  {
  }

  /** The corner cases of the scoring model: top risk with full confidence
      scores 5.0, any risk with confidence 0 scores 0.0, an unknown risk
      code scores 0.0 whatever the confidence. */
  lemma ScoreCorners(confidence: string)
    ensures Score("3", "3") == 50
    ensures Score("1", "0") == 0
    ensures Score("9", confidence) == 0
  {
  }
}
