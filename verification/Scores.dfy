/** Scores from 0 to 100 and the severities they stand for. */
module Scores {

  function Clamp(score: int): (r: int)
    ensures (0 <= score <= 100 ==> r == score) && (score < 0 ==> r == 0) && (score > 100 ==> r == 100)
  {
    if score < 0 then 0 else if score > 100 then 100 else score
  }

  // `classify_incident_severity`, and the same tiers in `calculate_governance_risk`.
  function Classify(score: int): string {
    if score >= 80 then "CRITICAL" else if score >= 60 then "HIGH" else if score >= 30 then "MEDIUM" else "LOW"
  }

  /** The four tiers. */
  lemma TiersExactly(score: int)
    ensures Classify(score) == "CRITICAL" <==> 80 <= score
    ensures Classify(score) == "HIGH" <==> 60 <= score < 80
    ensures Classify(score) == "MEDIUM" <==> 30 <= score < 60
    ensures Classify(score) == "LOW" <==> score < 30
  {
  }
}
