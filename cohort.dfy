/** Selecting the patients of one risk level, as both the dashboard
    (`allHighRiskPatients`, `mediumRiskCount`) and the patients page (its three
    risk tabs) do with `patients.filter((p) => p.riskLevel === level)`. */
module Cohort {
  import opened Util
  import opened Types

  /** The test `p.riskLevel === level`, as a value that can be handed to `Filter`. */
  function AtLevel(level: RiskLevel): Patient -> bool {
    (p: Patient) => p.riskLevel == level
  }

  /** The patients whose risk level is `level`, in their original order. */
  function WithRiskLevel(ps: seq<Patient>, level: RiskLevel): (r: seq<Patient>)
    ensures forall p :: p in r <==> p in ps && p.riskLevel == level
    ensures IsSubsequence(r, ps)
  {
    Filter(AtLevel(level), ps)
  }

  /** Every patient has exactly one of the three risk levels, so the three
      selections split the cohort: as multisets they add up to the whole list,
      and their lengths add up to its length. */
  lemma RiskLevelsPartition(ps: seq<Patient>)
    ensures multiset(WithRiskLevel(ps, Low)) + multiset(WithRiskLevel(ps, Medium)) + multiset(WithRiskLevel(ps, High))
            == multiset(ps)
    ensures |WithRiskLevel(ps, Low)| + |WithRiskLevel(ps, Medium)| + |WithRiskLevel(ps, High)| == |ps|
  {
    FilterPartition3(AtLevel(Low), AtLevel(Medium), AtLevel(High), ps);
  }
}
