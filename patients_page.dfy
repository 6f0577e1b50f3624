/** The patients page (src/app/patients/page.tsx): which tab opens first, taken
    from the URL's `filter` parameter, and the cohort shown under each tab. */
module PatientsPage {
  import opened Util
  import opened Types
  import Cohort

  /** `validFilters`, which are also the values of the four tabs. */
  const ValidFilters: seq<string> := ["all", "low", "medium", "high"]

  /** `defaultTab`: the URL's `filter` when it names a tab, "all" otherwise
      (also when it is missing or empty). */
  function DefaultTab(filter: Option<string>): (tab: string)
    ensures tab in ValidFilters
    ensures filter.Some? && filter.value in ValidFilters ==> tab == filter.value
    ensures filter.None? || filter.value !in ValidFilters ==> tab == "all"
  {
    if filter.Some? && filter.value != "" && filter.value in ValidFilters then filter.value else "all"
  }

  /** What each `TabsContent` hands to its patient table. */
  function TabContents(ps: seq<Patient>): (tabs: map<string, seq<Patient>>)
    ensures forall t :: t in tabs <==> t in ValidFilters
    ensures tabs["all"] == ps
    ensures tabs["low"] == Cohort.WithRiskLevel(ps, Low)
    ensures tabs["medium"] == Cohort.WithRiskLevel(ps, Medium)
    ensures tabs["high"] == Cohort.WithRiskLevel(ps, High)
  {
    map["all" := ps,
        "low" := Cohort.WithRiskLevel(ps, Low),
        "medium" := Cohort.WithRiskLevel(ps, Medium),
        "high" := Cohort.WithRiskLevel(ps, High)]
  }

  /** Whatever the URL says, the tab that opens first is one of the rendered tabs. */
  lemma DefaultTabIsRendered(ps: seq<Patient>, filter: Option<string>)
    ensures DefaultTab(filter) in TabContents(ps)
  {
  }

  /** Together the three risk tabs hold every patient of the "all" tab exactly
      once (which patients each tab holds, and in what order, is stated by
      `TabContents` through `Cohort.WithRiskLevel`). */
  lemma RiskTabsPartitionAll(ps: seq<Patient>)
    ensures var tabs := TabContents(ps);
      && multiset(tabs["low"]) + multiset(tabs["medium"]) + multiset(tabs["high"]) == multiset(tabs["all"])
      && |tabs["low"]| + |tabs["medium"]| + |tabs["high"]| == |tabs["all"]|
  {
    Cohort.RiskLevelsPartition(ps);
  }
}
