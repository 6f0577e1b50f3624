/** The dashboard (src/app/page.tsx): the summary counts over the cohort, the
    condition filter behind the "priority patients" table, the risk-factor
    badges of a row and the at-most-five-rows table body. */
module Dashboard {
  import opened Util
  import opened Types
  import Cohort

  // ---------------------------------------------------------------------------
  // Thresholds (used by both the condition filter and the row badges)

  predicate HasHighBP(p: Patient) { p.bpSystolic > 140 }

  predicate HasHighSugar(p: Patient) { p.sugarLevel > 125.0 }

  predicate HasObesity(p: Patient) { p.bmi > 30.0 }

  // ---------------------------------------------------------------------------
  // Summary counts

  /** `allHighRiskPatients`. */
  function AllHighRisk(ps: seq<Patient>): seq<Patient> {
    Cohort.WithRiskLevel(ps, High)
  }

  /** JavaScript truthiness of the three vitals: a screening counts when none of them is 0. */
  predicate IsScreened(p: Patient) {
    p.bpSystolic != 0 && p.sugarLevel != 0.0 && p.bmi != 0.0
  }

  /** The `reduce` that computes `totalScreenings`, started from accumulator `acc`. */
  function ScreeningsFrom(ps: seq<Patient>, acc: nat): (n: nat)
    ensures acc <= n <= acc + |ps|
  {
    if ps == [] then acc
    else ScreeningsFrom(ps[1..], if IsScreened(ps[0]) then acc + 1 else acc)
  }

  /** The reduce adds one to its accumulator per screened patient. */
  lemma {:induction false} ScreeningsCountScreened(ps: seq<Patient>, acc: nat)
    ensures ScreeningsFrom(ps, acc) == acc + |Filter(IsScreened, ps)|
  {
    if ps != [] {
      ScreeningsCountScreened(ps[1..], if IsScreened(ps[0]) then acc + 1 else acc);
    }
  }

  /** The four numbers of the summary cards. */
  datatype Summary = Summary(totalPatients: nat, highRisk: nat, mediumRisk: nat, totalScreenings: nat)

  /** The summary cards: the high- and medium-risk cards count the patients at
      those levels, the
      high- and medium-risk cards together never exceed the total, and the
      screenings card counts the patients with all three vitals non-zero. */
  function Summarize(ps: seq<Patient>): (s: Summary)
    ensures s.totalPatients == |ps|
    ensures s.highRisk == |Cohort.WithRiskLevel(ps, High)| && s.mediumRisk == |Cohort.WithRiskLevel(ps, Medium)|
    ensures s.highRisk + s.mediumRisk <= s.totalPatients
    ensures s.totalScreenings == |Filter(IsScreened, ps)| <= s.totalPatients
    ensures s.totalScreenings == s.totalPatients <==> forall p :: p in ps ==> IsScreened(p)
  {
    Cohort.RiskLevelsPartition(ps);
    ScreeningsCountScreened(ps, 0);
    AllScreenedIff(ps);
    Summary(|ps|, |AllHighRisk(ps)|, |Cohort.WithRiskLevel(ps, Medium)|, ScreeningsFrom(ps, 0))
  }

  lemma {:induction false} AllScreenedIff(ps: seq<Patient>)
    ensures |Filter(IsScreened, ps)| == |ps| <==> forall p :: p in ps ==> IsScreened(p)
  {
    if ps != [] {
      AllScreenedIff(ps[1..]);
      assert ps == [ps[0]] + ps[1..];
      assert forall p :: p in ps <==> p == ps[0] || p in ps[1..];
    }
  }

  // ---------------------------------------------------------------------------
  // Condition filter

  /** The label shown while no condition bar is selected. */
  const HighRiskLabel := "High-Risk"

  /** The predicate `handleBarClick` filters with: a known condition name picks
      its threshold, any other name keeps nobody. */
  predicate MatchesCondition(condition: string, p: Patient) {
    if condition == "Hypertension" then HasHighBP(p)
    else if condition == "Diabetes" then HasHighSugar(p)
    else if condition == "Obesity" then HasObesity(p)
    else false
  }

  function Matcher(condition: string): Patient -> bool {
    (p: Patient) => MatchesCondition(condition, p)
  }

  /** `patients.filter(...)` for a clicked condition. */
  function ConditionFilter(ps: seq<Patient>, condition: string): (r: seq<Patient>)
    ensures IsSubsequence(r, ps)
    ensures forall p :: p in r <==> p in ps && MatchesCondition(condition, p)
  {
    Filter(Matcher(condition), ps)
  }

  /** Each known condition shows exactly the patients strictly over its threshold. */
  lemma ConditionFilterThresholds(ps: seq<Patient>)
    ensures forall p :: p in ConditionFilter(ps, "Hypertension") <==> p in ps && p.bpSystolic > 140
    ensures forall p :: p in ConditionFilter(ps, "Diabetes") <==> p in ps && p.sugarLevel > 125.0
    ensures forall p :: p in ConditionFilter(ps, "Obesity") <==> p in ps && p.bmi > 30.0
  {
  }

  /** An unrecognised condition name (including "High-Risk") keeps nobody. */
  lemma {:induction false} UnknownConditionIsEmpty(ps: seq<Patient>, condition: string)
    requires condition != "Hypertension" && condition != "Diabetes" && condition != "Obesity"
    ensures ConditionFilter(ps, condition) == []
  {
    if ps != [] {
      UnknownConditionIsEmpty(ps[1..], condition);
    }
  }

  /** JavaScript truthiness of `condition: string | null`: null and "" are falsy. */
  predicate IsTruthy(condition: Option<string>) {
    condition.Some? && condition.value != ""
  }

  /** The dashboard component's two pieces of state and `handleBarClick`. */
  class DashboardState {
    const patients: seq<Patient>
    var filteredPatients: seq<Patient>
    var selectedCondition: Option<string>

    /** The list shown is always taken from the cohort in order, and a
        condition (never null, never empty) is always selected. */
    ghost predicate Valid()
      reads this
    {
      IsSubsequence(filteredPatients, patients) &&
      selectedCondition.Some? && selectedCondition.value != ""
    }

    constructor (patients: seq<Patient>)
      ensures Valid()
      ensures this.patients == patients
      ensures filteredPatients == AllHighRisk(patients)
      ensures selectedCondition == Some(HighRiskLabel)
    {
      this.patients := patients;
      filteredPatients := AllHighRisk(patients);
      selectedCondition := Some(HighRiskLabel);
    }

    /** Clicking the selected condition again, or passing null or "", goes back
        to all high-risk patients; any other condition selects itself and shows
        the patients over its threshold. */
    method HandleBarClick(condition: Option<string>)
      requires Valid()
      modifies this
      ensures Valid()
      ensures condition == old(selectedCondition) || !IsTruthy(condition) ==>
                filteredPatients == AllHighRisk(patients) && selectedCondition == Some(HighRiskLabel)
      ensures condition != old(selectedCondition) && IsTruthy(condition) ==>
                filteredPatients == ConditionFilter(patients, condition.value) && selectedCondition == condition
    {
      if condition == selectedCondition {
        filteredPatients := AllHighRisk(patients);
        selectedCondition := Some(HighRiskLabel);
      } else if IsTruthy(condition) {
        var filtered := ConditionFilter(patients, condition.value);
        filteredPatients := filtered;
        selectedCondition := condition;
      } else {
        filteredPatients := AllHighRisk(patients);
        selectedCondition := Some(HighRiskLabel);
      }
    }
  }

  // ---------------------------------------------------------------------------
  // Table of the selected patients

  datatype RiskFactorBadge = HighBPBadge | HighSugarBadge | ObesityBadge | HighRiskBadge

  /** The badges of one row, in display order. */
  function RiskFactorBadges(p: Patient): (bs: seq<RiskFactorBadge>)
    ensures HighBPBadge in bs <==> p.bpSystolic > 140
    ensures HighSugarBadge in bs <==> p.sugarLevel > 125.0
    ensures ObesityBadge in bs <==> p.bmi > 30.0
    ensures HighRiskBadge in bs <==> p.riskLevel == High && !(p.bpSystolic > 140 || p.sugarLevel > 125.0 || p.bmi > 30.0)
    ensures IsSubsequence(bs, [HighBPBadge, HighSugarBadge, ObesityBadge, HighRiskBadge])
    ensures |bs| <= 3
    ensures p.riskLevel == High ==> bs != []
  {
    var bp := if HasHighBP(p) then [HighBPBadge] else [];
    var sugar := if HasHighSugar(p) then [HighSugarBadge] else [];
    var obesity := if HasObesity(p) then [ObesityBadge] else [];
    var high := if p.riskLevel == High && !(HasHighBP(p) || HasHighSugar(p) || HasObesity(p)) then [HighRiskBadge] else [];
    SubsequenceOfBadgeOrder(bp, sugar, obesity, high);
    bp + sugar + obesity + high
  }

  lemma SubsequenceOfBadgeOrder(bp: seq<RiskFactorBadge>, sugar: seq<RiskFactorBadge>,
                                obesity: seq<RiskFactorBadge>, high: seq<RiskFactorBadge>)
    requires bp == [] || bp == [HighBPBadge]
    requires sugar == [] || sugar == [HighSugarBadge]
    requires obesity == [] || obesity == [ObesityBadge]
    requires high == [] || high == [HighRiskBadge]
    ensures IsSubsequence(bp + sugar + obesity + high, [HighBPBadge, HighSugarBadge, ObesityBadge, HighRiskBadge])
  {
    var order := [HighBPBadge, HighSugarBadge, ObesityBadge, HighRiskBadge];
    var rest := sugar + obesity + high;
    assert IsSubsequence(high, order[3..]);
    assert IsSubsequence(obesity + high, order[2..]) by {
      if obesity != [] { assert (obesity + high)[1..] == high; }
    }
    assert IsSubsequence(sugar + obesity + high, order[1..]) by {
      if sugar != [] { assert (sugar + obesity + high)[1..] == obesity + high; }
    }
    assert bp + sugar + obesity + high == bp + rest;
    if bp != [] { assert (bp + rest)[1..] == rest; }
  }

  /** How many rows the table shows at most. */
  const MaxRows := 5

  /** The table body: the first rows of the list, or the "No patients found"
      message. */
  datatype TableBody = Rows(rows: seq<Patient>) | NoPatientsMessage

  function TableBodyFor(filtered: seq<Patient>): (t: TableBody)
    ensures t.NoPatientsMessage? <==> filtered == []
    ensures t.Rows? ==> 1 <= |t.rows| <= MaxRows
    ensures t.Rows? ==> |t.rows| == (if |filtered| < MaxRows then |filtered| else MaxRows)
    ensures t.Rows? ==> t.rows == filtered[..|t.rows|]
  {
    if |filtered| > 0 then
      Rows(if |filtered| < MaxRows then filtered else filtered[..MaxRows])
    else NoPatientsMessage
  }
}
