/** The disease chart (src/app/components/disease-chart.tsx): for each of three
    conditions, how many patients are strictly over its threshold. */
module DiseaseChart {
  import opened Util
  import opened Types
  import Dashboard

  datatype Bar = Bar(condition: string, count: nat)

  predicate OverSystolic(p: Patient) { p.bpSystolic > 140 }

  predicate OverSugar(p: Patient) { p.sugarLevel > 125.0 }

  predicate OverBmi(p: Patient) { p.bmi > 30.0 }

  /** `diseaseData`: always three bars, in the order Hypertension, Diabetes,
      Obesity, zero counts included, none above the number of patients. */
  function DiseaseData(ps: seq<Patient>): (bars: seq<Bar>)
    ensures |bars| == 3
    ensures bars[0].condition == "Hypertension" && bars[1].condition == "Diabetes" && bars[2].condition == "Obesity"
    ensures forall i :: 0 <= i < 3 ==> bars[i].count <= |ps|
  {
    [Bar("Hypertension", |Filter(OverSystolic, ps)|),
     Bar("Diabetes", |Filter(OverSugar, ps)|),
     Bar("Obesity", |Filter(OverBmi, ps)|)]
  }

  /** Each bar counts exactly the patients the dashboard's condition filter
      would list for the bar's label. */
  lemma CountsMatchDashboardFilter(ps: seq<Patient>)
    ensures forall i :: 0 <= i < 3 ==>
      DiseaseData(ps)[i].count == |Dashboard.ConditionFilter(ps, DiseaseData(ps)[i].condition)|
  {
    FilterExtensional(OverSystolic, Dashboard.Matcher("Hypertension"), ps);
    FilterExtensional(OverSugar, Dashboard.Matcher("Diabetes"), ps);
    FilterExtensional(OverBmi, Dashboard.Matcher("Obesity"), ps);
  }

  /** The thresholds are strict: one more patient raises a bar exactly when the
      patient is strictly over that bar's threshold, so a systolic pressure of
      140, a sugar level of 125 or a BMI of 30 is not counted. */
  lemma ThresholdsAreStrict(p: Patient, ps: seq<Patient>)
    ensures DiseaseData([p] + ps)[0].count == DiseaseData(ps)[0].count + (if p.bpSystolic > 140 then 1 else 0)
    ensures DiseaseData([p] + ps)[1].count == DiseaseData(ps)[1].count + (if p.sugarLevel > 125.0 then 1 else 0)
    ensures DiseaseData([p] + ps)[2].count == DiseaseData(ps)[2].count + (if p.bmi > 30.0 then 1 else 0)
  {
    FilterCons(OverSystolic, p, ps);
    FilterCons(OverSugar, p, ps);
    FilterCons(OverBmi, p, ps);
  }
}
