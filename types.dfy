/** The patient record and its closed enumerations (src/lib/types.ts), with the
    string spellings the forms use for them. */
module Types {
  import opened Util

  datatype Gender = Male | Female | Other

  datatype RiskLevel = Low | Medium | High

  /** One row of the cohort. Ages and blood pressures are whole numbers;
      sugar level and BMI are only ever compared with thresholds. */
  datatype Patient = Patient(
    id: string,
    name: string,
    age: int,
    gender: Gender,
    sugarLevel: real,
    bpSystolic: int,
    bpDiastolic: int,
    bmi: real,
    riskLevel: RiskLevel,
    avatar: string)

  /** `Omit<Patient, 'id' | 'avatar'>`: what the add-patient form hands over. */
  datatype NewPatient = NewPatient(
    name: string,
    age: int,
    gender: Gender,
    sugarLevel: real,
    bpSystolic: int,
    bpDiastolic: int,
    bmi: real,
    riskLevel: RiskLevel)

  /** The `variant` of a UI badge. */
  datatype BadgeVariant = DefaultBadge | SecondaryBadge | DestructiveBadge

  function GenderName(g: Gender): string {
    match g
    case Male => "Male"
    case Female => "Female"
    case Other => "Other"
  }

  function RiskLevelName(l: RiskLevel): string {
    match l
    case Low => "Low"
    case Medium => "Medium"
    case High => "High"
  }

  /** The enum check `z.enum(['Male', 'Female', 'Other'])`: accepts exactly the three spellings. */
  function ParseGender(s: string): (r: Option<Gender>)
    ensures r.Some? ==> GenderName(r.value) == s
    ensures r.None? ==> forall g: Gender :: GenderName(g) != s
  {
    if s == "Male" then Some(Male)
    else if s == "Female" then Some(Female)
    else if s == "Other" then Some(Other)
    else None
  }

  /** The enum check `z.enum(['Low', 'Medium', 'High'])`: accepts exactly the three spellings. */
  function ParseRiskLevel(s: string): (r: Option<RiskLevel>)
    ensures r.Some? ==> RiskLevelName(r.value) == s
    ensures r.None? ==> forall l: RiskLevel :: RiskLevelName(l) != s
  {
    if s == "Low" then Some(Low)
    else if s == "Medium" then Some(Medium)
    else if s == "High" then Some(High)
    else None
  }

  lemma GenderNameRoundTrip(g: Gender)
    ensures ParseGender(GenderName(g)) == Some(g)
  {
  }

  lemma RiskLevelNameRoundTrip(l: RiskLevel)
    ensures ParseRiskLevel(RiskLevelName(l)) == Some(l)
  {
  }
}
