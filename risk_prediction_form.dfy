/** The risk-prediction form (src/app/risk-prediction/components/risk-prediction-form.tsx):
    its validation schema, the loading/prediction state around the call to the
    prediction service, and the badge shown for the predicted risk level. */
module RiskPredictionForm {
  import opened Util
  import opened Types
  import AddPatientForm
  import PatientTable

  datatype Condition = Diabetes | Hypertension | HeartDisease

  function ConditionName(c: Condition): string {
    match c
    case Diabetes => "diabetes"
    case Hypertension => "hypertension"
    case HeartDisease => "heart disease"
  }

  /** `z.enum(['diabetes', 'hypertension', 'heart disease'])`. */
  function ParseCondition(s: string): (r: Option<Condition>)
    ensures r.Some? ==> ConditionName(r.value) == s
    ensures r.None? ==> forall c: Condition :: ConditionName(c) != s
  {
    if s == "diabetes" then Some(Diabetes)
    else if s == "hypertension" then Some(Hypertension)
    else if s == "heart disease" then Some(HeartDisease)
    else None
  }

  /** The form's values after numeric coercion; `None` is a value that is not a number. */
  datatype Draft = Draft(
    age: Option<real>,
    gender: string,
    sugarLevel: Option<real>,
    bpSystolic: Option<real>,
    bpDiastolic: Option<real>,
    bmi: Option<real>,
    condition: string)

  /** `defaultValues`: gender Female, condition diabetes; the numbers unset. */
  const DefaultDraft := Draft(None, "Female", None, None, None, None, "diabetes")

  /** The validated request sent to the prediction service. */
  datatype RiskInput = RiskInput(
    age: int,
    gender: Gender,
    sugarLevel: real,
    bpSystolic: int,
    bpDiastolic: int,
    bmi: real,
    condition: Condition)

  /** `z.coerce.number().int().min(1).max(120)`. */
  predicate ValidAge(x: Option<real>) {
    x.Some? && AddPatientForm.IsWhole(x.value) && 1.0 <= x.value <= 120.0
  }

  /** `z.coerce.number().min(1)`. */
  predicate AtLeastOne(x: Option<real>) { x.Some? && x.value >= 1.0 }

  /** `z.coerce.number().int().min(1)`. */
  predicate WholeAtLeastOne(x: Option<real>) {
    x.Some? && AddPatientForm.IsWhole(x.value) && x.value >= 1.0
  }

  /** `formSchema`. */
  predicate Accepts(d: Draft) {
    && ValidAge(d.age)
    && ParseGender(d.gender).Some?
    && AtLeastOne(d.sugarLevel)
    && WholeAtLeastOne(d.bpSystolic)
    && WholeAtLeastOne(d.bpDiastolic)
    && AtLeastOne(d.bmi)
    && ParseCondition(d.condition).Some?
  }

  /** The values the schema hands to `onSubmit`: present exactly when the draft
      is accepted, and then equal field by field to what was entered. */
  function Validate(d: Draft): (r: Option<RiskInput>)
    ensures r.Some? <==> Accepts(d)
    ensures r.Some? ==>
      && r.value.age as real == d.age.value
      && GenderName(r.value.gender) == d.gender
      && r.value.sugarLevel == d.sugarLevel.value
      && r.value.bpSystolic as real == d.bpSystolic.value
      && r.value.bpDiastolic as real == d.bpDiastolic.value
      && r.value.bmi == d.bmi.value
      && ConditionName(r.value.condition) == d.condition
    ensures r.Some? ==>
      && 1 <= r.value.age <= 120 && r.value.sugarLevel >= 1.0
      && r.value.bpSystolic >= 1 && r.value.bpDiastolic >= 1 && r.value.bmi >= 1.0
  {
    if Accepts(d) then
      Some(RiskInput(d.age.value.Floor, ParseGender(d.gender).value, d.sugarLevel.value,
                     d.bpSystolic.value.Floor, d.bpDiastolic.value.Floor, d.bmi.value,
                     ParseCondition(d.condition).value))
    else None
  }

  /** The untouched form cannot be submitted: its numbers are unset. */
  lemma DefaultDraftRejected()
    ensures Validate(DefaultDraft).None?
  {
  }

  /** The numeric rules of this form are stricter than the add-patient form's:
      whatever vitals pass here pass there too, given a valid name and risk level. */
  lemma StricterThanAddPatientForm(d: Draft, name: string, riskLevel: string)
    requires Accepts(d) && |name| >= 2 && ParseRiskLevel(riskLevel).Some?
    ensures AddPatientForm.Accepts(AddPatientForm.Draft(name, d.age, d.gender, d.sugarLevel,
                                                        d.bpSystolic, d.bpDiastolic, d.bmi, riskLevel))
  {
  }

  /** ... and strictly so: a BMI of 0.5 or an age of 121 passes the add-patient
      form but not this one. */
  lemma StrictlyStricter()
    ensures AddPatientForm.PositiveNumber(Some(0.5)) && !AtLeastOne(Some(0.5))
    ensures AddPatientForm.PositiveInteger(Some(121.0)) && !ValidAge(Some(121.0))
  {
    assert (121.0).Floor == 121;
  }

  // ---------------------------------------------------------------------------
  // Prediction state

  /** The prediction service's answer, taken as it comes: nothing bounds the
      score or checks the level. */
  datatype Prediction = Prediction(riskScore: real, riskLevel: string, explanation: string)

  /** How the awaited call ends: it resolves (with a prediction, or with null,
      which the non-null assertion in the service does not rule out at run time),
      or it throws. */
  datatype Outcome = Resolved(output: Option<Prediction>) | Rejected

  /** The form component's `prediction` and `isLoading` state. */
  class RiskForm {
    var prediction: Option<Prediction>
    var isLoading: bool

    /** While a request is pending no old prediction is on show. */
    ghost predicate Valid()
      reads this
    {
      isLoading ==> prediction.None?
    }

    constructor ()
      ensures Valid() && prediction.None? && !isLoading
    {
      prediction := None;
      isLoading := false;
    }

    /** The result panel is rendered while loading or once there is a prediction. */
    predicate ResultPanelShown()
      reads this
    {
      isLoading || prediction.Some?
    }

    /** Pressing the submit button with a valid form: `onSubmit` up to the
        `await`. The button is disabled while loading, so a press then does nothing. */
    method StartSubmit()
      requires Valid()
      modifies this
      ensures Valid()
      ensures old(isLoading) ==> isLoading && prediction == old(prediction)
      ensures !old(isLoading) ==> isLoading && prediction.None?
      ensures ResultPanelShown()
    {
      if !isLoading {
        isLoading := true;
        prediction := None;
      }
    }

    /** The awaited call ends: on success its value becomes the prediction, on
        failure the prediction is left as it is (cleared by the start); in both
        cases loading ends (`finally`). */
    method Settle(outcome: Outcome)
      requires Valid()
      modifies this
      ensures Valid() && !isLoading
      ensures outcome.Resolved? ==> prediction == outcome.output
      ensures outcome.Rejected? ==> prediction == old(prediction)
      ensures old(isLoading) && outcome.Rejected? ==> prediction.None? && !ResultPanelShown()
      ensures ResultPanelShown() <==> prediction.Some?
    {
      if outcome.Resolved? {
        prediction := outcome.output;
      }
      isLoading := false;
    }
  }

  // ---------------------------------------------------------------------------
  // Badge of the predicted level

  /** ASCII lower-casing of one character. */
  function LowerChar(c: char): char {
    if 'A' <= c <= 'Z' then (c as int - 'A' as int + 'a' as int) as char else c
  }

  predicate IsUpper(c: char) { 'A' <= c <= 'Z' }

  /** `toLowerCase()`, on ASCII letters: no capital is left, each capital
      becomes its small letter, and every other character stays as it was. */
  function ToLower(s: string): (r: string)
    ensures |r| == |s|
    ensures forall i :: 0 <= i < |r| ==> !IsUpper(r[i])
    ensures forall i :: 0 <= i < |s| && IsUpper(s[i]) ==> r[i] as int == s[i] as int + ('a' as int - 'A' as int)
    ensures forall i :: 0 <= i < |s| && !IsUpper(s[i]) ==> r[i] == s[i]
  {
    seq(|s|, i requires 0 <= i < |s| => LowerChar(s[i]))
  }

  /** Lower-casing twice is lower-casing once. */
  lemma ToLowerIdempotent(s: string)
    ensures ToLower(ToLower(s)) == ToLower(s)
  {
    var r := ToLower(s);
    assert forall i :: 0 <= i < |r| ==> ToLower(r)[i] == r[i];
  }

  /** `a` and `b` spell the same word, ignoring the case of letters. */
  predicate SameIgnoringCase(a: string, b: string) {
    |a| == |b| && forall i :: 0 <= i < |a| ==> LowerChar(a[i]) == LowerChar(b[i])
  }

  /** Lower-casing gives a lower-case word exactly when the string spells it in any case. */
  lemma ToLowerIsWord(s: string, word: string)
    requires ToLower(word) == word
    ensures ToLower(s) == word <==> SameIgnoringCase(s, word)
  {
    if SameIgnoringCase(s, word) {
      assert forall i :: 0 <= i < |s| ==> ToLower(s)[i] == word[i];
    }
  }

  /** The badge variant of the predicted risk level: "high" in any case is
      destructive, "medium" in any case secondary, anything else default. */
  function PredictionBadge(riskLevel: string): (v: BadgeVariant)
    ensures v == DestructiveBadge <==> SameIgnoringCase(riskLevel, "high")
    ensures v == SecondaryBadge <==> SameIgnoringCase(riskLevel, "medium")
    ensures v == DefaultBadge <==> !SameIgnoringCase(riskLevel, "high") && !SameIgnoringCase(riskLevel, "medium")
  {
    ToLowerIsWord(riskLevel, "high");
    ToLowerIsWord(riskLevel, "medium");
    var level := ToLower(riskLevel);
    if level == "high" then DestructiveBadge
    else if level == "medium" then SecondaryBadge
    else DefaultBadge
  }

  /** A prediction that spells a risk level the way the patient record does
      gets the badge the patient table gives that level. */
  lemma PredictionBadgeAgreesWithTable(l: RiskLevel)
    ensures PredictionBadge(RiskLevelName(l)) == PatientTable.RiskBadgeVariant(l)
  {
    match l
    case Low =>
      assert !SameIgnoringCase("Low", "high") by { assert |"Low"| != |"high"|; }
      assert !SameIgnoringCase("Low", "medium") by { assert |"Low"| != |"medium"|; }
    case Medium =>
      assert SameIgnoringCase("Medium", "medium") by {
        assert LowerChar('M') == 'm';
      }
    case High =>
      assert SameIgnoringCase("High", "high") by {
        assert LowerChar('H') == 'h';
      }
  }
}
