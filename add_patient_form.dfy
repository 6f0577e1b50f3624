/** The add-patient form (src/app/patients/components/add-patient-form.tsx): its
    validation schema, its default values, and submitting, which hands the
    validated values to the table and resets the form. */
module AddPatientForm {
  import opened Util
  import opened Types
  import PatientTable

  /** The form's values after each numeric field has been turned into a number.
      A numeric field is `None` when it is not a number (NaN), as an untouched
      field is; every numeric check rejects it. */
  datatype Draft = Draft(
    name: string,
    age: Option<real>,
    gender: string,
    sugarLevel: Option<real>,
    bpSystolic: Option<real>,
    bpDiastolic: Option<real>,
    bmi: Option<real>,
    riskLevel: string)

  /** `defaultValues`: an empty name, gender Female, risk level Low; the rest unset. */
  const DefaultDraft := Draft("", None, "Female", None, None, None, None, "Low")

  predicate IsWhole(x: real) { x.Floor as real == x }

  /** `z.coerce.number().positive()`. */
  predicate PositiveNumber(x: Option<real>) { x.Some? && x.value > 0.0 }

  /** `z.coerce.number().int().positive()`. */
  predicate PositiveInteger(x: Option<real>) { x.Some? && IsWhole(x.value) && x.value > 0.0 }

  /** `formSchema`. */
  predicate Accepts(d: Draft) {
    && |d.name| >= 2
    && PositiveInteger(d.age)
    && ParseGender(d.gender).Some?
    && PositiveNumber(d.sugarLevel)
    && PositiveInteger(d.bpSystolic)
    && PositiveInteger(d.bpDiastolic)
    && PositiveNumber(d.bmi)
    && ParseRiskLevel(d.riskLevel).Some?
  }

  /** The values the schema hands to `onSubmit`: present exactly when the draft
      is accepted, and then equal field by field to what was entered. */
  function Validate(d: Draft): (r: Option<NewPatient>)
    ensures r.Some? <==> Accepts(d)
    ensures r.Some? ==>
      && r.value.name == d.name
      && r.value.age as real == d.age.value
      && GenderName(r.value.gender) == d.gender
      && r.value.sugarLevel == d.sugarLevel.value
      && r.value.bpSystolic as real == d.bpSystolic.value
      && r.value.bpDiastolic as real == d.bpDiastolic.value
      && r.value.bmi == d.bmi.value
      && RiskLevelName(r.value.riskLevel) == d.riskLevel
    ensures r.Some? ==>
      && |r.value.name| >= 2 && r.value.age > 0 && r.value.sugarLevel > 0.0
      && r.value.bpSystolic > 0 && r.value.bpDiastolic > 0 && r.value.bmi > 0.0
  {
    if Accepts(d) then
      Some(NewPatient(d.name, d.age.value.Floor, ParseGender(d.gender).value, d.sugarLevel.value,
                      d.bpSystolic.value.Floor, d.bpDiastolic.value.Floor, d.bmi.value,
                      ParseRiskLevel(d.riskLevel).value))
    else None
  }

  /** The untouched form cannot be submitted: its name is empty and its numbers unset. */
  lemma DefaultDraftRejected()
    ensures Validate(DefaultDraft).None?
  {
  }

  /** Age has no upper bound: any whole positive age passes the age check. */
  lemma AgeHasNoUpperBound(d: Draft, age: nat)
    requires Accepts(d) && age > 0
    ensures Accepts(d.(age := Some(age as real)))
  {
  }

  /** The form's values (react-hook-form's state). */
  class Form {
    var draft: Draft

    constructor ()
      ensures draft == DefaultDraft
    {
      draft := DefaultDraft;
    }

    /** The user changes the fields. */
    method Edit(d: Draft)
      modifies this
      ensures draft == d
    {
      draft := d;
    }

    /** `onSubmit`: the validated values go to `onAddPatient` (the table's
        `handleAddPatient`) unchanged, and then the form is reset. */
    method OnSubmit(values: NewPatient, table: PatientTable.Table)
      modifies this, table
      ensures table.patients == [PatientTable.CreatePatient(values, |old(table.patients)|)] + old(table.patients)
      ensures !table.open
      ensures draft == DefaultDraft
    {
      table.HandleAddPatient(values);
      draft := DefaultDraft;
    }

    /** `form.handleSubmit(onSubmit)`: only an accepted draft reaches the table;
        a rejected one changes nothing. */
    method HandleSubmit(table: PatientTable.Table)
      modifies this, table
      ensures Accepts(old(draft)) ==>
        && table.patients == [PatientTable.CreatePatient(Validate(old(draft)).value, |old(table.patients)|)] + old(table.patients)
        && !table.open
        && draft == DefaultDraft
      ensures !Accepts(old(draft)) ==>
        table.patients == old(table.patients) && table.open == old(table.open) && draft == old(draft)
    {
      var values := Validate(draft);
      if values.Some? {
        OnSubmit(values.value, table);
      }
    }
  }
}
