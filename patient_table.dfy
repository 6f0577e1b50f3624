/** The patient table (src/app/patients/components/patient-table.tsx): the
    badge variant of a risk level, and adding a patient, which makes up the new
    record's id and avatar, puts it first and closes the dialog. */
module PatientTable {
  import opened Types

  /** `riskBadgeVariant[level]`: a total map, one distinct variant per level. */
  function RiskBadgeVariant(level: RiskLevel): (v: BadgeVariant)
    ensures v == DefaultBadge <==> level == Low
    ensures v == SecondaryBadge <==> level == Medium
    ensures v == DestructiveBadge <==> level == High
  {
    match level
    case Low => DefaultBadge
    case Medium => SecondaryBadge
    case High => DestructiveBadge
  }

  // ---------------------------------------------------------------------------
  // Decimal digits

  predicate IsDigit(c: char) { '0' <= c <= '9' }

  predicate AllDigits(s: string) { forall i :: 0 <= i < |s| ==> IsDigit(s[i]) }

  function DigitChar(d: nat): (c: char)
    requires d < 10
    ensures IsDigit(c) && c as int - '0' as int == d
  {
    ('0' as int + d) as char
  }

  /** `String(n)` for a natural number: its decimal digits, with no leading zero. */
  function NatToString(n: nat): (s: string)
    ensures |s| >= 1 && AllDigits(s)
    ensures s[0] == '0' <==> n == 0
    decreases n
  {
    if n < 10 then [DigitChar(n)] else NatToString(n / 10) + [DigitChar(n % 10)]
  }

  /** The number a string of decimal digits denotes (an independent reading-back). */
  function DigitsValue(s: string): nat
    requires AllDigits(s)
  {
    if s == [] then 0 else DigitsValue(s[..|s| - 1]) * 10 + (s[|s| - 1] as int - '0' as int)
  }

  lemma {:induction false} DigitsValueOfNatToString(n: nat)
    ensures DigitsValue(NatToString(n)) == n
    decreases n
  {
    if n >= 10 {
      var s := NatToString(n);
      assert s[..|s| - 1] == NatToString(n / 10);
      DigitsValueOfNatToString(n / 10);
    }
  }

  /** `s.padStart(width, fill)`: `fill` repeated in front of `s` up to `width` characters. */
  function PadStart(s: string, width: nat, fill: char): (r: string)
    ensures |r| == if |s| >= width then |s| else width
    ensures r[|r| - |s|..] == s
    ensures forall i :: 0 <= i < |r| - |s| ==> r[i] == fill
  {
    if |s| >= width then s else seq(width - |s|, _ => fill) + s
  }

  /** Zeros in front of a digit string do not change its value. */
  lemma {:induction false} LeadingZerosIgnored(z: string, s: string)
    requires forall i :: 0 <= i < |z| ==> z[i] == '0'
    requires AllDigits(s)
    ensures AllDigits(z + s)
    ensures DigitsValue(z + s) == DigitsValue(s)
    decreases |s|
  {
    var t := z + s;
    if s == [] {
      assert t == z;
      ZerosAreZero(z);
    } else {
      assert t[..|t| - 1] == z + s[..|s| - 1];
      LeadingZerosIgnored(z, s[..|s| - 1]);
    }
  }

  lemma {:induction false} ZerosAreZero(z: string)
    requires forall i :: 0 <= i < |z| ==> z[i] == '0'
    ensures AllDigits(z) && DigitsValue(z) == 0
  {
    if z != [] {
      ZerosAreZero(z[..|z| - 1]);
    }
  }

  // ---------------------------------------------------------------------------
  // Id and avatar of a new patient

  /** The id given to a patient added to a list of `count` patients. */
  function PatientId(count: nat): string {
    "USR" + PadStart(NatToString(count + 1), 3, '0')
  }

  /** The id is "USR" followed by at least three decimal digits, exactly as many
      as `count + 1` needs when that is more than three, and reading those
      digits back gives `count + 1`. */
  lemma PatientIdFormat(count: nat)
    ensures var id := PatientId(count);
      && id[..3] == "USR"
      && |id| == 3 + (if |NatToString(count + 1)| >= 3 then |NatToString(count + 1)| else 3)
      && AllDigits(id[3..])
      && DigitsValue(id[3..]) == count + 1
  {
    var digits := NatToString(count + 1);
    var padded := PadStart(digits, 3, '0');
    var id := PatientId(count);
    assert id[..3] == "USR" && id[3..] == padded;
    var z := padded[..|padded| - |digits|];
    assert padded == z + digits;
    LeadingZerosIgnored(z, digits);
    DigitsValueOfNatToString(count + 1);
  }

  /** Lists of different lengths give different ids. */
  lemma PatientIdInjective(m: nat, n: nat)
    requires PatientId(m) == PatientId(n)
    ensures m == n
  {
    PatientIdFormat(m);
    PatientIdFormat(n);
  }

  /** The id depends only on the list's length, not on the ids already in it:
      a table that starts with one patient whose id is "USR002" (as a
      risk-filtered tab can) gives the next patient that same id. */
  lemma IdIgnoresExistingIds(p: Patient)
    requires p.id == "USR002"
    ensures PatientId(|[p]|) == p.id
  {
    assert NatToString(2) == "2";
    assert PadStart("2", 3, '0') == "002";
  }

  /** The avatar slot given to a patient added to a list of `count` patients. */
  function AvatarId(count: nat): (a: string)
    ensures |a| == 8 && a[..7] == "avatar-"
    ensures '1' <= a[7] <= '6' && a[7] as int - '0' as int == count % 6 + 1
  {
    "avatar-" + NatToString(count % 6 + 1)
  }

  /** The record `handleAddPatient` builds from the submitted values. */
  function CreatePatient(np: NewPatient, count: nat): (p: Patient)
    ensures p.id == PatientId(count) && p.avatar == AvatarId(count)
  {
    Patient(PatientId(count), np.name, np.age, np.gender, np.sugarLevel,
            np.bpSystolic, np.bpDiastolic, np.bmi, np.riskLevel, AvatarId(count))
  }

  /** The submitted values without the two generated fields. */
  function SubmittedValues(p: Patient): NewPatient {
    NewPatient(p.name, p.age, p.gender, p.sugarLevel, p.bpSystolic, p.bpDiastolic, p.bmi, p.riskLevel)
  }

  /** Every submitted field comes through unchanged. */
  lemma CreatePatientKeepsValues(np: NewPatient, count: nat)
    ensures SubmittedValues(CreatePatient(np, count)) == np
  {
  }

  /** The table's `patients` and `open` state. */
  class Table {
    var patients: seq<Patient>
    var open: bool

    constructor (initialPatients: seq<Patient>)
      ensures patients == initialPatients && !open
    {
      patients := initialPatients;
      open := false;
    }

    /** `onOpenChange={setOpen}`: the dialog is opened or closed. */
    method SetOpen(value: bool)
      modifies this
      ensures open == value && patients == old(patients)
    {
      open := value;
    }

    /** `handleAddPatient`: the new record goes first, the old list follows
        unchanged, and the dialog closes. */
    method HandleAddPatient(np: NewPatient)
      modifies this
      ensures patients == [CreatePatient(np, |old(patients)|)] + old(patients)
      ensures |patients| == |old(patients)| + 1 && patients[1..] == old(patients)
      ensures SubmittedValues(patients[0]) == np
      ensures !open
    {
      var created := CreatePatient(np, |patients|);
      patients := [created] + patients;
      open := false;
    }
  }
}
