/** The age chart (src/app/components/age-chart.tsx): patients counted in four
    age groups. */
module AgeChart {
  import opened Util
  import opened Types

  datatype Slice = Slice(ageGroup: string, count: nat)

  predicate In18To35(p: Patient) { p.age >= 18 && p.age <= 35 }

  predicate In36To50(p: Patient) { p.age >= 36 && p.age <= 50 }

  predicate In51To65(p: Patient) { p.age >= 51 && p.age <= 65 }

  predicate Over65(p: Patient) { p.age > 65 }

  predicate IsAdult(p: Patient) { p.age >= 18 }

  /** The sum of the counts of a list of slices (the gender chart's slices are
      a different record, so it has its own `Total`). */
  function Total(slices: seq<Slice>): nat {
    if slices == [] then 0 else slices[0].count + Total(slices[1..])
  }

  /** `ageData`: four slices in the fixed order 18-35, 36-50, 51-65, 65+, zero
      counts included; together they count every patient aged 18 or more once. */
  function AgeData(ps: seq<Patient>): (slices: seq<Slice>)
    ensures |slices| == 4
    ensures slices[0].ageGroup == "18-35" && slices[1].ageGroup == "36-50"
    ensures slices[2].ageGroup == "51-65" && slices[3].ageGroup == "65+"
    ensures slices[0].count == |Filter(In18To35, ps)| && slices[1].count == |Filter(In36To50, ps)|
    ensures slices[2].count == |Filter(In51To65, ps)| && slices[3].count == |Filter(Over65, ps)|
    ensures Total(slices) == |Filter(IsAdult, ps)| <= |ps|
  {
    var slices := [Slice("18-35", |Filter(In18To35, ps)|),
                   Slice("36-50", |Filter(In36To50, ps)|),
                   Slice("51-65", |Filter(In51To65, ps)|),
                   Slice("65+", |Filter(Over65, ps)|)];
    BucketCountsSumToAdults(ps);
    assert Total(slices[4..]) == 0;
    assert Total(slices[3..]) == slices[3].count;
    assert Total(slices[2..]) == slices[2].count + slices[3].count;
    assert Total(slices[1..]) == slices[1].count + slices[2].count + slices[3].count;
    slices
  }

  /** A patient is in at most one group, in exactly one when aged 18 or more
      (65 itself is in 51-65), and in none when younger. */
  lemma GroupsDisjointAndCoverAdults(p: Patient)
    ensures (if In18To35(p) then 1 else 0) + (if In36To50(p) then 1 else 0)
          + (if In51To65(p) then 1 else 0) + (if Over65(p) then 1 else 0)
          == (if IsAdult(p) then 1 else 0)
  {
  }

  lemma {:induction false} BucketCountsSumToAdults(ps: seq<Patient>)
    ensures |Filter(In18To35, ps)| + |Filter(In36To50, ps)| + |Filter(In51To65, ps)| + |Filter(Over65, ps)|
            == |Filter(IsAdult, ps)|
  {
    if ps != [] {
      BucketCountsSumToAdults(ps[1..]);
      GroupsDisjointAndCoverAdults(ps[0]);
    }
  }
}
