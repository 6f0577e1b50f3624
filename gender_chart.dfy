/** The gender chart (src/app/components/gender-chart.tsx): patients counted by
    gender, leaving out the genders nobody has. */
module GenderChart {
  import opened Util
  import opened Types

  datatype Slice = Slice(gender: string, count: nat)

  /** The test `p.gender === g`, as a value that can be handed to `Filter`. */
  function HasGender(g: Gender): Patient -> bool {
    (p: Patient) => p.gender == g
  }

  /** The sum of the counts of a list of slices (the age chart's slices are a
      different record, so it has its own `Total`). */
  function Total(slices: seq<Slice>): nat {
    if slices == [] then 0 else slices[0].count + Total(slices[1..])
  }

  /** The three slices before zero counts are dropped. */
  function AllSlices(ps: seq<Patient>): seq<Slice> {
    [Slice("Male", |Filter(HasGender(Male), ps)|),
     Slice("Female", |Filter(HasGender(Female), ps)|),
     Slice("Other", |Filter(HasGender(Other), ps)|)]
  }

  predicate HasPatients(s: Slice) { s.count > 0 }

  /** `genderData`: the slices with a positive count, in the order Male,
      Female, Other; together they count every patient once. */
  function GenderData(ps: seq<Patient>): (slices: seq<Slice>)
    ensures forall s :: s in slices ==> s.count > 0
    ensures IsSubsequence(slices, AllSlices(ps))
    ensures Total(slices) == |ps|
  {
    var all := AllSlices(ps);
    DroppingEmptySlicesKeepsTotal(all);
    FilterPartition3(HasGender(Male), HasGender(Female), HasGender(Other), ps);
    assert Total(all[3..]) == 0;
    assert Total(all[2..]) == all[2].count;
    assert Total(all[1..]) == all[1].count + all[2].count;
    Filter(HasPatients, all)
  }

  lemma {:induction false} DroppingEmptySlicesKeepsTotal(slices: seq<Slice>)
    ensures Total(Filter(HasPatients, slices)) == Total(slices)
  {
    if slices != [] {
      DroppingEmptySlicesKeepsTotal(slices[1..]);
      var rest := Filter(HasPatients, slices[1..]);
      if HasPatients(slices[0]) {
        assert Filter(HasPatients, slices) == [slices[0]] + rest;
        assert ([slices[0]] + rest)[1..] == rest;
      }
    }
  }

  /** Where gender `g` sits among the three slices. */
  function GenderIndex(g: Gender): (i: nat)
    ensures i < 3
  {
    match g
    case Male => 0
    case Female => 1
    case Other => 2
  }

  /** A gender has a slice exactly when some patient has that gender. */
  lemma SliceIffPresent(ps: seq<Patient>, g: Gender)
    ensures (exists s :: s in GenderData(ps) && s.gender == GenderName(g)) <==> exists p :: p in ps && p.gender == g
  {
    var all := AllSlices(ps);
    var i := GenderIndex(g);
    assert all[i] == Slice(GenderName(g), |Filter(HasGender(g), ps)|);
    FilterNonEmptyIff(HasGender(g), ps);
    SliceKeptIff(all, i);
  }

  /** With distinct labels, the slice labelled like slice `i` survives the
      zero filter exactly when slice `i` has a positive count. */
  lemma SliceKeptIff(all: seq<Slice>, i: nat)
    requires i < |all|
    requires forall j, k :: 0 <= j < k < |all| ==> all[j].gender != all[k].gender
    ensures (exists s :: s in Filter(HasPatients, all) && s.gender == all[i].gender) <==> all[i].count > 0
  {
    var kept := Filter(HasPatients, all);
    if all[i].count > 0 {
      assert all[i] in kept;
    }
    if exists s :: s in kept && s.gender == all[i].gender {
      var s :| s in kept && s.gender == all[i].gender;
      var j :| 0 <= j < |all| && all[j] == s;
      assert j == i;
    }
  }
}
