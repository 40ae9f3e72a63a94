/**
 The description of an N-body setting and its consistency check: the number
 of masses and of initial positions must both equal the declared number of
 bodies. The mass count is checked first, so a setting wrong in both reports
 the mass error.
 */
module NBodies {
  import opened Results

  datatype NBody = NBody(settingName: string, numberOfBodies: nat, mass: seq<real>, position: seq<seq<real>>)

  const MassMismatch: string := "mass.len() != number_of_bodies"
  const PositionMismatch: string := "position.len() != number_of_bodies"

  /** Both per-body lists have one entry per declared body. */
  predicate WellFormed(b: NBody)
  {
    |b.mass| == b.numberOfBodies && |b.position| == b.numberOfBodies
  }

  /** The check hands back the setting itself or the first mismatch it finds. */
  function Check(b: NBody): (r: Result<NBody>)
    ensures r.Ok? <==> WellFormed(b)
    ensures r.Ok? ==> r.value == b
    ensures |b.mass| != b.numberOfBodies ==> r == Err(MassMismatch)
    ensures |b.mass| == b.numberOfBodies && |b.position| != b.numberOfBodies ==> r == Err(PositionMismatch)
  {
    if |b.mass| != b.numberOfBodies then Err(MassMismatch)
    else if |b.position| != b.numberOfBodies then Err(PositionMismatch)
    else Ok(b)
  }

  /** The verdict depends only on the three counts, never on names, masses or coordinates. */
  lemma CheckSeesOnlyCounts(a: NBody, b: NBody)
    requires a.numberOfBodies == b.numberOfBodies
    requires |a.mass| == |b.mass| && |a.position| == |b.position|
    ensures Check(a).Ok? == Check(b).Ok?
    ensures Check(a).Err? ==> Check(b) == Check(a)
  {
  }

  /** The two error messages are distinct, so a caller can tell which list is off. */
  lemma MismatchesAreDistinguishable(b: NBody)
    requires !WellFormed(b)
    ensures Check(b).Err?
    ensures Check(b).error == MassMismatch <==> |b.mass| != b.numberOfBodies
  {
    assert MassMismatch[0] != PositionMismatch[0];
  }

}
