/**
  * Age-group classification of characters and book templates: the
  * `AgeGroup` integer choices, their age ranges and the classification of
  * an age into a group.
  */
module AgeGroups {
  import opened Wrappers

  datatype AgeGroup =
    | Baby | Toddler | Child | PreTeen | YoungTeen | MidTeen | LateTeen | Adult | Senior
  {
    /** The stored integer value of the choice. */
    function Value(): (v: int)
      ensures 1 <= v <= 9
    {
      match this
      case Baby => 1
      case Toddler => 2
      case Child => 3
      case PreTeen => 4
      case YoungTeen => 5
      case MidTeen => 6
      case LateTeen => 7
      case Adult => 8
      case Senior => 9
    }
  }

  /** Classification of an age in years; ages outside 0..150 are still classified. */
  function FromAge(age: int): (g: AgeGroup)
    ensures age <= 3 <==> g == Baby
    ensures age >= 65 <==> g == Senior
    ensures 1 <= g.Value() <= 9
  {
    if age <= 3 then Baby
    else if 4 <= age <= 6 then Toddler
    else if 7 <= age <= 8 then Child
    else if 9 <= age <= 12 then PreTeen
    else if 13 <= age <= 15 then YoungTeen
    else if 16 <= age <= 17 then MidTeen
    else if 18 <= age <= 19 then LateTeen
    else if 20 <= age <= 64 then Adult
    else Senior
  }

  /** The group whose stored value is `v`, if any. */
  function OfValue(v: int): (g: Option<AgeGroup>)
    ensures g.Some? <==> 1 <= v <= 9
    ensures g.Some? ==> g.value.Value() == v
  {
    if v == 1 then Some(Baby)
    else if v == 2 then Some(Toddler)
    else if v == 3 then Some(Child)
    else if v == 4 then Some(PreTeen)
    else if v == 5 then Some(YoungTeen)
    else if v == 6 then Some(MidTeen)
    else if v == 7 then Some(LateTeen)
    else if v == 8 then Some(Adult)
    else if v == 9 then Some(Senior)
    else None
  }

  /** The (min, max) age range of the group with value `v`; (0, 150) for any other value. */
  function AgeRange(v: int): (r: (int, int))
    ensures OfValue(v).None? ==> r == (0, 150)
    ensures 0 <= r.0 <= r.1 <= 150
  {
    match OfValue(v)
    case None => (0, 150)
    case Some(g) =>
      match g
      case Baby => (0, 3)
      case Toddler => (4, 6)
      case Child => (7, 8)
      case PreTeen => (9, 12)
      case YoungTeen => (13, 15)
      case MidTeen => (16, 17)
      case LateTeen => (18, 19)
      case Adult => (20, 64)
      case Senior => (65, 150)
  }

  /** Classification agrees with the ranges: every age in 0..150 lies in its group's range. */
  lemma FromAgeWithinRange(age: int)
    requires 0 <= age <= 150
    ensures AgeRange(FromAge(age).Value()).0 <= age <= AgeRange(FromAge(age).Value()).1
  {
  }

  /** Older never means a younger group. */
  lemma FromAgeMonotone(a: int, b: int)
    requires a <= b
    ensures FromAge(a).Value() <= FromAge(b).Value()
  {
  }

  /** Negative ages and ages above 150 are classified even though no range contains them. */
  lemma OutOfRangeAges(age: int)
    ensures age < 0 ==> FromAge(age) == Baby && !(AgeRange(1).0 <= age)
    ensures age > 150 ==> FromAge(age) == Senior && !(age <= AgeRange(9).1)
  {
  }

  /**
    * The nine ranges start at 0, end at 150, and each starts right after
    * the previous one ends: they tile 0..150 in enum order without overlap.
    */
  lemma RangesTile()
    ensures AgeRange(1).0 == 0 && AgeRange(9).1 == 150
    ensures forall v :: 1 <= v < 9 ==> AgeRange(v + 1).0 == AgeRange(v).1 + 1
    ensures forall v :: 1 <= v <= 9 ==> AgeRange(v).0 <= AgeRange(v).1
  {
  }

  /** Ranges tile, so an age in 0..150 belongs to exactly one range: the one `FromAge` picks. */
  lemma RangeMembershipUnique(age: int, v: int)
    requires 1 <= v <= 9
    requires AgeRange(v).0 <= age <= AgeRange(v).1
    ensures FromAge(age).Value() == v
  {
  }
}
