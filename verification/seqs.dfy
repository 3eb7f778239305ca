/**
  * Two query shapes the application uses on several tables: keeping the
  * rows that satisfy a condition, in order, and taking the first row of an
  * `order_by("-created")`.
  */
module Seqs {
  import opened Wrappers

  /** The elements of `xs` satisfying `p`, in their order. */
  function Filter<T(==)>(xs: seq<T>, p: T -> bool): (r: seq<T>)
    ensures |r| <= |xs|
    ensures forall i :: 0 <= i < |r| ==> r[i] in xs && p(r[i])
    ensures forall i :: 0 <= i < |xs| && p(xs[i]) ==> xs[i] in r
  {
    if xs == [] then []
    else (if p(xs[0]) then [xs[0]] else []) + Filter(xs[1..], p)
  }

  lemma {:induction false} FilterAppend<T>(a: seq<T>, b: seq<T>, p: T -> bool)
    ensures Filter(a + b, p) == Filter(a, p) + Filter(b, p)
  {
    if a == [] {
      assert a + b == b;
    } else {
      assert (a + b)[1..] == a[1..] + b;
      FilterAppend(a[1..], b, p);
    }
  }

  /**
    * The first element of `xs` after a stable sort by `created`, newest
    * first: an element with the greatest `created`, the earliest such in
    * `xs`; `None` when `xs` is empty.
    */
  function Newest<T(==)>(xs: seq<T>, created: T -> int): (r: Option<T>)
    ensures r.None? <==> xs == []
    ensures r.Some? ==> forall j :: 0 <= j < |xs| ==> created(xs[j]) <= created(r.value)
    ensures r.Some? ==> exists i :: 0 <= i < |xs| && xs[i] == r.value &&
                                    forall j :: 0 <= j < i ==> created(xs[j]) < created(r.value)
  {
    if xs == [] then None
    else match Newest(xs[1..], created)
      case None => Some(xs[0])
      case Some(c) =>
        if created(c) > created(xs[0]) then
          var i :| 0 <= i < |xs[1..]| && xs[1..][i] == c &&
                   forall j :: 0 <= j < i ==> created(xs[1..][j]) < created(c);
          assert xs[i + 1] == c;
          Some(c)
        else Some(xs[0])
  }

  /** The element `Newest` picks is unique: any element with the two properties is it. */
  lemma NewestUnique<T>(xs: seq<T>, created: T -> int, i: nat)
    requires i < |xs|
    requires forall j :: 0 <= j < |xs| ==> created(xs[j]) <= created(xs[i])
    requires forall j :: 0 <= j < i ==> created(xs[j]) < created(xs[i])
    ensures Newest(xs, created) == Some(xs[i])
  {
    var r := Newest(xs, created);
    var k :| 0 <= k < |xs| && xs[k] == r.value && forall j :: 0 <= j < k ==> created(xs[j]) < created(r.value);
    assert created(xs[k]) <= created(xs[i]) && created(xs[i]) <= created(xs[k]);
    assert k == i;
  }

  // ---------------------------------------------------------------------
  // `objects.get(...)`: exactly one matching row
  // ---------------------------------------------------------------------

  /** The positions at or after `from` whose elements satisfy `p`, ascending. */
  function MatchingFrom<T>(xs: seq<T>, p: T -> bool, from: nat): (r: seq<nat>)
    requires from <= |xs|
    ensures forall k :: 0 <= k < |r| ==> from <= r[k] < |xs| && p(xs[r[k]])
    ensures forall j :: from <= j < |xs| && p(xs[j]) ==> j in r
    ensures forall a, b :: 0 <= a < b < |r| ==> r[a] < r[b]
    decreases |xs| - from
  {
    if from == |xs| then []
    else (if p(xs[from]) then [from] else []) + MatchingFrom(xs, p, from + 1)
  }

  /**
    * A `get` over `xs`: the position of the only element satisfying `p`;
    * `None` when no element does or when several do (the two exceptions
    * `get` raises).
    */
  function SoleMatch<T>(xs: seq<T>, p: T -> bool): (r: Option<nat>)
    ensures r.Some? ==> r.value < |xs| && p(xs[r.value])
    ensures r.Some? ==> forall j :: 0 <= j < |xs| && j != r.value ==> !p(xs[j])
    ensures r.None? ==>
      || (forall j :: 0 <= j < |xs| ==> !p(xs[j]))
      || (exists a, b :: 0 <= a < b < |xs| && p(xs[a]) && p(xs[b]))
  {
    var m := MatchingFrom(xs, p, 0);
    if |m| == 1 then
      assert m == [m[0]];
      assert forall j :: 0 <= j < |xs| && p(xs[j]) ==> j == m[0] by {
        forall j | 0 <= j < |xs| && p(xs[j]) ensures j == m[0] {
          assert j in m;
        }
      }
      Some(m[0])
    else if |m| == 0 then
      assert forall j :: 0 <= j < |xs| ==> !p(xs[j]) by {
        forall j | 0 <= j < |xs| ensures !p(xs[j]) {
          assert j !in m;
        }
      }
      None
    else
      assert 0 <= m[0] < m[1] < |xs| && p(xs[m[0]]) && p(xs[m[1]]);
      None
  }

  /** Changing an element without changing whether it satisfies `p` leaves the matches where they were. */
  lemma {:induction false} MatchingAfterUpdate<T>(xs: seq<T>, p: T -> bool, from: nat, i: nat, x: T)
    requires from <= |xs| && i < |xs| && p(x) == p(xs[i])
    ensures MatchingFrom(xs[i := x], p, from) == MatchingFrom(xs, p, from)
    decreases |xs| - from
  {
    if from < |xs| {
      var ys := xs[i := x];
      assert p(ys[from]) == p(xs[from]);
      MatchingAfterUpdate(xs, p, from + 1, i, x);
      assert MatchingFrom(ys, p, from) == (if p(ys[from]) then [from] else []) + MatchingFrom(ys, p, from + 1);
    }
  }

  lemma SoleMatchAfterUpdate<T>(xs: seq<T>, p: T -> bool, i: nat, x: T)
    requires i < |xs| && p(x) == p(xs[i])
    ensures SoleMatch(xs[i := x], p) == SoleMatch(xs, p)
  {
    MatchingAfterUpdate(xs, p, 0, i, x);
  }
}
