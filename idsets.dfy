/**
 * Counting identifiers: a list of distinct identifiers has as many elements
 * as the set of its identifiers, and a subset of a finite set of the same
 * size is the whole set.  These give the bounds on `progress`.
 */
module IdSets {

  /** No identifier occurs twice. */
  predicate Distinct(ids: seq<string>)
  {
    forall i, j :: 0 <= i < j < |ids| ==> ids[i] != ids[j]
  }

  /** The identifiers of a list, as a set. */
  function Elements(ids: seq<string>): (r: set<string>)
    ensures forall x :: x in r <==> x in ids
  {
    set x | x in ids
  }

  /** A list of distinct identifiers has as many elements as its set of identifiers. */
  lemma {:induction false} DistinctCount(ids: seq<string>)
    requires Distinct(ids)
    ensures |Elements(ids)| == |ids|
  {
    if ids != [] {
      var rest := ids[1..];
      assert Distinct(rest) by {
        forall i, j | 0 <= i < j < |rest|
          ensures rest[i] != rest[j]
        {
          assert rest[i] == ids[i + 1] && rest[j] == ids[j + 1];
        }
      }
      DistinctCount(rest);
      assert ids == [ids[0]] + rest;
      assert Elements(ids) == Elements(rest) + {ids[0]};
      assert forall j :: 0 <= j < |rest| ==> rest[j] == ids[j + 1];
      assert ids[0] !in Elements(rest);
    }
  }

  /** A subset is no larger than its superset, and a subset of the same size is the superset itself. */
  lemma SubsetCount(a: set<string>, b: set<string>)
    requires a <= b
    ensures |a| <= |b|
    ensures |a| == |b| ==> a == b
  {
    assert b == a + (b - a);
    assert a * (b - a) == {};
    if |a| == |b| {
      assert |b - a| == 0;
    }
  }
}
