/** Iteration order of an ordered set (a `BTreeSet`): ascending by key. */
module SortedSets {

  predicate Increasing(s: seq<nat>)
  {
    forall i, j :: 0 <= i < j < |s| ==> s[i] < s[j]
  }

  lemma {:induction false} MinExists(s: set<nat>)
    requires s != {}
    ensures exists x :: x in s && forall y :: y in s ==> x <= y
  {
    var x :| x in s;
    if s != {x} {
      MinExists(s - {x});
      var m :| m in s - {x} && forall y :: y in s - {x} ==> m <= y;
      var least := if x < m then x else m;
      forall y | y in s
        ensures least <= y
      {
        if y != x {
          assert y in s - {x};
        }
      }
      assert least in s;
    } else {
      assert forall y :: y in s ==> x <= y;
    }
  }

  /** The least element of a non-empty set. */
  function Min(s: set<nat>): (x: nat)
    requires s != {}
    ensures x in s && forall y :: y in s ==> x <= y
  {
    MinExists(s);
    var x :| x in s && forall y :: y in s ==> x <= y;
    x
  }

  /** The elements of `s` in the order a `BTreeSet` iterates them. */
  function Ascending(s: set<nat>): (r: seq<nat>)
    decreases s
  {
    if s == {} then [] else var x := Min(s); [x] + Ascending(s - {x})
  }

  /** `Ascending(s)` lists each element of `s` exactly once, smallest first. */
  lemma {:induction false} AscendingSpec(s: set<nat>)
    ensures Increasing(Ascending(s))
    ensures forall x :: x in Ascending(s) <==> x in s
    ensures |Ascending(s)| == |s|
    decreases s
  {
    if s != {} {
      var x := Min(s);
      AscendingSpec(s - {x});
      var r := Ascending(s);
      assert r == [x] + Ascending(s - {x});
      forall i, j | 0 <= i < j < |r|
        ensures r[i] < r[j]
      {
        if i > 0 {
          assert r[i] == Ascending(s - {x})[i - 1] && r[j] == Ascending(s - {x})[j - 1];
        } else {
          assert r[j] in Ascending(s - {x});
        }
      }
    }
  }
}
