/**
 * Reachability over a reverse-dependency graph: `g[a]` is the set of packages that
 * depend directly on `a`. This is the specification `all_dependents_of` is proved against.
 */
module Reachability {

  type Id = nat

  /** Maps a package to its immediate dependents. */
  type Graph = map<Id, set<Id>>

  /** The immediate dependents of `x`; a package with no entry has none. */
  function Succ(g: Graph, x: Id): set<Id>
  {
    if x in g then g[x] else {}
  }

  /** Every package that occurs as somebody's immediate dependent. */
  function Targets(g: Graph): set<Id>
  {
    set x, y | x in g && y in g[x] :: y
  }

  /** Every consecutive pair of `p` is an edge of `g`. */
  ghost predicate IsPath(g: Graph, p: seq<Id>)
  {
    forall k :: 0 <= k < |p| - 1 ==> p[k + 1] in Succ(g, p[k])
  }

  /** `to` is reached from `from` by following ONE OR MORE edges of `g`. */
  ghost predicate Reachable(g: Graph, from: Id, to: Id)
  {
    exists p :: |p| >= 2 && p[0] == from && p[|p| - 1] == to && IsPath(g, p)
  }

  /** All packages reachable from `id`: its direct and transitive dependents. */
  ghost function Dependents(g: Graph, id: Id): set<Id>
  {
    set y | y in Targets(g) && Reachable(g, id, y)
  }

  lemma EdgeReachable(g: Graph, x: Id, y: Id)
    requires y in Succ(g, x)
    ensures Reachable(g, x, y)
  {
    var p := [x, y];
    assert IsPath(g, p);
  }

  /** Following edges is transitive: paths compose. */
  lemma ReachableTrans(g: Graph, a: Id, b: Id, c: Id)
    requires Reachable(g, a, b) && Reachable(g, b, c)
    ensures Reachable(g, a, c)
  {
    var p :| |p| >= 2 && p[0] == a && p[|p| - 1] == b && IsPath(g, p);
    var q :| |q| >= 2 && q[0] == b && q[|q| - 1] == c && IsPath(g, q);
    var r := p + q[1..];
    forall k | 0 <= k < |r| - 1
      ensures r[k + 1] in Succ(g, r[k])
    {
      if k < |p| - 1 {
        assert r[k] == p[k] && r[k + 1] == p[k + 1];
      } else {
        var j := k - |p| + 1;
        assert r[k] == q[j] && r[k + 1] == q[j + 1];
      }
    }
    assert r[0] == a && r[|r| - 1] == c;
  }

  /** Whatever is reachable is somebody's immediate dependent. */
  lemma ReachableInTargets(g: Graph, a: Id, b: Id)
    requires Reachable(g, a, b)
    ensures b in Targets(g)
  {
    var p :| |p| >= 2 && p[0] == a && p[|p| - 1] == b && IsPath(g, p);
    var k := |p| - 2;
    assert p[k + 1] in Succ(g, p[k]);
  }

  lemma DependentsSpec(g: Graph, id: Id)
    ensures forall y :: y in Dependents(g, id) <==> Reachable(g, id, y)
  {
    forall y | Reachable(g, id, y)
      ensures y in Dependents(g, id)
    {
      ReachableInTargets(g, id, y);
    }
  }

  /**
   * A set holding the immediate dependents of `a` and closed under taking immediate
   * dependents holds everything reachable from `a`.
   */
  lemma ClosedContainsReachable(g: Graph, a: Id, c: set<Id>, b: Id)
    requires Succ(g, a) <= c
    requires forall y :: y in c ==> Succ(g, y) <= c
    requires Reachable(g, a, b)
    ensures b in c
  {
    var p :| |p| >= 2 && p[0] == a && p[|p| - 1] == b && IsPath(g, p);
    var k := 1;
    assert p[1] in Succ(g, p[0]);
    while k < |p| - 1
      invariant 1 <= k <= |p| - 1
      invariant p[k] in c
    {
      assert p[k + 1] in Succ(g, p[k]);
      k := k + 1;
    }
  }

  /** A path of one or more edges starts with an edge out of its origin. */
  lemma FirstStep(g: Graph, a: Id, b: Id)
    requires Reachable(g, a, b)
    ensures exists x :: x in Succ(g, a) && (x == b || Reachable(g, x, b))
  {
    var p :| |p| >= 2 && p[0] == a && p[|p| - 1] == b && IsPath(g, p);
    assert p[1] in Succ(g, p[0]);
    if |p| > 2 {
      var q := p[1..];
      forall k | 0 <= k < |q| - 1
        ensures q[k + 1] in Succ(g, q[k])
      {
        assert q[k] == p[k + 1] && q[k + 1] == p[k + 2];
      }
      assert Reachable(g, p[1], b);
    }
  }

  /** An id with no dependents entry has no dependents at all. */
  lemma {:induction false} NoEntryNoDependents(g: Graph, id: Id)
    requires id !in g
    ensures Dependents(g, id) == {}
  {
    forall y | y in Dependents(g, id)
      ensures false
    {
      FirstStep(g, id, y);
    }
  }

  /** The closure is transitive: a dependent's dependents are dependents too. */
  lemma DependentsTransitive(g: Graph, id: Id, x: Id)
    requires x in Dependents(g, id)
    ensures Dependents(g, x) <= Dependents(g, id)
  {
    forall y | y in Dependents(g, x)
      ensures y in Dependents(g, id)
    {
      ReachableTrans(g, id, x, y);
    }
  }

  /**
   * A package is among its own dependents exactly when it has a self-edge or lies on a
   * cycle through one of its immediate dependents.
   */
  lemma SelfDependentIffCycle(g: Graph, id: Id)
    ensures id in Dependents(g, id) <==>
            (id in Succ(g, id) || exists x :: x in Succ(g, id) && Reachable(g, x, id))
  {
    DependentsSpec(g, id);
    if id in Dependents(g, id) {
      FirstStep(g, id, id);
    }
    if id in Succ(g, id) {
      EdgeReachable(g, id, id);
    } else if x :| x in Succ(g, id) && Reachable(g, x, id) {
      EdgeReachable(g, id, x);
      ReachableTrans(g, id, x, id);
    }
  }
}
