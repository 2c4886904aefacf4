/**
 * The project's package graph (sqlx-cli/src/metadata.rs): packages indexed by id, the
 * workspace members, and the dependency edges reversed so that `reverseDeps[d]` holds the
 * packages that depend on `d`. `cargo metadata` output reaches this module already parsed
 * (the JSON parser is a parameter); ids are naturals standing for cargo's ordered package ids.
 */
module PackageMetadata {
  import opened Wrappers
  import opened Reachability

  type PackageId = Id

  /** The minimal package information kept: its name (for `cargo clean -p`) and one source path per target (to touch). */
  datatype Package = Package(name: string, srcPaths: seq<Path>)

  // The parts of the `cargo metadata` document that are read.
  datatype Target = Target(srcPath: Path)
  datatype MetadataPackage = MetadataPackage(id: PackageId, name: string, targets: seq<Target>)
  datatype NodeDep = NodeDep(pkg: PackageId)
  datatype Node = Node(id: PackageId, deps: seq<NodeDep>)
  datatype Resolve = Resolve(nodes: seq<Node>)
  datatype CargoMetadata = CargoMetadata(
    packages: seq<MetadataPackage>,
    workspaceMembers: seq<PackageId>,
    workspaceRoot: Path,
    resolve: Option<Resolve>,
    targetDirectory: Path)

  /** Metadata for the current project. */
  datatype Metadata = Metadata(
    packages: map<PackageId, Package>,
    workspaceMembers: seq<PackageId>,
    workspaceRoot: Path,
    reverseDeps: Graph,
    targetDirectory: Path)

  datatype MetadataError =
    | ParseFailed     // "failed to parse cargo metadata"
    | ResolveMissing  // "Resolving the dependency graph failed (old version of cargo)"

  /** `Package::from`: the name, and each target's source path in target order. */
  function PackageFrom(p: MetadataPackage): (r: Package)
    ensures r.name == p.name
    ensures |r.srcPaths| == |p.targets|
    ensures forall i :: 0 <= i < |p.targets| ==> r.srcPaths[i] == p.targets[i].srcPath
  {
    Package(p.name, seq(|p.targets|, i requires 0 <= i < |p.targets| => p.targets[i].srcPath))
  }

  /** `Metadata::package`: the package recorded under `id`, if any. */
  function PackageOf(m: Metadata, id: PackageId): (r: Option<Package>)
    ensures r.Some? <==> id in m.packages
    ensures r.Some? ==> r.value == m.packages[id]
  {
    if id in m.packages then Some(m.packages[id]) else None
  }

  // ---------------------------------------------------------------------------------
  // Specification of what `from_str` builds

  /** The `packages` map after inserting every package of `pkgs`, in list order. */
  function IndexPackages(pkgs: seq<MetadataPackage>): map<PackageId, Package>
  {
    if pkgs == [] then map[]
    else
      var last := pkgs[|pkgs| - 1];
      IndexPackages(pkgs[..|pkgs| - 1])[last.id := PackageFrom(last)]
  }

  /** `reverse_deps.entry(dependency).or_default().insert(dependent)`. */
  function AddDependent(rd: Graph, dependency: PackageId, dependent: PackageId): Graph
  {
    rd[dependency := (if dependency in rd then rd[dependency] else {}) + {dependent}]
  }

  /** Records `dependent` as a dependent of every dependency in `deps`, in order. */
  function AddNode(rd: Graph, dependent: PackageId, deps: seq<NodeDep>): Graph
  {
    if deps == [] then rd
    else AddDependent(AddNode(rd, dependent, deps[..|deps| - 1]), deps[|deps| - 1].pkg, dependent)
  }

  /** The `reverse_deps` map after processing every resolve node, in order. */
  function ReverseDepsOf(nodes: seq<Node>): Graph
  {
    if nodes == [] then map[]
    else
      var last := nodes[|nodes| - 1];
      AddNode(ReverseDepsOf(nodes[..|nodes| - 1]), last.id, last.deps)
  }

  /** Some resolve node lists `d` as a dependency. */
  ghost predicate IsDependency(nodes: seq<Node>, d: PackageId)
  {
    exists i, j :: 0 <= i < |nodes| && 0 <= j < |nodes[i].deps| && nodes[i].deps[j].pkg == d
  }

  /** `deps` names `d`. */
  ghost predicate Lists(deps: seq<NodeDep>, d: PackageId)
  {
    exists j :: 0 <= j < |deps| && deps[j].pkg == d
  }

  /** Resolve node `n` lists `d` as a dependency. */
  ghost predicate DependsOn(nodes: seq<Node>, n: PackageId, d: PackageId)
  {
    exists i, j :: 0 <= i < |nodes| && 0 <= j < |nodes[i].deps| && nodes[i].id == n && nodes[i].deps[j].pkg == d
  }

  /** Some package of `pkgs` has id `id`. */
  ghost predicate HasId(pkgs: seq<MetadataPackage>, id: PackageId)
  {
    exists i :: 0 <= i < |pkgs| && pkgs[i].id == id
  }

  /** No package after position `i` repeats its id. */
  ghost predicate IsLastWithItsId(pkgs: seq<MetadataPackage>, i: int)
  {
    0 <= i < |pkgs| && forall j :: i < j < |pkgs| ==> pkgs[j].id != pkgs[i].id
  }

  /** The keys of the `packages` map are exactly the ids of the listed packages. */
  lemma {:induction false} IndexPackagesKeys(pkgs: seq<MetadataPackage>)
    ensures forall id :: id in IndexPackages(pkgs) <==> HasId(pkgs, id)
  {
    if pkgs != [] {
      var n := |pkgs| - 1;
      var init := pkgs[..n];
      IndexPackagesKeys(init);
      forall id
        ensures HasId(pkgs, id) <==> HasId(init, id) || id == pkgs[n].id
      {
        if HasId(pkgs, id) {
          var i :| 0 <= i < |pkgs| && pkgs[i].id == id;
          if i < n {
            assert init[i].id == id;
          }
        }
        if HasId(init, id) {
          var i :| 0 <= i < |init| && init[i].id == id;
          assert pkgs[i].id == id;
        }
      }
    }
  }

  /** A repeated id keeps the package inserted last. */
  lemma {:induction false} IndexPackagesKeepsLast(pkgs: seq<MetadataPackage>)
    ensures forall i :: IsLastWithItsId(pkgs, i) ==>
              pkgs[i].id in IndexPackages(pkgs) && IndexPackages(pkgs)[pkgs[i].id] == PackageFrom(pkgs[i])
  {
    if pkgs != [] {
      var n := |pkgs| - 1;
      var init := pkgs[..n];
      IndexPackagesKeepsLast(init);
      forall i | IsLastWithItsId(pkgs, i) && i < n
        ensures IsLastWithItsId(init, i)
      {
        forall j | i < j < |init|
          ensures init[j].id != init[i].id
        {
          assert init[j] == pkgs[j];
        }
      }
    }
  }

  lemma {:induction false} AddNodeSpec(rd: Graph, n: PackageId, deps: seq<NodeDep>)
    ensures forall d :: d in AddNode(rd, n, deps) <==> d in rd || Lists(deps, d)
    ensures forall d, x :: d in AddNode(rd, n, deps) && x in AddNode(rd, n, deps)[d] <==>
              (d in rd && x in rd[d]) || (x == n && Lists(deps, d))
  {
    if deps != [] {
      var k := |deps| - 1;
      var init := deps[..k];
      AddNodeSpec(rd, n, init);
      forall d | Lists(deps, d)
        ensures Lists(init, d) || d == deps[k].pkg
      {
        var j :| 0 <= j < |deps| && deps[j].pkg == d;
        if j < k {
          assert init[j].pkg == d;
        }
      }
      forall d | Lists(init, d)
        ensures Lists(deps, d)
      {
        var j :| 0 <= j < |init| && init[j].pkg == d;
        assert deps[j].pkg == d;
      }
    }
  }

  /**
   * `reverse_deps[d]` contains `n` exactly when resolve node `n` lists `d` among its
   * deps, and a key exists only for packages that some node depends on.
   */
  lemma {:induction false} ReverseDepsOfSpec(nodes: seq<Node>)
    ensures forall d :: d in ReverseDepsOf(nodes) <==> IsDependency(nodes, d)
    ensures forall d, n :: d in ReverseDepsOf(nodes) && n in ReverseDepsOf(nodes)[d] <==> DependsOn(nodes, n, d)
  {
    if nodes != [] {
      var k := |nodes| - 1;
      var init := nodes[..k];
      var last := nodes[k];
      ReverseDepsOfSpec(init);
      AddNodeSpec(ReverseDepsOf(init), last.id, last.deps);
      forall d
        ensures IsDependency(nodes, d) <==>
                IsDependency(init, d) || Lists(last.deps, d)
      {
        if IsDependency(nodes, d) {
          var i, j :| 0 <= i < |nodes| && 0 <= j < |nodes[i].deps| && nodes[i].deps[j].pkg == d;
          if i < k {
            assert init[i].deps[j].pkg == d;
          }
        }
        if IsDependency(init, d) {
          var i, j :| 0 <= i < |init| && 0 <= j < |init[i].deps| && init[i].deps[j].pkg == d;
          assert nodes[i].deps[j].pkg == d;
        }
      }
      forall d, n
        ensures DependsOn(nodes, n, d) <==>
                DependsOn(init, n, d) || (n == last.id && Lists(last.deps, d))
      {
        if DependsOn(nodes, n, d) {
          var i, j :| 0 <= i < |nodes| && 0 <= j < |nodes[i].deps| && nodes[i].id == n && nodes[i].deps[j].pkg == d;
          if i < k {
            assert init[i].id == n && init[i].deps[j].pkg == d;
          }
        }
        if DependsOn(init, n, d) {
          var i, j :| 0 <= i < |init| && 0 <= j < |init[i].deps| && init[i].id == n && init[i].deps[j].pkg == d;
          assert nodes[i].id == n && nodes[i].deps[j].pkg == d;
        }
      }
    }
  }

  // ---------------------------------------------------------------------------------
  // Operations

  /**
   * `Metadata::from_str`: parse the document, index the packages by id, reverse the
   * resolved dependency edges; a document without a `resolve` section is an error.
   */
  method FromStr(s: string, parse: string -> Option<CargoMetadata>) returns (r: Result<Metadata, MetadataError>)
    ensures parse(s).None? ==> r == Err(ParseFailed)
    ensures parse(s).Some? && parse(s).value.resolve.None? ==> r == Err(ResolveMissing)
    ensures parse(s).Some? && parse(s).value.resolve.Some? ==>
              var cm := parse(s).value;
              r == Ok(Metadata(IndexPackages(cm.packages), cm.workspaceMembers, cm.workspaceRoot,
                               ReverseDepsOf(cm.resolve.value.nodes), cm.targetDirectory))
    ensures r.Ok? ==>
              var cm := parse(s).value;
              && (forall id :: id in r.value.packages <==> HasId(cm.packages, id))
              && (forall i :: IsLastWithItsId(cm.packages, i) ==>
                                r.value.packages[cm.packages[i].id] == PackageFrom(cm.packages[i]))
              && (forall d :: d in r.value.reverseDeps <==> IsDependency(cm.resolve.value.nodes, d))
              && (forall d, n :: d in r.value.reverseDeps && n in r.value.reverseDeps[d] <==>
                                 DependsOn(cm.resolve.value.nodes, n, d))
  {
    var parsed := parse(s);
    if parsed.None? {
      return Err(ParseFailed);
    }
    var cm := parsed.value;

    var packages: map<PackageId, Package> := map[];
    for i := 0 to |cm.packages|
      invariant packages == IndexPackages(cm.packages[..i])
    {
      var metadataPackage := cm.packages[i];
      packages := packages[metadataPackage.id := PackageFrom(metadataPackage)];
      assert cm.packages[..i + 1][..i] == cm.packages[..i];
    }
    assert cm.packages[..|cm.packages|] == cm.packages;

    var reverseDeps: Graph := map[];
    if cm.resolve.None? {
      return Err(ResolveMissing);
    }
    var nodes := cm.resolve.value.nodes;
    for i := 0 to |nodes|
      invariant reverseDeps == ReverseDepsOf(nodes[..i])
    {
      var node := nodes[i];
      for j := 0 to |node.deps|
        invariant reverseDeps == AddNode(ReverseDepsOf(nodes[..i]), node.id, node.deps[..j])
      {
        var dependent := node.id;
        var dependency := node.deps[j].pkg;
        var existing := if dependency in reverseDeps then reverseDeps[dependency] else {};
        reverseDeps := reverseDeps[dependency := existing + {dependent}];
        assert node.deps[..j + 1][..j] == node.deps[..j];
      }
      assert node.deps[..|node.deps|] == node.deps;
      assert nodes[..i + 1][..i] == nodes[..i];
    }
    assert nodes[..|nodes|] == nodes;

    IndexPackagesKeys(cm.packages);
    IndexPackagesKeepsLast(cm.packages);
    ReverseDepsOfSpec(nodes);
    r := Ok(Metadata(packages, cm.workspaceMembers, cm.workspaceRoot, reverseDeps, cm.targetDirectory));
  }

  /**
   * `all_dependents_of_helper`: adds to `dependents` everything reachable from `id`,
   * recursing into a dependent only when inserting it reports it new, so the traversal
   * terminates even on a cyclic graph.
   */
  method AllDependentsOfHelper(m: Metadata, id: PackageId, dependents: set<PackageId>) returns (result: set<PackageId>)
    requires dependents <= Targets(m.reverseDeps)
    ensures dependents <= result <= Targets(m.reverseDeps)
    ensures Succ(m.reverseDeps, id) <= result
    ensures forall y :: y in result - dependents ==> Succ(m.reverseDeps, y) <= result
    ensures forall y :: y in result - dependents ==> Reachable(m.reverseDeps, id, y)
    decreases Targets(m.reverseDeps) - dependents
  {
    var g := m.reverseDeps;
    result := dependents;
    if id in g {
      var immediateDependents := g[id];
      var todo := immediateDependents;
      while todo != {}
        invariant todo <= immediateDependents
        invariant dependents <= result <= Targets(g)
        invariant immediateDependents - todo <= result
        invariant forall y :: y in result - dependents ==> Succ(g, y) <= result
        invariant forall y :: y in result - dependents ==> Reachable(g, id, y)
        decreases todo
      {
        var immediateDependent :| immediateDependent in todo;
        if immediateDependent !in result {
          assert immediateDependent in Targets(g);
          EdgeReachable(g, id, immediateDependent);
          var before := result + {immediateDependent};
          result := AllDependentsOfHelper(m, immediateDependent, before);
          forall y | y in result - dependents
            ensures Reachable(g, id, y)
          {
            if y in result - before {
              ReachableTrans(g, id, immediateDependent, y);
            }
          }
        }
        todo := todo - {immediateDependent};
      }
    }
  }

  /** `all_dependents_of`: every package reachable from `id` by one or more reversed edges. */
  method AllDependentsOf(m: Metadata, id: PackageId) returns (dependents: set<PackageId>)
    ensures forall y :: y in dependents <==> Reachable(m.reverseDeps, id, y)
    ensures dependents == Dependents(m.reverseDeps, id)
  {
    dependents := AllDependentsOfHelper(m, id, {});
    forall y | Reachable(m.reverseDeps, id, y)
      ensures y in dependents
    {
      ClosedContainsReachable(m.reverseDeps, id, dependents, y);
    }
    DependentsSpec(m.reverseDeps, id);
  }
}
