/**
 * The minimal-recompile planner (sqlx-cli/src/prepare.rs): find every package named
 * `sqlx-macros`, take the union of their dependents, and split it by workspace
 * membership into source files to touch and package names to `cargo clean -p`.
 */
module Prepare {
  import opened Wrappers
  import opened Reachability
  import opened SortedSets
  import opened PackageMetadata

  /** Matched by name only, so vendored or otherwise re-sourced copies count too. */
  const MacrosPackageName: string := "sqlx-macros"

  datatype ProjectRecompileAction = ProjectRecompileAction(cleanPackages: seq<string>, touchPaths: seq<Path>)

  /** The ids of every package named `sqlx-macros`. */
  function MacrosIds(m: Metadata): (ids: set<PackageId>)
    ensures forall id :: id in ids <==> PackageOf(m, id).Some? && PackageOf(m, id).value.name == MacrosPackageName
  {
    set id | id in m.packages && m.packages[id].name == MacrosPackageName
  }

  /** Every package that depends, directly or transitively, on some `sqlx-macros`. */
  ghost function MacrosDependents(m: Metadata): set<PackageId>
  {
    set y | y in Targets(m.reverseDeps) && exists x :: x in MacrosIds(m) && Reachable(m.reverseDeps, x, y)
  }

  /** The ids of `ids` that are workspace members, in order. */
  function InWorkspace(m: Metadata, ids: seq<PackageId>): seq<PackageId>
  {
    if ids == [] then []
    else
      var last := ids[|ids| - 1];
      InWorkspace(m, ids[..|ids| - 1]) + (if last in m.workspaceMembers then [last] else [])
  }

  /** The ids of `ids` that are not workspace members, in order. */
  function OutOfWorkspace(m: Metadata, ids: seq<PackageId>): seq<PackageId>
  {
    if ids == [] then []
    else
      var last := ids[|ids| - 1];
      OutOfWorkspace(m, ids[..|ids| - 1]) + (if last in m.workspaceMembers then [] else [last])
  }

  /** `filter_map(package(id).src_paths).flatten()`: ids without a package entry are skipped. */
  function FilesToTouch(m: Metadata, ids: seq<PackageId>): seq<Path>
  {
    if ids == [] then []
    else
      var last := ids[|ids| - 1];
      FilesToTouch(m, ids[..|ids| - 1]) +
        (match PackageOf(m, last) case Some(p) => p.srcPaths case None => [])
  }

  /** `filter_map(package(id).name)`: ids without a package entry are skipped. */
  function PackagesToClean(m: Metadata, ids: seq<PackageId>): seq<string>
  {
    if ids == [] then []
    else
      var last := ids[|ids| - 1];
      PackagesToClean(m, ids[..|ids| - 1]) +
        (match PackageOf(m, last) case Some(p) => [p.name] case None => [])
  }

  /** The action the planner is to produce, with the dependents visited in ascending id order. */
  ghost function Plan(m: Metadata): ProjectRecompileAction
  {
    var order := Ascending(MacrosDependents(m));
    ProjectRecompileAction(PackagesToClean(m, OutOfWorkspace(m, order)), FilesToTouch(m, InWorkspace(m, order)))
  }

  // ---------------------------------------------------------------------------------
  // Properties of the plan

  /** The dependents of all `sqlx-macros` packages are the union of each one's dependents. */
  lemma MacrosDependentsIsUnion(m: Metadata)
    ensures forall y :: y in MacrosDependents(m) <==>
              exists x :: x in MacrosIds(m) && y in Dependents(m.reverseDeps, x)
  {
    forall y, x | x in MacrosIds(m)
      ensures y in Dependents(m.reverseDeps, x) <==> Reachable(m.reverseDeps, x, y)
    {
      DependentsSpec(m.reverseDeps, x);
    }
    forall y, x | x in MacrosIds(m) && Reachable(m.reverseDeps, x, y)
      ensures y in MacrosDependents(m)
    {
      ReachableInTargets(m.reverseDeps, x, y);
    }
  }

  /** With no package named `sqlx-macros` there is nothing to clean and nothing to touch. */
  lemma {:induction false} PlanWithoutMacros(m: Metadata)
    requires forall id :: id in m.packages ==> m.packages[id].name != MacrosPackageName
    ensures Plan(m) == ProjectRecompileAction([], [])
  {
    assert MacrosIds(m) == {};
    assert MacrosDependents(m) == {};
  }

  /** Every id lands in exactly one of the two lists, decided by workspace membership. */
  lemma {:induction false} WorkspaceSplit(m: Metadata, ids: seq<PackageId>)
    ensures forall x :: x in InWorkspace(m, ids) <==> x in ids && x in m.workspaceMembers
    ensures forall x :: x in OutOfWorkspace(m, ids) <==> x in ids && x !in m.workspaceMembers
    ensures |InWorkspace(m, ids)| + |OutOfWorkspace(m, ids)| == |ids|
  {
    if ids != [] {
      WorkspaceSplit(m, ids[..|ids| - 1]);
      assert ids == ids[..|ids| - 1] + [ids[|ids| - 1]];
    }
  }

  lemma AppendLargerKeepsIncreasing(a: seq<PackageId>, x: PackageId)
    requires Increasing(a)
    requires forall y :: y in a ==> y < x
    ensures Increasing(a + [x])
  {
    var r := a + [x];
    forall i, j | 0 <= i < j < |r|
      ensures r[i] < r[j]
    {
      if j == |a| {
        assert r[i] == a[i] && a[i] in a;
      } else {
        assert r[i] == a[i] && r[j] == a[j];
      }
    }
  }

  /** Both lists keep the (ascending) order of `ids`. */
  lemma {:induction false} WorkspaceSplitKeepsOrder(m: Metadata, ids: seq<PackageId>)
    requires Increasing(ids)
    ensures Increasing(InWorkspace(m, ids)) && Increasing(OutOfWorkspace(m, ids))
  {
    if ids != [] {
      var init := ids[..|ids| - 1];
      var last := ids[|ids| - 1];
      assert Increasing(init);
      WorkspaceSplitKeepsOrder(m, init);
      WorkspaceSplit(m, init);
      forall x | x in init
        ensures x < last
      {
        var i :| 0 <= i < |init| && init[i] == x;
        assert ids[i] == x;
      }
      if last in m.workspaceMembers {
        AppendLargerKeepsIncreasing(InWorkspace(m, init), last);
      } else {
        AppendLargerKeepsIncreasing(OutOfWorkspace(m, init), last);
      }
    }
  }

  /** Touch paths depend on the listed ids piecewise: the list of a concatenation is the concatenation of the lists. */
  lemma {:induction false} FilesToTouchAppend(m: Metadata, a: seq<PackageId>, b: seq<PackageId>)
    ensures FilesToTouch(m, a + b) == FilesToTouch(m, a) + FilesToTouch(m, b)
    decreases |b|
  {
    if b == [] {
      assert a + b == a;
    } else {
      var init := b[..|b| - 1];
      FilesToTouchAppend(m, a, init);
      assert (a + b)[..|a + b| - 1] == a + init;
    }
  }

  /** A path is touched exactly when it belongs to a listed id that has a package entry. */
  lemma {:induction false} FilesToTouchSpec(m: Metadata, ids: seq<PackageId>)
    ensures forall path :: path in FilesToTouch(m, ids) <==>
              exists id :: id in ids && id in m.packages && path in m.packages[id].srcPaths
  {
    if ids != [] {
      var init := ids[..|ids| - 1];
      FilesToTouchSpec(m, init);
      assert ids == init + [ids[|ids| - 1]];
    }
  }

  /** Each cleaned name is the name of a listed id with a package entry, one per such id, in order. */
  lemma {:induction false} PackagesToCleanSpec(m: Metadata, ids: seq<PackageId>)
    ensures forall name :: name in PackagesToClean(m, ids) <==>
              exists id :: id in ids && id in m.packages && m.packages[id].name == name
    ensures |PackagesToClean(m, ids)| <= |ids|
    ensures (forall id :: id in ids ==> id in m.packages) ==> |PackagesToClean(m, ids)| == |ids|
    ensures |PackagesToClean(m, ids)| == |set i | 0 <= i < |ids| && ids[i] in m.packages|
  {
    if ids != [] {
      var init := ids[..|ids| - 1];
      PackagesToCleanSpec(m, init);
      assert ids == init + [ids[|ids| - 1]];
    }
    PackagesToCleanCount(m, ids);
  }

  /** One cleaned name for each position of `ids` whose id has a package entry. */
  lemma {:induction false} PackagesToCleanCount(m: Metadata, ids: seq<PackageId>)
    ensures |PackagesToClean(m, ids)| == |set i | 0 <= i < |ids| && ids[i] in m.packages|
  {
    if ids != [] {
      var n := |ids| - 1;
      var init := ids[..n];
      PackagesToCleanCount(m, init);
      var before := set i | 0 <= i < |init| && init[i] in m.packages;
      var after := set i | 0 <= i < |ids| && ids[i] in m.packages;
      assert forall i :: 0 <= i < n ==> init[i] == ids[i];
      if ids[n] in m.packages {
        assert after == before + {n};
        assert |after| == |before| + 1;
      } else {
        assert after == before;
      }
    }
  }

  /** The plan touches exactly the source paths of the in-workspace `sqlx-macros` dependents that have a package entry. */
  lemma {:induction false} PlanTouchPaths(m: Metadata)
    ensures forall path :: path in Plan(m).touchPaths <==>
              exists id :: id in MacrosDependents(m) && id in m.workspaceMembers && id in m.packages &&
                           path in m.packages[id].srcPaths
  {
    var order := Ascending(MacrosDependents(m));
    AscendingSpec(MacrosDependents(m));
    WorkspaceSplit(m, order);
    FilesToTouchSpec(m, InWorkspace(m, order));
  }

  /** The plan cleans exactly the names of the out-of-workspace `sqlx-macros` dependents that have a package entry. */
  lemma {:induction false} PlanCleanPackages(m: Metadata)
    ensures forall name :: name in Plan(m).cleanPackages <==>
              exists id :: id in MacrosDependents(m) && id !in m.workspaceMembers && id in m.packages &&
                           m.packages[id].name == name
  {
    var order := Ascending(MacrosDependents(m));
    AscendingSpec(MacrosDependents(m));
    WorkspaceSplit(m, order);
    PackagesToCleanSpec(m, OutOfWorkspace(m, order));
  }

  // ---------------------------------------------------------------------------------
  // The planner

  /**
   * `minimal_project_recompile_action`: never an error; the action is the plan, so every
   * dependent of a `sqlx-macros` package is either touched (in the workspace) or cleaned.
   */
  method MinimalProjectRecompileAction(m: Metadata) returns (r: Result<ProjectRecompileAction, string>)
    ensures r == Ok(Plan(m))
  {
    var g := m.reverseDeps;
    var sqlxMacrosDependents: set<PackageId> := {};
    var sqlxMacrosIds := MacrosIds(m);
    var todo := sqlxMacrosIds;
    while todo != {}
      invariant todo <= sqlxMacrosIds
      invariant forall y :: y in sqlxMacrosDependents <==> exists x :: x in sqlxMacrosIds - todo && Reachable(g, x, y)
      decreases todo
    {
      var sqlxMacrosId :| sqlxMacrosId in todo;
      var more := AllDependentsOf(m, sqlxMacrosId);
      sqlxMacrosDependents := sqlxMacrosDependents + more;
      todo := todo - {sqlxMacrosId};
    }
    forall y | y in MacrosDependents(m)
      ensures y in sqlxMacrosDependents
    {
    }
    forall y | y in sqlxMacrosDependents
      ensures y in MacrosDependents(m)
    {
      var x :| x in sqlxMacrosIds && Reachable(g, x, y);
      ReachableInTargets(g, x, y);
    }
    assert sqlxMacrosDependents == MacrosDependents(m);

    // A `BTreeSet` is iterated in ascending order.
    var order := Ascending(sqlxMacrosDependents);
    var inWorkspaceDependents: seq<PackageId> := [];
    var outOfWorkspaceDependents: seq<PackageId> := [];
    for i := 0 to |order|
      invariant inWorkspaceDependents == InWorkspace(m, order[..i])
      invariant outOfWorkspaceDependents == OutOfWorkspace(m, order[..i])
    {
      var dependent := order[i];
      if dependent in m.workspaceMembers {
        inWorkspaceDependents := inWorkspaceDependents + [dependent];
      } else {
        outOfWorkspaceDependents := outOfWorkspaceDependents + [dependent];
      }
      assert order[..i + 1][..i] == order[..i];
    }
    assert order[..|order|] == order;

    var filesToTouch := FilesToTouch(m, inWorkspaceDependents);
    var packagesToClean := PackagesToClean(m, outOfWorkspaceDependents);
    r := Ok(ProjectRecompileAction(packagesToClean, filesToTouch));
  }

  // ---------------------------------------------------------------------------------
  // A stand-in for the regression test's metadata. Only the names `sqlx`,
  // `b_in_workspace_lib`, `c_in_workspace_bin` and `sqlx-macros` and the two touched paths
  // come from the test and the planner; the other packages, the registry paths and the
  // dependency edges (`c` on `b`, `b` on `sqlx`, `sqlx` on `sqlx-macros` and `sqlx-core`,
  // `sqlx-macros` on `sqlx-core`) are assumed, chosen to yield the test's expected action.

  const WorkspaceDir: string := "/home/user/problematic/workspace/"
  const BLibPath: Path := WorkspaceDir + "b_in_workspace_lib/src/lib.rs"
  const CMainPath: Path := WorkspaceDir + "c_in_workspace_bin/src/main.rs"
  const RegistryDir: string := "/home/user/.cargo/registry/src/github.com-1ecc6299db9ec823/"

  function FixtureMetadata(): Metadata
  {
    Metadata(
      map[
        0 := Package("a_in_workspace_lib", [WorkspaceDir + "a_in_workspace_lib/src/lib.rs"]),
        1 := Package("b_in_workspace_lib", [BLibPath]),
        2 := Package("c_in_workspace_bin", [CMainPath]),
        3 := Package("sqlx", [RegistryDir + "sqlx-0.5.5/src/lib.rs"]),
        4 := Package("sqlx-core", [RegistryDir + "sqlx-core-0.5.5/src/lib.rs"]),
        5 := Package("sqlx-macros", [RegistryDir + "sqlx-macros-0.5.5/src/lib.rs"])
      ],
      [0, 1, 2],
      "/home/user/problematic/workspace",
      map[1 := {2}, 3 := {1}, 4 := {3, 5}, 5 := {3}],
      "/home/user/problematic/workspace/target")
  }

  /** Only package 5 of the fixture is named `sqlx-macros`. */
  lemma FixtureMacrosIds()
    ensures MacrosIds(FixtureMetadata()) == {5}
  {
    var m := FixtureMetadata();
    forall id | id in MacrosIds(m)
      ensures id == 5
    {
      assert id in m.packages && m.packages[id].name == MacrosPackageName;
    }
    assert 5 in MacrosIds(m);
  }

  lemma FixtureMacrosDependents()
    ensures MacrosDependents(FixtureMetadata()) == {1, 2, 3}
  {
    var m := FixtureMetadata();
    var g := m.reverseDeps;
    FixtureMacrosIds();
    // Everything in {1, 2, 3} is reachable from 5 ...
    EdgeReachable(g, 5, 3);
    EdgeReachable(g, 3, 1);
    EdgeReachable(g, 1, 2);
    ReachableTrans(g, 5, 3, 1);
    ReachableTrans(g, 5, 1, 2);
    // ... and nothing else, since {1, 2, 3} is closed under taking dependents.
    var closed: set<PackageId> := {1, 2, 3};
    assert Succ(g, 1) == {2} && Succ(g, 2) == {} && Succ(g, 3) == {1} && Succ(g, 5) == {3};
    forall y | Reachable(g, 5, y)
      ensures y in closed
    {
      ClosedContainsReachable(g, 5, closed, y);
    }
  }

  lemma AscendingOneTwoThree()
    ensures Ascending({1, 2, 3}) == [1, 2, 3]
  {
    assert Min({1, 2, 3}) == 1;
    assert {1, 2, 3} - {1} == {2, 3};
    assert Min({2, 3}) == 2;
    assert {2, 3} - {2} == {3};
    assert Min({3}) == 3;
    assert {3} - {3} == {};
  }

  /** The plan for the fixture cleans `sqlx` and touches `b`'s `lib.rs` then `c`'s `main.rs`. */
  lemma FixturePlan()
    ensures Plan(FixtureMetadata()) == ProjectRecompileAction(["sqlx"], [BLibPath, CMainPath])
  {
    var m := FixtureMetadata();
    FixtureMacrosDependents();
    AscendingOneTwoThree();
    FixtureSplit();
    FixtureLists();
  }

  lemma FixtureSplit()
    ensures InWorkspace(FixtureMetadata(), [1, 2, 3]) == [1, 2]
    ensures OutOfWorkspace(FixtureMetadata(), [1, 2, 3]) == [3]
  {
    var m := FixtureMetadata();
    var order: seq<PackageId> := [1, 2, 3];
    assert order[..2] == [1, 2] && order[..2][..1] == [1] && order[..2][..1][..0] == [];
    assert 1 in m.workspaceMembers && 2 in m.workspaceMembers && 3 !in m.workspaceMembers;
    assert InWorkspace(m, [1]) == [1] && OutOfWorkspace(m, [1]) == [];
    assert InWorkspace(m, [1, 2]) == [1, 2] && OutOfWorkspace(m, [1, 2]) == [];
  }

  lemma FixtureLists()
    ensures FilesToTouch(FixtureMetadata(), [1, 2]) == [BLibPath, CMainPath]
    ensures PackagesToClean(FixtureMetadata(), [3]) == ["sqlx"]
  {
    var ids: seq<PackageId> := [1, 2];
    assert ids[..1] == [1] && ids[..1][..0] == [];
    assert [3][..0] == [];
  }

  /** `minimal_project_recompile_action_works`: the planner's output on the fixture. */
  method MinimalProjectRecompileActionWorks() returns (action: Result<ProjectRecompileAction, string>)
    ensures action == Ok(ProjectRecompileAction(["sqlx"], [BLibPath, CMainPath]))
  {
    action := MinimalProjectRecompileAction(FixtureMetadata());
    FixturePlan();
  }
}
