/** `ProjectModel`, `ProjectStructure` (src/project.ts) and `CodeModel` (src/codemodel.ts): the
    tree of project nodes that one introspection snapshot updates in place. The two revisions
    differ only in the target rule. */
module ProjectModels {
  import opened Seqs
  import opened Paths
  import opened MesonTypes
  import opened ProjectRules
  import opened ProjectWalk

  /** The `subprojects` key of a node: undefined, the descriptors `ifCpy` copied from the
      project info, or the models `resolve` replaced them with. */
  datatype Subprojects = Unset | Declared(descriptors: seq<Subproject>) | Resolved(models: seq<ProjectModel>)

  /** What `resolve` computes for a node with a given name and source directory before it turns
      to the subprojects: `ResolveOwn` with the snapshot, the target rule and the symlink
      resolver fixed by the caller. */
  type Resolution = (string, Path) -> Result<Own, string>

  /** What `resolution` gives each declared subproject, whose source directory is
      `ChildDir(parentSource, subprojectDir, name)`. */
  function ChildOutcomes(resolution: Resolution, parentSource: Path, subprojectDir: Path, ds: seq<Subproject>): seq<Result<Own, string>>
  {
    seq(|ds|, i requires 0 <= i < |ds| => resolution(ds[i].name, ChildDir(parentSource, subprojectDir, ds[i].name)))
  }

  /** `if (!this.name) this.name = this.descriptive_name`. */
  function FallbackName(copied: string, descriptive: string): (r: string)
    ensures copied != "" ==> r == copied
    ensures copied == "" ==> r == descriptive
    ensures r == "" <==> copied == "" && descriptive == ""
  {
    if copied != "" then copied else descriptive
  }

  /** `this.subprojects.map(p => { let model = new ProjectModel(); ifCpy(p, model); return model })`:
      one fresh model per descriptor, in order. */
  method NewModels(ds: seq<Subproject>) returns (ms: seq<ProjectModel>)
    ensures |ms| == |ds|
    ensures forall i :: 0 <= i < |ms| ==> fresh(ms[i]) && ms[i].Unresolved() && ms[i].Copied(ds[i])
    ensures forall i, j :: 0 <= i < j < |ms| ==> ms[i] != ms[j]
  {
    ms := [];
    while |ms| < |ds|
      invariant |ms| <= |ds|
      invariant forall i :: 0 <= i < |ms| ==> fresh(ms[i]) && ms[i].Unresolved() && ms[i].Copied(ds[i])
      invariant forall i, j :: 0 <= i < j < |ms| ==> ms[i] != ms[j]
    {
      var c := new ProjectModel.FromSubproject(ds[|ms|]);
      ms := ms + [c];
    }
  }

  class ProjectModel {
    var name: string
    var version: string
    var descriptiveName: string
    var subprojectDir: Path
    var subprojects: Subprojects
    var parent: ProjectModel?
    var targets: Option<seq<Target>>
    var tests: Option<seq<Test>>
    var benchmarks: Option<seq<Test>>
    var sourceDir: Path
    var buildFile: Option<Path>
    var buildDir: Path

    /** The resolved subprojects, if any. */
    ghost function Children(): set<object>
      reads this
    {
      if subprojects.Resolved? then set c | c in subprojects.models else {}
    }

    /** Resolved subprojects are leaves: they are made from descriptors, which carry no
        `subprojects` key, so the tree has at most two levels. */
    ghost predicate Valid()
      reads this, Children()
    {
      subprojects.Resolved? ==>
        forall i :: 0 <= i < |subprojects.models| ==> !subprojects.models[i].subprojects.Resolved?
    }

    /** The keys `resolve` and `subUpdate` fill are still undefined. */
    ghost predicate Unresolved()
      reads this
    {
      subprojects.Unset? && parent == null && buildFile.None? &&
      targets.None? && tests.None? && benchmarks.None?
    }

    /** The node carries the three keys of descriptor `d`. */
    ghost predicate Copied(d: Subproject)
      reads this
    {
      name == d.name && version == d.version && descriptiveName == d.descriptiveName
    }

    /** The node holds what `resolve` computed for it. */
    ghost predicate HoldsOwn(o: Own)
      reads this
    {
      buildFile == Some(o.buildFile) && targets == Some(o.targets) &&
      tests == Some(o.tests) && benchmarks == Some(o.benchmarks)
    }

    /** Child `c`, made from descriptor `d`, after `c.subUpdate(this, meta)`: its directories
        lie in this node's subproject directory, and it holds its own resolution. */
    ghost predicate ChildDone(c: ProjectModel, d: Subproject, resolution: Resolution)
      reads this, c
    {
      && c.parent == this && c.Copied(d) && c.subprojects.Unset?
      && c.sourceDir == ChildDir(sourceDir, subprojectDir, d.name)
      && c.buildDir == ChildDir(buildDir, subprojectDir, d.name)
      && match resolution(d.name, c.sourceDir)
         case Err(_) => c.buildFile.None? && c.targets.None? && c.tests.None? && c.benchmarks.None?
         case Ok(o) => c.HoldsOwn(o)
    }

    /** The declared subprojects `ds` were replaced by one fresh resolved model each, in order. */
    ghost predicate ChildrenDone(ds: seq<Subproject>, resolution: Resolution)
      reads this, Children()
    {
      subprojects.Resolved? && |subprojects.models| == |ds| &&
      forall i :: 0 <= i < |ds| ==> ChildDone(subprojects.models[i], ds[i], resolution)
    }

    /** `new ProjectModel()`: every key undefined. */
    constructor()
      ensures name == "" && version == "" && descriptiveName == ""
      ensures sourceDir == Dot && buildDir == Dot && subprojectDir == Dot
      ensures Unresolved() && Valid()
    {
      name, version, descriptiveName := "", "", "";
      subprojectDir, subprojects, parent := Dot, Unset, null;
      targets, tests, benchmarks := None, None, None;
      sourceDir, buildFile, buildDir := Dot, None, Dot;
    }

    /** `let model = new ProjectModel(); ifCpy(p, model)` for a subproject descriptor `p`: the
        descriptor's three keys, nothing else. */
    constructor FromSubproject(d: Subproject)
      ensures Copied(d)
      ensures sourceDir == Dot && buildDir == Dot && subprojectDir == Dot
      ensures Unresolved() && Valid()
    {
      name, version, descriptiveName := d.name, d.version, d.descriptiveName;
      subprojectDir, subprojects, parent := Dot, Unset, null;
      targets, tests, benchmarks := None, None, None;
      sourceDir, buildFile, buildDir := Dot, None, Dot;
    }

    /** `ifCpy(meta.projectInfos, this)`: every key the project info has overwrites the node's,
        every other key is left as it was. */
    method CopyInfo(info: ProjectInfo)
      modifies this
      ensures name == (if info.name.Some? then info.name.value else old(name))
      ensures version == info.version && descriptiveName == info.descriptiveName
      ensures subprojectDir == info.subprojectDir && subprojects == Declared(info.subprojects)
      ensures parent == old(parent) && sourceDir == old(sourceDir) && buildDir == old(buildDir)
      ensures buildFile == old(buildFile) && targets == old(targets)
      ensures tests == old(tests) && benchmarks == old(benchmarks)
    {
      if info.name.Some? {
        name := info.name.value;
      }
      version := info.version;
      descriptiveName := info.descriptiveName;
      subprojectDir := info.subprojectDir;
      subprojects := Declared(info.subprojects);
    }

    /** `resolve(meta)`: the build file and the node's own lists, then one fresh model per
        declared subproject, each resolved by `subUpdate`. A failed build-file resolution throws
        before any list is assigned; otherwise the result of `Promise.all` is the first failing
        subproject's error, after every subproject has been visited. */
    method Resolve(resolution: Resolution) returns (err: Option<string>)
      requires !subprojects.Resolved?
      modifies this
      decreases if subprojects.Declared? then 1 else 0, 2
      ensures Valid()
      ensures name == old(name) && version == old(version) && descriptiveName == old(descriptiveName)
      ensures subprojectDir == old(subprojectDir) && parent == old(parent)
      ensures sourceDir == old(sourceDir) && buildDir == old(buildDir)
      ensures match resolution(name, sourceDir)
        case Err(e) =>
          && err == Some(e) && buildFile.None? && subprojects == old(subprojects)
          && targets == old(targets) && tests == old(tests) && benchmarks == old(benchmarks)
        case Ok(o) =>
          && HoldsOwn(o)
          && (old(subprojects).Unset? ==> subprojects.Unset? && err.None?)
          && (old(subprojects).Declared? ==>
                var ds := old(subprojects).descriptors;
                && ChildrenDone(ds, resolution)
                && (forall i :: 0 <= i < |ds| ==> fresh(subprojects.models[i]))
                && err == FirstError(ChildOutcomes(resolution, sourceDir, subprojectDir, ds)))
    {
      var own := resolution(name, sourceDir);
      if own.Err? {
        buildFile := None;
        return Some(own.error);
      }
      var o := own.value;
      buildFile, targets, tests, benchmarks := Some(o.buildFile), Some(o.targets), Some(o.tests), Some(o.benchmarks);
      err := None;
      if subprojects.Declared? {
        var ds := subprojects.descriptors;
        err := ResolveSubprojects(ds, resolution);
        assert HoldsOwn(o);
      }
    }

    /** The subproject half of `resolve`: the declared descriptors are replaced by fresh
        models, which are then updated below this node. */
    method ResolveSubprojects(ds: seq<Subproject>, resolution: Resolution) returns (err: Option<string>)
      modifies this
      decreases 1, 1
      ensures Valid() && ChildrenDone(ds, resolution)
      ensures forall i :: 0 <= i < |ds| ==> fresh(subprojects.models[i])
      ensures err == FirstError(ChildOutcomes(resolution, sourceDir, subprojectDir, ds))
      ensures name == old(name) && version == old(version) && descriptiveName == old(descriptiveName)
      ensures subprojectDir == old(subprojectDir) && parent == old(parent)
      ensures sourceDir == old(sourceDir) && buildDir == old(buildDir)
      ensures buildFile == old(buildFile) && targets == old(targets)
      ensures tests == old(tests) && benchmarks == old(benchmarks)
    {
      var ms := NewModels(ds);
      subprojects := Resolved(ms);
      assert forall i :: 0 <= i < |ms| ==> ms[i] != this;
      label children:
      err := SubUpdateAll(ms, ds, resolution);
      assert unchanged@children(this);
    }

    /** `Promise.all(this.subprojects.map(sp => sp.subUpdate(this, meta)))`: every fresh child is
        resolved below this node, in order; the result is the first child's error. */
    method SubUpdateAll(ms: seq<ProjectModel>, ds: seq<Subproject>, resolution: Resolution)
      returns (err: Option<string>)
      requires |ms| == |ds|
      requires forall i :: 0 <= i < |ms| ==> ms[i] != this && ms[i].Unresolved() && ms[i].Copied(ds[i])
      requires forall i, j :: 0 <= i < j < |ms| ==> ms[i] != ms[j]
      modifies set c | c in ms
      decreases 1, 0, 1
      ensures forall i :: 0 <= i < |ms| ==> ChildDone(ms[i], ds[i], resolution)
      ensures err == FirstError(ChildOutcomes(resolution, sourceDir, subprojectDir, ds))
    {
      ghost var outcomes := ChildOutcomes(resolution, sourceDir, subprojectDir, ds);
      err := None;
      var i := 0;
      while i < |ms|
        invariant 0 <= i <= |ms|
        invariant forall j :: 0 <= j < i ==> ChildDone(ms[j], ds[j], resolution)
        invariant forall j :: i <= j < |ms| ==> ms[j].Unresolved() && ms[j].Copied(ds[j])
        invariant err == FirstError(outcomes[..i])
      {
        var e := SubUpdateChild(ms, ds, i, resolution);
        FirstErrorPrefixStep(outcomes, i);
        if err.None? {
          err := e;
        }
        i := i + 1;
      }
      assert outcomes[..|ms|] == outcomes;
    }

    /** One child of `Promise.all`: `ms[i].subUpdate(this, meta)`, which touches that child
        only. Its result is the error of the child's own resolution, if any. */
    method SubUpdateChild(ms: seq<ProjectModel>, ds: seq<Subproject>, i: nat, resolution: Resolution)
      returns (e: Option<string>)
      requires i < |ms| == |ds|
      requires forall j :: 0 <= j < |ms| ==> ms[j] != this
      requires forall j, k :: 0 <= j < k < |ms| ==> ms[j] != ms[k]
      requires ms[i].Unresolved() && ms[i].Copied(ds[i])
      modifies ms[i]
      decreases 1, 0, 0
      ensures ChildDone(ms[i], ds[i], resolution)
      ensures var r := ChildOutcomes(resolution, sourceDir, subprojectDir, ds)[i]; e == if r.Err? then Some(r.error) else None
      ensures forall j :: 0 <= j < |ms| && j != i ==> unchanged(ms[j])
    {
      e := ms[i].SubUpdate(this, resolution);
      forall j | 0 <= j < |ms| && j != i
        ensures unchanged(ms[j])
      {
        assert ms[j] != ms[i];
      }
    }

    /** `subUpdate(parent, meta)`: the node's directories lie in the parent's subproject
        directory, under the node's name; then the node is resolved. */
    method SubUpdate(p: ProjectModel, resolution: Resolution) returns (err: Option<string>)
      requires subprojects.Unset? && p != this
      modifies this
      decreases 0, 3
      ensures parent == p
      ensures sourceDir == ChildDir(p.sourceDir, p.subprojectDir, name)
      ensures buildDir == ChildDir(p.buildDir, p.subprojectDir, name)
      ensures name == old(name) && version == old(version) && descriptiveName == old(descriptiveName)
      ensures subprojectDir == old(subprojectDir) && subprojects.Unset?
      ensures match resolution(name, sourceDir)
        case Err(e) =>
          && err == Some(e) && buildFile.None?
          && targets == old(targets) && tests == old(tests) && benchmarks == old(benchmarks)
        case Ok(o) => err.None? && HoldsOwn(o)
    {
      parent := p;
      sourceDir := ChildDir(p.sourceDir, p.subprojectDir, name);
      buildDir := ChildDir(p.buildDir, p.subprojectDir, name);
      err := Resolve(resolution);
    }

    /** What `update(projectRoot, buildDir, meta)` leaves in the node, with `err` the error
        it reports: the copied project info with the name fallback, the two directories, the
        parent as it was; then, if the node's own resolution fails, the declared subprojects
        and the lists as they were; otherwise the node's lists and one fresh resolved model per
        declared subproject, with the first child error. */
    twostate predicate UpdatedBy(info: ProjectInfo, projectRoot: Path, buildRoot: Path, resolution: Resolution, new err: Option<string>)
      reads this, Children()
    {
      && name == FallbackName(if info.name.Some? then info.name.value else old(name), info.descriptiveName)
      && version == info.version && descriptiveName == info.descriptiveName
      && subprojectDir == info.subprojectDir && parent == old(parent)
      && sourceDir == projectRoot && buildDir == buildRoot
      && match resolution(name, projectRoot)
        case Err(e) =>
          && err == Some(e) && buildFile.None? && subprojects == Declared(info.subprojects)
          && targets == old(targets) && tests == old(tests) && benchmarks == old(benchmarks)
        case Ok(o) =>
          && HoldsOwn(o)
          && ChildrenDone(info.subprojects, resolution)
          && (forall i :: 0 <= i < |info.subprojects| ==> fresh(subprojects.models[i]))
          && err == FirstError(ChildOutcomes(resolution, projectRoot, subprojectDir, info.subprojects))
    }

    /** `update(projectRoot, buildDir, meta)`: copy the project info, fall back to the
        descriptive name for an empty name, take the two directories, resolve. */
    method Update(projectRoot: Path, buildRoot: Path, info: ProjectInfo, resolution: Resolution)
      returns (err: Option<string>)
      modifies this
      ensures Valid()
      ensures UpdatedBy(info, projectRoot, buildRoot, resolution, err)
    {
      CopyInfo(info);
      if name == "" {
        name := descriptiveName;
      }
      sourceDir := projectRoot;
      buildDir := buildRoot;
      err := Resolve(resolution);
    }

    /** The value `walkProject` traverses, read off a node that has no resolved subprojects. */
    function LeafSnapshot(): ProjectTree
      reads this
      requires !subprojects.Resolved?
    {
      ProjectTree(targets, tests, benchmarks,
        if subprojects.Declared? then Descriptors(subprojects.descriptors) else NoKey)
    }

    /** The value `walkProject` traverses, read off the node and its subprojects. */
    function Snapshot(): ProjectTree
      reads this, Children()
      requires Valid()
    {
      ProjectTree(targets, tests, benchmarks,
        match subprojects
        case Unset => NoKey
        case Declared(ds) => Descriptors(ds)
        case Resolved(ms) => Models(ChildSnapshots(0)))
    }

    /** The snapshots of the subprojects from the `k`-th on. */
    function ChildSnapshots(k: nat): (r: seq<ProjectTree>)
      reads this, Children()
      requires Valid() && subprojects.Resolved? && k <= |subprojects.models|
      ensures |r| == |subprojects.models| - k
      decreases |subprojects.models| - k
    {
      if k == |subprojects.models| then []
      else [subprojects.models[k].LeafSnapshot()] + ChildSnapshots(k + 1)
    }

    /** Over subprojects that have no `subprojects` key of their own, the walk from the `k`-th
        on succeeds exactly when each of them has the selected list. */
    lemma {:induction false} ChildrenWalk<T>(k: nat, own: ProjectTree -> Option<seq<T>>)
      requires Valid() && subprojects.Resolved? && k <= |subprojects.models|
      requires forall i :: 0 <= i < |subprojects.models| ==> subprojects.models[i].subprojects.Unset?
      ensures WalkEach(ChildSnapshots(k), own).Some? <==>
        forall i :: k <= i < |subprojects.models| ==> own(subprojects.models[i].LeafSnapshot()).Some?
      decreases |subprojects.models| - k
    {
      if k < |subprojects.models| {
        var cs := ChildSnapshots(k);
        assert cs[0] == subprojects.models[k].LeafSnapshot();
        assert cs[1..] == ChildSnapshots(k + 1);
        ChildrenWalk(k + 1, own);
      }
    }

    /** A resolved subproject holds its lists exactly when its own resolution succeeded. */
    lemma ChildListsIffOk(ds: seq<Subproject>, resolution: Resolution)
      requires ChildrenDone(ds, resolution)
      ensures forall i :: 0 <= i < |ds| ==> subprojects.models[i].subprojects.Unset?
      ensures var outcomes := ChildOutcomes(resolution, sourceDir, subprojectDir, ds);
        forall i :: 0 <= i < |ds| ==>
          && (subprojects.models[i].targets.Some? <==> outcomes[i].Ok?)
          && (subprojects.models[i].tests.Some? <==> outcomes[i].Ok?)
          && (subprojects.models[i].benchmarks.Some? <==> outcomes[i].Ok?)
    {
      var outcomes := ChildOutcomes(resolution, sourceDir, subprojectDir, ds);
      forall i | 0 <= i < |ds|
        ensures subprojects.models[i].targets.Some? <==> outcomes[i].Ok?
        ensures subprojects.models[i].tests.Some? <==> outcomes[i].Ok?
        ensures subprojects.models[i].benchmarks.Some? <==> outcomes[i].Ok?
      {
        assert ChildDone(subprojects.models[i], ds[i], resolution);
      }
    }

    /** After a successful resolution of this node, `allTargets`, `allTests` and
        `allBenchmarks` are defined exactly when every subproject resolved too, that is exactly
        when `Promise.all` reported no error. */
    lemma UpdatedTreeWalks(ds: seq<Subproject>, resolution: Resolution, o: Own)
      requires Valid() && HoldsOwn(o) && ChildrenDone(ds, resolution)
      ensures AllTargets().Some? <==> FirstError(ChildOutcomes(resolution, sourceDir, subprojectDir, ds)).None?
      ensures AllTests().Some? <==> FirstError(ChildOutcomes(resolution, sourceDir, subprojectDir, ds)).None?
      ensures AllBenchmarks().Some? <==> FirstError(ChildOutcomes(resolution, sourceDir, subprojectDir, ds)).None?
    {
      TargetsWalk(ds, resolution, o);
      TestsWalk(ds, resolution, o);
      BenchmarksWalk(ds, resolution, o);
    }

    lemma TargetsWalk(ds: seq<Subproject>, resolution: Resolution, o: Own)
      requires Valid() && HoldsOwn(o) && ChildrenDone(ds, resolution)
      ensures AllTargets().Some? <==> FirstError(ChildOutcomes(resolution, sourceDir, subprojectDir, ds)).None?
    {
      var outcomes := ChildOutcomes(resolution, sourceDir, subprojectDir, ds);
      var ms := subprojects.models;
      ChildListsIffOk(ds, resolution);
      FirstErrorIsFirst(outcomes);
      ChildrenWalk(0, OwnTargets);
      assert Snapshot().subs == Models(ChildSnapshots(0));
      assert forall i :: 0 <= i < |ms| ==> OwnTargets(ms[i].LeafSnapshot()) == ms[i].targets;
    }

    lemma TestsWalk(ds: seq<Subproject>, resolution: Resolution, o: Own)
      requires Valid() && HoldsOwn(o) && ChildrenDone(ds, resolution)
      ensures AllTests().Some? <==> FirstError(ChildOutcomes(resolution, sourceDir, subprojectDir, ds)).None?
    {
      var outcomes := ChildOutcomes(resolution, sourceDir, subprojectDir, ds);
      var ms := subprojects.models;
      ChildListsIffOk(ds, resolution);
      FirstErrorIsFirst(outcomes);
      ChildrenWalk(0, OwnTests);
      assert Snapshot().subs == Models(ChildSnapshots(0));
      assert forall i :: 0 <= i < |ms| ==> OwnTests(ms[i].LeafSnapshot()) == ms[i].tests;
    }

    lemma BenchmarksWalk(ds: seq<Subproject>, resolution: Resolution, o: Own)
      requires Valid() && HoldsOwn(o) && ChildrenDone(ds, resolution)
      ensures AllBenchmarks().Some? <==> FirstError(ChildOutcomes(resolution, sourceDir, subprojectDir, ds)).None?
    {
      var outcomes := ChildOutcomes(resolution, sourceDir, subprojectDir, ds);
      var ms := subprojects.models;
      ChildListsIffOk(ds, resolution);
      FirstErrorIsFirst(outcomes);
      ChildrenWalk(0, OwnBenchmarks);
      assert Snapshot().subs == Models(ChildSnapshots(0));
      assert forall i :: 0 <= i < |ms| ==> OwnBenchmarks(ms[i].LeafSnapshot()) == ms[i].benchmarks;
    }

    /** `allTargets`: defined (no TypeError) exactly when every node of the tree is walkable,
        and then every node's targets in pre-order, this node's first. */
    function AllTargets(): (r: Option<seq<Target>>)
      reads this, Children()
      requires Valid()
      ensures r.Some? <==> AllWalkable(Nodes(Snapshot()), OwnTargets)
      ensures r.Some? ==> r.value == Flatten(OwnLists(Nodes(Snapshot()), OwnTargets))
      ensures r.Some? ==> targets.Some? && r.value[..|targets.value|] == targets.value
    {
      WalkIsPreorder(Snapshot(), OwnTargets);
      WalkLength(Snapshot(), OwnTargets);
      Walk(Snapshot(), OwnTargets)
    }

    /** `allTests`, in the same pre-order. */
    function AllTests(): (r: Option<seq<Test>>)
      reads this, Children()
      requires Valid()
      ensures r.Some? <==> AllWalkable(Nodes(Snapshot()), OwnTests)
      ensures r.Some? ==> r.value == Flatten(OwnLists(Nodes(Snapshot()), OwnTests))
      ensures r.Some? ==> tests.Some? && r.value[..|tests.value|] == tests.value
    {
      WalkIsPreorder(Snapshot(), OwnTests);
      WalkLength(Snapshot(), OwnTests);
      Walk(Snapshot(), OwnTests)
    }

    /** `allBenchmarks`, in the same pre-order. */
    function AllBenchmarks(): (r: Option<seq<Test>>)
      reads this, Children()
      requires Valid()
      ensures r.Some? <==> AllWalkable(Nodes(Snapshot()), OwnBenchmarks)
      ensures r.Some? ==> r.value == Flatten(OwnLists(Nodes(Snapshot()), OwnBenchmarks))
      ensures r.Some? ==> benchmarks.Some? && r.value[..|benchmarks.value|] == benchmarks.value
    {
      WalkIsPreorder(Snapshot(), OwnBenchmarks);
      WalkLength(Snapshot(), OwnBenchmarks);
      Walk(Snapshot(), OwnBenchmarks)
    }
  }

  /** The resolution a revision runs over one snapshot: `ResolveOwn` with its target rule. */
  function Attribution(meta: MetaData, rule: TargetRule, resolve: Resolver): (r: Resolution)
    ensures forall n, d :: r(n, d).Err? <==>
      forall i :: 0 <= i < |meta.buildSystemFiles| ==> !InSourceDir(resolve, d, meta.buildSystemFiles[i])
  {
    forall n, d ensures ResolveOwn(meta, rule, resolve, n, d).Err? <==>
      forall i :: 0 <= i < |meta.buildSystemFiles| ==> !InSourceDir(resolve, d, meta.buildSystemFiles[i])
    {
      ResolveOwnFails(meta, rule, resolve, n, d);
    }
    (n, d) => ResolveOwn(meta, rule, resolve, n, d)
  }

  /** `ProjectStructure` (src/project.ts): the root model, the directory target rule, and the
      last snapshot; the snapshot is read from the build directory by the caller. */
  class ProjectStructure {
    const root: ProjectModel
    var metaData: Option<MetaData>

    constructor()
      ensures fresh(root) && root.Unresolved() && root.Valid() && metaData.None?
    {
      root := new ProjectModel();
      metaData := None;
    }

    /** `update(projectRoot, buildDir)`: keep the snapshot, then update the root with it. */
    method Update(projectRoot: Path, buildRoot: Path, meta: MetaData, resolve: Resolver)
      returns (err: Option<string>)
      modifies this, root
      ensures metaData == Some(meta)
      ensures root.Valid()
      ensures root.UpdatedBy(meta.projectInfo, projectRoot, buildRoot, Attribution(meta, SameDirectory, resolve), err)
    {
      metaData := Some(meta);
      err := root.Update(projectRoot, buildRoot, meta.projectInfo, Attribution(meta, SameDirectory, resolve));
    }

    /** The `targets` getter: every node's targets in pre-order. */
    function Targets(): (r: Option<seq<Target>>)
      reads this, root, root.Children()
      requires root.Valid()
      ensures r.Some? <==> AllWalkable(Nodes(root.Snapshot()), OwnTargets)
      ensures r.Some? ==> r.value == Flatten(OwnLists(Nodes(root.Snapshot()), OwnTargets))
    {
      root.AllTargets()
    }

    /** The `tests` getter. */
    function Tests(): (r: Option<seq<Test>>)
      reads this, root, root.Children()
      requires root.Valid()
      ensures r.Some? <==> AllWalkable(Nodes(root.Snapshot()), OwnTests)
      ensures r.Some? ==> r.value == Flatten(OwnLists(Nodes(root.Snapshot()), OwnTests))
    {
      root.AllTests()
    }

    /** The `benchmarks` getter. */
    function Benchmarks(): (r: Option<seq<Test>>)
      reads this, root, root.Children()
      requires root.Valid()
      ensures r.Some? <==> AllWalkable(Nodes(root.Snapshot()), OwnBenchmarks)
      ensures r.Some? ==> r.value == Flatten(OwnLists(Nodes(root.Snapshot()), OwnBenchmarks))
    {
      root.AllBenchmarks()
    }
  }

  /** `CodeModel` (src/codemodel.ts): the same update with the file target rule. */
  class CodeModel {
    const root: ProjectModel
    var metaData: Option<MetaData>

    constructor()
      ensures fresh(root) && root.Unresolved() && root.Valid() && metaData.None?
    {
      root := new ProjectModel();
      metaData := None;
    }

    /** `update(projectRoot, buildDir)`: keep the snapshot, then update the root with it. */
    method Update(projectRoot: Path, buildRoot: Path, meta: MetaData, resolve: Resolver)
      returns (err: Option<string>)
      modifies this, root
      ensures metaData == Some(meta)
      ensures root.Valid()
      ensures root.UpdatedBy(meta.projectInfo, projectRoot, buildRoot, Attribution(meta, SameFile, resolve), err)
    {
      metaData := Some(meta);
      err := root.Update(projectRoot, buildRoot, meta.projectInfo, Attribution(meta, SameFile, resolve));
    }
  }
}
