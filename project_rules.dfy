/** The rules by which `ProjectModel.resolve` (src/project.ts and src/codemodel.ts) attributes a
    build file, targets, tests and benchmarks to one project node, stated on values. The two
    source revisions differ only in the target rule, a parameter here. */
module ProjectRules {
  import opened Seqs
  import opened Paths
  import opened MesonTypes

  /** One introspection snapshot (`MetaData`). */
  datatype MetaData = MetaData(
    projectInfo: ProjectInfo,
    targets: seq<Target>,
    tests: seq<Test>,
    benchmarks: seq<Test>,
    buildSystemFiles: seq<Path>)

  /** src/project.ts compares the directory of `defined_in` with the build file's directory;
      src/codemodel.ts compares `defined_in` with the build file itself. */
  datatype TargetRule = SameDirectory | SameFile

  /** The filter of `resolveBuildFile`: `p`, symlink-resolved against `sourceDir`, lies
      directly in `sourceDir`. */
  predicate InSourceDir(resolve: Resolver, sourceDir: Path, p: Path)
  {
    Dirname(resolve(sourceDir, p)) == sourceDir
  }

  /** `resolveBuildFile`: the first build-system file that lies in `sourceDir`, symlink-resolved;
      `None` is the thrown resolution error. */
  function BuildFileOf(files: seq<Path>, sourceDir: Path, resolve: Resolver): (r: Option<Path>)
    ensures r.Some? ==> Dirname(r.value) == sourceDir
  {
    var matches := Filter(files, p => InSourceDir(resolve, sourceDir, p));
    if |matches| == 0 then None else Some(resolve(sourceDir, matches[0]))
  }

  /** The build file is the symlink-resolved form of the first file, in snapshot order, that
      lies in the source directory; there is none exactly when no file does. */
  lemma BuildFileIsFirstMatch(files: seq<Path>, sourceDir: Path, resolve: Resolver)
    ensures var r := BuildFileOf(files, sourceDir, resolve);
      && (r.None? <==> forall i :: 0 <= i < |files| ==> !InSourceDir(resolve, sourceDir, files[i]))
      && (r.Some? ==> exists i :: 0 <= i < |files| && r.value == resolve(sourceDir, files[i])
                        && InSourceDir(resolve, sourceDir, files[i])
                        && forall j :: 0 <= j < i ==> !InSourceDir(resolve, sourceDir, files[j]))
  {
    var matches := Filter(files, p => InSourceDir(resolve, sourceDir, p));
    FilterMembership(files, p => InSourceDir(resolve, sourceDir, p));
    if |matches| == 0 {
      assert forall i :: 0 <= i < |files| && InSourceDir(resolve, sourceDir, files[i]) ==> files[i] in matches;
    } else {
      assert matches[0] in matches;
      var i :| 0 <= i < |files| && files[i] == matches[0];
      var first := FirstIndex(files, 0, i, resolve, sourceDir);
      FilterFirst(files, p => InSourceDir(resolve, sourceDir, p), first);
    }
  }

  /** The index of the first matching file, searching upwards from `lo`, given that file `i`
      matches. */
  function FirstIndex(files: seq<Path>, lo: nat, i: nat, resolve: Resolver, sourceDir: Path): (k: nat)
    requires lo <= i < |files| && InSourceDir(resolve, sourceDir, files[i])
    requires forall j :: 0 <= j < lo ==> !InSourceDir(resolve, sourceDir, files[j])
    ensures k <= i && InSourceDir(resolve, sourceDir, files[k])
    ensures forall j :: 0 <= j < k ==> !InSourceDir(resolve, sourceDir, files[j])
    decreases i - lo
  {
    if InSourceDir(resolve, sourceDir, files[lo]) then lo
    else FirstIndex(files, lo + 1, i, resolve, sourceDir)
  }

  /** The error message of a failed build-file resolution. */
  function ResolutionError(name: string): string
  {
    "Failed to resolve build file for project " + name
  }

  /** The target filter of `resolve`. */
  predicate OwnsTarget(rule: TargetRule, t: Target, buildFile: Path, name: string)
  {
    match rule
    case SameDirectory => Dirname(t.definedIn) == Dirname(buildFile) || t.subproject == Some(name)
    case SameFile => t.definedIn == buildFile || t.subproject == Some(name)
  }

  /** The test and benchmark filter of `resolve`: the project's name is one of the suites. */
  predicate InSuite(t: Test, name: string)
  {
    name in t.suite
  }

  /** What `resolve` computes for one node before turning to its subprojects. */
  datatype Own = Own(buildFile: Path, targets: seq<Target>, tests: seq<Test>, benchmarks: seq<Test>)

  function ResolveOwn(meta: MetaData, rule: TargetRule, resolve: Resolver, name: string, sourceDir: Path): Result<Own, string>
  {
    match BuildFileOf(meta.buildSystemFiles, sourceDir, resolve)
    case None => Err(ResolutionError(name))
    case Some(bf) =>
      Ok(Own(bf,
             Filter(meta.targets, t => OwnsTarget(rule, t, bf, name)),
             Filter(meta.tests, t => InSuite(t, name)),
             Filter(meta.benchmarks, t => InSuite(t, name))))
  }

  /** `path.join(parentDir, subproject_dir, name)`: where a subproject's directories lie. */
  function ChildDir(parentDir: Path, subprojectDir: Path, name: string): Path
  {
    Join(Join(parentDir, subprojectDir), Seg(name))
  }

  /** A child's directory is the parent's directory, then the subproject directory, then the
      child's name. */
  lemma ChildDirShape(parentDir: Path, subprojectDir: Path, name: string)
    requires Normal(subprojectDir) && IsName(name)
    ensures ChildDir(parentDir, subprojectDir, name) == Path(parentDir.absolute, parentDir.segs + subprojectDir.segs + [name])
    ensures Dirname(ChildDir(parentDir, subprojectDir, name)) == Join(parentDir, subprojectDir)
    ensures Basename(ChildDir(parentDir, subprojectDir, name)) == name
  {
    JoinNormal(parentDir, subprojectDir);
    DirnameJoinName(Join(parentDir, subprojectDir), name);
    JoinNormal(Join(parentDir, subprojectDir), Seg(name));
  }

  /** Resolution fails exactly when no build-system file lies in the source directory, and the
      error names the project. */
  lemma ResolveOwnFails(meta: MetaData, rule: TargetRule, resolve: Resolver, name: string, sourceDir: Path)
    ensures ResolveOwn(meta, rule, resolve, name, sourceDir).Err? <==>
              forall i :: 0 <= i < |meta.buildSystemFiles| ==> !InSourceDir(resolve, sourceDir, meta.buildSystemFiles[i])
    ensures ResolveOwn(meta, rule, resolve, name, sourceDir).Err? ==>
              ResolveOwn(meta, rule, resolve, name, sourceDir).error == ResolutionError(name)
  {
    BuildFileIsFirstMatch(meta.buildSystemFiles, sourceDir, resolve);
  }

  /** Membership of the filtered lists: a target belongs to the node exactly when the snapshot
      has it and the rule accepts it; a test or benchmark exactly when its suites name the
      node. Each list keeps the snapshot's order. */
  lemma ResolveOwnLists(meta: MetaData, rule: TargetRule, resolve: Resolver, name: string, sourceDir: Path)
    requires ResolveOwn(meta, rule, resolve, name, sourceDir).Ok?
    ensures var o := ResolveOwn(meta, rule, resolve, name, sourceDir).value;
      && (forall t :: t in o.targets <==> t in meta.targets && OwnsTarget(rule, t, o.buildFile, name))
      && (forall t :: t in o.tests <==> t in meta.tests && InSuite(t, name))
      && (forall t :: t in o.benchmarks <==> t in meta.benchmarks && InSuite(t, name))
      && IsSubsequence(o.targets, meta.targets)
      && IsSubsequence(o.tests, meta.tests)
      && IsSubsequence(o.benchmarks, meta.benchmarks)
  {
    var o := ResolveOwn(meta, rule, resolve, name, sourceDir).value;
    FilterMembership(meta.targets, t => OwnsTarget(rule, t, o.buildFile, name));
    FilterMembership(meta.tests, t => InSuite(t, name));
    FilterMembership(meta.benchmarks, t => InSuite(t, name));
  }

  /** Each filtered list holds every copy of what it accepts: as many as the snapshot has. */
  lemma ResolveOwnCounts(meta: MetaData, rule: TargetRule, resolve: Resolver, name: string, sourceDir: Path)
    requires ResolveOwn(meta, rule, resolve, name, sourceDir).Ok?
    ensures var o := ResolveOwn(meta, rule, resolve, name, sourceDir).value;
      && (forall t :: multiset(o.targets)[t] == if OwnsTarget(rule, t, o.buildFile, name) then multiset(meta.targets)[t] else 0)
      && (forall t :: multiset(o.tests)[t] == if InSuite(t, name) then multiset(meta.tests)[t] else 0)
      && (forall t :: multiset(o.benchmarks)[t] == if InSuite(t, name) then multiset(meta.benchmarks)[t] else 0)
  {
    var o := ResolveOwn(meta, rule, resolve, name, sourceDir).value;
    FilterCounts(meta.targets, t => OwnsTarget(rule, t, o.buildFile, name));
    FilterCounts(meta.tests, t => InSuite(t, name));
    FilterCounts(meta.benchmarks, t => InSuite(t, name));
  }

  /** With the directory rule (src/project.ts), a resolved node owns the targets declared
      directly in its source directory, or recorded under its name. */
  lemma SameDirectoryMeansSourceDir(meta: MetaData, resolve: Resolver, name: string, sourceDir: Path, t: Target)
    requires ResolveOwn(meta, SameDirectory, resolve, name, sourceDir).Ok?
    ensures var o := ResolveOwn(meta, SameDirectory, resolve, name, sourceDir).value;
      OwnsTarget(SameDirectory, t, o.buildFile, name) <==> Dirname(t.definedIn) == sourceDir || t.subproject == Some(name)
  {
  }

  /** The file rule (src/codemodel.ts) is the stricter one: the targets it attributes are a
      subsequence of those the directory rule (src/project.ts) attributes. */
  lemma SameFileWithinSameDirectory(meta: MetaData, resolve: Resolver, name: string, sourceDir: Path)
    requires ResolveOwn(meta, SameFile, resolve, name, sourceDir).Ok?
    ensures ResolveOwn(meta, SameDirectory, resolve, name, sourceDir).Ok?
    ensures IsSubsequence(ResolveOwn(meta, SameFile, resolve, name, sourceDir).value.targets,
                          ResolveOwn(meta, SameDirectory, resolve, name, sourceDir).value.targets)
  {
    var bf := ResolveOwn(meta, SameFile, resolve, name, sourceDir).value.buildFile;
    FilterMonotone(meta.targets, t => OwnsTarget(SameFile, t, bf, name), t => OwnsTarget(SameDirectory, t, bf, name));
  }
}
