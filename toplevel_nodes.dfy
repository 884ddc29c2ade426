/** The top of the tree view (src/treeview/nodes/toplevel.ts): the project label, the
    children of the project node and of the root nodes below it, and the ids of the root
    nodes. The lists `getMesonTargets` and `getMesonTests` read from the build directory are
    parameters. */
module TopLevelNodes {
  import opened Seqs
  import opened Paths
  import opened MesonTypes

  /** `getProjectName`: the descriptive name, followed by the version in parentheses unless
      Meson reported the version as the string "undefined". */
  function ProjectName(descriptiveName: string, version: string): (r: string)
    ensures |r| >= |descriptiveName| && r[..|descriptiveName|] == descriptiveName
  {
    var name := descriptiveName;
    if version != "undefined" then name + " (" + version + ")" else name
  }

  /** The label shows the version: for one descriptive name, two labels with real versions
      are equal only if the versions are, and an "undefined" version shows nothing. */
  lemma ProjectNameShowsVersion(descriptiveName: string, v1: string, v2: string)
    ensures v1 == "undefined" ==> ProjectName(descriptiveName, v1) == descriptiveName
    ensures v1 != "undefined" && v2 != "undefined" ==>
      (ProjectName(descriptiveName, v1) == ProjectName(descriptiveName, v2) <==> v1 == v2)
  {
    if v1 != "undefined" && v2 != "undefined" && ProjectName(descriptiveName, v1) == ProjectName(descriptiveName, v2) {
      var r1, r2 := ProjectName(descriptiveName, v1), ProjectName(descriptiveName, v2);
      var n := |descriptiveName| + 2;
      assert r1[n..|r1| - 1] == v1;
      assert r2[n..|r2| - 1] == v2;
    }
  }

  /** The nodes of the upper tree. */
  datatype Node =
    | ProjectNode(project: ProjectInfo, buildDir: Path)
    | SubprojectsRootNode(subprojects: seq<Subproject>, buildDir: Path)
    | TargetDirectoryNode(folder: Path, targets: seq<Target>)
    | TargetsRootNode(targets: seq<Target>)
    | TestRootNode(tests: seq<Test>)
    | SubprojectNode(subproject: Subproject, buildDir: Path)
    | TargetNode(target: Target)
    | TestNode(test: Test)

  /** `!t.subproject`: the target belongs to no subproject (JSON null, or the empty string,
      which JavaScript also takes as false). */
  predicate IsRootTarget(t: Target)
  {
    t.subproject.None? || t.subproject.value == ""
  }

  /** `t.subproject === name`. */
  function InSubproject(name: string): Target -> bool
  {
    (t: Target) => t.subproject == Some(name)
  }

  /** `ProjectNode.getChildren`, given what the build directory holds: the subprojects root,
      the top target directory ".", and the tests root, in that order. */
  function ProjectChildren(project: ProjectInfo, buildDir: Path, targets: seq<Target>, tests: seq<Test>): (r: seq<Node>)
    ensures |r| == 3
    ensures r[0] == SubprojectsRootNode(project.subprojects, buildDir)
    ensures r[1].TargetDirectoryNode? && r[1].folder == Dot
    ensures r[2] == TestRootNode(tests)
  {
    [SubprojectsRootNode(project.subprojects, buildDir),
     TargetDirectoryNode(Dot, Filter(targets, IsRootTarget)),
     TestRootNode(tests)]
  }

  /** The top target directory holds exactly the targets of no subproject, every copy of
      them, in their order. */
  lemma RootDirectoryTargets(project: ProjectInfo, buildDir: Path, targets: seq<Target>, tests: seq<Test>)
    ensures var shown := ProjectChildren(project, buildDir, targets, tests)[1].targets;
      && (forall t :: t in shown <==> t in targets && IsRootTarget(t))
      && (forall t :: multiset(shown)[t] == if IsRootTarget(t) then multiset(targets)[t] else 0)
      && IsSubsequence(shown, targets)
  {
    FilterMembership(targets, IsRootTarget);
    FilterCounts(targets, IsRootTarget);
  }

  /** `SubprojectNode.getChildren`: a target node for each target recorded under the
      subproject's name, in order. */
  function SubprojectChildren(s: Subproject, targets: seq<Target>): (r: seq<Node>)
    ensures var mine := Filter(targets, InSubproject(s.name));
      |r| == |mine| && forall i :: 0 <= i < |mine| ==> r[i] == TargetNode(mine[i])
  {
    var mine := Filter(targets, InSubproject(s.name));
    seq(|mine|, i requires 0 <= i < |mine| => TargetNode(mine[i]))
  }

  /** A target is shown under a subproject exactly when it is recorded under that name, and
      a subproject with a non-empty name shows none of the targets of the top directory. */
  lemma SubprojectTargets(s: Subproject, targets: seq<Target>, t: Target)
    ensures TargetNode(t) in SubprojectChildren(s, targets) <==> t in targets && t.subproject == Some(s.name)
    ensures s.name != "" && IsRootTarget(t) ==> TargetNode(t) !in SubprojectChildren(s, targets)
  {
    FilterMembership(targets, InSubproject(s.name));
    var mine := Filter(targets, InSubproject(s.name));
    if TargetNode(t) in SubprojectChildren(s, targets) {
      var i :| 0 <= i < |mine| && SubprojectChildren(s, targets)[i] == TargetNode(t);
      assert mine[i] == t;
    }
    if t in mine {
      var i :| 0 <= i < |mine| && mine[i] == t;
      assert SubprojectChildren(s, targets)[i] == TargetNode(t);
    }
  }

  /** `SubprojectsRootNode.getChildren`: one subproject node per subproject, in order. */
  function SubprojectsRootChildren(subprojects: seq<Subproject>, buildDir: Path): (r: seq<Node>)
    ensures |r| == |subprojects|
    ensures forall i :: 0 <= i < |r| ==> r[i] == SubprojectNode(subprojects[i], buildDir)
  {
    seq(|subprojects|, i requires 0 <= i < |subprojects| => SubprojectNode(subprojects[i], buildDir))
  }

  /** `TargetsRootNode.getChildren`: one target node per target, in order. */
  function TargetsRootChildren(targets: seq<Target>): (r: seq<Node>)
    ensures |r| == |targets|
    ensures forall i :: 0 <= i < |r| ==> r[i] == TargetNode(targets[i])
  {
    seq(|targets|, i requires 0 <= i < |targets| => TargetNode(targets[i]))
  }

  /** `TestRootNode.getChildren`: one test node per test, in order. */
  function TestRootChildren(tests: seq<Test>): (r: seq<Node>)
    ensures |r| == |tests|
    ensures forall i :: 0 <= i < |r| ==> r[i] == TestNode(tests[i])
  {
    seq(|tests|, i requires 0 <= i < |tests| => TestNode(tests[i]))
  }

  /** `hash` of src/utils: an uninterpreted, deterministic function. */
  type Hash = string -> string

  /** `${s.descriptive_name} ${s.version}`. */
  function SubprojectKey(s: Subproject): string
  {
    s.descriptiveName + " " + s.version
  }

  /** `${t.subproject}/${t.name}`: a null subproject prints as "null". */
  function TargetKey(t: Target): string
  {
    (if t.subproject.None? then "null" else t.subproject.value) + "/" + t.name
  }

  /** `t.suite + t.name`: the suite array prints as its elements joined with ",". */
  function TestKey(t: Test): string
  {
    JoinStrings(t.suite, ",") + t.name
  }

  /** The id of a root node: the hash of its elements' keys joined with ";". */
  function RootId<T>(xs: seq<T>, key: T -> string, hash: Hash): string
  {
    hash(JoinStrings(seq(|xs|, i requires 0 <= i < |xs| => key(xs[i])), ";"))
  }

  /** The three root ids see nothing but the keys: lists whose elements have the same keys,
      in order, get the same id whatever else differs. */
  lemma RootIdsSeeOnlyKeys<T>(a: seq<T>, b: seq<T>, key: T -> string, hash: Hash)
    requires |a| == |b| && forall i :: 0 <= i < |a| ==> key(a[i]) == key(b[i])
    ensures RootId(a, key, hash) == RootId(b, key, hash)
  {
    assert seq(|a|, i requires 0 <= i < |a| => key(a[i])) == seq(|b|, i requires 0 <= i < |b| => key(b[i]));
  }

  /** Two different targets with the same key: a root target and a target of a subproject
      literally named "null" print the same way, so the key does not tell them apart. */
  lemma TargetKeyOfNullSubproject(t: Target)
    requires t.subproject.None?
    ensures TargetKey(t) == TargetKey(t.(subproject := Some("null")))
  {
  }
}
