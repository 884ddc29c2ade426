/** The target nodes of the tree view (src/treeview/nodes/targets.ts). A
    `TargetDirectoryNode` is a `FileTrees.DirectoryNode<Target>` whose `pathOf` is
    `getTargetName`; this module adds what is particular to targets: the directory's tree
    item, a target's children, its icon and its context value. */
module TargetNodes {
  import opened Seqs
  import opened Paths
  import opened MesonTypes

  /** VS Code's `TreeItemCollapsibleState`. */
  datatype CollapsibleState = Collapsed | Expanded

  /** A tree item: its label (`caption`), its icon and its collapsible state. */
  datatype DirectoryItem = DirectoryItem(caption: string, icon: string, state: CollapsibleState)

  const MesonIcon := "res/meson_32.svg"
  const FolderIcon := "res/icon-folder.svg"
  const OpenFolderIcon := "res/icon-folder-open.svg"
  const ExecutableIcon := "res/icon-executable.svg"
  const JavaIcon := "res/icon-run-java.svg"
  const LibraryIcon := "res/icon-library.svg"

  /** `TargetDirectoryNode.getTreeItem`: the base item (the folder's base name, collapsed),
      relabelled "Targets" with the Meson icon for the top folder ".", and otherwise given
      the folder icon for its collapsible state. */
  function TargetDirectoryItem(folder: Path): (item: DirectoryItem)
    ensures item.state == Collapsed
    ensures folder == Dot ==> item.caption == "Targets" && item.icon == MesonIcon
    ensures folder != Dot ==> item.caption == Basename(folder)
  {
    var base := DirectoryItem(Basename(folder), "", Collapsed);
    if folder == Dot then base.(caption := "Targets", icon := MesonIcon)
    else base.(icon := if base.state == Expanded then OpenFolderIcon else FolderIcon)
  }

  /** The base item is always collapsed when the icon is chosen, so a directory never shows
      the open-folder icon: a sub-folder always shows the closed one. */
  lemma NeverOpenFolderIcon(folder: Path)
    ensures TargetDirectoryItem(folder).icon != OpenFolderIcon
    ensures folder != Dot ==> TargetDirectoryItem(folder).icon == FolderIcon
  {
  }

  /** A child of a target node: the file that defines the target (a project root and the
      path relative to it), the node of its sources, the node of its generated sources, or
      `undefined`. */
  datatype TargetChild =
    | DefinitionFile(root: Path, name: Path)
    | SourcesNode(folder: Path, files: seq<Path>)
    | GeneratedSourcesNode(files: seq<Path>)
    | Undefined

  /** The sources collected from source groups: for each group in order, its sources, then
      its generated sources. */
  function SourceList(groups: seq<TargetSource>): seq<Path>
  {
    if groups == [] then []
    else
      var last := groups[|groups| - 1];
      SourceList(groups[..|groups| - 1]) + last.sources + last.generatedSources
  }

  /** `TargetNode.getChildren`: no children without `target_sources`; otherwise the
      defining file relative to the project root, the collected sources under the directory
      of the defining file, and `undefined` where the generated-sources node would be, since
      the list it is built from is never filled. */
  method TargetChildren(t: Target, projectRoot: Path) returns (children: seq<TargetChild>)
    ensures t.targetSources.None? ==> children == []
    ensures t.targetSources.Some? ==> children == [
      DefinitionFile(projectRoot, Relative(projectRoot, t.definedIn)),
      SourcesNode(Dirname(t.definedIn), SourceList(t.targetSources.value)),
      Undefined]
  {
    if t.targetSources.None? {
      return [];
    }
    var groups := t.targetSources.value;
    var sources: seq<Path> := [];
    var generatedSources: seq<Path> := [];
    for i := 0 to |groups|
      invariant sources == SourceList(groups[..i])
      invariant generatedSources == []
    {
      assert groups[..i + 1][..i] == groups[..i];
      sources := sources + groups[i].sources;
      sources := sources + groups[i].generatedSources;
    }
    assert groups[..|groups|] == groups;
    children := [
      DefinitionFile(projectRoot, Relative(projectRoot, t.definedIn)),
      SourcesNode(Dirname(t.definedIn), sources),
      if |generatedSources| > 0 then GeneratedSourcesNode(generatedSources) else Undefined];
  }

  /** A path is among the collected sources exactly when some group lists it as a source or
      as a generated source. */
  lemma {:induction false} SourceListMembership(groups: seq<TargetSource>, p: Path)
    ensures p in SourceList(groups) <==>
      exists i :: 0 <= i < |groups| && (p in groups[i].sources || p in groups[i].generatedSources)
  {
    if groups != [] {
      var n := |groups| - 1;
      var init, last := groups[..n], groups[n];
      SourceListMembership(init, p);
      assert SourceList(groups) == SourceList(init) + last.sources + last.generatedSources;
      if p in SourceList(groups) && p !in SourceList(init) {
        assert p in last.sources || p in last.generatedSources;
      }
      if p in SourceList(init) {
        var i :| 0 <= i < n && (p in init[i].sources || p in init[i].generatedSources);
        assert init[i] == groups[i];
      }
      if exists i :: 0 <= i < |groups| && (p in groups[i].sources || p in groups[i].generatedSources) {
        var i :| 0 <= i < |groups| && (p in groups[i].sources || p in groups[i].generatedSources);
        if i < n {
          assert init[i] == groups[i];
        }
      }
    }
  }

  /** The collected sources number the sources and generated sources of all groups. */
  function SourceCount(groups: seq<TargetSource>): nat
  {
    if groups == [] then 0 else |groups[0].sources| + |groups[0].generatedSources| + SourceCount(groups[1..])
  }

  lemma {:induction false} SourceListLength(groups: seq<TargetSource>)
    ensures |SourceList(groups)| == SourceCount(groups)
  {
    if groups != [] {
      var n := |groups| - 1;
      SourceListLength(groups[..n]);
      SourceCountSnoc(groups[..n], groups[n]);
      assert groups[..n] + [groups[n]] == groups;
    }
  }

  lemma {:induction false} SourceCountSnoc(groups: seq<TargetSource>, g: TargetSource)
    ensures SourceCount(groups + [g]) == SourceCount(groups) + |g.sources| + |g.generatedSources|
  {
    if groups != [] {
      assert (groups + [g])[1..] == groups[1..] + [g];
      SourceCountSnoc(groups[1..], g);
    } else {
      assert [g][1..] == [];
    }
  }

  /** The defining-file child opens the file that defines the target: `path.join(root,
      name)` gives back `defined_in`, for normal paths of the same kind as the root. */
  lemma DefinitionFileOpensDefinedIn(t: Target, projectRoot: Path)
    requires Normal(projectRoot) && Normal(t.definedIn) && projectRoot.absolute == t.definedIn.absolute
    ensures Join(projectRoot, Relative(projectRoot, t.definedIn)) == t.definedIn
  {
    JoinRelative(projectRoot, t.definedIn);
  }

  /** `getIconPath`. */
  function IconPath(t: TargetType): string
  {
    match t
    case Executable | Run => ExecutableIcon
    case Jar => JavaIcon
    case SharedLibrary | StaticLibrary | SharedModule => LibraryIcon
    case _ => MesonIcon
  }

  /** Each icon stands for exactly its kinds: executables and run targets, jars, the three
      library kinds, and the rest (custom targets). */
  lemma IconPathClasses(t: TargetType)
    ensures IconPath(t) == ExecutableIcon <==> t == Executable || t == Run
    ensures IconPath(t) == JavaIcon <==> t == Jar
    ensures IconPath(t) == LibraryIcon <==> t == SharedLibrary || t == StaticLibrary || t == SharedModule
    ensures IconPath(t) == MesonIcon <==> t == Custom
  {
  }

  /** `canRun`: the target's type is the string "executable". */
  predicate CanRun(t: Target)
  {
    TypeName(t.targetType) == "executable"
  }

  /** The `contextValue` of a target's tree item. */
  function ContextValue(t: Target): string
  {
    JoinStrings(["nodeType=target", "canBuild=true", "canRun=" + (if CanRun(t) then "true" else "false")], ",")
  }

  /** The run action is offered exactly for executables: two targets share a context value
      exactly when both or neither are executables, the value with `canRun=true` is that of
      executables, and run targets, which carry the executable icon, are not offered it. */
  lemma ContextValueRunFlag(t: Target, u: Target)
    ensures ContextValue(t) == ContextValue(u) <==> (t.targetType == Executable <==> u.targetType == Executable)
    ensures ContextValue(t) == JoinStrings(["nodeType=target", "canBuild=true", "canRun=true"], ",") <==>
      t.targetType == Executable
    ensures t.targetType == Run ==> !CanRun(t) && IconPath(t.targetType) == ExecutableIcon
  {
    var flag := if CanRun(t) then "true" else "false";
    JoinThree("nodeType=target", "canBuild=true", "canRun=" + flag, ",");
    JoinThree("nodeType=target", "canBuild=true", "canRun=" + (if CanRun(u) then "true" else "false"), ",");
    JoinThree("nodeType=target", "canBuild=true", "canRun=true", ",");
  }

  lemma JoinThree(a: string, b: string, c: string, sep: string)
    ensures JoinStrings([a, b, c], sep) == a + sep + (b + sep + c)
  {
    assert [a, b, c][1..] == [b, c] && [b, c][1..] == [c];
    assert JoinStrings([c], sep) == c;
    assert JoinStrings([b, c], sep) == b + sep + c;
  }
}
