/** `ProjectModel.walkProject` (src/project.ts), the pre-order walk behind `allTargets`,
    `allTests` and `allBenchmarks`, on a value snapshot of the project tree. */
module ProjectWalk {
  import opened Seqs
  import opened MesonTypes

  /** A node of the tree as the walk sees it: its own lists (`None` while the key is still
      undefined) and its `subprojects` key. */
  datatype ProjectTree = ProjectTree(
    targets: Option<seq<Target>>,
    tests: Option<seq<Test>>,
    benchmarks: Option<seq<Test>>,
    subs: SubTrees)

  /** The `subprojects` key: absent, still the declared descriptors, or resolved models. */
  datatype SubTrees = NoKey | Descriptors(descriptors: seq<Subproject>) | Models(models: seq<ProjectTree>)

  /** `walkProject(callback)`: the callback's list for the node, then each subproject's walk in
      order. `None` is the TypeError JavaScript raises when it spreads an undefined list:
      a node whose list is undefined, or declared descriptors that were never resolved (the
      callback then reads a key the descriptor lacks). */
  function Walk<T>(t: ProjectTree, own: ProjectTree -> Option<seq<T>>): Option<seq<T>>
    decreases t, 1
  {
    match own(t)
    case None => None
    case Some(mine) =>
      match t.subs
      case NoKey => Some(mine)
      case Descriptors(ds) => if |ds| == 0 then Some(mine) else None
      case Models(ms) =>
        match WalkEach(ms, own)
        case None => None
        case Some(rest) => Some(mine + rest)
  }

  function WalkEach<T>(ms: seq<ProjectTree>, own: ProjectTree -> Option<seq<T>>): Option<seq<T>>
    decreases ms, 0
  {
    if ms == [] then Some([])
    else
      match Walk(ms[0], own)
      case None => None
      case Some(first) =>
        match WalkEach(ms[1..], own)
        case None => None
        case Some(rest) => Some(first + rest)
  }

  /** The selectors of `allTargets`, `allTests` and `allBenchmarks`. */
  function OwnTargets(t: ProjectTree): Option<seq<Target>> { t.targets }
  function OwnTests(t: ProjectTree): Option<seq<Test>> { t.tests }
  function OwnBenchmarks(t: ProjectTree): Option<seq<Test>> { t.benchmarks }

  /** The nodes of the tree in pre-order: a node, then its subprojects' nodes in order. */
  function Nodes(t: ProjectTree): seq<ProjectTree>
    decreases t, 1
  {
    [t] + (if t.subs.Models? then NodesEach(t.subs.models) else [])
  }

  function NodesEach(ms: seq<ProjectTree>): seq<ProjectTree>
    decreases ms, 0
  {
    if ms == [] then [] else Nodes(ms[0]) + NodesEach(ms[1..])
  }

  /** A node the walk passes without error. */
  predicate Walkable<T>(n: ProjectTree, own: ProjectTree -> Option<seq<T>>)
  {
    own(n).Some? && !(n.subs.Descriptors? && |n.subs.descriptors| > 0)
  }

  /** Each node's own list, in the order of `ns` (empty where undefined). */
  function OwnLists<T>(ns: seq<ProjectTree>, own: ProjectTree -> Option<seq<T>>): seq<seq<T>>
  {
    if ns == [] then [] else [if own(ns[0]).Some? then own(ns[0]).value else []] + OwnLists(ns[1..], own)
  }

  lemma {:induction false} OwnListsAppend<T>(a: seq<ProjectTree>, b: seq<ProjectTree>, own: ProjectTree -> Option<seq<T>>)
    ensures OwnLists(a + b, own) == OwnLists(a, own) + OwnLists(b, own)
  {
    if a != [] {
      assert (a + b)[1..] == a[1..] + b;
      OwnListsAppend(a[1..], b, own);
    } else {
      assert a + b == b;
    }
  }

  lemma {:induction false} FlattenAppend<T>(a: seq<seq<T>>, b: seq<seq<T>>)
    ensures Flatten(a + b) == Flatten(a) + Flatten(b)
  {
    if a != [] {
      assert (a + b)[1..] == a[1..] + b;
      FlattenAppend(a[1..], b);
    } else {
      assert a + b == b;
    }
  }

  /** Every node of `ns` is walkable. */
  predicate AllWalkable<T>(ns: seq<ProjectTree>, own: ProjectTree -> Option<seq<T>>)
  {
    forall i :: 0 <= i < |ns| ==> Walkable(ns[i], own)
  }

  lemma AllWalkableAppend<T>(a: seq<ProjectTree>, b: seq<ProjectTree>, own: ProjectTree -> Option<seq<T>>)
    ensures AllWalkable(a + b, own) <==> AllWalkable(a, own) && AllWalkable(b, own)
  {
    if AllWalkable(a + b, own) {
      forall i | 0 <= i < |b| ensures Walkable(b[i], own) {
        assert (a + b)[|a| + i] == b[i];
      }
      forall i | 0 <= i < |a| ensures Walkable(a[i], own) {
        assert (a + b)[i] == a[i];
      }
    }
  }

  /** The walk is the pre-order concatenation of every node's own list: it succeeds exactly
      when every node is walkable, and then its result is the nodes' lists, root first, each
      subproject's subtree after the root in declaration order. */
  lemma {:induction false} WalkIsPreorder<T>(t: ProjectTree, own: ProjectTree -> Option<seq<T>>)
    ensures Walk(t, own).Some? <==> AllWalkable(Nodes(t), own)
    ensures Walk(t, own).Some? ==> Walk(t, own).value == Flatten(OwnLists(Nodes(t), own))
    decreases t, 1
  {
    var ns := Nodes(t);
    assert AllWalkable([t], own) <==> Walkable(t, own) by {
      assert [t][0] == t;
    }
    if t.subs.Models? {
      var ms := t.subs.models;
      WalkEachIsPreorder(ms, own);
      var rest := NodesEach(ms);
      assert ns == [t] + rest;
      AllWalkableAppend([t], rest, own);
      OwnListsAppend([t], rest, own);
      FlattenAppend(OwnLists([t], own), OwnLists(rest, own));
    } else {
      assert ns == [t];
    }
  }

  lemma {:induction false} WalkEachIsPreorder<T>(ms: seq<ProjectTree>, own: ProjectTree -> Option<seq<T>>)
    ensures WalkEach(ms, own).Some? <==> AllWalkable(NodesEach(ms), own)
    ensures WalkEach(ms, own).Some? ==> WalkEach(ms, own).value == Flatten(OwnLists(NodesEach(ms), own))
    decreases ms, 0
  {
    if ms != [] {
      WalkIsPreorder(ms[0], own);
      WalkEachIsPreorder(ms[1..], own);
      var a, b := Nodes(ms[0]), NodesEach(ms[1..]);
      assert NodesEach(ms) == a + b;
      AllWalkableAppend(a, b, own);
      OwnListsAppend(a, b, own);
      FlattenAppend(OwnLists(a, own), OwnLists(b, own));
    }
  }

  /** The aggregate's length is the sum of the nodes' own list lengths, and the root's own
      list comes first. */
  lemma WalkLength<T>(t: ProjectTree, own: ProjectTree -> Option<seq<T>>)
    ensures Walk(t, own).Some? ==> |Walk(t, own).value| == SumLengths(OwnLists(Nodes(t), own))
    ensures Walk(t, own).Some? ==> own(t).Some? && Walk(t, own).value[..|own(t).value|] == own(t).value
  {
    WalkIsPreorder(t, own);
    FlattenLength(OwnLists(Nodes(t), own));
  }
}
