/** The directory grouping of the tree view (src/treeview/nodes/base.ts): `buildFileTree`
    files each item under the first folder of its path relative to the node's folder, and
    `getChildren` turns the buckets into leaves and sub-directory nodes. `TargetDirectoryNode`
    (src/treeview/nodes/targets.ts) runs the same grouping over target names. */
module FileTrees {
  import opened Seqs
  import opened Paths

  /** The bucket an item with path `p` is filed under: "." when `p`, relative to `folder`, has
      directory "."; otherwise `folder` joined with the first segment of the relative path. */
  function KeyOf(folder: Path, p: Path): Path
  {
    var rel := Relative(folder, p);
    if Dirname(rel) == Dot then Dot else Join(folder, Seg(rel.segs[0]))
  }

  /** The key `buildFileTree` files an item under, as a function of the item. */
  function FolderKey<T>(folder: Path, pathOf: T -> Path): T -> Path
  {
    x => KeyOf(folder, pathOf(x))
  }

  /** The filter that selects the items filed under `k`. */
  function Selects<T>(key: T -> Path, k: Path): T -> bool
  {
    x => key(x) == k
  }

  /** The items filed under `k`, in input order. */
  function Bucket<T(==)>(items: seq<T>, key: T -> Path, k: Path): seq<T>
  {
    Filter(items, Selects(key, k))
  }

  /** The insertion order of the map's keys after the first `n` items: "." (set before the
      loop), then each new key when its first item is met. */
  function KeyOrder<T>(items: seq<T>, key: T -> Path, n: nat): seq<Path>
    requires n <= |items|
  {
    if n == 0 then [Dot]
    else
      var ks := KeyOrder(items, key, n - 1);
      var k := key(items[n - 1]);
      if k in ks then ks else ks + [k]
  }

  predicate Distinct(ks: seq<Path>)
  {
    forall i, j :: 0 <= i < j < |ks| ==> ks[i] != ks[j]
  }

  /** `buildFileTree(items)`: the `Map` it returns, as its keys in insertion order and the
      key-to-bucket map. The "." bucket exists even for no input; every key is "." or the
      bucket of some item; each bucket holds exactly the items filed under its key, in input
      order. */
  method BuildFileTree<T(==)>(folder: Path, items: seq<T>, pathOf: T -> Path)
    returns (keys: seq<Path>, buckets: map<Path, seq<T>>)
    ensures keys == KeyOrder(items, FolderKey(folder, pathOf), |items|)
    ensures forall k :: k in buckets <==> k in keys
    ensures forall k :: k in buckets ==> buckets[k] == Bucket(items, FolderKey(folder, pathOf), k)
  {
    keys := [Dot];
    buckets := map[Dot := []];
    for i := 0 to |items|
      invariant keys == KeyOrder(items, FolderKey(folder, pathOf), i)
      invariant Dot in buckets
      invariant forall k :: k in buckets <==> k in keys
      invariant Grouped(items[..i], FolderKey(folder, pathOf), buckets)
    {
      var x := items[i];
      PrefixSnoc(items, i);
      GroupedSnoc(items[..i], FolderKey(folder, pathOf), buckets, x);
      keys, buckets := FileItem(folder, x, pathOf, keys, buckets);
    }
    PrefixAll(items);
  }

  /** One pass of the loop of `buildFileTree`: `x` joins the bucket of its folder, which
      becomes a new key when it is first met. */
  method FileItem<T>(folder: Path, x: T, pathOf: T -> Path, keys: seq<Path>, buckets: map<Path, seq<T>>)
    returns (keys': seq<Path>, buckets': map<Path, seq<T>>)
    requires Dot in buckets && forall k :: k in buckets <==> k in keys
    ensures var k := KeyOf(folder, pathOf(x));
      && keys' == (if k in keys then keys else keys + [k])
      && buckets' == buckets[k := (if k in buckets then buckets[k] else []) + [x]]
  {
    keys', buckets' := keys, buckets;
    var folderName := Relative(folder, pathOf(x));
    if Dirname(folderName) == Dot {
      buckets' := buckets'[Dot := buckets'[Dot] + [x]];
    } else {
      folderName := TopFolder(folderName);
      var absFolder := Join(folder, folderName);
      if absFolder in buckets' {
        buckets' := buckets'[absFolder := buckets'[absFolder] + [x]];
      } else {
        buckets' := buckets'[absFolder := [x]];
        keys' := keys' + [absFolder];
        assert [] + [x] == [x];
      }
    }
  }

  lemma PrefixSnoc<T>(s: seq<T>, i: nat)
    requires i < |s|
    ensures s[..i + 1] == s[..i] + [s[i]]
  {
  }

  lemma PrefixAll<T>(s: seq<T>)
    ensures s[..|s|] == s
  {
  }

  /** `buckets` holds, under each of its keys, the items of `seen` filed under that key, and
      no item of `seen` is filed under any other key. */
  ghost predicate Grouped<T>(seen: seq<T>, key: T -> Path, buckets: map<Path, seq<T>>)
  {
    && (forall k :: k in buckets ==> buckets[k] == Bucket(seen, key, k))
    && (forall k :: k !in buckets ==> Bucket(seen, key, k) == [])
  }

  /** Appending an item to its key's bucket, creating the bucket if need be, keeps the
      grouping. */
  lemma GroupedSnoc<T>(seen: seq<T>, key: T -> Path, buckets: map<Path, seq<T>>, x: T)
    requires Grouped(seen, key, buckets)
    ensures var k := key(x);
      Grouped(seen + [x], key, buckets[k := (if k in buckets then buckets[k] else []) + [x]])
  {
    var k0 := key(x);
    var next := buckets[k0 := (if k0 in buckets then buckets[k0] else []) + [x]];
    BucketSnoc(seen, key, x);
    forall k | k in next
      ensures next[k] == Bucket(seen + [x], key, k)
    {
      if k == k0 && k0 !in buckets {
        assert Bucket(seen, key, k) == [];
      }
    }
    forall k | k !in next
      ensures Bucket(seen + [x], key, k) == []
    {
      assert k != k0 && k !in buckets;
    }
  }

  /** `while (path.dirname(folderName) !== ".") folderName = path.dirname(folderName)`: the
      first segment of a relative path with at least two. */
  method TopFolder(rel: Path) returns (top: Path)
    requires !rel.absolute && Dirname(rel) != Dot
    ensures top == Seg(rel.segs[0])
  {
    top := rel;
    while Dirname(top) != Dot
      invariant !top.absolute && 1 <= |top.segs| <= |rel.segs|
      invariant top.segs == rel.segs[..|top.segs|]
      decreases |top.segs|
    {
      top := Dirname(top);
    }
  }

  /** One more item extends exactly the bucket of its own key. */
  lemma BucketSnoc<T>(items: seq<T>, key: T -> Path, x: T)
    ensures forall k ::
      Bucket(items + [x], key, k) ==
      Bucket(items, key, k) + (if key(x) == k then [x] else [])
  {
    forall k
      ensures Bucket(items + [x], key, k) ==
        Bucket(items, key, k) + (if key(x) == k then [x] else [])
    {
      FilterAppend(items, [x], Selects(key, k));
      assert [x][1..] == [];
      assert Filter([x], Selects(key, k)) == (if key(x) == k then [x] else []);
    }
  }

  /** The keys start with "." and are distinct. */
  lemma {:induction false} KeyOrderDistinct<T>(items: seq<T>, key: T -> Path, n: nat)
    requires n <= |items|
    ensures var ks := KeyOrder(items, key, n); |ks| > 0 && ks[0] == Dot && Distinct(ks)
  {
    if n > 0 {
      KeyOrderDistinct(items, key, n - 1);
    }
  }

  /** The keys include the key of every item seen. */
  lemma {:induction false} KeyOrderCovers<T>(items: seq<T>, key: T -> Path, n: nat)
    requires n <= |items|
    ensures forall i :: 0 <= i < n ==> key(items[i]) in KeyOrder(items, key, n)
  {
    if n > 0 {
      KeyOrderCovers(items, key, n - 1);
    }
  }

  /** The item whose key a later key is: every key after "." is the key of an item seen. */
  function KeySource<T>(items: seq<T>, key: T -> Path, n: nat, j: nat): (i: nat)
    requires n <= |items| && 0 < j < |KeyOrder(items, key, n)|
    ensures i < n && KeyOrder(items, key, n)[j] == key(items[i])
  {
    var ks := KeyOrder(items, key, n - 1);
    if j < |ks| then KeySource(items, key, n - 1, j) else n - 1
  }

  /** The number of occurrences of `k` in `ks`. */
  function Count(ks: seq<Path>, k: Path): nat
  {
    if ks == [] then 0 else (if ks[0] == k then 1 else 0) + Count(ks[1..], k)
  }

  lemma {:induction false} CountDistinct(ks: seq<Path>, k: Path)
    requires Distinct(ks)
    ensures Count(ks, k) == if k in ks then 1 else 0
  {
    if ks != [] {
      CountDistinct(ks[1..], k);
      if ks[0] == k {
        assert k !in ks[1..] by {
          forall j | 0 <= j < |ks[1..]| ensures ks[1..][j] != k {
            assert ks[1..][j] == ks[j + 1];
          }
        }
      }
    }
  }

  /** The total size of the buckets under `ks`. */
  function BucketSizes<T(==)>(items: seq<T>, key: T -> Path, ks: seq<Path>): nat
  {
    if ks == [] then 0 else |Bucket(items, key, ks[0])| + BucketSizes(items, key, ks[1..])
  }

  lemma {:induction false} BucketSizesSnoc<T>(items: seq<T>, key: T -> Path, x: T, ks: seq<Path>)
    ensures BucketSizes(items + [x], key, ks) ==
      BucketSizes(items, key, ks) + Count(ks, key(x))
  {
    if ks != [] {
      BucketSnoc(items, key, x);
      BucketSizesSnoc(items, key, x, ks[1..]);
    }
  }

  /** Over distinct keys that cover every item, the bucket sizes add up to the number of
      items: every item lies in exactly one bucket. */
  lemma {:induction false} BucketsPartition<T>(items: seq<T>, key: T -> Path, ks: seq<Path>)
    requires Distinct(ks)
    requires forall i :: 0 <= i < |items| ==> key(items[i]) in ks
    ensures BucketSizes(items, key, ks) == |items|
    decreases |items|
  {
    if items == [] {
      EmptyBuckets(key, ks);
    } else {
      var n := |items| - 1;
      var x := items[n];
      assert items == items[..n] + [x];
      BucketsPartition(items[..n], key, ks);
      BucketSizesSnoc(items[..n], key, x, ks);
      CountDistinct(ks, key(x));
    }
  }

  lemma {:induction false} EmptyBuckets<T>(key: T -> Path, ks: seq<Path>)
    ensures BucketSizes([], key, ks) == 0
  {
    if ks != [] {
      EmptyBuckets(key, ks[1..]);
    }
  }

  /** The grouping of `buildFileTree` loses and duplicates nothing: the bucket sizes add up to
      the input length, and each item is in the bucket of its own key. */
  lemma EveryItemInOneBucket<T>(items: seq<T>, key: T -> Path)
    ensures BucketSizes(items, key, KeyOrder(items, key, |items|)) == |items|
    ensures forall i :: 0 <= i < |items| ==> items[i] in Bucket(items, key, key(items[i]))
  {
    KeyOrderDistinct(items, key, |items|);
    KeyOrderCovers(items, key, |items|);
    BucketsPartition(items, key, KeyOrder(items, key, |items|));
    forall i | 0 <= i < |items|
      ensures items[i] in Bucket(items, key, key(items[i]))
    {
      FilterMembership(items, Selects(key, key(items[i])));
    }
  }

  /** For a normal path strictly below `folder`: a path directly in `folder` is filed under
      ".", a deeper one under the sub-folder of `folder` that contains it. */
  lemma KeyIsTopFolder(folder: Path, rest: seq<string>)
    requires |rest| > 0 && forall i :: 0 <= i < |rest| ==> IsName(rest[i])
    ensures |rest| == 1 ==> KeyOf(folder, Path(folder.absolute, folder.segs + rest)) == Dot
    ensures |rest| > 1 ==>
      KeyOf(folder, Path(folder.absolute, folder.segs + rest)) == Path(folder.absolute, folder.segs + [rest[0]])
  {
    var rel := Relative(folder, Path(folder.absolute, folder.segs + rest));
    RelativeBelow(folder, rest);
    assert rel == Path(false, rest);
    assert Dirname(rel) == Path(false, rest[..|rest| - 1]);
    if |rest| > 1 {
      assert Dirname(rel) != Dot;
      JoinNormal(folder, Seg(rest[0]));
    }
  }

  /** A node of the tree view under a directory node: a leaf for one item, or a sub-directory
      node with its folder and items. */
  datatype Child<T> = Leaf(item: T) | Directory(folder: Path, items: seq<T>)

  /** One leaf per item, in order. */
  function Leaves<T>(items: seq<T>): (r: seq<Child<T>>)
    ensures |r| == |items| && forall i :: 0 <= i < |items| ==> r[i] == Leaf(items[i])
  {
    seq(|items|, i requires 0 <= i < |items| => Leaf(items[i]))
  }

  /** `getChildren`: the map's entries in order, the "." bucket expanded into leaves and every
      other bucket made a directory node, flattened one level. */
  function Children<T>(keys: seq<Path>, buckets: map<Path, seq<T>>): seq<Child<T>>
    requires forall i :: 0 <= i < |keys| ==> keys[i] in buckets
  {
    if keys == [] then []
    else
      (if keys[0] == Dot then Leaves(buckets[Dot]) else [Directory(keys[0], buckets[keys[0]])])
      + Children(keys[1..], buckets)
  }

  /** Over keys without ".", every entry is one directory node. */
  lemma {:induction false} ChildrenOfDirectories<T>(keys: seq<Path>, buckets: map<Path, seq<T>>)
    requires forall i :: 0 <= i < |keys| ==> keys[i] in buckets && keys[i] != Dot
    ensures |Children(keys, buckets)| == |keys|
    ensures forall j :: 0 <= j < |keys| ==> Children(keys, buckets)[j] == Directory(keys[j], buckets[keys[j]])
  {
    if keys != [] {
      ChildrenOfDirectories(keys[1..], buckets);
    }
  }

  /** With "." first and the keys distinct: the "." bucket's leaves, then one directory node
      per other key. */
  lemma ChildrenShape<T>(keys: seq<Path>, buckets: map<Path, seq<T>>)
    requires |keys| > 0 && keys[0] == Dot && Distinct(keys)
    requires forall i :: 0 <= i < |keys| ==> keys[i] in buckets
    ensures var direct := buckets[Dot]; var r := Children(keys, buckets);
      && |r| == |direct| + |keys| - 1
      && r[..|direct|] == Leaves(direct)
      && forall j :: 1 <= j < |keys| ==> r[|direct| + j - 1] == Directory(keys[j], buckets[keys[j]])
  {
    var rest := keys[1..];
    assert forall i :: 0 <= i < |rest| ==> rest[i] == keys[i + 1];
    ChildrenOfDirectories(rest, buckets);
    assert Children(keys, buckets) == Leaves(buckets[Dot]) + Children(rest, buckets);
  }

  /** `DirectoryNode` (`BaseFileDirectoryNode`, and `TargetDirectoryNode` with `pathOf` the
      target name): a folder, its items, and the grouping its constructor builds. */
  class DirectoryNode<T(==)> {
    const folder: Path
    const items: seq<T>
    const pathOf: T -> Path
    const keys: seq<Path>
    const subfolders: map<Path, seq<T>>

    /** The grouping is the one `buildFileTree` computes for the node's items. */
    ghost predicate Valid()
    {
      && keys == KeyOrder(items, FolderKey(folder, pathOf), |items|)
      && WellFormed()
      && (forall k :: k in subfolders ==> subfolders[k] == Bucket(items, FolderKey(folder, pathOf), k))
    }

    /** The map's keys are distinct, "." first. */
    ghost predicate WellFormed()
    {
      && |keys| > 0 && keys[0] == Dot && Distinct(keys)
      && (forall k :: k in subfolders <==> k in keys)
    }

    constructor(folder: Path, items: seq<T>, pathOf: T -> Path)
      ensures this.folder == folder && this.items == items && this.pathOf == pathOf
      ensures Valid()
    {
      KeyOrderDistinct(items, FolderKey(folder, pathOf), |items|);
      this.folder := folder;
      this.items := items;
      this.pathOf := pathOf;
      var ks, bs := BuildFileTree(folder, items, pathOf);
      keys := ks;
      subfolders := bs;
    }

    /** `getChildren`: the items directly in the folder as leaves, in input order, then one
        directory node per sub-folder, in order of first occurrence. */
    function GetChildren(): (r: seq<Child<T>>)
      requires WellFormed()
      ensures var direct := subfolders[Dot];
        && |r| == |direct| + |keys| - 1
        && r[..|direct|] == Leaves(direct)
        && forall j :: 1 <= j < |keys| ==> r[|direct| + j - 1] == Directory(keys[j], subfolders[keys[j]])
    {
      ChildrenShape(keys, subfolders);
      Children(keys, subfolders)
    }
  }

  /** A file leaf: the folder it lies in and its base name. */
  datatype FileNode = FileNode(root: Path, name: string)

  /** `FileNode.create(filePath)`. */
  function CreateFileNode(p: Path): (n: FileNode)
    ensures n.root == Dirname(p) && n.name == Basename(p)
  {
    FileNode(Dirname(p), Basename(p))
  }

  /** The file a leaf opens: `path.join(root, name)`. */
  function ResourceOf(n: FileNode): Path
  {
    Join(n.root, Seg(n.name))
  }

  /** A leaf made by `FileNode.create(p)` opens `p` itself, for a normal path with at least
      one segment. */
  lemma CreatedNodeOpensPath(p: Path)
    requires Normal(p) && |p.segs| > 0
    ensures ResourceOf(CreateFileNode(p)) == p
  {
    JoinDirnameBasename(p);
  }
}
