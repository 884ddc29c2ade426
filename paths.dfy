/** Node's POSIX `path.dirname`, `path.basename`, `path.join` and `path.relative`, over paths
    held as segment sequences. The extension compares paths by string equality; for
    normalised paths that is equality of these values. */
module Paths {

  /** A path: absolute ("/a/b") or relative ("a/b"), as its segments. The relative path with
      no segment is ".". */
  datatype Path = Path(absolute: bool, segs: seq<string>)

  /** The path ".". */
  const Dot: Path := Path(false, [])

  /** A segment that normalisation leaves in place. */
  predicate IsName(s: string)
  {
    s != "" && s != "." && s != ".."
  }

  /** A path whose every segment is a name. */
  predicate Normal(p: Path)
  {
    forall i :: 0 <= i < |p.segs| ==> IsName(p.segs[i])
  }

  /** The relative path made of the single segment `s`. */
  function Seg(s: string): Path
  {
    Path(false, [s])
  }

  /** `resolveSymlinkPath(root, p)`: an uninterpreted, deterministic function. */
  type Resolver = (Path, Path) -> Path

  /** `path.dirname`: drop the last segment; "." and "/" are their own directory. */
  function Dirname(p: Path): Path
  {
    if |p.segs| == 0 then p else Path(p.absolute, p.segs[..|p.segs| - 1])
  }

  /** `path.basename`: the last segment, or "" when there is none. Node gives "." for "."
      itself, so callers test for `Dot` before they show a base name. */
  function Basename(p: Path): string
  {
    if |p.segs| == 0 then "" else p.segs[|p.segs| - 1]
  }

  /** One step of normalisation: append segment `s` to the already normal `acc`. */
  function Step(acc: seq<string>, s: string, absolute: bool): seq<string>
  {
    if s == "" || s == "." then acc
    else if s == ".." then
      if |acc| > 0 && acc[|acc| - 1] != ".." then acc[..|acc| - 1]
      else if absolute then acc  // the parent of "/" is "/"
      else acc + [".."]
    else acc + [s]
  }

  function Append(acc: seq<string>, rest: seq<string>, absolute: bool): seq<string>
    decreases |rest|
  {
    if rest == [] then acc else Append(Step(acc, rest[0], absolute), rest[1..], absolute)
  }

  /** `path.join(a, b)`: `b`'s segments appended to `a`, with ".", "" and ".." normalised. */
  function Join(a: Path, b: Path): Path
  {
    Path(a.absolute, Append(a.segs, b.segs, a.absolute))
  }

  /** The length of the longest common prefix of `a` and `b`. */
  function CommonPrefix(a: seq<string>, b: seq<string>): (k: nat)
    ensures k <= |a| && k <= |b| && a[..k] == b[..k]
    ensures k < |a| && k < |b| ==> a[k] != b[k]
  {
    if a == [] || b == [] || a[0] != b[0] then 0
    else
      var k := CommonPrefix(a[1..], b[1..]);
      assert a[..k + 1] == [a[0]] + a[1..][..k];
      assert b[..k + 1] == [b[0]] + b[1..][..k];
      k + 1
  }

  function Ups(n: nat): seq<string>
  {
    if n == 0 then [] else [".."] + Ups(n - 1)
  }

  /** `path.relative(from, to)`: climb out of what `from` does not share with `to`, then
      descend into the rest of `to`. The result is relative; "" (equal paths) is ".". */
  function Relative(from: Path, to: Path): Path
  {
    var k := CommonPrefix(from.segs, to.segs);
    Path(false, Ups(|from.segs| - k) + to.segs[k..])
  }

  lemma {:induction false} AppendNames(acc: seq<string>, rest: seq<string>, absolute: bool)
    requires forall i :: 0 <= i < |rest| ==> IsName(rest[i])
    ensures Append(acc, rest, absolute) == acc + rest
    decreases |rest|
  {
    if rest != [] {
      AppendNames(acc + [rest[0]], rest[1..], absolute);
      assert acc + [rest[0]] + rest[1..] == acc + rest;
    }
  }

  /** Joining a normal path onto `a` concatenates the segments. */
  lemma JoinNormal(a: Path, b: Path)
    requires Normal(b)
    ensures Join(a, b) == Path(a.absolute, a.segs + b.segs)
  {
    AppendNames(a.segs, b.segs, a.absolute);
  }

  /** Joining a single name and taking the directory gives back the directory joined onto. */
  lemma DirnameJoinName(a: Path, s: string)
    requires IsName(s)
    ensures Dirname(Join(a, Seg(s))) == a
    ensures Basename(Join(a, Seg(s))) == s
  {
    JoinNormal(a, Seg(s));
    assert (a.segs + [s])[..|a.segs|] == a.segs;
  }

  /** `join(dirname(p), basename(p)) == p` for a normal path with at least one segment. */
  lemma JoinDirnameBasename(p: Path)
    requires Normal(p) && |p.segs| > 0
    ensures Join(Dirname(p), Seg(Basename(p))) == p
  {
    var n := |p.segs|;
    JoinNormal(Dirname(p), Seg(Basename(p)));
    assert p.segs[..n - 1] + [p.segs[n - 1]] == p.segs;
  }

  lemma {:induction false} AppendUps(c: seq<string>, x: seq<string>, y: seq<string>, absolute: bool)
    requires forall i :: 0 <= i < |c| + |x| ==> IsName((c + x)[i])
    requires forall i :: 0 <= i < |y| ==> IsName(y[i])
    ensures Append(c + x, Ups(|x|) + y, absolute) == c + y
    decreases |x|
  {
    if x == [] {
      assert c + x == c;
      assert Ups(0) + y == y;
      AppendNames(c, y, absolute);
    } else {
      var n := |x|;
      var rest := Ups(n - 1) + y;
      assert Ups(n) + y == [".."] + rest;
      assert (c + x)[|c + x| - 1] == x[n - 1];
      assert (c + x)[..|c + x| - 1] == c + x[..n - 1];
      assert Step(c + x, "..", absolute) == c + x[..n - 1];
      assert ([".."] + rest)[1..] == rest;
      assert forall i :: 0 <= i < |c| + (n - 1) ==> (c + x[..n - 1])[i] == (c + x)[i];
      AppendUps(c, x[..n - 1], y, absolute);
    }
  }

  /** Node's round trip `join(from, relative(from, to)) == to`, for normal paths of the same kind. */
  lemma JoinRelative(from: Path, to: Path)
    requires Normal(from) && Normal(to) && from.absolute == to.absolute
    ensures Join(from, Relative(from, to)) == to
  {
    var k := CommonPrefix(from.segs, to.segs);
    var c, x, y := from.segs[..k], from.segs[k..], to.segs[k..];
    RelativeSplit(from, to);
    NormalSuffix(to, k);
    AppendUps(c, x, y, from.absolute);
  }

  /** The shared prefix, and the two remainders `relative` climbs out of and descends into. */
  lemma RelativeSplit(from: Path, to: Path)
    ensures var k := CommonPrefix(from.segs, to.segs);
      && from.segs == from.segs[..k] + from.segs[k..]
      && to.segs == from.segs[..k] + to.segs[k..]
      && Relative(from, to) == Path(false, Ups(|from.segs[k..]|) + to.segs[k..])
  {
  }

  lemma NormalSuffix(p: Path, k: nat)
    requires Normal(p) && k <= |p.segs|
    ensures forall i :: 0 <= i < |p.segs[k..]| ==> IsName(p.segs[k..][i])
  {
    forall i | 0 <= i < |p.segs[k..]|
      ensures IsName(p.segs[k..][i])
    {
      assert p.segs[k..][i] == p.segs[k + i];
    }
  }

  /** Relative to ".", a normal relative path is itself. */
  lemma RelativeToDot(p: Path)
    requires !p.absolute
    ensures Relative(Dot, p) == p
  {
    assert p.segs[0..] == p.segs;
  }

  /** A path strictly below `from` is reached by descending into its remaining segments. */
  lemma RelativeBelow(from: Path, rest: seq<string>)
    ensures Relative(from, Path(from.absolute, from.segs + rest)) == Path(false, rest)
  {
    var to := from.segs + rest;
    var k := CommonPrefix(from.segs, to);
    assert k == |from.segs|;
    assert to[k..] == rest;
  }
}
