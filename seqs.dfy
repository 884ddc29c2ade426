/** Option/Result wrappers and the order-preserving filter that every `Array.prototype.filter`
    of the extension is modelled by. */
module Seqs {

  datatype Option<+T> = None | Some(value: T)

  datatype Result<+T, +E> = Ok(value: T) | Err(error: E)

  /** `r` is obtained from `s` by deleting elements, keeping the order of the rest. */
  predicate IsSubsequence<T(==)>(r: seq<T>, s: seq<T>)
    decreases |s|
  {
    if r == [] then true
    else if s == [] then false
    else if r[0] == s[0] then IsSubsequence(r[1..], s[1..])
    else IsSubsequence(r, s[1..])
  }

  /** JavaScript's `s.filter(f)`. */
  function Filter<T(==)>(s: seq<T>, f: T -> bool): (r: seq<T>)
    ensures |r| <= |s|
    ensures forall i :: 0 <= i < |r| ==> f(r[i])
    ensures IsSubsequence(r, s)
  {
    if s == [] then []
    else
      var rest := Filter(s[1..], f);
      if f(s[0]) then
        assert ([s[0]] + rest)[1..] == rest;
        [s[0]] + rest
      else
        SubsequenceDropHead(rest, s);
        rest
  }

  lemma {:induction false} SubsequenceDropHead<T>(r: seq<T>, s: seq<T>)
    requires s != [] && IsSubsequence(r, s[1..])
    ensures IsSubsequence(r, s)
    decreases |s|, 0
  {
    if r != [] && r[0] == s[0] {
      // s[1..] is non-empty because r is a subsequence of it
      assert s[1..] != [];
      SubsequenceTail(r, s[1..]);
    }
  }

  /** Dropping the head of a subsequence keeps it a subsequence. */
  lemma {:induction false} SubsequenceTail<T>(r: seq<T>, s: seq<T>)
    requires r != [] && IsSubsequence(r, s)
    ensures IsSubsequence(r[1..], s)
    decreases |s|, 1
  {
    assert s != [];
    if r[0] == s[0] {
      SubsequenceDropHead(r[1..], s);
    } else {
      SubsequenceTail(r, s[1..]);
      SubsequenceDropHead(r[1..], s);
    }
  }

  /** An element is kept by a filter exactly when it occurs in `s` and satisfies `f`. */
  lemma {:induction false} FilterMembership<T>(s: seq<T>, f: T -> bool)
    ensures forall x :: x in Filter(s, f) <==> x in s && f(x)
  {
    if s != [] {
      FilterMembership(s[1..], f);
      assert s == [s[0]] + s[1..];
      var rest := Filter(s[1..], f);
      assert Filter(s, f) == if f(s[0]) then [s[0]] + rest else rest;
    }
  }

  /** A filter keeps every copy of an element that satisfies `f`, and none of the others. */
  lemma {:induction false} FilterCounts<T>(s: seq<T>, f: T -> bool)
    ensures forall x :: multiset(Filter(s, f))[x] == if f(x) then multiset(s)[x] else 0
  {
    if s != [] {
      FilterCounts(s[1..], f);
      assert s == [s[0]] + s[1..];
      var rest := Filter(s[1..], f);
      assert Filter(s, f) == if f(s[0]) then [s[0]] + rest else rest;
    }
  }

  /** The first element of a filter is the first element of `s` that satisfies `f`. */
  lemma {:induction false} FilterFirst<T>(s: seq<T>, f: T -> bool, i: nat)
    requires i < |s| && f(s[i])
    requires forall j :: 0 <= j < i ==> !f(s[j])
    ensures |Filter(s, f)| > 0 && Filter(s, f)[0] == s[i]
  {
    if i > 0 {
      forall j | 0 <= j < i - 1
        ensures !f(s[1..][j])
      {
        assert s[1..][j] == s[j + 1];
      }
      FilterFirst(s[1..], f, i - 1);
      assert !f(s[0]) && s[1..][i - 1] == s[i];
      assert Filter(s, f) == Filter(s[1..], f);
    } else {
      assert Filter(s, f) == [s[0]] + Filter(s[1..], f);
    }
  }

  /** Two filters where the first predicate implies the second: the first result is a
      subsequence of the second. */
  lemma {:induction false} FilterMonotone<T>(s: seq<T>, f: T -> bool, g: T -> bool)
    requires forall x :: f(x) ==> g(x)
    ensures IsSubsequence(Filter(s, f), Filter(s, g))
  {
    if s != [] {
      FilterMonotone(s[1..], f, g);
      var rf, rg := Filter(s[1..], f), Filter(s[1..], g);
      assert Filter(s, f) == (if f(s[0]) then [s[0]] + rf else rf);
      assert Filter(s, g) == (if g(s[0]) then [s[0]] + rg else rg);
      if f(s[0]) {
        assert ([s[0]] + rf)[1..] == rf;
        assert ([s[0]] + rg)[1..] == rg;
      } else if g(s[0]) {
        assert ([s[0]] + rg)[1..] == rg;
        SubsequenceDropHead(rf, [s[0]] + rg);
      }
    }
  }

  /** Filters with predicates that agree on every element of `s` give the same result. */
  lemma {:induction false} FilterCongruent<T>(s: seq<T>, f: T -> bool, g: T -> bool)
    requires forall i :: 0 <= i < |s| ==> f(s[i]) == g(s[i])
    ensures Filter(s, f) == Filter(s, g)
  {
    if s != [] {
      FilterCongruent(s[1..], f, g);
    }
  }

  /** Filtering distributes over concatenation. */
  lemma {:induction false} FilterAppend<T>(a: seq<T>, b: seq<T>, f: T -> bool)
    ensures Filter(a + b, f) == Filter(a, f) + Filter(b, f)
  {
    if a == [] {
      assert a + b == b;
    } else {
      assert (a + b)[1..] == a[1..] + b;
      FilterAppend(a[1..], b, f);
    }
  }

  /** Concatenation of a sequence of sequences. */
  function Flatten<T>(ss: seq<seq<T>>): seq<T>
  {
    if ss == [] then [] else ss[0] + Flatten(ss[1..])
  }

  /** Sum of the lengths of a sequence of sequences. */
  function SumLengths<T>(ss: seq<seq<T>>): nat
  {
    if ss == [] then 0 else |ss[0]| + SumLengths(ss[1..])
  }

  lemma {:induction false} FlattenLength<T>(ss: seq<seq<T>>)
    ensures |Flatten(ss)| == SumLengths(ss)
  {
    if ss != [] {
      FlattenLength(ss[1..]);
    }
  }

  /** Joins strings with a separator, as JavaScript's `Array.prototype.join`. */
  function JoinStrings(parts: seq<string>, sep: string): string
  {
    if parts == [] then ""
    else if |parts| == 1 then parts[0]
    else parts[0] + sep + JoinStrings(parts[1..], sep)
  }

  /** The error `Promise.all` rejects with when every promise settles at once: the first
      error in order, `None` when all succeed. */
  function FirstError<T, E>(rs: seq<Result<T, E>>): Option<E>
  {
    if rs == [] then None
    else if rs[0].Err? then Some(rs[0].error)
    else FirstError(rs[1..])
  }

  /** There is no error exactly when every result is a success, and a reported error is the
      first failure in order. */
  lemma {:induction false} FirstErrorIsFirst<T, E>(rs: seq<Result<T, E>>)
    ensures FirstError(rs).None? <==> forall i :: 0 <= i < |rs| ==> rs[i].Ok?
    ensures FirstError(rs).Some? ==> exists i :: 0 <= i < |rs| && rs[i].Err? && rs[i].error == FirstError(rs).value
                                       && forall j :: 0 <= j < i ==> rs[j].Ok?
  {
    if rs != [] && rs[0].Ok? {
      FirstErrorIsFirst(rs[1..]);
      if FirstError(rs).Some? {
        var i :| 0 <= i < |rs[1..]| && rs[1..][i].Err? && rs[1..][i].error == FirstError(rs).value
                 && forall j :: 0 <= j < i ==> rs[1..][j].Ok?;
        assert rs[i + 1] == rs[1..][i];
        assert forall j :: 1 <= j < i + 1 ==> rs[j] == rs[1..][j - 1];
      }
    }
  }

  /** Settling one more promise: the first error so far stays first. */
  lemma {:induction false} FirstErrorSnoc<T, E>(rs: seq<Result<T, E>>, r: Result<T, E>)
    ensures FirstError(rs + [r]) == if FirstError(rs).Some? then FirstError(rs) else if r.Err? then Some(r.error) else None
  {
    if rs != [] {
      assert (rs + [r])[1..] == rs[1..] + [r];
      FirstErrorSnoc(rs[1..], r);
    } else {
      assert rs + [r] == [r];
    }
  }

  /** The first error of a growing prefix. */
  lemma FirstErrorPrefixStep<T, E>(rs: seq<Result<T, E>>, i: nat)
    requires i < |rs|
    ensures FirstError(rs[..i + 1]) ==
      if FirstError(rs[..i]).Some? then FirstError(rs[..i]) else if rs[i].Err? then Some(rs[i].error) else None
  {
    assert rs[..i + 1] == rs[..i] + [rs[i]];
    FirstErrorSnoc(rs[..i], rs[i]);
  }
}
