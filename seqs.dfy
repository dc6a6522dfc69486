/**
 * Sequence operations the handlers rely on: the store's "first match" lookup,
 * query filters, descending sorts and JavaScript's `Array.prototype.slice`.
 */
module Seqs {
  import opened Wrappers

  function Min(a: int, b: int): int {
    if a <= b then a else b
  }

  /**
   * Index of the first element satisfying `p`: what `findOne` returns
   * when it scans a collection in its natural order.
   */
  function FindFirst<T>(s: seq<T>, p: T -> bool): (r: Option<nat>)
    ensures r.Some? ==> r.value < |s| && p(s[r.value])
    ensures r.Some? ==> forall j :: 0 <= j < r.value ==> !p(s[j])
    ensures r.None? <==> forall j :: 0 <= j < |s| ==> !p(s[j])
  {
    if |s| == 0 then None
    else if p(s[0]) then Some(0)
    else
      match FindFirst(s[1..], p)
      case None => None
      case Some(k) => Some(k + 1)
  }

  /** Lookups with predicates that agree on every element of `s` find the same position. */
  lemma {:induction false} FindFirstAgrees<T>(s: seq<T>, p: T -> bool, q: T -> bool)
    requires forall i :: 0 <= i < |s| ==> p(s[i]) == q(s[i])
    ensures FindFirst(s, p) == FindFirst(s, q)
  {
    if |s| > 0 && !p(s[0]) {
      FindFirstAgrees(s[1..], p, q);
    }
  }

  /** The elements satisfying `p`, in their original order: a `find(query)`. */
  function Filter<T(!new)>(s: seq<T>, p: T -> bool): (r: seq<T>)
    ensures |r| <= |s|
    ensures forall i :: 0 <= i < |r| ==> p(r[i])
    ensures forall x :: x in r <==> x in s && p(x)
    ensures multiset(r) <= multiset(s)
  {
    if s == [] then []
    else
      var rest := Filter(s[1..], p);
      assert s == [s[0]] + s[1..];
      if p(s[0]) then
        assert multiset([s[0]] + rest) == multiset{s[0]} + multiset(rest);
        [s[0]] + rest
      else
        rest
  }

  /** `s` is ordered by `key`, largest first: a `sort({ key: -1 })`. */
  ghost predicate SortedDesc<T>(s: seq<T>, key: T -> int) {
    forall i, j :: 0 <= i < j < |s| ==> key(s[i]) >= key(s[j])
  }

  /** Inserts `x` before the first element whose key does not exceed its own. */
  function InsertDesc<T>(x: T, s: seq<T>, key: T -> int): (r: seq<T>)
    requires SortedDesc(s, key)
    ensures SortedDesc(r, key)
    ensures multiset(r) == multiset(s) + multiset{x}
    ensures |r| == |s| + 1
  {
    if s == [] || key(x) >= key(s[0]) then
      ConsSorted(x, s, key);
      [x] + s
    else
      var rest := InsertDesc(x, s[1..], key);
      assert s == [s[0]] + s[1..];
      HeadDominates(s[0], s[1..], x, rest, key);
      assert multiset([s[0]] + rest) == multiset(s) + multiset{x};
      [s[0]] + rest
  }

  /** An element whose key is at least the head's can be put in front of a sorted sequence. */
  lemma ConsSorted<T>(h: T, s: seq<T>, key: T -> int)
    requires SortedDesc(s, key)
    requires s == [] || key(h) >= key(s[0])
    ensures SortedDesc([h] + s, key)
  {
    var r := [h] + s;
    forall i, j | 0 <= i < j < |r|
      ensures key(r[i]) >= key(r[j])
    {
      assert r[j] == s[j - 1];
      if i > 0 {
        assert r[i] == s[i - 1];
      } else if j > 1 {
        assert key(s[0]) >= key(s[j - 1]);
      }
    }
  }

  /**
   * An element whose key bounds both `s` and `x` heads a sorted rearrangement
   * of `s + [x]`.
   */
  lemma HeadDominates<T>(h: T, s: seq<T>, x: T, rest: seq<T>, key: T -> int)
    requires forall k :: 0 <= k < |s| ==> key(h) >= key(s[k])
    requires key(h) >= key(x)
    requires multiset(rest) == multiset(s) + multiset{x}
    requires SortedDesc(rest, key)
    ensures SortedDesc([h] + rest, key)
  {
    forall k | 0 <= k < |rest|
      ensures key(h) >= key(rest[k])
    {
      assert rest[k] in multiset(rest);
      assert rest[k] in multiset(s) || rest[k] == x;
    }
    var r := [h] + rest;
    forall i, j | 0 <= i < j < |r|
      ensures key(r[i]) >= key(r[j])
    {
      assert r[j] == rest[j - 1];
      if i > 0 {
        assert r[i] == rest[i - 1];
      }
    }
  }

  /**
   * A stable descending sort by `key`: elements with equal keys keep their
   * order, so ties come out in collection order.
   */
  function SortDesc<T>(s: seq<T>, key: T -> int): (r: seq<T>)
    ensures SortedDesc(r, key)
    ensures multiset(r) == multiset(s)
    ensures |r| == |s|
  {
    if s == [] then []
    else
      assert s == [s[0]] + s[1..];
      InsertDesc(s[0], SortDesc(s[1..], key), key)
  }

  /** The last `min(n, |s|)` elements of `s`. */
  function Last<T>(s: seq<T>, n: nat): (r: seq<T>)
    ensures |r| == Min(n, |s|)
    ensures r == s[|s| - |r|..]
  {
    s[|s| - Min(n, |s|)..]
  }

  /**
   * JavaScript's `s.slice(start)`: a negative start counts from the end and is
   * clamped at the front, a non-negative one is clamped at the back.
   */
  function JsSlice<T>(s: seq<T>, start: int): (r: seq<T>)
    ensures start < 0 ==> r == Last(s, -start)
    ensures 0 <= start <= |s| ==> r == s[start..]
    ensures start >= |s| ==> r == []
  {
    if start < 0 then
      (if |s| + start < 0 then s else s[|s| + start..])
    else if start <= |s| then s[start..]
    else []
  }

  /** Taking the last `n` twice, with more elements appended between, loses nothing. */
  lemma {:induction false} LastOfLast<T>(a: seq<T>, b: seq<T>, n: nat)
    ensures Last(Last(a, n) + b, n) == Last(a + b, n)
  {
    var a' := Last(a, n);
    var lhs := Last(a' + b, n);
    var rhs := Last(a + b, n);
    assert |lhs| == |rhs|;
    forall k | 0 <= k < |lhs|
      ensures lhs[k] == rhs[k]
    {
      var i := |a' + b| - |lhs| + k;
      var j := |a + b| - |rhs| + k;
      assert lhs[k] == (a' + b)[i];
      assert rhs[k] == (a + b)[j];
      if i < |a'| {
        assert (a' + b)[i] == a'[i] == a[|a| - |a'| + i];
        assert j == |a| - |a'| + i;
      } else {
        assert (a' + b)[i] == b[i - |a'|];
        assert j - |a| == i - |a'|;
      }
    }
  }

  /** `s` without its `k`-th element. */
  function RemoveAt<T>(s: seq<T>, k: nat): (r: seq<T>)
    requires k < |s|
    ensures |r| == |s| - 1
    ensures forall i :: 0 <= i < k ==> r[i] == s[i]
    ensures forall i :: k <= i < |r| ==> r[i] == s[i + 1]
  {
    s[..k] + s[k + 1..]
  }

  /** No value occurs twice. */
  predicate NoDuplicates<T(==)>(s: seq<T>) {
    forall i, j :: 0 <= i < j < |s| ==> s[i] != s[j]
  }

  /** Appends `x` only when it is not already present, like `if (!a.includes(x)) a.push(x)`. */
  function AddOnce<T(==,!new)>(s: seq<T>, x: T): (r: seq<T>)
    ensures x in r
    ensures forall y :: y in r <==> y in s || y == x
    ensures NoDuplicates(s) ==> NoDuplicates(r)
    ensures x in s ==> r == s
    ensures x !in s ==> r == s + [x]
  {
    if x in s then s else s + [x]
  }

  /** In a duplicate-free sequence that contains `x`, `x` occurs exactly once. */
  lemma {:induction false} OccursOnce<T>(s: seq<T>, x: T)
    requires NoDuplicates(s) && x in s
    ensures multiset(s)[x] == 1
  {
    assert s == [s[0]] + s[1..];
    if s[0] == x {
      assert x !in s[1..];
      assert multiset(s[1..])[x] == 0;
    } else {
      OccursOnce(s[1..], x);
    }
  }
}
