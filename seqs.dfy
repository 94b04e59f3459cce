/** Sequence helpers that mirror the JavaScript array operations the
    point-of-sale screen is built from: `findIndex`/`find`, `filter` and
    `slice`, plus the notion of an order-preserving subsequence. */
module Seqs {

  datatype Option<T> = None | Some(value: T)

  /** The index of the first element satisfying `p`, as `Array.prototype.findIndex`
      computes it (`None` stands for its -1). */
  function FindIndex<T>(s: seq<T>, p: T -> bool): (r: Option<nat>)
    ensures r.Some? ==> r.value < |s| && p(s[r.value])
    ensures r.Some? ==> forall j | 0 <= j < r.value :: !p(s[j])
    ensures r.None? ==> forall j | 0 <= j < |s| :: !p(s[j])
  {
    if s == [] then None
    else if p(s[0]) then Some(0)
    else match FindIndex(s[1..], p)
      case None => None
      case Some(k) => Some(k + 1)
  }

  /** The first match is the only index with the two properties FindIndex promises. */
  lemma FindIndexIs<T>(s: seq<T>, p: T -> bool, k: nat)
    requires k < |s| && p(s[k])
    requires forall j | 0 <= j < k :: !p(s[j])
    ensures FindIndex(s, p) == Some(k)
  {
  }

  /** `Array.prototype.filter`: the elements satisfying `p`, in their original order. */
  function Filter<T(==)>(s: seq<T>, p: T -> bool): (r: seq<T>)
    ensures |r| <= |s|
    ensures forall k | 0 <= k < |r| :: p(r[k])
    ensures forall k | 0 <= k < |s| && p(s[k]) :: s[k] in r
    ensures forall x | x in r :: x in s
  {
    if s == [] then []
    else (if p(s[0]) then [s[0]] else []) + Filter(s[1..], p)
  }

  /** `filter` keeps every occurrence of an element that satisfies the predicate
      and none of one that does not. */
  lemma {:induction false} FilterCount<T>(s: seq<T>, p: T -> bool, x: T)
    ensures multiset(Filter(s, p))[x] == if p(x) then multiset(s)[x] else 0
  {
    if s != [] {
      FilterCount(s[1..], p, x);
      assert s == [s[0]] + s[1..];
    }
  }

  lemma {:induction false} FilterAppend<T>(a: seq<T>, b: seq<T>, p: T -> bool)
    ensures Filter(a + b, p) == Filter(a, p) + Filter(b, p)
  {
    if a == [] {
      assert a + b == b;
    } else {
      assert (a + b)[1..] == a[1..] + b;
      FilterAppend(a[1..], b, p);
    }
  }

  /** Nothing passes a filter that no element satisfies. */
  lemma {:induction false} FilterNone<T>(s: seq<T>, p: T -> bool)
    requires forall k | 0 <= k < |s| :: !p(s[k])
    ensures Filter(s, p) == []
  {
    if s != [] {
      FilterNone(s[1..], p);
    }
  }

  /** `a` can be obtained from `b` by deleting elements, keeping the order of the rest. */
  predicate IsSubsequence<T(==)>(a: seq<T>, b: seq<T>)
    decreases |b|
  {
    a == [] || (b != [] && ((a[0] == b[0] && IsSubsequence(a[1..], b[1..])) || IsSubsequence(a, b[1..])))
  }

  lemma {:induction false} FilterIsSubsequence<T>(s: seq<T>, p: T -> bool)
    ensures IsSubsequence(Filter(s, p), s)
  {
    if s != [] {
      FilterIsSubsequence(s[1..], p);
      if p(s[0]) {
        assert Filter(s, p) == [s[0]] + Filter(s[1..], p);
        assert Filter(s, p)[1..] == Filter(s[1..], p);
      } else {
        assert Filter(s, p) == Filter(s[1..], p);
      }
    }
  }

  /** Clamps a `slice` bound as JavaScript does: a negative bound counts from the end. */
  function SliceBound(i: int, n: nat): (r: nat)
    ensures r <= n
    ensures 0 <= i ==> r == if i < n then i else n
    ensures i < 0 ==> r == if n + i < 0 then 0 else n + i
  {
    if i < 0 then (if n + i < 0 then 0 else n + i)
    else if i < n then i
    else n
  }

  /** `Array.prototype.slice(start, end)`. */
  function Slice<T>(s: seq<T>, start: int, end: int): (r: seq<T>)
    ensures start <= end ==> |r| <= end - start
    ensures 0 <= start ==> forall k | 0 <= k < |r| :: start + k < |s| && r[k] == s[start + k]
    ensures 0 <= start <= end <= |s| ==> r == s[start..end]
    ensures 0 <= start <= end ==> r == s[(if start < |s| then start else |s|)..(if end < |s| then end else |s|)]
  {
    var a, b := SliceBound(start, |s|), SliceBound(end, |s|);
    if a < b then s[a..b] else []
  }
}
