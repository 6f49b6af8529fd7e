/** Sequence operations with the semantics of the JavaScript array methods the app uses
    (`filter`, `findIndex`, `splice(i, 1)`, index assignment). */
module Seqs {
  import opened Options

  /** `a` can be obtained from `b` by deleting elements (order is preserved). */
  predicate IsSubsequence<T(==)>(a: seq<T>, b: seq<T>)
    decreases |b|
  {
    if a == [] then true
    else if b == [] then false
    else if a[0] == b[0] then IsSubsequence(a[1..], b[1..])
    else IsSubsequence(a, b[1..])
  }

  /** `xs.filter(keep)`: the elements that satisfy `keep`, in their original order. */
  function Filter<T>(xs: seq<T>, keep: T -> bool): (r: seq<T>)
    ensures |r| <= |xs|
    ensures forall i :: 0 <= i < |r| ==> keep(r[i]) && r[i] in xs
    ensures forall i :: 0 <= i < |xs| && keep(xs[i]) ==> xs[i] in r
  {
    if xs == [] then []
    else (if keep(xs[0]) then [xs[0]] else []) + Filter(xs[1..], keep)
  }

  /** Every sequence is a subsequence of itself. */
  lemma {:induction false} SubsequenceRefl<T>(xs: seq<T>)
    ensures IsSubsequence(xs, xs)
  {
    if xs != [] {
      SubsequenceRefl(xs[1..]);
    }
  }

  /** Filtering never reorders: the result is a subsequence of the input. */
  lemma {:induction false} FilterIsSubsequence<T>(xs: seq<T>, keep: T -> bool)
    ensures IsSubsequence(Filter(xs, keep), xs)
  {
    if xs != [] {
      FilterIsSubsequence(xs[1..], keep);
      if keep(xs[0]) {
        assert Filter(xs, keep) == [xs[0]] + Filter(xs[1..], keep);
        assert Filter(xs, keep)[1..] == Filter(xs[1..], keep);
      } else {
        assert Filter(xs, keep) == Filter(xs[1..], keep);
        SubsequenceOfTail(Filter(xs[1..], keep), xs);
      }
    }
  }

  /** Filtering keeps exactly one element when exactly one position passes. */
  lemma {:induction false} FilterSingle<T>(xs: seq<T>, keep: T -> bool, k: nat)
    requires k < |xs| && keep(xs[k])
    requires forall j :: 0 <= j < |xs| && j != k ==> !keep(xs[j])
    ensures Filter(xs, keep) == [xs[k]]
  {
    if k == 0 {
      FilterNone(xs[1..], keep);
    } else {
      FilterSingle(xs[1..], keep, k - 1);
    }
  }

  /** Filtering keeps nothing when no element passes. */
  lemma {:induction false} FilterNone<T>(xs: seq<T>, keep: T -> bool)
    requires forall j :: 0 <= j < |xs| ==> !keep(xs[j])
    ensures Filter(xs, keep) == []
  {
    if xs != [] {
      FilterNone(xs[1..], keep);
    }
  }

  /** Filtering keeps everything when every element passes. */
  lemma {:induction false} FilterAll<T>(xs: seq<T>, keep: T -> bool)
    requires forall j :: 0 <= j < |xs| ==> keep(xs[j])
    ensures Filter(xs, keep) == xs
  {
    if xs != [] {
      FilterAll(xs[1..], keep);
      assert [xs[0]] + xs[1..] == xs;
    }
  }

  /** A subsequence of the tail of `b` is a subsequence of `b`. */
  lemma {:induction false} SubsequenceOfTail<T>(a: seq<T>, b: seq<T>)
    requires b != []
    requires IsSubsequence(a, b[1..])
    ensures IsSubsequence(a, b)
    decreases |b|, |a|
  {
    if a != [] && a[0] == b[0] {
      // b[1..] matched a[0] somewhere; so a[1..] is a subsequence of a suffix of b[1..]
      SubsequenceDropHead(a, b[1..]);
    }
  }

  /** If `a` (non-empty) is a subsequence of `b`, then so is `a[1..]`. */
  lemma {:induction false} SubsequenceDropHead<T>(a: seq<T>, b: seq<T>)
    requires a != []
    requires IsSubsequence(a, b)
    ensures IsSubsequence(a[1..], b)
    decreases |b|, |a|
  {
    assert b != [];
    if a[0] == b[0] {
      SubsequenceOfTail(a[1..], b);
    } else {
      SubsequenceDropHead(a, b[1..]);
      SubsequenceOfTail(a[1..], b);
    }
  }

  /** `xs.findIndex(p)`: the first position whose element satisfies `p`. */
  function FirstIndex<T>(xs: seq<T>, p: T -> bool): (r: Option<nat>)
    ensures r.Some? ==> r.value < |xs| && p(xs[r.value])
    ensures r.Some? ==> forall j :: 0 <= j < r.value ==> !p(xs[j])
    ensures r.None? ==> forall j :: 0 <= j < |xs| ==> !p(xs[j])
  {
    if xs == [] then None
    else if p(xs[0]) then Some(0)
    else match FirstIndex(xs[1..], p)
      case None => None
      case Some(k) => Some(k + 1)
  }

  /** `const i = xs.findIndex(p); if (i !== -1) xs[i] = v;` */
  function ReplaceFirst<T>(xs: seq<T>, p: T -> bool, v: T): (r: seq<T>)
    ensures |r| == |xs|
    ensures forall j :: 0 <= j < |xs| && (exists i :: 0 <= i < j && p(xs[i])) ==> r[j] == xs[j]
    ensures forall j :: 0 <= j < |xs| && !p(xs[j]) ==> r[j] == xs[j]
    ensures forall j :: 0 <= j < |xs| && p(xs[j]) && (forall i :: 0 <= i < j ==> !p(xs[i])) ==> r[j] == v
  {
    match FirstIndex(xs, p)
    case None => xs
    case Some(k) => xs[k := v]
  }

  /** Where `splice(i, 1)` starts: a negative index counts back from the end, and the start is
      clamped into [0, len]. */
  function SpliceStart(len: nat, i: int): (s: nat)
    ensures s <= len
    ensures 0 <= i <= len ==> s == i
  {
    if i < 0 then (if len + i < 0 then 0 else len + i)
    else if i > len then len
    else i
  }

  /** A copy of `xs` after `splice(i, 1)`. */
  function RemoveAt<T>(xs: seq<T>, i: int): (r: seq<T>)
    ensures 0 <= i < |xs| ==> |r| == |xs| - 1
    ensures 0 <= i < |xs| ==> forall j :: 0 <= j < i ==> r[j] == xs[j]
    ensures 0 <= i < |xs| ==> forall j :: i <= j < |r| ==> r[j] == xs[j + 1]
    ensures i >= |xs| ==> r == xs
    ensures |r| == |xs| || |r| == |xs| - 1
  {
    var s := SpliceStart(|xs|, i);
    if s < |xs| then xs[..s] + xs[s + 1..] else xs
  }

  /** `xs.some(p)` */
  predicate Exists<T>(xs: seq<T>, p: T -> bool) {
    exists i :: 0 <= i < |xs| && p(xs[i])
  }
}
