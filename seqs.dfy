/**
 * Stable filtering of sequences, the shape of JavaScript's `Array.prototype.filter`. The
 * product search, delete-by-id and the transfer picker's two lists are instances; the
 * `filter(Boolean)` of `cn` also unwraps the strings it keeps and is `Dashboard.Kept`.
 */
module Seqs {

  /** `r` can be obtained from `s` by deleting elements, keeping the relative order. */
  predicate IsSubsequence<T(==)>(r: seq<T>, s: seq<T>)
    decreases |s|
  {
    if r == [] then true
    else if s == [] then false
    else (r[0] == s[0] && IsSubsequence(r[1..], s[1..])) || IsSubsequence(r, s[1..])
  }

  /** No element occurs twice. */
  predicate Distinct<T(==)>(s: seq<T>) {
    forall i, j :: 0 <= i < j < |s| ==> s[i] != s[j]
  }

  /** `s.filter(keep)`: the elements of `s` that `keep` accepts, in their original order. */
  function Filter<T(==,!new)>(s: seq<T>, keep: T -> bool): (r: seq<T>)
    ensures |r| <= |s|
    ensures forall x :: x in r <==> x in s && keep(x)
    ensures forall x :: multiset(r)[x] == if keep(x) then multiset(s)[x] else 0
  {
    if s == [] then []
    else
      var rest := Filter(s[1..], keep);
      assert s == [s[0]] + s[1..];
      if keep(s[0]) then [s[0]] + rest else rest
  }

  /** The survivors of one element: the element itself if it is kept. */
  function Keep1<T>(x: T, keep: T -> bool): seq<T> {
    if keep(x) then [x] else []
  }

  /** Filtering a sequence with a given first element. */
  lemma FilterCons<T(!new)>(x: T, s: seq<T>, keep: T -> bool)
    ensures Filter([x] + s, keep) == Keep1(x, keep) + Filter(s, keep)
  {
    assert ([x] + s)[1..] == s;
  }

  /** A filter over five elements, spelled out. */
  lemma FilterOfFive<T(!new)>(a: T, b: T, c: T, d: T, e: T, keep: T -> bool)
    ensures Filter([a, b, c, d, e], keep) == Keep1(a, keep) + (Keep1(b, keep) + (Keep1(c, keep) + (Keep1(d, keep) + Keep1(e, keep))))
  {
    var s4 := [e];
    var s3 := [d] + s4;
    var s2 := [c] + s3;
    var s1 := [b] + s2;
    assert [a, b, c, d, e] == [a] + s1;
    FilterCons(e, [], keep);
    assert s4 == [e] + [];
    assert Filter(s4, keep) == Keep1(e, keep);
    FilterCons(d, s4, keep);
    FilterCons(c, s3, keep);
    FilterCons(b, s2, keep);
    FilterCons(a, s1, keep);
  }

  /** Filtering distributes over concatenation. */
  lemma {:induction false} FilterAppend<T(!new)>(a: seq<T>, b: seq<T>, keep: T -> bool)
    ensures Filter(a + b, keep) == Filter(a, keep) + Filter(b, keep)
  {
    if a == [] {
      assert a + b == b;
      assert Filter(a, keep) == [];
    } else {
      var x, tail := a[0], a[1..];
      assert a == [x] + tail;
      assert a + b == [x] + (tail + b);
      calc {
        Filter(a + b, keep);
        { FilterCons(x, tail + b, keep); }
        Keep1(x, keep) + Filter(tail + b, keep);
        { FilterAppend(tail, b, keep); }
        Keep1(x, keep) + (Filter(tail, keep) + Filter(b, keep));
        (Keep1(x, keep) + Filter(tail, keep)) + Filter(b, keep);
        { FilterCons(x, tail, keep); }
        Filter([x] + tail, keep) + Filter(b, keep);
      }
    }
  }

  /** Filtering keeps the survivors in the order they had. */
  lemma {:induction false} FilterIsSubsequence<T(!new)>(s: seq<T>, keep: T -> bool)
    ensures IsSubsequence(Filter(s, keep), s)
  {
    if s != [] {
      FilterIsSubsequence(s[1..], keep);
      var rest := Filter(s[1..], keep);
      if keep(s[0]) {
        assert Filter(s, keep) == [s[0]] + rest;
        assert ([s[0]] + rest)[1..] == rest;
      } else {
        assert Filter(s, keep) == rest;
      }
    }
  }

  /** A filter that accepts every element returns its input unchanged, and only then. */
  lemma FilterKeepsAllIff<T(!new)>(s: seq<T>, keep: T -> bool)
    ensures Filter(s, keep) == s <==> forall x :: x in s ==> keep(x)
  {
    // the converse comes from the membership clause of `Filter`
    if forall x :: x in s ==> keep(x) {
      FilterKeepsAll(s, keep);
    }
  }

  /** A filter that accepts every element returns its input unchanged. */
  lemma {:induction false} FilterKeepsAll<T(!new)>(s: seq<T>, keep: T -> bool)
    requires forall x :: x in s ==> keep(x)
    ensures Filter(s, keep) == s
  {
    if s != [] {
      assert s[0] in s;
      assert forall x :: x in s[1..] ==> x in s;
      FilterKeepsAll(s[1..], keep);
      assert s == [s[0]] + s[1..];
    }
  }

  /** Filtering twice with the same predicate is filtering once. */
  lemma FilterIdempotent<T(!new)>(s: seq<T>, keep: T -> bool)
    ensures Filter(Filter(s, keep), keep) == Filter(s, keep)
  {
    FilterKeepsAllIff(Filter(s, keep), keep);
  }

  /** Two filters may be applied in either order. */
  lemma {:induction false} FilterCommutes<T(!new)>(s: seq<T>, a: T -> bool, b: T -> bool)
    ensures Filter(Filter(s, a), b) == Filter(Filter(s, b), a)
  {
    if s != [] {
      FilterCommutes(s[1..], a, b);
    }
  }

  /** A filter with a weaker predicate keeps a superset, still in order. */
  lemma {:induction false} FilterWeakerIsSupersequence<T(!new)>(s: seq<T>, strong: T -> bool, weak: T -> bool)
    requires forall x :: x in s && strong(x) ==> weak(x)
    ensures IsSubsequence(Filter(s, strong), Filter(s, weak))
  {
    if s != [] {
      assert forall x :: x in s[1..] ==> x in s;
      FilterWeakerIsSupersequence(s[1..], strong, weak);
      var rs, rw := Filter(s[1..], strong), Filter(s[1..], weak);
      if strong(s[0]) {
        assert Filter(s, strong) == [s[0]] + rs && Filter(s, weak) == [s[0]] + rw;
        assert ([s[0]] + rs)[1..] == rs && ([s[0]] + rw)[1..] == rw;
      } else if weak(s[0]) {
        assert Filter(s, weak) == [s[0]] + rw;
        SubsequenceOfTail(Filter(s, strong), s[0], rw);
      }
    }
  }

  /** Prepending an element to the larger sequence keeps a subsequence a subsequence. */
  lemma SubsequenceOfTail<T(!new)>(r: seq<T>, x: T, s: seq<T>)
    requires IsSubsequence(r, s)
    ensures IsSubsequence(r, [x] + s)
  {
    assert ([x] + s)[1..] == s;
  }

  /** Filters whose predicates agree on every element give the same result. */
  lemma {:induction false} FilterAgreeing<T(!new)>(s: seq<T>, a: T -> bool, b: T -> bool)
    requires forall x :: x in s ==> a(x) == b(x)
    ensures Filter(s, a) == Filter(s, b)
  {
    if s != [] {
      assert forall x :: x in s[1..] ==> x in s;
      FilterAgreeing(s[1..], a, b);
    }
  }

  /** A prefix one longer is the shorter prefix followed by the next element. */
  lemma PrefixSnoc<T>(s: seq<T>, j: nat)
    requires j < |s|
    ensures s[..j + 1] == s[..j] + [s[j]]
  {
  }
}
