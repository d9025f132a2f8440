/** The two collection operations the list pages use: `Array.prototype.filter`
    (here `Retain`) and `Array.from(new Set(xs))` (here `Distinct`, which keeps
    the first occurrence of every value, in order). */
module Sequences {

  /** The elements of `s` that satisfy `p`, in their original order. */
  function Retain<T>(s: seq<T>, p: T -> bool): (r: seq<T>)
    ensures |r| <= |s|
  {
    if s == [] then []
    else
      var init := Retain(s[..|s| - 1], p);
      assert s == s[..|s| - 1] + [s[|s| - 1]];
      if p(s[|s| - 1]) then init + [s[|s| - 1]] else init
  }

  /** A filter's result holds exactly the elements of its input that
      satisfy the predicate. */
  lemma {:induction false} RetainMembers<T(!new)>(s: seq<T>, p: T -> bool)
    ensures forall x :: x in Retain(s, p) <==> x in s && p(x)
  {
    if s != [] {
      var init := s[..|s| - 1];
      var last := s[|s| - 1];
      assert s == init + [last];
      RetainSnoc(init, last, p);
      RetainMembers(init, p);
    }
  }

  /** `idx` picks the elements of `sub` out of `s`, at strictly increasing
      positions. */
  ghost predicate IsEmbedding<T>(idx: seq<nat>, sub: seq<T>, s: seq<T>)
  {
    && |idx| == |sub|
    && (forall k :: 0 <= k < |idx| ==> idx[k] < |s| && sub[k] == s[idx[k]])
    && (forall j, k :: 0 <= j < k < |idx| ==> idx[j] < idx[k])
  }

  /** `sub` is an order-preserving subsequence of `s`. */
  ghost predicate IsSubsequence<T>(sub: seq<T>, s: seq<T>)
  {
    exists idx :: IsEmbedding(idx, sub, s)
  }

  lemma RetainSnoc<T(!new)>(s: seq<T>, x: T, p: T -> bool)
    ensures Retain(s + [x], p) == Retain(s, p) + (if p(x) then [x] else [])
  {
    assert (s + [x])[..|s|] == s;
  }

  /** Filtering keeps the surviving elements in their original order. */
  lemma {:induction false} RetainIsSubsequence<T(!new)>(s: seq<T>, p: T -> bool)
    ensures IsSubsequence(Retain(s, p), s)
  {
    var idx := RetainedPositions(s, p);
  }

  /** The positions `Retain` keeps, as a witness of `RetainIsSubsequence`. */
  lemma {:induction false} RetainedPositions<T(!new)>(s: seq<T>, p: T -> bool) returns (idx: seq<nat>)
    ensures IsEmbedding(idx, Retain(s, p), s)
  {
    if s == [] {
      idx := [];
    } else {
      var init := s[..|s| - 1];
      var last := s[|s| - 1];
      var prev := RetainedPositions(init, p);
      assert s == init + [last];
      RetainSnoc(init, last, p);
      idx := EmbeddingSnoc(prev, Retain(init, p), init, last, p(last));
    }
  }

  /** An embedding into `s` is one into `s + [x]`, and extends by the new
      last position when `x` is appended to the subsequence as well. */
  lemma EmbeddingSnoc<T>(idx: seq<nat>, sub: seq<T>, s: seq<T>, x: T, keep: bool) returns (idx': seq<nat>)
    requires IsEmbedding(idx, sub, s)
    ensures IsEmbedding(idx', sub + (if keep then [x] else []), s + [x])
  {
    if keep {
      idx' := idx + [|s|];
      forall k | 0 <= k < |idx'|
        ensures idx'[k] < |s + [x]| && (sub + [x])[k] == (s + [x])[idx'[k]]
      {
        if k < |idx| {
          assert idx'[k] == idx[k];
        }
      }
    } else {
      idx' := idx;
      assert sub + [] == sub;
      forall k | 0 <= k < |idx|
        ensures (s + [x])[idx[k]] == s[idx[k]]
      {
      }
    }
  }

  /** Filtering twice with the same predicate changes nothing. */
  lemma {:induction false} RetainIdempotent<T(!new)>(s: seq<T>, p: T -> bool)
    ensures Retain(Retain(s, p), p) == Retain(s, p)
  {
    if s != [] {
      var init := s[..|s| - 1];
      var last := s[|s| - 1];
      assert s == init + [last];
      RetainSnoc(init, last, p);
      RetainIdempotent(init, p);
      if p(last) {
        RetainSnoc(Retain(init, p), last, p);
      }
    }
  }

  /** Two filters in a row are one filter by the conjunction. */
  lemma {:induction false} RetainFuse<T(!new)>(s: seq<T>, p: T -> bool, q: T -> bool, both: T -> bool)
    requires forall x :: both(x) == (p(x) && q(x))
    ensures Retain(Retain(s, p), q) == Retain(s, both)
  {
    if s != [] {
      var init := s[..|s| - 1];
      var last := s[|s| - 1];
      assert s == init + [last];
      RetainSnoc(init, last, p);
      RetainSnoc(init, last, both);
      RetainFuse(init, p, q, both);
      if p(last) {
        RetainSnoc(Retain(init, p), last, q);
      }
    }
  }

  /** Filters by predicates that agree everywhere give the same result. */
  lemma {:induction false} RetainCongruent<T(!new)>(s: seq<T>, p: T -> bool, q: T -> bool)
    requires forall x :: p(x) == q(x)
    ensures Retain(s, p) == Retain(s, q)
  {
    if s != [] {
      RetainCongruent(s[..|s| - 1], p, q);
    }
  }

  /** The order in which two filters are applied does not matter. */
  lemma RetainCommute<T(!new)>(s: seq<T>, p: T -> bool, q: T -> bool)
    ensures Retain(Retain(s, p), q) == Retain(Retain(s, q), p)
  {
    var both := x => p(x) && q(x);
    RetainFuse(s, p, q, both);
    RetainFuse(s, q, p, both);
  }

  predicate NoDuplicates<T(==)>(s: seq<T>)
  {
    forall i, j :: 0 <= i < j < |s| ==> s[i] != s[j]
  }

  /** The distinct values of `s`, each at the position of its first
      occurrence. */
  function Distinct<T(==,!new)>(s: seq<T>): (r: seq<T>)
    ensures NoDuplicates(r)
    ensures forall x :: x in r <==> x in s
    ensures |r| <= |s|
  {
    if s == [] then []
    else
      var init := Distinct(s[..|s| - 1]);
      var last := s[|s| - 1];
      assert s == s[..|s| - 1] + [last];
      if last in init then init else init + [last]
  }
}
