/**
 * Order-preserving selection from a sequence: the model of JavaScript's
 * `Array.prototype.filter`, which the handlers use to narrow and to delete.
 */
module Sequences {

  /** The elements of `s` that satisfy `p`, in their original order. */
  function Keep<T(!new)>(s: seq<T>, p: T -> bool): (r: seq<T>)
    ensures |r| <= |s|
  {
    if s == [] then []
    else (if p(s[0]) then [s[0]] else []) + Keep(s[1..], p)
  }

  /** An element is kept iff it occurs in `s` and satisfies `p`. */
  lemma {:induction false} KeepMembers<T(!new)>(s: seq<T>, p: T -> bool)
    ensures forall x :: x in Keep(s, p) <==> x in s && p(x)
  {
    if s != [] {
      KeepMembers(s[1..], p);
      assert s == [s[0]] + s[1..];
    }
  }

  /** Filtering keeps each satisfying element exactly as often as it occurs, and no other. */
  lemma {:induction false} KeepCounts<T(!new)>(s: seq<T>, p: T -> bool)
    ensures forall x :: multiset(Keep(s, p))[x] == if p(x) then multiset(s)[x] else 0
  {
    if s != [] {
      KeepCounts(s[1..], p);
      assert s == [s[0]] + s[1..];
    }
  }

  /** The elements of `s` whose flag in `mask` is set, in order. */
  function Pick<T>(s: seq<T>, mask: seq<bool>): seq<T>
    requires |mask| == |s|
  {
    if s == [] then []
    else (if mask[0] then [s[0]] else []) + Pick(s[1..], mask[1..])
  }

  /** `a` is obtained from `s` by deleting some elements and keeping the order of the rest. */
  ghost predicate IsSubsequence<T>(a: seq<T>, s: seq<T>) {
    exists mask: seq<bool> :: |mask| == |s| && Pick(s, mask) == a
  }

  /** The mask that `Keep` applies to `s`. */
  lemma {:induction false} KeepMask<T(!new)>(s: seq<T>, p: T -> bool) returns (mask: seq<bool>)
    ensures |mask| == |s| && Pick(s, mask) == Keep(s, p)
  {
    if s == [] {
      mask := [];
    } else {
      var rest := KeepMask(s[1..], p);
      mask := [p(s[0])] + rest;
      assert mask[1..] == rest;
    }
  }

  /** Filtering never reorders: its result is a subsequence of its input. */
  lemma KeepIsSubsequence<T(!new)>(s: seq<T>, p: T -> bool)
    ensures IsSubsequence(Keep(s, p), s)
  {
    var mask := KeepMask(s, p);
  }

  /** Filtering with a predicate that every element satisfies is the identity. */
  lemma {:induction false} KeepAll<T(!new)>(s: seq<T>, p: T -> bool)
    requires forall i :: 0 <= i < |s| ==> p(s[i])
    ensures Keep(s, p) == s
  {
    if s != [] {
      KeepAll(s[1..], p);
    }
  }

  /** Two predicates that agree on every element of `s` filter it alike. */
  lemma {:induction false} KeepSame<T(!new)>(s: seq<T>, p: T -> bool, q: T -> bool)
    requires forall i :: 0 <= i < |s| ==> p(s[i]) == q(s[i])
    ensures Keep(s, p) == Keep(s, q)
  {
    if s != [] {
      KeepSame(s[1..], p, q);
    }
  }

  /** Filtering distributes over concatenation. */
  lemma {:induction false} KeepAppend<T(!new)>(a: seq<T>, b: seq<T>, p: T -> bool)
    ensures Keep(a + b, p) == Keep(a, p) + Keep(b, p)
  {
    if a == [] {
      assert a + b == b;
    } else {
      var head := if p(a[0]) then [a[0]] else [];
      assert (a + b)[0] == a[0];
      assert (a + b)[1..] == a[1..] + b;
      assert Keep(a + b, p) == head + Keep(a[1..] + b, p);
      KeepAppend(a[1..], b, p);
      assert Keep(a, p) == head + Keep(a[1..], p);
    }
  }

  /**
   * Two filters in a row are one filter by the conjunction of their predicates,
   * given as `both`.
   */
  lemma {:induction false} KeepKeep<T(!new)>(s: seq<T>, p: T -> bool, q: T -> bool, both: T -> bool)
    requires forall i :: 0 <= i < |s| ==> both(s[i]) == (p(s[i]) && q(s[i]))
    ensures Keep(Keep(s, p), q) == Keep(s, both)
  {
    if s != [] {
      KeepKeep(s[1..], p, q, both);
      KeepAppend(if p(s[0]) then [s[0]] else [], Keep(s[1..], p), q);
    }
  }

  /** Filtering out the one element at `k` that fails `p` cuts exactly that element out. */
  lemma {:induction false} KeepCut<T(!new)>(s: seq<T>, p: T -> bool, k: int)
    requires 0 <= k < |s| && !p(s[k])
    requires forall i :: 0 <= i < |s| && i != k ==> p(s[i])
    ensures Keep(s, p) == s[..k] + s[k + 1..]
  {
    var tail := s[1..];
    assert forall i :: 0 <= i < |tail| ==> tail[i] == s[i + 1];
    if k == 0 {
      KeepAll(tail, p);
    } else {
      KeepCut(tail, p, k - 1);
      assert tail[..k - 1] + tail[k..] == s[1..k] + s[k + 1..];
      assert s[..k] == [s[0]] + s[1..k];
    }
  }
}
