/**
 * Order-preserving selections described by their positions: the positions
 * below `n` where a condition holds, in increasing order. The handlers'
 * filters (results with a record, first occurrences, files that extract)
 * are all of this shape.
 */
module Positions {

  predicate Increasing(idx: seq<nat>)
  {
    forall i, j :: 0 <= i < j < |idx| ==> idx[i] < idx[j]
  }

  /** The positions below `n` that satisfy `p`, in increasing order. */
  function Where(n: nat, p: nat -> bool): (idx: seq<nat>)
    ensures forall k :: 0 <= k < |idx| ==> idx[k] < n
    ensures forall i: nat :: i in idx <==> i < n && p(i)
  {
    if n == 0 then [] else if p(n - 1) then Where(n - 1, p) + [n - 1] else Where(n - 1, p)
  }

  /** The selected positions come in increasing order. */
  lemma {:induction false} WhereIncreasing(n: nat, p: nat -> bool)
    ensures Increasing(Where(n, p))
  {
    if n > 0 {
      WhereIncreasing(n - 1, p);
    }
  }

  lemma NonEmptyAlike(a: seq<nat>, b: seq<nat>)
    requires a != [] && forall i :: i in a <==> i in b
    ensures b != []
  {
    assert a[0] in b;
  }

  /** An increasing sequence is determined by the set of its elements. */
  lemma {:induction false} IncreasingUnique(a: seq<nat>, b: seq<nat>)
    requires Increasing(a) && Increasing(b)
    requires forall i :: i in a <==> i in b
    ensures a == b
    decreases |a|
  {
    if a != [] {
      NonEmptyAlike(a, b);
    }
    if b != [] {
      NonEmptyAlike(b, a);
    }
    if a != [] {
      assert a[0] in b && b[0] in a;
      assert a[0] == b[0];
      forall i ensures i in a[1..] <==> i in b[1..] {
        if i in a[1..] {
          assert i in a && i != a[0];
        }
        if i in b[1..] {
          assert i in b && i != b[0];
        }
      }
      IncreasingUnique(a[1..], b[1..]);
      assert a == [a[0]] + a[1..] && b == [b[0]] + b[1..];
    }
  }

  /** An increasing sequence with the elements of `b` and possibly `n`, above them all, is `b` extended by `n`. */
  lemma SnocUnique(a: seq<nat>, b: seq<nat>, n: nat, add: bool)
    requires Increasing(a) && Increasing(b)
    requires forall k :: 0 <= k < |b| ==> b[k] < n
    requires forall i :: i in a <==> i in b || (add && i == n)
    ensures a == b + (if add then [n] else [])
  {
    var c := b + (if add then [n] else []);
    assert Increasing(c);
    forall i ensures i in a <==> i in c {
      assert i in c <==> i in b || (add && i == n);
    }
    IncreasingUnique(a, c);
  }

  /** `f(i)` for each position `i` of `idx`, concatenated in that order. */
  function ConcatAt<T>(idx: seq<nat>, f: nat -> seq<T>): seq<T>
  {
    if idx == [] then [] else ConcatAt(idx[..|idx| - 1], f) + f(idx[|idx| - 1])
  }

  lemma ConcatAtSnoc<T>(idx: seq<nat>, i: nat, f: nat -> seq<T>)
    ensures ConcatAt(idx + [i], f) == ConcatAt(idx, f) + f(i)
  {
    assert (idx + [i])[..|idx|] == idx;
  }

  /**
   * A loop over `0..n` that appends `f(i)` whenever `p(i)` holds: what it
   * has produced after the first `n` steps.
   */
  function Accumulate<T>(n: nat, p: nat -> bool, f: nat -> seq<T>): seq<T>
  {
    if n == 0 then [] else if p(n - 1) then Accumulate(n - 1, p, f) + f(n - 1) else Accumulate(n - 1, p, f)
  }

  /** The loop's output is `f` over the positions that satisfy `p`, in increasing order. */
  lemma {:induction false} AccumulateWhere<T>(n: nat, p: nat -> bool, f: nat -> seq<T>)
    ensures Accumulate(n, p, f) == ConcatAt(Where(n, p), f)
  {
    if n > 0 {
      AccumulateWhere(n - 1, p, f);
      if p(n - 1) {
        assert Accumulate(n, p, f) == Accumulate(n - 1, p, f) + f(n - 1);
        assert Where(n, p) == Where(n - 1, p) + [n - 1];
        ConcatAtSnoc(Where(n - 1, p), n - 1, f);
      } else {
        assert Accumulate(n, p, f) == Accumulate(n - 1, p, f);
        assert Where(n, p) == Where(n - 1, p);
      }
    }
  }

  /** When `f` gives one element at each position of `idx`, `ConcatAt` lists those elements. */
  lemma {:induction false} ConcatAtSingletons<T>(idx: seq<nat>, f: nat -> seq<T>)
    requires forall k :: 0 <= k < |idx| ==> |f(idx[k])| == 1
    ensures |ConcatAt(idx, f)| == |idx|
    ensures forall k :: 0 <= k < |idx| ==> ConcatAt(idx, f)[k] == f(idx[k])[0]
  {
    if idx != [] {
      var init := idx[..|idx| - 1];
      assert forall k :: 0 <= k < |init| ==> init[k] == idx[k];
      ConcatAtSingletons(init, f);
    }
  }

  lemma AppendAssoc<T>(a: seq<T>, b: seq<T>, c: seq<T>)
    ensures a + b + c == a + (b + c)
  {
  }

  /** The elements of `s` at the given positions, in that order. */
  function Pick<T>(s: seq<T>, idx: seq<nat>): (r: seq<T>)
    requires forall k :: 0 <= k < |idx| ==> idx[k] < |s|
    ensures |r| == |idx|
    ensures forall k :: 0 <= k < |idx| ==> r[k] == s[idx[k]]
  {
    seq(|idx|, k requires 0 <= k < |idx| => s[idx[k]])
  }
}
