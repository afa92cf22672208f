/** Sequence operations the frontend takes from JavaScript arrays:
    `Array.prototype.slice` with its negative-index and clamping rules, and
    `Array.prototype.filter`, together with the facts the rest of the model
    needs about them. */
module Seqs {
  import opened Text

  // ---------------------------------------------------------------------
  // Array.prototype.slice

  /** How `slice` resolves one of its index arguments against a length:
      a negative index counts from the end, and both ends are clamped. */
  function RelIndex(i: int, len: nat): (k: nat)
    ensures k <= len
  {
    if i < 0 then Max(len + i, 0) else Min(i, len)
  }

  /** `s.slice(start, end)`. */
  function Slice<T>(s: seq<T>, start: int, end: int): (r: seq<T>)
    ensures |r| <= |s|
    ensures 0 <= start <= |s| && start <= end ==> r == s[start..Min(end, |s|)]
    ensures start < 0 && end == |s| ==> r == s[Max(|s| + start, 0)..]
    ensures end == 0 ==> r == []
  {
    var a := RelIndex(start, |s|);
    var b := RelIndex(end, |s|);
    if a < b then s[a..b] else []
  }

  // ---------------------------------------------------------------------
  // Subsequences

  /** `a` can be obtained from `b` by deleting elements, keeping order. */
  predicate IsSubsequence<T(==)>(a: seq<T>, b: seq<T>)
    decreases |b|
  {
    if |a| == 0 then true
    else if |b| == 0 then false
    else (a[0] == b[0] && IsSubsequence(a[1..], b[1..])) || IsSubsequence(a, b[1..])
  }

  // ---------------------------------------------------------------------
  // Array.prototype.filter

  /** `s.filter(p)`: the elements satisfying `p`, in their original order.
      Each value keeps all of its occurrences when it passes and none when
      it does not. */
  function Filter<T>(s: seq<T>, p: T -> bool): (r: seq<T>)
    ensures |r| <= |s|
    ensures forall i :: 0 <= i < |r| ==> p(r[i])
    decreases |s|
  {
    if |s| == 0 then []
    else (if p(s[0]) then [s[0]] else []) + Filter(s[1..], p)
  }

  /** Every value keeps all of its occurrences when it passes the filter
      and loses all of them when it does not. */
  lemma {:induction false} FilterCounts<T(!new)>(s: seq<T>, p: T -> bool)
    ensures forall x :: multiset(Filter(s, p))[x] == if p(x) then multiset(s)[x] else 0
    decreases |s|
  {
    if |s| > 0 {
      FilterCounts(s[1..], p);
      assert s == [s[0]] + s[1..];
    }
  }

  /** The filtered array is an order-preserving subsequence of the input. */
  lemma {:induction false} FilterIsSubsequence<T(!new)>(s: seq<T>, p: T -> bool)
    ensures IsSubsequence(Filter(s, p), s)
    decreases |s|
  {
    if |s| > 0 {
      FilterIsSubsequence(s[1..], p);
      var rest := Filter(s[1..], p);
      if p(s[0]) {
        assert Filter(s, p) == [s[0]] + rest;
        assert Filter(s, p)[1..] == rest;
      } else {
        assert Filter(s, p) == rest;
      }
    }
  }

  /** Filtering distributes over concatenation. */
  lemma {:induction false} FilterConcat<T(!new)>(a: seq<T>, b: seq<T>, p: T -> bool)
    ensures Filter(a + b, p) == Filter(a, p) + Filter(b, p)
    decreases |a|
  {
    if |a| > 0 {
      assert (a + b)[0] == a[0];
      assert (a + b)[1..] == a[1..] + b;
      FilterConcat(a[1..], b, p);
      var head := if p(a[0]) then [a[0]] else [];
      calc {
        Filter(a + b, p);
        head + Filter(a[1..] + b, p);
        head + (Filter(a[1..], p) + Filter(b, p));
        (head + Filter(a[1..], p)) + Filter(b, p);
      }
    } else {
      assert a + b == b;
    }
  }

  /** When every element passes, nothing is removed. */
  lemma {:induction false} FilterKeepsAll<T(!new)>(s: seq<T>, p: T -> bool)
    requires forall i :: 0 <= i < |s| ==> p(s[i])
    ensures Filter(s, p) == s
    decreases |s|
  {
    if |s| > 0 {
      FilterKeepsAll(s[1..], p);
    }
  }
}
