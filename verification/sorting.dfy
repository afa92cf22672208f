/** The sorts the sensor pages use: `Array.prototype.sort` with a numeric
    comparator (`(a, b) => a - b` on values, the difference of `getTime()`
    on timestamps). JavaScript's sort is stable, so the model is a stable
    insertion sort by a real-valued key. */
module Sorting {
  import opened Seqs

  /** Keys never decrease along `s`. */
  predicate SortedBy<T>(s: seq<T>, key: T -> real) {
    forall i, j :: 0 <= i < j < |s| ==> key(s[i]) <= key(s[j])
  }

  /** Inserts `x` in front of the first element whose key is at least its
      own, so elements with an equal key that were already placed stay
      behind it. */
  function Insert<T>(x: T, s: seq<T>, key: T -> real): (r: seq<T>)
    ensures |r| == |s| + 1
    ensures multiset(r) == multiset(s) + multiset{x}
    decreases |s|
  {
    if |s| == 0 || key(x) <= key(s[0]) then [x] + s
    else
      assert s == [s[0]] + s[1..];
      [s[0]] + Insert(x, s[1..], key)
  }

  /** Every element of `s` is bounded below by `lo`. */
  predicate KeysAtLeast<T>(s: seq<T>, key: T -> real, lo: real) {
    forall k :: 0 <= k < |s| ==> lo <= key(s[k])
  }

  /** Inserting into a sorted sequence keeps it sorted, and a lower bound
      met by `x` and by every element is met by the result. */
  lemma {:induction false} InsertSorted<T>(x: T, s: seq<T>, key: T -> real)
    requires SortedBy(s, key)
    ensures SortedBy(Insert(x, s, key), key)
    ensures forall lo :: lo <= key(x) && KeysAtLeast(s, key, lo) ==> KeysAtLeast(Insert(x, s, key), key, lo)
    decreases |s|
  {
    if |s| > 0 && key(s[0]) < key(x) {
      InsertSorted(x, s[1..], key);
      var rest := Insert(x, s[1..], key);
      assert KeysAtLeast(s[1..], key, key(s[0]));
      assert KeysAtLeast(rest, key, key(s[0]));
      assert Insert(x, s, key) == [s[0]] + rest;
      forall lo | lo <= key(x) && KeysAtLeast(s, key, lo)
        ensures KeysAtLeast(Insert(x, s, key), key, lo)
      {
        assert KeysAtLeast(s[1..], key, lo);
      }
    } else if |s| > 0 {
      assert forall k :: 0 <= k < |s| ==> key(x) <= key(s[0]) <= key(s[k]);
    }
  }

  /** `s.sort((a, b) => key(a) - key(b))`: a sorted permutation. */
  function SortBy<T>(s: seq<T>, key: T -> real): (r: seq<T>)
    ensures |r| == |s|
    ensures multiset(r) == multiset(s)
    ensures SortedBy(r, key)
    decreases |s|
  {
    if |s| == 0 then []
    else
      assert s == [s[0]] + s[1..];
      var rest := SortBy(s[1..], key);
      InsertSorted(s[0], rest, key);
      Insert(s[0], rest, key)
  }

  /** Input that is already in key order comes back unchanged. */
  lemma {:induction false} SortedIsFixed<T>(s: seq<T>, key: T -> real)
    requires SortedBy(s, key)
    ensures SortBy(s, key) == s
    decreases |s|
  {
    if |s| > 0 {
      SortedIsFixed(s[1..], key);
      assert s == [s[0]] + s[1..];
    }
  }

  /** The elements whose key is exactly `k`. */
  function KeyIs<T>(key: T -> real, k: real): T -> bool {
    (x: T) => key(x) == k
  }

  /** Inserting into a sorted sequence puts `x` in front of every element
      with the same key and changes nothing else about the elements of
      any one key. */
  lemma {:induction false} InsertKeepsTies<T(!new)>(x: T, s: seq<T>, key: T -> real, k: real)
    requires SortedBy(s, key)
    ensures Filter(Insert(x, s, key), KeyIs(key, k))
      == (if key(x) == k then [x] else []) + Filter(s, KeyIs(key, k))
    decreases |s|
  {
    if |s| == 0 || key(x) <= key(s[0]) {
      assert ([x] + s)[1..] == s;
    } else {
      var rest := Insert(x, s[1..], key);
      InsertKeepsTies(x, s[1..], key, k);
      assert Insert(x, s, key) == [s[0]] + rest;
      assert ([s[0]] + rest)[1..] == rest;
      assert key(x) == k ==> key(s[0]) != k;
    }
  }

  /** The sort is stable: for every key, the elements carrying that key
      appear in the result in the same order as in the input. */
  lemma {:induction false} SortIsStable<T(!new)>(s: seq<T>, key: T -> real, k: real)
    ensures Filter(SortBy(s, key), KeyIs(key, k)) == Filter(s, KeyIs(key, k))
    decreases |s|
  {
    if |s| > 0 {
      SortIsStable(s[1..], key, k);
      InsertKeepsTies(s[0], SortBy(s[1..], key), key, k);
    }
  }

  // ---------------------------------------------------------------------
  // Sorting plain numbers

  function Id(x: real): real { x }

  predicate Ascending(s: seq<real>) {
    forall i, j :: 0 <= i < j < |s| ==> s[i] <= s[j]
  }

  /** `[...values].sort((a, b) => a - b)`. */
  function SortValues(s: seq<real>): (r: seq<real>)
    ensures |r| == |s|
    ensures multiset(r) == multiset(s)
    ensures Ascending(r)
  {
    var r := SortBy(s, Id);
    assert forall i, j :: 0 <= i < j < |r| ==> Id(r[i]) <= Id(r[j]);
    r
  }

  /** The least element of an ascending sequence comes first. */
  lemma AscendingHeadIsLeast(s: seq<real>, x: real)
    requires Ascending(s) && x in multiset(s)
    ensures s[0] <= x
  {
    var j :| 0 <= j < |s| && s[j] == x;
    if j > 0 {
      assert s[0] <= s[j];
    }
  }

  /** Numbers have only one ascending arrangement: two ascending
      sequences holding the same values are equal. */
  lemma {:induction false} AscendingUnique(a: seq<real>, b: seq<real>)
    requires Ascending(a) && Ascending(b) && multiset(a) == multiset(b)
    ensures a == b
    decreases |a|
  {
    assert |a| == |multiset(a)| == |multiset(b)| == |b|;
    if |a| > 0 {
      assert a[0] in multiset(b);
      assert b[0] in multiset(a);
      AscendingHeadIsLeast(b, a[0]);
      AscendingHeadIsLeast(a, b[0]);
      assert a[0] == b[0];
      assert a == [a[0]] + a[1..] && b == [b[0]] + b[1..];
      assert multiset(a) == multiset{a[0]} + multiset(a[1..]);
      assert multiset(b) == multiset{a[0]} + multiset(b[1..]);
      assert multiset(a[1..]) == multiset(a) - multiset{a[0]};
      assert multiset(b[1..]) == multiset(b) - multiset{a[0]};
      AscendingUnique(a[1..], b[1..]);
    }
  }
}
