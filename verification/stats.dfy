/** `calculateStats` of the humidity, light-intensity and temperature
    pages. Values are exact reals, so the order in which `reduce` adds
    them does not matter; the standard deviation is stated through the
    population variance it is the square root of. */
module SensorStats {
  import opened Seqs
  import opened Sorting

  /** One history point as the pages keep it; timestamps are milliseconds. */
  datatype Sample = Sample(value: real, timestamp: int)

  /** The statistics snapshot; `variance` is the square of `stdDev`. */
  datatype Stats = Stats(current: real, min: real, max: real, avg: real, median: real, variance: real)

  /** What every page returns when there is nothing to summarise. */
  const Zero := Stats(0.0, 0.0, 0.0, 0.0, 0.0, 0.0)

  // ---------------------------------------------------------------------
  // Sums

  /** `s.map(f).reduce((a, b) => a + b, 0)`. */
  function SumOf(s: seq<real>, f: real -> real): real
    decreases |s|
  {
    if |s| == 0 then 0.0 else f(s[0]) + SumOf(s[1..], f)
  }

  function Sum(s: seq<real>): real {
    SumOf(s, Id)
  }

  lemma SquareNonNegative(d: real)
    ensures d * d >= 0.0
  {
  }

  /** The sum of squared deviations from `mean`. */
  function SumSquares(s: seq<real>, mean: real): real {
    SumOf(s, (v: real) => (v - mean) * (v - mean))
  }

  lemma {:induction false} SumOfRemove(s: seq<real>, f: real -> real, i: nat)
    requires i < |s|
    ensures SumOf(s, f) == f(s[i]) + SumOf(s[..i] + s[i + 1..], f)
    decreases |s|
  {
    if i == 0 {
      assert s[..0] + s[1..] == s[1..];
    } else {
      SumOfRemove(s[1..], f, i - 1);
      assert s[..i] + s[i + 1..] == [s[0]] + (s[1..][..i - 1] + s[1..][i..]);
    }
  }

  /** A sum does not depend on the order of its terms. */
  lemma {:induction false} SumOfPermutation(a: seq<real>, b: seq<real>, f: real -> real)
    requires multiset(a) == multiset(b)
    ensures SumOf(a, f) == SumOf(b, f)
    decreases |a|
  {
    assert |a| == |multiset(a)| == |multiset(b)| == |b|;
    if |a| > 0 {
      assert a[0] in multiset(b);
      var j :| 0 <= j < |b| && b[j] == a[0];
      var rest := b[..j] + b[j + 1..];
      assert b == b[..j] + [b[j]] + b[j + 1..];
      assert multiset(rest) == multiset(b) - multiset{a[0]};
      assert a == [a[0]] + a[1..];
      assert multiset(a[1..]) == multiset(a) - multiset{a[0]};
      SumOfPermutation(a[1..], rest, f);
      SumOfRemove(b, f, j);
    }
  }

  /** A sum of non-negative terms is non-negative, and it is zero exactly
      when every term is. */
  lemma {:induction false} SumOfNonNegative(s: seq<real>, f: real -> real)
    requires forall i :: 0 <= i < |s| ==> f(s[i]) >= 0.0
    ensures SumOf(s, f) >= 0.0
    ensures SumOf(s, f) == 0.0 <==> forall i :: 0 <= i < |s| ==> f(s[i]) == 0.0
    decreases |s|
  {
    if |s| > 0 {
      SumOfNonNegative(s[1..], f);
      if SumOf(s, f) == 0.0 {
        forall i | 0 <= i < |s|
          ensures f(s[i]) == 0.0
        {
          if i > 0 {
            assert s[i] == s[1..][i - 1];
          }
        }
      }
    }
  }

  /** `n` values between `lo` and `hi` add up to between `n * lo` and `n * hi`. */
  lemma {:induction false} SumBounds(s: seq<real>, lo: real, hi: real)
    requires forall i :: 0 <= i < |s| ==> lo <= s[i] <= hi
    ensures |s| as real * lo <= Sum(s) <= |s| as real * hi
    decreases |s|
  {
    if |s| > 0 {
      SumBounds(s[1..], lo, hi);
      assert Sum(s) == s[0] + Sum(s[1..]);
      assert |s| as real * lo == lo + (|s| - 1) as real * lo;
      assert |s| as real * hi == hi + (|s| - 1) as real * hi;
    }
  }

  /** `n` copies of `c` add up to `n * c`. */
  lemma {:induction false} SumConstant(s: seq<real>, c: real)
    requires forall i :: 0 <= i < |s| ==> s[i] == c
    ensures Sum(s) == |s| as real * c
    decreases |s|
  {
    if |s| > 0 {
      SumConstant(s[1..], c);
      assert Sum(s) == s[0] + Sum(s[1..]);
      assert |s| as real * c == c + (|s| - 1) as real * c;
    }
  }

  lemma DivideBounds(lo: real, x: real, hi: real, n: real)
    requires n > 0.0 && n * lo <= x <= n * hi
    ensures lo <= x / n <= hi
  {
    assert x / n * n == x;
  }

  // ---------------------------------------------------------------------
  // Counting

  /** How many values lie strictly below `m`. */
  function CountBelow(s: seq<real>, m: real): nat {
    |Filter(s, (v: real) => v < m)|
  }

  /** How many values lie at or below `m`. */
  function CountAtMost(s: seq<real>, m: real): nat {
    |Filter(s, (v: real) => v <= m)|
  }

  /** Filtering counts depend only on which values there are. */
  lemma FilterSizePermutation(a: seq<real>, b: seq<real>, p: real -> bool)
    requires multiset(a) == multiset(b)
    ensures |Filter(a, p)| == |Filter(b, p)|
  {
    FilterCounts(a, p);
    FilterCounts(b, p);
    assert multiset(Filter(a, p)) == multiset(Filter(b, p));
    assert |Filter(a, p)| == |multiset(Filter(a, p))|;
    assert |Filter(b, p)| == |multiset(Filter(b, p))|;
  }

  /** A weaker test lets at least as many values through. */
  lemma {:induction false} FilterSizeMonotone(s: seq<real>, p: real -> bool, q: real -> bool)
    requires forall v :: p(v) ==> q(v)
    ensures |Filter(s, p)| <= |Filter(s, q)|
    decreases |s|
  {
    if |s| > 0 {
      FilterSizeMonotone(s[1..], p, q);
    }
  }

  /** In ascending order, the element at index `k` has at most `k` values
      strictly below it and at least `k + 1` values at or below it. */
  lemma AscendingRank(p: seq<real>, k: nat)
    requires Ascending(p) && k < |p|
    ensures CountBelow(p, p[k]) <= k
    ensures CountAtMost(p, p[k]) >= k + 1
  {
    var m := p[k];
    var below := (v: real) => v < m;
    var atMost := (v: real) => v <= m;
    assert p == p[..k] + p[k..];
    assert p == p[..k + 1] + p[k + 1..];
    FilterConcat(p[..k], p[k..], below);
    FilterConcat(p[..k + 1], p[k + 1..], atMost);
    assert forall i :: 0 <= i < |p[k..]| ==> !below(p[k..][i]);
    NoneSurvive(p[k..], below);
    FilterKeepsAll(p[..k + 1], atMost);
  }

  lemma {:induction false} NoneSurvive(s: seq<real>, p: real -> bool)
    requires forall i :: 0 <= i < |s| ==> !p(s[i])
    ensures Filter(s, p) == []
    decreases |s|
  {
    if |s| > 0 {
      NoneSurvive(s[1..], p);
    }
  }

  /** The upper median, described without sorting: fewer than half-plus-one
      values lie below it, and more than half lie at or below it. */
  predicate UpperMedianOf(s: seq<real>, m: real) {
    CountBelow(s, m) <= |s| / 2 && CountAtMost(s, m) >= |s| / 2 + 1
  }

  /** At most one value is an upper median. */
  lemma UpperMedianUnique(s: seq<real>, m1: real, m2: real)
    requires UpperMedianOf(s, m1) && UpperMedianOf(s, m2)
    ensures m1 == m2
  {
    if m1 < m2 {
      FilterSizeMonotone(s, (v: real) => v <= m1, (v: real) => v < m2);
    } else if m2 < m1 {
      FilterSizeMonotone(s, (v: real) => v <= m2, (v: real) => v < m1);
    }
  }

  // ---------------------------------------------------------------------
  // calculateStats

  /** `data.map(d => d.value)`. */
  function Values(data: seq<Sample>): (vs: seq<real>)
    ensures |vs| == |data|
    ensures forall i :: 0 <= i < |data| ==> vs[i] == data[i].value
  {
    seq(|data|, i requires 0 <= i < |data| => data[i].value)
  }

  /** The first and last elements of an ascending arrangement of `values`
      bound every value. */
  lemma AscendingBoundsAll(sorted: seq<real>, values: seq<real>)
    requires Ascending(sorted) && multiset(sorted) == multiset(values) && |values| > 0
    ensures |sorted| == |values|
    ensures forall i :: 0 <= i < |values| ==> sorted[0] <= values[i] <= sorted[|sorted| - 1]
  {
    assert |sorted| == |multiset(sorted)| == |values|;
    forall i | 0 <= i < |values|
      ensures sorted[0] <= values[i] <= sorted[|sorted| - 1]
    {
      assert values[i] in multiset(sorted);
      var j :| 0 <= j < |sorted| && sorted[j] == values[i];
      if j > 0 {
        assert sorted[0] <= sorted[j];
      }
      if j < |sorted| - 1 {
        assert sorted[j] <= sorted[|sorted| - 1];
      }
    }
  }

  /** The ordered part of the snapshot: the ends and the middle of an
      ascending arrangement are values of the input, in order, and the
      ends bound every value. */
  lemma OrderFacts(values: seq<real>, sorted: seq<real>)
    requires |values| > 0 && Ascending(sorted) && multiset(sorted) == multiset(values)
    ensures |sorted| == |values|
    ensures sorted[0] in values && sorted[|values| - 1] in values && sorted[|values| / 2] in values
    ensures forall i :: 0 <= i < |values| ==> sorted[0] <= values[i] <= sorted[|values| - 1]
    ensures sorted[0] <= sorted[|values| / 2] <= sorted[|values| - 1]
  {
    var n := |values|;
    AscendingBoundsAll(sorted, values);
    assert sorted[0] in multiset(values) && sorted[n - 1] in multiset(values);
    assert sorted[n / 2] in multiset(values);
    if 0 < n / 2 < n - 1 {
      assert sorted[0] <= sorted[n / 2];
      assert sorted[n / 2] <= sorted[n - 1];
    }
  }

  /** The mean of values lying between `lo` and `hi` lies there too. */
  lemma MeanFacts(values: seq<real>, lo: real, hi: real)
    requires |values| > 0
    requires forall i :: 0 <= i < |values| ==> lo <= values[i] <= hi
    ensures lo <= Sum(values) / |values| as real <= hi
  {
    SumBounds(values, lo, hi);
    DivideBounds(lo, Sum(values), hi, |values| as real);
  }

  /** The population variance is a mean of squares, so never negative. */
  lemma VarianceFacts(values: seq<real>, avg: real)
    requires |values| > 0
    ensures SumSquares(values, avg) / |values| as real >= 0.0
  {
    var f := (v: real) => (v - avg) * (v - avg);
    forall i | 0 <= i < |values|
      ensures f(values[i]) >= 0.0
    {
      SquareNonNegative(values[i] - avg);
    }
    SumOfNonNegative(values, f);
  }

  /** The body of `calculateStats` once the values have been extracted. */
  function Summarize(values: seq<real>): (st: Stats)
    ensures |values| == 0 ==> st == Zero
    ensures |values| > 0 ==>
      && st.current == values[|values| - 1]
      && st.min in values && st.max in values && st.median in values
      && (forall i :: 0 <= i < |values| ==> st.min <= values[i] <= st.max)
      && st.min <= st.median <= st.max
      && st.min <= st.avg <= st.max
      && st.avg == Sum(values) / |values| as real
      && st.variance >= 0.0
      && st.variance == SumSquares(values, st.avg) / |values| as real
  {
    if |values| == 0 then Zero
    else
      var n := |values|;
      var sorted := SortValues(values);
      var avg := Sum(values) / n as real;
      OrderFacts(values, sorted);
      MeanFacts(values, sorted[0], sorted[n - 1]);
      VarianceFacts(values, avg);
      Stats(values[n - 1], sorted[0], sorted[n - 1], avg, sorted[n / 2], SumSquares(values, avg) / n as real)
  }

  /** `calculateStats(data)` on the humidity and light-intensity pages. */
  function CalculateStats(data: seq<Sample>): (st: Stats)
    ensures |data| == 0 ==> st == Zero
    ensures |data| > 0 ==> st.current == data[|data| - 1].value
    ensures forall i :: 0 <= i < |data| ==> st.min <= data[i].value <= st.max
    ensures |data| > 0 ==> exists i, j :: 0 <= i < |data| && 0 <= j < |data| && data[i].value == st.min && data[j].value == st.max
    ensures |data| > 0 ==>
      && st.min <= st.median <= st.max
      && st.min <= st.avg <= st.max
      && st.avg == Sum(Values(data)) / |data| as real
      && st.variance == SumSquares(Values(data), st.avg) / |data| as real
      && st.variance >= 0.0
    ensures st == Summarize(Values(data))
  {
    if |data| == 0 then Zero
    else
      var vs := Values(data);
      var st := Summarize(vs);
      var i :| 0 <= i < |vs| && vs[i] == st.min;
      var j :| 0 <= j < |vs| && vs[j] == st.max;
      st
  }

  /** The median is the upper middle value: the element at index
      `floor(n/2)` of any ascending arrangement, equivalently the unique
      value with at most `n/2` values below it and more than `n/2` at or
      below it. */
  lemma MedianIsUpperMiddle(values: seq<real>, p: seq<real>)
    requires |values| > 0 && Ascending(p) && multiset(p) == multiset(values)
    ensures |p| == |values|
    ensures Summarize(values).median == p[|values| / 2]
    ensures UpperMedianOf(values, Summarize(values).median)
    ensures forall m :: UpperMedianOf(values, m) ==> m == Summarize(values).median
  {
    var sorted := SortValues(values);
    AscendingUnique(p, sorted);
    assert |p| == |multiset(p)| == |values|;
    var m := p[|values| / 2];
    AscendingRank(p, |values| / 2);
    FilterSizePermutation(p, values, (v: real) => v < m);
    FilterSizePermutation(p, values, (v: real) => v <= m);
    forall m' | UpperMedianOf(values, m')
      ensures m' == m
    {
      UpperMedianUnique(values, m', m);
    }
  }

  /** Apart from `current`, the snapshot depends only on which values were
      seen, not on their order. */
  lemma StatsIgnoreOrder(a: seq<real>, b: seq<real>)
    requires multiset(a) == multiset(b)
    ensures var x := Summarize(a); var y := Summarize(b);
      x.min == y.min && x.max == y.max && x.avg == y.avg
      && x.median == y.median && x.variance == y.variance
  {
    assert |a| == |multiset(a)| == |multiset(b)| == |b|;
    if |a| == 0 {
      return;
    }
    SumOfPermutation(a, b, Id);
    var avg := Sum(a) / |a| as real;
    SumOfPermutation(a, b, (v: real) => (v - avg) * (v - avg));
    AscendingUnique(SortValues(a), SortValues(b));
  }

  /** Values that all equal `avg` have no squared deviation from it. */
  lemma {:induction false} SquaresOfConstant(values: seq<real>, avg: real)
    requires forall i :: 0 <= i < |values| ==> values[i] == avg
    ensures SumSquares(values, avg) == 0.0
  {
    var f := (v: real) => (v - avg) * (v - avg);
    forall i | 0 <= i < |values|
      ensures f(values[i]) == 0.0
    {
      assert values[i] - avg == 0.0;
    }
    SumOfNonNegative(values, f);
  }

  /** When every value is the same, that value is the minimum, maximum,
      mean and median, and the variance is zero. */
  lemma ConstantInput(values: seq<real>, c: real)
    requires |values| > 0
    requires forall i :: 0 <= i < |values| ==> values[i] == c
    ensures var st := Summarize(values);
      st.min == c && st.max == c && st.avg == c && st.median == c && st.variance == 0.0
  {
    var n := |values|;
    var st := Summarize(values);
    assert Sum(values) / n as real == c by {
      SumConstant(values, c);
      assert (n as real * c) / n as real == c;
    }
    assert st.avg == c;
    SquaresOfConstant(values, c);
    assert st.min in values && st.max in values && st.median in values;
  }

  // ---------------------------------------------------------------------
  // The temperature page

  /** A parsed reading: `parseFloat` yields a number or NaN. */
  datatype Num = Finite(v: real) | NaN

  /** `values.filter(v => !isNaN(v))`, the valid readings in input order. */
  function ValidValues(ns: seq<Num>): (vs: seq<real>)
    ensures |vs| <= |ns|
    decreases |ns|
  {
    if |ns| == 0 then []
    else (if ns[0].Finite? then [ns[0].v] else []) + ValidValues(ns[1..])
  }

  /** Each finite reading survives with all of its occurrences, and
      nothing else does. */
  lemma {:induction false} ValidValuesCounts(ns: seq<Num>)
    ensures forall x :: multiset(ValidValues(ns))[x] == multiset(ns)[Finite(x)]
    ensures forall x :: x in ValidValues(ns) <==> Finite(x) in ns
    decreases |ns|
  {
    if |ns| > 0 {
      ValidValuesCounts(ns[1..]);
      assert ns == [ns[0]] + ns[1..];
    }
  }

  /** Readings are kept in input order: the valid values of two stretches
      laid end to end are those of the first followed by those of the
      second. */
  lemma {:induction false} ValidValuesConcat(a: seq<Num>, b: seq<Num>)
    ensures ValidValues(a + b) == ValidValues(a) + ValidValues(b)
    decreases |a|
  {
    if |a| == 0 {
      assert a + b == b;
    } else {
      assert (a + b)[0] == a[0];
      assert (a + b)[1..] == a[1..] + b;
      ValidValuesConcat(a[1..], b);
    }
  }

  /** Nothing survives exactly when every reading is NaN. */
  lemma ValidValuesEmpty(ns: seq<Num>)
    ensures |ValidValues(ns)| == 0 <==> forall i :: 0 <= i < |ns| ==> ns[i] == NaN
  {
    var vs := ValidValues(ns);
    ValidValuesCounts(ns);
    if |vs| > 0 {
      assert Finite(vs[0]) in ns;
    } else {
      forall i | 0 <= i < |ns|
        ensures ns[i] == NaN
      {
        assert ns[i] in ns;
      }
    }
  }

  /** The last valid reading of `ns` is its last finite entry. */
  lemma {:induction false} ValidValuesLast(ns: seq<Num>, i: nat)
    requires i < |ns| && ns[i].Finite?
    requires forall j :: i < j < |ns| ==> ns[j] == NaN
    ensures |ValidValues(ns)| > 0 && ValidValues(ns)[|ValidValues(ns)| - 1] == ns[i].v
    decreases i
  {
    var rest := ns[1..];
    if i == 0 {
      assert forall j :: 0 <= j < |rest| ==> rest[j] == ns[j + 1];
      ValidValuesEmpty(rest);
      assert ValidValues(ns) == [ns[0].v] + ValidValues(rest);
    } else {
      assert forall j :: i - 1 < j < |rest| ==> rest[j] == ns[j + 1];
      ValidValuesLast(rest, i - 1);
      var head := if ns[0].Finite? then [ns[0].v] else [];
      assert ValidValues(ns) == head + ValidValues(rest);
    }
  }

  /** `calculateStats(data)` on the temperature page: NaN readings are
      dropped before anything is computed. */
  function TemperatureStats(ns: seq<Num>): (st: Stats)
    ensures (forall i :: 0 <= i < |ns| ==> ns[i] == NaN) ==> st == Zero
    ensures forall i :: 0 <= i < |ns| && ns[i].Finite? ==> st.min <= ns[i].v <= st.max
    ensures forall i :: 0 <= i < |ns| && ns[i].Finite? && (forall j :: i < j < |ns| ==> ns[j] == NaN) ==>
      st.current == ns[i].v
    ensures (exists i :: 0 <= i < |ns| && ns[i].Finite?) ==>
      (exists i :: 0 <= i < |ns| && ns[i] == Finite(st.min))
      && (exists i :: 0 <= i < |ns| && ns[i] == Finite(st.max))
      && (exists i :: 0 <= i < |ns| && ns[i] == Finite(st.median))
    ensures var vs := ValidValues(ns);
      |vs| > 0 ==>
        && st.min <= st.median <= st.max
        && st.min <= st.avg <= st.max
        && st.avg == Sum(vs) / |vs| as real
        && st.variance == SumSquares(vs, st.avg) / |vs| as real
        && st.variance >= 0.0
    ensures st == Summarize(ValidValues(ns))
  {
    if |ns| == 0 then Zero
    else
      var vs := ValidValues(ns);
      ValidValuesEmpty(ns);
      if |vs| == 0 then Zero
      else
        var st := Summarize(vs);
        ValidValuesCounts(ns);
        assert forall i :: 0 <= i < |ns| && ns[i].Finite? ==> ns[i].v in vs by {
          forall i | 0 <= i < |ns| && ns[i].Finite?
            ensures ns[i].v in vs
          {
            assert Finite(ns[i].v) in ns;
          }
        }
        assert forall i :: 0 <= i < |ns| && ns[i].Finite? && (forall j :: i < j < |ns| ==> ns[j] == NaN) ==>
          st.current == ns[i].v by {
          forall i | 0 <= i < |ns| && ns[i].Finite? && (forall j :: i < j < |ns| ==> ns[j] == NaN)
            ensures st.current == ns[i].v
          {
            ValidValuesLast(ns, i);
          }
        }
        assert Finite(st.min) in ns && Finite(st.max) in ns && Finite(st.median) in ns;
        st
  }
}
