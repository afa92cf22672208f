/** The history lists of the sensor pages: the time-range filter of the
    humidity and light-intensity pages (the cutoff instant is a parameter,
    since it comes from the clock and the selected tab) and the
    parse-filter-sort step the temperature page applies to fetched
    history. */
module SensorHistory {
  import opened Seqs
  import opened Sorting
  import opened SensorStats

  // ---------------------------------------------------------------------
  // filterDataByTimeRange

  /** The points at or after `cutoff`. */
  function InRange(cutoff: int): Sample -> bool {
    (d: Sample) => d.timestamp >= cutoff
  }

  /** `data.filter(item => new Date(item.timestamp) >= cutoffDate)`. */
  function FilterSince(data: seq<Sample>, cutoff: int): (r: seq<Sample>)
    ensures |r| <= |data|
    ensures forall i :: 0 <= i < |r| ==> r[i].timestamp >= cutoff
  {
    Filter(data, InRange(cutoff))
  }

  /** The filter keeps exactly the points at or after the cutoff: each
      such point with all of its occurrences, no other point, and in their
      original order. */
  lemma FilterSinceExact(data: seq<Sample>, cutoff: int)
    ensures IsSubsequence(FilterSince(data, cutoff), data)
    ensures forall x :: multiset(FilterSince(data, cutoff))[x] ==
                        (if x.timestamp >= cutoff then multiset(data)[x] else 0)
  {
    FilterIsSubsequence(data, InRange(cutoff));
    FilterCounts(data, InRange(cutoff));
  }

  /** A later cutoff keeps a subset of what an earlier one keeps. */
  lemma FilterSinceNarrows(data: seq<Sample>, early: int, late: int)
    requires early <= late
    ensures FilterSince(FilterSince(data, early), late) == FilterSince(data, late)
  {
    FilterTwice(data, InRange(early), InRange(late));
  }

  lemma {:induction false} FilterTwice(s: seq<Sample>, p: Sample -> bool, q: Sample -> bool)
    requires forall x :: q(x) ==> p(x)
    ensures Filter(Filter(s, p), q) == Filter(s, q)
    decreases |s|
  {
    if |s| > 0 {
      FilterTwice(s[1..], p, q);
      var head := if q(s[0]) then [s[0]] else [];
      if p(s[0]) {
        assert Filter(s, p) == [s[0]] + Filter(s[1..], p);
        assert Filter(s, p)[1..] == Filter(s[1..], p);
        assert Filter(Filter(s, p), q) == head + Filter(Filter(s[1..], p), q);
      } else {
        assert !q(s[0]);
        assert Filter(s, p) == Filter(s[1..], p);
      }
    }
  }

  // ---------------------------------------------------------------------
  // fetchHistoricalData on the temperature page

  /** A fetched history entry after `parseFloat` of its value. */
  datatype RawPoint = RawPoint(value: Num, timestamp: int)

  /** `data.map(...).filter(item => !isNaN(item.value))`: the entries
      whose value parsed, in fetched order. */
  function ParseValid(raw: seq<RawPoint>): (r: seq<Sample>)
    ensures |r| <= |raw|
    decreases |raw|
  {
    if |raw| == 0 then []
    else
      (match raw[0].value
       case Finite(v) => [Sample(v, raw[0].timestamp)]
       case NaN => [])
      + ParseValid(raw[1..])
  }

  /** Exactly the entries with a number survive, each as often as it was
      fetched. */
  lemma {:induction false} ParseValidCounts(raw: seq<RawPoint>)
    ensures forall x :: multiset(ParseValid(raw))[x] == multiset(raw)[RawPoint(Finite(x.value), x.timestamp)]
    decreases |raw|
  {
    if |raw| > 0 {
      ParseValidCounts(raw[1..]);
      assert raw == [raw[0]] + raw[1..];
    }
  }

  /** Parsing keeps fetched order: the survivors of two runs of entries
      laid end to end are the survivors of each, in the same order. */
  lemma {:induction false} ParseValidConcat(a: seq<RawPoint>, b: seq<RawPoint>)
    ensures ParseValid(a + b) == ParseValid(a) + ParseValid(b)
    decreases |a|
  {
    if |a| > 0 {
      assert (a + b)[0] == a[0];
      assert (a + b)[1..] == a[1..] + b;
      ParseValidConcat(a[1..], b);
    } else {
      assert a + b == b;
    }
  }

  function ByTime(d: Sample): real { d.timestamp as real }

  /** `validData.sort((a, b) => time(a) - time(b))`: the stored history. */
  function CleanHistory(raw: seq<RawPoint>): (r: seq<Sample>)
    ensures SortedBy(r, ByTime)
    ensures forall i, j :: 0 <= i < j < |r| ==> r[i].timestamp <= r[j].timestamp
    ensures multiset(r) == multiset(ParseValid(raw))
  {
    var r := SortBy(ParseValid(raw), ByTime);
    assert forall i, j :: 0 <= i < j < |r| ==> ByTime(r[i]) <= ByTime(r[j]);
    r
  }

  /** The stored history holds every entry whose value parsed, as often as
      it was fetched, and nothing else. */
  lemma CleanHistoryKeepsValid(raw: seq<RawPoint>)
    ensures forall x :: multiset(CleanHistory(raw))[x] == multiset(raw)[RawPoint(Finite(x.value), x.timestamp)]
    ensures forall i :: 0 <= i < |raw| && raw[i].value.Finite? ==>
      Sample(raw[i].value.v, raw[i].timestamp) in CleanHistory(raw)
  {
    ParseValidCounts(raw);
    forall i | 0 <= i < |raw| && raw[i].value.Finite?
      ensures Sample(raw[i].value.v, raw[i].timestamp) in CleanHistory(raw)
    {
      var x := Sample(raw[i].value.v, raw[i].timestamp);
      assert raw[i] == RawPoint(Finite(x.value), x.timestamp);
      assert multiset(raw)[raw[i]] > 0;
      assert multiset(CleanHistory(raw))[x] > 0;
    }
  }

  /** Entries that share a timestamp are stored in the order they were
      fetched, since the sort is stable. */
  lemma CleanHistoryKeepsTies(raw: seq<RawPoint>, t: real)
    ensures Filter(CleanHistory(raw), KeyIs(ByTime, t)) == Filter(ParseValid(raw), KeyIs(ByTime, t))
  {
    SortIsStable(ParseValid(raw), ByTime, t);
  }

  /** History that arrives in time order is stored in the order it came. */
  lemma InOrderHistoryUnchanged(raw: seq<RawPoint>)
    requires SortedBy(ParseValid(raw), ByTime)
    ensures CleanHistory(raw) == ParseValid(raw)
  {
    SortedIsFixed(ParseValid(raw), ByTime);
  }
}
