/** The data-logging table: the status, date-range and free-text filters,
    twenty-row pagination with previous/next navigation, and deletion by
    id. The confirmation dialog is a boolean parameter. */
module LogTable {
  import opened Text
  import opened Seqs

  datatype LogStatus = Warning | Info

  function StatusText(s: LogStatus): string {
    match s
    case Warning => "Warning"
    case Info => "Info"
  }

  /** One row of the table. Dates are `YYYY-MM-DD` strings and are
      compared as strings. */
  datatype Log = Log(status: LogStatus, date: string, id: int, sensor: string, problem: string, note: string)

  /** The four filter inputs; the empty string means "not set". */
  datatype Filters = Filters(status: string, dateFrom: string, dateTo: string, search: string)

  const NoFilters := Filters("", "", "", "")

  /** `Object.values(row).join(" ")`: the fields in declaration order, the
      id as its decimal text. */
  function RowText(row: Log): string {
    StatusText(row.status) + " " + row.date + " " + IntToString(row.id) + " "
    + row.sensor + " " + row.problem + " " + row.note
  }

  /** The case-insensitive substring test of the search box. */
  predicate Matches(row: Log, search: string) {
    Contains(Lower(RowText(row)), Lower(search))
  }

  /** The `filtered` callback: each set filter can reject the row. */
  predicate Passes(f: Filters, row: Log) {
    !(f.status != "" && StatusText(row.status) != f.status)
    && !(f.dateFrom != "" && LexLess(row.date, f.dateFrom))
    && !(f.dateTo != "" && LexLess(f.dateTo, row.date))
    && !(f.search != "" && !Matches(row, f.search))
  }

  function PassesFn(f: Filters): Log -> bool {
    (row: Log) => Passes(f, row)
  }

  /** `logs.filter(...)`. */
  function Filtered(logs: seq<Log>, f: Filters): (r: seq<Log>)
    ensures |r| <= |logs|
    ensures forall i :: 0 <= i < |r| ==>
      (f.status != "" ==> StatusText(r[i].status) == f.status)
      && (f.dateFrom != "" ==> LexLessEq(f.dateFrom, r[i].date))
      && (f.dateTo != "" ==> LexLessEq(r[i].date, f.dateTo))
      && (f.search != "" ==> Matches(r[i], f.search))
  {
    var r := Filter(logs, PassesFn(f));
    assert forall i :: 0 <= i < |r| ==> PassesFn(f)(r[i]);
    r
  }

  /** The table shows the passing rows in their original order, each with
      all of its occurrences, and nothing else. */
  lemma FilteredExact(logs: seq<Log>, f: Filters)
    ensures IsSubsequence(Filtered(logs, f), logs)
    ensures forall row :: multiset(Filtered(logs, f))[row] ==
                          (if Passes(f, row) then multiset(logs)[row] else 0)
  {
    FilterIsSubsequence(logs, PassesFn(f));
    FilterCounts(logs, PassesFn(f));
  }

  /** With no filter set every row is shown. */
  lemma NoFiltersKeepAll(logs: seq<Log>)
    ensures Filtered(logs, NoFilters) == logs
  {
    FilterKeepsAll(logs, PassesFn(NoFilters));
  }

  lemma LowerConcat(a: string, b: string)
    ensures Lower(a + b) == Lower(a) + Lower(b)
  {
  }

  /** The search ignores case on both sides: typing the text in upper case
      finds the same rows. */
  lemma SearchIgnoresCase(row: Log, search: string)
    ensures Matches(row, Upper(search)) == Matches(row, search)
  {
    LowerIgnoresCase(search);
  }

  /** A search for a row's sensor name, written in any case, finds the
      row. */
  lemma SearchFindsSensor(row: Log)
    ensures Matches(row, row.sensor) && Matches(row, Upper(row.sensor))
  {
    var a := StatusText(row.status) + " " + row.date + " " + IntToString(row.id) + " ";
    var c := " " + row.problem + " " + row.note;
    assert RowText(row) == a + row.sensor + c;
    LowerConcat(a, row.sensor);
    LowerConcat(a + row.sensor, c);
    ContainsConcat(Lower(a), Lower(row.sensor), Lower(c));
    LowerIgnoresCase(row.sensor);
  }

  // ---------------------------------------------------------------------
  // Pagination

  const PageSize: nat := 20

  /** `Math.ceil(n / pageSize)`. */
  function TotalPages(n: nat): (t: nat)
    ensures t * PageSize >= n
    ensures t > 0 ==> (t - 1) * PageSize < n
    ensures t == 0 <==> n == 0
  {
    (n + PageSize - 1) / PageSize
  }

  /** `filtered.slice(startIdx, startIdx + pageSize)` for the current page. */
  function Page(rows: seq<Log>, currentPage: int): (r: seq<Log>)
    ensures |r| <= PageSize
    ensures 1 <= currentPage && (currentPage - 1) * PageSize <= |rows| ==>
      r == rows[(currentPage - 1) * PageSize..Min(currentPage * PageSize, |rows|)]
    ensures currentPage == 0 ==> r == []
    ensures 1 <= currentPage && (currentPage - 1) * PageSize >= |rows| ==> r == []
  {
    var start := (currentPage - 1) * PageSize;
    Slice(rows, start, start + PageSize)
  }

  /** The pages `from` to `to` laid end to end. */
  function PagesFrom(rows: seq<Log>, from: int, to: int): seq<Log>
    decreases to - from
  {
    if from > to then [] else Page(rows, from) + PagesFrom(rows, from + 1, to)
  }

  lemma {:induction false} PagesFromSuffix(rows: seq<Log>, k: int)
    requires k >= 1
    ensures PagesFrom(rows, k, TotalPages(|rows|)) == rows[Min((k - 1) * PageSize, |rows|)..]
    decreases TotalPages(|rows|) - k
  {
    var t := TotalPages(|rows|);
    if k > t {
      assert (k - 1) * PageSize >= t * PageSize;
    } else {
      PagesFromSuffix(rows, k + 1);
      var s := (k - 1) * PageSize;
      assert s < |rows|;
      assert Page(rows, k) == rows[s..Min(s + PageSize, |rows|)];
      assert rows[s..] == rows[s..Min(s + PageSize, |rows|)] + rows[Min(s + PageSize, |rows|)..];
    }
  }

  /** Pages 1 to `totalPages` hold every filtered row exactly once, in
      order. */
  lemma PagesCoverAll(rows: seq<Log>)
    ensures PagesFrom(rows, 1, TotalPages(|rows|)) == rows
  {
    PagesFromSuffix(rows, 1);
  }

  /** `prevPage`. */
  function PrevPage(p: int): (r: int)
    ensures r >= 1
    ensures p > 1 ==> r == p - 1
    ensures p <= 1 ==> r == 1
  {
    Max(p - 1, 1)
  }

  /** `nextPage`. */
  function NextPage(p: int, totalPages: nat): (r: int)
    ensures r <= totalPages
    ensures p < totalPages ==> r == p + 1
    ensures p >= totalPages ==> r == totalPages
  {
    Min(p + 1, totalPages)
  }

  datatype Nav = Prev | Next

  function Navigate(p: int, totalPages: nat, navs: seq<Nav>): int
    decreases |navs|
  {
    if |navs| == 0 then p
    else
      var q := if navs[0] == Prev then PrevPage(p) else NextPage(p, totalPages);
      Navigate(q, totalPages, navs[1..])
  }

  /** Starting on an existing page, the buttons never leave the existing
      pages; with no matching rows the page only moves between 1 and 0. */
  lemma {:induction false} NavigationStaysInRange(p: int, totalPages: nat, navs: seq<Nav>)
    requires 1 <= p <= Max(totalPages, 1)
    ensures var q := Navigate(p, totalPages, navs);
      (totalPages > 0 ==> 1 <= q <= totalPages) && (totalPages == 0 ==> q == 0 || q == 1)
    decreases |navs|
  {
    if |navs| > 0 {
      var q := if navs[0] == Prev then PrevPage(p) else NextPage(p, totalPages);
      if totalPages > 0 {
        NavigationStaysInRange(q, totalPages, navs[1..]);
      } else {
        ZeroPagesAlternate(q, navs[1..]);
      }
    }
  }

  lemma {:induction false} ZeroPagesAlternate(p: int, navs: seq<Nav>)
    requires p == 0 || p == 1
    ensures Navigate(p, 0, navs) == 0 || Navigate(p, 0, navs) == 1
    decreases |navs|
  {
    if |navs| > 0 {
      var q := if navs[0] == Prev then PrevPage(p) else NextPage(p, 0);
      ZeroPagesAlternate(q, navs[1..]);
    }
  }

  // ---------------------------------------------------------------------
  // Deletion

  /** The table's state. */
  datatype View = View(logs: seq<Log>, filters: Filters, currentPage: int)

  /** `deleteLog(id)`: when confirmed, drops every row with that id and
      returns to the first page; otherwise nothing changes. */
  function DeleteLog(v: View, id: int, confirmed: bool): (r: View)
    ensures r.filters == v.filters
    ensures !confirmed ==> r == v
    ensures confirmed ==> r.currentPage == 1
    ensures confirmed ==> forall i :: 0 <= i < |r.logs| ==> r.logs[i].id != id
    ensures IsSubsequence(r.logs, v.logs)
  {
    if confirmed then
      var logs := Filter(v.logs, (row: Log) => row.id != id);
      FilterIsSubsequence(v.logs, (row: Log) => row.id != id);
      View(logs, v.filters, 1)
    else
      IsSubsequenceRefl(v.logs);
      v
  }

  lemma {:induction false} IsSubsequenceRefl(s: seq<Log>)
    ensures IsSubsequence(s, s)
    decreases |s|
  {
    if |s| > 0 {
      IsSubsequenceRefl(s[1..]);
    }
  }

  /** A confirmed delete removes exactly the rows with that id: every other
      row keeps all of its occurrences. */
  lemma DeleteRemovesExactly(v: View, id: int)
    ensures forall row :: multiset(DeleteLog(v, id, true).logs)[row] ==
                          (if row.id == id then 0 else multiset(v.logs)[row])
  {
    FilterCounts(v.logs, (row: Log) => row.id != id);
  }
}
