/** The handlers, one per shape rather than one per route: `/api/data`, the
    three dimension list endpoints and the three dimension summary
    endpoints. A dimension fixes the optional-field tag the query filters on
    and the order of the rows; the database applies both, and the rows it
    returns are the input here. */
module Endpoints {
  import opened Wrappers
  import JsText
  import JsNumber
  import Paging
  import Rows
  import Summary

  /** The business dimension of a route. */
  datatype Dimension = Solution | BusinessUnit | Sector

  /** The `OPTFIELD` value the dimension's query selects. */
  function Tag(d: Dimension): (t: string)
    ensures t != [] && JsText.NoEdgeWhitespace(t)
  {
    match d
    case Solution => "SOLUTION"
    case BusinessUnit => "BUUNIT"
    case Sector => "SECTOR"
  }

  /** `WHERE RTRIM(GLJEDO.OPTFIELD) = '<tag>'`, compared character by
      character. */
  predicate Tagged(r: Rows.RawRow, d: Dimension) {
    r.OPTFIELD.Some? && JsText.SqlRTrim(r.OPTFIELD.value) == Tag(d)
  }

  /** The filter keeps exactly the rows whose optional field is the tag
      followed by nothing but spaces. */
  lemma TaggedIff(r: Rows.RawRow, d: Dimension)
    ensures Tagged(r, d) <==> r.OPTFIELD.Some? && JsText.PaddedWithSpaces(r.OPTFIELD.value, Tag(d))
  {
    if r.OPTFIELD.Some? {
      var v := r.OPTFIELD.value;
      if JsText.PaddedWithSpaces(v, Tag(d)) {
        JsText.SqlRTrimOfPadded(v, Tag(d));
      }
      if Tagged(r, d) {
        assert v[..|Tag(d)|] == Tag(d);
      }
    }
  }

  /** `ORDER BY GLJED.BATCHNBR DESC`, or, for the sector routes,
      `ORDER BY CAST(GLJED.BATCHNBR AS INT) ASC`. */
  datatype Ordering = BatchDescending | BatchNumberAscending

  function OrderOf(d: Dimension): Ordering {
    if d == Sector then BatchNumberAscending else BatchDescending
  }

  /** Lexicographic order of strings, character by character. */
  predicate LexLe(a: string, b: string) {
    a == [] || (b != [] && (a[0] < b[0] || (a[0] == b[0] && LexLe(a[1..], b[1..]))))
  }

  /** May a row with batch number `a` come before one with batch number `b`? */
  predicate BatchPrecedes(o: Ordering, a: string, b: string) {
    match o
    case BatchDescending => LexLe(b, a)
    case BatchNumberAscending =>
      JsNumber.ParseInt(a).Some? && JsNumber.ParseInt(b).Some?
      && JsNumber.ParseInt(a).value <= JsNumber.ParseInt(b).value
  }

  predicate OrderedBatches(o: Ordering, batches: seq<string>) {
    forall i, j :: 0 <= i < j < |batches| ==> BatchPrecedes(o, batches[i], batches[j])
  }

  function RowBatches(rows: seq<Rows.RawRow>): (b: seq<string>)
    ensures |b| == |rows| && forall i :: 0 <= i < |rows| ==> b[i] == rows[i].BATCHNBR
  {
    seq(|rows|, i requires 0 <= i < |rows| => rows[i].BATCHNBR)
  }

  function EntryBatches(es: seq<Rows.Entry>): (b: seq<string>)
    ensures |b| == |es| && forall i :: 0 <= i < |es| ==> b[i] == es[i].BatchNumber
  {
    seq(|es|, i requires 0 <= i < |es| => es[i].BatchNumber)
  }

  /** Read as text, batch numbers 2, 10 and 30 come in the order 30, 2,
      10 on the routes that sort them descending, not in numeric order. */
  lemma TextOrderDiffers()
    ensures !OrderedBatches(BatchDescending, ["2", "10", "30"])
    ensures OrderedBatches(BatchDescending, ["30", "2", "10"])
  {
    var b := ["2", "10", "30"];
    assert !LexLe("30", "2");
    assert !BatchPrecedes(BatchDescending, b[0], b[2]);
    assert LexLe("2", "30") && LexLe("10", "2") && LexLe("10", "30");
  }

  /** On the sector routes, batch numbers written as integers are ordered
      as the integers are. */
  lemma NumberOrderIsNumeric(a: int, b: int)
    ensures BatchPrecedes(BatchNumberAscending, JsNumber.IntToString(a), JsNumber.IntToString(b)) <==> a <= b
  {
    JsNumber.ParseIntRoundTrip(a);
    JsNumber.ParseIntRoundTrip(b);
  }

  /** The body of a dimension list response. */
  datatype ListResponse = ListResponse(
    data: seq<Rows.Entry>, page: int, top: int, count: Option<nat>, totalPages: Option<int>)

  /** The response of a dimension list endpoint once its parameters are
      resolved, given the rows its query selects, in its order, and the
      total its count query reports (asked for only when `$count=true`). */
  function ListPage(p: Paging.Params, rows: seq<Rows.RawRow>, total: nat): (resp: ListResponse)
    requires p.top != 0
    ensures resp.page == p.page && resp.top == p.top
    ensures resp.data == Paging.Window(Rows.ShapeAll(rows), p.skip, p.top)
    ensures |resp.data| <= if p.top < 0 then 0 else p.top
    ensures resp.count.Some? <==> p.countRequested
    ensures resp.count.Some? ==> resp.count.value == total
    ensures resp.totalPages.Some? <==> resp.count.Some? && total > 0
    ensures resp.totalPages.Some? && p.top > 0 ==> Paging.LeastPagesFor(resp.totalPages.value, p.top, total)
    ensures resp.totalPages.Some? && p.top < 0 ==> Paging.CeilingForNegativeSize(resp.totalPages.value, p.top, total)
  {
    var data := Rows.ShapeAll(Paging.Window(rows, p.skip, p.top));
    assert data == Paging.Window(Rows.ShapeAll(rows), p.skip, p.top) by {
      var lo := Paging.Clamp(p.skip, 0, |rows|);
      var hi := Paging.Clamp(p.skip + p.top, lo, |rows|);
      Paging.WindowIsSlice(rows, p.skip, p.top);
      Paging.WindowIsSlice(Rows.ShapeAll(rows), p.skip, p.top);
      Rows.ShapeAllSlice(rows, lo, hi);
    }
    var count := if p.countRequested then Some(total) else None;
    ListResponse(data, p.page, p.top, count, Paging.TotalPages(count, p.top))
  }

  /** A dimension list endpoint (`/api/data/solutions`,
      `/api/data/business-unit`, `/api/data/sector`). */
  function ListEndpoint(q: Paging.Query, rows: seq<Rows.RawRow>, total: nat): (resp: ListResponse)
    ensures resp.top != 0 && resp.page != 0
    ensures resp.count.Some? <==> q.dollarCount == Some("true")
  {
    ListPage(Paging.Resolve(q), rows, total)
  }

  /** The entries sent are a run of the shaped rows. */
  lemma ListDataRun(p: Paging.Params, rows: seq<Rows.RawRow>, total: nat) returns (lo: int, hi: int)
    requires p.top != 0
    ensures 0 <= lo <= hi <= |rows|
    ensures ListPage(p, rows, total).data == Rows.ShapeAll(rows)[lo..hi]
  {
    lo := Paging.Clamp(p.skip, 0, |rows|);
    hi := Paging.Clamp(p.skip + p.top, lo, |rows|);
    Paging.WindowIsSlice(Rows.ShapeAll(rows), p.skip, p.top);
  }

  /** A row the dimension's filter keeps is sent with the tag itself as its
      optional field: the trailing spaces `RTRIM` ignores are trimmed off. */
  lemma TaggedEntry(d: Dimension, e: Rows.Entry, r: Rows.RawRow)
    requires Rows.ShapedFrom(e, r) && Tagged(r, d)
    ensures e.OptionalField == Some(Tag(d))
  {
    JsText.TrimAfterSqlRTrim(r.OPTFIELD.value);
    Rows.TrimmedFromUnique(e.OptionalField, r.OPTFIELD);
  }

  /** On a dimension route, every entry sent carries the dimension's tag as
      its optional field. */
  lemma ListEntriesTagged(d: Dimension, p: Paging.Params, rows: seq<Rows.RawRow>, total: nat)
    requires p.top != 0
    requires forall i :: 0 <= i < |rows| ==> Tagged(rows[i], d)
    ensures var data := ListPage(p, rows, total).data;
      forall k :: 0 <= k < |data| ==> data[k].OptionalField == Some(Tag(d))
  {
    var lo, hi := ListDataRun(p, rows, total);
    var data := ListPage(p, rows, total).data;
    forall k | 0 <= k < |data| ensures data[k].OptionalField == Some(Tag(d)) {
      assert data[k] == Rows.ShapeAll(rows)[lo + k];
      TaggedEntry(d, data[k], rows[lo + k]);
    }
  }

  /** The entries sent keep the order the route's query gives the rows. */
  lemma ListKeepsOrder(d: Dimension, p: Paging.Params, rows: seq<Rows.RawRow>, total: nat)
    requires p.top != 0
    requires OrderedBatches(OrderOf(d), RowBatches(rows))
    ensures OrderedBatches(OrderOf(d), EntryBatches(ListPage(p, rows, total).data))
  {
    var lo, hi := ListDataRun(p, rows, total);
    var data := ListPage(p, rows, total).data;
    var b := EntryBatches(data);
    forall i, j | 0 <= i < j < |b| ensures BatchPrecedes(OrderOf(d), b[i], b[j]) {
      assert data[i] == Rows.ShapeAll(rows)[lo + i] && data[j] == Rows.ShapeAll(rows)[lo + j];
      assert b[i] == rows[lo + i].BATCHNBR == RowBatches(rows)[lo + i];
      assert b[j] == rows[lo + j].BATCHNBR == RowBatches(rows)[lo + j];
    }
  }

  /** Every row `SelectWhere` keeps carries its `RowNum`, which lies in the
      window and points back at the row. */
  lemma {:induction false} SelectedRowsNumbered<T>(rows: seq<T>, base: int, skip: int, top: int)
    ensures forall x :: x in Paging.SelectWhere(Paging.NumberedFrom(rows, base), skip, top) ==>
      && Paging.InWindow(x.0, skip, top)
      && base < x.0 <= base + |rows|
      && x.1 == rows[x.0 - base - 1]
  {
    if rows != [] {
      var ns := Paging.NumberedFrom(rows, base);
      assert ns[0] == (base + 1, rows[0]) && ns[1..] == Paging.NumberedFrom(rows[1..], base + 1);
      SelectedRowsNumbered(rows[1..], base + 1, skip, top);
      var head := if Paging.InWindow(base + 1, skip, top) then [ns[0]] else [];
      var tail := Paging.SelectWhere(ns[1..], skip, top);
      assert Paging.SelectWhere(ns, skip, top) == head + tail;
      forall x | x in tail ensures x.1 == rows[x.0 - base - 1] {
        assert x.1 == rows[1..][x.0 - (base + 1) - 1];
      }
    }
  }

  /** The rows `/api/data` sends once its parameters are resolved: the rows
      of the page, each with its `RowNum` column, unshaped. */
  function DataPage(p: Paging.Params, rows: seq<Rows.RawRow>): (r: seq<(int, Rows.RawRow)>)
    ensures |r| <= if p.top < 0 then 0 else p.top
    ensures Paging.Unnumbered(r) == Paging.Window(rows, p.skip, p.top)
    ensures forall k :: 0 <= k < |r| ==>
      Paging.InWindow(r[k].0, p.skip, p.top) && 1 <= r[k].0 <= |rows| && r[k].1 == rows[r[k].0 - 1]
  {
    Paging.SelectWhereIsWindow(rows, 0, p.skip, p.top);
    SelectedRowsNumbered(rows, 0, p.skip, p.top);
    Paging.SelectWhere(Paging.Numbered(rows), p.skip, p.top)
  }

  /** `/api/data`. */
  function DataEndpoint(q: Paging.Query, rows: seq<Rows.RawRow>): (r: seq<(int, Rows.RawRow)>)
    ensures q.dollarTop.None? && q.page.None? ==>
      Paging.Unnumbered(r) == rows[..if |rows| < 100 then |rows| else 100]
  {
    var p := Paging.ResolveData(q);
    assert q.dollarTop.None? && q.page.None? ==> p == Paging.Params(100, 1, 0, false) by {
      if q.dollarTop.None? && q.page.None? {
        Paging.DefaultsWhenAbsent(q.(top := None));
      }
    }
    Paging.WindowIsSlice(rows, 0, 100);
    DataPage(p, rows)
  }

  /** A dimension summary endpoint, given every row its query selects. */
  method SummaryEndpoint(rows: seq<Rows.RawRow>) returns (summary: map<string, Summary.Totals>)
    ensures summary.Keys == Summary.Keys(Rows.ShapeAll(rows))
    ensures forall k :: k in summary ==> summary[k] == Summary.Expected(Rows.ShapeAll(rows), k)
  {
    summary := Summary.Summarize(Rows.ShapeAll(rows));
  }

  /** A dimension summary endpoint as written: a group whose key names an
      inherited `Object.prototype` property is never created. */
  method SummaryEndpointAsWritten(rows: seq<Rows.RawRow>) returns (summary: map<string, Summary.Totals>)
    ensures summary.Keys == Summary.Keys(Rows.ShapeAll(rows)) - Summary.InheritedNames
    ensures forall k :: k in summary ==> summary[k] == Summary.Expected(Rows.ShapeAll(rows), k)
  {
    summary := Summary.SummarizeAsWritten(Rows.ShapeAll(rows));
  }
}
