/** Pagination of the list endpoints: turning the query string into a page
    size, a page number, a skip count and a count flag; choosing the rows of
    one page from the ordered result by their `ROW_NUMBER()`; and the
    `totalPages` figure of the response. */
module Paging {
  import opened Wrappers
  import JsNumber

  /** The query-string values a handler reads, each `None` when absent. */
  datatype Query = Query(
    dollarTop: Option<string>,    // `$top`
    top: Option<string>,          // `top`
    page: Option<string>,         // `page`
    dollarCount: Option<string>)  // `$count`

  /** The resolved pagination parameters. */
  datatype Params = Params(top: int, page: int, skip: int, countRequested: bool)

  /** Pages before `page` are skipped whole. */
  predicate SkipsWholePages(p: Params) {
    p.skip == (p.page - 1) * p.top
  }

  const DefaultTop: int := 100
  const DefaultPage: int := 1

  /** `parseInt` of a query value that may be missing: `parseInt(undefined)`
      is NaN. */
  function ParseParam(v: Option<string>): (r: Option<int>)
    ensures v.None? ==> r.None? && r == JsNumber.ParseInt("undefined")
    ensures v.Some? ==> r == JsNumber.ParseInt(v.value)
  {
    JsNumber.ParseIntUndefined();
    if v.None? then None else JsNumber.ParseInt(v.value)
  }

  /** `req.query.$top || req.query.top`: `$top` unless it is missing or
      empty, both of which are falsy. */
  function TopText(q: Query): (t: Option<string>)
    ensures q.dollarTop.Some? && q.dollarTop.value != "" ==> t == q.dollarTop
    ensures q.dollarTop.None? || q.dollarTop == Some("") ==> t == q.top
    ensures t.None? <==> (q.dollarTop.None? || q.dollarTop == Some("")) && q.top.None?
  {
    if q.dollarTop.Some? && q.dollarTop.value != "" then q.dollarTop else q.top
  }

  /** The parameters of the dimension endpoints: page size from `$top` or
      `top` (100 by default), page (1 by default), the number of rows to
      skip, and whether `$count` asks for a total. */
  function Resolve(q: Query): (p: Params)
    ensures p.top != 0 && p.page != 0
    ensures SkipsWholePages(p)
    ensures p.page == 1 ==> p.skip == 0
    ensures p.page >= 1 && p.top >= 1 ==> p.skip >= 0
    ensures p.countRequested <==> q.dollarCount == Some("true")
  {
    var top := JsNumber.OrDefault(ParseParam(TopText(q)), DefaultTop);
    var page := JsNumber.OrDefault(ParseParam(q.page), DefaultPage);
    SkipSign(page, top);
    Params(top, page, (page - 1) * top, q.dollarCount == Some("true"))
  }

  /** The parameters of the unfiltered `/api/data` endpoint, which reads only
      `$top` and has no count flag. */
  function ResolveData(q: Query): (p: Params)
    ensures p.top != 0 && p.page != 0
    ensures SkipsWholePages(p)
    ensures p.page == 1 ==> p.skip == 0
    ensures p.page >= 1 && p.top >= 1 ==> p.skip >= 0
    ensures !p.countRequested
  {
    var top := JsNumber.OrDefault(ParseParam(q.dollarTop), DefaultTop);
    var page := JsNumber.OrDefault(ParseParam(q.page), DefaultPage);
    SkipSign(page, top);
    Params(top, page, (page - 1) * top, false)
  }

  /** The first page skips nothing, and no page from the first on skips a
      negative number of rows. */
  lemma SkipSign(page: int, top: int)
    ensures page == 1 ==> (page - 1) * top == 0
    ensures page >= 1 && top >= 1 ==> (page - 1) * top >= 0
  {
    if page >= 1 && top >= 1 { MulMonotone(0, page - 1, top); }
  }

  /** With no pagination parameters, a request gets the first 100 rows. */
  lemma DefaultsWhenAbsent(q: Query)
    requires q.dollarTop.None? && q.top.None? && q.page.None?
    ensures Resolve(q) == Params(100, 1, 0, q.dollarCount == Some("true"))
    ensures ResolveData(q) == Params(100, 1, 0, false)
  {
  }

  /** A numeric `$top` other than 0 is the page size on every endpoint. */
  lemma TopFromDollarTop(q: Query, v: int)
    requires q.dollarTop == Some(JsNumber.IntToString(v)) && v != 0
    ensures Resolve(q).top == v && ResolveData(q).top == v
  {
    JsNumber.ParseIntRoundTrip(v);
  }

  /** When `$top` is missing or empty, the dimension endpoints take `top`
      instead; `/api/data` ignores `top` and uses 100. */
  lemma TopFromAlias(q: Query, v: int)
    requires q.dollarTop.None? || q.dollarTop == Some("")
    requires q.top == Some(JsNumber.IntToString(v)) && v != 0
    ensures Resolve(q).top == v
    ensures ResolveData(q).top == DefaultTop
  {
    JsNumber.ParseIntRoundTrip(v);
    JsNumber.ParseIntNoDigits();
  }

  /** A page size that is missing, not a number, or zero falls back to 100. */
  lemma TopFallsBack(q: Query)
    requires ParseParam(TopText(q)).None? || ParseParam(TopText(q)) == Some(0)
    ensures Resolve(q).top == DefaultTop
  {
  }

  /** A non-empty `$top` that is not a number is not replaced by `top`: the
      page size is then 100 whatever `top` says. */
  lemma GarbageDollarTopHidesAlias(q: Query)
    requires q.dollarTop.Some? && q.dollarTop.value != ""
    requires JsNumber.ParseInt(q.dollarTop.value).None?
    ensures Resolve(q).top == DefaultTop
  {
  }

  /** For instance `$top=abc`. */
  lemma LetterTopHidesAlias(q: Query)
    requires q.dollarTop == Some("abc")
    ensures Resolve(q).top == DefaultTop
  {
    JsNumber.ParseIntNoDigits();
    GarbageDollarTopHidesAlias(q);
  }

  /** The page is 1 exactly when `page` is missing, not a number, zero, or 1. */
  lemma PageFallsBackIff(q: Query)
    ensures Resolve(q).page == DefaultPage
      <==> ParseParam(q.page).None? || ParseParam(q.page) == Some(0) || ParseParam(q.page) == Some(1)
  {
  }

  /** A negative page is not defaulted: it is used as it is, and with a
      positive page size it gives a negative skip. */
  lemma NegativePageKept(q: Query, v: int)
    requires q.page == Some(JsNumber.IntToString(v)) && v < 0
    ensures Resolve(q).page == v
    ensures Resolve(q).top >= 1 ==> Resolve(q).skip < 0
  {
    JsNumber.ParseIntRoundTrip(v);
    assert ParseParam(q.page) == Some(v);
    var p := Resolve(q);
    assert p.page == v;
    if p.top >= 1 {
      MulMonotone(v - 1, -1, p.top);
    }
  }

  /** The row filter of the paged query:
      `RowNum > @skip AND RowNum <= (@skip + @top)`. */
  predicate InWindow(rowNum: int, skip: int, top: int) {
    skip < rowNum <= skip + top
  }

  /** `ROW_NUMBER()` over an ordered result: each row paired with its
      position, counted from `base + 1`. */
  function NumberedFrom<T>(rows: seq<T>, base: int): (ns: seq<(int, T)>)
    ensures |ns| == |rows|
  {
    if rows == [] then [] else [(base + 1, rows[0])] + NumberedFrom(rows[1..], base + 1)
  }

  function Numbered<T>(rows: seq<T>): seq<(int, T)> {
    NumberedFrom(rows, 0)
  }

  /** The outer `WHERE` of the paged query, applied row by row. */
  function SelectWhere<T>(ns: seq<(int, T)>, skip: int, top: int): (r: seq<(int, T)>)
    ensures |r| <= |ns|
  {
    if ns == [] then []
    else (if InWindow(ns[0].0, skip, top) then [ns[0]] else []) + SelectWhere(ns[1..], skip, top)
  }

  /** The rows without their `RowNum` column. */
  function Unnumbered<T>(ns: seq<(int, T)>): (rows: seq<T>)
    ensures |rows| == |ns|
  {
    if ns == [] then [] else [ns[0].1] + Unnumbered(ns[1..])
  }

  function Clamp(x: int, lo: int, hi: int): int
    requires lo <= hi
  {
    if x < lo then lo else if x > hi then hi else x
  }

  /** `w` is the run of `rows` that starts at index `lo` and holds exactly
      the rows whose 1-based position lies in the window. */
  predicate PageAt<T(==)>(rows: seq<T>, w: seq<T>, skip: int, top: int, lo: int) {
    0 <= lo <= lo + |w| <= |rows| && w == rows[lo..lo + |w|]
    && forall n :: 1 <= n <= |rows| ==> (InWindow(n, skip, top) <==> lo < n <= lo + |w|)
  }

  ghost predicate IsPage<T>(rows: seq<T>, w: seq<T>, skip: int, top: int) {
    exists lo :: PageAt(rows, w, skip, top, lo)
  }

  /** One page of an ordered result, as a slice: the rows in the order given,
      never more than `top` of them, and exactly those whose position is in
      the window. */
  function Window<T(==)>(rows: seq<T>, skip: int, top: int): (w: seq<T>)
    ensures |w| <= if top < 0 then 0 else top
    ensures IsPage(rows, w, skip, top)
  {
    var lo := Clamp(skip, 0, |rows|);
    var hi := Clamp(skip + top, lo, |rows|);
    assert PageAt(rows, rows[lo..hi], skip, top, lo);
    rows[lo..hi]
  }

  /** A page is the slice between the clamped bounds of the window. */
  lemma WindowIsSlice<T>(rows: seq<T>, skip: int, top: int)
    ensures var lo := Clamp(skip, 0, |rows|);
      Window(rows, skip, top) == rows[lo..Clamp(skip + top, lo, |rows|)]
  {
  }

  /** A page is determined by the window: `Window` is the only slice that
      holds exactly the rows in it. */
  lemma PageUnique<T>(rows: seq<T>, w: seq<T>, skip: int, top: int)
    requires IsPage(rows, w, skip, top)
    ensures w == Window(rows, skip, top)
  {
    var lo :| PageAt(rows, w, skip, top, lo);
    var v := Window(rows, skip, top);
    var lo' :| PageAt(rows, v, skip, top, lo');
    assert w != [] ==> InWindow(lo + 1, skip, top);
    assert v != [] ==> InWindow(lo' + 1, skip, top);
    if w != [] && v != [] {
      // Both start at the first position in the window and end at the last.
      assert InWindow(lo + 1, skip, top) && InWindow(lo' + 1, skip, top);
      assert InWindow(lo + |w|, skip, top) && InWindow(lo' + |v|, skip, top);
    }
  }

  /** Peeling the first row off: it is on the page exactly when position 1
      is in the window, and the rest is the page of the remaining rows with
      the window moved down by one. */
  lemma WindowCons<T>(rows: seq<T>, skip: int, top: int)
    requires rows != []
    ensures Window(rows, skip, top)
      == (if InWindow(1, skip, top) then [rows[0]] else []) + Window(rows[1..], skip - 1, top)
  {
    var n := |rows|;
    var lo := Clamp(skip, 0, n);
    var hi := Clamp(skip + top, lo, n);
    var lo' := Clamp(skip - 1, 0, n - 1);
    var hi' := Clamp(skip - 1 + top, lo', n - 1);
    WindowIsSlice(rows, skip, top);
    WindowIsSlice(rows[1..], skip - 1, top);
    WindowConsBounds(n, skip, top);
    SliceOfTail(rows, lo', hi');
    if InWindow(1, skip, top) {
      assert rows[lo..hi] == [rows[0]] + rows[1..hi];
    }
  }

  /** A slice of the tail is the slice of the whole one position on. */
  lemma SliceOfTail<T>(rows: seq<T>, i: int, j: int)
    requires 0 <= i <= j < |rows|
    ensures rows[1..][i..j] == rows[i + 1..j + 1]
  {
  }

  /** The bounds of `WindowCons`: dropping the first row moves both ends of
      the window down by one, and a window that holds the first row starts
      at it. */
  lemma WindowConsBounds(n: int, skip: int, top: int)
    requires n >= 1
    ensures var lo := Clamp(skip, 0, n);
      var hi := Clamp(skip + top, lo, n);
      var lo' := Clamp(skip - 1, 0, n - 1);
      var hi' := Clamp(skip - 1 + top, lo', n - 1);
      && (InWindow(1, skip, top) ==> lo == 0 && lo' == 0 && hi' == hi - 1)
      && (!InWindow(1, skip, top) && skip >= 1 ==> lo' == lo - 1 && hi' == hi - 1)
      && (!InWindow(1, skip, top) && skip < 1 ==> lo == hi && lo' == hi')
  {
  }

  /** The slice is the SQL filter: selecting by `RowNum` and dropping the
      column gives the same rows as `Window`. */
  lemma {:induction false} SelectWhereIsWindow<T>(rows: seq<T>, base: int, skip: int, top: int)
    ensures Unnumbered(SelectWhere(NumberedFrom(rows, base), skip, top)) == Window(rows, skip - base, top)
  {
    if rows != [] {
      var ns := NumberedFrom(rows, base);
      assert ns[0] == (base + 1, rows[0]) && ns[1..] == NumberedFrom(rows[1..], base + 1);
      SelectWhereIsWindow(rows[1..], base + 1, skip, top);
      WindowCons(rows, skip - base, top);
      UnnumberedAppend((if InWindow(base + 1, skip, top) then [ns[0]] else []),
        SelectWhere(ns[1..], skip, top));
    }
  }

  lemma {:induction false} UnnumberedAppend<T>(a: seq<(int, T)>, b: seq<(int, T)>)
    ensures Unnumbered(a + b) == Unnumbered(a) + Unnumbered(b)
  {
    if a != [] {
      assert (a + b)[1..] == a[1..] + b;
      UnnumberedAppend(a[1..], b);
    } else {
      assert a + b == b;
    }
  }

  /** Two windows side by side make one window. */
  lemma WindowSplit<T>(rows: seq<T>, skip: int, a: int, b: int)
    requires a >= 0 && b >= 0
    ensures Window(rows, skip, a) + Window(rows, skip + a, b) == Window(rows, skip, a + b)
  {
  }

  lemma MulSucc(a: int, c: int)
    ensures (a + 1) * c == a * c + c
  {
  }

  /** For a positive page size, page `p` and page `p + 1` are adjacent
      slices: together they are the window of twice the size. */
  lemma ConsecutivePages<T>(rows: seq<T>, p: int, top: int)
    requires top >= 1
    ensures Window(rows, (p - 1) * top, top) + Window(rows, p * top, top)
      == Window(rows, (p - 1) * top, 2 * top)
  {
    var a, b := (p - 1) * top, p * top;
    assert b == a + top by { MulSucc(p - 1, top); }
    WindowSplit(rows, a, top, top);
  }

  /** For a positive page size, no row position is on two different pages. */
  lemma PagesDisjoint(rowNum: int, p: int, p': int, top: int)
    requires top >= 1 && p != p'
    ensures !(InWindow(rowNum, (p - 1) * top, top) && InWindow(rowNum, (p' - 1) * top, top))
  {
    if p < p' {
      assert p * top <= (p' - 1) * top by { MulMonotone(p, p' - 1, top); }
    } else {
      assert p' * top <= (p - 1) * top by { MulMonotone(p', p - 1, top); }
    }
  }

  lemma MulMonotone(a: int, b: int, c: int)
    requires a <= b && c >= 0
    ensures a * c <= b * c
  {
  }

  /** Pages 1 to `n`, one after the other. */
  function FirstPages<T(==)>(rows: seq<T>, top: int, n: nat): seq<T> {
    if n == 0 then [] else FirstPages(rows, top, n - 1) + Window(rows, (n - 1) * top, top)
  }

  /** Reading pages 1 to `n` in turn gives the first `n * top` rows, in order,
      each once. */
  lemma {:induction false} FirstPagesArePrefix<T>(rows: seq<T>, top: int, n: nat)
    requires top >= 1
    ensures FirstPages(rows, top, n) == rows[..Clamp(n * top, 0, |rows|)]
  {
    if n > 0 {
      var k, m := (n - 1) * top, n * top;
      assert k + top == m by { MulSucc(n - 1, top); }
      assert k >= 0 by { MulMonotone(0, n - 1, top); }
      var a, b := Clamp(k, 0, |rows|), Clamp(m, 0, |rows|);
      assert FirstPages(rows, top, n) == FirstPages(rows, top, n - 1) + Window(rows, k, top);
      assert FirstPages(rows, top, n - 1) == rows[..a] by {
        FirstPagesArePrefix(rows, top, n - 1);
      }
      WindowIsSlice(rows, k, top);
      assert Window(rows, k, top) == rows[a..b];
      assert rows[..a] + rows[a..b] == rows[..b];
    }
  }

  /** `n` pages of `top` rows hold `count` rows, and `n - 1` pages do not. */
  predicate LeastPagesFor(n: int, top: int, count: int) {
    n >= 1 && (n - 1) * top < count <= n * top
  }

  /** For a negative page size `top`, `n` is `Math.ceil(count / top)`: the
      least integer with `n * top <= count`. */
  predicate CeilingForNegativeSize(n: int, top: int, count: int) {
    n * top <= count < (n - 1) * top
  }

  /** `totalPages`: there when a count was asked for and is not zero; then
      `Math.ceil(count / top)`, which for a positive size is the least
      number of pages of `top` rows that hold `count` rows. */
  function TotalPages(count: Option<nat>, top: int): (tp: Option<int>)
    requires top != 0
    ensures tp.Some? <==> count.Some? && count.value > 0
    ensures tp.Some? && top > 0 ==> LeastPagesFor(tp.value, top, count.value)
    ensures tp.Some? && top < 0 ==> CeilingForNegativeSize(tp.value, top, count.value)
  {
    if count.Some? && count.value != 0 then Some(JsNumber.CeilDiv(count.value, top)) else None
  }

  /** A negative size is sent through unchanged: 12 rows with `$top=-5`
      report -2 pages. */
  lemma NegativeSizePages()
    ensures TotalPages(Some(12), -5) == Some(-2)
  {
    var n := TotalPages(Some(12), -5).value;
    assert n * -5 <= 12 < (n - 1) * -5;
  }

  /** Walking pages 1 to `totalPages` reads every row exactly once, the last
      of those pages is not empty, and the page after it is. */
  lemma TotalPagesCoverRows<T>(rows: seq<T>, top: int)
    requires top >= 1 && |rows| > 0
    ensures var n := TotalPages(Some(|rows|), top).value;
      && FirstPages(rows, top, n) == rows
      && Window(rows, (n - 1) * top, top) != []
      && Window(rows, n * top, top) == []
  {
    var n := TotalPages(Some(|rows|), top).value;
    FirstPagesArePrefix(rows, top, n);
    assert rows[..|rows|] == rows;
    var w := Window(rows, (n - 1) * top, top);
    var lo :| PageAt(rows, w, (n - 1) * top, top, lo);
    assert InWindow((n - 1) * top + 1, (n - 1) * top, top);
    var v := Window(rows, n * top, top);
    var lo' :| PageAt(rows, v, n * top, top, lo');
  }
}
