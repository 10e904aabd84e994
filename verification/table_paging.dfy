/** Third stage of the recordings table: the page slice of the sorted list
    and the counters and buttons of `TablePagination`. */
module TablePaging {

  /** `Array.prototype.slice` index normalisation: a negative index counts
      from the end, and the result is clamped to `[0, len]`. */
  function SliceIndex(i: int, len: nat): (k: nat)
    ensures k <= len
    ensures 0 <= i <= len ==> k == i
    ensures i > len ==> k == len
  {
    if i < 0 then (if len + i < 0 then 0 else len + i)
    else if i > len then len
    else i
  }

  /** `s.slice(start, end)`. */
  function JsSlice<T>(s: seq<T>, start: int, end: int): (r: seq<T>)
    ensures |r| <= |s|
  {
    var a := SliceIndex(start, |s|);
    var b := SliceIndex(end, |s|);
    if b <= a then [] else s[a..b]
  }

  /** The rows of page `page`: `(page - 1) * rows` up to `rows` further rows. */
  function PageSlice<T>(s: seq<T>, page: int, rows: int): seq<T>
  {
    var start := (page - 1) * rows;
    JsSlice(s, start, start + rows)
  }

  /** For a real page number the slice is the window of the list starting at
      `(page - 1) * rows`, at most `rows` long and cut off at the end. */
  lemma PageSliceWindow<T>(s: seq<T>, page: int, rows: int)
    requires page >= 1 && rows > 0
    ensures var start := (page - 1) * rows;
      && |PageSlice(s, page, rows)| == (if start >= |s| then 0 else Min(rows, |s| - start))
      && forall k :: 0 <= k < |PageSlice(s, page, rows)| ==> PageSlice(s, page, rows)[k] == s[start + k]
  {
    var start := (page - 1) * rows;
    assert start >= 0 by {
      assert (page - 1) * rows >= 0 * rows;
    }
  }

  function Min(a: int, b: int): int { if a <= b then a else b }

  function Max(a: int, b: int): int { if a >= b then a else b }

  /** Every row of the list is on exactly page `k / rows + 1`, at position `k % rows`. */
  lemma RowOnItsPage<T>(s: seq<T>, k: int, rows: int)
    requires 0 <= k < |s| && rows > 0
    ensures var p := k / rows + 1;
      && k % rows < |PageSlice(s, p, rows)|
      && PageSlice(s, p, rows)[k % rows] == s[k]
  {
    var p := k / rows + 1;
    assert (p - 1) * rows + k % rows == k;
    PageSliceWindow(s, p, rows);
  }

  /** Pages `first` to `last`, one after the other. */
  function ConcatPages<T>(s: seq<T>, rows: int, first: int, last: int): seq<T>
    decreases last - first
  {
    if first > last then [] else PageSlice(s, first, rows) + ConcatPages(s, rows, first + 1, last)
  }

  /** The arithmetic of page boundaries used by `PagesCoverRest`. */
  lemma PageBounds(n: nat, rows: int, first: int)
    requires rows > 0 && first >= 1 && (first - 1) * rows <= n
    ensures (first - 1) * rows >= 0
    ensures first * rows == (first - 1) * rows + rows
    ensures first > TotalPages(n, rows) ==> (first - 1) * rows == n
    ensures first <= TotalPages(n, rows) ==> (first - 1) * rows < n
    ensures first <= TotalPages(n, rows) && first * rows > n ==> first == TotalPages(n, rows)
  {
    var t := TotalPages(n, rows);
    assert (first - 1) * rows >= 0 * rows;
    if first > t {
      assert (first - 1) * rows >= t * rows;
    }
    if first <= t {
      assert (first - 1) * rows <= (t - 1) * rows;
    }
  }

  /** Reading the pages from `first` to the last one gives the rest of the
      list from the first row of page `first`: no row is skipped or repeated. */
  lemma {:induction false} PagesCoverRest<T>(s: seq<T>, rows: int, first: int)
    requires rows > 0 && first >= 1 && (first - 1) * rows <= |s|
    ensures ConcatPages(s, rows, first, TotalPages(|s|, rows)) == s[(first - 1) * rows..]
    decreases TotalPages(|s|, rows) - first
  {
    PageBounds(|s|, rows, first);
    var start := (first - 1) * rows;
    var next := first * rows;
    var t := TotalPages(|s|, rows);
    if first <= t {
      PageSliceWindow(s, first, rows);
      if next <= |s| {
        PagesCoverRest(s, rows, first + 1);
        assert PageSlice(s, first, rows) == s[start..next];
        assert s[start..] == s[start..next] + s[next..];
      } else {
        assert PageSlice(s, first, rows) == s[start..];
      }
    }
  }

  /** The pages 1 to `TotalPages` read one after the other are the whole list. */
  lemma PagesPartitionList<T>(s: seq<T>, rows: int)
    requires rows > 0
    ensures ConcatPages(s, rows, 1, TotalPages(|s|, rows)) == s
  {
    PagesCoverRest(s, rows, 1);
  }

  /** `Math.ceil(totalItems / rowsPerPage)`. */
  function TotalPages(totalItems: nat, rowsPerPage: nat): (t: nat)
    requires rowsPerPage > 0
    ensures t * rowsPerPage >= totalItems
    ensures t > 0 ==> (t - 1) * rowsPerPage < totalItems
  {
    (totalItems + rowsPerPage - 1) / rowsPerPage
  }

  /** The item counter "start–end of total". */
  function StartItem(page: int, rowsPerPage: int): int
  {
    (page - 1) * rowsPerPage + 1
  }

  function EndItem(page: int, rowsPerPage: int, totalItems: int): int
  {
    Min(page * rowsPerPage, totalItems)
  }

  /** On every existing page the counter spans exactly the rows shown. */
  lemma CounterMatchesSlice<T>(s: seq<T>, page: int, rows: int)
    requires rows > 0 && 1 <= page <= TotalPages(|s|, rows)
    ensures EndItem(page, rows, |s|) - StartItem(page, rows) + 1 == |PageSlice(s, page, rows)|
    ensures 1 <= StartItem(page, rows) <= EndItem(page, rows, |s|)
  {
    var start := (page - 1) * rows;
    var t := TotalPages(|s|, rows);
    PageSliceWindow(s, page, rows);
    MulMonotone(page - 1, t - 1, rows);
    assert start < |s|;
    assert page * rows == start + rows;
  }

  lemma MulMonotone(a: int, b: int, c: int)
    requires 0 <= a <= b && c > 0
    ensures 0 <= a * c <= b * c
  {
  }

  /** An empty list reads "1–0 of 0": the start counter exceeds the end. */
  lemma EmptyCounter(rows: int)
    requires rows > 0
    ensures TotalPages(0, rows) == 0
    ensures StartItem(1, rows) == 1 && EndItem(1, rows, 0) == 0
  {
  }

  /** Previous is disabled exactly on page 1. */
  predicate PrevDisabled(page: int) { page == 1 }

  /** Next is disabled from the last page on. */
  predicate NextDisabled(page: int, totalPages: int) { page >= totalPages }

  datatype NavButton = Previous | Next

  /** The page after clicking an enabled button; a disabled button does nothing. */
  function Navigate(page: int, totalPages: int, b: NavButton): (p: int)
    ensures b == Previous && !PrevDisabled(page) ==> p == page - 1
    ensures b == Next && !NextDisabled(page, totalPages) ==> p == page + 1
    ensures b == Previous && PrevDisabled(page) ==> p == page
    ensures b == Next && NextDisabled(page, totalPages) ==> p == page
  {
    match b
    case Previous => if PrevDisabled(page) then page else page - 1
    case Next => if NextDisabled(page, totalPages) then page else page + 1
  }

  /** Starting from a page in `[1, max(1, totalPages)]`, the buttons never
      leave that range. */
  lemma NavigationStaysInRange(page: int, totalPages: nat, b: NavButton)
    requires 1 <= page <= Max(1, totalPages)
    ensures 1 <= Navigate(page, totalPages, b) <= Max(1, totalPages)
  {
  }

  /** The rows-per-page choices. */
  const RowsPerPageOptions: set<nat> := {10, 25, 50, 100}

  const InitialRowsPerPage: nat := 25

  lemma InitialRowsIsAnOption()
    ensures InitialRowsPerPage in RowsPerPageOptions
    ensures forall r :: r in RowsPerPageOptions ==> r > 0
  {
  }
}
