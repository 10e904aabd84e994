/** The state of `RecordingsTable` and the rows it shows: filter, then
    sort, then the page slice; and how each control changes the state. */
module TableView {
  import opened Seqs
  import opened Domain
  import opened Clock
  import opened TableFilter
  import opened TableSort
  import opened TablePaging
  import opened TableSelect

  datatype TableState = TableState(
    selected: set<string>,
    filters: Filters,
    sort: SortState,
    page: int,
    rowsPerPage: int)

  const InitialState: TableState := TableState({}, NoFilters, Unsorted, 1, InitialRowsPerPage)

  /** Every duration of the list is a well-formed `mm:ss`, so the duration
      comparator is a number for every pair. */
  predicate DurationsWellFormed(recs: seq<Recording>)
  {
    forall x :: x in recs ==> WellFormedDuration(x.duration)
  }

  /** The filtered list in table order: the list every page is cut from. */
  function Arranged(recs: seq<Recording>, today: int, st: TableState): (sorted: seq<Recording>)
    requires DurationsWellFormed(recs)
    ensures multiset(sorted) == multiset(FilterRecordings(recs, st.filters, today))
    ensures st.sort.field.None? || st.sort.direction.None? ==> sorted == FilterRecordings(recs, st.filters, today)
    ensures st.sort.field.Some? ==> AllComparable(st.sort.field.value, sorted)
    ensures st.sort.field.Some? && st.sort.direction.Some? ==> SortedBy(st.sort.field.value, st.sort.direction.value, sorted)
  {
    SortRecordings(FilterRecordings(recs, st.filters, today), st.sort)
  }

  /** The rows on screen. */
  function Visible(recs: seq<Recording>, today: int, st: TableState): (rows: seq<Recording>)
    requires DurationsWellFormed(recs)
    ensures forall x :: x in rows ==> x in recs && Matches(st.filters, today, x)
    ensures st.page >= 1 && st.rowsPerPage > 0 ==> |rows| <= st.rowsPerPage
  {
    var filtered := FilterRecordings(recs, st.filters, today);
    var sorted := Arranged(recs, today, st);
    var rows := PageSlice(sorted, st.page, st.rowsPerPage);
    forall x | x in rows ensures x in sorted {
      SliceMembers(sorted, st.page, st.rowsPerPage, x);
    }
    forall x | x in sorted ensures x in filtered {
      assert x in multiset(sorted);
    }
    PageAtMostRows(sorted, st.page, st.rowsPerPage);
    rows
  }

  /** Pages `first` to `last` of the table in state `st`, read one after
      the other, as a user paging through them with Next sees them. */
  function PagesFrom(recs: seq<Recording>, today: int, st: TableState, first: int, last: int): seq<Recording>
    requires DurationsWellFormed(recs)
    decreases last - first
  {
    if first > last then [] else Visible(recs, today, st.(page := first)) + PagesFrom(recs, today, st, first + 1, last)
  }

  /** Changing the page changes nothing but the slice. */
  lemma {:induction false} PagesFromAreSlices(recs: seq<Recording>, today: int, st: TableState, first: int, last: int)
    requires DurationsWellFormed(recs)
    ensures PagesFrom(recs, today, st, first, last) == ConcatPages(Arranged(recs, today, st), st.rowsPerPage, first, last)
    decreases last - first
  {
    if first <= last {
      PagesFromAreSlices(recs, today, st, first + 1, last);
      assert Arranged(recs, today, st.(page := first)) == Arranged(recs, today, st);
    }
  }

  /** Paging through the whole table shows every record that passes the
      filters, each as often as in the list, and no other; in column order
      when a sort is set, and in the list's own order when none is. */
  lemma PagesShowFilteredList(recs: seq<Recording>, today: int, st: TableState)
    requires DurationsWellFormed(recs) && st.rowsPerPage > 0
    ensures var filtered := FilterRecordings(recs, st.filters, today);
      var all := PagesFrom(recs, today, st, 1, TotalPages(|filtered|, st.rowsPerPage));
      && multiset(all) == multiset(filtered)
      && (st.sort.field.None? || st.sort.direction.None? ==> all == filtered)
      && (st.sort.field.Some? ==> AllComparable(st.sort.field.value, all))
      && (st.sort.field.Some? && st.sort.direction.Some? ==> SortedBy(st.sort.field.value, st.sort.direction.value, all))
  {
    var filtered := FilterRecordings(recs, st.filters, today);
    var sorted := Arranged(recs, today, st);
    assert |sorted| == |filtered| by {
      assert |multiset(sorted)| == |multiset(filtered)|;
    }
    PagesFromAreSlices(recs, today, st, 1, TotalPages(|filtered|, st.rowsPerPage));
    PagesPartitionList(sorted, st.rowsPerPage);
  }

  lemma PageAtMostRows<T>(s: seq<T>, page: int, rows: int)
    ensures page >= 1 && rows > 0 ==> |PageSlice(s, page, rows)| <= rows
  {
    if page >= 1 && rows > 0 {
      PageSliceWindow(s, page, rows);
    }
  }

  lemma SliceMembers<T>(s: seq<T>, page: int, rows: int, x: T)
    requires x in PageSlice(s, page, rows)
    ensures x in s
  {
    var r := PageSlice(s, page, rows);
    var k :| 0 <= k < |r| && r[k] == x;
    var a := SliceIndex((page - 1) * rows, |s|);
    assert r[k] == s[a + k];
  }

  datatype Event =
    | Search(query: string)
    | DateFilter(bucket: string)
    | StatusFilter(status: string)
    | OwnerFilter(owner: string)
    | RowsPerPage(rows: int)
    | SortBy(field: SortField)
    | PageChange(page: int)
    | SelectAllRows(checked: bool)
    | SelectRow(id: string, checked: bool)
    | LassoMove(hits: seq<string>, modifier: bool)

  /** The state after one control event; `shown` is the current page, which
      the header checkbox acts on. */
  function Step(st: TableState, shown: seq<Recording>, e: Event): (r: TableState)
    ensures e.Search? ==> r == st.(filters := st.filters.(search := e.query), page := 1)
    ensures e.DateFilter? ==> r == st.(filters := st.filters.(date := e.bucket), page := 1)
    ensures e.StatusFilter? ==> r == st.(filters := st.filters.(status := e.status), page := 1)
    ensures e.OwnerFilter? ==> r == st.(filters := st.filters.(owner := e.owner), page := 1)
    ensures e.RowsPerPage? ==> r == st.(rowsPerPage := e.rows, page := 1)
    ensures e.SortBy? ==> r == st.(sort := HandleSort(st.sort, e.field))
    ensures e.PageChange? ==> r == st.(page := e.page)
    ensures e.SelectAllRows? || e.SelectRow? || e.LassoMove? ==> r == st.(selected := r.selected)
  {
    match e
    case Search(q) => st.(filters := st.filters.(search := q), page := 1)
    case DateFilter(b) => st.(filters := st.filters.(date := b), page := 1)
    case StatusFilter(s) => st.(filters := st.filters.(status := s), page := 1)
    case OwnerFilter(o) => st.(filters := st.filters.(owner := o), page := 1)
    case RowsPerPage(n) => st.(rowsPerPage := n, page := 1)
    case SortBy(f) => st.(sort := HandleSort(st.sort, f))
    case PageChange(p) => st.(page := p)
    case SelectAllRows(c) => st.(selected := SelectAll(st.selected, shown, c))
    case SelectRow(id, c) => st.(selected := SelectOne(st.selected, id, c))
    case LassoMove(h, m) => st.(selected := LassoUpdate(st.selected, h, m))
  }

  /** Every filter edit and every rows-per-page choice returns to page 1 and
      keeps the selection and the sort; paging and sorting keep the filters. */
  lemma ResetsToFirstPage(st: TableState, shown: seq<Recording>, e: Event)
    ensures e.Search? || e.DateFilter? || e.StatusFilter? || e.OwnerFilter? || e.RowsPerPage? ==>
      Step(st, shown, e).page == 1 && Step(st, shown, e).selected == st.selected && Step(st, shown, e).sort == st.sort
    ensures e.SortBy? || e.PageChange? ==> Step(st, shown, e).filters == st.filters
  {
  }

  /** The table starts unfiltered and unsorted on page 1, where the rows shown
      are the first 25 records in their given order. */
  lemma InitialView(recs: seq<Recording>, today: int)
    requires DurationsWellFormed(recs)
    ensures Visible(recs, today, InitialState) == recs[..if |recs| < 25 then |recs| else 25]
  {
    var f := FilterRecordings(recs, NoFilters, today);
    FilterKeepsAll(recs, x => Matches(NoFilters, today, x));
    assert f == recs;
    PageSliceWindow(recs, 1, 25);
  }

  /** The sort state the table can reach from its initial state keeps field
      and direction both set or both unset. */
  lemma SortStaysCoherent(st: TableState, shown: seq<Recording>, e: Event)
    requires Coherent(st.sort)
    ensures Coherent(Step(st, shown, e).sort)
  {
  }
}
