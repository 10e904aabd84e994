/** Second stage of the recordings table: the column comparator, the
    tri-state header click and the sort of the filtered list. */
module TableSort {
  import opened Seqs
  import opened Domain
  import opened Clock

  datatype SortField = ByName | ByDuration | ByOwner | ByDate | ByStatus

  datatype Direction = Asc | Desc

  /** `sortField` and `sortDirection`; `None` is JavaScript's `null`. */
  datatype SortState = SortState(field: Option<SortField>, direction: Option<Direction>)

  const Unsorted: SortState := SortState(None, None)

  /** Field and direction are both set or both unset. */
  predicate Coherent(s: SortState)
  {
    s.field.None? <==> s.direction.None?
  }

  /** `handleSort`: the current field cycles asc, desc, unsorted; any other
      field (or an unsorted table) starts at asc. */
  function HandleSort(s: SortState, f: SortField): (r: SortState)
    ensures s.field != Some(f) ==> r == SortState(Some(f), Some(Asc))
    ensures s.field == Some(f) && s.direction == Some(Asc) ==> r == SortState(Some(f), Some(Desc))
    ensures s.field == Some(f) && s.direction == Some(Desc) ==> r == Unsorted
    ensures Coherent(s) ==> Coherent(r)
  {
    if s.field == Some(f) then
      if s.direction == Some(Asc) then s.(direction := Some(Desc))
      else if s.direction == Some(Desc) then SortState(None, None)
      else s
    else SortState(Some(f), Some(Asc))
  }

  /** Three clicks on one header from an unsorted table return to unsorted,
      passing through asc and desc. */
  lemma ThreeClicksRestoreUnsorted(f: SortField)
    ensures HandleSort(Unsorted, f) == SortState(Some(f), Some(Asc))
    ensures HandleSort(HandleSort(Unsorted, f), f) == SortState(Some(f), Some(Desc))
    ensures HandleSort(HandleSort(HandleSort(Unsorted, f), f), f) == Unsorted
  {
  }

  /** `a.localeCompare(b)`, taken as code-point lexicographic order. */
  function LexCompare(a: string, b: string): (c: int)
    ensures -1 <= c <= 1
    ensures c == 0 <==> a == b
  {
    if |a| == 0 then (if |b| == 0 then 0 else -1)
    else if |b| == 0 then 1
    else if a[0] < b[0] then -1
    else if a[0] > b[0] then 1
    else
      var c := LexCompare(a[1..], b[1..]);
      assert a == [a[0]] + a[1..] && b == [b[0]] + b[1..];
      c
  }

  lemma {:induction false} LexAntisymmetric(a: string, b: string)
    ensures LexCompare(a, b) == -LexCompare(b, a)
  {
    if |a| > 0 && |b| > 0 && a[0] == b[0] {
      LexAntisymmetric(a[1..], b[1..]);
    }
  }

  lemma {:induction false} LexTransitive(a: string, b: string, c: string)
    requires LexCompare(a, b) <= 0 && LexCompare(b, c) <= 0
    ensures LexCompare(a, c) <= 0
  {
    if |a| > 0 && |b| > 0 && |c| > 0 && a[0] == b[0] == c[0] {
      LexTransitive(a[1..], b[1..], c[1..]);
    }
  }

  /** A record can be compared on field `f`: the duration sort needs a
      well-formed `mm:ss` string. */
  predicate Comparable(f: SortField, r: Recording)
  {
    f != ByDuration || WellFormedDuration(r.duration)
  }

  function DurationKey(r: Recording): nat
    requires WellFormedDuration(r.duration)
  {
    ParseDuration(r.duration).value
  }

  /** The comparator's `comparison` for one column, before the direction is applied. */
  function Compare(f: SortField, a: Recording, b: Recording): int
    requires Comparable(f, a) && Comparable(f, b)
  {
    match f
    case ByName => LexCompare(a.name, b.name)
    case ByDuration => DurationKey(a) - DurationKey(b)
    case ByOwner => LexCompare(a.owner.name, b.owner.name)
    case ByDate => a.date - b.date
    case ByStatus => LexCompare(StatusName(a.status), StatusName(b.status))
  }

  /** The comparator handed to `sort`: `desc` negates the column comparison. */
  function Directed(f: SortField, d: Direction, a: Recording, b: Recording): int
    requires Comparable(f, a) && Comparable(f, b)
  {
    if d == Desc then -Compare(f, a, b) else Compare(f, a, b)
  }

  lemma CompareAntisymmetric(f: SortField, d: Direction, a: Recording, b: Recording)
    requires Comparable(f, a) && Comparable(f, b)
    ensures Directed(f, d, a, b) == -Directed(f, d, b, a)
  {
    match f
    case ByName => LexAntisymmetric(a.name, b.name);
    case ByOwner => LexAntisymmetric(a.owner.name, b.owner.name);
    case ByStatus => LexAntisymmetric(StatusName(a.status), StatusName(b.status));
    case _ =>
  }

  lemma CompareTransitive(f: SortField, d: Direction, a: Recording, b: Recording, c: Recording)
    requires Comparable(f, a) && Comparable(f, b) && Comparable(f, c)
    requires Directed(f, d, a, b) <= 0 && Directed(f, d, b, c) <= 0
    ensures Directed(f, d, a, c) <= 0
  {
    match f
    case ByName =>
      if d == Asc {
        LexTransitive(a.name, b.name, c.name);
      } else {
        LexAntisymmetric(a.name, b.name);
        LexAntisymmetric(b.name, c.name);
        LexAntisymmetric(a.name, c.name);
        LexTransitive(c.name, b.name, a.name);
      }
    case ByOwner =>
      if d == Asc {
        LexTransitive(a.owner.name, b.owner.name, c.owner.name);
      } else {
        LexAntisymmetric(a.owner.name, b.owner.name);
        LexAntisymmetric(b.owner.name, c.owner.name);
        LexAntisymmetric(a.owner.name, c.owner.name);
        LexTransitive(c.owner.name, b.owner.name, a.owner.name);
      }
    case ByStatus =>
      var sa, sb, sc := StatusName(a.status), StatusName(b.status), StatusName(c.status);
      if d == Asc {
        LexTransitive(sa, sb, sc);
      } else {
        LexAntisymmetric(sa, sb);
        LexAntisymmetric(sb, sc);
        LexAntisymmetric(sa, sc);
        LexTransitive(sc, sb, sa);
      }
    case _ =>
  }

  predicate AllComparable(f: SortField, s: seq<Recording>)
  {
    forall x :: x in s ==> Comparable(f, x)
  }

  /** Every pair, not only neighbours, is in comparator order. */
  predicate SortedBy(f: SortField, d: Direction, s: seq<Recording>)
    requires AllComparable(f, s)
  {
    forall i, j :: 0 <= i < j < |s| ==> Directed(f, d, s[i], s[j]) <= 0
  }

  /** Inserts `x` after every element that does not compare above it, so
      that equal elements keep their arrival order. */
  function Insert(f: SortField, d: Direction, x: Recording, t: seq<Recording>): (r: seq<Recording>)
    requires Comparable(f, x) && AllComparable(f, t) && SortedBy(f, d, t)
    ensures multiset(r) == multiset(t) + multiset{x}
    ensures AllComparable(f, r)
    ensures SortedBy(f, d, r)
    decreases |t|
  {
    if |t| == 0 then [x]
    else if Directed(f, d, x, t[0]) < 0 then
      InsertAtFront(f, d, x, t);
      [x] + t
    else
      var rest := Insert(f, d, x, t[1..]);
      InsertBehindHead(f, d, x, t, rest);
      [t[0]] + rest
  }

  /** An element that compares below the head goes in front of it. */
  lemma InsertAtFront(f: SortField, d: Direction, x: Recording, t: seq<Recording>)
    requires Comparable(f, x) && AllComparable(f, t) && SortedBy(f, d, t)
    requires |t| > 0 && Directed(f, d, x, t[0]) < 0
    ensures AllComparable(f, [x] + t) && SortedBy(f, d, [x] + t)
  {
    forall j | 0 <= j < |t| ensures Directed(f, d, x, t[j]) <= 0 {
      if j > 0 {
        CompareTransitive(f, d, x, t[0], t[j]);
      }
    }
    assert forall i :: 1 <= i < |[x] + t| ==> ([x] + t)[i] == t[i - 1];
  }

  /** Otherwise the head stays first, ahead of the rest with `x` inserted. */
  lemma InsertBehindHead(f: SortField, d: Direction, x: Recording, t: seq<Recording>, rest: seq<Recording>)
    requires Comparable(f, x) && AllComparable(f, t) && SortedBy(f, d, t)
    requires |t| > 0 && Directed(f, d, x, t[0]) >= 0
    requires multiset(rest) == multiset(t[1..]) + multiset{x}
    requires AllComparable(f, rest) && SortedBy(f, d, rest)
    ensures multiset([t[0]] + rest) == multiset(t) + multiset{x}
    ensures AllComparable(f, [t[0]] + rest) && SortedBy(f, d, [t[0]] + rest)
  {
    assert t == [t[0]] + t[1..];
    HeadBeforeRest(f, d, x, t, rest);
    PrependSorted(f, d, t[0], rest);
  }

  /** The head of a sorted list comes no later than anything in the rest
      with `x` inserted. */
  lemma HeadBeforeRest(f: SortField, d: Direction, x: Recording, t: seq<Recording>, rest: seq<Recording>)
    requires Comparable(f, x) && AllComparable(f, t) && SortedBy(f, d, t)
    requires |t| > 0 && Directed(f, d, x, t[0]) >= 0
    requires multiset(rest) == multiset(t[1..]) + multiset{x}
    requires AllComparable(f, rest)
    ensures forall y :: y in rest ==> Directed(f, d, t[0], y) <= 0
  {
    CompareAntisymmetric(f, d, x, t[0]);
    forall y | y in rest ensures Directed(f, d, t[0], y) <= 0 {
      assert y in multiset(rest);
      if y != x {
        assert y in t[1..];
      }
    }
  }

  /** A sorted list stays sorted under a new head that comes no later than
      any of its elements. */
  lemma PrependSorted(f: SortField, d: Direction, h: Recording, rest: seq<Recording>)
    requires Comparable(f, h) && AllComparable(f, rest) && SortedBy(f, d, rest)
    requires forall y :: y in rest ==> Directed(f, d, h, y) <= 0
    ensures AllComparable(f, [h] + rest) && SortedBy(f, d, [h] + rest)
  {
    assert forall i :: 1 <= i < |[h] + rest| ==> ([h] + rest)[i] == rest[i - 1];
  }

  /** Stable insertion sort of the list by the directed comparator. */
  function SortBy(f: SortField, d: Direction, s: seq<Recording>): (r: seq<Recording>)
    requires AllComparable(f, s)
    ensures multiset(r) == multiset(s)
    ensures AllComparable(f, r)
    ensures SortedBy(f, d, r)
    decreases |s|
  {
    if |s| == 0 then []
    else
      assert s == s[..|s| - 1] + [s[|s| - 1]];
      Insert(f, d, s[|s| - 1], SortBy(f, d, s[..|s| - 1]))
  }

  /** The sorted list of the table: unchanged without a field and a
      direction, otherwise a sorted permutation of the filtered list. */
  function SortRecordings(s: seq<Recording>, st: SortState): (r: seq<Recording>)
    requires st.field.Some? ==> AllComparable(st.field.value, s)
    ensures multiset(r) == multiset(s)
    ensures st.field.None? || st.direction.None? ==> r == s
    ensures st.field.Some? ==> AllComparable(st.field.value, r)
    ensures st.field.Some? && st.direction.Some? ==> SortedBy(st.field.value, st.direction.value, r)
  {
    if st.field.None? || st.direction.None? then s
    else SortBy(st.field.value, st.direction.value, s)
  }

  /** Sorted descending is sorted ascending read backwards. */
  lemma DescIsReversedAsc(f: SortField, s: seq<Recording>)
    requires AllComparable(f, s)
    ensures SortedBy(f, Desc, s) <==> forall i, j :: 0 <= i < j < |s| ==> Compare(f, s[j], s[i]) <= 0
  {
    forall i, j | 0 <= i < j < |s| {
      CompareAntisymmetric(f, Asc, s[i], s[j]);
    }
  }
}
