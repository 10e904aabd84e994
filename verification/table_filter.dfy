/** First stage of the recordings table: the filter callback of
    `RecordingsTable` (free-text search, status, owner and date bucket). */
module TableFilter {
  import opened Seqs
  import opened Text
  import opened Domain

  /** The four filter inputs of the toolbar; the empty string means "no filter". */
  datatype Filters = Filters(search: string, date: string, status: string, owner: string)

  const NoFilters: Filters := Filters("", "", "", "")

  /** Case-insensitive substring test of the query against the name, the
      owner's name and the call type. A record without a call type matches
      on the first two fields only. */
  predicate SearchAccepts(query: string, r: Recording)
  {
    var q := Lower(query);
    Contains(Lower(r.name), q)
    || Contains(Lower(r.owner.name), q)
    || (r.callType.Some? && Contains(Lower(CallTypeName(r.callType.value)), q))
  }

  /** The search test as the source evaluates it: `||` short-circuits, and
      reading `toLowerCase` of a missing call type throws (`None`). */
  function SearchAsWritten(query: string, r: Recording): (res: Option<bool>)
    ensures res.None? ==> r.callType.None?
    ensures res.Some? ==> res.value == SearchAccepts(query, r)
  {
    var q := Lower(query);
    if Contains(Lower(r.name), q) || Contains(Lower(r.owner.name), q) then Some(true)
    else if r.callType.None? then None
    else Some(Contains(Lower(CallTypeName(r.callType.value)), q))
  }

  /** The date-bucket switch. `today` is the current calendar day; a bucket
      "Last N Days" rejects only days strictly before today minus N. */
  predicate DateAccepts(bucket: string, date: int, today: int)
  {
    if bucket == "Today" then date == today
    else if bucket == "Last 7 Days" then !(date < today - 7)
    else if bucket == "Last 30 Days" then !(date < today - 30)
    else if bucket == "Last 90 Days" then !(date < today - 90)
    else true
  }

  /** The filter callback: each non-empty filter may reject the record, in
      the order search, status, owner, date. */
  predicate Matches(f: Filters, today: int, r: Recording)
  {
    if f.search != "" && !SearchAccepts(f.search, r) then false
    else if f.status != "" && StatusName(r.status) != f.status then false
    else if f.owner != "" && r.owner.name != f.owner then false
    else if f.date != "" && !DateAccepts(f.date, r.date, today) then false
    else true
  }

  /** A record survives iff every non-empty filter accepts it. */
  lemma MatchesIffEveryFilterAccepts(f: Filters, today: int, r: Recording)
    ensures Matches(f, today, r) <==>
      && (f.search == "" || SearchAccepts(f.search, r))
      && (f.status == "" || StatusName(r.status) == f.status)
      && (f.owner == "" || r.owner.name == f.owner)
      && (f.date == "" || DateAccepts(f.date, r.date, today))
  {
  }

  /** The date buckets: "Today" is the current day only; "Last N Days"
      admits every day from today minus N on, future days included; any
      other value imposes nothing. */
  lemma DateBucketSemantics(bucket: string, date: int, today: int)
    ensures bucket == "Today" ==> (DateAccepts(bucket, date, today) <==> date == today)
    ensures bucket == "Last 7 Days" ==> (DateAccepts(bucket, date, today) <==> date >= today - 7)
    ensures bucket == "Last 30 Days" ==> (DateAccepts(bucket, date, today) <==> date >= today - 30)
    ensures bucket == "Last 90 Days" ==> (DateAccepts(bucket, date, today) <==> date >= today - 90)
    ensures bucket !in {"Today", "Last 7 Days", "Last 30 Days", "Last 90 Days"} ==> DateAccepts(bucket, date, today)
  {
  }

  /** The filtered list: the matching records in their original order, each
      as often as in the input. */
  function FilterRecordings(rs: seq<Recording>, f: Filters, today: int): (r: seq<Recording>)
    ensures Subsequence(r, rs)
    ensures forall x :: x in r <==> x in rs && Matches(f, today, x)
    ensures forall x {:trigger multiset(r)[x]} ::
              multiset(r)[x] == if Matches(f, today, x) then multiset(rs)[x] else 0
  {
    var r := Filter(rs, x => Matches(f, today, x));
    forall x ensures x in r <==> x in rs && Matches(f, today, x) {
      FilterMembership(rs, x => Matches(f, today, x), x);
    }
    r
  }

  /** The whole filter pass as the source runs it: `None` when the callback
      throws on some record. */
  function FilterAsWritten(rs: seq<Recording>, f: Filters, today: int): (res: Option<seq<Recording>>)
    ensures res.Some? ==> res.value == FilterRecordings(rs, f, today)
    ensures res.None? <==> f.search != "" && exists x :: x in rs && SearchAsWritten(f.search, x).None?
    decreases |rs|
  {
    if |rs| == 0 then Some([])
    else
      var head :=
        if f.search != "" then
          match SearchAsWritten(f.search, rs[0])
          case None => None
          case Some(b) => Some(Matches(f, today, rs[0]))
        else Some(Matches(f, today, rs[0]));
      match head
      case None => None
      case Some(keep) =>
        match FilterAsWritten(rs[1..], f, today)
        case None =>
          assert forall x :: x in rs[1..] ==> x in rs;
          None
        case Some(rest) =>
          assert rs == [rs[0]] + rs[1..];
          assert forall x :: x in rs ==> x == rs[0] || x in rs[1..];
          Some(if keep then [rs[0]] + rest else rest)
  }

  /** A query that occurs in no searched field empties the list, whatever the
      other filters say, and the corrected search never fails. */
  lemma UnmatchedQueryEmptiesList(rs: seq<Recording>, f: Filters, today: int)
    requires f.search != ""
    requires forall x :: x in rs ==> !SearchAccepts(f.search, x)
    ensures FilterRecordings(rs, f, today) == []
  {
    FilterKeepsNone(rs, x => Matches(f, today, x));
  }
}
