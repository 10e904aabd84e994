/** Fourth stage of the recordings table: the selection set, changed by the
    header checkbox, the row checkboxes and the lasso rectangle; and the
    owner initials shown in each row. */
module TableSelect {
  import opened Seqs
  import opened Text
  import opened Domain

  /** The ids of the rows on the current page. */
  function PageIds(page: seq<Recording>): (ids: set<string>)
    ensures forall id :: id in ids <==> exists k :: 0 <= k < |page| && page[k].id == id
  {
    set k | 0 <= k < |page| :: page[k].id
  }

  /** `paginatedRecordings.forEach(r => set.add(r.id))`. */
  function AddEach(sel: set<string>, page: seq<Recording>): (r: set<string>)
    ensures r == sel + PageIds(page)
    decreases |page|
  {
    if |page| == 0 then sel
    else
      assert PageIds(page) == {page[0].id} + PageIds(page[1..]) by {
        forall id ensures id in PageIds(page) <==> id == page[0].id || id in PageIds(page[1..]) {
          if id in PageIds(page) && id != page[0].id {
            var k :| 0 <= k < |page| && page[k].id == id;
            assert page[1..][k - 1].id == id;
          }
          if id in PageIds(page[1..]) {
            var k :| 0 <= k < |page[1..]| && page[1..][k].id == id;
            assert page[k + 1].id == id;
          }
        }
      }
      AddEach(sel + {page[0].id}, page[1..])
  }

  /** `paginatedRecordings.forEach(r => set.delete(r.id))`. */
  function DeleteEach(sel: set<string>, page: seq<Recording>): (r: set<string>)
    ensures r == sel - PageIds(page)
    decreases |page|
  {
    if |page| == 0 then sel
    else
      assert PageIds(page) == {page[0].id} + PageIds(page[1..]) by {
        forall id ensures id in PageIds(page) <==> id == page[0].id || id in PageIds(page[1..]) {
          if id in PageIds(page) && id != page[0].id {
            var k :| 0 <= k < |page| && page[k].id == id;
            assert page[1..][k - 1].id == id;
          }
          if id in PageIds(page[1..]) {
            var k :| 0 <= k < |page[1..]| && page[1..][k].id == id;
            assert page[k + 1].id == id;
          }
        }
      }
      DeleteEach(sel - {page[0].id}, page[1..])
  }

  /** The header checkbox: checking adds exactly the page's ids, unchecking
      removes exactly them; ids of other pages keep their state. */
  function SelectAll(sel: set<string>, page: seq<Recording>, checked: bool): (r: set<string>)
    ensures forall id :: id in PageIds(page) ==> (id in r <==> checked)
    ensures forall id :: id !in PageIds(page) ==> (id in r <==> id in sel)
  {
    if checked then AddEach(sel, page) else DeleteEach(sel, page)
  }

  /** A row checkbox: sets that row's membership and touches nothing else. */
  function SelectOne(sel: set<string>, id: string, checked: bool): (r: set<string>)
    ensures id in r <==> checked
    ensures forall other :: other != id ==> (other in r <==> other in sel)
  {
    if checked then sel + {id} else sel - {id}
  }

  /** The header checkbox is checked: a non-empty page, every row selected. */
  predicate IsAllSelected(page: seq<Recording>, sel: set<string>)
  {
    |page| > 0 && forall k :: 0 <= k < |page| ==> page[k].id in sel
  }

  /** The header checkbox shows the partial state: some but not all rows selected. */
  predicate IsSomeSelected(page: seq<Recording>, sel: set<string>)
  {
    (exists k :: 0 <= k < |page| && page[k].id in sel) && !IsAllSelected(page, sel)
  }

  /** The header states are exclusive, an empty page shows neither, and the
      header click leads to the state it names. */
  lemma HeaderCheckboxStates(page: seq<Recording>, sel: set<string>)
    ensures !(IsAllSelected(page, sel) && IsSomeSelected(page, sel))
    ensures |page| == 0 ==> !IsAllSelected(page, sel) && !IsSomeSelected(page, sel)
    ensures |page| > 0 ==> IsAllSelected(page, SelectAll(sel, page, true))
    ensures !IsAllSelected(page, SelectAll(sel, page, false)) && !IsSomeSelected(page, SelectAll(sel, page, false))
  {
    var on := SelectAll(sel, page, true);
    forall k | 0 <= k < |page| ensures page[k].id in on {
      assert page[k].id in PageIds(page);
    }
    var off := SelectAll(sel, page, false);
    forall k | 0 <= k < |page| ensures page[k].id !in off {
      assert page[k].id in PageIds(page);
    }
  }

  /** A point in the table container's coordinates. */
  datatype Point = Point(x: real, y: real)

  /** The drawn selection rectangle. */
  datatype Rect = Rect(x: real, y: real, width: real, height: real)

  /** A row's box in the container's coordinates. */
  datatype Bounds = Bounds(left: real, top: real, right: real, bottom: real)

  function MinR(a: real, b: real): real { if a <= b then a else b }

  function MaxR(a: real, b: real): real { if a >= b then a else b }

  function Abs(a: real): (r: real)
    ensures r >= 0.0 && (r == a || r == -a)
  {
    if a < 0.0 then -a else a
  }

  /** The rectangle spanned by the press point and the cursor: its corner
      is the smaller coordinate on each axis, its sides the distances. */
  function NormalizeRect(start: Point, current: Point): (r: Rect)
    ensures r.width >= 0.0 && r.height >= 0.0
    ensures r.x == MinR(start.x, current.x) && r.x + r.width == MaxR(start.x, current.x)
    ensures r.y == MinR(start.y, current.y) && r.y + r.height == MaxR(start.y, current.y)
  {
    Rect(MinR(start.x, current.x), MinR(start.y, current.y), Abs(start.x - current.x), Abs(start.y - current.y))
  }

  /** Dragging one way or the other spans the same rectangle. */
  lemma NormalizeSymmetric(a: Point, b: Point)
    ensures NormalizeRect(a, b) == NormalizeRect(b, a)
  {
  }

  /** The row-hit test: not entirely to one side of the rectangle. */
  predicate Intersects(b: Bounds, sel: Rect)
  {
    !(b.left > sel.x + sel.width || b.right < sel.x || b.top > sel.y + sel.height || b.bottom < sel.y)
  }

  /** The hit test is overlap of closed intervals on both axes, so a row
      whose edge touches the rectangle's edge is hit. */
  lemma IntersectsIsClosedOverlap(b: Bounds, sel: Rect)
    ensures Intersects(b, sel) <==>
      && b.left <= sel.x + sel.width && sel.x <= b.right
      && b.top <= sel.y + sel.height && sel.y <= b.bottom
    ensures (&& sel.width >= 0.0 && sel.height >= 0.0 && b.left <= b.right
             && b.left == sel.x + sel.width && b.top <= sel.y <= b.bottom) ==> Intersects(b, sel)
  {
  }

  /** The registered rows in the order the row map iterates them. */
  datatype RowBox = RowBox(id: string, box: Bounds)

  /** `newlySelected`: the ids of the hit rows, in iteration order. */
  function LassoHits(rows: seq<RowBox>, sel: Rect): (hits: seq<string>)
    ensures |hits| <= |rows|
    ensures forall id :: id in hits <==>
      exists k :: 0 <= k < |rows| && rows[k].id == id
        && rows[k].box.left <= sel.x + sel.width && sel.x <= rows[k].box.right
        && rows[k].box.top <= sel.y + sel.height && sel.y <= rows[k].box.bottom
  {
    if |rows| == 0 then []
    else
      var rest := LassoHits(rows[1..], sel);
      IntersectsIsClosedOverlap(rows[0].box, sel);
      assert forall k :: 1 <= k < |rows| ==> rows[k] == rows[1..][k - 1];
      assert forall k :: 0 <= k < |rows| - 1 ==> rows[1..][k] == rows[k + 1];
      if Intersects(rows[0].box, sel) then [rows[0].id] + rest else rest
  }

  /** `ids.forEach(id => copy.add(id))`. */
  function AddIds(sel: set<string>, ids: seq<string>): (r: set<string>)
    ensures forall id :: id in r <==> id in sel || id in ids
    decreases |ids|
  {
    if |ids| == 0 then sel else AddIds(sel + {ids[0]}, ids[1..])
  }

  /** The selection after a cursor move: with ctrl or meta held the hits
      join the previous selection, otherwise they replace it. */
  function LassoUpdate(prev: set<string>, hits: seq<string>, modifier: bool): (r: set<string>)
    ensures modifier ==> r == prev + set id | id in hits
    ensures !modifier ==> r == set id | id in hits
  {
    if modifier then AddIds(prev, hits) else AddIds({}, hits)
  }

  /** A plain drag over empty space clears the selection; a modified drag
      never loses a selected row. */
  lemma LassoReplaceOrExtend(prev: set<string>, rows: seq<RowBox>, sel: Rect)
    ensures (forall k :: 0 <= k < |rows| ==> !Intersects(rows[k].box, sel)) ==> LassoUpdate(prev, LassoHits(rows, sel), false) == {}
    ensures prev <= LassoUpdate(prev, LassoHits(rows, sel), true)
  {
    if forall k :: 0 <= k < |rows| ==> !Intersects(rows[k].box, sel) {
      forall k | 0 <= k < |rows| {
        IntersectsIsClosedOverlap(rows[k].box, sel);
      }
      var hits := LassoHits(rows, sel);
      if |hits| > 0 {
        assert hits[0] in hits;
      }
    }
  }

  /** First character of every space-separated piece. An empty piece, from a
      doubled, leading or trailing space, gives `undefined`, which `join`
      renders as nothing. */
  function FirstChars(parts: seq<string>): (r: string)
    ensures |r| <= |parts|
  {
    if |parts| == 0 then ""
    else (if |parts[0]| > 0 then [parts[0][0]] else "") + FirstChars(parts[1..])
  }

  /** The first characters are exactly those of the non-empty pieces, in
      order. */
  lemma {:induction false} FirstCharsOfPieces(parts: seq<string>)
    ensures var words := Filter(parts, NonEmpty);
      && |FirstChars(parts)| == |words|
      && forall k :: 0 <= k < |words| ==> |words[k]| > 0 && FirstChars(parts)[k] == words[k][0]
  {
    if |parts| > 0 {
      FirstCharsOfPieces(parts[1..]);
      assert parts == [parts[0]] + parts[1..];
    }
  }

  /** The words of a name: the non-empty pieces between spaces. */
  function Words(name: string): (ws: seq<string>)
    ensures forall k :: 0 <= k < |ws| ==> |ws[k]| > 0
  {
    var ws := Filter(Split(name, ' '), NonEmpty);
    forall k | 0 <= k < |ws| ensures |ws[k]| > 0 {
      FilterMembership(Split(name, ' '), NonEmpty, ws[k]);
    }
    ws
  }

  /** `getInitials`: one upper-cased letter per word of the owner's name,
      the first letter of that word, in order. */
  function Initials(name: string): (r: string)
    ensures |r| == |Words(name)|
    ensures forall k :: 0 <= k < |r| ==> r[k] == UpperChar(Words(name)[k][0])
    ensures forall k :: 0 <= k < |r| ==> !IsLowerAscii(r[k])
  {
    FirstCharsOfPieces(Split(name, ' '));
    Upper(FirstChars(Split(name, ' ')))
  }

  /** A first and a last name separated by one space give two initials. */
  lemma InitialsOfTwoWords(first: string, last: string)
    requires |first| > 0 && |last| > 0
    requires forall i :: 0 <= i < |first| ==> first[i] != ' '
    requires forall i :: 0 <= i < |last| ==> last[i] != ' '
    ensures Initials(first + " " + last) == [UpperChar(first[0]), UpperChar(last[0])]
  {
    SplitAtFirst(first, ' ', last);
    SplitWithoutSeparator(last, ' ');
    assert first + " " + last == first + [' '] + last;
    assert Split(first + " " + last, ' ') == [first, last];
    assert Words(first + " " + last) == [first, last] by {
      assert Filter([first, last], NonEmpty) == [first] + Filter([last], NonEmpty);
      assert Filter([last], NonEmpty) == [last] + Filter([], NonEmpty);
    }
  }
}
