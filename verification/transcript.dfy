/** The interactive transcript: which line is active at the playhead, the
    per-line notes and the highlight styling. */
module Transcript {
  import opened Seqs
  import opened Text
  import opened Domain
  import JsNum

  /** The end of line `i`'s span: the next line's start, or thirty seconds
      after its own start for the last line, without cutting at the end of
      the recording (the player's strip cuts it; this view does not). */
  function EndTime(lines: seq<TranscriptLine>, i: nat): int
    requires i < |lines|
  {
    if i + 1 < |lines| then lines[i + 1].timestampSeconds else lines[i].timestampSeconds + 30
  }

  /** Line `i` is active at time `t`: `t` lies in the half-open span
      `[start, end)`. The start is the line's `timestampSeconds`. */
  predicate IsActiveLine(lines: seq<TranscriptLine>, i: nat, t: real)
    requires i < |lines|
  {
    lines[i].timestampSeconds as real <= t < EndTime(lines, i) as real
  }

  /** With start times in order, a line active at `t` leaves every later
      line inactive, so no two lines are active at once. */
  lemma LaterLinesInactive(lines: seq<TranscriptLine>, i: nat, j: nat, t: real)
    requires NonDecreasingStarts(lines)
    requires i < j < |lines|
    requires IsActiveLine(lines, i, t)
    ensures !IsActiveLine(lines, j, t)
  {
    assert lines[i + 1].timestampSeconds <= lines[j].timestampSeconds;
  }

  /** Before the first line starts, and from thirty seconds after the last
      line starts, no line is active. */
  lemma NoneActiveOutside(lines: seq<TranscriptLine>, t: real)
    requires NonDecreasingStarts(lines) && |lines| > 0
    requires t < lines[0].timestampSeconds as real || t >= (lines[|lines| - 1].timestampSeconds + 30) as real
    ensures forall i :: 0 <= i < |lines| ==> !IsActiveLine(lines, i, t)
  {
    forall i | 0 <= i < |lines| ensures !IsActiveLine(lines, i, t) {
      if i + 1 < |lines| {
        assert lines[i + 1].timestampSeconds <= lines[|lines| - 1].timestampSeconds;
      }
    }
  }

  /** From line `k` on, every time in `[start_k, start_last + 30)` has an active line. */
  lemma {:induction false} CoveredFrom(lines: seq<TranscriptLine>, k: nat, t: real)
    requires NonDecreasingStarts(lines) && k < |lines|
    requires lines[k].timestampSeconds as real <= t < (lines[|lines| - 1].timestampSeconds + 30) as real
    ensures exists i :: k <= i < |lines| && IsActiveLine(lines, i, t)
    decreases |lines| - k
  {
    if IsActiveLine(lines, k, t) {
    } else {
      CoveredFrom(lines, k + 1, t);
    }
  }

  /** Every time from the first start to thirty seconds after the last start
      has exactly one active line. */
  lemma ExactlyOneActive(lines: seq<TranscriptLine>, t: real)
    requires NonDecreasingStarts(lines) && |lines| > 0
    requires lines[0].timestampSeconds as real <= t < (lines[|lines| - 1].timestampSeconds + 30) as real
    ensures exists i :: 0 <= i < |lines| && IsActiveLine(lines, i, t)
    ensures forall i, j :: 0 <= i < j < |lines| && IsActiveLine(lines, i, t) ==> !IsActiveLine(lines, j, t)
  {
    CoveredFrom(lines, 0, t);
    forall i, j | 0 <= i < j < |lines| && IsActiveLine(lines, i, t)
      ensures !IsActiveLine(lines, j, t)
    {
      LaterLinesInactive(lines, i, j, t);
    }
  }

  /** The first active line, found by scanning the list. The page tests
      every row on its own and could highlight several; with ordered
      starts at most one is active (`LaterLinesInactive`), so the first is
      the only one. */
  method FindActiveLine(lines: seq<TranscriptLine>, t: real) returns (r: Option<nat>)
    ensures r.Some? ==> r.value < |lines| && IsActiveLine(lines, r.value, t)
    ensures r.Some? ==> forall j :: 0 <= j < r.value ==> !IsActiveLine(lines, j, t)
    ensures r.None? ==> forall j :: 0 <= j < |lines| ==> !IsActiveLine(lines, j, t)
  {
    var i := 0;
    while i < |lines|
      invariant 0 <= i <= |lines|
      invariant forall j :: 0 <= j < i ==> !IsActiveLine(lines, j, t)
    {
      if IsActiveLine(lines, i, t) {
        return Some(i);
      }
      i := i + 1;
    }
    return None;
  }

  /** The test as written reads `startSeconds`, which transcript lines do
      not have: both the start and the end become non-numbers. */
  function IsActiveLineAsWritten(lines: seq<TranscriptLine>, i: nat, t: real): (active: bool)
    requires i < |lines|
    ensures !active
  {
    var startRead := JsNum.Undefined;
    var nextRead := JsNum.Undefined;
    var endTime := JsNum.Coalesce(nextRead, JsNum.Plus(startRead, 30.0));
    JsNum.ComparisonsWithNonNumbersFail(t, startRead);
    JsNum.AtLeast(t, startRead) && JsNum.Below(t, endTime)
  }

  /** As written no line is ever highlighted, although the intended rule
      marks the first line active at its own start. */
  lemma ActiveLineDiscrepancy(line: TranscriptLine)
    ensures IsActiveLine([line], 0, line.timestampSeconds as real)
    ensures !IsActiveLineAsWritten([line], 0, line.timestampSeconds as real)
  {
  }

  /** Clicking line `i` seeks to its start, where it is the active line
      unless the next line starts at the same second. */
  function LineSeekTarget(lines: seq<TranscriptLine>, i: nat): (t: real)
    requires i < |lines|
    ensures (i + 1 < |lines| ==> lines[i].timestampSeconds < lines[i + 1].timestampSeconds) ==> IsActiveLine(lines, i, t)
  {
    lines[i].timestampSeconds as real
  }

  /** As written the click passes the missing `startSeconds`, that is
      `undefined`. */
  function LineSeekTargetAsWritten(lines: seq<TranscriptLine>, i: nat): (t: JsNum.Num)
    requires i < |lines|
    ensures !t.Finite?
  {
    JsNum.Undefined
  }

  /** A line is active at a page time only when that time is a number: every
      comparison with a non-number is false. */
  predicate ActiveAtPageTime(lines: seq<TranscriptLine>, i: nat, time: JsNum.Num)
    requires i < |lines|
  {
    time.Finite? && IsActiveLine(lines, i, time.v)
  }

  /** "Click any line to jump": with ascending starts the intended click
      makes the clicked line the one highlighted; the click as written
      leaves a page time at which no line is highlighted, even by the
      intended rule. */
  lemma LineClickJumps(lines: seq<TranscriptLine>, i: nat)
    requires StrictlyAscendingStarts(lines) && i < |lines|
    ensures ActiveAtPageTime(lines, i, JsNum.Finite(LineSeekTarget(lines, i)))
    ensures forall j :: 0 <= j < |lines| && j != i ==> !ActiveAtPageTime(lines, j, JsNum.Finite(LineSeekTarget(lines, i)))
    ensures forall j :: 0 <= j < |lines| ==> !ActiveAtPageTime(lines, j, LineSeekTargetAsWritten(lines, i))
  {
    var t := LineSeekTarget(lines, i);
    forall j | 0 <= j < |lines| && j != i
      ensures !IsActiveLine(lines, j, t)
    {
      if j < i {
        assert EndTime(lines, j) == lines[j + 1].timestampSeconds <= lines[i].timestampSeconds;
      } else {
        LaterLinesInactive(lines, i, j, t);
      }
    }
  }

  /** The notes typed against lines, by line index. */
  type Notes = map<nat, string>

  /** `notes[index]` is truthy: a non-empty note is stored. */
  predicate HasNote(notes: Notes, i: nat)
  {
    i in notes && notes[i] != ""
  }

  /** The add-note click: the button exists only on a line without a note,
      and only a non-empty answer to the prompt is stored. */
  function AddNote(notes: Notes, i: nat, answer: Option<string>): (r: Notes)
    ensures HasNote(notes, i) ==> r == notes
    ensures !HasNote(notes, i) && answer.Some? && answer.value != "" ==> i in r && r[i] == answer.value
    ensures (answer.None? || answer == Some("")) ==> r == notes
    ensures forall j :: j != i ==> (j in r <==> j in notes) && (j in notes ==> r[j] == notes[j])
  {
    if HasNote(notes, i) then notes
    else if answer.Some? && answer.value != "" then notes[i := answer.value]
    else notes
  }

  /** Every stored note is non-empty, and adding notes keeps it so. */
  predicate NotesNonEmpty(notes: Notes)
  {
    forall i :: i in notes ==> notes[i] != ""
  }

  lemma AddNoteKeepsNotesNonEmpty(notes: Notes, i: nat, answer: Option<string>)
    requires NotesNonEmpty(notes)
    ensures NotesNonEmpty(AddNote(notes, i, answer))
    ensures forall j :: HasNote(notes, j) ==> HasNote(AddNote(notes, i, answer), j)
  {
  }

  /** `getHighlightClass`. */
  function HighlightClass(h: Option<Highlight>): (c: string)
    ensures h.None? ==> c == "border-l-4 border-l-transparent"
  {
    match h
    case Some(ObjectionTag) => "bg-destructive/5 border-l-4 border-l-destructive"
    case Some(SignalTag) => "bg-topic-next-steps/5 border-l-4 border-l-topic-next-steps"
    case Some(DiscoveryTag) => "bg-topic-discovery/5 border-l-4 border-l-topic-discovery"
    case Some(NextStepsTag) => "bg-topic-next-steps/5 border-l-4 border-l-topic-next-steps"
    case None => "border-l-4 border-l-transparent"
  }

  /** Signal and next-steps share one style; the other styles are pairwise
      different and differ from the untagged style. */
  lemma HighlightClassesShared(h: Option<Highlight>, k: Option<Highlight>)
    ensures HighlightClass(Some(SignalTag)) == HighlightClass(Some(NextStepsTag))
    ensures HighlightClass(h) == HighlightClass(k) <==>
      h == k || (h in {Some(SignalTag), Some(NextStepsTag)} && k in {Some(SignalTag), Some(NextStepsTag)})
  {
    if HighlightClass(h) == HighlightClass(k) && h != k {
      ClassKey(h);
      ClassKey(k);
      assert |HighlightClass(h)| == |HighlightClass(k)|;
    }
  }

  /** The four styles have four different lengths. */
  lemma ClassKey(h: Option<Highlight>)
    ensures |HighlightClass(h)| == match h
      case None => 31
      case Some(ObjectionTag) => 48
      case Some(DiscoveryTag) => 56
      case Some(_) => 58
  {
  }

  /** The badge of a tagged line: "● Signal" for signal, otherwise the tag
      name with its first letter upper-cased. */
  function BadgeText(h: Highlight): string
  {
    if h == SignalTag then "● Signal" else "● " + Capitalize(HighlightName(h))
  }

  /** The signal special case agrees with the general rule, so every badge
      is "● " followed by the capitalised tag name. */
  lemma BadgeIsCapitalizedName(h: Highlight)
    ensures BadgeText(h) == "● " + Capitalize(HighlightName(h))
  {
    if h == SignalTag {
      assert Capitalize("signal") == [UpperChar('s')] + "ignal";
    }
  }
}
