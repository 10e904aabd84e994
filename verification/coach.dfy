/** The contextual coach panel: the insight under the playhead, the summary
    of the first critical moments, and the objection playlist. */
module Coach {
  import opened Seqs
  import opened Text
  import opened Domain
  import opened Clock
  import opened TablePaging
  import JsNum

  /** Insight `i` covers time `t`: `t` in the half-open `[start, end)`. The
      start is the insight's `timestampSeconds`. */
  predicate Covers(ins: CoachingInsight, t: real)
  {
    ins.timestampSeconds as real <= t < ins.endSeconds as real
  }

  /** `insights.find(...)`: the index of the first insight, in list order,
      that covers `t`; `None` selects the summary view. */
  function CurrentInsight(insights: seq<CoachingInsight>, t: real): (r: Option<nat>)
    ensures r.Some? ==> r.value < |insights| && Covers(insights[r.value], t)
    ensures r.Some? ==> forall j :: 0 <= j < r.value ==> !Covers(insights[j], t)
    ensures r.None? <==> forall j :: 0 <= j < |insights| ==> !Covers(insights[j], t)
    decreases |insights|
  {
    if |insights| == 0 then None
    else if Covers(insights[0], t) then Some(0)
    else
      match CurrentInsight(insights[1..], t)
      case None =>
        assert forall j :: 1 <= j < |insights| ==> insights[j] == insights[1..][j - 1];
        None
      case Some(k) =>
        assert forall j :: 1 <= j <= k ==> insights[j] == insights[1..][j - 1];
        Some(k + 1)
  }

  /** Where intervals overlap the earliest listed insight wins. */
  lemma EarliestInsightWins(insights: seq<CoachingInsight>, i: nat, t: real)
    requires i < |insights| && Covers(insights[i], t)
    ensures CurrentInsight(insights, t).Some?
    ensures CurrentInsight(insights, t).value <= i
  {
  }

  /** Insights whose intervals are pairwise disjoint. */
  predicate PairwiseDisjoint(insights: seq<CoachingInsight>)
  {
    forall i, j :: 0 <= i < j < |insights| ==>
      insights[i].endSeconds <= insights[j].timestampSeconds || insights[j].endSeconds <= insights[i].timestampSeconds
  }

  /** With disjoint intervals the lookup returns an insight exactly when that
      insight covers the time. */
  lemma DisjointLookupIsExact(insights: seq<CoachingInsight>, i: nat, t: real)
    requires PairwiseDisjoint(insights) && i < |insights|
    ensures CurrentInsight(insights, t) == Some(i) <==> Covers(insights[i], t)
  {
    if Covers(insights[i], t) {
      EarliestInsightWins(insights, i, t);
      var k := CurrentInsight(insights, t).value;
      assert k == i;
    }
  }

  /** The lookup as written reads `startSeconds`, which insights do not
      have, so the comparison is with `undefined` and never holds. The scan
      starts at index `from`. */
  function CurrentInsightAsWritten(insights: seq<CoachingInsight>, t: real, from: nat): (r: Option<nat>)
    ensures r.None?
    decreases |insights| - from
  {
    if from >= |insights| then None
    else
      var startRead := JsNum.Undefined;
      if t < insights[from].endSeconds as real && JsNum.AtLeast(t, startRead) then Some(from)
      else CurrentInsightAsWritten(insights, t, from + 1)
  }

  /** As written the "Rewind & Rewrite" card never shows: at the start of an
      insight the intended lookup finds it, the written one finds nothing. */
  lemma CurrentInsightDiscrepancy(ins: CoachingInsight)
    requires ins.timestampSeconds < ins.endSeconds
    ensures CurrentInsight([ins], ins.timestampSeconds as real) == Some(0)
    ensures CurrentInsightAsWritten([ins], ins.timestampSeconds as real, 0) == None
  {
  }

  /** `insights.slice(0, 3)`: the first three insights, or all if fewer. */
  function CriticalMoments(insights: seq<CoachingInsight>): (r: seq<CoachingInsight>)
    ensures |r| == if |insights| < 3 then |insights| else 3
    ensures r <= insights
  {
    JsSlice(insights, 0, 3)
  }

  /** The summary's time label for a start second: `m:ss`. */
  function TimeLabel(secs: nat): (s: string)
    ensures ParseDuration(s) == Some(secs)
  {
    ParseMinSec(secs);
    MinSec(secs)
  }

  /** The summary label as written: both halves come from the missing
      `startSeconds`, so `Math.floor(undefined / 60)` and `undefined % 60`
      are both `NaN`, which renders as "NaN". */
  function SummaryLabelAsWritten(ins: CoachingInsight): (s: string)
    ensures s == "NaN:NaN"
    ensures !WellFormedDuration(s)
  {
    var startRead := JsNum.Undefined;
    var minutes := JsNum.Floor(JsNum.Div(startRead, 60.0));
    var seconds := JsNum.Rem(startRead, 60.0);
    var shown := JsNum.NonNumberText(minutes) + ":" + PadStart2(JsNum.NonNumberText(seconds));
    assert shown == "NaN" + ":" + "NaN";
    assert Split(shown, ':') == ["NaN", "NaN"] by {
      SplitAtFirst("NaN", ':', "NaN");
      SplitWithoutSeparator("NaN", ':');
      assert "NaN" + ":" + "NaN" == "NaN" + [':'] + "NaN";
    }
    assert !IsDigit('N');
    shown
  }

  /** Clicking a summary item seeks to the start of its insight, where that
      insight is covering whenever its interval is not empty. */
  function SummarySeekTarget(ins: CoachingInsight): (t: real)
    ensures ins.timestampSeconds < ins.endSeconds ==> Covers(ins, t)
  {
    ins.timestampSeconds as real
  }

  /** As written the click passes the missing `startSeconds`. */
  function SummarySeekTargetAsWritten(ins: CoachingInsight): (t: JsNum.Num)
    ensures !t.Finite?
  {
    JsNum.Undefined
  }

  /** Summary item `i` is insight `i`; with disjoint intervals, clicking it
      brings up that insight's card, while the click as written sets the
      page's time to a non-number. */
  lemma SummaryClickShowsInsight(insights: seq<CoachingInsight>, i: nat)
    requires PairwiseDisjoint(insights) && i < |CriticalMoments(insights)|
    requires insights[i].timestampSeconds < insights[i].endSeconds
    ensures CriticalMoments(insights)[i] == insights[i]
    ensures CurrentInsight(insights, SummarySeekTarget(CriticalMoments(insights)[i])) == Some(i)
    ensures !SummarySeekTargetAsWritten(CriticalMoments(insights)[i]).Finite?
  {
    DisjointLookupIsExact(insights, i, SummarySeekTarget(insights[i]));
  }

  /** An objection is highlighted while the playhead is strictly within ten
      seconds of it. */
  predicate ObjectionActive(o: Objection, t: real)
  {
    var diff := t - o.timestampSeconds as real;
    (if diff < 0.0 then -diff else diff) < 10.0
  }

  /** The window is the open interval of ten seconds either side. */
  lemma ObjectionWindow(o: Objection, t: real)
    ensures ObjectionActive(o, t) <==> (o.timestampSeconds - 10) as real < t < (o.timestampSeconds + 10) as real
  {
  }

  /** The highlighted objections at time `t`, by index. */
  function ActiveObjections(objs: seq<Objection>, t: real): (r: set<nat>)
    ensures forall i: nat :: i in r <==> i < |objs| && (objs[i].timestampSeconds - 10) as real < t < (objs[i].timestampSeconds + 10) as real
  {
    forall i | 0 <= i < |objs| {
      ObjectionWindow(objs[i], t);
    }
    set i: nat | i < |objs| && ObjectionActive(objs[i], t)
  }

  /** Objections twenty seconds or more apart are never highlighted together;
      closer ones can be. */
  lemma ObjectionsOverlapOnlyWhenClose(a: Objection, b: Objection, t: real)
    ensures b.timestampSeconds - a.timestampSeconds >= 20 ==> !(ObjectionActive(a, t) && ObjectionActive(b, t))
    ensures b.timestampSeconds - a.timestampSeconds < 20 && a.timestampSeconds <= b.timestampSeconds ==>
      var mid := (a.timestampSeconds + b.timestampSeconds) as real / 2.0;
      ObjectionActive(a, mid) && ObjectionActive(b, mid)
  {
    ObjectionWindow(a, t);
    ObjectionWindow(b, t);
    var mid := (a.timestampSeconds + b.timestampSeconds) as real / 2.0;
    ObjectionWindow(a, mid);
    ObjectionWindow(b, mid);
  }

  /** Clicking an objection seeks to exactly its timestamp. */
  function ObjectionSeekTarget(o: Objection): real
  {
    o.timestampSeconds as real
  }

  /** After the seek the clicked objection is highlighted. */
  lemma SeekHighlightsObjection(o: Objection)
    ensures ObjectionActive(o, ObjectionSeekTarget(o))
  {
  }
}
