/** The discovery-score history shared by the goal tracker and the action
    plan: its extremes, the chart's vertical range, and the trend between
    the last two calls. */
module ScoreHistory {
  import opened Seqs
  import opened Text
  import opened Domain

  /** `Math.max(...scores)`, for a non-empty history. */
  function MaxScore(h: seq<ProgressPoint>): (m: int)
    requires |h| > 0
    ensures exists i :: 0 <= i < |h| && h[i].discoveryScore == m
    ensures forall i :: 0 <= i < |h| ==> h[i].discoveryScore <= m
  {
    if |h| == 1 then h[0].discoveryScore
    else
      var rest := MaxScore(h[1..]);
      assert forall i :: 1 <= i < |h| ==> h[i] == h[1..][i - 1];
      if h[0].discoveryScore >= rest then h[0].discoveryScore else rest
  }

  /** `Math.min(...scores)`, for a non-empty history. */
  function MinScore(h: seq<ProgressPoint>): (m: int)
    requires |h| > 0
    ensures exists i :: 0 <= i < |h| && h[i].discoveryScore == m
    ensures forall i :: 0 <= i < |h| ==> h[i].discoveryScore >= m
  {
    if |h| == 1 then h[0].discoveryScore
    else
      var rest := MinScore(h[1..]);
      assert forall i :: 1 <= i < |h| ==> h[i] == h[1..][i - 1];
      if h[0].discoveryScore <= rest then h[0].discoveryScore else rest
  }

  /** `max - min || 1`. On an empty history the maximum is −Infinity and
      the minimum +Infinity, so the difference is −Infinity, which `|| 1`
      keeps because it is truthy; `None` stands for that non-finite range.
      Otherwise the range is positive: the spread of the scores, or 1 when
      they are all equal. */
  function Range(h: seq<ProgressPoint>): (r: Option<int>)
    ensures r.Some? <==> |h| > 0
    ensures r.Some? ==> r.value > 0
    ensures r.Some? ==> forall i, j :: 0 <= i < |h| && 0 <= j < |h| ==> h[i].discoveryScore - h[j].discoveryScore <= r.value
  {
    if |h| == 0 then None
    else
      var spread := MaxScore(h) - MinScore(h);
      Some(if spread == 0 then 1 else spread)
  }

  /** All scores equal exactly when the range falls back to 1 with no spread. */
  lemma RangeOfFlatHistory(h: seq<ProgressPoint>)
    requires |h| > 0
    ensures (forall i :: 0 <= i < |h| ==> h[i].discoveryScore == h[0].discoveryScore) <==> MaxScore(h) == MinScore(h)
    ensures MaxScore(h) == MinScore(h) ==> Range(h) == Some(1)
  {
  }

  /** `history[history.length - k]?.discoveryScore ?? 0`: the score `k`
      places from the end, or 0 when there is no such entry. */
  function ScoreFromEnd(h: seq<ProgressPoint>, k: nat): int
  {
    if 1 <= k <= |h| then h[|h| - k].discoveryScore else 0
  }

  /** Latest minus previous score. */
  function Trend(h: seq<ProgressPoint>): (t: int)
    ensures |h| >= 2 ==> t == h[|h| - 1].discoveryScore - h[|h| - 2].discoveryScore
    ensures |h| == 1 ==> t == h[0].discoveryScore
    ensures |h| == 0 ==> t == 0
  {
    ScoreFromEnd(h, 1) - ScoreFromEnd(h, 2)
  }

  /** Adding a call makes the trend its score minus the score before it. */
  lemma TrendAfterAppend(h: seq<ProgressPoint>, p: ProgressPoint)
    requires |h| > 0
    ensures Trend(h + [p]) == p.discoveryScore - h[|h| - 1].discoveryScore
  {
  }

  /** `{trend > 0 ? '+' : ''}{trend}`. */
  function TrendText(t: int): string
  {
    (if t > 0 then "+" else "") + IntToString(t)
  }

  /** The text starts with '+' for a rise, '-' for a fall and '0' for no
      change, and the digits after the sign are the size of the change. */
  lemma TrendTextSign(t: int)
    ensures TrendText(t)[0] == '+' <==> t > 0
    ensures TrendText(t)[0] == '-' <==> t < 0
    ensures t == 0 ==> TrendText(t) == "0"
    ensures t > 0 ==> AllDigits(TrendText(t)[1..]) && ParseNat(TrendText(t)[1..]) == t
    ensures t < 0 ==> AllDigits(TrendText(t)[1..]) && ParseNat(TrendText(t)[1..]) == -t
  {
    if t > 0 {
      TrendTextOfSign(t, "+");
      ParseNatToString(t);
    } else if t < 0 {
      TrendTextOfSign(t, "-");
      ParseNatToString(-t);
    } else {
      assert TrendText(0) == NatToString(0) == "0";
    }
  }

  /** A non-zero trend is its sign followed by the digits of its size. */
  lemma TrendTextOfSign(t: int, sign: string)
    requires t != 0 && sign == (if t > 0 then "+" else "-")
    ensures TrendText(t) == sign + NatToString(if t > 0 then t else -t)
    ensures TrendText(t)[0] == sign[0]
    ensures TrendText(t)[1..] == NatToString(if t > 0 then t else -t)
  {
    var n: nat := if t > 0 then t else -t;
    assert TrendText(t) == sign + NatToString(n);
    SignedText(n, sign);
  }

  /** A sign followed by the decimal digits of a positive number. */
  lemma SignedText(n: nat, sign: string)
    requires n > 0 && |sign| == 1
    ensures (sign + NatToString(n))[0] == sign[0]
    ensures (sign + NatToString(n))[1..] == NatToString(n)
    ensures ParseNat(NatToString(n)) == n
  {
    ParseNatToString(n);
    assert (sign + NatToString(n))[1..] == NatToString(n);
  }
}
