/** The call-metrics panel: talk/listen split, warnings, deltas against the
    previous call, the delta indicator and the pace bars. */
module Metrics {
  import opened Seqs
  import opened Text
  import opened Domain

  /** The built-in previous call, used when the caller passes none. */
  const DefaultPrevious: CallMetrics := CallMetrics(48, 138, "2m 50s", 170, 6, 4, 3)

  /** The prospect's share of the conversation. */
  function ListenRatio(m: CallMetrics): (listen: int)
    ensures listen + m.talkRatio == 100
    ensures 0 <= m.talkRatio <= 100 ==> 0 <= listen <= 100
  {
    100 - m.talkRatio
  }

  predicate TalkWarning(m: CallMetrics)
  {
    m.talkRatio > 60
  }

  predicate MonologueWarning(m: CallMetrics)
  {
    m.longestMonologueSeconds > 120
  }

  /** A talk warning leaves the prospect under forty percent of the call. */
  lemma TalkWarningMeansListenBelowForty(m: CallMetrics)
    ensures TalkWarning(m) <==> ListenRatio(m) < 40
  {
  }

  /** The four deltas shown under the metrics. */
  datatype Deltas = Deltas(talk: int, pace: int, monologue: int, question: int)

  /** Current minus previous, the previous call defaulting to the built-in one. */
  function ComputeDeltas(m: CallMetrics, previous: Option<CallMetrics>): (d: Deltas)
    ensures var p := if previous.Some? then previous.value else DefaultPrevious;
      && m.talkRatio == p.talkRatio + d.talk
      && m.wordsPerMinute == p.wordsPerMinute + d.pace
      && m.longestMonologueSeconds == p.longestMonologueSeconds + d.monologue
      && m.questionScore == p.questionScore + d.question
  {
    var p := if previous.Some? then previous.value else DefaultPrevious;
    Deltas(m.talkRatio - p.talkRatio, m.wordsPerMinute - p.wordsPerMinute,
           m.longestMonologueSeconds - p.longestMonologueSeconds, m.questionScore - p.questionScore)
  }

  /** Swapping the two calls negates every delta, and a call compared with
      itself shows no change. */
  lemma DeltasAntisymmetric(a: CallMetrics, b: CallMetrics)
    ensures var d, e := ComputeDeltas(a, Some(b)), ComputeDeltas(b, Some(a));
      d.talk == -e.talk && d.pace == -e.pace && d.monologue == -e.monologue && d.question == -e.question
    ensures ComputeDeltas(a, Some(a)) == Deltas(0, 0, 0, 0)
  {
  }

  /** The trend icon in front of a change. */
  datatype Icon = TrendingUp | TrendingDown

  /** What `DeltaIndicator` renders: "Same", or a coloured change with a
      trend icon, then a text arrow, the magnitude and the unit. */
  datatype Indicator =
    | Same
    | Change(positive: bool, negative: bool, icon: Icon, arrow: char, magnitude: nat, unit: string)

  function Abs(x: int): nat
  {
    if x < 0 then -x else x
  }

  /** The good/bad classification of a non-zero delta: a rise is good,
      unless the metric is inverted (less talking, shorter monologues). */
  function Classify(delta: int, inverted: bool): (pn: (bool, bool))
  {
    if inverted then (delta < 0, delta > 0) else (delta > 0, delta < 0)
  }

  /** The indicator with the arrow following the sign of the change. */
  function DeltaIndicator(delta: int, inverted: bool, unit: string): (ind: Indicator)
    ensures ind.Same? <==> delta == 0
    ensures ind.Change? ==> ind.positive != ind.negative
    ensures ind.Change? ==> (ind.positive <==> if inverted then delta < 0 else delta > 0)
    ensures ind.Change? ==> ind.magnitude == Abs(delta) && ind.unit == unit
    ensures ind.Change? ==> (ind.icon == TrendingUp <==> ind.positive)
    ensures ind.Change? ==> (ind.arrow == '↑' <==> delta > 0) && (ind.arrow == '↓' <==> delta < 0)
  {
    if delta == 0 then Same
    else
      var (pos, neg) := Classify(delta, inverted);
      Change(pos, neg, if pos then TrendingUp else TrendingDown, if delta > 0 then '↑' else '↓', Abs(delta), unit)
  }

  /** The indicator as written: the icon shows whether the change is good,
      and the text arrow is '↓' exactly when it is, whatever its sign. */
  function DeltaIndicatorAsWritten(delta: int, inverted: bool, unit: string): (ind: Indicator)
    ensures ind.Same? <==> delta == 0
    ensures ind.Change? ==> (ind.icon == TrendingUp <==> ind.positive)
    ensures ind.Change? ==> (ind.arrow == '↓' <==> ind.positive)
  {
    if delta == 0 then Same
    else
      var (pos, neg) := Classify(delta, inverted);
      Change(pos, neg, if pos then TrendingUp else TrendingDown, if pos then '↓' else '↑', Abs(delta), unit)
  }

  /** As written the icon and the text arrow point opposite ways on every
      change: TrendingUp always comes with '↓'. With the arrow following the
      sign they agree exactly on the metrics where a rise is good. */
  lemma IconAgainstArrow(delta: int, inverted: bool, unit: string)
    requires delta != 0
    ensures var w := DeltaIndicatorAsWritten(delta, inverted, unit);
      w.icon == TrendingUp <==> w.arrow == '↓'
    ensures var c := DeltaIndicator(delta, inverted, unit);
      (c.icon == TrendingUp <==> c.arrow == '↑') <==> !inverted
  {
  }

  /** `inverted` swaps the good and bad colours and nothing else. */
  lemma InvertedSwapsColours(delta: int, unit: string)
    requires delta != 0
    ensures DeltaIndicator(delta, true, unit).positive == DeltaIndicator(delta, false, unit).negative
    ensures DeltaIndicator(delta, true, unit).negative == DeltaIndicator(delta, false, unit).positive
    ensures DeltaIndicator(delta, true, unit).arrow == DeltaIndicator(delta, false, unit).arrow
  {
  }

  /** As written the text arrow is right for the inverted metrics (talk
      ratio, monologue) and backwards for the others (pace, questions): a
      pace rising from 138 to 145 words per minute reads "↓ 7". */
  lemma ArrowDiscrepancy(delta: int, unit: string)
    requires delta != 0
    ensures DeltaIndicatorAsWritten(delta, true, unit) == DeltaIndicator(delta, true, unit)
    ensures DeltaIndicatorAsWritten(delta, false, unit).arrow != DeltaIndicator(delta, false, unit).arrow
    ensures DeltaIndicatorAsWritten(145 - 138, false, "").arrow == '↓'
  {
  }

  /** The text after the arrow: the magnitude in decimal, then the unit. */
  function IndicatorText(ind: Indicator): (s: string)
    ensures ind.Same? ==> s == "Same"
    ensures ind.Change? ==> |s| >= 3 + |ind.unit| && s[0] == ind.arrow && s[1] == ' '
  {
    if ind.Same? then "Same" else [ind.arrow, ' '] + NatToString(ind.magnitude) + ind.unit
  }

  /** The digits shown read back as the size of the change. */
  lemma IndicatorTextShowsMagnitude(delta: int, inverted: bool, unit: string)
    requires delta != 0
    ensures var s := IndicatorText(DeltaIndicator(delta, inverted, unit));
      var digits := s[2..|s| - |unit|];
      AllDigits(digits) && ParseNat(digits) == Abs(delta) && s[|s| - |unit|..] == unit
  {
    var ind := DeltaIndicator(delta, inverted, unit);
    var s := IndicatorText(ind);
    assert s[2..|s| - |unit|] == NatToString(Abs(delta));
    ParseNatToString(Abs(delta));
  }

  /** The pace gauge has eight bars. */
  const PaceBarCount: nat := 8

  function PaceThreshold(i: nat): nat
  {
    80 + 15 * i
  }

  predicate PaceBarLit(wpm: int, i: nat)
  {
    wpm >= PaceThreshold(i)
  }

  /** A bar whose threshold lies in the optimal 120 to 150 band. */
  predicate PaceBarOptimal(i: nat)
  {
    120 <= PaceThreshold(i) <= 150
  }

  /** Only the fourth and fifth bars are optimal. */
  lemma OptimalBarsAreThreeAndFour(i: nat)
    requires i < PaceBarCount
    ensures PaceBarOptimal(i) <==> i == 3 || i == 4
  {
  }

  /** How many bars are lit: they form a prefix of the gauge. */
  function LitPaceBars(wpm: int): (n: nat)
    ensures n <= PaceBarCount
    ensures forall i: nat :: i < PaceBarCount ==> (PaceBarLit(wpm, i) <==> i < n)
  {
    if wpm < 80 then 0
    else if (wpm - 80) / 15 + 1 >= PaceBarCount then PaceBarCount
    else (wpm - 80) / 15 + 1
  }

  /** A faster pace never lights fewer bars. */
  lemma LitPaceBarsMonotone(w1: int, w2: int)
    requires w1 <= w2
    ensures LitPaceBars(w1) <= LitPaceBars(w2)
  {
  }

  /** The colour of bar `i`. */
  function PaceBarClass(wpm: int, i: nat): string
  {
    if PaceBarLit(wpm, i) then (if PaceBarOptimal(i) then "bg-primary" else "bg-muted-foreground")
    else "bg-muted"
  }

  /** The primary colour marks exactly the lit optimal bars. */
  lemma PrimaryMarksLitOptimal(wpm: int, i: nat)
    requires i < PaceBarCount
    ensures PaceBarClass(wpm, i) == "bg-primary" <==> PaceBarLit(wpm, i) && (i == 3 || i == 4)
    ensures PaceBarClass(wpm, i) == "bg-muted" <==> !PaceBarLit(wpm, i)
  {
  }
}
