/** The goal tracker: the status band of the latest trend, how many calls
    met the target score, and the verdict sentence. */
module GoalTracker {
  import opened Seqs
  import opened Text
  import opened Domain
  import opened ScoreHistory

  datatype Status = Improving | Flat | Regressing

  /** A rise of more than two points is improving, a fall of more than two
      is regressing, anything in between is flat. */
  function StatusOf(trend: int): (s: Status)
    ensures s == Improving <==> trend > 2
    ensures s == Regressing <==> trend < -2
    ensures s == Flat <==> -2 <= trend <= 2
  {
    if trend > 2 then Improving else if trend < -2 then Regressing else Flat
  }

  /** The badge text and colour of each status. */
  function StatusLabel(s: Status): string
  {
    match s
    case Improving => "Improving"
    case Regressing => "Regressing"
    case Flat => "Steady"
  }

  function StatusColour(s: Status): string
  {
    match s
    case Improving => "bg-topic-next-steps text-primary-foreground"
    case Regressing => "bg-destructive text-primary-foreground"
    case Flat => "bg-muted text-muted-foreground"
  }

  /** Different statuses show different badges. */
  lemma StatusBadgesDistinct(a: Status, b: Status)
    ensures StatusLabel(a) == StatusLabel(b) <==> a == b
    ensures StatusColour(a) == StatusColour(b) <==> a == b
  {
  }

  /** The number of calls scoring at least `target`. */
  function MeetingGoal(h: seq<ProgressPoint>, target: int): (n: nat)
    ensures n <= |h|
    ensures n == 0 <==> forall i :: 0 <= i < |h| ==> h[i].discoveryScore < target
    ensures n == |h| <==> forall i :: 0 <= i < |h| ==> h[i].discoveryScore >= target
  {
    if |h| == 0 then 0
    else
      var rest := MeetingGoal(h[1..], target);
      assert forall i :: 1 <= i < |h| ==> h[i] == h[1..][i - 1];
      (if h[0].discoveryScore >= target then 1 else 0) + rest
  }

  /** Raising the target never lets more calls meet it. */
  lemma {:induction false} MeetingGoalAntitone(h: seq<ProgressPoint>, t1: int, t2: int)
    requires t1 <= t2
    ensures MeetingGoal(h, t2) <= MeetingGoal(h, t1)
  {
    if |h| > 0 {
      MeetingGoalAntitone(h[1..], t1, t2);
    }
  }

  /** The count is the one of the list filtered on the target, as the
      source computes it. */
  lemma {:induction false} MeetingGoalIsFilterLength(h: seq<ProgressPoint>, target: int)
    ensures MeetingGoal(h, target) == |Filter(h, (p: ProgressPoint) => p.discoveryScore >= target)|
  {
    if |h| > 0 {
      MeetingGoalIsFilterLength(h[1..], target);
    }
  }

  /** The sentence under the chart, by status. */
  function Verdict(s: Status, met: nat, total: nat): string
  {
    var counts := NatToString(met) + " of your last " + NatToString(total) + " calls met the goal.";
    match s
    case Improving => "You're trending in the right direction. " + counts
    case Regressing => "Needs attention. Only " + counts
    case Flat => "Holding steady. " + counts
  }

  /** Each status opens its verdict with its own word, so the sentence
      tells the status apart. */
  lemma VerdictNamesStatus(s: Status, met: nat, total: nat)
    ensures Verdict(s, met, total)[0] == match s
      case Improving => 'Y'
      case Regressing => 'N'
      case Flat => 'H'
  {
  }

  /** What the tracker shows for a history and a target. */
  datatype View = View(status: Status, met: nat, total: nat, trendText: string, verdict: string)

  function Render(h: seq<ProgressPoint>, target: int): (v: View)
    ensures v.met <= v.total == |h|
    ensures v.met == MeetingGoal(h, target)
    ensures v.status == StatusOf(Trend(h))
    ensures v.trendText == TrendText(Trend(h))
    ensures |v.trendText| > 0 && (v.trendText[0] == '+' <==> Trend(h) > 0)
    ensures v.verdict == Verdict(v.status, v.met, v.total)
  {
    var t := Trend(h);
    TrendTextSign(t);
    var met := MeetingGoal(h, target);
    View(StatusOf(t), met, |h|, TrendText(t), Verdict(StatusOf(t), met, |h|))
  }

  /** An empty history reads as steady with no call meeting the goal. */
  lemma EmptyHistoryIsSteady(target: int)
    ensures Render([], target).status == Flat && Render([], target).met == 0
  {
  }
}
