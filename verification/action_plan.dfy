/** The action plan footer: the practice drills and the trend badge. */
module ActionPlan {
  import opened Domain
  import opened ScoreHistory

  /** The trend badge colour: a rise, a fall, or no change. */
  function TrendBadgeClass(trend: int): string
  {
    if trend > 0 then "text-topic-next-steps bg-topic-next-steps-light"
    else if trend < 0 then "text-topic-objection bg-topic-objection-light"
    else "text-muted-foreground bg-muted"
  }

  /** The three colours follow the sign of the trend, and the '+' shown with
      a rise goes with the rise colour. */
  lemma TrendBadgeFollowsSign(a: int, b: int)
    ensures TrendBadgeClass(a) == TrendBadgeClass(b) <==> (a > 0 && b > 0) || (a < 0 && b < 0) || (a == 0 && b == 0)
    ensures TrendText(a)[0] == '+' <==> TrendBadgeClass(a) == TrendBadgeClass(1)
  {
    TrendTextSign(a);
  }

  /** The styling of one drill row. */
  datatype DrillRow = DrillRow(rowClass: string, checkIcon: bool, textClass: string, text: string)

  function RenderDrill(d: Drill): (row: DrillRow)
    ensures row.text == d.text
  {
    if d.completed then DrillRow("bg-topic-next-steps-light", true, "text-muted-foreground line-through", d.text)
    else DrillRow("bg-muted/30", false, "text-foreground", d.text)
  }

  /** The check icon, the struck-through text and the highlighted row all
      appear exactly for a completed drill. */
  lemma CompletedStylingIffCompleted(d: Drill)
    ensures RenderDrill(d).checkIcon <==> d.completed
    ensures RenderDrill(d).textClass == "text-muted-foreground line-through" <==> d.completed
    ensures RenderDrill(d).rowClass == "bg-topic-next-steps-light" <==> d.completed
  {
  }

  /** One row per drill, in order. */
  function RenderDrills(ds: seq<Drill>): (rows: seq<DrillRow>)
    ensures |rows| == |ds|
    ensures forall i :: 0 <= i < |ds| ==> rows[i].text == ds[i].text && (rows[i].checkIcon <==> ds[i].completed)
  {
    seq(|ds|, i requires 0 <= i < |ds| => RenderDrill(ds[i]))
  }
}
