/** The coaching session of the demo call, and the legacy detail derived
    from it. Prose fields (transcript texts, summary, advice, insight texts,
    objection quotes) are left empty: nothing the application computes
    depends on them. */
module MockSession {
  import opened Seqs
  import opened Text
  import opened Clock
  import opened Domain
  import opened Coach
  import opened Metrics
  import opened ScoreHistory
  import GoalTracker

  function Segment(start: int, end: int, speaker: Speaker, topic: Option<Topic>): TimelineSegment
  {
    TimelineSegment(start, end, speaker, topic)
  }

  function Insight(start: int, end: int): CoachingInsight
  {
    CoachingInsight(start, end, "", "", "")
  }

  const SessionTranscript: seq<TranscriptLine> := [
    TranscriptLine(Me, "", "00:00", 0, None, None),
    TranscriptLine(Prospect, "", "00:15", 15, None, None),
    TranscriptLine(Me, "", "00:28", 28, Some(DiscoveryTag), None),
    TranscriptLine(Prospect, "", "00:42", 42, Some(SignalTag), None),
    TranscriptLine(Me, "", "01:05", 65, None, None),
    TranscriptLine(Prospect, "", "01:22", 82, Some(SignalTag), None),
    TranscriptLine(Me, "", "01:35", 95, None, None),
    TranscriptLine(Prospect, "", "02:10", 130, Some(ObjectionTag), None),
    TranscriptLine(Me, "", "02:35", 155, None, None),
    TranscriptLine(Prospect, "", "02:55", 175, None, None),
    TranscriptLine(Me, "", "03:10", 190, None, None),
    TranscriptLine(Prospect, "", "03:30", 210, Some(ObjectionTag), None),
    TranscriptLine(Me, "", "03:52", 232, None, None),
    TranscriptLine(Prospect, "", "04:15", 255, Some(SignalTag), None),
    TranscriptLine(Me, "", "04:32", 272, Some(NextStepsTag), None)
  ]

  const SessionSegments: seq<TimelineSegment> := [
    Segment(0, 14, Me, Some(DiscoveryTopic)),
    Segment(15, 27, Prospect, None),
    Segment(28, 41, Me, Some(DiscoveryTopic)),
    Segment(42, 64, Prospect, None),
    Segment(65, 81, Me, None),
    Segment(82, 94, Prospect, None),
    Segment(95, 129, Me, None),
    Segment(130, 154, Prospect, Some(ObjectionTopic)),
    Segment(155, 174, Me, None),
    Segment(175, 189, Prospect, None),
    Segment(190, 209, Me, None),
    Segment(210, 231, Prospect, Some(ObjectionTopic)),
    Segment(232, 254, Me, None),
    Segment(255, 271, Prospect, None),
    Segment(272, 272, Me, Some(NextStepsTopic))
  ]

  const SessionPins: seq<TimelinePin> := [
    TimelinePin(15, MissedOpportunity, "Didn't probe competitor landscape"),
    TimelinePin(95, WeakQuestion, "Long monologue without checking in"),
    TimelinePin(232, StrongPivot, "Good recovery on adoption concern"),
    TimelinePin(272, StrongPivot, "Strong close with case study offer")
  ]

  const SessionInsights: seq<CoachingInsight> := [Insight(15, 40), Insight(95, 129), Insight(130, 154)]

  const SessionObjections: seq<Objection> := [
    Objection("obj-1", 130, "Timeline & Budget Concern", ""),
    Objection("obj-2", 210, "Past Bad Experience", "")
  ]

  const SessionMetrics: CallMetrics := CallMetrics(42, 145, "2m 15s", 135, 7, 5, 2)

  const SessionDrills: seq<Drill> := [
    Drill("drill-1", "Ask two discovery questions before presenting features", false),
    Drill("drill-2", "Acknowledge objections by restating them back to the prospect", false),
    Drill("drill-3", "Check in with the prospect every 60 seconds during demos", true)
  ]

  const SessionProgress: seq<ProgressPoint> := [
    ProgressPoint("Jan 10", 62),
    ProgressPoint("Jan 12", 68),
    ProgressPoint("Jan 14", 71),
    ProgressPoint("Jan 15", 74),
    ProgressPoint("Jan 16", 78)
  ]

  const SessionImprovements: seq<FeedbackItem> := [
    FeedbackItem("Discovery", ""),
    FeedbackItem("Objection Handling", ""),
    FeedbackItem("Value Proposition", ""),
    FeedbackItem("Next Steps", ""),
    FeedbackItem("Engagement", "")
  ]

  /** `mockCoachingSession`. */
  const Session: CoachingSession := CoachingSession(
    "1", "Enterprise Demo - Acme Corp", "January 15, 2024", "04:32", 272,
    "https://www.soundhelix.com/examples/mp3/SoundHelix-Song-1.mp3",
    SessionTranscript, "", SessionImprovements, SessionSegments, SessionPins,
    SessionInsights, SessionObjections, SessionMetrics, SessionDrills, SessionProgress)

  /** The duration label and the duration in seconds agree. */
  lemma SessionDurationAgrees()
    ensures ParseDuration(Session.duration) == Some(Session.durationSeconds)
  {
    DurationLiteral(Session.duration, "04", "32", 272);
  }

  /** Start times that rise from each line to the next. */
  predicate StepwiseAscending(lines: seq<TranscriptLine>)
  {
    forall i :: 0 <= i < |lines| - 1 ==> lines[i].timestampSeconds < lines[i + 1].timestampSeconds
  }

  lemma {:induction false} StepwiseIsStrict(lines: seq<TranscriptLine>)
    requires StepwiseAscending(lines)
    ensures StrictlyAscendingStarts(lines)
    decreases |lines|
  {
    if |lines| > 1 {
      var rest := lines[1..];
      assert StepwiseAscending(rest) by {
        forall i | 0 <= i < |rest| - 1 ensures rest[i].timestampSeconds < rest[i + 1].timestampSeconds {
          assert rest[i] == lines[i + 1] && rest[i + 1] == lines[i + 2];
        }
      }
      StepwiseIsStrict(rest);
      forall i, j | 0 <= i < j < |lines| ensures lines[i].timestampSeconds < lines[j].timestampSeconds {
        if i > 0 {
          assert lines[i] == rest[i - 1] && lines[j] == rest[j - 1];
        } else if j > 1 {
          assert lines[1] == rest[0] && lines[j] == rest[j - 1];
        }
      }
    }
  }

  /** The transcript's start times strictly increase and lie within the
      call. */
  lemma SessionTranscriptOrdered()
    ensures StrictlyAscendingStarts(Session.transcript)
    ensures forall i :: 0 <= i < |Session.transcript| ==> 0 <= Session.transcript[i].timestampSeconds <= Session.durationSeconds
  {
    StepwiseIsStrict(SessionTranscript);
  }

  /** Each transcript timestamp label reads back as its seconds. */
  lemma SessionTimestampsAgree(i: nat)
    requires i < |Session.transcript|
    ensures ParseDuration(Session.transcript[i].timestamp) == Some(Session.transcript[i].timestampSeconds)
  {
    if i < 5 {
      TimestampsAgreeEarly(i);
    } else if i < 10 {
      TimestampsAgreeMiddle(i);
    } else {
      TimestampsAgreeLate(i);
    }
  }

  /** A line whose label is `a:b` with the line's seconds. */
  lemma LineClock(line: TranscriptLine, a: string, b: string)
    requires line.timestamp == a + ":" + b
    requires |a| == 2 && |b| == 2 && AllDigits(a) && AllDigits(b)
    requires line.timestampSeconds == DigitValue(a[0]) * 600 + DigitValue(a[1]) * 60 + DigitValue(b[0]) * 10 + DigitValue(b[1])
    ensures ParseDuration(line.timestamp) == Some(line.timestampSeconds)
  {
    DurationLiteral(line.timestamp, a, b, line.timestampSeconds);
  }

  lemma TimestampsAgreeEarly(i: nat)
    requires 0 <= i < 5
    ensures ParseDuration(SessionTranscript[i].timestamp) == Some(SessionTranscript[i].timestampSeconds)
  {
    if i == 0 { LineClock(SessionTranscript[i], "00", "00"); }
    else if i == 1 { LineClock(SessionTranscript[i], "00", "15"); }
    else if i == 2 { LineClock(SessionTranscript[i], "00", "28"); }
    else if i == 3 { LineClock(SessionTranscript[i], "00", "42"); }
    else { LineClock(SessionTranscript[i], "01", "05"); }
  }

  lemma TimestampsAgreeMiddle(i: nat)
    requires 5 <= i < 10
    ensures ParseDuration(SessionTranscript[i].timestamp) == Some(SessionTranscript[i].timestampSeconds)
  {
    if i == 5 { LineClock(SessionTranscript[i], "01", "22"); }
    else if i == 6 { LineClock(SessionTranscript[i], "01", "35"); }
    else if i == 7 { LineClock(SessionTranscript[i], "02", "10"); }
    else if i == 8 { LineClock(SessionTranscript[i], "02", "35"); }
    else { LineClock(SessionTranscript[i], "02", "55"); }
  }

  lemma TimestampsAgreeLate(i: nat)
    requires 10 <= i < 15
    ensures ParseDuration(SessionTranscript[i].timestamp) == Some(SessionTranscript[i].timestampSeconds)
  {
    if i == 10 { LineClock(SessionTranscript[i], "03", "10"); }
    else if i == 11 { LineClock(SessionTranscript[i], "03", "30"); }
    else if i == 12 { LineClock(SessionTranscript[i], "03", "52"); }
    else if i == 13 { LineClock(SessionTranscript[i], "04", "15"); }
    else { LineClock(SessionTranscript[i], "04", "32"); }
  }

  /** The timeline segments tile the call second by second, and segment `k`
      starts with transcript line `k`, spoken by the same speaker. */
  lemma SessionSegmentsTile()
    ensures |Session.timelineSegments| == |Session.transcript|
    ensures Session.timelineSegments[0].startSeconds == 0
    ensures Session.timelineSegments[|Session.timelineSegments| - 1].endSeconds == Session.durationSeconds
    ensures forall k :: 0 <= k < |Session.timelineSegments| - 1 ==>
      Session.timelineSegments[k + 1].startSeconds == Session.timelineSegments[k].endSeconds + 1
    ensures forall k :: 0 <= k < |Session.timelineSegments| ==>
      Session.timelineSegments[k].startSeconds == Session.transcript[k].timestampSeconds
      && Session.timelineSegments[k].speaker == Session.transcript[k].speaker
  {
  }

  /** The insight intervals are ordered, disjoint and inside the call, so the
      coach shows at most one card at a time and the first listed one is the
      only candidate. */
  lemma SessionInsightsDisjoint()
    ensures PairwiseDisjoint(Session.insights)
    ensures forall i :: 0 <= i < |Session.insights| - 1 ==> Session.insights[i].endSeconds <= Session.insights[i + 1].timestampSeconds
    ensures forall i :: 0 <= i < |Session.insights| ==>
      0 <= Session.insights[i].timestampSeconds < Session.insights[i].endSeconds <= Session.durationSeconds
  {
  }

  /** The two objections are eighty seconds apart, so at most one is ever
      highlighted. */
  lemma SessionObjectionsNeverTogether(t: real)
    ensures !(ObjectionActive(Session.objections[0], t) && ObjectionActive(Session.objections[1], t))
  {
    ObjectionsOverlapOnlyWhenClose(Session.objections[0], Session.objections[1], t);
  }

  /** Every pin lies within the call. */
  lemma SessionPinsWithinCall()
    ensures forall i :: 0 <= i < |Session.timelinePins| ==> 0 <= Session.timelinePins[i].timestampSeconds <= Session.durationSeconds
  {
  }

  /** Against the built-in previous call the session talks 6 points less,
      speaks 7 words per minute faster, has a monologue 35 seconds shorter
      and a question score 1 higher; its pace rise is shown with '↓'. */
  lemma SessionDeltas()
    ensures ComputeDeltas(Session.metrics, None) == Deltas(-6, 7, -35, 1)
    ensures DeltaIndicatorAsWritten(ComputeDeltas(Session.metrics, None).pace, false, "").arrow == '↓'
    ensures DeltaIndicatorAsWritten(ComputeDeltas(Session.metrics, None).pace, false, "").icon == TrendingUp
    ensures IndicatorText(DeltaIndicatorAsWritten(ComputeDeltas(Session.metrics, None).pace, false, "")) == "↓ 7"
    ensures DeltaIndicator(ComputeDeltas(Session.metrics, None).pace, false, "").arrow == '↑'
  {
  }

  /** The score history ends with a four-point rise, an improving status,
      and a 16-point spread for the chart. */
  lemma SessionProgressImproving()
    ensures Trend(Session.progressHistory) == 4
    ensures GoalTracker.StatusOf(Trend(Session.progressHistory)) == GoalTracker.Improving
    ensures Range(Session.progressHistory) == Some(16)
  {
    assert Session.progressHistory == SessionProgress;
    ProgressExtremes();
  }

  lemma ProgressExtremes()
    ensures MaxScore(SessionProgress) == 78 && MinScore(SessionProgress) == 62
  {
    var h := SessionProgress;
    assert h[0].discoveryScore == 62 && h[4].discoveryScore == 78;
    assert forall i :: 0 <= i < |h| ==> 62 <= h[i].discoveryScore <= 78;
  }

  /** The legacy encoding of a speaker. */
  function LegacySpeaker(s: Speaker): (code: string)
    ensures |code| == 1
    ensures code[0] == 'A' <==> s == Me
    ensures code[0] == 'B' <==> s == Prospect
  {
    match s
    case Me => "A"
    case Prospect => "B"
  }

  /** A transcript line with only its speaker re-encoded. */
  function ToLegacyLine(l: TranscriptLine): (r: LegacyLine)
    ensures r.speaker == LegacySpeaker(l.speaker)
    ensures r.text == l.text && r.timestamp == l.timestamp && r.timestampSeconds == l.timestampSeconds
    ensures r.highlightType == l.highlightType && r.note == l.note
  {
    LegacyLine(LegacySpeaker(l.speaker), l.text, l.timestamp, l.timestampSeconds, l.highlightType, l.note)
  }

  /** `mockConversationDetail`: the session's shared fields and its
      transcript with legacy speakers, line by line. */
  function ToLegacyDetail(s: CoachingSession): (d: ConversationDetail)
    ensures d.id == s.id && d.title == s.title && d.date == s.date && d.duration == s.duration
    ensures d.audioUrl == s.audioUrl && d.summary == s.summary && d.improvements == s.improvements
    ensures |d.transcript| == |s.transcript|
    ensures forall i :: 0 <= i < |s.transcript| ==> d.transcript[i] == ToLegacyLine(s.transcript[i])
  {
    ConversationDetail(s.id, s.title, s.date, s.duration, s.audioUrl,
      seq(|s.transcript|, i requires 0 <= i < |s.transcript| => ToLegacyLine(s.transcript[i])),
      s.summary, s.improvements)
  }

  /** The legacy detail of the demo call. */
  const LegacyDetail: ConversationDetail := ToLegacyDetail(Session)
}
