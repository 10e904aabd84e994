/** The records of the application (the interfaces of `data/mockData.ts`),
    with the closed string unions as enumerations and their spellings. */
module Domain {
  import opened Seqs

  datatype Owner = Owner(id: string, name: string, avatar: Option<string>)

  datatype Status = Processing | Completed | Error

  function StatusName(s: Status): string
  {
    match s
    case Processing => "processing"
    case Completed => "completed"
    case Error => "error"
  }

  datatype CallType = Outbound | Inbound | FollowUp

  function CallTypeName(c: CallType): string
  {
    match c
    case Outbound => "Outbound"
    case Inbound => "Inbound"
    case FollowUp => "Follow-Up"
  }

  /** A row of the recordings table. `date` is a calendar day number (days
      since an arbitrary epoch) standing for the ISO date string.
      `callType` is `None` when the property is missing from the object,
      which happens for the record the dashboard synthesises on upload. */
  datatype Recording = Recording(
    id: string,
    name: string,
    date: int,
    status: Status,
    duration: string,
    owner: Owner,
    callType: Option<CallType>)

  datatype Speaker = Me | Prospect

  function SpeakerName(s: Speaker): string
  {
    match s
    case Me => "Me"
    case Prospect => "Prospect"
  }

  /** `highlightType` of a transcript line. */
  datatype Highlight = ObjectionTag | SignalTag | DiscoveryTag | NextStepsTag

  function HighlightName(h: Highlight): string
  {
    match h
    case ObjectionTag => "objection"
    case SignalTag => "signal"
    case DiscoveryTag => "discovery"
    case NextStepsTag => "next-steps"
  }

  datatype TranscriptLine = TranscriptLine(
    speaker: Speaker,
    text: string,
    timestamp: string,
    timestampSeconds: int,
    highlightType: Option<Highlight>,
    note: Option<string>)

  datatype FeedbackItem = FeedbackItem(category: string, advice: string)

  /** `topic` of a timeline segment: the highlight tags without `signal`. */
  datatype Topic = ObjectionTopic | DiscoveryTopic | NextStepsTopic

  datatype TimelineSegment = TimelineSegment(
    startSeconds: int,
    endSeconds: int,
    speaker: Speaker,
    topic: Option<Topic>)

  datatype PinType = MissedOpportunity | WeakQuestion | StrongPivot

  datatype TimelinePin = TimelinePin(timestampSeconds: int, pinType: PinType, labelText: string)

  /** A coaching insight covers the half-open interval
      [timestampSeconds, endSeconds). */
  datatype CoachingInsight = CoachingInsight(
    timestampSeconds: int,
    endSeconds: int,
    whatYouSaid: string,
    critique: string,
    tryThisInstead: string)

  datatype Objection = Objection(id: string, timestampSeconds: int, labelText: string, quote: string)

  datatype CallMetrics = CallMetrics(
    talkRatio: int,
    wordsPerMinute: int,
    longestMonologue: string,
    longestMonologueSeconds: int,
    questionScore: int,
    openQuestions: int,
    closedQuestions: int)

  datatype Drill = Drill(id: string, text: string, completed: bool)

  datatype ProgressPoint = ProgressPoint(callDate: string, discoveryScore: int)

  datatype CoachingSession = CoachingSession(
    id: string,
    title: string,
    date: string,
    duration: string,
    durationSeconds: int,
    audioUrl: string,
    transcript: seq<TranscriptLine>,
    summary: string,
    improvements: seq<FeedbackItem>,
    timelineSegments: seq<TimelineSegment>,
    timelinePins: seq<TimelinePin>,
    insights: seq<CoachingInsight>,
    objections: seq<Objection>,
    metrics: CallMetrics,
    drills: seq<Drill>,
    progressHistory: seq<ProgressPoint>)

  /** A transcript line of the legacy detail view: the speaker is a free
      string there (the legacy encoding writes "A" and "B"). */
  datatype LegacyLine = LegacyLine(
    speaker: string,
    text: string,
    timestamp: string,
    timestampSeconds: int,
    highlightType: Option<Highlight>,
    note: Option<string>)

  datatype ConversationDetail = ConversationDetail(
    id: string,
    title: string,
    date: string,
    duration: string,
    audioUrl: string,
    transcript: seq<LegacyLine>,
    summary: string,
    improvements: seq<FeedbackItem>)

  /** Transcript start times never decrease along the list. */
  predicate NonDecreasingStarts(lines: seq<TranscriptLine>)
  {
    forall i, j :: 0 <= i < j < |lines| ==> lines[i].timestampSeconds <= lines[j].timestampSeconds
  }

  /** Transcript start times strictly increase along the list. */
  predicate StrictlyAscendingStarts(lines: seq<TranscriptLine>)
  {
    forall i, j :: 0 <= i < j < |lines| ==> lines[i].timestampSeconds < lines[j].timestampSeconds
  }
}
