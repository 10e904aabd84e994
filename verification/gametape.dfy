/** The "game tape" player: the waveform bars lit up to the playhead, the
    coloured strip of speaking turns, the pins, the skip and seek controls
    and the volume state. Times are seconds as exact reals; the strip uses
    the whole-second timestamps of the transcript. */
module GameTape {
  import opened Seqs
  import opened Domain

  const BarCount: nat := 150

  /** `progressPercent`: the playhead position in percent of the duration. */
  function ProgressPercent(t: real, d: real): real
    requires d > 0.0
  {
    (t / d) * 100.0
  }

  function BarStartPercent(i: nat): real
  {
    (i as real / BarCount as real) * 100.0
  }

  function BarEndPercent(i: nat): real
  {
    ((i + 1) as real / BarCount as real) * 100.0
  }

  /** Bar `i` is drawn in the primary colour: wholly before the playhead,
      or containing it. */
  predicate BarLit(i: nat, t: real, d: real)
    requires d > 0.0
  {
    var p := ProgressPercent(t, d);
    var isActive := BarEndPercent(i) <= p;
    var isPartiallyActive := BarStartPercent(i) <= p && p < BarEndPercent(i);
    isActive || isPartiallyActive
  }

  /** The two activity tests together say: the bar starts at or before the playhead. */
  lemma BarLitIffStarted(i: nat, t: real, d: real)
    requires d > 0.0
    ensures BarLit(i, t, d) <==> BarStartPercent(i) <= ProgressPercent(t, d)
  {
    assert BarStartPercent(i) < BarEndPercent(i);
  }

  /** Lit bars form a prefix: a bar before a lit bar is lit. */
  lemma LitBarsArePrefix(i: nat, j: nat, t: real, d: real)
    requires d > 0.0 && i <= j
    requires BarLit(j, t, d)
    ensures BarLit(i, t, d)
  {
    BarLitIffStarted(i, t, d);
    BarLitIffStarted(j, t, d);
    assert BarStartPercent(i) <= BarStartPercent(j);
  }

  /** A bar once lit stays lit as the playhead moves forward. */
  lemma LitBarsGrowWithTime(i: nat, t1: real, t2: real, d: real)
    requires d > 0.0 && t1 <= t2
    requires BarLit(i, t1, d)
    ensures BarLit(i, t2, d)
  {
    BarLitIffStarted(i, t1, d);
    BarLitIffStarted(i, t2, d);
    assert t1 / d <= t2 / d by {
      assert t2 / d - t1 / d == (t2 - t1) / d;
    }
  }

  /** The number of lit bars among the first `n`. */
  function LitCount(n: nat, t: real, d: real): (c: nat)
    requires d > 0.0
    ensures c <= n
  {
    if n == 0 then 0 else LitCount(n - 1, t, d) + (if BarLit(n - 1, t, d) then 1 else 0)
  }

  /** The lit count never drops as the playhead moves forward. */
  lemma {:induction false} LitCountMonotone(n: nat, t1: real, t2: real, d: real)
    requires d > 0.0 && t1 <= t2
    ensures LitCount(n, t1, d) <= LitCount(n, t2, d)
  {
    if n > 0 {
      LitCountMonotone(n - 1, t1, t2, d);
      if BarLit(n - 1, t1, d) {
        LitBarsGrowWithTime(n - 1, t1, t2, d);
      }
    }
  }

  /** At the start nothing is drawn lit except bar 0, whose start is the playhead. */
  lemma OnlyFirstBarLitAtZero(i: nat, d: real)
    requires d > 0.0
    ensures BarLit(i, 0.0, d) <==> i == 0
  {
    BarLitIffStarted(i, 0.0, d);
  }

  /** A coloured piece of the strip. `highlight` comes from a transcript
      line, `topic` from a supplied segment. */
  datatype StripSegment = StripSegment(
    startSeconds: int,
    endSeconds: int,
    speaker: Speaker,
    highlight: Option<Highlight>,
    topic: Option<Topic>)

  function MinI(a: int, b: int): int { if a <= b then a else b }

  /** The end of the last transcript-derived segment: thirty seconds after
      its start, cut at the end of the recording. */
  function LastEnd(start: int, d: int): int
  {
    MinI(d, start + 30)
  }

  /** Segments derived from the transcript: each line lasts until the next
      line starts; the last one as `LastEnd` says. */
  function FromTranscript(lines: seq<TranscriptLine>, d: int): (r: seq<StripSegment>)
    requires |lines| > 0
    ensures |r| == |lines|
    ensures forall i {:trigger r[i]} :: 0 <= i < |lines| ==>
      && r[i].startSeconds == lines[i].timestampSeconds
      && r[i].speaker == lines[i].speaker
      && r[i].highlight == lines[i].highlightType
      && r[i].topic.None?
    ensures forall i {:trigger r[i]} :: 0 <= i < |lines| - 1 ==> r[i].endSeconds == lines[i + 1].timestampSeconds
    ensures r[|r| - 1].endSeconds == LastEnd(lines[|lines| - 1].timestampSeconds, d)
  {
    seq(|lines|, i requires 0 <= i < |lines| =>
      StripSegment(
        lines[i].timestampSeconds,
        if i + 1 < |lines| then lines[i + 1].timestampSeconds else LastEnd(lines[i].timestampSeconds, d),
        lines[i].speaker, lines[i].highlightType, None))
  }

  /** `renderSegments`: derived from a non-empty transcript, otherwise the
      supplied segments with no highlight. */
  function RenderSegments(transcript: Option<seq<TranscriptLine>>, segments: seq<TimelineSegment>, d: int): (r: seq<StripSegment>)
    ensures transcript.Some? && |transcript.value| > 0 ==> r == FromTranscript(transcript.value, d)
    ensures !(transcript.Some? && |transcript.value| > 0) ==>
      && |r| == |segments|
      && forall i :: 0 <= i < |segments| ==>
        r[i] == StripSegment(segments[i].startSeconds, segments[i].endSeconds, segments[i].speaker, None, segments[i].topic)
  {
    if transcript.Some? && |transcript.value| > 0 then
      FromTranscript(transcript.value, d)
    else
      seq(|segments|, i requires 0 <= i < |segments| =>
        StripSegment(segments[i].startSeconds, segments[i].endSeconds, segments[i].speaker, None, segments[i].topic))
  }

  /** The strip's segments follow each other without gap or overlap. */
  predicate Contiguous(r: seq<StripSegment>)
  {
    forall i :: 0 <= i < |r| - 1 ==> r[i].endSeconds == r[i + 1].startSeconds
  }

  /** Total seconds covered, the sum of the widths before scaling by the duration. */
  function SpanTotal(r: seq<StripSegment>): int
  {
    if |r| == 0 then 0 else (r[0].endSeconds - r[0].startSeconds) + SpanTotal(r[1..])
  }

  /** Transcript-derived segments are contiguous, so their widths add up to
      the time from the first line to the end of the last segment. */
  lemma {:induction false} TranscriptStripTelescopes(lines: seq<TranscriptLine>, d: int)
    requires |lines| > 0
    ensures Contiguous(FromTranscript(lines, d))
    ensures SpanTotal(FromTranscript(lines, d)) == LastEnd(lines[|lines| - 1].timestampSeconds, d) - lines[0].timestampSeconds
    decreases |lines|
  {
    var r := FromTranscript(lines, d);
    if |lines| > 1 {
      TranscriptStripTelescopes(lines[1..], d);
      var tail := FromTranscript(lines[1..], d);
      assert forall i :: 0 <= i < |tail| ==> r[1..][i] == tail[i];
      assert r[1..] == tail;
    }
  }

  /** A transcript starting at 0 whose last line is within 30 seconds of the
      end fills the strip: the widths sum to 100 percent. */
  lemma StripFillsDuration(lines: seq<TranscriptLine>, d: int)
    requires |lines| > 0 && d > 0
    requires lines[0].timestampSeconds == 0
    requires d <= lines[|lines| - 1].timestampSeconds + 30
    ensures SpanTotal(FromTranscript(lines, d)) == d
  {
    TranscriptStripTelescopes(lines, d);
  }

  /** The background classes of the strip. */
  datatype Colour = SpeakerMeColour | SpeakerProspectColour | Destructive | TopicDiscovery | TopicNextSteps

  function TopicAsHighlight(t: Topic): Highlight
  {
    match t
    case ObjectionTopic => ObjectionTag
    case DiscoveryTopic => DiscoveryTag
    case NextStepsTopic => NextStepsTag
  }

  /** `segment.highlightType ?? segment.topic`. */
  function Effective(s: StripSegment): Option<Highlight>
  {
    if s.highlight.Some? then s.highlight
    else if s.topic.Some? then Some(TopicAsHighlight(s.topic.value))
    else None
  }

  /** The colour of a segment: the tag's colour, else the speaker's. */
  function SegmentColour(s: StripSegment): (c: Colour)
    ensures c == Destructive <==> Effective(s) == Some(ObjectionTag)
    ensures c == TopicDiscovery <==> Effective(s) == Some(DiscoveryTag)
    ensures c == TopicNextSteps <==> Effective(s) in {Some(SignalTag), Some(NextStepsTag)}
    ensures Effective(s).None? ==> c == (if s.speaker == Me then SpeakerMeColour else SpeakerProspectColour)
  {
    var bg := if s.speaker == Me then SpeakerMeColour else SpeakerProspectColour;
    match Effective(s)
    case Some(ObjectionTag) => Destructive
    case Some(DiscoveryTag) => TopicDiscovery
    case Some(SignalTag) => TopicNextSteps
    case Some(NextStepsTag) => TopicNextSteps
    case None => bg
  }

  /** A line's own highlight overrides the segment's topic, and a tagged
      segment never shows the speaker colour. */
  lemma HighlightOverridesTopic(s: StripSegment, h: Highlight)
    requires s.highlight == Some(h)
    ensures SegmentColour(s) == SegmentColour(s.(topic := None))
    ensures SegmentColour(s) != SpeakerMeColour && SegmentColour(s) != SpeakerProspectColour
  {
  }

  /** Pin position in percent of the strip. */
  function PinLeft(timestampSeconds: real, d: real): real
    requires d > 0.0
  {
    (timestampSeconds / d) * 100.0
  }

  /** A pin inside the recording is drawn inside the rail. */
  lemma PinWithinRail(ts: real, d: real)
    requires d > 0.0 && 0.0 <= ts <= d
    ensures 0.0 <= PinLeft(ts, d) <= 100.0
  {
    var q := ts / d;
    assert q * d == ts;
    assert (1.0 - q) * d == d - ts;
  }

  /** What the player knows: the time reported to the page, the audio
      element's position, the play state and the volume controls. */
  datatype PlayerState = PlayerState(time: real, audioTime: real, playing: bool, volume: int, muted: bool)

  const InitialVolume: int := 80

  function MaxR(a: real, b: real): real { if a >= b then a else b }

  function MinR(a: real, b: real): real { if a <= b then a else b }

  /** `skip`: move by `delta` seconds, kept within the recording, and move
      the audio element with the page. */
  function Skip(st: PlayerState, delta: real, d: real): (r: PlayerState)
    requires d >= 0.0
    ensures 0.0 <= r.time <= d && r.audioTime == r.time
    ensures 0.0 <= st.time + delta <= d ==> r.time == st.time + delta
    ensures st.time + delta < 0.0 ==> r.time == 0.0
    ensures st.time + delta > d ==> r.time == d
    ensures r == st.(time := r.time, audioTime := r.time)
  {
    var t := MaxR(0.0, MinR(d, st.time + delta));
    st.(time := t, audioTime := t)
  }

  /** Back ten seconds then forward ten returns to the same place when
      neither skip hits an end. */
  lemma SkipBackAndForth(st: PlayerState, d: real)
    requires d >= 0.0 && 10.0 <= st.time <= d
    ensures Skip(Skip(st, -10.0, d), 10.0, d).time == st.time
  {
  }

  /** `handleSegmentClick`: jump to the given second, without clamping. */
  function Seek(st: PlayerState, target: real): (r: PlayerState)
    ensures r.time == target && r.audioTime == target
    ensures r.playing == st.playing && r.volume == st.volume && r.muted == st.muted
  {
    st.(time := target, audioTime := target)
  }

  /** A click at horizontal offset `x` of a waveform `width` wide seeks to
      that fraction of the duration, which lies inside the recording; the
      page time and the audio position move together and nothing else
      changes. */
  function WaveformClick(st: PlayerState, x: real, width: real, d: real): (r: PlayerState)
    requires width > 0.0
    ensures r.time == r.audioTime == (x / width) * d
    ensures r == st.(time := r.time, audioTime := r.audioTime)
    ensures r.playing == st.playing
    ensures 0.0 <= x <= width && d >= 0.0 ==> 0.0 <= r.time <= d
  {
    var percent := x / width;
    assert 0.0 <= x <= width && d >= 0.0 ==> 0.0 <= percent * d <= d by {
      if 0.0 <= x <= width && d >= 0.0 {
        FractionOfDuration(x, width, d);
      }
    }
    Seek(st, percent * d)
  }

  /** A fraction of the width, scaled to the duration, lies inside the
      recording. */
  lemma FractionOfDuration(x: real, width: real, d: real)
    requires width > 0.0 && 0.0 <= x <= width && d >= 0.0
    ensures 0.0 <= (x / width) * d <= d
  {
    var p := x / width;
    assert p * width == x;
    assert 0.0 <= p <= 1.0;
    assert (1.0 - p) * d >= 0.0;
  }

  /** The audio element's `timeupdate`: the page follows the element. */
  function TimeUpdate(st: PlayerState): (r: PlayerState)
    ensures r.time == st.audioTime && r.audioTime == st.audioTime
    ensures r.playing == st.playing && r.volume == st.volume && r.muted == st.muted
  {
    st.(time := st.audioTime)
  }

  function PlayPause(st: PlayerState): (r: PlayerState)
    ensures r.playing != st.playing
    ensures r.time == st.time && r.audioTime == st.audioTime
  {
    st.(playing := !st.playing)
  }

  /** The mute button flips muting and leaves the stored volume alone. */
  function ToggleMute(st: PlayerState): (r: PlayerState)
    ensures r.muted != st.muted && r.volume == st.volume
    ensures r.time == st.time && r.playing == st.playing
  {
    st.(muted := !st.muted)
  }

  /** Moving the slider sets the volume and unmutes. */
  function SetVolume(st: PlayerState, v: int): (r: PlayerState)
    ensures r.volume == v && !r.muted
    ensures r.time == st.time && r.playing == st.playing
  {
    st.(volume := v, muted := false)
  }

  /** The element's volume: silence when muted, else the slider over 100. */
  function EffectiveVolume(st: PlayerState): (v: real)
    ensures st.muted ==> v == 0.0
    ensures 0 <= st.volume <= 100 ==> 0.0 <= v <= 1.0
  {
    if st.muted then 0.0 else st.volume as real / 100.0
  }

  /** The slider shows 0 while muted, otherwise the stored volume. */
  function SliderValue(st: PlayerState): (v: int)
    ensures v == 0 || v == st.volume
  {
    if st.muted then 0 else st.volume
  }

  /** Muting and unmuting restores the element's volume; setting the slider
      makes the element play at exactly that level. */
  lemma VolumeRoundTrips(st: PlayerState, v: int)
    requires !st.muted
    ensures ToggleMute(ToggleMute(st)) == st
    ensures EffectiveVolume(ToggleMute(ToggleMute(st))) == EffectiveVolume(st)
    ensures EffectiveVolume(ToggleMute(st)) == 0.0
    ensures EffectiveVolume(SetVolume(ToggleMute(st), v)) == v as real / 100.0
  {
  }
}
