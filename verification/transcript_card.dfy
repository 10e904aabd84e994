/** The plain transcript card: one row per line, with the speaker shown as
    "Me" or "Prospect". The card accepts both speaker encodings: the names
    of the coaching session and the legacy "A"/"B" codes. */
module TranscriptCard {
  import opened Domain
  import opened MockSession

  /** The fields the card reads from a line. */
  datatype BasicLine = BasicLine(speaker: string, text: string, timestamp: string)

  /** "Me" in either encoding. */
  predicate IsMe(speaker: string)
  {
    speaker == "Me" || speaker == "A"
  }

  function SpeakerLabel(speaker: string): string
  {
    if IsMe(speaker) then "Me" else "Prospect"
  }

  function SpeakerInitial(speaker: string): char
  {
    if IsMe(speaker) then 'M' else 'P'
  }

  /** The avatar initial is the first letter of the label, and the label is
      "Me" exactly for the two spellings of the seller. */
  lemma LabelAndInitialAgree(speaker: string)
    ensures SpeakerInitial(speaker) == SpeakerLabel(speaker)[0]
    ensures SpeakerLabel(speaker) == "Me" <==> speaker == "Me" || speaker == "A"
  {
  }

  /** Both encodings of a speaker are shown as that speaker's name: the
      legacy code round-trips, and so does the name itself. */
  lemma LegacyRoundTrip(s: Speaker)
    ensures SpeakerLabel(LegacySpeaker(s)) == SpeakerName(s)
    ensures SpeakerLabel(SpeakerName(s)) == SpeakerName(s)
  {
  }

  /** One rendered row. */
  datatype Row = Row(isMe: bool, initial: char, speakerLabel: string, timestamp: string, text: string)

  function RenderLine(line: BasicLine): (row: Row)
    ensures row.isMe <==> IsMe(line.speaker)
    ensures row.timestamp == line.timestamp && row.text == line.text
  {
    Row(IsMe(line.speaker), SpeakerInitial(line.speaker), SpeakerLabel(line.speaker), line.timestamp, line.text)
  }

  /** `transcript.map(...)`: one row per line, in order. */
  function RenderRows(lines: seq<BasicLine>): (rows: seq<Row>)
    ensures |rows| == |lines|
    ensures forall i :: 0 <= i < |lines| ==> rows[i] == RenderLine(lines[i])
  {
    seq(|lines|, i requires 0 <= i < |lines| => RenderLine(lines[i]))
  }

  /** The card's view of a legacy line. */
  function Basic(line: LegacyLine): BasicLine
  {
    BasicLine(line.speaker, line.text, line.timestamp)
  }

  /** The card over the legacy detail of a session shows every line with its
      original speaker, time and text, in the session's order. */
  lemma LegacyCardShowsSession(s: CoachingSession)
    ensures var lines := ToLegacyDetail(s).transcript;
      var rows := RenderRows(seq(|lines|, i requires 0 <= i < |lines| => Basic(lines[i])));
      |rows| == |s.transcript|
      && forall i :: 0 <= i < |rows| ==>
        rows[i].speakerLabel == SpeakerName(s.transcript[i].speaker)
        && (rows[i].isMe <==> s.transcript[i].speaker == Me)
        && rows[i].timestamp == s.transcript[i].timestamp
        && rows[i].text == s.transcript[i].text
  {
    var lines := ToLegacyDetail(s).transcript;
    forall i | 0 <= i < |lines| {
      LegacyRoundTrip(s.transcript[i].speaker);
    }
  }
}
