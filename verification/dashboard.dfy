/** The conversations page: the list of recordings it owns, with delete by
    id and the record it prepends when an upload completes. The clock is a
    parameter: `now` stands for `Date.now()`, `today` for the calendar day
    and `dateLabel` for the locale date text. */
module Dashboard {
  import opened Seqs
  import opened Text
  import opened Clock
  import opened Domain
  import opened TableFilter
  import Upload

  /** `prev.filter(r => r.id !== id)`. */
  function Delete(rs: seq<Recording>, id: string): (r: seq<Recording>)
    ensures Subsequence(r, rs)
    ensures forall x :: x in r <==> x in rs && x.id != id
    ensures forall x {:trigger multiset(r)[x]} :: multiset(r)[x] == if x.id != id then multiset(rs)[x] else 0
  {
    var r := Filter(rs, (x: Recording) => x.id != id);
    forall x ensures x in r <==> x in rs && x.id != id {
      FilterMembership(rs, (x: Recording) => x.id != id, x);
    }
    r
  }

  /** Deleting twice is deleting once. */
  lemma DeleteIdempotent(rs: seq<Recording>, id: string)
    ensures Delete(Delete(rs, id), id) == Delete(rs, id)
  {
    FilterIdempotent(rs, (x: Recording) => x.id != id);
  }

  /** Deleting an id that no record carries leaves the list as it was. */
  lemma DeleteAbsent(rs: seq<Recording>, id: string)
    requires forall x :: x in rs ==> x.id != id
    ensures Delete(rs, id) == rs
  {
    FilterKeepsAll(rs, (x: Recording) => x.id != id);
  }

  const DefaultOwnerName: string := "Sarah Johnson"

  const DefaultOwner: Owner := Owner("1", DefaultOwnerName, None)

  const NewRecordingPrefix: string := "New Recording - "

  /** The record synthesised on upload. It has no call type: the object
      literal sets a deal context instead, which the table never reads. */
  function NewRecording(now: nat, dateLabel: string, today: int): Recording
  {
    Recording(NatToString(now), NewRecordingPrefix + dateLabel, today, Processing, "00:00", DefaultOwner, None)
  }

  /** The new record is processing, zero long, owned by the default owner,
      dated today, and its id is the decimal timestamp, so uploads at
      different instants get different ids. */
  lemma NewRecordingShape(now: nat, now': nat, dateLabel: string, today: int)
    ensures ParseDuration(NewRecording(now, dateLabel, today).duration) == Some(0)
    ensures ParseNat(NewRecording(now, dateLabel, today).id) == now
    ensures now != now' ==> NewRecording(now, dateLabel, today).id != NewRecording(now', dateLabel, today).id
    ensures NewRecording(now, dateLabel, today).status == Processing
    ensures NewRecording(now, dateLabel, today).callType.None?
  {
    ParsePaddedMinSec(0);
    assert PaddedMinSec(0) == "00:00" by {
      assert NatToString(0) == "0";
    }
    ParseNatToString(now);
    NatToStringInjective(now, now');
  }

  /** `handleUploadComplete`: the new record goes in front, the previous
      list follows unchanged. The name and duration the upload dialog
      reports are not received. */
  function UploadComplete(rs: seq<Recording>, now: nat, dateLabel: string, today: int): (r: seq<Recording>)
    ensures |r| == |rs| + 1
    ensures r[1..] == rs
    ensures r[0].status == Processing && r[0].duration == "00:00" && r[0].owner == DefaultOwner && r[0].date == today
  {
    [NewRecording(now, dateLabel, today)] + rs
  }

  /** The page's handler run once per `onUploadComplete` call of the upload
      dialog, the `k`-th call at clock `nows[k]`. Each call prepends, so the
      latest upload ends up first; the event itself is never read. */
  function UploadAll(rs: seq<Recording>, events: seq<Upload.UploadMeta>, nows: seq<nat>, dateLabel: string, today: int): (r: seq<Recording>)
    requires |nows| == |events|
    ensures |r| == |rs| + |events|
    ensures r[|events|..] == rs
    decreases |events|
  {
    if |events| == 0 then rs
    else UploadAll(UploadComplete(rs, nows[0], dateLabel, today), events[1..], nows[1..], dateLabel, today)
  }

  /** The records an upload batch adds are fixed by the clock alone: the
      `k`-th from the front is the one made at the `k`-th latest call,
      whatever files were picked. */
  lemma {:induction false} UploadAllRecords(rs: seq<Recording>, events: seq<Upload.UploadMeta>, events': seq<Upload.UploadMeta>, nows: seq<nat>, dateLabel: string, today: int)
    requires |nows| == |events| == |events'|
    ensures UploadAll(rs, events, nows, dateLabel, today) == UploadAll(rs, events', nows, dateLabel, today)
    ensures forall k :: 0 <= k < |events| ==>
      UploadAll(rs, events, nows, dateLabel, today)[k] == NewRecording(nows[|events| - 1 - k], dateLabel, today)
    decreases |events|
  {
    if |events| > 0 {
      var rs1 := UploadComplete(rs, nows[0], dateLabel, today);
      UploadAllRecords(rs1, events[1..], events'[1..], nows[1..], dateLabel, today);
      var r := UploadAll(rs1, events[1..], nows[1..], dateLabel, today);
      assert r[|events| - 1] == rs1[0];
    }
  }

  /** Uploading files one event per file, as the dialog reports them: the
      list grows by one record per file, every new record is called
      "New Recording - <date>" and lasts "00:00", although each event
      carried the file's name and its probed duration. */
  lemma UploadedFilesLoseMetadata(rs: seq<Recording>, files: seq<Upload.AudioFile>, probes: seq<Upload.Probe>, events: seq<Upload.UploadMeta>, nows: seq<nat>, dateLabel: string, today: int)
    requires |probes| == |files| && |events| == |files| && |nows| == |files|
    requires forall i :: 0 <= i < |files| ==> events[i] == Upload.UploadMeta(files[i].name, Upload.DurationLabel(probes[i]))
    ensures var r := UploadAll(rs, events, nows, dateLabel, today);
      && |r| == |rs| + |files|
      && r[|files|..] == rs
      && forall k :: 0 <= k < |files| ==>
           && r[k].name == NewRecordingPrefix + dateLabel
           && ParseDuration(r[k].duration) == Some(0)
           && ParseDuration(events[k].duration) == Some(Upload.ProbedSeconds(probes[k]))
  {
    var r := UploadAll(rs, events, nows, dateLabel, today);
    UploadAllRecords(rs, events, events, nows, dateLabel, today);
    forall k | 0 <= k < |files|
      ensures r[k].name == NewRecordingPrefix + dateLabel
      ensures ParseDuration(r[k].duration) == Some(0)
      ensures ParseDuration(events[k].duration) == Some(Upload.ProbedSeconds(probes[k]))
    {
      NewRecordingShape(nows[|files| - 1 - k], nows[|files| - 1 - k], dateLabel, today);
      Upload.DurationLabelRoundTrip(probes[k]);
    }
  }

  /** Deleting the new record by its id undoes the upload when no earlier
      record had that id. */
  lemma DeleteUndoesUpload(rs: seq<Recording>, now: nat, dateLabel: string, today: int)
    requires forall x :: x in rs ==> x.id != NatToString(now)
    ensures Delete(UploadComplete(rs, now, dateLabel, today), NatToString(now)) == rs
  {
    var r := UploadComplete(rs, now, dateLabel, today);
    assert r == [r[0]] + rs;
    FilterKeepsAll(rs, (x: Recording) => x.id != NatToString(now));
  }

  /** A string without the first character of `q` does not contain `q`. */
  lemma MissingFirstChar(s: string, q: string)
    requires |q| > 0 && q[0] !in s
    ensures !Contains(s, q)
  {
  }

  /** Lower-casing a string with neither 'f' nor 'F' gives no 'f'. */
  lemma LowerLacksF(s: string)
    requires 'f' !in s && 'F' !in s
    ensures 'f' !in Lower(s)
  {
  }

  lemma FixedTextLacksF()
    ensures 'f' !in NewRecordingPrefix && 'F' !in NewRecordingPrefix
    ensures 'f' !in DefaultOwnerName && 'F' !in DefaultOwnerName
  {
  }

  /** Neither the new record's name nor its owner contains "follow". */
  lemma NewRecordLacksFollow(dateLabel: string)
    requires 'f' !in dateLabel && 'F' !in dateLabel
    ensures !Contains(Lower(NewRecordingPrefix + dateLabel), "follow")
    ensures !Contains(Lower(DefaultOwner.name), "follow")
  {
    FixedTextLacksF();
    LowerLacksF(NewRecordingPrefix + dateLabel);
    MissingFirstChar(Lower(NewRecordingPrefix + dateLabel), "follow");
    LowerLacksF(DefaultOwnerName);
    MissingFirstChar(Lower(DefaultOwnerName), "follow");
  }

  lemma FollowLowerCase()
    ensures Lower("follow") == "follow"
  {
  }

  lemma FollowUpMatchesFollow()
    ensures Contains(Lower(CallTypeName(FollowUp)), "follow")
  {
    LowerFollowUpName();
    FollowStartsFollowUp();
  }

  lemma LowerFollowUpName()
    ensures Lower(CallTypeName(FollowUp)) == "follow-up"
  {
  }

  lemma FollowStartsFollowUp()
    ensures OccursAt("follow-up", "follow", 0)
  {
  }

  /** As written the search callback throws on the new record. */
  lemma NewRecordSearchThrows(now: nat, dateLabel: string, today: int)
    requires 'f' !in dateLabel && 'F' !in dateLabel
    ensures SearchAsWritten("follow", NewRecording(now, dateLabel, today)).None?
  {
    FollowLowerCase();
    NewRecordLacksFollow(dateLabel);
  }

  /** The intended search for "follow" keeps a follow-up call. */
  lemma FollowUpFound(rs: seq<Recording>, today: int, followUp: Recording)
    requires followUp in rs && followUp.callType == Some(FollowUp)
    ensures followUp in FilterRecordings(rs, Filters("follow", "", "", ""), today)
  {
    FollowUpMatchesFollow();
    FollowLowerCase();
    assert SearchAccepts("follow", followUp);
    assert Matches(Filters("follow", "", "", ""), today, followUp);
  }

  /** After an upload, searching for a word that the new record's name and
      owner lack makes the search callback read the new record's missing
      call type. As written that throws, so no list is produced at all,
      although the intended search still finds the follow-up call. */
  lemma SearchAfterUploadThrows(rs: seq<Recording>, now: nat, dateLabel: string, today: int, followUp: Recording)
    requires 'f' !in dateLabel && 'F' !in dateLabel
    requires followUp in rs && followUp.callType == Some(FollowUp)
    ensures var after := UploadComplete(rs, now, dateLabel, today);
      && FilterAsWritten(after, Filters("follow", "", "", ""), today).None?
      && followUp in FilterRecordings(after, Filters("follow", "", "", ""), today)
  {
    var after := UploadComplete(rs, now, dateLabel, today);
    NewRecordSearchThrows(now, dateLabel, today);
    assert after[0] in after;
    assert followUp in after;
    FollowUpFound(after, today, followUp);
  }
}
