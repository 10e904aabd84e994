/** The upload dialog: the list of picked audio files, the simulated
    progress, the duration label of each uploaded file and the close guard.
    The metadata probe of each file is an input (`Probe`). */
module Upload {
  import opened Seqs
  import opened Text
  import opened Clock

  datatype AudioFile = AudioFile(name: string, mimeType: string, size: nat)

  /** `f.type.startsWith('audio/')`. */
  predicate IsAudio(f: AudioFile)
  {
    "audio/" <= f.mimeType
  }

  /** Drop or pick: the audio files among the picked ones are appended in
      their order; the files already listed stay in front, unchanged. */
  function AddFiles(prev: seq<AudioFile>, picked: seq<AudioFile>): (r: seq<AudioFile>)
    ensures prev <= r
    ensures Subsequence(r[|prev|..], picked)
    ensures forall f :: f in r[|prev|..] <==> f in picked && IsAudio(f)
    ensures forall f {:trigger multiset(r[|prev|..])[f]} ::
              multiset(r[|prev|..])[f] == if IsAudio(f) then multiset(picked)[f] else 0
  {
    var audio := Filter(picked, IsAudio);
    forall f ensures f in audio <==> f in picked && IsAudio(f) {
      FilterMembership(picked, IsAudio, f);
    }
    var r := if |audio| > 0 then prev + audio else prev;
    assert r[|prev|..] == audio;
    r
  }

  /** Picking files none of which is audio leaves the list as it was. */
  lemma NonAudioIgnored(prev: seq<AudioFile>, picked: seq<AudioFile>)
    requires forall f :: f in picked ==> !IsAudio(f)
    ensures AddFiles(prev, picked) == prev
  {
    FilterKeepsNone(picked, IsAudio);
  }

  /** The remove button of row `idx`. */
  function RemoveFile(files: seq<AudioFile>, idx: nat): (r: seq<AudioFile>)
    requires idx < |files|
    ensures |r| == |files| - 1
    ensures r[..idx] == files[..idx] && r[idx..] == files[idx + 1..]
  {
    RemoveAt(files, idx)
  }

  const StepsPerFile: nat := 5

  /** The progress shown after step `s` (1 to 5) of file `i` (from 0) of `n`:
      `Math.round((i + s / 5) / n * 100)`, in exact arithmetic. With
      `k = 5 i + s` completed steps this is `round(20 k / n)`. In doubles
      the quotient can land just below a .5 tie (8 files, step 3 of the
      fifth), and the page then shows one less. */
  function Progress(k: nat, n: nat): nat
    requires n > 0
  {
    (40 * k + n) / (2 * n)
  }

  /** The shown value is `20 k / n` rounded half up. */
  lemma ProgressRounds(k: nat, n: nat)
    requires n > 0
    ensures 2 * n * Progress(k, n) <= 40 * k + n < 2 * n * (Progress(k, n) + 1)
  {
  }

  /** Multiplying by a non-negative factor keeps order. */
  lemma MulMonotone(a: int, x: int, y: int)
    requires a >= 0 && x <= y
    ensures a * x <= a * y
  {
    assert a * y - a * x == a * (y - x);
  }

  /** More completed steps never show less progress. */
  lemma ProgressMonotone(k1: nat, k2: nat, n: nat)
    requires n > 0 && k1 <= k2
    ensures Progress(k1, n) <= Progress(k2, n)
  {
    var p1, p2 := Progress(k1, n), Progress(k2, n);
    ProgressRounds(k1, n);
    ProgressRounds(k2, n);
    if p2 < p1 {
      MulMonotone(2 * n, p2 + 1, p1);
    }
  }

  /** The last step of the last file shows 100, and no step shows more. */
  lemma ProgressEndsAtHundred(k: nat, n: nat)
    requires n > 0 && k <= StepsPerFile * n
    ensures Progress(StepsPerFile * n, n) == 100
    ensures Progress(k, n) <= 100
  {
    var p := Progress(StepsPerFile * n, n);
    ProgressRounds(StepsPerFile * n, n);
    assert 40 * (StepsPerFile * n) + n == 201 * n;
    if p > 100 {
      MulMonotone(2 * n, 101, p);
    } else if p < 100 {
      MulMonotone(2 * n, p + 1, 100);
    }
    ProgressMonotone(k, StepsPerFile * n, n);
  }

  /** What the metadata probe of a file reports. */
  datatype Probe =
    | Loaded(seconds: nat)   // a finite duration, in whole seconds
    | NonFinite              // `audio.duration` is `Infinity` or `NaN`
    | LoadError              // the element fires `error` instead of `loadedmetadata`

  /** The duration used for the label: the probed seconds, or 0. */
  function ProbedSeconds(p: Probe): nat
  {
    if p.Loaded? then p.seconds else 0
  }

  /** The `MM:SS` label sent with each uploaded file. */
  function DurationLabel(p: Probe): string
  {
    PaddedMinSec(ProbedSeconds(p))
  }

  /** The label reads back as the probed duration, and an unreadable
      duration is labelled "00:00". */
  lemma DurationLabelRoundTrip(p: Probe)
    ensures ParseDuration(DurationLabel(p)) == Some(ProbedSeconds(p))
    ensures !p.Loaded? ==> DurationLabel(p) == "00:00"
  {
    ParsePaddedMinSec(ProbedSeconds(p));
    assert NatToString(0) == "0";
    assert PadStart2("0") == "00";
  }

  /** What `onUploadComplete` receives. */
  datatype UploadMeta = UploadMeta(name: string, duration: string)

  /** The label of every probe, in order. */
  function Labels(probes: seq<Probe>): (r: seq<string>)
    ensures |r| == |probes|
    ensures forall i :: 0 <= i < |probes| ==> r[i] == DurationLabel(probes[i])
  {
    seq(|probes|, i requires 0 <= i < |probes| => DurationLabel(probes[i]))
  }

  /** The completed-step counts reached while file `i` uploads: one per
      simulated step, from `5 i + 1` to `5 i + 5`. */
  method FileSteps(i: nat) returns (steps: seq<nat>)
    ensures |steps| == StepsPerFile
    ensures forall s :: 0 <= s < StepsPerFile ==> steps[s] == StepsPerFile * i + s + 1
  {
    steps := [];
    var s := 1;
    while s <= StepsPerFile
      invariant 1 <= s <= StepsPerFile + 1
      invariant |steps| == s - 1
      invariant forall a :: 0 <= a < |steps| ==> steps[a] == StepsPerFile * i + a + 1
    {
      steps := steps + [StepsPerFile * i + s];
      s := s + 1;
    }
  }

  /** The progress values shown for a sequence of completed-step counts. */
  function Shown(done: seq<nat>, n: nat): (r: seq<nat>)
    requires n > 0
    ensures |r| == |done|
    ensures forall a :: 0 <= a < |done| ==> r[a] == Progress(done[a], n)
  {
    seq(|done|, a requires 0 <= a < |done| => Progress(done[a], n))
  }

  /** The upload loop with a probe that always settles: one event per file
      in list order, and the trace of progress values shown, ending at 100. */
  method RunUpload(files: seq<AudioFile>, probes: seq<Probe>) returns (events: seq<UploadMeta>, trace: seq<nat>)
    requires |probes| == |files|
    ensures |events| == |files|
    ensures forall i :: 0 <= i < |files| ==> events[i] == UploadMeta(files[i].name, DurationLabel(probes[i]))
    ensures |files| == 0 ==> trace == []
    ensures |files| > 0 ==> |trace| == StepsPerFile * |files| + 1 && trace[|trace| - 1] == 100
    ensures forall a, b :: 0 <= a < b < |trace| ==> trace[a] <= trace[b]
  {
    events, trace := [], [];
    var n := |files|;
    if n == 0 {
      return;
    }
    var labels := Labels(probes);
    var done: seq<nat> := [];
    var i := 0;
    while i < n
      invariant 0 <= i <= n
      invariant |events| == i
      invariant forall j :: 0 <= j < i ==> events[j] == UploadMeta(files[j].name, labels[j])
      invariant |done| == StepsPerFile * i
      invariant forall a :: 0 <= a < |done| ==> done[a] == a + 1
    {
      var steps := FileSteps(i);
      done := done + steps;
      events := events + [UploadMeta(files[i].name, labels[i])];
      i := i + 1;
    }
    trace := Shown(done, n);
    TraceMonotone(trace, n);
    trace := trace + [100];
  }

  /** A trace of successive progress values is ordered and ends no higher than 100. */
  lemma TraceMonotone(trace: seq<nat>, n: nat)
    requires n > 0 && |trace| == StepsPerFile * n
    requires forall a :: 0 <= a < |trace| ==> trace[a] == Progress(a + 1, n)
    ensures forall a, b :: 0 <= a < b < |trace| ==> trace[a] <= trace[b]
    ensures forall a :: 0 <= a < |trace| ==> trace[a] <= 100
    ensures Progress(StepsPerFile * n, n) == 100
  {
    ProgressEndsAtHundred(StepsPerFile * n, n);
    forall a, b | 0 <= a < b < |trace| ensures trace[a] <= trace[b] {
      ProgressMonotone(a + 1, b + 1, n);
    }
    forall a | 0 <= a < |trace| ensures trace[a] <= 100 {
      ProgressEndsAtHundred(a + 1, n);
    }
  }

  /** Every probe settles: none fails to load. */
  predicate AllSettle(probes: seq<Probe>)
  {
    forall i :: 0 <= i < |probes| ==> !probes[i].LoadError?
  }

  /** The events as written: the probe promise listens only for
      `loadedmetadata`, so a file whose metadata fails to load leaves the
      loop waiting for ever, and no later file is reported. */
  function EventsAsWritten(files: seq<AudioFile>, probes: seq<Probe>): (events: seq<UploadMeta>)
    requires |probes| == |files|
    ensures |events| <= |files|
    ensures forall i :: 0 <= i < |events| ==> events[i] == UploadMeta(files[i].name, DurationLabel(probes[i]))
    ensures |events| == |files| <==> AllSettle(probes)
    decreases |files|
  {
    if |files| == 0 then []
    else if probes[0].LoadError? then
      assert !AllSettle(probes);
      []
    else
      var rest := EventsAsWritten(files[1..], probes[1..]);
      assert AllSettle(probes) <==> AllSettle(probes[1..]) by {
        assert forall i :: 1 <= i < |probes| ==> probes[i] == probes[1..][i - 1];
      }
      [UploadMeta(files[0].name, DurationLabel(probes[0]))] + rest
  }

  /** One unreadable file among two: the intended loop reports both files,
      the written one reports none and never finishes. */
  lemma ProbeErrorStallsUpload(a: AudioFile, b: AudioFile)
    ensures |EventsAsWritten([a, b], [LoadError, Loaded(90)])| == 0
  {
  }

  /** The dialog's state. */
  datatype Dialog = Dialog(files: seq<AudioFile>, uploading: bool, progress: nat, open: bool)

  /** `handleClose`: ignored while uploading; otherwise clears and closes. */
  function Close(d: Dialog): (r: Dialog)
    ensures d.uploading ==> r == d
    ensures !d.uploading ==> r.files == [] && r.progress == 0 && !r.open && !r.uploading
  {
    if d.uploading then d else d.(files := [], progress := 0, open := false)
  }

  /** `handleUpload` with no files does nothing; with files it starts
      uploading from progress 0. */
  function StartUpload(d: Dialog): (r: Dialog)
    ensures |d.files| == 0 ==> r == d
    ensures |d.files| > 0 ==> r.uploading && r.progress == 0 && r.files == d.files
  {
    if |d.files| == 0 then d else d.(uploading := true, progress := 0)
  }

  /** The end of an upload, after the last file: the dialog resets and closes. */
  function FinishUpload(d: Dialog): (r: Dialog)
    ensures !r.uploading && r.files == [] && r.progress == 0 && !r.open
  {
    d.(uploading := false, files := [], progress := 0, open := false)
  }

  /** A running upload cannot be cancelled by closing the dialog; once
      finished, closing is allowed and changes nothing further. */
  lemma CloseDuringUpload(d: Dialog)
    requires |d.files| > 0
    ensures Close(StartUpload(d)) == StartUpload(d)
    ensures Close(FinishUpload(StartUpload(d))) == FinishUpload(StartUpload(d))
  {
  }
}
