# Sales-call coaching app: a Dafny model of its pure rules

The application is a web front end. Sellers use it to browse recorded sales
calls and to review one call with a coaching view. It has no engine of its
own, but its components hold a set of small pure rules. This project models
those rules over immutable sequences and proves what they promise.

- **Recordings table.** The pipeline of `RecordingsTable` runs in four stages:
  - filter: search, status, owner and date bucket (`TableFilter`);
  - sort: tri-state header clicks and a numeric `mm:ss` duration order (`TableSort`);
  - paginate: the JavaScript `slice` of the page, and the pagination bar's counters and buttons (`TablePaging`);
  - select: the selection set, changed by the header checkbox, the row checkboxes and the lasso rectangle (`TableSelect`).

  `TableView` assembles these four into the table state and its control events.
- **Conversations page.** Delete by id, and prepend a record when an upload completes (`Dashboard`). The page's handler takes no arguments, so the name and duration that the upload dialog reports for each file are discarded: the records it adds do not depend on them.
- **Upload dialog.** `Upload` covers:
  - the audio-only file list and remove-by-index;
  - the progress formula;
  - the `MM:SS` duration label;
  - the sequential upload loop;
  - the close guard.
- **Coaching view.**
  - `GameTape`: waveform bars, the segment strip derived from the transcript, segment colours, pins, skip/seek, volume and mute.
  - `Transcript`: the active line and notes.
  - `Coach`: the current insight, the summary and the objection window.
  - `Metrics`: talk/listen, warnings, deltas and the pace gauge.
  - `GoalTracker`, `ActionPlan` and `ScoreHistory`: trend, status, goal count and range.
- **Small string rules.**
  - `NavUser`: initials from an e-mail address, and the display-name and avatar fallbacks.
  - `TranscriptCard`: the speaker label, which accepts both the current and the legacy speaker encoding.
  - `Clock`: the two clock formats and the table's `mm:ss` parser.
- **Fixtures.** The deterministic record generator (`MockRecordings`) and the demo coaching session with its legacy view (`MockSession`).

Modelling conventions:
- Times of day are not modelled. A calendar date is an integer day number and "today" is a parameter.
- The playback position is a Dafny `real`, an exact stand-in for the JavaScript number. Fixture timestamps are integers, as in the data.
- `localeCompare` is code-point lexicographic order.
- `toLowerCase` and `toUpperCase` act on ASCII letters only.
- Where JavaScript would produce `NaN`, or would throw on reading a missing field, the model returns `None`.
- Where the code reads a field that its declared type lacks, the model keeps the code's behaviour as written, side by side with the evident intent (see Findings).

Shared modules:
- `Seqs`: `Option`, subsequence, `Filter`, `RemoveAt`.
- `Text`: decimal rendering and parsing, padding, case mapping, `includes`, `split`/`join`.
- `JsNum`: the number semantics of an `undefined` operand.
- `Domain`: the record and session types.

## Model

| member | source | states |
|---|---|---|
| Clock.ParseDuration | components/dashboard/RecordingsTable.tsx:103-105 | Two non-empty digit runs joined by one colon read as a number; every string on which JavaScript gets `NaN` reads as `None` |
| Clock.ClockLiteral | components/dashboard/RecordingsTable.tsx:103-105 | A string `a:b` of two digit runs reads as `a * 60 + b` seconds |
| Clock.DurationOrderExample | components/dashboard/RecordingsTable.tsx:102-105 | The duration key is numeric: 1:50, 2:05 and 10:00 read as 110, 125 and 600, the reverse of their text order |
| Clock.FormatTime | components/coaching/GameTapePlayer.tsx:79-83 | The player's label of a time is the `m:ss` label of its whole seconds |
| Clock.FloorSplit | components/coaching/GameTapePlayer.tsx:80-81 | `floor(t / 60)` and `floor(t % 60)` are the quotient and remainder of `floor(t)` by 60 |
| Clock.ParseMinSec | components/coaching/GameTapePlayer.tsx:79-83 | Every `m:ss` label the player or the coach prints reads back, through the table parser, as the same number of seconds |
| Clock.ParsePaddedMinSec | components/dashboard/UploadModal.tsx:85-87 | Every zero-padded `MM:SS` label reads back as the same number of seconds |
| Text.Contains | components/dashboard/RecordingsTable.tsx:47-49 | `includes` holds exactly when the query occurs at some position of the text |
| Text.JoinSplit | components/dashboard/RecordingsTable.tsx:103 | Joining the pieces of a `split` with the separator restores the string |
| Text.ParsePadStart2 | components/coaching/GameTapePlayer.tsx:82 | Zero padding to two characters keeps a digit string's value |
| TableFilter.SearchAsWritten | components/dashboard/RecordingsTable.tsx:44-50 | The search test throws only on a record without a call type; whenever it returns, it agrees with the intended case-insensitive match on name, owner or call type |
| TableFilter.MatchesIffEveryFilterAccepts | components/dashboard/RecordingsTable.tsx:41-88 | A record survives iff every non-empty filter accepts it: search, exact status, exact owner, date bucket |
| TableFilter.DateBucketSemantics | components/dashboard/RecordingsTable.tsx:60-84 | "Today" keeps only the current day; "Last N Days" rejects only days before today minus N, so future days pass; any other bucket imposes nothing |
| TableFilter.FilterRecordings | components/dashboard/RecordingsTable.tsx:41-42 | The filtered list is a subsequence of the input, in order, holding exactly the matching records, each as often as in the input |
| TableFilter.FilterAsWritten | components/dashboard/RecordingsTable.tsx:41-89 | The filter pass fails iff a search is set and the callback throws on some record; otherwise it equals the intended filtered list |
| TableFilter.UnmatchedQueryEmptiesList | components/dashboard/RecordingsTable.tsx:44-50 | A query found in no searched field empties the list whatever the other filters are |
| TableSort.HandleSort | components/dashboard/RecordingsTable.tsx:155-167 | Clicking the sorted column goes asc to desc to unsorted; any other column, or an unsorted table, starts that column ascending; field and direction stay both set or both unset |
| TableSort.ThreeClicksRestoreUnsorted | components/dashboard/RecordingsTable.tsx:155-167 | Three clicks on one header from an unsorted table pass through asc and desc and return to unsorted |
| TableSort.LexCompare | components/dashboard/RecordingsTable.tsx:100 | The string comparison is a three-way result that is zero exactly for equal strings |
| TableSort.LexAntisymmetric | components/dashboard/RecordingsTable.tsx:100 | Swapping the operands negates the string comparison |
| TableSort.LexTransitive | components/dashboard/RecordingsTable.tsx:108 | The string comparison is transitive, so the name, owner and status columns are total orders |
| TableSort.CompareAntisymmetric | components/dashboard/RecordingsTable.tsx:95-118 | For every column and direction, swapping two records negates the comparator |
| TableSort.CompareTransitive | components/dashboard/RecordingsTable.tsx:95-118 | For every column and direction the comparator is transitive on comparable records |
| TableSort.Insert | components/dashboard/RecordingsTable.tsx:95-119 | Inserting into a sorted list adds exactly that record (multiset) and keeps the list sorted |
| TableSort.SortBy | components/dashboard/RecordingsTable.tsx:95-119 | The sort returns a permutation of its input that is ordered under the directed comparator for every pair |
| TableSort.SortRecordings | components/dashboard/RecordingsTable.tsx:92-120 | Without a field or direction the list is returned unchanged; otherwise the result is a sorted permutation |
| TableSort.DescIsReversedAsc | components/dashboard/RecordingsTable.tsx:118 | A list sorted descending has every pair in the reverse of the column order |
| TablePaging.SliceIndex | components/dashboard/RecordingsTable.tsx:125 | `slice` clamps an index into `[0, length]` and keeps one already inside |
| TablePaging.PageSliceWindow | components/dashboard/RecordingsTable.tsx:123-126 | Page p is the window from `(p - 1) * rows`, `min(rows, remaining)` long, empty past the end, and its k-th row is row `start + k` |
| TablePaging.RowOnItsPage | components/dashboard/RecordingsTable.tsx:123-126 | Row k of the list appears on page `k / rows + 1` at position `k % rows` |
| TablePaging.PagesCoverRest | components/dashboard/RecordingsTable.tsx:123-126 | The pages from page p up to the last, read in order, are the list from page p's first row: no row is skipped or repeated |
| TablePaging.PagesPartitionList | components/dashboard/RecordingsTable.tsx:123-126 | Pages 1 to `totalPages`, read in order, give back the whole sorted list |
| TablePaging.TotalPages | components/dashboard/TablePagination.tsx:26 | `totalPages` is the ceiling: enough pages for every item, and not one more |
| TablePaging.CounterMatchesSlice | components/dashboard/TablePagination.tsx:27-28 | On every existing page the counter `start–end` spans exactly as many items as the slice shows, with `1 <= start <= end` |
| TablePaging.EmptyCounter | components/dashboard/TablePagination.tsx:26-28 | An empty list has zero pages and reads "1–0": the start exceeds the end |
| TablePaging.Navigate | components/dashboard/TablePagination.tsx:58-77 | Previous moves back one page unless on page 1; Next moves forward one page unless at or past the last page; a disabled button changes nothing |
| TablePaging.NavigationStaysInRange | components/dashboard/TablePagination.tsx:61-72 | From a page in `[1, max(1, totalPages)]` the buttons never leave that range |
| TablePaging.InitialRowsIsAnOption | components/dashboard/TablePagination.tsx:43-46 | The initial 25 rows per page is one of the offered choices 10, 25, 50, 100, all positive |
| TableSelect.PageIds | components/dashboard/RecordingsTable.tsx:177 | The page's id set holds exactly the ids of the rows on the page |
| TableSelect.AddEach | components/dashboard/RecordingsTable.tsx:176-178 | Adding each row id is the union with the page's ids |
| TableSelect.DeleteEach | components/dashboard/RecordingsTable.tsx:180-182 | Deleting each row id is the difference with the page's ids |
| TableSelect.SelectAll | components/dashboard/RecordingsTable.tsx:174-184 | The header checkbox sets every id of the page to the checked state and leaves every other id as it was |
| TableSelect.SelectOne | components/dashboard/RecordingsTable.tsx:186-194 | A row checkbox sets that id's membership and no other |
| TableSelect.HeaderCheckboxStates | components/dashboard/RecordingsTable.tsx:170-172 | "All" and "some" never hold together; an empty page shows neither; checking the header makes a non-empty page all-selected, unchecking clears both states |
| TableSelect.NormalizeRect | components/dashboard/RecordingsTable.tsx:214-220 | The lasso rectangle runs from the smaller to the larger coordinate on each axis, so width and height are non-negative |
| TableSelect.NormalizeSymmetric | components/dashboard/RecordingsTable.tsx:216-219 | Dragging from a to b or from b to a spans the same rectangle |
| TableSelect.IntersectsIsClosedOverlap | components/dashboard/RecordingsTable.tsx:233 | A row is hit iff its closed box and the closed rectangle overlap on both axes, touching edges included |
| TableSelect.LassoHits | components/dashboard/RecordingsTable.tsx:223-235 | The hit list holds exactly the ids of the rows whose box intersects the rectangle |
| TableSelect.AddIds | components/dashboard/RecordingsTable.tsx:239-241 | Adding the hit ids one by one gives the union of the old set and the hits |
| TableSelect.LassoUpdate | components/dashboard/RecordingsTable.tsx:237-244 | With ctrl or meta the hits join the previous selection; otherwise the selection becomes exactly the hits |
| TableSelect.LassoReplaceOrExtend | components/dashboard/RecordingsTable.tsx:237-244 | A plain drag that hits nothing clears the selection; a modified drag never loses a selected id |
| TableSelect.Initials | components/dashboard/RecordingsTable.tsx:297-303 | The owner initials hold one character per non-empty space-separated word: the upper-cased first letter of that word, in word order |
| TableSelect.InitialsOfTwoWords | components/dashboard/RecordingsTable.tsx:297-303 | "First Last" gives the two upper-cased first letters |
| TableView.Visible | components/dashboard/RecordingsTable.tsx:41-126 | Every row on screen is a record of the list that passes the filters, and a page never shows more rows than the page size |
| TableView.PagesFromAreSlices | components/dashboard/RecordingsTable.tsx:123-126 | Changing the page only moves the slice: the pages shown, one after another, are consecutive windows of the one filtered and sorted list |
| TableView.PagesShowFilteredList | components/dashboard/RecordingsTable.tsx:41-126 | Paging through the whole table shows every record that passes the filters, each as often as in the list, and nothing else; in column order when sorted, and in list order when not |
| TableView.Step | components/dashboard/RecordingsTable.tsx:128-167 | Each control event changes only its own part of the table state: filter edits and the page size also return to page 1; sorting uses the tri-state rule; selection events touch only the selection |
| TableView.ResetsToFirstPage | components/dashboard/RecordingsTable.tsx:128-152 | Every filter change and every page-size change returns to page 1 and keeps sort and selection; sorting and paging keep the filters |
| TableView.InitialView | components/dashboard/RecordingsTable.tsx:27-38 | The table opens unfiltered and unsorted on page 1 and shows the first 25 records in their given order |
| TableView.SortStaysCoherent | components/dashboard/RecordingsTable.tsx:155-167 | No event separates the sort field from its direction |
| Dashboard.Delete | app/conversations/ConversationDashboard.tsx:15-16 | Delete keeps, in order, exactly the records whose id differs, each with its original multiplicity |
| Dashboard.DeleteIdempotent | app/conversations/ConversationDashboard.tsx:16 | Deleting an id twice is deleting it once |
| Dashboard.DeleteAbsent | app/conversations/ConversationDashboard.tsx:16 | Deleting an id no record carries leaves the list unchanged |
| Dashboard.NewRecordingShape | app/conversations/ConversationDashboard.tsx:24-32 | The new record reads as zero seconds, is processing, has no call type, and its id reads back as the clock value, so different instants give different ids |
| Dashboard.UploadComplete | app/conversations/ConversationDashboard.tsx:23-33 | Completing an upload puts exactly one processing, "00:00" record owned by Sarah Johnson (id "1") and dated today in front of the unchanged previous list |
| Dashboard.UploadAll | app/conversations/ConversationDashboard.tsx:23-33 | One completion call per upload event prepends one record each and keeps the previous list as the tail |
| Dashboard.UploadAllRecords | app/conversations/ConversationDashboard.tsx:23-33 | The records an upload batch adds depend only on the clock, not on the events: the k-th from the front is the one made at the k-th latest call |
| Dashboard.UploadedFilesLoseMetadata | components/dashboard/UploadModal.tsx:90 | Each file's event carries its name and probed duration, yet every record added is "New Recording - <date>" lasting "00:00" |
| Dashboard.DeleteUndoesUpload | app/conversations/ConversationDashboard.tsx:15-33 | Deleting the uploaded record by its id restores the list, when no earlier record shares that id |
| Dashboard.NewRecordSearchThrows | components/dashboard/RecordingsTable.tsx:44-50 | Searching "follow" throws on the uploaded record, whose name and owner lack the query and whose call type is missing |
| Dashboard.FollowUpFound | components/dashboard/RecordingsTable.tsx:44-50 | The intended search for "follow" keeps every follow-up call |
| Dashboard.FollowUpMatchesFollow | components/dashboard/RecordingsTable.tsx:49 | The lower-cased call type "Follow-Up" contains "follow" |
| Dashboard.SearchAfterUploadThrows | app/conversations/ConversationDashboard.tsx:23-33 | After an upload, the search "follow" throws and shows no list at all, although the intended search still finds the follow-up call |
| Upload.AddFiles | components/dashboard/UploadModal.tsx:24-40 | Dropping or picking keeps the existing files as a prefix and appends, in order, exactly the picked audio files, a file picked twice twice |
| Upload.NonAudioIgnored | components/dashboard/UploadModal.tsx:27-29 | Picking only non-audio files leaves the list unchanged |
| Upload.RemoveFile | components/dashboard/UploadModal.tsx:169 | Remove drops exactly the file at the index and keeps the others in order |
| Upload.ProgressRounds | components/dashboard/UploadModal.tsx:74 | The exact-arithmetic progress is `100 * k / (5 n)` rounded half up, for k completed steps of n files |
| Upload.ProgressMonotone | components/dashboard/UploadModal.tsx:71-76 | More completed steps never show less progress |
| Upload.ProgressEndsAtHundred | components/dashboard/UploadModal.tsx:71-76 | The last step shows 100, and no step shows more |
| Upload.DurationLabelRoundTrip | components/dashboard/UploadModal.tsx:79-87 | The `MM:SS` label of a file reads back, through the table parser, as its probed whole seconds; a failed or non-finite probe gives "00:00" |
| Upload.Labels | components/dashboard/UploadModal.tsx:85-90 | One duration label per file, in file order |
| Upload.FileSteps | components/dashboard/UploadModal.tsx:72-76 | File i passes through completed-step counts `5i + 1` to `5i + 5` |
| Upload.Shown | components/dashboard/UploadModal.tsx:74-75 | Each completed-step count is shown as its progress value, one per step |
| Upload.RunUpload | components/dashboard/UploadModal.tsx:42-100 | When every probe settles, there is one completion event per file, in order, with its name and label; no files means no events and no progress; otherwise the progress trace never falls and ends at 100 |
| Upload.TraceMonotone | components/dashboard/UploadModal.tsx:67-94 | The per-step progress values rise weakly and stay at or below 100, which the final step reaches |
| Upload.EventsAsWritten | components/dashboard/UploadModal.tsx:49-65 | As written the loop reports a prefix of the files, each with its own name and label, and reports every file iff every probe settles |
| Upload.ProbeErrorStallsUpload | components/dashboard/UploadModal.tsx:49-65 | An unreadable first file blocks the report of every file |
| Upload.Close | components/dashboard/UploadModal.tsx:103-109 | Closing while uploading changes nothing; otherwise it clears files and progress and closes |
| Upload.StartUpload | components/dashboard/UploadModal.tsx:42-46 | Upload with no files does nothing; with files it starts uploading from zero progress |
| Upload.FinishUpload | components/dashboard/UploadModal.tsx:94-100 | The end of the upload resets the dialog and closes it |
| Upload.CloseDuringUpload | components/dashboard/UploadModal.tsx:103-109 | A running upload cannot be cancelled by closing; after it finishes, closing is a no-op |
| GameTape.BarLitIffStarted | components/coaching/GameTapePlayer.tsx:165-176 | "Wholly before the playhead or containing it" is the same as "starting at or before the playhead" |
| GameTape.LitBarsArePrefix | components/coaching/GameTapePlayer.tsx:165-176 | Every bar before a lit bar is lit |
| GameTape.LitBarsGrowWithTime | components/coaching/GameTapePlayer.tsx:85 | A lit bar stays lit as the playhead moves forward |
| GameTape.LitCountMonotone | components/coaching/GameTapePlayer.tsx:163-176 | The number of lit bars never drops as the playhead moves forward |
| GameTape.OnlyFirstBarLitAtZero | components/coaching/GameTapePlayer.tsx:165-169 | At time 0 only bar 0 is lit |
| GameTape.FromTranscript | components/coaching/GameTapePlayer.tsx:197-208 | One segment per line, with the line's start, speaker and tag; each line ends where the next starts, and the last ends at `min(duration, start + 30)` |
| GameTape.RenderSegments | components/coaching/GameTapePlayer.tsx:195-209 | A non-empty transcript drives the strip; otherwise the given segments are used with their times, speakers and topics and without a line tag |
| GameTape.TranscriptStripTelescopes | components/coaching/GameTapePlayer.tsx:197-213 | Transcript-derived segments are contiguous, so their widths add up to the last end minus the first start |
| GameTape.StripFillsDuration | components/coaching/GameTapePlayer.tsx:199-213 | A transcript that starts at 0 and ends within 30 s of the duration fills exactly the whole strip |
| GameTape.SegmentColour | components/coaching/GameTapePlayer.tsx:216-224 | Objection red, discovery colour, signal or next-steps colour, in that precedence; with no tag, the speaker's colour |
| GameTape.HighlightOverridesTopic | components/coaching/GameTapePlayer.tsx:217 | A line's own tag decides the colour whatever the segment topic, and a tagged segment never shows a speaker colour |
| GameTape.PinWithinRail | components/coaching/GameTapePlayer.tsx:248 | A pin inside the recording is placed between 0 % and 100 % |
| GameTape.Skip | components/coaching/GameTapePlayer.tsx:71-77 | Skip moves the reported time and the audio position together to `clamp(time + delta, 0, duration)` and changes nothing else |
| GameTape.SkipBackAndForth | components/coaching/GameTapePlayer.tsx:71-77 | Back 10 s then forward 10 s returns to the same time when at least 10 s have played |
| GameTape.Seek | components/coaching/GameTapePlayer.tsx:64-69 | A segment or pin click sets both times to the target and leaves play state and volume alone |
| GameTape.WaveformClick | components/coaching/GameTapePlayer.tsx:155-160 | A click at offset x of the waveform seeks both times to `x / width` of the duration, which lies within `[0, duration]` inside the waveform, and changes nothing else |
| GameTape.TimeUpdate | components/coaching/GameTapePlayer.tsx:112 | The element's time update copies the audio time to the page and changes nothing else |
| GameTape.PlayPause | components/coaching/GameTapePlayer.tsx:54-62 | Play/pause flips the playing state and leaves the position alone |
| GameTape.ToggleMute | components/coaching/GameTapePlayer.tsx:309 | The mute button flips muting and keeps the stored volume |
| GameTape.SetVolume | components/coaching/GameTapePlayer.tsx:314-317 | Moving the slider sets the volume and unmutes |
| GameTape.EffectiveVolume | components/coaching/GameTapePlayer.tsx:48-52 | The element is silent when muted, and its volume stays within `[0, 1]` for any slider value from 0 to 100 |
| GameTape.SliderValue | components/coaching/GameTapePlayer.tsx:313 | The slider shows either 0 or the stored volume |
| GameTape.VolumeRoundTrips | components/coaching/GameTapePlayer.tsx:309-317 | Mute then unmute restores the state and its volume; muting silences; the slider after muting sets the new volume audibly |
| Transcript.LaterLinesInactive | components/coaching/InteractiveTranscript.tsx:35-39 | With starts in order, a line active at t leaves every later line inactive |
| Transcript.NoneActiveOutside | components/coaching/InteractiveTranscript.tsx:35-39 | Before the first start, and from 30 s after the last start, no line is active |
| Transcript.CoveredFrom | components/coaching/InteractiveTranscript.tsx:35-39 | From line k on, every time between its start and 30 s after the last start has an active line |
| Transcript.ExactlyOneActive | components/coaching/InteractiveTranscript.tsx:35-39 | Every time from the first start to 30 s after the last start has exactly one active line |
| Transcript.FindActiveLine | components/coaching/InteractiveTranscript.tsx:50-51 | The scan returns the first active line, or none exactly when no line is active |
| Transcript.IsActiveLineAsWritten | components/coaching/InteractiveTranscript.tsx:35-39 | As written no line is ever active |
| Transcript.ActiveLineDiscrepancy | components/coaching/InteractiveTranscript.tsx:35-39 | At a line's own start the intended rule marks it active and the code as written does not |
| Transcript.LineSeekTarget | components/coaching/InteractiveTranscript.tsx:64 | The intended line click seeks to the line's own start, where that line is active |
| Transcript.LineSeekTargetAsWritten | components/coaching/InteractiveTranscript.tsx:64 | As written the line click passes `line.startSeconds`, which is not a number |
| Transcript.LineClickJumps | components/coaching/InteractiveTranscript.tsx:46-64 | With starts in order, clicking line i makes it the only active line; the as-written target leaves no line active |
| Transcript.AddNote | components/coaching/InteractiveTranscript.tsx:136-148 | A note is stored only for a non-empty answer on a line without a note; other lines' notes are unchanged |
| Transcript.AddNoteKeepsNotesNonEmpty | components/coaching/InteractiveTranscript.tsx:145-148 | Stored notes stay non-empty, and no note is ever lost |
| Transcript.HighlightClass | components/coaching/InteractiveTranscript.tsx:20-33 | An untagged line gets the transparent border |
| Transcript.HighlightClassesShared | components/coaching/InteractiveTranscript.tsx:20-33 | Signal and next-steps share one style, and any two other tags, or no tag, get different styles |
| Transcript.BadgeIsCapitalizedName | components/coaching/InteractiveTranscript.tsx:111-113 | The "● Signal" special case agrees with the general rule, so every badge is "● " and the capitalised tag name |
| JsNum.Coalesce | components/coaching/InteractiveTranscript.tsx:37 | `??` falls through only on `undefined`, so `NaN` is kept |
| JsNum.ComparisonsWithNonNumbersFail | components/coaching/InteractiveTranscript.tsx:38 | A comparison with `undefined` or `NaN` is false in both directions |
| Coach.CurrentInsight | components/coaching/ContextualCoach.tsx:19-21 | The lookup returns the first insight, in list order, whose `[start, end)` contains the time, and none exactly when no insight does |
| Coach.EarliestInsightWins | components/coaching/ContextualCoach.tsx:20 | Where intervals overlap, the lookup returns an insight no later in the list than any covering one |
| Coach.DisjointLookupIsExact | components/coaching/ContextualCoach.tsx:19-21 | With disjoint intervals the card shows insight i exactly when the time lies in its interval |
| Coach.CurrentInsightAsWritten | components/coaching/ContextualCoach.tsx:19-21 | As written the lookup never finds an insight |
| Coach.CurrentInsightDiscrepancy | components/coaching/ContextualCoach.tsx:19-21 | At an insight's start the intended lookup shows it; the lookup as written shows the summary |
| Coach.CriticalMoments | components/coaching/ContextualCoach.tsx:24-26 | The summary lists the first `min(3, n)` insights in their order |
| Coach.TimeLabel | components/coaching/ContextualCoach.tsx:165-168 | The objection time label `m:ss` reads back as its seconds |
| Coach.SummaryLabelAsWritten | components/coaching/ContextualCoach.tsx:112-113 | As written both halves of the summary label are `NaN`, the floor of `undefined / 60` and the remainder `undefined % 60`, so the label reads "NaN:NaN" and is not a readable time |
| Coach.SummarySeekTarget | components/coaching/ContextualCoach.tsx:100 | The intended summary click seeks to the insight's own timestamp, which lies inside its interval |
| Coach.SummarySeekTargetAsWritten | components/coaching/ContextualCoach.tsx:100 | As written the summary click passes `insight.startSeconds`, which is not a number |
| Coach.SummaryClickShowsInsight | components/coaching/ContextualCoach.tsx:97-100 | With disjoint insights, clicking summary item i seeks to where the card shows insight i and no other; as written the seek target is not a number |
| Coach.ObjectionWindow | components/coaching/ContextualCoach.tsx:135 | An objection is highlighted on the open interval of 10 s either side of its timestamp |
| Coach.ActiveObjections | components/coaching/ContextualCoach.tsx:134-135 | The highlighted objections are exactly those within 10 s of the time, so several can be highlighted at once |
| Coach.ObjectionsOverlapOnlyWhenClose | components/coaching/ContextualCoach.tsx:135 | Objections 20 s or more apart are never highlighted together; closer ones are both highlighted midway |
| Coach.SeekHighlightsObjection | components/coaching/ContextualCoach.tsx:140 | Clicking an objection seeks to its timestamp, where it is highlighted |
| Metrics.ListenRatio | components/coaching/MetricsDashboard.tsx:23 | Talk and listen add up to 100, and listen is a percentage when talk is |
| Metrics.TalkWarningMeansListenBelowForty | components/coaching/MetricsDashboard.tsx:23-24 | The talk warning is on exactly when the prospect has less than 40 % |
| Metrics.ComputeDeltas | components/coaching/MetricsDashboard.tsx:12-31 | Each delta is current minus previous, the previous call defaulting to the built-in one |
| Metrics.DeltasAntisymmetric | components/coaching/MetricsDashboard.tsx:28-31 | Swapping the two calls negates each delta, and a call against itself gives all zeros |
| Metrics.DeltaIndicator | components/coaching/MetricsDashboard.tsx:33-57 | Zero renders "Same"; otherwise exactly one of good/bad holds, inverted metrics swap them, the icon is TrendingUp exactly when the change is good, the magnitude is `abs(delta)` with the unit, and the arrow follows the sign |
| Metrics.DeltaIndicatorAsWritten | components/coaching/MetricsDashboard.tsx:53-54 | As written a change shows TrendingUp exactly when it is good, and the arrow is '↓' exactly when it is good |
| Metrics.IconAgainstArrow | components/coaching/MetricsDashboard.tsx:53-54 | As written the text arrow is '↓' exactly beside the TrendingUp icon, so the two contradict on every change; with the arrow following the sign, icon and arrow agree exactly for non-inverted metrics |
| Metrics.InvertedSwapsColours | components/coaching/MetricsDashboard.tsx:34-35 | `inverted` swaps the good and bad colours and keeps the arrow |
| Metrics.ArrowDiscrepancy | components/coaching/MetricsDashboard.tsx:54 | The arrow as written is right for inverted metrics and wrong for every change of a non-inverted one, e.g. pace 138 to 145 shows '↓' |
| Metrics.IndicatorText | components/coaching/MetricsDashboard.tsx:36-54 | "Same" for no change; otherwise the text starts with the arrow and a space and has room for the magnitude and unit |
| Metrics.IndicatorTextShowsMagnitude | components/coaching/MetricsDashboard.tsx:54 | The digits shown read back as `abs(delta)`, followed by the unit |
| Metrics.OptimalBarsAreThreeAndFour | components/coaching/MetricsDashboard.tsx:119-122 | Only bars 3 and 4 have thresholds in the optimal 120–150 band |
| Metrics.LitPaceBars | components/coaching/MetricsDashboard.tsx:119-121 | The lit pace bars are exactly a prefix of the eight |
| Metrics.LitPaceBarsMonotone | components/coaching/MetricsDashboard.tsx:121 | A faster pace never lights fewer bars |
| Metrics.PrimaryMarksLitOptimal | components/coaching/MetricsDashboard.tsx:128-130 | The primary colour marks exactly the lit optimal bars, and the muted colour exactly the unlit ones |
| ScoreHistory.MaxScore | components/coaching/GoalTracker.tsx:14 | The maximum is one of the scores and no score exceeds it |
| ScoreHistory.MinScore | components/coaching/GoalTracker.tsx:15 | The minimum is one of the scores and no score is below it |
| ScoreHistory.Range | components/coaching/GoalTracker.tsx:14-16 | A non-empty history has a positive range that bounds every difference of two scores |
| ScoreHistory.RangeOfFlatHistory | components/coaching/GoalTracker.tsx:16 | All scores equal iff max equals min, and then the range falls back to 1 |
| ScoreHistory.Trend | components/coaching/GoalTracker.tsx:24-26 | The trend is latest minus previous; a single call gives its score; no calls give 0 |
| ScoreHistory.TrendAfterAppend | components/coaching/ActionPlanFooter.tsx:23-25 | After a new call the trend is its score minus the one before |
| ScoreHistory.TrendTextSign | components/coaching/GoalTracker.tsx:93 | The trend text starts with '+' for a rise, '-' for a fall and is "0" for none, and its digits read back as the size of the change |
| GoalTracker.StatusOf | components/coaching/GoalTracker.tsx:36-48 | Improving iff trend > 2, regressing iff trend < -2, flat otherwise; exactly one holds |
| GoalTracker.StatusBadgesDistinct | components/coaching/GoalTracker.tsx:36-48 | Different statuses have different badge labels and colours |
| GoalTracker.MeetingGoal | components/coaching/GoalTracker.tsx:29-30 | The count is at most the number of calls; it is 0 iff every score is below target, and total iff every score reaches it |
| GoalTracker.MeetingGoalAntitone | components/coaching/GoalTracker.tsx:29 | Raising the target never increases the count |
| GoalTracker.MeetingGoalIsFilterLength | components/coaching/GoalTracker.tsx:29 | The count is the length of the history filtered on the target |
| GoalTracker.VerdictNamesStatus | components/coaching/GoalTracker.tsx:50-54 | Each status opens its verdict with its own word |
| GoalTracker.Render | components/coaching/GoalTracker.tsx:24-93 | The tracker shows the goal count of the history, which never exceeds its length; its status is the band of the trend, the '+' appears exactly for a rise, and the verdict sentence is the one for that status and count |
| GoalTracker.EmptyHistoryIsSteady | components/coaching/GoalTracker.tsx:24-48 | An empty history reads as steady with no call meeting the goal |
| ActionPlan.TrendBadgeFollowsSign | components/coaching/ActionPlanFooter.tsx:79-88 | The badge has three colours, one per sign of the trend, and the '+' is shown exactly with the rise colour |
| ActionPlan.RenderDrill | components/coaching/ActionPlanFooter.tsx:42-61 | A drill row shows the drill's text |
| ActionPlan.CompletedStylingIffCompleted | components/coaching/ActionPlanFooter.tsx:47-57 | Check icon, struck-through text and highlighted row each appear exactly for a completed drill |
| ActionPlan.RenderDrills | components/coaching/ActionPlanFooter.tsx:42-62 | One row per drill, in order, with its text and its completion icon |
| NavUser.SplitAtSeps | components/sidebar/nav-user.tsx:18 | Splitting at separators gives at least one piece and no piece holds a separator |
| NavUser.Pieces | components/sidebar/nav-user.tsx:18 | The kept pieces are non-empty and separator-free |
| NavUser.PiecesSpellLetters | components/sidebar/nav-user.tsx:18 | The pieces, read in order, spell exactly the non-separator characters of the local part |
| NavUser.LocalPartIsPrefixBeforeAt | components/sidebar/nav-user.tsx:17 | The local part is the prefix of the address before its first '@' |
| NavUser.Initials | components/sidebar/nav-user.tsx:15-22 | Initials are one or two characters, "U" for a missing or empty address |
| NavUser.InitialsByPieces | components/sidebar/nav-user.tsx:19-21 | Two or more pieces give their first letters; one piece gives its first one or two letters; no piece gives "U"; all upper-cased |
| NavUser.InitialsComeFromLocalPart | components/sidebar/nav-user.tsx:17-21 | Every initial is an upper-cased letter of the local part, unless it is the "U" placeholder of a local part without letters |
| NavUser.FirstTruthy | components/sidebar/nav-user.tsx:40-49 | The chain returns the first non-empty candidate, or the fallback when there is none |
| NavUser.FallbackChains | components/sidebar/nav-user.tsx:39-49 | The name is never empty and prefers the metadata name; it is "User" when nothing is available; the avatar is empty exactly when neither image source is given |
| TranscriptCard.LabelAndInitialAgree | components/conversation/TranscriptCard.tsx:23-25 | The initial is the label's first letter, and the label is "Me" exactly for "Me" or "A" |
| TranscriptCard.LegacyRoundTrip | components/conversation/TranscriptCard.tsx:23-24 | Both the legacy code and the name of a speaker are shown as that speaker's name |
| TranscriptCard.RenderLine | components/conversation/TranscriptCard.tsx:22-55 | A row keeps the line's time and text and marks the seller's lines |
| TranscriptCard.RenderRows | components/conversation/TranscriptCard.tsx:22 | One row per line, in order |
| TranscriptCard.LegacyCardShowsSession | components/conversation/TranscriptCard.tsx:22-25 | The card over the legacy detail shows every session line with its original speaker, time and text, in order |
| MockRecordings.MockRecordings | data/mockData.ts:136-152 | The generator yields 48 records, record i built from base i mod 10, duration i mod 10 and owner i mod 5 |
| MockRecordings.GeneratedIds | data/mockData.ts:142 | Record i has id "i+1", which reads back as i + 1, so the ids are pairwise distinct |
| MockRecordings.NameShape | data/mockData.ts:143 | A name is its base name, extended from the second round on by " #" and one digit |
| MockRecordings.DifferentBasesDifferentNames | data/mockData.ts:120-131 | Records on different bases have different names |
| MockRecordings.SameBaseDifferentNames | data/mockData.ts:143 | Records on one base have different names through their round suffix |
| MockRecordings.GeneratedNamesDistinct | data/mockData.ts:136-149 | All 48 generated names are pairwise distinct |
| MockRecordings.GeneratedCycles | data/mockData.ts:137-148 | Status, call type and duration follow i mod 10, owner follows i mod 5, and the first ten names are the base names |
| MockRecordings.DurationsParse | data/mockData.ts:134 | Every fixture duration is well formed and reads as its number of seconds |
| MockRecordings.GeneratedDatesDescend | data/mockData.ts:138-144 | Record i is dated i days before today, so the dates strictly decrease along the list |
| MockRecordings.LastSevenDaysIsFirstEight | data/mockData.ts:138-139 | The "Last 7 Days" bucket keeps exactly the first eight generated records |
| MockRecordings.FixtureSearchNeverFails | data/mockData.ts:148 | Every generated record has a call type, so the search as written never throws on the fixture list |
| MockSession.SessionDurationAgrees | data/mockData.ts:161-162 | The duration label "04:32" reads as the stated 272 seconds |
| MockSession.SessionTranscriptOrdered | data/mockData.ts:164-262 | The transcript's start times strictly increase and lie within the call |
| MockSession.SessionTimestampsAgree | data/mockData.ts:164-262 | Each line's timestamp label reads back as its seconds |
| MockSession.SessionSegmentsTile | data/mockData.ts:287-303 | One segment per transcript line, running from 0 to the duration; each starts the second after the previous one ends, and segment k starts at line k's time with its speaker |
| MockSession.SessionInsightsDisjoint | data/mockData.ts:310-338 | The insight intervals are ordered, pairwise disjoint and inside the call |
| MockSession.SessionObjectionsNeverTogether | data/mockData.ts:339-352 | The two objections are never highlighted at the same time |
| MockSession.SessionPinsWithinCall | data/mockData.ts:304-309 | Every pin lies within the call |
| MockSession.SessionDeltas | data/mockData.ts:353-361 | Against the built-in previous call the deltas are -6 %, +7 wpm, -35 s and +1; as written the pace rise shows "↓ 7" beside the TrendingUp icon |
| MockSession.SessionProgressImproving | data/mockData.ts:367-373 | The score history ends with a four-point rise, reads as improving, and has range 16 |
| MockSession.LegacySpeaker | data/mockData.ts:385 | The legacy code is one character, 'A' exactly for Me and 'B' exactly for Prospect |
| MockSession.ToLegacyLine | data/mockData.ts:383-386 | A legacy line re-encodes only the speaker and copies every other field |
| MockSession.ToLegacyDetail | data/mockData.ts:377-389 | The legacy detail copies the session's shared fields and maps every transcript line, in order |

## Left out

- Rendering, DOM measurement, event-listener registration, the `<audio>` element, timers, toasts, the clipboard and `prompt()`. The lasso works on given rectangles. The audio element is a time and a volume in the player state. A prompt answer is a parameter.
- `localeCompare` collation is code-point order, and `toLowerCase`/`toUpperCase` map ASCII letters only.
- `Date` parsing, time zones and `toLocaleDateString`. Dates are integer day numbers and "today" is a parameter. The upload handler's `Date.now()` is a parameter `now`, and its date label is a parameter `dateLabel`.
- Random waveform heights and the SVG sparkline coordinates: randomness and floating-point drawing.
- Authentication (login form, logout route, user lookup) and the "Login" link shown without a user. They wrap an external identity client.
- The deleted-recordings page: the helpers it calls are not in `data/mockData.ts`, so their behaviour cannot be read.
- The page's `handleSeek` (app/conversation/[id]/ConversationDetail.tsx:20-22) sets only the page time and never moves the `<audio>` element. So a seek from a transcript line, a summary item or an objection (Transcript.LineClickJumps, Coach.SummaryClickShowsInsight, Coach.SeekHighlightsObjection) holds only until the next `timeupdate` during playback resets the page time to the audio position. The model states the page time right after the click.
- `ConversationDetail.tsx` otherwise, `FeedbackCard.tsx`, `GoalBanner.tsx`, `StatusBadge.tsx` and `TableToolbar.tsx`: presentation only. Their fixed option lists are folded into the datatypes.
- The prose strings of the demo session are empty strings in the model: texts, critiques, advice, labels and the summary. No property reads them.
- The `dealContext` field of the uploaded record. `Recording` does not declare it, and nothing reads it.
- TableSort.SortBy: insertion sort stands in for `Array.prototype.sort`. It is stable, but stability is not stated; the contract is permutation plus order.
- TableSort.SortRecordings: the duration column requires well-formed `mm:ss` durations. With `NaN` keys the JavaScript comparator is inconsistent, and the resulting order is unspecified.
- TableView.Visible: requires well-formed durations, for the same reason.
- TablePaging.Navigate: Next and Previous are modelled on the page number alone. Setting a page beyond `totalPages` directly is possible in the source, and then the slice is empty.
- GameTape.Seek: the segment and pin click target is not clamped, as in the source. Only the waveform click is shown to land inside the recording.
- GameTape.PinWithinRail: stated for pins inside the recording. The position of a pin outside it is `ts / d * 100` unbounded.
- Clock.ParseDuration: accepts only two non-empty digit runs around one colon. JavaScript's `split(':').map(Number)` also reads ":50" as 50, "1:" as 60, "1:2:3" as 62 and " 1: 05" as 65, where the model gives `None`. Only the direction "JavaScript gets `NaN`, the model gets `None`" is stated.
- Clock.FormatTime: requires a non-negative time. The player never reports a negative one.
- ScoreHistory.Range: returns `None` for an empty history. In JavaScript the spread is then `-Infinity`, which is truthy, so the sparkline is drawn with `-Infinity`.
- Upload.ProgressRounds: states the progress in exact arithmetic. JavaScript computes it in doubles, which can fall just below a .5 tie: with 8 files, step 3 of the fifth file gives `57.49999999999999` and shows 57, where the model gives 58. Monotonicity and the final 100 hold either way.
- Upload.DurationLabelRoundTrip: models whole-second probe results. For a fractional duration, `Math.round` of the seconds can give 60, as in "01:60", which the table parser reads as 120 s; this rounding edge is not modelled.
- Upload.RunUpload: the probe promise is modelled as settling. `Upload.EventsAsWritten` models the as-written case where an unreadable file never resolves.

## Findings

| source | as written | input that shows it | evidently intended | confidence | as-written member | corrected member |
|---|---|---|---|---|---|---|
| components/coaching/InteractiveTranscript.tsx:35-39 | The active-line test reads `line.startSeconds`, a field that transcript lines do not declare (they carry `timestampSeconds`); every comparison with `undefined` is false | any transcript, for example one line at 0 s with the playhead at 0 s: no line is active | a line is active on `[timestampSeconds, next line's timestampSeconds)`, or 30 s for the last line | high, not executed | Transcript.IsActiveLineAsWritten | Transcript.FindActiveLine |
| components/coaching/InteractiveTranscript.tsx:64 | Clicking a line seeks to `line.startSeconds`, the same undeclared field, so the page time becomes `undefined`, although the header promises "Click any line to jump" | click any line: the seek target is not a number and no line is active afterwards | the click seeks to the line's `timestampSeconds`, where that line alone is active | high, not executed | Transcript.LineSeekTargetAsWritten | Transcript.LineClickJumps |
| components/coaching/ContextualCoach.tsx:19-21 | The current-insight lookup reads `insight.startSeconds`, which insights do not declare, so it never matches; the summary labels at lines 112-113 read the same field and print "NaN:NaN" | the demo session at 20 s, inside the first insight `[15, 40)`: the summary is shown instead of the card | the first insight whose `[timestampSeconds, endSeconds)` contains the time | high, not executed | Coach.CurrentInsightAsWritten | Coach.CurrentInsight |
| components/coaching/ContextualCoach.tsx:100 | Clicking a summary item seeks to `insight.startSeconds`, which insights do not declare, so the page time becomes `undefined` | click the first summary item of the demo session: the seek target is `undefined` where 15 was meant | the click seeks to the insight's `timestampSeconds`, where the card then shows that insight | high, not executed | Coach.SummarySeekTargetAsWritten | Coach.SummaryClickShowsInsight |
| components/coaching/MetricsDashboard.tsx:54 | The text arrow is '↓' when the change is good and '↑' otherwise, so it is right only for the inverted metrics | the demo pace 145 wpm against 138: a rise of 7, shown as "↓ 7" beside a TrendingUp icon | the text arrow follows the sign of the change, while the icon on line 53 keeps showing whether the change is good | medium, not executed | Metrics.DeltaIndicatorAsWritten | Metrics.DeltaIndicator |
| app/conversations/ConversationDashboard.tsx:24-32 | The record created on upload has no `callType`, and the search callback at RecordingsTable.tsx:49 calls `toLowerCase` on it, which throws | upload one file, then search "follow": the filter throws and no list is produced | the new record carries a call type, or the search skips a missing one | high, not executed | Dashboard.SearchAfterUploadThrows | TableFilter.FilterRecordings |
| components/dashboard/UploadModal.tsx:49-65 | The duration probe listens only for `loadedmetadata`; a file whose metadata never loads leaves the promise pending, so the `try`/`catch` never runs and the loop stops | two audio files, the first unreadable: no file is reported and the dialog stays in the uploading state | a failed probe counts as 0 s, as the `catch` branch intends, and every file is reported | medium, not executed | Upload.EventsAsWritten | Upload.RunUpload |
