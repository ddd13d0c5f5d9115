# SITA traffic analysis — a Dafny model

SITA analyses traffic video. A Flask backend takes an uploaded video and runs a
detector, a tracker, a colour classifier and a plate reader over it. It counts
vehicles by type, writes one CSV row per vehicle, and serves the job's status
and report. Three clients use the backend: a React application (sign-in
wizard, route guard, clearance page, agent and operator dashboards, and a
super-administrator console), a legacy single-page script, and a set of
earlier prototype scripts. The prototypes detect vehicles, classify colour,
count line crossings, detect plates and vote on plate readings.

The React application does not address app.py as written. Its requests go to
`http://127.0.0.1:7860` + `/api` + the endpoint (sita-web/src/lib/api.js:1,23).
app.py serves unprefixed routes (`/status`, `/traffic_report`, `/upload_video`,
`/download/<f>`) on port 5000 (app.py:137). The React app's sign-in, user and
organisation endpoints (`/auth/otp/send`, `/user/me`, `/user/onboard`,
`/admin/users`, `/org/create`) belong to a server that is not part of this
model. Wherever this model pairs the React pages with the job backend, it
ASSUMES that their `/api/status`, `/api/traffic_report` and
`/api/upload_video` are answered exactly as app.py answers `/status`,
`/traffic_report` and `/upload_video`. The legacy script addresses app.py's
routes directly.

This project models the decision logic and state changes of all these parts,
and proves what their code promises. Each core source file has one Dafny
module:

- `Processor` (processor.py). Per-track bookkeeping is a `VideoProcessor`
  class over a map of `Track` values:
  - a track locks and is counted on its fifth frame;
  - OCR runs every fifth frame, at most ten times;
  - the first and the best accepted plate readings are kept;
  - a CSV row is written once per locked track, when it goes stale or at the
    final flush.

  The class invariant ties the counters to the tracks: `total` is always
  cars + bikes + trucks. The colour winner, plate cleaning and best-candidate
  selection, and the progress formula are functions with their own lemmas.
- `App` (app.py). The global job record is a `JobServer` class: upload
  validation, the names of the output files, the
  idle → starting → processing → completed lifecycle (a failed run is left
  "processing", see below), the progress callback and the report endpoint.
- `Database` (database.py). The `users` and `otp_codes` tables are maps in a
  `UserStore` class: the administrator seed, agent ids, the Google and
  one-time-code sign-ups, profile completion, and single-use codes with a
  ten-minute expiry.
- `UserDashboard` and `Dashboard` (UserDashboard.jsx, Dashboard.jsx). The two
  analysis pages are classes whose methods are the React callbacks. Each
  callback takes the response it would have received. The derivations shown
  from the report are functions: per-type counters, the row filters and the
  CSV exports.
- `LegacyClient` (frontend/js/script.js). The upload handler, the status
  poll, the download links, the counter cells and the results table.
- `AccessGate`, `RouteGuard`, `Verification`, `AuthContext`, `Toasts` and
  `SuperAdmin`. The onboarding wizard, the protected-route decision, the
  clearance routing, the session store, the toast queue and the
  super-administrator console.
- `Day3`, `Day4`, `Day4_6`, `Day5`, `Day6` and `ReproduceOcr`. The prototype
  scripts:
  - the class-to-type mapping with its confidence thresholds;
  - the colour decision order;
  - centroid tracking with line-crossing counts and the two CSV tables;
  - the plate-box filter;
  - plate voting;
  - the original and the improved OCR candidate selection.

`Common` holds the shared vocabulary: `Option`, `Outcome`, ASCII case
mapping, character removal, substring search, split and join. `Rows` holds a
report row as the clients see it (a JSON object whose property is missing,
null or a string).

The vision libraries are left out. What they return becomes an input:
detections, track ids, per-mask pixel counts and OCR `(text, score)` lists.
Requests, timers and storage become method parameters, and a request that
throws is a `Failed` outcome.

Several behaviours of the code differ from what the rest of the system
expects. They are modelled as written, with lemmas that show the effect:

- `background_process` logs a failure with `logger.error` (app.py:57), but
  app.py never binds `logger`; it only imports `logging`. The NameError ends
  the thread before the "error" status and message are stored (app.py:58-60).
  A failed run, such as a video that does not open, therefore leaves the job
  "processing" with no error text. See `App.NoRunEndsInError`. The clients'
  "error" branches never fire, and the agent page and the legacy script keep
  polling such a job; see `UserDashboard.FailedRunPollsOn` and
  `LegacyClient.FailedRunPollsOn`.
- The agent page (UserDashboard.jsx:71) waits for the status "complete".
  The backend only ever reports "completed" (app.py:52). This and the next
  item hold for the React pages under the assumption above, that their
  `/api` server answers as app.py does. So a polling agent
  page never reaches its completed state and never loads the report; see
  `UserDashboard.NeverCompletes`. The operator console does recognise
  "completed"; see `Dashboard.BackendCompletion`.
- Without a CSV link the backend's report is `{"rows": []}`, with no "data"
  key (app.py:116). The clients then keep their rows. The legacy script
  clears its table and throws inside a caught block; see
  `LegacyClient.Page.ReportArrived`.
- On the agent page, the errors thrown inside the XMLHttpRequest callbacks
  (UserDashboard.jsx:131-138) escape the surrounding `try`. So a refused
  upload leaves the page "uploading"; see `UserDashboard.Page.OnUploadLoad`.
- The clearance page navigates on every outcome, even a rejected record or a
  failed request, and its status always ends "verified"; see
  `Verification.Destination`.
- reproduce_ocr.py answers the bare string "Not Detected" for an empty crop,
  but the pair ("Not Detected", None) for an empty plate region; see
  `ReproduceOcr.OriginalAnswerSpec`.
- `refreshUser` never throws, because `checkSession` catches its own
  failures. So the wizard's final submit moves on to the clearance page
  exactly when the onboarding request succeeds.

## Model

| member | source | states |
|---|---|---|
| Processor.TypeOf | processor.py:23-32 | class id 3 gives Bike, 7 gives Truck, and every other id (2 included) keeps the default Car |
| Processor.TypeName | processor.py:23-32 | the label written for a type is one of "Car", "Bike", "Truck" (at least three characters) |
| Processor.TypeNameInjective | processor.py:23-32 | two tracks carry the same label exactly when they have the same type |
| Processor.OutputWidth | processor.py:143-149 | the working width is the source width up to 1920 and 1920 beyond it, never wider than either |
| Processor.ColorTotals | processor.py:68-72 | a colour's pixel count is the sum of the counts of its HSV ranges (Red has two) |
| Processor.ColorWinnerUnique | processor.py:64-76 | at most one colour satisfies the winner condition |
| Processor.ColorSpecDeterministic | processor.py:48-76 | the colour promised for a crop is unique |
| Processor.Winner | processor.py:64-76 | the running winner of the colour loop is -1 or an index of a colour |
| Processor.WinnerIsColorWinner | processor.py:64-76 | the loop's winner is the colour with the most pixels among those above 30% of the centre, the earliest among equals, and there is none exactly when no colour exceeds 30% |
| Processor.ColorOf | processor.py:48-76 | the decided colour is one of White, Black, Red, Blue, Gray |
| Processor.ColorOfSpec | processor.py:48-76 | an empty crop or empty centre gives Blue; otherwise the dominant colour with the most pixels, or Blue when none covers more than 30% |
| Processor.CountPixels | processor.py:69-72 | the inner loop adds up the pixel counts of a colour's ranges |
| Processor.DetectColor | processor.py:48-76 | `detect_color` returns the decided colour |
| Processor.CleanPlate | processor.py:123 | a cleaned plate has no space, dot, hyphen or lower-case letter and is no longer than the reading |
| Processor.CleanPlateIsUpperThenRemove | processor.py:123 | cleaning is upper-casing followed by deleting spaces, dots and hyphens |
| Processor.CleanPlateIdempotent | processor.py:123 | cleaning a cleaned plate changes nothing |
| Processor.BestOfIsBest | processor.py:115-132 | the reading loop ends with the cleaned text of the first highest-scoring reading of at least four characters and positive score, or ("Not Detected", 0.0) when there is none |
| Processor.PlateOfSpec | processor.py:78-132 | an empty crop, a crop narrower than 5% of the frame or an empty plate band gives ("Not Detected", 0.0); any other answer is a space-free text of at least four characters with a positive score, the best reading over the three candidates |
| Processor.DetectPlate | processor.py:78-132 | `detect_plate` returns the plate decided for the crop |
| Processor.ReadResults | processor.py:118-130 | the inner loop over one candidate's results continues the running best |
| Processor.Progress | processor.py:185-193 | progress is at most 99, and 50 when the frame count is unknown |
| Processor.ProgressMonotone | processor.py:185-193 | for a known frame count progress never decreases as frames advance |
| Processor.Read | processor.py:242-251 | one reading never lowers the best confidence, never changes a set initial plate, is ignored unless it is a plate scoring above 0.3, and keeps the plate fields consistent |
| Processor.ReadAllValid | processor.py:242-251 | after any readings best and initial plate are both set or both "Not Detected", and the best confidence is above 0.3 once set |
| Processor.FirstAccepted | processor.py:249-251 | the first accepted reading is accepted and is one of the readings |
| Processor.FirstAcceptedSnoc | processor.py:249-251 | a later reading only matters for the first accepted one when none was accepted before |
| Processor.ReadAllSummary | processor.py:242-251 | the initial plate is the first accepted reading; the best confidence is the highest accepted score and the best plate is the text of the first accepted reading with that score (later ties do not replace it); the confidence is 0.0 exactly when nothing was accepted |
| Processor.NewTrack | processor.py:12-28 | a new track keeps its class id, its type from `TypeOf` and the detector's confidence, has the default colour "Blue", and is unseen, not counted, not written and has no plate |
| Processor.Sighted | processor.py:219-233 | a sighting raises `frames_seen` by one, records the frame, locks the track exactly on its fifth sighting and takes the colour only then |
| Processor.Attempted | processor.py:237-251 | an OCR attempt raises the attempt count by one and applies the reading, changing nothing else |
| Processor.Observe | processor.py:218-251 | one detection: a sighting, the colour when it locks, an OCR attempt exactly when one is due (fewer than ten so far and a multiple of five sightings), and type, confidence and written flag unchanged |
| Processor.RowOf | processor.py:272-277 | a CSV row holds, in header order, the track's type label, colour, best plate, initial plate, best confidence and the current frame |
| Processor.Tally | processor.py:229-232 | a tally counts at most the listed tracks |
| Processor.TallyUpdate | processor.py:214-232 | replacing one track changes a tally only by that track's contribution |
| Processor.TallyWrittenIsLocked | processor.py:279-284 | once exactly the counted tracks are written, the written tally equals cars plus bikes plus trucks |
| Processor.Tallied | processor.py:229-232 | locking a vehicle raises the total and exactly one type counter by one |
| Processor.AddKeeps | processor.py:214-217 | adding a new, unlocked track keeps the table, counters and rows consistent |
| Processor.ReplaceKeeps | processor.py:218-251 | a sighting that does not lock keeps the counters and rows consistent |
| Processor.LockKeeps | processor.py:226-233 | a locking sighting keeps the counters consistent once its type is counted |
| Processor.WriteKeeps | processor.py:274-277 | writing a counted track's row keeps one row per written track |
| Processor.FlushSpec | processor.py:270-284 | a CSV pass only sets written flags, exactly those of the listed counted tracks that are due |
| Processor.VideoProcessor.constructor | processor.py:169-175 | processing starts with no tracks, zero counters and only the CSV header |
| Processor.VideoProcessor.AddTrack | processor.py:214-217 | a new id gets a fresh track appended to the insertion order |
| Processor.VideoProcessor.ProcessDetection | processor.py:211-251 | a detection updates exactly its track as `Observe` says and, on the locking sighting, counts it and reports the counters |
| Processor.VideoProcessor.Replace | processor.py:218-251 | a non-locking sighting replaces the track and changes no counter |
| Processor.VideoProcessor.Lock | processor.py:226-233 | the locking sighting counts the vehicle under its type and reports the counters |
| Processor.VideoProcessor.WriteRows | processor.py:270-284 | a CSV pass appends one row per due track in insertion order and marks it written |
| Processor.VideoProcessor.WriteRow | processor.py:274-277 | one row appended and the track marked written |
| Processor.VideoProcessor.Step | processor.py:179-277 | one frame: the frame counter rises and progress is refreshed (and reported) every tenth frame; a frame off the five-frame skip changes nothing else; a processed frame runs every detection through `DetectAll` from the refreshed counters, then the cleanup pass against its ids; one whose tracker call throws only runs the cleanup pass against the previous frame's ids, with no counter moved and no report beyond the progress one; counters and rows only grow |
| Processor.VideoProcessor.ProcessFrame | processor.py:203-277 | a processed frame records its detections' ids as `frame_ids`; the table, the insertion order, the counters and the reports become `DetectAll` of the old ones, and the cleanup pass over them gives the final table and the appended rows; when the tracker throws, the old ids, counters and reports are kept and only the cleanup pass runs |
| Processor.VideoProcessor.TrackDetections | processor.py:206-251 | the per-detection loop collects the frame's ids in order, and the table, the insertion order, the counters and the reports become `DetectAll` of the old ones |
| Processor.VideoProcessor.Detect | processor.py:211-251 | one iteration of the loop advances that state by exactly one more detection of `DetectUpTo` |
| Processor.Detected | processor.py:211-231 | one detection (its track created if new, then observed; on the locking sighting the counters count it and are reported) keeps every track valid |
| Processor.DetectedExtends | processor.py:213-231 | one detection appends at most its own id to the insertion order and at most one report |
| Processor.DetectUpTo | processor.py:210-251 | the first `n` detections of a frame, one after the other, keep every track valid |
| Processor.DetectAll | processor.py:210-251 | all of a frame's detections keep every track valid |
| Processor.FrameIds | processor.py:206-212 | `frame_ids` after `n` detections holds their ids, in order |
| Processor.Ids | processor.py:211-212 | the set of the first `n` detections' ids: each is in it and each member has a detection |
| Processor.DetectKeys | processor.py:213-216 | after the loop the table holds exactly the old ids and the frame's detected ones |
| Processor.DetectKeeps | processor.py:213-216 | a track not detected in the frame is left unchanged |
| Processor.DetectSeen | processor.py:217-219 | every track detected in the frame was last seen in it |
| Processor.DetectOrder | processor.py:213-216 | new ids are only appended to the insertion order |
| Processor.DetectReports | processor.py:223-231 | earlier callback reports are kept and new ones appended |
| Processor.DetectGrows | processor.py:223-230 | the counters' total only grows, progress is untouched, and total stays the sum of cars, bikes and trucks |
| Processor.VideoProcessor.ProcessVideo | processor.py:134-294 | a video that does not open fails with "Video Error" and changes no field; otherwise total is cars plus bikes plus trucks, and after the final flush every counted vehicle has exactly one CSV row |
| App.LastIndexOf | app.py:53-54 | the index found holds the character and no later index does, or -1 when it is absent |
| App.Basename | app.py:53-54 | a base name is the suffix of the path after its last '/' and contains no '/' |
| App.StripExt | app.py:85-87 | the root is the name cut at the last '.' of its last component when a non-dot character precedes that '.' in the component, and the whole name otherwise; anything cut off starts at a '.' and holds no further '.' or '/' |
| App.OutputNames | app.py:79-87 | both output names start with `<job id>_` and the CSV name never equals the video name |
| App.StatusName | app.py:29-59 | every status string the backend writes has at least four characters |
| App.StatusNameInjective | app.py:29-59 | distinct statuses are written as distinct strings |
| App.NullableText | app.py:108-110 | a job field renders as text exactly when it is set, and as null otherwise |
| App.JobServer.constructor | app.py:27-35 | the job record starts idle with zeroed counters and every link, id and error null |
| App.JobServer.UpdateProgress | app.py:37-39 | a progress report replaces the counters and nothing else |
| App.JobServer.UploadVideo | app.py:67-105 | no 'video' part or an empty file name is rejected with 400 and leaves the job alone; otherwise the job is reset to "starting" with the new id and the stored, CSV and video names are derived from it |
| App.JobServer.BackgroundProcess | app.py:41-60 | processing runs with zeroed counters, each report replaces them, success records "completed", the final counters and both base names, a failure leaves the job "processing" with no error text and the last reported counters, because the unbound `logger` ends the thread first |
| App.JobServer.GetReport | app.py:112-129 | without a CSV link the body is only an empty "rows" list; otherwise the fixed four columns and the CSV rows in order, none if the file is missing |
| App.NoRunEndsInError | app.py:41-60 | a started job never ends "error": success completes it, failure leaves it "processing" with no error text and the last reported counters, and the record stays well formed |
| App.NoStatusIsComplete | app.py:29-59 | no status the backend writes is the string "complete" |
| Database.AgentIdFrom | database.py:63-66 | an agent id is "SITA-" followed by the upper-cased first four hex digits of the uuid, nine characters in all |
| Database.HexCase | database.py:65 | upper-casing a lower-case hex digit gives an upper-case hex digit that lower-cases back to it |
| Database.SavedCodeVerifies | database.py:143-187 | a code just saved verifies exactly when the same code is presented within ten minutes |
| Database.ResaveVoidsEarlier | database.py:148 | saving a second code for an address voids the first (REPLACE on the primary key) |
| Database.SingleUse | database.py:180-187 | a code that verifies is deleted, so nothing verifies for that address until a new code is saved |
| Database.VerifyIsolated | database.py:153-194 | verifying one address never touches another address's code |
| Database.UserStore.constructor | database.py:13-42 | both tables start empty, keyed by e-mail, with unique agent ids |
| Database.UserStore.InitDb | database.py:51-57 | the administrator row "SITA-0000" is seeded only when absent; the insert fails and changes nothing when another row holds that agent id |
| Database.UserStore.UpsertGoogleUser | database.py:78-99 | an existing row gets name, picture and last login refreshed and an agent id only when it lacks one; a missing row is created "pending_onboarding" with a fresh agent id; role and status never change; an agent id clash fails and changes nothing |
| Database.UserStore.CreateOtpUser | database.py:101-124 | a missing row is created as "Agent", "pending_onboarding", with a fresh agent id; an existing one only records the login and gains an agent id when it lacks one; an agent id clash fails and changes nothing |
| Database.UserStore.UpdateUserProfile | database.py:126-139 | a known address gets its onboarding answers and status "verified"; an unknown one changes nothing and yields None |
| Database.UserStore.SaveOtp | database.py:143-151 | any earlier code for the address is replaced by one expiring ten minutes later |
| Database.UserStore.VerifyOtp | database.py:153-194 | true exactly when a readable record exists, the codes are equal and the expiry lies ahead; the record is deleted on success and kept on every failure |
| UserDashboard.Lookup | sita-web/src/pages/UserDashboard.jsx:26-45 | a field read from the stored record is one of the record's own entries |
| UserDashboard.Load | sita-web/src/pages/UserDashboard.jsx:26-45 | without a stored record the page starts idle, not analysing, at 0% with no link and no rows |
| UserDashboard.LookupAt | sita-web/src/pages/UserDashboard.jsx:26-45 | reading a key gives the value of its last entry in the record, as `JSON.parse` keeps it |
| UserDashboard.LookupAbsent | sita-web/src/pages/UserDashboard.jsx:26-45 | reading a key the record lacks gives nothing |
| UserDashboard.LoadEncode | sita-web/src/pages/UserDashboard.jsx:26-58 | reloading the page restores exactly the five fields last saved |
| UserDashboard.LoadEncodeUnlinked | sita-web/src/pages/UserDashboard.jsx:26-58 | the round trip holds for a state whose video link is undefined (dropped from the saved record) |
| UserDashboard.LoadEncodeLinked | sita-web/src/pages/UserDashboard.jsx:26-58 | the round trip holds for a state whose video link is null or a text |
| UserDashboard.LoadEncodeNull | sita-web/src/pages/UserDashboard.jsx:26-58 | the round trip holds for a state whose video link is null |
| UserDashboard.LoadEncodeText | sita-web/src/pages/UserDashboard.jsx:26-58 | the round trip holds for a state whose video link is a text |
| UserDashboard.Tick | sita-web/src/pages/UserDashboard.jsx:64-91 | a poll tick replaces the rows only with a report that carries "data", and raises the progress only while processing or on completion |
| UserDashboard.ProgressCap | sita-web/src/pages/UserDashboard.jsx:68-70 | the fake progress climbs by one exactly when the backend says "processing" and it is below 90, so it stays below 91 until completion |
| UserDashboard.NeverCompletes | sita-web/src/pages/UserDashboard.jsx:67-86 | no status the backend sends is "complete": a polling page never completes or loads the report, and stops only on "error" |
| UserDashboard.FailedRunPollsOn | sita-web/src/pages/UserDashboard.jsx:67-86 | against a failed run's job record the poll never stops |
| UserDashboard.TypeKey | sita-web/src/pages/UserDashboard.jsx:166 | a counter key is a non-empty lower-cased type |
| UserDashboard.CountOfIsRowCount | sita-web/src/pages/UserDashboard.jsx:165-169 | each counter is the number of rows of that lower-cased type |
| UserDashboard.CountsAddUp | sita-web/src/pages/UserDashboard.jsx:165-169 | counters under distinct keys add up to the rows of those types, never more than the number of rows |
| UserDashboard.TileSum | sita-web/src/pages/UserDashboard.jsx:323-331 | the Cars, Buses, Trucks and Motorcycles tiles together never exceed the Total Objects tile |
| UserDashboard.ProcessorKey | sita-web/src/pages/UserDashboard.jsx:166 | a row typed by the processor has the key "car", "bike" or "truck" |
| UserDashboard.BikesNotShown | sita-web/src/pages/UserDashboard.jsx:323-331 | on a report written by the processor the Buses and Motorcycles tiles always show 0 |
| UserDashboard.NoneCounted | sita-web/src/pages/UserDashboard.jsx:165-169 | no row satisfying the test means a count of zero |
| UserDashboard.VisibleExactly | sita-web/src/pages/UserDashboard.jsx:388-393 | a row is shown exactly when it is in the report and the filter is empty or every search term occurs in its search text |
| UserDashboard.BlankFilterKeepsAll | sita-web/src/pages/UserDashboard.jsx:388-393 | a filter of spaces only has no terms and shows every row |
| UserDashboard.SpacesHaveNoTerms | sita-web/src/pages/UserDashboard.jsx:390 | splitting a filter of spaces and dropping empty pieces leaves no term |
| UserDashboard.CsvLines | sita-web/src/pages/UserDashboard.jsx:153 | one export line per report row, in order |
| UserDashboard.ExportLines | sita-web/src/pages/UserDashboard.jsx:149-154 | when no key or value holds a line break, the export is the first row's keys and then one line per row, in order |
| UserDashboard.Page.constructor | sita-web/src/pages/UserDashboard.jsx:26-46 | mounting the page loads the five fields from the stored record, with an empty filter and no poll |
| UserDashboard.Page.Persist | sita-web/src/pages/UserDashboard.jsx:49-58 | the stored record becomes the encoding of the five fields, and loading it gives them back |
| UserDashboard.Page.StatusEffect | sita-web/src/pages/UserDashboard.jsx:61-94 | a poll runs exactly while the status is "uploading" or "processing" |
| UserDashboard.Page.PollTick | sita-web/src/pages/UserDashboard.jsx:64-91 | one interval tick moves the page to the state the tick function gives and clears the poll when it says so |
| UserDashboard.Page.HandleFileUpload | sita-web/src/pages/UserDashboard.jsx:96-147 | without a file nothing changes; otherwise the old analysis is cleared and the upload begins, or the page resets when the request cannot be set up |
| UserDashboard.Page.OnUploadProgress | sita-web/src/pages/UserDashboard.jsx:116-121 | a computable upload progress becomes the shown percentage; nothing else changes |
| UserDashboard.Page.OnUploadLoad | sita-web/src/pages/UserDashboard.jsx:123-136 | an accepted upload starts processing at 0%; a refused one throws outside the try, so the page state is unchanged |
| UserDashboard.Page.ExportCsv | sita-web/src/pages/UserDashboard.jsx:149-162 | an empty report exports nothing; otherwise the file is the header and the rows' lines |
| Dashboard.BackendCompletion | sita-web/src/pages/Dashboard.jsx:84 | the console treats a status body as finished exactly when the backend's job status is "completed" |
| Dashboard.TypeKey | sita-web/src/pages/Dashboard.jsx:58 | a row's counter key is never empty; a row without a vehicle type is counted under "unknown" |
| Dashboard.CountsSum | sita-web/src/pages/Dashboard.jsx:57-61 | over distinct keys the counters sum to at most the number of rows, and to exactly that number when the keys cover every row's bucket |
| Dashboard.TileSum | sita-web/src/pages/Dashboard.jsx:352-360 | the Cars, Buses, Trucks and Motorcycles tiles together never exceed the Total Objects tile |
| Dashboard.ProcessorBucket | sita-web/src/pages/Dashboard.jsx:58 | a row typed by the processor ("car", "bike", "truck") lands in one of those three counters |
| Dashboard.ProcessorKeysUnique | sita-web/src/pages/Dashboard.jsx:57-61 | the processor's three type keys are distinct counter keys |
| Dashboard.ProcessorRowsCounted | sita-web/src/pages/Dashboard.jsx:57-61 | on a report written by the processor the "car", "bike" and "truck" counters account for every row, so "unknown" stays empty |
| Dashboard.VisibleExactly | sita-web/src/pages/Dashboard.jsx:413-419 | a row is shown exactly when it is in the report and the filter is empty or occurs, case-insensitively, in its type, plate or colour |
| Dashboard.LowerThree | sita-web/src/pages/Dashboard.jsx:416-418 | lower-casing fields joined by spaces lower-cases each field in place |
| Dashboard.OneTerm | sita-web/src/pages/Dashboard.jsx:416-418 | a filter without spaces is a single lower-cased search term on the agent page |
| Dashboard.InSomeField | sita-web/src/pages/Dashboard.jsx:416-418 | a term found in the type, plate or colour is found in the three joined by spaces |
| Dashboard.SingleTermAgrees | sita-web/src/pages/Dashboard.jsx:413-419 | for a filter without spaces every row this console shows is also shown by the agent page's filter |
| Dashboard.Reference | sita-web/src/pages/Dashboard.jsx:163 | the reference cell is "#" followed by at least four decimal digits (1000 + the row index) |
| Dashboard.ExportCells | sita-web/src/pages/Dashboard.jsx:162-167 | an exported row has four cells, the first its reference |
| Dashboard.ExportLines | sita-web/src/pages/Dashboard.jsx:162-169 | one export line per report row, in order, the i-th numbered from the starting reference plus i |
| Dashboard.CellsAvoid | sita-web/src/pages/Dashboard.jsx:164-166 | a cell of upper-cased type, colour or plate (or its default) contains no comma or line break the field did not contain |
| Dashboard.HeaderCells | sita-web/src/pages/Dashboard.jsx:161-169 | the header line splits back into the four column titles and holds no line break |
| Dashboard.RowCells | sita-web/src/pages/Dashboard.jsx:162-169 | when type, colour and plate hold no comma, a row's export line splits back into exactly its four cells |
| Dashboard.ExportShape | sita-web/src/pages/Dashboard.jsx:159-169 | when no field holds a line break the CSV has the header line and then one line per report row, in order |
| Dashboard.Console.constructor | sita-web/src/pages/Dashboard.jsx:47-54 | the console starts idle, not analysing, at 0% with no rows, no link and an empty filter |
| Dashboard.Console.StatusEffect | sita-web/src/pages/Dashboard.jsx:78-99 | a status poll runs exactly while the status is "processing" or an analysis is running |
| Dashboard.Console.HandleFileUpload | sita-web/src/pages/Dashboard.jsx:115-157 | without a file nothing changes; otherwise "uploading" at 10%, and "idle" again when the request cannot be set up |
| Dashboard.Console.OnUploadProgress | sita-web/src/pages/Dashboard.jsx:131-135 | a computable upload progress becomes the shown percentage; anything else keeps it |
| Dashboard.Console.OnUploadLoad | sita-web/src/pages/Dashboard.jsx:137-148 | HTTP 200 moves to "processing" at 100% with the analysis running and the video link cleared; any other status returns to "idle" |
| Dashboard.Console.OnUploadError | sita-web/src/pages/Dashboard.jsx:149-152 | a network error returns to "idle" and changes nothing else |
| Dashboard.Console.PollTick | sita-web/src/pages/Dashboard.jsx:81-96 | a "completed" body finishes the analysis, takes the video link and starts the report fetch; a failed poll only stops the analysis; any other body changes nothing |
| Dashboard.Console.ReportArrived | sita-web/src/pages/Dashboard.jsx:101-113 | the rows are replaced only by a report that carries "data"; the fetching flag is cleared either way |
| Dashboard.Console.ExportCsv | sita-web/src/pages/Dashboard.jsx:159-169 | an empty report exports nothing; otherwise the file is the header line and the rows' lines |
| LegacyClient.Shown | frontend/js/script.js:93-96 | a counter field shows its value, and 0 when it is absent |
| LegacyClient.UpdateStats | frontend/js/script.js:91-97 | without a counters object the numbers stay as they were; otherwise all four are replaced |
| LegacyClient.StatsOfJob | frontend/js/script.js:47-52 | every tick shows the backend job's counters exactly, zeros before the first report |
| LegacyClient.DownloadHref | frontend/js/script.js:67-69 | a download link is the API base, "/download/" and the status field as the template renders it |
| LegacyClient.FailedRunPollsOn | frontend/js/script.js:47-63 | against a failed run's job record the script neither finishes nor gives up |
| LegacyClient.VerdictOfJob | frontend/js/script.js:54-61 | against the backend's job the poll finishes exactly on "completed" and gives up exactly on "error", and the links then name the job's own output files |
| LegacyClient.Display | frontend/js/script.js:108-126 | a missing type or colour shows "Unknown", a missing frame "-", and a line is dimmed exactly when its plate reads "Not Detected" |
| LegacyClient.PlateDimmed | frontend/js/script.js:112-117 | a plate is dimmed exactly when it is missing, null, empty, only white space or "Not Detected"; otherwise its text is shown unchanged |
| LegacyClient.Rendered | frontend/js/script.js:99-129 | no rows give exactly the "No vehicles detected" row; otherwise one line per row, in order |
| LegacyClient.ProcessorRowsShown | frontend/js/script.js:108-126 | on rows whose type and colour are set, every line shows them unchanged |
| LegacyClient.Page.constructor | frontend/js/script.js:1-11 | the page starts with no loader, stats, links or video, and the table as the HTML has it |
| LegacyClient.Page.OnFileChosen | frontend/js/script.js:13-45 | no file does nothing; otherwise the loader and placeholder row show, then polling starts on success, or "Upload Error" or "Connection Error" is alerted and the page reloads |
| LegacyClient.Page.PollTick | frontend/js/script.js:47-63 | a tick refreshes the stats, stops and finishes on "completed", stops with an alert and reload on "error", and keeps polling otherwise |
| LegacyClient.Page.FinishAnalysis | frontend/js/script.js:65-70 | the loader hides and both download links point at the files the status names |
| LegacyClient.Page.ReportArrived | frontend/js/script.js:72-82 | a report with "data" is rendered; the empty report's "rows" body leaves an emptied table; a failed request leaves the table; the video source is set in every case |
| LegacyClient.Page.RenderTable | frontend/js/script.js:99-129 | the table becomes the rendering of the rows |
| AccessGate.StepValid | sita-web/src/pages/AccessGate.jsx:169-183 | continue is enabled only on steps 2 to 4: a name of two characters and a phone of five on step 2, a reason over twenty characters on step 3, the pledge on step 4 |
| AccessGate.TargetOf | sita-web/src/pages/AccessGate.jsx:99-101 | the code goes to the email exactly for the email method, otherwise to the phone with its country code |
| AccessGate.SendProblem | sita-web/src/pages/AccessGate.jsx:88-95 | sending is refused exactly for an email without "@" under the email method or a phone under eight characters under the mobile method, each with its message |
| AccessGate.Wizard.constructor | sita-web/src/pages/AccessGate.jsx:37-53 | the wizard starts on step 1 with Google sign-in, the code input, the empty form with country code "+1" and no message |
| AccessGate.Wizard.SelectMethod | sita-web/src/pages/AccessGate.jsx:205-224 | a method choice clears the message and the code and returns to the code input |
| AccessGate.Wizard.SendOtp | sita-web/src/pages/AccessGate.jsx:84-113 | an invalid target only sets its message; otherwise the code is requested for the target, and on success the wizard waits for the code with the server's message or the default |
| AccessGate.Wizard.VerifyOtp | sita-web/src/pages/AccessGate.jsx:115-141 | a verified code and login fill the name (or "Agent") and email and move to step 2; otherwise only "Invalid code." is set |
| AccessGate.Wizard.GoogleSuccess | sita-web/src/pages/AccessGate.jsx:57-80 | the profile fills name and email, and a successful login moves to step 2; a failure sets "Authentication failed." |
| AccessGate.Wizard.HandleNext | sita-web/src/pages/AccessGate.jsx:185-188 | below step 4 the next step; at step 4 the final submit |
| AccessGate.Wizard.FinalSubmit | sita-web/src/pages/AccessGate.jsx:143-165 | the onboarding body carries the session's email (or the form's) and the form fields; a successful request moves to "/verification" |
| AccessGate.Wizard.SetForm | sita-web/src/pages/AccessGate.jsx:255 | an input's `onChange` (here the email field; the other inputs are the same shape) replaces the form and changes nothing else |
| AccessGate.Wizard.ChangeCredentials | sita-web/src/pages/AccessGate.jsx:321-326 | from code entry the button returns to entering the email or phone, and nothing else changes |
| AccessGate.Wizard.HandleBack | sita-web/src/pages/AccessGate.jsx:190-193 | above step 1 the previous step; at step 1 the home page |
| RouteGuard.Guard | sita-web/src/components/layout/ProtectedRoute.jsx:8-28 | while loading a spinner; without a user a redirect to "/"; every redirect goes to "/" or "/verification" |
| RouteGuard.ChildrenExactly | sita-web/src/components/layout/ProtectedRoute.jsx:8-28 | the page is shown exactly to a signed-in user, once loading is over, who is an administrator or verified |
| RouteGuard.UnverifiedAgents | sita-web/src/components/layout/ProtectedRoute.jsx:24-26 | any other signed-in user is sent to "/verification" |
| Verification.RoleHome | sita-web/src/pages/Verification.jsx:47-49 | a super administrator lands on "/super-admin", an administrator on "/admin", everyone else on "/agent" |
| Verification.Destination | sita-web/src/pages/Verification.jsx:35-68 | a verified or onboarding record is routed by role; any other record and a failed request go to "/agent" |
| Verification.AdminPagesNeedClearance | sita-web/src/pages/Verification.jsx:35-68 | only a cleared administrator record leads to an administration page |
| Verification.Page.constructor | sita-web/src/pages/Verification.jsx:16-17 | the page starts "checking" with the handshake message and no navigation |
| Verification.Page.PerformChecks | sita-web/src/pages/Verification.jsx:19-74 | without a user nothing happens; otherwise the status always ends "verified" and the page navigates to the destination of the record check, with the message of its branch |
| Toasts.Without | sita-web/src/context/ToastContext.jsx:15 | removal keeps exactly the toasts of other ids and never lengthens the list |
| Toasts.WithoutAbsent | sita-web/src/context/ToastContext.jsx:19-21 | removing an id no toast carries changes nothing |
| Toasts.WithoutAppend | sita-web/src/context/ToastContext.jsx:19-21 | removal distributes over concatenation, so the other toasts keep their order |
| Toasts.WithoutIdempotent | sita-web/src/context/ToastContext.jsx:19-21 | removing an id twice is removing it once |
| Toasts.UseToast | sita-web/src/context/ToastContext.jsx:58-61 | the context is returned inside a provider, and outside one the hook fails with its message |
| Toasts.Provider.constructor | sita-web/src/context/ToastContext.jsx:8 | the provider starts with no toasts |
| Toasts.Provider.ShowToast | sita-web/src/context/ToastContext.jsx:10-17 | one toast is appended, of type "info" unless given, and a timer removing it is set for 5000 ms unless given |
| Toasts.Provider.Expire | sita-web/src/context/ToastContext.jsx:14-16 | a timer firing removes the toasts of its id |
| Toasts.Provider.RemoveToast | sita-web/src/context/ToastContext.jsx:19-21 | the close button removes the toasts of that id |
| Toasts.ShowThenExpire | sita-web/src/context/ToastContext.jsx:10-17 | a toast shown with a fresh id, once its timer fires, leaves exactly the toasts there were before |
| AuthContext.Session.constructor | sita-web/src/context/AuthContext.jsx:8-9 | the provider starts with no user and loading |
| AuthContext.Session.Startup | sita-web/src/context/AuthContext.jsx:12-19 | a stored non-empty email starts a session check for it; otherwise loading ends with nothing requested |
| AuthContext.Session.CheckSession | sita-web/src/context/AuthContext.jsx:21-31 | a found record becomes the user; a failed check forgets the stored email and keeps the user; loading ends either way |
| AuthContext.Session.Login | sita-web/src/context/AuthContext.jsx:35-58 | the email is stored; a record with a role becomes the user without a request; otherwise the fetched record does, and a failed fetch is returned with the user kept |
| AuthContext.Session.Logout | sita-web/src/context/AuthContext.jsx:60-64 | the stored email and the user are cleared |
| AuthContext.Session.RefreshUser | sita-web/src/context/AuthContext.jsx:66-70 | a session check for the user's email when there is one; nothing otherwise |
| SuperAdmin.OrgUsersExactly | sita-web/src/pages/SuperAdminDashboard.jsx:52 | a user is listed for an organisation exactly when it is a user whose organisation id is that one |
| SuperAdmin.StaffAndAgents | sita-web/src/pages/SuperAdminDashboard.jsx:303-318 | no user is in both the staff and the agent column; together they hold at most every user, and exactly every user when each role is "admin" or "user" |
| SuperAdmin.Console.constructor | sita-web/src/pages/SuperAdminDashboard.jsx:18-25 | the console starts loading with no users, no organisations, the modal closed and a blank form |
| SuperAdmin.Console.Mount | sita-web/src/pages/SuperAdminDashboard.jsx:27-33 | a signed-in user who is not a super administrator is sent home with nothing loaded; otherwise the data is loaded |
| SuperAdmin.Console.LoadData | sita-web/src/pages/SuperAdminDashboard.jsx:35-50 | both lists are replaced together or neither, and loading ends either way |
| SuperAdmin.Console.HandleCreateOrg | sita-web/src/pages/SuperAdminDashboard.jsx:54-68 | an incomplete form sends nothing; a created organisation closes the modal, clears the form and asks for a reload; a failure changes nothing |
| Day3.VehicleType | day3_vehicle_detection.py:33-42 | motorcycles and bicycles are drawn as "two_wheeler" from confidence 0.25, cars, trucks and buses under their own name from 0.4, every other class never |
| Day3.DrawnIsConfident | day3_vehicle_detection.py:33-42 | a drawn detection had at least 0.25 confidence, at least 0.4 unless a two-wheeler, and is a two-wheeler exactly for a motorcycle or bicycle |
| Day3.MoreConfidentKept | day3_vehicle_detection.py:33-42 | raising the confidence never drops a drawn detection or changes its type |
| Day3.DrawnBoxes | day3_vehicle_detection.py:44-58 | a frame draws at most one box per detection |
| Day3.DrawnExactly | day3_vehicle_detection.py:33-58 | a box is drawn with a caption exactly when some detection of the frame has that box and maps to that type |
| Day4.Leader | day4_vehicle_color.py:51-60 | the hue loop's leader is a hue range index, or none |
| Day4.LeaderLeads | day4_vehicle_color.py:51-60 | the leader has pixels, more than every earlier range and at least as many as every later one; there is none exactly when no range has a pixel |
| Day4.ColorOf | day4_vehicle_color.py:21-62 | the colour is the empty-crop answer or one of White, Black, Red, Blue, Yellow, Other |
| Day4.ColorOfSpec | day4_vehicle_color.py:21-62 | an empty crop gives the empty-crop answer, then a white share over 35% White, then a black share over 35% Black, then the largest hue (ties to the earlier), and Other exactly when no hue range has a pixel |
| Day4.StrongestHue | day4_vehicle_color.py:51-62 | the running-maximum loop settles on the leading hue, or Other |
| Day4.DetectVehicleColor | day4_vehicle_color.py:21-62 | the function answers the colour decision with "Unknown" for an empty crop |
| Day4.FrameCaptions | day4_vehicle_color.py:75-104 | a frame draws one captioned box per processed detection |
| Day4.FrameCaptionsExactly | day4_vehicle_color.py:75-104 | a box is drawn exactly when some detection of confidence at least 0.4 and of a vehicle class has that box, captioned with its class and colour |
| Day4_6.IndexOf | day4_6_vehicle_color_count_csv.py:29-43 | a key's position in the dictionary's key order holds that key |
| Day4_6.Color | day4_6_vehicle_color_count_csv.py:55-90 | this prototype's colour is always a key of the colour counter, and "Other" for an empty crop |
| Day4_6.DetectColor | day4_6_vehicle_color_count_csv.py:55-90 | the function answers the colour decision with "Other" for an empty crop |
| Day4_6.Centre | day4_6_vehicle_color_count_csv.py:118-119 | the centroid is the floor of the box's midpoint on each axis |
| Day4_6.SumBump | day4_6_vehicle_color_count_csv.py:142-143 | raising one count raises the total by one |
| Day4_6.Sum2Bump | day4_6_vehicle_color_count_csv.py:144 | raising one cell of the type-by-colour table raises its total by one |
| Day4_6.Counted | day4_6_vehicle_color_count_csv.py:139-143 | a counter keeps its keys and its total rises by one exactly when a vehicle is newly counted |
| Day4_6.CountedCell | day4_6_vehicle_color_count_csv.py:139-144 | the type-by-colour table keeps its shape and its total rises by one exactly when a vehicle is newly counted |
| Day4_6.Zeros | day4_6_vehicle_color_count_csv.py:29-43 | a fresh counter has one zero per key and totals zero |
| Day4_6.ZeroTable | day4_6_vehicle_color_count_csv.py:45-50 | the fresh type-by-colour table has a row of zero colour counts per type and totals zero |
| Day4_6.RowTotalIsSum | day4_6_vehicle_color_count_csv.py:179-189 | rows listing each key with its count add up to the counter's total |
| Day4_6.CountRows | day4_6_vehicle_color_count_csv.py:182-183 | one row per key, in key order, with its count, adding up to the counter's total |
| Day4_6.Counter.constructor | day4_6_vehicle_color_count_csv.py:20-50 | nothing tracked or counted, and every counter at zero |
| Day4_6.Counter.FindMatch | day4_6_vehicle_color_count_csv.py:124-129 | the match is the first tracked id within 50 pixels on both axes, or none when no id is |
| Day4_6.Counter.Track | day4_6_vehicle_color_count_csv.py:124-136 | the first near id moves to the centroid, or the centroid gets the next id; the counters are untouched |
| Day4_6.Counter.CountOnce | day4_6_vehicle_color_count_csv.py:139-144 | an id not counted before whose centroid is below the line is counted once, and its type, its colour and the pair each gain one; every total stays the number of counted ids |
| Day4_6.Counter.ObserveUsed | day4_6_vehicle_color_count_csv.py:117-144 | a used detection is tracked at its centroid and counted under its type and colour when newly below the line |
| Day4_6.Counter.Observe | day4_6_vehicle_color_count_csv.py:106-144 | a detection below 0.4 confidence or of another class changes nothing; ids and counted ids only grow |
| Day4_6.Counter.ProcessFrame | day4_6_vehicle_color_count_csv.py:105-158 | the frame's detections are observed in order, keeping every counter's total equal to the number of counted ids |
| Day4_6.Counter.SaveCounts | day4_6_vehicle_color_count_csv.py:179-189 | each saved table has its header and one row per key in order, and adds up to the number of vehicles counted |
| Day5.PlateLabels | day5_number_plate_detection.py:63-81 | at most one plate box per plate detection, each captioned "Plate" |
| Day5.PlateLabelsExactly | day5_number_plate_detection.py:63-81 | a plate box is drawn exactly when some plate detection has that box and confidence at least 0.4, and one box per such detection |
| Day5.FrameDrawing | day5_number_plate_detection.py:26-81 | a frame shows the vehicle boxes of the type mapping first and then the plate boxes |
| Day5.CaptionsOfFrame | day5_number_plate_detection.py:33-81 | every caption is one of the four vehicle types or "Plate", and a "Plate" caption comes from the plate detector |
| Day6.VoteKey | day6_video_plate_detection.py:57 | a vote key has no space, no lower-case letter and is no longer than the reading |
| Day6.PlateRegion | day6_video_plate_detection.py:47-51 | the plate region starts at the crop's 60% line and spans the middle 60% of its width, and for a non-empty crop it is empty exactly when the crop is one pixel wide |
| Day6.RemoveShortens | day6_video_plate_detection.py:57 | removing a character that occurs shortens the text |
| Day6.ShortKeyVotes | day6_video_plate_detection.py:56-58 | the length is checked before the spaces are removed, so a reading with a space votes for a shorter key, and a six-character reading such as "ABCD E" votes for a key under six characters |
| Day6.TallyCounts | day6_video_plate_detection.py:55-58 | each key's vote count rises by the number of its votes, and no key without votes appears |
| Day6.TallyAppend | day6_video_plate_detection.py:28-58 | counting two lists of votes is counting one after the other |
| Day6.ReadingKeysSnoc | day6_video_plate_detection.py:55-58 | one more reading adds its vote exactly when it has a score above 0.4 and at least six characters |
| Day6.PlateVoter.constructor | day6_video_plate_detection.py:14-16 | no votes and no frames yet |
| Day6.PlateVoter.CastVotes | day6_video_plate_detection.py:55-58 | the votes become the old votes counted with the keys of the voting readings, in order |
| Day6.PlateVoter.Observe | day6_video_plate_detection.py:30-58 | a detection below 0.5 confidence, of another class, with an empty crop or an empty plate region casts no vote; otherwise its readings vote |
| Day6.PlateVoter.Frame | day6_video_plate_detection.py:18-58 | the frame counter rises by one and the frame's detections vote in order |
| ReproduceOcr.RegionEmptyExactly | reproduce_ocr.py:17-21 | for a non-empty crop the 40%-85% by 5%-95% plate region is empty exactly when the crop is one pixel high or one pixel wide |
| ReproduceOcr.FirstHit | reproduce_ocr.py:35-37 | the first accepted reading has at least four characters, a score of at least 0.15, and no space, dot, hyphen or lower-case letter |
| ReproduceOcr.FirstHitSpec | reproduce_ocr.py:31-39 | the original reader finds nothing exactly when no result qualifies, and otherwise answers the cleaned text and score of the first result that does |
| ReproduceOcr.OriginalRunOcr | reproduce_ocr.py:31-39 | the early-return loop answers the first qualifying result, and (nothing, 0) when none qualifies or the reader throws |
| ReproduceOcr.OriginalDetectPlate | reproduce_ocr.py:9-49 | the original chain answers the plate decision of its specification function |
| ReproduceOcr.BestHit | reproduce_ocr.py:90-102 | the improved reader's answer is (nothing, 0), or a cleaned text of at least four characters with no separator or lower-case letter and a score of at least 0.15 |
| ReproduceOcr.KeepsBestHit | reproduce_ocr.py:97-100 | a result that does not beat the best keeps the best |
| ReproduceOcr.OvertakesBestHit | reproduce_ocr.py:97-100 | a qualifying result with a strictly higher score becomes the best |
| ReproduceOcr.FirstBestHit | reproduce_ocr.py:97-100 | the first qualifying result becomes the best |
| ReproduceOcr.BestHitSpec | reproduce_ocr.py:90-102 | the improved reader finds nothing exactly when no result qualifies, and otherwise answers the earliest qualifying result of the highest score |
| ReproduceOcr.BestAtLeastFirst | reproduce_ocr.py:31-102 | on the same results the improved reader finds a plate whenever the original does, with a score at least as high |
| ReproduceOcr.ImprovedRunOcr | reproduce_ocr.py:90-102 | the running-maximum loop answers the best qualifying result, and (nothing, 0) when the reader throws |
| ReproduceOcr.ImprovedDetectPlate | reproduce_ocr.py:51-108 | the improved chain answers the plate decision of its specification function |
| ReproduceOcr.HitIffReadable | reproduce_ocr.py:31-102 | both readers find a plate on an image exactly when the reader succeeds and some result qualifies |
| ReproduceOcr.OriginalAnswerSpec | reproduce_ocr.py:9-49 | an empty crop gives the bare "Not Detected", an empty region "Not Detected" without a score, otherwise "Not Detected" with 0 exactly when neither image is readable; every plate answered is well formed |
| ReproduceOcr.ImprovedAnswerSpec | reproduce_ocr.py:51-108 | the same three cases over the three candidate images, tried in order; every plate answered is well formed |

## Left out

- The server behind the React application's `/api` paths on port 7860 is not part of this model. Its job endpoints are taken to answer as app.py's do, and its sign-in, user and organisation endpoints are request outcomes given as inputs.
- Vision and learning libraries (OpenCV, YOLO, the tracker, EasyOCR): the model takes what they return as input. That means detections, track ids, class ids, per-mask pixel counts and OCR `(text, score)` lists. Image preprocessing (padding, resizing, CLAHE, bilateral filtering, thresholding) is not modelled. Each preprocessed image is represented by what the reader returns on it.
- Drawing, video reading and writing, the video writer's codec fallback, window display and console printing (including the final vote printout of day6_video_plate_detection.py) produce no state the logic reads.
- Floating point: confidences and scores are `real`. Share tests such as `count / total > 0.35` are exact comparisons of integers. `int(h * 0.6)`-style bounds are exact integer arithmetic, so rounding of binary fractions is not modelled.
- Python's integer `0` and float `0.0` are not told apart: a score of `0` is `0.0`.
- Number formatting: the confidence printed after a day3 caption (two decimals), the CSV number formats and the rounding of the upload percentage are not modelled.
- Case mapping covers ASCII letters only. JavaScript's `trim` is modelled for ASCII white space only.
- Concurrency in app.py: the lock and the background thread are not modelled. The thread's work runs as a sequence of calls right after the upload that started it. Flask routing and `send_file` are left out. So are the existence checks on the saved files, apart from whether the CSV exists.
- database.py: SQL, connection handling, the `created_at` column and the schema migration are not modelled. The clock is an integer number of seconds. A stored expiry that cannot be parsed back is a `readable` flag. The random uuid behind an agent id is passed in as its hexadecimal text.
- Network, timers and storage in the clients: every fetch, XMLHttpRequest, interval, timeout and storage access is a method call or a parameter. Toasts, sounds, animations and the timed pauses of the clearance page are left out. The toast id drawn from `Math.random` is a parameter.
- The DOM of the legacy script is reduced to what the script writes: the loader, the counter texts, the links, the video source and the table body.
- UserDashboard.Load: a stored record that lacks a field gives that field's default. The page would instead read `undefined`.
- AccessGate.Wizard.GoogleSuccess: the Google profile's name and email are taken to be strings. A profile lacking them is not modelled.
- AccessGate.Wizard.VerifyOtp: the verify answer is reduced to the record's name and email.
- AccessGate.Wizard.FinalSubmit: `refreshUser` is not modelled as a separate request. It catches its own failures and cannot stop the navigation.
- Day4_6.Counter.ProcessFrame: states the preserved counter invariant and that ids and counted ids only grow, not the exact final tables. The exact effect of each detection is the contract of `Day4_6.Counter.ObserveUsed`.
- Day4_6.Counter.Observe: for a used detection states only the invariant and growth. The exact effect is in `Day4_6.Counter.ObserveUsed`, which it calls.
- Processor.VideoProcessor.ProcessFrame: an exception is modelled only when it comes from the tracker call itself. One raised later inside the per-detection loop, for example while drawing, would leave `frame_ids` partly rebuilt; that path is not modelled.
- Processor.VideoProcessor.ProcessVideo: states the final counters' invariant, one row per counted track and that every locked track was written. It does not give the rows' contents as a function of the frames.
- The count dictionaries of day4_6_vehicle_color_count_csv.py have fixed keys and are lists of counts in key order. A key outside them cannot occur, because of the detection filter and the colour decision.
- Other repository files are not part of this model. These include the Firestore helpers, the presentation-only React components, the test, verify and fix scripts, day2_video_input.py and day4_7_plot_graphs.py.
