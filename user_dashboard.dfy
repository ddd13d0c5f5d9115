/** The agent's analysis page (UserDashboard.jsx): the five pieces of
    analysis state persisted in browser storage, the upload and its
    XMLHttpRequest callbacks, the status poll, and the derivations shown
    from the report rows (per-type counters, the search filter and the
    CSV export).

    React state setters, timers and requests are explicit method calls;
    each callback takes the response it would have received. */
module UserDashboard {
  import opened Common
  import opened Rows
  import App
  import Processor

  const Idle := "idle"
  const Uploading := "uploading"
  const Processing := "processing"
  const Complete := "complete"

  /** The persisted analysis state. */
  datatype Analysis = Analysis(isAnalyzing: bool, videoLink: Field, processingStatus: string,
                               uploadProgress: real, reportData: seq<Row>)

  /** The state of a first visit. */
  const Initial := Analysis(false, Null, Idle, 0.0, [])

  // ---------------------------------------------------------------------
  // Persistence

  /** A JSON value of the stored record. */
  datatype Json = JBool(b: bool) | JNull | JText(s: string) | JNumber(r: real) | JRows(rows: seq<Row>)

  /** A parsed JSON object, in key order. */
  type Record = seq<(string, Json)>

  /** `JSON.stringify(stateToSave)`: an undefined video link is dropped. */
  function Encode(a: Analysis): Record {
    var link := match a.videoLink
      case Missing => []
      case Null => [("videoLink", JNull)]
      case Text(s) => [("videoLink", JText(s))];
    [("isAnalyzing", JBool(a.isAnalyzing))] + link
    + [("processingStatus", JText(a.processingStatus)), ("uploadProgress", JNumber(a.uploadProgress)),
       ("reportData", JRows(a.reportData))]
  }

  /** A key's value in a parsed record: as with `JSON.parse`, the last
      entry for a repeated key wins. */
  function Lookup(rec: Record, key: string): (v: Option<Json>)
    ensures v.Some? ==> (key, v.value) in rec
  {
    if rec == [] then None
    else if rec[|rec| - 1].0 == key then Some(rec[|rec| - 1].1)
    else Lookup(rec[..|rec| - 1], key)
  }

  /** The five `useState` initialisers: each field is read back from the
      stored record when there is one, and takes its default otherwise. */
  function Load(saved: Option<Record>): (a: Analysis)
    ensures saved.None? ==> a == Initial
  {
    match saved
    case None => Initial
    case Some(rec) =>
      Analysis(
        match Lookup(rec, "isAnalyzing") case Some(JBool(b)) => b case _ => false,
        match Lookup(rec, "videoLink") case Some(JText(s)) => Text(s) case Some(JNull) => Null case _ => Missing,
        match Lookup(rec, "processingStatus") case Some(JText(s)) => s case _ => Idle,
        match Lookup(rec, "uploadProgress") case Some(JNumber(r)) => r case _ => 0.0,
        match Lookup(rec, "reportData") case Some(JRows(rows)) => rows case _ => [])
  }

  lemma {:induction false} LookupAt(rec: Record, key: string, i: nat)
    requires i < |rec| && rec[i].0 == key && forall j :: i < j < |rec| ==> rec[j].0 != key
    ensures Lookup(rec, key) == Some(rec[i].1)
  {
    if i < |rec| - 1 {
      LookupAt(rec[..|rec| - 1], key, i);
    }
  }

  lemma {:induction false} LookupAbsent(rec: Record, key: string)
    requires forall j :: 0 <= j < |rec| ==> rec[j].0 != key
    ensures Lookup(rec, key) == None
  {
    if rec != [] {
      LookupAbsent(rec[..|rec| - 1], key);
    }
  }

  /** Reloading the page restores exactly what was last saved. */
  lemma LoadEncode(a: Analysis)
    ensures Load(Some(Encode(a))) == a
  {
    if a.videoLink.Missing? {
      LoadEncodeUnlinked(a);
    } else {
      LoadEncodeLinked(a);
    }
  }

  lemma LoadEncodeUnlinked(a: Analysis)
    requires a.videoLink.Missing?
    ensures Load(Some(Encode(a))) == a
  {
    var rec := Encode(a);
    LookupAt(rec, "isAnalyzing", 0);
    LookupAt(rec, "processingStatus", 1);
    LookupAt(rec, "uploadProgress", 2);
    LookupAt(rec, "reportData", 3);
    LookupAbsent(rec, "videoLink");
  }

  lemma LoadEncodeLinked(a: Analysis)
    requires !a.videoLink.Missing?
    ensures Load(Some(Encode(a))) == a
  {
    if a.videoLink.Null? {
      LoadEncodeNull(a);
    } else {
      LoadEncodeText(a);
    }
  }

  lemma LoadEncodeNull(a: Analysis)
    requires a.videoLink.Null?
    ensures Load(Some(Encode(a))) == a
  {
    var rec := Encode(a);
    LookupAt(rec, "isAnalyzing", 0);
    LookupAt(rec, "videoLink", 1);
    LookupAt(rec, "processingStatus", 2);
    LookupAt(rec, "uploadProgress", 3);
    LookupAt(rec, "reportData", 4);
  }

  lemma LoadEncodeText(a: Analysis)
    requires a.videoLink.Text?
    ensures Load(Some(Encode(a))) == a
  {
    var rec := Encode(a);
    LookupAt(rec, "isAnalyzing", 0);
    LookupAt(rec, "videoLink", 1);
    LookupAt(rec, "processingStatus", 2);
    LookupAt(rec, "uploadProgress", 3);
    LookupAt(rec, "reportData", 4);
  }

  // ---------------------------------------------------------------------
  // Polling

  /** Whether the poll interval is set up for this status. */
  predicate Polls(status: string) {
    status == Uploading || status == Processing
  }

  /** One tick of the status poll: the new state, and whether the interval
      is cleared.  A thrown status request changes nothing; a thrown report
      request after completion leaves `isAnalyzing` set. */
  function Tick(a: Analysis, reply: Outcome<App.StatusBody>, report: Outcome<App.Report>): (r: (Analysis, bool))
    ensures r.0.reportData != a.reportData ==> report.Ok? && report.value.Table?
    ensures r.0.uploadProgress > a.uploadProgress ==> r.0.processingStatus == Processing || r.0.processingStatus == Complete
  {
    if reply.Failed? || !Truthy(reply.value.status) then (a, false)
    else
      var s := reply.value.status.s;
      if s == Processing then
        (a.(processingStatus := Processing,
            uploadProgress := if a.uploadProgress < 90.0 then a.uploadProgress + 1.0 else a.uploadProgress), false)
      else if s == Complete then
        var done := a.(processingStatus := Complete, uploadProgress := 100.0, videoLink := reply.value.videoLink);
        if report.Failed? then (done, true)
        else if report.value.Table? then (done.(reportData := report.value.data, isAnalyzing := false), true)
        else (done.(isAnalyzing := false), true)
      else if s == "error" then (a.(processingStatus := Idle, isAnalyzing := false), true)
      else (a, false)
  }

  /** The fake processing progress climbs by one per tick only while it is
      below 90, so (starting from the 0 an accepted upload sets) it stays
      below 91 until the job completes. */
  lemma ProgressCap(a: Analysis, reply: Outcome<App.StatusBody>, report: Outcome<App.Report>)
    requires a.uploadProgress < 91.0
    ensures var b := Tick(a, reply, report).0;
      b.processingStatus != Complete ==> b.uploadProgress < 91.0
    ensures var b := Tick(a, reply, report).0;
      b.uploadProgress == a.uploadProgress + 1.0 <==> reply.Ok? && reply.value.status == Text(Processing) && a.uploadProgress < 90.0
  {
  }

  /** The page waits for "complete" but the backend reports "completed":
      no reply the backend can send completes the analysis, so a polling
      page never reaches the "complete" state or loads the report. */
  lemma NeverCompletes(a: Analysis, job: App.Job, report: Outcome<App.Report>)
    requires Polls(a.processingStatus)
    ensures var (b, stop) := Tick(a, Ok(App.BodyOf(job)), report);
      b.processingStatus != Complete && b.reportData == a.reportData && (stop <==> job.status == App.Error)
  {
    App.NoStatusIsComplete(job.status);
    assert App.StatusName(job.status) == "error" <==> job.status == App.Error;
  }

  /** A failed run leaves the job "processing": every tick against it
      keeps the interval, so the page polls until it is left. */
  lemma FailedRunPollsOn(a: Analysis, j: App.Job, reports: seq<Processor.Counters>, message: string,
                         csvPath: string, videoPath: string, report: Outcome<App.Report>)
    requires Polls(a.processingStatus) && App.WellPhased(j) && j.status == App.Starting
    ensures !Tick(a, Ok(App.BodyOf(App.AfterRun(j, reports, Failed(message), csvPath, videoPath))), report).1
  {
    App.NoRunEndsInError(j, reports, Failed(message), csvPath, videoPath);
    NeverCompletes(a, App.AfterRun(j, reports, Failed(message), csvPath, videoPath), report);
  }

  // ---------------------------------------------------------------------
  // Report derivations

  /** `row.vehicle_type?.toLowerCase()` when truthy. */
  function TypeKey(r: Row): (k: Option<string>)
    ensures k.Some? ==> k.value != ""
  {
    var f := LowerField(Get(r, "vehicle_type"));
    if Truthy(f) then Some(f.s) else None
  }

  /** The `vehicleCounts` reduce: one counter per lower-cased type; rows
      without a type are skipped. */
  function Counts(rows: seq<Row>): map<string, nat> {
    if rows == [] then map[]
    else
      var acc := Counts(rows[..|rows| - 1]);
      var k := TypeKey(rows[|rows| - 1]);
      if k.Some? then Bump(acc, k.value) else acc
  }

  function CountOf(rows: seq<Row>, key: string): nat {
    var m := Counts(rows);
    if key in m then m[key] else 0
  }

  /** Rows of type `key`. */
  function OfType(key: string): Row -> bool {
    r => TypeKey(r) == Some(key)
  }

  /** Each counter is the number of rows of that type. */
  lemma {:induction false} CountOfIsRowCount(rows: seq<Row>, key: string)
    ensures CountOf(rows, key) == CountWhere(rows, OfType(key))
  {
    if rows != [] {
      var init := rows[..|rows| - 1];
      CountOfIsRowCount(init, key);
      assert init + [rows[|rows| - 1]] == rows;
      CountWhereAppend(init, rows[|rows| - 1], OfType(key));
    }
  }

  /** Rows whose type is one of `keys`. */
  function TypedIn(keys: seq<string>): Row -> bool {
    r => TypeKey(r).Some? && TypeKey(r).value in keys
  }

  function RowsTyped(rows: seq<Row>, keys: seq<string>): nat {
    CountWhere(rows, TypedIn(keys))
  }

  /** Counters under distinct keys add up to the rows of those types, so the
      type tiles together never exceed the "Total Objects" tile. */
  lemma {:induction false} CountsAddUp(rows: seq<Row>, keys: seq<string>)
    requires Unique(keys)
    ensures SumAt(Counts(rows), keys) == RowsTyped(rows, keys) <= |rows|
  {
    if rows != [] {
      var init, last := rows[..|rows| - 1], rows[|rows| - 1];
      CountsAddUp(init, keys);
      assert init + [last] == rows;
      CountWhereAppend(init, last, TypedIn(keys));
      assert RowsTyped(rows, keys) == RowsTyped(init, keys) + (if TypedIn(keys)(last) then 1 else 0);
      var k := TypeKey(last);
      if k.Some? {
        assert Counts(rows) == Bump(Counts(init), k.value);
        BumpSum(Counts(init), k.value, keys);
      } else {
        assert Counts(rows) == Counts(init);
      }
    } else {
      SumAtEmpty(keys);
    }
  }

  /** The number shown on a counter tile. */
  function Tile(rows: seq<Row>, key: string): nat {
    if key == "total" then |rows|
    else if key == "plate" then CountWhere(rows, r => Truthy(Get(r, "number_plate")))
    else CountOf(rows, key)
  }

  const TypeTiles: seq<string> := ["car", "bus", "truck", "motorcycle"]

  lemma TileSum(rows: seq<Row>)
    ensures Tile(rows, "car") + Tile(rows, "bus") + Tile(rows, "truck") + Tile(rows, "motorcycle") <= Tile(rows, "total")
  {
    assert Unique(TypeTiles) by {
      assert TypeTiles[1..] == ["bus", "truck", "motorcycle"];
      assert TypeTiles[1..][1..] == ["truck", "motorcycle"];
      assert TypeTiles[1..][1..][1..] == ["motorcycle"];
    }
    CountsAddUp(rows, TypeTiles);
    var m := Counts(rows);
    assert SumAt(m, TypeTiles) == CountOf(rows, "car") + SumAt(m, ["bus", "truck", "motorcycle"]);
    assert SumAt(m, ["bus", "truck", "motorcycle"]) == CountOf(rows, "bus") + SumAt(m, ["truck", "motorcycle"]);
    assert SumAt(m, ["truck", "motorcycle"]) == CountOf(rows, "truck") + SumAt(m, ["motorcycle"]);
  }

  /** A processor row's type key is "car", "bike" or "truck". */
  lemma ProcessorKey(r: Row, v: Processor.VehicleType)
    requires Get(r, "vehicle_type") == Text(Processor.TypeName(v))
    ensures TypeKey(r) in {Some("car"), Some("bike"), Some("truck")}
  {
    match v
    case Car => assert Lower("Car") == "car";
    case Bike => assert Lower("Bike") == "bike";
    case Truck => assert Lower("Truck") == "truck";
  }

  /** The processor labels vehicles "Car", "Bike" and "Truck": on its
      reports the "Buses" and "Motorcycles" tiles always show 0, and bikes
      are counted in no tile. */
  lemma BikesNotShown(rows: seq<Row>)
    requires forall i :: 0 <= i < |rows| ==> exists v :: Get(rows[i], "vehicle_type") == Text(Processor.TypeName(v))
    ensures Tile(rows, "bus") == 0 && Tile(rows, "motorcycle") == 0
  {
    forall i | 0 <= i < |rows|
      ensures !OfType("bus")(rows[i]) && !OfType("motorcycle")(rows[i])
    {
      var v :| Get(rows[i], "vehicle_type") == Text(Processor.TypeName(v));
      ProcessorKey(rows[i], v);
    }
    CountOfIsRowCount(rows, "bus");
    CountOfIsRowCount(rows, "motorcycle");
    NoneCounted(rows, OfType("bus"));
    NoneCounted(rows, OfType("motorcycle"));
  }

  lemma {:induction false} NoneCounted(rows: seq<Row>, p: Row -> bool)
    requires forall i :: 0 <= i < |rows| ==> !p(rows[i])
    ensures CountWhere(rows, p) == 0
  {
    if rows != [] {
      NoneCounted(rows[1..], p);
    }
  }

  /** The search terms: the lower-cased filter split on spaces, empty
      pieces dropped. */
  function Terms(filter: string): seq<string> {
    NonEmpty(Split(Lower(filter), ' '))
  }

  /** The text a row is searched in. */
  function SearchText(r: Row): string {
    Lower(Template(Get(r, "vehicle_type")) + " " + Template(Get(r, "number_plate")) + " " + Template(Get(r, "color")))
  }

  /** The table filter: an empty filter keeps every row, otherwise every
      term must occur in the row's search text. */
  predicate Matches(r: Row, filter: string) {
    filter == "" || forall t :: t in Terms(filter) ==> Contains(SearchText(r), t)
  }

  function Visible(rows: seq<Row>, filter: string): seq<Row> {
    FilterSeq(rows, r => Matches(r, filter))
  }

  /** The table shows exactly the report's rows in whose search text every
      term of the filter occurs, or every row for an empty filter. */
  lemma VisibleExactly(rows: seq<Row>, filter: string, r: Row)
    ensures r in Visible(rows, filter) <==>
      && r in rows
      && (filter == "" || forall t :: t in Terms(filter) ==> Contains(SearchText(r), t))
  {
    if r in rows && Matches(r, filter) {
      FilterKeepsEvery(rows, r => Matches(r, filter), r);
    }
  }

  /** A filter of spaces only has no terms and keeps every row. */
  lemma {:induction false} BlankFilterKeepsAll(rows: seq<Row>, filter: string)
    requires forall i :: 0 <= i < |filter| ==> filter[i] == ' '
    ensures Visible(rows, filter) == rows
  {
    SpacesHaveNoTerms(filter);
    FilterAll(rows, r => Matches(r, filter));
  }

  lemma {:induction false} SpacesHaveNoTerms(filter: string)
    requires forall i :: 0 <= i < |filter| ==> filter[i] == ' '
    ensures Terms(filter) == []
    decreases |filter|
  {
    if filter != [] {
      SpacesHaveNoTerms(filter[1..]);
      assert Lower(filter)[1..] == Lower(filter[1..]);
      var rest := Split(Lower(filter[1..]), ' ');
      assert Split(Lower(filter), ' ') == [""] + rest;
      assert NonEmpty([""] + rest) == NonEmpty(rest) by {
        assert ([""] + rest)[1..] == rest;
      }
    }
  }

  /** One line of the export: the row's values joined by commas. */
  function CsvLine(r: Row): string {
    Join(JoinedValues(r), ",")
  }

  function CsvLines(rows: seq<Row>): (lines: seq<string>)
    ensures |lines| == |rows| && forall i :: 0 <= i < |rows| ==> lines[i] == CsvLine(rows[i])
  {
    if rows == [] then [] else [CsvLine(rows[0])] + CsvLines(rows[1..])
  }

  /** `handleExportCSV`'s file: the first row's keys as header, then one
      line per row. */
  function ExportText(rows: seq<Row>): string
    requires rows != []
  {
    Join([Join(Keys(rows[0]), ",")] + CsvLines(rows), "\n")
  }

  predicate NoNewline(rows: seq<Row>) {
    forall i, j :: 0 <= i < |rows| && 0 <= j < |rows[i]| ==>
      '\n' !in rows[i][j].key && (rows[i][j].value.Some? ==> '\n' !in rows[i][j].value.value)
  }

  /** When no key or value holds a line break, the export has exactly one
      header line and one line per report row, in order. */
  lemma ExportLines(rows: seq<Row>)
    requires rows != [] && NoNewline(rows)
    ensures var lines := Split(ExportText(rows), '\n');
      && |lines| == |rows| + 1
      && lines[0] == Join(Keys(rows[0]), ",")
      && forall i :: 0 <= i < |rows| ==> lines[i + 1] == CsvLine(rows[i])
  {
    var parts := [Join(Keys(rows[0]), ",")] + CsvLines(rows);
    JoinAvoids(Keys(rows[0]), ",", '\n');
    forall i | 0 <= i < |rows|
      ensures '\n' !in CsvLine(rows[i])
    {
      JoinAvoids(JoinedValues(rows[i]), ",", '\n');
    }
    SplitJoin(parts, '\n');
  }

  // ---------------------------------------------------------------------
  // The page

  class Page {
    var isAnalyzing: bool
    var videoLink: Field
    var processingStatus: string
    var uploadProgress: real
    var reportData: seq<Row>
    var filterText: string
    /** Whether a poll interval is running. */
    var polling: bool
    /** The 'sita_analysis_state' storage entry. */
    var storage: Option<Record>

    function Snapshot(): Analysis
      reads this
    {
      Analysis(isAnalyzing, videoLink, processingStatus, uploadProgress, reportData)
    }

    /** Mounting the page: the initialisers read the stored record. */
    constructor (saved: Option<Record>)
      ensures Snapshot() == Load(saved) && storage == saved
      ensures filterText == "" && !polling
    {
      var a := Load(saved);
      isAnalyzing, videoLink, processingStatus := a.isAnalyzing, a.videoLink, a.processingStatus;
      uploadProgress, reportData := a.uploadProgress, a.reportData;
      filterText, polling, storage := "", false, saved;
    }

    /** The persistence effect, run after every change of the five fields. */
    method Persist()
      modifies this
      ensures storage == Some(Encode(Snapshot()))
      ensures Load(storage) == Snapshot() == old(Snapshot())
      ensures filterText == old(filterText) && polling == old(polling)
    {
      storage := Some(Encode(Snapshot()));
      LoadEncode(Snapshot());
    }

    /** The polling effect, run whenever the status changes: the previous
        interval is cleared and a new one started while uploading or
        processing. */
    method StatusEffect()
      modifies this
      ensures polling == Polls(processingStatus)
      ensures Snapshot() == old(Snapshot()) && storage == old(storage) && filterText == old(filterText)
    {
      polling := processingStatus == Uploading || processingStatus == Processing;
    }

    /** One interval tick: the status request's outcome and, when it
        reports completion, the report request's outcome. */
    method PollTick(reply: Outcome<App.StatusBody>, report: Outcome<App.Report>)
      requires polling
      modifies this
      ensures Snapshot() == Tick(old(Snapshot()), reply, report).0
      ensures polling == !Tick(old(Snapshot()), reply, report).1
      ensures storage == old(storage) && filterText == old(filterText)
    {
      if reply.Ok? && Truthy(reply.value.status) {
        var s := reply.value.status.s;
        if s == Processing {
          processingStatus := Processing;
          if uploadProgress < 90.0 {
            uploadProgress := uploadProgress + 1.0;
          }
        } else if s == Complete {
          processingStatus, uploadProgress, videoLink := Complete, 100.0, reply.value.videoLink;
          polling := false;
          if report.Ok? {
            if report.value.Table? {
              reportData := report.value.data;
            }
            isAnalyzing := false;
          }
        } else if s == "error" {
          processingStatus, isAnalyzing := Idle, false;
          polling := false;
        }
      }
    }

    /** `handleFileUpload`: without a file nothing changes; otherwise the
        old analysis is cleared and the upload begins.  `sendThrows` is a
        synchronous failure of the request set-up, the only one the
        surrounding try catches. */
    method HandleFileUpload(hasFile: bool, sendThrows: bool)
      modifies this
      ensures !hasFile ==> Snapshot() == old(Snapshot())
      ensures hasFile && !sendThrows ==> Snapshot() == Analysis(true, Null, Uploading, 0.0, [])
      ensures hasFile && sendThrows ==> Snapshot() == Analysis(false, Null, Idle, 0.0, [])
      ensures storage == old(storage) && filterText == old(filterText) && polling == old(polling)
    {
      if !hasFile {
        return;
      }
      processingStatus, uploadProgress, isAnalyzing := Uploading, 0.0, true;
      reportData, videoLink := [], Null;
      if sendThrows {
        processingStatus, isAnalyzing := Idle, false;
      }
    }

    /** `xhr.upload.onprogress`; `percent` is loaded / total * 100. */
    method OnUploadProgress(lengthComputable: bool, percent: real)
      modifies this
      ensures Snapshot() == if lengthComputable then old(Snapshot()).(uploadProgress := percent) else old(Snapshot())
      ensures storage == old(storage) && filterText == old(filterText) && polling == old(polling)
    {
      if lengthComputable {
        uploadProgress := percent;
      }
    }

    /** `xhr.onload`: an accepted upload starts the processing phase.  A
        refused one throws inside the callback, outside the try that would
        have reset the page, so the page stays "uploading". */
    method OnUploadLoad(httpStatus: nat, reply: App.UploadReply)
      modifies this
      ensures httpStatus == 200 && reply.Started? ==>
        Snapshot() == old(Snapshot()).(processingStatus := Processing, uploadProgress := 0.0)
      ensures !(httpStatus == 200 && reply.Started?) ==> Snapshot() == old(Snapshot())
      ensures storage == old(storage) && filterText == old(filterText) && polling == old(polling)
    {
      if httpStatus == 200 && reply.Started? {
        processingStatus, uploadProgress := Processing, 0.0;
      }
    }

    /** `handleExportCSV`: nothing for an empty report, otherwise the file. */
    method ExportCsv() returns (file: Option<string>)
      ensures reportData == [] <==> file.None?
      ensures file.Some? ==> reportData != [] && file.value == ExportText(reportData)
    {
      if |reportData| == 0 {
        return None;
      }
      file := Some(ExportText(reportData));
    }
  }
}
