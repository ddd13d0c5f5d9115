/** The operator console (Dashboard.jsx): upload with its XMLHttpRequest
    callbacks, the status poll that waits for "completed", the report
    fetch, and the derivations shown from the report rows (type counters
    with an "unknown" bucket, the single-substring filter and the
    four-column CSV export). */
module Dashboard {
  import opened Common
  import opened Rows
  import App
  import UserDashboard
  import Processor

  const Idle := "idle"
  const Uploading := "uploading"
  const Processing := "processing"
  const Complete := "complete"

  /** Whether a status body announces a finished job. */
  predicate Finished(reply: Outcome<App.StatusBody>) {
    reply.Ok? && reply.value.status == Text("completed")
  }

  /** Unlike the agent page, this console recognises the backend's own word:
      it sees a job as finished exactly when the backend has completed it. */
  lemma BackendCompletion(job: App.Job)
    ensures Finished(Ok(App.BodyOf(job))) <==> job.status == App.Completed
  {
    App.StatusNameInjective(job.status, App.Completed);
  }

  // ---------------------------------------------------------------------
  // Counters

  /** `obj.vehicle_type?.toLowerCase() || 'unknown'`: the agent page's key,
      with untyped rows put in an "unknown" bucket instead of skipped. */
  function TypeKey(r: Row): (k: string)
    ensures k != ""
    ensures UserDashboard.TypeKey(r).None? ==> k == "unknown"
  {
    match UserDashboard.TypeKey(r)
    case Some(key) => key
    case None => "unknown"
  }

  /** The `vehicleCounts` reduce. */
  function Counts(rows: seq<Row>): map<string, nat> {
    if rows == [] then map[] else Bump(Counts(rows[..|rows| - 1]), TypeKey(rows[|rows| - 1]))
  }

  /** Every row lands in exactly one bucket: summing the counters over
      distinct keys never exceeds the number of rows, and gives exactly that
      number when the keys name every row's bucket. */
  lemma {:induction false} CountsSum(rows: seq<Row>, keys: seq<string>)
    requires Unique(keys)
    ensures SumAt(Counts(rows), keys) <= |rows|
    ensures (forall i :: 0 <= i < |rows| ==> TypeKey(rows[i]) in keys) ==> SumAt(Counts(rows), keys) == |rows|
  {
    if rows == [] {
      SumAtEmpty(keys);
    } else {
      var init, last := rows[..|rows| - 1], rows[|rows| - 1];
      assert forall i :: 0 <= i < |init| ==> init[i] == rows[i];
      CountsSum(init, keys);
      BumpSum(Counts(init), TypeKey(last), keys);
    }
  }

  /** The number shown on a counter tile. */
  function Tile(rows: seq<Row>, key: string): nat {
    var m := Counts(rows);
    if key == "total" then |rows|
    else if key == "plate" then CountWhere(rows, r => Truthy(Get(r, "number_plate")))
    else if key in m then m[key] else 0
  }

  /** The four type tiles together never exceed "Total Objects". */
  lemma TileSum(rows: seq<Row>)
    ensures Tile(rows, "car") + Tile(rows, "bus") + Tile(rows, "truck") + Tile(rows, "motorcycle") <= Tile(rows, "total")
  {
    var tiles := UserDashboard.TypeTiles;
    assert Unique(tiles) by {
      assert tiles[1..] == ["bus", "truck", "motorcycle"];
      assert tiles[1..][1..] == ["truck", "motorcycle"];
      assert tiles[1..][1..][1..] == ["motorcycle"];
    }
    CountsSum(rows, tiles);
    var m := Counts(rows);
    assert SumAt(m, tiles) == Tile(rows, "car") + SumAt(m, ["bus", "truck", "motorcycle"]);
    assert SumAt(m, ["bus", "truck", "motorcycle"]) == Tile(rows, "bus") + SumAt(m, ["truck", "motorcycle"]);
    assert SumAt(m, ["truck", "motorcycle"]) == Tile(rows, "truck") + SumAt(m, ["motorcycle"]);
  }

  const ProcessorKeys: seq<string> := ["car", "bike", "truck"]

  lemma ProcessorBucket(r: Row, v: Processor.VehicleType)
    requires Get(r, "vehicle_type") == Text(Processor.TypeName(v))
    ensures TypeKey(r) in ProcessorKeys
  {
    UserDashboard.ProcessorKey(r, v);
  }

  lemma ProcessorKeysUnique()
    ensures Unique(ProcessorKeys)
  {
    assert ProcessorKeys[1..] == ["bike", "truck"];
    assert ProcessorKeys[1..][1..] == ["truck"];
  }

  /** On the processor's own reports every row is counted under "car",
      "bike" or "truck", and "unknown" stays empty. */
  lemma ProcessorRowsCounted(rows: seq<Row>)
    requires forall i :: 0 <= i < |rows| ==> exists v :: Get(rows[i], "vehicle_type") == Text(Processor.TypeName(v))
    ensures SumAt(Counts(rows), ProcessorKeys) == |rows|
  {
    ProcessorKeysUnique();
    forall i | 0 <= i < |rows|
      ensures TypeKey(rows[i]) in ProcessorKeys
    {
      var v :| Get(rows[i], "vehicle_type") == Text(Processor.TypeName(v));
      ProcessorBucket(rows[i], v);
    }
    CountsSum(rows, ProcessorKeys);
  }

  // ---------------------------------------------------------------------
  // Filter

  /** `f?.toLowerCase().includes(needle)`: false for a missing or null field. */
  predicate FieldHas(f: Field, needle: string) {
    f.Text? && Contains(Lower(f.s), needle)
  }

  /** The table filter: an empty filter keeps every row; otherwise the whole
      lower-cased filter must occur in the type, the plate or the colour. */
  predicate Matches(r: Row, filter: string) {
    var needle := Lower(filter);
    filter == ""
    || FieldHas(Get(r, "vehicle_type"), needle)
    || FieldHas(Get(r, "number_plate"), needle)
    || FieldHas(Get(r, "color"), needle)
  }

  function Visible(rows: seq<Row>, filter: string): seq<Row> {
    FilterSeq(rows, r => Matches(r, filter))
  }

  /** The table shows exactly the report's rows whose type, plate or colour
      contains the whole lower-cased filter, or every row for an empty one. */
  lemma VisibleExactly(rows: seq<Row>, filter: string, r: Row)
    ensures r in Visible(rows, filter) <==>
      && r in rows
      && (|| filter == ""
          || FieldHas(Get(r, "vehicle_type"), Lower(filter))
          || FieldHas(Get(r, "number_plate"), Lower(filter))
          || FieldHas(Get(r, "color"), Lower(filter)))
  {
    if r in rows && Matches(r, filter) {
      FilterKeepsEvery(rows, r => Matches(r, filter), r);
    }
  }

  /** Lower-casing the search text lower-cases each field in place. */
  lemma LowerThree(t: string, p: string, c: string)
    ensures Lower(t + " " + p + " " + c) == Lower(t) + " " + Lower(p) + " " + Lower(c)
  {
    LowerAppend(t + " " + p + " ", c);
    LowerAppend(t + " " + p, " ");
    LowerAppend(t + " ", p);
    LowerAppend(t, " ");
    assert Lower(" ") == " ";
  }

  /** A filter without spaces is one search term on the agent page. */
  lemma OneTerm(filter: string)
    requires filter != "" && ' ' !in filter
    ensures UserDashboard.Terms(filter) == [Lower(filter)]
  {
    CaseKeeps(filter, ' ');
    SplitAbsent(Lower(filter), ' ');
    assert Lower(filter) != "";
  }

  /** A term found in one field is found in the fields joined by spaces. */
  lemma InSomeField(t: string, p: string, c: string, needle: string)
    requires Contains(t, needle) || Contains(p, needle) || Contains(c, needle)
    ensures Contains(t + " " + p + " " + c, needle)
  {
    var text := t + " " + p + " " + c;
    if Contains(t, needle) {
      ContainsInfix([], t, " " + p + " " + c, needle);
      assert [] + t + (" " + p + " " + c) == text;
    } else if Contains(p, needle) {
      ContainsInfix(t + " ", p, " " + c, needle);
      assert t + " " + p + (" " + c) == text;
    } else {
      ContainsInfix(t + " " + p + " ", c, [], needle);
      assert t + " " + p + " " + c + [] == text;
    }
  }

  /** For a filter without spaces the agent page keeps every row this
      console keeps: a match inside one field is a match in the joined
      search text. */
  lemma SingleTermAgrees(r: Row, filter: string)
    requires ' ' !in filter
    requires Matches(r, filter)
    ensures UserDashboard.Matches(r, filter)
  {
    if filter != "" {
      var needle := Lower(filter);
      OneTerm(filter);
      var t, p, c := Template(Get(r, "vehicle_type")), Template(Get(r, "number_plate")), Template(Get(r, "color"));
      LowerThree(t, p, c);
      InSomeField(Lower(t), Lower(p), Lower(c), needle);
      assert Contains(UserDashboard.SearchText(r), needle);
    }
  }

  // ---------------------------------------------------------------------
  // Export

  const ExportHeader: seq<string> := ["Reference", "Vehicle Type", "Color Signature", "Plate Identifier"]

  /** The "Reference" cell of the i-th row: "#1000", "#1001", ... */
  function Reference(i: nat): (ref: string)
    ensures |ref| >= 5 && ref[0] == '#'
    ensures forall k :: 1 <= k < |ref| ==> '0' <= ref[k] <= '9'
  {
    var digits := DecimalText(1000 + i);
    assert |digits| >= 4 by {
      assert DecimalText(1000 + i) == DecimalText((1000 + i) / 10) + [('0' as int + (1000 + i) % 10) as char];
      assert DecimalText((1000 + i) / 10) == DecimalText((1000 + i) / 10 / 10) + [('0' as int + (1000 + i) / 10 % 10) as char];
      assert DecimalText((1000 + i) / 10 / 10) == DecimalText((1000 + i) / 10 / 10 / 10) + [('0' as int + (1000 + i) / 10 / 10 % 10) as char];
    }
    "#" + digits
  }

  /** The cells of a report row in the export, after its reference. */
  function ExportCells(r: Row, ref: string): (cells: seq<string>)
    ensures |cells| == 4 && cells[0] == ref
  {
    [ref,
     OrElse(UpperField(Get(r, "vehicle_type")), "UNIDENTIFIED"),
     OrElse(UpperField(Get(r, "color")), "N/A"),
     OrElse(UpperField(Get(r, "number_plate")), "DETECTING...")]
  }

  /** One export line: the cells joined by commas. */
  function ExportLine(r: Row, i: nat): string {
    Join(ExportCells(r, Reference(i)), ",")
  }

  function ExportLines(rows: seq<Row>, from: nat): (lines: seq<string>)
    ensures |lines| == |rows|
    ensures forall i :: 0 <= i < |rows| ==> lines[i] == ExportLine(rows[i], from + i)
  {
    if rows == [] then [] else [ExportLine(rows[0], from)] + ExportLines(rows[1..], from + 1)
  }

  /** `handleExportCSV`'s file content. */
  function ExportText(rows: seq<Row>): string {
    Join([Join(ExportHeader, ",")] + ExportLines(rows, 0), "\n")
  }

  /** A field value free of the character `c`. */
  predicate FieldAvoids(f: Field, c: char) {
    f.Text? ==> c !in f.s
  }

  predicate CellsClean(r: Row, c: char) {
    FieldAvoids(Get(r, "vehicle_type"), c) && FieldAvoids(Get(r, "color"), c) && FieldAvoids(Get(r, "number_plate"), c)
  }

  lemma CellsAvoid(r: Row, i: nat, c: char)
    requires CellsClean(r, c) && (c == '\n' || c == ',')
    ensures forall k :: 0 <= k < 4 ==> c !in ExportCells(r, Reference(i))[k]
  {
    var cells := ExportCells(r, Reference(i));
    assert c !in cells[0];
    var fields := [Get(r, "vehicle_type"), Get(r, "color"), Get(r, "number_plate")];
    forall k | 1 <= k < 4
      ensures c !in cells[k]
    {
      if fields[k - 1].Text? {
        CaseKeeps(fields[k - 1].s, c);
      }
    }
  }

  /** The header line splits back into the four column titles. */
  lemma HeaderCells()
    ensures Split(Join(ExportHeader, ","), ',') == ExportHeader
    ensures '\n' !in Join(ExportHeader, ",")
  {
    forall k | 0 <= k < |ExportHeader|
      ensures ',' !in ExportHeader[k] && '\n' !in ExportHeader[k]
    {
    }
    SplitJoin(ExportHeader, ',');
    JoinAvoids(ExportHeader, ",", '\n');
  }

  /** When no type, colour or plate holds a comma, a row's export line
      splits back into exactly its four cells. */
  lemma RowCells(r: Row, i: nat)
    requires CellsClean(r, ',')
    ensures Split(ExportLine(r, i), ',') == ExportCells(r, Reference(i))
  {
    CellsAvoid(r, i, ',');
    SplitJoin(ExportCells(r, Reference(i)), ',');
  }

  /** When no type, colour or plate holds a line break, the export has the
      header line and then one line per report row, in order, the i-th
      starting with the reference "#" + (1000 + i). */
  lemma ExportShape(rows: seq<Row>)
    requires forall i :: 0 <= i < |rows| ==> CellsClean(rows[i], '\n')
    ensures var lines := Split(ExportText(rows), '\n');
      && |lines| == |rows| + 1
      && lines[0] == Join(ExportHeader, ",")
      && forall i :: 0 <= i < |rows| ==> lines[i + 1] == ExportLine(rows[i], i)
  {
    var lines := ExportLines(rows, 0);
    forall i | 0 <= i < |rows|
      ensures '\n' !in lines[i]
    {
      CellsAvoid(rows[i], i, '\n');
      JoinAvoids(ExportCells(rows[i], Reference(i)), ",", '\n');
    }
    HeaderCells();
    SplitJoin([Join(ExportHeader, ",")] + lines, '\n');
  }

  // ---------------------------------------------------------------------
  // The page

  class Console {
    var isAnalyzing: bool
    var uploadProgress: real
    var processingStatus: string
    var reportData: seq<Row>
    var isFetchingReport: bool
    var videoLink: Field
    var filterText: string
    /** Whether a status-poll interval is running. */
    var polling: bool

    constructor ()
      ensures !isAnalyzing && uploadProgress == 0.0 && processingStatus == Idle && reportData == []
      ensures !isFetchingReport && videoLink == Null && filterText == "" && !polling
    {
      isAnalyzing, uploadProgress, processingStatus, reportData := false, 0.0, Idle, [];
      isFetchingReport, videoLink, filterText, polling := false, Null, "", false;
    }

    /** The polling effect, run when the status or the analysing flag
        changes. */
    method StatusEffect()
      modifies this
      ensures polling == (processingStatus == Processing || isAnalyzing)
      ensures isAnalyzing == old(isAnalyzing) && processingStatus == old(processingStatus)
      ensures uploadProgress == old(uploadProgress) && reportData == old(reportData)
      ensures isFetchingReport == old(isFetchingReport) && videoLink == old(videoLink)
    {
      polling := processingStatus == Processing || isAnalyzing;
    }

    /** `handleFileUpload`: nothing without a file; otherwise "uploading" at
        10%, back to "idle" if the request cannot even be set up. */
    method HandleFileUpload(hasFile: bool, sendThrows: bool)
      modifies this
      ensures processingStatus == (if !hasFile then old(processingStatus) else if sendThrows then Idle else Uploading)
      ensures uploadProgress == if hasFile then 10.0 else old(uploadProgress)
      ensures isAnalyzing == old(isAnalyzing) && reportData == old(reportData) && videoLink == old(videoLink)
      ensures isFetchingReport == old(isFetchingReport) && polling == old(polling)
    {
      if !hasFile {
        return;
      }
      processingStatus, uploadProgress := Uploading, 10.0;
      if sendThrows {
        processingStatus := Idle;
      }
    }

    /** `xhr.upload.onprogress`; `percent` is loaded / total * 100. */
    method OnUploadProgress(lengthComputable: bool, percent: real)
      modifies this
      ensures uploadProgress == if lengthComputable then percent else old(uploadProgress)
      ensures isAnalyzing == old(isAnalyzing) && processingStatus == old(processingStatus)
      ensures reportData == old(reportData) && videoLink == old(videoLink)
      ensures isFetchingReport == old(isFetchingReport) && polling == old(polling)
    {
      if lengthComputable {
        uploadProgress := percent;
      }
    }

    /** `xhr.onload`: HTTP 200 starts the analysis with a cleared video
        link; any other status returns to "idle". */
    method OnUploadLoad(httpStatus: nat)
      modifies this
      ensures httpStatus == 200 ==>
        processingStatus == Processing && isAnalyzing && uploadProgress == 100.0 && videoLink == Null
      ensures httpStatus != 200 ==>
        && processingStatus == Idle && isAnalyzing == old(isAnalyzing)
        && uploadProgress == old(uploadProgress) && videoLink == old(videoLink)
      ensures reportData == old(reportData) && isFetchingReport == old(isFetchingReport) && polling == old(polling)
    {
      if httpStatus == 200 {
        processingStatus, isAnalyzing, uploadProgress, videoLink := Processing, true, 100.0, Null;
      } else {
        processingStatus := Idle;
      }
    }

    /** `xhr.onerror`. */
    method OnUploadError()
      modifies this
      ensures processingStatus == Idle
      ensures isAnalyzing == old(isAnalyzing) && uploadProgress == old(uploadProgress)
      ensures reportData == old(reportData) && videoLink == old(videoLink)
      ensures isFetchingReport == old(isFetchingReport) && polling == old(polling)
    {
      processingStatus := Idle;
    }

    /** One poll tick.  A "completed" body finishes the analysis, takes the
        video link and starts the report fetch; a failed request only clears
        the analysing flag; any other body changes nothing. */
    method PollTick(reply: Outcome<App.StatusBody>)
      requires polling
      modifies this
      ensures Finished(reply) ==>
        && processingStatus == Complete && !isAnalyzing && videoLink == reply.value.videoLink && isFetchingReport
      ensures reply.Failed? ==>
        && !isAnalyzing && processingStatus == old(processingStatus)
        && videoLink == old(videoLink) && isFetchingReport == old(isFetchingReport)
      ensures reply.Ok? && !Finished(reply) ==>
        && isAnalyzing == old(isAnalyzing) && processingStatus == old(processingStatus)
        && videoLink == old(videoLink) && isFetchingReport == old(isFetchingReport)
      ensures reportData == old(reportData) && uploadProgress == old(uploadProgress) && polling == old(polling)
    {
      match reply {
        case Ok(body) =>
          if body.status == Text("completed") {
            processingStatus, isAnalyzing, videoLink := Complete, false, body.videoLink;
            isFetchingReport := true;
          }
        case Failed(_) =>
          isAnalyzing := false;
      }
    }

    /** The end of `fetchReport`: the rows are replaced only by a body that
        carries "data"; the fetching flag is cleared either way. */
    method ReportArrived(report: Outcome<App.Report>)
      modifies this
      ensures reportData == if report.Ok? && report.value.Table? then report.value.data else old(reportData)
      ensures !isFetchingReport
      ensures isAnalyzing == old(isAnalyzing) && processingStatus == old(processingStatus)
      ensures uploadProgress == old(uploadProgress) && videoLink == old(videoLink) && polling == old(polling)
    {
      if report.Ok? && report.value.Table? {
        reportData := report.value.data;
      }
      isFetchingReport := false;
    }

    /** `handleExportCSV`: nothing for an empty report, otherwise the file. */
    method ExportCsv() returns (file: Option<string>)
      ensures reportData == [] <==> file.None?
      ensures file.Some? ==> file.value == ExportText(reportData)
    {
      if |reportData| == 0 {
        return None;
      }
      file := Some(ExportText(reportData));
    }
  }
}
