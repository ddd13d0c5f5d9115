/** The Flask backend's job record (app.py): upload validation and the
    names of the output files, the lifecycle of the one global job, the
    progress callback and the report endpoint.

    The background thread is run as a sequence of calls right after the
    upload that started it; Flask routing, the lock and file I/O are not
    modelled (whether the CSV exists and the rows it holds are inputs). */
module App {
  import opened Common
  import opened Rows
  import Processor

  // ---------------------------------------------------------------------
  // Paths

  /** The last index of `c` in `s`, or -1. */
  function LastIndexOf(s: string, c: char): (k: int)
    ensures -1 <= k < |s|
    ensures k >= 0 ==> s[k] == c
    ensures forall j :: k < j < |s| ==> s[j] != c
  {
    if s == [] then -1
    else if s[|s| - 1] == c then |s| - 1
    else LastIndexOf(s[..|s| - 1], c)
  }

  /** `os.path.basename` with '/' as separator: what follows the last '/'. */
  function Basename(p: string): (b: string)
    ensures '/' !in b
    ensures |b| <= |p| && b == p[|p| - |b|..]
    ensures |b| < |p| ==> p[|p| - |b| - 1] == '/'
  {
    p[LastIndexOf(p, '/') + 1..]
  }

  /** Whether a character other than '.' precedes index `dot` in the last
      path component (which starts at `from`). */
  predicate HasStem(p: string, from: nat, dot: nat)
    requires from <= dot <= |p|
  {
    exists i :: from <= i < dot && p[i] != '.'
  }

  /** `os.path.splitext(p)[0]`: everything before the last '.' of the last
      path component, unless that component is only dots before it. */
  function StripExt(p: string): (root: string)
    ensures |root| <= |p| && root == p[..|root|]
    ensures |root| < |p| ==> p[|root|] == '.' && '/' !in p[|root|..] && '.' !in p[|root| + 1..]
    ensures var sep, dot := LastIndexOf(p, '/'), LastIndexOf(p, '.');
      if dot > sep && HasStem(p, sep + 1, dot) then |root| == dot else root == p
  {
    var sep, dot := LastIndexOf(p, '/'), LastIndexOf(p, '.');
    if dot > sep && HasStem(p, sep + 1, dot) then p[..dot] else p
  }

  /** Name of the uploaded file on disk: the job id, '_', the client's name. */
  function StoredName(jobId: string, filename: string): string {
    jobId + "_" + filename
  }

  function CsvName(stored: string): string {
    StripExt(stored) + ".csv"
  }

  function VideoName(stored: string): string {
    StripExt(stored) + "_processed.mp4"
  }

  /** What `uuid.uuid4()` prints: hex digits and dashes. */
  predicate IsUuidText(s: string) {
    |s| > 0 && forall i :: 0 <= i < |s| ==> s[i] == '-' || '0' <= s[i] <= '9' || 'a' <= s[i] <= 'f'
  }

  /** Both output names keep the whole `<job id>_` prefix of the stored
      name, end in their own suffix, and so never coincide. */
  lemma OutputNames(jobId: string, filename: string)
    requires IsUuidText(jobId)
    ensures var stored := StoredName(jobId, filename);
      && CsvName(stored)[..|jobId| + 1] == jobId + "_"
      && VideoName(stored)[..|jobId| + 1] == jobId + "_"
      && CsvName(stored) != VideoName(stored)
  {
    var stored := StoredName(jobId, filename);
    var root := StripExt(stored);
    var dot := LastIndexOf(stored, '.');
    if dot > LastIndexOf(stored, '/') && HasStem(stored, LastIndexOf(stored, '/') + 1, dot) {
      assert stored[dot] == '.';
      assert dot > |jobId|;
    }
    assert |root| >= |jobId| + 1;
    assert root[..|jobId| + 1] == stored[..|jobId| + 1];
    var c, v := CsvName(stored), VideoName(stored);
    assert c[|c| - 1] == 'v' && v[|v| - 1] == '4';
  }

  // ---------------------------------------------------------------------
  // The job record

  datatype Status = Idle | Starting | Processing | Completed | Error

  /** The `status` string the clients poll for. */
  function StatusName(s: Status): (name: string)
    ensures |name| >= 4
  {
    match s
    case Idle => "idle"
    case Starting => "starting"
    case Processing => "processing"
    case Completed => "completed"
    case Error => "error"
  }

  lemma StatusNameInjective(a: Status, b: Status)
    ensures StatusName(a) == StatusName(b) <==> a == b
  {
  }

  /** The job's `counters`: the zeroed dict the backend writes itself, or
      the processor's dict as last reported (which also carries progress). */
  datatype JobCounters = Zeroed | Reported(counters: Processor.Counters)

  /** A snapshot of `current_job`, as `/status` returns it. */
  datatype Job = Job(status: Status, counters: JobCounters, id: Option<string>,
                     videoLink: Option<string>, csvLink: Option<string>, error: Option<string>)

  /** The record after a valid upload. */
  function FreshJob(jobId: string): Job {
    Job(Starting, Zeroed, Some(jobId), None, None, None)
  }

  /** Which fields are set in each phase of the lifecycle.  The counters
      are unconstrained: a thread started by an earlier upload may still be
      reporting into the record. */
  predicate WellPhased(j: Job) {
    match j.status
    case Idle => j.id == None && j.videoLink == None && j.csvLink == None && j.error == None
    case Starting => j.id.Some? && j.videoLink == None && j.csvLink == None && j.error == None
    case Processing => j.id.Some? && j.videoLink == None && j.csvLink == None && j.error == None
    case Completed => j.id.Some? && j.videoLink.Some? && j.csvLink.Some? && j.error == None
    case Error => j.id.Some? && j.videoLink == None && j.csvLink == None && j.error.Some?
  }

  /** The counters after the processor's reports: the zeroed dict until
      the first one, then the last one. */
  function LastReport(reports: seq<Processor.Counters>): JobCounters {
    if reports == [] then Zeroed else Reported(reports[|reports| - 1])
  }

  /** The record a background thread leaves behind for job `j`: on success
      "completed" with the final counters and both base names.  On failure
      the `except` branch first calls `logger.error`, but app.py binds no
      `logger` (it only imports `logging`), so the NameError ends the thread
      before the "error" assignments: the job stays "processing", with no
      error text and the counters last reported. */
  function AfterRun(j: Job, reports: seq<Processor.Counters>, result: Outcome<Processor.Counters>,
                    csvPath: string, videoPath: string): Job
  {
    match result
    case Ok(final) =>
      j.(status := Completed, counters := Reported(final),
         videoLink := Some(Basename(videoPath)), csvLink := Some(Basename(csvPath)))
    case Failed(_) => j.(status := Processing, counters := LastReport(reports))
  }

  /** No run of a started job ends in "error": a successful one completes
      with both links, a failed one is left "processing" with no error text,
      and either way the record stays well formed. */
  lemma NoRunEndsInError(j: Job, reports: seq<Processor.Counters>, result: Outcome<Processor.Counters>,
                         csvPath: string, videoPath: string)
    requires WellPhased(j) && j.status == Starting
    ensures var k := AfterRun(j, reports, result, csvPath, videoPath);
      && WellPhased(k) && k.id == j.id
      && k.status != Error && k.error == None
      && (k.status == Completed <==> result.Ok?)
      && (result.Failed? ==> k.status == Processing && k.counters == LastReport(reports))
  {
  }

  /** A job field that may be null, as JSON renders it. */
  function NullableText(o: Option<string>): (f: Field)
    ensures f != Missing
    ensures f.Text? <==> o.Some?
  {
    if o.Some? then Text(o.value) else Null
  }

  /** The fields of the `/status` body the clients read. */
  datatype StatusBody = StatusBody(status: Field, videoLink: Field, csvLink: Field, error: Field)

  /** `get_status`: the job record as JSON. */
  function BodyOf(j: Job): StatusBody {
    StatusBody(Text(StatusName(j.status)), NullableText(j.videoLink), NullableText(j.csvLink), NullableText(j.error))
  }

  /** Reply of `/upload_video`. */
  datatype UploadReply =
    | Rejected(message: string, code: nat)
    | Started(jobId: string, csvName: string, videoName: string)

  /** Body of `/traffic_report`. */
  datatype Report = RowsOnly(rows: seq<Row>) | Table(columns: seq<string>, data: seq<Row>)

  const ReportColumns: seq<string> := ["vehicle_type", "color", "number_plate", "frame"]

  /** `not current_job["csv_link"]`: no link, or an empty one. */
  predicate NoCsvLink(link: Option<string>) {
    link.None? || link.value == ""
  }

  /** The process-wide job record and its handlers. */
  class JobServer {
    var status: Status
    var counters: JobCounters
    var id: Option<string>
    var videoLink: Option<string>
    var csvLink: Option<string>
    var error: Option<string>

    function Current(): Job
      reads this
    {
      Job(status, counters, id, videoLink, csvLink, error)
    }

    ghost predicate Valid()
      reads this
    {
      WellPhased(Current())
    }

    /** The record at import time. */
    constructor ()
      ensures Valid() && Current() == Job(Idle, Zeroed, None, None, None, None)
    {
      status, counters, id := Idle, Zeroed, None;
      videoLink, csvLink, error := None, None, None;
    }

    /** `update_progress`: the counters are replaced and nothing else. */
    method UpdateProgress(c: Processor.Counters)
      requires Valid()
      modifies this
      ensures Valid()
      ensures Current() == old(Current()).(counters := Reported(c))
    {
      counters := Reported(c);
    }

    /** `upload_video`: reject a request without a 'video' part or with an
        empty file name; otherwise store the file under a fresh job id and
        reset the job. `jobId` is the uuid the request drew. */
    method UploadVideo(hasVideoPart: bool, filename: string, jobId: string) returns (reply: UploadReply)
      requires Valid()
      modifies this
      ensures Valid()
      ensures !hasVideoPart ==> reply == Rejected("No file part", 400) && Current() == old(Current())
      ensures hasVideoPart && filename == "" ==> reply == Rejected("No selected file", 400) && Current() == old(Current())
      ensures hasVideoPart && filename != "" ==>
        && Current() == FreshJob(jobId)
        && reply == Started(jobId, CsvName(StoredName(jobId, filename)), VideoName(StoredName(jobId, filename)))
    {
      if !hasVideoPart {
        return Rejected("No file part", 400);
      }
      if filename == "" {
        return Rejected("No selected file", 400);
      }
      var stored := StoredName(jobId, filename);
      status, id, counters := Starting, Some(jobId), Zeroed;
      videoLink, csvLink, error := None, None, None;
      reply := Started(jobId, CsvName(stored), VideoName(stored));
    }

    /** `background_process` for the job just started: "processing" with
        zeroed counters, one `update_progress` per processor report, then
        "completed" with the final counters and both file names.  A failed
        run is left as `AfterRun` says: still "processing", no error. */
    method BackgroundProcess(reports: seq<Processor.Counters>, result: Outcome<Processor.Counters>,
                             csvPath: string, videoPath: string)
      requires Valid() && status == Starting
      modifies this
      ensures Valid() && Current() == AfterRun(old(Current()), reports, result, csvPath, videoPath)
      ensures result.Ok? ==>
        Current() == Job(Completed, Reported(result.value), old(id), Some(Basename(videoPath)), Some(Basename(csvPath)), None)
      ensures result.Failed? ==>
        Current() == Job(Processing, LastReport(reports), old(id), None, None, None)
    {
      status, counters := Processing, Zeroed;
      ghost var running := Current();
      var k := 0;
      while k < |reports|
        invariant 0 <= k <= |reports|
        invariant Current() == running.(counters := if k == 0 then Zeroed else Reported(reports[k - 1]))
      {
        UpdateProgress(reports[k]);
        k := k + 1;
      }
      match result {
        case Ok(final) =>
          counters, status := Reported(final), Completed;
          videoLink, csvLink := Some(Basename(videoPath)), Some(Basename(csvPath));
        case Failed(_) =>
          // the NameError from the unbound `logger` ends the thread here
      }
    }

    /** `get_report`: without a CSV link the body holds only an empty
        "rows" list; otherwise the fixed columns and the CSV's rows in file
        order (none when the file is missing). */
    method GetReport(csvExists: bool, fileRows: seq<Row>) returns (report: Report)
      ensures NoCsvLink(csvLink) ==> report == RowsOnly([])
      ensures !NoCsvLink(csvLink) ==> report == Table(ReportColumns, if csvExists then fileRows else [])
    {
      if NoCsvLink(csvLink) {
        return RowsOnly([]);
      }
      var rows: seq<Row> := [];
      if csvExists {
        var i := 0;
        while i < |fileRows|
          invariant 0 <= i <= |fileRows|
          invariant rows == fileRows[..i]
        {
          rows := rows + [fileRows[i]];
          i := i + 1;
        }
        assert fileRows[..|fileRows|] == fileRows;
      }
      report := Table(ReportColumns, rows);
    }
  }

  /** Neither "completed" nor any other status the backend writes is the
      string "complete". */
  lemma NoStatusIsComplete(s: Status)
    ensures StatusName(s) != "complete"
  {
  }
}
