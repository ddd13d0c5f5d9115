/** The legacy single-page client (frontend/js/script.js): the upload
    handler, the one-second status poll, the download links built when the
    job completes, the four counter cells and the results table.

    The DOM is reduced to what the script writes: the loader, the counter
    texts, the two download links, the video source and the table body.
    Each `fetch` answer is a parameter; a request that throws is `Failed`. */
module LegacyClient {
  import opened Common
  import opened Rows
  import App
  import Processor

  // ---------------------------------------------------------------------
  // Counters

  /** The `counters` object of a status body; an absent field is `None`. */
  datatype CounterFields = CounterFields(total: Option<nat>, cars: Option<nat>, bikes: Option<nat>, trucks: Option<nat>)

  /** The four numbers on the page. */
  datatype Stats = Stats(total: nat, cars: nat, bikes: nat, trucks: nat)

  /** `c.x || 0`: a missing field shows as 0. */
  function Shown(n: Option<nat>): (v: nat)
    ensures n.Some? ==> v == n.value
    ensures n.None? ==> v == 0
  {
    if n.Some? then n.value else 0
  }

  function StatsOf(c: CounterFields): Stats {
    Stats(Shown(c.total), Shown(c.cars), Shown(c.bikes), Shown(c.trucks))
  }

  /** `updateStats`: nothing without a counters object. */
  function UpdateStats(old_: Option<Stats>, c: Option<CounterFields>): (s: Option<Stats>)
    ensures c.None? ==> s == old_
    ensures c.Some? ==> s == Some(StatsOf(c.value))
  {
    if c.None? then old_ else Some(StatsOf(c.value))
  }

  // ---------------------------------------------------------------------
  // Status body

  /** What the script reads from `/status`. */
  datatype Poll = Poll(body: App.StatusBody, counters: Option<CounterFields>)

  /** `/status` for the backend's job: the zeroed dict carries the four
      counters, the processor's dict carries them and `progress`. */
  function PollOf(job: App.Job): Poll {
    var c := match job.counters
      case Zeroed => CounterFields(Some(0), Some(0), Some(0), Some(0))
      case Reported(k) => CounterFields(Some(k.total), Some(k.cars), Some(k.bikes), Some(k.trucks));
    Poll(App.BodyOf(job), Some(c))
  }

  /** Every tick shows the backend's counters exactly. */
  lemma StatsOfJob(job: App.Job)
    ensures var s := StatsOf(PollOf(job).counters.value);
      && (job.counters.Zeroed? ==> s == Stats(0, 0, 0, 0))
      && (job.counters.Reported? ==>
            s == Stats(job.counters.counters.total, job.counters.counters.cars,
                       job.counters.counters.bikes, job.counters.counters.trucks))
  {
  }

  /** `${API_BASE}/download/` + a status field. */
  function DownloadHref(apiBase: string, f: Field): (href: string)
    ensures |href| >= |apiBase| + 10 && href[..|apiBase| + 10] == apiBase + "/download/"
    ensures href[|apiBase| + 10..] == Template(f)
  {
    var prefix := apiBase + "/download/";
    assert (prefix + Template(f))[..|prefix|] == prefix;
    prefix + Template(f)
  }

  /** The tick's reading of `status.status`. */
  datatype Verdict = KeepPolling | Done | Failure

  function VerdictOf(p: Poll): Verdict {
    if p.body.status == Text("completed") then Done
    else if p.body.status == Text("error") then Failure
    else KeepPolling
  }

  /** Against this backend the script finishes exactly on a completed job,
      gives up exactly on a failed one, and then its links name the job's
      own output files. */
  lemma VerdictOfJob(job: App.Job, apiBase: string)
    requires App.WellPhased(job)
    ensures VerdictOf(PollOf(job)) == Done <==> job.status == App.Completed
    ensures VerdictOf(PollOf(job)) == Failure <==> job.status == App.Error
    ensures job.status == App.Completed ==>
      && DownloadHref(apiBase, PollOf(job).body.csvLink) == apiBase + "/download/" + job.csvLink.value
      && DownloadHref(apiBase, PollOf(job).body.videoLink) == apiBase + "/download/" + job.videoLink.value
  {
    App.StatusNameInjective(job.status, App.Completed);
    App.StatusNameInjective(job.status, App.Error);
  }

  /** A failed run leaves the job "processing", so the script neither
      finishes nor gives up on it: it keeps polling. */
  lemma FailedRunPollsOn(j: App.Job, reports: seq<Processor.Counters>, message: string,
                         csvPath: string, videoPath: string)
    requires App.WellPhased(j) && j.status == App.Starting
    ensures VerdictOf(PollOf(App.AfterRun(j, reports, Failed(message), csvPath, videoPath))) == KeepPolling
  {
    var k := App.AfterRun(j, reports, Failed(message), csvPath, videoPath);
    App.NoRunEndsInError(j, reports, Failed(message), csvPath, videoPath);
    VerdictOfJob(k, "");
  }

  // ---------------------------------------------------------------------
  // Table

  /** One table line as rendered. */
  datatype Line = Line(vehicleType: string, color: string, plate: string, dimmed: bool, frame: string)

  /** The body of the results table. */
  datatype Table =
    | Markup          // whatever the page's own HTML holds
    | Analyzing       // the "Analyzing video stream..." row
    | NoVehicles      // the "No vehicles detected" row
    | Lines(lines: seq<Line>)

  /** The per-row mapping of `renderTable`. */
  function Display(r: Row): (l: Line)
    ensures Truthy(Get(r, "vehicle_type")) ==> l.vehicleType == Get(r, "vehicle_type").s
    ensures !Truthy(Get(r, "vehicle_type")) ==> l.vehicleType == "Unknown"
    ensures !Truthy(Get(r, "color")) ==> l.color == "Unknown"
    ensures !Truthy(Get(r, "frame")) ==> l.frame == "-"
    ensures l.dimmed <==> l.plate == "Not Detected"
  {
    var plate := OrElse(Get(r, "number_plate"), "Not Detected");
    var dimmed := plate == "Not Detected" || IsBlank(plate);
    Line(OrElse(Get(r, "vehicle_type"), "Unknown"), OrElse(Get(r, "color"), "Unknown"),
         if dimmed then "Not Detected" else plate, dimmed, OrElse(Get(r, "frame"), "-"))
  }

  /** A plate is dimmed exactly when it is missing, null, empty, only
      white space, or the processor's "Not Detected"; otherwise the text is
      shown as it came. */
  lemma PlateDimmed(r: Row)
    ensures var f := Get(r, "number_plate");
      Display(r).dimmed <==> !f.Text? || f.s == "Not Detected" || IsBlank(f.s)
    ensures var f := Get(r, "number_plate");
      !Display(r).dimmed ==> Display(r).plate == f.s
  {
  }

  /** What `renderTable(rows)` leaves in the table body. */
  function Rendered(rows: seq<Row>): (t: Table)
    ensures rows == [] <==> t == NoVehicles
    ensures rows != [] ==>
      t.Lines? && |t.lines| == |rows| && forall i :: 0 <= i < |rows| ==> t.lines[i] == Display(rows[i])
  {
    if rows == [] then NoVehicles else Lines(seq(|rows|, i requires 0 <= i < |rows| => Display(rows[i])))
  }

  /** On rows whose type and colour are set, as the processor writes
      them, every line shows that type and colour as they are. */
  lemma ProcessorRowsShown(rows: seq<Row>)
    requires rows != []
    requires forall i :: 0 <= i < |rows| ==> Truthy(Get(rows[i], "vehicle_type")) && Truthy(Get(rows[i], "color"))
    ensures forall i :: 0 <= i < |rows| ==>
      && Rendered(rows).lines[i].vehicleType == Get(rows[i], "vehicle_type").s
      && Rendered(rows).lines[i].color == Get(rows[i], "color").s
  {
  }

  // ---------------------------------------------------------------------
  // The page

  class Page {
    var loaderShown: bool
    var stats: Option<Stats>
    var csvHref: Option<string>
    var videoHref: Option<string>
    var videoSrc: Option<string>
    var table: Table
    /** Whether the status interval is running. */
    var polling: bool
    var alerts: seq<string>
    /** Set by `location.reload()`; the page starts over. */
    var reloaded: bool
    const apiBase: string

    /** The page as loaded; `apiBase` is "" on localhost, the hosted API
        otherwise. */
    constructor (apiBase: string)
      ensures this.apiBase == apiBase
      ensures !loaderShown && stats.None? && csvHref.None? && videoHref.None? && videoSrc.None?
      ensures table == Markup && !polling && alerts == [] && !reloaded
    {
      this.apiBase := apiBase;
      loaderShown, stats, csvHref, videoHref, videoSrc := false, None, None, None, None;
      table, polling, alerts, reloaded := Markup, false, [], false;
    }

    /** The `change` handler: with a file chosen, show the loader and the
        placeholder row, then start polling on `success`, or alert and
        reload on a refused or failed upload. */
    method OnFileChosen(fileCount: nat, upload: Outcome<bool>)
      modifies this
      ensures fileCount == 0 ==>
        && loaderShown == old(loaderShown) && table == old(table) && polling == old(polling)
        && alerts == old(alerts) && reloaded == old(reloaded)
      ensures fileCount > 0 ==> loaderShown && table == Analyzing
      ensures fileCount > 0 && upload == Ok(true) ==> polling && alerts == old(alerts) && reloaded == old(reloaded)
      ensures fileCount > 0 && upload == Ok(false) ==> polling == old(polling) && alerts == old(alerts) + ["Upload Error"] && reloaded
      ensures fileCount > 0 && upload.Failed? ==> polling == old(polling) && alerts == old(alerts) + ["Connection Error"] && reloaded
      ensures stats == old(stats) && csvHref == old(csvHref) && videoHref == old(videoHref) && videoSrc == old(videoSrc)
    {
      if fileCount == 0 {
        return;
      }
      loaderShown, table := true, Analyzing;
      match upload {
        case Ok(success) =>
          if success {
            polling := true;
          } else {
            alerts, reloaded := alerts + ["Upload Error"], true;
          }
        case Failed(_) =>
          alerts, reloaded := alerts + ["Connection Error"], true;
      }
    }

    /** One tick of `pollStatus`: a failed request changes nothing;
        otherwise the stats are refreshed, then "completed" stops the
        interval and finishes, "error" stops it, alerts and reloads, and
        any other status keeps polling. */
    method PollTick(reply: Outcome<Poll>)
      requires polling
      modifies this
      ensures reply.Failed? ==> stats == old(stats) && polling && alerts == old(alerts) && loaderShown == old(loaderShown)
      ensures reply.Ok? ==> stats == UpdateStats(old(stats), reply.value.counters)
      ensures reply.Ok? ==> (polling <==> VerdictOf(reply.value) == KeepPolling)
      ensures reply.Ok? && VerdictOf(reply.value) == Done ==>
        && !loaderShown
        && csvHref == Some(DownloadHref(apiBase, reply.value.body.csvLink))
        && videoHref == Some(DownloadHref(apiBase, reply.value.body.videoLink))
        && alerts == old(alerts) && reloaded == old(reloaded)
      ensures reply.Ok? && VerdictOf(reply.value) == Failure ==>
        && alerts == old(alerts) + ["Analysis Failed: " + Template(reply.value.body.error)] && reloaded
        && csvHref == old(csvHref) && videoHref == old(videoHref) && loaderShown == old(loaderShown)
      ensures reply.Ok? && VerdictOf(reply.value) == KeepPolling ==>
        && alerts == old(alerts) && reloaded == old(reloaded) && loaderShown == old(loaderShown)
        && csvHref == old(csvHref) && videoHref == old(videoHref)
      ensures reply.Failed? ==> reloaded == old(reloaded) && csvHref == old(csvHref) && videoHref == old(videoHref)
      ensures table == old(table) && videoSrc == old(videoSrc)
    {
      if reply.Failed? {
        return;
      }
      var p := reply.value;
      stats := UpdateStats(stats, p.counters);
      match VerdictOf(p) {
        case Done =>
          polling := false;
          FinishAnalysis(p.body);
        case Failure =>
          polling := false;
          alerts, reloaded := alerts + ["Analysis Failed: " + Template(p.body.error)], true;
        case KeepPolling =>
      }
    }

    /** The synchronous start of `finishAnalysis`: hide the loader and point
        both download links at the files the status names. */
    method FinishAnalysis(body: App.StatusBody)
      modifies this
      ensures !loaderShown
      ensures csvHref == Some(DownloadHref(apiBase, body.csvLink))
      ensures videoHref == Some(DownloadHref(apiBase, body.videoLink))
      ensures stats == old(stats) && table == old(table) && videoSrc == old(videoSrc)
      ensures polling == old(polling) && alerts == old(alerts) && reloaded == old(reloaded)
    {
      loaderShown := false;
      csvHref := Some(DownloadHref(apiBase, body.csvLink));
      videoHref := Some(DownloadHref(apiBase, body.videoLink));
    }

    /** The rest of `finishAnalysis`, once `/traffic_report` has answered:
        a body with "data" is rendered; the empty report's `{"rows": []}`
        makes `renderTable(undefined)` clear the table and then throw, which
        is caught; a failed request leaves the table.  The video is shown
        in every case. */
    method ReportArrived(body: App.StatusBody, report: Outcome<App.Report>)
      modifies this
      ensures report.Ok? && report.value.Table? ==> table == Rendered(report.value.data)
      ensures report.Ok? && report.value.RowsOnly? ==> table == Lines([])
      ensures report.Failed? ==> table == old(table)
      ensures videoSrc == Some(DownloadHref(apiBase, body.videoLink))
      ensures loaderShown == old(loaderShown) && stats == old(stats) && csvHref == old(csvHref) && videoHref == old(videoHref)
      ensures polling == old(polling) && alerts == old(alerts) && reloaded == old(reloaded)
    {
      match report {
        case Ok(r) =>
          match r {
            case Table(_, data) => RenderTable(data);
            case RowsOnly(_) => table := Lines([]);
          }
        case Failed(_) =>
      }
      videoSrc := Some(DownloadHref(apiBase, body.videoLink));
    }

    /** `renderTable`: the "No vehicles detected" row for no rows, else one
        line per row appended in order. */
    method RenderTable(rows: seq<Row>)
      modifies this
      ensures table == Rendered(rows)
      ensures loaderShown == old(loaderShown) && stats == old(stats) && csvHref == old(csvHref) && videoHref == old(videoHref)
      ensures videoSrc == old(videoSrc) && polling == old(polling) && alerts == old(alerts) && reloaded == old(reloaded)
    {
      if |rows| == 0 {
        table := NoVehicles;
        return;
      }
      ghost var want := Rendered(rows).lines;
      var lines: seq<Line> := [];
      var i := 0;
      while i < |rows|
        invariant 0 <= i <= |rows| && lines == want[..i]
      {
        lines := lines + [Display(rows[i])];
        i := i + 1;
      }
      assert want[..i] == want;
      table := Lines(lines);
    }
  }
}
