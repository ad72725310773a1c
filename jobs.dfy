/**
 * The Flask backend's request handling: the table of analysis jobs and its
 * status transitions, the upload check, and the mapping from requested
 * names to the files served from the output folder.
 *
 * The filesystem is a parameter: the uploaded files, and the names present
 * in the output folders. The background thread is modelled by the sequence
 * of things that happen while it runs: the progress reports made by the
 * processor and the cancel requests that reach the server in between.
 */
module Jobs {
  import opened Wrappers
  import Text
  import Processor

  /** An HTTP answer: a success carrying a value, or an error status with its message. */
  datatype Reply<T> = Ok(value: T) | HttpError(code: nat, message: string)

  datatype Status = Processing | Completed | Cancelled | Error

  /** One entry of the job table. `stopSet` is the job's stop event. */
  datatype Job = Job(status: Status, progress: int, message: string, stopSet: bool, error: Option<string>)

  const NewJob := Job(Processing, 0, "Iniciando...", false, None)
  const CancelMessage := "Cancelado por el usuario"
  const CompletedMessage := "Análisis completado exitosamente"

  // ---------------------------------------------------------------------
  // The background task, as a function of what happens while it runs
  // ---------------------------------------------------------------------

  /** What the task observes: a progress report from the processor, or a cancel request. */
  datatype TaskEvent = Progress(percent: int, text: string) | UserCancel

  /** The effect of the cancel endpoint on an existing job. */
  function Cancel(job: Job): (j: Job)
    ensures j.stopSet && j.status == Cancelled && j.message == CancelMessage
    ensures j.progress == job.progress && j.error == job.error
  {
    job.(stopSet := true, status := Cancelled, message := CancelMessage)
  }

  /**
   * The job after the events, and whether a progress report raised the
   * "Cancelled" exception (which ends the processing at that point).
   */
  function AfterEvents(job: Job, events: seq<TaskEvent>): (Job, bool)
    decreases |events|
  {
    if events == [] then (job, false)
    else match events[0]
      case UserCancel => AfterEvents(Cancel(job), events[1..])
      case Progress(p, text) =>
        if job.stopSet then (job, true)
        else AfterEvents(job.(progress := p, message := text), events[1..])
  }

  /**
   * The final entry of `run_analysis_task`. `failure` is the message of the
   * exception the processor raises on its own, if any.
   */
  function FinalJob(job: Job, events: seq<TaskEvent>, failure: Option<string>): Job {
    var (j, raised) := AfterEvents(job, events);
    if raised then j.(status := Cancelled)
    else match failure
      case Some(e) =>
        if e == "Cancelled" then j.(status := Cancelled)
        else j.(status := Error, error := Some(e), message := "Error: " + e)
      case None => j.(status := Completed, progress := 100, message := CompletedMessage)
  }

  /** The task ends in exactly one of the three final states, each with its own fields. */
  lemma FinalJobOutcome(job: Job, events: seq<TaskEvent>, failure: Option<string>)
    ensures var f := FinalJob(job, events, failure);
            && f.status != Processing
            && (f.status == Completed ==> f.progress == 100 && f.message == CompletedMessage)
            && (f.status == Error ==> failure.Some? && f.error == failure && f.message == "Error: " + failure.value)
            && (f.status == Completed <==> failure == None && !AfterEvents(job, events).1)
            && (f.status == Cancelled <==> AfterEvents(job, events).1 || failure == Some("Cancelled"))
            && (f.status == Error <==> !AfterEvents(job, events).1 && failure.Some? && failure.value != "Cancelled")
            && (f.status == Cancelled ==> f.progress == AfterEvents(job, events).0.progress
                                          && f.message == AfterEvents(job, events).0.message
                                          && f.error == AfterEvents(job, events).0.error)
  {
  }

  /** Once the stop event is set, progress reports change nothing: the first one raises. */
  lemma {:induction false} StoppedJobIgnoresProgress(job: Job, events: seq<TaskEvent>)
    requires job.stopSet
    requires exists k :: 0 <= k < |events| && events[k].Progress?
    ensures AfterEvents(job, events).1
    ensures AfterEvents(job, events).0.progress == job.progress
    ensures AfterEvents(job, events).0.status == Cancelled || AfterEvents(job, events).0 == job
    decreases |events|
  {
    match events[0]
    case Progress(_, _) =>
    case UserCancel =>
      var k :| 0 <= k < |events| && events[k].Progress?;
      assert events[1..][k - 1] == events[k];
      StoppedJobIgnoresProgress(Cancel(job), events[1..]);
  }

  /** A cancel followed by a progress report always ends the task as cancelled, with the progress of that moment. */
  lemma {:induction false} CancelThenProgressEndsCancelled(job: Job, before: seq<TaskEvent>, after: seq<TaskEvent>,
                                                           p: int, text: string, failure: Option<string>)
    requires forall k :: 0 <= k < |before| ==> before[k].Progress?
    requires !job.stopSet
    ensures var f := FinalJob(job, before + [UserCancel, Progress(p, text)] + after, failure);
            f.status == Cancelled && f.stopSet && f.progress == AfterEvents(job, before).0.progress
    decreases |before|
  {
    if before == [] {
      var evs := [UserCancel, Progress(p, text)] + after;
      assert [] + [UserCancel, Progress(p, text)] + after == evs;
      assert evs[0] == UserCancel && evs[1..][0] == Progress(p, text);
      assert AfterEvents(job, evs) == AfterEvents(Cancel(job), evs[1..]);
      assert AfterEvents(Cancel(job), evs[1..]) == (Cancel(job), true);
    } else {
      var rest := before[1..] + [UserCancel, Progress(p, text)] + after;
      assert (before + [UserCancel, Progress(p, text)] + after)[0] == before[0];
      assert (before + [UserCancel, Progress(p, text)] + after)[1..] == rest;
      var next := job.(progress := before[0].percent, message := before[0].text);
      CancelThenProgressEndsCancelled(next, before[1..], after, p, text, failure);
    }
  }

  /** A cancel that arrives after the last progress report is overwritten: the job still ends completed. */
  lemma LateCancelIsOverwritten(job: Job)
    requires !job.stopSet
    ensures FinalJob(job, [UserCancel], None).status == Completed
    ensures FinalJob(job, [UserCancel], None).stopSet
  {
  }

  // ---------------------------------------------------------------------
  // The job table
  // ---------------------------------------------------------------------

  class JobTable {
    var jobs: map<string, Job>

    constructor()
      ensures jobs == map[]
    {
      jobs := map[];
    }

    /** `start_analysis`: refuses an empty upload folder, otherwise registers the job under `analysisId`. */
    method StartAnalysis(uploadedFiles: seq<string>, analysisId: string) returns (r: Reply<string>)
      modifies this`jobs
      ensures uploadedFiles == [] ==> r == HttpError(400, "No files to analyze") && jobs == old(jobs)
      ensures uploadedFiles != [] ==> r == Ok(analysisId) && jobs == old(jobs)[analysisId := NewJob]
      ensures uploadedFiles != [] && analysisId !in old(jobs) ==> |jobs| == |old(jobs)| + 1
    {
      if uploadedFiles == [] {
        return HttpError(400, "No files to analyze");
      }
      jobs := jobs[analysisId := NewJob];
      return Ok(analysisId);
    }

    /** `get_status`: the entry, or 404 for an unknown id. */
    method GetStatus(analysisId: string) returns (r: Reply<Job>)
      ensures r.Ok? <==> analysisId in jobs
      ensures r.Ok? ==> r.value == jobs[analysisId]
      ensures r.HttpError? ==> r == HttpError(404, "Analysis ID not found")
    {
      if analysisId !in jobs {
        return HttpError(404, "Analysis ID not found");
      }
      return Ok(jobs[analysisId]);
    }

    /** `cancel_analysis`: sets the stop event and marks the job cancelled; 404 for an unknown id. */
    method CancelAnalysis(analysisId: string) returns (r: Reply<()>)
      modifies this`jobs
      ensures analysisId in old(jobs) ==> r == Ok(()) && jobs == old(jobs)[analysisId := Cancel(old(jobs)[analysisId])]
      ensures analysisId !in old(jobs) ==> r == HttpError(404, "Job not found") && jobs == old(jobs)
    {
      if analysisId in jobs {
        var job := jobs[analysisId];
        jobs := jobs[analysisId := job.(stopSet := true, status := Cancelled, message := CancelMessage)];
        return Ok(());
      }
      return HttpError(404, "Job not found");
    }

    /** `update_progress`: raises when the stop event is set, otherwise records the report. */
    method UpdateProgress(analysisId: string, percent: int, text: string) returns (raised: bool)
      requires analysisId in jobs
      modifies this`jobs
      ensures raised == old(jobs)[analysisId].stopSet
      ensures raised ==> jobs == old(jobs)
      ensures !raised ==> jobs == old(jobs)[analysisId := old(jobs)[analysisId].(progress := percent, message := text)]
    {
      if jobs[analysisId].stopSet {
        return true;
      }
      var job := jobs[analysisId];
      jobs := jobs[analysisId := job.(progress := percent)];
      jobs := jobs[analysisId := jobs[analysisId].(message := text)];
      return false;
    }

    /** `run_analysis_task`, run to its end over the events it observes. */
    method RunAnalysisTask(analysisId: string, events: seq<TaskEvent>, failure: Option<string>)
      requires analysisId in jobs
      modifies this`jobs
      ensures jobs == old(jobs)[analysisId := FinalJob(old(jobs)[analysisId], events, failure)]
    {
      var i := 0;
      var raised := false;
      while i < |events| && !raised
        invariant 0 <= i <= |events|
        invariant analysisId in jobs
        invariant jobs == old(jobs)[analysisId := jobs[analysisId]]
        invariant !raised ==> AfterEvents(jobs[analysisId], events[i..]) == AfterEvents(old(jobs)[analysisId], events)
        invariant raised ==> AfterEvents(old(jobs)[analysisId], events) == (jobs[analysisId], true)
        decreases |events| - i, !raised
      {
        assert events[i..][0] == events[i] && events[i..][1..] == events[i + 1..];
        match events[i]
        case UserCancel =>
          var _ := CancelAnalysis(analysisId);
          i := i + 1;
        case Progress(p, text) =>
          raised := UpdateProgress(analysisId, p, text);
          if !raised {
            i := i + 1;
          }
      }
      if !raised {
        assert events[i..] == [];
      }
      var job := jobs[analysisId];
      if raised {
        jobs := jobs[analysisId := job.(status := Cancelled)];
      } else if failure.Some? {
        var e := failure.value;
        if e == "Cancelled" {
          jobs := jobs[analysisId := job.(status := Cancelled)];
        } else {
          jobs := jobs[analysisId := job.(status := Error, error := Some(e), message := "Error: " + e)];
        }
      } else {
        jobs := jobs[analysisId := job.(status := Completed, progress := 100, message := CompletedMessage)];
      }
    }
  }

  // ---------------------------------------------------------------------
  // Uploads and the names of the served files
  // ---------------------------------------------------------------------

  const AllowedExtensions := {".avi", ".dcm", ".dicom"}

  /** `upload_file`: the three checks, in order; on success the stored name. */
  function UploadFile(hasFilePart: bool, filename: string): (r: Reply<string>)
    ensures r.Ok? <==> hasFilePart && filename != "" && Text.Lower(Text.Ext(filename)) in AllowedExtensions
    ensures r.Ok? ==> r.value == filename
    ensures !hasFilePart ==> r == HttpError(400, "No file part")
    ensures hasFilePart && filename == "" ==> r == HttpError(400, "No selected file")
    ensures r.HttpError? ==> r.code == 400
  {
    if !hasFilePart then HttpError(400, "No file part")
    else if filename == "" then HttpError(400, "No selected file")
    else if Text.Lower(Text.Ext(filename)) !in AllowedExtensions then
      HttpError(400, "Formato no soportado. Use .avi, .dcm o .dicom")
    else Ok(filename)
  }

  lemma LowerSuffix(s: string, n: nat)
    requires n <= |s|
    ensures Text.Lower(s)[|s| - n..] == Text.Lower(s[|s| - n..])
  {
  }

  /** Every accepted upload is a file the processor stages (given a successful conversion for DICOM). */
  lemma AcceptedUploadIsStageable(filename: string)
    requires UploadFile(true, filename).Ok?
    ensures Processor.IsDicomFile(filename) || Processor.IsAviFile(filename)
  {
    var ext := Text.Ext(filename);
    var lower := Text.Lower(filename);
    assert filename == Text.Root(filename) + ext;
    assert filename[|filename| - |ext|..] == ext;
    LowerSuffix(filename, |ext|);
    var suffix := Text.Lower(ext);
    assert |suffix| == |ext|;
    assert Text.EndsWith(lower, suffix);
    AllowedExtension(suffix);
  }

  lemma AllowedExtension(suffix: string)
    requires suffix in AllowedExtensions
    ensures suffix == ".avi" || suffix == ".dcm" || suffix == ".dicom"
  {
  }

  /** The converse fails: a file named ".avi" has no extension for `splitext`, yet the processor would read it. */
  lemma HiddenAviIsRejected()
    ensures UploadFile(true, ".avi").HttpError?
    ensures Processor.IsAviFile(".avi")
  {
    assert Text.LastIndexOf(".avi", '.') == 0;
    assert Text.Ext(".avi") == "";
  }

  /**
   * `get_video`: the exact name when it is in the video folder, else its root
   * with ".mp4" when that is, else nothing (404).
   */
  function VideoToServe(filename: string, videoFolder: set<string>): (r: Option<string>)
    ensures r.Some? ==> r.value in videoFolder
    ensures r == Some(filename) <==> filename in videoFolder
    ensures filename !in videoFolder ==> r == (if Text.Root(filename) + ".mp4" in videoFolder then Some(Text.Root(filename) + ".mp4") else None)
  {
    if filename in videoFolder then Some(filename)
    else
      var mp4Name := Text.Root(filename) + ".mp4";
      if mp4Name in videoFolder then Some(mp4Name) else None
  }

  /** The name `get_plot` looks up in the size folder. */
  function PlotName(filename: string): string {
    Text.Root(filename) + ".pdf"
  }

  /**
   * The processor names the plot of a converted "x.dcm" after its staged video
   * "x.avi"; asking for the plot by either name finds the same "x.pdf".
   */
  lemma PlotNameIgnoresVideoExtension(stem: string)
    requires Text.HasNamedComponent(stem)
    ensures PlotName(stem + ".dcm") == stem + ".pdf"
    ensures PlotName(stem + ".avi") == stem + ".pdf"
    ensures PlotName(stem + ".dicom") == stem + ".pdf"
  {
    Text.SplitExtOfAppended(stem, ".dcm");
    Text.SplitExtOfAppended(stem, ".avi");
    Text.SplitExtOfAppended(stem, ".dicom");
  }

  /** The same fallback for videos: a request for "x.avi" finds "x.mp4" when only that exists. */
  lemma VideoFallsBackToMp4(stem: string, videoFolder: set<string>)
    requires Text.HasNamedComponent(stem)
    requires stem + ".avi" !in videoFolder && stem + ".mp4" in videoFolder
    ensures VideoToServe(stem + ".avi", videoFolder) == Some(stem + ".mp4")
  {
    Text.SplitExtOfAppended(stem, ".avi");
  }

  /**
   * `get_csv`: the file name for a CSV type; "" for an unknown type, which
   * makes the joined path the output folder itself.
   */
  function CsvFileName(csvType: string): (name: string)
    ensures name == "classification_results.csv" <==> csvType == "ef" || csvType == "classification"
    ensures name == "size.csv" <==> csvType == "size"
    ensures name == "" <==> csvType !in {"ef", "size", "classification"}
  {
    if csvType == "ef" then "classification_results.csv"
    else if csvType == "size" then "size.csv"
    else if csvType == "classification" then "classification_results.csv"
    else ""
  }
}
