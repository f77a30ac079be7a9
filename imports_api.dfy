/**
 * The import endpoints (`app/api/imports.py`): the upload intake with its guards, the job it
 * creates, the `ImportStarted` event and the hand-off to the worker queue; the status query;
 * and the list of recent jobs.
 */
module ImportsApi {
  import opened Base
  import opened Text
  import opened Models
  import opened WebhookService

  /** `MAX_FILE_SIZE = 500 * 1024 * 1024` bytes. */
  const MaxFileSize: nat := 500 * 1024 * 1024

  const NotCsvMessage: string := "File must be a CSV file"
  /** `MAX_FILE_SIZE / (1024*1024)` is a true division, so the limit prints as a float. */
  const TooLargeMessage: string := "File size exceeds maximum of 500.0MB"
  const EmptyFileMessage: string := "File is empty"
  const JobNotFound: string := "Import job not found"

  /** The 500 detail when handing the job to the worker fails with `cause`. */
  function DispatchFailedDetail(cause: string): string {
    "Failed to start import: " + cause
  }

  /** The `error_message` the job keeps when handing it to the worker fails with `cause`. */
  function DispatchFailedMessage(cause: string): string {
    "Failed to start import task: " + cause
  }

  /** The Celery broker: the job ids handed to `process_csv_import.delay`, oldest first. */
  class TaskQueue {
    var sent: seq<JobId>

    constructor ()
      ensures sent == []
    {
      sent := [];
    }
  }

  /** An upload that passes the three guards. */
  predicate Accepted(fileName: string, size: nat) {
    EndsWith(fileName, ".csv") && size <= MaxFileSize && size != 0
  }

  /** The intake guards, in the order `upload_csv` applies them: name, then size, then emptiness. */
  function UploadGuard(fileName: string, size: nat): (r: Option<HttpError>)
    ensures r.None? <==> Accepted(fileName, size)
    ensures !EndsWith(fileName, ".csv") ==> r == Some(HttpError(400, NotCsvMessage))
    ensures EndsWith(fileName, ".csv") && size > MaxFileSize ==> r == Some(HttpError(400, TooLargeMessage))
    ensures EndsWith(fileName, ".csv") && size == 0 ==> r == Some(HttpError(400, EmptyFileMessage))
  {
    if !EndsWith(fileName, ".csv") then Some(HttpError(400, NotCsvMessage))
    else if size > MaxFileSize then Some(HttpError(400, TooLargeMessage))
    else if size == 0 then Some(HttpError(400, EmptyFileMessage))
    else None
  }

  /** The `except` branch of the dispatch: the job turns failed with the cause as its error, committed. */
  method FailDispatch(job: ImportJob, cause: string)
    modifies job`status, job`errorMessage, job`statusLog
    ensures job.status == Failed && job.errorMessage == Some(DispatchFailedMessage(cause))
    ensures job.statusLog == old(job.statusLog) + [Failed]
  {
    job.status := Failed;
    job.errorMessage := Some(DispatchFailedMessage(cause));
    job.statusLog := job.statusLog + [Failed];
  }

  /**
   * `upload_csv`. An upload refused by the guards changes nothing. An accepted upload gets one
   * pending job, committed, then `ImportStarted`, then the dispatch. `dispatchError` is what
   * `process_csv_import.delay` raises, if anything: the job then turns failed with an error
   * message (and no completion time), and the request fails with 500. The job created is
   * returned in `job` whether or not the dispatch failed.
   */
  method UploadCsv(table: JobTable, hooks: WebhookStore, loop: Dispatcher, queue: TaskQueue,
                   fileName: string, size: nat, dispatchError: Option<string>, selectFails: bool)
    returns (job: ImportJob?, err: Option<HttpError>)
    requires table.Valid()
    modifies table, loop, queue
    ensures table.Valid()
    ensures job == null <==> UploadGuard(fileName, size).Some?
    ensures job == null ==> err == UploadGuard(fileName, size)
    ensures job == null ==> table.jobs == old(table.jobs) && loop.started == old(loop.started) && queue.sent == old(queue.sent)
    ensures job != null ==> fresh(job) && table.jobs == old(table.jobs) + [job]
    ensures job != null ==> job.id == old(table.nextId) && job.fileName == Some(fileName)
    ensures job != null ==> job.totalRecords == 0 && job.processedRecords == 0 && job.progressLog == [] && job.completionAnnounced == None
    ensures job != null ==> job.startedAt == None && job.completedAt == None
    ensures job != null ==> loop.started == old(loop.started) + Triggered(hooks, "ImportStarted", ImportStartedData(job.id, fileName), selectFails)
    ensures job != null ==> ValidHistory(job.statusLog)
    ensures job != null && dispatchError.None? ==> err.None? && queue.sent == old(queue.sent) + [job.id]
    ensures job != null && dispatchError.None? ==> job.status == Pending && job.errorMessage == None && job.statusLog == [Pending]
    ensures job != null && dispatchError.Some? ==> err == Some(HttpError(500, DispatchFailedDetail(dispatchError.value)))
    ensures job != null && dispatchError.Some? ==> queue.sent == old(queue.sent) && job.status == Failed
    ensures job != null && dispatchError.Some? ==> job.errorMessage == Some(DispatchFailedMessage(dispatchError.value))
    ensures job != null && dispatchError.Some? ==> job.statusLog == [Pending, Failed]
  {
    var refused := UploadGuard(fileName, size);
    if refused.Some? {
      return null, refused;
    }
    job := table.Add(fileName);
    TriggerWebhook(loop, hooks, "ImportStarted", ImportStartedData(job.id, fileName), selectFails);
    match dispatchError
    case None =>
      queue.sent := queue.sent + [job.id];
      err := None;
    case Some(cause) =>
      FailDispatch(job, cause);
      assert Forward(Pending, Failed);
      err := Some(HttpError(500, DispatchFailedDetail(cause)));
  }

  /** `get_import_status`: the job with that id, or 404. */
  method GetImportStatus(table: JobTable, id: JobId) returns (r: Result<ImportJob, HttpError>)
    ensures r.Ok? ==> r.value in table.jobs && r.value.id == id
    ensures r.Err? <==> forall i :: 0 <= i < |table.jobs| ==> table.jobs[i].id != id
    ensures r.Err? ==> r.error == HttpError(404, JobNotFound)
  {
    var job := table.Find(id);
    if job == null {
      return Err(HttpError(404, JobNotFound));
    }
    return Ok(job);
  }

  /** How many rows `LIMIT limit` keeps out of `n`. */
  function Limited(n: nat, limit: nat): (k: nat)
    ensures k <= n && k <= limit
    ensures k == n || k == limit
  {
    if n <= limit then n else limit
  }

  /**
   * `list_imports`: `ORDER BY created_at DESC LIMIT limit`. The result is the most recent jobs,
   * newest first; every job left out is older than every job listed. PostgreSQL refuses a
   * negative `LIMIT` and one beyond the `bigint` range, and the endpoint does not catch the
   * database error, so such a limit is answered with a 500.
   */
  method ListImports(table: JobTable, limit: int) returns (r: Result<seq<ImportJob>, HttpError>)
    requires table.Valid()
    ensures r.Err? <==> limit < 0 || limit > BigintMax
    ensures r.Err? ==> r.error == HttpError(500, InternalServerError)
    ensures r.Ok? ==> |r.value| == Limited(|table.jobs|, limit)
    ensures r.Ok? ==> forall k :: 0 <= k < |r.value| ==> r.value[k] == table.jobs[|table.jobs| - 1 - k]
    ensures r.Ok? ==> forall a, b :: 0 <= a < b < |r.value| ==> r.value[a].createdAt > r.value[b].createdAt
    ensures r.Ok? ==> forall i, k :: 0 <= i < |table.jobs| - |r.value| && 0 <= k < |r.value| ==>
                table.jobs[i].createdAt < r.value[k].createdAt
  {
    if limit < 0 || limit > BigintMax {
      return Err(HttpError(500, InternalServerError));
    }
    var n := |table.jobs|;
    var count := Limited(n, limit);
    var out := [];
    for k := 0 to count
      invariant |out| == k
      invariant forall i :: 0 <= i < k ==> out[i] == table.jobs[n - 1 - i]
    {
      out := out + [table.jobs[n - 1 - k]];
    }
    return Ok(out);
  }
}
