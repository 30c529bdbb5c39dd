/** The one sync run that may be in flight, its error list, and the history of finished runs. */
module SyncManager {
  import opened Bytes

  const MAX_RECORDED_ERRORS: nat := 100
  const HISTORY_LIMIT: nat := 10

  datatype Status = Running | Completed | Failed | Cancelled

  /** How a run that came to its end is judged. */
  function Judged(fatal: Option<Text>, cancelled: bool, failed: nat): Status {
    if fatal.Some? then Failed else if cancelled then Cancelled else if failed > 0 then Failed else Completed
  }

  datatype RecordedError = RecordedError(key: Text, message: Text)

  function FirstOf<T>(s: seq<T>, n: nat): seq<T> {
    if |s| <= n then s else s[..n]
  }

  class SyncProgress {
    var failed: nat
    var current: Option<Text>
    var errors: seq<RecordedError>
    var errorsTruncated: bool
    /** Every failure there was. */
    ghost var failures: seq<RecordedError>

    /** Every failure counts; the first hundred are kept, and the flag says when there were more. */
    ghost predicate Valid()
      reads this
    {
      && failed == |failures|
      && errors == (if |failures| <= 100 then failures else failures[..100])
      && (errorsTruncated <==> |failures| > 100)
    }

    constructor ()
      ensures Valid() && failures == [] && current == None
    {
      failed, current, errors, errorsTruncated := 0, None, [], false;
      failures := [];
    }

    method SetCurrent(key: Option<Text>)
      requires Valid()
      modifies this`current
      ensures Valid() && current == key
    {
      current := key;
    }

    method RecordError(key: Text, message: Text)
      requires Valid()
      modifies this`failed, this`errors, this`errorsTruncated, this`failures
      ensures Valid()
      ensures failures == old(failures) + [RecordedError(key, message)]
    {
      failed := failed + 1;
      if |errors| < MAX_RECORDED_ERRORS {
        errors := errors + [RecordedError(key, message)];
      } else {
        errorsTruncated := true;
      }
      failures := failures + [RecordedError(key, message)];
    }
  }

  /** What the history keeps of a run. */
  datatype Snapshot = Snapshot(id: Text, status: Status, fatal: Option<Text>, failed: nat, errors: seq<RecordedError>, errorsTruncated: bool)

  class SyncJob {
    const id: Text
    const progress: SyncProgress
    var status: Status
    var fatal: Option<Text>
    var cancelled: bool

    constructor (id: Text)
      ensures this.id == id && status == Running && fatal == None && !cancelled
      ensures fresh(progress) && progress.Valid()
    {
      this.id := id;
      progress := new SyncProgress();
      status, fatal, cancelled := Running, None, false;
    }

    method RequestCancel()
      modifies this`cancelled
      ensures cancelled
    {
      cancelled := true;
    }

    function ToSnapshot(): Snapshot
      reads this, progress
    {
      Snapshot(id, status, fatal, progress.failed, progress.errors, progress.errorsTruncated)
    }
  }

  datatype Started = Ok(job: SyncJob) | Busy(job: SyncJob)

  class Manager {
    var active: Option<SyncJob>
    var history: seq<Snapshot>
    /** Every job that was ever started, and the final snapshot of every one that finished, latest first. */
    ghost var jobs: set<SyncJob>
    ghost var finished: seq<Snapshot>

    /** Only the active job can be running; the history is the latest ten of the finished ones. */
    ghost predicate Valid()
      reads this, jobs
    {
      && (active.Some? ==> active.value in jobs)
      && (forall j | j in jobs && j.status.Running? :: active == Some(j))
      && history == (if |finished| <= 10 then finished else finished[..10])
    }

    constructor ()
      ensures Valid() && active == None && history == [] && jobs == {} && finished == []
    {
      active, history, jobs, finished := None, [], {}, [];
    }

    /** A run is refused while another is running, and only then. */
    method TryStart(id: Text) returns (r: Started)
      requires Valid()
      modifies this`active, this`jobs
      ensures Valid()
      ensures r.Busy? <==> exists j :: j in old(jobs) && old(j.status.Running?)
      ensures r.Busy? ==> active == old(active) == Some(r.job) && r.job.status.Running? && jobs == old(jobs)
      ensures r.Ok? ==> fresh(r.job) && fresh(r.job.progress) && r.job.id == id && r.job.status.Running? && r.job.progress.Valid()
      ensures r.Ok? ==> active == Some(r.job) && jobs == old(jobs) + {r.job}
    {
      if active.Some? && active.value.status.Running? {
        return Busy(active.value);
      }
      var job := new SyncJob(id);
      active := Some(job);
      jobs := jobs + {job};
      r := Ok(job);
    }

    /** A finished run frees the slot and goes to the front of the history. */
    method Finish(job: SyncJob, status: Status, fatal: Option<Text>)
      requires Valid() && job in jobs && job.status.Running? && !status.Running? && job.progress.Valid()
      modifies this`history, this`finished, job`status, job`fatal, job.progress`current
      ensures Valid()
      ensures job.status == status && job.fatal == fatal && job.progress.current == None && job.progress.Valid()
      ensures finished == [job.ToSnapshot()] + old(finished)
      ensures forall j | j in jobs :: !j.status.Running?
    {
      job.status, job.fatal := status, fatal;
      job.progress.SetCurrent(None);
      LatestOfPushed(job.ToSnapshot(), finished);
      history := FirstOf([job.ToSnapshot()] + history, HISTORY_LIMIT);
      finished := [job.ToSnapshot()] + finished;
    }
  }

  /** Keeping the latest ten at every step keeps the latest ten of all. */
  lemma LatestOfPushed(x: Snapshot, s: seq<Snapshot>)
    ensures FirstOf([x] + FirstOf(s, 10), 10) == FirstOf([x] + s, 10)
  {
    if |s| > 10 {
      assert ([x] + s[..10])[..10] == ([x] + s)[..10];
    }
  }
}
