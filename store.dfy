/**
 * The in-memory job store: the globals `jobs_data` and `last_updated` of app.py, the
 * loader that replaces them (app.py:55-87) and the alert computation that reads them
 * (app.py:385-426).
 */
module Store {
  import opened Options
  import opened Text
  import opened Seqs
  import opened Jobs
  import opened Alerts

  /** The job one sheet row becomes: normalised, then given its derived fields (app.py:69-78). */
  function LoadRow(row: Row, index: nat, now: int, parse: string -> Option<int>): Job {
    ProcessJobData(NormalizeRow(row, index, now), parse)
  }

  function RowLoader(now: int, parse: string -> Option<int>): (Row, nat) -> Job {
    (row: Row, index: nat) => LoadRow(row, index, now, parse)
  }

  /** A job list as the loader leaves it: derived fields consistent, cells trimmed, ids by position. */
  ghost predicate WellFormed(jobs: seq<Job>) {
    forall i :: 0 <= i < |jobs| ==>
      Derived(jobs[i]) && FieldsTrimmed(FieldsOf(jobs[i])) && jobs[i].id.index == i
  }

  /** Every row the loader turns into a job satisfies the store's invariant. */
  lemma LoadRowWellFormed(row: Row, i: nat, now: int, parse: string -> Option<int>)
    ensures var j := LoadRow(row, i, now, parse);
      Derived(j) && FieldsTrimmed(FieldsOf(j)) && j.id.index == i
  {
    NormalizeRowFields(row, i, now);
  }

  /** The list a successful load builds, one job per row, is well formed. */
  lemma LoadedWellFormed(rows: seq<Row>, jobs: seq<Job>, now: int, parse: string -> Option<int>)
    requires |jobs| == |rows|
    requires forall k :: 0 <= k < |jobs| ==> jobs[k] == LoadRow(rows[k], k, now, parse)
    ensures WellFormed(jobs)
  {
    forall k | 0 <= k < |jobs|
      ensures Derived(jobs[k]) && FieldsTrimmed(FieldsOf(jobs[k])) && jobs[k].id.index == k
    {
      LoadRowWellFormed(rows[k], k, now, parse);
    }
  }

  /** In a well-formed list no two jobs share an id, even when their names are equal. */
  lemma IdsDistinct(jobs: seq<Job>)
    requires WellFormed(jobs)
    ensures forall i, k :: 0 <= i < k < |jobs| ==> jobs[i].id != jobs[k].id
  {
    forall i, k | 0 <= i < k < |jobs|
      ensures jobs[i].id != jobs[k].id
    {
      assert jobs[i].id.index == i && jobs[k].id.index == k;
    }
  }

  class JobStore {
    /** `jobs_data`: the jobs of the last load, in sheet order. */
    var jobsData: seq<Job>
    /** `last_updated`: when the last load finished, `None` before the first. */
    var lastUpdated: Option<int>

    ghost predicate Valid()
      reads this
    {
      WellFormed(jobsData)
    }

    /** The module-level initial values `jobs_data = []` and `last_updated = None` (app.py:51-52). */
    constructor ()
      ensures Valid() && jobsData == [] && lastUpdated == None
    {
      jobsData := [];
      lastUpdated := None;
    }

    /**
     * `load_jobs_from_excel`: `source` is the sheet's rows, or `None` when the file is
     * missing or reading it raised. Either way the old list is discarded and the load time
     * recorded; on success there is one job per row, in row order.
     */
    method Load(source: Option<seq<Row>>, now: int, parse: string -> Option<int>)
      modifies this
      ensures Valid()
      ensures lastUpdated == Some(now)
      ensures source.None? ==> jobsData == []
      ensures source.Some? ==>
        |jobsData| == |source.value| &&
        forall i :: 0 <= i < |jobsData| ==> jobsData[i] == LoadRow(source.value[i], i, now, parse)
    {
      if source.None? {
        jobsData := [];
        lastUpdated := Some(now);
        return;
      }
      var rows := source.value;
      var jobs: seq<Job> := [];
      var i := 0;
      while i < |rows|
        invariant 0 <= i <= |rows|
        invariant jobs == MapIndexed(rows, i, RowLoader(now, parse))
      {
        jobs := jobs + [LoadRow(rows[i], i, now, parse)];
        i := i + 1;
      }
      MapIndexedAt(rows, i, RowLoader(now, parse));
      LoadedWellFormed(rows, jobs, now, parse);
      jobsData := jobs;
      lastUpdated := Some(now);
    }

    /**
     * The loop of `get_alerts` that collects the long-running jobs (app.py:394-400). Under
     * the store's invariant none of them has an end time, so none is also a delayed job.
     */
    method LongRunningJobs(now: int) returns (longRunning: seq<Job>)
      ensures longRunning == Filter(jobsData, LongRunningPred(now))
      ensures Valid() ==> forall j :: j in longRunning ==>
        j.endTimeParsed.None? && j !in Filter(jobsData, HasStatus(Delayed))
    {
      longRunning := [];
      var i := 0;
      while i < |jobsData|
        invariant 0 <= i <= |jobsData|
        invariant longRunning == Filter(jobsData[..i], LongRunningPred(now))
      {
        var job := jobsData[i];
        if job.status == Running && job.startTimeParsed.Some? {
          var runningTime := now - job.startTimeParsed.value;
          if runningTime > LONG_RUNNING_SECONDS {
            longRunning := longRunning + [job];
          }
        }
        FilterSnoc(jobsData[..i], job, LongRunningPred(now));
        TakeSnoc(jobsData, i);
        i := i + 1;
      }
      assert jobsData[..i] == jobsData;
      if Valid() {
        LongRunningListNotDelayed(jobsData, now);
      }
    }

    /**
     * `get_alerts`: the delayed and failed jobs by comprehension, the long-running jobs
     * by a loop over the store, then up to three alerts in a fixed order.
     */
    method GetAlerts(now: int) returns (report: AlertReport)
      ensures report == AlertReport(AlertsFor(jobsData, now), now)
    {
      var delayed := Filter(jobsData, HasStatus(Delayed));
      var failed := Filter(jobsData, HasStatus(Failed));
      var longRunning := LongRunningJobs(now);
      var alerts: seq<Alert> := [];
      if delayed != [] {
        alerts := alerts + [Alert("warning", NatToString(|delayed|) + DELAYED_SUFFIX, Names(delayed), "medium")];
      }
      assert alerts == DelayedAlert(jobsData);
      if failed != [] {
        alerts := alerts + [Alert("error", NatToString(|failed|) + FAILED_SUFFIX, Names(failed), "high")];
      }
      assert alerts == DelayedAlert(jobsData) + FailedAlert(jobsData);
      if longRunning != [] {
        alerts := alerts + [Alert("info", NatToString(|longRunning|) + LONG_RUNNING_SUFFIX, Names(longRunning), "low")];
      }
      assert alerts == DelayedAlert(jobsData) + FailedAlert(jobsData) + LongRunningAlert(jobsData, now);
      report := AlertReport(alerts, now);
    }
  }
}
