/**
 * The job store: the `jobs` and `job_runs` tables as maps from id to row,
 * the AUTOINCREMENT sequences of both tables, and the clock that
 * `datetime('now')` reads. Foreign keys are enforced, so deleting a job
 * cascades to its runs and a run can only be created for an existing job.
 */
module RunStore {
  import opened JsBuiltins
  import opened Types

  /** A row of `jobs`; `cron` is SQL NULL when `None`. */
  datatype JobRow = JobRow(
    id: int,
    worktreePath: string,
    name: string,
    command: string,
    cron: Option<string>,
    status: JobStatus,
    lastRun: Option<Time>,
    nextRun: Option<Time>,
    createdAt: Time,
    updatedAt: Time)

  /** A row of `job_runs`. */
  datatype JobRunRow = JobRunRow(
    id: int,
    jobId: int,
    startedAt: Time,
    finishedAt: Option<Time>,
    exitCode: Option<int>,
    stdout: string,
    stderr: string,
    status: RunStatus)

  /** The fields `updateJob` may change; a field is left alone when `None`. */
  datatype JobPatch = JobPatch(status: Option<JobStatus>, lastRun: Option<Time>, nextRun: Option<Time>)

  /** The fields `updateJobRun` may change; a field is left alone when `None`. */
  datatype RunPatch = RunPatch(stdout: Option<string>, stderr: Option<string>, exitCode: Option<int>, status: Option<RunStatus>) {
    /** At least one field is given, so that the UPDATE statement has a SET clause. */
    predicate HasField() {
      stdout.Some? || stderr.Some? || exitCode.Some? || status.Some?
    }
  }

  /** A job as read from its row: an empty cron reads as no cron; every other column is carried over. */
  function RowToJob(row: JobRow): (job: Job)
    ensures job.cron != Some("")
    ensures Truthy(row.cron) ==> job.cron == row.cron
    ensures JobToRow(job) == row.(cron := job.cron)
  {
    Job(row.id, row.worktreePath, row.name, row.command,
        if Truthy(row.cron) then row.cron else None,
        row.status, row.lastRun, row.nextRun, row.createdAt, row.updatedAt)
  }

  /** The row a job is stored as: a missing or empty cron is stored as NULL. */
  function JobToRow(job: Job): (row: JobRow)
    ensures row.cron != Some("")
  {
    JobRow(job.id, job.worktreePath, job.name, job.command,
           if Truthy(job.cron) then job.cron else None,
           job.status, job.lastRun, job.nextRun, job.createdAt, job.updatedAt)
  }

  /** Reading and writing back a job row loses nothing, for every row the store can hold. */
  lemma JobRowRoundTrip(row: JobRow, job: Job)
    requires row.cron != Some("") && job.cron != Some("")
    ensures JobToRow(RowToJob(row)) == row
    ensures RowToJob(JobToRow(job)) == job
  {
  }

  /** A run as read from its row: a NULL exit code or finish time reads as `undefined`. */
  function RowToJobRun(row: JobRunRow): (run: JobRun)
    ensures JobRunToRow(run) == row
  {
    JobRun(row.id, row.jobId, row.startedAt, row.finishedAt, row.exitCode, row.stdout, row.stderr, row.status)
  }

  /** The row a run is stored as. */
  function JobRunToRow(run: JobRun): JobRunRow {
    JobRunRow(run.id, run.jobId, run.startedAt, run.finishedAt, run.exitCode, run.stdout, run.stderr, run.status)
  }

  /** Reading a run row back after writing it gives the same run. */
  lemma JobRunRowRoundTrip(run: JobRun)
    ensures RowToJobRun(JobRunToRow(run)) == run
  {
  }

  /** The row after `updateJob`: the given fields are set, updated_at is refreshed, nothing else changes. */
  function Patched(row: JobRow, updates: JobPatch, now: Time): (r: JobRow)
    ensures r.(status := row.status, lastRun := row.lastRun, nextRun := row.nextRun, updatedAt := row.updatedAt) == row
    ensures r.updatedAt == now
    ensures r.status == (if updates.status.Some? then updates.status.value else row.status)
    ensures r.lastRun == (if updates.lastRun.Some? then updates.lastRun else row.lastRun)
    ensures r.nextRun == (if updates.nextRun.Some? then updates.nextRun else row.nextRun)
  {
    row.(updatedAt := now,
         status := updates.status.GetOr(row.status),
         lastRun := if updates.lastRun.Some? then updates.lastRun else row.lastRun,
         nextRun := if updates.nextRun.Some? then updates.nextRun else row.nextRun)
  }

  /**
   * The row after `updateJobRun`: the given fields are set, and finished_at is
   * stamped exactly when a status other than running is given.
   */
  function RunPatched(row: JobRunRow, updates: RunPatch, now: Time): (r: JobRunRow)
    ensures r.(stdout := row.stdout, stderr := row.stderr, exitCode := row.exitCode,
               status := row.status, finishedAt := row.finishedAt) == row
    ensures r.stdout == updates.stdout.GetOr(row.stdout) && r.stderr == updates.stderr.GetOr(row.stderr)
    ensures r.exitCode == (if updates.exitCode.Some? then updates.exitCode else row.exitCode)
    ensures r.status == updates.status.GetOr(row.status)
    ensures r.finishedAt == (if updates.status.Some? && updates.status.value != RunRunning then Some(now) else row.finishedAt)
  {
    var stamped := updates.status.Some? && updates.status.value != RunRunning;
    row.(stdout := updates.stdout.GetOr(row.stdout),
         stderr := updates.stderr.GetOr(row.stderr),
         exitCode := if updates.exitCode.Some? then updates.exitCode else row.exitCode,
         status := updates.status.GetOr(row.status),
         finishedAt := if stamped then Some(now) else row.finishedAt)
  }

  /** Runs in decreasing id order: a prefix holds every run newer than one it leaves out. */
  lemma PrefixKeepsNewest(all: seq<JobRun>, n: nat)
    requires n <= |all|
    requires forall a, b :: 0 <= a < b < |all| ==> all[a].id > all[b].id
    ensures forall x :: x in all && x !in all[..n] ==> n < |all| && forall k :: 0 <= k < n ==> all[k].id > x.id
  {
    forall x | x in all && x !in all[..n]
      ensures n < |all| && forall k :: 0 <= k < n ==> all[k].id > x.id
    {
      var p :| 0 <= p < |all| && all[p] == x;
      assert forall k :: 0 <= k < n ==> all[..n][k] == all[k];
      assert p >= n;
    }
  }

  /** `listJobs(worktreePath)` keeps a row when no non-empty path is given or the row has that path. */
  predicate Selected(row: JobRow, worktreePath: Option<string>) {
    !Truthy(worktreePath) || row.worktreePath == worktreePath.value
  }

  class Database {
    var jobs: map<int, JobRow>
    var runs: map<int, JobRunRow>
    /** The AUTOINCREMENT sequences: the largest id each table has ever handed out. */
    var jobSeq: int
    var runSeq: int
    /** What `datetime('now')` reads. */
    var clock: Time

    /**
     * Rows are keyed by their ids, which never exceed the sequences; every run
     * belongs to an existing job; nothing is stamped after the clock; and since
     * ids and the clock only grow, a later id never has an earlier creation
     * or start time.
     */
    ghost predicate Valid()
      reads this
    {
      && 0 <= jobSeq && 0 <= runSeq
      && (forall id :: id in jobs ==>
            1 <= id <= jobSeq && jobs[id].id == id && jobs[id].cron != Some("") && jobs[id].createdAt <= clock)
      && (forall id :: id in runs ==>
            1 <= id <= runSeq && runs[id].id == id && runs[id].jobId in jobs && runs[id].startedAt <= clock)
      && (forall a, b :: a in jobs && b in jobs && a < b ==> jobs[a].createdAt <= jobs[b].createdAt)
      && (forall a, b :: a in runs && b in runs && a < b ==> runs[a].startedAt <= runs[b].startedAt)
    }

    constructor(now: Time)
      ensures Valid()
      ensures jobs == map[] && runs == map[] && jobSeq == 0 && runSeq == 0 && clock == now
    {
      jobs, runs := map[], map[];
      jobSeq, runSeq := 0, 0;
      clock := now;
    }

    /** Time passes. */
    method AdvanceClock(now: Time)
      requires Valid() && clock <= now
      modifies this
      ensures Valid()
      ensures clock == now
      ensures jobs == old(jobs) && runs == old(runs) && jobSeq == old(jobSeq) && runSeq == old(runSeq)
    {
      clock := now;
    }

    method CreateJob(worktreePath: string, name: string, command: string, cron: Option<string>) returns (job: Job)
      requires Valid()
      modifies this
      ensures Valid()
      ensures job.id == old(jobSeq) + 1 == jobSeq
      ensures forall id :: id in old(jobs) ==> id < job.id
      ensures job.status == (if Truthy(cron) then Scheduled else Pending)
      ensures job.cron == (if Truthy(cron) then cron else None)
      ensures job.lastRun == None && job.nextRun == None && job.createdAt == job.updatedAt == clock
      ensures job.worktreePath == worktreePath && job.name == name && job.command == command
      ensures jobs == old(jobs)[job.id := JobToRow(job)]
      ensures runs == old(runs) && runSeq == old(runSeq) && clock == old(clock)
    {
      var status := if Truthy(cron) then Scheduled else Pending;
      jobSeq := jobSeq + 1;
      var row := JobRow(jobSeq, worktreePath, name, command, if Truthy(cron) then cron else None,
                        status, None, None, clock, clock);
      jobs := jobs[jobSeq := row];
      job := RowToJob(row);
    }

    function GetJob(id: int): (r: Option<Job>)
      reads this
      ensures r.Some? <==> id in jobs
      ensures r.Some? ==> JobToRow(r.value) == jobs[id].(cron := r.value.cron)
    {
      if id in jobs then Some(RowToJob(jobs[id])) else None
    }

    /** The selected jobs with ids at most `n`, in decreasing id order. */
    function JobsUpTo(n: int, worktreePath: Option<string>): (r: seq<Job>)
      requires Valid()
      reads this
      ensures forall j :: j in r <==>
        exists id :: id in jobs && id <= n && Selected(jobs[id], worktreePath) && j == RowToJob(jobs[id])
      ensures forall k :: 0 <= k < |r| ==> r[k].id in jobs && r[k].id <= n && r[k] == RowToJob(jobs[r[k].id])
      ensures forall a, b :: 0 <= a < b < |r| ==> r[a].id > r[b].id
      decreases n
    {
      if n <= 0 then []
      else (if n in jobs && Selected(jobs[n], worktreePath) then [RowToJob(jobs[n])] else []) + JobsUpTo(n - 1, worktreePath)
    }

    /**
     * `listJobs(worktreePath)`: exactly the jobs with that path when a
     * non-empty path is given, all jobs otherwise, newest first.
     */
    function ListJobs(worktreePath: Option<string>): (r: seq<Job>)
      requires Valid()
      reads this
      ensures forall j :: j in r <==>
        exists id :: id in jobs && Selected(jobs[id], worktreePath) && j == RowToJob(jobs[id])
      ensures forall a, b :: 0 <= a < b < |r| ==> r[a].createdAt >= r[b].createdAt && r[a].id > r[b].id
    {
      JobsUpTo(jobSeq, worktreePath)
    }

    method UpdateJob(id: int, updates: JobPatch) returns (job: Option<Job>)
      requires Valid()
      modifies this
      ensures Valid()
      ensures jobs == if id in old(jobs) then old(jobs)[id := Patched(old(jobs)[id], updates, clock)] else old(jobs)
      ensures runs == old(runs) && jobSeq == old(jobSeq) && runSeq == old(runSeq) && clock == old(clock)
      ensures job == GetJob(id)
    {
      if id in jobs {
        var row := PatchJobRow(jobs[id], updates, clock);
        jobs := jobs[id := row];
      }
      job := GetJob(id);
    }

    /** The SET clauses of `updateJob`, applied to the row: `updated_at` always, then each field given. */
    static method PatchJobRow(row: JobRow, updates: JobPatch, now: Time) returns (r: JobRow)
      ensures r == Patched(row, updates, now)
    {
      r := row.(updatedAt := now);
      if updates.status.Some? {
        r := r.(status := updates.status.value);
      }
      if updates.lastRun.Some? {
        r := r.(lastRun := updates.lastRun);
      }
      if updates.nextRun.Some? {
        r := r.(nextRun := updates.nextRun);
      }
    }

    /** Delete a job; ON DELETE CASCADE deletes its runs. */
    method DeleteJob(id: int)
      requires Valid()
      modifies this
      ensures Valid()
      ensures jobs == old(jobs) - {id}
      ensures runs == map r | r in old(runs) && old(runs)[r].jobId != id :: old(runs)[r]
      ensures jobSeq == old(jobSeq) && runSeq == old(runSeq) && clock == old(clock)
      ensures forall limit :: GetJobRuns(id, limit) == []
    {
      jobs := jobs - {id};
      runs := map r | r in runs && runs[r].jobId != id :: runs[r];
      forall limit
        ensures GetJobRuns(id, limit) == []
      {
        RunsOfMissingJob(runSeq, id);
      }
    }

    /** Insert a running run; inserting for a missing job violates the foreign key, and nothing changes. */
    method CreateJobRun(jobId: int) returns (run: Option<JobRun>)
      requires Valid()
      modifies this
      ensures Valid()
      ensures run.None? <==> jobId !in old(jobs)
      ensures run.None? ==> runs == old(runs) && runSeq == old(runSeq)
      ensures run.Some? ==>
        && run.value.id == old(runSeq) + 1 == runSeq
        && (forall id :: id in old(runs) ==> id < run.value.id)
        && run.value == JobRun(run.value.id, jobId, clock, None, None, "", "", RunRunning)
        && runs == old(runs)[run.value.id := JobRunToRow(run.value)]
      ensures jobs == old(jobs) && jobSeq == old(jobSeq) && clock == old(clock)
    {
      if jobId !in jobs {
        return None;
      }
      runSeq := runSeq + 1;
      var row := JobRunRow(runSeq, jobId, clock, None, None, "", "", RunRunning);
      runs := runs[runSeq := row];
      run := Some(RowToJobRun(row));
    }

    function GetJobRun(id: int): (r: Option<JobRun>)
      reads this
      ensures r.Some? <==> id in runs
      ensures r.Some? ==> JobRunToRow(r.value) == runs[id]
    {
      if id in runs then Some(RowToJobRun(runs[id])) else None
    }

    method UpdateJobRun(id: int, updates: RunPatch) returns (run: Option<JobRun>)
      requires Valid() && updates.HasField()
      modifies this
      ensures Valid()
      ensures runs == if id in old(runs) then old(runs)[id := RunPatched(old(runs)[id], updates, clock)] else old(runs)
      ensures jobs == old(jobs) && jobSeq == old(jobSeq) && runSeq == old(runSeq) && clock == old(clock)
      ensures run == GetJobRun(id)
    {
      if id in runs {
        var row := PatchRunRow(runs[id], updates, clock);
        runs := runs[id := row];
      }
      run := GetJobRun(id);
    }

    /** The SET clauses of `updateJobRun`, applied to the row: each field given, and `finished_at` when the new status is final. */
    static method PatchRunRow(row: JobRunRow, updates: RunPatch, now: Time) returns (r: JobRunRow)
      ensures r == RunPatched(row, updates, now)
    {
      r := row;
      if updates.stdout.Some? {
        r := r.(stdout := updates.stdout.value);
      }
      if updates.stderr.Some? {
        r := r.(stderr := updates.stderr.value);
      }
      if updates.exitCode.Some? {
        r := r.(exitCode := updates.exitCode);
      }
      if updates.status.Some? {
        r := r.(status := updates.status.value);
        if updates.status.value != RunRunning {
          r := r.(finishedAt := Some(now));
        }
      }
    }

    /** The runs of a job with ids at most `n`, in decreasing id order. */
    function RunsUpTo(n: int, jobId: int): (r: seq<JobRun>)
      requires Valid()
      reads this
      ensures forall x :: x in r <==>
        exists id :: id in runs && id <= n && runs[id].jobId == jobId && x == RowToJobRun(runs[id])
      ensures forall k :: 0 <= k < |r| ==>
        r[k].id in runs && r[k].id <= n && r[k].jobId == jobId && r[k] == RowToJobRun(runs[r[k].id])
      ensures forall a, b :: 0 <= a < b < |r| ==> r[a].id > r[b].id
      decreases n
    {
      if n <= 0 then []
      else (if n in runs && runs[n].jobId == jobId then [RowToJobRun(runs[n])] else []) + RunsUpTo(n - 1, jobId)
    }

    /** A job that does not exist has no runs. */
    lemma {:induction false} RunsOfMissingJob(n: int, jobId: int)
      requires Valid() && jobId !in jobs
      ensures RunsUpTo(n, jobId) == []
      decreases n
    {
      if n > 0 {
        RunsOfMissingJob(n - 1, jobId);
      }
    }

    /** The number of runs `getJobRuns` returns: `LIMIT` defaults to 10, and a negative limit means no limit. */
    static function Limit(limit: Option<int>, available: nat): (n: nat)
      ensures n <= available
      ensures limit.GetOr(10) >= 0 ==> n <= limit.GetOr(10)
      ensures n < available ==> n == limit.GetOr(10)
    {
      var l := limit.GetOr(10);
      if l < 0 || l >= available then available else l
    }

    /**
     * `getJobRuns(jobId, limit)`: only that job's runs, newest first, at most
     * `limit` of them, and every run left out is older than every run returned.
     */
    function GetJobRuns(jobId: int, limit: Option<int>): (r: seq<JobRun>)
      requires Valid()
      reads this
      ensures forall k :: 0 <= k < |r| ==> r[k].jobId == jobId && r[k].id in runs && r[k] == RowToJobRun(runs[r[k].id])
      ensures forall a, b :: 0 <= a < b < |r| ==> r[a].startedAt >= r[b].startedAt && r[a].id > r[b].id
      ensures limit.GetOr(10) >= 0 ==> |r| <= limit.GetOr(10)
    {
      var all := RunsUpTo(runSeq, jobId);
      all[..Limit(limit, |all|)]
    }

    /** The runs `getJobRuns` leaves out are older than all it returns, and it leaves none out when the limit is not reached. */
    lemma GetJobRunsNewest(jobId: int, limit: Option<int>, id: int)
      requires Valid()
      requires id in runs && runs[id].jobId == jobId && RowToJobRun(runs[id]) !in GetJobRuns(jobId, limit)
      ensures var r := GetJobRuns(jobId, limit);
        |r| == limit.GetOr(10) && forall k :: 0 <= k < |r| ==> r[k].id > id
    {
      var all := RunsUpTo(runSeq, jobId);
      PrefixKeepsNewest(all, Limit(limit, |all|));
      assert RowToJobRun(runs[id]) in all;
    }
  }
}
