/**
 * The job scheduler of the main process: the cron tasks it has scheduled, the
 * executions it is tracking, and how it starts, stops and finalises them
 * against the job store.
 *
 * Child processes, timers and cron are outside the model. What they do to the
 * scheduler arrives as events, one method each: a cron tick (`OnCronTick`),
 * output on stdout or stderr, the `close` and `error` events of a process,
 * and the firing of the grace timer of `stopJob`. Whether a cron expression
 * is valid is the predicate `validCron`. What the scheduler does to the
 * outside world is recorded in logs: the signals sent to processes, the
 * `statusChange` events emitted and the errors written to the console.
 */
module Scheduler {
  import opened JsBuiltins
  import opened Types
  import opened RunStore
  import CommandParser

  /** The position of a child process, a cron task or a timer in the log of all of them. */
  type ProcId = nat
  type TaskId = nat
  type TimerId = nat

  datatype Signal = SIGTERM | SIGKILL

  /** `process.kill(signal)` sent to a child process; `kill()` with no argument sends SIGTERM. */
  datatype Kill = Kill(proc: ProcId, signal: Signal)

  /** A task made by `cron.schedule`: each tick executes the job as it was when it was scheduled. */
  datatype CronTask = CronTask(job: Job, stopped: bool)

  /** How the promise returned by `executeJob` settled: `close` resolves it, `error` rejects it, whichever comes first. */
  datatype Settlement = Resolved(run: Option<JobRun>) | Rejected(message: string)

  /**
   * A spawned child process and what its handlers share (the `RunningJob`
   * record): the job and run it was started for, the shell command line, its
   * working directory and environment, and the output buffered so far.
   */
  datatype Proc = Proc(
    job: Job,
    run: JobRun,
    shellCommand: string,
    cwd: string,
    env: map<string, string>,
    stdout: string,
    stderr: string,
    closed: bool,
    fromTick: bool,
    settled: Option<Settlement>)

  /** The `setTimeout` of `stopJob`: after `delay` milliseconds it escalates to SIGKILL. */
  datatype GraceTimer = GraceTimer(jobId: int, proc: ProcId, delay: nat, fired: bool)

  /** The payload of a `statusChange` event. */
  datatype StatusChange = StatusChange(job: Option<Job>, run: Option<JobRun>)

  /** What the scheduler writes with `console.error`. */
  datatype LogEntry = InvalidCron(jobId: int, cron: string) | TickFailed(jobId: int)

  /** Why an operation threw. */
  datatype Failure =
    | JobNotFound(jobId: int)       // "Job not found: <id>"
    | AlreadyRunning(jobId: int)    // "Job is already running: <id>"
    | NotRunning(jobId: int)        // "Job is not running: <id>"
    | RunInsertFailed(jobId: int)   // the run insert violates the foreign key: the job is gone
    | SpawnFailed(jobId: int)       // spawn was given no command: the command has no token

  datatype Result<T> = Ok(value: T) | Err(failure: Failure)

  /** The variables `executeJob` adds to the inherited environment. */
  const EnvOverrides: map<string, string> := map["FORCE_COLOR" := "1", "TERM" := "xterm-256color"]

  /** How long `stopJob` waits before SIGKILL, in milliseconds. */
  const GraceDelay: nat := 5000

  /** The shell command line `spawn` runs with `shell: true`: the command and its arguments joined by spaces. */
  function ShellCommand(argv: seq<string>): string {
    Join(argv, ' ')
  }

  /** The run status a `close` event records: success exactly when the exit code is 0. */
  function CloseStatus(exitCode: Option<int>): (s: RunStatus)
    ensures s == RunSuccess <==> exitCode == Some(0)
    ensures s != RunRunning
  {
    if exitCode == Some(0) then RunSuccess else RunFailed
  }

  /** The job status after an execution ends: a cron job goes back to scheduled, any other job takes the run's status. */
  function FinalStatus(job: Job, runStatus: RunStatus): (s: JobStatus)
    ensures Truthy(job.cron) ==> s == Scheduled
    ensures !Truthy(job.cron) ==> s == runStatus.AsJobStatus()
  {
    if Truthy(job.cron) then Scheduled else runStatus.AsJobStatus()
  }

  /** What `close` records on the run: the buffered output, the exit code (-1 when killed by a signal) and the outcome. */
  function ClosePatch(pr: Proc, exitCode: Option<int>): (patch: RunPatch)
    ensures patch.HasField()
    ensures patch.status == Some(CloseStatus(exitCode)) && patch.exitCode == Some(exitCode.GetOr(-1))
    ensures patch.stdout == Some(pr.stdout) && patch.stderr == Some(pr.stderr)
  {
    RunPatch(Some(pr.stdout), Some(pr.stderr), Some(exitCode.GetOr(-1)), Some(CloseStatus(exitCode)))
  }

  /** What `error` records on the run: the error message after the buffered stderr, exit code -1, failed; stdout is left alone. */
  function ErrorPatch(pr: Proc, message: string): (patch: RunPatch)
    ensures patch.HasField()
    ensures patch == RunPatch(None, Some(pr.stderr + "\n" + message), Some(-1), Some(RunFailed))
  {
    RunPatch(None, Some(pr.stderr + "\n" + message), Some(-1), Some(RunFailed))
  }

  /** The runs after `patch` is recorded on `run`: an UPDATE of a missing row changes nothing. */
  function RecordedRuns(runs: map<int, JobRunRow>, run: JobRun, patch: RunPatch, now: Time): map<int, JobRunRow> {
    if run.id in runs then runs[run.id := RunPatched(runs[run.id], patch, now)] else runs
  }

  /** The jobs after `job` is given `status` and a last run at `now`: an UPDATE of a missing row changes nothing. */
  function RecordedJobs(jobs: map<int, JobRow>, job: Job, status: JobStatus, now: Time): map<int, JobRow> {
    if job.id in jobs then jobs[job.id := Patched(jobs[job.id], JobPatch(Some(status), Some(now), None), now)] else jobs
  }

  /** The jobs of a listing that `scheduleJob` gives a task: a non-empty, valid cron. */
  function WithValidCron(jobs: seq<Job>, validCron: string -> bool): seq<Job>
    decreases |jobs|
  {
    if jobs == [] then []
    else
      var last := jobs[|jobs| - 1];
      WithValidCron(jobs[..|jobs| - 1], validCron)
      + (if Truthy(last.cron) && validCron(last.cron.value) then [last] else [])
  }

  /** The console errors `scheduleJob` writes for a listing: one per job whose non-empty cron is invalid. */
  function InvalidCronLog(jobs: seq<Job>, validCron: string -> bool): seq<LogEntry>
    decreases |jobs|
  {
    if jobs == [] then []
    else
      var last := jobs[|jobs| - 1];
      InvalidCronLog(jobs[..|jobs| - 1], validCron)
      + (if Truthy(last.cron) && !validCron(last.cron.value) then [InvalidCron(last.id, last.cron.value)] else [])
  }

  /** The tasks made for `jobs`, in order. */
  function NewTasks(jobs: seq<Job>): (r: seq<CronTask>)
    ensures |r| == |jobs|
    ensures forall k :: 0 <= k < |r| ==> r[k] == CronTask(jobs[k], false)
  {
    if jobs == [] then [] else NewTasks(jobs[..|jobs| - 1]) + [CronTask(jobs[|jobs| - 1], false)]
  }

  /** SIGTERM to every process of `running` numbered below `n`, in order of creation. */
  function Sigterms(running: set<ProcId>, n: nat): seq<Kill>
  {
    if n == 0 then [] else Sigterms(running, n - 1) + (if n - 1 in running then [Kill(n - 1, SIGTERM)] else [])
  }

  /** `Sigterms` sends SIGTERM to each process of `running` below `n`, to no other, and once each. */
  lemma {:induction false} SigtermsExact(running: set<ProcId>, n: nat)
    ensures forall k :: k in Sigterms(running, n) <==> k.signal == SIGTERM && k.proc in running && k.proc < n
    ensures forall a, b :: 0 <= a < b < |Sigterms(running, n)| ==> Sigterms(running, n)[a].proc < Sigterms(running, n)[b].proc
  {
    if n > 0 {
      SigtermsExact(running, n - 1);
    }
  }

  /** `scheduledTasks` after scheduling `jobs` in order, the first new task being number `next`. */
  function Register(m: map<int, TaskId>, next: nat, jobs: seq<Job>): map<int, TaskId>
    decreases |jobs|
  {
    if jobs == [] then m
    else Register(m, next, jobs[..|jobs| - 1])[jobs[|jobs| - 1].id := next + |jobs| - 1]
  }

  /** The part of the scheduler the executions change: the tracked and spawned processes, the timers, the signals sent and the events emitted. */
  datatype Processes = Processes(running: map<int, ProcId>, procs: seq<Proc>, timers: seq<GraceTimer>, kills: seq<Kill>, events: seq<StatusChange>)

  /** The part of the scheduler `scheduleJob` changes: the tasks, the map of scheduled tasks and the console. */
  datatype Schedule = Schedule(tasks: seq<CronTask>, scheduled: map<int, TaskId>, log: seq<LogEntry>)

  /** What `scheduleJob(job)` does to the schedule. */
  function ScheduleOne(s: Schedule, job: Job, validCron: string -> bool): Schedule {
    if !Truthy(job.cron) then s
    else if !validCron(job.cron.value) then s.(log := s.log + [InvalidCron(job.id, job.cron.value)])
    else s.(tasks := s.tasks + [CronTask(job, false)], scheduled := s.scheduled[job.id := |s.tasks|])
  }

  /** What the loop of `start` does to the schedule: `scheduleJob` on each listed job in turn. */
  function ScheduleAll(s: Schedule, jobs: seq<Job>, validCron: string -> bool): Schedule
    decreases |jobs|
  {
    if jobs == [] then s else ScheduleOne(ScheduleAll(s, jobs[..|jobs| - 1], validCron), jobs[|jobs| - 1], validCron)
  }

  /** The jobs with a valid cron are exactly the listed jobs with a non-empty, valid cron. */
  lemma {:induction false} ScheduledJobs(jobs: seq<Job>, validCron: string -> bool)
    ensures forall j :: j in WithValidCron(jobs, validCron) <==> j in jobs && Truthy(j.cron) && validCron(j.cron.value)
    decreases |jobs|
  {
    if jobs != [] {
      ScheduledJobs(jobs[..|jobs| - 1], validCron);
      assert jobs == jobs[..|jobs| - 1] + [jobs[|jobs| - 1]];
    }
  }

  /** One more job at the end of a listing. */
  lemma ListingStep(jobs: seq<Job>, job: Job, validCron: string -> bool)
    ensures WithValidCron(jobs + [job], validCron)
      == WithValidCron(jobs, validCron) + (if Truthy(job.cron) && validCron(job.cron.value) then [job] else [])
    ensures InvalidCronLog(jobs + [job], validCron)
      == InvalidCronLog(jobs, validCron) + (if Truthy(job.cron) && !validCron(job.cron.value) then [InvalidCron(job.id, job.cron.value)] else [])
  {
    assert (jobs + [job])[..|jobs|] == jobs;
  }

  /** One more scheduled job: one more task, registered under the next number. */
  lemma ScheduledStep(valid: seq<Job>, job: Job, m: map<int, TaskId>, next: nat)
    ensures NewTasks(valid + [job]) == NewTasks(valid) + [CronTask(job, false)]
    ensures Register(m, next, valid + [job]) == Register(m, next, valid)[job.id := next + |valid|]
  {
    assert (valid + [job])[..|valid|] == valid;
  }

  /** `scheduleJob` on one more job, in the closed form of `ScheduleAllSpec`. */
  lemma ScheduleOneSpec(s: Schedule, valid: seq<Job>, problems: seq<LogEntry>, job: Job, validCron: string -> bool)
    ensures var ok := Truthy(job.cron) && validCron(job.cron.value);
      var valid' := valid + (if ok then [job] else []);
      var problems' := problems + (if Truthy(job.cron) && !ok then [InvalidCron(job.id, job.cron.value)] else []);
      ScheduleOne(Schedule(s.tasks + NewTasks(valid), Register(s.scheduled, |s.tasks|, valid), s.log + problems), job, validCron)
      == Schedule(s.tasks + NewTasks(valid'), Register(s.scheduled, |s.tasks|, valid'), s.log + problems')
  {
    if Truthy(job.cron) && validCron(job.cron.value) {
      ScheduledStep(valid, job, s.scheduled, |s.tasks|);
      assert s.tasks + NewTasks(valid) + [CronTask(job, false)] == s.tasks + NewTasks(valid + [job]);
      assert problems + [] == problems;
    } else if Truthy(job.cron) {
      assert valid + [] == valid;
      var entry := InvalidCron(job.id, job.cron.value);
      assert s.log + problems + [entry] == s.log + (problems + [entry]);
    } else {
      assert valid + [] == valid;
      assert problems + [] == problems;
    }
  }

  /**
   * Scheduling a listing adds one task per job with a valid cron, in order,
   * registers each under its job id, and reports each job with an invalid cron.
   */
  lemma {:induction false} ScheduleAllSpec(s: Schedule, jobs: seq<Job>, validCron: string -> bool)
    ensures var valid := WithValidCron(jobs, validCron);
      ScheduleAll(s, jobs, validCron)
      == Schedule(s.tasks + NewTasks(valid), Register(s.scheduled, |s.tasks|, valid), s.log + InvalidCronLog(jobs, validCron))
    decreases |jobs|
  {
    if jobs != [] {
      var init, job := jobs[..|jobs| - 1], jobs[|jobs| - 1];
      ScheduleAllSpec(s, init, validCron);
      assert jobs == init + [job];
      ListingStep(init, job, validCron);
      ScheduleOneSpec(s, WithValidCron(init, validCron), InvalidCronLog(init, validCron), job, validCron);
    }
  }

  /** The job at index `k` of `valid` is registered under its id, to the task of the last job with that id. */
  lemma {:induction false} RegisterCovers(m: map<int, TaskId>, next: nat, valid: seq<Job>, k: nat)
    requires k < |valid|
    ensures valid[k].id in Register(m, next, valid)
    ensures var t := Register(m, next, valid)[valid[k].id];
      k <= t - next < |valid| && valid[t - next].id == valid[k].id
    decreases |valid|
  {
    var last := |valid| - 1;
    if k < last && valid[k].id != valid[last].id {
      var init := valid[..last];
      RegisterCovers(m, next, init, k);
    }
  }

  /**
   * After `start`, every listed job with a valid cron has an entry in
   * `scheduledTasks`, pointing to a new task made for that job, the listed
   * ids being distinct.
   */
  lemma StartSchedulesEveryValidCron(s: Schedule, jobs: seq<Job>, validCron: string -> bool, j: Job)
    requires forall a, b :: 0 <= a < b < |jobs| ==> jobs[a].id != jobs[b].id
    requires j in jobs && Truthy(j.cron) && validCron(j.cron.value)
    ensures var r := ScheduleAll(s, jobs, validCron);
      j.id in r.scheduled && |s.tasks| <= r.scheduled[j.id] < |r.tasks| && r.tasks[r.scheduled[j.id]] == CronTask(j, false)
  {
    var valid := WithValidCron(jobs, validCron);
    ScheduleAllSpec(s, jobs, validCron);
    ScheduledJobs(jobs, validCron);
    ValidCronDistinct(jobs, validCron);
    var k :| 0 <= k < |valid| && valid[k] == j;
    RegisteredAt(s.scheduled, |s.tasks|, valid, k);
    var tasks := s.tasks + NewTasks(valid);
    assert tasks[|s.tasks| + k] == NewTasks(valid)[k];
  }

  /** With distinct ids, the job at index `k` of `valid` is registered to the task made for it. */
  lemma RegisteredAt(m: map<int, TaskId>, next: nat, valid: seq<Job>, k: nat)
    requires k < |valid|
    requires forall a, b :: 0 <= a < b < |valid| ==> valid[a].id != valid[b].id
    ensures valid[k].id in Register(m, next, valid) && Register(m, next, valid)[valid[k].id] == next + k
  {
    RegisterCovers(m, next, valid, k);
    var t := Register(m, next, valid)[valid[k].id];
    assert valid[t - next].id == valid[k].id;
  }

  /** The jobs with a valid cron keep the listing's distinct ids. */
  lemma {:induction false} ValidCronDistinct(jobs: seq<Job>, validCron: string -> bool)
    requires forall a, b :: 0 <= a < b < |jobs| ==> jobs[a].id != jobs[b].id
    ensures var valid := WithValidCron(jobs, validCron);
      forall a, b :: 0 <= a < b < |valid| ==> valid[a].id != valid[b].id
    decreases |jobs|
  {
    if jobs != [] {
      var init, job := jobs[..|jobs| - 1], jobs[|jobs| - 1];
      ValidCronDistinct(init, validCron);
      ScheduledJobs(init, validCron);
      assert jobs == init + [job];
      ListingStep(init, job, validCron);
      var valid := WithValidCron(init, validCron);
      forall x | x in valid ensures x.id != job.id {
        var i :| 0 <= i < |init| && init[i] == x;
        assert jobs[i] == x;
      }
    }
  }

  /** Every scheduled job has a live task made for it. */
  ghost predicate ScheduleTracked(scheduled: map<int, TaskId>, tasks: seq<CronTask>) {
    forall j :: j in scheduled ==> scheduled[j] < |tasks| && !tasks[scheduled[j]].stopped && tasks[scheduled[j]].job.id == j
  }

  /**
   * Every running job has a process started for it that has neither closed
   * nor settled, and every timer and signal is about a process.
   */
  ghost predicate ProcsTracked(running: map<int, ProcId>, procs: seq<Proc>, timers: seq<GraceTimer>, kills: seq<Kill>) {
    && (forall j :: j in running ==>
          running[j] < |procs| && procs[running[j]].job.id == j && !procs[running[j]].closed && procs[running[j]].settled.None?)
    && (forall t :: 0 <= t < |timers| ==> timers[t].proc < |procs|)
    && (forall k :: 0 <= k < |kills| ==> kills[k].proc < |procs|)
  }

  /** Forgetting a process's job keeps the tracking, whatever then happens to that process. */
  lemma Forgotten(running: map<int, ProcId>, procs: seq<Proc>, timers: seq<GraceTimer>, kills: seq<Kill>, p: ProcId, q: Proc)
    requires ProcsTracked(running, procs, timers, kills) && p < |procs| && q.job == procs[p].job
    ensures ProcsTracked(running - {procs[p].job.id}, procs[p := q], timers, kills)
  {
  }

  /** Tracking a new, live process under its job keeps the tracking. */
  lemma Started(running: map<int, ProcId>, procs: seq<Proc>, timers: seq<GraceTimer>, kills: seq<Kill>, proc: Proc)
    requires ProcsTracked(running, procs, timers, kills) && !proc.closed && proc.settled.None?
    ensures ProcsTracked(running[proc.job.id := |procs|], procs + [proc], timers, kills)
  {
  }

  class JobScheduler {
    const db: Database
    /** `cron.validate` */
    const validCron: string -> bool
    /** `process.env` of the main process. */
    const baseEnv: map<string, string>

    /** Job id to the cron task scheduled for it. */
    var scheduledTasks: map<int, TaskId>
    /** Job id to the process last started for it. */
    var runningJobs: map<int, ProcId>

    /** Every cron task, process and grace timer ever made, numbered in order of creation. */
    var tasks: seq<CronTask>
    var procs: seq<Proc>
    var timers: seq<GraceTimer>

    /** What the scheduler has done to the outside world, in order. */
    var kills: seq<Kill>
    var events: seq<StatusChange>
    var log: seq<LogEntry>

    /**
     * Every scheduled job has a live task made for it, and every running job a
     * process started for it.
     */
    ghost predicate Valid()
      reads this, db
    {
      db.Valid() && Tracked()
    }

    /** The part of `Valid` about the scheduler's own fields. */
    ghost predicate Tracked()
      reads this
    {
      ScheduleTracked(scheduledTasks, tasks) && ProcsTracked(runningJobs, procs, timers, kills)
    }

    /** The part of the state `scheduleJob` changes. */
    function ScheduleState(): Schedule
      reads this
    {
      Schedule(tasks, scheduledTasks, log)
    }

    /** The part of the state the executions change. */
    function ProcessState(): Processes
      reads this
    {
      Processes(runningJobs, procs, timers, kills, events)
    }

    constructor(db: Database, validCron: string -> bool, baseEnv: map<string, string>)
      requires db.Valid()
      ensures Valid()
      ensures this.db == db && this.validCron == validCron && this.baseEnv == baseEnv
      ensures scheduledTasks == map[] && runningJobs == map[]
      ensures tasks == [] && procs == [] && timers == [] && kills == [] && events == [] && log == []
    {
      this.db := db;
      this.validCron := validCron;
      this.baseEnv := baseEnv;
      scheduledTasks, runningJobs := map[], map[];
      tasks, procs, timers := [], [], [];
      kills, events, log := [], [], [];
    }

    /**
     * `scheduleJob`: a job with a valid cron gets a new task, replacing its
     * entry in `scheduledTasks` (an earlier task is not stopped); an invalid
     * cron is reported and leaves no entry.
     */
    method ScheduleJob(job: Job)
      requires Tracked()
      modifies this
      ensures Tracked()
      ensures ScheduleState() == ScheduleOne(old(ScheduleState()), job, validCron)
      ensures ProcessState() == old(ProcessState())
    {
      if !Truthy(job.cron) {
        return;
      }
      if !validCron(job.cron.value) {
        log := log + [InvalidCron(job.id, job.cron.value)];
        return;
      }
      tasks := tasks + [CronTask(job, false)];
      scheduledTasks := scheduledTasks[job.id := |tasks| - 1];
    }

    /** `start`: schedule every stored job that has a cron, newest first. */
    method Start()
      requires Valid()
      modifies this
      ensures Valid()
      ensures ScheduleState() == ScheduleAll(old(ScheduleState()), old(db.ListJobs(None)), validCron)
      ensures ProcessState() == old(ProcessState())
    {
      var jobs := db.ListJobs(None);
      ScheduleListed(jobs);
    }

    /** The loop of `start`: `scheduleJob` on each job of the listing that has a cron. */
    method ScheduleListed(jobs: seq<Job>)
      requires Tracked()
      modifies this
      ensures Tracked()
      ensures ScheduleState() == ScheduleAll(old(ScheduleState()), jobs, validCron)
      ensures ProcessState() == old(ProcessState())
    {
      for i := 0 to |jobs|
        invariant Tracked()
        invariant ScheduleState() == ScheduleAll(old(ScheduleState()), jobs[..i], validCron)
        invariant ProcessState() == old(ProcessState())
      {
        assert jobs[..i + 1][..i] == jobs[..i];
        if Truthy(jobs[i].cron) {
          ScheduleJob(jobs[i]);
        }
      }
      assert jobs[..|jobs|] == jobs;
    }

    /**
     * `stop`: stop every scheduled task and send SIGTERM to every tracked
     * process, then forget both. The processes are visited in order of creation.
     */
    method Stop()
      requires Valid()
      modifies this
      ensures Valid()
      ensures scheduledTasks == map[] && runningJobs == map[]
      ensures |tasks| == |old(tasks)|
      ensures forall t :: 0 <= t < |tasks| ==>
        tasks[t] == old(tasks[t]).(stopped := old(tasks[t].stopped) || t in old(scheduledTasks).Values)
      ensures kills == old(kills) + Sigterms(old(runningJobs).Values, |procs|)
      ensures procs == old(procs) && timers == old(timers) && events == old(events) && log == old(log)
    {
      StopTasks();
      KillAll();
    }

    /** The first loop of `stop`: stop every scheduled task, then clear `scheduledTasks`. */
    method StopTasks()
      requires Tracked()
      modifies this
      ensures Tracked()
      ensures scheduledTasks == map[] && log == old(log)
      ensures |tasks| == |old(tasks)|
      ensures forall t :: 0 <= t < |tasks| ==>
        tasks[t] == old(tasks[t]).(stopped := old(tasks[t].stopped) || t in old(scheduledTasks).Values)
      ensures ProcessState() == old(ProcessState())
    {
      for t := 0 to |tasks|
        invariant |tasks| == |old(tasks)|
        invariant forall u :: 0 <= u < |tasks| ==>
          tasks[u] == old(tasks[u]).(stopped := old(tasks[u].stopped) || (u < t && u in scheduledTasks.Values))
        invariant scheduledTasks == old(scheduledTasks) && log == old(log)
        invariant ProcessState() == old(ProcessState())
      {
        if t in scheduledTasks.Values {
          tasks := tasks[t := tasks[t].(stopped := true)];
        }
      }
      scheduledTasks := map[];
    }

    /** The second loop of `stop`: SIGTERM to every tracked process, then clear `runningJobs`. */
    method KillAll()
      requires Tracked()
      modifies this
      ensures Tracked()
      ensures runningJobs == map[] && kills == old(kills) + Sigterms(old(runningJobs).Values, |procs|)
      ensures procs == old(procs) && timers == old(timers) && events == old(events)
      ensures ScheduleState() == old(ScheduleState())
    {
      for p := 0 to |procs|
        invariant kills == old(kills) + Sigterms(runningJobs.Values, p)
        invariant forall k :: 0 <= k < |kills| ==> kills[k].proc < |procs|
        invariant runningJobs == old(runningJobs)
        invariant procs == old(procs) && timers == old(timers) && events == old(events)
        invariant ScheduleState() == old(ScheduleState())
      {
        if p in runningJobs.Values {
          kills := kills + [Kill(p, SIGTERM)];
        }
      }
      runningJobs := map[];
    }

    /** `createJob`: store the job, then schedule it when a cron expression was given. */
    method CreateJob(worktreePath: string, name: string, command: string, cronExpr: Option<string>) returns (job: Job)
      requires Valid()
      modifies this, db
      ensures Valid()
      ensures job.id !in old(db.jobs) && db.jobs == old(db.jobs)[job.id := JobToRow(job)]
      ensures job.worktreePath == worktreePath && job.name == name && job.command == command
      ensures job.cron == (if Truthy(cronExpr) then cronExpr else None)
      ensures job.status == (if Truthy(cronExpr) then Scheduled else Pending)
      ensures db.runs == old(db.runs)
      ensures ScheduleState() == ScheduleOne(old(ScheduleState()), job, validCron)
      ensures ProcessState() == old(ProcessState())
    {
      job := db.CreateJob(worktreePath, name, command, cronExpr);
      if Truthy(cronExpr) {
        ScheduleJob(job);
      }
    }

    /**
     * `deleteJob`: stop the job's scheduled task and send SIGTERM to its
     * process, forget both, then delete the job and, by cascade, its runs.
     */
    method DeleteJob(jobId: int)
      requires Valid()
      modifies this, db
      ensures Valid()
      ensures scheduledTasks == old(scheduledTasks) - {jobId} && runningJobs == old(runningJobs) - {jobId}
      ensures jobId in old(scheduledTasks) ==>
        tasks == old(tasks)[old(scheduledTasks)[jobId] := old(tasks)[old(scheduledTasks)[jobId]].(stopped := true)]
      ensures jobId !in old(scheduledTasks) ==> tasks == old(tasks)
      ensures kills == old(kills) + (if jobId in old(runningJobs) then [Kill(old(runningJobs)[jobId], SIGTERM)] else [])
      ensures db.jobs == old(db.jobs) - {jobId}
      ensures db.runs == map r | r in old(db.runs) && old(db.runs)[r].jobId != jobId :: old(db.runs)[r]
      ensures procs == old(procs) && timers == old(timers) && events == old(events) && log == old(log)
    {
      Forget(jobId);
      db.DeleteJob(jobId);
    }

    /** What `deleteJob` does to the scheduler itself before the job is deleted from the store. */
    method Forget(jobId: int)
      requires Tracked()
      modifies this
      ensures Tracked()
      ensures scheduledTasks == old(scheduledTasks) - {jobId} && runningJobs == old(runningJobs) - {jobId}
      ensures jobId in old(scheduledTasks) ==>
        tasks == old(tasks)[old(scheduledTasks)[jobId] := old(tasks)[old(scheduledTasks)[jobId]].(stopped := true)]
      ensures jobId !in old(scheduledTasks) ==> tasks == old(tasks)
      ensures kills == old(kills) + (if jobId in old(runningJobs) then [Kill(old(runningJobs)[jobId], SIGTERM)] else [])
      ensures procs == old(procs) && timers == old(timers) && events == old(events) && log == old(log)
    {
      if jobId in scheduledTasks {
        var t := scheduledTasks[jobId];
        tasks := tasks[t := tasks[t].(stopped := true)];
        scheduledTasks := scheduledTasks - {jobId};
      }
      if jobId in runningJobs {
        kills := kills + [Kill(runningJobs[jobId], SIGTERM)];
        runningJobs := runningJobs - {jobId};
      }
    }

    /**
     * `executeJob`: record a running run, mark the job running, then spawn
     * the command through the shell in the job's worktree and track the
     * process under the job's id, replacing any process tracked for it.
     */
    method ExecuteJob(job: Job, fromTick: bool) returns (r: Result<ProcId>)
      requires Valid()
      modifies this, db
      ensures Valid()
      ensures job.id !in old(db.jobs) ==> r == Err(RunInsertFailed(job.id)) && db.runs == old(db.runs)
      ensures job.id in old(db.jobs) ==>
        && db.runSeq == old(db.runSeq) + 1
        && db.runs == old(db.runs)[db.runSeq := JobRunRow(db.runSeq, job.id, db.clock, None, None, "", "", RunRunning)]
        && db.jobs == old(db.jobs)[job.id := Patched(old(db.jobs)[job.id], JobPatch(Some(Running), None, None), db.clock)]
        && (r.Err? <==> CommandParser.Tokens(job.command) == [])
        && (r.Err? ==> r.failure == SpawnFailed(job.id))
      ensures job.id !in old(db.jobs) ==> db.jobs == old(db.jobs)
      ensures r.Err? ==> runningJobs == old(runningJobs) && procs == old(procs) && events == old(events)
      ensures r.Ok? ==>
        var run := JobRun(db.runSeq, job.id, db.clock, None, None, "", "", RunRunning);
        && r.value == |old(procs)|
        && procs == old(procs) + [Proc(job, run, ShellCommand(CommandParser.Tokens(job.command)), job.worktreePath,
                                       baseEnv + EnvOverrides, "", "", false, fromTick, None)]
        && runningJobs == old(runningJobs)[job.id := r.value]
        && events == old(events) + [StatusChange(db.GetJob(job.id), Some(run))]
      ensures db.jobSeq == old(db.jobSeq) && db.clock == old(db.clock)
      ensures ScheduleState() == old(ScheduleState()) && timers == old(timers) && kills == old(kills)
    {
      var run := db.CreateJobRun(job.id);
      if run.None? {
        return Err(RunInsertFailed(job.id));
      }
      var _ := db.UpdateJob(job.id, JobPatch(Some(Running), None, None));
      var argv := CommandParser.ParseCommand(job.command);
      if argv == [] {
        return Err(SpawnFailed(job.id));
      }
      var proc := Proc(job, run.value, ShellCommand(argv), job.worktreePath, baseEnv + EnvOverrides, "", "", false, fromTick, None);
      var p := Track(proc, StatusChange(db.GetJob(job.id), run));
      r := Ok(p);
    }

    /** What `executeJob` does to the scheduler itself once the process is spawned. */
    method Track(proc: Proc, change: StatusChange) returns (p: ProcId)
      requires Tracked() && !proc.closed && proc.settled.None?
      modifies this
      ensures Tracked()
      ensures p == |old(procs)| && procs == old(procs) + [proc]
      ensures runningJobs == old(runningJobs)[proc.job.id := p] && events == old(events) + [change]
      ensures ScheduleState() == old(ScheduleState()) && timers == old(timers) && kills == old(kills)
    {
      p := |procs|;
      Started(runningJobs, procs, timers, kills, proc);
      procs := procs + [proc];
      runningJobs := runningJobs[proc.job.id := p];
      events := events + [change];
    }

    /** `runJob`: execute a stored job now, unless it is missing or already running. */
    method RunJob(jobId: int) returns (r: Result<ProcId>)
      requires Valid()
      modifies this, db
      ensures Valid()
      ensures jobId !in old(db.jobs) ==> r == Err(JobNotFound(jobId))
      ensures jobId in old(db.jobs) && jobId in old(runningJobs) ==> r == Err(AlreadyRunning(jobId))
      ensures (r.Err? && r.failure.JobNotFound?) || (r.Err? && r.failure.AlreadyRunning?) ==>
        && db.jobs == old(db.jobs) && db.runs == old(db.runs) && db.runSeq == old(db.runSeq)
        && runningJobs == old(runningJobs) && procs == old(procs) && events == old(events)
      ensures jobId in old(db.jobs) && jobId !in old(runningJobs) ==>
        var job := RowToJob(old(db.jobs)[jobId]);
        var run := JobRun(db.runSeq, jobId, db.clock, None, None, "", "", RunRunning);
        && db.runSeq == old(db.runSeq) + 1
        && db.runs == old(db.runs)[db.runSeq := JobRunToRow(run)]
        && db.jobs == old(db.jobs)[jobId := Patched(old(db.jobs)[jobId], JobPatch(Some(Running), None, None), db.clock)]
        && (r.Err? <==> CommandParser.Tokens(job.command) == [])
        && (r.Err? ==> r == Err(SpawnFailed(jobId)) && runningJobs == old(runningJobs) && procs == old(procs) && events == old(events))
        && (r.Ok? ==>
              && r.value == |old(procs)|
              && procs == old(procs) + [Proc(job, run, ShellCommand(CommandParser.Tokens(job.command)), job.worktreePath,
                                             baseEnv + EnvOverrides, "", "", false, false, None)]
              && runningJobs == old(runningJobs)[jobId := r.value]
              && events == old(events) + [StatusChange(db.GetJob(jobId), Some(run))])
      ensures ScheduleState() == old(ScheduleState()) && timers == old(timers) && kills == old(kills)
    {
      var job := db.GetJob(jobId);
      if job.None? {
        return Err(JobNotFound(jobId));
      }
      if jobId in runningJobs {
        return Err(AlreadyRunning(jobId));
      }
      r := ExecuteJob(job.value, false);
    }

    /**
     * A tick of the cron task `t`: execute the job the task was made for, as
     * it was then, whether or not a process is still tracked for it; a
     * failure is written to the console.
     */
    method OnCronTick(t: TaskId) returns (r: Result<ProcId>)
      requires Valid() && t < |tasks| && !tasks[t].stopped
      modifies this, db
      ensures Valid()
      ensures tasks == old(tasks) && scheduledTasks == old(scheduledTasks) && timers == old(timers) && kills == old(kills)
      ensures var job := tasks[t].job;
        && (job.id !in old(db.jobs) ==> r == Err(RunInsertFailed(job.id)) && db.runs == old(db.runs) && db.jobs == old(db.jobs))
        && (r.Err? ==> runningJobs == old(runningJobs) && procs == old(procs) && events == old(events))
        && (r.Err? ==> log == old(log) + [TickFailed(job.id)])
        && (r.Ok? ==> log == old(log))
      ensures var job := tasks[t].job;
        var run := JobRun(db.runSeq, job.id, db.clock, None, None, "", "", RunRunning);
        job.id in old(db.jobs) ==>
          && db.runSeq == old(db.runSeq) + 1
          && db.runs == old(db.runs)[db.runSeq := JobRunToRow(run)]
          && db.jobs == old(db.jobs)[job.id := Patched(old(db.jobs)[job.id], JobPatch(Some(Running), None, None), db.clock)]
          && (r.Ok? <==> CommandParser.Tokens(job.command) != [])
          && (r.Ok? ==>
                && r.value == |old(procs)|
                && procs == old(procs) + [Proc(job, run, ShellCommand(CommandParser.Tokens(job.command)), job.worktreePath,
                                               baseEnv + EnvOverrides, "", "", false, true, None)]
                && runningJobs == old(runningJobs)[job.id := r.value]
                && events == old(events) + [StatusChange(db.GetJob(job.id), Some(run))])
    {
      var job := tasks[t].job;
      r := ExecuteJob(job, true);
      if r.Err? {
        log := log + [TickFailed(job.id)];
      }
    }

    /**
     * `stopJob`: send SIGTERM to the job's process and start the grace timer
     * that escalates to SIGKILL; a job without a process is an error.
     */
    method StopJob(jobId: int) returns (r: Result<TimerId>)
      requires Valid()
      modifies this
      ensures Valid()
      ensures jobId !in runningJobs ==> r == Err(NotRunning(jobId)) && kills == old(kills) && timers == old(timers)
      ensures jobId in runningJobs ==>
        && r == Ok(|old(timers)|)
        && kills == old(kills) + [Kill(runningJobs[jobId], SIGTERM)]
        && timers == old(timers) + [GraceTimer(jobId, runningJobs[jobId], GraceDelay, false)]
      ensures ScheduleState() == old(ScheduleState()) && runningJobs == old(runningJobs)
      ensures procs == old(procs) && events == old(events)
    {
      if jobId !in runningJobs {
        return Err(NotRunning(jobId));
      }
      var p := runningJobs[jobId];
      kills := kills + [Kill(p, SIGTERM)];
      timers := timers + [GraceTimer(jobId, p, GraceDelay, false)];
      r := Ok(|timers| - 1);
    }

    /**
     * The grace timer `t` fires: SIGKILL goes to the process it was started
     * for if some process is still tracked for the job, even a newer one.
     */
    method OnGraceTimer(t: TimerId)
      requires Valid() && t < |timers| && !timers[t].fired
      modifies this
      ensures Valid()
      ensures timers == old(timers)[t := old(timers[t]).(fired := true)]
      ensures kills == old(kills) + (if old(timers[t].jobId) in runningJobs then [Kill(old(timers[t].proc), SIGKILL)] else [])
      ensures ScheduleState() == old(ScheduleState()) && runningJobs == old(runningJobs)
      ensures procs == old(procs) && events == old(events)
    {
      var timer := timers[t];
      timers := timers[t := timer.(fired := true)];
      if timer.jobId in runningJobs {
        kills := kills + [Kill(timer.proc, SIGKILL)];
      }
    }

    /** A chunk on the process's stdout is appended to its buffer. */
    method OnStdout(p: ProcId, data: string)
      requires Valid() && p < |procs|
      modifies this
      ensures Valid()
      ensures procs == old(procs)[p := old(procs[p]).(stdout := old(procs[p].stdout) + data)]
      ensures ScheduleState() == old(ScheduleState()) && runningJobs == old(runningJobs)
      ensures timers == old(timers) && kills == old(kills) && events == old(events)
    {
      procs := procs[p := procs[p].(stdout := procs[p].stdout + data)];
    }

    /** A chunk on the process's stderr is appended to its buffer. */
    method OnStderr(p: ProcId, data: string)
      requires Valid() && p < |procs|
      modifies this
      ensures Valid()
      ensures procs == old(procs)[p := old(procs[p]).(stderr := old(procs[p].stderr) + data)]
      ensures ScheduleState() == old(ScheduleState()) && runningJobs == old(runningJobs)
      ensures timers == old(timers) && kills == old(kills) && events == old(events)
    {
      procs := procs[p := procs[p].(stderr := procs[p].stderr + data)];
    }

    /**
     * What the `close` and `error` handlers write to the store: the patch on
     * the run, then the job's new status with `lastRun` set to now; returns
     * the payload of the `statusChange` event they emit.
     */
    method Record(run: JobRun, job: Job, patch: RunPatch, status: JobStatus) returns (change: StatusChange)
      requires db.Valid() && patch.HasField()
      modifies db
      ensures db.Valid()
      ensures db.runs == RecordedRuns(old(db.runs), run, patch, db.clock)
      ensures db.jobs == RecordedJobs(old(db.jobs), job, status, db.clock)
      ensures change == StatusChange(db.GetJob(job.id), db.GetJobRun(run.id))
      ensures db.jobSeq == old(db.jobSeq) && db.runSeq == old(db.runSeq) && db.clock == old(db.clock)
    {
      var updatedRun := db.UpdateJobRun(run.id, patch);
      var updatedJob := db.UpdateJob(job.id, JobPatch(Some(status), Some(db.clock), None));
      change := StatusChange(updatedJob, updatedRun);
    }

    /**
     * What the `close` and `error` handlers do to the scheduler itself: forget
     * the process's job, whichever process is tracked for it, emit the
     * `statusChange` event and store the process's new state.
     */
    method Finish(p: ProcId, q: Proc, change: StatusChange)
      requires Tracked() && p < |procs| && q.job == procs[p].job
      modifies this
      ensures Tracked()
      ensures runningJobs == old(runningJobs) - {old(procs[p].job.id)}
      ensures procs == old(procs)[p := q] && events == old(events) + [change]
      ensures ScheduleState() == old(ScheduleState()) && timers == old(timers) && kills == old(kills)
    {
      Forgotten(runningJobs, procs, timers, kills, p, q);
      runningJobs := runningJobs - {procs[p].job.id};
      events := events + [change];
      procs := procs[p := q];
    }

    /**
     * The process `p` closes: forget the job's process (whichever one is
     * tracked), record the output, exit code and outcome on the run, put the
     * job back to scheduled or to the run's outcome, and settle the execution.
     */
    method OnClose(p: ProcId, exitCode: Option<int>)
      requires Valid() && p < |procs| && !procs[p].closed
      modifies this, db
      ensures Valid()
      ensures var pr := old(procs[p]); var status := CloseStatus(exitCode);
        && var patch := ClosePatch(pr, exitCode);
        && runningJobs == old(runningJobs) - {pr.job.id}
        && db.runs == RecordedRuns(old(db.runs), pr.run, patch, db.clock)
        && db.jobs == RecordedJobs(old(db.jobs), pr.job, FinalStatus(pr.job, status), db.clock)
        && events == old(events) + [StatusChange(db.GetJob(pr.job.id), db.GetJobRun(pr.run.id))]
        && procs == old(procs)[p := pr.(closed := true,
                      settled := if pr.settled.None? then Some(Resolved(db.GetJobRun(pr.run.id))) else pr.settled)]
      ensures db.clock == old(db.clock)
      ensures ScheduleState() == old(ScheduleState()) && timers == old(timers) && kills == old(kills)
    {
      var pr := procs[p];
      var status := CloseStatus(exitCode);
      var change := Record(pr.run, pr.job, ClosePatch(pr, exitCode), FinalStatus(pr.job, status));
      var closed := pr.(closed := true, settled := if pr.settled.None? then Some(Resolved(change.run)) else pr.settled);
      Finish(p, closed, change);
    }

    /**
     * The process `p` fails (it could not be spawned or killed): forget the
     * job's process, record the error on the run as a failure, put the job
     * back to scheduled or to failed, and reject the execution if it is not
     * settled yet; the cron task's handler writes the rejection to the console.
     */
    method OnError(p: ProcId, message: string)
      requires Valid() && p < |procs|
      modifies this, db
      ensures Valid()
      ensures var pr := old(procs[p]);
        && var patch := ErrorPatch(pr, message);
        && runningJobs == old(runningJobs) - {pr.job.id}
        && db.runs == RecordedRuns(old(db.runs), pr.run, patch, db.clock)
        && db.jobs == RecordedJobs(old(db.jobs), pr.job, FinalStatus(pr.job, RunFailed), db.clock)
        && events == old(events) + [StatusChange(db.GetJob(pr.job.id), db.GetJobRun(pr.run.id))]
        && procs == old(procs)[p := pr.(settled := if pr.settled.None? then Some(Rejected(message)) else pr.settled)]
        && log == old(log) + (if pr.settled.None? && pr.fromTick then [TickFailed(pr.job.id)] else [])
      ensures db.clock == old(db.clock)
      ensures tasks == old(tasks) && scheduledTasks == old(scheduledTasks) && timers == old(timers) && kills == old(kills)
    {
      var pr := procs[p];
      var change := Record(pr.run, pr.job, ErrorPatch(pr, message), FinalStatus(pr.job, RunFailed));
      var failed := pr.(settled := if pr.settled.None? then Some(Rejected(message)) else pr.settled);
      Finish(p, failed, change);
      if pr.settled.None? && pr.fromTick {
        log := log + [TickFailed(pr.job.id)];
      }
    }
  }
}
