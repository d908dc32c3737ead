/**
 * The records shared by the main process and the renderer: jobs and their
 * runs, terminal sessions and editor tabs. Dates are points of an abstract
 * clock (`Time`); `Option` stands for a field that may be `undefined`.
 */
module Types {
  import opened JsBuiltins

  /** A point of the abstract clock that stands for `Date` and `datetime('now')`. */
  type Time = nat

  datatype JobStatus = Pending | Running | Success | Failed | Scheduled

  /** The status of one run: a run is never pending nor scheduled. */
  datatype RunStatus = RunRunning | RunSuccess | RunFailed {
    /** The same status as a job status. */
    function AsJobStatus(): JobStatus {
      match this
      case RunRunning => Running
      case RunSuccess => Success
      case RunFailed => Failed
    }
  }

  datatype Job = Job(
    id: int,
    worktreePath: string,
    name: string,
    command: string,
    cron: Option<string>,
    status: JobStatus,
    lastRun: Option<Time>,
    nextRun: Option<Time>,
    createdAt: Time,
    updatedAt: Time)

  datatype JobRun = JobRun(
    id: int,
    jobId: int,
    startedAt: Time,
    finishedAt: Option<Time>,
    exitCode: Option<int>,
    stdout: string,
    stderr: string,
    status: RunStatus)

  /** The state of one worktree as the sidebar shows it. */
  datatype WorktreeStatus = WorktreeStatus(
    path: string,
    branch: string,
    ahead: int,
    behind: int,
    staged: int,
    unstaged: int,
    untracked: int,
    hasConflicts: bool)

  datatype TerminalSession = TerminalSession(id: string, worktreePath: string, pid: int, cols: int, rows: int)

  datatype ViewType = TerminalView | DiffView | EditorView | JobsView

  datatype Tab = Tab(
    id: string,
    kind: ViewType,
    title: string,
    worktreePath: string,
    terminalId: Option<string>,
    filePath: Option<string>,
    isDirty: Option<bool>)
}
