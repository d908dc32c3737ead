# WorktreeManager core, modelled in Dafny

WorktreeManager is a desktop application for the git worktrees of one
repository. This project models its deterministic core:

- **Job scheduler** (`Scheduler`, `CommandParser`). Jobs are shell commands, each attached to a worktree and optionally to a cron expression.
  - `JobScheduler` keeps the map from job id to cron task (`scheduledTasks`) and the map from job id to running process (`runningJobs`).
  - It starts, stops, runs, deletes and schedules jobs. It records each execution's outcome in the database when the process closes or fails.
  - Child processes, the five-second grace timer and node-cron ticks are abstract events: `OnStdout`, `OnStderr`, `OnClose`, `OnError`, `OnGraceTimer` and `OnCronTick`.
  - Signals sent to processes are the `kills` log, and `statusChange` emissions are the `events` log.
  - Which cron expressions are valid is a predicate given to the constructor.
  - Every execution keeps its own closure state (`procs`): the job snapshot, the run, and the output buffers.
  - Two behaviours of the code are kept as written. A cron tick runs a job even when it is already running, and overwrites its `runningJobs` entry. The close of the older process then deletes the entry of the newer one.
  - Calling `start` twice replaces the task of each job in `scheduledTasks` without stopping the old one, which keeps ticking.
  - The command tokenizer `parseCommand` is a loop over the characters, with quotes.
- **Run store** (`RunStore`). The `jobs` and `job_runs` SQLite tables become two maps keyed by AUTOINCREMENT ids.
  - `datetime('now')` becomes an abstract clock that only moves forward.
  - The model covers creation defaults, partial updates and `finished_at` stamping.
  - It also covers the cascade from a job to its runs, and the filtered, newest-first, limited listings.
- **Git output parsers** (`GitParser`). `parseWorktreeList`, `parseStatusOutput` and `parseDiff` are loops over the lines of the output.
  - Each is proved equal to a fold of a per-line step function.
  - The counting, flag and line-numbering properties are proved about that fold.
- **Renderer state** (`AppStore`, `Shortcuts`, `Toasts`):
  - the zustand reducers for tabs, terminals, the file tree, jobs and the open file;
  - the keyboard shortcut decision;
  - the toast queue with its id counter and default durations.

A JavaScript `Map` whose insertion order matters, the terminal map, keeps its key order next to its entries. `undefined` fields are `Option`s. Strings are sequences of characters.

## Model

| member | source | states |
|---|---|---|
| Scheduler.JobScheduler.constructor | src/main/services/job-scheduler.ts:15-22 | A new scheduler has no scheduled task, no running job and no process. |
| Scheduler.JobScheduler.Start | src/main/services/job-scheduler.ts:27-35 | `start` schedules the listed jobs, in listing order, as `ScheduleAll` of the listing; running processes are untouched. |
| Scheduler.ScheduleAllSpec | src/main/services/job-scheduler.ts:27-35 | Scheduling a listing appends one fresh task per job with a valid cron, in order. It registers each such job's id under its new task and logs one complaint per job whose cron is set but invalid. |
| Scheduler.StartSchedulesEveryValidCron | src/main/services/job-scheduler.ts:27-35 | After `start`, every listed job with a valid cron is in `scheduledTasks`, pointing to a new, unstopped task made for that job. |
| Scheduler.JobScheduler.ScheduleJob | src/main/services/job-scheduler.ts:141-158 | `scheduleJob` changes the schedule exactly as `ScheduleOne` and leaves processes alone. |
| Scheduler.ScheduleOneSpec | src/main/services/job-scheduler.ts:141-158 | Without a cron nothing happens. An invalid cron only logs, and the job gets no entry in `scheduledTasks`. A valid cron adds one new task for the job and points the job's entry at it. |
| Scheduler.JobScheduler.Stop | src/main/services/job-scheduler.ts:40-52 | `stop` stops exactly the tasks in `scheduledTasks`, sends SIGTERM to each process in `runningJobs`, and empties both maps. |
| Scheduler.SigtermsExact | src/main/services/job-scheduler.ts:47-51 | The signals `stop` sends are SIGTERM to exactly the running processes, one each. |
| Scheduler.JobScheduler.CreateJob | src/main/services/job-scheduler.ts:57-65 | `createJob` stores the job with a fresh id and schedules it when it has a cron. It returns the stored job: status scheduled or pending, and an empty cron stored as none. |
| Scheduler.JobScheduler.DeleteJob | src/main/services/job-scheduler.ts:70-86 | After `deleteJob` the id is in neither map. Its task is stopped and its process gets SIGTERM. The job and all its runs are gone from the database. |
| Scheduler.JobScheduler.RunJob | src/main/services/job-scheduler.ts:91-103 | An unknown id fails "not found" and an id in `runningJobs` fails "already running", neither creating a run. Otherwise a running run is inserted under the next id and the job row is patched to running. An empty command then fails with nothing else changed. Any other command spawns a process for that job and run, maps the job id to it in `runningJobs` and emits the status change. |
| Scheduler.JobScheduler.ExecuteJob | src/main/services/job-scheduler.ts:168-200 | An execution inserts a running run and sets the job running. It spawns the parsed command in the job's worktree with the colour environment, puts the job id in `runningJobs` and emits a status change. An empty command fails after the database writes. |
| Scheduler.JobScheduler.OnCronTick | src/main/services/job-scheduler.ts:150-156 | A tick executes the task's job snapshot with no already-running guard. A job missing from the database fails at the run insert. Otherwise a running run is inserted and the job is patched to running, and the tick succeeds exactly when the command has a token. Then it spawns a process, overwrites the job's `runningJobs` entry and emits the status change. A failure changes no process, is logged and is not raised. Tasks, timers and signals are untouched. |
| Scheduler.JobScheduler.StopJob | src/main/services/job-scheduler.ts:108-122 | `stopJob` fails when the job is not running. Otherwise it sends SIGTERM to the job's process and arms one 5000 ms timer bound to that process. |
| Scheduler.JobScheduler.OnGraceTimer | src/main/services/job-scheduler.ts:117-121 | When the timer fires, SIGKILL goes to the captured process exactly when the job id is still in `runningJobs`. |
| Scheduler.JobScheduler.OnStdout | src/main/services/job-scheduler.ts:203-206 | An output chunk is appended to that execution's stdout buffer; nothing else changes. |
| Scheduler.JobScheduler.OnStderr | src/main/services/job-scheduler.ts:208-210 | An error-output chunk is appended to that execution's stderr buffer; nothing else changes. |
| Scheduler.CloseStatus | src/main/services/job-scheduler.ts:215 | The run status is success exactly when the exit code is 0, and is never running. |
| Scheduler.ClosePatch | src/main/services/job-scheduler.ts:218-223 | The close patch stores both buffers, the status, and the exit code, with a missing exit code stored as -1. |
| Scheduler.FinalStatus | src/main/services/job-scheduler.ts:226-229 | After an execution the job is scheduled if it has a cron, else it takes the run's outcome. |
| Scheduler.JobScheduler.OnClose | src/main/services/job-scheduler.ts:212-235 | A close removes the job from `runningJobs` and records the close patch on the run, stamping `finished_at`. It sets the job's final status and lastRun, emits the updated job and run, and resolves the execution unless it was already settled. |
| Scheduler.ErrorPatch | src/main/services/job-scheduler.ts:240-244 | The error patch sets stderr to the buffered stderr, a newline and the message; exit code -1; status failed. |
| Scheduler.JobScheduler.OnError | src/main/services/job-scheduler.ts:237-254 | An error removes the job from `runningJobs`, records the error patch, sets the job scheduled or failed with lastRun, emits the change, and rejects the execution unless it was already settled. A tick's rejection is logged. |
| CommandParser.ParseCommand | src/main/services/job-scheduler.ts:261-290 | The loop computes the tokenizer's fold over the characters, plus the last token if it is not empty. |
| CommandParser.RunConsistent | src/main/services/job-scheduler.ts:268-283 | The tokenizer remembers a quote character exactly while a quote is open, and never finishes an empty token. |
| CommandParser.NoEmptyToken | src/main/services/job-scheduler.ts:275-287 | No token is empty. |
| CommandParser.QuoteFreeIsSplit | src/main/services/job-scheduler.ts:261-290 | Without quote characters, the tokens are the non-empty pieces of splitting on single spaces. |
| CommandParser.QuotedSegment | src/main/services/job-scheduler.ts:269-274 | A quoted segment adds its text, spaces and the other quote kind included, to the current token, and drops both quotes. |
| CommandParser.UnterminatedQuote | src/main/services/job-scheduler.ts:268-283 | An unterminated quote keeps everything after it in the current token, to the end of the input. |
| CommandParser.QuotedArgument | src/main/services/job-scheduler.ts:261-290 | `prog "a b"` tokenizes to the program and the one argument `a b`. |
| RunStore.RowToJob | src/main/services/database.ts:167-180 | Reading a job row carries every column over and turns an empty or NULL cron into none. |
| RunStore.JobRowRoundTrip | src/main/services/database.ts:167-180 | Reading then writing a job row, or writing then reading a job, loses nothing when the cron is not the empty string. |
| RunStore.RowToJobRun | src/main/services/database.ts:182-193 | Reading a run row loses nothing: the row is recovered from the run. |
| RunStore.JobRunRowRoundTrip | src/main/services/database.ts:182-193 | Writing then reading a run gives the same run. |
| RunStore.Database.constructor | src/main/services/database.ts:16-49 | A new store has empty tables and both id sequences at 0. |
| RunStore.Database.CreateJob | src/main/services/database.ts:54-62 | `createJob` takes an id above every earlier one. Status is scheduled when a cron is given and pending otherwise; an empty cron is stored as NULL. There is no last or next run, and both timestamps are the clock. |
| RunStore.Database.GetJob | src/main/services/database.ts:64-68 | `getJob` finds a job exactly when its row exists, and returns that row's job. |
| RunStore.Database.ListJobs | src/main/services/database.ts:70-79 | With a non-empty path, `listJobs` returns exactly the jobs with that path; otherwise all jobs. Both are newest created first. |
| RunStore.Patched | src/main/services/database.ts:81-104 | An update sets exactly the given fields among status, lastRun and nextRun, and refreshes updated_at. Worktree, name, command, cron and creation time are untouched. |
| RunStore.Database.PatchJobRow | src/main/services/database.ts:82-96 | The SET clauses built one by one produce `Patched`. |
| RunStore.Database.UpdateJob | src/main/services/database.ts:81-104 | `updateJob` patches only that job's row, changes no run, and returns the updated job, or none for a missing id. |
| RunStore.Database.DeleteJob | src/main/services/database.ts:106-109 | `deleteJob` removes the job and, by the cascade, exactly its runs; `getJobRuns` for it is then empty. |
| RunStore.Database.CreateJobRun | src/main/services/database.ts:113-120 | `createJobRun` gives a run with a fresh, larger id, status running, empty output, and no finish time or exit code. For a missing job the foreign key refuses it and nothing changes. |
| RunStore.Database.GetJobRun | src/main/services/database.ts:122-126 | `getJobRun` finds a run exactly when its row exists. |
| RunStore.RunPatched | src/main/services/database.ts:128-158 | A run update sets exactly the given fields. finished_at is stamped exactly when a status other than running is given. |
| RunStore.Database.PatchRunRow | src/main/services/database.ts:129-150 | The SET clauses built one by one produce `RunPatched`. |
| RunStore.Database.UpdateJobRun | src/main/services/database.ts:128-158 | `updateJobRun` patches only that run's row and returns it, or none for a missing id. |
| RunStore.Database.GetJobRuns | src/main/services/database.ts:160-163 | `getJobRuns` returns only that job's runs, newest started first, and at most `limit` of them (default 10). |
| RunStore.Database.GetJobRunsNewest | src/main/services/database.ts:160-163 | A run of the job that is left out means the limit was reached, and every returned run is newer than it. |
| RunStore.Database.RunsOfMissingJob | src/main/services/database.ts:160-163 | A job without a row has no runs to list. |
| GitParser.ParseWorktreeList | src/main/services/git-parser.ts:6-47 | The loop computes the fold of the worktree step over the lines, then flushes and marks the first worktree main. |
| GitParser.WorktreePerHeader | src/main/services/git-parser.ts:10-39 | There is one worktree per `worktree <path>` line with a non-empty path, in input order. |
| GitParser.OnlyFirstIsMain | src/main/services/git-parser.ts:41-44 | Exactly the first worktree is the main one. |
| GitParser.NoWorktreesInEmptyOutput | src/main/services/git-parser.ts:6-47 | Empty output lists no worktree. |
| GitParser.BlockFlags | src/main/services/git-parser.ts:15-31 | isBare, locked and prunable are each true exactly when the line `bare`, `locked` or `prunable` occurs in that worktree's block. |
| GitParser.BranchFromRef | src/main/services/git-parser.ts:24-25 | `branch refs/heads/X` names the branch X. |
| GitParser.DetachedNamesHead | src/main/services/git-parser.ts:32-33 | A `detached` line names the branch `(detached at <first 7 characters of HEAD>)`. |
| GitParser.ParseStatusOutput | src/main/services/git-parser.ts:52-81 | The loop computes the fold of the status step over the lines. |
| GitParser.StatusBounds | src/main/services/git-parser.ts:58-78 | untracked + staged and untracked + unstaged are each at most the number of non-empty lines. |
| GitParser.ConflictsIffConflictLine | src/main/services/git-parser.ts:63-67 | hasConflicts holds exactly when some line has `U` in column 0 or 1, or starts `AA` or `DD`. |
| GitParser.EmptyStatus | src/main/services/git-parser.ts:52-81 | Empty output gives zero counts and no conflict. |
| GitParser.HunkHeaderRoundTrip | src/main/services/git-parser.ts:142-153 | Parsing a written hunk header gives back its four numbers, whatever section heading follows. |
| GitParser.RangeOfText | src/main/services/git-parser.ts:142-150 | One side of a header, its start with or without `,count`, reads back as that start and that count, 1 when omitted. |
| GitParser.OmittedCountIsOne | src/main/services/git-parser.ts:148-150 | Each side's omitted count defaults to 1 on its own, whether the other side gives its count or not. |
| GitParser.Describe | src/main/services/git-parser.ts:120-135 | A file information line never touches the file's hunks. |
| GitParser.DescribeFile | src/main/services/git-parser.ts:120-135 | The loop's file information branches update the open file as `Describe` does, so they never touch its hunks. |
| GitParser.AddContent | src/main/services/git-parser.ts:154-183 | The loop's content branches add the line `ContentLine` gives to the open hunk, or nothing for any other line. They advance the counters and stats of its kind as `AddLine` does. |
| GitParser.ParseDiff | src/main/services/git-parser.ts:86-198 | The loop computes the fold of the diff step over the lines, then pushes the last file and hunk and counts the files. |
| GitParser.DiffCounts | src/main/services/git-parser.ts:100-198 | There is one file per `diff --git` line, and filesChanged is the number of files. insertions and deletions count exactly the added and deleted lines the hunks hold. |
| GitParser.NoNewlineMarkerIgnored | src/main/services/git-parser.ts:181-183 | The `\ No newline at end of file` marker changes nothing. |
| GitParser.EmptyDiff | src/main/services/git-parser.ts:86-198 | Empty output has no file and zero stats. |
| GitParser.HunksWellNumbered | src/main/services/git-parser.ts:142-180 | In every hunk, added lines take consecutive new numbers from newStart and deleted lines take consecutive old numbers from oldStart. Context lines advance both. |
| AppStore.AddTab | src/renderer/store/index.ts:202-206 | `addTab` appends the tab at the end and makes it active; nothing else changes. |
| AppStore.RemoveTab | src/renderer/store/index.ts:208-222 | `removeTab` keeps the tabs with another id, in order and with their multiplicity (`filter`). The active tab is unchanged unless it was removed. If it was, it becomes none when no tab is left. Otherwise it becomes the tab just before the first removed position, or the first remaining tab when that position is 0. |
| AppStore.NextActiveTab | src/renderer/store/index.ts:211-219 | The next active tab is the old one unless it was removed. If it was, it is none on an empty remainder. Otherwise it is a remaining tab with another id: the one just before the removed position, or the first remaining one when that position is 0 or not found. |
| AppStore.RemoveTabIndexInRange | src/renderer/store/index.ts:214-216 | The index max(0, removedIndex - 1) always falls inside the remaining tabs. For a removed index above 0, the remaining tab at removedIndex - 1 is the original one. |
| AppStore.RemoveActiveTabSelectsNeighbour | src/renderer/store/index.ts:208-222 | Closing the active tab at position i > 0 activates the tab just before it. Closing the first activates the next one, and closing the only one leaves none. |
| AppStore.Merge | src/renderer/store/index.ts:228 | Each field the patch supplies replaces the tab's field; the others are kept. |
| AppStore.UpdateTab | src/renderer/store/index.ts:226-229 | `updateTab` merges the patch into the tabs with that id only. Length and order are kept. |
| AppStore.UpdateTabEmptyPatch | src/renderer/store/index.ts:226-229 | An empty patch changes nothing. |
| AppStore.MapSet | src/renderer/store/index.ts:154 | Setting a key overwrites its entry. A new key goes last in insertion order and an existing key keeps its place. |
| AppStore.AddTerminal | src/renderer/store/index.ts:152-156 | `addTerminal` stores the session under its id, overwriting any earlier one, and makes it active. |
| AppStore.RemoveTerminal | src/renderer/store/index.ts:158-169 | `removeTerminal` deletes the id. The active terminal changes only when it was the removed one, and then to a remaining, non-empty id or none. |
| AppStore.RemoveActiveTerminalSelectsOldest | src/renderer/store/index.ts:158-169 | Closing the active terminal activates the first remaining key in insertion order, or none when no session is left. |
| AppStore.ToggleExpandedPath | src/renderer/store/index.ts:235-244 | `toggleExpandedPath` adds the path if absent and removes it if present; no other path changes. |
| AppStore.ToggleTwice | src/renderer/store/index.ts:235-244 | Toggling the same path twice restores the state. |
| AppStore.UpdateJob | src/renderer/store/index.ts:185-188 | `updateJob` replaces the job with the same id in place. It never adds, removes or reorders jobs. |
| AppStore.UpdateUnlistedJob | src/renderer/store/index.ts:185-188 | An update for a job that is not listed changes nothing. |
| AppStore.SetWorktreeStatus | src/renderer/store/index.ts:143-146 | `setWorktreeStatus` overwrites only that path's status entry; every other entry and field is kept. |
| AppStore.SetJobRuns | src/renderer/store/index.ts:192-195 | `setJobRuns` overwrites only the given job's entry. |
| AppStore.SetOpenFile | src/renderer/store/index.ts:179 | `setOpenFile` opens the file and always resets unsavedChanges to false. |
| Shortcuts.HandleKeyDown | src/renderer/hooks/useKeyboardShortcuts.ts:27-118 | An effect always comes with preventDefault. |
| Shortcuts.FocusBailOut | src/renderer/hooks/useKeyboardShortcuts.ts:29-44 | With focus in an input, a textarea, the terminal or the editor nothing fires, except Cmd+S in the editor, which saves. |
| Shortcuts.CommandKey | src/renderer/hooks/useKeyboardShortcuts.ts:47-94 | Cmd+1 to Cmd+4 choose the four views. A handler is invoked only when it was passed. |
| Shortcuts.ViewSwitching | src/renderer/hooks/useKeyboardShortcuts.ts:47-64 | Cmd+1/2/3/4 without Shift or Alt select the terminal, diff, editor and jobs views. |
| JsBuiltins.FindIndex | src/renderer/hooks/useKeyboardShortcuts.ts:98 | `findIndex` gives the first index whose element satisfies the predicate, or -1 exactly when none does. |
| Shortcuts.ArrowKey | src/renderer/hooks/useKeyboardShortcuts.ts:97-117 | Arrows select only a listed worktree, nothing from an empty list, and always prevent the default. |
| Shortcuts.ArrowUpMoves | src/renderer/hooks/useKeyboardShortcuts.ts:101-107 | ArrowUp selects the previous worktree. At index 0 it changes nothing; with no listed selection it selects the last. |
| Shortcuts.ArrowDownMoves | src/renderer/hooks/useKeyboardShortcuts.ts:109-115 | ArrowDown selects the next worktree. At the last index it changes nothing; with no listed selection it selects the first. |
| Shortcuts.ArrowDownFallbackUnreachable | src/renderer/hooks/useKeyboardShortcuts.ts:111-114 | ArrowDown's "no selection" fallback is never reached: the first branch already selects index 0. |
| Shortcuts.SelectionIsListed | src/renderer/hooks/useKeyboardShortcuts.ts:97-117 | Any selection names a listed worktree, never from an empty list and never while Meta, Ctrl or Alt is held. |
| Toasts.ToastStore.constructor | src/renderer/components/Toast.tsx:19-22 | The counter starts at 0 with no toast. |
| Toasts.ToastStore.AddToast | src/renderer/components/Toast.tsx:23-28 | `addToast` increments the counter and appends a toast with the new id, after all earlier toasts, unchanged. Its id exceeds every earlier id; the type defaults to info and the duration to 5000. |
| Toasts.ToastStore.RemoveToast | src/renderer/components/Toast.tsx:29-33 | `removeToast` removes the toasts with that id only, keeping ids increasing. |
| JsBuiltins.Filter | src/renderer/components/Toast.tsx:31 | `filter` keeps exactly the elements the predicate accepts and never lengthens the list. |
| JsBuiltins.FilterAppend | src/renderer/store/index.ts:210 | Filtering a concatenation is the concatenation of the filtered parts, so order and multiplicity are kept. |
| JsBuiltins.FilterSingle | src/renderer/store/index.ts:210 | A one-element list keeps its element exactly when the predicate accepts it. |
| Toasts.WithoutAbsent | src/renderer/components/Toast.tsx:29-33 | Removing an absent id leaves the list unchanged. |
| Toasts.WithoutIncreasing | src/renderer/components/Toast.tsx:29-33 | Removal keeps the others in order, so ids stay increasing. |
| Toasts.AddThenRemove | src/renderer/components/Toast.tsx:23-33 | Removing a just-added toast restores the list. |
| Toasts.ToastStore.Info | src/renderer/components/Toast.tsx:38-39 | `toast.info` adds an info toast, duration 5000 unless given. |
| Toasts.ToastStore.Success | src/renderer/components/Toast.tsx:40-41 | `toast.success` adds a success toast, duration 5000 unless given. |
| Toasts.ToastStore.Warning | src/renderer/components/Toast.tsx:42-43 | `toast.warning` adds a warning toast, duration 5000 unless given. |
| Toasts.ToastStore.Error | src/renderer/components/Toast.tsx:44-45 | `toast.error` adds an error toast, duration 8000 unless given. |

## Left out

- Process spawning is not modelled. A spawned process is a `Proc` record carrying the shell command line, its working directory and its environment. The inherited environment is a constructor parameter.
- Signals, stream decoding and the node-cron scheduler are abstract events. An output chunk arrives already decoded as a string.
- Cron validation is the `validCron` parameter, and the grace timer is a `GraceTimer` record fired by `OnGraceTimer`.
- The EventEmitter and Electron IPC are not modelled: a `statusChange` emission is appended to `events`, and console errors are appended to `log`.
- Promises are not modelled. An execution's resolution or rejection is the `settled` field of its process. Whether anyone awaits it is not modelled.
- Scheduler.JobScheduler.Stop: the SIGTERMs go out in process-creation order rather than in the `Map`'s insertion order of job ids. This order is observable only across different processes.
- Scheduler.JobScheduler.OnClose: `lastRun` is taken from the database clock, not a separate JavaScript `Date`. Both clocks are one abstract clock here.
- The scheduler's `listJobs` and `getJobRuns` only delegate to the database. They are modelled as `RunStore.Database.ListJobs` and `GetJobRuns`.
- SQL text, the WAL pragma and ISO date strings are not modelled. Dates are points of the abstract clock. `AdvanceClock` moves the clock forward and is assumed monotone.
- RunStore.Database.ListJobs: `ORDER BY created_at DESC` leaves ties in any order. The model breaks ties by decreasing id, one of the orders SQLite may return. Its contract promises this order.
- RunStore.Database.GetJobRuns: ties in `started_at` are broken by decreasing id, as for `ListJobs`.
- RunStore.Database.UpdateJob: a patch whose lastRun or nextRun is given as `null` (clear the column) cannot be expressed. The scheduler never sends one.
- RunStore.Database.UpdateJobRun: requires at least one field in the patch. An empty patch produces an UPDATE statement with no SET clause, which SQLite rejects. That failure is not modelled.
- GitParser.ParseDiff: a hunk header that does not parse opens no hunk, and the lines that follow are ignored. The code would instead keep filling, and push again, the hunk it has already closed.
- GitParser.ParseDiff: the hunk header pattern is matched at the start of the line, whereas the regular expression in the source is unanchored. They differ on any line that starts with `@@`, is not a well-formed header from its first character, and holds a well-formed header further on, such as `@@ -a +1 @@ @@ -3 +4 @@` or `@@@ -1 +1 @@`: the source reads the later header, and the model opens no hunk.
- `parseInt` is modelled on strings of decimal digits only, which is all the header pattern admits. Its result is an unbounded `nat`, whereas JavaScript numbers lose precision above 2^53.
- AppStore.SetWorktreeStatus: `worktreeStatuses` is a map without insertion order, because no modelled reducer reads that order.
- Store setters that assign one field without reading state are not modelled. These are `setBasePath`, `setWorktrees`, `selectWorktree`, `setActiveView`, `setActiveTerminal`, `setDiff`, `setDiffMode`, `setCompareRef`, `setUnsavedChanges`, `setJobs`, `selectJob`, `setPaneSizes`, `setRightPanelVisible`, `setActiveTab`, `setQuickOpenVisible`, `setExpandedPaths`, `setSettings` and `setSettingsVisible`.
- AppStore.RemoveActiveTabSelectsNeighbour: stated for lists where the removed id is unique. With duplicate ids, `RemoveTab`'s own contract still holds.
- The keyboard hook's `refreshWorktrees` (IPC calls) and the listener registration are not modelled. The DOM queries for the focused element are reduced to its tag name and two flags.
- Toast rendering and the auto-dismiss timer in `ToastItem` are UI and not modelled. A duration given as `null` to `toast.error` is treated like a missing one.
