/**
 * The renderer's application store: the reducers that keep the open tabs,
 * the terminal sessions, the expanded folders of the file tree, the jobs and
 * their runs, and the file open in the editor. Each reducer maps the store's
 * state to the next one; a zustand `set` merges the fields a reducer returns
 * into the state, so every field a reducer does not name is left as it was.
 */
module AppStore {
  import opened JsBuiltins
  import opened Types

  /**
   * A JavaScript `Map` from terminal id to session: its entries and the
   * order in which their keys were first inserted.
   */
  datatype Terminals = Terminals(keys: seq<string>, entries: map<string, TerminalSession>)

  ghost predicate Distinct(keys: seq<string>) {
    forall i, j :: 0 <= i < j < |keys| ==> keys[i] != keys[j]
  }

  /** The insertion order lists every key of the map exactly once. */
  ghost predicate WellFormed(m: Terminals) {
    (forall k :: k in m.keys <==> k in m.entries) && Distinct(m.keys)
  }

  datatype OpenFile = OpenFile(path: string, content: string)

  /** The part of the store the modelled reducers read and write. */
  datatype AppState = AppState(
    worktreeStatuses: map<string, WorktreeStatus>,
    terminals: Terminals,
    activeTerminal: Option<string>,
    openFile: Option<OpenFile>,
    unsavedChanges: bool,
    jobs: seq<Job>,
    jobRuns: map<int, seq<JobRun>>,
    tabs: seq<Tab>,
    activeTabId: Option<string>,
    expandedPaths: set<string>)

  // --- Map and array helpers ----------------------------------------------

  /** `keys` without `k`, the others in their order. */
  function WithoutKey(keys: seq<string>, k: string): seq<string> {
    Filter(keys, (x: string) => x != k)
  }

  /** `map.set(k, v)`: a new key goes last, an existing key keeps its place. */
  function MapSet(m: Terminals, k: string, v: TerminalSession): (r: Terminals)
    requires WellFormed(m)
    ensures WellFormed(r)
    ensures r.entries == m.entries[k := v]
    ensures k in m.entries ==> r.keys == m.keys
    ensures k !in m.entries ==> r.keys == m.keys + [k]
  {
    if k in m.entries then Terminals(m.keys, m.entries[k := v])
    else Terminals(m.keys + [k], m.entries[k := v])
  }

  /** `map.delete(k)`. */
  function MapDelete(m: Terminals, k: string): (r: Terminals)
    requires WellFormed(m)
    ensures WellFormed(r)
    ensures r.entries == m.entries - {k}
  {
    WithoutKeyDistinct(m.keys, k);
    Terminals(WithoutKey(m.keys, k), m.entries - {k})
  }

  lemma {:induction false} WithoutKeyDistinct(keys: seq<string>, k: string)
    requires Distinct(keys)
    ensures Distinct(WithoutKey(keys, k))
    decreases |keys|
  {
    if keys != [] {
      var tail := keys[1..];
      assert Distinct(tail) by {
        forall i, j | 0 <= i < j < |tail| ensures tail[i] != tail[j] {
          assert tail[i] == keys[i + 1] && tail[j] == keys[j + 1];
        }
      }
      WithoutKeyDistinct(tail, k);
      if keys[0] != k {
        var rest := WithoutKey(tail, k);
        assert keys[0] !in tail by {
          forall j | 0 <= j < |tail| ensures tail[j] != keys[0] {
            assert tail[j] == keys[j + 1];
          }
        }
        assert keys[0] !in rest;
        var r := [keys[0]] + rest;
        assert WithoutKey(keys, k) == r;
        forall i, j | 0 <= i < j < |r| ensures r[i] != r[j] {
          if i == 0 {
            assert r[j] == rest[j - 1] && rest[j - 1] in rest;
          } else {
            assert r[i] == rest[i - 1] && r[j] == rest[j - 1];
          }
        }
      }
    }
  }

  /** The index of the first tab with this id, or -1 (`findIndex`). */
  function TabIndex(tabs: seq<Tab>, id: string): int {
    FindIndex(tabs, (t: Tab) => t.id == id)
  }

  /** The tabs whose id is not `id`, in order (`filter`). */
  function TabsWithout(tabs: seq<Tab>, id: string): seq<Tab> {
    Filter(tabs, (t: Tab) => t.id != id)
  }

  // --- Tabs ---------------------------------------------------------------

  /** `addTab`: the tab goes last and becomes the active one. */
  function AddTab(s: AppState, tab: Tab): (r: AppState)
    ensures |r.tabs| == |s.tabs| + 1 && r.tabs[..|s.tabs|] == s.tabs && r.tabs[|s.tabs|] == tab
    ensures r.activeTabId == Some(tab.id)
    ensures r.(tabs := s.tabs, activeTabId := s.activeTabId) == s
  {
    s.(tabs := s.tabs + [tab], activeTabId := Some(tab.id))
  }

  /**
   * `removeTab`: every tab with this id is dropped. When it was the active
   * tab, the remaining tab at index max(0, removedIndex - 1) becomes active,
   * or none when no tab remains. With `removedIndex` the first index holding
   * the id, that is the tab just before it, or the first remaining tab when
   * the id was first or not listed at all.
   */
  function RemoveTab(s: AppState, id: string): (r: AppState)
    ensures r.tabs == TabsWithout(s.tabs, id)
    ensures forall t :: t in r.tabs <==> t in s.tabs && t.id != id
    ensures s.activeTabId != Some(id) ==> r.activeTabId == s.activeTabId
    ensures s.activeTabId == Some(id) ==>
      var i := TabIndex(s.tabs, id);
      && (r.tabs == [] ==> r.activeTabId == None)
      && (i > 0 ==> r.activeTabId == Some(s.tabs[i - 1].id))
      && (i <= 0 && r.tabs != [] ==> r.activeTabId == Some(r.tabs[0].id))
    ensures s.activeTabId == Some(id) && r.tabs != [] ==>
      r.activeTabId.Some? && r.activeTabId.value != id && exists t :: t in r.tabs && t.id == r.activeTabId.value
    ensures r.(tabs := s.tabs, activeTabId := s.activeTabId) == s
  {
    s.(tabs := TabsWithout(s.tabs, id), activeTabId := NextActiveTab(s.tabs, s.activeTabId, id))
  }

  /** The active tab after `removeTab`, from the tabs and the active tab before it. */
  function NextActiveTab(tabs: seq<Tab>, active: Option<string>, id: string): (a: Option<string>)
    ensures active != Some(id) ==> a == active
    ensures active == Some(id) ==>
      var rest := TabsWithout(tabs, id); var i := TabIndex(tabs, id);
      && (rest == [] ==> a == None)
      && (i > 0 ==> a == Some(tabs[i - 1].id))
      && (i <= 0 && rest != [] ==> a == Some(rest[0].id))
    ensures active == Some(id) && TabsWithout(tabs, id) != [] ==>
      a.Some? && a.value != id && exists t :: t in TabsWithout(tabs, id) && t.id == a.value
  {
    var rest := TabsWithout(tabs, id);
    RemoveTabIndexInRange(tabs, id);
    if active == Some(id) then
      var removedIndex := TabIndex(tabs, id);
      if |rest| > 0 then
        var k := if removedIndex - 1 > 0 then removedIndex - 1 else 0;
        if k < |rest| then
          assert rest[k] in rest;
          Some(rest[k].id)
        else None
      else None
    else active
  }

  /**
   * The index `removeTab` reads is always inside the remaining tabs, so the
   * "no tab there" fallback never applies; past the first position it holds
   * the tab just before the removed one.
   */
  lemma RemoveTabIndexInRange(tabs: seq<Tab>, id: string)
    ensures var i := TabIndex(tabs, id); var k := if i - 1 > 0 then i - 1 else 0;
      TabsWithout(tabs, id) != [] ==> k < |TabsWithout(tabs, id)|
    ensures var i := TabIndex(tabs, id);
      i > 0 ==> i - 1 < |TabsWithout(tabs, id)| && TabsWithout(tabs, id)[i - 1] == tabs[i - 1]
  {
    var i := TabIndex(tabs, id);
    if i >= 1 {
      FilterPrefix(tabs, (t: Tab) => t.id != id, i);
    }
  }

  /**
   * When the id is listed once, at position i: closing the active tab
   * activates the tab just before it, or, for the first tab, the tab that
   * followed it, or none when it was the only tab.
   */
  lemma RemoveActiveTabSelectsNeighbour(s: AppState, id: string, i: nat)
    requires s.activeTabId == Some(id)
    requires i < |s.tabs| && s.tabs[i].id == id
    requires forall k :: 0 <= k < |s.tabs| && k != i ==> s.tabs[k].id != id
    ensures |s.tabs| == 1 ==> RemoveTab(s, id).activeTabId == None
    ensures i > 0 ==> RemoveTab(s, id).activeTabId == Some(s.tabs[i - 1].id)
    ensures i == 0 && |s.tabs| > 1 ==> RemoveTab(s, id).activeTabId == Some(s.tabs[1].id)
  {
    assert TabIndex(s.tabs, id) == i;
    if |s.tabs| == 1 {
      FilterDropsAll(s.tabs, (t: Tab) => t.id != id);
    } else if i == 0 {
      FilterFirst(s.tabs, (t: Tab) => t.id != id, 1);
    }
  }

  /** Which fields of a tab an `updateTab` patch supplies; an optional field can be supplied as `undefined`. */
  datatype TabPatch = TabPatch(
    id: Option<string>,
    kind: Option<ViewType>,
    title: Option<string>,
    worktreePath: Option<string>,
    terminalId: Option<Option<string>>,
    filePath: Option<Option<string>>,
    isDirty: Option<Option<bool>>)

  /** `{ ...t, ...updates }`: each supplied field wins. */
  function Merge(t: Tab, p: TabPatch): (r: Tab)
    ensures r.id == p.id.GetOr(t.id) && r.kind == p.kind.GetOr(t.kind)
    ensures r.title == p.title.GetOr(t.title) && r.worktreePath == p.worktreePath.GetOr(t.worktreePath)
    ensures r.terminalId == p.terminalId.GetOr(t.terminalId) && r.filePath == p.filePath.GetOr(t.filePath)
    ensures r.isDirty == p.isDirty.GetOr(t.isDirty)
  {
    Tab(p.id.GetOr(t.id), p.kind.GetOr(t.kind), p.title.GetOr(t.title), p.worktreePath.GetOr(t.worktreePath),
        p.terminalId.GetOr(t.terminalId), p.filePath.GetOr(t.filePath), p.isDirty.GetOr(t.isDirty))
  }

  function MergeWhere(tabs: seq<Tab>, id: string, p: TabPatch): (r: seq<Tab>)
    ensures |r| == |tabs|
    ensures forall k :: 0 <= k < |tabs| ==> r[k] == if tabs[k].id == id then Merge(tabs[k], p) else tabs[k]
    decreases |tabs|
  {
    if tabs == [] then []
    else [if tabs[0].id == id then Merge(tabs[0], p) else tabs[0]] + MergeWhere(tabs[1..], id, p)
  }

  /** `updateTab`: the patch is merged into the tabs with this id only; length and order are kept. */
  function UpdateTab(s: AppState, id: string, updates: TabPatch): (r: AppState)
    ensures |r.tabs| == |s.tabs|
    ensures forall k :: 0 <= k < |s.tabs| && s.tabs[k].id != id ==> r.tabs[k] == s.tabs[k]
    ensures forall k :: 0 <= k < |s.tabs| && s.tabs[k].id == id ==> r.tabs[k] == Merge(s.tabs[k], updates)
    ensures r.(tabs := s.tabs) == s
  {
    s.(tabs := MergeWhere(s.tabs, id, updates))
  }

  /** An empty patch leaves every tab as it was. */
  lemma UpdateTabEmptyPatch(s: AppState, id: string)
    ensures UpdateTab(s, id, TabPatch(None, None, None, None, None, None, None)) == s
  {
    var r := UpdateTab(s, id, TabPatch(None, None, None, None, None, None, None));
    assert r.tabs == s.tabs;
  }

  // --- Terminals ----------------------------------------------------------

  /** `addTerminal`: the session is stored under its id, replacing any earlier one, and becomes active. */
  function AddTerminal(s: AppState, session: TerminalSession): (r: AppState)
    requires WellFormed(s.terminals)
    ensures WellFormed(r.terminals)
    ensures r.terminals.entries == s.terminals.entries[session.id := session]
    ensures session.id !in s.terminals.entries ==> r.terminals.keys == s.terminals.keys + [session.id]
    ensures session.id in s.terminals.entries ==> r.terminals.keys == s.terminals.keys
    ensures r.activeTerminal == Some(session.id)
    ensures r.(terminals := s.terminals, activeTerminal := s.activeTerminal) == s
  {
    s.(terminals := MapSet(s.terminals, session.id, session), activeTerminal := Some(session.id))
  }

  /**
   * `removeTerminal`: the id is deleted. Only when it was the active terminal
   * does the active terminal move, to the first remaining key; an empty map,
   * or a first key that is the empty string (falsy for `||`), gives none.
   */
  function RemoveTerminal(s: AppState, id: string): (r: AppState)
    requires WellFormed(s.terminals)
    ensures WellFormed(r.terminals)
    ensures r.terminals.entries == s.terminals.entries - {id}
    ensures s.activeTerminal != Some(id) ==> r.activeTerminal == s.activeTerminal
    ensures s.activeTerminal == Some(id) && r.activeTerminal.Some? ==>
      r.activeTerminal.value in r.terminals.entries && r.activeTerminal.value != ""
    ensures r.(terminals := s.terminals, activeTerminal := s.activeTerminal) == s
  {
    var terminals := MapDelete(s.terminals, id);
    var first := if terminals.keys != [] then terminals.keys[0] else "";
    s.(terminals := terminals,
       activeTerminal := if s.activeTerminal == Some(id) then (if first != "" then Some(first) else None)
                         else s.activeTerminal)
  }

  /**
   * Closing the active terminal activates the earliest-inserted remaining
   * session (unless its id is the empty string), or none when no session is
   * left.
   */
  lemma RemoveActiveTerminalSelectsOldest(s: AppState, id: string)
    requires WellFormed(s.terminals) && s.activeTerminal == Some(id)
    ensures s.terminals.entries.Keys <= {id} ==> RemoveTerminal(s, id).activeTerminal == None
    ensures forall i :: (0 <= i < |s.terminals.keys| && s.terminals.keys[i] != id && s.terminals.keys[i] != ""
        && (forall j :: 0 <= j < i ==> s.terminals.keys[j] == id)) ==>
      RemoveTerminal(s, id).activeTerminal == Some(s.terminals.keys[i])
  {
    var keys := s.terminals.keys;
    if s.terminals.entries.Keys <= {id} {
      assert forall j :: 0 <= j < |keys| ==> keys[j] == id by {
        forall j | 0 <= j < |keys| ensures keys[j] == id {
          assert keys[j] in keys;
        }
      }
      FilterDropsAll(keys, (x: string) => x != id);
    }
    forall i | 0 <= i < |keys| && keys[i] != id && keys[i] != "" && (forall j :: 0 <= j < i ==> keys[j] == id)
      ensures RemoveTerminal(s, id).activeTerminal == Some(keys[i])
    {
      FilterFirst(keys, (x: string) => x != id, i);
    }
  }

  // --- File tree ----------------------------------------------------------

  /** `toggleExpandedPath`: the path is added when absent and removed when present; no other path changes. */
  function ToggleExpandedPath(s: AppState, path: string): (r: AppState)
    ensures path in r.expandedPaths <==> path !in s.expandedPaths
    ensures r.expandedPaths - {path} == s.expandedPaths - {path}
    ensures r.(expandedPaths := s.expandedPaths) == s
  {
    var expandedPaths := if path in s.expandedPaths then s.expandedPaths - {path} else s.expandedPaths + {path};
    s.(expandedPaths := expandedPaths)
  }

  /** Toggling the same path twice restores the state. */
  lemma ToggleTwice(s: AppState, path: string)
    ensures ToggleExpandedPath(ToggleExpandedPath(s, path), path) == s
  {
    var r := ToggleExpandedPath(ToggleExpandedPath(s, path), path);
    assert r.expandedPaths == s.expandedPaths by {
      assert path in r.expandedPaths <==> path in s.expandedPaths;
      assert r.expandedPaths - {path} == s.expandedPaths - {path};
    }
  }

  // --- Jobs ---------------------------------------------------------------

  function ReplaceById(jobs: seq<Job>, job: Job): (r: seq<Job>)
    ensures |r| == |jobs|
    ensures forall k :: 0 <= k < |jobs| ==> r[k] == if jobs[k].id == job.id then job else jobs[k]
    decreases |jobs|
  {
    if jobs == [] then []
    else [if jobs[0].id == job.id then job else jobs[0]] + ReplaceById(jobs[1..], job)
  }

  /**
   * `updateJob`: the job with the same id is replaced in place; no job is
   * added, removed or moved, so the sequence of ids is unchanged.
   */
  function UpdateJob(s: AppState, job: Job): (r: AppState)
    ensures |r.jobs| == |s.jobs|
    ensures forall k :: 0 <= k < |s.jobs| ==> r.jobs[k].id == s.jobs[k].id
    ensures forall k :: 0 <= k < |s.jobs| ==> r.jobs[k] == s.jobs[k] || r.jobs[k] == job
    ensures forall k :: 0 <= k < |s.jobs| && s.jobs[k].id == job.id ==> r.jobs[k] == job
    ensures r.(jobs := s.jobs) == s
  {
    s.(jobs := ReplaceById(s.jobs, job))
  }

  /** An update for a job that is not listed changes nothing. */
  lemma UpdateUnlistedJob(s: AppState, job: Job)
    requires forall k :: 0 <= k < |s.jobs| ==> s.jobs[k].id != job.id
    ensures UpdateJob(s, job) == s
  {
    assert UpdateJob(s, job).jobs == s.jobs;
  }

  /** `setJobRuns`: only the given job's entry is overwritten. */
  function SetJobRuns(s: AppState, jobId: int, runs: seq<JobRun>): (r: AppState)
    ensures jobId in r.jobRuns && r.jobRuns[jobId] == runs
    ensures forall id :: id != jobId ==> (id in r.jobRuns <==> id in s.jobRuns)
    ensures forall id :: id != jobId && id in s.jobRuns ==> r.jobRuns[id] == s.jobRuns[id]
    ensures r.(jobRuns := s.jobRuns) == s
  {
    s.(jobRuns := s.jobRuns[jobId := runs])
  }

  // --- Worktrees ----------------------------------------------------------

  /** `setWorktreeStatus`: a copy of the status map with only this path's entry set. */
  function SetWorktreeStatus(s: AppState, path: string, status: WorktreeStatus): (r: AppState)
    ensures path in r.worktreeStatuses && r.worktreeStatuses[path] == status
    ensures forall p :: p != path ==> (p in r.worktreeStatuses <==> p in s.worktreeStatuses)
    ensures forall p :: p != path && p in s.worktreeStatuses ==> r.worktreeStatuses[p] == s.worktreeStatuses[p]
    ensures r.(worktreeStatuses := s.worktreeStatuses) == s
  {
    s.(worktreeStatuses := s.worktreeStatuses[path := status])
  }

  // --- Editor -------------------------------------------------------------

  /** `setOpenFile`: the file (or none) is opened and the unsaved-changes flag is always cleared. */
  function SetOpenFile(s: AppState, file: Option<OpenFile>): (r: AppState)
    ensures r.openFile == file && !r.unsavedChanges
    ensures r.(openFile := s.openFile, unsavedChanges := s.unsavedChanges) == s
  {
    s.(openFile := file, unsavedChanges := false)
  }
}
