/**
 * The renderer's global key handler: what one `keydown` event does, given
 * the element that has focus, the optional handlers the caller passed, the
 * listed worktrees and the selected one. The answer is whether the event's
 * default action is prevented and which single effect, if any, follows.
 */
module Shortcuts {
  import opened JsBuiltins
  import opened Types
  import opened GitParser

  /** Where the focused element sits: its tag, and whether it is inside a terminal view or a code editor. */
  datatype Focus = Focus(tagName: string, inTerminal: bool, inEditor: bool)

  datatype KeyEvent = KeyEvent(key: string, metaKey: bool, ctrlKey: bool, altKey: bool, shiftKey: bool, target: Focus)

  /** The optional callbacks a component may pass. */
  datatype Handler =
    | NewTerminal | CloseTerminal | Save | Refresh | NewWorktree | QuickOpen | ToggleSettings | ToggleFileTree

  datatype Effect = SetActiveView(view: ViewType) | Invoke(handler: Handler) | SelectWorktree(path: string)

  datatype Outcome = Outcome(preventDefault: bool, effect: Option<Effect>)

  const Ignored := Outcome(false, None)

  /** `handlers.h?.()`: the call happens only when the handler was passed. */
  function Call(handlers: set<Handler>, h: Handler): Option<Effect> {
    if h in handlers then Some(Invoke(h)) else None
  }

  /** The effect of Cmd with a key, when neither Shift nor Alt is held. */
  function CommandKey(key: string, handlers: set<Handler>): (r: Outcome)
    ensures r.effect.Some? ==> r.preventDefault
    ensures key == "1" ==> r == Outcome(true, Some(SetActiveView(TerminalView)))
    ensures key == "2" ==> r == Outcome(true, Some(SetActiveView(DiffView)))
    ensures key == "3" ==> r == Outcome(true, Some(SetActiveView(EditorView)))
    ensures key == "4" ==> r == Outcome(true, Some(SetActiveView(JobsView)))
    ensures r.effect.Some? && r.effect.value.Invoke? ==> r.effect.value.handler in handlers
  {
    match key
    case "1" => Outcome(true, Some(SetActiveView(TerminalView)))
    case "2" => Outcome(true, Some(SetActiveView(DiffView)))
    case "3" => Outcome(true, Some(SetActiveView(EditorView)))
    case "4" => Outcome(true, Some(SetActiveView(JobsView)))
    case "t" => Outcome(true, Call(handlers, NewTerminal))
    case "w" => Outcome(true, Call(handlers, CloseTerminal))
    case "r" => Outcome(true, Call(handlers, Refresh))
    case "n" => Outcome(true, Call(handlers, NewWorktree))
    case "p" => Outcome(true, Call(handlers, QuickOpen))
    case "," => Outcome(true, Call(handlers, ToggleSettings))
    case "b" => Outcome(true, Call(handlers, ToggleFileTree))
    case _ => Ignored
  }

  /** `worktrees.findIndex(w => w.path === selected)`; no path equals a missing selection. */
  function IndexOfPath(worktrees: seq<Worktree>, selected: Option<string>): int {
    FindIndex(worktrees, (w: Worktree) => selected == Some(w.path))
  }

  /** `selectWorktree(worktrees[i].path)`; every caller passes an index inside the list. */
  function Select(worktrees: seq<Worktree>, i: int): Option<Effect> {
    if 0 <= i < |worktrees| then Some(SelectWorktree(worktrees[i].path)) else None
  }

  /** The arrow keys, when no modifier other than Shift is held. */
  function ArrowKey(key: string, worktrees: seq<Worktree>, selected: Option<string>): (r: Outcome)
    ensures r.effect.Some? ==> r.effect.value.SelectWorktree? && exists k :: 0 <= k < |worktrees| && r.effect == Select(worktrees, k)
    ensures worktrees == [] ==> r.effect == None
    ensures r.preventDefault <==> key == "ArrowUp" || key == "ArrowDown"
  {
    var currentIndex := IndexOfPath(worktrees, selected);
    if key == "ArrowUp" then
      if currentIndex > 0 then Outcome(true, Select(worktrees, currentIndex - 1))
      else if currentIndex == -1 && |worktrees| > 0 then Outcome(true, Select(worktrees, |worktrees| - 1))
      else Outcome(true, None)
    else if key == "ArrowDown" then
      if currentIndex < |worktrees| - 1 then Outcome(true, Select(worktrees, currentIndex + 1))
      else if currentIndex == -1 && |worktrees| > 0 then Outcome(true, Select(worktrees, 0))
      else Outcome(true, None)
    else Ignored
  }

  /** `handleKeyDown`. */
  function HandleKeyDown(e: KeyEvent, handlers: set<Handler>, worktrees: seq<Worktree>, selected: Option<string>): (r: Outcome)
    ensures r.effect.Some? ==> r.preventDefault
  {
    var isInInput := e.target.tagName == "INPUT" || e.target.tagName == "TEXTAREA";
    if e.target.inEditor && e.metaKey && e.key == "s" then Outcome(true, Call(handlers, Save))
    else if isInInput || e.target.inTerminal || e.target.inEditor then Ignored
    else if e.metaKey && !e.shiftKey && !e.altKey then CommandKey(e.key, handlers)
    else if !e.metaKey && !e.ctrlKey && !e.altKey then ArrowKey(e.key, worktrees, selected)
    else Ignored
  }

  // --- properties -------------------------------------------------------

  predicate Focused(e: KeyEvent) {
    e.target.tagName == "INPUT" || e.target.tagName == "TEXTAREA" || e.target.inTerminal || e.target.inEditor
  }

  /** With focus in an input, a textarea, the terminal or the editor nothing fires, except Cmd+S in the editor, which saves. */
  lemma FocusBailOut(e: KeyEvent, handlers: set<Handler>, worktrees: seq<Worktree>, selected: Option<string>)
    requires Focused(e)
    ensures var r := HandleKeyDown(e, handlers, worktrees, selected);
      if e.target.inEditor && e.metaKey && e.key == "s" then r.preventDefault && r.effect == Call(handlers, Save)
      else r == Ignored
  {
  }

  /** Cmd+1..4 without Shift or Alt, outside any text field, select the terminal, diff, editor and jobs views. */
  lemma ViewSwitching(e: KeyEvent, handlers: set<Handler>, worktrees: seq<Worktree>, selected: Option<string>)
    requires !Focused(e) && e.metaKey && !e.shiftKey && !e.altKey
    ensures var r := HandleKeyDown(e, handlers, worktrees, selected);
      (e.key == "1" ==> r.effect == Some(SetActiveView(TerminalView)))
      && (e.key == "2" ==> r.effect == Some(SetActiveView(DiffView)))
      && (e.key == "3" ==> r.effect == Some(SetActiveView(EditorView)))
      && (e.key == "4" ==> r.effect == Some(SetActiveView(JobsView)))
  {
  }

  /** The event the arrow rules see: unfocused and with no Meta, Ctrl or Alt. */
  predicate Navigating(e: KeyEvent) {
    !Focused(e) && !e.metaKey && !e.ctrlKey && !e.altKey
  }

  /**
   * ArrowUp moves the selection one worktree up; at the first worktree it
   * does nothing; with no listed selection it selects the last worktree.
   */
  lemma ArrowUpMoves(e: KeyEvent, handlers: set<Handler>, worktrees: seq<Worktree>, selected: Option<string>, i: int)
    requires Navigating(e) && e.key == "ArrowUp"
    requires i == IndexOfPath(worktrees, selected)
    ensures var r := HandleKeyDown(e, handlers, worktrees, selected);
      r.preventDefault
      && (i > 0 ==> r.effect == Some(SelectWorktree(worktrees[i - 1].path)))
      && (i == 0 ==> r.effect == None)
      && (i == -1 && worktrees != [] ==> r.effect == Some(SelectWorktree(worktrees[|worktrees| - 1].path)))
  {
  }

  /**
   * ArrowDown moves the selection one worktree down; at the last worktree it
   * does nothing; with no listed selection it selects the first worktree.
   */
  lemma ArrowDownMoves(e: KeyEvent, handlers: set<Handler>, worktrees: seq<Worktree>, selected: Option<string>, i: int)
    requires Navigating(e) && e.key == "ArrowDown"
    requires i == IndexOfPath(worktrees, selected)
    ensures var r := HandleKeyDown(e, handlers, worktrees, selected);
      r.preventDefault
      && (0 <= i < |worktrees| - 1 ==> r.effect == Some(SelectWorktree(worktrees[i + 1].path)))
      && (i == |worktrees| - 1 ==> r.effect == None)
      && (i == -1 && worktrees != [] ==> r.effect == Some(SelectWorktree(worktrees[0].path)))
  {
  }

  /**
   * The second ArrowDown branch ("no selection, non-empty list") can never
   * be taken: with no selection the first branch already selects index 0.
   */
  lemma ArrowDownFallbackUnreachable(worktrees: seq<Worktree>, selected: Option<string>)
    requires IndexOfPath(worktrees, selected) == -1 && |worktrees| > 0
    ensures IndexOfPath(worktrees, selected) < |worktrees| - 1
  {
  }

  /**
   * Whatever the event, a selection only ever names a listed worktree,
   * nothing is selected from an empty list, and nothing is selected while
   * Meta, Ctrl or Alt is held.
   */
  lemma SelectionIsListed(e: KeyEvent, handlers: set<Handler>, worktrees: seq<Worktree>, selected: Option<string>)
    ensures var r := HandleKeyDown(e, handlers, worktrees, selected);
      (r.effect.Some? && r.effect.value.SelectWorktree? ==>
         worktrees != [] && !e.metaKey && !e.ctrlKey && !e.altKey
         && exists k :: 0 <= k < |worktrees| && worktrees[k].path == r.effect.value.path)
  {
    var r := HandleKeyDown(e, handlers, worktrees, selected);
    if r.effect.Some? && r.effect.value.SelectWorktree? {
      var k :| 0 <= k < |worktrees| && r.effect == Select(worktrees, k);
      assert worktrees[k].path == r.effect.value.path;
    }
  }
}
