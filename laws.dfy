/**
 * What the handlers of src/app.rs guarantee, stated over the functions of
 * module Transitions: the invariant they keep, the effect of each key, the
 * history's bookkeeping and the persistence operations' outcomes.
 */
module Laws {
  import opened Wrappers
  import opened State
  import opened Text
  import opened History
  import opened Files
  import opened Events
  import opened Transitions

  // ---------------------------------------------------------------- invariant

  /** The initial state meets the invariant and starts in Editor focus with the Professional theme. */
  lemma InitialState()
    ensures Inv(Initial())
    ensures Initial().focused == Editor && Initial().theme == Professional
    ensures Initial().currentPath == "" && Initial().recentFiles == [] && Initial().index == 0
    ensures !Initial().dirty && !Initial().exit
  {
  }

  /** Under the invariant the cursor lies in the visible window whenever the history is non-empty. */
  lemma InvBoundsCursor(s: AppState)
    requires Inv(s)
    ensures s.recentFiles == [] || s.index < Window(s.recentFiles)
    ensures s.recentFiles == [] || s.index < |s.recentFiles|
  {
  }

  lemma PathChangedKeepsInv(s: AppState, path: string, fs: FileSystem)
    requires Inv(s)
    ensures Inv(PathChanged(s, path, fs))
  {
    RecordedLaws(s.recentFiles, s.currentPath, path);
  }

  /** Every command keeps the invariant. */
  lemma KeyHandledKeepsInv(s: AppState, key: KeyEvent, picked: Option<string>, fs: FileSystem)
    requires Inv(s)
    ensures Inv(KeyHandled(s, key, picked, fs).app)
  {
    match CommandOf(key)
    case Create => FileCommandsKeepInv(s, picked, fs);
    case Open => FileCommandsKeepInv(s, picked, fs);
    case SaveAs => FileCommandsKeepInv(s, picked, fs);
    case NavigateUp => NavigationKeepsInv(s, fs);
    case NavigateDown => NavigationKeepsInv(s, fs);
    case Select => NavigationKeepsInv(s, fs);
    case _ =>
  }

  /** Create, Open and Save As keep the invariant: they change the path through `change_path`. */
  lemma FileCommandsKeepInv(s: AppState, picked: Option<string>, fs: FileSystem)
    requires Inv(s)
    ensures Inv(Created(s, picked, fs).app) && Inv(Opened(s, picked, fs)) && Inv(SavedAs(s, picked, fs).app)
  {
    if picked.Some? {
      var name := picked.value;
      if fs.Write(name, "").Some? {
        var fs' := fs.Write(name, "").value;
        PathChangedKeepsInv(s.(buffer := Loaded(s.buffer, fs'.Read(name))), name, fs');
      }
      PathChangedKeepsInv(s.(buffer := Loaded(s.buffer, fs.Read(name))), name, fs);
      if fs.Write(name, Join(s.buffer)).Some? {
        var fs' := fs.Write(name, Join(s.buffer)).value;
        PathChangedKeepsInv(s.(buffer := Loaded(s.buffer, fs'.Read(name))), name, fs');
      }
    }
  }

  /** The sidebar commands keep the invariant: they move the cursor within the window or change no history. */
  lemma NavigationKeepsInv(s: AppState, fs: FileSystem)
    requires Inv(s)
    ensures Inv(NavigatedUp(s, fs).app) && Inv(NavigatedDown(s, fs).app) && Inv(Selected(s, fs).app)
  {
  }

  /** Every event keeps the invariant, whatever the text area does with a key. */
  lemma EventHandledKeepsInv(s: AppState, ev: Event, picked: Option<string>, fs: FileSystem,
                             input: (seq<string>, KeyEvent) -> seq<string>)
    requires Inv(s)
    ensures Inv(EventHandled(s, ev, picked, fs, input).app)
  {
    if ev.Key? && ev.key.kind == Press {
      var typed := if s.focused == Editor then s.(buffer := input(s.buffer, ev.key)) else s;
      KeyHandledKeepsInv(typed.(dirty := true), ev.key, picked, fs);
    }
  }

  // ---------------------------------------------------------------- event dispatch

  /** An event that is not a key changes nothing. */
  lemma NonKeyEventIgnored(s: AppState, picked: Option<string>, fs: FileSystem,
                           input: (seq<string>, KeyEvent) -> seq<string>)
    ensures EventHandled(s, NonKey, picked, fs, input) == Step(s, fs, Ok)
  {
  }

  /**
   * A key that is not a Press is not dispatched: only the text area may
   * change, and only in Editor focus.
   */
  lemma NonPressChangesOnlyBuffer(s: AppState, key: KeyEvent, picked: Option<string>, fs: FileSystem,
                                  input: (seq<string>, KeyEvent) -> seq<string>)
    requires key.kind != Press
    ensures var r := EventHandled(s, Key(key), picked, fs, input);
      r.status == Ok && r.fs == fs && r.app == s.(buffer := r.app.buffer) &&
      (s.focused == Editor ==> r.app.buffer == input(s.buffer, key)) &&
      (s.focused == Sidebar ==> r.app == s)
  {
  }

  /** The commands after which a successful run leaves the buffer marked clean. */
  predicate ClearsDirty(cmd: Command, picked: Option<string>)
  {
    cmd == Save || ((cmd == Create || cmd == Open || cmd == SaveAs) && picked.Some?)
  }

  /**
   * Every Press marks the buffer dirty before it is dispatched, so afterwards
   * the buffer is dirty unless the key ran a persistence command that completed.
   */
  lemma PressSetsDirty(s: AppState, key: KeyEvent, picked: Option<string>, fs: FileSystem,
                       input: (seq<string>, KeyEvent) -> seq<string>)
    requires key.kind == Press
    ensures var r := EventHandled(s, Key(key), picked, fs, input);
      r.app.dirty <==> !(ClearsDirty(CommandOf(key), picked) && r.status == Ok)
  {
  }

  /** A Press in Editor focus that runs no command still marks the buffer dirty. */
  lemma EditorKeystrokeMarksDirty(s: AppState, key: KeyEvent, picked: Option<string>, fs: FileSystem,
                                  input: (seq<string>, KeyEvent) -> seq<string>)
    requires key.kind == Press && s.focused == Editor && CommandOf(key) == Ignore
    ensures EventHandled(s, Key(key), picked, fs, input)
      == Step(s.(buffer := input(s.buffer, key), dirty := true), fs, Ok)
  {
  }

  /** Quit sets the exit flag and touches neither path, history, cursor, focus, theme nor files. */
  lemma QuitSetsExit(s: AppState, key: KeyEvent, picked: Option<string>, fs: FileSystem)
    requires CommandOf(key) == Quit
    ensures var r := KeyHandled(s, key, picked, fs);
      r.app.exit && r.app == s.(exit := true) && r.fs == fs && r.status == Ok
  {
  }

  /** The theme key moves to the next theme and touches nothing else. */
  lemma ThemeKeyAdvancesTheme(s: AppState, key: KeyEvent, picked: Option<string>, fs: FileSystem)
    requires CommandOf(key) == NextTheme
    ensures var r := KeyHandled(s, key, picked, fs);
      Ordinal(r.app.theme) == (Ordinal(s.theme) + 1) % ThemeCount &&
      r.app == s.(theme := r.app.theme) && r.fs == fs && r.status == Ok
  {
  }

  /**
   * Pressing the toggle-focus key twice restores the focus; path, history,
   * cursor, theme and files are untouched.
   */
  lemma ToggleFocusTwice(s: AppState, key: KeyEvent, picked: Option<string>, fs: FileSystem,
                         input: (seq<string>, KeyEvent) -> seq<string>)
    requires CommandOf(key) == ToggleFocus && key.kind == Press
    ensures var r1 := EventHandled(s, Key(key), picked, fs, input);
      var r2 := EventHandled(r1.app, Key(key), picked, r1.fs, input);
      r1.app.focused != s.focused && r2.app.focused == s.focused &&
      r2.app.currentPath == s.currentPath && r2.app.recentFiles == s.recentFiles &&
      r2.app.index == s.index && r2.app.theme == s.theme && r2.app.exit == s.exit &&
      r2.fs == fs && r2.status == Ok
  {
    ToggledTwice(s.focused);
  }

  // ---------------------------------------------------------------- sidebar navigation

  /** Up, Down and Enter do nothing in Editor focus (the text area alone sees them). */
  lemma NavigationNeedsSidebar(s: AppState, key: KeyEvent, picked: Option<string>, fs: FileSystem)
    requires s.focused == Editor
    requires CommandOf(key) == NavigateUp || CommandOf(key) == NavigateDown || CommandOf(key) == Select
    ensures KeyHandled(s, key, picked, fs) == Step(s, fs, Ok)
  {
  }

  /** With an empty history, Up and Down divide by a zero window size and Enter indexes past the end. */
  lemma NavigationOnEmptyHistoryPanics(s: AppState, key: KeyEvent, picked: Option<string>, fs: FileSystem)
    requires s.focused == Sidebar && s.recentFiles == []
    ensures CommandOf(key) == NavigateUp || CommandOf(key) == NavigateDown ==>
      KeyHandled(s, key, picked, fs) == Step(s, fs, Panic(DivisionByZero))
    ensures CommandOf(key) == Select ==>
      KeyHandled(s, key, picked, fs) == Step(s, fs, Panic(IndexOutOfBounds))
  {
  }

  /** Down moves the cursor one entry down the window, from the last entry to the first. */
  lemma DownMovesCursor(s: AppState, key: KeyEvent, picked: Option<string>, fs: FileSystem)
    requires Inv(s) && s.focused == Sidebar && s.recentFiles != [] && CommandOf(key) == NavigateDown
    ensures var k := Window(s.recentFiles); var r := KeyHandled(s, key, picked, fs);
      r.status == Ok && r.fs == fs && r.app == s.(index := r.app.index) &&
      r.app.index == (s.index + 1) % k
  {
    var k := Window(s.recentFiles);
    if s.index + 1 == k {
      ModUnique(s.index + 1, 1, 0, k);
    } else {
      ModUnique(s.index + 1, 0, s.index + 1, k);
    }
  }

  /** Up moves the cursor one entry up the window, and stays put on the first entry. */
  lemma UpMovesCursor(s: AppState, key: KeyEvent, picked: Option<string>, fs: FileSystem)
    requires Inv(s) && s.focused == Sidebar && s.recentFiles != [] && CommandOf(key) == NavigateUp
    ensures var r := KeyHandled(s, key, picked, fs);
      r.status == Ok && r.fs == fs && r.app == s.(index := r.app.index) &&
      r.app.index == (if s.index == 0 then 0 else s.index - 1)
  {
  }

  /** The state after the command bound to key runs n times in a row. */
  function Dispatched(s: AppState, key: KeyEvent, fs: FileSystem, n: nat): AppState
    decreases n
  {
    if n == 0 then s else Dispatched(KeyHandled(s, key, None, fs).app, key, fs, n - 1)
  }

  lemma {:induction false} DownDispatched(s: AppState, key: KeyEvent, fs: FileSystem, n: nat)
    requires s.focused == Sidebar && s.recentFiles != [] && s.index < Window(s.recentFiles)
    requires CommandOf(key) == NavigateDown
    ensures Dispatched(s, key, fs, n) == s.(index := DownTimes(s.index, Window(s.recentFiles), n))
    decreases n
  {
    if n > 0 {
      var k := Window(s.recentFiles);
      var t := KeyHandled(s, key, None, fs).app;
      assert t == s.(index := MoveDown(s.index, k));
      DownDispatched(t, key, fs, n - 1);
    }
  }

  lemma {:induction false} UpDispatched(s: AppState, key: KeyEvent, fs: FileSystem, n: nat)
    requires s.focused == Sidebar && s.recentFiles != [] && s.index < Window(s.recentFiles)
    requires CommandOf(key) == NavigateUp
    ensures Dispatched(s, key, fs, n) == s.(index := UpTimes(s.index, Window(s.recentFiles), n))
    decreases n
  {
    if n > 0 {
      var k := Window(s.recentFiles);
      var t := KeyHandled(s, key, None, fs).app;
      assert t == s.(index := MoveUp(s.index, k));
      UpDispatched(t, key, fs, n - 1);
    }
  }

  /** Full-cycle law: as many Downs as the window has entries bring the whole state back. */
  lemma DownCycleRestoresState(s: AppState, key: KeyEvent, fs: FileSystem)
    requires Inv(s) && s.focused == Sidebar && s.recentFiles != [] && CommandOf(key) == NavigateDown
    ensures Dispatched(s, key, fs, Window(s.recentFiles)) == s
  {
    DownDispatched(s, key, fs, Window(s.recentFiles));
    DownFullCycle(s.index, Window(s.recentFiles));
  }

  /** As many Ups as the window has entries put the cursor on the first entry, whatever its start. */
  lemma UpRunEndsAtTop(s: AppState, key: KeyEvent, fs: FileSystem)
    requires Inv(s) && s.focused == Sidebar && s.recentFiles != [] && CommandOf(key) == NavigateUp
    ensures Dispatched(s, key, fs, Window(s.recentFiles)) == s.(index := 0)
  {
    UpDispatched(s, key, fs, Window(s.recentFiles));
    UpFullWindow(s.index, Window(s.recentFiles));
  }

  /**
   * Enter in Sidebar focus on a non-empty history makes the entry under the
   * cursor the current path, without touching the history, and loads it if
   * it can be read. The index is in bounds thanks to the invariant, and the
   * new current path is itself a history entry.
   */
  lemma SelectLoadsRecentFile(s: AppState, key: KeyEvent, picked: Option<string>, fs: FileSystem)
    requires Inv(s) && s.focused == Sidebar && s.recentFiles != [] && CommandOf(key) == Select
    ensures var r := KeyHandled(s, key, picked, fs);
      r.status == Ok && r.fs == fs &&
      r.app.currentPath == s.recentFiles[s.index] && r.app.currentPath in r.app.recentFiles &&
      r.app.recentFiles == s.recentFiles &&
      r.app.buffer == Loaded(s.buffer, fs.Read(r.app.currentPath)) &&
      r.app == s.(currentPath := r.app.currentPath, buffer := r.app.buffer)
  {
  }

  // ---------------------------------------------------------------- history bookkeeping

  /**
   * A path change makes the new path current, records the old one when it
   * differs and is not yet listed, keeps the old history as a suffix and
   * keeps it free of repeats; it replaces the buffer exactly when the new
   * path can be read.
   */
  lemma PathChangeRecordsHistory(s: AppState, path: string, fs: FileSystem)
    ensures var t := PathChanged(s, path, fs);
      t.currentPath == path &&
      (forall x :: x in t.recentFiles <==> x in s.recentFiles || (x == s.currentPath && s.currentPath != path)) &&
      t.recentFiles[|t.recentFiles| - |s.recentFiles|..] == s.recentFiles &&
      |t.recentFiles| <= |s.recentFiles| + 1 &&
      (NoDuplicates(s.recentFiles) ==> NoDuplicates(t.recentFiles)) &&
      (fs.Read(path).Some? ==> t.buffer == Lines(fs.Read(path).value)) &&
      (fs.Read(path).None? ==> t.buffer == s.buffer) &&
      t == s.(currentPath := path, recentFiles := t.recentFiles, buffer := t.buffer)
  {
    RecordedLaws(s.recentFiles, s.currentPath, path);
  }

  /**
   * The first path change of a session (the path still untitled, the history
   * still empty, whatever else happened before) records the untitled path "".
   */
  lemma FirstPathChangeRecordsUntitled(s: AppState, path: string, fs: FileSystem)
    requires s.currentPath == "" && s.recentFiles == [] && path != ""
    ensures PathChanged(s, path, fs).recentFiles == [""]
  {
  }

  /**
   * The current path is not kept out of the history: switching to a path that
   * is already listed leaves it listed while it is current.
   */
  lemma CurrentPathCanBeInHistory(s: AppState, path: string, fs: FileSystem)
    requires path in s.recentFiles
    ensures var t := PathChanged(s, path, fs);
      t.currentPath == path && t.currentPath in t.recentFiles
  {
    RecordedLaws(s.recentFiles, s.currentPath, path);
  }

  // ---------------------------------------------------------------- persistence

  /** A cancelled file picker makes create, open and save-as change nothing. */
  lemma PickerCancelledChangesNothing(s: AppState, fs: FileSystem)
    ensures Created(s, None, fs) == Step(s, fs, Ok)
    ensures Opened(s, None, fs) == s
    ensures SavedAs(s, None, fs) == Step(s, fs, Ok)
  {
  }

  /** A write that fails (the source's `unwrap` panic) leaves state and files as they were. */
  lemma WriteFailureChangesNothing(s: AppState, name: string, fs: FileSystem)
    requires !fs.Writable(name)
    ensures Created(s, Some(name), fs) == Step(s, fs, Panic(WriteFailed))
    ensures SavedAs(s, Some(name), fs) == Step(s, fs, Panic(WriteFailed))
    ensures name == s.currentPath ==> Saved(s, fs) == Step(s, fs, Panic(WriteFailed))
  {
  }

  /**
   * Save-as writes the joined buffer at the chosen path, reloads the buffer
   * from what was written, switches to the path and clears the dirty flag.
   * The reloaded buffer is Reloaded(buffer), which differs from the buffer
   * when it ends with an empty line.
   */
  lemma SaveAsWritesAndReloads(s: AppState, name: string, fs: FileSystem)
    requires fs.Writable(name)
    ensures var r := SavedAs(s, Some(name), fs);
      r.status == Ok && r.fs.Read(name) == Some(Join(s.buffer)) &&
      (forall p :: p != name ==> r.fs.Read(p) == fs.Read(p)) &&
      r.app.currentPath == name && !r.app.dirty &&
      r.app.recentFiles == Recorded(s.recentFiles, s.currentPath, name) &&
      r.app.buffer == Lines(Join(s.buffer)) &&
      (NoLineFeeds(s.buffer) ==> r.app.buffer == Reloaded(s.buffer)) &&
      r.app.exit == s.exit && r.app.index == s.index && r.app.focused == s.focused && r.app.theme == s.theme
  {
    if NoLineFeeds(s.buffer) {
      LinesOfJoin(s.buffer);
    }
  }

  /** The buffer ["a", ""] comes back from save-as as ["a"]. */
  lemma SaveAsDropsFinalEmptyLine(s: AppState, name: string, fs: FileSystem)
    requires fs.Writable(name) && s.buffer == ["a", ""]
    ensures SavedAs(s, Some(name), fs).app.buffer == ["a"]
  {
    ReloadExample();
  }

  /** Create writes an empty file at the chosen path and leaves an empty buffer on it. */
  lemma CreateStartsEmptyFile(s: AppState, name: string, fs: FileSystem)
    requires fs.Writable(name)
    ensures var r := Created(s, Some(name), fs);
      r.status == Ok && r.fs.Read(name) == Some("") && r.app.buffer == [] &&
      (forall p :: p != name ==> r.fs.Read(p) == fs.Read(p)) &&
      r.app.currentPath == name && !r.app.dirty &&
      r.app.recentFiles == Recorded(s.recentFiles, s.currentPath, name) &&
      r.app.exit == s.exit && r.app.index == s.index && r.app.focused == s.focused && r.app.theme == s.theme
  {
  }

  /**
   * Open switches to the chosen path and clears the dirty flag even when the
   * file cannot be read; only then is the buffer left as it was.
   */
  lemma OpenSwitchesPath(s: AppState, name: string, fs: FileSystem)
    ensures var t := Opened(s, Some(name), fs);
      t.currentPath == name && !t.dirty &&
      t.recentFiles == Recorded(s.recentFiles, s.currentPath, name) &&
      t.buffer == (if fs.Read(name).Some? then Lines(fs.Read(name).value) else s.buffer) &&
      t.exit == s.exit && t.index == s.index && t.focused == s.focused && t.theme == s.theme
  {
  }

  /**
   * Save writes the joined buffer at the current path and only clears the
   * dirty flag; path and history stay. It fails when the path cannot be
   * written.
   */
  lemma SaveKeepsPathAndHistory(s: AppState, fs: FileSystem)
    ensures var r := Saved(s, fs);
      (fs.Writable(s.currentPath) ==>
         r.status == Ok && r.app == s.(dirty := false) &&
         r.fs.Read(s.currentPath) == Some(Join(s.buffer)) &&
         (forall p :: p != s.currentPath ==> r.fs.Read(p) == fs.Read(p))) &&
      (!fs.Writable(s.currentPath) ==> r == Step(s, fs, Panic(WriteFailed)))
  {
  }

  /** Saving before any path was chosen writes to the empty path, which fails. */
  lemma SaveUntitledFails(s: AppState, fs: FileSystem)
    requires s.currentPath == ""
    ensures Saved(s, fs).status == Panic(WriteFailed)
  {
  }

  // ---------------------------------------------------------------- scenarios

  /** Two entries, cursor on the first, Sidebar focus: Down goes to 1, a second Down wraps to 0. */
  lemma DownWrapsScenario(fs: FileSystem)
    ensures var s := Initial().(recentFiles := ["a.txt", "b.txt"], focused := Sidebar);
      var down := KeyEvent(Down, false, Press);
      var r1 := KeyHandled(s, down, None, fs);
      var r2 := KeyHandled(r1.app, down, None, fs);
      r1.app.index == 1 && r2.app.index == 0
  {
  }

  /** Save-as from "a.txt" to "b.txt": the path becomes "b.txt", the history ["a.txt"], the buffer clean. */
  lemma SaveAsScenario(fs: FileSystem)
    requires fs.Writable("b.txt")
    ensures var s := Initial().(currentPath := "a.txt", dirty := true);
      var r := KeyHandled(s, KeyEvent(Char('p'), true, Press), Some("b.txt"), fs);
      r.app.currentPath == "b.txt" && r.app.recentFiles == ["a.txt"] && !r.app.dirty
  {
  }
}
