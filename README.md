# lightning-text interaction controller, in Dafny

A model of the interaction controller of the `lightning` terminal text
editor. The controller is the `App` struct of `src/app.rs` and the focus and
theme enumerations of `src/state.rs`. It routes each key event either to the
text area or to the recent-files sidebar. It keeps the history of recently
opened files and the sidebar cursor, and it tracks the dirty flag. It runs
create, open, save and save-as against the filesystem, and it cycles the
colour theme.

Layout:

- `state.dfy` (module `State`): `Focused`, `Theme` and the colour tag. Also the defaults, the focus toggle, `NextOption` and `AccentColor`, with the cycle laws.
- `text.dfy` (module `Text`): `Join`, which joins lines with `"\n"` for saving, and `Lines`, which splits text as Rust's `str::lines` does. The module also proves the round-trip laws and what they lose.
- `history.dfy` (module `History`):
  - the visible window `min(len, 10)`;
  - the Up and Down cursor moves with the code's exact `usize` arithmetic;
  - `Recorded`, the history update done by `change_path`.
- `files.dfy` (module `Files`): the filesystem as a value. A read fails where no file exists. A write fails on the empty path and on paths marked unwritable.
- `events.dfy` (module `Events`): key codes, the Control flag, Press/Repeat/Release and the key-binding table.
- `transitions.dfy` (module `Transitions`): the App's fields as a value `AppState`, plus one function per handler giving the new state, the new filesystem and a status.
- `laws.dfy` (module `Laws`): what the handlers guarantee, proved over those functions.
- `controller.dfy` (module `Controller`): class `App`. Its fields are updated in place, and each method is proved equal to its `Transitions` function.

Where the Rust code panics, the model returns `Panic(fault)` and keeps the state it had at that point. There are three such cases:
- `% k` with an empty history, on Up or Down in Sidebar focus;
- `recent_files[index]` on an empty history, on Enter in Sidebar focus;
- `unwrap()` on a failed write.

The model follows the code in these places:
- Up saturates at the first entry and never wraps. Only Down wraps.
- Open still switches the path, updates the history and clears the dirty flag when the chosen file cannot be read. Only the buffer stays as it was.
- The current path can be a history entry. Enter sets `current_path` directly from the history. Switching to a path that is already listed also keeps it in the history.
- Every key Press sets the dirty flag, including focus and theme keys.
- A save/reload round trip keeps the text, but not always the buffer. A final empty line is lost, so `["a", ""]` is saved as `"a\n"` and reloaded as `["a"]`.

## Model

| member | source | states |
|---|---|---|
| `Controller.App.constructor` | src/app.rs:16-26 | The default App has an empty buffer, path and history, is clean and not exiting, has cursor 0, Editor focus and the Professional theme, and meets the invariant. |
| `Controller.App.HandleEvents` | src/app.rs:44-62 | A key goes to the text area first in Editor focus. A Press then sets dirty and is dispatched. Other events change nothing. The invariant is kept. |
| `Controller.App.HandleKeyEvent` | src/app.rs:63-114 | Runs the command the key is bound to. Up, Down and Enter act only in Sidebar focus. A remainder by zero and an out-of-bounds index are reported as panics. |
| `Controller.App.Exit` | src/app.rs:115-117 | Sets exit and changes no other field. |
| `Controller.App.ChangePath` | src/app.rs:118-128 | Records the old path as `Recorded` says, makes the new path current, and replaces the buffer only when the file reads. |
| `Controller.App.SaveFileAs` | src/app.rs:130-141 | On cancel, no change. On write failure, a panic with no change. Otherwise the joined buffer is written, the buffer reloaded, the path switched and dirty cleared. |
| `Controller.App.CreateFile` | src/app.rs:142-153 | Same as save-as, writing `""` instead of the buffer. |
| `Controller.App.OpenFile` | src/app.rs:154-164 | On cancel, no change. Otherwise the file is loaded if readable, the path switched and dirty cleared. |
| `Controller.App.SaveFile` | src/app.rs:166-173 | Writes the joined buffer at the current path and clears dirty. A failed write panics with no change. |
| `Controller.App.ChangeFocus` | src/app.rs:174-179 | Swaps the focus and changes no other field. |
| `Events.CommandOf` | src/app.rs:63-113 | Global commands need Ctrl plus a character key. An unmodified character selects nothing. Up, Down and Enter select navigation whatever the modifiers. Quit is exactly Ctrl+c or Ctrl+q. |
| `Files.FileSystem.Write` | src/app.rs:133 | A write succeeds exactly on a writable path. Afterwards that path reads back the text written, and every other path reads as before. |
| `State.DefaultsAreEditorAndProfessional` | src/state.rs:9-29 | The default focus is Editor and the default theme is Professional, the fourth in the cycle. |
| `State.DefaultFocused` | src/state.rs:9-13 | The default focus is the editor. |
| `State.DefaultTheme` | src/state.rs:25-29 | The default theme is Professional, at position 3 of the cycle. |
| `State.Toggled` | src/app.rs:174-179 | Toggling always yields the other focus. |
| `State.ToggledTwice` | src/app.rs:174-179 | Two toggles restore the focus. |
| `State.NextOption` | src/state.rs:43-52 | The next theme is one position further in declaration order, modulo 6. |
| `State.AdvancedOrdinal` | src/state.rs:43-52 | n steps of the cycle move n positions, modulo 6. |
| `State.NextOptionPeriod` | src/state.rs:43-52 | Six steps return to the starting theme. |
| `State.NoShorterCycle` | src/state.rs:43-52 | One to five steps never return to the starting theme. |
| `State.NextOptionInjective` | src/state.rs:43-52 | Distinct themes have distinct successors, so the cycle is a permutation. |
| `State.AccentColorInjective` | src/state.rs:32-41 | Distinct themes have distinct accent colours. |
| `State.AccentColor` | src/state.rs:32-41 | Each theme's colour maps back to that theme through `ThemeOf`, so the colour identifies the theme. |
| `Text.Lines` | src/app.rs:125-126 | No line of the result holds a line feed. The result is empty exactly for the empty text. |
| `Text.LinesOfJoin` | src/app.rs:133-135 | Reading back the joined buffer yields `Reloaded(buffer)`: the final empty line is dropped and a final carriage return is stripped from each other line. |
| `Text.ReloadKeepsCleanBuffer` | src/app.rs:133-135 | A buffer with no final empty line and no line-ending carriage returns survives save and reload unchanged. |
| `Text.ReloadDropsFinalEmptyLine` | src/app.rs:133-135 | A buffer ending with an empty line comes back one line shorter. |
| `Text.ReloadExample` | src/app.rs:133-135 | `["a", ""]` is saved as `"a\n"` and reloaded as `["a"]`. |
| `Text.JoinOfLines` | src/app.rs:166-171 | Text without carriage returns, split on load and joined on save, comes back whole except for one final line feed. |
| `Text.JoinLayout` | src/app.rs:133 | Joined text is empty for no lines. Otherwise it starts with the first line, has a line feed right after it when more lines follow, and ends with the last line. |
| `History.Window` | src/app.rs:89 | The visible window size is `min(len, 10)`. |
| `History.MoveUp` | src/app.rs:85-91 | Up stays in the window. Inside it, Up moves one entry up and stays put at entry 0, with no wrap. |
| `History.MoveDown` | src/app.rs:92-98 | Down stays in the window. Inside it, Down moves one entry down and wraps from the last entry to 0. |
| `History.DownTimesAdvances` | src/app.rs:92-98 | n Downs move the cursor to `(i + n) % k`. |
| `History.DownFullCycle` | src/app.rs:92-98 | k Downs return the cursor to its start. |
| `History.UpTimesSaturates` | src/app.rs:85-91 | n Ups move the cursor to `max(i - n, 0)`. |
| `History.UpFullWindow` | src/app.rs:85-91 | k Ups always end at entry 0, so Up has no full-cycle law. |
| `History.RecordedLaws` | src/app.rs:118-123 | The history grows by one entry, the old path at its front, exactly when that path differs from the new one and is not yet listed. The old history stays as a suffix, the membership is stated exactly, and no duplicates are introduced. |
| `Laws.InitialState` | src/app.rs:16-26 | The default state meets the invariant and holds the default values. |
| `Laws.InvBoundsCursor` | src/app.rs:99-102 | Under the invariant, a non-empty history puts the cursor inside the window and inside the list. |
| `Laws.PathChangedKeepsInv` | src/app.rs:118-128 | A path change keeps the history free of duplicates and the cursor in the window. |
| `Laws.KeyHandledKeepsInv` | src/app.rs:63-114 | Every command keeps the invariant. |
| `Laws.EventHandledKeepsInv` | src/app.rs:44-62 | Every event keeps the invariant, whatever the text area does. |
| `Laws.NonKeyEventIgnored` | src/app.rs:59 | A non-key event changes nothing. |
| `Laws.NonPressChangesOnlyBuffer` | src/app.rs:47-53 | A non-Press key changes only the buffer, and only in Editor focus. |
| `Laws.PressSetsDirty` | src/app.rs:53-56 | After a Press, dirty is set unless a persistence command completed. |
| `Laws.EditorKeystrokeMarksDirty` | src/app.rs:47-56 | An unbound key pressed in Editor focus updates the text area and marks it dirty. |
| `Laws.QuitSetsExit` | src/app.rs:65-69 | Ctrl+C and Ctrl+Q set exit and change nothing else. |
| `Laws.ThemeKeyAdvancesTheme` | src/app.rs:109-111 | Ctrl+T advances the theme one step and changes nothing else. |
| `Laws.ToggleFocusTwice` | src/app.rs:82-84 | Two Ctrl+Space presses restore focus, leaving path, history, cursor, theme and files untouched. |
| `Laws.NavigationNeedsSidebar` | src/app.rs:85-107 | Up, Down and Enter do nothing in Editor focus. |
| `Laws.NavigationOnEmptyHistoryPanics` | src/app.rs:85-102 | With an empty history in Sidebar focus, Up and Down divide by zero, and Enter indexes out of bounds. |
| `Laws.DownMovesCursor` | src/app.rs:92-98 | Down sets the cursor to `(index + 1) % k` and changes nothing else. |
| `Laws.UpMovesCursor` | src/app.rs:85-91 | Up moves the cursor up one, stays at 0, and changes nothing else. |
| `Laws.DownDispatched` | src/app.rs:92-98 | n Down commands act on the state as `DownTimes` acts on the cursor. |
| `Laws.UpDispatched` | src/app.rs:85-91 | n Up commands act on the state as `UpTimes` acts on the cursor. |
| `Laws.DownCycleRestoresState` | src/app.rs:92-98 | k Down commands restore the whole state. |
| `Laws.UpRunEndsAtTop` | src/app.rs:85-91 | k Up commands put the cursor on entry 0. |
| `Laws.SelectLoadsRecentFile` | src/app.rs:99-107 | Enter makes the selected entry current without changing the history, loads it if readable, and never goes out of bounds under the invariant. |
| `Laws.PathChangeRecordsHistory` | src/app.rs:118-128 | A path change records the old path exactly when it is new and distinct, keeps the old history as a suffix with no duplicates, and reloads the buffer exactly when the file reads. |
| `Laws.FirstPathChangeRecordsUntitled` | src/app.rs:118-121 | From the untitled path with an empty history, switching to any non-empty path makes the history exactly `[""]`. |
| `Laws.CurrentPathCanBeInHistory` | src/app.rs:118-124 | Switching to any path already in the history makes it current while it stays listed, so the current path can appear in the history. |
| `Laws.PickerCancelledChangesNothing` | src/app.rs:130-164 | A cancelled picker makes create, open and save-as no-ops. |
| `Laws.WriteFailureChangesNothing` | src/app.rs:130-173 | A failed write is a panic that leaves the state and files unchanged. |
| `Laws.SaveAsWritesAndReloads` | src/app.rs:130-141 | Save-as writes `Join(buffer)`, reloads `Reloaded(buffer)`, switches path, records history and clears dirty. Focus, theme and cursor are kept. |
| `Laws.SaveAsDropsFinalEmptyLine` | src/app.rs:133-137 | A buffer `["a", ""]` is `["a"]` after save-as. |
| `Laws.CreateStartsEmptyFile` | src/app.rs:142-153 | Create writes `""`, leaves an empty buffer, switches path and clears dirty. Exit, cursor, focus, theme and every other file are unchanged. |
| `Laws.OpenSwitchesPath` | src/app.rs:154-164 | Open switches path, records history and clears dirty even if the file is unreadable. The buffer changes only on a successful read. Exit, cursor, focus and theme are unchanged. |
| `Laws.SaveKeepsPathAndHistory` | src/app.rs:166-173 | Save writes `Join(buffer)` at the current path, leaves every other file alone and changes only dirty. An unwritable path panics with no change. |
| `Laws.SaveUntitledFails` | src/app.rs:166-171 | Saving while the path is `""` fails. |
| `Laws.DownWrapsScenario` | src/app.rs:92-98 | With two entries, Down goes from 0 to 1 and then wraps to 0. |
| `Laws.SaveAsScenario` | src/app.rs:130-141 | Save-as from `"a.txt"` to `"b.txt"` gives path `"b.txt"`, history `["a.txt"]` and a clean buffer. |

## Left out

- Rendering (`run`, `draw`, `draw_editor`, `draw_sidebar`): terminal drawing and layout. This includes the file-name extraction and highlight in the sidebar. The `while !exit` loop of `run` is left out with it; `HandleEvents` models one iteration.
- The text area's update `input` is arbitrary, so it may put a line feed inside a line. `Laws.SaveAsWritesAndReloads` relates the reloaded buffer to `Reloaded(buffer)` only for buffers without line feeds; otherwise it gives `Lines(Join(buffer))`.
- The text area's internals: key handling, cursor and undo depth. A key sent to the text area is an arbitrary function `input`, passed in as a parameter. The text area's normalisation of an empty line list to one empty line is not modelled, so the initial buffer and an empty file's buffer are `[]`.
- The native file dialog: its answer is the `picked` parameter. A path that is not valid UTF-8 (`to_str` failing) is folded into `None`.
- The real filesystem: a `FileSystem` value stands in for it. A read fails only where no file exists; other read errors, such as text that is not valid UTF-8, count as absence. Write failures are the empty path plus an arbitrary set of unwritable paths.
- `Text.Lines` follows current Rust `str::lines`: a carriage return is removed only before a line feed. Older standard libraries also stripped one before the end of the text.
- Errors from `event::read()`, and what happens after a panic. A panic is reported as a status, and the process abort that follows it is not modelled.
- `usize` is taken as 64 bits.
- Terminal colours and styles are reduced to an enumeration tag.
