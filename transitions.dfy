/**
 * The editor's state as one value, and what each handler of src/app.rs does
 * to it, as functions. The methods of Controller.App are proved to follow
 * these functions; the lemmas of module Laws are stated about them.
 *
 * Where the Rust code panics (a remainder by zero, an index out of bounds,
 * `unwrap` on a failed write) the step ends with status Panic and the state
 * as it was when the panic happened.
 */
module Transitions {
  import opened Wrappers
  import opened State
  import opened Text
  import opened History
  import opened Files
  import opened Events

  datatype Fault = WriteFailed | DivisionByZero | IndexOutOfBounds

  datatype Status = Ok | Panic(fault: Fault)

  /** The fields of the App struct; buffer holds the lines of the text area. */
  datatype AppState = AppState(
    buffer: seq<string>,
    currentPath: string,
    recentFiles: seq<string>,
    dirty: bool,
    exit: bool,
    index: Usize,
    focused: Focused,
    theme: Theme)

  /** The outcome of one handler: the new state, the filesystem after it, and the status. */
  datatype Step = Step(app: AppState, fs: FileSystem, status: Status)

  /** The state `App::default()` creates. */
  function Initial(): AppState
  {
    AppState([], "", [], false, false, 0, DefaultFocused(), DefaultTheme())
  }

  /**
   * The invariant every handler keeps: the history has no repeated path, and
   * the cursor is inside the visible window (or 0 while the history is empty).
   */
  predicate Inv(s: AppState)
  {
    NoDuplicates(s.recentFiles) && (s.index == 0 || s.index < Window(s.recentFiles))
  }

  /** The buffer after `TextArea::from(content.lines())` if the read succeeded; unchanged otherwise. */
  function Loaded(buffer: seq<string>, content: Option<string>): seq<string>
  {
    match content
    case Some(text) => Lines(text)
    case None => buffer
  }

  /** `change_path`: record the old path, switch to the new one, load it if it can be read. */
  function PathChanged(s: AppState, path: string, fs: FileSystem): AppState
  {
    s.(recentFiles := Recorded(s.recentFiles, s.currentPath, path),
       currentPath := path,
       buffer := Loaded(s.buffer, fs.Read(path)))
  }

  /** `create_file`: write an empty file at the chosen path, load it, switch to it. */
  function Created(s: AppState, picked: Option<string>, fs: FileSystem): Step
  {
    match picked
    case None => Step(s, fs, Ok)
    case Some(name) =>
      match fs.Write(name, "")
      case None => Step(s, fs, Panic(WriteFailed))
      case Some(fs') =>
        var loaded := s.(buffer := Loaded(s.buffer, fs'.Read(name)));
        Step(PathChanged(loaded, name, fs').(dirty := false), fs', Ok)
  }

  /** `open_file`: load the chosen file if it can be read, and switch to it in any case. */
  function Opened(s: AppState, picked: Option<string>, fs: FileSystem): AppState
  {
    match picked
    case None => s
    case Some(name) =>
      var loaded := s.(buffer := Loaded(s.buffer, fs.Read(name)));
      PathChanged(loaded, name, fs).(dirty := false)
  }

  /** `save_file_as`: write the joined buffer at the chosen path, reload it, switch to it. */
  function SavedAs(s: AppState, picked: Option<string>, fs: FileSystem): Step
  {
    match picked
    case None => Step(s, fs, Ok)
    case Some(name) =>
      match fs.Write(name, Join(s.buffer))
      case None => Step(s, fs, Panic(WriteFailed))
      case Some(fs') =>
        var loaded := s.(buffer := Loaded(s.buffer, fs'.Read(name)));
        Step(PathChanged(loaded, name, fs').(dirty := false), fs', Ok)
  }

  /** `save_file`: write the joined buffer at the current path. */
  function Saved(s: AppState, fs: FileSystem): Step
  {
    match fs.Write(s.currentPath, Join(s.buffer))
    case None => Step(s, fs, Panic(WriteFailed))
    case Some(fs') => Step(s.(dirty := false), fs', Ok)
  }

  /** Up: move the sidebar cursor up, in Sidebar focus only. */
  function NavigatedUp(s: AppState, fs: FileSystem): Step
  {
    if s.focused != Sidebar then Step(s, fs, Ok)
    else
      var k := Window(s.recentFiles);
      if k == 0 then Step(s, fs, Panic(DivisionByZero))
      else Step(s.(index := MoveUp(s.index, k)), fs, Ok)
  }

  /** Down: move the sidebar cursor down, in Sidebar focus only. */
  function NavigatedDown(s: AppState, fs: FileSystem): Step
  {
    if s.focused != Sidebar then Step(s, fs, Ok)
    else
      var k := Window(s.recentFiles);
      if k == 0 then Step(s, fs, Panic(DivisionByZero))
      else Step(s.(index := MoveDown(s.index, k)), fs, Ok)
  }

  /**
   * Enter: in Sidebar focus, make the history entry under the cursor the
   * current path directly (not through `change_path`) and load it if readable.
   */
  function Selected(s: AppState, fs: FileSystem): Step
  {
    if s.focused != Sidebar then Step(s, fs, Ok)
    else if s.index >= |s.recentFiles| then Step(s, fs, Panic(IndexOutOfBounds))
    else
      var path := s.recentFiles[s.index];
      Step(s.(currentPath := path, buffer := Loaded(s.buffer, fs.Read(path))), fs, Ok)
  }

  /** `handle_key_event`: run the command the key is bound to. */
  function KeyHandled(s: AppState, key: KeyEvent, picked: Option<string>, fs: FileSystem): Step
  {
    match CommandOf(key)
    case Quit => Step(s.(exit := true), fs, Ok)
    case Create => Created(s, picked, fs)
    case Save => Saved(s, fs)
    case Open => Step(Opened(s, picked, fs), fs, Ok)
    case SaveAs => SavedAs(s, picked, fs)
    case ToggleFocus => Step(s.(focused := Toggled(s.focused)), fs, Ok)
    case NextTheme => Step(s.(theme := NextOption(s.theme)), fs, Ok)
    case NavigateUp => NavigatedUp(s, fs)
    case NavigateDown => NavigatedDown(s, fs)
    case Select => Selected(s, fs)
    case Ignore => Step(s, fs, Ok)
  }

  /**
   * `handle_events`: in Editor focus the key first goes to the text area
   * (input is the text area's update of its lines, not modelled further);
   * a Press then sets the dirty flag and is dispatched.
   */
  function EventHandled(s: AppState, ev: Event, picked: Option<string>, fs: FileSystem,
                        input: (seq<string>, KeyEvent) -> seq<string>): Step
  {
    match ev
    case NonKey => Step(s, fs, Ok)
    case Key(key) =>
      var typed := if s.focused == Editor then s.(buffer := input(s.buffer, key)) else s;
      if key.kind == Press then KeyHandled(typed.(dirty := true), key, picked, fs)
      else Step(typed, fs, Ok)
  }
}
