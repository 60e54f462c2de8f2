/**
 * The App struct of src/app.rs and its handlers, updating its fields in
 * place. The file picker's answer, the filesystem and the text area's
 * handling of a key are passed in; each method is proved to do what the
 * matching function of module Transitions says.
 */
module Controller {
  import opened Wrappers
  import opened State
  import opened Text
  import opened History
  import opened Files
  import opened Events
  import opened Transitions
  import Laws

  class App {
    var buffer: seq<string>
    var currentPath: string
    var recentFiles: seq<string>
    var dirty: bool
    var exit: bool
    var index: Usize
    var focused: Focused
    var theme: Theme

    /** All fields as one value. */
    ghost function Current(): AppState
      reads this
    {
      AppState(buffer, currentPath, recentFiles, dirty, exit, index, focused, theme)
    }

    ghost predicate Valid()
      reads this
    {
      Inv(Current())
    }

    /** `App::default()`. */
    constructor ()
      ensures Current() == Initial()
      ensures Valid()
    {
      buffer := [];
      currentPath := "";
      recentFiles := [];
      dirty := false;
      exit := false;
      index := 0;
      focused := DefaultFocused();
      theme := DefaultTheme();
    }

    /** Handle one terminal event. */
    method HandleEvents(ev: Event, picked: Option<string>, fs: FileSystem,
                        input: (seq<string>, KeyEvent) -> seq<string>)
      returns (fs': FileSystem, st: Status)
      modifies this
      ensures Step(Current(), fs', st) == EventHandled(old(Current()), ev, picked, fs, input)
      ensures old(Valid()) ==> Valid()
    {
      fs', st := fs, Ok;
      match ev {
        case NonKey =>
        case Key(key) =>
          if focused == Editor {
            buffer := input(buffer, key);
          }
          if key.kind == Press {
            dirty := true;
            fs', st := HandleKeyEvent(key, picked, fs);
          }
      }
      if old(Valid()) {
        Laws.EventHandledKeepsInv(old(Current()), ev, picked, fs, input);
      }
    }

    /** Run the command bound to a pressed key. */
    method HandleKeyEvent(key: KeyEvent, picked: Option<string>, fs: FileSystem)
      returns (fs': FileSystem, st: Status)
      modifies this
      ensures Step(Current(), fs', st) == KeyHandled(old(Current()), key, picked, fs)
    {
      fs', st := fs, Ok;
      match CommandOf(key) {
        case Quit => Exit();
        case Create => fs', st := CreateFile(picked, fs);
        case Save => fs', st := SaveFile(fs);
        case Open => OpenFile(picked, fs);
        case SaveAs => fs', st := SaveFileAs(picked, fs);
        case ToggleFocus => ChangeFocus();
        case NavigateUp =>
          if focused == Sidebar {
            var k := Window(recentFiles);
            if k == 0 {
              st := Panic(DivisionByZero);
            } else {
              index := MoveUp(index, k);
            }
          }
        case NavigateDown =>
          if focused == Sidebar {
            var k := Window(recentFiles);
            if k == 0 {
              st := Panic(DivisionByZero);
            } else {
              index := MoveDown(index, k);
            }
          }
        case Select =>
          if focused == Sidebar {
            if index >= |recentFiles| {
              st := Panic(IndexOutOfBounds);
            } else {
              currentPath := recentFiles[index];
              match fs.Read(currentPath) {
                case Some(content) => buffer := Lines(content);
                case None =>
              }
            }
          }
        case NextTheme => theme := NextOption(theme);
        case Ignore =>
      }
    }

    method Exit()
      modifies this
      ensures Current() == old(Current()).(exit := true)
    {
      exit := true;
    }

    /** Make path the current path, recording the old one in the history. */
    method ChangePath(path: string, fs: FileSystem)
      modifies this
      ensures Current() == PathChanged(old(Current()), path, fs)
    {
      if currentPath != path {
        if currentPath !in recentFiles {
          recentFiles := [currentPath] + recentFiles;
          assert recentFiles == Recorded(old(recentFiles), old(currentPath), path);
        } else {
          assert recentFiles == Recorded(old(recentFiles), old(currentPath), path);
        }
      } else {
        assert recentFiles == Recorded(old(recentFiles), old(currentPath), path);
      }
      currentPath := path;
      match fs.Read(currentPath) {
        case Some(content) => buffer := Lines(content);
        case None =>
      }
      assert buffer == Loaded(old(buffer), fs.Read(path));
    }

    method SaveFileAs(picked: Option<string>, fs: FileSystem) returns (fs': FileSystem, st: Status)
      modifies this
      ensures Step(Current(), fs', st) == SavedAs(old(Current()), picked, fs)
    {
      fs', st := fs, Ok;
      if picked.Some? {
        var name := picked.value;
        var written := fs.Write(name, Join(buffer));
        if written.None? {
          st := Panic(WriteFailed);
          return;
        }
        fs' := written.value;
        match fs'.Read(name) {
          case Some(content) => buffer := Lines(content);
          case None =>
        }
        ChangePath(name, fs');
        dirty := false;
      }
    }

    method CreateFile(picked: Option<string>, fs: FileSystem) returns (fs': FileSystem, st: Status)
      modifies this
      ensures Step(Current(), fs', st) == Created(old(Current()), picked, fs)
    {
      fs', st := fs, Ok;
      if picked.Some? {
        var name := picked.value;
        var written := fs.Write(name, "");
        if written.None? {
          st := Panic(WriteFailed);
          return;
        }
        fs' := written.value;
        match fs'.Read(name) {
          case Some(content) => buffer := Lines(content);
          case None =>
        }
        ChangePath(name, fs');
        dirty := false;
      }
    }

    method OpenFile(picked: Option<string>, fs: FileSystem)
      modifies this
      ensures Current() == Opened(old(Current()), picked, fs)
    {
      if picked.Some? {
        var name := picked.value;
        match fs.Read(name) {
          case Some(content) => buffer := Lines(content);
          case None =>
        }
        ghost var loaded := Current();
        assert loaded == old(Current()).(buffer := Loaded(old(buffer), fs.Read(name)));
        ChangePath(name, fs);
        dirty := false;
      }
    }

    method SaveFile(fs: FileSystem) returns (fs': FileSystem, st: Status)
      modifies this
      ensures Step(Current(), fs', st) == Saved(old(Current()), fs)
    {
      fs', st := fs, Ok;
      var written := fs.Write(currentPath, Join(buffer));
      if written.None? {
        st := Panic(WriteFailed);
        return;
      }
      fs' := written.value;
      dirty := false;
    }

    method ChangeFocus()
      modifies this
      ensures Current() == old(Current()).(focused := Toggled(old(focused)))
    {
      focused := Toggled(focused);
    }
  }
}
