/**
 * The terminal input the editor reacts to, and its fixed key bindings: which
 * command each key event selects (src/app.rs, `handle_key_event`).
 */
module Events {
  /** The key codes the bindings distinguish; every other key is Other. */
  datatype KeyCode = Char(c: char) | Up | Down | Enter | Other

  /** Whether the terminal reported a key going down, auto-repeating or going up. */
  datatype KeyKind = Press | Repeat | Release

  /** A key event; ctrl says whether the Control modifier was among those held. */
  datatype KeyEvent = KeyEvent(code: KeyCode, ctrl: bool, kind: KeyKind)

  /** A terminal event: a key, or anything else (mouse, resize, focus, paste). */
  datatype Event = Key(key: KeyEvent) | NonKey

  datatype Command =
    | Quit | Create | Save | Open | SaveAs | ToggleFocus | NextTheme
    | NavigateUp | NavigateDown | Select | Ignore

  /** Commands bound to a Control chord; they act whichever pane has focus. */
  predicate IsGlobal(cmd: Command)
  {
    cmd in {Quit, Create, Save, Open, SaveAs, ToggleFocus, NextTheme}
  }

  /** The key binding table. */
  function CommandOf(key: KeyEvent): (cmd: Command)
    ensures IsGlobal(cmd) ==> key.ctrl && key.code.Char?
    ensures key.code.Char? && !key.ctrl ==> cmd == Ignore
    ensures cmd == NavigateUp <==> key.code == Up
    ensures cmd == NavigateDown <==> key.code == Down
    ensures cmd == Select <==> key.code == Enter
    ensures cmd == Quit <==> key.ctrl && (key.code == Char('c') || key.code == Char('q'))
  {
    match key.code
    case Char(c) =>
      if !key.ctrl then Ignore
      else if c == 'c' || c == 'q' then Quit
      else if c == 'n' then Create
      else if c == 'l' then Save
      else if c == 'o' then Open
      else if c == 'p' then SaveAs
      else if c == ' ' then ToggleFocus
      else if c == 't' then NextTheme
      else Ignore
    case Up => NavigateUp
    case Down => NavigateDown
    case Enter => Select
    case Other => Ignore
  }
}
