/** The global key mapping from terminal key events to actions. */
module Events {
  import opened Wrappers
  import opened Actions

  /** The key codes the mapping distinguishes; `OtherKey` stands for every other code the terminal reports
      (function keys, Home, End, Page Up, and so on). */
  datatype KeyCode = UpKey | DownKey | LeftKey | RightKey | Enter | Esc | BackspaceKey | TabKey
                   | CharKey(c: char) | OtherKey

  /** A key press; only the Control modifier matters to the mapping. */
  datatype KeyEvent = KeyEvent(code: KeyCode, control: bool)

  /** The printable characters that are commands rather than text. */
  predicate IsShortcut(c: char) {
    c == 'q' || c == 'd' || c == 'm' || c == 'r' || c == 'c' || c == 'x' || c == ':'
  }

  /** `key_to_action` */
  function KeyToAction(key: KeyEvent): (r: Option<Action>)
    ensures key.control && key.code == CharKey('c') ==> r == Some(Quit)
    ensures r.None? <==> key.code == OtherKey && !(key.control && key.code == CharKey('c'))
  {
    if key.control && key.code == CharKey('c') then Some(Quit)
    else
      match key.code
      case UpKey => Some(Key(Up))
      case DownKey => Some(Key(Down))
      case LeftKey => Some(Key(Left))
      case RightKey => Some(Key(Right))
      case CharKey(c) =>
        if c == 'q' then Some(Quit)
        else if c == 'd' then Some(Key(Dispatch))
        else if c == 'm' then Some(Key(ToggleAutoMode))
        else if c == 'r' then Some(Key(Refresh))
        else if c == 'c' then Some(Key(ClearAgent))
        else if c == 'x' then Some(Key(ClearLogs))
        else if c == ':' then Some(Key(ActivateInput))
        else Some(Key(Char(c)))
      case Enter => Some(Key(Select))
      case Esc => Some(Key(Escape))
      case BackspaceKey => Some(Key(Backspace))
      case TabKey => Some(Key(Tab))
      case OtherKey => None
  }

  /** The shortcut characters map to their commands whatever the modifiers (Ctrl+C aside), and never
      reach text input; every other character reaches it as itself. */
  lemma CharactersAndShortcuts(c: char, control: bool)
    requires !(control && c == 'c')
    ensures KeyToAction(KeyEvent(CharKey(c), control)) == Some(Key(Char(c))) <==> !IsShortcut(c)
    ensures c == 'q' ==> KeyToAction(KeyEvent(CharKey(c), control)) == Some(Quit)
    ensures c == 'd' ==> KeyToAction(KeyEvent(CharKey(c), control)) == Some(Key(Dispatch))
    ensures c == 'm' ==> KeyToAction(KeyEvent(CharKey(c), control)) == Some(Key(ToggleAutoMode))
    ensures c == 'r' ==> KeyToAction(KeyEvent(CharKey(c), control)) == Some(Key(Refresh))
    ensures c == 'c' ==> KeyToAction(KeyEvent(CharKey(c), control)) == Some(Key(ClearAgent))
    ensures c == 'x' ==> KeyToAction(KeyEvent(CharKey(c), control)) == Some(Key(ClearLogs))
    ensures c == ':' ==> KeyToAction(KeyEvent(CharKey(c), control)) == Some(Key(ActivateInput))
  {
  }

  /** The named keys map to their actions whatever the modifiers. */
  lemma NamedKeys(control: bool)
    ensures KeyToAction(KeyEvent(Enter, control)) == Some(Key(Select))
    ensures KeyToAction(KeyEvent(Esc, control)) == Some(Key(Escape))
    ensures KeyToAction(KeyEvent(BackspaceKey, control)) == Some(Key(Backspace))
    ensures KeyToAction(KeyEvent(TabKey, control)) == Some(Key(Tab))
    ensures KeyToAction(KeyEvent(UpKey, control)) == Some(Key(Up))
    ensures KeyToAction(KeyEvent(DownKey, control)) == Some(Key(Down))
    ensures KeyToAction(KeyEvent(LeftKey, control)) == Some(Key(Left))
    ensures KeyToAction(KeyEvent(RightKey, control)) == Some(Key(Right))
  {
  }
}
