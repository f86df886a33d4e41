// Key presses while the command bar is open. The global key map turns the shortcut letters into
// commands before the mode is known, so in the command bar 'q' quits and d, m, r, c, x and ':' are lost;
// with the map made aware of the mode, every character is typed.

module InputKeys {
  import opened Wrappers
  import opened Actions
  import opened Events
  import opened Controller

  // ---- As written ----

  /** One key press while the command bar is open, as `update` handles it (app.rs:151-157): the mapped
      key goes to `handle_input_key`, and `Quit` ends the program whatever the mode (app.rs:215-217).
      `None` means the program quits. */
  function InInputAsWritten(s: Input, key: KeyEvent): (r: Option<Input>)
    requires s.cursor <= |s.buffer|
    ensures r.Some? ==> r.value.cursor <= |r.value.buffer|
  {
    match KeyToAction(key)
    case Some(Key(k)) => Some(KeyEdited(s, k))
    case Some(Quit) => None
    case _ => Some(s)
  }

  /** What one plain character typed in the command bar does, as written: 'q' quits, the other shortcut
      characters are dropped, and every other character is inserted at the cursor. */
  function CharTypedAsWritten(s: Input, c: char): Option<Input>
    requires s.cursor <= |s.buffer|
  {
    if c == 'q' then None
    else if IsShortcut(c) then Some(s)
    else Some(Input(s.active, Inserted(s.buffer, s.cursor, c), s.cursor + 1))
  }

  /** In the command bar 'q' quits the program, the other shortcut characters leave the input as it
      was, and every other character is typed at the cursor, as `CharTypedAsWritten` says. */
  lemma ShortcutsLostInInput(s: Input, c: char)
    requires s.cursor <= |s.buffer|
    ensures c == 'q' ==> InInputAsWritten(s, KeyEvent(CharKey(c), false)).None?
    ensures IsShortcut(c) && c != 'q' ==> InInputAsWritten(s, KeyEvent(CharKey(c), false)) == Some(s)
    ensures !IsShortcut(c) ==>
              InInputAsWritten(s, KeyEvent(CharKey(c), false))
              == Some(Input(s.active, Inserted(s.buffer, s.cursor, c), s.cursor + 1))
    ensures InInputAsWritten(s, KeyEvent(CharKey(c), false)) == CharTypedAsWritten(s, c)
  {
    CharactersAndShortcuts(c, false);
  }

  /** Typing `text` one plain character at a time, as written; `None` when it quits on the way. */
  function TypedAsWritten(s: Input, text: string): Option<Input>
    requires s.cursor <= |s.buffer|
    decreases |text|
  {
    if text == [] then Some(s)
    else
      match CharTypedAsWritten(s, text[0])
      case None => None
      case Some(t) => TypedAsWritten(t, text[1..])
  }

  /** Inserting at the end appends. */
  lemma InsertedAtEnd(buffer: string, c: char)
    ensures Inserted(buffer, |buffer|, c) == buffer + [c]
  {
  }

  /** As written, a plain character typed at the end of the input is appended to it. */
  lemma PlainAppendedAsWritten(s: Input, text: string, k: nat)
    requires s.cursor == |s.buffer| && k < |text| && !IsShortcut(text[k])
    ensures TypedAsWritten(s, text[k..])
            == TypedAsWritten(Input(s.active, s.buffer + [text[k]], s.cursor + 1), text[k + 1..])
  {
    InsertedAtEnd(s.buffer, text[k]);
    assert text[k..][1..] == text[k + 1..];
  }

  /** As written, a shortcut character other than 'q' typed in the command bar is lost. */
  lemma ShortcutLostAsWritten(s: Input, text: string, k: nat)
    requires s.cursor <= |s.buffer| && k < |text| && IsShortcut(text[k]) && text[k] != 'q'
    ensures TypedAsWritten(s, text[k..]) == TypedAsWritten(s, text[k + 1..])
  {
    assert text[k..][1..] == text[k + 1..];
  }

  /** As written, three plain characters typed at the end of the input are appended to it. */
  lemma PlainsAppendedAsWritten(s: Input, text: string, k: nat)
    requires s.cursor == |s.buffer| && k + 3 <= |text|
    requires !IsShortcut(text[k]) && !IsShortcut(text[k + 1]) && !IsShortcut(text[k + 2])
    ensures TypedAsWritten(s, text[k..]) ==
            TypedAsWritten(Input(s.active, s.buffer + [text[k]] + [text[k + 1]] + [text[k + 2]], |s.buffer| + 3),
                           text[k + 3..])
  {
    var b := s.buffer;
    var s1 := Input(s.active, b + [text[k]], |b| + 1);
    var s2 := Input(s.active, s1.buffer + [text[k + 1]], |b| + 2);
    PlainAppendedAsWritten(s, text, k);
    PlainAppendedAsWritten(s1, text, k + 1);
    PlainAppendedAsWritten(s2, text, k + 2);
  }

  /** Typing "@terra" at the end of the input appends "@tea", since both 'r's are taken as Refresh. */
  lemma TerraCannotBeTyped(s: Input)
    requires s.cursor == |s.buffer|
    ensures TypedAsWritten(s, "@terra") == Some(Input(s.active, s.buffer + "@tea", |s.buffer| + 4))
  {
    var b, t := s.buffer, "@terra";
    assert t[0..] == t;
    TerraStartTyped(s);
    RefreshLettersLost(Input(s.active, b + ['@'] + ['t'] + ['e'], |b| + 3));
    TeaAppended(b);
  }

  /** The first three characters of "@terra" are appended. */
  lemma TerraStartTyped(s: Input)
    requires s.cursor == |s.buffer|
    ensures TypedAsWritten(s, "@terra"[0..])
            == TypedAsWritten(Input(s.active, s.buffer + ['@'] + ['t'] + ['e'], |s.buffer| + 3), "@terra"[3..])
  {
    PlainsAppendedAsWritten(s, "@terra", 0);
  }

  /** The rest of "@terra", "rra", loses both 'r's and appends the 'a'. */
  lemma RefreshLettersLost(s: Input)
    requires s.cursor == |s.buffer|
    ensures TypedAsWritten(s, "@terra"[3..]) == Some(Input(s.active, s.buffer + ['a'], s.cursor + 1))
  {
    var t := "@terra";
    ShortcutLostAsWritten(s, t, 3);
    ShortcutLostAsWritten(s, t, 4);
    PlainAppendedAsWritten(s, t, 5);
  }

  /** The four characters kept, appended one at a time. */
  lemma TeaAppended(b: string)
    ensures b + ['@'] + ['t'] + ['e'] + ['a'] == b + "@tea"
  {
    var r := b + ['@'] + ['t'] + ['e'] + ['a'];
    assert |r| == |b| + 4;
    assert forall i :: 0 <= i < |b| ==> r[i] == b[i];
  }

  /** Typing "quit" in the command bar ends the program at its first letter. */
  lemma QuitEndsTyping(s: Input)
    requires s.cursor <= |s.buffer|
    ensures TypedAsWritten(s, "quit").None?
  {
  }

  // ---- Corrected ----

  /** The key map with the mode taken into account: while the command bar is open every character is
      text (Ctrl+C still quits); otherwise it is `key_to_action`. */
  function ModalKeyToAction(key: KeyEvent, inputActive: bool): (r: Option<Action>)
    ensures !inputActive ==> r == KeyToAction(key)
    ensures inputActive && key.code.CharKey? && !(key.control && key.code.c == 'c') ==>
              r == Some(Key(Char(key.code.c)))
    ensures !(key.code.CharKey? && IsShortcut(key.code.c)) ==> r == KeyToAction(key)
  {
    if inputActive && key.code.CharKey? && !(key.control && key.code.c == 'c') then Some(Key(Char(key.code.c)))
    else KeyToAction(key)
  }

  /** One key press while the command bar is open, with the mode-aware key map. */
  function InInput(s: Input, key: KeyEvent): (r: Option<Input>)
    requires s.cursor <= |s.buffer|
    ensures r.Some? ==> r.value.cursor <= |r.value.buffer|
  {
    match ModalKeyToAction(key, true)
    case Some(Key(k)) => Some(KeyEdited(s, k))
    case Some(Quit) => None
    case _ => Some(s)
  }

  /** The correction changes nothing but the shortcut characters: every other key does what it did. */
  lemma OnlyShortcutsChange(s: Input, key: KeyEvent)
    requires s.cursor <= |s.buffer|
    requires !(key.code.CharKey? && IsShortcut(key.code.c))
    ensures InInput(s, key) == InInputAsWritten(s, key)
  {
  }

  /** With the mode-aware map, every plain character is typed at the cursor. */
  lemma CharactersTyped(s: Input, c: char)
    requires s.cursor <= |s.buffer|
    ensures InInput(s, KeyEvent(CharKey(c), false)) == Some(Input(s.active, Inserted(s.buffer, s.cursor, c), s.cursor + 1))
  {
  }

  /** Typing `text` one plain character at a time with the mode-aware map, each character inserted at the
      cursor as `CharactersTyped` shows. */
  function Typed(s: Input, text: string): (r: Input)
    requires s.cursor <= |s.buffer|
    ensures r.cursor <= |r.buffer|
    decreases |text|
  {
    if text == [] then s
    else Typed(Input(s.active, Inserted(s.buffer, s.cursor, text[0]), s.cursor + 1), text[1..])
  }

  /** With the mode-aware map, typing any text at the end of the input appends exactly that text, so
      every agent name can be typed letter by letter. */
  lemma {:induction false} TypingAppends(s: Input, text: string)
    requires s.cursor == |s.buffer|
    ensures Typed(s, text) == Input(s.active, s.buffer + text, |s.buffer| + |text|)
    decreases |text|
  {
    if text != [] {
      var t := Input(s.active, s.buffer + [text[0]], |s.buffer| + 1);
      InsertedAtEnd(s.buffer, text[0]);
      TypingAppends(t, text[1..]);
      assert t.buffer + text[1..] == s.buffer + text;
    } else {
      assert s.buffer + text == s.buffer;
    }
  }

  /** On text without shortcut characters the correction types exactly what the code types. */
  lemma {:induction false} AgreesWithoutShortcuts(s: Input, text: string)
    requires s.cursor <= |s.buffer|
    requires forall i :: 0 <= i < |text| ==> !IsShortcut(text[i])
    ensures TypedAsWritten(s, text) == Some(Typed(s, text))
    decreases |text|
  {
    if text != [] {
      AgreesWithoutShortcuts(Input(s.active, Inserted(s.buffer, s.cursor, text[0]), s.cursor + 1), text[1..]);
    }
  }

  /** "@terra" now types as itself. */
  lemma TerraTyped(s: Input)
    requires s.cursor == |s.buffer|
    ensures Typed(s, "@terra") == Input(s.active, s.buffer + "@terra", |s.buffer| + 6)
  {
    TypingAppends(s, "@terra");
  }
}
