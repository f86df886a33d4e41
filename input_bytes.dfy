/** The command-bar editing of the controller as the code performs it, with the cursor a byte offset into
    the UTF-8 text, set beside the character cursor of `Controller.KeyEdited`. */
module InputBytes {
  import opened Wrappers
  import opened Agents
  import opened Actions
  import opened Controller

  /** The number of bytes of a character's UTF-8 encoding. */
  function Utf8Width(c: char): (w: nat)
    ensures 1 <= w <= 4
    ensures w == 1 <==> (c as int) < 0x80
  {
    if (c as int) < 0x80 then 1 else if (c as int) < 0x800 then 2 else if (c as int) < 0x1_0000 then 3 else 4
  }

  /** `String::len`: the length of a text in UTF-8 bytes. */
  function ByteLen(s: string): (n: nat)
    ensures |s| <= n <= 4 * |s|
  {
    if s == [] then 0 else Utf8Width(s[0]) + ByteLen(s[1..])
  }

  /** The position of the character that starts at byte `b`, or None when `b` is not a character
      boundary of `s` (it falls inside a character or past the end). */
  function CharAt(s: string, b: nat): (k: Option<nat>)
    ensures k.Some? ==> k.value <= |s|
  {
    if b == 0 then Some(0)
    else if s == [] || b < Utf8Width(s[0]) then None
    else match CharAt(s[1..], b - Utf8Width(s[0]))
      case Some(k) => Some(k + 1)
      case None => None
  }

  /** The bytes of a non-empty prefix are those of its first character and of the rest. */
  lemma PrefixBytes(s: string, j: nat)
    requires 0 < j <= |s|
    ensures ByteLen(s[..j]) == Utf8Width(s[0]) + ByteLen(s[1..][..j - 1])
  {
    assert s[..j][0] == s[0];
    assert s[..j][1..] == s[1..][..j - 1];
  }

  /** `CharAt` finds exactly the character boundaries: byte `b` starts character `k` exactly when the
      first `k` characters take `b` bytes. */
  lemma {:induction false} CharAtIsBoundary(s: string, b: nat)
    ensures CharAt(s, b).Some? ==> ByteLen(s[..CharAt(s, b).value]) == b
    ensures CharAt(s, b).None? ==> forall j :: 0 <= j <= |s| ==> ByteLen(s[..j]) != b
  {
    if CharAt(s, b).Some? {
      CharAtFindsBoundary(s, b);
    } else {
      NoCharAtNoBoundary(s, b);
    }
  }

  lemma {:induction false} CharAtFindsBoundary(s: string, b: nat)
    requires CharAt(s, b).Some?
    ensures ByteLen(s[..CharAt(s, b).value]) == b
  {
    if b == 0 {
      assert s[..0] == [];
    } else {
      var t := s[1..];
      var k := CharAt(t, b - Utf8Width(s[0])).value;
      CharAtFindsBoundary(t, b - Utf8Width(s[0]));
      PrefixBytes(s, k + 1);
    }
  }

  lemma {:induction false} NoCharAtNoBoundary(s: string, b: nat)
    requires CharAt(s, b).None?
    ensures forall j :: 0 <= j <= |s| ==> ByteLen(s[..j]) != b
  {
    assert s[..0] == [];
    if s != [] {
      var w := Utf8Width(s[0]);
      if b >= w {
        NoCharAtNoBoundary(s[1..], b - w);
      }
      forall j | 0 < j <= |s| ensures ByteLen(s[..j]) != b {
        PrefixBytes(s, j);
      }
    }
  }

  /** A text of ASCII characters only: one byte per character. */
  predicate IsAscii(s: string) {
    forall i :: 0 <= i < |s| ==> (s[i] as int) < 0x80
  }

  /** On ASCII text bytes and characters coincide. */
  lemma {:induction false} AsciiBoundaries(s: string, b: nat)
    requires IsAscii(s)
    ensures ByteLen(s) == |s|
    ensures b <= |s| ==> CharAt(s, b) == Some(b)
  {
    if s != [] {
      assert (s[0] as int) < 0x80;
      assert IsAscii(s[1..]) by {
        forall i | 0 <= i < |s[1..]| ensures (s[1..][i] as int) < 0x80 {
          assert s[1..][i] == s[i + 1];
        }
      }
      AsciiBoundaries(s[1..], if b == 0 then 0 else b - 1);
    }
  }

  /** The completed buffer is ASCII. */
  lemma CompletedIsAscii(n: AgentName)
    ensures IsAscii(CompletedBuffer(n))
  {
    match n
    case Ember => assert CompletedBuffer(n) == "@ember ";
    case Flow => assert CompletedBuffer(n) == "@flow ";
    case Tempest => assert CompletedBuffer(n) == "@tempest ";
    case Terra => assert CompletedBuffer(n) == "@terra ";
  }

  /** The outcome of a key as written: the edited input, or a panic. */
  datatype Edit = Edited(input: Input) | Panicked

  /** `handle_input_key` as written, with the cursor a byte offset that every keystroke moves by one:
      `String::remove` panics unless the byte before the cursor starts a character, `String::insert`
      unless the cursor does, and `Right` stops at the byte length. */
  function KeyEditedAsWritten(s: Input, key: KeyAction): (r: Edit)
    ensures r.Panicked? ==> key.Backspace? || key.Char?
    ensures r.Edited? ==> r.input.active == (s.active && !key.Escape? && !key.Select?)
    ensures key.Char? ==> (r.Edited? <==> exists j :: 0 <= j <= |s.buffer| && ByteLen(s.buffer[..j]) == s.cursor)
  {
    match key
    case Escape => Edited(Input(false, [], 0))
    case Select => Edited(Input(false, [], 0))
    case Backspace =>
      if s.cursor == 0 then Edited(s)
      else (match CharAt(s.buffer, s.cursor - 1)
            case Some(k) =>
              if k < |s.buffer| then Edited(Input(s.active, s.buffer[..k] + s.buffer[k + 1..], s.cursor - 1))
              else Panicked
            case None => Panicked)
    case Left => Edited(if s.cursor > 0 then s.(cursor := s.cursor - 1) else s)
    case Right => Edited(if s.cursor < ByteLen(s.buffer) then s.(cursor := s.cursor + 1) else s)
    case Char(c) =>
      (match CharAt(s.buffer, s.cursor)
       case Some(k) => CharAtIsBoundary(s.buffer, s.cursor); Edited(Input(s.active, s.buffer[..k] + [c] + s.buffer[k..], s.cursor + 1))
       case None => CharAtIsBoundary(s.buffer, s.cursor); Panicked)
    case Tab =>
      (match Autocompleted(s.buffer)
       case Some(n) => Edited(s.(buffer := CompletedBuffer(n), cursor := ByteLen(CompletedBuffer(n))))
       case None => Edited(s))
    case _ => Edited(s)
  }

  /** Typing "é" and then "x" panics as written, where the character cursor gives "éx"; "é", Right and
      Backspace panics too, where the character cursor stays put and Backspace deletes the "é". */
  lemma NonAsciiEditPanics()
    ensures KeyEditedAsWritten(Input(true, "", 0), Char('é')) == Edited(Input(true, "é", 1))
    ensures KeyEditedAsWritten(Input(true, "é", 1), Char('x')) == Panicked
    ensures KeyEdited(Input(true, "é", 1), Char('x')).buffer == "éx"
    ensures KeyEditedAsWritten(Input(true, "é", 1), Right) == Edited(Input(true, "é", 2))
    ensures KeyEditedAsWritten(Input(true, "é", 2), Backspace) == Panicked
    ensures KeyEdited(Input(true, "é", 1), Right) == Input(true, "é", 1)
    ensures KeyEdited(Input(true, "é", 1), Backspace) == Input(true, "", 0)
  {
    assert Utf8Width('é') == 2;
    assert ByteLen("é") == 2;
    assert CharAt("é", 1) == None;
  }

  /** On ASCII text the code as written and the character cursor agree key by key. */
  lemma AsWrittenAgreesOnAscii(s: Input, key: KeyAction)
    requires s.cursor <= |s.buffer| && IsAscii(s.buffer)
    ensures KeyEditedAsWritten(s, key) == Edited(KeyEdited(s, key))
  {
    match key
    case Backspace => BackspaceAgreesOnAscii(s);
    case Char(c) => CharAgreesOnAscii(s, c);
    case Tab => TabAgreesOnAscii(s);
    case Right => AsciiBoundaries(s.buffer, s.cursor);
    case _ =>
  }

  lemma BackspaceAgreesOnAscii(s: Input)
    requires s.cursor <= |s.buffer| && IsAscii(s.buffer)
    ensures KeyEditedAsWritten(s, Backspace) == Edited(KeyEdited(s, Backspace))
  {
    if s.cursor > 0 {
      AsciiBoundaries(s.buffer, s.cursor - 1);
    }
  }

  lemma CharAgreesOnAscii(s: Input, c: char)
    requires s.cursor <= |s.buffer| && IsAscii(s.buffer)
    ensures KeyEditedAsWritten(s, Char(c)) == Edited(KeyEdited(s, Char(c)))
  {
    AsciiBoundaries(s.buffer, s.cursor);
  }

  lemma TabAgreesOnAscii(s: Input)
    requires s.cursor <= |s.buffer| && IsAscii(s.buffer)
    ensures KeyEditedAsWritten(s, Tab) == Edited(KeyEdited(s, Tab))
  {
    if Autocompleted(s.buffer).Some? {
      var n := Autocompleted(s.buffer).value;
      CompletedIsAscii(n);
      AsciiBoundaries(CompletedBuffer(n), 0);
    }
  }
}
