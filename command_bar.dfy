/** The command bar's reading of its input: whether it addresses an agent, which title to show, and
    where the cursor goes. */
module CommandBar {
  import opened Wrappers
  import opened Agents

  /** A terminal coordinate, as the `u16` the terminal library uses. */
  newtype u16 = x: int | 0 <= x < 0x1_0000

  /** "@name" followed by the end of the input or a space. */
  predicate Addresses(input: string, n: AgentName) {
    |input| > 0 && input[0] == '@' && AsStr(n) <= input[1..]
    && (|input| == 1 + |AsStr(n)| || input[1 + |AsStr(n)|] == ' ')
  }

  function FirstAddressed(names: seq<AgentName>, input: string): (r: Option<AgentName>)
    ensures r.Some? ==> r.value in names && Addresses(input, r.value)
    ensures r.None? ==> forall n :: n in names ==> !Addresses(input, n)
  {
    if names == [] then None
    else if Addresses(input, names[0]) then Some(names[0])
    else FirstAddressed(names[1..], input)
  }

  /** `detect_agent_prefix` */
  function DetectAgentPrefix(input: string): (r: Option<AgentName>)
    ensures r.Some? ==> Addresses(input, r.value)
    ensures r.None? <==> forall n: AgentName :: !Addresses(input, n)
  {
    AllListsEachNameOnce();
    FirstAddressed(All, input)
  }

  /** Names are prefix-free, so the agent an input addresses is the one the command bar detects. */
  lemma AddressedIsDetected(input: string, n: AgentName)
    requires Addresses(input, n)
    ensures DetectAgentPrefix(input) == Some(n)
  {
    var m := DetectAgentPrefix(input).value;
    var rest := input[1..];
    if |AsStr(m)| <= |AsStr(n)| {
      assert AsStr(m) == rest[..|AsStr(m)|] == AsStr(n)[..|AsStr(m)|];
      NamesArePrefixFree(m, n);
    } else {
      // the character after n's name is a space or the end of the input, never a letter of m's name
      assert false;
    }
  }

  const MessageTitle := " Message Agent "
  const HintTitle := " Command — @agent msg | new task title "
  const TaskTitle := " New Task "

  /** The title of the command bar in `render`. */
  function Title(input: string): (t: string)
    ensures t == MessageTitle <==> DetectAgentPrefix(input).Some?
    ensures t == HintTitle <==> input == []
    ensures t == TaskTitle <==> input != [] && DetectAgentPrefix(input).None?
  {
    if DetectAgentPrefix(input).Some? then MessageTitle
    else if input == [] then HintTitle
    else TaskTitle
  }

  /** `u16` addition and subtraction as a release build performs them: modulo 2^16. */
  function Wrap(x: int): (r: u16)
    ensures 0 <= x < 0x1_0000 ==> r as int == x
  {
    (x % 0x1_0000) as u16
  }

  /** The cursor column: one past the left border plus the cursor (cast to `u16`), kept left of the right
      border. */
  function CursorColumn(areaX: u16, areaWidth: u16, cursor: nat): (col: u16)
    ensures col <= Wrap(areaX as int + areaWidth as int - 2)
    ensures col == Wrap(areaX as int + 1 + Wrap(cursor) as int) || col == Wrap(areaX as int + areaWidth as int - 2)
  {
    var x := Wrap(areaX as int + 1 + Wrap(cursor) as int);
    var limit := Wrap(areaX as int + areaWidth as int - 2);
    if x <= limit then x else limit
  }

  /** When nothing overflows, the column is the plain arithmetic one, capped at the last column inside the
      border. */
  lemma CursorColumnWithoutOverflow(areaX: u16, areaWidth: u16, cursor: nat)
    requires 2 <= areaX as int + areaWidth as int
    requires areaX as int + areaWidth as int < 0x1_0000 && areaX as int + 1 + cursor < 0x1_0000
    ensures CursorColumn(areaX, areaWidth, cursor) as int ==
              if areaX as int + 1 + cursor <= areaX as int + areaWidth as int - 2
              then areaX as int + 1 + cursor else areaX as int + areaWidth as int - 2
  {
    assert Wrap(cursor) as int == cursor;
  }
}
