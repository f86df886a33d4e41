/** How the chat panel recognises a message addressed to an agent: an '@' followed by an agent's name,
    with no check of what follows the name. */
module ChatPanel {
  import opened Wrappers
  import opened Agents
  import opened Text

  /** The first name of `names` that starts `s`. */
  function FirstPrefix(names: seq<AgentName>, s: string): (r: Option<AgentName>)
    ensures r.Some? ==> r.value in names && AsStr(r.value) <= s
    ensures r.None? ==> forall n :: n in names ==> !(AsStr(n) <= s)
  {
    if names == [] then None
    else if AsStr(names[0]) <= s then Some(names[0])
    else FirstPrefix(names[1..], s)
  }

  /** `extract_agent_target`: names are prefix-free, so the agent found is the only one whose name follows
      the '@'. */
  function ExtractAgentTarget(text: string): (r: Option<AgentName>)
    ensures r.Some? ==> |text| > 0 && text[0] == '@' && AsStr(r.value) <= text[1..]
    ensures r.None? <==> |text| == 0 || text[0] != '@' || forall n: AgentName :: !(AsStr(n) <= text[1..])
  {
    if |text| == 0 || text[0] != '@' then None
    else
      AllListsEachNameOnce();
      FirstPrefix(All, text[1..])
  }

  /** The agent found is the one whose name follows the '@', whichever way the search goes. */
  lemma TargetIsUnique(text: string, n: AgentName)
    requires |text| > 0 && text[0] == '@' && AsStr(n) <= text[1..]
    ensures ExtractAgentTarget(text) == Some(n)
  {
    var m := ExtractAgentTarget(text).value;
    var rest := text[1..];
    if |AsStr(m)| <= |AsStr(n)| {
      assert AsStr(m) == rest[..|AsStr(m)|] == AsStr(n)[..|AsStr(m)|];
      NamesArePrefixFree(m, n);
    } else {
      NamesArePrefixFree(n, m);
    }
  }

  /** `strip_agent_prefix`: the text after "@name" with its leading whitespace removed, or the whole text
      when it does not start with an agent's name. */
  function StripAgentPrefix(text: string): string {
    if |text| == 0 || text[0] != '@' then text
    else match StripFirst(All, text[1..])
      case Some(rest) => rest
      case None => text
  }

  /** The rest after the first name of `names` that starts `afterAt`, without leading whitespace. */
  function StripFirst(names: seq<AgentName>, afterAt: string): Option<string> {
    if names == [] then None
    else if AsStr(names[0]) <= afterAt then Some(TrimStart(afterAt[|AsStr(names[0])|..]))
    else StripFirst(names[1..], afterAt)
  }

  /** The two helpers agree: the text is stripped exactly when a target is found, and then what remains is
      the text after that target's name, without leading whitespace. */
  lemma StripMatchesTarget(text: string)
    ensures ExtractAgentTarget(text).None? ==> StripAgentPrefix(text) == text
    ensures ExtractAgentTarget(text).Some? ==>
              StripAgentPrefix(text) == TrimStart(text[1 + |AsStr(ExtractAgentTarget(text).value)|..])
  {
    if |text| > 0 && text[0] == '@' {
      var afterAt := text[1..];
      StripFirstMatches(All, afterAt);
      assert StripAgentPrefix(text) == match StripFirst(All, afterAt) case Some(rest) => rest case None => text;
      assert ExtractAgentTarget(text) == FirstPrefix(All, afterAt);
      match FirstPrefix(All, afterAt)
      case Some(n) =>
        var k := |AsStr(n)|;
        assert afterAt[k..] == text[1 + k..];
      case None =>
    }
  }

  lemma {:induction false} StripFirstMatches(names: seq<AgentName>, afterAt: string)
    ensures StripFirst(names, afterAt).None? <==> FirstPrefix(names, afterAt).None?
    ensures FirstPrefix(names, afterAt).Some? ==>
              StripFirst(names, afterAt) == Some(TrimStart(afterAt[|AsStr(FirstPrefix(names, afterAt).value)|..]))
  {
    if names != [] && !(AsStr(names[0]) <= afterAt) {
      StripFirstMatches(names[1..], afterAt);
    }
  }
}
