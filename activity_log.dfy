/** The append-only activity log: one JSON line per agent event, read back filtered and limited. */
module ActivityLog {
  import opened Wrappers
  import opened Agents
  import opened Text

  datatype AgentEvent = AgentEvent(
    timestamp: string,
    agent: AgentName,
    event: string,
    workItemId: Option<string>,
    workItemTitle: Option<string>,
    message: Option<string>)

  /** `new_event`; the clock reading is a parameter. */
  function NewEvent(now: string, agent: AgentName, eventType: string, workItemId: Option<string>,
                    workItemTitle: Option<string>, message: Option<string>): (e: AgentEvent)
    ensures e.timestamp == now && e.agent == agent && e.event == eventType
    ensures e.workItemId == workItemId && e.workItemTitle == workItemTitle && e.message == message
  {
    AgentEvent(now, agent, eventType, workItemId, workItemTitle, message)
  }

  /** The log file, as the sequence of its lines. `encode` stands for the JSON serialisation of one
      event; it never produces a line break, so each append adds exactly one line. */
  class Log {
    var lines: seq<string>
    const encode: AgentEvent -> string

    constructor (encode: AgentEvent -> string)
      ensures lines == [] && this.encode == encode
    {
      lines := [];
      this.encode := encode;
    }

    /** `append_event` */
    method Append(e: AgentEvent)
      modifies this
      ensures lines == old(lines) + [encode(e)]
    {
      lines := lines + [encode(e)];
    }
  }

  /** The lines that are not blank and that `parse` accepts, decoded, in file order. */
  function Decoded(lines: seq<string>, parse: string -> Option<AgentEvent>): (r: seq<AgentEvent>)
    ensures |r| <= |lines|
  {
    if lines == [] then []
    else
      var last := lines[|lines| - 1];
      var rest := Decoded(lines[..|lines| - 1], parse);
      if !IsBlank(last) && parse(last).Some? then rest + [parse(last).value] else rest
  }

  predicate Matches(e: AgentEvent, agent: Option<AgentName>) {
    agent.None? || e.agent == agent.value
  }

  /** `agent.map_or(true, |a| e.agent == a)` as a filter. */
  function ForAgent(es: seq<AgentEvent>, agent: Option<AgentName>): (r: seq<AgentEvent>)
    ensures |r| <= |es|
    ensures forall i :: 0 <= i < |r| ==> Matches(r[i], agent)
    ensures forall e :: e in r <==> e in es && Matches(e, agent)
  {
    if es == [] then []
    else
      var rest := ForAgent(es[..|es| - 1], agent);
      assert es == es[..|es| - 1] + [es[|es| - 1]];
      if Matches(es[|es| - 1], agent) then rest + [es[|es| - 1]] else rest
  }

  /** The filter keeps file order: filtering two runs of events gives the kept events of the first
      followed by those of the second. */
  lemma {:induction false} ForAgentConcat(a: seq<AgentEvent>, b: seq<AgentEvent>, agent: Option<AgentName>)
    ensures ForAgent(a + b, agent) == ForAgent(a, agent) + ForAgent(b, agent)
  {
    if b == [] {
      assert a + b == a;
    } else {
      var init, last := b[..|b| - 1], b[|b| - 1];
      var tail := if Matches(last, agent) then [last] else [];
      var fa, fi := ForAgent(a, agent), ForAgent(init, agent);
      assert b == init + [last];
      assert a + b == (a + init) + [last];
      calc {
        ForAgent(a + b, agent);
        ForAgent((a + init) + [last], agent);
        { ForAgentSnoc(a + init, last, agent); }
        ForAgent(a + init, agent) + tail;
        { ForAgentConcat(a, init, agent); }
        (fa + fi) + tail;
        fa + (fi + tail);
        { ForAgentSnoc(init, last, agent); }
        fa + ForAgent(init + [last], agent);
      }
    }
  }

  /** The filter keeps every occurrence of a matching event and none of any other. */
  lemma {:induction false} ForAgentCounts(es: seq<AgentEvent>, agent: Option<AgentName>, e: AgentEvent)
    ensures multiset(ForAgent(es, agent))[e] == if Matches(e, agent) then multiset(es)[e] else 0
  {
    if es != [] {
      var init, last := es[..|es| - 1], es[|es| - 1];
      assert es == init + [last];
      ForAgentCounts(init, agent, e);
      ForAgentSnoc(init, last, agent);
      assert multiset(es) == multiset(init) + multiset{last};
    }
  }

  /** The filter on one more event. */
  lemma ForAgentSnoc(es: seq<AgentEvent>, e: AgentEvent, agent: Option<AgentName>)
    ensures ForAgent(es + [e], agent) == ForAgent(es, agent) + (if Matches(e, agent) then [e] else [])
  {
    assert (es + [e])[..|es|] == es;
  }

  /** Keeps the last `limit` events when there are more. */
  function Newest(es: seq<AgentEvent>, limit: Option<nat>): (r: seq<AgentEvent>)
    ensures limit.Some? ==> |r| == if |es| <= limit.value then |es| else limit.value
    ensures limit.None? ==> r == es
    ensures |es| - |r| >= 0 && r == es[|es| - |r|..]
  {
    if limit.Some? && |es| > limit.value then es[|es| - limit.value..] else es
  }

  /** `read_events`: a missing or unreadable file reads as no events. */
  function ReadEvents(file: Option<seq<string>>, parse: string -> Option<AgentEvent>,
                      agent: Option<AgentName>, limit: Option<nat>): (r: seq<AgentEvent>)
    ensures file.None? ==> r == []
    ensures limit.Some? ==> |r| <= limit.value
    ensures forall i :: 0 <= i < |r| ==> Matches(r[i], agent)
  {
    match file
    case None => []
    case Some(lines) => Newest(ForAgent(Decoded(lines, parse), agent), limit)
  }

  /** The limit keeps the newest events: the limited read is a tail of the unlimited one, and it is all
      of it when there are no more than `limit` events. */
  lemma LimitKeepsNewest(file: Option<seq<string>>, parse: string -> Option<AgentEvent>,
                         agent: Option<AgentName>, n: nat)
    ensures var all := ReadEvents(file, parse, agent, None);
            var r := ReadEvents(file, parse, agent, Some(n));
            r == all[|all| - |r|..] && (|all| <= n ==> r == all) && (|all| > n ==> |r| == n)
  {
    if file.Some? {
      var found := ForAgent(Decoded(file.value, parse), agent);
      assert ReadEvents(file, parse, agent, None) == Newest(found, None) == found;
      assert ReadEvents(file, parse, agent, Some(n)) == Newest(found, Some(n));
    }
  }

  /** Without a limit, an event is read back exactly when some non-blank line parses to it and it
      belongs to the requested agent. */
  lemma {:induction false} ReadEventsMembership(lines: seq<string>, parse: string -> Option<AgentEvent>,
                                                agent: Option<AgentName>, e: AgentEvent)
    ensures e in ReadEvents(Some(lines), parse, agent, None) <==>
            Matches(e, agent) && exists i :: 0 <= i < |lines| && !IsBlank(lines[i]) && parse(lines[i]) == Some(e)
  {
    DecodedMembership(lines, parse, e);
  }

  lemma {:induction false} DecodedMembership(lines: seq<string>, parse: string -> Option<AgentEvent>, e: AgentEvent)
    ensures e in Decoded(lines, parse) <==>
            exists i :: 0 <= i < |lines| && !IsBlank(lines[i]) && parse(lines[i]) == Some(e)
  {
    if lines != [] {
      var init := lines[..|lines| - 1];
      DecodedMembership(init, parse, e);
      assert forall i :: 0 <= i < |init| ==> init[i] == lines[i];
      if exists i :: 0 <= i < |lines| && !IsBlank(lines[i]) && parse(lines[i]) == Some(e) {
        var i :| 0 <= i < |lines| && !IsBlank(lines[i]) && parse(lines[i]) == Some(e);
        if i < |init| {
          assert !IsBlank(init[i]) && parse(init[i]) == Some(e);
        }
      }
    }
  }

  /** Decoding a log extended by one line adds that line's event when it is one. */
  lemma DecodedSnoc(lines: seq<string>, line: string, parse: string -> Option<AgentEvent>)
    ensures Decoded(lines + [line], parse) ==
            Decoded(lines, parse) + (if !IsBlank(line) && parse(line).Some? then [parse(line).value] else [])
  {
    assert (lines + [line])[..|lines|] == lines;
  }

  /** The log keeps what was appended: when serialisation round-trips through `parse` and never writes a
      blank line, appending an event to a log and reading it back gives the old events followed by the
      new one when it belongs to the requested agent, and the old events alone otherwise. */
  lemma AppendThenRead(lines: seq<string>, encode: AgentEvent -> string,
                       parse: string -> Option<AgentEvent>, agent: Option<AgentName>, e: AgentEvent)
    requires parse(encode(e)) == Some(e) && !IsBlank(encode(e))
    ensures ReadEvents(Some(lines + [encode(e)]), parse, agent, None) ==
            ReadEvents(Some(lines), parse, agent, None) + (if Matches(e, agent) then [e] else [])
  {
    DecodedSnoc(lines, encode(e), parse);
    ForAgentConcat(Decoded(lines, parse), [e], agent);
    assert ForAgent([e], agent) == ForAgent([], agent) + (if Matches(e, agent) then [e] else []);
  }

  /** The filter without an agent keeps everything. */
  lemma {:induction false} ForAgentAll(es: seq<AgentEvent>)
    ensures ForAgent(es, None) == es
  {
    if es != [] {
      ForAgentAll(es[..|es| - 1]);
      assert es == es[..|es| - 1] + [es[|es| - 1]];
    }
  }

  /** The lines a run of appends writes to a fresh log. */
  function Encoded(es: seq<AgentEvent>, encode: AgentEvent -> string): (lines: seq<string>)
    ensures |lines| == |es|
  {
    if es == [] then [] else Encoded(es[..|es| - 1], encode) + [encode(es[|es| - 1])]
  }

  /** A fresh log read back after a run of appends gives exactly the appended events, in order. */
  lemma AppendedEventsReadBack(es: seq<AgentEvent>, encode: AgentEvent -> string,
                               parse: string -> Option<AgentEvent>)
    requires forall i :: 0 <= i < |es| ==> parse(encode(es[i])) == Some(es[i]) && !IsBlank(encode(es[i]))
    ensures ReadEvents(Some(Encoded(es, encode)), parse, None, None) == es
  {
    DecodedEncoded(es, encode, parse);
    ForAgentAll(es);
  }

  lemma {:induction false} DecodedEncoded(es: seq<AgentEvent>, encode: AgentEvent -> string,
                                          parse: string -> Option<AgentEvent>)
    requires forall i :: 0 <= i < |es| ==> parse(encode(es[i])) == Some(es[i]) && !IsBlank(encode(es[i]))
    ensures Decoded(Encoded(es, encode), parse) == es
  {
    if es != [] {
      var init := es[..|es| - 1];
      var e := es[|es| - 1];
      SplitLast(es);
      assert forall i :: 0 <= i < |init| ==> init[i] == es[i];
      DecodedEncoded(init, encode, parse);
      assert parse(encode(e)) == Some(e) && !IsBlank(encode(e));
      DecodedSnoc(Encoded(init, encode), encode(e), parse);
    }
  }

  lemma SplitLast<T>(s: seq<T>)
    requires s != []
    ensures s[..|s| - 1] + [s[|s| - 1]] == s
  {
  }

  /** Encoding is done line by line, so it distributes over concatenation. */
  lemma {:induction false} EncodedAppend(a: seq<AgentEvent>, b: seq<AgentEvent>, encode: AgentEvent -> string)
    ensures Encoded(a + b, encode) == Encoded(a, encode) + Encoded(b, encode)
  {
    if b == [] {
      assert a + b == a;
    } else {
      var init, last := b[..|b| - 1], b[|b| - 1];
      EncodedAppend(a, init, encode);
      assert (a + b)[..|a + b| - 1] == a + init && (a + b)[|a + b| - 1] == last;
      calc {
        Encoded(a + b, encode);
        Encoded(a + init, encode) + [encode(last)];
        (Encoded(a, encode) + Encoded(init, encode)) + [encode(last)];
        Encoded(a, encode) + (Encoded(init, encode) + [encode(last)]);
      }
    }
  }

  /** Appending no events leaves the lines as they are. */
  lemma EncodedNothing(lines: seq<string>, encode: AgentEvent -> string)
    ensures lines + Encoded([], encode) == lines
  {
    assert Encoded([], encode) == [];
  }

  /** A log that gets one event and then a run of events holds the lines of the whole run. */
  lemma EncodedOne(lines: seq<string>, e: AgentEvent, es: seq<AgentEvent>, encode: AgentEvent -> string)
    ensures (lines + [encode(e)]) + Encoded(es, encode) == lines + Encoded([e] + es, encode)
  {
    EncodedAppend([e], es, encode);
    assert Encoded([e], encode) == [encode(e)];
    assert (lines + [encode(e)]) + Encoded(es, encode) == lines + ([encode(e)] + Encoded(es, encode));
  }

  /** A log that gets one run of events and then another holds the lines of both runs together. */
  lemma LogExtended(lines: seq<string>, a: seq<AgentEvent>, b: seq<AgentEvent>, encode: AgentEvent -> string)
    ensures (lines + Encoded(a, encode)) + Encoded(b, encode) == lines + Encoded(a + b, encode)
  {
    EncodedAppend(a, b, encode);
    assert (lines + Encoded(a, encode)) + Encoded(b, encode) == lines + (Encoded(a, encode) + Encoded(b, encode));
  }
}
