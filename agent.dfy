/** The fixed pool of named agents and the record the registry keeps for each of them. */
module Agents {
  import opened Wrappers

  /** A process id, as the `u32` the registry stores. */
  newtype u32 = x: int | 0 <= x < 0x1_0000_0000

  datatype AgentName = Ember | Flow | Tempest | Terra

  /** `AgentName::ALL`: the pool, in the order every search over it uses. */
  const All: seq<AgentName> := [Ember, Flow, Tempest, Terra]

  /** The registry key and the serialised name; `Display` for `AgentName` writes exactly this. */
  function AsStr(n: AgentName): (s: string)
    ensures 4 <= |s|
    ensures forall i :: 0 <= i < |s| ==> 'a' <= s[i] <= 'z'
  {
    match n
    case Ember => "ember"
    case Flow => "flow"
    case Tempest => "tempest"
    case Terra => "terra"
  }

  /** The name as shown to people: `AsStr` with its first letter in upper case. */
  function DisplayName(n: AgentName): (s: string)
    ensures |s| == |AsStr(n)|
    ensures s[0] as int == AsStr(n)[0] as int - 32 && s[1..] == AsStr(n)[1..]
  {
    match n
    case Ember => "Ember"
    case Flow => "Flow"
    case Tempest => "Tempest"
    case Terra => "Terra"
  }

  /** `ALL` lists every name exactly once, Ember, Flow, Tempest, Terra in that order. */
  lemma AllListsEachNameOnce()
    ensures All == [Ember, Flow, Tempest, Terra]
    ensures forall n: AgentName :: n in All
    ensures forall i, j :: 0 <= i < j < |All| ==> All[i] != All[j]
  {
    forall n: AgentName ensures n in All {
      match n
      case Ember => assert All[0] == n;
      case Flow => assert All[1] == n;
      case Tempest => assert All[2] == n;
      case Terra => assert All[3] == n;
    }
  }

  /** Distinct agents have distinct keys. */
  lemma AsStrInjective(a: AgentName, b: AgentName)
    requires AsStr(a) == AsStr(b)
    ensures a == b
  {
  }

  /** No agent's name is a prefix of another's, so at most one name can start a given text. */
  lemma NamesArePrefixFree(a: AgentName, b: AgentName)
    requires AsStr(a) <= AsStr(b)
    ensures a == b
  {
    assert AsStr(b)[0] == AsStr(a)[0] && AsStr(b)[2] == AsStr(a)[2];
    KeyLetters(a, b);
  }

  /** The first and third letters of a key tell the agents apart. */
  lemma KeyLetters(a: AgentName, b: AgentName)
    requires AsStr(a)[0] == AsStr(b)[0] && AsStr(a)[2] == AsStr(b)[2]
    ensures a == b
  {
    match a
    case Ember => assert AsStr(b)[0] == 'e';
    case Flow => assert AsStr(b)[0] == 'f';
    case Tempest => assert AsStr(b)[2] == 'm';
    case Terra => assert AsStr(b)[2] == 'r';
  }

  datatype AgentStatus = Idle | Provisioning | Working | Done | Error

  /** `Display` for `AgentStatus`. */
  function StatusText(s: AgentStatus): (r: string)
    ensures forall i :: 0 <= i < |r| ==> 'a' <= r[i] <= 'z'
    ensures r == "idle" <==> s == Idle
  {
    match s
    case Idle => "idle"
    case Provisioning => "provisioning"
    case Working => "working"
    case Done => "done"
    case Error => "error"
  }

  /** Distinct statuses display differently. */
  lemma StatusTextInjective(s: AgentStatus, t: AgentStatus)
    requires StatusText(s) == StatusText(t)
    ensures s == t
  {
  }

  datatype Agent = Agent(
    name: AgentName,
    status: AgentStatus,
    workItemId: Option<string>,
    workItemTitle: Option<string>,
    branch: Option<string>,
    worktreePath: Option<string>,
    pid: Option<u32>,
    startedAt: Option<string>,
    error: Option<string>,
    retryCount: nat)

  /** The registry's central invariant for one record: an agent is Working exactly when it has a process. */
  predicate PidMatchesStatus(a: Agent) {
    a.status == Working <==> a.pid.Some?
  }

  /** A record that holds no work, no workspace, no process, no error and no retries. */
  predicate Unassigned(a: Agent) {
    && a.workItemId.None? && a.workItemTitle.None? && a.branch.None? && a.worktreePath.None?
    && a.pid.None? && a.startedAt.None? && a.error.None? && a.retryCount == 0
  }

  /** `Agent::new` */
  function NewAgent(n: AgentName): (a: Agent)
    ensures a.name == n && a.status == Idle && Unassigned(a)
    ensures PidMatchesStatus(a)
  {
    Agent(n, Idle, None, None, None, None, None, None, None, 0)
  }
}
