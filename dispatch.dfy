/** Handing a work item to an agent: provision the registry record, prepare a git worktree on the
    agent's branch, start the assistant process there, and report how that process ended. Every
    external effect (git, the file system, process creation) is an input describing its outcome. */
module Dispatch {
  import opened Wrappers
  import opened Agents
  import opened Text
  import opened WorkItems
  import opened Branch
  import opened ActivityLog
  import opened AgentStore
  import opened Actions

  /** What running one `git` command gave: it could not be started, or it exited. */
  datatype GitRun = CouldNotRun | GitExited(success: bool, stderr: string)

  /** `run_git`: success exactly when git ran and exited successfully. */
  function RunGit(args: seq<string>, run: GitRun): (r: Result<unit>)
    ensures r.Ok? <==> run.GitExited? && run.success
    ensures run.CouldNotRun? ==> r == Err("Failed to run git " + Join(args, " "))
    ensures run.GitExited? && !run.success ==> r == Err("git " + Join(args, " ") + " failed: " + run.stderr)
  {
    match run
    case CouldNotRun => Err("Failed to run git " + Join(args, " "))
    case GitExited(success, stderr) =>
      if success then Ok(()) else Err("git " + Join(args, " ") + " failed: " + stderr)
  }

  const FetchArgs: seq<string> := ["fetch", "origin", "main"]
  const PruneArgs: seq<string> := ["worktree", "prune"]

  function RemoveArgs(worktree: string): seq<string> {
    ["worktree", "remove", worktree, "--force"]
  }

  function BranchArgs(branch: string): seq<string> {
    ["branch", branch, "origin/main"]
  }

  function ForceBranchArgs(branch: string): seq<string> {
    ["branch", "-f", branch, "origin/main"]
  }

  function AddArgs(worktree: string, branch: string): seq<string> {
    ["worktree", "add", worktree, branch]
  }

  /** How the assistant process start went, and the id the operating system reported for it, if any. */
  datatype Spawn = SpawnFailed | Spawned(pid: Option<u32>)

  const SpawnError := "Failed to spawn claude"

  /** The outcome of every external step of one dispatch, in the order the steps run. */
  datatype Steps = Steps(
    fetch: GitRun,
    worktreeExists: bool,
    remove: GitRun,
    prune: GitRun,
    branch: GitRun,
    forceBranch: GitRun,
    worktreeAdd: GitRun,
    contextFile: Result<unit>,
    logDirectory: Result<unit>,
    logFile: Result<unit>,
    spawn: Spawn)

  /** Creating the branch from origin/main, forcing it when the plain creation fails. */
  function CreateBranch(branch: string, s: Steps): (r: Result<unit>)
    ensures r.Ok? <==> RunGit(BranchArgs(branch), s.branch).Ok? || RunGit(ForceBranchArgs(branch), s.forceBranch).Ok?
    ensures r.Err? ==> r == RunGit(ForceBranchArgs(branch), s.forceBranch)
  {
    if RunGit(BranchArgs(branch), s.branch).Err? then RunGit(ForceBranchArgs(branch), s.forceBranch) else Ok(())
  }

  /** Everything before the process start: fetch, clean-up of an old worktree (whose outcome is ignored),
      prune (ignored), branch, worktree, context file, log directory and log file. The first failing
      step's error is the result. */
  function Prepared(branch: string, worktree: string, s: Steps): Result<unit> {
    var _ :- RunGit(FetchArgs, s.fetch);
    var _ :- CreateBranch(branch, s);
    var _ :- RunGit(AddArgs(worktree, branch), s.worktreeAdd);
    var _ :- s.contextFile;
    var _ :- s.logDirectory;
    s.logFile
  }

  /** The whole dispatch outcome: the id of the started process (0 when the system reported none), or
      the first error. */
  function Outcome(branch: string, worktree: string, s: Steps): (r: Result<u32>)
    ensures r.Ok? <==> Prepared(branch, worktree, s).Ok? && s.spawn.Spawned?
    ensures r.Ok? ==> r.value == s.spawn.pid.GetOr(0)
    ensures Prepared(branch, worktree, s).Err? ==> r == Err(Prepared(branch, worktree, s).error)
    ensures Prepared(branch, worktree, s).Ok? && s.spawn.SpawnFailed? ==> r == Err(SpawnError)
  {
    var _ :- Prepared(branch, worktree, s);
    match s.spawn
    case SpawnFailed => Err(SpawnError)
    case Spawned(pid) => Ok(pid.GetOr(0))
  }

  /** The old worktree's clean-up and the prune never decide the outcome. */
  lemma CleanupIsIgnored(branch: string, worktree: string, s: Steps, worktreeExists: bool, remove: GitRun, prune: GitRun)
    ensures Outcome(branch, worktree, s) == Outcome(branch, worktree, s.(worktreeExists := worktreeExists, remove := remove, prune := prune))
  {
  }

  /** A dispatch fails at the branch step only when both the plain and the forced creation fail, and
      then with the forced creation's error. */
  lemma BranchFallback(branch: string, worktree: string, s: Steps)
    requires RunGit(FetchArgs, s.fetch).Ok?
    ensures RunGit(BranchArgs(branch), s.branch).Ok? ==>
              Outcome(branch, worktree, s) == Outcome(branch, worktree, s.(forceBranch := CouldNotRun))
    ensures RunGit(BranchArgs(branch), s.branch).Err? && RunGit(ForceBranchArgs(branch), s.forceBranch).Err? ==>
              Outcome(branch, worktree, s) == Err(RunGit(ForceBranchArgs(branch), s.forceBranch).error)
  {
  }

  /** The registry after a dispatch: the named record provisioned, then, when the process started,
      working with its process id. */
  function AfterDispatch(m: Registry, agent: AgentName, item: WorkItem, repoRoot: string, s: Steps,
                         now: string): Registry
  {
    DispatchedOn(m, agent, item, BranchName(agent, item.id, item.title), WorktreePath(repoRoot, agent), s, now)
  }

  /** The registry after a dispatch on the given branch and worktree. */
  function DispatchedOn(m: Registry, agent: AgentName, item: WorkItem, branch: string, worktree: string, s: Steps,
                        now: string): Registry
  {
    var provisioned := ProvisionedIn(m, agent, item, branch, worktree, now);
    match Outcome(branch, worktree, s)
    case Ok(pid) => StartedIn(provisioned, agent, pid)
    case Err(_) => provisioned
  }

  /** The registry once `mark_provisioning` has run. */
  function ProvisionedIn(m: Registry, agent: AgentName, item: WorkItem, branch: string, worktree: string,
                         now: string): Registry
  {
    if AsStr(agent) in m then Updated(m, agent, Provisioned(m[AsStr(agent)], item.id, item.title, branch, worktree, now))
    else m
  }

  /** The registry once `mark_working` has run. */
  function StartedIn(m: Registry, agent: AgentName, pid: u32): Registry {
    if AsStr(agent) in m then Updated(m, agent, Started(m[AsStr(agent)], pid)) else m
  }

  /** After a dispatch of an agent the registry has, that agent holds the item, its branch and its
      worktree; it is Working with the process id when the dispatch succeeded and is left Provisioning
      when it failed. No other record changes and the process invariant is kept. */
  lemma DispatchedAgent(m: Registry, agent: AgentName, item: WorkItem, repoRoot: string, s: Steps, now: string)
    requires AsStr(agent) in m && WellFormed(m) && PidsMatchStatus(m) && m[AsStr(agent)].pid.None?
    ensures var r := AfterDispatch(m, agent, item, repoRoot, s, now);
            var a := r[AsStr(agent)];
            var out := Outcome(BranchName(agent, item.id, item.title), WorktreePath(repoRoot, agent), s);
            && r.Keys == m.Keys
            && (forall k :: k in m && k != AsStr(agent) ==> r[k] == m[k])
            && a.workItemId == Some(item.id) && a.workItemTitle == Some(item.title)
            && a.branch == Some(BranchName(agent, item.id, item.title))
            && a.worktreePath == Some(WorktreePath(repoRoot, agent))
            && a.retryCount == m[AsStr(agent)].retryCount
            && (out.Ok? ==> a.status == Working && a.pid == Some(out.value))
            && (out.Err? ==> a.status == Provisioning && a.pid.None?)
            && WellFormed(r) && PidsMatchStatus(r)
  {
    DispatchedOnAgent(m, agent, item, BranchName(agent, item.id, item.title), WorktreePath(repoRoot, agent), s, now);
  }

  /** `DispatchedAgent` for a dispatch on the given branch and worktree. */
  lemma DispatchedOnAgent(m: Registry, agent: AgentName, item: WorkItem, branch: string, worktree: string,
                          s: Steps, now: string)
    requires AsStr(agent) in m && WellFormed(m) && PidsMatchStatus(m) && m[AsStr(agent)].pid.None?
    ensures var r := DispatchedOn(m, agent, item, branch, worktree, s, now);
            var a := r[AsStr(agent)];
            var out := Outcome(branch, worktree, s);
            && r.Keys == m.Keys
            && (forall k :: k in m && k != AsStr(agent) ==> r[k] == m[k])
            && a.workItemId == Some(item.id) && a.workItemTitle == Some(item.title)
            && a.branch == Some(branch) && a.worktreePath == Some(worktree)
            && a.retryCount == m[AsStr(agent)].retryCount
            && (out.Ok? ==> a.status == Working && a.pid == Some(out.value))
            && (out.Err? ==> a.status == Provisioning && a.pid.None?)
            && WellFormed(r) && PidsMatchStatus(r)
  {
    var p := Provisioned(m[AsStr(agent)], item.id, item.title, branch, worktree, now);
    var m1 := Updated(m, agent, p);
    UpdateKeepsInvariants(m, agent, p);
    match Outcome(branch, worktree, s)
    case Ok(pid) =>
      UpdateKeepsInvariants(m1, agent, Started(p, pid));
    case Err(_) =>
  }

  /** The "dispatched" event logged right after provisioning. */
  function DispatchedEvent(now: string, agent: AgentName, item: WorkItem): (e: AgentEvent)
    ensures e.agent == agent && e.event == "dispatched" && e.workItemId == Some(item.id)
  {
    NewEvent(now, agent, "dispatched", Some(item.id), Some(item.title), None)
  }

  /** The "working" event logged once the process runs. */
  function WorkingEvent(now: string, agent: AgentName, item: WorkItem): (e: AgentEvent)
    ensures e.agent == agent && e.event == "working" && e.workItemId == Some(item.id)
  {
    NewEvent(now, agent, "working", Some(item.id), Some(item.title), None)
  }

  /** The events a dispatch logs: "dispatched", then "working" when the process started. */
  function DispatchEvents(now: string, agent: AgentName, item: WorkItem, repoRoot: string, s: Steps): (es: seq<AgentEvent>)
    ensures 1 <= |es| <= 2 && es[0] == DispatchedEvent(now, agent, item)
    ensures forall i :: 0 <= i < |es| ==> es[i].agent == agent && es[i].workItemId == Some(item.id)
    ensures forall i :: 1 <= i < |es| ==> es[i].event == "working"
  {
    LoggedEvents(now, agent, item, Outcome(BranchName(agent, item.id, item.title), WorktreePath(repoRoot, agent), s).Ok?)
  }

  function LoggedEvents(now: string, agent: AgentName, item: WorkItem, started: bool): (es: seq<AgentEvent>)
    ensures 1 <= |es| <= 2 && es[0] == DispatchedEvent(now, agent, item)
    ensures forall i :: 0 <= i < |es| ==> es[i].agent == agent && es[i].workItemId == Some(item.id)
    ensures forall i :: 1 <= i < |es| ==> es[i].event == "working"
  {
    if started then [DispatchedEvent(now, agent, item), WorkingEvent(now, agent, item)]
    else [DispatchedEvent(now, agent, item)]
  }

  /** `dispatch`. The clock is read as `now`; the monitoring of the started process is `Monitored`. */
  method DispatchItem(agent: AgentName, item: WorkItem, repoRoot: string, store: Store, log: Log,
                      s: Steps, now: string) returns (r: Result<unit>)
    modifies store, log
    ensures var out := Outcome(BranchName(agent, item.id, item.title), WorktreePath(repoRoot, agent), s);
            (r.Ok? <==> out.Ok?) && (r.Err? ==> r.error == out.error)
    ensures store.agents == AfterDispatch(old(store.agents), agent, item, repoRoot, s, now)
    ensures AsStr(agent) in old(store.agents) ==> store.Synced()
    ensures AsStr(agent) !in old(store.agents) ==> unchanged(store)
    ensures log.lines == old(log.lines) + Encoded(DispatchEvents(now, agent, item, repoRoot, s), log.encode)
  {
    var branch := BranchName(agent, item.id, item.title);
    var worktree := WorktreePath(repoRoot, agent);
    r := DispatchOn(agent, item, branch, worktree, store, log, s, now);
  }

  /** `dispatch` once the branch name and the worktree path are derived. */
  method DispatchOn(agent: AgentName, item: WorkItem, branch: string, worktree: string, store: Store, log: Log,
                    s: Steps, now: string) returns (r: Result<unit>)
    modifies store, log
    ensures var out := Outcome(branch, worktree, s);
            && (r.Ok? <==> out.Ok?) && (r.Err? ==> r.error == out.error)
            && log.lines == old(log.lines) + Encoded(LoggedEvents(now, agent, item, out.Ok?), log.encode)
    ensures store.agents == DispatchedOn(old(store.agents), agent, item, branch, worktree, s, now)
    ensures AsStr(agent) in old(store.agents) ==> store.Synced()
    ensures AsStr(agent) !in old(store.agents) ==> unchanged(store)
  {
    ghost var lines0 := log.lines;
    Provision(agent, item, branch, worktree, store, log, now);
    ghost var out := Outcome(branch, worktree, s);
    r := Launch(agent, item, branch, worktree, store, log, s, now);
    ghost var dispatched := DispatchedEvent(now, agent, item);
    ghost var rest := if out.Ok? then [WorkingEvent(now, agent, item)] else [];
    assert LoggedEvents(now, agent, item, out.Ok?) == [dispatched] + rest;
    EncodedOne(lines0, dispatched, rest, log.encode);
  }

  /** The provisioning that starts `dispatch`: the record takes the item, branch and worktree, and the
      "dispatched" event is logged. */
  method Provision(agent: AgentName, item: WorkItem, branch: string, worktree: string, store: Store, log: Log,
                   now: string)
    modifies store, log
    ensures store.agents == ProvisionedIn(old(store.agents), agent, item, branch, worktree, now)
    ensures AsStr(agent) in old(store.agents) ==> store.Synced()
    ensures AsStr(agent) !in old(store.agents) ==> unchanged(store)
    ensures log.lines == old(log.lines) + [log.encode(DispatchedEvent(now, agent, item))]
  {
    store.MarkProvisioning(agent, item.id, item.title, branch, worktree, now);
    log.Append(DispatchedEvent(now, agent, item));
  }

  /** The part of `dispatch` after provisioning: prepare the worktree, start the process and mark the
      agent working. */
  method Launch(agent: AgentName, item: WorkItem, branch: string, worktree: string, store: Store, log: Log,
                s: Steps, now: string) returns (r: Result<unit>)
    modifies store, log
    ensures var out := Outcome(branch, worktree, s);
            && (r.Ok? <==> out.Ok?) && (r.Err? ==> r.error == out.error)
            && (out.Ok? ==> store.agents == StartedIn(old(store.agents), agent, out.value))
            && (out.Err? ==> unchanged(store))
            && log.lines == old(log.lines) + Encoded(if out.Ok? then [WorkingEvent(now, agent, item)] else [], log.encode)
    ensures store.Synced() || unchanged(store)
    ensures AsStr(agent) !in old(store.agents) ==> unchanged(store)
  {
    var prepared := Prepared(branch, worktree, s);
    if prepared.Err? {
      return Err(prepared.error);
    }
    if s.spawn.SpawnFailed? {
      return Err(SpawnError);
    }
    var pid := s.spawn.pid.GetOr(0);
    store.MarkWorking(agent, pid);
    var working := WorkingEvent(now, agent, item);
    log.Append(working);
    assert Encoded([working], log.encode) == [log.encode(working)];
    return Ok(());
  }

  /** How waiting for the assistant process ended: its exit status (success, and the status as
      displayed), or an error while waiting. */
  datatype Exit = ExitStatus(success: bool, status: string) | WaitFailed(reason: string)

  /** What the monitor reports: the event it logs and the action it sends to the controller. */
  datatype Report = Report(event: AgentEvent, action: Action)

  /** The background monitor of a started process. */
  function Monitored(agent: AgentName, itemId: string, itemTitle: string, exit: Exit, now: string): (r: Report)
    ensures r.event.agent == agent && r.event.workItemId == Some(itemId) && r.event.workItemTitle == Some(itemTitle)
    ensures r.action == AgentProcessExited(agent, exit.ExitStatus? && exit.success)
    ensures r.event.event == "done" <==> r.action.success
    ensures r.event.event == "done" <==> r.event.message.None?
    ensures exit.ExitStatus? && !exit.success ==> r.event.message == Some("Exit code: " + exit.status)
    ensures exit.WaitFailed? ==> r.event.message == Some("Process error: " + exit.reason)
  {
    match exit
    case ExitStatus(success, status) =>
      if success then Report(NewEvent(now, agent, "done", Some(itemId), Some(itemTitle), None), AgentProcessExited(agent, true))
      else Report(NewEvent(now, agent, "error", Some(itemId), Some(itemTitle), Some("Exit code: " + status)),
                  AgentProcessExited(agent, false))
    case WaitFailed(reason) =>
      Report(NewEvent(now, agent, "error", Some(itemId), Some(itemTitle), Some("Process error: " + reason)),
             AgentProcessExited(agent, false))
  }
}
