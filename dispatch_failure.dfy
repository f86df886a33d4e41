// A dispatch that fails after its agent was marked Provisioning: as the program does it, the agent is
// left Provisioning with its item and no tick ever frees it; with the failure recorded as Error, the
// next tick's retry policy dispatches it again or releases it.

module DispatchFailure {
  import opened Wrappers
  import opened Agents
  import opened WorkItems
  import opened AgentStore
  import opened Dispatch
  import opened Branch
  import opened Controller

  // ---- As written: the agent is stuck ----

  /** A dispatch leaves every other agent's record as it was. */
  lemma DispatchedOnKeepsOthers(m: Registry, agent: AgentName, item: WorkItem, branch: string, worktree: string,
                                s: Steps, now: string, n: AgentName)
    requires AsStr(n) in m && agent != n
    ensures var r := DispatchedOn(m, agent, item, branch, worktree, s, now);
            AsStr(n) in r && r[AsStr(n)] == m[AsStr(n)]
  {
    assert AsStr(agent) != AsStr(n);
  }

  /** Dispatching one agent again leaves every other agent's record as it was. */
  lemma RedispatchedKeepsOthers(m: Registry, k: AgentName, items: seq<WorkItem>, repoRoot: string, w: World,
                                n: AgentName)
    requires AsStr(n) in m && k != n
    ensures var r := Redispatched(m, k, items, repoRoot, w).agents;
            AsStr(n) in r && r[AsStr(n)] == m[AsStr(n)]
  {
    assert AsStr(k) != AsStr(n);
    if AsStr(k) in m && m[AsStr(k)].workItemId.Some? && m[AsStr(k)].workItemTitle.Some? {
      match FindById(items, m[AsStr(k)].workItemId.value)
      case Some(item) =>
        DispatchedOnKeepsOthers(m, k, item, BranchName(k, item.id, item.title), WorktreePath(repoRoot, k),
                                w.steps(k, item), w.now, n);
      case None =>
    }
  }

  /** Retrying one agent leaves every other agent's record as it was, whatever that agent's status. */
  lemma RetryStepKeepsOthers(m: Registry, k: AgentName, items: seq<WorkItem>, repoRoot: string, maxRetries: nat,
                             w: World, n: AgentName)
    requires AsStr(n) in m && k != n
    ensures var r := RetryStep(m, k, items, repoRoot, maxRetries, w).agents;
            AsStr(n) in r && r[AsStr(n)] == m[AsStr(n)]
  {
    assert AsStr(k) != AsStr(n);
    RedispatchedKeepsOthers(RetriedIn(m, k), k, items, repoRoot, w, n);
  }

  /** The retry loop leaves the record of an agent it does not retry as it was. */
  lemma {:induction false} RetriedAllKeepsOthers(m: Registry, names: seq<AgentName>, items: seq<WorkItem>,
                                                 repoRoot: string, maxRetries: nat, w: World, n: AgentName)
    requires AsStr(n) in m && n !in names
    ensures var r := RetriedAll(m, names, items, repoRoot, maxRetries, w).agents;
            AsStr(n) in r && r[AsStr(n)] == m[AsStr(n)]
  {
    if names != [] {
      var init := names[..|names| - 1];
      assert n !in init by {
        assert forall i :: 0 <= i < |init| ==> init[i] == names[i];
      }
      RetriedAllKeepsOthers(m, init, items, repoRoot, maxRetries, w, n);
      var e := RetriedAll(m, init, items, repoRoot, maxRetries, w);
      RetryStepKeepsOthers(e.agents, names[|names| - 1], items, repoRoot, maxRetries, w, n);
    }
  }

  /** Auto-dispatch only takes Idle agents: the record of an agent that is not Idle comes out of it as it
      went in, and the set of claimed items only grows. */
  lemma {:induction false} AutoDispatchKeepsBusy(b: Board, items: seq<WorkItem>, repoRoot: string,
                                                 providerNames: seq<string>, w: World, n: AgentName)
    requires AsStr(n) in b.agents && b.agents[AsStr(n)].status != Idle
    ensures var r := AutoDispatched(b, items, repoRoot, providerNames, w);
            AsStr(n) in r.agents && r.agents[AsStr(n)] == b.agents[AsStr(n)]
    decreases |Ids(items) - b.dispatched|
  {
    match NextFree(b.agents)
    case None =>
    case Some(agent) =>
      match FirstUnclaimed(items, b.dispatched)
      case None =>
      case Some(item) =>
        DispatchedOnKeepsOthers(b.agents, agent, item, BranchName(agent, item.id, item.title),
                                WorktreePath(repoRoot, agent), w.steps(agent, item), w.now, n);
        ClaimShrinksBacklog(Ids(items), b.dispatched, item.id);
        AutoDispatchKeepsBusy(Round(b, agent, item, repoRoot, providerNames, w), items, repoRoot, providerNames,
                              w, n);
  }

  /** `handle_tick` as written: an agent that reloads as Provisioning with no process (the state a failed
      `dispatch` leaves behind) is not cleaned as stale, not released, not retried and not taken by
      auto-dispatch, so it comes out of the tick unchanged, still holding its item, and no claim is
      dropped. */
  lemma StuckProvisioningSurvivesTick(disk: Disk, m: Registry, dispatched: set<string>, flash: Option<string>,
                                      autoMode: bool, items: seq<WorkItem>, repoRoot: string,
                                      providerNames: seq<string>, maxRetries: nat, w: World, n: AgentName)
    requires WellFormed(Reloaded(disk, m, w.alive))
    requires Reloaded(disk, m, w.alive)[AsStr(n)].status == Provisioning
    requires Reloaded(disk, m, w.alive)[AsStr(n)].pid.None?
    ensures var t := Ticked(disk, m, dispatched, flash, autoMode, items, repoRoot, providerNames, maxRetries, w);
            && AsStr(n) in t.agents && t.agents[AsStr(n)] == Reloaded(disk, m, w.alive)[AsStr(n)]
            && dispatched <= t.dispatched
  {
    var m1 := Reloaded(disk, m, w.alive);
    ReleasingDoneAgents(m1);
    if autoMode {
      AutoPhasesKeepProvisioning(ReleasedAll(m1, Names(AllAgents(m1), Done)), dispatched, flash, items, repoRoot,
                                 providerNames, maxRetries, w, n);
    }
  }

  /** The auto-mode half of a tick, retrying the agents in Error and then auto-dispatching, leaves a
      Provisioning agent's record as it was and drops no claim. */
  lemma AutoPhasesKeepProvisioning(m: Registry, dispatched: set<string>, flash: Option<string>,
                                   items: seq<WorkItem>, repoRoot: string, providerNames: seq<string>,
                                   maxRetries: nat, w: World, n: AgentName)
    requires WellFormed(m) && m[AsStr(n)].status == Provisioning
    ensures var e := RetriedAll(m, Names(AllAgents(m), Error), items, repoRoot, maxRetries, w);
            var r := AutoDispatched(Board(e.agents, dispatched, [], flash), items, repoRoot, providerNames, w);
            && AsStr(n) in r.agents && r.agents[AsStr(n)] == m[AsStr(n)]
            && dispatched <= r.dispatched
  {
    var errors := Names(AllAgents(m), Error);
    NamesOfStatus(m, Error);
    RetriedAllKeepsOthers(m, errors, items, repoRoot, maxRetries, w, n);
    var e := RetriedAll(m, errors, items, repoRoot, maxRetries, w);
    var b := Board(e.agents, dispatched, [], flash);
    AutoDispatchKeepsBusy(b, items, repoRoot, providerNames, w, n);
    AutoDispatchClaims(b, items, repoRoot, providerNames, w);
  }

  /** The stuck agent is never offered work again: it is not Idle, and it still holds its item, so the
      item is never dispatched to anyone else while the claim stands. */
  lemma StuckProvisioningHoldsItem(m: Registry, n: AgentName, id: string)
    requires WellFormed(m) && m[AsStr(n)].status == Provisioning && m[AsStr(n)].workItemId == Some(id)
    ensures !IsIdle(m, n) && NextFree(m) != Some(n)
    ensures AssignedAgent(m, id).Some?
  {
    AssignedAgentHoldsItem(m, id);
  }

  // ---- Corrected: the failure is recorded ----

  /** `dispatch` with every failure after `mark_provisioning` recorded by `mark_error` with the error's
      message instead of leaving the agent Provisioning, so that the retry policy can recover the agent. */
  function DispatchedOnCorrected(m: Registry, agent: AgentName, item: WorkItem, branch: string, worktree: string,
                                 s: Steps, now: string): Registry
  {
    var provisioned := ProvisionedIn(m, agent, item, branch, worktree, now);
    match Outcome(branch, worktree, s)
    case Ok(pid) => StartedIn(provisioned, agent, pid)
    case Err(e) =>
      if AsStr(agent) in provisioned then Updated(provisioned, agent, Failed(provisioned[AsStr(agent)], e))
      else provisioned
  }

  /** A successful dispatch is unchanged by the correction. A failed one leaves the agent in Error with
      the failure's message and no process, still holding the item it was given and its retry count; no
      other record changes and the registry's invariants are kept. */
  lemma FailedDispatchIsError(m: Registry, agent: AgentName, item: WorkItem, branch: string, worktree: string,
                              s: Steps, now: string)
    requires AsStr(agent) in m && WellFormed(m) && PidsMatchStatus(m) && m[AsStr(agent)].pid.None?
    ensures var r := DispatchedOnCorrected(m, agent, item, branch, worktree, s, now);
            var a := r[AsStr(agent)];
            var out := Outcome(branch, worktree, s);
            && r.Keys == m.Keys
            && (forall k :: k in m && k != AsStr(agent) ==> r[k] == m[k])
            && (out.Ok? ==> r == DispatchedOn(m, agent, item, branch, worktree, s, now))
            && (out.Err? ==> a.status == Error && a.error == Some(out.error) && a.pid.None?)
            && a.workItemId == Some(item.id) && a.workItemTitle == Some(item.title)
            && a.retryCount == m[AsStr(agent)].retryCount
            && WellFormed(r) && PidsMatchStatus(r)
  {
    DispatchedOnAgent(m, agent, item, branch, worktree, s, now);
    var p := ProvisionedIn(m, agent, item, branch, worktree, now);
    match Outcome(branch, worktree, s)
    case Ok(_) =>
    case Err(e) =>
      UpdateKeepsInvariants(p, agent, Failed(p[AsStr(agent)], e));
  }

  /** After a corrected failed dispatch, the next tick in auto mode retries the agent (it is among the
      agents in Error), and the retry policy either releases it, when the retry bound is passed or the
      backlog lost the item, or dispatches it again to the same item with its retry count one higher. */
  lemma FailedDispatchIsRetried(m: Registry, n: AgentName, item: WorkItem, branch: string, worktree: string,
                                s: Steps, now: string, items: seq<WorkItem>, repoRoot: string, maxRetries: nat,
                                w: World)
    requires WellFormed(m) && PidsMatchStatus(m) && m[AsStr(n)].pid.None?
    requires Outcome(branch, worktree, s).Err?
    ensures AsStr(n) in RetryStep(DispatchedOnCorrected(m, n, item, branch, worktree, s, now), n, items, repoRoot,
                                  maxRetries, w).agents
    ensures var f := DispatchedOnCorrected(m, n, item, branch, worktree, s, now);
            var count := m[AsStr(n)].retryCount + 1;
            var b := RetryStep(f, n, items, repoRoot, maxRetries, w).agents[AsStr(n)];
            && n in Names(AllAgents(f), Error)
            && (count > maxRetries || item.id !in Ids(items) ==> b == NewAgent(n))
            && (count <= maxRetries && item.id in Ids(items) ==>
                  b.workItemId == Some(item.id) && b.retryCount == count
                  && (b.status == Working || b.status == Provisioning))
  {
    FailedDispatchIsError(m, n, item, branch, worktree, s, now);
    var f := DispatchedOnCorrected(m, n, item, branch, worktree, s, now);
    NamesOfStatus(f, Error);
    RetryPolicy(f, n, items, repoRoot, maxRetries, w);
  }
}
