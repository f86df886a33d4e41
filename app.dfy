/** The controller: the application state, the reconciliation it performs on every tick, and its
    handling of dispatch requests, cleared agents, finished processes and the command-bar input. The
    policy is stated first as functions over values; the `App` class then performs it step by step. */
module Controller {
  import opened Wrappers
  import opened Agents
  import opened Text
  import opened WorkItems
  import opened Chat
  import opened Branch
  import opened ActivityLog
  import opened AgentStore
  import opened Dispatch
  import opened Actions
  import opened CommandBar
  import opened ChatPanel

  /** What the world answers to the controller's probes and requests: which processes are alive, how each
      dispatch's external steps go, what the tracker says to a move of an item (by provider name and the
      item's id in that tracker), and the clock. */
  datatype World = World(
    alive: u32 -> bool,
    steps: (AgentName, WorkItem) -> Steps,
    moveToInProgress: (string, string) -> Result<unit>,
    moveToDone: (string, string) -> Result<unit>,
    now: string)

  // ---- Registry changes as the store methods make them, missing names included ----

  function ReleasedIn(m: Registry, n: AgentName): (r: Registry)
    ensures r.Keys == m.Keys
    ensures AsStr(n) in m ==> r[AsStr(n)] == NewAgent(n)
    ensures forall k :: k in m && k != AsStr(n) ==> r[k] == m[k]
  {
    if AsStr(n) in m then Updated(m, n, NewAgent(n)) else m
  }

  function RetriedIn(m: Registry, n: AgentName): (r: Registry)
    ensures r.Keys == m.Keys
    ensures AsStr(n) in m ==> r[AsStr(n)] == Retried(m[AsStr(n)])
    ensures forall k :: k in m && k != AsStr(n) ==> r[k] == m[k]
  {
    if AsStr(n) in m then Updated(m, n, Retried(m[AsStr(n)])) else m
  }

  function FinishedIn(m: Registry, n: AgentName): (r: Registry)
    ensures r.Keys == m.Keys
    ensures AsStr(n) in m ==> r[AsStr(n)] == Finished(m[AsStr(n)])
    ensures forall k :: k in m && k != AsStr(n) ==> r[k] == m[k]
  {
    if AsStr(n) in m then Updated(m, n, Finished(m[AsStr(n)])) else m
  }

  function FailedIn(m: Registry, n: AgentName, error: string): (r: Registry)
    ensures r.Keys == m.Keys
    ensures AsStr(n) in m ==> r[AsStr(n)] == Failed(m[AsStr(n)], error)
    ensures forall k :: k in m && k != AsStr(n) ==> r[k] == m[k]
  {
    if AsStr(n) in m then Updated(m, n, Failed(m[AsStr(n)], error)) else m
  }

  /** What `reload` leaves in memory: the file's registry with stale processes cleaned, or, when the file
      cannot be read, the registry as it was. */
  function Reloaded(disk: Disk, m: Registry, alive: u32 -> bool): Registry {
    if disk.Unreadable? then m else StaleCleaned(Loaded(disk, m), alive)
  }

  /** No agent of the pool is Done. */
  ghost predicate NoneDone(m: Registry) {
    forall n: AgentName :: AsStr(n) in m ==> m[AsStr(n)].status != Done
  }

  // ---- The agents of one status, as `get_all().filter(..).map(|a| a.name)` lists them ----

  function Names(agents: seq<Agent>, s: AgentStatus): (r: seq<AgentName>)
    ensures |r| <= |agents|
    ensures forall n :: n in r <==> exists i :: 0 <= i < |agents| && agents[i].status == s && agents[i].name == n
  {
    if agents == [] then []
    else
      var rest := Names(agents[1..], s);
      assert forall i :: 1 <= i < |agents| ==> agents[i] == agents[1..][i - 1];
      (if agents[0].status == s then [agents[0].name] else []) + rest
  }

  /** In a well-formed registry, the agents listed for a status are exactly the agents in that status. */
  lemma NamesOfStatus(m: Registry, s: AgentStatus)
    requires WellFormed(m)
    ensures forall n :: n in Names(AllAgents(m), s) <==> m[AsStr(n)].status == s
  {
    AllListsEachNameOnce();
    var agents := AllAgents(m);
    forall n: AgentName ensures n in Names(agents, s) <==> m[AsStr(n)].status == s {
      var i := match n case Ember => 0 case Flow => 1 case Tempest => 2 case Terra => 3;
      assert All[i] == n && agents[i] == m[AsStr(n)];
      if n in Names(agents, s) {
        var j :| 0 <= j < |agents| && agents[j].status == s && agents[j].name == n;
        assert agents[j] == m[AsStr(All[j])] && m[AsStr(All[j])].name == All[j];
      }
    }
  }

  // ---- Releasing Done agents ----

  function ReleasedEvent(now: string, n: AgentName): AgentEvent {
    NewEvent(now, n, "released", None, None, None)
  }

  /** Releasing the named agents one after the other. */
  function ReleasedAll(m: Registry, names: seq<AgentName>): (r: Registry)
    ensures r.Keys == m.Keys
    ensures forall k :: k in m ==> r[k] == m[k] || exists i :: 0 <= i < |names| && k == AsStr(names[i]) && r[k] == NewAgent(names[i])
  {
    if names == [] then m else ReleasedIn(ReleasedAll(m, names[..|names| - 1]), names[|names| - 1])
  }

  /** The "released" events, one per name, in order. */
  function ReleaseEvents(now: string, names: seq<AgentName>): (es: seq<AgentEvent>)
    ensures |es| == |names|
    ensures forall i :: 0 <= i < |names| ==> es[i] == ReleasedEvent(now, names[i])
  {
    seq(|names|, i requires 0 <= i < |names| => ReleasedEvent(now, names[i]))
  }

  lemma {:induction false} ReleasedAllEffect(m: Registry, names: seq<AgentName>)
    requires WellFormed(m)
    ensures forall n: AgentName :: ReleasedAll(m, names)[AsStr(n)] == if n in names then NewAgent(n) else m[AsStr(n)]
  {
    if names != [] {
      var init := names[..|names| - 1];
      ReleasedAllEffect(m, init);
      assert names == init + [names[|names| - 1]];
      forall n: AgentName ensures ReleasedAll(m, names)[AsStr(n)] == if n in names then NewAgent(n) else m[AsStr(n)] {
        if n != names[|names| - 1] {
          assert AsStr(n) != AsStr(names[|names| - 1]);
        }
      }
    }
  }

  /** Releasing the Done agents of a well-formed registry replaces each of them by a fresh record and
      leaves every other record as it was; afterwards no agent is Done. */
  lemma ReleasingDoneAgents(m: Registry)
    requires WellFormed(m)
    ensures var r := ReleasedAll(m, Names(AllAgents(m), Done));
            && r.Keys == m.Keys
            && (forall n: AgentName :: r[AsStr(n)] == if m[AsStr(n)].status == Done then NewAgent(n) else m[AsStr(n)])
            && WellFormed(r) && NoneDone(r)
            && (PidsMatchStatus(m) ==> PidsMatchStatus(r))
  {
    var names := Names(AllAgents(m), Done);
    NamesOfStatus(m, Done);
    ReleasedAllEffect(m, names);
  }

  // ---- Retrying agents in Error ----

  function RetryMessage(count: nat, maxRetries: nat): string {
    "Retry " + NatToString(count) + "/" + NatToString(maxRetries)
  }

  function RetryEvent(now: string, n: AgentName, count: nat, maxRetries: nat): AgentEvent {
    NewEvent(now, n, "retry", None, None, Some(RetryMessage(count, maxRetries)))
  }

  function MaxRetriesEvent(now: string, n: AgentName): AgentEvent {
    NewEvent(now, n, "max-retries", None, None, Some("Max retries reached"))
  }

  /** A registry and the events logged while producing it. */
  datatype Effect = Effect(agents: Registry, events: seq<AgentEvent>)

  /** One iteration of the retry loop of `handle_tick`: count the retry; within the bound, log it and
      dispatch the agent's item again when the backlog still has it, release the agent when it does
      not, and leave it alone when it holds no item; past the bound, log that and release it. */
  function RetryStep(m: Registry, n: AgentName, items: seq<WorkItem>, repoRoot: string, maxRetries: nat,
                     w: World): Effect
  {
    var count := if AsStr(n) in m then m[AsStr(n)].retryCount + 1 else 0;
    var m1 := RetriedIn(m, n);
    if count <= maxRetries then
      var r := Redispatched(m1, n, items, repoRoot, w);
      Effect(r.agents, [RetryEvent(w.now, n, count, maxRetries)] + r.events)
    else Effect(ReleasedIn(m1, n), [MaxRetriesEvent(w.now, n)])
  }

  /** Within the bound: dispatch the agent's item again when the backlog still has it, release the agent
      when it does not, and leave it alone when it holds no item. */
  function Redispatched(m: Registry, n: AgentName, items: seq<WorkItem>, repoRoot: string, w: World): Effect {
    if AsStr(n) in m && m[AsStr(n)].workItemId.Some? && m[AsStr(n)].workItemTitle.Some? then
      match FindById(items, m[AsStr(n)].workItemId.value)
      case Some(item) =>
        var s := w.steps(n, item);
        Effect(AfterDispatch(m, n, item, repoRoot, s, w.now), DispatchEvents(w.now, n, item, repoRoot, s))
      case None => Effect(ReleasedIn(m, n), [])
    else Effect(m, [])
  }

  /** The retry loop over the named agents, in order. */
  function RetriedAll(m: Registry, names: seq<AgentName>, items: seq<WorkItem>, repoRoot: string,
                      maxRetries: nat, w: World): Effect
  {
    if names == [] then Effect(m, [])
    else
      var e := RetriedAll(m, names[..|names| - 1], items, repoRoot, maxRetries, w);
      var step := RetryStep(e.agents, names[|names| - 1], items, repoRoot, maxRetries, w);
      Effect(step.agents, e.events + step.events)
  }

  /** The retry policy for one agent in Error: its count goes up by one and is logged; within the bound
      the agent is dispatched again to the same item and agent when the backlog still has it (keeping the
      new count), released when the backlog lost it, and left in Error when it holds no item; past the
      bound exactly one "max-retries" event is logged and it is released. No other agent changes. */
  lemma RetryPolicy(m: Registry, n: AgentName, items: seq<WorkItem>, repoRoot: string, maxRetries: nat, w: World)
    requires WellFormed(m) && PidsMatchStatus(m) && m[AsStr(n)].status == Error
    ensures var a := m[AsStr(n)];
            var count := a.retryCount + 1;
            var r := RetryStep(m, n, items, repoRoot, maxRetries, w);
            var b := r.agents[AsStr(n)];
            && r.agents.Keys == m.Keys
            && (forall k :: k in m && k != AsStr(n) ==> r.agents[k] == m[k])
            && WellFormed(r.agents) && PidsMatchStatus(r.agents)
            && (count > maxRetries ==> b == NewAgent(n) && r.events == [MaxRetriesEvent(w.now, n)])
            && (count <= maxRetries ==> r.events[0] == RetryEvent(w.now, n, count, maxRetries))
            && (count <= maxRetries && (a.workItemId.None? || a.workItemTitle.None?) ==>
                  b == a.(retryCount := count) && r.events == [RetryEvent(w.now, n, count, maxRetries)])
            && (count <= maxRetries && a.workItemId.Some? && a.workItemTitle.Some? && a.workItemId.value !in Ids(items) ==>
                  b == NewAgent(n) && r.events == [RetryEvent(w.now, n, count, maxRetries)])
            && (count <= maxRetries && a.workItemId.Some? && a.workItemTitle.Some? && a.workItemId.value in Ids(items) ==>
                  b.workItemId == a.workItemId && b.retryCount == count && (b.status == Working || b.status == Provisioning))
  {
    var a := m[AsStr(n)];
    RetryStepFrame(m, n, items, repoRoot, maxRetries, w);
    if a.retryCount + 1 <= maxRetries && a.workItemId.Some? && a.workItemTitle.Some? && a.workItemId.value in Ids(items) {
      RetryRedispatches(m, n, items, repoRoot, maxRetries, w);
    }
  }

  /** One retry step touches only its agent's record and keeps the registry's invariants. */
  lemma RetryStepFrame(m: Registry, n: AgentName, items: seq<WorkItem>, repoRoot: string, maxRetries: nat, w: World)
    requires WellFormed(m) && PidsMatchStatus(m) && m[AsStr(n)].status == Error
    ensures var r := RetryStep(m, n, items, repoRoot, maxRetries, w);
            && r.agents.Keys == m.Keys
            && (forall k :: k in m && k != AsStr(n) ==> r.agents[k] == m[k])
            && WellFormed(r.agents) && PidsMatchStatus(r.agents)
  {
    var m1 := RetriedIn(m, n);
    UpdateKeepsInvariants(m, n, Retried(m[AsStr(n)]));
    UpdateKeepsInvariants(m1, n, NewAgent(n));
    var a := m1[AsStr(n)];
    if a.workItemId.Some? && a.workItemTitle.Some? {
      match FindById(items, a.workItemId.value)
      case Some(item) =>
        DispatchedAgent(m1, n, item, repoRoot, w.steps(n, item), w.now);
      case None =>
    }
  }

  /** Within the bound and with the item still in the backlog, the agent is dispatched again to it. */
  lemma RetryRedispatches(m: Registry, n: AgentName, items: seq<WorkItem>, repoRoot: string, maxRetries: nat,
                          w: World)
    requires WellFormed(m) && PidsMatchStatus(m) && m[AsStr(n)].status == Error
    requires var a := m[AsStr(n)];
             a.retryCount + 1 <= maxRetries && a.workItemId.Some? && a.workItemTitle.Some? &&
             a.workItemId.value in Ids(items)
    ensures var a := m[AsStr(n)];
            var b := RetryStep(m, n, items, repoRoot, maxRetries, w).agents[AsStr(n)];
            b.workItemId == a.workItemId && b.retryCount == a.retryCount + 1 &&
            (b.status == Working || b.status == Provisioning)
  {
    var m1 := RetriedIn(m, n);
    UpdateKeepsInvariants(m, n, Retried(m[AsStr(n)]));
    var a := m1[AsStr(n)];
    var item := FindById(items, a.workItemId.value).value;
    DispatchedAgent(m1, n, item, repoRoot, w.steps(n, item), w.now);
  }

  // ---- Pairing free agents with unclaimed items ----

  /** `items.iter().find(|item| !claimed.contains(&item.id))` */
  function FirstUnclaimed(items: seq<WorkItem>, claimed: set<string>): (r: Option<WorkItem>)
    ensures r.Some? ==> r.value.id in Ids(items) && r.value.id !in claimed
    ensures r.None? <==> Ids(items) <= claimed
    ensures r.Some? ==> exists i :: 0 <= i < |items| && items[i] == r.value &&
                                    forall j :: 0 <= j < i ==> items[j].id in claimed
  {
    match FirstUnclaimedFrom(items, claimed, 0)
    case Some(i) => Some(items[i])
    case None => None
  }

  /** The position of the first item at or after `k` whose id is not claimed. */
  function FirstUnclaimedFrom(items: seq<WorkItem>, claimed: set<string>, k: nat): (r: Option<nat>)
    requires k <= |items|
    ensures r.Some? ==> k <= r.value < |items| && items[r.value].id !in claimed &&
                        forall j :: k <= j < r.value ==> items[j].id in claimed
    ensures r.None? ==> forall j :: k <= j < |items| ==> items[j].id in claimed
    decreases |items| - k
  {
    if k == |items| then None
    else if items[k].id !in claimed then Some(k)
    else FirstUnclaimedFrom(items, claimed, k + 1)
  }

  /** `move_item_to_in_progress`: an item from a tracker is moved there by the first provider of that
      name; only a failure changes the flash message. */
  function InProgressFlash(flash: Option<string>, item: WorkItem, providerNames: seq<string>, w: World): (f: Option<string>)
    ensures item.sourceId.None? || item.source !in providerNames ==> f == flash
    ensures f != flash ==> item.sourceId.Some? && item.source in providerNames
                           && w.moveToInProgress(item.source, item.sourceId.value).Err?
    ensures item.sourceId.Some? && item.source in providerNames ==>
              var moved := w.moveToInProgress(item.source, item.sourceId.value);
              && (moved.Ok? ==> f == flash)
              && (moved.Err? ==> f.Some? && ("Failed to move " + item.id) <= f.value
                                 && |moved.error| <= |f.value| && f.value[|f.value| - |moved.error|..] == moved.error)
  {
    if item.sourceId.Some? && item.source in providerNames then
      match w.moveToInProgress(item.source, item.sourceId.value)
      case Err(e) => Some("Failed to move " + item.id + " to in-progress: " + e)
      case Ok(_) => flash
    else flash
  }

  /** The part of the application state the auto-dispatch loop works on. */
  datatype Board = Board(agents: Registry, dispatched: set<string>, events: seq<AgentEvent>, flash: Option<string>)

  /** One round of `auto_dispatch`: claim the item, dispatch it to the agent, and, when that worked,
      move the item to in progress. */
  function Round(b: Board, agent: AgentName, item: WorkItem, repoRoot: string, providerNames: seq<string>,
                 w: World): (next: Board)
    ensures next.dispatched == b.dispatched + {item.id}
    ensures |b.events| < |next.events| <= |b.events| + 2 && next.events[..|b.events|] == b.events
    ensures next.events[|b.events|].event == "dispatched"
    ensures forall i :: |b.events| <= i < |next.events| ==> next.events[i].workItemId == Some(item.id)
    ensures forall i :: |b.events| < i < |next.events| ==> next.events[i].event != "dispatched"
  {
    var s := w.steps(agent, item);
    var ok := Outcome(BranchName(agent, item.id, item.title), WorktreePath(repoRoot, agent), s).Ok?;
    var round := DispatchEvents(w.now, agent, item, repoRoot, s);
    RoundEvents(b.events, round, item.id);
    Board(AfterDispatch(b.agents, agent, item, repoRoot, s, w.now),
          b.dispatched + {item.id},
          b.events + round,
          if ok then InProgressFlash(b.flash, item, providerNames, w) else b.flash)
  }

  /** The events of a dispatch, appended to those before it: one "dispatched" event, then at most one
      more of another kind, all for the item. */
  lemma RoundEvents(before: seq<AgentEvent>, round: seq<AgentEvent>, id: string)
    requires 1 <= |round| <= 2 && round[0].event == "dispatched"
    requires forall i :: 1 <= i < |round| ==> round[i].event == "working"
    requires forall i :: 0 <= i < |round| ==> round[i].workItemId == Some(id)
    ensures var events := before + round;
            && |before| < |events| <= |before| + 2 && events[..|before|] == before
            && events[|before|].event == "dispatched"
            && (forall i :: |before| <= i < |events| ==> events[i].workItemId == Some(id))
            && (forall i :: |before| < i < |events| ==> events[i].event != "dispatched")
  {
    var events := before + round;
    assert forall i :: |before| <= i < |events| ==> events[i] == round[i - |before|];
  }

  /** A round that starts with no events, given its outcome, its registry and its flash message. */
  lemma RoundOfEmpty(b: Board, agent: AgentName, item: WorkItem, repoRoot: string, providerNames: seq<string>,
                     w: World, ok: bool, agents: Registry, flash: Option<string>)
    requires b.events == []
    requires ok == Outcome(BranchName(agent, item.id, item.title), WorktreePath(repoRoot, agent), w.steps(agent, item)).Ok?
    requires agents == AfterDispatch(b.agents, agent, item, repoRoot, w.steps(agent, item), w.now)
    requires flash == if ok then InProgressFlash(b.flash, item, providerNames, w) else b.flash
    ensures Round(b, agent, item, repoRoot, providerNames, w) ==
            Board(agents, b.dispatched + {item.id}, DispatchEvents(w.now, agent, item, repoRoot, w.steps(agent, item)), flash)
  {
    var s := w.steps(agent, item);
    assert [] + DispatchEvents(w.now, agent, item, repoRoot, s) == DispatchEvents(w.now, agent, item, repoRoot, s);
  }

  /** `auto_dispatch`: while some agent is Idle and some item is unclaimed, claim the first unclaimed
      item and dispatch it to the first Idle agent. It ends because every round claims one more of the
      backlog's ids. */
  function AutoDispatched(b: Board, items: seq<WorkItem>, repoRoot: string, providerNames: seq<string>,
                          w: World): Board
    decreases |Ids(items) - b.dispatched|
  {
    match NextFree(b.agents)
    case None => b
    case Some(agent) =>
      match FirstUnclaimed(items, b.dispatched)
      case None => b
      case Some(item) =>
        ClaimShrinksBacklog(Ids(items), b.dispatched, item.id);
        AutoDispatched(Round(b, agent, item, repoRoot, providerNames, w), items, repoRoot, providerNames, w)
  }

  lemma ClaimShrinksBacklog(ids: set<string>, claimed: set<string>, id: string)
    requires id in ids && id !in claimed
    ensures |ids - (claimed + {id})| < |ids - claimed|
  {
    assert ids - (claimed + {id}) == (ids - claimed) - {id};
  }

  /** When auto-dispatch stops, no agent is Idle or every item of the backlog is claimed. */
  lemma {:induction false} AutoDispatchStops(b: Board, items: seq<WorkItem>, repoRoot: string,
                                             providerNames: seq<string>, w: World)
    ensures var r := AutoDispatched(b, items, repoRoot, providerNames, w);
            NextFree(r.agents).None? || Ids(items) <= r.dispatched
    decreases |Ids(items) - b.dispatched|
  {
    match NextFree(b.agents)
    case None =>
    case Some(agent) =>
      match FirstUnclaimed(items, b.dispatched)
      case None =>
      case Some(item) =>
        var next := Round(b, agent, item, repoRoot, providerNames, w);
        ClaimShrinksBacklog(Ids(items), b.dispatched, item.id);
        AutoDispatchStops(next, items, repoRoot, providerNames, w);
  }

  /** Auto-dispatch only adds ids of the backlog to the claimed set. */
  lemma {:induction false} AutoDispatchClaims(b: Board, items: seq<WorkItem>, repoRoot: string,
                                              providerNames: seq<string>, w: World)
    ensures var r := AutoDispatched(b, items, repoRoot, providerNames, w);
            b.dispatched <= r.dispatched && r.dispatched - b.dispatched <= Ids(items)
    decreases |Ids(items) - b.dispatched|
  {
    match NextFree(b.agents)
    case None =>
    case Some(agent) =>
      match FirstUnclaimed(items, b.dispatched)
      case None =>
      case Some(item) =>
        var next := Round(b, agent, item, repoRoot, providerNames, w);
        ClaimShrinksBacklog(Ids(items), b.dispatched, item.id);
        AutoDispatchClaims(next, items, repoRoot, providerNames, w);
  }

  /** Auto-dispatch only appends events, and every event it logs is about an item that was not claimed
      before it started and that it claimed. */
  lemma {:induction false} AutoDispatchClaimsFreshItems(b: Board, items: seq<WorkItem>, repoRoot: string,
                                                        providerNames: seq<string>, w: World)
    ensures var r := AutoDispatched(b, items, repoRoot, providerNames, w);
            && |b.events| <= |r.events| && r.events[..|b.events|] == b.events
            && FreshClaims(r.events, |b.events|, b.dispatched, r.dispatched)
    decreases |Ids(items) - b.dispatched|
  {
    match NextFree(b.agents)
    case None =>
    case Some(agent) =>
      match FirstUnclaimed(items, b.dispatched)
      case None =>
      case Some(item) =>
        var next := Round(b, agent, item, repoRoot, providerNames, w);
        ClaimShrinksBacklog(Ids(items), b.dispatched, item.id);
        AutoDispatchClaims(next, items, repoRoot, providerNames, w);
        AutoDispatchClaimsFreshItems(next, items, repoRoot, providerNames, w);
        var r := AutoDispatched(next, items, repoRoot, providerNames, w);
        assert r == AutoDispatched(b, items, repoRoot, providerNames, w);
        RoundClaimsFresh(b, agent, item, repoRoot, providerNames, w);
        FreshClaimsExtend(b.events, next.events, r.events, b.dispatched, next.dispatched, r.dispatched);
  }

  /** Every event from position `from` on is about an id in `after` and not in `before`. */
  ghost predicate FreshClaims(events: seq<AgentEvent>, from: nat, before: set<string>, after: set<string>) {
    forall i :: from <= i < |events| ==>
      events[i].workItemId.Some? && events[i].workItemId.value in after - before
  }

  /** A round's events are about its item, which it claims and which was not claimed before. */
  lemma RoundClaimsFresh(b: Board, agent: AgentName, item: WorkItem, repoRoot: string, providerNames: seq<string>,
                         w: World)
    requires item.id !in b.dispatched
    ensures var next := Round(b, agent, item, repoRoot, providerNames, w);
            FreshClaims(next.events, |b.events|, b.dispatched, next.dispatched)
  {
  }

  /** Two runs of fresh claims, one after the other, are one run of fresh claims. */
  lemma FreshClaimsExtend(first: seq<AgentEvent>, mid: seq<AgentEvent>, last: seq<AgentEvent>,
                          before: set<string>, between: set<string>, after: set<string>)
    requires |first| <= |mid| <= |last| && mid[..|first|] == first && last[..|mid|] == mid
    requires before <= between <= after
    requires FreshClaims(mid, |first|, before, between) && FreshClaims(last, |mid|, between, after)
    ensures last[..|first|] == first && FreshClaims(last, |first|, before, after)
  {
    assert last[..|first|] == last[..|mid|][..|first|];
    forall i | |first| <= i < |mid|
      ensures last[i].workItemId.Some? && last[i].workItemId.value in after - before
    {
      assert last[i] == last[..|mid|][i];
    }
  }

  /** Every item auto-dispatch hands out, it hands out once: no two "dispatched" events it logs are about
      the same item. */
  lemma {:induction false} AutoDispatchNeverRepeats(b: Board, items: seq<WorkItem>, repoRoot: string,
                                                    providerNames: seq<string>, w: World)
    ensures var r := AutoDispatched(b, items, repoRoot, providerNames, w);
            DispatchedOnce(r.events, |b.events|)
    decreases |Ids(items) - b.dispatched|
  {
    match NextFree(b.agents)
    case None =>
    case Some(agent) =>
      match FirstUnclaimed(items, b.dispatched)
      case None =>
      case Some(item) =>
        var next := Round(b, agent, item, repoRoot, providerNames, w);
        ClaimShrinksBacklog(Ids(items), b.dispatched, item.id);
        AutoDispatchClaimsFreshItems(next, items, repoRoot, providerNames, w);
        AutoDispatchNeverRepeats(next, items, repoRoot, providerNames, w);
        var r := AutoDispatched(next, items, repoRoot, providerNames, w);
        assert r == AutoDispatched(b, items, repoRoot, providerNames, w);
        OnceAcrossRound(next.events, r.events, |b.events|, item.id, next.dispatched, r.dispatched);
  }

  /** No two "dispatched" events from position `from` on are about the same item. */
  ghost predicate DispatchedOnce(events: seq<AgentEvent>, from: nat) {
    forall i, j :: from <= i < j < |events| &&
                   events[i].event == "dispatched" && events[j].event == "dispatched" ==>
                   events[i].workItemId != events[j].workItemId
  }

  /** A round logs one "dispatched" event about its item; when the later events are about other items
      and repeat nothing, nothing is repeated from the round on. */
  lemma OnceAcrossRound(round: seq<AgentEvent>, all: seq<AgentEvent>, from: nat, id: string,
                        claimed: set<string>, after: set<string>)
    requires from < |round| <= |all| && all[..|round|] == round
    requires forall i :: from <= i < |round| ==> round[i].workItemId == Some(id)
    requires forall i :: from < i < |round| ==> round[i].event != "dispatched"
    requires id in claimed
    requires FreshClaims(all, |round|, claimed, after) && DispatchedOnce(all, |round|)
    ensures DispatchedOnce(all, from)
  {
    forall i, j | from <= i < j < |all| && all[i].event == "dispatched" && all[j].event == "dispatched"
      ensures all[i].workItemId != all[j].workItemId
    {
      if i < |round| {
        assert all[i] == all[..|round|][i];
        if j < |round| {
          assert false;
        }
      }
    }
  }

  // ---- The registry invariants every reconciliation step keeps ----

  /** Replacing a record by one with the same name that is not Done keeps both invariants. */
  lemma ChangeKeeps(m: Registry, n: AgentName, b: Agent)
    requires WellFormed(m) && NoneDone(m) && b.name == n && b.status != Done
    ensures WellFormed(Updated(m, n, b)) && NoneDone(Updated(m, n, b))
  {
    UpdateKeepsInvariants(m, n, b);
    var r := Updated(m, n, b);
    forall x: AgentName | AsStr(x) in r ensures r[AsStr(x)].status != Done {
      if AsStr(x) == AsStr(n) {
        AsStrInjective(x, n);
      }
    }
  }

  lemma AfterDispatchKeeps(m: Registry, agent: AgentName, item: WorkItem, repoRoot: string, s: Steps, now: string)
    requires WellFormed(m) && NoneDone(m)
    ensures WellFormed(AfterDispatch(m, agent, item, repoRoot, s, now)) && NoneDone(AfterDispatch(m, agent, item, repoRoot, s, now))
  {
    DispatchedOnKeeps(m, agent, item, BranchName(agent, item.id, item.title), WorktreePath(repoRoot, agent), s, now);
  }

  lemma DispatchedOnKeeps(m: Registry, agent: AgentName, item: WorkItem, branch: string, worktree: string, s: Steps,
                          now: string)
    requires WellFormed(m) && NoneDone(m)
    ensures WellFormed(DispatchedOn(m, agent, item, branch, worktree, s, now))
    ensures NoneDone(DispatchedOn(m, agent, item, branch, worktree, s, now))
  {
    var p := Provisioned(m[AsStr(agent)], item.id, item.title, branch, worktree, now);
    ChangeKeeps(m, agent, p);
    var m1 := Updated(m, agent, p);
    assert ProvisionedIn(m, agent, item, branch, worktree, now) == m1;
    match Outcome(branch, worktree, s)
    case Ok(pid) =>
      ChangeKeeps(m1, agent, Started(p, pid));
      assert StartedIn(m1, agent, pid) == Updated(m1, agent, Started(p, pid));
    case Err(_) =>
  }

  lemma RetryStepKeeps(m: Registry, n: AgentName, items: seq<WorkItem>, repoRoot: string, maxRetries: nat, w: World)
    requires WellFormed(m) && NoneDone(m)
    ensures WellFormed(RetryStep(m, n, items, repoRoot, maxRetries, w).agents)
    ensures NoneDone(RetryStep(m, n, items, repoRoot, maxRetries, w).agents)
  {
    var m1 := RetriedIn(m, n);
    ChangeKeeps(m, n, Retried(m[AsStr(n)]));
    assert m1 == Updated(m, n, Retried(m[AsStr(n)]));
    if m[AsStr(n)].retryCount + 1 <= maxRetries {
      RedispatchedKeeps(m1, n, items, repoRoot, w);
    } else {
      ChangeKeeps(m1, n, NewAgent(n));
      assert RetryStep(m, n, items, repoRoot, maxRetries, w).agents == Updated(m1, n, NewAgent(n));
    }
  }

  lemma RedispatchedKeeps(m: Registry, n: AgentName, items: seq<WorkItem>, repoRoot: string, w: World)
    requires WellFormed(m) && NoneDone(m)
    ensures WellFormed(Redispatched(m, n, items, repoRoot, w).agents)
    ensures NoneDone(Redispatched(m, n, items, repoRoot, w).agents)
  {
    var a := m[AsStr(n)];
    if a.workItemId.Some? && a.workItemTitle.Some? {
      match FindById(items, a.workItemId.value)
      case Some(item) => AfterDispatchKeeps(m, n, item, repoRoot, w.steps(n, item), w.now);
      case None => ChangeKeeps(m, n, NewAgent(n));
    }
  }

  lemma {:induction false} RetriedAllKeeps(m: Registry, names: seq<AgentName>, items: seq<WorkItem>, repoRoot: string,
                                           maxRetries: nat, w: World)
    requires WellFormed(m) && NoneDone(m)
    ensures WellFormed(RetriedAll(m, names, items, repoRoot, maxRetries, w).agents)
    ensures NoneDone(RetriedAll(m, names, items, repoRoot, maxRetries, w).agents)
  {
    if names != [] {
      RetriedAllKeeps(m, names[..|names| - 1], items, repoRoot, maxRetries, w);
      var e := RetriedAll(m, names[..|names| - 1], items, repoRoot, maxRetries, w);
      RetryStepKeeps(e.agents, names[|names| - 1], items, repoRoot, maxRetries, w);
    }
  }

  lemma {:induction false} AutoDispatchKeeps(b: Board, items: seq<WorkItem>, repoRoot: string,
                                             providerNames: seq<string>, w: World)
    requires WellFormed(b.agents) && NoneDone(b.agents)
    ensures WellFormed(AutoDispatched(b, items, repoRoot, providerNames, w).agents)
    ensures NoneDone(AutoDispatched(b, items, repoRoot, providerNames, w).agents)
    decreases |Ids(items) - b.dispatched|
  {
    match NextFree(b.agents)
    case None =>
    case Some(agent) =>
      match FirstUnclaimed(items, b.dispatched)
      case None =>
      case Some(item) =>
        AfterDispatchKeeps(b.agents, agent, item, repoRoot, w.steps(agent, item), w.now);
        ClaimShrinksBacklog(Ids(items), b.dispatched, item.id);
        AutoDispatchKeeps(Round(b, agent, item, repoRoot, providerNames, w), items, repoRoot, providerNames, w);
  }

  // ---- One tick ----

  /** `handle_tick`: reload the registry; release every Done agent, logging "released"; and in auto mode
      retry every agent in Error, then auto-dispatch. The events are those of the three phases, in
      order. */
  function Ticked(disk: Disk, m: Registry, dispatched: set<string>, flash: Option<string>, autoMode: bool,
                  items: seq<WorkItem>, repoRoot: string, providerNames: seq<string>, maxRetries: nat,
                  w: World): Board
  {
    Reconciled(Reloaded(disk, m, w.alive), dispatched, flash, autoMode, items, repoRoot, providerNames, maxRetries, w)
  }

  /** The tick after the reload: release every Done agent, then in auto mode retry and auto-dispatch. */
  function Reconciled(m1: Registry, dispatched: set<string>, flash: Option<string>, autoMode: bool,
                      items: seq<WorkItem>, repoRoot: string, providerNames: seq<string>, maxRetries: nat,
                      w: World): Board
  {
    var done := Names(AllAgents(m1), Done);
    var m2 := ReleasedAll(m1, done);
    var released := ReleaseEvents(w.now, done);
    if !autoMode then Board(m2, dispatched, released, flash)
    else
      var h := AutoPhase(m2, dispatched, flash, items, repoRoot, providerNames, maxRetries, w);
      Board(h.agents, h.dispatched, released + h.events, h.flash)
  }

  /** The auto-mode half of a tick: retry every agent in Error, then auto-dispatch; the retry events come
      before the dispatch events. */
  function AutoPhase(m: Registry, dispatched: set<string>, flash: Option<string>, items: seq<WorkItem>,
                     repoRoot: string, providerNames: seq<string>, maxRetries: nat, w: World): Board
  {
    var e := RetriedAll(m, Names(AllAgents(m), Error), items, repoRoot, maxRetries, w);
    var r := AutoDispatched(Board(e.agents, dispatched, [], flash), items, repoRoot, providerNames, w);
    Board(r.agents, r.dispatched, e.events + r.events, r.flash)
  }

  /** After a tick over a well-formed registry no agent is Done, every agent still has its record, the
      claimed set only grew (and only in auto mode), and in auto mode either no agent is Idle or every item
      of the backlog is claimed. */
  lemma TickReconciles(disk: Disk, m: Registry, dispatched: set<string>, flash: Option<string>, autoMode: bool,
                       items: seq<WorkItem>, repoRoot: string, providerNames: seq<string>, maxRetries: nat,
                       w: World)
    requires WellFormed(Reloaded(disk, m, w.alive))
    ensures var t := Ticked(disk, m, dispatched, flash, autoMode, items, repoRoot, providerNames, maxRetries, w);
            && WellFormed(t.agents) && NoneDone(t.agents)
            && dispatched <= t.dispatched
            && (!autoMode ==> t.dispatched == dispatched)
            && (autoMode ==> NextFree(t.agents).None? || Ids(items) <= t.dispatched)
  {
    var m1 := Reloaded(disk, m, w.alive);
    var m2 := ReleasedAll(m1, Names(AllAgents(m1), Done));
    ReleasingDoneAgents(m1);
    if autoMode {
      var e := RetriedAll(m2, Names(AllAgents(m2), Error), items, repoRoot, maxRetries, w);
      RetriedAllKeeps(m2, Names(AllAgents(m2), Error), items, repoRoot, maxRetries, w);
      var b := Board(e.agents, dispatched, [], flash);
      AutoDispatchKeeps(b, items, repoRoot, providerNames, w);
      AutoDispatchStops(b, items, repoRoot, providerNames, w);
      AutoDispatchClaims(b, items, repoRoot, providerNames, w);
    }
  }

  // ---- Which agent holds an item ----

  /** An agent holds an item while it is provisioning, working on it, or done with it but not yet
      released. */
  predicate HoldsItem(a: Agent, id: string) {
    a.workItemId == Some(id) && (a.status == Working || a.status == Provisioning || a.status == Done)
  }

  function FirstHolder(agents: seq<Agent>, id: string): (r: Option<AgentName>)
    ensures r.Some? ==> exists i :: 0 <= i < |agents| && HoldsItem(agents[i], id) && agents[i].name == r.value
    ensures r.None? <==> forall i :: 0 <= i < |agents| ==> !HoldsItem(agents[i], id)
  {
    if agents == [] then None
    else if HoldsItem(agents[0], id) then Some(agents[0].name)
    else
      var r := FirstHolder(agents[1..], id);
      assert forall i :: 1 <= i < |agents| ==> agents[i] == agents[1..][i - 1];
      r
  }

  /** `assigned_agent` */
  function AssignedAgent(m: Registry, id: string): Option<AgentName> {
    FirstHolder(AllAgents(m), id)
  }

  /** In a well-formed registry the agent found holds the item, and none is found only when no agent
      holds it. */
  lemma AssignedAgentHoldsItem(m: Registry, id: string)
    requires WellFormed(m)
    ensures AssignedAgent(m, id).Some? ==> HoldsItem(m[AsStr(AssignedAgent(m, id).value)], id)
    ensures AssignedAgent(m, id).None? <==> forall n: AgentName :: !HoldsItem(m[AsStr(n)], id)
  {
    var agents := AllAgents(m);
    AllListsEachNameOnce();
    if AssignedAgent(m, id).Some? {
      var i :| 0 <= i < |agents| && HoldsItem(agents[i], id) && agents[i].name == AssignedAgent(m, id).value;
      assert agents[i] == m[AsStr(All[i])];
    } else {
      forall n: AgentName ensures !HoldsItem(m[AsStr(n)], id) {
        var i := match n case Ember => 0 case Flow => 1 case Tempest => 2 case Terra => 3;
        assert All[i] == n && agents[i] == m[AsStr(n)];
      }
    }
  }

  /** Right after a dispatch, the item is assigned to an agent, whether or not the dispatch succeeded. */
  lemma DispatchedItemIsAssigned(m: Registry, agent: AgentName, item: WorkItem, repoRoot: string, s: Steps, now: string)
    requires WellFormed(m) && PidsMatchStatus(m) && m[AsStr(agent)].pid.None?
    ensures AssignedAgent(AfterDispatch(m, agent, item, repoRoot, s, now), item.id).Some?
  {
    var r := AfterDispatch(m, agent, item, repoRoot, s, now);
    DispatchedAgent(m, agent, item, repoRoot, s, now);
    AssignedAgentHoldsItem(r, item.id);
    assert HoldsItem(r[AsStr(agent)], item.id);
  }

  // ---- A finished process ----

  /** `move_item_to_done`: an item from a tracker is moved there by the first provider of that name, and
      the flash message reports the outcome. */
  function DoneFlash(flash: Option<string>, item: WorkItem, providerNames: seq<string>, w: World): (f: Option<string>)
    ensures item.sourceId.None? || item.source !in providerNames ==> f == flash
    ensures item.sourceId.Some? && item.source in providerNames ==>
              var moved := w.moveToDone(item.source, item.sourceId.value);
              && f.Some? && (item.id <= f.value || ("Failed to move " + item.id) <= f.value)
              && (moved.Ok? ==> f.value == item.id + " moved to done")
              && (moved.Err? ==> ("Failed to move " + item.id) <= f.value
                                 && |moved.error| <= |f.value| && f.value[|f.value| - |moved.error|..] == moved.error)
  {
    if item.sourceId.Some? && item.source in providerNames then
      match w.moveToDone(item.source, item.sourceId.value)
      case Ok(_) => Some(item.id + " moved to done")
      case Err(e) => Some("Failed to move " + item.id + " to done: " + e)
    else flash
  }

  /** The flash message after `AgentProcessExited`: only a success for an agent whose item is still in
      the backlog reports on the tracker. */
  function ExitFlash(flash: Option<string>, m: Registry, n: AgentName, success: bool, items: seq<WorkItem>,
                     providerNames: seq<string>, w: World): Option<string>
  {
    if success && AsStr(n) in m && m[AsStr(n)].workItemId.Some? then
      match FindById(items, m[AsStr(n)].workItemId.value)
      case Some(item) => DoneFlash(flash, item, providerNames, w)
      case None => flash
    else flash
  }

  const ProcessFailed := "Process failed"

  /** The registry after `AgentProcessExited`: reloaded, then the agent's current record marked. */
  function Exited(disk: Disk, m: Registry, n: AgentName, success: bool, alive: u32 -> bool): Registry {
    var m1 := Reloaded(disk, m, alive);
    if success then FinishedIn(m1, n) else FailedIn(m1, n, ProcessFailed)
  }

  /** An agent whose process succeeded is Done and keeps the item; the next tick, which reloads what was
      saved, releases it to a fresh record. */
  lemma FinishedAgentIsReleasedNextTick(disk: Disk, m: Registry, n: AgentName, alive: u32 -> bool,
                                        items: seq<WorkItem>, repoRoot: string, providerNames: seq<string>,
                                        maxRetries: nat, w: World, dispatched: set<string>, flash: Option<string>)
    requires WellFormed(Reloaded(disk, m, alive))
    ensures var e := Exited(disk, m, n, true, alive);
            && e[AsStr(n)].status == Done
            && e[AsStr(n)].workItemId == Reloaded(disk, m, alive)[AsStr(n)].workItemId
            && Ticked(Stored(Some(e)), e, dispatched, flash, false, items, repoRoot, providerNames, maxRetries, w).agents[AsStr(n)]
               == NewAgent(n)
  {
    var m1 := Reloaded(disk, m, alive);
    var e := FinishedIn(m1, n);
    UpdateKeepsInvariants(m1, n, Finished(m1[AsStr(n)]));
    ReloadAfterSave(e, w.alive);
    var r := Reloaded(Stored(Some(e)), e, w.alive);
    assert r[AsStr(n)] == e[AsStr(n)];
    CleaningIsSound(e, w.alive);
    ReleasingDoneAgents(r);
  }

  /** A failed process leaves its agent in Error with the message the retry logic then sees. */
  lemma FailedAgentIsInError(disk: Disk, m: Registry, n: AgentName, alive: u32 -> bool)
    requires WellFormed(Reloaded(disk, m, alive))
    ensures var e := Exited(disk, m, n, false, alive)[AsStr(n)];
            e.status == Error && e.error == Some(ProcessFailed) && e.pid.None?
            && e.retryCount == Reloaded(disk, m, alive)[AsStr(n)].retryCount
  {
  }

  // ---- The command bar: completing and parsing "@agent message" ----

  /** The first name of `names` that the typed text is a proper prefix of. */
  function CompleteFirst(names: seq<AgentName>, partial: string): (r: Option<AgentName>)
    ensures r.Some? ==> r.value in names && partial < AsStr(r.value)
    ensures r.None? ==> forall n :: n in names ==> !(partial < AsStr(n))
  {
    if names == [] then None
    else if partial < AsStr(names[0]) then Some(names[0])
    else CompleteFirst(names[1..], partial)
  }

  /** Completion takes the first name in list order: a name at position `i` that extends the text is
      the completion, or comes after it. */
  lemma {:induction false} CompletionIsFirst(names: seq<AgentName>, partial: string, i: nat)
    requires i < |names| && partial < AsStr(names[i])
    ensures CompleteFirst(names, partial).Some? && CompleteFirst(names, partial).value in names[..i + 1]
  {
    if !(partial < AsStr(names[0])) {
      assert i > 0 && names[1..][i - 1] == names[i];
      CompletionIsFirst(names[1..], partial, i - 1);
      assert names[1..][..i] == names[1..i + 1];
    }
  }

  /** The agent `autocomplete_agent` completes a buffer to: one whose name properly extends what follows
      the '@'; none when the buffer does not start with '@'. */
  function Autocompleted(buffer: string): (r: Option<AgentName>)
    ensures r.Some? ==> |buffer| > 0 && buffer[0] == '@' && buffer[1..] < AsStr(r.value)
    ensures r.None? <==> |buffer| == 0 || buffer[0] != '@' || forall n: AgentName :: !(buffer[1..] < AsStr(n))
  {
    if |buffer| == 0 || buffer[0] != '@' then None
    else
      AllListsEachNameOnce();
      CompleteFirst(All, buffer[1..])
  }

  /** Tab completes to the first agent of the pool whose name extends what follows the '@': an agent at
      position `i` of `All` whose name extends it is the completion, or comes after it. */
  lemma AutocompletedIsFirst(buffer: string, i: nat)
    requires |buffer| > 0 && buffer[0] == '@' && i < |All| && buffer[1..] < AsStr(All[i])
    ensures Autocompleted(buffer).Some? && Autocompleted(buffer).value in All[..i + 1]
  {
    CompletionIsFirst(All, buffer[1..], i);
  }

  /** The buffer after completing to an agent. */
  function CompletedBuffer(n: AgentName): string {
    "@" + AsStr(n) + " "
  }

  /** Completion only extends what was typed, and the completed buffer is recognised as addressed to that
      agent by the command bar and by the chat panel alike, and parsed as naming it. */
  lemma CompletionAddressesAgent(buffer: string)
    requires Autocompleted(buffer).Some?
    ensures var n := Autocompleted(buffer).value;
            var c := CompletedBuffer(n);
            && buffer < c
            && DetectAgentPrefix(c) == Some(n)
            && ExtractAgentTarget(c) == Some(n)
            && ParseAgentMessage(c) == NoMessage(n)
  {
    var n := Autocompleted(buffer).value;
    assert buffer == "@" + buffer[1..];
    CompletedBufferAddresses(n);
  }

  lemma CompletedBufferAddresses(n: AgentName)
    ensures var c := CompletedBuffer(n);
            DetectAgentPrefix(c) == Some(n) && ExtractAgentTarget(c) == Some(n) && ParseAgentMessage(c) == NoMessage(n)
  {
    CompletedBufferShape(n);
    AddressedBufferNamesAgent(CompletedBuffer(n), n);
  }

  /** The completed buffer is "@name" followed by a single space. */
  lemma CompletedBufferShape(n: AgentName)
    ensures var c := CompletedBuffer(n);
            Addresses(c, n) && 1 + |AsStr(n)| <= |c| && IsBlank(c[1 + |AsStr(n)|..])
  {
    var c := CompletedBuffer(n);
    assert c[1..] == AsStr(n) + " ";
    assert c[1 + |AsStr(n)|..] == " ";
  }

  /** A buffer addressed to an agent with nothing but blanks after the name is detected, extracted and
      parsed as naming that agent with no message. */
  lemma AddressedBufferNamesAgent(c: string, n: AgentName)
    requires Addresses(c, n) && 1 + |AsStr(n)| <= |c| && IsBlank(c[1 + |AsStr(n)|..])
    ensures DetectAgentPrefix(c) == Some(n) && ExtractAgentTarget(c) == Some(n) && ParseAgentMessage(c) == NoMessage(n)
  {
    AddressedIsDetected(c, n);
    DetectedIsExtracted(c);
    ParseFindsDetectedAgent(c);
  }

  /** Candidates are tried in pool order, so the typed text picks the first name it starts. */
  lemma CompletionPicksFirst()
    ensures Autocompleted("@") == Some(Ember)
  {
    assert "@"[1..] == "";
  }

  lemma CompletionOfTe()
    ensures Autocompleted("@te") == Some(Tempest)
  {
    assert "@te"[1..] == "te";
  }

  lemma CompletionOfTer()
    ensures Autocompleted("@ter") == Some(Terra)
  {
    assert "@ter"[1..] == "ter";
    assert AsStr(Tempest)[2] == 'm';
  }

  /** A complete name is not completed again. */
  lemma CompletionOfFullName()
    ensures Autocompleted("@flow") == None
  {
    assert "@flow"[1..] == "flow";
    forall n: AgentName
      ensures !("flow" < AsStr(n))
    {
      if n != Flow {
        assert AsStr(n)[0] != 'f';
      }
    }
  }

  /** Where `process_agent_message` finds an agent: its name right after the '@', then the end of the input
      or a space. */
  predicate NameThenBoundary(afterAt: string, n: AgentName) {
    AsStr(n) <= afterAt && (|afterAt| == |AsStr(n)| || afterAt[|AsStr(n)|] == ' ')
  }

  function MessageTarget(names: seq<AgentName>, afterAt: string): (r: Option<AgentName>)
    ensures r.Some? ==> r.value in names && NameThenBoundary(afterAt, r.value)
    ensures r.None? ==> forall n :: n in names ==> !NameThenBoundary(afterAt, n)
  {
    if names == [] then None
    else if NameThenBoundary(afterAt, names[0]) then Some(names[0])
    else MessageTarget(names[1..], afterAt)
  }

  /** What the parse half of `process_agent_message` makes of a command-bar input that starts with '@'. */
  datatype Parsed = UnknownAgent | NoMessage(agent: AgentName) | ToAgent(agent: AgentName, message: string)

  /** What follows the agent's name: a message when the trimmed rest is not empty. */
  function Classify(n: AgentName, rest: string): (p: Parsed)
    ensures !p.UnknownAgent? && p.agent == n
    ensures p.ToAgent? <==> !IsBlank(rest)
    ensures p.ToAgent? ==> p.message == Trim(rest) && p.message != []
  {
    var message := Trim(rest);
    if message == [] then NoMessage(n) else ToAgent(n, message)
  }

  function ParseAgentMessage(input: string): Parsed
    requires |input| > 0 && input[0] == '@'
  {
    AllListsEachNameOnce();
    match MessageTarget(All, input[1..])
    case None => UnknownAgent
    case Some(n) => Classify(n, input[1..][|AsStr(n)|..])
  }

  /** The parser and the command bar's title logic agree on the agent; the message is the trimmed rest
      after the name, and a blank rest is reported as no message. */
  lemma ParseFindsDetectedAgent(input: string)
    requires |input| > 0 && input[0] == '@'
    ensures ParseAgentMessage(input).UnknownAgent? <==> DetectAgentPrefix(input).None?
    ensures DetectAgentPrefix(input).Some? ==>
              var n := DetectAgentPrefix(input).value;
              ParseAgentMessage(input) == if IsBlank(input[1 + |AsStr(n)|..]) then NoMessage(n)
                                          else ToAgent(n, Trim(input[1 + |AsStr(n)|..]))
  {
    AllListsEachNameOnce();
    TargetsAgree(All, input);
    var t := MessageTarget(All, input[1..]);
    assert t == DetectAgentPrefix(input);
    if t.Some? {
      ParsedAfterName(input, t.value);
    } else {
      assert ParseAgentMessage(input) == UnknownAgent;
    }
  }

  /** Once the agent is detected, the parse classifies what follows its name. */
  lemma DetectedParse(input: string, n: AgentName)
    requires |input| > 0 && input[0] == '@' && DetectAgentPrefix(input) == Some(n)
    ensures ParseAgentMessage(input) == Classify(n, input[1 + |AsStr(n)|..])
  {
    AllListsEachNameOnce();
    TargetsAgree(All, input);
    ParsedAfterName(input, n);
  }

  lemma ParsedAfterName(input: string, n: AgentName)
    requires |input| > 0 && input[0] == '@'
    requires MessageTarget(All, input[1..]) == Some(n)
    ensures ParseAgentMessage(input) == Classify(n, input[1 + |AsStr(n)|..])
  {
    assert input[1..][|AsStr(n)|..] == input[1 + |AsStr(n)|..];
  }

  lemma {:induction false} TargetsAgree(names: seq<AgentName>, input: string)
    requires |input| > 0 && input[0] == '@'
    ensures MessageTarget(names, input[1..]) == FirstAddressed(names, input)
  {
    if names != [] {
      var k := |AsStr(names[0])|;
      if AsStr(names[0]) <= input[1..] && k < |input[1..]| {
        assert input[1..][k] == input[1 + k];
      }
      assert NameThenBoundary(input[1..], names[0]) == Addresses(input, names[0]);
      TargetsAgree(names[1..], input);
    }
  }

  /** Whatever the command bar recognises as addressed to an agent, the chat panel attributes to the same
      agent. */
  lemma DetectedIsExtracted(input: string)
    requires DetectAgentPrefix(input).Some?
    ensures ExtractAgentTarget(input) == DetectAgentPrefix(input)
  {
    TargetIsUnique(input, DetectAgentPrefix(input).value);
  }

  /** The converse fails: the chat panel does not look past the name, the command bar and the parser do. */
  lemma DetectorsDiffer()
    ensures ExtractAgentTarget("@flowx") == Some(Flow)
    ensures DetectAgentPrefix("@flowx") == None
    ensures ParseAgentMessage("@flowx") == UnknownAgent
  {
    var input := "@flowx";
    assert input[1..] == "flowx";
    assert AsStr(Flow) <= input[1..];
    TargetIsUnique(input, Flow);
    forall n: AgentName ensures !Addresses(input, n) {
      if n == Flow {
        assert input[1 + |AsStr(n)|] == 'x';
      } else if AsStr(n) <= input[1..] {
        NamesArePrefixFree(n, Flow);
      }
    }
    ParseFindsDetectedAgent(input);
  }

  const UnknownAgentText := "Unknown agent. Use @ember, @flow, @tempest, or @terra"

  function AskForMessageText(n: AgentName): string {
    "Send a message: @" + AsStr(n) + " <your message>"
  }

  function BusyText(n: AgentName): string {
    DisplayName(n) + " is currently working. Sending feedback that will be applied when done..."
  }

  // ---- The selected row after a reload of the backlog ----

  /** `WorkItemsLoaded` as written: the selection is pulled back onto the last row, except when the new
      backlog is empty, where it is left as it was. */
  function SelectionAfterLoadAsWritten(selected: nat, count: nat): nat {
    if selected >= count && count != 0 then count - 1 else selected
  }

  /** What the clamp is for: the selection is the first row of an empty backlog or a row of the backlog. */
  predicate SelectionValid(selected: nat, count: nat) {
    selected == 0 || selected < count
  }

  /** Selecting row 3 of a backlog, reloading an empty one and then adding a task gives a selection past
      the end of a one-item backlog, which `dispatch_selected` then indexes. */
  lemma StaleSelectionAfterEmptyLoad()
    ensures var s := SelectionAfterLoadAsWritten(2, 0);
            !SelectionValid(s, 0) && !(s < 0 + 1)
  {
  }

  /** `WorkItemsLoaded` with the clamp applied to an empty backlog too. */
  function SelectionAfterLoad(selected: nat, count: nat): (s: nat)
    ensures SelectionValid(s, count)
    ensures SelectionValid(selected, count) ==> s == selected
    ensures count != 0 ==> s == SelectionAfterLoadAsWritten(selected, count)
  {
    if selected >= count then (if count != 0 then count - 1 else 0) else selected
  }

  /** A valid selection stays valid when a task is added, and over a non-empty backlog it is a row. */
  lemma SelectionStaysValid(selected: nat, count: nat)
    requires SelectionValid(selected, count)
    ensures SelectionValid(selected, count + 1)
    ensures count != 0 ==> selected < count
  {
  }

  // ---- Editing the command-bar buffer ----

  /** Inserting a character at a character position: `String::insert` with the cursor counted in
      characters (see `InputBytes.KeyEditedAsWritten` for the byte offset the code passes). */
  function Inserted(buffer: string, cursor: nat, c: char): (r: string)
    requires cursor <= |buffer|
    ensures |r| == |buffer| + 1 && r[cursor] == c
    ensures r[..cursor] == buffer[..cursor] && r[cursor + 1..] == buffer[cursor..]
  {
    buffer[..cursor] + [c] + buffer[cursor..]
  }

  /** Removing the character before character position `cursor`: `String::remove` with the cursor
      counted in characters. */
  function Deleted(buffer: string, cursor: nat): (r: string)
    requires 0 < cursor <= |buffer|
    ensures |r| == |buffer| - 1
    ensures r[..cursor - 1] == buffer[..cursor - 1] && r[cursor - 1..] == buffer[cursor..]
  {
    buffer[..cursor - 1] + buffer[cursor..]
  }

  /** Backspace right after typing a character takes it out again. */
  lemma DeleteUndoesInsert(buffer: string, cursor: nat, c: char)
    requires cursor <= |buffer|
    ensures Deleted(Inserted(buffer, cursor, c), cursor + 1) == buffer
  {
    var r := Inserted(buffer, cursor, c);
    assert r[..cursor] + r[cursor + 1..] == buffer[..cursor] + buffer[cursor..];
    assert buffer[..cursor] + buffer[cursor..] == buffer;
  }

  /** What the release loop has done after one more iteration. */
  lemma ReleaseLoopStep(m: Registry, now: string, done: seq<AgentName>, i: nat, lines: seq<string>,
                        encode: AgentEvent -> string)
    requires i < |done|
    ensures ReleasedAll(m, done[..i + 1]) == ReleasedIn(ReleasedAll(m, done[..i]), done[i])
    ensures (lines + Encoded(ReleaseEvents(now, done[..i]), encode)) + [encode(ReleasedEvent(now, done[i]))] ==
            lines + Encoded(ReleaseEvents(now, done[..i + 1]), encode)
  {
    assert done[..i + 1][..i] == done[..i];
    var before := ReleaseEvents(now, done[..i]);
    var one := [ReleasedEvent(now, done[i])];
    assert ReleaseEvents(now, done[..i + 1]) == before + one;
    assert Encoded(one, encode) == [encode(ReleasedEvent(now, done[i]))];
    LogExtended(lines, before, one, encode);
  }

  /** What the retry loop has done after one more iteration. */
  lemma RetryLoopStep(m: Registry, names: seq<AgentName>, i: nat, items: seq<WorkItem>, repoRoot: string,
                      maxRetries: nat, w: World, lines: seq<string>, encode: AgentEvent -> string)
    requires i < |names|
    ensures var e := RetriedAll(m, names[..i], items, repoRoot, maxRetries, w);
            var step := RetryStep(e.agents, names[i], items, repoRoot, maxRetries, w);
            var next := RetriedAll(m, names[..i + 1], items, repoRoot, maxRetries, w);
            && next.agents == step.agents
            && (lines + Encoded(e.events, encode)) + Encoded(step.events, encode) == lines + Encoded(next.events, encode)
  {
    assert names[..i + 1][..i] == names[..i];
    var e := RetriedAll(m, names[..i], items, repoRoot, maxRetries, w);
    LogExtended(lines, e.events, RetryStep(e.agents, names[i], items, repoRoot, maxRetries, w).events, encode);
  }

  /** A round started from any log gives the same registry, claims and flash, and appends its events. */
  lemma RoundLogged(b: Board, agent: AgentName, item: WorkItem, repoRoot: string, providerNames: seq<string>,
                    w: World, lines: seq<string>, encode: AgentEvent -> string)
    ensures var next := Round(b, agent, item, repoRoot, providerNames, w);
            var alone := Round(b.(events := []), agent, item, repoRoot, providerNames, w);
            var round := DispatchEvents(w.now, agent, item, repoRoot, w.steps(agent, item));
            && next == alone.(events := b.events + round)
            && alone.events == round
            && (lines + Encoded(b.events, encode)) + Encoded(round, encode) == lines + Encoded(next.events, encode)
  {
    var round := DispatchEvents(w.now, agent, item, repoRoot, w.steps(agent, item));
    assert [] + round == round;
    LogExtended(lines, b.events, round, encode);
  }

  const AllBusy := "All agents busy"
  const NewTaskHint := "New task added — press d to dispatch"

  /** The "cleared" event `clear_agent` logs for the agent's record before it was released. */
  function ClearedEvent(now: string, n: AgentName, a: Agent): (e: AgentEvent)
    ensures e.agent == n && e.event == "cleared" && e.workItemId == a.workItemId && e.workItemTitle == a.workItemTitle
  {
    NewEvent(now, n, "cleared", a.workItemId, a.workItemTitle, Some("Agent cleared by user"))
  }

  // ---- Dispatching the selected item by hand ----

  /** `dispatch_selected`: nothing happens with an empty backlog, and only the flash message changes when
      no agent is Idle. Otherwise the selected item is claimed and dispatched to the first Idle agent,
      and the flash message reports the outcome (overwriting what moving the item to in progress said). */
  function SelectedDispatched(b: Board, items: seq<WorkItem>, selected: nat, repoRoot: string, w: World): Board
    requires items == [] || selected < |items|
  {
    if items == [] then b
    else
      match NextFree(b.agents)
      case None => b.(flash := Some(AllBusy))
      case Some(agent) =>
        var item := items[selected];
        HandDispatched(b, agent, item, BranchName(agent, item.id, item.title), WorktreePath(repoRoot, agent),
                       w.steps(agent, item), w.now)
  }

  /** A manual dispatch of the item to the agent, on the given branch and worktree. */
  function HandDispatched(b: Board, agent: AgentName, item: WorkItem, branch: string, worktree: string,
                          s: Steps, now: string): Board
  {
    var out := Outcome(branch, worktree, s);
    Board(DispatchedOn(b.agents, agent, item, branch, worktree, s, now),
          b.dispatched + {item.id},
          b.events + LoggedEvents(now, agent, item, out.Ok?),
          Some(DispatchReport(agent, item, out)))
  }

  /** What a manual dispatch reports. */
  function DispatchReport<T>(agent: AgentName, item: WorkItem, out: Result<T>): string {
    if out.Ok? then item.id + " dispatched to " + DisplayName(agent) else "Dispatch failed: " + out.error
  }

  /** A manual dispatch claims the selected item whether the dispatch works or not, logs "dispatched" for
      it first, and reports the dispatch's success or its error; without a free agent it only reports
      that all agents are busy. */
  lemma ManualDispatchClaims(b: Board, items: seq<WorkItem>, selected: nat, repoRoot: string, w: World)
    requires items == [] || selected < |items|
    ensures var r := SelectedDispatched(b, items, selected, repoRoot, w);
            && (items == [] ==> r == b)
            && (items != [] && NextFree(b.agents).None? ==> r == b.(flash := Some(AllBusy)))
  {
  }

  /** Once an agent is free, the selected item is claimed and the outcome reported. */
  lemma HandDispatchClaims(b: Board, agent: AgentName, item: WorkItem, branch: string, worktree: string,
                           s: Steps, now: string)
    ensures var r := HandDispatched(b, agent, item, branch, worktree, s, now);
            var out := Outcome(branch, worktree, s);
            && r.dispatched == b.dispatched + {item.id}
            && r.events[..|b.events|] == b.events
            && r.events[|b.events|] == DispatchedEvent(now, agent, item)
            && (out.Ok? ==> r.flash == Some(item.id + " dispatched to " + DisplayName(agent)))
            && (out.Err? ==> r.flash == Some("Dispatch failed: " + out.error))
  {
  }

  /** A manual dispatch does not consult the claims: an item that is already claimed is dispatched again,
      and the agent then holds it. */
  lemma HandDispatchIgnoresClaims(b: Board, agent: AgentName, item: WorkItem, branch: string, worktree: string,
                                  s: Steps, now: string)
    requires item.id in b.dispatched
    requires WellFormed(b.agents) && PidsMatchStatus(b.agents) && IsIdle(b.agents, agent)
    ensures var r := HandDispatched(b, agent, item, branch, worktree, s, now);
            && r.dispatched == b.dispatched
            && r.agents[AsStr(agent)].workItemId == Some(item.id)
            && r.agents == HandDispatched(b.(dispatched := {}), agent, item, branch, worktree, s, now).agents
  {
    DispatchedOnAgent(b.agents, agent, item, branch, worktree, s, now);
  }

  // ---- Clearing an agent by hand ----

  /** What `clear_agent` changes: the registry, the claims, the processes signalled, the log and the
      flash message. */
  datatype Clearing = Clearing(agents: Registry, dispatched: set<string>, signals: seq<u32>,
                               events: seq<AgentEvent>, flash: Option<string>)

  /** `clear_agent`: an agent the registry lacks is left alone, and an Idle one only gets a flash
      message. Any other agent has its process sent SIGTERM, its item unclaimed, its record released and
      a "cleared" event logged. */
  function ClearedAgent(m: Registry, dispatched: set<string>, flash: Option<string>, n: AgentName,
                        now: string): Clearing
  {
    if AsStr(n) !in m then Clearing(m, dispatched, [], [], flash)
    else
      var a := m[AsStr(n)];
      if a.status == Idle then Clearing(m, dispatched, [], [], Some(DisplayName(n) + " is already idle"))
      else
        Clearing(ReleasedIn(m, n),
                 if a.workItemId.Some? then dispatched - {a.workItemId.value} else dispatched,
                 if a.pid.Some? then [a.pid.value] else [],
                 [ClearedEvent(now, n, a)],
                 Some(DisplayName(n) + " cleared"))
  }

  /** Clearing an Idle agent changes nothing but the flash message. */
  lemma ClearingIdleOnlyFlashes(m: Registry, dispatched: set<string>, flash: Option<string>, n: AgentName, now: string)
    requires AsStr(n) in m && m[AsStr(n)].status == Idle
    ensures ClearedAgent(m, dispatched, flash, n, now) ==
            Clearing(m, dispatched, [], [], Some(DisplayName(n) + " is already idle"))
  {
  }

  /** Clearing a busy agent leaves it Idle with a fresh record, so it is free again, and its item
      unclaimed, so auto-dispatch can hand it out again; it touches no other agent and no other claim,
      keeps the registry's invariants, logs one "cleared" event for the item, and signals a process
      exactly when the agent was Working. */
  lemma ClearingFreesAgentAndItem(m: Registry, dispatched: set<string>, flash: Option<string>, n: AgentName,
                                  now: string)
    requires WellFormed(m) && PidsMatchStatus(m) && m[AsStr(n)].status != Idle
    ensures var a := m[AsStr(n)];
            var c := ClearedAgent(m, dispatched, flash, n, now);
            && c.agents[AsStr(n)] == NewAgent(n)
            && (forall k :: k in m && k != AsStr(n) ==> c.agents[k] == m[k])
            && WellFormed(c.agents) && PidsMatchStatus(c.agents)
            && NextFree(c.agents).Some?
            && (a.workItemId.Some? ==> a.workItemId.value !in c.dispatched)
            && (forall id :: id in dispatched && Some(id) != a.workItemId ==> id in c.dispatched)
            && c.dispatched <= dispatched
            && |c.events| == 1 && c.events[0].event == "cleared" && c.events[0].workItemId == a.workItemId
            && (|c.signals| == 1 <==> a.status == Working)
            && (a.status == Working ==> c.signals == [a.pid.value])
  {
    var a := m[AsStr(n)];
    assert PidMatchesStatus(a);
    UpdateKeepsInvariants(m, n, NewAgent(n));
    var r := ReleasedIn(m, n);
    assert IsIdle(r, n);
  }

  // ---- Editing the command-bar input ----

  /** The command bar's input state. */
  datatype Input = Input(active: bool, buffer: string, cursor: nat)

  /** `handle_input_key`, for the input it leaves: Escape and Enter clear it and close the bar;
      Backspace, the arrows and typed characters edit around the cursor; Tab completes an agent name. */
  function KeyEdited(s: Input, key: KeyAction): (r: Input)
    requires s.cursor <= |s.buffer|
    ensures r.cursor <= |r.buffer|
    ensures r.active == (s.active && !key.Escape? && !key.Select?)
    ensures key.Escape? || key.Select? ==> r.buffer == [] && r.cursor == 0
    ensures key.Left? ==> r.buffer == s.buffer && r.cursor == if s.cursor > 0 then s.cursor - 1 else 0
    ensures key.Right? ==> r.buffer == s.buffer && r.cursor == if s.cursor < |s.buffer| then s.cursor + 1 else s.cursor
    ensures key.Backspace? && s.cursor == 0 ==> r == s
    ensures key.Backspace? && s.cursor > 0 ==>
              r.cursor == s.cursor - 1 && |r.buffer| == |s.buffer| - 1
              && r.buffer[..r.cursor] == s.buffer[..r.cursor] && r.buffer[r.cursor..] == s.buffer[s.cursor..]
    ensures key.Char? ==>
              r.cursor == s.cursor + 1 && |r.buffer| == |s.buffer| + 1 && r.buffer[s.cursor] == key.c
              && r.buffer[..s.cursor] == s.buffer[..s.cursor] && r.buffer[r.cursor..] == s.buffer[s.cursor..]
    ensures !(key.Escape? || key.Select? || key.Left? || key.Right? || key.Backspace? || key.Char? || key.Tab?) ==> r == s
  {
    match key
    case Escape => Input(false, [], 0)
    case Select => Input(false, [], 0)
    case Backspace => if s.cursor > 0 then Input(s.active, Deleted(s.buffer, s.cursor), s.cursor - 1) else s
    case Left => if s.cursor > 0 then s.(cursor := s.cursor - 1) else s
    case Right => if s.cursor < |s.buffer| then s.(cursor := s.cursor + 1) else s
    case Char(c) => Input(s.active, Inserted(s.buffer, s.cursor, c), s.cursor + 1)
    case Tab =>
      (match Autocompleted(s.buffer)
       case Some(n) => s.(buffer := CompletedBuffer(n), cursor := |CompletedBuffer(n)|)
       case None => s)
    case _ => s
  }

  /** The command Enter submits: the whole buffer, when it is not blank. */
  function Submitted(s: Input, key: KeyAction): (c: Option<string>)
    ensures c.Some? <==> key.Select? && !IsBlank(s.buffer)
    ensures c.Some? ==> c.value == s.buffer
  {
    if key.Select? && !IsBlank(s.buffer) then Some(s.buffer) else None
  }

  /** Typing a character puts it at the cursor and moves past it; Backspace right after takes it out and
      restores the state. */
  lemma TypingThenBackspace(s: Input, c: char)
    requires s.cursor <= |s.buffer|
    ensures var t := KeyEdited(s, Char(c));
            && t.buffer[s.cursor] == c && t.cursor == s.cursor + 1
            && t.buffer[..s.cursor] == s.buffer[..s.cursor] && t.buffer[s.cursor + 1..] == s.buffer[s.cursor..]
            && KeyEdited(t, Backspace) == s
  {
    DeleteUndoesInsert(s.buffer, s.cursor, c);
  }

  /** Backspace deletes the character before the cursor and nothing else; at the start it does nothing. */
  lemma BackspaceDeletesBeforeCursor(s: Input)
    requires s.cursor <= |s.buffer|
    ensures var t := KeyEdited(s, Backspace);
            && (s.cursor == 0 ==> t == s)
            && (s.cursor > 0 ==> |t.buffer| == |s.buffer| - 1 && t.cursor == s.cursor - 1
                                 && t.buffer == s.buffer[..s.cursor - 1] + s.buffer[s.cursor..])
  {
    if s.cursor > 0 {
      var t := KeyEdited(s, Backspace);
      var d := Deleted(s.buffer, s.cursor);
      assert d == d[..s.cursor - 1] + d[s.cursor - 1..];
    }
  }

  /** Tab on "@" and the start of a name completes the buffer to "@name " with the cursor at its end;
      the result is addressed to that agent. */
  lemma TabCompletes(s: Input)
    requires s.cursor <= |s.buffer| && Autocompleted(s.buffer).Some?
    ensures var t := KeyEdited(s, Tab);
            var n := Autocompleted(s.buffer).value;
            && t.buffer == "@" + AsStr(n) + " " && t.cursor == |t.buffer|
            && s.buffer < t.buffer && DetectAgentPrefix(t.buffer) == Some(n)
  {
    var n := Autocompleted(s.buffer).value;
    assert KeyEdited(s, Tab) == s.(buffer := CompletedBuffer(n), cursor := |CompletedBuffer(n)|);
    CompletionAddressesAgent(s.buffer);
  }

  // ---- Sending a message to an agent ----

  /** The request a message spawns in the background: feedback the agent applies in its worktree, or a
      read-only conversation. */
  datatype AgentRequest =
    | ApplyFeedback(to: AgentName, message: string, workDir: string, task: string)
    | MessageAgent(to: AgentName, message: string, workDir: string, context: Option<string>)

  /** What `process_agent_message` does before the request runs: the chat lines it adds, whether it waits
      for a response, the events it logs and the request it spawns. */
  datatype Reply = Reply(chat: seq<ChatMessage>, waiting: bool, events: seq<AgentEvent>, request: Option<AgentRequest>)

  /** `process_agent_message`, up to the spawned request. */
  function AgentMessageReply(m: Registry, input: string, repoRoot: string, waiting: bool, now: string): Reply
    requires |input| > 0 && input[0] == '@'
  {
    match ParseAgentMessage(input)
    case UnknownAgent => Reply([SystemMessage(UnknownAgentText, now)], waiting, [], None)
    case NoMessage(n) => Reply([SystemMessage(AskForMessageText(n), now)], waiting, [], None)
    case ToAgent(n, message) => ReplyTo(m, n, message, input, repoRoot, now)
  }

  /** A message for agent `n`: the user's line is echoed and logged, and the request goes out. A Working
      agent is told it is busy and only conversed with; a Done or Error agent gets the message as feedback
      for its task. */
  function ReplyTo(m: Registry, n: AgentName, message: string, input: string, repoRoot: string, now: string): Reply {
    var a := GetAgent(m, n);
    var working := a.Some? && a.value.status == Working;
    var feedback := a.Some? && a.value.status in {Working, Done, Error};
    var workDir := if a.Some? then a.value.worktreePath.GetOr(repoRoot) else repoRoot;
    var context := if a.Some? then a.value.workItemTitle else None;
    Reply([UserMessage(input, now)] + (if working then [SystemMessage(BusyText(n), now)] else []),
          true,
          [NewEvent(now, n, "user-message", None, context, Some(message))],
          Some(if feedback && !working then ApplyFeedback(n, message, workDir, context.GetOr("No specific task"))
               else MessageAgent(n, message, workDir, context)))
  }

  /** The system line that answers an input naming no agent, or naming one without a message. */
  function NoticeText(p: Parsed): string {
    if p.UnknownAgent? then UnknownAgentText else AskForMessageText(p.agent)
  }

  /** The reply follows the parse: a message goes to `ReplyTo`, anything else is a notice only. */
  lemma ReplyOfParse(m: Registry, input: string, repoRoot: string, waiting: bool, now: string)
    requires |input| > 0 && input[0] == '@'
    ensures var p := ParseAgentMessage(input);
            && (p.ToAgent? ==> AgentMessageReply(m, input, repoRoot, waiting, now) == ReplyTo(m, p.agent, p.message, input, repoRoot, now))
            && (!p.ToAgent? ==> AgentMessageReply(m, input, repoRoot, waiting, now) == Reply([SystemMessage(NoticeText(p), now)], waiting, [], None))
  {
  }

  /** An input that names no agent only gets the list of agents in reply. */
  lemma UnknownAgentGetsHint(m: Registry, input: string, repoRoot: string, waiting: bool, now: string)
    requires |input| > 0 && input[0] == '@' && DetectAgentPrefix(input).None?
    ensures AgentMessageReply(m, input, repoRoot, waiting, now) == Reply([SystemMessage(UnknownAgentText, now)], waiting, [], None)
  {
    ParseFindsDetectedAgent(input);
    ReplyOfParse(m, input, repoRoot, waiting, now);
  }

  /** An input addressed to agent `n` with nothing after the name but blanks only gets a usage hint. */
  lemma BlankMessageGetsHint(m: Registry, input: string, n: AgentName, repoRoot: string, waiting: bool, now: string)
    requires |input| > 0 && input[0] == '@' && DetectAgentPrefix(input) == Some(n)
    requires IsBlank(input[1 + |AsStr(n)|..])
    ensures AgentMessageReply(m, input, repoRoot, waiting, now) == Reply([SystemMessage(AskForMessageText(n), now)], waiting, [], None)
  {
    DetectedParse(input, n);
    ReplyOfParse(m, input, repoRoot, waiting, now);
  }

  /** An input addressed to agent `n` with a message gets the reply to `n` with the trimmed rest as the
      message (see `ReplyToAgent` and `FeedbackOnlyWhenNotWorking` for what that reply is). */
  lemma MessageGoesToAddressedAgent(m: Registry, input: string, n: AgentName, repoRoot: string, waiting: bool,
                                    now: string)
    requires |input| > 0 && input[0] == '@' && DetectAgentPrefix(input) == Some(n)
    requires !IsBlank(input[1 + |AsStr(n)|..])
    ensures AgentMessageReply(m, input, repoRoot, waiting, now) ==
            ReplyTo(m, n, Trim(input[1 + |AsStr(n)|..]), input, repoRoot, now)
  {
    DetectedParse(input, n);
    ReplyOfParse(m, input, repoRoot, waiting, now);
  }

  /** The request and the logged event go to the agent named, with the message. */
  lemma ReplyToAgent(m: Registry, n: AgentName, message: string, input: string, repoRoot: string, now: string)
    ensures var r := ReplyTo(m, n, message, input, repoRoot, now);
            && r.request.Some? && r.request.value.to == n && r.request.value.message == message
            && |r.chat| >= 1 && r.chat[0] == UserMessage(input, now) && r.waiting
            && |r.events| == 1 && r.events[0].event == "user-message"
            && r.events[0].agent == n && r.events[0].message == Some(message)
  {
  }

  /** Feedback is applied only by an agent that is Done or in Error; a Working agent is told it is busy
      and gets a conversation instead. */
  lemma FeedbackOnlyWhenNotWorking(m: Registry, n: AgentName, message: string, input: string, repoRoot: string,
                                   now: string)
    ensures var r := ReplyTo(m, n, message, input, repoRoot, now);
            && (r.request.value.ApplyFeedback? <==> AsStr(n) in m && m[AsStr(n)].status in {Done, Error})
            && (AsStr(n) in m && m[AsStr(n)].status == Working ==>
                  r.chat == [UserMessage(input, now), SystemMessage(BusyText(n), now)])
            && (AsStr(n) !in m || m[AsStr(n)].status != Working ==> r.chat == [UserMessage(input, now)])
  {
  }

  /** The application state. The store, the log and the configuration are fixed for the lifetime of the
      application; messages sent to the background tasks are not modelled. */
  class App {
    var items: seq<WorkItem>
    var selectedItem: nat
    var autoMode: bool
    var flash: Option<string>
    /** `dispatched_item_ids`: the items claimed so far. */
    var dispatched: set<string>
    /** The process ids sent SIGTERM, in order. */
    var signalled: seq<u32>
    var chat: seq<ChatMessage>
    var waitingForResponse: bool
    var inputActive: bool
    var inputBuffer: string
    var inputCursor: nat
    const store: Store
    const log: Log
    const repoRoot: string
    /** The names of the configured providers, in order. */
    const providerNames: seq<string>
    /** `MAX_RETRIES` */
    const maxRetries: nat

    /** The cursor is inside the buffer and the selection is a row of the backlog, or the first row. */
    ghost predicate Valid()
      reads this
    {
      inputCursor <= |inputBuffer| && SelectionValid(selectedItem, |items|)
    }

    /** `App::new`, for the state this model keeps. */
    constructor (store: Store, log: Log, repoRoot: string, providerNames: seq<string>, maxRetries: nat)
      ensures this.store == store && this.log == log && this.repoRoot == repoRoot
      ensures this.providerNames == providerNames && this.maxRetries == maxRetries
      ensures items == [] && selectedItem == 0 && !autoMode && flash.None? && dispatched == {}
      ensures signalled == [] && chat == [] && !waitingForResponse
      ensures !inputActive && inputBuffer == [] && inputCursor == 0
      ensures Valid()
    {
      items, selectedItem, autoMode, flash, dispatched := [], 0, false, None, {};
      signalled, chat, waitingForResponse := [], [], false;
      inputActive, inputBuffer, inputCursor := false, [], 0;
      this.store, this.log, this.repoRoot := store, log, repoRoot;
      this.providerNames, this.maxRetries := providerNames, maxRetries;
    }

    /** One iteration of the release loop of `handle_tick`: log "released", then release the agent. */
    method ReleaseOne(n: AgentName, now: string)
      modifies store, log
      ensures store.agents == ReleasedIn(old(store.agents), n)
      ensures log.lines == old(log.lines) + [log.encode(ReleasedEvent(now, n))]
      ensures store.Synced() || unchanged(store)
    {
      log.Append(ReleasedEvent(now, n));
      store.Release(n);
    }

    /** The release loop of `handle_tick`, over the agents named. */
    method ReleaseEach(names: seq<AgentName>, now: string)
      modifies store, log
      ensures store.agents == ReleasedAll(old(store.agents), names)
      ensures log.lines == old(log.lines) + Encoded(ReleaseEvents(now, names), log.encode)
      ensures store.Synced() || unchanged(store)
    {
      ghost var m0, lines0 := store.agents, log.lines;
      for i := 0 to |names|
        invariant store.agents == ReleasedAll(m0, names[..i])
        invariant log.lines == lines0 + Encoded(ReleaseEvents(now, names[..i]), log.encode)
        invariant store.Synced() || unchanged(store)
      {
        ReleaseNext(m0, lines0, names, i, now);
      }
      assert names[..|names|] == names;
    }

    /** Iteration `i` of `ReleaseEach`: the release of `names[i]` extends the loop's invariants by one. */
    method ReleaseNext(ghost m0: Registry, ghost lines0: seq<string>, names: seq<AgentName>, i: nat, now: string)
      requires i < |names|
      requires store.agents == ReleasedAll(m0, names[..i])
      requires log.lines == lines0 + Encoded(ReleaseEvents(now, names[..i]), log.encode)
      modifies store, log
      ensures store.agents == ReleasedAll(m0, names[..i + 1])
      ensures log.lines == lines0 + Encoded(ReleaseEvents(now, names[..i + 1]), log.encode)
      ensures store.Synced() || unchanged(store)
    {
      ReleaseOne(names[i], now);
      ReleaseLoopStep(m0, now, names, i, lines0, log.encode);
    }

    /** One iteration of the retry loop of `handle_tick` (see `RetryStep`). */
    method RetryOne(n: AgentName, w: World)
      modifies store, log
      ensures var e := RetryStep(old(store.agents), n, items, repoRoot, maxRetries, w);
              store.agents == e.agents && log.lines == old(log.lines) + Encoded(e.events, log.encode)
      ensures store.Synced() || unchanged(store)
    {
      ghost var m0, lines0 := store.agents, log.lines;
      ghost var e := RetryStep(m0, n, items, repoRoot, maxRetries, w);
      var count := store.IncrementRetry(n);
      assert store.agents == RetriedIn(m0, n);
      if count <= maxRetries {
        var retry := RetryEvent(w.now, n, count, maxRetries);
        log.Append(retry);
        ghost var r := Redispatched(store.agents, n, items, repoRoot, w);
        assert e == Effect(r.agents, [retry] + r.events);
        Redispatch(n, w);
        EncodedOne(lines0, retry, r.events, log.encode);
      } else {
        var maxed := MaxRetriesEvent(w.now, n);
        assert e == Effect(ReleasedIn(store.agents, n), [maxed]);
        log.Append(maxed);
        EncodedOne(lines0, maxed, [], log.encode);
        assert [maxed] + [] == [maxed];
        store.Release(n);
      }
    }

    /** The redispatch of an agent in Error within the retry bound (see `Redispatched`). */
    method Redispatch(n: AgentName, w: World)
      modifies store, log
      ensures var r := Redispatched(old(store.agents), n, items, repoRoot, w);
              store.agents == r.agents && log.lines == old(log.lines) + Encoded(r.events, log.encode)
      ensures store.Synced() || unchanged(store)
    {
      var a := GetAgent(store.agents, n);
      if a.Some? && a.value.workItemId.Some? && a.value.workItemTitle.Some? {
        var found := FindById(items, a.value.workItemId.value);
        if found.Some? {
          var item := found.value;
          var result := DispatchItem(n, item, repoRoot, store, log, w.steps(n, item), w.now);
        } else {
          store.Release(n);
        }
      }
    }

    /** The retry loop of `handle_tick`, over the agents named. */
    method RetryEach(names: seq<AgentName>, w: World)
      modifies store, log
      ensures var e := RetriedAll(old(store.agents), names, items, repoRoot, maxRetries, w);
              store.agents == e.agents && log.lines == old(log.lines) + Encoded(e.events, log.encode)
      ensures store.Synced() || unchanged(store)
    {
      ghost var m0, lines0 := store.agents, log.lines;
      for i := 0 to |names|
        invariant var e := RetriedAll(m0, names[..i], items, repoRoot, maxRetries, w);
                  store.agents == e.agents && log.lines == lines0 + Encoded(e.events, log.encode)
        invariant store.Synced() || unchanged(store)
      {
        RetryOne(names[i], w);
        RetryLoopStep(m0, names, i, items, repoRoot, maxRetries, w, lines0, log.encode);
      }
      assert names[..|names|] == names;
    }

    /** `auto_dispatch` */
    method AutoDispatch(w: World)
      modifies store, log, this`dispatched, this`flash
      ensures var r := AutoDispatched(Board(old(store.agents), old(dispatched), [], old(flash)), items, repoRoot, providerNames, w);
              && store.agents == r.agents && dispatched == r.dispatched && flash == r.flash
              && log.lines == old(log.lines) + Encoded(r.events, log.encode)
      ensures store.Synced() || unchanged(store)
    {
      ghost var target := AutoDispatched(Board(store.agents, dispatched, [], flash), items, repoRoot, providerNames, w);
      ghost var events: seq<AgentEvent> := [];
      ghost var lines0 := log.lines;
      while true
        invariant AutoDispatched(Board(store.agents, dispatched, events, flash), items, repoRoot, providerNames, w) == target
        invariant log.lines == lines0 + Encoded(events, log.encode)
        invariant store.Synced() || unchanged(store)
        decreases |Ids(items) - dispatched|
      {
        var free := NextFree(store.agents);
        if free.None? {
          break;
        }
        var next := FirstUnclaimed(items, dispatched);
        if next.None? {
          break;
        }
        ClaimShrinksBacklog(Ids(items), dispatched, next.value.id);
        ghost var b := Board(store.agents, dispatched, events, flash);
        ghost var s := w.steps(free.value, next.value);
        DispatchRound(free.value, next.value, w);
        RoundLogged(b, free.value, next.value, repoRoot, providerNames, w, lines0, log.encode);
        events := events + DispatchEvents(w.now, free.value, next.value, repoRoot, s);
      }
    }

    /** One round of `auto_dispatch` (see `Round`). */
    method DispatchRound(agent: AgentName, item: WorkItem, w: World)
      modifies store, log, this`dispatched, this`flash
      ensures var next := Round(Board(old(store.agents), old(dispatched), [], old(flash)), agent, item, repoRoot, providerNames, w);
              && store.agents == next.agents && dispatched == next.dispatched && flash == next.flash
              && log.lines == old(log.lines) + Encoded(next.events, log.encode)
      ensures AsStr(agent) in old(store.agents) ==> store.Synced()
      ensures AsStr(agent) !in old(store.agents) ==> unchanged(store)
    {
      ghost var b := Board(store.agents, dispatched, [], flash);
      var ok := ClaimAndDispatch(agent, item, w);
      if ok {
        MoveToInProgress(item, w);
      }
      RoundOfEmpty(b, agent, item, repoRoot, providerNames, w, ok, store.agents, flash);
    }

    /** The claim and the dispatch of a round, without the move to in progress. */
    method ClaimAndDispatch(agent: AgentName, item: WorkItem, w: World) returns (ok: bool)
      modifies store, log, this`dispatched
      ensures var s := w.steps(agent, item);
              && ok == Outcome(BranchName(agent, item.id, item.title), WorktreePath(repoRoot, agent), s).Ok?
              && store.agents == AfterDispatch(old(store.agents), agent, item, repoRoot, s, w.now)
              && log.lines == old(log.lines) + Encoded(DispatchEvents(w.now, agent, item, repoRoot, s), log.encode)
      ensures dispatched == old(dispatched) + {item.id}
      ensures AsStr(agent) in old(store.agents) ==> store.Synced()
      ensures AsStr(agent) !in old(store.agents) ==> unchanged(store)
    {
      dispatched := dispatched + {item.id};
      var r := DispatchItem(agent, item, repoRoot, store, log, w.steps(agent, item), w.now);
      ok := r.Ok?;
    }

    /** `handle_tick` */
    method HandleTick(w: World)
      modifies store, log, this`dispatched, this`flash
      ensures var t := Ticked(old(store.disk), old(store.agents), old(dispatched), old(flash), autoMode, items,
                              repoRoot, providerNames, maxRetries, w);
              && store.agents == t.agents && dispatched == t.dispatched && flash == t.flash
              && log.lines == old(log.lines) + Encoded(t.events, log.encode)
      ensures !old(store.disk).Unreadable? ==> store.Synced()
      ensures store.Synced() || unchanged(store)
    {
      var reloaded := store.Reload(w.alive);
      Reconcile(w);
    }

    /** The tick on the registry as reloaded. */
    method Reconcile(w: World)
      modifies store, log, this`dispatched, this`flash
      ensures var t := Reconciled(old(store.agents), old(dispatched), old(flash), autoMode, items, repoRoot,
                                  providerNames, maxRetries, w);
              && store.agents == t.agents && dispatched == t.dispatched && flash == t.flash
              && log.lines == old(log.lines) + Encoded(t.events, log.encode)
      ensures store.Synced() || unchanged(store)
    {
      var done := Names(AllAgents(store.agents), Done);
      ReleaseEach(done, w.now);
      if autoMode {
        ghost var m2 := store.agents;
        RetryThenDispatch(w);
        LogExtended(old(log.lines), ReleaseEvents(w.now, done),
                    AutoPhase(m2, old(dispatched), old(flash), items, repoRoot, providerNames, maxRetries, w).events, log.encode);
      }
    }

    /** The auto-mode half of a tick. */
    method RetryThenDispatch(w: World)
      modifies store, log, this`dispatched, this`flash
      ensures var h := AutoPhase(old(store.agents), old(dispatched), old(flash), items, repoRoot, providerNames, maxRetries, w);
              && store.agents == h.agents && dispatched == h.dispatched && flash == h.flash
              && log.lines == old(log.lines) + Encoded(h.events, log.encode)
      ensures store.Synced() || unchanged(store)
    {
      var errored := Names(AllAgents(store.agents), Error);
      ghost var e := RetriedAll(store.agents, errored, items, repoRoot, maxRetries, w);
      RetryEach(errored, w);
      AutoDispatch(w);
      ghost var r := AutoDispatched(Board(e.agents, old(dispatched), [], old(flash)), items, repoRoot, providerNames, w);
      LogExtended(old(log.lines), e.events, r.events, log.encode);
    }

    /** `move_item_to_in_progress`: the first provider named like the item's source moves it in its
        tracker, and only a failure is reported. */
    method MoveToInProgress(item: WorkItem, w: World)
      modifies this`flash
      ensures flash == InProgressFlash(old(flash), item, providerNames, w)
    {
      if item.sourceId.Some? {
        var i := 0;
        while i < |providerNames|
          invariant 0 <= i <= |providerNames|
          invariant item.source !in providerNames[..i]
          invariant flash == old(flash)
        {
          if providerNames[i] == item.source {
            var moved := w.moveToInProgress(item.source, item.sourceId.value);
            if moved.Err? {
              flash := Some("Failed to move " + item.id + " to in-progress: " + moved.error);
            }
            return;
          }
          assert providerNames[..i + 1] == providerNames[..i] + [providerNames[i]];
          i := i + 1;
        }
        assert providerNames[..i] == providerNames;
      }
    }

    /** `move_item_to_done`: the first provider named like the item's source moves it in its tracker,
        and the outcome is reported. */
    method MoveToDone(item: WorkItem, w: World)
      modifies this`flash
      ensures flash == DoneFlash(old(flash), item, providerNames, w)
    {
      if item.sourceId.Some? {
        var i := 0;
        while i < |providerNames|
          invariant 0 <= i <= |providerNames|
          invariant item.source !in providerNames[..i]
          invariant flash == old(flash)
        {
          if providerNames[i] == item.source {
            var moved := w.moveToDone(item.source, item.sourceId.value);
            if moved.Ok? {
              flash := Some(item.id + " moved to done");
            } else {
              flash := Some("Failed to move " + item.id + " to done: " + moved.error);
            }
            return;
          }
          assert providerNames[..i + 1] == providerNames[..i] + [providerNames[i]];
          i := i + 1;
        }
        assert providerNames[..i] == providerNames;
      }
    }

    /** `dispatch_selected` (see `SelectedDispatched`). */
    method DispatchSelected(w: World)
      requires Valid()
      modifies store, log, this`dispatched, this`flash
      ensures var r := SelectedDispatched(Board(old(store.agents), old(dispatched), [], old(flash)), items, selectedItem,
                                          repoRoot, w);
              && store.agents == r.agents && dispatched == r.dispatched && flash == r.flash
              && log.lines == old(log.lines) + Encoded(r.events, log.encode)
      ensures store.Synced() || unchanged(store)
    {
      if items == [] {
        assert log.lines == log.lines + Encoded([], log.encode);
        return;
      }
      var item := items[selectedItem];
      var free := NextFree(store.agents);
      if free.None? {
        flash := Some(AllBusy);
        assert log.lines == log.lines + Encoded([], log.encode);
        return;
      }
      var agent := free.value;
      HandDispatch(agent, item, BranchName(agent, item.id, item.title), WorktreePath(repoRoot, agent), w);
    }

    /** The free-agent half of `dispatch_selected`: the item is claimed, dispatched on the branch and worktree
        `dispatch` derives for it, and the outcome reported (see `HandDispatched`). */
    method HandDispatch(agent: AgentName, item: WorkItem, branch: string, worktree: string, w: World)
      modifies store, log, this`dispatched, this`flash
      ensures var r := HandDispatched(Board(old(store.agents), old(dispatched), [], old(flash)), agent, item, branch,
                                      worktree, w.steps(agent, item), w.now);
              && store.agents == r.agents && dispatched == r.dispatched && flash == r.flash
              && log.lines == old(log.lines) + Encoded(r.events, log.encode)
      ensures store.Synced() || unchanged(store)
    {
      ghost var out := Outcome(branch, worktree, w.steps(agent, item));
      ghost var round := LoggedEvents(w.now, agent, item, out.Ok?);
      dispatched := dispatched + {item.id};
      var r := DispatchOn(agent, item, branch, worktree, store, log, w.steps(agent, item), w.now);
      Report(agent, item, r, w);
      assert DispatchReport(agent, item, r) == DispatchReport(agent, item, out);
      assert [] + round == round;
    }

    /** The report of a manual dispatch; a successful one also moves the item to in-progress first, and
        the success report replaces whatever that move reported. */
    method Report(agent: AgentName, item: WorkItem, r: Result<unit>, w: World)
      modifies this`flash
      ensures flash == Some(DispatchReport(agent, item, r))
    {
      if r.Ok? {
        MoveToInProgress(item, w);
        flash := Some(item.id + " dispatched to " + DisplayName(agent));
      } else {
        flash := Some("Dispatch failed: " + r.error);
      }
    }

    /** `clear_agent` (see `ClearedAgent`); SIGTERM is recorded in `signalled`. */
    method ClearAgent(n: AgentName, now: string)
      modifies store, log, this`dispatched, this`flash, this`signalled
      ensures var c := ClearedAgent(old(store.agents), old(dispatched), old(flash), n, now);
              && store.agents == c.agents && dispatched == c.dispatched && flash == c.flash
              && signalled == old(signalled) + c.signals
              && log.lines == old(log.lines) + Encoded(c.events, log.encode)
      ensures store.Synced() || unchanged(store)
    {
      var found := GetAgent(store.agents, n);
      if found.None? {
        assert log.lines == log.lines + Encoded([], log.encode);
        assert signalled == signalled + [];
        return;
      }
      var a := found.value;
      if a.status == Idle {
        flash := Some(DisplayName(n) + " is already idle");
        assert log.lines == log.lines + Encoded([], log.encode);
        assert signalled == signalled + [];
        return;
      }
      Clear(n, a, now);
    }

    /** `clear_agent` for an agent that is not Idle: the process is signalled, its item unclaimed, the
        agent released, "cleared" logged and reported. */
    method Clear(n: AgentName, a: Agent, now: string)
      modifies store, log, this`dispatched, this`flash, this`signalled
      ensures store.agents == ReleasedIn(old(store.agents), n)
      ensures dispatched == if a.workItemId.Some? then old(dispatched) - {a.workItemId.value} else old(dispatched)
      ensures signalled == old(signalled) + if a.pid.Some? then [a.pid.value] else []
      ensures log.lines == old(log.lines) + Encoded([ClearedEvent(now, n, a)], log.encode)
      ensures flash == Some(DisplayName(n) + " cleared")
      ensures store.Synced() || unchanged(store)
    {
      var pids := if a.pid.Some? then [a.pid.value] else [];
      var claim := if a.workItemId.Some? then {a.workItemId.value} else {};
      signalled, dispatched := signalled + pids, dispatched - claim;
      store.Release(n);
      var e := ClearedEvent(now, n, a);
      log.Append(e);
      assert Encoded([e], log.encode) == [log.encode(e)];
      flash := Some(DisplayName(n) + " cleared");
    }

    /** The `PollAgents` arm of `update`: the registry is reloaded and a failed read is ignored. */
    method PollAgents(alive: u32 -> bool)
      modifies store
      ensures store.agents == Reloaded(old(store.disk), old(store.agents), alive)
      ensures !old(store.disk).Unreadable? ==> store.Synced()
      ensures store.Synced() || unchanged(store)
    {
      var _ := store.Reload(alive);
    }

    /** The `AgentProcessExited` arm of `update` (see `Exited` and `ExitFlash`). */
    method ProcessExited(n: AgentName, success: bool, w: World)
      modifies store, this`flash
      ensures store.agents == Exited(old(store.disk), old(store.agents), n, success, w.alive)
      ensures flash == ExitFlash(old(flash), Reloaded(old(store.disk), old(store.agents), w.alive), n, success, items,
                                 providerNames, w)
      ensures store.Synced() || unchanged(store)
    {
      var _ := store.Reload(w.alive);
      if success {
        var a := GetAgent(store.agents, n);
        if a.Some? && a.value.workItemId.Some? {
          var found := FindById(items, a.value.workItemId.value);
          if found.Some? {
            MoveToDone(found.value, w);
          }
        }
        store.MarkDone(n);
      } else {
        store.MarkError(n, ProcessFailed);
      }
    }

    /** The `WorkItemsLoaded` arm of `update`, with the selection clamped for an empty backlog too. */
    method LoadItems(newItems: seq<WorkItem>)
      requires Valid()
      modifies this`items, this`selectedItem
      ensures items == newItems && selectedItem == SelectionAfterLoad(old(selectedItem), |newItems|)
      ensures Valid()
    {
      items := newItems;
      selectedItem := SelectionAfterLoad(selectedItem, |items|);
    }

    /** The `TaskCreated` arm of `update`. */
    method TaskCreated(item: WorkItem, now: string)
      requires Valid()
      modifies this`chat, this`items, this`flash
      ensures chat == old(chat) + [SystemMessage("Task created: " + item.title, now)]
      ensures items == old(items) + [item]
      ensures flash == if autoMode then old(flash) else Some(NewTaskHint)
      ensures Valid()
    {
      chat := chat + [SystemMessage("Task created: " + item.title, now)];
      SelectionStaysValid(selectedItem, |items|);
      items := items + [item];
      if !autoMode {
        flash := Some(NewTaskHint);
      }
    }

    /** `handle_input_key` (see `KeyEdited`); the command Enter submits is returned. */
    method HandleInputKey(key: KeyAction) returns (command: Option<string>)
      requires Valid()
      modifies this`inputActive, this`inputBuffer, this`inputCursor
      ensures var s := KeyEdited(Input(old(inputActive), old(inputBuffer), old(inputCursor)), key);
              inputActive == s.active && inputBuffer == s.buffer && inputCursor == s.cursor
      ensures command == Submitted(Input(old(inputActive), old(inputBuffer), old(inputCursor)), key)
      ensures Valid()
    {
      command := None;
      match key
      case Escape =>
        inputActive, inputBuffer, inputCursor := false, [], 0;
      case Select =>
        var input := inputBuffer;
        inputBuffer, inputCursor, inputActive := [], 0, false;
        if !IsBlank(input) {
          command := Some(input);
        }
      case Backspace =>
        EditAtCursor(key);
      case Left =>
        EditAtCursor(key);
      case Right =>
        EditAtCursor(key);
      case Char(_) =>
        EditAtCursor(key);
      case Tab =>
        Autocomplete();
      case _ =>
    }

    /** The keys that move the cursor or edit the text at it. */
    method EditAtCursor(key: KeyAction)
      requires key.Backspace? || key.Left? || key.Right? || key.Char?
      requires inputCursor <= |inputBuffer|
      modifies this`inputBuffer, this`inputCursor
      ensures var s := KeyEdited(Input(inputActive, old(inputBuffer), old(inputCursor)), key);
              inputBuffer == s.buffer && inputCursor == s.cursor
    {
      match key
      case Backspace =>
        if inputCursor > 0 {
          inputBuffer, inputCursor := Deleted(inputBuffer, inputCursor), inputCursor - 1;
        }
      case Left =>
        if inputCursor > 0 {
          inputCursor := inputCursor - 1;
        }
      case Right =>
        if inputCursor < |inputBuffer| {
          inputCursor := inputCursor + 1;
        }
      case Char(c) =>
        inputBuffer, inputCursor := Inserted(inputBuffer, inputCursor, c), inputCursor + 1;
    }

    /** `autocomplete_agent`: the first agent, in pool order, whose name properly extends what follows the
        '@' completes the buffer. */
    method Autocomplete()
      modifies this`inputBuffer, this`inputCursor
      ensures Autocompleted(old(inputBuffer)).Some? ==>
                inputBuffer == CompletedBuffer(Autocompleted(old(inputBuffer)).value) && inputCursor == |inputBuffer|
      ensures Autocompleted(old(inputBuffer)).None? ==> inputBuffer == old(inputBuffer) && inputCursor == old(inputCursor)
    {
      if |inputBuffer| == 0 || inputBuffer[0] != '@' {
        return;
      }
      var partial := inputBuffer[1..];
      for i := 0 to |All|
        invariant CompleteFirst(All[i..], partial) == CompleteFirst(All, partial)
        invariant inputBuffer == old(inputBuffer) && inputCursor == old(inputCursor)
      {
        var name := All[i];
        if partial < AsStr(name) {
          inputBuffer := CompletedBuffer(name);
          inputCursor := |inputBuffer|;
          return;
        }
        assert All[i..][1..] == All[i + 1..];
      }
    }

    /** `process_agent_message` up to the spawned request (see `AgentMessageReply`), which is returned. */
    method ProcessAgentMessage(input: string, now: string) returns (request: Option<AgentRequest>)
      requires |input| > 0 && input[0] == '@'
      modifies this`chat, this`waitingForResponse, log
      ensures var r := AgentMessageReply(old(store.agents), input, repoRoot, old(waitingForResponse), now);
              && chat == old(chat) + r.chat && waitingForResponse == r.waiting && request == r.request
              && log.lines == old(log.lines) + Encoded(r.events, log.encode)
    {
      var parsed := ParseAgentMessage(input);
      ReplyOfParse(store.agents, input, repoRoot, waitingForResponse, now);
      if parsed.ToAgent? {
        request := SendToAgent(parsed.agent, parsed.message, input, now);
      } else {
        Notice(NoticeText(parsed), now);
        EncodedNothing(log.lines, log.encode);
        request := None;
      }
    }

    /** A system line in the chat, and nothing else. */
    method Notice(text: string, now: string)
      modifies this`chat
      ensures chat == old(chat) + [SystemMessage(text, now)]
    {
      chat := chat + [SystemMessage(text, now)];
    }

    /** `process_agent_message` once the message for agent `n` is parsed (see `ReplyTo`). */
    method SendToAgent(n: AgentName, message: string, input: string, now: string) returns (request: Option<AgentRequest>)
      modifies this`chat, this`waitingForResponse, log
      ensures var r := ReplyTo(old(store.agents), n, message, input, repoRoot, now);
              && chat == old(chat) + r.chat && waitingForResponse == r.waiting && request == r.request
              && log.lines == old(log.lines) + Encoded(r.events, log.encode)
    {
      var a := GetAgent(store.agents, n);
      var working := a.Some? && a.value.status == Working;
      var feedback := a.Some? && a.value.status in {Working, Done, Error};
      var workDir := if a.Some? then a.value.worktreePath.GetOr(repoRoot) else repoRoot;
      var context := if a.Some? then a.value.workItemTitle else None;
      if feedback && !working {
        request := Some(ApplyFeedback(n, message, workDir, context.GetOr("No specific task")));
      } else {
        request := Some(MessageAgent(n, message, workDir, context));
      }
      var busy := if working then [SystemMessage(BusyText(n), now)] else [];
      chat := chat + ([UserMessage(input, now)] + busy);
      waitingForResponse := true;
      var e := NewEvent(now, n, "user-message", None, context, Some(message));
      assert Encoded([e], log.encode) == [log.encode(e)];
      log.Append(e);
    }
  }
}
