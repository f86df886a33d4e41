/** The persistent agent registry: one record per agent, keyed by the agent's name, saved to disk after
    every change and reconciled with the processes that are still running. */
module AgentStore {
  import opened Wrappers
  import opened Agents

  /** The agent records, keyed by `AsStr` of the agent's name. */
  type Registry = map<string, Agent>

  /** What the registry file holds: nothing, something that cannot be read as text, or text that either
      parses as a registry or does not. */
  datatype Disk = Missing | Unreadable | Stored(contents: Option<Registry>)

  const StaleMessage := "Process exited unexpectedly"

  /** A registry as the application keeps it: one record for every agent, under that agent's key. */
  ghost predicate WellFormed(m: Registry) {
    forall n: AgentName :: AsStr(n) in m && m[AsStr(n)].name == n
  }

  /** The registry's process invariant: every record is Working exactly when it has a process. */
  ghost predicate PidsMatchStatus(m: Registry) {
    forall k :: k in m ==> PidMatchesStatus(m[k])
  }

  /** `StoreData::default`, as a value: every agent present and idle. */
  function DefaultAgents(): (m: Registry)
    ensures forall n: AgentName :: AsStr(n) in m && m[AsStr(n)] == NewAgent(n)
    ensures forall k :: k in m ==> exists n: AgentName :: AsStr(n) == k
  {
    map[AsStr(Ember) := NewAgent(Ember), AsStr(Flow) := NewAgent(Flow),
        AsStr(Tempest) := NewAgent(Tempest), AsStr(Terra) := NewAgent(Terra)]
  }

  /** `StoreData::default`, building the map one agent at a time in `ALL` order. */
  method BuildDefault() returns (m: Registry)
    ensures m == DefaultAgents()
  {
    m := map[];
    for i := 0 to |All|
      invariant m == FreshRecords(All[..i])
    {
      assert All[..i + 1][..i] == All[..i];
      m := m[AsStr(All[i]) := NewAgent(All[i])];
    }
    assert All[..|All|] == All;
    FreshRecordsOfAll();
  }

  /** A fresh record for each of the names, inserted in order. */
  function FreshRecords(names: seq<AgentName>): Registry {
    if names == [] then map[]
    else FreshRecords(names[..|names| - 1])[AsStr(names[|names| - 1]) := NewAgent(names[|names| - 1])]
  }

  /** Inserting a fresh record for every agent, one at a time in `ALL` order, gives the default registry. */
  lemma FreshRecordsOfAll()
    ensures FreshRecords(All) == DefaultAgents()
  {
    var e, f, t := [Ember], [Ember, Flow], [Ember, Flow, Tempest];
    assert All[..3] == t && t[..2] == f && f[..1] == e && e[..0] == [];
    assert FreshRecords(e) == map[AsStr(Ember) := NewAgent(Ember)];
    assert FreshRecords(f) == FreshRecords(e)[AsStr(Flow) := NewAgent(Flow)];
    assert FreshRecords(t) == FreshRecords(f)[AsStr(Tempest) := NewAgent(Tempest)];
    assert FreshRecords(All) == FreshRecords(t)[AsStr(Terra) := NewAgent(Terra)];
  }

  /** The default registry is well formed, satisfies the process invariant and has every agent free. */
  lemma DefaultIsWellFormed()
    ensures WellFormed(DefaultAgents()) && PidsMatchStatus(DefaultAgents())
    ensures forall n: AgentName :: DefaultAgents()[AsStr(n)].status == Idle
  {
    forall k | k in DefaultAgents() ensures PidMatchesStatus(DefaultAgents()[k]) {
      var n: AgentName :| AsStr(n) == k;
    }
  }

  /** What `new` and `reload` take from the file: its registry, the default registry when the text does
      not parse, and what is already held when there is no file. */
  function Loaded(file: Disk, current: Registry): (m: Registry)
    requires !file.Unreadable?
    ensures file.Missing? ==> m == current
    ensures file == Stored(None) ==> m == DefaultAgents()
    ensures file.Stored? && file.contents.Some? ==> m == file.contents.value
  {
    match file
    case Missing => current
    case Stored(None) => DefaultAgents()
    case Stored(Some(r)) => r
  }

  /** What `clean_stale_processes` does to one record: an agent whose process is gone is put in the Error
      state with an explanation, and loses the pid. */
  function Cleaned(a: Agent, alive: u32 -> bool): (b: Agent)
    ensures a.pid.Some? && !alive(a.pid.value) ==>
              b == a.(status := Error, error := Some(StaleMessage), pid := None)
    ensures a.pid.None? || alive(a.pid.value) ==> b == a
  {
    if a.pid.Some? && !alive(a.pid.value) then a.(status := Error, error := Some(StaleMessage), pid := None)
    else a
  }

  /** `clean_stale_processes` over the whole registry. */
  function StaleCleaned(m: Registry, alive: u32 -> bool): (r: Registry)
    ensures r.Keys == m.Keys
    ensures forall k :: k in m ==> r[k] == Cleaned(m[k], alive)
  {
    map k | k in m :: Cleaned(m[k], alive)
  }

  /** Cleaning keeps every record's name and retry count, leaves no dead process behind, keeps the
      process invariant, and a second cleaning with the same view of the processes changes nothing. */
  lemma CleaningIsSound(m: Registry, alive: u32 -> bool)
    ensures forall k :: k in m ==> StaleCleaned(m, alive)[k].name == m[k].name
    ensures forall k :: k in m ==> StaleCleaned(m, alive)[k].retryCount == m[k].retryCount
    ensures forall k :: k in m && StaleCleaned(m, alive)[k].pid.Some? ==> alive(StaleCleaned(m, alive)[k].pid.value)
    ensures PidsMatchStatus(m) ==> PidsMatchStatus(StaleCleaned(m, alive))
    ensures WellFormed(m) ==> WellFormed(StaleCleaned(m, alive))
    ensures StaleCleaned(StaleCleaned(m, alive), alive) == StaleCleaned(m, alive)
  {
    var c := StaleCleaned(m, alive);
    assert forall k :: k in c ==> StaleCleaned(c, alive)[k] == c[k];
  }

  /** When every recorded process is still running, cleaning changes nothing. */
  lemma CleaningKeepsLiveRegistry(m: Registry, alive: u32 -> bool)
    requires forall k :: k in m && m[k].pid.Some? ==> alive(m[k].pid.value)
    ensures StaleCleaned(m, alive) == m
  {
    assert forall k :: k in m ==> StaleCleaned(m, alive)[k] == m[k];
  }

  /** `get_all`: the records of the pool in `ALL` order, skipping names the registry lacks. */
  function AllAgents(m: Registry): (r: seq<Agent>)
    ensures |r| <= |All|
    ensures forall i :: 0 <= i < |r| ==> r[i] in m.Values
    ensures WellFormed(m) ==> |r| == |All| && forall i :: 0 <= i < |All| ==> r[i] == m[AsStr(All[i])]
  {
    AgentsOf(m, All)
  }

  function AgentsOf(m: Registry, names: seq<AgentName>): (r: seq<Agent>)
    ensures |r| <= |names|
    ensures forall i :: 0 <= i < |r| ==> r[i] in m.Values
    ensures WellFormed(m) ==> |r| == |names| && forall i :: 0 <= i < |names| ==> r[i] == m[AsStr(names[i])]
  {
    if names == [] then []
    else
      var rest := AgentsOf(m, names[1..]);
      if AsStr(names[0]) in m then [m[AsStr(names[0])]] + rest else rest
  }

  /** `get_agent` */
  function GetAgent(m: Registry, n: AgentName): (r: Option<Agent>)
    ensures r.Some? <==> AsStr(n) in m
    ensures r.Some? ==> r.value == m[AsStr(n)]
  {
    if AsStr(n) in m then Some(m[AsStr(n)]) else None
  }

  ghost predicate IsIdle(m: Registry, n: AgentName) {
    AsStr(n) in m && m[AsStr(n)].status == Idle
  }

  /** `next_free_agent`: the first idle agent in `ALL` order, if there is one. */
  function NextFree(m: Registry): (r: Option<AgentName>)
    ensures r.None? <==> forall n: AgentName :: !IsIdle(m, n)
    ensures r.Some? ==> IsIdle(m, r.value)
    ensures r.Some? ==> exists i :: 0 <= i < |All| && All[i] == r.value && forall j :: 0 <= j < i ==> !IsIdle(m, All[j])
  {
    AllListsEachNameOnce();
    FirstIdle(m, All, 0)
  }

  function FirstIdle(m: Registry, names: seq<AgentName>, from: nat): (r: Option<AgentName>)
    requires from <= |names|
    requires forall j :: 0 <= j < from ==> !IsIdle(m, names[j])
    ensures r.None? ==> forall j :: 0 <= j < |names| ==> !IsIdle(m, names[j])
    ensures r.Some? ==> exists i :: from <= i < |names| && names[i] == r.value && IsIdle(m, r.value)
                                    && forall j :: 0 <= j < i ==> !IsIdle(m, names[j])
    decreases |names| - from
  {
    if from == |names| then None
    else if AsStr(names[from]) in m && m[AsStr(names[from])].status == Idle then Some(names[from])
    else FirstIdle(m, names, from + 1)
  }

  /** The record changes `mark_provisioning` makes; the clock reading is a parameter. */
  function Provisioned(a: Agent, itemId: string, itemTitle: string, branch: string, worktree: string,
                       now: string): Agent
  {
    a.(status := Provisioning, workItemId := Some(itemId), workItemTitle := Some(itemTitle),
       branch := Some(branch), worktreePath := Some(worktree), startedAt := Some(now), error := None)
  }

  /** `mark_working` */
  function Started(a: Agent, pid: u32): Agent {
    a.(status := Working, pid := Some(pid))
  }

  /** `mark_done` */
  function Finished(a: Agent): Agent {
    a.(status := Done, pid := None)
  }

  /** `mark_error` */
  function Failed(a: Agent, error: string): Agent {
    a.(status := Error, error := Some(error), pid := None)
  }

  /** `increment_retry` */
  function Retried(a: Agent): Agent {
    a.(retryCount := a.retryCount + 1)
  }

  /** Every transition keeps the process invariant; provisioning needs the agent to have no process,
      which holds for the Idle and Error agents the application provisions. */
  lemma TransitionsKeepPidInvariant(a: Agent, id: string, title: string, branch: string,
                                    wt: string, now: string, pid: u32, error: string, alive: u32 -> bool)
    requires PidMatchesStatus(a)
    ensures a.pid.None? ==> PidMatchesStatus(Provisioned(a, id, title, branch, wt, now))
    ensures Provisioned(a, id, title, branch, wt, now).pid == a.pid
    ensures PidMatchesStatus(Started(a, pid))
    ensures PidMatchesStatus(Finished(a)) && PidMatchesStatus(Failed(a, error))
    ensures PidMatchesStatus(Retried(a))
    ensures PidMatchesStatus(Cleaned(a, alive))
  {
  }

  /** The retry count only grows by `increment_retry`; `release` replaces the record by `NewAgent`, whose
      count is zero. */
  lemma RetryCountChanges(a: Agent, id: string, title: string, branch: string,
                          wt: string, now: string, pid: u32, error: string, alive: u32 -> bool)
    ensures Provisioned(a, id, title, branch, wt, now).retryCount == a.retryCount
    ensures Started(a, pid).retryCount == a.retryCount
    ensures Finished(a).retryCount == a.retryCount && Failed(a, error).retryCount == a.retryCount
    ensures Cleaned(a, alive).retryCount == a.retryCount
    ensures Retried(a).retryCount == a.retryCount + 1
  {
  }

  /** Applying a record change to the named agent, when the registry has it. */
  function Updated(m: Registry, n: AgentName, b: Agent): (r: Registry)
    ensures r.Keys == m.Keys
    ensures AsStr(n) in m ==> r[AsStr(n)] == b
    ensures forall k :: k in m && k != AsStr(n) ==> r[k] == m[k]
  {
    if AsStr(n) in m then m[AsStr(n) := b] else m
  }

  /** A change that keeps the record's name keeps the registry well formed; one that keeps the process
      invariant keeps it for the registry. */
  lemma UpdateKeepsInvariants(m: Registry, n: AgentName, b: Agent)
    requires AsStr(n) in m
    ensures WellFormed(m) && b.name == n ==> WellFormed(Updated(m, n, b))
    ensures PidsMatchStatus(m) && PidMatchesStatus(b) ==> PidsMatchStatus(Updated(m, n, b))
  {
    if WellFormed(m) && b.name == n {
      forall x: AgentName ensures AsStr(x) in Updated(m, n, b) && Updated(m, n, b)[AsStr(x)].name == x {
        if AsStr(x) == AsStr(n) {
          AsStrInjective(x, n);
        }
      }
    }
  }

  /** The agent registry: the records held in memory and the file they are saved to. */
  class Store {
    var agents: Registry
    var disk: Disk

    /** The file holds exactly what is in memory. */
    ghost predicate Synced()
      reads this
    {
      disk == Stored(Some(agents))
    }

    constructor FromParts(agents: Registry, disk: Disk)
      ensures this.agents == agents && this.disk == disk
    {
      this.agents := agents;
      this.disk := disk;
    }

    /** `AgentStore::new`: reads the file (the default registry when there is none or it does not
        parse), then cleans stale processes, which saves it. A file that cannot be read is an error. */
    static method Open(path: string, file: Disk, alive: u32 -> bool) returns (r: Result<Store>)
      ensures r.Err? <==> file.Unreadable?
      ensures r.Err? ==> r.error == "Failed to read " + path
      ensures r.Ok? ==> fresh(r.value) && r.value.Synced()
      ensures r.Ok? ==> r.value.agents == StaleCleaned(Loaded(file, DefaultAgents()), alive)
    {
      if file.Unreadable? {
        return Err("Failed to read " + path);
      }
      var initial: Registry;
      if file.Missing? {
        initial := BuildDefault();
      } else {
        initial := Loaded(file, DefaultAgents());
      }
      var s := new Store.FromParts(initial, file);
      s.CleanStaleProcesses(alive);
      return Ok(s);
    }

    /** `save` */
    method Save()
      modifies this
      ensures agents == old(agents) && Synced()
    {
      disk := Stored(Some(agents));
    }

    /** `clean_stale_processes`: visits every record once, in no particular order, then saves. */
    method CleanStaleProcesses(alive: u32 -> bool)
      modifies this
      ensures agents == StaleCleaned(old(agents), alive) && Synced()
    {
      ghost var before := agents;
      var todo := agents.Keys;
      while todo != {}
        invariant todo <= agents.Keys && agents.Keys == before.Keys
        invariant forall k :: k in agents ==> agents[k] == if k in todo then before[k] else Cleaned(before[k], alive)
        decreases todo
      {
        var k :| k in todo;
        agents := agents[k := Cleaned(agents[k], alive)];
        todo := todo - {k};
      }
      Save();
    }

    /** `update_agent`: changes the named record and saves, or does nothing when the registry lacks it. */
    method UpdateAgent(n: AgentName, change: Agent -> Agent)
      modifies this
      ensures AsStr(n) in old(agents) ==> agents == Updated(old(agents), n, change(old(agents)[AsStr(n)])) && Synced()
      ensures AsStr(n) !in old(agents) ==> unchanged(this)
    {
      if AsStr(n) in agents {
        agents := agents[AsStr(n) := change(agents[AsStr(n)])];
        Save();
      }
    }

    /** `mark_provisioning` */
    method MarkProvisioning(n: AgentName, itemId: string, itemTitle: string, branch: string,
                            worktree: string, now: string)
      modifies this
      ensures AsStr(n) in old(agents) ==>
                agents == Updated(old(agents), n, Provisioned(old(agents)[AsStr(n)], itemId, itemTitle, branch, worktree, now))
                && Synced()
      ensures AsStr(n) !in old(agents) ==> unchanged(this)
    {
      UpdateAgent(n, a => Provisioned(a, itemId, itemTitle, branch, worktree, now));
    }

    /** `mark_working` */
    method MarkWorking(n: AgentName, pid: u32)
      modifies this
      ensures AsStr(n) in old(agents) ==> agents == Updated(old(agents), n, Started(old(agents)[AsStr(n)], pid)) && Synced()
      ensures AsStr(n) !in old(agents) ==> unchanged(this)
    {
      UpdateAgent(n, a => Started(a, pid));
    }

    /** `mark_done` */
    method MarkDone(n: AgentName)
      modifies this
      ensures AsStr(n) in old(agents) ==> agents == Updated(old(agents), n, Finished(old(agents)[AsStr(n)])) && Synced()
      ensures AsStr(n) !in old(agents) ==> unchanged(this)
    {
      UpdateAgent(n, Finished);
    }

    /** `mark_error` */
    method MarkError(n: AgentName, error: string)
      modifies this
      ensures AsStr(n) in old(agents) ==> agents == Updated(old(agents), n, Failed(old(agents)[AsStr(n)], error)) && Synced()
      ensures AsStr(n) !in old(agents) ==> unchanged(this)
    {
      UpdateAgent(n, a => Failed(a, error));
    }

    /** `increment_retry`: the new count, or 0 when the registry lacks the agent. */
    method IncrementRetry(n: AgentName) returns (count: nat)
      modifies this
      ensures AsStr(n) in old(agents) ==> agents == Updated(old(agents), n, Retried(old(agents)[AsStr(n)])) && Synced()
      ensures AsStr(n) in old(agents) ==> count == old(agents)[AsStr(n)].retryCount + 1
      ensures AsStr(n) !in old(agents) ==> unchanged(this) && count == 0
    {
      count := 0;
      if AsStr(n) in agents {
        count := agents[AsStr(n)].retryCount + 1;
      }
      UpdateAgent(n, Retried);
    }

    /** `release` */
    method Release(n: AgentName)
      modifies this
      ensures AsStr(n) in old(agents) ==> agents == Updated(old(agents), n, NewAgent(n)) && Synced()
      ensures AsStr(n) !in old(agents) ==> unchanged(this)
    {
      UpdateAgent(n, a => NewAgent(n));
    }

    /** `reload`: takes the file's registry (see `Loaded`) and cleans stale processes. A file that cannot
        be read is an error that changes nothing, not even the cleaning. */
    method Reload(alive: u32 -> bool) returns (ok: bool)
      modifies this
      ensures ok <==> !old(disk).Unreadable?
      ensures !ok ==> unchanged(this)
      ensures ok ==> agents == StaleCleaned(Loaded(old(disk), old(agents)), alive) && Synced()
    {
      if disk.Unreadable? {
        return false;
      }
      agents := Loaded(disk, agents);
      CleanStaleProcesses(alive);
      return true;
    }
  }

  /** What a saved registry reloads as: every change is saved, so reloading gives back the registry that
      was in memory, with only the processes that have since died marked. */
  lemma ReloadAfterSave(m: Registry, alive: u32 -> bool)
    ensures StaleCleaned(Loaded(Stored(Some(m)), m), alive) == StaleCleaned(m, alive)
    ensures (forall k :: k in m && m[k].pid.Some? ==> alive(m[k].pid.value)) ==>
              StaleCleaned(Loaded(Stored(Some(m)), m), alive) == m
  {
    if forall k :: k in m && m[k].pid.Some? ==> alive(m[k].pid.value) {
      CleaningKeepsLiveRegistry(m, alive);
    }
  }
}
