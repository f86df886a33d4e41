# work-cli orchestration core, modelled in Dafny

work-cli is a terminal application that pulls work items from issue trackers and hands them to a pool of
four coding agents: Ember, Flow, Tempest and Terra. Each agent works in its own git worktree and branch
and runs the `claude` command-line tool. This project models the part of the program that decides what
happens to the agents and the backlog, and proves properties of that model:

- **Agent registry.** A JSON-backed map from agent name to record, cleaned of stale processes on load.
  Its transitions are Idle, Provisioning, Working, Done and Error, plus the retry counter
  (`store.dfy`, `agent.dfy`).
- **Dispatch.** The git and process steps that start an agent on an item, with their error handling,
  the registry updates and the activity events they log (`dispatch.dfy`, `activity_log.dfy`). A
  dispatch that fails after provisioning, as written and corrected (`dispatch_failure.dfy`).
- **Branch and worktree names.** Slugifying a title, the branch name, the sibling worktree path
  (`branch.dfy`).
- **Controller** (`app.dfy`):
  - the periodic tick: release finished agents, retry failed ones up to a bound, auto-dispatch
    unclaimed items to idle agents;
  - manual dispatch, clearing an agent, process exits, backlog reloads and task creation;
  - the command bar's key handling, name completion and `@agent` message routing.
  - the global key map seen from the command bar, where it swallows the shortcut letters, as written and
    corrected (`input_keys.dfy`).
  - the same key handling with the code's byte-offset cursor, which panics on non-ASCII text
    (`input_bytes.dfy`).
- **Parsing helpers.** Recognising the addressed agent in chat and in the command bar
  (`chat_panel.dfy`, `command_bar.dfy`); the key map (`event.dfy`).
- **Work items from the trackers.**
  - How Linear, Trello, Jira and GitHub records become work items (`linear.dfy`, `trello.dfy`,
    `jira.dfy`, `github.dfy`).
  - Text extraction from Atlassian Document Format (`adf.dfy`).
  - The provider factory (`providers.dfy`).
  - The prompt an agent starts with (`claude_prompt.dfy`, `personality.dfy`).
- **`work add`.** Argument parsing and provider choice (`cli.dfy`).

Stateful code is modelled imperatively:

- `AgentStore.Store` is a class over the registry map and an abstract disk.
- `ActivityLog.Log` is a class over the lines of the JSONL file.
- `Controller.App` is a class with the application's fields.
- Dispatch and the provider factory are straight-line methods; `work add`'s argument and provider loops
  (`Cli.ParseAddArgs`, `Cli.ProviderOrder`, `Cli.Group`, `Cli.TryProviders`) carry invariants.

Each method is proved equal to a specification function, and the properties are proved about those
functions. Pure code (slugs, mappings, parsers, the prompt) is modelled as functions and lemmas.

Every effect the program has on the outside world is a parameter of the model, each described by
what it returns:

- `World.alive` is the liveness probe for a pid.
- `Steps` records the outcome of every git step, the context-file write, the log-file creation and the
  process spawn.
- `World.moveToInProgress` and `World.moveToDone` are the tracker calls.
- `World.now` is the clock.
- `Disk` is the state of `agents.json`.
- `Log.encode` and the parser passed to `ReadEvents` are the JSON encoder and decoder.
- `base64` is the standard encoder.

## Model

| member | source | states |
|---|---|---|
| Agents.AsStr | src/model/agent.rs:21-28 | the registry key of an agent is at least four lower-case letters |
| Agents.DisplayName | src/model/agent.rs:30-37 | the display name is the key with its first letter upper-cased |
| Agents.AllListsEachNameOnce | src/model/agent.rs:14-19 | the pool lists Ember, Flow, Tempest, Terra, each agent exactly once |
| Agents.AsStrInjective | src/model/agent.rs:21-28 | distinct agents have distinct keys |
| Agents.NamesArePrefixFree | src/model/agent.rs:21-28 | no agent's key is a prefix of another's, so an `@name` prefix identifies one agent |
| Agents.StatusText | src/model/agent.rs:65-75 | the status text is lower-case, and it is "idle" exactly for Idle |
| Agents.StatusTextInjective | src/model/agent.rs:65-75 | distinct statuses print differently |
| Agents.NewAgent | src/model/agent.rs:99-113 | a fresh record is Idle, holds no item, branch, worktree, pid, start time or error, and has retry count 0 |
| AgentStore.DefaultAgents | src/agents/store.rs:14-22 | the default registry has exactly one fresh Idle record per agent, under its key |
| AgentStore.BuildDefault | src/agents/store.rs:14-22 | the loop over the pool builds exactly the default registry |
| AgentStore.FreshRecordsOfAll | src/agents/store.rs:14-22 | inserting a fresh record for each name of the pool gives the default registry |
| AgentStore.DefaultIsWellFormed | src/agents/store.rs:14-22 | the default registry is well formed, every pid agrees with its status, and all agents are Idle |
| AgentStore.Loaded | src/agents/store.rs:30-42 | a missing file keeps the current registry, one that does not parse (an empty one included) gives the default, stored contents are taken as they are |
| AgentStore.Cleaned | src/agents/store.rs:53-63 | a record whose pid is dead becomes Error "Process exited unexpectedly" without a pid; any other record is unchanged |
| AgentStore.StaleCleaned | src/agents/store.rs:53-63 | cleaning keeps every key and cleans each record |
| AgentStore.CleaningIsSound | src/agents/store.rs:53-63 | cleaning keeps names and retry counts, leaves only live pids, keeps well-formedness and the pid/status invariant, and is idempotent |
| AgentStore.CleaningKeepsLiveRegistry | src/agents/store.rs:53-63 | a registry whose pids are all alive is left unchanged |
| AgentStore.AllAgents | src/agents/store.rs:66-71 | the records in pool order, one per agent of a well-formed registry |
| AgentStore.AgentsOf | src/agents/store.rs:66-71 | the records of the given names, in their order |
| AgentStore.GetAgent | src/agents/store.rs:73-75 | a record is found exactly when its key is present, and it is that key's record |
| AgentStore.NextFree | src/agents/store.rs:85-96 | none exactly when no agent is Idle; otherwise the first Idle agent in pool order |
| AgentStore.FirstIdle | src/agents/store.rs:85-96 | the search over the pool finds the first Idle name from the given position, or reports that none is Idle |
| AgentStore.TransitionsKeepPidInvariant | src/agents/store.rs:98-152 | provisioning, starting, finishing, failing, retrying and cleaning keep "a pid exactly when Working" |
| AgentStore.RetryCountChanges | src/agents/store.rs:98-146 | only a retry changes the retry count, and it adds one |
| AgentStore.Updated | src/agents/store.rs:77-83 | an update replaces that agent's record and no other |
| AgentStore.UpdateKeepsInvariants | src/agents/store.rs:77-83 | an update with a record of the same agent keeps well-formedness, and one that keeps the pid/status rule keeps that invariant |
| AgentStore.Store.Open | src/agents/store.rs:30-42 | an unreadable file is an error naming the path; otherwise the store holds the loaded registry cleaned of stale processes, saved |
| AgentStore.Store.Save | src/agents/store.rs:44-51 | the disk holds the registry |
| AgentStore.Store.CleanStaleProcesses | src/agents/store.rs:53-63 | the loop over the records leaves the cleaned registry, saved |
| AgentStore.Store.UpdateAgent | src/agents/store.rs:77-83 | a present agent's record is changed and saved; a missing agent changes nothing |
| AgentStore.Store.MarkProvisioning | src/agents/store.rs:98-115 | the agent becomes Provisioning with the item, title, branch, worktree and start time, saved |
| AgentStore.Store.MarkWorking | src/agents/store.rs:117-122 | the agent becomes Working with the pid, saved |
| AgentStore.Store.MarkDone | src/agents/store.rs:124-129 | the agent becomes Done without a pid, saved |
| AgentStore.Store.MarkError | src/agents/store.rs:131-137 | the agent becomes Error with the message and without a pid, saved |
| AgentStore.Store.IncrementRetry | src/agents/store.rs:139-146 | the count goes up by one, is saved and returned; a missing agent gives 0 |
| AgentStore.Store.Release | src/agents/store.rs:148-152 | the agent's record is replaced by a fresh one, saved |
| AgentStore.Store.Reload | src/agents/store.rs:154-161 | an unreadable file fails and changes nothing; otherwise the reloaded registry is cleaned and saved |
| AgentStore.ReloadAfterSave | src/agents/store.rs:44-63 | reloading what was saved gives the cleaned registry back, and the same registry when its pids are alive |
| ActivityLog.NewEvent | src/agents/log.rs:67-82 | the event carries the time, agent, type, item and message it was given |
| ActivityLog.Log.Append | src/agents/log.rs:26-38 | appending adds the event's encoded line at the end of the file |
| ActivityLog.Decoded | src/agents/log.rs:50-53 | decoding gives at most one event per line |
| ActivityLog.ForAgent | src/agents/log.rs:54-62 | the filter keeps exactly the events of the requested agent, or all of them |
| ActivityLog.ForAgentConcat | src/agents/log.rs:54-62 | the filter keeps file order: filtering two runs of events gives the kept events of the first, then those of the second |
| ActivityLog.ForAgentCounts | src/agents/log.rs:54-62 | an event of the requested agent is kept as often as it occurs, any other event never |
| ActivityLog.ForAgentSnoc | src/agents/log.rs:54-62 | one more event is kept at the end exactly when it belongs to the requested agent |
| ActivityLog.Newest | src/agents/log.rs:54-62 | the limit keeps the newest events, as many as the limit allows |
| ActivityLog.ReadEvents | src/agents/log.rs:40-65 | a missing file gives no events; the result respects the limit and the agent filter; file order and multiplicity are kept by `ForAgentConcat`, `ForAgentCounts` and `LimitKeepsNewest` |
| ActivityLog.LimitKeepsNewest | src/agents/log.rs:54-62 | a limit keeps the last `limit` events of the unlimited read, or all of them when there are fewer |
| ActivityLog.ReadEventsMembership | src/agents/log.rs:40-65 | an event is read exactly when it matches the filter and some non-blank line parses to it |
| ActivityLog.DecodedMembership | src/agents/log.rs:50-53 | an event is decoded exactly when some non-blank line parses to it |
| ActivityLog.DecodedSnoc | src/agents/log.rs:50-53 | decoding one more line adds its event when the line is non-blank and parses |
| ActivityLog.AppendThenRead | src/agents/log.rs:26-65 | after appending an event whose line parses back, a read for any agent filter gives the old events followed by it when it belongs to that agent, and the old events alone otherwise |
| ActivityLog.ForAgentAll | src/agents/log.rs:54-62 | without an agent filter all events are kept |
| ActivityLog.Encoded | src/agents/log.rs:26-38 | one line per event |
| ActivityLog.AppendedEventsReadBack | src/agents/log.rs:26-65 | a file of appended events reads back as exactly those events, in order |
| ActivityLog.DecodedEncoded | src/agents/log.rs:26-53 | decoding the encoded events gives them back |
| ActivityLog.EncodedAppend | src/agents/log.rs:26-38 | encoding two batches gives their lines one after the other |
| ActivityLog.LogExtended | src/agents/log.rs:26-38 | appending two batches in turn gives the lines of both in order |
| Dispatch.RunGit | src/agents/dispatch.rs:135-148 | success exactly when git ran and exited successfully; otherwise the source's two error messages, quoting the arguments and stderr |
| Dispatch.CreateBranch | src/agents/dispatch.rs:48-54 | the branch exists when the plain or the forced creation succeeds; the error is the forced creation's |
| Dispatch.Outcome | src/agents/dispatch.rs:15-133 | a pid exactly when every preparation step and the spawn succeed; otherwise the first failing step's error, or "Failed to spawn claude" |
| Dispatch.CleanupIsIgnored | src/agents/dispatch.rs:38-46 | removing the old worktree and pruning never change the outcome |
| Dispatch.BranchFallback | src/agents/dispatch.rs:48-54 | after a successful fetch, a plain branch never needs the forced one, and when both fail the forced one's error is reported |
| Dispatch.DispatchedAgent | src/agents/dispatch.rs:15-133 | the agent takes the item, title, branch and worktree and keeps its retry count; it is Working with the pid on success and Provisioning without a pid on failure; other records are unchanged; the invariants hold |
| Dispatch.DispatchedOnAgent | src/agents/dispatch.rs:26-89 | the same, for a given branch and worktree |
| Dispatch.DispatchedEvent | src/agents/dispatch.rs:26-33 | a "dispatched" event for the agent and the item |
| Dispatch.WorkingEvent | src/agents/dispatch.rs:81-89 | a "working" event for the agent and the item |
| Dispatch.DispatchEvents | src/agents/dispatch.rs:26-89 | dispatch logs "dispatched" first, then at most one "working", and only events of that agent and item |
| Dispatch.LoggedEvents | src/agents/dispatch.rs:26-89 | the same, for a given branch and worktree |
| Dispatch.DispatchItem | src/agents/dispatch.rs:15-133 | `dispatch` succeeds exactly as `Outcome` says, with its error, leaves the registry `AfterDispatch` describes, saved, and appends the dispatch events |
| Dispatch.DispatchOn | src/agents/dispatch.rs:22-89 | the same, for a given branch and worktree |
| Dispatch.Provision | src/agents/dispatch.rs:26-33 | the record is provisioned and saved, and "dispatched" is logged |
| Dispatch.Launch | src/agents/dispatch.rs:36-89 | on success the agent is Working with the pid and "working" is logged; on failure nothing changes |
| Dispatch.Monitored | src/agents/dispatch.rs:94-130 | a successful exit logs "done" without a message; a failure logs the exit code or the wait error; either way it reports the exit with its success |
| DispatchFailure.DispatchedOnKeepsOthers | src/agents/dispatch.rs:26-82 | a dispatch, successful or not, changes no other agent's record |
| DispatchFailure.RedispatchedKeepsOthers | src/app.rs:637-660 | dispatching one agent again changes no other agent's record |
| DispatchFailure.RetryStepKeepsOthers | src/app.rs:622-672 | retrying one agent changes no other agent's record, whatever its status |
| DispatchFailure.RetriedAllKeepsOthers | src/app.rs:622-672 | the retry loop leaves the record of an agent it does not retry unchanged |
| DispatchFailure.AutoDispatchKeepsBusy | src/app.rs:679-713 | auto-dispatch leaves the record of an agent that is not Idle unchanged |
| DispatchFailure.StuckProvisioningSurvivesTick | src/app.rs:605-677 | as written: an agent that reloads as Provisioning with no process comes out of a tick unchanged, still holding its item, and no claim is dropped |
| DispatchFailure.AutoPhasesKeepProvisioning | src/app.rs:622-675 | in auto mode, the retry and auto-dispatch phases leave a Provisioning agent's record unchanged and drop no claim |
| DispatchFailure.StuckProvisioningHoldsItem | src/app.rs:908-921 | such an agent is never the next free agent, and its item is still assigned to an agent |
| DispatchFailure.DispatchedOnCorrected | src/agents/dispatch.rs:26-82 | `dispatch` with the failure recorded by `mark_error`; no contract of its own, `FailedDispatchIsError` states it |
| DispatchFailure.FailedDispatchIsError | src/agents/dispatch.rs:26-82 | corrected: a successful dispatch is unchanged; a failed one leaves the agent in Error with the failure's message and no process, holding its item and retry count; other records are unchanged; the invariants hold |
| DispatchFailure.FailedDispatchIsRetried | src/app.rs:622-672 | corrected: after a failed dispatch the agent is among those the tick retries, and the retry releases it past the bound or when the item left the backlog, and otherwise dispatches it again to the same item with its count one higher |
| Branch.SlugPiece | src/agents/branch.rs:3-11 | each character becomes one or two slug characters, and an alphanumeric one becomes one that is not a dash |
| Branch.SluggedIsSlug | src/agents/branch.rs:3-11 | mapping the characters gives lower-case alphanumerics and dashes, no shorter than the title |
| Branch.SluggedAppend | src/agents/branch.rs:3-11 | the character mapping works character by character |
| Branch.TrimDashes | src/agents/branch.rs:9 | the text with a run of dashes removed at each end and nothing else (`IsDashTrimmed`), neither starting nor ending with a dash; a slug stays a slug |
| Branch.DashesAround | src/agents/branch.rs:9 | a middle part with only dashes before and after it is a dash-trimming of the text |
| Branch.SlugIsBranchSafe | src/agents/branch.rs:3-11 | a slug is at most 40 characters of lower-case alphanumerics and dashes, never starts with a dash, and ends with one only when the cut at 40 left it there |
| Branch.AlphanumericsSurvive | src/agents/branch.rs:3-11 | every alphanumeric character of the title appears lower-cased in the mapped title |
| Branch.Slugify | src/agents/branch.rs:3-11 | defined as the code computes it: lower-casing, every character other than an ASCII letter or digit turned into '-', the dashes at both ends trimmed, and a cut at 40 characters; no contract of its own, its properties are `SlugIsBranchSafe` and `AlphanumericsSurvive` |
| Branch.BranchName | src/agents/branch.rs:13-17 | defined as "agent/<name>/", the first 8 characters of the id, '-' and the slug; no contract of its own, its properties are `BranchNameShape`, `BranchNamesDifferAcrossAgents` and `NoTwoNamePrefixes` |
| Branch.BranchNameShape | src/agents/branch.rs:13-17 | a branch name starts with "agent/<name>/" and is at most 49 characters longer than that prefix |
| Branch.BranchNamesDifferAcrossAgents | src/agents/branch.rs:13-17 | two agents never share a branch name |
| Branch.NoTwoNamePrefixes | src/agents/branch.rs:13-17 | a string starts with the branch prefix of at most one agent |
| Branch.LastSlash | src/agents/branch.rs:19-27 | the position of the last '/', or none when there is no '/' |
| Branch.WorktreePath | src/agents/branch.rs:19-27 | defined as the checkout's parent directory followed by "/agent-<name>"; no contract of its own, its properties are `WorktreeIsSibling` and `WorktreesDifferAcrossAgents` |
| Branch.WorktreePathExample | src/agents/branch.rs:33-48 | the worktree of Ember beside `/Users/pim/fm/workflow/main` is `/Users/pim/fm/workflow/agent-ember` |
| Branch.WorktreeIsSibling | src/agents/branch.rs:19-27 | a worktree has the same parent directory as the repository |
| Branch.WorktreesDifferAcrossAgents | src/agents/branch.rs:19-27 | two agents never share a worktree |
| BranchExamples.SlugifyLoginExample | src/agents/branch.rs:33-48 | "Add login validation" slugifies to "add-login-validation" |
| BranchExamples.SlugifyPunctuationExample | src/agents/branch.rs:33-48 | "Fix bug #42!" slugifies to "fix-bug--42" |
| BranchExamples.BranchNameExample | src/agents/branch.rs:33-48 | Ember with item LIN-42 "Add login" works on `agent/ember/LIN-42-add-login` |
| Events.KeyToAction | src/event.rs:40-66 | Ctrl-C is always Quit, and only unmapped keys give no action |
| Events.CharactersAndShortcuts | src/event.rs:40-66 | a character is typed text exactly when it is not a shortcut; q, d, m, r, c, x and ':' map to their commands |
| Events.NamedKeys | src/event.rs:40-66 | Enter, Esc, Backspace, Tab and the arrows map to their key actions |
| ChatPanel.FirstPrefix | src/ui/chat_panel.rs:121-132 | the first name of the list that prefixes the text, or none when no name does |
| ChatPanel.ExtractAgentTarget | src/ui/chat_panel.rs:121-132 | an agent exactly when the text is '@' followed by that agent's key |
| ChatPanel.TargetIsUnique | src/ui/chat_panel.rs:121-132 | an addressed agent is the one extracted |
| ChatPanel.StripMatchesTarget | src/ui/chat_panel.rs:134-147 | stripping removes "@name" and the leading whitespace after it exactly when a target is extracted, and keeps the text otherwise |
| ChatPanel.StripAgentPrefix | src/ui/chat_panel.rs:134-147 | defined as the code computes it: a text starting with '@' and an agent's name loses both and the whitespace after them; no contract of its own, its properties are `StripMatchesTarget` and `StripFirstMatches` |
| ChatPanel.StripFirstMatches | src/ui/chat_panel.rs:134-147 | stripping and extraction agree on the agent they find |
| CommandBar.FirstAddressed | src/ui/command_bar.rs:59-76 | the first listed agent addressed by "@name" followed by a space or the end of the input |
| CommandBar.DetectAgentPrefix | src/ui/command_bar.rs:59-76 | an agent exactly when the input addresses it |
| CommandBar.AddressedIsDetected | src/ui/command_bar.rs:59-76 | an addressed agent is the one detected |
| CommandBar.Title | src/ui/command_bar.rs:37-43 | the message title exactly when an agent is addressed, the hint for empty input, the task title otherwise |
| CommandBar.Wrap | src/ui/command_bar.rs:54-56 | `u16` arithmetic wraps, and is exact within range |
| CommandBar.CursorColumn | src/ui/command_bar.rs:54-56 | the cursor column is the shifted cursor clamped to the right border, in wrapping `u16` arithmetic |
| CommandBar.CursorColumnWithoutOverflow | src/ui/command_bar.rs:54-56 | without overflow, the column is the minimum of the shifted cursor and the right border |
| Personalities.PersonalityOf | src/model/personality.rs:10-17 | every agent has a non-empty tagline, focus, trait list and working style |
| Personalities.Taglines | src/model/personality.rs:68-141 | the four taglines are those of the source |
| Personalities.PersonalitiesAreDistinct | src/model/personality.rs:68-141 | distinct agents have distinct taglines and trait lists |
| Prompt.LabelsText | src/agents/claude_prompt.rs:7-11 | the labels are joined by ", ", or "none" when there are none |
| Prompt.BuildPrompt | src/agents/claude_prompt.rs:5-54 | defined as the code's lines joined by newlines; no contract of its own, what the prompt contains is stated by `PromptNamesAgent`, `PromptCarriesId`, `PromptShowsPersonality` and `PromptDefaults` |
| Prompt.PromptNamesAgent | src/agents/claude_prompt.rs:14-42 | the prompt names the agent by its display name |
| Prompt.PromptCarriesId | src/agents/claude_prompt.rs:14-42 | the item id appears on the ID line and in the commit instruction |
| Prompt.PromptShowsPersonality | src/agents/claude_prompt.rs:14-42 | the prompt shows the agent's tagline, focus, traits and working style |
| Prompt.PromptDefaults | src/agents/claude_prompt.rs:14-54 | the URL, priority, status, team, labels and description lines appear, with "n/a", "none" or "No description provided." for what is missing |
| WorkItems.Ids | src/model/work_item.rs:4-23 | the set of the backlog's ids, nothing more |
| WorkItems.FindById | src/app.rs:646 | the first item with the id, or none exactly when no item has it |
| WorkItems.Excerpt | src/providers/linear.rs:122-148 | a present description is kept when it is at most 500 characters and cut to its first 500 otherwise |
| WorkItems.NonBlankExcerpt | src/providers/trello.rs:146-180 | a missing or blank description is none; any other is cut as above |
| Adf.ExtractText | src/util/adf.rs:4-27 | strings are their own text, scalars have none, and an array has text exactly when some element has |
| Adf.Parts | src/util/adf.rs:4-27 | the texts of an array's elements, empty exactly when no element has text |
| Adf.TextFoundIffPresent | src/util/adf.rs:4-27 | text is extracted exactly when the document holds a string reachable through arrays, text nodes and "content" fields |
| Adf.TextNodeIgnoresContent | src/util/adf.rs:4-27 | a text node gives its "text", whatever its "content" |
| Adf.ContentPassesThrough | src/util/adf.rs:4-27 | any other object gives the text of its "content" |
| Adf.PartsOfConcatenation | src/util/adf.rs:4-27 | the parts of two arrays are theirs one after the other |
| Adf.ArrayConcatenation | src/util/adf.rs:4-27 | an array whose halves both have text gives their texts joined by a space |
| Adf.ParagraphExample | src/util/adf.rs:4-27 | a document with one paragraph of two text runs gives "Hello world" |
| Linear.MapPriority | src/providers/linear.rs:91-99 | priorities 1 to 4 are Urgent, High, Medium and Low; 0, other values and none give no name |
| Linear.PriorityNamesDistinct | src/providers/linear.rs:91-99 | distinct priorities have distinct names |
| Linear.IssueToItem | src/providers/linear.rs:122-148 | the item takes the identifier, title, URL, state, team and labels (none for none), the mapped priority, and the description as its excerpt: the whole text when at most 500 characters, otherwise its first 500; the source is "Linear" |
| Linear.LinearItems | src/providers/linear.rs:122-148 | one item per issue, in order |
| Linear.LinearItemsConcat | src/providers/linear.rs:122-148 | mapping works issue by issue |
| Trello.ListName | src/providers/trello.rs:146-180 | the name of the card's list, `lists[idList]`, exactly when the card has a list id that was fetched, and none otherwise |
| Trello.BoardName | src/providers/trello.rs:146-180 | the name of the card's board, `boards[idBoard]`, exactly when the card has a board id that was fetched, and none otherwise |
| Trello.NamedLabels | src/providers/trello.rs:146-180 | exactly the labels with non-empty names |
| Trello.NamedLabelsConcat | src/providers/trello.rs:146-180 | dropping empty names keeps the order |
| Trello.CardToItem | src/providers/trello.rs:146-180 | the id is the card id's first 8 characters; the description is the non-blank excerpt of the card's (none when blank or missing); the labels are `NamedLabels` of the card's labels, so the non-empty names in their order; status and team are the list and board names; the source is "Trello" |
| Trello.TrelloItems | src/providers/trello.rs:137-180 | every kept card gives its item, and every item comes from a kept card |
| Trello.OneCard | src/providers/trello.rs:137-180 | one card gives one item when kept, none otherwise |
| Trello.TrelloItemsConcat | src/providers/trello.rs:137-180 | filtering and mapping preserve card order |
| Trello.DroppedIffFinishedList | src/providers/trello.rs:63 | a card is dropped exactly when its fetched list is "done" or "in review" in any case |
| Trello.FinishedListExamples | src/providers/trello.rs:137-145 | "Done" and "In Review" drop a card; "Doing" and an unknown list keep it |
| Trello.Kept | src/providers/trello.rs:137-145 | the filter of `fetch_items`; no contract of its own, `DroppedIffFinishedList` states when it drops a card |
| Jira.New | src/providers/jira.rs:17-25 | the base URL is "https://" + domain + ".atlassian.net" and the header starts "Basic " |
| Jira.NewRoundTrip | src/providers/jira.rs:17-25 | the domain and the encoded "email:token" can be read back |
| Jira.BrowseUrl | src/providers/jira.rs:90-115 | the link is the base URL, "/browse/" and the key |
| Jira.Description | src/providers/jira.rs:90-115 | a description exactly when the document has text, cut to 500 |
| Jira.IssueToItem | src/providers/jira.rs:90-115 | the item takes the key and the summary ("" when missing), always links to the issue, and takes status, priority, labels and project, from "Jira" |
| Jira.JiraItems | src/providers/jira.rs:90-115 | one item per issue, in order |
| Jira.KeyFromUrl | src/providers/jira.rs:90-115 | the key can be read back from the item's link |
| GitHub.IssueId | src/providers/github.rs:73-95 | an id is '#' followed by decimal digits |
| GitHub.IssueIdRoundTrip | src/providers/github.rs:73-95 | the issue number can be read back from the id |
| GitHub.IssueIdInjective | src/providers/github.rs:73-95 | distinct issues get distinct ids |
| GitHub.IssueToItem | src/providers/github.rs:73-95 | the item takes the id, title, state, URL, labels and repository; the description is the non-blank excerpt of the body (none when blank or missing, else its first 500 characters); there is no priority; the source is "GitHub" |
| GitHub.GitHubItems | src/providers/github.rs:73-95 | one item per issue, in order |
| GitHub.IdExample | src/providers/github.rs:73-95 | issue 42 is "#42" |
| Providers.Name | src/providers/linear.rs:103-105 | every provider is called Linear, Trello, Jira or GitHub (the four `name` methods: also trello.rs:67-69, jira.rs:67-69, github.rs:43-45) |
| Providers.NamesDistinct | src/providers/trello.rs:67-69 | different kinds of provider have different names (over the four `name` methods: also linear.rs:103-105, jira.rs:67-69, github.rs:43-45) |
| Providers.CreateProviders | src/providers/mod.rs:18-42 | the pushes give one provider per present section, in the order Linear, Trello, Jira, GitHub |
| Providers.Created | src/providers/mod.rs:18-42 | the reference list of providers; no contract of its own, its properties are `OnePerSection`, `FixedOrder`, `CreatedFromSections` and `NoSectionsNoProviders` |
| Providers.OnePerSection | src/providers/mod.rs:18-42 | as many providers as sections present |
| Providers.FixedOrder | src/providers/mod.rs:18-42 | the providers come in strictly increasing factory order, so no kind repeats |
| Providers.CreatedFromSections | src/providers/mod.rs:18-42 | a kind of provider is there exactly when its section is, built from that section's settings |
| Providers.NoSectionsNoProviders | src/providers/mod.rs:18-42 | an empty configuration gives no providers |
| Cli.AddArgs | src/cli.rs:99-131 | no arguments is the usage text; other errors are the missing flag value or the empty title; a title is never empty |
| Cli.ParseAddArgs | src/cli.rs:99-131 | the loop over the arguments computes the reference reading |
| Cli.ScanFailsOnlyOnMissingValue | src/cli.rs:99-131 | scanning can only fail on a flag without a value |
| Cli.ScanConcat | src/cli.rs:99-131 | arguments can be scanned in pieces |
| Cli.Scanned | src/cli.rs:99-131 | the reference reading of the arguments, recursive where the code loops; no contract of its own, its properties are `ScanFailsOnlyOnMissingValue`, `ScanConcat` and the examples, and `ParseAddArgs` is proved equal to it |
| Cli.PlainWords | src/cli.rs:99-131 | words without flags are all title words |
| Cli.TitleIsJoinedWords | src/cli.rs:99-131 | without flags the title is the words joined by spaces |
| Cli.FlagBetweenWords | src/cli.rs:99-131 | a flag between words takes the next argument as the description, and the rest are title words |
| Cli.LastDescriptionWins | src/cli.rs:99-131 | a later description flag replaces an earlier one |
| Cli.TrailingFlagFails | src/cli.rs:99-131 | a flag at the end is a missing value |
| Cli.SingleTitleExample | src/cli.rs:155-242 | one argument is the title, without description |
| Cli.DescriptionFlagExamples | src/cli.rs:155-242 | -d, --desc and --description each take a description |
| Cli.FlagAfterTitle | src/cli.rs:155-242 | a title then a flag and value give both |
| Cli.ErrorExamples | src/cli.rs:155-242 | no arguments, only a description and a dangling flag are errors |
| Cli.FlagBetweenWordsExample | src/cli.rs:155-242 | "Fix -d 'urgent fix needed' login bug" gives title "Fix login bug" |
| Cli.Grouped | src/cli.rs:43-60 | the positions below k whose name does or does not match the source, increasing |
| Cli.GroupsCover | src/cli.rs:43-60 | the two groups have k positions together |
| Cli.Indices | src/cli.rs:43-60 | the positions 0 to n-1 |
| Cli.ProviderOrder | src/cli.rs:43-60 | the loops compute the order of attempts |
| Cli.Order | src/cli.rs:43-60 | the order of attempts as a value; no contract of its own, `OrderIsPermutation` and `MappedProvidersFirst` state it, and `ProviderOrder` is proved equal to it |
| Cli.Group | src/cli.rs:43-60 | the loop collects one group |
| Cli.OrderIsPermutation | src/cli.rs:43-60 | every provider is tried exactly once |
| Cli.GroupsHoldAll | src/cli.rs:43-60 | every provider is in the order when a source is mapped |
| Cli.GroupsDistinct | src/cli.rs:43-60 | no provider is tried twice when a source is mapped |
| Cli.MappedProvidersFirst | src/cli.rs:43-60 | providers matching the mapped source come first, and each group keeps configuration order |
| Cli.FirstCreatorWins | src/cli.rs:62-79 | the first provider in order that creates the new task is the one that counts |
| Cli.Tried | src/cli.rs:62-87 | trying the providers in order; no contract of its own, `FirstCreatorWins` and `LastErrorReported` state its outcome |
| Cli.LastErrorReported | src/cli.rs:62-87 | when none creates it, the last failure is reported, or "no provider supports task creation" when none failed |
| Cli.LastFailureOfTail | src/cli.rs:62-79 | a later failure overrides an earlier one |
| Cli.HandleAdd | src/cli.rs:7-90 | the handler returns the parse error, "no providers" when none are configured, or the outcome of trying them in order |
| Cli.TryProviders | src/cli.rs:62-86 | the provider loop gives `Tried`: the first provider that creates the task wins; otherwise the last error, or "no provider supports task creation" when none failed |
| Text.Trim | src/app.rs:300 | `str::trim`, as used for the message after "@name" (also app.rs:234, app.rs:422, github.rs:78, trello.rs:166): the text with blank text removed at each end and nothing else (`IsBlankTrimmed`); empty exactly for blank text, and otherwise starting and ending with non-whitespace |
| Text.BlankAround | src/app.rs:300 | a middle part with only blank text before and after it is a blank-trimming of the text |
| Text.TrimmedIsBlankTrimmed | src/app.rs:300 | trimming both ends removes only blank text, and gives nothing exactly for blank text |
| Text.BlankIffTrimmedEmpty | src/app.rs:234 | `input.trim().is_empty()` holds exactly when every character is whitespace |
| Text.Take | src/providers/trello.rs:146-180 | the first n characters, or all of them |
| Text.Join | src/util/adf.rs:4-27 | joining nothing is empty and one part is itself |
| Text.JoinSnoc | src/util/adf.rs:4-27 | joining one more part adds the separator and the part |
| Text.LowerAscii | src/providers/trello.rs:137-145 | lower-casing keeps the length, turns each upper-case ASCII letter into the same lower-case letter and keeps every other character |
| Text.NatToString | src/providers/github.rs:73-95 | a number prints as decimal digits without a leading zero |
| Text.DecimalRoundTrip | src/providers/github.rs:73-95 | parsing the printed number gives it back |
| Text.NatToStringInjective | src/providers/github.rs:73-95 | distinct numbers print differently |
| Controller.ReleasedIn | src/app.rs:608-619 | releasing replaces that agent with a fresh record and no other |
| Controller.RetriedIn | src/app.rs:622-672 | counting a retry changes only that agent |
| Controller.FinishedIn | src/app.rs:174-189 | a successful exit marks only that agent Done |
| Controller.FailedIn | src/app.rs:174-189 | a failed exit marks only that agent Error |
| Controller.Names | src/app.rs:608-619 | exactly the agents in the given status |
| Controller.NamesOfStatus | src/app.rs:608-619 | in a well-formed registry, an agent is listed exactly when its record has the status |
| Controller.ReleasedAll | src/app.rs:608-619 | releasing a list changes only listed agents, to fresh records |
| Controller.ReleaseEvents | src/app.rs:608-619 | one "released" event per released agent |
| Controller.ReleasedAllEffect | src/app.rs:608-619 | a listed agent ends fresh and any other is unchanged |
| Controller.ReleasingDoneAgents | src/app.rs:608-619 | the first step of a tick frees exactly the Done agents, leaves none Done, and keeps the invariants |
| Controller.RetryPolicy | src/app.rs:622-672 | a failed agent's retry is counted; past the bound it is released with "max retries"; within it the retry is logged; a lost item releases the agent, a held one is dispatched again |
| Controller.RetryStep | src/app.rs:631-670 | one iteration of the retry loop; no contract of its own, `RetryPolicy` states it |
| Controller.RetriedAll | src/app.rs:622-672 | the retry loop over the agents in Error, in order; no contract of its own, `RetriedAllKeeps` states what it keeps and `App.RetryEach` is proved equal to it |
| Controller.FirstUnclaimed | src/app.rs:679-713 | the first backlog item not yet claimed, none exactly when all are claimed |
| Controller.AutoDispatched | src/app.rs:679-713 | the reference definition of `auto_dispatch`, terminating because each round claims one more id; no contract of its own, its properties are `AutoDispatchStops`, `AutoDispatchClaims`, `AutoDispatchNeverRepeats` and `AutoDispatchKeeps` |
| Controller.FirstUnclaimedFrom | src/app.rs:679-713 | the search finds the first unclaimed position from k on |
| Controller.InProgressFlash | src/app.rs:868-882 | only a failed move changes the flash: an item without a tracker id, from an unconfigured tracker, or moved successfully leaves it alone; a failure gives "Failed to move <id> …" ending with the tracker's error |
| Controller.Round | src/app.rs:679-713 | a round claims the item and logs "dispatched" first, then only that item's events |
| Controller.ClaimShrinksBacklog | src/app.rs:679-713 | each claim makes the unclaimed backlog smaller, so auto-dispatch ends |
| Controller.AutoDispatchStops | src/app.rs:679-713 | auto-dispatch stops only when no agent is idle or every item is claimed |
| Controller.AutoDispatchClaims | src/app.rs:679-713 | auto-dispatch only adds claims, and only of backlog items |
| Controller.AutoDispatchClaimsFreshItems | src/app.rs:679-713 | auto-dispatch only appends events, and each "dispatched" event is for an item unclaimed before it |
| Controller.RoundClaimsFresh | src/app.rs:679-713 | a round claims an unclaimed item |
| Controller.FreshClaimsExtend | src/app.rs:679-713 | fresh claims compose across rounds |
| Controller.AutoDispatchNeverRepeats | src/app.rs:679-713 | no item is dispatched twice in one auto-dispatch |
| Controller.AutoDispatchKeeps | src/app.rs:679-713 | auto-dispatch keeps the registry well formed and leaves no agent Done |
| Controller.RetriedAllKeeps | src/app.rs:622-672 | the retry loop keeps the registry well formed and leaves no agent Done |
| Controller.TickReconciles | src/app.rs:605-677 | after a tick the registry is well formed with no agent Done; claims only grow; manual mode claims nothing; in auto mode either no agent is idle or the whole backlog is claimed |
| Controller.Ticked | src/app.rs:605-677 | the reference definition of `handle_tick`; no contract of its own, `TickReconciles`, `ReleasingDoneAgents` and `FinishedAgentIsReleasedNextTick` state it, and `App.HandleTick` is proved equal to it |
| Controller.FirstHolder | src/app.rs:908-921 | the first agent holding the item, or none exactly when no agent does |
| Controller.AssignedAgent | src/app.rs:908-921 | `assigned_agent`; no contract of its own, `AssignedAgentHoldsItem` states it |
| Controller.AssignedAgentHoldsItem | src/app.rs:908-921 | the assigned agent holds the item, and none is assigned exactly when no agent holds it |
| Controller.DispatchedItemIsAssigned | src/app.rs:908-921 | after a dispatch, the item has an assigned agent |
| Controller.DoneFlash | src/app.rs:884-906 | an item outside the configured trackers leaves the flash alone; otherwise the outcome is reported: "<id> moved to done" on success, "Failed to move <id> …" ending with the tracker's error on failure |
| Controller.FinishedAgentIsReleasedNextTick | src/app.rs:174-189 | a successful exit marks the agent Done with its item, and the next tick releases it |
| Controller.FailedAgentIsInError | src/app.rs:174-189 | a failed exit marks the agent Error "Process failed" without a pid and keeps its retry count |
| Controller.Exited | src/app.rs:174-189 | the registry after an exit: reloaded, then the agent marked Done or Error "Process failed"; no contract of its own, `FinishedAgentIsReleasedNextTick` and `FailedAgentIsInError` state it |
| Controller.Reloaded | src/agents/store.rs:154-161 | what `reload` leaves in memory; no contract of its own, `AgentStore.Store.Reload` is proved to leave it |
| Controller.CompleteFirst | src/app.rs:266-278 | some listed name that strictly extends the partial text, or none exactly when no listed name does |
| Controller.CompletionIsFirst | src/app.rs:271-276 | the completion is the first listed name that strictly extends the text: any extending name is it or comes after it |
| Controller.Autocompleted | src/app.rs:266-278 | completion needs a leading '@' and a name strictly longer than the partial text |
| Controller.AutocompletedIsFirst | src/app.rs:266-278 | Tab completes to the first agent of the pool, in `ALL` order, whose name strictly extends what follows the '@' |
| Controller.CompletionAddressesAgent | src/app.rs:266-278 | the completed buffer extends the old one and addresses the completed agent in all three parsers |
| Controller.CompletedBufferAddresses | src/app.rs:266-278 | "@name " is recognised as addressing name, with no message |
| Controller.CompletionPicksFirst | src/app.rs:266-278 | "@" completes to Ember |
| Controller.CompletionOfTe | src/app.rs:266-278 | "@te" completes to Tempest |
| Controller.CompletionOfTer | src/app.rs:266-278 | "@ter" completes to Terra |
| Controller.CompletionOfFullName | src/app.rs:266-278 | a complete name is not completed again |
| Controller.MessageTarget | src/app.rs:290-322 | the first agent whose name is followed by a space or the end |
| Controller.ParseAgentMessage | src/app.rs:290-322 | the parse of "@name message"; no contract of its own, `ParseFindsDetectedAgent`, `ParsedAfterName` and `TargetsAgree` state it |
| Controller.Classify | src/app.rs:290-322 | a message exactly when the rest is not blank, trimmed |
| Controller.ParseFindsDetectedAgent | src/app.rs:290-322 | the message parser finds an agent exactly when the command bar detects one, and splits off its trimmed message |
| Controller.DetectedParse | src/app.rs:290-322 | once the command bar detects an agent, the parser classifies what follows its name: no message when it is blank, else the trimmed message |
| Controller.ParsedAfterName | src/app.rs:290-322 | the parse classifies what follows the name |
| Controller.TargetsAgree | src/app.rs:290-322 | the message parser and the command bar agree on the agent |
| Controller.DetectedIsExtracted | src/ui/command_bar.rs:59-76 | an agent detected by the command bar is the one the chat panel extracts |
| Controller.DetectorsDiffer | src/ui/chat_panel.rs:121-132 | "@flowx" is Flow to the chat panel but no agent to the command bar and the parser |
| Controller.StaleSelectionAfterEmptyLoad | src/app.rs:160-166 | row 3 stays selected after an empty reload, past the end of the one-item backlog a new task gives |
| Controller.SelectionAfterLoadAsWritten | src/app.rs:160-166 | the clamp as written, which skips an empty backlog; no contract of its own, `StaleSelectionAfterEmptyLoad` exhibits the stale selection and `SelectionAfterLoad` agrees with it on a non-empty backlog |
| Controller.SelectionAfterLoad | src/app.rs:160-166 | the clamped selection is valid, unchanged when already valid, and as the source's when the backlog is not empty |
| Controller.SelectionStaysValid | src/app.rs:202-210 | a valid selection survives an added task and indexes a non-empty backlog |
| Controller.Inserted | src/app.rs:254-257 | with the cursor counted in characters, typing puts the character at the cursor, around the rest of the buffer |
| Controller.Deleted | src/app.rs:238-243 | with the cursor counted in characters, backspace removes the character before the cursor |
| Controller.DeleteUndoesInsert | src/app.rs:221-264 | backspace undoes typing |
| Controller.ReleaseLoopStep | src/app.rs:608-619 | one iteration of the release loop extends both the registry and the log |
| Controller.RetryLoopStep | src/app.rs:622-672 | one iteration of the retry loop extends both the registry and the log |
| Controller.RoundLogged | src/app.rs:679-713 | a round's events are appended after the earlier ones |
| Controller.ClearedEvent | src/app.rs:757-797 | a "cleared" event for the agent and its item |
| Controller.ManualDispatchClaims | src/app.rs:715-755 | an empty backlog does nothing, and no idle agent gives "All agents busy" |
| Controller.HandDispatchClaims | src/app.rs:715-755 | a manual dispatch claims the item, logs "dispatched" and reports success or the failure |
| Controller.HandDispatchIgnoresClaims | src/app.rs:715-755 | dispatching by hand works even for an item already claimed |
| Controller.SelectedDispatched | src/app.rs:715-755 | the reference definition of `dispatch_selected`; no contract of its own, `ManualDispatchClaims` and `HandDispatchClaims` state it |
| Controller.HandDispatched | src/app.rs:721-751 | the free-agent half of `dispatch_selected`; no contract of its own, `HandDispatchClaims` and `HandDispatchIgnoresClaims` state it |
| Controller.ClearingIdleOnlyFlashes | src/app.rs:757-797 | clearing an idle agent only says it is already idle |
| Controller.ClearingFreesAgentAndItem | src/app.rs:757-797 | clearing frees the agent and unclaims its item only, logs "cleared", and signals the process exactly when Working |
| Controller.ClearedAgent | src/app.rs:757-797 | the reference definition of `clear_agent`; no contract of its own, `ClearingIdleOnlyFlashes` and `ClearingFreesAgentAndItem` state it |
| Controller.KeyEdited | src/app.rs:221-264 | with the cursor counted in characters, it stays in the buffer; Escape and Enter close the input, empty the buffer and put the cursor at 0; Left and Right move the cursor by one within the buffer and keep the text; Backspace removes the character before the cursor, and does nothing at 0; a character is inserted at the cursor, which moves past it; keys the input does not handle change nothing |
| Controller.Submitted | src/app.rs:221-264 | Enter submits the buffer exactly when it is not blank |
| Controller.TypingThenBackspace | src/app.rs:221-264 | a typed character goes in at the cursor, and backspace then restores the input |
| Controller.BackspaceDeletesBeforeCursor | src/app.rs:238-243 | with the cursor counted in characters, backspace at column 0 does nothing, and otherwise removes the character before the cursor |
| InputBytes.CharAtIsBoundary | src/app.rs:238-257 | a byte offset starts a character exactly when some prefix of the text has that many UTF-8 bytes, which is what `String::insert` and `String::remove` demand of their index |
| InputBytes.KeyEditedAsWritten | src/app.rs:221-264 | with the cursor a byte offset that each key moves by one, only Backspace and typing can panic, and typing succeeds exactly at a character boundary |
| InputBytes.NonAsciiEditPanics | src/app.rs:238-257 | "é" then "x" panics, and so does "é", Right, Backspace, where the character cursor gives "éx" and deletes the "é" |
| InputBytes.AsWrittenAgreesOnAscii | src/app.rs:221-264 | on ASCII text the code as written and the character cursor give the same input for every key |
| InputKeys.InInputAsWritten | src/app.rs:151-157 | a key press in the command bar, as the code handles it: the mapped key goes to the input handler, Quit quits in any mode; the cursor stays within the buffer |
| InputKeys.ShortcutsLostInInput | src/event.rs:51-57 | in the command bar, as written, 'q' quits, the other shortcut characters leave the input unchanged, and every other character is inserted at the cursor |
| InputKeys.PlainAppendedAsWritten | src/app.rs:254-257 | as written, a plain character typed at the end of the input is appended |
| InputKeys.ShortcutLostAsWritten | src/app.rs:262 | as written, a shortcut character other than 'q' typed in the command bar is dropped |
| InputKeys.PlainsAppendedAsWritten | src/app.rs:254-257 | as written, three plain characters typed at the end of the input are appended |
| InputKeys.TerraStartTyped | src/event.rs:40-62 | "@te", the start of "@terra", is appended |
| InputKeys.RefreshLettersLost | src/event.rs:54 | of "rra", both 'r's are taken as Refresh and dropped, and the 'a' is appended |
| InputKeys.TerraCannotBeTyped | src/event.rs:54 | typing "@terra" at the end of the input gives "@tea" |
| InputKeys.QuitEndsTyping | src/app.rs:215-217 | typing "quit" in the command bar quits the program at the first letter |
| InputKeys.ModalKeyToAction | src/event.rs:40-62 | the mode-aware key map: `key_to_action` outside the command bar, every character as text inside it (Ctrl-C still quits), and unchanged for every key that is not a shortcut character |
| InputKeys.InInput | src/app.rs:151-157 | a key press in the command bar with the mode-aware map; the cursor stays within the buffer |
| InputKeys.OnlyShortcutsChange | src/event.rs:40-62 | the mode-aware map handles every key except the shortcut characters as the code does |
| InputKeys.CharactersTyped | src/app.rs:254-257 | with the mode-aware map, every plain character is inserted at the cursor |
| InputKeys.Typed | src/app.rs:254-257 | typing text with the mode-aware map keeps the cursor within the buffer |
| InputKeys.TypingAppends | src/app.rs:254-257 | with the mode-aware map, typing any text at the end of the input appends exactly that text |
| InputKeys.AgreesWithoutShortcuts | src/event.rs:40-62 | on text with no shortcut character, the code and the mode-aware map type the same |
| InputKeys.TerraTyped | src/event.rs:54 | with the mode-aware map, "@terra" types as itself |
| Controller.TabCompletes | src/app.rs:221-278 | Tab completes "@partial" to "@name " and the result addresses that agent |
| Controller.UnknownAgentGetsHint | src/app.rs:290-322 | an unknown agent gets the list of agents |
| Controller.BlankMessageGetsHint | src/app.rs:290-322 | an empty message asks for one |
| Controller.MessageGoesToAddressedAgent | src/app.rs:290-375 | a message is sent to the addressed agent, trimmed |
| Controller.ReplyToAgent | src/app.rs:324-375 | the user's line is shown, a response is awaited, "user-message" is logged, and the request goes to that agent with that message |
| Chat.UserMessage | src/model/chat.rs:18-24 | a message from the user, with the given text and the clock's time |
| Chat.AgentMessage | src/model/chat.rs:26-32 | a message from the named agent, with the given text and the clock's time |
| Chat.SystemMessage | src/model/chat.rs:34-40 | a system message, with the given text and the clock's time |
| Controller.ReplyTo | src/app.rs:324-375 | the reply to a parsed message for an agent; no contract of its own, `ReplyToAgent`, `MessageGoesToAddressedAgent` and `FeedbackOnlyWhenNotWorking` state it |
| Controller.AgentMessageReply | src/app.rs:288-418 | the reference definition of `process_agent_message`; no contract of its own, `UnknownAgentGetsHint`, `BlankMessageGetsHint` and `MessageGoesToAddressedAgent` state it |
| Controller.FeedbackOnlyWhenNotWorking | src/app.rs:324-375 | a Done or Error agent gets feedback on its task; a Working one gets a busy notice; any other a plain message |
| Controller.App.ReleaseEach | src/app.rs:608-619 | the release loop gives `ReleasedAll` and logs its events |
| Controller.App.RetryEach | src/app.rs:622-672 | the retry loop gives `RetriedAll` and logs its events |
| Controller.App.AutoDispatch | src/app.rs:679-713 | the loop gives `AutoDispatched` and logs its events |
| Controller.App.HandleTick | src/app.rs:605-677 | a tick gives `Ticked` from the reloaded registry and logs its events |
| Controller.App.Reconcile | src/app.rs:607-676 | the tick after the reload gives `Reconciled` from the registry as reloaded and logs its events |
| Controller.App.RetryThenDispatch | src/app.rs:622-676 | the auto-mode half of a tick gives `AutoPhase`: the retries' events, then the auto-dispatch's |
| Controller.App.ClearAgent | src/app.rs:757-797 | clearing gives `ClearedAgent`, with its signals and events |
| Controller.App.DispatchSelected | src/app.rs:715-755 | the manual dispatch gives `SelectedDispatched` |
| Controller.App.HandDispatch | src/app.rs:721-751 | a dispatch to a free agent claims the item and gives `HandDispatched`: registry, claims, flash and logged events |
| Controller.App.MoveToInProgress | src/app.rs:868-882 | the flash after moving an item to in progress is `InProgressFlash`: the first provider of the item's source is asked, and only a failure changes the flash |
| Controller.App.MoveToDone | src/app.rs:884-906 | the flash after moving an item to done is `DoneFlash`: the first provider of the item's source is asked, and the outcome is reported |
| Controller.App.ProcessExited | src/app.rs:174-189 | an exit reloads the registry, marks the agent and sets the flash |
| Controller.App.PollAgents | src/app.rs:171-173 | the registry becomes `Reloaded` (re-read, stale processes cleaned, saved); a failed read changes nothing |
| Controller.App.LoadItems | src/app.rs:160-166 | a reload takes the new backlog and the corrected selection |
| Controller.App.TaskCreated | src/app.rs:202-210 | a new task is announced, appended, and hinted at in manual mode |
| Controller.App.HandleInputKey | src/app.rs:221-264 | a key edits the input as `KeyEdited` says and submits as `Submitted` says |
| Controller.App.EditAtCursor | src/app.rs:238-257 | Backspace, Left, Right and a character change the buffer and the cursor as `KeyEdited` says |
| Controller.App.Autocomplete | src/app.rs:266-278 | completion sets the buffer to "@name " with the cursor at the end, or leaves it |
| Controller.App.ProcessAgentMessage | src/app.rs:288-418 | the message gives `AgentMessageReply`: the chat lines, the waiting flag, the events and the request |
| Controller.App.SendToAgent | src/app.rs:324-375 | the message, once parsed for an agent, gives `ReplyTo`: the chat lines, the waiting flag, the "user-message" event and the request |

## Left out

- HTTP, GraphQL and JSON transport to the trackers and serde decoding are not modelled. Decoded records
  are inputs; the tracker calls that move items are `World` oracles.
- The create-task calls of the providers are not modelled. `Cli.HandleAdd` takes each provider's attempt
  as an oracle.
- Trello's per-board list and board fetch loop is not modelled. The fetched lists and boards are maps
  given to `Trello.TrelloItems`.
- Starting git and `claude` as processes, and the kill and SIGTERM calls, are not modelled. Their
  outcomes are `Steps` and `World.alive`; the pids sent SIGTERM are the `signalled` field.
- Concurrency is not modelled: the monitor task, the event loop's `select`, the channels and the spawned
  chat tasks. `Dispatch.Monitored` models what the monitor reports once the process exits.
  `Controller.App.ProcessAgentMessage` stops at the request it would spawn.
- File persistence is an abstract `Disk` and the log's line list. Paths, directories, permissions and the
  JSON encoding of the registry are not modelled.
- Time is `World.now`. Flash expiry is not modelled, since it depends on `Instant`.
- Rendering is not modelled (ui/ beyond the two parsers and the cursor column).
- Of `update`, the arms `FetchError`, `AgentResponse`, `AgentResponseError`, `TaskCreateError` and `Quit`
  are not modelled: the first four only set the flash message, the chat or the waiting flag, and `Quit`
  sets `should_quit`, which only the event loop reads. `PollAgents` is `Controller.App.PollAgents`.
- Controller.App.LoadItems: the `loading` flag, which `WorkItemsLoaded` and `FetchError` clear
  (app.rs:162, app.rs:167), is not a field of `App`; it only affects rendering.
- `process_task_creation` is not modelled: it forwards to the task-creation calls.
- `handle_key` (board navigation and the Up/Down selection) is not modelled.
- Config loading is not modelled. In `handle_add`, the `set_board_filter` loop and the printing are not
  modelled.
- `claude_md.rs` and `message.rs` are not part of this model.
- Controller.App.MoveToInProgress and Controller.App.MoveToDone: the flash texts of a failed move are
  modelled; the tracker call is an oracle.
- Controller.App.HandleTick: `MAX_RETRIES` comes from `agents/retry.rs`, which is not part of this model. It is a parameter of `App` (`maxRetries`).
- Branch.BranchName and Branch.WorktreePath carry no `ensures` of their own. Their properties are the
  lemmas beside them.
- Branch.BranchName: the 8-character id prefix is cut by characters, where branch.rs:15 slices bytes.
  These differ only for a non-ASCII id, on which the code can also panic when the cut falls inside a
  character. The ids of the trackers are ASCII.
- Controller.Inserted: the cursor is counted in characters. The code passes a cursor that every
  keystroke moves by one to `String::insert` (app.rs:255), which takes a byte offset, so typing after a
  non-ASCII character panics. `InputBytes.KeyEditedAsWritten` models the code; see Findings.
- Controller.Deleted: the same for `String::remove` at app.rs:241: as written, Backspace after a
  non-ASCII character can panic or remove a different character.
- Controller.KeyEdited: the cursor is counted in characters. The code bounds `Right` by the byte length
  (app.rs:250) and edits at byte offsets, so on non-ASCII text its cursor can stop inside a character
  and the next edit panics. `InputBytes.AsWrittenAgreesOnAscii` shows that the two agree on ASCII text.
- Controller.BackspaceDeletesBeforeCursor: holds for the character cursor only. As written, "é", Right
  and Backspace panics (`InputBytes.NonAsciiEditPanics`).
- Controller.App.HandleInputKey: follows `KeyEdited`, so `Valid`'s bound `inputCursor <= |inputBuffer|`
  counts characters. The code's cursor is a byte offset that can fall inside a character.
- Controller.App.EditAtCursor: inserts and removes at the character position `inputCursor`, where
  `String::insert` and `String::remove` (app.rs:255, app.rs:241) take byte offsets.
- Chat.UserMessage: the timestamp is a parameter, as for `Chat.AgentMessage` and `Chat.SystemMessage`.
  The code reads the clock and formats it as `%H:%M:%S` (chat.rs:22, 30, 38); that formatting is not modelled.
- AgentStore.Store.Save: writing `agents.json` never fails in the model. The code's `save` can fail to
  create the directory, to serialise or to write the file (store.rs:44-51).
- AgentStore.Store.UpdateAgent: the error of `self.save()?` (store.rs:80) is not modelled. In the code
  every `mark_*`, `release` and `increment_retry` can return an I/O error after the record in memory
  has already changed.
- AgentStore.Store.IncrementRetry: the save error is not modelled. At app.rs:632, `unwrap_or(0)` turns
  it into a count of 0, so while saves fail an agent in Error is redispatched on every tick without
  bound. In the model the count is 0 only for an agent missing from the registry.
- AgentStore.Store.IncrementRetry: the retry count is a `nat`. The code's `retry_count` is a `u32`, and
  `retry_count += 1` (store.rs:142) would overflow after 2^32 retries; the model does not capture that.
- ActivityLog.Log.Append: a failed append is not modelled. `append_event` can fail to create the
  directory, to open the file, to serialise or to write (log.rs:26-38). Every caller discards the result
  with `let _ =` (dispatch.rs:27, 83, 98, 109, 120; app.rs:369, 563, 591, 617, 634, 663, 784), so a
  failure only loses that line of the log; the registry and the rest of the operation go on as modelled.
- Dispatch.DispatchItem: a failed save in `mark_provisioning` (dispatch.rs:26) ends the dispatch with
  "Dispatch failed: <the I/O error>" before any git step runs. A failed save in `mark_working`
  (dispatch.rs:82) fails the dispatch after the process was spawned. Neither is modelled.
- Trello.Kept: `to_lowercase` is modelled as ASCII lower-casing. This is exact for the excluded names
  "done" and "in review", but not for other Unicode letters.
- Trello.CardToItem: the 8-character id is cut by characters, where the code slices bytes; these differ
  only for non-ASCII ids. The 500-character description cut counts characters, as the code does.
- The mappings in `fetch_items` do not set `source_id`, and the model's items carry `None` there. The
  tracker moves in `move_item_to_in_progress` and `move_item_to_done` act only on items that carry a
  source id, which come from elsewhere.
- CommandBar.Wrap and CommandBar.CursorColumn: the `u16` arithmetic wraps, as a release build does. A
  debug build panics when `area.x + 1 + cursor as u16` overflows (command_bar.rs:54), and when
  `area.x + area.width - 2` underflows because the sum is below 2 (command_bar.rs:56); the model does not
  capture the panics. `cursor as u16` truncates the cursor in both builds, as the model does.

## Findings

| source | as written | input that shows it | evidently intended | confidence | as-written member | corrected member |
|---|---|---|---|---|---|---|
| src/app.rs:160-166 | `WorkItemsLoaded` clamps `selected_item` only when the new backlog is non-empty, so an empty reload keeps a stale row; `dispatch_selected` (src/app.rs:715-719) then indexes `items[selected_item]` | select row 3 (index 2), reload an empty backlog, receive `TaskCreated`: one item, selection 2, and `d` indexes past the end | the selection is always a row of the backlog, or 0 when it is empty | not executed | Controller.SelectionAfterLoadAsWritten, Controller.StaleSelectionAfterEmptyLoad | Controller.SelectionAfterLoad, Controller.SelectionStaysValid |
| src/app.rs:238-257 | `handle_input_key` moves `input_cursor` by one per keystroke, but passes it to `String::insert` and `String::remove`, which take byte offsets, and bounds `Right` by the byte length | type "é" then "x": `insert(1, 'x')` falls inside the two bytes of "é" and panics; or "é", Right, Backspace: the cursor reaches 2 and `remove(1)` panics | the cursor is a character position, every edit lands on a character boundary, and no key panics | not executed | InputBytes.KeyEditedAsWritten, InputBytes.NonAsciiEditPanics | Controller.KeyEdited, Controller.TypingThenBackspace |
| src/agents/dispatch.rs:26-82 | every `?` after `mark_provisioning` returns the error without `mark_error`, so a failed git step, context-file write, log-file creation or spawn leaves the agent Provisioning, with no process and holding its item; no tick recovers it: stale cleanup only looks at records with a pid, only Done agents are released, only Error agents are retried, and auto-dispatch only takes Idle agents | auto mode, the fetch of `origin main` fails: the agent stays Provisioning with the item on every later tick, and the item stays claimed | a failed dispatch marks the agent Error with the failure's message, so the retry policy dispatches it again or releases it | not executed | DispatchFailure.StuckProvisioningSurvivesTick, DispatchFailure.StuckProvisioningHoldsItem | DispatchFailure.DispatchedOnCorrected, DispatchFailure.FailedDispatchIsError, DispatchFailure.FailedDispatchIsRetried |
| src/event.rs:51-57 | `key_to_action` maps the characters q, d, m, r, c, x and ':' to commands before the mode is known; in the command bar `update` passes the key actions to `handle_input_key` (src/app.rs:151-157), whose `_ => {}` (src/app.rs:262) drops them, and `Quit` quits in any mode (src/app.rs:215-217) | in the command bar, type "@terra" at the end of the input: it reads "@tea"; type "quit": the program ends at the 'q' | every character typed in the command bar is text; the shortcuts act only outside it | not executed | InputKeys.ShortcutsLostInInput, InputKeys.TerraCannotBeTyped, InputKeys.QuitEndsTyping | InputKeys.ModalKeyToAction, InputKeys.TypingAppends, InputKeys.OnlyShortcutsChange |
