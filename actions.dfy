/** The messages the controller processes one at a time, and the key actions they carry. */
module Actions {
  import opened Agents
  import opened WorkItems

  /** `KeyAction`: a key press after the global key mapping. */
  datatype KeyAction =
    | Up | Down | Left | Right
    | Select | Escape
    | Dispatch | ToggleAutoMode | Refresh | ClearAgent | ClearLogs | ActivateInput
    | Char(c: char)
    | Backspace | Tab

  /** `Action` */
  datatype Action =
    | Key(key: KeyAction)
    | Tick
    | WorkItemsLoaded(items: seq<WorkItem>)
    | FetchError(message: string)
    | PollAgents
    | AgentProcessExited(agent: AgentName, success: bool)
    | AgentResponse(responder: AgentName, response: string)
    | AgentResponseError(failed: AgentName, error: string)
    | TaskCreated(item: WorkItem)
    | TaskCreateError(reason: string)
    | Quit
}
