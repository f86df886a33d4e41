/** The chat panel's messages. Timestamps come from the clock and are parameters here. */
module Chat {
  import opened Agents

  datatype ChatSender = User | AgentSender(name: AgentName) | System

  datatype ChatMessage = ChatMessage(sender: ChatSender, text: string, timestamp: string)

  /** `ChatMessage::user` */
  function UserMessage(text: string, now: string): (m: ChatMessage)
    ensures m.sender == User && m.text == text && m.timestamp == now
  {
    ChatMessage(User, text, now)
  }

  /** `ChatMessage::agent` */
  function AgentMessage(name: AgentName, text: string, now: string): (m: ChatMessage)
    ensures m.sender == AgentSender(name) && m.text == text && m.timestamp == now
  {
    ChatMessage(AgentSender(name), text, now)
  }

  /** `ChatMessage::system` */
  function SystemMessage(text: string, now: string): (m: ChatMessage)
    ensures m.sender == System && m.text == text && m.timestamp == now
  {
    ChatMessage(System, text, now)
  }
}
