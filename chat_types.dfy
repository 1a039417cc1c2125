/** The records the chat client, its panels and the chat endpoint exchange. Timestamps and
    ids come from `Date.now()` in the application; here they are plain values supplied by
    the caller. */
module ChatTypes {
  import opened Wrappers

  /** Milliseconds since the epoch, as `Date.now()` returns them. */
  type Timestamp = int

  datatype Role = User | Assistant

  datatype FileAttachment = FileAttachment(id: string, name: string, mimeType: string, size: nat, url: string)

  /** A chat message. The optional `reactions`, `edited` and `attachments` fields of the
      application are an empty map, `false` and an empty list when absent. */
  datatype Message = Message(
    id: string,
    content: string,
    role: Role,
    timestamp: Timestamp,
    model: Option<string>,
    reactions: map<string, nat>,
    edited: bool,
    attachments: seq<FileAttachment>)

  datatype Conversation = Conversation(
    id: string,
    title: string,
    messages: seq<Message>,
    createdAt: Timestamp,
    updatedAt: Timestamp)

  datatype Theme = Light | Dark | Auto

  /** Chat settings. `model` is a string because settings are read back from storage as
      untyped JSON; the settings dialog only ever writes "grok" or "groq". The temperature is
      carried through unchanged and never computed with. */
  datatype Settings = Settings(
    model: string,
    temperature: real,
    maxTokens: int,
    systemPrompt: string,
    theme: Theme)

  const DefaultSystemPrompt: string :=
    "You are a helpful, friendly, and knowledgeable AI assistant. Provide clear, accurate, and engaging responses. Be conversational but professional."

  /** The settings the client starts with, the dialog resets to and the endpoint assumes. */
  const DefaultSettings: Settings := Settings("grok", 0.7, 2048, DefaultSystemPrompt, Auto)

  datatype MemoryKind = Personal | Preference | Fact | Context

  datatype Importance = Low | Medium | High

  datatype MemoryItem = MemoryItem(
    id: string,
    kind: MemoryKind,
    title: string,
    content: string,
    tags: seq<string>,
    createdAt: Timestamp,
    updatedAt: Timestamp,
    importance: Importance)

  /** The serialised name of a memory kind. */
  function KindName(k: MemoryKind): string {
    match k
    case Personal => "personal"
    case Preference => "preference"
    case Fact => "fact"
    case Context => "context"
  }
}
