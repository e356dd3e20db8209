/** The messages of an agent's conversation, as every component that reads them sees them. */
module Messages {
  import opened Prelude

  /** A tool call's arguments: their serialized text, and the string under `path` if there is one. */
  datatype Args = Args(text: string, path: Option<string>)

  datatype Message =
    | User(text: string)
    | Assistant(text: string)
    | ToolCall(id: string, name: string, args: Args)
    | ToolResult(id: string, name: string, result: string)
    | Reasoning(id: string, encrypted: string)
}
