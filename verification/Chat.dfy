/** Conversation messages, tool declarations and tool calls. */
module Chat {
  import opened Wrappers
  import opened Json

  datatype Role = System | User | Assistant | Tool

  datatype FinishReason = Stop | ToolCalls

  /** A proposed call; every call is of the one kind `function`. */
  datatype ToolCall = ToolCall(id: string, name: string, arguments: Json)

  datatype Message = Message(role: Role, content: string, toolCalls: seq<ToolCall>, toolCallId: Option<string>)

  datatype ToolDefinition = ToolDefinition(name: string, description: Option<string>, parameters: Json)

  predicate Declared(tools: seq<ToolDefinition>, name: string) {
    exists i | 0 <= i < |tools| :: tools[i].name == name
  }

  function CallIds(calls: seq<ToolCall>): (ids: seq<string>)
    ensures |ids| == |calls| && forall i | 0 <= i < |ids| :: ids[i] == calls[i].id
  {
    if calls == [] then [] else [calls[0].id] + CallIds(calls[1..])
  }

  predicate NameChar(c: char) {
    'a' <= c <= 'z' || 'A' <= c <= 'Z' || '0' <= c <= '9' || c == '_' || c == '-'
  }

  predicate ValidName(name: string) {
    name != [] && forall i | 0 <= i < |name| :: NameChar(name[i])
  }
}
