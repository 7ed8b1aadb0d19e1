/** The built-in Qwen tool template as a rendering function, and its selection. */
module QwenTemplate {
  import opened Wrappers
  import opened Text
  import opened Json
  import opened Chat

  const START := "<|im_start|>"
  const END := "<|im_end|>\n"
  datatype Fixed = DefaultSystem | ToolAdvice | CallAdvice

  /** The longer texts the template writes. */
  function FixedText(part: Fixed): string {
    match part
    case DefaultSystem => "You are Qwen, created by Alibaba Cloud. You are a helpful assistant."
    case ToolAdvice =>
      "You may call one or more functions to assist with the user query.\n\nYou are provided with function signatures within <tools></tools> XML tags:"
    case CallAdvice =>
      "\n\nFor each function call, return a json object with function name and arguments within <tool_call></tool_call> XML tags:\n<tool_call>\n{\"name\": <function-name>, \"arguments\": <args-json-object>}"
  }

  function ToolsIntro(advice: string): string { "\n\n# Tools\n\n" + advice + "\n<tools>" }

  function ToolsOutro(advice: string): string { "\n</tools>" + advice + "\n</tool_call><|im_end|>\n" }

  /** A declaration as the template engine serializes it: keys in order. */
  function ToolJson(tool: ToolDefinition): Json {
    var description := match tool.description { case None => [] case Some(d) => [Field("description", String(d))] };
    Object([Field("function", Object(description + [Field("name", String(tool.name)), Field("parameters", tool.parameters)])),
            Field("type", String("function"))])
  }

  function RenderTools(tools: seq<ToolDefinition>): string {
    if tools == [] then [] else "\n" + Print(HtmlSafe, ToolJson(tools[0])) + RenderTools(tools[1..])
  }

  function Header(first: Message, tools: seq<ToolDefinition>): string {
    if tools == [] then []
    else
      START + "\n" + (if first.role.System? then first.content else FixedText(DefaultSystem)) +
      ToolsIntro(FixedText(ToolAdvice)) + RenderTools(tools) + ToolsOutro(FixedText(CallAdvice))
  }

  function RoleName(role: Role): string {
    match role
    case System => "system"
    case User => "user"
    case Assistant => "assistant"
    case Tool => "tool"
  }

  /** The JSON object inside a rendered call. */
  function CallJson(call: ToolCall): string {
    "{\"name\": \"" + call.name + "\", \"arguments\": " + Print(HtmlSafe, call.arguments) + "}"
  }

  function RenderCall(call: ToolCall): string {
    "\n<tool_call>\n" + CallJson(call) + "\n</tool_call>"
  }

  function RenderCalls(calls: seq<ToolCall>): string {
    if calls == [] then [] else RenderCall(calls[0]) + RenderCalls(calls[1..])
  }

  /** An assistant turn between its opening and closing marks. */
  function AssistantBody(m: Message): string {
    if m.toolCalls == [] then "\n" + m.content
    else (if m.content != [] then "\n" + m.content else []) + RenderCalls(m.toolCalls)
  }

  /** One message; `previous` and `next` are the roles around it, if any. */
  function RenderMessage(previous: Option<Role>, m: Message, next: Option<Role>): string {
    match m.role
    case User => START + RoleName(m.role) + "\n" + m.content + END
    case System => if previous.None? then [] else START + RoleName(m.role) + "\n" + m.content + END
    case Assistant => START + "assistant" + AssistantBody(m) + END
    case Tool =>
      (if previous != Some(Tool) then START + "user" else []) +
      "\n<tool_response>\n" + m.content + "\n</tool_response>" +
      (if next != Some(Tool) then END else [])
  }

  function RoleAt(messages: seq<Message>, i: int): Option<Role> {
    if 0 <= i < |messages| then Some(messages[i].role) else None
  }

  function RenderMessages(messages: seq<Message>, from: nat): string
    decreases |messages| - from
  {
    if from >= |messages| then []
    else
      RenderMessage(RoleAt(messages, from - 1), messages[from], RoleAt(messages, from + 1)) +
      RenderMessages(messages, from + 1)
  }

  const GENERATION_PROMPT := "<|im_start|>assistant\n"

  /** The prompt; a request always carries at least one message. */
  function Render(messages: seq<Message>, tools: seq<ToolDefinition>): string
    requires messages != []
  {
    Header(messages[0], tools) + RenderMessages(messages, 0) + GENERATION_PROMPT
  }

  // -------------------------------------------------------------- selection

  datatype SelectError = UnknownTemplate(name: string) | NoToolTemplate

  /** Which explicit template to use; `None` means the one embedded in the model. */
  function Select(names: seq<string>, qwen: bool, requested: Option<string>, hasTools: bool): Result<Option<string>, SelectError> {
    match requested
    case Some(name) => if name in names then Ok(Some(name)) else Err(UnknownTemplate(name))
    case None =>
      if !hasTools then Ok(None)
      else if qwen then Ok(Some("qwen-tools"))
      else Err(NoToolTemplate)
  }

  // ------------------------------------------------------- prefix stability

  /** A message closes the same way at the end of a history and before an assistant turn. */
  lemma ClosesAlike(previous: Option<Role>, m: Message)
    ensures RenderMessage(previous, m, None) == RenderMessage(previous, m, Some(Assistant))
  {
  }

  /** Appending an assistant message leaves the rendering of what came before it
      untouched: a tool result before it closes its turn either way. */
  lemma {:induction false} MessagesStable(m: seq<Message>, a: Message, rest: seq<Message>, from: nat)
    requires from <= |m| && a.role.Assistant?
    ensures RenderMessages(m + [a] + rest, from) == RenderMessages(m, from) + RenderMessages(m + [a] + rest, |m|)
    decreases |m| - from
  {
    hide RenderMessage;
    var all := m + [a] + rest;
    if from < |m| {
      MessagesStable(m, a, rest, from + 1);
      assert all[from] == m[from];
      assert RoleAt(all, from - 1) == RoleAt(m, from - 1);
      assert RoleAt(all, from + 1) == RoleAt(m, from + 1) || from + 1 == |m|;
      ClosesAlike(RoleAt(m, from - 1), m[from]);
    }
  }

  lemma AssistantOpens(previous: Option<Role>, a: Message, next: Option<Role>)
    requires a.role.Assistant?
    ensures GENERATION_PROMPT <= RenderMessage(previous, a, next)
  {
    var body := AssistantBody(a);
    BodyOpens(a);
    var opening := START + "assistant";
    assert opening + "\n" == GENERATION_PROMPT;
    OpensWith(opening, body, END);
  }

  lemma BodyOpens(a: Message)
    ensures AssistantBody(a) != [] && AssistantBody(a)[0] == '\n'
  {
  }

  lemma OpensWith(opening: string, body: string, end: string)
    requires body != [] && body[0] == '\n'
    ensures opening + "\n" <= opening + body + end
  {
  }

  /** The prompt for a conversation is a prefix of the prompt of every continuation
      that starts with an assistant turn, so its cached tokens stay usable. */
  lemma PromptPrefixStable(m: seq<Message>, a: Message, rest: seq<Message>, tools: seq<ToolDefinition>)
    requires m != [] && a.role.Assistant?
    ensures Render(m, tools) <= Render(m + [a] + rest, tools)
  {
    var all := m + [a] + rest;
    MessagesStable(m, a, rest, 0);
    var head := RenderMessage(RoleAt(all, |m| - 1), a, RoleAt(all, |m| + 1));
    AssistantOpens(RoleAt(all, |m| - 1), a, RoleAt(all, |m| + 1));
    PrefixGrows(Header(m[0], tools), RenderMessages(m, 0), GENERATION_PROMPT, head, RenderMessages(all, |m| + 1));
    assert all[0] == m[0];
  }

  lemma PrefixGrows(header: string, body: string, prompt: string, head: string, tail: string)
    requires prompt <= head
    ensures header + body + prompt <= header + (body + (head + tail)) + prompt
  {
    assert head == prompt + head[|prompt|..];
    assert header + (body + (head + tail)) + prompt == header + body + prompt + (head[|prompt|..] + tail + prompt);
  }
}
