/** Everything a prompt of the built-in template contains, in order and literally. */
module QwenPrompt {
  import opened Wrappers
  import opened Text
  import opened TaggedText
  import opened Json
  import opened Chat
  import opened QwenTemplate

  // ------------------------------------------------------------ tool calls

  /** The text of each call of a turn. */
  ghost predicate CallTexts(calls: seq<ToolCall>, texts: seq<string>) {
    && |texts| == |calls|
    && forall j | 0 <= j < |calls| ::
         texts[j] == "\n<tool_call>\n{\"name\": \"" + calls[j].name + "\", \"arguments\": " + Print(HtmlSafe, calls[j].arguments) + "}\n</tool_call>"
  }

  lemma {:induction false} CallsShow(calls: seq<ToolCall>) returns (texts: seq<string>)
    ensures CallTexts(calls, texts) && RenderCalls(calls) == Concat(texts)
  {
    hide Print;
    if calls == [] {
      texts := [];
    } else {
      var rest := CallsShow(calls[1..]);
      texts := [RenderCall(calls[0])] + rest;
      assert texts[1..] == rest;
      CallShows(calls[0]);
      forall j | 0 < j < |calls| ensures calls[j] == calls[1..][j - 1] && texts[j] == rest[j - 1] {}
    }
  }

  lemma CallShows(call: ToolCall)
    ensures RenderCall(call) ==
            "\n<tool_call>\n{\"name\": \"" + call.name + "\", \"arguments\": " + Print(HtmlSafe, call.arguments) + "}\n</tool_call>"
  {
    hide Print;
    var a, b, c := "{\"name\": \"" + call.name, "\", \"arguments\": ", Print(HtmlSafe, call.arguments);
    assert "\n<tool_call>\n" + "{\"name\": \"" == "\n<tool_call>\n{\"name\": \"";
    assert "}" + "\n</tool_call>" == "}\n</tool_call>";
    Around("\n<tool_call>\n", "{\"name\": \"", call.name, b, c, "}", "\n</tool_call>");
  }

  lemma Around(open: string, a: string, name: string, b: string, c: string, end: string, close: string)
    ensures open + (a + name + b + c + end) + close == (open + a) + name + b + c + (end + close)
  {
  }

  // -------------------------------------------------------------- messages

  /** What one message adds to the prompt, given its neighbours. */
  ghost predicate Shows(messages: seq<Message>, i: nat, block: string)
    requires i < |messages|
  {
    var m := messages[i];
    match m.role
    case User => block == "<|im_start|>user\n" + m.content + "<|im_end|>\n"
    case System => block == if i == 0 then "" else "<|im_start|>system\n" + m.content + "<|im_end|>\n"
    case Tool =>
      block == (if i > 0 && messages[i - 1].role.Tool? then "" else "<|im_start|>user") +
               "\n<tool_response>\n" + m.content + "\n</tool_response>" +
               (if i + 1 < |messages| && messages[i + 1].role.Tool? then "" else "<|im_end|>\n")
    case Assistant =>
      if m.toolCalls == [] then block == "<|im_start|>assistant\n" + m.content + "<|im_end|>\n"
      else exists texts :: CallTexts(m.toolCalls, texts) &&
             block == "<|im_start|>assistant" + (if m.content == "" then "" else "\n" + m.content) + Concat(texts) + "<|im_end|>\n"
  }

  lemma MessageShows(messages: seq<Message>, i: nat)
    requires i < |messages|
    ensures Shows(messages, i, RenderMessage(RoleAt(messages, i - 1), messages[i], RoleAt(messages, i + 1)))
  {
    hide RenderCalls, CallTexts, Concat;
    var m := messages[i];
    match m.role
    case User => RoleLine("user", m.content);
    case System => RoleLine("system", m.content);
    case Assistant =>
      if m.toolCalls == [] {
        RoleLine("assistant", m.content);
        assert "<|im_start|>" + "assistant" == "<|im_start|>assistant";
        TurnLine(m.content);
      } else {
        var texts := CallsShow(m.toolCalls);
        assert "<|im_start|>" + "assistant" == "<|im_start|>assistant";
        TurnText(if m.content == "" then "" else "\n" + m.content, Concat(texts));
      }
    case Tool => assert "<|im_start|>" + "user" == "<|im_start|>user";
  }

  lemma RoleLine(role: string, content: string)
    ensures "<|im_start|>" + role + "\n" + content + "<|im_end|>\n" == ("<|im_start|>" + role + "\n") + content + "<|im_end|>\n"
    ensures "<|im_start|>" + "user" + "\n" == "<|im_start|>user\n" && "<|im_start|>" + "system" + "\n" == "<|im_start|>system\n"
  {
  }

  lemma TurnLine(content: string)
    ensures "<|im_start|>assistant" + ("\n" + content) + "<|im_end|>\n" == "<|im_start|>assistant\n" + content + "<|im_end|>\n"
  {
    assert "<|im_start|>assistant\n" == "<|im_start|>assistant" + "\n";
  }

  lemma TurnText(content: string, calls: string)
    ensures "<|im_start|>assistant" + (content + calls) + "<|im_end|>\n" == "<|im_start|>assistant" + content + calls + "<|im_end|>\n"
  {
  }

  lemma {:induction false} MessagesShow(messages: seq<Message>, from: nat) returns (blocks: seq<string>)
    requires from <= |messages|
    ensures |blocks| == |messages| - from && RenderMessages(messages, from) == Concat(blocks)
    ensures forall i | 0 <= i < |blocks| :: Shows(messages, from + i, blocks[i])
    decreases |messages| - from
  {
    hide Shows, RenderMessage, RoleAt;
    if from == |messages| {
      blocks := [];
    } else {
      var rest := MessagesShow(messages, from + 1);
      MessageShows(messages, from);
      blocks := [RenderMessage(RoleAt(messages, from - 1), messages[from], RoleAt(messages, from + 1))] + rest;
      assert blocks[1..] == rest;
      forall i | 0 <= i < |blocks| ensures Shows(messages, from + i, blocks[i]) {
        if i > 0 {
          assert Shows(messages, from + 1 + (i - 1), rest[i - 1]);
          assert blocks[i] == rest[i - 1];
        }
      }
    }
  }

  // ---------------------------------------------------------------- header

  /** The line each declared tool adds to the header. */
  ghost predicate ToolLines(tools: seq<ToolDefinition>, lines: seq<string>) {
    && |lines| == |tools|
    && forall j | 0 <= j < |tools| ::
         lines[j] == "\n" + Print(HtmlSafe, Object([
           Field("function", Object((if tools[j].description.Some? then [Field("description", String(tools[j].description.value))] else []) +
                                    [Field("name", String(tools[j].name)), Field("parameters", tools[j].parameters)])),
           Field("type", String("function"))]))
  }

  lemma {:induction false} ToolsShow(tools: seq<ToolDefinition>) returns (lines: seq<string>)
    ensures ToolLines(tools, lines) && RenderTools(tools) == Concat(lines)
  {
    hide Print;
    if tools == [] {
      lines := [];
    } else {
      var rest := ToolsShow(tools[1..]);
      lines := ["\n" + Print(HtmlSafe, ToolJson(tools[0]))] + rest;
      assert lines[1..] == rest;
      forall j | 0 < j < |tools| ensures tools[j] == tools[1..][j - 1] && lines[j] == rest[j - 1] {}
    }
  }

  /** With tools, the header holds the first system message or the default one, and the
      declarations between the marks the model was trained on. */
  ghost predicate HeaderShows(first: Message, tools: seq<ToolDefinition>, head: string) {
    if tools == [] then head == ""
    else exists lines, intro, outro ::
      && ToolLines(tools, lines)
      && head == "<|im_start|>\n" +
                 (if first.role.System? then first.content else "You are Qwen, created by Alibaba Cloud. You are a helpful assistant.") +
                 intro + Concat(lines) + outro
      && StartsWith(intro, "\n\n# Tools\n\n") && EndsWith(intro, "\n<tools>")
      && StartsWith(outro, "\n</tools>") && EndsWith(outro, "\n</tool_call><|im_end|>\n")
  }

  predicate EndsWith(s: string, end: string) { |end| <= |s| && s[|s| - |end|..] == end }

  predicate StartsWith(s: string, start: string) { start <= s }

  lemma HeaderIs(first: Message, tools: seq<ToolDefinition>)
    ensures HeaderShows(first, tools, Header(first, tools))
  {
    hide FixedText, Concat, ToolLines, RenderTools, StartsWith, EndsWith;
    if tools != [] {
      var lines := ToolsShow(tools);
      BothEnds("\n\n# Tools\n\n", FixedText(ToolAdvice), "\n<tools>");
      BothEnds("\n</tools>", FixedText(CallAdvice), "\n</tool_call><|im_end|>\n");
      DefaultText();
      HeaderParts(first, tools, lines);
    }
  }

  lemma HeaderParts(first: Message, tools: seq<ToolDefinition>, lines: seq<string>)
    requires tools != [] && RenderTools(tools) == Concat(lines)
    ensures Header(first, tools) ==
            "<|im_start|>\n" + (if first.role.System? then first.content else FixedText(DefaultSystem)) + ToolsIntro(FixedText(ToolAdvice)) + Concat(lines) + ToolsOutro(FixedText(CallAdvice))
  {
    hide RenderTools, Concat, ToolsIntro, ToolsOutro, FixedText;
    assert "<|im_start|>" + "\n" == "<|im_start|>\n";
  }

  lemma DefaultText()
    ensures FixedText(DefaultSystem) == "You are Qwen, created by Alibaba Cloud. You are a helpful assistant."
  {
  }

  lemma BothEnds(start: string, middle: string, end: string)
    ensures StartsWith(start + middle + end, start) && EndsWith(start + middle + end, end)
  {
  }

  /** A prompt is its header, one block for each message in order, and the opening of the
      answer; and nothing else. */
  lemma PromptShowsEverything(messages: seq<Message>, tools: seq<ToolDefinition>) returns (head: string, blocks: seq<string>)
    requires messages != []
    ensures Render(messages, tools) == head + Concat(blocks) + "<|im_start|>assistant\n"
    ensures HeaderShows(messages[0], tools, head)
    ensures |blocks| == |messages| && forall i | 0 <= i < |blocks| :: Shows(messages, i, blocks[i])
  {
    hide Shows, HeaderShows, Concat, Header, RenderMessages;
    head := Header(messages[0], tools);
    HeaderIs(messages[0], tools);
    blocks := MessagesShow(messages, 0);
    forall i | 0 <= i < |blocks| ensures Shows(messages, i, blocks[i]) { assert Shows(messages, 0 + i, blocks[i]); }
  }
}
