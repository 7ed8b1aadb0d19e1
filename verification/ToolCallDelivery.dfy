/** A tool call on its way from the model's text to the client and back. */
module ToolCallDelivery {
  import opened Wrappers
  import opened Text
  import opened Json
  import opened JsonRoundTrip
  import opened JsonReading
  import opened Chat
  import opened SseFraming
  import opened Forwarding
  import opened StreamDelivery
  import Events = StreamEvents
  import Parser = ToolCallParser
  import TaggedText
  import opened QwenTemplate
  import opened QwenRoundTrip

  lemma {:induction false} LookupWellFormed(fields: Fields, key: string)
    requires forall i | 0 <= i < |fields| :: WellFormed(fields[i].value)
    requires Lookup(fields, key).Some?
    ensures WellFormed(Lookup(fields, key).value)
  {
    hide WellFormed;
    if fields[0].key != key { LookupWellFormed(fields[1..], key); }
  }

  lemma GetWellFormed(v: Json, key: string)
    requires WellFormed(v) && v.Get(key).Some?
    ensures WellFormed(v.Get(key).value)
  {
    LookupWellFormed(v.fields, key);
  }

  lemma ReadArgumentsWellFormed(name: string, v: Json)
    requires WellFormed(v) && Parser.ParseArguments(name, v).Ok?
    ensures WellFormed(Parser.ParseArguments(name, v).value)
  {
    hide WellFormed;
    if v.String? { ParsedIsWellFormed(v.s); }
  }

  /** The arguments of a parsed call are well formed, however they were written. */
  lemma ParsedCallWellFormed(body: string, tools: seq<ToolDefinition>, requestId: string, index: nat)
    requires Parser.ParseOne(body, tools, requestId, index).Ok?
    ensures WellFormed(Parser.ParseOne(body, tools, requestId, index).value.arguments)
  {
    hide WellFormed, Parse, Parser.ParseArguments, Parser.CallId;
    ParsedIsWellFormed(body);
    var v := Parse(body).value;
    if v.Get("function").Some? { GetWellFormed(v, "function"); }
    var f := match v.Get("function") { case Some(f) => f case None => v };
    GetWellFormed(f, "arguments");
    ReadArgumentsWellFormed(f.Get("name").value.s, f.Get("arguments").value);
  }

  lemma {:induction false} InterpretWellFormed(bodies: seq<string>, read: Parser.Reader, calls: seq<ToolCall>)
    requires Events.CallsWellFormed(calls) && Parser.Interpret(bodies, read, calls).Ok?
    requires forall body: string, index: nat :: read(body, index).Ok? ==> WellFormed(read(body, index).value.arguments)
    ensures Events.CallsWellFormed(Parser.Interpret(bodies, read, calls).value)
    decreases |bodies|
  {
    hide WellFormed;
    if bodies != [] { InterpretWellFormed(bodies[1..], read, calls + [read(bodies[0], |calls|).value]); }
  }

  lemma ParsedCallsWellFormed(text: string, tools: seq<ToolDefinition>, requestId: string)
    requires Parser.ParseToolCalls(text, tools, requestId).Ok?
    ensures Events.CallsWellFormed(Parser.ParseToolCalls(text, tools, requestId).value.1)
  {
    hide WellFormed, Parser.ParseOne;
    var read := Parser.CallReader(tools, requestId);
    forall body: string, index: nat | read(body, index).Ok? ensures WellFormed(read(body, index).value.arguments) {
      ParsedCallWellFormed(Trim(body), tools, requestId, index);
    }
    InterpretWellFormed(TaggedText.Split(text, Parser.OPEN, Parser.CLOSE).bodies, read, []);
  }

  /** The calls a client gets are the calls of the worker: same order, ids and names, and
      an argument text that reads back as the arguments. */
  ghost predicate Faithful(public: seq<PublicCall>, calls: seq<ToolCall>) {
    && |public| == |calls|
    && forall i | 0 <= i < |calls| ::
         && public[i].index == i && public[i].id == calls[i].id && public[i].name == calls[i].name
         && Parse(public[i].arguments) == Some(calls[i].arguments)
  }

  lemma {:induction false} PublicCallsAt(calls: seq<ToolCall>, from: nat)
    ensures var r := PublicCalls(calls, from);
            && |r| == |calls|
            && forall i | 0 <= i < |r| :: r[i] == PublicCall(from + i, calls[i].id, calls[i].name, Print(Plain, calls[i].arguments))
  {
    hide Print;
    if calls != [] { PublicCallsAt(calls[1..], from + 1); }
  }

  lemma PublicCallsFaithful(calls: seq<ToolCall>)
    requires Events.CallsWellFormed(calls)
    requires forall i | 0 <= i < |calls| :: Depth(calls[i].arguments) <= Events.MAX_ARGUMENTS
    ensures Faithful(PublicCalls(calls, 0), calls)
  {
    hide WellFormed, Print, Parse, Depth;
    PublicCallsAt(calls, 0);
    forall i | 0 <= i < |calls| ensures Parse(PublicCalls(calls, 0)[i].arguments) == Some(calls[i].arguments) {
      ParsePrint(Plain, calls[i].arguments);
    }
  }

  /** From the model's text to the client: the calls parsed from a text, streamed in
      chunks of any shape to a client that stays, reach it faithfully, followed by the
      final chunk, the end mark and one release, exactly if no call nests its arguments
      deeper than 123 containers; otherwise the stream ends in an error and a
      cancellation, although the parser accepts up to 127. */
  lemma ParsedCallsReachTheClient(text: string, tools: seq<ToolDefinition>, requestId: string, visible: string, calls: seq<ToolCall>,
                                  input: nat, output: nat, texts: seq<string>, env: Env, chunks: seq<Bytes>)
    requires StaysAlive(env) && input <= USIZE_MAX && output <= USIZE_MAX
    requires Parser.ParseToolCalls(text, tools, requestId) == Ok((visible, calls)) && calls != []
    requires Flatten(chunks) == WireBody(Deltas(texts) + [Events.Completed(input, output, calls, ToolCalls)])
    ensures var log := Relayed(env, Readings(Feed([], chunks).frames), false);
            var shown := [RoleChunk] + TextChunks(texts);
            if forall i | 0 <= i < |calls| :: Depth(calls[i].arguments) <= Events.MAX_ARGUMENTS
            then exists public: seq<PublicCall> :: Faithful(public, calls) &&
                   log == AllSent(shown + [ToolChunk(public), FinalChunk(ToolCalls, input, output), DoneMark]) + [Release]
            else log == AllSent(shown + [ErrorEvent(InvalidEvent)]) + [CancelToken, PostCancel] +
                        (if env.reachable then [] else [TakeOffline, DropBindings]) + [Release]
  {
    hide WellFormed, Depth, Parser.ParseToolCalls, Relayed, Readings, Feed, WireBody, AllSent, Faithful, Deltas, TextChunks, PublicCalls;
    ParsedCallsWellFormed(text, tools, requestId);
    var last := Events.Completed(input, output, calls, ToolCalls);
    EndToEnd(env, texts, last, chunks);
    if Events.Shallow(last) {
      PublicCallsFaithful(calls);
      var public := PublicCalls(calls, 0);
      var shown := [RoleChunk] + TextChunks(texts);
      assert shown + [ToolChunk(public)] + [FinalChunk(ToolCalls, input, output), DoneMark] ==
             shown + [ToolChunk(public), FinalChunk(ToolCalls, input, output), DoneMark];
    }
  }

  // ------------------------------------------ a call too deep for the stream

  function Nested(n: nat): Json {
    if n == 0 then Array([]) else Array([Nested(n - 1)])
  }

  lemma {:induction false} NestedDepth(n: nat)
    ensures Depth(Nested(n)) == n + 1 && WellFormed(Nested(n))
  {
    if n > 0 {
      NestedDepth(n - 1);
      var items := [Nested(n - 1)];
      assert items[1..] == [] && ItemsDepth([]) == 0;
      assert ItemsDepth(items) == n;
    }
  }

  /** A call of `f` whose arguments nest 124 containers. */
  function DeepCall(): ToolCall { ToolCall("", "f", Object([Field("a", Nested(122))])) }

  lemma DeepArguments()
    ensures Depth(DeepCall().arguments) == 124 && WellFormed(DeepCall().arguments)
  {
    NestedDepth(122);
    var fields := [Field("a", Nested(122))];
    assert fields[1..] == [] && FieldsDepth([]) == 0;
    assert FieldsDepth(fields) == 123;
  }

  /** The parser takes the call, and the coordinator cannot read the event it is in. */
  lemma DeepCallIsLost(tool: ToolDefinition, requestId: string)
    requires tool.name == "f"
    ensures var text := AssistantBody(Message(Assistant, "", [DeepCall()], None));
            var parsed := Parser.ParseToolCalls(text, [tool], requestId);
            && parsed.Ok? && |parsed.value.1| == 1 && Depth(parsed.value.1[0].arguments) == 124
            && Events.ParseEvent(Events.Payload(Events.Completed(1, 1, parsed.value.1, ToolCalls))) == None
  {
    hide Depth, WellFormed, AssistantBody, Parser.ParseToolCalls, Events.ParseEvent, Events.Payload;
    var call := DeepCall();
    DeepArguments();
    var m := Message(Assistant, "", [call], None);
    assert [tool][0].name == "f";
    assert ValidName("f");
    assert !Contains("", Parser.OPEN);
    RenderedTurnParses(m, [tool], requestId);
    var parsed := Renumbered(m.toolCalls, requestId, 0);
    assert parsed[0].arguments == call.arguments;
    Events.PayloadRoundTrip(Events.Completed(1, 1, parsed, ToolCalls));
  }
}
