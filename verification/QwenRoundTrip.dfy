/** Rendering an assistant turn and parsing it back. */
module QwenRoundTrip {
  import opened Wrappers
  import opened Text
  import opened Json
  import opened JsonRoundTrip
  import opened Chat
  import opened TaggedText
  import opened QwenTemplate
  import opened ToolCallParser

  /** Nesting that still fits once the arguments sit inside the call object. */
  const ARGUMENT_DEPTH: nat := MAX_DEPTH - 1

  ghost predicate Renderable(call: ToolCall, tools: seq<ToolDefinition>) {
    ValidName(call.name) && Declared(tools, call.name) && call.arguments.IsObject() && WellFormed(call.arguments)
  }

  // ---------------------------------------------------------------- one call

  lemma {:induction false} NameUnescaped(name: string)
    requires forall i | 0 <= i < |name| :: NameChar(name[i])
    ensures PrintChars(Plain, name) == name
  {
    if name != [] {
      NameUnescaped(name[1..]);
      assert name == [name[0]] + name[1..];
    }
  }

  lemma ReadName(name: string, rest: string)
    requires forall i | 0 <= i < |name| :: NameChar(name[i])
    ensures ReadChars(name + ("\"" + rest)) == Some((name, rest))
  {
    NameUnescaped(name);
    ReadPrintedChars(Plain, name, "\"" + rest);
    assert ("\"" + rest)[1..] == rest;
  }

  /** The second member of a call object. */
  lemma ReadArguments(arguments: Json, read: Fields)
    requires arguments.IsObject() && WellFormed(arguments)
    ensures ReadFields(" \"arguments\": " + (Print(HtmlSafe, arguments) + "}"), ARGUMENT_DEPTH, read) ==
            if Depth(arguments) <= ARGUMENT_DEPTH then Some((Insert(read, "arguments", arguments), "")) else None
  {
    var value := " " + (Print(HtmlSafe, arguments) + "}");
    var member := ":" + value;
    var text := " \"arguments\": " + (Print(HtmlSafe, arguments) + "}");
    assert text[1..] == "\"" + ("arguments" + ("\"" + member));
    NoSpace(text[1..]);
    assert SkipSpace(text) == text[1..];
    assert text[1..][1..] == "arguments" + ("\"" + member);
    ReadName("arguments", member);
    NoSpace(member);
    assert member[1..] == value;
    WellFormedNumbers(arguments);
    CanonicalIdentity(arguments);
    SpacedObject(arguments, "}", ARGUMENT_DEPTH);
    NoSpace("}");
    assert ReadFields(text, ARGUMENT_DEPTH, read) == ReadMember("arguments", member, ARGUMENT_DEPTH, read);
    if Depth(arguments) <= ARGUMENT_DEPTH {
      var now := Insert(read, "arguments", arguments);
      assert ReadMember("arguments", member, ARGUMENT_DEPTH, read) == AfterMember(now, "}", ARGUMENT_DEPTH);
      assert AfterMember(now, "}", ARGUMENT_DEPTH) == Some((now, ""));
    }
  }

  lemma SpacedObject(v: Json, rest: string, depth: nat)
    requires v.IsObject() && NumbersOk(v) && Delimited(rest)
    ensures ReadValue(" " + (Print(HtmlSafe, v) + rest), depth) ==
            if Depth(v) <= depth then Some((Canonical(v), rest)) else None
  {
    var text := Print(HtmlSafe, v) + rest;
    ReadPrinted(HtmlSafe, v, rest, depth);
    PrintStart(HtmlSafe, v);
    assert text[0] == Print(HtmlSafe, v)[0];
    NoSpace(text);
    assert (" " + text)[1..] == text;
    assert SkipSpace(" " + text) == text;
  }

  lemma SpacedString(name: string, rest: string, depth: nat)
    requires forall i | 0 <= i < |name| :: NameChar(name[i])
    ensures ReadValue(" " + ("\"" + (name + ("\"" + rest))), depth) == Some((String(name), rest))
  {
    var text := "\"" + (name + ("\"" + rest));
    ReadName(name, rest);
    NoSpace(text);
    assert (" " + text)[1..] == text && text[1..] == name + ("\"" + rest);
    assert SkipSpace(" " + text) == text;
  }

  function CallFields(call: ToolCall): Fields {
    Insert(Insert([], "name", String(call.name)), "arguments", call.arguments)
  }

  lemma CallText(call: ToolCall, second: string)
    requires second == " \"arguments\": " + (Print(HtmlSafe, call.arguments) + "}")
    ensures CallJson(call) ==
            "{" + ("\"" + ("name" + ("\"" + (":" + (" " + ("\"" + (call.name + ("\"" + ("," + second)))))))))
  {
  }

  /** The object inside a rendered call reads back as its name and arguments. */
  lemma ReadCallJson(call: ToolCall)
    requires ValidName(call.name) && call.arguments.IsObject() && WellFormed(call.arguments)
    ensures ReadValue(CallJson(call), MAX_DEPTH) ==
            if Depth(call.arguments) <= ARGUMENT_DEPTH then Some((Object(CallFields(call)), "")) else None
  {
    hide Print, ReadChars, Insert, Canonical, Depth;
    var second := " \"arguments\": " + (Print(HtmlSafe, call.arguments) + "}");
    var comma := "," + second;
    var value := " " + ("\"" + (call.name + ("\"" + comma)));
    var member := ":" + value;
    var inner := "\"" + ("name" + ("\"" + member));
    CallText(call, second);
    assert CallJson(call) == "{" + inner;
    ReadDispatch(CallJson(call), MAX_DEPTH);
    assert CallJson(call)[1..] == inner;
    NoSpace(inner);
    assert inner[1..] == "name" + ("\"" + member);
    ReadName("name", member);
    NoSpace(member);
    assert member[1..] == value;
    SpacedString(call.name, comma, ARGUMENT_DEPTH);
    NoSpace(comma);
    assert comma[1..] == second;
    var named := Insert([], "name", String(call.name));
    ReadArguments(call.arguments, named);
    assert AfterMember(named, comma, ARGUMENT_DEPTH) == ReadFields(second, ARGUMENT_DEPTH, named);
    assert ReadMember("name", member, ARGUMENT_DEPTH, []) == AfterMember(named, comma, ARGUMENT_DEPTH);
    assert ReadFields(inner, ARGUMENT_DEPTH, []) == ReadMember("name", member, ARGUMENT_DEPTH, []);
  }

  lemma CallMembers(call: ToolCall)
    ensures var v := Object(CallFields(call));
            && v.Get("name") == Some(String(call.name)) && v.Get("arguments") == Some(call.arguments)
            && v.Get("function") == None && v.Get("id") == None
  {
    var named := Insert([], "name", String(call.name));
    forall key ensures Lookup(CallFields(call), key) ==
                       if key == "arguments" then Some(call.arguments)
                       else if key == "name" then Some(String(call.name)) else None
    {
      LookupInsert(named, "arguments", call.arguments, key);
      LookupInsert([], "name", String(call.name), key);
    }
  }

  /** The text between the tags of a rendered call. */
  function CallBlock(call: ToolCall): string {
    "\n" + CallJson(call) + "\n"
  }

  lemma CallBlockTrim(call: ToolCall)
    ensures Trim(CallBlock(call)) == CallJson(call)
  {
    TrimPadded("\n", CallJson(call), "\n");
    var t := CallJson(call);
    assert t[0] == '{' && t[|t| - 1] == '}';
    TrimIdentity(t);
  }

  lemma ParseCallBlock(call: ToolCall, tools: seq<ToolDefinition>, requestId: string, index: nat)
    requires Renderable(call, tools)
    ensures CallReader(tools, requestId)(CallBlock(call), index) == Reread(call, requestId, index)
  {
    CallBlockTrim(call);
    ReadCallJson(call);
    CallMembers(call);
  }

  lemma CallBlockHasNoTag(call: ToolCall, tools: seq<ToolDefinition>)
    requires Renderable(call, tools)
    ensures !Contains(CallBlock(call), CLOSE)
  {
    hide Print, WellFormed, NumbersOk;
    WellFormedNumbers(call.arguments);
    PrintAvoids(HtmlSafe, call.arguments, '<');
    var text := CallBlock(call);
    assert '<' !in call.name;
    assert '<' !in text;
    forall i: nat | i <= |text| ensures !OccursAt(text, CLOSE, i) {
      if i + |CLOSE| <= |text| {
        assert text[i..i + |CLOSE|][0] == text[i] != CLOSE[0];
      }
    }
  }

  // ---------------------------------------------------------------- one turn

  function Blocks(calls: seq<ToolCall>): (r: seq<string>)
    ensures |r| == |calls|
  {
    if calls == [] then [] else [CallBlock(calls[0])] + Blocks(calls[1..])
  }

  /** The text around the blocks of a turn whose first block is preceded by `first`. */
  function Around(first: string, calls: seq<ToolCall>): (r: seq<string>)
    ensures |r| == |calls| + 1
    decreases |calls|
  {
    if calls == [] then [first]
    else [first + "\n"] + Around("", calls[1..])
  }

  lemma {:induction false} TurnText(first: string, calls: seq<ToolCall>)
    ensures first + RenderCalls(calls) == Assemble(Around(first, calls), Blocks(calls), OPEN, CLOSE)
    decreases |calls|
  {
    if calls == [] {
      assert first + [] == first;
    } else {
      TurnText("", calls[1..]);
      var rest := RenderCalls(calls[1..]);
      assert "" + rest == rest;
      assert Around(first, calls)[1..] == Around("", calls[1..]);
      assert Blocks(calls)[1..] == Blocks(calls[1..]);
      CallSplits(first, calls[0], rest);
    }
  }

  lemma CallSplits(first: string, call: ToolCall, rest: string)
    ensures first + (RenderCall(call) + rest) == first + "\n" + OPEN + (CallBlock(call) + CLOSE + rest)
  {
    CallTag(call);
    var open := "\n" + OPEN;
    var block := CallBlock(call) + CLOSE;
    Associates(open, block, rest);
    Associates(first, open, block + rest);
    Associates(first, "\n", OPEN);
  }

  lemma CallTag(call: ToolCall)
    ensures RenderCall(call) == "\n" + OPEN + (CallBlock(call) + CLOSE)
  {
    hide CallJson;
    var json := CallJson(call);
    assert "\n<tool_call>\n" == "\n" + OPEN + "\n" && "\n</tool_call>" == "\n" + CLOSE;
    Regroup("\n" + OPEN, "\n", json, "\n", CLOSE);
  }

  lemma Regroup<T>(a: seq<T>, b: seq<T>, c: seq<T>, d: seq<T>, e: seq<T>)
    ensures a + b + c + (d + e) == a + (b + c + d + e)
  {
  }

  lemma NewlineKeepsClean(s: string)
    requires !Contains(s, OPEN)
    ensures !Contains(s + "\n", OPEN) && !Contains("\n" + s, OPEN)
  {
    forall i: nat | i <= |s| + 1
      ensures !OccursAt(s + "\n", OPEN, i) && !OccursAt("\n" + s, OPEN, i)
    {
      if i + |OPEN| <= |s| {
        assert (s + "\n")[i..i + |OPEN|] == s[i..i + |OPEN|];
        assert !OccursAt(s, OPEN, i);
      } else if i + |OPEN| == |s| + 1 {
        assert (s + "\n")[i..i + |OPEN|][|OPEN| - 1] == '\n';
      }
      if i + |OPEN| <= |s| + 1 {
        if i == 0 {
          assert ("\n" + s)[0..|OPEN|][0] == '\n';
        } else {
          assert ("\n" + s)[i..i + |OPEN|] == s[i - 1..i - 1 + |OPEN|];
          assert !OccursAt(s, OPEN, i - 1);
        }
      }
    }
  }

  lemma {:induction false} AroundClean(first: string, calls: seq<ToolCall>)
    requires !Contains(first, OPEN)
    ensures forall i | 0 <= i <= |calls| :: !Contains(Around(first, calls)[i], OPEN)
    decreases |calls|
  {
    if calls != [] {
      NewlineKeepsClean(first);
      AroundClean("", calls[1..]);
    }
  }

  lemma {:induction false} BlocksClean(calls: seq<ToolCall>, tools: seq<ToolDefinition>)
    requires forall call | call in calls :: Renderable(call, tools)
    ensures forall i | 0 <= i < |calls| :: !Contains(Blocks(calls)[i], CLOSE)
    decreases |calls|
  {
    if calls != [] {
      CallBlockHasNoTag(calls[0], tools);
      BlocksClean(calls[1..], tools);
    }
  }

  lemma {:induction false} AroundBlank(first: string, calls: seq<ToolCall>) returns (after: string)
    ensures Concat(Around(first, calls)) == first + after && Blank(after)
    decreases |calls|
  {
    if calls == [] {
      after := "";
      assert Around(first, calls)[1..] == [];
    } else {
      var more := AroundBlank("", calls[1..]);
      after := "\n" + more;
      assert Around(first, calls)[1..] == Around("", calls[1..]);
    }
  }

  /** The parsed calls: same names and arguments, ids generated in order. */
  function Renumbered(calls: seq<ToolCall>, requestId: string, from: nat): (r: seq<ToolCall>)
    ensures |r| == |calls|
    ensures forall i | 0 <= i < |r| :: r[i] == ToolCall(GeneratedId(requestId, from + i), calls[i].name, calls[i].arguments)
  {
    if calls == [] then []
    else [ToolCall(GeneratedId(requestId, from), calls[0].name, calls[0].arguments)] + Renumbered(calls[1..], requestId, from + 1)
  }

  predicate Shallow(calls: seq<ToolCall>) {
    forall call | call in calls :: Depth(call.arguments) <= ARGUMENT_DEPTH
  }

  /** The reader turns the block of each call into that call, renumbered. */
  ghost predicate ReadsBack(read: Reader, calls: seq<ToolCall>, requestId: string) {
    forall call, index: nat | call in calls :: read(CallBlock(call), index) == Reread(call, requestId, index)
  }

  function Reread(call: ToolCall, requestId: string, index: nat): Result<ToolCall, ParseError> {
    if Depth(call.arguments) <= ARGUMENT_DEPTH
    then Ok(ToolCall(GeneratedId(requestId, index), call.name, call.arguments))
    else Err(InvalidJson)
  }

  lemma Associates<T>(a: seq<T>, b: seq<T>, c: seq<T>)
    ensures a + b + c == a + (b + c)
  {
  }

  lemma FreshId(done: seq<ToolCall>, requestId: string)
    requires forall i | 0 <= i < |done| :: done[i].id == GeneratedId(requestId, i)
    ensures GeneratedId(requestId, |done|) !in CallIds(done)
  {
    forall i | 0 <= i < |done| ensures CallIds(done)[i] != GeneratedId(requestId, |done|) {
      if done[i].id == GeneratedId(requestId, |done|) { GeneratedIdInjective(requestId, i, |done|); }
    }
  }

  lemma {:induction false} InterpretBlocks(calls: seq<ToolCall>, read: Reader, requestId: string, done: seq<ToolCall>)
    requires ReadsBack(read, calls, requestId)
    requires forall i | 0 <= i < |done| :: done[i].id == GeneratedId(requestId, i)
    ensures Interpret(Blocks(calls), read, done) ==
            if Shallow(calls) then Ok(done + Renumbered(calls, requestId, |done|)) else Err(InvalidJson)
    decreases |calls|
  {
    hide GeneratedId, CallBlock, Depth, CallIds;
    if calls == [] {
      assert done + [] == done;
    } else {
      assert Blocks(calls)[1..] == Blocks(calls[1..]);
      assert calls == [calls[0]] + calls[1..];
      if Depth(calls[0].arguments) <= ARGUMENT_DEPTH {
        var call := ToolCall(GeneratedId(requestId, |done|), calls[0].name, calls[0].arguments);
        assert Blocks(calls)[0] == CallBlock(calls[0]) && Reread(calls[0], requestId, |done|) == Ok(call);
        FreshId(done, requestId);
        InterpretBlocks(calls[1..], read, requestId, done + [call]);
        Associates(done, [call], Renumbered(calls[1..], requestId, |done| + 1));
      }
    }
  }

  lemma TurnClean(first: string, calls: seq<ToolCall>, tools: seq<ToolDefinition>)
    requires !Contains(first, OPEN) && forall call | call in calls :: Renderable(call, tools)
    ensures Clean(Around(first, calls), Blocks(calls), OPEN, CLOSE)
  {
    AroundClean(first, calls);
    BlocksClean(calls, tools);
  }

  /** Text around the blocks of a turn: its content and some blank lines. */
  lemma TurnPieces(m: Message, tools: seq<ToolDefinition>)
    requires !Contains(m.content, OPEN)
    requires forall call | call in m.toolCalls :: Renderable(call, tools)
    ensures var p := Split(AssistantBody(m), OPEN, CLOSE);
            p.bodies == Blocks(m.toolCalls) && !p.unterminated && Trim(Concat(p.segments)) == Trim(m.content)
  {
    hide Renderable, Trim, Clean, Split, AssistantBody, RenderCalls, Around, Blocks, Assemble, Concat, Contains;
    var first := TurnFirst(m);
    TurnText(first, m.toolCalls);
    TurnOpens(m, first);
    TurnClean(first, m.toolCalls, tools);
    SplitTurn(first, m.toolCalls);
    var after := AroundBlank(first, m.toolCalls);
    TurnTrims(m.content, first, after);
  }

  /** What comes before the first block of a turn. */
  function TurnFirst(m: Message): string {
    if m.toolCalls == [] || m.content != [] then "\n" + m.content else ""
  }

  lemma TurnOpens(m: Message, first: string)
    requires !Contains(m.content, OPEN) && first == TurnFirst(m)
    ensures AssistantBody(m) == first + RenderCalls(m.toolCalls) && !Contains(first, OPEN)
    ensures first == "\n" + m.content || (first == "" && m.content == "")
  {
    NewlineKeepsClean(m.content);
    hide Contains;
    if m.toolCalls == [] { assert first + RenderCalls([]) == first; }
  }

  lemma SplitTurn(first: string, calls: seq<ToolCall>)
    requires Clean(Around(first, calls), Blocks(calls), OPEN, CLOSE)
    ensures Split(Assemble(Around(first, calls), Blocks(calls), OPEN, CLOSE), OPEN, CLOSE) == Pieces(Around(first, calls), Blocks(calls), false)
  {
    hide Clean, Split, Assemble, Around, Blocks;
    SplitAssembled(Around(first, calls), Blocks(calls), OPEN, CLOSE);
  }

  lemma TurnTrims(content: string, first: string, after: string)
    requires Blank(after) && (first == "\n" + content || (first == "" && content == ""))
    ensures Trim(first + after) == Trim(content)
  {
    hide Trim;
    if first == "" {
      TrimPadded("", "", after);
      assert "" + "" + after == "" + after;
    } else {
      TrimPadded("\n", content, after);
    }
  }

  /** Parsing a rendered assistant turn gives back its trimmed content and its calls,
      with generated ids, exactly when no arguments nest deeper than 126 containers;
      otherwise the reader rejects the block. */
  lemma RenderedTurnParses(m: Message, tools: seq<ToolDefinition>, requestId: string)
    requires m.role.Assistant? && !Contains(m.content, OPEN)
    requires forall call | call in m.toolCalls :: Renderable(call, tools)
    ensures ParseToolCalls(AssistantBody(m), tools, requestId) ==
            if Shallow(m.toolCalls) then Ok((Trim(m.content), Renumbered(m.toolCalls, requestId, 0))) else Err(InvalidJson)
  {
    TurnPieces(m, tools);
    var read := CallReader(tools, requestId);
    ReaderReadsBack(m.toolCalls, tools, requestId);
    TurnOutcome(m, Split(AssistantBody(m), OPEN, CLOSE), read, requestId);
  }

  lemma ReaderReadsBack(calls: seq<ToolCall>, tools: seq<ToolDefinition>, requestId: string)
    requires forall call | call in calls :: Renderable(call, tools)
    ensures ReadsBack(CallReader(tools, requestId), calls, requestId)
  {
    forall call, index: nat | call in calls
      ensures CallReader(tools, requestId)(CallBlock(call), index) == Reread(call, requestId, index)
    {
      ParseCallBlock(call, tools, requestId, index);
    }
  }

  lemma TurnOutcome(m: Message, p: Pieces, read: Reader, requestId: string)
    requires ReadsBack(read, m.toolCalls, requestId)
    requires p.bodies == Blocks(m.toolCalls) && !p.unterminated && Trim(Concat(p.segments)) == Trim(m.content)
    ensures Outcome(p, read) ==
            if Shallow(m.toolCalls) then Ok((Trim(m.content), Renumbered(m.toolCalls, requestId, 0))) else Err(InvalidJson)
  {
    InterpretBlocks(m.toolCalls, read, requestId, []);
    assert [] + Renumbered(m.toolCalls, requestId, 0) == Renumbered(m.toolCalls, requestId, 0);
  }
}
