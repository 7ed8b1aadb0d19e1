/** Extraction of Qwen `<tool_call>` blocks from a completed model output. */
module ToolCallParser {
  import opened Wrappers
  import opened Text
  import opened TaggedText
  import opened Json
  import opened Chat

  const OPEN := "<tool_call>"
  const CLOSE := "</tool_call>"

  datatype ParseError =
    | UnterminatedBlock
    | InvalidJson
    | NoFunctionName
    | UndeclaredTool(name: string)
    | NoArguments(name: string)
    | InvalidArgumentText(name: string)
    | ArgumentsNotObject(name: string)
    | EmptyId
    | DuplicateId(id: string)

  type ParseResult = Result<(string, seq<ToolCall>), ParseError>

  /** The id of a call that brings none. */
  function GeneratedId(requestId: string, index: nat): (id: string)
    ensures id != []
  {
    requestId + "-" + Decimal(index)
  }

  function ParseArguments(name: string, arguments: Json): Result<Json, ParseError> {
    match arguments
    case String(text) =>
      (match Parse(text)
       case None => Err(InvalidArgumentText(name))
       case Some(v) => if v.IsObject() then Ok(v) else Err(ArgumentsNotObject(name)))
    case v => if v.IsObject() then Ok(v) else Err(ArgumentsNotObject(name))
  }

  function CallId(value: Json, requestId: string, index: nat): string {
    match value.Get("id")
    case Some(String(id)) => id
    case _ => GeneratedId(requestId, index)
  }

  function InterpretCall(value: Json, tools: seq<ToolDefinition>, requestId: string, index: nat): Result<ToolCall, ParseError> {
    var function_ := match value.Get("function") { case Some(f) => f case None => value };
    match function_.Get("name")
    case Some(String(name)) =>
      if !Declared(tools, name) then Err(UndeclaredTool(name))
      else
        (match function_.Get("arguments")
         case None => Err(NoArguments(name))
         case Some(arguments) =>
           match ParseArguments(name, arguments)
           case Err(e) => Err(e)
           case Ok(fields) =>
             var id := CallId(value, requestId, index);
             if id == [] then Err(EmptyId) else Ok(ToolCall(id, name, fields)))
    case _ => Err(NoFunctionName)
  }

  function ParseOne(body: string, tools: seq<ToolDefinition>, requestId: string, index: nat): (r: Result<ToolCall, ParseError>)
    ensures r.Ok? ==> r.value.id != [] && Declared(tools, r.value.name) && r.value.arguments.IsObject()
  {
    match Parse(body)
    case None => Err(InvalidJson)
    case Some(value) => InterpretCall(value, tools, requestId, index)
  }

  // ----------------------------------------- a text as segments and blocks

  /** How one block body is read, given how many calls came before it. */
  type Reader = (string, nat) -> Result<ToolCall, ParseError>

  function CallReader(tools: seq<ToolDefinition>, requestId: string): Reader {
    (body: string, index: nat) => ParseOne(Trim(body), tools, requestId, index)
  }

  /** The calls of the blocks, read in order after `calls`. */
  function Interpret(bodies: seq<string>, read: Reader, calls: seq<ToolCall>): Result<seq<ToolCall>, ParseError>
    decreases |bodies|
  {
    if bodies == [] then Ok(calls)
    else
      match read(bodies[0], |calls|)
      case Err(e) => Err(e)
      case Ok(call) =>
        if call.id in CallIds(calls) then Err(DuplicateId(call.id))
        else Interpret(bodies[1..], read, calls + [call])
  }

  function Outcome(p: Pieces, read: Reader): ParseResult {
    match Interpret(p.bodies, read, [])
    case Err(e) => Err(e)
    case Ok(calls) => if p.unterminated then Err(UnterminatedBlock) else Ok((Trim(Concat(p.segments)), calls))
  }

  /** The outcome of parsing: text outside the blocks, and one call per block. */
  function ParseToolCalls(text: string, tools: seq<ToolDefinition>, requestId: string): ParseResult {
    Outcome(Split(text, OPEN, CLOSE), CallReader(tools, requestId))
  }

  method ExtractToolCalls(text: string, tools: seq<ToolDefinition>, requestId: string) returns (r: ParseResult)
    ensures r == ParseToolCalls(text, tools, requestId)
  {
    r := ExtractTagged(text, OPEN, CLOSE, CallReader(tools, requestId));
  }

  /** One block body: its call, unless it is malformed or repeats an id. */
  method TakeCall(body: string, read: Reader, calls: seq<ToolCall>, ids: set<string>,
                  ghost more: seq<string>)
    returns (r: Result<ToolCall, ParseError>)
    requires ids == (set id | id in CallIds(calls))
    ensures Interpret([body] + more, read, calls) ==
            if r.Err? then Err(r.error) else Interpret(more, read, calls + [r.value])
    ensures r.Ok? ==> (set id | id in CallIds(calls + [r.value])) == ids + {r.value.id}
  {
    assert ([body] + more)[1..] == more;
    r := read(body, |calls|);
    if r.Ok? {
      CallIdsAppend(calls, r.value);
      if r.value.id in ids {
        r := Err(DuplicateId(r.value.id));
      }
    }
  }

  /** The next block of a text, if one is opened: the text before it, its body and
      the text after it. */
  method NextBlock(text: string, open: string, close: string)
    returns (before: string, block: Option<(string, string)>, unterminated: bool)
    requires open != [] && close != []
    ensures Begins(Split(text, open, close), before, block, unterminated, open, close)
    ensures block.Some? ==> |block.value.1| < |text|
  {
    var start := Find(text, open);
    if start.None? {
      return text, None, false;
    }
    var body := text[start.value + |open|..];
    before := text[..start.value];
    var end := Find(body, close);
    if end.None? {
      return before, None, true;
    }
    return before, Some((body[..end.value], body[end.value + |close|..])), false;
  }

  ghost predicate Begins(p: Pieces, before: string, block: Option<(string, string)>, unterminated: bool, open: string, close: string)
    requires open != [] && close != []
  {
    match block
    case None => p == Pieces([before], [], unterminated)
    case Some((body, rest)) =>
      var q := Split(rest, open, close);
      p == Pieces([before] + q.segments, [body] + q.bodies, q.unterminated)
  }

  method ExtractTagged(text: string, open: string, close: string, read: Reader)
    returns (r: ParseResult)
    requires open != [] && close != []
    ensures r == Outcome(Split(text, open, close), read)
  {
    var visible, remainder, calls := "", text, [];
    var ids: set<string> := {};
    ghost var all := Split(text, open, close);
    ghost var rest := all;
    while true
      invariant ids == (set id | id in CallIds(calls))
      invariant rest == Split(remainder, open, close)
      invariant Concat(all.segments) == visible + Concat(rest.segments)
      invariant all.unterminated == rest.unterminated
      invariant Interpret(all.bodies, read, []) == Interpret(rest.bodies, read, calls)
      decreases |remainder|
    {
      var before, block, unterminated := NextBlock(remainder, open, close);
      if block.None? {
        assert before + [] == before;
        return if unterminated then Err(UnterminatedBlock) else Ok((Trim(visible + before), calls));
      }
      var (body, after) := block.value;
      ghost var next := Split(after, open, close);
      var taken := TakeCall(body, read, calls, ids, next.bodies);
      if taken.Err? {
        return Err(taken.error);
      }
      ConcatAfter(visible, before, next.segments);
      visible := visible + before;
      calls := calls + [taken.value];
      ids := ids + {taken.value.id};
      remainder := after;
      rest := next;
    }
  }

  lemma {:induction false} CallIdsAppend(calls: seq<ToolCall>, call: ToolCall)
    ensures CallIds(calls + [call]) == CallIds(calls) + [call.id]
  {
  }

  // ------------------------------------------------------ what comes out

  /** Parsed calls are named, declared, carry objects, and have different ids. */
  ghost predicate Proper(calls: seq<ToolCall>, tools: seq<ToolDefinition>) {
    && (forall i | 0 <= i < |calls| ::
          calls[i].id != [] && Declared(tools, calls[i].name) && calls[i].arguments.IsObject())
    && (forall i, j | 0 <= i < j < |calls| :: calls[i].id != calls[j].id)
  }

  lemma {:induction false} InterpretProper(bodies: seq<string>, read: Reader, calls: seq<ToolCall>, tools: seq<ToolDefinition>)
    requires Proper(calls, tools)
    requires forall body: string, index: nat :: read(body, index).Ok? ==> Proper([read(body, index).value], tools)
    ensures var r := Interpret(bodies, read, calls);
            r.Ok? ==> Proper(r.value, tools) && |r.value| == |calls| + |bodies|
    decreases |bodies|
  {
    if bodies != [] && read(bodies[0], |calls|).Ok? {
      var call := read(bodies[0], |calls|).value;
      if call.id !in CallIds(calls) {
        assert forall i | 0 <= i < |calls| :: CallIds(calls)[i] == calls[i].id;
        assert Proper([call], tools) && [call][0] == call;
        InterpretProper(bodies[1..], read, calls + [call], tools);
      }
    }
  }

  lemma ParsedCallsAreProper(text: string, tools: seq<ToolDefinition>, requestId: string)
    requires ParseToolCalls(text, tools, requestId).Ok?
    ensures Proper(ParseToolCalls(text, tools, requestId).value.1, tools)
  {
    InterpretProper(Split(text, OPEN, CLOSE).bodies, CallReader(tools, requestId), [], tools);
  }

  lemma GeneratedIdInjective(requestId: string, i: nat, j: nat)
    requires GeneratedId(requestId, i) == GeneratedId(requestId, j)
    ensures i == j
  {
    var n := |requestId + "-"|;
    assert GeneratedId(requestId, i)[n..] == Decimal(i);
    assert GeneratedId(requestId, j)[n..] == Decimal(j);
    DecimalRoundTrip(i);
    DecimalRoundTrip(j);
  }
}
