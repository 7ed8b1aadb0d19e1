/**
 The ways a model may write a tool call, and what the parser makes of each: with or
 without an id, the function wrapped or not, the arguments as an object or as a text.
 */
module ToolCallForms {
  import opened Wrappers
  import opened Text
  import opened Json
  import opened JsonRoundTrip
  import opened Chat
  import opened ToolCallParser
  import TaggedText
  import Events = StreamEvents

  datatype Form = Form(explicitId: bool, wrapped: bool, textual: bool)

  function Inner(call: ToolCall, form: Form): Fields {
    [Field("name", String(call.name)),
     Field("arguments", if form.textual then String(Print(Plain, call.arguments)) else call.arguments)]
  }

  /** A call as a model writes it. */
  function Written(call: ToolCall, form: Form): Json {
    Object((if form.explicitId then [Field("id", String(call.id))] else []) +
           (if form.wrapped then [Field("function", Object(Inner(call, form)))] else Inner(call, form)))
  }

  /** How deep the containers around the arguments may nest. */
  function Room(form: Form): nat {
    if form.textual then 127 else if form.wrapped then 125 else 126
  }

  // ------------------------------------------------- what any body comes to

  /** Where name and arguments are looked for. */
  function Holder(v: Json): Json {
    if v.Get("function") == None then v else v.Get("function").value
  }

  /** The arguments as an object, given directly or as its text. */
  ghost predicate GivesArguments(given: Option<Json>, arguments: Json) {
    && arguments.Object?
    && (given == Some(arguments) || exists text :: given == Some(String(text)) && Parse(text) == Some(arguments))
  }

  /** A body is accepted as a call exactly if it is JSON with a declared name, arguments
      that are an object or the text of one, and no empty id; an id that is a text is
      taken over, any other replaced by one made of the request and the position. */
  lemma ParseOneExact(body: string, tools: seq<ToolDefinition>, requestId: string, index: nat, call: ToolCall)
    ensures ParseOne(body, tools, requestId, index) == Ok(call) <==>
              exists v: Json ::
                && Parse(body) == Some(v)
                && Holder(v).Get("name") == Some(String(call.name))
                && (exists i :: 0 <= i < |tools| && tools[i].name == call.name)
                && GivesArguments(Holder(v).Get("arguments"), call.arguments)
                && call.id != ""
                && (v.Get("id") == Some(String(call.id)) ||
                    ((forall s :: v.Get("id") != Some(String(s))) && call.id == requestId + "-" + Decimal(index)))
  {
    hide Parse;
    if Parse(body).Some? {
      var v := Parse(body).value;
      ArgumentsExact(call.name, Holder(v).Get("arguments"), call.arguments);
    }
  }

  lemma ArgumentsExact(name: string, given: Option<Json>, arguments: Json)
    ensures given.Some? && ParseArguments(name, given.value) == Ok(arguments) <==> GivesArguments(given, arguments)
  {
    hide Parse;
  }

  // ---------------------------------------------------------- all the forms

  lemma WrittenMembers(call: ToolCall, form: Form)
    requires WellFormed(call.arguments)
    ensures var v := Canonical(Written(call, form));
            && v.Get("id") == (if form.explicitId then Some(String(call.id)) else None)
            && Holder(v).Get("name") == Some(String(call.name))
            && Holder(v).Get("arguments") == Some(Inner(call, form)[1].value)
  {
    hide WellFormed, Canonical, Lookup, Print;
    var inner := Inner(call, form);
    var fields := Written(call, form).fields;
    CanonicalIdentity(call.arguments);
    Events.Texts();
    Events.CanonicalGet(inner, "name");
    Events.CanonicalGet(inner, "arguments");
    Events.CanonicalGet(fields, "id");
    Events.CanonicalGet(fields, "function");
    Events.CanonicalGet(fields, "name");
    Events.CanonicalGet(fields, "arguments");
    Events.LookupTwo(inner[0], inner[1]);
    FieldsAt(call, form);
  }

  lemma FieldsAt(call: ToolCall, form: Form)
    ensures var fields, inner := Written(call, form).fields, Inner(call, form);
            && Lookup(fields, "id") == (if form.explicitId then Some(String(call.id)) else None)
            && Lookup(fields, "function") == (if form.wrapped then Some(Object(inner)) else None)
            && Lookup(fields, "name") == (if form.wrapped then None else Some(inner[0].value))
            && Lookup(fields, "arguments") == (if form.wrapped then None else Some(inner[1].value))
  {
    hide Print, Lookup;
    KeyAt(call, form, "id");
    KeyAt(call, form, "function");
    KeyAt(call, form, "name");
    KeyAt(call, form, "arguments");
  }

  lemma KeyAt(call: ToolCall, form: Form, key: string)
    ensures var fields, inner := Written(call, form).fields, Inner(call, form);
            Lookup(fields, key) ==
            if form.explicitId && key == "id" then Some(String(call.id))
            else if form.wrapped then (if key == "function" then Some(Object(inner)) else None)
            else if key == "name" then Some(inner[0].value)
            else if key == "arguments" then Some(inner[1].value)
            else None
  {
    hide Print, Lookup;
    var inner := Inner(call, form);
    var tail := if form.wrapped then [Field("function", Object(inner))] else inner;
    LookupFirst(inner[0], [inner[1]], key);
    LookupFirst(inner[1], [], key);
    assert inner == [inner[0]] + [inner[1]] && [inner[1]] + [] == [inner[1]];
    LookupFirst(Field("function", Object(inner)), [], key);
    assert [Field("function", Object(inner))] + [] == [Field("function", Object(inner))];
    LookupFirst(Field("id", String(call.id)), tail, key);
    assert [] + tail == tail;
  }

  lemma LookupFirst(f: Field, rest: Fields, key: string)
    ensures Lookup([f] + rest, key) == if f.key == key then Some(f.value) else Lookup(rest, key)
    ensures Lookup([], key) == None
  {
    assert ([f] + rest)[1..] == rest;
  }

  lemma WrittenDepth(call: ToolCall, form: Form)
    ensures Depth(Written(call, form)) <= MAX_DEPTH <==> form.textual || Depth(call.arguments) <= Room(form)
  {
    hide Print;
    var inner := Inner(call, form);
    Events.TwoDepth(inner[0], inner[1]);
    var fields := Written(call, form).fields;
    if form.explicitId {
      if form.wrapped {
        assert fields == [Field("id", String(call.id)), Field("function", Object(inner))];
        Events.TwoDepth(fields[0], fields[1]);
      } else {
        assert fields == [Field("id", String(call.id)), inner[0], inner[1]];
        Events.ThreeDepth(fields[0], fields[1], fields[2]);
      }
    } else if form.wrapped {
      OneDepth(Field("function", Object(inner)));
      assert fields == [Field("function", Object(inner))];
    } else {
      assert fields == inner;
    }
  }

  lemma OneDepth(f: Field)
    ensures FieldsDepth([f]) == Depth(f.value)
  {
    assert [f][1..] == [];
    assert FieldsDepth([]) == 0;
  }

  lemma WrittenNumbers(call: ToolCall, form: Form)
    requires WellFormed(call.arguments)
    ensures NumbersOk(Written(call, form))
  {
    hide Print, WellFormed;
    WellFormedNumbers(call.arguments);
    assert NumbersOk(Object(Inner(call, form)));
  }

  /** In whatever form a call is written, it is read as it was meant: its name and its
      arguments, and its id if one is given; exactly if the arguments nest no deeper than
      the form leaves room for and the id is not empty. */
  lemma FormsParse(call: ToolCall, form: Form, tools: seq<ToolDefinition>, requestId: string, index: nat)
    requires Declared(tools, call.name) && call.arguments.Object? && WellFormed(call.arguments)
    ensures ParseOne(Print(Plain, Written(call, form)), tools, requestId, index) ==
            if Depth(call.arguments) > Room(form) then Err(if form.textual then InvalidArgumentText(call.name) else InvalidJson)
            else if form.explicitId && call.id == "" then Err(EmptyId)
            else Ok(ToolCall(if form.explicitId then call.id else requestId + "-" + Decimal(index), call.name, call.arguments))
  {
    hide Print, Canonical, Depth, NumbersOk, Declared, Written, Room;
    var v := Written(call, form);
    WrittenNumbers(call, form);
    WrittenDepth(call, form);
    WrittenMembers(call, form);
    ReadPrinted(Plain, v, "", MAX_DEPTH);
    assert Print(Plain, v) + "" == Print(Plain, v);
    assert Parse(Print(Plain, v)) == if form.textual || Depth(call.arguments) <= Room(form) then Some(Canonical(v)) else None;
    ParsePrint(Plain, call.arguments);
    RoomForText(form);
    hide Parse;
    if Parse(Print(Plain, v)).Some? {
      InterpretWritten(call, form, Canonical(v), tools, requestId, index);
    }
  }

  lemma RoomForText(form: Form)
    ensures form.textual ==> Room(form) == MAX_DEPTH
  {
  }

  lemma InterpretWritten(call: ToolCall, form: Form, v: Json, tools: seq<ToolDefinition>, requestId: string, index: nat)
    requires Declared(tools, call.name) && call.arguments.Object?
    requires v.Get("id") == (if form.explicitId then Some(String(call.id)) else None)
    requires Holder(v).Get("name") == Some(String(call.name)) && Holder(v).Get("arguments") == Some(Inner(call, form)[1].value)
    requires form.textual ==> Parse(Print(Plain, call.arguments)) == (if Depth(call.arguments) <= Room(form) then Some(call.arguments) else None)
    ensures InterpretCall(v, tools, requestId, index) ==
            if form.textual && Depth(call.arguments) > Room(form) then Err(InvalidArgumentText(call.name))
            else if form.explicitId && call.id == "" then Err(EmptyId)
            else Ok(ToolCall(if form.explicitId then call.id else requestId + "-" + Decimal(index), call.name, call.arguments))
  {
    hide Parse, Print, Depth, Declared, Room;
    GeneratedNotEmpty(requestId, index);
  }

  lemma GeneratedNotEmpty(requestId: string, index: nat)
    ensures requestId + "-" + Decimal(index) != ""
  {
    assert |requestId + "-" + Decimal(index)| >= 1;
  }

  // ------------------------------------------------------------ whole texts

  /** The blocks are calls in their places after those before, and all ids differ. */
  ghost predicate Follows(bodies: seq<string>, read: Reader, before: seq<ToolCall>, calls: seq<ToolCall>) {
    && |calls| == |before| + |bodies| && before <= calls
    && (forall i, j | 0 <= i < j < |calls| :: calls[i].id != calls[j].id)
    && forall i | 0 <= i < |bodies| :: ReadsAs(bodies, read, |before|, calls, i)
  }

  ghost predicate ReadsAs(bodies: seq<string>, read: Reader, n: nat, calls: seq<ToolCall>, i: nat)
    requires i < |bodies| && |calls| == n + |bodies|
  {
    read(bodies[i], n + i) == Ok(calls[n + i])
  }

  lemma {:induction false} InterpretExact(bodies: seq<string>, read: Reader, before: seq<ToolCall>, calls: seq<ToolCall>)
    requires forall i, j | 0 <= i < j < |before| :: before[i].id != before[j].id
    ensures Interpret(bodies, read, before) == Ok(calls) <==> Follows(bodies, read, before, calls)
    decreases |bodies|
  {
    if bodies == [] {
      assert before <= calls && |calls| == |before| ==> before == calls;
    } else {
      if Follows(bodies, read, before, calls) { FirstFollows(bodies, read, before, calls); }
      hide Follows;
      if read(bodies[0], |before|).Ok? {
        var call := read(bodies[0], |before|).value;
        var ids := CallIds(before);
        assert forall i | 0 <= i < |before| :: ids[i] == before[i].id;
        if call.id !in ids {
          InterpretExact(bodies[1..], read, before + [call], calls);
          NextFollows(bodies, read, before, call, calls);
        } else {
          var k :| 0 <= k < |ids| && ids[k] == call.id;
          assert before[k].id == call.id;
        }
      }
    }
  }

  /** The first block must be a call with an id of its own. */
  lemma FirstFollows(bodies: seq<string>, read: Reader, before: seq<ToolCall>, calls: seq<ToolCall>)
    requires bodies != [] && Follows(bodies, read, before, calls)
    ensures read(bodies[0], |before|).Ok? && forall k | 0 <= k < |before| :: before[k].id != read(bodies[0], |before|).value.id
  {
    assert ReadsAs(bodies, read, |before|, calls, 0);
    forall k | 0 <= k < |before| ensures before[k].id != calls[|before|].id { assert calls[k] == before[k]; }
  }

  lemma NextFollows(bodies: seq<string>, read: Reader, before: seq<ToolCall>, call: ToolCall, calls: seq<ToolCall>)
    requires bodies != [] && read(bodies[0], |before|) == Ok(call)
    ensures Follows(bodies, read, before, calls) <==> Follows(bodies[1..], read, before + [call], calls)
  {
    var now, n := before + [call], |before|;
    if Follows(bodies, read, before, calls) {
      assert ReadsAs(bodies, read, n, calls, 0);
      forall i | 0 <= i < |bodies[1..]| ensures ReadsAs(bodies[1..], read, |now|, calls, i) { assert ReadsAs(bodies, read, n, calls, i + 1); }
    }
    if Follows(bodies[1..], read, now, calls) {
      assert calls[n] == now[n];
      forall i | 0 <= i < |bodies| ensures ReadsAs(bodies, read, n, calls, i) {
        if i > 0 { assert ReadsAs(bodies[1..], read, |now|, calls, i - 1); }
      }
    }
  }

  /** The calls are those of the blocks, each in its place, with different ids. */
  ghost predicate CallsOf(bodies: seq<string>, tools: seq<ToolDefinition>, requestId: string, calls: seq<ToolCall>) {
    && |calls| == |bodies|
    && (forall i, j | 0 <= i < j < |calls| :: calls[i].id != calls[j].id)
    && forall i | 0 <= i < |bodies| :: ParseOne(Trim(bodies[i]), tools, requestId, i) == Ok(calls[i])
  }

  lemma BlocksExact(bodies: seq<string>, tools: seq<ToolDefinition>, requestId: string, calls: seq<ToolCall>)
    ensures Interpret(bodies, CallReader(tools, requestId), []) == Ok(calls) <==> CallsOf(bodies, tools, requestId, calls)
  {
    hide ParseOne, Trim, Interpret;
    var read := CallReader(tools, requestId);
    var none: seq<ToolCall> := [];
    InterpretExact(bodies, read, none, calls);
    if |calls| == |bodies| {
      forall i | 0 <= i < |bodies|
        ensures ReadsAs(bodies, read, |none|, calls, i) <==> ParseOne(Trim(bodies[i]), tools, requestId, i) == Ok(calls[i])
      {
        assert read(bodies[i], |none| + i) == ParseOne(Trim(bodies[i]), tools, requestId, i);
      }
    }
  }

  /** A text is accepted exactly if no block is left open and each block is a call; what
      shows is the text around the blocks, trimmed. */
  lemma TextExact(text: string, tools: seq<ToolDefinition>, requestId: string, visible: string, calls: seq<ToolCall>)
    ensures ParseToolCalls(text, tools, requestId) == Ok((visible, calls)) <==>
              var p := TaggedText.Split(text, "<tool_call>", "</tool_call>");
              !p.unterminated && visible == Trim(TaggedText.Concat(p.segments)) && CallsOf(p.bodies, tools, requestId, calls)
  {
    hide CallsOf, TaggedText.Split, TaggedText.Concat, Interpret, CallReader, Trim;
    BlocksExact(TaggedText.Split(text, OPEN, CLOSE).bodies, tools, requestId, calls);
  }

  lemma {:induction false} InterpretFrom(bodies: seq<string>, read: Reader, before: seq<ToolCall>, calls: seq<ToolCall>, n: nat)
    requires n <= |bodies| && Interpret(bodies[..n], read, before) == Ok(calls)
    ensures Interpret(bodies, read, before) == Interpret(bodies[n..], read, calls)
    decreases n
  {
    if n == 0 {
      assert bodies[0..] == bodies;
    } else {
      assert bodies[..n][0] == bodies[0] && bodies[..n][1..] == bodies[1..][..n - 1] && bodies[1..][n - 1..] == bodies[n..];
      InterpretFrom(bodies[1..], read, before + [read(bodies[0], |before|).value], calls, n - 1);
    }
  }

  /** The first block that is no call, or repeats an id, decides the error; an open block
      is the error only if all whole blocks are calls. */
  lemma FirstErrorWins(text: string, tools: seq<ToolDefinition>, requestId: string, n: nat, calls: seq<ToolCall>)
    requires n <= |TaggedText.Split(text, "<tool_call>", "</tool_call>").bodies|
    requires CallsOf(TaggedText.Split(text, "<tool_call>", "</tool_call>").bodies[..n], tools, requestId, calls)
    ensures var p := TaggedText.Split(text, "<tool_call>", "</tool_call>");
            && (n == |p.bodies| && p.unterminated ==> ParseToolCalls(text, tools, requestId) == Err(UnterminatedBlock))
            && (n < |p.bodies| ==>
                  var r := ParseOne(Trim(p.bodies[n]), tools, requestId, n);
                  && (r.Err? ==> ParseToolCalls(text, tools, requestId) == Err(r.error))
                  && (r.Ok? && (exists i :: 0 <= i < n && calls[i].id == r.value.id) ==>
                        ParseToolCalls(text, tools, requestId) == Err(DuplicateId(r.value.id))))
  {
    hide CallsOf, TaggedText.Split, TaggedText.Concat, Trim, ParseOne;
    var p := TaggedText.Split(text, OPEN, CLOSE);
    var read := CallReader(tools, requestId);
    BlocksExact(p.bodies[..n], tools, requestId, calls);
    assert |calls| == n by { CallsCount(p.bodies[..n], tools, requestId, calls); }
    InterpretFrom(p.bodies, read, [], calls, n);
    if n < |p.bodies| {
      assert p.bodies[n..][0] == p.bodies[n];
      assert read(p.bodies[n], n) == ParseOne(Trim(p.bodies[n]), tools, requestId, n);
      assert forall i | 0 <= i < n :: CallIds(calls)[i] == calls[i].id;
    } else {
      assert p.bodies[n..] == [];
    }
  }

  lemma CallsCount(bodies: seq<string>, tools: seq<ToolDefinition>, requestId: string, calls: seq<ToolCall>)
    requires CallsOf(bodies, tools, requestId, calls)
    ensures |calls| == |bodies|
  {
  }
}
