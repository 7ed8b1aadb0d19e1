/** The private events a worker streams to the coordinator, and their JSON form. */
module StreamEvents {
  import opened Wrappers
  import opened Text
  import opened Json
  import opened JsonRoundTrip
  import opened Chat

  datatype Event =
    | TextDelta(text: string)
    | Completed(inputTokens: nat, outputTokens: nat, calls: seq<ToolCall>, reason: FinishReason)
    | Error(message: string)

  // ---------------------------------------------------------------- writing

  function CallJson(call: ToolCall): Json {
    Object([Field("id", String(call.id)), Field("type", String("function")),
            Field("function", Object([Field("name", String(call.name)), Field("arguments", call.arguments)]))])
  }

  function CallsJson(calls: seq<ToolCall>): (r: seq<Json>)
    ensures |r| == |calls| && forall i | 0 <= i < |r| :: r[i] == CallJson(calls[i])
  {
    if calls == [] then [] else [CallJson(calls[0])] + CallsJson(calls[1..])
  }

  function ReasonName(reason: FinishReason): string {
    if reason.Stop? then "stop" else "tool_calls"
  }

  function EventJson(e: Event): Json {
    match e
    case TextDelta(text) => Object([Field("type", String("text_delta")), Field("text", String(text))])
    case Completed(input, output, calls, reason) =>
      Object([Field("type", String("completed")), Field("input_tokens", Number(Decimal(input))),
              Field("output_tokens", Number(Decimal(output))), Field("tool_calls", Array(CallsJson(calls))),
              Field("finish_reason", String(ReasonName(reason)))])
    case Error(message) => Object([Field("type", String("error")), Field("message", String(message))])
  }

  function Payload(e: Event): string { Print(Plain, EventJson(e)) }

  // ---------------------------------------------------------------- reading

  function ReadText(v: Option<Json>): Option<string> {
    match v case Some(String(s)) => Some(s) case _ => None
  }

  /** A machine word: digits only, and small enough. */
  function ReadCount(v: Option<Json>): Option<nat> {
    match v
    case Some(Number(lexeme)) =>
      (match DecimalValue(lexeme) case Some(n) => if n <= USIZE_MAX then Some(n) else None case None => None)
    case _ => None
  }

  function ReadReason(v: Option<Json>): Option<FinishReason> {
    match ReadText(v)
    case Some(name) => if name == "stop" then Some(Stop) else if name == "tool_calls" then Some(ToolCalls) else None
    case None => None
  }

  function ReadCall(v: Json): Option<ToolCall> {
    var f := match v.Get("function") { case Some(f) => f case None => Null };
    match (ReadText(v.Get("id")), ReadText(v.Get("type")), ReadText(f.Get("name")), f.Get("arguments"))
    case (Some(id), Some(kind), Some(name), Some(arguments)) => if kind == "function" then Some(ToolCall(id, name, arguments)) else None
    case _ => None
  }

  function ReadItems(items: seq<Json>): Option<seq<ToolCall>> {
    if items == [] then Some([])
    else
      match (ReadCall(items[0]), ReadItems(items[1..]))
      case (Some(call), Some(calls)) => Some([call] + calls)
      case _ => None
  }

  function ReadCalls(v: Option<Json>): Option<seq<ToolCall>> {
    match v case Some(Array(items)) => ReadItems(items) case _ => None
  }

  function ReadCompleted(v: Json): Option<Event> {
    match (ReadCount(v.Get("input_tokens")), ReadCount(v.Get("output_tokens")), ReadCalls(v.Get("tool_calls")), ReadReason(v.Get("finish_reason")))
    case (Some(input), Some(output), Some(calls), Some(reason)) => Some(Completed(input, output, calls, reason))
    case _ => None
  }

  function ReadEvent(v: Json): Option<Event> {
    match ReadText(v.Get("type"))
    case None => None
    case Some(kind) =>
      if kind == "text_delta" then (match ReadText(v.Get("text")) case Some(text) => Some(TextDelta(text)) case None => None)
      else if kind == "completed" then ReadCompleted(v)
      else if kind == "error" then (match ReadText(v.Get("message")) case Some(m) => Some(Error(m)) case None => None)
      else None
  }

  /** What the coordinator makes of a payload. */
  function ParseEvent(payload: string): Option<Event> {
    match Parse(payload)
    case None => None
    case Some(v) => ReadEvent(v)
  }

  // ------------------------------------------------------------- round trip

  lemma {:induction false} DigitsRun(s: string)
    requires forall i | 0 <= i < |s| :: IsDigit(s[i])
    ensures DigitRun(s) == |s|
  {
    if s != [] { DigitsRun(s[1..]); }
  }

  lemma DecimalIsNumber(n: nat)
    ensures NumberLength(Decimal(n)) == Some(|Decimal(n)|)
  {
    var s := Decimal(n);
    DigitsRun(s);
    assert IntegerLength(s) == Some(|s|);
    assert s[|s|..] == [];
    assert IsDigit(s[0]);
  }

  predicate DistinctKeys(fields: Fields) {
    forall i, j | 0 <= i < j < |fields| :: fields[i].key != fields[j].key
  }

  lemma {:induction false} CanonicalLookup(read: Fields, fields: Fields, key: string)
    requires DistinctKeys(fields)
    ensures Lookup(CanonicalFields(read, fields), key) ==
            match Lookup(fields, key) { case Some(v) => Some(Canonical(v)) case None => Lookup(read, key) }
    decreases fields
  {
    hide Canonical;
    if fields != [] {
      var v := Canonical(fields[0].value);
      CanonicalLookup(Insert(read, fields[0].key, v), fields[1..], key);
      LookupInsert(read, fields[0].key, v, key);
      if fields[0].key == key { AbsentLater(fields); }
    }
  }

  lemma AbsentLater(fields: Fields)
    requires fields != [] && DistinctKeys(fields)
    ensures Lookup(fields[1..], fields[0].key) == None
  {
    LookupAbsent(fields[1..], fields[0].key);
  }

  lemma {:induction false} LookupAbsent(fields: Fields, key: string)
    requires forall i | 0 <= i < |fields| :: fields[i].key != key
    ensures Lookup(fields, key) == None
  {
    if fields != [] { LookupAbsent(fields[1..], key); }
  }

  /** Reading a written object finds its members. */
  lemma CanonicalGet(fields: Fields, key: string)
    requires DistinctKeys(fields)
    ensures Canonical(Object(fields)).Get(key) ==
            match Lookup(fields, key) { case Some(v) => Some(Canonical(v)) case None => None }
  {
    CanonicalLookup([], fields, key);
  }

  lemma CallReads(call: ToolCall)
    requires WellFormed(call.arguments)
    ensures ReadCall(Canonical(CallJson(call))) == Some(call)
  {
    hide WellFormed, Canonical, Lookup;
    var inner := [Field("name", String(call.name)), Field("arguments", call.arguments)];
    var outer := [Field("id", String(call.id)), Field("type", String("function")), Field("function", Object(inner))];
    CanonicalIdentity(call.arguments);
    Texts();
    LookupTwo(inner[0], inner[1]);
    LookupThree(outer[0], outer[1], outer[2]);
    CanonicalGet(inner, "name");
    CanonicalGet(inner, "arguments");
    CanonicalGet(outer, "id");
    CanonicalGet(outer, "type");
    CanonicalGet(outer, "function");
  }

  lemma Texts()
    ensures forall s: string :: Canonical(String(s)) == String(s)
    ensures forall s: string :: Canonical(Number(s)) == Number(s)
  {
  }

  lemma LookupTwo(a: Field, b: Field)
    ensures Lookup([a, b], a.key) == Some(a.value)
    ensures a.key != b.key ==> Lookup([a, b], b.key) == Some(b.value)
  {
    assert [a, b][1..] == [b];
  }

  lemma LookupThree(a: Field, b: Field, c: Field)
    requires DistinctKeys([a, b, c])
    ensures Lookup([a, b, c], a.key) == Some(a.value)
    ensures Lookup([a, b, c], b.key) == Some(b.value)
    ensures Lookup([a, b, c], c.key) == Some(c.value)
  {
    assert [a, b, c][0] == a && [a, b, c][1] == b && [a, b, c][2] == c;
    assert [a, b, c][1..] == [b, c];
    LookupTwo(b, c);
  }

  ghost predicate CallsWellFormed(calls: seq<ToolCall>) {
    forall i | 0 <= i < |calls| :: WellFormed(calls[i].arguments)
  }

  lemma ItemsRead(v: Json, items: seq<Json>, call: ToolCall, calls: seq<ToolCall>)
    requires ReadCall(v) == Some(call) && ReadItems(items) == Some(calls)
    ensures ReadItems([v] + items) == Some([call] + calls)
  {
    hide ReadCall;
    assert ([v] + items)[1..] == items;
  }

  lemma {:induction false} CallsRead(calls: seq<ToolCall>)
    requires CallsWellFormed(calls)
    ensures ReadItems(CanonicalItems(CallsJson(calls))) == Some(calls)
  {
    if calls != [] {
      hide WellFormed, Canonical, ReadCall, CallJson, ReadItems;
      CallReads(calls[0]);
      CallsRead(calls[1..]);
      var items := CallsJson(calls);
      assert items[0] == CallJson(calls[0]) && items[1..] == CallsJson(calls[1..]);
      ItemsRead(Canonical(items[0]), CanonicalItems(items[1..]), calls[0], calls[1..]);
      assert calls == [calls[0]] + calls[1..];
    }
  }

  /** What the worker can send: counts are machine words, arguments as its parser reads them. */
  ghost predicate Sendable(e: Event) {
    e.Completed? ==> e.inputTokens <= USIZE_MAX && e.outputTokens <= USIZE_MAX && CallsWellFormed(e.calls)
  }

  lemma ArrayCanonical(items: seq<Json>)
    ensures Canonical(Array(items)) == Array(CanonicalItems(items))
  {
  }

  lemma LookupFive(f: Fields)
    requires |f| == 5 && DistinctKeys(f)
    ensures forall i | 0 <= i < 5 :: Lookup(f, f[i].key) == Some(f[i].value)
  {
    forall i | 0 <= i < 5 ensures Lookup(f, f[i].key) == Some(f[i].value) { LookupAt(f, i); }
  }

  lemma {:induction false} LookupAt(f: Fields, i: nat)
    requires i < |f| && DistinctKeys(f)
    ensures Lookup(f, f[i].key) == Some(f[i].value)
  {
    if i > 0 { LookupAt(f[1..], i - 1); }
  }

  lemma CompletedReads(e: Event)
    requires e.Completed? && Sendable(e)
    ensures ReadEvent(Canonical(EventJson(e))) == Some(e)
  {
    hide Canonical, Lookup, CanonicalItems, ReadItems, CallsWellFormed, CallsJson, Decimal, DecimalValue;
    var f := EventJson(e).fields;
    assert f[0].key == "type" && f[1].key == "input_tokens" && f[2].key == "output_tokens";
    assert f[3].key == "tool_calls" && f[4].key == "finish_reason";
    LookupFive(f);
    Texts();
    CallsRead(e.calls);
    ArrayCanonical(CallsJson(e.calls));
    DecimalRoundTrip(e.inputTokens);
    DecimalRoundTrip(e.outputTokens);
    CanonicalGet(f, "type");
    CanonicalGet(f, "input_tokens");
    CanonicalGet(f, "output_tokens");
    CanonicalGet(f, "tool_calls");
    CanonicalGet(f, "finish_reason");
  }

  lemma EventReads(e: Event)
    requires Sendable(e)
    ensures ReadEvent(Canonical(EventJson(e))) == Some(e)
  {
    if e.Completed? {
      CompletedReads(e);
    } else {
      hide Canonical, Lookup;
      var f := EventJson(e).fields;
      Texts();
      LookupTwo(f[0], f[1]);
      CanonicalGet(f, f[0].key);
      CanonicalGet(f, f[1].key);
    }
  }

  // ---------------------------------------------------------------- nesting

  /** The deepest arguments that fit into an event. */
  const MAX_ARGUMENTS: nat := MAX_DEPTH - 4

  lemma TwoDepth(a: Field, b: Field)
    ensures FieldsDepth([a, b]) == Max(Depth(a.value), Depth(b.value))
  {
    assert [a, b][1..] == [b] && [b][1..] == [];
    assert FieldsDepth([b]) == Depth(b.value);
  }

  lemma ThreeDepth(a: Field, b: Field, c: Field)
    ensures FieldsDepth([a, b, c]) == Max(Depth(a.value), Max(Depth(b.value), Depth(c.value)))
  {
    assert [a, b, c][1..] == [b, c];
    TwoDepth(b, c);
  }

  lemma CallDepth(call: ToolCall)
    ensures Depth(CallJson(call)) == 2 + Depth(call.arguments)
  {
    hide FieldsDepth;
    var name, arguments := Field("name", String(call.name)), Field("arguments", call.arguments);
    var inner := Object([name, arguments]);
    TwoDepth(name, arguments);
    ThreeDepth(Field("id", String(call.id)), Field("type", String("function")), Field("function", inner));
  }

  lemma {:induction false} CallsDepth(calls: seq<ToolCall>, limit: nat)
    requires limit >= 2
    ensures ItemsDepth(CallsJson(calls)) <= limit <==> forall i | 0 <= i < |calls| :: Depth(calls[i].arguments) <= limit - 2
  {
    hide CallJson, Depth;
    if calls != [] {
      assert CallsJson(calls)[1..] == CallsJson(calls[1..]);
      CallDepth(calls[0]);
      CallsDepth(calls[1..], limit);
      assert (forall i | 0 <= i < |calls| :: Depth(calls[i].arguments) <= limit - 2) <==>
             Depth(calls[0].arguments) <= limit - 2 && forall i | 0 <= i < |calls[1..]| :: Depth(calls[1..][i].arguments) <= limit - 2 by {
        assert forall i | 0 < i < |calls| :: calls[i] == calls[1..][i - 1];
      }
    }
  }

  lemma FiveDepth(a: Field, b: Field, c: Field, d: Field, e: Field)
    requires Depth(a.value) == 0 && Depth(b.value) == 0 && Depth(c.value) == 0 && Depth(e.value) == 0
    ensures FieldsDepth([a, b, c, d, e]) == Depth(d.value)
  {
    assert [a, b, c, d, e][1..] == [b, c, d, e] && [b, c, d, e][1..] == [c, d, e];
    ThreeDepth(c, d, e);
  }

  /** All arguments of the event are shallow enough. */
  predicate Shallow(e: Event) {
    e.Completed? ==> forall i | 0 <= i < |e.calls| :: Depth(e.calls[i].arguments) <= MAX_ARGUMENTS
  }

  lemma EventDepth(e: Event)
    ensures Depth(EventJson(e)) <= MAX_DEPTH <==> Shallow(e)
  {
    if e.Completed? {
      var f := EventJson(e).fields;
      FiveDepth(f[0], f[1], f[2], f[3], f[4]);
      assert f == [f[0], f[1], f[2], f[3], f[4]];
      assert Depth(f[3].value) == 1 + ItemsDepth(CallsJson(e.calls));
      CallsDepth(e.calls, MAX_DEPTH - 2);
    } else {
      var f := EventJson(e).fields;
      TwoDepth(f[0], f[1]);
      assert f == [f[0], f[1]];
    }
  }

  lemma EventNumbers(e: Event)
    requires Sendable(e)
    ensures NumbersOk(EventJson(e))
  {
    if e.Completed? {
      DecimalIsNumber(e.inputTokens);
      DecimalIsNumber(e.outputTokens);
      forall i | 0 <= i < |e.calls| ensures NumbersOk(CallsJson(e.calls)[i]) {
        CallNumbers(e.calls[i]);
      }
      assert NumbersOk(Array(CallsJson(e.calls)));
    }
  }

  lemma CallNumbers(call: ToolCall)
    requires WellFormed(call.arguments)
    ensures NumbersOk(CallJson(call))
  {
    WellFormedNumbers(call.arguments);
    var inner := Object([Field("name", String(call.name)), Field("arguments", call.arguments)]);
    assert NumbersOk(inner);
  }

  /** An event the worker sends is the event the coordinator reads, exactly if no tool
      call nests its arguments deeper than 123 containers; a deeper one is unreadable. */
  lemma PayloadRoundTrip(e: Event)
    requires Sendable(e)
    ensures ParseEvent(Payload(e)) == if Shallow(e) then Some(e) else None
  {
    hide NumbersOk, Canonical, Print, ReadEvent, EventJson, Shallow, Sendable, Depth;
    var v := EventJson(e);
    EventNumbers(e);
    EventReads(e);
    EventDepth(e);
    ReadPrinted(Plain, v, "", MAX_DEPTH);
    assert Print(Plain, v) + "" == Print(Plain, v);
  }

  /** A payload is one line, and starts right away. */
  lemma PayloadIsALine(e: Event)
    requires Sendable(e)
    ensures '\n' !in Payload(e) && '\r' !in Payload(e) && Payload(e) != [] && Payload(e)[0] == '{'
  {
    EventNumbers(e);
    PrintAvoids(Plain, EventJson(e), '\n');
    PrintAvoids(Plain, EventJson(e), '\r');
  }
}
