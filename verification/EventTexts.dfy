/** The private events as they stand on the wire, and the data of a frame of any lines. */
module EventTexts {
  import opened Wrappers
  import opened Text
  import opened Json
  import opened Chat
  import opened QwenRoundTrip
  import opened SseFraming
  import opened Utf8
  import opened Forwarding
  import opened StreamEvents

  // ------------------------------------------------------------ the payloads

  lemma Word(name: string)
    requires forall i | 0 <= i < |name| :: NameChar(name[i])
    ensures PrintString(Plain, name) == "\"" + name + "\""
  {
    NameUnescaped(name);
  }

  /** A member as it stands in an object. */
  function Member(key: string, value: string): string { "\"" + key + "\":" + value }

  lemma OneMember(key: string, v: Json)
    requires forall i | 0 <= i < |key| :: NameChar(key[i])
    ensures PrintFields(Plain, [Field(key, v)]) == Member(key, Print(Plain, v))
  {
    hide Print, PrintChars;
    Word(key);
    assert "\"" + ":" == "\":";
  }

  lemma MoreMembers(key: string, v: Json, rest: Fields)
    requires rest != [] && forall i | 0 <= i < |key| :: NameChar(key[i])
    ensures PrintFields(Plain, [Field(key, v)] + rest) == Member(key, Print(Plain, v)) + "," + PrintFields(Plain, rest)
  {
    hide Print, PrintChars;
    Word(key);
    var all := [Field(key, v)] + rest;
    assert all[1..] == rest;
    Join("\"" + key, Print(Plain, v), PrintFields(Plain, rest));
  }

  lemma Join(k: string, p: string, r: string)
    ensures k + "\"" + ":" + p + ("," + r) == k + "\":" + p + "," + r
  {
    assert "\"" + ":" == "\":";
  }

  lemma DeltaText(text: string)
    ensures Payload(TextDelta(text)) == "{" + (Member("type", "\"text_delta\"") + "," + Member("text", PrintString(Plain, text))) + "}"
  {
    hide PrintFields, PrintChars, Member;
    Word("text_delta");
    assert "\"" + "text_delta" + "\"" == "\"text_delta\"";
    MoreMembers("type", String("text_delta"), [Field("text", String(text))]);
    OneMember("text", String(text));
    assert EventJson(TextDelta(text)).fields == [Field("type", String("text_delta"))] + [Field("text", String(text))];
  }

  lemma ErrorText(message: string)
    ensures Payload(Event.Error(message)) == "{" + (Member("type", "\"error\"") + "," + Member("message", PrintString(Plain, message))) + "}"
  {
    hide PrintFields, PrintChars, Member;
    Word("error");
    assert "\"" + "error" + "\"" == "\"error\"";
    MoreMembers("type", String("error"), [Field("message", String(message))]);
    OneMember("message", String(message));
    assert EventJson(Event.Error(message)).fields == [Field("type", String("error"))] + [Field("message", String(message))];
  }

  /** A tool call in an event. */
  lemma CallEventText(call: ToolCall)
    ensures Print(Plain, CallJson(call)) ==
            "{" + (Member("id", PrintString(Plain, call.id)) + "," +
                   (Member("type", "\"function\"") + "," +
                    Member("function", "{" + (Member("name", PrintString(Plain, call.name)) + "," +
                                              Member("arguments", Print(Plain, call.arguments))) + "}"))) + "}"
  {
    hide PrintFields, PrintChars, Member;
    Word("function");
    assert "\"" + "function" + "\"" == "\"function\"";
    var inner := [Field("name", String(call.name)), Field("arguments", call.arguments)];
    MoreMembers("name", String(call.name), [Field("arguments", call.arguments)]);
    OneMember("arguments", call.arguments);
    assert inner == [Field("name", String(call.name))] + [Field("arguments", call.arguments)];
    var last := [Field("function", Object(inner))];
    OneMember("function", Object(inner));
    MoreMembers("type", String("function"), last);
    var later := [Field("type", String("function"))] + last;
    MoreMembers("id", String(call.id), later);
    assert CallJson(call).fields == [Field("id", String(call.id))] + later;
  }

  /** A completed event. */
  lemma CompletedText(input: nat, output: nat, calls: seq<ToolCall>, reason: FinishReason)
    ensures Payload(Completed(input, output, calls, reason)) ==
            "{" + (Member("type", "\"completed\"") + "," +
                   (Member("input_tokens", Decimal(input)) + "," +
                    (Member("output_tokens", Decimal(output)) + "," +
                     (Member("tool_calls", "[" + PrintItems(Plain, CallsJson(calls)) + "]") + "," +
                      Member("finish_reason", if reason.Stop? then "\"stop\"" else "\"tool_calls\""))))) + "}"
  {
    hide PrintFields, PrintChars, PrintItems, CallsJson, Decimal, Member;
    Word("completed");
    Word(ReasonName(reason));
    assert "\"" + "completed" + "\"" == "\"completed\"" && "\"" + "stop" + "\"" == "\"stop\"" && "\"" + "tool_calls" + "\"" == "\"tool_calls\"";
    var e := [Field("finish_reason", String(ReasonName(reason)))];
    OneMember("finish_reason", String(ReasonName(reason)));
    var d := [Field("tool_calls", Array(CallsJson(calls)))] + e;
    MoreMembers("tool_calls", Array(CallsJson(calls)), e);
    var c := [Field("output_tokens", Number(Decimal(output)))] + d;
    MoreMembers("output_tokens", Number(Decimal(output)), d);
    var b := [Field("input_tokens", Number(Decimal(input)))] + c;
    MoreMembers("input_tokens", Number(Decimal(input)), c);
    MoreMembers("type", String("completed"), b);
    assert EventJson(Completed(input, output, calls, reason)).fields == [Field("type", String("completed"))] + b;
  }

  // ---------------------------------------------------------- data of a frame

  /** Which lines carry data, and what: those that start with the word, without it and
      without the whitespace after it. */
  lemma DataLinesExact(line: string, rest: seq<string>)
    ensures DataLines([]) == []
    ensures "data:" <= line ==> DataLines([line] + rest) == [TrimStart(line[5..])] + DataLines(rest)
    ensures !("data:" <= line) ==> DataLines([line] + rest) == DataLines(rest)
  {
    assert ([line] + rest)[1..] == rest;
  }

  lemma JoinLinesExact(a: string, b: string, rest: seq<string>)
    ensures JoinLines([a]) == a && JoinLines([a, b] + rest) == a + "\n" + JoinLines([b] + rest)
  {
    assert ([a, b] + rest)[1..] == [b] + rest;
  }

  /** The data of a frame: its lines may end with or without a carriage return, and those
      without data, comments among them, do not matter. */
  lemma FrameData(lines: seq<string>, crlf: seq<bool>)
    requires |crlf| == |lines| && forall i | 0 <= i < |lines| :: IsLine(lines[i])
    ensures SseData(Encode(WithEnds(lines, crlf))) ==
            Ok(if DataLines(lines) == [] then None else Some(JoinLines(DataLines(lines))))
  {
    hide Lines, DataLines, WithEnds, Encode, Decode;
    LinesExact(lines, crlf, "");
    assert WithEnds(lines, crlf) + "" == WithEnds(lines, crlf) && lines + [] == lines;
    DecodeEncode(WithEnds(lines, crlf));
  }

  /** Bytes that are not UTF-8 are an error. */
  lemma NotText(frame: Bytes)
    ensures SseData(frame) == Err(InvalidUtf8) <==> forall s :: Encode(s) != frame
  {
    hide Lines, DataLines;
    if Decode(frame).Some? {
      EncodeDecode(frame);
    } else {
      forall s ensures Encode(s) != frame { DecodeEncode(s); }
    }
  }

  /** What is made of a frame: data that is no event is an error, but the end mark and
      frames without data are passed over. */
  lemma InterpretExact(frame: Bytes)
    ensures match SseData(frame)
            case Err(e) => Interpret(frame) == Bad(InvalidUtf8)
            case Ok(None) => Interpret(frame) == Skip
            case Ok(Some(payload)) =>
              if payload == "[DONE]" then Interpret(frame) == Skip
              else if ParseEvent(payload).None? then Interpret(frame) == Bad(InvalidEvent)
              else Interpret(frame) == Got(ParseEvent(payload).value)
  {
    hide ParseEvent, Lines, DataLines;
  }

  // ------------------------------------------------------ what is accepted

  ghost predicate GivesCall(v: Json, call: ToolCall) {
    && v.Get("id") == Some(String(call.id)) && v.Get("type") == Some(String("function"))
    && v.Get("function").Some? && v.Get("function").value.Get("name") == Some(String(call.name))
    && v.Get("function").value.Get("arguments") == Some(call.arguments)
  }

  ghost predicate GivesCount(v: Option<Json>, n: nat) {
    v.Some? && v.value.Number? && DecimalValue(v.value.lexeme) == Some(n) && n <= 0xFFFF_FFFF_FFFF_FFFF
  }

  lemma ReadCallExact(v: Json, call: ToolCall)
    ensures ReadCall(v) == Some(call) <==> GivesCall(v, call)
  {
  }

  lemma {:induction false} ReadItemsExact(items: seq<Json>, calls: seq<ToolCall>)
    ensures StreamEvents.ReadItems(items) == Some(calls) <==> |calls| == |items| && forall i | 0 <= i < |items| :: GivesCall(items[i], calls[i])
  {
    hide ReadCall, GivesCall;
    if items != [] {
      if calls != [] {
        ReadCallExact(items[0], calls[0]);
        ReadItemsExact(items[1..], calls[1..]);
        assert calls == [calls[0]] + calls[1..];
        if |calls| == |items| {
          assert (forall i | 0 <= i < |items| :: GivesCall(items[i], calls[i])) <==>
                 GivesCall(items[0], calls[0]) && forall i | 0 <= i < |items[1..]| :: GivesCall(items[1..][i], calls[1..][i]) by {
            assert forall i | 0 < i < |items| :: items[i] == items[1..][i - 1] && calls[i] == calls[1..][i - 1];
          }
        }
      }
    }
  }

  /** Which JSON values are events: exactly those with the members of one. */
  lemma ReadEventExact(v: Json, e: Event)
    ensures ReadEvent(v) == Some(e) <==>
              match e
              case TextDelta(text) => v.Get("type") == Some(String("text_delta")) && v.Get("text") == Some(String(text))
              case Error(message) => v.Get("type") == Some(String("error")) && v.Get("message") == Some(String(message))
              case Completed(input, output, calls, reason) =>
                && v.Get("type") == Some(String("completed"))
                && GivesCount(v.Get("input_tokens"), input) && GivesCount(v.Get("output_tokens"), output)
                && v.Get("tool_calls").Some? && v.Get("tool_calls").value.Array?
                && |calls| == |v.Get("tool_calls").value.items|
                && (forall i | 0 <= i < |calls| :: GivesCall(v.Get("tool_calls").value.items[i], calls[i]))
                && v.Get("finish_reason") == Some(String(if reason.Stop? then "stop" else "tool_calls"))
  {
    hide Lookup, GivesCall, StreamEvents.ReadItems, DecimalValue;
    if e.Completed? && v.Get("tool_calls").Some? && v.Get("tool_calls").value.Array? {
      ReadItemsExact(v.Get("tool_calls").value.items, e.calls);
    }
  }
}
