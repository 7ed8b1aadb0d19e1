/** What the worker's parser hands out can always be answered by a client. */
module ToolProtocol {
  import opened Wrappers
  import opened Chat
  import opened TaggedText
  import opened ToolHistory
  import Parser = ToolCallParser

  /** One tool result per call, in order. */
  function Results(calls: seq<ToolCall>, contents: seq<string>): seq<Message>
    requires |contents| == |calls|
  {
    if calls == [] then []
    else [Message(Tool, contents[0], [], Some(calls[0].id))] + Results(calls[1..], contents[1..])
  }

  lemma {:induction false} CheckMessagesConcat(pending: seq<string>, a: seq<Message>, b: seq<Message>, tools: seq<ToolDefinition>)
    ensures CheckMessages(pending, a + b, tools) ==
            match CheckMessages(pending, a, tools) {
              case Err(e) => Err(e)
              case Ok(now) => CheckMessages(now, b, tools)
            }
    decreases |a|
  {
    if a == [] {
      assert a + b == b;
    } else {
      assert (a + b)[1..] == a[1..] + b;
      match CheckMessage(pending, a[0], tools)
      case Err(_) =>
      case Ok(now) => CheckMessagesConcat(now, a[1..], b, tools);
    }
  }

  lemma {:induction false} ResultsSettle(calls: seq<ToolCall>, contents: seq<string>, tools: seq<ToolDefinition>)
    requires |contents| == |calls| && forall i | 0 <= i < |calls| :: calls[i].id != []
    ensures CheckMessages(CallIds(calls), Results(calls, contents), tools) == Ok([])
  {
    if calls != [] {
      var all := Results(calls, contents);
      assert all[1..] == Results(calls[1..], contents[1..]);
      assert CallIds(calls)[1..] == CallIds(calls[1..]);
      ResultsSettle(calls[1..], contents[1..], tools);
    }
  }

  /** Answering well-formed calls in order keeps an accepted history accepted. */
  lemma ProperCallsAreAnswerable(history: seq<Message>, tools: seq<ToolDefinition>, calls: seq<ToolCall>,
                                 content: string, contents: seq<string>)
    requires Accepts(history, tools) && Parser.Proper(calls, tools) && |contents| == |calls|
    ensures Accepts(history + [Message(Assistant, content, calls, None)] + Results(calls, contents), tools)
  {
    hide CheckMessages, CheckMessage, Accepts, Parser.Proper, Results, CallIds;
    var turn := Message(Assistant, content, calls, None);
    AcceptsIsSettled(history, tools);
    TurnQueues(turn, tools);
    CheckMessagesAppend([], history, turn, tools);
    ProperIds(calls, tools);
    ResultsSettle(calls, contents, tools);
    CheckMessagesConcat([], history + [turn], Results(calls, contents), tools);
    AcceptsIsSettled(history + [turn] + Results(calls, contents), tools);
  }

  lemma AcceptsIsSettled(history: seq<Message>, tools: seq<ToolDefinition>)
    ensures Accepts(history, tools) <==> CheckMessages([], history, tools) == Ok([])
  {
    hide CheckMessages, Accepts;
    VerdictExact(history, tools);
  }

  lemma ProperIds(calls: seq<ToolCall>, tools: seq<ToolDefinition>)
    requires Parser.Proper(calls, tools)
    ensures forall i | 0 <= i < |calls| :: calls[i].id != []
  {
  }

  lemma TurnQueues(turn: Message, tools: seq<ToolDefinition>)
    requires turn.role.Assistant? && turn.toolCallId.None? && Parser.Proper(turn.toolCalls, tools)
    ensures CheckMessage([], turn, tools) == Ok(CallIds(turn.toolCalls))
  {
    hide CheckCalls, CheckResult, CallIds, ProperCall;
    var ids := CallIds(turn.toolCalls);
    ProperQueue(turn.toolCalls, tools);
    CheckCallsExact([], turn.toolCalls, tools);
    assert [] + ids == ids;
  }

  lemma ProperQueue(calls: seq<ToolCall>, tools: seq<ToolDefinition>)
    requires Parser.Proper(calls, tools)
    ensures (forall i | 0 <= i < |calls| :: ProperCall(calls[i], tools)) && NoDuplicates(CallIds(calls)) && NoDuplicates([])
  {
    hide CallIds, Declared;
  }

  /** Whatever the model wrote, the calls parsed from it are non-empty, declared and
      pairwise distinct in id, and a client that answers them in order extends any
      accepted history to an accepted one. */
  lemma ParsedCallsAreAnswerable(text: string, tools: seq<ToolDefinition>, requestId: string,
                                 history: seq<Message>, content: string, contents: seq<string>)
    requires Accepts(history, tools)
    requires Parser.ParseToolCalls(text, tools, requestId).Ok?
    requires |contents| == |Parser.ParseToolCalls(text, tools, requestId).value.1|
    ensures var calls := Parser.ParseToolCalls(text, tools, requestId).value.1;
            && Parser.Proper(calls, tools)
            && Accepts(history + [Message(Assistant, content, calls, None)] + Results(calls, contents), tools)
  {
    Parser.ParsedCallsAreProper(text, tools, requestId);
    ProperCallsAreAnswerable(history, tools, Parser.ParseToolCalls(text, tools, requestId).value.1, content, contents);
  }

  // ----------------------------------------------------- which error is named

  lemma {:induction false} CheckCallsFrom(pending: seq<string>, calls: seq<ToolCall>, k: nat, tools: seq<ToolDefinition>)
    requires k <= |calls| && CheckCalls(pending, calls[..k], tools).Ok?
    ensures CheckCalls(pending, calls, tools) == CheckCalls(CheckCalls(pending, calls[..k], tools).value, calls[k..], tools)
    decreases k
  {
    if k == 0 {
      assert calls[0..] == calls;
    } else {
      assert calls[..k][0] == calls[0] && calls[..k][1..] == calls[1..][..k - 1] && calls[1..][k - 1..] == calls[k..];
      CheckCallsFrom(CheckCall(pending, calls[0], tools).value, calls[1..], k - 1, tools);
    }
  }

  /** The error of an assistant message whose first unacceptable call is `calls[k]`. */
  lemma CallErrorNamed(open: seq<string>, calls: seq<ToolCall>, k: nat, tools: seq<ToolDefinition>)
    requires k < |calls| && NoDuplicates(open + CallIds(calls[..k]))
    requires forall i | 0 <= i < k :: calls[i].id != "" && Declared(tools, calls[i].name) && calls[i].arguments.Object?
    ensures var c, r := calls[k], CheckCalls(open, calls, tools);
            && (c.id == "" ==> r == Err(EmptyToolCallId))
            && (c.id != "" && (c.id in open || exists i :: 0 <= i < k && calls[i].id == c.id) ==> r == Err(DuplicateToolCallId))
            && (c.id != "" && c.id !in open && (forall i | 0 <= i < k :: calls[i].id != c.id) ==>
                  && (!Declared(tools, c.name) ==> r == Err(HistoryError.UndeclaredTool(c.name)))
                  && (Declared(tools, c.name) && !c.arguments.Object? ==> r == Err(InvalidToolArguments)))
  {
    var now := open + CallIds(calls[..k]);
    assert NoDuplicates(open) by {
      assert forall i | 0 <= i < |open| :: now[i] == open[i];
    }
    CheckCallsExact(open, calls[..k], tools);
    CheckCallsFrom(open, calls, k, tools);
    assert calls[k..][0] == calls[k];
    assert forall i | 0 <= i < k :: CallIds(calls[..k])[i] == calls[i].id;
    assert calls[k].id in now <==> calls[k].id in open || exists i :: 0 <= i < k && calls[i].id == calls[k].id by {
      NowHolds(open, calls, k, calls[k].id);
    }
  }

  lemma NowHolds(open: seq<string>, calls: seq<ToolCall>, k: nat, id: string)
    requires k <= |calls|
    ensures id in open + CallIds(calls[..k]) <==> id in open || exists i :: 0 <= i < k && calls[i].id == id
  {
    var ids := CallIds(calls[..k]);
    assert forall i | 0 <= i < k :: ids[i] == calls[i].id;
    if id in ids { var i :| 0 <= i < |ids| && ids[i] == id; assert calls[i].id == id; }
  }

  /** The first message that breaks the protocol decides the error, and names what is
      wrong with it; with none, calls left open do. */
  lemma FirstErrorNamed(before: seq<Message>, m: Message, rest: seq<Message>, tools: seq<ToolDefinition>)
    requires Passes(before, tools)
    ensures var v, open := Verdict(before + ([m] + rest), tools), Open(before);
            && (m.role.Tool? && m.toolCalls != [] ==> v == Err(ToolResultHasToolCalls))
            && (m.role.Tool? && m.toolCalls == [] && (m.toolCallId == None || m.toolCallId == Some("")) ==> v == Err(MissingToolCallId))
            && (m.role.Tool? && m.toolCalls == [] && m.toolCallId.Some? && m.toolCallId.value != "" ==>
                  && (m.toolCallId.value !in open ==> v == Err(UnknownToolCallId(m.toolCallId.value)))
                  && (m.toolCallId.value in open && open[0] != m.toolCallId.value ==> v == Err(ToolResultOutOfOrder(open[0], m.toolCallId.value))))
            && (Barrier(m) && (m.toolCalls != [] || m.toolCallId.Some?) ==> v == Err(ToolCallsOnNonAssistant))
            && (Barrier(m) && m.toolCalls == [] && m.toolCallId == None && open != [] ==> v == Err(UnresolvedToolCalls))
            && (m.role.Assistant? && m.toolCallId.Some? ==> v == Err(AssistantHasToolCallId))
            && (m.role.Assistant? && m.toolCallId == None && CheckCalls(open, m.toolCalls, tools).Err? ==>
                  v == Err(CheckCalls(open, m.toolCalls, tools).error))
  {
    hide CheckCalls, Passes, Open;
    CheckMessagesExact(before, tools);
    CheckMessagesConcat([], before, [m] + rest, tools);
    assert ([m] + rest)[0] == m;
  }

  lemma OpenAtEnd(messages: seq<Message>, tools: seq<ToolDefinition>)
    requires Passes(messages, tools) && Open(messages) != []
    ensures Verdict(messages, tools) == Err(UnresolvedToolCalls)
  {
    hide Passes, Open;
    CheckMessagesExact(messages, tools);
  }
}
