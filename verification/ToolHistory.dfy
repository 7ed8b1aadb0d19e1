/**
 The assistant/tool message protocol: every tool result must answer the oldest
 unanswered call. `ValidateToolHistory` is the running check; `Accepts` says what
 it is for, in terms of the calls asked and the results given over the history.
 */
module ToolHistory {
  import opened Wrappers
  import opened Chat

  datatype HistoryError =
    | ToolCallsOnNonAssistant
    | EmptyToolCallId
    | DuplicateToolCallId
    | AssistantHasToolCallId
    | UndeclaredTool(name: string)
    | MissingToolCallId
    | ToolResultHasToolCalls
    | InvalidToolArguments
    | ToolResultOutOfOrder(expected: string, actual: string)
    | UnknownToolCallId(id: string)
    | UnresolvedToolCalls

  // -------------------------------------------------- what a history means

  /** All call ids of a history, in order. */
  function Asked(messages: seq<Message>): seq<string> {
    if messages == [] then []
    else
      var last := messages[|messages| - 1];
      Asked(messages[..|messages| - 1]) + if last.role.Assistant? then CallIds(last.toolCalls) else []
  }

  /** All ids that tool results answer, in order. */
  function Answered(messages: seq<Message>): seq<string> {
    if messages == [] then []
    else
      var last := messages[|messages| - 1];
      Answered(messages[..|messages| - 1]) +
      if last.role.Tool? && last.toolCallId.Some? then [last.toolCallId.value] else []
  }

  predicate NoDuplicates(ids: seq<string>) {
    forall i, j | 0 <= i < j < |ids| :: ids[i] != ids[j]
  }

  /** The shape each message must have on its own. */
  predicate WellFormedMessage(m: Message, tools: seq<ToolDefinition>) {
    match m.role
    case Assistant =>
      && m.toolCallId.None?
      && forall i | 0 <= i < |m.toolCalls| :: ProperCall(m.toolCalls[i], tools)
    case Tool => m.toolCalls == [] && m.toolCallId.Some? && m.toolCallId.value != []
    case _ => m.toolCalls == [] && m.toolCallId.None?
  }

  predicate ProperCall(call: ToolCall, tools: seq<ToolDefinition>) {
    call.id != [] && Declared(tools, call.name) && call.arguments.IsObject()
  }

  /** The answers given so far are the first calls asked, in order, and the calls
      still open have different ids. */
  predicate InOrder(messages: seq<Message>) {
    && Answered(messages) <= Asked(messages)
    && NoDuplicates(Asked(messages)[|Answered(messages)|..])
  }

  /** System and user messages may not come between a call and its answer. */
  predicate Barrier(m: Message) {
    m.role.System? || m.role.User?
  }

  predicate Settled(messages: seq<Message>) {
    Answered(messages) == Asked(messages)
  }

  predicate Accepts(messages: seq<Message>, tools: seq<ToolDefinition>) {
    && (forall i | 0 <= i < |messages| :: WellFormedMessage(messages[i], tools))
    && (forall n | 0 <= n <= |messages| :: InOrder(messages[..n]))
    && (forall i | 0 <= i < |messages| && Barrier(messages[i]) :: Settled(messages[..i]))
    && Settled(messages)
  }

  // -------------------------------------- the check, one message at a time

  function CheckCall(pending: seq<string>, call: ToolCall, tools: seq<ToolDefinition>): Result<seq<string>, HistoryError> {
    if call.id == [] then Err(EmptyToolCallId)
    else if call.id in pending then Err(DuplicateToolCallId)
    else if !Declared(tools, call.name) then Err(UndeclaredTool(call.name))
    else if !call.arguments.IsObject() then Err(InvalidToolArguments)
    else Ok(pending + [call.id])
  }

  function CheckCalls(pending: seq<string>, calls: seq<ToolCall>, tools: seq<ToolDefinition>): Result<seq<string>, HistoryError>
    decreases |calls|
  {
    if calls == [] then Ok(pending)
    else
      match CheckCall(pending, calls[0], tools)
      case Err(e) => Err(e)
      case Ok(now) => CheckCalls(now, calls[1..], tools)
  }

  function CheckResult(pending: seq<string>, m: Message): Result<seq<string>, HistoryError> {
    if m.toolCalls != [] then Err(ToolResultHasToolCalls)
    else if m.toolCallId.None? || m.toolCallId.value == [] then Err(MissingToolCallId)
    else
      var id := m.toolCallId.value;
      if pending == [] then Err(UnknownToolCallId(id))
      else if pending[0] == id then Ok(pending[1..])
      else if id in pending then Err(ToolResultOutOfOrder(pending[0], id))
      else Err(UnknownToolCallId(id))
  }

  function CheckMessage(pending: seq<string>, m: Message, tools: seq<ToolDefinition>): Result<seq<string>, HistoryError> {
    match m.role
    case Assistant =>
      if m.toolCallId.Some? then Err(AssistantHasToolCallId) else CheckCalls(pending, m.toolCalls, tools)
    case Tool => CheckResult(pending, m)
    case _ =>
      if m.toolCalls != [] || m.toolCallId.Some? then Err(ToolCallsOnNonAssistant)
      else if pending != [] then Err(UnresolvedToolCalls)
      else Ok(pending)
  }

  function CheckMessages(pending: seq<string>, messages: seq<Message>, tools: seq<ToolDefinition>): Result<seq<string>, HistoryError>
    decreases |messages|
  {
    if messages == [] then Ok(pending)
    else
      match CheckMessage(pending, messages[0], tools)
      case Err(e) => Err(e)
      case Ok(now) => CheckMessages(now, messages[1..], tools)
  }

  /** The verdict on a history: its first offending message, or calls left open. */
  function Verdict(messages: seq<Message>, tools: seq<ToolDefinition>): Result<(), HistoryError> {
    match CheckMessages([], messages, tools)
    case Err(e) => Err(e)
    case Ok(pending) => if pending == [] then Ok(()) else Err(UnresolvedToolCalls)
  }

  // ---------------------------------------------------------- running check

  /** Checks one assistant message. The set of ids of this response is redundant:
      it only ever holds pending ids. */
  method ValidateCalls(calls: seq<ToolCall>, tools: seq<ToolDefinition>, pending0: seq<string>, pendingIds0: set<string>)
    returns (error: Option<HistoryError>, pending: seq<string>, pendingIds: set<string>)
    requires pendingIds0 == (set id | id in pending0) && NoDuplicates(pending0)
    ensures CheckCalls(pending0, calls, tools) == if error.Some? then Err(error.value) else Ok(pending)
    ensures error.None? ==> pendingIds == (set id | id in pending) && NoDuplicates(pending)
  {
    pending, pendingIds := pending0, pendingIds0;
    var responseIds: set<string> := {};
    for k := 0 to |calls|
      invariant CheckCalls(pending0, calls, tools) == CheckCalls(pending, calls[k..], tools)
      invariant pendingIds == (set id | id in pending) && NoDuplicates(pending)
      invariant responseIds <= pendingIds
    {
      var call := calls[k];
      assert calls[k..][0] == call && calls[k..][1..] == calls[k + 1..];
      if call.id == [] {
        return Some(EmptyToolCallId), pending, pendingIds;
      }
      var inserted := call.id !in responseIds;
      responseIds := responseIds + {call.id};
      if !inserted || call.id in pendingIds {
        return Some(DuplicateToolCallId), pending, pendingIds;
      }
      if !Declared(tools, call.name) {
        return Some(UndeclaredTool(call.name)), pending, pendingIds;
      }
      if !call.arguments.IsObject() {
        return Some(InvalidToolArguments), pending, pendingIds;
      }
      pending := pending + [call.id];
      pendingIds := pendingIds + {call.id};
    }
    assert calls[|calls|..] == [];
    return None, pending, pendingIds;
  }

  method ValidateToolHistory(messages: seq<Message>, tools: seq<ToolDefinition>) returns (r: Result<(), HistoryError>)
    ensures r == Verdict(messages, tools)
    ensures r.Ok? <==> Accepts(messages, tools)
  {
    VerdictExact(messages, tools);
    var pending: seq<string> := [];
    var pendingIds: set<string> := {};
    for i := 0 to |messages|
      invariant CheckMessages([], messages, tools) == CheckMessages(pending, messages[i..], tools)
      invariant pendingIds == (set id | id in pending) && NoDuplicates(pending)
    {
      var m := messages[i];
      assert messages[i..][0] == m && messages[i..][1..] == messages[i + 1..];
      match m.role {
        case Assistant =>
          if m.toolCallId.Some? {
            return Err(AssistantHasToolCallId);
          }
          var error;
          error, pending, pendingIds := ValidateCalls(m.toolCalls, tools, pending, pendingIds);
          if error.Some? {
            return Err(error.value);
          }
        case Tool =>
          if m.toolCalls != [] {
            return Err(ToolResultHasToolCalls);
          }
          if m.toolCallId.None? || m.toolCallId.value == [] {
            return Err(MissingToolCallId);
          }
          var id := m.toolCallId.value;
          if pending == [] {
            return Err(UnknownToolCallId(id));
          }
          var expected := pending[0];
          if expected != id {
            if id in pendingIds {
              return Err(ToolResultOutOfOrder(expected, id));
            }
            return Err(UnknownToolCallId(id));
          }
          assert pending == [expected] + pending[1..];
          pending := pending[1..];
          pendingIds := pendingIds - {id};
        case _ =>
          if m.toolCalls != [] || m.toolCallId.Some? {
            return Err(ToolCallsOnNonAssistant);
          }
          if pending != [] {
            return Err(UnresolvedToolCalls);
          }
      }
    }
    assert messages[|messages|..] == [];
    if pending == [] {
      return Ok(());
    } else {
      return Err(UnresolvedToolCalls);
    }
  }

  // ------------------------------------------------------------- exactness

  /** A prefix of a history that the check lets through. */
  ghost predicate Passes(messages: seq<Message>, tools: seq<ToolDefinition>) {
    && (forall i | 0 <= i < |messages| :: WellFormedMessage(messages[i], tools))
    && (forall n | 0 <= n <= |messages| :: InOrder(messages[..n]))
    && (forall i | 0 <= i < |messages| && Barrier(messages[i]) :: Settled(messages[..i]))
  }

  /** The calls not answered yet, oldest first. */
  function Open(messages: seq<Message>): seq<string> {
    if |Answered(messages)| <= |Asked(messages)| then Asked(messages)[|Answered(messages)|..] else []
  }

  lemma CheckMessagesAppend(pending: seq<string>, messages: seq<Message>, m: Message, tools: seq<ToolDefinition>)
    ensures CheckMessages(pending, messages + [m], tools) ==
            match CheckMessages(pending, messages, tools) {
              case Err(e) => Err(e)
              case Ok(now) => CheckMessage(now, m, tools)
            }
    decreases |messages|
  {
    if messages == [] {
      assert (messages + [m])[1..] == [];
    } else {
      assert (messages + [m])[1..] == messages[1..] + [m];
      match CheckMessage(pending, messages[0], tools)
      case Err(_) =>
      case Ok(now) => CheckMessagesAppend(now, messages[1..], m, tools);
    }
  }

  /** Queueing the calls of one response succeeds exactly when each is proper and
      no id is queued twice. */
  lemma {:induction false} CheckCallsExact(pending: seq<string>, calls: seq<ToolCall>, tools: seq<ToolDefinition>)
    requires NoDuplicates(pending)
    ensures CheckCalls(pending, calls, tools).Ok? <==>
            (forall i | 0 <= i < |calls| :: ProperCall(calls[i], tools)) && NoDuplicates(pending + CallIds(calls))
    ensures CheckCalls(pending, calls, tools).Ok? ==>
            CheckCalls(pending, calls, tools).value == pending + CallIds(calls)
    decreases |calls|
  {
    if calls == [] {
      assert pending + CallIds(calls) == pending;
    } else {
      var now := pending + [calls[0].id];
      assert now + CallIds(calls[1..]) == pending + CallIds(calls);
      if calls[0].id in pending {
        var k :| 0 <= k < |pending| && pending[k] == calls[0].id;
        assert (pending + CallIds(calls))[k] == (pending + CallIds(calls))[|pending|];
      } else {
        assert NoDuplicates(now);
        CheckCallsExact(now, calls[1..], tools);
        assert forall i | 0 < i < |calls| :: calls[i] == calls[1..][i - 1];
        assert forall i | 0 <= i < |calls[1..]| :: calls[1..][i] == calls[i + 1];
      }
    }
  }

  lemma AppendMessage(before: seq<Message>, m: Message)
    ensures Asked(before + [m]) == Asked(before) + if m.role.Assistant? then CallIds(m.toolCalls) else []
    ensures Answered(before + [m]) ==
            Answered(before) + if m.role.Tool? && m.toolCallId.Some? then [m.toolCallId.value] else []
  {
    assert (before + [m])[..|before|] == before;
  }

  lemma CheckResponseExact(before: seq<Message>, m: Message, tools: seq<ToolDefinition>)
    requires InOrder(before) && m.role.Assistant?
    ensures CheckMessage(Open(before), m, tools).Ok? <==> WellFormedMessage(m, tools) && InOrder(before + [m])
    ensures CheckMessage(Open(before), m, tools).Ok? ==>
            CheckMessage(Open(before), m, tools).value == Open(before + [m])
  {
    hide CheckCalls, ProperCall, Asked, Answered, CallIds, NoDuplicates;
    AppendMessage(before, m);
    CheckCallsExact(Open(before), m.toolCalls, tools);
    QueueAsked(Asked(before), Answered(before), CallIds(m.toolCalls));
    NothingMore(Answered(before));
  }

  lemma NothingMore(answered: seq<string>)
    ensures answered + [] == answered
  {
  }

  /** Asking adds to the queue; answering takes its first. */
  lemma QueueAsked(asked: seq<string>, answered: seq<string>, ids: seq<string>)
    requires answered <= asked
    ensures answered <= asked + ids && (asked + ids)[|answered|..] == asked[|answered|..] + ids
  {
  }

  lemma QueueAnswered(asked: seq<string>, answered: seq<string>, id: string)
    requires answered <= asked && NoDuplicates(asked[|answered|..])
    ensures var open := asked[|answered|..];
            && (open != [] && open[0] == id ==>
                  answered + [id] <= asked && asked[|answered + [id]|..] == open[1..] && NoDuplicates(open[1..]))
            && (answered + [id] <= asked ==> open != [] && open[0] == id)
  {
    var open := asked[|answered|..];
    if open != [] { assert open[0] == asked[|answered|]; }
    if answered + [id] <= asked { assert asked[|answered|] == (answered + [id])[|answered|]; }
  }

  lemma CheckResultExact(before: seq<Message>, m: Message, tools: seq<ToolDefinition>)
    requires InOrder(before) && m.role.Tool?
    ensures CheckMessage(Open(before), m, tools).Ok? <==> WellFormedMessage(m, tools) && InOrder(before + [m])
    ensures CheckMessage(Open(before), m, tools).Ok? ==>
            CheckMessage(Open(before), m, tools).value == Open(before + [m])
  {
    hide Asked, Answered, NoDuplicates;
    AppendMessage(before, m);
    NothingMore(Asked(before));
    if m.toolCallId.Some? { QueueAnswered(Asked(before), Answered(before), m.toolCallId.value); }
  }

  /** One more message: the queue is the list of open calls. */
  lemma CheckMessageExact(before: seq<Message>, m: Message, tools: seq<ToolDefinition>)
    requires InOrder(before)
    ensures CheckMessage(Open(before), m, tools).Ok? <==>
            && WellFormedMessage(m, tools)
            && InOrder(before + [m])
            && (Barrier(m) ==> Settled(before))
    ensures CheckMessage(Open(before), m, tools).Ok? ==>
            CheckMessage(Open(before), m, tools).value == Open(before + [m])
  {
    match m.role
    case Assistant => CheckResponseExact(before, m, tools);
    case Tool => CheckResultExact(before, m, tools);
    case _ =>
      AppendMessage(before, m);
      assert Asked(before) == Answered(before) + Open(before);
  }

  lemma PassesAppend(before: seq<Message>, m: Message, tools: seq<ToolDefinition>)
    ensures Passes(before + [m], tools) <==>
            && Passes(before, tools)
            && WellFormedMessage(m, tools)
            && InOrder(before + [m])
            && (Barrier(m) ==> Settled(before))
  {
    var all := before + [m];
    assert forall n | 0 <= n <= |before| :: all[..n] == before[..n];
    assert all[..|all|] == all && all[..|before|] == before;
    assert all[|before|] == m;
    if Passes(all, tools) {
      assert forall i | 0 <= i < |before| :: before[i] == all[i];
    }
    if Passes(before, tools) {
      assert forall i | 0 <= i < |before| :: all[i] == before[i];
    }
  }

  lemma {:induction false} CheckMessagesExact(messages: seq<Message>, tools: seq<ToolDefinition>)
    ensures CheckMessages([], messages, tools).Ok? <==> Passes(messages, tools)
    ensures Passes(messages, tools) ==> CheckMessages([], messages, tools).value == Open(messages)
    decreases |messages|
  {
    if messages == [] {
      assert messages[..0] == [];
    } else {
      var before, m := messages[..|messages| - 1], messages[|messages| - 1];
      assert messages == before + [m];
      CheckMessagesAppend([], before, m, tools);
      CheckMessagesExact(before, tools);
      PassesAppend(before, m, tools);
      if Passes(before, tools) {
        assert before[..|before|] == before;
        CheckMessageExact(before, m, tools);
      }
    }
  }

  /** The check accepts a history if and only if it follows the protocol. */
  lemma VerdictExact(messages: seq<Message>, tools: seq<ToolDefinition>)
    ensures Verdict(messages, tools).Ok? <==> Accepts(messages, tools)
  {
    CheckMessagesExact(messages, tools);
    assert messages[..|messages|] == messages;
  }
}
