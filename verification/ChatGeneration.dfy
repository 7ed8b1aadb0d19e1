/**
 Chat generation over the runtime: render the conversation, generate, and turn the
 output into visible text and tool calls when tools were offered.
 */
module ChatGeneration {
  import opened Wrappers
  import opened Llama
  import opened Generation
  import opened SessionCache
  import opened CacheRuns
  import opened Runtime
  import opened Chat
  import Template = QwenTemplate
  import Parser = ToolCallParser
  import TaggedText

  type Messages = seq<Message>
  type Tools = seq<ToolDefinition>

  /** The registry: the names a request may ask for, the templates that came with the
      model (an absent one is the built-in Qwen template) and the embedded template.
      Rendering a foreign template may fail. */
  datatype Templates = Templates(names: seq<string>, qwen: bool,
                                 foreign: map<string, (Messages, Tools) -> Option<string>>,
                                 embedded: Messages -> Option<string>)

  datatype Request = Request(messages: Messages, tools: Tools, template: Option<string>, session: Option<Uuid>, requestId: string,
                             settings: Settings, now: nat, faults: Faults, lastCallbackFails: bool)

  datatype ChatError =
    | ToolsNeedQwen
    | NoTemplate(select: Template.SelectError)
    | NotRendered
    | NotGenerated(cause: GenerateError)
    | NotParsed(parse: Parser.ParseError)
    | CallbackFailed

  datatype Reply = Reply(text: string, inputTokens: nat, outputTokens: nat, toolCalls: seq<ToolCall>, finishReason: FinishReason)

  /** What the callback was given, then the result. */
  datatype ChatOutcome = ChatOutcome(shown: seq<string>, result: Result<Reply, ChatError>)

  // ---------------------------------------------------------------- prompt

  function Rendered(prompt: Option<string>): Result<string, ChatError> {
    match prompt { case None => Err(NotRendered) case Some(p) => Ok(p) }
  }

  function RenderChat(t: Templates, q: Request): Result<string, ChatError> {
    match Template.Select(t.names, t.qwen, q.template, q.tools != [])
    case Err(e) => Err(NoTemplate(e))
    case Ok(None) => Rendered(t.embedded(q.messages))
    case Ok(Some(name)) =>
      if name in t.foreign then Rendered(t.foreign[name](q.messages, q.tools))
      else if q.messages == [] then (if q.tools == [] then Ok(Template.GENERATION_PROMPT) else Err(NotRendered))
      else Ok(Template.Render(q.messages, q.tools))
  }

  function Prompt(t: Templates, q: Request): Result<string, ChatError> {
    if q.tools != [] && !t.qwen then Err(ToolsNeedQwen) else RenderChat(t, q)
  }

  /** With tools the pieces are only collected, which cannot fail. */
  function CallbackFaults(q: Request): Faults {
    (step: Step) => !(step.DeliverPiece? && q.tools != []) && q.faults(step)
  }

  function CallOf(q: Request, prompt: string): Call {
    Call(prompt, q.session, q.settings, q.now, CallbackFaults(q))
  }

  // --------------------------------------------------------------- outcome

  /** What becomes of a generated output. */
  function Present(q: Request, o: Outcome): ChatOutcome {
    match o.result
    case Err(e) => ChatOutcome(if q.tools == [] then o.pieces else [], Err(NotGenerated(e)))
    case Ok(g) =>
      if q.tools == [] then ChatOutcome(o.pieces, Ok(Reply(g.text, g.inputTokens, g.outputTokens, [], FinishReason.Stop)))
      else
        match Parser.ParseToolCalls(TaggedText.Concat(o.pieces), q.tools, q.requestId)
        case Err(e) => ChatOutcome([], Err(NotParsed(e)))
        case Ok((text, calls)) =>
          var shown := if text == "" then [] else [text];
          if text != "" && q.lastCallbackFails then ChatOutcome(shown, Err(CallbackFailed))
          else ChatOutcome(shown, Ok(Reply(text, g.inputTokens, g.outputTokens, calls,
                                           if calls == [] then FinishReason.Stop else FinishReason.ToolCalls)))
  }

  ghost function ChatOutcomeOf(h: Host, t: Templates, s: State, q: Request): ChatOutcome {
    match Prompt(t, q)
    case Err(e) => ChatOutcome([], Err(e))
    case Ok(prompt) => Present(q, OutcomeOf(h, s, CallOf(q, prompt)))
  }

  /** The effect on the cache: one call, then the session is dropped if its output
      could not be parsed. */
  ghost predicate ChatStep(h: Host, t: Templates, s: State, q: Request, s': State) {
    match Prompt(t, q)
    case Err(_) => s' == s
    case Ok(prompt) =>
      exists done ::
        && CallStep(h, s, CallOf(q, prompt), done)
        && s' == (var r := ChatOutcomeOf(h, t, s, q).result; if r.Err? && r.error.NotParsed? then Invalidate(done, q.session) else done)
  }

  method GenerateChat(gguf: GgufModel, t: Templates, q: Request) returns (shown: seq<string>, result: Result<Reply, ChatError>)
    requires gguf.Valid()
    modifies gguf
    ensures gguf.Valid()
    ensures ChatOutcome(shown, result) == ChatOutcomeOf(gguf.TheHost(), t, old(gguf.View()), q)
    ensures ChatStep(gguf.TheHost(), t, old(gguf.View()), q, gguf.View())
  {
    hide OutcomeOf, CallStep, Parser.ParseToolCalls, RenderChat;
    if q.tools != [] && !t.qwen {
      return [], Err(ToolsNeedQwen);
    }
    var prompt := RenderChat(t, q);
    if prompt.Err? {
      return [], Err(prompt.error);
    }
    var pieces, generated := gguf.Generate(CallOf(q, prompt.value));
    ghost var done := gguf.View();
    if generated.Err? {
      return if q.tools == [] then pieces else [], Err(NotGenerated(generated.error));
    }
    var g := generated.value;
    if q.tools == [] {
      return pieces, Ok(Reply(g.text, g.inputTokens, g.outputTokens, [], FinishReason.Stop));
    }
    var parsed := Parser.ExtractToolCalls(TaggedText.Concat(pieces), q.tools, q.requestId);
    if parsed.Err? {
      gguf.InvalidateSession(q.session);
      return [], Err(NotParsed(parsed.error));
    }
    var (text, calls) := parsed.value;
    shown := if text == "" then [] else [text];
    if text != "" && q.lastCallbackFails {
      return shown, Err(CallbackFailed);
    }
    result := Ok(Reply(text, g.inputTokens, g.outputTokens, calls, if calls == [] then FinishReason.Stop else FinishReason.ToolCalls));
  }

  // ------------------------------------------------------------- properties

  /** The pieces of a generation make up its text. */
  lemma {:induction false} ContinuePieces(m: Model, faults: Faults, capacity: nat, history: seq<Token>, sampler: Sampler,
                                          decoder: Decoder, round: nat, budget: nat)
    ensures var c := Continue(m, faults, capacity, history, sampler, decoder, round, budget);
            TaggedText.Concat(c.pieces) == c.text && "" !in c.pieces
    decreases budget
  {
    hide TaggedText.Concat, Continue, Delivered, Generation.Stop;
    var r := OneRound(m, faults, capacity, history, sampler, decoder, round, budget);
    match r
    case Silent(error) => StoppedPieces(history, error);
    case Spoke(piece, error) =>
      StoppedPieces(history, error);
      DeliveredPieces(piece, Generation.Stop(history, error));
    case GoesOn(piece, token, sampler', decoder') =>
      ContinuePieces(m, faults, capacity, history + [token], sampler', decoder', round + 1, budget - 1);
      DeliveredPieces(piece, Continue(m, faults, capacity, history + [token], sampler', decoder', round + 1, budget - 1));
  }

  lemma StoppedPieces(history: seq<Token>, error: Option<GenerateError>)
    ensures var c := Generation.Stop(history, error); TaggedText.Concat(c.pieces) == c.text && "" !in c.pieces
  {
  }

  lemma DeliveredPieces(piece: string, rest: Continuation)
    requires TaggedText.Concat(rest.pieces) == rest.text && "" !in rest.pieces
    ensures TaggedText.Concat(Delivered(piece, rest).pieces) == Delivered(piece, rest).text && "" !in Delivered(piece, rest).pieces
  {
    if piece != "" { assert ([piece] + rest.pieces)[1..] == rest.pieces; }
    else { assert [] + rest.pieces == rest.pieces; }
  }

  /** The streamed pieces of a successful call are its text, so what the tool parser
      collects is the whole output. */
  lemma PiecesAreTheText(h: Host, s: State, c: Call)
    requires OutcomeOf(h, s, c).result.Ok?
    ensures TaggedText.Concat(OutcomeOf(h, s, c).pieces) == OutcomeOf(h, s, c).result.value.text
  {
    var tokens := h.model.tokenize(c.prompt);
    ContinuePieces(h.model, c.faults, h.capacity, tokens, AcceptMany(h.model, h.model.newSampler(SamplerFor(c.settings)), tokens),
                   h.model.newDecoder, 0, c.settings.maxTokens);
  }

  /** Without tools the caller has been shown exactly the reply; with tools it is shown
      one piece at most, the reply without its tool calls, and nothing before the
      whole output was parsed. */
  lemma ShownIsTheReply(h: Host, t: Templates, s: State, q: Request, shown: seq<string>, reply: Reply)
    requires ChatOutcomeOf(h, t, s, q) == ChatOutcome(shown, Ok(reply))
    ensures TaggedText.Concat(shown) == reply.text
    ensures q.tools != [] ==> |shown| <= 1
    ensures q.tools == [] ==> reply.toolCalls == []
    ensures reply.finishReason.ToolCalls? <==> reply.toolCalls != []
  {
    hide OutcomeOf, Parser.ParseToolCalls, Prompt;
    PiecesAreTheText(h, s, CallOf(q, Prompt(t, q).value));
    var text := reply.text;
    assert text == "" || [text][1..] == [];
    assert text + "" == text;
  }

  /** A reply with tool calls parses the whole generated text, and the calls can be
      answered under the offered tools. */
  lemma RepliedCallsParse(h: Host, t: Templates, s: State, q: Request, prompt: string, shown: seq<string>, reply: Reply)
    requires Prompt(t, q) == Ok(prompt) && q.tools != []
    requires ChatOutcomeOf(h, t, s, q) == ChatOutcome(shown, Ok(reply))
    ensures var generated := OutcomeOf(h, s, CallOf(q, prompt)).result;
            && generated.Ok?
            && Parser.ParseToolCalls(generated.value.text, q.tools, q.requestId) == Ok((reply.text, reply.toolCalls))
            && Parser.Proper(reply.toolCalls, q.tools)
  {
    hide OutcomeOf, Parser.ParseToolCalls, Prompt, Parser.Proper;
    PiecesAreTheText(h, s, CallOf(q, prompt));
    Parser.ParsedCallsAreProper(OutcomeOf(h, s, CallOf(q, prompt)).result.value.text, q.tools, q.requestId);
  }

  /** Chat is as transparent to the cache as generation is: whatever the cache holds,
      a session changes neither what is shown nor the reply. */
  lemma ChatIsTransparent(h: Host, t: Templates, s: State, q: Request, prompt: string)
    requires Prompt(t, q) == Ok(prompt)
    ensures var c := CallOf(q, prompt);
            var plain := ChatOutcomeOf(h, t, State(map[], s.stats), q.(session := None));
            && (OutcomeOf(h, s, c).result.Ok? && FreshContextWorks(c.faults, ReplayStart(Reused(LookupIn(h, s, c)))) ==>
                  ChatOutcomeOf(h, t, s, q) == plain)
            && (plain.result.Ok? && CacheStepsWork(c.faults) ==> ChatOutcomeOf(h, t, s, q) == plain)
  {
    hide Prompt, Present, OutcomeOf, Plain, LookupIn, FreshContextWorks, CacheStepsWork;
    var c := CallOf(q, prompt);
    CallsAreTransparent(h, s, c);
    AloneIsPlain(h, t, State(map[], s.stats), q, prompt);
    SucceedsOnlyIfGenerated(q.(session := None), OutcomeOf(h, State(map[], s.stats), CallOf(q.(session := None), prompt)));
  }

  /** Without a session the prompt is the same and the call is the plain one. */
  lemma AloneIsPlain(h: Host, t: Templates, empty: State, q: Request, prompt: string)
    requires empty.entries == map[]
    ensures var alone, c := q.(session := None), CallOf(q, prompt);
            && Prompt(t, alone) == Prompt(t, q)
            && OutcomeOf(h, empty, CallOf(alone, prompt)) == Plain(h.model, c.faults, h.capacity, c.prompt, c.settings)
            && forall o :: Present(alone, o) == Present(q, o)
  {
    hide Run, Parser.ParseToolCalls;
    assert CallbackFaults(q.(session := None)) == CallbackFaults(q);
  }

  lemma SucceedsOnlyIfGenerated(q: Request, o: Outcome)
    ensures Present(q, o).result.Ok? ==> o.result.Ok?
  {
  }

  /** A reply that cannot be parsed leaves its session out of the cache. */
  lemma UnparsedReplyDiscards(h: Host, t: Templates, s: State, q: Request, s': State, shown: seq<string>, e: Parser.ParseError)
    requires ChatStep(h, t, s, q, s') && q.session.Some?
    requires ChatOutcomeOf(h, t, s, q) == ChatOutcome(shown, Err(NotParsed(e)))
    ensures q.session.value !in s'.entries
  {
  }

  /** The next turn of a conversation reuses the cached prompt of this one: if the
      tokenizer keeps the prefix, and the session was neither evicted nor idle in
      between, it hits with all the tokens of the earlier prompt. */
  lemma NextTurnHits(h: Host, t: Templates, first: Request, next: Request, a: Message, rest: Messages, s: State,
                     prompt: string, longer: string)
    requires Prompt(t, first) == Ok(prompt) && Prompt(t, next) == Ok(longer)
    requires Template.Select(t.names, t.qwen, first.template, first.tools != []) == Ok(Some("qwen-tools")) && "qwen-tools" !in t.foreign
    requires first.messages != [] && a.role.Assistant?
    requires next.messages == first.messages + [a] + rest && next.tools == first.tools && next.template == first.template
    requires next.session == first.session && first.session.Some?
    requires prompt <= longer ==> h.model.tokenize(prompt) <= h.model.tokenize(longer)
    requires Publishes(h, CallOf(first, prompt))
    requires first.session.value in s.entries && s.entries[first.session.value].tokens == h.model.tokenize(prompt)
    requires !Idle(h.config, s.entries[first.session.value], next.now)
    ensures LookupIn(h, s, CallOf(next, longer)) == Hit(|h.model.tokenize(prompt)|)
  {
    hide Template.Render;
    Template.PromptPrefixStable(first.messages, a, rest, first.tools);
  }

  // ------------------------------------------------- the rules in plain terms

  /** The call a request makes: its session, settings and time; and only a request without
      tools can fail in delivering a piece. */
  lemma CallExact(q: Request, prompt: string, step: Step)
    ensures var c := CallOf(q, prompt);
            && c.prompt == prompt && c.session == q.session && c.settings == q.settings && c.now == q.now
            && (c.faults(step) <==> q.faults(step) && (q.tools != [] ==> !step.DeliverPiece?))
  {
  }

  /** Which prompt a request gets: none with tools on a model that is not Qwen; the
      template it names, if there is one of that name; without a name the Qwen template
      if there are tools, and the embedded one if not. */
  lemma PromptExact(t: Templates, q: Request, prompt: string)
    requires q.messages != []
    ensures Prompt(t, q) == Ok(prompt) <==>
              && (q.tools != [] ==> t.qwen)
              && (q.template.Some? ==> q.template.value in t.names)
              && if q.template == None && q.tools == [] then t.embedded(q.messages) == Some(prompt)
                 else
                   var name := if q.template.Some? then q.template.value else "qwen-tools";
                   if name in t.foreign then t.foreign[name](q.messages, q.tools) == Some(prompt)
                   else prompt == Template.Render(q.messages, q.tools)
    ensures Prompt(t, q) == Err(ToolsNeedQwen) <==> q.tools != [] && !t.qwen
    ensures forall name :: Prompt(t, q) == Err(NoTemplate(Template.UnknownTemplate(name))) <==>
              (q.tools != [] ==> t.qwen) && q.template == Some(name) && name !in t.names
  {
    hide Template.Render;
  }

  /** What is made of a successful generation: without tools it is passed on; with tools
      its whole text is parsed, and only the last callback can still fail. */
  lemma PresentExact(q: Request, o: Outcome, g: Generated)
    requires o.result == Ok(g)
    ensures var c := Present(q, o);
            var parsed := Parser.ParseToolCalls(TaggedText.Concat(o.pieces), q.tools, q.requestId);
            && (q.tools == [] ==>
                  c == ChatOutcome(o.pieces, Ok(Reply(g.text, g.inputTokens, g.outputTokens, [], FinishReason.Stop))))
            && (q.tools != [] && parsed.Err? ==> c == ChatOutcome([], Err(NotParsed(parsed.error))))
            && (q.tools != [] && parsed.Ok? ==>
                  && c.shown == (if parsed.value.0 == "" then [] else [parsed.value.0])
                  && (c.result == Err(CallbackFailed) <==> parsed.value.0 != "" && q.lastCallbackFails)
                  && (c.result.Ok? <==> parsed.value.0 == "" || !q.lastCallbackFails)
                  && (c.result.Ok? ==>
                        && c.result.value.text == parsed.value.0 && c.result.value.toolCalls == parsed.value.1
                        && c.result.value.inputTokens == g.inputTokens && c.result.value.outputTokens == g.outputTokens))
  {
    hide Parser.ParseToolCalls, TaggedText.Concat;
  }

  /** A failed generation shows what was streamed, if anything was, and its error. */
  lemma FailureExact(q: Request, o: Outcome, e: GenerateError)
    requires o.result == Err(e)
    ensures Present(q, o) == ChatOutcome(if q.tools == [] then o.pieces else [], Err(NotGenerated(e)))
  {
  }

  // ------------------------------------------------------------ whole runs

  /** `states[i]` is the cache before the chat request `requests[i]`. */
  ghost predicate IsChatRun(h: Host, t: Templates, states: seq<State>, requests: seq<Request>) {
    && |states| == |requests| + 1
    && states[0] == State(map[], Some(Counters(0, 0, 0, 0, 0)))
    && forall i | 0 <= i < |requests| :: ChatStep(h, t, states[i], requests[i], states[i + 1])
  }

  /** Any run of chat requests is a run of the cache, so everything said of runs holds of
      chat: bounds, transparency, and the conservation of entries. */
  lemma {:induction false} ChatRunsAreRuns(h: Host, t: Templates, states: seq<State>, requests: seq<Request>)
    returns (all: seq<State>, events: seq<Event>)
    requires IsChatRun(h, t, states, requests)
    ensures IsRun(h, all, events) && all[|events|] == states[|requests|]
    decreases |requests|
  {
    hide ChatStep, EventStep;
    if requests == [] {
      all, events := states, [];
    } else {
      var n := |requests| - 1;
      all, events := ChatRunsAreRuns(h, t, states[..n + 1], requests[..n]);
      assert ChatStep(h, t, states[n], requests[n], states[n + 1]);
      all, events := ChatStepExtends(h, t, all, events, requests[n], states[n + 1]);
    }
  }

  lemma ChatStepExtends(h: Host, t: Templates, states: seq<State>, events: seq<Event>, q: Request, s': State)
    returns (all: seq<State>, more: seq<Event>)
    requires IsRun(h, states, events) && ChatStep(h, t, states[|events|], q, s')
    ensures IsRun(h, all, more) && all[|more|] == s'
  {
    hide IsRun, ChatOutcomeOf, CallStep;
    RunStarts(h, states, events);
    var s := states[|events|];
    match Prompt(t, q)
    case Err(_) => all, more := states, events;
    case Ok(prompt) =>
      var r := ChatOutcomeOf(h, t, s, q).result;
      var unparsed := r.Err? && r.error.NotParsed?;
      var done :| CallStep(h, s, CallOf(q, prompt), done) && s' == if unparsed then Invalidate(done, q.session) else done;
      Extended(h, states, events, Event.Generate(CallOf(q, prompt)), done);
      all, more := states + [done], events + [Event.Generate(CallOf(q, prompt))];
      if unparsed {
        Extended(h, all, more, ParseFailed(q.session), s');
        all, more := all + [s'], more + [ParseFailed(q.session)];
      }
  }
}
