/**
 The thread that owns the model and serves chat jobs one after the other, and what its
 replies look like at the far end of the public stream.
 */
module ModelActor {
  import opened Wrappers
  import opened Llama
  import opened Generation
  import opened SessionCache
  import opened Runtime
  import opened ChatGeneration
  import opened SseFraming
  import opened Forwarding
  import opened StreamDelivery
  import Events = StreamEvents
  import Parser = ToolCallParser
  import ToolCallDelivery
  import TaggedText
  import Json

  /** The same request without a session, on an empty cache. */
  function Alone(q: Request): Request { q.(session := None) }

  ghost function PlainOutcome(h: Host, t: Templates, q: Request): ChatOutcome {
    ChatOutcomeOf(h, t, State(map[], None), Alone(q))
  }

  /** The request gets through with what the cache holds, and no step fails that only a
      call on a fresh context takes. */
  ghost predicate GetsThrough(h: Host, t: Templates, s: State, q: Request) {
    Prompt(t, q).Ok? &&
    var c := CallOf(q, Prompt(t, q).value);
    OutcomeOf(h, s, c).result.Ok? && FreshContextWorks(c.faults, ReplayStart(Reused(LookupIn(h, s, c))))
  }

  /** The state of the counters decides no outcome. */
  lemma PlainIsPlain(h: Host, t: Templates, s: State, q: Request)
    requires s.entries == map[]
    ensures ChatOutcomeOf(h, t, s, Alone(q)) == PlainOutcome(h, t, q)
  {
    hide Run, Parser.ParseToolCalls, Prompt;
    if Prompt(t, Alone(q)).Ok? {
      var c := CallOf(Alone(q), Prompt(t, Alone(q)).value);
      assert LookupIn(h, s, c) == LookupIn(h, State(map[], None), c);
    }
  }

  lemma GettingThroughIsPlain(h: Host, t: Templates, s: State, q: Request)
    requires GetsThrough(h, t, s, q)
    ensures ChatOutcomeOf(h, t, s, q) == PlainOutcome(h, t, q)
  {
    hide ChatOutcomeOf, OutcomeOf, LookupIn, FreshContextWorks, Prompt;
    ChatIsTransparent(h, t, s, q, Prompt(t, q).value);
    PlainIsPlain(h, t, State(map[], s.stats), q);
  }

  /** Serves all jobs on a freshly loaded model. Each job that gets through, at whatever
      contents of the heap the earlier ones left, has the outcome of the same request
      alone. */
  method RunJobs(gguf: GgufModel, t: Templates, requests: seq<Request>)
    returns (outcomes: seq<ChatOutcome>, ghost states: seq<State>)
    requires gguf.Valid() && gguf.sessionCache == map[] && gguf.stats == Some(Counters(0, 0, 0, 0, 0))
    modifies gguf
    ensures gguf.Valid() && IsChatRun(gguf.TheHost(), t, states, requests) && states[|requests|] == gguf.View()
    ensures |outcomes| == |requests|
    ensures forall i | 0 <= i < |requests| :: outcomes[i] == ChatOutcomeOf(gguf.TheHost(), t, states[i], requests[i])
    ensures forall i | 0 <= i < |requests| && GetsThrough(gguf.TheHost(), t, states[i], requests[i]) ::
              outcomes[i] == PlainOutcome(gguf.TheHost(), t, requests[i])
  {
    hide ChatOutcomeOf, ChatStep, EstimatedCacheBytes, Bounded, GetsThrough, PlainOutcome;
    outcomes, states := [], [gguf.View()];
    for i := 0 to |requests|
      invariant gguf.Valid() && |outcomes| == i && |states| == i + 1
      invariant states[0] == State(map[], Some(Counters(0, 0, 0, 0, 0))) && states[i] == gguf.View()
      invariant forall k | 0 <= k < i :: outcomes[k] == ChatOutcomeOf(gguf.TheHost(), t, states[k], requests[k])
      invariant forall k | 0 <= k < i :: ChatStep(gguf.TheHost(), t, states[k], requests[k], states[k + 1])
    {
      var shown, result := GenerateChat(gguf, t, requests[i]);
      outcomes := outcomes + [ChatOutcome(shown, result)];
      states := states + [gguf.View()];
    }
    forall i | 0 <= i < |requests| && GetsThrough(gguf.TheHost(), t, states[i], requests[i])
      ensures outcomes[i] == PlainOutcome(gguf.TheHost(), t, requests[i])
    {
      GettingThroughIsPlain(gguf.TheHost(), t, states[i], requests[i]);
    }
  }

  /** What a streamed job sends to its receiver; how errors read is left open. */
  function EventsOf(o: ChatOutcome, describe: ChatError -> string): seq<Events.Event> {
    Deltas(o.shown) +
    [match o.result
     case Ok(r) => Events.Completed(r.inputTokens, r.outputTokens, r.toolCalls, r.finishReason)
     case Err(e) => Events.Error(describe(e))]
  }

  lemma ReplyIsSendable(h: Host, t: Templates, s: State, q: Request, shown: seq<string>, r: Reply)
    requires h.capacity <= USIZE_MAX && ChatOutcomeOf(h, t, s, q) == ChatOutcome(shown, Ok(r))
    ensures Events.Sendable(Events.Completed(r.inputTokens, r.outputTokens, r.toolCalls, r.finishReason))
  {
    hide Run, Parser.ParseToolCalls, Prompt, Events.CallsWellFormed;
    var c := CallOf(q, Prompt(t, q).value);
    RunBounds(h.model, c.faults, h.capacity, c.prompt, c.settings, Reused(LookupIn(h, s, c)), Publishes(h, c));
    if q.tools == [] {
      assert Events.CallsWellFormed([]) by { NoCalls(); }
    } else {
      ToolCallDelivery.ParsedCallsWellFormed(TaggedText.Concat(OutcomeOf(h, s, c).pieces), q.tools, q.requestId);
    }
  }

  lemma NoCalls()
    ensures Events.CallsWellFormed([])
  {
  }

  lemma OutcomeIsSendable(h: Host, t: Templates, s: State, q: Request, describe: ChatError -> string)
    requires h.capacity <= USIZE_MAX
    ensures AllSendable(EventsOf(ChatOutcomeOf(h, t, s, q), describe))
  {
    hide ChatOutcomeOf, Events.CallsWellFormed;
    var o := ChatOutcomeOf(h, t, s, q);
    if o.result.Ok? { ReplyIsSendable(h, t, s, q, o.shown, o.result.value); }
    var events := EventsOf(o, describe);
    DeltasSendable(o.shown, events[|events| - 1]);
  }

  /** What relaying a worker's body does when it arrives in the given chunks. */
  ghost function ClientLog(env: Env, chunks: seq<Bytes>): Log {
    Relayed(env, Readings(Feed([], chunks).frames), false)
  }

  /** A successful reply reaches a client that stays as the role, its text in pieces, its
      tool calls if any, the final chunk and the end mark. */
  lemma RepliesReachTheClient(h: Host, t: Templates, s: State, q: Request, shown: seq<string>, r: Reply,
                              describe: ChatError -> string, env: Env, chunks: seq<Bytes>)
    requires h.capacity <= USIZE_MAX && StaysAlive(env)
    requires ChatOutcomeOf(h, t, s, q) == ChatOutcome(shown, Ok(r))
    requires Flatten(chunks) == WireBody(EventsOf(ChatOutcome(shown, Ok(r)), describe))
    requires forall i | 0 <= i < |r.toolCalls| :: Json.Depth(r.toolCalls[i].arguments) <= Events.MAX_ARGUMENTS
    ensures TaggedText.Concat(shown) == r.text
    ensures ClientLog(env, chunks) ==
            AllSent([RoleChunk] + TextChunks(shown) + (if r.toolCalls == [] then [] else [ToolChunk(PublicCalls(r.toolCalls, 0))]) +
                    [FinalChunk(r.finishReason, r.inputTokens, r.outputTokens), DoneMark]) + [Release]
  {
    hide ChatOutcomeOf, Events.CallsWellFormed, WireBody, Relayed, Readings, Feed, AllSent, PublicCalls, TextChunks;
    ShownIsTheReply(h, t, s, q, shown, r);
    ReplyIsSendable(h, t, s, q, shown, r);
    EndToEnd(env, shown, Events.Completed(r.inputTokens, r.outputTokens, r.toolCalls, r.finishReason), chunks);
  }

  /** A client cannot tell a session from a lone request: for any state of the cache, any
      behaviour of the connection and any two ways of chunking the bodies, a request
      that gets through has the same public stream with its session as without one on a
      fresh context. */
  lemma ClientsCannotTell(h: Host, t: Templates, s: State, q: Request, describe: ChatError -> string, env: Env,
                          cached: ChatOutcome, plain: ChatOutcome, chunks: seq<Bytes>, plainChunks: seq<Bytes>)
    requires h.capacity <= USIZE_MAX && GetsThrough(h, t, s, q)
    requires cached == ChatOutcomeOf(h, t, s, q) && plain == PlainOutcome(h, t, q)
    requires Flatten(chunks) == WireBody(EventsOf(cached, describe)) && Flatten(plainChunks) == WireBody(EventsOf(plain, describe))
    ensures ClientLog(env, chunks) == ClientLog(env, plainChunks)
  {
    hide ChatOutcomeOf, EventsOf, WireBody, Relayed, Readings, Feed, GetsThrough, PlainOutcome;
    GettingThroughIsPlain(h, t, s, q);
    OutcomeIsSendable(h, t, s, q, describe);
    EventsArrive(EventsOf(cached, describe), chunks);
    EventsArrive(EventsOf(cached, describe), plainChunks);
  }
}
