/**
 What a generation call computes, told without any cache: an outcome per prompt,
 settings and pattern of failures. The session cache only shows as two parameters,
 the length of the reused prefix and whether the call publishes a checkpoint.
 */
module Generation {
  import opened Wrappers
  import opened Llama

  const I32_MAX: nat := 0x7FFF_FFFF

  /** The points of a call that can fail, in the order they are reached. */
  datatype Step =
    | CancelAtEntry
    | TokenizePrompt
    | CreateContext
    | ClearGeneration
    | CopyCommitted
    | RewindReplay
    | QueuePrompt(position: nat)
    | PrefillPrompt
    | CancelAfterPrefill
    | ClearCandidate
    | CopyCandidate
    | CancelBefore(round: nat)
    | DecodePiece(round: nat)
    | DeliverPiece(round: nat)
    | CancelAfter(round: nat)
    | QueueOutput(round: nat)
    | DecodeOutput(round: nat)
    | ClearCommitted
    | CopyPublished

  /** Which points fail: native errors, a failing callback, a cancellation seen. */
  type Faults = Step -> bool

  datatype GenerateError =
    | Failed(step: Step)
    | EmptyPrompt
    | PromptTooLong(tokens: nat, capacity: nat)
    | PositionOverflow(position: nat)

  datatype Settings = Settings(maxTokens: nat, temperature: Option<real>)

  datatype Generated = Generated(text: string, inputTokens: nat, outputTokens: nat)

  /** What the caller sees: the pieces delivered, then a result or an error. */
  datatype Outcome = Outcome(pieces: seq<string>, result: Result<Generated, GenerateError>)

  function SamplerFor(settings: Settings): SamplerKind {
    match settings.temperature
    case Some(t) => if t > 0.0 then Temperature(t) else Greedy
    case None => Greedy
  }

  function AcceptMany(m: Model, sampler: Sampler, tokens: seq<Token>): Sampler
    decreases |tokens|
  {
    if tokens == [] then sampler else AcceptMany(m, m.accept(sampler, tokens[0]), tokens[1..])
  }

  /** The checks before the cache is looked at. */
  function Rejection(m: Model, faults: Faults, capacity: nat, prompt: string): Option<GenerateError> {
    var tokens := m.tokenize(prompt);
    if faults(CancelAtEntry) then Some(Failed(CancelAtEntry))
    else if faults(TokenizePrompt) then Some(Failed(TokenizePrompt))
    else if tokens == [] then Some(EmptyPrompt)
    else if |tokens| >= capacity then Some(PromptTooLong(|tokens|, capacity))
    else None
  }

  /** Queueing prompt positions from `position` up to `end`. */
  function QueueFailure(faults: Faults, position: nat, end: nat): Option<GenerateError>
    decreases end - position
  {
    if position >= end then None
    else if position > I32_MAX then Some(PositionOverflow(position))
    else if faults(QueuePrompt(position)) then Some(Failed(QueuePrompt(position)))
    else QueueFailure(faults, position + 1, end)
  }

  /** The replay starts at the last reused token, so there is always one to decode. */
  function ReplayStart(prefix: nat): nat {
    if prefix == 0 then 0 else prefix - 1
  }

  /** Getting a context whose generation sequence can be filled. */
  function ContextFailure(faults: Faults, prefix: nat): Option<GenerateError> {
    if prefix == 0 && faults(CreateContext) then Some(Failed(CreateContext))
    else if faults(ClearGeneration) then Some(Failed(ClearGeneration))
    else if prefix > 0 && faults(CopyCommitted) then Some(Failed(CopyCommitted))
    else if prefix > 0 && faults(RewindReplay) then Some(Failed(RewindReplay))
    else None
  }

  /** Filling the generation sequence with the prompt and checkpointing it. */
  function PrefillFailure(faults: Faults, length: nat, prefix: nat): Option<GenerateError> {
    match QueueFailure(faults, ReplayStart(prefix), length)
    case Some(e) => Some(e)
    case None =>
      if faults(PrefillPrompt) then Some(Failed(PrefillPrompt))
      else if faults(CancelAfterPrefill) then Some(Failed(CancelAfterPrefill))
      else if faults(ClearCandidate) then Some(Failed(ClearCandidate))
      else if faults(CopyCandidate) then Some(Failed(CopyCandidate))
      else None
  }

  /** A generation loop from some point on: what it still delivers, the tokens the
      generation sequence holds at its end, how many it sampled, and its error. */
  datatype Continuation = Continuation(pieces: seq<string>, text: string, history: seq<Token>, emitted: nat, error: Option<GenerateError>)

  function Stop(history: seq<Token>, error: Option<GenerateError>): Continuation {
    Continuation([], "", history, 0, error)
  }

  function Delivered(piece: string, rest: Continuation): Continuation {
    rest.(pieces := (if piece == "" then [] else [piece]) + rest.pieces, text := piece + rest.text, emitted := rest.emitted + 1)
  }

  /** Sampling after `history`, with `budget` rounds left. */
  ghost function Continue(m: Model, faults: Faults, capacity: nat, history: seq<Token>, sampler: Sampler, decoder: Decoder,
                          round: nat, budget: nat): Continuation
    decreases budget
  {
    if budget == 0 then Stop(history, None)
    else if faults(CancelBefore(round)) then Stop(history, Some(Failed(CancelBefore(round))))
    else
      var (token, sampled) := m.sample(sampler, PrefixLogits(m, history));
      if m.endsGeneration(token) then Stop(history, None)
      else if faults(DecodePiece(round)) then Stop(history, Some(Failed(DecodePiece(round))))
      else
        var (piece, decoder') := m.piece(decoder, token);
        Delivered(piece,
          if piece != "" && faults(DeliverPiece(round)) then Stop(history, Some(Failed(DeliverPiece(round))))
          else if faults(CancelAfter(round)) then Stop(history, Some(Failed(CancelAfter(round))))
          else if |history| >= capacity then Stop(history, None)
          else if |history| > I32_MAX then Stop(history, Some(PositionOverflow(|history|)))
          else if faults(QueueOutput(round)) then Stop(history, Some(Failed(QueueOutput(round))))
          else if faults(DecodeOutput(round)) then Stop(history, Some(Failed(DecodeOutput(round))))
          else Continue(m, faults, capacity, history + [token], m.accept(sampled, token), decoder', round + 1, budget - 1))
  }

  ghost function Infer(m: Model, faults: Faults, capacity: nat, tokens: seq<Token>, settings: Settings): Continuation {
    Continue(m, faults, capacity, tokens, AcceptMany(m, m.newSampler(SamplerFor(settings)), tokens), m.newDecoder, 0, settings.maxTokens)
  }

  function PublishFailure(faults: Faults): Option<GenerateError> {
    if faults(ClearCommitted) then Some(Failed(ClearCommitted))
    else if faults(CopyPublished) then Some(Failed(CopyPublished))
    else None
  }

  /** The outcome of a call that reuses `prefix` cached tokens (zero: a fresh context)
      and publishes a checkpoint afterwards or not. */
  ghost function Run(m: Model, faults: Faults, capacity: nat, prompt: string, settings: Settings,
                     prefix: nat, publishes: bool): Outcome
  {
    var tokens := m.tokenize(prompt);
    match Rejection(m, faults, capacity, prompt)
    case Some(e) => Outcome([], Err(e))
    case None =>
      match ContextFailure(faults, prefix)
      case Some(e) => Outcome([], Err(e))
      case None =>
        match PrefillFailure(faults, |tokens|, prefix)
        case Some(e) => Outcome([], Err(e))
        case None => Finish(Infer(m, faults, capacity, tokens, settings), |tokens|, if publishes then PublishFailure(faults) else None)
  }

  function Finish(c: Continuation, length: nat, publish: Option<GenerateError>): Outcome {
    Outcome(c.pieces,
      match c.error
      case Some(e) => Err(e)
      case None =>
        match publish
        case Some(e) => Err(e)
        case None => Ok(Generated(c.text, length, if |c.history| >= length then |c.history| - length else 0)))
  }

  /** The same call without a session: a fresh context and nothing published. */
  ghost function Plain(m: Model, faults: Faults, capacity: nat, prompt: string, settings: Settings): Outcome {
    Run(m, faults, capacity, prompt, settings, 0, false)
  }

  // ----------------------------------------------------- the cache is invisible

  lemma {:induction false} QueueFailureLater(faults: Faults, a: nat, b: nat, end: nat)
    requires a <= b
    ensures QueueFailure(faults, a, end).None? ==> QueueFailure(faults, b, end).None?
    decreases end - a
  {
    if a < b && a < end { QueueFailureLater(faults, a + 1, b, end); }
  }

  lemma {:induction false} QueueFailureSplit(faults: Faults, a: nat, b: nat, end: nat)
    requires a <= b <= end && (forall p: nat | a <= p < b :: !faults(QueuePrompt(p)))
    requires QueueFailure(faults, b, end).None? && b < end
    ensures QueueFailure(faults, a, end).None?
    decreases b - a
  {
    QueueNoOverflow(faults, b, end);
    if a < b { QueueFailureSplit(faults, a + 1, b, end); }
  }

  lemma {:induction false} QueueNoOverflow(faults: Faults, a: nat, end: nat)
    requires QueueFailure(faults, a, end).None? && a < end
    ensures end - 1 <= I32_MAX
    decreases end - a
  {
    if a + 1 < end { QueueNoOverflow(faults, a + 1, end); }
  }

  /** Faults that only a call on a fresh context can meet. */
  ghost predicate FreshContextWorks(faults: Faults, replayStart: nat) {
    !faults(CreateContext) && forall p: nat | p < replayStart :: !faults(QueuePrompt(p))
  }

  /** Faults that only a call using the cache can meet. */
  ghost predicate CacheStepsWork(faults: Faults) {
    !faults(CopyCommitted) && !faults(RewindReplay) && !faults(ClearCommitted) && !faults(CopyPublished)
  }

  /** Reusing a prefix and publishing a checkpoint change nothing a caller can see,
      in either direction: a call that succeeds one way succeeds with the same text,
      pieces and token counts the other way, unless a step fails that only the other
      way takes. */
  lemma CacheIsInvisible(m: Model, faults: Faults, capacity: nat, prompt: string, settings: Settings, prefix: nat, publishes: bool)
    requires prefix <= |m.tokenize(prompt)|
    ensures var cached := Run(m, faults, capacity, prompt, settings, prefix, publishes);
            var plain := Plain(m, faults, capacity, prompt, settings);
            && (cached.result.Ok? && FreshContextWorks(faults, ReplayStart(prefix)) ==> plain == cached)
            && (plain.result.Ok? && CacheStepsWork(faults) ==> cached == plain)
  {
    var end := |m.tokenize(prompt)|;
    var start := ReplayStart(prefix);
    if Rejection(m, faults, capacity, prompt).None? {
      QueueFailureLater(faults, 0, start, end);
      if FreshContextWorks(faults, start) && QueueFailure(faults, start, end).None? {
        QueueFailureSplit(faults, 0, start, end);
      }
    }
  }

  // ------------------------------------------------------------ token bounds

  /** Decoded tokens stay within the capacity. A call emits as many tokens as it
      counts, or one more when it stopped because the context was full. */
  ghost predicate InBounds(c: Continuation, history: seq<Token>, capacity: nat, budget: nat) {
    && history <= c.history && |c.history| <= capacity && c.emitted <= budget
    && (c.error.None? ==>
          var counted := |c.history| - |history|;
          c.emitted == counted || (c.emitted == counted + 1 && |c.history| == capacity))
  }

  lemma {:induction false} ContinueBounds(m: Model, faults: Faults, capacity: nat, history: seq<Token>, sampler: Sampler,
                                          decoder: Decoder, round: nat, budget: nat)
    requires |history| <= capacity
    ensures InBounds(Continue(m, faults, capacity, history, sampler, decoder, round, budget), history, capacity, budget)
    decreases budget
  {
    hide Continue, Delivered, Stop, InBounds;
    var r := OneRound(m, faults, capacity, history, sampler, decoder, round, budget);
    if r.GoesOn? {
      var rest := Continue(m, faults, capacity, history + [r.token], r.sampler, r.decoder, round + 1, budget - 1);
      ContinueBounds(m, faults, capacity, history + [r.token], r.sampler, r.decoder, round + 1, budget - 1);
      DeliveredBounds(r.piece, rest, history, r.token, capacity, budget);
    } else {
      StopBounds(r, history, capacity, budget);
    }
  }

  /** What one round of the specification amounts to. */
  datatype RoundShape =
    | Silent(error: Option<GenerateError>)
    | Spoke(piece: string, error: Option<GenerateError>)
    | GoesOn(piece: string, token: Token, sampler: Sampler, decoder: Decoder)

  lemma OneRound(m: Model, faults: Faults, capacity: nat, history: seq<Token>, sampler: Sampler, decoder: Decoder, round: nat, budget: nat)
    returns (r: RoundShape)
    ensures Continue(m, faults, capacity, history, sampler, decoder, round, budget) ==
            match r {
              case Silent(error) => Stop(history, error)
              case Spoke(piece, error) => Delivered(piece, Stop(history, error))
              case GoesOn(piece, token, sampler', decoder') =>
                if budget > 0
                then Delivered(piece, Continue(m, faults, capacity, history + [token], sampler', decoder', round + 1, budget - 1))
                else Stop(history, None)
            }
    ensures r.Spoke? ==> budget > 0 && (r.error.None? ==> |history| >= capacity)
    ensures r.GoesOn? ==> budget > 0 && |history| < capacity
  {
    hide Delivered, Stop;
    if budget == 0 {
      return Silent(None);
    }
    if faults(CancelBefore(round)) {
      return Silent(Some(Failed(CancelBefore(round))));
    }
    var (token, sampled) := m.sample(sampler, PrefixLogits(m, history));
    if m.endsGeneration(token) {
      return Silent(None);
    }
    if faults(DecodePiece(round)) {
      return Silent(Some(Failed(DecodePiece(round))));
    }
    var (piece, decoder') := m.piece(decoder, token);
    r := if piece != "" && faults(DeliverPiece(round)) then Spoke(piece, Some(Failed(DeliverPiece(round))))
         else if faults(CancelAfter(round)) then Spoke(piece, Some(Failed(CancelAfter(round))))
         else if |history| >= capacity then Spoke(piece, None)
         else if |history| > I32_MAX then Spoke(piece, Some(PositionOverflow(|history|)))
         else if faults(QueueOutput(round)) then Spoke(piece, Some(Failed(QueueOutput(round))))
         else if faults(DecodeOutput(round)) then Spoke(piece, Some(Failed(DecodeOutput(round))))
         else GoesOn(piece, token, m.accept(sampled, token), decoder');
  }

  lemma DeliveredBounds(piece: string, rest: Continuation, history: seq<Token>, token: Token, capacity: nat, budget: nat)
    requires budget > 0 && InBounds(rest, history + [token], capacity, budget - 1)
    ensures InBounds(Delivered(piece, rest), history, capacity, budget)
  {
    assert history <= history + [token];
  }

  lemma StopBounds(r: RoundShape, history: seq<Token>, capacity: nat, budget: nat)
    requires |history| <= capacity && !r.GoesOn? && (r.Spoke? ==> budget > 0 && (r.error.None? ==> |history| >= capacity))
    ensures InBounds(if r.Spoke? then Delivered(r.piece, Stop(history, r.error)) else Stop(history, r.error), history, capacity, budget)
  {
  }

  /** Input and output tokens never exceed the context, nor the output its budget. */
  lemma RunBounds(m: Model, faults: Faults, capacity: nat, prompt: string, settings: Settings, prefix: nat, publishes: bool)
    ensures var r := Run(m, faults, capacity, prompt, settings, prefix, publishes).result;
            r.Ok? ==>
              && r.value.inputTokens == |m.tokenize(prompt)|
              && 0 < r.value.inputTokens < capacity
              && r.value.inputTokens + r.value.outputTokens <= capacity
              && r.value.outputTokens <= settings.maxTokens
  {
    var tokens := m.tokenize(prompt);
    if Rejection(m, faults, capacity, prompt).None? {
      ContinueBounds(m, faults, capacity, tokens, AcceptMany(m, m.newSampler(SamplerFor(settings)), tokens), m.newDecoder, 0, settings.maxTokens);
    }
  }
}
