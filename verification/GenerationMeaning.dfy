/**
 What a generation call means, said of its outcome alone: which tokens are drawn, what
 they say, where it ends, and which failing step is reported. Nothing here follows the
 recursion that computes the outcome.
 */
module GenerationMeaning {
  import opened Wrappers
  import opened Llama
  import opened Generation
  import opened TaggedText

  /** A run of drawn tokens: what each of them says, the sampler and decoder before each
      draw and after the last, and how many of the tokens were decoded again. */
  datatype Story = Story(out: seq<Token>, said: seq<string>, samplers: seq<Sampler>, decoders: seq<Decoder>, decoded: nat)

  /** Each token is the sample that follows the history and the tokens before it, and
      none of them ends the generation. */
  ghost predicate Draws(m: Model, history: seq<Token>, x: Story, sampler: Sampler, decoder: Decoder) {
    && |x.said| == |x.out| && |x.samplers| == |x.out| + 1 && |x.decoders| == |x.out| + 1
    && x.samplers[0] == sampler && x.decoders[0] == decoder
    && forall k | 0 <= k < |x.out| :: DrawsAt(m, history, x, k)
  }

  ghost predicate DrawsAt(m: Model, history: seq<Token>, x: Story, k: nat)
    requires k < |x.out| == |x.said| && |x.samplers| == |x.out| + 1 && |x.decoders| == |x.out| + 1
  {
    var (token, sampled) := m.sample(x.samplers[k], m.logits(PrefixCells(m, history + x.out[..k])));
    && x.out[k] == token && !m.endsGeneration(token)
    && x.samplers[k + 1] == m.accept(sampled, token)
    && (x.said[k], x.decoders[k + 1]) == m.piece(x.decoders[k], token)
  }

  /** The next sample after the whole run. */
  ghost function NextToken(m: Model, history: seq<Token>, x: Story): Token
    requires |x.samplers| == |x.out| + 1
  {
    m.sample(x.samplers[|x.out|], m.logits(PrefixCells(m, history + x.out))).0
  }

  /** The steps of a round up to the second cancellation check. */
  predicate Spoke(faults: Faults, r: nat, piece: string) {
    && !faults(CancelBefore(r)) && !faults(DecodePiece(r)) && (piece != "" ==> !faults(DeliverPiece(r))) && !faults(CancelAfter(r))
  }

  /** The steps that feed the token of a round back. */
  predicate FedBack(faults: Faults, r: nat, position: nat) {
    position <= I32_MAX && !faults(QueueOutput(r)) && !faults(DecodeOutput(r))
  }

  /** All decoded tokens had a place and all their steps worked; at most one more token
      was drawn. */
  ghost predicate Worked(faults: Faults, capacity: nat, length: nat, round: nat, x: Story) {
    && |x.said| == |x.out| && x.decoded <= |x.out| <= x.decoded + 1
    && forall k | 0 <= k < x.decoded :: WorkedAt(faults, capacity, length + k, round + k, x.said[k])
  }

  ghost predicate WorkedAt(faults: Faults, capacity: nat, place: nat, r: nat, piece: string) {
    place < capacity && Spoke(faults, r, piece) && FedBack(faults, r, place)
  }

  /** Why a run stops: for good, or at the first step that fails. */
  ghost predicate Stops(m: Model, faults: Faults, capacity: nat, history: seq<Token>, round: nat, budget: nat, x: Story,
                        error: Option<GenerateError>)
    requires |x.said| == |x.out| && |x.samplers| == |x.out| + 1 && x.decoded <= |x.out| <= x.decoded + 1
  {
    var r, place := round + x.decoded, |history| + x.decoded;
    match error
    case None =>
      if |x.out| == x.decoded
      then |x.out| == budget || (!faults(CancelBefore(r)) && m.endsGeneration(NextToken(m, history, x)))
      else Spoke(faults, r, x.said[x.decoded]) && place >= capacity
    case Some(PositionOverflow(p)) =>
      |x.out| > x.decoded && Spoke(faults, r, x.said[x.decoded]) && place < capacity && p == place > I32_MAX
    case Some(Failed(s)) =>
      faults(s) && r < round + budget &&
      (match s
       case CancelBefore(k) => k == r && |x.out| == x.decoded
       case DecodePiece(k) => k == r && |x.out| == x.decoded && !faults(CancelBefore(r)) && !m.endsGeneration(NextToken(m, history, x))
       case DeliverPiece(k) =>
         k == r && |x.out| > x.decoded && !faults(CancelBefore(r)) && !faults(DecodePiece(r)) && x.said[x.decoded] != ""
       case CancelAfter(k) =>
         && k == r && |x.out| > x.decoded && !faults(CancelBefore(r)) && !faults(DecodePiece(r))
         && (x.said[x.decoded] != "" ==> !faults(DeliverPiece(r)))
       case QueueOutput(k) =>
         k == r && |x.out| > x.decoded && Spoke(faults, r, x.said[x.decoded]) && place < capacity && place <= I32_MAX
       case DecodeOutput(k) =>
         && k == r && |x.out| > x.decoded && Spoke(faults, r, x.said[x.decoded]) && place < capacity && place <= I32_MAX
         && !faults(QueueOutput(r))
       case _ => false)
    case _ => false
  }

  /** The pieces that are not empty, in order. */
  function Audible(said: seq<string>): seq<string> {
    if said == [] then [] else (if said[0] == "" then [] else [said[0]]) + Audible(said[1..])
  }

  /** A continuation told by a run. */
  ghost predicate Told(m: Model, faults: Faults, capacity: nat, history: seq<Token>, sampler: Sampler, decoder: Decoder,
                       round: nat, budget: nat, x: Story, c: Continuation)
  {
    && Draws(m, history, x, sampler, decoder) && Worked(faults, capacity, |history|, round, x) && |x.out| <= budget
    && c.text == Concat(x.said) && c.pieces == Audible(x.said) && c.history == history + x.out[..x.decoded]
    && Stops(m, faults, capacity, history, round, budget, x, c.error)
  }

  // ------------------------------------------------------------- one round more

  function Silence(sampler: Sampler, decoder: Decoder): Story {
    Story([], [], [sampler], [decoder], 0)
  }

  /** A run with one more token at its front. */
  function Longer(token: Token, piece: string, sampler: Sampler, decoder: Decoder, x: Story): Story {
    Story([token] + x.out, [piece] + x.said, [sampler] + x.samplers, [decoder] + x.decoders, x.decoded + 1)
  }

  lemma LongerDraws(m: Model, history: seq<Token>, x: Story, sampler: Sampler, decoder: Decoder, token: Token, piece: string,
                    sampler': Sampler, decoder': Decoder)
    requires m.sample(sampler, PrefixLogits(m, history)).0 == token && !m.endsGeneration(token)
    requires sampler' == m.accept(m.sample(sampler, PrefixLogits(m, history)).1, token) && m.piece(decoder, token) == (piece, decoder')
    requires Draws(m, history + [token], x, sampler', decoder')
    ensures Draws(m, history, Longer(token, piece, sampler, decoder, x), sampler, decoder)
  {
    hide PrefixCells;
    var y := Longer(token, piece, sampler, decoder, x);
    assert history + y.out[..0] == history;
    forall k | 0 <= k < |y.out| ensures DrawsAt(m, history, y, k) {
      if k > 0 {
        assert DrawsAt(m, history + [token], x, k - 1);
        assert y.out[..k] == [token] + x.out[..k - 1];
        assert history + [token] + x.out[..k - 1] == history + y.out[..k];
      }
    }
  }

  lemma LongerStops(m: Model, faults: Faults, capacity: nat, history: seq<Token>, round: nat, budget: nat, x: Story,
                    error: Option<GenerateError>, token: Token, piece: string, sampler: Sampler, decoder: Decoder)
    requires budget > 0 && |x.said| == |x.out| && |x.samplers| == |x.out| + 1 && x.decoded <= |x.out| <= x.decoded + 1
    requires Stops(m, faults, capacity, history + [token], round + 1, budget - 1, x, error)
    ensures Stops(m, faults, capacity, history, round, budget, Longer(token, piece, sampler, decoder, x), error)
  {
    hide PrefixCells;
    var y := Longer(token, piece, sampler, decoder, x);
    assert history + [token] + x.out == history + y.out;
    assert NextToken(m, history + [token], x) == NextToken(m, history, y);
    assert x.decoded < |x.said| ==> y.said[y.decoded] == x.said[x.decoded];
  }

  lemma LongerWorked(faults: Faults, capacity: nat, length: nat, round: nat, x: Story, token: Token, piece: string, sampler: Sampler, decoder: Decoder)
    requires Worked(faults, capacity, length + 1, round + 1, x)
    requires length < capacity && Spoke(faults, round, piece) && FedBack(faults, round, length)
    ensures Worked(faults, capacity, length, round, Longer(token, piece, sampler, decoder, x))
  {
    assert WorkedAt(faults, capacity, length, round, piece);
    hide WorkedAt;
    var y := Longer(token, piece, sampler, decoder, x);
    forall k | 0 <= k < y.decoded ensures WorkedAt(faults, capacity, length + k, round + k, y.said[k]) {
      if k > 0 {
        assert WorkedAt(faults, capacity, length + 1 + (k - 1), round + 1 + (k - 1), x.said[k - 1]);
      }
    }
  }

  lemma StorySizes(m: Model, faults: Faults, capacity: nat, history: seq<Token>, round: nat, x: Story, sampler: Sampler, decoder: Decoder)
    requires Draws(m, history, x, sampler, decoder) && Worked(faults, capacity, |history|, round, x)
    ensures |x.said| == |x.out| && |x.samplers| == |x.out| + 1 && x.decoded <= |x.out| <= x.decoded + 1
  {
  }

  lemma LongerSays(history: seq<Token>, token: Token, piece: string, sampler: Sampler, decoder: Decoder, x: Story, rest: Continuation)
    requires x.decoded <= |x.out| && rest.history == history + [token] + x.out[..x.decoded]
    requires rest.text == Concat(x.said) && rest.pieces == Audible(x.said)
    ensures var y, c := Longer(token, piece, sampler, decoder, x), Delivered(piece, rest);
            && |y.out| == |x.out| + 1 && c.text == Concat(y.said) && c.pieces == Audible(y.said) && y.decoded <= |y.out|
            && c.history == history + y.out[..y.decoded] && c.error == rest.error
  {
    var y := Longer(token, piece, sampler, decoder, x);
    assert y.said[1..] == x.said;
    assert y.out[..y.decoded] == [token] + x.out[..x.decoded];
  }

  lemma LongerTold(m: Model, faults: Faults, capacity: nat, history: seq<Token>, sampler: Sampler, decoder: Decoder, round: nat, budget: nat,
                   x: Story, rest: Continuation, token: Token, piece: string, sampler': Sampler, decoder': Decoder)
    requires budget > 0 && Told(m, faults, capacity, history + [token], sampler', decoder', round + 1, budget - 1, x, rest)
    requires m.sample(sampler, PrefixLogits(m, history)).0 == token && !m.endsGeneration(token)
    requires sampler' == m.accept(m.sample(sampler, PrefixLogits(m, history)).1, token) && m.piece(decoder, token) == (piece, decoder')
    requires |history| < capacity && Spoke(faults, round, piece) && FedBack(faults, round, |history|)
    ensures Told(m, faults, capacity, history, sampler, decoder, round, budget, Longer(token, piece, sampler, decoder, x), Delivered(piece, rest))
  {
    StorySizes(m, faults, capacity, history + [token], round + 1, x, sampler', decoder');
    hide Draws, Worked, Stops, PrefixLogits, Spoke, FedBack;
    LongerDraws(m, history, x, sampler, decoder, token, piece, sampler', decoder');
    LongerStops(m, faults, capacity, history, round, budget, x, rest.error, token, piece, sampler, decoder);
    LongerWorked(faults, capacity, |history|, round, x, token, piece, sampler, decoder);
    LongerSays(history, token, piece, sampler, decoder, x, rest);
    hide Longer, Delivered, Audible, Concat;
  }

  lemma SilenceTold(m: Model, faults: Faults, capacity: nat, history: seq<Token>, sampler: Sampler, decoder: Decoder, round: nat, budget: nat,
                    error: Option<GenerateError>)
    requires Stops(m, faults, capacity, history, round, budget, Silence(sampler, decoder), error)
    ensures Told(m, faults, capacity, history, sampler, decoder, round, budget, Silence(sampler, decoder), Stop(history, error))
  {
    hide Stops;
    assert history + [] == history;
  }

  /** A last token that is not decoded again. */
  lemma LastTold(m: Model, faults: Faults, capacity: nat, history: seq<Token>, sampler: Sampler, decoder: Decoder, round: nat, budget: nat,
                 error: Option<GenerateError>, token: Token, piece: string, sampler': Sampler, decoder': Decoder)
    requires m.sample(sampler, PrefixLogits(m, history)).0 == token && !m.endsGeneration(token) && budget > 0
    requires sampler' == m.accept(m.sample(sampler, PrefixLogits(m, history)).1, token) && m.piece(decoder, token) == (piece, decoder')
    requires Stops(m, faults, capacity, history, round, budget, Longer(token, piece, sampler, decoder, Silence(sampler', decoder')).(decoded := 0), error)
    ensures Told(m, faults, capacity, history, sampler, decoder, round, budget,
                 Longer(token, piece, sampler, decoder, Silence(sampler', decoder')).(decoded := 0), Delivered(piece, Stop(history, error)))
  {
    hide Stops, PrefixCells;
    var x := Longer(token, piece, sampler, decoder, Silence(sampler', decoder'));
    LongerDraws(m, history, Silence(sampler', decoder'), sampler, decoder, token, piece, sampler', decoder');
    var y := x.(decoded := 0);
    forall k | 0 <= k < |y.out| ensures DrawsAt(m, history, y, k) { assert DrawsAt(m, history, x, k); }
    assert y.said[1..] == [] && history + y.out[..0] == history;
    assert piece + "" == piece && [piece] + [] == [piece];
    assert Audible([]) == [] && Concat([]) == "";
  }

  lemma {:induction false} ContinueTold(m: Model, faults: Faults, capacity: nat, history: seq<Token>, sampler: Sampler, decoder: Decoder,
                                        round: nat, budget: nat) returns (x: Story)
    ensures Told(m, faults, capacity, history, sampler, decoder, round, budget, x,
                 Continue(m, faults, capacity, history, sampler, decoder, round, budget))
    decreases budget
  {
    hide Told, PrefixCells, Delivered, Stop;
    x := Silence(sampler, decoder);
    assert history + [] == history;
    var (token, sampled) := m.sample(sampler, PrefixLogits(m, history));
    if budget == 0 {
      SilenceTold(m, faults, capacity, history, sampler, decoder, round, budget, None);
    } else if faults(CancelBefore(round)) {
      SilenceTold(m, faults, capacity, history, sampler, decoder, round, budget, Some(Failed(CancelBefore(round))));
    } else if m.endsGeneration(token) {
      SilenceTold(m, faults, capacity, history, sampler, decoder, round, budget, None);
    } else if faults(DecodePiece(round)) {
      SilenceTold(m, faults, capacity, history, sampler, decoder, round, budget, Some(Failed(DecodePiece(round))));
    } else {
      var (piece, decoder') := m.piece(decoder, token);
      var sampler' := m.accept(sampled, token);
      var error :=
        if piece != "" && faults(DeliverPiece(round)) then Some(Failed(DeliverPiece(round)))
        else if faults(CancelAfter(round)) then Some(Failed(CancelAfter(round)))
        else if |history| >= capacity then None
        else if |history| > I32_MAX then Some(PositionOverflow(|history|))
        else if faults(QueueOutput(round)) then Some(Failed(QueueOutput(round)))
        else if faults(DecodeOutput(round)) then Some(Failed(DecodeOutput(round)))
        else None;
      if error.Some? || |history| >= capacity {
        x := Longer(token, piece, sampler, decoder, Silence(sampler', decoder')).(decoded := 0);
        LastTold(m, faults, capacity, history, sampler, decoder, round, budget, error, token, piece, sampler', decoder');
      } else {
        var rest := Continue(m, faults, capacity, history + [token], sampler', decoder', round + 1, budget - 1);
        var y := ContinueTold(m, faults, capacity, history + [token], sampler', decoder', round + 1, budget - 1);
        x := Longer(token, piece, sampler, decoder, y);
        LongerTold(m, faults, capacity, history, sampler, decoder, round, budget, y, rest, token, piece, sampler', decoder');
      }
    }
  }

  // ------------------------------------------------------------- whole calls

  /** The sampler states while the prompt is accepted: the first is greedy unless a
      positive temperature is asked for. */
  ghost predicate Warms(m: Model, settings: Settings, tokens: seq<Token>, states: seq<Sampler>) {
    && |states| == |tokens| + 1
    && states[0] == m.newSampler(if settings.temperature.Some? && settings.temperature.value > 0.0
                                 then Temperature(settings.temperature.value) else Greedy)
    && forall i | 0 <= i < |tokens| :: states[i + 1] == m.accept(states[i], tokens[i])
  }

  lemma {:induction false} WarmUp(m: Model, sampler: Sampler, tokens: seq<Token>) returns (states: seq<Sampler>)
    ensures |states| == |tokens| + 1 && states[0] == sampler && states[|tokens|] == AcceptMany(m, sampler, tokens)
    ensures forall i | 0 <= i < |tokens| :: states[i + 1] == m.accept(states[i], tokens[i])
    decreases |tokens|
  {
    if tokens == [] {
      states := [sampler];
    } else {
      var rest := WarmUp(m, m.accept(sampler, tokens[0]), tokens[1..]);
      states := [sampler] + rest;
    }
  }

  /** The checks and steps before the first draw, for a call that reuses `prefix` tokens. */
  ghost predicate Enters(m: Model, faults: Faults, capacity: nat, prompt: string) {
    !faults(CancelAtEntry) && !faults(TokenizePrompt) && 0 < |m.tokenize(prompt)| < capacity
  }

  predicate ContextReady(faults: Faults, prefix: nat) {
    && (prefix == 0 ==> !faults(CreateContext)) && !faults(ClearGeneration)
    && (prefix > 0 ==> !faults(CopyCommitted) && !faults(RewindReplay))
  }

  /** The prompt positions from the last reused token on, up to `end`, can be queued. */
  ghost predicate Queued(faults: Faults, prefix: nat, end: nat) {
    forall p: nat | (if prefix == 0 then 0 else prefix - 1) <= p < end :: CanQueue(faults, p)
  }

  predicate CanQueue(faults: Faults, p: nat) { p <= I32_MAX && !faults(QueuePrompt(p)) }

  ghost predicate Prefilled(m: Model, faults: Faults, capacity: nat, prompt: string, prefix: nat) {
    && Enters(m, faults, capacity, prompt) && ContextReady(faults, prefix) && Queued(faults, prefix, |m.tokenize(prompt)|)
    && !faults(PrefillPrompt) && !faults(CancelAfterPrefill) && !faults(ClearCandidate) && !faults(CopyCandidate)
  }

  /** Everything before a step of the preparation went well, and the step is taken. */
  ghost predicate Comes(m: Model, faults: Faults, capacity: nat, prompt: string, prefix: nat, s: Step) {
    var end := |m.tokenize(prompt)|;
    var queued := Enters(m, faults, capacity, prompt) && ContextReady(faults, prefix) && Queued(faults, prefix, end);
    match s
    case CancelAtEntry => true
    case TokenizePrompt => !faults(CancelAtEntry)
    case CreateContext => Enters(m, faults, capacity, prompt) && prefix == 0
    case ClearGeneration => Enters(m, faults, capacity, prompt) && (prefix == 0 ==> !faults(CreateContext))
    case CopyCommitted => Enters(m, faults, capacity, prompt) && prefix > 0 && !faults(ClearGeneration)
    case RewindReplay => Enters(m, faults, capacity, prompt) && prefix > 0 && !faults(ClearGeneration) && !faults(CopyCommitted)
    case QueuePrompt(p) =>
      && Enters(m, faults, capacity, prompt) && ContextReady(faults, prefix)
      && (if prefix == 0 then 0 else prefix - 1) <= p < end && p <= I32_MAX && Queued(faults, prefix, p)
    case PrefillPrompt => queued
    case CancelAfterPrefill => queued && !faults(PrefillPrompt)
    case ClearCandidate => queued && !faults(PrefillPrompt) && !faults(CancelAfterPrefill)
    case CopyCandidate => queued && !faults(PrefillPrompt) && !faults(CancelAfterPrefill) && !faults(ClearCandidate)
    case _ => false
  }

  predicate Prepares(s: Step) {
    && !s.CancelBefore? && !s.DecodePiece? && !s.DeliverPiece? && !s.CancelAfter? && !s.QueueOutput? && !s.DecodeOutput?
    && !s.ClearCommitted? && !s.CopyPublished?
  }

  lemma {:induction false} QueueFailureExact(faults: Faults, from: nat, end: nat)
    ensures var e := QueueFailure(faults, from, end);
            && (e == None <==> forall p: nat | from <= p < end :: CanQueue(faults, p))
            && (e.Some? ==> e.value.PositionOverflow? || (e.value.Failed? && e.value.step.QueuePrompt?))
            && (forall p: nat :: e == Some(Failed(QueuePrompt(p))) <==>
                  from <= p < end && p <= I32_MAX && faults(QueuePrompt(p)) && forall q: nat | from <= q < p :: CanQueue(faults, q))
    decreases end - from
  {
    assert from < end ==> CanQueue(faults, from) || QueueFailure(faults, from, end).Some?;
    if from < end && from <= I32_MAX && !faults(QueuePrompt(from)) {
      QueueFailureExact(faults, from + 1, end);
    }
  }

  /** A step of the preparation is the reported error exactly if it fails and is the first
      that does; nothing was delivered then. */
  lemma PreparationExact(m: Model, faults: Faults, capacity: nat, prompt: string, settings: Settings, prefix: nat, publishes: bool, s: Step)
    requires Prepares(s)
    ensures var o := Run(m, faults, capacity, prompt, settings, prefix, publishes);
            && (o.result == Err(Failed(s)) <==> faults(s) && Comes(m, faults, capacity, prompt, prefix, s))
            && (o.result == Err(Failed(s)) ==> o.pieces == [])
  {
    hide Infer, AcceptMany;
    var tokens := m.tokenize(prompt);
    QueueFailureExact(faults, ReplayStart(prefix), |tokens|);
    LoopErrors(m, faults, capacity, tokens, settings);
  }

  /** An unusable prompt is reported as such. */
  lemma PromptErrorsExact(m: Model, faults: Faults, capacity: nat, prompt: string, settings: Settings, prefix: nat, publishes: bool)
    ensures var r := Run(m, faults, capacity, prompt, settings, prefix, publishes).result;
            var n := |m.tokenize(prompt)|;
            var asked := !faults(CancelAtEntry) && !faults(TokenizePrompt);
            && (r == Err(EmptyPrompt) <==> asked && n == 0)
            && (forall a, b :: r == Err(PromptTooLong(a, b)) <==> asked && n > 0 && n >= capacity && a == n && b == capacity)
  {
    hide Infer, AcceptMany;
    QueueFailureExact(faults, ReplayStart(prefix), |m.tokenize(prompt)|);
    LoopErrors(m, faults, capacity, m.tokenize(prompt), settings);
  }

  lemma LoopErrors(m: Model, faults: Faults, capacity: nat, tokens: seq<Token>, settings: Settings)
    ensures var e := Infer(m, faults, capacity, tokens, settings).error;
            e.Some? ==> e.value.PositionOverflow? || (e.value.Failed? && !Prepares(e.value.step) && !e.value.step.ClearCommitted? && !e.value.step.CopyPublished?)
  {
    hide AcceptMany, Draws, Worked;
    var x := ContinueTold(m, faults, capacity, tokens, AcceptMany(m, m.newSampler(SamplerFor(settings)), tokens), m.newDecoder, 0, settings.maxTokens);
  }

  /** What a prepared call delivers and returns, told by its run of drawn tokens. */
  ghost predicate Explains(m: Model, faults: Faults, capacity: nat, tokens: seq<Token>, settings: Settings, publishes: bool,
                           warm: seq<Sampler>, x: Story, o: Outcome)
  {
    && Warms(m, settings, tokens, warm) && Draws(m, tokens, x, warm[|tokens|], m.newDecoder)
    && |x.out| <= settings.maxTokens && Worked(faults, capacity, |tokens|, 0, x) && o.pieces == Audible(x.said)
    && match o.result
       case Ok(g) =>
         && g.text == Concat(x.said) && g.inputTokens == |tokens|
         && g.outputTokens == (if |tokens| + |x.out| <= capacity then |x.out| else |x.out| - 1)
         && (|x.out| < settings.maxTokens && |tokens| + |x.out| <= capacity ==> m.endsGeneration(NextToken(m, tokens, x)))
         && Stops(m, faults, capacity, tokens, 0, settings.maxTokens, x, None)
         && (publishes ==> !faults(ClearCommitted) && !faults(CopyPublished))
       case Err(e) =>
         if e == Failed(ClearCommitted) then publishes && faults(ClearCommitted) && Stops(m, faults, capacity, tokens, 0, settings.maxTokens, x, None)
         else if e == Failed(CopyPublished)
         then publishes && !faults(ClearCommitted) && faults(CopyPublished) && Stops(m, faults, capacity, tokens, 0, settings.maxTokens, x, None)
         else Stops(m, faults, capacity, tokens, 0, settings.maxTokens, x, Some(e))
  }

  /** Every prepared call is explained by a run of drawn tokens: each the sample after
      the prompt and the earlier ones, none of them ending the generation; the text is
      what they say, the output count the number of them decoded, and a call that
      finishes below its limits does so because the next sample ends the generation. An
      error is the first step that fails. */
  lemma CallExplained(m: Model, faults: Faults, capacity: nat, prompt: string, settings: Settings, prefix: nat, publishes: bool)
    returns (warm: seq<Sampler>, x: Story)
    requires Prefilled(m, faults, capacity, prompt, prefix)
    ensures Explains(m, faults, capacity, m.tokenize(prompt), settings, publishes, warm, x,
                     Run(m, faults, capacity, prompt, settings, prefix, publishes))
  {
    hide AcceptMany, Continue;
    var tokens := m.tokenize(prompt);
    QueueFailureExact(faults, ReplayStart(prefix), |tokens|);
    warm := WarmUp(m, m.newSampler(SamplerFor(settings)), tokens);
    x := ContinueTold(m, faults, capacity, tokens, warm[|tokens|], m.newDecoder, 0, settings.maxTokens);
    LoopErrors(m, faults, capacity, tokens, settings);
    var c := Infer(m, faults, capacity, tokens, settings);
    if c.error.None? { OutputCount(m, faults, capacity, tokens, settings, x); }
  }

  lemma OutputCount(m: Model, faults: Faults, capacity: nat, tokens: seq<Token>, settings: Settings, x: Story)
    requires Worked(faults, capacity, |tokens|, 0, x) && |x.samplers| == |x.out| + 1 && |tokens| <= capacity
    requires Stops(m, faults, capacity, tokens, 0, settings.maxTokens, x, None)
    ensures x.decoded == if |tokens| + |x.out| <= capacity then |x.out| else |x.out| - 1
    ensures |x.out| < settings.maxTokens && |tokens| + |x.out| <= capacity ==> m.endsGeneration(NextToken(m, tokens, x))
  {
    if x.decoded > 0 {
      assert WorkedAt(faults, capacity, |tokens| + (x.decoded - 1), x.decoded - 1, x.said[x.decoded - 1]);
    }
  }

  /** So a call succeeds only if it was prepared. */
  lemma SuccessIsPrepared(m: Model, faults: Faults, capacity: nat, prompt: string, settings: Settings, prefix: nat, publishes: bool)
    requires Run(m, faults, capacity, prompt, settings, prefix, publishes).result.Ok?
    ensures Prefilled(m, faults, capacity, prompt, prefix)
  {
    hide Infer;
    QueueFailureExact(faults, ReplayStart(prefix), |m.tokenize(prompt)|);
  }
}
