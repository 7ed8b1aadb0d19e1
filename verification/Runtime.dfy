/**
 The GGUF runtime: one owner of the model and of the session cache. A context is a
 value that lives in one place, either in a cache entry or in the running call.
 */
module Runtime {
  import opened Wrappers
  import opened Llama
  import opened Generation
  import opened SessionCache

  datatype SessionCacheEntry = SessionCacheEntry(context: Context, tokens: seq<Token>, estimatedBytes: nat, lastUsed: nat)

  type Sessions = map<Uuid, SessionCacheEntry>

  function Abstract(e: SessionCacheEntry): Entry {
    Entry(e.tokens, e.estimatedBytes, e.lastUsed)
  }

  function AbstractAll(sessions: Sessions): (r: Entries)
    ensures r.Keys == sessions.Keys
  {
    map id | id in sessions :: Abstract(sessions[id])
  }

  lemma AbstractRemove(sessions: Sessions, id: Uuid)
    ensures AbstractAll(sessions - {id}) == AbstractAll(sessions) - {id}
  {
  }

  lemma AbstractAt(sessions: Sessions, id: Uuid)
    requires id in sessions
    ensures AbstractAll(sessions)[id] == Abstract(sessions[id])
  {
  }

  lemma AbstractCount(sessions: Sessions)
    ensures |AbstractAll(sessions)| == |sessions|
  {
    assert |AbstractAll(sessions).Keys| == |sessions.Keys|;
  }

  /** Moving the bytes of one entry from what is left to the total. */
  lemma AddReserved(total: nat, left: Sessions, id: Uuid)
    requires id in left
    ensures |left - {id}| < |left|
    ensures Saturating(total + ByteSum(AbstractAll(left))) ==
            Saturating(Saturating(total + left[id].estimatedBytes) + ByteSum(AbstractAll(left - {id})))
    ensures Saturating(Saturating(total + left[id].estimatedBytes)) == Saturating(total + left[id].estimatedBytes)
  {
    hide ByteSum;
    ByteSumRemove(AbstractAll(left), id);
    AbstractRemove(left, id);
    assert (left - {id}).Keys == left.Keys - {id};
    assert |(left - {id}).Keys| == |left - {id}| && |left.Keys| == |left|;
  }

  lemma NothingReserved(total: nat, left: Sessions)
    ensures left == map[] ==> total + ByteSum(AbstractAll(left)) == total
    ensures Saturating(0) == 0
  {
  }

  // ------------------------------------------------------- reserved memory

  function SaturatingMul(a: nat, b: nat): nat { Saturating(a * b) }

  /** A native dimension as a size; negative ones read as zero. */
  function Size(n: int): nat { if n < 0 then 0 else n }

  /** The width of the cached keys of one layer, or the embedding width when it
      cannot be computed. */
  function KvWidth(m: Model): nat {
    var headWidth := if Size(m.heads) == 0 then Size(m.embedding) else Size(m.embedding) / Size(m.heads);
    var width := Size(m.kvHeads) * headWidth;
    if 0 < width <= USIZE_MAX then width else Size(m.embedding)
  }

  function EstimatedCacheBytes(m: Model, contextTokens: nat): (r: nat)
    ensures r == Saturating(contextTokens * Size(m.layers) * KvWidth(m) * 8)
  {
    SaturatingChain(contextTokens, Size(m.layers), KvWidth(m));
    SaturatingMul(SaturatingMul(SaturatingMul(SaturatingMul(contextTokens, Size(m.layers)), KvWidth(m)), 2), 4)
  }

  /** The estimate, told from the native dimensions: two floats for each key and value of
      each layer and position, with the embedding width where the width of the keys is
      not known, zero, or too large; negative dimensions count as zero. */
  lemma EstimateExact(m: Model, contextTokens: nat)
    ensures var bytes := EstimatedCacheBytes(m, contextTokens);
            var layers, embedding := (if m.layers > 0 then m.layers else 0), (if m.embedding > 0 then m.embedding else 0);
            var full := contextTokens * layers * embedding * 8;
            && bytes <= 0xFFFF_FFFF_FFFF_FFFF
            && (m.kvHeads <= 0 || m.embedding <= 0 || m.embedding < m.heads ==> bytes == Saturating(full))
            && (m.heads > 0 && m.kvHeads > 0 && m.embedding >= m.heads ==>
                  var width := m.kvHeads * (m.embedding / m.heads);
                  bytes == Saturating(if width <= 0xFFFF_FFFF_FFFF_FFFF then contextTokens * layers * width * 8 else full))
            && (m.heads <= 0 && m.kvHeads > 0 && m.embedding > 0 ==>
                  var width := m.kvHeads * m.embedding;
                  bytes == Saturating(if width <= 0xFFFF_FFFF_FFFF_FFFF then contextTokens * layers * width * 8 else full))
  {
    var heads, kv, e := Size(m.heads), Size(m.kvHeads), Size(m.embedding);
    if m.kvHeads <= 0 || m.embedding <= 0 || m.embedding < m.heads {
      assert heads > 0 && e < heads ==> e / heads == 0;
      assert kv == 0 || (if heads == 0 then e else e / heads) == 0 ==> kv * (if heads == 0 then e else e / heads) == 0;
      assert KvWidth(m) == e;
    } else if m.heads > 0 {
      PositiveQuotient(e, heads);
      assert kv * (e / heads) > 0;
    } else {
      assert kv * e > 0;
    }
  }

  lemma PositiveQuotient(a: nat, b: nat)
    requires a >= b > 0
    ensures a / b > 0
  {
  }

  lemma SaturatingStep(a: nat, b: nat)
    ensures SaturatingMul(Saturating(a), b) == Saturating(a * b)
  {
    if b > 0 && a > USIZE_MAX {
      assert a * b >= a && USIZE_MAX * b >= USIZE_MAX;
    }
  }

  lemma SaturatingChain(a: nat, b: nat, c: nat)
    ensures SaturatingMul(SaturatingMul(SaturatingMul(SaturatingMul(a, b), c), 2), 4) == Saturating(a * b * c * 8)
  {
    SaturatingStep(a * b, c);
    SaturatingStep(a * b * c, 2);
    SaturatingStep(a * b * c * 2, 4);
  }

  // -------------------------------------------------------- pieces of a call

  /** Queues the prompt from the replay start on, asking for the last logits. */
  method QueueReplay(tokens: seq<Token>, start: nat, faults: Faults) returns (batch: seq<BatchEntry>, error: Option<GenerateError>)
    requires start < |tokens|
    ensures error == QueueFailure(faults, start, |tokens|)
    ensures error.None? ==> ReplayBatch(batch, tokens, start)
  {
    batch := [];
    var position := start;
    while position < |tokens|
      invariant start <= position <= |tokens| && |batch| == position - start
      invariant QueueFailure(faults, start, |tokens|) == QueueFailure(faults, position, |tokens|)
      invariant forall i | 0 <= i < |batch| ::
                  batch[i] == BatchEntry(tokens[start + i], start + i, GENERATION, start + i + 1 == |tokens|)
    {
      if position > I32_MAX {
        return batch, Some(PositionOverflow(position));
      }
      if faults(QueuePrompt(position)) {
        return batch, Some(Failed(QueuePrompt(position)));
      }
      batch := batch + [BatchEntry(tokens[position], position, GENERATION, position + 1 == |tokens|)];
      position := position + 1;
    }
    return batch, None;
  }

  /** The generation sequence holds the reused prefix but its last token. */
  method PrepareSequence(m: Model, context0: Context, tokens: seq<Token>, prefix: nat, faults: Faults)
    returns (context: Context, error: Option<GenerateError>)
    requires prefix <= |tokens|
    requires prefix > 0 ==> context0.sequences[COMMITTED] == PrefixCells(m, tokens[..prefix])
    requires prefix == 0 ==> !faults(CreateContext)
    ensures error == ContextFailure(faults, prefix)
    ensures error.None? ==>
              context.capacity == context0.capacity &&
              context.sequences[GENERATION] == PrefixCells(m, tokens[..ReplayStart(prefix)])
  {
    context := context0;
    if faults(ClearGeneration) {
      return context, Some(Failed(ClearGeneration));
    }
    context := ClearSequence(context, GENERATION);
    if prefix > 0 {
      if faults(CopyCommitted) {
        return context, Some(Failed(CopyCommitted));
      }
      context := CopySequence(context, COMMITTED, GENERATION);
    }
    var start := ReplayStart(prefix);
    if prefix > 0 {
      if faults(RewindReplay) {
        return context, Some(Failed(RewindReplay));
      }
      RewindOne(m, context, tokens[..prefix]);
      assert tokens[..prefix][..prefix - 1] == tokens[..start];
      context := ClearRange(context, GENERATION, start, prefix);
    }
    return context, None;
  }

  /** Decodes the rest of the prompt and checkpoints it on the candidate sequence. */
  method Prefill(m: Model, context0: Context, tokens: seq<Token>, prefix: nat, faults: Faults)
    returns (context: Context, error: Option<GenerateError>)
    requires prefix <= |tokens| && 0 < |tokens| < context0.capacity
    requires context0.sequences[GENERATION] == PrefixCells(m, tokens[..ReplayStart(prefix)])
    ensures error == PrefillFailure(faults, |tokens|, prefix)
    ensures error.None? ==>
              && context.capacity == context0.capacity
              && context.sequences[GENERATION] == PrefixCells(m, tokens)
              && context.sequences[CANDIDATE] == PrefixCells(m, tokens)
              && context.logits == Some(PrefixLogits(m, tokens))
  {
    context := context0;
    var start := ReplayStart(prefix);
    var batch, queueError := QueueReplay(tokens, start, faults);
    if queueError.Some? {
      return context, queueError;
    }
    if faults(PrefillPrompt) {
      return context, Some(Failed(PrefillPrompt));
    }
    ReplayExtends(m, context.(logits := None), batch, tokens, start);
    context := Decode(m, context, batch);
    if faults(CancelAfterPrefill) {
      return context, Some(Failed(CancelAfterPrefill));
    }
    if faults(ClearCandidate) {
      return context, Some(Failed(ClearCandidate));
    }
    context := ClearSequence(context, CANDIDATE);
    if faults(CopyCandidate) {
      return context, Some(Failed(CopyCandidate));
    }
    context := CopySequence(context, GENERATION, CANDIDATE);
    return context, None;
  }

  method AcceptAll(m: Model, sampler0: Sampler, tokens: seq<Token>) returns (sampler: Sampler)
    ensures sampler == AcceptMany(m, sampler0, tokens)
  {
    sampler := sampler0;
    for i := 0 to |tokens|
      invariant AcceptMany(m, sampler0, tokens) == AcceptMany(m, sampler, tokens[i..])
    {
      assert tokens[i..][0] == tokens[i] && tokens[i..][1..] == tokens[i + 1..];
      sampler := m.accept(sampler, tokens[i]);
    }
    assert tokens[|tokens|..] == [];
  }

  /** Feeds one sampled token back, so the next logits follow the longer history. */
  method FeedBack(m: Model, context0: Context, ghost history: seq<Token>, position: nat, token: Token, round: nat, faults: Faults)
    returns (context: Context, error: Option<GenerateError>)
    requires position == |history| < context0.capacity && context0.sequences[GENERATION] == PrefixCells(m, history)
    ensures error == if |history| > I32_MAX then Some(PositionOverflow(|history|))
                     else if faults(QueueOutput(round)) then Some(Failed(QueueOutput(round)))
                     else if faults(DecodeOutput(round)) then Some(Failed(DecodeOutput(round)))
                     else None
    ensures error.None? ==>
              && context.capacity == context0.capacity
              && context.sequences == context0.sequences[GENERATION := PrefixCells(m, history + [token])]
              && context.logits == Some(PrefixLogits(m, history + [token]))
  {
    context := context0;
    if position > I32_MAX {
      return context, Some(PositionOverflow(position));
    }
    if faults(QueueOutput(round)) {
      return context, Some(Failed(QueueOutput(round)));
    }
    var entry := BatchEntry(token, position, GENERATION, true);
    if faults(DecodeOutput(round)) {
      return context, Some(Failed(DecodeOutput(round)));
    }
    var emptied := context.(logits := None);
    DecodeOneExtends(m, emptied, entry, history);
    assert [entry][1..] == [];
    assert DecodeEntries(m, emptied, [entry]) == DecodeOne(m, emptied, entry);
    context := Decode(m, context, [entry]);
    error := None;
  }

  /** How a round ends: going on with one more token in the context, or for good. */
  datatype RoundEnd = Again(token: Token) | Ended(error: Option<GenerateError>)

  /** One round of the loop: samples a token, delivers its piece, feeds it back.
      `said` is the piece of the sampled token, if one was sampled and decoded. */
  method Round(m: Model, context0: Context, ghost history: seq<Token>, position: nat, sampler0: Sampler, decoder0: Decoder,
               round: nat, ghost budget: nat, faults: Faults)
    returns (context: Context, sampler: Sampler, decoder: Decoder, said: Option<string>, end: RoundEnd)
    requires budget > 0 && position == |history| <= context0.capacity
    requires context0.sequences[GENERATION] == PrefixCells(m, history) && context0.logits == Some(PrefixLogits(m, history))
    ensures Continue(m, faults, context0.capacity, history, sampler0, decoder0, round, budget) ==
            match end
            case Ended(error) => if said.Some? then Delivered(said.value, Stop(history, error)) else Stop(history, error)
            case Again(token) =>
              Delivered(if said.Some? then said.value else "",
                        Continue(m, faults, context0.capacity, history + [token], sampler, decoder, round + 1, budget - 1))
    ensures end.Again? ==>
              && said.Some? && position < context.capacity
              && context.sequences[GENERATION] == PrefixCells(m, history + [end.token])
              && context.logits == Some(PrefixLogits(m, history + [end.token]))
    ensures context.capacity == context0.capacity && context.sequences[CANDIDATE] == context0.sequences[CANDIDATE]
  {
    context, sampler, decoder, said := context0, sampler0, decoder0, None;
    if faults(CancelBefore(round)) {
      end := Ended(Some(Failed(CancelBefore(round))));
      return;
    }
    var (token, sampled) := m.sample(sampler, context.logits.value);
    if m.endsGeneration(token) {
      end := Ended(None);
      return;
    }
    sampler := m.accept(sampled, token);
    if faults(DecodePiece(round)) {
      end := Ended(Some(Failed(DecodePiece(round))));
      return;
    }
    var (piece, decoder') := m.piece(decoder, token);
    decoder := decoder';
    said := Some(piece);
    if piece != "" && faults(DeliverPiece(round)) {
      end := Ended(Some(Failed(DeliverPiece(round))));
      return;
    }
    if faults(CancelAfter(round)) {
      end := Ended(Some(Failed(CancelAfter(round))));
      return;
    }
    if position >= context.capacity {
      end := Ended(None);
      return;
    }
    var fed, error := FeedBack(m, context, history, position, token, round, faults);
    if error.Some? {
      end := Ended(error);
      return;
    }
    context := fed;
    end := Again(token);
  }

  /** What was delivered so far, followed by the rest, makes up the whole. */
  ghost predicate Resumes(all: Continuation, pieces: seq<string>, output: string, rest: Continuation) {
    && all.pieces == pieces + rest.pieces && all.text == output + rest.text
    && all.history == rest.history && all.error == rest.error
  }

  lemma Delivering(all: Continuation, pieces: seq<string>, output: string, piece: string, rest: Continuation)
    requires Resumes(all, pieces, output, Delivered(piece, rest))
    ensures Resumes(all, if piece == "" then pieces else pieces + [piece], output + piece, rest)
  {
  }

  lemma Stopping(all: Continuation, pieces: seq<string>, output: string, history: seq<Token>, error: Option<GenerateError>)
    requires Resumes(all, pieces, output, Stop(history, error))
    ensures all.pieces == pieces && all.text == output && all.history == history && all.error == error
  {
  }

  lemma BudgetSpent(m: Model, faults: Faults, capacity: nat, history: seq<Token>, sampler: Sampler, decoder: Decoder, round: nat)
    ensures Continue(m, faults, capacity, history, sampler, decoder, round, 0) == Stop(history, None)
  {
  }

  /** The generation loop. */
  method SampleLoop(m: Model, context0: Context, tokens: seq<Token>, settings: Settings, faults: Faults)
    returns (context: Context, pieces: seq<string>, output: string, position: nat, error: Option<GenerateError>)
    requires 0 < |tokens| < context0.capacity
    requires context0.sequences[GENERATION] == PrefixCells(m, tokens) && context0.logits == Some(PrefixLogits(m, tokens))
    ensures var c := Infer(m, faults, context0.capacity, tokens, settings);
            pieces == c.pieces && output == c.text && position == |c.history| && error == c.error
    ensures context.sequences[CANDIDATE] == context0.sequences[CANDIDATE] && context.capacity == context0.capacity
    ensures position >= |tokens|
  {
    hide PrefixCells, PrefixLogits, AcceptMany, Filled, Delivered, Stop, Continue;
    context, pieces, output, position, error := context0, [], "", |tokens|, None;
    var capacity := context0.capacity;
    var blank := m.newSampler(SamplerFor(settings));
    var sampler := AcceptAll(m, blank, tokens);
    var decoder := m.newDecoder;
    ghost var history := tokens;
    ghost var all := Infer(m, faults, capacity, tokens, settings);
    ghost var rest := all;
    assert Resumes(all, pieces, output, rest);
    hide Resumes;
    for round := 0 to settings.maxTokens
      invariant position == |history| && |tokens| <= position <= capacity
      invariant context.capacity == capacity && error == None
      invariant context.sequences[CANDIDATE] == context0.sequences[CANDIDATE]
      invariant context.sequences[GENERATION] == PrefixCells(m, history) && context.logits == Some(PrefixLogits(m, history))
      invariant rest == Continue(m, faults, capacity, history, sampler, decoder, round, settings.maxTokens - round)
      invariant Resumes(all, pieces, output, rest)
    {
      var said, end;
      context, sampler, decoder, said, end :=
        Round(m, context, history, position, sampler, decoder, round, settings.maxTokens - round, faults);
      ghost var later := if end.Again?
        then Continue(m, faults, capacity, history + [end.token], sampler, decoder, round + 1, settings.maxTokens - round - 1)
        else Stop(history, end.error);
      if said.Some? {
        Delivering(all, pieces, output, said.value, later);
        output := output + said.value;
        if said.value != "" {
          pieces := pieces + [said.value];
        }
      }
      if end.Ended? {
        Stopping(all, pieces, output, history, end.error);
        return context, pieces, output, position, end.error;
      }
      position := position + 1;
      history := history + [end.token];
      rest := later;
    }
    BudgetSpent(m, faults, capacity, history, sampler, decoder, settings.maxTokens);
    Stopping(all, pieces, output, history, None);
  }

  // -------------------------------------------------------------- the model

  /** The committed sequence of an entry holds exactly the cells of its tokens. */
  ghost predicate Checkpointed(m: Model, capacity: nat, e: SessionCacheEntry) {
    e.context.capacity == capacity && e.context.sequences[COMMITTED] == PrefixCells(m, e.tokens)
  }

  /** The entries of `all` that were looked at and kept, or are still to be looked at. */
  ghost predicate Sifted(config: Config, now: nat, all: Sessions, kept: Sessions, todo: set<Uuid>) {
    && todo <= kept.Keys
    && (forall id | id in kept :: id in all && kept[id] == all[id] && (id in todo || !Idle(config, Abstract(all[id]), now)))
    && (forall id | id in all && id !in kept :: Idle(config, Abstract(all[id]), now))
  }

  lemma Sifting(config: Config, now: nat, all: Sessions, kept: Sessions, todo: set<Uuid>, id: Uuid)
    requires Sifted(config, now, all, kept, todo) && id in todo
    ensures id in kept && |kept - {id}| == |kept| - 1
    ensures if Idle(config, Abstract(kept[id]), now)
            then Sifted(config, now, all, kept - {id}, todo - {id})
            else Sifted(config, now, all, kept, todo - {id})
  {
    assert (kept - {id}).Keys == kept.Keys - {id};
    assert |(kept - {id}).Keys| == |kept - {id}| && |kept.Keys| == |kept|;
  }

  lemma SiftingStarts(config: Config, now: nat, all: Sessions)
    ensures Sifted(config, now, all, all, all.Keys)
  {
  }

  lemma SiftedAll(config: Config, now: nat, all: Sessions, kept: Sessions)
    requires Sifted(config, now, all, kept, {})
    ensures AbstractAll(kept) == Fresh(config, AbstractAll(all), now)
    ensures Within(AbstractAll(kept), AbstractAll(all))
    ensures forall id | id in kept :: id in all && kept[id] == all[id]
  {
  }

  lemma GoneIs(before: Entries, after: Entries, n: nat)
    requires |after| + n == |before|
    ensures Gone(before, after) == n
  {
  }

  lemma NoExpiration(s: Option<Counters>)
    ensures CountExpirations(s, 0) == s
  {
  }

  lemma OneMoreExpiration(s: Option<Counters>, n: nat)
    ensures CountExpirations(CountExpirations(s, n), 1) == CountExpirations(s, n + 1)
  {
  }

  lemma NoEviction(s: Option<Counters>)
    ensures CountEvictions(s, 0) == s
  {
  }

  lemma OneMoreEviction(s: Option<Counters>, n: nat)
    ensures CountEvictions(CountEvictions(s, n), 1) == CountEvictions(s, n + 1)
  {
  }

  lemma EvictedEnough(config: Config, now: Entries, bytes: nat)
    requires Fits(config, now, bytes)
    ensures EvictsTo(config, now, bytes, now)
  {
  }

  /** An empty cache has room for any entry that is not oversized. */
  lemma NothingToEvict(config: Config, bytes: nat)
    requires config.maxEntries > 0 && !Oversized(config, bytes) && bytes <= USIZE_MAX
    ensures Fits(config, map[], bytes)
  {
  }

  /** Evicting an oldest entry is a step towards what eviction leads to. */
  lemma EvictOne(config: Config, now: Entries, id: Uuid, bytes: nat)
    requires Oldest(now, id) && !Fits(config, now, bytes)
    ensures |now - {id}| == |now| - 1
    ensures forall after :: EvictsTo(config, now - {id}, bytes, after) ==> EvictsTo(config, now, bytes, after)
  {
    assert (now - {id}).Keys == now.Keys - {id};
    assert |(now - {id}).Keys| == |now - {id}| && |now.Keys| == |now|;
  }

  lemma RemoveAbsent(entries: Entries, id: Uuid)
    requires id !in entries
    ensures entries - {id} == entries
  {
  }

  lemma EntryIsCached(h: Host, entries: Entries, id: Uuid)
    requires Bounded(h, entries) && id in entries
    ensures |entries[id].tokens| > 0
  {
  }

  /** Publication before the reuse guard is dropped. */
  ghost predicate Published(h: Host, taken: State, c: Call, kept: Entries, s': State)
    requires c.session.Some?
  {
    && EvictsTo(h.config, taken.entries, h.bytes, kept)
    && s' == State(if PublishFailure(c.faults).Some? then kept
                   else kept[c.session.value := Entry(h.model.tokenize(c.prompt), h.bytes, c.now)],
                   CountEvictions(taken.stats, Gone(taken.entries, kept)))
  }

  class GgufModel {
    const model: Model
    const contextTokens: nat
    const config: Config
    var stats: Option<Counters>
    var sessionCache: Sessions

    constructor (model: Model, contextTokens: nat, config: Config, stats: Option<Counters>)
      requires contextTokens > 0
      ensures Valid() && sessionCache == map[] && this.stats == stats
      ensures this.model == model && this.contextTokens == contextTokens && this.config == config
    {
      this.model, this.contextTokens, this.config, this.stats := model, contextTokens, config, stats;
      sessionCache := map[];
    }

    function TheHost(): Host {
      Host(model, contextTokens, config, EstimatedCacheBytes(model, contextTokens))
    }

    /** What the cache looks like from outside. */
    function View(): State
      reads this
    {
      State(AbstractAll(sessionCache), stats)
    }

    ghost predicate Valid()
      reads this
    {
      && Bounded(TheHost(), View().entries)
      && forall id | id in sessionCache :: Checkpointed(model, contextTokens, sessionCache[id])
    }

    /** Drops the entries idle for longer than the configured time. */
    method ExpireIdle(now: nat)
      requires Valid()
      modifies this
      ensures Valid()
      ensures View() == Expired(TheHost(), old(View()), now)
      ensures forall id | id in sessionCache :: id in old(sessionCache) && sessionCache[id] == old(sessionCache)[id]
    {
      hide CountExpirations, Bounded, EstimatedCacheBytes, Fresh, Gone, Idle, Sifted;
      ghost var all := sessionCache;
      ghost var before := View();
      SiftingStarts(config, now, all);
      NoExpiration(stats);
      ghost var stats0, dropped := stats, 0;
      var todo := sessionCache.Keys;
      while todo != {}
        invariant Sifted(config, now, all, sessionCache, todo)
        invariant |sessionCache| + dropped == |all| && stats == CountExpirations(stats0, dropped)
        decreases |todo|
      {
        var id :| id in todo;
        Sifting(config, now, all, sessionCache, todo, id);
        if Idle(config, Abstract(sessionCache[id]), now) {
          sessionCache := sessionCache - {id};
          OneMoreExpiration(stats0, dropped);
          stats := CountExpirations(stats, 1);
          dropped := dropped + 1;
        }
        todo := todo - {id};
      }
      AbstractCount(all);
      SiftedAll(config, now, all, sessionCache);
      AbstractCount(sessionCache);
      assert View().entries == Fresh(config, before.entries, now);
      GoneIs(before.entries, View().entries, dropped);
      FewerEntriesBounded(TheHost(), before.entries, View().entries);
    }

    /** The least recently used session, if any; ties go to any of them. */
    method LeastRecentlyUsed() returns (r: Option<Uuid>)
      ensures r.None? <==> sessionCache == map[]
      ensures r.Some? ==> Oldest(View().entries, r.value)
    {
      r := None;
      var todo := sessionCache.Keys;
      while todo != {}
        invariant todo <= sessionCache.Keys && (r.None? <==> todo == sessionCache.Keys)
        invariant r.Some? ==> r.value in sessionCache
        invariant r.Some? ==> forall id | id in sessionCache && id !in todo :: sessionCache[r.value].lastUsed <= sessionCache[id].lastUsed
        decreases |todo|
      {
        var id :| id in todo;
        if r.None? || sessionCache[id].lastUsed < sessionCache[r.value].lastUsed {
          r := Some(id);
        }
        todo := todo - {id};
      }
    }

    /** The reserved bytes of all entries, added up without overflow. */
    method ReservedBytes() returns (total: nat)
      ensures total == Saturating(ByteSum(View().entries))
    {
      hide ByteSum, Saturating, AbstractAll;
      total := 0;
      var left := sessionCache;
      ghost var all := ByteSum(View().entries);
      NothingReserved(0, left);
      while left != map[]
        invariant Saturating(all) == Saturating(total + ByteSum(AbstractAll(left)))
        invariant Saturating(total) == total
        decreases |left|
      {
        var id :| id in left;
        AddReserved(total, left, id);
        total := Saturating(total + left[id].estimatedBytes);
        left := left - {id};
      }
      NothingReserved(total, left);
    }

    /** Whether one more entry fits; no sum overflows. */
    method HasRoom(bytes: nat) returns (r: bool)
      ensures r <==> Fits(config, View().entries, bytes)
    {
      var reserved := ReservedBytes();
      AbstractCount(sessionCache);
      r := |sessionCache| < config.maxEntries && !(config.maxBytes > 0 && Saturating(reserved + bytes) > config.maxBytes);
    }

    /** Removes one least recently used session. */
    method EvictOldest() returns (evicted: Option<Uuid>)
      requires Valid()
      modifies this
      ensures Valid()
      ensures evicted.None? ==> old(sessionCache) == map[] && View() == old(View())
      ensures evicted.Some? ==> Oldest(old(View()).entries, evicted.value)
      ensures evicted.Some? ==> sessionCache == old(sessionCache) - {evicted.value} && stats == CountEvictions(old(stats), 1)
    {
      evicted := LeastRecentlyUsed();
      if evicted.Some? {
        ghost var now := View().entries;
        AbstractRemove(sessionCache, evicted.value);
        FewerEntriesBounded(TheHost(), now, now - {evicted.value});
        sessionCache := sessionCache - {evicted.value};
        stats := CountEvictions(stats, 1);
      }
    }

    /** Evicts least recently used sessions until one more entry fits. */
    method MakeRoom(bytes: nat)
      requires Valid() && config.maxEntries > 0 && !Oversized(config, bytes) && bytes <= USIZE_MAX
      modifies this
      ensures Valid()
      ensures EvictsTo(config, old(View()).entries, bytes, View().entries)
      ensures stats == CountEvictions(old(stats), Gone(old(View()).entries, View().entries))
      ensures forall id | id in sessionCache :: id in old(sessionCache) && sessionCache[id] == old(sessionCache)[id]
    {
      hide CountEvictions, Bounded, Checkpointed, EvictsTo, Valid;
      ghost var before, stats0 := View().entries, stats;
      ghost var evicted := 0;
      NoEviction(stats);
      var fits := HasRoom(bytes);
      while !fits
        invariant Valid() && (fits <==> Fits(config, View().entries, bytes))
        invariant |View().entries| + evicted == |before| && stats == CountEvictions(stats0, evicted)
        invariant forall after :: EvictsTo(config, View().entries, bytes, after) ==> EvictsTo(config, before, bytes, after)
        invariant forall id | id in sessionCache :: id in old(sessionCache) && sessionCache[id] == old(sessionCache)[id]
        decreases |sessionCache|
      {
        ghost var now, sessions := View().entries, sessionCache;
        var oldest := EvictOldest();
        if oldest.None? {
          NothingToEvict(config, bytes);
          assert false;
          break;
        }
        EvictOne(config, now, oldest.value, bytes);
        AbstractRemove(sessions, oldest.value);
        AbstractCount(sessions);
        AbstractCount(sessionCache);
        OneMoreEviction(stats0, evicted);
        evicted := evicted + 1;
        fits := HasRoom(bytes);
      }
      EvictedEnough(config, View().entries, bytes);
    }

    /** Takes an entry out of the cache, if there is one. */
    method TakeEntry(id: Uuid) returns (entry: Option<SessionCacheEntry>)
      requires Valid()
      modifies this`sessionCache
      ensures Valid() && View().entries == old(View()).entries - {id}
      ensures entry.Some? <==> id in old(View()).entries
      ensures entry.Some? ==>
                && Abstract(entry.value) == old(View()).entries[id] && entry.value.tokens != []
                && entry.value.context.capacity == contextTokens
                && entry.value.context.sequences[COMMITTED] == PrefixCells(model, entry.value.tokens)
    {
      hide Bounded, EstimatedCacheBytes, AbstractAll;
      ghost var live := View().entries;
      AbstractRemove(sessionCache, id);
      FewerEntriesBounded(TheHost(), live, live - {id});
      entry := None;
      if id in sessionCache {
        entry := Some(sessionCache[id]);
        AbstractAt(sessionCache, id);
        EntryIsCached(TheHost(), live, id);
        sessionCache := sessionCache - {id};
      } else {
        RemoveAbsent(live, id);
      }
    }

    /** Takes the entry of the call's session out of the cache, and says how much of it
        the prompt can reuse. */
    method LookUp(c: Call, tokens: seq<Token>) returns (found: Option<Context>, prefix: nat)
      requires Valid() && tokens == model.tokenize(c.prompt)
      modifies this
      ensures Valid() && View() == LookedUp(TheHost(), old(View()), c)
      ensures prefix == Reused(Find(TheHost(), old(View()).entries, c))
      ensures (found.Some? <==> prefix > 0) && (found.Some? <==> Find(TheHost(), old(View()).entries, c).Hit?)
      ensures found.Some? ==>
                && found.value.capacity == contextTokens && prefix <= |tokens|
                && found.value.sequences[COMMITTED] == PrefixCells(model, tokens[..prefix])
    {
      hide Bounded, EstimatedCacheBytes, AbstractAll, CountHit, CountMiss, Checkpointed;
      found, prefix := None, 0;
      if Cacheable(TheHost(), c) {
        var entry := TakeEntry(c.session.value);
        if entry.Some? && entry.value.tokens <= tokens {
          stats := CountHit(stats);
          prefix := |entry.value.tokens|;
          assert entry.value.tokens == tokens[..prefix];
          found := Some(entry.value.context);
        } else {
          stats := CountMiss(stats);
        }
      }
    }

    /** The context a call works on: the one of its session if the prompt extends the
        cached tokens, a new one otherwise. */
    method TakeContext(c: Call, tokens: seq<Token>, ghost s: State) returns (context: Context, prefix: nat, error: Option<GenerateError>)
      requires Valid() && View() == Bypassed(TheHost(), s, c) && tokens == model.tokenize(c.prompt)
      modifies this
      ensures Valid() && View() == Taken(TheHost(), s, c)
      ensures prefix == Reused(LookupIn(TheHost(), s, c)) && (LookupIn(TheHost(), s, c).Hit? <==> prefix > 0)
      ensures error == if prefix == 0 && c.faults(CreateContext) then Some(Failed(CreateContext)) else None
      ensures error.None? ==> context.capacity == contextTokens && prefix <= |tokens|
      ensures error.None? && prefix > 0 ==> context.sequences[COMMITTED] == PrefixCells(model, tokens[..prefix])
    {
      hide Bounded, Checkpointed, EstimatedCacheBytes, LookedUp, Find, Fresh;
      ExpireIdle(c.now);
      var found;
      found, prefix := LookUp(c, tokens);
      if found.Some? {
        return found.value, prefix, None;
      }
      context := NewContext(contextTokens);
      error := if c.faults(CreateContext) then Some(Failed(CreateContext)) else None;
    }

    /** Publishes the candidate checkpoint of a finished generation. */
    method Publish(c: Call, context0: Context, tokens: seq<Token>) returns (error: Option<GenerateError>)
      requires Valid() && tokens == model.tokenize(c.prompt) && Publishes(TheHost(), c)
      requires Rejection(model, c.faults, contextTokens, c.prompt).None? && c.session.value !in sessionCache
      requires context0.capacity == contextTokens && context0.sequences[CANDIDATE] == PrefixCells(model, tokens)
      modifies this
      ensures Valid() && error == PublishFailure(c.faults)
      ensures exists kept :: Published(TheHost(), old(View()), c, kept, View())
    {
      hide Bounded, EvictsTo, CountEvictions, LruCut, PrefixCells, Fits;
      var bytes := EstimatedCacheBytes(model, contextTokens);
      MakeRoom(bytes);
      ghost var kept := View().entries;
      EvictionIsLru(config, old(View()).entries, bytes, kept);
      var context := context0;
      if c.faults(ClearCommitted) {
        assert Published(TheHost(), old(View()), c, kept, View());
        return Some(Failed(ClearCommitted));
      }
      context := ClearSequence(context, COMMITTED);
      if c.faults(CopyPublished) {
        assert Published(TheHost(), old(View()), c, kept, View());
        return Some(Failed(CopyPublished));
      }
      context := CopySequence(context, CANDIDATE, COMMITTED);
      var id := c.session.value;
      InsertionBounded(TheHost(), kept, id, Entry(tokens, bytes, c.now));
      sessionCache := sessionCache[id := SessionCacheEntry(context, tokens, bytes, c.now)];
      assert View().entries == kept[id := Entry(tokens, bytes, c.now)];
      assert Published(TheHost(), old(View()), c, kept, View());
      return None;
    }

    /** Everything a call does once it holds its context. `committed` disarms the
        guard that counts an invalidation. */
    method Serve(c: Call, context0: Context, tokens: seq<Token>, prefix: nat)
      returns (pieces: seq<string>, result: Result<Generated, GenerateError>, committed: bool)
      requires Valid() && tokens == model.tokenize(c.prompt) && Rejection(model, c.faults, contextTokens, c.prompt).None?
      requires Cacheable(TheHost(), c) ==> c.session.value !in sessionCache
      requires prefix <= |tokens| && context0.capacity == contextTokens
      requires prefix > 0 ==> context0.sequences[COMMITTED] == PrefixCells(model, tokens[..prefix])
      requires prefix == 0 ==> !c.faults(CreateContext)
      modifies this
      ensures Valid()
      ensures Outcome(pieces, result) == Run(model, c.faults, contextTokens, c.prompt, c.settings, prefix, Publishes(TheHost(), c))
      ensures if Run(model, c.faults, contextTokens, c.prompt, c.settings, prefix, false).result.Ok? && Publishes(TheHost(), c)
              then committed == PublishFailure(c.faults).None? && exists kept :: Published(TheHost(), old(View()), c, kept, View())
              else !committed && View() == old(View())
    {
      hide Bounded, Checkpointed, EstimatedCacheBytes, Published, PrefixCells, PrefixLogits, ContextFailure, PrefillFailure, Infer, Valid, Cacheable;
      var context, error := PrepareSequence(model, context0, tokens, prefix, c.faults);
      if error.Some? {
        return [], Err(error.value), false;
      }
      context, error := Prefill(model, context, tokens, prefix, c.faults);
      if error.Some? {
        return [], Err(error.value), false;
      }
      var output, position;
      context, pieces, output, position, error := SampleLoop(model, context, tokens, c.settings, c.faults);
      if error.Some? {
        return pieces, Err(error.value), false;
      }
      result := Ok(Generated(output, |tokens|, position - |tokens|));
      committed := false;
      if Cacheable(TheHost(), c) {
        if Oversized(config, EstimatedCacheBytes(model, contextTokens)) {
          return;
        }
        error := Publish(c, context, tokens);
        if error.Some? {
          return pieces, Err(error.value), false;
        }
        committed := true;
      }
    }

    /** One generate call: its outcome is the one told without a cache, and the cache
        moves by one call step. */
    method Generate(c: Call) returns (pieces: seq<string>, result: Result<Generated, GenerateError>)
      requires Valid()
      modifies this
      ensures Valid()
      ensures Outcome(pieces, result) == OutcomeOf(TheHost(), old(View()), c)
      ensures CallStep(TheHost(), old(View()), c, View())
    {
      hide Bounded, Checkpointed, EstimatedCacheBytes, Infer, PrefillFailure, EvictsTo;
      ghost var s := View();
      if c.faults(CancelAtEntry) {
        return [], Err(Failed(CancelAtEntry));
      }
      if c.faults(TokenizePrompt) {
        return [], Err(Failed(TokenizePrompt));
      }
      var tokens := model.tokenize(c.prompt);
      if tokens == [] {
        return [], Err(EmptyPrompt);
      }
      if !Cacheable(TheHost(), c) {
        stats := CountMiss(stats);
      }
      if |tokens| >= contextTokens {
        return [], Err(PromptTooLong(|tokens|, contextTokens));
      }
      var context, prefix, error := TakeContext(c, tokens, s);
      if error.Some? {
        return [], Err(error.value);
      }
      TakenShrinks(TheHost(), s, c);
      ghost var taken := View();
      var committed;
      pieces, result, committed := Serve(c, context, tokens, prefix);
      ghost var served := View();
      if prefix > 0 && !committed {
        stats := CountInvalidation(stats);
      }
      if Completes(TheHost(), s, c) && Publishes(TheHost(), c) {
        ghost var kept :| Published(TheHost(), taken, c, kept, served);
        assert Publication(TheHost(), taken, c, LookupIn(TheHost(), s, c), kept, View());
      }
    }

    /** Discards the entry of a session. */
    method InvalidateSession(session: Option<Uuid>)
      requires Valid()
      modifies this
      ensures Valid() && View() == Invalidate(old(View()), session)
    {
      if session.Some? && session.value in sessionCache {
        ghost var now := View().entries;
        AbstractRemove(sessionCache, session.value);
        FewerEntriesBounded(TheHost(), now, now - {session.value});
        sessionCache := sessionCache - {session.value};
        stats := CountInvalidation(stats);
      }
    }
  }
}
