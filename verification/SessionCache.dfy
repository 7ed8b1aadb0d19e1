/**
 The session cache as a client of the worker can know it: which sessions are kept,
 for which tokens, and the counters. One call moves it by `CallStep`.
 */
module SessionCache {
  import opened Wrappers
  import opened Clock
  import opened Llama
  import opened Generation


  type Uuid(==,0,!new)

  datatype Config = Config(minTokens: nat, maxEntries: nat, maxBytes: nat, idleTtlMs: nat)

  datatype Entry = Entry(tokens: seq<Token>, bytes: nat, lastUsed: nat)

  type Entries = map<Uuid, Entry>

  datatype Counters = Counters(hits: nat, misses: nat, evictions: nat, expirations: nat, invalidations: nat)

  /** Counters are kept only when the model was loaded with a statistics sink. */
  datatype State = State(entries: Entries, stats: Option<Counters>)

  function CountHit(s: Option<Counters>): Option<Counters> {
    match s { case None => None case Some(c) => Some(c.(hits := c.hits + 1)) }
  }

  function CountMiss(s: Option<Counters>): Option<Counters> {
    match s { case None => None case Some(c) => Some(c.(misses := c.misses + 1)) }
  }

  function CountEvictions(s: Option<Counters>, n: nat): Option<Counters> {
    match s { case None => None case Some(c) => Some(c.(evictions := c.evictions + n)) }
  }

  function CountExpirations(s: Option<Counters>, n: nat): Option<Counters> {
    match s { case None => None case Some(c) => Some(c.(expirations := c.expirations + n)) }
  }

  function CountInvalidation(s: Option<Counters>): Option<Counters> {
    match s { case None => None case Some(c) => Some(c.(invalidations := c.invalidations + 1)) }
  }

  /** The entries of `small` are entries of `large`. */
  ghost predicate Within(small: Entries, large: Entries) {
    forall id | id in small :: id in large && small[id] == large[id]
  }

  /** How many entries went away. */
  function Gone(before: Entries, after: Entries): nat {
    if |after| <= |before| then |before| - |after| else 0
  }

  // ---------------------------------------------------------------- expiry

  predicate Idle(config: Config, e: Entry, now: nat) {
    config.idleTtlMs > 0 && Elapsed(now, e.lastUsed) > config.idleTtlMs * NANOS_PER_MILLI
  }

  function Fresh(config: Config, entries: Entries, now: nat): (r: Entries)
    ensures r.Keys <= entries.Keys
  {
    map id | id in entries && !Idle(config, entries[id], now) :: entries[id]
  }

  // ----------------------------------------------------------------- bytes

  function Saturating(n: nat): nat {
    if n <= USIZE_MAX then n else USIZE_MAX
  }

  /** The true sum of the entries' reserved bytes. */
  ghost function ByteSum(entries: Entries): nat {
    if entries == map[] then 0
    else
      var id :| id in entries;
      entries[id].bytes + ByteSum(entries - {id})
  }

  lemma {:induction false} ByteSumRemove(entries: Entries, id: Uuid)
    requires id in entries
    ensures ByteSum(entries) == entries[id].bytes + ByteSum(entries - {id})
    decreases |entries|
  {
    var k :| k in entries && ByteSum(entries) == entries[k].bytes + ByteSum(entries - {k});
    if k != id {
      ByteSumRemove(entries - {k}, id);
      ByteSumRemove(entries - {id}, k);
      assert entries - {k} - {id} == entries - {id} - {k};
    }
  }

  lemma ByteSumInsert(entries: Entries, id: Uuid, e: Entry)
    requires id !in entries
    ensures ByteSum(entries[id := e]) == e.bytes + ByteSum(entries)
  {
    ByteSumRemove(entries[id := e], id);
    assert entries[id := e] - {id} == entries;
  }

  lemma {:induction false} ByteSumMonotone(small: Entries, large: Entries)
    requires Within(small, large)
    ensures ByteSum(small) <= ByteSum(large)
    decreases |small|
  {
    if small != map[] {
      var id :| id in small;
      ByteSumRemove(small, id);
      ByteSumRemove(large, id);
      ByteSumMonotone(small - {id}, large - {id});
    }
  }

  // -------------------------------------------------------------- eviction

  predicate Oversized(config: Config, bytes: nat) {
    config.maxBytes > 0 && bytes > config.maxBytes
  }

  /** Room for one more entry of `bytes`, as the runtime computes it. */
  ghost predicate Fits(config: Config, entries: Entries, bytes: nat) {
    && |entries| < config.maxEntries
    && (config.maxBytes > 0 ==> Saturating(Saturating(ByteSum(entries)) + bytes) <= config.maxBytes)
  }

  ghost predicate Oldest(entries: Entries, id: Uuid) {
    id in entries && forall other | other in entries :: entries[id].lastUsed <= entries[other].lastUsed
  }

  /** Removing an oldest entry until a new one fits. */
  ghost predicate EvictsTo(config: Config, before: Entries, bytes: nat, after: Entries)
    decreases |before|
  {
    if Fits(config, before, bytes) then after == before
    else exists id :: Oldest(before, id) && EvictsTo(config, before - {id}, bytes, after)
  }

  /** Survivors are untouched, and no evicted entry was used later than any of them. */
  ghost predicate LruCut(before: Entries, after: Entries) {
    && Within(after, before)
    && (forall gone, kept | gone in before && gone !in after && kept in after :: before[gone].lastUsed <= after[kept].lastUsed)
  }

  lemma {:induction false} EvictionIsLru(config: Config, before: Entries, bytes: nat, after: Entries)
    requires EvictsTo(config, before, bytes, after)
    ensures Fits(config, after, bytes) && LruCut(before, after) && |after| <= |before|
    decreases |before|
  {
    hide Fits;
    if !Fits(config, before, bytes) {
      var id :| Oldest(before, id) && EvictsTo(config, before - {id}, bytes, after);
      EvictionIsLru(config, before - {id}, bytes, after);
      forall gone, kept | gone in before && gone !in after && kept in after
        ensures before[gone].lastUsed <= after[kept].lastUsed
      {
        assert kept in before - {id};
        assert gone == id || gone in before - {id};
      }
    }
  }

  /** No entry is evicted needlessly: with the last evicted one back, nothing fits. */
  lemma {:induction false} EvictionIsNeeded(config: Config, before: Entries, bytes: nat, after: Entries) returns (last: Uuid)
    requires EvictsTo(config, before, bytes, after) && after != before
    ensures last in before && last !in after && !Fits(config, after[last := before[last]], bytes)
    ensures forall gone | gone in before && gone !in after :: before[gone].lastUsed <= before[last].lastUsed
    decreases |before|
  {
    var id :| Oldest(before, id) && EvictsTo(config, before - {id}, bytes, after);
    if after == before - {id} {
      last := id;
      assert after[id := before[id]] == before;
    } else {
      last := EvictionIsNeeded(config, before - {id}, bytes, after);
      EvictionIsLru(config, before - {id}, bytes, after);
    }
  }

  // -------------------------------------------------------- one generate call

  datatype Call = Call(prompt: string, session: Option<Uuid>, settings: Settings, now: nat, faults: Faults)

  /** What the cache depends on besides its configuration. */
  datatype Host = Host(model: Model, capacity: nat, config: Config, bytes: nat)

  predicate Enabled(h: Host, c: Call) {
    c.session.Some? && h.config.maxEntries > 0
  }

  predicate Cacheable(h: Host, c: Call) {
    Enabled(h, c) && |h.model.tokenize(c.prompt)| >= h.config.minTokens
  }

  /** A call the cache ignores counts as a miss as soon as its prompt is tokenized. */
  function Bypassed(h: Host, s: State, c: Call): State {
    if c.faults(CancelAtEntry) || c.faults(TokenizePrompt) || h.model.tokenize(c.prompt) == [] || Cacheable(h, c) then s
    else s.(stats := CountMiss(s.stats))
  }

  /** What the lookup finds for a call: its entry leaves the cache either way. */
  datatype Lookup = Ignored | Missing | Mismatch | Hit(prefix: nat)

  function Find(h: Host, entries: Entries, c: Call): Lookup {
    if !Cacheable(h, c) then Ignored
    else if c.session.value !in entries then Missing
    else if entries[c.session.value].tokens <= h.model.tokenize(c.prompt) then Hit(|entries[c.session.value].tokens|)
    else Mismatch
  }

  function LookupIn(h: Host, s: State, c: Call): Lookup {
    Find(h, Fresh(h.config, s.entries, c.now), c)
  }

  /** The reused prefix; zero means a fresh context. */
  function Reused(l: Lookup): nat {
    if l.Hit? then l.prefix else 0
  }

  /** A lookup takes the session of the call out of the cache and counts. */
  function LookedUp(h: Host, live: State, c: Call): State {
    match Find(h, live.entries, c)
    case Ignored => live
    case Hit(_) => State(live.entries - {c.session.value}, CountHit(live.stats))
    case _ => State(live.entries - {c.session.value}, CountMiss(live.stats))
  }

  /** The cache without the entries that are idle now. */
  function Expired(h: Host, s: State, now: nat): State {
    var live := Fresh(h.config, s.entries, now);
    State(live, CountExpirations(s.stats, Gone(s.entries, live)))
  }

  /** The cache once the call holds its context: idle entries and its own are out. */
  function Taken(h: Host, s: State, c: Call): State {
    LookedUp(h, Expired(h, Bypassed(h, s, c), c.now), c)
  }

  predicate Publishes(h: Host, c: Call) {
    Cacheable(h, c) && !Oversized(h.config, h.bytes)
  }

  /** The outcome the caller sees, given what the cache held. */
  ghost function OutcomeOf(h: Host, s: State, c: Call): Outcome {
    Run(h.model, c.faults, h.capacity, c.prompt, c.settings, Reused(LookupIn(h, s, c)), Publishes(h, c))
  }

  /** Whether the whole generation went through, so that publication was reached. */
  ghost predicate Completes(h: Host, s: State, c: Call) {
    var prefix := Reused(LookupIn(h, s, c));
    && Rejection(h.model, c.faults, h.capacity, c.prompt).None?
    && Run(h.model, c.faults, h.capacity, c.prompt, c.settings, prefix, false).result.Ok?
  }

  /** A reused entry that was not published again counts as invalidated. */
  function Dropped(s: State, l: Lookup): State {
    if l.Hit? then s.(stats := CountInvalidation(s.stats)) else s
  }

  /** The effect of one generate call on the cache. */
  ghost predicate CallStep(h: Host, s: State, c: Call, s': State) {
    if Rejection(h.model, c.faults, h.capacity, c.prompt).Some? then s' == Bypassed(h, s, c)
    else
      var l := LookupIn(h, s, c);
      var taken := Taken(h, s, c);
      if !Completes(h, s, c) || !Publishes(h, c) then s' == Dropped(taken, l)
      else exists kept :: Publication(h, taken, c, l, kept, s')
  }

  ghost predicate Publication(h: Host, taken: State, c: Call, l: Lookup, kept: Entries, s': State)
    requires c.session.Some?
  {
    && EvictsTo(h.config, taken.entries, h.bytes, kept)
    && var evicted := State(kept, CountEvictions(taken.stats, Gone(taken.entries, kept)));
       if PublishFailure(c.faults).Some? then s' == Dropped(evicted, l)
       else s' == evicted.(entries := kept[c.session.value := Entry(h.model.tokenize(c.prompt), h.bytes, c.now)])
  }

  /** A tool-call reply that cannot be parsed invalidates its session. */
  function Invalidate(s: State, session: Option<Uuid>): State {
    if session.Some? && session.value in s.entries
    then State(s.entries - {session.value}, CountInvalidation(s.stats))
    else s
  }

  // -------------------------------------------------------------- invariant

  ghost predicate Bounded(h: Host, entries: Entries) {
    && |entries| <= h.config.maxEntries
    && (entries != map[] ==> !Oversized(h.config, h.bytes))
    && (0 < h.config.maxBytes < USIZE_MAX ==> ByteSum(entries) <= h.config.maxBytes)
    && forall id | id in entries ::
         && 0 < |entries[id].tokens| < h.capacity
         && |entries[id].tokens| >= h.config.minTokens
         && entries[id].bytes == h.bytes
  }

  lemma FewerEntriesBounded(h: Host, large: Entries, small: Entries)
    requires Bounded(h, large) && Within(small, large)
    ensures Bounded(h, small)
  {
    ByteSumMonotone(small, large);
    assert small.Keys <= large.Keys;
    KeysCardinality(small.Keys, large.Keys);
    assert |small.Keys| == |small| && |large.Keys| == |large|;
  }

  lemma {:induction false} KeysCardinality<T>(a: set<T>, b: set<T>)
    requires a <= b
    ensures |a| <= |b|
  {
    if a != {} {
      var x :| x in a;
      KeysCardinality(a - {x}, b - {x});
    }
  }

  lemma TakenShrinks(h: Host, s: State, c: Call)
    ensures Within(Taken(h, s, c).entries, s.entries)
    ensures Cacheable(h, c) ==> c.session.value !in Taken(h, s, c).entries
  {
  }

  lemma InsertionBounded(h: Host, entries: Entries, id: Uuid, e: Entry)
    requires Bounded(h, entries) && Fits(h.config, entries, h.bytes) && id !in entries && !Oversized(h.config, h.bytes)
    requires 0 < |e.tokens| < h.capacity && |e.tokens| >= h.config.minTokens && e.bytes == h.bytes
    ensures Bounded(h, entries[id := e])
  {
    ByteSumInsert(entries, id, e);
  }

  lemma PublicationKeepsBounds(h: Host, taken: State, c: Call, l: Lookup, kept: Entries, s': State)
    requires Bounded(h, taken.entries) && Publishes(h, c) && c.session.value !in taken.entries
    requires Rejection(h.model, c.faults, h.capacity, c.prompt).None? && Publication(h, taken, c, l, kept, s')
    ensures Bounded(h, s'.entries)
  {
    hide Bounded, Fits, PublishFailure, EvictsTo;
    EvictionIsLru(h.config, taken.entries, h.bytes, kept);
    FewerEntriesBounded(h, taken.entries, kept);
    if PublishFailure(c.faults).None? {
      InsertionBounded(h, kept, c.session.value, Entry(h.model.tokenize(c.prompt), h.bytes, c.now));
    } else {
      assert s'.entries == kept;
    }
  }

  /** The cache stays within its entry and byte limits. */
  lemma CallKeepsBounds(h: Host, s: State, c: Call, s': State)
    requires Bounded(h, s.entries) && CallStep(h, s, c, s')
    ensures Bounded(h, s'.entries)
  {
    hide Completes, PublishFailure, LookupIn, Bounded, Fits, EvictsTo, Taken, Publication;
    if Rejection(h.model, c.faults, h.capacity, c.prompt).None? {
      TakenShrinks(h, s, c);
      var taken := Taken(h, s, c);
      FewerEntriesBounded(h, s.entries, taken.entries);
      if Completes(h, s, c) && Publishes(h, c) {
        var kept :| Publication(h, taken, c, LookupIn(h, s, c), kept, s');
        PublicationKeepsBounds(h, taken, c, LookupIn(h, s, c), kept, s');
      } else {
        assert s'.entries == taken.entries;
      }
    }
  }

  /** The byte-overflow return never follows a hit. */
  lemma OverflowIsNeverAHit(h: Host, s: State, c: Call)
    requires Bounded(h, s.entries) && LookupIn(h, s, c).Hit?
    ensures Publishes(h, c) && Reused(LookupIn(h, s, c)) > 0
  {
    assert s.entries != map[];
  }

  // -------------------------------------------- transactional publication

  /** A failed call leaves its session out of the cache once it got as far as the
      lookup, leaves the others as they were, bar expiry and eviction, and counts an
      invalidation exactly when it was reusing a prefix; a call rejected earlier
      keeps everything. */
  lemma FailureIsTransactional(h: Host, s: State, c: Call, s': State)
    requires Bounded(h, s.entries) && CallStep(h, s, c, s') && OutcomeOf(h, s, c).result.Err?
    ensures Rejection(h.model, c.faults, h.capacity, c.prompt).Some? ==> s'.entries == s.entries
    ensures Rejection(h.model, c.faults, h.capacity, c.prompt).None? && Cacheable(h, c) ==> c.session.value !in s'.entries
    ensures Within(s'.entries, s.entries)
    ensures s.stats.Some? ==>
              s'.stats.Some? &&
              s'.stats.value.invalidations == s.stats.value.invalidations +
              (if Rejection(h.model, c.faults, h.capacity, c.prompt).None? && LookupIn(h, s, c).Hit? then 1 else 0)
  {
    if Rejection(h.model, c.faults, h.capacity, c.prompt).None? {
      TakenShrinks(h, s, c);
      var taken := Taken(h, s, c);
      if Completes(h, s, c) && Publishes(h, c) {
        var kept :| Publication(h, taken, c, LookupIn(h, s, c), kept, s');
        EvictionIsLru(h.config, taken.entries, h.bytes, kept);
        FailureReachedPublication(h, s, c);
      }
    }
  }

  /** Exactly which failed calls discard the entry of their session: all but the ones
      rejected before the lookup (already cancelled, not tokenizable, empty or too
      long for the context) and the ones whose prompt is too short to cache. */
  lemma FailedCallDiscards(h: Host, s: State, c: Call, s': State)
    requires CallStep(h, s, c, s') && OutcomeOf(h, s, c).result.Err?
    requires c.session.Some? && c.session.value in s.entries
    ensures c.session.value in s'.entries <==>
              || Rejection(h.model, c.faults, h.capacity, c.prompt).Some?
              || (!Cacheable(h, c) && !Idle(h.config, s.entries[c.session.value], c.now))
  {
    if Rejection(h.model, c.faults, h.capacity, c.prompt).None? && Cacheable(h, c) {
      TakenShrinks(h, s, c);
      if Completes(h, s, c) && Publishes(h, c) {
        var taken := Taken(h, s, c);
        var kept :| Publication(h, taken, c, LookupIn(h, s, c), kept, s');
        EvictionIsLru(h.config, taken.entries, h.bytes, kept);
        FailureReachedPublication(h, s, c);
      }
    }
  }

  lemma FailureReachedPublication(h: Host, s: State, c: Call)
    requires Completes(h, s, c) && Publishes(h, c)
    ensures OutcomeOf(h, s, c).result.Ok? <==> PublishFailure(c.faults).None?
  {
  }

  /** A call takes another session's entry away only because it is idle, or to make room
      for its own checkpoint, and then no later used entry than any it leaves. */
  lemma OthersLeaveOnly(h: Host, s: State, c: Call, s': State, id: Uuid)
    requires CallStep(h, s, c, s') && id in s.entries && id !in s'.entries && c.session != Some(id)
    ensures Rejection(h.model, c.faults, h.capacity, c.prompt).None?
    ensures || Idle(h.config, s.entries[id], c.now)
            || (Completes(h, s, c) && Publishes(h, c) &&
                forall kept | kept in s'.entries && c.session != Some(kept) :: s.entries[id].lastUsed <= s'.entries[kept].lastUsed)
  {
    hide Rejection;
    var taken := Taken(h, s, c);
    if !Idle(h.config, s.entries[id], c.now) {
      hide Completes, PublishFailure;
      assert id in taken.entries && taken.entries[id] == s.entries[id];
      var kept :| Publication(h, taken, c, LookupIn(h, s, c), kept, s');
      EvictionIsLru(h.config, taken.entries, h.bytes, kept);
    }
  }

  /** Successful cacheable calls that fit leave exactly their prompt behind. */
  lemma SuccessPublishes(h: Host, s: State, c: Call, s': State)
    requires Bounded(h, s.entries) && CallStep(h, s, c, s') && OutcomeOf(h, s, c).result.Ok? && Publishes(h, c)
    ensures c.session.value in s'.entries
    ensures s'.entries[c.session.value] == Entry(h.model.tokenize(c.prompt), h.bytes, c.now)
  {
    assert Completes(h, s, c);
    FailureReachedPublication(h, s, c);
  }
}
