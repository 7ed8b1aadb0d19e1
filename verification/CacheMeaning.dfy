/** The rules of the session cache in plain terms of its configuration and of a call. */
module CacheMeaning {
  import opened Wrappers
  import opened Clock
  import opened Llama
  import opened Generation
  import opened SessionCache
  import opened CacheRuns

  /** The call may use the cache: it has a session, entries may be kept, and its prompt is
      long enough. */
  predicate Asks(h: Host, c: Call) {
    c.session.Some? && h.config.maxEntries > 0 && |h.model.tokenize(c.prompt)| >= h.config.minTokens
  }

  /** The entry has been unused for longer than the limit in milliseconds, if there is one. */
  predicate Stale(h: Host, e: Entry, now: nat) {
    h.config.idleTtlMs > 0 && now > e.lastUsed + h.config.idleTtlMs * 1_000_000
  }

  /** The call reaches the lookup. */
  predicate Looks(h: Host, c: Call) {
    !c.faults(CancelAtEntry) && !c.faults(TokenizePrompt) && 0 < |h.model.tokenize(c.prompt)| < h.capacity
  }

  /** The session of the call has an entry that is not stale. */
  predicate Kept(h: Host, s: State, c: Call) {
    Asks(h, c) && c.session.value in s.entries && !Stale(h, s.entries[c.session.value], c.now)
  }

  /** A hit is an entry whose tokens begin the prompt, and reuses all of them. */
  lemma LookupExact(h: Host, s: State, c: Call)
    ensures var l := LookupIn(h, s, c);
            && (l.Ignored? <==> !Asks(h, c))
            && (l.Missing? <==> Asks(h, c) && !Kept(h, s, c))
            && (l.Hit? <==> Kept(h, s, c) && s.entries[c.session.value].tokens <= h.model.tokenize(c.prompt))
            && (l.Hit? ==> l.prefix == |s.entries[c.session.value].tokens|)
  {
  }

  /** A checkpoint is published exactly by a successful call that may use the cache and
      whose entry alone is within the byte limit. */
  lemma PublishesExact(h: Host, c: Call)
    ensures Publishes(h, c) <==> Asks(h, c) && (h.config.maxBytes == 0 || h.bytes <= h.config.maxBytes)
  {
  }

  /** There is room if one more entry fits both limits. */
  lemma FitsExact(h: Host, entries: Entries)
    requires 0 < h.config.maxBytes < USIZE_MAX
    ensures Fits(h.config, entries, h.bytes) <==> |entries| < h.config.maxEntries && ByteSum(entries) + h.bytes <= h.config.maxBytes
  {
  }

  // ---------------------------------------------------- what a call leaves

  /** A call that reaches the lookup leaves no stale entry, and takes another session's
      entry only if it is stale, or for its own checkpoint, and then one that is no more
      recent than any it leaves. */
  lemma OthersAfterCall(h: Host, s: State, c: Call, s': State, id: Uuid)
    requires CallStep(h, s, c, s') && id in s.entries && c.session != Some(id)
    ensures id in s'.entries ==> s'.entries[id] == s.entries[id] && (Looks(h, c) ==> !Stale(h, s.entries[id], c.now))
    ensures id !in s'.entries ==>
              && Looks(h, c)
              && (Stale(h, s.entries[id], c.now) ||
                  (Asks(h, c) && Completes(h, s, c) &&
                   forall kept | kept in s'.entries && c.session != Some(kept) :: s.entries[id].lastUsed <= s'.entries[kept].lastUsed))
  {
    hide Completes, EvictsTo;
    if Rejection(h.model, c.faults, h.capacity, c.prompt).None? {
      var taken := Taken(h, s, c);
      assert id in taken.entries <==> !Stale(h, s.entries[id], c.now);
      if Completes(h, s, c) && Publishes(h, c) {
        var kept :| Publication(h, taken, c, LookupIn(h, s, c), kept, s');
        EvictionIsLru(h.config, taken.entries, h.bytes, kept);
      }
    }
    if id !in s'.entries { OthersLeaveOnly(h, s, c, s', id); }
  }

  function StaleIds(h: Host, s: State, now: nat): set<Uuid> {
    set id | id in s.entries && Stale(h, s.entries[id], now)
  }

  /** The counters of a call: a hit, a miss or neither; one expiration for each stale
      entry; and an invalidation for a reused entry that does not come back. */
  lemma CountersExact(h: Host, s: State, c: Call, s': State)
    requires CallStep(h, s, c, s') && s.stats.Some?
    ensures s'.stats.Some?
    ensures var b, a := s.stats.value, s'.stats.value;
            var hit := Looks(h, c) && Kept(h, s, c) && s.entries[c.session.value].tokens <= h.model.tokenize(c.prompt);
            var tokenized := !c.faults(CancelAtEntry) && !c.faults(TokenizePrompt) && h.model.tokenize(c.prompt) != [];
            && a.hits == b.hits + One(hit)
            && a.misses == b.misses + One(tokenized && !hit && (Looks(h, c) || !Asks(h, c)))
            && a.expirations == b.expirations + (if Looks(h, c) then |StaleIds(h, s, c.now)| else 0)
            && a.invalidations == b.invalidations + One(hit && !(Asks(h, c) && c.session.value in s'.entries))
            && a.evictions >= b.evictions
  {
    LookupExact(h, s, c);
    if Looks(h, c) {
      TakenCounts(h, s, c);
      FinishCounts(h, s, c, s');
    } else {
      hide Completes, LookupIn, Taken;
      assert s' == Bypassed(h, s, c);
    }
  }

  /** What comes after the lookup moves the last two counters only. */
  lemma FinishCounts(h: Host, s: State, c: Call, s': State)
    requires CallStep(h, s, c, s') && s.stats.Some? && Looks(h, c) && Taken(h, s, c).stats.Some?
    ensures s'.stats.Some?
    ensures var b, a := Taken(h, s, c).stats.value, s'.stats.value;
            && a.hits == b.hits && a.misses == b.misses && a.expirations == b.expirations && a.evictions >= b.evictions
            && a.invalidations == b.invalidations + One(LookupIn(h, s, c).Hit? && !(Asks(h, c) && c.session.value in s'.entries))
  {
    hide EvictsTo, Completes, PublishFailure, Taken, LookupIn;
    TakenShrinks(h, s, c);
    HitAsks(h, s, c);
    var taken := Taken(h, s, c);
    if Completes(h, s, c) && Publishes(h, c) {
      var kept :| Publication(h, taken, c, LookupIn(h, s, c), kept, s');
      EvictionIsLru(h.config, taken.entries, h.bytes, kept);
    }
  }

  lemma HitAsks(h: Host, s: State, c: Call)
    ensures LookupIn(h, s, c).Hit? ==> Asks(h, c) && Cacheable(h, c)
  {
  }

  lemma TakenCounts(h: Host, s: State, c: Call)
    requires s.stats.Some? && Looks(h, c)
    ensures var l := LookupIn(h, s, c);
            Taken(h, s, c).stats == Some(s.stats.value.(
              hits := s.stats.value.hits + One(l.Hit?),
              misses := s.stats.value.misses + One(!l.Hit?),
              expirations := s.stats.value.expirations + |StaleIds(h, s, c.now)|))
  {
    StaleGone(h, s, c.now);
    var l := LookupIn(h, s, c);
    assert l.Ignored? <==> !Cacheable(h, c);
    hide Cacheable, Fresh, Gone, Stale, Asks;
  }

  lemma StaleGone(h: Host, s: State, now: nat)
    ensures Gone(s.entries, Fresh(h.config, s.entries, now)) == |StaleIds(h, s, now)|
  {
    var live := Fresh(h.config, s.entries, now);
    assert live.Keys == s.entries.Keys - StaleIds(h, s, now);
    assert |live.Keys| == |s.entries.Keys| - |StaleIds(h, s, now)|;
    assert |live.Keys| == |live| && |s.entries.Keys| == |s.entries|;
  }
}
