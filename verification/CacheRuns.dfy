/** Whole runs of the session cache: any sequence of calls and invalidations. */
module CacheRuns {
  import opened Wrappers
  import opened Llama
  import opened Generation
  import opened SessionCache

  datatype Event = Generate(call: Call) | ParseFailed(session: Option<Uuid>)

  ghost predicate EventStep(h: Host, s: State, e: Event, s': State) {
    match e
    case Generate(c) => CallStep(h, s, c, s')
    case ParseFailed(session) => s' == Invalidate(s, session)
  }

  /** `states[i]` is the cache before `events[i]`. */
  ghost predicate IsRun(h: Host, states: seq<State>, events: seq<Event>) {
    && |states| == |events| + 1
    && states[0] == State(map[], Some(Counters(0, 0, 0, 0, 0)))
    && forall i | 0 <= i < |events| :: EventStep(h, states[i], events[i], states[i + 1])
  }

  lemma Extended(h: Host, states: seq<State>, events: seq<Event>, e: Event, s': State)
    requires IsRun(h, states, events) && EventStep(h, states[|events|], e, s')
    ensures IsRun(h, states + [s'], events + [e])
  {
    hide EventStep;
    var more, all := states + [s'], events + [e];
    forall i | 0 <= i < |all| ensures EventStep(h, more[i], all[i], more[i + 1]) {
      if i < |events| { assert more[i] == states[i] && more[i + 1] == states[i + 1] && all[i] == events[i]; }
    }
  }

  // --------------------------------------------------- invariant over runs

  lemma RunStarts(h: Host, states: seq<State>, events: seq<Event>)
    requires IsRun(h, states, events)
    ensures |states| == |events| + 1 && states[0].entries == map[] && states[0].stats == Some(Counters(0, 0, 0, 0, 0))
    ensures Bounded(h, states[0].entries)
  {
  }

  lemma RunSteps(h: Host, states: seq<State>, events: seq<Event>, i: nat)
    requires IsRun(h, states, events) && i < |events|
    ensures |states| == |events| + 1 && EventStep(h, states[i], events[i], states[i + 1])
  {
    hide EventStep;
  }

  lemma {:induction false} RunsStayBounded(h: Host, states: seq<State>, events: seq<Event>, i: nat)
    requires IsRun(h, states, events) && i <= |events|
    ensures |states| == |events| + 1 && Bounded(h, states[i].entries) && states[i].stats.Some?
  {
    hide IsRun, EventStep, Bounded;
    RunStarts(h, states, events);
    if i > 0 {
      RunsStayBounded(h, states, events, i - 1);
      RunSteps(h, states, events, i - 1);
      EventKeepsBounds(h, states[i - 1], events[i - 1], states[i]);
    }
  }

  lemma EventKeepsBounds(h: Host, s: State, e: Event, s': State)
    requires Bounded(h, s.entries) && s.stats.Some? && EventStep(h, s, e, s')
    ensures Bounded(h, s'.entries) && s'.stats.Some?
  {
    hide Bounded, EvictsTo, Completes, Taken;
    match e
    case Generate(c) =>
      CallKeepsBounds(h, s, c, s');
      StatsStay(h, s, c);
    case ParseFailed(session) =>
      FewerEntriesBounded(h, s.entries, s'.entries);
  }

  lemma StatsStay(h: Host, s: State, c: Call)
    ensures s.stats.Some? ==> Taken(h, s, c).stats.Some?
  {
  }

  // --------------------------------------------------------- transparency

  /** Whatever the cache holds, hence in every state of every run, a call that succeeds
      with its session delivers what it delivers without one, and conversely, unless a
      step fails that only the other way takes. An outcome is told without cells; that
      the cells bear it out is the contract of `GgufModel.Generate`. */
  lemma CallsAreTransparent(h: Host, s: State, c: Call)
    ensures var cached := OutcomeOf(h, s, c);
            var plain := Plain(h.model, c.faults, h.capacity, c.prompt, c.settings);
            && (cached.result.Ok? && FreshContextWorks(c.faults, ReplayStart(Reused(LookupIn(h, s, c)))) ==> cached == plain)
            && (plain.result.Ok? && CacheStepsWork(c.faults) ==> cached == plain)
  {
    CacheIsInvisible(h.model, c.faults, h.capacity, c.prompt, c.settings, Reused(LookupIn(h, s, c)), Publishes(h, c));
  }

  // ---------------------------------------------------------- conservation

  predicate Reached(h: Host, c: Call) {
    Rejection(h.model, c.faults, h.capacity, c.prompt).None?
  }

  predicate Tokenizes(h: Host, c: Call) {
    !c.faults(CancelAtEntry) && !c.faults(TokenizePrompt) && h.model.tokenize(c.prompt) != []
  }

  /** The call put its prompt into the cache. */
  ghost predicate DidPublish(h: Host, s: State, c: Call) {
    Publishes(h, c) && OutcomeOf(h, s, c).result.Ok?
  }

  /** What the counters do not show of one event. */
  datatype Tally = Tally(publications: nat, mismatches: nat, lost: nat, parseDrops: nat, looks: nat)

  function One(b: bool): nat { if b then 1 else 0 }

  ghost function TallyOf(h: Host, s: State, e: Event): Tally {
    match e
    case Generate(c) =>
      var reached := Reached(h, c);
      var l := LookupIn(h, s, c);
      Tally(One(DidPublish(h, s, c)), One(reached && l.Mismatch?), One(reached && l.Hit? && !DidPublish(h, s, c)), 0,
            One(reached || (!Cacheable(h, c) && Tokenizes(h, c))))
    case ParseFailed(session) => Tally(0, 0, 0, One(session.Some? && session.value in s.entries), 0)
  }

  function Add(a: Tally, b: Tally): Tally {
    Tally(a.publications + b.publications, a.mismatches + b.mismatches, a.lost + b.lost, a.parseDrops + b.parseDrops, a.looks + b.looks)
  }

  ghost function Total(h: Host, states: seq<State>, events: seq<Event>, n: nat): Tally
    requires n <= |events| <= |states|
  {
    if n == 0 then Tally(0, 0, 0, 0, 0)
    else Add(Total(h, states, events, n - 1), TallyOf(h, states[n - 1], events[n - 1]))
  }

  /** Entries in, entries out, and the two ways a look at the cache can count. */
  predicate Balanced(before: State, t: Tally, after: State) {
    before.stats.Some? && after.stats.Some? &&
    var b, a := before.stats.value, after.stats.value;
    && |after.entries| + a.hits + t.mismatches + a.evictions + a.expirations + t.parseDrops
       == |before.entries| + t.publications + b.hits + b.evictions + b.expirations
    && a.invalidations == b.invalidations + t.parseDrops + t.lost
    && a.hits + a.misses == b.hits + b.misses + t.looks
  }

  lemma SubmapSize(small: Entries, large: Entries)
    requires Within(small, large)
    ensures |small| <= |large|
  {
    assert small.Keys <= large.Keys;
    KeysCardinality(small.Keys, large.Keys);
    assert |small.Keys| == |small| && |large.Keys| == |large|;
  }

  lemma RemovalSize(entries: Entries, id: Uuid)
    ensures |entries - {id}| == |entries| - One(id in entries)
  {
    assert (entries - {id}).Keys == entries.Keys - {id};
    assert |(entries - {id}).Keys| == |entries - {id}| && |entries.Keys| == |entries|;
  }

  lemma InsertionSize(entries: Entries, id: Uuid, e: Entry)
    requires id !in entries
    ensures |entries[id := e]| == |entries| + 1
  {
    assert entries[id := e].Keys == entries.Keys + {id};
    assert |entries[id := e].Keys| == |entries[id := e]| && |entries.Keys| == |entries|;
  }

  lemma ExpiryBalance(h: Host, s: State, now: nat)
    requires s.stats.Some?
    ensures Balanced(s, Tally(0, 0, 0, 0, 0), Expired(h, s, now))
  {
    SubmapSize(Fresh(h.config, s.entries, now), s.entries);
  }

  lemma LookupBalance(h: Host, live: State, c: Call)
    requires live.stats.Some?
    ensures var l := Find(h, live.entries, c);
            Balanced(live, Tally(0, One(l.Mismatch?), 0, 0, One(Cacheable(h, c))), LookedUp(h, live, c))
  {
    hide Balanced, CountHit, CountMiss;
    if Cacheable(h, c) {
      HitBalance(live, c.session.value);
      MissBalance(live, c.session.value);
    } else {
      NothingBalance(live);
    }
  }

  lemma HitBalance(live: State, id: Uuid)
    requires live.stats.Some?
    ensures id in live.entries ==> Balanced(live, Tally(0, 0, 0, 0, 1), State(live.entries - {id}, CountHit(live.stats)))
  {
    RemovalSize(live.entries, id);
  }

  lemma MissBalance(live: State, id: Uuid)
    requires live.stats.Some?
    ensures Balanced(live, Tally(0, One(id in live.entries), 0, 0, 1), State(live.entries - {id}, CountMiss(live.stats)))
  {
    RemovalSize(live.entries, id);
  }

  lemma NothingBalance(live: State)
    requires live.stats.Some?
    ensures Balanced(live, Tally(0, 0, 0, 0, 0), live)
  {
  }

  /** Expiry and lookup of a call that reached them. */
  lemma TakenBalance(h: Host, s: State, c: Call)
    requires s.stats.Some? && Reached(h, c)
    ensures var l := LookupIn(h, s, c);
            Balanced(s, Tally(0, One(l.Mismatch?), 0, 0, 1), Taken(h, s, c))
  {
    hide Balanced, Bypassed, Expired, LookedUp, Cacheable, Fresh, Find, Rejection;
    var passed := Bypassed(h, s, c);
    var live := Expired(h, passed, c.now);
    BypassBalance(h, s, c);
    ExpiryBalance(h, passed, c.now);
    LookupBalance(h, live, c);
    LiveEntries(h, s, c);
    ThreeSteps(s, passed, live, Taken(h, s, c), Cacheable(h, c), LookupIn(h, s, c).Mismatch?);
  }

  lemma ThreeSteps(s: State, passed: State, live: State, taken: State, cacheable: bool, mismatch: bool)
    requires Balanced(s, Tally(0, 0, 0, 0, One(!cacheable)), passed)
    requires Balanced(passed, Tally(0, 0, 0, 0, 0), live)
    requires Balanced(live, Tally(0, One(mismatch), 0, 0, One(cacheable)), taken)
    ensures Balanced(s, Tally(0, One(mismatch), 0, 0, 1), taken)
  {
  }

  lemma LiveEntries(h: Host, s: State, c: Call)
    ensures Expired(h, Bypassed(h, s, c), c.now).entries == Fresh(h.config, s.entries, c.now)
    ensures s.stats.Some? ==> Expired(h, Bypassed(h, s, c), c.now).stats.Some? && Bypassed(h, s, c).stats.Some?
  {
  }

  lemma BypassBalance(h: Host, s: State, c: Call)
    requires s.stats.Some? && Reached(h, c)
    ensures Balanced(s, Tally(0, 0, 0, 0, One(!Cacheable(h, c))), Bypassed(h, s, c))
  {
  }

  lemma DroppedBalance(s: State, t: Tally, taken: State, l: Lookup)
    requires Balanced(s, t, taken)
    ensures Balanced(s, t.(lost := t.lost + One(l.Hit?)), Dropped(taken, l))
  {
  }

  lemma PublicationBalance(h: Host, s: State, t: Tally, taken: State, c: Call, l: Lookup, kept: Entries, s': State)
    requires Balanced(s, t, taken) && t.lost == 0 && t.publications == 0
    requires c.session.Some? && c.session.value !in taken.entries
    requires Publication(h, taken, c, l, kept, s')
    ensures var ok := PublishFailure(c.faults).None?;
            Balanced(s, t.(publications := One(ok), lost := One(l.Hit? && !ok)), s')
  {
    hide EvictsTo, PublishFailure;
    EvictionIsLru(h.config, taken.entries, h.bytes, kept);
    assert c.session.value !in kept;
    InsertionSize(kept, c.session.value, Entry(h.model.tokenize(c.prompt), h.bytes, c.now));
  }

  lemma EventBalance(h: Host, s: State, e: Event, s': State)
    requires s.stats.Some? && EventStep(h, s, e, s')
    ensures Balanced(s, TallyOf(h, s, e), s')
  {
    match e
    case ParseFailed(session) =>
      if session.Some? { RemovalSize(s.entries, session.value); }
    case Generate(c) => CallBalance(h, s, c, s');
  }

  lemma CallBalance(h: Host, s: State, c: Call, s': State)
    requires s.stats.Some? && CallStep(h, s, c, s')
    ensures Balanced(s, TallyOf(h, s, Generate(c)), s')
  {
    hide Taken, Publication, LookupIn, Dropped, PublishFailure;
    if Reached(h, c) {
      var taken, l := Taken(h, s, c), LookupIn(h, s, c);
      var t := Tally(0, One(l.Mismatch?), 0, 0, 1);
      hide Balanced;
      TakenBalance(h, s, c);
      if Completes(h, s, c) && Publishes(h, c) {
        var kept :| Publication(h, taken, c, l, kept, s');
        TakenShrinks(h, s, c);
        PublicationBalance(h, s, t, taken, c, l, kept, s');
        FailureReachedPublication(h, s, c);
      } else {
        DroppedBalance(s, t, taken, l);
        Unpublished(h, s, c);
      }
    }
  }

  lemma Unpublished(h: Host, s: State, c: Call)
    requires Reached(h, c) && !(Completes(h, s, c) && Publishes(h, c))
    ensures !DidPublish(h, s, c)
  {
  }

  lemma {:induction false} RunBalance(h: Host, states: seq<State>, events: seq<Event>, n: nat)
    requires IsRun(h, states, events) && n <= |events|
    ensures |states| == |events| + 1 && Balanced(states[0], Total(h, states, events, n), states[n])
  {
    hide IsRun, EventStep, TallyOf;
    RunStarts(h, states, events);
    if n > 0 {
      RunBalance(h, states, events, n - 1);
      RunSteps(h, states, events, n - 1);
      EventBalance(h, states[n - 1], events[n - 1], states[n]);
      BalanceAdds(states[0], Total(h, states, events, n - 1), states[n - 1], TallyOf(h, states[n - 1], events[n - 1]), states[n]);
    }
  }

  lemma BalanceAdds(a: State, t: Tally, b: State, u: Tally, c: State)
    requires Balanced(a, t, b) && Balanced(b, u, c)
    ensures Balanced(a, Add(t, u), c)
  {
  }

  /** At any point of any run: the entries there are the ones published, less those
      hit, mismatched, evicted, expired or dropped for a malformed tool call. The
      invalidation counter shows the last kind and the hits not published again; hits
      and misses together count the calls that looked at the cache or passed it by. */
  lemma EntriesAreConserved(h: Host, states: seq<State>, events: seq<Event>, n: nat)
    requires IsRun(h, states, events) && n <= |events|
    ensures |states| == |events| + 1 && states[n].stats.Some?
    ensures var t, k := Total(h, states, events, n), states[n].stats.value;
            && |states[n].entries| == t.publications - k.hits - t.mismatches - k.evictions - k.expirations - t.parseDrops
            && k.invalidations == t.parseDrops + t.lost
            && k.hits + k.misses == t.looks
  {
    hide IsRun, Total;
    RunStarts(h, states, events);
    RunBalance(h, states, events, n);
  }

  // -------------------------------- an entry that failing calls do not discard

  /** A session is published, and neither an over-long prompt nor a call that is already
      cancelled discards it. */
  lemma FailuresThatKeep(token: Token, id: Uuid, cell: Cell, logits: Logits, sampler: Sampler, decoder: Decoder)
    returns (h: Host, states: seq<State>, events: seq<Event>)
    ensures IsRun(h, states, events) && |events| == 3 && forall i | 0 <= i < 3 :: events[i].Generate? && events[i].call.session == Some(id)
    ensures OutcomeOf(h, states[0], events[0].call).result.Ok?
    ensures OutcomeOf(h, states[1], events[1].call).result == Err(PromptTooLong(2, 2))
    ensures OutcomeOf(h, states[2], events[2].call).result == Err(Failed(CancelAtEntry))
    ensures states[1].entries == states[3].entries == map[id := Entry([token], 1, 0)]
  {
    var m := Model((cells, n, t) => cell, cells => logits, s => seq(|s|, _ => token), t => true, kind => sampler, (s, t) => sampler,
                   (s, l) => (token, sampler), decoder, (d, t) => ("", decoder), 1, 1, 1, 1);
    h := Host(m, 2, Config(1, 1, 0, 0), 1);
    assert m.tokenize("a") == [token] && |m.tokenize("aa")| == 2;
    states, events := KeptThroughout(h, token, id);
  }

  lemma KeptThroughout(h: Host, token: Token, id: Uuid) returns (states: seq<State>, events: seq<Event>)
    requires h.capacity == 2 && h.config == Config(1, 1, 0, 0) && h.bytes == 1
    requires h.model.tokenize("a") == [token] && |h.model.tokenize("aa")| == 2
    ensures IsRun(h, states, events) && |events| == 3 && forall i | 0 <= i < 3 :: events[i].Generate? && events[i].call.session == Some(id)
    ensures OutcomeOf(h, states[0], events[0].call).result.Ok?
    ensures OutcomeOf(h, states[1], events[1].call).result == Err(PromptTooLong(2, 2))
    ensures OutcomeOf(h, states[2], events[2].call).result == Err(Failed(CancelAtEntry))
    ensures states[1].entries == states[3].entries == map[id := Entry([token], 1, 0)]
  {
    var settings := Settings(0, None);
    var works: Faults, cancelled: Faults := (step: Step) => false, (step: Step) => step.CancelAtEntry?;
    var publish := Call("a", Some(id), settings, 0, works);
    var long := Call("aa", Some(id), settings, 0, works);
    var late := Call("a", Some(id), settings, 0, cancelled);
    var empty := State(map[], Some(Counters(0, 0, 0, 0, 0)));
    var kept := State(map[id := Entry([token], 1, 0)], Some(Counters(0, 1, 0, 0, 0)));
    states, events := [empty, kept, kept, kept], [Event.Generate(publish), Event.Generate(long), Event.Generate(late)];
    FirstPublication(h, empty, publish, id, token, kept);
    RejectedStays(h, kept, long);
    RejectedStays(h, kept, late);
    hide CallStep, OutcomeOf;
    assert IsRun(h, [empty], []);
    Extended(h, [empty], [], events[0], kept);
    Extended(h, [empty] + [kept], [] + [events[0]], events[1], kept);
    Extended(h, [empty] + [kept] + [kept], [] + [events[0]] + [events[1]], events[2], kept);
    assert states == [empty] + [kept] + [kept] + [kept] && events == [] + [events[0]] + [events[1]] + [events[2]];
  }

  /** A call rejected before the lookup changes nothing, if the cache would have been asked. */
  lemma RejectedStays(h: Host, s: State, c: Call)
    requires Rejection(h.model, c.faults, h.capacity, c.prompt).Some?
    requires Cacheable(h, c) || c.faults(CancelAtEntry)
    ensures CallStep(h, s, c, s)
    ensures OutcomeOf(h, s, c).result == Err(Rejection(h.model, c.faults, h.capacity, c.prompt).value)
  {
  }

  lemma FirstPublication(h: Host, empty: State, c: Call, id: Uuid, token: Token, kept: State)
    requires h.capacity == 2 && h.config == Config(1, 1, 0, 0) && h.bytes == 1 && h.model.tokenize(c.prompt) == [token]
    requires c.session == Some(id) && c.settings.maxTokens == 0 && c.now == 0 && forall step :: !c.faults(step)
    requires empty == State(map[], Some(Counters(0, 0, 0, 0, 0)))
    requires kept == State(map[id := Entry([token], 1, 0)], Some(Counters(0, 1, 0, 0, 0)))
    ensures OutcomeOf(h, empty, c).result.Ok? && CallStep(h, empty, c, kept)
  {
    assert QueueFailure(c.faults, 0, 1) == None by { assert QueueFailure(c.faults, 1, 1) == None; }
    assert Fresh(h.config, empty.entries, 0) == map[];
    assert empty.entries - {id} == map[];
    assert Taken(h, empty, c) == State(map[], Some(Counters(0, 1, 0, 0, 0)));
    assert EvictsTo(h.config, map[], 1, map[]);
    assert Publication(h, Taken(h, empty, c), c, LookupIn(h, empty, c), map[], kept);
  }
}
