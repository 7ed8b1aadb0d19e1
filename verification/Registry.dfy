/**
 The coordinator's registry: what it knows of its workers, and which worker each
 session was last sent to.
 */
module Registry {
  import opened Wrappers
  import opened Clock
  import opened Scheduler

  type Session(==,0,!new)

  const AFFINITY_TTL: nat := 15 * 60 * 1000 * NANOS_PER_MILLI

  datatype Binding = Binding(worker: string, lastUsed: nat)

  type Affinity = map<(Session, string), Binding>

  datatype Table = Table(workers: Workers, affinity: Affinity)

  /** What a worker reports when it registers and with every heartbeat. */
  datatype Report = Report(nodeId: string, models: seq<ModelCapability>, active: nat, max: nat, state: WorkerState,
                           acceleration: Acceleration)

  function Registered(workers: Workers, r: Report, address: string, now: nat): Workers {
    workers[r.nodeId := WorkerRecord(r.nodeId, address, r.models, r.active, r.max, now, r.state, r.acceleration)]
  }

  /** A heartbeat overwrites all but the id and the address. */
  function Beaten(workers: Workers, id: string, r: Report, now: nat): Workers {
    if id !in workers then workers
    else workers[id := WorkerRecord(workers[id].id, workers[id].address, r.models, r.active, r.max, now, r.state, r.acceleration)]
  }

  /** A binding that may still be followed. */
  predicate Usable(t: Table, key: (Session, string), now: nat) {
    && key in t.affinity && Elapsed(now, t.affinity[key].lastUsed) <= AFFINITY_TTL
    && t.affinity[key].worker in t.workers && Eligible(t.workers[t.affinity[key].worker], key.1)
  }

  /** The bound worker if it can be used, the best one otherwise. */
  ghost function Chosen(t: Table, model: string, session: Option<Session>, now: nat): Option<string> {
    if session.Some? && Usable(t, (session.value, model), now) then Some(t.affinity[(session.value, model)].worker)
    else Best(t.workers, model)
  }

  function Bound(affinity: Affinity, model: string, session: Option<Session>, id: string, now: nat): Affinity {
    if session.Some? then affinity[(session.value, model) := Binding(id, now)] else affinity
  }

  /** One more reservation; a full worker becomes busy. */
  function Reserved(w: WorkerRecord): WorkerRecord {
    w.(active := w.active + 1, state := if w.active + 1 >= w.max then Busy else w.state)
  }

  /** One reservation less, never below zero; a busy worker with room becomes available. */
  function Released(w: WorkerRecord): WorkerRecord {
    var active := if w.active > 0 then w.active - 1 else 0;
    w.(active := active, state := if w.state.Busy? && active < w.max then Available else w.state)
  }

  function Updated(workers: Workers, id: string, f: WorkerRecord -> WorkerRecord): Workers {
    if id in workers then workers[id := f(workers[id])] else workers
  }

  function TakenOffline(w: WorkerRecord): WorkerRecord { w.(state := Offline) }

  function Unbound(affinity: Affinity, id: string): Affinity {
    map key | key in affinity && affinity[key].worker != id :: affinity[key]
  }

  function Expire(w: WorkerRecord, now: nat, timeout: nat): WorkerRecord {
    if Elapsed(now, w.lastHeartbeat) > timeout then TakenOffline(w) else w
  }

  function ExpireWorkers(workers: Workers, now: nat, timeout: nat): Workers {
    map id | id in workers :: Expire(workers[id], now, timeout)
  }

  function ExpireBindings(affinity: Affinity, workers: Workers, now: nat): Affinity {
    map key | key in affinity && Elapsed(now, affinity[key].lastUsed) <= AFFINITY_TTL
              && affinity[key].worker in workers && !workers[affinity[key].worker].state.Offline?
      :: affinity[key]
  }

  function Expired(t: Table, now: nat, timeout: nat): Table {
    var workers := ExpireWorkers(t.workers, now, timeout);
    Table(workers, ExpireBindings(t.affinity, workers, now))
  }

  class Registry {
    var workers: Workers
    var affinity: Affinity

    constructor ()
      ensures View() == Table(map[], map[])
    {
      workers, affinity := map[], map[];
    }

    function View(): Table
      reads this
    {
      Table(workers, affinity)
    }

    ghost predicate Valid()
      reads this
    {
      Keyed(workers)
    }

    method Register(r: Report, address: string, now: nat)
      requires Valid()
      modifies this`workers
      ensures Valid() && workers == Registered(old(workers), r, address, now)
      ensures r.nodeId in workers && forall id | id in workers && id != r.nodeId :: id in old(workers) && workers[id] == old(workers)[id]
      ensures var w := workers[r.nodeId];
              && w.id == r.nodeId && w.address == address && w.models == r.models && w.active == r.active && w.max == r.max
              && w.lastHeartbeat == now && w.state == r.state && w.acceleration == r.acceleration
    {
      workers := workers[r.nodeId := WorkerRecord(r.nodeId, address, r.models, r.active, r.max, now, r.state, r.acceleration)];
    }

    method Heartbeat(id: string, r: Report, now: nat) returns (known: bool)
      requires Valid()
      modifies this`workers
      ensures Valid() && workers == Beaten(old(workers), id, r, now) && (known <==> id in old(workers))
      ensures workers.Keys == old(workers).Keys && forall other | other in workers && other != id :: workers[other] == old(workers)[other]
      ensures known ==>
                var w := workers[id];
                && w.id == old(workers)[id].id && w.address == old(workers)[id].address
                && w.models == r.models && w.active == r.active && w.max == r.max
                && w.lastHeartbeat == now && w.state == r.state && w.acceleration == r.acceleration
    {
      if id !in workers {
        return false;
      }
      var record := workers[id];
      record := record.(models := r.models, max := r.max, active := r.active);
      record := record.(state := r.state, acceleration := r.acceleration, lastHeartbeat := now);
      workers := workers[id := record];
      return true;
    }

    /** The models some worker that is not offline has loaded; the source sorts them
        and drops repetitions, here they are a set. */
    method AvailableModels() returns (models: set<string>)
      ensures forall m :: m in models <==>
                exists id, i :: id in workers && workers[id].state != Offline && 0 <= i < |workers[id].models|
                                && workers[id].models[i].id == m && workers[id].models[i].status == Loaded
    {
      models := set id, i | id in workers && !workers[id].state.Offline? && 0 <= i < |workers[id].models|
                            && workers[id].models[i].status.Loaded? :: workers[id].models[i].id;
    }

    /** Picks a worker, binds the session to it and counts one more reservation. */
    method SelectAndReserve(model: string, session: Option<Session>, now: nat) returns (r: Option<(string, string)>)
      requires Valid()
      modifies this
      ensures Valid()
      ensures r.None? <==> Chosen(old(View()), model, session, now).None?
      ensures r.None? ==> View() == old(View())
      ensures r.Some? ==>
                && Some(r.value.0) == Chosen(old(View()), model, session, now)
                && r.value.0 in old(workers) && r.value.1 == old(workers)[r.value.0].address
                && workers == Updated(old(workers), r.value.0, Reserved)
                && affinity == Bound(old(affinity), model, session, r.value.0, now)
                && affinity == (if session == None then old(affinity) else old(affinity)[(session.value, model) := Binding(r.value.0, now)])
                && workers[r.value.0].active == old(workers)[r.value.0].active + 1
    {
      hide Best, Eligible, Serves;
      var id: Option<string> := None;
      if session.Some? && (session.value, model) in affinity {
        var binding := affinity[(session.value, model)];
        if Elapsed(now, binding.lastUsed) <= AFFINITY_TTL && binding.worker in workers && Eligible(workers[binding.worker], model) {
          id := Some(binding.worker);
        }
      }
      if id.None? {
        id := SelectFrom(workers, model);
      }
      if id.None? {
        return None;
      }
      BestExact(workers, model);
      if session.Some? {
        affinity := affinity[(session.value, model) := Binding(id.value, now)];
      }
      var address := Reserve(id.value);
      return Some((id.value, address));
    }

    /** Counts one more reservation of a worker. */
    method Reserve(id: string) returns (address: string)
      requires Valid() && id in workers
      modifies this`workers
      ensures Valid() && workers == Updated(old(workers), id, Reserved) && address == old(workers)[id].address
    {
      var worker := workers[id];
      worker := worker.(active := worker.active + 1);
      if worker.active >= worker.max {
        worker := worker.(state := Busy);
      }
      workers := workers[id := worker];
      address := worker.address;
    }

    method Release(id: string)
      requires Valid()
      modifies this`workers
      ensures Valid() && workers == Updated(old(workers), id, Released)
    {
      if id in workers {
        var worker := workers[id];
        worker := worker.(active := if worker.active > 0 then worker.active - 1 else 0);
        if worker.state.Busy? && worker.active < worker.max {
          worker := worker.(state := Available);
        }
        workers := workers[id := worker];
      }
    }

    /** The first half of taking a worker offline. */
    method MarkOffline(id: string)
      requires Valid()
      modifies this`workers
      ensures Valid() && workers == Updated(old(workers), id, TakenOffline)
      ensures workers.Keys == old(workers).Keys
      ensures forall other | other in workers ::
                workers[other] == if other == id then old(workers)[other].(state := Offline) else old(workers)[other]
    {
      if id in workers {
        workers := workers[id := workers[id].(state := Offline)];
      }
    }

    /** The second half, in a critical section of its own. */
    method DropBindings(id: string)
      modifies this`affinity
      ensures affinity == Unbound(old(affinity), id)
      ensures forall key :: key in affinity <==> key in old(affinity) && old(affinity)[key].worker != id
      ensures forall key | key in affinity :: affinity[key] == old(affinity)[key]
    {
      affinity := map key | key in affinity && affinity[key].worker != id :: affinity[key];
    }

    method ExpireAt(now: nat, timeout: nat)
      requires Valid()
      modifies this
      ensures Valid() && View() == Expired(old(View()), now, timeout)
    {
      hide AFFINITY_TTL, ExpireBindings;
      var todo := workers.Keys;
      while todo != {}
        invariant Valid() && affinity == old(affinity) && todo <= workers.Keys == old(workers).Keys
        invariant forall id | id in workers ::
                    workers[id] == if id in todo then old(workers)[id] else Expire(old(workers)[id], now, timeout)
        decreases |todo|
      {
        var id :| id in todo;
        if Elapsed(now, workers[id].lastHeartbeat) > timeout {
          workers := workers[id := workers[id].(state := Offline)];
        }
        todo := todo - {id};
      }
      hide Expire;
      assert workers == ExpireWorkers(old(workers), now, timeout);
      affinity := ExpireBindings(affinity, workers, now);
    }
  }

  // ------------------------------------------------------------- selection

  /** A worker is selected exactly when one is eligible, whatever the bindings say, and
      the selected one is eligible. Without a usable binding it is the unique best. */
  lemma SelectionExact(t: Table, model: string, session: Option<Session>, now: nat)
    requires Keyed(t.workers)
    ensures var c := Chosen(t, model, session, now);
            && (c.Some? <==> exists id :: id in t.workers && Eligible(t.workers[id], model))
            && (c.Some? ==> c.value in t.workers && Eligible(t.workers[c.value], model))
            && (session.None? || !Usable(t, (session.value, model), now) ==>
                  forall id :: c == Some(id) <==> IsBest(t.workers, model, id))
  {
    hide Best, Eligible;
    BestExact(t.workers, model);
  }

  /** A session that comes back in time gets the same worker while it is eligible, even
      if another one would be better. */
  lemma SessionsStick(t: Table, model: string, session: Session, now: nat, later: nat)
    requires Keyed(t.workers) && Chosen(t, model, Some(session), now).Some? && Elapsed(later, now) <= AFFINITY_TTL
    ensures var id := Chosen(t, model, Some(session), now).value;
            && id in t.workers
            && var t' := Table(Updated(t.workers, id, Reserved), Bound(t.affinity, model, Some(session), id, now));
               Eligible(t'.workers[id], model) ==> Chosen(t', model, Some(session), later) == Some(id)
  {
    hide Best, Eligible;
    BestExact(t.workers, model);
  }

  // ------------------------------------------------- the rules in plain terms

  /** A binding is followed if it was used within the last 15 minutes and its worker is
      known, available, below its limit and has the model loaded. */
  lemma UsableExact(t: Table, session: Session, model: string, now: nat)
    ensures Usable(t, (session, model), now) <==>
              && (session, model) in t.affinity
              && now <= t.affinity[(session, model)].lastUsed + 900_000_000_000
              && t.affinity[(session, model)].worker in t.workers
              && var w := t.workers[t.affinity[(session, model)].worker];
                 && w.state == Available && w.active < w.max
                 && exists i :: 0 <= i < |w.models| && w.models[i].id == model && w.models[i].status == Loaded
  {
  }

  /** The selected worker is the bound one if its binding is followed, and otherwise one
      that no eligible worker beats: accelerated hardware first, then fewer requests,
      then the smaller id. */
  lemma ChosenExact(t: Table, model: string, session: Option<Session>, now: nat, id: string)
    requires Keyed(t.workers) && Chosen(t, model, session, now) == Some(id)
    ensures id in t.workers && Eligible(t.workers[id], model)
    ensures session.Some? && Usable(t, (session.value, model), now) ==> id == t.affinity[(session.value, model)].worker
    ensures session.None? || !Usable(t, (session.value, model), now) ==>
              forall other | other in t.workers && Eligible(t.workers[other], model) :: NotBetter(t.workers[other], t.workers[id])
  {
    hide Best, Eligible, NotBetter;
    BestExact(t.workers, model);
    if session.None? || !Usable(t, (session.value, model), now) { BestIsNotBeaten(t.workers, model, id); }
  }

  /** A reservation adds one request and makes a full worker busy; a release takes one
      away, if there is one, and makes a busy worker with room available. */
  lemma ReservationExact(w: WorkerRecord)
    ensures Reserved(w) == w.(active := w.active + 1, state := if w.active + 1 < w.max then w.state else Busy)
    ensures w.active > 0 ==>
              Released(w) == w.(active := w.active - 1, state := if w.state == Busy && w.active <= w.max then Available else w.state)
    ensures w.active == 0 ==> Released(w) == w.(state := if w.state == Busy && w.max > 0 then Available else w.state)
  {
  }

  /** A sweep takes offline exactly the workers last heard of longer ago than the timeout
      and changes nothing else of them; it keeps exactly the bindings used within the
      last 15 minutes to workers that are known and not offline. */
  lemma ExpiryExact(t: Table, now: nat, timeout: nat)
    ensures var swept := Expired(t, now, timeout);
            && swept.workers.Keys == t.workers.Keys
            && (forall id | id in t.workers ::
                  swept.workers[id] == t.workers[id].(state := if now > t.workers[id].lastHeartbeat + timeout then Offline else t.workers[id].state))
            && (forall key :: key in swept.affinity <==>
                  && key in t.affinity && now <= t.affinity[key].lastUsed + 900_000_000_000
                  && t.affinity[key].worker in t.workers
                  && var w := t.workers[t.affinity[key].worker]; w.state != Offline && now <= w.lastHeartbeat + timeout)
            && (forall key | key in swept.affinity :: swept.affinity[key] == t.affinity[key])
  {
  }
}
