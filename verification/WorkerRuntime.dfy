/**
 The worker's shared state as an object. Its methods are the atomic sections of the
 admission protocol; the reservation loop is run against arbitrary rivals.
 */
module WorkerRuntime {
  import opened Wrappers
  import opened WorkerAdmission
  import Scheduler

  datatype Refusal = WrongModel | IsDraining | AtCapacity

  /** One attempt of the loop: what other threads have made of the shared state just
      before it, and whether the exchange fails although the value matches. */
  datatype Turn = Turn(after: Shared, spurious: bool)

  /** How far a handler got: the state it leaves, its phase, and the turns it took. */
  datatype Tried = Tried(shared: Shared, phase: Phase, used: nat)

  /** The loop, from a value it has read. */
  function Spinning(max: nat, shared: Shared, seen: nat, turns: seq<Turn>): Tried
    decreases |turns|
  {
    if seen >= max then Tried(shared, Gone, 0)
    else if turns == [] then Tried(shared, Loaded(seen), 0)
    else
      var now := turns[0].after;
      var rest :=
        if now.active == seen && !turns[0].spurious then Tried(TakeSlot(now), Reserved, 0)
        else Spinning(max, now, now.active, turns[1..]);
      rest.(used := rest.used + 1)
  }

  /** The whole is what is left to do, after some turns. */
  ghost predicate Continues(all: Tried, rest: Tried, used: nat) {
    all == rest.(used := used + rest.used)
  }

  /** A whole reservation, with the checks before the loop. */
  function Reserving(max: nat, shared: Shared, wrongModel: bool, turns: seq<Turn>): Tried {
    if wrongModel || shared.draining then Tried(shared, Gone, 0)
    else Spinning(max, shared, shared.active, turns)
  }

  datatype Status = BadRequest | Unavailable(refusal: Refusal) | Conflict | Ran

  /** How a worker describes itself: draining, or busy when full, or available. */
  function Availability(draining: bool, count: nat, max: nat): Scheduler.WorkerState {
    if draining then Scheduler.Draining else if count >= max then Scheduler.Busy else Scheduler.Available
  }

  class WorkerRuntime {
    const modelId: string
    const maxRequests: nat
    var active: nat
    var draining: bool
    var registered: map<RequestId, nat>
    var channels: map<nat, Channel>
    var cancelled: set<nat>

    constructor (modelId: string, maxRequests: nat)
      ensures View() == Start.shared && this.modelId == modelId && this.maxRequests == maxRequests
    {
      this.modelId, this.maxRequests := modelId, maxRequests;
      active, draining, registered, channels, cancelled := 0, false, map[], map[], {};
    }

    function View(): Shared
      reads this
    {
      Shared(active, draining, registered, channels, cancelled)
    }

    /** The reservation loop. `None` means that it is still trying after `turns`; its
        only effect is one more active request than its rivals left, when it succeeds,
        and then the limit holds. It refuses for capacity only if a value it read was
        at the limit. */
    method TryReserve(requested: string, turns: seq<Turn>) returns (r: Option<Result<(), Refusal>>, ghost used: nat)
      requires active <= maxRequests && forall i | 0 <= i < |turns| :: turns[i].after.active <= maxRequests
      modifies this
      ensures var t := Reserving(maxRequests, old(View()), requested != modelId, turns);
              && View() == t.shared && used == t.used
              && (r.None? <==> t.phase.Loaded?) && (r.Some? && r.value.Ok? <==> t.phase.Reserved?)
      ensures used <= |turns| && (r.None? ==> used == |turns|)
      ensures var left := if used == 0 then old(View()) else turns[used - 1].after;
              View() == if r.Some? && r.value.Ok? then TakeSlot(left) else left
      ensures active <= maxRequests
      ensures r.Some? && r.value.Ok? ==> requested == modelId && !old(draining) && used > 0 && !turns[used - 1].spurious
      ensures r == Some(Err(WrongModel)) <==> requested != modelId
      ensures r == Some(Err(IsDraining)) <==> requested == modelId && old(draining)
      ensures r == Some(Err(AtCapacity)) ==>
                old(active) == maxRequests || exists i :: 0 <= i < used && turns[i].after.active == maxRequests
    {
      used := 0;
      if requested != modelId {
        return Some(Err(WrongModel)), 0;
      }
      if draining {
        return Some(Err(IsDraining)), 0;
      }
      var seen := active;
      var i := 0;
      ghost var all := Reserving(maxRequests, View(), false, turns);
      while true
        invariant i <= |turns| && used == i
        invariant View() == if i == 0 then old(View()) else turns[i - 1].after
        invariant seen == active <= maxRequests
        invariant seen == old(active) || exists k :: 0 <= k < i && turns[k].after.active == seen
        invariant Continues(all, Spinning(maxRequests, View(), seen, turns[i..]), i)
        decreases |turns| - i
      {
        if seen >= maxRequests {
          return Some(Err(AtCapacity)), i;
        }
        if i == |turns| {
          return None, i;
        }
        assert turns[i..][0] == turns[i] && turns[i..][1..] == turns[i + 1..];
        Become(turns[i].after);
        if active == seen && !turns[i].spurious {
          active := seen + 1;
          return Some(Ok(())), i + 1;
        }
        seen := active;
        assert turns[i].after.active == seen;
        i, used := i + 1, i + 1;
      }
    }

    /** The rivals' doing. */
    method Become(after: Shared)
      modifies this
      ensures View() == after
    {
      active, draining, registered, channels, cancelled := after.active, after.draining, after.registered, after.channels, after.cancelled;
    }

    method Release()
      modifies this`active
      ensures View() == GiveSlot(old(View()))
      ensures 0 < old(active) <= USIZE_MAX ==> active == old(active) - 1
    {
      active := (active + USIZE_MAX) % (USIZE_MAX + 1);
    }

    /** Registers a request under its id, unless the id is taken. */
    method BeginRequest(id: RequestId, t: nat) returns (began: bool)
      requires t !in channels
      modifies this
      ensures View() == Begun(old(View()), id, t) && (began <==> id !in old(registered))
      ensures began ==> id in registered && registered[id] == t && t !in cancelled && channels[t] == Channel(false, 0, true)
    {
      if id in registered {
        return false;
      }
      registered, channels, cancelled := registered[id := t], channels[t := Channel(false, 0, true)], cancelled - {t};
      return true;
    }

    /** Takes the registration of a request out, completes it, and gives the slot back. */
    method FinishRequest(id: RequestId)
      requires id in registered ==> registered[id] in channels
      modifies this
      ensures id in old(registered) ==>
                View() == GiveSlot(Closed(Completed(Unregistered(old(View()), id), old(registered)[id]), old(registered)[id]))
      ensures id !in old(registered) ==> View() == GiveSlot(old(View()))
    {
      if id in registered {
        var t := registered[id];
        registered := registered - {id};
        channels := channels[t := Channel(true, channels[t].version + 1, channels[t].open)];
        channels := channels[t := channels[t].(open := false)];
      }
      Release();
    }

    /** What the worker reports about itself. */
    method Capabilities() returns (count: nat, max: nat, state: Scheduler.WorkerState)
      ensures count == active && max == maxRequests && state == Availability(draining, active, maxRequests)
      ensures state == Scheduler.Draining <==> draining
      ensures !draining ==> (state == Scheduler.Busy <==> active >= maxRequests) && (state == Scheduler.Available <==> active < maxRequests)
    {
      count, max := active, maxRequests;
      if draining {
        state := Scheduler.Draining;
      } else if count >= maxRequests {
        state := Scheduler.Busy;
      } else {
        state := Scheduler.Available;
      }
    }

    /** A request from its checks to its last release. Its rivals act before every
        attempt, before it registers and while it generates (`registering`, `running`);
        the protocol keeps them from touching its slot, its registration and its channel.
        On every path it leaves what they leave, with its own slot given back and its
        own registration gone. */
    method Serve(valid: bool, requested: string, id: RequestId, t: nat, turns: seq<Turn>, registering: Shared, running: Shared)
      returns (status: Option<Status>, ghost used: nat)
      requires maxRequests <= USIZE_MAX && active <= maxRequests
      requires forall i | 0 <= i < |turns| :: turns[i].after.active <= maxRequests
      requires 0 < registering.active <= maxRequests && t !in registering.channels
      requires id !in registering.registered ==>
                 && 0 < running.active <= maxRequests && id in running.registered && running.registered[id] == t
                 && t in running.channels && running.channels[t] == Channel(false, 0, true)
      modifies this
      ensures used <= |turns|
      ensures status == Some(BadRequest) <==> !valid
      ensures status == Some(BadRequest) ==> View() == old(View())
      ensures status.None? || status.value.Unavailable? ==> View() == if used == 0 then old(View()) else turns[used - 1].after
      ensures status == Some(Conflict) ==> id in registering.registered && View() == registering.(active := registering.active - 1)
      ensures status == Some(Ran) ==>
                && id !in registering.registered
                && View() == running.(active := running.active - 1, registered := running.registered - {id},
                                      channels := running.channels[t := Channel(true, 1, false)])
      ensures status == Some(Ran) || status == Some(Conflict) ==> valid && requested == modelId && !old(draining)
    {
      hide Reserving;
      if !valid {
        return Some(BadRequest), 0;
      }
      var r;
      r, used := TryReserve(requested, turns);
      if r.None? {
        return None, used;
      }
      if r.value.Err? {
        return Some(Unavailable(r.value.error)), used;
      }
      Become(registering);
      var began := BeginRequest(id, t);
      if !began {
        assert View() == registering;
        Release();
        return Some(Conflict), used;
      }
      Become(running);
      FinishRequest(id);
      return Some(Ran), used;
    }
  }

  // ------------------------------------------- the object is in the protocol

  /** The turns are runs of other threads: from each point where handler `t` has read a
      value they lead to the state of the next turn, leaving the handler where it is. */
  ghost predicate Realised(max: nat, w: World, t: nat, turns: seq<Turn>)
    requires t in w.handlers
    decreases |turns|
  {
    turns == [] || exists steps, v ::
      && Reaches(max, w, steps, v) && t in v.handlers && v.handlers[t] == w.handlers[t] && v.shared == turns[0].after
      && Realised(max, Move(v, v.shared, t, Loaded(v.shared.active)), t, turns[1..])
  }

  /** Some run leads from `w` to the state and phase of a reservation by handler `t`. */
  ghost predicate RunsTo(max: nat, w: World, t: nat, tried: Tried) {
    exists steps, v :: Reaches(max, w, steps, v) && v.shared == tried.shared && t in v.handlers && v.handlers[t].phase == tried.phase
  }

  lemma {:induction false} ReachesConcat(max: nat, a: World, first: seq<Step>, b: World, second: seq<Step>, c: World)
    requires Reaches(max, a, first, b) && Reaches(max, b, second, c)
    ensures Reaches(max, a, first + second, c)
    decreases |first|
  {
    hide Next;
    if first == [] {
      assert first + second == second;
    } else {
      assert (first + second)[1..] == first[1..] + second;
      ReachesConcat(max, Next(max, a, first[0]).value, first[1..], b, second, c);
    }
  }

  lemma After(max: nat, w: World, steps: seq<Step>, v: World, t: nat, tried: Tried)
    requires Reaches(max, w, steps, v) && RunsTo(max, v, t, tried)
    ensures forall n :: RunsTo(max, w, t, tried.(used := n))
  {
    hide Reaches;
    var more, u :| Reaches(max, v, more, u) && u.shared == tried.shared && t in u.handlers && u.handlers[t].phase == tried.phase;
    ReachesConcat(max, w, steps, v, more, u);
  }

  lemma Stay(max: nat, w: World, t: nat, tried: Tried)
    requires w.shared == tried.shared && t in w.handlers && w.handlers[t].phase == tried.phase
    ensures RunsTo(max, w, t, tried)
  {
    assert Reaches(max, w, [], w);
  }

  lemma OneStep(max: nat, w: World, step: Step, v: World, t: nat, tried: Tried)
    requires Next(max, w, step) == Some(v) && RunsTo(max, v, t, tried)
    ensures RunsTo(max, w, t, tried)
  {
    hide Next, RunsTo;
    assert [step][1..] == [];
    assert Reaches(max, v, [], v);
    assert Reaches(max, w, [step], v);
    After(max, w, [step], v, t, tried);
    assert tried.(used := tried.used) == tried;
  }

  /** Each turn of the loop is a run of rivals and one attempt. */
  lemma {:induction false} SpinningIsARun(max: nat, w: World, t: nat, turns: seq<Turn>)
    requires t in w.handlers && w.handlers[t].phase.Loaded? && Realised(max, w, t, turns)
    ensures RunsTo(max, w, t, Spinning(max, w.shared, w.handlers[t].phase.seen, turns))
    decreases |turns|
  {
    hide RunsTo;
    var seen := w.handlers[t].phase.seen;
    var tried := Spinning(max, w.shared, seen, turns);
    if seen >= max {
      var gone := Move(w, w.shared, t, Gone);
      Stay(max, gone, t, tried);
      OneStep(max, w, WorkerAdmission.Attempt(t, None), gone, t, tried);
    } else if turns == [] {
      Stay(max, w, t, tried);
    } else {
      var steps, v :| && Reaches(max, w, steps, v) && t in v.handlers && v.handlers[t] == w.handlers[t] && v.shared == turns[0].after
                      && Realised(max, Move(v, v.shared, t, Loaded(v.shared.active)), t, turns[1..]);
      if v.shared.active == seen && !turns[0].spurious {
        var taken := Move(v, TakeSlot(v.shared), t, Reserved);
        Stay(max, taken, t, tried);
        OneStep(max, v, WorkerAdmission.Attempt(t, None), taken, t, tried);
        After(max, w, steps, v, t, tried);
        assert tried.(used := tried.used) == tried;
      } else {
        var failed := Move(v, v.shared, t, Loaded(v.shared.active));
        SpinningIsARun(max, failed, t, turns[1..]);
        var rest := Spinning(max, v.shared, v.shared.active, turns[1..]);
        OneStep(max, v, WorkerAdmission.Attempt(t, Some(v.shared.active)), failed, t, rest);
        After(max, w, steps, v, t, rest);
        assert tried == rest.(used := rest.used + 1);
      }
    }
  }

  /** One reservation is a run of the protocol's check and attempts, interleaved with the
      turns of its rivals. */
  lemma ReservingIsARun(max: nat, w: World, t: nat, wrongModel: bool, turns: seq<Turn>)
    requires t in w.handlers && w.handlers[t].phase.Arrived?
    requires Realised(max, Move(w, w.shared, t, Loaded(w.shared.active)), t, turns)
    ensures RunsTo(max, w, t, Reserving(max, w.shared, wrongModel, turns))
  {
    hide RunsTo, Realised;
    var tried := Reserving(max, w.shared, wrongModel, turns);
    var next := Next(max, w, Check(t, wrongModel, w.shared.active)).value;
    if wrongModel || w.shared.draining {
      Stay(max, next, t, tried);
    } else {
      SpinningIsARun(max, next, t, turns);
    }
    OneStep(max, w, Check(t, wrongModel, w.shared.active), next, t, tried);
  }

  /** Registering, finishing and giving up do to the shared state what the handler's
      steps do. */
  lemma SectionsAreSteps(max: nat, w: World, t: nat)
    requires Inv(max, w) && t in w.handlers
    ensures w.handlers[t].phase.Reserved? ==>
              Next(max, w, Begin(t)).Some? && Next(max, w, Begin(t)).value.shared == Begun(w.shared, w.handlers[t].id, t)
    ensures w.handlers[t].phase.Leaving? ==>
              Next(max, w, WorkerAdmission.Release(t)).Some? && Next(max, w, WorkerAdmission.Release(t)).value.shared == GiveSlot(w.shared)
    ensures w.handlers[t].phase.Running? ==>
              var id := w.handlers[t].id;
              && id in w.shared.registered && w.shared.registered[id] == t && t in w.shared.channels
              && RunsTo(max, w, t, Tried(GiveSlot(Closed(Completed(Unregistered(w.shared, id), t), t)), Gone, 0))
  {
    if w.handlers[t].phase.Running? { FinishIsARun(max, w, t); }
  }

  /** What a request relies on while its rivals act: a reserved handler finds a slot taken
      and no channel of its own, a running one its slot, registration and channel. */
  lemma RivalsKeepMine(max: nat, w: World, t: nat)
    requires Inv(max, w) && t in w.handlers
    ensures w.handlers[t].phase.Reserved? ==> 0 < w.shared.active <= max && t !in w.shared.channels
    ensures w.handlers[t].phase.Running? ==>
              && 0 < w.shared.active <= max
              && w.handlers[t].id in w.shared.registered && w.shared.registered[w.handlers[t].id] == t
              && t in w.shared.channels && w.shared.channels[t] == Channel(false, 0, true)
  {
    HoldingPhases(w, t);
    assert ChannelMatches(t, w.handlers[t].phase, ChannelOf(w.shared, t));
  }

  lemma RemoveIs(max: nat, w: World, t: nat)
    requires t in w.handlers && w.handlers[t].phase.Running?
    requires w.handlers[t].id in w.shared.registered && w.shared.registered[w.handlers[t].id] == t
    ensures Next(max, w, Remove(t)) == Some(Move(w, Unregistered(w.shared, w.handlers[t].id), t, Removed(t)))
  {
  }

  lemma SendIs(max: nat, w: World, t: nat)
    requires t in w.handlers && w.handlers[t].phase == Removed(t) && t in w.shared.channels
    ensures Next(max, w, Send(t)) == Some(Move(w, Completed(w.shared, t), t, Sent(t)))
  {
  }

  lemma CloseIs(max: nat, w: World, t: nat)
    requires t in w.handlers && w.handlers[t].phase == Sent(t) && t in w.shared.channels
    ensures Next(max, w, Close(t)) == Some(Move(w, Closed(w.shared, t), t, Leaving))
  {
  }

  lemma ReleaseIs(max: nat, w: World, t: nat)
    requires t in w.handlers && w.handlers[t].phase.Leaving?
    ensures Next(max, w, WorkerAdmission.Release(t)) == Some(Move(w, GiveSlot(w.shared), t, Gone))
  {
  }

  lemma FinishIsARun(max: nat, w: World, t: nat)
    requires Indexed(w) && Channelled(w) && t in w.handlers && w.handlers[t].phase.Running?
    ensures var id := w.handlers[t].id;
            && id in w.shared.registered && w.shared.registered[id] == t && t in w.shared.channels
            && RunsTo(max, w, t, Tried(GiveSlot(Closed(Completed(Unregistered(w.shared, id), t), t)), Gone, 0))
  {
    var id := w.handlers[t].id;
    assert ChannelMatches(t, w.handlers[t].phase, ChannelOf(w.shared, t));
    assert t in w.shared.channels;
    hide RunsTo, Next;
    var removed := Move(w, Unregistered(w.shared, id), t, Removed(t));
    var sent := Move(removed, Completed(removed.shared, t), t, Sent(t));
    var closed := Move(sent, Closed(sent.shared, t), t, Leaving);
    var gone := Move(closed, GiveSlot(closed.shared), t, Gone);
    var end := Tried(gone.shared, Gone, 0);
    RemoveIs(max, w, t);
    SendIs(max, removed, t);
    CloseIs(max, sent, t);
    ReleaseIs(max, closed, t);
    Stay(max, gone, t, end);
    OneStep(max, closed, WorkerAdmission.Release(t), gone, t, end);
    OneStep(max, sent, Close(t), closed, t, end);
    OneStep(max, removed, Send(t), sent, t, end);
    OneStep(max, w, Remove(t), removed, t, end);
  }
}
