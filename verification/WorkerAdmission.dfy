/**
 Admission, registration and cancellation of requests on a worker, as interleaved
 atomic steps of any number of request handlers and cancel calls.
 */
module WorkerAdmission {
  import opened Wrappers

  type RequestId(==,0,!new)

  // ---------------------------------------------------------- shared state

  /** A completion channel: its value, how often it was sent to, and its sender. */
  datatype Channel = Channel(value: bool, version: nat, open: bool)

  /** A registration is named by the handler that began it; it stands for one pair of
      cancellation token and completion channel. */
  datatype Shared = Shared(active: nat, draining: bool, registered: map<RequestId, nat>,
                           channels: map<nat, Channel>, cancelled: set<nat>)

  function TakeSlot(s: Shared): Shared { s.(active := s.active + 1) }

  /** The atomic subtraction wraps around. */
  function GiveSlot(s: Shared): Shared { s.(active := (s.active + USIZE_MAX) % (USIZE_MAX + 1)) }

  /** Registers `id`, unless it is registered already. */
  function Begun(s: Shared, id: RequestId, t: nat): Shared {
    if id in s.registered then s
    else s.(registered := s.registered[id := t], channels := s.channels[t := Channel(false, 0, true)], cancelled := s.cancelled - {t})
  }

  function Unregistered(s: Shared, id: RequestId): Shared { s.(registered := s.registered - {id}) }

  function Completed(s: Shared, t: nat): Shared
    requires t in s.channels
  {
    s.(channels := s.channels[t := Channel(true, s.channels[t].version + 1, s.channels[t].open)])
  }

  function Closed(s: Shared, t: nat): Shared
    requires t in s.channels
  {
    s.(channels := s.channels[t := s.channels[t].(open := false)])
  }

  // ------------------------------------------------------------- handlers

  datatype Phase =
    | Arrived
    | Loaded(seen: nat)
    | Reserved
    | Running
    | Removed(registration: nat)
    | Sent(registration: nat)
    | Leaving
    | Gone

  datatype Handler = Handler(id: RequestId, phase: Phase)

  /** The handler has a slot it has not given back. */
  predicate Holds(p: Phase) {
    p.Reserved? || p.Running? || p.Removed? || p.Sent? || p.Leaving?
  }

  /** A cancel call: it has asked for an id, found a registration and subscribed to its
      channel at some version, cancelled its token, or waits for the next version. */
  datatype CancelPhase =
    | Asking
    | Found(registration: nat, seen: nat)
    | Looping(registration: nat, seen: nat)
    | Changing(registration: nat, seen: nat)
    | Answered(result: bool, about: Option<nat>)

  datatype Cancel = Cancel(id: RequestId, phase: CancelPhase)

  datatype World = World(shared: Shared, handlers: map<nat, Handler>, cancels: map<nat, Cancel>)

  /** Loads of the active count and failed exchanges may report any value. */
  datatype Step =
    | Arrive(t: nat, id: RequestId)
    | Check(t: nat, wrongModel: bool, seen: nat)
    | Attempt(t: nat, failed: Option<nat>)
    | Begin(t: nat)
    | Remove(t: nat)
    | Send(t: nat)
    | Close(t: nat)
    | Release(t: nat)
    | Drain
    | Ask(c: nat, id: RequestId)
    | Lookup(c: nat)
    | CancelToken(c: nat)
    | Borrow(c: nat)
    | Changed(c: nat)

  function Move(w: World, shared: Shared, t: nat, p: Phase): World
    requires t in w.handlers
  {
    w.(shared := shared, handlers := w.handlers[t := w.handlers[t].(phase := p)])
  }

  function MoveCancel(w: World, c: nat, p: CancelPhase): World
    requires c in w.cancels
  {
    w.(cancels := w.cancels[c := w.cancels[c].(phase := p)])
  }

  /** One attempt of the reservation loop; an exchange succeeds only on the current value. */
  function Attempted(max: nat, w: World, t: nat, failed: Option<nat>): Option<World>
    requires t in w.handlers && w.handlers[t].phase.Loaded?
  {
    var seen := w.handlers[t].phase.seen;
    if seen >= max then Some(Move(w, w.shared, t, Gone))
    else
      match failed
      case Some(value) => Some(Move(w, w.shared, t, Loaded(value)))
      case None => if seen == w.shared.active then Some(Move(w, TakeSlot(w.shared), t, Reserved)) else None
  }

  function HandlerStep(max: nat, w: World, t: nat, step: Step): Option<World>
    requires t in w.handlers
  {
    var Handler(id, phase) := w.handlers[t];
    match (step, phase)
    case (Check(_, wrongModel, seen), Arrived) => Some(Move(w, w.shared, t, if wrongModel || w.shared.draining then Gone else Loaded(seen)))
    case (Attempt(_, failed), Loaded(_)) => Attempted(max, w, t, failed)
    case (Begin(_), Reserved) => Some(Move(w, Begun(w.shared, id, t), t, if id in w.shared.registered then Leaving else Running))
    case (Remove(_), Running) =>
      if id in w.shared.registered then Some(Move(w, Unregistered(w.shared, id), t, Removed(w.shared.registered[id])))
      else Some(Move(w, w.shared, t, Leaving))
    case (Send(_), Removed(r)) => if r in w.shared.channels then Some(Move(w, Completed(w.shared, r), t, Sent(r))) else None
    case (Close(_), Sent(r)) => if r in w.shared.channels then Some(Move(w, Closed(w.shared, r), t, Leaving)) else None
    case (Release(_), Leaving) => Some(Move(w, GiveSlot(w.shared), t, Gone))
    case _ => None
  }

  /** Waiting for a change returns at once when there is one, or fails when the sender
      is gone; otherwise it is not enabled. */
  function CancelStep(w: World, c: nat, step: Step): Option<World>
    requires c in w.cancels
  {
    var Cancel(id, phase) := w.cancels[c];
    match (step, phase)
    case (Lookup(_), Asking) =>
      if id in w.shared.registered && w.shared.registered[id] in w.shared.channels then
        var r := w.shared.registered[id];
        Some(MoveCancel(w, c, Found(r, w.shared.channels[r].version)))
      else Some(MoveCancel(w, c, Answered(false, None)))
    case (CancelToken(_), Found(r, seen)) =>
      Some(MoveCancel(w.(shared := w.shared.(cancelled := w.shared.cancelled + {r})), c, Looping(r, seen)))
    case (Borrow(_), Looping(r, seen)) =>
      if r !in w.shared.channels then None
      else if w.shared.channels[r].value then Some(MoveCancel(w, c, Answered(true, Some(r))))
      else Some(MoveCancel(w, c, Changing(r, seen)))
    case (Changed(_), Changing(r, seen)) =>
      if r !in w.shared.channels then None
      else if w.shared.channels[r].version != seen then Some(MoveCancel(w, c, Looping(r, w.shared.channels[r].version)))
      else if !w.shared.channels[r].open then Some(MoveCancel(w, c, Answered(false, Some(r))))
      else None
    case _ => None
  }

  /** The world after a step, if the step is enabled. */
  function Next(max: nat, w: World, step: Step): Option<World> {
    match step
    case Arrive(t, id) => if t in w.handlers then None else Some(w.(handlers := w.handlers[t := Handler(id, Arrived)]))
    case Ask(c, id) => if c in w.cancels then None else Some(w.(cancels := w.cancels[c := Cancel(id, Asking)]))
    case Drain => Some(w.(shared := w.shared.(draining := true)))
    case Check(t, _, _) => if t in w.handlers then HandlerStep(max, w, t, step) else None
    case Attempt(t, _) => if t in w.handlers then HandlerStep(max, w, t, step) else None
    case Begin(t) => if t in w.handlers then HandlerStep(max, w, t, step) else None
    case Remove(t) => if t in w.handlers then HandlerStep(max, w, t, step) else None
    case Send(t) => if t in w.handlers then HandlerStep(max, w, t, step) else None
    case Close(t) => if t in w.handlers then HandlerStep(max, w, t, step) else None
    case Release(t) => if t in w.handlers then HandlerStep(max, w, t, step) else None
    case Lookup(c) => if c in w.cancels then CancelStep(w, c, step) else None
    case CancelToken(c) => if c in w.cancels then CancelStep(w, c, step) else None
    case Borrow(c) => if c in w.cancels then CancelStep(w, c, step) else None
    case Changed(c) => if c in w.cancels then CancelStep(w, c, step) else None
  }

  const Start := World(Shared(0, false, map[], map[], {}), map[], map[])

  // -------------------------------------------------------------- invariant

  function Holders(w: World): set<nat> {
    set t | t in w.handlers && Holds(w.handlers[t].phase)
  }

  /** The active count is the number of slots held, and within the limit. */
  ghost predicate Counted(max: nat, w: World) {
    w.shared.active == |Holders(w)| && w.shared.active <= max
  }

  /** The registered ids are exactly those of the running handlers, one each. */
  ghost predicate Indexed(w: World) {
    && (forall id | id in w.shared.registered ::
          && w.shared.registered[id] in w.handlers
          && w.handlers[w.shared.registered[id]] == Handler(id, Running))
    && (forall t | t in w.handlers && w.handlers[t].phase.Running? ::
          w.handlers[t].id in w.shared.registered && w.shared.registered[w.handlers[t].id] == t)
  }

  /** What the channel of a handler looks like while the handler is in a phase. */
  predicate ChannelMatches(t: nat, p: Phase, channel: Option<Channel>) {
    match p
    case Running => channel == Some(Channel(false, 0, true))
    case Removed(r) => r == t && channel == Some(Channel(false, 0, true))
    case Sent(r) => r == t && channel == Some(Channel(true, 1, true))
    case Leaving => channel.None? || channel == Some(Channel(true, 1, false))
    case Gone => channel.None? || channel == Some(Channel(true, 1, false))
    case _ => channel.None?
  }

  function ChannelOf(s: Shared, t: nat): Option<Channel> {
    if t in s.channels then Some(s.channels[t]) else None
  }

  ghost predicate Channelled(w: World) {
    && w.shared.channels.Keys <= w.handlers.Keys
    && forall t | t in w.handlers :: ChannelMatches(t, w.handlers[t].phase, ChannelOf(w.shared, t))
  }

  /** The handler has left the registry and said so on its channel. */
  ghost predicate Finished(w: World, r: nat) {
    && r in w.handlers && (w.handlers[r].phase.Sent? || w.handlers[r].phase.Leaving? || w.handlers[r].phase.Gone?)
    && r in w.shared.channels && w.shared.channels[r].value
  }

  /** A cancel call speaks about one registration of its id. */
  ghost predicate Honest(w: World, c: Cancel)
    requires w.shared.channels.Keys <= w.handlers.Keys
  {
    match c.phase
    case Asking => true
    case Found(r, seen) => r in w.shared.channels && w.handlers[r].id == c.id && seen == 0
    case Looping(r, seen) =>
      && r in w.shared.channels && w.handlers[r].id == c.id && r in w.shared.cancelled
      && (seen == 0 || w.shared.channels[r].value)
    case Changing(r, seen) => r in w.shared.channels && w.handlers[r].id == c.id && r in w.shared.cancelled && seen == 0
    case Answered(true, answer) =>
      answer.Some? && Finished(w, answer.value) && w.handlers[answer.value].id == c.id && answer.value in w.shared.cancelled
    case Answered(false, answer) => answer.None?
  }

  ghost predicate Cancels(w: World)
    requires w.shared.channels.Keys <= w.handlers.Keys
  {
    forall c | c in w.cancels :: Honest(w, w.cancels[c])
  }

  ghost predicate Inv(max: nat, w: World) {
    Counted(max, w) && Indexed(w) && Channelled(w) && Cancels(w)
  }

  /** Any finite schedule. */
  ghost predicate Reaches(max: nat, w: World, steps: seq<Step>, w': World)
    decreases |steps|
  {
    if steps == [] then w' == w
    else Next(max, w, steps[0]).Some? && Reaches(max, Next(max, w, steps[0]).value, steps[1..], w')
  }

  lemma HolderMoves(w: World, shared: Shared, t: nat, p: Phase)
    requires t in w.handlers
    ensures |Holders(Move(w, shared, t, p))| ==
            |Holders(w)| + (if Holds(p) then 1 else 0) - (if Holds(w.handlers[t].phase) then 1 else 0)
  {
    var before, after := Holders(w), Holders(Move(w, shared, t, p));
    WithOrWithout(before, t);
    assert Holds(p) ==> after == before + {t};
    assert !Holds(p) ==> after == before - {t};
  }

  lemma WithOrWithout(s: set<nat>, t: nat)
    ensures |s + {t}| == |s| + (if t in s then 0 else 1) && |s - {t}| == |s| - (if t in s then 1 else 0)
  {
    assert t in s ==> s + {t} == s;
    assert t !in s ==> s - {t} == s;
  }

  lemma CountKept(max: nat, w: World, t: nat, step: Step)
    requires max <= USIZE_MAX && Counted(max, w) && t in w.handlers && HandlerStep(max, w, t, step).Some?
    ensures Counted(max, HandlerStep(max, w, t, step).value)
  {
    hide Holders, Holds;
    var w' := HandlerStep(max, w, t, step).value;
    HolderMoves(w, w'.shared, t, w'.handlers[t].phase);
    assert w' == Move(w, w'.shared, t, w'.handlers[t].phase);
    HoldingPhases(w, t);
  }

  lemma HoldingPhases(w: World, t: nat)
    requires t in w.handlers
    ensures Holds(w.handlers[t].phase) ==> |Holders(w)| > 0
    ensures forall p: Phase :: Holds(p) <==> p.Reserved? || p.Running? || p.Removed? || p.Sent? || p.Leaving?
  {
    if Holds(w.handlers[t].phase) { assert t in Holders(w); }
  }

  lemma BeginIndexes(max: nat, w: World, t: nat)
    requires Indexed(w) && t in w.handlers && HandlerStep(max, w, t, Begin(t)).Some?
    ensures Indexed(HandlerStep(max, w, t, Begin(t)).value)
  {
  }

  lemma RemoveUnindexes(max: nat, w: World, t: nat)
    requires Indexed(w) && t in w.handlers && HandlerStep(max, w, t, Remove(t)).Some?
    ensures Indexed(HandlerStep(max, w, t, Remove(t)).value)
    ensures HandlerStep(max, w, t, Remove(t)).value.handlers[t].phase == Removed(t)
  {
  }

  lemma IndexKept(max: nat, w: World, t: nat, step: Step)
    requires Indexed(w) && t in w.handlers && HandlerOf(step) == Some(t) && HandlerStep(max, w, t, step).Some?
    ensures Indexed(HandlerStep(max, w, t, step).value)
  {
    if step.Begin? {
      BeginIndexes(max, w, t);
    } else if step.Remove? {
      RemoveUnindexes(max, w, t);
    }
  }

  lemma ChannelsKept(max: nat, w: World, t: nat, step: Step)
    requires Indexed(w) && Channelled(w) && t in w.handlers && HandlerOf(step) == Some(t) && HandlerStep(max, w, t, step).Some?
    ensures Channelled(HandlerStep(max, w, t, step).value)
  {
    hide Indexed, ChannelMatches;
    var w' := HandlerStep(max, w, t, step).value;
    OwnChannelOnly(max, w, t, step);
    OwnChannelKept(max, w, t, step);
    forall u | u in w'.handlers ensures ChannelMatches(u, w'.handlers[u].phase, ChannelOf(w'.shared, u)) {
      if u != t { assert ChannelMatches(u, w.handlers[u].phase, ChannelOf(w.shared, u)); }
    }
  }

  lemma OwnChannelOnly(max: nat, w: World, t: nat, step: Step)
    requires Indexed(w) && Channelled(w) && t in w.handlers && HandlerOf(step) == Some(t) && HandlerStep(max, w, t, step).Some?
    ensures var w' := HandlerStep(max, w, t, step).value;
            && w'.handlers.Keys == w.handlers.Keys && w'.shared.channels.Keys <= w'.handlers.Keys
            && forall u | u in w.handlers && u != t :: w'.handlers[u] == w.handlers[u] && ChannelOf(w'.shared, u) == ChannelOf(w.shared, u)
  {
    hide Indexed;
    assert ChannelMatches(t, w.handlers[t].phase, ChannelOf(w.shared, t));
  }

  lemma OwnChannelKept(max: nat, w: World, t: nat, step: Step)
    requires Indexed(w) && Channelled(w) && t in w.handlers && HandlerOf(step) == Some(t) && HandlerStep(max, w, t, step).Some?
    ensures var w' := HandlerStep(max, w, t, step).value;
            t in w'.handlers && ChannelMatches(t, w'.handlers[t].phase, ChannelOf(w'.shared, t))
  {
    if step.Remove? { RemoveUnindexes(max, w, t); }
    assert ChannelMatches(t, w.handlers[t].phase, ChannelOf(w.shared, t));
    hide Indexed, Channelled;
  }

  /** What handlers never undo. */
  ghost predicate Advances(w: World, w': World) {
    && w'.shared.channels.Keys <= w'.handlers.Keys
    && (forall r | r in w.shared.channels ::
          && r in w'.shared.channels && r in w.handlers && r in w'.handlers && w'.handlers[r].id == w.handlers[r].id
          && (w.shared.channels[r].value ==> w'.shared.channels[r].value)
          && (r in w.shared.cancelled ==> r in w'.shared.cancelled))
    && (forall r | r in w.handlers && Finished(w, r) :: Finished(w', r))
  }

  /** A handler's move advances if it loses no channel, cancellation or completion, and
      the handler does not take its own finish back. */
  lemma MoveAdvances(w: World, shared: Shared, t: nat, p: Phase)
    requires t in w.handlers && w.shared.channels.Keys <= w.handlers.Keys && shared.channels.Keys <= w.handlers.Keys
    requires forall r | r in w.shared.channels :: r in shared.channels && (w.shared.channels[r].value ==> shared.channels[r].value)
    requires forall r | r in w.shared.channels && r in w.shared.cancelled :: r in shared.cancelled
    requires Finished(w, t) ==> p.Sent? || p.Leaving? || p.Gone?
    ensures Advances(w, Move(w, shared, t, p))
  {
  }

  lemma BeginAdvances(max: nat, w: World, t: nat)
    requires Channelled(w) && t in w.handlers && w.handlers[t].phase.Reserved?
    ensures Advances(w, HandlerStep(max, w, t, Begin(t)).value)
  {
    var id := w.handlers[t].id;
    assert ChannelMatches(t, w.handlers[t].phase, ChannelOf(w.shared, t));
    hide Advances;
    MoveAdvances(w, Begun(w.shared, id, t), t, if id in w.shared.registered then Leaving else Running);
  }

  lemma SendAdvances(max: nat, w: World, t: nat, step: Step)
    requires Channelled(w) && t in w.handlers && (step == Send(t) || step == Close(t)) && HandlerStep(max, w, t, step).Some?
    ensures Advances(w, HandlerStep(max, w, t, step).value)
  {
    hide Advances, ChannelMatches;
    var w' := HandlerStep(max, w, t, step).value;
    MoveAdvances(w, w'.shared, t, w'.handlers[t].phase);
  }

  lemma OtherAdvances(max: nat, w: World, t: nat, step: Step)
    requires Channelled(w) && t in w.handlers && !step.Begin? && !step.Send? && !step.Close? && HandlerStep(max, w, t, step).Some?
    ensures Advances(w, HandlerStep(max, w, t, step).value)
  {
    hide Advances, ChannelMatches;
    var w' := HandlerStep(max, w, t, step).value;
    assert w' == Move(w, w'.shared, t, w'.handlers[t].phase);
    MoveAdvances(w, w'.shared, t, w'.handlers[t].phase);
  }

  lemma HandlersAdvance(max: nat, w: World, t: nat, step: Step)
    requires Channelled(w) && t in w.handlers && HandlerOf(step) == Some(t) && HandlerStep(max, w, t, step).Some?
    requires Channelled(HandlerStep(max, w, t, step).value)
    ensures Advances(w, HandlerStep(max, w, t, step).value)
  {
    match step
    case Begin(_) => BeginAdvances(max, w, t);
    case Send(_) => SendAdvances(max, w, t, step);
    case Close(_) => SendAdvances(max, w, t, step);
    case _ => OtherAdvances(max, w, t, step);
  }

  lemma HonestStays(w: World, w': World, c: Cancel)
    requires Advances(w, w') && w.shared.channels.Keys <= w.handlers.Keys && Honest(w, c)
    ensures Honest(w', c)
  {
  }

  lemma CancelsKept(max: nat, w: World, t: nat, step: Step)
    requires Channelled(w) && Cancels(w) && t in w.handlers && HandlerOf(step) == Some(t) && HandlerStep(max, w, t, step).Some?
    requires Channelled(HandlerStep(max, w, t, step).value)
    ensures Cancels(HandlerStep(max, w, t, step).value)
  {
    HandlersAdvance(max, w, t, step);
    hide Honest, Advances, ChannelMatches;
    var w' := HandlerStep(max, w, t, step).value;
    forall c | c in w'.cancels ensures Honest(w', w'.cancels[c]) { HonestStays(w, w', w.cancels[c]); }
  }

  lemma CancelStepKeeps(w: World, c: nat, step: Step)
    requires Indexed(w) && Channelled(w) && Cancels(w) && c in w.cancels && CancelStep(w, c, step).Some?
    ensures var w' := CancelStep(w, c, step).value;
            w'.shared.(cancelled := {}) == w.shared.(cancelled := {}) && w'.handlers == w.handlers && Cancels(w')
  {
  }

  /** The thread a step belongs to, among the handlers. */
  function HandlerOf(step: Step): Option<nat> {
    match step
    case Check(t, _, _) => Some(t)
    case Attempt(t, _) => Some(t)
    case Begin(t) => Some(t)
    case Remove(t) => Some(t)
    case Send(t) => Some(t)
    case Close(t) => Some(t)
    case Release(t) => Some(t)
    case _ => None
  }

  lemma ArrivalKeeps(max: nat, w: World, t: nat, id: RequestId)
    requires Inv(max, w) && Next(max, w, Arrive(t, id)).Some?
    ensures Inv(max, Next(max, w, Arrive(t, id)).value)
  {
    assert Holders(Next(max, w, Arrive(t, id)).value) == Holders(w);
  }

  lemma OthersKeep(max: nat, w: World, step: Step)
    requires Inv(max, w) && Next(max, w, step).Some? && (step.Ask? || step.Drain?)
    ensures Inv(max, Next(max, w, step).value)
  {
    assert Holders(Next(max, w, step).value) == Holders(w);
  }

  lemma CancelKeeps(max: nat, w: World, c: nat, step: Step)
    requires Inv(max, w) && c in w.cancels && CancelStep(w, c, step).Some?
    ensures Inv(max, CancelStep(w, c, step).value)
  {
    hide CancelStep, Cancels, ChannelMatches;
    CancelStepKeeps(w, c, step);
    assert Holders(CancelStep(w, c, step).value) == Holders(w);
  }

  lemma StepKeeps(max: nat, w: World, step: Step)
    requires max <= USIZE_MAX && Inv(max, w) && Next(max, w, step).Some?
    ensures Inv(max, Next(max, w, step).value)
  {
    hide HandlerStep, CancelStep;
    if step.Arrive? {
      ArrivalKeeps(max, w, step.t, step.id);
    } else if step.Ask? || step.Drain? {
      OthersKeep(max, w, step);
    } else if HandlerOf(step).Some? {
      hide Counted, Indexed, Channelled;
      CountKept(max, w, step.t, step);
      IndexKept(max, w, step.t, step);
      ChannelsKept(max, w, step.t, step);
      CancelsKept(max, w, step.t, step);
    } else {
      hide Inv;
      CancelKeeps(max, w, step.c, step);
    }
  }

  /** Every schedule of handlers and cancel calls keeps the invariant: the active count
      is the number of slots held, within the limit and without underflow; registered
      ids are those of running handlers; cancel calls are answered honestly. */
  lemma {:induction false} RunsKeepInvariant(max: nat, w: World, steps: seq<Step>, w': World)
    requires max <= USIZE_MAX && Inv(max, w) && Reaches(max, w, steps, w')
    ensures Inv(max, w')
    decreases |steps|
  {
    hide Inv, Next;
    if steps != [] {
      StepKeeps(max, w, steps[0]);
      RunsKeepInvariant(max, Next(max, w, steps[0]).value, steps[1..], w');
    }
  }

  ghost predicate Reachable(max: nat, w: World) {
    exists steps :: Reaches(max, Start, steps, w)
  }

  lemma ReachableInv(max: nat, w: World)
    requires max <= USIZE_MAX && Reachable(max, w)
    ensures Inv(max, w)
  {
    var steps :| Reaches(max, Start, steps, w);
    assert Holders(Start) == {};
    RunsKeepInvariant(max, Start, steps, w);
  }

  // ------------------------------------------------------------ consequences

  /** A slot is given back only by a handler that holds one: no underflow. */
  lemma ReleaseNeverWraps(max: nat, w: World, t: nat)
    requires max <= USIZE_MAX && Reachable(max, w) && t in w.handlers && w.handlers[t].phase.Leaving?
    ensures 0 < w.shared.active <= max
    ensures Next(max, w, Release(t)).value.shared.active == w.shared.active - 1
  {
    ReachableInv(max, w);
    assert t in Holders(w);
  }

  /** When every handler is gone, all slots are free and no id is registered. */
  lemma QuiescenceIsClean(max: nat, w: World)
    requires max <= USIZE_MAX && Reachable(max, w)
    requires forall t | t in w.handlers :: w.handlers[t].phase.Gone?
    ensures w.shared.active == 0 && w.shared.registered == map[]
  {
    ReachableInv(max, w);
    assert Holders(w) == {};
  }

  /** A finishing handler removes its own registration, never one that another handler
      made under the same id. */
  lemma RemovesItsOwn(max: nat, w: World, t: nat)
    requires max <= USIZE_MAX && Reachable(max, w) && t in w.handlers && w.handlers[t].phase.Running?
    ensures Next(max, w, Remove(t)).Some?
    ensures Next(max, w, Remove(t)).value.handlers[t].phase == Removed(t)
  {
    ReachableInv(max, w);
  }

  /** A cancel call answers true only once the registration it cancelled has left the
      registry, even if its id was begun again meanwhile. */
  lemma TrueMeansFinished(max: nat, w: World, c: nat)
    requires max <= USIZE_MAX && Reachable(max, w) && c in w.cancels
    requires w.cancels[c].phase.Answered? && w.cancels[c].phase.result
    ensures w.cancels[c].phase.about.Some?
    ensures var r := w.cancels[c].phase.about.value;
            && r in w.handlers && w.handlers[r].id == w.cancels[c].id
            && r in w.shared.cancelled && Finished(w, r)
            && (forall id | id in w.shared.registered :: w.shared.registered[id] != r)
  {
    ReachableInv(max, w);
  }

  lemma OthersLeaveTheCall(max: nat, w: World, c: nat, step: Step)
    requires c in w.cancels && Next(max, w, step).Some? && (HandlerOf(step).Some? || step.Arrive? || step.Ask? || step.Drain?)
    ensures c in Next(max, w, step).value.cancels && Next(max, w, step).value.cancels[c] == w.cancels[c]
  {
  }

  lemma OwnAnswer(w: World, c: nat, step: Step)
    requires Indexed(w) && Channelled(w) && Cancels(w) && c in w.cancels && !w.cancels[c].phase.Answered? && CancelStep(w, c, step).Some?
    ensures var p := CancelStep(w, c, step).value.cancels[c].phase;
            && (p == Answered(false, None) <==> step.Lookup? && w.cancels[c].id !in w.shared.registered)
            && forall about :: p == Answered(false, about) ==> about == None
  {
    assert Honest(w, w.cancels[c]);
    var id := w.cancels[c].id;
    if id in w.shared.registered {
      assert ChannelMatches(w.shared.registered[id], Running, ChannelOf(w.shared, w.shared.registered[id]));
    }
  }

  /** A step makes a cancel call answer false exactly when it looks up an id that is not
      registered; the channel is never found closed. */
  lemma FalseMeansUnregistered(max: nat, w: World, c: nat, step: Step)
    requires max <= USIZE_MAX && Reachable(max, w) && c in w.cancels && !w.cancels[c].phase.Answered?
    requires Next(max, w, step).Some? && (HandlerOf(step).Some? || step.Arrive? || step.Ask? || step.Drain? || step.c == c)
    ensures Next(max, w, step).value.cancels[c].phase == Answered(false, None) <==>
              step == Lookup(c) && w.cancels[c].id !in w.shared.registered
    ensures forall about :: Next(max, w, step).value.cancels[c].phase == Answered(false, about) ==> about == None
  {
    hide CancelStep, HandlerStep, Indexed, Channelled, Cancels, Counted, Reachable;
    ReachableInv(max, w);
    if HandlerOf(step).Some? || step.Arrive? || step.Ask? || step.Drain? {
      OthersLeaveTheCall(max, w, c, step);
    } else {
      OwnAnswer(w, c, step);
    }
  }

  /** A waiting cancel call can go on as soon as its registration has finished. */
  lemma CancelIsWoken(max: nat, w: World, c: nat)
    requires max <= USIZE_MAX && Reachable(max, w) && c in w.cancels && w.cancels[c].phase.Changing?
    requires Finished(w, w.cancels[c].phase.registration)
    ensures Next(max, w, Changed(c)).Some?
    ensures Next(max, w, Changed(c)).value.cancels[c].phase.Looping?
    ensures var again := Next(max, w, Changed(c)).value;
            Next(max, again, Borrow(c)).Some? && Next(max, again, Borrow(c)).value.cancels[c].phase.Answered?
            && Next(max, again, Borrow(c)).value.cancels[c].phase.result
  {
    ReachableInv(max, w);
  }

  /** Once drained and with no reservation loop under way, slots are only given back. */
  lemma DrainedOnlyShrinks(max: nat, w: World, step: Step)
    requires max <= USIZE_MAX && Reachable(max, w) && Next(max, w, step).Some?
    requires w.shared.draining && forall t | t in w.handlers :: !w.handlers[t].phase.Loaded?
    ensures var w' := Next(max, w, step).value;
            && w'.shared.draining && w'.shared.active <= w.shared.active
            && forall t | t in w'.handlers :: !w'.handlers[t].phase.Loaded?
  {
    hide HandlerStep, CancelStep, Reachable;
    if HandlerOf(step).Some? {
      DrainedHandler(max, w, step.t, step);
    } else if !step.Arrive? && !step.Ask? && !step.Drain? {
      CancelsOnly(w, step.c, step);
    }
  }

  lemma CancelsOnly(w: World, c: nat, step: Step)
    requires c in w.cancels && CancelStep(w, c, step).Some?
    ensures var w' := CancelStep(w, c, step).value;
            w'.handlers == w.handlers && w'.shared.active == w.shared.active && w'.shared.draining == w.shared.draining
  {
  }

  lemma DrainedHandler(max: nat, w: World, t: nat, step: Step)
    requires max <= USIZE_MAX && Reachable(max, w) && t in w.handlers && HandlerOf(step) == Some(t) && HandlerStep(max, w, t, step).Some?
    requires w.shared.draining && !w.handlers[t].phase.Loaded?
    ensures var w' := HandlerStep(max, w, t, step).value;
            && w'.shared.draining && w'.shared.active <= w.shared.active
            && w' == Move(w, w'.shared, t, w'.handlers[t].phase) && !w'.handlers[t].phase.Loaded?
  {
    hide Reachable;
    if step.Release? { ReleaseNeverWraps(max, w, t); }
  }

  /** A worker drains exactly from the first order to drain on, whatever its handlers and
      its callers do. */
  lemma {:induction false} DrainingIsFinal(max: nat, w: World, steps: seq<Step>, w': World)
    requires Reaches(max, w, steps, w')
    ensures w'.shared.draining <==> w.shared.draining || exists i :: 0 <= i < |steps| && steps[i].Drain?
    decreases |steps|
  {
    hide HandlerStep, CancelStep;
    if steps != [] {
      var step, next := steps[0], Next(max, w, steps[0]).value;
      FlagKept(max, w, step);
      DrainingIsFinal(max, next, steps[1..], w');
      if i :| 0 <= i < |steps[1..]| && steps[1..][i].Drain? { assert steps[i + 1].Drain?; }
      if i :| 0 <= i < |steps| && steps[i].Drain? { assert i > 0 ==> steps[1..][i - 1].Drain?; }
    }
  }

  lemma FlagKept(max: nat, w: World, step: Step)
    requires Next(max, w, step).Some?
    ensures Next(max, w, step).value.shared.draining <==> w.shared.draining || step.Drain?
  {
  }

  /** When a handler leaves, gets a slot, or runs: it is turned away for the wrong model,
      a draining worker or a full one, and it runs unless its id is registered. */
  lemma AdmissionExact(max: nat, w: World, t: nat, step: Step)
    requires t in w.handlers && HandlerOf(step) == Some(t) && Next(max, w, step).Some?
    ensures var was, now := w.handlers[t].phase, Next(max, w, step).value.handlers[t].phase;
            && (now.Gone? <==>
                  || (was.Arrived? && (step.wrongModel || w.shared.draining))
                  || (was.Loaded? && was.seen >= max) || was.Leaving?)
            && (now.Reserved? <==> was.Loaded? && was.seen < max && step.failed == None && was.seen == w.shared.active)
            && (now.Running? <==> was.Reserved? && w.handlers[t].id !in w.shared.registered)
            && (now.Running? ==> Next(max, w, step).value.shared.registered == w.shared.registered[w.handlers[t].id := t])
  {
  }
}
