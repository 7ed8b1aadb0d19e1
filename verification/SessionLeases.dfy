/**
 Session leases: one holder per session, the others wait for a notification. A
 notification future remembers the notification count at its creation and is ready as
 soon as the count has moved on. Clients interleave step by step; a release first
 removes the session and then, separately, notifies.
 */
module SessionLeases {
  import opened Wrappers

  type Session(==,0,!new)

  datatype Phase =
    | Entering                 // about to create its notification future
    | Trying(epoch: nat)       // about to look at the set of sessions
    | Blocked(epoch: nat)      // saw its session taken
    | Holding
    | Notifying                // removed its session, about to notify
    | Gone

  datatype Client = Client(session: Session, patient: bool, phase: Phase)

  /** The sessions taken, and the number of notifications so far. */
  datatype Table = Table(active: set<Session>, epoch: nat)

  datatype World = World(table: Table, clients: map<nat, Client>)

  function Taken(table: Table, s: Session): Table { table.(active := table.active + {s}) }

  function Freed(table: Table, s: Session): Table { table.(active := table.active - {s}) }

  function Notified(table: Table): Table { table.(epoch := table.epoch + 1) }

  datatype Step =
    | Arrive(c: nat, session: Session, patient: bool)
    | Listen(c: nat)
    | TryInsert(c: nat)
    | Wake(c: nat)
    | TimeOut(c: nat)
    | Drop(c: nat)
    | Notify(c: nat)

  function To(w: World, c: nat, p: Phase): World
    requires c in w.clients
  {
    w.(clients := w.clients[c := w.clients[c].(phase := p)])
  }

  function ClientStep(w: World, c: nat, step: Step): Option<World>
    requires c in w.clients
  {
    var Client(session, patient, phase) := w.clients[c];
    match (step, phase)
    case (Listen(_), Entering) => Some(To(w, c, Trying(w.table.epoch)))
    case (TryInsert(_), Trying(epoch)) =>
      if session !in w.table.active then Some(To(w.(table := Taken(w.table, session)), c, Holding))
      else if !patient then Some(To(w, c, Gone))
      else Some(To(w, c, Blocked(epoch)))
    case (Wake(_), Blocked(epoch)) => if w.table.epoch != epoch then Some(To(w, c, Entering)) else None
    case (TimeOut(_), Blocked(_)) => Some(To(w, c, Gone))
    case (Drop(_), Holding) =>
      if session in w.table.active then Some(To(w.(table := Freed(w.table, session)), c, Notifying)) else Some(To(w, c, Gone))
    case (Notify(_), Notifying) => Some(To(w.(table := Notified(w.table)), c, Gone))
    case _ => None
  }

  function Next(w: World, step: Step): Option<World> {
    match step
    case Arrive(c, session, patient) =>
      if c in w.clients then None else Some(w.(clients := w.clients[c := Client(session, patient, Entering)]))
    case _ => if step.c in w.clients then ClientStep(w, step.c, step) else None
  }

  const Start := World(Table({}, 0), map[])

  // -------------------------------------------------------------- invariant

  ghost predicate Has(w: World, c: nat, s: Session, p: Phase) {
    c in w.clients && w.clients[c].session == s && w.clients[c].phase == p
  }

  /** A session is taken exactly while some client holds it. */
  ghost predicate HeldByOne(w: World) {
    && (forall s | s in w.table.active :: exists c :: Has(w, c, s, Holding))
    && (forall c, s :: Has(w, c, s, Holding) ==> s in w.table.active)
    && (forall c, d, s :: Has(w, c, s, Holding) && Has(w, d, s, Holding) ==> c == d)
  }

  /** What a blocked client may rely on. */
  ghost predicate Hopeful(w: World, s: Session, epoch: nat) {
    w.table.epoch > epoch || s in w.table.active || exists d :: Has(w, d, s, Notifying)
  }

  /** No wakeup is lost. */
  ghost predicate Attended(w: World) {
    && (forall c | c in w.clients && (w.clients[c].phase.Trying? || w.clients[c].phase.Blocked?) :: w.clients[c].phase.epoch <= w.table.epoch)
    && (forall c | c in w.clients && w.clients[c].phase.Blocked? :: Hopeful(w, w.clients[c].session, w.clients[c].phase.epoch))
  }

  lemma HeldByOneKept(w: World, step: Step)
    requires HeldByOne(w) && Next(w, step).Some?
    ensures HeldByOne(Next(w, step).value)
  {
    var w' := Next(w, step).value;
    forall s | s in w'.table.active ensures exists c :: Has(w', c, s, Holding) {
      if s in w.table.active {
        var c :| Has(w, c, s, Holding);
        assert Has(w', c, s, Holding);
      } else {
        assert Has(w', step.c, s, Holding);
      }
    }
    forall c, s | Has(w', c, s, Holding) ensures s in w'.table.active {
      if c != step.c { assert Has(w, c, s, Holding); }
      if step.Drop? { assert Has(w, step.c, w.clients[step.c].session, Holding); }
    }
    forall c, d, s | Has(w', c, s, Holding) && Has(w', d, s, Holding) ensures c == d {
      if c != step.c { assert Has(w, c, s, Holding); }
      if d != step.c { assert Has(w, d, s, Holding); }
    }
  }

  lemma StillHopeful(w: World, step: Step, s: Session, epoch: nat)
    requires HeldByOne(w) && Next(w, step).Some? && epoch <= w.table.epoch && Hopeful(w, s, epoch)
    ensures Hopeful(Next(w, step).value, s, epoch)
  {
    var w' := Next(w, step).value;
    if s !in w.table.active && w.table.epoch <= epoch {
      var d :| Has(w, d, s, Notifying);
      assert d != step.c ==> Has(w', d, s, Notifying);
    } else if s in w.table.active && s !in w'.table.active {
      assert Has(w', step.c, s, Notifying);
    }
  }

  lemma AttendedKept(w: World, step: Step)
    requires HeldByOne(w) && Attended(w) && Next(w, step).Some?
    ensures Attended(Next(w, step).value)
  {
    var w' := Next(w, step).value;
    forall c | c in w'.clients && w'.clients[c].phase.Blocked?
      ensures Hopeful(w', w'.clients[c].session, w'.clients[c].phase.epoch)
    {
      var epoch := w'.clients[c].phase.epoch;
      if c != step.c {
        StillHopeful(w, step, w.clients[c].session, epoch);
      }
    }
  }

  /** Any finite schedule. */
  ghost predicate Reaches(w: World, steps: seq<Step>, w': World)
    decreases |steps|
  {
    if steps == [] then w' == w
    else Next(w, steps[0]).Some? && Reaches(Next(w, steps[0]).value, steps[1..], w')
  }

  lemma {:induction false} RunsKeepInvariant(w: World, steps: seq<Step>, w': World)
    requires HeldByOne(w) && Attended(w) && Reaches(w, steps, w')
    ensures HeldByOne(w') && Attended(w')
    decreases |steps|
  {
    hide HeldByOne, Attended, Next;
    if steps != [] {
      HeldByOneKept(w, steps[0]);
      AttendedKept(w, steps[0]);
      RunsKeepInvariant(Next(w, steps[0]).value, steps[1..], w');
    }
  }

  // --------------------------------------------------------- main results

  /** Mutual exclusion: two live leases are never for the same session, and a session
      counts as taken exactly while there is one. */
  lemma MutualExclusion(steps: seq<Step>, w: World)
    requires Reaches(Start, steps, w)
    ensures forall c, d | c in w.clients && d in w.clients && w.clients[c].phase.Holding? && w.clients[d].phase.Holding?
                            && w.clients[c].session == w.clients[d].session :: c == d
    ensures forall s :: s in w.table.active <==> exists c :: Has(w, c, s, Holding)
  {
    RunsKeepInvariant(Start, steps, w);
    forall c, d | c in w.clients && d in w.clients && w.clients[c].phase.Holding? && w.clients[d].phase.Holding?
                    && w.clients[c].session == w.clients[d].session ensures c == d
    {
      assert Has(w, c, w.clients[c].session, Holding) && Has(w, d, w.clients[c].session, Holding);
    }
  }

  /** No lost wakeup: a blocked client can be woken, or its session is held, or a
      releaser of its session is about to notify. */
  lemma NoLostWakeup(steps: seq<Step>, w: World, c: nat)
    requires Reaches(Start, steps, w) && c in w.clients && w.clients[c].phase.Blocked?
    ensures var s := w.clients[c].session;
            Next(w, Wake(c)).Some? || (exists d :: Has(w, d, s, Holding)) || (exists d :: Has(w, d, s, Notifying))
  {
    RunsKeepInvariant(Start, steps, w);
    var s := w.clients[c].session;
    if w.table.epoch <= w.clients[c].phase.epoch && s in w.table.active {
      var d :| Has(w, d, s, Holding);
    }
  }

  /** The removal and the notification of a release wake every client that was blocked. */
  lemma ReleaseWakesWaiters(steps: seq<Step>, w: World, d: nat, c: nat)
    requires Reaches(Start, steps, w) && c in w.clients && w.clients[c].phase.Blocked?
    requires d in w.clients && w.clients[d].phase.Notifying?
    ensures Next(w, Notify(d)).Some? && Next(Next(w, Notify(d)).value, Wake(c)).Some?
  {
    RunsKeepInvariant(Start, steps, w);
  }

  // ------------------------------------------------------------- the object

  /** What the others made of the table while this client waited, and whether its time
      is up then. */
  datatype Turn = Turn(after: Table, timedOut: bool)

  /** How far a client got: the table it leaves, its phase, and the turns it took. */
  datatype Attempt = Attempt(table: Table, phase: Phase, used: nat)

  /** One look at the table and, if need be, the waits after it. `late` tells that the
      time is already up. */
  function Acquiring(table: Table, s: Session, patient: bool, turns: seq<Turn>, late: bool): Attempt
    decreases |turns|, 1
  {
    if s !in table.active then Attempt(Taken(table, s), Holding, 0)
    else if !patient || late then Attempt(table, Gone, 0)
    else Awaiting(table, s, turns)
  }

  function Awaiting(table: Table, s: Session, turns: seq<Turn>): Attempt
    decreases |turns|, 0
  {
    if turns == [] then Attempt(table, Blocked(table.epoch), 0)
    else
      var now := turns[0].after;
      var rest :=
        if now.epoch != table.epoch then Acquiring(now, s, true, turns[1..], turns[0].timedOut)
        else if turns[0].timedOut then Attempt(now, Gone, 0)
        else Awaiting(now, s, turns[1..]);
      rest.(used := rest.used + 1)
  }

  /** At every notification so far the session was taken again. */
  ghost predicate InVain(s: Session, epoch: nat, turns: seq<Turn>, used: nat)
    requires used <= |turns|
  {
    forall i | 0 <= i < used :: TakenAt(s, epoch, turns, i)
  }

  predicate TakenAt(s: Session, epoch: nat, turns: seq<Turn>, i: nat)
    requires i < |turns|
  {
    turns[i].after.epoch != (if i == 0 then epoch else turns[i - 1].after.epoch) ==> s in turns[i].after.active
  }

  function Left(table: Table, turns: seq<Turn>, used: nat): Table
    requires used <= |turns|
  {
    if used == 0 then table else turns[used - 1].after
  }

  /** What a wait means: a lease is taken only from a table where the session is free, a
      client that leaves later than at once leaves at its timeout, and one without a
      lease saw the session taken at every notification. */
  ghost predicate Waits(table: Table, s: Session, turns: seq<Turn>, a: Attempt) {
    && a.used <= |turns| && (a.phase.Holding? || a.phase.Gone? || (a.phase.Blocked? && a.used == |turns|))
    && (if a.phase.Holding? then s !in Left(table, turns, a.used).active && a.table == Taken(Left(table, turns, a.used), s)
        else a.table == Left(table, turns, a.used) && InVain(s, table.epoch, turns, a.used))
    && (a.phase.Gone? && a.used > 0 ==> turns[a.used - 1].timedOut)
    && (forall i | 0 <= i < a.used - 1 :: !turns[i].timedOut)
  }

  lemma {:induction false} AcquiringWaits(table: Table, s: Session, patient: bool, turns: seq<Turn>, late: bool)
    ensures var a := Acquiring(table, s, patient, turns, late);
            && Waits(table, s, turns, a)
            && (s !in table.active ==> a.phase.Holding?)
            && (s !in table.active || !patient || late ==> a.used == 0)
            && (a.used == 0 ==> (a.phase.Holding? ==> s !in table.active) && (a.phase.Gone? ==> s in table.active && (!patient || late)))
    decreases |turns|, 1
  {
    if s in table.active && patient && !late { AwaitingWaits(table, s, turns); }
  }

  lemma {:induction false} AwaitingWaits(table: Table, s: Session, turns: seq<Turn>)
    ensures var a := Awaiting(table, s, turns);
            Waits(table, s, turns, a) && (a.used == 0 ==> a.phase.Blocked?)
    decreases |turns|, 0
  {
    if turns != [] {
      var Turn(now, late) := turns[0];
      if now.epoch != table.epoch {
        AcquiringWaits(now, s, true, turns[1..], late);
        WaitsLonger(table, s, turns, Acquiring(now, s, true, turns[1..], late));
      } else if !late {
        AwaitingWaits(now, s, turns[1..]);
        WaitsLonger(table, s, turns, Awaiting(now, s, turns[1..]));
      }
    }
  }

  lemma WaitsLonger(table: Table, s: Session, turns: seq<Turn>, rest: Attempt)
    requires turns != [] && Waits(turns[0].after, s, turns[1..], rest)
    requires rest.used > 0 ==> !turns[0].timedOut
    requires rest.used == 0 && rest.phase.Gone? ==> turns[0].timedOut
    requires !rest.phase.Holding? ==> turns[0].after.epoch == table.epoch || s in turns[0].after.active
    ensures Waits(table, s, turns, rest.(used := rest.used + 1))
  {
    var tail := turns[1..];
    assert Left(table, turns, rest.used + 1) == Left(turns[0].after, tail, rest.used);
    if !rest.phase.Holding? {
      forall i | 0 <= i < rest.used + 1 ensures TakenAt(s, table.epoch, turns, i) {
        if i > 0 { assert TakenAt(s, turns[0].after.epoch, tail, i - 1); }
      }
    }
    forall i | 0 <= i < rest.used ensures !turns[i].timedOut {
      if i > 0 { assert !tail[i - 1].timedOut; }
    }
  }

  /** One turn of a wait. */
  lemma AwaitingTurn(all: Attempt, table: Table, s: Session, turns: seq<Turn>, used: nat)
    requires used < |turns| && Continues(all, Awaiting(table, s, turns[used..]), used)
    ensures var Turn(now, late) := turns[used];
            if now.epoch != table.epoch then Continues(all, Acquiring(now, s, true, turns[used + 1..], late), used + 1)
            else if late then Continues(all, Attempt(now, Gone, 0), used + 1)
            else Continues(all, Awaiting(now, s, turns[used + 1..]), used + 1)
  {
    assert turns[used..][0] == turns[used] && turns[used..][1..] == turns[used + 1..];
  }

  class Leases {
    var active: set<Session>
    var epoch: nat

    constructor ()
      ensures View() == Start.table
    {
      active, epoch := {}, 0;
    }

    function View(): Table
      reads this
    {
      Table(active, epoch)
    }

    /** Waits for the lease of a session through the given turns of the others. It is
        given only if the session is free at that moment, and taking it is all that
        changes; a wait that ends without it ends by a timeout. */
    method Acquire(session: Option<Session>, patient: bool, turns: seq<Turn>)
      returns (lease: Option<Session>, decided: bool, used: nat)
      modifies this
      ensures session.None? ==> lease.None? && decided && used == 0 && View() == old(View())
      ensures session.Some? ==>
                var a := Acquiring(old(View()), session.value, patient, turns, false);
                && View() == a.table && used == a.used
                && (lease.Some? <==> a.phase.Holding?) && (decided <==> !a.phase.Blocked?)
      ensures used <= |turns| && (!decided ==> used == |turns| && lease.None?)
      ensures var left := if used == 0 then old(View()) else turns[used - 1].after;
              && (lease.None? ==> View() == left)
              && (lease.Some? ==> lease == session && lease.value !in left.active && View() == Taken(left, lease.value))
      ensures session.Some? && session.value !in old(active) ==> lease == session
      ensures session.None? || (!patient && session.value in old(active)) ==> lease.None? && decided && used == 0
      ensures decided && lease.None? && session.Some? && patient ==> used > 0 && turns[used - 1].timedOut
      ensures forall i | 0 <= i < used - 1 :: !turns[i].timedOut
      ensures session.Some? && lease.None? ==> InVain(session.value, old(epoch), turns, used)
    {
      lease, decided, used := None, true, 0;
      if session.None? {
        return;
      }
      var s := session.value;
      ghost var all := Acquiring(View(), s, patient, turns, false);
      AcquiringWaits(View(), s, patient, turns, false);
      assert turns[0..] == turns;
      hide Awaiting, InVain;
      var late := false;
      while true
        invariant used <= |turns| && (used > 0 ==> patient)
        invariant Continues(all, Acquiring(View(), s, patient, turns[used..], late), used)
        decreases |turns| - used
      {
        var listened := epoch;
        if s !in active {
          active := active + {s};
          return session, true, used;
        }
        if !patient || late {
          return None, true, used;
        }
        ghost var before := used;
        while epoch == listened
          invariant before <= used <= |turns|
          invariant if epoch == listened then Continues(all, Awaiting(View(), s, turns[used..]), used)
                    else used > before && Continues(all, Acquiring(View(), s, true, turns[used..], turns[used - 1].timedOut), used)
          decreases |turns| - used
        {
          if used == |turns| {
            return None, false, used;
          }
          AwaitingTurn(all, View(), s, turns, used);
          active, epoch := turns[used].after.active, turns[used].after.epoch;
          used := used + 1;
          if epoch == listened && turns[used - 1].timedOut {
            return None, true, used;
          }
        }
        late := turns[used - 1].timedOut;
      }
    }

    /** The first half of dropping a lease; says whether to notify. */
    method Remove(session: Session) returns (held: bool)
      modifies this`active
      ensures View() == Freed(old(View()), session) && (held <==> session in old(active))
    {
      held := session in active;
      active := active - {session};
    }

    method NotifyWaiters()
      modifies this`epoch
      ensures View() == Notified(old(View()))
    {
      epoch := epoch + 1;
    }
  }

  /** The whole is what is left to do, after some turns. */
  ghost predicate Continues(all: Attempt, rest: Attempt, used: nat) {
    all == rest.(used := used + rest.used)
  }

  // ------------------------------------------- the object is in the protocol

  /** The turns are runs of other clients: from each point where client `c` is blocked
      they lead to the table of the next turn, leaving the client where it is. */
  ghost predicate Realised(w: World, c: nat, turns: seq<Turn>)
    requires c in w.clients
    decreases |turns|
  {
    turns == [] || exists steps, v ::
      && Reaches(w, steps, v) && c in v.clients && v.clients[c] == w.clients[c] && v.table == turns[0].after
      && Realised(To(v, c, Blocked(v.table.epoch)), c, turns[1..])
  }

  /** Some run leads from `w` to the table and phase of an attempt of client `c`. */
  ghost predicate RunsTo(w: World, c: nat, a: Attempt) {
    exists steps, v :: Reaches(w, steps, v) && v.table == a.table && c in v.clients && v.clients[c].phase == a.phase
  }

  lemma {:induction false} ReachesConcat(a: World, first: seq<Step>, b: World, second: seq<Step>, c: World)
    requires Reaches(a, first, b) && Reaches(b, second, c)
    ensures Reaches(a, first + second, c)
    decreases |first|
  {
    hide Next;
    if first == [] {
      assert first + second == second;
    } else {
      assert (first + second)[1..] == first[1..] + second;
      ReachesConcat(Next(a, first[0]).value, first[1..], b, second, c);
    }
  }

  lemma After(w: World, steps: seq<Step>, v: World, c: nat, a: Attempt)
    requires Reaches(w, steps, v) && RunsTo(v, c, a)
    ensures RunsTo(w, c, a)
  {
    hide Reaches;
    var more, u :| Reaches(v, more, u) && u.table == a.table && c in u.clients && u.clients[c].phase == a.phase;
    ReachesConcat(w, steps, v, more, u);
  }

  lemma Stay(w: World, c: nat, a: Attempt)
    requires w.table == a.table && c in w.clients && w.clients[c].phase == a.phase
    ensures RunsTo(w, c, a)
  {
    assert Reaches(w, [], w);
  }

  lemma OneStep(w: World, step: Step, v: World)
    requires Next(w, step) == Some(v)
    ensures Reaches(w, [step], v)
  {
    hide Next;
    assert [step][1..] == [];
    assert Reaches(v, [], v);
  }

  lemma UsedIsCounted(w: World, c: nat, a: Attempt, n: nat)
    requires RunsTo(w, c, a)
    ensures RunsTo(w, c, a.(used := n))
  {
    var steps, v :| Reaches(w, steps, v) && v.table == a.table && c in v.clients && v.clients[c].phase == a.phase;
  }

  /** A client about to listen: it listens, looks, and takes its session or leaves or
      blocks. */
  lemma {:induction false} AcquiringIsARun(w: World, c: nat, turns: seq<Turn>, late: bool)
    requires c in w.clients && w.clients[c].phase.Entering? && (late ==> w.clients[c].patient)
    requires Realised(To(w, c, Blocked(w.table.epoch)), c, turns)
    ensures RunsTo(w, c, Acquiring(w.table, w.clients[c].session, w.clients[c].patient, turns, late))
    decreases |turns|, 1
  {
    var Client(s, patient, _) := w.clients[c];
    var listening := To(w, c, Trying(w.table.epoch));
    var looked := Next(listening, TryInsert(c)).value;
    var a := Acquiring(w.table, s, patient, turns, late);
    OneStep(w, Listen(c), listening);
    OneStep(listening, TryInsert(c), looked);
    if s !in w.table.active || !patient {
      Stay(looked, c, a);
    } else {
      assert looked == To(w, c, Blocked(w.table.epoch));
      if late {
        OneStep(looked, TimeOut(c), To(looked, c, Gone));
        Stay(To(looked, c, Gone), c, a);
        After(looked, [TimeOut(c)], To(looked, c, Gone), c, a);
      } else {
        AwaitingIsARun(looked, c, turns);
      }
    }
    After(listening, [TryInsert(c)], looked, c, a);
    After(w, [Listen(c)], listening, c, a);
  }

  /** A blocked client: it is woken by a notification, or times out, or waits on. */
  lemma {:induction false} AwaitingIsARun(w: World, c: nat, turns: seq<Turn>)
    requires c in w.clients && w.clients[c].phase == Blocked(w.table.epoch) && w.clients[c].patient
    requires Realised(w, c, turns)
    ensures RunsTo(w, c, Awaiting(w.table, w.clients[c].session, turns))
    decreases |turns|, 0
  {
    var s := w.clients[c].session;
    var a := Awaiting(w.table, s, turns);
    if turns == [] {
      Stay(w, c, a);
    } else {
      var steps, v :| && Reaches(w, steps, v) && c in v.clients && v.clients[c] == w.clients[c] && v.table == turns[0].after
                      && Realised(To(v, c, Blocked(v.table.epoch)), c, turns[1..]);
      if v.table.epoch != w.table.epoch {
        var woken := To(v, c, Entering);
        OneStep(v, Wake(c), woken);
        assert To(woken, c, Blocked(v.table.epoch)) == To(v, c, Blocked(v.table.epoch));
        AcquiringIsARun(woken, c, turns[1..], turns[0].timedOut);
        var b := Acquiring(v.table, s, true, turns[1..], turns[0].timedOut);
        After(v, [Wake(c)], woken, c, b);
        UsedIsCounted(v, c, b, b.used + 1);
      } else if turns[0].timedOut {
        var gone := To(v, c, Gone);
        OneStep(v, TimeOut(c), gone);
        Stay(gone, c, a);
        After(v, [TimeOut(c)], gone, c, a);
      } else {
        assert To(v, c, Blocked(v.table.epoch)) == v;
        AwaitingIsARun(v, c, turns[1..]);
        var b := Awaiting(v.table, s, turns[1..]);
        UsedIsCounted(v, c, b, b.used + 1);
      }
      After(w, steps, v, c, a);
    }
  }

  /** Dropping a lease is the step of the protocol, and so is the notification. */
  lemma DroppingIsARun(w: World, c: nat)
    requires c in w.clients && w.clients[c].phase.Holding?
    ensures var s := w.clients[c].session;
            && Next(w, Drop(c)).Some? && Next(w, Drop(c)).value.table == Freed(w.table, s)
            && (Next(w, Drop(c)).value.clients[c].phase.Notifying? <==> s in w.table.active)
            && (s in w.table.active ==>
                  && Next(Next(w, Drop(c)).value, Notify(c)).Some?
                  && Next(Next(w, Drop(c)).value, Notify(c)).value.table == Notified(Freed(w.table, s)))
  {
    var s := w.clients[c].session;
    if s !in w.table.active { assert w.table.active - {s} == w.table.active; }
  }
}
