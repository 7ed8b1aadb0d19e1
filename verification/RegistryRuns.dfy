/**
 Runs of the registry under concurrent requests. A selection holds the lock of the
 worker table from its choice to its reservation; what can happen meanwhile is the
 second half of some `mark_offline`, which only needs the bindings. Tasks give back
 their reservation with one release.
 */
module RegistryRuns {
  import opened Wrappers
  import opened Clock
  import opened Scheduler
  import opened Registry
  import WorkerAdmission
  import WorkerRuntime

  datatype Selection = Selection(task: nat, model: string, session: Option<Session>, now: nat, id: string)

  /** The registry, the selection under way, the reservations tasks hold, the calls of
      `mark_offline` whose second half is still to come, and the offline workers whose
      second half never came since their bindings were last looked after. */
  datatype World = World(table: Table, lock: Option<Selection>, reservations: map<nat, string>, pending: map<nat, string>,
                         orphaned: set<string>)

  datatype Step =
    | Register(report: Report, address: string, now: nat)
    | Heartbeat(id: string, report: Report, now: nat)
    | Select(task: nat, model: string, session: Option<Session>, now: nat)
    | Commit
    | Release(task: nat)
    | MarkOffline(call: nat, id: string)
    | DropBindings(call: nat)
    | Abandon(call: nat)
    | Expire(now: nat, timeout: nat)

  predicate IsOffline(workers: Workers, id: string) { id in workers && workers[id].state.Offline? }

  /** The world after a step, if the step is enabled. */
  ghost function Next(w: World, step: Step): Option<World> {
    var Table(workers, affinity) := w.table;
    match step
    case Commit =>
      if w.lock.None? then None
      else
        var s := w.lock.value;
        Some(w.(table := Table(Updated(workers, s.id, Reserved), Bound(affinity, s.model, s.session, s.id, s.now)),
                lock := None, reservations := w.reservations[s.task := s.id]))
    case DropBindings(call) =>
      if call !in w.pending then None
      else Some(w.(table := w.table.(affinity := Unbound(affinity, w.pending[call])), pending := w.pending - {call},
                   orphaned := w.orphaned - {w.pending[call]}))
    case Abandon(call) =>
      if call !in w.pending then None
      else Some(w.(pending := w.pending - {call}, orphaned := w.orphaned + (if IsOffline(workers, w.pending[call]) then {w.pending[call]} else {})))
    case Select(task, model, session, now) =>
      if w.lock.Some? || task in w.reservations then None
      else
        (match Chosen(w.table, model, session, now)
         case None => Some(w)
         case Some(id) => Some(w.(lock := Some(Selection(task, model, session, now, id)))))
    case Register(r, address, now) =>
      if w.lock.Some? then None else Some(w.(table := w.table.(workers := Registered(workers, r, address, now)), orphaned := w.orphaned - {r.nodeId}))
    case Heartbeat(id, r, now) =>
      if w.lock.Some? then None else Some(w.(table := w.table.(workers := Beaten(workers, id, r, now)), orphaned := w.orphaned - {id}))
    case Release(task) =>
      if w.lock.Some? || task !in w.reservations then None
      else Some(w.(table := w.table.(workers := Updated(workers, w.reservations[task], Released)), reservations := w.reservations - {task}))
    case MarkOffline(call, id) =>
      if w.lock.Some? || call in w.pending then None
      else Some(w.(table := w.table.(workers := Updated(workers, id, TakenOffline)), pending := w.pending[call := id]))
    case Expire(now, timeout) =>
      if w.lock.Some? then None else Some(w.(table := Expired(w.table, now, timeout), orphaned := {}))
  }

  /** What a worker can report about itself. */
  predicate Consistent(r: Report) {
    r.active <= r.max && (r.state.Draining? || r.state == (if r.active >= r.max then Busy else Available))
  }

  /** What workers report is consistent: the count as it was at some moment of a run of
      the worker, with the draining flag as it was at another. */
  lemma WorkersReportConsistently(max: nat, counted: WorkerAdmission.World, flagged: WorkerAdmission.World,
                                  nodeId: string, models: seq<ModelCapability>, acceleration: Acceleration)
    requires max <= USIZE_MAX && WorkerAdmission.Reachable(max, counted) && WorkerAdmission.Reachable(max, flagged)
    ensures var count := counted.shared.active;
            Consistent(Report(nodeId, models, count, max, WorkerRuntime.Availability(flagged.shared.draining, count, max), acceleration))
  {
    hide WorkerAdmission.Reachable;
    WorkerAdmission.ReachableInv(max, counted);
  }

  predicate Honest(step: Step) {
    match step
    case Register(r, _, _) => Consistent(r)
    case Heartbeat(_, r, _) => Consistent(r)
    case _ => true
  }

  /** Any finite schedule with consistent reports. */
  ghost predicate Reaches(w: World, steps: seq<Step>, w': World)
    decreases |steps|
  {
    if steps == [] then w' == w
    else Honest(steps[0]) && Next(w, steps[0]).Some? && Reaches(Next(w, steps[0]).value, steps[1..], w')
  }

  const Start := World(Table(map[], map[]), None, map[], map[], {})

  // -------------------------------------------------------------- invariant

  /** Within its limit, and busy exactly when at it, unless it takes no requests. */
  predicate Sound(w: WorkerRecord) {
    w.active <= w.max && (w.state.Available? || w.state.Busy? ==> (w.state.Busy? <==> w.active >= w.max))
  }

  ghost predicate AllSound(workers: Workers) {
    Keyed(workers) && forall id | id in workers :: Sound(workers[id])
  }

  ghost predicate IsPending(w: World, id: string) {
    exists call :: call in w.pending && w.pending[call] == id
  }

  /** A binding names a known worker, which is offline only while some `mark_offline` of
      it has yet to drop the bindings, or was abandoned before it did. */
  ghost predicate BindingsFollow(w: World) {
    && (forall key | key in w.table.affinity :: w.table.affinity[key].worker in w.table.workers && Excused(w, w.table.affinity[key].worker))
    && (forall id | id in w.orphaned :: IsOffline(w.table.workers, id))
  }

  ghost predicate Excused(w: World, id: string) {
    IsOffline(w.table.workers, id) ==> IsPending(w, id) || id in w.orphaned
  }

  /** The selected worker stays eligible until its reservation, for a task without one. */
  ghost predicate LockIsGood(w: World) {
    w.lock.Some? ==>
      && w.lock.value.task !in w.reservations && w.lock.value.id in w.table.workers
      && Eligible(w.table.workers[w.lock.value.id], w.lock.value.model)
  }

  ghost predicate Inv(w: World) {
    AllSound(w.table.workers) && BindingsFollow(w) && LockIsGood(w)
  }

  lemma SoundKept(w: World, step: Step)
    requires AllSound(w.table.workers) && LockIsGood(w) && Honest(step) && Next(w, step).Some?
    ensures AllSound(Next(w, step).value.table.workers)
  {
    hide Chosen, Bound, Unbound, ExpireBindings;
  }

  lemma LockKept(w: World, step: Step)
    requires AllSound(w.table.workers) && LockIsGood(w) && Next(w, step).Some?
    ensures LockIsGood(Next(w, step).value)
  {
    hide Eligible, Bound, Unbound, ExpireBindings, ExpireWorkers, Chosen;
    if step.Select? { SelectionExact(w.table, step.model, step.session, step.now); }
  }

  lemma OrphansKept(w: World, step: Step)
    requires Inv(w) && Honest(step) && Next(w, step).Some?
    ensures forall id | id in Next(w, step).value.orphaned :: IsOffline(Next(w, step).value.table.workers, id)
  {
    hide Chosen, Sound, Excused, Bound, Unbound, ExpireBindings;
  }

  lemma BindingsKept(w: World, step: Step)
    requires Inv(w) && Honest(step) && Next(w, step).Some?
    ensures BindingsFollow(Next(w, step).value)
  {
    OrphansKept(w, step);
    PendingStays(w, Next(w, step).value, step);
    if step.Commit? { CommitBinds(w); } else { OthersBind(w, step); }
  }

  lemma CommitBinds(w: World)
    requires Inv(w) && Next(w, Commit).Some?
    ensures var w' := Next(w, Commit).value;
            forall key | key in w'.table.affinity :: w'.table.affinity[key].worker in w'.table.workers && Excused(w', w'.table.affinity[key].worker)
  {
    hide Sound;
    PendingStays(w, Next(w, Commit).value, Commit);
  }

  lemma OthersBind(w: World, step: Step)
    requires Inv(w) && Honest(step) && !step.Commit? && Next(w, step).Some?
    ensures var w' := Next(w, step).value;
            forall key | key in w'.table.affinity :: w'.table.affinity[key].worker in w'.table.workers && Excused(w', w'.table.affinity[key].worker)
  {
    hide Chosen, Sound, Eligible;
    PendingStays(w, Next(w, step).value, step);
  }

  lemma PendingStays(w: World, w': World, step: Step)
    requires Next(w, step) == Some(w')
    ensures forall id | IsPending(w, id) ::
              || IsPending(w', id)
              || ((step.DropBindings? || step.Abandon?) && step.call in w.pending && w.pending[step.call] == id)
    ensures step.MarkOffline? ==> IsPending(w', step.id)
  {
    hide Chosen, Bound, Unbound, ExpireBindings, ExpireWorkers, Updated, Registered, Beaten;
    forall id | IsPending(w, id)
      ensures || IsPending(w', id)
              || ((step.DropBindings? || step.Abandon?) && step.call in w.pending && w.pending[step.call] == id)
    {
      var call :| call in w.pending && w.pending[call] == id;
      assert ((step.DropBindings? || step.Abandon?) && step.call == call) || (call in w'.pending && w'.pending[call] == id);
    }
    if step.MarkOffline? { assert step.call in w'.pending && w'.pending[step.call] == step.id; }
  }

  lemma StepKeeps(w: World, step: Step)
    requires Inv(w) && Honest(step) && Next(w, step).Some?
    ensures Inv(Next(w, step).value)
  {
    hide Next, AllSound, BindingsFollow, LockIsGood;
    SoundKept(w, step);
    LockKept(w, step);
    BindingsKept(w, step);
  }

  /** In every reachable state: records sit under their own ids, counts are within the
      limits, busy means full, and bindings lead to workers that are known and, but for
      an unfinished or abandoned `mark_offline`, not offline. */
  lemma {:induction false} RunsKeepInvariant(w: World, steps: seq<Step>, w': World)
    requires Inv(w) && Reaches(w, steps, w')
    ensures Inv(w')
    decreases |steps|
  {
    hide Inv, Next;
    if steps != [] {
      StepKeeps(w, steps[0]);
      RunsKeepInvariant(Next(w, steps[0]).value, steps[1..], w');
    }
  }

  lemma ReachableInv(steps: seq<Step>, w: World)
    requires Reaches(Start, steps, w)
    ensures Inv(w)
  {
    RunsKeepInvariant(Start, steps, w);
  }

  // ------------------------------------------------ bindings that dangle

  /** The session of `key` is bound to a worker that is offline. */
  predicate Dangles(w: World, key: (Session, string), id: string) {
    key in w.table.affinity && w.table.affinity[key].worker == id && IsOffline(w.table.workers, id)
  }

  /** What ends a dangling binding. */
  predicate Ends(w: World, step: Step, key: (Session, string), id: string) {
    match step
    case Register(r, _, _) => r.nodeId == id
    case Heartbeat(worker, _, _) => worker == id
    case Expire(_, _) => true
    case DropBindings(call) => call in w.pending && w.pending[call] == id
    case Commit => w.lock.Some? && w.lock.value.session == Some(key.0) && w.lock.value.model == key.1
    case _ => false
  }

  /** A binding to an offline worker stays until exactly one of these: a report of the
      worker, an expiry sweep, the second half of some `mark_offline` of it, or another
      worker for the session. */
  lemma DanglingEndsExactly(w: World, step: Step, key: (Session, string), id: string)
    requires Inv(w) && Honest(step) && Next(w, step).Some? && Dangles(w, key, id)
    ensures Dangles(Next(w, step).value, key, id) <==> !Ends(w, step, key, id)
  {
    hide Chosen, Sound;
  }

  /** It needs an unfinished `mark_offline`, or an abandoned one. */
  lemma DanglingIsExcused(steps: seq<Step>, w: World, key: (Session, string), id: string)
    requires Reaches(Start, steps, w) && Dangles(w, key, id)
    ensures IsPending(w, id) || id in w.orphaned
  {
    hide Reaches;
    ReachableInv(steps, w);
    assert Excused(w, w.table.affinity[key].worker);
  }

  // --------------------------------------------- out until the next report

  /** The step reports about worker `id`. */
  predicate Reports(step: Step, id: string) {
    match step
    case Register(r, _, _) => r.nodeId == id
    case Heartbeat(worker, _, _) => worker == id
    case _ => false
  }

  predicate Silent(steps: seq<Step>, id: string) {
    forall i | 0 <= i < |steps| :: !Reports(steps[i], id)
  }

  /** The worker is offline or draining and not about to be reserved. */
  predicate Out(w: World, id: string) {
    && id in w.table.workers && (w.table.workers[id].state.Offline? || w.table.workers[id].state.Draining?)
    && (w.lock.Some? ==> w.lock.value.id != id)
  }

  ghost function Outstanding(w: World, id: string): set<nat> {
    set task | task in w.reservations && w.reservations[task] == id
  }

  lemma OutStays(w: World, step: Step, id: string)
    requires Keyed(w.table.workers) && Out(w, id) && !Reports(step, id) && Next(w, step).Some?
    ensures Out(Next(w, step).value, id)
    ensures Outstanding(Next(w, step).value, id) <= Outstanding(w, id)
  {
    hide Chosen, Bound, Unbound, ExpireBindings;
    if step.Select? { SelectionExact(w.table, step.model, step.session, step.now); }
  }

  /** A worker that went offline or draining is not selected before its next report:
      along any run without one it stays out and gets no new reservation. */
  lemma {:induction false} OutUntilReport(w: World, steps: seq<Step>, id: string, w': World)
    requires Inv(w) && Out(w, id) && Silent(steps, id) && Reaches(w, steps, w')
    ensures Out(w', id) && Outstanding(w', id) <= Outstanding(w, id)
    decreases |steps|
  {
    hide Next, Out, BindingsFollow, LockIsGood;
    if steps != [] {
      StepKeeps(w, steps[0]);
      OutStays(w, steps[0], id);
      OutUntilReport(Next(w, steps[0]).value, steps[1..], id, w');
    }
  }

  // ------------------------------------------------- reservation accounting

  /** How much more the registry counts than the coordinator's tasks hold. */
  ghost function Surplus(w: World, id: string): int
    requires id in w.table.workers
  {
    w.table.workers[id].active - |Outstanding(w, id)|
  }

  /** The release finds a count of zero and leaves it there. */
  predicate Clamps(w: World, step: Step, id: string) {
    && step.Release? && step.task in w.reservations && w.reservations[step.task] == id
    && id in w.table.workers && w.table.workers[id].active == 0
  }

  lemma TasksMove(w: World, w': World, task: nat, id: string)
    ensures w'.reservations == w.reservations[task := id] && task !in w.reservations ==>
              |Outstanding(w', id)| == |Outstanding(w, id)| + 1
    ensures w'.reservations == w.reservations - {task} && task in w.reservations && w.reservations[task] == id ==>
              |Outstanding(w', id)| == |Outstanding(w, id)| - 1
  {
    if w'.reservations == w.reservations[task := id] && task !in w.reservations {
      assert Outstanding(w', id) == Outstanding(w, id) + {task};
    }
    if w'.reservations == w.reservations - {task} && task in w.reservations && w.reservations[task] == id {
      assert Outstanding(w', id) == Outstanding(w, id) - {task};
    }
  }

  lemma SurplusStep(w: World, step: Step, id: string)
    requires Keyed(w.table.workers) && LockIsGood(w) && id in w.table.workers && !Reports(step, id) && Next(w, step).Some?
    ensures var w' := Next(w, step).value;
            && id in w'.table.workers
            && Surplus(w', id) == Surplus(w, id) + (if Clamps(w, step, id) then 1 else 0)
    ensures Clamps(w, step, id) ==> Surplus(w, id) < 0
  {
    hide Chosen, Bound, Unbound, ExpireBindings;
    var w' := Next(w, step).value;
    if step.Select? { SelectionExact(w.table, step.model, step.session, step.now); }
    if step.Commit? { TasksMove(w, w', w.lock.value.task, w.lock.value.id); }
    if step.Release? {
      TasksMove(w, w', step.task, w.reservations[step.task]);
      assert step.task in Outstanding(w, w.reservations[step.task]);
    }
    if (step.Commit? ==> w.lock.value.id != id) && (step.Release? ==> w.reservations[step.task] != id) {
      SameTasks(w, w', step, id);
    }
  }

  lemma SameTasks(w: World, w': World, step: Step, id: string)
    requires Next(w, step) == Some(w') && LockIsGood(w)
    requires step.Commit? ==> w.lock.value.id != id
    requires step.Release? ==> w.reservations[step.task] != id
    ensures Outstanding(w', id) == Outstanding(w, id)
  {
    hide Chosen;
  }

  /** Some release along the run finds a count of zero. */
  ghost predicate ClampsIn(w: World, steps: seq<Step>, id: string)
    decreases |steps|
  {
    && steps != [] && Next(w, steps[0]).Some?
    && (Clamps(w, steps[0], id) || ClampsIn(Next(w, steps[0]).value, steps[1..], id))
  }

  /** Between two reports of a worker the registry counts as many requests as its tasks
      hold, plus a constant, unless a release is clamped, and that happens only if the
      report had counted fewer requests than the tasks held. */
  lemma {:induction false} SurplusConstant(w: World, steps: seq<Step>, id: string, w': World)
    requires Inv(w) && id in w.table.workers && Silent(steps, id) && Reaches(w, steps, w')
    ensures id in w'.table.workers && Surplus(w', id) >= Surplus(w, id)
    ensures Surplus(w', id) == Surplus(w, id) <==> !ClampsIn(w, steps, id)
    ensures ClampsIn(w, steps, id) ==> Surplus(w, id) < 0
    decreases |steps|
  {
    hide Next, AllSound, BindingsFollow, LockIsGood, Clamps, Surplus;
    if steps != [] {
      StepKeeps(w, steps[0]);
      assert Keyed(w.table.workers) by { KeyedInv(w); }
      SurplusStep(w, steps[0], id);
      SurplusConstant(Next(w, steps[0]).value, steps[1..], id, w');
    }
  }

  lemma KeyedInv(w: World)
    requires Inv(w)
    ensures Keyed(w.table.workers)
  {
  }

  /** Once all tasks have released, the count is the reported one less what they held
      when it was reported, exactly if the report covered what they held. */
  lemma CountReturnsToBase(w: World, steps: seq<Step>, id: string, w': World)
    requires Inv(w) && id in w.table.workers && Silent(steps, id) && Reaches(w, steps, w')
    requires Outstanding(w', id) == {}
    ensures id in w'.table.workers
    ensures w'.table.workers[id].active == w.table.workers[id].active - |Outstanding(w, id)| <==>
              |Outstanding(w, id)| <= w.table.workers[id].active
  {
    SurplusConstant(w, steps, id, w');
  }

  /** While reports cover what the tasks hold, the tasks never hold more of a worker
      than it has room for. */
  lemma HeldWithinLimit(w: World, steps: seq<Step>, id: string, w': World)
    requires Inv(w) && id in w.table.workers && Silent(steps, id) && Reaches(w, steps, w')
    requires |Outstanding(w, id)| <= w.table.workers[id].active
    ensures id in w'.table.workers && |Outstanding(w', id)| <= w'.table.workers[id].active <= w'.table.workers[id].max
  {
    RunsKeepInvariant(w, steps, w');
    SurplusConstant(w, steps, id, w');
  }

  // --------------------------------------------- a heartbeat that overbooks

  /** A heartbeat sent before the reserved request reached the worker resets the count,
      and a worker with room for one request ends up with two. */
  lemma HeartbeatOverbooks(model: string) returns (steps: seq<Step>, w: World)
    ensures Reaches(Start, steps, w) && "a" in w.table.workers
    ensures |Outstanding(w, "a")| == 2 && w.table.workers["a"].max == 1
  {
    var r := Report("a", [ModelCapability(model, Loaded)], 0, 1, Available, Cpu);
    var free := WorkerRecord("a", "", r.models, 0, 1, 0, Available, Cpu);
    var taken := free.(active := 1, state := Busy);
    assert free.models[0].id == model && free.models[0].status.Loaded?;
    OnlyWorker(free, model);
    var one: World := World(Table(map["a" := free], map[]), None, map[], map[], {});
    var held := World(Table(map["a" := taken], map[]), None, map[0 := "a"], map[], {});
    var again := World(Table(map["a" := free], map[]), None, map[0 := "a"], map[], {});
    w := World(Table(map["a" := taken], map[]), None, map[0 := "a", 1 := "a"], map[], {});
    var steps1 := [Select(0, model, None, 0), Commit];
    var steps2 := [Select(1, model, None, 0), Commit];
    ReserveOnly(one, free, model, 0, held);
    ReserveOnly(again, free, model, 1, w);
    FirstReport(r, one);
    var none: set<string> := {};
    assert none - {"a"} == {};
    assert Beaten(held.table.workers, "a", r, 0) == again.table.workers;
    steps := [Step.Register(r, "", 0)] + steps1 + [Step.Heartbeat("a", r, 0)] + steps2;
    ReachesByParts(Start, r, one, steps1, held, again, steps2, w);
    assert Outstanding(w, "a") == {0, 1};
  }

  lemma OnlyWorker(free: WorkerRecord, model: string)
    requires free.id == "a" && Eligible(free, model)
    ensures Best(map["a" := free], model) == Some("a")
  {
    BestExact(map["a" := free], model);
    assert IsBest(map["a" := free], model, "a");
  }

  lemma ReserveOnly(before: World, free: WorkerRecord, model: string, task: nat, after: World)
    requires free.id == "a" && free.active == 0 && free.max == 1 && Eligible(free, model)
    requires before.table == Table(map["a" := free], map[]) && before.lock.None? && task !in before.reservations
    requires after == World(Table(map["a" := free.(active := 1, state := Busy)], map[]), None,
                            before.reservations[task := "a"], before.pending, before.orphaned)
    ensures Reaches(before, [Select(task, model, None, 0), Commit], after)
  {
    hide Best;
    OnlyWorker(free, model);
    var steps := [Select(task, model, None, 0), Commit];
    var locked := Next(before, steps[0]).value;
    assert Next(locked, Commit).value == after;
    assert steps[1..] == [Commit] && [Commit][1..] == [];
    assert Reaches(after, [], after);
    assert Reaches(locked, [Commit], after);
  }

  lemma {:induction false} ReachesConcat(a: World, first: seq<Step>, b: World, second: seq<Step>, c: World)
    requires Reaches(a, first, b) && Reaches(b, second, c)
    ensures Reaches(a, first + second, c)
    decreases |first|
  {
    hide Next;
    if first == [] {
      assert first + second == second;
    } else {
      assert (first + second)[1..] == first[1..] + second;
      ReachesConcat(Next(a, first[0]).value, first[1..], b, second, c);
    }
  }

  lemma ReachesByParts(start: World, r: Report, one: World, first: seq<Step>, held: World, again: World, second: seq<Step>, last: World)
    requires Consistent(r) && Next(start, Step.Register(r, "", 0)) == Some(one) && Reaches(one, first, held)
    requires Next(held, Step.Heartbeat("a", r, 0)) == Some(again) && Reaches(again, second, last)
    ensures Reaches(start, [Step.Register(r, "", 0)] + first + [Step.Heartbeat("a", r, 0)] + second, last)
  {
    hide Next;
    var a, b := [Step.Register(r, "", 0)], [Step.Heartbeat("a", r, 0)];
    assert a[1..] == [] && b[1..] == [];
    assert Reaches(one, [], one) && Reaches(again, [], again);
    assert Reaches(start, a, one) && Reaches(held, b, again);
    ReachesConcat(start, a, one, first, held);
    ReachesConcat(start, a + first, held, b, again);
    ReachesConcat(start, a + first + b, again, second, last);
  }

  /** A `mark_offline` dropped between its halves leaves a binding to an offline worker
      with nothing under way that would remove it. */
  lemma AbandonedMarkDangles(session: Session, model: string) returns (steps: seq<Step>, w: World)
    ensures Reaches(Start, steps, w) && Dangles(w, (session, model), "a") && w.pending == map[] && w.lock.None?
  {
    var r := Report("a", [ModelCapability(model, Loaded)], 0, 1, Available, Cpu);
    var free := WorkerRecord("a", "", r.models, 0, 1, 0, Available, Cpu);
    var taken := free.(active := 1, state := Busy);
    assert free.models[0].id == model && free.models[0].status.Loaded?;
    OnlyWorker(free, model);
    var bound: Affinity := map[(session, model) := Binding("a", 0)];
    var one: World := World(Table(map["a" := free], map[]), None, map[], map[], {});
    var chosen := one.(lock := Some(Selection(0, model, Some(session), 0, "a")));
    var held := World(Table(map["a" := taken], bound), None, map[0 := "a"], map[], {});
    var marked := World(Table(map["a" := taken.(state := Offline)], bound), None, map[0 := "a"], map[0 := "a"], {});
    w := World(marked.table, None, map[0 := "a"], map[], {"a"});
    steps := [Step.Register(r, "", 0), Select(0, model, Some(session), 0), Commit, Step.MarkOffline(0, "a"), Abandon(0)];
    FirstReport(r, one);
    BindOnly(one, chosen, held, free, session, model);
    MarkAndAbandon(held, marked, w);
    hide Next, Reaches;
    FiveSteps(Start, one, chosen, held, marked, w, steps);
  }

  lemma FiveSteps(a: World, b: World, c: World, d: World, e: World, f: World, steps: seq<Step>)
    requires |steps| == 5 && forall i | 0 <= i < 5 :: Honest(steps[i])
    requires Next(a, steps[0]) == Some(b) && Next(b, steps[1]) == Some(c) && Next(c, steps[2]) == Some(d)
    requires Next(d, steps[3]) == Some(e) && Next(e, steps[4]) == Some(f)
    ensures Reaches(a, steps, f)
  {
    hide Next, Honest;
    assert Reaches(f, [], f);
    Preceded(e, steps[4], f, [], f);
    Preceded(d, steps[3], e, [steps[4]], f);
    Preceded(c, steps[2], d, [steps[3], steps[4]], f);
    Preceded(b, steps[1], c, [steps[2], steps[3], steps[4]], f);
    Preceded(a, steps[0], b, [steps[1], steps[2], steps[3], steps[4]], f);
    assert steps == [steps[0]] + [steps[1], steps[2], steps[3], steps[4]];
  }

  lemma FirstReport(r: Report, one: World)
    requires r.nodeId == "a" && r.active == 0
    requires one == World(Table(map["a" := WorkerRecord("a", "", r.models, 0, r.max, 0, r.state, r.acceleration)], map[]), None, map[], map[], {})
    ensures Next(Start, Step.Register(r, "", 0)) == Some(one)
  {
    var none: set<string> := {};
    assert none - {"a"} == {};
  }

  lemma BindOnly(one: World, chosen: World, held: World, free: WorkerRecord, session: Session, model: string)
    requires free.id == "a" && free.active == 0 && free.max == 1 && Eligible(free, model)
    requires one == World(Table(map["a" := free], map[]), None, map[], map[], {})
    requires chosen == one.(lock := Some(Selection(0, model, Some(session), 0, "a")))
    requires held == World(Table(map["a" := free.(active := 1, state := Busy)], map[(session, model) := Binding("a", 0)]), None, map[0 := "a"], map[], {})
    ensures Next(one, Select(0, model, Some(session), 0)) == Some(chosen) && Next(chosen, Commit) == Some(held)
  {
    hide Best;
    OnlyWorker(free, model);
    assert Updated(one.table.workers, "a", Reserved) == held.table.workers;
    assert Bound(one.table.affinity, model, Some(session), "a", 0) == held.table.affinity;
    assert one.reservations[0 := "a"] == held.reservations;
  }

  lemma MarkAndAbandon(held: World, marked: World, w: World)
    requires held.lock.None? && "a" in held.table.workers && held.pending == map[] && held.orphaned == {}
    requires marked == held.(table := held.table.(workers := Updated(held.table.workers, "a", TakenOffline)), pending := map[0 := "a"])
    requires w == marked.(pending := map[], orphaned := {"a"})
    ensures Next(held, Step.MarkOffline(0, "a")) == Some(marked) && Next(marked, Abandon(0)) == Some(w)
  {
    assert held.pending[0 := "a"] == marked.pending && marked.pending - {0} == map[];
    assert marked.orphaned + {"a"} == {"a"};
  }

  lemma Preceded(a: World, step: Step, b: World, rest: seq<Step>, c: World)
    requires Honest(step) && Next(a, step) == Some(b) && Reaches(b, rest, c)
    ensures Reaches(a, [step] + rest, c)
  {
    hide Next;
    assert ([step] + rest)[1..] == rest;
  }
}
