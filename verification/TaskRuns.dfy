/**
 The coordinator as a whole: tasks that hold reservations carry out their logs, action
 by action and in any interleaving, on the registry they share with reports, expiry
 and new selections.
 */
module TaskRuns {
  import opened Wrappers
  import opened SseFraming
  import opened Forwarding
  import opened StreamDelivery
  import opened RequestTasks
  import R = RegistryRuns

  /** What a task may do: relay a stream, give up before one opened, or forward a request. */
  ghost predicate IsTaskLog(log: Log) {
    || (exists env, readings, bodyFailed :: log == [PostRequest] + Relayed(env, readings, bodyFailed))
    || (exists env, c, dropAt :: log == RequestLog(env, c, dropAt))
  }

  // ----------------------------------------- marking offline, half by half

  /** Both halves alternate; dropping the request ends a half. `open` tells whether the
      first half was done last. */
  predicate Marked(log: Log, open: bool) {
    if log == [] then true
    else
      match log[0]
      case TakeOffline => !open && Marked(log[1..], true)
      case DropBindings => open && Marked(log[1..], false)
      case DropRequest => Marked(log[1..], false)
      case _ => Marked(log[1..], open)
  }

  function OpenAfter(log: Log, open: bool): bool {
    if log == [] then open
    else
      match log[0]
      case TakeOffline => OpenAfter(log[1..], true)
      case DropBindings => OpenAfter(log[1..], false)
      case DropRequest => OpenAfter(log[1..], false)
      case _ => OpenAfter(log[1..], open)
  }

  /** Leaves no half behind. */
  predicate Neutral(log: Log) { Marked(log, false) && !OpenAfter(log, false) }

  lemma {:induction false} MarkedConcat(a: Log, b: Log, open: bool)
    ensures Marked(a + b, open) <==> Marked(a, open) && Marked(b, OpenAfter(a, open))
    ensures OpenAfter(a + b, open) == OpenAfter(b, OpenAfter(a, open))
  {
    if a == [] {
      assert a + b == b;
    } else {
      assert (a + b)[0] == a[0] && (a + b)[1..] == a[1..] + b;
      MarkedConcat(a[1..], b, match a[0] { case TakeOffline => true case DropBindings => false case DropRequest => false case _ => open });
    }
  }

  lemma NeutralConcat(a: Log, b: Log)
    requires Neutral(a) && Neutral(b)
    ensures Neutral(a + b)
  {
    MarkedConcat(a, b, false);
  }

  lemma NeutralOne(a: Action)
    requires !a.TakeOffline? && !a.DropBindings?
    ensures Neutral([a])
  {
    assert [a][1..] == [];
  }

  lemma NeutralMark()
    ensures Neutral(MARK_OFFLINE)
  {
    assert MARK_OFFLINE[1..] == [DropBindings] && [DropBindings][1..] == [];
  }

  lemma NeutralSent(env: Env, log: Log, event: Public)
    requires Neutral(log)
    ensures Neutral(Sent(env, log, event))
  {
    NeutralOne(Send(event, env.alive(|log|)));
    NeutralConcat(log, [Send(event, env.alive(|log|))]);
  }

  lemma NeutralReleased(log: Log)
    requires Neutral(log)
    ensures Neutral(log + [Release])
  {
    NeutralOne(Release);
    NeutralConcat(log, [Release]);
  }

  lemma NeutralPosted(env: Env, log: Log, first: Log)
    requires Neutral(log) && Neutral(first)
    ensures Neutral(log + first + (if env.reachable then [] else MARK_OFFLINE) + [Release])
  {
    hide Neutral;
    NeutralMark();
    NeutralNothing();
    var mark := if env.reachable then [] else MARK_OFFLINE;
    NeutralConcat(log, first);
    NeutralConcat(log + first, mark);
    NeutralReleased(log + first + mark);
  }

  lemma NeutralNothing()
    ensures Neutral([])
  {
  }

  lemma NeutralCancel(env: Env, log: Log)
    requires Neutral(log)
    ensures Neutral(CancelAndRelease(env, log))
  {
    assert [CancelToken, PostCancel][1..] == [PostCancel] && [PostCancel][1..] == [];
    NeutralPosted(env, log, [CancelToken, PostCancel]);
  }

  lemma {:induction false} NeutralSendAll(env: Env, log: Log, chunks: seq<Public>)
    requires Neutral(log)
    ensures Neutral(SendAll(env, log, chunks).log)
    decreases |chunks|
  {
    hide Neutral, Sent;
    if chunks != [] {
      var sent := Sent(env, log, chunks[0]);
      NeutralSent(env, log, chunks[0]);
      NeutralReleased(sent);
      if env.alive(|log|) { NeutralSendAll(env, sent, chunks[1..]); }
    }
  }

  lemma NeutralHandle(env: Env, p: Progress, reading: Reading)
    requires Neutral(p.log)
    ensures Neutral(Handle(env, p, reading).log)
  {
    hide Neutral, Sent, CancelAndRelease, SendAll, CompletedChunks;
    match reading
    case Skip =>
    case Bad(e) =>
      NeutralSent(env, p.log, ErrorEvent(e));
      NeutralCancel(env, Sent(env, p.log, ErrorEvent(e)));
    case Got(TextDelta(text)) =>
      NeutralSent(env, p.log, TextChunk(text));
      NeutralCancel(env, Sent(env, p.log, TextChunk(text)));
    case Got(Completed(input, output, calls, reason)) => NeutralSendAll(env, p.log, CompletedChunks(input, output, calls, reason));
    case Got(Error(message)) =>
      NeutralSent(env, p.log, ErrorEvent(Reported(message)));
      NeutralReleased(Sent(env, p.log, ErrorEvent(Reported(message))));
  }

  lemma {:induction false} NeutralForwarded(env: Env, p: Progress, readings: seq<Reading>)
    requires Neutral(p.log)
    ensures Neutral(Forwarded(env, p, readings).log)
    decreases |readings|
  {
    hide Neutral, Handle;
    if readings != [] && !p.over {
      NeutralHandle(env, p, readings[0]);
      NeutralForwarded(env, Handle(env, p, readings[0]), readings[1..]);
    }
  }

  lemma NeutralEnded(env: Env, p: Progress, bodyFailed: bool)
    requires Neutral(p.log)
    ensures Neutral(Ended(env, p, bodyFailed))
  {
    hide Neutral, Sent, CancelAndRelease;
    NeutralMark();
    NeutralConcat(p.log, MARK_OFFLINE);
    NeutralSent(env, p.log + MARK_OFFLINE, ErrorEvent(BodyFailed));
    var log := if bodyFailed then Sent(env, p.log + MARK_OFFLINE, ErrorEvent(BodyFailed)) else p.log;
    NeutralSent(env, log, DoneMark);
    NeutralReleased(Sent(env, log, DoneMark));
    NeutralSent(env, log, ErrorEvent(EndedEarly));
    NeutralCancel(env, Sent(env, log, ErrorEvent(EndedEarly)));
  }

  lemma NeutralRelayed(env: Env, readings: seq<Reading>, bodyFailed: bool)
    ensures Neutral(Relayed(env, readings, bodyFailed))
  {
    hide Neutral, Sent, CancelAndRelease;
    NeutralNothing();
    NeutralSent(env, [], RoleChunk);
    NeutralCancel(env, Sent(env, [], RoleChunk));
    NeutralForwarded(env, Opened(env), readings);
    NeutralEnded(env, Forwarded(env, Opened(env), readings), bodyFailed);
  }

  lemma NeutralStages(c: Connection, k: nat)
    requires k <= |Stages(c)|
    ensures Neutral(Stages(c)[..k] + [DropRequest]) && Neutral(Stages(c))
  {
    NeutralNothing();
    NeutralOne(PostRequest);
    NeutralOne(ReadAnswer);
    NeutralMark();
    NeutralConcat([PostRequest], [ReadAnswer]);
    NeutralConcat([PostRequest], MARK_OFFLINE);
    assert Stages(c) == [PostRequest] || Stages(c) == [PostRequest] + [ReadAnswer] || Stages(c) == [PostRequest] + MARK_OFFLINE;
    NeutralDrop(Stages(c)[..k]);
    assert Marked(Stages(c)[..k], false) by {
      MarkedConcat(Stages(c)[..k], Stages(c)[k..], false);
      assert Stages(c)[..k] + Stages(c)[k..] == Stages(c);
    }
  }

  lemma NeutralDrop(log: Log)
    ensures Marked(log, false) ==> Neutral(log + [DropRequest])
  {
    MarkedConcat(log, [DropRequest], false);
    assert [DropRequest][1..] == [];
  }

  lemma NeutralRequest(env: Env, c: Connection, dropAt: Option<nat>)
    ensures Neutral(RequestLog(env, c, dropAt))
  {
    hide Neutral, Stages;
    NeutralOne(PostCancel);
    NeutralStages(c, if Dropped(c, dropAt) then dropAt.value else 0);
    NeutralReleased(Stages(c));
    if Dropped(c, dropAt) {
      NeutralPosted(env, Stages(c)[..dropAt.value] + [DropRequest], [PostCancel]);
    }
  }

  /** Every task releases once, last, and marks offline half by half. */
  lemma TaskLogs(log: Log)
    requires IsTaskLog(log)
    ensures ReleasedOnce(log) && Marked(log, false)
  {
    hide Relayed, RequestLog, Marked, ReleasedOnce;
    if env, readings, bodyFailed :| log == [PostRequest] + Relayed(env, readings, bodyFailed) {
      ReleasesExactlyOnce(env, readings, bodyFailed);
      PostedFirst(Relayed(env, readings, bodyFailed));
      NeutralRelayed(env, readings, bodyFailed);
      NeutralOne(PostRequest);
      NeutralConcat([PostRequest], Relayed(env, readings, bodyFailed));
    } else {
      var env, c, dropAt :| log == RequestLog(env, c, dropAt);
      RequestReleases(env, c, dropAt);
      NeutralRequest(env, c, dropAt);
    }
  }

  // ------------------------------------------------------------- the system

  /** A task on behalf of a worker, and what it still has to do. */
  datatype Task = Task(worker: string, todo: Log)

  datatype System = System(world: R.World, tasks: map<nat, Task>)

  datatype Move = Outside(step: R.Step) | Begin(log: Log) | Act(task: nat)

  /** What happens to the registry besides tasks; a new selection is for a new task. */
  predicate IsOutside(y: System, step: R.Step) {
    match step
    case Register(_, _, _) => true
    case Heartbeat(_, _, _) => true
    case Expire(_, _) => true
    case Select(task, _, _, _) => task !in y.tasks
    case _ => false
  }

  /** The registry step of an action, if it has one. */
  function StepOf(w: R.World, t: nat, worker: string, a: Action): Option<R.Step> {
    match a
    case Release => Some(R.Release(t))
    case TakeOffline => Some(R.MarkOffline(t, worker))
    case DropBindings => Some(R.DropBindings(t))
    case DropRequest => if t in w.pending then Some(R.Abandon(t)) else None
    case _ => None
  }

  function Popped(y: System, w: R.World, t: nat): System
    requires t in y.tasks && y.tasks[t].todo != []
  {
    System(w, y.tasks[t := y.tasks[t].(todo := y.tasks[t].todo[1..])])
  }

  ghost function Moved(y: System, m: Move): Option<System> {
    match m
    case Outside(step) =>
      if !IsOutside(y, step) then None
      else (match R.Next(y.world, step) case None => None case Some(w) => Some(y.(world := w)))
    case Begin(log) =>
      if y.world.lock.None? || !IsTaskLog(log) then None
      else
        (match R.Next(y.world, R.Commit)
         case None => None
         case Some(w) => Some(System(w, y.tasks[y.world.lock.value.task := Task(y.world.lock.value.id, log)])))
    case Act(t) =>
      if t !in y.tasks || y.tasks[t].todo == [] then None
      else
        match StepOf(y.world, t, y.tasks[t].worker, y.tasks[t].todo[0])
        case None => Some(Popped(y, y.world, t))
        case Some(step) =>
          match R.Next(y.world, step) case None => None case Some(w) => Some(Popped(y, w, t))
  }

  /** A task holds its reservation exactly until its release, and has an open half of
      `mark_offline` exactly where its log says so. */
  ghost predicate Fits(w: R.World, t: nat, k: Task) {
    && (t in w.reservations <==> Release in k.todo)
    && (t in w.reservations ==> w.reservations[t] == k.worker)
    && (Release in k.todo ==> ReleasedOnce(k.todo))
    && Marked(k.todo, t in w.pending)
  }

  ghost predicate Valid(y: System) {
    && (forall t | t in y.tasks :: Fits(y.world, t, y.tasks[t]))
    && y.world.reservations.Keys <= y.tasks.Keys && y.world.pending.Keys <= y.tasks.Keys
    && (y.world.lock.Some? ==> y.world.lock.value.task !in y.tasks)
  }

  lemma TailReleases(log: Log)
    requires log != [] && (Release in log ==> ReleasedOnce(log))
    ensures Release in log[1..] ==> ReleasedOnce(log[1..])
    ensures Release in log[1..] <==> Release in log && log[0] != Release
  {
    var tail := log[1..];
    assert forall i | 0 <= i < |tail| :: tail[i] == log[i + 1];
    if |log| > 1 { assert tail[..|tail| - 1] == log[..|log| - 1][1..]; }
    if Release in log && |log| > 1 { EarlierIsNot(log); }
    assert log == [log[0]] + tail;
  }

  lemma EarlierIsNot(log: Log)
    requires ReleasedOnce(log) && |log| > 1
    ensures log[0] != Release
  {
    assert log[0] == log[..|log| - 1][0];
  }

  /** Other tasks see nothing of a step. */
  lemma OthersFit(w: R.World, w': R.World, t: nat, k: Task)
    requires Fits(w, t, k) && (t in w.reservations <==> t in w'.reservations) && (t in w.pending <==> t in w'.pending)
    requires t in w.reservations ==> w'.reservations[t] == w.reservations[t]
    ensures Fits(w', t, k)
  {
  }

  lemma BeginKeeps(y: System, log: Log)
    requires Valid(y) && Moved(y, Begin(log)).Some?
    ensures Valid(Moved(y, Begin(log)).value)
  {
    hide Marked, ReleasedOnce, IsTaskLog;
    TaskLogs(log);
    var y' := Moved(y, Begin(log)).value;
    assert Release in log by { LastIsIn(log); }
    forall t | t in y'.tasks && t != y.world.lock.value.task ensures Fits(y'.world, t, y'.tasks[t]) {
      OthersFit(y.world, y'.world, t, y.tasks[t]);
    }
  }

  lemma LastIsIn(log: Log)
    requires ReleasedOnce(log)
    ensures Release in log
  {
  }

  lemma OutsideKeeps(y: System, step: R.Step)
    requires Valid(y) && Moved(y, Outside(step)).Some?
    ensures Valid(Moved(y, Outside(step)).value)
  {
    hide Marked, ReleasedOnce;
    var y' := Moved(y, Outside(step)).value;
    forall t | t in y'.tasks ensures Fits(y'.world, t, y'.tasks[t]) { OthersFit(y.world, y'.world, t, y.tasks[t]); }
  }

  lemma ActKeeps(y: System, t: nat)
    requires Valid(y) && Moved(y, Act(t)).Some?
    ensures Valid(Moved(y, Act(t)).value)
  {
    hide ReleasedOnce, Marked, Moved;
    ActEffect(y, t);
    var y', k := Moved(y, Act(t)).value, y.tasks[t];
    forall u | u in y'.tasks && u != t ensures Fits(y'.world, u, y'.tasks[u]) { OthersFit(y.world, y'.world, u, y.tasks[u]); }
    NextFits(y.world, y'.world, t, k);
  }

  /** An action touches the reservation and the open half of its own task only. */
  ghost predicate OwnEffect(w: R.World, w': R.World, t: nat, a: Action) {
    && (forall u | u != t :: (u in w'.reservations <==> u in w.reservations) && (u in w'.pending <==> u in w.pending))
    && (forall u | u in w'.reservations :: u in w.reservations && w'.reservations[u] == w.reservations[u])
    && (t in w'.reservations <==> t in w.reservations && !a.Release?)
    && (t in w'.pending <==> a.TakeOffline? || (t in w.pending && !a.DropBindings? && !a.DropRequest?))
    && w'.lock == w.lock
  }

  lemma ActEffect(y: System, t: nat)
    requires Valid(y) && Moved(y, Act(t)).Some?
    ensures t in y.tasks && y.tasks[t].todo != []
    ensures var y' := Moved(y, Act(t)).value;
            OwnEffect(y.world, y'.world, t, y.tasks[t].todo[0]) && y' == Popped(y, y'.world, t)
  {
    hide Fits, R.Next, OwnEffect;
    var a := y.tasks[t].todo[0];
    var step := StepOf(y.world, t, y.tasks[t].worker, a);
    if step.Some? {
      StepEffect(y.world, t, y.tasks[t].worker, a, step.value, Moved(y, Act(t)).value.world);
    } else {
      NoEffect(y.world, t, a);
    }
  }

  lemma StepEffect(w: R.World, t: nat, worker: string, a: Action, step: R.Step, w': R.World)
    requires StepOf(w, t, worker, a) == Some(step) && R.Next(w, step) == Some(w')
    ensures OwnEffect(w, w', t, a)
  {
  }

  lemma NoEffect(w: R.World, t: nat, a: Action)
    requires forall worker :: StepOf(w, t, worker, a) == None
    ensures OwnEffect(w, w, t, a)
  {
    assert StepOf(w, t, "", a) == None;
  }

  lemma NextFits(w: R.World, w': R.World, t: nat, k: Task)
    requires Fits(w, t, k) && k.todo != [] && OwnEffect(w, w', t, k.todo[0])
    ensures Fits(w', t, k.(todo := k.todo[1..]))
  {
    hide ReleasedOnce;
    TailReleases(k.todo);
    assert k.todo[0] in k.todo;
  }

  /** No task is ever stuck: its next action is possible whenever no selection holds the
      lock, and one that does can always finish. */
  lemma NeverStuck(y: System, t: nat)
    requires Valid(y) && t in y.tasks && y.tasks[t].todo != []
    ensures y.world.lock.None? ==> Moved(y, Act(t)).Some?
    ensures y.world.lock.Some? ==> forall log | IsTaskLog(log) :: Moved(y, Begin(log)).Some?
  {
    assert Fits(y.world, t, y.tasks[t]);
    var log := y.tasks[t].todo;
    assert log[0] in log;
  }

  predicate QuietMove(m: Move, id: string) { m.Outside? ==> !R.Reports(m.step, id) }

  /** Any interleaving, with consistent reports. */
  ghost predicate SystemReaches(y: System, moves: seq<Move>, y': System)
    decreases |moves|
  {
    if moves == [] then y' == y
    else
      && (moves[0].Outside? ==> R.Honest(moves[0].step))
      && Moved(y, moves[0]).Some? && SystemReaches(Moved(y, moves[0]).value, moves[1..], y')
  }

  /** A move is at most one step of the registry. */
  lemma MoveIsAStep(y: System, m: Move, id: string) returns (steps: seq<R.Step>)
    requires Valid(y) && Moved(y, m).Some? && (m.Outside? ==> R.Honest(m.step))
    ensures R.Reaches(y.world, steps, Moved(y, m).value.world) && Valid(Moved(y, m).value)
    ensures QuietMove(m, id) ==> R.Silent(steps, id)
  {
    var w' := Moved(y, m).value.world;
    match m
    case Outside(step) =>
      OutsideKeeps(y, step);
      steps := [step];
      OneStep(y.world, step, w');
    case Begin(log) =>
      BeginKeeps(y, log);
      steps := [R.Commit];
      OneStep(y.world, R.Commit, w');
    case Act(t) =>
      ActKeeps(y, t);
      var step := StepOf(y.world, t, y.tasks[t].worker, y.tasks[t].todo[0]);
      if step.Some? {
        steps := [step.value];
        OneStep(y.world, step.value, w');
      } else {
        steps := [];
      }
  }

  lemma OneStep(w: R.World, step: R.Step, w': R.World)
    requires R.Honest(step) && R.Next(w, step) == Some(w')
    ensures R.Reaches(w, [step], w')
  {
    hide R.Next;
    assert [step][1..] == [];
    assert R.Reaches(w', [], w');
  }

  /** Every interleaving of tasks, reports, expiry and selections is a run of the
      registry, so all that holds of its runs holds here. */
  lemma {:induction false} SystemRunsAreRegistryRuns(y: System, moves: seq<Move>, y': System, id: string) returns (steps: seq<R.Step>)
    requires Valid(y) && SystemReaches(y, moves, y')
    ensures R.Reaches(y.world, steps, y'.world) && Valid(y')
    ensures (forall i | 0 <= i < |moves| :: QuietMove(moves[i], id)) ==> R.Silent(steps, id)
    decreases |moves|
  {
    hide Moved, Valid, QuietMove, R.Reaches;
    steps := [];
    if moves == [] {
      assert R.Reaches(y.world, [], y'.world) by { NoSteps(y.world); }
    } else {
      var next := Moved(y, moves[0]).value;
      var first := MoveIsAStep(y, moves[0], id);
      var rest := SystemRunsAreRegistryRuns(next, moves[1..], y', id);
      R.ReachesConcat(y.world, first, next.world, rest, y'.world);
      steps := first + rest;
    }
  }

  lemma NoSteps(w: R.World)
    ensures R.Reaches(w, [], w)
  {
  }

  lemma DoneHolds(y: System, t: nat)
    requires Valid(y) && t in y.tasks && y.tasks[t].todo == []
    ensures t !in y.world.reservations
  {
    assert Fits(y.world, t, y.tasks[t]);
  }

  /** When all tasks are done, each having released once as its log says, the registry
      counts what the worker last reported, less what was held at that moment, exactly
      if the report covered it. */
  lemma TasksReturnTheCount(y: System, moves: seq<Move>, y': System, id: string)
    requires Valid(y) && R.Inv(y.world) && SystemReaches(y, moves, y') && id in y.world.table.workers
    requires forall i | 0 <= i < |moves| :: QuietMove(moves[i], id)
    requires forall t | t in y'.tasks :: y'.tasks[t].todo == []
    ensures id in y'.world.table.workers && y'.world.reservations == map[]
    ensures y'.world.table.workers[id].active == y.world.table.workers[id].active - |R.Outstanding(y.world, id)| <==>
              |R.Outstanding(y.world, id)| <= y.world.table.workers[id].active
  {
    hide SystemReaches, R.Reaches, R.Inv;
    var steps := SystemRunsAreRegistryRuns(y, moves, y', id);
    forall t ensures t !in y'.world.reservations {
      if t in y'.tasks { DoneHolds(y', t); }
    }
    assert R.Outstanding(y'.world, id) == {};
    R.CountReturnsToBase(y.world, steps, id, y'.world);
  }
}
