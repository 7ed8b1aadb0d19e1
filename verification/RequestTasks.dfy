/**
 The two kinds of task that hold a reservation: relaying a stream, and forwarding a
 request that is answered in one piece. The second races its request against the
 caller giving up, which may drop the request at any point where it waits.
 */
module RequestTasks {
  import opened Wrappers
  import opened SseFraming
  import opened Forwarding
  import opened StreamDelivery

  /** How the worker answers the first request of a task. */
  datatype Connection = Accepted | Refused | Unreachable

  datatype Failure = InvalidAnswer | BadStatus | NoConnection

  // ------------------------------------------------------ offline, how far

  /** How much of marking a worker offline a log contains. */
  datatype Marking = Absent | Half | Whole

  function MarkingOf(log: Log): Marking {
    if DropBindings in log then Whole else if TakeOffline in log then Half else Absent
  }

  // ------------------------------------------- a request and where it waits

  /** The request future, cut into the pieces it runs between two waits: until the
      worker has accepted or not, until the answer is read, and the two halves of
      marking an unreachable worker offline. */
  function Stages(c: Connection): Log {
    match c
    case Accepted => [PostRequest, ReadAnswer]
    case Refused => [PostRequest]
    case Unreachable => [PostRequest] + MARK_OFFLINE
  }

  function AnswerOf(c: Connection, readable: bool): Result<(), Failure> {
    match c
    case Accepted => if readable then Ok(()) else Err(InvalidAnswer)
    case Refused => Err(BadStatus)
    case Unreachable => Err(NoConnection)
  }

  /** The caller gives up after so many stages, while some are left. */
  predicate Dropped(c: Connection, dropAt: Option<nat>) {
    dropAt.Some? && dropAt.value < |Stages(c)|
  }

  function CancelRequest(env: Env, log: Log): Log {
    log + [PostCancel] + (if env.reachable then [] else MARK_OFFLINE)
  }

  method CancelWorkerRequest(env: Env, log0: Log) returns (log: Log)
    ensures log == CancelRequest(env, log0)
  {
    log := log0 + [PostCancel];
    if !env.reachable {
      log := log + [TakeOffline];
      log := log + [DropBindings];
    }
    assert log0 + [PostCancel] + [TakeOffline] + [DropBindings] == log0 + [PostCancel] + MARK_OFFLINE;
  }

  /** Forwards a request; without an answer nothing is sent back. At whatever wait the
      request is dropped, the reservation is released exactly once, last, and the
      worker is marked offline in full if its cancellation cannot be delivered, half if
      the request was dropped between the two halves, and else not at all. */
  method ForwardWorkerRequest(env: Env, c: Connection, readable: bool, dropAt: Option<nat>)
    returns (log: Log, answer: Option<Result<(), Failure>>)
    ensures log == RequestLog(env, c, dropAt) && ReleasedOnce(log)
    ensures answer == if Dropped(c, dropAt) then None else Some(AnswerOf(c, readable))
    ensures MarkingOf(log) ==
            if !Dropped(c, dropAt) then (if c.Unreachable? then Whole else Absent)
            else if !env.reachable then Whole
            else if c.Unreachable? && dropAt.value == 2 then Half
            else Absent
    ensures PostRequest in log <==> dropAt != Some(0)
    ensures ReadAnswer in log <==> c.Accepted? && !Dropped(c, dropAt)
    ensures PostCancel in log <==> Dropped(c, dropAt)
    ensures Dropped(c, dropAt) ==>
              exists done: Log :: |done| == dropAt.value && DropRequest !in done && PostCancel !in done &&
                log == done + [DropRequest, PostCancel] + (if env.reachable then [] else [TakeOffline, DropBindings]) + [Release]
    ensures answer.Some? ==>
              && (answer.value.Ok? <==> c.Accepted? && readable)
              && (answer.value.Err? ==> answer.value.error == match c { case Accepted => InvalidAnswer case Refused => BadStatus case Unreachable => NoConnection })
  {
    log := [];
    var stages := Stages(c);
    for i := 0 to |stages|
      invariant log == stages[..i] && (dropAt.Some? ==> dropAt.value >= i || !Dropped(c, dropAt))
    {
      if dropAt == Some(i) {
        log := log + [DropRequest];
        log := CancelWorkerRequest(env, log);
        log := log + [Action.Release];
        answer := None;
        RequestReleases(env, c, dropAt);
        RequestMarks(env, c, dropAt);
        RequestActions(env, c, dropAt);
        return;
      }
      log := log + [stages[i]];
    }
    assert log == stages;
    log := log + [Action.Release];
    answer := Some(AnswerOf(c, readable));
    RequestReleases(env, c, dropAt);
    RequestMarks(env, c, dropAt);
    RequestActions(env, c, dropAt);
  }

  function RequestLog(env: Env, c: Connection, dropAt: Option<nat>): Log {
    (if Dropped(c, dropAt) then CancelRequest(env, Stages(c)[..dropAt.value] + [DropRequest]) else Stages(c)) + [Release]
  }

  lemma RequestActions(env: Env, c: Connection, dropAt: Option<nat>)
    ensures var log := RequestLog(env, c, dropAt);
            && (PostRequest in log <==> dropAt != Some(0))
            && (ReadAnswer in log <==> c.Accepted? && !Dropped(c, dropAt))
            && (PostCancel in log <==> Dropped(c, dropAt))
            && (Dropped(c, dropAt) ==>
                  var done := Stages(c)[..dropAt.value];
                  |done| == dropAt.value && DropRequest !in done && PostCancel !in done &&
                  log == done + [DropRequest, PostCancel] + (if env.reachable then [] else [TakeOffline, DropBindings]) + [Release])
  {
    var log, stages := RequestLog(env, c, dropAt), Stages(c);
    assert stages[0] == PostRequest;
    assert c.Accepted? ==> stages[1] == ReadAnswer;
    if Dropped(c, dropAt) {
      var done := stages[..dropAt.value];
      assert log == done + [DropRequest, PostCancel] + (if env.reachable then [] else [TakeOffline, DropBindings]) + [Release];
      assert log[dropAt.value + 1] == PostCancel;
      if dropAt.value > 0 { assert log[0] == PostRequest; }
    } else {
      assert log[0] == PostRequest;
      if c.Accepted? { assert log[1] == ReadAnswer; }
    }
  }

  lemma RequestReleases(env: Env, c: Connection, dropAt: Option<nat>)
    ensures ReleasedOnce(RequestLog(env, c, dropAt))
  {
    var log := RequestLog(env, c, dropAt);
    assert Release !in Stages(c);
    LastRelease(log[..|log| - 1]);
  }

  lemma RequestMarks(env: Env, c: Connection, dropAt: Option<nat>)
    ensures MarkingOf(RequestLog(env, c, dropAt)) ==
            if !Dropped(c, dropAt) then (if c.Unreachable? then Whole else Absent)
            else if !env.reachable then Whole
            else if c.Unreachable? && dropAt.value == 2 then Half
            else Absent
  {
    assert DropBindings in MARK_OFFLINE by { assert MARK_OFFLINE[1] == DropBindings; }
    assert TakeOffline in MARK_OFFLINE by { assert MARK_OFFLINE[0] == TakeOffline; }
    assert c.Unreachable? ==> Stages(c) == [PostRequest, TakeOffline, DropBindings];
    if Dropped(c, dropAt) && c.Unreachable? {
      var k := dropAt.value;
      assert k == 0 ==> Stages(c)[..k] == [];
      assert k == 1 ==> Stages(c)[..k] == [PostRequest];
      assert k == 2 ==> Stages(c)[..k] == [PostRequest, TakeOffline];
    }
  }

  // ------------------------------------------------------ a streamed request

  /** A streamed request whose worker is already reserved: however it goes, one release,
      at the end; the worker goes offline before any stream exactly if it cannot be
      reached; and an end mark needs a stream with a whole completed event. */
  method StreamRequest(env: Env, c: Connection, chunks: seq<Bytes>, bodyFailed: bool) returns (log: Log)
    ensures ReleasedOnce(log)
    ensures c.Accepted? ==> log == [PostRequest] + Relayed(env, Readings(Feed([], chunks).frames), bodyFailed)
    ensures !c.Accepted? ==> log == RequestLog(env, c, None)
    ensures !c.Accepted? ==> MarkingOf(log) == (if c.Unreachable? then Whole else Absent) && forall i | 0 <= i < |log| :: !log[i].Send?
    ensures Offered(log, DoneMark) ==> c.Accepted? && SawCompleted(Readings(Feed([], chunks).frames))
  {
    hide Relayed, Readings, Feed;
    log := [PostRequest];
    match c
    case Accepted =>
      var relayed := ForwardWorkerStream(env, chunks, bodyFailed);
      ghost var readings := Readings(Feed([], chunks).frames);
      ReleasesExactlyOnce(env, readings, bodyFailed);
      DoneNeedsCompleted(env, readings, bodyFailed);
      PostedFirst(relayed);
      log := log + relayed;
    case Refused =>
      log := log + [Action.Release];
      LastRelease([PostRequest]);
    case Unreachable =>
      log := log + [TakeOffline];
      log := log + [DropBindings];
      LastRelease(log);
      assert log[2] == DropBindings;
      log := log + [Action.Release];
  }

  lemma PostedFirst(log: Log)
    requires ReleasedOnce(log)
    ensures ReleasedOnce([PostRequest] + log)
  {
    var all := [PostRequest] + log;
    assert all[..|all| - 1] == [PostRequest] + log[..|log| - 1];
  }
}
