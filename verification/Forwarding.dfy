/**
 The coordinator's tasks that relay a worker's answer. A task writes a log of what it
 does; whether a send reaches the client and whether the worker can be reached are
 arbitrary.
 */
module Forwarding {
  import opened Wrappers
  import opened Text
  import opened Json
  import opened Chat
  import opened SseFraming
  import opened Utf8
  import Events = StreamEvents

  datatype PublicCall = PublicCall(index: nat, id: string, name: string, arguments: string)

  datatype StreamError = InvalidUtf8 | InvalidEvent | BodyFailed | EndedEarly | Reported(message: string)

  /** What the client of the public stream can see. */
  datatype Public =
    | RoleChunk
    | TextChunk(text: string)
    | ToolChunk(calls: seq<PublicCall>)
    | FinalChunk(reason: FinishReason, promptTokens: nat, completionTokens: nat)
    | ErrorEvent(error: StreamError)
    | DoneMark

  /** What a task does. Marking a worker offline takes two actions, in two critical
      sections of the registry; dropping the request future is one as well. */
  datatype Action =
    | Send(event: Public, delivered: bool)
    | Release
    | TakeOffline
    | DropBindings
    | CancelToken
    | PostCancel
    | PostRequest
    | ReadAnswer
    | DropRequest

  type Log = seq<Action>

  const MARK_OFFLINE: Log := [TakeOffline, DropBindings]

  /** Whether a send succeeds after a given number of actions, and whether the worker
      answers a cancellation. */
  datatype Env = Env(alive: nat -> bool, reachable: bool)

  // ------------------------------------------------------- reading a frame

  const DATA := "data:"

  function DataLines(lines: seq<string>): seq<string> {
    if lines == [] then []
    else (if DATA <= lines[0] then [TrimStart(lines[0][|DATA|..])] else []) + DataLines(lines[1..])
  }

  /** The data of a frame, if it is text and has any. */
  function SseData(frame: Bytes): Result<Option<string>, StreamError> {
    match Decode(frame)
    case None => Err(InvalidUtf8)
    case Some(text) =>
      var data := DataLines(Lines(text));
      Ok(if data == [] then None else Some(JoinLines(data)))
  }

  datatype Reading = Skip | Bad(error: StreamError) | Got(event: Events.Event)

  function Interpret(frame: Bytes): Reading {
    match SseData(frame)
    case Err(e) => Bad(e)
    case Ok(None) => Skip
    case Ok(Some(payload)) =>
      if payload == "[DONE]" then Skip
      else match Events.ParseEvent(payload) case None => Bad(InvalidEvent) case Some(e) => Got(e)
  }

  // ---------------------------------------------------------- specification

  /** Where the task is: its log, whether a whole answer was seen, whether it returned. */
  datatype Progress = Progress(log: Log, completed: bool, over: bool)

  function Sent(env: Env, log: Log, event: Public): Log { log + [Send(event, env.alive(|log|))] }

  function CancelAndRelease(env: Env, log: Log): Log {
    log + [CancelToken, PostCancel] + (if env.reachable then [] else MARK_OFFLINE) + [Release]
  }

  function PublicCalls(calls: seq<ToolCall>, from: nat): seq<PublicCall> {
    if calls == [] then []
    else [PublicCall(from, calls[0].id, calls[0].name, Print(Plain, calls[0].arguments))] + PublicCalls(calls[1..], from + 1)
  }

  /** The chunks that close an answer. */
  function CompletedChunks(input: nat, output: nat, calls: seq<ToolCall>, reason: FinishReason): seq<Public> {
    (if calls == [] then [] else [ToolChunk(PublicCalls(calls, 0))]) + [FinalChunk(reason, input, output)]
  }

  /** Sends until one send fails, and then gives up with a release. */
  function SendAll(env: Env, log: Log, chunks: seq<Public>): Progress
    decreases |chunks|
  {
    if chunks == [] then Progress(log, true, false)
    else if env.alive(|log|) then SendAll(env, Sent(env, log, chunks[0]), chunks[1..])
    else Progress(Sent(env, log, chunks[0]) + [Release], false, true)
  }

  function HandleEvent(env: Env, p: Progress, event: Events.Event): Progress {
    match event
    case TextDelta(text) =>
      var log := Sent(env, p.log, TextChunk(text));
      if env.alive(|p.log|) then p.(log := log) else p.(log := CancelAndRelease(env, log), over := true)
    case Completed(input, output, calls, reason) =>
      var q := SendAll(env, p.log, CompletedChunks(input, output, calls, reason));
      q.(completed := q.completed || p.completed)
    case Error(message) => p.(log := Sent(env, p.log, ErrorEvent(Reported(message))) + [Release], over := true)
  }

  function Handle(env: Env, p: Progress, reading: Reading): Progress {
    match reading
    case Skip => p
    case Bad(e) => p.(log := CancelAndRelease(env, Sent(env, p.log, ErrorEvent(e))), over := true)
    case Got(event) => HandleEvent(env, p, event)
  }

  function Forwarded(env: Env, p: Progress, readings: seq<Reading>): Progress
    decreases |readings|
  {
    if readings == [] || p.over then p else Forwarded(env, Handle(env, p, readings[0]), readings[1..])
  }

  function Ended(env: Env, p: Progress, bodyFailed: bool): Log {
    if p.over then p.log
    else
      var log := if bodyFailed then Sent(env, p.log + MARK_OFFLINE, ErrorEvent(BodyFailed)) else p.log;
      if p.completed then Sent(env, log, DoneMark) + [Release]
      else CancelAndRelease(env, Sent(env, log, ErrorEvent(EndedEarly)))
  }

  function Opened(env: Env): Progress {
    var log := Sent(env, [], RoleChunk);
    if env.alive(0) then Progress(log, false, false) else Progress(CancelAndRelease(env, log), false, true)
  }

  function Readings(frames: seq<Bytes>): (r: seq<Reading>)
  {
    if frames == [] then [] else [Interpret(frames[0])] + Readings(frames[1..])
  }

  /** The whole task, told on the frames of the body. */
  function Relayed(env: Env, readings: seq<Reading>, bodyFailed: bool): Log {
    Ended(env, Forwarded(env, Opened(env), readings), bodyFailed)
  }

  // ---------------------------------------------------------------- the task

  method CancelAndReleaseNow(env: Env, log0: Log) returns (log: Log)
    ensures log == CancelAndRelease(env, log0)
  {
    log := log0 + [CancelToken, PostCancel];
    if !env.reachable {
      log := log + [TakeOffline];
      log := log + [DropBindings];
    }
    log := log + [Action.Release];
    ghost var posted := log0 + [CancelToken, PostCancel];
    assert posted + [] == posted && posted + [TakeOffline] + [DropBindings] == posted + MARK_OFFLINE;
  }

  method SendEvent(env: Env, log0: Log, event: Public) returns (log: Log, ok: bool)
    ensures log == Sent(env, log0, event) && (ok <==> env.alive(|log0|))
  {
    ok := env.alive(|log0|);
    log := log0 + [Send(event, ok)];
  }

  method SendCompleted(env: Env, log0: Log, chunks: seq<Public>) returns (log: Log, ok: bool)
    ensures Progress(log, ok, !ok) == SendAll(env, log0, chunks)
  {
    log := log0;
    for i := 0 to |chunks|
      invariant SendAll(env, log0, chunks) == SendAll(env, log, chunks[i..])
    {
      assert chunks[i..][0] == chunks[i] && chunks[i..][1..] == chunks[i + 1..];
      log, ok := SendEvent(env, log, chunks[i]);
      if !ok {
        log := log + [Action.Release];
        return;
      }
    }
    assert chunks[|chunks|..] == [];
    ok := true;
  }

  /** What one frame leads to. */
  method HandleFrame(env: Env, log0: Log, completed0: bool, frame: Bytes) returns (log: Log, completed: bool, over: bool)
    ensures Progress(log, completed, over) == Handle(env, Progress(log0, completed0, false), Interpret(frame))
  {
    hide CancelAndRelease, Sent, SendAll, SseData, Events.ParseEvent, CompletedChunks;
    log, completed, over := log0, completed0, false;
    var ok;
    var data := SseData(frame);
    if data.Err? {
      log, ok := SendEvent(env, log, ErrorEvent(data.error));
      log := CancelAndReleaseNow(env, log);
      return log, completed, true;
    }
    if data.value.None? || data.value.value == "[DONE]" {
      return;
    }
    var event := Events.ParseEvent(data.value.value);
    if event.None? {
      log, ok := SendEvent(env, log, ErrorEvent(InvalidEvent));
      log := CancelAndReleaseNow(env, log);
      return log, completed, true;
    }
    match event.value
    case TextDelta(text) =>
      log, ok := SendEvent(env, log, TextChunk(text));
      if !ok {
        log := CancelAndReleaseNow(env, log);
        over := true;
      }
    case Completed(input, output, calls, reason) =>
      log, ok := SendCompleted(env, log, CompletedChunks(input, output, calls, reason));
      over := !ok;
      completed := ok || completed;
    case Error(message) =>
      log, ok := SendEvent(env, log, ErrorEvent(Reported(message)));
      log := log + [Action.Release];
      over := true;
  }

  /** Handles the whole frames of the buffer, unless one of them ends the task. */
  method HandleFrames(env: Env, p0: Progress, pending0: Bytes) returns (p: Progress, pending: Bytes)
    requires !p0.over
    ensures p == Forwarded(env, p0, Readings(Cut(pending0).frames))
    ensures !p.over ==> pending == Cut(pending0).rest
  {
    hide Handle, Interpret;
    p, pending := p0, pending0;
    while true
      invariant !p.over
      invariant Forwarded(env, p0, Readings(Cut(pending0).frames)) == Forwarded(env, p, Readings(Cut(pending).frames))
      invariant Cut(pending0).rest == Cut(pending).rest
      decreases |pending|
    {
      var end := FrameEnd(pending);
      if end.None? {
        return;
      }
      var frame := pending[..end.value];
      ghost var later := Cut(pending[end.value..]);
      assert Cut(pending).frames[1..] == later.frames;
      assert Readings(Cut(pending).frames)[1..] == Readings(later.frames);
      pending := pending[end.value..];
      var log, completed, over := HandleFrame(env, p.log, p.completed, frame);
      p := Progress(log, completed, over);
      if over {
        return;
      }
    }
  }

  /** Relays a stream: the body arrives in chunks and may fail after the last of them. */
  method ForwardWorkerStream(env: Env, chunks: seq<Bytes>, bodyFailed: bool) returns (log: Log)
    ensures log == Relayed(env, Readings(Feed([], chunks).frames), bodyFailed)
  {
    hide Handle, Interpret, Readings, Cut, Sent, CancelAndRelease;
    var ok;
    log, ok := SendEvent(env, [], RoleChunk);
    if !ok {
      log := CancelAndReleaseNow(env, log);
      return;
    }
    var p, pending: Bytes := Progress(log, false, false), [];
    ghost var all := Readings(Feed([], chunks).frames);
    assert chunks[0..] == chunks;
    for i := 0 to |chunks|
      invariant !p.over
      invariant Forwarded(env, Opened(env), all) == Forwarded(env, p, Readings(Feed(pending, chunks[i..]).frames))
    {
      assert chunks[i..][0] == chunks[i] && chunks[i..][1..] == chunks[i + 1..];
      ghost var first := Cut(pending + chunks[i]);
      FeedReadings(env, p, first.frames, Feed(first.rest, chunks[i + 1..]).frames);
      p, pending := HandleFrames(env, p, pending + chunks[i]);
      if p.over {
        return p.log;
      }
    }
    assert chunks[|chunks|..] == [];
    assert Readings([]) == [] by { NoReadings(); }
    log := p.log;
    if bodyFailed {
      log := log + [TakeOffline];
      log := log + [DropBindings];
      assert log == p.log + MARK_OFFLINE;
      log, ok := SendEvent(env, log, ErrorEvent(BodyFailed));
    }
    if p.completed {
      log, ok := SendEvent(env, log, DoneMark);
      log := log + [Action.Release];
    } else {
      log, ok := SendEvent(env, log, ErrorEvent(EndedEarly));
      log := CancelAndReleaseNow(env, log);
    }
  }

  lemma NoReadings()
    ensures Readings([]) == []
  {
  }

  lemma {:induction false} ReadingsConcat(a: seq<Bytes>, b: seq<Bytes>)
    ensures Readings(a + b) == Readings(a) + Readings(b)
  {
    hide Interpret;
    if a == [] {
      assert a + b == b;
    } else {
      assert (a + b)[1..] == a[1..] + b;
      ReadingsConcat(a[1..], b);
    }
  }

  lemma {:induction false} ForwardedConcat(env: Env, p: Progress, a: seq<Reading>, b: seq<Reading>)
    ensures Forwarded(env, p, a + b) == Forwarded(env, Forwarded(env, p, a), b)
    decreases |a|
  {
    hide Handle;
    if a == [] {
      assert a + b == b;
    } else if !p.over {
      assert (a + b)[1..] == a[1..] + b;
      ForwardedConcat(env, Handle(env, p, a[0]), a[1..], b);
    }
  }

  lemma FeedReadings(env: Env, p: Progress, first: seq<Bytes>, later: seq<Bytes>)
    ensures Forwarded(env, p, Readings(first + later)) == Forwarded(env, Forwarded(env, p, Readings(first)), Readings(later))
  {
    ReadingsConcat(first, later);
    ForwardedConcat(env, p, Readings(first), Readings(later));
  }
}
