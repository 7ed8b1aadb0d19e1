/** When relaying a stream cancels the worker's request, in terms of the log alone. */
module Cancellation {
  import opened Wrappers
  import opened Forwarding
  import Chat
  import SseFraming
  import Events = StreamEvents

  /** An action after which there is nothing to cancel: the end mark, an error the worker
      reported itself, or a closing chunk the client did not take. */
  predicate Settles(a: Action) {
    a.Send? &&
    match a.event
    case DoneMark => true
    case ErrorEvent(Reported(_)) => true
    case ToolChunk(_) => !a.delivered
    case FinalChunk(_, _, _) => !a.delivered
    case _ => false
  }

  ghost predicate Settled(log: Log) {
    exists i :: 0 <= i < |log| && Settles(log[i])
  }

  /** The token is cancelled, then the worker told, then taken offline if it cannot be,
      and then the slot released; all at the end and none of it before. */
  ghost predicate Cancelled(log: Log, reachable: bool) {
    exists before: Log ::
      && CancelToken !in before && PostCancel !in before
      && log == before + [CancelToken, PostCancel] + (if reachable then [] else [TakeOffline, DropBindings]) + [Release]
  }

  ghost predicate Uncancelled(log: Log) { CancelToken !in log && PostCancel !in log }

  ghost predicate Decided(log: Log, reachable: bool) {
    if Settled(log) then Uncancelled(log) else Cancelled(log, reachable)
  }

  /** A chunk of the answer that the client did not take is the last thing sent. */
  ghost predicate Quits(log: Log) {
    forall i, j | 0 <= i < j < |log| && log[i].Send? && !log[i].delivered && !log[i].event.ErrorEvent? :: !log[j].Send?
  }

  ghost predicate NoneRefused(log: Log) {
    forall i | 0 <= i < |log| && log[i].Send? :: log[i].delivered || log[i].event.ErrorEvent?
  }

  ghost predicate Fits(env: Env, p: Progress) {
    && Quits(p.log)
    && if p.over then Decided(p.log, env.reachable) else Uncancelled(p.log) && !Settled(p.log) && NoneRefused(p.log)
  }

  // ---------------------------------------------------------------- appending

  lemma SettledConcat(a: Log, b: Log)
    ensures Settled(a + b) <==> Settled(a) || Settled(b)
  {
    if i :| 0 <= i < |a| && Settles(a[i]) { assert Settles((a + b)[i]); }
    if i :| 0 <= i < |b| && Settles(b[i]) { assert Settles((a + b)[|a| + i]); }
    if i :| 0 <= i < |a + b| && Settles((a + b)[i]) { assert (i < |a| && Settles(a[i])) || (i >= |a| && Settles(b[i - |a|])); }
  }

  lemma SettledOne(a: Action)
    ensures Settled([a]) <==> Settles(a)
  {
    if Settles(a) { assert Settles([a][0]); }
  }

  lemma NothingSent(b: Log)
    requires forall i | 0 <= i < |b| :: !b[i].Send?
    ensures !Settled(b)
  {
  }

  /** Sending after deliveries only. */
  lemma Sends(env: Env, log: Log, event: Public)
    requires Uncancelled(log) && NoneRefused(log)
    ensures Uncancelled(Sent(env, log, event)) && Quits(Sent(env, log, event))
    ensures env.alive(|log|) || event.ErrorEvent? ==> NoneRefused(Sent(env, log, event))
    ensures Settled(Sent(env, log, event)) <==> Settled(log) || Settles(Send(event, env.alive(|log|)))
  {
    SettledConcat(log, [Send(event, env.alive(|log|))]);
    SettledOne(Send(event, env.alive(|log|)));
  }

  /** Appending what is no send. */
  lemma Appends(log: Log, b: Log)
    requires Quits(log) && forall i | 0 <= i < |b| :: !b[i].Send?
    ensures Quits(log + b) && (Settled(log + b) <==> Settled(log))
    ensures NoneRefused(log) ==> NoneRefused(log + b)
    ensures Uncancelled(log) && Uncancelled(b) ==> Uncancelled(log + b)
  {
    SettledConcat(log, b);
    NothingSent(b);
    var all := log + b;
    forall i, j | 0 <= i < j < |all| && all[i].Send? && !all[i].delivered && !all[i].event.ErrorEvent? ensures !all[j].Send? {
      if j < |log| { assert all[i] == log[i] && all[j] == log[j]; } else { assert all[j] == b[j - |log|]; }
    }
  }

  lemma CancelDecides(env: Env, log: Log)
    requires Uncancelled(log) && Quits(log) && !Settled(log)
    ensures var all := CancelAndRelease(env, log); Quits(all) && Decided(all, env.reachable)
  {
    var b := [CancelToken, PostCancel] + (if env.reachable then [] else [TakeOffline, DropBindings]) + [Release];
    Appends(log, b);
    assert CancelAndRelease(env, log) == log + b;
    assert log + b == log + [CancelToken, PostCancel] + (if env.reachable then [] else [TakeOffline, DropBindings]) + [Release];
  }

  lemma ReleaseDecides(log: Log, reachable: bool)
    requires Uncancelled(log) && Quits(log) && Settled(log)
    ensures Quits(log + [Release]) && Decided(log + [Release], reachable)
  {
    Appends(log, [Release]);
  }

  // ------------------------------------------------------------------ the task

  lemma {:induction false} SendAllFits(env: Env, log: Log, chunks: seq<Public>)
    requires Uncancelled(log) && NoneRefused(log) && Quits(log) && !Settled(log)
    requires forall i | 0 <= i < |chunks| :: chunks[i].ToolChunk? || chunks[i].FinalChunk?
    ensures Fits(env, SendAll(env, log, chunks))
    decreases |chunks|
  {
    hide Uncancelled, NoneRefused, Quits, Settled, Sent, Decided;
    if chunks != [] {
      Sends(env, log, chunks[0]);
      var sent := Sent(env, log, chunks[0]);
      if env.alive(|log|) { SendAllFits(env, sent, chunks[1..]); } else { ReleaseDecides(sent, env.reachable); }
    }
  }

  lemma ClosingChunks(input: nat, output: nat, calls: seq<Chat.ToolCall>, reason: Chat.FinishReason)
    ensures var chunks := CompletedChunks(input, output, calls, reason);
            forall i | 0 <= i < |chunks| :: chunks[i].ToolChunk? || chunks[i].FinalChunk?
  {
  }

  lemma HandleFits(env: Env, p: Progress, reading: Reading)
    requires Fits(env, p) && !p.over && (reading.Bad? ==> !reading.error.Reported?)
    ensures Fits(env, Handle(env, p, reading))
  {
    hide Uncancelled, NoneRefused, Quits, Settled, Sent, Decided, CancelAndRelease, SendAll, CompletedChunks;
    match reading
    case Skip =>
    case Bad(e) =>
      Sends(env, p.log, ErrorEvent(e));
      CancelDecides(env, Sent(env, p.log, ErrorEvent(e)));
    case Got(TextDelta(text)) =>
      Sends(env, p.log, TextChunk(text));
      if !env.alive(|p.log|) { CancelDecides(env, Sent(env, p.log, TextChunk(text))); }
    case Got(Completed(input, output, calls, reason)) =>
      ClosingChunks(input, output, calls, reason);
      SendAllFits(env, p.log, CompletedChunks(input, output, calls, reason));
    case Got(Error(message)) =>
      Sends(env, p.log, ErrorEvent(Reported(message)));
      ReleaseDecides(Sent(env, p.log, ErrorEvent(Reported(message))), env.reachable);
  }

  /** Readings as they come from frames: what cannot be read is not reported by the worker. */
  ghost predicate FromFrames(readings: seq<Reading>) {
    forall i | 0 <= i < |readings| && readings[i].Bad? :: readings[i].error == InvalidUtf8 || readings[i].error == InvalidEvent
  }

  lemma {:induction false} FramesAreRead(frames: seq<SseFraming.Bytes>)
    ensures FromFrames(Readings(frames))
  {
    if frames != [] { FramesAreRead(frames[1..]); }
  }

  lemma {:induction false} ForwardedFits(env: Env, p: Progress, readings: seq<Reading>)
    requires Fits(env, p) && FromFrames(readings)
    ensures Fits(env, Forwarded(env, p, readings))
    decreases |readings|
  {
    hide Fits, Handle;
    if readings != [] && !p.over {
      HandleFits(env, p, readings[0]);
      ForwardedFits(env, Handle(env, p, readings[0]), readings[1..]);
    }
  }

  lemma OpenedFits(env: Env)
    ensures Fits(env, Opened(env))
  {
    hide Settled, Sent, Decided, CancelAndRelease;
    assert !Settled([]) by { NothingSent([]); }
    Sends(env, [], RoleChunk);
    if !env.alive(0) { CancelDecides(env, Sent(env, [], RoleChunk)); }
  }

  lemma EndedFits(env: Env, p: Progress, bodyFailed: bool)
    requires Fits(env, p)
    ensures Quits(Ended(env, p, bodyFailed)) && Decided(Ended(env, p, bodyFailed), env.reachable)
  {
    hide Uncancelled, NoneRefused, Quits, Settled, Sent, Decided, CancelAndRelease;
    if !p.over {
      MarkingIsQuiet();
      Appends(p.log, MARK_OFFLINE);
      Sends(env, p.log + MARK_OFFLINE, ErrorEvent(BodyFailed));
      var log := if bodyFailed then Sent(env, p.log + MARK_OFFLINE, ErrorEvent(BodyFailed)) else p.log;
      if p.completed {
        Sends(env, log, DoneMark);
        ReleaseDecides(Sent(env, log, DoneMark), env.reachable);
      } else {
        Sends(env, log, ErrorEvent(EndedEarly));
        CancelDecides(env, Sent(env, log, ErrorEvent(EndedEarly)));
      }
    }
  }

  lemma MarkingIsQuiet()
    ensures forall i | 0 <= i < |MARK_OFFLINE| :: !MARK_OFFLINE[i].Send?
    ensures Uncancelled(MARK_OFFLINE)
  {
  }

  /** A relayed stream either is settled, by the end mark, by an error the worker reported
      or by a closing chunk the client did not take, and then nothing is cancelled; or it
      ends by cancelling the token, telling the worker, and taking it offline exactly if
      it cannot be told. A refused chunk is the last one sent. */
  lemma CancelledExactly(env: Env, frames: seq<SseFraming.Bytes>, bodyFailed: bool)
    ensures var log := Relayed(env, Readings(frames), bodyFailed);
            && (Settled(log) ==> CancelToken !in log && PostCancel !in log)
            && (!Settled(log) ==> Cancelled(log, env.reachable))
            && Quits(log)
  {
    hide Quits, Fits, Readings, Forwarded, Ended;
    FramesAreRead(frames);
    OpenedFits(env);
    ForwardedFits(env, Opened(env), Readings(frames));
    EndedFits(env, Forwarded(env, Opened(env), Readings(frames)), bodyFailed);
  }
}
