/** What the relayed stream guarantees, from the worker's events to the client. */
module StreamDelivery {
  import opened Wrappers
  import opened Text
  import opened Json
  import opened Chat
  import opened SseFraming
  import opened Utf8
  import opened Forwarding
  import Events = StreamEvents

  // ------------------------------------------------------ exactly one release

  /** The log ends with its only release. */
  ghost predicate ReleasedOnce(log: Log) {
    log != [] && log[|log| - 1] == Release && Release !in log[..|log| - 1]
  }

  ghost predicate ReleaseFits(p: Progress) {
    if p.over then ReleasedOnce(p.log) else Release !in p.log
  }

  lemma LastRelease(log: Log)
    requires Release !in log
    ensures ReleasedOnce(log + [Release])
  {
    assert (log + [Release])[..|log|] == log;
  }

  lemma CancelReleases(env: Env, log: Log)
    requires Release !in log
    ensures ReleasedOnce(CancelAndRelease(env, log))
  {
    LastRelease(log + [CancelToken, PostCancel] + (if env.reachable then [] else MARK_OFFLINE));
  }

  lemma {:induction false} SendAllReleases(env: Env, log: Log, chunks: seq<Public>)
    requires Release !in log
    ensures ReleaseFits(SendAll(env, log, chunks))
    decreases |chunks|
  {
    if chunks != [] {
      LastRelease(Sent(env, log, chunks[0]));
      if env.alive(|log|) { SendAllReleases(env, Sent(env, log, chunks[0]), chunks[1..]); }
    }
  }

  lemma HandleReleases(env: Env, p: Progress, reading: Reading)
    requires ReleaseFits(p) && !p.over
    ensures ReleaseFits(Handle(env, p, reading))
  {
    hide CancelAndRelease, SendAll, ReleasedOnce, CompletedChunks;
    match reading
    case Skip =>
    case Bad(e) => CancelReleases(env, Sent(env, p.log, ErrorEvent(e)));
    case Got(TextDelta(text)) => CancelReleases(env, Sent(env, p.log, TextChunk(text)));
    case Got(Completed(input, output, calls, reason)) => SendAllReleases(env, p.log, CompletedChunks(input, output, calls, reason));
    case Got(Error(message)) => LastRelease(Sent(env, p.log, ErrorEvent(Reported(message))));
  }

  lemma {:induction false} ForwardedReleases(env: Env, p: Progress, readings: seq<Reading>)
    requires ReleaseFits(p)
    ensures ReleaseFits(Forwarded(env, p, readings))
    decreases |readings|
  {
    hide Handle, ReleaseFits;
    if readings != [] && !p.over {
      HandleReleases(env, p, readings[0]);
      ForwardedReleases(env, Handle(env, p, readings[0]), readings[1..]);
    }
  }

  /** Whatever the worker sends, and wherever the client or the worker goes away, the
      task releases its reservation exactly once, as its last action. */
  lemma ReleasesExactlyOnce(env: Env, readings: seq<Reading>, bodyFailed: bool)
    ensures ReleasedOnce(Relayed(env, readings, bodyFailed))
  {
    hide CancelAndRelease, ReleasedOnce;
    CancelReleases(env, Sent(env, [], RoleChunk));
    ForwardedReleases(env, Opened(env), readings);
    var p := Forwarded(env, Opened(env), readings);
    if !p.over {
      var log := if bodyFailed then Sent(env, p.log + MARK_OFFLINE, ErrorEvent(BodyFailed)) else p.log;
      LastRelease(Sent(env, log, DoneMark));
      CancelReleases(env, Sent(env, log, ErrorEvent(EndedEarly)));
    }
  }

  // ------------------------------------- end of stream only after completion

  ghost predicate Offered(log: Log, event: Public) {
    Send(event, true) in log || Send(event, false) in log
  }

  ghost predicate OffersError(log: Log) {
    exists e :: Offered(log, ErrorEvent(e))
  }

  /** A whole answer has arrived. */
  ghost predicate SawCompleted(readings: seq<Reading>) {
    exists i :: 0 <= i < |readings| && readings[i].Got? && readings[i].event.Completed?
  }

  ghost predicate DoneFits(p: Progress) {
    !Offered(p.log, DoneMark) && (!p.over ==> !OffersError(p.log))
  }

  lemma {:induction false} SendAllDone(env: Env, log: Log, chunks: seq<Public>)
    requires !Offered(log, DoneMark) && !OffersError(log)
    requires forall i | 0 <= i < |chunks| :: !chunks[i].DoneMark? && !chunks[i].ErrorEvent?
    ensures DoneFits(SendAll(env, log, chunks)) && !OffersError(SendAll(env, log, chunks).log)
    decreases |chunks|
  {
    if chunks != [] {
      var sent := Sent(env, log, chunks[0]);
      assert !OffersError(sent) by {
        forall e ensures !Offered(sent, ErrorEvent(e)) { assert !Offered(log, ErrorEvent(e)); }
      }
      if env.alive(|log|) {
        SendAllDone(env, sent, chunks[1..]);
      } else {
        forall e ensures !Offered(sent + [Release], ErrorEvent(e)) { assert !Offered(sent, ErrorEvent(e)); }
      }
    }
  }

  lemma ChunksAreNotEnds(input: nat, output: nat, calls: seq<ToolCall>, reason: FinishReason)
    ensures var chunks := CompletedChunks(input, output, calls, reason);
            forall i | 0 <= i < |chunks| :: !chunks[i].DoneMark? && !chunks[i].ErrorEvent?
  {
  }

  lemma HandleDone(env: Env, p: Progress, reading: Reading)
    requires DoneFits(p) && !p.over
    ensures DoneFits(Handle(env, p, reading))
    ensures Handle(env, p, reading).completed ==> p.completed || SawCompleted([reading])
  {
    match reading
    case Got(TextDelta(text)) =>
      var sent := Sent(env, p.log, TextChunk(text));
      forall e ensures !Offered(sent, ErrorEvent(e)) { assert !Offered(p.log, ErrorEvent(e)); }
    case Got(Completed(input, output, calls, reason)) =>
      assert [reading][0] == reading;
      ChunksAreNotEnds(input, output, calls, reason);
      SendAllDone(env, p.log, CompletedChunks(input, output, calls, reason));
    case _ =>
  }

  lemma {:induction false} ForwardedDone(env: Env, p: Progress, readings: seq<Reading>)
    requires DoneFits(p)
    ensures DoneFits(Forwarded(env, p, readings))
    ensures Forwarded(env, p, readings).completed ==> p.completed || SawCompleted(readings)
    decreases |readings|
  {
    hide Handle, DoneFits;
    if readings != [] && !p.over {
      HandleDone(env, p, readings[0]);
      ForwardedDone(env, Handle(env, p, readings[0]), readings[1..]);
      if SawCompleted([readings[0]]) {
        assert readings[0].Got? && readings[0].event.Completed?;
      } else if SawCompleted(readings[1..]) {
        var i :| 0 <= i < |readings[1..]| && readings[1..][i].Got? && readings[1..][i].event.Completed?;
        assert readings[i + 1] == readings[1..][i];
      }
    }
  }

  lemma OpenedDone(env: Env)
    ensures DoneFits(Opened(env)) && !Opened(env).completed
  {
    var log := Opened(env).log;
    forall e ensures !Offered(log, ErrorEvent(e)) {}
  }

  /** The end mark is offered exactly when the task got to the end of the body having
      seen a completed answer; so never without a whole completed event. */
  lemma DoneNeedsCompleted(env: Env, readings: seq<Reading>, bodyFailed: bool)
    ensures var p := Forwarded(env, Opened(env), readings);
            Offered(Relayed(env, readings, bodyFailed), DoneMark) <==> !p.over && p.completed
    ensures Offered(Relayed(env, readings, bodyFailed), DoneMark) ==> SawCompleted(readings)
  {
    hide DoneFits;
    OpenedDone(env);
    ForwardedDone(env, Opened(env), readings);
    EndDone(env, Forwarded(env, Opened(env), readings), bodyFailed);
  }

  lemma EndDone(env: Env, p: Progress, bodyFailed: bool)
    requires DoneFits(p)
    ensures Offered(Ended(env, p, bodyFailed), DoneMark) <==> !p.over && p.completed
    ensures Offered(Ended(env, p, bodyFailed), DoneMark) ==> (OffersError(Ended(env, p, bodyFailed)) <==> bodyFailed)
  {
    hide OffersError;
    if !p.over && p.completed { EndError(env, p, bodyFailed); }
  }

  lemma EndError(env: Env, p: Progress, bodyFailed: bool)
    requires DoneFits(p) && !p.over && p.completed
    ensures Offered(Ended(env, p, bodyFailed), DoneMark)
    ensures OffersError(Ended(env, p, bodyFailed)) <==> bodyFailed
  {
    var log := if bodyFailed then Sent(env, p.log + MARK_OFFLINE, ErrorEvent(BodyFailed)) else p.log;
    var all := Sent(env, log, DoneMark) + [Release];
    assert all[|log|] == Send(DoneMark, env.alive(|log|));
    if bodyFailed {
      assert all[|p.log| + 2] == Send(ErrorEvent(BodyFailed), env.alive(|p.log| + 2));
      assert Offered(all, ErrorEvent(BodyFailed));
    } else {
      forall e ensures !Offered(all, ErrorEvent(e)) { assert !Offered(p.log, ErrorEvent(e)); }
    }
  }

  /** A client that is offered the end mark is also offered an error exactly when the
      body failed after the completed event. */
  lemma ErrorBesideDone(env: Env, readings: seq<Reading>, bodyFailed: bool)
    requires Offered(Relayed(env, readings, bodyFailed), DoneMark)
    ensures OffersError(Relayed(env, readings, bodyFailed)) <==> bodyFailed
  {
    hide DoneFits;
    OpenedDone(env);
    ForwardedDone(env, Opened(env), readings);
    EndDone(env, Forwarded(env, Opened(env), readings), bodyFailed);
  }

  // ------------------------------------------------------------- end to end

  /** An event as the worker's server writes it, and the line before its empty line. */
  function DataLine(payload: string): string { "data: " + payload }

  function Wire(payload: string): Bytes { Encode(DataLine(payload) + "\n\n") }

  /** The worker's body: its events, then the end mark. */
  function WireBody(events: seq<Events.Event>): Bytes {
    if events == [] then Wire("[DONE]") else Wire(Events.Payload(events[0])) + WireBody(events[1..])
  }

  ghost predicate AllSendable(events: seq<Events.Event>) {
    forall i | 0 <= i < |events| :: Events.Sendable(events[i])
  }

  ghost predicate OneLine(s: string) { '\n' !in s && '\r' !in s }

  lemma TwoFeeds()
    ensures Encode("\n\n") == LF_LF
  {
    assert "\n\n"[1..] == "\n" && "\n"[1..] == "";
    assert Encode("\n") == [LF];
  }

  /** A written line is one frame, whatever follows it. */
  lemma WireIsAFrame(payload: string, rest: Bytes)
    requires OneLine(payload)
    ensures FrameEnd(Wire(payload) + rest) == Some(|Wire(payload)|)
    ensures CR !in Wire(payload)
  {
    var line := Encode(DataLine(payload));
    EncodeConcat(DataLine(payload), "\n\n");
    TwoFeeds();
    AsciiByte(DataLine(payload), '\n');
    AsciiByte(DataLine(payload), '\r');
    FirstFeed(line, rest);
    assert Wire(payload) + rest == line + LF_LF + rest;
  }

  lemma FirstFeed(line: Bytes, rest: Bytes)
    requires LF !in line
    ensures Find(line + LF_LF + rest, LF_LF) == Some(|line|)
  {
    var all := line + LF_LF + rest;
    assert all[|line|..|line| + 2] == LF_LF;
    forall i: nat | i < |line| ensures !OccursAt(all, LF_LF, i) {
      assert all[i..i + 2][0] == line[i];
    }
    FindIs(all, LF_LF, |line|);
  }

  lemma LinesOfFrame(line: string)
    requires OneLine(line)
    ensures Lines(line + "\n\n") == [line, ""]
  {
    var text := line + "\n\n";
    assert text[|line|..|line| + 1] == "\n";
    forall i: nat | i < |line| ensures !OccursAt(text, "\n", i) {
      assert text[i..i + 1][0] == line[i];
    }
    FindIs(text, "\n", |line|);
    assert text[..|line|] == line && text[|line| + 1..] == "\n";
    LastLine();
  }

  lemma LastLine()
    ensures Lines("\n") == [""]
  {
    assert OccursAt("\n", "\n", 0);
    FindIs("\n", "\n", 0);
    assert "\n"[..0] == "" && "\n"[1..] == "";
  }

  /** The data of a written line is its payload. */
  lemma WireData(payload: string)
    requires OneLine(payload) && payload != [] && !IsWhitespace(payload[0])
    ensures SseData(Wire(payload)) == Ok(Some(payload))
  {
    hide Lines, Decode, Encode, DataLines;
    var line := DataLine(payload);
    DecodeEncode(line + "\n\n");
    LinesOfFrame(line);
    DataOfLine(payload);
  }

  lemma DataOfLine(payload: string)
    requires payload != [] && !IsWhitespace(payload[0])
    ensures DataLines([DataLine(payload), ""]) == [payload]
  {
    var line := DataLine(payload);
    assert line[..|DATA|] == DATA && line[|DATA|..] == " " + payload;
    assert (" " + payload)[1..] == payload;
    assert TrimStart(" " + payload) == payload;
    assert [line, ""][1..] == [""] && [""][1..] == [];
    assert DataLines([""]) == [];
    assert DataLines([line, ""]) == [payload];
  }

  /** An event arrives as it was sent, or not at all if it nests too deep. */
  function Arriving(event: Events.Event): Reading {
    if Events.Shallow(event) then Got(event) else Bad(InvalidEvent)
  }

  lemma WireReads(event: Events.Event)
    requires Events.Sendable(event)
    ensures Interpret(Wire(Events.Payload(event))) == Arriving(event)
  {
    hide SseData;
    Events.PayloadIsALine(event);
    WireData(Events.Payload(event));
    Events.PayloadRoundTrip(event);
    assert "[DONE]"[0] == '[';
  }

  lemma DoneReads()
    ensures Interpret(Wire("[DONE]")) == Skip
  {
    hide SseData;
    WireData("[DONE]");
  }

  function ArrivingAll(events: seq<Events.Event>): seq<Reading> {
    if events == [] then [Skip] else [Arriving(events[0])] + ArrivingAll(events[1..])
  }

  lemma CutWire(payload: string, rest: Bytes)
    requires OneLine(payload)
    ensures Cut(Wire(payload) + rest) == Front([Wire(payload)], Cut(rest))
  {
    hide Cut, FrameEnd, Wire;
    WireIsAFrame(payload, rest);
    var all := Wire(payload) + rest;
    assert all[..|Wire(payload)|] == Wire(payload) && all[|Wire(payload)|..] == rest;
    CutOnce(all, |Wire(payload)|);
  }

  lemma CutOnce(all: Bytes, end: nat)
    requires FrameEnd(all) == Some(end)
    ensures end <= |all| && Cut(all) == Front([all[..end]], Cut(all[end..]))
  {
  }

  lemma {:induction false} BodyReads(events: seq<Events.Event>)
    requires AllSendable(events)
    ensures Readings(Cut(WireBody(events)).frames) == ArrivingAll(events)
    ensures CR !in WireBody(events)
  {
    hide Interpret, Wire, Cut, Arriving, Events.Payload, Events.Sendable;
    if events == [] {
      var done := Wire("[DONE]");
      WireIsAFrame("[DONE]", []);
      CutWire("[DONE]", []);
      assert done + [] == done;
      CutNothing();
      DoneReads();
      OneReading(done);
    } else {
      var payload, rest := Events.Payload(events[0]), WireBody(events[1..]);
      Events.PayloadIsALine(events[0]);
      WireIsAFrame(payload, rest);
      CutWire(payload, rest);
      WireReads(events[0]);
      BodyReads(events[1..]);
      assert ([Wire(payload)] + Cut(rest).frames)[1..] == Cut(rest).frames;
    }
  }

  lemma OneReading(frame: Bytes)
    ensures Readings([frame] + []) == [Interpret(frame)]
  {
    hide Interpret;
    var one := [frame] + [];
    assert one[1..] == [];
  }

  /** However its body is split into chunks, a worker's stream reaches the task as the
      events it sent. */
  lemma EventsArrive(events: seq<Events.Event>, chunks: seq<Bytes>)
    requires AllSendable(events) && Flatten(chunks) == WireBody(events)
    ensures Readings(Feed([], chunks).frames) == ArrivingAll(events)
  {
    hide Cut, Feed, Readings, ArrivingAll, WireBody;
    BodyReads(events);
    LineFeedsOnly(WireBody(events), chunks);
  }

  /** A completed event, and then the body fails: a client that stays is sent the final
      chunk, an error, and still the end mark. */
  lemma CompletedThenBroken(env: Env)
    requires StaysAlive(env)
    ensures var body := [Wire(Events.Payload(Events.Completed(1, 1, [], Stop)))];
            Relayed(env, Readings(Feed([], body).frames), true) ==
            [Send(RoleChunk, true), Send(FinalChunk(Stop, 1, 1), true), TakeOffline, DropBindings,
             Send(ErrorEvent(BodyFailed), true), Send(DoneMark, true), Release]
  {
    hide Relayed, Readings, Feed, Wire, Events.Payload;
    BodyOfOne(Events.Completed(1, 1, [], Stop));
    OnlyCompleted(env);
  }

  lemma OnlyCompleted(env: Env)
    requires StaysAlive(env)
    ensures Relayed(env, [Got(Events.Completed(1, 1, [], Stop))], true) ==
            [Send(RoleChunk, true), Send(FinalChunk(Stop, 1, 1), true), TakeOffline, DropBindings,
             Send(ErrorEvent(BodyFailed), true), Send(DoneMark, true), Release]
  {
    hide SendAll, CompletedChunks;
    var reading := Got(Events.Completed(1, 1, [], Stop));
    var role, final := [Send(RoleChunk, true)], [Send(FinalChunk(Stop, 1, 1), true)];
    assert Opened(env) == Progress(role, false, false);
    assert CompletedChunks(1, 1, [], Stop) == [FinalChunk(Stop, 1, 1)] by { JustFinal(); }
    OneSent(env, role, FinalChunk(Stop, 1, 1));
    var p := Progress(role + final, true, false);
    assert Handle(env, Opened(env), reading) == p;
    assert [reading][1..] == [] && Forwarded(env, p, []) == p;
    assert Forwarded(env, Opened(env), [reading]) == p;
    EndedBroken(env, p);
  }

  lemma JustFinal()
    ensures CompletedChunks(1, 1, [], Stop) == [FinalChunk(Stop, 1, 1)]
  {
  }

  lemma EndedBroken(env: Env, p: Progress)
    requires StaysAlive(env) && !p.over && p.completed
    ensures Ended(env, p, true) == p.log + [TakeOffline, DropBindings, Send(ErrorEvent(BodyFailed), true), Send(DoneMark, true), Release]
  {
    assert env.alive(|p.log + MARK_OFFLINE|) && env.alive(|p.log + MARK_OFFLINE| + 1);
  }

  lemma BodyOfOne(event: Events.Event)
    requires Events.Sendable(event) && Events.Shallow(event)
    ensures Readings(Feed([], [Wire(Events.Payload(event))]).frames) == [Got(event)]
  {
    hide Wire, Cut, Interpret, Events.Payload, Feed, Events.Sendable, Events.Shallow;
    var payload := Events.Payload(event);
    Events.PayloadIsALine(event);
    CutWire(payload, []);
    CutNothing();
    assert Wire(payload) + [] == Wire(payload) && [] + Wire(payload) == Wire(payload);
    FeedOne([], Wire(payload));
    OneReading(Wire(payload));
    WireReads(event);
  }

  lemma OneSent(env: Env, log: Log, chunk: Public)
    requires StaysAlive(env)
    ensures SendAll(env, log, [chunk]) == Progress(log + [Send(chunk, true)], true, false)
  {
    assert env.alive(|log|) && [chunk][1..] == [];
    assert SendAll(env, Sent(env, log, chunk), []) == Progress(Sent(env, log, chunk), true, false);
  }

  function AllSent(events: seq<Public>): Log {
    if events == [] then [] else [Send(events[0], true)] + AllSent(events[1..])
  }

  function Deltas(texts: seq<string>): seq<Events.Event> {
    if texts == [] then [] else [Events.TextDelta(texts[0])] + Deltas(texts[1..])
  }

  function TextChunks(texts: seq<string>): seq<Public> {
    if texts == [] then [] else [TextChunk(texts[0])] + TextChunks(texts[1..])
  }

  ghost predicate StaysAlive(env: Env) {
    forall n :: env.alive(n)
  }

  lemma {:induction false} AllSentConcat(a: seq<Public>, b: seq<Public>)
    ensures AllSent(a + b) == AllSent(a) + AllSent(b)
  {
    if a == [] {
      assert a + b == b;
    } else {
      assert (a + b)[1..] == a[1..] + b;
      AllSentConcat(a[1..], b);
    }
  }

  lemma SentIs(env: Env, log: Log, event: Public, rest: seq<Public>)
    requires StaysAlive(env)
    ensures Sent(env, log, event) + AllSent(rest) == log + AllSent([event] + rest)
  {
    assert ([event] + rest)[1..] == rest;
    assert env.alive(|log|);
  }

  lemma {:induction false} SendAllSends(env: Env, log: Log, chunks: seq<Public>)
    requires StaysAlive(env)
    ensures SendAll(env, log, chunks) == Progress(log + AllSent(chunks), true, false)
    decreases |chunks|
  {
    hide Sent;
    if chunks == [] {
      assert log + AllSent([]) == log;
    } else {
      assert env.alive(|log|);
      SendAllSends(env, Sent(env, log, chunks[0]), chunks[1..]);
      SentIs(env, log, chunks[0], chunks[1..]);
      assert [chunks[0]] + chunks[1..] == chunks;
    }
  }

  /** Deltas are passed on one by one. */
  lemma {:induction false} DeltasForward(env: Env, log: Log, texts: seq<string>, last: Events.Event)
    requires StaysAlive(env)
    ensures Forwarded(env, Progress(log, false, false), ArrivingAll(Deltas(texts) + [last])) ==
            Forwarded(env, Progress(log + AllSent(TextChunks(texts)), false, false), [Arriving(last), Skip])
    decreases |texts|
  {
    hide Sent;
    if texts == [] {
      assert Deltas(texts) + [last] == [last] && [last][1..] == [];
      assert ArrivingAll([last]) == [Arriving(last), Skip];
      assert log + AllSent(TextChunks(texts)) == log;
    } else {
      var events := Deltas(texts) + [last];
      assert events[0] == Events.TextDelta(texts[0]) && events[1..] == Deltas(texts[1..]) + [last];
      var next := Sent(env, log, TextChunk(texts[0]));
      assert env.alive(|log|);
      assert ArrivingAll(events)[0] == Got(Events.TextDelta(texts[0])) && ArrivingAll(events)[1..] == ArrivingAll(events[1..]);
      DeltasForward(env, next, texts[1..], last);
      SentIs(env, log, TextChunk(texts[0]), TextChunks(texts[1..]));
    }
  }

  lemma {:induction false} DeltasSendable(texts: seq<string>, last: Events.Event)
    requires Events.Sendable(last)
    ensures AllSendable(Deltas(texts) + [last])
  {
    if texts != [] {
      DeltasSendable(texts[1..], last);
      var events := Deltas(texts) + [last];
      assert events[1..] == Deltas(texts[1..]) + [last];
      forall i | 0 <= i < |events| ensures Events.Sendable(events[i]) {
        assert i == 0 || events[i] == events[1..][i - 1];
      }
    }
  }

  /** The last two readings of a complete stream. */
  lemma LastReadings(env: Env, log: Log, last: Events.Event)
    requires StaysAlive(env) && last.Completed?
    ensures Ended(env, Forwarded(env, Progress(log, false, false), [Arriving(last), Skip]), false) ==
            if Events.Shallow(last)
            then log + AllSent(CompletedChunks(last.inputTokens, last.outputTokens, last.calls, last.reason) + [DoneMark]) + [Release]
            else CancelAndRelease(env, log + AllSent([ErrorEvent(InvalidEvent)]))
  {
    hide CancelAndRelease, CompletedChunks, Sent, Events.Shallow;
    assert [Arriving(last), Skip][1..] == [Skip] && [Skip][1..] == [];
    var p := Progress(log, false, false);
    var chunks := CompletedChunks(last.inputTokens, last.outputTokens, last.calls, last.reason);
    SendAllSends(env, log, chunks);
    var q := Handle(env, p, Arriving(last));
    assert Forwarded(env, q, [Skip]) == q by { SkipIsNothing(env, q); }
    AllSentConcat(chunks, [DoneMark]);
    JustSent(env, log, ErrorEvent(InvalidEvent));
    JustSent(env, log + AllSent(chunks), DoneMark);
    assert log + AllSent(chunks) + AllSent([DoneMark]) == log + AllSent(chunks + [DoneMark]);
  }

  lemma SkipIsNothing(env: Env, q: Progress)
    ensures Forwarded(env, q, [Skip]) == q
  {
    assert [Skip][1..] == [];
    assert q.over || Handle(env, q, Skip) == q;
    assert Forwarded(env, q, []) == q;
  }

  lemma JustSent(env: Env, log: Log, event: Public)
    requires StaysAlive(env)
    ensures Sent(env, log, event) == log + AllSent([event])
  {
    SentIs(env, log, event, []);
    assert [event] + [] == [event];
    assert Sent(env, log, event) + [] == Sent(env, log, event);
  }

  lemma ClosingSequence(before: seq<Public>, last: Events.Event)
    requires last.Completed?
    ensures before + (CompletedChunks(last.inputTokens, last.outputTokens, last.calls, last.reason) + [DoneMark]) ==
            before + (if last.calls == [] then [] else [ToolChunk(PublicCalls(last.calls, 0))]) +
            [FinalChunk(last.reason, last.inputTokens, last.outputTokens), DoneMark]
  {
  }

  lemma CancelSequence(env: Env, log: Log)
    ensures CancelAndRelease(env, log) ==
            log + [CancelToken, PostCancel] + (if env.reachable then [] else [TakeOffline, DropBindings]) + [Release]
  {
  }

  /** End to end: a worker that streams some deltas, its completed event and the end
      mark, in chunks of any shape, to a client that stays, makes the client see the
      role, the deltas in order, a chunk of tool calls if there are any, the final chunk
      and the end mark, and nothing else; then the reservation is released. Only a tool
      call nesting its arguments too deep for the wire turns the end into an error. */
  lemma EndToEnd(env: Env, texts: seq<string>, last: Events.Event, chunks: seq<Bytes>)
    requires StaysAlive(env) && last.Completed? && Events.Sendable(last)
    requires Flatten(chunks) == WireBody(Deltas(texts) + [last])
    ensures Relayed(env, Readings(Feed([], chunks).frames), false) ==
            if Events.Shallow(last)
            then AllSent([RoleChunk] + TextChunks(texts) + (if last.calls == [] then [] else [ToolChunk(PublicCalls(last.calls, 0))]) +
                         [FinalChunk(last.reason, last.inputTokens, last.outputTokens), DoneMark]) + [Release]
            else AllSent([RoleChunk] + TextChunks(texts) + [ErrorEvent(InvalidEvent)]) + [CancelToken, PostCancel] +
                 (if env.reachable then [] else [TakeOffline, DropBindings]) + [Release]
  {
    ClosingSequence([RoleChunk] + TextChunks(texts), last);
    CancelSequence(env, AllSent([RoleChunk] + TextChunks(texts) + [ErrorEvent(InvalidEvent)]));
    hide CancelAndRelease, CompletedChunks, Sent, Events.Shallow, Events.Sendable, Readings, Feed, WireBody, Ended, Forwarded, Deltas, TextChunks;
    DeltasSendable(texts, last);
    EventsArrive(Deltas(texts) + [last], chunks);
    assert env.alive(0);
    JustSent(env, [], RoleChunk);
    var opening := Sent(env, [], RoleChunk);
    DeltasForward(env, opening, texts, last);
    var log := opening + AllSent(TextChunks(texts));
    LastReadings(env, log, last);
    AllSentConcat([RoleChunk], TextChunks(texts));
    assert [] + AllSent([RoleChunk]) == AllSent([RoleChunk]);
    AllSentConcat([RoleChunk] + TextChunks(texts), CompletedChunks(last.inputTokens, last.outputTokens, last.calls, last.reason) + [DoneMark]);
    AllSentConcat([RoleChunk] + TextChunks(texts), [ErrorEvent(InvalidEvent)]);
  }

  /** A worker that fails after some deltas: the client sees them and the worker's error;
      the slot is released and nothing cancelled. */
  lemma WorkerErrorArrives(env: Env, texts: seq<string>, message: string, chunks: seq<Bytes>)
    requires StaysAlive(env) && Flatten(chunks) == WireBody(Deltas(texts) + [Events.Event.Error(message)])
    ensures Relayed(env, Readings(Feed([], chunks).frames), false) ==
            AllSent([RoleChunk] + TextChunks(texts) + [ErrorEvent(Reported(message))]) + [Release]
  {
    hide Sent, Readings, Feed, WireBody, Ended, Forwarded, Deltas, TextChunks;
    var last := Events.Event.Error(message);
    DeltasSendable(texts, last);
    EventsArrive(Deltas(texts) + [last], chunks);
    assert env.alive(0);
    JustSent(env, [], RoleChunk);
    DeltasForward(env, Sent(env, [], RoleChunk), texts, last);
    var log := Sent(env, [], RoleChunk) + AllSent(TextChunks(texts));
    ErrorEnds(env, log, message);
    AllSentConcat([RoleChunk], TextChunks(texts));
    assert [] + AllSent([RoleChunk]) == AllSent([RoleChunk]);
    AllSentConcat([RoleChunk] + TextChunks(texts), [ErrorEvent(Reported(message))]);
  }

  lemma ErrorEnds(env: Env, log: Log, message: string)
    requires StaysAlive(env)
    ensures Ended(env, Forwarded(env, Progress(log, false, false), [Arriving(Events.Event.Error(message)), Skip]), false) ==
            log + AllSent([ErrorEvent(Reported(message))]) + [Release]
  {
    hide Sent;
    assert [Got(Events.Event.Error(message)), Skip][1..] == [Skip];
    JustSent(env, log, ErrorEvent(Reported(message)));
    var q := Handle(env, Progress(log, false, false), Got(Events.Event.Error(message)));
    SkipIsNothing(env, q);
  }

  /** A worker that stops after some deltas without completing: the client sees them and
      an error, and the worker's request is cancelled. */
  lemma EarlyEndArrives(env: Env, texts: seq<string>, chunks: seq<Bytes>)
    requires StaysAlive(env) && Flatten(chunks) == WireBody(Deltas(texts))
    ensures Relayed(env, Readings(Feed([], chunks).frames), false) ==
            AllSent([RoleChunk] + TextChunks(texts) + [ErrorEvent(EndedEarly)]) + [CancelToken, PostCancel] +
            (if env.reachable then [] else [TakeOffline, DropBindings]) + [Release]
  {
    hide Sent, Readings, Feed, WireBody, Ended, Forwarded, Deltas, TextChunks, CancelAndRelease;
    JustDeltasSendable(texts);
    EventsArrive(Deltas(texts), chunks);
    assert env.alive(0);
    JustSent(env, [], RoleChunk);
    JustDeltasForward(env, Sent(env, [], RoleChunk), texts);
    var log := Sent(env, [], RoleChunk) + AllSent(TextChunks(texts));
    EndsEarly(env, log);
    AllSentConcat([RoleChunk], TextChunks(texts));
    assert [] + AllSent([RoleChunk]) == AllSent([RoleChunk]);
    AllSentConcat([RoleChunk] + TextChunks(texts), [ErrorEvent(EndedEarly)]);
    CancelSequence(env, AllSent([RoleChunk] + TextChunks(texts) + [ErrorEvent(EndedEarly)]));
  }

  lemma EndsEarly(env: Env, log: Log)
    requires StaysAlive(env)
    ensures Ended(env, Progress(log, false, false), false) == CancelAndRelease(env, log + AllSent([ErrorEvent(EndedEarly)]))
  {
    hide Sent, CancelAndRelease;
    JustSent(env, log, ErrorEvent(EndedEarly));
  }

  lemma {:induction false} JustDeltasSendable(texts: seq<string>)
    ensures AllSendable(Deltas(texts))
  {
    if texts != [] {
      JustDeltasSendable(texts[1..]);
      forall i | 0 <= i < |Deltas(texts)| ensures Events.Sendable(Deltas(texts)[i]) {
        assert i == 0 || Deltas(texts)[i] == Deltas(texts[1..])[i - 1];
      }
    }
  }

  lemma {:induction false} JustDeltasForward(env: Env, log: Log, texts: seq<string>)
    requires StaysAlive(env)
    ensures Forwarded(env, Progress(log, false, false), ArrivingAll(Deltas(texts))) == Progress(log + AllSent(TextChunks(texts)), false, false)
    decreases |texts|
  {
    hide Sent;
    if texts == [] {
      SkipIsNothing(env, Progress(log, false, false));
      assert ArrivingAll(Deltas(texts)) == [Skip] && log + AllSent(TextChunks(texts)) == log;
    } else {
      var events := Deltas(texts);
      assert events[0] == Events.TextDelta(texts[0]) && events[1..] == Deltas(texts[1..]);
      assert env.alive(|log|);
      assert ArrivingAll(events)[0] == Got(Events.TextDelta(texts[0])) && ArrivingAll(events)[1..] == ArrivingAll(events[1..]);
      JustDeltasForward(env, Sent(env, log, TextChunk(texts[0])), texts[1..]);
      SentIs(env, log, TextChunk(texts[0]), TextChunks(texts[1..]));
    }
  }
}
