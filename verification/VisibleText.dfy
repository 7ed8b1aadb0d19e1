/** When the text left after taking the tool calls out still shows an opening tag. */
module VisibleText {
  import opened Wrappers
  import opened Text
  import opened TaggedText
  import opened Json
  import opened Chat
  import opened ToolCallParser
  import opened QwenRoundTrip

  /** Somewhere the text before a removed block ends with the beginning of the tag, and
      the text after it goes on with the rest. */
  ghost predicate Joins(segments: seq<string>, tag: string) {
    exists i, k :: JoinsAt(segments, tag, i, k)
  }

  ghost predicate JoinsAt(segments: seq<string>, tag: string, i: nat, k: nat) {
    && 0 < i < |segments| && 0 < k < |tag|
    && EndsWith(Concat(segments[..i]), tag[..k]) && tag[k..] <= Concat(segments[i..])
  }

  predicate EndsWith(s: string, end: string) {
    |end| <= |s| && s[|s| - |end|..] == end
  }

  lemma {:induction false} ConcatSplit(segments: seq<string>, i: nat)
    requires i <= |segments|
    ensures Concat(segments) == Concat(segments[..i]) + Concat(segments[i..])
  {
    if i > 0 {
      ConcatSplit(segments[1..], i - 1);
      assert segments[..i][1..] == segments[1..][..i - 1] && segments[1..][i - 1..] == segments[i..];
      assert segments[..i][0] == segments[0];
    } else {
      assert segments[0..] == segments;
    }
  }

  /** No segment holds the tag. */
  ghost predicate AllLack(segments: seq<string>, tag: string) {
    segments == [] || (!Contains(segments[0], tag) && AllLack(segments[1..], tag))
  }

  lemma {:induction false} EachLacks(segments: seq<string>, tag: string)
    requires forall i | 0 <= i < |segments| :: !Contains(segments[i], tag)
    ensures AllLack(segments, tag)
  {
    hide Contains;
    if segments != [] { EachLacks(segments[1..], tag); }
  }

  lemma {:induction false} LeakJoins(segments: seq<string>, tag: string, p: nat)
    requires AllLack(segments, tag)
    requires |tag| > 0 && OccursAt(Concat(segments), tag, p)
    ensures Joins(segments, tag)
  {
    var first, rest := segments[0], segments[1..];
    var all := first + Concat(rest);
    if p >= |first| {
      var q := p - |first|;
      assert all[p..p + |tag|] == Concat(rest)[q..q + |tag|];
      LeakJoins(rest, tag, q);
      var i, k :| JoinsAt(rest, tag, i, k);
      Shifted(segments, tag, i, k);
    } else {
      var k := |first| - p;
      FitsNot(first, Concat(rest), tag, p);
      Straddles(first, Concat(rest), tag, p);
      One(first);
      assert segments[..1] == [first];
      assert JoinsAt(segments, tag, 1, k);
    }
  }

  lemma One(s: string)
    ensures Concat([s]) == s
  {
    assert [s][1..] == [];
    assert s + [] == s;
  }

  lemma FitsNot(first: string, rest: string, tag: string, p: nat)
    requires !Contains(first, tag) && OccursAt(first + rest, tag, p)
    ensures p + |tag| > |first|
  {
    if p + |tag| <= |first| { assert (first + rest)[p..p + |tag|] == first[p..p + |tag|]; }
    assert !OccursAt(first, tag, p) || p > |first|;
  }

  lemma Straddles(first: string, rest: string, tag: string, p: nat)
    requires OccursAt(first + rest, tag, p) && p < |first| < p + |tag|
    ensures var k := |first| - p; EndsWith(first, tag[..k]) && tag[k..] <= rest
  {
    var k, n := |first| - p, |tag|;
    var window := (first + rest)[p..p + n];
    assert window == tag && forall j | 0 <= j < n :: window[j] == (first + rest)[p + j];
    assert first[p..] == tag[..k];
    assert rest[..n - k] == tag[k..];
  }

  lemma Shifted(segments: seq<string>, tag: string, i: nat, k: nat)
    requires segments != [] && JoinsAt(segments[1..], tag, i, k)
    ensures JoinsAt(segments, tag, i + 1, k)
  {
    var rest := segments[1..];
    assert segments[..i + 1][1..] == rest[..i] && segments[i + 1..] == rest[i..];
    assert Concat(segments[..i + 1]) == segments[0] + Concat(rest[..i]);
    var a, b := segments[0], Concat(rest[..i]);
    assert (a + b)[|a + b| - k..] == b[|b| - k..];
  }

  lemma JoinLeaks(segments: seq<string>, tag: string, i: nat, k: nat)
    requires JoinsAt(segments, tag, i, k)
    ensures Contains(Concat(segments), tag)
  {
    ConcatSplit(segments, i);
    var a, b := Concat(segments[..i]), Concat(segments[i..]);
    var p := |a| - k;
    assert (a + b)[p..p + |tag|] == a[p..] + b[..|tag| - k] == tag[..k] + tag[k..] == tag;
    assert OccursAt(a + b, tag, p);
  }

  // -------------------------------------------------------------- trimming

  lemma DropFirst(s: string, tag: string)
    requires s != [] && tag != [] && tag[0] != s[0]
    ensures Contains(s[1..], tag) <==> Contains(s, tag)
  {
    forall i: nat | 0 < i <= |s| ensures OccursAt(s, tag, i) <==> OccursAt(s[1..], tag, i - 1) {
      OccursInSuffix(s, 1, tag, i - 1);
    }
    FirstOf(s, tag);
    if i: nat :| i <= |s[1..]| && OccursAt(s[1..], tag, i) { assert OccursAt(s, tag, i + 1); }
    if i: nat :| i <= |s| && OccursAt(s, tag, i) { assert i > 0 ==> OccursAt(s[1..], tag, i - 1); }
  }

  lemma FirstOf(s: string, tag: string)
    requires s != [] && tag != [] && tag[0] != s[0]
    ensures !OccursAt(s, tag, 0)
  {
    if |tag| <= |s| { assert s[0..|tag|][0] == s[0]; }
  }

  lemma DropLast(s: string, tag: string)
    requires s != [] && tag != [] && tag[|tag| - 1] != s[|s| - 1]
    ensures Contains(s[..|s| - 1], tag) <==> Contains(s, tag)
  {
    var t := s[..|s| - 1];
    forall i: nat | i <= |s| ensures OccursAt(s, tag, i) <==> OccursAt(t, tag, i) {
      if i + |tag| < |s| {
        assert s[i..i + |tag|] == t[i..i + |tag|];
      } else if i + |tag| == |s| {
        LastOf(s, tag, i);
      }
    }
  }

  lemma LastOf(s: string, tag: string, i: nat)
    requires tag != [] && i + |tag| == |s| && tag[|tag| - 1] != s[|s| - 1]
    ensures !OccursAt(s, tag, i)
  {
    assert s[i..i + |tag|][|tag| - 1] == s[|s| - 1];
  }

  lemma {:induction false} ContainsTrimStart(s: string, tag: string)
    requires tag != [] && !IsWhitespace(tag[0])
    ensures Contains(TrimStart(s), tag) <==> Contains(s, tag)
  {
    hide Contains;
    if s != [] && IsWhitespace(s[0]) {
      DropFirst(s, tag);
      ContainsTrimStart(s[1..], tag);
    }
  }

  lemma {:induction false} ContainsTrimEnd(s: string, tag: string)
    requires tag != [] && !IsWhitespace(tag[|tag| - 1])
    ensures Contains(TrimEnd(s), tag) <==> Contains(s, tag)
    decreases |s|
  {
    hide Contains;
    if s != [] && IsWhitespace(s[|s| - 1]) {
      DropLast(s, tag);
      ContainsTrimEnd(s[..|s| - 1], tag);
    }
  }

  // ---------------------------------------------------------- main results

  /** Tool markup stays visible after a successful parse exactly if the removal of some
      block joins the two halves of an opening tag. */
  lemma MarkupLeaks(text: string, tools: seq<ToolDefinition>, requestId: string)
    requires ParseToolCalls(text, tools, requestId).Ok?
    ensures Contains(ParseToolCalls(text, tools, requestId).value.0, OPEN) <==> Joins(Split(text, OPEN, CLOSE).segments, OPEN)
  {
    hide Contains, Joins;
    var p := Split(text, OPEN, CLOSE);
    AssembleSplit(text, OPEN, CLOSE);
    var all := Concat(p.segments);
    ContainsTrimStart(all, OPEN);
    ContainsTrimEnd(TrimStart(all), OPEN);
    EachLacks(p.segments, OPEN);
    LeakExact(p.segments, OPEN);
  }

  lemma LeakExact(segments: seq<string>, tag: string)
    requires tag != [] && AllLack(segments, tag)
    ensures Contains(Concat(segments), tag) <==> Joins(segments, tag)
  {
    if Contains(Concat(segments), tag) {
      var p: nat :| p <= |Concat(segments)| && OccursAt(Concat(segments), tag, p);
      LeakJoins(segments, tag, p);
    }
    if i, k :| JoinsAt(segments, tag, i, k) { JoinLeaks(segments, tag, i, k); }
  }

  /** It does happen: a call between the halves of a tag parses, and a bare opening tag
      is what the user sees. */
  lemma JoinedMarkup(call: ToolCall, tools: seq<ToolDefinition>, requestId: string)
    requires Renderable(call, tools) && Depth(call.arguments) <= ARGUMENT_DEPTH
    ensures ParseToolCalls("<tool" + OPEN + (CallBlock(call) + CLOSE + "_call>"), tools, requestId) ==
            Ok((OPEN, [ToolCall(GeneratedId(requestId, 0), call.name, call.arguments)]))
  {
    hide Renderable, Split, CallReader, CallBlock, Trim;
    var halves, bodies := ["<tool", "_call>"], [CallBlock(call)];
    CallBlockHasNoTag(call, tools);
    assert !Contains("<tool", OPEN) && !Contains("_call>", OPEN);
    SplitAssembled(halves, bodies, OPEN, CLOSE);
    assert halves[1..] == ["_call>"] && bodies[1..] == [];
    assert Assemble(halves, bodies, OPEN, CLOSE) == "<tool" + OPEN + (CallBlock(call) + CLOSE + "_call>");
    One("_call>");
    assert Concat(halves) == OPEN;
    TrimIdentity(OPEN);
    var read, got := CallReader(tools, requestId), ToolCall(GeneratedId(requestId, 0), call.name, call.arguments);
    ReaderReadsBack([call], tools, requestId);
    assert call in [call];
    assert read(CallBlock(call), 0) == Ok(got);
    InterpretOne(CallBlock(call), read, got);
  }

  lemma InterpretOne(body: string, read: Reader, call: ToolCall)
    requires read(body, 0) == Ok(call)
    ensures Interpret([body], read, []) == Ok([call])
  {
    assert [body][1..] == [] && [] + [call] == [call];
    assert CallIds([]) == [];
    assert Interpret([], read, [call]) == Ok([call]);
  }
}
