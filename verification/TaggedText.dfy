/** A text as plain segments interleaved with tagged blocks. */
module TaggedText {
  import opened Wrappers
  import opened Text

  /** How a text falls apart: the text outside the blocks, the block bodies, and
      whether a last block was left open. */
  datatype Pieces = Pieces(segments: seq<string>, bodies: seq<string>, unterminated: bool)

  function Split(text: string, open: string, close: string): (p: Pieces)
    requires open != [] && close != []
    ensures !p.unterminated ==> |p.segments| == |p.bodies| + 1
    ensures p.segments != []
    decreases |text|
  {
    match Find(text, open)
    case None => Pieces([text], [], false)
    case Some(start) =>
      var body := text[start + |open|..];
      match Find(body, close)
      case None => Pieces([text[..start]], [], true)
      case Some(end) =>
        var rest := Split(body[end + |close|..], open, close);
        Pieces([text[..start]] + rest.segments, [body[..end]] + rest.bodies, rest.unterminated)
  }

  function Concat(segments: seq<string>): string {
    if segments == [] then [] else segments[0] + Concat(segments[1..])
  }

  lemma ConcatAfter(before: string, first: string, rest: seq<string>)
    ensures before + Concat([first] + rest) == before + first + Concat(rest)
  {
    assert ([first] + rest)[1..] == rest;
  }

  function Assemble(segments: seq<string>, bodies: seq<string>, open: string, close: string): string
    requires |segments| == |bodies| + 1
    decreases |bodies|
  {
    if bodies == [] then segments[0]
    else segments[0] + open + (bodies[0] + close + Assemble(segments[1..], bodies[1..], open, close))
  }

  /** No segment holds an opening tag and no body a closing one. */
  ghost predicate Clean(segments: seq<string>, bodies: seq<string>, open: string, close: string) {
    && |segments| == |bodies| + 1
    && (forall i | 0 <= i < |segments| :: !Contains(segments[i], open))
    && (forall i | 0 <= i < |bodies| :: !Contains(bodies[i], close))
  }

  /** A tag whose first character does not recur cannot overlap itself. */
  ghost predicate Tag(tag: string) {
    tag != [] && tag[0] !in tag[1..]
  }

  /** A clean segment and block at the front of a text split off. */
  lemma SplitBlock(segment: string, body: string, rest: string, open: string, close: string)
    requires Tag(open) && Tag(close) && !Contains(segment, open) && !Contains(body, close)
    ensures Split(segment + open + (body + close + rest), open, close) ==
            var q := Split(rest, open, close); Pieces([segment] + q.segments, [body] + q.bodies, q.unterminated)
  {
    hide Find;
    FindAfterClean(segment, open, body + close + rest);
    FindAfterClean(body, close, rest);
  }

  /** Splitting undoes assembling. */
  lemma {:induction false} SplitAssembled(segments: seq<string>, bodies: seq<string>, open: string, close: string)
    requires Tag(open) && Tag(close) && Clean(segments, bodies, open, close)
    ensures Split(Assemble(segments, bodies, open, close), open, close) == Pieces(segments, bodies, false)
    decreases |bodies|
  {
    if bodies == [] {
      assert !Contains(segments[0], open);
      FindFirst(segments[0], open);
      assert segments == [segments[0]];
    } else {
      hide Find, Split;
      SplitAssembled(segments[1..], bodies[1..], open, close);
      SplitBlock(segments[0], bodies[0], Assemble(segments[1..], bodies[1..], open, close), open, close);
      assert segments == [segments[0]] + segments[1..] && bodies == [bodies[0]] + bodies[1..];
    }
  }

  /** Assembling undoes splitting, on every text that leaves no block open. */
  lemma {:induction false} AssembleSplit(text: string, open: string, close: string)
    requires open != [] && close != [] && !Split(text, open, close).unterminated
    ensures var p := Split(text, open, close);
            Clean(p.segments, p.bodies, open, close) && Assemble(p.segments, p.bodies, open, close) == text
    decreases |text|
  {
    var p := Split(text, open, close);
    match Find(text, open)
    case None => FindFirst(text, open);
    case Some(start) =>
      var body := text[start + |open|..];
      PrefixLacks(text, open, start);
      match Find(body, close)
      case None =>
      case Some(end) =>
        var tail := body[end + |close|..];
        PrefixLacks(body, close, end);
        AssembleSplit(tail, open, close);
        var q := Split(tail, open, close);
        assert p.segments[1..] == q.segments && p.bodies[1..] == q.bodies;
  }

  lemma PrefixLacks(text: string, p: string, n: nat)
    requires p != [] && Find(text, p) == Some(n)
    ensures !Contains(text[..n], p) && text == text[..n] + p + text[n + |p|..]
  {
    FindFirst(text, p);
    forall i: nat | i <= n ensures !OccursAt(text[..n], p, i) {
      if i + |p| <= n {
        assert i < n && !OccursAt(text, p, i);
        assert text[..n][i..i + |p|] == text[i..i + |p|];
      }
    }
  }
}
