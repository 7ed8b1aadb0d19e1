/**
 Incremental framing of a server-sent event stream: a frame ends after an empty line.
 Chunks arrive with arbitrary boundaries and are buffered until a frame is whole.
 */
module SseFraming {
  import opened Wrappers
  import opened Text

  type Byte = n: int | 0 <= n < 0x100

  type Bytes = seq<Byte>

  const LF: Byte := 10
  const CR: Byte := 13

  /** The two empty lines the forwarder recognises. */
  const LF_LF: Bytes := [LF, LF]
  const CRLF_CRLF: Bytes := [CR, LF, CR, LF]

  /** Where the first frame ends. A pair of line feeds anywhere is preferred to an
      earlier pair of CRLFs. */
  function FrameEnd(bytes: Bytes): (r: Option<nat>)
    ensures r.Some? ==> 0 < r.value <= |bytes|
  {
    match Find(bytes, LF_LF)
    case Some(k) => Some(k + 2)
    case None =>
      match Find(bytes, CRLF_CRLF)
      case Some(k) => Some(k + 4)
      case None => None
  }

  /** Whole frames, and what is left after them. */
  datatype Framed = Framed(frames: seq<Bytes>, rest: Bytes)

  function Cut(bytes: Bytes): Framed
    decreases |bytes|
  {
    match FrameEnd(bytes)
    case None => Framed([], bytes)
    case Some(end) => Front([bytes[..end]], Cut(bytes[end..]))
  }

  function Front(frames: seq<Bytes>, f: Framed): Framed {
    Framed(frames + f.frames, f.rest)
  }

  /** Buffering chunk after chunk. */
  function Feed(pending: Bytes, chunks: seq<Bytes>): Framed
    decreases |chunks|
  {
    if chunks == [] then Framed([], pending)
    else
      var f := Cut(pending + chunks[0]);
      Front(f.frames, Feed(f.rest, chunks[1..]))
  }

  function Flatten(parts: seq<Bytes>): Bytes {
    if parts == [] then [] else parts[0] + Flatten(parts[1..])
  }

  lemma FrontTwice(a: seq<Bytes>, b: seq<Bytes>, f: Framed)
    ensures Front(a, Front(b, f)) == Front(a + b, f)
  {
    assert a + (b + f.frames) == a + b + f.frames;
  }

  // -------------------------------------------------------- nothing is lost

  lemma {:induction false} FlattenConcat(a: seq<Bytes>, b: seq<Bytes>)
    ensures Flatten(a + b) == Flatten(a) + Flatten(b)
  {
    if a == [] {
      assert a + b == b;
    } else {
      assert (a + b)[1..] == a[1..] + b;
      FlattenConcat(a[1..], b);
    }
  }

  lemma FlattenOne(a: Bytes)
    ensures Flatten([a]) == a
  {
    assert [a][1..] == [];
    assert a + [] == a;
  }

  lemma {:induction false} CutKeeps(bytes: Bytes)
    ensures Flatten(Cut(bytes).frames) + Cut(bytes).rest == bytes
    ensures FrameEnd(Cut(bytes).rest).None?
    decreases |bytes|
  {
    hide FrameEnd, Flatten;
    var frameEnd := FrameEnd(bytes);
    if frameEnd.Some? {
      var first, later := bytes[..frameEnd.value], bytes[frameEnd.value..];
      CutKeeps(later);
      var f := Cut(later);
      assert Cut(bytes) == Front([first], f);
      FlattenConcat([first], f.frames);
      FlattenOne(first);
      Reassociate(first, Flatten(f.frames), f.rest);
      assert bytes == first + later;
    } else {
      FlattenNone();
      assert [] + bytes == bytes;
    }
  }

  lemma FlattenNone()
    ensures Flatten([]) == []
  {
  }

  lemma Reassociate(a: Bytes, b: Bytes, c: Bytes)
    ensures a + b + c == a + (b + c)
  {
  }

  /** Frames and leftover always make up the bytes received, however they were split,
      and the leftover holds no whole frame. */
  lemma {:induction false} FeedKeeps(pending: Bytes, chunks: seq<Bytes>)
    requires FrameEnd(pending).None?
    ensures var f := Feed(pending, chunks);
            Flatten(f.frames) + f.rest == pending + Flatten(chunks) && FrameEnd(f.rest).None?
    decreases |chunks|
  {
    if chunks == [] {
      assert pending + [] == pending;
    } else {
      var f := Cut(pending + chunks[0]);
      CutKeeps(pending + chunks[0]);
      FeedKeeps(f.rest, chunks[1..]);
      var g := Feed(f.rest, chunks[1..]);
      FlattenConcat(f.frames, g.frames);
      Regroup(Flatten(f.frames), f.rest, Flatten(g.frames), g.rest, pending, chunks[0], Flatten(chunks[1..]));
    }
  }

  lemma Regroup(a: Bytes, b: Bytes, c: Bytes, d: Bytes, p: Bytes, x: Bytes, y: Bytes)
    requires a + b == p + x && c + d == b + y
    ensures a + c + d == p + (x + y)
  {
    assert a + c + d == a + (c + d) == (a + b) + y;
  }

  // ----------------------------------------------------- chunk independence

  /** No pair of CRLFs comes before a pair of line feeds. */
  ghost predicate Unmixed(bytes: Bytes) {
    forall i: nat, j: nat | OccursAt(bytes, CRLF_CRLF, i) && OccursAt(bytes, LF_LF, j) :: j < i
  }

  lemma UnmixedSuffix(bytes: Bytes, from: nat)
    requires Unmixed(bytes) && from <= |bytes|
    ensures Unmixed(bytes[from..])
  {
    var s := bytes[from..];
    forall i: nat, j: nat | OccursAt(s, CRLF_CRLF, i) && OccursAt(s, LF_LF, j) ensures j < i {
      OccursInSuffix(bytes, from, CRLF_CRLF, i);
      OccursInSuffix(bytes, from, LF_LF, j);
    }
  }

  lemma OccursInPrefix(a: Bytes, b: Bytes, p: Bytes, k: nat)
    requires k + |p| <= |a|
    ensures OccursAt(a + b, p, k) <==> OccursAt(a, p, k)
  {
    assert (a + b)[k..k + |p|] == a[k..k + |p|];
  }

  lemma FindInPrefix(a: Bytes, b: Bytes, p: Bytes)
    ensures Find(a, p).Some? ==> Find(a + b, p) == Find(a, p)
  {
    FindFirst(a, p);
    if Find(a, p).Some? {
      var k := Find(a, p).value;
      OccursInPrefix(a, b, p, k);
      forall i: nat | i < k ensures !OccursAt(a + b, p, i) {
        OccursInPrefix(a, b, p, i);
        assert !OccursAt(a, p, i);
      }
      FindIs(a + b, p, k);
    }
  }

  /** The end of a whole frame does not move when more bytes arrive. */
  lemma FrameEndStable(a: Bytes, b: Bytes)
    requires Unmixed(a + b) && FrameEnd(a).Some?
    ensures FrameEnd(a + b) == FrameEnd(a)
  {
    FindInPrefix(a, b, LF_LF);
    FindInPrefix(a, b, CRLF_CRLF);
    if Find(a, LF_LF).None? && Find(a + b, LF_LF).Some? {
      LaterPairIsMixed(a, b);
    }
  }

  lemma BeyondPrefix(a: Bytes, b: Bytes, p: Bytes, k: nat)
    requires Find(a, p).None? && OccursAt(a + b, p, k)
    ensures k + |p| > |a|
  {
    FindFirst(a, p);
    if k + |p| <= |a| { OccursInPrefix(a, b, p, k); }
  }

  lemma LaterPairIsMixed(a: Bytes, b: Bytes)
    requires Find(a, LF_LF).None? && Find(a, CRLF_CRLF).Some? && Find(a + b, LF_LF).Some?
    ensures !Unmixed(a + b)
  {
    var i, j := Find(a, CRLF_CRLF).value, Find(a + b, LF_LF).value;
    FindInPrefix(a, b, CRLF_CRLF);
    FindFirst(a + b, CRLF_CRLF);
    FindFirst(a + b, LF_LF);
    BeyondPrefix(a, b, LF_LF, j);
    assert OccursAt(a + b, CRLF_CRLF, i) && OccursAt(a + b, LF_LF, j) && j > i;
  }

  lemma {:induction false} CutSplit(a: Bytes, b: Bytes)
    requires Unmixed(a + b)
    ensures Cut(a + b) == Front(Cut(a).frames, Cut(Cut(a).rest + b))
    decreases |a|
  {
    if FrameEnd(a).Some? {
      var end := FrameEnd(a).value;
      FrameEndStable(a, b);
      assert (a + b)[..end] == a[..end] && (a + b)[end..] == a[end..] + b;
      UnmixedSuffix(a + b, end);
      CutSplit(a[end..], b);
      FrontTwice([a[..end]], Cut(a[end..]).frames, Cut(Cut(a[end..]).rest + b));
    } else {
      assert [] + Cut(a + b).frames == Cut(a + b).frames;
    }
  }

  lemma UnmixedRest(x: Bytes, y: Bytes)
    requires Unmixed(x + y)
    ensures Unmixed(Cut(x).rest + y) && FrameEnd(Cut(x).rest).None?
  {
    hide Cut, Unmixed, FrameEnd;
    CutKeeps(x);
    var n := |Flatten(Cut(x).frames)|;
    UnmixedSuffix(x + y, n);
    assert (x + y)[n..] == Cut(x).rest + y;
  }

  lemma {:induction false} FeedIsCut(pending: Bytes, chunks: seq<Bytes>)
    requires FrameEnd(pending).None? && Unmixed(pending + Flatten(chunks))
    ensures Feed(pending, chunks) == Cut(pending + Flatten(chunks))
    decreases |chunks|
  {
    hide FrameEnd, Unmixed;
    if chunks == [] {
      assert pending + Flatten(chunks) == pending;
    } else {
      hide Cut;
      var x, y := pending + chunks[0], Flatten(chunks[1..]);
      Reassociate(pending, chunks[0], y);
      UnmixedRest(x, y);
      CutSplit(x, y);
      FeedIsCut(Cut(x).rest, chunks[1..]);
    }
  }

  /** The first pair of CRLFs ends a frame if the chunk ends there, and does not if a
      pair of line feeds arrives with it. */
  lemma {:induction false} MixedDiverges(bytes: Bytes, i: nat, j: nat)
    requires OccursAt(bytes, CRLF_CRLF, i) && (forall k: nat | k < i :: !OccursAt(bytes, CRLF_CRLF, k))
    requires OccursAt(bytes, LF_LF, j) && j > i
    ensures Front(Cut(bytes[..i + 4]).frames, Cut(Cut(bytes[..i + 4]).rest + bytes[i + 4..])).frames != Cut(bytes).frames
    decreases i
  {
    var a, b := bytes[..i + 4], bytes[i + 4..];
    assert a + b == bytes;
    FindFirst(bytes, LF_LF);
    FindFirst(a, LF_LF);
    FindInPrefix(a, b, LF_LF);
    var k := Find(bytes, LF_LF).value;
    NoOverlap(bytes, i, k);
    if k < i {
      OccursInPrefix(a, b, LF_LF, k);
      assert Find(a, LF_LF) == Some(k);
      DropFrame(bytes, i, j, k + 2);
    } else {
      FirstCrlf(a, b, i);
      assert Cut(a).frames[0] == a[..i + 4];
      assert Cut(bytes).frames[0] == bytes[..k + 2];
    }
  }

  lemma NoOverlap(bytes: Bytes, i: nat, k: nat)
    requires OccursAt(bytes, CRLF_CRLF, i) && OccursAt(bytes, LF_LF, k)
    ensures k + 2 <= i || k >= i + 3
  {
    assert bytes[i..i + 4][0] == bytes[i] && bytes[i..i + 4][1] == bytes[i + 1] && bytes[i..i + 4][2] == bytes[i + 2];
    assert bytes[k..k + 2][0] == bytes[k] && bytes[k..k + 2][1] == bytes[k + 1];
  }

  lemma FirstCrlf(a: Bytes, b: Bytes, i: nat)
    requires |a| == i + 4 && Find(a, LF_LF).None?
    requires OccursAt(a + b, CRLF_CRLF, i) && (forall k: nat | k < i :: !OccursAt(a + b, CRLF_CRLF, k))
    ensures FrameEnd(a) == Some(i + 4)
  {
    OccursInPrefix(a, b, CRLF_CRLF, i);
    forall k: nat | k < i ensures !OccursAt(a, CRLF_CRLF, k) { OccursInPrefix(a, b, CRLF_CRLF, k); }
    FindIs(a, CRLF_CRLF, i);
  }

  /** Both ways of cutting take the same first frame, and differ after it. */
  lemma {:induction false} DropFrame(bytes: Bytes, i: nat, j: nat, end: nat)
    requires OccursAt(bytes, CRLF_CRLF, i) && (forall k: nat | k < i :: !OccursAt(bytes, CRLF_CRLF, k))
    requires OccursAt(bytes, LF_LF, j) && j > i && 0 < end <= i
    requires FrameEnd(bytes) == Some(end) && FrameEnd(bytes[..i + 4]) == Some(end)
    ensures Front(Cut(bytes[..i + 4]).frames, Cut(Cut(bytes[..i + 4]).rest + bytes[i + 4..])).frames != Cut(bytes).frames
    decreases i, 0
  {
    var a, b, s := bytes[..i + 4], bytes[i + 4..], bytes[end..];
    var i' := i - end;
    OccursInSuffix(bytes, end, CRLF_CRLF, i');
    OccursInSuffix(bytes, end, LF_LF, j - end);
    forall k: nat | k < i' ensures !OccursAt(s, CRLF_CRLF, k) { OccursInSuffix(bytes, end, CRLF_CRLF, k); }
    MixedDiverges(s, i', j - end);
    assert s[..i' + 4] == a[end..] && s[i' + 4..] == b;
    var f := Cut(a[end..]);
    assert Cut(a) == Front([a[..end]], f) && Cut(bytes) == Front([bytes[..end]], Cut(s));
    FrontTwice([a[..end]], f.frames, Cut(f.rest + b));
    assert Front([a[..end]], Front(f.frames, Cut(f.rest + b))).frames[1..] == Front(f.frames, Cut(f.rest + b)).frames;
    assert Cut(bytes).frames[1..] == Cut(s).frames;
  }

  lemma FeedTwo(a: Bytes, b: Bytes)
    ensures Feed([], [a, b]) == Front(Cut(a).frames, Cut(Cut(a).rest + b))
  {
    hide Cut;
    assert [a, b][1..] == [b] && [b][1..] == [] && [] + a == a;
    var rest := Cut(a).rest;
    FeedOne(rest, b);
    assert Feed([], [a, b]) == Front(Cut(a).frames, Feed(rest, [b]));
  }

  lemma FeedOne(pending: Bytes, b: Bytes)
    ensures Feed(pending, [b]) == Cut(pending + b)
  {
    hide Cut;
    assert [b][1..] == [];
    var f := Cut(pending + b);
    assert Feed(f.rest, []) == Framed([], f.rest);
    assert f.frames + [] == f.frames;
  }

  lemma {:induction false} FirstOccurrence(bytes: Bytes, i: nat) returns (first: nat)
    requires OccursAt(bytes, CRLF_CRLF, i)
    ensures first <= i && OccursAt(bytes, CRLF_CRLF, first) && forall k: nat | k < first :: !OccursAt(bytes, CRLF_CRLF, k)
  {
    FindFirst(bytes, CRLF_CRLF);
    first := Find(bytes, CRLF_CRLF).value;
  }

  lemma UnmixedIsIndependent(bytes: Bytes, chunks: seq<Bytes>)
    requires Unmixed(bytes) && Flatten(chunks) == bytes
    ensures Feed([], chunks) == Cut(bytes)
  {
    hide Unmixed, Cut;
    assert [] + Flatten(chunks) == bytes;
    assert FrameEnd([]).None?;
    FeedIsCut([], chunks);
  }

  lemma MixedIsDependent(bytes: Bytes) returns (chunks: seq<Bytes>)
    requires !Unmixed(bytes)
    ensures Flatten(chunks) == bytes && Feed([], chunks).frames != Cut(bytes).frames
  {
    hide Cut;
    var i, j :| OccursAt(bytes, CRLF_CRLF, i) && OccursAt(bytes, LF_LF, j) && j >= i;
    NoOverlap(bytes, i, j);
    var first := FirstOccurrence(bytes, i);
    MixedDiverges(bytes, first, j);
    var a, b := bytes[..first + 4], bytes[first + 4..];
    FeedTwo(a, b);
    chunks := [a, b];
    assert chunks[1..] == [b];
    FlattenOne(b);
    assert a + b == bytes;
  }

  /** The frames of a body are the same for every way of splitting it into chunks if
      and only if it has no pair of CRLFs before a pair of line feeds. */
  lemma ChunkIndependence(bytes: Bytes)
    ensures Unmixed(bytes) <==> forall chunks | Flatten(chunks) == bytes :: Feed([], chunks).frames == Cut(bytes).frames
  {
    hide Unmixed, Cut, Feed, Flatten;
    if Unmixed(bytes) {
      forall chunks | Flatten(chunks) == bytes ensures Feed([], chunks).frames == Cut(bytes).frames {
        UnmixedIsIndependent(bytes, chunks);
      }
    } else {
      var chunks := MixedIsDependent(bytes);
    }
  }

  lemma PairStartsWithReturn(bytes: Bytes, i: nat)
    requires OccursAt(bytes, CRLF_CRLF, i)
    ensures CR in bytes
  {
    assert bytes[i..i + 4][0] == bytes[i];
  }

  /** In particular for bodies without carriage returns. */
  lemma LineFeedsOnly(bytes: Bytes, chunks: seq<Bytes>)
    requires CR !in bytes && Flatten(chunks) == bytes
    ensures Feed([], chunks) == Cut(bytes)
  {
    forall i: nat ensures !OccursAt(bytes, CRLF_CRLF, i) {
      if OccursAt(bytes, CRLF_CRLF, i) { PairStartsWithReturn(bytes, i); }
    }
    UnmixedIsIndependent(bytes, chunks);
  }

  // --------------------------------------------- a body whose frames depend

  const FIRST: Bytes := [65, CR, LF, CR, LF]
  const SECOND: Bytes := [66, LF, LF]

  /** A frame ended by CRLFs and then one ended by line feeds: two frames if the first
      arrives alone, and one if they arrive together. */
  lemma MixedBody()
    ensures Feed([], [FIRST, SECOND]).frames == [FIRST, SECOND]
    ensures Feed([], [FIRST + SECOND]).frames == [FIRST + SECOND]
  {
    FramesApart();
    FramesTogether();
  }

  lemma FramesApart()
    ensures Feed([], [FIRST, SECOND]).frames == [FIRST, SECOND]
  {
    PairAbsent(FIRST);
    PairsFound(FIRST, 1);
    PairFound(SECOND, 1);
    hide Cut, Feed, FrameEnd;
    OneFrame(FIRST);
    OneFrame(SECOND);
    FeedTwo(FIRST, SECOND);
    NothingBefore(SECOND);
    assert [FIRST] + [SECOND] == [FIRST, SECOND];
  }

  lemma FramesTogether()
    ensures Feed([], [FIRST + SECOND]).frames == [FIRST + SECOND]
  {
    var all := FIRST + SECOND;
    PairFound(all, 6);
    hide Cut, Feed, FrameEnd;
    OneFrame(all);
    FeedOne([], all);
    NothingBefore(all);
  }

  lemma NothingBefore(bytes: Bytes)
    ensures [] + bytes == bytes
  {
  }

  lemma OneFrame(bytes: Bytes)
    requires FrameEnd(bytes) == Some(|bytes|)
    ensures Cut(bytes) == Framed([bytes], [])
  {
    hide FrameEnd;
    assert bytes[..|bytes|] == bytes && bytes[|bytes|..] == [];
    CutNothing();
    assert [bytes] + [] == [bytes];
  }

  lemma CutNothing()
    ensures Cut([]) == Framed([], [])
  {
  }

  lemma PairFound(bytes: Bytes, k: nat)
    requires k + 2 <= |bytes| && bytes[k] == LF && bytes[k + 1] == LF
    requires forall i | 0 <= i < k :: bytes[i] != LF || bytes[i + 1] != LF
    ensures FrameEnd(bytes) == Some(k + 2)
  {
    assert bytes[k..k + 2] == LF_LF;
    forall i: nat | i < k ensures !OccursAt(bytes, LF_LF, i) {
      assert bytes[i..i + 2][0] == bytes[i] && bytes[i..i + 2][1] == bytes[i + 1];
    }
    FindIs(bytes, LF_LF, k);
  }

  lemma PairAbsent(bytes: Bytes)
    requires forall i | 0 <= i < |bytes| - 1 :: bytes[i] != LF || bytes[i + 1] != LF
    ensures Find(bytes, LF_LF) == None
  {
    FindFirst(bytes, LF_LF);
    forall i: nat ensures !OccursAt(bytes, LF_LF, i) {
      if i + 2 <= |bytes| { assert bytes[i..i + 2][0] == bytes[i] && bytes[i..i + 2][1] == bytes[i + 1]; }
    }
  }

  lemma PairsFound(bytes: Bytes, k: nat)
    requires Find(bytes, LF_LF) == None && k + 4 <= |bytes| && bytes[k..k + 4] == CRLF_CRLF
    requires forall i | 0 <= i < k :: bytes[i] != CR
    ensures FrameEnd(bytes) == Some(k + 4)
  {
    forall i: nat | i < k ensures !OccursAt(bytes, CRLF_CRLF, i) { assert bytes[i..i + 4][0] == bytes[i]; }
    FindIs(bytes, CRLF_CRLF, k);
  }
}
