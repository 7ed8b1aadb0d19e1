/**
 The string operations the system relies on: first-occurrence search, Unicode
 trimming, line splitting, decimal rendering and the byte-wise string order.
 Characters are Unicode scalar values; UTF-8 preserves their order, so ordering
 by characters is ordering by bytes.
 */
module Text {
  import opened Wrappers

  // ---------------------------------------------------------------- search

  predicate OccursAt<T(==)>(s: seq<T>, p: seq<T>, i: nat) {
    i + |p| <= |s| && s[i..i + |p|] == p
  }

  predicate Contains<T(==)>(s: seq<T>, p: seq<T>) {
    exists i: nat | i <= |s| :: OccursAt(s, p, i)
  }

  function FindFrom<T(==)>(s: seq<T>, p: seq<T>, from: nat): (r: Option<nat>)
    ensures r.Some? ==> from <= r.value && r.value + |p| <= |s|
    decreases if from <= |s| then |s| - from + 1 else 0
  {
    if from + |p| > |s| then None
    else if OccursAt(s, p, from) then Some(from)
    else FindFrom(s, p, from + 1)
  }

  /** Where a pattern first occurs. */
  function Find<T(==)>(s: seq<T>, p: seq<T>): (r: Option<nat>)
    ensures r.Some? ==> r.value + |p| <= |s|
  {
    FindFrom(s, p, 0)
  }

  /** `r` is the first position at or after `from` where `p` occurs, if there is one. */
  ghost predicate FirstFrom<T>(s: seq<T>, p: seq<T>, from: nat, r: Option<nat>) {
    match r
    case None => forall i: nat | from <= i :: !OccursAt(s, p, i)
    case Some(k) => OccursAt(s, p, k) && forall i: nat | from <= i < k :: !OccursAt(s, p, i)
  }

  lemma {:induction false} FindFromFirst<T>(s: seq<T>, p: seq<T>, from: nat)
    ensures FirstFrom(s, p, from, FindFrom(s, p, from))
    decreases if from <= |s| then |s| - from + 1 else 0
  {
    if from + |p| <= |s| && !OccursAt(s, p, from) {
      FindFromFirst(s, p, from + 1);
    }
  }

  lemma FindFirst<T>(s: seq<T>, p: seq<T>)
    ensures FirstFrom(s, p, 0, Find(s, p))
  {
    FindFromFirst(s, p, 0);
  }

  lemma FindIs<T>(s: seq<T>, p: seq<T>, k: nat)
    requires OccursAt(s, p, k) && forall i: nat | i < k :: !OccursAt(s, p, i)
    ensures Find(s, p) == Some(k)
  {
    FindFirst(s, p);
  }

  lemma OccursInSuffix<T>(s: seq<T>, from: nat, p: seq<T>, k: nat)
    requires from <= |s|
    ensures OccursAt(s[from..], p, k) <==> OccursAt(s, p, from + k)
  {
    if from + k + |p| <= |s| { assert s[from..][k..k + |p|] == s[from + k..from + k + |p|]; }
  }

  /** A pattern absent from `a` whose first element does not recur in it is first
      found right after `a`. */
  lemma FindAfterClean<T>(a: seq<T>, p: seq<T>, b: seq<T>)
    requires p != [] && p[0] !in p[1..] && !Contains(a, p)
    ensures Find(a + p + b, p) == Some(|a|)
    ensures (a + p + b)[..|a|] == a && (a + p + b)[|a| + |p|..] == b
  {
    var s := a + p + b;
    assert OccursAt(s, p, |a|);
    forall i: nat | i < |a| ensures !OccursAt(s, p, i) {
      if i + |p| <= |a| {
        assert s[i..i + |p|] == a[i..i + |p|];
        assert !OccursAt(a, p, i);
      } else if i + |p| <= |s| {
        var k := |a| - i;
        assert s[i..i + |p|][k] == s[|a|] == p[0];
        assert p[k] == p[1..][k - 1];
      }
    }
    FindIs(s, p, |a|);
  }

  // -------------------------------------------------------------- trimming

  /** Unicode White_Space. */
  predicate IsWhitespace(c: char) {
    var n := c as int;
    0x09 <= n <= 0x0D || n == 0x20 || n == 0x85 || n == 0xA0 || n == 0x1680 ||
    0x2000 <= n <= 0x200A || n == 0x2028 || n == 0x2029 || n == 0x202F || n == 0x205F || n == 0x3000
  }

  predicate Blank(s: string) {
    forall i | 0 <= i < |s| :: IsWhitespace(s[i])
  }

  function TrimStart(s: string): string {
    if s != [] && IsWhitespace(s[0]) then TrimStart(s[1..]) else s
  }

  function TrimEnd(s: string): string {
    if s != [] && IsWhitespace(s[|s| - 1]) then TrimEnd(s[..|s| - 1]) else s
  }

  function Trim(s: string): string {
    TrimEnd(TrimStart(s))
  }

  lemma {:induction false} TrimStartBlank(ws: string, s: string)
    requires Blank(ws)
    ensures TrimStart(ws + s) == TrimStart(s)
  {
    if ws == [] {
      assert ws + s == s;
    } else {
      assert (ws + s)[1..] == ws[1..] + s;
      TrimStartBlank(ws[1..], s);
    }
  }

  lemma {:induction false} TrimEndBlank(s: string, ws: string)
    requires Blank(ws)
    ensures TrimEnd(s + ws) == TrimEnd(s)
  {
    if ws == [] {
      assert s + ws == s;
    } else {
      assert (s + ws)[..|s + ws| - 1] == s + ws[..|ws| - 1];
      TrimEndBlank(s, ws[..|ws| - 1]);
    }
  }

  lemma {:induction false} TrimStartAppend(s: string, t: string)
    ensures !Blank(s) ==> TrimStart(s + t) == TrimStart(s) + t
    ensures Blank(s) ==> TrimStart(s) == []
  {
    if s != [] {
      TrimStartAppend(s[1..], t);
      assert (s + t)[1..] == s[1..] + t;
    }
  }

  /** Whitespace around a text does not survive trimming. */
  lemma TrimPadded(before: string, s: string, after: string)
    requires Blank(before) && Blank(after)
    ensures Trim(before + s + after) == Trim(s)
  {
    assert before + s + after == before + (s + after);
    TrimStartBlank(before, s + after);
    TrimStartAppend(s, after);
    if Blank(s) {
      TrimStartBlank(s, after);
      TrimStartBlank(after, []);
      assert after + [] == after;
    } else {
      TrimEndBlank(TrimStart(s), after);
    }
  }

  /** A text that neither starts nor ends with whitespace is untouched. */
  lemma TrimIdentity(s: string)
    requires s != [] && !IsWhitespace(s[0]) && !IsWhitespace(s[|s| - 1])
    ensures Trim(s) == s
  {
  }

  // ----------------------------------------------------------------- lines

  /** Lines end with LF or CRLF; a final empty line is dropped. */
  function Lines(s: string): seq<string> {
    if s == [] then []
    else
      match Find(s, "\n")
      case None => [s]
      case Some(i) => [DropCarriageReturn(s[..i])] + Lines(s[i + 1..])
  }

  function DropCarriageReturn(line: string): string {
    if line != [] && line[|line| - 1] == '\r' then line[..|line| - 1] else line
  }

  /** Elements joined by a line feed. */
  function JoinLines(parts: seq<string>): string {
    if |parts| == 0 then []
    else if |parts| == 1 then parts[0]
    else parts[0] + "\n" + JoinLines(parts[1..])
  }

  // --------------------------------------------------------------- decimal

  predicate IsDigit(c: char) {
    '0' <= c <= '9'
  }

  function DigitChar(n: nat): (c: char)
    requires n < 10
    ensures IsDigit(c)
  {
    ('0' as int + n) as char
  }

  /** Decimal rendering without leading zeros. */
  function Decimal(n: nat): (s: string)
    ensures s != [] && forall i | 0 <= i < |s| :: IsDigit(s[i])
    ensures n > 0 ==> s[0] != '0'
    ensures n == 0 ==> s == "0"
  {
    if n < 10 then [DigitChar(n)] else Decimal(n / 10) + [DigitChar(n % 10)]
  }

  function DecimalValue(s: string): Option<nat> {
    if s == [] then None
    else if !IsDigit(s[|s| - 1]) then None
    else
      var last := s[|s| - 1] as int - '0' as int;
      if |s| == 1 then Some(last)
      else match DecimalValue(s[..|s| - 1])
           case None => None
           case Some(high) => Some(high * 10 + last)
  }

  lemma {:induction false} DecimalRoundTrip(n: nat)
    ensures DecimalValue(Decimal(n)) == Some(n)
  {
    if n >= 10 {
      DecimalRoundTrip(n / 10);
      assert Decimal(n)[..|Decimal(n)| - 1] == Decimal(n / 10);
    }
  }

  // ----------------------------------------------------------------- order

  predicate Less(a: string, b: string) {
    b != [] && (a == [] || a[0] < b[0] || (a[0] == b[0] && Less(a[1..], b[1..])))
  }

  lemma {:induction false} LessTotal(a: string, b: string)
    ensures Less(a, b) || a == b || Less(b, a)
  {
    if a != [] && b != [] && a[0] == b[0] {
      LessTotal(a[1..], b[1..]);
      if a[1..] == b[1..] {
        assert a == [a[0]] + a[1..] && b == [b[0]] + b[1..];
      }
    }
  }

  lemma {:induction false} LessAsymmetric(a: string, b: string)
    requires Less(a, b)
    ensures a != b && !Less(b, a)
  {
    if a != [] && a[0] == b[0] {
      LessAsymmetric(a[1..], b[1..]);
    }
  }

  lemma {:induction false} LessTransitive(a: string, b: string, c: string)
    requires Less(a, b) && Less(b, c)
    ensures Less(a, c)
  {
    if a != [] && a[0] == b[0] && b[0] == c[0] {
      LessTransitive(a[1..], b[1..], c[1..]);
    }
  }

  /** The order is the lexicographic one: the shorter of two texts that agree, or the one
      with the smaller character where they first differ. */
  ghost predicate Differs(a: string, b: string, k: nat) {
    k <= |a| && k <= |b| && a[..k] == b[..k] && k < |b| && (k == |a| || (k < |a| && a[k] < b[k]))
  }

  lemma {:induction false} LessExact(a: string, b: string)
    ensures Less(a, b) <==> exists k: nat :: Differs(a, b, k)
  {
    if b == [] {
    } else if a == [] || a[0] < b[0] {
      assert Differs(a, b, 0);
    } else if a[0] == b[0] {
      LessExact(a[1..], b[1..]);
      if k: nat :| Differs(a[1..], b[1..], k) { DiffersLater(a, b, k); }
      if k: nat :| Differs(a, b, k) {
        assert k > 0;
        DiffersLater(a, b, k - 1);
      }
    } else {
      forall k: nat ensures !Differs(a, b, k) {
        if 0 < k <= |a| && k <= |b| { assert a[..k][0] == a[0] && b[..k][0] == b[0]; }
      }
    }
  }

  lemma DiffersLater(a: string, b: string, k: nat)
    requires a != [] && b != [] && a[0] == b[0]
    ensures Differs(a, b, k + 1) <==> Differs(a[1..], b[1..], k)
  {
    if k < |a| && k < |b| {
      assert a[..k + 1] == [a[0]] + a[1..][..k] && b[..k + 1] == [b[0]] + b[1..][..k];
      assert a[..k + 1][1..] == a[1..][..k] && b[..k + 1][1..] == b[1..][..k];
    }
  }

  // ------------------------------------------------- the rules in plain terms

  lemma {:induction false} TrimStartExact(s: string) returns (before: string)
    ensures Blank(before) && s == before + TrimStart(s) && (TrimStart(s) == "" || !IsWhitespace(TrimStart(s)[0]))
  {
    if s != [] && IsWhitespace(s[0]) {
      var rest := TrimStartExact(s[1..]);
      before := [s[0]] + rest;
      assert s == [s[0]] + s[1..];
    } else {
      before := "";
    }
  }

  lemma {:induction false} TrimEndExact(s: string) returns (after: string)
    ensures Blank(after) && s == TrimEnd(s) + after && (TrimEnd(s) == "" || !IsWhitespace(TrimEnd(s)[|TrimEnd(s)| - 1]))
    decreases |s|
  {
    if s != [] && IsWhitespace(s[|s| - 1]) {
      var rest := TrimEndExact(s[..|s| - 1]);
      after := rest + [s[|s| - 1]];
      assert s == s[..|s| - 1] + [s[|s| - 1]];
    } else {
      after := "";
    }
  }

  /** Trimming takes whitespace off both ends and nothing else. */
  lemma TrimExact(s: string) returns (before: string, after: string)
    ensures Blank(before) && Blank(after) && s == before + Trim(s) + after
    ensures Trim(s) == "" || (!IsWhitespace(Trim(s)[0]) && !IsWhitespace(Trim(s)[|Trim(s)| - 1]))
  {
    before := TrimStartExact(s);
    after := TrimEndExact(TrimStart(s));
    if Trim(s) != "" { assert Trim(s)[0] == TrimStart(s)[0]; }
  }

  /** Lines each followed by its end: CR and LF, or LF alone. */
  function WithEnds(lines: seq<string>, crlf: seq<bool>): string
    requires |crlf| == |lines|
  {
    if lines == [] then "" else lines[0] + (if crlf[0] then "\r\n" else "\n") + WithEnds(lines[1..], crlf[1..])
  }

  ghost predicate IsLine(s: string) { '\n' !in s && (s == "" || s[|s| - 1] != '\r') }

  lemma FirstLine(line: string, crlf: bool, rest: string)
    requires IsLine(line)
    ensures Lines(line + (if crlf then "\r\n" else "\n") + rest) == [line] + Lines(rest)
  {
    var body := if crlf then line + "\r" else line;
    var text := line + (if crlf then "\r\n" else "\n") + rest;
    assert text == body + "\n" + rest;
    assert text[|body|..|body| + 1] == "\n";
    forall i: nat | i < |body| ensures !OccursAt(text, "\n", i) { assert text[i..i + 1][0] == body[i]; }
    FindIs(text, "\n", |body|);
    assert text[..|body|] == body && text[|body| + 1..] == rest;
    if crlf { assert body[..|body| - 1] == line; }
    assert DropCarriageReturn(body) == line;
  }

  /** Splitting recovers lines however they end, and keeps a last line without an end. */
  lemma {:induction false} LinesExact(lines: seq<string>, crlf: seq<bool>, last: string)
    requires |crlf| == |lines| && (forall i | 0 <= i < |lines| :: IsLine(lines[i])) && '\n' !in last
    ensures Lines(WithEnds(lines, crlf) + last) == lines + (if last == "" then [] else [last])
  {
    hide IsLine, Lines;
    if lines == [] {
      assert WithEnds(lines, crlf) + last == last;
      LastLineStays(last);
    } else {
      var rest := WithEnds(lines[1..], crlf[1..]) + last;
      var end := if crlf[0] then "\r\n" else "\n";
      assert WithEnds(lines, crlf) + last == lines[0] + end + rest;
      FirstLine(lines[0], crlf[0], rest);
      LinesExact(lines[1..], crlf[1..], last);
      assert lines == [lines[0]] + lines[1..];
    }
  }

  lemma LastLineStays(last: string)
    requires '\n' !in last
    ensures Lines(last) == if last == "" then [] else [last]
  {
    FindFirst(last, "\n");
    if Find(last, "\n").Some? { FeedIsThere(last, Find(last, "\n").value); }
  }

  lemma FeedIsThere(s: string, k: nat)
    requires OccursAt(s, "\n", k)
    ensures '\n' in s
  {
    assert s[k..k + 1][0] == s[k];
  }

  /** Decimal digits carry their usual weight. */
  lemma DecimalWeights(n: nat, digit: nat)
    requires digit < 10 && n > 0
    ensures Decimal(10 * n + digit) == Decimal(n) + Decimal(digit)
    ensures Decimal(0) == "0" && Decimal(1) == "1" && Decimal(2) == "2" && Decimal(3) == "3" && Decimal(4) == "4"
    ensures Decimal(5) == "5" && Decimal(6) == "6" && Decimal(7) == "7" && Decimal(8) == "8" && Decimal(9) == "9"
  {
    assert (10 * n + digit) / 10 == n && (10 * n + digit) % 10 == digit;
  }
}
