/**
 The grammar of JSON texts (RFC 8259) as trees that keep every space, escape and digit,
 and the reader's exactness: it accepts the texts of those trees up to 127 containers,
 reads each as its meaning, and accepts nothing else.
 */
module JsonGrammar {
  import opened Wrappers
  import opened Text
  import opened Json
  import opened JsonRoundTrip
  import opened JsonReading

  // ------------------------------------------------------------------ trees

  /** One character of a string literal: itself, a short escape, four hexadecimal
      digits, or twice four that make a pair. */
  datatype Piece =
    | Raw(meant: char)
    | Short(letter: char, meant: char)
    | Coded(digits: string, meant: char)
    | Pair(high: string, low: string, meant: char)

  datatype Tree =
    | Word(value: Json)
    | Figure(lexeme: string)
    | Quote(pieces: seq<Piece>)
    | List(gap: string, items: seq<Item>)
    | Table(gap: string, members: seq<Member>)

  /** A value with the space around it. */
  datatype Item = Item(before: string, tree: Tree, after: string)

  datatype Member = Member(before: string, key: seq<Piece>, mid: string, item: Item)

  // ------------------------------------------------------------- well formed

  predicate Space(c: char) { c == ' ' || c == '\n' || c == '\t' || c == '\r' }

  predicate AllSpace(s: string) {
    forall i | 0 <= i < |s| :: Space(s[i])
  }

  predicate Digits(s: string) {
    s != "" && forall i | 0 <= i < |s| :: '0' <= s[i] <= '9'
  }

  predicate GoodFraction(s: string) {
    s == "" || (s[0] == '.' && Digits(s[1..]))
  }

  predicate GoodExponent(s: string) {
    s == "" || ((s[0] == 'e' || s[0] == 'E') && (Digits(s[1..]) || (|s| > 1 && (s[1] == '+' || s[1] == '-') && Digits(s[2..]))))
  }

  /** Section 6 of RFC 8259: a sign, an integer without leading zeros, a fraction, an
      exponent. */
  ghost predicate GoodNumber(s: string) {
    exists sign, integer, fraction, exponent :: NumberParts(s, sign, integer, fraction, exponent)
  }

  ghost predicate NumberParts(s: string, sign: string, integer: string, fraction: string, exponent: string) {
    && s == sign + (integer + (fraction + exponent)) && (sign == "" || sign == "-")
    && Digits(integer) && (integer[0] == '0' ==> |integer| == 1)
    && GoodFraction(fraction) && GoodExponent(exponent)
  }

  /** The short escapes: a backslash and one of these letters. */
  predicate Shortens(c: char, meant: char) {
    (c, meant) in {('\"', '\"'), ('\\', '\\'), ('/', '/'), ('b', 0x08 as char), ('t', '\t'), ('n', '\n'), ('f', 0x0C as char), ('r', '\r')}
  }

  /** A hexadecimal digit, in lower case or upper case. */
  predicate Hex(c: char, n: nat) {
    || (n < 10 && c as int == 0x30 + n)
    || (10 <= n < 16 && (c as int == 0x61 + (n - 10) || c as int == 0x41 + (n - 10)))
  }

  predicate FourHex(s: string, n: nat) {
    && |s| == 4 && n < 0x10000
    && Hex(s[0], n / 0x1000) && Hex(s[1], n / 0x100 % 0x10) && Hex(s[2], n / 0x10 % 0x10) && Hex(s[3], n % 0x10)
  }

  /** Characters beyond 16 bits are written as two surrogates (section 7 of RFC 8259). */
  ghost predicate GoodPiece(p: Piece) {
    var n := p.meant as int;
    match p
    case Raw(c) => n >= 0x20 && c != '\"' && c != '\\'
    case Short(letter, c) => Shortens(letter, c)
    case Coded(digits, _) => FourHex(digits, n)
    case Pair(high, low, _) =>
      n >= 0x10000 && FourHex(high, 0xD800 + (n - 0x10000) / 0x400) && FourHex(low, 0xDC00 + (n - 0x10000) % 0x400)
  }

  ghost predicate GoodPieces(ps: seq<Piece>) {
    forall i | 0 <= i < |ps| :: GoodPiece(ps[i])
  }

  ghost predicate Good(t: Tree) {
    match t
    case Word(v) => v.Null? || v.Bool?
    case Figure(lexeme) => GoodNumber(lexeme)
    case Quote(ps) => GoodPieces(ps)
    case List(gap, items) => AllSpace(gap) && forall i | 0 <= i < |items| :: GoodItem(items[i])
    case Table(gap, members) => AllSpace(gap) && forall i | 0 <= i < |members| :: GoodMember(members[i])
  }

  ghost predicate GoodItem(x: Item) {
    AllSpace(x.before) && Good(x.tree) && AllSpace(x.after)
  }

  ghost predicate GoodMember(m: Member) {
    AllSpace(m.before) && GoodPieces(m.key) && AllSpace(m.mid) && GoodItem(m.item)
  }

  // ------------------------------------------------------- text and meaning

  function PieceText(p: Piece): string {
    match p
    case Raw(c) => [c]
    case Short(letter, _) => "\\" + [letter]
    case Coded(digits, _) => "\\u" + digits
    case Pair(high, low, _) => "\\u" + (high + ("\\u" + low))
  }

  function PiecesText(ps: seq<Piece>): string {
    if ps == [] then "" else PieceText(ps[0]) + PiecesText(ps[1..])
  }

  function Meant(ps: seq<Piece>): string {
    if ps == [] then "" else [ps[0].meant] + Meant(ps[1..])
  }

  function Quoted(ps: seq<Piece>): string { "\"" + PiecesText(ps) + "\"" }

  function TreeText(t: Tree): string
    decreases t, 0
  {
    match t
    case Word(v) => if v == Null then "null" else if v == Bool(true) then "true" else "false"
    case Figure(lexeme) => lexeme
    case Quote(ps) => Quoted(ps)
    case List(gap, items) => "[" + (if items == [] then gap else ItemsText(items)) + "]"
    case Table(gap, members) => "{" + (if members == [] then gap else MembersText(members)) + "}"
  }

  function ItemText(x: Item): string
    decreases x, 1
  {
    x.before + TreeText(x.tree) + x.after
  }

  function ItemsText(items: seq<Item>): string
    requires items != []
    decreases items, 2
  {
    ItemText(items[0]) + if |items| == 1 then "" else "," + ItemsText(items[1..])
  }

  function MembersText(members: seq<Member>): string
    requires members != []
    decreases members, 2
  {
    var m := members[0];
    m.before + Quoted(m.key) + m.mid + ":" + ItemText(m.item) + if |members| == 1 then "" else "," + MembersText(members[1..])
  }

  function Value(t: Tree): Json
    decreases t, 0
  {
    match t
    case Word(v) => v
    case Figure(lexeme) => Number(lexeme)
    case Quote(ps) => String(Meant(ps))
    case List(_, items) => Array(Values(items))
    case Table(_, members) => Object(Collected([], members))
  }

  function Values(items: seq<Item>): seq<Json>
    decreases items, 1
  {
    if items == [] then [] else [Value(items[0].tree)] + Values(items[1..])
  }

  /** Of members with the same key the last one counts. */
  function Collected(read: Fields, members: seq<Member>): Fields
    decreases members, 1
  {
    if members == [] then read
    else Collected(Insert(read, Meant(members[0].key), Value(members[0].item.tree)), members[1..])
  }

  /** How many containers are open at the deepest place, kept or not. */
  function Nesting(t: Tree): nat
    decreases t, 0
  {
    match t
    case List(_, items) => 1 + ItemsNesting(items)
    case Table(_, members) => 1 + MembersNesting(members)
    case _ => 0
  }

  function ItemsNesting(items: seq<Item>): nat
    decreases items, 1
  {
    if items == [] then 0 else Max(Nesting(items[0].tree), ItemsNesting(items[1..]))
  }

  function MembersNesting(members: seq<Member>): nat
    decreases members, 1
  {
    if members == [] then 0 else Max(Nesting(members[0].item.tree), MembersNesting(members[1..]))
  }

  // ------------------------------------------------------------------ space

  lemma {:induction false} SpaceSkipped(space: string, rest: string)
    requires AllSpace(space) && (rest == "" || !Space(rest[0]))
    ensures SkipSpace(space + rest) == rest
  {
    if space == "" {
      assert space + rest == rest;
    } else {
      assert (space + rest)[1..] == space[1..] + rest;
      SpaceSkipped(space[1..], rest);
    }
  }

  lemma {:induction false} SpaceFound(s: string) returns (space: string)
    ensures AllSpace(space) && s == space + SkipSpace(s)
    ensures SkipSpace(s) == "" || !Space(SkipSpace(s)[0])
  {
    if s != "" && IsSpace(s[0]) {
      var more := SpaceFound(s[1..]);
      space := [s[0]] + more;
    } else {
      space := "";
    }
  }

  lemma SkipTwice(s: string)
    ensures SkipSpace(SkipSpace(s)) == SkipSpace(s)
  {
    var space := SpaceFound(s);
    SpaceSkipped("", SkipSpace(s));
    assert "" + SkipSpace(s) == SkipSpace(s);
  }

  // ---------------------------------------------------------------- numbers

  lemma {:induction false} RunOfDigits(s: string)
    ensures Digits(s) <==> s != "" && DigitRun(s) == |s|
  {
    if |s| > 1 {
      RunOfDigits(s[1..]);
      assert s == [s[0]] + s[1..];
    }
  }

  lemma RunIsDigits(s: string)
    ensures DigitRun(s) > 0 ==> Digits(s[..DigitRun(s)])
  {
    var n := DigitRun(s);
    DigitRunCut(s, n);
    RunOfDigits(s[..n]);
  }

  lemma FractionGrammar(s: string)
    ensures GoodFraction(s) <==> FractionLength(s) == Some(|s|)
  {
    if s != "" { RunOfDigits(s[1..]); }
  }

  lemma ExponentGrammar(s: string)
    ensures GoodExponent(s) <==> ExponentLength(s) == Some(|s|)
  {
    if s != "" {
      RunOfDigits(s[1..]);
      if |s| > 1 { RunOfDigits(s[2..]); }
    }
  }

  lemma IntegerGrammar(s: string)
    ensures Digits(s) && (s[0] == '0' ==> |s| == 1) <==> IntegerLength(s) == Some(|s|)
  {
    RunOfDigits(s);
  }

  lemma IntegerBefore(integer: string, rest: string)
    requires IntegerLength(integer) == Some(|integer|) && (rest == "" || !IsDigit(rest[0]))
    ensures IntegerLength(integer + rest) == Some(|integer|)
  {
    if integer[0] != '0' {
      DigitRunSplit(integer, rest);
    } else {
      assert (integer + rest)[1..] == rest;
    }
  }

  lemma FractionBefore(fraction: string, exponent: string)
    requires GoodFraction(fraction) && GoodExponent(exponent)
    ensures FractionLength(fraction + exponent) == Some(|fraction|)
  {
    FractionGrammar(fraction);
    if fraction == "" {
      assert fraction + exponent == exponent;
    } else {
      assert (fraction + exponent)[1..] == fraction[1..] + exponent;
      DigitRunSplit(fraction[1..], exponent);
    }
  }

  lemma UnsignedBefore(integer: string, fraction: string, exponent: string)
    requires Digits(integer) && (integer[0] == '0' ==> |integer| == 1)
    requires GoodFraction(fraction) && GoodExponent(exponent)
    ensures var s := integer + (fraction + exponent);
            UnsignedLength(s) == Some(|s|) && s[0] != '-'
  {
    var tail := fraction + exponent;
    IntegerGrammar(integer);
    ExponentGrammar(exponent);
    FractionBefore(fraction, exponent);
    assert tail[|fraction|..] == exponent;
    IntegerBefore(integer, tail);
    assert (integer + tail)[|integer|..] == tail;
  }

  lemma UnsignedFound(s: string) returns (integer: string, fraction: string, exponent: string)
    requires UnsignedLength(s) == Some(|s|)
    ensures NumberParts(s, "", integer, fraction, exponent)
  {
    hide IntegerLength, FractionLength, ExponentLength, GoodFraction, GoodExponent, Digits;
    var i := IntegerLength(s).value;
    var tail := s[i..];
    var f := FractionLength(tail).value;
    integer, fraction, exponent := s[..i], tail[..f], tail[f..];
    IntegerFound(s);
    FractionFound(tail);
    ExponentGrammar(exponent);
    assert s == "" + (integer + (fraction + exponent));
  }

  lemma IntegerFound(s: string)
    requires IntegerLength(s).Some?
    ensures var integer := s[..IntegerLength(s).value];
            Digits(integer) && (integer[0] == '0' ==> |integer| == 1)
  {
    RunIsDigits(s);
  }

  lemma FractionFound(s: string)
    requires FractionLength(s).Some?
    ensures GoodFraction(s[..FractionLength(s).value])
  {
    var f := FractionLength(s).value;
    if f > 0 {
      RunIsDigits(s[1..]);
      assert s[..f][1..] == s[1..][..f - 1];
    }
  }

  /** The number reader takes exactly the texts of the grammar. */
  lemma NumberGrammar(s: string)
    ensures GoodNumber(s) <==> NumberLength(s) == Some(|s|)
  {
    hide UnsignedLength, GoodFraction, GoodExponent, Digits;
    if sign, integer, fraction, exponent :| NumberParts(s, sign, integer, fraction, exponent) {
      UnsignedBefore(integer, fraction, exponent);
      assert s[|sign|..] == integer + (fraction + exponent);
    }
    if NumberLength(s) == Some(|s|) {
      var sign := if s[0] == '-' then "-" else "";
      var integer, fraction, exponent := UnsignedFound(s[|sign|..]);
      assert NumberParts(s, sign, integer, fraction, exponent);
    }
  }

  // ---------------------------------------------------------------- strings

  lemma HexReads(c: char, n: nat)
    ensures HexValue(c) == Some(n) <==> Hex(c, n)
  {
  }

  lemma FourReads(s: string, n: nat)
    ensures FourHex(s, n) <==> |s| == 4 && HexFour(s) == Some(n)
  {
    hide Hex, HexValue;
    if FourHex(s, n) {
      HexReads(s[0], n / 0x1000);
      HexReads(s[1], n / 0x100 % 0x10);
      HexReads(s[2], n / 0x10 % 0x10);
      HexReads(s[3], n % 0x10);
      assert n / 0x10 / 0x10 == n / 0x100 && n / 0x100 / 0x10 == n / 0x1000;
    }
    if |s| == 4 && HexFour(s) == Some(n) {
      var a, b, c, d := HexValue(s[0]).value, HexValue(s[1]).value, HexValue(s[2]).value, HexValue(s[3]).value;
      HexReads(s[0], a);
      HexReads(s[1], b);
      HexReads(s[2], c);
      HexReads(s[3], d);
      FourPlaces(a, b, c, d);
    }
  }

  lemma FourPlaces(a: nat, b: nat, c: nat, d: nat)
    requires a < 16 && b < 16 && c < 16 && d < 16
    ensures var n := a * 0x1000 + b * 0x100 + c * 0x10 + d;
            n < 0x10000 && n / 0x1000 == a && n / 0x100 % 0x10 == b && n / 0x10 % 0x10 == c && n % 0x10 == d
  {
    var high := a * 0x10 + b;
    var most := high * 0x10 + c;
    var n := most * 0x10 + d;
    assert n / 0x10 == most && most / 0x10 == high && high / 0x10 == a;
    assert n / 0x100 == n / 0x10 / 0x10 && n / 0x1000 == n / 0x100 / 0x10;
  }

  lemma ShortEscapeReads(c: char, rest: string)
    requires c != 'u'
    ensures forall meant | Shortens(c, meant) :: ReadChars("\\" + [c] + rest) == Prepend(meant, ReadChars(rest))
  {
    assert ("\\" + [c] + rest)[2..] == rest;
  }

  lemma PairReads(high: string, low: string, a: nat, b: nat, rest: string)
    requires FourHex(high, a) && FourHex(low, b) && 0xD800 <= a < 0xDC00 <= b < 0xE000
    ensures ReadUnicode(high + ("\\u" + low) + rest) == Some(((0x10000 + (a - 0xD800) * 0x400 + (b - 0xDC00)) as char, 10))
  {
    hide HexFour, FourHex;
    var after := high + ("\\u" + low) + rest;
    FourReads(high, a);
    FourReads(low, b);
    assert after == high + ("\\u" + low + rest);
    FourFirst(high, "\\u" + low + rest);
    FourFirst(low, rest);
    assert after[4] == '\\' && after[5] == 'u' && after[6..] == low + rest;
  }

  lemma PieceReads(p: Piece, rest: string)
    requires GoodPiece(p)
    ensures ReadChars(PieceText(p) + rest) == Prepend(p.meant, ReadChars(rest))
  {
    hide HexFour, FourHex;
    var n := p.meant as int;
    var s := PieceText(p) + rest;
    match p
    case Raw(c) => assert s[1..] == rest;
    case Short(letter, c) =>
      assert s[2..] == rest;
      assert letter != 'u' by { assert Shortens(letter, c); }
      ShortEscapeReads(letter, rest);
      assert s == "\\" + [letter] + rest;
    case Coded(digits, _) =>
      FourReads(digits, n);
      FourFirst(digits, rest);
      assert ReadUnicode(digits + rest) == Some((p.meant, 4));
      CodedReads(digits, rest, p.meant);
    case Pair(high, low, _) =>
      var a, b := 0xD800 + (n - 0x10000) / 0x400, 0xDC00 + (n - 0x10000) % 0x400;
      PairReads(high, low, a, b, rest);
      FourReads(high, a);
      FourReads(low, b);
      assert 0x10000 + (a - 0xD800) * 0x400 + (b - 0xDC00) == n;
      CodedReads(high + ("\\u" + low), rest, p.meant);
  }

  lemma CodedReads(code: string, rest: string, c: char)
    requires ReadUnicode(code + rest) == Some((c, |code|))
    ensures ReadChars("\\u" + code + rest) == Prepend(c, ReadChars(rest))
  {
    hide ReadUnicode;
    var s := "\\u" + code + rest;
    assert s[0] == '\\' && s[1] == 'u' && s[2..] == code + rest && s[2 + |code|..] == rest;
  }

  lemma FourFirst(digits: string, rest: string)
    requires |digits| == 4
    ensures HexFour(digits + rest) == HexFour(digits)
  {
  }

  lemma QuoteReads(rest: string)
    ensures ReadChars("\"" + rest) == Some(("", rest))
  {
    assert ("\"" + rest)[1..] == rest;
  }

  lemma {:induction false} PiecesRead(ps: seq<Piece>, rest: string)
    requires GoodPieces(ps)
    ensures ReadChars(PiecesText(ps) + ("\"" + rest)) == Some((Meant(ps), rest))
  {
    hide PieceText, GoodPiece, ReadChars;
    var end := "\"" + rest;
    if ps == [] {
      assert PiecesText(ps) + end == end;
      QuoteReads(rest);
    } else {
      PiecesRead(ps[1..], rest);
      PieceReads(ps[0], PiecesText(ps[1..]) + end);
      assert PiecesText(ps) + end == PieceText(ps[0]) + (PiecesText(ps[1..]) + end);
    }
  }

  /** The first piece of a string literal that reads. */
  lemma PieceFound(s: string) returns (p: Piece, rest: string)
    requires ReadChars(s).Some? && s[0] != '\"'
    ensures GoodPiece(p) && s == PieceText(p) + rest
    ensures ReadChars(rest).Some? && ReadChars(s) == Prepend(p.meant, ReadChars(rest))
  {
    hide HexFour, FourHex;
    if s[0] != '\\' {
      p, rest := Raw(s[0]), s[1..];
    } else if s[1] != 'u' {
      p, rest := Short(s[1], SimpleEscape(s[1]).value), s[2..];
      assert s == "\\" + [s[1]] + rest;
    } else {
      var (c, n) := ReadUnicode(s[2..]).value;
      var high := s[2..][..4];
      FourFirst(high, s[6..]);
      assert s[2..] == high + s[6..];
      FourReads(high, HexFour(high).value);
      rest := s[2 + n..];
      if n == 4 {
        p := Coded(high, c);
      } else {
        var low := s[8..][..4];
        FourFirst(low, rest);
        assert s[2..][6..] == s[8..] == low + rest;
        FourReads(low, HexFour(low).value);
        p := Pair(high, low, c);
        assert s[2..][4] == '\\' && s[2..][5] == 'u';
        assert s == PieceText(p) + rest;
      }
    }
  }

  lemma {:induction false} PiecesFound(s: string) returns (ps: seq<Piece>)
    requires ReadChars(s).Some?
    ensures GoodPieces(ps) && Meant(ps) == ReadChars(s).value.0
    ensures s == PiecesText(ps) + ("\"" + ReadChars(s).value.1)
    decreases |s|
  {
    hide PieceText, GoodPiece;
    var rest := ReadChars(s).value.1;
    if s[0] == '\"' {
      ps := [];
      assert PiecesText(ps) + ("\"" + rest) == s;
    } else {
      var p, after := PieceFound(s);
      PieceNotEmpty(p);
      var more := PiecesFound(after);
      ps := [p] + more;
      assert ps[1..] == more;
    }
  }

  lemma PieceNotEmpty(p: Piece)
    ensures PieceText(p) != ""
  {
  }

  // ------------------------------------------- every text of the grammar reads

  lemma {:induction false} SpaceBefore(space: string, s: string)
    requires AllSpace(space)
    ensures SkipSpace(space + s) == SkipSpace(s)
  {
    if space == "" {
      assert space + s == s;
    } else {
      assert (space + s)[1..] == space[1..] + s;
      SpaceBefore(space[1..], s);
    }
  }

  lemma TreeStart(t: Tree)
    requires Good(t)
    ensures TreeText(t) != "" && !Space(TreeText(t)[0]) && TreeText(t)[0] !in [']', '}']
  {
    hide ItemsText, MembersText, PiecesText, GoodItem, GoodMember, GoodPieces, GoodNumber, NumberLength;
    if t.Figure? {
      NumberGrammar(t.lexeme);
      NumberStart(t.lexeme);
    }
  }

  lemma AtomReads(t: Tree, rest: string, depth: nat)
    requires Good(t) && (t.Word? || t.Figure?) && Delimited(rest)
    ensures ReadValue(TreeText(t) + rest, depth) == Some((Value(t), rest))
  {
    hide ReadAtom, NumberLength;
    var v := Value(t);
    if t.Figure? { NumberGrammar(t.lexeme); }
    assert TreeText(t) == Print(Plain, v);
    ReadPrintedAtom(Plain, v, rest);
    AtomStart(Plain, v);
    assert (TreeText(t) + rest)[0] == TreeText(t)[0];
    ReadDispatch(TreeText(t) + rest, depth);
  }

  lemma QuoteReadsBack(ps: seq<Piece>, rest: string)
    requires GoodPieces(ps)
    ensures Quoted(ps) + rest != "" && (Quoted(ps) + rest)[0] == '\"' && ReadChars((Quoted(ps) + rest)[1..]) == Some((Meant(ps), rest))
  {
    Bracketed("\"", PiecesText(ps), "\"", rest);
    PiecesRead(ps, rest);
  }

  lemma {:induction false} TreeReads(t: Tree, rest: string, depth: nat)
    requires Good(t) && Delimited(rest)
    ensures ReadValue(TreeText(t) + rest, depth) == if Nesting(t) <= depth then Some((Value(t), rest)) else None
    decreases t, 0
  {
    hide ReadValue, ReadArray, ReadObject, ReadChars, ItemsText, MembersText, GoodItem, GoodMember, Quoted;
    var text := TreeText(t) + rest;
    match t
    case Quote(ps) =>
      QuoteReadsBack(ps, rest);
      assert !IsSpace('\"');
      ReadDispatch(text, depth);
    case List(gap, items) =>
      var inner := if items == [] then gap else ItemsText(items);
      Bracketed("[", inner, "]", rest);
      ReadDispatch(text, depth);
      ListReads(gap, items, rest, depth);
    case Table(gap, members) =>
      var inner := if members == [] then gap else MembersText(members);
      Bracketed("{", inner, "}", rest);
      ReadDispatch(text, depth);
      TableReads(gap, members, rest, depth);
    case _ =>
      AtomReads(t, rest, depth);
  }

  lemma {:induction false} ListReads(gap: string, items: seq<Item>, rest: string, depth: nat)
    requires AllSpace(gap) && forall i | 0 <= i < |items| :: GoodItem(items[i])
    ensures ReadArray((if items == [] then gap else ItemsText(items)) + ("]" + rest), depth) ==
            if 1 + ItemsNesting(items) <= depth then Some((Array(Values(items)), rest)) else None
    decreases items, 3
  {
    hide ReadItems, ItemsText, GoodItem, Values, ItemsNesting;
    if items == [] {
      SpaceSkipped(gap, "]" + rest);
      NoItems(items);
    } else {
      var text := ItemsText(items) + ("]" + rest);
      ItemsStartText(items, "]" + rest);
      ReadItemsSkips(text, if depth == 0 then 0 else depth - 1);
      if depth > 0 { ItemsRead(items, rest, depth - 1); }
    }
  }

  lemma NoItems(items: seq<Item>)
    requires items == []
    ensures Values(items) == [] && ItemsNesting(items) == 0
  {
  }

  lemma NoMembers(members: seq<Member>)
    requires members == []
    ensures MembersNesting(members) == 0
  {
  }

  lemma ReadItemsSkips(text: string, depth: nat)
    ensures ReadItems(SkipSpace(text), depth) == ReadItems(text, depth)
  {
    SkipTwice(text);
    assert ReadValue(SkipSpace(text), depth) == ReadValue(text, depth);
  }

  lemma ReadFieldsSkips(text: string, depth: nat, read: Fields)
    ensures ReadFields(SkipSpace(text), depth, read) == ReadFields(text, depth, read)
  {
    SkipTwice(text);
  }

  lemma ItemsStartText(items: seq<Item>, rest: string)
    requires items != [] && GoodItem(items[0])
    ensures SkipSpace(ItemsText(items) + rest) != "" && SkipSpace(ItemsText(items) + rest)[0] != ']'
  {
    hide Good, TreeText;
    var x := items[0];
    var more := x.after + (if |items| == 1 then "" else "," + ItemsText(items[1..])) + rest;
    assert ItemsText(items) + rest == x.before + (TreeText(x.tree) + more);
    TreeStart(x.tree);
    SpaceSkipped(x.before, TreeText(x.tree) + more);
  }

  lemma ItemsJoin(x: Item, tail: seq<Item>, rest: string)
    ensures ItemsText([x] + tail) + rest == ItemText(x) + if tail == [] then rest else "," + (ItemsText(tail) + rest)
  {
    hide ItemText;
    assert ([x] + tail)[1..] == tail;
  }

  lemma MembersJoin(m: Member, tail: seq<Member>, rest: string)
    ensures MembersText([m] + tail) + rest ==
            m.before + (Quoted(m.key) + (m.mid + (":" + (ItemText(m.item) + if tail == [] then rest else "," + (MembersText(tail) + rest)))))
  {
    hide ItemText, Quoted;
    var members := [m] + tail;
    assert members[1..] == tail;
    var more := if tail == [] then "" else "," + MembersText(tail);
    assert MembersText(members) == m.before + Quoted(m.key) + m.mid + ":" + ItemText(m.item) + more;
    hide MembersText;
    Regroup(m.before, Quoted(m.key), m.mid, ItemText(m.item), more, rest);
    assert more + rest == if tail == [] then rest else "," + (MembersText(tail) + rest);
  }

  lemma Regroup(a: string, key: string, mid: string, value: string, tail: string, end: string)
    ensures a + key + mid + ":" + value + tail + end == a + (key + (mid + (":" + (value + (tail + end)))))
  {
    var colon := a + key + mid + ":";
    assert colon + value + tail + end == colon + (value + (tail + end));
    assert colon + (value + (tail + end)) == a + (key + (mid + (":" + (value + (tail + end)))));
  }

  /** An item reads in front of what may follow it, and the space after it is skipped. */
  lemma {:induction false} ItemReads(x: Item, rest: string, depth: nat)
    requires GoodItem(x) && rest != "" && rest[0] in [',', ']', '}']
    ensures var r := ReadValue(ItemText(x) + rest, depth);
            if Nesting(x.tree) <= depth then r == Some((Value(x.tree), x.after + rest)) && SkipSpace(x.after + rest) == rest else r == None
    decreases x, 1
  {
    hide Good, TreeText, Nesting, Value, SkipSpace;
    var text := TreeText(x.tree) + (x.after + rest);
    assert ItemText(x) + rest == x.before + text;
    SpaceBefore(x.before, text);
    SpaceSkipped(x.after, rest);
    assert Delimited(x.after + rest) by { if x.after == "" { assert x.after + rest == rest; } else { assert Space(x.after[0]); } }
    TreeReads(x.tree, x.after + rest, depth);
    assert ReadValue(x.before + text, depth) == ReadValue(text, depth);
  }

  lemma {:induction false} ItemsRead(items: seq<Item>, rest: string, depth: nat)
    requires items != [] && forall i | 0 <= i < |items| :: GoodItem(items[i])
    ensures ReadItems(ItemsText(items) + ("]" + rest), depth) ==
            if ItemsNesting(items) <= depth then Some((Values(items), rest)) else None
    decreases items, 2
  {
    hide GoodItem, ItemText, ReadValue, SkipSpace, Nesting, Value;
    var x, tail, end := items[0], items[1..], "]" + rest;
    var more := if |items| == 1 then end else "," + (ItemsText(tail) + end);
    assert items == [x] + tail;
    ItemsJoin(x, tail, end);
    ItemReads(x, more, depth);
    assert Values(items) == [Value(x.tree)] + Values(tail) && ItemsNesting(items) == Max(Nesting(x.tree), ItemsNesting(tail));
    if |items| == 1 {
      assert Values(items) == [Value(x.tree)] && more[1..] == rest;
      assert AfterItem(Value(x.tree), more, depth) == Some((Values(items), rest));
    } else {
      assert more[1..] == ItemsText(tail) + end;
      ItemsRead(tail, rest, depth);
    }
  }

  lemma {:induction false} TableReads(gap: string, members: seq<Member>, rest: string, depth: nat)
    requires AllSpace(gap) && forall i | 0 <= i < |members| :: GoodMember(members[i])
    ensures ReadObject((if members == [] then gap else MembersText(members)) + ("}" + rest), depth) ==
            if 1 + MembersNesting(members) <= depth then Some((Object(Collected([], members)), rest)) else None
    decreases members, 3
  {
    hide ReadFields, MembersText, GoodMember, MembersNesting;
    if members == [] {
      SpaceSkipped(gap, "}" + rest);
      NoMembers(members);
    } else {
      var text := MembersText(members) + ("}" + rest);
      MembersStartText(members, "}" + rest);
      ReadFieldsSkips(text, if depth == 0 then 0 else depth - 1, []);
      if depth > 0 { MembersRead(members, rest, depth - 1, []); }
    }
  }

  lemma MembersStartText(members: seq<Member>, rest: string)
    requires members != [] && GoodMember(members[0])
    ensures SkipSpace(MembersText(members) + rest) != "" && SkipSpace(MembersText(members) + rest)[0] != '}'
  {
    hide GoodItem, GoodPieces, PiecesText, ItemText;
    var m := members[0];
    var more := m.mid + ":" + ItemText(m.item) + (if |members| == 1 then "" else "," + MembersText(members[1..])) + rest;
    assert MembersText(members) + rest == m.before + (Quoted(m.key) + more);
    SpaceSkipped(m.before, Quoted(m.key) + more);
  }

  /** A member up to its colon. */
  lemma KeyReads(m: Member, value: string, depth: nat, read: Fields)
    requires GoodMember(m)
    ensures ReadFields(m.before + (Quoted(m.key) + (m.mid + (":" + value))), depth, read) ==
            ReadMember(Meant(m.key), ":" + value, depth, read)
  {
    hide GoodItem, GoodPieces, Quoted, ReadChars, ReadMember;
    var colon := ":" + value;
    QuoteReadsBack(m.key, m.mid + colon);
    SpaceSkipped(m.before, Quoted(m.key) + (m.mid + colon));
    SpaceSkipped(m.mid, colon);
  }

  lemma {:induction false} MembersRead(members: seq<Member>, rest: string, depth: nat, read: Fields)
    requires members != [] && forall i | 0 <= i < |members| :: GoodMember(members[i])
    ensures ReadFields(MembersText(members) + ("}" + rest), depth, read) ==
            if MembersNesting(members) <= depth then Some((Collected(read, members), rest)) else None
    decreases members, 2
  {
    hide GoodItem, GoodPieces, ItemText, Quoted, ReadValue, ReadFields, SkipSpace, Nesting, Value;
    var m, tail, end := members[0], members[1..], "}" + rest;
    var more := if |members| == 1 then end else "," + (MembersText(tail) + end);
    var value := ItemText(m.item) + more;
    assert members == [m] + tail;
    MembersJoin(m, tail, end);
    KeyReads(m, value, depth, read);
    assert (":" + value)[1..] == value;
    ItemReads(m.item, more, depth);
    var now := Insert(read, Meant(m.key), Value(m.item.tree));
    if |members| == 1 {
      assert Collected(now, tail) == now && MembersNesting(tail) == 0;
      assert more[1..] == rest;
    } else {
      assert more[1..] == MembersText(tail) + end;
      MembersRead(tail, rest, depth, now);
    }
    assert AfterMember(now, more, depth) == if MembersNesting(tail) <= depth then Some((Collected(now, tail), rest)) else None;
  }

  // ------------------------------------------- every text that reads is one

  lemma AtomFound(s: string) returns (t: Tree)
    requires ReadAtom(s).Some?
    ensures Good(t) && Value(t) == ReadAtom(s).value.0 && Nesting(t) == 0 && s == TreeText(t) + ReadAtom(s).value.1
  {
    hide NumberLength;
    var v := ReadAtom(s).value.0;
    if v.Number? {
      t := Figure(v.lexeme);
      NumberCut(s);
      NumberGrammar(v.lexeme);
    } else {
      t := Word(v);
    }
  }

  lemma {:induction false} TreeFound(s: string, depth: nat) returns (space: string, t: Tree)
    requires ReadValue(s, depth).Some?
    ensures AllSpace(space) && Good(t) && Value(t) == ReadValue(s, depth).value.0 && Nesting(t) <= depth
    ensures s == space + (TreeText(t) + ReadValue(s, depth).value.1)
    decreases |s|, 2
  {
    hide Good, TreeText, Value, Nesting;
    space := SpaceFound(s);
    var text := SkipSpace(s);
    SkipTwice(s);
    assert ReadValue(text, depth) == ReadValue(s, depth);
    t := TreeFirst(text, depth);
  }

  lemma {:induction false} TreeFirst(text: string, depth: nat) returns (t: Tree)
    requires text != "" && !IsSpace(text[0]) && ReadValue(text, depth).Some?
    ensures Good(t) && Value(t) == ReadValue(text, depth).value.0 && Nesting(t) <= depth
    ensures text == TreeText(t) + ReadValue(text, depth).value.1
    decreases |text|, 1
  {
    hide ReadValue, ReadAtom, ReadArray, ReadObject, ReadChars, GoodItem, GoodMember, ItemsText, MembersText, IsSpace, PiecesText;
    hide Values, Collected, ItemsNesting, MembersNesting;
    ReadDispatch(text, depth);
    var inner, rest := text[1..], ReadValue(text, depth).value.1;
    assert text == [text[0]] + inner;
    if text[0] == '\"' {
      var ps := PiecesFound(inner);
      t := Quote(ps);
      Bracketed("\"", PiecesText(ps), "\"", rest);
    } else if text[0] == '[' {
      var gap, items := ListFound(inner, depth);
      t := List(gap, items);
      Bracketed("[", if items == [] then gap else ItemsText(items), "]", rest);
    } else if text[0] == '{' {
      var gap, members := TableFound(inner, depth);
      t := Table(gap, members);
      Bracketed("{", if members == [] then gap else MembersText(members), "}", rest);
    } else {
      t := AtomFound(text);
    }
  }

  /** A value with the space around it, and the text from what follows on. */
  lemma {:induction false} ItemFound(s: string, depth: nat) returns (x: Item, more: string)
    requires ReadValue(s, depth).Some?
    ensures GoodItem(x) && Nesting(x.tree) <= depth && Value(x.tree) == ReadValue(s, depth).value.0
    ensures more == SkipSpace(ReadValue(s, depth).value.1) && s == ItemText(x) + more
    decreases |s|, 3
  {
    hide ReadValue, Good, TreeText, Value, Nesting, SkipSpace;
    var space, t := TreeFound(s, depth);
    var rest := ReadValue(s, depth).value.1;
    var after := SpaceFound(rest);
    x, more := Item(space, t, after), SkipSpace(rest);
    assert space + (TreeText(t) + (after + more)) == space + TreeText(t) + after + more;
  }

  lemma {:induction false} ListFound(s: string, depth: nat) returns (gap: string, items: seq<Item>)
    requires ReadArray(s, depth).Some?
    ensures AllSpace(gap) && (forall i | 0 <= i < |items| :: GoodItem(items[i])) && 1 + ItemsNesting(items) <= depth
    ensures ReadArray(s, depth).value.0 == Array(Values(items))
    ensures s == (if items == [] then gap else ItemsText(items)) + ("]" + ReadArray(s, depth).value.1)
    decreases |s|, 5
  {
    hide ReadItems, GoodItem, ItemsText;
    gap := SpaceFound(s);
    var text := SkipSpace(s);
    if text != "" && text[0] == ']' {
      items := [];
    } else {
      items := ItemsFound(text, depth - 1);
      items := BeforeFirst(gap, items, "]" + ReadArray(s, depth).value.1);
    }
  }

  /** Space moves into the first item. */
  lemma BeforeFirst(gap: string, items: seq<Item>, rest: string) returns (all: seq<Item>)
    requires AllSpace(gap) && items != [] && forall i | 0 <= i < |items| :: GoodItem(items[i])
    ensures all != [] && (forall i | 0 <= i < |all| :: GoodItem(all[i])) && Values(all) == Values(items)
    ensures ItemsNesting(all) == ItemsNesting(items) && ItemsText(all) + rest == gap + (ItemsText(items) + rest)
  {
    hide Good, TreeText, Value, Nesting;
    var x := items[0];
    all := [x.(before := gap + x.before)] + items[1..];
    assert all[1..] == items[1..];
  }

  lemma {:induction false} ItemsFound(s: string, depth: nat) returns (items: seq<Item>)
    requires ReadItems(s, depth).Some?
    ensures items != [] && (forall i | 0 <= i < |items| :: GoodItem(items[i])) && ItemsNesting(items) <= depth
    ensures ReadItems(s, depth).value.0 == Values(items)
    ensures s == ItemsText(items) + ("]" + ReadItems(s, depth).value.1)
    decreases |s|, 4
  {
    hide ReadValue, Value, Nesting, ItemText, ItemsText, GoodItem, SkipSpace;
    var x, more := ItemFound(s, depth);
    var tail := [];
    if more[0] == ',' { tail := ItemsFound(more[1..], depth); }
    items := [x] + tail;
    assert items[1..] == tail;
    ItemsJoin(x, tail, "]" + ReadItems(s, depth).value.1);
  }

  lemma {:induction false} TableFound(s: string, depth: nat) returns (gap: string, members: seq<Member>)
    requires ReadObject(s, depth).Some?
    ensures AllSpace(gap) && (forall i | 0 <= i < |members| :: GoodMember(members[i])) && 1 + MembersNesting(members) <= depth
    ensures ReadObject(s, depth).value.0 == Object(Collected([], members))
    ensures s == (if members == [] then gap else MembersText(members)) + ("}" + ReadObject(s, depth).value.1)
    decreases |s|, 5
  {
    hide ReadFields, GoodMember, MembersText;
    gap := SpaceFound(s);
    var text := SkipSpace(s);
    if text != "" && text[0] == '}' {
      members := [];
    } else {
      members := MembersFound(text, depth - 1, []);
      members := BeforeFirstMember(gap, members, "}" + ReadObject(s, depth).value.1);
    }
  }

  lemma BeforeFirstMember(gap: string, members: seq<Member>, rest: string) returns (all: seq<Member>)
    requires AllSpace(gap) && members != [] && forall i | 0 <= i < |members| :: GoodMember(members[i])
    ensures all != [] && (forall i | 0 <= i < |all| :: GoodMember(all[i])) && Collected([], all) == Collected([], members)
    ensures MembersNesting(all) == MembersNesting(members) && MembersText(all) + rest == gap + (MembersText(members) + rest)
  {
    hide GoodItem, GoodPieces, Quoted, ItemText, Value, Nesting;
    var m := members[0];
    all := [m.(before := gap + m.before)] + members[1..];
    assert all[1..] == members[1..];
  }

  /** The key of the first member, and the text from its value on. */
  lemma KeyFound(s: string, depth: nat, read: Fields) returns (before: string, key: seq<Piece>, mid: string, value: string)
    requires ReadFields(s, depth, read).Some?
    ensures AllSpace(before) && GoodPieces(key) && AllSpace(mid)
    ensures s == before + (Quoted(key) + (mid + (":" + value)))
    ensures ReadFields(s, depth, read) == ReadMember(Meant(key), ":" + value, depth, read)
  {
    hide ReadChars, GoodPieces, PiecesText, ReadMember, SkipSpace;
    before := SpaceFound(s);
    var text := SkipSpace(s);
    assert text == "\"" + text[1..];
    key := PiecesFound(text[1..]);
    var afterKey := ReadChars(text[1..]).value.1;
    mid := SpaceFound(afterKey);
    var colon := SkipSpace(afterKey);
    assert ReadFields(s, depth, read) == ReadMember(Meant(key), colon, depth, read);
    ColonFirst(Meant(key), colon, depth, read);
    value := colon[1..];
    Bracketed("\"", PiecesText(key), "\"", afterKey);
  }

  lemma ColonFirst(key: string, s: string, depth: nat, read: Fields)
    requires ReadMember(key, s, depth, read).Some?
    ensures s != "" && s == ":" + s[1..]
  {
  }

  /** The first member of a text of members, and the text from its comma or brace on. */
  lemma {:induction false} MemberFound(s: string, depth: nat, read: Fields) returns (m: Member, more: string)
    requires ReadFields(s, depth, read).Some?
    ensures GoodMember(m) && Nesting(m.item.tree) <= depth && |more| < |s|
    ensures ReadFields(s, depth, read) == AfterMember(Insert(read, Meant(m.key), Value(m.item.tree)), more, depth)
    ensures s == m.before + (Quoted(m.key) + (m.mid + (":" + (ItemText(m.item) + more))))
    decreases |s|, 2
  {
    hide ReadFields, ReadValue, GoodItem, GoodPieces, Value, Nesting, Quoted, ItemText, AfterMember, SkipSpace, Meant;
    var before, key, mid, value := KeyFound(s, depth, read);
    assert (":" + value)[1..] == value;
    var x;
    x, more := ItemFound(value, depth);
    m := Member(before, key, mid, x);
  }

  lemma {:induction false} MembersFound(s: string, depth: nat, read: Fields) returns (members: seq<Member>)
    requires ReadFields(s, depth, read).Some?
    ensures members != [] && (forall i | 0 <= i < |members| :: GoodMember(members[i])) && MembersNesting(members) <= depth
    ensures ReadFields(s, depth, read).value.0 == Collected(read, members)
    ensures s == MembersText(members) + ("}" + ReadFields(s, depth, read).value.1)
    decreases |s|, 3
  {
    hide ReadFields, ItemText, MembersText, GoodMember, Quoted, Nesting, Value;
    var m, more := MemberFound(s, depth, read);
    var tail := [];
    if more[0] == ',' { tail := MembersFound(more[1..], depth, Insert(read, Meant(m.key), Value(m.item.tree))); }
    members := [m] + tail;
    assert members[1..] == tail;
    MembersJoin(m, tail, "}" + ReadFields(s, depth, read).value.1);
  }

  // -------------------------------------------------------------- main result

  /** The text is the tree's, with space around it. */
  ghost predicate Lays(text: string, x: Item) {
    GoodItem(x) && text == ItemText(x) && Nesting(x.tree) <= 127
  }

  /** The reader accepts exactly the texts of the grammar with at most 127 containers
      open at once, and gives each the value its tree has. */
  lemma ReaderExact(text: string, v: Json)
    ensures Parse(text) == Some(v) <==> exists x :: Lays(text, x) && Value(x.tree) == v
  {
    hide Good, TreeText, Value, Nesting, ReadValue;
    if Parse(text) == Some(v) {
      var before, t := TreeFound(text, MAX_DEPTH);
      var rest := ReadValue(text, MAX_DEPTH).value.1;
      var after := SpaceFound(rest);
      var x := Item(before, t, after);
      assert after + "" == after;
      assert Lays(text, x);
    }
    forall x | Lays(text, x) ensures Parse(text) == Some(Value(x.tree)) {
      TextReads(x);
    }
  }

  lemma TextReads(x: Item)
    requires GoodItem(x)
    ensures Parse(ItemText(x)) == if Nesting(x.tree) <= MAX_DEPTH then Some(Value(x.tree)) else None
  {
    hide Good, TreeText, Value, Nesting;
    var text := TreeText(x.tree) + x.after;
    assert ItemText(x) == x.before + text;
    SpaceBefore(x.before, text);
    SpaceSkipped(x.after, "");
    assert x.after + "" == x.after;
    assert Delimited(x.after) by { if x.after != "" { assert Space(x.after[0]); } }
    TreeReads(x.tree, x.after, MAX_DEPTH);
    assert ReadValue(ItemText(x), MAX_DEPTH) == ReadValue(text, MAX_DEPTH);
  }

  // ---------------------------------------------------------- what is written

  /** Sections 3 to 5 of RFC 8259, without whitespace. */
  lemma WritesGrammar(style: Style, a: Json, b: Json, rest: seq<Json>, key: string, fields: Fields)
    ensures Print(style, Null) == "null" && Print(style, Bool(true)) == "true" && Print(style, Bool(false)) == "false"
    ensures Print(style, Array([])) == "[" + "" + "]" && Print(style, Array([a] + rest)) == "[" + PrintItems(style, [a] + rest) + "]"
    ensures PrintItems(style, [a]) == Print(style, a)
    ensures PrintItems(style, [a, b] + rest) == Print(style, a) + ("," + PrintItems(style, [b] + rest))
    ensures Print(style, Object(fields)) == "{" + PrintFields(style, fields) + "}" && PrintFields(style, []) == ""
    ensures fields != [] ==>
              PrintFields(style, [Field(key, a)] + fields) == PrintString(style, key) + ":" + Print(style, a) + ("," + PrintFields(style, fields))
  {
    hide PrintString;
    assert ([a, b] + rest)[1..] == [b] + rest && ([Field(key, a)] + fields)[1..] == fields;
    assert Print(style, a) + [] == Print(style, a);
  }

  /** A written character is itself unless it must be escaped: quote and backslash, the
      control characters, and in HTML-safe style the characters that matter to HTML. */
  lemma WritesChars(style: Style, c: char)
    ensures var escaped := c == '\"' || c == '\\' || c as int < 0x20 || (style == HtmlSafe && c in "<>&'");
            && (!escaped ==> PrintChar(style, c) == [c])
            && (escaped ==>
                  || (|PrintChar(style, c)| == 2 && PrintChar(style, c)[0] == '\\' && Shortens(PrintChar(style, c)[1], c) && c !in "<>&'/")
                  || (exists digits :: PrintChar(style, c) == "\\u" + digits && FourHex(digits, c as int) && forall d | d in digits :: !('A' <= d <= 'F')))
  {
    var n, p := c as int, PrintChar(style, c);
    if |p| == 6 {
      var digits := p[2..];
      assert p == "\\u" + digits;
      assert n / 0x1000 == 0 && n / 0x100 % 0x10 == 0 && n / 0x10 % 0x10 == n / 0x10;
      assert FourHex(digits, n);
    }
  }
}
