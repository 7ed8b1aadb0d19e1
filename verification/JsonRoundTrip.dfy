/** Writing a JSON value and reading it back, in front of any further text. */
module JsonRoundTrip {
  import opened Wrappers
  import opened Text
  import opened Json

  /** Text that cannot be mistaken for the continuation of a number. */
  predicate Delimited(rest: string) {
    rest == [] || (!IsDigit(rest[0]) && rest[0] !in ['.', 'e', 'E'])
  }

  // ---------------------------------------------------------------- strings

  lemma ReadPrintedChar(style: Style, c: char, t: string)
    ensures ReadChars(PrintChar(style, c) + t) == Prepend(c, ReadChars(t))
  {
    var p := PrintChar(style, c);
    if |p| == 1 {
      assert (p + t)[1..] == t;
    } else if |p| == 2 {
      assert (p + t)[2..] == t;
    } else {
      var n := c as int;
      assert |p| == 6;
      assert (p + t)[2..][..4] == ['0', '0', HexDigit(n / 16), HexDigit(n % 16)];
      assert HexFour((p + t)[2..]) == Some(n);
      assert (p + t)[6..] == t;
    }
  }

  lemma {:induction false} ReadPrintedChars(style: Style, s: string, end: string)
    requires end != [] && end[0] == '\"'
    ensures ReadChars(PrintChars(style, s) + end) == Some((s, end[1..]))
  {
    if s == [] {
      assert PrintChars(style, s) + end == end;
    } else {
      var tail := PrintChars(style, s[1..]) + end;
      assert PrintChars(style, s) + end == PrintChar(style, s[0]) + tail;
      ReadPrintedChar(style, s[0], tail);
      ReadPrintedChars(style, s[1..], end);
      assert s == [s[0]] + s[1..];
    }
  }

  lemma Bracketed(open: string, inner: string, close: string, rest: string)
    requires |open| == 1
    ensures open + inner + close + rest == open + (inner + (close + rest))
    ensures (open + inner + close + rest)[0] == open[0]
    ensures (open + inner + close + rest)[1..] == inner + (close + rest)
  {
  }

  lemma ReadPrintedString(style: Style, s: string, rest: string)
    ensures (PrintString(style, s) + rest)[1..] == PrintChars(style, s) + ("\"" + rest)
    ensures ReadChars(PrintChars(style, s) + ("\"" + rest)) == Some((s, rest))
  {
    var end := "\"" + rest;
    Bracketed("\"", PrintChars(style, s), "\"", rest);
    ReadPrintedChars(style, s, end);
    assert end[1..] == rest;
  }

  // ---------------------------------------------------------------- numbers

  lemma {:induction false} DigitRunAppend(s: string, rest: string)
    requires rest == [] || !IsDigit(rest[0])
    ensures DigitRun(s + rest) == DigitRun(s)
  {
    if s == [] {
      assert s + rest == rest;
    } else {
      assert (s + rest)[1..] == s[1..] + rest;
      DigitRunAppend(s[1..], rest);
    }
  }

  lemma ExponentAppend(s: string, rest: string)
    requires ExponentLength(s) == Some(|s|) && Delimited(rest)
    ensures ExponentLength(s + rest) == Some(|s|)
  {
    if s == [] {
      assert s + rest == rest;
    } else {
      var sign := if |s| > 1 && (s[1] == '+' || s[1] == '-') then 1 else 0;
      assert (s + rest)[1 + sign..] == s[1 + sign..] + rest;
      DigitRunAppend(s[1 + sign..], rest);
    }
  }

  lemma {:induction false} DigitRunSplit(s: string, rest: string)
    requires DigitRun(s) == |s| ==> rest == [] || !IsDigit(rest[0])
    ensures DigitRun(s + rest) == DigitRun(s)
  {
    if s == [] {
      assert s + rest == rest;
    } else if IsDigit(s[0]) {
      assert (s + rest)[1..] == s[1..] + rest;
      DigitRunSplit(s[1..], rest);
    }
  }

  lemma FractionAppend(s: string, rest: string)
    requires FractionLength(s).Some?
    requires FractionLength(s).value == |s| ==> Delimited(rest)
    ensures FractionLength(s + rest) == FractionLength(s)
  {
    if s == [] {
      assert s + rest == rest;
    } else if s[0] == '.' {
      assert (s + rest)[1..] == s[1..] + rest;
      DigitRunSplit(s[1..], rest);
    }
  }

  lemma FractionExponentAppend(s: string, rest: string)
    requires FractionExponentLength(s) == Some(|s|) && Delimited(rest)
    ensures FractionExponentLength(s + rest) == Some(|s|)
  {
    var f := FractionLength(s).value;
    FractionAppend(s, rest);
    assert (s + rest)[f..] == s[f..] + rest;
    ExponentAppend(s[f..], rest);
  }

  lemma IntegerAppend(s: string, rest: string)
    requires IntegerLength(s).Some?
    requires IntegerLength(s).value == |s| ==> Delimited(rest)
    ensures IntegerLength(s + rest) == IntegerLength(s)
  {
    if s[0] != '0' {
      DigitRunSplit(s, rest);
    } else if |s| == 1 {
      assert (s + rest)[1..] == rest;
    }
  }

  lemma UnsignedAppend(s: string, rest: string)
    requires UnsignedLength(s) == Some(|s|) && Delimited(rest)
    ensures UnsignedLength(s + rest) == Some(|s|)
  {
    hide IntegerLength, FractionExponentLength;
    UnsignedParts(s);
    var i := IntegerLength(s).value;
    var tail := s[i..];
    assert FractionExponentLength(tail) == Some(|tail|);
    FractionExponentAppend(tail, rest);
    assert (s + rest)[i..] == tail + rest;
    FullInteger(s, rest);
    assert IntegerLength(s + rest) == Some(i);
    assert FractionExponentLength((s + rest)[i..]) == Some(|s| - i);
  }

  lemma UnsignedParts(s: string)
    requires UnsignedLength(s).Some?
    ensures IntegerLength(s).Some? && FractionExponentLength(s[IntegerLength(s).value..]).Some?
    ensures UnsignedLength(s).value == IntegerLength(s).value + FractionExponentLength(s[IntegerLength(s).value..]).value
  {
    hide IntegerLength, FractionExponentLength;
  }

  lemma FullInteger(s: string, rest: string)
    requires IntegerLength(s).Some? && Delimited(rest)
    ensures IntegerLength(s + rest) == IntegerLength(s)
  {
    IntegerAppend(s, rest);
  }

  lemma NumberAppend(s: string, rest: string)
    requires NumberLength(s) == Some(|s|) && Delimited(rest)
    ensures NumberLength(s + rest) == Some(|s|)
  {
    assert (s + rest)[1..] == s[1..] + rest;
    if s[0] == '-' { UnsignedAppend(s[1..], rest); } else { UnsignedAppend(s, rest); }
  }

  lemma NumberStart(s: string)
    requires NumberLength(s) == Some(|s|)
    ensures s != [] && (s[0] == '-' || IsDigit(s[0]))
  {
  }

  // ----------------------------------------------------------------- values

  lemma PrintStart(style: Style, v: Json)
    requires NumbersOk(v)
    ensures Print(style, v) != [] && !IsSpace(Print(style, v)[0]) && Print(style, v)[0] !in [']', '}']
  {
    if v.Number? { NumberStart(v.lexeme); }
  }

  lemma ReadPrintedAtom(style: Style, v: Json, rest: string)
    requires v.Null? || v.Bool? || v.Number?
    requires NumbersOk(v) && Delimited(rest)
    ensures ReadAtom(Print(style, v) + rest) == Some((v, rest))
  {
    if v.Number? {
      ReadLexeme(v.lexeme, rest);
    } else {
      var word := Print(style, v);
      var text := word + rest;
      assert text[..|word|] == word && text[|word|..] == rest && text[0] == word[0];
      assert word <= text;
    }
  }

  lemma ReadLexeme(s: string, rest: string)
    requires NumberLength(s) == Some(|s|) && Delimited(rest)
    ensures ReadAtom(s + rest) == Some((Number(s), rest))
  {
    NumberStart(s);
    NumberAppend(s, rest);
    hide NumberLength;
    var text := s + rest;
    assert text[..|s|] == s && text[|s|..] == rest && text[0] == s[0];
    NotAWord(text, "null");
    NotAWord(text, "true");
    NotAWord(text, "false");
  }

  lemma NotAWord(text: string, word: string)
    requires text != [] && word != [] && text[0] != word[0]
    ensures !(word <= text)
  {
  }

  lemma NoSpace(s: string)
    requires s == [] || !IsSpace(s[0])
    ensures SkipSpace(s) == s
  {
  }

  lemma AtomStart(style: Style, v: Json)
    requires v.Null? || v.Bool? || v.Number?
    requires NumbersOk(v)
    ensures Print(style, v) != [] && !IsSpace(Print(style, v)[0]) && Print(style, v)[0] !in ['\"', '[', '{']
  {
    if v.Number? { NumberStart(v.lexeme); }
  }

  lemma ReadDispatch(text: string, depth: nat)
    requires text != [] && !IsSpace(text[0])
    ensures ReadValue(text, depth) ==
            if text[0] == '\"' then ReadString(text[1..])
            else if text[0] == '[' then ReadArray(text[1..], depth)
            else if text[0] == '{' then ReadObject(text[1..], depth)
            else ReadAtom(text)
  {
  }

  lemma ReadPrintedText(style: Style, s: string, rest: string, depth: nat)
    ensures ReadValue(PrintString(style, s) + rest, depth) == Some((String(s), rest))
  {
    hide ReadValue, PrintChars;
    ReadPrintedString(style, s, rest);
    assert (PrintString(style, s) + rest)[0] == '\"';
    ReadDispatch(PrintString(style, s) + rest, depth);
  }

  /** Reading undoes writing exactly when the nesting fits the bound; the value
      read is the canonical form of the one written. */
  lemma {:induction false} ReadPrinted(style: Style, v: Json, rest: string, depth: nat)
    requires NumbersOk(v) && Delimited(rest)
    ensures ReadValue(Print(style, v) + rest, depth) ==
            if Depth(v) <= depth then Some((Canonical(v), rest)) else None
    decreases v, 0
  {
    hide ReadValue, ReadAtom, ReadArray, ReadObject, PrintItems, PrintFields, PrintChars, NumberLength;
    match v
    case String(s) =>
      ReadPrintedText(style, s, rest, depth);
    case Array(items) =>
      var end := "]" + rest;
      Bracketed("[", PrintItems(style, items), "]", rest);
      ReadDispatch(Print(style, v) + rest, depth);
      ReadPrintedArray(style, items, end, depth);
      assert end[1..] == rest;
    case Object(fields) =>
      var end := "}" + rest;
      Bracketed("{", PrintFields(style, fields), "}", rest);
      ReadDispatch(Print(style, v) + rest, depth);
      ReadPrintedObject(style, fields, end, depth);
      assert end[1..] == rest;
    case _ =>
      ReadPrintedAtom(style, v, rest);
      AtomStart(style, v);
      assert (Print(style, v) + rest)[0] == Print(style, v)[0];
      ReadDispatch(Print(style, v) + rest, depth);
  }

  lemma {:induction false} ReadPrintedArray(style: Style, items: seq<Json>, end: string, depth: nat)
    requires forall i | 0 <= i < |items| :: NumbersOk(items[i])
    requires end != [] && end[0] == ']'
    ensures ReadArray(PrintItems(style, items) + end, depth) ==
            if 1 + ItemsDepth(items) <= depth then Some((Array(CanonicalItems(items)), end[1..])) else None
    decreases items, 2
  {
    hide NumbersOk, Print, ReadItems, Canonical, Depth;
    var inner := PrintItems(style, items) + end;
    if items == [] {
      assert inner == end;
    } else {
      hide PrintItems, ItemsDepth, CanonicalItems;
      ItemsStart(style, items, end);
      if depth > 0 { ReadPrintedItems(style, items, end, depth - 1); }
    }
  }

  lemma ItemsStart(style: Style, items: seq<Json>, end: string)
    requires items != [] && NumbersOk(items[0])
    ensures PrintItems(style, items) != [] && (PrintItems(style, items) + end)[0] != ']'
    ensures SkipSpace(PrintItems(style, items) + end) == PrintItems(style, items) + end
  {
    PrintStart(style, items[0]);
    hide Print;
    assert PrintItems(style, items)[0] == Print(style, items[0])[0];
  }

  lemma {:induction false} ReadPrintedObject(style: Style, fields: Fields, end: string, depth: nat)
    requires forall i | 0 <= i < |fields| :: NumbersOk(fields[i].value)
    requires end != [] && end[0] == '}'
    ensures ReadObject(PrintFields(style, fields) + end, depth) ==
            if 1 + FieldsDepth(fields) <= depth then Some((Object(CanonicalFields([], fields)), end[1..])) else None
    decreases fields, 2
  {
    hide NumbersOk, Print, ReadFields;
    var inner := PrintFields(style, fields) + end;
    if fields == [] {
      assert inner == end;
    } else {
      assert inner[0] == '\"';
      if depth > 0 { ReadPrintedFields(style, fields, end, depth - 1, []); }
    }
  }

  lemma ItemsText(style: Style, items: seq<Json>, end: string, more: string)
    requires items != []
    requires more == if |items| == 1 then end else "," + (PrintItems(style, items[1..]) + end)
    ensures PrintItems(style, items) + end == Print(style, items[0]) + more
  {
  }

  lemma {:induction false} ReadPrintedItems(style: Style, items: seq<Json>, end: string, depth: nat)
    requires items != [] && forall i | 0 <= i < |items| :: NumbersOk(items[i])
    requires end != [] && end[0] == ']'
    ensures ReadItems(PrintItems(style, items) + end, depth) ==
            if ItemsDepth(items) <= depth then Some((CanonicalItems(items), end[1..])) else None
    decreases items, 1
  {
    var v, tail := items[0], items[1..];
    var more := if |items| == 1 then end else "," + (PrintItems(style, tail) + end);
    ItemsText(style, items, end, more);
    ReadPrinted(style, v, more, depth);
    NoSpace(more);
    assert ItemsDepth(items) == Max(Depth(v), ItemsDepth(tail));
    assert CanonicalItems(items) == [Canonical(v)] + CanonicalItems(tail);
    if |items| == 1 {
      assert tail == [] && CanonicalItems(items) == [Canonical(v)];
      assert AfterItem(Canonical(v), more, depth) == Some(([Canonical(v)], end[1..]));
    } else {
      assert more[1..] == PrintItems(style, tail) + end;
      ReadPrintedItems(style, tail, end, depth);
      assert AfterItem(Canonical(v), more, depth) ==
             if ItemsDepth(tail) <= depth then Some((CanonicalItems(items), end[1..])) else None;
    }
  }

  /** One member: its key, its value, and what follows it. */
  lemma ReadPrintedMember(style: Style, fields: Fields, end: string, more: string, depth: nat, read: Fields)
    requires fields != [] && end != [] && more != [] && more[0] in [',', '}']
    requires more == if |fields| == 1 then end else "," + (PrintFields(style, fields[1..]) + end)
    requires ReadValue(Print(style, fields[0].value) + more, depth) ==
             if Depth(fields[0].value) <= depth then Some((Canonical(fields[0].value), more)) else None
    ensures ReadFields(PrintFields(style, fields) + end, depth, read) ==
            if Depth(fields[0].value) <= depth
            then AfterMember(Insert(read, fields[0].key, Canonical(fields[0].value)), more, depth)
            else None
  {
    var key, v := fields[0].key, fields[0].value;
    var member := ":" + (Print(style, v) + more);
    FieldsText(style, fields, end, more, member);
    FieldsStart(style, fields, end);
    ReadPrintedString(style, key, member);
    assert member[1..] == Print(style, v) + more;
    NoSpace(more);
    NoSpace(member);
    assert ReadFields(PrintFields(style, fields) + end, depth, read) == ReadMember(key, member, depth, read);
  }

  lemma {:induction false} ReadPrintedFields(style: Style, fields: Fields, end: string, depth: nat, read: Fields)
    requires fields != [] && forall i | 0 <= i < |fields| :: NumbersOk(fields[i].value)
    requires end != [] && end[0] == '}'
    ensures ReadFields(PrintFields(style, fields) + end, depth, read) ==
            if FieldsDepth(fields) <= depth then Some((CanonicalFields(read, fields), end[1..])) else None
    decreases fields, 1
  {
    var v, tail := fields[0].value, fields[1..];
    var more := if |fields| == 1 then end else "," + (PrintFields(style, tail) + end);
    ReadPrinted(style, v, more, depth);
    ReadPrintedMember(style, fields, end, more, depth, read);
    var now := Insert(read, fields[0].key, Canonical(v));
    if |fields| == 1 {
      assert tail == [];
    } else {
      assert more[1..] == PrintFields(style, tail) + end;
      ReadPrintedFields(style, tail, end, depth, now);
    }
    assert AfterMember(now, more, depth) ==
           if FieldsDepth(tail) <= depth then Some((CanonicalFields(now, tail), end[1..])) else None;
  }

  lemma FieldsStart(style: Style, fields: Fields, end: string)
    requires fields != []
    ensures PrintFields(style, fields) != [] && (PrintFields(style, fields) + end)[0] == '\"'
    ensures SkipSpace(PrintFields(style, fields) + end) == PrintFields(style, fields) + end
  {
    assert PrintFields(style, fields)[0] == '\"';
  }

  lemma FieldsText(style: Style, fields: Fields, end: string, more: string, afterKey: string)
    requires fields != []
    requires more == if |fields| == 1 then end else "," + (PrintFields(style, fields[1..]) + end)
    requires afterKey == ":" + (Print(style, fields[0].value) + more)
    ensures PrintFields(style, fields) + end == PrintString(style, fields[0].key) + afterKey
  {
    hide PrintString, Print;
    var key, v := PrintString(style, fields[0].key), Print(style, fields[0].value);
    if |fields| == 1 {
      assert PrintFields(style, fields) == key + ":" + v + [];
      MemberText(key, v, [], end, more);
    } else {
      var tail := PrintFields(style, fields[1..]);
      MemberText(key, v, "," + tail, end, more);
    }
  }

  lemma MemberText(key: string, v: string, tail: string, end: string, more: string)
    requires more == tail + end
    ensures key + ":" + v + tail + end == key + (":" + (v + more))
  {
  }

  /** A well-formed value survives writing and reading if and only if it nests at
      most 127 containers. */
  lemma ParsePrint(style: Style, v: Json)
    requires WellFormed(v)
    ensures Parse(Print(style, v)) == if Depth(v) <= MAX_DEPTH then Some(v) else None
  {
    WellFormedNumbers(v);
    CanonicalIdentity(v);
    ReadPrinted(style, v, "", MAX_DEPTH);
    assert Print(style, v) + "" == Print(style, v);
  }

  // ------------------------------------------- characters never written

  predicate NumberChar(c: char) { IsDigit(c) || c in ['+', '-', '.', 'e', 'E'] }

  /** Control characters are always escaped, and angle brackets in HTML-safe style. */
  predicate Unwritten(style: Style, c: char) { c as int < 0x20 || (style == HtmlSafe && c == '<') }

  lemma {:induction false} DigitsAvoid(s: string, c: char)
    requires !NumberChar(c)
    ensures c !in s[..DigitRun(s)]
  {
    if DigitRun(s) > 0 {
      DigitsAvoid(s[1..], c);
      assert s[..DigitRun(s)] == [s[0]] + s[1..][..DigitRun(s[1..])];
    }
  }

  lemma ExponentAvoids(s: string, c: char)
    requires !NumberChar(c)
    requires ExponentLength(s) == Some(|s|)
    ensures c !in s
  {
    if s != [] {
      var m := if |s| > 1 && (s[1] == '+' || s[1] == '-') then 2 else 1;
      DigitsAvoid(s[m..], c);
      assert s == s[..m] + s[m..][..|s| - m];
    }
  }

  lemma FractionExponentAvoids(s: string, c: char)
    requires !NumberChar(c)
    requires FractionExponentLength(s) == Some(|s|)
    ensures c !in s
  {
    var f := FractionLength(s).value;
    ExponentAvoids(s[f..], c);
    if f > 0 {
      DigitsAvoid(s[1..], c);
      assert s == [s[0]] + s[1..][..f - 1] + s[f..];
    } else {
      assert s == s[f..];
    }
  }

  lemma IntegerAvoids(s: string, c: char)
    requires !NumberChar(c)
    requires IntegerLength(s).Some?
    ensures c !in s[..IntegerLength(s).value]
  {
    DigitsAvoid(s, c);
  }

  lemma UnsignedAvoids(s: string, c: char)
    requires !NumberChar(c)
    requires UnsignedLength(s) == Some(|s|)
    ensures c !in s
  {
    var i := IntegerLength(s).value;
    FractionExponentAvoids(s[i..], c);
    IntegerAvoids(s, c);
    assert s == s[..i] + s[i..];
  }

  lemma NumberAvoids(s: string, c: char)
    requires !NumberChar(c)
    requires NumberLength(s) == Some(|s|)
    ensures c !in s
  {
    if s[0] == '-' {
      UnsignedAvoids(s[1..], c);
      assert s == [s[0]] + s[1..];
    } else {
      UnsignedAvoids(s, c);
    }
  }

  lemma {:induction false} StringAvoids(style: Style, s: string, c: char)
    requires Unwritten(style, c)
    ensures c !in PrintChars(style, s)
  {
    if s != [] {
      StringAvoids(style, s[1..], c);
      assert c !in PrintChar(style, s[0]);
    }
  }

  /** Output has no control characters, and HTML-safe output no opening angle bracket. */
  lemma {:induction false} PrintAvoids(style: Style, v: Json, c: char)
    requires Unwritten(style, c)
    requires NumbersOk(v)
    ensures c !in Print(style, v)
    decreases v, 0
  {
    match v
    case Number(lexeme) => NumberAvoids(lexeme, c);
    case String(s) => StringAvoids(style, s, c);
    case Array(items) => ItemsAvoid(style, items, c);
    case Object(fields) => FieldsAvoid(style, fields, c);
    case _ =>
  }

  lemma {:induction false} ItemsAvoid(style: Style, items: seq<Json>, c: char)
    requires Unwritten(style, c)
    requires forall i | 0 <= i < |items| :: NumbersOk(items[i])
    ensures c !in PrintItems(style, items)
    decreases items, 1
  {
    if items != [] {
      PrintAvoids(style, items[0], c);
      ItemsAvoid(style, items[1..], c);
    }
  }

  lemma {:induction false} FieldsAvoid(style: Style, fields: Fields, c: char)
    requires Unwritten(style, c)
    requires forall i | 0 <= i < |fields| :: NumbersOk(fields[i].value)
    ensures c !in PrintFields(style, fields)
    decreases fields, 1
  {
    if fields != [] {
      StringAvoids(style, fields[0].key, c);
      PrintAvoids(style, fields[0].value, c);
      FieldsAvoid(style, fields[1..], c);
    }
  }
}
