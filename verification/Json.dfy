/**
 JSON texts as the Rust JSON library writes and reads them: compact output, an
 optional HTML-safe escaping of strings (the template filter `tojson`), objects
 kept as key-sorted maps when read, and a bound of 127 nested containers.
 A number is represented by its lexeme.
 */
module Json {
  import opened Wrappers
  import opened Text

  datatype Json =
    | Null
    | Bool(b: bool)
    | Number(lexeme: string)
    | String(s: string)
    | Array(items: seq<Json>)
    | Object(fields: seq<Field>)
  {
    predicate IsObject() { Object? }

    /** Member lookup; anything but an object has no members. */
    function Get(key: string): Option<Json> {
      if Object? then Lookup(fields, key) else None
    }
  }

  datatype Field = Field(key: string, value: Json)

  type Fields = seq<Field>

  /** Escaping style of printed strings: as is, or safe to embed in HTML. */
  datatype Style = Plain | HtmlSafe

  const MAX_DEPTH: nat := 127

  // ------------------------------------------------------------ object maps

  function Lookup(fields: Fields, key: string): Option<Json> {
    if fields == [] then None
    else if fields[0].key == key then Some(fields[0].value)
    else Lookup(fields[1..], key)
  }

  /** Insertion into a key-sorted map; a present key gets the new value. */
  function Insert(fields: Fields, key: string, value: Json): Fields {
    if fields == [] then [Field(key, value)]
    else if fields[0].key == key then [Field(key, value)] + fields[1..]
    else if Less(key, fields[0].key) then [Field(key, value)] + fields
    else [fields[0]] + Insert(fields[1..], key, value)
  }

  lemma {:induction false} LookupInsert(fields: Fields, key: string, value: Json, other: string)
    ensures Lookup(Insert(fields, key, value), other) ==
            if other == key then Some(value) else Lookup(fields, other)
  {
    if fields != [] && fields[0].key != key && !Less(key, fields[0].key) {
      LookupInsert(fields[1..], key, value, other);
      assert Insert(fields, key, value)[1..] == Insert(fields[1..], key, value);
    } else if fields != [] {
      assert Insert(fields, key, value)[1..] ==
             if fields[0].key == key then fields[1..] else fields;
    }
  }

  ghost predicate Sorted(fields: Fields) {
    forall i, j | 0 <= i < j < |fields| :: Less(fields[i].key, fields[j].key)
  }

  lemma {:induction false} InsertLast(fields: Fields, key: string, value: Json)
    requires forall i | 0 <= i < |fields| :: Less(fields[i].key, key)
    ensures Insert(fields, key, value) == fields + [Field(key, value)]
  {
    if fields != [] {
      LessAsymmetric(fields[0].key, key);
      InsertLast(fields[1..], key, value);
      assert fields == [fields[0]] + fields[1..];
    }
  }

  // ------------------------------------------- canonical values and nesting

  /** What a reader keeps of a written value: objects become key-sorted maps. */
  function Canonical(v: Json): Json {
    match v
    case Array(items) => Array(CanonicalItems(items))
    case Object(fields) => Object(CanonicalFields([], fields))
    case _ => v
  }

  function CanonicalItems(items: seq<Json>): (r: seq<Json>)
    ensures |r| == |items|
  {
    if items == [] then [] else [Canonical(items[0])] + CanonicalItems(items[1..])
  }

  function CanonicalFields(read: Fields, fields: Fields): Fields
    decreases fields
  {
    if fields == [] then read
    else
      CanonicalFields(Insert(read, fields[0].key, Canonical(fields[0].value)), fields[1..])
  }

  function Depth(v: Json): nat {
    match v
    case Array(items) => 1 + ItemsDepth(items)
    case Object(fields) => 1 + FieldsDepth(fields)
    case _ => 0
  }

  function Max(a: nat, b: nat): nat { if a < b then b else a }

  function ItemsDepth(items: seq<Json>): nat {
    if items == [] then 0 else Max(Depth(items[0]), ItemsDepth(items[1..]))
  }

  function FieldsDepth(fields: Fields): nat {
    if fields == [] then 0
    else
      Max(Depth(fields[0].value), FieldsDepth(fields[1..]))
  }

  /** A value as the reader builds it: sorted objects and number lexemes. */
  ghost predicate WellFormed(v: Json) {
    match v
    case Number(lexeme) => NumberLength(lexeme) == Some(|lexeme|)
    case Array(items) => forall i | 0 <= i < |items| :: WellFormed(items[i])
    case Object(fields) => Sorted(fields) && forall i | 0 <= i < |fields| :: WellFormed(fields[i].value)
    case _ => true
  }

  /** Every number in the value is a JSON number lexeme. */
  ghost predicate NumbersOk(v: Json) {
    match v
    case Number(lexeme) => NumberLength(lexeme) == Some(|lexeme|)
    case Array(items) => forall i | 0 <= i < |items| :: NumbersOk(items[i])
    case Object(fields) => forall i | 0 <= i < |fields| :: NumbersOk(fields[i].value)
    case _ => true
  }

  lemma {:induction false} WellFormedNumbers(v: Json)
    requires WellFormed(v)
    ensures NumbersOk(v)
  {
    match v
    case Array(items) =>
      forall i | 0 <= i < |items| ensures NumbersOk(items[i]) { WellFormedNumbers(items[i]); }
    case Object(fields) =>
      forall i | 0 <= i < |fields| ensures NumbersOk(fields[i].value) {
        WellFormedNumbers(fields[i].value);
      }
    case _ =>
  }

  lemma {:induction false} CanonicalIdentity(v: Json)
    requires WellFormed(v)
    ensures Canonical(v) == v
  {
    match v
    case Array(items) => CanonicalItemsIdentity(items);
    case Object(fields) => CanonicalFieldsIdentity([], fields);
    case _ =>
  }

  lemma {:induction false} CanonicalItemsIdentity(items: seq<Json>)
    requires forall i | 0 <= i < |items| :: WellFormed(items[i])
    ensures CanonicalItems(items) == items
  {
    if items != [] {
      CanonicalIdentity(items[0]);
      CanonicalItemsIdentity(items[1..]);
    }
  }

  lemma {:induction false} CanonicalFieldsIdentity(read: Fields, fields: Fields)
    requires Sorted(read + fields)
    requires forall i | 0 <= i < |fields| :: WellFormed(fields[i].value)
    ensures CanonicalFields(read, fields) == read + fields
    decreases fields
  {
    if fields == [] {
      assert read + fields == read;
    } else {
      CanonicalIdentity(fields[0].value);
      forall i | 0 <= i < |read| ensures Less(read[i].key, fields[0].key) {
        assert (read + fields)[i] == read[i] && (read + fields)[|read|] == fields[0];
      }
      InsertLast(read, fields[0].key, fields[0].value);
      assert (read + [fields[0]]) + fields[1..] == read + fields;
      CanonicalFieldsIdentity(read + [fields[0]], fields[1..]);
    }
  }

  // ---------------------------------------------------------------- writing

  function HexDigit(n: nat): (c: char)
    requires n < 16
    ensures c != '<' && c as int >= 0x20
  {
    if n < 10 then (0x30 + n) as char else (0x61 + (n - 10)) as char
  }

  function UnicodeEscape(n: nat): string
    requires n < 0x80
  {
    "\\u00" + [HexDigit(n / 16), HexDigit(n % 16)]
  }

  function PrintChar(style: Style, c: char): string {
    if c == '\"' then "\\\""
    else if c == '\\' then "\\\\"
    else if c as int == 0x08 then "\\b"
    else if c as int == 0x09 then "\\t"
    else if c as int == 0x0A then "\\n"
    else if c as int == 0x0C then "\\f"
    else if c as int == 0x0D then "\\r"
    else if c as int < 0x20 || (style == HtmlSafe && c in ['<', '>', '&', '\''])
    then UnicodeEscape(c as int)
    else [c]
  }

  function PrintChars(style: Style, s: string): string {
    if s == [] then [] else PrintChar(style, s[0]) + PrintChars(style, s[1..])
  }

  function PrintString(style: Style, s: string): string {
    "\"" + PrintChars(style, s) + "\""
  }

  function Print(style: Style, v: Json): string {
    match v
    case Null => "null"
    case Bool(b) => if b then "true" else "false"
    case Number(lexeme) => lexeme
    case String(s) => PrintString(style, s)
    case Array(items) => "[" + PrintItems(style, items) + "]"
    case Object(fields) => "{" + PrintFields(style, fields) + "}"
  }

  function PrintItems(style: Style, items: seq<Json>): string {
    if items == [] then []
    else Print(style, items[0]) +
         if |items| == 1 then [] else "," + PrintItems(style, items[1..])
  }

  function PrintFields(style: Style, fields: Fields): string {
    if fields == [] then []
    else
      PrintString(style, fields[0].key) + ":" + Print(style, fields[0].value) +
      if |fields| == 1 then [] else "," + PrintFields(style, fields[1..])
  }

  // ---------------------------------------------------------------- reading

  predicate IsSpace(c: char) { c in [' ', '\n', '\t', '\r'] }

  function SkipSpace(s: string): (r: string)
    ensures |r| <= |s|
  {
    if s != [] && IsSpace(s[0]) then SkipSpace(s[1..]) else s
  }

  function DigitRun(s: string): (n: nat)
    ensures n <= |s|
  {
    if s == [] || !IsDigit(s[0]) then 0 else 1 + DigitRun(s[1..])
  }

  /** Length of the integer part: `0`, or digits without a leading zero. */
  function IntegerLength(s: string): (r: Option<nat>)
    ensures r.Some? ==> 0 < r.value <= |s|
  {
    if s == [] || !IsDigit(s[0]) then None
    else if s[0] != '0' then Some(DigitRun(s))
    else if |s| > 1 && IsDigit(s[1]) then None
    else Some(1)
  }

  /** Length of an optional fraction. */
  function FractionLength(s: string): (r: Option<nat>)
    ensures r.Some? ==> r.value <= |s|
  {
    if s == [] || s[0] != '.' then Some(0)
    else if DigitRun(s[1..]) == 0 then None
    else Some(1 + DigitRun(s[1..]))
  }

  /** Length of an optional exponent. */
  function ExponentLength(s: string): (r: Option<nat>)
    ensures r.Some? ==> r.value <= |s|
  {
    if s == [] || (s[0] != 'e' && s[0] != 'E') then Some(0)
    else
      var sign := if |s| > 1 && (s[1] == '+' || s[1] == '-') then 1 else 0;
      if DigitRun(s[1 + sign..]) == 0 then None
      else Some(1 + sign + DigitRun(s[1 + sign..]))
  }

  function FractionExponentLength(s: string): (r: Option<nat>)
    ensures r.Some? ==> r.value <= |s|
  {
    match FractionLength(s)
    case None => None
    case Some(f) => Plus(f, ExponentLength(s[f..]))
  }

  function UnsignedLength(s: string): (r: Option<nat>)
    ensures r.Some? ==> 0 < r.value <= |s|
  {
    match IntegerLength(s)
    case None => None
    case Some(i) => Plus(i, FractionExponentLength(s[i..]))
  }

  function NumberLength(s: string): (r: Option<nat>)
    ensures r.Some? ==> 0 < r.value <= |s|
  {
    if s != [] && s[0] == '-' then Plus(1, UnsignedLength(s[1..])) else UnsignedLength(s)
  }

  function Plus(n: nat, m: Option<nat>): Option<nat> {
    match m
    case None => None
    case Some(k) => Some(n + k)
  }

  function HexValue(c: char): (r: Option<nat>)
    ensures r.Some? ==> r.value < 16
  {
    if '0' <= c <= '9' then Some(c as int - 0x30)
    else if 'a' <= c <= 'f' then Some(c as int - 0x61 + 10)
    else if 'A' <= c <= 'F' then Some(c as int - 0x41 + 10)
    else None
  }

  function HexFour(s: string): (r: Option<nat>)
    ensures r.Some? ==> |s| >= 4 && r.value < 0x10000
  {
    if |s| < 4 then None
    else
      match (HexValue(s[0]), HexValue(s[1]), HexValue(s[2]), HexValue(s[3]))
      case (Some(a), Some(b), Some(c), Some(d)) => Some(a * 4096 + b * 256 + c * 16 + d)
      case _ => None
  }

  /** The character named by a `\u` escape (its four digits start `s`), with a
      surrogate pair read as one character, and how much text it takes. */
  function ReadUnicode(s: string): (r: Option<(char, nat)>)
    ensures r.Some? ==> 0 < r.value.1 <= |s|
  {
    match HexFour(s)
    case None => None
    case Some(n) =>
      if n < 0xD800 || 0xE000 <= n then Some((n as char, 4))
      else if 0xDC00 <= n || |s| < 6 || s[4] != '\\' || s[5] != 'u' then None
      else
        match HexFour(s[6..])
        case None => None
        case Some(low) =>
          if 0xDC00 <= low < 0xE000
          then Some(((0x10000 + (n - 0xD800) * 0x400 + (low - 0xDC00)) as char, 10))
          else None
  }

  function SimpleEscape(c: char): Option<char> {
    if c in ['\"', '\\', '/'] then Some(c)
    else if c == 'b' then Some(0x08 as char)
    else if c == 't' then Some('\t')
    else if c == 'n' then Some('\n')
    else if c == 'f' then Some(0x0C as char)
    else if c == 'r' then Some('\r')
    else None
  }

  /** The rest of a string literal after its opening quote. */
  function ReadChars(s: string): (r: Option<(string, string)>)
    ensures r.Some? ==> |r.value.1| < |s|
  {
    if s == [] || s[0] as int < 0x20 then None
    else if s[0] == '\"' then Some(("", s[1..]))
    else if s[0] != '\\' then Prepend(s[0], ReadChars(s[1..]))
    else if |s| < 2 then None
    else if s[1] == 'u' then
      match ReadUnicode(s[2..])
      case None => None
      case Some((c, n)) => Prepend(c, ReadChars(s[2 + n..]))
    else
      match SimpleEscape(s[1])
      case None => None
      case Some(c) => Prepend(c, ReadChars(s[2..]))
  }

  function Prepend(c: char, r: Option<(string, string)>): Option<(string, string)> {
    match r
    case None => None
    case Some((s, rest)) => Some(([c] + s, rest))
  }

  /** Reads one value; `depth` containers may still be opened. */
  function ReadValue(text: string, depth: nat): (r: Option<(Json, string)>)
    ensures r.Some? ==> |r.value.1| < |text|
    decreases |text|, 1
  {
    var s := SkipSpace(text);
    if s == [] then None
    else if s[0] == '\"' then ReadString(s[1..])
    else if s[0] == '[' then ReadArray(s[1..], depth)
    else if s[0] == '{' then ReadObject(s[1..], depth)
    else ReadAtom(s)
  }

  function ReadAtom(s: string): (r: Option<(Json, string)>)
    ensures r.Some? ==> |r.value.1| < |s|
  {
    if "null" <= s then Some((Null, s[4..]))
    else if "true" <= s then Some((Bool(true), s[4..]))
    else if "false" <= s then Some((Bool(false), s[5..]))
    else
      match NumberLength(s)
      case None => None
      case Some(n) => Some((Number(s[..n]), s[n..]))
  }

  function ReadString(s: string): (r: Option<(Json, string)>)
    ensures r.Some? ==> |r.value.1| < |s|
  {
    match ReadChars(s)
    case None => None
    case Some((str, rest)) => Some((String(str), rest))
  }

  function ReadArray(text: string, depth: nat): (r: Option<(Json, string)>)
    ensures r.Some? ==> |r.value.1| < |text|
    decreases |text|, 3
  {
    if depth == 0 then None
    else
      var t := SkipSpace(text);
      if t != [] && t[0] == ']' then Some((Array([]), t[1..]))
      else
        match ReadItems(t, depth - 1)
        case None => None
        case Some((items, rest)) => Some((Array(items), rest))
  }

  function ReadObject(text: string, depth: nat): (r: Option<(Json, string)>)
    ensures r.Some? ==> |r.value.1| < |text|
    decreases |text|, 3
  {
    if depth == 0 then None
    else
      var t := SkipSpace(text);
      if t != [] && t[0] == '}' then Some((Object([]), t[1..]))
      else
        match ReadFields(t, depth - 1, [])
        case None => None
        case Some((fields, rest)) => Some((Object(fields), rest))
  }

  function ReadItems(text: string, depth: nat): (r: Option<(seq<Json>, string)>)
    ensures r.Some? ==> |r.value.1| < |text|
    decreases |text|, 2
  {
    match ReadValue(text, depth)
    case None => None
    case Some((v, rest)) => AfterItem(v, SkipSpace(rest), depth)
  }

  function AfterItem(v: Json, s: string, depth: nat): (r: Option<(seq<Json>, string)>)
    ensures r.Some? ==> |r.value.1| < |s|
    decreases |s|, 0
  {
    if s == [] then None
    else if s[0] == ']' then Some(([v], s[1..]))
    else if s[0] != ',' then None
    else
      match ReadItems(s[1..], depth)
      case None => None
      case Some((items, end)) => Some(([v] + items, end))
  }

  function ReadFields(text: string, depth: nat, read: Fields): (r: Option<(Fields, string)>)
    ensures r.Some? ==> |r.value.1| < |text|
    decreases |text|, 2
  {
    var s := SkipSpace(text);
    if s == [] || s[0] != '\"' then None
    else
      match ReadChars(s[1..])
      case None => None
      case Some((key, rest)) => ReadMember(key, SkipSpace(rest), depth, read)
  }

  function ReadMember(key: string, s: string, depth: nat, read: Fields): (r: Option<(Fields, string)>)
    ensures r.Some? ==> |r.value.1| < |s|
    decreases |s|, 0
  {
    if s == [] || s[0] != ':' then None
    else
      match ReadValue(s[1..], depth)
      case None => None
      case Some((v, rest)) => AfterMember(Insert(read, key, v), SkipSpace(rest), depth)
  }

  function AfterMember(read: Fields, s: string, depth: nat): (r: Option<(Fields, string)>)
    ensures r.Some? ==> |r.value.1| < |s|
    decreases |s|, 0
  {
    if s == [] then None
    else if s[0] == '}' then Some((read, s[1..]))
    else if s[0] != ',' then None
    else ReadFields(s[1..], depth, read)
  }

  /** A whole document: one value and nothing but space after it. */
  function Parse(text: string): Option<Json> {
    match ReadValue(text, MAX_DEPTH)
    case None => None
    case Some((v, rest)) => if SkipSpace(rest) == [] then Some(v) else None
  }
}
