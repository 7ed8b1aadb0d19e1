/** What the reader returns is well formed, so it can be written and read again. */
module JsonReading {
  import opened Wrappers
  import opened Text
  import opened Json
  import opened JsonRoundTrip

  // ---------------------------------------------------------------- numbers

  lemma {:induction false} DigitRunCut(s: string, n: nat)
    requires DigitRun(s) <= n <= |s|
    ensures DigitRun(s[..n]) == DigitRun(s)
  {
    if s != [] && IsDigit(s[0]) {
      assert s[..n][1..] == s[1..][..n - 1];
      DigitRunCut(s[1..], n - 1);
    }
  }

  lemma ExponentCut(s: string)
    requires ExponentLength(s).Some?
    ensures ExponentLength(s[..ExponentLength(s).value]) == ExponentLength(s)
  {
    var n := ExponentLength(s).value;
    if n > 0 {
      var m := if |s| > 1 && (s[1] == '+' || s[1] == '-') then 2 else 1;
      assert s[..n][m..] == s[m..][..n - m];
      DigitRunCut(s[m..], n - m);
    }
  }

  lemma FractionCut(s: string, n: nat)
    requires FractionLength(s).Some? && FractionLength(s).value <= n <= |s|
    requires FractionLength(s).value == 0 && n > 0 ==> s[0] != '.'
    ensures FractionLength(s[..n]) == FractionLength(s)
  {
    if n > 0 && s[0] == '.' {
      assert s[..n][1..] == s[1..][..n - 1];
      DigitRunCut(s[1..], n - 1);
    }
  }

  lemma FractionExponentCut(s: string)
    requires FractionExponentLength(s).Some?
    ensures FractionExponentLength(s[..FractionExponentLength(s).value]) == FractionExponentLength(s)
  {
    var n, f := FractionExponentLength(s).value, FractionLength(s).value;
    FractionCut(s, n);
    ExponentCut(s[f..]);
    assert s[..n][f..] == s[f..][..n - f];
  }

  lemma UnsignedCut(s: string)
    requires UnsignedLength(s).Some?
    ensures UnsignedLength(s[..UnsignedLength(s).value]) == UnsignedLength(s)
  {
    var n, i := UnsignedLength(s).value, IntegerLength(s).value;
    if s[0] != '0' { DigitRunCut(s, n); }
    FractionExponentCut(s[i..]);
    assert s[..n][i..] == s[i..][..n - i];
  }

  /** The lexeme of a number is a number on its own. */
  lemma NumberCut(s: string)
    requires NumberLength(s).Some?
    ensures NumberLength(s[..NumberLength(s).value]) == NumberLength(s)
  {
    var n := NumberLength(s).value;
    if s[0] == '-' {
      UnsignedCut(s[1..]);
      assert s[..n][1..] == s[1..][..n - 1];
    } else {
      UnsignedCut(s);
    }
  }

  // ---------------------------------------------------------------- objects

  ghost predicate Proper(fields: Fields, depth: nat) {
    Sorted(fields) && forall i | 0 <= i < |fields| :: WellFormed(fields[i].value) && Depth(fields[i].value) <= depth
  }

  ghost predicate HasKey(fields: Fields, key: string) {
    exists i :: 0 <= i < |fields| && fields[i].key == key
  }

  lemma {:induction false} InsertKeys(fields: Fields, key: string, v: Json, other: string)
    requires HasKey(Insert(fields, key, v), other)
    ensures other == key || HasKey(fields, other)
  {
    hide Less;
    var all := Insert(fields, key, v);
    var i :| 0 <= i < |all| && all[i].key == other;
    if fields != [] && other != key {
      if fields[0].key == other {
      } else if fields[0].key == key {
        assert fields[i].key == other;
      } else if Less(key, fields[0].key) {
        assert fields[i - 1].key == other;
      } else {
        assert Insert(fields[1..], key, v)[i - 1].key == other;
        InsertKeys(fields[1..], key, v, other);
        var j :| 0 <= j < |fields[1..]| && fields[1..][j].key == other;
        assert fields[j + 1].key == other;
      }
    }
  }

  lemma SortedFrom(first: Field, rest: Fields)
    requires Sorted(rest) && forall i | 0 <= i < |rest| :: Less(first.key, rest[i].key)
    ensures Sorted([first] + rest)
  {
  }

  lemma {:induction false} InsertSorted(fields: Fields, key: string, v: Json)
    requires Sorted(fields)
    ensures Sorted(Insert(fields, key, v))
  {
    if fields != [] {
      hide Less;
      if fields[0].key == key {
      } else if Less(key, fields[0].key) {
        forall j | 0 < j < |fields| ensures Less(key, fields[j].key) { LessTransitive(key, fields[0].key, fields[j].key); }
        SortedFrom(Field(key, v), fields);
      } else {
        LessTotal(key, fields[0].key);
        var rest := Insert(fields[1..], key, v);
        InsertSorted(fields[1..], key, v);
        forall i | 0 <= i < |rest| ensures Less(fields[0].key, rest[i].key) {
          InsertKeys(fields[1..], key, v, rest[i].key);
          if rest[i].key != key {
            var j :| 0 <= j < |fields[1..]| && fields[1..][j].key == rest[i].key;
            assert fields[j + 1] == fields[1..][j];
          }
        }
        SortedFrom(fields[0], rest);
      }
    }
  }

  lemma {:induction false} InsertProper(fields: Fields, key: string, v: Json, depth: nat)
    requires Proper(fields, depth) && WellFormed(v) && Depth(v) <= depth
    ensures Proper(Insert(fields, key, v), depth)
  {
    hide WellFormed, Depth, Less;
    InsertSorted(fields, key, v);
    InsertValues(fields, key, v, depth);
  }

  lemma {:induction false} InsertValues(fields: Fields, key: string, v: Json, depth: nat)
    requires WellFormed(v) && Depth(v) <= depth
    requires forall i | 0 <= i < |fields| :: WellFormed(fields[i].value) && Depth(fields[i].value) <= depth
    ensures forall i | 0 <= i < |Insert(fields, key, v)| ::
              WellFormed(Insert(fields, key, v)[i].value) && Depth(Insert(fields, key, v)[i].value) <= depth
  {
    hide WellFormed, Depth, Less;
    if fields != [] && fields[0].key != key && !Less(key, fields[0].key) {
      InsertValues(fields[1..], key, v, depth);
    }
  }

  lemma {:induction false} ProperDepth(fields: Fields, depth: nat)
    requires forall i | 0 <= i < |fields| :: Depth(fields[i].value) <= depth
    ensures FieldsDepth(fields) <= depth
  {
    hide Depth;
    if fields != [] { ProperDepth(fields[1..], depth); }
  }

  // ---------------------------------------------------------------- reading

  lemma AtomProper(s: string)
    requires ReadAtom(s).Some?
    ensures WellFormed(ReadAtom(s).value.0) && Depth(ReadAtom(s).value.0) == 0
  {
    if NumberLength(s).Some? { NumberCut(s); }
  }

  lemma {:induction false} ReadProper(text: string, depth: nat)
    requires ReadValue(text, depth).Some?
    ensures WellFormed(ReadValue(text, depth).value.0) && Depth(ReadValue(text, depth).value.0) <= depth
    decreases |text|, 1
  {
    hide WellFormed, Depth, ReadArray, ReadObject, ReadAtom, ReadChars;
    var s := SkipSpace(text);
    if s[0] == '\"' {
      TextProper(ReadValue(text, depth).value.0);
    } else if s[0] == '[' {
      ArrayProper(s[1..], depth);
    } else if s[0] == '{' {
      ObjectProper(s[1..], depth);
    } else {
      AtomProper(s);
    }
  }

  lemma TextProper(v: Json)
    ensures v.String? ==> WellFormed(v) && Depth(v) == 0
  {
  }

  lemma {:induction false} ArrayProper(text: string, depth: nat)
    requires ReadArray(text, depth).Some?
    ensures WellFormed(ReadArray(text, depth).value.0) && Depth(ReadArray(text, depth).value.0) <= depth
    decreases |text|, 3
  {
    hide ReadItems;
    var t := SkipSpace(text);
    if !(t != [] && t[0] == ']') {
      ItemsProper(t, depth - 1);
    }
  }

  lemma {:induction false} ItemsProper(text: string, depth: nat)
    requires ReadItems(text, depth).Some?
    ensures var items := ReadItems(text, depth).value.0;
            ItemsDepth(items) <= depth && forall i | 0 <= i < |items| :: WellFormed(items[i])
    decreases |text|, 2
  {
    hide WellFormed, Depth, ReadValue;
    ReadProper(text, depth);
    var (v, rest) := ReadValue(text, depth).value;
    var s := SkipSpace(rest);
    if s[0] == ',' {
      ItemsProper(s[1..], depth);
      var items := ReadItems(s[1..], depth).value.0;
      assert ([v] + items)[1..] == items;
    } else {
      assert [v][1..] == [];
    }
  }

  lemma {:induction false} ObjectProper(text: string, depth: nat)
    requires ReadObject(text, depth).Some?
    ensures WellFormed(ReadObject(text, depth).value.0) && Depth(ReadObject(text, depth).value.0) <= depth
    decreases |text|, 3
  {
    hide ReadFields;
    var t := SkipSpace(text);
    if !(t != [] && t[0] == '}') {
      FieldsProper(t, depth - 1, []);
      ProperDepth(ReadFields(t, depth - 1, []).value.0, depth - 1);
    }
  }

  lemma {:induction false} FieldsProper(text: string, depth: nat, read: Fields)
    requires ReadFields(text, depth, read).Some? && Proper(read, depth)
    ensures Proper(ReadFields(text, depth, read).value.0, depth)
    decreases |text|, 2
  {
    hide WellFormed, Depth, Proper, ReadValue, ReadChars;
    var s := SkipSpace(text);
    var (key, rest) := ReadChars(s[1..]).value;
    var m := SkipSpace(rest);
    ReadProper(m[1..], depth);
    var (v, after) := ReadValue(m[1..], depth).value;
    InsertProper(read, key, v, depth);
    AfterMemberProper(Insert(read, key, v), SkipSpace(after), depth);
  }

  lemma {:induction false} AfterMemberProper(read: Fields, s: string, depth: nat)
    requires AfterMember(read, s, depth).Some? && Proper(read, depth)
    ensures Proper(AfterMember(read, s, depth).value.0, depth)
    decreases |s|, 0
  {
    hide Proper, ReadFields;
    if s[0] == ',' { FieldsProper(s[1..], depth, read); }
  }

  /** Whatever is read is well formed and within the nesting limit. */
  lemma ParsedIsWellFormed(text: string)
    requires Parse(text).Some?
    ensures WellFormed(Parse(text).value) && Depth(Parse(text).value) <= MAX_DEPTH
  {
    ReadProper(text, MAX_DEPTH);
  }

  /** So writing what was read and reading it again changes nothing. */
  lemma ReadingIsStable(style: Style, text: string)
    requires Parse(text).Some?
    ensures Parse(Print(style, Parse(text).value)) == Parse(text)
  {
    ParsedIsWellFormed(text);
    ParsePrint(style, Parse(text).value);
  }
}
