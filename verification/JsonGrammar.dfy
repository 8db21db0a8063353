/**
 A reference reading of JSON text: the grammar of RFC 8259 without white space, with
 the strings of its section 7. What the printer emits is the text of the same value,
 with the keys of every object ascending.
 */
module JsonGrammar {
  import opened Wrappers
  import opened Sorting
  import opened Text
  import opened Json
  import J = JsonReadable

  // ----- strings -----

  /** The value of a hexadecimal digit of either case. */
  function HexValue(c: CodeUnit): Option<nat> {
    if '0' as int <= c <= '9' as int then Some(c - '0' as int)
    else if 'a' as int <= c <= 'f' as int then Some(c - 'a' as int + 10)
    else if 'A' as int <= c <= 'F' as int then Some(c - 'A' as int + 10)
    else None
  }

  /** What the character after a backslash stands for, except for an escape by number. */
  function Escaped(c: CodeUnit): Option<CodeUnit> {
    if c == '\"' as int || c == '\\' as int || c == '/' as int then Some(c)
    else if c == 'b' as int then Some(8)
    else if c == 'f' as int then Some(12)
    else if c == 'n' as int then Some('\n' as int)
    else if c == 'r' as int then Some('\r' as int)
    else if c == 't' as int then Some('\t' as int)
    else None
  }

  /** The four digits after a backslash and a small u. */
  function FourDigits(s: Text): Option<CodeUnit>
    requires |s| == 4
  {
    var a, b, c, d := HexValue(s[0]), HexValue(s[1]), HexValue(s[2]), HexValue(s[3]);
    if a.None? || b.None? || c.None? || d.None? || a.value > 15 || b.value > 15 || c.value > 15 || d.value > 15 then None
    else Some(((a.value * 16 + b.value) * 16 + c.value) * 16 + d.value)
  }

  /** What stands between the quotes of a string; none if it is not the inside of one. */
  function Decode(s: Text): Option<Text> {
    if s == [] then Some([])
    else if s[0] == '\"' as int || s[0] < 0x20 then None
    else if s[0] != '\\' as int then Prefixed(Some(s[0]), Decode(s[1..]))
    else if |s| > 5 && s[1] == 'u' as int then Prefixed(FourDigits(s[2..6]), Decode(s[6..]))
    else if |s| > 1 then Prefixed(Escaped(s[1]), Decode(s[2..]))
    else None
  }

  function Prefixed(c: Option<CodeUnit>, rest: Option<Text>): Option<Text> {
    if c.None? || rest.None? then None else Some([c.value] + rest.value)
  }

  // ----- values -----

  /** The text of several parts with commas between them. */
  function Commas(parts: seq<Text>): Text {
    if parts == [] then [] else parts[0] + AfterCommas(parts[1..])
  }

  function AfterCommas(parts: seq<Text>): Text {
    if parts == [] then [] else [',' as int] + parts[0] + AfterCommas(parts[1..])
  }

  ghost predicate DenotesString(t: Text, s: Text) {
    exists body: Text :: t == ['\"' as int] + body + ['\"' as int] && Decode(body) == Some(s)
  }

  ghost predicate DenotesField(t: Text, key: Text, value: Json)
    decreases value, 1
  {
    exists k: Text, w: Text :: t == k + [':' as int] + w && DenotesString(k, key) && Denotes(w, value)
  }

  /** The text denotes the value. */
  ghost predicate Denotes(t: Text, v: Json)
    decreases v, 0
  {
    match v
    case Null => t == ['n' as int, 'u' as int, 'l' as int, 'l' as int]
    case Bool(true) => t == ['t' as int, 'r' as int, 'u' as int, 'e' as int]
    case Bool(false) => t == ['f' as int, 'a' as int, 'l' as int, 's' as int, 'e' as int]
    case Number(numeral) => t == numeral
    case String(text) => DenotesString(t, text)
    case Array(items) =>
      exists parts: seq<Text> ::
        && |parts| == |items| && t == ['[' as int] + Commas(parts) + [']' as int]
        && forall i :: 0 <= i < |items| ==> Denotes(parts[i], items[i])
    case Object(entries) =>
      exists parts: seq<Text> ::
        && |parts| == |entries| && t == ['{' as int] + Commas(parts) + ['}' as int]
        && forall i :: 0 <= i < |entries| ==> DenotesField(parts[i], entries[i].key, entries[i].value)
  }

  // ----- strings are read back -----

  lemma HexDigitRead(d: nat)
    requires d < 16
    ensures HexValue(HexDigit(d)) == Some(d)
  {
  }

  lemma NumberedRead(c: CodeUnit, rest: Text)
    ensures Decode(Numbered(c) + rest) == Prefixed(Some(c), Decode(rest))
  {
    var s := Numbered(c) + rest;
    assert s[2..6] == [HexDigit(c / 4096), HexDigit(c / 256 % 16), HexDigit(c / 16 % 16), HexDigit(c % 16)];
    assert s[6..] == rest;
    HexDigitRead(c / 4096);
    HexDigitRead(c / 256 % 16);
    HexDigitRead(c / 16 % 16);
    HexDigitRead(c % 16);
    J.FromHexDigits(c);
    hide HexDigit, HexValue, Decode;
    FourRead(s[2..6], c / 4096, c / 256 % 16, c / 16 % 16, c % 16);
    assert FourDigits(s[2..6]) == Some(c);
    DecodeNumbered(s);
  }

  lemma FourRead(s: Text, a: nat, b: nat, c: nat, d: nat)
    requires |s| == 4 && a < 16 && b < 16 && c < 16 && d < 16
    requires HexValue(s[0]) == Some(a) && HexValue(s[1]) == Some(b) && HexValue(s[2]) == Some(c)
    requires HexValue(s[3]) == Some(d)
    ensures FourDigits(s) == Some(a * 4096 + b * 256 + c * 16 + d)
  {
  }

  lemma DecodeNumbered(s: Text)
    requires |s| > 5 && s[0] == BACKSLASH && s[1] == 0x75
    ensures Decode(s) == Prefixed(FourDigits(s[2..6]), Decode(s[6..]))
  {
  }

  lemma LetterRead(c: CodeUnit, rest: Text)
    requires Letter(c) != 0
    ensures Decode([BACKSLASH, Letter(c)] + rest) == Prefixed(Some(c), Decode(rest))
  {
    var s := [BACKSLASH, Letter(c)] + rest;
    assert s[2..] == rest;
    LetterMeans(c);
    hide Letter, Escaped;
    assert s[1] != 'u' as int && Decode(s) == Prefixed(Escaped(s[1]), Decode(s[2..]));
  }

  lemma LetterMeans(c: CodeUnit)
    requires Letter(c) != 0
    ensures Escaped(Letter(c)) == Some(c) && Letter(c) != 'u' as int
  {
  }

  lemma PlainRead(c: CodeUnit, rest: Text)
    requires c >= 0x20 && c != QUOTE && c != BACKSLASH
    ensures Decode([c] + rest) == Prefixed(Some(c), Decode(rest))
  {
    var s := [c] + rest;
    assert s[1..] == rest;
  }

  /** Between quotes, an escaped string reads as the string. */
  lemma {:induction false} EscapeRead(s: Text)
    ensures Decode(Escape(s)) == Some(s)
    decreases |s|
  {
    if s != [] {
      var rest := Escape(s[Width(s)..]);
      EscapeRead(s[Width(s)..]);
      hide Decode, Numbered;
      if Width(s) == 2 {
        assert Token(s) + rest == [s[0]] + ([s[1]] + rest);
        PlainRead(s[1], rest);
        PlainRead(s[0], [s[1]] + rest);
        assert s == [s[0]] + ([s[1]] + s[2..]);
      } else {
        if Letter(s[0]) != 0 {
          LetterRead(s[0], rest);
        } else if s[0] < 0x20 || IsHigh(s[0]) || IsLow(s[0]) {
          NumberedRead(s[0], rest);
        } else {
          PlainRead(s[0], rest);
        }
        assert s == [s[0]] + s[1..];
      }
    }
  }

  /** The escapes are those that JSON.stringify uses (section 25.5.2 of ECMA-262), and nothing else is escaped. */
  lemma EscapeTable(c: CodeUnit)
    ensures c == 0x08 ==> Escape([c]) == ['\\' as int, 'b' as int]
    ensures c == 0x09 ==> Escape([c]) == ['\\' as int, 't' as int]
    ensures c == 0x0a ==> Escape([c]) == ['\\' as int, 'n' as int]
    ensures c == 0x0c ==> Escape([c]) == ['\\' as int, 'f' as int]
    ensures c == 0x0d ==> Escape([c]) == ['\\' as int, 'r' as int]
    ensures c == '\"' as int ==> Escape([c]) == ['\\' as int, '\"' as int]
    ensures c == '\\' as int ==> Escape([c]) == ['\\' as int, '\\' as int]
    ensures c < 0x20 && c !in {0x08, 0x09, 0x0a, 0x0c, 0x0d} ==> |Escape([c])| == 6
    ensures 0xd800 <= c < 0xe000 ==> |Escape([c])| == 6
    ensures (0x20 <= c < 0xd800 || 0xe000 <= c) && c != '\"' as int && c != '\\' as int ==> Escape([c]) == [c]
  {
    assert Escape([c]) == Token([c]);
  }

  /** Every high surrogate is followed by a low one, and every low one follows a high one. */
  predicate Paired(s: Text) {
    && (forall i :: 0 <= i < |s| && 0xd800 <= s[i] < 0xdc00 ==> i + 1 < |s| && 0xdc00 <= s[i + 1] < 0xe000)
    && (forall i :: 0 <= i < |s| && 0xdc00 <= s[i] < 0xe000 ==> i > 0 && 0xd800 <= s[i - 1] < 0xdc00)
  }

  lemma PairedTogether(s: Text, t: Text)
    requires Paired(s) && Paired(t)
    ensures Paired(s + t)
  {
    var st := s + t;
    forall i | 0 <= i < |st| && 0xd800 <= st[i] < 0xdc00 ensures i + 1 < |st| && 0xdc00 <= st[i + 1] < 0xe000 {
      if i >= |s| {
        assert st[i] == t[i - |s|];
      }
    }
    forall i | 0 <= i < |st| && 0xdc00 <= st[i] < 0xe000 ensures i > 0 && 0xd800 <= st[i - 1] < 0xdc00 {
      if i >= |s| {
        assert st[i] == t[i - |s|];
      }
    }
  }

  lemma TokenPaired(s: Text)
    requires s != []
    ensures Paired(Token(s))
  {
    if Width(s) == 1 && Letter(s[0]) == 0 && (s[0] < 0x20 || IsHigh(s[0]) || IsLow(s[0])) {
      NumberedPaired(s[0]);
    }
  }

  lemma NumberedPaired(c: CodeUnit)
    ensures Paired(Numbered(c))
  {
    assert forall d: nat :: d < 16 ==> HexDigit(d) < 0xd800;
  }

  /** An escaped string has no surrogate outside of a pair, whatever the string has. */
  lemma {:induction false} EscapePaired(s: Text)
    ensures Paired(Escape(s))
    decreases |s|
  {
    if s != [] {
      TokenPaired(s);
      EscapePaired(s[Width(s)..]);
      hide Token, Width, Paired;
      PairedTogether(Token(s), Escape(s[Width(s)..]));
    }
  }

  /** Without a lone surrogate, a string is escaped one character at a time. */
  lemma EscapeSplits(c: CodeUnit, rest: Text)
    requires !(0xd800 <= c < 0xdc00)
    ensures Escape([c] + rest) == Escape([c]) + Escape(rest)
  {
    assert ([c] + rest)[1..] == rest;
    assert Escape([c]) == Token([c]);
  }

  /** A surrogate pair stays as it is. */
  lemma EscapeKeepsPairs(h: CodeUnit, l: CodeUnit, rest: Text)
    requires 0xd800 <= h < 0xdc00 && 0xdc00 <= l < 0xe000
    ensures Escape([h, l] + rest) == [h, l] + Escape(rest)
  {
    var s := [h, l] + rest;
    assert s[..2] == [h, l] && s[2..] == rest;
  }

  lemma QuoteDenotes(s: Text)
    ensures DenotesString(Quote(s), s)
  {
    EscapeRead(s);
    assert Quote(s) == ['\"' as int] + Escape(s) + ['\"' as int];
  }

  // ----- what the printer emits -----

  /** The value with the keys of every object in their sorted order. */
  ghost function Arranged(v: Json): Json
    requires WellFormed(v)
  {
    match v
    case Array(items) => Array(seq(|items|, i requires 0 <= i < |items| => Arranged(items[i])))
    case Object(entries) =>
      var keys := SortedKeys(entries);
      Object(seq(|keys|, i requires 0 <= i < |keys| =>
        J.FieldAtSmaller(v, i);
        Entry(keys[i], Arranged(J.FieldAt(v, i)))))
    case _ => v
  }

  lemma {:induction false} ArrangedSame(v: Json)
    requires WellFormed(v)
    ensures Same(v, Arranged(v)) && WellFormed(Arranged(v)) && KeysAscend(Arranged(v))
  {
    hide SortedKeys;
    if v.Array? {
      forall i | 0 <= i < |v.items| ensures Same(v.items[i], Arranged(v).items[i]) {
        ArrangedSame(v.items[i]);
      }
      forall i | 0 <= i < |v.items| ensures WellFormed(Arranged(v).items[i]) && KeysAscend(Arranged(v).items[i]) {
        ArrangedSame(v.items[i]);
      }
    } else if v.Object? {
      ArrangedFields(v);
    }
  }

  lemma {:induction false} ArrangedFields(v: Json)
    requires v.Object? && WellFormed(v)
    ensures Same(v, Arranged(v)) && WellFormed(Arranged(v)) && KeysAscend(Arranged(v))
    decreases v, 0
  {
    var keys, entries := SortedKeys(v.entries), Arranged(v).entries;
    KeysSorted(v.entries);
    assert KeysOf(entries) == keys;
    hide SortedKeys;
    forall i | 0 <= i < |entries|
      ensures entries[i].value == Arranged(J.FieldAt(v, i)) && J.FieldAt(v, i) < v
      ensures WellFormed(J.FieldAt(v, i)) && Same(J.FieldAt(v, i), entries[i].value)
      ensures WellFormed(entries[i].value) && KeysAscend(entries[i].value)
    {
      J.FieldAtSmaller(v, i);
      ArrangedSame(J.FieldAt(v, i));
    }
    hide Same, J.FieldAt, WellFormed;
    FieldsSame(v, Arranged(v));
  }

  /** An object whose fields are those of another one in sorted order is the same. */
  lemma FieldsSame(v: Json, w: Json)
    requires v.Object? && w.Object? && DistinctKeys(v.entries)
    requires KeysOf(w.entries) == SortedKeys(v.entries)
    requires forall k :: k in KeysOf(v.entries) <==> k in SortedKeys(v.entries)
    requires forall i :: 0 <= i < |w.entries| ==> Same(J.FieldAt(v, i), w.entries[i].value)
    ensures Same(v, w)
  {
    hide SortedKeys, J.FieldAt;
    forall i, j | 0 <= i < |v.entries| && 0 <= j < |w.entries| && v.entries[i].key == w.entries[j].key
      ensures Same(v.entries[i].value, w.entries[j].value)
    {
      var m := J.KeyPosition(v.entries, i);
      J.FieldAtPosition(v, j, i);
    }
  }

  lemma KeysSorted(entries: seq<Entry>)
    requires DistinctKeys(entries)
    ensures var keys := SortedKeys(entries);
            && |keys| == |entries| && Ascending(keys) && HasNoDuplicate(keys)
            && forall k :: k in KeysOf(entries) <==> k in keys
  {
    var keys, given := SortedKeys(entries), KeysOf(entries);
    SortAscends(given);
    assert |multiset(keys)| == |multiset(given)|;
    DistinctByCount(given);
    DistinctByCount(keys);
    forall k ensures k in given <==> k in keys {
      assert k in given <==> k in multiset(given);
      assert k in keys <==> k in multiset(keys);
    }
  }

  lemma {:induction false} ItemsWithCommas(v: Json, i: nat, parts: seq<Text>)
    requires v.Array? && i <= |v.items| && |parts| == |v.items|
    requires forall k :: 0 <= k < |parts| ==> parts[k] == Print(v.items[k])
    ensures PrintItems(v, i) == if i == 0 then Commas(parts) else AfterCommas(parts[i..])
    decreases |v.items| - i
  {
    hide Print, PrintItems;
    if i == |v.items| {
      NoItems(v);
    } else {
      ItemsStep(v, i);
      ItemsWithCommas(v, i + 1, parts);
      hide AfterCommas, Commas, Separator;
      NextPart(parts, i, PrintItems(v, i), PrintItems(v, i + 1));
    }
  }

  lemma {:induction false} FieldsWithCommas(v: Json, i: nat, parts: seq<Text>)
    requires v.Object? && i <= |SortedKeys(v.entries)| == |parts|
    requires forall k :: 0 <= k < |parts| ==>
      parts[k] == Quote(SortedKeys(v.entries)[k]) + [':' as int] + Print(J.FieldAt(v, k))
    ensures PrintFields(v, i) == if i == 0 then Commas(parts) else AfterCommas(parts[i..])
    decreases |parts| - i
  {
    hide Print, SortedKeys, Quote, IndexOf, PrintFields;
    if i == |parts| {
      NoFields(v);
    } else {
      FieldsStep(v, i);
      FieldsWithCommas(v, i + 1, parts);
      hide J.FieldAt, AfterCommas, Commas, Separator;
      NextPart(parts, i, PrintFields(v, i), PrintFields(v, i + 1));
    }
  }

  lemma CommasStep(parts: seq<Text>, i: nat)
    requires i < |parts|
    ensures if i == 0 then Commas(parts) == parts[0] + AfterCommas(parts[1..])
            else AfterCommas(parts[i..]) == [COMMA] + parts[i] + AfterCommas(parts[i + 1..])
  {
    assert parts[i..][1..] == parts[i + 1..];
  }

  /** A part with its separator in front goes before the parts that follow. */
  lemma NextPart(parts: seq<Text>, i: nat, whole: Text, rest: Text)
    requires i < |parts| && whole == Separator(i) + parts[i] + rest && rest == AfterCommas(parts[i + 1..])
    ensures whole == if i == 0 then Commas(parts) else AfterCommas(parts[i..])
  {
    CommasStep(parts, i);
    hide AfterCommas, Commas;
    if i == 0 {
      assert [] + parts[i] == parts[i];
    }
  }

  lemma NoFields(v: Json)
    requires v.Object?
    ensures PrintFields(v, |SortedKeys(v.entries)|) == []
  {
    hide SortedKeys;
  }

  lemma NoItems(v: Json)
    requires v.Array?
    ensures PrintItems(v, |v.items|) == []
  {
  }

  lemma ItemsStep(v: Json, i: nat)
    requires v.Array? && i < |v.items|
    ensures PrintItems(v, i) == Separator(i) + Print(v.items[i]) + PrintItems(v, i + 1)
  {
    hide Print, Separator;
  }

  lemma FieldsStep(v: Json, i: nat)
    requires v.Object? && i < |SortedKeys(v.entries)|
    ensures PrintFields(v, i)
         == Separator(i) + (Quote(SortedKeys(v.entries)[i]) + [':' as int] + Print(J.FieldAt(v, i))) + PrintFields(v, i + 1)
  {
    hide SortedKeys, Print, IndexOf, Quote, Separator;
  }

  lemma {:induction false} PrintDenotesArranged(v: Json)
    requires WellFormed(v)
    ensures Denotes(Print(v), Arranged(v))
  {
    match v {
      case Array(items) =>
        var parts := seq(|items|, i requires 0 <= i < |items| => Print(items[i]));
        ItemsWithCommas(v, 0, parts);
        forall i | 0 <= i < |items| ensures Denotes(parts[i], Arranged(v).items[i]) {
          PrintDenotesArranged(items[i]);
        }
      case Object(entries) =>
        FieldsDenote(v);
      case String(text) =>
        QuoteDenotes(text);
      case _ =>
    }
  }

  lemma {:induction false} FieldsDenote(v: Json)
    requires v.Object? && WellFormed(v)
    ensures Denotes(Print(v), Arranged(v))
    decreases v, 0
  {
    hide SortedKeys, Quote, DenotesString;
    var keys := SortedKeys(v.entries);
    var parts := seq(|keys|, i requires 0 <= i < |keys| => Quote(keys[i]) + [':' as int] + Print(J.FieldAt(v, i)));
    FieldsWithCommas(v, 0, parts);
    var entries := Arranged(v).entries;
    forall i | 0 <= i < |entries| ensures DenotesField(parts[i], entries[i].key, entries[i].value) {
      J.FieldAtSmaller(v, i);
      PrintDenotesArranged(J.FieldAt(v, i));
      QuoteDenotes(keys[i]);
    }
  }

  /** The printer emits a text of the value in which the keys of every object ascend. */
  lemma PrintDenotes(v: Json)
    requires WellFormed(v)
    ensures exists w :: Same(v, w) && WellFormed(w) && KeysAscend(w) && Denotes(Print(v), w)
  {
    ArrangedSame(v);
    PrintDenotesArranged(v);
  }
}
