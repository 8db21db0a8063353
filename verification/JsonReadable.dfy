/** The canonical text of a JSON value can be read in only one way. */
module JsonReadable {
  import opened Text
  import opened Sorting
  import opened Json

  // ----- strings -----

  lemma HexDigitInjective(a: nat, b: nat)
    requires a < 16 && b < 16 && HexDigit(a) == HexDigit(b)
    ensures a == b
  {
  }

  lemma NumberedInjective(c: CodeUnit, d: CodeUnit)
    requires Numbered(c) == Numbered(d)
    ensures c == d
  {
    var p, q := Numbered(c), Numbered(d);
    assert p[2] == q[2] && p[3] == q[3] && p[4] == q[4] && p[5] == q[5];
    HexDigitInjective(c / 4096, d / 4096);
    HexDigitInjective(c / 256 % 16, d / 256 % 16);
    HexDigitInjective(c / 16 % 16, d / 16 % 16);
    HexDigitInjective(c % 16, d % 16);
    FromHexDigits(c);
    FromHexDigits(d);
  }

  lemma Sixteenth(c: nat)
    ensures c == c / 16 * 16 + c % 16
  {
  }

  lemma Nested(c: nat)
    ensures c / 256 == c / 16 / 16 && c / 4096 == c / 256 / 16
  {
  }

  lemma FromHexDigits(c: CodeUnit)
    ensures c == c / 4096 * 4096 + c / 256 % 16 * 256 + c / 16 % 16 * 16 + c % 16
  {
    Nested(c);
    Sixteenth(c);
    Sixteenth(c / 16);
    Sixteenth(c / 256);
    var a, b, d := c / 16, c / 256, c / 4096;
    assert a == b * 16 + a % 16 && b == d * 16 + b % 16;
  }

  /** A token is a plain character, a surrogate pair, or an escape, and shows which at its start. */
  lemma TokenShape(s: Text)
    requires s != []
    ensures var t := Token(s);
            && |t| > 0 && t[0] != QUOTE
            && (t[0] != BACKSLASH ==> |t| == Width(s) && t == s[..Width(s)] && (Width(s) == 2 <==> IsHigh(t[0])))
            && (t[0] == BACKSLASH ==> Width(s) == 1 && |t| > 1 && (t[1] == 0x75 <==> Letter(s[0]) == 0))
            && (t[0] == BACKSLASH && t[1] != 0x75 ==> t == [BACKSLASH, Letter(s[0])])
            && (t[0] == BACKSLASH && t[1] == 0x75 ==> t == Numbered(s[0]))
  {
    hide Numbered;
    assert |Numbered(s[0])| == 6 && Numbered(s[0])[0] == BACKSLASH && Numbered(s[0])[1] == 0x75 by {
      NumberedStart(s[0]);
    }
  }

  lemma NumberedStart(c: CodeUnit)
    ensures |Numbered(c)| == 6 && Numbered(c)[0] == BACKSLASH && Numbered(c)[1] == 0x75
  {
  }

  /** Two texts that start with tokens agree on the tokens and on what these stand for. */
  lemma TokenReadable(s: Text, t: Text, x: Text, y: Text)
    requires s != [] && t != [] && Token(s) + x == Token(t) + y
    ensures Width(s) == Width(t) && s[..Width(s)] == t[..Width(t)] && x == y
  {
    TokenShape(s);
    TokenShape(t);
    var p, q := Token(s), Token(t);
    assert (p + x)[0] == p[0] && (q + y)[0] == q[0];
    assert p[0] == q[0];
    if p[0] != BACKSLASH {
      assert |p| == |q|;
      assert (p + x)[..|p|] == p && (q + y)[..|p|] == q;
      assert (p + x)[|p|..] == x && (q + y)[|p|..] == y;
    } else {
      assert (p + x)[1] == p[1] && (q + y)[1] == q[1];
      NumberedStart(s[0]);
      NumberedStart(t[0]);
      hide Numbered, Token;
      assert |p| == |q|;
      assert (p + x)[..|p|] == p && (q + y)[..|p|] == q;
      assert (p + x)[|p|..] == x && (q + y)[|p|..] == y;
      if p[1] == 0x75 {
        NumberedInjective(s[0], t[0]);
      } else {
        assert Letter(s[0]) == p[1] == q[1] == Letter(t[0]);
      }
      assert s[..1] == [s[0]] && t[..1] == [t[0]];
    }
  }

  lemma EscapeStart(s: Text, x: Text)
    ensures var p := Escape(s) + [QUOTE] + x; p[0] == QUOTE <==> s == []
  {
    hide Token, Width;
    if s != [] {
      TokenShape(s);
      assert (Escape(s) + [QUOTE] + x)[0] == Token(s)[0];
    }
  }

  /** An escaped string ends at its first bare quote. */
  lemma {:induction false} EscapeReadable(s: Text, t: Text, x: Text, y: Text)
    requires Escape(s) + [QUOTE] + x == Escape(t) + [QUOTE] + y
    ensures s == t && x == y
    decreases |s|
  {
    hide Token, Width;
    var p, q := Escape(s) + [QUOTE] + x, Escape(t) + [QUOTE] + y;
    EscapeStart(s, x);
    EscapeStart(t, y);
    if s == [] {
      assert p[1..] == x && q[1..] == y;
    } else {
      var s', t' := s[Width(s)..], t[Width(t)..];
      assert p == Token(s) + (Escape(s') + [QUOTE] + x);
      assert q == Token(t) + (Escape(t') + [QUOTE] + y);
      TokenReadable(s, t, Escape(s') + [QUOTE] + x, Escape(t') + [QUOTE] + y);
      EscapeReadable(s', t', x, y);
      assert s == s[..Width(s)] + s' && t == t[..Width(t)] + t';
    }
  }

  lemma QuoteReadable(s: Text, t: Text, x: Text, y: Text)
    requires Quote(s) + x == Quote(t) + y
    ensures s == t && x == y
  {
    assert (Quote(s) + x)[1..] == Escape(s) + [QUOTE] + x;
    assert (Quote(t) + y)[1..] == Escape(t) + [QUOTE] + y;
    EscapeReadable(s, t, x, y);
  }

  // ----- values -----

  /** What may follow a value: nothing, a comma, or the end of an array or object. */
  predicate Ends(x: Text) {
    x == [] || x[0] == COMMA || x[0] == CLOSE_ARRAY || x[0] == CLOSE_OBJECT
  }

  /** The kinds of value that the first character tells apart. */
  function Start(v: Json): set<CodeUnit> {
    match v
    case Null => {0x6e}
    case Bool(b) => if b then {0x74} else {0x66}
    case Number(_) => {MINUS, 0x30, 0x31, 0x32, 0x33, 0x34, 0x35, 0x36, 0x37, 0x38, 0x39}
    case String(_) => {QUOTE}
    case Array(_) => {OPEN_ARRAY}
    case Object(_) => {OPEN_OBJECT}
  }

  lemma PrintStart(v: Json)
    ensures Print(v) != [] && Print(v)[0] in Start(v)
  {
    hide PrintItems, PrintFields, Escape;
  }

  lemma SameKind(a: Json, b: Json, x: Text, y: Text)
    requires Print(a) + x == Print(b) + y
    ensures a.Null? <==> b.Null?
    ensures a.Bool? <==> b.Bool?
    ensures a.Number? <==> b.Number?
    ensures a.String? <==> b.String?
    ensures a.Array? <==> b.Array?
    ensures a.Object? <==> b.Object?
    ensures a.Bool? ==> a == b
  {
    PrintStart(a);
    PrintStart(b);
    hide Print;
    assert Print(a)[0] == (Print(a) + x)[0] == (Print(b) + y)[0] == Print(b)[0];
  }

  lemma NumeralReadable(a: Numeral, b: Numeral, x: Text, y: Text)
    requires a + x == b + y && Ends(x) && Ends(y)
    ensures a == b && x == y
  {
    assert forall i :: 0 <= i < |a| ==> IsNumeric((a + x)[i]);
    assert forall i :: 0 <= i < |b| ==> IsNumeric((b + y)[i]);
    assert x != [] ==> (a + x)[|a|] == x[0] && !IsNumeric(x[0]);
    assert y != [] ==> (b + y)[|b|] == y[0] && !IsNumeric(y[0]);
    assert |a| == |b|;
    assert (a + x)[..|a|] == a && (b + y)[..|a|] == b;
    assert (a + x)[|a|..] == x && (b + y)[|a|..] == y;
  }

  lemma SamePrefix(p: Text, x: Text, y: Text)
    requires p + x == p + y
    ensures x == y
  {
    assert (p + x)[|p|..] == x && (p + y)[|p|..] == y;
  }

  lemma ArraySplit(v: Json, x: Text)
    requires v.Array?
    ensures Print(v) + x == [OPEN_ARRAY] + (PrintItems(v, 0) + ([CLOSE_ARRAY] + x))
  {
    hide PrintItems;
  }

  lemma ObjectSplit(v: Json, x: Text)
    requires v.Object?
    ensures Print(v) + x == [OPEN_OBJECT] + (PrintFields(v, 0) + ([CLOSE_OBJECT] + x))
  {
    hide PrintFields;
  }

  lemma ScalarReadable(a: Json, b: Json, x: Text, y: Text)
    requires Print(a) + x == Print(b) + y && Ends(x) && Ends(y)
    requires !a.Array? && !a.Object?
    ensures a == b && x == y
  {
    SameKind(a, b, x, y);
    hide PrintItems, PrintFields, Quote, NULL, TRUE, FALSE, Ends;
    match a {
      case Number(numeral) => NumeralReadable(numeral, b.numeral, x, y);
      case String(text) => QuoteReadable(text, b.text, x, y);
      case _ => SamePrefix(Print(a), x, y);
    }
  }

  /** Texts that start with the canonical texts of two values start with the same value. */
  lemma {:induction false} Readable(a: Json, b: Json, x: Text, y: Text)
    requires Print(a) + x == Print(b) + y && Ends(x) && Ends(y)
    requires WellFormed(a) && WellFormed(b)
    ensures Same(a, b) && x == y
    decreases a, 1, 0
  {
    SameKind(a, b, x, y);
    if a.Array? {
      ArraySplit(a, x);
      ArraySplit(b, y);
      hide Print, PrintItems, Ends;
      SamePrefix([OPEN_ARRAY], PrintItems(a, 0) + ([CLOSE_ARRAY] + x), PrintItems(b, 0) + ([CLOSE_ARRAY] + y));
      ItemsReadable(a, b, 0, x, y);
    } else if a.Object? {
      ObjectSplit(a, x);
      ObjectSplit(b, y);
      hide Print, PrintFields, Ends, Same, SortedKeys;
      SamePrefix([OPEN_OBJECT], PrintFields(a, 0) + ([CLOSE_OBJECT] + x), PrintFields(b, 0) + ([CLOSE_OBJECT] + y));
      FieldsReadable(a, b, 0, x, y);
      FieldsMeanSame(a, b);
    } else {
      hide Print;
      ScalarReadable(a, b, x, y);
    }
  }

  /** What follows an item or a field ends it. */
  lemma ItemsEnd(v: Json, i: nat, x: Text)
    requires v.Array? && 0 < i <= |v.items|
    ensures Ends(PrintItems(v, i) + ([CLOSE_ARRAY] + x))
  {
    var t := PrintItems(v, i) + ([CLOSE_ARRAY] + x);
    if i == |v.items| {
      assert t[0] == CLOSE_ARRAY;
    } else {
      assert t[0] == COMMA;
    }
  }

  lemma ItemsStart(v: Json, i: nat, x: Text)
    requires v.Array? && i <= |v.items|
    ensures var t := PrintItems(v, i) + ([CLOSE_ARRAY] + x); t[0] == CLOSE_ARRAY <==> i == |v.items|
  {
    if i < |v.items| {
      PrintStart(v.items[i]);
    }
    hide Print;
  }

  lemma ItemsDone(v: Json, x: Text)
    requires v.Array?
    ensures PrintItems(v, |v.items|) + ([CLOSE_ARRAY] + x) == [CLOSE_ARRAY] + x
  {
  }

  lemma ItemsSplit(v: Json, i: nat, x: Text)
    requires v.Array? && i < |v.items|
    ensures PrintItems(v, i) + ([CLOSE_ARRAY] + x)
         == Separator(i) + (Print(v.items[i]) + (PrintItems(v, i + 1) + ([CLOSE_ARRAY] + x)))
  {
    hide Print, Separator;
  }

  lemma {:induction false} ItemsReadable(a: Json, b: Json, i: nat, x: Text, y: Text)
    requires a.Array? && b.Array? && i <= |a.items| && i <= |b.items| && WellFormed(a) && WellFormed(b)
    requires PrintItems(a, i) + ([CLOSE_ARRAY] + x) == PrintItems(b, i) + ([CLOSE_ARRAY] + y)
    ensures |a.items| == |b.items| && x == y
    ensures forall k :: i <= k < |a.items| ==> Same(a.items[k], b.items[k])
    decreases a, 0, |a.items| - i
  {
    hide Print, Same, Separator, PrintItems;
    var p, q := PrintItems(a, i) + ([CLOSE_ARRAY] + x), PrintItems(b, i) + ([CLOSE_ARRAY] + y);
    ItemsStart(a, i, x);
    ItemsStart(b, i, y);
    if i == |a.items| {
      ItemsDone(a, x);
      ItemsDone(b, y);
      SamePrefix([CLOSE_ARRAY], x, y);
    } else {
      var s, t := PrintItems(a, i + 1) + ([CLOSE_ARRAY] + x), PrintItems(b, i + 1) + ([CLOSE_ARRAY] + y);
      ItemsSplit(a, i, x);
      ItemsSplit(b, i, y);
      SamePrefix(Separator(i), Print(a.items[i]) + s, Print(b.items[i]) + t);
      ItemsEnd(a, i + 1, x);
      ItemsEnd(b, i + 1, y);
      Readable(a.items[i], b.items[i], s, t);
      ItemsReadable(a, b, i + 1, x, y);
    }
  }

  // ----- objects -----

  /** The value an object gives to a key. */
  function Field(v: Json, key: Text): Json
    requires v.Object? && key in KeysOf(v.entries)
  {
    v.entries[IndexOf(v.entries, key)].value
  }

  function FieldAt(v: Json, i: nat): Json
    requires v.Object? && i < |SortedKeys(v.entries)|
  {
    SortedKey(v.entries, i);
    Field(v, SortedKeys(v.entries)[i])
  }

  lemma FieldsEnd(v: Json, i: nat, x: Text)
    requires v.Object? && 0 < i <= |SortedKeys(v.entries)|
    ensures Ends(PrintFields(v, i) + ([CLOSE_OBJECT] + x))
  {
    hide SortedKeys, Print, IndexOf, Quote;
    var t := PrintFields(v, i) + ([CLOSE_OBJECT] + x);
    if i == |SortedKeys(v.entries)| {
      assert t[0] == CLOSE_OBJECT;
    } else {
      assert t[0] == COMMA;
    }
  }

  lemma FieldsStart(v: Json, i: nat, x: Text)
    requires v.Object? && i <= |SortedKeys(v.entries)|
    ensures var t := PrintFields(v, i) + ([CLOSE_OBJECT] + x); t[0] == CLOSE_OBJECT <==> i == |SortedKeys(v.entries)|
  {
    hide SortedKeys, Print, IndexOf, Escape;
    if i < |SortedKeys(v.entries)| {
      var key := SortedKeys(v.entries)[i];
      assert (Separator(i) + Quote(key))[0] == if i == 0 then QUOTE else COMMA;
    }
  }

  lemma FieldsDone(v: Json, x: Text)
    requires v.Object?
    ensures PrintFields(v, |SortedKeys(v.entries)|) + ([CLOSE_OBJECT] + x) == [CLOSE_OBJECT] + x
  {
    hide SortedKeys;
  }

  lemma FieldsSplit(v: Json, i: nat, x: Text)
    requires v.Object? && i < |SortedKeys(v.entries)|
    ensures PrintFields(v, i) + ([CLOSE_OBJECT] + x)
         == Separator(i) + (Quote(SortedKeys(v.entries)[i])
                            + ([COLON] + (Print(FieldAt(v, i)) + (PrintFields(v, i + 1) + ([CLOSE_OBJECT] + x)))))
  {
    hide SortedKeys, Print, IndexOf, Quote, Separator;
  }

  lemma {:induction false} FieldsReadable(a: Json, b: Json, i: nat, x: Text, y: Text)
    requires a.Object? && b.Object? && WellFormed(a) && WellFormed(b)
    requires i <= |SortedKeys(a.entries)| && i <= |SortedKeys(b.entries)|
    requires SortedKeys(a.entries)[..i] == SortedKeys(b.entries)[..i]
    requires PrintFields(a, i) + ([CLOSE_OBJECT] + x) == PrintFields(b, i) + ([CLOSE_OBJECT] + y)
    ensures SortedKeys(a.entries) == SortedKeys(b.entries) && x == y
    ensures forall k :: i <= k < |SortedKeys(a.entries)| ==> Same(FieldAt(a, k), FieldAt(b, k))
    decreases a, 0, |SortedKeys(a.entries)| - i
  {
    hide Print, Same, Quote, SortedKeys, IndexOf, Separator, PrintFields, FieldAt, WellFormed;
    var ka, kb := SortedKeys(a.entries), SortedKeys(b.entries);
    var p, q := PrintFields(a, i) + ([CLOSE_OBJECT] + x), PrintFields(b, i) + ([CLOSE_OBJECT] + y);
    FieldsStart(a, i, x);
    FieldsStart(b, i, y);
    if i == |ka| {
      FieldsDone(a, x);
      FieldsDone(b, y);
      SamePrefix([CLOSE_OBJECT], x, y);
      assert ka == ka[..i] && kb == kb[..i];
    } else {
      FieldReadable(a, b, i, x, y);
      FieldsReadable(a, b, i + 1, x, y);
    }
  }

  lemma {:induction false} FieldReadable(a: Json, b: Json, i: nat, x: Text, y: Text)
    requires a.Object? && b.Object? && WellFormed(a) && WellFormed(b)
    requires i < |SortedKeys(a.entries)| && i < |SortedKeys(b.entries)|
    requires SortedKeys(a.entries)[..i] == SortedKeys(b.entries)[..i]
    requires PrintFields(a, i) + ([CLOSE_OBJECT] + x) == PrintFields(b, i) + ([CLOSE_OBJECT] + y)
    ensures SortedKeys(a.entries)[..i + 1] == SortedKeys(b.entries)[..i + 1]
    ensures Same(FieldAt(a, i), FieldAt(b, i))
    ensures PrintFields(a, i + 1) + ([CLOSE_OBJECT] + x) == PrintFields(b, i + 1) + ([CLOSE_OBJECT] + y)
    decreases a, 0, |SortedKeys(a.entries)| - i, 0
  {
    hide Print, Same, Quote, SortedKeys, IndexOf, Separator, PrintFields;
    var ka, kb := SortedKeys(a.entries), SortedKeys(b.entries);
    var s, t := PrintFields(a, i + 1) + ([CLOSE_OBJECT] + x), PrintFields(b, i + 1) + ([CLOSE_OBJECT] + y);
    FieldsSplit(a, i, x);
    FieldsSplit(b, i, y);
    var p, q := [COLON] + (Print(FieldAt(a, i)) + s), [COLON] + (Print(FieldAt(b, i)) + t);
    SamePrefix(Separator(i), Quote(ka[i]) + p, Quote(kb[i]) + q);
    QuoteReadable(ka[i], kb[i], p, q);
    SamePrefix([COLON], Print(FieldAt(a, i)) + s, Print(FieldAt(b, i)) + t);
    FieldsEnd(a, i + 1, x);
    FieldsEnd(b, i + 1, y);
    FieldAtSmaller(a, i);
    FieldAtSmaller(b, i);
    Readable(FieldAt(a, i), FieldAt(b, i), s, t);
    assert ka[..i + 1] == ka[..i] + [ka[i]] && kb[..i + 1] == kb[..i] + [kb[i]];
  }

  lemma FieldAtSmaller(v: Json, i: nat)
    requires v.Object? && i < |SortedKeys(v.entries)| && WellFormed(v)
    ensures FieldAt(v, i) < v && WellFormed(FieldAt(v, i))
  {
    hide SortedKeys, IndexOf;
  }

  lemma KeyPosition(entries: seq<Entry>, i: nat) returns (m: nat)
    requires i < |entries| && DistinctKeys(entries)
    ensures m < |SortedKeys(entries)| && SortedKeys(entries)[m] == entries[i].key
    ensures entries[i].key in KeysOf(entries) && IndexOf(entries, entries[i].key) == i
  {
    var keys := KeysOf(entries);
    assert keys[i] in multiset(SortedKeys(entries));
    m :| 0 <= m < |SortedKeys(entries)| && SortedKeys(entries)[m] == keys[i];
  }

  lemma SameKeys(a: seq<Entry>, b: seq<Entry>)
    requires SortedKeys(a) == SortedKeys(b)
    ensures forall k :: k in KeysOf(a) <==> k in KeysOf(b)
  {
    forall k ensures k in KeysOf(a) <==> k in KeysOf(b) {
      assert k in KeysOf(a) <==> k in multiset(KeysOf(a));
      assert k in KeysOf(b) <==> k in multiset(KeysOf(b));
    }
  }

  /** Fields that agree in sorted order make the objects the same. */
  lemma FieldsMeanSame(a: Json, b: Json)
    requires a.Object? && b.Object? && WellFormed(a) && WellFormed(b)
    requires SortedKeys(a.entries) == SortedKeys(b.entries)
    requires forall k :: 0 <= k < |SortedKeys(a.entries)| ==> Same(FieldAt(a, k), FieldAt(b, k))
    ensures Same(a, b)
  {
    SameKeys(a.entries, b.entries);
    forall i, j | 0 <= i < |a.entries| && 0 <= j < |b.entries| && a.entries[i].key == b.entries[j].key
      ensures Same(a.entries[i].value, b.entries[j].value)
    {
      FieldMeansSame(a, b, i, j);
    }
  }

  lemma FieldMeansSame(a: Json, b: Json, i: nat, j: nat)
    requires a.Object? && b.Object? && DistinctKeys(a.entries) && DistinctKeys(b.entries)
    requires i < |a.entries| && j < |b.entries| && a.entries[i].key == b.entries[j].key
    requires SortedKeys(a.entries) == SortedKeys(b.entries)
    requires forall k :: 0 <= k < |SortedKeys(a.entries)| ==> Same(FieldAt(a, k), FieldAt(b, k))
    ensures Same(a.entries[i].value, b.entries[j].value)
  {
    hide Same, SortedKeys, IndexOf, DistinctKeys;
    var m := KeyPosition(a.entries, i);
    var n := KeyPosition(b.entries, j);
    FieldAtPosition(a, m, i);
    FieldAtPosition(b, m, j);
    hide FieldAt;
    assert Same(FieldAt(a, m), FieldAt(b, m));
  }

  lemma FieldAtPosition(v: Json, m: nat, i: nat)
    requires v.Object? && i < |v.entries| && m < |SortedKeys(v.entries)|
    requires SortedKeys(v.entries)[m] == v.entries[i].key
    requires v.entries[i].key in KeysOf(v.entries) && IndexOf(v.entries, v.entries[i].key) == i
    ensures FieldAt(v, m) == v.entries[i].value
  {
    hide SortedKeys, IndexOf;
  }

  // ----- the same values print alike -----

  lemma DistinctMultiset(keys: seq<Text>, k: Text)
    requires forall i, j :: 0 <= i < j < |keys| ==> keys[i] != keys[j]
    ensures multiset(keys)[k] == if k in keys then 1 else 0
  {
    if keys != [] {
      var front, last := keys[..|keys| - 1], keys[|keys| - 1];
      assert keys == front + [last];
      DistinctMultiset(front, k);
    }
  }

  lemma SameKeysSortAlike(a: seq<Entry>, b: seq<Entry>)
    requires DistinctKeys(a) && DistinctKeys(b) && forall k :: k in KeysOf(a) <==> k in KeysOf(b)
    ensures SortedKeys(a) == SortedKeys(b)
  {
    forall k ensures multiset(KeysOf(a))[k] == multiset(KeysOf(b))[k] {
      DistinctMultiset(KeysOf(a), k);
      DistinctMultiset(KeysOf(b), k);
    }
    assert multiset(KeysOf(a)) == multiset(KeysOf(b));
    TextOrder();
    SortForgetsOrder(KeysOf(a), KeysOf(b), LeqText);
  }

  lemma {:induction false} SamePrintsAlike(a: Json, b: Json)
    requires Same(a, b) && WellFormed(a) && WellFormed(b)
    ensures Print(a) == Print(b)
    decreases a, 1, 0
  {
    if a.Array? {
      SameItemsPrintAlike(a, b, 0);
    } else if a.Object? {
      SameKeysSortAlike(a.entries, b.entries);
      SameFieldsPrintAlike(a, b, 0);
    }
  }

  lemma {:induction false} SameItemsPrintAlike(a: Json, b: Json, i: nat)
    requires a.Array? && Same(a, b) && i <= |a.items| && WellFormed(a) && WellFormed(b)
    ensures PrintItems(a, i) == PrintItems(b, i)
    decreases a, 0, |a.items| - i
  {
    if i < |a.items| {
      SamePrintsAlike(a.items[i], b.items[i]);
      SameItemsPrintAlike(a, b, i + 1);
      hide Print;
    }
  }

  lemma {:induction false} SameFieldsPrintAlike(a: Json, b: Json, i: nat)
    requires a.Object? && Same(a, b) && WellFormed(a) && WellFormed(b)
    requires SortedKeys(a.entries) == SortedKeys(b.entries) && i <= |SortedKeys(a.entries)|
    ensures PrintFields(a, i) == PrintFields(b, i)
    decreases a, 0, |SortedKeys(a.entries)| - i
  {
    hide SortedKeys, IndexOf, Quote;
    var keys := SortedKeys(a.entries);
    if i < |keys| {
      SortedKey(a.entries, i);
      SortedKey(b.entries, i);
      var p, q := IndexOf(a.entries, keys[i]), IndexOf(b.entries, keys[i]);
      SamePrintsAlike(a.entries[p].value, b.entries[q].value);
      SameFieldsPrintAlike(a, b, i + 1);
      hide Print, Same, WellFormed;
    }
  }

  // ----- the theorem -----

  /** Equality by canonical form is exactly equality up to the order of object keys. */
  lemma SameJsonIsStructural(a: Json, b: Json)
    requires WellFormed(a) && WellFormed(b)
    ensures SameJson(a, b) <==> Same(a, b)
  {
    if SameJson(a, b) {
      assert Print(a) + [] == Print(b) + [];
      Readable(a, b, [], []);
    }
    if Same(a, b) {
      SamePrintsAlike(a, b);
    }
  }
}
