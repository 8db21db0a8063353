/**
 JSON values and their canonical text: keys sorted, no white space, and strings
 escaped as in section 7 of RFC 8259. A finite number is identified with the
 shortest text that denotes it, so both zeros are one number.
 */
module Json {
  import opened Text
  import opened Sorting

  /** A character that a number may contain. */
  predicate IsNumeric(c: CodeUnit) {
    0x30 <= c <= 0x39 || c == PLUS || c == MINUS || c == POINT || c == LOWER_E
  }

  predicate IsNumeral(t: Text) {
    t != [] && (t[0] == MINUS || 0x30 <= t[0] <= 0x39) && forall i :: 0 <= i < |t| ==> IsNumeric(t[i])
  }

  type Numeral = t: Text | IsNumeral(t) witness [0x30]

  datatype Json =
    | Null
    | Bool(value: bool)
    | Number(numeral: Numeral)
    | String(text: Text)
    | Array(items: seq<Json>)
    | Object(entries: seq<Entry>)

  datatype Entry = Entry(key: Text, value: Json)

  const QUOTE: CodeUnit := 0x22
  const PLUS: CodeUnit := 0x2b
  const COMMA: CodeUnit := 0x2c
  const MINUS: CodeUnit := 0x2d
  const POINT: CodeUnit := 0x2e
  const COLON: CodeUnit := 0x3a
  const OPEN_ARRAY: CodeUnit := 0x5b
  const BACKSLASH: CodeUnit := 0x5c
  const CLOSE_ARRAY: CodeUnit := 0x5d
  const LOWER_E: CodeUnit := 0x65
  const OPEN_OBJECT: CodeUnit := 0x7b
  const CLOSE_OBJECT: CodeUnit := 0x7d

  const NULL: Text := [0x6e, 0x75, 0x6c, 0x6c]
  const TRUE: Text := [0x74, 0x72, 0x75, 0x65]
  const FALSE: Text := [0x66, 0x61, 0x6c, 0x73, 0x65]

  /** An object has each key once. */
  predicate DistinctKeys(entries: seq<Entry>) {
    forall i, j :: 0 <= i < j < |entries| ==> entries[i].key != entries[j].key
  }

  predicate WellFormed(v: Json) {
    match v
    case Array(items) => forall i :: 0 <= i < |items| ==> WellFormed(items[i])
    case Object(entries) =>
      DistinctKeys(entries) && forall i :: 0 <= i < |entries| ==> WellFormed(entries[i].value)
    case _ => true
  }

  // ----- strings -----

  function HexDigit(d: nat): CodeUnit
    requires d < 16
  {
    if d < 10 then 0x30 + d else 0x61 + d - 10
  }

  /** The six characters of an escape by number. */
  function Numbered(c: CodeUnit): Text {
    [BACKSLASH, 0x75, HexDigit(c / 4096), HexDigit(c / 256 % 16), HexDigit(c / 16 % 16), HexDigit(c % 16)]
  }

  predicate IsHigh(c: CodeUnit) {
    0xd800 <= c < 0xdc00
  }

  predicate IsLow(c: CodeUnit) {
    0xdc00 <= c < 0xe000
  }

  /** The letter of a two-character escape; 0 if there is none. */
  function Letter(c: CodeUnit): CodeUnit {
    if c == QUOTE then QUOTE
    else if c == BACKSLASH then BACKSLASH
    else if c == 0x08 then 0x62
    else if c == 0x0c then 0x66
    else if c == 0x0a then 0x6e
    else if c == 0x0d then 0x72
    else if c == 0x09 then 0x74
    else 0
  }

  /** How many code units one token of an escaped string stands for: a surrogate pair stays together. */
  function Width(s: Text): (n: nat)
    requires s != []
    ensures 1 <= n <= |s|
  {
    if |s| > 1 && IsHigh(s[0]) && IsLow(s[1]) then 2 else 1
  }

  /** The text of the first token: the character itself, or an escape. */
  function Token(s: Text): Text
    requires s != []
  {
    if Width(s) == 2 then s[..2]
    else if Letter(s[0]) != 0 then [BACKSLASH, Letter(s[0])]
    else if s[0] < 0x20 || IsHigh(s[0]) || IsLow(s[0]) then Numbered(s[0])
    else [s[0]]
  }

  function Escape(s: Text): Text {
    if s == [] then [] else Token(s) + Escape(s[Width(s)..])
  }

  function Quote(s: Text): Text {
    [QUOTE] + Escape(s) + [QUOTE]
  }

  // ----- the printer -----

  function KeysOf(entries: seq<Entry>): (keys: seq<Text>)
    ensures |keys| == |entries| && forall i :: 0 <= i < |keys| ==> keys[i] == entries[i].key
  {
    seq(|entries|, i requires 0 <= i < |entries| => entries[i].key)
  }

  function SortedKeys(entries: seq<Entry>): (keys: seq<Text>)
    ensures multiset(keys) == multiset(KeysOf(entries))
  {
    TextOrder();
    SortIsSorted(KeysOf(entries), LeqText);
    Sort(KeysOf(entries), LeqText)
  }

  lemma SortedKey(entries: seq<Entry>, i: nat)
    requires i < |SortedKeys(entries)|
    ensures |SortedKeys(entries)| == |entries| && SortedKeys(entries)[i] in KeysOf(entries)
  {
    assert SortedKeys(entries)[i] in multiset(SortedKeys(entries));
    assert |multiset(SortedKeys(entries))| == |multiset(KeysOf(entries))|;
  }

  function IndexOf(entries: seq<Entry>, key: Text): (i: nat)
    requires key in KeysOf(entries)
    ensures i < |entries| && entries[i].key == key
  {
    if entries[0].key == key then 0
    else
      assert KeysOf(entries)[1..] == KeysOf(entries[1..]);
      1 + IndexOf(entries[1..], key)
  }

  function Separator(i: nat): Text {
    if i == 0 then [] else [COMMA]
  }

  function Print(v: Json): Text
    decreases v, 1, 0
  {
    match v
    case Null => NULL
    case Bool(b) => if b then TRUE else FALSE
    case Number(numeral) => numeral
    case String(text) => Quote(text)
    case Array(_) => [OPEN_ARRAY] + PrintItems(v, 0) + [CLOSE_ARRAY]
    case Object(_) => [OPEN_OBJECT] + PrintFields(v, 0) + [CLOSE_OBJECT]
  }

  /** The items from an index on, with a comma before each but the very first. */
  function PrintItems(v: Json, i: nat): Text
    requires v.Array? && i <= |v.items|
    decreases v, 0, |v.items| - i
  {
    if i == |v.items| then [] else Separator(i) + Print(v.items[i]) + PrintItems(v, i + 1)
  }

  /** The fields from an index on, in the order of the sorted keys. */
  function PrintFields(v: Json, i: nat): Text
    requires v.Object? && i <= |SortedKeys(v.entries)|
    decreases v, 0, |SortedKeys(v.entries)| - i
  {
    var keys := SortedKeys(v.entries);
    if i == |keys| then []
    else
      SortedKey(v.entries, i);
      Separator(i) + Quote(keys[i]) + [COLON] + Print(v.entries[IndexOf(v.entries, keys[i])].value) + PrintFields(v, i + 1)
  }

  /** Equality by canonical form. */
  predicate SameJson(a: Json, b: Json) {
    Print(a) == Print(b)
  }

  /** In every object of the value each key comes before every later one. */
  ghost predicate KeysAscend(t: Json) {
    match t
    case Array(items) => forall i :: 0 <= i < |items| ==> KeysAscend(items[i])
    case Object(entries) =>
      && (forall i, j :: 0 <= i < j < |entries| ==> Precedes(entries[i].key, entries[j].key))
      && forall i :: 0 <= i < |entries| ==> KeysAscend(entries[i].value)
    case _ => true
  }

  // ----- equality by structure -----

  /** The same value up to the order of object keys. */
  ghost predicate Same(a: Json, b: Json)
    decreases a
  {
    match a
    case Array(items) =>
      && b.Array? && |items| == |b.items|
      && forall i :: 0 <= i < |items| ==> Same(items[i], b.items[i])
    case Object(entries) =>
      && b.Object?
      && (forall k :: k in KeysOf(entries) <==> k in KeysOf(b.entries))
      && forall i, j :: 0 <= i < |entries| && 0 <= j < |b.entries| && entries[i].key == b.entries[j].key ==>
           Same(entries[i].value, b.entries[j].value)
    case _ => a == b
  }
}
