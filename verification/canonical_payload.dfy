/**
  JSON values as JavaScript holds them: object members are ordered. Two values
  mean the same when they differ in the order of object keys only.
 */
module JsonValues {
  import opened Numerals

  datatype Json =
    | Null
    | Bool(value: bool)
    | Number(digits: string)
    | Str(text: string)
    | Array(items: List)
    | Object(members: Members)

  datatype List = Nil | Cons(head: Json, tail: List)

  /** The entries of an object, in the order of its properties. */
  datatype Record<V> = Empty | Member(key: string, value: V, rest: Record<V>)

  type Members = Record<Json>

  /** What is left of a value when the order of keys is forgotten. */
  datatype Value =
    | NullValue
    | BoolValue(value: bool)
    | NumberValue(digits: string)
    | StrValue(text: string)
    | ArrayValue(items: seq<Value>)
    | ObjectValue(members: map<string, Value>)

  function AsMap<V>(m: Record<V>): map<string, V> {
    match m
    case Empty => map[]
    case Member(k, v, rest) => AsMap(rest)[k := v]
  }

  /** No key twice, here or deeper; numerals consist of numeral characters. */
  predicate WellFormed(j: Json) {
    match j
    case Number(digits) => IsNumeral(digits)
    case Array(items) => WellFormedList(items)
    case Object(members) => WellFormedMembers(members)
    case _ => true
  }

  predicate WellFormedList(items: List) {
    items.Cons? ==> WellFormed(items.head) && WellFormedList(items.tail)
  }

  predicate WellFormedMembers(m: Members) {
    m.Member? ==> m.key !in AsMap(m.rest) && WellFormed(m.value) && WellFormedMembers(m.rest)
  }

  predicate NumeralChar(c: char) {
    IsDigit(c) || c == '-' || c == '+' || c == '.' || c == 'e'
  }

  predicate IsNumeral(s: string) {
    s != "" && (IsDigit(s[0]) || s[0] == '-') && forall i :: 0 <= i < |s| ==> NumeralChar(s[i])
  }

  function Meaning(j: Json): Value {
    match j
    case Null => NullValue
    case Bool(b) => BoolValue(b)
    case Number(digits) => NumberValue(digits)
    case Str(text) => StrValue(text)
    case Array(items) => ArrayValue(MeaningOfList(items))
    case Object(members) => ObjectValue(MeaningOfMembers(members))
  }

  function MeaningOfList(items: List): seq<Value> {
    match items
    case Nil => []
    case Cons(head, tail) => [Meaning(head)] + MeaningOfList(tail)
  }

  function MeaningOfMembers(m: Members): map<string, Value> {
    match m
    case Empty => map[]
    case Member(k, v, rest) => MeaningOfMembers(rest)[k := Meaning(v)]
  }

  lemma {:induction false} MeaningIsPointwise(m: Members)
    ensures MeaningOfMembers(m).Keys == AsMap(m).Keys
    ensures forall k :: k in AsMap(m) ==> MeaningOfMembers(m)[k] == Meaning(AsMap(m)[k])
  {
    if m.Member? {
      MeaningIsPointwise(m.rest);
    }
  }

  ghost predicate DistinctKeys<V>(m: Record<V>) {
    m.Member? ==> m.key !in AsMap(m.rest) && DistinctKeys(m.rest)
  }
}

/** `normalizeJsonValue`: objects with their keys sorted, all the way down. */
module Canonical {
  import opened Numerals
  import opened JsonValues

  // ---------- property order ----------

  /** An array index as an object key: a canonical numeral below 2^32 - 1. */
  predicate IsIndex(key: string) {
    key != "" && AllDigits(key) && (key == "0" || key[0] != '0') && JsonNumber(key) < 0xFFFF_FFFF
  }

  function JsonNumber(key: string): nat
    requires AllDigits(key)
  {
    Numerals.Number(key)
  }

  /** Whether a new property goes in front of one that is there: indices come first, in numeric order. */
  predicate Precedes(k: string, first: string) {
    IsIndex(k) && (!IsIndex(first) || JsonNumber(k) < JsonNumber(first))
  }

  lemma NumberOneMore(key: string, digit: char)
    requires AllDigits(key) && IsDigit(digit)
    ensures AllDigits(key + [digit]) && JsonNumber(key + [digit]) == 10 * JsonNumber(key) + (digit as int - '0' as int)
  {
    assert (key + [digit])[..|key|] == key;
  }

  /** Array indices go up to 2 to the 32nd minus 2, written without leading zeros. */
  lemma LargestIndex()
    ensures IsIndex("0") && !IsIndex("00") && !IsIndex("") && !IsIndex("a")
    ensures IsIndex("4294967294") && !IsIndex("4294967295")
  {
    NumberOneMore("", '4');
    assert "" + ['4'] == "4";
    NumberOneMore("4", '2');
    assert "4" + ['2'] == "42";
    NumberOneMore("42", '9');
    assert "42" + ['9'] == "429";
    NumberOneMore("429", '4');
    assert "429" + ['4'] == "4294";
    NumberOneMore("4294", '9');
    assert "4294" + ['9'] == "42949";
    NumberOneMore("42949", '6');
    assert "42949" + ['6'] == "429496";
    NumberOneMore("429496", '7');
    assert "429496" + ['7'] == "4294967";
    NumberOneMore("4294967", '2');
    assert "4294967" + ['2'] == "42949672";
    NumberOneMore("42949672", '9');
    assert "42949672" + ['9'] == "429496729";
    NumberOneMore("429496729", '4');
    NumberOneMore("429496729", '5');
    assert "429496729" + ['4'] == "4294967294" && "429496729" + ['5'] == "4294967295";
  }

  /** Where an object puts a new property: in front of the first one it precedes. */
  function Own<V>(k: string, v: V, m: Record<V>): Record<V> {
    match m
    case Empty => Member(k, v, Empty)
    case Member(first, w, rest) =>
      if Precedes(k, first) then Member(k, v, m)
      else Member(first, w, Own(k, v, rest))
  }

  /** `Object.fromEntries`. */
  function FromEntries<V>(entries: Record<V>, built: Record<V>): Record<V> {
    match entries
    case Empty => built
    case Member(k, v, rest) => FromEntries(rest, Own(k, v, built))
  }

  function Insert(k: string, v: Json, sorted: Members): Members {
    match sorted
    case Empty => Member(k, v, Empty)
    case Member(first, w, rest) =>
      if Less(k, first) then Member(k, v, sorted) else Member(first, w, Insert(k, v, rest))
  }

  function SortKeys(m: Members): Members {
    match m
    case Empty => Empty
    case Member(k, v, rest) => Insert(k, v, SortKeys(rest))
  }

  function Reordered(m: Members): Members {
    FromEntries(SortKeys(m), Empty)
  }

  function Normalize(j: Json): Json {
    match j
    case Array(items) => Array(NormalizeList(items))
    case Object(members) => Object(Reordered(NormalizeMembers(members)))
    case _ => j
  }

  function NormalizeList(items: List): List {
    match items
    case Nil => Nil
    case Cons(head, tail) => Cons(Normalize(head), NormalizeList(tail))
  }

  function NormalizeMembers(m: Members): Members {
    match m
    case Empty => Empty
    case Member(k, v, rest) => Member(k, Normalize(v), NormalizeMembers(rest))
  }

  // ---------- sorting keeps the entries and forgets their order ----------

  lemma {:induction false} InsertAdds(k: string, v: Json, m: Members)
    requires DistinctKeys(m) && k !in AsMap(m)
    ensures AsMap(Insert(k, v, m)) == AsMap(m)[k := v] && DistinctKeys(Insert(k, v, m))
  {
    if m.Member? && !Less(k, m.key) {
      InsertAdds(k, v, m.rest);
    }
  }

  lemma {:induction false} OwnAdds(k: string, v: Json, m: Members)
    requires DistinctKeys(m) && k !in AsMap(m)
    ensures AsMap(Own(k, v, m)) == AsMap(m)[k := v] && DistinctKeys(Own(k, v, m))
  {
    if m.Member? && !Precedes(k, m.key) {
      OwnAdds(k, v, m.rest);
    }
  }

  lemma {:induction false} SortKeepsEntries(m: Members)
    requires DistinctKeys(m)
    ensures AsMap(SortKeys(m)) == AsMap(m) && DistinctKeys(SortKeys(m))
  {
    if m.Member? {
      SortKeepsEntries(m.rest);
      InsertAdds(m.key, m.value, SortKeys(m.rest));
    }
  }

  lemma {:induction false} FromEntriesKeepsEntries(entries: Members, built: Members)
    requires DistinctKeys(entries) && DistinctKeys(built) && AsMap(entries).Keys !! AsMap(built).Keys
    ensures AsMap(FromEntries(entries, built)) == AsMap(built) + AsMap(entries)
    ensures DistinctKeys(FromEntries(entries, built))
    decreases entries
  {
    match entries
    case Empty =>
    case Member(k, v, rest) =>
      OwnAdds(k, v, built);
      FromEntriesKeepsEntries(rest, Own(k, v, built));
  }

  lemma ReorderedKeepsEntries(m: Members)
    requires DistinctKeys(m)
    ensures AsMap(Reordered(m)) == AsMap(m) && DistinctKeys(Reordered(m))
  {
    SortKeepsEntries(m);
    FromEntriesKeepsEntries(SortKeys(m), Empty);
  }

  ghost predicate Sorted(m: Members) {
    m.Member? ==> Sorted(m.rest) && forall k :: k in AsMap(m.rest) ==> Less(m.key, k)
  }

  lemma {:induction false} InsertKeepsSorted(k: string, v: Json, m: Members)
    requires Sorted(m) && DistinctKeys(m) && k !in AsMap(m)
    ensures Sorted(Insert(k, v, m))
  {
    if m.Member? {
      LessIsStrict(k, m.key, "");
      if Less(k, m.key) {
        forall x | x in AsMap(m.rest) ensures Less(k, x) {
          LessIsStrict(k, m.key, x);
        }
      } else {
        InsertKeepsSorted(k, v, m.rest);
        InsertAdds(k, v, m.rest);
      }
    }
  }

  lemma {:induction false} SortSorts(m: Members)
    requires DistinctKeys(m)
    ensures Sorted(SortKeys(m))
  {
    if m.Member? {
      SortSorts(m.rest);
      SortKeepsEntries(m.rest);
      InsertKeepsSorted(m.key, m.value, SortKeys(m.rest));
    }
  }

  lemma SameFirst(a: Members, b: Members)
    requires a.Member? && b.Member? && Sorted(a) && Sorted(b) && AsMap(a) == AsMap(b)
    requires DistinctKeys(a) && DistinctKeys(b)
    ensures a.key == b.key && a.value == b.value && AsMap(a.rest) == AsMap(b.rest)
  {
    assert a.key in AsMap(b) && b.key in AsMap(a);
    LessIsStrict(a.key, b.key, a.key);
    assert AsMap(a)[a.key] == a.value && AsMap(b)[b.key] == b.value;
    assert AsMap(a.rest) == AsMap(a) - {a.key};
    assert AsMap(b.rest) == AsMap(b) - {b.key};
  }

  lemma {:induction false} SortedIsUnique(a: Members, b: Members)
    requires Sorted(a) && Sorted(b) && DistinctKeys(a) && DistinctKeys(b) && AsMap(a) == AsMap(b)
    ensures a == b
  {
    assert a.Member? ==> a.key in AsMap(b);
    assert b.Member? ==> b.key in AsMap(a);
    if a.Member? {
      SameFirst(a, b);
      SortedIsUnique(a.rest, b.rest);
    }
  }

  lemma ReorderingForgetsOrder(a: Members, b: Members)
    requires DistinctKeys(a) && DistinctKeys(b) && AsMap(a) == AsMap(b)
    ensures Reordered(a) == Reordered(b)
  {
    SortKeepsEntries(a);
    SortKeepsEntries(b);
    SortSorts(a);
    SortSorts(b);
    SortedIsUnique(SortKeys(a), SortKeys(b));
  }

  // ---------- normal forms ----------

  lemma {:induction false} MembersAreDistinct(m: Members)
    requires WellFormedMembers(m)
    ensures DistinctKeys(m)
    ensures forall k :: k in AsMap(m) ==> WellFormed(AsMap(m)[k])
  {
    if m.Member? {
      MembersAreDistinct(m.rest);
    }
  }

  lemma {:induction false} DistinctIsWellFormed(m: Members)
    requires DistinctKeys(m) && forall k :: k in AsMap(m) ==> WellFormed(AsMap(m)[k])
    ensures WellFormedMembers(m)
  {
    if m.Member? {
      assert AsMap(m)[m.key] == m.value;
      forall k | k in AsMap(m.rest) ensures WellFormed(AsMap(m.rest)[k]) {
        assert AsMap(m)[k] == AsMap(m.rest)[k];
      }
      DistinctIsWellFormed(m.rest);
    }
  }

  lemma {:induction false} NormalizeMembersIsPointwise(m: Members)
    requires DistinctKeys(m)
    ensures DistinctKeys(NormalizeMembers(m)) && AsMap(NormalizeMembers(m)).Keys == AsMap(m).Keys
    ensures forall k :: k in AsMap(m) ==> AsMap(NormalizeMembers(m))[k] == Normalize(AsMap(m)[k])
  {
    if m.Member? {
      NormalizeMembersIsPointwise(m.rest);
    }
  }

  /** Normalising changes nothing but the order of keys. */
  lemma {:induction false} NormalizeKeepsMeaning(j: Json)
    requires WellFormed(j)
    ensures Meaning(Normalize(j)) == Meaning(j) && WellFormed(Normalize(j))
    decreases j
  {
    match j
    case Array(items) => NormalizeKeepsMeaningOfList(items);
    case Object(members) =>
      MembersAreDistinct(members);
      NormalizeMembersIsPointwise(members);
      ReorderedKeepsEntries(NormalizeMembers(members));
      NormalizeKeepsMeaningOfMembers(members);
      var result := Reordered(NormalizeMembers(members));
      MeaningIsPointwise(result);
      MeaningIsPointwise(members);
      assert MeaningOfMembers(result) == MeaningOfMembers(members);
      DistinctIsWellFormed(result);
    case _ =>
  }

  lemma {:induction false} NormalizeKeepsMeaningOfList(items: List)
    requires WellFormedList(items)
    ensures MeaningOfList(NormalizeList(items)) == MeaningOfList(items) && WellFormedList(NormalizeList(items))
    decreases items
  {
    if items.Cons? {
      NormalizeKeepsMeaning(items.head);
      NormalizeKeepsMeaningOfList(items.tail);
    }
  }

  lemma {:induction false} NormalizeKeepsMeaningOfMembers(m: Members)
    requires WellFormedMembers(m)
    ensures forall k :: k in AsMap(m) ==>
              Meaning(Normalize(AsMap(m)[k])) == Meaning(AsMap(m)[k]) && WellFormed(Normalize(AsMap(m)[k]))
    decreases m
  {
    if m.Member? {
      NormalizeKeepsMeaning(m.value);
      NormalizeKeepsMeaningOfMembers(m.rest);
    }
  }

  /** Values with the same meaning have one normal form. */
  lemma {:induction false} SameMeaningSameNormal(a: Json, b: Json)
    requires WellFormed(a) && WellFormed(b) && Meaning(a) == Meaning(b)
    ensures Normalize(a) == Normalize(b)
    decreases a
  {
    match a
    case Array(items) => SameNormalLists(items, b.items);
    case Object(members) =>
      MembersAreDistinct(members);
      MembersAreDistinct(b.members);
      MeaningIsPointwise(members);
      MeaningIsPointwise(b.members);
      NormalizeMembersIsPointwise(members);
      NormalizeMembersIsPointwise(b.members);
      SameNormalMembers(members, b.members);
      assert AsMap(NormalizeMembers(members)) == AsMap(NormalizeMembers(b.members));
      ReorderingForgetsOrder(NormalizeMembers(members), NormalizeMembers(b.members));
    case _ =>
  }

  lemma {:induction false} SameNormalLists(a: List, b: List)
    requires WellFormedList(a) && WellFormedList(b) && MeaningOfList(a) == MeaningOfList(b)
    ensures NormalizeList(a) == NormalizeList(b)
    decreases a
  {
    assert a.Cons? ==> MeaningOfList(a)[0] == Meaning(a.head) && MeaningOfList(a)[1..] == MeaningOfList(a.tail);
    assert b.Cons? ==> MeaningOfList(b)[0] == Meaning(b.head) && MeaningOfList(b)[1..] == MeaningOfList(b.tail);
    if a.Cons? {
      SameMeaningSameNormal(a.head, b.head);
      SameNormalLists(a.tail, b.tail);
    }
  }

  lemma {:induction false} SameNormalMembers(a: Members, b: Members)
    requires WellFormedMembers(a) && WellFormedMembers(b)
    requires forall k :: k in AsMap(a) ==> k in AsMap(b) && Meaning(AsMap(a)[k]) == Meaning(AsMap(b)[k])
    ensures forall k :: k in AsMap(a) ==> Normalize(AsMap(a)[k]) == Normalize(AsMap(b)[k])
    decreases a
  {
    if a.Member? {
      MembersAreDistinct(b);
      assert AsMap(a)[a.key] == a.value;
      SameMeaningSameNormal(a.value, AsMap(b)[a.key]);
      forall k | k in AsMap(a.rest) ensures k in AsMap(b) && Meaning(AsMap(a.rest)[k]) == Meaning(AsMap(b)[k]) {
        assert AsMap(a)[k] == AsMap(a.rest)[k];
      }
      SameNormalMembers(a.rest, b);
    }
  }

  /** Normal forms agree exactly for values that differ in key order only. */
  lemma NormalFormsDecideMeaning(a: Json, b: Json)
    requires WellFormed(a) && WellFormed(b)
    ensures Normalize(a) == Normalize(b) <==> Meaning(a) == Meaning(b)
  {
    NormalizeKeepsMeaning(a);
    NormalizeKeepsMeaning(b);
    if Meaning(a) == Meaning(b) {
      SameMeaningSameNormal(a, b);
    }
  }

  /** Normalising twice is normalising once. */
  lemma NormalizeIsIdempotent(j: Json)
    requires WellFormed(j)
    ensures Normalize(Normalize(j)) == Normalize(j)
  {
    NormalizeKeepsMeaning(j);
    SameMeaningSameNormal(Normalize(j), j);
  }
}

/** `JSON.stringify`, and why two values never share a text. */
module JsonText {
  import opened JsonValues

  /** The double quote. */
  const QUOTE: char := '\U{22}'

  function HexDigit(n: nat): (c: char)
    requires n < 16
    ensures c != QUOTE
  {
    "0123456789abcdef"[n]
  }

  /** One character inside a string literal. */
  function Escape(c: char): (s: string)
    ensures s != "" && s[0] != QUOTE
  {
    if c == QUOTE then ['\\', QUOTE]
    else if c == '\\' then "\\\\"
    else if c == '\U{8}' then "\\b"
    else if c == '\U{C}' then "\\f"
    else if c == '\n' then "\\n"
    else if c == '\r' then "\\r"
    else if c == '\t' then "\\t"
    else if c < ' ' then "\\u00" + [HexDigit(c as nat / 16), HexDigit(c as nat % 16)]
    else [c]
  }

  /** The inside of a literal and its closing quote. */
  function Quoted(s: string): string {
    if s == "" then [QUOTE] else Escape(s[0]) + Quoted(s[1..])
  }

  function Text(j: Json): string {
    match j
    case Null => "null"
    case Bool(b) => if b then "true" else "false"
    case Number(digits) => digits
    case Str(text) => [QUOTE] + Quoted(text)
    case Array(Nil) => "[]"
    case Array(Cons(head, tail)) => "[" + Text(head) + RestOfList(tail)
    case Object(Empty) => "{}"
    case Object(Member(k, v, rest)) => ['{', QUOTE] + Quoted(k) + ":" + Text(v) + RestOfMembers(rest)
  }

  function RestOfList(items: List): string {
    match items
    case Nil => "]"
    case Cons(head, tail) => "," + Text(head) + RestOfList(tail)
  }

  function RestOfMembers(m: Members): string {
    match m
    case Empty => "}"
    case Member(k, v, rest) => [',', QUOTE] + Quoted(k) + ":" + Text(v) + RestOfMembers(rest)
  }

  /** A text that can follow a value. */
  predicate Follows(s: string) {
    s == "" || s[0] == ',' || s[0] == ']' || s[0] == '}'
  }

  /** The escape sequence in front of a text tells which character it stands for. */
  function Unescape(s: string): (char, string)
    requires s != ""
  {
    if s[0] != '\\' || |s| == 1 then (s[0], s[1..])
    else if s[1] == 'b' then ('\U{8}', s[2..])
    else if s[1] == 'f' then ('\U{C}', s[2..])
    else if s[1] == 'n' then ('\n', s[2..])
    else if s[1] == 'r' then ('\r', s[2..])
    else if s[1] == 't' then ('\t', s[2..])
    else if s[1] == 'u' && |s| >= 6 then
      (if HexValue(s[4]) < 2 then (16 * HexValue(s[4]) + HexValue(s[5])) as char else s[5], s[6..])
    else (s[1], s[2..])
  }

  function HexValue(c: char): (n: nat)
    ensures n < 16
  {
    if '0' <= c <= '9' then (c - '0') as nat
    else if 'a' <= c <= 'f' then (c - 'a') as nat + 10
    else 0
  }

  lemma UnescapeEscape(c: char, rest: string)
    ensures Unescape(Escape(c) + rest) == (c, rest)
  {
    var s := Escape(c) + rest;
    assert s[|Escape(c)|..] == rest;
    if c < ' ' && |Escape(c)| == 6 {
      UnescapeControl(c, rest);
    }
  }

  lemma UnescapeControl(c: char, rest: string)
    requires c < ' ' && |Escape(c)| == 6
    ensures Unescape(Escape(c) + rest) == (c, rest)
  {
    var high, low := c as nat / 16, c as nat % 16;
    HexReads(high);
    HexReads(low);
    assert Escape(c) == ['\\', 'u', '0', '0', HexDigit(high), HexDigit(low)];
    UnescapeHex(HexDigit(high), HexDigit(low), rest);
  }

  lemma HexReads(n: nat)
    requires n < 16
    ensures HexValue(HexDigit(n)) == n
  {
  }

  lemma UnescapeHex(high: char, low: char, rest: string)
    requires HexValue(high) < 2
    ensures Unescape(['\\', 'u', '0', '0', high, low] + rest) == ((16 * HexValue(high) + HexValue(low)) as char, rest)
  {
    var s := ['\\', 'u', '0', '0', high, low] + rest;
    assert s[4] == high && s[5] == low && s[6..] == rest;
  }

  lemma QuotedStarts(s: string)
    ensures Quoted(s) != "" && (Quoted(s)[0] == QUOTE <==> s == "")
  {
  }

  lemma QuotedUnescapes(s: string, x: string)
    requires s != ""
    ensures Quoted(s) + x != "" && Unescape(Quoted(s) + x) == (s[0], Quoted(s[1..]) + x)
  {
    assert Quoted(s) + x == Escape(s[0]) + (Quoted(s[1..]) + x);
    UnescapeEscape(s[0], Quoted(s[1..]) + x);
  }

  /** A string literal ends where its text says. */
  lemma {:induction false} QuotedIsPrefixFree(s: string, t: string, x: string, y: string)
    requires Quoted(s) + x == Quoted(t) + y
    ensures s == t && x == y
  {
    var all := Quoted(s) + x;
    QuotedStarts(s);
    QuotedStarts(t);
    assert all[0] == Quoted(s)[0] == Quoted(t)[0];
    if s == "" {
      assert all[1..] == x && all[1..] == y;
    } else {
      QuotedUnescapes(s, x);
      QuotedUnescapes(t, y);
      QuotedIsPrefixFree(s[1..], t[1..], x, y);
      assert s == [s[0]] + s[1..] && t == [t[0]] + t[1..];
    }
  }

  lemma NumeralNotShorter(s: string, t: string, x: string, y: string)
    requires forall i :: 0 <= i < |t| ==> NumeralChar(t[i])
    requires Follows(x) && s + x == t + y
    ensures |t| <= |s|
  {
    assert forall i :: 0 <= i < |t| ==> (t + y)[i] == t[i];
    assert x != "" ==> (s + x)[|s|] == x[0];
  }

  lemma NumeralIsPrefixFree(s: string, t: string, x: string, y: string)
    requires IsNumeral(s) && IsNumeral(t) && Follows(x) && Follows(y) && s + x == t + y
    ensures s == t && x == y
  {
    NumeralNotShorter(s, t, x, y);
    NumeralNotShorter(t, s, y, x);
    var all := s + x;
    assert s == all[..|s|] && t == all[..|t|] && x == all[|s|..] && y == all[|t|..];
  }

  /** The first character of a text tells what kind of value it is. */
  datatype Kind = NullKind | TrueKind | FalseKind | NumberKind | StrKind | ArrayKind | ObjectKind

  function KindOf(j: Json): Kind {
    match j
    case Null => NullKind
    case Bool(b) => if b then TrueKind else FalseKind
    case Number(_) => NumberKind
    case Str(_) => StrKind
    case Array(_) => ArrayKind
    case Object(_) => ObjectKind
  }

  function KindFrom(c: char): Kind {
    if c == 'n' then NullKind
    else if c == 't' then TrueKind
    else if c == 'f' then FalseKind
    else if c == QUOTE then StrKind
    else if c == '[' then ArrayKind
    else if c == '{' then ObjectKind
    else NumberKind
  }

  lemma TextStarts(j: Json)
    requires WellFormed(j)
    ensures Text(j) != "" && KindFrom(Text(j)[0]) == KindOf(j)
  {
    match j
    case Number(digits) => assert NumeralChar(digits[0]);
    case _ =>
  }

  lemma SameKind(a: Json, b: Json, x: string, y: string)
    requires WellFormed(a) && WellFormed(b) && Text(a) + x == Text(b) + y
    ensures KindOf(a) == KindOf(b)
  {
    TextStarts(a);
    TextStarts(b);
    assert (Text(a) + x)[0] == Text(a)[0] == Text(b)[0];
  }

  lemma SameTail(p: string, x: string, y: string)
    requires p + x == p + y
    ensures x == y
  {
    assert x == (p + x)[|p|..] && y == (p + y)[|p|..];
  }

  lemma TextOfStr(s: string, x: string)
    ensures Text(Str(s)) + x == [QUOTE] + (Quoted(s) + x)
  {
  }

  lemma StringsAgree(s: string, t: string, x: string, y: string)
    requires Text(Str(s)) + x == Text(Str(t)) + y
    ensures s == t && x == y
  {
    TextOfStr(s, x);
    TextOfStr(t, y);
    SameTail([QUOTE], Quoted(s) + x, Quoted(t) + y);
    QuotedIsPrefixFree(s, t, x, y);
  }

  /** A value's text ends where the value does, so it determines the value. */
  lemma {:induction false} TextIsPrefixFree(a: Json, b: Json, x: string, y: string)
    requires WellFormed(a) && WellFormed(b) && Follows(x) && Follows(y)
    requires Text(a) + x == Text(b) + y
    ensures a == b && x == y
    decreases a, 0
  {
    SameKind(a, b, x, y);
    match a
    case Number(digits) => NumeralIsPrefixFree(digits, b.digits, x, y);
    case Str(text) => StringsAgree(text, b.text, x, y);
    case Array(items) => ArrayIsPrefixFree(items, b.items, x, y);
    case Object(members) => ObjectIsPrefixFree(members, b.members, x, y);
    case _ => SameTail(Text(a), x, y);
  }

  lemma RestsFollow(items: List, members: Members, x: string)
    ensures Follows(RestOfList(items) + x) && Follows(RestOfMembers(members) + x)
    ensures (RestOfList(items) + x)[0] == (if items.Nil? then ']' else ',')
    ensures (RestOfMembers(members) + x)[0] == (if members.Empty? then '}' else ',')
  {
  }

  lemma ListTextStarts(items: List, x: string)
    requires WellFormedList(items)
    ensures |Text(Array(items)) + x| > 1 && ((Text(Array(items)) + x)[1] == ']' <==> items.Nil?)
  {
    match items
    case Nil =>
    case Cons(head, tail) =>
      TextStarts(head);
      assert (Text(Array(items)) + x)[1] == Text(head)[0];
      assert KindFrom(']') == NumberKind;
  }

  lemma TextOfCons(head: Json, tail: List, x: string)
    ensures Text(Array(Cons(head, tail))) + x == "[" + (Text(head) + (RestOfList(tail) + x))
    ensures RestOfList(Cons(head, tail)) + x == "," + (Text(head) + (RestOfList(tail) + x))
  {
  }

  lemma {:induction false} ArrayIsPrefixFree(a: List, b: List, x: string, y: string)
    requires WellFormedList(a) && WellFormedList(b) && Follows(x) && Follows(y)
    requires Text(Array(a)) + x == Text(Array(b)) + y
    ensures a == b && x == y
    decreases a, 1
  {
    ListTextStarts(a, x);
    ListTextStarts(b, y);
    if a.Nil? {
      SameTail("[]", x, y);
    } else {
      TextOfCons(a.head, a.tail, x);
      TextOfCons(b.head, b.tail, y);
      SameTail("[", Text(a.head) + (RestOfList(a.tail) + x), Text(b.head) + (RestOfList(b.tail) + y));
      ItemIsPrefixFree(a.head, b.head, a.tail, b.tail, x, y);
    }
  }

  lemma {:induction false} RestOfListIsPrefixFree(a: List, b: List, x: string, y: string)
    requires WellFormedList(a) && WellFormedList(b) && Follows(x) && Follows(y)
    requires RestOfList(a) + x == RestOfList(b) + y
    ensures a == b && x == y
    decreases a, 1
  {
    RestsFollow(a, Empty, x);
    RestsFollow(b, Empty, y);
    if a.Nil? {
      SameTail("]", x, y);
    } else {
      TextOfCons(a.head, a.tail, x);
      TextOfCons(b.head, b.tail, y);
      SameTail(",", Text(a.head) + (RestOfList(a.tail) + x), Text(b.head) + (RestOfList(b.tail) + y));
      ItemIsPrefixFree(a.head, b.head, a.tail, b.tail, x, y);
    }
  }

  lemma {:induction false} ItemIsPrefixFree(v: Json, w: Json, a: List, b: List, x: string, y: string)
    requires WellFormed(v) && WellFormed(w) && WellFormedList(a) && WellFormedList(b) && Follows(x) && Follows(y)
    requires Text(v) + (RestOfList(a) + x) == Text(w) + (RestOfList(b) + y)
    ensures v == w && a == b && x == y
    decreases Cons(v, a), 0
  {
    RestsFollow(a, Empty, x);
    RestsFollow(b, Empty, y);
    TextIsPrefixFree(v, w, RestOfList(a) + x, RestOfList(b) + y);
    RestOfListIsPrefixFree(a, b, x, y);
  }

  /** One key with its value, after the opening quote. */
  lemma {:induction false} MemberIsPrefixFree(a: Members, b: Members, x: string, y: string)
    requires a.Member? && b.Member? && WellFormedMembers(a) && WellFormedMembers(b) && Follows(x) && Follows(y)
    requires Quoted(a.key) + (":" + (Text(a.value) + (RestOfMembers(a.rest) + x))) ==
             Quoted(b.key) + (":" + (Text(b.value) + (RestOfMembers(b.rest) + y)))
    ensures a == b && x == y
    decreases a, 0
  {
    var s, t := RestOfMembers(a.rest) + x, RestOfMembers(b.rest) + y;
    QuotedIsPrefixFree(a.key, b.key, ":" + (Text(a.value) + s), ":" + (Text(b.value) + t));
    SameTail(":", Text(a.value) + s, Text(b.value) + t);
    RestsFollow(Nil, a.rest, x);
    RestsFollow(Nil, b.rest, y);
    TextIsPrefixFree(a.value, b.value, s, t);
    RestOfMembersIsPrefixFree(a.rest, b.rest, x, y);
  }

  lemma Reassociate(a: string, b: string, c: string, d: string, e: string, x: string)
    ensures (a + b + c + d + e) + x == a + (b + (c + (d + (e + x))))
  {
  }

  lemma TextOfMember(k: string, v: Json, rest: Members, x: string)
    ensures Text(Object(Member(k, v, rest))) + x ==
              ['{', QUOTE] + (Quoted(k) + (":" + (Text(v) + (RestOfMembers(rest) + x))))
    ensures RestOfMembers(Member(k, v, rest)) + x ==
              [',', QUOTE] + (Quoted(k) + (":" + (Text(v) + (RestOfMembers(rest) + x))))
  {
    Reassociate(['{', QUOTE], Quoted(k), ":", Text(v), RestOfMembers(rest), x);
    Reassociate([',', QUOTE], Quoted(k), ":", Text(v), RestOfMembers(rest), x);
  }

  lemma ObjectTextStarts(m: Members, x: string)
    ensures |Text(Object(m)) + x| > 1 && ((Text(Object(m)) + x)[1] == '}' <==> m.Empty?)
  {
    match m
    case Empty =>
    case Member(k, v, rest) => assert (Text(Object(m)) + x)[1] == QUOTE;
  }

  lemma {:induction false} ObjectIsPrefixFree(a: Members, b: Members, x: string, y: string)
    requires WellFormedMembers(a) && WellFormedMembers(b) && Follows(x) && Follows(y)
    requires Text(Object(a)) + x == Text(Object(b)) + y
    ensures a == b && x == y
    decreases a, 1
  {
    ObjectTextStarts(a, x);
    ObjectTextStarts(b, y);
    if a.Empty? {
      SameTail("{}", x, y);
    } else {
      TextOfMember(a.key, a.value, a.rest, x);
      TextOfMember(b.key, b.value, b.rest, y);
      SameTail(['{', QUOTE], Quoted(a.key) + (":" + (Text(a.value) + (RestOfMembers(a.rest) + x))),
               Quoted(b.key) + (":" + (Text(b.value) + (RestOfMembers(b.rest) + y))));
      MemberIsPrefixFree(a, b, x, y);
    }
  }

  lemma {:induction false} RestOfMembersIsPrefixFree(a: Members, b: Members, x: string, y: string)
    requires WellFormedMembers(a) && WellFormedMembers(b) && Follows(x) && Follows(y)
    requires RestOfMembers(a) + x == RestOfMembers(b) + y
    ensures a == b && x == y
    decreases a, 1
  {
    RestsFollow(Nil, a, x);
    RestsFollow(Nil, b, y);
    if a.Empty? {
      SameTail("}", x, y);
    } else {
      TextOfMember(a.key, a.value, a.rest, x);
      TextOfMember(b.key, b.value, b.rest, y);
      SameTail([',', QUOTE], Quoted(a.key) + (":" + (Text(a.value) + (RestOfMembers(a.rest) + x))),
               Quoted(b.key) + (":" + (Text(b.value) + (RestOfMembers(b.rest) + y))));
      MemberIsPrefixFree(a, b, x, y);
    }
  }

  /** No two values share a text. */
  lemma TextIsInjective(a: Json, b: Json)
    requires WellFormed(a) && WellFormed(b)
    ensures Text(a) == Text(b) <==> a == b
  {
    if Text(a) == Text(b) {
      assert Text(a) + "" == Text(a) && Text(b) + "" == Text(b);
      TextIsPrefixFree(a, b, "", "");
    }
  }
}

/** `draftPayload` and `normalizePayload`: what a draft stores, and the text by which payloads are compared. */
module DraftPayload {
  import opened JsonValues
  import opened Canonical
  import opened JsonText
  import opened SetFacts

  datatype Kind = Finding | Assessment

  const FINDING_DRAFT_FIELDS := [
    "title", "problem", "entrepreneur_notes", "technical_notes", "category_id", "scope_type", "scope_description",
    "site_ids", "asset_ids", "consequence_level_id", "likelihood_level_id", "priority_level_id",
    "priority_is_overridden", "priority_rationale", "status", "include_in_report", "resolution_notes", "solutions"
  ]

  const ASSESSMENT_DRAFT_FIELDS := [
    "title", "assessment_date", "report_title_override", "scope_type", "scope_description", "introduction",
    "executive_summary", "methodology_notes", "site_ids"
  ]

  function FieldsForKind(kind: Kind): seq<string> {
    match kind
    case Finding => FINDING_DRAFT_FIELDS
    case Assessment => ASSESSMENT_DRAFT_FIELDS
  }

  /** The entries `pickFields` hands to `Object.fromEntries`. */
  function Picked(state: Members, fields: seq<string>): Members {
    if fields == [] then Empty
    else if fields[0] in AsMap(state) then Member(fields[0], AsMap(state)[fields[0]], Picked(state, fields[1..]))
    else Picked(state, fields[1..])
  }

  function Characters(s: string): List {
    if s == "" then Nil else Cons(Str([s[0]]), Characters(s[1..]))
  }

  function ValuesOf(m: Members): List {
    match m
    case Empty => Nil
    case Member(_, v, rest) => Cons(v, ValuesOf(rest))
  }

  /** `Object.values(x ?? {})` */
  function Values(j: Json): List {
    match j
    case Array(items) => items
    case Object(members) => ValuesOf(members)
    case Str(text) => Characters(text)
    case _ => Nil
  }

  /** The values of a text are its characters; of a list its items; of nothing, a flag or a number there are none. */
  lemma {:induction false} ValuesMean(j: Json)
    ensures j.Array? ==> Values(j) == j.items
    ensures j.Str? ==> MeaningOfList(Values(j)) == seq(|j.text|, i requires 0 <= i < |j.text| => StrValue([j.text[i]]))
    ensures j.Null? || j.Bool? || j.Number? ==> Values(j) == Nil
    ensures j.Object? && j.members.Member? ==>
              Values(j) == Cons(j.members.value, Values(Object(j.members.rest)))
    decreases if j.Str? then |j.text| else 0
  {
    if j.Str? && j.text != "" {
      var rest := j.text[1..];
      ValuesMean(Str(rest));
      var meant := seq(|rest|, i requires 0 <= i < |rest| => StrValue([rest[i]]));
      assert MeaningOfList(Values(j)) == [StrValue([j.text[0]])] + meant;
    }
  }

  /** Assignment to a property the object already has. */
  function Assign(m: Members, k: string, v: Json): Members {
    match m
    case Empty => Empty
    case Member(first, w, rest) => if first == k then Member(k, v, rest) else Member(first, w, Assign(rest, k, v))
  }

  function PickFields(state: Members, fields: seq<string>): Members {
    FromEntries(Picked(state, fields), Empty)
  }

  function PayloadOf(isFinding: bool, fields: seq<string>, state: Members): Members {
    var payload := PickFields(state, fields);
    if isFinding && "solutions" in AsMap(payload)
    then Assign(payload, "solutions", Array(Values(AsMap(payload)["solutions"])))
    else payload
  }

  function Payload(kind: Kind, state: Members): Members {
    PayloadOf(kind == Finding, FieldsForKind(kind), state)
  }

  function NormalizePayload(kind: Kind, state: Members): string {
    Text(Normalize(Object(Payload(kind, state))))
  }

  ghost function MeaningOfPicked(isFinding: bool, fields: seq<string>, state: Members): map<string, Value> {
    map f | f in AsMap(state) && f in fields ::
      if isFinding && f == "solutions" then ArrayValue(MeaningOfList(Values(AsMap(state)[f])))
      else Meaning(AsMap(state)[f])
  }

  /** What two payloads must agree on: each picked field, and of a finding's solutions their list. */
  ghost function PickedMeaning(kind: Kind, state: Members): map<string, Value> {
    MeaningOfPicked(kind == Finding, FieldsForKind(kind), state)
  }

  lemma {:induction false} PickedHas(state: Members, fields: seq<string>)
    requires Distinct(fields)
    ensures DistinctKeys(Picked(state, fields))
    ensures forall f :: f in AsMap(Picked(state, fields)) <==> f in AsMap(state) && f in fields
    ensures forall f :: f in AsMap(Picked(state, fields)) ==> AsMap(Picked(state, fields))[f] == AsMap(state)[f]
  {
    if fields != [] {
      PickedHas(state, fields[1..]);
      assert forall f :: f in fields <==> f == fields[0] || f in fields[1..];
    }
  }

  lemma PickedIs(state: Members, fields: seq<string>)
    requires Distinct(fields)
    ensures AsMap(Picked(state, fields)) == map f | f in AsMap(state) && f in fields :: AsMap(state)[f]
    ensures DistinctKeys(Picked(state, fields))
  {
    PickedHas(state, fields);
  }

  const FIELD_LENGTHS := [5, 7, 18, 15, 11, 10, 17, 8, 9, 20, 19, 17, 22, 18, 6, 17, 16, 9]

  const FIELD_LETTERS := "tpetcsssaclpppsirs"

  lemma FieldLengths()
    ensures |FIELD_LENGTHS| == |FINDING_DRAFT_FIELDS|
    ensures forall i :: 0 <= i < |FINDING_DRAFT_FIELDS| ==> |FINDING_DRAFT_FIELDS[i]| == FIELD_LENGTHS[i]
  {
  }

  lemma FieldLetters()
    ensures |FIELD_LETTERS| == |FINDING_DRAFT_FIELDS|
    ensures forall i :: 0 <= i < |FINDING_DRAFT_FIELDS| ==>
              |FINDING_DRAFT_FIELDS[i]| > 0 && FINDING_DRAFT_FIELDS[i][0] == FIELD_LETTERS[i]
  {
  }

  lemma ShapesDiffer()
    ensures |FIELD_LENGTHS| == |FIELD_LETTERS|
    ensures forall i, j :: 0 <= i < j < |FIELD_LENGTHS| ==>
              FIELD_LENGTHS[i] != FIELD_LENGTHS[j] || FIELD_LETTERS[i] != FIELD_LETTERS[j]
  {
  }

  /** No two finding fields share both length and first letter. */
  lemma FindingFieldsAreDistinct()
    ensures Distinct(FINDING_DRAFT_FIELDS)
  {
    FieldLengths();
    FieldLetters();
    ShapesDiffer();
  }

  lemma AssessmentFieldsAreDistinct()
    ensures Distinct(ASSESSMENT_DRAFT_FIELDS)
  {
  }

  lemma FieldsAreDistinct(kind: Kind)
    ensures Distinct(FieldsForKind(kind))
  {
    if kind == Finding {
      FindingFieldsAreDistinct();
    } else {
      AssessmentFieldsAreDistinct();
    }
  }

  lemma PickFieldsIs(state: Members, fields: seq<string>)
    requires Distinct(fields)
    ensures AsMap(PickFields(state, fields)) == map f | f in AsMap(state) && f in fields :: AsMap(state)[f]
    ensures DistinctKeys(PickFields(state, fields))
  {
    PickedIs(state, fields);
    FromEntriesKeepsEntries(Picked(state, fields), Empty);
  }

  lemma {:induction false} AssignReplaces(m: Members, k: string, v: Json)
    requires DistinctKeys(m) && k in AsMap(m)
    ensures AsMap(Assign(m, k, v)) == AsMap(m)[k := v] && DistinctKeys(Assign(m, k, v))
  {
    if m.key != k {
      AssignReplaces(m.rest, k, v);
    }
  }

  lemma {:induction false} ValuesAreWellFormed(j: Json)
    requires WellFormed(j)
    ensures WellFormedList(Values(j))
  {
    match j
    case Object(members) => ValuesOfAreWellFormed(members);
    case Str(text) => CharactersAreWellFormed(text);
    case _ =>
  }

  lemma {:induction false} ValuesOfAreWellFormed(m: Members)
    requires WellFormedMembers(m)
    ensures WellFormedList(ValuesOf(m))
  {
    if m.Member? {
      ValuesOfAreWellFormed(m.rest);
    }
  }

  lemma {:induction false} CharactersAreWellFormed(s: string)
    ensures WellFormedList(Characters(s))
  {
    if s != "" {
      CharactersAreWellFormed(s[1..]);
    }
  }

  function Listed(isFinding: bool, f: string, v: Json): Json {
    if isFinding && f == "solutions" then Array(Values(v)) else v
  }

  lemma PayloadEntries(isFinding: bool, fields: seq<string>, state: Members)
    requires Distinct(fields)
    ensures DistinctKeys(PayloadOf(isFinding, fields, state))
    ensures AsMap(PayloadOf(isFinding, fields, state)) ==
            map f | f in AsMap(state) && f in fields :: Listed(isFinding, f, AsMap(state)[f])
  {
    PickFieldsIs(state, fields);
    var picked := PickFields(state, fields);
    if isFinding && "solutions" in AsMap(picked) {
      AssignReplaces(picked, "solutions", Array(Values(AsMap(picked)["solutions"])));
    }
  }

  lemma PayloadOfIs(isFinding: bool, fields: seq<string>, state: Members)
    requires WellFormedMembers(state) && Distinct(fields)
    ensures WellFormed(Object(PayloadOf(isFinding, fields, state)))
    ensures Meaning(Object(PayloadOf(isFinding, fields, state))) ==
              ObjectValue(MeaningOfPicked(isFinding, fields, state))
  {
    var payload := PayloadOf(isFinding, fields, state);
    PayloadEntries(isFinding, fields, state);
    MembersAreDistinct(state);
    forall f | f in AsMap(payload) ensures WellFormed(AsMap(payload)[f]) {
      ValuesAreWellFormed(AsMap(state)[f]);
    }
    DistinctIsWellFormed(payload);
    MeaningIsPointwise(payload);
    assert MeaningOfMembers(payload) == MeaningOfPicked(isFinding, fields, state);
  }

  /** The payload object holds exactly the picked fields, with solutions as a list. */
  lemma PayloadIs(kind: Kind, state: Members)
    requires WellFormedMembers(state)
    ensures WellFormed(Object(Payload(kind, state)))
    ensures Meaning(Object(Payload(kind, state))) == ObjectValue(PickedMeaning(kind, state))
  {
    FieldsAreDistinct(kind);
    PayloadOfIs(kind == Finding, FieldsForKind(kind), state);
  }

  /** Two states have the same payload text exactly when their picked fields agree up to the order of keys. */
  lemma SamePayloadText(kind: Kind, a: Members, b: Members)
    requires WellFormedMembers(a) && WellFormedMembers(b)
    ensures NormalizePayload(kind, a) == NormalizePayload(kind, b) <==> PickedMeaning(kind, a) == PickedMeaning(kind, b)
  {
    PayloadIs(kind, a);
    PayloadIs(kind, b);
    var x, y := Object(Payload(kind, a)), Object(Payload(kind, b));
    NormalizeKeepsMeaning(x);
    NormalizeKeepsMeaning(y);
    TextIsInjective(Normalize(x), Normalize(y));
    NormalFormsDecideMeaning(x, y);
  }

  lemma PickingAgain(isFinding: bool, fields: seq<string>, state: Members)
    requires WellFormedMembers(state) && Distinct(fields)
    ensures MeaningOfPicked(isFinding, fields, PayloadOf(isFinding, fields, state)) ==
              MeaningOfPicked(isFinding, fields, state)
  {
    PayloadEntries(isFinding, fields, state);
    var payload := PayloadOf(isFinding, fields, state);
    var a, b := MeaningOfPicked(isFinding, fields, payload), MeaningOfPicked(isFinding, fields, state);
    assert a.Keys == b.Keys;
    forall f | f in b ensures a[f] == b[f] {
      assert AsMap(payload)[f] == Listed(isFinding, f, AsMap(state)[f]);
    }
  }

  /** A stored payload is compared like the state it was taken from. */
  lemma PayloadOfPayload(kind: Kind, state: Members)
    requires WellFormedMembers(state)
    ensures NormalizePayload(kind, Payload(kind, state)) == NormalizePayload(kind, state)
  {
    PayloadIs(kind, state);
    FieldsAreDistinct(kind);
    PickingAgain(kind == Finding, FieldsForKind(kind), state);
    SamePayloadText(kind, Payload(kind, state), state);
  }
}
