/** Decimal numerals, as `%d` and `%06d` print them and an integer cast reads them. */
module Numerals {

  predicate IsDigit(c: char) {
    '0' <= c <= '9'
  }

  predicate AllDigits(s: string) {
    forall i :: 0 <= i < |s| ==> IsDigit(s[i])
  }

  function DigitOf(n: nat): (c: char)
    requires n < 10
    ensures IsDigit(c) && c as int - '0' as int == n
  {
    '0' + n as char
  }

  function Print(n: nat): string {
    if n < 10 then [DigitOf(n)] else Print(n / 10) + [DigitOf(n % 10)]
  }

  function Number(s: string): nat
    requires AllDigits(s)
  {
    if s == "" then 0
    else
      var last := s[|s| - 1] as int - '0' as int;
      10 * Number(s[..|s| - 1]) + last
  }

  lemma {:induction false} NumberOfPrint(n: nat)
    ensures AllDigits(Print(n)) && |Print(n)| > 0 && Number(Print(n)) == n
    ensures n > 0 ==> Print(n)[0] != '0'
  {
    if n < 10 {
      assert Print(n)[..0] == "";
    } else {
      NumberOfPrint(n / 10);
      assert Print(n)[..|Print(n)| - 1] == Print(n / 10);
    }
  }

  lemma {:induction false} NumberPositive(s: string)
    requires AllDigits(s) && s != "" && s[0] != '0'
    ensures Number(s) > 0
  {
    if |s| > 1 {
      NumberPositive(s[..|s| - 1]);
    }
  }

  lemma {:induction false} PrintOfNumber(s: string)
    requires AllDigits(s) && s != "" && s[0] != '0'
    ensures Print(Number(s)) == s
  {
    var front, last := s[..|s| - 1], s[|s| - 1];
    assert s == front + [last];
    if front == "" {
      assert Number(front) == 0;
    } else {
      NumberPositive(front);
      PrintOfNumber(front);
    }
  }

  /** `%0<width>d` of a number that fits the width. */
  function Padded(n: nat, width: nat): string {
    if width == 0 then "" else Padded(n / 10, width - 1) + [DigitOf(n % 10)]
  }

  function Power10(k: nat): nat {
    if k == 0 then 1 else 10 * Power10(k - 1)
  }

  lemma {:induction false} NumberOfPadded(n: nat, width: nat)
    requires n < Power10(width)
    ensures |Padded(n, width)| == width && AllDigits(Padded(n, width)) && Number(Padded(n, width)) == n
  {
    if width > 0 {
      NumberOfPadded(n / 10, width - 1);
      assert Padded(n, width)[..width - 1] == Padded(n / 10, width - 1);
    }
  }

  lemma {:induction false} PaddedOfNumber(s: string)
    requires AllDigits(s)
    ensures Number(s) < Power10(|s|) && Padded(Number(s), |s|) == s
  {
    if s != "" {
      PaddedOfNumber(s[..|s| - 1]);
      assert s == s[..|s| - 1] + [s[|s| - 1]];
    }
  }

  /** Byte order of strings, as a string sort uses it. */
  predicate Less(s: string, t: string) {
    t != "" && (s == "" || s[0] < t[0] || (s[0] == t[0] && Less(s[1..], t[1..])))
  }

  lemma {:induction false} LessIsStrict(a: string, b: string, c: string)
    ensures !Less(a, a)
    ensures Less(a, b) && Less(b, c) ==> Less(a, c)
    ensures a == b || Less(a, b) || Less(b, a)
    decreases |a|
  {
    if a != "" && b != "" && a[0] == b[0] {
      LessIsStrict(a[1..], b[1..], if c == "" then "" else c[1..]);
      assert a == [a[0]] + a[1..] && b == [b[0]] + b[1..];
    } else if a != "" {
      LessIsStrict(a[1..], a[1..], "");
    }
  }

  lemma {:induction false} LessAtTheEnd(s: string, t: string, a: char, b: char)
    requires |s| == |t|
    ensures Less(s + [a], t + [b]) <==> Less(s, t) || (s == t && a < b)
  {
    if s == "" {
      assert (s + [a])[1..] == "" && (t + [b])[1..] == "";
    } else {
      LessAtTheEnd(s[1..], t[1..], a, b);
      assert (s + [a])[1..] == s[1..] + [a] && (t + [b])[1..] == t[1..] + [b];
      assert s == [s[0]] + s[1..] && t == [t[0]] + t[1..];
    }
  }

  lemma {:induction false} SamePrefixLess(p: string, s: string, t: string)
    ensures Less(p + s, p + t) <==> Less(s, t)
  {
    if p == "" {
      assert p + s == s && p + t == t;
    } else {
      SamePrefixLess(p[1..], s, t);
      assert (p + s)[1..] == p[1..] + s && (p + t)[1..] == p[1..] + t;
    }
  }

  /** For numerals of one length, byte order is numeric order. */
  lemma {:induction false} LessIsNumeric(s: string, t: string)
    requires |s| == |t| && AllDigits(s) && AllDigits(t)
    ensures Less(s, t) <==> Number(s) < Number(t)
    ensures s == t <==> Number(s) == Number(t)
  {
    if s != "" {
      var fs, ft, a, b := s[..|s| - 1], t[..|t| - 1], s[|s| - 1], t[|t| - 1];
      LessIsNumeric(fs, ft);
      LessAtTheEnd(fs, ft, a, b);
      assert s == fs + [a] && t == ft + [b];
    }
  }
}

/** The block of finding references at the end of a quote row's description. */
module QuoteReferences {
  import opened Wrappers
  import opened Numerals
  import opened PhpStrings
  import opened SetFacts

  const HEAD := "Riferimenti AssestMe: "

  // ---------- references ----------

  predicate Representable(id: int) {
    1 <= id <= 999999
  }

  function FindingReference(id: int): (r: Result<string, int>)
    ensures r.Err? <==> !Representable(id)
    ensures r.Ok? ==> IsReference(r.value) && IdIn(r.value) == id
  {
    if Representable(id) then ReferenceParses(id); Ok("F-" + Padded(id, 6)) else Err(id)
  }

  predicate IsReference(s: string) {
    |s| == 8 && s[..2] == "F-" && AllDigits(s[2..])
  }

  function IdIn(reference: string): nat
    requires IsReference(reference)
  {
    Number(reference[2..])
  }

  lemma ReferenceParses(id: int)
    requires Representable(id)
    ensures IsReference("F-" + Padded(id, 6)) && IdIn("F-" + Padded(id, 6)) == id
  {
    assert Power10(6) == 1000000;
    NumberOfPadded(id, 6);
    assert ("F-" + Padded(id, 6))[2..] == Padded(id, 6);
  }

  lemma ReferencesOrder(s: string, t: string)
    requires IsReference(s) && IsReference(t)
    ensures Less(s, t) <==> IdIn(s) < IdIn(t)
    ensures s == t <==> IdIn(s) == IdIn(t)
  {
    LessIsNumeric(s[2..], t[2..]);
    SamePrefixLess("F-", s[2..], t[2..]);
    assert s == "F-" + s[2..] && t == "F-" + t[2..];
  }

  // ---------- text ----------

  /** The class `\s`. */
  predicate Space(c: char) {
    c == ' ' || c == '\t' || c == '\n' || c == '\r' || c == '\U{C}' || c == '\U{B}'
  }

  predicate AllSpace(s: string) {
    forall i :: 0 <= i < |s| ==> Space(s[i])
  }

  // ---------- the block ----------

  /** After a reference: more references, then only white space. */
  predicate AfterReference(s: string) {
    AllSpace(s) || (|s| >= 10 && s[..2] == ", " && IsReference(s[2..10]) && AfterReference(s[10..]))
  }

  predicate IsBlock(s: string) {
    && HEAD <= s
    && |s| >= |HEAD| + 8
    && IsReference(s[|HEAD|..|HEAD| + 8])
    && AfterReference(s[|HEAD| + 8..])
  }

  /** The pattern matches at `p`, either at the very start or after an empty line. */
  predicate BlockAt(text: string, p: nat) {
    (p == 0 && IsBlock(text)) || (p + 2 <= |text| && text[p..p + 2] == "\n\n" && IsBlock(text[p + 2..]))
  }

  /** Leftmost match at or after `p`. */
  function Search(text: string, p: nat): (r: Option<nat>)
    ensures r.Some? ==> p <= r.value <= |text| && BlockAt(text, r.value)
    ensures r.None? ==> forall q :: p <= q <= |text| ==> !BlockAt(text, q)
    decreases |text| + 1 - p
  {
    if p > |text| then None
    else if BlockAt(text, p) then Some(p)
    else Search(text, p + 1)
  }

  predicate HasBlock(text: string) {
    Search(text, 0).Some?
  }

  function RemoveBlock(text: string): string {
    match Search(text, 0)
    case Some(p) => text[..p]
    case None => text
  }

  function DescriptionWithoutReferences(description: string): string {
    Trim(RemoveBlock(description))
  }

  function References(ids: seq<int>): (r: Result<seq<string>, int>)
    ensures r.Ok? <==> forall id :: id in ids ==> Representable(id)
    ensures r.Ok? ==> |r.value| == |ids|
    ensures r.Ok? ==> forall i :: 0 <= i < |ids| ==> IsReference(r.value[i]) && IdIn(r.value[i]) == ids[i]
  {
    if ids == [] then Ok([])
    else match FindingReference(ids[0])
      case Err(e) => assert ids[0] in ids; Err(e)
      case Ok(first) =>
        match References(ids[1..])
        case Err(e) => assert forall id :: id in ids[1..] ==> id in ids; Err(e)
        case Ok(rest) => assert ids == [ids[0]] + ids[1..]; Ok([first] + rest)
  }

  /** First occurrences, in order. */
  function Unique<T(==)>(s: seq<T>): (r: seq<T>)
    ensures Distinct(r) && Elements(r) == Elements(s)
  {
    if s == [] then []
    else
      var front := Unique(s[..|s| - 1]);
      var last := s[|s| - 1];
      assert s == s[..|s| - 1] + [last];
      ElementsAppend(s[..|s| - 1], last);
      if last in front then assert last in Elements(front); front
      else ElementsAppend(front, last); front + [last]
  }

  function Insert(x: string, sorted: seq<string>): seq<string> {
    if sorted == [] || Less(x, sorted[0]) then [x] + sorted else [sorted[0]] + Insert(x, sorted[1..])
  }

  function Sort(s: seq<string>): seq<string> {
    if s == [] then [] else Insert(s[0], Sort(s[1..]))
  }

  function CommaList(references: seq<string>): string {
    if references == [] then ""
    else if |references| == 1 then references[0]
    else references[0] + ", " + CommaList(references[1..])
  }

  function DescriptionWithReferences(description: string, ids: seq<int>): Result<string, int> {
    var body := DescriptionWithoutReferences(description);
    match References(Unique(ids))
    case Err(e) => Err(e)
    case Ok(unsorted) =>
      var references := Sort(unsorted);
      if references == [] then Ok(Trim(body))
      else
        var line := HEAD + CommaList(references);
        Ok(if Trim(body) == "" then line else Trim(body) + "\n\n" + line)
  }

  // ---------- a text has at most one block ----------

  lemma {:induction false} NoCapitalR(s: string, i: nat)
    requires AfterReference(s) && i < |s|
    ensures s[i] != 'R'
  {
    if !AllSpace(s) && i >= 10 {
      NoCapitalR(s[10..], i - 10);
    } else if !AllSpace(s) {
      var reference := s[2..10];
      assert s[2] == reference[0] == reference[..2][0] && s[3] == reference[1] == reference[..2][1];
      assert i >= 4 ==> s[i] == reference[2..][i - 4];
      assert i < 2 ==> s[i] == s[..2][i];
    }
  }

  lemma OneCapitalR(s: string, i: nat)
    requires IsBlock(s) && 0 < i < |s|
    ensures s[i] != 'R'
  {
    if i < |HEAD| {
      assert s[i] == HEAD[i];
    } else if i < |HEAD| + 8 {
      var reference := s[|HEAD|..|HEAD| + 8];
      assert s[i] == reference[i - |HEAD|];
      assert i < |HEAD| + 2 ==> s[i] == reference[..2][i - |HEAD|];
      assert i >= |HEAD| + 2 ==> s[i] == reference[2..][i - |HEAD| - 2];
    } else {
      NoCapitalR(s[|HEAD| + 8..], i - |HEAD| - 8);
    }
  }

  lemma BlockStartsWithR(s: string)
    requires IsBlock(s)
    ensures s[0] == 'R'
  {
    assert s[0] == HEAD[0];
  }

  lemma EarlierBlockIsTheOnlyOne(text: string, p: nat, q: nat)
    requires BlockAt(text, p) && p < q <= |text|
    ensures !BlockAt(text, q)
  {
    if BlockAt(text, q) {
      BlockStartsWithR(text[q + 2..]);
      if p == 0 && IsBlock(text) {
        OneCapitalR(text, q + 2);
      } else {
        OneCapitalR(text[p + 2..], q - p);
      }
    }
  }

  /** Leftmost or not, there is only one place the pattern can match. */
  lemma SearchFinds(text: string, p: nat)
    requires p <= |text| && BlockAt(text, p)
    ensures Search(text, 0) == Some(p)
  {
    var found := Search(text, 0);
    if found.Some? && found.value < p {
      EarlierBlockIsTheOnlyOne(text, found.value, p);
    }
    if found.Some? && found.value > p {
      EarlierBlockIsTheOnlyOne(text, p, found.value);
    }
  }

  // ---------- what is written ----------

  ghost predicate AllReferences(references: seq<string>) {
    forall i :: 0 <= i < |references| ==> IsReference(references[i])
  }

  /** Strictly increasing byte order, so no reference twice. */
  ghost predicate Increasing(references: seq<string>) {
    && AllReferences(references)
    && forall i, j :: 0 <= i < j < |references| ==> IdIn(references[i]) < IdIn(references[j])
  }

  lemma {:induction false} InsertElements(x: string, sorted: seq<string>)
    ensures Elements(Insert(x, sorted)) == Elements(sorted) + {x}
  {
    if sorted == [] || Less(x, sorted[0]) {
      ElementsCons(x, sorted);
    } else {
      InsertElements(x, sorted[1..]);
      ElementsCons(sorted[0], Insert(x, sorted[1..]));
      ElementsCons(sorted[0], sorted[1..]);
      assert sorted == [sorted[0]] + sorted[1..];
    }
  }

  lemma {:induction false} InsertKeepsOrder(x: string, sorted: seq<string>)
    requires Increasing(sorted) && IsReference(x) && x !in sorted
    ensures Increasing(Insert(x, sorted)) && Elements(Insert(x, sorted)) == Elements(sorted) + {x}
  {
    InsertElements(x, sorted);
    if sorted != [] {
      ReferencesOrder(x, sorted[0]);
      if !Less(x, sorted[0]) {
        InsertKeepsOrder(x, sorted[1..]);
        AllAfter(sorted[0], Insert(x, sorted[1..]), x, sorted[1..]);
      }
    }
  }

  lemma AllAfter(first: string, rest: seq<string>, x: string, others: seq<string>)
    requires AllReferences(rest) && AllReferences(others) && IsReference(first) && IsReference(x)
    requires Elements(rest) == Elements(others) + {x} && IdIn(first) < IdIn(x)
    requires forall k :: 0 <= k < |others| ==> IdIn(first) < IdIn(others[k])
    ensures forall j :: 0 <= j < |rest| ==> IdIn(first) < IdIn(rest[j])
  {
    forall j | 0 <= j < |rest| ensures IdIn(first) < IdIn(rest[j]) {
      assert rest[j] in Elements(rest);
      if rest[j] != x {
        assert rest[j] in Elements(others);
      }
    }
  }

  lemma ElementsCons(x: string, s: seq<string>)
    ensures Elements([x] + s) == Elements(s) + {x}
  {
    var t := [x] + s;
    assert t[0] == x;
    forall y | y in Elements(s) ensures y in Elements(t) {
      var i :| 0 <= i < |s| && s[i] == y;
      assert t[i + 1] == y;
    }
  }

  lemma {:induction false} SortSorts(s: seq<string>)
    requires AllReferences(s) && Distinct(s)
    ensures Increasing(Sort(s)) && Elements(Sort(s)) == Elements(s)
  {
    if s != [] {
      var rest := s[1..];
      SortSorts(rest);
      assert s == [s[0]] + rest;
      ElementsCons(s[0], rest);
      assert forall x :: x in Sort(rest) <==> x in Elements(Sort(rest));
      InsertKeepsOrder(s[0], Sort(rest));
    }
  }

  function IdsIn(references: seq<string>): (r: seq<int>)
    requires AllReferences(references)
    ensures |r| == |references| && forall i :: 0 <= i < |r| ==> r[i] == IdIn(references[i])
  {
    seq(|references|, i requires 0 <= i < |references| => IdIn(references[i]))
  }

  ghost predicate StrictlyIncreasing(ids: seq<int>) {
    forall i, j :: 0 <= i < j < |ids| ==> ids[i] < ids[j]
  }

  /** The references printed for a list of ids. */
  function SortedReferences(ids: seq<int>): Result<seq<string>, int> {
    match References(Unique(ids))
    case Err(e) => Err(e)
    case Ok(unsorted) => Ok(Sort(unsorted))
  }

  /** They are the distinct ids in increasing order. */
  lemma SortedReferencesAre(ids: seq<int>)
    ensures SortedReferences(ids).Ok? <==> forall id :: id in ids ==> Representable(id)
    ensures SortedReferences(ids).Ok? ==>
              var references := SortedReferences(ids).value;
              Increasing(references) && StrictlyIncreasing(IdsIn(references)) &&
              Elements(IdsIn(references)) == Elements(ids)
  {
    var distinct := Unique(ids);
    assert forall id :: id in ids <==> id in Elements(ids);
    assert forall id :: id in distinct <==> id in Elements(distinct);
    if References(distinct).Ok? {
      var unsorted := References(distinct).value;
      assert Distinct(unsorted);
      SortSorts(unsorted);
      var references := Sort(unsorted);
      SameIds(unsorted, references);
      assert IdsIn(unsorted) == distinct;
    }
  }

  lemma SameIds(a: seq<string>, b: seq<string>)
    requires AllReferences(a) && AllReferences(b) && Elements(a) == Elements(b)
    ensures Elements(IdsIn(a)) == Elements(IdsIn(b))
  {
    SameIdsOneWay(a, b);
    SameIdsOneWay(b, a);
  }

  lemma SameIdsOneWay(a: seq<string>, b: seq<string>)
    requires AllReferences(a) && AllReferences(b) && Elements(a) <= Elements(b)
    ensures Elements(IdsIn(a)) <= Elements(IdsIn(b))
  {
    forall id | id in Elements(IdsIn(a)) ensures id in Elements(IdsIn(b)) {
      var i :| 0 <= i < |a| && IdIn(a[i]) == id;
      assert a[i] in Elements(a);
      var j :| 0 <= j < |b| && b[j] == a[i];
      assert IdsIn(b)[j] == id;
    }
  }

  lemma {:induction false} CommaListFollows(references: seq<string>)
    requires AllReferences(references) && references != []
    ensures |CommaList(references)| >= 8 && CommaList(references)[..8] == references[0]
    ensures AfterReference(CommaList(references)[8..])
  {
    if |references| > 1 {
      var rest := CommaList(references[1..]);
      CommaListFollows(references[1..]);
      var after := CommaList(references)[8..];
      assert after == ", " + rest;
      assert after[2..10] == rest[..8] && after[10..] == rest[8..];
    }
  }

  lemma LineIsBlock(references: seq<string>)
    requires AllReferences(references) && references != []
    ensures IsBlock(HEAD + CommaList(references))
  {
    CommaListFollows(references);
    var line := HEAD + CommaList(references);
    assert line[|HEAD|..] == CommaList(references);
    assert line[|HEAD|..|HEAD| + 8] == CommaList(references)[..8];
    assert line[|HEAD| + 8..] == CommaList(references)[8..];
  }

  lemma StripsABlock(line: string)
    requires IsBlock(line)
    ensures DescriptionWithoutReferences(line) == ""
  {
    SearchFinds(line, 0);
    assert RemoveBlock(line) == line[..0] == "";
    TrimTrims("");
  }

  lemma StripsABlockAfter(body: string, line: string)
    requires Trimmed(body) && IsBlock(line)
    ensures DescriptionWithoutReferences(body + "\n\n" + line) == body
  {
    var text := body + "\n\n" + line;
    assert text[|body|..|body| + 2] == "\n\n" && text[|body| + 2..] == line;
    SearchFinds(text, |body|);
    assert RemoveBlock(text) == text[..|body|] == body;
    TrimTrims(body);
  }

  lemma SomeIdSomeReference(ids: seq<int>)
    requires SortedReferences(ids).Ok?
    ensures SortedReferences(ids).value == [] <==> ids == []
  {
    SortedReferencesAre(ids);
    var references := SortedReferences(ids).value;
    if ids != [] {
      assert ids[0] in Elements(ids);
    }
    if references != [] {
      assert IdsIn(references)[0] in Elements(IdsIn(references));
    }
  }

  // ---------- laws ----------

  /** Adding references fails exactly for an id that six digits cannot show. */
  lemma AddFailsExactlyForUnrepresentable(d: string, ids: seq<int>)
    ensures DescriptionWithReferences(d, ids).Ok? <==> forall id :: id in ids ==> Representable(id)
  {
    SortedReferencesAre(ids);
  }

  /** What is written for a non-empty list of ids. */
  lemma Written(d: string, ids: seq<int>)
    requires ids != [] && DescriptionWithReferences(d, ids).Ok?
    ensures SortedReferences(ids).Ok? && SortedReferences(ids).value != []
    ensures Trimmed(DescriptionWithoutReferences(d))
    ensures var body, line := DescriptionWithoutReferences(d), HEAD + CommaList(SortedReferences(ids).value);
            && IsBlock(line)
            && DescriptionWithReferences(d, ids).value == if body == "" then line else body + "\n\n" + line
  {
    TrimTrims(RemoveBlock(d));
    TrimTrims(DescriptionWithoutReferences(d));
    SortedReferencesAre(ids);
    SomeIdSomeReference(ids);
    LineIsBlock(SortedReferences(ids).value);
  }

  /** Stripping after adding is stripping. */
  lemma StripAfterAdd(d: string, ids: seq<int>)
    requires ids != [] && DescriptionWithReferences(d, ids).Ok?
    ensures DescriptionWithoutReferences(DescriptionWithReferences(d, ids).value) == DescriptionWithoutReferences(d)
  {
    Written(d, ids);
    var body, line := DescriptionWithoutReferences(d), HEAD + CommaList(SortedReferences(ids).value);
    if body == "" {
      StripsABlock(line);
    } else {
      StripsABlockAfter(body, line);
    }
  }

  /** Adding B after adding A is adding B. */
  lemma LastAddWins(d: string, a: seq<int>, b: seq<int>)
    requires a != [] && DescriptionWithReferences(d, a).Ok?
    ensures DescriptionWithReferences(DescriptionWithReferences(d, a).value, b) == DescriptionWithReferences(d, b)
  {
    StripAfterAdd(d, a);
  }

  // ---------- stripping twice ----------

  lemma StripOfTrimmed(body: string)
    requires Trimmed(body)
    ensures DescriptionWithoutReferences(body) == body <==> !HasBlock(body)
  {
    TrimTrims(body);
    TrimTrims(RemoveBlock(body));
  }

  predicate AllTrimmable(s: string) {
    forall i :: 0 <= i < |s| ==> Trimmable(s[i])
  }

  /** A block from `q` to `r` with nothing but trimmable characters behind it, at the start or after an empty line. */
  predicate EndsWithBlock(text: string, q: nat, r: nat) {
    && q <= r <= |text|
    && IsBlock(text[q..r])
    && AllTrimmable(text[r..])
    && (AllTrimmable(text[..q]) || (q >= 2 && text[q - 2..q] == "\n\n"))
  }

  /** The text ends in a block once it is trimmed. */
  ghost predicate EndsInBlock(text: string) {
    exists q, r :: EndsWithBlock(text, q, r)
  }

  lemma {:induction false} TrimLeftSlices(s: string) returns (a: nat)
    ensures a <= |s| && TrimLeft(s) == s[a..] && AllTrimmable(s[..a])
    ensures a < |s| ==> !Trimmable(s[a])
  {
    a := 0;
    if s != "" && Trimmable(s[0]) {
      var n := TrimLeftSlices(s[1..]);
      a := n + 1;
      assert s[1..][n..] == s[a..];
      assert s[..a] == [s[0]] + s[1..][..n];
    }
  }

  lemma {:induction false} TrimRightSlices(s: string) returns (b: nat)
    ensures b <= |s| && TrimRight(s) == s[..b] && AllTrimmable(s[b..])
    ensures b > 0 ==> !Trimmable(s[b - 1])
  {
    b := |s|;
    if s != "" && Trimmable(s[|s| - 1]) {
      var front := s[..|s| - 1];
      b := TrimRightSlices(front);
      assert front[..b] == s[..b];
      forall i | 0 <= i < |s| - b ensures Trimmable(s[b..][i]) {
        if i < |front| - b {
          assert s[b..][i] == front[b..][i];
        }
      }
    }
  }

  lemma TrimSlices(s: string) returns (a: nat, b: nat)
    ensures a <= b <= |s| && Trim(s) == s[a..b] && AllTrimmable(s[..a]) && AllTrimmable(s[b..])
    ensures a < b ==> !Trimmable(s[a]) && !Trimmable(s[b - 1])
  {
    a := TrimLeftSlices(s);
    var n := TrimRightSlices(s[a..]);
    b := a + n;
    assert s[a..][n..] == s[b..] && s[a..][..n] == s[a..b];
  }

  lemma TrimmableHead(s: string, a: nat, i: nat)
    requires a <= |s| && i < |s| && AllTrimmable(s[..a])
    ensures i < a ==> Trimmable(s[i])
  {
    if i < a {
      assert s[..a][i] == s[i];
    }
  }

  lemma TrimmableTail(s: string, b: nat, i: nat)
    requires b <= |s| && i < |s| && AllTrimmable(s[b..])
    ensures b <= i ==> Trimmable(s[i])
  {
    if b <= i {
      assert s[b..][i - b] == s[i];
    }
  }

  /** Trimmable characters at the end of a block can be cut off. */
  lemma {:induction false} AfterReferenceCut(s: string, b: nat)
    requires AfterReference(s) && b <= |s| && AllTrimmable(s[b..])
    ensures AfterReference(s[..b])
  {
    if !AllSpace(s) {
      var reference := s[2..10];
      assert s[9] == reference[2..][5];
      TrimmableTail(s, b, 9);
      assert s[10..][b - 10..] == s[b..];
      AfterReferenceCut(s[10..], b - 10);
      assert s[10..][..b - 10] == s[..b][10..] && s[..b][..2] == s[..2] && s[..b][2..10] == reference;
    }
  }

  lemma BlockCut(s: string, b: nat)
    requires IsBlock(s) && b <= |s| && AllTrimmable(s[b..])
    ensures IsBlock(s[..b])
  {
    var n := |HEAD| + 8;
    var reference := s[|HEAD|..n];
    assert s[n - 1] == reference[2..][5];
    TrimmableTail(s, b, n - 1);
    assert s[n..][b - n..] == s[b..];
    AfterReferenceCut(s[n..], b - n);
    assert s[n..][..b - n] == s[..b][n..] && s[..b][|HEAD|..n] == reference;
  }

  /** A block keeps being one without the trimmable characters behind it. */
  lemma BlockEndsAt(text: string, b: nat, q: nat, r: nat)
    requires q <= b <= r <= |text| && IsBlock(text[q..r]) && AllTrimmable(text[b..])
    ensures IsBlock(text[q..b])
  {
    SliceOfSlice(text, q, r, b - q, r - q);
    SliceOfSlice(text, q, r, 0, b - q);
    assert text[q..r][b - q..] == text[b..r];
    forall i | 0 <= i < r - b ensures Trimmable(text[b..r][i]) {
      assert text[b..r][i] == text[b..][i];
    }
    BlockCut(text[q..r], b - q);
    assert text[q..r][..b - q] == text[q..b];
  }

  lemma BlockInside(text: string, a: nat, b: nat, q: nat)
    requires a <= q <= b <= |text| && IsBlock(text[q..b])
    requires q == a || (q - 2 >= a && text[q - 2..q] == "\n\n")
    ensures HasBlock(text[a..b])
  {
    if q == a {
      SearchFinds(text[a..b], 0);
    } else {
      var p := q - 2 - a;
      SliceOfSlice(text, a, b, p, p + 2);
      SliceOfSlice(text, a, b, p + 2, b - a);
      assert text[a..b][p + 2..] == text[q..b];
      SearchFinds(text[a..b], p);
    }
  }

  lemma TrimmedHasBlock(text: string, a: nat, b: nat, q: nat, r: nat)
    requires EndsWithBlock(text, q, r) && a <= b <= |text| && AllTrimmable(text[..a]) && AllTrimmable(text[b..])
    requires a < b ==> !Trimmable(text[a]) && !Trimmable(text[b - 1])
    ensures HasBlock(text[a..b])
  {
    BlockStartsWithR(text[q..r]);
    assert text[q] == 'R';
    TrimmableHead(text, a, q);
    TrimmableTail(text, b, q);
    TrimmableTail(text, r, b - 1);
    BlockEndsAt(text, b, q, r);
    if q > a {
      assert text[..q][a] == text[a];
      assert text[q - 2..q][0] == text[q - 2] && text[q - 2..q][1] == text[q - 1];
    }
    BlockInside(text, a, b, q);
  }

  lemma SliceOfSlice(s: string, a: nat, b: nat, i: nat, j: nat)
    requires a <= b <= |s| && i <= j <= b - a
    ensures s[a..b][i..j] == s[a + i..a + j]
  {
    var x, y := s[a..b][i..j], s[a + i..a + j];
    forall k | 0 <= k < j - i ensures x[k] == y[k] {
      assert s[a..b][i + k] == s[a + i + k];
    }
  }

  lemma BlockInTrimmed(text: string, a: nat, b: nat, p: nat)
    requires a <= b <= |text| && AllTrimmable(text[..a]) && AllTrimmable(text[b..])
    requires p <= b - a && BlockAt(text[a..b], p)
    ensures EndsInBlock(text)
  {
    if p == 0 && IsBlock(text[a..b]) {
      assert EndsWithBlock(text, a, b);
    } else {
      var q := a + p + 2;
      SliceOfSlice(text, a, b, p, p + 2);
      SliceOfSlice(text, a, b, p + 2, b - a);
      assert text[a..b][p + 2..] == text[q..b];
      assert EndsWithBlock(text, q, b);
    }
  }

  /** A trimmed text has a block exactly when the text ends in one. */
  lemma TrimHasBlockExactly(text: string)
    ensures HasBlock(Trim(text)) <==> EndsInBlock(text)
  {
    var a, b := TrimSlices(text);
    if HasBlock(text[a..b]) {
      BlockInTrimmed(text, a, b, Search(text[a..b], 0).value);
    }
    if EndsInBlock(text) {
      var q, r :| EndsWithBlock(text, q, r);
      TrimmedHasBlock(text, a, b, q, r);
    }
  }

  /**
    With no ids, stripping after adding strips a second time.  It gives the same
    text exactly when what stands before the block of the description does not
    end in another one, or, without a block, the description does not end in one
    that only trimming uncovers.
   */
  lemma StripAfterAddingNothing(d: string)
    ensures DescriptionWithReferences(d, []) == Ok(DescriptionWithoutReferences(d))
    ensures DescriptionWithoutReferences(DescriptionWithoutReferences(d)) == DescriptionWithoutReferences(d) <==>
              && (forall p :: 0 <= p <= |d| && BlockAt(d, p) ==> !EndsInBlock(d[..p]))
              && (EndsInBlock(d) ==> exists p :: 0 <= p <= |d| && BlockAt(d, p))
  {
    var body := DescriptionWithoutReferences(d);
    TrimTrims(RemoveBlock(d));
    TrimTrims(body);
    StripOfTrimmed(body);
    assert Unique<int>([]) == [];
    TrimHasBlockExactly(RemoveBlock(d));
    if HasBlock(d) {
      forall p | 0 <= p <= |d| && BlockAt(d, p) ensures Search(d, 0) == Some(p) {
        SearchFinds(d, p);
      }
    }
  }

  /** Such a text: two blocks, of which one strip removes one. */
  lemma TwoBlocksNeedTwoStrips()
    ensures var first := HEAD + "F-000001";
            && DescriptionWithoutReferences(first + "\n\n" + HEAD + "F-000002") == first
            && DescriptionWithoutReferences(first) == ""
  {
    var first, one, two := HEAD + "F-000001", ["F-000001"], ["F-000002"];
    LineIsBlock(one);
    LineIsBlock(two);
    LastOfLine();
    StripsABlock(first);
    StripsABlockAfter(first, HEAD + "F-000002");
    assert first + "\n\n" + HEAD + "F-000002" == first + "\n\n" + (HEAD + "F-000002");
  }

  lemma LastOfLine()
    ensures Trimmed(HEAD + "F-000001")
  {
    var line := HEAD + "F-000001";
    assert line[0] == HEAD[0] && line[|line| - 1] == "F-000001"[7];
  }
}
