/** The marker in a quote's subject. */
module QuoteMarker {
  import opened Wrappers
  import opened Numerals

  const PHP_INT_MAX: int := 0x7FFF_FFFF_FFFF_FFFF

  const OPENING := "[ASSESTME assessment="

  const MIDDLE := " version="

  datatype Marker = Marker(assessment: int, version: int)

  function PrintMarker(m: Marker): Result<string, string> {
    if m.assessment < 1 || m.version < 1 then Err("Assessment ID and quote version must be positive.")
    else Ok(OPENING + Print(m.assessment) + MIDDLE + Print(m.version) + "]")
  }

  /** An integer cast of a numeral saturates. */
  function Cast(s: string): int
    requires AllDigits(s)
  {
    if Number(s) > PHP_INT_MAX then PHP_INT_MAX else Number(s)
  }

  /** Length of the longest prefix of digits. */
  function DigitRun(s: string): (n: nat)
    ensures n <= |s| && AllDigits(s[..n])
    ensures n == |s| || !IsDigit(s[n])
  {
    if s == "" || !IsDigit(s[0]) then 0
    else
      var n := DigitRun(s[1..]);
      assert s[..n + 1] == [s[0]] + s[1..][..n];
      n + 1
  }

  /** The class `[1-9][0-9]*` at the front of a text, with what follows it. */
  function Numeral(s: string): (r: Option<(string, string)>)
    ensures r.Some? ==> AllDigits(r.value.0) && r.value.0 != "" && r.value.0[0] != '0' && s == r.value.0 + r.value.1
  {
    var n := DigitRun(s);
    if n == 0 || s[0] == '0' then None else Some((s[..n], s[n..]))
  }

  function ParseMarker(s: string): Option<Marker> {
    if !(OPENING <= s) then None
    else match Numeral(s[|OPENING|..])
      case None => None
      case Some((assessment, rest)) =>
        if !(MIDDLE <= rest) then None
        else match Numeral(rest[|MIDDLE|..])
          case None => None
          case Some((version, end)) => if end == "]" then Some(Marker(Cast(assessment), Cast(version))) else None
  }

  lemma {:induction false} RunEnds(digits: string, rest: string)
    requires AllDigits(digits) && (rest == "" || !IsDigit(rest[0]))
    ensures DigitRun(digits + rest) == |digits|
  {
    if digits == "" {
      assert digits + rest == rest;
    } else {
      RunEnds(digits[1..], rest);
      assert (digits + rest)[1..] == digits[1..] + rest;
    }
  }

  lemma NumeralOfPrint(n: int, rest: string)
    requires n > 0 && rest != "" && !IsDigit(rest[0])
    ensures Numeral(Print(n) + rest) == Some((Print(n), rest))
    ensures AllDigits(Print(n)) && Number(Print(n)) == n
  {
    NumberOfPrint(n);
    RunEnds(Print(n), rest);
    assert (Print(n) + rest)[..|Print(n)|] == Print(n);
    assert (Print(n) + rest)[|Print(n)|..] == rest;
  }

  lemma Layout(a: string, v: string)
    ensures var s := OPENING + a + MIDDLE + v + "]";
            && OPENING <= s && s[|OPENING|..] == a + (MIDDLE + v + "]")
            && MIDDLE <= MIDDLE + v + "]" && (MIDDLE + v + "]")[|MIDDLE|..] == v + "]"
            && (MIDDLE + v + "]")[0] == ' '
  {
    var s := OPENING + a + MIDDLE + v + "]";
    assert s == OPENING + (a + (MIDDLE + v + "]"));
    assert MIDDLE + v + "]" == MIDDLE + (v + "]");
  }

  lemma ParsesPieces(s: string, a: string, rest: string, v: string)
    requires OPENING <= s && AllDigits(a) && AllDigits(v) && Numeral(s[|OPENING|..]) == Some((a, rest))
    requires MIDDLE <= rest && Numeral(rest[|MIDDLE|..]) == Some((v, "]"))
    ensures ParseMarker(s) == Some(Marker(Cast(a), Cast(v)))
  {
  }

  /** A printed marker reads back as the two numbers it was printed from. */
  lemma MarkerRoundTrip(m: Marker)
    requires 1 <= m.assessment <= PHP_INT_MAX && 1 <= m.version <= PHP_INT_MAX
    ensures PrintMarker(m).Ok? && ParseMarker(PrintMarker(m).value) == Some(m)
  {
    var a, v := Print(m.assessment), Print(m.version);
    Layout(a, v);
    NumeralOfPrint(m.assessment, MIDDLE + v + "]");
    NumeralOfPrint(m.version, "]");
    ParsesPieces(OPENING + a + MIDDLE + v + "]", a, MIDDLE + v + "]", v);
  }

  /** The numerals of a text that parses. */
  ghost predicate Spells(s: string, a: string, v: string) {
    && AllDigits(a) && a != "" && a[0] != '0' && AllDigits(v) && v != "" && v[0] != '0'
    && s == OPENING + a + MIDDLE + v + "]"
  }

  lemma Pieces(s: string, opening: string, a: string, rest: string, middle: string, v: string, end: string)
    requires opening <= s && s[|opening|..] == a + rest && middle <= rest && rest[|middle|..] == v + end
    ensures s == opening + a + middle + v + end
  {
    assert s == opening + s[|opening|..] && rest == middle + rest[|middle|..];
  }

  lemma ParsedIsSpelled(s: string, m: Marker)
    requires ParseMarker(s) == Some(m)
    ensures exists a, v :: Spells(s, a, v) && m == Marker(Cast(a), Cast(v))
  {
    var (a, rest) := Numeral(s[|OPENING|..]).value;
    var (v, end) := Numeral(rest[|MIDDLE|..]).value;
    Pieces(s, OPENING, a, rest, MIDDLE, v, end);
    assert Spells(s, a, v);
  }

  lemma SpelledIsPrinted(s: string, a: string, v: string)
    requires Spells(s, a, v)
    ensures Number(a) > 0 && Number(v) > 0 && PrintMarker(Marker(Number(a), Number(v))) == Ok(s)
  {
    NumberPositive(a);
    NumberPositive(v);
    PrintOfNumber(a);
    PrintOfNumber(v);
  }

  lemma CastReads(a: string)
    requires AllDigits(a) && Number(a) > 0
    ensures Cast(a) >= 1 && (Number(a) == Cast(a) || Cast(a) == PHP_INT_MAX < Number(a))
  {
  }

  /**
    Conversely, the only text that reads back as a pair below the largest
    integer is its printed marker; the largest stands for all numerals from it up.
   */
  lemma OnlyTheMarkerReadsBack(s: string, m: Marker)
    requires ParseMarker(s) == Some(m)
    ensures m.assessment >= 1 && m.version >= 1
    ensures exists n: Marker ::
              && PrintMarker(n) == Ok(s)
              && (n.assessment == m.assessment || m.assessment == PHP_INT_MAX < n.assessment)
              && (n.version == m.version || m.version == PHP_INT_MAX < n.version)
  {
    ParsedIsSpelled(s, m);
    var a, v :| Spells(s, a, v) && m == Marker(Cast(a), Cast(v));
    SpelledIsPrinted(s, a, v);
    CastReads(a);
    CastReads(v);
    var n := Marker(Number(a), Number(v));
    assert PrintMarker(n) == Ok(s);
  }
}

/** Reading an earlier quote back into the composer. */
module PreviousQuote {
  import opened Wrappers
  import opened Numerals
  import opened SetFacts
  import opened QuoteReferences
  import opened QuoteMarker

  datatype Document = Document(kind: string, subject: string, body: int)

  // ---------- which quote is the newest ----------

  /** The version of this assessment a document carries, or 0. */
  function VersionFor(d: Document, assessment: int): (version: int)
    ensures version >= 0
    ensures version > 0 <==> d.kind == "quote" && ParseMarker(d.subject).Some?
                             && ParseMarker(d.subject).value.assessment == assessment
    ensures version > 0 ==> ParseMarker(d.subject) == Some(Marker(assessment, version))
  {
    match ParseMarker(d.subject)
    case None => 0
    case Some(m) =>
      OnlyTheMarkerReadsBack(d.subject, m);
      if d.kind == "quote" && m.assessment == assessment then m.version else 0
  }

  ghost predicate AreVersions(versions: seq<int>, documents: seq<Document>, assessment: int) {
    && |versions| == |documents|
    && forall j {:trigger VersionFor(documents[j], assessment)} :: 0 <= j < |documents| ==>
         versions[j] == VersionFor(documents[j], assessment)
  }

  function Versions(documents: seq<Document>, assessment: int): (r: seq<int>)
    ensures AreVersions(r, documents, assessment)
  {
    seq(|documents|, j requires 0 <= j < |documents| => VersionFor(documents[j], assessment))
  }

  /** Position `k` holds a version that no other position reaches. */
  ghost predicate StrictlyNewest(versions: seq<int>, k: nat) {
    && k < |versions| && versions[k] > 0
    && forall j :: 0 <= j < |versions| && j != k ==> versions[j] < versions[k]
  }

  /** Two positions share the greatest version. */
  ghost predicate TiedNewest(versions: seq<int>, i: nat, k: nat) {
    && i < k < |versions| && versions[i] == versions[k] > 0
    && forall j :: 0 <= j < |versions| ==> versions[j] <= versions[k]
  }

  /** One round of the loop in `latest`, for document `n`. */
  method Consider(documents: seq<Document>, n: nat, assessment: int, ghost versions: seq<int>,
                  latest: Option<Document>, latestVersion: int, latestCount: int)
    returns (newest: Option<Document>, newestVersion: int, newestCount: int)
    requires AreVersions(versions, documents, assessment) && n < |documents| && latestVersion >= 0
    ensures versions[n] >= 0
    ensures versions[n] == 0 || versions[n] < latestVersion ==>
              newest == latest && newestVersion == latestVersion && newestCount == latestCount
    ensures versions[n] == latestVersion > 0 ==>
              newest == latest && newestVersion == latestVersion && newestCount == latestCount + 1
    ensures versions[n] > latestVersion ==>
              newest == Some(documents[n]) && newestVersion == versions[n] && newestCount == 1
  {
    assert versions[n] == VersionFor(documents[n], assessment);
    newest, newestVersion, newestCount := latest, latestVersion, latestCount;
    var marker := ParseMarker(documents[n].subject);
    if documents[n].kind != "quote" || marker.None? || marker.value.assessment != assessment
       || marker.value.version < latestVersion {
      return;
    }
    if marker.value.version == latestVersion {
      newestCount := latestCount + 1;
      return;
    }
    newest, newestVersion, newestCount := Some(documents[n]), marker.value.version, 1;
  }

  /** What the loop's counters say about the documents seen so far, with `newest` and `tied` as witnesses. */
  ghost predicate Counted(versions: seq<int>, newestVersion: int, count: int, newest: nat, tied: nat) {
    && count >= 0
    && (count == 0 ==> newestVersion == 0 && forall v :: v in versions ==> v == 0)
    && (count == 1 ==> StrictlyNewest(versions, newest))
    && (count > 1 ==> TiedNewest(versions, newest, tied))
    && (count > 0 ==> newest < |versions| && newestVersion == versions[newest])
  }

  lemma CountsOneMore(versions: seq<int>, v: int, newestVersion: int, count: int, newest: nat, tied: nat)
    requires Counted(versions, newestVersion, count, newest, tied) && v >= 0
    requires count > 0 ==> newestVersion > 0
    ensures v == 0 || v < newestVersion ==> Counted(versions + [v], newestVersion, count, newest, tied)
    ensures v == newestVersion > 0 ==>
              Counted(versions + [v], newestVersion, count + 1, newest, if count == 1 then |versions| else tied)
    ensures v > newestVersion ==> Counted(versions + [v], v, 1, |versions|, tied)
  {
    forall j | 0 <= j < |versions| ensures versions[j] <= newestVersion {
      assert versions[j] in versions;
    }
  }

  lemma CountedDecides(versions: seq<int>, newestVersion: int, count: int, newest: nat, tied: nat)
    requires Counted(versions, newestVersion, count, newest, tied)
    ensures count == 0 <==> forall v :: v in versions ==> v == 0
    ensures count > 1 <==> exists i: nat, k: nat :: TiedNewest(versions, i, k)
  {
    if count > 0 {
      assert versions[newest] in versions;
    }
    forall i: nat, k: nat | TiedNewest(versions, i, k) ensures count > 1 {
      assert versions[i] in versions;
    }
  }

  /** The loop in `latest`. */
  method CountNewest(documents: seq<Document>, assessment: int, ghost versions: seq<int>)
    returns (latest: Option<Document>, latestVersion: int, latestCount: int, ghost newest: nat, ghost tied: nat)
    requires AreVersions(versions, documents, assessment)
    ensures Counted(versions, latestVersion, latestCount, newest, tied)
    ensures latestCount == 0 <==> latest.None?
    ensures latestCount == 1 ==> latest == Some(documents[newest])
  {
    latest, latestVersion, latestCount := None, 0, 0;
    newest, tied := 0, 0;
    for n := 0 to |documents|
      invariant Counted(versions[..n], latestVersion, latestCount, newest, tied)
      invariant latestCount == 0 <==> latest.None?
      invariant latestVersion >= 0 && (latestCount > 0 ==> latestVersion > 0)
      invariant latestCount == 1 ==> latest == Some(documents[newest])
    {
      ghost var before, count := latestVersion, latestCount;
      latest, latestVersion, latestCount :=
        Consider(documents, n, assessment, versions, latest, latestVersion, latestCount);
      CountsOneMore(versions[..n], versions[n], before, count, newest, tied);
      assert versions[..n + 1] == versions[..n] + [versions[n]];
      if versions[n] > before {
        newest := n;
      } else if versions[n] == before > 0 && count == 1 {
        tied := n;
      }
    }
    assert versions[..|documents|] == versions;
  }

  /**
    `latest`: the quote with the greatest version of this assessment, nothing
    if there is none, an error exactly when two share the greatest version.
   */
  method Latest(company: Option<string>, documents: seq<Document>, assessment: int)
    returns (r: Result<Option<Document>, string>)
    ensures company.None? ==> r == Ok(None)
    ensures company.Some? ==>
              (r == Ok(None) <==> forall v :: v in Versions(documents, assessment) ==> v == 0)
    ensures company.Some? && r.Ok? && r.value.Some? ==>
              exists k: nat :: StrictlyNewest(Versions(documents, assessment), k) && documents[k] == r.value.value
    ensures r.Err? <==> company.Some? && exists i: nat, k: nat :: TiedNewest(Versions(documents, assessment), i, k)
  {
    if company.None? {
      return Ok(None);
    }
    ghost var versions := Versions(documents, assessment);
    var latest, latestVersion, latestCount, newest, tied := CountNewest(documents, assessment, versions);
    CountedDecides(versions, latestVersion, latestCount, newest, tied);
    if latestCount > 1 {
      return Err("previous_ambiguous");
    }
    return Ok(latest);
  }

  // ---------- references in a text ----------

  /** The class `[A-Z0-9-]`. */
  predicate BlocksReference(c: char) {
    'A' <= c <= 'Z' || IsDigit(c) || c == '-'
  }

  predicate ReferenceTextAt(text: string, i: nat) {
    i + 8 <= |text| && IsReference(text[i..i + 8])
  }

  predicate ReferenceAt(text: string, i: nat) {
    && ReferenceTextAt(text, i)
    && (i == 0 || !BlocksReference(text[i - 1]))
    && (i + 8 == |text| || !IsDigit(text[i + 8]))
  }

  /** All matches from left to right, none overlapping. */
  function Scan(text: string, i: nat): (r: seq<string>)
    requires i <= |text|
    ensures AllReferences(r)
    decreases |text| - i
  {
    if i + 8 > |text| then []
    else if ReferenceAt(text, i) then [text[i..i + 8]] + Scan(text, i + 8)
    else Scan(text, i + 1)
  }

  lemma ReferenceShape(text: string, i: nat)
    requires i + 8 <= |text| && IsReference(text[i..i + 8])
    ensures text[i] == 'F' && text[i + 1] == '-' && forall j :: i + 2 <= j < i + 8 ==> IsDigit(text[j])
  {
    var r := text[i..i + 8];
    assert r[0] == r[..2][0] && r[1] == r[..2][1];
    assert forall j :: i + 2 <= j < i + 8 ==> text[j] == r[2..][j - i - 2];
  }

  /** A scan that starts inside a stretch without an `F` goes on at its end. */
  lemma {:induction false} NothingToFind(text: string, i: nat, j: nat)
    requires i <= j <= |text|
    requires forall k :: i <= k < j ==> !ReferenceAt(text, k)
    ensures Scan(text, i) == Scan(text, j)
    decreases j - i
  {
    if i < j && i + 8 <= |text| {
      NothingToFind(text, i + 1, j);
    }
  }

  /** The references of a line are found one after the other. */
  lemma {:induction false} ScanList(text: string, i: nat, references: seq<string>)
    requires AllReferences(references) && references != []
    requires 0 < i <= |text| && text[i - 1] == ' ' && text[i..] == CommaList(references)
    ensures Scan(text, i) == references
    decreases |references|
  {
    CommaListFollows(references);
    assert text[i..i + 8] == references[0];
    if |references| > 1 {
      var rest := CommaList(references[1..]);
      assert text[i..][8..] == ", " + rest;
      assert text[i + 8..] == ", " + rest;
      assert text[i + 8] == ',' && text[i + 9] == ' ' && text[i + 10..] == rest;
      CommaListFollows(references[1..]);
      assert ReferenceAt(text, i);
      NothingToFind(text, i + 8, i + 10) by {
        NoReferenceWithoutF(text, i + 8);
        NoReferenceWithoutF(text, i + 9);
      }
      ScanList(text, i + 10, references[1..]);
    } else {
      assert |text| == i + 8;
    }
  }

  lemma NoReferenceWithoutF(text: string, i: nat)
    requires i < |text| && text[i] != 'F'
    ensures !ReferenceAt(text, i)
  {
    if i + 8 <= |text| && IsReference(text[i..i + 8]) {
      ReferenceShape(text, i);
    }
  }

  lemma HeadHasNoF()
    ensures 'F' !in HEAD && HEAD[|HEAD| - 1] == ' '
  {
  }

  lemma ScanAfter(text: string, i: nat, head: string, rest: string)
    requires i <= |text| && text[i..] == head + rest && 'F' !in head && head != ""
    ensures Scan(text, i) == Scan(text, i + |head|)
    ensures text[i + |head| - 1] == head[|head| - 1] && text[i + |head|..] == rest
  {
    var j := i + |head|;
    assert text[i..j] == head && text[j..] == rest;
    forall k | i <= k < j ensures !ReferenceAt(text, k) {
      assert text[k] == head[k - i];
      NoReferenceWithoutF(text, k);
    }
    NothingToFind(text, i, j);
  }

  lemma {:induction false} ScanLine(text: string, i: nat, references: seq<string>)
    requires AllReferences(references) && references != []
    requires i <= |text| && text[i..] == HEAD + CommaList(references)
    ensures Scan(text, i) == references
  {
    HeadHasNoF();
    ScanAfter(text, i, HEAD, CommaList(references));
    ScanList(text, i + |HEAD|, references);
  }

  /** What stands before an empty line is scanned as if it stood alone. */
  lemma {:induction false} ScanBody(body: string, line: string, i: nat)
    requires i <= |body|
    ensures Scan(body + "\n\n" + line, i) == Scan(body, i) + Scan(body + "\n\n" + line, |body| + 2)
    decreases |body| - i
  {
    var text := body + "\n\n" + line;
    if i + 8 > |body| {
      assert text[|body|] == '\n' && text[|body| + 1] == '\n';
      forall k | i <= k < |body| + 2 ensures !ReferenceAt(text, k) {
        if k + 8 <= |text| && IsReference(text[k..k + 8]) {
          ReferenceShape(text, k);
        }
      }
      NothingToFind(text, i, |body| + 2);
    } else {
      assert text[i..i + 8] == body[i..i + 8];
      assert ReferenceAt(text, i) <==> ReferenceAt(body, i);
      ScanBody(body, line, if ReferenceAt(body, i) then i + 8 else i + 1);
    }
  }

  /** The references of a written description: those of its stripped text, then those added. */
  lemma ScanOfWritten(d: string, ids: seq<int>)
    requires ids != [] && DescriptionWithReferences(d, ids).Ok?
    ensures Scan(DescriptionWithReferences(d, ids).value, 0) ==
            Scan(DescriptionWithoutReferences(d), 0) + SortedReferences(ids).value
  {
    Written(d, ids);
    SortedReferencesAre(ids);
    var body, references := DescriptionWithoutReferences(d), SortedReferences(ids).value;
    var line := HEAD + CommaList(references);
    if body == "" {
      ScanLine(line, 0, references);
    } else {
      ScanBody(body, line, 0);
      ScanLine(body + "\n\n" + line, |body| + 2, references);
    }
  }

  // ---------- reading a row back ----------

  datatype Row = Row(description: string, findings: seq<int>, unmatched: bool)

  function KnownIds(references: seq<string>, valid: set<int>): (r: seq<int>)
    requires AllReferences(references)
  {
    if references == [] then []
    else
      var front := KnownIds(references[..|references| - 1], valid);
      var id := IdIn(references[|references| - 1]);
      if id in valid then front + [id] else front
  }

  /** `load` for one item; every finding of the assessment must be representable. */
  function Load(text: string, valid: set<int>): Result<Row, string> {
    if exists id :: id in valid && !Representable(id) then Err("unrepresentable")
    else
      var found := Scan(text, 0);
      assert forall i :: 0 <= i < |Unique(found)| ==> Unique(found)[i] in Elements(found);
      var ids := KnownIds(Unique(found), valid);
      Ok(Row(DescriptionWithoutReferences(text), ids,
             ids == [] && exists i: nat :: i < |text| && ReferenceTextAt(text, i)))
  }

  lemma {:induction false} KnownIdsAre(references: seq<string>, valid: set<int>)
    requires AllReferences(references)
    ensures Elements(KnownIds(references, valid)) == Elements(IdsIn(references)) * valid
  {
    if references != [] {
      var front, last := references[..|references| - 1], references[|references| - 1];
      KnownIdsAre(front, valid);
      assert IdsIn(references) == IdsIn(front) + [IdIn(last)];
      ElementsAppend(IdsIn(front), IdIn(last));
      ElementsAppend(KnownIds(front, valid), IdIn(last));
    }
  }

  lemma {:induction false} AllKnown(references: seq<string>, valid: set<int>)
    requires AllReferences(references) && Elements(IdsIn(references)) <= valid
    ensures KnownIds(references, valid) == IdsIn(references)
  {
    if references != [] {
      var front, last := references[..|references| - 1], references[|references| - 1];
      assert IdsIn(references) == IdsIn(front) + [IdIn(last)];
      ElementsAppend(IdsIn(front), IdIn(last));
      AllKnown(front, valid);
    }
  }

  lemma {:induction false} UniqueOfDistinct<T>(s: seq<T>)
    requires Distinct(s)
    ensures Unique(s) == s
  {
    if s != [] {
      var front, last := s[..|s| - 1], s[|s| - 1];
      UniqueOfDistinct(front);
      assert s == front + [last];
      assert forall x :: x in front ==> exists i :: 0 <= i < |front| && s[i] == x;
    }
  }

  lemma {:induction false} EmptyScan(text: string, i: nat, k: nat)
    requires i <= k <= |text| && Scan(text, i) == []
    ensures !ReferenceAt(text, k)
    decreases k - i
  {
    if i < k && i + 8 <= |text| {
      EmptyScan(text, i + 1, k);
    }
  }

  /** A text in which no reference is found has no block to strip. */
  lemma NoReferenceNoBlock(text: string)
    requires Scan(text, 0) == []
    ensures !HasBlock(text)
  {
    if HasBlock(text) {
      var p := Search(text, 0).value;
      var h := if p == 0 && IsBlock(text) then 0 else p + 2;
      var block, k := text[h..], h + |HEAD|;
      assert text[k..k + 8] == block[|HEAD|..|HEAD| + 8];
      assert text[k - 1] == block[|HEAD| - 1] == HEAD[|HEAD| - 1];
      var after := block[|HEAD| + 8..];
      assert after != "" ==> text[k + 8] == after[0] && (after[0] == ',' || Space(after[0])) by {
        assert !AllSpace(after) ==> after[0] == after[..2][0];
      }
      assert ReferenceAt(text, k);
      EmptyScan(text, 0, k);
    }
  }

  lemma LoadedFindings(text: string, valid: set<int>)
    requires forall id :: id in valid ==> Representable(id)
    ensures Elements(Load(text, valid).value.findings) == Elements(IdsIn(Scan(text, 0))) * valid
  {
    var found := Scan(text, 0);
    assert forall i :: 0 <= i < |Unique(found)| ==> Unique(found)[i] in Elements(found);
    KnownIdsAre(Unique(found), valid);
    SameIds(Unique(found), found);
  }

  /** Which findings a written row is read back with: known ones of its own text, and the known ones added. */
  lemma FindingsReadBack(d: string, ids: seq<int>, valid: set<int>)
    requires ids != [] && DescriptionWithReferences(d, ids).Ok?
    requires forall id :: id in valid ==> Representable(id)
    ensures var row := Load(DescriptionWithReferences(d, ids).value, valid).value;
            Elements(row.findings) ==
            (Elements(IdsIn(Scan(DescriptionWithoutReferences(d), 0))) + Elements(ids)) * valid
  {
    ScanOfWritten(d, ids);
    SortedReferencesAre(ids);
    LoadedFindings(DescriptionWithReferences(d, ids).value, valid);
    IdsConcat(Scan(DescriptionWithoutReferences(d), 0), SortedReferences(ids).value);
  }

  lemma IdsConcat(a: seq<string>, b: seq<string>)
    requires AllReferences(a) && AllReferences(b)
    ensures AllReferences(a + b) && Elements(IdsIn(a + b)) == Elements(IdsIn(a)) + Elements(IdsIn(b))
  {
    assert IdsIn(a + b) == IdsIn(a) + IdsIn(b);
    ElementsConcat(IdsIn(a), IdsIn(b));
  }

  lemma ElementsConcat(a: seq<int>, b: seq<int>)
    ensures Elements(a + b) == Elements(a) + Elements(b)
  {
    forall x | x in Elements(a) + Elements(b) ensures x in Elements(a + b) {
      if x in Elements(a) {
        var i :| 0 <= i < |a| && a[i] == x;
        assert (a + b)[i] == x;
      } else {
        var i :| 0 <= i < |b| && b[i] == x;
        assert (a + b)[|a| + i] == x;
      }
    }
  }

  /** A text whose references are distinct and all known is read back with exactly their ids. */
  lemma LoadKnown(text: string, valid: set<int>, references: seq<string>)
    requires AllReferences(references) && Scan(text, 0) == references && Distinct(references) && references != []
    requires Elements(IdsIn(references)) <= valid && forall id :: id in valid ==> Representable(id)
    ensures Load(text, valid) == Ok(Row(DescriptionWithoutReferences(text), IdsIn(references), false))
  {
    UniqueOfDistinct(references);
    AllKnown(references, valid);
  }

  lemma IncreasingIsDistinct(references: seq<string>)
    requires Increasing(references)
    ensures Distinct(references)
  {
  }

  lemma KnownAreRepresentable(d: string, ids: seq<int>, valid: set<int>)
    requires Elements(ids) <= valid && forall id :: id in valid ==> Representable(id)
    ensures DescriptionWithReferences(d, ids).Ok?
  {
    forall id | id in ids ensures id in Elements(ids) {
      var i :| 0 <= i < |ids| && ids[i] == id;
    }
    AddFailsExactlyForUnrepresentable(d, ids);
  }

  /** For a text free of references: exactly the stripped text and the distinct ids in increasing order. */
  lemma RowReadBack(d: string, ids: seq<int>, valid: set<int>)
    requires ids != [] && Elements(ids) <= valid && forall id :: id in valid ==> Representable(id)
    requires Scan(DescriptionWithoutReferences(d), 0) == []
    ensures DescriptionWithReferences(d, ids).Ok?
    ensures var row := Load(DescriptionWithReferences(d, ids).value, valid).value;
            && row.description == DescriptionWithoutReferences(d)
            && StrictlyIncreasing(row.findings) && Elements(row.findings) == Elements(ids)
            && !row.unmatched
  {
    KnownAreRepresentable(d, ids, valid);
    var text := DescriptionWithReferences(d, ids).value;
    StripAfterAdd(d, ids);
    ScanOfWritten(d, ids);
    SortedReferencesAre(ids);
    SomeIdSomeReference(ids);
    var added := SortedReferences(ids).value;
    IncreasingIsDistinct(added);
    assert [] + added == added;
    LoadKnown(text, valid, added);
  }

  lemma FrontOfIncreasing(a: seq<int>)
    requires StrictlyIncreasing(a) && a != []
    ensures var n := |a| - 1;
            && Elements(a[..n]) == Elements(a) - {a[n]} && a[n] in Elements(a)
            && forall x :: x in Elements(a) ==> x <= a[n]
  {
    var n := |a| - 1;
    assert a == a[..n] + [a[n]];
    ElementsAppend(a[..n], a[n]);
    assert a[n] !in Elements(a[..n]);
  }

  lemma {:induction false} SameSortedIds(a: seq<int>, b: seq<int>)
    requires StrictlyIncreasing(a) && StrictlyIncreasing(b) && Elements(a) == Elements(b)
    ensures a == b
  {
    if b != [] {
      FrontOfIncreasing(b);
    }
    if a != [] {
      FrontOfIncreasing(a);
      SameSortedIds(a[..|a| - 1], b[..|b| - 1]);
      assert a == a[..|a| - 1] + [a[|a| - 1]] && b == b[..|b| - 1] + [b[|b| - 1]];
    }
  }

  lemma {:induction false} SameReferences(a: seq<string>, b: seq<string>)
    requires Increasing(a) && Increasing(b) && IdsIn(a) == IdsIn(b)
    ensures a == b
  {
    forall i | 0 <= i < |a| ensures a[i] == b[i] {
      assert IdsIn(a)[i] == IdsIn(b)[i];
      ReferencesOrder(a[i], b[i]);
    }
  }

  /** Two lists of ids print the same references exactly when they have the same elements. */
  lemma SameReferencesExactly(a: seq<int>, b: seq<int>)
    requires SortedReferences(a).Ok? && SortedReferences(b).Ok?
    ensures SortedReferences(a) == SortedReferences(b) <==> Elements(a) == Elements(b)
  {
    SortedReferencesAre(a);
    SortedReferencesAre(b);
    if Elements(a) == Elements(b) {
      SameSortedIds(IdsIn(SortedReferences(a).value), IdsIn(SortedReferences(b).value));
      SameReferences(SortedReferences(a).value, SortedReferences(b).value);
    }
  }

  lemma SameWritten(d: string, ids: seq<int>, e: string, again: seq<int>)
    requires ids != [] && DescriptionWithReferences(d, ids).Ok?
    requires again != [] && DescriptionWithReferences(e, again).Ok?
    ensures DescriptionWithReferences(d, ids) == DescriptionWithReferences(e, again) <==>
            && DescriptionWithoutReferences(d) == DescriptionWithoutReferences(e)
            && Elements(ids) == Elements(again)
  {
    Written(d, ids);
    Written(e, again);
    StripAfterAdd(d, ids);
    StripAfterAdd(e, again);
    ScanOfWritten(d, ids);
    ScanOfWritten(e, again);
    SameReferencesExactly(ids, again);
    if DescriptionWithReferences(d, ids) == DescriptionWithReferences(e, again) {
      var found := Scan(DescriptionWithoutReferences(d), 0);
      assert (found + SortedReferences(ids).value)[|found|..] == SortedReferences(ids).value;
      assert (found + SortedReferences(again).value)[|found|..] == SortedReferences(again).value;
    }
  }

  lemma AgainIsRepresentable(again: seq<int>, valid: set<int>, e: string)
    requires Elements(again) <= valid && forall id :: id in valid ==> Representable(id)
    ensures DescriptionWithReferences(e, again).Ok?
  {
    KnownAreRepresentable(e, again, valid);
  }

  /**
    Saving what was read back writes the same description again, exactly when the
    stripped text has no further block and names no known finding but those added.
   */
  lemma SavingAgainChangesNothingExactly(d: string, ids: seq<int>, valid: set<int>)
    requires ids != [] && Elements(ids) <= valid && forall id :: id in valid ==> Representable(id)
    ensures DescriptionWithReferences(d, ids).Ok?
    ensures var text, body := DescriptionWithReferences(d, ids).value, DescriptionWithoutReferences(d);
            var row := Load(text, valid).value;
            DescriptionWithReferences(row.description, row.findings) == Ok(text) <==>
              !HasBlock(body) && Elements(IdsIn(Scan(body, 0))) * valid <= Elements(ids)
  {
    KnownAreRepresentable(d, ids, valid);
    var text, body := DescriptionWithReferences(d, ids).value, DescriptionWithoutReferences(d);
    var again := Load(text, valid).value.findings;
    FindingsReadBack(d, ids, valid);
    StripAfterAdd(d, ids);
    Written(d, ids);
    AgainIsRepresentable(again, valid, body);
    assert ids[0] in Elements(ids);
    assert again != [] by {
      assert ids[0] in Elements(again);
    }
    SameWritten(d, ids, body, again);
    StripOfTrimmed(body);
  }

  /** So it does for every text free of references. */
  lemma SavingAgainChangesNothing(d: string, ids: seq<int>, valid: set<int>)
    requires ids != [] && Elements(ids) <= valid && forall id :: id in valid ==> Representable(id)
    requires Scan(DescriptionWithoutReferences(d), 0) == []
    ensures DescriptionWithReferences(d, ids).Ok?
    ensures var text := DescriptionWithReferences(d, ids).value;
            var row := Load(text, valid).value;
            DescriptionWithReferences(row.description, row.findings) == Ok(text)
  {
    NoReferenceNoBlock(DescriptionWithoutReferences(d));
    SavingAgainChangesNothingExactly(d, ids, valid);
  }
}
