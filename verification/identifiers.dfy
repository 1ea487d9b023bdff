/** Fresh identifiers: a base, then the base with growing suffixes until one is free. */
module Identifiers {
  import opened Wrappers
  import opened Numerals
  import opened SetFacts

  /** `Str::limit` without an ending, on the ASCII text of a slug. */
  function Limit(s: string, n: int): (r: string)
    ensures r <= s && (n >= 0 ==> |r| <= n) && (n >= |s| ==> r == s)
  {
    if n < 0 then "" else if |s| <= n then s else s[..n]
  }

  /** The base with a suffix, kept within the cap. */
  function Suffixed(base: string, separator: char, cap: nat, suffix: nat): string {
    Limit(base, cap - |Print(suffix)| - 1) + [separator] + Print(suffix)
  }

  /** Different suffixes give different texts: the digits after the last separator tell them apart. */
  lemma SuffixesDiffer(base: string, separator: char, cap: nat, i: nat, j: nat)
    requires !IsDigit(separator) && i != j
    ensures Suffixed(base, separator, cap, i) != Suffixed(base, separator, cap, j)
  {
    NumberOfPrint(i);
    NumberOfPrint(j);
    if |Print(i)| == |Print(j)| {
      SameLengthSuffixesDiffer(Limit(base, cap - |Print(i)| - 1), separator, Print(i), Print(j));
    } else if |Print(i)| < |Print(j)| {
      ShorterSuffixDiffers(Limit(base, cap - |Print(i)| - 1), Limit(base, cap - |Print(j)| - 1), separator,
                           Print(i), Print(j));
    } else {
      ShorterSuffixDiffers(Limit(base, cap - |Print(j)| - 1), Limit(base, cap - |Print(i)| - 1), separator,
                           Print(j), Print(i));
    }
  }

  lemma SameLengthSuffixesDiffer(front: string, separator: char, a: string, b: string)
    requires a != b
    ensures front + [separator] + a != front + [separator] + b
  {
    var s, t := front + [separator] + a, front + [separator] + b;
    assert s[|front| + 1..] == a && t[|front| + 1..] == b;
  }

  lemma ShorterSuffixDiffers(x: string, y: string, separator: char, a: string, b: string)
    requires !IsDigit(separator) && AllDigits(b) && |a| < |b|
    ensures x + [separator] + a != y + [separator] + b
  {
    var s, t := x + [separator] + a, y + [separator] + b;
    assert s[|s| - |a| - 1] == separator;
    assert t[|t| - |a| - 1] == b[|b| - |a| - 1];
  }

  /** The first `n` suffixed candidates, from suffix 2 on. */
  function Tried(base: string, separator: char, cap: nat, n: nat): (r: seq<string>)
    ensures |r| == n && forall i :: 0 <= i < n ==> r[i] == Suffixed(base, separator, cap, i + 2)
  {
    seq(n, i requires 0 <= i => Suffixed(base, separator, cap, i + 2))
  }

  /** At most as many of them are taken as there are used names. */
  lemma FewAreTaken(base: string, separator: char, cap: nat, n: nat, used: set<string>)
    requires !IsDigit(separator) && Elements(Tried(base, separator, cap, n)) <= used
    ensures n <= |used|
  {
    var tried := Tried(base, separator, cap, n);
    forall i, j | 0 <= i < j < n ensures tried[i] != tried[j] {
      SuffixesDiffer(base, separator, cap, i + 2, j + 2);
    }
    DistinctSize(tried);
    SubsetSize(Elements(tried), used);
  }

  lemma {:induction false} PrintGrows(m: nat, n: nat)
    requires m <= n
    ensures |Print(m)| <= |Print(n)|
  {
    if m >= 10 {
      PrintGrows(m / 10, n / 10);
    }
  }

  /**
    `nextIdentifier` and `nextCode`: the base if it is free, else the first free
    suffixed candidate; at most one suffixed try more than there are used names.
   */
  method NextIdentifier(base: string, separator: char, cap: nat, used: set<string>)
    returns (candidate: string, ghost tries: nat)
    requires !IsDigit(separator)
    ensures candidate !in used
    ensures tries <= |used| + 1
    ensures tries == 0 ==> candidate == base
    ensures tries > 0 ==> base in used && candidate == Suffixed(base, separator, cap, tries + 1)
    ensures tries > 0 ==> Elements(Tried(base, separator, cap, tries - 1)) <= used
    ensures |base| <= cap && |Print(|used| + 2)| < cap ==> |candidate| <= cap
  {
    candidate := base;
    var suffix := 2;
    tries := 0;
    while candidate in used
      invariant tries == suffix - 2 <= |used| + 1
      invariant tries == 0 ==> candidate == base
      invariant tries > 0 ==> base in used && candidate == Suffixed(base, separator, cap, suffix - 1)
      invariant tries > 0 ==> Elements(Tried(base, separator, cap, tries - 1)) <= used
      decreases |used| + 1 - tries
    {
      if tries > 0 {
        assert Tried(base, separator, cap, tries) == Tried(base, separator, cap, tries - 1) + [candidate];
        ElementsAppend(Tried(base, separator, cap, tries - 1), candidate);
      }
      FewAreTaken(base, separator, cap, tries, used);
      candidate := Suffixed(base, separator, cap, suffix);
      suffix := suffix + 1;
      tries := tries + 1;
    }
    if tries > 0 {
      PrintGrows(tries + 1, |used| + 2);
    }
  }

  // ---------- the pattern of an identifier ----------

  predicate IsWordChar(c: char) {
    'a' <= c <= 'z' || '0' <= c <= '9'
  }

  predicate IsSeparator(c: char) {
    c == '.' || c == '_' || c == '-'
  }

  /** How far a text has been matched against `[a-z0-9]+(?:[._-][a-z0-9]+)*`. */
  datatype Matching = Start | InWord | AfterSeparator | Failed

  function NextMatching(m: Matching, c: char): Matching {
    match m
    case Failed => Failed
    case InWord => if IsWordChar(c) then InWord else if IsSeparator(c) then AfterSeparator else Failed
    case _ => if IsWordChar(c) then InWord else Failed
  }

  function MatchUpTo(s: string): Matching {
    if s == "" then Start else NextMatching(MatchUpTo(s[..|s| - 1]), s[|s| - 1])
  }

  /** The validator accepts the text as an identifier. */
  predicate Matches(s: string) {
    MatchUpTo(s) == InWord
  }

  lemma MatchOneMore(s: string, c: char)
    ensures MatchUpTo(s + [c]) == NextMatching(MatchUpTo(s), c)
  {
    assert (s + [c])[..|s|] == s;
  }

  lemma ShortExamples()
    ensures MatchUpTo("7") == InWord && MatchUpTo("a") == InWord
    ensures MatchUpTo("-") == Failed && MatchUpTo("A") == Failed
    ensures MatchUpTo("a-") == AfterSeparator && MatchUpTo("a_") == AfterSeparator && MatchUpTo("a.") == AfterSeparator
    ensures MatchUpTo("a--") == Failed
  {
    MatchOneMore("", '7');
    MatchOneMore("", 'a');
    MatchOneMore("", '-');
    MatchOneMore("", 'A');
    assert "" + ['7'] == "7" && "" + ['a'] == "a" && "" + ['-'] == "-" && "" + ['A'] == "A";
    MatchOneMore("a", '-');
    MatchOneMore("a", '_');
    MatchOneMore("a", '.');
    assert "a" + ['-'] == "a-" && "a" + ['_'] == "a_" && "a" + ['.'] == "a.";
    MatchOneMore("a-", '-');
    assert "a-" + ['-'] == "a--";
  }

  /** Words of lower-case letters and digits, joined by single dots, underscores and hyphens. */
  lemma PatternExamples()
    ensures Matches("7") && Matches("a.b_c")
    ensures !Matches("") && !Matches("-") && !Matches("a--") && !Matches("a_") && !Matches("A")
  {
    ShortExamples();
    MatchOneMore("a.", 'b');
    assert "a." + ['b'] == "a.b";
    MatchOneMore("a.b", '_');
    assert "a.b" + ['_'] == "a.b_";
    MatchOneMore("a.b_", 'c');
    assert "a.b_" + ['c'] == "a.b_c";
  }

  /** What is left of an identifier when it is cut is one, unless the cut leaves nothing or a separator at the end. */
  lemma {:induction false} CutMatchesExactly(s: string, k: nat)
    requires Matches(s) && k <= |s|
    ensures Matches(s[..k]) <==> k > 0 && !IsSeparator(s[k - 1])
  {
    if k > 0 {
      var front, last := s[..k - 1], s[k - 1];
      assert s[..k] == front + [last];
      CutNeverFails(s, k);
      CutNeverFails(s, k - 1);
      MatchOneMore(front, last);
    }
  }

  lemma {:induction false} CutNeverFails(s: string, k: nat)
    requires MatchUpTo(s) != Failed && k <= |s|
    ensures MatchUpTo(s[..k]) != Failed
    decreases |s|
  {
    if k == |s| {
      assert s[..k] == s;
    } else {
      CutNeverFails(s[..|s| - 1], k);
      assert s[..|s| - 1][..k] == s[..k];
    }
  }

  lemma {:induction false} DigitsMatch(s: string, digits: string)
    requires AllDigits(digits) && digits != ""
    ensures Matches(s + digits) <==> MatchUpTo(s) != Failed
  {
    var front, last := digits[..|digits| - 1], digits[|digits| - 1];
    assert s + digits == (s + front) + [last];
    MatchOneMore(s + front, last);
    if front == "" {
      assert s + front == s;
    } else {
      DigitsMatch(s, front);
      DigitsNeverFail(s, front);
    }
  }

  lemma {:induction false} DigitsNeverFail(s: string, digits: string)
    requires AllDigits(digits)
    ensures MatchUpTo(s + digits) == Failed <==> MatchUpTo(s) == Failed
  {
    if digits == "" {
      assert s + digits == s;
    } else {
      var front, last := digits[..|digits| - 1], digits[|digits| - 1];
      assert s + digits == (s + front) + [last];
      MatchOneMore(s + front, last);
      DigitsNeverFail(s, front);
    }
  }

  /** A suffixed candidate is an identifier just when what is left of its base is one. */
  lemma SuffixedMatchesExactly(base: string, separator: char, cap: nat, suffix: nat)
    requires IsSeparator(separator)
    ensures Matches(Suffixed(base, separator, cap, suffix)) <==> Matches(Limit(base, cap - |Print(suffix)| - 1))
  {
    var front := Limit(base, cap - |Print(suffix)| - 1);
    NumberOfPrint(suffix);
    MatchOneMore(front, separator);
    DigitsMatch(front + [separator], Print(suffix));
  }

  /** Of a base that is an identifier: just when the cut leaves something, and no separator before the new one. */
  lemma NoDoubledSeparatorExactly(base: string, separator: char, cap: nat, suffix: nat)
    requires IsSeparator(separator) && Matches(base)
    ensures var room := cap - |Print(suffix)| - 1;
            Matches(Suffixed(base, separator, cap, suffix)) <==>
              |base| <= room || (room > 0 && !IsSeparator(base[room - 1]))
  {
    var room := cap - |Print(suffix)| - 1;
    SuffixedMatchesExactly(base, separator, cap, suffix);
    if 0 <= room < |base| {
      CutMatchesExactly(base, room);
    }
  }

  // ---------- the ids of one template ----------

  /** `slug` is the title lower-cased and slugged; `externalId` is what the form sent. */
  datatype Row = Row(id: Option<nat>, externalId: Option<string>, slug: string)

  /** `identifierBase` */
  function Base(slug: string, fallback: string): (r: string)
    ensures |r| <= 150
  {
    Limit(if slug == "" then fallback else slug, 150)
  }

  /** A long slug gives a base that is no identifier just when it is cut right after a separator. */
  lemma BaseMatchesExactly(slug: string, fallback: string)
    requires Matches(slug)
    ensures Matches(Base(slug, fallback)) <==> |slug| <= 150 || !IsSeparator(slug[149])
  {
    if |slug| > 150 {
      CutMatchesExactly(slug, 150);
    }
  }

  function PowerOfTen(k: nat): nat {
    if k == 0 then 1 else 10 * PowerOfTen(k - 1)
  }

  lemma {:induction false} PrintFits(n: nat, k: nat)
    requires k > 0 && n < PowerOfTen(k)
    ensures |Print(n)| <= k
  {
    if n >= 10 {
      assert k > 1 by {
        assert PowerOfTen(1) == 10 * PowerOfTen(0);
      }
      PrintFits(n / 10, k - 1);
    }
  }

  /** Suffixes below it have nine digits at most. */
  const MANY: nat := 1_000_000_000

  /** Such a suffix leaves a base of a template as it is. */
  lemma CandidateMatchesAsBase(base: string, suffix: nat)
    requires |base| <= 150 && suffix < MANY
    ensures Matches(Suffixed(base, '-', 160, suffix)) <==> Matches(base)
  {
    assert PowerOfTen(3) == 1000 && PowerOfTen(6) == 1000 * PowerOfTen(3) && PowerOfTen(9) == 1000 * PowerOfTen(6);
    PrintFits(suffix, 9);
    SuffixedMatchesExactly(base, '-', 160, suffix);
  }

  /** A row stands for a solution the template already has, deleted ones included. */
  predicate Known(row: Row, existing: map<nat, string>) {
    row.id.Some? && row.id.value in existing
  }

  predicate ChangesItsId(row: Row, existing: map<nat, string>) {
    Known(row, existing) && row.externalId.Some? && row.externalId.value != existing[row.id.value]
  }

  /** No solution is submitted twice. */
  predicate RowsApart(rows: seq<Row>, existing: map<nat, string>) {
    forall i, j :: 0 <= i < j < |rows| && Known(rows[i], existing) && Known(rows[j], existing) ==>
      rows[i].id.value != rows[j].id.value
  }

  /** A known solution keeps its id; another gets one that no solution of the template and no row before has. */
  ghost predicate RowAssigned(row: Row, id: string, before: seq<string>, existing: map<nat, string>) {
    if Known(row, existing) then id == existing[row.id.value] else id !in before && id !in existing.Values
  }

  /** What the ids assigned so far, to the first rows, satisfy. */
  ghost predicate Assigned(rows: seq<Row>, ids: seq<string>, existing: map<nat, string>) {
    && |ids| <= |rows|
    && (forall i :: 0 <= i < |ids| ==> RowAssigned(rows[i], ids[i], ids[..i], existing))
  }

  /** Assigned ids are pairwise distinct exactly when no known solution is submitted twice. */
  lemma AssignedAreDistinct(rows: seq<Row>, ids: seq<string>, existing: map<nat, string>)
    requires Assigned(rows, ids, existing) && |ids| == |rows| && Injective(existing)
    ensures Distinct(ids) <==> RowsApart(rows, existing)
  {
    if RowsApart(rows, existing) {
      forall i, j | 0 <= i < j < |ids| ensures ids[i] != ids[j] {
        assert RowAssigned(rows[i], ids[i], ids[..i], existing) && RowAssigned(rows[j], ids[j], ids[..j], existing);
        if Known(rows[j], existing) {
          assert ids[j] == existing[rows[j].id.value] && ids[j] in existing.Values;
        } else {
          assert ids[i] == ids[..j][i];
        }
      }
    }
  }

  lemma AssignOneMore(rows: seq<Row>, ids: seq<string>, id: string, existing: map<nat, string>)
    requires |ids| < |rows| && Assigned(rows, ids, existing)
    requires Known(rows[|ids|], existing) ==> id == existing[rows[|ids|].id.value]
    requires !Known(rows[|ids|], existing) ==> id !in Elements(ids) && id !in existing.Values
    ensures Assigned(rows, ids + [id], existing)
  {
    var more := ids + [id];
    assert id in ids ==> id in Elements(ids);
    forall i | 0 <= i < |more| ensures RowAssigned(rows[i], more[i], more[..i], existing) {
      if i < |ids| {
        assert more[..i] == ids[..i];
      } else {
        assert more[..i] == ids;
      }
    }
  }

  /** The external id of one row. */
  method IdFor(row: Row, existing: map<nat, string>, reserved: set<string>) returns (externalId: string)
    ensures Known(row, existing) ==> externalId == existing[row.id.value]
    ensures !Known(row, existing) ==> externalId !in reserved && externalId !in existing.Values
    ensures |reserved + existing.Values| + 2 < MANY ==> !Mismatches(row, externalId, existing)
  {
    if Known(row, existing) {
      return existing[row.id.value];
    }
    var base, used := Base(row.slug, "soluzione"), reserved + existing.Values;
    ghost var tries;
    externalId, tries := NextIdentifier(base, '-', 160, used);
    if tries > 0 && tries + 1 < MANY {
      CandidateMatchesAsBase(base, tries + 1);
    }
  }

  /** A new id that is an identifier though its base is none, or the other way round. */
  predicate Mismatches(row: Row, id: string, existing: map<nat, string>) {
    !Known(row, existing) && (Matches(id) <==> !Matches(Base(row.slug, "soluzione")))
  }

  function Mismatched(rows: seq<Row>, ids: seq<string>, existing: map<nat, string>): set<nat>
    requires |ids| <= |rows|
  {
    set i | 0 <= i < |ids| && Mismatches(rows[i], ids[i], existing)
  }

  lemma {:induction false} ElementsSize<T>(s: seq<T>)
    ensures |Elements(s)| <= |s|
  {
    if s != [] {
      var front := s[..|s| - 1];
      assert s == front + [s[|s| - 1]];
      ElementsSize(front);
      ElementsAppend(front, s[|s| - 1]);
    }
  }

  predicate Few(rows: seq<Row>, existing: map<nat, string>) {
    |rows| + |existing.Values| + 2 < MANY
  }

  /** The names in use never outnumber the rows and the ids of the template. */
  lemma FewAreUsed(rows: nat, ids: seq<string>, existing: map<nat, string>)
    requires |ids| <= rows
    ensures |Elements(ids) + existing.Values| <= rows + |existing.Values|
  {
    ElementsSize(ids);
  }

  lemma MismatchedAppend(rows: seq<Row>, ids: seq<string>, id: string, existing: map<nat, string>)
    requires |ids| < |rows|
    ensures Mismatched(rows, ids + [id], existing) ==
              Mismatched(rows, ids, existing) + if Mismatches(rows[|ids|], id, existing) then {|ids|} else {}
  {
    var more := ids + [id];
    assert forall i :: 0 <= i < |ids| ==> more[i] == ids[i];
  }

  lemma MatchOneMoreRow(rows: seq<Row>, ids: seq<string>, id: string, existing: map<nat, string>)
    requires |ids| < |rows| && (Few(rows, existing) ==> Mismatched(rows, ids, existing) == {})
    requires |Elements(ids) + existing.Values| + 2 < MANY ==> !Mismatches(rows[|ids|], id, existing)
    ensures Few(rows, existing) ==> Mismatched(rows, ids + [id], existing) == {}
  {
    FewAreUsed(|rows|, ids, existing);
    MismatchedAppend(rows, ids, id, existing);
  }

  /** The id of the next row, after those assigned so far. */
  method NextId(rows: seq<Row>, ids: seq<string>, reserved: set<string>, existing: map<nat, string>)
    returns (id: string)
    requires |ids| < |rows| && reserved == Elements(ids) && Assigned(rows, ids, existing)
    requires Few(rows, existing) ==> Mismatched(rows, ids, existing) == {}
    ensures Assigned(rows, ids + [id], existing) && reserved + {id} == Elements(ids + [id])
    ensures Few(rows, existing) ==> Mismatched(rows, ids + [id], existing) == {}
  {
    id := IdFor(rows[|ids|], existing, reserved);
    AssignOneMore(rows, ids, id, existing);
    MatchOneMoreRow(rows, ids, id, existing);
    ElementsAppend(ids, id);
  }

  /** The loop of `withStableExternalIds`; `existing` is empty for a new template. */
  method WithStableExternalIds(rows: seq<Row>, existing: map<nat, string>) returns (r: Result<seq<string>, nat>)
    requires Injective(existing)
    ensures r.Err? <==> exists i :: 0 <= i < |rows| && ChangesItsId(rows[i], existing)
    ensures r.Ok? ==> |r.value| == |rows| && Assigned(rows, r.value, existing)
    ensures r.Ok? ==> (Distinct(r.value) <==> RowsApart(rows, existing))
    ensures r.Ok? && Few(rows, existing) ==> Mismatched(rows, r.value, existing) == {}
  {
    var ids: seq<string> := [];
    var reserved: set<string> := {};
    for n := 0 to |rows|
      invariant |ids| == n && reserved == Elements(ids)
      invariant forall i :: 0 <= i < n ==> !ChangesItsId(rows[i], existing)
      invariant Assigned(rows, ids, existing)
      invariant Few(rows, existing) ==> Mismatched(rows, ids, existing) == {}
    {
      if ChangesItsId(rows[n], existing) {
        return Err(n);
      }
      var externalId := NextId(rows, ids, reserved, existing);
      ids := ids + [externalId];
      reserved := reserved + {externalId};
    }
    AssignedAreDistinct(rows, ids, existing);
    return Ok(ids);
  }
}
