/**
  Matching the solutions of a stored draft with those of the live page, so that
  a restored draft keeps the live keys and takes the draft's order and contents.
 */
module SolutionAlignment {
  import opened Wrappers
  import opened ObjectOrder
  import J = JsonValues
  import C = Canonical

  type Solution = map<string, J.Json>

  type Entry = (string, Solution)

  /** Solutions may be missing, a list, or an object keyed by row, which lists its entries. */
  datatype Collection = Missing | List(items: seq<Solution>) | Keyed(entries: seq<Entry>)

  datatype Identity = ById(text: string) | ByExternalKey(text: string)

  // ---------- identities ----------

  /** A value in a template literal. */
  function Display(j: J.Json): string {
    match j
    case Null => "null"
    case Bool(b) => if b then "true" else "false"
    case Number(digits) => digits
    case Str(text) => text
    case Array(items) => DisplayList(items)
    case Object(_) => "[object Object]"
  }

  function DisplayList(items: J.List): string {
    match items
    case Nil => ""
    case Cons(head, Nil) => if head.Null? then "" else Display(head)
    case Cons(head, tail) => (if head.Null? then "" else Display(head)) + "," + DisplayList(tail)
  }

  predicate Truthy(j: J.Json) {
    match j
    case Null => false
    case Bool(b) => b
    case Number(digits) => digits != "0"
    case Str(text) => text != ""
    case _ => true
  }

  function SolutionIdentity(s: Solution): Option<Identity> {
    if "id" in s && !s["id"].Null? then Some(ById(Display(s["id"])))
    else if "external_key" in s && Truthy(s["external_key"]) then Some(ByExternalKey(Display(s["external_key"])))
    else None
  }

  predicate Absent(s: Solution, field: string) {
    field !in s || s[field].Null?
  }

  /** The id identifies a saved solution, the external key one that has none yet, and nothing any other. */
  lemma IdentityMeans(s: Solution)
    ensures !Absent(s, "id") && s["id"].Number? ==> SolutionIdentity(s) == Some(ById(s["id"].digits))
    ensures !Absent(s, "id") && s["id"].Str? ==> SolutionIdentity(s) == Some(ById(s["id"].text))
    ensures !Absent(s, "id") && s["id"].Bool? ==>
              SolutionIdentity(s) == Some(ById(if s["id"].value then "true" else "false"))
    ensures !Absent(s, "id") ==> SolutionIdentity(s).Some? && SolutionIdentity(s).value.ById?
    ensures Absent(s, "id") && !Absent(s, "external_key") && s["external_key"].Str? ==>
              SolutionIdentity(s) ==
                if s["external_key"].text == "" then None else Some(ByExternalKey(s["external_key"].text))
    ensures Absent(s, "id") && Absent(s, "external_key") ==> SolutionIdentity(s) == None
  {
  }

  function Identities(solutions: seq<Solution>): (r: seq<Option<Identity>>)
    ensures |r| == |solutions| && forall i :: 0 <= i < |r| ==> r[i] == SolutionIdentity(solutions[i])
  {
    seq(|solutions|, i requires 0 <= i < |solutions| => SolutionIdentity(solutions[i]))
  }

  /** `{ ...live, ...draft }` */
  function Merge(live: Solution, draft: Solution): Solution {
    live + draft
  }

  lemma MergeKeepsIdentity(live: Solution, draft: Solution)
    requires SolutionIdentity(live) == SolutionIdentity(draft)
    ensures SolutionIdentity(Merge(live, draft)) == SolutionIdentity(draft)
  {
  }

  // ---------- the matching, as a function ----------

  function Solutions(c: Collection): (r: seq<Solution>)
    ensures c.List? ==> r == c.items
    ensures c.Keyed? ==> |r| == |c.entries| && forall i :: 0 <= i < |r| ==> r[i] == c.entries[i].1
    ensures c.Missing? ==> r == []
  {
    match c
    case Missing => []
    case List(items) => items
    case Keyed(entries) => seq(|entries|, i requires 0 <= i < |entries| => entries[i].1)
  }

  function UpTo(n: nat): (r: seq<nat>)
    ensures |r| == n && forall i :: 0 <= i < n ==> r[i] == i
  {
    seq(n, i => i)
  }

  ghost predicate InRange(unused: seq<nat>, n: nat) {
    forall i :: 0 <= i < |unused| ==> unused[i] < n
  }

  /** Index of the first unused position with this identity, or the number of unused positions. */
  function FirstMatch<I(==)>(ids: seq<I>, unused: seq<nat>, id: I): (k: nat)
    requires InRange(unused, |ids|)
    ensures k <= |unused| && (k < |unused| ==> ids[unused[k]] == id)
    ensures forall i :: 0 <= i < k ==> ids[unused[i]] != id
  {
    if unused == [] || ids[unused[0]] == id then 0 else 1 + FirstMatch(ids, unused[1..], id)
  }

  function Without(unused: seq<nat>, k: nat): (r: seq<nat>)
    requires k <= |unused|
    ensures |r| == if k == |unused| then k else |unused| - 1
    ensures forall n :: InRange(unused, n) ==> InRange(r, n)
  {
    if unused == [] then []
    else if k == 0 then unused[1..]
    else
      var rest := Without(unused[1..], k - 1);
      assert forall n :: InRange(unused, n) ==> InRange(unused[1..], n) && InRange(rest, n);
      [unused[0]] + rest
  }

  lemma {:induction false} WithoutIs(unused: seq<nat>, k: nat)
    requires k <= |unused|
    ensures Without(unused, k) == if k == |unused| then unused else unused[..k] + unused[k + 1..]
  {
    if unused != [] && k > 0 {
      WithoutIs(unused[1..], k - 1);
      if k < |unused| {
        assert unused[..k] == [unused[0]] + unused[1..][..k - 1] && unused[k + 1..] == unused[1..][k..];
      } else {
        assert unused == [unused[0]] + unused[1..];
      }
    }
  }

  lemma WithoutHas(unused: seq<nat>, k: nat, p: nat)
    requires k <= |unused| && p in Without(unused, k)
    ensures p in unused
  {
    WithoutIs(unused, k);
  }

  /** For each draft identity the live position it is paired with. */
  function Pairs<I(==)>(ids: seq<I>, unused: seq<nat>, draft: seq<I>): (r: seq<Option<nat>>)
    requires InRange(unused, |ids|)
    ensures |r| == |draft|
    decreases |draft|
  {
    if draft == [] then []
    else
      var k := FirstMatch(ids, unused, draft[0]);
      [if k < |unused| then Some(unused[k]) else None] + Pairs(ids, Without(unused, k), draft[1..])
  }

  /** The live positions left over. */
  function Left<I(==)>(ids: seq<I>, unused: seq<nat>, draft: seq<I>): (r: seq<nat>)
    requires InRange(unused, |ids|)
    decreases |draft|
  {
    if draft == [] then unused
    else Left(ids, Without(unused, FirstMatch(ids, unused, draft[0])), draft[1..])
  }

  predicate AllPaired(pairs: seq<Option<nat>>) {
    forall i :: 0 <= i < |pairs| ==> pairs[i].Some?
  }

  lemma {:induction false} PairsHaveTheIdentity<I>(ids: seq<I>, unused: seq<nat>, draft: seq<I>, i: nat)
    requires InRange(unused, |ids|) && i < |draft| && Pairs(ids, unused, draft)[i].Some?
    ensures var p := Pairs(ids, unused, draft)[i].value; p in unused && p < |ids| && ids[p] == draft[i]
    decreases |draft|
  {
    if i > 0 {
      var k := FirstMatch(ids, unused, draft[0]);
      PairsHaveTheIdentity(ids, Without(unused, k), draft[1..], i - 1);
      WithoutHas(unused, k, Pairs(ids, Without(unused, k), draft[1..])[i - 1].value);
    }
  }

  predicate Compatible(live: seq<Solution>, draft: seq<Solution>) {
    && |live| == |draft|
    && AllPaired(Pairs(Identities(live), UpTo(|live|), Identities(draft)))
    && Left(Identities(live), UpTo(|live|), Identities(draft)) == []
  }

  /** The live position of each draft solution. */
  function Partner(live: seq<Solution>, draft: seq<Solution>): (r: seq<nat>)
    requires Compatible(live, draft)
    ensures |r| == |draft|
    ensures forall i :: 0 <= i < |r| ==> r[i] < |live|
    ensures forall i :: 0 <= i < |r| ==> SolutionIdentity(live[r[i]]) == SolutionIdentity(draft[i])
  {
    var pairs := Pairs(Identities(live), UpTo(|live|), Identities(draft));
    assert forall i :: 0 <= i < |draft| ==>
             pairs[i].value < |live| && Identities(live)[pairs[i].value] == Identities(draft)[i] by {
      forall i | 0 <= i < |draft|
        ensures pairs[i].value < |live| && Identities(live)[pairs[i].value] == Identities(draft)[i]
      {
        PairsHaveTheIdentity(Identities(live), UpTo(|live|), Identities(draft), i);
      }
    }
    seq(|draft|, i requires 0 <= i < |draft| => pairs[i].value)
  }

  function Merged(live: seq<Solution>, draft: seq<Solution>): (r: seq<Solution>)
    requires Compatible(live, draft)
    ensures |r| == |draft|
  {
    var partner := Partner(live, draft);
    seq(|draft|, i requires 0 <= i < |draft| => Merge(live[partner[i]], draft[i]))
  }

  /** The draft's solutions in its order, each merged and under the key of its partner. */
  function AlignedEntries(live: seq<Entry>, draft: seq<Solution>): (r: seq<Entry>)
    requires Compatible(Solutions(Keyed(live)), draft)
    ensures |r| == |draft|
  {
    var partner := Partner(Solutions(Keyed(live)), draft);
    var merged := Merged(Solutions(Keyed(live)), draft);
    seq(|draft|, i requires 0 <= i < |draft| => (live[partner[i]].0, merged[i]))
  }

  /** As an object lists them. */
  function KeyedMerge(live: seq<Entry>, draft: seq<Solution>): seq<Entry>
    requires Compatible(Solutions(Keyed(live)), draft)
  {
    Relisted(AlignedEntries(live, draft))
  }

  datatype Alignment = Alignment(compatible: bool, value: Collection)

  function Align(live: Collection, draft: Collection): Alignment {
    if !Compatible(Solutions(live), Solutions(draft)) then Alignment(false, live)
    else
      match live
      case List(items) => Alignment(true, List(Merged(items, Solutions(draft))))
      case Keyed(entries) => Alignment(true, Keyed(KeyedMerge(entries, Solutions(draft))))
      case Missing => Alignment(true, Keyed([]))
  }

  // ---------- complete and sound ----------

  function At<I>(ids: seq<I>, unused: seq<nat>): (r: seq<I>)
    requires InRange(unused, |ids|)
    ensures |r| == |unused| && forall i :: 0 <= i < |r| ==> r[i] == ids[unused[i]]
  {
    seq(|unused|, i requires 0 <= i < |unused| => ids[unused[i]])
  }

  lemma AtCons<T>(s: seq<T>, p: nat, rest: seq<nat>)
    requires p < |s| && InRange(rest, |s|)
    ensures InRange([p] + rest, |s|) && At(s, [p] + rest) == [s[p]] + At(s, rest)
  {
  }

  lemma MiddleCounts<T>(a: seq<T>, x: T, b: seq<T>)
    ensures multiset(a + [x] + b) == multiset(a + b) + multiset{x}
  {
  }

  lemma AtMiddle<T>(s: seq<T>, a: seq<nat>, p: nat, b: seq<nat>)
    requires p < |s| && InRange(a, |s|) && InRange(b, |s|)
    ensures InRange(a + [p] + b, |s|) && At(s, a + [p] + b) == At(s, a) + [s[p]] + At(s, b)
    ensures InRange(a + b, |s|) && At(s, a + b) == At(s, a) + At(s, b)
  {
  }

  lemma AtMiddleCounts<T>(s: seq<T>, a: seq<nat>, p: nat, b: seq<nat>)
    requires p < |s| && InRange(a + [p] + b, |s|) && InRange(a + b, |s|)
    ensures multiset(At(s, a + [p] + b)) == multiset(At(s, a + b)) + multiset{s[p]}
  {
    assert forall i :: 0 <= i < |a| ==> a[i] == (a + b)[i];
    assert forall i :: 0 <= i < |b| ==> b[i] == (a + b)[|a| + i];
    AtMiddle(s, a, p, b);
    MiddleCounts(At(s, a), s[p], At(s, b));
  }

  lemma Around(unused: seq<nat>, k: nat) returns (a: seq<nat>, p: nat, b: seq<nat>)
    requires k < |unused|
    ensures p == unused[k] && unused == a + [p] + b && Without(unused, k) == a + b
  {
    WithoutIs(unused, k);
    a, p, b := unused[..k], unused[k], unused[k + 1..];
  }

  lemma WithoutCounts(unused: seq<nat>, k: nat)
    requires k < |unused|
    ensures multiset(unused) == multiset(Without(unused, k)) + multiset{unused[k]}
  {
    var a, p, b := Around(unused, k);
    MiddleCounts(a, p, b);
  }

  lemma WithoutSplits<I>(ids: seq<I>, unused: seq<nat>, k: nat)
    requires InRange(unused, |ids|) && k < |unused|
    ensures multiset(At(ids, unused)) == multiset(At(ids, Without(unused, k))) + multiset{ids[unused[k]]}
    ensures multiset(unused) == multiset(Without(unused, k)) + multiset{unused[k]}
  {
    WithoutCounts(unused, k);
    var a, p, b := Around(unused, k);
    AtMiddleCounts(ids, a, p, b);
  }

  /** Every draft identity finds a partner and no position is left over. */
  predicate Fits<I(==)>(ids: seq<I>, unused: seq<nat>, draft: seq<I>)
    requires InRange(unused, |ids|)
    decreases |draft|
  {
    if draft == [] then unused == []
    else
      var k := FirstMatch(ids, unused, draft[0]);
      k < |unused| && Fits(ids, Without(unused, k), draft[1..])
  }

  lemma {:induction false} FitsMeans<I>(ids: seq<I>, unused: seq<nat>, draft: seq<I>)
    requires InRange(unused, |ids|)
    ensures Fits(ids, unused, draft) <==> AllPaired(Pairs(ids, unused, draft)) && Left(ids, unused, draft) == []
    decreases |draft|
  {
    if draft != [] {
      var k := FirstMatch(ids, unused, draft[0]);
      var pairs, rest := Pairs(ids, unused, draft), Pairs(ids, Without(unused, k), draft[1..]);
      FitsMeans(ids, Without(unused, k), draft[1..]);
      assert forall i :: 0 <= i < |rest| ==> rest[i] == pairs[i + 1];
      assert pairs[0].Some? <==> k < |unused|;
      assert AllPaired(pairs) <==> pairs[0].Some? && AllPaired(rest) by {
        assert forall i :: 0 < i < |pairs| ==> pairs[i] == rest[i - 1];
      }
    }
  }

  lemma Cancel<I>(a: multiset<I>, b: multiset<I>, x: I)
    ensures a + multiset{x} == b + multiset{x} <==> a == b
  {
    assert (a + multiset{x}) - multiset{x} == a;
    assert (b + multiset{x}) - multiset{x} == b;
  }

  lemma NoPartner<I>(ids: seq<I>, unused: seq<nat>, draft: seq<I>)
    requires InRange(unused, |ids|) && draft != [] && FirstMatch(ids, unused, draft[0]) == |unused|
    ensures multiset(At(ids, unused)) != multiset(draft)
  {
    assert draft[0] !in At(ids, unused);
    assert draft[0] in multiset(draft);
  }

  lemma HeadCounts<I>(draft: seq<I>)
    requires draft != []
    ensures multiset(draft) == multiset(draft[1..]) + multiset{draft[0]}
  {
    assert draft == [draft[0]] + draft[1..];
  }

  lemma {:induction false} FitsExactly<I>(ids: seq<I>, unused: seq<nat>, draft: seq<I>)
    requires InRange(unused, |ids|)
    ensures Fits(ids, unused, draft) <==> multiset(At(ids, unused)) == multiset(draft)
    decreases |draft|
  {
    if draft == [] {
      assert |multiset(At(ids, unused))| == |unused|;
    } else if FirstMatch(ids, unused, draft[0]) == |unused| {
      NoPartner(ids, unused, draft);
    } else {
      var k := FirstMatch(ids, unused, draft[0]);
      FitsExactly(ids, Without(unused, k), draft[1..]);
      WithoutSplits(ids, unused, k);
      HeadCounts(draft);
      Cancel(multiset(At(ids, Without(unused, k))), multiset(draft[1..]), draft[0]);
    }
  }

  /** The match reports compatible exactly when both sides have the same identities, as often. */
  lemma CompatibleExactly(live: Collection, draft: Collection)
    ensures Align(live, draft).compatible <==>
              multiset(Identities(Solutions(live))) == multiset(Identities(Solutions(draft)))
    ensures !Align(live, draft).compatible ==> Align(live, draft).value == live
  {
    var a, b := Identities(Solutions(live)), Identities(Solutions(draft));
    FitsMeans(a, UpTo(|a|), b);
    FitsExactly(a, UpTo(|a|), b);
    assert At(a, UpTo(|a|)) == a;
    assert |multiset(a)| == |a| && |multiset(b)| == |b|;
  }

  /** The result is a list just when the live solutions are; otherwise, missing ones included, it is an object. */
  lemma AlignKeepsShape(live: Collection, draft: Collection)
    requires Align(live, draft).compatible
    ensures Align(live, draft).value.List? <==> live.List?
    ensures !live.List? ==> Align(live, draft).value.Keyed?
  {
  }

  // ---------- what a compatible match gives ----------

  lemma AllPairedCons(first: Option<nat>, rest: seq<Option<nat>>)
    requires AllPaired([first] + rest)
    ensures first.Some? && AllPaired(rest)
  {
    assert ([first] + rest)[0] == first;
    forall i | 0 <= i < |rest| ensures rest[i].Some? {
      assert ([first] + rest)[i + 1] == rest[i];
    }
  }

  lemma PositionsCons(first: Option<nat>, rest: seq<Option<nat>>)
    requires AllPaired([first] + rest) && first.Some? && AllPaired(rest)
    ensures Positions([first] + rest) == [first.value] + Positions(rest)
  {
    var a, b := Positions([first] + rest), [first.value] + Positions(rest);
    forall i | 0 <= i < |a| ensures a[i] == b[i] {
      assert i > 0 ==> b[i] == Positions(rest)[i - 1] == rest[i - 1].value;
    }
  }

  lemma PairsCons<I>(ids: seq<I>, unused: seq<nat>, draft: seq<I>, k: nat)
    requires InRange(unused, |ids|) && draft != [] && k == FirstMatch(ids, unused, draft[0])
    requires AllPaired(Pairs(ids, unused, draft))
    ensures k < |unused| && AllPaired(Pairs(ids, Without(unused, k), draft[1..]))
    ensures Positions(Pairs(ids, unused, draft)) == [unused[k]] + Positions(Pairs(ids, Without(unused, k), draft[1..]))
  {
    var first, rest := if k < |unused| then Some(unused[k]) else None, Pairs(ids, Without(unused, k), draft[1..]);
    AllPairedCons(first, rest);
    PositionsCons(first, rest);
  }

  lemma {:induction false} PairsAndLeftAreTheUnused<I>(ids: seq<I>, unused: seq<nat>, draft: seq<I>)
    requires InRange(unused, |ids|) && AllPaired(Pairs(ids, unused, draft))
    ensures multiset(Positions(Pairs(ids, unused, draft))) + multiset(Left(ids, unused, draft)) == multiset(unused)
    decreases |draft|
  {
    if draft == [] {
      assert Positions(Pairs(ids, unused, draft)) == [];
    } else {
      var k := FirstMatch(ids, unused, draft[0]);
      PairsCons(ids, unused, draft, k);
      PairsAndLeftAreTheUnused(ids, Without(unused, k), draft[1..]);
      WithoutSplits(ids, unused, k);
      HeadCounts(Positions(Pairs(ids, unused, draft)));
      assert Positions(Pairs(ids, unused, draft))[1..] == Positions(Pairs(ids, Without(unused, k), draft[1..]));
    }
  }

  function Positions(pairs: seq<Option<nat>>): (r: seq<nat>)
    requires AllPaired(pairs)
    ensures |r| == |pairs| && forall i :: 0 <= i < |r| ==> r[i] == pairs[i].value
  {
    seq(|pairs|, i requires 0 <= i < |pairs| => pairs[i].value)
  }

  /** The partners are all live positions, each once. */
  lemma PartnerIsABijection(live: seq<Solution>, draft: seq<Solution>)
    requires Compatible(live, draft)
    ensures |Partner(live, draft)| == |live| && multiset(Partner(live, draft)) == multiset(UpTo(|live|))
  {
    var ids := Identities(live);
    PairsAndLeftAreTheUnused(ids, UpTo(|live|), Identities(draft));
    assert Positions(Pairs(ids, UpTo(|live|), Identities(draft))) == Partner(live, draft);
  }

  ghost predicate Ascending(unused: seq<nat>) {
    unused == [] || (Ascending(unused[1..]) && forall p :: p in unused[1..] ==> unused[0] < p)
  }

  lemma {:induction false} WithoutKeepsAscending(unused: seq<nat>, k: nat)
    requires Ascending(unused) && k <= |unused|
    ensures Ascending(Without(unused, k))
    ensures forall p :: p in Without(unused, k) ==> p in unused
  {
    WithoutIs(unused, k);
    if 0 < k < |unused| {
      WithoutKeepsAscending(unused[1..], k - 1);
      assert Without(unused, k)[1..] == Without(unused[1..], k - 1);
    } else if k == 0 && unused != [] {
      assert Without(unused, 0) == unused[1..];
    }
  }

  lemma {:induction false} FirstPartnerIsFirst<I>(ids: seq<I>, unused: seq<nat>, id: I, p: nat)
    requires InRange(unused, |ids|) && Ascending(unused) && FirstMatch(ids, unused, id) < |unused|
    requires p in Without(unused, FirstMatch(ids, unused, id)) && p < |ids| && ids[p] == id
    ensures unused[FirstMatch(ids, unused, id)] < p
  {
    var k := FirstMatch(ids, unused, id);
    if k == 0 {
      assert Without(unused, 0) == unused[1..];
    } else {
      assert Without(unused, k) == [unused[0]] + Without(unused[1..], k - 1);
      FirstPartnerIsFirst(ids, unused[1..], id, p);
    }
  }

  lemma PairsLater<I>(ids: seq<I>, unused: seq<nat>, draft: seq<I>, i: nat)
    requires InRange(unused, |ids|) && 0 < i < |draft|
    ensures Pairs(ids, unused, draft)[i] ==
            Pairs(ids, Without(unused, FirstMatch(ids, unused, draft[0])), draft[1..])[i - 1]
  {
  }

  lemma WithoutMatchKeepsAscending<I>(ids: seq<I>, unused: seq<nat>, id: I)
    requires InRange(unused, |ids|) && Ascending(unused)
    ensures Ascending(Without(unused, FirstMatch(ids, unused, id)))
  {
    WithoutKeepsAscending(unused, FirstMatch(ids, unused, id));
  }

  lemma FirstPartner<I>(ids: seq<I>, unused: seq<nat>, draft: seq<I>, j: nat)
    requires InRange(unused, |ids|) && Ascending(unused) && 0 < j < |draft| && draft[0] == draft[j]
    requires Pairs(ids, unused, draft)[0].Some? && Pairs(ids, unused, draft)[j].Some?
    ensures Pairs(ids, unused, draft)[0].value < Pairs(ids, unused, draft)[j].value
  {
    PairsLater(ids, unused, draft, j);
    var rest := Without(unused, FirstMatch(ids, unused, draft[0]));
    PairsHaveTheIdentity(ids, rest, draft[1..], j - 1);
    FirstPartnerIsFirst(ids, unused, draft[0], Pairs(ids, rest, draft[1..])[j - 1].value);
  }

  lemma TailAt<I>(s: seq<I>, i: nat)
    requires 0 < i < |s|
    ensures s[1..][i - 1] == s[i]
  {
  }

  lemma {:induction false} LaterPartnersAreLater<I>(ids: seq<I>, unused: seq<nat>, draft: seq<I>, i: nat, j: nat)
    requires InRange(unused, |ids|) && Ascending(unused) && i < j < |draft| && draft[i] == draft[j]
    requires Pairs(ids, unused, draft)[i].Some? && Pairs(ids, unused, draft)[j].Some?
    ensures Pairs(ids, unused, draft)[i].value < Pairs(ids, unused, draft)[j].value
    decreases |draft|
  {
    if i == 0 {
      FirstPartner(ids, unused, draft, j);
    } else {
      var rest, tail := Without(unused, FirstMatch(ids, unused, draft[0])), draft[1..];
      WithoutMatchKeepsAscending(ids, unused, draft[0]);
      PairsLater(ids, unused, draft, i);
      PairsLater(ids, unused, draft, j);
      TailAt(draft, i);
      TailAt(draft, j);
      LaterPartnersAreLater(ids, rest, tail, i - 1, j - 1);
    }
  }

  lemma {:induction false} UpToAscends(n: nat, k: nat)
    requires k <= n
    ensures Ascending(UpTo(n)[k..])
    decreases n - k
  {
    if k < n {
      UpToAscends(n, k + 1);
      assert UpTo(n)[k..][1..] == UpTo(n)[k + 1..];
    }
  }

  /** Among solutions of one identity, the draft's order is the live order. */
  lemma PartnersKeepOrderWithinAnIdentity(live: seq<Solution>, draft: seq<Solution>, i: nat, j: nat)
    requires Compatible(live, draft) && i < j < |draft|
    requires SolutionIdentity(draft[i]) == SolutionIdentity(draft[j])
    ensures Partner(live, draft)[i] < Partner(live, draft)[j]
  {
    UpToAscends(|live|, 0);
    assert UpTo(|live|)[0..] == UpTo(|live|);
    LaterPartnersAreLater(Identities(live), UpTo(|live|), Identities(draft), i, j);
  }

  lemma MergedKeepsIdentities(live: seq<Solution>, draft: seq<Solution>)
    requires Compatible(live, draft)
    ensures Identities(Merged(live, draft)) == Identities(draft)
  {
    var partner := Partner(live, draft);
    forall i | 0 <= i < |draft| ensures SolutionIdentity(Merged(live, draft)[i]) == SolutionIdentity(draft[i]) {
      MergeKeepsIdentity(live[partner[i]], draft[i]);
    }
  }

  function Mapped<X, Y>(f: X -> Y, s: seq<X>): (r: seq<Y>)
    ensures |r| == |s| && forall i :: 0 <= i < |s| ==> r[i] == f(s[i])
  {
    seq(|s|, i requires 0 <= i < |s| => f(s[i]))
  }

  function Removed<X>(s: seq<X>, k: nat): (r: seq<X>)
    requires k < |s|
    ensures |r| == |s| - 1
  {
    s[..k] + s[k + 1..]
  }

  lemma RemovedCounts<X>(s: seq<X>, k: nat)
    requires k < |s|
    ensures multiset(s) == multiset(Removed(s, k)) + multiset{s[k]}
  {
    assert s == s[..k] + [s[k]] + s[k + 1..];
  }

  lemma MappedRemoved<X, Y>(f: X -> Y, s: seq<X>, k: nat)
    requires k < |s|
    ensures multiset(Mapped(f, s)) == multiset(Mapped(f, Removed(s, k))) + multiset{f(s[k])}
  {
    var image := Mapped(f, s);
    assert Removed(image, k) == Mapped(f, Removed(s, k));
    RemovedCounts(image, k);
  }

  lemma {:induction false} MappedCounts<X, Y>(f: X -> Y, a: seq<X>, b: seq<X>)
    requires multiset(a) == multiset(b)
    ensures multiset(Mapped(f, a)) == multiset(Mapped(f, b))
    decreases |a|
  {
    if a == [] {
      assert |multiset(b)| == |b| && |multiset(a)| == 0;
      assert b == [];
    } else {
      assert a[0] in multiset(b);
      var k :| 0 <= k < |b| && b[k] == a[0];
      RemovedCounts(a, 0);
      RemovedCounts(b, k);
      Cancel(multiset(Removed(a, 0)), multiset(Removed(b, k)), a[0]);
      MappedCounts(f, Removed(a, 0), Removed(b, k));
      MappedRemoved(f, a, 0);
      MappedRemoved(f, b, k);
    }
  }

  function KeysOf(entries: seq<Entry>): (r: seq<string>)
    ensures |r| == |entries| && forall i :: 0 <= i < |r| ==> r[i] == entries[i].0
  {
    seq(|entries|, i requires 0 <= i < |entries| => entries[i].0)
  }

  /** Listing entries as an object does keeps the keys and the solutions, as often. */
  lemma RelistedCounts(entries: seq<Entry>)
    ensures multiset(KeysOf(Relisted(entries))) == multiset(KeysOf(entries))
    ensures multiset(Solutions(Keyed(Relisted(entries)))) == multiset(Solutions(Keyed(entries)))
  {
    var result, key, solution := Relisted(entries), (e: Entry) => e.0, (e: Entry) => e.1;
    RelistedKeepsOrderExactly(entries);
    MappedCounts(key, result, entries);
    MappedCounts(solution, result, entries);
    assert Mapped(key, result) == KeysOf(result) && Mapped(key, entries) == KeysOf(entries);
    assert Mapped(solution, result) == Solutions(Keyed(result)) &&
           Mapped(solution, entries) == Solutions(Keyed(entries));
  }

  /**
    A list, and the entries before an object lists them: the draft's solutions in
    the draft's order, each with the identity it had.
   */
  lemma AlignedKeepsIdentityAndOrder(live: Collection, draft: Collection)
    requires Align(live, draft).compatible
    ensures !live.Keyed? ==> Solutions(Align(live, draft).value) == Merged(Solutions(live), Solutions(draft))
    ensures live.Keyed? ==>
              var aligned := AlignedEntries(live.entries, Solutions(draft));
              && Solutions(Keyed(aligned)) == Merged(Solutions(live), Solutions(draft))
              && multiset(Align(live, draft).value.entries) == multiset(aligned)
    ensures Identities(Merged(Solutions(live), Solutions(draft))) == Identities(Solutions(draft))
  {
    MergedKeepsIdentities(Solutions(live), Solutions(draft));
    if live.Keyed? {
      RelistedKeepsOrderExactly(AlignedEntries(live.entries, Solutions(draft)));
    }
  }

  lemma InOrderByKeys(a: seq<Entry>, b: seq<Entry>)
    requires |a| == |b| && forall i :: 0 <= i < |a| ==> a[i].0 == b[i].0
    requires InOrder(a)
    ensures InOrder(b)
  {
    forall i, j | 0 <= i < j < |b| && C.IsIndex(b[j].0)
      ensures C.IsIndex(b[i].0) && C.JsonNumber(b[i].0) <= C.JsonNumber(b[j].0)
    {
      assert a[i].0 == b[i].0 && a[j].0 == b[j].0;
    }
  }

  /**
    A keyed result has the draft's order exactly when the live entries, taken in
    that order, have their index-like keys first and ascending.
   */
  lemma KeyedOrderIsTheDraftsExactly(live: seq<Entry>, draft: Collection)
    requires Align(Keyed(live), draft).compatible
    ensures Align(Keyed(live), draft).value.entries == AlignedEntries(live, Solutions(draft)) <==>
            InOrder(At(live, Partner(Solutions(Keyed(live)), Solutions(draft))))
  {
    var partners := At(live, Partner(Solutions(Keyed(live)), Solutions(draft)));
    var aligned := AlignedEntries(live, Solutions(draft));
    RelistedKeepsOrderExactly(aligned);
    assert forall i :: 0 <= i < |partners| ==> aligned[i].0 == partners[i].0;
    if InOrder(aligned) {
      InOrderByKeys(aligned, partners);
    }
    if InOrder(partners) {
      InOrderByKeys(partners, aligned);
    }
  }

  lemma SwappedBack(k: string, x: Solution, l: string, y: Solution)
    requires C.Precedes(k, l)
    ensures Relisted([(l, y), (k, x)]) == [(k, x), (l, y)]
  {
    var first, second, result := (l, y), (k, x), [(k, x), (l, y)];
    FromEntriesFills([first, second], J.Empty);
    assert Listed<Solution>(J.Empty) == [];
    assert Inserted(l, y, []) == [first];
    assert Place(k, [first]) == 0;
    assert Inserted(k, x, [first]) == result;
    assert [first, second][1..] == [second] && [second][1..] == [];
    assert Filled([], result) == result;
    assert Filled([second], [first]) == Filled([], result);
    assert Filled([first, second], []) == Filled([second], [first]);
  }

  lemma TwoAreCompatible(a: seq<Solution>, b: seq<Solution>)
    requires |a| == 2 && b == [a[1], a[0]]
    ensures Compatible(a, b)
  {
    assert Identities(a) == [SolutionIdentity(a[0]), SolutionIdentity(a[1])];
    assert Identities(b) == [SolutionIdentity(a[1]), SolutionIdentity(a[0])];
    assert multiset(Identities(a)) == multiset(Identities(b));
    CompatibleExactly(List(a), List(b));
  }

  lemma PartnersOfTwo(a: seq<Solution>, b: seq<Solution>)
    requires |a| == 2 && b == [a[1], a[0]] && SolutionIdentity(a[0]) != SolutionIdentity(a[1])
    ensures Compatible(a, b) && Partner(a, b) == [1, 0]
  {
    TwoAreCompatible(a, b);
    var partner := Partner(a, b);
    assert SolutionIdentity(a[partner[0]]) == SolutionIdentity(b[0]) &&
           SolutionIdentity(a[partner[1]]) == SolutionIdentity(b[1]);
  }

  lemma TwoSwapped(k: string, x: Solution, l: string, y: Solution)
    requires C.Precedes(k, l) && SolutionIdentity(x) != SolutionIdentity(y)
    ensures Align(Keyed([(k, x), (l, y)]), List([y, x])) == Alignment(true, Keyed([(k, Merge(x, x)), (l, Merge(y, y))]))
  {
    var live, draft := [(k, x), (l, y)], [y, x];
    var a := Solutions(Keyed(live));
    assert a == [x, y];
    PartnersOfTwo(a, draft);
    assert AlignedEntries(live, draft) == [(l, Merge(y, y)), (k, Merge(x, x))];
    SwappedBack(k, Merge(x, x), l, Merge(y, y));
  }

  /** Two rows under the keys 0 and 1, which the draft lists the other way round, come back in the live order. */
  lemma RowKeysForgetTheDraftsOrder(x: Solution, y: Solution)
    requires SolutionIdentity(x) != SolutionIdentity(y)
    ensures Align(Keyed([("0", x), ("1", y)]), List([y, x])) == Alignment(true, Keyed([("0", x), ("1", y)]))
  {
    ZeroPrecedesOne();
    TwoSwapped("0", x, "1", y);
    MergeSelf(x);
    MergeSelf(y);
  }

  lemma ZeroPrecedesOne()
    ensures C.Precedes("0", "1")
  {
    assert C.JsonNumber("0") == 0 && C.JsonNumber("1") == 1;
  }

  lemma MergeSelf(x: Solution)
    ensures Merge(x, x) == x
  {
  }

  lemma TakeOut(positions: seq<nat>, n: nat, k: nat)
    requires multiset(positions) == multiset(UpTo(n + 1)) && k < |positions| && positions[k] == n
    ensures multiset(Without(positions, k)) == multiset(UpTo(n))
  {
    assert UpTo(n + 1) == UpTo(n) + [n];
    WithoutCounts(positions, k);
    Cancel(multiset(Without(positions, k)), multiset(UpTo(n)), n);
  }

  lemma WhereIsLast(positions: seq<nat>, n: nat) returns (k: nat)
    requires n > 0 && multiset(positions) == multiset(UpTo(n))
    ensures k < |positions| && positions[k] == n - 1
  {
    assert UpTo(n)[n - 1] in multiset(UpTo(n));
    assert n - 1 in multiset(positions);
    k :| 0 <= k < |positions| && positions[k] == n - 1;
  }

  lemma PrefixCounts<T>(s: seq<T>, n: nat)
    requires 0 < n <= |s|
    ensures multiset(s[..n]) == multiset(s[..n - 1]) + multiset{s[n - 1]}
  {
    assert s[..n] == s[..n - 1] + [s[n - 1]];
  }

  lemma OneOut<T>(s: seq<T>, positions: seq<nat>, k: nat, x: T)
    requires InRange(positions, |s|) && k < |positions| && s[positions[k]] == x
    ensures multiset(At(s, positions)) == multiset(At(s, Without(positions, k))) + multiset{x}
  {
    WithoutSplits(s, positions, k);
  }

  /** The last of the first n positions, and the others. */
  lemma SplitLast(positions: seq<nat>, n: nat) returns (k: nat)
    requires n > 0 && multiset(positions) == multiset(UpTo(n))
    ensures k < |positions| && positions[k] == n - 1 && multiset(Without(positions, k)) == multiset(UpTo(n - 1))
  {
    k := WhereIsLast(positions, n);
    TakeOut(positions, n - 1, k);
  }

  lemma {:induction false} PermutationOfAll<T>(s: seq<T>, positions: seq<nat>, n: nat)
    requires InRange(positions, |s|) && n <= |s| && multiset(positions) == multiset(UpTo(n))
    ensures multiset(At(s, positions)) == multiset(s[..n])
    decreases n
  {
    if n == 0 {
      NoPositions(positions);
      assert At(s, positions) == [] && s[..0] == [];
    } else {
      var k := SplitLast(positions, n);
      OneOut(s, positions, k, s[n - 1]);
      PermutationOfAll(s, Without(positions, k), n - 1);
      PrefixCounts(s, n);
    }
  }

  lemma NoPositions(positions: seq<nat>)
    requires multiset(positions) == multiset(UpTo(0))
    ensures positions == []
  {
    assert |multiset(positions)| == |positions| && |multiset(UpTo(0))| == 0;
  }

  /** A keyed result uses the live keys, each once. */
  lemma AlignedKeepsTheLiveKeys(live: seq<Entry>, draft: Collection)
    requires Align(Keyed(live), draft).compatible
    ensures multiset(KeysOf(Align(Keyed(live), draft).value.entries)) == multiset(KeysOf(live))
  {
    var a, b := Solutions(Keyed(live)), Solutions(draft);
    var aligned := AlignedEntries(live, b);
    PartnerIsABijection(a, b);
    PermutationOfAll(KeysOf(live), Partner(a, b), |live|);
    assert KeysOf(aligned) == At(KeysOf(live), Partner(a, b));
    assert KeysOf(live)[..|live|] == KeysOf(live);
    RelistedCounts(aligned);
  }

  lemma MergedIsTheDraft(live: seq<Solution>, draft: seq<Solution>)
    requires Compatible(live, draft)
    requires forall i, j :: 0 <= i < |live| && 0 <= j < |draft| ==> live[i].Keys <= draft[j].Keys
    ensures Merged(live, draft) == draft
  {
    var partner := Partner(live, draft);
    forall i | 0 <= i < |draft| ensures Merged(live, draft)[i] == draft[i] {
      assert live[partner[i]].Keys <= draft[i].Keys;
    }
  }

  /**
    With no field of its own, a live solution leaves the draft's as it was; a keyed result may list
    them in another order.
   */
  lemma AlignedIsTheDraft(live: Collection, draft: Collection)
    requires Align(live, draft).compatible
    requires forall i, j :: 0 <= i < |Solutions(live)| && 0 <= j < |Solutions(draft)| ==>
               Solutions(live)[i].Keys <= Solutions(draft)[j].Keys
    ensures multiset(Solutions(Align(live, draft).value)) == multiset(Solutions(draft))
    ensures !live.Keyed? || InOrder(AlignedEntries(live.entries, Solutions(draft))) ==>
              Solutions(Align(live, draft).value) == Solutions(draft)
  {
    MergedIsTheDraft(Solutions(live), Solutions(draft));
    if live.Keyed? {
      KeyedIsTheDraft(live.entries, Solutions(draft));
    }
  }

  lemma KeyedIsTheDraft(live: seq<Entry>, draft: seq<Solution>)
    requires Compatible(Solutions(Keyed(live)), draft) && Merged(Solutions(Keyed(live)), draft) == draft
    ensures multiset(Solutions(Keyed(KeyedMerge(live, draft)))) == multiset(draft)
    ensures InOrder(AlignedEntries(live, draft)) ==> Solutions(Keyed(KeyedMerge(live, draft))) == draft
  {
    var aligned := AlignedEntries(live, draft);
    assert Solutions(Keyed(aligned)) == draft;
    RelistedCounts(aligned);
    RelistedKeepsOrderExactly(aligned);
  }

  // ---------- restoring twice ----------

  function From(n: nat, m: nat): (r: seq<nat>)
    requires n <= m
    ensures |r| == m - n && forall i :: 0 <= i < |r| ==> r[i] == n + i
  {
    seq(m - n, i requires 0 <= i => n + i)
  }

  function Wrapped(s: seq<nat>): (r: seq<Option<nat>>)
    ensures |r| == |s| && forall i :: 0 <= i < |r| ==> r[i] == Some(s[i])
  {
    seq(|s|, i requires 0 <= i < |s| => Some(s[i]))
  }

  lemma WrappedFrom(n: nat, m: nat)
    requires n < m
    ensures Wrapped(From(n, m)) == [Some(n)] + Wrapped(From(n + 1, m))
  {
  }

  lemma PairOneInPlace<I>(ids: seq<I>, n: nat)
    requires n < |ids|
    ensures Pairs(ids, From(n, |ids|), ids[n..]) == [Some(n)] + Pairs(ids, From(n + 1, |ids|), ids[n + 1..])
    ensures Left(ids, From(n, |ids|), ids[n..]) == Left(ids, From(n + 1, |ids|), ids[n + 1..])
  {
    assert FirstMatch(ids, From(n, |ids|), ids[n]) == 0;
    assert Without(From(n, |ids|), 0) == From(n + 1, |ids|);
    assert ids[n..][0] == ids[n] && ids[n..][1..] == ids[n + 1..];
  }

  lemma {:induction false} SameIdentitiesPairInPlace<I>(ids: seq<I>, n: nat)
    requires n <= |ids|
    ensures Pairs(ids, From(n, |ids|), ids[n..]) == Wrapped(From(n, |ids|))
    ensures Left(ids, From(n, |ids|), ids[n..]) == []
    decreases |ids| - n
  {
    if n == |ids| {
      assert ids[n..] == [] && From(n, |ids|) == [] && Wrapped(From(n, |ids|)) == [];
    } else {
      PairOneInPlace(ids, n);
      SameIdentitiesPairInPlace(ids, n + 1);
      WrappedFrom(n, |ids|);
    }
  }

  lemma InPlace(a: seq<Solution>, b: seq<Solution>)
    requires Identities(a) == Identities(b)
    ensures Compatible(a, b) && Partner(a, b) == UpTo(|a|)
  {
    var ids := Identities(a);
    SameIdentitiesPairInPlace(ids, 0);
    assert From(0, |ids|) == UpTo(|ids|) && ids[0..] == ids;
  }

  lemma MergingAgain(live: seq<Solution>, draft: seq<Solution>)
    requires Compatible(live, draft) && Identities(Merged(live, draft)) == Identities(draft)
    ensures Compatible(Merged(live, draft), draft) && Merged(Merged(live, draft), draft) == Merged(live, draft)
  {
    var merged := Merged(live, draft);
    InPlace(merged, draft);
    var partner := Partner(live, draft);
    forall i | 0 <= i < |draft| ensures Merged(merged, draft)[i] == merged[i] {
      MergeTwice(live[partner[i]], draft[i]);
    }
  }

  lemma MergeTwice(live: Solution, draft: Solution)
    ensures Merge(Merge(live, draft), draft) == Merge(live, draft)
  {
  }

  // ---------- restoring a keyed collection twice ----------

  function EntryIdentity(e: Entry): Option<Identity> {
    SolutionIdentity(e.1)
  }

  function OfIdentity(entries: seq<Entry>, x: Option<Identity>): seq<Entry> {
    if entries == [] then [] else IfOf(entries[0], x) + OfIdentity(entries[1..], x)
  }

  function IfOf(e: Entry, x: Option<Identity>): seq<Entry> {
    if EntryIdentity(e) == x then [e] else []
  }

  lemma {:induction false} OfIdentityHas(entries: seq<Entry>, x: Option<Identity>, e: Entry)
    ensures e in OfIdentity(entries, x) <==> e in entries && EntryIdentity(e) == x
  {
    if entries != [] {
      OfIdentityHas(entries[1..], x, e);
      assert e in entries <==> e == entries[0] || e in entries[1..];
    }
  }

  lemma {:induction false} NoneOfIdentity(entries: seq<Entry>, x: Option<Identity>)
    requires forall i :: 0 <= i < |entries| ==> EntryIdentity(entries[i]) != x
    ensures OfIdentity(entries, x) == []
  {
    if entries != [] {
      NoneOfIdentity(entries[1..], x);
    }
  }

  lemma {:induction false} OfIdentityConcat(a: seq<Entry>, b: seq<Entry>, x: Option<Identity>)
    ensures OfIdentity(a + b, x) == OfIdentity(a, x) + OfIdentity(b, x)
  {
    if a == [] {
      assert a + b == b;
    } else {
      OfIdentityConcat(a[1..], b, x);
      assert (a + b)[1..] == a[1..] + b;
      Associative(IfOf(a[0], x), OfIdentity(a[1..], x), OfIdentity(b, x));
    }
  }

  lemma Associative<T>(a: seq<T>, b: seq<T>, c: seq<T>)
    ensures a + b + c == a + (b + c)
  {
  }

  lemma OfOne(e: Entry, x: Option<Identity>)
    ensures OfIdentity([e], x) == IfOf(e, x)
  {
    assert [e][1..] == [];
  }

  lemma OfThree(a: seq<Entry>, e: Entry, c: seq<Entry>, x: Option<Identity>)
    ensures OfIdentity(a + [e] + c, x) == OfIdentity(a, x) + IfOf(e, x) + OfIdentity(c, x)
  {
    OfIdentityConcat(a + [e], c, x);
    OfIdentityConcat(a, [e], x);
    OfOne(e, x);
  }

  lemma ToTheBack<T>(a: seq<T>, e: seq<T>, c: seq<T>)
    requires c == [] || e == []
    ensures a + e + c == (a + c) + e
  {
  }

  /** How often an identity occurs in front of a position. */
  function Rank<I(==)>(ids: seq<I>, x: I, i: nat): nat
    requires i <= |ids|
  {
    if i == 0 then 0 else (if ids[0] == x then 1 else 0) + Rank(ids[1..], x, i - 1)
  }

  /** The unused positions of an identity, in order. */
  function OfId<I(==)>(ids: seq<I>, unused: seq<nat>, x: I): (r: seq<nat>)
    requires InRange(unused, |ids|)
    ensures InRange(r, |ids|)
  {
    if unused == [] then []
    else if ids[unused[0]] == x then [unused[0]] + OfId(ids, unused[1..], x)
    else OfId(ids, unused[1..], x)
  }

  function IfId<I(==)>(ids: seq<I>, p: nat, x: I): seq<nat>
    requires p < |ids|
  {
    if ids[p] == x then [p] else []
  }

  lemma OfIdCons<I>(ids: seq<I>, p: nat, rest: seq<nat>, x: I)
    requires p < |ids| && InRange(rest, |ids|)
    ensures InRange([p] + rest, |ids|) && OfId(ids, [p] + rest, x) == IfId(ids, p, x) + OfId(ids, rest, x)
  {
    assert ([p] + rest)[1..] == rest;
  }

  lemma Swap<T>(a: seq<T>, e: seq<T>, c: seq<T>)
    requires a == [] || e == []
    ensures a + (e + c) == e + (a + c)
  {
  }

  lemma {:induction false} OfIdWithout<I>(ids: seq<I>, unused: seq<nat>, k: nat, x: I)
    requires InRange(unused, |ids|) && k < |unused|
    requires forall j :: 0 <= j < k ==> ids[unused[j]] != ids[unused[k]]
    ensures OfId(ids, unused, x) == IfId(ids, unused[k], x) + OfId(ids, Without(unused, k), x)
  {
    var first, rest := unused[0], unused[1..];
    assert unused == [first] + rest;
    OfIdCons(ids, first, rest, x);
    if k == 0 {
      assert Without(unused, 0) == rest;
    } else {
      forall j | 0 <= j < k - 1 ensures ids[rest[j]] != ids[rest[k - 1]] {
        assert rest[j] == unused[j + 1];
      }
      OfIdWithout(ids, rest, k - 1, x);
      assert Without(unused, k) == [first] + Without(rest, k - 1);
      OfIdCons(ids, first, Without(rest, k - 1), x);
      Swap(IfId(ids, first, x), IfId(ids, unused[k], x), OfId(ids, Without(rest, k - 1), x));
    }
  }

  /** The n-th unused position of an identity. */
  function Nth<I(==)>(ids: seq<I>, unused: seq<nat>, x: I, n: nat): Option<nat>
    requires InRange(unused, |ids|)
  {
    Item(OfId(ids, unused, x), n)
  }

  function Item<T>(s: seq<T>, n: nat): Option<T> {
    if n < |s| then Some(s[n]) else None
  }

  lemma NthBehind<I>(ids: seq<I>, unused: seq<nat>, k: nat, x: I, n: nat, p: nat)
    requires InRange(unused, |ids|) && k < |unused|
    requires forall j :: 0 <= j < k ==> ids[unused[j]] != ids[unused[k]]
    ensures ids[unused[k]] == x ==> Nth(ids, unused, x, 0) == Some(unused[k])
    ensures Nth(ids, Without(unused, k), x, n) == Some(p) ==>
              Nth(ids, unused, x, |IfId(ids, unused[k], x)| + n) == Some(p)
  {
    OfIdWithout(ids, unused, k, x);
    ItemOfSum(IfId(ids, unused[k], x), OfId(ids, Without(unused, k), x), n);
  }

  lemma ItemOfSum<T>(a: seq<T>, b: seq<T>, n: nat)
    ensures Item(a + b, |a| + n) == Item(b, n)
    ensures a != [] ==> Item(a + b, 0) == Some(a[0])
  {
  }

  lemma PairsHead<I>(ids: seq<I>, unused: seq<nat>, draft: seq<I>, k: nat)
    requires InRange(unused, |ids|) && draft != [] && k == FirstMatch(ids, unused, draft[0])
    requires AllPaired(Pairs(ids, unused, draft))
    ensures k < |unused| && ids[unused[k]] == draft[0] && Pairs(ids, unused, draft)[0] == Some(unused[k])
    ensures Rank(draft, draft[0], 0) == 0
  {
    PairsCons(ids, unused, draft, k);
  }

  /** What the pairing of a later draft solution comes from. */
  lemma PairsTail<I>(ids: seq<I>, unused: seq<nat>, draft: seq<I>, k: nat, i: nat)
    requires InRange(unused, |ids|) && 0 < i < |draft| && k == FirstMatch(ids, unused, draft[0])
    requires AllPaired(Pairs(ids, unused, draft))
    ensures AllPaired(Pairs(ids, Without(unused, k), draft[1..])) && k < |unused| && ids[unused[k]] == draft[0]
    ensures Pairs(ids, unused, draft)[i] == Pairs(ids, Without(unused, k), draft[1..])[i - 1]
    ensures draft[1..][i - 1] == draft[i]
    ensures Rank(draft, draft[i], i) == |IfId(ids, unused[k], draft[i])| + Rank(draft[1..], draft[i], i - 1)
  {
    PairsCons(ids, unused, draft, k);
    PairsLater(ids, unused, draft, i);
  }

  lemma FirstByRank<I>(ids: seq<I>, unused: seq<nat>, draft: seq<I>)
    requires InRange(unused, |ids|) && draft != [] && AllPaired(Pairs(ids, unused, draft))
    ensures Nth(ids, unused, draft[0], Rank(draft, draft[0], 0)) == Pairs(ids, unused, draft)[0]
  {
    var k := FirstMatch(ids, unused, draft[0]);
    PairsHead(ids, unused, draft, k);
    NthBehind(ids, unused, k, draft[0], 0, 0);
  }

  /** The problem that is left once the first draft solution has its partner. */
  lemma LaterByRank<I>(ids: seq<I>, unused: seq<nat>, draft: seq<I>, i: nat) returns (rest: seq<nat>, tail: seq<I>)
    requires InRange(unused, |ids|) && 0 < i < |draft| && AllPaired(Pairs(ids, unused, draft))
    ensures |tail| == |draft| - 1 && tail[i - 1] == draft[i] && InRange(rest, |ids|)
    ensures AllPaired(Pairs(ids, rest, tail))
    ensures Nth(ids, rest, tail[i - 1], Rank(tail, tail[i - 1], i - 1)) == Pairs(ids, rest, tail)[i - 1] ==>
              Nth(ids, unused, draft[i], Rank(draft, draft[i], i)) == Pairs(ids, unused, draft)[i]
  {
    var k := FirstMatch(ids, unused, draft[0]);
    PairsTail(ids, unused, draft, k, i);
    rest, tail := Without(unused, k), draft[1..];
    NthBehind(ids, unused, k, draft[i], Rank(tail, draft[i], i - 1), Pairs(ids, unused, draft)[i].value);
  }

  /** The pairing is by rank: the n-th draft solution of an identity gets the n-th live position of it. */
  lemma {:induction false} PairedByRank<I>(ids: seq<I>, unused: seq<nat>, draft: seq<I>, i: nat)
    requires InRange(unused, |ids|) && i < |draft| && AllPaired(Pairs(ids, unused, draft))
    ensures Nth(ids, unused, draft[i], Rank(draft, draft[i], i)) == Pairs(ids, unused, draft)[i]
    decreases |draft|
  {
    if i == 0 {
      FirstByRank(ids, unused, draft);
    } else {
      var rest, tail := LaterByRank(ids, unused, draft, i);
      PairedByRank(ids, rest, tail, i - 1);
    }
  }

  lemma OfIdentityCons(e: Entry, rest: seq<Entry>, x: Option<Identity>)
    ensures OfIdentity([e] + rest, x) == IfOf(e, x) + OfIdentity(rest, x)
  {
    assert ([e] + rest)[1..] == rest;
  }

  lemma {:induction false} OfIdentityAt(entries: seq<Entry>, ids: seq<Option<Identity>>, unused: seq<nat>,
                                        x: Option<Identity>)
    requires |ids| == |entries| && InRange(unused, |ids|)
    requires forall p :: 0 <= p < |entries| ==> ids[p] == EntryIdentity(entries[p])
    ensures OfIdentity(At(entries, unused), x) == At(entries, OfId(ids, unused, x))
  {
    if unused != [] {
      var p, rest := unused[0], unused[1..];
      assert unused == [p] + rest;
      OfIdentityAt(entries, ids, rest, x);
      AtCons(entries, p, rest);
      OfIdentityCons(entries[p], At(entries, rest), x);
      if ids[p] == x {
        AtCons(entries, p, OfId(ids, rest, x));
      }
    }
  }

  lemma {:induction false} OfIdentityInOrder(entries: seq<Entry>, x: Option<Identity>)
    requires forall i, j :: 0 <= i < j < |entries| && EntryIdentity(entries[i]) == EntryIdentity(entries[j]) ==>
               !C.Precedes(entries[j].0, entries[i].0)
    ensures InOrder(OfIdentity(entries, x))
  {
    if entries != [] {
      OfIdentityInOrder(entries[1..], x);
      var r, rest := OfIdentity(entries, x), OfIdentity(entries[1..], x);
      if EntryIdentity(entries[0]) == x {
        forall j | 0 <= j < |rest| ensures !C.Precedes(rest[j].0, entries[0].0) {
          OfIdentityHas(entries[1..], x, rest[j]);
        }
        assert r[1..] == rest;
      }
    }
  }

  lemma AfterThePlace(k: string, entries: seq<Entry>, j: nat)
    requires InOrder(entries) && Place(k, entries) <= j < |entries|
    ensures C.Precedes(k, entries[j].0)
  {
    var p := Place(k, entries);
    assert C.Precedes(k, entries[p].0);
  }

  lemma NoneBehindThePlace(e: Entry, entries: seq<Entry>, x: Option<Identity>)
    requires InOrder(entries) && InOrder(OfIdentity(entries, x) + [e])
    ensures OfIdentity(entries[Place(e.0, entries)..], x) == []
  {
    var p := Place(e.0, entries);
    var after := entries[p..];
    forall j | 0 <= j < |after| ensures EntryIdentity(after[j]) != x {
      assert after[j] == entries[p + j];
      if EntryIdentity(entries[p + j]) == x {
        AfterThePlace(e.0, entries, p + j);
        NotPreceded(entries, e, x, p + j);
      }
    }
    NoneOfIdentity(after, x);
  }

  lemma InsertedOfIdentity(e: Entry, entries: seq<Entry>, x: Option<Identity>)
    requires InOrder(entries)
    requires EntryIdentity(e) == x ==> InOrder(OfIdentity(entries, x) + [e])
    ensures OfIdentity(Inserted(e.0, e.1, entries), x) == OfIdentity(entries, x) + IfOf(e, x)
  {
    var p := Place(e.0, entries);
    var before, after := entries[..p], entries[p..];
    assert entries == before + after;
    OfIdentityConcat(before, after, x);
    OfThree(before, e, after, x);
    if EntryIdentity(e) == x {
      NoneBehindThePlace(e, entries, x);
    }
    ToTheBack(OfIdentity(before, x), IfOf(e, x), OfIdentity(after, x));
  }

  lemma NotPreceded(entries: seq<Entry>, e: Entry, x: Option<Identity>, j: nat)
    requires InOrder(OfIdentity(entries, x) + [e]) && j < |entries| && EntryIdentity(entries[j]) == x
    ensures !C.Precedes(e.0, entries[j].0)
  {
    var same := OfIdentity(entries, x);
    OfIdentityHas(entries, x, entries[j]);
    var n :| 0 <= n < |same| && same[n] == entries[j];
    assert (same + [e])[n] == entries[j] && (same + [e])[|same|] == e;
  }

  /** Listing entries as an object does keeps the order within an identity where that is an object's own. */
  lemma {:induction false} FilledOfIdentity(entries: seq<Entry>, built: seq<Entry>, x: Option<Identity>)
    requires InOrder(built) && InOrder(OfIdentity(built, x) + OfIdentity(entries, x))
    ensures OfIdentity(Filled(entries, built), x) == OfIdentity(built, x) + OfIdentity(entries, x)
    decreases |entries|
  {
    if entries != [] {
      var k, v, rest, same := entries[0].0, entries[0].1, entries[1..], OfIdentity(built, x);
      var first := IfOf((k, v), x);
      assert OfIdentity(entries, x) == first + OfIdentity(rest, x);
      assert same + OfIdentity(entries, x) == same + first + OfIdentity(rest, x);
      InOrderPrefix(same + first, OfIdentity(rest, x));
      InsertedOfIdentity(entries[0], built, x);
      InsertedIsInOrder(k, v, built);
      FilledOfIdentity(rest, Inserted(k, v, built), x);
    }
  }

  lemma InOrderPrefix(a: seq<Entry>, b: seq<Entry>)
    requires InOrder(a + b)
    ensures InOrder(a)
  {
    assert forall i :: 0 <= i < |a| ==> a[i] == (a + b)[i];
  }

  lemma AlignedOfIdentityInOrder(live: seq<Entry>, draft: seq<Solution>, x: Option<Identity>)
    requires InOrder(live) && Compatible(Solutions(Keyed(live)), draft)
    ensures OfIdentity(KeyedMerge(live, draft), x) == OfIdentity(AlignedEntries(live, draft), x)
  {
    var a, aligned := Solutions(Keyed(live)), AlignedEntries(live, draft);
    var partner := Partner(a, draft);
    MergedKeepsIdentities(a, draft);
    forall i, j | 0 <= i < j < |aligned| && EntryIdentity(aligned[i]) == EntryIdentity(aligned[j])
      ensures !C.Precedes(aligned[j].0, aligned[i].0)
    {
      assert Identities(Merged(a, draft))[i] == SolutionIdentity(draft[i]);
      assert Identities(Merged(a, draft))[j] == SolutionIdentity(draft[j]);
      PartnersKeepOrderWithinAnIdentity(a, draft, i, j);
      assert aligned[i].0 == live[partner[i]].0 && aligned[j].0 == live[partner[j]].0;
    }
    OfIdentityInOrder(aligned, x);
    FromEntriesFills(aligned, J.Empty);
    assert OfIdentity([], x) + OfIdentity(aligned, x) == OfIdentity(aligned, x);
    FilledOfIdentity(aligned, [], x);
  }

  lemma PartnerByRank(entries: seq<Entry>, draft: seq<Solution>, i: nat)
    requires Compatible(Solutions(Keyed(entries)), draft) && i < |draft|
    ensures var x := SolutionIdentity(draft[i]);
            var rank := Rank(Identities(draft), x, i);
            && rank < |OfIdentity(entries, x)|
            && OfIdentity(entries, x)[rank] == entries[Partner(Solutions(Keyed(entries)), draft)[i]]
  {
    var ids := Identities(Solutions(Keyed(entries)));
    var x, wanted := SolutionIdentity(draft[i]), Identities(draft);
    PairedByRank(ids, UpTo(|ids|), wanted, i);
    OfIdentityAt(entries, ids, UpTo(|ids|), x);
    assert At(entries, UpTo(|ids|)) == entries;
    assert OfIdentity(entries, x) == At(entries, OfId(ids, UpTo(|ids|), wanted[i]));
  }

  lemma StillCompatible(live: seq<Entry>, draft: seq<Solution>)
    requires Compatible(Solutions(Keyed(live)), draft)
    ensures Compatible(Solutions(Keyed(KeyedMerge(live, draft))), draft)
    ensures Compatible(Merged(Solutions(Keyed(live)), draft), draft)
    ensures Partner(Merged(Solutions(Keyed(live)), draft), draft) == UpTo(|draft|)
  {
    var aligned, result := AlignedEntries(live, draft), KeyedMerge(live, draft);
    var merged := Merged(Solutions(Keyed(live)), draft);
    RelistedCounts(aligned);
    assert Solutions(Keyed(aligned)) == merged;
    MergedKeepsIdentities(Solutions(Keyed(live)), draft);
    InPlace(merged, draft);
    var id := (s: Solution) => SolutionIdentity(s);
    MappedCounts(id, Solutions(Keyed(result)), merged);
    assert Mapped(id, Solutions(Keyed(result))) == Identities(Solutions(Keyed(result)));
    assert Mapped(id, merged) == Identities(merged);
    CompatibleExactly(Keyed(result), List(draft));
  }

  lemma SamePartnerAgain(live: seq<Entry>, draft: seq<Solution>, i: nat)
    requires InOrder(live) && Compatible(Solutions(Keyed(live)), draft) && i < |draft|
    requires Compatible(Solutions(Keyed(KeyedMerge(live, draft))), draft)
    ensures var result := KeyedMerge(live, draft);
            var partner := Partner(Solutions(Keyed(result)), draft);
            && result[partner[i]] == AlignedEntries(live, draft)[i]
            && Merge(AlignedEntries(live, draft)[i].1, draft[i]) == AlignedEntries(live, draft)[i].1
  {
    StillCompatible(live, draft);
    var aligned := AlignedEntries(live, draft);
    assert Solutions(Keyed(aligned)) == Merged(Solutions(Keyed(live)), draft);
    PartnerByRank(KeyedMerge(live, draft), draft, i);
    PartnerByRank(aligned, draft, i);
    AlignedOfIdentityInOrder(live, draft, SolutionIdentity(draft[i]));
    MergeTwice(Solutions(Keyed(live))[Partner(Solutions(Keyed(live)), draft)[i]], draft[i]);
  }

  lemma KeyedAgain(live: seq<Entry>, draft: seq<Solution>)
    requires InOrder(live) && Compatible(Solutions(Keyed(live)), draft)
    ensures Compatible(Solutions(Keyed(KeyedMerge(live, draft))), draft)
    ensures AlignedEntries(KeyedMerge(live, draft), draft) == AlignedEntries(live, draft)
  {
    StillCompatible(live, draft);
    var aligned, result := AlignedEntries(live, draft), KeyedMerge(live, draft);
    forall i | 0 <= i < |draft| ensures AlignedEntries(result, draft)[i] == aligned[i] {
      SamePartnerAgain(live, draft, i);
      assert AlignedEntries(result, draft)[i] == (aligned[i].0, Merge(aligned[i].1, draft[i]));
    }
  }

  /** Restoring the same draft a second time changes nothing; live entries come as their object lists them. */
  lemma RestoringAgainChangesNothing(live: Collection, draft: Collection)
    requires Align(live, draft).compatible && (live.Keyed? ==> InOrder(live.entries))
    ensures Align(Align(live, draft).value, draft) == Align(live, draft)
  {
    var b := Solutions(draft);
    match live
    case List(items) =>
      MergedKeepsIdentities(items, b);
      MergingAgain(items, b);
    case Keyed(entries) => KeyedAgain(entries, b);
    case Missing => assert b == [];
  }

  // ---------- the loop ----------

  /** `Array.from(unusedLive.entries()).find(...)` */
  method Find(live: seq<Solution>, unused: seq<nat>, identity: Option<Identity>) returns (k: nat)
    requires InRange(unused, |live|)
    ensures k == FirstMatch(Identities(live), unused, identity)
  {
    k := 0;
    while k < |unused| && SolutionIdentity(live[unused[k]]) != identity
      invariant k <= |unused|
      invariant FirstMatch(Identities(live), unused, identity) ==
                  k + FirstMatch(Identities(live), unused[k..], identity)
    {
      assert unused[k..][1..] == unused[k + 1..];
      k := k + 1;
    }
  }

  /** What the pairing has done before position `i`, and what is left to do. */
  ghost predicate PairedUpTo<I>(ids: seq<I>, wanted: seq<I>, i: nat, done: seq<Option<nat>>, unused: seq<nat>) {
    && i <= |wanted| && InRange(unused, |ids|)
    && Pairs(ids, UpTo(|ids|), wanted) == done + Pairs(ids, unused, wanted[i..])
    && Left(ids, UpTo(|ids|), wanted) == Left(ids, unused, wanted[i..])
  }

  lemma NothingPaired<I>(ids: seq<I>, wanted: seq<I>)
    ensures PairedUpTo(ids, wanted, 0, [], UpTo(|ids|))
  {
    assert wanted[0..] == wanted;
  }

  lemma OneMorePair<I>(ids: seq<I>, wanted: seq<I>, i: nat, done: seq<Option<nat>>, unused: seq<nat>, k: nat)
    requires PairedUpTo(ids, wanted, i, done, unused) && i < |wanted| && k == FirstMatch(ids, unused, wanted[i])
    ensures PairedUpTo(ids, wanted, i + 1, done + [if k < |unused| then Some(unused[k]) else None], Without(unused, k))
  {
    assert wanted[i..][1..] == wanted[i + 1..];
    var next := [if k < |unused| then Some(unused[k]) else None];
    assert Pairs(ids, unused, wanted[i..]) == next + Pairs(ids, Without(unused, k), wanted[i + 1..]);
    Associative(done, next, Pairs(ids, Without(unused, k), wanted[i + 1..]));
  }

  lemma AllArePaired<I>(ids: seq<I>, wanted: seq<I>, done: seq<Option<nat>>, unused: seq<nat>)
    requires PairedUpTo(ids, wanted, |wanted|, done, unused)
    ensures done == Pairs(ids, UpTo(|ids|), wanted) && unused == Left(ids, UpTo(|ids|), wanted)
  {
    assert wanted[|wanted|..] == [];
  }

  /** The `map` over the draft entries, which uses up the live ones. */
  method PairUp(live: seq<Solution>, draft: seq<Solution>) returns (aligned: seq<Option<nat>>, unusedLive: seq<nat>)
    ensures aligned == Pairs(Identities(live), UpTo(|live|), Identities(draft))
    ensures unusedLive == Left(Identities(live), UpTo(|live|), Identities(draft))
  {
    aligned, unusedLive := [], UpTo(|live|);
    ghost var ids, wanted := Identities(live), Identities(draft);
    NothingPaired(ids, wanted);
    for i := 0 to |draft|
      invariant PairedUpTo(ids, wanted, i, aligned, unusedLive)
    {
      var k := Find(live, unusedLive, SolutionIdentity(draft[i]));
      OneMorePair(ids, wanted, i, aligned, unusedLive, k);
      aligned := aligned + [if k < |unusedLive| then Some(unusedLive[k]) else None];
      unusedLive := Without(unusedLive, k);
    }
    AllArePaired(ids, wanted, aligned, unusedLive);
  }

  /** `alignSolutionPayload` */
  method AlignSolutionPayload(live: Collection, draft: Collection) returns (r: Alignment)
    ensures r == Align(live, draft)
  {
    var liveEntries, draftEntries := Solutions(live), Solutions(draft);
    if |liveEntries| != |draftEntries| {
      return Alignment(false, live);
    }
    var aligned, unusedLive := PairUp(liveEntries, draftEntries);
    if !AllPaired(aligned) || unusedLive != [] {
      return Alignment(false, live);
    }
    match live {
      case List(_) => r := Alignment(true, List(Merged(liveEntries, draftEntries)));
      case Keyed(entries) => r := Alignment(true, Keyed(KeyedMerge(entries, draftEntries)));
      case Missing => r := Alignment(true, Keyed([]));
    }
  }
}
