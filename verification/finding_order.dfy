/** Counting facts about finite sets. */
module SetFacts {

  lemma SubsetSize<T>(a: set<T>, b: set<T>)
    requires a <= b
    ensures |a| <= |b|
    ensures |a| == |b| ==> a == b
  {
    assert b == a + (b - a);
    assert |b| == |a| + |b - a|;
  }

  /** The numbers 1 to n. */
  function UpTo(n: nat): set<nat> {
    if n == 0 then {} else UpTo(n - 1) + {n}
  }

  lemma {:induction false} UpToMembers(n: nat)
    ensures forall k :: k in UpTo(n) <==> 1 <= k <= n
    ensures |UpTo(n)| == n
  {
    if n > 0 {
      UpToMembers(n - 1);
    }
  }

  ghost predicate Injective<K, V>(m: map<K, V>) {
    forall x, y :: x in m && y in m && x != y ==> m[x] != m[y]
  }

  lemma {:induction false} InjectiveSize<K, V>(m: map<K, V>)
    requires Injective(m)
    ensures |m.Values| == |m|
    decreases |m|
  {
    if m.Keys != {} {
      var key :| key in m;
      var rest := m - {key};
      assert m.Keys == rest.Keys + {key};
      InjectiveSize(rest);
      assert m.Values == rest.Values + {m[key]};
    } else {
      assert m.Values == {};
    }
  }

  predicate Distinct<T(==)>(s: seq<T>) {
    forall i, j :: 0 <= i < j < |s| ==> s[i] != s[j]
  }

  function Elements<T>(s: seq<T>): set<T> {
    set i | 0 <= i < |s| :: s[i]
  }

  lemma ElementsAppend<T>(s: seq<T>, x: T)
    ensures Elements(s + [x]) == Elements(s) + {x}
  {
    var t := s + [x];
    assert t[|s|] == x;
    forall y | y in Elements(s) ensures y in Elements(t) {
      var i :| 0 <= i < |s| && s[i] == y;
      assert t[i] == y;
    }
  }

  lemma {:induction false} DistinctSize<T>(s: seq<T>)
    requires Distinct(s)
    ensures |Elements(s)| == |s|
  {
    if s != [] {
      var front := s[..|s| - 1];
      DistinctSize(front);
      assert Elements(s) == Elements(front) + {s[|s| - 1]};
    }
  }
}

/** The sort_order column of the active findings of one assessment. */
module FindingOrder {
  import opened SetFacts

  type Numbering = map<nat, nat>

  /** Sort orders are exactly 1..n: in range and pairwise different. */
  ghost predicate GapFree(order: Numbering) {
    && (forall id :: id in order ==> 1 <= order[id] <= |order|)
    && Injective(order)
  }

  /** Gap-free numbering uses every number from 1 to n. */
  lemma GapFreeCoversAll(order: Numbering)
    requires GapFree(order)
    ensures order.Values == UpTo(|order|)
  {
    InjectiveSize(order);
    UpToMembers(|order|);
    SubsetSize(order.Values, UpTo(|order|));
  }

  /** `max('sort_order')` cast to int: 0 when there is no finding. */
  ghost predicate IsMaxOrder(order: Numbering, m: nat) {
    && (forall id :: id in order ==> order[id] <= m)
    && (m == 0 || exists id :: id in order && order[id] == m)
  }

  lemma MaxOrderIsCount(order: Numbering, m: nat)
    requires GapFree(order) && IsMaxOrder(order, m)
    ensures m == |order|
  {
    GapFreeCoversAll(order);
    UpToMembers(|order|);
    if |order| > 0 {
      assert |order| in order.Values;
    }
  }

  lemma AppendKeepsGapFree(order: Numbering, id: nat, m: nat)
    requires GapFree(order) && id !in order && IsMaxOrder(order, m)
    ensures GapFree(order[id := m + 1])
  {
    MaxOrderIsCount(order, m);
    assert |order[id := m + 1]| == |order| + 1;
  }

  /** The findings numbered before `id`. */
  function Before(order: Numbering, id: nat): set<nat>
    requires id in order
  {
    set x | x in order && order[x] < order[id]
  }

  /** Every finding numbered by its rank: what a renumbering pass in order leaves behind. */
  function Compacted(order: Numbering): Numbering {
    map id | id in order :: |Before(order, id)| + 1
  }

  lemma RankGrows(order: Numbering, x: nat, y: nat)
    requires x in order && y in order && order[x] < order[y]
    ensures |Before(order, x)| < |Before(order, y)|
  {
    assert Before(order, x) <= Before(order, y) - {x};
    SubsetSize(Before(order, x), Before(order, y) - {x});
  }

  /** Renumbering by rank closes every gap and keeps the relative order. */
  lemma CompactedIsGapFree(order: Numbering)
    requires Injective(order)
    ensures GapFree(Compacted(order))
    ensures forall x, y :: x in order && y in order ==>
              (order[x] < order[y] <==> Compacted(order)[x] < Compacted(order)[y])
  {
    var cs := Compacted(order);
    assert cs.Keys == order.Keys;
    assert |cs| == |order| by { assert |cs.Keys| == |order.Keys|; }
    forall x, y | x in order && y in order && order[x] < order[y]
      ensures cs[x] < cs[y]
    {
      RankGrows(order, x, y);
    }
    forall id | id in order ensures 1 <= cs[id] <= |cs| {
      assert Before(order, id) <= order.Keys - {id};
      SubsetSize(Before(order, id), order.Keys - {id});
    }
  }

  /** The requested order written out: position i gets number i + 1. */
  function Reordered(order: Numbering, ids: seq<nat>): Numbering {
    if ids == [] then order
    else Reordered(order, ids[..|ids| - 1])[ids[|ids| - 1] := |ids|]
  }

  lemma {:induction false} ReorderedAt(order: Numbering, ids: seq<nat>)
    requires Distinct(ids)
    ensures Reordered(order, ids).Keys == order.Keys + Elements(ids)
    ensures forall i :: 0 <= i < |ids| ==> ids[i] in Reordered(order, ids) && Reordered(order, ids)[ids[i]] == i + 1
  {
    if ids != [] {
      ReorderedAt(order, ids[..|ids| - 1]);
      assert Elements(ids) == Elements(ids[..|ids| - 1]) + {ids[|ids| - 1]};
    }
  }

  lemma NumberedByPosition(order: Numbering, ids: seq<nat>)
    requires order.Keys == Elements(ids) && |order| == |ids|
    requires forall i :: 0 <= i < |ids| ==> ids[i] in order && order[ids[i]] == i + 1
    ensures GapFree(order)
  {
    forall id | id in order ensures exists i :: 0 <= i < |ids| && ids[i] == id && order[id] == i + 1 {
      assert id in Elements(ids);
      var i :| 0 <= i < |ids| && ids[i] == id;
    }
  }

  /** An accepted reorder realises exactly the requested permutation, without gaps. */
  lemma ReorderedIsGapFree(order: Numbering, ids: seq<nat>)
    requires Distinct(ids) && Elements(ids) == order.Keys
    ensures GapFree(Reordered(order, ids))
    ensures Reordered(order, ids).Keys == order.Keys
    ensures forall i :: 0 <= i < |ids| ==> ids[i] in order && Reordered(order, ids)[ids[i]] == i + 1
  {
    ReorderedAt(order, ids);
    DistinctSize(ids);
    var rs := Reordered(order, ids);
    assert rs.Keys == Elements(ids);
    assert |rs| == |rs.Keys|;
    NumberedByPosition(rs, ids);
  }
}
