/** The order of an object's properties, and when `Object.fromEntries` keeps the order it was given. */
module ObjectOrder {
  import opened JsonValues
  import opened Canonical

  /** `Object.entries` */
  function Listed<V>(m: Record<V>): seq<(string, V)> {
    match m
    case Empty => []
    case Member(k, v, rest) => [(k, v)] + Listed(rest)
  }

  function Recorded<V>(entries: seq<(string, V)>): Record<V> {
    if entries == [] then Empty else Member(entries[0].0, entries[0].1, Recorded(entries[1..]))
  }

  lemma {:induction false} ListedRecorded<V>(entries: seq<(string, V)>)
    ensures Listed(Recorded(entries)) == entries
  {
    if entries != [] {
      ListedRecorded(entries[1..]);
      assert entries == [entries[0]] + entries[1..];
    }
  }

  /** The entries in the order an object would list them: index-like keys first and ascending. */
  predicate InOrder<V>(entries: seq<(string, V)>) {
    forall i, j :: 0 <= i < j < |entries| && IsIndex(entries[j].0) ==>
      IsIndex(entries[i].0) && JsonNumber(entries[i].0) <= JsonNumber(entries[j].0)
  }

  /** The position in front of which an object puts a new key. */
  function Place<V>(k: string, entries: seq<(string, V)>): (p: nat)
    ensures p <= |entries| && (p < |entries| ==> Precedes(k, entries[p].0))
    ensures forall i :: 0 <= i < p ==> !Precedes(k, entries[i].0)
  {
    if entries == [] || Precedes(k, entries[0].0) then 0 else 1 + Place(k, entries[1..])
  }

  function Inserted<V>(k: string, v: V, entries: seq<(string, V)>): seq<(string, V)> {
    var p := Place(k, entries);
    entries[..p] + [(k, v)] + entries[p..]
  }

  lemma {:induction false} OwnInserts<V>(k: string, v: V, m: Record<V>)
    ensures Listed(Own(k, v, m)) == Inserted(k, v, Listed(m))
  {
    if m.Member? && !Precedes(k, m.key) {
      OwnInserts(k, v, m.rest);
      assert Listed(m)[1..] == Listed(m.rest);
    }
  }

  lemma InsertedBefore<V>(k: string, entries: seq<(string, V)>, p: nat, j: nat)
    requires InOrder(entries) && p == Place(k, entries) <= j < |entries| && IsIndex(entries[j].0)
    ensures IsIndex(k) && JsonNumber(k) <= JsonNumber(entries[j].0)
  {
    assert Precedes(k, entries[p].0);
    assert p < j ==> IsIndex(entries[p].0) && JsonNumber(entries[p].0) <= JsonNumber(entries[j].0);
  }

  lemma InsertedAt<V>(k: string, v: V, entries: seq<(string, V)>, i: nat)
    requires i <= |entries|
    ensures var p := Place(k, entries);
            Inserted(k, v, entries)[i] == if i < p then entries[i] else if i == p then (k, v) else entries[i - 1]
  {
  }

  lemma InsertedPair<V>(k: string, v: V, entries: seq<(string, V)>, i: nat, j: nat)
    requires InOrder(entries) && i < j <= |entries| && IsIndex(Inserted(k, v, entries)[j].0)
    ensures var r := Inserted(k, v, entries); IsIndex(r[i].0) && JsonNumber(r[i].0) <= JsonNumber(r[j].0)
  {
    var p := Place(k, entries);
    InsertedAt(k, v, entries, i);
    InsertedAt(k, v, entries, j);
    if j == p {
      assert !Precedes(k, entries[i].0);
    } else if i == p {
      InsertedBefore(k, entries, p, j - 1);
    }
  }

  lemma InsertedIsInOrder<V>(k: string, v: V, entries: seq<(string, V)>)
    requires InOrder(entries)
    ensures InOrder(Inserted(k, v, entries))
  {
    var r := Inserted(k, v, entries);
    forall i, j | 0 <= i < j < |r| && IsIndex(r[j].0)
      ensures IsIndex(r[i].0) && JsonNumber(r[i].0) <= JsonNumber(r[j].0)
    {
      InsertedPair(k, v, entries, i, j);
    }
  }

  lemma InsertedCounts<V>(k: string, v: V, entries: seq<(string, V)>)
    ensures multiset(Inserted(k, v, entries)) == multiset(entries) + multiset{(k, v)}
  {
    var p := Place(k, entries);
    assert entries == entries[..p] + entries[p..];
  }

  lemma InsertedLast<V>(k: string, v: V, entries: seq<(string, V)>, rest: seq<(string, V)>)
    requires InOrder(entries + ([(k, v)] + rest))
    ensures Inserted(k, v, entries) == entries + [(k, v)]
  {
    var all, n := entries + ([(k, v)] + rest), |entries|;
    assert all[n] == (k, v);
    forall i | 0 <= i < n ensures !Precedes(k, entries[i].0) {
      assert all[i] == entries[i];
    }
  }

  /** `Object.fromEntries` on what it lists. */
  function Filled<V>(entries: seq<(string, V)>, built: seq<(string, V)>): seq<(string, V)>
    decreases |entries|
  {
    if entries == [] then built else Filled(entries[1..], Inserted(entries[0].0, entries[0].1, built))
  }

  lemma {:induction false} FromEntriesFills<V>(entries: seq<(string, V)>, built: Record<V>)
    ensures Listed(FromEntries(Recorded(entries), built)) == Filled(entries, Listed(built))
    decreases |entries|
  {
    if entries != [] {
      OwnInserts(entries[0].0, entries[0].1, built);
      FromEntriesFills(entries[1..], Own(entries[0].0, entries[0].1, built));
    }
  }

  lemma {:induction false} FilledIsInOrder<V>(entries: seq<(string, V)>, built: seq<(string, V)>)
    requires InOrder(built)
    ensures InOrder(Filled(entries, built))
    decreases |entries|
  {
    if entries != [] {
      InsertedIsInOrder(entries[0].0, entries[0].1, built);
      FilledIsInOrder(entries[1..], Inserted(entries[0].0, entries[0].1, built));
    }
  }

  lemma {:induction false} FilledCounts<V>(entries: seq<(string, V)>, built: seq<(string, V)>)
    ensures multiset(Filled(entries, built)) == multiset(built) + multiset(entries)
    decreases |entries|
  {
    if entries != [] {
      InsertedCounts(entries[0].0, entries[0].1, built);
      FilledCounts(entries[1..], Inserted(entries[0].0, entries[0].1, built));
      assert entries == [entries[0]] + entries[1..];
    }
  }

  lemma {:induction false} FilledInOrderIsAppended<V>(entries: seq<(string, V)>, built: seq<(string, V)>)
    requires InOrder(built + entries)
    ensures Filled(entries, built) == built + entries
    decreases |entries|
  {
    if entries == [] {
      assert built + entries == built;
    } else {
      var rest := entries[1..];
      assert built + entries == built + ([entries[0]] + rest);
      InsertedLast(entries[0].0, entries[0].1, built, rest);
      assert built + [entries[0]] + rest == built + entries;
      FilledInOrderIsAppended(rest, built + [entries[0]]);
    }
  }

  /** The object built from a list of entries, listed again. */
  function Relisted<V>(entries: seq<(string, V)>): seq<(string, V)> {
    Listed(FromEntries(Recorded(entries), Empty))
  }

  /** `Object.fromEntries` keeps all entries, and their order just when it is an object's own. */
  lemma RelistedKeepsOrderExactly<V>(entries: seq<(string, V)>)
    ensures InOrder(Relisted(entries)) && multiset(Relisted(entries)) == multiset(entries)
    ensures Relisted(entries) == entries <==> InOrder(entries)
  {
    FromEntriesFills(entries, Empty);
    FilledIsInOrder(entries, []);
    FilledCounts(entries, []);
    assert [] + entries == entries;
    if InOrder(entries) {
      FilledInOrderIsAppended(entries, []);
    }
  }
}
