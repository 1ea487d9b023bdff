/**
  Giving a finding's solutions the external ids of a template's solutions, row by
  row, under the unique index on finding and external key.
 */
module KeyRealignment {
  import opened Wrappers
  import opened Numerals
  import opened SetFacts
  import opened Identifiers

  /** A deleted row keeps its key, and the unique index still sees it. */
  datatype Solution = Solution(finding: nat, key: Option<string>, deleted: bool)

  type Rows = map<nat, Solution>

  /** The unique index: rows without a key never conflict. */
  ghost predicate KeysUnique(rows: Rows) {
    forall x, y :: x in rows && y in rows && x != y && rows[x].finding == rows[y].finding && rows[x].key.Some? ==>
      rows[x].key != rows[y].key
  }

  predicate Taken(rows: Rows, id: nat, key: string)
    requires id in rows
  {
    exists x :: x in rows && x != id && rows[x].finding == rows[id].finding && rows[x].key == Some(key)
  }

  /** The solutions of a finding in their order, deleted ones left out. */
  ghost predicate IsOrdered(solutions: seq<nat>, rows: Rows, finding: nat) {
    && Distinct(solutions)
    && forall id :: id in Elements(solutions) <==> id in rows && rows[id].finding == finding && !rows[id].deleted
  }

  function TemporaryKey(operation: string, id: nat): string {
    "template-sync-" + operation + "-" + Print(id)
  }

  lemma TemporaryKeysDiffer(operation: string, a: nat, b: nat)
    ensures TemporaryKey(operation, a) == TemporaryKey(operation, b) <==> a == b
  {
    NumberOfPrint(a);
    NumberOfPrint(b);
    var front := "template-sync-" + operation + "-";
    assert TemporaryKey(operation, a)[|front|..] == Print(a) && TemporaryKey(operation, b)[|front|..] == Print(b);
  }

  /** The operation id is new: no key of the finding and no target was built with it. */
  ghost predicate NewOperation(operation: string, rows: Rows, finding: nat, targets: map<nat, string>) {
    && (forall x, id :: x in rows && rows[x].finding == finding ==> rows[x].key != Some(TemporaryKey(operation, id)))
    && forall x, id :: x in targets ==> targets[x] != TemporaryKey(operation, id)
  }

  /** Every solution has a target, the targets are distinct, and no other row of the finding holds one. */
  ghost predicate Feasible(rows: Rows, finding: nat, solutions: seq<nat>, targets: map<nat, string>) {
    && targets.Keys == Elements(solutions)
    && Injective(targets)
    && forall x :: x in rows && rows[x].finding == finding && x !in targets ==>
         forall t :: t in targets ==> rows[x].key != Some(targets[t])
  }

  /** The rows with the keys of a map replaced. */
  ghost function Rekeyed(rows: Rows, keys: map<nat, string>): Rows {
    map x | x in rows :: if x in keys then rows[x].(key := Some(keys[x])) else rows[x]
  }

  /** Keys midway: the first `n` solutions have their target, the others a temporary key. */
  ghost function Midway(operation: string, solutions: seq<nat>, targets: map<nat, string>, n: nat): map<nat, string>
    requires n <= |solutions| && targets.Keys == Elements(solutions)
  {
    map x | x in targets :: if x in solutions[..n] then targets[x] else TemporaryKey(operation, x)
  }

  ghost function Temporary(operation: string, solutions: seq<nat>): map<nat, string> {
    map x | x in Elements(solutions) :: TemporaryKey(operation, x)
  }

  lemma RekeyedOneMore(rows: Rows, keys: map<nat, string>, id: nat, key: string)
    requires id in rows
    ensures Rekeyed(rows, keys)[id := Rekeyed(rows, keys)[id].(key := Some(key))] == Rekeyed(rows, keys[id := key])
  {
  }

  lemma TemporaryOneMore(rows: Rows, operation: string, solutions: seq<nat>, n: nat)
    requires n < |solutions| && solutions[n] in rows
    ensures var now, id := Rekeyed(rows, Temporary(operation, solutions[..n])), solutions[n];
            now[id := now[id].(key := Some(TemporaryKey(operation, id)))] ==
              Rekeyed(rows, Temporary(operation, solutions[..n + 1]))
  {
    var id := solutions[n];
    assert solutions[..n + 1] == solutions[..n] + [id];
    ElementsAppend(solutions[..n], id);
    assert Temporary(operation, solutions[..n])[id := TemporaryKey(operation, id)] ==
             Temporary(operation, solutions[..n + 1]);
    RekeyedOneMore(rows, Temporary(operation, solutions[..n]), id, TemporaryKey(operation, id));
  }

  lemma MidwayOneMore(rows: Rows, operation: string, solutions: seq<nat>, targets: map<nat, string>, n: nat)
    requires n < |solutions| && solutions[n] in rows && targets.Keys == Elements(solutions) && solutions[n] in targets
    ensures var now, id := Rekeyed(rows, Midway(operation, solutions, targets, n)), solutions[n];
            now[id := now[id].(key := Some(targets[id]))] == Rekeyed(rows, Midway(operation, solutions, targets, n + 1))
  {
    var id := solutions[n];
    assert solutions[..n + 1] == solutions[..n] + [id];
    assert Midway(operation, solutions, targets, n)[id := targets[id]] == Midway(operation, solutions, targets, n + 1);
    RekeyedOneMore(rows, Midway(operation, solutions, targets, n), id, targets[id]);
  }

  lemma TemporaryIsFree(rows: Rows, finding: nat, solutions: seq<nat>, targets: map<nat, string>, operation: string,
                        n: nat)
    requires NewOperation(operation, rows, finding, targets) && IsOrdered(solutions, rows, finding) && n < |solutions|
    ensures var now := Rekeyed(rows, Temporary(operation, solutions[..n]));
            solutions[n] in now && !Taken(now, solutions[n], TemporaryKey(operation, solutions[n]))
  {
    var now, id := Rekeyed(rows, Temporary(operation, solutions[..n])), solutions[n];
    assert id in Elements(solutions);
    forall x | x in now && x != id && now[x].finding == now[id].finding
      ensures now[x].key != Some(TemporaryKey(operation, id))
    {
      TemporaryKeysDiffer(operation, x, id);
    }
  }

  lemma TargetIsFreeWhenFeasible(rows: Rows, finding: nat, solutions: seq<nat>, targets: map<nat, string>,
                                 operation: string, n: nat)
    requires NewOperation(operation, rows, finding, targets) && IsOrdered(solutions, rows, finding) && n < |solutions|
    requires Feasible(rows, finding, solutions, targets)
    ensures var now := Rekeyed(rows, Midway(operation, solutions, targets, n));
            solutions[n] in now && solutions[n] in targets && !Taken(now, solutions[n], targets[solutions[n]])
  {
    var now, id := Rekeyed(rows, Midway(operation, solutions, targets, n)), solutions[n];
    assert id in Elements(solutions);
    forall x | x in now && x != id && now[x].finding == now[id].finding ensures now[x].key != Some(targets[id]) {
    }
  }

  /** Once all targets are in place under the unique index, they were feasible. */
  lemma DoneWasFeasible(rows: Rows, finding: nat, solutions: seq<nat>, targets: map<nat, string>)
    requires IsOrdered(solutions, rows, finding) && targets.Keys == Elements(solutions)
    requires KeysUnique(Rekeyed(rows, targets))
    ensures Feasible(rows, finding, solutions, targets)
  {
    var done := Rekeyed(rows, targets);
    forall x, y | x in targets && y in targets && x != y ensures targets[x] != targets[y] {
      assert x in done && y in done && done[x].key != done[y].key;
    }
    forall x, t | x in rows && rows[x].finding == finding && x !in targets && t in targets
      ensures rows[x].key != Some(targets[t])
    {
      assert t in done && x in done && done[t].key != done[x].key;
    }
  }

  class SolutionTable {
    var rows: Rows

    /** `save` of one row: refused by the unique index when the key is taken. */
    method UpdateKey(id: nat, key: string) returns (ok: bool)
      requires id in rows && KeysUnique(rows)
      modifies this
      ensures ok <==> !Taken(old(rows), id, key)
      ensures rows == if ok then old(rows)[id := old(rows)[id].(key := Some(key))] else old(rows)
      ensures KeysUnique(rows)
    {
      if Taken(rows, id, key) {
        return false;
      }
      rows := rows[id := rows[id].(key := Some(key))];
      return true;
    }

    /** First loop of `realignSolutionKeys`: every solution gets a key of its own. */
    method SetTemporaryKeys(finding: nat, solutions: seq<nat>, targets: map<nat, string>, operation: string)
      requires KeysUnique(rows) && IsOrdered(solutions, rows, finding)
      requires NewOperation(operation, rows, finding, targets)
      modifies this
      ensures KeysUnique(rows) && rows == Rekeyed(old(rows), Temporary(operation, solutions))
    {
      for n := 0 to |solutions|
        invariant KeysUnique(rows) && rows == Rekeyed(old(rows), Temporary(operation, solutions[..n]))
      {
        TemporaryIsFree(old(rows), finding, solutions, targets, operation, n);
        TemporaryOneMore(old(rows), operation, solutions, n);
        var ok := UpdateKey(solutions[n], TemporaryKey(operation, solutions[n]));
      }
      assert solutions[..|solutions|] == solutions;
    }

    /** One round of the second loop. */
    method SetTarget(finding: nat, solutions: seq<nat>, targets: map<nat, string>, operation: string,
                     ghost rows0: Rows, n: nat)
      returns (ok: bool)
      requires KeysUnique(rows) && IsOrdered(solutions, rows0, finding) && targets.Keys == Elements(solutions)
      requires NewOperation(operation, rows0, finding, targets) && n < |solutions|
      requires rows == Rekeyed(rows0, Midway(operation, solutions, targets, n))
      modifies this
      ensures KeysUnique(rows)
      ensures ok ==> rows == Rekeyed(rows0, Midway(operation, solutions, targets, n + 1))
      ensures !ok ==> !Feasible(rows0, finding, solutions, targets)
    {
      if Feasible(rows0, finding, solutions, targets) {
        TargetIsFreeWhenFeasible(rows0, finding, solutions, targets, operation, n);
      }
      assert solutions[n] in Elements(solutions);
      MidwayOneMore(rows0, operation, solutions, targets, n);
      ok := UpdateKey(solutions[n], targets[solutions[n]]);
    }

    /** Second loop: the targets, until one is refused. */
    method SetTargets(finding: nat, solutions: seq<nat>, targets: map<nat, string>, operation: string,
                      ghost rows0: Rows)
      returns (ok: bool)
      requires KeysUnique(rows) && IsOrdered(solutions, rows0, finding) && targets.Keys == Elements(solutions)
      requires NewOperation(operation, rows0, finding, targets)
      requires rows == Rekeyed(rows0, Midway(operation, solutions, targets, 0))
      modifies this
      ensures KeysUnique(rows)
      ensures ok ==> rows == Rekeyed(rows0, targets)
      ensures !ok ==> !Feasible(rows0, finding, solutions, targets)
    {
      for n := 0 to |solutions|
        invariant KeysUnique(rows) && rows == Rekeyed(rows0, Midway(operation, solutions, targets, n))
      {
        var saved := SetTarget(finding, solutions, targets, operation, rows0, n);
        if !saved {
          return false;
        }
      }
      assert Midway(operation, solutions, targets, |solutions|) == targets;
      return true;
    }

    /**
      `realignSolutionKeys` in its transaction: it succeeds exactly for feasible
      targets, whatever keys are swapped or rotated among the solutions, and then
      the keys are the targets; otherwise nothing has changed.
     */
    method RealignSolutionKeys(finding: nat, solutions: seq<nat>, targets: map<nat, string>, operation: string)
      returns (ok: bool)
      requires KeysUnique(rows) && IsOrdered(solutions, rows, finding)
      requires NewOperation(operation, rows, finding, targets)
      modifies this
      ensures KeysUnique(rows)
      ensures ok <==> Feasible(old(rows), finding, solutions, targets)
      ensures rows == if ok then Rekeyed(old(rows), targets) else old(rows)
    {
      if targets.Keys != (set i | 0 <= i < |solutions| :: solutions[i]) {
        return false;
      }
      ghost var before := rows;
      var backup := rows;
      SetTemporaryKeys(finding, solutions, targets, operation);
      assert Temporary(operation, solutions) == Midway(operation, solutions, targets, 0);
      ok := SetTargets(finding, solutions, targets, operation, before);
      if ok {
        DoneWasFeasible(before, finding, solutions, targets);
      } else {
        rows := backup;
      }
    }
  }

  // ---------- with the ids of a newly saved template ----------

  /** `orderedExternalIdMap` */
  method OrderedExternalIdMap(solutions: seq<nat>, externalIds: seq<string>) returns (r: Option<map<nat, string>>)
    requires Distinct(solutions)
    ensures r.None? <==> |solutions| != |externalIds|
    ensures r.Some? ==> r.value.Keys == Elements(solutions)
    ensures r.Some? ==> forall i :: 0 <= i < |solutions| ==> r.value[solutions[i]] == externalIds[i]
  {
    if |solutions| != |externalIds| {
      return None;
    }
    var m: map<nat, string> := map[];
    for n := 0 to |solutions|
      invariant m.Keys == Elements(solutions[..n])
      invariant forall i :: 0 <= i < n ==> solutions[i] in m && m[solutions[i]] == externalIds[i]
    {
      assert solutions[..n + 1] == solutions[..n] + [solutions[n]];
      ElementsAppend(solutions[..n], solutions[n]);
      m := m[solutions[n] := externalIds[n]];
    }
    assert solutions[..|solutions|] == solutions;
    return Some(m);
  }

  /**
    The ids of a new template are always distinct, so its realignment can fail
    only on a deleted solution of the finding that still holds one of them.
   */
  lemma NewTemplateIdsAreFeasible(templateRows: seq<Row>, ids: seq<string>, rows: Rows, finding: nat,
                                  solutions: seq<nat>, targets: map<nat, string>)
    requires |ids| == |templateRows| && Assigned(templateRows, ids, map[])
    requires IsOrdered(solutions, rows, finding) && |solutions| == |ids| && targets.Keys == Elements(solutions)
    requires forall i :: 0 <= i < |solutions| ==> solutions[i] in targets && targets[solutions[i]] == ids[i]
    ensures Distinct(ids)
    ensures Feasible(rows, finding, solutions, targets) <==>
            forall x :: x in rows && rows[x].finding == finding && rows[x].deleted ==>
              forall i :: 0 <= i < |ids| ==> rows[x].key != Some(ids[i])
  {
    var none: map<nat, string> := map[];
    AssignedAreDistinct(templateRows, ids, none);
    forall x, y | x in targets && y in targets && x != y ensures targets[x] != targets[y] {
      var i :| 0 <= i < |solutions| && solutions[i] == x;
      var j :| 0 <= j < |solutions| && solutions[j] == y;
      assert i < j || j < i;
    }
    forall x | x in rows && rows[x].finding == finding ensures x !in targets <==> rows[x].deleted {
      assert x in Elements(solutions) <==> !rows[x].deleted;
    }
    forall t | t in targets ensures exists i :: 0 <= i < |ids| && targets[t] == ids[i] {
      var i :| 0 <= i < |solutions| && solutions[i] == t;
      assert targets[t] == ids[i];
    }
    assert forall i :: 0 <= i < |ids| ==> solutions[i] in targets && targets[solutions[i]] == ids[i];
  }
}
