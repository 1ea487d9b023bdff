/** The assessment actions as they run: rows and counters updated step by step, one transaction each. */
module WorkspaceStore {
  import opened Wrappers
  import opened SetFacts
  import opened Findings
  import opened FindingOrder
  import opened Workspace

  /** `max('sort_order')` over the rows of a query, cast to int. */
  method LargestOrder(order: Numbering) returns (m: nat)
    ensures m == MaxOrder(order)
  {
    m := 0;
    var rest := order.Keys;
    while rest != {}
      invariant rest <= order.Keys
      invariant forall id :: id in order.Keys - rest ==> order[id] <= m
      invariant m == 0 || exists id :: id in order && order[id] == m
      decreases rest
    {
      var id :| id in rest;
      if order[id] > m {
        m := order[id];
      }
      rest := rest - {id};
    }
    assert IsMaxOrder(order, m);
    var largest := MaxOrder(order);
    assert IsMaxOrder(order, largest);
  }

  /** The rows of `orderBy('sort_order')`. */
  method OrderedIds(order: Numbering) returns (ids: seq<nat>)
    ensures Distinct(ids) && Elements(ids) == order.Keys
    ensures forall i, j :: 0 <= i < j < |ids| ==> order[ids[i]] <= order[ids[j]]
  {
    ids := [];
    var rest := order.Keys;
    while rest != {}
      invariant rest <= order.Keys && Elements(ids) == order.Keys - rest
      invariant Distinct(ids)
      invariant forall i :: 0 <= i < |ids| ==> ids[i] in order && ids[i] !in rest
      invariant forall i, j :: 0 <= i < j < |ids| ==> order[ids[i]] <= order[ids[j]]
      invariant forall i, x :: 0 <= i < |ids| && x in rest ==> order[ids[i]] <= order[x]
      decreases rest
    {
      var first :| first in rest;
      var todo := rest - {first};
      while todo != {}
        invariant todo <= rest && first in rest
        invariant forall x :: x in rest - todo ==> order[first] <= order[x]
        decreases todo
      {
        var x :| x in todo;
        if order[x] < order[first] {
          first := x;
        }
        todo := todo - {x};
      }
      ElementsAppend(ids, first);
      ids := ids + [first];
      rest := rest - {first};
    }
  }

  /** In a listing sorted by distinct numbers, position is rank. */
  lemma PositionIsRank(order: Numbering, ids: seq<nat>, i: nat)
    requires Injective(order) && Distinct(ids) && Elements(ids) == order.Keys && i < |ids|
    requires forall x :: 0 <= x < |ids| ==> ids[x] in order
    requires forall x, y :: 0 <= x < y < |ids| ==> order[ids[x]] <= order[ids[y]]
    ensures |Before(order, ids[i])| == i
  {
    var prefix := ids[..i];
    forall x ensures x in Before(order, ids[i]) <==> x in Elements(prefix) {
      if x in Before(order, ids[i]) {
        assert x in Elements(ids);
        var k :| 0 <= k < |ids| && ids[k] == x;
        assert k < i;
        assert prefix[k] == x;
      }
      if x in Elements(prefix) {
        var k :| 0 <= k < i && prefix[k] == x;
        assert ids[k] == x;
      }
    }
    DistinctSize(prefix);
    assert Before(order, ids[i]) == Elements(prefix);
  }

  class AssessmentStore {
    var assessments: map<nat, Assessment>
    var ledger: map<string, Row>
    var nextFinding: nat
    var nextSolution: nat

    function State(): World
      reads this
    {
      World(assessments, ledger, nextFinding, nextSolution)
    }

    constructor ()
      ensures State() == EMPTY_WORLD
    {
      assessments, ledger, nextFinding, nextSolution := map[], map[], 0, 0;
    }

    /** `CreateAssessment`: a new draft at version 0. */
    method CreateAssessment(id: nat, content: string)
      requires id !in assessments
      modifies this`assessments
      ensures (State(), Applied(0)) == CreateIn(old(State()), id, content)
    {
      assessments := assessments[id := Assessment(Draft, None, 0, content, map[], map[])];
    }

    /** The conditional update behind every versioned action; the caller's row is `changed`. */
    method IncrementAssessmentVersion(id: nat, changed: Assessment, expected: nat) returns (r: Result<nat, Refusal>)
      requires id in assessments
      modifies this`assessments
      ensures match Increment(changed, expected)
              case Ok(saved) => r == Ok(expected + 1) && assessments == old(assessments)[id := saved]
              case Err(refusal) => r == Err(refusal) && assessments == old(assessments)
    {
      var updated := 0;
      if changed.status == Draft && changed.lockVersion == expected {
        assessments := assessments[id := changed.(lockVersion := expected + 1)];
        updated := 1;
      }
      if updated == 1 {
        return Ok(expected + 1);
      }
      if changed.status != Draft {
        return Err(ReadOnly);
      }
      return Err(VersionConflict);
    }

    method Record(r: Request, applied: nat, now: nat)
      modifies this`ledger
      ensures ledger == old(ledger)[r.id := Row(r.assessment, r.expected, applied, HashOf(r.payload),
                                               OperationOf(r.payload), now)]
    {
      ledger := ledger[r.id := Row(r.assessment, r.expected, applied, HashOf(r.payload),
                                   OperationOf(r.payload), now)];
    }

    /** `SaveAssessmentWorkspace` */
    method SaveAssessmentWorkspace(r: Request, valid: bool, seen: AssessmentStatus, now: nat) returns (outcome: Outcome)
      requires r.payload.ContentPayload? && r.assessment in assessments
      modifies this
      ensures (State(), outcome) == Submit(old(State()), r, valid, seen, now)
    {
      if seen != Draft {
        return Refused(ReadOnly);
      }
      if !valid {
        return Refused(Invalid);
      }
      var replay := FindReplay(ledger, r);
      match replay
      case Err(refusal) => return Refused(refusal);
      case Ok(Some(version)) => return Replayed(version);
      case Ok(None) =>
        var changed := assessments[r.assessment].(content := r.payload.content);
        var version := IncrementAssessmentVersion(r.assessment, changed, r.expected);
        if version.Err? {
          return Refused(version.error);
        }
        Record(r, version.value, now);
        return Applied(version.value);
    }

    /** `SaveFindingDetails`, without its evidence */
    method SaveFindingDetails(r: Request, valid: bool, seen: AssessmentStatus, now: nat) returns (outcome: Outcome)
      requires r.payload.FindingPayload? && r.assessment in assessments
      modifies this
      ensures (State(), outcome) == Submit(old(State()), r, valid, seen, now)
    {
      var replay := FindReplay(ledger, r);
      match replay
      case Err(refusal) => return Refused(refusal);
      case Ok(Some(version)) => return Replayed(version);
      case Ok(None) =>
        var a := assessments[r.assessment];
        var f, saved := r.payload.finding, r.payload.saved;
        if a.status != Draft {
          return Refused(ReadOnly);
        }
        if !valid {
          return Refused(Invalid);
        }
        if f !in a.findings {
          return Refused(NotFound);
        }
        if !FindingMayBecome(a.findings[f], saved) {
          return Refused(Invalid);
        }
        var version := IncrementAssessmentVersion(r.assessment, a.(findings := a.findings[f := saved]), r.expected);
        if version.Err? {
          return Refused(version.error);
        }
        Record(r, version.value, now);
        return Applied(version.value);
    }

    /** The update loop of `ReorderFindings`, and of `DeleteFinding` over the rows in their order. */
    method WriteOrder(order: Numbering, ids: seq<nat>) returns (written: Numbering)
      ensures written == Reordered(order, ids)
    {
      written := order;
      for i := 0 to |ids|
        invariant written == Reordered(order, ids[..i])
      {
        assert ids[..i + 1][..i] == ids[..i];
        written := written[ids[i] := i + 1];
      }
      assert ids[..|ids|] == ids;
    }

    /** `ReorderFindings` */
    method ReorderFindings(r: Request, seen: AssessmentStatus, now: nat) returns (outcome: Outcome)
      requires r.payload.OrderPayload? && r.assessment in assessments
      modifies this
      ensures (State(), outcome) == Submit(old(State()), r, true, seen, now)
    {
      if r.payload.ids == [] || !Distinct(r.payload.ids) {
        return Refused(Invalid);
      }
      var replay := FindReplay(ledger, r);
      if replay.Err? {
        return Refused(replay.error);
      }
      if replay.value.Some? && replay.value.value != 0 {
        return Replayed(replay.value.value);
      }
      var a := assessments[r.assessment];
      if a.status != Draft {
        return Refused(ReadOnly);
      }
      if Elements(r.payload.ids) != a.findings.Keys {
        return Refused(Invalid);
      }
      var written := WriteOrder(a.order, r.payload.ids);
      if r.id in ledger && a.lockVersion == r.expected {
        return Refused(IdempotencyKeyMismatch);
      }
      var version := IncrementAssessmentVersion(r.assessment, a.(order := written), r.expected);
      if version.Err? {
        return Refused(version.error);
      }
      Record(r, version.value, now);
      return Applied(version.value);
    }

    /** `CreateBlankFinding` */
    method CreateBlankFinding(id: nat, expected: nat) returns (outcome: Outcome)
      requires id in assessments
      modifies this
      ensures (State(), outcome) == Append(old(State()), id, expected, BLANK_FINDING)
    {
      outcome := Insert(id, expected, BLANK_FINDING);
    }

    method Insert(id: nat, expected: nat, f: Finding) returns (outcome: Outcome)
      requires id in assessments
      modifies this
      ensures (State(), outcome) == Append(old(State()), id, expected, f)
    {
      var a := assessments[id];
      if a.status != Draft {
        return Refused(ReadOnly);
      }
      var largest := LargestOrder(a.order);
      var changed := a.(findings := a.findings[nextFinding := f], order := a.order[nextFinding := largest + 1]);
      var version := IncrementAssessmentVersion(id, changed, expected);
      if version.Err? {
        return Refused(version.error);
      }
      nextFinding := nextFinding + 1;
      nextSolution := nextSolution + |f.solutions|;
      return Applied(version.value);
    }

    /** The copying loop of `DuplicateFinding`: `solutionMap` remembers which copy stands for which solution. */
    method CopySolutions(source: seq<Solution>, firstId: nat)
      returns (copies: seq<Solution>, solutionMap: map<nat, nat>)
      ensures copies == Renumbered(source, firstId)
      ensures forall id :: id in solutionMap <==> PositionOf(source, id).Some?
      ensures forall id :: id in solutionMap ==> solutionMap[id] == firstId + PositionOf(source, id).value
    {
      copies, solutionMap := [], map[];
      for i := 0 to |source|
        invariant copies == Renumbered(source[..i], firstId)
        invariant forall id :: id in solutionMap <==> PositionOf(source[..i], id).Some?
        invariant forall id :: id in solutionMap ==> solutionMap[id] == firstId + PositionOf(source[..i], id).value
      {
        assert source[..i + 1][..i] == source[..i];
        copies := copies + [source[i].(id := firstId + i)];
        solutionMap := solutionMap[source[i].id := firstId + i];
      }
      assert source[..|source|] == source;
    }

    /** `DuplicateFinding` */
    method DuplicateFinding(id: nat, expected: nat, sourceId: nat) returns (outcome: Outcome)
      requires id in assessments && sourceId in assessments[id].findings
      modifies this
      ensures (State(), outcome) ==
              Append(old(State()), id, expected,
                DuplicateOf(old(assessments[id].findings[sourceId]), old(nextSolution)))
    {
      var source := assessments[id].findings[sourceId];
      var copies, solutionMap := CopySolutions(source.solutions, nextSolution);
      var copy := source.(status := Open, resolutionNotes := "", implemented := None, recommended := None,
                          solutions := copies);
      if source.recommended.Some? && source.recommended.value in solutionMap {
        copy := copy.(recommended := Some(solutionMap[source.recommended.value]));
      }
      outcome := Insert(id, expected, copy);
    }

    /** The copying loop of `CopyTemplateToAssessment`. */
    method CopyTemplateSolutions(source: seq<TemplateSolution>, firstId: nat)
      returns (copies: seq<Solution>, recommended: Option<nat>)
      ensures |copies| == |source|
      ensures forall k :: 0 <= k < |source| ==> copies[k] == source[k].text.(id := firstId + k)
      ensures LastRecommended(source).None? ==> recommended == None
      ensures LastRecommended(source).Some? ==> recommended == Some(firstId + LastRecommended(source).value)
    {
      copies, recommended := [], None;
      for i := 0 to |source|
        invariant |copies| == i
        invariant forall k :: 0 <= k < i ==> copies[k] == source[k].text.(id := firstId + k)
        invariant LastRecommended(source[..i]).None? ==> recommended == None
        invariant LastRecommended(source[..i]).Some? ==>
                  recommended == Some(firstId + LastRecommended(source[..i]).value)
      {
        assert source[..i + 1][..i] == source[..i];
        copies := copies + [source[i].text.(id := firstId + i)];
        if source[i].isRecommended {
          recommended := Some(firstId + i);
        }
      }
      assert source[..|source|] == source;
    }

    method FindingFromTemplate(t: Template, firstId: nat) returns (copy: Finding)
      ensures copy == CopyOf(t, firstId)
    {
      var solutions, recommended := CopyTemplateSolutions(t.solutions, firstId);
      copy := Finding(t.title, t.problem, t.entrepreneurNotes, t.technicalNotes, t.categoryId, t.priorityLevelId,
                      false, t.priorityRationale, t.scopeType, 0, t.scopeDescription, Open, "", true,
                      solutions, recommended, None);
      assert solutions == CopyOf(t, firstId).solutions;
    }

    /** `CopyTemplateToAssessment` */
    method CopyTemplateToAssessment(id: nat, expected: nat, t: Template) returns (outcome: Outcome)
      requires id in assessments
      modifies this
      ensures (State(), outcome) == PerformAction(old(State()), id, CopyTemplate(expected, t))
    {
      if !Copyable(t) {
        return Refused(Invalid);
      }
      var copy := FindingFromTemplate(t, nextSolution);
      outcome := Insert(id, expected, copy);
    }

    /** `DeleteFinding` */
    method DeleteFinding(id: nat, expected: nat, f: nat) returns (outcome: Outcome)
      requires id in assessments && Injective(assessments[id].order)
      modifies this
      ensures (State(), outcome) == Remove(old(State()), id, expected, f)
    {
      var a := assessments[id];
      if a.status != Draft {
        return Refused(ReadOnly);
      }
      if f !in a.findings {
        return Refused(NotFound);
      }
      var remaining := a.order - {f};
      var renumbered := Renumber(remaining);
      var changed := a.(findings := a.findings - {f}, order := renumbered);
      var version := IncrementAssessmentVersion(id, changed, expected);
      if version.Err? {
        return Refused(version.error);
      }
      return Applied(version.value);
    }

    /** Numbering the ids in their order is numbering them by rank. */
    static lemma OrderedIsCompacted(order: Numbering, ids: seq<nat>)
      requires Injective(order) && Distinct(ids) && Elements(ids) == order.Keys
      requires forall x :: 0 <= x < |ids| ==> ids[x] in order
      requires forall x, y :: 0 <= x < y < |ids| ==> order[ids[x]] <= order[ids[y]]
      ensures Reordered(order, ids) == Compacted(order)
    {
      ReorderedAt(order, ids);
      forall id | id in order ensures Reordered(order, ids)[id] == |Before(order, id)| + 1 {
        assert id in Elements(ids);
        var k :| 0 <= k < |ids| && ids[k] == id;
        PositionIsRank(order, ids, k);
      }
    }

    /** The renumbering loop of `DeleteFinding`, over the rows in their order. */
    method Renumber(order: Numbering) returns (renumbered: Numbering)
      requires Injective(order)
      ensures renumbered == Compacted(order)
    {
      var ids := OrderedIds(order);
      assert forall x :: 0 <= x < |ids| ==> ids[x] in Elements(ids);
      renumbered := WriteOrder(order, ids);
      OrderedIsCompacted(order, ids);
    }

    /** `TransitionFindingStatus` */
    method TransitionFindingStatus(id: nat, f: nat, target: FindingStatus) returns (outcome: Outcome)
      requires id in assessments
      modifies this
      ensures (State(), outcome) == SetFindingStatus(old(State()), id, f, target)
    {
      var a := assessments[id];
      if a.status != Draft {
        return Refused(ReadOnly);
      }
      if f !in a.findings {
        return Refused(NotFound);
      }
      var current := a.findings[f];
      if target !in Destinations(current.status) {
        return Refused(Invalid);
      }
      if target == Resolved && current.implemented.None? && Blank(current.resolutionNotes) {
        return Refused(Invalid);
      }
      assessments := assessments[id := a.(findings := a.findings[f := current.(status := target)])];
      return Applied(a.lockVersion);
    }

    /** `ValidateAssessmentCompletion`: the rows that would be rejected. */
    method CompletionErrors(a: Assessment) returns (errors: map<nat, seq<Message>>)
      ensures errors == map[] <==> Completable(a)
      ensures forall f :: f in errors ==> f in a.findings && errors[f] == FindingErrors(a.findings[f]) != []
    {
      errors := map[];
      var rest := a.findings.Keys;
      while rest != {}
        invariant rest <= a.findings.Keys
        invariant forall f :: f in errors ==> f in a.findings && errors[f] == FindingErrors(a.findings[f]) != []
        invariant forall f :: f in errors ==> a.findings[f].includeInReport
        invariant forall f :: f in a.findings && f !in rest && a.findings[f].includeInReport && f !in errors ==>
                    FindingErrors(a.findings[f]) == []
        decreases rest
      {
        var f :| f in rest;
        if a.findings[f].includeInReport {
          var messages := FindingErrors(a.findings[f]);
          if messages != [] {
            errors := errors[f := messages];
          }
        }
        rest := rest - {f};
      }
      if errors != map[] {
        assert errors.Keys != {};
        var f :| f in errors;
      }
    }

    /** `CompleteAssessment` */
    method CompleteAssessment(id: nat, now: nat) returns (outcome: Outcome)
      requires id in assessments
      modifies this`assessments
      ensures (State(), outcome) == Transition(old(State()), id, Complete(now))
    {
      var locked := assessments[id];
      if locked.status != Draft {
        return Refused(Invalid);
      }
      var errors := CompletionErrors(locked);
      if errors != map[] {
        return Refused(Invalid);
      }
      assessments := assessments[id := locked.(status := Completed, completedAt := Some(now),
                                               lockVersion := locked.lockVersion + 1)];
      return Applied(locked.lockVersion + 1);
    }

    /** `ArchiveAssessment` */
    method ArchiveAssessment(id: nat) returns (outcome: Outcome)
      requires id in assessments
      modifies this`assessments
      ensures (State(), outcome) == Transition(old(State()), id, Archive)
    {
      var locked := assessments[id];
      if locked.status != Draft && locked.status != Completed {
        return Refused(Invalid);
      }
      assessments := assessments[id := locked.(status := Archived, lockVersion := locked.lockVersion + 1)];
      return Applied(locked.lockVersion + 1);
    }

    /** `ReopenAssessment` */
    method ReopenAssessment(id: nat) returns (outcome: Outcome)
      requires id in assessments
      modifies this`assessments
      ensures (State(), outcome) == Transition(old(State()), id, Reopen)
    {
      var locked := assessments[id];
      if locked.status != Completed && locked.status != Archived {
        return Refused(Invalid);
      }
      assessments := assessments[id := locked.(status := Draft, completedAt := None,
                                               lockVersion := locked.lockVersion + 1)];
      return Applied(locked.lockVersion + 1);
    }

    /** `PurgeExpiredWorkspaceSaveRequests` */
    method PurgeExpired(cutoff: nat) returns (deleted: nat)
      modifies this`ledger
      ensures State() == Purge(old(State()), cutoff)
      ensures deleted == |old(ledger)| - |ledger|
    {
      ghost var before := ledger;
      deleted := 0;
      var rest := ledger.Keys;
      while rest != {}
        invariant rest <= before.Keys
        invariant forall id :: id in ledger <==> id in before && (id in rest || before[id].createdAt >= cutoff)
        invariant forall id :: id in ledger ==> ledger[id] == before[id]
        invariant deleted + |ledger| == |before|
        decreases rest
      {
        var id :| id in rest;
        if ledger[id].createdAt < cutoff {
          assert ledger.Keys == (ledger - {id}).Keys + {id};
          ledger := ledger - {id};
          deleted := deleted + 1;
        }
        rest := rest - {id};
      }
    }
  }
}
