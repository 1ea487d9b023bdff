/**
  What each action on an assessment stores, and exactly when it is applied: said
  of the rows before and after, whatever the functions that compute them.
 */
module WorkspaceEffects {
  import opened Wrappers
  import opened SetFacts
  import opened Findings
  import opened FindingOrder
  import opened Workspace
  import opened WorkspaceGuarantees

  // ---------- save requests ----------

  /** The solutions the stored finding refers to are still there, and the status may become what it is to be. */
  ghost predicate KeepsReferences(stored: Finding, saved: Finding) {
    && (stored.recommended.Some? ==>
          exists i :: 0 <= i < |saved.solutions| && saved.solutions[i].id == stored.recommended.value)
    && (stored.implemented.Some? ==>
          exists i :: 0 <= i < |saved.solutions| && saved.solutions[i].id == stored.implemented.value)
    && (saved.status != stored.status ==> saved.status in Destinations(stored.status))
    && (saved.status != stored.status && saved.status == Resolved ==>
          saved.implemented.Some? || !Blank(saved.resolutionNotes))
  }

  /** The payload fits the rows it is for. */
  ghost predicate Fits(a: Assessment, p: Payload) {
    match p
    case ContentPayload(_) => true
    case FindingPayload(f, saved) => f in a.findings && KeepsReferences(a.findings[f], saved)
    case OrderPayload(ids) => ids != [] && Distinct(ids) && forall f :: f in a.findings <==> f in ids
  }

  lemma EffectExactly(a: Assessment, p: Payload)
    ensures Effect(a, p).Ok? && EnvelopeOk(p) <==> Fits(a, p)
  {
    if p.OrderPayload? {
      assert forall f :: f in Elements(p.ids) <==> f in p.ids;
    }
  }

  /** A save is applied just when its payload is valid and fits a draft at the expected version, and its id is new. */
  lemma SaveIsAppliedExactly(w: World, r: Request, valid: bool, seen: AssessmentStatus, now: nat)
    ensures Submit(w, r, valid, seen, now).1.Applied? <==>
              && r.assessment in w.assessments && r.id !in w.ledger && valid
              && (r.payload.ContentPayload? ==> seen == Draft)
              && w.assessments[r.assessment].status == Draft && w.assessments[r.assessment].lockVersion == r.expected
              && Fits(w.assessments[r.assessment], r.payload)
  {
    if r.assessment in w.assessments {
      EffectExactly(w.assessments[r.assessment], r.payload);
      if Effect(w.assessments[r.assessment], r.payload).Ok? {
        EffectKeepsStatus(w.assessments[r.assessment], r.payload);
      }
    }
  }

  /** Nothing but the rows of one assessment has changed. */
  ghost predicate OnlyChanges(w: World, v: World, id: nat) {
    && id in w.assessments && v.assessments.Keys == w.assessments.Keys
    && forall x :: x in w.assessments && x != id ==> v.assessments[x] == w.assessments[x]
  }

  /** Neither its text nor its status and completion time has. */
  predicate SameHeader(a: Assessment, b: Assessment) {
    b.content == a.content && b.status == a.status && b.completedAt == a.completedAt
  }

  ghost predicate Stores(a: Assessment, b: Assessment, p: Payload) {
    match p
    case ContentPayload(c) =>
      b.content == c && b.findings == a.findings && b.order == a.order
    case FindingPayload(f, saved) =>
      && b.content == a.content && b.order == a.order
      && b.findings.Keys == a.findings.Keys && f in b.findings && b.findings[f] == saved
      && forall g :: g in a.findings && g != f ==> b.findings[g] == a.findings[g]
    case OrderPayload(ids) =>
      && b.content == a.content && b.findings == a.findings
      && (forall f :: f in b.order <==> f in a.order || f in ids)
      && forall i :: 0 <= i < |ids| ==> ids[i] in b.order && b.order[ids[i]] == i + 1
  }

  lemma EffectStores(a: Assessment, p: Payload)
    requires Effect(a, p).Ok? && EnvelopeOk(p)
    ensures Stores(a, Effect(a, p).value, p)
  {
    if p.OrderPayload? {
      ReorderedAt(a.order, p.ids);
      assert forall f :: f in Elements(p.ids) <==> f in p.ids;
    }
  }

  /** What an applied save stores, and what it leaves alone. */
  lemma AppliedSaveStores(w: World, r: Request, valid: bool, seen: AssessmentStatus, now: nat)
    requires Submit(w, r, valid, seen, now).1.Applied?
    ensures var v := Submit(w, r, valid, seen, now).0;
            && OnlyChanges(w, v, r.assessment)
            && v.nextFinding == w.nextFinding && v.nextSolution == w.nextSolution
            && var a, b := w.assessments[r.assessment], v.assessments[r.assessment];
               && Stores(a, b, r.payload)
               && b.status == a.status && b.completedAt == a.completedAt && b.lockVersion == r.expected + 1
               && Submit(w, r, valid, seen, now).1 == Applied(b.lockVersion)
  {
    SubmitPassed(w, r, valid, seen, now);
    SubmitApplied(w, r, valid, seen, now);
    EffectStores(w.assessments[r.assessment], r.payload);
    EffectKeepsOthers(w.assessments[r.assessment], r.payload);
  }

  lemma EffectKeepsOthers(a: Assessment, p: Payload)
    requires Effect(a, p).Ok?
    ensures var b := Effect(a, p).value;
            b.status == a.status && b.completedAt == a.completedAt && b.lockVersion == a.lockVersion
  {
  }

  /** A refused save changes nothing, and neither does a replayed one. */
  lemma UnappliedSaveChangesNothing(w: World, r: Request, valid: bool, seen: AssessmentStatus, now: nat)
    requires !Submit(w, r, valid, seen, now).1.Applied?
    ensures Submit(w, r, valid, seen, now).0 == w
  {
  }

  /**
    The row is of this request: of its assessment and its payload, and of its operation unless it is
    a workspace save.
   */
  predicate IsRowOf(row: Row, r: Request) {
    && row.assessment == r.assessment && row.hash == HashOf(r.payload)
    && match r.payload
       case ContentPayload(_) => true
       case FindingPayload(f, _) => row.operation == SaveFinding(f)
       case OrderPayload(_) => row.operation == ReorderFindings
  }

  /**
    A save is answered from the ledger just when its id has a row of this request; a reorder's row
    must not be of version 0.
   */
  lemma SaveIsReplayedExactly(w: World, r: Request, valid: bool, seen: AssessmentStatus, now: nat, version: nat)
    ensures Submit(w, r, valid, seen, now).1 == Replayed(version) <==>
              && r.assessment in w.assessments && EnvelopeOk(r.payload)
              && (r.payload.ContentPayload? ==> seen == Draft && valid)
              && r.id in w.ledger && IsRowOf(w.ledger[r.id], r) && w.ledger[r.id].applied == version
              && (r.payload.OrderPayload? ==> version != 0)
  {
  }

  // ---------- findings added ----------

  /** One more finding, last in the order; the assessment is otherwise as it was, one version on. */
  ghost predicate Adds(a: Assessment, b: Assessment, id: nat, f: Finding) {
    && SameHeader(a, b) && b.lockVersion == a.lockVersion + 1
    && id !in a.findings && b.findings.Keys == a.findings.Keys + {id} && b.findings[id] == f
    && (forall g :: g in a.findings ==> b.findings[g] == a.findings[g])
    && b.order.Keys == a.order.Keys + {id} && b.order[id] == |a.findings| + 1
    && (forall g :: g in a.order ==> b.order[g] == a.order[g])
  }

  lemma AppendAdds(w: World, id: nat, expected: nat, f: Finding)
    requires WorldOk(w) && id in w.assessments
    ensures var (v, outcome) := Append(w, id, expected, f);
            && (outcome.Applied? <==> w.assessments[id].status == Draft && w.assessments[id].lockVersion == expected)
            && (outcome.Applied? ==>
                  && OnlyChanges(w, v, id) && v.ledger == w.ledger
                  && v.nextFinding == w.nextFinding + 1 && v.nextSolution == w.nextSolution + |f.solutions|
                  && Adds(w.assessments[id], v.assessments[id], w.nextFinding, f))
            && (!outcome.Applied? ==> v == w)
  {
    AppendApplies(w, id, expected, f);
    var a, b := w.assessments[id], Appended(w.assessments[id], w.nextFinding, f);
    AppendedAdds(a, w.nextFinding, f);
    if Append(w, id, expected, f).1.Applied? {
      OneIsReplaced(w, Append(w, id, expected, f).0, id, b);
    }
  }

  lemma OneIsReplaced(w: World, v: World, id: nat, b: Assessment)
    requires id in w.assessments && v.assessments == w.assessments[id := b]
    ensures OnlyChanges(w, v, id) && v.assessments[id] == b
  {
  }

  lemma AppendApplies(w: World, id: nat, expected: nat, f: Finding)
    requires id in w.assessments
    ensures var (v, outcome) := Append(w, id, expected, f);
            && (outcome.Applied? <==> w.assessments[id].status == Draft && w.assessments[id].lockVersion == expected)
            && v == if !outcome.Applied? then w
                    else World(w.assessments[id := Appended(w.assessments[id], w.nextFinding, f)], w.ledger,
                               w.nextFinding + 1, w.nextSolution + |f.solutions|)
  {
  }

  lemma AppendedAdds(a: Assessment, id: nat, f: Finding)
    requires NumberingOk(a) && id !in a.findings
    ensures Adds(a, Appended(a, id, f), id, f)
  {
    LastNumber(a);
  }

  lemma LastNumber(a: Assessment)
    requires NumberingOk(a)
    ensures MaxOrder(a.order) == |a.findings|
  {
    MaxOrderIsCount(a.order, MaxOrder(a.order));
    assert |a.order| == |a.order.Keys| == |a.findings.Keys| == |a.findings|;
  }

  /** What makes a row blank: no text, no choices, no solutions; open, and meant for the report. */
  predicate IsBlankRow(f: Finding) {
    && f.title == "" && f.problem == "" && f.entrepreneurNotes == "" && f.technicalNotes == ""
    && f.priorityRationale == "" && f.scopeDescription == "" && f.resolutionNotes == ""
    && f.categoryId.None? && f.priorityLevelId.None? && !f.priorityIsOverridden
    && f.recommended.None? && f.implemented.None? && f.solutions == [] && f.siteCount == 0
    && f.scopeType == Organization && f.status == Open && f.includeInReport
  }

  lemma CreateBlankAdds(w: World, id: nat, expected: nat)
    requires WorldOk(w) && id in w.assessments
    ensures var (v, outcome) := PerformAction(w, id, CreateBlank(expected));
            && (outcome.Applied? <==> w.assessments[id].status == Draft && w.assessments[id].lockVersion == expected)
            && (outcome.Applied? ==>
                  exists f :: IsBlankRow(f) && Adds(w.assessments[id], v.assessments[id], w.nextFinding, f))
  {
    AppendAdds(w, id, expected, BLANK_FINDING);
    assert IsBlankRow(BLANK_FINDING);
  }

  /** The same solutions in the same order, each with a new id of its own. */
  ghost predicate SolutionsCopied(source: seq<Solution>, copies: seq<Solution>, firstId: nat) {
    && |copies| == |source|
    && forall i :: 0 <= i < |source| ==>
         copies[i].id == firstId + i && copies[i] == source[i].(id := copies[i].id)
  }

  /** The copy has the text and the choices of its source; it is open and has no resolution of its own. */
  ghost predicate Duplicates(source: Finding, copy: Finding, firstId: nat) {
    && copy.title == source.title && copy.problem == source.problem
    && copy.entrepreneurNotes == source.entrepreneurNotes && copy.technicalNotes == source.technicalNotes
    && copy.categoryId == source.categoryId && copy.priorityLevelId == source.priorityLevelId
    && copy.priorityIsOverridden == source.priorityIsOverridden && copy.priorityRationale == source.priorityRationale
    && copy.scopeType == source.scopeType && copy.scopeDescription == source.scopeDescription
    && copy.siteCount == source.siteCount && copy.includeInReport == source.includeInReport
    && copy.status == Open && copy.resolutionNotes == "" && copy.implemented.None?
    && SolutionsCopied(source.solutions, copy.solutions, firstId)
    && (copy.recommended.Some? <==> source.recommended.Some? && HasSolution(source.solutions, source.recommended.value))
    && (copy.recommended.Some? ==>
          exists i :: 0 <= i < |source.solutions| &&
                      source.solutions[i].id == source.recommended.value &&
                        copy.solutions[i].id == copy.recommended.value)
  }

  lemma DuplicateOfDuplicates(source: Finding, firstId: nat)
    ensures Duplicates(source, DuplicateOf(source, firstId), firstId)
  {
    if source.recommended.Some? {
      PositionOfIsRight(source.solutions, source.recommended.value);
    }
  }

  lemma DuplicateAdds(w: World, id: nat, expected: nat, source: nat)
    requires WorldOk(w) && id in w.assessments
    ensures var a := w.assessments[id];
            var (v, outcome) := PerformAction(w, id, Duplicate(expected, source));
            && (outcome.Applied? <==> source in a.findings && a.status == Draft && a.lockVersion == expected)
            && (outcome.Applied? ==>
                  exists f :: Duplicates(a.findings[source], f, w.nextSolution) &&
                              Adds(a, v.assessments[id], w.nextFinding, f))
  {
    var a := w.assessments[id];
    if source in a.findings {
      var copy := DuplicateOf(a.findings[source], w.nextSolution);
      assert PerformAction(w, id, Duplicate(expected, source)) == Append(w, id, expected, copy);
      AppendAdds(w, id, expected, copy);
      DuplicateOfDuplicates(a.findings[source], w.nextSolution);
    }
  }

  ghost predicate TemplateSolutionsCopied(source: seq<TemplateSolution>, copies: seq<Solution>, firstId: nat) {
    && |copies| == |source|
    && forall i :: 0 <= i < |source| ==>
         copies[i].id == firstId + i && copies[i] == source[i].text.(id := copies[i].id)
  }

  /** The finding has the text and the defaults of its template, open, in the report, for no sites. */
  ghost predicate Instantiates(t: Template, f: Finding, firstId: nat) {
    && f.title == t.title && f.problem == t.problem
    && f.entrepreneurNotes == t.entrepreneurNotes && f.technicalNotes == t.technicalNotes
    && f.categoryId == t.categoryId && f.priorityLevelId == t.priorityLevelId
    && !f.priorityIsOverridden && f.priorityRationale == t.priorityRationale
    && f.scopeType == t.scopeType && f.scopeDescription == t.scopeDescription && f.siteCount == 0
    && f.status == Open && f.includeInReport && f.resolutionNotes == "" && f.implemented.None?
    && TemplateSolutionsCopied(t.solutions, f.solutions, firstId)
    && exists i :: 0 <= i < |t.solutions| && t.solutions[i].isRecommended && f.recommended == Some(f.solutions[i].id)
  }

  ghost predicate OnlyRecommended(solutions: seq<TemplateSolution>, i: int) {
    && 0 <= i < |solutions| && solutions[i].isRecommended
    && forall j :: 0 <= j < |solutions| && solutions[j].isRecommended ==> j == i
  }

  ghost predicate HasOneRecommended(t: Template) {
    exists i :: OnlyRecommended(t.solutions, i)
  }

  lemma OneIsRecommended(solutions: seq<TemplateSolution>, i: nat)
    requires OnlyRecommended(solutions, i)
    ensures |RecommendedPositions(solutions)| == 1
  {
    assert RecommendedPositions(solutions) == {i};
  }

  lemma RecommendedIsOne(solutions: seq<TemplateSolution>) returns (i: nat)
    requires |RecommendedPositions(solutions)| == 1
    ensures OnlyRecommended(solutions, i)
  {
    var marked := RecommendedPositions(solutions);
    i :| i in marked;
    var others := marked - {i};
    assert |others| == 0;
    forall j | 0 <= j < |solutions| && solutions[j].isRecommended ensures j == i {
      assert j in marked && j !in others;
    }
  }

  /** A template can be copied: enabled, with exactly one recommended solution, within the limits of a report. */
  lemma CopyableExactly(t: Template)
    ensures Copyable(t) <==> t.enabled && HasOneRecommended(t) && Violations(CopyOf(t, 0)) == []
  {
    if HasOneRecommended(t) {
      var i :| OnlyRecommended(t.solutions, i);
      OneIsRecommended(t.solutions, i);
    }
    if |RecommendedPositions(t.solutions)| == 1 {
      var i := RecommendedIsOne(t.solutions);
    }
  }

  lemma CopyOfInstantiates(t: Template, firstId: nat)
    requires Copyable(t)
    ensures Instantiates(t, CopyOf(t, firstId), firstId)
  {
    var i := RecommendedIsOne(t.solutions);
    CopyRecommendsTheSame(t, firstId, i);
  }

  lemma CopyTemplateAdds(w: World, id: nat, expected: nat, t: Template)
    requires WorldOk(w) && id in w.assessments
    ensures var a := w.assessments[id];
            var (v, outcome) := PerformAction(w, id, CopyTemplate(expected, t));
            && (outcome.Applied? <==>
                  && t.enabled && HasOneRecommended(t) && Violations(CopyOf(t, 0)) == []
                  && a.status == Draft && a.lockVersion == expected)
            && (outcome.Applied? ==>
                  exists f :: Instantiates(t, f, w.nextSolution) && Adds(a, v.assessments[id], w.nextFinding, f))
  {
    CopyableExactly(t);
    if Copyable(t) {
      AppendAdds(w, id, expected, CopyOf(t, w.nextSolution));
      CopyOfInstantiates(t, w.nextSolution);
    }
  }

  // ---------- findings removed and moved ----------

  /** The finding is gone; the others are as they were, in the order they had. */
  ghost predicate Removes(a: Assessment, b: Assessment, f: nat) {
    && SameHeader(a, b) && b.lockVersion == a.lockVersion + 1
    && b.findings.Keys == a.findings.Keys - {f} && b.order.Keys == b.findings.Keys
    && (forall g :: g in b.findings ==> b.findings[g] == a.findings[g])
    && (forall x, y :: x in b.order && y in b.order ==>
          x in a.order && y in a.order && (b.order[x] < b.order[y] <==> a.order[x] < a.order[y]))
  }

  lemma DeleteRemoves(w: World, id: nat, expected: nat, f: nat)
    requires WorldOk(w) && id in w.assessments
    ensures var a := w.assessments[id];
            var (v, outcome) := PerformAction(w, id, Delete(expected, f));
            && (outcome.Applied? <==> f in a.findings && a.status == Draft && a.lockVersion == expected)
            && (outcome.Applied? ==>
                  OnlyChanges(w, v, id) && v.ledger == w.ledger && Removes(a, v.assessments[id], f))
            && (!outcome.Applied? ==> v == w)
  {
    DeleteApplies(w, id, expected, f);
    RemovalRemoves(w.assessments[id], f);
  }

  ghost function Without(a: Assessment, f: nat): Assessment {
    a.(findings := a.findings - {f}, order := Compacted(a.order - {f}), lockVersion := a.lockVersion + 1)
  }

  lemma DeleteApplies(w: World, id: nat, expected: nat, f: nat)
    requires id in w.assessments
    ensures var a := w.assessments[id];
            var (v, outcome) := PerformAction(w, id, Delete(expected, f));
            && (outcome.Applied? <==> f in a.findings && a.status == Draft && a.lockVersion == expected)
            && v == if outcome.Applied? then w.(assessments := w.assessments[id := Without(a, f)]) else w
  {
  }

  lemma RemovalRemoves(a: Assessment, f: nat)
    requires NumberingOk(a)
    ensures Removes(a, Without(a, f), f)
  {
    CompactedIsGapFree(a.order - {f});
  }

  /** One status is another; nothing else is. */
  ghost predicate ChangesStatus(a: Assessment, b: Assessment, f: nat, target: FindingStatus) {
    && SameHeader(a, b) && b.lockVersion == a.lockVersion && b.order == a.order
    && b.findings.Keys == a.findings.Keys && f in a.findings
    && b.findings[f] == a.findings[f].(status := target)
    && forall g :: g in a.findings && g != f ==> b.findings[g] == a.findings[g]
  }

  lemma ChangeStatusChanges(w: World, id: nat, f: nat, target: FindingStatus)
    requires id in w.assessments
    ensures var a := w.assessments[id];
            var (v, outcome) := PerformAction(w, id, ChangeStatus(f, target));
            && (outcome.Applied? <==>
                  && a.status == Draft && f in a.findings && target in Destinations(a.findings[f].status)
                  && (target == Resolved ==> a.findings[f].implemented.Some? || !Blank(a.findings[f].resolutionNotes)))
            && (outcome.Applied? ==>
                  OnlyChanges(w, v, id) && v.ledger == w.ledger && ChangesStatus(a, v.assessments[id], f, target))
            && (!outcome.Applied? ==> v == w)
  {
  }

  // ---------- the lifecycle ----------

  /** Completing stores its time, archiving keeps the time there is, reopening removes it. */
  ghost predicate Moves(a: Assessment, b: Assessment, m: Lifecycle) {
    && b.lockVersion == a.lockVersion + 1
    && b.content == a.content && b.findings == a.findings && b.order == a.order
    && match m
       case Complete(now) => b.status == Completed && b.completedAt == Some(now)
       case Archive => b.status == Archived && b.completedAt == a.completedAt
       case Reopen => b.status == Draft && b.completedAt == None
  }

  ghost predicate MayMove(a: Assessment, m: Lifecycle) {
    match m
    case Complete(_) =>
      a.status == Draft && forall f :: f in a.findings && a.findings[f].includeInReport ==> ReportReady(a.findings[f])
    case Archive => a.status == Draft || a.status == Completed
    case Reopen => a.status == Completed || a.status == Archived
  }

  lemma CompletableExactly(a: Assessment)
    ensures Completable(a) <==>
              forall f :: f in a.findings && a.findings[f].includeInReport ==> ReportReady(a.findings[f])
  {
    forall f | f in a.findings ensures FindingErrors(a.findings[f]) == [] <==> ReportReady(a.findings[f]) {
      NoErrorsMeansReportReady(a.findings[f]);
    }
  }

  lemma LifecycleMovesExactly(w: World, id: nat, m: Lifecycle)
    requires id in w.assessments
    ensures var a := w.assessments[id];
            var (v, outcome) := PerformAction(w, id, ChangeLifecycle(m));
            && (outcome.Applied? <==> MayMove(a, m))
            && (outcome.Applied? ==> OnlyChanges(w, v, id) && v.ledger == w.ledger && Moves(a, v.assessments[id], m))
            && (!outcome.Applied? ==> v == w)
  {
    MoveMovesExactly(w.assessments[id], m);
  }

  lemma MoveMovesExactly(a: Assessment, m: Lifecycle)
    ensures Move(a, m).Ok? <==> MayMove(a, m)
    ensures Move(a, m).Ok? ==> Moves(a, Move(a, m).value, m)
  {
    CompletableExactly(a);
  }

  /** Completed, archived and reopened: the draft is what it was, three versions on. */
  lemma ThereAndBack(a: Assessment, now: nat)
    requires MayMove(a, Complete(now)) && a.completedAt.None?
    ensures var c := Move(a, Complete(now));
            && c.Ok? && Move(c.value, Archive).Ok? && Move(c.value, Archive).value.completedAt == Some(now)
            && Move(Move(c.value, Archive).value, Reopen) == Ok(a.(lockVersion := a.lockVersion + 3))
  {
    CompletableExactly(a);
  }

  /** Every action changes one assessment and no ledger row, or nothing. */
  lemma ActionChangesOne(w: World, id: nat, action: Action)
    requires WorldOk(w) && id in w.assessments
    ensures var (v, outcome) := PerformAction(w, id, action);
            && (outcome.Applied? ==> OnlyChanges(w, v, id) && v.ledger == w.ledger)
            && (!outcome.Applied? ==> v == w)
  {
    match action
    case CreateBlank(expected) => AppendAdds(w, id, expected, BLANK_FINDING);
    case CopyTemplate(expected, t) => AppendAdds(w, id, expected, CopyOf(t, w.nextSolution));
    case Duplicate(expected, source) =>
      if source in w.assessments[id].findings {
        AppendAdds(w, id, expected, DuplicateOf(w.assessments[id].findings[source], w.nextSolution));
      }
    case Delete(expected, f) => DeleteRemoves(w, id, expected, f);
    case ChangeStatus(f, target) => ChangeStatusChanges(w, id, f, target);
    case ChangeLifecycle(m) => LifecycleMovesExactly(w, id, m);
  }

  // ---------- creation and purges ----------

  lemma CreateAdds(w: World, id: nat, content: string)
    ensures var (v, outcome) := CreateIn(w, id, content);
            && (outcome.Applied? <==> id !in w.assessments)
            && (!outcome.Applied? ==> v == w)
            && (outcome.Applied? ==>
                  && v.ledger == w.ledger && v.assessments.Keys == w.assessments.Keys + {id}
                  && (forall x :: x in w.assessments ==> v.assessments[x] == w.assessments[x])
                  && var a := v.assessments[id];
                     && a.content == content && a.status == Draft && a.completedAt == None && a.lockVersion == 0
                     && a.findings == map[] && a.order == map[])
  {
  }

  lemma PurgeRemovesExactly(w: World, cutoff: nat)
    ensures var v := Purge(w, cutoff);
            && v.assessments == w.assessments
            && forall id :: (id in v.ledger <==> id in w.ledger && w.ledger[id].createdAt >= cutoff) &&
                            (id in v.ledger ==> v.ledger[id] == w.ledger[id])
  {
  }
}
