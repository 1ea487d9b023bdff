/** What every run of assessment actions keeps, and what the ledger promises. */
module WorkspaceGuarantees {
  import opened SetFacts
  import opened Findings
  import opened FindingOrder
  import opened Workspace

  // ---------- one assessment ----------

  /** A completed assessment is valid, and a draft is not completed. */
  ghost predicate LifecycleOk(a: Assessment) {
    && (a.completedAt.Some? ==> a.status != Draft && Completable(a))
    && (a.status == Completed ==> a.completedAt.Some?)
    && (a.status == Draft ==> a.completedAt.None?)
  }

  ghost predicate NumberingOk(a: Assessment) {
    a.order.Keys == a.findings.Keys && GapFree(a.order)
  }

  ghost predicate AssessmentOk(a: Assessment) {
    LifecycleOk(a) && NumberingOk(a)
  }

  /** A row's hash is of a payload of its operation. */
  predicate HashFits(row: Row) {
    match row.operation
    case SaveWorkspace => row.hash.ContentHash?
    case SaveFinding(_) => row.hash.FindingHash?
    case ReorderFindings => row.hash.OrderHash?
  }

  /** Rows record one version step each, and never the same one twice in an assessment. */
  ghost predicate LedgerOk(w: World) {
    && (forall id :: id in w.ledger ==>
          && w.ledger[id].assessment in w.assessments
          && HashFits(w.ledger[id])
          && w.ledger[id].applied == w.ledger[id].expected + 1 <= w.assessments[w.ledger[id].assessment].lockVersion)
    && (forall x, y :: x in w.ledger && y in w.ledger && x != y && w.ledger[x].assessment == w.ledger[y].assessment ==>
          w.ledger[x].applied != w.ledger[y].applied)
  }

  ghost predicate WorldOk(w: World) {
    && (forall id :: id in w.assessments ==> AssessmentOk(w.assessments[id]))
    && (forall id, f :: id in w.assessments && f in w.assessments[id].findings ==> f < w.nextFinding)
    && LedgerOk(w)
  }

  lemma EffectKeeps(a: Assessment, p: Payload, expected: nat)
    requires AssessmentOk(a) && a.status == Draft && EnvelopeOk(p) && Effect(a, p).Ok?
    requires Increment(Effect(a, p).value, expected).Ok?
    ensures var saved := Increment(Effect(a, p).value, expected).value;
            && AssessmentOk(saved)
            && saved.findings.Keys == a.findings.Keys
            && saved.lockVersion == a.lockVersion + 1 == expected + 1
  {
    if p.OrderPayload? {
      ReorderedIsGapFree(a.order, p.ids);
    }
  }

  lemma MoveKeeps(a: Assessment, m: Lifecycle)
    requires AssessmentOk(a) && Move(a, m).Ok?
    ensures AssessmentOk(Move(a, m).value)
    ensures Move(a, m).value.lockVersion == a.lockVersion + 1 && Move(a, m).value.findings == a.findings
  {
  }

  lemma RemovalKeepsNumbering(a: Assessment, f: nat)
    requires NumberingOk(a)
    ensures NumberingOk(a.(findings := a.findings - {f}, order := Compacted(a.order - {f})))
  {
    CompactedIsGapFree(a.order - {f});
  }

  lemma AppendKeepsNumbering(a: Assessment, b: Assessment, id: nat, f: Finding)
    requires NumberingOk(a) && id !in a.findings
    requires b.findings == a.findings[id := f] && b.order == a.order[id := MaxOrder(a.order) + 1]
    ensures NumberingOk(b)
  {
    AppendKeepsGapFree(a.order, id, MaxOrder(a.order));
  }

  lemma DraftLifecycleOk(a: Assessment, b: Assessment)
    requires LifecycleOk(a) && a.status == Draft && b.status == Draft && b.completedAt == a.completedAt
    ensures LifecycleOk(b)
  {
  }

  /** Replacing one assessment by a good one, not older, keeps the world. */
  lemma ReplaceKeeps(w: World, v: World, id: nat, a: Assessment)
    requires WorldOk(w) && id in w.assessments && AssessmentOk(a)
    requires v.assessments == w.assessments[id := a] && v.ledger == w.ledger && v.nextFinding >= w.nextFinding
    requires a.lockVersion >= w.assessments[id].lockVersion
    requires forall f :: f in a.findings ==> f < v.nextFinding
    ensures WorldOk(v) && Advances(w, v)
  {
    LedgerStays(w, v);
  }

  /** So does adding one. */
  lemma AddKeeps(w: World, id: nat, a: Assessment)
    requires WorldOk(w) && id !in w.assessments && AssessmentOk(a)
    requires forall f :: f in a.findings ==> f < w.nextFinding
    ensures var v := w.(assessments := w.assessments[id := a]); WorldOk(v) && Advances(w, v)
  {
    LedgerStays(w, w.(assessments := w.assessments[id := a]));
  }

  /** Rows stay true while versions grow. */
  lemma LedgerStays(w: World, v: World)
    requires LedgerOk(w) && Advances(w, v) && v.ledger == w.ledger
    ensures LedgerOk(v)
  {
  }

  /** So does recording a version step newer than every row of its assessment. */
  lemma RecordKeeps(w: World, id: string, row: Row)
    requires WorldOk(w) && id !in w.ledger && row.assessment in w.assessments && HashFits(row)
    requires row.applied == row.expected + 1 == w.assessments[row.assessment].lockVersion
    requires forall x :: x in w.ledger && w.ledger[x].assessment == row.assessment ==> w.ledger[x].applied < row.applied
    ensures WorldOk(w.(ledger := w.ledger[id := row]))
  {
  }

  // ---------- the ledger ----------

  /** No assessment disappears and no version goes back. */
  ghost predicate Advances(w: World, v: World) {
    && w.assessments.Keys <= v.assessments.Keys
    && (forall id :: id in w.assessments ==> w.assessments[id].lockVersion <= v.assessments[id].lockVersion)
  }

  /** The row an applied request leaves in the ledger. */
  function RowOf(r: Request, now: nat): Row {
    Row(r.assessment, r.expected, r.expected + 1, HashOf(r.payload), OperationOf(r.payload), now)
  }

  /** What the effect of a payload leaves alone. */
  lemma EffectKeepsStatus(a: Assessment, p: Payload)
    requires Effect(a, p).Ok?
    ensures Effect(a, p).value.status == a.status && Effect(a, p).value.lockVersion == a.lockVersion
  {
  }

  /** The guards an applied request has passed. */
  lemma SubmitPassed(w: World, r: Request, valid: bool, seen: AssessmentStatus, now: nat)
    requires Submit(w, r, valid, seen, now).1.Applied?
    ensures r.assessment in w.assessments && r.id !in w.ledger && EnvelopeOk(r.payload)
    ensures Effect(w.assessments[r.assessment], r.payload).Ok?
    ensures Increment(Effect(w.assessments[r.assessment], r.payload).value, r.expected).Ok?
  {
  }

  lemma SubmitApplied(w: World, r: Request, valid: bool, seen: AssessmentStatus, now: nat)
    requires Submit(w, r, valid, seen, now).1.Applied?
    requires r.assessment in w.assessments && Effect(w.assessments[r.assessment], r.payload).Ok?
    requires Increment(Effect(w.assessments[r.assessment], r.payload).value, r.expected).Ok?
    ensures var saved := Increment(Effect(w.assessments[r.assessment], r.payload).value, r.expected).value;
            Submit(w, r, valid, seen, now).0 ==
            w.(assessments := w.assessments[r.assessment := saved], ledger := w.ledger[r.id := RowOf(r, now)])
  {
  }

  lemma SavedWorldKeeps(w: World, r: Request, saved: Assessment, now: nat)
    requires WorldOk(w) && r.assessment in w.assessments && r.id !in w.ledger && AssessmentOk(saved)
    requires saved.findings.Keys == w.assessments[r.assessment].findings.Keys
    requires saved.lockVersion == w.assessments[r.assessment].lockVersion + 1 == r.expected + 1
    ensures var v := w.(assessments := w.assessments[r.assessment := saved], ledger := w.ledger[r.id := RowOf(r, now)]);
            WorldOk(v) && Advances(w, v)
  {
    var moved := w.(assessments := w.assessments[r.assessment := saved]);
    ReplaceKeeps(w, moved, r.assessment, saved);
    RecordKeeps(moved, r.id, RowOf(r, now));
  }

  lemma SubmitKeeps(w: World, r: Request, valid: bool, seen: AssessmentStatus, now: nat)
    requires WorldOk(w)
    ensures WorldOk(Submit(w, r, valid, seen, now).0) && Advances(w, Submit(w, r, valid, seen, now).0)
  {
    if Submit(w, r, valid, seen, now).1.Applied? {
      SubmitPassed(w, r, valid, seen, now);
      SubmitApplied(w, r, valid, seen, now);
      var a := w.assessments[r.assessment];
      EffectKeepsStatus(a, r.payload);
      EffectKeeps(a, r.payload, r.expected);
      SavedWorldKeeps(w, r, Increment(Effect(a, r.payload).value, r.expected).value, now);
    }
  }

  lemma AppendKeeps(w: World, id: nat, expected: nat, f: Finding)
    requires WorldOk(w) && id in w.assessments
    ensures WorldOk(Append(w, id, expected, f).0) && Advances(w, Append(w, id, expected, f).0)
  {
    if Append(w, id, expected, f).1.Applied? {
      AppendApplied(w, id, expected, f);
      var a := w.assessments[id];
      AppendedIsOk(a, w.nextFinding, f);
      ReplaceKeeps(w, Append(w, id, expected, f).0, id, Appended(a, w.nextFinding, f));
    }
  }

  /** An assessment with one more finding, one version on. */
  ghost function Appended(a: Assessment, id: nat, f: Finding): Assessment {
    a.(findings := a.findings[id := f], order := a.order[id := MaxOrder(a.order) + 1], lockVersion := a.lockVersion + 1)
  }

  lemma AppendedIsOk(a: Assessment, id: nat, f: Finding)
    requires AssessmentOk(a) && a.status == Draft && id !in a.findings
    ensures AssessmentOk(Appended(a, id, f))
  {
    AppendKeepsNumbering(a, Appended(a, id, f), id, f);
    DraftLifecycleOk(a, Appended(a, id, f));
  }

  lemma AppendApplied(w: World, id: nat, expected: nat, f: Finding)
    requires id in w.assessments && Append(w, id, expected, f).1.Applied?
    ensures w.assessments[id].status == Draft
    ensures var v := Append(w, id, expected, f).0;
            && v.assessments == w.assessments[id := Appended(w.assessments[id], w.nextFinding, f)]
            && v.ledger == w.ledger && v.nextFinding == w.nextFinding + 1
  {
  }

  lemma RemoveApplied(w: World, id: nat, expected: nat, f: nat)
    requires WorldOk(w) && id in w.assessments && Remove(w, id, expected, f).1.Applied?
    ensures var a, b := w.assessments[id], Remove(w, id, expected, f).0.assessments[id];
            && AssessmentOk(b) && b.lockVersion >= a.lockVersion && b.findings == a.findings - {f}
            && Remove(w, id, expected, f).0 == w.(assessments := w.assessments[id := b])
  {
    RemovalKeepsNumbering(w.assessments[id], f);
  }

  lemma RemoveKeeps(w: World, id: nat, expected: nat, f: nat)
    requires WorldOk(w) && id in w.assessments
    ensures WorldOk(Remove(w, id, expected, f).0) && Advances(w, Remove(w, id, expected, f).0)
  {
    var (v, outcome) := Remove(w, id, expected, f);
    if outcome.Applied? {
      RemoveApplied(w, id, expected, f);
      ReplaceKeeps(w, v, id, v.assessments[id]);
    }
  }

  lemma StatusKeeps(w: World, id: nat, f: nat, target: FindingStatus)
    requires WorldOk(w) && id in w.assessments
    ensures WorldOk(SetFindingStatus(w, id, f, target).0) && Advances(w, SetFindingStatus(w, id, f, target).0)
  {
    var (v, outcome) := SetFindingStatus(w, id, f, target);
    if outcome.Applied? {
      ReplaceKeeps(w, v, id, v.assessments[id]);
    }
  }

  lemma TransitionKeeps(w: World, id: nat, m: Lifecycle)
    requires WorldOk(w) && id in w.assessments
    ensures WorldOk(Transition(w, id, m).0) && Advances(w, Transition(w, id, m).0)
  {
    if Move(w.assessments[id], m).Ok? {
      MoveKeeps(w.assessments[id], m);
      ReplaceKeeps(w, Transition(w, id, m).0, id, Move(w.assessments[id], m).value);
    }
  }

  lemma DuplicateKeeps(w: World, id: nat, expected: nat, source: nat)
    requires WorldOk(w) && id in w.assessments
    ensures var v := PerformAction(w, id, Duplicate(expected, source)).0; WorldOk(v) && Advances(w, v)
  {
    if source in w.assessments[id].findings {
      AppendKeeps(w, id, expected, DuplicateOf(w.assessments[id].findings[source], w.nextSolution));
    }
  }

  lemma ActKeeps(w: World, id: nat, action: Action)
    requires WorldOk(w) && id in w.assessments
    ensures WorldOk(PerformAction(w, id, action).0) && Advances(w, PerformAction(w, id, action).0)
  {
    match action
    case CreateBlank(expected) => AppendKeeps(w, id, expected, BLANK_FINDING);
    case CopyTemplate(expected, template) => AppendKeeps(w, id, expected, CopyOf(template, w.nextSolution));
    case Duplicate(expected, source) => DuplicateKeeps(w, id, expected, source);
    case Delete(expected, f) => RemoveKeeps(w, id, expected, f);
    case ChangeStatus(f, target) => StatusKeeps(w, id, f, target);
    case ChangeLifecycle(m) => TransitionKeeps(w, id, m);
  }

  /** A new assessment is a draft without findings at version 0. */
  lemma CreateKeeps(w: World, id: nat, content: string)
    requires WorldOk(w)
    ensures WorldOk(CreateIn(w, id, content).0) && Advances(w, CreateIn(w, id, content).0)
    ensures VersionOf(CreateIn(w, id, content).0, id) >= VersionOf(w, id)
  {
    if id !in w.assessments {
      NewAssessmentIsOk(content);
      AddKeeps(w, id, NewAssessment(content));
    }
  }

  lemma NewAssessmentIsOk(content: string)
    ensures AssessmentOk(NewAssessment(content))
  {
  }

  lemma StepKeeps(w: World, step: Step)
    requires WorldOk(w)
    ensures WorldOk(Perform(w, step).0) && Advances(w, Perform(w, step).0)
  {
    match step
    case Create(id, content) => CreateKeeps(w, id, content);
    case Save(r, valid, seen, now) => SubmitKeeps(w, r, valid, seen, now);
    case PurgeLedger(_) =>
    case Act(id, action) => if id in w.assessments { ActKeeps(w, id, action); }
  }

  /**
    Over every run: a completed assessment stays valid, findings stay numbered
    1..n, and the ledger stays a faithful record of version steps.
   */
  lemma {:induction false} RunKeepsWorld(w: World, steps: seq<Step>)
    requires WorldOk(w)
    ensures WorldOk(Run(w, steps))
    decreases |steps|
  {
    if steps != [] {
      RunKeepsWorld(w, steps[..|steps| - 1]);
      StepKeeps(Run(w, steps[..|steps| - 1]), steps[|steps| - 1]);
    }
  }

  /** The empty store is such a world, so every world that is ever reached is. */
  lemma ReachableWorldsAreOk(steps: seq<Step>)
    ensures WorldOk(Run(EMPTY_WORLD, steps))
  {
    RunKeepsWorld(EMPTY_WORLD, steps);
  }

  /** The same, said about one assessment the way a report reader sees it. */
  lemma CompletedStaysValid(w: World, steps: seq<Step>, id: nat)
    requires WorldOk(w)
    requires id in Run(w, steps).assessments && Run(w, steps).assessments[id].completedAt.Some?
    ensures var a := Run(w, steps).assessments[id];
            && a.status in {Completed, Archived}
            && forall f :: f in a.findings && a.findings[f].includeInReport ==> ReportReady(a.findings[f])
  {
    RunKeepsWorld(w, steps);
    var a := Run(w, steps).assessments[id];
    forall f | f in a.findings && a.findings[f].includeInReport ensures ReportReady(a.findings[f]) {
      NoErrorsMeansReportReady(a.findings[f]);
    }
  }

  lemma NumberingStaysGapFree(w: World, steps: seq<Step>, id: nat)
    requires WorldOk(w) && id in Run(w, steps).assessments
    ensures var a := Run(w, steps).assessments[id];
            a.order.Keys == a.findings.Keys && a.order.Values == UpTo(|a.findings|)
  {
    RunKeepsWorld(w, steps);
    var a := Run(w, steps).assessments[id];
    GapFreeCoversAll(a.order);
    assert |a.order| == |a.order.Keys| == |a.findings.Keys| == |a.findings|;
  }

  // ---------- at most once ----------

  ghost function VersionOf(w: World, id: nat): nat {
    if id in w.assessments then w.assessments[id].lockVersion else 0
  }

  lemma {:induction false} VersionsOnlyGrow(w: World, steps: seq<Step>, i: nat, id: nat)
    requires WorldOk(w) && i <= |steps|
    ensures VersionOf(Run(w, steps[..i]), id) <= VersionOf(Run(w, steps), id)
    decreases |steps|
  {
    if i == |steps| {
      assert steps[..i] == steps;
    } else {
      var front := steps[..|steps| - 1];
      VersionsOnlyGrow(w, front, i, id);
      assert front[..i] == steps[..i];
      RunKeepsWorld(w, front);
      StepKeeps(Run(w, front), steps[|steps| - 1]);
    }
  }

  predicate IsApplied(outcome: Outcome) { outcome.Applied? }

  lemma AppliedMovesVersion(w: World, r: Request, valid: bool, seen: AssessmentStatus, now: nat)
    requires WorldOk(w) && IsApplied(Submit(w, r, valid, seen, now).1)
    ensures VersionOf(w, r.assessment) == r.expected
    ensures VersionOf(Submit(w, r, valid, seen, now).0, r.assessment) == r.expected + 1
    ensures r.id !in w.ledger && Submit(w, r, valid, seen, now).0.ledger == w.ledger[r.id := RowOf(r, now)]
  {
    SubmitPassed(w, r, valid, seen, now);
    SubmitApplied(w, r, valid, seen, now);
    EffectKeepsStatus(w.assessments[r.assessment], r.payload);
    EffectKeeps(w.assessments[r.assessment], r.payload, r.expected);
  }

  lemma VersionsGrowBetween(w: World, steps: seq<Step>, i: nat, j: nat, id: nat)
    requires WorldOk(w) && i <= j <= |steps|
    ensures VersionOf(Run(w, steps[..i]), id) <= VersionOf(Run(w, steps[..j]), id)
  {
    assert steps[..j][..i] == steps[..i];
    VersionsOnlyGrow(w, steps[..j], i, id);
  }

  lemma AppliedAt(w: World, steps: seq<Step>, i: nat)
    requires WorldOk(w) && i < |steps| && steps[i].Save? && IsApplied(OutcomeAt(w, steps, i))
    ensures VersionOf(Run(w, steps[..i]), steps[i].request.assessment) == steps[i].request.expected
    ensures VersionOf(Run(w, steps[..i + 1]), steps[i].request.assessment) == steps[i].request.expected + 1
  {
    var s := steps[i];
    RunKeepsWorld(w, steps[..i]);
    AppliedMovesVersion(Run(w, steps[..i]), s.request, s.valid, s.seenStatus, s.now);
    assert steps[..i + 1][..i] == steps[..i];
  }

  /**
    Over any interleaving of saves, reorders, other actions, lifecycle moves and
    purges, two requests applied to one assessment expected different versions,
    the later one the newer: no request is ever applied twice.
   */
  lemma AtMostOnce(w: World, steps: seq<Step>, i: nat, j: nat)
    requires WorldOk(w) && i < j < |steps|
    requires steps[i].Save? && steps[j].Save?
    requires steps[i].request.assessment == steps[j].request.assessment
    requires IsApplied(OutcomeAt(w, steps, i)) && IsApplied(OutcomeAt(w, steps, j))
    ensures steps[i].request.expected < steps[j].request.expected
  {
    var id := steps[i].request.assessment;
    AppliedAt(w, steps, i);
    AppliedAt(w, steps, j);
    VersionsGrowBetween(w, steps, i + 1, j, id);
  }

  /** A request that expects a version already passed cannot change anything. */
  lemma StaleRequestChangesNothing(w: World, r: Request, valid: bool, seen: AssessmentStatus, now: nat)
    requires LedgerOk(w) && r.expected < VersionOf(w, r.assessment)
    ensures var (after, outcome) := Submit(w, r, valid, seen, now);
            && after == w
            && (outcome.Refused? || (r.id in w.ledger && outcome == Replayed(w.ledger[r.id].applied)))
            && (r.id !in w.ledger ==> outcome.Refused?)
  {
  }

  /**
    Once applied, a request changes nothing when it comes again after any further
    run: while a row holds its id the recorded version comes back or it is
    refused, and after a purge it can only be refused.
   */
  lemma RepeatChangesNothing(w: World, steps: seq<Step>, r: Request, valid: bool, seen: AssessmentStatus, now: nat,
                             valid2: bool, seen2: AssessmentStatus, now2: nat)
    requires WorldOk(w) && IsApplied(Submit(w, r, valid, seen, now).1)
    ensures var later := Run(Submit(w, r, valid, seen, now).0, steps);
            var (after, outcome) := Submit(later, r, valid2, seen2, now2);
            && after == later
            && (outcome.Refused? || (r.id in later.ledger && outcome == Replayed(later.ledger[r.id].applied)))
            && (r.id !in later.ledger ==> outcome.Refused?)
  {
    var applied := Submit(w, r, valid, seen, now).0;
    SubmitKeeps(w, r, valid, seen, now);
    AppliedMovesVersion(w, r, valid, seen, now);
    var later := Run(applied, steps);
    assert steps[..0] == [];
    VersionsOnlyGrow(applied, steps, 0, r.assessment);
    RunKeepsWorld(applied, steps);
    StaleRequestChangesNothing(later, r, valid2, seen2, now2);
  }

  /** Right after it is applied, a finding save or a reorder is answered again with the version it got. */
  lemma ReplayReturnsAppliedVersion(w: World, r: Request, valid: bool, seen: AssessmentStatus, now: nat,
                                    valid2: bool, seen2: AssessmentStatus, now2: nat)
    requires WorldOk(w) && IsApplied(Submit(w, r, valid, seen, now).1)
    requires r.payload.ContentPayload? ==> seen2 == Draft && valid2
    ensures Submit(Submit(w, r, valid, seen, now).0, r, valid2, seen2, now2).1 == Replayed(r.expected + 1)
  {
    AppliedMovesVersion(w, r, valid, seen, now);
  }

  /** An id already recorded for another payload, operation or assessment is refused and changes nothing. */
  lemma ReusedIdIsRefused(w: World, r: Request, valid: bool, seen: AssessmentStatus, now: nat)
    requires WorldOk(w) && r.id in w.ledger
    requires
      || w.ledger[r.id].hash != HashOf(r.payload)
      || w.ledger[r.id].operation != OperationOf(r.payload)
      || w.ledger[r.id].assessment != r.assessment
    ensures Submit(w, r, valid, seen, now).0 == w
    ensures Submit(w, r, valid, seen, now).1.Refused?
  {
  }
}
