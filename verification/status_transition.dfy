/**
  A status change outside the save lock.  `TransitionFindingStatus` reads the
  finding, checks, and writes, without taking the lock; under the lock of its
  caller that is one step, alone other steps can come between.
 */
module StatusTransition {
  import opened Wrappers
  import opened Findings
  import opened Workspace
  import opened WorkspaceGuarantees

  datatype Change = Change(assessment: nat, finding: nat, target: FindingStatus)

  /** What the read finds, and the three checks on it. */
  predicate ReadPasses(w: World, c: Change) {
    && c.assessment in w.assessments
    && w.assessments[c.assessment].status == Draft
    && c.finding in w.assessments[c.assessment].findings
    && MayTransition(w.assessments[c.assessment].findings[c.finding], c.target)
  }

  /** The update of the finding's row, where it is still an active one. */
  function WriteStatus(w: World, c: Change): World {
    if c.assessment in w.assessments && c.finding in w.assessments[c.assessment].findings then
      var a := w.assessments[c.assessment];
      var changed := a.findings[c.finding].(status := c.target);
      w.(assessments := w.assessments[c.assessment := a.(findings := a.findings[c.finding := changed])])
    else w
  }

  /** With nothing between them, read and write are the one step. */
  lemma UndisturbedIsOneStep(w: World, c: Change)
    requires c.assessment in w.assessments
    ensures var (v, outcome) := SetFindingStatus(w, c.assessment, c.finding, c.target);
            && (outcome.Applied? <==> ReadPasses(w, c))
            && (outcome.Applied? ==> v == WriteStatus(w, c))
  {
  }

  // ---------- the write ----------

  predicate Unresolved(f: Finding) {
    f.implemented.None? && Blank(f.resolutionNotes)
  }

  /** The write resolves a finding of a completed report that says nothing of its resolution. */
  predicate Overtaken(w: World, c: Change) {
    && c.target == Resolved && LacksResolution(w, c) && IsDone(w, c.assessment)
    && w.assessments[c.assessment].findings[c.finding].includeInReport
  }

  predicate LacksResolution(w: World, c: Change) {
    && c.assessment in w.assessments && c.finding in w.assessments[c.assessment].findings
    && Unresolved(w.assessments[c.assessment].findings[c.finding])
  }

  predicate IsDone(w: World, id: nat) {
    id in w.assessments && w.assessments[id].completedAt.Some?
  }

  lemma ErrorsOfStatus(f: Finding, target: FindingStatus)
    requires FindingErrors(f) == []
    ensures FindingErrors(f.(status := target)) == [] <==> !(target == Resolved && Unresolved(f))
  {
    NoErrorsMeansReportReady(f);
    NoErrorsMeansReportReady(f.(status := target));
  }

  /** Whatever has happened since the read, the write keeps the world valid just when it is not overtaken. */
  lemma WriteKeepsExactly(w: World, c: Change)
    requires WorldOk(w)
    ensures WorldOk(WriteStatus(w, c)) <==> !Overtaken(w, c)
  {
    if c.assessment in w.assessments && c.finding in w.assessments[c.assessment].findings {
      var a := w.assessments[c.assessment];
      var v := WriteStatus(w, c);
      var b := v.assessments[c.assessment];
      StatusKeepsExactly(a, c.finding, c.target);
      if AssessmentOk(b) {
        ReplaceKeeps(w, v, c.assessment, b);
      }
    }
  }

  lemma StatusKeepsExactly(a: Assessment, f: nat, target: FindingStatus)
    requires AssessmentOk(a) && f in a.findings
    ensures AssessmentOk(a.(findings := a.findings[f := a.findings[f].(status := target)])) <==>
              !(target == Resolved && Unresolved(a.findings[f]) && a.completedAt.Some? && a.findings[f].includeInReport)
  {
    var changed := a.findings[f].(status := target);
    var b := a.(findings := a.findings[f := changed]);
    assert b.order.Keys == b.findings.Keys;
    if a.completedAt.Some? && a.findings[f].includeInReport {
      ErrorsOfStatus(a.findings[f], target);
      assert b.findings[f] == changed;
    }
  }

  // ---------- any number of changes in a run ----------

  /** The store, and the changes that have read and not yet written. */
  datatype Race = Race(world: World, pending: set<Change>)

  datatype RaceStep = Whole(step: Step) | Reads(change: Change) | Writes(change: Change)

  predicate MayStep(s: Race, step: RaceStep) {
    match step
    case Whole(_) => true
    case Reads(c) => ReadPasses(s.world, c)
    case Writes(c) => c in s.pending
  }

  ghost function TakeStep(s: Race, step: RaceStep): Race {
    match step
    case Whole(whole) => s.(world := Perform(s.world, whole).0)
    case Reads(c) => s.(pending := s.pending + {c})
    case Writes(c) => Race(WriteStatus(s.world, c), s.pending - {c})
  }

  ghost predicate IsRace(s: Race, steps: seq<RaceStep>)
    decreases |steps|
  {
    steps == [] || (MayStep(s, steps[0]) && IsRace(TakeStep(s, steps[0]), steps[1..]))
  }

  ghost predicate ValidThroughout(s: Race, steps: seq<RaceStep>)
    decreases |steps|
  {
    WorldOk(s.world) && (steps == [] || ValidThroughout(TakeStep(s, steps[0]), steps[1..]))
  }

  ghost predicate NoWriteIsOvertaken(s: Race, steps: seq<RaceStep>)
    decreases |steps|
  {
    steps == [] ||
    (&& !(steps[0].Writes? && Overtaken(s.world, steps[0].change))
     && NoWriteIsOvertaken(TakeStep(s, steps[0]), steps[1..]))
  }

  lemma RaceStepKeepsExactly(s: Race, step: RaceStep, t: Race)
    requires WorldOk(s.world) && t == TakeStep(s, step)
    ensures WorldOk(t.world) <==> !(step.Writes? && Overtaken(s.world, step.change))
  {
    match step
    case Whole(whole) => StepKeeps(s.world, whole);
    case Reads(_) =>
    case Writes(c) => WriteKeepsExactly(s.world, c);
  }

  lemma {:induction false} RaceKeepsExactly(s: Race, steps: seq<RaceStep>)
    requires WorldOk(s.world) && IsRace(s, steps)
    ensures ValidThroughout(s, steps) <==> NoWriteIsOvertaken(s, steps)
    decreases |steps|
  {
    if steps != [] {
      var t := TakeStep(s, steps[0]);
      RaceStepKeepsExactly(s, steps[0], t);
      if WorldOk(t.world) {
        RaceKeepsExactly(t, steps[1..]);
      } else {
        assert !ValidThroughout(t, steps[1..]);
      }
    }
  }

  /** From the empty store, with any number of unlocked changes: valid throughout just when none is overtaken. */
  lemma RacesKeepWorldExactly(steps: seq<RaceStep>)
    requires IsRace(Race(EMPTY_WORLD, {}), steps)
    ensures ValidThroughout(Race(EMPTY_WORLD, {}), steps) <==> NoWriteIsOvertaken(Race(EMPTY_WORLD, {}), steps)
  {
    RaceKeepsExactly(Race(EMPTY_WORLD, {}), steps);
  }

  // ---------- what overtakes a change ----------

  /** An applied save that leaves the finding without a resolution. */
  ghost predicate ClearsResolution(w: World, step: Step, c: Change) {
    && step.Save? && step.request.assessment == c.assessment && step.request.payload.FindingPayload?
    && step.request.payload.finding == c.finding && Unresolved(step.request.payload.saved)
    && Perform(w, step).1.Applied?
  }

  ghost predicate Completes(w: World, step: Step, id: nat) {
    && step.Act? && step.assessment == id && step.action.ChangeLifecycle? && step.action.move.Complete?
    && Perform(w, step).1.Applied?
  }

  /** One assessment changes; this finding of it keeps its resolution, and the assessment stays undone. */
  lemma ReplacedAndResolution(w: World, v: World, id: nat, b: Assessment, c: Change)
    requires id in w.assessments && v.assessments == w.assessments[id := b]
    requires c.finding in b.findings && Unresolved(b.findings[c.finding]) ==>
               c.finding in w.assessments[id].findings && Unresolved(w.assessments[id].findings[c.finding])
    ensures LacksResolution(v, c) ==> LacksResolution(w, c)
    ensures IsDone(v, c.assessment) ==> IsDone(w, c.assessment) || (id == c.assessment && b.completedAt.Some?)
  {
  }

  lemma SavedFinding(a: Assessment, p: Payload, f: nat)
    requires Effect(a, p).Ok?
    ensures Effect(a, p).value.completedAt == a.completedAt
    ensures f in Effect(a, p).value.findings ==> f in a.findings
    ensures f in a.findings && !(p.FindingPayload? && p.finding == f) ==>
              Effect(a, p).value.findings[f] == a.findings[f]
    ensures f in a.findings && p.FindingPayload? && p.finding == f ==> Effect(a, p).value.findings[f] == p.saved
  {
  }

  lemma SaveAndResolution(w: World, step: Step, c: Change)
    requires step.Save?
    requires step.request.assessment in w.assessments ==> LifecycleOk(w.assessments[step.request.assessment])
    ensures var v := Perform(w, step).0;
            && v.nextFinding == w.nextFinding
            && (LacksResolution(v, c) ==> LacksResolution(w, c) || ClearsResolution(w, step, c))
            && (LacksResolution(v, c) && IsDone(v, c.assessment) ==> LacksResolution(w, c))
            && (IsDone(v, c.assessment) ==> IsDone(w, c.assessment))
  {
    var r := step.request;
    if Submit(w, r, step.valid, step.seenStatus, step.now).1.Applied? {
      SubmitPassed(w, r, step.valid, step.seenStatus, step.now);
      SubmitApplied(w, r, step.valid, step.seenStatus, step.now);
      SavedFinding(w.assessments[r.assessment], r.payload, c.finding);
    }
  }

  lemma AppendAndResolution(w: World, id: nat, expected: nat, f: Finding, c: Change)
    requires WorldOk(w) && id in w.assessments && c.finding < w.nextFinding
    ensures var v := Append(w, id, expected, f).0;
            && v.nextFinding >= w.nextFinding
            && (LacksResolution(v, c) ==> LacksResolution(w, c))
            && (IsDone(v, c.assessment) ==> IsDone(w, c.assessment))
  {
    if Append(w, id, expected, f).1.Applied? {
      AppendApplied(w, id, expected, f);
      ReplacedAndResolution(w, Append(w, id, expected, f).0, id, Appended(w.assessments[id], w.nextFinding, f), c);
    }
  }

  lemma DuplicateAndResolution(w: World, id: nat, expected: nat, source: nat, c: Change)
    requires WorldOk(w) && id in w.assessments && c.finding < w.nextFinding
    ensures var v := PerformAction(w, id, Duplicate(expected, source)).0;
            && v.nextFinding >= w.nextFinding
            && (LacksResolution(v, c) ==> LacksResolution(w, c))
            && (IsDone(v, c.assessment) ==> IsDone(w, c.assessment))
  {
    if source in w.assessments[id].findings {
      AppendAndResolution(w, id, expected, DuplicateOf(w.assessments[id].findings[source], w.nextSolution), c);
    }
  }

  lemma RemoveAndResolution(w: World, id: nat, expected: nat, f: nat, c: Change)
    requires WorldOk(w) && id in w.assessments
    ensures var v := Remove(w, id, expected, f).0;
            && v.nextFinding == w.nextFinding
            && (LacksResolution(v, c) ==> LacksResolution(w, c))
            && (IsDone(v, c.assessment) ==> IsDone(w, c.assessment))
  {
    if Remove(w, id, expected, f).1.Applied? {
      var v := Remove(w, id, expected, f).0;
      RemoveApplied(w, id, expected, f);
      ReplacedAndResolution(w, v, id, v.assessments[id], c);
    }
  }

  lemma StatusAndResolution(w: World, id: nat, f: nat, target: FindingStatus, c: Change)
    requires id in w.assessments
    ensures var v := SetFindingStatus(w, id, f, target).0;
            && v.nextFinding == w.nextFinding
            && (LacksResolution(v, c) ==> LacksResolution(w, c))
            && (IsDone(v, c.assessment) ==> IsDone(w, c.assessment))
  {
  }

  lemma TransitionAndResolution(w: World, id: nat, m: Lifecycle, c: Change)
    requires id in w.assessments
    ensures var (v, outcome) := Transition(w, id, m);
            && v.nextFinding == w.nextFinding
            && (LacksResolution(v, c) ==> LacksResolution(w, c))
            && (IsDone(v, c.assessment) && !IsDone(w, c.assessment) ==>
                  id == c.assessment && m.Complete? && outcome.Applied?)
  {
    if Move(w.assessments[id], m).Ok? {
      ReplacedAndResolution(w, Transition(w, id, m).0, id, Move(w.assessments[id], m).value, c);
    }
  }

  lemma ActionAndResolution(w: World, id: nat, action: Action, c: Change)
    requires WorldOk(w) && id in w.assessments && c.finding < w.nextFinding
    ensures var (v, outcome) := PerformAction(w, id, action);
            && v.nextFinding >= w.nextFinding
            && (LacksResolution(v, c) ==> LacksResolution(w, c))
            && (IsDone(v, c.assessment) && !IsDone(w, c.assessment) ==>
                  id == c.assessment && action.ChangeLifecycle? && action.move.Complete? && outcome.Applied?)
  {
    match action
    case CreateBlank(expected) => AppendAndResolution(w, id, expected, BLANK_FINDING, c);
    case CopyTemplate(expected, template) => AppendAndResolution(w, id, expected, CopyOf(template, w.nextSolution), c);
    case Duplicate(expected, source) => DuplicateAndResolution(w, id, expected, source, c);
    case Delete(expected, f) => RemoveAndResolution(w, id, expected, f, c);
    case ChangeStatus(f, target) => StatusAndResolution(w, id, f, target, c);
    case ChangeLifecycle(m) => TransitionAndResolution(w, id, m, c);
  }

  lemma StepAndResolution(w: World, step: Step, c: Change)
    requires WorldOk(w) && c.finding < w.nextFinding
    ensures var v := Perform(w, step).0;
            && v.nextFinding >= w.nextFinding
            && (LacksResolution(v, c) ==> LacksResolution(w, c) || ClearsResolution(w, step, c))
            && (IsDone(v, c.assessment) ==> IsDone(w, c.assessment) || Completes(w, step, c.assessment))
            && (LacksResolution(v, c) && IsDone(v, c.assessment) ==> LacksResolution(w, c))
  {
    match step
    case Create(_, _) =>
    case Save(_, _, _, _) => SaveAndResolution(w, step, c);
    case Act(id, action) => if id in w.assessments { ActionAndResolution(w, id, action, c); }
    case PurgeLedger(_) =>
  }

  ghost predicate ClearsAt(w: World, steps: seq<Step>, i: nat, c: Change)
    requires i < |steps|
  {
    ClearsResolution(Run(w, steps[..i]), steps[i], c)
  }

  ghost predicate CompletesAt(w: World, steps: seq<Step>, i: nat, c: Change)
    requires i < |steps|
  {
    Completes(Run(w, steps[..i]), steps[i], c.assessment)
  }

  ghost predicate Cleared(w: World, steps: seq<Step>, c: Change) {
    exists i :: 0 <= i < |steps| && ClearsAt(w, steps, i, c)
  }

  ghost predicate ClearedThenCompleted(w: World, steps: seq<Step>, c: Change) {
    exists i, j :: 0 <= i < j < |steps| && ClearsAt(w, steps, i, c) && CompletesAt(w, steps, j, c)
  }

  lemma EventsStay(w: World, steps: seq<Step>, front: seq<Step>, c: Change)
    requires steps != [] && front == steps[..|steps| - 1]
    ensures Cleared(w, front, c) ==> Cleared(w, steps, c)
    ensures ClearedThenCompleted(w, front, c) ==> ClearedThenCompleted(w, steps, c)
  {
    forall i: nat | i < |front|
      ensures ClearsAt(w, front, i, c) ==> ClearsAt(w, steps, i, c)
      ensures CompletesAt(w, front, i, c) ==> CompletesAt(w, steps, i, c)
    {
      assert front[..i] == steps[..i];
    }
  }

  lemma EventsAtTheEnd(w: World, steps: seq<Step>, front: seq<Step>, c: Change)
    requires steps != [] && front == steps[..|steps| - 1]
    ensures ClearsResolution(Run(w, front), steps[|front|], c) ==> Cleared(w, steps, c)
    ensures Cleared(w, front, c) && Completes(Run(w, front), steps[|front|], c.assessment) ==>
              ClearedThenCompleted(w, steps, c)
  {
    var n := |front|;
    assert ClearsResolution(Run(w, front), steps[n], c) ==> ClearsAt(w, steps, n, c);
    assert Completes(Run(w, front), steps[n], c.assessment) ==> CompletesAt(w, steps, n, c);
    if Cleared(w, front, c) {
      var i :| 0 <= i < n && ClearsAt(w, front, i, c);
      assert front[..i] == steps[..i];
      assert ClearsAt(w, steps, i, c);
    }
  }

  lemma {:induction false} RunAndResolution(w: World, steps: seq<Step>, c: Change)
    requires WorldOk(w) && c.finding < w.nextFinding && !LacksResolution(w, c) && !IsDone(w, c.assessment)
    ensures Run(w, steps).nextFinding >= w.nextFinding
    ensures LacksResolution(Run(w, steps), c) ==> Cleared(w, steps, c)
    ensures LacksResolution(Run(w, steps), c) && IsDone(Run(w, steps), c.assessment) ==>
              ClearedThenCompleted(w, steps, c)
    decreases |steps|
  {
    if steps != [] {
      var n := |steps| - 1;
      var front := steps[..n];
      RunAndResolution(w, front, c);
      RunKeepsWorld(w, front);
      StepAndResolution(Run(w, front), steps[n], c);
      EventsStay(w, steps, front, c);
      EventsAtTheEnd(w, steps, front, c);
    }
  }

  /**
    A change that passed its checks is overtaken only by a save that clears the resolution, and a
    completion after it.
   */
  lemma OvertakenOnlyBy(w: World, steps: seq<Step>, c: Change)
    requires WorldOk(w) && ReadPasses(w, c) && Overtaken(Run(w, steps), c)
    ensures ClearedThenCompleted(w, steps, c)
  {
    RunAndResolution(w, steps, c);
  }

  /** The save and the completion that come between. */
  function Overtaking(w: World, c: Change, id: string, now: nat): seq<Step>
    requires ReadPasses(w, c)
  {
    var a := w.assessments[c.assessment];
    [Save(Request(id, c.assessment, a.lockVersion,
                  FindingPayload(c.finding, a.findings[c.finding].(resolutionNotes := ""))), true, Draft, now),
     Act(c.assessment, ChangeLifecycle(Complete(now)))]
  }

  lemma RunOfTwoSteps(w: World, a: Step, b: Step)
    ensures Run(w, [a, b]) == Perform(Perform(w, a).0, b).0
  {
    assert [a][..0] == [] && Run(w, []) == w;
    assert Run(w, [a]) == Perform(w, a).0;
    assert [a, b][..1] == [a];
  }

  lemma NotesAreCleared(w: World, c: Change, id: string, now: nat, v: World)
    requires ReadPasses(w, c) && c.target == Resolved && id !in w.ledger
    requires Completable(w.assessments[c.assessment])
    requires var f := w.assessments[c.assessment].findings[c.finding]; f.includeInReport && f.implemented.None?
    requires v == Perform(w, Overtaking(w, c, id, now)[0]).0
    ensures LacksResolution(v, c) && v.assessments[c.assessment].findings[c.finding].includeInReport
    ensures v.assessments[c.assessment].status == Draft && Completable(v.assessments[c.assessment])
  {
    var a := w.assessments[c.assessment];
    var saved := a.findings[c.finding].(resolutionNotes := "");
    ClearedIsReady(a.findings[c.finding]);
    var b := a.(findings := a.findings[c.finding := saved], lockVersion := a.lockVersion + 1);
    assert Effect(a, FindingPayload(c.finding, saved)) == Ok(a.(findings := a.findings[c.finding := saved]));
    assert v.assessments[c.assessment] == b;
  }

  lemma ClearedIsReady(f: Finding)
    requires FindingErrors(f) == [] && f.status != Resolved
    ensures FindingErrors(f.(resolutionNotes := "")) == []
  {
    NoErrorsMeansReportReady(f);
    NoErrorsMeansReportReady(f.(resolutionNotes := ""));
  }

  lemma CompletionFollows(v: World, c: Change, now: nat, u: World)
    requires LacksResolution(v, c) && v.assessments[c.assessment].findings[c.finding].includeInReport
    requires v.assessments[c.assessment].status == Draft && Completable(v.assessments[c.assessment])
    requires u == Perform(v, Act(c.assessment, ChangeLifecycle(Complete(now)))).0
    ensures c.target == Resolved ==> Overtaken(u, c)
  {
  }

  /** And so it happens in every draft fit to be completed, to any finding resolved by its notes alone. */
  lemma ChangeIsOvertaken(w: World, c: Change, id: string, now: nat)
    requires WorldOk(w) && ReadPasses(w, c) && c.target == Resolved && id !in w.ledger
    requires Completable(w.assessments[c.assessment])
    requires var f := w.assessments[c.assessment].findings[c.finding]; f.includeInReport && f.implemented.None?
    ensures Overtaken(Run(w, Overtaking(w, c, id, now)), c)
    ensures !WorldOk(WriteStatus(Run(w, Overtaking(w, c, id, now)), c))
  {
    var steps := Overtaking(w, c, id, now);
    var v := Perform(w, steps[0]).0;
    NotesAreCleared(w, c, id, now, v);
    var u := Perform(v, steps[1]).0;
    CompletionFollows(v, c, now, u);
    RunOfTwoSteps(w, steps[0], steps[1]);
    RunKeepsWorld(w, steps);
    WriteKeepsExactly(u, c);
  }
}
