/**
  The server side of an assessment: its status and version, its findings with
  their numbering, and the idempotency ledger of save requests.  Every action is
  one transaction under the assessment's save lock, so a refused action leaves
  the world as it was.  A status change takes that lock only through its caller;
  without one it is two steps, in module StatusTransition.
 */
module Workspace {
  import opened Wrappers
  import opened SetFacts
  import opened Findings
  import opened FindingOrder

  datatype AssessmentStatus = Draft | Completed | Archived

  /** `findings` and `order` are the active finding rows, the latter their sort_order column. */
  datatype Assessment = Assessment(
    status: AssessmentStatus,
    completedAt: Option<nat>,
    lockVersion: nat,
    content: string,
    findings: map<nat, Finding>,
    order: Numbering)

  datatype Payload =
    | ContentPayload(content: string)
    | FindingPayload(finding: nat, saved: Finding)
    | OrderPayload(ids: seq<nat>)

  /** SHA-256 of a payload, an injective function of what the payload's JSON contains. */
  datatype Hash = ContentHash(content: string) | FindingHash(saved: Finding) | OrderHash(ids: seq<nat>)

  /** The operation recorded in a ledger row's response. */
  datatype Operation = SaveWorkspace | SaveFinding(finding: nat) | ReorderFindings

  datatype Row = Row(assessment: nat, expected: nat, applied: nat, hash: Hash, operation: Operation, createdAt: nat)

  datatype Request = Request(id: string, assessment: nat, expected: nat, payload: Payload)

  datatype Refusal = NotFound | ReadOnly | Invalid | VersionConflict | IdempotencyKeyMismatch

  datatype Outcome = Applied(version: nat) | Replayed(version: nat) | Refused(reason: Refusal) | Purged

  datatype World = World(
    assessments: map<nat, Assessment>,
    ledger: map<string, Row>,
    nextFinding: nat,
    nextSolution: nat)

  function HashOf(p: Payload): Hash {
    match p
    case ContentPayload(c) => ContentHash(c)
    case FindingPayload(_, saved) => FindingHash(saved)
    case OrderPayload(ids) => OrderHash(ids)
  }

  function OperationOf(p: Payload): Operation {
    match p
    case ContentPayload(_) => SaveWorkspace
    case FindingPayload(f, _) => SaveFinding(f)
    case OrderPayload(_) => ReorderFindings
  }

  /** A recorded request that is not this one must not answer for it. */
  function FindReplay(ledger: map<string, Row>, r: Request): Result<Option<nat>, Refusal> {
    if r.id !in ledger then Ok(None)
    else
      var row := ledger[r.id];
      if row.assessment != r.assessment || row.hash != HashOf(r.payload)
         || (!r.payload.ContentPayload? && row.operation != OperationOf(r.payload))
      then Err(IdempotencyKeyMismatch)
      else Ok(Some(row.applied))
  }

  /** `IncrementAssessmentVersion`, and the guard of `SaveAssessmentPatch` */
  function Increment(a: Assessment, expected: nat): Result<Assessment, Refusal> {
    if a.status == Draft && a.lockVersion == expected then Ok(a.(lockVersion := expected + 1))
    else if a.status != Draft then Err(ReadOnly)
    else Err(VersionConflict)
  }

  /** The referenced solutions of the stored finding must survive, and a status change must be allowed. */
  predicate FindingMayBecome(stored: Finding, saved: Finding) {
    && (stored.recommended.Some? ==> HasSolution(saved.solutions, stored.recommended.value))
    && (stored.implemented.Some? ==> HasSolution(saved.solutions, stored.implemented.value))
    && (saved.status != stored.status ==> MayTransition(saved.(status := stored.status), saved.status))
  }

  /** What a payload does to the assessment, before its version moves. */
  function Effect(a: Assessment, p: Payload): Result<Assessment, Refusal> {
    match p
    case ContentPayload(c) => Ok(a.(content := c))
    case FindingPayload(f, saved) =>
      if f !in a.findings then Err(NotFound)
      else if !FindingMayBecome(a.findings[f], saved) then Err(Invalid)
      else Ok(a.(findings := a.findings[f := saved]))
    case OrderPayload(ids) =>
      if Elements(ids) != a.findings.Keys then Err(Invalid)
      else Ok(a.(order := Reordered(a.order, ids)))
  }

  /** The envelope a reorder request is validated against. */
  predicate EnvelopeOk(p: Payload) {
    p.OrderPayload? ==> p.ids != [] && Distinct(p.ids)
  }

  /**
    One save request inside its lock and transaction.  `valid` stands for the
    field validators; `seenStatus` is the status in the caller's copy of the
    assessment, which only the workspace save looks at.
   */
  function Submit(w: World, r: Request, valid: bool, seenStatus: AssessmentStatus, now: nat): (World, Outcome) {
    if r.assessment !in w.assessments then (w, Refused(NotFound))
    else if r.payload.ContentPayload? && seenStatus != Draft then (w, Refused(ReadOnly))
    else if !EnvelopeOk(r.payload) || (r.payload.ContentPayload? && !valid) then (w, Refused(Invalid))
    else match FindReplay(w.ledger, r)
      case Err(refusal) => (w, Refused(refusal))
      case Ok(replay) =>
        // a reorder tests the replayed version for truth
        if replay.Some? && !(r.payload.OrderPayload? && replay.value == 0) then (w, Replayed(replay.value))
        else
          var a := w.assessments[r.assessment];
          if !r.payload.ContentPayload? && a.status != Draft then (w, Refused(ReadOnly))
          else if !valid then (w, Refused(Invalid))
          else match Effect(a, r.payload)
            case Err(refusal) => (w, Refused(refusal))
            case Ok(changed) =>
              match Increment(changed, r.expected)
              case Err(refusal) => (w, Refused(refusal))
              case Ok(saved) =>
                // the request id is the ledger's primary key
                if r.id in w.ledger then (w, Refused(IdempotencyKeyMismatch))
                else
                  (w.(assessments := w.assessments[r.assessment := saved],
                      ledger := w.ledger[r.id := Row(r.assessment, r.expected, r.expected + 1,
                                                     HashOf(r.payload), OperationOf(r.payload), now)]),
                   Applied(r.expected + 1))
  }

  /** A structural action: Draft only, one change, one version step. */
  function Restructure(w: World, id: nat, expected: nat, changed: Assessment, next: World): (World, Outcome)
    requires id in w.assessments
  {
    if w.assessments[id].status != Draft then (w, Refused(ReadOnly))
    else match Increment(changed, expected)
      case Err(refusal) => (w, Refused(refusal))
      case Ok(saved) => (next.(assessments := w.assessments[id := saved]), Applied(expected + 1))
  }

  lemma {:induction false} MaxOrderExists(order: Numbering)
    ensures exists m: nat :: IsMaxOrder(order, m)
    decreases |order|
  {
    if order.Keys == {} {
      assert IsMaxOrder(order, 0);
    } else {
      var id :| id in order;
      var rest := order - {id};
      assert order.Keys == rest.Keys + {id};
      MaxOrderExists(rest);
      var m: nat :| IsMaxOrder(rest, m);
      assert IsMaxOrder(order, if order[id] > m then order[id] else m) by {
        if m != 0 && order[id] <= m {
          var x :| x in rest && rest[x] == m;
          assert order[x] == m;
        }
      }
    }
  }

  ghost function MaxOrder(order: Numbering): (m: nat)
    ensures IsMaxOrder(order, m)
  {
    MaxOrderExists(order);
    var m: nat :| IsMaxOrder(order, m);
    m
  }

  const BLANK_FINDING :=
    Finding("", "", "", "", None, None, false, "", Organization, 0, "", Open, "", true, [], None, None)

  ghost function Append(w: World, id: nat, expected: nat, f: Finding): (World, Outcome)
    requires id in w.assessments
  {
    var a := w.assessments[id];
    Restructure(w, id, expected,
                a.(findings := a.findings[w.nextFinding := f],
                   order := a.order[w.nextFinding := MaxOrder(a.order) + 1]),
                w.(nextFinding := w.nextFinding + 1,
                   nextSolution := w.nextSolution + |f.solutions|))
  }

  /** `DeleteFinding`: the row goes, the rest is renumbered in order. */
  function Remove(w: World, id: nat, expected: nat, f: nat): (World, Outcome)
    requires id in w.assessments
  {
    var a := w.assessments[id];
    if a.status != Draft then (w, Refused(ReadOnly))
    else if f !in a.findings then (w, Refused(NotFound))
    else Restructure(w, id, expected,
                     a.(findings := a.findings - {f}, order := Compacted(a.order - {f})), w)
  }

  function SetFindingStatus(w: World, id: nat, f: nat, target: FindingStatus): (World, Outcome)
    requires id in w.assessments
  {
    var a := w.assessments[id];
    if a.status != Draft then (w, Refused(ReadOnly))
    else if f !in a.findings then (w, Refused(NotFound))
    else if !MayTransition(a.findings[f], target) then (w, Refused(Invalid))
    else
      (w.(assessments := w.assessments[id := a.(findings := a.findings[f := a.findings[f].(status := target)])]),
       Applied(a.lockVersion))
  }

  /** Every finding meant for the report passes the validator. */
  predicate Completable(a: Assessment) {
    forall f :: f in a.findings && a.findings[f].includeInReport ==> FindingErrors(a.findings[f]) == []
  }

  datatype Lifecycle = Complete(now: nat) | Archive | Reopen

  /** `CompleteAssessment`, `ArchiveAssessment` and `ReopenAssessment` on the locked row. */
  function Move(a: Assessment, m: Lifecycle): Result<Assessment, Refusal> {
    match m
    case Complete(now) =>
      if a.status != Draft || !Completable(a) then Err(Invalid)
      else Ok(a.(status := Completed, completedAt := Some(now), lockVersion := a.lockVersion + 1))
    case Archive =>
      if a.status == Archived then Err(Invalid)
      else Ok(a.(status := Archived, lockVersion := a.lockVersion + 1))
    case Reopen =>
      if a.status == Draft then Err(Invalid)
      else Ok(a.(status := Draft, completedAt := None, lockVersion := a.lockVersion + 1))
  }

  function Transition(w: World, id: nat, m: Lifecycle): (World, Outcome)
    requires id in w.assessments
  {
    match Move(w.assessments[id], m)
    case Err(refusal) => (w, Refused(refusal))
    case Ok(moved) => (w.(assessments := w.assessments[id := moved]), Applied(moved.lockVersion))
  }

  /** `PurgeExpiredWorkspaceSaveRequests` */
  function Purge(w: World, cutoff: nat): World {
    w.(ledger := map id | id in w.ledger && w.ledger[id].createdAt >= cutoff :: w.ledger[id])
  }

  const EMPTY_WORLD := World(map[], map[], 0, 0)

  function NewAssessment(content: string): Assessment {
    Assessment(Draft, None, 0, content, map[], map[])
  }

  /** `CreateAssessment`; an id is given out once. */
  function CreateIn(w: World, id: nat, content: string): (World, Outcome) {
    if id in w.assessments then (w, Refused(Invalid))
    else (w.(assessments := w.assessments[id := NewAssessment(content)]), Applied(0))
  }

  datatype Action =
    | CreateBlank(expected: nat)
    | CopyTemplate(expected: nat, template: Template)
    | Duplicate(expected: nat, source: nat)
    | Delete(expected: nat, finding: nat)
    | ChangeStatus(changed: nat, target: FindingStatus)
    | ChangeLifecycle(move: Lifecycle)

  datatype Step =
    | Create(id: nat, content: string)
    | Save(request: Request, valid: bool, seenStatus: AssessmentStatus, now: nat)
    | Act(assessment: nat, action: Action)
    | PurgeLedger(cutoff: nat)

  ghost function PerformAction(w: World, id: nat, action: Action): (World, Outcome)
    requires id in w.assessments
  {
    match action
    case CreateBlank(expected) => Append(w, id, expected, BLANK_FINDING)
    case CopyTemplate(expected, template) =>
      if !Copyable(template) then (w, Refused(Invalid))
      else Append(w, id, expected, CopyOf(template, w.nextSolution))
    case Duplicate(expected, source) =>
      if source !in w.assessments[id].findings then (w, Refused(NotFound))
      else Append(w, id, expected, DuplicateOf(w.assessments[id].findings[source], w.nextSolution))
    case Delete(expected, f) => Remove(w, id, expected, f)
    case ChangeStatus(f, target) => SetFindingStatus(w, id, f, target)
    case ChangeLifecycle(m) => Transition(w, id, m)
  }

  /** One action on the world; the steps of a run are the actions of any number of users. */
  ghost function Perform(w: World, step: Step): (World, Outcome) {
    match step
    case Create(id, content) => CreateIn(w, id, content)
    case Save(r, valid, seen, now) => Submit(w, r, valid, seen, now)
    case PurgeLedger(cutoff) => (Purge(w, cutoff), Purged)
    case Act(id, action) =>
      if id !in w.assessments then (w, Refused(NotFound)) else PerformAction(w, id, action)
  }

  /** The world after the first steps of a run. */
  ghost function Run(w: World, steps: seq<Step>): World {
    if steps == [] then w else Perform(Run(w, steps[..|steps| - 1]), steps[|steps| - 1]).0
  }

  /** What step `i` of a run answers. */
  ghost function OutcomeAt(w: World, steps: seq<Step>, i: nat): Outcome
    requires i < |steps|
  {
    Perform(Run(w, steps[..i]), steps[i]).1
  }
}
