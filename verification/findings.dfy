/** Findings, their completion validator, status machine and copies. */
module Findings {
  import opened Wrappers
  import opened PhpStrings

  datatype FindingStatus = Open | Planned | InProgress | Resolved | Accepted | NotApplicable

  datatype ScopeType = Organization | SelectedSites | Network | SelectedAssets | CustomScope

  datatype Solution = Solution(
    id: nat,
    title: string,
    description: string,
    comparisonNotes: string,
    effortNotes: string,
    estimateNotes: string)

  /** A null text and an empty text are not told apart: both are blank and neither exceeds a limit. */
  datatype Finding = Finding(
    title: string,
    problem: string,
    entrepreneurNotes: string,
    technicalNotes: string,
    categoryId: Option<nat>,
    priorityLevelId: Option<nat>,
    priorityIsOverridden: bool,
    priorityRationale: string,
    scopeType: ScopeType,
    siteCount: nat,
    scopeDescription: string,
    status: FindingStatus,
    resolutionNotes: string,
    includeInReport: bool,
    solutions: seq<Solution>,
    recommended: Option<nat>,
    implemented: Option<nat>)

  // ---------- the completion validator ----------

  predicate Blank(s: string) {
    forall i :: 0 <= i < |s| ==> Trimmable(s[i])
  }

  datatype Limits = Limits(
    entrepreneurNotes: nat, problem: nat, solutionDescription: nat, comparisonNotes: nat,
    effortNotes: nat, estimateNotes: nat, technicalNotes: nat, resolutionNotes: nat)

  const FINDING_TITLE: nat := 180
  const SOLUTION_TITLE: nat := 140

  function ForSolutionCount(n: nat): Limits {
    if n <= 1 then Limits(900, 1400, 1000, 320, 240, 240, 500, 500)
    else if n == 2 then Limits(750, 1100, 800, 220, 180, 180, 350, 350)
    else Limits(600, 850, 350, 140, 120, 120, 200, 140)
  }

  datatype Message =
    | TitleRequired | CategoryRequired | ProblemRequired | PriorityRequired | OverrideReasonRequired
    | SolutionRequired | SolutionLimit | RecommendedSolutionRequired
    | SiteScopeRequired | ScopeDescriptionRequired | ResolutionRequired
    | EditorialLimit(limit: nat)

  function OverLimit(text: string, limit: nat): seq<Message> {
    if |text| > limit then [EditorialLimit(limit)] else []
  }

  function SolutionViolations(s: Solution, limits: Limits): seq<Message> {
    OverLimit(s.title, SOLUTION_TITLE)
    + OverLimit(s.description, limits.solutionDescription)
    + OverLimit(s.comparisonNotes, limits.comparisonNotes)
    + OverLimit(s.effortNotes, limits.effortNotes)
    + OverLimit(s.estimateNotes, limits.estimateNotes)
  }

  function AllSolutionViolations(solutions: seq<Solution>, limits: Limits): seq<Message> {
    if solutions == [] then []
    else SolutionViolations(solutions[0], limits) + AllSolutionViolations(solutions[1..], limits)
  }

  /** `EditorialLimits::violations` */
  function Violations(f: Finding): seq<Message> {
    var limits := ForSolutionCount(|f.solutions|);
    OverLimit(f.title, FINDING_TITLE)
    + OverLimit(f.entrepreneurNotes, limits.entrepreneurNotes)
    + OverLimit(f.problem, limits.problem)
    + OverLimit(f.technicalNotes, limits.technicalNotes)
    + OverLimit(f.resolutionNotes, limits.resolutionNotes)
    + AllSolutionViolations(f.solutions, limits)
  }

  /** `ValidateFindingScopeSelection::messages` */
  function ScopeMessages(scope: ScopeType, siteCount: nat, description: string): seq<Message> {
    (if scope == SelectedSites && siteCount == 0 then [SiteScopeRequired] else [])
    + (if (scope == Network || scope == CustomScope) && Blank(description) then [ScopeDescriptionRequired] else [])
  }

  predicate HasSolution(solutions: seq<Solution>, id: nat) {
    exists i :: 0 <= i < |solutions| && solutions[i].id == id
  }

  function When(condition: bool, message: Message): seq<Message> {
    if condition then [message] else []
  }

  /** `ValidateAssessmentCompletion::findingErrors` */
  function FindingErrors(f: Finding): seq<Message> {
    When(Blank(f.title), TitleRequired)
    + When(f.categoryId.None?, CategoryRequired)
    + When(Blank(f.problem), ProblemRequired)
    + When(f.priorityLevelId.None?, PriorityRequired)
    + When(f.priorityIsOverridden && Blank(f.priorityRationale), OverrideReasonRequired)
    + When(f.solutions == [], SolutionRequired)
    + When(|f.solutions| > 3, SolutionLimit)
    + When(f.recommended.None? || !HasSolution(f.solutions, f.recommended.value), RecommendedSolutionRequired)
    + ScopeMessages(f.scopeType, f.siteCount, f.scopeDescription)
    + When(f.status == Resolved && f.implemented.None? && Blank(f.resolutionNotes), ResolutionRequired)
    + Violations(f)
  }

  predicate SolutionFits(s: Solution, limits: Limits) {
    && |s.title| <= SOLUTION_TITLE
    && |s.description| <= limits.solutionDescription
    && |s.comparisonNotes| <= limits.comparisonNotes
    && |s.effortNotes| <= limits.effortNotes
    && |s.estimateNotes| <= limits.estimateNotes
  }

  /** What a finding must be to appear in a report, said without messages. */
  predicate ReportReady(f: Finding) {
    var limits := ForSolutionCount(|f.solutions|);
    && !Blank(f.title) && |f.title| <= FINDING_TITLE
    && !Blank(f.problem) && |f.problem| <= limits.problem
    && |f.entrepreneurNotes| <= limits.entrepreneurNotes
    && |f.technicalNotes| <= limits.technicalNotes
    && |f.resolutionNotes| <= limits.resolutionNotes
    && f.categoryId.Some?
    && f.priorityLevelId.Some?
    && (f.priorityIsOverridden ==> !Blank(f.priorityRationale))
    && 1 <= |f.solutions| <= 3
    && (forall i :: 0 <= i < |f.solutions| ==> SolutionFits(f.solutions[i], limits))
    && f.recommended.Some? && HasSolution(f.solutions, f.recommended.value)
    && (f.scopeType == SelectedSites ==> f.siteCount > 0)
    && (f.scopeType == Network || f.scopeType == CustomScope ==> !Blank(f.scopeDescription))
    && (f.status == Resolved ==> f.implemented.Some? || !Blank(f.resolutionNotes))
  }

  lemma {:induction false} NoSolutionViolations(solutions: seq<Solution>, limits: Limits)
    ensures AllSolutionViolations(solutions, limits) == [] <==>
              forall i :: 0 <= i < |solutions| ==> SolutionFits(solutions[i], limits)
  {
    if solutions != [] {
      NoSolutionViolations(solutions[1..], limits);
      assert forall i :: 1 <= i < |solutions| ==> solutions[i] == solutions[1..][i - 1];
      assert SolutionViolations(solutions[0], limits) == [] <==> SolutionFits(solutions[0], limits);
    }
  }

  /** The validator stays silent exactly about findings fit for a report. */
  lemma NoErrorsMeansReportReady(f: Finding)
    ensures FindingErrors(f) == [] <==> ReportReady(f)
  {
    NoSolutionViolations(f.solutions, ForSolutionCount(|f.solutions|));
  }

  lemma {:induction false} SolutionViolationsAreLimits(solutions: seq<Solution>, limits: Limits)
    ensures forall m :: m in AllSolutionViolations(solutions, limits) ==> m.EditorialLimit?
  {
    if solutions != [] {
      SolutionViolationsAreLimits(solutions[1..], limits);
    }
  }

  lemma InConcat<T>(a: seq<T>, b: seq<T>, c: seq<T>, d: seq<T>, e: seq<T>, g: seq<T>, x: T)
    ensures x in a + b + c + d + e + g <==> x in a || x in b || x in c || x in d || x in e || x in g
  {
    assert x in a + b <==> x in a || x in b;
    assert x in a + b + c <==> x in a + b || x in c;
    assert x in a + b + c + d <==> x in a + b + c || x in d;
    assert x in a + b + c + d + e <==> x in a + b + c + d || x in e;
  }

  /** The parts of the validator that come before the editorial limits. */
  function Parts(f: Finding): (seq<Message>, seq<Message>, seq<Message>, seq<Message>, seq<Message>,
                               seq<Message>, seq<Message>, seq<Message>, seq<Message>, seq<Message>)
  {
    (When(Blank(f.title), TitleRequired), When(f.categoryId.None?, CategoryRequired),
     When(Blank(f.problem), ProblemRequired), When(f.priorityLevelId.None?, PriorityRequired),
     When(f.priorityIsOverridden && Blank(f.priorityRationale), OverrideReasonRequired),
     When(f.solutions == [], SolutionRequired), When(|f.solutions| > 3, SolutionLimit),
     When(f.recommended.None? || !HasSolution(f.solutions, f.recommended.value), RecommendedSolutionRequired),
     ScopeMessages(f.scopeType, f.siteCount, f.scopeDescription),
     When(f.status == Resolved && f.implemented.None? && Blank(f.resolutionNotes), ResolutionRequired))
  }

  lemma InTen<T>(a: seq<T>, b: seq<T>, c: seq<T>, d: seq<T>, e: seq<T>, g: seq<T>, h: seq<T>, i: seq<T>, j: seq<T>,
                 k: seq<T>, rest: seq<T>, x: T)
    requires x !in rest
    ensures x in a + b + c + d + e + g + h + i + j + k + rest <==>
              x in a || x in b || x in c || x in d || x in e || x in g || x in h || x in i || x in j || x in k
  {
    InConcat(a, b, c, d, e, g, x);
    InConcat(a + b + c + d + e + g, h, i, j, k, rest, x);
  }

  predicate InParts(f: Finding, m: Message) {
    var p := Parts(f);
    m in p.0 || m in p.1 || m in p.2 || m in p.3 || m in p.4 || m in p.5 || m in p.6 || m in p.7 || m in p.8 || m in p.9
  }

  lemma ErrorsHave(f: Finding, m: Message)
    requires !m.EditorialLimit?
    ensures m in FindingErrors(f) <==> InParts(f, m)
  {
    var p := Parts(f);
    NoLimitIn(f, m);
    InTen(p.0, p.1, p.2, p.3, p.4, p.5, p.6, p.7, p.8, p.9, Violations(f), m);
    assert FindingErrors(f) == p.0 + p.1 + p.2 + p.3 + p.4 + p.5 + p.6 + p.7 + p.8 + p.9 + Violations(f);
  }

  lemma NoLimitIn(f: Finding, m: Message)
    requires !m.EditorialLimit?
    ensures m !in Violations(f)
  {
    SolutionViolationsAreLimits(f.solutions, ForSolutionCount(|f.solutions|));
  }

  /** What a message is about. */
  predicate Reason(f: Finding, m: Message) {
    match m
    case TitleRequired => Blank(f.title)
    case CategoryRequired => f.categoryId.None?
    case ProblemRequired => Blank(f.problem)
    case PriorityRequired => f.priorityLevelId.None?
    case OverrideReasonRequired => f.priorityIsOverridden && Blank(f.priorityRationale)
    case SolutionRequired => |f.solutions| == 0
    case SolutionLimit => |f.solutions| > 3
    case RecommendedSolutionRequired => f.recommended.None? || !HasSolution(f.solutions, f.recommended.value)
    case SiteScopeRequired => f.scopeType == SelectedSites && f.siteCount == 0
    case ScopeDescriptionRequired =>
      (f.scopeType == Network || f.scopeType == CustomScope) && Blank(f.scopeDescription)
    case ResolutionRequired => f.status == Resolved && f.implemented.None? && Blank(f.resolutionNotes)
    case EditorialLimit(_) => true
  }

  lemma InWhen(condition: bool, message: Message, m: Message)
    ensures m in When(condition, message) <==> Is(condition, message, m)
  {
  }

  lemma InScope(scope: ScopeType, siteCount: nat, description: string, m: Message)
    ensures m in ScopeMessages(scope, siteCount, description) <==>
              || (m == SiteScopeRequired && scope == SelectedSites && siteCount == 0)
              || (m == ScopeDescriptionRequired && (scope == Network || scope == CustomScope) && Blank(description))
  {
  }

  /** One message of the ten that stand for a condition each. */
  predicate Is(condition: bool, message: Message, m: Message) {
    condition && m == message
  }

  lemma PartsAre(f: Finding, m: Message)
    ensures InParts(f, m) <==>
              || Is(Blank(f.title), TitleRequired, m) || Is(f.categoryId.None?, CategoryRequired, m)
              || Is(Blank(f.problem), ProblemRequired, m) || Is(f.priorityLevelId.None?, PriorityRequired, m)
              || Is(f.priorityIsOverridden && Blank(f.priorityRationale), OverrideReasonRequired, m)
              || Is(f.solutions == [], SolutionRequired, m) || Is(|f.solutions| > 3, SolutionLimit, m)
              || Is(f.recommended.None? || !HasSolution(f.solutions, f.recommended.value),
                    RecommendedSolutionRequired, m)
              || m in ScopeMessages(f.scopeType, f.siteCount, f.scopeDescription)
              || Is(f.status == Resolved && f.implemented.None? && Blank(f.resolutionNotes), ResolutionRequired, m)
  {
    var p := Parts(f);
    InWhen(Blank(f.title), TitleRequired, m);
    InWhen(f.categoryId.None?, CategoryRequired, m);
    InWhen(Blank(f.problem), ProblemRequired, m);
    InWhen(f.priorityLevelId.None?, PriorityRequired, m);
    InWhen(f.priorityIsOverridden && Blank(f.priorityRationale), OverrideReasonRequired, m);
    InWhen(f.solutions == [], SolutionRequired, m);
    InWhen(|f.solutions| > 3, SolutionLimit, m);
    InWhen(f.recommended.None? || !HasSolution(f.solutions, f.recommended.value), RecommendedSolutionRequired, m);
    InWhen(f.status == Resolved && f.implemented.None? && Blank(f.resolutionNotes), ResolutionRequired, m);
  }

  lemma PartsSay(f: Finding, m: Message)
    requires !m.EditorialLimit?
    ensures InParts(f, m) <==> Reason(f, m)
  {
    PartsAre(f, m);
    InScope(f.scopeType, f.siteCount, f.scopeDescription, m);
  }

  /** All messages are given at once, each exactly for its reason. */
  lemma ErrorsSayWhatIsMissing(f: Finding, m: Message)
    requires !m.EditorialLimit?
    ensures m in FindingErrors(f) <==> Reason(f, m)
  {
    ErrorsHave(f, m);
    PartsSay(f, m);
  }

  /** The more solutions a finding has, the less room its texts have. */
  lemma LimitsShrink(m: nat, n: nat)
    requires m <= n
    ensures var a, b := ForSolutionCount(m), ForSolutionCount(n);
            && b.entrepreneurNotes <= a.entrepreneurNotes && b.problem <= a.problem
            && b.solutionDescription <= a.solutionDescription && b.comparisonNotes <= a.comparisonNotes
            && b.effortNotes <= a.effortNotes && b.estimateNotes <= a.estimateNotes
            && b.technicalNotes <= a.technicalNotes && b.resolutionNotes <= a.resolutionNotes
  {
  }

  // ---------- the status machine of a finding ----------

  function Destinations(source: FindingStatus): set<FindingStatus> {
    match source
    case Open => {Planned, InProgress, Accepted, NotApplicable}
    case Planned => {Open, InProgress, Resolved, Accepted}
    case InProgress => {Open, Planned, Resolved}
    case Resolved => {Open, InProgress}
    case Accepted => {Open, Planned}
    case NotApplicable => {Open}
  }

  predicate MayTransition(f: Finding, target: FindingStatus) {
    && target in Destinations(f.status)
    && (target == Resolved ==> f.implemented.Some? || !Blank(f.resolutionNotes))
  }

  /**
    The shape of the status machine: no status leads to itself, each leads back to
    Open in one step and is reached from Open in two, only Planned and InProgress can become
    Resolved, and NotApplicable is entered and left through Open alone.
   */
  lemma StatusMachine(s: FindingStatus, t: FindingStatus)
    ensures s !in Destinations(s)
    ensures s != Open ==> Open in Destinations(s)
    ensures Resolved in Destinations(s) <==> s == Planned || s == InProgress
    ensures NotApplicable in Destinations(s) <==> s == Open
    ensures Accepted in Destinations(s) <==> s == Open || s == Planned
    ensures Planned in Destinations(s) <==> s == Open || s == InProgress || s == Accepted
    ensures InProgress in Destinations(s) <==> s == Open || s == Planned || s == Resolved
    ensures t != Open ==> t in Destinations(Open) || (exists u :: u in Destinations(Open) && t in Destinations(u))
  {
    assert t == Resolved ==> InProgress in Destinations(Open) && t in Destinations(InProgress);
  }

  // ---------- copies ----------

  function Renumbered(solutions: seq<Solution>, firstId: nat): (copies: seq<Solution>) {
    seq(|solutions|, i requires 0 <= i < |solutions| => solutions[i].(id := firstId + i))
  }

  function PositionOf(solutions: seq<Solution>, id: nat): Option<nat> {
    if solutions == [] then None
    else if solutions[|solutions| - 1].id == id then Some(|solutions| - 1)
    else PositionOf(solutions[..|solutions| - 1], id)
  }

  /** `DuplicateFinding`: a fresh open finding whose recommended solution is the copy of the source's. */
  function DuplicateOf(source: Finding, firstSolutionId: nat): Finding {
    var position := if source.recommended.None? then None else PositionOf(source.solutions, source.recommended.value);
    source.(status := Open,
            resolutionNotes := "",
            implemented := None,
            solutions := Renumbered(source.solutions, firstSolutionId),
            recommended := if position.None? then None else Some(firstSolutionId + position.value))
  }

  lemma {:induction false} PositionOfIsRight(solutions: seq<Solution>, id: nat)
    ensures PositionOf(solutions, id).Some? <==> HasSolution(solutions, id)
    ensures PositionOf(solutions, id).Some? ==>
              PositionOf(solutions, id).value < |solutions| && solutions[PositionOf(solutions, id).value].id == id
  {
    if solutions != [] && solutions[|solutions| - 1].id != id {
      PositionOfIsRight(solutions[..|solutions| - 1], id);
      assert HasSolution(solutions, id) ==> HasSolution(solutions[..|solutions| - 1], id);
    } else if solutions != [] {
      assert solutions[|solutions| - 1].id == id;
    }
  }

  /** Duplicating never turns a finding fit for a report into one that is not. */
  lemma DuplicateStaysReportReady(source: Finding, firstSolutionId: nat)
    requires FindingErrors(source) == []
    ensures FindingErrors(DuplicateOf(source, firstSolutionId)) == []
  {
    var copy := DuplicateOf(source, firstSolutionId);
    NoErrorsMeansReportReady(source);
    PositionOfIsRight(source.solutions, source.recommended.value);
    var p := PositionOf(source.solutions, source.recommended.value).value;
    assert copy.solutions[p].id == copy.recommended.value;
    NoErrorsMeansReportReady(copy);
  }

  datatype TemplateSolution = TemplateSolution(text: Solution, isRecommended: bool)

  datatype Template = Template(
    title: string,
    problem: string,
    entrepreneurNotes: string,
    technicalNotes: string,
    categoryId: Option<nat>,
    priorityLevelId: Option<nat>,
    priorityRationale: string,
    scopeType: ScopeType,
    scopeDescription: string,
    enabled: bool,
    solutions: seq<TemplateSolution>)

  function RecommendedPositions(solutions: seq<TemplateSolution>): set<nat> {
    set i: nat | i < |solutions| && solutions[i].isRecommended
  }

  function LastRecommended(solutions: seq<TemplateSolution>): Option<nat> {
    if solutions == [] then None
    else if solutions[|solutions| - 1].isRecommended then Some(|solutions| - 1)
    else LastRecommended(solutions[..|solutions| - 1])
  }

  /** The finding `CopyTemplateToAssessment` writes: no sites, open, in the report. */
  function CopyOf(t: Template, firstSolutionId: nat): Finding {
    var position := LastRecommended(t.solutions);
    Finding(t.title, t.problem, t.entrepreneurNotes, t.technicalNotes, t.categoryId, t.priorityLevelId,
            false, t.priorityRationale, t.scopeType, 0, t.scopeDescription, Open, "", true,
            seq(|t.solutions|, i requires 0 <= i < |t.solutions| => t.solutions[i].text.(id := firstSolutionId + i)),
            if position.None? then None else Some(firstSolutionId + position.value),
            None)
  }

  /** `CopyTemplateToAssessment` refuses a template it cannot copy. */
  predicate Copyable(t: Template) {
    && t.enabled
    && t.solutions != []
    && |RecommendedPositions(t.solutions)| == 1
    && Violations(CopyOf(t, 0)) == []
  }

  lemma {:induction false} LastRecommendedIsRight(solutions: seq<TemplateSolution>)
    ensures match LastRecommended(solutions)
            case None => RecommendedPositions(solutions) == {}
            case Some(p) => p in RecommendedPositions(solutions)
  {
    if solutions != [] && !solutions[|solutions| - 1].isRecommended {
      LastRecommendedIsRight(solutions[..|solutions| - 1]);
      assert RecommendedPositions(solutions) == RecommendedPositions(solutions[..|solutions| - 1]);
    }
  }

  /** The copy recommends the copy of the one solution its template recommends. */
  lemma CopyRecommendsTheSame(t: Template, firstSolutionId: nat, p: nat)
    requires Copyable(t) && p < |t.solutions| && t.solutions[p].isRecommended
    ensures CopyOf(t, firstSolutionId).recommended == Some(CopyOf(t, firstSolutionId).solutions[p].id)
  {
    LastRecommendedIsRight(t.solutions);
    var last := LastRecommended(t.solutions).value;
    assert p in RecommendedPositions(t.solutions);
    var others := RecommendedPositions(t.solutions) - {last};
    assert |others| == 0;
    assert others == {};
  }
}
