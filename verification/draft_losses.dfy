/**
  When the last edit is lost.  Nothing here asks that a run be clean: for every
  run there is an exact condition, step by step.
 */
module DraftLosses {
  import opened Wrappers
  import opened DraftClient
  import opened DraftProtocol
  import opened DraftInvariant
  import opened DraftGuarantees

  // ---------- what every run keeps ----------

  /** The timer carries the form; with no timer, so does the last write queued. */
  predicate QueueCurrent(c: Client) {
    && (c.timer.Some? ==> c.timer.value == c.form)
    && (c.timer.None? && LastWrite(c.queue).Some? ==> LastWrite(c.queue).value == c.form)
  }

  /** The draft a save works on exists, and carries the mark once it is set. */
  ghost predicate DraftInHand(c: Client) {
    match c.phase
    case Idle => true
    case Writing(_, n) => n <= PREPARATIONS
    case Marking(_, n) => n < PREPARATIONS && c.draft.Some?
    case Checking(_, n, id) =>
      n < PREPARATIONS && c.draft.Some? && c.draft.value.attempted == Some(id) && RevisionOk(c, id)
    case GivingUp(_) => c.draft.Some?
    case Waiting(r) => c.draft.Some? && c.draft.value.attempted == Some(r.id) && RevisionOk(c, r.id)
  }

  ghost predicate Coherent(c: Client) {
    QueueOk(c) && QueueCurrent(c) && DraftInHand(c)
  }

  lemma RunKeepsDraftInHand(c: Client, online: bool)
    requires QueueOk(c) && DraftInHand(c) && Runnable(c)
    ensures DraftInHand(RunMutation(c, online))
  {
    assert MatchesPhase(c.queue[0], c.phase);
  }

  lemma RunStaysCoherent(c: Client, online: bool)
    requires Coherent(c) && Runnable(c)
    ensures Coherent(RunMutation(c, online))
  {
    RunKeepsDraftInHand(c, online);
    RunQueueAdvances(c, online);
    LastWriteTail(c.queue);
    if c.queue[0].Write? || c.queue[0].SaveWrite? {
      WriteSettles(c, online);
    }
  }

  lemma ConfirmStaysCoherent(c: Client, applied: nat, displayed: bool)
    requires Coherent(c) && c.phase.Waiting?
    ensures Coherent(Confirm(c, applied, displayed))
  {
  }

  lemma CompareStaysCoherent(c: Client)
    requires Coherent(c) && c.phase.Checking?
    ensures Coherent(Compare(c))
  {
    LastWriteAppend(c.queue, SaveWrite(c.form));
  }

  lemma StepStaysCoherent(s: System, step: Step)
    requires Coherent(s.client) && Enabled(s, step)
    ensures Coherent(Apply(s, step).client)
  {
    match step
    case TimerFires => LastWriteAppend(s.client.queue, Write(s.client.timer.value));
    case UserSaves => LastWriteAppend(s.client.queue, SaveWrite(s.client.form));
    case QueueRuns(online) => RunStaysCoherent(s.client, online);
    case SaveCompares => CompareStaysCoherent(s.client);
    case ReplyConfirms(applied, displayed) => ConfirmStaysCoherent(s.client, applied, displayed);
    case _ =>
  }

  // ---------- which steps lose the edit ----------

  /** The confirmation deletes the draft that holds the form, or leaves one that does not. */
  predicate ConfirmationDropsForm(c: Client, d: Draft, id: nat) {
    && c.timer != Some(c.form)
    && if EditedSince(c, id) then d.requestId == id && d.payload == c.form
       else d.requestId == id || d.payload != c.form
  }

  /** The version a request expects is still the one of an open assessment, and its id is not in the ledger. */
  predicate Accepts(v: Server, r: Request) {
    r.id !in v.ledger && v.open && v.version == r.expected
  }

  /** No timer runs, no write is queued, and the stored draft, if there is one, holds something else than the form. */
  predicate NothingStored(c: Client) {
    c.timer.None? && LastWrite(c.queue).None? && (c.draft.Some? ==> c.draft.value.payload != c.form)
  }

  /** The steps after which the last edit is nowhere, when before it was somewhere. */
  ghost predicate Loses(s: System, step: Step) {
    var c := s.client;
    match step
    case QueueRuns(_) =>
      && c.queue != [] && c.queue[0].PutBack?
      && !PutBackKeepsEdit(c, c.queue[0].draft, c.queue[1..])
      && s.server.copy != c.form
    case ReplyConfirms(_, _) =>
      && c.phase.Waiting? && c.draft.Some?
      && ConfirmationDropsForm(c, c.draft.value, c.phase.request.id)
      && s.server.copy != c.form
    case ServerReceives(r) =>
      Accepts(s.server, r) && r.payload != c.form && NothingStored(c)
    case _ => false
  }

  lemma HeldMeans(c: Client)
    requires Coherent(c)
    ensures Held(c, c.form) <==>
              c.timer.Some? || LastWrite(c.queue).Some? || (c.draft.Some? && c.draft.value.payload == c.form)
  {
    LastWriteQueued(c.queue);
    if LastWrite(c.queue).None? {
      QueuedIsLastWrite(c.queue);
    }
  }

  lemma RunLosesExactly(s: System, online: bool)
    requires Coherent(s.client) && Runnable(s.client) && NoLostEdit(s)
    ensures NoLostEdit(Apply(s, QueueRuns(online))) <==> !Loses(s, QueueRuns(online))
  {
    var c, t := s.client, Apply(s, QueueRuns(online));
    RunStaysCoherent(c, online);
    HeldMeans(c);
    HeldMeans(t.client);
    LastWriteTail(c.queue);
    if c.queue[0].Write? || c.queue[0].SaveWrite? {
      WriteSettles(c, online);
    }
  }

  /**
    The exact condition at a confirmation, whatever was sent: the edit is lost
    just when the draft holding it is deleted or kept back without it, no timer
    holds it, and the server does not have it either.
   */
  lemma ConfirmationLosesExactly(s: System, applied: nat, displayed: bool)
    requires Coherent(s.client) && Enabled(s, ReplyConfirms(applied, displayed))
    ensures !NoLostEdit(Apply(s, ReplyConfirms(applied, displayed))) <==>
              ConfirmationDropsForm(s.client, s.client.draft.value, s.client.phase.request.id) &&
              s.server.copy != s.client.form
  {
  }

  /** A step loses the edit just when it is one of the three kinds. */
  lemma StepLosesExactly(s: System, step: Step)
    requires Coherent(s.client) && Enabled(s, step) && NoLostEdit(s)
    ensures NoLostEdit(Apply(s, step)) <==> !Loses(s, step)
  {
    StepStaysCoherent(s, step);
    HeldMeans(s.client);
    HeldMeans(Apply(s, step).client);
    match step
    case TimerFires => LastWriteAppend(s.client.queue, Write(s.client.timer.value));
    case UserSaves => LastWriteAppend(s.client.queue, SaveWrite(s.client.form));
    case QueueRuns(online) => RunLosesExactly(s, online);
    case SaveCompares => LastWriteAppend(s.client.queue, SaveWrite(s.client.form));
    case ReplyConfirms(applied, displayed) => ConfirmationLosesExactly(s, applied, displayed);
    case _ =>
  }

  // ---------- whole runs ----------

  ghost predicate NeverLost(s: System, steps: seq<Step>)
    requires IsRun(s, steps)
    decreases |steps|
  {
    NoLostEdit(s) && (steps == [] || NeverLost(Apply(s, steps[0]), steps[1..]))
  }

  ghost predicate NoStepLoses(s: System, steps: seq<Step>)
    requires IsRun(s, steps)
    decreases |steps|
  {
    steps == [] || (!Loses(s, steps[0]) && NoStepLoses(Apply(s, steps[0]), steps[1..]))
  }

  lemma {:induction false} RunLosesExactlyByItsSteps(s: System, steps: seq<Step>)
    requires Coherent(s.client) && NoLostEdit(s) && IsRun(s, steps)
    ensures NeverLost(s, steps) <==> NoStepLoses(s, steps)
    decreases |steps|
  {
    if steps != [] {
      StepLosesExactly(s, steps[0]);
      StepStaysCoherent(s, steps[0]);
      if !Loses(s, steps[0]) {
        RunLosesExactlyByItsSteps(Apply(s, steps[0]), steps[1..]);
      }
    }
  }

  /** For every run, clean or not: no edit is ever lost just when no step of it is a losing one. */
  lemma NoEditIsLostExactly(form: Payload, version: nat, steps: seq<Step>)
    requires IsRun(Init(form, version), steps)
    ensures NeverLost(Init(form, version), steps) <==> NoStepLoses(Init(form, version), steps)
  {
    RunLosesExactlyByItsSteps(Init(form, version), steps);
  }

  /** While sends are faithful no confirmation loses an edit: what it drops the server has. */
  lemma FaithfulConfirmationsLoseNothing(s: System, applied: nat, displayed: bool)
    requires Tracked(s) && Coherent(s.client) && Enabled(s, ReplyConfirms(applied, displayed))
    ensures !Loses(s, ReplyConfirms(applied, displayed))
  {
    AnsweredIsLatest(s, applied);
  }

  lemma {:induction false} StaysCoherent(s: System, steps: seq<Step>)
    requires Coherent(s.client) && IsRun(s, steps)
    ensures Coherent(After(s, steps).client)
    decreases |steps|
  {
    if steps != [] {
      StepStaysCoherent(s, steps[0]);
      StaysCoherent(Apply(s, steps[0]), steps[1..]);
    }
  }

  /** While the invariant of clean runs holds, the arrival of a request loses no edit. */
  lemma CleanReceiptsLoseNothing(s: System, r: Request)
    requires Inv(s) && Coherent(s.client) && Enabled(s, ServerReceives(r))
    ensures !Loses(s, ServerReceives(r))
  {
    DraftInvariant.SettledMeansNoLostEdit(s);
    DraftInvariant.CleanStepKeeps(s, ServerReceives(r));
    DraftInvariant.SettledMeansNoLostEdit(Apply(s, ServerReceives(r)));
    StepLosesExactly(s, ServerReceives(r));
  }

  /** An old request that loses the edit on its arrival comes after an unclean step. */
  lemma LateLossComesAfterAnUncleanStep(form: Payload, version: nat, steps: seq<Step>, r: Request)
    requires IsRun(Init(form, version), steps) && Enabled(After(Init(form, version), steps), ServerReceives(r))
    requires Loses(After(Init(form, version), steps), ServerReceives(r))
    ensures !IsCleanRun(Init(form, version), steps)
  {
    StaysCoherent(Init(form, version), steps);
    if IsCleanRun(Init(form, version), steps) {
      DraftInvariant.InitOk(form, version);
      CleanRunKeeps(Init(form, version), steps);
      CleanReceiptsLoseNothing(After(Init(form, version), steps), r);
    }
  }

  // ---------- giving up ----------

  /** The part of the queue behind the draft to put back. */
  function Behind(queue: seq<Mutation>): seq<Mutation> {
    if queue == [] then []
    else if queue[0].PutBack? then queue[1..]
    else Behind(queue[1..])
  }

  predicate HasPutBack(queue: seq<Mutation>) {
    queue != [] && (queue[0].PutBack? || HasPutBack(queue[1..]))
  }

  lemma {:induction false} BehindAppend(queue: seq<Mutation>, m: Mutation)
    requires HasPutBack(queue)
    ensures HasPutBack(queue + [m]) && Behind(queue + [m]) == Behind(queue) + [m]
  {
    if queue[0].PutBack? {
      assert (queue + [m])[1..] == queue[1..] + [m];
    } else {
      BehindAppend(queue[1..], m);
      assert (queue + [m])[1..] == queue[1..] + [m];
    }
  }

  lemma {:induction false} BehindNewPutBack(queue: seq<Mutation>, m: Mutation)
    requires m.PutBack? && forall i :: 0 <= i < |queue| ==> !queue[i].PutBack?
    ensures HasPutBack(queue + [m]) && Behind(queue + [m]) == []
  {
    if queue != [] {
      assert (queue + [m])[1..] == queue[1..] + [m];
      BehindNewPutBack(queue[1..], m);
    }
  }

  /** The save has given up and its draft is still to be put back. */
  predicate PuttingBack(c: Client) {
    c.phase.GivingUp? && HasPutBack(c.queue)
  }

  predicate StillPuttingBack(s: System, steps: seq<Step>)
    requires IsRun(s, steps)
    decreases |steps|
  {
    PuttingBack(s.client) && (steps == [] || StillPuttingBack(Apply(s, steps[0]), steps[1..]))
  }

  predicate WillKeep(c: Client)
    requires PuttingBack(c)
  {
    PutBackKeepsEdit(c, c.phase.abandoned, Behind(c.queue))
  }

  lemma WillKeepStep(s: System, step: Step)
    requires Enabled(s, step) && PuttingBack(s.client) && PuttingBack(Apply(s, step).client) && QueueOk(s.client)
    ensures WillKeep(Apply(s, step).client) <==> WillKeep(s.client) || step.UserEdits?
  {
    if step.TimerFires? {
      var m := Write(s.client.timer.value);
      BehindAppend(s.client.queue, m);
      LastWriteAppend(Behind(s.client.queue), m);
    }
  }

  predicate Edited(steps: seq<Step>) {
    exists i :: 0 <= i < |steps| && steps[i].UserEdits?
  }

  lemma {:induction false} WillKeepRun(s: System, steps: seq<Step>)
    requires Coherent(s.client) && IsRun(s, steps) && StillPuttingBack(s, steps)
    ensures var u := After(s, steps);
            && Coherent(u.client) && PuttingBack(u.client)
            && (WillKeep(u.client) <==> WillKeep(s.client) || Edited(steps))
    decreases |steps|
  {
    if steps != [] {
      WillKeepStep(s, steps[0]);
      StepStaysCoherent(s, steps[0]);
      WillKeepRun(Apply(s, steps[0]), steps[1..]);
      assert Edited(steps) <==> steps[0].UserEdits? || Edited(steps[1..]) by {
        assert forall i :: 0 <= i < |steps| - 1 ==> steps[1..][i] == steps[i + 1];
      }
    }
  }

  /** The third preparation has failed: its write is next, and after it the draft will be put back. */
  predicate GivesUpNext(c: Client) {
    c.queue != [] && c.queue[0].SaveWrite? && c.phase.Writing? && c.phase.round >= PREPARATIONS
  }

  /**
    What a browser can tell when it gives up: no write but the captured payload waits behind the
    save, or a timer does.
   */
  predicate NothingNewerQueued(c: Client)
    requires GivesUpNext(c)
  {
    || c.timer.Some?
    || LastWrite(c.queue[1..]).None?
    || LastWrite(c.queue[1..]) == Some(c.phase.captured)
  }

  lemma GivingUpDecides(c: Client, online: bool)
    requires Coherent(c) && GivesUpNext(c)
    ensures var d := RunMutation(c, online);
            PuttingBack(d) && (WillKeep(d) <==> NothingNewerQueued(c))
  {
    assert MatchesPhase(c.queue[0], c.phase);
    var d := RunMutation(c, online);
    var rest := c.queue[1..];
    forall i | 0 <= i < |rest| ensures !rest[i].PutBack? {
      assert rest[i] == c.queue[i + 1];
      assert !(IsSaveOp(c.queue[0]) && IsSaveOp(c.queue[i + 1]));
    }
    BehindNewPutBack(rest, PutBack(d.phase.abandoned));
    LastWriteTail(c.queue);
  }

  predicate PutBackIsNext(c: Client) {
    c.queue != [] && c.queue[0].PutBack?
  }

  lemma PutBackDecides(s: System, online: bool)
    requires Coherent(s.client) && PuttingBack(s.client) && PutBackIsNext(s.client)
    ensures NoLostEdit(Apply(s, QueueRuns(online))) <==> WillKeep(s.client) || s.server.copy == s.client.form
  {
    var t := Apply(s, QueueRuns(online));
    RunStaysCoherent(s.client, online);
    HeldMeans(t.client);
    assert MatchesPhase(s.client.queue[0], s.client.phase);
  }

  /**
    Giving up, decided where the code decides it.  Whatever happens between that
    moment and the put-back, the last edit survives just when nothing newer than
    the captured payload was queued behind the save, or the user edits again
    meanwhile, or the server has the form.
   */
  lemma GivingUpKeepsEditExactly(s: System, online: bool, steps: seq<Step>)
    requires Coherent(s.client) && GivesUpNext(s.client)
    requires Enabled(s, QueueRuns(online)) && IsRun(Apply(s, QueueRuns(online)), steps)
    requires StillPuttingBack(Apply(s, QueueRuns(online)), steps)
    requires PutBackIsNext(After(Apply(s, QueueRuns(online)), steps).client)
    ensures var u := After(Apply(s, QueueRuns(online)), steps);
            && Enabled(u, QueueRuns(online))
            && (NoLostEdit(Apply(u, QueueRuns(online))) <==>
                  NothingNewerQueued(s.client) || Edited(steps) || u.server.copy == u.client.form)
  {
    var t := Apply(s, QueueRuns(online));
    StepStaysCoherent(s, QueueRuns(online));
    GivingUpDecides(s.client, online);
    WillKeepRun(t, steps);
    PutBackDecides(After(t, steps), online);
  }

  // ---------- runs that lose an edit ----------

  /** A save that is about to write its captured payload. */
  predicate Preparing(c: Client, p: Payload, n: nat) {
    c.form == p && c.queue == [SaveWrite(p)] && c.phase == Writing(p, n)
  }

  function FailedPreparation(q: Payload): seq<Step> {
    [QueueRuns(true), QueueRuns(true), UserEdits(q), SaveCompares]
  }

  lemma PreparationFails(s: System, p: Payload, q: Payload, n: nat)
    requires Preparing(s.client, p, n) && n < PREPARATIONS && p != q
    ensures IsRun(s, FailedPreparation(q))
    ensures var t := After(s, FailedPreparation(q));
            Preparing(t.client, q, n + 1) && t.server == s.server && t.sent == s.sent && t.client.timer == Some(q)
  {
    var s1 := Apply(s, QueueRuns(true));
    assert s1.client.queue == [Mark];
    var s2 := Apply(s1, QueueRuns(true));
    assert s2.client.queue == [];
    var s3 := Apply(s2, UserEdits(q));
    var s4 := Apply(s3, SaveCompares);
    RunOfThree(s1, QueueRuns(true), s2, UserEdits(q), s3, SaveCompares, s4);
    RunExtends(s, QueueRuns(true), [QueueRuns(true), UserEdits(q), SaveCompares]);
  }

  function GiveUpOver(q: Payload): seq<Step> {
    [UserEdits(q), TimerFires, QueueRuns(true), QueueRuns(true), QueueRuns(true)]
  }

  /** The third preparation is about to write p, and the timer's write of q has queued behind it. */
  predicate GivingUpOver(c: Client, p: Payload, q: Payload) {
    c.form == q && c.timer.None? && c.queue == [SaveWrite(p), Write(q)] && c.phase == Writing(p, PREPARATIONS)
  }

  lemma PutBackOverwrites(s: System, p: Payload, q: Payload)
    requires GivingUpOver(s.client, p, q)
    ensures var steps := [QueueRuns(true), QueueRuns(true), QueueRuns(true)];
            && IsRun(s, steps)
            && var t := After(s, steps);
               && t.client.form == q && t.client.timer.None? && t.client.queue == []
               && t.client.draft.Some? && t.client.draft.value.payload == p && t.server == s.server && t.sent == s.sent
  {
    var s1 := Apply(s, QueueRuns(true));
    var abandoned := s1.client.phase.abandoned;
    assert abandoned.payload == p && s1.client.queue == [Write(q), PutBack(abandoned)];
    var s2 := Apply(s1, QueueRuns(true));
    assert s2.client.queue == [PutBack(abandoned)];
    var s3 := Apply(s2, QueueRuns(true));
    RunOfThree(s, QueueRuns(true), s1, QueueRuns(true), s2, QueueRuns(true), s3);
  }

  lemma GivingUpOverwrites(s: System, p: Payload, q: Payload)
    requires Preparing(s.client, p, PREPARATIONS) && p != q
    ensures IsRun(s, GiveUpOver(q))
    ensures var t := After(s, GiveUpOver(q));
            && t.client.form == q && t.client.timer.None? && t.client.queue == []
            && t.client.draft.Some? && t.client.draft.value.payload == p && t.server == s.server && t.sent == s.sent
  {
    var s1 := Apply(s, UserEdits(q));
    var s2 := Apply(s1, TimerFires);
    assert s2.client.queue == [SaveWrite(p), Write(q)];
    PutBackOverwrites(s2, p, q);
    RunExtends(s1, TimerFires, [QueueRuns(true), QueueRuns(true), QueueRuns(true)]);
    RunExtends(s, UserEdits(q), [TimerFires, QueueRuns(true), QueueRuns(true), QueueRuns(true)]);
  }

  function ThreePreparations(q0: Payload, q1: Payload, q2: Payload): seq<Step> {
    FailedPreparation(q0) + FailedPreparation(q1) + FailedPreparation(q2)
  }

  lemma ThreePreparationsFail(s: System, p: Payload, q0: Payload, q1: Payload, q2: Payload)
    requires Preparing(s.client, p, 0) && p != q0 && q0 != q1 && q1 != q2
    ensures IsRun(s, ThreePreparations(q0, q1, q2))
    ensures var t := After(s, ThreePreparations(q0, q1, q2));
            Preparing(t.client, q2, PREPARATIONS) && t.server == s.server && t.sent == s.sent
  {
    PreparationFails(s, p, q0, 0);
    var s1 := After(s, FailedPreparation(q0));
    PreparationFails(s1, q0, q1, 1);
    RunConcat(s, FailedPreparation(q0), FailedPreparation(q1));
    var s2 := After(s1, FailedPreparation(q1));
    PreparationFails(s2, q1, q2, 2);
    RunConcat(s, FailedPreparation(q0) + FailedPreparation(q1), FailedPreparation(q2));
  }

  /** The user types through three preparations, and once more while the save gives up. */
  function TypingThrough(q0: Payload, q1: Payload, q2: Payload, q3: Payload): seq<Step> {
    [UserSaves] + (ThreePreparations(q0, q1, q2) + GiveUpOver(q3))
  }

  /** The edit q3 was stored, and the draft put back over it holds q2: the browser has forgotten it. */
  lemma TypingThroughOverwrites(s: System, q0: Payload, q1: Payload, q2: Payload, q3: Payload)
    requires s.client.phase.Idle? && s.client.queue == []
    requires s.client.form != q0 && q0 != q1 && q1 != q2 && q2 != q3
    ensures IsRun(s, TypingThrough(q0, q1, q2, q3))
    ensures var t := After(s, TypingThrough(q0, q1, q2, q3));
            && t.client.form == q3 && t.client.queue == [] && NothingStored(t.client)
            && t.client.draft.Some? && t.client.draft.value.payload == q2
            && t.server == s.server && t.sent == s.sent
  {
    var p := s.client.form;
    var s1 := Apply(s, UserSaves);
    assert s1.client.queue == [SaveWrite(p)];
    ThreePreparationsFail(s1, p, q0, q1, q2);
    var s2 := After(s1, ThreePreparations(q0, q1, q2));
    GivingUpOverwrites(s2, q2, q3);
    RunConcat(s1, ThreePreparations(q0, q1, q2), GiveUpOver(q3));
    RunExtends(s, UserSaves, ThreePreparations(q0, q1, q2) + GiveUpOver(q3));
  }

  lemma TypingThroughLoses(form: Payload, version: nat, q0: Payload, q1: Payload, q2: Payload, q3: Payload)
    requires form != q0 && q0 != q1 && q1 != q2 && q2 != q3 && q3 != form
    ensures IsRun(Init(form, version), TypingThrough(q0, q1, q2, q3))
    ensures var t := After(Init(form, version), TypingThrough(q0, q1, q2, q3));
            && t.client.form == q3 && t.client.timer.None? && t.client.queue == [] && t.server.copy == form
            && t.client.draft.Some? && t.client.draft.value.payload == q2
            && !NoLostEdit(t)
  {
    TypingThroughOverwrites(Init(form, version), q0, q1, q2, q3);
  }

  /** Four edits in a row suffice. */
  lemma EditLostByGivingUp()
    ensures IsRun(Init("a", 0), TypingThrough("b", "c", "d", "e"))
    ensures !NoLostEdit(After(Init("a", 0), TypingThrough("b", "c", "d", "e")))
  {
    TypingThroughLoses("a", 0, "b", "c", "d", "e");
  }

  // ---------- a late request ----------

  /** A save whose request is sent, and whose reply is lost. */
  function SaveLost(z: Payload): seq<Step> {
    [UserEdits(z), UserSaves, QueueRuns(true)] + [QueueRuns(true), SaveCompares, ReplyLost]
  }

  lemma SaveLostHappens(form: Payload, version: nat, z: Payload)
    ensures IsRun(Init(form, version), SaveLost(z))
    ensures var t := After(Init(form, version), SaveLost(z));
            && t.client.form == z && t.client.phase.Idle? && t.client.queue == []
            && t.server == Init(form, version).server && t.sent == {Request(0, version, z)}
  {
    var s0 := Init(form, version);
    var s1 := Apply(s0, UserEdits(z));
    var s2 := Apply(s1, UserSaves);
    assert s2.client.queue == [SaveWrite(z)];
    var s3 := Apply(s2, QueueRuns(true));
    assert s3.client.queue == [Mark];
    RunOfThree(s0, UserEdits(z), s1, UserSaves, s2, QueueRuns(true), s3);
    var s4 := Apply(s3, QueueRuns(true));
    assert s4.client.queue == [];
    var s5 := Apply(s4, SaveCompares);
    assert s5.client.phase == Waiting(Request(0, version, z));
    var s6 := Apply(s5, ReplyLost);
    RunOfThree(s3, QueueRuns(true), s4, SaveCompares, s5, ReplyLost, s6);
    RunConcat(s0, [UserEdits(z), UserSaves, QueueRuns(true)], [QueueRuns(true), SaveCompares, ReplyLost]);
  }

  /** The user saves z, then types through a second save back to what the server shows. */
  function BackToTheServers(form: Payload, z: Payload, q0: Payload, q1: Payload, q2: Payload): seq<Step> {
    SaveLost(z) + TypingThrough(q0, q1, q2, form)
  }

  /**
    The third losing kind happens: until the first request arrives the server
    has the form, and no step before has lost an edit at its end; then it holds z.
   */
  lemma LateRequestLoses(form: Payload, version: nat, z: Payload, q0: Payload, q1: Payload, q2: Payload)
    requires form != z && z != q0 && q0 != q1 && q1 != q2 && q2 != form
    ensures IsRun(Init(form, version), BackToTheServers(form, z, q0, q1, q2))
    ensures var t := After(Init(form, version), BackToTheServers(form, z, q0, q1, q2));
            var late := ServerReceives(Request(0, version, z));
            && NoLostEdit(t) && Enabled(t, late) && Loses(t, late)
            && !NoLostEdit(Apply(t, late)) && Apply(t, late).server.copy == z
  {
    var s0 := Init(form, version);
    SaveLostHappens(form, version, z);
    var s1 := After(s0, SaveLost(z));
    TypingThroughOverwrites(s1, q0, q1, q2, form);
    RunConcat(s0, SaveLost(z), TypingThrough(q0, q1, q2, form));
  }

  lemma EditLostByALateRequest()
    ensures var steps := BackToTheServers("a", "z", "b", "c", "d");
            && IsRun(Init("a", 0), steps) && NoLostEdit(After(Init("a", 0), steps))
            && Enabled(After(Init("a", 0), steps), ServerReceives(Request(0, 0, "z")))
            && !NoLostEdit(Apply(After(Init("a", 0), steps), ServerReceives(Request(0, 0, "z"))))
  {
    LateRequestLoses("a", 0, "z", "b", "c", "d");
  }

  // ---------- a confirmation after an unfaithful send ----------

  lemma ConfirmationDeletes(s: System)
    requires s.client == Client("b", 0, 3, Some("b"), None, [], Some(Draft(0, Some(0), "b", 0)),
                                map[0 := Attempt("b", 1)], Waiting(Request(0, 0, "a")), 1)
    requires s.server.copy == "a" && Reply(0, 1) in s.replies
    ensures Enabled(s, ReplyConfirms(1, true))
    ensures !NoLostEdit(Apply(s, ReplyConfirms(1, true)))
  {
    assert SettleDraft(s.client, 0, 1, true).draft == None;
    assert "a" != "b";
  }

  /** After an unfaithful send the confirmation can delete the draft that holds the last edit. */
  lemma EditLostAfterUnfaithfulSend()
    ensures var steps := [UserEdits("b"), TimerFires, QueueRuns(true), ServerReceives(Request(0, 0, "a")),
                          ReplyConfirms(1, true)];
            && IsRun(AfterUnfaithfulSend(), steps)
            && !NoLostEdit(After(AfterUnfaithfulSend(), steps))
  {
    var s0 := AfterUnfaithfulSend();
    var s1 := Apply(s0, UserEdits("b"));
    var s2 := Apply(s1, TimerFires);
    assert s2.client.queue == [Write("b")];
    var s3 := Apply(s2, QueueRuns(true));
    assert s3.client.queue == [] && s3.client.draft == s0.client.draft;
    var s4 := Apply(s3, ServerReceives(Request(0, 0, "a")));
    ConfirmationDeletes(s4);
    RunOfOne(s4, ReplyConfirms(1, true));
    RunExtends(s3, ServerReceives(Request(0, 0, "a")), [ReplyConfirms(1, true)]);
    RunExtends(s2, QueueRuns(true), [ServerReceives(Request(0, 0, "a")), ReplyConfirms(1, true)]);
    RunExtends(s1, TimerFires, [QueueRuns(true), ServerReceives(Request(0, 0, "a")), ReplyConfirms(1, true)]);
    RunExtends(s0, UserEdits("b"),
               [TimerFires, QueueRuns(true), ServerReceives(Request(0, 0, "a")), ReplyConfirms(1, true)]);
  }
}
