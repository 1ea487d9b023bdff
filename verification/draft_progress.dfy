/**
  How saves succeed one another: a confirmation gives the page the version it was
  answered with, and the next save is applied on top of it.
 */
module DraftProgress {
  import opened Wrappers
  import opened DraftClient
  import opened DraftProtocol
  import opened DraftGuarantees
  import opened DraftLosses
  import opened DraftReplies

  // ---------- after a confirmation ----------

  /** The page is where the answer put it: its version, and that of the draft it may have kept. */
  ghost predicate MovedTo(c: Client, applied: nat) {
    && c.expected == applied && c.phase.Idle? && c.queue == []
    && (c.draft.Some? ==> c.draft.value.attempted == None && c.draft.value.baseVersion == applied)
  }

  lemma ConfirmationMoves(s: System, applied: nat, displayed: bool)
    requires Coherent(s.client) && Enabled(s, ReplyConfirms(applied, displayed))
    ensures MovedTo(Apply(s, ReplyConfirms(applied, displayed)).client, applied)
  {
  }

  /** Nothing is left to save: the form has not been edited since it was marked, or the draft that is kept holds it. */
  predicate NothingNewer(c: Client, d: Client, id: nat, displayed: bool) {
    !EditedSince(c, id) || (displayed && d.draft.Some? && d.draft.value.payload == d.form)
  }

  /** The attempt is forgotten, and the count of edits starts again just when nothing newer is left. */
  ghost predicate Forgets(c: Client, d: Client, id: nat, displayed: bool) {
    && d.attempts == c.attempts - {id}
    && (NothingNewer(c, d, id, displayed) ==> d.revision == 0 && d.newer == None)
    && (!NothingNewer(c, d, id, displayed) ==> d.revision == c.revision)
  }

  lemma ConfirmationForgets(s: System, applied: nat, displayed: bool)
    requires Coherent(s.client) && Enabled(s, ReplyConfirms(applied, displayed))
    ensures Forgets(s.client, Apply(s, ReplyConfirms(applied, displayed)).client, s.client.phase.request.id, displayed)
  {
  }

  /** Pending attempts are of requests that have been sent, or of the one being prepared. */
  ghost predicate AttemptsAreSent(s: System) {
    forall id :: id in s.client.attempts ==>
      (exists q :: q in s.sent && q.id == id) || (s.client.phase.Checking? && s.client.phase.id == id)
  }

  lemma StepKeepsAttempts(s: System, step: Step)
    requires QueueOk(s.client) && AttemptsAreSent(s) && Enabled(s, step)
    ensures AttemptsAreSent(Apply(s, step))
  {
    var t := Apply(s, step);
    if step.QueueRuns? {
      assert MatchesPhase(s.client.queue[0], s.client.phase);
    }
    forall id | id in t.client.attempts
      ensures (exists q :: q in t.sent && q.id == id) || (t.client.phase.Checking? && t.client.phase.id == id)
    {
      if id in s.client.attempts && exists q :: q in s.sent && q.id == id {
        var q :| q in s.sent && q.id == id;
        assert q in t.sent;
      } else if step.SaveCompares? && t.client.phase.Waiting? {
        assert t.client.phase.request in t.sent;
      }
    }
  }

  lemma {:induction false} AttemptsStaySent(s: System, steps: seq<Step>)
    requires Coherent(s.client) && AttemptsAreSent(s) && IsRun(s, steps)
    ensures AttemptsAreSent(After(s, steps))
    decreases |steps|
  {
    if steps != [] {
      StepKeepsAttempts(s, steps[0]);
      StepStaysCoherent(s, steps[0]);
      AttemptsStaySent(Apply(s, steps[0]), steps[1..]);
    }
  }

  /** A draft that is kept goes by an id that has never been sent. */
  ghost predicate IdIsUnsent(s: System) {
    s.client.draft.Some? ==> forall q :: q in s.sent ==> q.id != s.client.draft.value.requestId
  }

  lemma ConfirmationLeavesUnsentId(s: System, applied: nat, displayed: bool)
    requires Coherent(s.client) && IdsAscend(s) && Enabled(s, ReplyConfirms(applied, displayed))
    ensures IdIsUnsent(Apply(s, ReplyConfirms(applied, displayed)))
  {
  }

  // ---------- a save of an up-to-date page ----------

  /** Nothing keeps a save of this page from being applied. */
  ghost predicate UpToDate(s: System) {
    && s.client.phase.Idle? && s.client.queue == []
    && s.client.expected == s.server.version && s.server.open
    && (s.client.draft.Some? ==>
          s.client.draft.value.attempted == None && s.client.draft.value.requestId < s.client.issued)
    && (forall q :: q in s.sent ==> q.id < s.client.issued)
    && IdIsUnsent(s) && LedgerIsSent(s)
  }

  function EditAndSave(p: Payload): seq<Step> {
    [UserEdits(p), UserSaves, QueueRuns(true)] + [QueueRuns(true), SaveCompares]
  }

  /** The edit as it is sent: under an id no request has had, for the version the page has. */
  ghost predicate SentAnew(s: System, t: System, p: Payload) {
    && t.client.phase.Waiting? && t.client.form == p && t.client.queue == [] && t.client.timer.None?
    && t.server == s.server && t.replies == s.replies
    && var q := t.client.phase.request;
       && q.payload == p && q.expected == s.client.expected && t.sent == s.sent + {q}
       && (forall x :: x in s.sent ==> x.id != q.id)
       && t.client.draft.Some? && t.client.draft.value.requestId == q.id && q.id < t.client.issued
       && t.client.issued >= s.client.issued && !EditedSince(t.client, q.id)
  }

  lemma EditIsSent(s: System, p: Payload)
    requires UpToDate(s)
    ensures IsRun(s, EditAndSave(p)) && SentAnew(s, After(s, EditAndSave(p)), p)
  {
    var s1 := Apply(s, UserEdits(p));
    var s2 := Apply(s1, UserSaves);
    assert s2.client.queue == [SaveWrite(p)];
    var s3 := Apply(s2, QueueRuns(true));
    SaveIsWritten(s2, p);
    RunOfThree(s, UserEdits(p), s1, UserSaves, s2, QueueRuns(true), s3);
    AttemptIsSent(s3, p);
    RunConcat(s, [UserEdits(p), UserSaves, QueueRuns(true)], [QueueRuns(true), SaveCompares]);
  }

  /** The draft of the payload, under an unsent id, about to be marked. */
  ghost predicate Written(s: System, p: Payload) {
    && s.client.form == p && s.client.phase == Marking(p, 0) && s.client.queue == [Mark] && s.client.timer.None?
    && s.client.draft.Some? && s.client.draft.value.payload == p && s.client.draft.value.requestId < s.client.issued
    && forall q :: q in s.sent ==> q.id != s.client.draft.value.requestId
  }

  lemma SaveIsWritten(s: System, p: Payload)
    requires s.client.form == p && s.client.phase == Writing(p, 0) && s.client.queue == [SaveWrite(p)]
    requires s.client.timer.None? && IdIsUnsent(s) && forall q :: q in s.sent ==> q.id < s.client.issued
    requires s.client.draft.Some? ==>
               s.client.draft.value.attempted == None && s.client.draft.value.requestId < s.client.issued
    ensures var t := Apply(s, QueueRuns(true));
            && Written(t, p) && t.client.issued >= s.client.issued && t.client.expected == s.client.expected
            && t.server == s.server && t.replies == s.replies && t.sent == s.sent
  {
    assert s.client.queue[1..] == [];
  }

  lemma AttemptIsSent(s: System, p: Payload)
    requires Written(s, p)
    ensures var steps := [QueueRuns(true), SaveCompares]; IsRun(s, steps) && SentAnew(s, After(s, steps), p)
  {
    var s1 := Apply(s, QueueRuns(true));
    assert s1.client.queue == [];
    var s2 := Apply(s1, SaveCompares);
    RunOfTwo(s, QueueRuns(true), s1, SaveCompares, s2);
  }

  /** The server after it has applied p, as the version after `version`, and has said so. */
  ghost predicate AppliedAs(t: System, q: Request, p: Payload, version: nat) {
    && t.server.copy == p && t.server.version == version + 1 && t.server.open
    && q.id in t.server.ledger && Reply(q.id, version + 1) in t.replies
  }

  lemma SentIsApplied(s: System, p: Payload)
    requires s.client.phase.Waiting? && s.client.phase.request in s.sent && s.client.phase.request.payload == p
    requires s.client.phase.request.id !in s.server.ledger
    requires s.server.open && s.client.phase.request.expected == s.server.version
    ensures var arrives := ServerReceives(s.client.phase.request);
            && Enabled(s, arrives)
            && AppliedAs(Apply(s, arrives), s.client.phase.request, p, s.server.version)
            && Apply(s, arrives).client == s.client && Apply(s, arrives).sent == s.sent
  {
  }

  lemma NotInLedger(s: System, id: nat)
    requires LedgerIsSent(s) && forall x :: x in s.sent ==> x.id != id
    ensures id !in s.server.ledger
  {
  }

  lemma EditIsApplied(s: System, p: Payload)
    requires UpToDate(s)
    ensures IsRun(s, EditAndSave(p)) && SentAnew(s, After(s, EditAndSave(p)), p)
    ensures var t := After(s, EditAndSave(p));
            var q := t.client.phase.request;
            && Enabled(t, ServerReceives(q)) && AppliedAs(Apply(t, ServerReceives(q)), q, p, s.server.version)
  {
    EditIsSent(s, p);
    var t := After(s, EditAndSave(p));
    NotInLedger(s, t.client.phase.request.id);
    SentIsApplied(t, p);
  }

  /** In any run: what the page has after a confirmation. */
  lemma ConfirmationMovesVersion(form: Payload, version: nat, steps: seq<Step>, applied: nat, displayed: bool)
    requires IsRun(Init(form, version), steps)
    requires Enabled(After(Init(form, version), steps), ReplyConfirms(applied, displayed))
    ensures var s := After(Init(form, version), steps);
            var t := Apply(s, ReplyConfirms(applied, displayed));
            MovedTo(t.client, applied) && Forgets(s.client, t.client, s.client.phase.request.id, displayed)
  {
    StaysSound(Init(form, version), steps);
    ConfirmationMoves(After(Init(form, version), steps), applied, displayed);
    ConfirmationForgets(After(Init(form, version), steps), applied, displayed);
  }

  /**
    In any run: when the answer names the server's version and the assessment is
    open, the next edit and save, whatever the payload, is applied on top of it.
   */
  lemma NextSaveIsApplied(form: Payload, version: nat, steps: seq<Step>, applied: nat, displayed: bool, p: Payload)
    requires IsRun(Init(form, version), steps)
    requires Enabled(After(Init(form, version), steps), ReplyConfirms(applied, displayed))
    requires var v := After(Init(form, version), steps).server; v.version == applied && v.open
    ensures var s := Apply(After(Init(form, version), steps), ReplyConfirms(applied, displayed));
            && IsRun(s, EditAndSave(p))
            && var t := After(s, EditAndSave(p));
               && t.client.phase.Waiting? && Enabled(t, ServerReceives(t.client.phase.request))
               && AppliedAs(Apply(t, ServerReceives(t.client.phase.request)), t.client.phase.request, p, applied)
  {
    StaysSound(Init(form, version), steps);
    var u := After(Init(form, version), steps);
    var s := Apply(u, ReplyConfirms(applied, displayed));
    ConfirmationMoves(u, applied, displayed);
    ConfirmationLeavesUnsentId(u, applied, displayed);
    StepKeepsIdsIssued(u, ReplyConfirms(applied, displayed));
    StepKeepsIdsAscend(u, ReplyConfirms(applied, displayed));
    StepKeepsLedger(u, ReplyConfirms(applied, displayed));
    EditIsApplied(s, p);
  }

  // ---------- offline ----------

  function DrainOffline(n: nat): seq<Step> {
    if n == 0 then [QueueRuns(false)] else [QueueRuns(false)] + DrainOffline(n - 1)
  }

  /** Saved here and nowhere else: the draft has the form, nothing has been sent or marked. */
  ghost predicate OnlyStored(s: System, t: System, p: Payload) {
    && t.client.phase.Idle? && t.client.queue == [] && t.client.form == p
    && t.client.draft.Some? && t.client.draft.value.payload == p
    && (s.client.draft.Some? ==> t.client.draft.value.attempted == s.client.draft.value.attempted)
    && (s.client.draft.None? ==> t.client.draft.value.attempted == None)
    && t.client.attempts == s.client.attempts && t.sent == s.sent && t.server == s.server
  }

  lemma SaveStops(s: System, p: Payload)
    requires SavesBehind(s.client, p, [])
    ensures IsRun(s, DrainOffline(0)) && OnlyStored(s, After(s, DrainOffline(0)), p)
  {
    assert s.client.queue == [SaveWrite(p)] && s.client.queue[1..] == [];
    RunOfOne(s, QueueRuns(false));
  }

  lemma {:induction false} WritesThenStops(s: System, p: Payload, writes: seq<Mutation>)
    requires SavesBehind(s.client, p, writes)
    ensures IsRun(s, DrainOffline(|writes|)) && OnlyStored(s, After(s, DrainOffline(|writes|)), p)
    decreases |writes|
  {
    if writes == [] {
      SaveStops(s, p);
    } else {
      var rest := writes[1..];
      assert s.client.queue[0] == writes[0] && s.client.queue[1..] == rest + [SaveWrite(p)];
      var t := Apply(s, QueueRuns(false));
      assert SavesBehind(t.client, p, rest) by {
        assert forall i :: 0 <= i < |rest| ==> rest[i] == writes[i + 1];
      }
      WritesThenStops(t, p, rest);
      RunExtends(s, QueueRuns(false), DrainOffline(|rest|));
    }
  }

  /** A save without a connection, behind any queue, stores the form and sends nothing. */
  lemma OfflineSaveIsStored(s: System)
    requires QueueOk(s.client) && s.client.phase.Idle?
    ensures var steps := [UserSaves] + DrainOffline(|s.client.queue|);
            IsRun(s, steps) && OnlyStored(s, After(s, steps), s.client.form)
  {
    var c := s.client;
    forall i | 0 <= i < |c.queue| ensures c.queue[i].Write? {
      assert MatchesPhase(c.queue[i], c.phase);
    }
    WritesThenStops(Apply(s, UserSaves), c.form, c.queue);
    RunExtends(s, UserSaves, DrainOffline(|c.queue|));
  }

  // ---------- any number of saves ----------

  /** Up to date, and with nothing of its own left to save. */
  ghost predicate AtRest(s: System) {
    UpToDate(s) && s.client.draft.None? && s.client.timer.None?
  }

  /** One payload edited, saved, applied and confirmed. */
  ghost predicate SavesAndConfirms(s: System, steps: seq<Step>, p: Payload) {
    && IsRun(s, steps) && AtRest(After(s, steps))
    && After(s, steps).server.copy == p && After(s, steps).server.version == s.server.version + 1
    && After(s, steps).client.form == p
  }

  lemma SaveRoundTrip(s: System, p: Payload) returns (steps: seq<Step>)
    requires AtRest(s)
    ensures SavesAndConfirms(s, steps, p)
  {
    EditIsApplied(s, p);
    var t := After(s, EditAndSave(p));
    var q := t.client.phase.request;
    var u := Apply(t, ServerReceives(q));
    var confirms := ReplyConfirms(s.server.version + 1, true);
    ConfirmationRests(t, q, s.server.version);
    RunOfTwo(t, ServerReceives(q), u, confirms, Apply(u, confirms));
    RunConcat(s, EditAndSave(p), [ServerReceives(q), confirms]);
    steps := EditAndSave(p) + [ServerReceives(q), confirms];
  }

  lemma ConfirmationRests(t: System, q: Request, version: nat)
    requires t.client.phase == Waiting(q) && t.client.queue == [] && t.client.timer.None?
    requires t.client.draft.Some? && t.client.draft.value.requestId == q.id && !EditedSince(t.client, q.id)
    requires q in t.sent && LedgerIsSent(t) && forall x :: x in t.sent ==> x.id < t.client.issued
    requires Enabled(t, ServerReceives(q)) && AppliedAs(Apply(t, ServerReceives(q)), q, q.payload, version)
    ensures var u := Apply(t, ServerReceives(q));
            && Enabled(u, ReplyConfirms(version + 1, true))
            && AtRest(Apply(u, ReplyConfirms(version + 1, true)))
            && Apply(u, ReplyConfirms(version + 1, true)).server == u.server
            && Apply(u, ReplyConfirms(version + 1, true)).client.form == t.client.form
  {
    StepKeepsLedger(t, ServerReceives(q));
  }

  /** One save after another: however many, each is applied, and the last payload is the server's. */
  lemma {:induction false} SavesInARow(s: System, payloads: seq<Payload>) returns (steps: seq<Step>)
    requires AtRest(s)
    ensures IsRun(s, steps) && AtRest(After(s, steps))
    ensures After(s, steps).server.version == s.server.version + |payloads|
    ensures After(s, steps).server.copy == if payloads == [] then s.server.copy else payloads[|payloads| - 1]
    decreases |payloads|
  {
    if payloads == [] {
      steps := [];
    } else {
      var first := SaveRoundTrip(s, payloads[0]);
      var rest := SavesInARow(After(s, first), payloads[1..]);
      RunConcat(s, first, rest);
      steps := first + rest;
    }
  }

  /** A fresh page is at rest. */
  lemma FreshPageIsAtRest(form: Payload, version: nat)
    ensures AtRest(Init(form, version))
  {
  }
}
