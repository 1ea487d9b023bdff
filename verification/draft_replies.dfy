/**
  What follows a reply, and what follows its loss.  Nothing here asks that sends
  be faithful, unless a lemma says so: the conditions are exact in every run.
 */
module DraftReplies {
  import opened Wrappers
  import opened DraftClient
  import opened DraftProtocol
  import opened DraftGuarantees
  import opened DraftLosses
  import DraftInvariant

  // ---------- what every run keeps ----------

  /** Every id in use has been created. */
  ghost predicate IdsIssued(c: Client) {
    && (forall id :: id in c.attempts ==> id < c.issued)
    && (c.draft.Some? ==> c.draft.value.requestId < c.issued)
    && (c.phase.GivingUp? ==> c.phase.abandoned.requestId < c.issued)
  }

  /** Until the user edits again, the form is what was sent. */
  ghost predicate SentIsForm(c: Client) {
    c.phase.Waiting? && !EditedSince(c, c.phase.request.id) ==> c.form == c.phase.request.payload
  }

  /** The ledger holds what some request with the id has sent. */
  ghost predicate LedgerIsSent(s: System) {
    forall id :: id in s.server.ledger ==>
      exists q :: q in s.sent && q.id == id && q.payload == s.server.ledger[id].payload
  }

  ghost predicate NoneSentAbove(s: System, id: nat) {
    forall q :: q in s.sent ==> q.id <= id
  }

  /** Ids are sent in the order in which they were made. */
  ghost predicate IdsAscend(s: System) {
    var c := s.client;
    && (forall q :: q in s.sent ==> q.id < c.issued)
    && (c.draft.Some? ==> NoneSentAbove(s, c.draft.value.requestId))
    && (c.phase.Checking? ==> NoneSentAbove(s, c.phase.id) && c.phase.id < c.issued &&
                              (c.draft.Some? ==> c.phase.id <= c.draft.value.requestId))
    && (c.phase.GivingUp? ==> NoneSentAbove(s, c.phase.abandoned.requestId))
    && (c.phase.Waiting? ==> c.phase.request in s.sent && NoneSentAbove(s, c.phase.request.id))
  }

  ghost predicate Sound(s: System) {
    Coherent(s.client) && IdsIssued(s.client) && IdsAscend(s) && SentIsForm(s.client) && LedgerIsSent(s)
  }

  lemma ConfirmKeepsIdsIssued(c: Client, applied: nat, displayed: bool)
    requires IdsIssued(c) && c.phase.Waiting?
    ensures IdsIssued(Confirm(c, applied, displayed))
  {
  }

  lemma StepKeepsIdsIssued(s: System, step: Step)
    requires QueueOk(s.client) && IdsIssued(s.client) && Enabled(s, step)
    ensures IdsIssued(Apply(s, step).client)
  {
    match step
    case QueueRuns(_) => assert MatchesPhase(s.client.queue[0], s.client.phase);
    case ReplyConfirms(applied, displayed) => ConfirmKeepsIdsIssued(s.client, applied, displayed);
    case _ =>
  }

  lemma SaveWriteKeepsIdsAscend(s: System, online: bool)
    requires IdsAscend(s) && Enabled(s, QueueRuns(online)) && s.client.queue[0].SaveWrite?
    ensures IdsAscend(Apply(s, QueueRuns(online)))
  {
  }

  lemma MutationKeepsIdsAscend(s: System, online: bool)
    requires QueueOk(s.client) && IdsIssued(s.client) && IdsAscend(s) && Enabled(s, QueueRuns(online))
    ensures IdsAscend(Apply(s, QueueRuns(online)))
  {
    if s.client.queue[0].SaveWrite? {
      SaveWriteKeepsIdsAscend(s, online);
    }
    assert MatchesPhase(s.client.queue[0], s.client.phase);
  }

  lemma ConfirmKeepsIdsAscend(s: System, applied: nat, displayed: bool)
    requires IdsAscend(s) && Enabled(s, ReplyConfirms(applied, displayed))
    ensures IdsAscend(Apply(s, ReplyConfirms(applied, displayed)))
  {
  }

  lemma StepKeepsIdsAscend(s: System, step: Step)
    requires QueueOk(s.client) && IdsIssued(s.client) && IdsAscend(s) && Enabled(s, step)
    ensures IdsAscend(Apply(s, step))
  {
    match step
    case QueueRuns(online) => MutationKeepsIdsAscend(s, online);
    case ReplyConfirms(applied, displayed) => ConfirmKeepsIdsAscend(s, applied, displayed);
    case _ =>
  }

  lemma StepKeepsSentIsForm(s: System, step: Step)
    requires Coherent(s.client) && SentIsForm(s.client) && Enabled(s, step)
    ensures SentIsForm(Apply(s, step).client)
  {
  }

  lemma StepKeepsLedger(s: System, step: Step)
    requires LedgerIsSent(s) && Enabled(s, step)
    ensures LedgerIsSent(Apply(s, step))
  {
    var t := Apply(s, step);
    assert s.sent <= t.sent;
    forall id | id in t.server.ledger
      ensures exists q :: q in t.sent && q.id == id && q.payload == t.server.ledger[id].payload
    {
      if id in s.server.ledger && t.server.ledger[id] == s.server.ledger[id] {
        var q :| q in s.sent && q.id == id && q.payload == s.server.ledger[id].payload;
        assert q in t.sent;
      } else {
        assert step.request in t.sent && step.request.id == id;
      }
    }
  }

  lemma {:induction false} StaysSound(s: System, steps: seq<Step>)
    requires Sound(s) && IsRun(s, steps)
    ensures Sound(After(s, steps))
    decreases |steps|
  {
    if steps != [] {
      StepStaysCoherent(s, steps[0]);
      StepKeepsIdsIssued(s, steps[0]);
      StepKeepsIdsAscend(s, steps[0]);
      StepKeepsSentIsForm(s, steps[0]);
      StepKeepsLedger(s, steps[0]);
      StaysSound(Apply(s, steps[0]), steps[1..]);
    }
  }

  // ---------- a confirmation ----------

  /** The form has moved on, and the draft that holds it is the one the confirmation deletes. */
  predicate DeletesNewerForm(c: Client)
    requires c.phase.Waiting? && c.draft.Some?
  {
    var r := c.phase.request;
    c.form != r.payload && c.draft.value.requestId == r.id && c.draft.value.payload == c.form
  }

  lemma ConfirmationKeepsExactly(s: System, applied: nat, displayed: bool)
    requires Coherent(s.client) && SentIsForm(s.client) && Enabled(s, ReplyConfirms(applied, displayed))
    ensures NewerFormIsKept(s, applied, displayed) <==> !DeletesNewerForm(s.client)
  {
    var t := Apply(s, ReplyConfirms(applied, displayed));
    if t.client.draft.Some? {
      var d := t.client.draft.value;
      assert d == Draft(d.requestId, d.attempted, d.payload, d.baseVersion);
    }
  }

  /** The exact condition at each confirmation of any run. */
  lemma ConfirmationKeepsNewerFormExactly(form: Payload, version: nat, steps: seq<Step>, applied: nat, displayed: bool)
    requires IsRun(Init(form, version), steps)
    requires Enabled(After(Init(form, version), steps), ReplyConfirms(applied, displayed))
    ensures var s := After(Init(form, version), steps);
            && s.client.draft.Some?
            && (NewerFormIsKept(s, applied, displayed) <==> !DeletesNewerForm(s.client))
  {
    StaysSound(Init(form, version), steps);
    ConfirmationKeepsExactly(After(Init(form, version), steps), applied, displayed);
  }

  lemma DroppedByDeletion(s: System, p: Payload, applied: nat)
    requires s.client.phase.Waiting? && Enabled(s, ReplyConfirms(applied, true))
    requires s.client.form == p && s.client.phase.request.payload != p
    requires s.client.newer == Some(p) && s.client.draft.Some?
    requires s.client.draft.value.payload == p && s.client.draft.value.requestId == s.client.phase.request.id
    ensures DeletesNewerForm(s.client) && !NewerFormIsKept(s, applied, true)
  {
  }

  /** It is not kept in the run that goes on from an unfaithful send. */
  lemma NewerFormDroppedAfterUnfaithfulSend()
    ensures var steps := [UserEdits("b"), TimerFires] + [QueueRuns(true), ServerReceives(Request(0, 0, "a"))];
            && IsRun(AfterUnfaithfulSend(), steps)
            && var s := After(AfterUnfaithfulSend(), steps);
               && Enabled(s, ReplyConfirms(1, true)) && s.client.draft.Some? && DeletesNewerForm(s.client)
               && !NewerFormIsKept(s, 1, true)
  {
    var s0 := AfterUnfaithfulSend();
    var s1 := Apply(s0, UserEdits("b"));
    var s2 := Apply(s1, TimerFires);
    assert s2.client.queue == [Write("b")];
    RunOfTwo(s0, UserEdits("b"), s1, TimerFires, s2);
    var s3 := Apply(s2, QueueRuns(true));
    assert s3.client.queue == [] && s3.client.draft == s0.client.draft && "a" != "b";
    var s4 := Apply(s3, ServerReceives(Request(0, 0, "a")));
    RunOfTwo(s2, QueueRuns(true), s3, ServerReceives(Request(0, 0, "a")), s4);
    RunConcat(s0, [UserEdits("b"), TimerFires], [QueueRuns(true), ServerReceives(Request(0, 0, "a"))]);
    DroppedByDeletion(s4, "b", 1);
  }

  // ---------- a retry ----------

  /** The writes already queued, the write and the mark of a save, and its comparison. */
  function Drain(n: nat): seq<Step> {
    if n == 0 then [QueueRuns(true), QueueRuns(true), SaveCompares] else [QueueRuns(true)] + Drain(n - 1)
  }

  /** The reply is lost, and the user saves again. */
  function Retry(c: Client): seq<Step> {
    [ReplyLost] + ([UserSaves] + Drain(|c.queue|))
  }

  /** The stored draft has kept the id, and neither it nor a write on its way holds anything but p. */
  predicate KeepsId(d: Draft, writes: seq<Mutation>, id: nat, p: Payload) {
    d.requestId == id && d.payload == p && forall i :: 0 <= i < |writes| ==> writes[i] == Write(p)
  }

  /** What goes out is the payload, under that id just when it is kept, and else under the draft's or a new one. */
  ghost predicate GoesOut(s: System, t: System, p: Payload, keeps: bool, id: nat)
    requires s.client.draft.Some?
  {
    && t.client.phase.Waiting?
    && var q := t.client.phase.request;
       && q in t.sent && q.payload == p && q.expected == s.client.expected && t.server == s.server
       && (q.id == id <==> keeps)
       && (q.id == s.client.draft.value.requestId || q.id >= s.client.issued)
       && (s.client.draft.value.requestId != id ==> q.id == s.client.draft.value.requestId)
  }

  /** A save waits in the queue behind writes. */
  ghost predicate SavesBehind(c: Client, p: Payload, writes: seq<Mutation>) {
    && c.form == p && c.phase == Writing(p, 0) && c.queue == writes + [SaveWrite(p)]
    && forall i :: 0 <= i < |writes| ==> writes[i].Write?
  }

  /** A draft attempted under an id that has been created. */
  predicate Attempted(c: Client, id: nat) {
    c.draft.Some? && c.draft.value.attempted == Some(id) && c.draft.value.requestId < c.issued && id < c.issued
  }

  lemma PersistKeepsId(c: Client, x: Payload, rest: seq<Mutation>, id: nat, p: Payload)
    requires Attempted(c, id)
    ensures var e := Persist(c, x);
            && Attempted(e, id) && e.issued >= c.issued && e.draft.value.payload == x
            && (e.draft.value.requestId == c.draft.value.requestId || e.draft.value.requestId >= c.issued)
            && (c.draft.value.requestId != id ==> e.draft.value.requestId == c.draft.value.requestId)
            && (KeepsId(e.draft.value, rest, id, p) <==> KeepsId(c.draft.value, [Write(x)] + rest, id, p))
  {
    var all := [Write(x)] + rest;
    assert all[0] == Write(x) && forall i :: 0 <= i < |rest| ==> all[i + 1] == rest[i];
    assert (forall i :: 0 <= i < |all| ==> all[i] == Write(p)) <==>
             x == p && forall i :: 0 <= i < |rest| ==> rest[i] == Write(p) by {
      if x == p && forall i :: 0 <= i < |rest| ==> rest[i] == Write(p) {
        forall i | 0 <= i < |all| ensures all[i] == Write(p) {
          assert i > 0 ==> all[i] == rest[i - 1];
        }
      }
    }
  }

  lemma SaveWriteRuns(s: System, p: Payload)
    requires SavesBehind(s.client, p, []) && s.client.draft.Some?
    ensures Enabled(s, QueueRuns(true))
    ensures Apply(s, QueueRuns(true)) ==
              s.(client := Persist(s.client.(queue := []), p).(queue := [Mark], phase := Marking(p, 0)))
  {
    assert s.client.queue == [SaveWrite(p)] && s.client.queue[1..] == [];
  }

  lemma SaveGoesOutAtOnce(s: System, p: Payload, id: nat)
    requires SavesBehind(s.client, p, []) && Attempted(s.client, id)
    ensures IsRun(s, Drain(0)) && IsCleanRun(s, Drain(0))
    ensures GoesOut(s, After(s, Drain(0)), p, KeepsId(s.client.draft.value, [], id, p), id)
  {
    SaveWriteRuns(s, p);
    PersistKeepsId(s.client.(queue := []), p, [], id, p);
    MarkAndSend(Apply(s, QueueRuns(true)), p);
    RunExtends(s, QueueRuns(true), [QueueRuns(true), SaveCompares]);
  }

  lemma MarkAndSend(s: System, p: Payload)
    requires s.client.form == p && s.client.phase == Marking(p, 0) && s.client.queue == [Mark]
    requires s.client.draft.Some? && s.client.draft.value.payload == p
    ensures var steps := [QueueRuns(true), SaveCompares];
            && IsRun(s, steps) && IsCleanRun(s, steps)
            && var t := After(s, steps);
               && t.client.phase == Waiting(Request(s.client.draft.value.requestId, s.client.expected, p))
               && t.client.phase.request in t.sent && t.server == s.server
  {
    var s1 := Apply(s, QueueRuns(true));
    assert s1.client.queue == [] && SendIsFaithful(s1.client);
    var s2 := Apply(s1, SaveCompares);
    RunOfTwo(s, QueueRuns(true), s1, SaveCompares, s2);
  }

  lemma {:induction false} SaveGoesOut(s: System, p: Payload, writes: seq<Mutation>, id: nat)
    requires SavesBehind(s.client, p, writes) && Attempted(s.client, id)
    ensures IsRun(s, Drain(|writes|)) && IsCleanRun(s, Drain(|writes|))
    ensures GoesOut(s, After(s, Drain(|writes|)), p, KeepsId(s.client.draft.value, writes, id, p), id)
    decreases |writes|
  {
    if writes == [] {
      SaveGoesOutAtOnce(s, p, id);
    } else {
      var x, rest := writes[0].payload, writes[1..];
      assert writes == [Write(x)] + rest;
      assert s.client.queue[0] == Write(x) && s.client.queue[1..] == rest + [SaveWrite(p)];
      PersistKeepsId(s.client.(queue := rest + [SaveWrite(p)]), x, rest, id, p);
      var t := Apply(s, QueueRuns(true));
      SaveGoesOut(t, p, rest, id);
      RunExtends(s, QueueRuns(true), Drain(|rest|));
    }
  }

  /**
    A save begun at any time: it sends the form, under the id of the draft's last
    attempt just when the draft still has it and neither the draft nor a queued
    write holds anything else.
   */
  lemma SaveSends(s: System, id: nat)
    requires QueueOk(s.client) && s.client.phase.Idle? && Attempted(s.client, id)
    ensures var steps := [UserSaves] + Drain(|s.client.queue|);
            && IsRun(s, steps) && IsCleanRun(s, steps)
            && GoesOut(s, After(s, steps), s.client.form,
                       KeepsId(s.client.draft.value, s.client.queue, id, s.client.form), id)
  {
    var c := s.client;
    forall i | 0 <= i < |c.queue| ensures c.queue[i].Write? {
      assert MatchesPhase(c.queue[i], c.phase);
    }
    SaveGoesOut(Apply(s, UserSaves), c.form, c.queue, id);
    RunExtends(s, UserSaves, Drain(|c.queue|));
  }

  /** The retry keeps the id. */
  predicate RetryKeepsId(c: Client)
    requires c.phase.Waiting? && c.draft.Some?
  {
    KeepsId(c.draft.value, c.queue, c.phase.request.id, c.form)
  }

  /**
    After a lost reply the next save sends the form, whatever was edited, written
    or queued meanwhile: under the id of the lost one just when the stored draft
    still has it and neither the draft nor a queued write holds anything else.
   */
  lemma RetryAfterLostReply(s: System)
    requires Coherent(s.client) && IdsIssued(s.client) && s.client.phase.Waiting?
    ensures s.client.draft.Some?
    ensures IsRun(s, Retry(s.client)) && IsCleanRun(s, Retry(s.client))
    ensures GoesOut(s, After(s, Retry(s.client)), s.client.form, RetryKeepsId(s.client), s.client.phase.request.id)
  {
    var s1 := Apply(s, ReplyLost);
    SaveSends(s1, s.client.phase.request.id);
    RunExtends(s, ReplyLost, [UserSaves] + Drain(|s.client.queue|));
  }

  /** So it is at every lost reply of any run. */
  lemma RetryKeepsIdExactly(form: Payload, version: nat, steps: seq<Step>)
    requires IsRun(Init(form, version), steps) && After(Init(form, version), steps).client.phase.Waiting?
    ensures var s := After(Init(form, version), steps);
            && s.client.draft.Some? && IsRun(s, Retry(s.client))
            && GoesOut(s, After(s, Retry(s.client)), s.client.form, RetryKeepsId(s.client), s.client.phase.request.id)
  {
    StaysSound(Init(form, version), steps);
    RetryAfterLostReply(After(Init(form, version), steps));
  }

  // ---------- the answer to it ----------

  /** What the server says to an id it has not seen. */
  predicate JudgedByVersion(v: Server, q: Request) {
    && q.id !in v.ledger
    && (v.open && v.version == q.expected ==>
          Receive(v, q).1 == Some(q.expected + 1) && Receive(v, q).0.version == v.version + 1)
    && (!(v.open && v.version == q.expected) ==> Receive(v, q) == (v, None))
  }

  lemma NewIdIsNotInLedger(s: System, q: nat)
    requires IdsAscend(s) && LedgerIsSent(s)
    requires s.client.phase.Waiting? && s.client.draft.Some? && q != s.client.phase.request.id
    requires q == s.client.draft.value.requestId || q >= s.client.issued
    ensures q !in s.server.ledger
  {
  }

  /**
    The ledger answers, without a change, just when the id is kept and it has the id; else q is
    judged as a new request.
   */
  ghost predicate Answered(v: Server, q: Request, lost: nat, keeps: bool) {
    if keeps && lost in v.ledger
    then Receive(v, q) == (v, if v.ledger[lost].payload == q.payload then Some(v.ledger[lost].applied) else None)
    else JudgedByVersion(v, q)
  }

  /** The retry of a state: it goes out, and the server answers it so. */
  ghost predicate RetryAnswered(s: System) {
    && s.client.phase.Waiting? && s.client.draft.Some? && IsRun(s, Retry(s.client))
    && var t := After(s, Retry(s.client));
       && t.client.phase.Waiting? && t.server == s.server
       && Answered(s.server, t.client.phase.request, s.client.phase.request.id, RetryKeepsId(s.client))
  }

  lemma RetryIsAnswered(s: System)
    requires Sound(s) && s.client.phase.Waiting?
    ensures RetryAnswered(s)
  {
    RetryAfterLostReply(s);
    var q := After(s, Retry(s.client)).client.phase.request;
    if q.id != s.client.phase.request.id {
      NewIdIsNotInLedger(s, q.id);
    }
  }

  /**
    At every lost reply of any run: the ledger answers the retry just when the
    retry keeps the id and the ledger has it; otherwise it is a new request,
    refused unless the version it expects is the server's.
   */
  lemma RetryIsAnsweredExactly(form: Payload, version: nat, steps: seq<Step>)
    requires IsRun(Init(form, version), steps) && After(Init(form, version), steps).client.phase.Waiting?
    ensures RetryAnswered(After(Init(form, version), steps))
  {
    StaysSound(Init(form, version), steps);
    RetryIsAnswered(After(Init(form, version), steps));
  }

  lemma LedgerHasWhatWasSent(s: System, r: Request)
    requires LedgerIsSent(s) && IdsFrozen(s) && r in s.sent && r.id in s.server.ledger
    ensures s.server.ledger[r.id].payload == r.payload
  {
  }

  /** After faithful sends a retry that keeps the id of an applied request gets the version that was recorded. */
  lemma KeptIdGetsItsVersion(form: Payload, version: nat, steps: seq<Step>)
    requires IsFaithfulRun(Init(form, version), steps)
    ensures IsRun(Init(form, version), steps)
    ensures var s := After(Init(form, version), steps);
            s.client.phase.Waiting? && s.client.phase.request.id in s.server.ledger ==>
              && RetryAnswered(s)
              && var lost, q := s.client.phase.request.id, After(s, Retry(s.client)).client.phase.request;
                 Receive(s.server, q) == (s.server, Some(s.server.ledger[lost].applied)) <==> RetryKeepsId(s.client)
  {
    DraftInvariant.InitOk(form, version);
    FaithfulRunTracks(Init(form, version), steps);
    StaysSound(Init(form, version), steps);
    var s := After(Init(form, version), steps);
    if s.client.phase.Waiting? && s.client.phase.request.id in s.server.ledger {
      KeptIdGetsVersion(s);
    }
  }

  lemma KeptIdGetsVersion(s: System)
    requires Sound(s) && Tracked(s) && s.client.phase.Waiting? && s.client.phase.request.id in s.server.ledger
    ensures RetryAnswered(s)
    ensures var lost, q := s.client.phase.request.id, After(s, Retry(s.client)).client.phase.request;
            Receive(s.server, q) == (s.server, Some(s.server.ledger[lost].applied)) <==> RetryKeepsId(s.client)
  {
    var r := s.client.phase.request;
    RetryAfterLostReply(s);
    RetryIsAnswered(s);
    LedgerHasWhatWasSent(s, r);
  }

  // ---------- retries that are refused ----------

  /** Init(form, version) with its first save sent. */
  function FirstSaveSent(form: Payload, version: nat): System {
    var r := Request(0, version, form);
    System(Client(form, version, 0, None, None, [], Some(Draft(0, Some(0), form, version)),
                  map[0 := Attempt(form, 0)], Waiting(r), 1),
           Server(version, true, map[], [], form), {r}, {})
  }

  const FIRST_SAVE: seq<Step> := [UserSaves, QueueRuns(true)] + [QueueRuns(true), SaveCompares]

  lemma FirstSaveHappens(form: Payload, version: nat)
    ensures IsRun(Init(form, version), FIRST_SAVE) && IsCleanRun(Init(form, version), FIRST_SAVE)
    ensures After(Init(form, version), FIRST_SAVE) == FirstSaveSent(form, version)
  {
    var s0 := Init(form, version);
    var s1 := Apply(s0, UserSaves);
    assert s1.client.queue == [SaveWrite(form)];
    var s2 := Apply(s1, QueueRuns(true));
    assert s2.client.queue == [Mark];
    RunOfTwo(s0, UserSaves, s1, QueueRuns(true), s2);
    var s3 := Apply(s2, QueueRuns(true));
    assert s3.client.queue == [] && SendIsFaithful(s3.client);
    var s4 := Apply(s3, SaveCompares);
    RunOfTwo(s2, QueueRuns(true), s3, SaveCompares, s4);
    CleanRunConcat(s0, [UserSaves, QueueRuns(true)], [QueueRuns(true), SaveCompares]);
    assert s4.sent == {Request(0, version, form)};
  }

  lemma {:induction false} CleanRunConcat(s: System, a: seq<Step>, b: seq<Step>)
    requires IsRun(s, a) && IsCleanRun(s, a) && IsRun(After(s, a), b) && IsCleanRun(After(s, a), b)
    ensures IsRun(s, a + b) && IsCleanRun(s, a + b) && After(s, a + b) == After(After(s, a), b)
    decreases |a|
  {
    if a == [] {
      assert a + b == b;
    } else {
      CleanRunConcat(Apply(s, a[0]), a[1..], b);
      assert (a + b)[1..] == a[1..] + b;
    }
  }

  function EditAndWrite(p: Payload): seq<Step> {
    [UserEdits(p), TimerFires, QueueRuns(true)]
  }

  lemma EditIsWritten(s: System, p: Payload)
    requires s.client.queue == []
    ensures IsRun(s, EditAndWrite(p)) && IsCleanRun(s, EditAndWrite(p))
    ensures After(s, EditAndWrite(p)) == s.(client := Persist(Edit(s.client, p).(timer := None), p))
  {
    var s1 := Apply(s, UserEdits(p));
    var s2 := Apply(s1, TimerFires);
    assert s2.client.queue == [Write(p)];
    var s3 := Apply(s2, QueueRuns(true));
    assert s3.client.queue == [];
    RunOfThree(s, UserEdits(p), s1, TimerFires, s2, QueueRuns(true), s3);
  }

  /** While the save waits, the user types something else and then types it back; then the request arrives. */
  function TypedBack(form: Payload, version: nat, other: Payload): seq<Step> {
    FIRST_SAVE + ((EditAndWrite(other) + EditAndWrite(form)) + [ServerReceives(Request(0, version, form))])
  }

  lemma TypedBackHappens(form: Payload, version: nat, other: Payload)
    requires form != other
    ensures IsRun(Init(form, version), TypedBack(form, version, other))
    ensures IsCleanRun(Init(form, version), TypedBack(form, version, other))
    ensures var s := After(Init(form, version), TypedBack(form, version, other));
            && s.client.form == form && s.client.queue == [] && s.client.timer.None? && s.client.expected == version
            && s.client.phase == Waiting(Request(0, version, form))
            && s.client.draft == Some(Draft(1, Some(0), form, version)) && s.client.issued == 2
            && s.server.version == version + 1 && s.server.copy == form && s.server.ledger.Keys == {0}
  {
    FirstSaveHappens(form, version);
    var s1 := FirstSaveSent(form, version);
    EditIsWritten(s1, other);
    var s2 := After(s1, EditAndWrite(other));
    assert s2.client.draft == Some(Draft(1, Some(0), other, version)) && s2.client.issued == 2;
    EditIsWritten(s2, form);
    var s3 := After(s2, EditAndWrite(form));
    CleanRunConcat(s1, EditAndWrite(other), EditAndWrite(form));
    var arrives := ServerReceives(Request(0, version, form));
    RunOfOne(s3, arrives);
    CleanRunConcat(s1, EditAndWrite(other) + EditAndWrite(form), [arrives]);
    CleanRunConcat(Init(form, version), FIRST_SAVE, (EditAndWrite(other) + EditAndWrite(form)) + [arrives]);
  }

  /** What the user has saved is the form, and the server has it; yet saving it again is refused. */
  ghost predicate RefusedAlthoughStored(s: System) {
    && s.client.phase.Waiting?
    && s.client.form == s.client.phase.request.payload && s.server.copy == s.client.form
    && s.client.queue == [] && s.client.timer.None?
    && IsRun(s, Retry(s.client))
    && var t := After(s, Retry(s.client));
       && t.client.phase.Waiting? && t.client.phase.request.payload == s.client.form
       && Receive(t.server, t.client.phase.request) == (s.server, None)
  }

  lemma RotatedIdIsRefused(s: System)
    requires Coherent(s.client) && IdsIssued(s.client) && s.client.phase.Waiting?
    requires s.client.form == s.client.phase.request.payload && s.server.copy == s.client.form
    requires s.client.queue == [] && s.client.timer.None?
    requires s.client.draft.value.requestId != s.client.phase.request.id
    requires s.client.draft.value.requestId !in s.server.ledger && s.server.version != s.client.expected
    ensures RefusedAlthoughStored(s)
  {
    RetryAfterLostReply(s);
  }

  /** A clean run: what was typed meanwhile has been typed back. */
  lemma TypedBackIsRefused(form: Payload, version: nat, other: Payload)
    requires form != other
    ensures IsRun(Init(form, version), TypedBack(form, version, other))
    ensures IsCleanRun(Init(form, version), TypedBack(form, version, other))
    ensures RefusedAlthoughStored(After(Init(form, version), TypedBack(form, version, other)))
  {
    TypedBackHappens(form, version, other);
    StaysSound(Init(form, version), TypedBack(form, version, other));
    RotatedIdIsRefused(After(Init(form, version), TypedBack(form, version, other)));
  }

  /** The other text is typed and typed back before the mark, but its write runs after it. */
  function SlowWrite(form: Payload, version: nat, other: Payload): seq<Step> {
    ([UserSaves, QueueRuns(true), UserEdits(other)] + [TimerFires, UserEdits(form), QueueRuns(true)]) +
    ([SaveCompares, QueueRuns(true), TimerFires] + [QueueRuns(true), ServerReceives(Request(0, version, form))])
  }

  /** The marked attempt has the form; the older write is next. */
  function MarkedBeforeWrite(form: Payload, version: nat, other: Payload): System {
    System(Client(form, version, 2, Some(form), Some(form), [Write(other)], Some(Draft(0, Some(0), form, version)),
                  map[0 := Attempt(form, 2)], Checking(form, 0, 0), 1),
           Server(version, true, map[], [], form), {}, {})
  }

  lemma MarkedBeforeWriteHappens(form: Payload, version: nat, other: Payload)
    ensures var steps := [UserSaves, QueueRuns(true), UserEdits(other)] +
                         [TimerFires, UserEdits(form), QueueRuns(true)];
            && IsRun(Init(form, version), steps) && IsCleanRun(Init(form, version), steps)
            && After(Init(form, version), steps) == MarkedBeforeWrite(form, version, other)
  {
    var s0 := Init(form, version);
    var s1 := Apply(s0, UserSaves);
    assert s1.client.queue == [SaveWrite(form)];
    var s2 := Apply(s1, QueueRuns(true));
    assert s2.client.queue == [Mark];
    var s3 := Apply(s2, UserEdits(other));
    RunOfThree(s0, UserSaves, s1, QueueRuns(true), s2, UserEdits(other), s3);
    var s4 := Apply(s3, TimerFires);
    assert s4.client.queue == [Mark, Write(other)];
    var s5 := Apply(s4, UserEdits(form));
    var s6 := Apply(s5, QueueRuns(true));
    assert s6.client.queue == [Write(other)];
    RunOfThree(s3, TimerFires, s4, UserEdits(form), s5, QueueRuns(true), s6);
    CleanRunConcat(s0, [UserSaves, QueueRuns(true), UserEdits(other)], [TimerFires, UserEdits(form), QueueRuns(true)]);
  }

  lemma OlderWriteRotates(s: System, form: Payload, version: nat, other: Payload)
    requires s == MarkedBeforeWrite(form, version, other) && form != other
    ensures var steps := [SaveCompares, QueueRuns(true), TimerFires] +
                         [QueueRuns(true), ServerReceives(Request(0, version, form))];
            && IsRun(s, steps) && IsCleanRun(s, steps)
            && var t := After(s, steps);
               && t.client.form == form && t.client.queue == [] && t.client.timer.None? && t.client.expected == version
               && t.client.phase == Waiting(Request(0, version, form)) && !EditedSince(t.client, 0)
               && t.client.draft == Some(Draft(1, Some(0), form, version))
               && t.server.version == version + 1 && t.server.copy == form && t.server.ledger.Keys == {0}
  {
    var s1 := Apply(s, SaveCompares);
    var s2 := Apply(s1, QueueRuns(true));
    assert s2.client.queue == [] && s2.client.draft == Some(Draft(1, Some(0), other, version));
    var s3 := Apply(s2, TimerFires);
    assert s3.client.queue == [Write(form)];
    RunOfThree(s, SaveCompares, s1, QueueRuns(true), s2, TimerFires, s3);
    var s4 := Apply(s3, QueueRuns(true));
    assert s4.client.queue == [];
    var arrives := ServerReceives(Request(0, version, form));
    var s5 := Apply(s4, arrives);
    RunOfTwo(s3, QueueRuns(true), s4, arrives, s5);
    CleanRunConcat(s, [SaveCompares, QueueRuns(true), TimerFires], [QueueRuns(true), arrives]);
  }

  /** A clean run after which nothing has been edited since the mark either. */
  lemma SlowWriteIsRefused(form: Payload, version: nat, other: Payload)
    requires form != other
    ensures IsRun(Init(form, version), SlowWrite(form, version, other))
    ensures IsCleanRun(Init(form, version), SlowWrite(form, version, other))
    ensures var s := After(Init(form, version), SlowWrite(form, version, other));
            RefusedAlthoughStored(s) && !EditedSince(s.client, s.client.phase.request.id)
  {
    var steps := SlowWrite(form, version, other);
    var s := MarkedBeforeWrite(form, version, other);
    MarkedBeforeWriteHappens(form, version, other);
    OlderWriteRotates(s, form, version, other);
    CleanRunConcat(Init(form, version),
                   [UserSaves, QueueRuns(true), UserEdits(other)] + [TimerFires, UserEdits(form), QueueRuns(true)],
                   [SaveCompares, QueueRuns(true), TimerFires] +
                   [QueueRuns(true), ServerReceives(Request(0, version, form))]);
    StaysSound(Init(form, version), steps);
    RotatedIdIsRefused(After(Init(form, version), steps));
  }
}
