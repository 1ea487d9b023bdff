/** What the draft protocol guarantees over whole runs, and where ids stop being frozen. */
module DraftGuarantees {
  import opened Wrappers
  import opened DraftClient
  import opened DraftProtocol
  import DraftInvariant

  lemma {:induction false} FaithfulRunTracks(s: System, steps: seq<Step>)
    requires Tracked(s) && IsFaithfulRun(s, steps)
    ensures IsRun(s, steps) && Tracked(After(s, steps))
    decreases |steps|
  {
    if steps != [] {
      DraftInvariant.FaithfulStepTracks(s, steps[0]);
      FaithfulRunTracks(Apply(s, steps[0]), steps[1..]);
    }
  }

  lemma {:induction false} CleanRunKeeps(s: System, steps: seq<Step>)
    requires Inv(s) && IsCleanRun(s, steps)
    ensures IsRun(s, steps) && Inv(After(s, steps))
    decreases |steps|
  {
    if steps != [] {
      DraftInvariant.CleanStepKeeps(s, steps[0]);
      CleanRunKeeps(Apply(s, steps[0]), steps[1..]);
    }
  }

  /** No clean run of edits, timers, saves, lost replies and confirmations loses the last edit. */
  lemma NoEditIsLost(form: Payload, version: nat, steps: seq<Step>)
    requires IsCleanRun(Init(form, version), steps)
    ensures IsRun(Init(form, version), steps)
    ensures NoLostEdit(After(Init(form, version), steps))
  {
    DraftInvariant.InitOk(form, version);
    CleanRunKeeps(Init(form, version), steps);
    DraftInvariant.SettledMeansNoLostEdit(After(Init(form, version), steps));
  }

  /** While sends are faithful one request id never carries two payloads, in the network or in the browser. */
  lemma SentIdsStayFrozen(form: Payload, version: nat, steps: seq<Step>)
    requires IsFaithfulRun(Init(form, version), steps)
    ensures IsRun(Init(form, version), steps)
    ensures IdsFrozen(After(Init(form, version), steps))
  {
    DraftInvariant.InitOk(form, version);
    FaithfulRunTracks(Init(form, version), steps);
  }

  /** Ids are frozen in every state of a run. */
  ghost predicate FrozenThroughout(s: System, steps: seq<Step>)
    requires IsRun(s, steps)
    decreases |steps|
  {
    IdsFrozen(s) && (steps == [] || FrozenThroughout(Apply(s, steps[0]), steps[1..]))
  }

  /** The exact condition of a send: it keeps ids frozen just when the marked payload is the one in the form. */
  lemma SendKeepsIdsFrozenExactlyWhenFaithful(s: System)
    requires Tracked(s) && s.client.phase.Checking? && ReadyToSend(s.client)
    ensures IdsFrozen(Apply(s, SaveCompares)) <==> SendIsFaithful(s.client)
  {
    if SendIsFaithful(s.client) {
      DraftInvariant.CompareTracks(s);
    } else {
      var t := Apply(s, SaveCompares);
      assert t.client.phase.request in t.sent;
    }
  }

  lemma {:induction false} FrozenExactly(s: System, steps: seq<Step>)
    requires Tracked(s) && IsRun(s, steps)
    ensures FrozenThroughout(s, steps) <==> IsFaithfulRun(s, steps)
    decreases |steps|
  {
    if steps != [] {
      if Faithful(s, steps[0]) {
        DraftInvariant.FaithfulStepTracks(s, steps[0]);
        FrozenExactly(Apply(s, steps[0]), steps[1..]);
      } else {
        SendKeepsIdsFrozenExactlyWhenFaithful(s);
      }
    }
  }

  /** The exact condition, for every run: ids stay frozen throughout just when every send is faithful. */
  lemma IdsFrozenExactlyInFaithfulRuns(form: Payload, version: nat, steps: seq<Step>)
    requires IsRun(Init(form, version), steps)
    ensures FrozenThroughout(Init(form, version), steps) <==> IsFaithfulRun(Init(form, version), steps)
  {
    DraftInvariant.InitOk(form, version);
    FrozenExactly(Init(form, version), steps);
  }

  /** The server's copy is what was sent, by the last request it accepted, and the applied version one of its id's. */
  ghost predicate ServerHasIt(s: System, applied: nat)
    requires s.client.phase.Waiting?
  {
    && s.server.copy == s.client.phase.request.payload
    && s.server.accepted != []
    && s.server.accepted[|s.server.accepted| - 1].id == s.client.phase.request.id
    && AcceptedAt(s.server, s.client.phase.request.id, applied)
  }

  /**
    A confirmation is only ever handled when the server's copy is exactly what
    was sent, by the last request it accepted, and the applied version is one
    that a request under this id made.
   */
  lemma ConfirmedMeansServerHasIt(form: Payload, version: nat, steps: seq<Step>, applied: nat, displayed: bool)
    requires IsFaithfulRun(Init(form, version), steps)
    ensures IsRun(Init(form, version), steps)
    ensures var s := After(Init(form, version), steps);
            Enabled(s, ReplyConfirms(applied, displayed)) ==> ServerHasIt(s, applied)
  {
    DraftInvariant.InitOk(form, version);
    FaithfulRunTracks(Init(form, version), steps);
    var s := After(Init(form, version), steps);
    if Enabled(s, ReplyConfirms(applied, displayed)) {
      DraftInvariant.AnsweredIsLatest(s, applied);
    }
  }

  /** Handling the confirmation leaves the form as sent, or a rebased, unattempted draft of it. */
  ghost predicate NewerFormIsKept(s: System, applied: nat, displayed: bool)
    requires Enabled(s, ReplyConfirms(applied, displayed))
  {
    var t := Apply(s, ReplyConfirms(applied, displayed));
    || t.client.form == s.client.phase.request.payload
    || (exists id :: t.client.draft == Some(Draft(id, None, t.client.form, applied)))
  }

  lemma ConfirmationKeepsIt(s: System, applied: nat, displayed: bool)
    requires PhaseOk(s) && IdsFrozen(s) && Enabled(s, ReplyConfirms(applied, displayed))
    ensures NewerFormIsKept(s, applied, displayed)
  {
    var t := Apply(s, ReplyConfirms(applied, displayed));
    if EditedSince(s.client, s.client.phase.request.id) && t.client.draft.Some? {
      var d := t.client.draft.value;
      assert t.client.form == s.client.phase.request.payload || d == Draft(d.requestId, None, t.client.form, applied);
    }
  }

  /**
    After a confirmation either the form is what was sent, or the stored draft
    holds the newer form, is not attempted, and is based on the applied version.
   */
  lemma ConfirmationKeepsNewerForm(form: Payload, version: nat, steps: seq<Step>, applied: nat, displayed: bool)
    requires IsFaithfulRun(Init(form, version), steps)
    ensures IsRun(Init(form, version), steps)
    ensures var s := After(Init(form, version), steps);
            Enabled(s, ReplyConfirms(applied, displayed)) ==> NewerFormIsKept(s, applied, displayed)
  {
    DraftInvariant.InitOk(form, version);
    FaithfulRunTracks(Init(form, version), steps);
    var s := After(Init(form, version), steps);
    if Enabled(s, ReplyConfirms(applied, displayed)) {
      ConfirmationKeepsIt(s, applied, displayed);
    }
  }

  /** The step is possible and leads there. */
  predicate Leads(s: System, step: Step, t: System) {
    Enabled(s, step) && Apply(s, step) == t
  }

  lemma RunOfTwo(s: System, a: Step, t: System, b: Step, u: System)
    requires Leads(s, a, t) && Leads(t, b, u)
    ensures IsRun(s, [a, b]) && After(s, [a, b]) == u
    ensures Clean(s, a) && Clean(t, b) ==> IsCleanRun(s, [a, b])
  {
    RunOfOne(t, b);
    RunExtends(s, a, [b]);
  }

  lemma RunOfThree(s: System, a: Step, t: System, b: Step, u: System, c: Step, v: System)
    requires Leads(s, a, t) && Leads(t, b, u) && Leads(u, c, v)
    ensures IsRun(s, [a, b, c]) && After(s, [a, b, c]) == v
    ensures Clean(s, a) && Clean(t, b) && Clean(u, c) ==> IsCleanRun(s, [a, b, c])
  {
    RunOfTwo(t, b, u, c, v);
    RunExtends(s, a, [b, c]);
  }

  lemma RunOfOne(s: System, step: Step)
    requires Enabled(s, step)
    ensures IsRun(s, [step]) && After(s, [step]) == Apply(s, step)
    ensures Clean(s, step) ==> IsCleanRun(s, [step])
  {
    assert [step][1..] == [];
    assert IsRun(Apply(s, step), []) && IsCleanRun(Apply(s, step), []);
    assert After(Apply(s, step), []) == Apply(s, step);
  }

  lemma RunExtends(s: System, step: Step, rest: seq<Step>)
    requires Enabled(s, step) && IsRun(Apply(s, step), rest)
    ensures var steps := [step] + rest;
            IsRun(s, steps) && After(s, steps) == After(Apply(s, step), rest)
    ensures Clean(s, step) && IsCleanRun(Apply(s, step), rest) ==> IsCleanRun(s, [step] + rest)
  {
    assert ([step] + rest)[1..] == rest;
  }

  lemma {:induction false} RunConcat(s: System, a: seq<Step>, b: seq<Step>)
    requires IsRun(s, a) && IsRun(After(s, a), b)
    ensures IsRun(s, a + b) && After(s, a + b) == After(After(s, a), b)
    decreases |a|
  {
    if a == [] {
      assert a + b == b;
    } else {
      RunConcat(Apply(s, a[0]), a[1..], b);
      assert (a + b)[1..] == a[1..] + b;
    }
  }

  // ---------- a run that is not clean ----------

  /** A slow first write lets a timer's write in between the save's own write and its mark. */
  function MarkAfterTimer(): seq<Step> {
    [UserSaves, UserEdits("b"), TimerFires] + [QueueRuns(true), QueueRuns(true), QueueRuns(true)]
  }

  function QueuedBehindSave(): System {
    System(Client("b", 0, 1, Some("b"), None, [SaveWrite("a"), Write("b")], None, map[], Writing("a", 0), 0),
           Server(0, true, map[], [], "a"), {}, {})
  }

  /** The user then types the captured text back before the comparison. */
  function UnfaithfulSend(): seq<Step> {
    MarkAfterTimer() + [UserEdits("a"), SaveCompares]
  }

  function AfterMark(): System {
    System(Client("b", 0, 1, Some("b"), None, [], Some(Draft(0, Some(0), "b", 0)),
                  map[0 := Attempt("b", 1)], Checking("a", 0, 0), 1),
           Server(0, true, map[], [], "a"), {}, {})
  }

  function AfterUnfaithfulSend(): System {
    System(Client("a", 0, 2, Some("a"), Some("a"), [], Some(Draft(0, Some(0), "b", 0)),
                  map[0 := Attempt("b", 1)], Waiting(Request(0, 0, "a")), 1),
           Server(0, true, map[], [], "a"), {Request(0, 0, "a")}, {})
  }

  lemma QueuedBehindSaveHappens()
    ensures var steps := [UserSaves, UserEdits("b"), TimerFires];
            IsRun(Init("a", 0), steps) && After(Init("a", 0), steps) == QueuedBehindSave()
  {
    var s0 := Init("a", 0);
    var s1 := Apply(s0, UserSaves);
    var s2 := Apply(s1, UserEdits("b"));
    var s3 := Apply(s2, TimerFires);
    assert s3.client.queue == [SaveWrite("a"), Write("b")];
    RunOfThree(s0, UserSaves, s1, UserEdits("b"), s2, TimerFires, s3);
  }

  lemma MarkAfterTimerHappens()
    ensures IsRun(Init("a", 0), MarkAfterTimer()) && After(Init("a", 0), MarkAfterTimer()) == AfterMark()
  {
    QueuedBehindSaveHappens();
    var s0 := QueuedBehindSave();
    var s1 := Apply(s0, QueueRuns(true));
    assert s1.client.queue == [Write("b"), Mark];
    var s2 := Apply(s1, QueueRuns(true));
    assert s2.client.queue == [Mark];
    var s3 := Apply(s2, QueueRuns(true));
    assert s3.client.queue == [];
    assert s3 == AfterMark();
    RunOfThree(s0, QueueRuns(true), s1, QueueRuns(true), s2, QueueRuns(true), s3);
    RunConcat(Init("a", 0), [UserSaves, UserEdits("b"), TimerFires],
              [QueueRuns(true), QueueRuns(true), QueueRuns(true)]);
  }

  lemma UnfaithfulSendHappens()
    ensures IsRun(Init("a", 0), UnfaithfulSend())
    ensures After(Init("a", 0), UnfaithfulSend()) == AfterUnfaithfulSend()
    ensures !IdsFrozen(AfterUnfaithfulSend())
  {
    MarkAfterTimerHappens();
    var s0 := AfterMark();
    var s1 := Apply(s0, UserEdits("a"));
    var s2 := Apply(s1, SaveCompares);
    assert s2 == AfterUnfaithfulSend();
    RunOfOne(s1, SaveCompares);
    RunExtends(s0, UserEdits("a"), [SaveCompares]);
    RunConcat(Init("a", 0), MarkAfterTimer(), [UserEdits("a"), SaveCompares]);
    assert Request(0, 0, "a") in s2.sent && s2.client.attempts[0].payload == "b";
  }

  /** After an unfaithful send the next save can send another payload under the same id. */
  lemma TwoPayloadsUnderOneId()
    ensures var steps := [UserEdits("b"), ReplyLost, UserSaves, QueueRuns(true), QueueRuns(true), SaveCompares];
            && IsRun(AfterUnfaithfulSend(), steps)
            && {Request(0, 0, "a"), Request(0, 0, "b")} <= After(AfterUnfaithfulSend(), steps).sent
  {
    var s0 := AfterUnfaithfulSend();
    var s1 := Apply(s0, UserEdits("b"));
    var s2 := Apply(s1, ReplyLost);
    var s3 := Apply(s2, UserSaves);
    assert s3.client.queue == [SaveWrite("b")];
    var s4 := Apply(s3, QueueRuns(true));
    assert s4.client.queue == [Mark];
    var s5 := Apply(s4, QueueRuns(true));
    assert s5.client.phase == Checking("b", 0, 0);
    var s6 := Apply(s5, SaveCompares);
    RunOfOne(s5, SaveCompares);
    RunExtends(s4, QueueRuns(true), [SaveCompares]);
    RunExtends(s3, QueueRuns(true), [QueueRuns(true), SaveCompares]);
    RunExtends(s2, UserSaves, [QueueRuns(true), QueueRuns(true), SaveCompares]);
    RunExtends(s1, ReplyLost, [UserSaves, QueueRuns(true), QueueRuns(true), SaveCompares]);
    RunExtends(s0, UserEdits("b"), [ReplyLost, UserSaves, QueueRuns(true), QueueRuns(true), SaveCompares]);
  }
}
