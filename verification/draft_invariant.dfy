/** Every faithful step keeps what is known about identifiers, and every clean step keeps the edit. */
module DraftInvariant {
  import opened Wrappers
  import opened DraftClient
  import opened DraftProtocol

  // ---------- the queue ----------

  lemma LastWriteAppend(queue: seq<Mutation>, m: Mutation)
    ensures LastWrite(queue + [m]) == match m
                                      case Write(p) => Some(p)
                                      case SaveWrite(p) => Some(p)
                                      case _ => LastWrite(queue)
  {
    assert (queue + [m])[..|queue|] == queue;
  }

  lemma {:induction false} LastWriteTail(queue: seq<Mutation>)
    requires queue != []
    ensures LastWrite(queue[1..]).Some? ==> LastWrite(queue) == LastWrite(queue[1..])
    ensures LastWrite(queue[1..]).None? ==> LastWrite(queue) == match queue[0]
                                                                case Write(p) => Some(p)
                                                                case SaveWrite(p) => Some(p)
                                                                case _ => None
  {
    if |queue| == 1 {
      assert queue[..0] == [];
    } else {
      var front := queue[..|queue| - 1];
      LastWriteTail(front);
      assert front[1..] == queue[1..][..|queue| - 2];
    }
  }

  lemma {:induction false} LastWriteQueued(queue: seq<Mutation>)
    ensures LastWrite(queue).Some? ==>
              Write(LastWrite(queue).value) in queue || SaveWrite(LastWrite(queue).value) in queue
  {
    if queue != [] && IsSaveOp(queue[|queue| - 1]) && !queue[|queue| - 1].SaveWrite? {
      LastWriteQueued(queue[..|queue| - 1]);
    }
  }

  lemma {:induction false} QueuedIsLastWrite(queue: seq<Mutation>)
    requires LastWrite(queue).None?
    ensures forall p :: Write(p) !in queue && SaveWrite(p) !in queue
  {
    if queue != [] {
      QueuedIsLastWrite(queue[..|queue| - 1]);
      assert queue == queue[..|queue| - 1] + [queue[|queue| - 1]];
    }
  }

  /** Taking the head off the queue, and possibly queueing what the save does next. */
  lemma QueueAdvances(c: Client, d: Client, next: seq<Mutation>)
    requires QueueOk(c) && c.queue != []
    requires d.queue == c.queue[1..] + next
    requires |next| <= 1 && (next != [] ==> IsSaveOp(next[0]) && MatchesPhase(next[0], d.phase))
    requires (d.phase == c.phase && next == []) || IsSaveOp(c.queue[0])
    ensures QueueOk(d)
  {
    forall i | 0 <= i < |d.queue| ensures MatchesPhase(d.queue[i], d.phase) {
      if i < |c.queue| - 1 {
        assert d.queue[i] == c.queue[i + 1];
        assert MatchesPhase(c.queue[i + 1], c.phase);
        assert !(IsSaveOp(c.queue[0]) && IsSaveOp(c.queue[i + 1]));
      }
    }
    forall i, j | 0 <= i < j < |d.queue| ensures !(IsSaveOp(d.queue[i]) && IsSaveOp(d.queue[j])) {
      assert d.queue[i] == c.queue[i + 1];
      assert !(IsSaveOp(c.queue[0]) && IsSaveOp(c.queue[i + 1]));
      if j < |c.queue| - 1 {
        assert d.queue[j] == c.queue[j + 1];
      }
    }
  }

  lemma {:induction false} RunQueueAdvances(c: Client, online: bool)
    requires QueueOk(c) && Runnable(c)
    ensures QueueOk(RunMutation(c, online))
  {
    var d := RunMutation(c, online);
    assert MatchesPhase(c.queue[0], c.phase);
    var next := if !c.queue[0].SaveWrite? then []
                else if d.phase.Marking? then [Mark]
                else if d.phase.GivingUp? then [PutBack(d.phase.abandoned)]
                else [];
    assert d.queue == c.queue[1..] + next;
    QueueAdvances(c, d, next);
  }

  // ---------- identifiers ----------

  lemma InitOk(form: Payload, version: nat)
    ensures Inv(Init(form, version))
  {
  }

  lemma EditTracks(s: System, p: Payload)
    requires Tracked(s)
    ensures Tracked(Apply(s, UserEdits(p)))
  {
  }

  lemma TimerTracks(s: System)
    requires Tracked(s) && s.client.timer.Some?
    ensures Tracked(Apply(s, TimerFires))
  {
  }

  lemma SaveTracks(s: System)
    requires Tracked(s) && s.client.phase.Idle?
    ensures Tracked(Apply(s, UserSaves))
  {
  }

  lemma CompareKeepsIds(s: System)
    requires IdsOk(s) && PhaseOk(s) && s.client.phase.Checking?
    ensures IdsOk(Apply(s, SaveCompares))
  {
  }

  lemma CompareKeepsFrozen(s: System)
    requires IdsOk(s) && IdsFrozen(s) && PhaseOk(s) && s.client.phase.Checking? && Faithful(s, SaveCompares)
    ensures IdsFrozen(Apply(s, SaveCompares))
  {
  }

  lemma CompareKeepsPhase(s: System)
    requires IdsOk(s) && PhaseOk(s) && s.client.phase.Checking? && Faithful(s, SaveCompares)
    ensures PhaseOk(Apply(s, SaveCompares))
  {
    var t := Apply(s, SaveCompares);
    if !ReadyToSend(s.client) {
      assert forall id :: SentId(t, id) <==> SentId(s, id);
    }
  }

  lemma CompareKeepsServer(s: System)
    requires ServerOk(s) && IdsOk(s) && PhaseOk(s) && s.client.phase.Checking?
    ensures ServerOk(Apply(s, SaveCompares))
  {
  }

  lemma CompareKeepsQueue(s: System)
    requires QueueOk(s.client) && s.client.phase.Checking?
    ensures QueueOk(Apply(s, SaveCompares).client)
  {
  }

  lemma CompareTracks(s: System)
    requires Tracked(s) && s.client.phase.Checking? && Faithful(s, SaveCompares)
    ensures Tracked(Apply(s, SaveCompares))
  {
    CompareKeepsQueue(s);
    CompareKeepsIds(s);
    CompareKeepsFrozen(s);
    CompareKeepsPhase(s);
    CompareKeepsServer(s);
  }

  /** What one persisted write does to the identifiers, whatever the phase. */
  lemma PersistFacts(s: System, p: Payload)
    requires IdsOk(s) && IdsFrozen(s)
    ensures var c := Persist(s.client, p);
            && c.draft.Some? && c.draft.value.payload == p
            && IdsFrozen(s.(client := c))
            && c.draft.value.requestId < c.issued
            && s.client.issued <= c.issued
            && (forall q :: q in s.sent ==> q.id <= c.draft.value.requestId)
            && (SentId(s, c.draft.value.requestId) ==>
                  s.client.draft.Some? && c.draft == s.client.draft)
            && (s.client.draft.Some? ==> s.client.draft.value.requestId <= c.draft.value.requestId)
  {
  }

  lemma ServerUntouched(s: System, t: System)
    requires ServerOk(s)
    requires t.server == s.server && t.sent == s.sent && t.replies == s.replies
    requires t.client.expected <= s.server.version
    ensures ServerOk(t)
  {
  }

  lemma PersistKeepsPhase(s: System, p: Payload)
    requires IdsOk(s) && IdsFrozen(s) && PhaseOk(s)
    requires s.client.queue != []
    ensures IdsOk(s.(client := Persist(s.client, p)))
    ensures PhaseOk(s.(client := Persist(s.client, p)))
  {
    PersistFacts(s, p);
    var t := s.(client := Persist(s.client, p));
    assert SentId(t, t.client.draft.value.requestId) ==> SentId(s, t.client.draft.value.requestId);
  }

  /** Identifiers, payloads and phases say nothing about the order of the queue. */
  lemma QueueIrrelevant(s: System, t: System)
    requires IdsOk(s) && IdsFrozen(s) && PhaseOk(s)
    requires t == s.(client := s.client.(queue := t.client.queue))
    ensures IdsOk(t) && IdsFrozen(t) && PhaseOk(t)
  {
    assert forall id :: SentId(s, id) <==> SentId(t, id);
  }

  lemma WriteTracks(s: System, online: bool)
    requires Tracked(s) && Runnable(s.client) && s.client.queue[0].Write?
    ensures Tracked(Apply(s, QueueRuns(online)))
  {
    var t := Apply(s, QueueRuns(online));
    RunQueueAdvances(s.client, online);
    ServerUntouched(s, t);
    PersistedTracks(s, s.client.queue[0].payload, t);
  }

  /** The identifiers after a write, once the head of the queue is gone. */
  lemma PersistedTracks(s: System, p: Payload, t: System)
    requires IdsOk(s) && IdsFrozen(s) && PhaseOk(s) && s.client.queue != []
    requires t == s.(client := Persist(s.client.(queue := s.client.queue[1..]), p))
    ensures IdsOk(t) && IdsFrozen(t) && PhaseOk(t)
  {
    PersistFacts(s, p);
    PersistKeepsPhase(s, p);
    var u := s.(client := Persist(s.client, p));
    assert t.client == u.client.(queue := s.client.queue[1..]);
    QueueIrrelevant(u, t);
  }

  lemma SaveWriteTracks(s: System, online: bool)
    requires Tracked(s) && Runnable(s.client) && s.client.queue[0].SaveWrite?
    ensures Tracked(Apply(s, QueueRuns(online)))
  {
    assert MatchesPhase(s.client.queue[0], s.client.phase);
    ServerUntouched(s, Apply(s, QueueRuns(online)));
    RunQueueAdvances(s.client, online);
    SaveWriteIds(s, online);
  }

  lemma SaveWriteIds(s: System, online: bool)
    requires IdsOk(s) && IdsFrozen(s) && PhaseOk(s)
    requires Runnable(s.client) && s.client.queue[0].SaveWrite? && s.client.queue[0].payload == s.client.phase.captured
    ensures var t := Apply(s, QueueRuns(online)); IdsOk(t) && IdsFrozen(t) && PhaseOk(t)
  {
    var p := s.client.phase.captured;
    var u := s.(client := Persist(s.client.(queue := s.client.queue[1..]), p));
    PersistedTracks(s, p, u);
    AfterWriteKeepsIds(u, online);
    AfterWriteKeepsFrozen(u, online);
    AfterWriteKeepsPhase(u, online);
  }

  /** The save's payload is in the stored draft. */
  predicate JustWritten(c: Client) {
    c.phase.Writing? && c.draft.Some? && c.draft.value.payload == c.phase.captured
  }

  lemma AfterWriteKeepsIds(u: System, online: bool)
    requires IdsOk(u) && PhaseOk(u) && JustWritten(u.client)
    ensures IdsOk(u.(client := AfterSaveWrite(u.client, online)))
  {
    var id := u.client.draft.value.requestId;
    if u.client.phase.round > 0 {
      assert !SentId(u, id);
      assert forall q :: q in u.sent ==> q.id != id;
    }
  }

  lemma AfterWriteKeepsFrozen(u: System, online: bool)
    requires IdsFrozen(u) && JustWritten(u.client)
    ensures IdsFrozen(u.(client := AfterSaveWrite(u.client, online)))
  {
  }

  lemma AfterWriteKeepsPhase(u: System, online: bool)
    requires PhaseOk(u) && JustWritten(u.client)
    ensures PhaseOk(u.(client := AfterSaveWrite(u.client, online)))
  {
    var t := u.(client := AfterSaveWrite(u.client, online));
    assert SentId(t, u.client.draft.value.requestId) <==> SentId(u, u.client.draft.value.requestId);
  }

  lemma MarkKeepsIds(s: System, online: bool)
    requires IdsOk(s) && PhaseOk(s) && Runnable(s.client) && s.client.queue[0].Mark?
    ensures IdsOk(Apply(s, QueueRuns(online)))
  {
  }

  lemma MarkKeepsPayloads(s: System, online: bool)
    requires IdsOk(s) && IdsFrozen(s) && PhaseOk(s) && Runnable(s.client) && s.client.queue[0].Mark?
    ensures IdsFrozen(Apply(s, QueueRuns(online))) && PhaseOk(Apply(s, QueueRuns(online)))
  {
    var t := Apply(s, QueueRuns(online));
    assert SentId(t, s.client.draft.value.requestId) <==> SentId(s, s.client.draft.value.requestId);
  }

  lemma MarkTracks(s: System, online: bool)
    requires Tracked(s) && Runnable(s.client) && s.client.queue[0].Mark?
    ensures Tracked(Apply(s, QueueRuns(online)))
  {
    RunQueueAdvances(s.client, online);
    ServerUntouched(s, Apply(s, QueueRuns(online)));
    MarkKeepsIds(s, online);
    MarkKeepsPayloads(s, online);
  }

  /** Putting any captured draft back does not touch what has been sent. */
  lemma PutBackTracks(s: System, online: bool)
    requires Tracked(s) && Runnable(s.client) && s.client.queue[0].PutBack?
    ensures Tracked(Apply(s, QueueRuns(online)))
  {
    assert MatchesPhase(s.client.queue[0], s.client.phase);
    RunQueueAdvances(s.client, online);
    ServerUntouched(s, Apply(s, QueueRuns(online)));
  }

  lemma RunTracks(s: System, online: bool)
    requires Tracked(s) && Runnable(s.client)
    ensures Tracked(Apply(s, QueueRuns(online)))
  {
    match s.client.queue[0]
    case Write(_) => WriteTracks(s, online);
    case SaveWrite(_) => SaveWriteTracks(s, online);
    case Mark => MarkTracks(s, online);
    case PutBack(_) => PutBackTracks(s, online);
  }

  lemma AnswersGrow(v: Server, w: Server, r: Request, id: nat, applied: nat)
    requires w.accepted == v.accepted + [r] && w.version >= v.version
    ensures AcceptedAt(v, id, applied) ==> AcceptedAt(w, id, applied)
    ensures r.expected + 1 <= w.version ==> AcceptedAt(w, r.id, r.expected + 1)
  {
    assert w.accepted[|v.accepted|] == r;
    if AcceptedAt(v, id, applied) {
      var i :| 0 <= i < |v.accepted| && v.accepted[i].id == id && v.accepted[i].expected + 1 == applied;
      assert w.accepted[i] == v.accepted[i];
    }
  }

  lemma AcceptKeepsHistory(sent: set<Request>, v: Server, r: Request)
    requires HistoryOk(sent, v) && r in sent && r.id !in v.ledger && v.open && v.version == r.expected
    ensures HistoryOk(sent, Receive(v, r).0)
  {
    var w := Receive(v, r).0;
    forall q, i | q in sent && 0 <= i < |w.accepted| && q.id < w.accepted[i].id
      ensures q.expected <= w.accepted[i].expected
    {
      if i < |v.accepted| {
        assert w.accepted[i] == v.accepted[i];
      }
    }
  }

  lemma ReceiveKeepsAnswers(v: Server, replies: set<Reply>, r: Request)
    requires AnswersOk(v, replies)
    ensures var (w, reply) := Receive(v, r);
            AnswersOk(w, if reply.Some? then replies + {Reply(r.id, reply.value)} else replies)
  {
    var (w, reply) := Receive(v, r);
    if w.accepted != v.accepted {
      forall id, applied ensures AcceptedAt(v, id, applied) ==> AcceptedAt(w, id, applied) {
        AnswersGrow(v, w, r, id, applied);
      }
      AnswersGrow(v, w, r, r.id, r.expected + 1);
    }
  }

  lemma ReceiveTracks(s: System, r: Request)
    requires Tracked(s) && r in s.sent
    ensures Tracked(Apply(s, ServerReceives(r)))
  {
    var t := Apply(s, ServerReceives(r));
    ReceiveKeepsAnswers(s.server, s.replies, r);
    if r.id !in s.server.ledger && s.server.open && s.server.version == r.expected {
      AcceptKeepsHistory(s.sent, s.server, r);
    }
    assert ServerOk(t);
    assert forall id :: SentId(s, id) <==> SentId(t, id);
  }

  /** The request the page is waiting for, once answered, is the last one the server accepted. */
  lemma AnsweredIsLatest(s: System, applied: nat)
    requires Tracked(s) && Enabled(s, ReplyConfirms(applied, true))
    ensures s.server.accepted != []
    ensures var last := s.server.accepted[|s.server.accepted| - 1];
            && last.id == s.client.phase.request.id
            && last.payload == s.client.phase.request.payload == s.server.copy
    ensures AcceptedAt(s.server, s.client.phase.request.id, applied)
  {
    var req := s.client.phase.request;
    var v := s.server;
    assert AcceptedAt(v, req.id, applied);
    var i :| 0 <= i < |v.accepted| && v.accepted[i].id == req.id && v.accepted[i].expected + 1 == applied;
    var last := v.accepted[|v.accepted| - 1];
    assert last in s.sent;
    assert forall q :: q in s.sent && q.id < v.accepted[i].id ==> q.expected <= v.accepted[i].expected;
    assert i < |v.accepted| - 1 ==> v.accepted[i].expected < last.expected;
  }

  lemma ConfirmKeepsIds(s: System, applied: nat, displayed: bool)
    requires IdsOk(s) && Enabled(s, ReplyConfirms(applied, displayed))
    ensures IdsOk(Apply(s, ReplyConfirms(applied, displayed)))
  {
  }

  lemma ConfirmKeepsFrozen(s: System, applied: nat, displayed: bool)
    requires IdsOk(s) && IdsFrozen(s) && Enabled(s, ReplyConfirms(applied, displayed))
    ensures IdsFrozen(Apply(s, ReplyConfirms(applied, displayed)))
  {
  }

  lemma ConfirmTracks(s: System, applied: nat, displayed: bool)
    requires Tracked(s) && Enabled(s, ReplyConfirms(applied, displayed))
    ensures Tracked(Apply(s, ReplyConfirms(applied, displayed)))
  {
    ConfirmKeepsServer(s, applied, displayed);
    ConfirmKeepsIds(s, applied, displayed);
    ConfirmKeepsFrozen(s, applied, displayed);
    ConfirmEmptiesPhase(s, applied, displayed);
  }

  lemma ConfirmKeepsServer(s: System, applied: nat, displayed: bool)
    requires ServerOk(s) && Enabled(s, ReplyConfirms(applied, displayed))
    ensures ServerOk(Apply(s, ReplyConfirms(applied, displayed)))
  {
    ServerUntouched(s, Apply(s, ReplyConfirms(applied, displayed)));
  }

  lemma ConfirmEmptiesPhase(s: System, applied: nat, displayed: bool)
    requires Enabled(s, ReplyConfirms(applied, displayed))
    ensures var t := Apply(s, ReplyConfirms(applied, displayed)); t.client.phase.Idle? && t.client.queue == []
  {
  }

  /** Browser-side facts survive any step that leaves drafts and the network alone. */
  lemma PageOnly(s: System, t: System)
    requires QueueOk(s.client) && IdsOk(s) && IdsFrozen(s) && PhaseOk(s)
    requires t.client == s.client.(expected := t.client.expected) && t.sent == s.sent
    ensures QueueOk(t.client) && IdsOk(t) && IdsFrozen(t) && PhaseOk(t)
  {
    assert forall id :: SentId(s, id) <==> SentId(t, id);
  }

  /** The version may grow and ledger rows may go; what has been accepted stays accepted. */
  lemma AnswersStay(v: Server, w: Server, replies: set<Reply>)
    requires AnswersOk(v, replies)
    requires w.accepted == v.accepted && w.version >= v.version
    requires forall id :: id in w.ledger ==> id in v.ledger && w.ledger[id] == v.ledger[id]
    ensures AnswersOk(w, replies)
  {
    forall id, applied | AcceptedAt(v, id, applied) ensures AcceptedAt(w, id, applied) {
      var i :| 0 <= i < |v.accepted| && v.accepted[i].id == id && v.accepted[i].expected + 1 == applied;
      assert w.accepted[i] == v.accepted[i];
    }
  }

  lemma EnvironmentTracks(s: System, step: Step)
    requires Tracked(s)
    requires step.PageRefreshesVersion? || step.OthersChange? || step.LifecycleMoves? || step.LedgerPurged?
    ensures Tracked(Apply(s, step))
  {
    var t := Apply(s, step);
    AnswersStay(s.server, t.server, s.replies);
    assert HistoryOk(s.sent, t.server);
    PageOnly(s, t);
  }

  lemma LostTracks(s: System)
    requires Tracked(s) && s.client.phase.Waiting?
    ensures Tracked(Apply(s, ReplyLost))
  {
  }

  /** Every step whose sends are faithful keeps ids frozen; giving up, too. */
  lemma FaithfulStepTracks(s: System, step: Step)
    requires Tracked(s) && Enabled(s, step) && Faithful(s, step)
    ensures Tracked(Apply(s, step))
  {
    match step
    case UserEdits(p) => EditTracks(s, p);
    case TimerFires => TimerTracks(s);
    case UserSaves => SaveTracks(s);
    case QueueRuns(online) => RunTracks(s, online);
    case SaveCompares => CompareTracks(s);
    case ServerReceives(r) => ReceiveTracks(s, r);
    case ReplyLost => LostTracks(s);
    case ReplyConfirms(applied, displayed) => ConfirmTracks(s, applied, displayed);
    case _ => EnvironmentTracks(s, step);
  }

  // ---------- the edit ----------

  lemma SettledMeansNoLostEdit(s: System)
    requires Settled(s)
    ensures NoLostEdit(s)
  {
    LastWriteQueued(s.client.queue);
  }

  /** What is settled about the page: the timer, else the last write queued, else the draft is the form. */
  ghost predicate PageSettled(c: Client) {
    if c.timer.Some? then c.timer.value == c.form
    else if LastWrite(c.queue).Some? then LastWrite(c.queue).value == c.form
    else c.draft.Some? && c.draft.value.payload == c.form
  }

  /** A client whose queue lost a write at its head to the stored draft, and may have gained a callback. */
  lemma WrittenSettles(c: Client, d: Client, p: Payload, next: seq<Mutation>)
    requires c.queue != [] && (c.queue[0] == Write(p) || c.queue[0] == SaveWrite(p))
    requires d.queue == c.queue[1..] + next && |next| <= 1 && (next != [] ==> next[0].Mark? || next[0].PutBack?)
    requires d.timer == c.timer && d.form == c.form && d.draft.Some? && d.draft.value.payload == p
    requires c.timer.Some? ==> c.timer.value == c.form
    requires c.timer.None? && LastWrite(c.queue).Some? ==> LastWrite(c.queue).value == c.form
    ensures PageSettled(d)
  {
    LastWriteTail(c.queue);
    if next == [] {
      assert d.queue == c.queue[1..];
    } else {
      assert next == [next[0]];
      LastWriteAppend(c.queue[1..], next[0]);
    }
  }

  lemma WriteSettles(c: Client, online: bool)
    requires Runnable(c) && (c.queue[0].Write? || c.queue[0].SaveWrite?)
    requires c.timer.Some? ==> c.timer.value == c.form
    requires c.timer.None? && LastWrite(c.queue).Some? ==> LastWrite(c.queue).value == c.form
    ensures PageSettled(RunMutation(c, online))
  {
    var d := RunMutation(c, online);
    var next := d.queue[|c.queue| - 1..];
    assert d.queue == c.queue[1..] + next;
    WrittenSettles(c, d, c.queue[0].payload, next);
  }

  lemma RunSettles(s: System, online: bool)
    requires Inv(s) && Runnable(s.client) && Clean(s, QueueRuns(online))
    ensures Settled(Apply(s, QueueRuns(online)))
  {
    LastWriteTail(s.client.queue);
    if s.client.queue[0].Write? || s.client.queue[0].SaveWrite? {
      WriteSettles(s.client, online);
    }
  }

  /** Nothing sent under an older id can still be accepted. */
  lemma OlderIdsAreDead(s: System, q: Request)
    requires ServerOk(s) && q in s.sent && s.server.accepted != []
    requires q.id < s.server.accepted[|s.server.accepted| - 1].id
    ensures q.expected < s.server.version
  {
    assert q.expected <= s.server.accepted[|s.server.accepted| - 1].expected;
  }

  /** A draft that stays after a confirmation holds the form. */
  lemma ConfirmedDraftIsForm(s: System, applied: nat, displayed: bool)
    requires Inv(s) && Enabled(s, ReplyConfirms(applied, displayed)) && s.client.timer.None?
    ensures var d := Apply(s, ReplyConfirms(applied, displayed)).client.draft;
            d.Some? ==> d.value.payload == s.client.form
  {
  }

  /** When none stays, the form is what was sent. */
  lemma ConfirmedFormIsSent(s: System, applied: nat, displayed: bool)
    requires Inv(s) && Enabled(s, ReplyConfirms(applied, displayed)) && s.client.timer.None?
    requires Apply(s, ReplyConfirms(applied, displayed)).client.draft.None?
    ensures s.client.form == s.client.phase.request.payload
  {
    assert s.client.draft.value.requestId == s.client.phase.request.id;
    assert s.client.draft.value.payload == s.client.phase.request.payload;
  }

  /** Nothing still travelling can change what the last accepted request made. */
  lemma NothingNewerTravels(s: System, req: Request)
    requires IdsFrozen(s) && ServerOk(s) && s.server.accepted != [] && req in s.sent
    requires s.server.accepted[|s.server.accepted| - 1].id == req.id
    requires forall q :: q in s.sent ==> q.id <= req.id
    ensures forall q :: q in s.sent && q.expected >= s.server.version ==> q.payload == req.payload
  {
    forall q | q in s.sent && q.expected >= s.server.version ensures q.payload == req.payload {
      if q.id < req.id {
        OlderIdsAreDead(s, q);
      }
    }
  }

  /** What a confirmation leaves as it was. */
  lemma ConfirmLeaves(s: System, applied: nat, displayed: bool)
    requires Enabled(s, ReplyConfirms(applied, displayed))
    ensures var t := Apply(s, ReplyConfirms(applied, displayed));
            && t.client.form == s.client.form && t.client.timer == s.client.timer && t.client.queue == []
            && t.server == s.server && t.sent == s.sent
  {
  }

  lemma ConfirmedFormIsCopy(s: System, applied: nat, displayed: bool)
    requires Inv(s) && Enabled(s, ReplyConfirms(applied, displayed)) && s.client.timer.None?
    requires Apply(s, ReplyConfirms(applied, displayed)).client.draft.None?
    ensures s.server.copy == s.client.form
    ensures forall q :: q in s.sent && q.expected >= s.server.version ==> q.payload == s.client.form
  {
    AnsweredIsLatest(s, applied);
    ConfirmedFormIsSent(s, applied, displayed);
    NothingNewerTravels(s, s.client.phase.request);
  }

  lemma DrainedIsSettled(t: System)
    requires t.client.queue == [] && (t.client.timer.Some? ==> t.client.timer.value == t.client.form)
    requires t.client.timer.None? && t.client.draft.Some? ==> t.client.draft.value.payload == t.client.form
    requires t.client.timer.None? && t.client.draft.None? ==>
               && t.server.copy == t.client.form
               && forall q :: q in t.sent && q.expected >= t.server.version ==> q.payload == t.client.form
    ensures Settled(t)
  {
  }

  lemma ConfirmSettles(s: System, applied: nat, displayed: bool)
    requires Inv(s) && Enabled(s, ReplyConfirms(applied, displayed))
    ensures Settled(Apply(s, ReplyConfirms(applied, displayed)))
  {
    var t := Apply(s, ReplyConfirms(applied, displayed));
    ConfirmLeaves(s, applied, displayed);
    if t.client.timer.None? {
      ConfirmedDraftIsForm(s, applied, displayed);
      if t.client.draft.None? {
        ConfirmedFormIsCopy(s, applied, displayed);
      }
    }
    DrainedIsSettled(t);
  }

  lemma CleanStepSettles(s: System, step: Step)
    requires Inv(s) && Enabled(s, step) && Clean(s, step)
    ensures Settled(Apply(s, step))
  {
    match step
    case TimerFires => LastWriteAppend(s.client.queue, Write(s.client.timer.value));
    case UserSaves => LastWriteAppend(s.client.queue, SaveWrite(s.client.form));
    case QueueRuns(online) => RunSettles(s, online);
    case SaveCompares => LastWriteAppend(s.client.queue, SaveWrite(s.client.form));
    case ReplyConfirms(applied, displayed) => ConfirmSettles(s, applied, displayed);
    case _ =>
  }

  /** Every clean step keeps what is tracked, and the last edit settled. */
  lemma CleanStepKeeps(s: System, step: Step)
    requires Inv(s) && Enabled(s, step) && Clean(s, step)
    ensures Inv(Apply(s, step))
  {
    FaithfulStepTracks(s, step);
    CleanStepSettles(s, step);
  }
}
