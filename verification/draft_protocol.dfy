/**
  The draft protocol as a whole: one browser tab editing one entity, the network,
  and the server's idempotency ledger with its version compare-and-set.

  Requests stay in the network once sent and may be delivered any number of
  times, late or never; a reply may be lost.  Other tabs, other entities and the
  assessment lifecycle appear as steps that move the version.
 */
module DraftProtocol {
  import opened Wrappers
  import opened DraftClient

  datatype Row = Row(payload: Payload, applied: nat)

  datatype Reply = Reply(id: nat, applied: nat)

  /**
    `accepted` is the history of this tab's requests that changed the entity, and
    `copy` what the server holds of it from this tab.
   */
  datatype Server = Server(version: nat, open: bool, ledger: map<nat, Row>, accepted: seq<Request>, copy: Payload)

  datatype System = System(client: Client, server: Server, sent: set<Request>, replies: set<Reply>)

  datatype Step =
    | UserEdits(payload: Payload)
    | TimerFires
    | UserSaves
    | QueueRuns(online: bool)
    | SaveCompares
    | ServerReceives(request: Request)
    | ReplyLost
    | ReplyConfirms(applied: nat, displayed: bool)
    | PageRefreshesVersion
    | OthersChange
    | LifecycleMoves(open: bool)
    | LedgerPurged(ids: set<nat>)

  function Init(form: Payload, version: nat): System {
    System(Client(form, version, 0, None, None, [], None, map[], Idle, 0),
           Server(version, true, map[], [], form), {}, {})
  }

  /** Ledger lookup, status check and compare-and-set, as one transaction. */
  function Receive(s: Server, r: Request): (Server, Option<nat>) {
    if r.id in s.ledger then
      (s, if s.ledger[r.id].payload == r.payload then Some(s.ledger[r.id].applied) else None)
    else if !s.open || s.version != r.expected then
      (s, None)
    else
      (Server(s.version + 1, s.open, s.ledger[r.id := Row(r.payload, r.expected + 1)],
              s.accepted + [r], r.payload),
       Some(r.expected + 1))
  }

  predicate Enabled(s: System, step: Step) {
    match step
    case UserEdits(_) => true
    case TimerFires => s.client.timer.Some?
    case UserSaves => s.client.phase.Idle?
    case QueueRuns(_) => Runnable(s.client)
    case SaveCompares => s.client.phase.Checking?
    case ServerReceives(r) => r in s.sent
    case ReplyLost => s.client.phase.Waiting?
    // the confirmation callback queues behind the writes already waiting
    case ReplyConfirms(applied, _) =>
      && s.client.phase.Waiting?
      && s.client.queue == []
      && Reply(s.client.phase.request.id, applied) in s.replies
    case PageRefreshesVersion => true
    case OthersChange => true
    case LifecycleMoves(_) => true
    case LedgerPurged(_) => true
  }

  function Apply(s: System, step: Step): System
    requires Enabled(s, step)
  {
    match step
    case UserEdits(p) => s.(client := Edit(s.client, p))
    case TimerFires => s.(client := FireTimer(s.client))
    case UserSaves => s.(client := BeginSave(s.client))
    case QueueRuns(online) => s.(client := RunMutation(s.client, online))
    case SaveCompares =>
      var c := Compare(s.client);
      s.(client := c, sent := if c.phase.Waiting? then s.sent + {c.phase.request} else s.sent)
    case ServerReceives(r) =>
      var (server, reply) := Receive(s.server, r);
      s.(server := server,
         replies := if reply.Some? then s.replies + {Reply(r.id, reply.value)} else s.replies)
    case ReplyLost => s.(client := CallFailed(s.client))
    case ReplyConfirms(applied, displayed) => s.(client := Confirm(s.client, applied, displayed))
    case PageRefreshesVersion => s.(client := s.client.(expected := s.server.version))
    case OthersChange => s.(server := s.server.(version := s.server.version + 1))
    case LifecycleMoves(open) => s.(server := s.server.(version := s.server.version + 1, open := open))
    case LedgerPurged(ids) => s.(server := s.server.(ledger := s.server.ledger - ids))
  }

  /** The payload marked for the id about to be sent is the one in the form. */
  predicate SendIsFaithful(c: Client)
    requires c.phase.Checking?
  {
    c.phase.id in c.attempts && c.attempts[c.phase.id].payload == c.form
  }

  /** A send, if this step is one, finds the marked payload still in the form. */
  predicate Faithful(s: System, step: Step) {
    step.SaveCompares? && ReadyToSend(s.client) ==> SendIsFaithful(s.client)
  }

  /** The last payload a queue will write to the stored draft. */
  function LastWrite(queue: seq<Mutation>): Option<Payload> {
    if queue == [] then None
    else match queue[|queue| - 1]
      case Write(p) => Some(p)
      case SaveWrite(p) => Some(p)
      case _ => LastWrite(queue[..|queue| - 1])
  }

  /** The draft put back is the form, or something newer is on its way: the timer, or a write queued behind. */
  predicate PutBackKeepsEdit(c: Client, d: Draft, behind: seq<Mutation>) {
    c.timer.Some? || LastWrite(behind).Some? || d.payload == c.form
  }

  /**
    The save in progress decides on what it captured.  A step is clean when no
    other write has come between: a send is faithful, and a save that gives up
    puts back nothing older than the form.
   */
  predicate Clean(s: System, step: Step) {
    && Faithful(s, step)
    && (step.QueueRuns? && s.client.queue != [] && s.client.queue[0].PutBack? ==>
          PutBackKeepsEdit(s.client, s.client.queue[0].draft, s.client.queue[1..]))
  }

  predicate IsRun(s: System, steps: seq<Step>)
    decreases |steps|
  {
    steps == [] || (Enabled(s, steps[0]) && IsRun(Apply(s, steps[0]), steps[1..]))
  }

  predicate IsFaithfulRun(s: System, steps: seq<Step>)
    decreases |steps|
  {
    steps == [] ||
    (Enabled(s, steps[0]) && Faithful(s, steps[0]) && IsFaithfulRun(Apply(s, steps[0]), steps[1..]))
  }

  predicate IsCleanRun(s: System, steps: seq<Step>)
    decreases |steps|
  {
    steps == [] ||
    (Enabled(s, steps[0]) && Clean(s, steps[0]) && IsCleanRun(Apply(s, steps[0]), steps[1..]))
  }

  function After(s: System, steps: seq<Step>): System
    requires IsRun(s, steps)
    decreases |steps|
  {
    if steps == [] then s else After(Apply(s, steps[0]), steps[1..])
  }

  // ---------- what the protocol promises ----------

  /** The payload is somewhere the browser will not forget it. */
  ghost predicate Held(c: Client, p: Payload) {
    || c.timer == Some(p)
    || Write(p) in c.queue
    || SaveWrite(p) in c.queue
    || (c.draft.Some? && c.draft.value.payload == p)
  }

  /** The last payload edited is held by the browser or is what the server has. */
  ghost predicate NoLostEdit(s: System) {
    Held(s.client, s.client.form) || s.server.copy == s.client.form
  }

  /** One id, one payload: in the network, in the stored draft, and in the pending attempts. */
  ghost predicate IdsFrozen(s: System) {
    && (forall q, r :: q in s.sent && r in s.sent && q.id == r.id ==> q.payload == r.payload)
    && (forall q :: q in s.sent && s.client.draft.Some? && s.client.draft.value.requestId == q.id ==>
          s.client.draft.value.payload == q.payload && s.client.draft.value.attempted == Some(q.id))
    && (forall q :: q in s.sent && q.id in s.client.attempts ==> s.client.attempts[q.id].payload == q.payload)
  }

  // ---------- the invariant ----------

  predicate IsSaveOp(m: Mutation) { !m.Write? }

  ghost predicate SentId(s: System, id: nat) { exists q :: q in s.sent && q.id == id }

  ghost predicate MatchesPhase(m: Mutation, phase: Phase) {
    match m
    case Write(_) => true
    case SaveWrite(p) => phase.Writing? && phase.captured == p
    case Mark => phase.Marking?
    case PutBack(d) => phase.GivingUp? && phase.abandoned == d
  }

  /** The queue holds at most one callback of the save in progress, the one its phase waits for. */
  ghost predicate QueueOk(c: Client) {
    && (forall i :: 0 <= i < |c.queue| ==> MatchesPhase(c.queue[i], c.phase))
    && (forall i, j :: 0 <= i < j < |c.queue| ==> !(IsSaveOp(c.queue[i]) && IsSaveOp(c.queue[j])))
  }

  /** Once the timer and the queue have drained, the form is stored or is the server's. */
  ghost predicate Settled(s: System) {
    var c := s.client;
    if c.timer.Some? then c.timer.value == c.form
    else if LastWrite(c.queue).Some? then LastWrite(c.queue).value == c.form
    else if c.draft.Some? then c.draft.value.payload == c.form
    else
      && s.server.copy == c.form
      // nothing still travelling can change the server's copy
      && (forall q :: q in s.sent && q.expected >= s.server.version ==> q.payload == c.form)
  }

  /** Identifiers only grow: what is stored is never older than what was sent. */
  ghost predicate IdsOk(s: System) {
    var c := s.client;
    && (forall q :: q in s.sent ==> q.id < c.issued)
    && (forall id :: id in c.attempts ==> id < c.issued)
    && (c.draft.Some? ==> c.draft.value.requestId < c.issued)
    && (c.draft.Some? ==> forall q :: q in s.sent ==> q.id <= c.draft.value.requestId)
    && (c.phase.Checking? ==> c.phase.id < c.issued && forall q :: q in s.sent ==> q.id <= c.phase.id)
    && (c.phase.Waiting? ==> forall q :: q in s.sent ==> q.id <= c.phase.request.id)
    && (c.phase.GivingUp? ==> c.phase.abandoned.requestId < c.issued && c.phase.abandoned.attempted == None
                              && forall q :: q in s.sent ==> q.id < c.phase.abandoned.requestId)
    && (c.phase.Checking? && c.draft.Some? ==> c.phase.id <= c.draft.value.requestId)
  }

  /** What the save in progress knows about the draft it prepares. */
  ghost predicate PhaseOk(s: System) {
    var c := s.client;
    match c.phase
    case Idle => true
    case Writing(p, n) =>
      && n <= PREPARATIONS
      && (n > 0 ==> c.draft.Some? && (SentId(s, c.draft.value.requestId) ==> c.draft.value.payload != p))
    case Marking(p, n) =>
      && n < PREPARATIONS && c.draft.Some?
      && (SentId(s, c.draft.value.requestId) ==> n == 0 && c.draft.value.payload == p)
    case Checking(p, n, id) =>
      && n < PREPARATIONS && c.draft.Some?
      && (SentId(s, c.draft.value.requestId) ==> n == 0 && c.draft.value.payload == p)
      && id in c.attempts
      && c.draft.value.attempted == Some(id)
      && (c.draft.value.requestId == id ==> c.draft.value.payload == c.attempts[id].payload)
      && RevisionOk(c, id)
    case GivingUp(_) => c.draft.Some?
    case Waiting(r) =>
      && r in s.sent
      && r.id in c.attempts
      && c.draft.Some? && c.draft.value.attempted == Some(r.id)
      && RevisionOk(c, r.id)
      && (!EditedSince(c, r.id) ==> c.form == r.payload)
  }

  ghost predicate RevisionOk(c: Client, id: nat) {
    && id in c.attempts
    && c.attempts[id].revision <= c.revision
    && (EditedSince(c, id) ==> c.newer == Some(c.form))
  }

  /** Versions order the accepted requests, and an older id was never sent for a newer version. */
  ghost predicate HistoryOk(sent: set<Request>, v: Server) {
    && (forall q :: q in sent ==> q.expected <= v.version)
    && (forall i :: 0 <= i < |v.accepted| ==> v.accepted[i] in sent && v.accepted[i].expected < v.version)
    && (forall i, j :: 0 <= i < j < |v.accepted| ==> v.accepted[i].expected < v.accepted[j].expected)
    && (v.accepted != [] ==> v.copy == v.accepted[|v.accepted| - 1].payload)
    && (forall q, i :: q in sent && 0 <= i < |v.accepted| && q.id < v.accepted[i].id ==>
          q.expected <= v.accepted[i].expected)
  }

  /** A request with this id was accepted and moved the server to version `applied`. */
  ghost predicate AcceptedAt(v: Server, id: nat, applied: nat) {
    applied <= v.version &&
    exists i :: 0 <= i < |v.accepted| && v.accepted[i].id == id && v.accepted[i].expected + 1 == applied
  }

  /** The ledger and the replies only speak of accepted requests, and of the versions they made. */
  ghost predicate AnswersOk(v: Server, replies: set<Reply>) {
    && (forall id :: id in v.ledger ==> AcceptedAt(v, id, v.ledger[id].applied))
    && (forall r :: r in replies ==> AcceptedAt(v, r.id, r.applied))
  }

  ghost predicate ServerOk(s: System) {
    && s.client.expected <= s.server.version
    && HistoryOk(s.sent, s.server)
    && AnswersOk(s.server, s.replies)
  }

  /** What faithful sends keep. */
  ghost predicate Tracked(s: System) {
    && QueueOk(s.client)
    && IdsOk(s)
    && IdsFrozen(s)
    && PhaseOk(s)
    && ServerOk(s)
  }

  /** What clean steps keep. */
  ghost predicate Inv(s: System) {
    Tracked(s) && Settled(s)
  }
}
