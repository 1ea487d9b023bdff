/**
  The browser side of the draft protocol: the local draft of one entity in one
  tab, its debounce timer, its queue of draft mutations and the save in progress.

  A payload stands for its canonical text, so the comparison of two payloads is
  equality of texts (module DraftPayload says what that equality means).
 */
module DraftClient {
  import opened Wrappers

  type Payload = string

  /** The IndexedDB record of this entity in this tab. */
  datatype Draft = Draft(requestId: nat, attempted: Option<nat>, payload: Payload, baseVersion: nat)

  /** What `markAttempt` remembers about a request id. */
  datatype Attempt = Attempt(payload: Payload, revision: nat)

  /** What a save sends: the request id, the version the page believes in, and the form. */
  datatype Request = Request(id: nat, expected: nat, payload: Payload)

  /** Callbacks waiting in the mutation queue of this entity and tab. */
  datatype Mutation =
    | Write(payload: Payload)       // a debounce timer has fired
    | SaveWrite(payload: Payload)   // the save in progress persists what it captured
    | Mark                          // the save in progress marks its attempt
    | PutBack(draft: Draft)         // the save gives up and writes back its captured draft

  /** How far the save in progress has got; `round` counts preparations. */
  datatype Phase =
    | Idle
    | Writing(captured: Payload, round: nat)
    | Marking(captured: Payload, round: nat)
    | Checking(captured: Payload, round: nat, id: nat)
    | GivingUp(abandoned: Draft)
    | Waiting(request: Request)

  const PREPARATIONS: nat := 3

  datatype Client = Client(
    form: Payload,
    expected: nat,
    revision: nat,
    newer: Option<Payload>,
    timer: Option<Payload>,
    queue: seq<Mutation>,
    draft: Option<Draft>,
    attempts: map<nat, Attempt>,
    phase: Phase,
    issued: nat)               // identifiers below `issued` have been created

  /** `scheduleDraftWrite`: an edit restarts the timer with the payload it captured. */
  function Edit(c: Client, p: Payload): Client {
    c.(form := p,
       revision := c.revision + 1,
       newer := if c.phase.Idle? then c.newer else Some(p),
       timer := Some(p))
  }

  function FireTimer(c: Client): Client
    requires c.timer.Some?
  {
    c.(timer := None, queue := c.queue + [Write(c.timer.value)])
  }

  /** `persistCurrentDraftUnlocked` */
  function Persist(c: Client, p: Payload): Client {
    match c.draft
    case None =>
      c.(draft := Some(Draft(c.issued, None, p, c.expected)), issued := c.issued + 1)
    case Some(d) =>
      if d.payload != p && d.attempted == Some(d.requestId)
      then c.(draft := Some(d.(requestId := c.issued, payload := p)), issued := c.issued + 1)
      else c.(draft := Some(d.(payload := p)))
  }

  /** The part of `saveThroughLivewire` before its first wait. */
  function BeginSave(c: Client): Client
    requires c.phase.Idle?
  {
    c.(timer := None,
       queue := c.queue + [SaveWrite(c.form)],
       phase := Writing(c.form, 0))
  }

  /** What the save does once the draft it asked for has been persisted. */
  function AfterSaveWrite(c: Client, online: bool): Client
    requires c.phase.Writing? && c.draft.Some?
  {
    var round := c.phase.round;
    if round == 0 && !online then
      c.(phase := Idle)
    else if round >= PREPARATIONS then
      var abandoned := c.draft.value.(attempted := None);
      c.(queue := c.queue + [PutBack(abandoned)], phase := GivingUp(abandoned))
    else
      c.(queue := c.queue + [Mark], phase := Marking(c.phase.captured, round))
  }

  /** `markAttempt` */
  function MarkAttempt(c: Client): Client
    requires c.phase.Marking? && c.draft.Some?
  {
    var d := c.draft.value;
    c.(draft := Some(d.(attempted := Some(d.requestId))),
       attempts := c.attempts[d.requestId := Attempt(d.payload, c.revision)],
       phase := Checking(c.phase.captured, c.phase.round, d.requestId))
  }

  /** A queued callback is in the phase its save expects it in. */
  predicate Runnable(c: Client) {
    && c.queue != []
    && match c.queue[0]
       case Write(_) => true
       case SaveWrite(_) => c.phase.Writing?
       case Mark => c.phase.Marking? && c.draft.Some?
       case PutBack(_) => c.phase.GivingUp?
  }

  /** Runs the callback at the head of the queue. */
  function RunMutation(c: Client, online: bool): Client
    requires Runnable(c)
  {
    var rest := c.(queue := c.queue[1..]);
    match c.queue[0]
    case Write(p) => Persist(rest, p)
    case SaveWrite(p) => AfterSaveWrite(Persist(rest, p), online)
    case Mark => MarkAttempt(rest)
    case PutBack(d) => rest.(draft := Some(d), phase := Idle)
  }

  /** The form is compared with what the save captured: the guard of the send. */
  predicate ReadyToSend(c: Client) {
    c.phase.Checking? && c.phase.captured == c.form
  }

  /** Compare, then either send or prepare again. */
  function Compare(c: Client): Client
    requires c.phase.Checking?
  {
    if c.phase.captured == c.form
    then c.(phase := Waiting(Request(c.phase.id, c.expected, c.form)))
    else c.(attempts := c.attempts - {c.phase.id},
            queue := c.queue + [SaveWrite(c.form)],
            phase := Writing(c.form, c.phase.round + 1))
  }

  /** The call rejects: the reply was lost, or the server refused. */
  function CallFailed(c: Client): Client
    requires c.phase.Waiting?
  {
    c.(phase := Idle)
  }

  predicate EditedSince(c: Client, id: nat) {
    id in c.attempts && c.revision > c.attempts[id].revision
  }

  /** The newest payload the confirmation handler can see. */
  function LatestPayload(c: Client, id: nat, displayed: bool): Option<Payload> {
    if c.newer.Some? then c.newer
    else if EditedSince(c, id) && displayed then Some(c.form)
    else None
  }

  predicate Concerns(d: Draft, id: nat) {
    d.requestId == id || d.attempted == Some(id)
  }

  /** The queued callback of `handleServerConfirmation`. */
  function SettleDraft(c: Client, id: nat, applied: nat, displayed: bool): Client {
    if c.draft.None? || !Concerns(c.draft.value, id) then c else
    var d := c.draft.value;
    var latest := LatestPayload(c, id, displayed);
    if EditedSince(c, id) && latest.Some? && d.payload != latest.value then
      c.(draft := Some(Draft(c.issued, None, latest.value, applied)),
         issued := c.issued + 1,
         newer := None)
    else if d.attempted == Some(id) && d.requestId != id then
      c.(draft := Some(d.(attempted := None, baseVersion := applied)), newer := None)
    else if d.requestId == id then
      c.(draft := None)
    else
      c
  }

  predicate DraftMatchesLatest(c: Client, edited: bool, displayed: bool) {
    && c.draft.Some?
    && (if displayed then c.draft.value.payload == c.form
        else !edited || (c.newer.Some? && c.draft.value.payload == c.newer.value))
  }

  /** `handleServerConfirmation`, with the page's version moved to the applied one. */
  function Confirm(c: Client, applied: nat, displayed: bool): Client
    requires c.phase.Waiting?
  {
    var id := c.phase.request.id;
    var known := id in c.attempts || (c.draft.Some? && Concerns(c.draft.value, id));
    var edited := EditedSince(c, id);
    var settled := SettleDraft(c, id, applied, displayed)
                   .(attempts := c.attempts - {id}, expected := applied, phase := Idle);
    if !known || (edited && !DraftMatchesLatest(settled, edited, displayed))
    then settled
    else settled.(revision := 0, newer := None)
  }
}

/** The same browser module as an object whose handlers update its fields. */
module DraftWorkspace {
  import opened Wrappers
  import opened DraftClient

  class TabWorkspace {
    var form: Payload
    var expected: nat
    var editRevision: nat
    var newerPayload: Option<Payload>
    var debounceTimer: Option<Payload>
    var mutationQueue: seq<Mutation>
    var storedDraft: Option<Draft>
    var pendingAttempts: map<nat, Attempt>
    var phase: Phase
    var issuedIds: nat

    function View(): Client
      reads this
    {
      Client(form, expected, editRevision, newerPayload, debounceTimer, mutationQueue,
             storedDraft, pendingAttempts, phase, issuedIds)
    }

    constructor (serverForm: Payload, version: nat)
      ensures View() == Client(serverForm, version, 0, None, None, [], None, map[], Idle, 0)
    {
      form, expected, editRevision := serverForm, version, 0;
      newerPayload, debounceTimer, mutationQueue := None, None, [];
      storedDraft, pendingAttempts, phase, issuedIds := None, map[], Idle, 0;
    }

    method CreateUuid() returns (id: nat)
      modifies this`issuedIds
      ensures id == old(issuedIds) && issuedIds == old(issuedIds) + 1
    {
      id := issuedIds;
      issuedIds := issuedIds + 1;
    }

    method ScheduleDraftWrite(payload: Payload)
      modifies this
      ensures View() == Edit(old(View()), payload)
    {
      form := payload;
      editRevision := editRevision + 1;
      if phase != Idle {
        newerPayload := Some(payload);
      }
      debounceTimer := Some(payload);
    }

    method TimerFires()
      requires debounceTimer.Some?
      modifies this
      ensures View() == FireTimer(old(View()))
    {
      var payload := debounceTimer.value;
      debounceTimer := None;
      mutationQueue := mutationQueue + [Write(payload)];
    }

    method PersistCurrentDraftUnlocked(payload: Payload)
      modifies this
      ensures View() == Persist(old(View()), payload)
    {
      match storedDraft
      case None =>
        var id := CreateUuid();
        storedDraft := Some(Draft(id, None, payload, expected));
      case Some(d) =>
        var draft := d;
        var changed := draft.payload != payload;
        if changed && draft.attempted.Some? && draft.requestId == draft.attempted.value {
          var id := CreateUuid();
          draft := draft.(requestId := id);
        }
        storedDraft := Some(draft.(payload := payload));
    }

    method SaveThroughLivewire()
      requires phase.Idle?
      modifies this
      ensures View() == BeginSave(old(View()))
    {
      debounceTimer := None;
      mutationQueue := mutationQueue + [SaveWrite(form)];
      phase := Writing(form, 0);
    }

    method RunNextMutation(online: bool)
      requires Runnable(View())
      modifies this
      ensures View() == RunMutation(old(View()), online)
    {
      var next := mutationQueue[0];
      mutationQueue := mutationQueue[1..];
      match next
      case Write(p) =>
        PersistCurrentDraftUnlocked(p);
      case SaveWrite(p) =>
        PersistCurrentDraftUnlocked(p);
        if phase.round == 0 && !online {
          phase := Idle;
        } else if phase.round >= PREPARATIONS {
          var abandoned := storedDraft.value.(attempted := None);
          mutationQueue := mutationQueue + [PutBack(abandoned)];
          phase := GivingUp(abandoned);
        } else {
          mutationQueue := mutationQueue + [Mark];
          phase := Marking(phase.captured, phase.round);
        }
      case Mark =>
        var draft := storedDraft.value;
        var attempted := draft.(attempted := Some(draft.requestId));
        storedDraft := Some(attempted);
        pendingAttempts := pendingAttempts[attempted.requestId := Attempt(attempted.payload, editRevision)];
        phase := Checking(phase.captured, phase.round, attempted.requestId);
      case PutBack(d) =>
        storedDraft := Some(d);
        phase := Idle;
    }

    method CompareAndCall() returns (sent: Option<Request>)
      requires phase.Checking?
      modifies this
      ensures View() == Compare(old(View()))
      ensures sent == if old(ReadyToSend(View())) then Some(old(Request(phase.id, expected, form))) else None
    {
      if phase.captured == form {
        var request := Request(phase.id, expected, form);
        phase := Waiting(request);
        return Some(request);
      }
      pendingAttempts := pendingAttempts - {phase.id};
      mutationQueue := mutationQueue + [SaveWrite(form)];
      phase := Writing(form, phase.round + 1);
      return None;
    }

    method CallRejects()
      requires phase.Waiting?
      modifies this
      ensures View() == CallFailed(old(View()))
    {
      phase := Idle;
    }

    /** The callback that `handleServerConfirmation` queues for the stored draft. */
    method SettleStoredDraft(id: nat, applied: nat, displayed: bool)
      modifies this
      ensures View() == SettleDraft(old(View()), id, applied, displayed)
    {
      if storedDraft.None? {
        return;
      }
      var stored := storedDraft.value;
      var attemptedThis := stored.attempted.Some? && stored.attempted.value == id;
      if stored.requestId != id && !attemptedThis {
        return;
      }
      var hasNewerRevision := id in pendingAttempts && editRevision > pendingAttempts[id].revision;
      var latest := newerPayload;
      if latest.None? && hasNewerRevision && displayed {
        latest := Some(form);
      }
      if hasNewerRevision && latest.Some? && stored.payload != latest.value {
        var freshId := CreateUuid();
        storedDraft := Some(Draft(freshId, None, latest.value, applied));
        newerPayload := None;
      } else if attemptedThis && stored.requestId != id {
        storedDraft := Some(stored.(attempted := None, baseVersion := applied));
        newerPayload := None;
      } else if stored.requestId == id {
        storedDraft := None;
      }
    }

    method HandleServerConfirmation(applied: nat, displayed: bool)
      requires phase.Waiting?
      modifies this
      ensures View() == Confirm(old(View()), applied, displayed)
    {
      var id := phase.request.id;
      var known := id in pendingAttempts || (storedDraft.Some? && Concerns(storedDraft.value, id));
      var hasNewerRevision := id in pendingAttempts && editRevision > pendingAttempts[id].revision;
      SettleStoredDraft(id, applied, displayed);
      pendingAttempts := pendingAttempts - {id};
      expected := applied;
      phase := Idle;
      var activeMatchesLatest := false;
      if storedDraft.Some? {
        if displayed {
          activeMatchesLatest := storedDraft.value.payload == form;
        } else {
          activeMatchesLatest := !hasNewerRevision
            || (newerPayload.Some? && storedDraft.value.payload == newerPayload.value);
        }
      }
      if known && !(hasNewerRevision && !activeMatchesLatest) {
        editRevision := 0;
        newerPayload := None;
      }
    }
  }
}
