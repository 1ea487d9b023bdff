# AssestMe: a verified model

AssestMe is a Laravel application with an offline-capable browser editor for
assessments. This project models the parts of it whose correctness spans several
functions or several processes, and proves what they promise. `dafny verify
dfyconfig.toml` checks everything.

## What is modelled

**The draft and save protocol** (`draft_client`, `draft_protocol`, `draft_invariant`,
`draft_guarantees`, `draft_losses`, `draft_replies`, `draft_progress`). One browser
tab with its debounce timer, its queue of draft mutations, its stored draft and its
pending attempts; a network that may lose replies and deliver requests late; a server
with a ledger and a version. One queued mutation is one step; a reply and its
confirmation handler are one step. The invariant is proved step by step and gives,
over whole runs: no edit is lost, a request id never carries two payloads, a
confirmation keeps a newer form, a retry after a lost reply is answered from the
ledger. The class `TabWorkspace` is the browser module with its own variables; its
methods are proved to be the steps.

Each of these laws can fail, and for each there is a run that shows it and a condition
that is exact in every run. The save compares the form with the payload it *captured*,
not with the payload it has *marked*; when a timer's write comes between the save's
own write and its mark, what is sent and what is stored under one id differ. Ids stay
frozen throughout a run exactly when every send is *faithful*: it finds the marked
payload in the form. And a save that gives up after three preparations puts back the
draft it captured, over a write that came between; whether the edit will survive is
decided, and can be read off the queue, when the third preparation fails. The last
edit is never lost exactly in the runs none of whose steps is of one of three losing
kinds: such a put-back, a confirmation that drops the form, which faithful sends rule
out, or an old request accepted over the only copy, which takes an unclean step before
it. Runs show that all three happen. A confirmation keeps a newer form exactly unless
the draft it deletes is the one that holds it.

A retry keeps its request id exactly when the stored draft still has that id and
neither the draft nor a write on its way holds anything but the form. The other case
needs nothing unclean: what is typed and typed back while a save waits leaves the form
as it was sent, but the write in between has changed the id and nothing changes it
back. The server, which already has the content, then judges the retry as a new
request, and refuses it while the page expects the older version. A confirmation moves
the page to the version it names, so that any number of saves in a row are each
applied on top of the one before.

**The server's side** (`findings`, `finding_order`, `workspace`, `workspace_effects`,
`workspace_guarantees`, `workspace_store`, `status_transition`). Assessments with
findings, their completion validator, status machine and numbering; the request
ledger; saves, reorders, structural and lifecycle actions and ledger purges by any
number of users. For every action there is the exact condition under which it is
applied, and what it then stores and leaves alone. Over every run: a request is
applied at most once, also across purges; completed stays valid; the numbering stays
exactly 1 to n. The class `AssessmentStore` runs the same actions with loops and
assignments and is proved to make the same transitions. A status change takes no lock
of its own: where it is called without one, other actions come between its read and
its write, and everything stays valid exactly when no write resolves a finding that
lost its resolution in an assessment completed since; that takes a save and then a
completion in between.

**Compensating sagas over files and database** (`deletion`, `restore`, `evidence`).
What fails is an input, and the outcome is exact for every choice of it; without
faults a deletion deletes and a restore restores. For permanent deletion every state
an operation passes through is a legal place to crash, and cleanup runs may come in
between; while the row exists each file is at exactly one of its two places. A restore
is all-or-nothing up to the double failure, after which an intact copy of the original
storage remains. The evidence quota is checked outside the lock and still holds,
exactly because expected versions are issued by the server. Its files are accounted
for exactly when no failed write leaves a part behind: the code forgets the path of
the write that failed.

**Backups** (`retention`, `backup_archive`). The one-pass greedy retention loop
against its declarative rule; manifest printing and parsing; archives that verify;
extraction that returns what was staged and nothing else. File names with a backslash
are archived with a slash in its place; the lemmas say exactly when names survive and
exactly when such an archive still verifies.

**Matching, canonical forms, printing and parsing** (`canonical_payload`,
`object_order`, `solution_alignment`, `quote_references`, `previous_quote`). Payload
texts agree exactly when the picked fields agree up to key order, down to the
characters of `JSON.stringify`. The alignment of draft and live solutions reports
compatible exactly when identities agree as multisets, and then pairs them by a
bijection. A keyed result is an object, which lists index-like keys first: it has the
draft's order exactly when the keys are in such an order already. The reference block
of a quote row is added, stripped and read back. Stripping is not idempotent: a text
ending in two blocks needs two strips, so the round trip for an *empty* list of ids
has an exact condition on the text.

**Aggregates** (`risk_profiles`, `risk_answers`, `risk_acceptance`, `risk_default`,
`identifiers`, `key_realignment`). The risk matrix is complete after every run of
saves, and a profile answers for each pair of levels what its last accepted save
submitted for it. A save that passes the validation is accepted exactly when its rows
fit the unique indexes. The unique index on profile and score, together with the rule
that four rows carry the scores 1 to 4, freezes a profile's levels and scores after
its first save, so the branch that disables historical scored levels never has
anything to do. Only changed attributes of a loaded profile are written, so a stale
copy can leave the default profile disabled or leave none; runs show both, and for
every run the condition is exact, call by call. Fresh identifiers terminate within a
bound, and match the validator's pattern exactly when no cut ends them in a separator;
and the two-phase key rename succeeds exactly for feasible targets.

`php_strings` holds PHP's string functions, `finding_order` also the counting facts
about finite sets, `wrappers` optional values and outcomes.

## Assumptions

- Identifiers made from UUIDs are new when they are made. Payload hashes are
  injective; where SHA-256 of file contents matters, the lemma says which contents
  must not collide.
- The save lock is mutual exclusion and a database transaction is all-or-nothing.
- A directory deletion that reports success has left nothing behind, and a move that
  fails has moved nothing.
- In backup file names dates are well-formed; day, ISO 8601 week (section 5.2.4 of
  ISO 8601-1:2019) and month are keys that never go back along the sorted names.
- Slugs are ASCII text, so cutting them by width is cutting them by length.

## Model

| member | source | states |
|---|---|---|
| `DraftWorkspace.TabWorkspace.constructor` | resources/js/assestme-workspace-drafts.js:41-59 | A freshly loaded page has the server's form, no timer, no stored draft, no pending attempt and an empty queue. |
| `DraftWorkspace.TabWorkspace.CreateUuid` | resources/js/assestme-workspace-drafts.js:63-88 | Hands out an identifier never handed out before by this page. |
| `DraftWorkspace.TabWorkspace.ScheduleDraftWrite` | resources/js/assestme-workspace-drafts.js:706-750 | An edit replaces the waiting timer by one that carries its own payload, counts as a new revision, and is remembered separately while a save is in progress. |
| `DraftWorkspace.TabWorkspace.TimerFires` | resources/js/assestme-workspace-drafts.js:738-749 | The timer hands the payload it captured to the mutation queue and forgets itself. |
| `DraftWorkspace.TabWorkspace.PersistCurrentDraftUnlocked` | resources/js/assestme-workspace-drafts.js:636-694 | The stored draft takes the payload; a changed payload under an attempted request id gets a new id, an unchanged one keeps its id. |
| `DraftWorkspace.TabWorkspace.SaveThroughLivewire` | resources/js/assestme-workspace-drafts.js:785-805 | A save cancels the timer, captures the form and queues the write of exactly that payload. |
| `DraftWorkspace.TabWorkspace.RunNextMutation` | resources/js/assestme-workspace-drafts.js:696-863 | Runs the callback at the head of the queue: a timer's write, the save's own write, the mark of an attempt, or the draft put back after giving up; the order of the queue is kept. |
| `DraftWorkspace.TabWorkspace.CompareAndCall` | resources/js/assestme-workspace-drafts.js:842-876 | The request is sent, with the marked id and the form as it stands, exactly when the captured payload equals the form; otherwise the save prepares again, at most three times. |
| `DraftWorkspace.TabWorkspace.CallRejects` | resources/js/assestme-workspace-drafts.js:876-885 | A lost reply or a refusal ends the save and leaves draft, attempt and form alone. |
| `DraftWorkspace.TabWorkspace.SettleStoredDraft` | resources/js/assestme-workspace-drafts.js:1306-1375 | On confirmation the stored draft is rebased on the applied version under a new id when a newer payload is known, kept when its id has moved on, and deleted when it still carries the confirmed id. |
| `DraftWorkspace.TabWorkspace.HandleServerConfirmation` | resources/js/assestme-workspace-drafts.js:1256-1425 | The whole confirmation: the draft is settled, the attempt forgotten, the page's version moved to the applied one. |
| `DraftInvariant.EditTracks` | resources/js/assestme-workspace-drafts.js:706-750 | An edit keeps what is tracked of queue, identifiers, frozen ids, the save's phase and the server. |
| `DraftInvariant.TimerTracks` | resources/js/assestme-workspace-drafts.js:738-749 | A firing timer keeps what is tracked. |
| `DraftInvariant.WriteTracks` | resources/js/assestme-workspace-drafts.js:636-699 | A queued draft write keeps what is tracked, whatever the save in progress is doing. |
| `DraftInvariant.MarkTracks` | resources/js/assestme-workspace-drafts.js:762-783 | Marking an attempt keeps what is tracked. |
| `DraftInvariant.CompareTracks` | resources/js/assestme-workspace-drafts.js:842-876 | A send whose marked payload is the form's keeps what is tracked. |
| `DraftInvariant.ReceiveTracks` | app/Actions/Assessments/SaveFindingDetails.php:200-240 | The server applying, replaying or refusing any request still in the network keeps what is tracked. |
| `DraftInvariant.OlderIdsAreDead` | resources/js/assestme-workspace-drafts.js:785-876 | Where what is tracked holds, no request sent under an id older than the last accepted one's can still be accepted. |
| `DraftInvariant.AnsweredIsLatest` | resources/js/assestme-workspace-drafts.js:1290-1310 | Where what is tracked holds, the request the page is waiting for, once answered, is the last request the server accepted, and the answer names a version a request under its id made. |
| `DraftInvariant.ConfirmTracks` | resources/js/assestme-workspace-drafts.js:1256-1425 | Handling a confirmation keeps what is tracked. |
| `DraftInvariant.CleanStepKeeps` | resources/js/assestme-workspace-drafts.js:636-885 | Every step of browser, network and server keeps the whole invariant, the edit included, unless it is an unfaithful send or puts back something older than the form with nothing newer on its way. |
| `DraftInvariant.InitOk` | resources/js/assestme-workspace-drafts.js:41-59 | A freshly loaded page meets the whole protocol invariant. |
| `DraftInvariant.SaveTracks` | resources/js/assestme-workspace-drafts.js:785-805 | Starting a save keeps what is tracked. |
| `DraftInvariant.SaveWriteTracks` | resources/js/assestme-workspace-drafts.js:805-815 | The save's own write, online or offline, keeps what is tracked. |
| `DraftInvariant.PutBackTracks` | resources/js/assestme-workspace-drafts.js:853-863 | Putting the captured draft back keeps what is tracked, also over a write that came between. |
| `DraftInvariant.LostTracks` | resources/js/assestme-workspace-drafts.js:877-885 | A lost reply keeps what is tracked. |
| `DraftInvariant.EnvironmentTracks` | app/Actions/Assessments/PurgeExpiredWorkspaceSaveRequests.php:12-17 | Ledger purges, other users' changes and lifecycle steps keep what is tracked. |
| `DraftInvariant.FaithfulStepTracks` | resources/js/assestme-workspace-drafts.js:636-885 | Every step keeps what is tracked, frozen ids among it, unless it is a send whose marked payload is not the form's. |
| `DraftInvariant.ConfirmSettles` | resources/js/assestme-workspace-drafts.js:1306-1375 | Where the edit was held before a confirmation, it is held or the server's afterwards. |
| `DraftGuarantees.NoEditIsLost` | resources/js/assestme-workspace-drafts.js:636-750 | In every clean run the last payload edited is in a timer, in the queue, in the stored draft, or is the server's copy; for runs that are not clean see NoEditIsLostExactly. |
| `DraftGuarantees.SentIdsStayFrozen` | resources/js/assestme-workspace-drafts.js:662-683 | In every run whose sends are faithful one request id never carries two payloads, neither among the requests sent nor in the stored draft nor in the pending attempts. |
| `DraftGuarantees.ConfirmedMeansServerHasIt` | resources/js/assestme-workspace-drafts.js:1256-1300 | When a confirmation is handled in a run of faithful sends, the server's copy is what was sent, the last request it accepted has the confirmed id, and a request under that id made the version the confirmation names. |
| `DraftGuarantees.ConfirmationKeepsNewerForm` | resources/js/assestme-workspace-drafts.js:1316-1376 | In a run of faithful sends: after a confirmation either the form equals what was sent, or a stored, unattempted draft based on the applied version holds the newer form; for every run see DraftReplies.ConfirmationKeepsNewerFormExactly. |
| `DraftGuarantees.SendKeepsIdsFrozenExactlyWhenFaithful` | resources/js/assestme-workspace-drafts.js:842-876 | A send keeps ids frozen if and only if the payload marked for its id is the form's: the check in the code compares the captured payload instead. |
| `DraftGuarantees.UnfaithfulSendHappens` | resources/js/assestme-workspace-drafts.js:821-876 | A concrete legal run in which a timer's write slips between a save's own write and its mark, and ids stop being frozen. |
| `DraftGuarantees.TwoPayloadsUnderOneId` | resources/js/assestme-workspace-drafts.js:821-876 | Continuing that run, two payloads are sent under one id. |
| `DraftGuarantees.FaithfulRunTracks` | resources/js/assestme-workspace-drafts.js:636-885 | What is tracked holds after every run of faithful sends. |
| `DraftGuarantees.IdsFrozenExactlyInFaithfulRuns` | resources/js/assestme-workspace-drafts.js:842-876 | In any run whatever, ids stay frozen in every state if and only if every send finds the marked payload in the form. |
| `DraftGuarantees.CleanRunKeeps` | resources/js/assestme-workspace-drafts.js:636-885 | The invariant holds after every clean run. |
| `DraftLosses.EditLostAfterUnfaithfulSend` | resources/js/assestme-workspace-drafts.js:1366-1374 | Continuing that run, the confirmation deletes the draft that holds the last edit. |
| `DraftLosses.StepStaysCoherent` | resources/js/assestme-workspace-drafts.js:636-885 | In any run whatever, the timer carries the form, else the last queued write does, and a save in progress has its draft with its mark. |
| `DraftLosses.ConfirmationLosesExactly` | resources/js/assestme-workspace-drafts.js:1316-1376 | A confirmation loses the last edit if and only if no timer holds it, the server has another copy, and the stored draft that is deleted holds it or the one that stays does not. |
| `DraftLosses.FaithfulConfirmationsLoseNothing` | resources/js/assestme-workspace-drafts.js:1316-1376 | After faithful sends no confirmation is of that kind. |
| `DraftLosses.StepLosesExactly` | resources/js/assestme-workspace-drafts.js:636-885 | While the edit is somewhere, a step loses it if and only if it is such a confirmation, a put-back of something older with nothing newer on its way, or the server accepting an old request while neither a timer, nor a queued write, nor the stored draft holds the form. |
| `DraftLosses.NoEditIsLostExactly` | resources/js/assestme-workspace-drafts.js:636-885 | In any run whatever, the last edit is held in every state if and only if no step of the run is one of the three losing kinds. |
| `DraftLosses.GivingUpDecides` | resources/js/assestme-workspace-drafts.js:853-863 | When the third preparation has failed, the put-back queued then will keep the edit if and only if a timer waits, or no write but the captured payload is queued behind the save. |
| `DraftLosses.GivingUpKeepsEditExactly` | resources/js/assestme-workspace-drafts.js:853-863 | From there to the put-back, through any steps: the edit survives if and only if that condition held, or the user edited again meanwhile, or the server has the form. |
| `DraftLosses.TypingThroughLoses` | resources/js/assestme-workspace-drafts.js:821-863 | For any four edits, each differing from the one before and the last also from the page's first form: typing through three preparations and once more while the save gives up ends with the last edit stored nowhere. |
| `DraftLosses.EditLostByGivingUp` | resources/js/assestme-workspace-drafts.js:853-863 | Such a run, concretely. |
| `DraftLosses.CleanReceiptsLoseNothing` | app/Actions/Assessments/IncrementAssessmentVersion.php:20-47 | While the invariant of clean runs holds, the arrival of a request, however late, is not of the third kind. |
| `DraftLosses.LateLossComesAfterAnUncleanStep` | resources/js/assestme-workspace-drafts.js:842-876 | In any run whatever, an old request that loses the edit when it arrives comes after an unclean step. |
| `DraftLosses.LateRequestLoses` | resources/js/assestme-workspace-drafts.js:853-885 | The third kind happens: a save whose reply is lost, then typing through a second save back to what the server shows, then the first request arriving; for any such payloads. |
| `DraftLosses.EditLostByALateRequest` | resources/js/assestme-workspace-drafts.js:853-885 | Such a run, concretely. |
| `DraftReplies.ConfirmationKeepsNewerFormExactly` | resources/js/assestme-workspace-drafts.js:1316-1376 | At each confirmation of any run whatever, that holds if and only if the form has not changed since it was sent, or the stored draft has another request id or does not hold the form. |
| `DraftReplies.NewerFormDroppedAfterUnfaithfulSend` | resources/js/assestme-workspace-drafts.js:1366-1374 | It does not hold in the run that goes on from an unfaithful send. |
| `DraftReplies.SaveSends` | resources/js/assestme-workspace-drafts.js:785-876 | A save begun at any time, behind any queue, sends the form; its id is that of the draft's last attempt if and only if the stored draft still has it and neither the draft nor a queued write holds anything but the form. |
| `DraftReplies.RetryAfterLostReply` | resources/js/assestme-workspace-drafts.js:654-683 | After a lost reply the next save sends the form, whatever was edited, written or queued meanwhile; under the id of the lost request if and only if the draft still has it and neither the draft nor a queued write holds anything but the form. |
| `DraftReplies.RetryKeepsIdExactly` | resources/js/assestme-workspace-drafts.js:654-683 | So it is at every lost reply of any run whatever. |
| `DraftReplies.RetryIsAnsweredExactly` | app/Actions/Assessments/SaveAssessmentWorkspace.php:129-168 | At every lost reply of any run whatever, the ledger decides on the retry, without a change, if and only if the retry keeps the id and the ledger has it: the recorded version, or a refusal if it was recorded for another payload; otherwise it is a new request, refused unless the version it expects is the server's. |
| `DraftReplies.KeptIdGetsItsVersion` | app/Actions/Assessments/SaveAssessmentWorkspace.php:129-168 | After faithful sends, the retry of a request in the ledger gets the version recorded for it if and only if it keeps the id. |
| `DraftReplies.TypedBackIsRefused` | resources/js/assestme-workspace-drafts.js:662-668 | A clean run, for any two texts: something else is typed, written, and typed back while the save waits; its reply is lost, and the retry of what the server already holds goes out under another id and is refused. |
| `DraftReplies.SlowWriteIsRefused` | resources/js/assestme-workspace-drafts.js:662-668 | The same in a clean run with no edit since the mark: an older write runs after it. |
| `DraftProgress.ConfirmationMovesVersion` | app/Filament/Resources/Assessments/Pages/WorkspaceAssessment.php:668 | In any run whatever, a confirmation leaves the page at the version it names, and a draft that is kept unattempted and based on it; the attempt is forgotten, and the count of edits starts again exactly when nothing newer is left. |
| `DraftProgress.NextSaveIsApplied` | resources/js/assestme-workspace-drafts.js:202 | In any run whatever: after a confirmation that names the version of an open server, the next edit and save is applied as the version after it, and the server's copy is what was typed. |
| `DraftProgress.SavesInARow` | resources/js/assestme-workspace-drafts.js:785-876 | From a fresh page any number of payloads, edited, saved and confirmed one after the other, are each applied, one version each, and the last is the server's copy. |
| `DraftProgress.FreshPageIsAtRest` | resources/js/assestme-workspace-drafts.js:41-59 | A fresh page is where such a series can start. |
| `DraftProgress.OfflineSaveIsStored` | resources/js/assestme-workspace-drafts.js:813-816 | A save without a connection, behind any queue, stores the form, sends nothing and marks nothing. |
| `DraftProgress.AttemptsStaySent` | resources/js/assestme-workspace-drafts.js:770-785 | In any run whatever, pending attempts are of requests that were sent, or of the one being prepared. |
| `Canonical.NormalizeKeepsMeaning` | resources/js/assestme-workspace-drafts.js:136-149 | Normalising changes nothing but the order of object keys. |
| `Canonical.NormalFormsDecideMeaning` | resources/js/assestme-workspace-drafts.js:136-149 | Two JSON values have the same normal form if and only if they differ in key order only. |
| `Canonical.NormalizeIsIdempotent` | resources/js/assestme-workspace-drafts.js:136-149 | Normalising twice is normalising once. |
| `Canonical.ReorderingForgetsOrder` | resources/js/assestme-workspace-drafts.js:144-148 | Sorting the keys and rebuilding the object depends on the entries only, although an object puts index-like keys first. |
| `Canonical.LargestIndex` | resources/js/assestme-workspace-drafts.js:136-149 | Array indices are numerals without leading zeros up to 4294967294. |
| `JsonText.QuotedIsPrefixFree` | resources/js/assestme-workspace-drafts.js:151-153 | A quoted string ends where its text says, so it determines the string. |
| `JsonText.TextIsInjective` | resources/js/assestme-workspace-drafts.js:151-153 | Two JSON values have the same text if and only if they are equal. |
| `DraftPayload.PayloadIs` | resources/js/assestme-workspace-drafts.js:121-134 | A payload holds exactly the picked fields of its kind, a finding's solutions as a list. |
| `DraftPayload.SamePayloadText` | resources/js/assestme-workspace-drafts.js:121-153 | Two states have the same payload text if and only if their picked fields agree up to key order, keyed and listed solutions being the same. |
| `DraftPayload.PayloadOfPayload` | resources/js/assestme-workspace-drafts.js:613-613 | A stored payload is compared like the state it was taken from. |
| `DraftPayload.ValuesMean` | resources/js/assestme-workspace-drafts.js:118-135 | The values of a list are its items, of an object those of its properties in their order, of a text its characters, of anything else none. |
| `ObjectOrder.RelistedKeepsOrderExactly` | resources/js/assestme-workspace-drafts.js:1104-1109 | An object built from entries lists each of them once with index-like keys first and ascending, so in the given order if and only if that was such an order. |
| `SolutionAlignment.Find` | resources/js/assestme-workspace-drafts.js:1079-1090 | Finds the first unused live solution with the wanted identity. |
| `SolutionAlignment.PairUp` | resources/js/assestme-workspace-drafts.js:1076-1098 | The loop pairs each draft solution with the first live one left that has its identity, and leaves the others. |
| `SolutionAlignment.AlignSolutionPayload` | resources/js/assestme-workspace-drafts.js:1068-1110 | The loops compute the alignment the lemmas are about, a keyed result as Object.fromEntries lists it. |
| `SolutionAlignment.CompatibleExactly` | resources/js/assestme-workspace-drafts.js:1068-1103 | Compatible is reported if and only if both sides have the same identities equally often, no identity counting as one; otherwise the live value is returned unchanged. |
| `SolutionAlignment.PartnerIsABijection` | resources/js/assestme-workspace-drafts.js:1076-1099 | Every live solution is the partner of exactly one draft solution. |
| `SolutionAlignment.PartnersKeepOrderWithinAnIdentity` | resources/js/assestme-workspace-drafts.js:1076-1099 | Among solutions of one identity the draft order is the live order, which fixes the pairing. |
| `SolutionAlignment.MergeKeepsIdentity` | resources/js/assestme-workspace-drafts.js:1057-1066 | Overlaying the draft's fields on its partner keeps the identity. |
| `SolutionAlignment.AlignedKeepsIdentityAndOrder` | resources/js/assestme-workspace-drafts.js:1097-1110 | A list holds the draft's solutions in the draft's order, each merged with its partner and with the identity it had; a keyed result holds the same entries, each once. |
| `SolutionAlignment.AlignedKeepsTheLiveKeys` | resources/js/assestme-workspace-drafts.js:1094-1110 | A keyed result uses the live keys, each as often. |
| `SolutionAlignment.AlignedIsTheDraft` | resources/js/assestme-workspace-drafts.js:1097-1110 | Where live solutions have no fields of their own, the result holds exactly the draft's solutions, for a list or when the partner keys are in object order also in the draft's order. |
| `SolutionAlignment.RestoringAgainChangesNothing` | resources/js/assestme-workspace-drafts.js:1112-1123 | Restoring the same draft a second time changes nothing, reordered keys included. |
| `SolutionAlignment.KeyedOrderIsTheDraftsExactly` | resources/js/assestme-workspace-drafts.js:1104-1109 | A keyed result has the draft's order if and only if the index-like keys of the draft's partners come first and ascend. |
| `SolutionAlignment.RowKeysForgetTheDraftsOrder` | resources/js/assestme-workspace-drafts.js:1104-1109 | Two rows under the keys 0 and 1 that the draft lists the other way round come back in the live order. |
| `SolutionAlignment.PairedByRank` | resources/js/assestme-workspace-drafts.js:1076-1099 | The n-th draft solution of an identity is paired with the n-th live one of it. |
| `SolutionAlignment.IdentityMeans` | resources/js/assestme-workspace-drafts.js:1057-1066 | The id identifies a solution that has one, the external key one without, and nothing any other. |
| `SolutionAlignment.AlignKeepsShape` | resources/js/assestme-workspace-drafts.js:1106-1111 | A compatible result is a list exactly when the live solutions are, and an object otherwise. |
| `Findings.NoErrorsMeansReportReady` | app/Actions/Assessments/ValidateAssessmentCompletion.php:47-90 | The validator stays silent about a finding if and only if the finding is fit for a report, said without messages. |
| `Findings.DuplicateStaysReportReady` | app/Actions/Assessments/DuplicateFinding.php:40-70 | A duplicate of a report-ready finding is report-ready, its recommended solution being the copy of the source's. |
| `Findings.CopyRecommendsTheSame` | app/Actions/Assessments/CopyTemplateToAssessment.php:89-115 | A copied template recommends the copy of the one solution the template recommends. |
| `Findings.StatusMachine` | app/Actions/Assessments/TransitionFindingStatus.php:42-52 | Which status leads where: none to itself, each back to Open in one step and reached from it in two, Resolved from Planned and InProgress alone. |
| `Findings.ErrorsSayWhatIsMissing` | app/Actions/Assessments/ValidateAssessmentCompletion.php:47-90 | All messages are given at once, each exactly for its reason. |
| `Findings.LimitsShrink` | app/Services/Reporting/EditorialLimits.php:1-122 | The more solutions a finding has, the less room each of its texts has. |
| `FindingOrder.GapFreeCoversAll` | app/Actions/Assessments/ReorderFindings.php:93-112 | Gap-free numbers are exactly 1 to n. |
| `FindingOrder.MaxOrderIsCount` | app/Actions/Assessments/CreateBlankFinding.php:35-40 | In gap-free numbering the greatest number is the number of findings. |
| `FindingOrder.AppendKeepsGapFree` | app/Actions/Assessments/CreateBlankFinding.php:35-40 | Appending at the maximum plus one keeps the numbering gap-free. |
| `FindingOrder.CompactedIsGapFree` | app/Actions/Assessments/DeleteFinding.php:33-38 | Renumbering after a deletion closes the gap and keeps the relative order. |
| `FindingOrder.ReorderedIsGapFree` | app/Actions/Assessments/ReorderFindings.php:93-112 | An accepted reorder realises exactly the requested permutation, without gaps. |
| `WorkspaceStore.LargestOrder` | app/Actions/Assessments/CreateBlankFinding.php:35-40 | The greatest sort order, 0 without findings. |
| `WorkspaceStore.OrderedIds` | app/Actions/Assessments/DeleteFinding.php:36-38 | The finding ids in the order of their numbers, each once. |
| `WorkspaceStore.PositionIsRank` | app/Actions/Assessments/DeleteFinding.php:36-38 | In such a listing the position of a finding is the number of findings before it. |
| `WorkspaceStore.AssessmentStore.CreateAssessment` | app/Actions/Assessments/CreateAssessment.php:62-73 | A new draft at version 0, other assessments unchanged: the step of the world that runs start with. |
| `WorkspaceStore.AssessmentStore.IncrementAssessmentVersion` | app/Actions/Assessments/IncrementAssessmentVersion.php:20-47 | The compare-and-set: one version step for a draft at the expected version, else nothing changes and the reason is given. |
| `WorkspaceStore.AssessmentStore.SaveAssessmentWorkspace` | app/Actions/Assessments/SaveAssessmentWorkspace.php:31-169 | One workspace save: refused, replayed or applied, as the world's transition says. |
| `WorkspaceStore.AssessmentStore.SaveFindingDetails` | app/Actions/Assessments/SaveFindingDetails.php:54-145 | One finding save, its evidence rows aside: refused, replayed or applied, as the world's transition says. |
| `WorkspaceStore.AssessmentStore.WriteOrder` | app/Actions/Assessments/ReorderFindings.php:102-107 | The update loop gives position i the number i + 1. |
| `WorkspaceStore.AssessmentStore.ReorderFindings` | app/Actions/Assessments/ReorderFindings.php:24-129 | One reorder: refused, replayed or applied, as the world's transition says. |
| `WorkspaceStore.AssessmentStore.CreateBlankFinding` | app/Actions/Assessments/CreateBlankFinding.php:20-46 | Appends a blank finding to a draft. |
| `WorkspaceStore.AssessmentStore.CopySolutions` | app/Actions/Assessments/DuplicateFinding.php:53-66 | The copying loop renumbers the solutions and maps each source id to its copy. |
| `WorkspaceStore.AssessmentStore.DuplicateFinding` | app/Actions/Assessments/DuplicateFinding.php:21-72 | Appends a fresh open copy with its own solutions. |
| `WorkspaceStore.AssessmentStore.CopyTemplateSolutions` | app/Actions/Assessments/CopyTemplateToAssessment.php:91-113 | The copying loop renumbers the solutions and remembers the recommended one. |
| `WorkspaceStore.AssessmentStore.CopyTemplateToAssessment` | app/Actions/Assessments/CopyTemplateToAssessment.php:26-125 | Appends the copy of a template, or refuses one that cannot be copied. |
| `WorkspaceStore.AssessmentStore.DeleteFinding` | app/Actions/Assessments/DeleteFinding.php:18-43 | Removes the finding and renumbers the rest. |
| `WorkspaceStore.AssessmentStore.Renumber` | app/Actions/Assessments/DeleteFinding.php:36-38 | The loop numbers every finding by its rank. |
| `WorkspaceStore.AssessmentStore.TransitionFindingStatus` | app/Actions/Assessments/TransitionFindingStatus.php:15-52 | Moves a finding along the status machine, in drafts only; resolved needs an implemented solution or notes. |
| `WorkspaceStore.AssessmentStore.CompletionErrors` | app/Actions/Assessments/ValidateAssessmentCompletion.php:18-45 | The errors are empty if and only if every included finding passes the validator. |
| `WorkspaceStore.AssessmentStore.CompleteAssessment` | app/Actions/Assessments/CompleteAssessment.php:17-38 | Draft to Completed with a timestamp and a version step, if the validator passes. |
| `WorkspaceStore.AssessmentStore.ArchiveAssessment` | app/Actions/Assessments/ArchiveAssessment.php:15-35 | Draft or Completed to Archived, keeping the completion time. |
| `WorkspaceStore.AssessmentStore.ReopenAssessment` | app/Actions/Assessments/ReopenAssessment.php:15-34 | Back to Draft, clearing the completion time. |
| `WorkspaceStore.AssessmentStore.PurgeExpired` | app/Actions/Assessments/PurgeExpiredWorkspaceSaveRequests.php:12-17 | Deletes exactly the ledger rows older than the cutoff and counts them. |
| `WorkspaceGuarantees.EffectKeeps` | app/Actions/Assessments/SaveAssessmentPatch.php:21-59 | An applied save keeps the assessment valid, its set of findings, and moves its version by one. |
| `WorkspaceGuarantees.MoveKeeps` | app/Actions/Assessments/CompleteAssessment.php:20-38 | Completing, archiving and reopening keep the lifecycle invariant and move the version by one. |
| `WorkspaceGuarantees.SubmitKeeps` | app/Actions/Assessments/SaveFindingDetails.php:54-91 | Every save request, applied or not, keeps all assessments and the ledger valid. |
| `WorkspaceGuarantees.ActKeeps` | app/Actions/Assessments/DeleteFinding.php:18-43 | So does every structural, status and lifecycle action. |
| `WorkspaceGuarantees.RunKeepsWorld` | app/Actions/Assessments/SaveFindingDetails.php:200-240 | Over any run of saves, reorders, structural and lifecycle actions and purges: every ledger row records expected + 1, at most the current version, and no two rows of an assessment share a version. |
| `WorkspaceGuarantees.CompletedStaysValid` | app/Actions/Assessments/ValidateAssessmentCompletion.php:18-90 | After any run a completion time implies Completed or Archived, and that every included finding is fit for a report; for status changes outside the lock see StatusTransition.RacesKeepWorldExactly. |
| `WorkspaceGuarantees.NumberingStaysGapFree` | app/Actions/Assessments/ReorderFindings.php:93-112 | After any run of create, copy, duplicate, delete and reorder the sort orders are exactly 1 to n. |
| `WorkspaceGuarantees.VersionsOnlyGrow` | app/Actions/Assessments/IncrementAssessmentVersion.php:20-47 | Versions never go back along a run. |
| `WorkspaceGuarantees.AtMostOnce` | app/Actions/Assessments/SaveFindingDetails.php:120-145 | In any run, ledger purges included, two requests applied to one assessment expected different versions, the later one the newer; so a fixed request is applied at most once. |
| `WorkspaceGuarantees.RepeatChangesNothing` | app/Actions/Assessments/SaveAssessmentWorkspace.php:129-168 | Once applied, a request that comes again after any run changes nothing: while a row holds its id the recorded version comes back or it is refused; after a purge it can only be refused. |
| `WorkspaceGuarantees.StaleRequestChangesNothing` | app/Actions/Assessments/SaveAssessmentPatch.php:21-59 | A request that expects a version already passed changes nothing. |
| `WorkspaceGuarantees.ReplayReturnsAppliedVersion` | app/Actions/Assessments/ReorderFindings.php:64-80 | Right after it is applied, a repeated request is answered with the version it got. |
| `WorkspaceGuarantees.ReusedIdIsRefused` | app/Actions/Assessments/SaveAssessmentWorkspace.php:129-146 | An id recorded for another payload, operation or assessment is refused and changes nothing. |
| `WorkspaceGuarantees.CreateKeeps` | app/Actions/Assessments/CreateAssessment.php:62-73 | A new assessment keeps the world valid. |
| `WorkspaceGuarantees.ReachableWorldsAreOk` | app/Actions/Assessments/CreateAssessment.php:62-73 | From the empty store on, every world any run reaches is valid. |
| `WorkspaceGuarantees.AppendKeeps` | app/Actions/Assessments/DuplicateFinding.php:40-70 | Creating, copying and duplicating keep the world valid and versions growing. |
| `WorkspaceGuarantees.RemoveKeeps` | app/Actions/Assessments/DeleteFinding.php:18-43 | Deleting a finding keeps the world valid and versions growing. |
| `WorkspaceGuarantees.StatusKeeps` | app/Actions/Assessments/TransitionFindingStatus.php:15-39 | A status change keeps the world valid: it needs a draft, which has no completion time. |
| `WorkspaceGuarantees.TransitionKeeps` | app/Actions/Assessments/ArchiveAssessment.php:15-35 | A lifecycle step keeps the world valid and versions growing. |
| `WorkspaceGuarantees.AppliedMovesVersion` | app/Actions/Assessments/IncrementAssessmentVersion.php:20-47 | An applied request found the version it expected and an unused id, leaves the version one higher, and adds exactly its row to the ledger. |
| `WorkspaceEffects.SaveIsAppliedExactly` | app/Actions/Assessments/IncrementAssessmentVersion.php:20-47 | A save request is applied exactly when its assessment is a draft at the expected version, its id is new, it is valid, and its payload fits: the finding exists and keeps what it refers to, the order lists every finding once. |
| `WorkspaceEffects.AppliedSaveStores` | app/Actions/Assessments/SaveAssessmentPatch.php:20-36 | An applied save stores the submitted text, or the submitted finding, or the number i + 1 at the i-th listed finding, and leaves the other two, status, completion time and every other assessment as they were. |
| `WorkspaceEffects.SaveIsReplayedExactly` | app/Actions/Assessments/SaveAssessmentWorkspace.php:129-168 | A save is answered from the ledger exactly when its id has a row of the same assessment, payload and (but for a workspace save) operation, with the version of that row; a reorder's must not be 0. |
| `WorkspaceEffects.UnappliedSaveChangesNothing` | app/Actions/Assessments/SaveAssessmentWorkspace.php:31-45 | A save that is refused or replayed changes nothing. |
| `WorkspaceEffects.CreateBlankAdds` | app/Actions/Assessments/CreateBlankFinding.php:17-42 | Applied exactly in a draft at the expected version; it adds a blank, open finding meant for the report, last in the order, and changes nothing else of the assessment but its version. |
| `WorkspaceEffects.DuplicateAdds` | app/Actions/Assessments/DuplicateFinding.php:38-70 | Applied exactly for a finding of a draft at the expected version; it adds an open copy, last in the order, with every text and choice of the source, its solutions under new ids, the copy of its recommended one, and no resolution. |
| `WorkspaceEffects.CopyTemplateAdds` | app/Actions/Assessments/CopyTemplateToAssessment.php:27-118 | Applied exactly for an enabled template with one recommended solution and texts within the limits, in a draft at the expected version; it adds an open finding with the template's texts, defaults and solutions. |
| `WorkspaceEffects.DeleteRemoves` | app/Actions/Assessments/DeleteFinding.php:18-43 | Applied exactly for a finding of a draft at the expected version; the finding goes, the others are as they were and in the order they had. |
| `WorkspaceEffects.ChangeStatusChanges` | app/Actions/Assessments/TransitionFindingStatus.php:17-38 | Applied exactly when the target follows the status in a draft, with a resolution where it is Resolved; that status is set and nothing else. |
| `WorkspaceEffects.LifecycleMovesExactly` | app/Actions/Assessments/CompleteAssessment.php:19-38 | Completing needs a draft whose included findings are fit for a report and stores the given time; archiving needs an assessment not archived and keeps the time; reopening removes it; findings, order and text stay. |
| `WorkspaceEffects.ThereAndBack` | app/Actions/Assessments/ReopenAssessment.php:17-33 | Completed, archived and reopened, an assessment is the draft it was, three versions on. |
| `WorkspaceEffects.ActionChangesOne` | app/Actions/Assessments/IncrementAssessmentVersion.php:20-47 | Every action changes one assessment and no ledger row, or nothing at all. |
| `WorkspaceEffects.CreateAdds` | app/Actions/Assessments/CreateAssessment.php:62-73 | A new assessment is a draft at version 0 with the given text and no findings, beside the others as they were. |
| `WorkspaceEffects.PurgeRemovesExactly` | app/Actions/Assessments/PurgeExpiredWorkspaceSaveRequests.php:12-17 | A purge removes exactly the rows older than the cutoff. |
| `StatusTransition.UndisturbedIsOneStep` | app/Actions/Assessments/TransitionFindingStatus.php:17-35 | A read and a write with nothing between them are the one step that a change under its caller's lock is; the read passes if and only if that step applies. |
| `StatusTransition.WriteKeepsExactly` | app/Actions/Assessments/TransitionFindingStatus.php:33-36 | Whatever happened since the read, the write keeps every assessment valid if and only if it does not resolve an included finding, without implemented solution or notes, of an assessment completed meanwhile. |
| `StatusTransition.RacesKeepWorldExactly` | app/Actions/Assessments/TransitionFindingStatus.php:17-38 | From the empty store, with any number of changes that read and write at different times among all other actions: every state is valid if and only if no write is of that kind. |
| `StatusTransition.OvertakenOnlyBy` | app/Actions/Assessments/TransitionFindingStatus.php:20-31 | A change that passed its checks meets that fate only after an applied save that clears the finding's resolution and, after it, a completion. |
| `StatusTransition.ChangeIsOvertaken` | app/Actions/Assessments/TransitionFindingStatus.php:17-35 | And it happens so in every draft fit to be completed, to any included finding that only its notes resolve. |
| `PrivatePaths.NormalizedStaysInside` | app/Actions/Storage/DeleteEntityAccordingToPolicy.php:260-270 | A normalised path names something below the private root and cannot climb out of it. |
| `Deletion.StepConserves` | app/Actions/Storage/DeleteEntityAccordingToPolicy.php:46-107 | Every legal step of an operation or of a cleanup run keeps the conservation of files. |
| `Deletion.FilesAreConserved` | app/Actions/Storage/DeleteEntityAccordingToPolicy.php:46-107 | In every reachable state: while the row exists each manifest file is unchanged at exactly one of source and trash; Restored means everything as before; Cleaned means row and trash gone. |
| `Deletion.HistoryIsConserved` | app/Actions/Storage/DeleteEntityAccordingToPolicy.php:46-107 | The same for every state an operation passes through, so for a crash between any two steps. |
| `Deletion.StagedPrefixIsUnique` | app/Actions/Storage/DeleteEntityAccordingToPolicy.php:184-215 | A staged prefix determines the file map, and the empty prefix is the initial one. |
| `Deletion.UndoingTheLast` | app/Actions/Storage/DeleteEntityAccordingToPolicy.php:198-215 | Undoing the last staged move gives the shorter prefix, so undoing a prefix restores the initial file map. |
| `Deletion.StartIsConserved` | app/Actions/Storage/DeleteEntityAccordingToPolicy.php:46-58 | The start of an operation conserves files. |
| `Deletion.StagingOneMore` | app/Actions/Storage/DeleteEntityAccordingToPolicy.php:184-196 | Moving the next file extends the staged prefix by one. |
| `Deletion.StagedThenUndone` | app/Actions/Storage/DeleteEntityAccordingToPolicy.php:184-215 | Moving one more file and moving it back gives the same files. |
| `DeletionSaga.DeletionWorld.BuildManifest` | app/Actions/Storage/DeleteEntityAccordingToPolicy.php:146-182 | A manifest is built if and only if the paths are well-formed, different, and existing regular files that can be hashed; then it lists them with distinct trash paths. |
| `DeletionSaga.DeletionWorld.StageFiles` | app/Actions/Storage/DeleteEntityAccordingToPolicy.php:184-196 | Moves files to the trash up to the first that cannot be moved: exactly those before it are staged, and it succeeds if and only if there is none. |
| `DeletionSaga.DeletionWorld.RestoreFiles` | app/Actions/Storage/DeleteEntityAccordingToPolicy.php:198-215 | Moves files back from the last staged one to the last that cannot be moved: exactly the files up to that one stay in the trash, and it succeeds if and only if there is none, with every file back. |
| `DeletionSaga.DeletionWorld.DeleteTrash` | app/Actions/Storage/CleanupDeletionOperations.php:47-70 | Removes exactly the trash files that can be removed, and reports success if and only if the trash is empty. |
| `DeletionSaga.DeletionWorld.CleanUp` | app/Actions/Storage/CleanupDeletionOperations.php:18-70 | A cleanup run leaves uncommitted and cleaned operations alone; a committed one becomes Cleaned if and only if its path is valid, its trash is gone and the status can be written, and CleanupFailed otherwise if that can be written. |
| `DeletionSaga.DeletionWorld.Compensate` | app/Actions/Storage/DeleteEntityAccordingToPolicy.php:217-258 | Restores everything and records Restored if and only if every staged file can be moved back and the status can be written; otherwise the row and the staged status stay, with exactly the files up to the last unmovable one in the trash. |
| `DeletionSaga.DeletionWorld.CommitAndFinish` | app/Actions/Storage/DeleteEntityAccordingToPolicy.php:71-107 | Once the row is deleted nothing is undone; the outcome is a final status if and only if both statuses can be written, and that is Cleaned where the trash can be removed. |
| `DeletionSaga.DeletionWorld.PermanentlyDelete` | app/Actions/Storage/DeleteEntityAccordingToPolicy.php:46-107 | The whole operation, given what fails: each outcome with its exact condition and what it leaves; without faults a deletable entity is Finished(Cleaned), its row gone, and the files are those before without its own. |
| `DeletionSaga.DeletionWorld.StageFile` | app/Actions/Storage/DeleteEntityAccordingToPolicy.php:186-194 | Moves one file to the trash. |
| `DeletionSaga.DeletionWorld.TryCleanUp` | app/Actions/Storage/CleanupDeletionOperations.php:47-61 | The same for its try block: files and status as they are after it, and exactly when it succeeds. |
| `DeletionSaga.DeletionWorld.OthersCleanUp` | app/Actions/Storage/CleanupDeletionOperations.php:18-45 | Any number of cleanup runs in between, with any faults, only empties the trash. |
| `DeletionSaga.DeletionWorld.FinishCommitted` | app/Actions/Storage/DeleteEntityAccordingToPolicy.php:90-107 | The same from the committed status on, with cleanup runs around the removal of the trash. |
| `DeletionSaga.DeletionWorld.StageDeleteCommit` | app/Actions/Storage/DeleteEntityAccordingToPolicy.php:60-107 | Given what fails, each outcome if and only if: the row goes exactly when every file can be moved and the row deleted; else everything is undone exactly when what was moved can be moved back and recorded; and what each outcome means for row, files and status. |
| `DeletionSaga.EntriesMakeManifest` | app/Actions/Storage/DeleteEntityAccordingToPolicy.php:146-182 | The collected entries have existing sources, free trash paths, and no path twice. |
| `Restore.RestoreWorld.Import` | app/Actions/Backups/RestoreBackup.php:145-156 | Succeeds if and only if neither the import nor the reconnection fails; an import that does not fail leaves the database of the payload. |
| `Restore.RestoreWorld.CreateSafetyBackup` | app/Actions/Backups/RestoreBackup.php:136-143 | A safety backup that does not fail holds the database and the storage tree as they are. |
| `Restore.RestoreWorld.Mutate` | app/Actions/Backups/RestoreBackup.php:66-93 | Given what fails: succeeds exactly when nothing of it does, and then database and storage are the archive's; the flags say exactly what has been moved. |
| `Restore.RestoreWorld.ReinstatePrivateStorage` | app/Actions/Backups/RestoreBackup.php:158-177 | Succeeds exactly when the installed storage can be removed and the moved one put back; then it is back, or there is none where there was none; failure keeps the copy moved aside. |
| `Restore.RestoreWorld.Compensate` | app/Actions/Backups/RestoreBackup.php:94-126 | Succeeds exactly when none of its parts that are needed fails, and then both halves equal their values at entry; in any case an intact copy of the original storage remains. |
| `Restore.RestoreWorld.RestoreLocked` | app/Actions/Backups/RestoreBackup.php:46-134 | Given what fails, exactly which outcome; without faults it returns, with the archive's database and storage; "safety backup was reinstated" means both as at entry; on the double failure an intact copy of the original storage remains. |
| `Restore.RestoreWorld.Extract` | app/Actions/Backups/VerifyBackup.php:22-49 | A successful extraction gives the archive's payload and tree. |
| `Restore.RestoreWorld.MoveStorageAside` | app/Actions/Backups/RestoreBackup.php:75-84 | Moves a private storage that exists aside unless that fails; otherwise everything stays in place. |
| `Restore.RestoreWorld.InstallStorage` | app/Actions/Backups/RestoreBackup.php:84-90 | Success puts the extracted tree at the private path. |
| `Restore.RestoreWorld.RestoreBody` | app/Actions/Backups/RestoreBackup.php:46-126 | The same without the removal of the working directory. |
| `EvidenceQuota.StepKeepsQuota` | app/Actions/Evidence/PrepareEvidenceFiles.php:32-57 | Every step keeps the quota, and every pending save that could still commit would keep it too. |
| `EvidenceQuota.QuotaHolds` | app/Actions/Assessments/SaveFindingDetails.php:71-90 | Over any interleaving of saves, uploads, removals and other changes the committed bytes never exceed the limit, if expected versions were issued by the server. |
| `EvidenceQuota.FutureVersionBreaksQuota` | app/Actions/Evidence/PrepareEvidenceFiles.php:32-57 | With an expected version from the future the quota can be exceeded. |
| `EvidenceQuota.QuotaHoldsExactlyForIssuedVersions` | app/Actions/Assessments/SaveFindingDetails.php:200-223 | A prepared non-empty save can never break the quota, in any run, if and only if its expected version was issued by the server. |
| `EvidenceQuota.FilesAreAccountedForExactly` | app/Actions/Evidence/PrepareEvidenceFiles.php:58-104 | After a run each file on disk belongs to a committed row or a pending save or was logged as undeletable, if and only if no failed put of the run left a file behind. |
| `EvidenceQuota.StepKeepsOrphan` | app/Actions/Evidence/PrepareEvidenceFiles.php:68-86 | A file left by a failed put is never removed, logged or referred to again. |
| `EvidenceQuota.OneFailedPut` | app/Actions/Evidence/PrepareEvidenceFiles.php:68-86 | The shortest run that leaves a file nobody accounts for. |
| `EvidenceQuota.StepKeepsFiles` | app/Actions/Evidence/PrepareEvidenceFiles.php:58-104 | Every step keeps the account of written files, unless it is a failed put that left one. |
| `EvidenceQuota.CommitKeepsFiles` | app/Actions/Assessments/SaveFindingDetails.php:200-240 | A commit turns the files of a pending save into rows. |
| `EvidenceQuota.AbandonKeepsFiles` | app/Actions/Assessments/SaveFindingDetails.php:86-91 | A failed save removes its files, or logs what it cannot remove. |
| `EvidenceQuota.StoreKeepsFiles` | app/Actions/Evidence/StoreEvidence.php:71-97 | The second entry point keeps the account of written files. |
| `EvidencePreparation.PrivateDisk.Check` | app/Actions/Evidence/PrepareEvidenceFiles.php:32-56 | The loop refuses a batch if and only if a file is not genuine, is a duplicate, or the total exceeds the quota, and names the first file's fault before the total. |
| `EvidencePreparation.PrivateDisk.WriteAll` | app/Actions/Evidence/PrepareEvidenceFiles.php:57-87 | Given which puts fail: all files are written under new paths exactly when none does; else those before the first are removed, or logged where they cannot be, and only its own part, if it left one, is left unlogged. |
| `EvidencePreparation.PrivateDisk.Compensate` | app/Actions/Evidence/PrepareEvidenceFiles.php:90-104 | Removes exactly the given files that can be deleted, and logs the others. |
| `EvidencePreparation.PrivateDisk.Handle` | app/Actions/Evidence/PrepareEvidenceFiles.php:26-88 | Succeeds exactly for an empty batch and an acceptable one whose puts succeed, which it writes within the quota; a refusal changes nothing; a failed put leaves exactly what could not be deleted, logged, and its own part, which is not. |
| `EvidencePreparation.PrivateDisk.Put` | app/Actions/Evidence/PrepareEvidenceFiles.php:72-79 | Leaves the file if it succeeds, and a part of it where the failure is of that kind. |
| `EvidencePreparation.UndoneIsAStep` | app/Actions/Evidence/PrepareEvidenceFiles.php:57-104 | What a failed batch does to disk and log is the failed preparation of the runs of EvidenceQuota. |
| `Retention.BackupDirectory.SortByNameDescending` | app/Actions/Backups/PruneBackups.php:21-27 | Lists the backups newest name first, each once. |
| `Retention.GreedyChoice` | app/Actions/Backups/PruneBackups.php:48-61 | The pass takes a file for a kind if and only if it is the newest of one of the newest days, weeks or months within the limit. |
| `Retention.BackupDirectory.Choose` | app/Actions/Backups/PruneBackups.php:29-62 | The one-pass greedy loop keeps exactly the files the declarative rule keeps. |
| `Retention.BackupDirectory.Prune` | app/Actions/Backups/PruneBackups.php:15-73 | What is left is exactly what the rule keeps and what could not be deleted; with every deletion possible, exactly what the rule keeps; the files deleted are counted. |
| `Retention.EachRecentKeyKeepsOneFile` | app/Actions/Backups/PruneBackups.php:37-62 | Each of the newest days, weeks and months keeps exactly one file for itself, its newest. |
| `Retention.KeepsAtMostTheLimits` | app/Actions/Backups/PruneBackups.php:29-62 | At most D + W + M files are kept. |
| `Retention.NewestIsKept` | app/Actions/Backups/PruneBackups.php:48-61 | The newest dated backup is kept when any limit is positive. |
| `Retention.KeepSetIsStable` | app/Actions/Backups/PruneBackups.php:64-70 | Whatever part of the superseded files is gone, the rule keeps the same files. |
| `Retention.SecondPruneKeepsAll` | app/Actions/Backups/PruneBackups.php:15-73 | A second prune deletes nothing. |
| `Retention.BackupDirectory.Take` | app/Actions/Backups/PruneBackups.php:48-51 | One of the three tests of the loop, with its counter, decides as the rule does. |
| `Retention.BackupDirectory.DeleteSuperseded` | app/Actions/Backups/PruneBackups.php:64-72 | Deletes exactly the files outside the keep set that can be deleted, and counts them. |
| `Retention.KeptExactly` | app/Actions/Backups/PruneBackups.php:29-62 | A dated file is kept exactly when it is the newest of a day with fewer later days than the daily limit, or so for its week or its month. |
| `Retention.PruningAgainChangesNothing` | app/Actions/Backups/PruneBackups.php:15-73 | After a prune, whatever it could not delete, the same prune leaves the same files. |
| `BackupManifest.ManifestRoundTrip` | app/Data/Backups/BackupManifest.php:37-105 | A printed manifest parses back to itself if and only if its header and entries are well-formed; only schemas 1 and 2 print. |
| `BackupManifest.ParsedIsStable` | app/Data/Backups/BackupManifest.php:63-182 | Whatever parses is well-formed and survives printing and parsing again. |
| `BackupManifest.DatabaseRoundTrip` | app/Data/Backups/BackupManifest.php:121-153 | A database entry parses back if and only if driver, product, format, path and version fit together. |
| `BackupArchive.CopyPrivateStorage` | app/Actions/Backups/CreateBackup.php:120-142 | Succeeds exactly when no private file is a link and each can be copied; then there is a copy of every file, in order, under its trimmed path below storage/private; else it fails for the first that is. |
| `BackupArchive.AddFiles` | app/Actions/Backups/CreateBackup.php:220-223 | The loop adds every staged file under its relative path. |
| `BackupArchive.EntryPaths` | app/Actions/Backups/CreateBackup.php:176-195 | The manifest lists the relative path of every staged file, as often as it occurs, sorted by byte order. |
| `BackupArchive.CreatedArchiveIsAccepted` | app/Actions/Backups/CreateBackup.php:176-238 | An archive built from a staging directory, backslashes in names included, verifies with its own manifest if and only if no header field is empty or malformed and the archived paths are distinct without empty or climbing segments. |
| `BackupArchive.VerifyManifestPaths` | app/Actions/Backups/VerifyBackup.php:205-236 | The loop accepts exactly the lists that are distinct, safe, and hold one database payload and the metadata. |
| `BackupArchive.AllowParents` | app/Actions/Backups/VerifyBackup.php:185-194 | The inner loop allows exactly the directories above a file. |
| `BackupArchive.VerifyArchiveDirectories` | app/Actions/Backups/VerifyBackup.php:181-203 | The loops accept exactly directories that are fixed or lie above a listed file. |
| `BackupArchive.VerifyFiles` | app/Actions/Backups/VerifyBackup.php:238-249 | The loop succeeds if and only if every listed file is there with its size and hash. |
| `BackupArchive.VerifiedArchive` | app/Actions/Backups/VerifyBackup.php:52-97 | The checks in their order compute the verification the lemmas are about. |
| `BackupArchive.ExtractVerified` | app/Actions/Backups/VerifyBackup.php:22-49 | A normal return means a verified archive, an empty destination and every extracted file with the listed size and hash. |
| `BackupArchive.ManifestDeterminesTheFiles` | app/Actions/Backups/VerifyBackup.php:72-84 | Two accepted archives with one manifest hold the same files, where hashes do not collide. |
| `BackupArchive.AcceptedPathsStayInside` | app/Actions/Backups/VerifyBackup.php:220-235 | No entry of an accepted archive can leave the extraction directory. |
| `BackupArchive.ExtractedIsStaged` | app/Actions/Backups/VerifyBackup.php:37-46 | Beside the manifest, an accepted extraction holds exactly what was staged: every file with its content and no other. |
| `BackupArchive.NamesSurviveExactlyWithoutBackslash` | app/Actions/Backups/CreateBackup.php:197-223 | Extraction recreates the staged paths if and only if no name holds a backslash. |
| `BackupArchive.BackslashIsArchivedAsSeparator` | app/Actions/Backups/CreateBackup.php:197-223 | A backslash in a name is archived as a separator: such a tree and the nested one give the same entries and files. |
| `BackupArchive.StagedUnderItsPathExactly` | app/Actions/Backups/CreateBackup.php:134-135 | A private file is staged under its own path if and only if that does not begin with a backslash, which is trimmed. |
| `BackupArchive.WellNamedIsSafelyNamed` | app/Actions/Backups/CreateBackup.php:207-213 | Without backslashes in names the archived paths are distinct and safe. |
| `BackupArchive.BackupRoundTrip` | app/Actions/Backups/VerifyBackup.php:22-49 | Create, verify, extract: the archive of a safely named stage verifies, its own files are an accepted extraction, and any accepted extraction gives the stage back. |
| `BackupArchive.VerifiesExactly` | app/Actions/Backups/VerifyBackup.php:51-130 | An archive verifies with a manifest exactly when it has regular entries only, its manifest parses to that one, lists the other files and no more under safe paths, each with its size and hash, and every directory is fixed or above a file. |
| `QuoteMarker.MarkerRoundTrip` | app/Actions/FattureInCloud/FattureInCloudQuoteLogic.php:22-39 | A printed marker reads back as the pair it was printed from. |
| `QuoteMarker.OnlyTheMarkerReadsBack` | app/Actions/FattureInCloud/FattureInCloudQuoteLogic.php:32-39 | A text that reads back as a pair is the printed marker of that pair, up to numerals beyond the largest integer, which all read as it. |
| `QuoteReferences.FindingReference` | app/Actions/FattureInCloud/FattureInCloudQuoteLogic.php:13-20 | Fails exactly outside 1 to 999999; otherwise the reference is well-formed and shows the id. |
| `QuoteReferences.ReferencesOrder` | app/Actions/FattureInCloud/FattureInCloudQuoteLogic.php:71-71 | Sorting references as strings sorts their ids. |
| `QuoteReferences.SortedReferencesAre` | app/Actions/FattureInCloud/FattureInCloudQuoteLogic.php:70-71 | The printed references are the distinct ids in increasing order. |
| `QuoteReferences.SearchFinds` | app/Actions/FattureInCloud/FattureInCloudQuoteLogic.php:83-87 | A text has at most one place where the pattern matches. |
| `QuoteReferences.AddFailsExactlyForUnrepresentable` | app/Actions/FattureInCloud/FattureInCloudQuoteLogic.php:67-79 | Adding fails exactly for an id that six digits cannot show. |
| `QuoteReferences.StripAfterAdd` | app/Actions/FattureInCloud/FattureInCloudQuoteLogic.php:67-88 | For non-empty ids, stripping after adding gives the same text as stripping the original. |
| `QuoteReferences.LastAddWins` | app/Actions/FattureInCloud/FattureInCloudQuoteLogic.php:67-88 | Adding B after adding non-empty A equals adding B. |
| `QuoteReferences.StripAfterAddingNothing` | app/Actions/FattureInCloud/FattureInCloudQuoteLogic.php:72-74 | For no ids the law holds if and only if what stands before the description's block does not end in another one and, without a block, the description does not end in one that only trimming uncovers. |
| `QuoteReferences.TwoBlocksNeedTwoStrips` | app/Actions/FattureInCloud/FattureInCloudQuoteLogic.php:81-88 | A concrete text from which one strip does not remove everything. |
| `QuoteReferences.TrimHasBlockExactly` | app/Actions/FattureInCloud/FattureInCloudQuoteLogic.php:81-88 | A trimmed text has a block if and only if the text itself ends in one before trimmable characters. |
| `PreviousQuote.VersionFor` | app/Actions/FattureInCloud/FindPreviousFattureInCloudQuote.php:31-36 | Positive exactly for quotes whose subject is a marker of the assessment, and then the marked version. |
| `PreviousQuote.Latest` | app/Actions/FattureInCloud/FindPreviousFattureInCloudQuote.php:21-53 | The quote with the greatest version, nothing if there is none, an error if and only if two share the greatest version. |
| `PreviousQuote.ScanOfWritten` | app/Actions/FattureInCloud/FindPreviousFattureInCloudQuote.php:71-76 | The references found in a written description are those of its stripped text, then those added. |
| `PreviousQuote.FindingsReadBack` | app/Actions/FattureInCloud/FindPreviousFattureInCloudQuote.php:67-76 | A row is read back with the known findings of its own text and the known ones added. |
| `PreviousQuote.NoReferenceNoBlock` | app/Actions/FattureInCloud/FattureInCloudQuoteLogic.php:81-88 | A text in which no reference is found has no block to strip. |
| `PreviousQuote.RowReadBack` | app/Actions/FattureInCloud/FindPreviousFattureInCloudQuote.php:67-93 | For text free of references a row is read back with the stripped text and exactly the sorted distinct ids. |
| `PreviousQuote.SavingAgainChangesNothing` | app/Actions/FattureInCloud/FindPreviousFattureInCloudQuote.php:67-93 | For a text free of references, saving a row that was read back writes the same description again. |
| `PreviousQuote.SavingAgainChangesNothingExactly` | app/Actions/FattureInCloud/FindPreviousFattureInCloudQuote.php:67-93 | Saving a row that was read back writes the same description again if and only if the stripped text has no further block and names no known finding but those added. |
| `RiskProfiles.RiskStore.SyncLevels` | app/Actions/Risk/SaveRiskProfileConfiguration.php:329-398 | The row loop and the disabling of the others, or a failure when a row or a unique index refuses. |
| `RiskProfiles.RiskStore.SyncMatrix` | app/Actions/Risk/SaveRiskProfileConfiguration.php:406-430 | The nested loops leave exactly one cell per submitted pair and the other profiles' cells. |
| `RiskProfiles.RiskStore.Handle` | app/Actions/Risk/SaveRiskProfileConfiguration.php:101-142 | The whole aggregate is saved, or nothing. |
| `RiskProfiles.FrozenRows` | database/migrations/2026_07_13_000012_create_risk_and_effort_tables.php:34-50 | With all four scores taken, the unique index lets rows through only if each is the level that already has its score. |
| `RiskProfiles.ScoresAreFrozen` | app/Actions/Risk/SaveRiskProfileConfiguration.php:329-362 | An accepted save of an existing profile keeps its consequence and likelihood levels, their codes and scores, and disables none. |
| `RiskProfiles.SyncMakesScoresOk` | app/Actions/Risk/SaveRiskProfileConfiguration.php:329-362 | After a save each score from 1 to 4 belongs to exactly one level of the profile, and the submitted levels are exactly the enabled ones. |
| `RiskProfiles.SyncLeavesOthers` | app/Actions/Risk/SaveRiskProfileConfiguration.php:329-398 | Levels of other profiles stay as they were. |
| `RiskProfiles.SaveKeepsState` | app/Actions/Risk/SaveRiskProfileConfiguration.php:117-142 | An accepted save keeps every profile's cells exactly enabled consequences times enabled likelihoods, with priorities of the same profile. |
| `RiskProfiles.RunKeepsState` | app/Actions/Risk/SaveRiskProfileConfiguration.php:117-142 | So does any run of saves. |
| `RiskProfiles.LookupIsTotalOnEnabledPairs` | app/Actions/Risk/CalculateFindingPriority.php:15-32 | After any run the lookup succeeds if and only if both levels are enabled and of one profile, with a priority of that profile. |
| `RiskProfiles.RunFreezesScores` | app/Actions/Risk/SaveRiskProfileConfiguration.php:329-362 | Once a profile exists, no run of saves adds, removes or disables one of its consequence and likelihood levels or changes a code or score of one. |
| `RiskProfiles.SavedCellsOk` | app/Actions/Risk/SaveRiskProfileConfiguration.php:406-430 | After a save the profile's cells are exactly its enabled levels' pairs. |
| `RiskProfiles.SavedPrioritiesOk` | app/Actions/Risk/SaveRiskProfileConfiguration.php:240-256 | After a save every cell of the profile holds one of its own priorities. |
| `RiskProfiles.OtherProfileOk` | app/Actions/Risk/SaveRiskProfileConfiguration.php:426-429 | A save leaves the other profiles' matrices complete. |
| `RiskAnswers.SavedRowsAreStored` | app/Actions/Risk/SaveRiskProfileConfiguration.php:329-404 | After an accepted save every submitted row is a level with its score, content and flag: its own, which keeps its code, or a new one with the row's; priorities not submitted are disabled. |
| `RiskAnswers.LookupAnswersAsSubmitted` | app/Actions/Risk/CalculateFindingPriority.php:15-32 | After an accepted save, for every pair of rows: looking up the levels that carry them gives the level that carries the priority submitted for that pair. |
| `RiskAnswers.OthersKeepAnswers` | app/Actions/Risk/SaveRiskProfileConfiguration.php:406-430 | No run of saves of other profiles, new or existing, changes what a profile answers. |
| `RiskAnswers.LastSaveAnswers` | app/Actions/Risk/CalculateFindingPriority.php:15-32 | So a profile answers as its last accepted save submitted, whatever is saved elsewhere since. |
| `RiskAnswers.ProfileIsStored` | app/Actions/Risk/SaveRiskProfileConfiguration.php:117-134 | A new profile, and one saved from a current copy, is stored as submitted; the others keep text and flag, and lose the default exactly when it was given away. |
| `RiskAnswers.ActiveStaysEnabledExactly` | app/Actions/Risk/SaveRiskProfileConfiguration.php:111-115 | The active profile is enabled after its save, unless it had been disabled behind a copy that shows it enabled. |
| `RiskAnswers.RefusedFlags` | app/Actions/Risk/SaveRiskProfileConfiguration.php:103-115 | Disabling the active profile, giving up the default and a disabled default are refused. |
| `RiskAcceptance.SaveIsAcceptedExactly` | app/Actions/Risk/SaveRiskProfileConfiguration.php:117-256 | A save that passes the validation is accepted exactly when known scored rows keep their scores and new rows have codes, and scores, that no level of the profile and no other new row has. |
| `RiskAcceptance.EverySaveIsAcceptedExactly` | app/Actions/Risk/SaveRiskProfileConfiguration.php:117-256 | So it is for every save after any run from the empty store. |
| `RiskAcceptance.RunKeepsCodes` | app/Actions/Risk/SaveRiskProfileConfiguration.php:329-404 | No run of saves gives two levels of one profile the same code. |
| `RiskDefaults.CurrentCopyKeepsDefault` | app/Actions/Risk/SaveRiskProfileConfiguration.php:103-134 | With a current copy no save loses, doubles or disables the default. |
| `RiskDefaults.NewProfileKeepsDefault` | app/Actions/Risk/SaveRiskProfileConfiguration.php:117-134 | Creating a profile keeps at most one default, enabled; there is one afterwards if and only if there was one or one was asked for. |
| `RiskDefaults.RunKeepsDefault` | app/Actions/Risk/SaveRiskProfileConfiguration.php:103-134 | In every state of a run with current copies there is at most one default, enabled, and once there is one there always is. |
| `RiskDefaults.DefaultStaysEnabledExactly` | app/Actions/Risk/SaveRiskProfileConfiguration.php:103-134 | Whether there was a default or not, a save leaves at most one default, enabled, exactly unless it leaves the default flag on a disabled profile that its copy shows enabled, or disables a profile that is the default though its copy does not show it. |
| `RiskDefaults.DefaultIsThereExactly` | app/Actions/Risk/SaveRiskProfileConfiguration.php:103-134 | After a save there is a default if and only if there was one or one was asked for, and the loaded copy does not wrongly say that the profile is it already. |
| `RiskDefaults.RunKeepsDefaultExactly` | app/Actions/Risk/SaveRiskProfileConfiguration.php:117-134 | Through a run there is at most one default, enabled, and never none again, if and only if no accepted call of it harms by its stale copy. |
| `RiskDefaults.StaleCopyDisablesDefault` | app/Actions/Risk/SaveRiskProfileConfiguration.php:117-134 | Three accepted calls from an empty store, the last with a stale copy, after which the default is disabled. |
| `RiskDefaults.StaleCopyDropsDefault` | app/Actions/Risk/SaveRiskProfileConfiguration.php:117-134 | Three accepted calls from an empty store, the last with a stale copy, after which there is no default. |
| `Identifiers.SuffixesDiffer` | app/Actions/Templates/SaveFindingTemplate.php:202-213 | Different suffixes give different candidates, however the base is cut. |
| `Identifiers.FewAreTaken` | app/Actions/Templates/SaveFindingTemplate.php:202-213 | At most as many suffixed candidates are taken as there are used names. |
| `Identifiers.NextIdentifier` | app/Actions/Templates/SaveFindingTemplate.php:202-213 | The loop ends within one suffixed try more than there are used names, with the first free candidate, unused and within the cap. |
| `Identifiers.WithStableExternalIds` | app/Actions/Templates/SaveFindingTemplate.php:123-167 | Known solutions keep their ids, new ones get ids used by no other; all are distinct if and only if no known solution is submitted twice; with fewer names than a thousand million, a new id matches the validator's pattern if and only if its base does. |
| `Identifiers.AssignedAreDistinct` | app/Actions/Templates/SaveFindingTemplate.php:136-164 | Assigned ids are pairwise distinct if and only if no known solution is submitted twice. |
| `Identifiers.SuffixedMatchesExactly` | app/Actions/Templates/SaveFindingTemplate.php:64 | A suffixed candidate matches the validator's pattern if and only if what is left of its base does. |
| `Identifiers.NoDoubledSeparatorExactly` | app/Actions/Templates/SaveFindingTemplate.php:207 | Of a base that matches: if and only if it is not cut, or is cut to something that does not end in a separator. |
| `Identifiers.BaseMatchesExactly` | app/Actions/Templates/SaveFindingTemplate.php:194-199 | The base of a well-formed slug matches if and only if the slug is not cut, or not cut right after a separator. |
| `Identifiers.CutMatchesExactly` | app/Actions/Templates/SaveFindingTemplate.php:64 | A cut text that matched still matches if and only if something is left and it does not end in a separator. |
| `Identifiers.PatternExamples` | app/Actions/Templates/SaveFindingTemplate.php:64 | Words joined by single dots, underscores and hyphens match; a leading, trailing or doubled separator and a capital do not. |
| `KeyRealignment.OrderedExternalIdMap` | app/Actions/Assessments/SaveFindingAsTemplate.php:105-118 | Maps the solutions in order to the external ids, or fails when the counts differ. |
| `KeyRealignment.SolutionTable.UpdateKey` | database/migrations/2026_07_13_000016_complete_assessment_workspace_schema.php:84-84 | A single row update succeeds if and only if no other row of the finding holds the key, and keeps keys unique. |
| `KeyRealignment.SolutionTable.SetTemporaryKeys` | app/Actions/Assessments/SaveFindingAsTemplate.php:129-134 | The first loop gives every solution a key of its own, with keys unique after every update. |
| `KeyRealignment.SolutionTable.SetTargets` | app/Actions/Assessments/SaveFindingAsTemplate.php:135-139 | The second loop puts the targets in place one by one, or stops at one that is not feasible. |
| `KeyRealignment.SolutionTable.RealignSolutionKeys` | app/Actions/Assessments/SaveFindingAsTemplate.php:121-140 | Succeeds if and only if every solution has a target, targets are distinct and no other row of the finding holds one; then the keys are the targets, swaps and cycles included, else nothing changes. |
| `KeyRealignment.NewTemplateIdsAreFeasible` | app/Actions/Assessments/SaveFindingAsTemplate.php:28-59 | For a newly saved template realignment can fail only on a deleted solution that still holds one of the ids. |
| `KeyRealignment.SolutionTable.SetTarget` | app/Actions/Assessments/SaveFindingAsTemplate.php:135-139 | One update of the second loop succeeds, or shows that the targets are not feasible. |

## Left out

- The page itself: Livewire, the document, banners, status labels, scrolling and events; the page's form is a value that edits replace.
- Structural changes caught after a morph, drafts of other tabs, their recovery (`evaluateRecovery`) and user-requested discards: outside the no-lost-edit property.
- Storage failures in the browser (the `storageUnavailable` branches and the fallback request id): IndexedDB is taken to work.
- Overlapping confirmation handlers: a reply and its handler are one step.
- Evidence revisions in the browser: drafts exclude evidence.
- The JSON values of the draft protocol: payloads are compared by meaning there, and `DraftPayload.SamePayloadText` says why that is what the texts decide.
- Strings as UTF-16 code units and lone surrogates: characters are Unicode scalar values.
- A solutions field that is neither missing, a list nor an object, and solutions that are null.
- Field validators of save requests (lengths, enums, ownership of sites, categories and levels): one flag of the request.
- WorkspaceStore.AssessmentStore.SaveFindingDetails: the evidence rows and files of the save are not part of its transition; their quota and files are modelled in EvidenceQuota.
- Relations of an assessment other than its findings (sites, assets, customers), and deleting a whole assessment as a step of a run.
- Soft-deleted finding rows: deleting removes the row from the active findings.
- The lease of the save lock and failures to release it; rendering that outlasts it.
- WorkspaceGuarantees.CompletedStaysValid: a status change is one step, as it is in `SaveFindingDetails`, its one caller, which holds the save lock; a change outside the lock is two steps in StatusTransition, where completed assessments stay valid just when no write is overtaken (SQLite with immediate transactions, the default, lets nothing come between).
- DraftGuarantees.NoEditIsLost: promised for clean runs, because it is false of others; `DraftLosses.NoEditIsLostExactly` has the condition for every run.
- Site or category archiving and evidence deletion in the completion invariant.
- The limit of one cleanup batch, and the checks of a stored trash path before a cleanup.
- Concurrent deletions of different entities: one operation, whose manifest is disjoint from other manifests.
- Database snapshots and importers, the connection checks around a restore, the lock file and file modes.
- Prospective output paths of a backup and their symbolic links; compression and the tar format, where an archive is its entries.
- File names that are not UTF-8, which make the JSON encoder throw.
- The text of the manifest file: JSON is modelled decoded, and the manifest's file is identified by the JSON it holds.
- Quote totals and estimates (`compatibleEstimateSum`, `transientNetTotal`) and number formatting: floating point.
- The quote service itself, and the other columns of a row that is read back.
- Identifiers that are refused although they are new: `Identifiers.BaseMatchesExactly` says which slugs give one, and nothing is modelled of what the form then shows.
- Slugs, transliteration and case folding: a row carries its slug.
- Identifiers.NextIdentifier: the cap is promised while a suffix has fewer digits than the cap has characters.
- Codes of risk levels (`withStableCodes`): rows come with their code settled and their id resolved; the search for a new code is `Identifiers.NextIdentifier` with an underscore and a cap of 40.
- Labels, colours, descriptions and sort orders of risk levels: one content value.
- FindingTemplateContent and the matching of identical templates: `RealignSolutionKeys` takes any assignment.
- Other actions on findings (recommended and implemented solution, priority overrides, deleting a solution).
