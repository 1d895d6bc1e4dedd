# Lantern Task Manager: a verified model

Lantern Task Manager turns chat messages and card clicks into tasks with an owner, a due date, a
verifier and an audit trail. Underneath the chat adapters it is a small durable workflow engine
over one transactional database, with a layer that keeps calls to a language model within limits.
This project models both parts in Dafny and proves what they promise.

## The durable workflow

* `task_ids.dfy`: printed task ids, and the pattern that reads them back out of a message.
* `domain.dfy`, `tasks.dfy`: the transition table, one task row, its lifecycle operations and the
  audit histories that can arise.
* `ledger.dfy`: the value of the whole store (tasks, sequence counters, drafts, interaction rows) and
  the effect of one committed or rolled-back transaction on it. `ledger_invariant.dfy` proves the
  invariant of every run, `ledger_properties.dfy` what follows from it, `draft_lifetime.dfy` what
  becomes of one draft from when it is stashed.
* `database.dfy`: the store as an object whose methods change it step by step as the program does. Each
  method is proved to perform exactly one ledger transaction, so everything proved about runs of the
  ledger holds for any interleaving of method calls.
* `draft_use_cases.dfy`: protocols of several transactions (confirming a draft, preparing a new one)
  with arbitrary other transactions between their steps. `draft_race.dfy` replaces the atomic
  transactions by stale reads and unconditional writes.
* `outbox.dfy`, `scheduled_jobs.dfy`, `coordinator.dfy`: notifications with idempotency keys and
  retries, the daily jobs, and the receipts that make card actions idempotent.
* `texts.dfy`, `wrappers.dfy`: text operations and small helpers used by several models.
* `assignment_policy.dfy`, `mention_scoring.dfy`: who may assign to whom, and which directory
  candidate a mention resolves to.

## The model-call layer

* `token_bucket.dfy`, `governor.dfy`, `circuit_breaker.dfy`, `gateway.dfy`: rate limiting, admission,
  failure isolation, retries and fallback.
* `memory_trim.dfy`: cutting a conversation to its most recent whole turns.
* `llm_usage.dfy`: the daily usage rows.

Object fields are class fields, and methods that change them are proved against a specification
function on values; the lemmas are about those functions. Clocks, random ids, network sends, lookups
and the behaviour of the provider are parameters or arbitrary choices.

## Where the code does not do what one might expect

* Closing a task that already awaits verification is accepted and logs another closure request
  (`Tasks.CloseAccepted`).
* A close by the assignee that is refused for the task's status keeps status and trail but commits the
  new closure notes and closing time, unless the task closes itself (`Tasks.RefusedCloseEffect`). No other refused operation leaves a mark (`Tasks.RefusalChangesNothing`).
* A printed id is read back as itself exactly when the year has four digits and the number is at
  most 9999 (`TaskIds.ReferencesOfPrintedId`).
* If a stale read can precede another user's commit, a draft that became a task can end up marked as
  cancelled: `DraftRace.TaskWithoutConsumedDraft` gives the run. The row is sure to stay consumed
  exactly when no process has looked at the draft without having acted on it at the commit
  (`DraftRace.StaysConsumedIffNobodyHasLooked`). There is still at most one task.
* The candidate ranking tests four conditions on the two top scores; the last two can never decide
  (`MentionScoring.LaterTestsAreIdle`), contrary to what src/ltm/bot/mention_scoring.py:145-148 suggests.
* In the overdue job the branch for an escalation key already consumed is never taken
  (`ScheduledJobs.EscalationIsNeverSkipped`), and in the batch summary the skip of an empty list is not
  either (`ScheduledJobs.AssigneeHasList`).
* A comment in src/ltm/notifications/service.py:319 speaks of clearing a key so that delivery can run
  again; the code clears nothing and resends under a key of its own.
* An action completed under the code IN_PROGRESS can be claimed again (`Coordinator.CompletionSettles`).
* The text of an action key joins its parts with colons, and a user id may contain one. Actions with
  tokens of different lengths can therefore share a key (`Coordinator.UnequalTokensCanCollide`); with
  equally long tokens, such as the 24 digits minted for cards in src/ltm/cards/builders.py:38, a key
  identifies its action (`Coordinator.EqualKeysEqualActions`).
* A policy edge whose side is not empty but names neither a user nor a department matches everybody
  (`AssignmentPolicy.SideMatchesEverybodyIff`).

## Model

| member | source | states |
|---|---|---|
| `TaskIds.PublicIdInjective` | src/ltm/storage/repository.py:24-25 | two printed ids are equal only for equal department, year and number, for numbers of any length |
| `TaskIds.DecValue` | src/ltm/storage/repository.py:24-25 | the printed digits of a number have that number as their value |
| `TaskIds.Pad4Value` | src/ltm/storage/repository.py:24-25 | padding to four digits keeps the value, and longer numbers are not cut |
| `TaskIds.ExtractTaskReferences` | src/ltm/ai/turn_payload.py:99-107 | the loop returns the upper-cased matches, first occurrences in order, each once |
| `TaskIds.FindFromIsLeftmost` | src/ltm/ai/turn_payload.py:22 | the texts found are matches that stand one after the other without overlap, and no match starts outside them |
| `TaskIds.FirstFit` | src/ltm/ai/turn_payload.py:22 | the department alternative found matches at the place, and none matches when none is found |
| `TaskIds.PrintedIdIsFound` | src/ltm/ai/turn_payload.py:99-107 | an id with four-digit parts is found wherever it stands in a message, written in either case, whatever text surrounds it |
| `TaskIds.ReferencesIff` | src/ltm/ai/turn_payload.py:22-24 | the references of a message are exactly the texts LTM, listed code, four digits, four digits that occur in it with letters in either case |
| `TaskIds.DistinctKeepsOrder` | src/ltm/ai/turn_payload.py:99-107 | references come in the order of their first occurrences |
| `TaskIds.ReferencesOfPrintedId` | src/ltm/ai/turn_payload.py:99-107 | reading a printed id returns exactly that id if and only if year and number print with four digits |
| `Tasks.HistoryReplays` | src/ltm/domain/state_machine.py:13-42 | a legal history replays from CREATED along edges of the transition table, self-loops included, and ends in its status |
| `Tasks.ActKeepsTaskOk` | src/ltm/storage/repository.py:215-359 | every lifecycle operation, accepted or refused, keeps the row consistent with its trail and the trail's authors |
| `Tasks.ActKeepsIdentity` | src/ltm/application/tasks.py:57-198 | no lifecycle operation changes department, text, creator, assignee or due date |
| `Tasks.HistoryShape` | src/ltm/storage/repository.py:215-359 | in every prefix of a history: at most one acknowledgement, reopenings within closures, resumptions within reopenings, at most one verification |
| `Tasks.HistoryCounts` | src/ltm/storage/repository.py:215-359 | how often each event has occurred when a history has reached a given status |
| `Tasks.NothingFollowsVerification` | src/ltm/storage/repository.py:315-336 | after its verification a history holds only notifications |
| `Tasks.EntryAuthor` | src/ltm/application/tasks.py:170-198 | acknowledge, resume and close entries are by the assignee, verify and reopen entries by the verifier |
| `Tasks.NewTaskOk` | src/ltm/storage/repository.py:107-156 | a new task is consistent, assigned and logged as created and assigned |
| `Tasks.LegalHistoriesArise` | src/ltm/application/tasks.py:57-198 | for a task that does not close itself, every legal history is produced by some sequence of operations, so the description of histories is exact |
| `Tasks.SelfClosingHistoriesOnly` | src/ltm/application/tasks.py:86-97 | a task that closes itself only ever has histories in which the closure is verified at once and nothing is reopened |
| `Tasks.SelfClosingHistoriesArise` | src/ltm/application/tasks.py:86-97 | every history of that kind is produced by some sequence of operations |
| `Tasks.CloseAccepted` | src/ltm/application/tasks.py:77-110 | exactly which actor closes successfully in which status |
| `Tasks.RefusedCloseEffect` | src/ltm/storage/repository.py:251-283 | what a refused close answers and commits: nothing for anybody but the assignee; for the assignee the new notes and closing time, or nothing for a self-closing task |
| `Tasks.RefusalChangesNothing` | src/ltm/application/tasks.py:112-198 | every other refused operation leaves the row as it was |
| `Tasks.WhoStarts` | src/ltm/application/tasks.py:57-75 | who may acknowledge and resume, from which status, what is answered and what is written |
| `Tasks.WhoDecides` | src/ltm/notifications/recipients.py:21-59 | verifying and reopening is for the manager on the map in manager mode, and for the creator in all other cases |
| `Tasks.DecisionEffect` | src/ltm/storage/repository.py:315-359 | a decision is accepted exactly from the verifier on a task that awaits it, and what it writes |
| `Tasks.ClosesAtOnceIff` | src/ltm/application/tasks.py:86-97 | a close is verified at once exactly when that is switched on, the assignee created the task and no other user is its mapped manager |
| `Tasks.QuotedInPart` | src/ltm/storage/repository.py:338-359 | the trail quotes the first thousand characters of a reason, the row keeps all of it |
| `Tasks.SelfCloseRefinesTwoSteps` | src/ltm/storage/repository.py:285-313 | closing and verifying at once has the same status, times and events as a closure request followed by a verification |
| `LedgerInvariant.ApplyKeepsInv` | src/ltm/storage/db.py:45-61 | every transaction, committed or rolled back, keeps the invariant that ties tasks, counters, drafts and trails together |
| `LedgerInvariant.RunKeepsInv` | src/ltm/storage/db.py:45-61 | every store reached by any sequence of transactions satisfies the invariant |
| `LedgerInvariant.ClaimKeepsStructure` | src/ltm/application/drafts.py:61-70 | claiming a live draft never collides with an existing task id, and keeps numbering and matching |
| `LedgerProperties.AuditTrailGivesStatus` | src/ltm/storage/repository.py:66-91 | in every reachable store each trail replays along the table to exactly the task's status |
| `LedgerProperties.AcknowledgedOnce` | src/ltm/storage/repository.py:215-231 | a reachable trail has exactly one acknowledgement once the task has left ASSIGNED and none before |
| `LedgerProperties.AuditTrailCounts` | src/ltm/storage/repository.py:215-359 | the bounds on reopenings, closures, resumptions and verifications in every prefix of every reachable trail |
| `LedgerProperties.AuditTrailAuthors` | src/ltm/notifications/recipients.py:21-62 | every entry of a reachable trail is by the user entitled to it; verifications and reopenings by the mapped manager or the creator, as the configuration says |
| `LedgerProperties.NumbersHaveNoGaps` | src/ltm/storage/repository.py:93-105 | in every reachable store the numbers of a department and year are exactly 1 to the counter, also across rolled-back creations |
| `LedgerProperties.PrintedIdsAreUnique` | src/ltm/storage/repository.py:24-25 | keying rows by the printed id loses none |
| `LedgerProperties.ConsumedIffTask` | src/ltm/bot/drafts.py:84-98 | in every reachable store a draft is consumed exactly when it names an existing task |
| `LedgerProperties.OneTaskPerDraft` | src/ltm/application/drafts.py:61-68 | every task comes from one consumed draft of its creator, carries its proposal, and no two tasks share a draft |
| `LedgerProperties.RunKeepsEnded` | src/ltm/bot/drafts.py:37-75 | a draft that is no longer active never changes again |
| `LedgerProperties.CreatedRepliesAgree` | src/ltm/application/drafts.py:29-72 | all replies that announce a task for one draft announce the same task, and only the first can be the claim |
| `LedgerProperties.CreatedReplyLasts` | src/ltm/bot/drafts.py:84-98 | once a task was announced for a draft, every later store still says so |
| `LedgerProperties.RunRevision` | src/ltm/interaction/store.py:34-53 | a row's revision counts exactly the events begun in its conversation |
| `LedgerProperties.EventRevisionsIncrease` | src/ltm/interaction/store.py:34-53 | the revisions handed out in one conversation strictly increase |
| `LedgerProperties.GuardedWriteSucceedsIffCurrent` | src/ltm/interaction/store.py:55-80 | a guarded write succeeds if and only if no newer event has begun, and otherwise leaves the row unchanged |
| `LedgerProperties.SupersededIsNeverCurrent` | src/ltm/interaction/store.py:113-117 | once a newer event has begun, the older revision is never again reported as current |
| `LedgerProperties.ReadAnswersLiveRow` | src/ltm/interaction/store.py:82-100 | a read answers nothing exactly when there is no row or its time is up, and else the row at the revision that counts the events begun |
| `LedgerProperties.ReadAfterWrite` | src/ltm/interaction/store.py:55-100 | for half an hour after an accepted write reads answer the form written, whatever ran in between that did not rewrite or clear it, and nothing afterwards |
| `LedgerProperties.ReadAfterClear` | src/ltm/interaction/store.py:95-111 | after a clear or an expiry reads show an empty form until the next write |
| `LedgerProperties.RowExistsIff` | src/ltm/interaction/store.py:120-140 | a conversation has a row exactly when an event began or a write was tried in it |
| `LedgerProperties.NoChatsWhenDisabled` | src/ltm/interaction/store.py:28-36 | with the coordinator off nothing is stored and every read and write answers nothing |
| `LedgerProperties.MissingTask` | src/ltm/application/tasks.py:57-198 | an operation on a task that does not exist changes nothing and says so, except for a notification |
| `LedgerProperties.OneTaskOnly` | src/ltm/application/tasks.py:57-198 | an operation touches the row of its task and nothing else |
| `DraftLifetime.StashedDraftIsShown` | src/ltm/bot/drafts.py:23-92 | for half an hour a stashed draft is shown to its requester with its proposal and can be discarded; others are denied; afterwards it is gone |
| `DraftLifetime.StashedDraftIsWithdrawn` | src/ltm/bot/drafts.py:37-49 | what a discard, or a look after the expiry, leaves of it |
| `DraftLifetime.StashedDraftIsClaimed` | src/ltm/bot/drafts.py:58-75 | what a claim of it answers: denied, gone, rolled back, or created under the next number of its series |
| `DraftLifetime.ClaimMakesProposedTask` | src/ltm/storage/repository.py:107-156 | the task a claim makes of it is exactly the proposed one, with two entries in its trail, and no other task is touched |
| `Storage.Database.Transition` | src/ltm/storage/repository.py:66-91 | the guarded status change: accepted just when the table allows it, then status and audit entry together, else nothing |
| `Storage.Database.AssigneeMoves` | src/ltm/application/tasks.py:147-168 | acknowledge and resume: the checks in order, and the new row |
| `Storage.Database.MarkPendingClosure` | src/ltm/storage/repository.py:251-283 | closure request as written, notes and time before the guard |
| `Storage.Database.CloseAndVerifySelf` | src/ltm/storage/repository.py:285-313 | closing and verifying in one step as written |
| `Storage.Database.CloseCase` | src/ltm/application/tasks.py:77-110 | close: the assignee check and the choice between the two ways of closing |
| `Storage.Database.Decide` | src/ltm/storage/repository.py:315-359 | verify and reopen: the mapped manager or the creator decides, and status and entry are written from pending verification |
| `Storage.Database.Act` | src/ltm/application/tasks.py:57-198 | each lifecycle use case performs exactly one ledger transaction |
| `Storage.Database.RefreshOverdueFlags` | src/ltm/storage/repository.py:390-402 | the loop makes every flag correct, changes nothing else and counts the flags that differed |
| `Storage.Database.StashDraft` | src/ltm/bot/drafts.py:23-34 | one ledger transaction: a new active draft with its expiry |
| `Storage.Database.OwnedRow` | src/ltm/bot/drafts.py:37-49 | whether the draft is another's, gone or live, and the withdrawal of an expired one |
| `Storage.Database.PeekDraft` | src/ltm/bot/drafts.py:78-81 | one ledger transaction |
| `Storage.Database.CompletedDraftTaskId` | src/ltm/bot/drafts.py:84-91 | one ledger transaction, which changes nothing |
| `Storage.Database.NextSequence` | src/ltm/storage/repository.py:93-105 | the next number of the series, and the counter moved to it |
| `Storage.Database.CreateFromDraft` | src/ltm/storage/repository.py:107-156 | the new row under the next id, or a failure on a taken primary key with the counter already moved |
| `Storage.Database.ClaimAndCreate` | src/ltm/application/drafts.py:61-70 | claim, creation and recording of the id commit together or roll back together |
| `Storage.Database.ClaimLive` | src/ltm/application/drafts.py:61-70 | the claim of a live draft, undone completely by a failure after the conditional update |
| `Storage.Database.DiscardDraft` | src/ltm/bot/drafts.py:113-120 | one ledger transaction |
| `Storage.Database.BeginChatEvent` | src/ltm/interaction/store.py:34-53 | one ledger transaction: the next revision |
| `Storage.Database.SetPendingForm` | src/ltm/interaction/store.py:55-80 | one ledger transaction: compare-and-set, or the unguarded write |
| `Storage.Database.GetPendingForm` | src/ltm/interaction/store.py:82-100 | one ledger read: the stored row unless it is absent or its time is up, an expired row is cleared |
| `Storage.Database.ClearPendingForm` | src/ltm/interaction/store.py:102-111 | one ledger transaction, not guarded by the revision |
| `Storage.Database.Interleave` | src/ltm/storage/db.py:45-61 | any number of transactions of other users is a run of the ledger |
| `DraftUseCases.Confirm` | src/ltm/application/drafts.py:29-72 | the transactions and the answer are exactly those the replies call for; whatever runs in between, only the task that the draft has become is announced; in a reachable store, undisturbed and without faults, it succeeds if and only if the draft is the actor's and is live or already consumed |
| `DraftUseCases.ConfirmSucceedsIff` | src/ltm/application/drafts.py:29-72 | from a reachable store and with any other transactions in between, a confirmation succeeds if and only if it met the draft live at the peek and at the claim, or ended at the peek and consumed at the lookup |
| `DraftUseCases.ConfirmAnswers` | src/ltm/application/drafts.py:29-72 | all five answers of a confirmation, told from who owned the draft at the peek and at the step after it |
| `DraftUseCases.ConfirmFinished` | src/ltm/application/drafts.py:35-47 | the way through a draft that is no longer live: the lookup, what runs meanwhile, the answer |
| `DraftUseCases.ConfirmLive` | src/ltm/application/drafts.py:49-72 | the way through a live draft: nothing when not permitted, else one claim and its answer |
| `DraftUseCases.ConfirmationsAgree` | src/ltm/application/drafts.py:29-72 | two confirmations of one draft at any points of any history announce the same task |
| `DraftUseCases.PrepareDraft` | src/ltm/bot/tools.py:135-151 | the transactions are exactly the recall, the stash, the guarded write and the discard called for, with any others in between; it answers superseded if and only if the guarded write is refused in the store it meets; when it answers prepared, the draft that was under review at its start is no longer active |
| `DraftUseCases.LosesIffNewerEvent` | src/ltm/bot/tools.py:135-149 | working for the message that began an event, it loses if and only if a newer event of the conversation began, before it started or while it waited |
| `DraftUseCases.LostDraftIsWithdrawn` | src/ltm/bot/tools.py:147-149 | after a lost race the new draft is not active, and it is cancelled if nobody claimed it meanwhile |
| `DraftUseCases.WonRowPointsAtDraft` | src/ltm/bot/tools.py:140-146 | a write that was not lost leaves the row pointing at the new draft, at the expected revision |
| `DraftUseCases.DiscardKeepsRow` | src/ltm/bot/tools.py:150-151 | discarding the draft reviewed before keeps form and expiry of the row after any transactions of others that leave its form alone, and its revision has only counted events |
| `DraftUseCases.PreparedRowPointsAtDraft` | src/ltm/bot/tools.py:135-151 | in the store in which a preparation that was not lost ends, the row is the review of the new draft, unless another transaction rewrote or cleared it meanwhile |
| `DraftUseCases.WriteReview` | src/ltm/bot/tools.py:140-149 | one guarded write, lost if and only if the row's revision is not the expected one |
| `DraftUseCases.DiscardLater` | src/ltm/bot/drafts.py:113-120 | other transactions and then one discard, refused exactly for another user's draft; otherwise the draft is not active |
| `DraftRace.AtMostOneTask` | src/ltm/bot/drafts.py:58-75 | with reads and writes split and only the conditional claim atomic, a draft still yields at most one committed task |
| `DraftRace.ClaimTakesRowIff` | src/ltm/bot/drafts.py:58-75 | a claim takes the row exactly when its process saw it live, nobody holds it and it is active |
| `DraftRace.FinishedStays` | src/ltm/bot/drafts.py:37-75 | a process acts on what it saw at most once |
| `DraftRace.StaysConsumedIffNobodyHasLooked` | src/ltm/bot/drafts.py:37-49 | told at the commit: the row stays consumed whatever happens next if and only if no process has looked at the draft without having acted on it yet |
| `DraftRace.NoSecondTask` | src/ltm/bot/drafts.py:58-75 | even when the row is overwritten no second task is created |
| `DraftRace.TaskWithoutConsumedDraft` | src/ltm/bot/drafts.py:37-49 | a concrete run in which the created task's draft ends up cancelled |
| `DraftRace.StaleLookLosesRow` | src/ltm/bot/drafts.py:37-49 | the same with a stale read during the commit of the claim |
| `Outbox.RetryKeyInjective` | src/ltm/notifications/service.py:320 | different rows never share a retry key |
| `Outbox.EachRowResentAtMostOnce` | src/ltm/notifications/service.py:305-343 | over any run of deliveries, retries and consumed job keys each row is sent again at most once |
| `Outbox.RetryRunMakesProgress` | src/ltm/notifications/service.py:305-343 | a retry run with a positive limit strictly lowers the outstanding work unless nothing is pending |
| `Outbox.RetriesRunOut` | src/ltm/notifications/service.py:305-343 | as many runs as there is outstanding work leave nothing that needs a retry |
| `Outbox.RetryMarksRows` | src/ltm/notifications/service.py:318-341 | after a retry run a picked row is pending just when it was sent again in vain, and other rows are as before |
| `Outbox.DeliveryLogsOneRow` | src/ltm/notifications/service.py:69-134 | a delivery uses its key unless forced and logs one row unless its key was used or the send raised |
| `Outbox.OneDeliveryPerKey` | src/ltm/notifications/service.py:42-134 | a key never used for a forced send has at most one delivery row, over any run |
| `Outbox.FailedDeliveriesAreAccountedFor` | src/ltm/notifications/service.py:49-67 | a row that reached its recipient is never resent; one that did not stays pending until it is resent or its retry key is used |
| `Outbox.NotificationService.TryConsumeIdempotency` | src/ltm/notifications/service.py:42-47 | true exactly for a new key, which is then consumed |
| `Outbox.NotificationService.DeliverHybrid` | src/ltm/notifications/service.py:69-134 | key, delivery row and answer of one delivery, duplicates and failures included |
| `Outbox.NotificationService.RetryFailedDeliveries` | src/ltm/notifications/service.py:305-343 | the loop retries a selection of pending rows within the limit, its flags follow how the sends of those rows went, and it returns how many were sent |
| `Outbox.NotificationService.RetryRow` | src/ltm/notifications/service.py:319-341 | one row's turn: sent again and marked by the outcome, or only unmarked when its retry key was used |
| `ScheduledJobs.JobKeysDiffer` | src/ltm/notifications/scheduled_jobs.py:36-57 | keys of different jobs, of different days and of notices never collide |
| `ScheduledJobs.NoticeKeysDiffer` | src/ltm/notifications/service.py:239-303 | notices of different kinds, days, tasks or users have different keys |
| `ScheduledJobs.RefreshSettlesFlags` | src/ltm/storage/repository.py:361-402 | after a refresh no flag is wrong, a second one that day changes nothing, and the overdue query equals flagged and in progress |
| `ScheduledJobs.RunKeepsKeysTogether` | src/ltm/notifications/scheduled_jobs.py:36-73 | in every reachable world the refresh and escalation keys of a day are both present or both absent |
| `ScheduledJobs.RepeatedJobChangesNothing` | src/ltm/notifications/scheduled_jobs.py:44-48 | once a day's job is committed, running it again that day changes nothing, whatever happened in between |
| `ScheduledJobs.EscalationIsNeverSkipped` | src/ltm/notifications/scheduled_jobs.py:55-59 | a first job of the day with readable rules always goes on to escalate |
| `ScheduledJobs.StoreFollowsLedger` | src/ltm/storage/db.py:45-61 | with jobs and notices in between the store still only makes ledger transactions, so all results about ledger runs apply |
| `ScheduledJobs.BoxFollowsOutbox` | src/ltm/notifications/scheduled_jobs.py:36-129 | with jobs and use cases in between the outbox still only makes outbox transactions, so all results about outbox runs apply |
| `ScheduledJobs.WorldResendsOnce` | src/ltm/notifications/service.py:305-343 | in every reachable world each delivery row has been sent again at most once |
| `ScheduledJobs.WorldDeliversOncePerKey` | src/ltm/notifications/service.py:42-134 | in every reachable world a key never used for a forced notice or summary has at most one delivery row |
| `ScheduledJobs.WorldAccountsForFailures` | src/ltm/notifications/service.py:49-67 | in every reachable world whose retries took pending rows, no delivered row was sent again and no failed one is lost |
| `ScheduledJobs.RunOverdueRefreshAndNotify` | src/ltm/notifications/scheduled_jobs.py:36-73 | the job as written is one transaction with its stated result, and visits each task overdue by the threshold once, with the outcomes its sends have |
| `ScheduledJobs.Escalate` | src/ltm/notifications/scheduled_jobs.py:61-71 | the notices of the loop for the given outcomes of the sends, and that it covers exactly the late tasks |
| `ScheduledJobs.NotifyBoth` | src/ltm/notifications/scheduled_jobs.py:66-71 | for given outcomes of both sends: a failure ends only this task's turn, and two notices count only when both went out |
| `ScheduledJobs.VisitTellsBoth` | src/ltm/notifications/scheduled_jobs.py:66-69 | two new notices that do not raise reach the assignee and then the creator, and count as two |
| `ScheduledJobs.VisitEndsAtFailure` | src/ltm/notifications/scheduled_jobs.py:66-71 | a new notice that raises ends the turn and nothing is counted; a repeated visit changes nothing |
| `ScheduledJobs.VisitedIffDueBefore` | src/ltm/notifications/scheduled_jobs.py:61-65 | a task is visited exactly when it is in progress and was due at least the threshold in days, and one day, ago |
| `ScheduledJobs.RunDailySummary` | src/ltm/notifications/scheduled_jobs.py:76-129 | the job as written, in batch, targeted and forced mode, with its statistics, for given outcomes of the sends |
| `ScheduledJobs.SummaryJobAnswers` | src/ltm/notifications/scheduled_jobs.py:89-104 | forced runs without a user are refused, the second batch of a day does nothing, a run for one user leaves the day alone |
| `ScheduledJobs.SummaryOutcome` | src/ltm/notifications/scheduled_jobs.py:113-127 | a duplicate summary counts as skipped and changes nothing, one that raises counts as neither, one that is sent is logged for its user |
| `ScheduledJobs.MailAll` | src/ltm/notifications/scheduled_jobs.py:106-127 | a batch sends one list to each assignee with a task that is not terminal, and to nobody else |
| `ScheduledJobs.MailOne` | src/ltm/notifications/scheduled_jobs.py:109-127 | one user's list is sent with the given outcome, or nothing when it is empty |
| `ScheduledJobs.ListOpenForAssignee` | src/ltm/storage/repository.py:371-388 | exactly the user's open tasks, each once, by due date |
| `ScheduledJobs.AssigneeHasList` | src/ltm/storage/repository.py:404-414 | a user listed as having open tasks has a list that is not empty |
| `ScheduledJobs.OpenIsNotTerminal` | src/ltm/storage/repository.py:372-379 | the six open statuses are exactly those that are not terminal |
| `ScheduledJobs.BatchPartitionsOpenTasks` | src/ltm/notifications/scheduled_jobs.py:106-127 | the lists of a batch hold every task that is not terminal exactly once, and no other |
| `Coordinator.ActionKeyIdentifies` | src/ltm/interaction/coordinator.py:33-39 | two deliveries share a key exactly when verb, reference and the joined token and actor agree, for verbs and references without a colon (which the program's all are) and any token and actor |
| `Coordinator.EqualKeysEqualActions` | src/ltm/interaction/coordinator.py:33-39 | among deliveries that share a key, token and actor agree if and only if the tokens are equally long |
| `Coordinator.UnequalTokensCanCollide` | src/ltm/interaction/coordinator.py:33-39 | two concrete actions of different users with tokens of different lengths and one key |
| `Coordinator.RedeliveryKeepsKey` | src/ltm/interaction/coordinator.py:33-39 | a redelivery under another activity id keeps its key exactly when the card carries a token or a reference, for any contents |
| `Coordinator.GrantsAreFarApart` | src/ltm/interaction/coordinator.py:41-63 | two granted claims of one action with no completion between them are more than five minutes apart |
| `Coordinator.CompletedIsFinal` | src/ltm/interaction/coordinator.py:65-72 | after a completion under another code every claim is refused with the latest completed response |
| `Coordinator.CompletionSettles` | src/ltm/interaction/coordinator.py:53-59 | a later claim after the timeout is granted exactly when there was no row to complete or the code was still IN_PROGRESS |
| `Coordinator.ClaimGetsLastResponse` | src/ltm/interaction/coordinator.py:41-59 | a claim after a claim and a completion is refused with the code and text of the last completion; empty ones are answered as in progress |
| `Coordinator.ClaimWhileInProgress` | src/ltm/interaction/coordinator.py:41-63 | while an action is neither completed nor reclaimed a claim is granted exactly when the one in progress is more than five minutes old, and else told so |
| `Coordinator.NoReceiptsWhenDisabled` | src/ltm/interaction/coordinator.py:41-43 | switched off, every claim is granted and nothing is stored |
| `Coordinator.ResponseCoordinator.TryClaim` | src/ltm/interaction/coordinator.py:41-63 | claim as written, disabled mode and reclaiming included |
| `Coordinator.ResponseCoordinator.CommitInsert` | src/ltm/interaction/coordinator.py:60-63 | the insert of a claim, refused when another claim got there first |
| `Coordinator.ResponseCoordinator.Finish` | src/ltm/interaction/coordinator.py:65-72 | the row takes code, text and time; a missing row stays missing |
| `AssignmentPolicy.SideMatchesEverybodyIff` | src/ltm/policy/assignment.py:21-30 | a side of an edge matches everybody exactly when it is not empty and names neither a user nor a department |
| `AssignmentPolicy.MatchesFieldByField` | src/ltm/policy/assignment.py:21-30 | a side that is not empty matches exactly the profiles that meet its user and its department when given |
| `AssignmentPolicy.ReportingRule` | src/ltm/policy/assignment.py:53-67 | the reporting rule by itself: leading department and own direct report, codes compared without case and outer space |
| `AssignmentPolicy.DecisionClosedForm` | src/ltm/policy/assignment.py:70-108 | the decision as one formula: an applicable deny edge wins, else any one of four grounds suffices |
| `AssignmentPolicy.SomeAppliesIffConnected` | src/ltm/policy/assignment.py:33-41 | the search finds an edge exactly when some listed edge applies in one of its directions |
| `AssignmentPolicy.EdgeOrderDoesNotMatter` | src/ltm/policy/assignment.py:74-94 | order and repetition of edges do not matter |
| `AssignmentPolicy.DenyEdgeOnlyTakes` | src/ltm/policy/assignment.py:74-83 | a new deny edge takes the permission from exactly the pairs it applies to |
| `AssignmentPolicy.AllowEdgeOnlyGives` | src/ltm/policy/assignment.py:91-94 | a new allow edge gives the permission to exactly the pairs it applies to that no deny edge excludes |
| `AssignmentPolicy.PermissionIsMutual` | src/ltm/policy/assignment.py:70-108 | with every edge bidirectional and the reporting rule off, permission is mutual |
| `MentionScoring.ScoreCandidate` | src/ltm/bot/mention_scoring.py:77-105 | the accumulated score is the sum of the weights; it is positive exactly when some supporting signal is present, so the penalty never outweighs one |
| `MentionScoring.ExactIffSameName` | src/ltm/bot/mentions.py:176-181 | a candidate is exact when display name, mail or principal name is the name asked for, up to case and outer space |
| `MentionScoring.AddressSignals` | src/ltm/bot/mention_scoring.py:59-76 | what makes an address one of the primary domain, and what one of onmicrosoft.com only |
| `Texts.StripIsInside` | src/ltm/bot/mention_scoring.py:60-72 | stripping takes away the space at both ends and nothing else |
| `MentionScoring.RankedSorts` | src/ltm/bot/mention_scoring.py:108-150 | the ranking is a permutation of the candidates in order of score, then name |
| `MentionScoring.PickIsChosen` | src/ltm/bot/mention_scoring.py:108-150 | for two or more distinct candidates the pick is the only exact match, else the one that leads by the margin with a positive score, as an equivalence |
| `MentionScoring.PickIgnoresOrder` | src/ltm/bot/mention_scoring.py:108-150 | the pick does not depend on the order of the candidates |
| `MentionScoring.SmallPicks` | src/ltm/bot/mention_scoring.py:115-118 | nobody is picked from nobody, a single candidate always |
| `MentionScoring.PickOffersAll` | src/ltm/bot/mention_scoring.py:115-136 | the candidates offered are a permutation of those given, in order of score and name unless one alone is exact |
| `MentionScoring.LaterTestsAreIdle` | src/ltm/bot/mention_scoring.py:145-148 | for all candidates the result is the same without the two tests after the margin test |
| `MentionScoring.UniqueCandidates` | src/ltm/bot/mentions.py:158-169 | the loop keeps first occurrences by id and skips entries without one |
| `MentionScoring.UniqueKeepsIds` | src/ltm/bot/mentions.py:158-169 | no id is lost but the missing one |
| `MentionScoring.UniqueIsDistinct` | src/ltm/bot/mentions.py:158-169 | the ids that remain are distinct, as the ranking requires |
| `TokenBuckets.GrantsAreBounded` | src/ltm/ai/governor.py:34-53 | for any s <= t and any interleaving, grants in [s, t] total at most capacity plus refill over the span |
| `TokenBuckets.GrantedPlusLeft` | src/ltm/ai/governor.py:34-53 | the conservation law behind it: granted plus what is left is at most a full bucket plus the refill |
| `TokenBuckets.StaysSound` | src/ltm/ai/governor.py:34-47 | the tokens stay within 0 and the capacity |
| `TokenBuckets.AtMostTwiceTheRate` | src/ltm/ai/governor.py:63-67 | no minute sees more than twice the configured rate granted |
| `TokenBuckets.WaitingIsRewarded` | src/ltm/ai/governor.py:34-61 | while nothing is taken or debited after an attempt, a later attempt is granted exactly when what was left and the refill since make up the amount |
| `TokenBuckets.IdleBucketGrants` | src/ltm/ai/governor.py:34-61 | a bucket left alone until the amount has flowed in grants it |
| `TokenBuckets.TokenBucket.TryTake` | src/ltm/ai/governor.py:42-47 | refill and take without yielding, as one event of the bucket |
| `TokenBuckets.TokenBucket.Refill` | src/ltm/ai/governor.py:34-40 | the refill since the last one, capped |
| `TokenBuckets.TokenBucket.RecordTokenUsage` | src/ltm/ai/governor.py:105-111 | the debit of tokens used, never below zero |
| `TokenBuckets.TokenBucket.Acquire` | src/ltm/ai/governor.py:42-53 | the caller's own attempts in the bucket's history: the first at once, all but the last in vain, the last granted or past the deadline with too few tokens, and at most about ceil(max_wait / 0.05) + 1 of them, whatever others do to this bucket and its peer; granted at once when the amount has flowed in before, and with nobody else on the bucket refused only when too little flowed in between its attempts |
| `Governors.Governor.RequestsAreBounded` | src/ltm/ai/governor.py:63-67 | in the governor's whole history no minute grants more than twice the configured number of requests |
| `Governors.ChargesAndPauses` | src/ltm/ai/governor.py:89-103 | an estimate is charged as it is but at least one token, and the interval is in milliseconds |
| `Governors.Governor.Acquire` | src/ltm/ai/governor.py:69-103 | capped exactly when a daily limit is reached, and then nothing is taken; rate limited only when the longest wait has passed and the last attempt on a bucket was for this amount and in vain, or when the last request is too recent for the longest wait; an admitted request has taken one request and its tokens since it asked, and comes at least the interval after the last request made before it asked |
| `Governors.Governor.TakeBoth` | src/ltm/ai/governor.py:92-94 | one request, then its tokens, each granted by its bucket while others use both; or a last attempt in vain on one of them after the longest wait |
| `Governors.Governor.Pause` | src/ltm/ai/governor.py:95-103 | the pause ends no earlier than the interval after the last request seen, or is refused because that request is too recent for the longest wait |
| `CircuitBreakers.RefusalIsDeterminedByHistory` | src/ltm/ai/circuit_breaker.py:33-58 | a request is refused exactly when the failures since the last success reach the threshold and the latest is less than the open time ago |
| `CircuitBreakers.PollingIsInvisible` | src/ltm/ai/circuit_breaker.py:28-41 | when and how often the state was looked at never changes an answer |
| `CircuitBreakers.CircuitBreaker.AllowRequest` | src/ltm/ai/circuit_breaker.py:39-47 | the answer is that function of the history |
| `CircuitBreakers.CircuitBreaker.RecordSuccess` | src/ltm/ai/circuit_breaker.py:49-52 | the fields follow the history |
| `CircuitBreakers.CircuitBreaker.RecordFailure` | src/ltm/ai/circuit_breaker.py:54-58 | the fields follow the history |
| `Gateway.CallsAreDetermined` | src/ltm/ai/gateway.py:290-326 | the primary is called up to its first outcome that is not retried or until the attempts are used up, and no other number of calls fits that |
| `Gateway.CallsOfATurn` | src/ltm/ai/gateway.py:250-288 | the fallback is called once, exactly when enabled and every attempt of the primary failed with a retryable error, and decides the turn then |
| `Gateway.RetryableFaults` | src/ltm/ai/gateway.py:63-87 | the failures worth another call: the network, five statuses, five texts in any case |
| `Gateway.ContainsIff` | src/ltm/ai/gateway.py:74-86 | what it means for a text to contain another |
| `Gateway.FirstOutcomeDecides` | src/ltm/ai/gateway.py:250-326 | after an answer, our own limits, a cancellation or another final failure there is one call and no fallback; after a failure worth another call there is one when attempts are left |
| `Gateway.PauseFollowsAdvice` | src/ltm/ai/gateway.py:319-325 | the advised pause: the header, else the hint, up to a minute and only after a failure worth another call |
| `Gateway.PausesAddUp` | src/ltm/ai/gateway.py:319-325 | the pauses after the calls made are added up, each once |
| `Gateway.UsageFollowsOutcome` | src/ltm/ai/gateway.py:195-248 | the usage record of a turn: model, outcome, tokens and calls of what it ended with |
| `Gateway.OneReportOrNone` | src/ltm/ai/gateway.py:195-248 | an answer is reported as a success, a failure of the provider as a failure, a stop by our own limits or a cancellation not at all, and a usage record goes with every report |
| `Gateway.EachTurnReportsOnce` | src/ltm/ai/gateway.py:179-248 | over any interleaving of turns the breaker holds one success for each ended turn that answered, one failure for each that failed at the provider, and nothing for the rest |
| `Gateway.BeginsAsTheHistorySays` | src/ltm/ai/gateway.py:189-193 | a new turn is admitted exactly when the history of the breaker does not refuse it, in any interleaving |
| `Gateway.AdvisedPause` | src/ltm/ai/gateway.py:319-325 | an advised pause is between 0 and 60 seconds and only follows a retryable failure |
| `Gateway.ResilientModel.CallWithRetries` | src/ltm/ai/gateway.py:290-326 | the retry loop makes that number of calls and returns the last outcome; its advised pauses are bounded |
| `Gateway.ResilientModel.CallWithRetriesAndFallback` | src/ltm/ai/gateway.py:250-288 | retries, then at most one fallback call |
| `Gateway.ResilientModel.GenerateText` | src/ltm/ai/gateway.py:179-248 | a turn is refused exactly when the breaker's history says so, and then calls nobody; an admitted one adds exactly its one report, or none, and its usage record after whatever other turns did meanwhile |
| `MemoryTrim.SplitIntoTurns` | src/ltm/ai/memory_trim.py:12-24 | the loop computes the turns |
| `MemoryTrim.FlattenOfTurns` | src/ltm/ai/memory_trim.py:12-24 | flattening the turns of a conversation gives it back |
| `MemoryTrim.TurnsOfFlatten` | src/ltm/ai/memory_trim.py:12-24 | splitting flattened well-formed turns gives them back |
| `MemoryTrim.TurnsWellFormed` | src/ltm/ai/memory_trim.py:12-24 | turns are not empty, and a user message only ever opens one |
| `MemoryTrim.CutKeepsBeginning` | src/ltm/ai/memory_trim.py:27-37 | a cut tool result keeps its first characters and tells how many are gone; no other message changes |
| `MemoryTrim.TrimMessages` | src/ltm/ai/memory_trim.py:40-62 | the trimming loops compute the best number of most recent turns, tool results cut |
| `MemoryTrim.ContentChars` | src/ltm/ai/memory_trim.py:65-66 | the sum over turns equals the length of the flattened content |
| `MemoryTrim.DropOldTurns` | src/ltm/ai/memory_trim.py:58-60 | oldest turns are dropped until the rest fits or one is left |
| `MemoryTrim.TrimmedIsLongestSuffix` | src/ltm/ai/memory_trim.py:40-62 | with a limit on, the result is the longest run of most recent whole turns within both limits, or the last turn alone |
| `MemoryTrim.TrimmedIsSuffix` | src/ltm/ai/memory_trim.py:40-62 | what is kept is a suffix of the conversation, each message cut pointwise |
| `MemoryTrim.TrimIsIdempotent` | src/ltm/ai/memory_trim.py:40-62 | with the tool cap off, trimming twice is trimming once |
| `MemoryTrim.ListMemory.Trim` | src/ltm/ai/memory_trim.py:69-99 | the memory holds the trimmed conversation and the result is the number of messages removed |
| `LlmUsage.TableAgreesWithLog` | src/ltm/storage/llm_usage.py:57-98 | there is one row per day, provider and model; it holds the clamped sums of its calls, and a day's total those of the day |
| `LlmUsage.OneMoreCallInRow` | src/ltm/storage/llm_usage.py:57-98 | which field of a call reaches which total of the row of its day, provider and model, and that no other row changes |
| `LlmUsage.OneMoreCallInDay` | src/ltm/storage/llm_usage.py:30-98 | the same for the total of its day |
| `LlmUsage.TotalsIgnoreOrder` | src/ltm/storage/llm_usage.py:57-98 | calls in another order leave the same totals in every row and for every day |
| `LlmUsage.DayTotalsIgnoreModels` | src/ltm/storage/llm_usage.py:30-55 | a day's totals do not depend on how calls are split over providers and models |
| `LlmUsage.FailuresWithinRequests` | src/ltm/storage/llm_usage.py:69-98 | in every row and for every day fallbacks and errors together never exceed the requests |
| `LlmUsage.LlmUsageRepository.RecordUsage` | src/ltm/storage/llm_usage.py:57-98 | the upsert adds one call to the row of its key |
| `LlmUsage.LlmUsageRepository.GetDailyTotals` | src/ltm/storage/llm_usage.py:30-55 | the loop sums the rows of the day |

## Left out

- Chat routing, cards, help text, list and search queries and their formatting: presentation and plain filters.
- Directory, mail and ERP lookups, message sends and model calls: their results are arbitrary choices here.
- The verifier mode that asks the directory for a manager (graph_manager): its answer depends on a live call.
- `updated_at` of every table, the summary and event name of a delivery row, and display names: no rule reads them.
- `revision`, `take_draft` and `revise_draft` of drafts: not used on the confirmation path.
- SHA-256 in `action_key`: the text that is hashed stands for the key.
- Text operations are ASCII: lower and upper case, white space and digits outside ASCII are not modelled.
- Isolation: outside `DraftRace` each transaction is atomic. Two overlapping reclaims of one receipt, or two first usage records of one key, are therefore one after the other.
- The explicit cancellation request in src/ltm/domain/state_machine.py:15-16: no caller makes one.
- Storage.Database.CreateFromDraft: the year of a new task is a parameter rather than read from the clock.
- Outbox.EachRowResentAtMostOnce: counts resends of committed retry runs; a run that raises is rolled back although its messages have gone out.
- Outbox.NotificationService.RetryFailedDeliveries: rows come in any order rather than oldest first, which makes the results hold for every order.
- Idempotency keys: the receipts of card actions and the keys of notices and jobs share a table; their prefixes differ, so they are kept in two models. A day is named in a key by its number.
- ScheduledJobs.RunOverdueRefreshAndNotify: an exception while a notice is sent is modelled before its row is logged; the escalation threshold is an integer read in advance.
- Governors.Governor.Acquire: no distance between concurrent requests is claimed, because two waiters can read the same last request time; the usage totals the caps are compared with are a parameter.
- TokenBuckets.TokenBucket.Acquire: a sleep is taken to last at least as long as asked; times and tokens are real numbers without rounding.
- Gateway.ResilientModel.GenerateText: the backoff between attempts and the timeout are not timed; bookkeeping after the answer is taken not to raise; the debit of the token bucket is in `TokenBuckets`.
- Mention parsing and the merge of overrides in src/ltm/bot/mentions.py: only the deduplication of candidates is modelled.
- The rewriting of a review row without discarding its draft (missing slots, or a clear not guarded by the revision): the ledger allows it, and nothing is claimed about how many drafts are active.
- Messages of policy denials, department labels and profile lookups.
