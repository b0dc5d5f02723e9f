# Retreat operations: a verified model

The backend keeps the stays, cleaning tasks, checklists, issues, messages and room
codes of a company's retreat houses. Nearly every request is one serializable
transaction over a few tables, guarded by version numbers, unique keys and
compare-and-swap updates. This project models those transactions and the larger
workflows built from them, and proves what they promise together: over every input,
every sequence of requests and, where callers really interleave, every interleaving.

Run `dafny verify dfyconfig.toml` to check everything.

## How the model is made

- A service that writes tables is a class whose fields are those tables. Each method
  follows the service's own steps and is proved equal to a function of the old tables
  and the request; the properties are then proved about that function, for single
  requests and for runs of any length. What a request writes and when it is refused is
  also stated field by field, without that function, by the lemmas named `...Means` and
  `...Iff`.
- A serializable transaction is one atomic step. Message dispatch, which makes a remote
  call between two transactions, is a state machine with one action per transaction or
  remote call, and callers may stop for good between any two.
- Rows found by a unique key are maps, or sequences with an explicit look-up. Digests
  stand for what they digest (they are taken as injective); `updatedAt` is a fresh stamp
  where a compare-and-swap relies on it; sealing and opening a room code are inverse.
- The clock, random ids, random numbers, the session's user and what other tables say in
  the same transaction are parameters. A random id is assumed unused, and nothing else
  is assumed of it.

## The parts

- **Roster import** (`RosterPreview`, `RosterConflicts`, `RosterValidation`,
  `RosterFindings`, `RosterConfirmation`, `RegisteredStays`, `Bookings`, `StayEdits`,
  `ImportRuns`). The sorted sweep with early exit finds exactly what comparing all pairs
  finds; one bounded query finds every stay in the way; a roster is confirmed exactly if
  nothing is, its stays are what its stored rows say, and a house is never double-booked
  by any run of confirmations and edits. Rows are conserved and a repeated confirmation
  answers with the first receipt.
- **Messages** (`Provider`, `Messaging`, `DispatchProtocol`, `DispatchPaths`,
  `DispatchRuns`, `Automation`, `AutomationJobs`, `AutomationRuns`, `AutomationRunner`,
  `JobTurns`, `AutomationTicks`, `ReminderDelivery`, `RunnerLease`). In every
  interleaving of callers, retries, refreshes, crashes and overlapping runners each
  request key reaches the provider at most once; so a stay gets at most one automatic
  reminder of each kind. After any number of scans that keep out of each other's way,
  whole or cut short, the live jobs of every stay and task are those of its last
  observation.
- **Checklists** (`Text`, `ChecklistDefinition`, `StoredDefinitions`, `ChecklistBuild`,
  `ChecklistArchive`, `ChainInspection`, `AdminAccounts`, `ChecklistPublishing`,
  `ChecklistRuns`, `ChecklistBackfill`). The paged inspection of an archive accepts
  exactly the unbroken chains, and no order of publications, backfills and account
  changes ever leaves it anything else.
- **Issue and submission histories** (`IssueHistory`, `IssueContents`, `IssueRequests`,
  `CorrectionIssues`, `IssueRecurrence`, `SubmissionHistory`, `SubmissionContents`,
  `SubmissionRequests`). What the writers append is never refused by the readers,
  repeated requests take effect once and answer alike, and recurrence links stay
  acyclic.
- **Cleaning tasks and room codes** (`CleaningTasks`, `CleaningTaskWrites`,
  `CleaningTaskRuns`, `StayAccess`, `SavedCodes`, `TaskAccess`, `TaskPasswords`). Tasks
  follow the schedule, freeze when they should and come back when a cancellation is
  undone. Every saved room code stands up to its own review. A worker completes a task
  only while the code shown is still the current one, and the code set for the next
  guest is not the code of the guest who left.
- **Staff handover and QR codes** (`StaffAssignment`, `HandoverContents`). Every
  assigned worker is active, and a revoked code never works again.
- **Archive export** (`PreservationArchive`, `PreservationReader`). The change log
  replays to the record at every version.

## Where the code falls short of an expectation

Each of these is a theorem about the code as it is, with the exact condition.

- The runner writes a job unconditionally. If its lease runs out between reading a job and
  parking it, a dropped notice becomes live again beside its successor
  (`AutomationRuns.OverlappingRunnersBreakIt`). An observation settles its subject's jobs
  exactly when the notices it leaves standing were in order before
  (`AutomationRuns.ObservationSettlesIff`). Reminders are still sent at most once.
- The recovery of untied jobs pages with a cursor over a query that its own writes change.
  The database client starts at the cursor's place and skips one row, so a cursor that was
  just tied costs the next untied job instead (`AutomationRunner.FullPageCostsTheNext`);
  all attempted jobs are recovered exactly under the condition of
  `AutomationRunner.RecoversAllIff`, and always when there are at most a hundred. A job
  missed this way is still never sent twice.
- An issue reported together with its repair has two events of the same time; the times of
  a history rise strictly exactly when that did not happen (`IssueHistory.RunTimes`).
- Replacing a room code repeats the old code exactly where the house has a fixed code that
  was already the one in use (`StayAccess.ReplaceRepeatsIff`).
- The code set for a house that nobody has booked next is the departed guest's own exactly
  where the house's vacancy code equals it, and the settings accept such a vacancy code
  (`TaskAccess.DepartingCodeReturnsIff`, `TaskAccess.VacancyCodeMayRepeat`).
- A reconciliation of a whole property leaves out the upcoming stays of a closed property,
  which the reconciliation of a single stay does not
  (`CleaningTaskRuns.SyncPropertyLeavesNothing`).
- After a submission was cancelled, repeating an earlier correction is refused rather than
  answered with its receipt (`SubmissionRequests.RepeatReturnsSameReceipt`).

## Model

| member | source | states |
|---|---|---|
| RosterPreview.Roster.Flag | src/components/admin-stay-imports/roster-preview.ts:59-70 | A row gets a finding once; an invalid row stays invalid, any other flagged row needs review. |
| RosterPreview.Roster.NameStays | src/components/admin-stay-imports/roster-conflicts.ts:57-59 | The first message about an overlap names the stays it is with, and no other message changes. |
| RosterPreview.WithCodeAdds | src/components/admin-stay-imports/roster-preview.ts:65-66 | Flagging adds exactly its code and keeps every earlier message. |
| RosterFindings.FlaggedMeans | src/components/admin-stay-imports/roster-preview.ts:59-70 | A flagged row has one more finding, unless it had it, is never valid, and is invalid exactly if it was or the finding makes it so. |
| RosterConflicts.StayBounds | src/components/admin-stay-imports/roster-conflicts.ts:12-31 | A row has a range only if it has data, is not invalid and departs after it arrives. |
| RosterConflicts.SortByFromSorts | src/components/admin-stay-imports/roster-conflicts.ts:82-82 | Sorting a group orders it by arrival and loses or repeats no member. |
| RosterConflicts.SeenRow | src/components/admin-stay-imports/roster-conflicts.ts:84-88 | Leaving the inner loop at the first member that starts late enough misses no overlap. |
| RosterConflicts.SweepMember | src/components/admin-stay-imports/roster-conflicts.ts:83-108 | One turn of the outer loop marks exactly the overlaps of that member with later ones, on both rows. |
| RosterConflicts.SweepGroup | src/components/admin-stay-imports/roster-conflicts.ts:81-110 | The sorted sweep leaves every member with the codes of the comparison of all pairs and every other row alone. |
| RosterConflicts.GroupRows | src/components/admin-stay-imports/roster-conflicts.ts:37-80 | Groups hold exactly the rows with a range, by property or else by sheet, and each row is compared with the registered stays. |
| RosterConflicts.GroupCodesAreSourceCodes | src/components/admin-stay-imports/roster-conflicts.ts:46-49 | Overlapping within a group is overlapping with a row of the same property anywhere in the roster. |
| RosterConflicts.CheckRosterConflicts | src/components/admin-stay-imports/roster-conflicts.ts:33-111 | Each row gains exactly the codes of the stays and rows it conflicts with, names the first twenty stays, and is otherwise unchanged. |
| RosterConflicts.MarkedExactly | src/components/admin-stay-imports/roster-conflicts.ts:81-110 | A row is marked as a copy, or as overlapping, exactly when another row of its group intersects it and is, or is not, an exact copy; skipped rows and rows without a range gain nothing. |
| RosterValidation.ReviewRow | src/components/admin-stay-imports/admin-stay-import-validation.service.ts:215-275 | One row is judged by its property and its fields, and normalized when it passes. |
| RosterValidation.WindowMissesNone | src/components/admin-stay-imports/admin-stay-import-validation.service.ts:276-301 | The one query between the earliest arrival and the latest departure returns every active stay that is in the way of any row. |
| RosterValidation.ClearCodes | src/components/admin-stay-imports/admin-stay-import-validation.service.ts:276-308 | A row has no conflict code exactly when no active stay of its property, bounded query or not, and no other row intersects it. |
| RosterValidation.OutcomeValid | src/components/admin-stay-imports/admin-stay-import-validation.service.ts:161-310 | A validated row is VALID exactly when it can be registered, and then carries its normalized times. |
| RosterValidation.ValidateRows | src/components/admin-stay-imports/admin-stay-import-validation.service.ts:161-310 | An unsupported action or too many stays in range is refused; otherwise every row to create is VALID if and only if nothing among the roster and all stays stands in its way. |
| RosterFindings.ReviewedMeans | src/components/admin-stay-imports/admin-stay-import-validation.service.ts:161-275 | By itself a row keeps what the parser found, gains what is wrong with its property and its fields, is valid exactly without any finding, and invalid exactly for a fatal one. |
| RosterFindings.WindowMeans | src/components/admin-stay-imports/admin-stay-import-validation.service.ts:276-301 | The query returns exactly the active stays of the rows' properties between the first arrival and the last departure. |
| RosterFindings.OutcomeMeans | src/components/admin-stay-imports/admin-stay-import-validation.service.ts:276-310 | The validated row adds exactly its conflicts: a stay in its way, the same guest at the same times, another row that overlaps it, a copy of it. |
| RosterFindings.ConfirmableIff | src/components/admin-stay-imports/admin-stay-import-validation.service.ts:161-310 | A row may be registered exactly if nothing was found in it, its property is open, its name, texts and strict times are sound, no active stay overlaps it and no other row does. |
| RosterConfirmation.ImportDatabase.PersistValidation | src/components/admin-stay-imports/admin-stay-import-validation.service.ts:312-338 | Saving in statements of a hundred rows is saving all rows at once. |
| RosterConfirmation.ImportDatabase.ApplyRows | src/components/admin-stay-imports/admin-stay-import-confirmation.service.ts:153-231 | The chunks of two hundred together add every stay, revision and task once and mark every row once. |
| RosterConfirmation.ImportDatabase.Claim | src/components/admin-stay-imports/admin-stay-import-confirmation.service.ts:134-231 | Claiming the preview version leaves exactly the confirmed batch and the added rows of each table. |
| RosterConfirmation.ImportDatabase.Validate | src/components/admin-stay-imports/admin-stay-import-confirmation.service.ts:79-88 | The validation inside the transaction establishes, for that very state, which rows can be registered. |
| RosterConfirmation.ImportDatabase.ConfirmRows | src/components/admin-stay-imports/admin-stay-import-confirmation.service.ts:89-241 | One unready row refuses the whole roster; otherwise the receipt counts what was created and skipped. |
| RosterConfirmation.ImportDatabase.Confirm | src/components/admin-stay-imports/admin-stay-import-confirmation.service.ts:51-245 | Every request is refused without effect, answered with the saved receipt, or turns the preview into stays; what the stays are and when a request is refused is `RegisteredStays.ConfirmRegisters` and `RegisteredStays.ConfirmedIff`. |
| RosterConfirmation.NewStayFree | src/components/admin-stay-imports/admin-stay-import-confirmation.service.ts:79-132 | The stay of a ready row overlaps no active stay of its property. |
| RosterConfirmation.NewStaysApart | src/components/admin-stay-imports/admin-stay-import-confirmation.service.ts:79-132 | The stays of two ready rows never overlap in one property. |
| RosterConfirmation.ConfirmKeepsStays | src/components/admin-stay-imports/admin-stay-import-confirmation.service.ts:79-179 | If active stays were pairwise apart, they still are with all new ones. |
| RosterConfirmation.ConfirmKeepsSound | src/components/admin-stay-imports/admin-stay-import-confirmation.service.ts:51-245 | A confirmation double-books nothing, whatever its answer. |
| RosterConfirmation.BulkTasksAreSynced | src/components/admin-stay-imports/admin-stay-import-confirmation.service.ts:195-210 | The bulk insertion of tasks leaves what reconciling each new stay in turn, at the same clock, would leave. |
| RosterConfirmation.ConfirmSyncsTasks | src/components/admin-stay-imports/admin-stay-import-confirmation.service.ts:195-210 | The tasks after a confirmation are those of reconciling exactly the added stays. |
| RosterConfirmation.ConfirmConservesRows | src/components/admin-stay-imports/admin-stay-import-confirmation.service.ts:211-241 | Every row to create refers to its own stay, a skipped row to none, and created plus skipped is the roster. |
| RosterConfirmation.ConfirmAddsStays | src/components/admin-stay-imports/admin-stay-import-confirmation.service.ts:99-194 | Each row to create adds one active stay whose name, company, department, phone, notes, property and times are each the row's own, at revision 1, and one first revision naming the row; nothing earlier changes. |
| RosterConfirmation.ConfirmReadsBack | src/components/admin-stay-imports/admin-stay-import-confirmation.service.ts:266-292 | The receipt read back from the stored batch is the one the confirmation answered with. |
| RegisteredStays.ValidatedKeeps | src/components/admin-stay-imports/admin-stay-import-validation.service.ts:215-275 | A validated row keeps its id, property, action and guest; its times are the same instants in canonical form, with their days in Seoul. |
| RegisteredStays.ConfirmRegisters | src/components/admin-stay-imports/admin-stay-import-confirmation.service.ts:99-231 | Every stored row to create became a stay of its own with the guest, the property and the instants that the stored row says, its own first revision and a reference to both; every other row refers to nothing. |
| RegisteredStays.ConfirmWrites | src/components/admin-stay-imports/admin-stay-import-confirmation.service.ts:134-241 | The batch is confirmed one version later, by whom and when the receipt says; exactly the rows to create were added, nothing earlier changed, and no other batch did. |
| RegisteredStays.ConfirmedIff | src/components/admin-stay-imports/admin-stay-import-confirmation.service.ts:51-133 | A preview is confirmed if and only if it is the supported, untouched preview of the version seen, within the limits, and nothing among the roster and all stays is in the way of any row to create; otherwise nothing changes. |
| RegisteredStays.ConfirmRefusedFor | src/components/admin-stay-imports/admin-stay-import-confirmation.service.ts:51-133 | A refused confirmation changes nothing and is refused for the first thing wrong with the administrator, the batch or its rows. |
| RegisteredStays.ConfirmAddsTasks | src/components/admin-stay-imports/admin-stay-import-confirmation.service.ts:195-210 | A new stay gets its cleaning task exactly when it departs today or later in Seoul. |
| Bookings.ApplyKeeps | src/components/stays/stays.service.ts:72-286 | Adding, changing, cancelling and restoring a stay keep the active stays of a property apart. |
| StayEdits.CreateMeans | src/components/stays/stays.service.ts:72-109 | A stay is added exactly to an open property with nobody else in that time, with what was given, at revision 1. |
| StayEdits.EditReaches | src/components/stays/stays.service.ts:160-286 | An update, cancellation or restoration goes through exactly for the revision that was seen and the status it is about, with a free time where the times move or the stay comes back; it changes that stay as asked and no other. |
| ImportRuns.RunKeeps | src/components/admin-stay-imports/admin-stay-import-confirmation.service.ts:51-245 | At no moment of any run of confirmations, edits and openings or closings of properties does a property hold two active stays at once. |
| ImportRuns.RepeatedConfirmSameReceipt | src/components/admin-stay-imports/admin-stay-import-confirmation.service.ts:61-64 | Repeating a confirmation at any later moment changes nothing and returns the first receipt. |
| Provider.SendOutcomeShape | src/components/messaging/solapi.provider.ts:118-214 | A reply never reads as still sending, and an accepted or delivered one always has a provider message id. |
| Provider.AmbiguityIsNeverFailure | src/components/messaging/solapi.provider.ts:118-214 | A request reads as FAILED exactly when the provider refused it with an HTTP code that says so, or named a code 1xxx, 2xxx or 3xxx other than 2000, 2100, 3000, 3014 and 3048 in the one place that counts; anything unclear stays UNKNOWN and so is not sent again. |
| Provider.CodesMean | src/components/messaging/solapi.provider.ts:37-45 | 4000 is delivered, 2000, 2100 and 3000 are accepted, any other 1xxx to 3xxx except 3014 and 3048 is failed, and everything else is unknown. |
| Provider.UnclearReplyKeeps | src/components/messaging/solapi.provider.ts:118-259 | A lookup that failed, found nothing or found no clear code tells nothing of a message. |
| Provider.LookupOutcomeMeans | src/components/messaging/solapi.provider.ts:216-259 | What a lookup reads of a message, by its answer and its code. |
| Messaging.DispatchTable.Claim | src/components/messaging/messaging.service.ts:240-286 | A row is claimed exactly when the request is ready, no attempt at its event is open and its key is new; a request beaten to its key or its event is answered with the row under its key, or as already requested. |
| Messaging.DispatchTable.FailBeforeSend | src/components/messaging/messaging.service.ts:305-316 | A recheck that fails ends the row as FAILED and frees its event. |
| Messaging.DispatchTable.RecordResult | src/components/messaging/messaging.service.ts:325-334 | The provider's result is written to the claimed row; only a failure frees the event. |
| Messaging.DispatchTable.RefreshWrite | src/components/messaging/messaging.service.ts:178-231 | A refresh writes only if nobody wrote since it read the row; what it makes of the reply is `Messaging.RefreshMeans`. |
| Messaging.ReadyMeans | src/components/messaging/messaging.service.ts:338-369 | When a request is ready to be claimed, and what is wrong when it is not. |
| Messaging.ClaimedMeans | src/components/messaging/messaging.service.ts:253-286 | A claimed row holds the request's subject, kind, mode, key and digest, in SENDING and under its event. |
| Messaging.RefusedClaimMeans | src/components/messaging/messaging.service.ts:240-286 | A claim that does not go through is answered, in this order, as unauthorized, as not ready, with the row under its key, or as already requested. |
| Messaging.RecordedMeans | src/components/messaging/messaging.service.ts:325-334 | The recorded row is the claimed one with the status, ids and code of the result; it loses its event exactly on a failure. |
| Messaging.RefreshMeans | src/components/messaging/messaging.service.ts:178-231 | A refresh takes over what a clear code says; otherwise an accepted row stays accepted and any other becomes UNKNOWN; the event is given up exactly on a rejecting code. |
| Messaging.RefreshProceedsIff | src/components/messaging/messaging.service.ts:178-204 | A refresh leaves delivered and failed rows alone, and for a minute a row still being sent; it looks every other row up. |
| DispatchProtocol.StepKeeps | src/components/messaging/messaging.service.ts:233-336 | Every step of every caller and refresh keeps the protocol's invariant and moves rows only forward. |
| DispatchPaths.DispatchGoesThrough | src/components/messaging/messaging.service.ts:233-336 | Undisturbed, a ready request with a new key about a free event is claimed, rechecked and sent exactly once, and its row ends with the provider's answer. |
| DispatchPaths.ChangedContextIsNotSent | src/components/messaging/messaging.service.ts:287-316 | A claimed request that is no longer ready, or about something else than was claimed, is not sent and frees its event. |
| DispatchPaths.RepeatIsOnlyAnswered | src/components/messaging/messaging.service.ts:233-286 | A request with a used key, or one that may not be claimed, is only answered. |
| DispatchPaths.RefreshWritesUnlessBeaten | src/components/messaging/messaging.service.ts:178-231 | A refresh writes what it made of the reply exactly where nobody wrote the row since it was read. |
| DispatchRuns.RunKeeps | src/components/messaging/messaging.service.ts:178-336 | The invariant holds after any interleaving of steps, crashes included. |
| DispatchRuns.StatusesOnlyMoveForward | src/components/messaging/messaging.service.ts:178-336 | FAILED and DELIVERED are final, ACCEPTED never falls back, no provider id is lost, and ACCEPTED and DELIVERED rows have one. |
| DispatchRuns.EachKeyIsSentAtMostOnce | src/components/messaging/messaging.service.ts:233-336 | In every interleaving an idempotency key reaches the provider at most once. |
| DispatchRuns.SendsMatchTheirClaim | src/components/messaging/messaging.service.ts:287-324 | What is sent has the claimed digest and the version its caller asked for. |
| DispatchRuns.OneOpenAttemptPerEvent | src/components/messaging/messaging.service.ts:253-271 | The deduplication key is null exactly on FAILED rows, and of two attempts at one event one has failed. |
| DispatchRuns.RetriesReturnOneReceipt | src/components/messaging/messaging.service.ts:234-239 | All successful answers to one request key name the same row. |
| Automation.AutomationStore.CloseJobs | src/components/message-automation/message-automation.service.ts:170-205 | A closed source loses its unsent jobs, a cancelled one all but its cancellation notice. |
| Automation.AutomationStore.WriteReminder | src/components/message-automation/message-automation.service.ts:269-309 | A reminder is rebuilt for the new dates unless it was already handed to the provider. |
| Automation.AutomationStore.NoticeChange | src/components/message-automation/message-automation.service.ts:219-250 | A material change gives one notice of the right kind, a new eligible task one assignment notice, and nothing else gives any; which kind that is is `AutomationJobs.NoticeIsQueued`. |
| Automation.AutomationStore.Observe | src/components/message-automation/message-automation.service.ts:151-267 | One observation leaves every job of every subject, and the target row, as the job-by-job specification says, which the lemmas of `AutomationJobs` spell out. |
| AutomationJobs.NoticeIsQueued | src/components/message-automation/message-automation.service.ts:219-250 | A change of a source seen before is told at once: a cancelled stay by GUEST_CANCEL, a changed one by GUEST_CHANGE, a task by STAFF_CANCEL or STAFF_CHANGE, under the next sequence number and the source's own version and fingerprint; a task created since the activation and seen for the first time gives STAFF_ASSIGNMENT. |
| AutomationJobs.NothingElseIsQueued | src/components/message-automation/message-automation.service.ts:219-250 | No other notice appears. |
| AutomationJobs.RemindersAreSet | src/components/message-automation/message-automation.service.ts:185-309 | An active stay to come has both reminders for its present dates: a week before arrival, and at the chosen Seoul hour of the day before departure; each is skipped exactly if it lies before the activation, before the booking, or more than an hour ago. |
| AutomationJobs.NoOtherReminders | src/components/message-automation/message-automation.service.ts:185-205 | Only an active stay to come gets reminders. |
| AutomationJobs.WaitingNotices | src/components/message-automation/message-automation.service.ts:170-267 | A notice that waits is dropped for the reason that the observation gives, or stays and follows a version of the same content. |
| AutomationJobs.WaitingReminders | src/components/message-automation/message-automation.service.ts:170-205 | A reminder that waits is dropped when its stay is over or cancelled. |
| AutomationJobs.SettledJobsStay | src/components/message-automation/message-automation.service.ts:151-332 | What was sent or skipped, and every other subject's jobs, stay as they are. |
| AutomationJobs.TargetRemembers | src/components/message-automation/message-automation.service.ts:251-267 | The target row keeps what was seen and counts the changes. |
| AutomationRuns.ObservationSettlesIff | src/components/message-automation/message-automation.service.ts:151-332 | From any job table, all live jobs of the subject carry its current fingerprint and version with at most one notice, if and only if the notices left standing were in order. |
| AutomationRuns.ExclusiveRunKeeps | src/components/message-automation/message-automation.service.ts:151-332 | Over any history in which runners exclude each other, live jobs stay on their target's fingerprint and version, and no waiting job is tied. |
| AutomationRuns.StepKeepsUntied | src/components/message-automation/message-automation.runner.ts:288-323 | No job that waits to be sent ever carries a dispatch id: the writes that tie a job end its waiting, and observations rebuild only what is untied. |
| AutomationRuns.EveryObservationSettles | src/components/message-automation/message-automation.service.ts:151-332 | In such histories every observation settles its subject, over changes, closures, cancellations, rebaselines and dispatches. |
| AutomationRuns.LastObservationSettles | src/components/message-automation/message-automation.service.ts:151-332 | And it stays settled: after any such history every subject is settled on what was last observed of it. |
| AutomationRuns.OverlappingRunnersBreakIt | src/components/message-automation/message-automation.runner.ts:314-323 | The runner's unconditional write can revive a dropped notice once its lease ran out. |
| AutomationRunner.Runner.Dispatch | src/components/message-automation/message-automation.runner.ts:227-286 | One run over a job sends at most the one specified request and makes exactly the specified write. |
| JobTurns.TurnMeans | src/components/message-automation/message-automation.runner.ts:227-312 | A run ties a job to the attempt there is, skips it when it is over an hour late, closed or out of date, leaves it waiting when it cannot be sent, and ties it to the message sent, with the status of its outcome; nothing else of the job changes. |
| JobTurns.RequestMeans | src/components/message-automation/message-automation.runner.ts:227-278 | A request goes out exactly for a job in time, without an attempt, whose source is open and as it was, with a preview and the lease, and carries the job's own subject, kind, key and version. |
| JobTurns.DueMeans | src/components/message-automation/message-automation.runner.ts:102-125 | The due jobs are exactly those pending or blocked whose time has come, each once, in order. |
| AutomationRunner.Runner.Record | src/components/message-automation/message-automation.runner.ts:288-312 | A dispatch ties its job for good: it is no longer live. |
| AutomationRunner.Runner.RecoverAttempts | src/components/message-automation/message-automation.runner.ts:149-173 | With its lease renewed the recovery ends, ties exactly the reached jobs that were attempted, and changes no other job; cut short, it has tied the pages so far. |
| AutomationRunner.OnePageMissesNone | src/components/message-automation/message-automation.runner.ts:149-173 | Of at most a hundred untied jobs every attempted one is tied. |
| AutomationRunner.MissedOnlyBehindTied | src/components/message-automation/message-automation.runner.ts:149-173 | A job is only ever missed right behind one that this recovery tied. |
| AutomationRunner.FullPageCostsTheNext | src/components/message-automation/message-automation.runner.ts:153-171 | When the last job of a full page is tied, the next untied job is skipped. |
| AutomationRunner.RecoversAllIff | src/components/message-automation/message-automation.runner.ts:149-173 | Every attempted job is recovered if and only if behind no full page with an attempted last job there is another attempted job. |
| AutomationRunner.RecoveryKeeps | src/components/message-automation/message-automation.runner.ts:149-173 | Recovery is a history of exclusive writes without an observation: live jobs stay on their source's current fingerprint and version, and no waiting job is tied. |
| AutomationRunner.DispatchKeeps | src/components/message-automation/message-automation.runner.ts:227-286 | So does a run over a job still live at its write, which leaves it tied, skipped, or blocked for a reason that may pass. |
| AutomationRunner.Runner.WorkOff | src/components/message-automation/message-automation.runner.ts:102-125 | The paged loop over due jobs is one plain walk: with the lease renewed it ends at the end of the walk, and cut short at the place it reached, with exactly the walk's jobs and requests. |
| AutomationRunner.PassRunsOnce | src/components/message-automation/message-automation.runner.ts:102-125 | A pass runs exactly once over each job that was due when it began, blocked ones included, and touches no other. |
| AutomationRunner.PassSendsOnce | src/components/message-automation/message-automation.runner.ts:102-125 | A pass asks for no message twice. |
| AutomationRunner.PassKeeps | src/components/message-automation/message-automation.runner.ts:102-125 | So is a pass, or any part of one, from any such state on, whatever sources and previews it reads. |
| AutomationRunner.SendsOnlyWhatItRead | src/components/message-automation/message-automation.runner.ts:227-278 | A request goes out only without an earlier attempt, within the hour, and for the very version and fingerprint of an open source just read. |
| AutomationTicks.Reconcile | src/components/message-automation/message-automation.service.ts:95-149 | The loop observes the sources one after the other until the lease is lost. |
| AutomationTicks.RefreshResults | src/components/message-automation/message-automation.runner.ts:175-215 | A refreshed result is written on the jobs tied to its dispatch and on no others. |
| AutomationTicks.Scan | src/components/message-automation/message-automation.runner.ts:88-127 | A scan leaves what recovering, observing, working off and refreshing in turn leave, up to where its lease was lost; with enough renewals it does all of it. |
| AutomationTicks.TickIsExclusive | src/components/message-automation/message-automation.runner.ts:50-147 | A scan, whole or cut short, is a history in which nobody else writes, with exactly its observations. |
| AutomationTicks.TicksAreExclusive | src/components/message-automation/message-automation.runner.ts:72-146 | So is any sequence of scans that exclude each other, from the empty tables on. |
| AutomationTicks.TicksSettle | src/components/message-automation/message-automation.runner.ts:50-147 | After any such sequence jobs agree with their targets, no waiting job is tied, and the live jobs of every subject carry what was last observed of it, with at most one notice among them. |
| ReminderDelivery.OneReminderPerKind | src/components/message-automation/message-automation.service.ts:285-308 | However often a stay is rescheduled, cancelled, restored or rebaselined, and with overlapping runners, it gets at most one automatic reminder of each kind. |
| ReminderDelivery.AutomaticSendsFollowAJob | src/components/message-automation/message-automation.runner.ts:227-286 | Every automatic message is about its job's own subject and kind, at the version the job was read with. |
| RunnerLease.LeaseRow.Request | src/components/message-automation/message-automation.runner.ts:72-146 | Acquiring needs a free or expired lease, renewing an unexpired one of one's own, releasing one of one's own. |
| RunnerLease.GrantMeans | src/components/message-automation/message-automation.runner.ts:72-146 | For two minutes after a grant only its runner renews or gives up the lease; after that anyone acquires it and nobody renews it. |
| RunnerLease.HolderIsAlone | src/components/message-automation/message-automation.runner.ts:217-225 | For the length of the lease after a grant no other runner's acquisition or renewal goes through. |
| Text.TrimIsIdempotent | src/components/checklist-templates/checklist-version-backfill.ts:59-66 | A text equals its trimmed self exactly when it has no space at either end, as every trimmed text does. |
| Text.TrimDropsSpace | src/components/checklist-templates/checklist-version-backfill.ts:59-66 | A trim drops the outer space and nothing else. |
| Text.LowerKeepsUuid | src/components/checklist-templates/checklist-definition.ts:104-112 | Lower-casing an id keeps it a version 4 identifier and does nothing the second time. |
| Text.Utf16IsNoShorter | scripts/create-admin.ts:84-87 | A text has at least as many UTF-16 units as characters, so a limit on units limits characters. |
| ChecklistDefinition.RoundTrip | src/components/checklist-templates/checklist-definition.ts:96-150 | Every definition in canonical form reads back from its stored form unchanged. |
| ChecklistDefinition.ParseYieldsCanonical | src/components/checklist-templates/checklist-definition.ts:96-150 | Reading yields exactly the canonical definitions: within the limits, trimmed, lower-case ids, none repeated. |
| ChecklistDefinition.ParseChecklistDefinition | src/components/checklist-templates/checklist-definition.ts:96-183 | The nested loops with one set of used ids and a running total accept exactly the values whose every part fits, with at most 500 items and no repeated id. |
| StoredDefinitions.ParseIff | src/components/checklist-templates/checklist-definition.ts:96-183 | A stored value means a definition exactly if it holds version 1, those sections and items under those keys and no others, texts up to outer space and ids up to letter case, and the definition is canonical. |
| ChecklistBuild.IdPool.AllocateId | src/components/checklist-templates/checklist-definition.ts:31-47 | A new id is neither used nor an id of the definition being replaced. |
| ChecklistBuild.IdPool.ClaimId | src/components/checklist-templates/checklist-definition.ts:31-56 | A claim is refused exactly for an id that was supplied before. |
| ChecklistBuild.BuildSection | src/components/checklist-templates/checklist-definition.ts:57-93 | A section keeps valid supplied ids and draws the others; an id of another section is refused. |
| ChecklistBuild.BuildSections | src/components/checklist-templates/checklist-definition.ts:57-93 | Across all sections the claimed ids are exactly the ids of the result, and each error means what it says of the whole input. |
| ChecklistBuild.BuildChecklistDefinition | src/components/checklist-templates/checklist-definition.ts:14-94 | All ids are distinct and new ones avoid every id of the previous definition; with valid supplied ids and at most 500 items it fails if and only if an id is supplied twice, and an invalid id is refused for the first section that has one. |
| ChecklistBuild.BuiltReadsBack | src/components/checklist-templates/checklist-definition.ts:14-150 | Within the request's limits a built definition is canonical and reads back unchanged. |
| ChecklistArchive.ScanPages | src/components/checklist-templates/checklist-version-backfill.ts:129-158 | The paged scan terminates and finds what one scan of the whole archive finds, whatever the page size. |
| ChecklistArchive.Inspect | src/components/checklist-templates/checklist-version-backfill.ts:119-164 | The inspection's answer does not depend on the page size. |
| ChecklistArchive.ScanAccepts | src/components/checklist-templates/checklist-version-backfill.ts:129-158 | The scan goes through exactly on gap-free stretches of sound rows with a baseline only at the end. |
| ChecklistArchive.InspectionAccepts | src/components/checklist-templates/checklist-version-backfill.ts:119-164 | Accepted are exactly a sound template with no archive, or one whose newest row matches it, without gaps down to version 1 or a single final baseline. |
| ChainInspection.PassesIff | src/components/checklist-templates/checklist-version-backfill.ts:59-164 | The inspection passes exactly a template with a valid id, version, title and definition, whose rows are each valid, numbered down from it without a gap, nothing below a baseline, the newest saying what the template says, down to version 1 or a baseline; it asks for a baseline exactly without rows. |
| ChainInspection.ComplaintMeans | src/components/checklist-templates/checklist-version-backfill.ts:119-164 | Each complaint is about the template, the first row that is wrong, in the way it says, or a chain that ends too early. |
| AdminAccounts.AccountTable.CreateAdministrator | scripts/create-admin.ts:84-122 | The setup command adds an administrator with a trimmed name, or none where there is one already. |
| AdminAccounts.AccountTable.UpdateProfile | src/components/admin-account/admin-account.service.ts:56-100 | A profile is changed only in a running session and only from the state its administrator has seen. |
| AdminAccounts.SetupMeans | scripts/create-admin.ts:84-122 | What the setup adds, and for which names and tables it is refused. |
| AdminAccounts.ProfileMeans | src/components/admin-account/admin-account.service.ts:56-100 | What a profile update writes, and why it is refused. |
| AdminAccounts.RunKeepsNames | src/libs/dto/user/account.input.ts:12-16 | Over any run of setup, profile, password and worker requests there is at most one administrator, who has a valid id and a trimmed name of 1 to 100 characters. |
| ChecklistPublishing.ChecklistTables.Create | src/components/checklist-templates/checklist-templates.service.ts:57-99 | A creation by an active administrator publishes and archives version 1 of what was given, active, for an open property without such a template, and touches nothing else; a refused one leaves nothing and names its reason. |
| ChecklistPublishing.ChecklistTables.Update | src/components/checklist-templates/checklist-templates.service.ts:147-218 | An update takes the title, the switch and the sections given, keeps what is not given, publishes and archives the next version with it, and touches nothing else; the store is unchanged exactly when nothing else was asked for, or when it is refused for a named reason. |
| ChecklistPublishing.CreateMeans | src/components/checklist-templates/checklist-templates.service.ts:57-99 | What a creation leaves: the template with the given title, active, of the given property and kind, whose stored definition reads back as the one built, its archived row, and everything else as it was. |
| ChecklistPublishing.UpdateMeans | src/components/checklist-templates/checklist-templates.service.ts:147-218 | What an update leaves: title and switch those given or else the current ones, the definition the rebuilt or else the current one, id, property and kind the same; unchanged exactly when nothing that was given differs. |
| ChecklistPublishing.RebuiltReadsBack | src/components/checklist-templates/checklist-templates.service.ts:170-206 | The definition an update stores reads back as the one rebuilt from the sections given. |
| ChecklistPublishing.ChecklistTables.SaveAndArchive | src/components/checklist-templates/checklist-templates.service.ts:291-309 | The archived row is the template as it reads back, and a version is archived once. |
| ChecklistPublishing.CreateKeeps | src/components/checklist-templates/checklist-templates.service.ts:57-99 | The new chain is acceptable exactly when the publisher is valid; creation fails exactly when the template exists. |
| ChecklistPublishing.UpdateKeeps | src/components/checklist-templates/checklist-templates.service.ts:163-217 | Only an archived current version is extended, by one row on top, with a later time; the chain stays acceptable exactly when the publisher is valid. |
| ChecklistPublishing.BackfillKeeps | src/components/checklist-templates/checklist-version-backfill.ts:228-260 | A baseline is written exactly when there is no archive, and the template ends archived and acceptable. |
| ChecklistRuns.RunKeeps | src/components/checklist-templates/checklist-templates.service.ts:57-218 | Over any run of publications, backfills and account changes every archive stays acceptable and nothing archived is lost. |
| ChecklistRuns.PublisherIsValid | src/components/checklist-templates/checklist-templates.service.ts:278-289 | Whoever the account table lets publish has an id and a name that the inspection accepts. |
| ChecklistRuns.WritersNeverBreakAChain | src/components/checklist-templates/checklist-templates.service.ts:57-218 | From empty tables on, the inspection accepts every template after any run and finds none without an archive. |
| ChecklistRuns.SecondBackfillCreatesNothing | src/components/checklist-templates/checklist-version-backfill.ts:211-270 | A second visit creates nothing, whatever is published and whoever publishes in between. |
| ChecklistRuns.VisitsArchiveAll | src/components/checklist-templates/checklist-version-backfill.ts:228-260 | Once every template without an archive was visited, with any other writers before, between and after the visits, every template has an acceptable archive. |
| ChecklistBackfill.QueryIds | src/components/checklist-templates/checklist-version-backfill.ts:196-203 | A page is the first ids beyond the last one; a short page means there are no more. |
| ChecklistBackfill.EachTemplate | src/components/checklist-templates/checklist-version-backfill.ts:191-209 | Even while templates are being added, none is visited twice, each one there all along is visited, and the walk ends. |
| ChecklistBackfill.Preflight | src/components/checklist-templates/checklist-version-backfill.ts:211-227 | The check stops at the first bad chain with its error, or counts every template as archived or needing a baseline. |
| ChecklistBackfill.VisitTemplate | src/components/checklist-templates/checklist-version-backfill.ts:228-253 | One visit inspects again and writes the baseline, or leaves everything. |
| ChecklistBackfill.ApplyBaselines | src/components/checklist-templates/checklist-version-backfill.ts:228-260 | After the second pass exactly the templates without an archive have got their baseline, and the counts say so. |
| ChecklistBackfill.Backfill | src/components/checklist-templates/checklist-version-backfill.ts:211-270 | The command succeeds if and only if every chain is accepted, writes only when asked to apply, and leaves every template archived and counted once. |
| IssueHistory.VersionsAreExact | src/components/admin-issues/admin-issue-reader.ts:328-339 | The events of an issue have exactly the versions 1 to current. |
| IssueHistory.ConsistentIsReadable | src/components/admin-issues/admin-issue-reader.ts:106-166 | The readers' checks never refuse a history that the writers produced. |
| IssueHistory.ResolvedExactly | src/components/admin-issues/admin-issues.service.ts:445-473 | An issue has a resolution time exactly when it is RESOLVED, at every version, and each change starts from the previous status. |
| IssueHistory.TimesRiseIff | src/components/submissions/submission-issues.ts:151-184 | Event times rise strictly unless the report came with a repair. |
| IssueHistory.BornConsistent | src/components/submissions/submission-issues.ts:115-184 | A report, with or without a repair, begins a consistent history. |
| IssueHistory.ActedKeeps | src/components/admin-issues/admin-issues.service.ts:281-385 | Notes, status, urgency and recurrence changes add one event to a consistent history and are never refused for what is recorded. |
| IssueHistory.CancelKeeps | src/components/admin-issues/admin-issue-cancellation.service.ts:52-170 | So do cancellations and restorations. |
| IssueHistory.CorrectedKeeps | src/components/guest-submissions/guest-submission-issues.ts:117-186 | So do corrections by guests and administrators, on cancelled issues too. |
| IssueHistory.RunKeeps | src/components/admin-issues/admin-issue-reader.ts:106-166 | Over any run of all these the history stays consistent and readable, and no event is changed or lost. |
| IssueHistory.RunTimes | src/components/admin-issues/admin-issues.service.ts:281-385 | From a report on, times rise strictly over any run if and only if the report came without a repair. |
| IssueHistory.SuccessIsOwnEvent | src/components/admin-issues/admin-issue-cancellation.service.ts:172-228 | Every successful cancellation or restoration answers with the event that this very request made. |
| IssueContents.ActionNeedsSight | src/components/admin-issues/admin-issues.service.ts:281-432 | Only an administrator who has seen the current version acts on an issue. |
| IssueContents.ActionRefusedIff | src/components/admin-issues/admin-issues.service.ts:281-480 | Whoever has seen it is refused exactly for what is wrong with the change, such as a return to NEW, a missing note, or nothing to change. |
| IssueContents.ActionLeaves | src/components/admin-issues/admin-issues.service.ts:281-473 | A note, status, urgency or recurrence change leaves the issue with just that, and one event of the right kind by that administrator with the note. |
| IssueContents.CancellationMeans | src/components/admin-issues/admin-issue-cancellation.service.ts:52-170 | A cancellation or restoration changes that alone, for an issue in the other state, at the version seen. |
| IssueContents.CorrectionMeans | src/components/guest-submissions/guest-submission-issues.ts:117-186 | The corrected description and urgency reach the issue and its event, and how the issue is dealt with stays. |
| IssueContents.ReportMeans | src/components/submissions/submission-issues.ts:100-200 | A report begins an issue in its own words, and with the repair if one came along. |
| IssueContents.ContradictionIsRefused | src/components/admin-issues/admin-issues.service.ts:281-330 | No request touches an issue whose history does not tell of it as it is. |
| IssueRequests.RepeatReturnsSameReceipt | src/components/admin-issues/admin-issue-cancellation.service.ts:172-228 | A repeated cancellation or restoration changes nothing and returns the same receipt, whatever happened in between. |
| IssueRequests.RequestExtendsAtMostOnce | src/components/admin-issues/admin-issue-cancellation.service.ts:52-228 | However often it is sent among other requests, it adds at most one event. |
| IssueRequests.IssueTable.RecordAction | src/components/admin-issues/admin-issues.service.ts:281-385 | The transaction leaves the specified history, or everything as it was. |
| IssueRequests.IssueTable.AddNote | src/components/admin-issues/admin-issues.service.ts:236-246 | A note needs text, and is recorded as one event that changes nothing else. |
| IssueRequests.CheckedNoteMeans | src/components/admin-issues/admin-issues.service.ts:434-487 | A note has 1 to 2,000 characters without outer space, and a reason 1 to 500. |
| IssueRequests.IssueTable.ChangeStatus | src/components/admin-issues/admin-issues.service.ts:248-257 | A changed status is the one asked for, resolving or reopening has a note, and one event is added under the trimmed note. |
| IssueRequests.IssueTable.ChangeUrgency | src/components/admin-issues/admin-issues.service.ts:259-268 | The urgency really changes and nothing else about the status does. |
| IssueRequests.IssueTable.ChangeRecurrence | src/components/admin-issues/admin-issues.service.ts:270-279 | A link is changed only to a readable target that the walk over the recorded links accepts, or removed; a refusal of the link means the walk refuses it. |
| IssueRequests.IssueTable.CancelOrRestore | src/components/admin-issues/admin-issue-cancellation.service.ts:52-170 | The transaction leaves the specified history and gives the specified answer. |
| CorrectionIssues.RecordCorrection | src/components/guest-submissions/guest-submission-issues.ts:58-219 | The loop gives every changed item its outcome, leaves the others, and is refused as a whole when one item is. |
| CorrectionIssues.CorrectionKeeps | src/components/admin-submissions/admin-submission-correction-issues.ts:19-165 | Histories stay consistent, no event is lost, and behind every abnormal answer there is an issue. |
| CorrectionIssues.RefusedOnlyFor | src/components/guest-submissions/guest-submission-issues.ts:117-155 | On covered answers an item of the checklist is refused only for a repair that may not be reported or a history without a version left. |
| CorrectionIssues.OutcomeMeans | src/components/guest-submissions/guest-submission-issues.ts:58-219 | The correction of an item reaches its issue, cancels or removes nothing else, or reports a new issue in the item's own words; an item that is the same leaves its issue alone. |
| CorrectionIssues.UnknownItemIsRefused | src/components/guest-submissions/guest-submission-issues.ts:58-116 | A changed item that is not on the checklist, or whose abnormal answer never got its issue, refuses the correction. |
| IssueRecurrence.AssertRecurrenceTarget | src/components/admin-issues/admin-issue-recurrence.ts:26-76 | The walk terminates and accepts exactly targets whose chain is of at most 100 ever earlier issues of the property. |
| IssueRecurrence.RunKeeps | src/components/admin-issues/admin-issue-recurrence.ts:26-76 | Over any run every link goes to an earlier issue of the same property. |
| IssueRecurrence.LinksStayAcyclic | src/components/admin-issues/admin-issue-recurrence.ts:26-76 | Following links never returns to where it began and stays in one property. |
| IssueRecurrence.LinkableExactly | src/components/admin-issues/admin-issue-recurrence.ts:26-76 | On links the program made, a target is refused exactly for being cancelled, elsewhere, not earlier or too deep. |
| SubmissionHistory.ServeKeeps | src/components/admin-submissions/admin-submission-status.service.ts:63-205 | Every call keeps revisions 1 to current, the status each kind implies, rising times and a readable row, and only ever appends. |
| SubmissionHistory.RunKeeps | src/components/admin-submissions/admin-submission-corrections.service.ts:44-210 | So does any run of cancellations, restorations and corrections by both sides. |
| SubmissionRequests.ChangeIsOwn | src/components/admin-submissions/admin-submission-status.service.ts:207-283 | A success that reports a change is about the revision that this very request made. |
| SubmissionRequests.OwnRevisionAnswers | src/components/guest-submissions/guest-submission-corrections.service.ts:254-321 | A repeat succeeds exactly where it may still be made, and then with the receipt of its revision. |
| SubmissionRequests.RepeatReturnsSameReceipt | src/components/admin-submissions/admin-submission-corrections.service.ts:212-279 | At any later moment a repeat changes nothing, and every success returns the first receipt. |
| SubmissionRequests.RequestAddsAtMostOnce | src/components/guest-submissions/guest-submission-corrections.service.ts:39-321 | However often it is sent among others, a request adds at most one revision. |
| SubmissionRequests.OrderDoesNotMatter | src/components/guest-submissions/guest-submission-corrections.service.ts:237-252 | The same answers in another order are the same request. |
| SubmissionRequests.SubmissionTables.ChangeStatus | src/components/admin-submissions/admin-submission-status.service.ts:63-205 | The transaction leaves the specified history and gives the specified answer; `SubmissionContents.StatusChangeMeans` says which. |
| SubmissionRequests.SubmissionTables.CorrectByAdmin | src/components/admin-submissions/admin-submission-corrections.service.ts:44-210 | The same for an administrator's correction, which keeps repairs of maintenance answers that stay abnormal; `SubmissionContents.AdminCorrectionMeans` says which answers it leaves. |
| SubmissionRequests.SubmissionTables.CorrectByGuest | src/components/guest-submissions/guest-submission-corrections.service.ts:39-235 | The same for a guest's correction, which may keep the general note; `SubmissionContents.GuestCorrectionMeans` says which answers it leaves. |
| SubmissionContents.StatusChangeMeans | src/components/admin-submissions/admin-submission-status.service.ts:63-205 | A cancellation or restoration changes the status alone, for the revision seen, and leaves every answer; it is refused exactly in the other state or from another revision. |
| SubmissionContents.GuestCorrectionMeans | src/components/guest-submissions/guest-submission-corrections.service.ts:39-235 | A guest's correction that changes something leaves in the row and in a new revision exactly the answers asked for, in the order of the checklist, with the note kept or asked for; one that changes nothing found them there. |
| SubmissionContents.GuestCorrectionAnswers | src/components/guest-submissions/guest-submission-corrections.service.ts:39-160 | Which correction of the current revision is refused, and why. |
| SubmissionContents.AdminCorrectionMeans | src/components/admin-submissions/admin-submission-corrections.service.ts:44-210 | An administrator's correction does the same, except that maintenance answers which stay abnormal keep the repair reported before. |
| SubmissionContents.AdminCorrectionAnswers | src/components/admin-submissions/admin-submission-corrections.service.ts:44-140 | Which of them is refused, and why. |
| SubmissionContents.ContradictionIsRefused | src/components/admin-submissions/admin-submission-corrections.service.ts:44-140 | A row that its history contradicts is not touched. |
| CleaningTasks.CleaningTaskCutoff | src/components/cleaning-tasks/cleaning-task-sync.ts:18-24 | The cutoff is the last midnight in Seoul at or before the clock: from it on are exactly the moments of the clock's Seoul day and of later days. |
| CleaningTasks.CleaningTaskTable.SyncCleaningTaskForStay | src/components/cleaning-tasks/cleaning-task-sync.ts:26-86 | The task follows its stay, and the counts say whether one was added or changed: one is added exactly for an active stay that departs on the clock's day in Seoul or later. |
| CleaningTasks.CleaningTaskTable.SyncPropertyCleaningTasks | src/components/cleaning-tasks/cleaning-task-sync.ts:88-130 | Every selected stay is reconciled in turn and counted; more than 200 are refused without effect. |
| CleaningTasks.CleaningTaskTable.Create | src/components/cleaning-tasks/cleaning-tasks.service.ts:72-120 | A request key adds one task; a repeat answers with it only for the same request. |
| CleaningTasks.CleaningTaskTable.Update | src/components/cleaning-tasks/cleaning-tasks.service.ts:122-146 | An update needs the expected version, an open task and a time not before departure. |
| CleaningTasks.CleaningTaskTable.Cancel | src/components/cleaning-tasks/cleaning-tasks.service.ts:148-173 | A cancellation freezes the task, and its repeat returns the same task. |
| CleaningTasks.CleaningTaskTable.Start | src/components/staff-cleaning-tasks/staff-cleaning-tasks.service.ts:124-149 | Starting moves an open, ready task to IN_PROGRESS together with its checklist. |
| CleaningTasks.CleaningTaskTable.Complete | src/components/cleaning-task-access/cleaning-task-access.service.ts:184-246 | Only the checklist and version that were accepted complete the task. |
| CleaningTaskWrites.SyncAddsIff | src/components/cleaning-tasks/cleaning-task-sync.ts:18-57 | A stay without a task gets one exactly if it is active and departs on the clock's day in Seoul or later; the task is for its property and due at its departure. |
| CleaningTaskWrites.SyncFollows | src/components/cleaning-tasks/cleaning-task-sync.ts:58-86 | A task that still follows its stay is cancelled with it, comes back with it, is due at the departure unless a time was chosen, and keeps everything else. |
| CleaningTaskWrites.SyncPropertyMeans | src/components/cleaning-tasks/cleaning-task-sync.ts:88-130 | The property-wide reconciliation treats each stay as a lone one would, but adds no task for a closed property. |
| CleaningTaskWrites.CreateMeans | src/components/cleaning-tasks/cleaning-tasks.service.ts:72-120 | A request in an open property adds what it asks for, once. |
| CleaningTaskWrites.UpdateMeans | src/components/cleaning-tasks/cleaning-tasks.service.ts:122-146 | An update changes the time and the note as asked, and only them. |
| CleaningTaskWrites.CancelMeans | src/components/cleaning-tasks/cleaning-tasks.service.ts:148-173 | A cancellation by hand keeps its reason and changes nothing else. |
| CleaningTaskWrites.StartMeans | src/components/staff-cleaning-tasks/staff-cleaning-tasks.service.ts:124-149 | A start puts the task in progress under its checklist and changes nothing else. |
| CleaningTaskWrites.CompleteMeans | src/components/cleaning-task-access/cleaning-task-access.service.ts:184-246 | A completion under the accepted checklist and version completes the task at that time and changes nothing else. |
| CleaningTaskRuns.SyncIsIdempotent | src/components/cleaning-tasks/cleaning-task-sync.ts:26-86 | Reconciling an unchanged stay again, now or later, does nothing. |
| CleaningTaskRuns.SyncedAllPointwise | src/components/cleaning-tasks/cleaning-task-sync.ts:117-129 | The property-wide loop treats each stay as a lone reconciliation would. |
| CleaningTaskRuns.SyncPropertyLeavesNothing | src/components/cleaning-tasks/cleaning-task-sync.ts:88-130 | After it nothing is left to reconcile, except exactly the upcoming stays of a closed property. |
| CleaningTaskRuns.RunKeeps | src/components/cleaning-tasks/cleaning-task-sync.ts:26-130 | Over any run completed tasks and administrator cancellations never change, versions rise with every change, and PLANNED means no checklist, IN_PROGRESS one. |
| CleaningTaskRuns.CancelThenRestoreReturns | src/components/cleaning-tasks/cleaning-task-sync.ts:58-84 | A schedule cancellation followed, after anything else, by a restoration returns the earlier status, checklist, note and manual due time. |
| StayAccess.IdentityIsSpellingFree | src/components/admin-stay-access/stay-access-data.ts:42-51 | The digits of a phone number identify it however it is spelled. |
| StayAccess.SixDigitsInjective | src/components/admin-stay-access/admin-stay-access.service.ts:273-288 | Different random numbers make different codes. |
| StayAccess.FourDrawsSuffice | src/components/admin-stay-access/admin-stay-access.service.ts:273-288 | Four different numbers among the attempts always yield a code. |
| StayAccess.FirstFreeIsFree | src/components/admin-stay-access/admin-stay-access.service.ts:273-288 | The drawn code is six characters and not an excluded one; no code means every draw was excluded. |
| StayAccess.GenerationFailsOnlyOnThree | src/components/admin-stay-access/admin-stay-access.service.ts:273-288 | Generation fails only when every attempt hit one of at most three excluded codes. |
| StayAccess.ChosenIsSound | src/components/admin-stay-access/admin-stay-access.service.ts:240-288 | A chosen code is the fixed one, or six characters different from both neighbours' and the previous code. |
| StayAccess.SavedMeans | src/components/admin-stay-access/admin-stay-access.service.ts:95-216 | A success stores the next version of one stay's code, under its current revision and settings, with one event, and touches no other code. |
| StayAccess.SaveEndsPrepared | src/components/admin-stay-access/admin-stay-access.service.ts:290-435 | After every successful prepare, replace or confirm the review has nothing to say, and a rotating code differs from both neighbours' codes. |
| StayAccess.ReplaceRepeatsIff | src/components/admin-stay-access/admin-stay-access.service.ts:240-272 | A replacement repeats the previous code exactly when the property's fixed code was already in use. |
| StayAccess.AccessTables.SaveAccessCode | src/components/admin-stay-access/admin-stay-access.service.ts:95-225 | The transaction leaves the specified tables or nothing; `SavedCodes.SaveMeans` says which code that is and when it is refused. |
| StayAccess.AccessTables.PrepareCode | src/components/admin-stay-access/admin-stay-access.service.ts:240-288 | The loop of up to 64 attempts returns the first free code. |
| SavedCodes.SixDigitsMean | src/components/admin-stay-access/admin-stay-access.service.ts:281-285 | A drawn number is written in six decimal digits. |
| SavedCodes.PhoneMeans | src/components/admin-stay-access/stay-access-data.ts:42-48 | A phone number is digits, spaces, parentheses and hyphens behind a plus sign if there is one, and stands for its 7 to 15 digits. |
| SavedCodes.SamePhoneIff | src/components/admin-stay-access/stay-access-data.ts:42-51 | Two numbers are the same phone when they are written alike or have the same digits. |
| SavedCodes.BlockedMeans | src/components/admin-stay-access/admin-stay-access.service.ts:362-373 | Nothing can be saved exactly for a cancelled or ended stay, a closed or unconfigured house, or a fixed house without a code, and the first of these is named. |
| SavedCodes.ReviewMeans | src/components/admin-stay-access/admin-stay-access.service.ts:311-361 | The review names exactly the reasons there are: an unreadable source, another phone or guest, a restoration since, other settings, or a neighbour with the same code. |
| SavedCodes.ConfirmableIff | src/components/admin-stay-access/admin-stay-access.service.ts:415-425 | A code may be kept exactly if nothing blocks it and all that speaks against it is another phone or guest or a restoration. |
| SavedCodes.ChoiceMeans | src/components/admin-stay-access/admin-stay-access.service.ts:240-288 | The chosen code is the fixed one, the last six digits of the phone, or the first drawn one that is neither the previous code nor next door; each refusal has its own reason. |
| SavedCodes.RefusalMeans | src/components/admin-stay-access/admin-stay-access.service.ts:95-167 | A request is refused for the first check that fails, and goes on exactly when none does. |
| SavedCodes.SaveMeans | src/components/admin-stay-access/admin-stay-access.service.ts:95-216 | A request leaves everything as it was, for a reason, or one new version of one code, as chosen or kept, with its revision, settings and times, and one event of it. |
| TaskAccess.TaskSite.ReadContext | src/components/cleaning-task-access/cleaning-task-access.service.ts:57-182 | Working through the reasons one after the other ends at the specified kind, obstacle, code and fingerprint. |
| TaskPasswords.ShownMeans | src/components/cleaning-task-access/cleaning-task-access.service.ts:57-158 | The obstacle named is there and none before it in the order of the checks is; without one the code shown is the next guest's, the vacant house's or none. |
| TaskPasswords.FingerprintMeans | src/components/cleaning-task-access/cleaning-task-access.service.ts:159-171 | Each part of a fingerprint is the version, time or identity that it stands for. |
| TaskAccess.ShownIffReady | src/components/cleaning-task-access/cleaning-task-access.service.ts:114-158 | Nothing blocks a password exactly when the room is due, left, unoccupied and has a code that may be set; the code shown is then the next reservation's, the vacant room's, or none. |
| TaskAccess.NextCodeIsNew | src/components/cleaning-task-access/cleaning-task-access.service.ts:139-148 | A shown reservation code is in neither neighbouring reservation's use. |
| TaskAccess.DepartingIsNeighbor | src/components/cleaning-task-access/cleaning-task-access.service.ts:88-102 | Without double bookings the reservation before the next arrival is the one whose task this is. |
| TaskAccess.DepartingGuestIsLockedOut | src/components/cleaning-task-access/cleaning-task-access.service.ts:57-182 | Where a next guest is coming, the code a worker sets is never the code of the guest who left. |
| TaskAccess.DepartingCodeReturnsIff | src/components/cleaning-task-access/cleaning-task-access.service.ts:126-158 | For a ready room of any kind, the worker is told to set the departed guest's code exactly where nobody is coming and the vacancy code is that code. |
| TaskAccess.VacancyCodeMayRepeat | src/components/admin-property-access/admin-property-access.service.ts:97-135 | The settings accept a vacancy code that is a guest's, and the worker is then shown it. |
| TaskAccess.RunEvolves | src/components/admin-property-access/admin-property-access.service.ts:97-135 | Over any run of code, settings, stay, property and task changes, an unchanged version of a code or of settings means unchanged content. |
| TaskAccess.SameFingerprintSameCode | src/components/cleaning-task-access/cleaning-task-access.service.ts:159-171 | Equal fingerprints at two moments of a run stand for equal codes, although no code enters a fingerprint. |
| TaskAccess.TaskSite.Complete | src/components/cleaning-task-access/cleaning-task-access.service.ts:184-246 | A completion is refused without effect or completes the task under what was confirmed; `TaskPasswords.RefusalMeans` and `TaskPasswords.CompleteMeans` say when and how. |
| TaskPasswords.RefusalMeans | src/components/cleaning-task-access/cleaning-task-access.service.ts:184-230 | A completion is refused for the first of its checks that fails, and goes through exactly when none does. |
| TaskPasswords.CompleteMeans | src/components/cleaning-task-access/cleaning-task-access.service.ts:184-246 | It completes the task a version later and keeps the confirmed fingerprint, the checklist, the time and whether a password changed; all else is as it was. |
| TaskPasswords.SettingsMeans | src/components/admin-property-access/admin-property-access.service.ts:69-150 | New settings need the version seen and a fixed code where the code is fixed; what is not given stays. |
| TaskAccess.RunKeepsTasks | src/components/cleaning-task-access/cleaning-task-access.service.ts:231-245 | Over any run tasks only evolve, and a completed task keeps its completion. |
| TaskAccess.CompletionIsForWhatWasShown | src/components/cleaning-task-access/cleaning-task-access.service.ts:184-246 | A completion goes through only while the code its worker was shown is current and the room ready, and what was confirmed stays with the task for good. |
| PreservationArchive.ArchiveTables.Add | src/components/admin-reports/preservation-report-model.ts:199-217 | A row is stored exactly when it has its sheet's columns, no text beyond 32,767 UTF-16 units, and 50,000 rows and 32 MiB of UTF-8 are not exceeded; the counters equal what is stored. |
| PreservationArchive.ArchiveTables.History | src/components/admin-reports/preservation-report-model.ts:219-258 | One version is logged as one row a changed field, with values before and after and the eleven cells that tell who changed what, when and why, or one row saying that none changed. |
| PreservationArchive.RowOfMeans | src/components/admin-reports/preservation-report-model.ts:219-258 | Each row of a version carries the record's kind and id, the version, the action, time, actor, role, source, reason, event and actor id of that version, each in its own column. |
| PreservationArchive.DiffReplays | src/components/admin-reports/preservation-report-model.ts:219-258 | Setting each listed field to its value after takes the earlier record to the later one, up to null for absent and text for time. |
| PreservationArchive.TotalsWithRow | src/components/admin-reports/preservation-report-model.ts:199-217 | Storing one row adds one to the rows and its text to the bytes over all sheets. |
| PreservationArchive.BytesAreFewest | src/components/admin-reports/preservation-report-model.ts:199-217 | A character counts the fewest UTF-8 bytes that reach it. |
| PreservationArchive.RowBytesMean | src/components/admin-reports/preservation-report-model.ts:199-217 | A row counts the UTF-8 bytes of all its text. |
| PreservationReader.VersionPages | src/components/admin-reports/preservation-report-reader.service.ts:625-637 | Paging by tens yields every version once, in order, and ends. |
| PreservationReader.ReadRecord | src/components/admin-reports/preservation-report-reader.service.ts:172-229 | A record is logged version by version; a gap in the numbering or a missing last version is an error. |
| PreservationReader.LogReplays | src/components/admin-reports/preservation-report-reader.service.ts:172-229 | Replaying the log from nothing yields the record at every version, so also the current one. |
| StaffAssignment.StaffTables.AssignStaff | src/components/properties/properties.service.ts:226-293 | Only an active worker is assigned, and a change of worker revokes the property's QR code. |
| StaffAssignment.StaffTables.RotatePropertyQr | src/components/admin-property-qr/admin-property-qr.service.ts:132-207 | A new code replaces the one that the caller has seen, under the current assignment. |
| StaffAssignment.StaffTables.UpdateStaff | src/components/admin-users/admin-users.service.ts:100-141 | A worker is not deactivated here. |
| StaffAssignment.StaffTables.Deactivate | src/components/admin-users/staff-deactivation.service.ts:64-212 | The handover goes through only for the state that the administrator saw, with every property covered, and leaves all of it or nothing; `HandoverContents.DeactivateMeans` says what goes to whom. |
| HandoverContents.AssignMeans | src/components/properties/properties.service.ts:226-293 | An assignment gives an open property to an active worker, or to nobody, and ends its code exactly on a change; a refusal is for the first thing wrong. |
| HandoverContents.RotateMeans | src/components/admin-property-qr/admin-property-qr.service.ts:132-207 | A new code is the given one, issued there under the current worker, for an open property whose code the caller has seen. |
| HandoverContents.UpdateStaffMeans | src/components/admin-users/admin-users.service.ts:100-141 | An update switches a worker as asked, but never off. |
| HandoverContents.DraftStartMeans | src/components/submission-drafts/submission-drafts.service.ts:196-395 | A maintenance checklist is begun, continued with a new link by its own worker, or put in the place of somebody else's, which ends without a link. |
| HandoverContents.DeactivateMeans | src/components/admin-users/staff-deactivation.service.ts:64-212 | Each property of the worker goes to exactly the one asked for, without a code, its links are gone and it is inactive, and all else is as it was; or the request is refused for the first thing wrong. |
| StaffAssignment.RunKeeps | src/components/admin-users/staff-deactivation.service.ts:64-189 | Over any run, new properties and begun, resumed, replaced and submitted checklists included, every assigned worker is active, every live QR code was issued there under the current assignment, and only active workers hold maintenance links. |
| StaffAssignment.RevokedStaysRevoked | src/components/admin-property-qr/admin-property-qr.service.ts:148-198 | A code that went out of use never works again, even when its worker returns. |
| StaffAssignment.LiveCodeIsForItsWorker | src/components/admin-property-qr/admin-property-qr.service.ts:148-198 | Where a code still works, the worker is the one it was issued under. |
| StaffAssignment.DeactivationLeavesNothing | src/components/admin-users/staff-deactivation.service.ts:64-189 | After a deactivation the worker has no property, code or link; open properties went to the active workers asked for, and other properties are untouched. |

## Left out

- The paging of `reconcile` and of `refreshResults`, and the switches that let a `tick` begin: a scan is given the sources and results in the order in which those queries return them.
- The wording of messages, recipients, templates and the rules that block a message: a message context arrives as read, with one flag for being blocked.
- Roster parsing of workbooks, and the request that reviews a preview row: a stored row of any content is the starting point.
- Stored roster JSON that cannot be read at all, which the program reports as an internal error.
- Roster rows as shared mutable objects: the rows live in one `Roster` object as values by position, so aliasing between a group and the row list is by position.
- Checks in the confirmation that repeat what the validation just established (row ids, row counts, open properties) and cannot fail inside the transaction.
- Retries after a serialization conflict or a unique-key race, except where the answer differs (the dispatch claim): a transaction takes effect once or not at all.
- Photos, attachments and evidence links of submissions and issues, and the comparison of an issue with its source template in a guest's correction.
- Cryptography: sealing of room codes and QR links, password hashes, digests and signed preview keys.
- Stay changes as they touch message targets and stay links, and the link of a submission to a stay.
- Reads that only list, count or render: dashboards, calendars, histories, workbooks, ZIP streaming.
- Controllers, guards, request decorators, configuration, health checks.
- Letter case of ids in the roster and staff requests: ids arrive lower-cased.
- The order of the change rows of one version in the archive, and stored dates that are no dates.
- ChecklistBackfill.Backfill: states the whole command for nobody else writing; with other writers, `ChecklistBackfill.EachTemplate` visits every standing template and `ChecklistRuns.VisitsArchiveAll` is what the visits achieve.
- How the request validator counts the characters of a limited text, which is a library's: names and titles are taken to be limited in code points, as the inspection counts them.
- PreservationArchive.ArchiveTables.Add: promises nothing of the counters after an error, because the report is given up then.
- SubmissionRequests.SubmissionTables.CorrectByAdmin: whether the issues accept the correction is an argument; `CorrectionIssues.RecordCorrection` is that part of the transaction.
- SubmissionRequests.SubmissionTables.CorrectByGuest: the same.
- ChecklistBuild.BuildChecklistDefinition: random ids come from a given sequence, so a build can run out of them; that error is not one of the program and is excluded whenever the sequence has enough different ids.
- Bookings.ApplyKeeps: states only that no property is double-booked, not the revision rows of an edit, which `ImportRuns` adds.
