# Delivery pipeline of the chat service: a verified model

The service accepts chat messages, has them judged by an anti-fraud system whose verdicts arrive over Kafka, and
notifies people through jobs in a transactional outbox. This project models the four parts that make this delivery
reliable, and proves what they promise together.

- **Transactions** (`Store.dfy`, `Transactions.dfy`, `CommitHooks.dfy`). `RunInTx` with nested calls carried by the
  context. A body is a tree of statements, errors, panics, handlers and inner `RunInTx` calls; the class `Database`
  runs it, and the function `Exec` says what comes out. The commit and rollback hook chains of `Tx` are modelled
  beside it.
- **Outbox** (`Outbox.dfy`, `OutboxSafety.dfy`, `OutboxTiming.dfy`, `OutboxBounds.dfy`, `OutboxRace.dfy`,
  `OutboxService.dfy`). Any
  number of workers lease rows of `jobs`, call handlers outside of any transaction, and delete the row, leave it, or
  move it to `failed_jobs`. `Outbox.Step` has every atomic action, including lost replies, lost statements, failing
  commits and crashes. `OutboxService.Service` is the code of any one of the workers; together with whatever the
  others do in between, everything it does is shown to be a run of that step system.
- **Verdict consumers** (`Signing.dfy`, `Verdicts.dfy`, `VerdictSafety.dfy`, `Pipeline.dfy`, `VerdictService.dfy`).
  Batches, bounded retries, the dead-letter topic, commit after processing, restart from the committed offset. The
  step system contains the whole outbox, since both work on one database. `VerdictService.Service` is the consumer's
  code, shown to be a run of it whatever else goes on in between.
- **Queries** (`History.dfy`, `HistoryWalk.dfy`, `EagerLoading.dfy`). Keyset pagination of the client's history, page
  by page and as a client that follows the cursors, and the hash joins of the query builders against nested-loop
  joins.

## How it is modelled

- One clock that never goes back stands for `time.Now()` and for the database's `now()`. The end of a lease is
  computed in one step (`Ask`) and used by the query in a later one, so it may lie any time before the reservation.
- What the source leaves to the outside is a label of a step: which available row the query picks, what a handler
  answers, which statement is lost, whether opening or committing a transaction works, when a process dies. In the
  methods the same things are inputs or arbitrary values. A failed commit has no effect.
- `FindAndReserveJob` is one atomic step on one row, which is what `for update skip locked` gives; rows that other
  statements have locked are skipped. A transaction works on a snapshot that replaces the database at commit.
- `VerdictService.Service.Interfere` stands for everything others do between two actions of a consumer: the clock, the
  fetching goroutine, producers, the outbox and other consumers. `OutboxService.Service.Interfere` does the same for a
  worker: any steps of the other workers, the clock and new jobs, as far as an `Environment` allows them. Callers know
  no more of them than their contracts.
- The history is read by a loop of the client, which is not in the repository: `HistoryWalk.ReadHistory` calls the
  page function until there is no cursor.
- New identifiers are fresh. A step never reuses the identifier of a job that was ever put.
- What handlers answer and what goes wrong in one round or for one message are inputs of the methods (`Faults`,
  `Trouble`), so that their contracts say what each of these leads to; the loops leave them open, but for switches that
  tell whether anything may go wrong and whether the context may end.
- The codecs (base64, RSA verification, JSON, UUID parsing) are arbitrary functions in `Signing.Codec`.
- `ProcessAvailableJobs` returns `NothingFound` where the source turns `ErrNoJobs` into nil, and `Nil` where it
  returns nil because the context is done, so that the two can be told apart.
- Ghost history (`puts`, `reservations`, `runs`, `handled`, `completed`, `buried`, `deliveries`) records what
  happened. Steps read nothing from it except that identifiers are fresh.

## What does not hold

Some expectations fail, or hold only under a condition. The code was kept as it is.

- Handlers of one job can meet at the instant at which the lease ends. If a handler starts within `delay` of the
  computation of its lease, `delay + ExecutionTimeout <= reserveFor` is not enough, because the query takes rows with
  `reserved_until <= now()`. `OutboxTiming.HandlersNeverOverlapIffLeasesLongEnough` gives the exact condition, a
  strict `<` (or a single worker); `OutboxTiming.ShortLeaseLetsSecondHandlerIn` is the failing run.
- An inner `RunInTx` that fails and whose error is dropped keeps what it wrote before it failed, since it shares the
  outer transaction. `Transactions.CaughtInnerFailureKeepsItsWrite` is the example;
  `Transactions.FlatteningRefinesNestedTransactions` is a shape of body for which the difference cannot be seen.
  With a handler around an inner call the exact condition is `Transactions.ToldApartIffFailureLeavesAWrite`, and for
  lists of statements `Transactions.MayBeToldIffWriteCanPrecedeFailure`, which can be read off the list.
- A job whose handler succeeds is called again without end if its row can never be deleted: `MaxAttempts` is read
  after a failing handler only (`OutboxBounds.LostDeletionsNeverEnd`). `OutboxBounds.LimitOnCallsIsExact` says by how
  much exactly the limit can be passed. The comment on `MaxAttempts` says nothing of this. The field limit of 30 on
  `attempts` is not enforced either, because the lease is raw SQL.
- Of two lease holders that settle one job, the one that comes second finds no row. If that is the one that moves the
  job to `failed_jobs`, its worker stops with an error, and `Run` ends with it
  (`OutboxSafety.SecondSettlerFindsNoRow`, `OutboxRace.RaceHappens`). This can happen exactly with two workers or more
  (`OutboxRace.StopsInVainIffTwoWorkers`), and only to a job that was reserved while a worker still had it
  (`OutboxRace.SettlesUnlessOvertaken`).
- A verdict can be lost: when writing to the dead-letter topic fails this is logged, and the offset is committed
  anyway (`Pipeline.FailedDlqWriteLosesTheVerdict`). It happens exactly when the write for that very message fails
  (`Pipeline.LostIffItsOwnWriteFailed`).
- With equal `created_at` values, a cursor may lead to an empty page and messages may be skipped
  (`HistoryWalk.TiesLoseAMessage`). The exact cases are `HistoryWalk.ShowsAllIffNothingStraddles`, which can be read
  off the table before the first page, and `HistoryWalk.NextPageEmptyIffOnlyTiesLeft`.
- A returned cursor can fail its own validation: a full page that ends at the zero time yields one that is refused when
  it comes back (`HistoryWalk.ZeroTimeCursorIsRefused`). The exact cases, read off the table, are
  `HistoryWalk.CursorIsRefusedIffCutAtZero` for one page and `HistoryWalk.EndsWithErrorIffRefusedAtZero` for a walk.

## Model

| member | source | states |
|---|---|---|
| Store.RefusedExactly | internal/store/schema/job.go:20-69 | A statement is refused for an empty field, a key that is taken or a row that is not there, in exactly these cases; a new job has no attempts and its reservation ends at once |
| Store.TouchesOneRow | internal/repositories/messages/api_afc.go:11-35 | A statement that is not refused touches one row: a verdict sets its own flag and the time of the check and leaves the other flag, and no other row or table changes |
| Transactions.RunInTxIsOneTransaction | internal/store/database.go:26-56 | Nested `RunInTx` calls of any depth are the flattened body in one transaction; the database afterwards is either everything the body performed or unchanged, and nil is returned just when it was opened, succeeded and was committed; the error tells whether opening or committing failed, any other outcome is the body's own, and a panic is passed on |
| Transactions.FlattenInTx | internal/store/database.go:27-30 | Inside a transaction, replacing inner `RunInTx` calls by their bodies changes neither outcome nor data, and leaves no inner call |
| Transactions.PerformedReplays | internal/store/database.go:58-64 | The working copy of a transaction is always the snapshot with the statements that took effect issued one after the other |
| Transactions.UncaughtFailureLeavesDatabaseUnchanged | internal/store/database.go:43-55 | A body without handlers takes effect as the list of all its statements if and only if no failure or panic occurs at any depth and every statement succeeds; otherwise the database is as before |
| Transactions.FlatteningRefinesNestedTransactions | internal/store/database.go:23-30 | A body without a handler around an inner transaction behaves as with true nested transactions, whatever fails and whatever the database holds |
| Transactions.ToldApartIffFailureLeavesAWrite | internal/store/database.go:27-30 | With a handler around an inner `RunInTx` the difference to a true nested transaction shows on a database if and only if the inner body ends in the error, or panic, that the handler drops after it has changed something |
| Transactions.MayBeToldIffWriteCanPrecedeFailure | internal/store/database.go:27-30 | For an inner body that is a list of statements, over all faults and databases: the difference can show if and only if there are at least two statements and the field validators can let the first one through |
| Transactions.CaughtInnerFailureKeepsItsWrite | internal/store/database.go:27-30 | A concrete body for which it can: an inner failure whose error is dropped keeps its write |
| Transactions.Database.InTx | internal/store/database.go:26-56 | The imperative `RunInTx`, with or without an enclosing transaction, has the outcome and the data of its specification, and nothing outside sees the working copy |
| Transactions.Database.Statement | internal/store/database.go:58-64 | A statement goes to the enclosing transaction if there is one and to the database itself otherwise, and a failing one changes neither |
| Transactions.Database.Run | internal/store/database.go:26-64 | A body run with a carried transaction never touches the database; without one it has the effect of its specification |
| CommitHooks.OnionIffNoneSkipsOrGivesUp | internal/store/tx.go:69-82 | For any hooks and any answer of the driver: the trace is first parts in order of registration, the real commit, last parts in reverse order, if and only if every hook calls next, the innermost one does not give up on an error of the driver, and no other one on an error of the next hook; the result is then that of the outermost hook |
| CommitHooks.TraceOfCallers | internal/store/tx.go:78-81 | When every hook calls next, all first parts and the real commit always come, in this order, and some last part is missing just when a hook gives up |
| CommitHooks.ErrorIffOneComesOut | internal/store/tx.go:69-82 | Whatever the hooks do, an error is returned if and only if the driver or some hook fails and every hook further out calls next and gives up on it; a hook that skips next answers for itself |
| CommitHooks.FailureSkipsAfterParts | internal/store/tx.go:47-60 | When the real commit fails and hooks have the documented shape, no last part is run and the error is returned |
| CommitHooks.DriverCalledOnceUnlessSkipped | internal/store/tx.go:69-82 | Whatever the hooks do and whether or not the commit succeeds, the driver is called once if every hook calls next, and never otherwise |
| CommitHooks.Tx.Commit | internal/store/tx.go:69-82 | The reverse loop over the copied hooks builds the chain whose first hook is outermost |
| CommitHooks.Tx.Rollback | internal/store/tx.go:125-138 | The same for rollback, over its own hooks |
| CommitHooks.Tx.Finish | internal/store/tx.go:78-81 | The loop shared by both: wrapping from the last hook to the first gives the chain in order of registration |
| CommitHooks.Tx.OnCommit | internal/store/tx.go:84-90 | A commit hook is registered after those before it; rollback hooks are untouched |
| CommitHooks.Tx.OnRollback | internal/store/tx.go:140-146 | A rollback hook is registered after those before it; commit hooks are untouched |
| Outbox.DlqMovesOrDoesNothing | internal/services/outbox/service.go:168-180 | The dead-letter transaction moves the row or changes nothing, and succeeds just when no fault occurs, the row is still there and the fields are not empty; a missing row takes the insert back |
| Outbox.CrashesAreAllowed | internal/services/outbox/service.go:119-166 | In the step system a worker may die at any point, and what it has done to the tables stays, its leases included |
| Outbox.LostRepliesAreAllowed | internal/repositories/jobs/api.go:57-60 | Whenever a row can be reserved the reply can be lost: the row is leased all the same and the worker stops with an error |
| OutboxSafety.StepInv | internal/services/outbox/service.go:119-180 | Every step of any worker keeps the invariant on rows, fates, reservations, workers and handler calls |
| OutboxSafety.RunInv | internal/services/outbox/service.go:71-117 | Every run of any number of workers keeps it |
| OutboxSafety.AtMostOneUnexpiredLease | internal/repositories/jobs/api.go:24-38 | Two workers never hold unexpired leases on one job |
| OutboxSafety.ReservationsNeverOverlap | internal/repositories/jobs/api.go:24-60 | Over all history, lost replies and crashes included, the n-th reservation of a job has attempt number n and begins only when all earlier ones have ended |
| OutboxSafety.ExactlyOneFate | internal/services/outbox/service.go:119-180 | A job that was put is live, completed after a handler returned nil, or in exactly one row of failed_jobs with its name and payload; never two of these, never none |
| OutboxSafety.FateIsFinal | internal/services/outbox/service.go:160-180 | A completed or dead-lettered job stays so in every continuation and never comes back |
| OutboxSafety.SecondSettlerFindsNoRow | internal/store/job_delete.go:71-81 | The race between deleting and dead-lettering one job, in both orders: the second finds no row, a late dead-letterer takes its insert back and stops, and there is one fate |
| OutboxRace.RaceHappensIffTwoWorkers | internal/services/outbox/service.go:120-163 | A run leads to that race if and only if there are two workers and a job with a handler, however long the leases are |
| OutboxRace.StopsInVainIffTwoWorkers | internal/services/outbox/service.go:168-180 | A run in which none of its statements is lost and a dead-lettering worker stops all the same exists if and only if there are two workers |
| OutboxRace.SettlesUnlessOvertaken | internal/services/outbox/service.go:146-180 | In every run in which the job was never reserved while a worker still had it, deleting completes it and dead-lettering moves its row, unless a statement is lost |
| OutboxRace.SoleHolderRun | internal/repositories/jobs/api.go:24-38 | In such a run at most one worker has the job at any time, and while it does the row is there |
| OutboxSafety.FailedRowsSayWhy | internal/services/outbox/service.go:130-155 | In every reachable state a failed row has the reason "unknown job" if its job has no handler, and "max attempts exceeded: " with an error otherwise; and nobody is about to dead-letter a job that has attempts left |
| OutboxSafety.RunsWithinAttempts | internal/repositories/jobs/api.go:31-33 | Handler calls of a job never exceed its reservations, and the attempts counter of a row counts these exactly |
| OutboxSafety.NeverBeforeAvailable | internal/repositories/jobs/api.go:27-28 | Every handler call belongs to a job that was put, is not before its available_at, and has a reservation of its own |
| OutboxTiming.LongLeasesSeparateHandlers | internal/services/outbox/service.go:120-141 | If handlers stop by their ExecutionTimeout, start within `delay` of computing the lease, and `delay + ExecutionTimeout < reserveFor`, two handlers of one job never run at once |
| OutboxTiming.ShortLeaseLetsSecondHandlerIn | internal/repositories/jobs/api.go:27-28 | With two workers and `reserveFor <= delay + ExecutionTimeout` there is a run that meets the assumptions and has two handlers of one job at once |
| OutboxTiming.HandlersNeverOverlapIffLeasesLongEnough | internal/services/outbox/job.go:18-21 | Handlers never overlap in any such run if and only if leases are strictly long enough or there is at most one worker |
| OutboxBounds.CallsAreLimited | internal/services/outbox/service.go:136-166 | In every run a registered job is called at most max(1, MaxAttempts) times, plus once for each time that very job was disturbed (a lease overtaken, its worker dead after the call, its deletion or dead-lettering lost); with all calls used up and nobody at it, it is completed or dead-lettered |
| OutboxBounds.LimitOnCallsIsExact | internal/services/outbox/service.go:146-165 | For every setting and every d: a number bounds the calls in all runs with at most d disturbances of the job if and only if it is at least max(1, MaxAttempts) + d |
| OutboxBounds.LostDeletionsNeverEnd | internal/services/outbox/service.go:160-165 | For every n there is a run in which a job that always succeeds has been called n times, has n attempts in its row, and is still to be done, because its deletion is lost each time |
| OutboxService.BudgetFalls | internal/services/outbox/service.go:130-166 | Whatever any workers do, without new rows the sum of remaining attempts never rises, and it falls if and only if some row is gone or has an attempt less |
| OutboxService.MeanwhileDrifts | internal/services/outbox/service.go:71-98 | Whatever other workers, the clock and new jobs do between two actions of a worker, its own state is untouched, the clock does not go back, and without puts no row is new and none loses attempts |
| OutboxService.FindAndReserveJob | internal/repositories/jobs/api.go:23-63 | One available row that is not locked gets one more attempt and the new lease end, also when reading the reply fails; ErrNoJobs only if every available row is locked; a failed query changes nothing |
| OutboxService.Service.constructor | internal/services/outbox/service.go:44-53 | A new service has no jobs and stands at the initial state of the step system |
| OutboxService.Service.RegisterJob | internal/services/outbox/service.go:55-63 | A name is registered once; a second registration is refused and changes nothing |
| OutboxService.Service.AskAndReserve | internal/services/outbox/service.go:120-123 | The lease end is computed before the query, others act in between, and the query works on the rows there are then; the reply carries the row as reserved, and the worker holds that lease |
| OutboxService.Service.Query | internal/repositories/jobs/api.go:40-62 | What each reply of the query means to the rows, to the worker and to the history of reservations |
| OutboxService.Service.Execute | internal/services/outbox/service.go:130-166 | A registered job has its handler called under its attempt number, whatever others do; nil without a lost delete leaves no row, an error below MaxAttempts is nil to the caller, at the limit and for an unknown name nil means dead-lettered. Alone, runs, rows, failed rows and fates are exactly those of one call, or none for an unknown name, and of its answer; an error comes only from a failing dead-letter transaction |
| OutboxService.Service.Settle | internal/services/outbox/service.go:143-165 | An error below the limit changes nothing; one at the limit moves the row with its reason, if and only if the transaction has no fault and the row is there; nil deletes the row and completes the job unless the statement is lost or the row is gone |
| OutboxService.Service.Handle | internal/services/outbox/service.go:136-141 | The handler is called once, under the number of the lease, and its answer is what is returned; it may take any time while all others go on, and the lease stays the worker's |
| OutboxService.Service.Dlq | internal/services/outbox/service.go:168-180 | Nil if and only if nothing in the transaction fails and the row is there: it has then become one failed row with its name, payload and reason; otherwise an error and the database is unchanged |
| OutboxService.Service.FindAndProcessJob | internal/services/outbox/service.go:119-166 | Any worker's code, with others acting in between, is a run of the step system that calls the handler of the reserved job; the sum of remaining attempts drops unless a delete is lost or jobs are put. Alone, one available row is reserved once, and the rest is exactly what its handler's answer asks for |
| OutboxService.Service.ProcessReserved | internal/services/outbox/service.go:125-166 | The same from the reservation on, seen from the start of the round |
| OutboxService.Service.ProcessAvailableJobs | internal/services/outbox/service.go:100-117 | It ends however the clock advances and whatever other workers do, if finitely many deletes are lost and finitely many rounds see new jobs; it goes on until nothing is found unless its context ends or something fails, and a lone worker does not fail by itself. A lone worker that ends for want of jobs leaves none available, and with a held clock each row that was available was reserved exactly once and all others are unchanged |
| OutboxService.Service.NextJob | internal/services/outbox/service.go:108-115 | One round: the budget falls, and a sweep with a held clock is extended by the row that was picked or is complete |
| Signing.JoinSplit | internal/services/afc-verdicts-processor/service.go:244 | Splitting at dots and joining gives back any input; there is one part more than dots, and no part has a dot |
| Signing.SplitJoin | internal/services/afc-verdicts-processor/service.go:252-253 | Joining parts without dots and splitting gives back the parts |
| Signing.CompactIsSplit | internal/services/afc-verdicts-processor/service.go:244-247 | A message splits into three given parts if and only if it is their compact form; the joined signing input is header, dot, body |
| Signing.SignedMessageDecodes | internal/services/afc-verdicts-processor/service.go:240-265 | With a key, a verdict and identifier are returned if and only if the message is a compact JWS (section 7.1 of RFC 7515) whose signature verifies over the message up to its last dot, whose body decodes to the JSON of that verdict, and whose messageId parses to that identifier |
| Signing.UnsignedMessageDecodes | internal/services/afc-verdicts-processor/service.go:242-264 | Without a key they are returned if and only if the message is the JSON of that verdict and its messageId parses to that identifier |
| Signing.WrongSegmentCountIsRefused | internal/services/afc-verdicts-processor/service.go:244-247 | With a key, anything without exactly two dots is refused with its number of parts, and nothing else is refused that way |
| Verdicts.TryIsAllOrNothing | internal/services/afc-verdicts-processor/service.go:213-238 | A try sets the flag and checked_at and creates the job together, or leaves the database unchanged; it works just when nothing fails, the message exists and the payload is not empty |
| Verdicts.RestartsAreAllowed | internal/services/afc-verdicts-processor/service.go:114-133 | A consumer may be restarted at any point; it goes on at the committed offset with nothing in hand, and tables, topics and offset stay |
| Verdicts.OthersGoOn | internal/services/afc-verdicts-processor/service.go:114-133 | The outbox may take any of its steps meanwhile, and messages and verdicts may arrive at any time |
| VerdictSafety.StepInv | internal/services/afc-verdicts-processor/service.go:135-198 | Every step of consumers, outbox, producers and restarts keeps the invariant on positions, coverage, deliveries and effects |
| VerdictSafety.RunInv | internal/services/afc-verdicts-processor/service.go:114-198 | Every run of the pipeline keeps it |
| Pipeline.CommittedMeansAccounted | internal/services/afc-verdicts-processor/service.go:168-198 | Each message before a committed offset was delivered, and that delivery took effect as its status says, with its job now in exactly one place, or was written to the dead-letter topic, or that write failed |
| Pipeline.EndToEnd | internal/services/afc-verdicts-processor/service.go:163-238 | Unless a dead-letter write of that very message failed, a committed verdict has a delivery of its own. For status "ok" the message is visible for the manager and a "client-message-sent" job was created, for status "suspicious" it is blocked and a "client-message-blocked" job was created, and that job is in exactly one place; or the verdict is on the dead-letter topic after all tries |
| Pipeline.LostIffWriteFailed | internal/services/afc-verdicts-processor/service.go:191-196 | In every run, restarts included, a message is given up in some delivery if and only if a dead-letter write of that message failed |
| Pipeline.LostIffItsOwnWriteFailed | internal/services/afc-verdicts-processor/service.go:152-198 | Without a restart of its consumer each message is delivered exactly once, in order, and a committed one is lost if and only if its own dead-letter write failed |
| Pipeline.FailedDlqWriteLosesTheVerdict | internal/services/afc-verdicts-processor/service.go:181-196 | For every message, of a known status or not decodable at all, there is a run in which all its tries and the dead-letter write fail, its offset is committed, and it is nowhere |
| Pipeline.BatchesAreThePartition | internal/services/afc-verdicts-processor/service.go:152-174 | Since the last restart the batches concatenate, in order, to the partition from the restart offset to the current place, none is longer than processBatchSize, and nothing beyond is committed |
| Pipeline.DlqIsTheRejected | internal/services/afc-verdicts-processor/service.go:177-211 | The dead-letter messages of a consumer are those of its rejected deliveries in order, with key and value unchanged; after its own headers, a message that decodes has LAST_ERROR with the error and ORIGINAL_PARTITION with its partition, and one that does not decode has nothing more |
| Pipeline.JobsEqualEffects | internal/services/afc-verdicts-processor/service.go:213-238 | Redelivery included, the verdict jobs of a kind ever put for a message are as many as the committed verdicts of that kind, and the flag is set if and only if there is such a job |
| Pipeline.FlagsNeverRevert | internal/repositories/messages/api_afc.go:11-35 | A set flag stays set in every continuation |
| VerdictService.Service.ProcessVerdict | internal/services/afc-verdicts-processor/service.go:213-238 | Unknown status if and only if it is neither "ok" nor "suspicious"; otherwise success if and only if nothing fails, the message exists and the payload is not empty. Success makes the message visible for the manager with a "client-message-sent" job, or blocks it with a "client-message-blocked" job, and changes nothing else; any error changes nothing |
| VerdictService.Service.Transact | internal/services/afc-verdicts-processor/service.go:216-224 | The transaction for one kind, with a fresh job: applied as a whole if and only if nothing fails and the message exists, and no change otherwise |
| VerdictService.Service.Retry | internal/services/afc-verdicts-processor/service.go:181-189 | At most `retries` tries: the first one without a fault takes effect, and without any the error is that of the last; one try for an unknown status |
| VerdictService.Service.TryOnce | internal/services/afc-verdicts-processor/service.go:181-186 | One try among whatever others do: one delivery with effect, or none and one try more |
| VerdictService.Service.WriteDlqMessage | internal/services/afc-verdicts-processor/service.go:191-196 | One message is appended to the dead-letter topic, or, exactly when that fails, the delivery is recorded as lost |
| VerdictService.Service.ProcessMessage | internal/services/afc-verdicts-processor/service.go:179-211 | One pass of the loop is one delivery: it took effect as its status says, at the first try without a fault, or was written as received but for the topic and, if it decodes, the headers LAST_ERROR and ORIGINAL_PARTITION; it is lost only if that write fails |
| VerdictService.Service.ProcessBatch | internal/services/afc-verdicts-processor/service.go:177-198 | One delivery for each message, in order, whatever others do in between, and the topic receives just the rejected ones, in order |
| VerdictService.Service.Collect | internal/services/afc-verdicts-processor/service.go:153-164 | The batch is what was taken from the channel, at most processBatchSize messages, and fewer only if nothing is on offer or fetching fails; nothing is processed meanwhile |
| VerdictService.Service.CommitMessages | internal/services/afc-verdicts-processor/service.go:170-172 | The committed offset becomes the one after the last message of the batch, unless that fails or the batch is empty |
| VerdictService.Service.ProcessRound | internal/services/afc-verdicts-processor/service.go:152-174 | One batch is the stretch of the partition that is passed; its messages are delivered once each, in order, and the rejected ones are what is added to the dead-letter topic |
| VerdictService.Service.ProcessMessages | internal/services/afc-verdicts-processor/service.go:135-175 | The loop is a run of the pipeline; the deliveries it adds are those of the messages from the old place to the new one, once each and in order, the dead-letter topic grows by the rejected ones, and nothing beyond is committed. Nothing but a done context or a failing fetch cuts it short; when all works, every known verdict takes effect at the first try, nothing is lost and all is committed |
| History.GetClientChatMessages | internal/repositories/messages/api_history.go:46-102 | Invalid cursor exactly for the zero time or a page size outside of 10 to 100, invalid page size exactly for one outside of these. Otherwise the page has only messages that are visible for the client, in chats of that client and older than the cursor, each with its own fields; every such message of the table is on it, or the page is full, there is a cursor, and the message is not newer than the last one |
| History.PageOfTable | internal/repositories/messages/api_history.go:53-101 | What a page is on the table, field by field |
| History.FetchPage | internal/repositories/messages/api_history.go:79-101 | Fetching one more and cutting it off gives the newest `size` messages, and a cursor at the last of them if and only if more exist |
| HistoryWalk.ReadHistory | internal/repositories/messages/api_history.go:46-102 | A client that calls until there is no cursor, while messages not older than its cursor arrive, comes to an end; no message comes twice, times never increase, and all visible messages are shown if and only if no messages of one time straddle the end of a page in the table at the start; it ends with a refused cursor if and only if that table leads to a page that ends at the zero time |
| HistoryWalk.WalkIsBounded | internal/repositories/messages/api_history.go:93-101 | Every walk, also one in progress, has only full pages before its last, and together they fit into the visible messages; so none goes on for ever |
| HistoryWalk.WalkGoesOn | internal/repositories/messages/api_history.go:79-101 | A walk in progress goes on with any page the query may return for its cursor, whatever newer messages have arrived, unless that cursor is refused for its zero time |
| HistoryWalk.WalkNeverRepeats | internal/repositories/messages/api_history.go:79-101 | In every walk, finished or not, no message comes twice, times never increase, and all messages are visible ones of this client |
| HistoryWalk.NewMessagesChangeNoPage | internal/repositories/messages/api_history.go:79-83 | In every walk the pages are those of the table as it was at the start, whatever newer messages arrive meanwhile, and it is finished at the same point |
| HistoryWalk.ShowsAllIffNothingStraddles | internal/repositories/messages/api_history.go:93-101 | Whether a finished walk has shown every visible message is decided by the table: if and only if no messages of one time straddle the end of a page |
| HistoryWalk.MissedIffCutOff | internal/repositories/messages/api_history.go:97-101 | Which ones are missed: those that have the time of the last message of a page with a successor and are not on that page |
| HistoryWalk.WalkIsTheSortedHistory | internal/repositories/messages/api_history.go:46-102 | With distinct times a finished walk holds exactly the visible messages, strictly descending |
| HistoryWalk.NextPageEmptyIffOnlyTiesLeft | internal/repositories/messages/api_history.go:93-101 | The page after a cursor is empty if and only if everything left has the time of the cursor; never with distinct times |
| HistoryWalk.TiesLoseAMessage | internal/repositories/messages/api_history.go:97-101 | On a table of one message more than a page, all of one time, every finished walk misses a message and has an empty second page |
| HistoryWalk.TiedWalk | internal/repositories/messages/api_history.go:97-101 | Such a walk exists, for every page size |
| HistoryWalk.CursorIsRefusedIffCutAtZero | internal/repositories/messages/api_history.go:30-36 | A returned cursor fails validation if and only if there are more messages than fit and the one in the last place of the page, counted in the table, has the zero time |
| HistoryWalk.EndsWithErrorIffRefusedAtZero | internal/repositories/messages/api_history.go:68-71 | Whether a walk that cannot go on has come to a refused cursor is decided by the table at its start |
| HistoryWalk.ZeroTimeCursorIsRefused | internal/repositories/messages/api_history.go:98-101 | For every page size there is a table whose first page comes with a cursor that is refused |
| EagerLoading.LoadMessages | internal/store/chat_query.go:450-479 | With the query restricted to the ids of the nodes, the foreign-key error never comes, and with distinct ids each chat gets exactly its own stored messages in query order, as in the nested-loop join |
| EagerLoading.RestrictedJoin | internal/store/chat_query.go:463-466 | Restricting the query to the keys takes no message away from a chat that is asked for |
| EagerLoading.QueryMessages | internal/store/chat_query.go:463-466 | The query returns the rows of the chats asked for, in its own order, and no others |
| EagerLoading.IndexNodes | internal/store/chat_query.go:451-459 | The keys are the ids of the nodes in order, the index leads each of them to the last node that has it, and every edge list is emptied |
| EagerLoading.AssignMessages | internal/store/chat_query.go:470-478 | Each neighbour goes to the node its key leads to, in query order, and to no other; a neighbour without a node is the error |
| EagerLoading.MessagesOfIsTheJoin | internal/store/chat_query.go:470-477 | A chat's messages are those that refer to it, each as often as it was returned |
| EagerLoading.MessagesInQueryOrder | internal/store/chat_query.go:470-477 | A chat's messages come in the order in which the query returned them |
| EagerLoading.ChatOfIsLast | internal/store/chat_query.go:453-455 | Among nodes of one id the index leads to the last one |
| EagerLoading.ChatOfUnique | internal/store/chat_query.go:453-455 | With distinct ids the index leads each id to its own node |
| EagerLoading.KeysAreDistinctAndComplete | internal/store/message_query.go:448-456 | Each key that occurs among the nodes is asked for, once |
| EagerLoading.KeysInOrderOfUse | internal/store/message_query.go:448-456 | The keys are asked for in the order of their first use |
| EagerLoading.LoadChat | internal/store/message_query.go:447-475 | The query asks for each key once, the foreign-key error never comes, every message whose chat is stored has that chat, also where several messages share it, and any other message keeps its edge |
| EagerLoading.RestrictedLookup | internal/store/message_query.go:460-461 | Restricting the query to the ids loses no chat that is asked for |
| EagerLoading.QueryChats | internal/store/message_query.go:460-461 | The query returns the chats asked for, in its own order, and no others |
| EagerLoading.GroupNodes | internal/store/message_query.go:448-456 | The keys are those of the nodes, each once in order of first use, and each key's group holds exactly its nodes |
| EagerLoading.AssignChats | internal/store/message_query.go:465-474 | Every node gets the last chat returned for its key and keeps its edge if there was none; a chat that no key asked for is the error |
| EagerLoading.AssignGroup | internal/store/message_query.go:470-472 | The inner loop sets the edge of the nodes of one key and of no others |

## Left out

- SQL text, drivers, locking, and the aborted state a Postgres transaction enters after a failed statement.
- An ambiguous commit of a database transaction, one that reports an error and still takes effect.
- Use of the outer context inside a transaction body, which would write outside the transaction.
- Clock skew between the service and the database, and liveness under unfair scheduling.
- Kafka networking and group rebalancing: each consumer keeps one partition, and offsets commit or stay as they are.
- Cryptography, base64, JSON and UUID parsing, which are arbitrary functions here; invalid UTF-8 in messages.
- Hooks of `Tx` that call next more than once, and hooks that panic.
- The concrete job handlers: a handler answers nil or any error; a handler that panics is the crash of its worker.
- `Service.Run` of both services: workers and consumers are concurrent steps; the idle time between sweeps is a tick of the clock, and cancelling the others after an error shows as workers that stop or take no further step.
- `jobs.created_at`, `failed_jobs` identifiers, and job names of verdict jobs put by anything but the consumer.
- `loadProblems` and `loadProblem`, which are the same loops over other tables, and the scanning of rows.
- The `select messages` error of a failing history query, which returns no page and no cursor.
- Option validation (its guarantees are `Verdicts.Options`), `MustRegisterJob`, logging, configuration, closing of readers and writers.
- VerdictService.Service.ProcessMessages: the source loops until its context is done; here that happens after a number of rounds that is a parameter.
- OutboxService.Service.ProcessAvailableJobs: that nothing is left available when it ends is stated for a lone worker, because others may make rows available again at any time.
- Transactions.FlatteningRefinesNestedTransactions: states a sufficient shape; around a single handler the condition is exact in the two lemmas beside it, but in a longer body later statements may undo a difference by chance.
- OutboxBounds.CallsAreLimited: a job that nobody picks up any more is not shown to be called at all, since that depends on scheduling.
- HistoryWalk.NewMessagesChangeNoPage: rows that are changed or removed during the walk are not considered.
