# Verified models of the AgentHub backend core

This project models the parts of AgentHub that carry real state machines, refinements, round trips and arithmetic, and
proves what they promise.  `dafny verify dfyconfig.toml` checks everything.

The layout follows the program.  A module with imperative code (classes over fields, methods with loops) ties each
operation to a specification function by its `ensures`; the promises of the source are then lemmas about those
functions, over every input, every run or every interleaving.

| file | what it models |
|---|---|
| `Migrations.dfy`, `MigrationRunner.dfy` | the migration runner: a one-row version table with a dirty flag, crashes at every database step, file discovery |
| `EventBuffer.dfy`, `SseId.dfy`, `Resume.dfy`, `ResumeStream.dfy` | the replay ring buffer, SSE ids, the replay filter, and the resume stream racing the writer |
| `RunHandshake.dfy`, `RunWorker.dfy` | cancelling an asynchronous run, and the worker's mapping from runner events to the buffer and one terminal status |
| `NumericRange.dfy` | the digit-counting range check for PostgreSQL `numeric`, against the exact value of a number |
| `PdfText.dfy`, `PdfWriter.dfy`, `PdfReader.dfy`, `PdfBytes.dfy`, `XlsxColumn.dfy` | the audit PDF with its byte offsets, a reader that goes from its bytes back to the lines, and spreadsheet column names |
| `AgentVersions.dfy`, `VersionService.dfy` | drafts, publishing, rollback, and the pointer to the current version |
| `SkillBindings.dfy`, `Bundle.dfy`, `BundleOrder.dfy` | the agent's skill list, export and import of agent bundles, and what they do to its order |
| `JsonScan.dfy`, `MetricsQueue.dfy`, `Permissions.dfy`, `Slug.dfy` | the duplicate-key scanner, the bounded metrics queue, wildcard permissions, slugs |
| `Prelude.dfy`, `Decimal.dfy` | shared datatypes, decimal text and powers of ten |

## How the environment is modelled

- A migration run draws the fate of each database step from a list: done, failed without effect, or done without the
  runner learning of it.  A crash between two steps is a failure of the later one.  The schema is the journal of the
  scripts that ran; one script is one step.
- The resume stream and the cancel handshake are state machines whose actions interleave freely.  One buffer call, one
  frame written, one access to a map, one repository call and one context check are one step each.
- A run event is seen through the payload fields that the code decodes.  The empty string stands for a field that is
  absent, empty or unreadable, which the code does not tell apart.
- A number's value is an exact fraction of integers, so no rounding is involved.
- The PDF is modelled in characters.  `PdfBytes.PositionsAreBytes` proves that every character of it is one byte.
- The worker records its appends, status writes, completion attempts and hooks in one trace, each where it happens.
- A skill's name is its place in the database's collation order.
- New UUIDs are fresh.  A version row is named by its position in its table.

## Where the code does less than it says

- The comment on `filterReplayableEvents` says that an input request is dropped when it is answered later in the
  window.  The code looks only at the first answer in the window, so a request whose ID was already answered before it
  stays, even if it is answered again (`Resume.AnsweredBeforeStays`).  `Resume.FilterDropsStale` states exactly what is
  dropped.
- Leaving the resume stream because the run is done does not mean that everything was sent.  The poll loop ignores a
  refused look at the buffer (`ResumeStream.DrainedCanMissTheTail`), after which nothing more is ever sent
  (`ResumeStream.RefusedForEver`); and the transcription of a voice message can be appended after the run was marked
  done (`ResumeStream.LateAppendIsMissed`).  `ResumeStream.DrainedIsComplete` is the exact condition.
- A cancel that fires while the session loads leaves the run queued or active for ever, because the failure is
  written through the context that the cancel ended: `RunHandshake.CancelDuringStartupLeavesActive` and
  `RunHandshake.FiredCancelExactly`.
- A cancellation persisted by another process survives if the worker has not yet read the row and its database calls
  succeed, whatever cancels and timeouts follow (`RunHandshake.UnreadCancelSurvives`), but a worker that is not cancelled itself overwrites it with its next write:
  `RunHandshake.PersistedCancelSurvives` and `RunHandshake.PersistedCancelIsLost`.
- The number validator errs on zeros in both directions.  0e1000000 is in range and is refused, because no exponent of
  seven significant digits is read (`NumericRange.ZeroCanBeRefused`); 0e-20000 has too many digits after the point and
  is accepted, because a zero skips the digit counts (`NumericRange.ZeroCanBeOutOfRange`).
  `NumericRange.ZeroIsDecidedIff` is the exact condition.
- A rollback does not restore an empty model configuration (the snapshot holds an empty object) and does not clear a
  prompt: `AgentVersions.RollbackRestores` gives the exact condition, `AgentVersions.EmptyConfigIsNotRestored` and
  `AgentVersions.LaterPromptIsKept` an example of each.
- A bundle lists its skills by name, so an imported agent can have them in another order than the original agent:
  `BundleOrder.OrderCanBeLost`; `BundleOrder.OrderIsKept` says when the order survives.

## Model

| member | source | states |
|---|---|---|
| `Migrations.EveryHistoryIsConsistent` | agenthub-go-commons/database/migrate/migrate.go:35-125 | after any sequence of Up and Down runs, each stopping anywhere: recorded version v clean means exactly the migrations up to v are in place; v dirty means exactly those below v, or up to v |
| `Migrations.HistoryRuns` | agenthub-go-commons/database/migrate/migrate.go:35-125 | a history is its Up and Down runs one after the other |
| `Migrations.NeverAppliedTwice` | agenthub-go-commons/database/migrate/migrate.go:56-64 | no run after any history executes the up script of a migration that is in place at that moment |
| `Migrations.DirtyIsFinal` | agenthub-go-commons/database/migrate/migrate.go:48-54 | a dirty table keeps its row and its journal under any sequence of further runs |
| `Migrations.UpKeeps` | agenthub-go-commons/database/migrate/migrate.go:35-67 | one faulty run of Up keeps the table truthful; if it reports success every migration is in place and clean |
| `Migrations.DownKeeps` | agenthub-go-commons/database/migrate/migrate.go:70-125 | the same for Down, whose success means nothing is in place |
| `Migrations.UpCompletes` | agenthub-go-commons/database/migrate/migrate.go:56-66 | without faults Up succeeds from any clean prefix and runs exactly the pending scripts in order |
| `Migrations.SecondUpIsNoOp` | agenthub-go-commons/database/migrate/migrate.go:56-66 | after a successful Up, another one changes nothing |
| `Migrations.DownUnwinds` | agenthub-go-commons/database/migrate/migrate.go:104-124 | without faults Down runs the down scripts in the reverse order and stops clean at the newest applied migration without a down script; it succeeds iff there is none |
| `Migrations.EveryHistoryFollows` | agenthub-go-commons/database/migrate/migrate.go:56-64 | every history moves along the file set one migration at a time, and runs only down scripts that exist |
| `Migrations.JournalCancels` | agenthub-go-commons/database/migrate/migrate.go:240-257 | the effect of such a journal is that of the migrations in place, if each existing down script undoes its up script on the schema of the older migrations |
| `Migrations.SchemaFollowsHistory` | agenthub-go-commons/database/migrate/migrate.go:35-125 | under that hypothesis, which asks nothing of migrations without a down script: after any history of partial runs the schema is the initial one with exactly a prefix of the migrations applied |
| `Migrations.DownRestores` | agenthub-go-commons/database/migrate/migrate.go:70-125 | under the same hypothesis a Down that succeeds, after any history, restores the initial schema and empties the version table |
| `Migrations.UpSucceedsExactly` | agenthub-go-commons/database/migrate/migrate.go:35-67 | Up succeeds iff the table is not dirty and every database step of reading it and of the pending migrations succeeds, three steps for a blank script and four for any other |
| `Migrations.DownSucceedsExactly` | agenthub-go-commons/database/migrate/migrate.go:70-125 | Down succeeds iff the table can be read and is empty, or it is not dirty, every migration up to the recorded one has a down script and each of their steps succeeds |
| `Migrations.SetVersionFate` | agenthub-go-commons/database/migrate/migrate.go:259-283 | a step that failed without effect leaves the version row, one that took effect without the runner learning it replaces the row and still fails the run |
| `Migrations.RunScriptFate` | agenthub-go-commons/database/migrate/migrate.go:245-254 | the same of running a script |
| `Migrations.InterruptedRunTears` | agenthub-go-commons/database/migrate/migrate.go:240-257 | a run interrupted before its first script ran leaves that version dirty and the journal empty |
| `MigrationRunner.DiscoveryIsExact` | agenthub-go-commons/database/migrate/migrate.go:172-208 | discovery succeeds iff versions fit 64 bits and are distinct, and then yields exactly the files of the direction in increasing order |
| `MigrationRunner.DiscoveryFinds` | agenthub-go-commons/database/migrate/migrate.go:172-208 | over the raw directory entries: discovery fails iff two entries are files of the direction with one version, or a version exceeds 64 bits; otherwise it finds exactly the files of that direction, no directory and none of the other direction |
| `MigrationRunner.DownScriptsAreFiled` | agenthub-go-commons/database/migrate/migrate.go:87-90 | the scripts filed by version are exactly the down files of the directory |
| `MigrationRunner.DownScriptExists` | agenthub-go-commons/database/migrate/migrate.go:108-111 | a version has a down script iff the directory has a down file of that version |
| `MigrationRunner.Discover` | agenthub-go-commons/database/migrate/migrate.go:172-208 | the discovery loop with its map of versions seen computes that result, including the early error |
| `MigrationRunner.SchemaConnection.SetVersion` | agenthub-go-commons/database/migrate/migrate.go:259-283 | replaces the version row in one transaction, or leaves it, as the step's fate says |
| `MigrationRunner.SchemaConnection.ApplyMigration` | agenthub-go-commons/database/migrate/migrate.go:240-257 | mark dirty, run the script, mark clean, stopping at the first failure |
| `MigrationRunner.SchemaConnection.Up` | agenthub-go-commons/database/migrate/migrate.go:35-67 | ends in the state and result of the specified run of Up; a discovery error changes nothing |
| `MigrationRunner.SchemaConnection.RollBack` | agenthub-go-commons/database/migrate/migrate.go:104-124 | the newest-first loop with its search for the next older version does the specified rollback |
| `MigrationRunner.SchemaConnection.Down` | agenthub-go-commons/database/migrate/migrate.go:70-125 | ends in the state and result of the specified run of Down |
| `MigrationRunner.NextOlder` | agenthub-go-commons/database/migrate/migrate.go:112-118 | the first later candidate with an older version, or -1 when there is none |
| `EventBuffer.SinceIsComplete` | internal/domain/chat/eventbuffer.go:121-155 | overflow is reported iff the buffer is not empty and the position is positive and older than the oldest event; otherwise a positive position gets exactly the log events with a greater ID, position zero what is held |
| `EventBuffer.RingPush` | internal/domain/chat/eventbuffer.go:83-101 | writing behind the newest cell of the circular array appends, and evicts exactly the oldest element of a full one |
| `EventBuffer.EventBuffer.constructor` | internal/domain/chat/eventbuffer.go:71-80 | an empty buffer of the requested capacity, or of the default one if that is not positive |
| `EventBuffer.EventBuffer.Append` | internal/domain/chat/eventbuffer.go:83-101 | the unbounded log grows by one event with the next ID, and the array still holds exactly its last min(n, capacity) events |
| `EventBuffer.EventBuffer.EventsSince` | internal/domain/chat/eventbuffer.go:121-155 | the circular scan returns what the log says, with the overflow result |
| `EventBuffer.EventBuffer.MarkDone` | internal/domain/chat/eventbuffer.go:104-108 | sets the done flag and leaves the log alone |
| `EventBuffer.EventBuffer.OldestSeq` | internal/domain/chat/eventbuffer.go:166-174 | the ID of the oldest event still held, 0 if none |
| `EventBuffer.EventBuffer.NewestSeq` | internal/domain/chat/eventbuffer.go:177-185 | the number of events ever appended |
| `SseId.ParseInvertsFormat` | internal/domain/chat/eventbuffer.go:25-53 | parsing accepts exactly the ids that formatting makes from a non-empty run ID and a 64-bit sequence, and inverts it |
| `Resume.FilterReplayable` | internal/domain/chat/handler.go:1581-1638 | the two loops over the window and the map of first answers keep exactly the events that are not stale |
| `Resume.FilterDropsStale` | internal/domain/chat/handler.go:1578-1638 | an event is dropped iff it is an input request with an ID that is answered later in the window and not before |
| `Resume.AnswersExactly` | internal/domain/chat/handler.go:1588-1608 | only a tool result, or tool progress in state completed, answers an ID |
| `Resume.FilterOrders` | internal/domain/chat/handler.go:1615-1637 | the filter keeps the order and never drops the last event |
| `Resume.AnsweredBeforeStays` | internal/domain/chat/handler.go:1586-1609 | a request answered before and after stays |
| `ResumeStream.RunKeeps` | internal/domain/chat/handler.go:1236-1290 | the invariant of reader and writer holds at every moment of every interleaving |
| `ResumeStream.StreamIsGapFree` | internal/domain/chat/handler.go:1236-1290 | in every interleaving the IDs sent strictly increase, and from the first batch on (or the newest ID after an overflow) every ID was sent or is an answered input request that was dropped |
| `ResumeStream.LeavesExactly` | internal/domain/chat/handler.go:1262-1288 | in every interleaving a reader that left after a poll has sent nothing since that poll, and it leaves with its next step iff the run is done, everything of its last look is written, and that look was the first or a poll after which nothing was sent |
| `ResumeStream.LastPollExactly` | internal/domain/chat/handler.go:1277-1288 | a poll of a done run is the last iff there is nothing new or events were lost to overflow |
| `ResumeStream.GoneIsFinal` | internal/domain/chat/handler.go:1274-1276 | nothing is sent once the client is gone, and a reader that has left stays as it was |
| `ResumeStream.DrainedIsComplete` | internal/domain/chat/handler.go:1262-1288 | a reader that leaves because the run is done has sent everything iff its last look was answered and nothing was appended since, or the client claimed a position at or past the end of the log |
| `ResumeStream.DoneThenIsComplete` | internal/domain/chat/handler.go:1278-1288 | if nothing is appended to a run marked done, an answered last look at a done run means that everything was sent |
| `ResumeStream.LateAppendIsMissed` | internal/domain/chat/handler.go:759-812 | a run in which an event appended after MarkDone is missed although the last look was answered |
| `ResumeStream.RefusedForEver` | internal/domain/chat/handler.go:1278 | once a poll is refused every later one is, and nothing more is sent |
| `ResumeStream.DrainedCanMissTheTail` | internal/domain/chat/handler.go:1278-1288 | a run in which a lapped reader leaves with the tail of the log unsent |
| `RunHandshake.Invariant` | internal/domain/chat/async_executor.go:217-228 | the invariant of worker and Cancel calls holds in every interleaving |
| `RunHandshake.MissedCancelPreventsRun` | internal/domain/chat/async_executor.go:665-676 | if a Cancel returned false before the task finished, the runner is never called and the run ends cancelled (unless that write is refused) |
| `RunHandshake.FiredCancelStopsRun` | internal/domain/chat/async_executor.go:864-874 | if a Cancel fired before the final context check, the run never completes, and ends cancelled if the runner had started (unless that write is refused) |
| `RunHandshake.FiredCancelExactly` | internal/domain/chat/async_executor.go:689-698 | a cancel fired in time leaves the row cancelled iff start-up did not fail |
| `RunHandshake.CancelCanWin` | internal/domain/chat/async_executor.go:864-874 | such a cancelled run exists: started, stopped in time, cancelled at the end |
| `RunHandshake.EarlyCancelCanWin` | internal/domain/chat/async_executor.go:665-676 | so does a run whose only Cancel returned false and which still ends cancelled |
| `RunHandshake.CompletedRanThrough` | internal/domain/chat/async_executor.go:864-910 | a completed run was never missed by a cancel nor stopped in time by one |
| `RunHandshake.FinishedRowExactly` | internal/domain/chat/async_executor.go:864-910 | the row of every finished run that nobody else cancelled and whose terminal write succeeded: for an accepted run cancelled iff its context had ended with a cancellation recorded, failed iff it had ended without one or the model failed in a live context, else completed; for one not accepted cancelled iff start-up did not fail |
| `RunHandshake.FailedStartIsWritten` | internal/domain/chat/async_executor.go:693-698 | a failed start-up is written iff the write succeeds and the run's context is still live |
| `RunHandshake.PersistedCancelSurvives` | internal/domain/chat/async_executor.go:677-687 | with no cancel or timeout in this process and successful database calls from then on, a cancellation persisted by another process is in the row at the end iff the worker had not read the row or had made its last write |
| `RunHandshake.UnreadCancelSurvives` | internal/domain/chat/async_executor.go:665-681 | after any history in which the worker has not read the row, a cancellation persisted by another process stays in it whatever cancels, timeouts and further cancellations follow, if the worker's database calls succeed |
| `RunHandshake.PersistedCancelCanBeLost` | internal/domain/chat/async_executor.go:677-687 | after any history a cancellation persisted just before the activation is overwritten by it |
| `RunHandshake.PersistedCancelIsLost` | internal/domain/chat/async_executor.go:677-687 | a run from the start that completes although its cancellation was persisted |
| `RunHandshake.CancelDuringStartupLeavesActive` | internal/domain/chat/async_executor.go:693-698 | any such start-up can be continued to an end with Cancel answering true and the row active |
| `RunHandshake.StartupCancelCanStrandRun` | internal/domain/chat/async_executor.go:693-698 | such a run exists |
| `RunWorker.Worker.ProcessTask` | internal/domain/chat/async_executor.go:660-910 | for every event stream: the trace of appends, status writes, completion attempts and hooks, audio included, is the specified one, with MarkDone as its last step and every append before it; the client is sent the runner's events in order and at most one synthetic error; completion, statuses and hooks are as in the rows below |
| `RunWorker.Worker.Follow` | internal/domain/chat/async_executor.go:818-910 | the trace from the moment the runner accepted the run, audio included |
| `RunWorker.CompletedExactly` | internal/domain/chat/async_executor.go:864-910 | of every trace the worker leaves: marked completed iff accepted, context live, no message in the last fatal model error and one of at most three attempts succeeds; Completed hooks fire exactly then and only afterwards |
| `RunWorker.StatusExactly` | internal/domain/chat/async_executor.go:671-910 | of every trace the worker leaves, over what it observed: written cancelled iff a cancellation was recorded before the start or ended the context of an accepted run; failed iff start-up failed, the run timed out, or the last fatal model error of a live run has a message; hooks fire with that status, for a row found cancelled too, but not for a failed start-up; no two terminal statuses |
| `RunWorker.FatalExactly` | internal/domain/chat/async_executor.go:847-852 | a fatal model error is an error event with code stream_consume or llm_call |
| `RunWorker.ClientIsTold` | internal/domain/chat/async_executor.go:671-910 | hooks fire at most once and after everything but MarkDone; the one synthetic error says cancelled iff the cancelled hooks fire, timeout iff the run timed out, and start-up with its message iff that failed |
| `RunWorker.DrainIsRelayed` | internal/domain/chat/async_executor.go:830-855 | apart from audio the runner's events are relayed one by one in order |
| `RunWorker.EndIsSpoken` | internal/domain/chat/async_executor.go:834-836 | with voice output run_complete comes right after the audio of the text so far, if that can be made |
| `RunWorker.OnlyEndsAreSpoken` | internal/domain/chat/async_executor.go:834-839 | any other event follows the one before it directly |
| `RunWorker.LastWordsExactly` | internal/domain/chat/async_executor.go:856-858 | the whole text is spoken at the end iff voice output is on and the last run_complete, if any, was not spoken; without voice output nothing is added to the stream |
| `RunWorker.TextAddsUp` | internal/domain/chat/async_executor.go:831-833 | the text to be spoken adds up over the deltas of the stream |
| `RunWorker.Worker.Drain` | internal/domain/chat/async_executor.go:818-858 | the draining loop appends the stream with the synthesized audio and remembers the last fatal error |
| `RunWorker.Worker.RetryPersistence` | internal/domain/chat/async_executor.go:929-955 | at most three recorded attempts, the last of them decides, and giving up early means the context has ended |
| `NumericRange.ValidatePostgresJSONBNumber` | internal/metadata/document.go:115-173 | the validator accepts exactly the strings of its specification |
| `NumericRange.ParsePostgresNumericExponent` | internal/metadata/document.go:175-201 | the exponent parser computes the specified exponent or error |
| `NumericRange.IsDecimalDigits` | internal/metadata/document.go:203-210 | true iff every character is a digit |
| `NumericRange.AcceptsExactlyTheRange` | internal/metadata/document.go:115-201 | for every nonzero decimal number within the size cap, JSON numbers among them: accepted iff its absolute value is below 10^131072 and it has at most 16383 digits after the point |
| `NumericRange.AcceptsExactly` | internal/metadata/document.go:115-201 | for every string within the size cap: accepted iff it writes a decimal number (leading zeros and an empty fraction allowed) that is in range, or a zero whose exponent has at most six significant digits |
| `NumericRange.HugeExponentsAreOut` | internal/metadata/document.go:193-195 | refusing exponents of more than six significant digits never refuses a nonzero number in range |
| `NumericRange.ZeroNeedsSmallExponent` | internal/metadata/document.go:175-201 | a zero is accepted iff its exponent has at most six significant digits, whatever its scale |
| `NumericRange.ZeroInRangeIff` | internal/metadata/document.go:169-171 | a zero is within the two bounds iff it has at most 16383 digits after the point |
| `NumericRange.ZeroIsDecidedIff` | internal/metadata/document.go:153-201 | for every zero within the size cap: accepted iff in range, exactly when its exponent is below a million and it has at most 16383 digits after the point, or an exponent of minus a million or less |
| `NumericRange.ZeroCanBeRefused` | internal/metadata/document.go:193-195 | 0e1000000 is zero and in range, and is refused |
| `NumericRange.ZeroCanBeOutOfRange` | internal/metadata/document.go:153-157 | 0e-20000 is zero, is out of range, and is accepted |
| `PdfText.PdfEscapeText` | internal/domain/audit/handler.go:520-538 | the escaping loop computes the specified escape |
| `PdfText.PdfPageContent` | internal/domain/audit/handler.go:488-501 | the page loop computes the specified content stream |
| `PdfText.LiteralReads` | internal/domain/audit/handler.go:520-538 | an escaped text reads back as a PDF literal string, whatever follows it (ISO 32000-1, section 7.3.4.2) |
| `PdfText.PageReads` | internal/domain/audit/handler.go:488-501 | a page's content stream reads back as its lines, with control and foreign characters replaced |
| `PdfWriter.AuditLogsPDF` | internal/domain/audit/handler.go:410-463 | the writer produces exactly the specified document of the specified objects |
| `PdfWriter.BuildObjects` | internal/domain/audit/handler.go:418-437 | the object array is filled slot by slot with the specified objects |
| `PdfWriter.WriteBody` | internal/domain/audit/handler.go:439-448 | every object is written once in order, and the offset recorded for it is where it starts |
| `PdfWriter.WriteEnd` | internal/domain/audit/handler.go:449-462 | the table, trailer and startxref that follow the objects |
| `PdfWriter.FileIsIndexed` | internal/domain/audit/handler.go:442-456 | for any file below 10^10 bytes, the 20-byte xref entry of object i decodes to the position where that object is written (ISO 32000-1, section 7.5.4) |
| `PdfWriter.TableIsFound` | internal/domain/audit/handler.go:449-461 | startxref names the position of the xref table, which opens with its size and the free entry (ISO 32000-1, section 7.5.5) |
| `PdfWriter.OffsetHasTenDigits` | internal/domain/audit/handler.go:503-509 | an offset below 10^10 becomes ten digits that denote it |
| `PdfReader.DocumentReadsBack` | internal/domain/audit/handler.go:410-463 | for every line list below 10^10 bytes, reading from the bytes (startxref, table, trailer, catalog, page tree, pages, streams) gives back exactly the lines in order, with control and foreign characters replaced |
| `PdfReader.DocumentIsWritten` | internal/domain/audit/handler.go:440-461 | in any written file the table, the root and every object are found by following the file's own numbers |
| `PdfReader.ReferencesRead` | internal/domain/audit/handler.go:435-437 | the references of the page tree read back as the object numbers they name |
| `PdfReader.StreamReads` | internal/domain/audit/handler.go:433 | trusting the Length entry reads back exactly the content (ISO 32000-1, section 7.3.8) |
| `PdfReader.OnePageReads` | internal/domain/audit/handler.go:424-436 | a page object leads to its contents object, whose stream reads back as the lines of the page |
| `PdfBytes.PositionsAreBytes` | internal/domain/audit/handler.go:443-449 | every character of the file is below 128, so every position and every length counts bytes |
| `PdfBytes.EscapeIsPrintable` | internal/domain/audit/handler.go:520-538 | only printable ASCII gets through the escape |
| `PdfWriter.PaginationIsComplete` | internal/domain/audit/handler.go:412-430 | the pages hold every line once and in order, 32 on each but the last, which is not empty if there are lines |
| `XlsxColumn.XlsxColumnName` | internal/domain/audit/handler.go:650-658 | the loop terminates and yields the name that denotes the index, the empty name for none |
| `XlsxColumn.NamesAreBijective` | internal/domain/audit/handler.go:650-658 | positive indices and non-empty A-Z names correspond one to one, base-26 decoding being the inverse |
| `AgentVersions.VersionsAreOrdered` | internal/domain/agent/service.go:782-1000 | in every reachable state an agent's version numbers are 1 to n, a draft has number n, and once anything is published current_version is the greatest published number |
| `AgentVersions.NumbersAreUnique` | internal/domain/agent/service.go:787-795 | no two versions of an agent share a number, and at most one is a draft |
| `AgentVersions.PublishedIsFrozen` | internal/domain/agent/service.go:848-855 | a published version never changes again, whatever calls follow |
| `AgentVersions.ContentsKept` | internal/domain/agent/service.go:848-866 | a version's contents change only through UpdateDraft on it |
| `AgentVersions.DraftHolds` | internal/domain/agent/service.go:782-846 | when CreateDraft is refused, and otherwise that it adds one row: the next number, what the request gives, and for what it leaves out the agent's prompt and configuration |
| `AgentVersions.UpdateHolds` | internal/domain/agent/service.go:848-866 | when UpdateDraft is refused, and otherwise that description, definition and configuration are the request's where it gives one and the old row's otherwise, with everything else unchanged |
| `AgentVersions.PublishHolds` | internal/domain/agent/service.go:880-891 | when Publish is refused, and otherwise that it changes the status of its row, and pointer and status of its agent, and nothing else |
| `AgentVersions.RollbackRefused` | internal/domain/agent/service.go:934-951 | when Rollback is refused, and with which error |
| `AgentVersions.RollbackApplies` | internal/domain/agent/service.go:934-1000 | what an accepted rollback does to the agent, the pointer and the table: the entry it adds, and that no other row and no other agent changes |
| `AgentVersions.RollbackRestores` | internal/domain/agent/service.go:820-846 | rolling back to a version drafted without overrides and not edited restores prompt and configuration iff the configuration was set when drafted, and the prompt was set then or is unset now |
| `AgentVersions.EditedDraftRestores` | internal/domain/agent/service.go:848-1000 | a prompt and a configuration put into a draft by UpdateDraft are exactly what a rollback to it restores after any later calls |
| `AgentVersions.DraftedOverridesRestore` | internal/domain/agent/service.go:782-1000 | so are those a draft was created with |
| `AgentVersions.EmptyConfigIsNotRestored` | internal/domain/agent/service.go:838-846 | an agent without a model configuration comes back with an empty object |
| `AgentVersions.LaterPromptIsKept` | internal/domain/agent/service.go:979-998 | a prompt set after the draft survives a rollback to a version without one |
| `AgentVersions.RollbackTwice` | internal/domain/agent/service.go:956-1000 | rolling back to a rollback's own entry does to the agent what rolling back to its target does |
| `VersionService.Service.DraftVersion` | internal/domain/agent/service.go:782-818 | CreateDraft on the tables, with its refusals |
| `VersionService.Service.EditDraft` | internal/domain/agent/service.go:848-878 | UpdateDraft on the tables, with its refusals |
| `VersionService.Service.PublishDraft` | internal/domain/agent/service.go:880-901 | Publish on the tables, with its refusals |
| `VersionService.Service.RollBack` | internal/domain/agent/service.go:934-1012 | Rollback on the tables through its repository calls, with its refusals in the order of the code |
| `VersionService.Service.PublishVersion` | internal/domain/agent/version_repository.go:222-258 | the row published and the agent's pointer and status moved together |
| `AgentVersions.NextIsFresh` | internal/domain/agent/version_repository.go:260-275 | the next version number is one more than the count of the agent's versions |
| `SkillBindings.Repository.SyncSkills` | internal/domain/agent/binding_repository.go:73-105 | replaces the agent's rows, or changes nothing when a skill does not exist or the store fails |
| `SkillBindings.Repository.ListSkillIDs` | internal/domain/agent/binding_repository.go:45-70 | lists the rows in priority order; after a sync that is the caller's order with a repeated ID at its last place |
| `SkillBindings.SyncedListsInOrder` | internal/domain/agent/binding_repository.go:45-105 | the listing after a sync is the given list with only the last occurrence of each ID |
| `SkillBindings.LastPlacesOfDistinct` | internal/domain/agent/binding_repository.go:89-93 | that is the given list itself iff its IDs are distinct |
| `SkillBindings.SortedIsInOrder` | internal/domain/agent/binding_repository.go:52-55 | the listing holds exactly the rows, by increasing priority |
| `Bundle.Export` | internal/domain/agent/bundle.go:120-192 | the export loops with their slug and index maps compute the specified bundle |
| `Bundle.ExportIsExact` | internal/domain/agent/bundle.go:143-174 | every tool of the agent's skills is listed exactly once, described as in the source, with exactly its skills' slugs |
| `Bundle.ExportCarries` | internal/domain/agent/bundle.go:120-192 | the bundle carries the agent, and its skills one by one with ID, name, slug and contents |
| `Bundle.Tenant.Import` | internal/domain/agent/bundle.go:234-331 | whatever creations fail: the result, the skills, tools and agent created, the new bindings, the skipped tools and the skill list of the new agent |
| `Bundle.Tenant.CreateSkills` | internal/domain/agent/bundle.go:237-265 | the skills that could be created, with their contents and their new IDs by slug |
| `Bundle.Tenant.CreateTools` | internal/domain/agent/bundle.go:291-322 | the tools that could be created, with their contents and bindings, and the slugs of the others |
| `Bundle.RoundTrip` | internal/domain/agent/bundle.go:234-322 | export then import gives the original skill-tool relation restricted to the skills and tools that were created, and nothing else |
| `Bundle.ContentsTravel` | internal/domain/agent/bundle.go:234-322 | export then import: every created skill is the original one under its new ID, every created tool is a tool of one of the agent's skills under its new ID, and nothing else is created |
| `Bundle.ImportListsInBundleOrder` | internal/domain/agent/bundle.go:283-289 | after a successful sync the new skills are listed in bundle order |
| `BundleOrder.OrderIsKept` | internal/domain/skill/repository.go:384-391 | if the new listing follows the order in which the original agent had the created skills, their names ascend along it; for different names this is exactly the condition |
| `BundleOrder.GivenStandForOrigins` | internal/domain/agent/bundle.go:237-265 | place by place, the new IDs stand for the original ones |
| `BundleOrder.OrderCanBeLost` | internal/domain/skill/repository.go:384-391 | an agent with two skills that come back the other way round |
| `Bundle.SkippedAreTheRest` | internal/domain/agent/bundle.go:307-313 | a slug is skipped iff a tool with it failed, and every tool is created or skipped |
| `JsonScan.ScanFindsDuplicates` | internal/httputil/json.go:56-105 | on the tokens of any JSON value followed by anything: accepts, leaving exactly the rest, iff no object at any depth repeats a name; otherwise reports a duplicate (RFC 8259, section 4) |
| `JsonScan.Decoder.ScanValue` | internal/httputil/json.go:62-105 | on any token stream the recursive scan terminates with the specified verdict and position |
| `JsonScan.RejectDuplicateObjectKeys` | internal/httputil/json.go:56-60 | no error iff the document's names are unique in every object |
| `MetricsQueue.MetricsAreConserved` | internal/domain/analytics/clickhouse_sink.go:125-171 | after any run, for each kind: accepted = handed over ++ accumulator ++ queue, in order; the queue is bounded, the accumulators are below the flush size, no call is empty |
| `MetricsQueue.EverythingIsHandedOver` | internal/domain/analytics/clickhouse_sink.go:153-171 | once the queue has been received, the next tick has handed over everything accepted |
| `MetricsQueue.DroppedOnlyWhenFull` | internal/domain/analytics/clickhouse_sink.go:125-132 | after any run a batch is dropped iff the queue is full, and otherwise is the last one queued |
| `MetricsQueue.NothingDroppedWithRoom` | internal/domain/analytics/clickhouse_sink.go:125-132 | as long as no more batches were offered than the queue has room for, all of them are accepted |
| `MetricsQueue.CallsAreDue` | internal/domain/analytics/clickhouse_sink.go:140-169 | receiving calls the sink iff a hundred metrics are then waiting, a tick whenever any are; a call empties both accumulators, runs before tools |
| `MetricsQueue.AsyncSink.constructor` | internal/domain/analytics/clickhouse_sink.go:99-111 | an empty queue with the requested bound, or the default one if that is not positive |
| `MetricsQueue.AsyncSink.Enqueue` | internal/domain/analytics/clickhouse_sink.go:125-132 | the batch enters the queue, or is dropped when it is full |
| `MetricsQueue.AsyncSink.Flush` | internal/domain/analytics/clickhouse_sink.go:140-153 | hands over the non-empty accumulators, runs first, and empties them |
| `MetricsQueue.AsyncSink.ReceiveBatch` | internal/domain/analytics/clickhouse_sink.go:157-166 | moves one batch to the accumulators and flushes full ones |
| `Permissions.CoversIsPartialOrder` | internal/domain/auth/permissions.go:17-32 | matching is reflexive, transitive and antisymmetric on segment lists |
| `Permissions.GrantsMeansEveryInstance` | internal/domain/auth/permissions.go:13-32 | a grant matches a requirement iff it matches every wildcard-free permission the requirement stands for |
| `Permissions.MutualGrantsAreEqual` | internal/domain/auth/permissions.go:17-32 | two permission strings that match each other are equal |
| `Permissions.GrantsMatchingPrefixes` | internal/domain/auth/permissions.go:13-32 | a grant matches exactly the permissions that begin with its segments, with any text for each wildcard; one with more segments never matches |
| `Permissions.TrailingSegmentsMatch` | internal/domain/auth/permissions.go:14-16 | a permission matches itself with further segments, and a match survives further segments of the requirement |
| `Permissions.WildcardMatchesMore` | internal/domain/auth/permissions.go:24-26 | writing a wildcard for a segment of a grant loses no match |
| `Permissions.MatchesPermission` | internal/domain/auth/permissions.go:17-32 | the segment loop decides the relation that the rows above characterise |
| `Permissions.HasAny` | internal/domain/auth/permissions.go:35-42 | true iff some grant of the list matches |
| `Permissions.SplitOfJoin` | internal/domain/auth/permissions.go:18-19 | splitting inverts joining colon-free segments |
| `Permissions.JoinOfSplit` | internal/domain/auth/permissions.go:18-19 | joining inverts splitting, and the segments are colon-free |
| `Slug.SlugBody` | internal/sanitize/slug.go:52-68 | the loop with its hyphen flag computes the specified slug body |
| `Slug.GapsBecomeHyphens` | internal/sanitize/slug.go:54-66 | folding keeps every letter and digit in order, drops other characters in front, and puts one hyphen for each run of them between two words |
| `Slug.BodyIsLongest` | internal/sanitize/slug.go:67 | the body is the longest beginning of the folded name that has the form of a body |
| `Slug.BodyIsCanonical` | internal/sanitize/slug.go:52-68 | every body is in the alphabet, at most 64 long, without a hyphen at an end or two in a row |
| `Slug.BodyFixesCanonical` | internal/sanitize/slug.go:52-68 | a string is its own body iff it has that form |
| `Slug.BodyIsIdempotent` | internal/sanitize/slug.go:52-68 | folding a slug again changes nothing |
| `Slug.CandidateIsValid` | internal/sanitize/slug.go:29-46 | for every name and prefix the trimmed candidate already matches the canonical pattern, so the rescue branch is dead |
| `Slug.ValidSlugIsPattern` | internal/sanitize/slug.go:16-26 | the valid slugs are the matches of the canonical pattern |
| `Slug.SlugOfName` | internal/sanitize/slug.go:29-46 | a body of two characters or more is the slug; an empty one gives the prefix and a token, a single character is followed by the prefix, or by the word slug where that is empty or the same |
| `Slug.ToSlug` | internal/sanitize/slug.go:29-50 | the result is valid, is the trimmed candidate, and leaves canonical slugs alone |
| `Slug.NumberedSlugIsValid` | internal/sanitize/slug.go:80-94 | a numbered slug matches the pattern, so it is at most 64 long |
| `Slug.NumberedSlugKeepsBase` | internal/sanitize/slug.go:80-94 | a numbered slug is base and number while that fits, else the base cut to its longest beginning that leaves room and does not end in a hyphen |
| `Slug.NegativeNumberKeepsSign` | internal/sanitize/slug.go:85 | a negative number brings its sign, so there are two hyphens |
| `Slug.NumberedSlugsDiffer` | internal/sanitize/slug.go:80-94 | numbered slugs with different numbers differ, even for different bases |

## Left out

- ResumeStream.DrainedIsComplete: reads `caughtUp` and `seen`, which the code computes but drops; a client cannot
  observe them.
- RunHandshake.PersistedCancelSurvives: one cancellation by one other process; for a worker that has read the row it
  says nothing of runs that are also cancelled or timed out in this process, or whose database calls are refused later.
- RunHandshake.UnreadCancelSurvives: not for runs whose database calls are refused after it, since an unreadable row
  counts as not cancelled.
- BundleOrder.OrderIsKept: skills of the same name are listed in an order the database does not promise, so for them it
  goes one way only.
- RunHandshake.MissedCancelPreventsRun: allows for a refused status write (`lost`), since the worker does not retry it.
- Bundle.RoundTrip: also restricted to the bindings that could be written, since the importer ignores their errors.
- MigrationRunner.SchemaConnection.Up: the advisory lock is why runs are sequential; the lock itself, `search_path`,
  table creation and identifier quoting are left out, and so is the table-name option.
- MigrationRunner.Discover: matching a file name against the pattern is given; sorting is a function with the order
  that `sort.Slice` leaves distinct versions in.
- RunWorker.Worker.ProcessTask: the trace is the worker's own; an HTTP goroutine may append a transcription in between.
  Start-up stages are one error; user-facing messages, logging and metrics rows are left out, a replay buffer is
  always present, and error texts are shortened.
- Slug.ToSlug: Unicode folding is a function parameter that leaves slug text alone; random tokens are parameters.
- PdfWriter.AuditLogsPDF: starts from the lines; their assembly and truncation are left out.
- JsonScan.Decoder.ScanValue: the decoder is its token stream; its own syntax errors are left out, as is the test for
  trailing values.
- VersionService.Service.RollBack: each call is atomic and repository calls do not fail; audit records are left out.
  JSON documents are a prompt and the rest; PostgreSQL's normalisation of them is left out.
- Bundle.Export: the repository calls do not fail and the tool repository and service are wired; masking of tool
  secrets and the other fields are one opaque text.
- MetricsQueue.AsyncSink.ReceiveBatch: nothing closes the channel, so the flush on closing is left out.
- The delay of StartWorker's reconnect loop, the run registry, and enqueuing a run: shallow next to the handshake.
- HTTP handlers other than the resume stream, brokers, storage clients and middleware: input and output.
- CSV, zip and spreadsheet XML: formats without offsets or arithmetic beyond the column names.
- Validation of agents, channels and A/B tests, role tables, redaction, caches and pagination: one branch settles each.
- Overflow of sequence and version numbers at the machine limit.
