# aidev in Dafny

A model of the parts of aidev whose guarantees hold over every run, every interleaving or every byte
string, and proofs of those guarantees.

- **The task store.** `EventLog` is the per-task event log: transactions number their events when they
  insert them and show them when they commit, under a lock per task, and readers page by cursor;
  `ToolClient` is a reader that keeps its place by the tool's last_seq.
  `TaskStore` is the shared database of tasks and attempts, as row versions private to a transaction,
  row locks held to its end, and statements that judge their WHERE clause once the lock is theirs.
  `LeaseFence` proves what the fence, the write-once outcome, the lease and the compare-and-set
  guarantee over its runs; `StoreApi` holds the store's calls, each proved to be a step of that
  database. `TaskLifecycle` is the lifecycle graph.
- **Opening and closing.** `LazyApp` is the connection shared by concurrent callers, split at every lock
  and channel operation.
- **Results and schema.** `ApplyUndo` is applying and undoing a result over a git of commits, merges and
  inverse patches; `Migrations` is one migration run with a failure at any step, and
  `MigrationRunners` several at once.
- **Verification.** `VerificationPass` is one pass over a task's checks under a budget and a caller who
  may cancel; `ProtectedPaths` and `GlobWitness` decide which changed paths a protected pattern claims.
- **Text and bytes.** `StepQuoting` prints and parses verification steps and compares the parser with a
  POSIX shell; `Redaction` and `UrlRedaction` mask secrets in connection strings of both forms, and
  `ConnStrings` and `UrlStrings` say what they make of one written part by part;
  `EventScanner` cuts a stream into lines under a bound; `BoundedBuffer` keeps its first and last bytes;
  `LogPaging` and `Utf8` page text at character boundaries; `DiffLines` and `DiffRoundTrip` number the lines a diff adds; `Coverage`
  compares them with a profile. `Common` and `Sorting` are shared.

Where the code steps through mutable state, the model does too: each such class or loop is proved to
compute a function of its inputs or of its old state, and the properties are proved of that function.
A protocol is a datatype of steps, with an enabling condition and an effect, and its properties are
proved of every run of steps from the initial state. What the outside decides (the database's and
git's failures, the clock, the order of steps, what a command does) is a parameter of a step or call.
A few rounds or inner parts of single loops in the source have names of their own: `Redaction.RedactSegment`,
`GlobWitness.RewriteAt`, `GlobWitness.StarEnd`, `Coverage.Look`, `Coverage.CompareFile`,
`Coverage.CompareNext`, `ProtectedPaths.Climb`, `ProtectedPaths.ClaimedBy`,
`ProtectedPaths.SortedAndCompact`, `GlobWitness.CloseFrom`, `EventScanner.Scanner.TakePartial`, `EventScanner.Scanner.TakeLine`, `StoreApi.StuckAt`,
`VerificationPass.TakeTurn`, `VerificationPass.RunPlan`,
`UrlRedaction.RedactRemainder`.

Where the code and its own words differ, the model follows the code, and a lemma says exactly when the
words hold:

- `EventLog.EmptyPageStartsOver`, `ToolClient.ReceivesOnceIff`: last_seq is described as what to pass back to
  continue; on an empty page it is 0, and passing it back starts over.
- `LazyApp.LaterCloseFindsItSettledIff`: only the first close waits for an attempt in flight.
- `LogPaging.TilesIff`, `LogPaging.TooNarrow`: with max_bytes of 1 to 3 a page can repeat a character.
- `ApplyUndo.SameRecordIff`, `ApplyUndo.LateRecordIsNotSeen`, `ApplyUndo.UndoableIffListed`: the worker reads only a task's first 200
  events, the store its newest record.
- `ApplyUndo.GoesOnIffRecorded`: a merge or revert happens before its record is committed, and no later call
  goes on from it if that fails.
- `ApplyUndo.ApplyWorksIff`, `ApplyUndo.UndoneElsewhere`: re-applying reverts the revert only on the branch the
  newest undo names; on another that was applied and undone before, there is nothing to apply.
- `Migrations.ChangedStopsHere`, `Migrations.SucceedsIff`: where PendingMigrations reports only a changed
  file, Migrate first applies the pending files listed before it. `Migrations.AppliesAPrefix`: a migration
  whose commit is not confirmed may have taken effect without being reported.
- `StoreApi.RenewalReports`, `StoreApi.WaitedRenewalReportsOld`: a renewal is said to return the task's
  current status; it returns the one from when it was asked, so one that waited behind a cancel does not
  learn of it.
- `VerificationPass.BlamedOnTheCheckIff`: a context that ends between the check before a step and the start
  of its command is recorded as a failed check.
- `ProtectedPaths.CollapsedClaimedIff`, `ProtectedPaths.LiteralMissed`: a protected file without wildcards is
  missed when git reports only a directory above it. `GlobWitness.NonAsciiMissed`: a class of non-ASCII
  characters resolves to a byte it does not accept.
- `UrlRedaction.PasswordHiddenIff`, `UrlRedaction.RawSlashShown`: a password with a raw slash, question mark or
  hash, which ends the authority (section 3.2 of RFC 3986), is not hidden but printed.
- `DiffRoundTrip.AddedLinesIff`: an added line that begins with two pluses is read as a header or not at
  all, and the lines of a file whose name has a space or is quoted are recorded under another name.
- `Coverage.RangesAreExact`: a line listed twice gets a range twice.

## Model

| member | source | states |
|---|---|---|
| EventLog.Table.AppendEvent | internal/store/event.go:39-70 | the event is written exactly when its type is known and the task lock is free, with the next sequence number, and otherwise nothing changes |
| EventLog.Table.List | internal/store/event.go:82-128 | the row loop returns the page the query defines: the topic's events after the cursor, in order, up to the effective limit |
| EventLog.EffectiveLimit | internal/store/event.go:82-99 | no or a bad limit is the default, and none exceeds the maximum |
| EventLog.PageHolds | internal/store/event.go:82-128 | a page holds the events of the task, of the types asked for, after the cursor, in order: as many as there are up to 200, the limit given, or 1000; and what is left out comes later |
| EventLog.OneWriterPerTask | internal/store/event.go:31-38 | two open transactions never hold uncommitted events of one task |
| EventLog.StepKeepsInv | internal/store/event.go:25-70 | every step of every transaction and reader keeps the order of visible events and what readers have received |
| EventLog.ReadersLoseNothing | internal/store/event.go:31-128 | in every interleaving, with any limits, each task's events become visible in increasing order and a reader that keeps its own highest number has received exactly the visible events up to it, once each and in order |
| EventLog.ShortPageCatchesUp | internal/store/event.go:75-128 | a page shorter than its limit means the reader has everything visible |
| EventLog.FollowerGetsAll | internal/store/event.go:75-128 | whatever has happened before, a reader that starts to follow a task and polls once for each visible event, with any limits, has received them all in order |
| EventLog.EndsFree | internal/store/event.go:31-70 | a commit shows a transaction's events after all others and an abort none; either frees its locks and no others, and an insert waits exactly for another holder of the task's lock |
| EventLog.EmptyPageStartsOver | internal/mcp/tools.go:512-545 | in every run, a client that has read something, finds nothing left, and passes back the last_seq of 0 that an empty page carries is sent its events again from the first |
| ToolClient.ReceivesOnceIff | internal/mcp/tools.go:512-545 | in every interleaving, a client that always passes last_seq back has received each visible event up to its cursor once, and nothing else, exactly if no empty page followed a non-empty one |
| ToolClient.ReceivesTwice | internal/mcp/tools.go:512-545 | a run on which it receives the only event of its task twice |
| ToolClient.RunKeepsInv | internal/mcp/tools.go:512-545 | what it has received is what it had when last sent back, and then once more everything up to its cursor |
| EventLog.LockNeeded | internal/store/event.go:31-38 | without the advisory lock an event can commit behind a reader's cursor and is then never received |
| TaskStore.OthersDoNotDisturb | internal/store/execution.go:161-190 | whatever another transaction does, commits included, it leaves alone what a transaction wrote, its locks, and what is committed in the rows it locked |
| TaskStore.WaitsIff | internal/store/execution.go:34-224 | a statement waits exactly where it would lock or change a row that another transaction has locked: not for itself, and not where its WHERE clause fails |
| TaskStore.InsertWaitsIff | internal/store/execution.go:33-47 | an insert waits for another open transaction that has inserted the same id, or the same number of the same task |
| TaskStore.Openings | internal/store/task.go:21-66 | creating a task makes it PENDING, and a transaction begins with nothing of its own |
| TaskStore.StepKeepsTx | internal/store/execution.go:34-76 | each statement keeps a transaction's versions within what it may write: open attempts it locked, walks on from a committed status, fences that hold |
| TaskStore.StepKeepsInv | internal/store/execution.go:34-286 | every step of every transaction keeps the whole database invariant |
| TaskStore.RunKeepsInv | internal/store/execution.go:34-286 | and so does every run |
| LeaseFence.FenceHolds | internal/store/execution.go:145-190 | from the moment the fence is passed until its transaction ends, through any steps of others, the attempt stays in progress under its owner and the committed task and attempt rows do not change |
| LeaseFence.FenceIsExclusive | internal/store/execution.go:145-190 | two open transactions never both hold the fence of one task or one attempt |
| LeaseFence.EndPublishes | internal/store/execution.go:34-76 | a commit makes everyone see what its transaction saw, an abort leaves what was committed, and either frees its locks and no others |
| LeaseFence.EndedForever | internal/store/execution.go:50-76 | once an ending has committed the attempt's record never changes, and no transaction passes its fence, renews it or finishes it |
| LeaseFence.IdentityForever | internal/store/execution.go:33-47 | an attempt never changes its task, number or owner |
| LeaseFence.NumbersUnique | internal/store/execution.go:17-47 | however creations race, no two attempts of a task share a number |
| LeaseFence.RunKeepsKeys | internal/store/execution.go:17-47 | in every run an id and a number within a task name each other, in every version of every row, committed or not |
| LeaseFence.KeptAlive | internal/store/execution.go:192-286 | at any time of any run in which an attempt is renewed for ttl at a time, once a renewal has been committed: its task, while it is the latest attempt, is listed as stuck exactly when it is active and more than ttl has passed since the latest committed renewal began |
| LeaseFence.OnlyOwnerRenews | internal/store/execution.go:192-224 | without a renewal by the attempt's owner its expiry never changes |
| LeaseFence.OneWalk | internal/store/task.go:201-232 | all statuses a task ever had form one walk along the lifecycle graph from PENDING to its present status, and SUCCEEDED is always preceded by READY, RUNNING, VERIFYING |
| LeaseFence.HistoryGrows | internal/store/task.go:201-232 | no run rewrites a task's past statuses |
| LeaseFence.TerminalForever | internal/task/status.go:60-110 | a terminal status is never left |
| LeaseFence.StaleChangesNothing | internal/store/task.go:207-232 | a transition changes nothing exactly when the graph lacks the edge or the expected status is stale |
| TaskLifecycle.PathFacts | internal/task/status.go:60-121 | on any walk a terminal status is only the last, and success comes straight through RUNNING and VERIFYING |
| StoreApi.Store.HoldLease | internal/store/execution.go:145-190 | passes just when the attempt is in progress for this task under this owner, with both rows locked; it refuses outside a transaction, for an unknown task, and with the lease lost |
| StoreApi.Store.CreateAttempt | internal/store/execution.go:33-47 | the row is written exactly when its task exists and neither its id nor its number is taken |
| StoreApi.Store.FinishAttempt | internal/store/execution.go:50-76 | an outcome is recorded once: RUNNING is refused, and so is an attempt that is not in progress |
| StoreApi.Store.RenewLease | internal/store/execution.go:192-224 | the lease moves to the start of the transaction plus ttl exactly for the owner of an open attempt; the task's status is returned either way, as of the statement's snapshot |
| StoreApi.RenewalReports | internal/store/execution.go:202-224 | whatever others do while a renewal waits for the row, the status it returns is the one its task had when it was asked: it stands in the task's history as many moves back as were committed meanwhile, and of a task that is over it says so exactly if there were none |
| StoreApi.WaitedRenewalReportsOld | internal/store/execution.go:192-224 | a renewal that waited behind the commit that ends its task reports that the task goes on |
| StoreApi.Store.TransitionTask | internal/store/task.go:201-232 | which of success, bad transition, not found and conflict the caller hears, and the state after each |
| StoreApi.LatestAttempt | internal/store/execution.go:22-31 | the attempt with the highest number, and a next number above all of the task's |
| StoreApi.StuckLeases | internal/store/execution.go:238-286 | lists, in the order of the query, exactly the active tasks whose latest attempt has no live lease or that have no attempt |
| LazyApp.Lazy.Get | internal/cli/lazyapp.go:47-69 | under the mutex: refuse when closed, return the open app, join the attempt in flight, or start one |
| LazyApp.Lazy.Open | internal/cli/lazyapp.go:76-90 | the result is published to the waiters, the app kept on success, and nothing remembered of a failure |
| LazyApp.Lazy.Close | internal/cli/lazyapp.go:93-103 | the first close, and only it, takes the attempt in flight and the open app |
| LazyApp.Lazy.Reread | internal/cli/lazyapp.go:105-112 | after the wait an app that arrived meanwhile is picked up |
| LazyApp.StepKeepsInv | internal/cli/lazyapp.go:47-115 | every step between two lock or channel operations, by any number of callers, keeps the protocol invariant |
| LazyApp.SharedAttempt | internal/cli/lazyapp.go:47-90 | at most one attempt is in flight, at most one app is ever connected, every caller that got an app got that one, and no channel is closed twice |
| LazyApp.WaiterIsTold | internal/cli/lazyapp.go:57-90 | in every run a get that waited gets the app exactly if the connect of its attempt returned one, which is then the one that is open, and an error exactly if that connect failed |
| LazyApp.GetAnswers | internal/cli/lazyapp.go:47-69 | in every run a get hears that aidev is shutting down exactly if a close has begun, gets the open app if there is one, and otherwise waits for the attempt in flight, starting one exactly if there is none |
| LazyApp.CloseBegins | internal/cli/lazyapp.go:91-104 | the first close to enter marks the app closed and goes on with the attempt in flight and the open app; any other returns |
| LazyApp.NoAttemptAfterClose | internal/cli/lazyapp.go:47-115 | no attempt starts once close has begun |
| LazyApp.ClosedExactlyOnce | internal/cli/lazyapp.go:91-115 | when the first close has returned, and ever after, the connected app has been closed exactly once and nothing else has |
| LazyApp.CloseReturns | internal/cli/lazyapp.go:91-115 | the first close never gets stuck: its next step is possible, brings it nearer, and no step of anyone takes it further away |
| LazyApp.LaterCloseFindsItSettledIff | internal/cli/lazyapp.go:91-115 | in every run, a later close finds, as it returns, everything connected published and closed exactly if the first close has returned, or there was nothing in flight and nothing to close |
| LazyApp.LaterCloseReturnsEarly | internal/cli/lazyapp.go:93-98 | a run on which the second close has returned while the app is connected and not closed |
| ApplyUndo.ApplyState | internal/worker/apply.go:54-73 | the backward loop finds the newest record |
| ApplyUndo.SameRecordIff | internal/worker/apply.go:55-73 | the worker and the store read the same record exactly when the history has none past the first 200 events |
| ApplyUndo.Worker.Apply | internal/worker/apply.go:135-189 | one apply: every refusal, the merge or the revert of the revert, and the record |
| ApplyUndo.Worker.Undo | internal/worker/apply.go:191-232 | one undo: every refusal, the revert with the mainline its commit needs, and the record |
| ApplyUndo.RunIsConsistent | internal/worker/apply.go:135-232 | every sequence of applies, undos and the person's own work keeps records alternating and true |
| ApplyUndo.RecordsTellTheTruth | internal/worker/apply.go:135-232 | on histories within the limit, records alternate starting with an apply, and the change is on the recorded branch exactly when the newest record is an apply, through any chain of reverts of reverts |
| ApplyUndo.UndoWorks | internal/worker/apply.go:191-232 | undo succeeds whenever the recorded branch is checked out clean and the trees combine, and the change is gone |
| ApplyUndo.ReapplyWorks | internal/worker/apply.go:135-189 | after an undo, applying brings the change back by reverting the revert, where a second merge would do nothing |
| ApplyUndo.BackAndForth | internal/worker/apply.go:135-232 | a result can be applied and undone by turns any number of times on one branch within the limit: every call succeeds, and the change is there after each apply and gone after each undo |
| ApplyUndo.UndoWorksIff | internal/worker/apply.go:191-232 | with trees that combine, undo succeeds exactly if the task has succeeded with a change, a branch is checked out clean, and the newest record is an apply to it |
| ApplyUndo.CallsRefuse | internal/worker/apply.go:84-133 | which of a missing success, commit, branch or clean checkout the caller is told of, and that none of them changes anything |
| ApplyUndo.NoCleanNoChange | internal/git/apply.go:66-125 | where git cannot combine the changes, neither call changes anything |
| ApplyUndo.FailureChangesNothing | internal/git/apply.go:66-125 | a failing call leaves repository and history as they were, unless it is the writing of the record that failed |
| ApplyUndo.ApplyWorksIff | internal/worker/apply.go:135-189 | with trees that combine, apply succeeds exactly if the task has succeeded with a change, a branch is checked out clean, the newest record is not an apply and either it is this branch's undo or the branch does not contain the delivered commit; otherwise it finds nothing to apply |
| ApplyUndo.UndoneElsewhere | internal/worker/apply.go:162-176 | once the change is undone on one branch, it cannot be applied to another that contains the delivered commit, though it was undone there before |
| ApplyUndo.LostMerge | internal/worker/apply.go:178-180 | a merge whose record is lost can be neither applied nor undone by further calls |
| ApplyUndo.LostReapply | internal/worker/apply.go:178-180 | nor can a revert of an undo whose record is lost |
| ApplyUndo.LostUndo | internal/worker/apply.go:222-224 | nor can an undo whose record is lost; in each case the newest record no longer tells the truth |
| ApplyUndo.GoesOnIffRecorded | internal/worker/apply.go:135-232 | a call that has changed the branch leaves a next call that succeeds exactly if its record was committed |
| ApplyUndo.UndoableIffListed | internal/worker/apply.go:54-73 | a successful apply can be undone exactly if its record is among the task's first 200 events, whatever was applied and undone before |
| ApplyUndo.LateRecordIsNotSeen | internal/worker/apply.go:127-131 | with no record among the first 200 events a later apply can never be undone, and applying again is not refused |
| Migrations.Database.Migrate | internal/store/migrate.go:71-150 | one run, with a failure possible at every step |
| Migrations.Database.RunAll | internal/store/migrate.go:117-147 | the loop over the files, against what was recorded when it began |
| Migrations.Database.PendingMigrations | internal/store/migrate.go:168-212 | every version without a record, or the first changed file |
| Migrations.AppliesAPrefix | internal/store/migrate.go:61-147 | for every list and failure, what takes effect is a prefix of what was pending, in order, each with its record and none twice; the report is that prefix, short of at most a last migration whose commit was not confirmed |
| Migrations.AllOrNothing | internal/store/migrate.go:128-147 | a migration's SQL and record take effect together or not at all, and which failure is told; only after a lost answer to the commit is a failure told of one that took effect |
| Migrations.SecondRunAppliesNothing | internal/store/migrate.go:71-212 | success means exactly the pending ones were applied and the rest was up to date; then nothing is pending and a second run applies nothing |
| Migrations.ResumesWhereItStopped | internal/store/migrate.go:61-65 | after any failure what is pending is what was pending less what took effect |
| Migrations.ChangedStopsHere | internal/store/migrate.go:67-70 | a changed file stops the run there, after the pending files listed before it were applied |
| Migrations.SucceedsIff | internal/store/migrate.go:71-150 | with nothing failing, a run succeeds exactly if no applied file has changed |
| MigrationRunners.StepKeepsInv | internal/store/migrate.go:82-150 | every step of every concurrent runner keeps: past the lock a runner holds it, and what it read and applied is all there is |
| MigrationRunners.AppliedOnce | internal/store/migrate.go:61-150 | however many runners start and wherever each fails or dies, no migration takes effect twice, and one that reported success finds all its files recorded ever after |
| MigrationRunners.NoRunnerIsBeaten | internal/store/migrate.go:63-92 | two runners are never both past the lock, so no record is refused because another runner was first |
| MigrationRunners.CallGoesThrough | internal/store/migrate.go:71-150 | a call that finds the lock free, in whatever state the other runners are, and its files as they were recorded, goes through and does to the database exactly what one run alone does; the lock is free again |
| MigrationRunners.FailureFreesTheLock | internal/store/migrate.go:82-96 | a runner that fails or dies leaves the lock to others and in the database what it had committed |
| VerificationPass.BudgetBinds | internal/verification/verification.go:171-179 | the total budget ends the pass when it runs out, and changes nothing before |
| VerificationPass.TakeTurn | internal/verification/verification.go:190-221 | one step's turn: the check of the context before it, its outcome, and a budget that expired in the middle of it |
| VerificationPass.RunPlan | internal/verification/verification.go:184-222 | one record per step, in order, the first that does not pass ending the pass |
| VerificationPass.RunPass | internal/verification/verification.go:139-231 | the report of a pass for every plan, outcome and clock, and the two refusals |
| VerificationPass.Shape | internal/verification/verification.go:69-86 | PASSED*, at most one step that ended the pass, SKIPPED*, setup first; passed exactly if every step passed and exactly if no failure is named |
| VerificationPass.FirstFailure | internal/verification/verification.go:89-97 | the step that ended the pass |
| VerificationPass.PassesIff | internal/verification/verification.go:133-240 | a pass passes exactly if every step's turn came in time and its command was runnable, ended within its own timeout, or the default one, and exited with 0 |
| VerificationPass.Blame | internal/verification/verification.go:171-222 | from the times alone: when a report says cancelled, when timed out, and when a check failed |
| VerificationPass.CancelledIff | internal/verification/verification.go:190-214 | recorded as cancelled exactly if the caller's cancellation came first and was seen before the step or while its command ran |
| VerificationPass.DeadlineIsATimeout | internal/verification/verification.go:190-214 | the deadline is never recorded as a cancellation, and one that overtook a started step or came before its turn is a timeout |
| VerificationPass.CancelIsNotATimeout | internal/verification/verification.go:207-214 | a caller who cancels first gets a timeout only where a command overran its own limit before that |
| VerificationPass.BlamedOnTheCheckIff | internal/procexec/procexec.go:263-323 | a pass ends in a failed check exactly if the command of the step that ended it was not runnable, failed in time, or found the context or its own deadline over when it was to be started |
| VerificationPass.CancelledBeforeTheStart | internal/procexec/procexec.go:265-270 | one such pass: the caller cancels between the look at the context and the start of a command that would have passed |
| StepQuoting.String | internal/task/verification.go:24-34 | the printer yields the quoted words of the step |
| StepQuoting.SplitFields | internal/task/verification.go:133-183 | the splitting loop computes the quoting state machine |
| StepQuoting.RejectCommandSubstitution | internal/task/verification.go:86-118 | finds the first argument that asks for command substitution outside a shell |
| StepQuoting.ParseVerificationStep | internal/task/verification.go:47-84 | the parser, with every error |
| StepQuoting.ParsePrinted | internal/task/verification.go:24-84 | what parsing a printed step yields, for every step; its words always come back |
| StepQuoting.RoundTripIff | internal/task/verification.go:24-84 | printing and parsing gives the same step exactly when it carries no timeout, names a command and asks for no substitution |
| StepQuoting.RefusedIs | internal/task/verification.go:76-118 | the argument refused is the first with a dollar and a parenthesis or a backquote, unless the step names a shell, or passes one -c |
| StepQuoting.ValidIff | internal/task/verification.go:36-45 | a step is valid exactly if its command is more than white space and its timeout not negative |
| StepQuoting.MetacharactersAre | internal/task/verification.go:47-54 | the characters refused outside quotes |
| StepQuoting.UnquotedIff | internal/task/verification.go:137-185 | of a line without quotes the first of them is refused, and nothing else |
| StepQuoting.QuotedIff | internal/task/verification.go:187-215 | which words are printed without quotes |
| StepQuoting.ShellAgreesIff | internal/task/verification.go:133-183 | of the lines the splitter accepts, a POSIX shell reads as the same words exactly those with no backslash outside quotes and, in double quotes, no expansion and no backslash that escapes (sections 2.2.2, 2.2.3 and 2.3 of the Shell Command Language) |
| StepQuoting.SplitKeepsBackslashes | internal/task/verification.go:133-183 | the splitter keeps every backslash: there is no escaping beyond quoting |
| StepQuoting.ShellReadsPrinted | internal/task/verification.go:24-34 | a printed step handed to a POSIX shell passes the same command and arguments |
| StepQuoting.BackslashDiffers | internal/task/verification.go:133-183 | on a typed backslash the splitter and the shell differ |
| ProtectedPaths.Violations | internal/verification/protected.go:83-116 | exactly the pairs of pattern and path that match, sorted and without duplicates, or an invalid pattern |
| ProtectedPaths.MatchesProtected | internal/verification/protected.go:124-163 | a pattern claims a path itself, by any directory above it, or by what a collapsed directory could hold |
| ProtectedPaths.Ancestors | internal/verification/protected.go:182-188 | exactly the directories above a path |
| ProtectedPaths.AncestorsAre | internal/verification/protected.go:182-188 | and the recursion over path.Dir reaches each of them |
| ProtectedPaths.Compact | internal/verification/protected.go:106-115 | equal neighbours of a sorted list collapse to a strict one with the same members |
| ProtectedPaths.UnanchoredAtAnyDepth | internal/verification/protected.go:52-61 | a pattern without a slash claims every path whose last element it matches, at any depth, and everything beneath |
| ProtectedPaths.UnanchoredIff | internal/verification/protected.go:119-188 | and of an entry listed by name nothing else: it matches an element of its path |
| ProtectedPaths.AnchoredIff | internal/verification/protected.go:119-188 | a pattern with a slash claims what it matches, and everything beneath |
| ProtectedPaths.CollapsedIff | internal/verification/protected.go:124-163 | the paths that decide whether a directory reported without its contents is claimed |
| ProtectedPaths.NormalizeIs | internal/verification/protected.go:115-117 | a stored pattern is taken without the white space around it and without one slash at its end |
| ProtectedPaths.ReportUnique | internal/verification/protected.go:76-116 | the report depends on the sets of patterns and paths alone |
| ProtectedPaths.CollapsedClaimedIff | internal/verification/protected.go:124-163 | a pattern whose resolved path lies in a directory reported without its contents claims it exactly if it has a wildcard, or names a stand-in |
| ProtectedPaths.CollapsedClaimed | internal/verification/protected.go:124-163 | a directory reported without its contents is claimed by every wildcard pattern whose resolved path lies in it |
| ProtectedPaths.LiteralMissed | internal/verification/protected.go:124-163 | a pattern without wildcards does not claim a directory above it that git reported without its contents |
| GlobWitness.ResolveMagic | internal/verification/protected.go:190-206 | the loop over segments resolves a pattern |
| GlobWitness.MagicPlaceholder | internal/verification/protected.go:207-232 | the rewriting loop over one segment |
| GlobWitness.ClassEnd | internal/verification/protected.go:234-259 | where a bracket class ends |
| GlobWitness.PlaceholderOf | internal/verification/protected.go:207-288 | what is written for each token of a segment |
| GlobWitness.WitnessMatches | internal/verification/protected.go:190-288 | the witness of a segment matches it under the glob semantics |
| GlobWitness.StarFreeIff | internal/verification/protected.go:261-288 | without stars it matches exactly when every class accepts the byte chosen for it |
| GlobWitness.AsciiSuffices | internal/verification/protected.go:261-288 | which every class of ASCII characters does |
| GlobWitness.NegatedRepresentative | internal/verification/protected.go:261-288 | a negated class becomes the first letter or digit it does not exclude |
| GlobWitness.EscapedRepresentative | internal/verification/protected.go:261-288 | an escaped character stands for itself |
| GlobWitness.FirstByteIs | internal/verification/protected.go:277-288 | what is written for a character is itself only if it is ASCII or U+00C3 |
| GlobWitness.MatchSplit | internal/verification/protected.go:190-288 | the glob semantics the results refer to: pieces of a segment match what can be cut for each |
| GlobWitness.MagicIsRewritten | internal/verification/protected.go:190-232 | a pattern with a wildcard never resolves to itself |
| GlobWitness.ResolvedMatches | internal/verification/protected.go:190-288 | a pattern matches the path it resolves to |
| GlobWitness.NonAsciiMissed | internal/verification/protected.go:261-288 | a class of non-ASCII characters is replaced by a stray byte it does not accept |
| GlobWitness.NoMagic | internal/verification/protected.go:207-232 | a segment without wildcards stays as it is |
| Redaction.RedactKeywordValue | internal/config/redact.go:108-155 | the scanning loop prints the redaction of the segments |
| Redaction.RedactSegment | internal/config/redact.go:111-155 | one round of the loop: what is shown of a segment, where the next starts, and whether an open quote ends it |
| Redaction.ScanKVValue | internal/config/redact.go:157-184 | where a value ends and whether its quote closes |
| Redaction.CutTiles | internal/config/redact.go:111-155 | the segments tile the string |
| Redaction.IdentityWithoutSecrets | internal/config/redact.go:108-155 | without a secret key the string is printed as it is |
| Redaction.SecretIndependent | internal/config/redact.go:108-184 | two strings that differ only in a secret's complete value print the same |
| Redaction.OpenSecretHidesTheRest | internal/config/redact.go:145-151 | two strings that agree up to the quote of a secret value that is never closed print the same, whatever follows it |
| Redaction.SecretKeysAre | internal/config/redact.go:186-188 | the secret keys are password and sslpassword, in any case |
| Redaction.LongSIsAnS | internal/config/redact.go:186-188 | in which U+017F is taken for an s |
| ConnStrings.ConnectionStringMasked | internal/config/redact.go:108-155 | in a string written setting by setting, with any spacing, quoting and escapes, every password is three stars and every other byte is as it is |
| ConnStrings.OpenPasswordMasked | internal/config/redact.go:145-184 | and where it ends in a password whose quote is never closed, nothing of that is shown |
| UrlRedaction.RedactURL | internal/config/redact.go:35-44 | which of the two forms a string is redacted as |
| UrlRedaction.RedactURLString | internal/config/redact.go:46-101 | the URL form: authority, query parameters, and everything else as it is |
| UrlRedaction.FindAuthorityEnd | internal/config/redact.go:53-59 | the loop finds the first slash, question mark or hash |
| UrlRedaction.RedactParts | internal/config/redact.go:87-99 | the loop over the query parameters |
| UrlRedaction.UrlHasScheme | internal/config/redact.go:35-50 | a string taken for a URL always has a scheme to cut at |
| UrlRedaction.PasswordHidden | internal/config/redact.go:60-74 | whatever the userinfo password is, as long as it does not end the authority, and whether there is one, the same is printed: the user, three stars, the host |
| UrlRedaction.PasswordHiddenIff | internal/config/redact.go:28-74 | a password is hidden exactly if it has no slash, question mark or hash, when no at sign stands before the first of them |
| UrlRedaction.RawDelimiterShown | internal/config/redact.go:52-74 | one that has is printed up to the first of them as it is, and from there by the rules of the query |
| UrlRedaction.RawSlashShown | internal/config/redact.go:52-74 | postgres://u:p/w@h/d is printed as it is |
| UrlRedaction.NoUserinfo | internal/config/redact.go:60-74 | without a userinfo everything before the query is printed as it is |
| UrlRedaction.SecretParameterHidden | internal/config/redact.go:75-100 | the value of a query parameter whose decoded key is secret, or whose key cannot be decoded, does not reach the output, whatever stands around it |
| UrlRedaction.OpenQueryShown | internal/config/redact.go:75-100 | a query with no such key is printed as it is |
| UrlStrings.UrlIff | internal/config/redact.go:35-44 | a string is a URL exactly if it starts with postgres:// or postgresql:// in any case |
| UrlStrings.KeyIsRead | internal/config/redact.go:87-99 | a query key is read back however it is percent-encoded, and not at all with a percent sign that starts no escape |
| UrlStrings.HiddenIff | internal/config/redact.go:87-99 | so a parameter is hidden exactly if its key reads as a secret one, however it is encoded |
| UrlStrings.QueryMasked | internal/config/redact.go:75-100 | of a query written parameter by parameter the values of hidden keys are three stars and the rest is as it is |
| UrlStrings.UrlMasked | internal/config/redact.go:46-101 | a URL with user, password, host, path, query and fragment is shown with stars for the password and for hidden values, and otherwise as it is |
| EventScanner.Scanner.Write | internal/agent/opencode_events.go:207-242 | after every write the buffer is within its bound and the state is a function of the bytes seen |
| EventScanner.Scanner.Close | internal/agent/opencode_events.go:249-257 | a trailing line without a newline counts, the tail of a dropped one does not |
| EventScanner.Scanner.DropLine | internal/agent/opencode_events.go:244-247 | the buffer is emptied and the line counted |
| EventScanner.ScanAll | internal/agent/opencode_events.go:207-257 | however a stream is split into writes, exactly its lines within the bound are consumed, in order, and exactly the longer ones counted |
| EventScanner.LinesTile | internal/agent/opencode_events.go:211-242 | the cut into lines loses and invents no byte |
| EventScanner.AllLinesAre | internal/agent/opencode_events.go:207-257 | the lines of a stream hold no newline, and give the stream back, with a newline after the last if it had none |
| EventScanner.KeptOrCounted | internal/agent/opencode_events.go:207-257 | every line is kept, or counted if it is longer than a mebibyte |
| EventScanner.WholeLine | internal/agent/opencode_events.go:233-240 | what a completed line does to the state |
| EventScanner.PartialLine | internal/agent/opencode_events.go:223-232 | what a piece without a newline does |
| LogPaging.RuneStart | internal/mcp/logs.go:109-119 | the loop finds the start of the character at a position |
| LogPaging.WindowOf | internal/mcp/logs.go:88-107 | one page |
| LogPaging.WindowWhole | internal/mcp/logs.go:88-107 | a page of valid text is whole characters, and at most max_bytes + 3 bytes or a single character |
| LogPaging.TilesIff | internal/mcp/logs.go:88-141 | pages followed by next_offset join to the section exactly when no window is narrower than the character it falls in |
| LogPaging.WideEnough | internal/mcp/logs.go:88-107 | which four bytes always are wide enough for |
| LogPaging.TooNarrow | internal/mcp/logs.go:88-107 | below four bytes some text is not reconstructed |
| LogPaging.Pager.Page | internal/mcp/logs.go:127-132 | the page, the full size, and that more is left |
| LogPaging.Pager.NextOffset | internal/mcp/logs.go:134-141 | where the next page starts, 0 when every section was returned to its end |
| LogPaging.FollowNextOffset | internal/mcp/logs.go:88-141 | following next_offset from 0 ends, and gives back every section byte for byte, whatever their lengths |
| Utf8.CutAtBoundary | internal/mcp/logs.go:109-119 | valid text cut at a character start is valid on both sides (section 4 of RFC 3629) |
| Utf8.BoundaryNear | internal/mcp/logs.go:109-119 | a character starts at most three bytes before any position (section 4 of RFC 3629) |
| Utf8.CharIff | internal/mcp/logs.go:109-119 | the byte sequences taken for characters are exactly the encodings of code points other than surrogates (sections 3 and 4 of RFC 3629) |
| BoundedBuffer.Buffer.Write | internal/procexec/procexec.go:347-366 | after every write head and tail are the first and last bytes of all that was written |
| BoundedBuffer.Buffer.String | internal/procexec/procexec.go:368-375 | the stream itself, or head, note and tail |
| BoundedBuffer.Buffer.Truncated | internal/procexec/procexec.go:377-378 | true exactly when the stream exceeds the limit |
| BoundedBuffer.HeadTakesSome | internal/procexec/procexec.go:351-366 | a write that fills the head: the head takes what it has room for, the tail the newest of the rest |
| BoundedBuffer.TailTakesAll | internal/procexec/procexec.go:361-366 | a write after the head is full pushes the oldest bytes out of the tail |
| BoundedBuffer.HeadTailTile | internal/procexec/procexec.go:327-366 | kept and dropped bytes tile the stream, and no more than the limit are kept |
| BoundedBuffer.DigitsRead | internal/procexec/procexec.go:368-375 | the count of dropped bytes reads back as that number |
| BoundedBuffer.Capture | internal/procexec/procexec.go:334-378 | nothing depends on how the stream was split |
| DiffLines.AddedLines | internal/coverage/coverage.go:79-111 | the loop tabulates, by file, what reading the diff line by line records |
| DiffLines.LinesAre | internal/coverage/coverage.go:86-103 | which lines are headers of a file and of a hunk, and which are added lines |
| DiffLines.NamesAre | internal/coverage/coverage.go:87-92 | which name a file's header gives |
| DiffLines.AtoiReads | internal/coverage/coverage.go:93-100 | a number is read with either sign |
| DiffLines.EntriesAreLines | internal/coverage/coverage.go:101-106 | whatever the text, nothing is recorded without a file or under a number that is no line's |
| DiffRoundTrip.AddedIsExpected | internal/coverage/coverage.go:79-111 | on git's zero-context text of any change without a misread line, exactly the added lines are recorded, file by file, each under the name that is read from what git prints of its file's name |
| DiffRoundTrip.AddedLinesAreThoseAdded | internal/coverage/coverage.go:79-111 | where nothing is misread the table has, for each surviving file, exactly the positions in its new version that the change adds, in increasing order, and no other name |
| DiffRoundTrip.AddedLinesIff | internal/coverage/coverage.go:79-111 | the table is right for every file exactly when no added line's text begins with two pluses and nothing is added to a file whose name has a space or is quoted by git |
| DiffRoundTrip.RecordedLength | internal/coverage/coverage.go:86-92 | an ordinary name is recorded as it is, any other under a longer one |
| DiffRoundTrip.HeaderReads | internal/coverage/coverage.go:93-100 | a hunk header gives where the new lines start |
| Coverage.Ranges | internal/coverage/coverage.go:191-203 | the loop collapses the sorted lines |
| Coverage.RangesAreExact | internal/coverage/coverage.go:191-203 | the ranges cover exactly the lines, their sizes add up to the length of the list, and they are sorted, disjoint and non-adjacent exactly if no line comes twice |
| Coverage.Look | internal/coverage/coverage.go:162-169 | whether any block holds a line, and whether any that does ran |
| Coverage.CompareFile | internal/coverage/coverage.go:156-182 | one file's entry |
| Coverage.Compare | internal/coverage/coverage.go:142-189 | the report: the files in order of their paths, and the totals as sums over them |
| Coverage.ReportMeans | internal/coverage/coverage.go:133-189 | a file is listed exactly if it has an executable added line; its counts, ranges and sizes mean what they say |
| Coverage.ReportLists | internal/coverage/coverage.go:142-189 | a file is listed exactly if a block holds one of its added lines, and the files are in the order of their paths |
| Coverage.ReportTotals | internal/coverage/coverage.go:142-189 | the totals are the sums over the files |
| Coverage.HeldBySome | internal/coverage/coverage.go:133-169 | a line is executable exactly if a block of its file holds it |
| Sorting.LessIs | internal/coverage/coverage.go:142-150 | the order of paths: decided where two first differ, or by length |
| Coverage.BlockOrderIrrelevant | internal/coverage/coverage.go:133-189 | profiles of the same blocks give one report |
| Coverage.MoreRuns | internal/coverage/coverage.go:133-189 | with more blocks over lines already executable the report lists the same files with the same counts of executable lines, and no count of lines not run is higher |

## Left out

- Subprocess launching, signals, process groups and /proc scans (the rest of internal/procexec): behaviour of the operating system. Of a command's end the model keeps what decides its outcome.
- SQL text, the driver and JSON encoding: tables are maps, payloads and consumed lines are not decoded, a failed statement is a step that changes nothing. NULL columns of a task without attempts are listed by the query but their scan into Go strings is not modelled.
- Foreign-key share locks and deadlocks between transactions in the task store: a statement that would wait is a step that is not enabled yet, so the results are about safety, not about who gets a lock.
- TaskStore.StepKeepsInv: of an attempt's columns only those that decide anything are kept (task, number, status, owner, expiry); failure kind, error text and timestamps are written with the status and never read back by these statements. Statuses that are not in the list cannot be expressed, so the checks that refuse them are not there.
- LeaseFence.KeptAlive: counts from a renewal that wrote the lease; the expiry a caller passes at creation comes from the caller's own clock and is not tied to the database's.
- git beyond whether a tree holds the change: files, conflicts and hooks are not there. A conflict is a choice of the outside that changes nothing, and a failing abort, which leaves the checkout to the person, does not occur.
- ApplyUndo.RunIsConsistent: the person's own commits and merges neither bring the change onto a branch nor take it off, and branches are not reset or deleted; doing so by hand is outside what the records claim.
- The wording of messages and errors, progress reports, logging, tracing and view types.
- Config.Redacted: it replaces every tracing header and calls RedactURL, nothing that spans operations.
- StepQuoting.RoundTripIff: strings are sequences of code points, so invalid UTF-8 inside a step is not covered; the shell model reads words only, not assignments or reserved words.
- The doublestar library beyond literals, star runs, question marks and non-negated bracket classes, and path.Clean on paths git would not report: the matcher is a parameter, and results that need its meaning say so.
- ProtectedPaths.CollapsedClaimedIff: for patterns of the fragment above, with classes that accept the byte chosen for them.
- EventScanner.ScanAll: what the parser makes of a consumed line is not modelled.
- DiffLines.AddedLines: numbers are unbounded, where strconv.Atoi reports an overflow.
- DiffRoundTrip.AddedLinesIff: names are rendered as git prints them with its own defaults (core.quotePath unset, prefixes a/ and b/), a name being a string of bytes.
- ParseProfile, ModulePath and Analyze of internal/coverage: line-by-line parsing with nothing that spans operations.
- LogPaging.FollowNextOffset: offsets are unbounded, where adding max_bytes could overflow an int.
- Test-runner option tables and interception (internal/verification/runners.go, internal/verification/interception.go): measured behaviour of other tools.
- Cancel, Recover and the retry loop of the orchestrator: only the store operations they call.
