# Cinderpaw: protocols and algorithms, modelled and proved

A Dafny model of the parts of Cinderpaw whose correctness is a matter of interleavings, crashes and
loops rather than of wiring: the writer lock of the memory database, the atomic file writer and its
queue, durable unattended runs and the delivery of their reports, the full-text index and the
migration of the memory database, and six self-contained algorithms (licence closure, message
scroller, terminal stream, benchmark fold, memory-order statistics, voice renderer).

Operating system, SQLite, network and clocks appear as parameters: what a probe finds, whether a
rename is refused, what a channel answers, which select case wins. Every theorem is for all values
of those parameters.

## Files

| file | models |
|---|---|
| `Basics.dfy`, `Decimal.dfy` | an option type; decimal numerals, `trim`, `parseInt` |
| `LockRules.dfy` | when a lockfile is dead; the whole effect of one `openDatabase` on its lock |
| `LockOpen.dfy` | the same, imperative: `heldLocks`, the lockfiles, `close`, the heartbeat |
| `LockCoarse.dfy` | processes, one lockfile, pid reuse and a clock, with open as one step |
| `LockFine.dfy`, `LockRaces.dfy` | check, read, probe, stat, unlink, create and stamp as separate steps; the races that exist |
| `LockWait.dfy` | `waitForWriterLock` and boot |
| `TempNames.dfy`, `AtomicWrite.dfy` | temp names and their parse-back; one write with all its failures; concurrent writers and crashes |
| `WriteQueue.dfy` | the per-path promise queue |
| `RunStore.dfy`, `RunDelivery.dfy`, `RunHooks.dfy` | the run tables, and what a boot and a desktop message do with them |
| `RunProtocol.dfy`, `RunPromises.dfy` | the crash protocol and what it promises over whole runs |
| `FtsIndex.dfy`, `Migration.dfy`, `MigrationList.dfy` | index triggers; the additive migration; its 79 statements |
| `LicenseClosure.dfy`, `MessageScroller.dfy`, `StreamPlain.dfy`, `ProgressFold.dfy`, `MemoryOrder.dfy`, `MemoryArms.dfy`, `VoiceRender.dfy` | the algorithms |

Code that changes state is a class or a method proved against a function of the old state; what that
function means is proved as lemmas over all inputs, or over all runs of a transition system.

## Where the code falls short of what it says

Each of these is a theorem with the exact condition, or a concrete run.

- A throw after the lockfile was created releases it only if the pid had been written: the branch of a
  failed `writeSync` never reaches `releaseOnFailure` (`ThrowAfterAcquisitionReleasesExactlyWhen`).
  The leftover keeps the same process out exactly when that process still counted the path as held, its
  file being gone, and the stamp failed (`LeftoverAdmitsTheSameProcessExactlyWhen`).
- Check-then-unlink is not atomic, and an unstamped lockfile reads as dead: two sidecars can serve at
  once with no time passing (`TwoRecoverersBothServe`, `ReadBeforeStampBothServe`). `close` called
  twice deletes somebody else's lock (`CloseAgainBreaksExclusion`).
- The 60 s boot wait reclaims a predecessor whose last beat was strictly before the boot, and with
  punctual timers not one whose last beat was at the same instant (`PunctualBootSucceedsExactlyWhen`).
- The synchronous writer ignores a short `writeSync`, and leaves its temp file when the rename fails.
- An empty report is stored as owed and never offered again: the check whose comment says it cannot
  fire does fire (`DebtEndsExactlyWhen`).
- The boot pass can pick up a run its own process is already driving; from any state a report can then
  be lost (`SharedRunLosesAReport`), and its drain can send a report twice (`SharedDebtIsPaidTwiceExactlyWhen`).
- The desktop branch marks a finished run's report delivered although the completion verdict in it,
  even a failed one, was never shown (`DesktopReportWasSeenExactlyWhen`, `CheckedDesktopReportGoesUnseen`).
- Rows that measure zero break the order the rewritten scroller scans rely on; exactly when they still
  agree with the old scans is `WalkIsExactExactlyWhen` and `SteppingBackIsExactExactlyWhen`, and one
  hidden row can hide a message (`HiddenRowHidesTheMessage`).
- A render under another model that dies before the manifest is written leaves a line that counts as
  up to date with the wrong sound (`CrashUnderAnotherModelSpoils`).
- Swapping the two arms mirrors the bootstrap interval unless the number of resamples is a multiple of
  40, as the default 2000 is: then both bounds are taken one rank higher (`SwappingArmsMirrors`, and
  `SwappedIntervalDoesNotMirror` with an input).

## Model

| member | source | states |
|---|---|---|
| LockRules.StampReadsBack | CinderpawAgent/src/db.ts:195-221 | the pid written into a lockfile is the pid any process reads back through trim and parseInt |
| LockRules.UnstampedReadsAsDead | CinderpawAgent/src/db.ts:137-150 | a created but unstamped lockfile is judged dead by everybody |
| LockRules.OpensExactlyWhen | CinderpawAgent/src/db.ts:194-222 | a fault-free open gets the lock iff no file is there, or the file is dead and not held by this process |
| LockRules.SecondOpenThrowsExactlyWhileFileExists | CinderpawAgent/src/db.ts:122-134 | an open by a process that holds the lock throws, touching nothing, iff the lockfile is on disk |
| LockRules.ThrowAfterAcquisitionReleasesExactlyWhen | CinderpawAgent/src/db.ts:215-274 | whether or not the path was still counted as held, a throw after the create gives back file and heldLocks entry iff the stamp was written and the unlink not refused |
| LockRules.LeftoverAdmitsTheSameProcessExactlyWhen | CinderpawAgent/src/db.ts:137-150 | after a throwing open the next open by that process succeeds iff it is not the case that the process still counted the path as held and the stamp failed |
| LockRules.LeftoverForAnotherProcess | CinderpawAgent/src/db.ts:194-251 | another process is locked out by the leftover iff it is stamped, its pid is live and it is at most 60 s old |
| LockOpen.Sidecar.OpenDatabase | CinderpawAgent/src/db.ts:179-313 | exact effect on this path's lockfile and heldLocks for every fault, no other path touched, a connection iff opened |
| LockOpen.OpenLeaves | CinderpawAgent/src/db.ts:194-276 | outcome by outcome, what is at the path and in heldLocks afterwards, and nothing at other paths |
| LockOpen.Sidecar.RecoverStaleLock | CinderpawAgent/src/db.ts:194-213 | removes the file iff it is dead, not held here and the unlink is not refused |
| LockOpen.Sidecar.ReleaseOnFailure | CinderpawAgent/src/db.ts:242-251 | drops the heldLocks entry always, the file unless the unlink is refused |
| LockOpen.Connection.Beat | CinderpawAgent/src/db.ts:283-294 | touches whatever file is at the path, whoever made it, and nothing if there is none |
| LockOpen.Connection.Close | CinderpawAgent/src/db.ts:298-311 | stops the heartbeat always; a throwing database close keeps the lock; otherwise it removes the file at the path even a second time |
| LockCoarse.StepProtectsExactlyWhenDisciplined | CinderpawAgent/src/db.ts:94-313 | the lock invariant survives a step iff the step is disciplined: no open against a silent or foreign live holder, no second close while somebody serves |
| LockCoarse.OneWriter | CinderpawAgent/src/db.ts:94-313 | mutual exclusion over every disciplined run with crashes, pid reuse and any clock |
| LockCoarse.RunStaysProtected | CinderpawAgent/src/db.ts:179-313 | a serving process's own, correctly stamped, freshly touched file is on disk at every point of such a run |
| LockCoarse.SecondWriterExactlyWhen | CinderpawAgent/src/db.ts:137-150 | a second process gets in beside a live writer iff that one has been silent for over 60 s or runs as another user |
| LockCoarse.OpenAgainstAHolder | CinderpawAgent/src/db.ts:194-231 | an open against a live holder is refused iff the holder is recent and of the same user, or the unlink fails |
| LockCoarse.JudgementOfALiveHolder | CinderpawAgent/src/db.ts:137-150 | the stale test is wrong about a live holder iff it is overdue or foreign, despite pid reuse |
| LockCoarse.ProbeTellsTheUser | CinderpawAgent/src/db.ts:94-104 | probing a live process's pid says yes iff it belongs to the same user |
| LockCoarse.SilentLockIsAlwaysReclaimed | CinderpawAgent/src/db.ts:106-120 | a lock silent for over 60 s is always reclaimed, whoever owns its pid now |
| LockCoarse.CloseAgainBreaksExclusion | CinderpawAgent/src/db.ts:298-311 | a second close followed by a third process's open yields two writers |
| LockFine.StepAnchorsExactlyWhen | CinderpawAgent/src/db.ts:194-222 | with separate steps, every owner's own file stays at the path iff the step does not unlink a live owner's file |
| LockFine.TwoOwnersNeedAnOrphanedOne | CinderpawAgent/src/db.ts:194-311 | two live owners at the end of any interleaving imply that some earlier unlink removed a live owner's file; otherwise the exclusive create keeps one |
| LockFine.AnchoredIsExclusive | CinderpawAgent/src/db.ts:215-222 | if every owner's file is at the path there is at most one owner |
| LockFine.RunStaysAnchored | CinderpawAgent/src/db.ts:194-311 | anchoring holds along every run without such an unlink |
| LockFine.CarefulStepStaysTidy | CinderpawAgent/src/db.ts:194-222 | a step outside the named windows keeps every process's knowledge right and orphans nobody |
| LockFine.CarefulRunStaysTidy | CinderpawAgent/src/db.ts:194-311 | whole runs outside the windows orphan nobody |
| LockFine.OneOwner | CinderpawAgent/src/db.ts:194-311 | fine-grained mutual exclusion outside the windows, including crashes, pid reuse and beats |
| LockRaces.TwoRecoverersBothServe | CinderpawAgent/src/db.ts:198-222 | from any world with a dead lock, two starts can both end up serving without time passing |
| LockRaces.ReadBeforeStampBothServe | CinderpawAgent/src/db.ts:215-222 | from any world without a lock, a start that reads between create and stamp leads to two servers |
| LockRaces.OrphaningIsFatal | CinderpawAgent/src/db.ts:204-222 | converse of the fine theorem: after any unlink of a live owner's file, even by a second close of the owner itself, a newcomer can become a second owner |
| LockWait.WaitForWriterLock | CinderpawAgent/src/db.ts:163-177 | the loop ends at the first look at the lock that finds no reason to sleep (no time left, no file, held here, or dead), having slept between looks only |
| LockWait.FirstFreeIsUnique | CinderpawAgent/src/db.ts:163-177 | there is only one such look |
| LockWait.NoWaitExactlyWhen | CinderpawAgent/src/db.ts:167-174 | the wait is over at once iff there is no time, no file, or the lock is held here or dead at the start |
| LockWait.WaitIsBounded | CinderpawAgent/src/db.ts:166-176 | the wait is over less than one nap after the deadline |
| LockWait.WaitEndsProperly | CinderpawAgent/src/db.ts:163-177 | when the wait is over, time is up, or the file is gone, held here or dead |
| LockWait.BootAlwaysReclaims | CinderpawAgent/src/boot.ts:455 | a predecessor whose last beat was before the boot never bricks it, even when a live stranger wears its pid, unless that very pid is reissued between the last probe and the open |
| LockWait.PunctualBootSucceedsExactlyWhen | CinderpawAgent/src/boot.ts:455 | with punctual timers and a stranger on the pid the boot succeeds iff the last beat is strictly before its start |
| TempNames.CutsWhatWasAppended | CinderpawAgent/src/atomic-write.ts:25-27 | a dotted decimal appended to any string is cut off again exactly |
| TempNames.TmpPathReadsBack | CinderpawAgent/src/atomic-write.ts:25-27 | file, pid, millisecond and counter are recovered from the temp name |
| TempNames.TmpPathInjective | CinderpawAgent/src/atomic-write.ts:15-27 | two temp names are equal only if file, pid, millisecond and counter all are |
| TempNames.TempNameExactlyWhen | CinderpawAgent/src/atomic-write.ts:25-27 | a check on the spelling alone says whether a path can be some call's temp file: iff it reads back and is spelled the same again |
| AtomicWrite.FileSystem.RenameWithRetry | CinderpawAgent/src/atomic-write.ts:107-120 | moves the file or changes nothing; succeeds iff the last of at most five attempts does |
| AtomicWrite.Attempts | CinderpawAgent/src/atomic-write.ts:107-120 | retries go on exactly while answers are retryable, five at most |
| AtomicWrite.FileSystem.WriteOnce | CinderpawAgent/src/atomic-write.ts:76-93 | success installs the whole contents and leaves no temp; failure leaves the destination alone; a failed open changes nothing; exactly when a temp file survives, and what is in it; nothing else touched |
| AtomicWrite.FileSystem.AtomicWriteFileSync | CinderpawAgent/src/atomic-write.ts:30-43 | the installed content is whole iff the one write took everything; a refused rename leaves the temp file |
| AtomicWrite.TempIsPrivate | CinderpawAgent/src/atomic-write.ts:15-27 | no two concurrent calls of any processes share a temp file, and none is a destination |
| AtomicWrite.CallStepStaysSound | CinderpawAgent/src/atomic-write.ts:76-120 | each file-system step of a call keeps all drafts right and every destination whole-old or whole-new |
| AtomicWrite.ReadersSeeWholeFiles | CinderpawAgent/src/atomic-write.ts:4-10 | when no destination is spelled like another's temp file: at every point of every run of any writers, crashes included, a destination holds its initial content or all of one finished call's |
| AtomicWrite.ReadersSeeTheLastRename | CinderpawAgent/src/atomic-write.ts:76-93 | more exactly: it shows all of what the call renamed last was asked to write, said of the steps alone |
| AtomicWrite.TempIsLeftExactlyWhen | CinderpawAgent/src/atomic-write.ts:76-93 | in every run, a call that is over has left its temp file behind iff it threw while writing or its clean-up was refused |
| AtomicWrite.TempShapedDestinationIsTorn | CinderpawAgent/src/atomic-write.ts:25-27 | a destination that is any temp name of another shows a torn file in some run, from any initial files, for any stamp and contents |
| AtomicWrite.AlwaysWholeExactlyWhenApart | CinderpawAgent/src/atomic-write.ts:4-27 | a family of destinations is always whole-old-or-whole-new iff none is spelled like a temp file of another |
| AtomicWrite.OneMoreDestination | CinderpawAgent/src/atomic-write.ts:4-27 | beside all paths that are no temp names, one more destination is safe iff it is not a temp name of one of those, which its spelling tells |
| WriteQueue.Queue.AtomicWriteFile | CinderpawAgent/src/atomic-write.ts:61-74 | exactly one call is added, with the caller's path and contents, chained to the path's entry, and becomes the entry |
| WriteQueue.Queue.EnterWriteOnce | CinderpawAgent/src/atomic-write.ts:65-68 | a call enters its write only when its predecessor has settled, whether that succeeded or not |
| WriteQueue.Queue.LeaveWriteOnce | CinderpawAgent/src/atomic-write.ts:76-93 | a finished write installs its contents iff it succeeded |
| WriteQueue.Queue.RunFinally | CinderpawAgent/src/atomic-write.ts:69-71 | cleanup drops the path's entry iff the entry is this call's |
| WriteQueue.StepStaysGood | CinderpawAgent/src/atomic-write.ts:58-74 | every continuation keeps order, map and file contents right |
| WriteQueue.SerialAndInOrder | CinderpawAgent/src/atomic-write.ts:45-74 | one write per path in flight, in call order, under every interleaving and failure |
| WriteQueue.MapLifecycle | CinderpawAgent/src/atomic-write.ts:55-73 | a path has an entry exactly while its latest call's cleanup has not run, and the entry is that call |
| WriteQueue.SomethingCanRun | CinderpawAgent/src/atomic-write.ts:64-68 | no deadlock: while a call is not drained some continuation can run, whatever failed |
| WriteQueue.FilesHoldWhatWasAsked | CinderpawAgent/src/atomic-write.ts:61-93 | at every moment of every run a path holds the contents the caller of its last successful write gave, or what it held before |
| WriteQueue.DrainedQueue | CinderpawAgent/src/atomic-write.ts:61-74 | every schedule ends after exactly the work left; then the map is empty and each path holds what the last write on it that succeeded was asked to put there, said of the steps alone |
| RunStore.Select | CinderpawAgent/src/core/run-store.ts:238-243 | exactly the matching rows, oldest first, each once |
| RunStore.AdmissionKeepsOneRun | CinderpawAgent/src/core/run-store.ts:168-224 | closing the stale run and adding the new one keeps at most one running row per session |
| RunStore.Store.ActiveRun | CinderpawAgent/src/core/run-store.ts:151-156 | finds a running row of the session iff there is one |
| RunStore.Store.StartRun | CinderpawAgent/src/core/run-store.ts:168-224 | refuses iff the session has a running run that is neither past its deadline nor silent; otherwise closes a stale one, unfinished and without report, and appends a row that carries the input and has done nothing yet |
| RunStore.Store.AppendTurn | CinderpawAgent/src/core/run-store.ts:246-289 | numbers the turn and updates exactly the counters of its run |
| RunStore.FinishingEndsExactlyOneRun | CinderpawAgent/src/core/run-store.ts:324-348 | finishing a run takes exactly it from the runs to resume, and it becomes owed iff it has a report nobody was given |
| RunStore.MarkingEndsExactlyOneDebt | CinderpawAgent/src/core/run-store.ts:340-355 | marking takes exactly this report from those owed and leaves the runs to resume alone |
| RunStore.CountingMovesNothing | CinderpawAgent/src/core/run-store.ts:362-375 | counting a refusal or a resume changes neither what is owed nor what is running |
| RunStore.SelectAfterChange | CinderpawAgent/src/core/run-store.ts:238-243 | a changed row leaves a reading list iff it no longer belongs there, and moves no other entry |
| RunDelivery.OnlyTurnsSinceTheResumeCount | CinderpawAgent/src/core/run-resume.ts:55-76 | whether a resume achieved nothing depends only on the turns after it |
| RunDelivery.DecideResume | CinderpawAgent/src/core/run-resume.ts:78-120 | a run is resumed iff it is not scheduled, in time, resumed less than three times, and not idle in all turns since the last resume; otherwise status and reason name the first of these that fails |
| RunDelivery.Courier.DeliverAndMark | CinderpawAgent/src/core/run-delivery.ts:88-104 | sends iff accepted, and the row records exactly what came back |
| RunDelivery.Courier.DrainOne | CinderpawAgent/src/core/run-delivery.ts:123-145 | one owed row: marked iff its report is not empty and goes to the log, is accepted, or was refused three times; then, and only then, its person gets one text, the report, with the note above it unless the refusals decided |
| RunDelivery.Courier.DrainUndelivered | CinderpawAgent/src/core/run-delivery.ts:116-146 | the same for every row by itself in a whole drain; the texts go out in starting order, and no others do |
| RunDelivery.DrainIsPerRow | CinderpawAgent/src/core/run-delivery.ts:112-146 | one unreachable channel costs no other row its report: each row's fate depends on it alone |
| RunDelivery.Courier.ConcludeRun | CinderpawAgent/src/boot.ts:1589-1601 | report stored with the status first, then handed over and the outcome recorded |
| RunDelivery.Courier.HandleInterrupted | CinderpawAgent/src/core/run-resume.ts:141-171 | one interrupted run, column by column: whether it is resumed, recorded before it is tried; how it ends, whether the callback concluded or threw; and what is sent |
| RunDelivery.Courier.ResumeInterruptedRuns | CinderpawAgent/src/core/run-resume.ts:132-173 | the same for every running row by itself in a whole pass; the texts go out in starting order, and no others do |
| RunDelivery.RecoveryIsPerRow | CinderpawAgent/src/core/run-resume.ts:129-173 | one run's failure keeps no other run from its turn |
| RunDelivery.Courier.Boot | CinderpawAgent/src/boot.ts:1657-1665 | drain then recovery: every row and every text is what the two say of that row alone, with its own channel, turns and fate, and all debts go out before any work |
| RunDelivery.DebtEndsExactlyWhen | CinderpawAgent/src/core/run-delivery.ts:75-146 | over any series of boots an owed report of any run is discharged iff it is not empty and some boot found its channel accepting (the log, for a run without one) or three refusals behind it |
| RunDelivery.BootLeavesRunningExactlyWhen | CinderpawAgent/src/core/run-resume.ts:132-173 | a completed boot leaves a run running iff it may be resumed and that attempt failed |
| RunDelivery.EveryRunEnds | CinderpawAgent/src/core/run-resume.ts:78-120 | no run is resumed more than three times or survives four boots |
| RunDelivery.BootSettlesInterruptedRun | CinderpawAgent/src/boot.ts:1657-1734 | a run a boot ends has its report on the row iff its callback did not throw, delivered iff the channel accepts |
| RunHooks.Desktop.Begin | CinderpawAgent/src/boot.ts:2517-2566 | no record iff the session has a run in flight that is not stale; otherwise a fresh row with an unfinished verdict |
| RunHooks.Record.Done | CinderpawAgent/src/boot.ts:2571-2588 | the status to come is finished iff the run was and no check failed; there is a verdict iff something was checked |
| RunHooks.Desktop.AutonomousMessage | CinderpawAgent/src/dispatch.ts:1988-2029 | the row it began ends finished iff the run was and no check failed, delivered, with banner, answer and the verdict in its report; the other rows stay; the person sees the answer and, of an unfinished run, the report |
| RunHooks.DesktopReportWasSeenExactlyWhen | CinderpawAgent/src/dispatch.ts:2004-2029 | the row always says delivered; its report was on screen iff the run was unfinished or nothing was checked |
| RunProtocol.StepStaysSoundExactlyWhen | CinderpawAgent/src/boot.ts:1568-1601 | every step of desktop, channel, boot and crash keeps rows, activities, screen and hand-overs accounted for iff it is exclusive: a boot pass that picks up a run somebody is working on is the only one that does not |
| RunPromises.NoReportIsLost | CinderpawAgent/src/db.ts:666-683 | in every reachable state a started run is running, was ended silently, or has a report that is owed or delivered; a delivered one was received iff it is not a finished desktop run's with a declared check, nor a chat's evidence whose text differs from the answer shown |
| RunPromises.DeliveredWasReceivedExactlyWhen | CinderpawAgent/src/core/proactive-followups.ts:42-65 | the same for one state, with what is known of the exceptions: desktop rows, and the run finished |
| RunPromises.StoredReportSurvives | CinderpawAgent/src/core/run-store.ts:324-355 | a report stored at one moment is at every later moment unchanged, and owed, or delivered and received with the same exception |
| RunPromises.StepKeepsReports | CinderpawAgent/src/core/run-store.ts:324-375 | no exclusive step replaces or removes a stored report |
| RunPromises.RunKeepsReports | CinderpawAgent/src/core/run-store.ts:324-375 | no run of such steps does |
| RunPromises.DuplicatesAreSwallowedMarks | CinderpawAgent/src/core/run-delivery.ts:88-104 | a report goes out again only for crashes between a send and its mark, once for each |
| RunPromises.CrashedDebtIsPickedUpExactlyWhen | CinderpawAgent/src/core/run-delivery.ts:116-127 | after a crash the next drain can take an owed report up iff it is not empty |
| RunPromises.DesktopMessageIsARun | CinderpawAgent/src/dispatch.ts:1988-2029 | the desktop's autonomous message, as performed by RunHooks, is a run of the protocol from any state: same row, same texts seen and sent |
| RunPromises.DrainOneIsARun | CinderpawAgent/src/core/run-delivery.ts:116-146 | the turn of one row in the drain, as performed by RunDelivery, is a run of the protocol: same row, a hand-over iff it hands over |
| RunPromises.HandleInterruptedIsARun | CinderpawAgent/src/core/run-resume.ts:132-173 | so is the turn of one interrupted run, resumed or given up, concluded or not: same row, same text |
| RunPromises.CheckedDesktopReportGoesUnseen | CinderpawAgent/src/dispatch.ts:2004-2029 | from any state a finished message with a declared check ends delivered with a report nobody received |
| RunPromises.SharedRunLosesAReport | CinderpawAgent/src/boot.ts:1657-1734 | from any state, once a boot pass has picked up a run somebody is working on, whatever decideResume said, a continuation ends with a stored report nobody received and nobody owes |
| RunPromises.SharedDebtIsPaidTwiceExactlyWhen | CinderpawAgent/src/core/run-delivery.ts:116-146 | from any state, once a drain has taken up a report somebody else carries, it can go out more often than crashes explain iff that one is offering it or has had it accepted; a refusal or a mark under way does no harm in any further run |
| FtsIndex.Memory.Execute | CinderpawAgent/src/db.ts:430-456 | one statement with the triggers it fires: an insert adds a row unless the id is taken, an update moves the row and gives it the text, a delete removes it, other rows stay, and an index in agreement stays so |
| FtsIndex.StatementChangesItsRows | CinderpawAgent/src/db.ts:430-456 | what the table holds after a statement, row by row |
| FtsIndex.StepKeepsAgreement | CinderpawAgent/src/db.ts:430-456 | every insert, update and delete keeps the index equal to the table's term counts |
| FtsIndex.HistoryKeepsAgreement | CinderpawAgent/src/db.ts:430-456 | so does every sequence of them |
| FtsIndex.IndexEqualsRebuild | CinderpawAgent/src/db.ts:430-456 | after any history the index equals one rebuilt from the rows in any order |
| FtsIndex.SearchFindsExactly | CinderpawAgent/src/db.ts:430-456 | a term search finds exactly the rows containing the term |
| FtsIndex.DeleteUndoesExactlyWhen | CinderpawAgent/src/db.ts:443-456 | the 'delete' command undoes a row iff the text it is given has the row's own terms |
| Migration.Database.AddColumnIfMissing | CinderpawAgent/src/db.ts:320-330 | the table has the column afterwards, and nothing else changes but the category of facts that had none; refused iff there is no table |
| Migration.Database.OpenAndMigrate | CinderpawAgent/src/db.ts:261-274 | refuses a newer database before any write, else runs the statements to the first refusal, and stamps only after all; then exactly what the statements name has been added, and no fact lost |
| Migration.Database.Execute | CinderpawAgent/src/db.ts:320-330 | a statement is refused iff the table or a column it needs is missing and what it makes is not there yet |
| Migration.RunLeavesWhatIsNamed | CinderpawAgent/src/db.ts:367-1144 | a run in which no statement is refused leaves exactly the tables, columns, indexes and triggers that were there or that the statements name |
| Migration.RunKeepsFacts | CinderpawAgent/src/db.ts:693-700 | it leaves every fact as it was, but for a category it did not have, and writes a history only by seeding an empty one |
| Migration.ExecSettles | CinderpawAgent/src/db.ts:367-1144 | a statement that went through has nothing left to do |
| Migration.SettledStays | CinderpawAgent/src/db.ts:367-1144 | no statement undoes another |
| Migration.CrashChangesNothingInTheEnd | CinderpawAgent/src/db.ts:367-1144 | a start that died anywhere does not change what the next full start leaves |
| Migration.MigrationConverges | CinderpawAgent/src/db.ts:367-1144 | nor do any number of them, from any database |
| Migration.StartIsIdempotent | CinderpawAgent/src/db.ts:367-1144 | starting again after a completed start changes nothing |
| Migration.VersionMovesOnlyWhenComplete | CinderpawAgent/src/db.ts:346-359 | the version changes only in a start whose every statement went through, only upwards, never in a crashed one; a newer database is left untouched |
| Migration.RunPreserves | CinderpawAgent/src/db.ts:367-1144 | facts, history, tables, columns, indexes and triggers that were there stay |
| Migration.HistoryIsSeededOnce | CinderpawAgent/src/db.ts:693-700 | an empty fact history becomes one open version per fact with its key, value, category and date, and is never seeded twice |
| Migration.RestartsDeliverEverything | CinderpawAgent/src/db.ts:367-1144 | after any crashes, a completed start has exactly what the statements name besides what was there, everything stored before, a seeded history and a current version |
| MigrationList.MigrationSeedsHistory | CinderpawAgent/src/db.ts:697-700 | the real list of 79 statements contains the seeding the theorem above asks for |
| MigrationList.OrderedRunGoes | CinderpawAgent/src/db.ts:367-1144 | a list in which every statement names the next table, or a table and columns made before it, goes through on the database where it starts, and makes just its tables |
| MigrationList.MigrationIsOrdered | CinderpawAgent/src/db.ts:367-1144 | the 79 statements are such a list, and make all 30 tables |
| MigrationList.MigrationNames | CinderpawAgent/src/db.ts:367-1144 | the indexes, triggers and later columns the 79 statements name are exactly the 24, 3 and 21 listed |
| MigrationList.FirstStartCompletes | CinderpawAgent/src/db.ts:367-1144 | a new installation: on an empty database, whatever earlier starts died, the first one left alone completes with exactly the 30 tables and their columns, the listed indexes and triggers, no facts, and the current version |
| LicenseClosure.NotBundledClosure | scripts/openclaw/license-inventory.py:66-92 | the in-place loop returns the least closed set, within one pass more than there are packages |
| LicenseClosure.ClosureIsUnique | scripts/openclaw/license-inventory.py:74-92 | whatever the iteration order |
| LicenseClosure.ExcludedForAReason | scripts/openclaw/license-inventory.py:67-72 | every excluded package is named, or pulled in and only by excluded ones |
| LicenseClosure.KeptExactlyWhenSupported | scripts/openclaw/license-inventory.py:84-91 | an unnamed package is kept iff nothing pulls it in or something kept does |
| LicenseClosure.ReachedFromKeptIsKept | scripts/openclaw/license-inventory.py:69-72 | what a kept package reaches through unnamed packages is kept, cycles or not |
| LicenseClosure.KeptHasARootPath | scripts/openclaw/license-inventory.py:66-92 | on an acyclic graph a kept package has a path of unnamed packages from a top-level one |
| LicenseClosure.KeptExactlyWhenReachable | scripts/openclaw/license-inventory.py:66-92 | on an acyclic graph kept is exactly reachable from a top-level package through unnamed ones |
| LicenseClosure.CycleIsKept | scripts/openclaw/license-inventory.py:84-91 | an unnamed cycle is always kept, so acyclicity is needed |
| MessageScroller.HalveIsExactExactlyWhen | frontend-react/vite.config.ts:29-30 | the shift halves exactly iff the sum is below 2^31, and is negative above |
| MessageScroller.Search | frontend-react/vite.config.ts:29-30 | the halving ends where the predicate turns from false to true, for any predicate |
| MessageScroller.FirstPast | frontend-react/vite.config.ts:29-30 | the injected loop with its 32-bit shift computes that place |
| MessageScroller.ScanFirstVisible | frontend-react/vite.config.ts:37 | the replaced scan returns the first visible message row |
| MessageScroller.WalkIsExactExactlyWhen | frontend-react/vite.config.ts:35-38 | for any rows and any start, the rewritten walk finds what the full scan finds iff nothing on screen lies before the start and no stop comes before the first message on screen |
| MessageScroller.FastFirstVisible | frontend-react/vite.config.ts:35-38 | the rewritten scan returns the same row as the replaced one iff nothing is missed, so always on a column |
| MessageScroller.ScanContentBottom | frontend-react/vite.config.ts:33 | the replaced scan returns the lowest bottom of all rows |
| MessageScroller.FastContentBottom | frontend-react/vite.config.ts:31-34 | the backward walk returns the same iff no skipped row reaches lower than what it saw |
| MessageScroller.SkippingIsExactExactlyWhen | frontend-react/vite.config.ts:31-34 | leaving out the first rows keeps the maximum iff none of them exceeds the rest |
| MessageScroller.ColumnBottomIsExact | frontend-react/vite.config.ts:31-34 | on a column the backward walk is exact, hidden rows anywhere |
| MessageScroller.SteppingBackIsExactExactlyWhen | frontend-react/vite.config.ts:39-45 | for any rows, stepping back from a split finds the current question iff no question from the split on has reached the line and the last one before it has |
| MessageScroller.FastCurrentQuestion | frontend-react/vite.config.ts:39-45 | the rewritten scan finds the last question at or above the line iff the halving's turn splits the questions, so always on a column |
| MessageScroller.HiddenRowHidesTheMessage | frontend-react/vite.config.ts:35-38 | a hidden row after the only message on screen makes the rewritten scan miss it |
| StreamPlain.Terminal.StreamPlain | tui/main.go:167-229 | under every select choice and producer timing a return without interrupt has rendered exactly the chunks before the first error; an interrupt leaves a prefix; errors reported as due |
| StreamPlain.Terminal.Drain | tui/main.go:197-220 | what was buffered when done won is printed up to the first error |
| StreamPlain.Terminal.Print | tui/main.go:180-196 | one chunk prints its notice and its content |
| StreamPlain.RenderSaysEverythingOnce | tui/main.go:180-196 | the rendering is all contents in order, once each, with one thinking notice iff there was reasoning |
| StreamPlain.ThinkingIsAnnouncedInTime | tui/main.go:180-196 | the notice comes right before the first chunk with reasoning, between the contents as they come |
| StreamPlain.ErrorAt | tui/main.go:185-190 | the position is that of the first error chunk |
| ProgressFold.Fold | scripts/tac/progress_to_db.py:66-139 | the in-place loop leaves one row for each task with an event in the current run, and each row tells of that task's events alone what RowTells says |
| ProgressFold.RowTells | scripts/tac/progress_to_db.py:96-137 | score pair, error, end, services, stop reason, starts, phase and durations of a row are each those of the last (or first) event that sets them |
| ProgressFold.LastExactlyWhen | scripts/tac/progress_to_db.py:96-137 | what that says of an event: it is of the kind, and none after it is |
| ProgressFold.FirstExactlyWhen | scripts/tac/progress_to_db.py:96-137 | the same for the first one |
| ProgressFold.OnlyTheLastRunCounts | scripts/tac/progress_to_db.py:43-63 | nothing before the last run_start matters |
| ProgressFold.WithoutRunStartAllCounts | scripts/tac/progress_to_db.py:62-63 | without a run_start every event counts |
| ProgressFold.RowsAreProjections | scripts/tac/progress_to_db.py:91-139 | the rows are the tasks that appeared, numbered by first appearance, each the replay of its own events alone |
| ProgressFold.RowIsProjection | scripts/tac/progress_to_db.py:91-139 | the same for one task |
| ProgressFold.AppearancesAreTheTasks | scripts/tac/progress_to_db.py:91-95 | order is a bijection from the tasks onto 1 to their number |
| ProgressFold.PhaseExactlyWhenStarted | scripts/tac/progress_to_db.py:102-137 | a row has a phase iff its task's latest start or terminal event is a start |
| ProgressFold.OrderIsOnlyALabel | scripts/tac/progress_to_db.py:91-95 | the order number influences nothing else in the row |
| MemoryOrder.NextSeedIsLinear | scripts/memory-order-headroom.ts:103-104 | signed imul and unsigned shift together are the plain linear congruential step mod 2^32 |
| MemoryOrder.NextSeedIsABijection | scripts/memory-order-headroom.ts:103-104 | the step has a two-sided inverse on 32-bit words |
| MemoryOrder.Sample | scripts/memory-order-headroom.ts:106 | every sampled index is within the questions |
| MemoryOrder.SampleExactlyWhen | scripts/memory-order-headroom.ts:104-106 | question i is drawn iff the seed lies in the i-th of n equal parts of the 32-bit words |
| MemoryOrder.Bootstrap | scripts/memory-order-headroom.ts:105-106 | the nested loops with one running seed compute the list of resample totals |
| MemoryOrder.PairedDiff | scripts/memory-order-headroom.ts:101-109 | wins, losses and ties count the questions only the second, only the first, or both or neither arm got right; the difference is wins less losses over all; each bound is the resample mean of its rank; nothing without questions or resamples |
| MemoryOrder.DrawsAreGains | scripts/memory-order-headroom.ts:103-106 | a resample total is the sum over its draws, the i-th by the next turn of the generator, of what the second arm gained on the question drawn |
| MemoryOrder.SortedHasRank | scripts/memory-order-headroom.ts:107-108 | looking up a place of the sorted numbers is taking the number of that rank |
| MemoryOrder.RankIsUnique | scripts/memory-order-headroom.ts:107-108 | there is only one number of a rank |
| MemoryOrder.CountsAddUp | scripts/memory-order-headroom.ts:108 | wins, losses and ties make up all questions, and wins minus losses is n times the difference |
| MemoryOrder.IntervalIsBounded | scripts/memory-order-headroom.ts:105-108 | lo is at most hi and both lie between the least and the greatest single difference, so in [-1, 1] |
| MemoryOrder.SortedIsUnique | scripts/memory-order-headroom.ts:107 | the sorted means are determined by their multiset |
| MemoryOrder.SortNegated | scripts/memory-order-headroom.ts:107 | sorting negated values gives the negated reverse |
| MemoryOrder.RanksMirrorExactlyWhen | scripts/memory-order-headroom.ts:108 | the ranks of the two bounds are equally far from the two ends iff the number of resamples is no multiple of 40 |
| MemoryOrder.SwappingArmsMirrors | scripts/memory-order-headroom.ts:101-109 | swapping the arms mirrors every sorted mean; the interval mirrors when the number of resamples is no multiple of 40, and for a multiple iff each bound ties with its lower neighbour |
| MemoryOrder.SwappedIntervalDoesNotMirror | scripts/memory-order-headroom.ts:101-109 | two questions, 40 resamples and seed 23413 give an interval that does not mirror |
| MemoryArms.ArmsAreProper | scripts/memory-order-headroom.ts:72-85 | on duplicate-free inputs every arm is duplicate-free with at most ten ids, all ranked except the oracle's evidence |
| MemoryArms.FmsShowsTheTopTen | scripts/memory-order-headroom.ts:73-76 | NONE shows nothing, FMS the first ten as ranked |
| MemoryArms.ReversedIsFmsBackwards | scripts/memory-order-headroom.ts:76-77 | REVERSED shows what FMS shows, place by place from the other end |
| MemoryArms.RandomTakesTheSmallestKeys | scripts/memory-order-headroom.ts:78 | RANDOM shows the ten smallest keys of the pool: nobody left out has a smaller key than anyone shown |
| MemoryArms.RandomGoesByKey | scripts/memory-order-headroom.ts:78 | RANDOM is in order of the keys, equal keys as ranked, and as long as ten or all there are |
| MemoryArms.OracleShowsEvidenceThenFms | scripts/memory-order-headroom.ts:79-83 | ORACLE starts with the evidence, goes on with FMS in order, and drops a ranked id only when full; ORACLE-FULL has the same ids |
| MemoryArms.OracleKeepsTheRanking | scripts/memory-order-headroom.ts:79-83 | after the evidence ORACLE shows ranked memories in the ranking's order, and passes over none that is not evidence |
| MemoryArms.MemoryBlock | scripts/memory-order-headroom.ts:55-66 | the loop returns the longest run of lines from the top within the cap |
| MemoryArms.JoinOfBoth | scripts/memory-order-headroom.ts:65 | lines are separated by one line end each |
| MemoryArms.CutIsUnique | scripts/memory-order-headroom.ts:60-64 | there is only one such run |
| MemoryArms.BlockFits | scripts/memory-order-headroom.ts:54-66 | the block is a prefix of the whole text, shorter than 4000, and the whole text iff that is shorter than 4000 |
| VoiceRender.Studio.RenderLines | frontend-react/scripts/render-cubby-voice.ts:54-85 | the loop's manifest, sound files and failures for every pattern of answers |
| VoiceRender.Studio.Run | frontend-react/scripts/render-cubby-voice.ts:92-134 | a run that renders leaves exactly the round's manifest and sounds, one that does not leaves everything; when the exit code is 0; not writing the manifest when all failed loses nothing |
| VoiceRender.AsksExactlyWhen | frontend-react/scripts/render-cubby-voice.ts:33-52 | a line is asked for iff it is requested and its entry is missing or made from other words, by another model or in another voice; each once, in the script's order |
| VoiceRender.NextRunAsksForTheRest | frontend-react/scripts/render-cubby-voice.ts:130-131 | the next full run selects exactly the lines that needed audio and failed or were excluded by `--only` |
| VoiceRender.FreshLinesAreLeftAlone | frontend-react/scripts/render-cubby-voice.ts:40-44 | up-to-date lines keep entry and sound |
| VoiceRender.CleanFullRunLeavesNothing | frontend-react/scripts/render-cubby-voice.ts:54-85 | after a full run the next selection is empty iff every request succeeded |
| VoiceRender.CheckVersusRender | frontend-react/scripts/render-cubby-voice.ts:33-52 | check and render agree exactly up to what each ignores: files on one side, model and voice on the other |
| VoiceRender.TruthSurvivesExactlyWhen | frontend-react/scripts/render-cubby-voice.ts:54-131 | after any round, dying or not, for any words and model, lines that count as up to date have their sound iff the round spoiled none |
| VoiceRender.RoundStaysTruthful | frontend-react/scripts/render-cubby-voice.ts:54-131 | a round for the same words and model never spoils anything |
| VoiceRender.RoundsStayTruthful | frontend-react/scripts/render-cubby-voice.ts:54-131 | nor does any series of them, with failures, torn files and crashes |
| VoiceRender.CrashUnderAnotherModelSpoils | frontend-react/scripts/render-cubby-voice.ts:130-131 | a crashed round for another model leaves wrong sound under an entry that asks for nothing |

## Left out

- SQLite itself: FTS ranking and tokenisation (the tokenizer is a parameter), column types and defaults other than the fact category, the journal, and the time stamp of the version row.
- MigrationList.FirstStartCompletes: an empty database; for an older one it is said of each statement when it is refused, which ends the start, but not which of the 79 are; convergence holds either way.
- Migration.VersionMovesOnlyWhenComplete: the stored version is absent, not a number, or a real number; an infinite value is not a case.
- LockFine.OneOwner: one connection per process, and the stages between the stamp and the returned connection are one state; a process may close an old connection again at any time; a database close that throws is a step of LockCoarse only.
- LockCoarse.OneWriter: refused stamps, databases, unlinks and database closes are included; the modification time of the stamp is taken to be the time of the create.
- LockWait.WaitForWriterLock: a file that vanishes between the existence check and the read of one poll is read as absent, which ends the wait just as well.
- LockRules.OpensExactlyWhen: a probe that is forbidden counts as another user's process, as the code decides.
- AtomicWrite.ReadersSeeWholeFiles: process crashes between any two operations, not the loss of unsynced data in a power failure; a pid is reused only in a later millisecond.
- WriteQueue.DrainedQueue: paths are already resolved and nothing else writes them; promises are reduced to the order of their continuations, and an unhandled rejection of the cleanup promise is not a state.
- RunPromises.NoReportIsLost: assumes that a boot pass leaves alone the runs its own process is working on, which the code does not check; `SharedRunLosesAReport` says what happens otherwise. Runs closed by a stale reclaim or by the net under a failed give-up end without a report and are named as such. Of what the desktop shows, only a run's last answer is recorded; old evidence rows are never deleted.
- RunDelivery.Courier.ResumeInterruptedRuns: the turns a resumed run appends while it runs are not in the rows it reports on; its outcome is a parameter.
- RunHooks.Desktop.AutonomousMessage: the turns recorded while the run is working and other activity on the tables meanwhile; the per-turn stall guard is an input of the outcome.
- RunStore.Store.StartRun: mission text, safety snapshots and completion conditions are not fields; turns keep only the counters the decisions read.
- StreamPlain.Terminal.StreamPlain: the chat request itself; the producer is taken to send every chunk before done.
- MessageScroller.FirstPast: at most 2^30 rows, up to where the 32-bit shift is exact; `HalveIsExactExactlyWhen` says what it does beyond.
- MessageScroller.FastCurrentQuestion: the replaced third scan is not part of the repository; its comment is the specification, and the list of visible ids and the fallback without an observer are not modelled.
- ProgressFold.Fold: the run's descriptive fields, the rounding of a duration to one decimal and the formatting of time stamps.
- MemoryOrder.PairedDiff: exact rationals instead of floating point, for the means and for the two ranks.
- MemoryArms.RandomTakesTheSmallestKeys: the string hash behind the keys is a parameter.
- MemoryArms.MemoryBlock: how a memory becomes a line (date, role, snippet) is not modelled.
- VoiceRender.TruthSurvivesExactlyWhen: a death inside the plain write of the manifest itself, which tears it and makes every later read of it throw.
- VoiceRender.Studio.Run: argument parsing and the sorted spelling of the manifest file; names that objects inherit do not count as lines.
- The rest of `boot.ts` and `dispatch.ts` (tools, routing, handlers), the user interface, networking and configuration: wiring around code that decides nothing here.
