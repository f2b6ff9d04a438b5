# The watch-mode runtime, modelled in Dafny

Watch mode scans a list of markets again and again for days. This project models the parts of it
that have to be right over a whole run rather than over one call, and proves what they keep:

- the **session**: one writer per database, a receipt file that the next session resumes from, and a
  bounded append-only observation journal that latches when its byte budget is spent
  (`JournalLines`, `Journal`, `Session`, `SessionRuns`, `WatchSessionObject`);
- the **retry policy**: the paged provenance inspection, the delivery counters, and the rule that
  decides whether an iteration earns a back-off (`Provenance`, `RetryPolicy`);
- the **schedule** and the supervisor loop around it (`Schedule`, `Supervisor`);
- the **symbol state**: activation alerts, seeding, and the guarded state file (`WatchState`, `WatchStore`);
- the **queue** under a strict universe, and the **outcome counts** of what was queued (`MarketCap`, `Queue`,
  `Outcomes`);
- whole **iterations**, from the watchlist to the alerts (`Iteration`);
- the order-independent evidence summary (`Evidence`).

`Basics` and `Text` hold the list and string operations the others share.

Code that changes things step by step is imperative here: `Files`, `WatchSession`, `Diagnostics`,
`WatchLoop` and `StateFile` are classes, and the source's loops are loops. Each method is proved against
a function of the old state, and the theorems are about those functions. `WatchSession` keeps a ghost
trace, so every state the object can reach is a state of `Session.Run`, and the run theorems of
`SessionRuns` hold of the object.

## How a run is modelled

A session run is any sequence of events from any state that meets `SessionRuns.Inv`. An event performs one
primitive action (take the lease, observe a row, write the receipt, begin or finish an iteration, close,
release), **dies in the middle of one**, or **fails in the middle of one with an error that the process
survives**. Dying or failing in a journal write leaves any prefix of the bytes being written. Replacing the
receipt either happened or did not. After a death the next event starts from the disk alone, so restarts are
part of every run.

A state-file run is any interleaving of loads, checks, renames and failed writes by any number of writers. A
watch run is any sequence of scans, each ending with a save that works or fails; a scan whose accounting
fails ends the run.

Given as parameters: the clock and its timestamp format, the JSON encodings and their sizes, process
identities, the journal's header and terminal lines, whether a rename works and what error it gives, the
random jitter, database rows and the point at which the database fails, what classifies a row as having an
issue, the results of the scanner, and the delivery outcomes. Cryptographic fingerprints are
treated as injective. Seconds are real numbers, since rounding error of the machine format is not the
point; rounding to milliseconds (half to even) is modelled. Case folding covers ASCII letters.

## What does not hold of the code

For each of these there is a concrete input and the exact condition under which the property does hold.

- An alert whose state could not be saved is sent again (`FailedSaveAlertsAgain`). Over every run a symbol is
  alerted at most once in all exactly when no such alert is followed by another (`AlertedOnceIff`).
- The state file's check and its rename are two steps, so of two writers that both passed the check the older
  one can win (`RacingSavesLoseTheNewer`). Over every interleaving the file goes back exactly when a newer save
  falls between an older save's check and rename, or a state without a stamp is saved over a stamped one
  (`GoesBackIff`); writers that exclude each other are safe (`ExclusiveNeverGoesBack`).
- Seeding from a saved run ignores the quality verdict. A near miss of rejected quality (`RejectedNearMiss`) is
  alerted by the next valid reading after a seed and never after an update (`LostVerdictAlerts`); the two agree
  on every other result (`SeedDisagreesIff`).
- Finishing an iteration on a session that has started none writes a receipt that every later session refuses
  (`FinishFirstStrands`); the written receipt is well formed exactly when an iteration was started
  (`FinishNeedsStart`). The watch loop always starts one first.
- The text at app/watch_supervisor.py:72-76 promises a discovery delay above half the ceiling. Jitter 0 gives
  exactly half (`HalfCeilingIsReached`); `DiscoveryAboveHalf` gives the exact condition. The model
  follows the code.

## Model

| member | source | states |
|---|---|---|
| `JournalLines.TailDecides` | app/watch_session.py:123-126 | for every file, looking at the last 257 bytes decides correctly whether the whole file's last line is the terminal record |
| `JournalLines.WindowNeedsExtraByte` | app/watch_session.py:123-126 | with a window of exactly the reserve the same test is wrong for some file, so the extra byte is needed |
| `JournalLines.SplitLinesMeans` | app/watch_session.py:123-126 | the lines put together are the text, each ends at a line break and holds no other, the last excepted |
| `JournalLines.SplitConcat` | app/watch_session.py:123-126 | line splitting distributes over concatenation when the first part ends a line |
| `JournalLines.AppendedLineIsLast` | app/watch_session.py:123-142 | a record appended to a file that ends a line becomes its last line |
| `Journal.AppendGrows` | app/watch_session.py:84-145 | wherever an append is cut off, the file keeps its old bytes as a prefix, stays within the budget if it was, and is not touched at all once it ends with the terminal record |
| `Journal.OpenAnswerIsTrue` | app/watch_session.py:113-145 | on an open journal the answer's byte count is the file's size and an accepted row is exactly one new last line (`AppendedIff` says which rows are accepted) |
| `Journal.AnswerIsTrue` | app/watch_session.py:84-145 | the same for any starting file, including creating it: the header first, then the row, and no other line |
| `Journal.RecognizedIff` | app/watch_session.py:113-122 | a file passes the header check if and only if it ends with a line feed and its first line, at most 256 bytes with its line feed, is the header |
| `Journal.AppendedIff` | app/watch_session.py:123-145 | a recognised journal takes a row if and only if recording is not suspended, the last line is not the terminal record and the row with its line feed leaves the reserve free; otherwise the row is declined, and the terminal record is reported present exactly when it was the last line or fits |
| `Journal.DeclinedFile` | app/watch_session.py:127-138 | a declined row leaves the file with the terminal record as its last line if there is room for it, and otherwise as it was; the answer says which |
| `Journal.AnswerIff` | app/watch_session.py:84-145 | which of the three answers any row gets from any file, an absent, oversized, missing or foreign one included |
| `Journal.OwnRecognizedIff` | app/watch_session.py:113-122 | a journal written only by this code passes the check if and only if its last write was not cut off |
| `Journal.LatchedForever` | app/watch_session.py:123-138 | a journal that ends with the terminal record is never written again and never reports a row as appended |
| `Journal.ExhaustionIsFinal` | app/watch_session.py:127-138 | once one append answered that the budget is exhausted, no later row of any size is appended, whether or not the terminal record fitted |
| `Journal.MissingIsNotRecreated` | app/watch_session.py:92-112 | a journal that was established or suspended and is missing is refused, not created |
| `Journal.OwnJournal` | app/watch_session.py:84-145 | a journal written only by this code holds at most one terminal record, as its last line, and always keeps room for it, at every point an append can be cut off |
| `Journal.LatchedRecognized` | app/watch_session.py:113-126 | such a journal passes the header check again when it is latched |
| `Journal.MarkerAnswers` | app/watch_session.py:123-138 | on such a latched journal every row is answered as exhausted with the marker present, without a write |
| `Session.RunSnoc` | app/watch_session.py:148-461 | running one more event is running, then stepping; the new event is allowed exactly when it is allowed at the end |
| `SessionRuns.AcquireKeeps` | app/watch_session.py:172-248 | a session opened on any accepted receipt carries its exhaustion, omitted total and ownership forward |
| `SessionRuns.AnsweredKeeps` | app/watch_session.py:250-281 | after any answer the in-memory receipt passes the validator and its counts match the rows really declined |
| `SessionRuns.ObserveKeeps` | app/watch_session.py:250-285 | observing a row, with or without a journal callback, keeps the invariant |
| `SessionRuns.DoKeeps` | app/watch_session.py:172-461 | every completed action keeps the invariant |
| `SessionRuns.DiskEvolves` | app/watch_session.py:84-461 | every action, completed or stopped anywhere, changes the disk only in the permitted ways |
| `SessionRuns.FailKeeps` | app/watch_session.py:250-259 | a journal write that raises leaves a session that is still safe |
| `SessionRuns.StepSafe` | app/watch_session.py:84-461 | every event, completed, survived or fatal, keeps the invariant and the permitted changes |
| `SessionRuns.RunsAreSafe` | app/watch_session.py:84-461 | over every run with deaths and failed writes anywhere: every receipt ever stored can be resumed from, the journal only grows within its budget and freezes when latched, exhaustion and its first time are never lost, the omitted total never decreases, ownership is never forgotten |
| `SessionRuns.CountsAreHonest` | app/watch_session.py:250-281 | the stored omission total is a lower bound of the rows declined, the session's counts are exact up to saturation, and the advisory hook is called once if the session declined a row and its object had not called it before, and never otherwise |
| `SessionRuns.MissingStaysMissing` | app/watch_session.py:92-112 | over every run, an owned journal that has gone missing is not created again |
| `SessionRuns.RejectedReceiptIsKept` | app/watch_session.py:287-344 | a stored receipt the validator refuses is left untouched by every run, as is the journal |
| `SessionRuns.RecordedRowsSurvive` | app/watch_session.py:84-145 | over every run, the complete lines of a journal remain its first lines |
| `SessionRuns.OwnStep` | app/watch_session.py:84-285 | receipt exhaustion implies a latched journal and an owned journal is there, kept by every event including a cut-off one |
| `SessionRuns.FreshRuns` | app/watch_session.py:84-461 | that implication, and the single terminal record, over every run |
| `SessionRuns.RowAnswerOverRuns` | app/watch_session.py:84-285 | over every run from no files, deaths and failed writes included: a row is refused exactly when a write was cut off before, declined exactly when the journal is latched or has no room for it, and recorded otherwise |
| `SessionRuns.FirstSession` | app/watch_session.py:172-248 | the first session of a database owns no journal, and its first row creates the file with the header and that row |
| `SessionRuns.ObservationIsTrue` | app/watch_session.py:250-285 | what a session then reports of its journal (bytes, limit, recording or exhausted, complete coverage, what became of the advisory) is what the disk and the declined rows show; a refusal changes nothing; without an attested journal coverage is reported as incomplete |
| `SessionRuns.FieldAcceptedIff` | app/watch_session.py:295-302 | which contract, database, session identity (32 hexadecimal digits), process and start time may stand in an accepted receipt, each as an if-and-only-if |
| `SessionRuns.EndAcceptedIff` | app/watch_session.py:303-317 | stage, end time and outcome are accepted if and only if they agree: finalised with a time and one of four outcomes, or open with neither, and running only with an iteration |
| `SessionRuns.IterationAcceptedIff` | app/watch_session.py:316-324 | an iteration is accepted if and only if it has a positive number, a completion flag, both starts and, when completed, an end; none is accepted unless running |
| `SessionRuns.JournalAcceptedIff` | app/watch_session.py:325-341 | a journal observation with its ownership is accepted if and only if it is absent, not recorded, recording with nothing omitted and complete, or exhausted with something omitted since a known time and incomplete |
| `SessionRuns.OlderReceipt` | app/watch_session.py:207-214 | what a session owns after a receipt with the ownership field, and after one written before there was such a field |
| `SessionRuns.EmptyDiskIsFresh` | app/watch_session.py:172-248 | an empty disk meets every invariant, so the run theorems apply from first use |
| `SessionRuns.MarkerSurvivesCrash` | app/watch_session.py:123-138 | dying after the terminal record and before the receipt is repaired by the next observed row: it latches the session again and writes nothing |
| `SessionRuns.FinishNeedsStart` | app/watch_session.py:382-416 | the receipt after finishing an iteration is well formed if and only if one was started |
| `SessionRuns.FinishFirstStrands` | app/watch_session.py:382-416 | finishing without starting leaves a receipt that no later run can replace |
| `WatchSessionObject.Files.WriteJournal` | app/watch_session.py:100-142 | one write extends the file by its bytes |
| `WatchSessionObject.Files.CreateIfNew` | app/watch_session.py:99-106 | the header is written exactly when the journal is neither known to exist nor there |
| `WatchSessionObject.Files.AppendOpen` | app/watch_session.py:113-145 | the writes made and the answer are those planned for the open file |
| `WatchSessionObject.Files.Append` | app/watch_session.py:84-145 | the same for any starting file; the file grows as the theorems say and a latched file is left alone |
| `WatchSessionObject.Files.AppendFails` | app/watch_session.py:99-142 | an append whose write raises leaves a prefix of the planned bytes, which the growth theorem covers |
| `WatchSessionObject.ReplaceReceipt` | app/watch_session.py:39-60 | one to five attempts; success is that of the last attempt and of the retry rule as a whole; every earlier one failed in the retried way with time left, and a failure stopped at an attempt that must not be retried |
| `WatchSessionObject.WatchSession.constructor` | app/watch_session.py:149-170 | a new object is at the start of an empty trace |
| `WatchSessionObject.WatchSession.Safe` | app/watch_session.py:148-461 | every state of the object meets the invariant and its disk evolved as permitted |
| `WatchSessionObject.WatchSession.ObserveUnrecorded` | app/watch_session.py:251-254 | without an attested journal only the journal fields change |
| `WatchSessionObject.WatchSession.ObserveJournaled` | app/watch_session.py:255-285 | fails exactly when the journal refuses the row, and then changes nothing in memory |
| `WatchSessionObject.WatchSession.ObserveFails` | app/watch_session.py:255-259 | a raising write changes nothing in memory and is one failed event of the run |
| `WatchSessionObject.WatchSession.Observe` | app/watch_session.py:250-285 | fails exactly when the journal refuses the row or its write raises, and then changes nothing in memory; otherwise touches only the journal fields |
| `WatchSessionObject.WatchSession.Store` | app/watch_session.py:346-361 | the receipt is replaced exactly when it fits, its temporary file was written and the retried rename works |
| `WatchSessionObject.WatchSession.Write` | app/watch_session.py:346-361 | the same, and a receipt so stored can be resumed from and keeps exhaustion |
| `WatchSessionObject.WatchSession.ReleaseLease` | app/watch_session.py:418-435 | the lease is given up and nothing on disk changes |
| `WatchSessionObject.WatchSession.TakeLease` | app/watch_session.py:172-214 | the lease is held only with the fresh state derived from the stored receipt |
| `WatchSessionObject.WatchSession.Announce` | app/watch_session.py:215-238 | the boundary with the prior session, where there is one, is journaled before the start |
| `WatchSessionObject.WatchSession.Enter` | app/watch_session.py:172-248 | entering is all or nothing: held with a stored resumable receipt of this session, or not held with the old receipt in place; exhaustion is inherited |
| `WatchSessionObject.WatchSession.StartIteration` | app/watch_session.py:372-380 | on success the stored receipt is the old one, running, with an unfinished iteration under the given number and starts; on failure the stored receipt is unchanged |
| `WatchSessionObject.WatchSession.FinishStarted` | app/watch_session.py:382-416 | the iteration is marked finished under its own number, journaled and stored, in that order |
| `WatchSessionObject.WatchSession.FinishUnstarted` | app/watch_session.py:382-416 | without a start the state is one that no validator accepts, and it is stored if the write works |
| `WatchSessionObject.WatchSession.FinishIteration` | app/watch_session.py:382-416 | both cases of the call, told apart by whether an iteration was started |
| `WatchSessionObject.WatchSession.Exit` | app/watch_session.py:437-461 | the lease is released on every path; completed, cancelled, failed startup and failure are recorded each exactly for its cause, a failed startup for an error before any iteration; nothing but stage, end and outcome changes |
| `WatchSessionObject.WatchSession.BoundaryTells` | app/watch_session.py:215-238 | the boundary row tells whether the prior session was finished and dates the end of what is known |
| `Provenance.MatchingRows` | app/alerts/provenance_diagnostics.py:125-136 | an inspection is about exactly the open rows up to the snapshot, in id order |
| `Provenance.SelectAfter` | app/alerts/provenance_diagnostics.py:125-138 | paging by the last id seen gives exactly the rest of the rows: none skipped, none repeated |
| `Provenance.QueryIsNext` | app/alerts/provenance_diagnostics.py:132-136 | a page is the next rows of the inspection, as many as the batch allows |
| `Provenance.WarnKeepsCache` | app/alerts/provenance_diagnostics.py:72-88 | the cache of warned issues stays duplicate-free and within 1024 entries |
| `Provenance.CacheIsMostRecent` | app/alerts/provenance_diagnostics.py:72-88 | over any calls the cache holds exactly the 1024 most recently seen fingerprints, oldest first, whether or not they were warned |
| `Provenance.PassAccounts` | app/alerts/provenance_diagnostics.py:137-165 | every issue found is either warned or suppressed and either detailed or counted as omitted, within budget and detail limit |
| `Provenance.ReasonsCountRows` | app/alerts/provenance_diagnostics.py:137-165 | the count under each reason is the number of rows with that reason |
| `Provenance.ReportAccounts` | app/alerts/provenance_diagnostics.py:91-168 | the same identities for every report, including one cut short by a database error, and incomplete coverage means the limit was used up |
| `Provenance.Diagnostics.WarnOnce` | app/alerts/provenance_diagnostics.py:72-88 | one warning step of the least-recently-used cache |
| `Provenance.Diagnostics.InspectRow` | app/alerts/provenance_diagnostics.py:138-151 | one row's share of the tally |
| `Provenance.Diagnostics.InspectPage` | app/alerts/provenance_diagnostics.py:137-151 | a page processes a prefix of its rows, all of them unless the database fails |
| `Provenance.Diagnostics.VisitPage` | app/alerts/provenance_diagnostics.py:137-154 | after a page the counters are those of the rows up to there, and the cursor is the last id inspected |
| `Provenance.Diagnostics.NextPage` | app/alerts/provenance_diagnostics.py:131-154 | pages make progress and never pass the limit; a short page means the end |
| `Provenance.Diagnostics.Collect` | app/alerts/provenance_diagnostics.py:91-168 | the paged loop's report is that of one unpaged pass over the first rows up to the limit; coverage is complete exactly when all rows fitted; bad limits are errors that change nothing |
| `Provenance.FingerprintsDiffer` | app/alerts/provenance_diagnostics.py:73-75 | distinct rows have distinct fingerprints |
| `Provenance.PassEmitsNext` | app/alerts/provenance_diagnostics.py:72-88 | a pass warns exactly the next ten issues not warned before |
| `Provenance.WarnOnceIsFair` | app/alerts/provenance_diagnostics.py:72-168 | over any number of passes on an unchanged table with at most 1024 issues, every issue is warned, in order, exactly once |
| `Provenance.Diagnostics.CollectTimes` | app/alerts/provenance_diagnostics.py:91-168 | k calls of the collector on one table emit exactly min(10k, n) warnings, and the cache then holds the first so many of the n issues within the limit |
| `RetryPolicy.StatusSummary` | app/watch_iteration.py:100-149 | the counting loop computes the counts of the three failure classes and the two provenance counters |
| `RetryPolicy.CountsStep` | app/watch_iteration.py:100-149 | each further delivery raises exactly one counter or none: retryable before uncertain before finally failed |
| `RetryPolicy.OutboxPartialIff` | app/watch_iteration.py:150-157 | the outbox phase is partial if and only if some counter is not zero |
| `RetryPolicy.FailedPhaseBacksOff` | app/watch_retry_policy.py:20-36 | for every phase map, any phase that is neither success nor skipped backs off as an operational failure; only a partial outbox is looked at further |
| `RetryPolicy.NoFailureIff` | app/watch_retry_policy.py:20-36 | no failure is reported if and only if every phase succeeded or was skipped, and then there is no back-off |
| `RetryPolicy.AvoidsBackoffIff` | app/watch_retry_policy.py:20-68 | for every phase map, counts and summary: no back-off if and only if nothing failed, or the outbox alone is partial and a finished, consistent inspection with something to report is all there is to it |
| `RetryPolicy.ObservedPassesPolicy` | app/watch_retry_policy.py:57-65 | the evidence test of the policy accepts every report of a finished inspection that has anything to report |
| `RetryPolicy.BackoffEndToEnd` | app/watch_retry_policy.py:20-68 | with the rest healthy, back-off is due if and only if the inspection failed, or a delivery failed, or an unrecognised delivery meets provenance issues; and the reason given otherwise |
| `RetryPolicy.BackoffForKnownStatuses` | app/watch_retry_policy.py:20-68 | for known statuses: back-off if and only if the inspection failed or a delivery failed; provenance issues alone never cause it |
| `RetryPolicy.MissingEvidenceBacksOff` | app/watch_retry_policy.py:20-68 | missing summary or provenance evidence backs off, whatever the other phases say |
| `RetryPolicy.EligibilityMonotone` | app/watch_retry_policy.py:20-36 | making phases worse never cancels a back-off |
| `Schedule.RoundHalfEven` | app/watch_supervisor.py:181-182 | the rounded number is within one half of the value, and even on a tie |
| `Schedule.BranchesAreClosedForm` | app/watch_supervisor.py:112-119 | the three branches equal one ceiling expression and pick the least multiple reached within tolerance |
| `Schedule.CadenceClosedForm` | app/watch_supervisor.py:104-121 | the same for every finish time, early ones included |
| `Schedule.NextStart` | app/watch_supervisor.py:90-135 | the cadence point is the first whole interval reaching the later of the given finish and the actual start; the next start is the later of that point and the finish plus the delay, so never before one interval, the finish, the actual start or the delay |
| `Schedule.NotBindingIff` | app/watch_supervisor.py:104-135 | a delay does not bind if and only if the next start is the later of cadence point and finish |
| `Schedule.ScheduledIff` | app/watch_supervisor.py:90-103 | there is a schedule if and only if the interval is positive |
| `Schedule.StartsAfterFinish` | app/watch_supervisor.py:90-135 | in any run, no start is before the previous iteration started, ended and its delay passed |
| `Schedule.NextStartMonotone` | app/watch_supervisor.py:90-135 | finishing later or backing off longer never starts earlier nor misses fewer intervals |
| `Schedule.NoDrift` | app/watch_supervisor.py:90-135 | over any run the start is never before the exact grid point, and without a binding back-off never more than the accumulated tolerance after it |
| `Schedule.BackoffMonotone` | app/watch_supervisor.py:53-62 | delays never decrease with failures and stay within the cap |
| `Schedule.DefaultBackoff` | app/watch_supervisor.py:53-62 | with the shipped constants: 5 doubled per failure, and 300 exactly from the seventh failure on |
| `Schedule.DiscoveryWithinCeiling` | app/watch_supervisor.py:65-87 | the jittered delay lies between half the ceiling and the ceiling, up to half a millisecond of rounding |
| `Schedule.DiscoveryAboveHalf` | app/watch_supervisor.py:65-87 | it is above half the ceiling if and only if the jitter is worth more than half a millisecond |
| `Schedule.HalfCeilingIsReached` | app/watch_supervisor.py:65-87 | jitter 0 gives exactly half |
| `Schedule.JitterRefusedIff` | app/watch_supervisor.py:65-87 | a jitter is refused if and only if it lies outside the unit interval |
| `Supervisor.EvaluationsNotEarlier` | scripts/run_scan.py:4313-4320 | a re-evaluation with worse phases and a later clock never shortens the back-off nor starts earlier |
| `Supervisor.PhasesWorsen` | scripts/run_scan.py:3905-4153 | the phases at later points of an iteration are no better than at earlier ones |
| `Supervisor.ReevaluationNotEarlier` | scripts/run_scan.py:3926-4178 | of the up to four evaluations of one iteration, no later one starts the next iteration earlier |
| `Supervisor.FailedStepIsBad` | scripts/run_scan.py:3905-4178 | an iteration with a failed scan phase, save, storage, manifest or output counts as a failure |
| `Supervisor.HealthyIsNotBad` | scripts/run_scan.py:3905-4178 | one in which everything succeeded or was skipped does not |
| `Supervisor.RetryDelay` | scripts/run_scan.py:3788-3850 | after k failures in a row the next start is at least 5 seconds doubled k times, at most 300, after the end; half of that, up to half a millisecond, for a failed discovery; no delay after success |
| `Supervisor.PolicyMeans` | scripts/run_scan.py:4313-4320 | a failure is counted exactly when the policy finds one, and delayed exactly when the loop also goes on |
| `Supervisor.BadSuffixIsLongest` | scripts/run_scan.py:3788-3800 | the specified streak is the longest run of bad attempts at the end |
| `Supervisor.StartsOnCadence` | app/watch_supervisor.py:90-135 | the no-drift bounds for the starts of any history of attempts |
| `Supervisor.WatchLoop.constructor` | scripts/run_scan.py:3733-3735 | the loop starts with no failures |
| `Supervisor.WatchLoop.Complete` | scripts/run_scan.py:3926-4192 | a finished iteration counts its failure once however often it is re-evaluated, and schedules by the last evaluation |
| `Supervisor.WatchLoop.Break` | scripts/run_scan.py:3926-4017 | a fatal storage error after the scan is evaluated once and leaves the schedule alone |
| `Supervisor.WatchLoop.Raise` | scripts/run_scan.py:3788-3850 | a raised iteration counts only when recoverable, a fatal one ends the loop unscheduled, and the second schedule is not earlier than the first |
| `Supervisor.WatchLoop.Iterate` | scripts/run_scan.py:3761-4192 | one attempt moves streak and start to the specified next ones; a fatal one, or one that is not continued, leaves the start alone |
| `Supervisor.WatchLoop.RunFor` | scripts/run_scan.py:3753-4192 | the loop over attempts that are all continued |
| `Supervisor.WatchLoop.RunAll` | scripts/run_scan.py:3753-4192 | the loop with the iteration limit: the attempt the limit ends counts for the streak and not for the schedule |
| `Supervisor.Specified` | scripts/run_scan.py:3753-4192 | the longest bad suffix and the folded start of each prefix of a history follow one another by the step of one attempt |
| `Supervisor.WatchLoop.Run` | scripts/run_scan.py:3733-4192 | after any history the streak is the longest bad suffix, the start is that of the history, and the loop stopped at the first fatal attempt, at the iteration limit or at the end, and nowhere else |
| `Supervisor.WatchLoop.RunOnCadence` | scripts/run_scan.py:3733-4192 | the loop's own starts keep to the grid as the no-drift theorem says |
| `WatchState.UpdateKeeps` | app/watch_mode.py:397-441 | one update keeps every symbol's flags, counts and history in agreement and only adds to the history |
| `WatchState.FoldKeeps` | scripts/run_scan.py:3860-3903 | the same for a batch with distinct symbols |
| `WatchState.FoldCounts` | scripts/run_scan.py:3860-3903 | a batch raises a symbol's activation count by exactly its alerts in the batch |
| `WatchState.AtMostOnceIff` | scripts/run_scan.py:3860-3903 | every symbol is activated at most once after a batch if and only if no two alerting results share a symbol |
| `WatchState.RunKeeps` | app/watch_mode.py:356-441 | over any number of iterations, saved or not, the agreement holds, invalidation is permanent and histories only grow |
| `WatchState.AlertsConserved` | app/watch_mode.py:397-441 | over any run, final activations are initial ones plus alerts delivered in saved iterations |
| `WatchState.AlertedAtMostOnce` | app/watch_mode.py:356-372 | over any run with distinct results, at most one saved alert per symbol ever |
| `WatchState.AlertSources` | app/watch_mode.py:617-625 | an alert only follows a near-miss or pending status or a watch readiness; the rejected ones among the listed statuses never lead to one |
| `WatchState.AlertsIff` | app/watch_mode.py:356-394 | in a sound state a reading is alerted if and only if alerts are on and delivered, it is a selected valid setup of one of the two tradable qualities with an idea past its gate, and the symbol is tracked, not invalidated, not alerted before, not at a valid setup, and last seen as a near miss or on watch |
| `WatchState.AlertedDeservedIt` | scripts/run_scan.py:3860-3903 | a symbol alerted in a batch had such a reading in it |
| `WatchState.FoldHistory` | app/watch_mode.py:397-441 | a batch adds to a symbol's history exactly one entry per result that ran, with that result's status, readiness, quality and alert |
| `WatchState.RunRecords` | app/watch_mode.py:397-441 | over any run a history grows by exactly the results of the saved iterations, and a symbol is invalidated if and only if it was before or one of those results ends its watch |
| `WatchState.NoAlertAfterVerdict` | app/watch_mode.py:397-441 | in every sound state no alert follows an entry that ended the watch of its symbol |
| `WatchState.AlertedOnceIff` | scripts/run_scan.py:3860-3922 | over any run, saved and lost alerts of a symbol together are at most one if and only if no alert whose save failed is followed by another |
| `WatchState.SavedAlertIsLast` | app/watch_mode.py:356-372 | after a saved alert no later iteration alerts the symbol |
| `WatchState.SavedRunsAlertOnce` | scripts/run_scan.py:3860-3922 | when every save works, a symbol is alerted at most once ever |
| `WatchState.InvalidatedNeverAlerts` | app/watch_mode.py:356-372 | an invalidated symbol is never alerted in any run, whatever is saved |
| `WatchState.FailedSaveAlertsAgain` | scripts/run_scan.py:3905-3922 | an alert lost by a failed save is delivered again |
| `WatchState.ApplyResults` | scripts/run_scan.py:3860-3903 | the loop computes the folded state and alerts each symbol as often as counted |
| `WatchState.SeedMapMeans` | app/watch_mode.py:301-339 | existing symbols are untouched, a new one appears exactly when targeted and reported, with its first report |
| `WatchState.Seed` | app/watch_mode.py:281-339 | seeding fails exactly on a mismatched epoch with something to seed; otherwise the state is the seeded one |
| `WatchState.SeedKeeps` | app/watch_mode.py:281-339 | seeding keeps all agreement invariants and every existing symbol |
| `WatchState.SeedDisagreesIff` | app/watch_mode.py:315-334 | seeding a symbol and updating it with the same result give the same state if and only if the result is not rejected for its quality alone |
| `WatchState.LostVerdictAlerts` | app/watch_mode.py:315-334 | such a result, once seeded, is alerted by the next valid reading; after an update it is never alerted in any run |
| `WatchState.RejectedNearMiss` | app/watch_mode.py:560-575 | a near miss of rejected quality is such a result |
| `WatchState.WatchSymbols` | app/watch_mode.py:342-353 | the loop yields the candidates |
| `WatchState.Candidates` | app/watch_mode.py:342-353 | each tracked candidate among the upper-cased symbols, once |
| `WatchState.WatchedMayAlert` | app/watch_mode.py:342-372 | a symbol on watch is alerted by its next valid reading, unless it was alerted before or is at a valid setup |
| `WatchState.NearMissesAreWatched` | app/watch_mode.py:342-353 | every tracked near miss or watch label that is not invalidated is on watch |
| `WatchStore.StateFile.constructor` | app/watch_mode.py:188-224 | a file with no save under way |
| `WatchStore.StateFile.Open` | app/watch_mode.py:175-185 | a writer remembers the stamp it loaded |
| `WatchStore.StateFile.Verify` | app/watch_mode.py:194-210 | the check passes exactly when the path is allowed, the stored file can be read and neither stamp test refuses |
| `WatchStore.PassesIff` | app/watch_mode.py:194-210 | the stamp tests pass if and only if the file has no stamp, or is not newer than the state to save nor, for a guarded writer, than what that writer loaded |
| `WatchStore.CurrentWriterPasses` | app/watch_mode.py:194-210 | a writer that is up to date and does not go back in time is never refused |
| `WatchStore.StateFile.Finish` | app/watch_mode.py:211-224 | the temporary file replaces the stored one as a whole or not at all |
| `WatchStore.StateFile.Save` | app/watch_mode.py:188-224 | without another writer in between: saved exactly when all three hold, otherwise unchanged, and never an older stamp |
| `WatchStore.GoesBackIff` | app/watch_mode.py:188-224 | over every interleaving of loads, checks, renames and failed writes by any number of writers, the stored stamp goes back if and only if a newer save is renamed between an older save's check and rename, or an unstamped state is saved after a stamped one |
| `WatchStore.ExclusiveNeverGoesBack` | app/watch_mode.py:188-224 | stamped writers of which at most one is between check and rename never put the file back |
| `WatchStore.StaleSaveRefused` | app/watch_mode.py:203-208 | once the file is newer than what a writer loaded, its guarded check fails however the others go on without putting the file back |
| `WatchStore.RacingSavesLoseTheNewer` | app/watch_mode.py:188-224 | the run in which two writers check, the newer renames first and the older last |
| `MarketCap.SelectMembers` | app/universe/symbol_universe.py:813-856 | the loop chooses the matching admissible contracts, each once, in order |
| `MarketCap.StrictUniverseClean` | app/universe/symbol_universe.py:732-856 | however it is ranked, a strict universe lists upper-case symbols, each once, each an admissible contract |
| `MarketCap.ContractIsTradable` | app/universe/symbol_universe.py:732-811 | every admitted contract is a tradable perpetual of the quote currency, not excluded, whose symbol is its base followed by the quote |
| `MarketCap.TradableIsContract` | app/universe/symbol_universe.py:732-811 | every such contract is admitted |
| `MarketCap.MemberIs` | app/universe/symbol_universe.py:813-856 | every member of the strict universe is liquid, tradable, and pointed to by an asset of the cohort with the same base |
| `MarketCap.IsMember` | app/universe/symbol_universe.py:813-856 | every such symbol is a member |
| `Queue.LoadSymbols` | app/watch_mode.py:241-261 | the loop yields the upper-cased symbols of the saved run, each once |
| `Queue.SavedIff` | app/watch_mode.py:241-261 | a symbol is loaded if and only if some result of the saved run, or some near miss of it, names it |
| `Queue.NearMissesListed` | scripts/run_scan.py:1545-1581 | prior near misses of an upper-case watchlist are symbols of that watchlist |
| `Queue.ResolveInside` | scripts/run_scan.py:1491-1502 | every way of resolving an upper-case strict universe stays inside it |
| `Queue.PrioritizeInside` | scripts/run_scan.py:3133-3226 | lifecycle priority adds nothing from outside |
| `Queue.RoundsInside` | scripts/run_scan.py:3133-3226 | neither do any number of rounds |
| `Queue.StrictMembership` | scripts/run_scan.py:3295-3305 | from switches to queue, over any number of iterations, every queued symbol belongs to the upper-case strict universe |
| `Queue.QueueIs` | scripts/run_scan.py:3236-3305 | from switches to queue: without a plan the queue is the watchlist in its order; with one, a symbol is queued if and only if it is in the watchlist and not cooling down |
| `Queue.QueuedIff` | scripts/run_scan.py:3295-3305 | for any watchlist and plan, a symbol is queued if and only if it is planned, or listed without a plan, and inside the universe if that is strict |
| `Queue.UniverseIs` | scripts/run_scan.py:1750-1815 | without a cap a watchlist is the universe, with the included symbols unless it is strict, minus the excluded ones; it fails if and only if nothing is left; a strict universe reports exactly the included symbols outside it as ignored |
| `Queue.CapKeepsFirst` | scripts/run_scan.py:1750-1815 | a cap must be positive and keeps exactly the first symbols; it is reported as applied exactly when it cost one its place |
| `Queue.PlainResolve` | scripts/run_scan.py:1490-1502 | without the watch switches, resolving is that |
| `Queue.SymbolsCapped` | scripts/run_scan.py:1648-1684 | a cap on a saved or near-miss list must be positive and keeps exactly the first symbols; it is reported exactly when it cost one its place |
| `Queue.WithinBoundary` | scripts/run_scan.py:1505-1542 | under a strict universe, capped or not, a saved run is cut to exactly the symbols of that watchlist, fails exactly when none is left, and reports the rest |
| `Queue.SavedRunIs` | scripts/run_scan.py:1505-1684 | without a cap, watching a saved run lists exactly its symbols that are not excluded and, under a strict universe, inside it; it fails if and only if there is none |
| `Queue.NearMissRunIs` | scripts/run_scan.py:1545-1581 | without a cap and for upper-case symbols, watching near misses lists exactly the symbols on watch, or the saved near misses if there are none, inside the universe's watchlist; it fails if and only if there is none |
| `Queue.ContinuedIs` | scripts/run_scan.py:1584-1645 | without a cap, continuing a watch adds exactly the tracked and the saved candidates, or under a strict universe reports those outside it; it fails if and only if the universe does |
| `Queue.ExtendCapped` | scripts/run_scan.py:1584-1645 | with a cap, continuing keeps the first symbols, the watchlist before the others, and reports the cap exactly when it cost one its place |
| `Queue.ResolveKeepsKind` | scripts/run_scan.py:1484-1815 | no way of resolving makes a universe strict or takes its strictness away, and the universe kept lists the watchlist's symbols |
| `Queue.MarketCapMembership` | app/universe/symbol_universe.py:584-587 | the same for the universe the market-cap mode resolves to, whose queued symbols are also admissible liquid contracts |
| `Queue.ResolveClean` | scripts/run_scan.py:1484-1814 | every way of resolving lists upper-case symbols, each once |
| `Queue.RoundsClean` | scripts/run_scan.py:3133-3226 | any number of lifecycle rounds keep that |
| `Queue.QueueClean` | scripts/run_scan.py:3236-3305 | the queue of every iteration, adaptive or not, lists symbols of its watchlist, each once |
| `Queue.PriorityShape` | scripts/run_scan.py:3133-3226 | the queue is the admitted active symbols followed by the first other symbols that fit, without duplicates |
| `Queue.PriorityLength` | scripts/run_scan.py:3158-3166 | the cap is exceeded only by active symbols, and no active symbol is dropped |
| `Queue.PriorityFills` | scripts/run_scan.py:3133-3226 | without a cap every symbol and every admitted active one is queued; with a cap the queue is filled up to it |
| `Queue.PriorityOkIff` | scripts/run_scan.py:3133-3166 | a round fails if and only if it is on with a cap below one, and leaves a settled watchlist alone |
| `Queue.PriorityReports` | scripts/run_scan.py:3133-3226 | the added, dropped, active and ignored symbols reported are exactly those, the excess over the cap is that of the active ones, and the cap is reported as applied exactly when a symbol lost its place |
| `Queue.PriorityConserves` | scripts/run_scan.py:3133-3226 | for any list, original plus added equals queued plus dropped if and only if no kept symbol is listed twice |
| `Queue.PriorityIdempotent` | scripts/run_scan.py:3133-3226 | prioritising again changes nothing |
| `Outcomes.CountsSucceedIff` | app/watch_iteration.py:32-54 | counting succeeds if and only if the queue has no duplicates and each queued symbol has one result with an outcome; the counts then add up to the queue |
| `Outcomes.Validated` | app/pipeline/scanner_runner.py:723-744 | a given outcome is kept; a missing one is not run, timed out, errored, rejected or evaluated, each exactly for its status, not run before timed out before the others |
| `Outcomes.CollectedKeyed` | scripts/run_scan.py:4749-4750 | the collected results are stored under their own symbols |
| `Outcomes.CollectedIsLast` | scripts/run_scan.py:4749-4750 | a symbol is collected if and only if it was reported, and then with its last report |
| `Outcomes.LastIsLast` | scripts/run_scan.py:4749-4750 | no later report is of the same symbol |
| `Outcomes.ShownMeans` | scripts/run_scan.py:4375-4404 | the outcome and the reason that a cancelled iteration shows for each symbol, finished or not |
| `Outcomes.FillNotRun` | scripts/run_scan.py:4756-4758 | results present are kept, missing queued symbols become not run, nothing else is added |
| `Outcomes.Combined` | scripts/run_scan.py:1922-1926 | the combined results are those of the watchlist's symbols |
| `Outcomes.FilledCountsSucceedIff` | scripts/run_scan.py:4756-4778 | after filling, counting succeeds if and only if the queue is duplicate-free, inside the watchlist, and listed there once |
| `Outcomes.Cancelled` | scripts/run_scan.py:4340-4404 | the loop's counts add up to the queue and every queued symbol is shown |
| `Outcomes.CancelledTotal` | scripts/run_scan.py:4360-4374 | the counts of a cancelled iteration always add up to the queue |
| `Outcomes.CancelledAgreesIff` | scripts/run_scan.py:4360-4404 | the counts agree with the outcomes shown if and only if the queue has no duplicates and every finished result has an outcome |
| `Iteration.AccountedDistinct` | scripts/run_scan.py:4790 | results that pass the accounting name no symbol twice |
| `Iteration.NotRunIsLeftAlone` | scripts/run_scan.py:3860-3903 | a symbol whose result was not run is not alerted and keeps its watch state |
| `Iteration.RunsStaySound` | scripts/run_scan.py:3860-3922 | over every run of scans, with failed saves and a fatal accounting anywhere, the watch state stays sound, only grows, and records at most one alert per symbol |
| `Iteration.RunsAlertOnceIff` | scripts/run_scan.py:3860-3922 | over every such run at most one alert per symbol is delivered if and only if no alert whose save failed is followed by another |
| `Iteration.AccountingSucceeds` | scripts/run_scan.py:4749-4790 | from switches to results, the accounting never fails and its counts add up to the queue |
| `Iteration.CountsAreSymbols` | scripts/run_scan.py:4749-4790 | from switches to counts, each count is the number of queued symbols whose last report has that outcome, or, for not run, that have no report |
| `Iteration.CancelledAgrees` | scripts/run_scan.py:4360-4404 | from switches to summary, a cancelled iteration's counts agree with the outcomes it shows |
| `Iteration.PriorityAccounts` | scripts/run_scan.py:3133-3226 | from switches to priority, original plus added equals queued plus dropped |
| `Iteration.EveryTurnTaken` | scripts/run_scan.py:4749-4790 | no iteration of a run ends it by its accounting |
| `Evidence.SortSorted` | app/analytics/execution_evidence_strata.py:22-44 | sorting orders the rows |
| `Evidence.SortedUnique` | app/analytics/execution_evidence_strata.py:22-44 | two orders of the same rows sort to the same list |
| `Evidence.OrderDoesNotMatter` | app/analytics/execution_evidence_strata.py:22-44 | the summary depends only on which rows there are |
| `Evidence.MixedIff` | app/analytics/execution_evidence_strata.py:22-71 | the counts cover all rows; the overall verdict is mixed if and only if two rows report different strata, and a single stratum if and only if all rows, at least one, report it |
| `Evidence.ReportedIff` | app/analytics/execution_evidence_strata.py:53-71 | which supplied status, in any case and between any blanks, gives which stratum; none, a blank one or n/a is unavailable |
| `Basics.DedupeLoop` | app/watchlists/presets.py:89-97 | the loop keeps the first of each symbol |
| `Basics.DedupePrefix` | app/watchlists/presets.py:89-97 | later elements only add to the end, so each first occurrence is kept, in order |

## Left out

- The rest of the repository (indicators, setups, exchanges, Telegram formatting, reports, command line): not part of the watch runtime's safety.
- The operating system's file lock: taking the lease is one step; that only one process gets it is assumed.
- Symbolic-link, directory and permission checks on the session's paths.
- JSON parsing and text encoding: a receipt or header is given as what the parser yields or refuses.
- Surrounding blanks in symbols: every reader strips them, and only the exchange fields are modelled with them.
- WatchSessionObject.WatchSession.Write: an error while removing the temporary file, after or instead of the rename, is not modelled.
- WatchSessionObject.WatchSession.ReleaseLease: errors of unlocking and closing are not modelled; the lease is gone either way.
- WatchSessionObject.WatchSession.Exit: the texts of combined errors are not modelled.
- Provenance.Diagnostics.Collect: the table is a fixed snapshot; rows changed by another process between two pages are not modelled.
- Provenance.WarnOnceIsFair: says nothing for more than 1024 simultaneous issues, where entries are evicted.
- RetryPolicy.StatusSummary: the counters of sent, skipped, blocked and audited deliveries, which decide nothing here, are not modelled.
- RetryPolicy.BackoffEndToEnd: a delivery whose status or detail is not text is not modelled.
- Schedule.NoDrift: real arithmetic; accumulated floating-point error is not captured.
- Schedule.DiscoveryAboveHalf: stated for the shipped base and maximum, whose ceilings are whole seconds.
- Supervisor.WatchLoop.Raise: the classification of an exception as recoverable or fatal is given.
- WatchState.Seed: gate names, readiness scores and display fields are not carried.
- MarketCap.SelectMembers: how an asset's identity points to a contract is given, as is the ranking of the chosen ones.
- Queue.PriorityConserves: the list of promoted symbols and the source label are not modelled.
- Queue.PriorityShape: the order of active symbols is given, not derived from lifecycle records.
- Queue.QueueClean: the priority order of the adaptive plan is given; only that it is a reordering is used.
- Outcomes.CountsSucceedIff: the overall scanner phase derived from the same counts is not modelled.
- Outcomes.Validated: the refusal of a not-run result without a reason is not modelled.
- Evidence.OrderDoesNotMatter: the row-to-text encoding is given; it must tell different rows apart.
