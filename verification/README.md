# Verified models of the trading system's hard logic

A Dafny model of five parts of the repository, with machine-checked proofs of
what they keep. `dafny verify dfyconfig.toml` checks all of it.

| file | what it models |
|---|---|
| `RejectionPersist.dfy` | Scanner rejections written by many threads over an unreliable link: the atomic actions (one database call, or one section under the counter lock), an adversary that picks every insert's fate, and the tracker class whose methods perform those actions. |
| `SingleFlight.dfy` | The get / lock / get / fetch / set read of one cache key by any number of threads, including the reference-counted registry the lock comes from. |
| `MarkerLines.dfy`, `MarkerLog.dfy`, `MarkerRotation.dfy`, `NightlyRunner.dfy`, `NightlyProcess.dfy`, `LockWindow.dfy` | The nightly runner: marker lines as strings, the text that whole and torn appends make of them, log rotation under failing file operations, the protocol of all nights on one host, one process method by method, and the lock with its create and its write taken apart. |
| `JobDispatch.dfy`, `JobLifecycle.dfy`, `RetryScan.dfy` | A job row from dispatch through the pause gate, the go-live gate and the idempotency key, through queue workers and a polling worker, to the retry scan; every database read and write of a dispatch and of the scan is a step of its own. |
| `OptionTypes.dfy`, `LegSelection.dfy`, `ComboCost.dfy`, `RiskPrimitives.dfy`, `EvCalculator.dfy` | Choosing legs by bisection, the four separately written price figures, maximum loss and profit against the payoff at expiry, and expected value, probability of profit and Kelly sizing. |
| `CondorLegs.dfy`, `CondorSearch.dfy`, `CondorMemo.dfy` | Building one iron condor, the grid search over all of them, and what the search's memo does under each EV model. |
| `ScanOrder.dfy` | A symbol's strategies tried in turn, results collected in any completion order, and the final sort. |
| `Backtest.dfy` | Aligned portfolio returns, compounding and the one-pass maximum drawdown. |
| `Common.dfy` | Options, minima and a few facts about sets, sequences and products. |

Protocols (rejections, cache, nightly runner, job rows) are state machines over
their atomic actions. Their theorems quantify over every sequence of actions
from the initial state or from any well-formed one, whatever the adversary
chooses. The tracker class and the nightly process carry their run as ghost
state and prove that each method is such a sequence; the guarded cache read, the
dispatch and the scan are proved equal to their actions with nobody in between.
Prices, deltas and probabilities are reals.

Where the code and its documentation differ, or a property one would expect is
false, the model follows the code and states when it holds:

- The retry scan says it re-queues every retryable row below the limit. It asks
  for a finish time within four hours, and the database function that records a
  retryable failure sets none, so the scan never picks up a job's first failure
  (`RetryScan.FirstFailureIsStuck`). The older polling worker would: its
  `claim_job_run` selects rows that failed retryably
  (supabase/migrations/20251220000001_job_runs_db_queue.sql:60), as does an
  administrator's retry (`RetryScan.RescueMovesIt`).
- The scan's updates name a row by its id and test nothing else. They do what
  the scan says when no worker and no administrator acts on the row in between
  (`RetryScan.UpdatesMeetSelection`, `RetryScan.SpoiledIff`); otherwise a success
  can be re-queued or dead-lettered (`RetryScan.UpdateUndoesSuccess`).
- A worker refuses a settled row only when it loads it, so a success can be
  overwritten by whoever already holds the row (`JobLifecycle.SettledIffQuiet`).
- persist_failures can exceed the rows missing; exactly when is
  `RejectionPersist.FailuresExactIff`.
- A failed or garbled read of the lock file gives owner 0, and so does the empty
  file between the exclusive create and the write of the owner; owner 0 counts
  as stale, so a live process can lose its lock
  (`LockWindow.SeizingAdmitsTwoHolders`, `NightlyRunner.SeizingAdmitsTwoHolders`).
  One holder is guaranteed exactly while that does not happen to a live one. The
  nightly protocol takes create and write as one action.
- A failed append may leave the front of its line without a line break, and the
  next append continues that line. A marker can then be found that never landed
  (`NightlyRunner.TornStartIsBorrowed`); exactly when is
  `NightlyRunner.ContractBitsExact`.
- The memo key of the condor search has no long deltas, which the tail model
  reads. On a chain with two-decimal strikes and four-decimal deltas that loses
  nothing (`CondorMemo.AnyModelTransparent`); finer deltas can be confused
  (`CondorMemo.FineChainMisleads`).
- Rotation says the live file starts fresh for the run. When the last rename
  fails the live file stays as it was (`MarkerRotation.RotationNeverLosesLiveLog`);
  the contract does not depend on it, because lines are tagged.
- The search reports "credit below minimum" also when every quoted condor failed
  the four-leg check before its credit was looked at
  (`CondorSearch.ReasonNamesFirstEmptyStage`).
- The dispatch of a paused job says it leaves a cancelled record. It returns the
  existing row when there is one; and when there is none the cancelled row keeps
  the key, so no unforced dispatch of it ever pushes
  (`JobLifecycle.PausedDispatchBurnsKey`, `JobLifecycle.BurnedKeyNeverPushes`).
- A run that fails after its child ended well exits 1 and still pings UP when the
  contract is met (`NightlyProcess.Runner.Go`).

## Model

| member | source | states |
|---|---|---|
| RejectionPersist.StepKeepsInv | packages/quantum/options_scanner.py:375-568 | Every atomic action (an insert with any fate, a counter section, taking the buffer, a flush attempt) keeps the invariant tying rows, phases, buffer and the five counters together |
| RejectionPersist.EveryInterleaving | packages/quantum/options_scanner.py:306-334 | In every state any interleaving of threads and flushes reaches: one row per event id at most, the five counters sum to the counted persists, lost_after_retries covers the buffer, and stored rows cover every claimed success |
| RejectionPersist.FailuresCoverMissingRows | packages/quantum/options_scanner.py:375-568 | When all threads have returned, persist_failures is at least the number of events without a row |
| RejectionPersist.NoFailuresMeansExactlyOnce | packages/quantum/options_scanner.py:676-720 | persist_failures = 0 at the end means every event has exactly one row and there is no other row |
| RejectionPersist.FailuresExactIff | packages/quantum/options_scanner.py:375-568 | When all threads have returned, persist_failures equals the number of events without a row iff every event whose row some insert committed also had an insert answered cleanly; told from what the link did alone |
| RejectionPersist.FailureReportedForStoredRow | packages/quantum/options_scanner.py:435-465 | The condition can fail: a run in which a row is stored and yet counted as lost |
| RejectionPersist.PersistedMeaning | packages/quantum/options_scanner.py:432-465 | How a fresh event is classified, read off the link alone: new iff the first attempt is clean, lost iff no attempt is answered, an acknowledged duplicate iff the deciding attempt is clean and an earlier one committed silently |
| RejectionPersist.PersistedStores | packages/quantum/options_scanner.py:432-465 | The row is stored exactly when one of the attempts made commits |
| RejectionPersist.RejectionTable.Insert | packages/quantum/options_scanner.py:234-241 | The table after an insert with a given fate, and the reply the client sees: a repeated event id never makes a second row |
| RejectionPersist.RejectionStats.TryInsert | packages/quantum/options_scanner.py:435-458 | One attempt is one action of the protocol |
| RejectionPersist.RejectionStats.RecordPersistOutcome | packages/quantum/options_scanner.py:477-525 | Counts exactly one outcome in that outcome's own counter, leaves the other four, and buffers the row if it was lost |
| RejectionPersist.RejectionStats.PersistRejection | packages/quantum/options_scanner.py:375-475 | One rejection: an error while building the row counts one permanent failure and stores nothing; else the retry loop. Table, classification, which of the five counters goes up by one, and buffer, through actions of the protocol only |
| RejectionPersist.RejectionStats.InsertWithRetries | packages/quantum/options_scanner.py:432-465 | The retry loop classifies and stores as specified for every pattern of faults, through actions of the protocol only |
| RejectionPersist.RejectionStats.Reclassify | packages/quantum/options_scanner.py:546-563 | A recovered row moves from lost to recovered or duplicate, one counter down and one up |
| RejectionPersist.RejectionStats.FlushOne | packages/quantum/options_scanner.py:543-568 | One final attempt: table, phase and each of the five counters afterwards |
| RejectionPersist.RejectionStats.Flush | packages/quantum/options_scanner.py:527-568 | The buffer is empty afterwards, each row that was in it is counted as its one attempt found it, and no other row changes phase |
| RejectionPersist.BufferedRows | packages/quantum/options_scanner.py:324-330 | In every run the buffer holds distinct events that are all waiting for the flush |
| RejectionPersist.FlushMeaning | packages/quantum/options_scanner.py:543-568 | In any state a flush of a buffered row with a clean reply leaves the row stored and moves it from lost to recovered, or to the duplicates if it had been stored all along; any other reply leaves it lost |
| SingleFlight.LockRegistrySound | packages/quantum/services/market_data_cache.py:86-118 | In every interleaving at most one thread is between acquire and release, though lock objects are dropped and made anew; the registry is empty when all have left |
| SingleFlight.FetchesBoundedByExpiries | packages/quantum/market_data.py:674-687 | Successful fetches number at most one more than expiries, and every value returned was fetched |
| SingleFlight.SingleFetch | packages/quantum/market_data.py:674-687 | With no expiry in the window, any number of threads fetch at most once and all that return data return that value |
| SingleFlight.MarketDataCache.Get | packages/quantum/services/market_data_cache.py:57-70 | Returns the unexpired entry, evicting an expired one, and changes nothing else |
| SingleFlight.StoreThenGet | packages/quantum/services/market_data_cache.py:57-83 | A get at t1 after a set at t0 with time to live d answers iff t1 <= t0 + d, else the entry is gone; other keys are untouched |
| SingleFlight.MarketDataCache.EnterInflight | packages/quantum/services/market_data_cache.py:86-104 | Joins the key's live lock object or makes a new one, counting one more user |
| SingleFlight.MarketDataCache.LeaveInflight | packages/quantum/services/market_data_cache.py:105-118 | Counts one user fewer and drops the lock object with the last |
| SingleFlight.UninterruptedRead | packages/quantum/market_data.py:660-687 | In every state in which nobody is inside, the protocol's steps of one read, with nobody in between, have the outcome specified |
| SingleFlight.GetOptionChainSnapshot | packages/quantum/market_data.py:660-687 | The code has that outcome: a hit fetches nothing, a miss fetches once and stores a truthy answer with its time to live, and the registry is as before |
| MarkerLines.TagPinsRun | audit/runner/nightly_runner.py:1155-1159 | A bracketed run tag occurs in a line stamped with a run exactly when it is that run's: no id is a prefix of another's tag |
| MarkerLines.StartMatch | audit/runner/nightly_runner.py:935-1019 | Which rendered lines the start test accepts for a run: exactly its own start or aborted-start line |
| MarkerLines.EndMatch | audit/runner/nightly_runner.py:935-1019 | Which rendered lines the end test accepts for a run: exactly its own end line |
| MarkerLines.MissingListExact | audit/runner/nightly_runner.py:980-1019 | The missing list names exactly the absent artifact classes |
| MarkerLines.ContractMeaning | audit/runner/nightly_runner.py:935-1019 | Met iff all six artifacts are present; partial iff the child was clean after a start marker and something is absent |
| MarkerLog.TextShowsIff | audit/runner/nightly_runner.py:165-196 | However appends are torn and run together, some line of the text carries a mark and a run's tag iff two appends with no line break between them show the one and the other |
| MarkerLog.TagShownByOwner | audit/runner/nightly_runner.py:1155-1159 | An append, whole or torn, that shows a run's tag was made for that run |
| MarkerLog.TornBetweenIff | audit/runner/nightly_runner.py:165-196 | A torn start line shows its mark and not its tag iff it was cut at or after the end of the one and before the end of the other |
| MarkerLog.LinesAreFile | audit/runner/nightly_runner.py:165-196 | The finished lines and the unfinished last one are the text of the file |
| MarkerRotation.MarkerFiles.Rotate | audit/runner/nightly_runner.py:217-261 | For any keep setting and any pattern of failing operations, each generation afterwards is the one described by the rename loop, and the returned action says what happened |
| MarkerRotation.HoldsAfterUnique | audit/runner/nightly_runner.py:241-261 | That description fixes the files on disk |
| MarkerRotation.FlawlessIsShift | audit/runner/nightly_runner.py:241-261 | With no failure rotation is the exact shift: live to .1, .i to .i+1, the old .keep dropped, gaps kept, higher numbers untouched |
| MarkerRotation.FlawlessSetting | audit/runner/nightly_runner.py:217-261 | A keep setting of at least one keeps that many generations; a smaller one keeps one |
| MarkerRotation.RotationNeverLosesLiveLog | audit/runner/nightly_runner.py:241-261 | Whatever fails, the live log is in .1 or still live, and no generation holds anything but its own or its predecessor's log |
| MarkerRotation.GenerationsAreNewestFirst | audit/runner/nightly_runner.py:241-261 | After any number of rotations the generations are the most recent logs, newest first, and nothing else exists |
| NightlyRunner.OneHolder | audit/runner/nightly_runner.py:286-350 | Over every sequence of nights, duplicates, crashes and failing reads and unlinks in which no reclaim removes a live holder's lock that it failed to read, at most one live process holds the lock, and only it can rotate the log |
| NightlyRunner.SeizingAdmitsTwoHolders | audit/runner/nightly_runner.py:314-330 | Any reclaim that fails to read the lock of a live holder and removes it can be followed by two live holders |
| NightlyRunner.CrashIsReclaimed | audit/runner/nightly_runner.py:299-330 | A crashed holder keeps nobody out for good: the next process to start reclaims its lock and takes it |
| NightlyRunner.ContractSeesOwnLinesOnly | audit/runner/nightly_runner.py:935-1019 | In every run, whatever fails, a true start or end bit means a readable log that shows that run's own line, or the other of its lines on one text line with the front of a torn marker |
| NightlyRunner.ContractBitsExact | audit/runner/nightly_runner.py:935-1019 | Where no lock was seized the bits are true exactly when the log was readable and the run's line landed up to its tag or was borrowed so |
| NightlyRunner.UntornBorrowsNothing | audit/runner/nightly_runner.py:165-196 | In a log without a torn append nothing is borrowed: the bits are then the run's own lines |
| NightlyRunner.TornStartIsBorrowed | audit/runner/nightly_runner.py:165-196 | From any state: a start line cut at or after the end of its mark and before the end of its tag, followed by the run's whole end line, makes the log show a start the run never landed |
| NightlyRunner.UpPingIsEarned | audit/runner/nightly_runner.py:1410-1434 | In every run, whatever fails, an UP ping implies that the run's start and end lines landed or were borrowed, its child ended clean and in time, and manifest, report and transcript exist |
| NightlyRunner.DownPingHasCause | audit/runner/nightly_runner.py:1398-1434 | Where no lock was seized a DOWN ping implies a failed evaluation, an unreadable log or one of the six artifacts missing |
| NightlyRunner.PingMeaning | audit/runner/nightly_runner.py:1497-1540 | What a finished run is pinged, as a function of what its log shows and of the evidence |
| NightlyRunner.SweepIsExclusive | audit/runner/nightly_runner.py:1436-1447 | No process rotates the log while another live one holds the lock |
| NightlyProcess.Runner.TryLock | audit/runner/nightly_runner.py:299-312 | The exclusive create succeeds iff there is no lock file, and then writes this process as owner |
| NightlyProcess.Runner.ReclaimIfStale | audit/runner/nightly_runner.py:314-330 | The lock file is removed iff its owner is dead or it cannot be read, and the unlink works |
| NightlyProcess.Runner.Acquire | audit/runner/nightly_runner.py:299-312 | The lock is taken iff it was free, or its owner was dead or could not be read and the unlink worked, after at most one reclaim |
| NightlyProcess.Runner.EmitRaw | audit/runner/nightly_runner.py:1167-1182 | One append, whole or torn, is one action of the protocol, and one that is not whole, or raises after it landed, is counted as a failure |
| NightlyProcess.Runner.Release | audit/runner/nightly_runner.py:332-344 | Removes the lock file iff it is this process's or cannot be read, and the unlink works |
| NightlyProcess.Runner.JudgeAndPing | audit/runner/nightly_runner.py:1497-1540 | The contract re-read from the text of the log gives the ping that what the log shows deserves |
| NightlyProcess.Runner.Go | audit/runner/nightly_runner.py:1436-1542 | One whole night: exit 3 and no ping without the lock; with it the log ends in the run's two markers as far as each was written, the ping is UP iff both show or are borrowed and the other four artifacts are there, and the lock is freed on every path |
| LockWindow.CleanRunsHaveOneHolder | audit/runner/nightly_runner.py:299-330 | With create and write apart there is still one holder if no reclaim reads owner 0, from an empty or an unreadable file, while the process that made the file is alive; a crashed creator's empty file may be reclaimed |
| LockWindow.SeizingAdmitsTwoHolders | audit/runner/nightly_runner.py:314-330 | And only then: in every such state, any such reclaim can be followed by two holders, the robbed process and any newcomer |
| LockWindow.SeizureHappens | audit/runner/nightly_runner.py:299-330 | Both kinds of such a reclaim are reachable |
| LockWindow.CrashIsReclaimed | audit/runner/nightly_runner.py:314-330 | With create and write apart too, a crash leaves a file that any newcomer reclaims, and then holds |
| LockWindow.TwoReclaimsAtMost | audit/runner/nightly_runner.py:299-312 | No process reclaims more than twice, whatever happens |
| LockWindow.RobbedReleaseLeaves | audit/runner/nightly_runner.py:332-344 | A robbed holder that can read the file leaves another owner's or an empty one alone; one that cannot removes it |
| LockWindow.ReleaseFrees | audit/runner/nightly_runner.py:332-344 | In a clean execution a live holder's release frees the lock, whether it can read it or not |
| JobDispatch.LivePrefixDecides | packages/quantum/public_tasks.py:57-79 | A job needs live privileges iff its name starts with the prefix; the listed names add nothing |
| JobDispatch.DispatchPushesIff | packages/quantum/public_tasks.py:196-345 | A dispatch with nobody in between pushes iff not paused, a live job has a specific user whose gate is fully open, and its row is absent or not terminal; then it pushes that row |
| JobDispatch.CancelReasonMeaning | packages/quantum/public_tasks.py:196-290 | What each cancel reason means: the pause; the go-live gate, by user, mode and readiness; or approval by hand |
| JobDispatch.FreshKeyIsPushed | packages/quantum/public_tasks.py:309-345 | A key with no row that passes the gates is pushed, and pushed again by a second dispatch before its row is terminal |
| JobDispatch.FreshForceTouchesNothing | packages/quantum/public_tasks.py:297-312 | A forced dispatch with a fresh nonce leaves every existing row as it was, adds one queued row and pushes it |
| JobDispatch.ForcedKeysDistinct | packages/quantum/public_tasks.py:302-304 | Forced keys with nonces of equal length agree iff key and nonce agree |
| JobDispatch.ForcedKeysCanCollide | packages/quantum/public_tasks.py:302-304 | With nonces chosen by the caller two different requests can share a forced key |
| JobDispatch.Dispatcher.EnqueueJobRun | packages/quantum/public_tasks.py:166-345 | The dispatch method leaves store and queue as specified, and its response names the row, the effective key, the gate that refused and whether it pushed |
| JobLifecycle.KeysStayUnique | packages/quantum/jobs/job_runs.py:32-100 | Over every run a (name, key) pair has at most one row and rows are never renamed or deleted |
| JobLifecycle.RunKeepsWellFormed | packages/quantum/scheduler.py:332-399 | Over every run whoever holds a row holds one that exists, a call the row of its own name and key, and the scan's selection names no row twice and none out of attempts |
| JobLifecycle.EveryPushWasGated | packages/quantum/public_tasks.py:166-345 | Over every run of interleaved dispatches, pause toggles, workers and scans, each push was made by a call that earlier read the pause switch off, then the gate open, then found its row open, each in its own state; or by an administrator's retry |
| JobLifecycle.PauseDoesNotRecall | packages/quantum/public_tasks.py:196-336 | From any state in which a call has made its row: setting a pause does not keep it from pushing |
| JobLifecycle.UninterruptedCall | packages/quantum/public_tasks.py:166-345 | The separate reads, create and push of a call, with nobody in between, add up to the dispatch specified |
| JobLifecycle.SettledForever | packages/quantum/public_tasks.py:309-329 | A succeeded, partial, cancelled or dead-lettered row that nobody holds is never changed or pushed again by any mix of dispatches, workers, claims and scans |
| JobLifecycle.SettledIffQuiet | packages/quantum/jobs/runner.py:110-245 | And exactly then: whoever holds a row that is not queued, running, failed or failed retryably, a worker, a call about to push or the scan about to update, can change it or push it |
| JobLifecycle.SuccessWhileHeld | packages/quantum/jobs/runner.py:110-245 | From every state that lets a new request through, dispatching it twice lets one worker succeed while another still runs the row |
| JobLifecycle.EndingMeaning | packages/quantum/jobs/runner.py:200-245 | Which ending of a run leaves the row succeeded, partial, retryable or dead-lettered, by worker kind, attempt and limit; only a row left retryable gets no finish time |
| JobLifecycle.ClaimedEnds | packages/quantum/jobs/worker.py:70-130 | A polling worker uses up one attempt; a retry request leaves the row retryable whatever the attempt, any other error buries it |
| JobLifecycle.RetriedRunsAnew | packages/quantum/jobs/endpoints.py:86-150 | An administrator's retry queues the row with all its attempts back, and the next worker runs it as the first |
| JobLifecycle.WhoMayStart | packages/quantum/jobs/runner.py:110-160 | A queue worker takes up a row iff it is queued, running, failed or failed retryably; a polling worker claims one queued or failed retryably and within its limit; an administrator retries any not queued, running, partial or failed |
| JobLifecycle.PausedDispatchBurnsKey | packages/quantum/public_tasks.py:196-220 | The row a refused dispatch of a new key makes is cancelled for good, is never pushed, stays the only row of its key, and no call for the key comes to be about to push |
| JobLifecycle.BurnedKeyNeverPushes | packages/quantum/public_tasks.py:196-220 | So over every run after the refusal each push by a dispatch is for another key |
| RetryScan.UninterruptedScan | packages/quantum/scheduler.py:332-399 | The scan's two queries and its single updates, with nobody in between, add up to the scan specified |
| RetryScan.ScanRowByRow | packages/quantum/scheduler.py:332-399 | Such a scan touches only rows that failed retryably: re-queues with attempt + 1, or dead-letters; every other row is unchanged |
| RetryScan.ScanMovesIff | packages/quantum/scheduler.py:332-399 | Below its limits such a scan moves a row iff it failed retryably and is exhausted or finished within the window |
| RetryScan.ScanIsLimited | packages/quantum/scheduler.py:332-399 | One scan re-queues at most five rows and dead-letters at most ten |
| JobLifecycle.WindowCloses | packages/quantum/scheduler.py:332-342 | Once four hours have passed since a row finished the scan no longer selects it for a retry |
| RetryScan.UpdatesMeetSelection | packages/quantum/scheduler.py:344-399 | Over every run in which no worker and no administrator acts on a row between its selection and its update, each update meets the row as it was selected |
| RetryScan.SpoiledIff | packages/quantum/scheduler.py:344-399 | And exactly then, step by step: a selection is spoiled iff the step is a worker's or an administrator's on the row, other than an ending that fails it retryably once more |
| RetryScan.UpdateUndoesSuccess | packages/quantum/scheduler.py:370-399 | The updates test nothing but the id: in every state where one is due on a row within its attempt limit, a polling worker can claim the row and succeed, and the update re-queues or dead-letters the success |
| RetryScan.UpdateUndoesQueuedSuccess | packages/quantum/scheduler.py:370-399 | So can any worker that had loaded the row from the queue |
| RetryScan.RequeueBound | packages/quantum/scheduler.py:332-399 | Over every run mixing failures, claims, dispatches and scans cut open, a row at attempt a that the scan does not hold is re-queued by scans at most 2 - a times |
| RetryScan.FirstFailureLeavesNoFinishTime | supabase/migrations/20251220000001_job_runs_db_queue.sql:83-97 | From any state, a new job dispatched, run once and failed retryably is left without a finish time |
| RetryScan.FirstFailureIsStuck | packages/quantum/scheduler.py:332-342 | Such a row is never re-queued, dead-lettered or pushed again, by any run without an administrator's retry and without a polling worker's claim of it |
| RetryScan.RescueMovesIt | supabase/migrations/20251220000001_job_runs_db_queue.sql:49-80 | Those two move it: an administrator always, a polling worker's claim exactly while the row is within its attempt limit |
| RetryScan.RetryFailedJobs | packages/quantum/scheduler.py:344-399 | The two update loops leave the rows as specified for any pattern of failing updates |
| OptionTypes.FirstMinIsFirst | packages/quantum/options_scanner.py:1832-1846 | `min` with a key picks the earliest of the smallest |
| LegSelection.BisectSplits | packages/quantum/options_scanner.py:1599-1609 | On ascending keys the insertion point splits the list into smaller and not smaller |
| LegSelection.ClosestAttainsMinimum | packages/quantum/options_scanner.py:1591-1628 | On monotone deltas the better of the two neighbours of the insertion point is as close to the target as any contract, for calls (negated key) and puts |
| LegSelection.TieGoesLeft | packages/quantum/options_scanner.py:1611-1628 | Of two different deltas equally close, one on either side of the target, the one first by strike is taken |
| LegSelection.AlwaysClosestIff | packages/quantum/options_scanner.py:1591-1628 | For distinct deltas, in any order, the two-neighbour choice is the closest for every target iff the deltas are monotone in the strike |
| LegSelection.FilterKeepsStrikeOrder | packages/quantum/options_scanner.py:1577-1579 | Dropping contracts without a delta keeps the strike order |
| LegSelection.ChoiceIsClosest | packages/quantum/options_scanner.py:1561-1643 | Over the whole chain the contract chosen has a delta whenever any has one, and none is closer; else none is closer to the moneyness strike |
| LegSelection.LegCount | packages/quantum/options_scanner.py:1556-1565 | All legs are built iff every definition's type has contracts |
| LegSelection.LegsComeFromChain | packages/quantum/options_scanner.py:1646-1675 | Every leg is made from a contract of the chain for one of the definitions |
| LegSelection.LegsAreMade | packages/quantum/options_scanner.py:1556-1677 | There is one leg for each definition whose type has contracts, in their order: a call's from the calls and a put's from the puts, with that contract's symbol, strike, expiry and quotes, the definition's side and type, bought at the ask or sold at the bid, with the target for a missing delta; where deltas are monotone in the strike no contract of that list is closer |
| LegSelection.AllKept | packages/quantum/options_scanner.py:1561-1565 | No definition is skipped iff each one's list has contracts |
| LegSelection.AimIsMoneyness | packages/quantum/options_scanner.py:1629-1641 | The strike aimed at where no contract has a delta: 5% of the price in the money for a target above one half, 5% out of it below, else the price |
| LegSelection.SelectLegsFromChain | packages/quantum/options_scanner.py:1513-1677 | The loop returns one such leg for each definition kept, and their signed premium sum |
| ComboCost.QuotedIsValidNbbo | packages/quantum/options_scanner.py:2473-2561 | The two differently written quote tests are the same test |
| ComboCost.ComboCostRangeFromLegs | packages/quantum/options_scanner.py:2473-2531 | A range exists iff every leg is quoted; it is the best cost, the worst cost and their difference |
| ComboCost.SumLegSpreadsShare | packages/quantum/options_scanner.py:2534-2561 | A sum exists iff every leg is quoted; it is the sum of the spreads |
| ComboCost.RepriceTotalCostFromLegs | packages/quantum/options_scanner.py:1104-1132 | A reprice exists iff every leg has a positive price; it is the signed sum |
| ComboCost.WithoutMids | packages/quantum/options_scanner.py:1104-1132 | Where the mids are missing or zero the reprice is the signed sum of the premiums |
| ComboCost.FiguresAgree | packages/quantum/options_scanner.py:1646-1675 | For legs priced from valid quotes: directional total = worst cost, mid reprice = middle of the range, range = sum of the spreads |
| ComboCost.SelectionCostsWorst | packages/quantum/options_scanner.py:1646-1675 | On a quoted chain the selector's running total is the worst cost of the legs it returns |
| RiskPrimitives.RangeGivesExtremes | packages/quantum/options_scanner.py:2286-2376 | From an attained payoff range, when the reported loss and profit are the exact extremes |
| RiskPrimitives.VerticalExactIff | packages/quantum/options_scanner.py:2320-2337 | A vertical's maximum loss and profit are the attained extremes over all S >= 0 iff the cost has the sign of its structure and stays within the width |
| RiskPrimitives.CondorExactIff | packages/quantum/options_scanner.py:2339-2370 | A valid condor's figures are the attained extremes iff it is done for a credit no larger than its wider wing |
| RiskPrimitives.SinglePutExactIff | packages/quantum/options_scanner.py:2286-2318 | A put's figures are exact iff the premium is at most the strike |
| RiskPrimitives.SingleCallExact | packages/quantum/options_scanner.py:2286-2318 | A call's figures, one side of them unbounded, are exact at any premium |
| RiskPrimitives.SingleCollateral | packages/quantum/options_scanner.py:2292-2318 | Collateral of a single leg: the debit paid; for a put sold the strike; for a call sold the price of the underlying; at least any finite loss |
| RiskPrimitives.VerticalCollateral | packages/quantum/options_scanner.py:2320-2337 | Where its figures are exact, a vertical's collateral is its debit or its width, at least its loss; for a credit loss and profit together |
| RiskPrimitives.CondorCollateral | packages/quantum/options_scanner.py:2339-2370 | Where its figures are exact, a condor's collateral is its wider wing, its loss and its profit together |
| RiskPrimitives.UnknownStructures | packages/quantum/options_scanner.py:2286-2376 | Two legs on one side, four that are not two calls and two puts, and any other number but one get zero loss, profit and collateral |
| RiskPrimitives.AcceptedIff | packages/quantum/options_scanner.py:2206-2268 | The economics gate accepts iff there are legs of one expiry and, for two, opposite sides and a cost strictly between zero and the width; for four, a valid condor for a credit below its wider wing |
| RiskPrimitives.RejectedFor | packages/quantum/options_scanner.py:2206-2268 | And each reason names the first thing that is wrong |
| RiskPrimitives.AcceptedFiguresExactIff | packages/quantum/options_scanner.py:2206-2268 | What the economics gate accepts: a condor always has exact figures; a vertical iff its cost has the sign of its structure, which the gate does not test |
| EvCalculator.PopIsProbability | packages/quantum/ev_calculator.py:11-131 | For any inputs the probability of profit lies in [0,1] |
| EvCalculator.ShortIsComplement | packages/quantum/ev_calculator.py:110-132 | For any inputs selling a call or put wins with the probability with which buying it loses |
| EvCalculator.DebitPopInterpolates | packages/quantum/ev_calculator.py:96-104 | A debit spread's probability lies between its two deltas: the long one when it costs nothing, the short one when it costs its width |
| EvCalculator.SinglePopIsDelta | packages/quantum/ev_calculator.py:106-131 | An option bought wins with its delta's size: the given one, else its first leg's, else one half |
| EvCalculator.CreditPopWithoutWidth | packages/quantum/ev_calculator.py:70-90 | A credit spread without a usable width wins like the sale of an option of the given delta, else of its first sold leg's |
| EvCalculator.DebitPopWithoutWidth | packages/quantum/ev_calculator.py:92-108 | A debit spread without a usable width is half way between its two deltas; with one missing, at the long one or at the given delta |
| EvCalculator.FirstLegIsFirst | packages/quantum/ev_calculator.py:70-108 | The leg whose delta counts is the first on its side |
| EvCalculator.DeltaThatCounts | packages/quantum/ev_calculator.py:70-108 | And it counts in size, unless it is zero or missing |
| EvCalculator.EvIsWeighted | packages/quantum/ev_calculator.py:278-300 | For every computed result the expected value lies between -maxLoss and maxGain, linear in the win probability: maxGain at 1, -maxLoss at 0 |
| EvCalculator.FiguresScale | packages/quantum/ev_calculator.py:228-300 | Gain, loss, cost and expected value for n contracts are n times those for one, at the same odds |
| EvCalculator.ComputedIff | packages/quantum/ev_calculator.py:228-276 | Which strategies are computed: single legs, and spreads with a width; spreads without one are refused |
| EvCalculator.EvIsEdge | packages/quantum/ev_calculator.py:228-282 | The expected value in closed form per strategy: for a long call the premium times (11 w - 1), for a debit spread w width - premium, and so on |
| EvCalculator.LongCallSign | packages/quantum/ev_calculator.py:228-282 | A long call has positive EV iff its premium is positive and its delta above 1/11 in size, or the premium is negative and the delta below |
| EvCalculator.DebitSpreadSign | packages/quantum/ev_calculator.py:264-282 | A debit spread's EV has the sign of win probability times width less premium |
| EvCalculator.RiskRewardIsRatio | packages/quantum/ev_calculator.py:284-290 | The risk-reward figure is loss over gain where both are positive, and absent otherwise |
| EvCalculator.CostAndCap | packages/quantum/ev_calculator.py:228-276 | What is bought costs its premium and what is sold brings it, times 100 and the contracts; capped exactly for single calls; a breakeven exactly for single legs |
| EvCalculator.BreakevenEarnsNothing | packages/quantum/ev_calculator.py:228-256 | At its breakeven a single leg is worth its premium at expiry |
| EvCalculator.CreditSpreadIsFair | packages/quantum/ev_calculator.py:70-79 | For every credit inside the width and any contract count, the width-implied probability makes the credit spread's EV exactly zero |
| EvCalculator.CondorClosedForm | packages/quantum/ev_calculator.py:568-629 | While the short deltas add up to one at most, the strict EV of a condor is its credit less, per side, the short delta times the wider of width and credit |
| EvCalculator.CondorEarnsIff | packages/quantum/ev_calculator.py:568-629 | For any credit that is not negative, any deltas and any widths, the strict EV is positive iff the credit is more than the two sides take |
| EvCalculator.StrictReports | packages/quantum/ev_calculator.py:592-629 | The odds a condor reports are what its two short deltas leave, or nothing; cost, gain and risk-reward fit together |
| EvCalculator.TailReports | packages/quantum/ev_calculator.py:674-734 | The same under the tail model, with the deltas scaled by the multiplier |
| EvCalculator.MultiplierScales | packages/quantum/ev_calculator.py:674-700 | The tail multiplier does exactly what scaling the short deltas does; a negative one removes them |
| EvCalculator.TailMinusStrict | packages/quantum/ev_calculator.py:674-709 | With multiplier 1 the tail EV exceeds the strict one by exactly what is saved on the two sides |
| EvCalculator.TailAtLeastStrict | packages/quantum/ev_calculator.py:674-709 | So it is never below, and equal iff severity is 1 or on each side the long delta reaches the breach or the side cannot lose |
| EvCalculator.TailNeverIncreases | packages/quantum/ev_calculator.py:674-709 | For a non-negative credit the tail EV never increases with severity or multiplier, through all clamps |
| EvCalculator.TailMonotoneIff | packages/quantum/ev_calculator.py:674-709 | At any widths the tail EV is antitone in severity and multiplier, for all deltas, iff the credit is not negative |
| EvCalculator.SpreadFiguresMatchRisk | packages/quantum/ev_calculator.py:258-282 | Per contract the EV model and the scanner report the same maximum gain and loss for a credit spread iff 0 <= premium <= width, and for a debit spread iff 0 < premium <= width or both are zero |
| EvCalculator.SingleFiguresMatchRisk | packages/quantum/ev_calculator.py:228-256 | For single legs the finite figures agree iff the leg is a call or its premium is at most the strike; the EV is flagged capped iff a figure has no bound |
| EvCalculator.CondorFiguresMatchRisk | packages/quantum/ev_calculator.py:598-606 | For every pair of wings and every cost the condor figures agree |
| EvCalculator.KellyFailsIff | packages/quantum/ev_calculator.py:376-401 | Sizing divides by zero iff the loss is positive, the profit zero and the probability above 1 |
| EvCalculator.RawKellyIsEvShare | packages/quantum/ev_calculator.py:396-401 | The raw fraction is EV over profit, positive and at most the win probability |
| EvCalculator.KellyIsBounded | packages/quantum/ev_calculator.py:376-422 | For a probability in [0,1]: contracts only on a positive EV, their risk within the Kelly share and 5% of the account, one more contract over the smaller, and ruin at most one half |
| EvCalculator.SizingReports | packages/quantum/ev_calculator.py:376-422 | What is reported with a size: EV, EV per hundred of the maximum loss, and a ruin score of ten times the share at risk times the chance to lose; nothing is bought, and no Kelly share given, without a positive EV and loss |
| CondorLegs.QuadIsClosest | packages/quantum/options_scanner.py:1831-1850 | The shorts are nearest the target delta in the chain, the longs nearest the wing strike among those strictly further out |
| CondorLegs.WingEmptyIff | packages/quantum/options_scanner.py:1839-1843 | There is no long exactly when no contract is strictly further out than the short |
| CondorLegs.InvariantsOfSelected | packages/quantum/options_scanner.py:2154-2205 | On a chain without mislabelled types a constructed condor passes the four-leg check iff symbols differ, expiries agree and the shorts do not touch or cross |
| CondorLegs.QuadCost | packages/quantum/options_scanner.py:1862-1896 | A condor costs its longs at their asks less its shorts at their bids, which is the worst cost of the cost helpers |
| CondorLegs.PriceLegs | packages/quantum/options_scanner.py:1852-1896 | All four legs with their directional total, or none when a quote is missing |
| CondorLegs.SelectIronCondorLegsParam | packages/quantum/options_scanner.py:1808-1896 | The constructor returns those legs and that total |
| CondorSearch.RoundHalfEven | packages/quantum/options_scanner.py:2036-2040 | The rounding of the key is within one half and exact on whole numbers only |
| CondorSearch.HalvesToEven | packages/quantum/options_scanner.py:2036-2040 | And a half goes to the even neighbour |
| CondorSearch.TooWideIff | packages/quantum/options_scanner.py:855-896 | Quoted legs fail the spread test iff some leg's spread exceeds the threshold times its mid |
| CondorSearch.RolesRecovered | packages/quantum/options_scanner.py:2013-2034 | Sorting the legs by strike recovers who is short and long: the EV's widths and deltas are those of the contracts picked |
| CondorSearch.PickedIff | packages/quantum/options_scanner.py:1831-1850 | A quad is picked iff both lists have contracts and each short has something strictly further out |
| CondorSearch.GateMeaning | packages/quantum/options_scanner.py:1979-2034 | On a chain split by type the fate of a point told from the contracts picked: in this order four two-sided quotes, four symbols with one expiry and the shorts apart, credit max(0, short bids - long asks) at least the minimum, no spread above the threshold times the middle; the first that fails names the fate, and a point that has all is valued on its own credit, widths and deltas |
| CondorSearch.CountersMeaning | packages/quantum/options_scanner.py:1966-2077 | So each counter is the number of grid points that are quoted and well shaped, that pay enough as well, that are tight as well |
| CondorSearch.ReasonMeaning | packages/quantum/options_scanner.py:2115-2126 | With no legs the reason says, in quotes, strikes, symbols, expiries and credits, which of these no point of the grid has |
| CondorSearch.AnswerMeaning | packages/quantum/options_scanner.py:1979-2151 | The legs returned are the four contracts picked at some grid point that has all of these, the shorts sold at the bid and the longs bought at the ask, and cost the credit negated; without legs the reason says what no point has |
| CondorSearch.ChainHasDeltaIff | packages/quantum/options_scanner.py:1947-1957 | A chain counts as one with deltas iff one of the first 25 calls or of the first 25 puts has one |
| CondorSearch.MemoEntriesAreEvs | packages/quantum/options_scanner.py:2036-2067 | Every stored entry is the EV of a visited point with that key |
| CondorSearch.MemoisedFate | packages/quantum/options_scanner.py:2036-2067 | Every point is scored with its own EV or with that of an earlier point of the same key |
| CondorSearch.MemoTransparentIff | packages/quantum/options_scanner.py:2036-2067 | For any EV model the memo is invisible when one key means one EV, and, if no evaluation fails, only then |
| CondorSearch.GridMembers | packages/quantum/options_scanner.py:1977-1979 | The nested loops try every combination of a target and a width |
| CondorSearch.CountersNested | packages/quantum/options_scanner.py:1966-2077 | tried >= quoted >= enough credit >= tight enough = computed + errors |
| CondorSearch.ReasonNamesFirstEmptyStage | packages/quantum/options_scanner.py:2115-2126 | The reason is the first stage that no point passed, both directions for each reason |
| CondorSearch.TryCombo | packages/quantum/options_scanner.py:1979-2103 | The loop body moves counters, memo and both running bests as specified |
| CondorSearch.SelectBestIronCondorEvAware | packages/quantum/options_scanner.py:1899-2151 | The search returns the earliest of the points of greatest EV if that is positive, else no legs with the reason and the best point seen; the counters are exact; and on a chain split by type the legs are those of a point with the quotes, shape, credit and spreads demanded, or the reason names what no point has |
| CondorSearch.SearchIsArgmax | packages/quantum/options_scanner.py:1899-2151 | Where the memo is invisible, legs come back iff some combination passes every test with positive EV, and they are those of the earliest in grid order of greatest EV |
| CondorMemo.StrictMemoTransparent | packages/quantum/options_scanner.py:2036-2067 | Quotes and deltas to four decimals and strikes to two: under the strict model the memoised search equals the unmemoised one |
| CondorMemo.StrictSearchIsExact | packages/quantum/options_scanner.py:1899-2151 | And it then returns the earliest best combination, or none exactly when none is viable |
| CondorMemo.StrictMemoWithinBound | packages/quantum/options_scanner.py:2036-2067 | On any chain a memoised strict EV is within 2.03 + 0.01(2\|credit\| + the two losses) dollars of the true one, and no point is gained or lost |
| CondorMemo.StrictSearchWithinBound | packages/quantum/options_scanner.py:1899-2151 | So on any chain no combination that reaches the EV has a true EV above that of the returned one by more than the two points' bounds |
| CondorMemo.SameKeySameGate | packages/quantum/options_scanner.py:1979-2067 | On a chain split by type with strikes to two decimals and deltas to four, whatever the quotes, two passing points with one key pick the same four contracts |
| CondorMemo.AnyModelTransparent | packages/quantum/options_scanner.py:2036-2067 | So there the memo is invisible under every EV model, one that reads the long deltas and one that fails included |
| CondorMemo.AnyModelSearchIsExact | packages/quantum/options_scanner.py:1899-2151 | And the memoised search returns the earliest best combination of that model, or none exactly when none is viable |
| CondorMemo.TailSearchIsExact | packages/quantum/options_scanner.py:2036-2067 | In particular under the tail model, at any severity and multiplier, though its long deltas are not in the key |
| CondorMemo.TailIsStrictAtFullSeverity | packages/quantum/ev_calculator.py:632-709 | At multiplier 1 the tail model of a point is never below the strict one, and is it at full severity or with long deltas as large as the short ones |
| CondorMemo.FineChainMisleads | packages/quantum/options_scanner.py:1979-2067 | Off the grid it can be wrong: a chain, split by type, with deltas differing in the fifth decimal, on which two targets pick different condors with one key and the second is scored more than seven dollars above its own tail EV |
| ScanOrder.StringOrder | packages/quantum/options_scanner.py:4884-4894 | The string order is total and antisymmetric |
| ScanOrder.StringLessIff | packages/quantum/options_scanner.py:4884-4894 | One string comes before another iff it is a proper prefix of it or has the smaller character where they first differ |
| ScanOrder.SortIsDescendingPermutation | packages/quantum/options_scanner.py:4884-4894 | The sort returns the same candidates in an order in which no key is below a later one |
| ScanOrder.FinalOrder | packages/quantum/options_scanner.py:4884-4894 | For any two places of the list: with routing off the earlier score is at least the later, and on equal scores its symbol does not come before the later one's; with routing on, none without a real IV rank stands before one with it, and the rest holds within each group |
| ScanOrder.SortKeepsFirst | packages/quantum/options_scanner.py:4884-4894 | Among equal keys the first to finish stays first |
| ScanOrder.OrderIndependentIff | packages/quantum/options_scanner.py:4862-4894 | The list is the same for every completion order iff no two different results share a key |
| ScanOrder.CompletionOrderIrrelevant | packages/quantum/options_scanner.py:4862-4894 | For distinct symbols the list does not depend on the completion order |
| ScanOrder.ListedIff | packages/quantum/options_scanner.py:4862-4894 | A candidate is listed iff its symbol was scanned and yielded it |
| ScanOrder.EachSymbolOnce | packages/quantum/options_scanner.py:4862-4894 | Every symbol appears at most once |
| ScanOrder.FromKeysDistinct | packages/quantum/options_scanner.py:3188-3188 | Deduplication leaves the same symbols, each once |
| ScanOrder.SymbolYieldsIff | packages/quantum/options_scanner.py:4778-4857 | A symbol yields a candidate iff the primary passes, or multi-strategy evaluation is on and some fallback passes |
| ScanOrder.ProcessSymbolMulti | packages/quantum/options_scanner.py:4778-4857 | Returns the primary or the first passing fallback; one emission per candidate; the two mechanism counters move exactly when there was no fallback or all failed |
| ScanOrder.ScanForOpportunities | packages/quantum/options_scanner.py:4860-4894 | The final list is the sorted collection, best first by score, symbol and routing group; each strategy is emitted as often as the list has it |
| ScanOrder.EmissionsCount | packages/quantum/options_scanner.py:4778-4857 | A strategy's emissions are the positions of the list that have it |
| Backtest.AlignedAtTheEnd | packages/quantum/backtest.py:26-37 | Only the common tail of the histories matters to a day's portfolio return |
| Backtest.OneHistory | packages/quantum/backtest.py:29-37 | A history contributes its weight, zero for a symbol without one, times its return of that day |
| Backtest.AllInOne | packages/quantum/backtest.py:29-37 | With weight 1 on one of the histories and 0 or no weight on the others the portfolio returns are the last n of that history, in their order |
| Backtest.LinearInWeights | packages/quantum/backtest.py:29-37 | Multiplying every weight by c multiplies every return by c |
| Backtest.ReturnsAdd | packages/quantum/backtest.py:29-37 | For two portfolios of histories the returns are the sums of the two |
| Backtest.AlignReturns | packages/quantum/backtest.py:29-37 | The nested loops compute the weighted return of every aligned day |
| Backtest.Compound | packages/quantum/backtest.py:39-42 | The loop computes the value after each prefix of the returns |
| Backtest.MaxDrawdown | packages/quantum/backtest.py:52-60 | The pass divides by zero iff some running peak is zero; else it finds the greatest drop below the running peak |
| Backtest.DropsAreFalls | packages/quantum/backtest.py:52-60 | While values stay positive a figure is the greatest drop iff it is the maximum of (v_i - v_j)/v_i over all i <= j, and it lies in [0,1) |
| Backtest.DrawdownMeaning | packages/quantum/backtest.py:39-60 | From a positive start the figure is below 1 iff every return is above -1, and then it is that maximum and nothing else is |
| Backtest.RuinCanBreakIt | packages/quantum/backtest.py:52-60 | A return below -1 can break the equality with that maximum |
| Backtest.BacktestPortfolio | packages/quantum/backtest.py:12-64 | For any data and initial value: no data, a division by zero iff some running peak (the initial value is the first) is zero, or drawdown, total return and win rate of the compounded aligned returns, the drawdown with its meaning |
| Backtest.ScaleFree | packages/quantum/backtest.py:39-60 | Total return and greatest fall do not depend on the positive initial value |
| Backtest.DrawdownOfGrowth | packages/quantum/backtest.py:39-60 | For returns above -1 the drawdown is the greatest fall of the growth curve |

## Left out

- Floating point, NaN and infinity: arithmetic is over the reals and every finiteness test passes.
- The rejection tracker's reason and strategy counters, samples, client refresh and log lines, and the early returns when no client, cycle date or current symbol is set.
- RejectionPersist.RejectionStats.PersistRejection: one caller at a time; what concurrent callers keep is proved on the action machine.
- The cache's file persistence and its namespaces; the protocol follows one key, and a non-truthy result is modelled as no result.
- SingleFlight.GetOptionChainSnapshot: a single caller with no one in between; what concurrent callers keep is proved on the protocol. The two other methods with the same pattern are not repeated.
- The nightly runner's worktree and git handling, wake lock, child process, heartbeat, report structure check, failure artifact and manifest contents: they appear as the evidence a run leaves.
- The lock's re-entrant branch and the reuse of process ids and run ids; liveness of a process is known exactly, and reading and unlinking a lock file is one action.
- Narration lines of the marker log: they begin with the stamp every line begins with, have no line break in them and quote no run tag. A torn append keeps a front of its line, in whole characters.
- A worker's mark (a read of the attempt and an update) and an administrator's retry are single actions; there is one scan at a time; a worker that dies is one that takes no further step.
- Alerts, provenance stamps, backoff times and `run_after`, the order in which rows are claimed, a failing queue push and the queue library's own deduplication.
- JobLifecycle.SettledForever: excludes an administrator's retry of that row, which re-queues it on purpose.
- Gamma, vega, theta, the nested quote schema, and the older condor selector with its premium fallback.
- CondorSearch.SelectBestIronCondorEvAware: the best credit seen, the first error's text and the rounding of reported figures are not modelled.
- CondorMemo.StrictMemoWithinBound: bounds the error off the grid under the strict model; under other models only chains on the grid are covered.
- NightlyProcess.Runner.Go: the process narrates nothing and no other process appends between its two markers; what interleaved appends and narration do is proved on the protocol.
- `process_symbol` itself, scoring, agents and strategy selection: any function from a symbol and a strategy number to a result.
- ScanOrder.ScanForOpportunities: attempts of different symbols are not interleaved; they share only counters that commute.
- Backtest.BacktestPortfolio: the Sharpe ratio and the dates are left out.
- The older Greeks-based exit metrics, position size helper and the fixed-width condor estimate in the EV module.
