# Verified model of the OCSP test web service

The service runs certificate-revocation test suites in worker processes, keeps an event log per
run, streams that log to browsers, and decides who may see what. This project models the parts
of it whose behaviour cannot be read off one function, and proves what they keep.

**A run, from start to stored status.** `RunLog` is a run's row and its append-only event log:
an append reads `last_seq` and later commits under the unique index on (run_id, seq).
`Worker` is the worker process, as the lines it writes for every way the engine underneath can
behave. `RunLifecycle` is the supervised run as a labelled transition system: the supervisor, the
stderr drainer and a cancel that finds no process advance one await-free segment at a time, in any
order. `JobManager` is the supervisor object; each of its methods is proved to be one step of that
system, and `Supervise` runs whole schedules through them. `RunTheorems` speaks of every schedule:
what one without a late cancel promises, and within how many steps a run is finished. `RunJournal`
says what the log contains, the supervisor's events and the drainer's. `Results` is the globally keyed results table with one run's
counters.

**The resumable stream.** `StreamServer` is the replay loop, `StreamClient` the browser's
connection object, `StreamProtocol` one session (fetch, send, deliver, drop, reconnect), and
`StreamTheorems` runs a session beside the run it follows and proves the end-to-end claims, among
them that what is left to receive falls with every delivery and is zero exactly at the end.

**Path validation.** `PathValidator` is the validator's five loops, `PathRefinement` relates them
to the stateful algorithm of section 6.1 of RFC 5280, `PathAnchors` follows issuers from the end
entity upwards.

**Members and access.** `Membership` is the membership table with its handlers and the OIDC group
sync, `Authz` the workspace resolvers and the run-visibility rules.

**Smaller parts.** `RateLimiter` (login throttling), `Schema` (the schema upgrade),
`TargetPolicy` and `GuardedFetch` (outbound targets and the redirect-following fetch),
`PemExtractor` (certificates in an OCSP response, and the trust bundle), `LogLevels` and
`PrintInterceptor` (the worker's stdout replacement). `Options`, `Sequences`, `Text` and
`RunEvents` hold shared vocabulary.

Objects the source updates in place are classes here; their methods are specified by functions on
the object's value, and the theorems are about those functions.

## Hypotheses

- Each database transaction is one atomic step, and cancelling a task takes effect at a step
  boundary. A cancel that finds no process checks the process table and the stored status in one
  step.
- The claims about terminal status and terminal event hold when cancels arrive only while a process
  is registered (`lateCancels` is false). `RunLifecycle.LifecycleIff` proves that this condition is
  exact for a configuration, `RunTheorems.NoLateCancelKeepsPromises` that any single schedule
  without such a cancel keeps the promises; the log's density and the exactly-once claim need neither.
- They also assume that every done line carries a terminal status (`RunLifecycle.Articulate`), which
  `RunLifecycle.WorkersAreArticulate` proves of every worker of the model.
- A finished run is one finished through `_finalize`; the boot-time `mark_orphans_failed` writes a
  status without an event and is not part of the model.
- The membership handlers are atomic (`Membership.RacingRemovals` says exactly what two interleaved
  removals can do). `RateLimiter.RateBound` takes the attempts for one login key one after another,
  `RateLimiter.OverlapBound` lets them overlap. The clock is positive and monotonic.
- SQLite takes each statement of a rebuild as it comes, so that what went before a refused copy stays.
- Signatures, parsed extensions, URL parsing, DNS, HTTP servers and IP ranges are parameters.

## Where the code and its promises part

Each of these is a lemma, with the exact condition under which the promise does hold.

- A cancel that reaches a run with no registered process can be followed by "running", and can
  announce the end before the start (`LateCancelRevives`, `LateCancelAnnouncesEarly`,
  `LifecycleIff`).
- A healthy run can be stored as failed because the stderr drainer took the sequence number of one
  of the supervisor's appends (`CollisionFailsHealthyRun`; `StoredOutcome` has the exact condition).
- A worker whose executor module fails to import, or whose engine raises `SystemExit`, writes
  neither done nor fatal (`TranscriptWords`, predicate `Speaks`).
- The server's final flush can miss the terminal event (`FlushCarriesTheEnd`); the client makes up
  for it by reconnecting, except when it was opened at the end of a finished log, where it reconnects
  for ever (`EndIffOpenedBefore`, `EndedIff`).
- A result whose status lowercases to "total" shares its counter with the total (`CountersAgree`).
- The path-length loop rejects paths the standard accepts when an intermediate below the first is
  self-issued (`PathLengthRefinesIff`), and measures in the wrong direction when handed leaf-first
  intermediates, as ocsp_tester/tests_path_validation.py:1186-1189 does (`LeafFirstAgreesIff`).
- Acceptance does not look at the order of the path (`ValidatorRefinesRfc`), and a self-issued
  intermediate can be accepted with no trust anchor at all (`SelfIssuedAccepted`,
  `AcceptedReachesAnchorIff`).
- A group sync can take a workspace's last admin away (`SyncKeepsAdminIff` for one sync over any
  workspaces, `AdminKeptIff` for every sequence of operations), and so can two removals that both
  check before either commits (`RacingRemovals`).
- Five failures per window is the limit for attempts made one after another; with c of them in flight
  it is 4 + c (`OverlapBoundIsExact`).
- The SQLite rebuild is refused by a NULL in a NOT NULL column (`RebuildIff`, `SqlitePassIff`), and by
  the temporary table an interrupted rebuild left behind (`ReconcileExistingTables`); the start after
  a refused rebuild goes through, with the rows still in that table (`InterruptedIsOverlooked`).
- A request that names no workspace is resolved as administrator of the caller's personal workspace
  without looking at the membership (`FallbackAgreesIff`).
- A run without a creator can be opened but is not listed (`ListedIffFetchable`).
- Redaction works line by line, so the body of a printed key passes (`KeyBodyIsReported`); it stays
  hidden iff every line of it is blank or carries the marker words itself (`HiddenIff`).

## Model

| member | source | states |
|---|---|---|
| RunLog.CommitKeepsDense | backend/app/jobs.py:294-309 | however stale its read, an append lands iff nobody committed in between, and is otherwise refused without effect; the log stays dense and is only extended |
| RunLog.RacingAppends | backend/app/orm.py:168 | of two appends that read the same row the second to commit is refused by the unique index: one event is lost, none duplicated |
| RunLog.BatchIsSegment | backend/app/api/stream.py:33-41 | on a dense log the declarative query (seq > after, ordered, limited) has exactly one answer, the next consecutive rows |
| RunLog.RunTable.Begin | backend/app/jobs.py:296-301 | reading the row for an append |
| RunLog.RunTable.Commit | backend/app/jobs.py:300-308 | the whole new row after the commit, refused or not |
| RunLog.RunTable.UpdateStatus | backend/app/jobs.py:345-348 | only the status changes |
| Worker.RunExecutor.RunCategory | backend/app/worker/executor.py:312-354 | every line one pass of the category loop writes, prints and the restriction notice included, and its exit, for every engine outcome; `StoppedLoop` says what each exit leads to |
| Worker.RunExecutor.FinishCategory | backend/app/worker/executor.py:332-354 | the except clauses and the end of one pass |
| Worker.RunExecutor.RunCategories | backend/app/worker/executor.py:312-354 | the lines and the exit of the whole category loop |
| Worker.RunExecutor.RunSelected | backend/app/worker/executor.py:231-357 | from the list of enabled categories to "Run complete", the selection notice included; done is emitted iff the loop was not left early |
| Worker.RunExecutor.Run | backend/app/worker/executor.py:191-357 | the lines and the exit of `run`, set-up lines, network-policy refusal, bad set-up and unreadable certificates included |
| Worker.WorkerMain | backend/app/worker/__main__.py:64-93 | everything a worker process that is not killed writes, stray prints included |
| Worker.RunExecutor.EmitOutput | backend/app/worker/executor.py:97-138 | the prints, engine log lines and results between the start and the end of a category, in order |
| Worker.TranscriptWords | backend/app/worker/__main__.py:72-93 | exactly one done or fatal line iff the executor imports and no engine code takes the process down; which one; and which categories are reported finished, in order |
| Worker.StoppedLoop | backend/app/worker/__main__.py:83-93 | the last word of a loop that stops at category n, from what happens there: "cancelled" for the cancel file and a raised cancel, fatal for a malformed selection or a failing error report, none if the process exits; and exactly the categories before it are finished |
| Worker.ResultsArePassedOn | backend/app/worker/executor.py:120-138 | the results in the transcript are those the engines found before they returned, raised or were cancelled, one ERROR result for each that crashed, all in order; after a policy refusal only its own |
| Worker.ProgressIsShown | backend/app/worker/executor.py:314-352 | each category is announced and finished with the share of the categories done in whole percent, and the one the loop stops at is announced |
| Worker.EngineIsQuoted | backend/app/worker/__main__.py:45-58 | what an engine writes is in the transcript as one unbroken piece, in order |
| Worker.OutputAt | backend/app/worker/executor.py:97-138 | the k-th thing an engine writes is the k-th line of that piece: a print or log line as a log line, a result as a result |
| Worker.PreludeIsWritten | backend/app/worker/executor.py:191-248 | the transcript begins with every line written before the loop, in order |
| Worker.CompletedMeansAllIterated | backend/app/worker/executor.py:312-357 | done "completed" is written iff every enabled category was iterated |
| Worker.PrefixWords | backend/app/jobs.py:196-218 | the last words in a prefix of the lines are a prefix of the last words |
| RunLifecycle.WorkersAreArticulate | backend/app/jobs.py:206-212 | no worker makes the supervisor store a non-terminal status |
| RunLifecycle.HeardIsLastWord | backend/app/jobs.py:206-212 | what the supervisor remembers is the last done or fatal line it read: its status, "completed" for one without, "failed" for a fatal one |
| RunLifecycle.HeardFromWorker | backend/app/jobs.py:206-212 | "completed" is heard only from a worker that iterated every category |
| RunLifecycle.WritersKeep | backend/app/jobs.py:249-309 | in every interleaving of supervisor, stderr drainer and late canceller the log stays dense and is only extended |
| RunLifecycle.StepKeeps | backend/app/jobs.py:184-247 | every step keeps the inductive invariant of a supervised run |
| RunLifecycle.StepAdvances | backend/app/jobs.py:345-373 | every step extends the log, moves the status forward or leaves it, and never changes a terminal one |
| RunLifecycle.RunKeeps | backend/app/jobs.py:184-247 | both over every sequence of steps |
| RunLifecycle.SupervisedRun | backend/app/jobs.py:85-109 | at every moment the log is dense and the supervisor alive; a finished run's log holds exactly one terminal event, the last, carrying the stored status |
| RunLifecycle.LifecycleIff | backend/app/jobs.py:111-120 | a terminal status is absorbing, and nothing follows a terminal event, iff no cancel arrives while the run has no process |
| RunLifecycle.LateCancelRevives | backend/app/jobs.py:117-120 | a cancel of a queued run is overwritten by "running" |
| RunLifecycle.LateCancelAnnouncesEarly | backend/app/jobs.py:350-356 | the same cancel's terminal event comes before the first one of start_run |
| RunLifecycle.History | backend/app/jobs.py:219-247 | the run's flags record exactly whether a timeout, a crash or collision, and a cancel happened |
| RunLifecycle.StoredOutcome | backend/app/jobs.py:219-247 | the stored status as a function of the last word read, timeout, crash or collision, and cancel, over every run |
| RunLifecycle.CompletedIsEarned | backend/app/jobs.py:219-247 | "completed" is stored only if every enabled category was iterated and no timeout, crash, collision or cancel occurred |
| RunLifecycle.CollisionFailsHealthyRun | backend/app/jobs.py:230-233 | a completed worker's run can be stored as failed without timeout, crash or cancel |
| RunLifecycle.CanFinish | backend/app/jobs.py:358-373 | a witness for the next rows: from every reachable state a schedule leads to the announced end |
| RunTheorems.NoLateCancelKeepsPromises | backend/app/jobs.py:111-120 | in every schedule in which no cancel found the run without a process, terminal statuses stay and nothing follows a terminal event, even where such cancels are possible |
| RunTheorems.OwnStepsAreBounded | backend/app/jobs.py:184-247 | from every reachable state and in every schedule the supervisor's steps use up a measure that nothing else changes |
| RunTheorems.EveryRunFinishes | backend/app/jobs.py:93-109 | whatever the drainer, the timeout and the cancels do, the supervisor takes at most 19 steps and three for every worker line, and it can take another one iff the run is not finished |
| RunTheorems.OutcomesAreExact | backend/app/jobs.py:219-247 | which statuses the runs of a worker can end with: failed, cancelled and timed out always, any other iff some part of what the worker writes has it as its last word |
| RunJournal.JournalIsTheLog | backend/app/jobs.py:294-309 | the log is the sequence of the commits that went through, in the order in which they did |
| RunJournal.OthersAreLogLines | backend/app/jobs.py:249-262 | whatever the supervisor did not write is a log line of the stderr drainer |
| RunJournal.DrainerShare | backend/app/jobs.py:249-262 | the drainer has written the worker's stderr lines, each behind "[worker] ", in the order read: all but the one being appended, and all or all but the last once it is over |
| RunJournal.LogContents | backend/app/jobs.py:266-309 | at every moment of every run the log without the drainer's lines is the first run_status, the images of the consumed worker lines in order, then the closing events, with at most the event of one interrupted append missing, and that only after a timeout, a crash or a collision |
| RunJournal.UndisturbedLog | backend/app/jobs.py:266-309 | a finished run without timeout, crash and collision has exactly these events, nothing missing |
| JobManager.RunSupervisor.RegisterProcess | backend/app/jobs.py:93-104 | one step of the transition system |
| JobManager.RunSupervisor.MarkAsRunning | backend/app/jobs.py:105 | one step of the transition system |
| JobManager.RunSupervisor.TakeSnapshot | backend/app/jobs.py:375-382 | one step: the event to append carries the status read now |
| JobManager.RunSupervisor.BeginAppend | backend/app/jobs.py:294-301 | one step: the sequence number is read |
| JobManager.RunSupervisor.CommitAppend | backend/app/jobs.py:300-309 | one step: commit, or refusal taken for a crash, and where the supervisor goes on |
| JobManager.RunSupervisor.ConsumeLine | backend/app/jobs.py:196-216 | one step: what a worker line does to the remembered verdict and the next event |
| JobManager.RunSupervisor.OnTimeout | backend/app/jobs.py:222-229 | one step |
| JobManager.RunSupervisor.OnEof | backend/app/jobs.py:198-201 | one step |
| JobManager.RunSupervisor.OnCrash | backend/app/jobs.py:230-233 | one step |
| JobManager.RunSupervisor.LeaveSupervision | backend/app/jobs.py:234-247 | the finally block and the verdict after it |
| JobManager.RunSupervisor.WriteFinalStatus | backend/app/jobs.py:358-370 | one step: the verdict is stored |
| JobManager.RunSupervisor.RequestCancel | backend/app/jobs.py:111-116 | one step: a cancel with the process registered |
| JobManager.RunSupervisor.ReadStderrLine | backend/app/jobs.py:249-258 | one step of the drainer |
| JobManager.RunSupervisor.BeginStderrAppend | backend/app/jobs.py:257-260 | one step of the drainer |
| JobManager.RunSupervisor.CommitStderrAppend | backend/app/jobs.py:257-262 | one step of the drainer; a refusal ends it |
| JobManager.RunSupervisor.EndStderr | backend/app/jobs.py:249-254 | one step: the drainer ends at end of file |
| JobManager.RunSupervisor.Resume | backend/app/jobs.py:93-309 | one step of whichever task the event loop resumes |
| JobManager.Supervise | backend/app/jobs.py:93-247 | the object, taken through any schedule, ends in the state the transition system predicts, with a dense log and one terminal event, the last, carrying the stored status |
| StreamServer.NextRowsIsBatch | backend/app/api/stream.py:33-41 | the consecutive rows are the query's only answer |
| StreamServer.EventStream | backend/app/api/stream.py:59-78 | against a log that grows between queries: what is sent is the log after afterSeq, once each and in order; the stream ends only after a terminal status, with everything visible before it sent and one batch more; otherwise it got on: two queries suffice for a batch or all there is, and of a terminal run it sends a row with every query but the last two |
| StreamServer.LoopIsGenerator | backend/app/api/stream.py:59-78 | the loop and the generator of the protocol send the same rows and end together, query by query |
| StreamServer.FlushCovers | backend/app/api/stream.py:70-77 | what the final flush covers |
| StreamClient.DelayGrows | frontend/src/lib/stream.ts:91-100 | the back-off starts at 500 ms, doubles each time up to 10 s, and is at 10 s exactly from the sixth attempt on |
| StreamClient.FrameMeans | frontend/src/lib/stream.ts:45-63 | what an arriving frame does to the connection, the back-off, lastSeq and the handlers, malformed and unnumbered ones included |
| StreamClient.OneTimer | frontend/src/lib/stream.ts:91-100 | a reconnect asked for twice is scheduled once, and none by a stopped client |
| StreamClient.RunStream.OnFrame | frontend/src/lib/stream.ts:45-63 | lastSeq, delivery, and the teardown on a terminal run_status; malformed frames and events without a number included |
| StreamClient.RunStream.Schedule | frontend/src/lib/stream.ts:91-100 | at most one timer, with the delay of the attempts so far |
| StreamClient.RunStream.OnConnectionLost | frontend/src/lib/stream.ts:115-143 | a lost connection schedules a reconnect, and a WebSocket that never opened switches to SSE |
| StreamClient.RunStream.ConnectNow | frontend/src/lib/stream.ts:148-156 | connecting, and nothing once stopped |
| StreamClient.RunStream.CloseStream | frontend/src/lib/stream.ts:160-165 | stopped for good |
| StreamProtocol.NetKeeps | frontend/src/lib/stream.ts:102-146 | every session step keeps: delivered, in flight and held rows are consecutive segments of the log |
| StreamProtocol.NetKeepsEnd | frontend/src/lib/stream.ts:57-89 | every session step keeps: ended iff the last delivered event is terminal, no connection or timer once stopped, the connection's transport and the timer's delay the ones called for |
| StreamProtocol.NextTransport | frontend/src/lib/stream.ts:115-143 | a lost connection is followed by one resuming after lastSeq, over SSE iff it was SSE or a WebSocket that never opened |
| StreamProtocol.GrowthKeeps | backend/app/jobs.py:294-309 | an append by any writer keeps the session invariant |
| StreamTheorems.ExactlyOnce | frontend/src/lib/stream.ts:45-63 | for every interleaving of appends, batches, drops and reconnects, the events passed on are exactly log[afterSeq+1 .. lastSeq], in order |
| StreamTheorems.DeliveredGrows | frontend/src/lib/stream.ts:45-63 | what was passed on stays a prefix of what is passed on later, and nothing follows the end |
| StreamTheorems.FullFromStart | backend/app/api/stream.py:59-78 | the invariant the next rows assume holds in every reachable state of every session of a supervised run |
| StreamTheorems.EndedIsComplete | frontend/src/lib/stream.ts:57-62 | `ended` is reported only once the run is finished and the whole log was delivered, terminal status last |
| StreamTheorems.UnendedIsBehind | frontend/src/lib/stream.ts:57-62 | a client of a finished run that has not ended has something left to receive iff it was opened before the end of the log |
| StreamTheorems.ReconnectFetches | backend/app/api/stream.py:33-41 | the first fetch after a reconnect is the next min(500, what is left) rows |
| StreamTheorems.Reconnecting | frontend/src/lib/stream.ts:91-156 | over every session: SSE iff there is no WebSocket or one was lost before it opened, and from then on for good; a pending reconnect waits 500 ms doubled for every loss since the last delivery but the latest, up to 10 s |
| StreamTheorems.EachDeliveryCounts | frontend/src/lib/stream.ts:52-54 | in every continuation of every session lastSeq moves by exactly the number of deliveries, whatever drops, reconnects and appends come between |
| StreamTheorems.EndedIff | frontend/src/lib/stream.ts:57-62 | in every reachable state `ended` is reported iff the run is finished, the stream was opened before the end of its log, and all of it was delivered |
| StreamTheorems.EndsWithLastDelivery | frontend/src/lib/stream.ts:91-100 | for a finished run what is left falls by one with each delivery in every continuation, no continuation delivers more, and it ends the stream iff it delivers all of it |
| StreamTheorems.WholeSession | frontend/src/lib/stream.ts:28-63 | for every session from its opening: one event per delivery, never more than the log holds, and `ended` iff the run is finished and the deliveries cover all that followed afterSeq |
| StreamTheorems.CanEnd | frontend/src/lib/stream.ts:91-100 | a witness for the rows above: the deliveries they count can be brought about, so the terminal event is not lost |
| StreamTheorems.EndIffOpenedBefore | frontend/src/pages/RunDetail.tsx:88-104 | an open stream of a finished run can end iff it was opened before the end of the log |
| StreamTheorems.OpenStreamCanEnd | frontend/src/lib/stream.ts:28-63 | the same witness from any point of a run that is still going |
| StreamTheorems.FlushCarriesTheEnd | backend/app/api/stream.py:70-77 | the final flush carries the terminal event iff it is committed by then and within one batch |
| Results.ResultStore.PersistResult | backend/app/jobs.py:311-343 | the id chosen, whether the row is stored, and the whole new table and counters |
| Results.ResultStore.CountOne | backend/app/jobs.py:338-341 | one counter goes up by one, from zero if it was absent |
| Results.CountersAgree | backend/app/jobs.py:339-342 | for every sequence of results, the total equals the run's row count iff no stored status lowercases to "total"; every other counter equals its own count and they sum up |
| Results.FreshRunAgrees | backend/app/jobs.py:311-343 | a new run starts in agreement, whatever other runs left in the table |
| Results.StoredIff | backend/app/jobs.py:320-323 | a result is left unstored iff every id it may end up with is taken |
| Results.IdIsKept | backend/app/jobs.py:316-323 | an unused reported id is kept, a missing one is replaced by the first random id, a used one by the second |
| Results.OneRowIsStored | backend/app/jobs.py:324-337 | storing adds one row of this run with the reported status or "ERROR", and touches no other |
| Results.StreamedIdsAreStored | backend/app/jobs.py:278-289 | with fresh random ids, every streamed result carries the id of its own stored row and all are distinct |
| PathValidator.FindIssuer | ocsp_tester/path_validator.py:322-339 | the first intermediate with the issuer's name, else the first anchor, else nothing |
| PathValidator.CertificatePathValidator.VerifySignatures | ocsp_tester/path_validator.py:128-170 | the errors of the signature loop |
| PathValidator.CertificatePathValidator.CheckValidityPeriods | ocsp_tester/path_validator.py:172-224 | the errors of the validity loop |
| PathValidator.CertificatePathValidator.CheckBasicConstraints | ocsp_tester/path_validator.py:226-262 | the errors of the basic-constraints loop, and when reading an extension raises |
| PathValidator.CertificatePathValidator.CheckKeyUsage | ocsp_tester/path_validator.py:264-290 | the errors and warnings of the key-usage loop |
| PathValidator.CertificatePathValidator.CheckPathLength | ocsp_tester/path_validator.py:292-320 | the errors of the path-length loop |
| PathValidator.CertificatePathValidator.Validate | ocsp_tester/path_validator.py:38-126 | the result for the chosen time, and what the time field becomes |
| PathValidator.CertificatePathValidator.Judge | ocsp_tester/path_validator.py:57-126 | errors and warnings of the five checks put together, first failure that raises included |
| PathValidator.AnswerIsAccepts | ocsp_tester/path_validator.py:38-126 | the verdict is the conjunction of the five checks over every certificate; an accepted chain carries no warning |
| PathValidator.ErrorsAreDefects | ocsp_tester/path_validator.py:57-126 | the errors are the defects of the chain, each once and none besides, check by check, the end entity first and then by index |
| PathValidator.WarningsAre | ocsp_tester/path_validator.py:226-290 | when each warning appears, and that an unreadable certificate leaves one error and no warning |
| PathRefinement.CounterDecides | ocsp_tester/path_validator.py:292-320 | what the running max_path_length of section 6.1 of RFC 5280 decides, without the counter |
| PathRefinement.PathLengthRefines | ocsp_tester/path_validator.py:292-320 | the loop is sound for every chain, and equals the counter when none below the first is self-issued |
| PathRefinement.PathLengthRefinesIff | ocsp_tester/path_validator.py:292-320 | it equals the counter for all constraints iff none below the first is self-issued |
| PathRefinement.LeafFirstMeasuresUpwards | ocsp_tester/tests_path_validation.py:1186-1189 | handed leaf-first intermediates the loop compares each constraint with the certificates above it |
| PathRefinement.LeafFirstAgreesIff | ocsp_tester/tests_path_validation.py:1430-1433 | for every chain, self-issued certificates included: handed leaf-first, the loop is right for all constraints iff there is at most one intermediate |
| PathRefinement.RfcPathDecides | ocsp_tester/path_validator.py:38-126 | what the algorithm of section 6.1 of RFC 5280 decides from any position on: link checks and counter |
| PathRefinement.ValidatorRefinesRfc | ocsp_tester/path_validator.py:38-126 | with distinct CA names, the standard's algorithm accepts iff the validator does and the path is in order |
| PathAnchors.AcceptedWalk | ocsp_tester/path_validator.py:128-170 | on an accepted chain the walk from issuer to issuer never gets lost and every step is verified |
| PathAnchors.DescendingReachesAnchor | ocsp_tester/path_validator.py:322-339 | if names lead down a rank, acceptance implies reaching an anchor within len(intermediates) + 1 steps |
| PathAnchors.AcceptedReachesAnchorIff | ocsp_tester/path_validator.py:322-339 | for accepted chains: some rank falls iff an anchor is reached iff it is reached within that bound |
| PathAnchors.SelfIssuedAccepted | ocsp_tester/path_validator.py:322-339 | a chain accepted without any anchor |
| Membership.EntitledRole | backend/app/provisioning.py:79-87 | the highest role any of the user's groups grants, none iff no group grants any |
| Membership.GuardIsExact | backend/app/api/workspaces.py:245-257 | the guard refuses iff the workspace has an admin and the operation would leave it without one |
| Membership.GuardedIff | backend/app/api/workspaces.py:245-257 | the guard refuses iff the user is the one admin left and is not to become admin |
| Membership.ChangeOutcome | backend/app/api/workspaces.py:202-223 | each outcome of a role change by iff, and what it changes |
| Membership.RemoveOutcome | backend/app/api/workspaces.py:226-242 | the same for a removal |
| Membership.AddOutcome | backend/app/api/workspaces.py:168-199 | the same for an addition |
| Membership.RacingRemovals | backend/app/api/workspaces.py:226-257 | two removals that both pass the guard before either commits leave no admin iff the workspace has exactly two and these are they |
| Membership.SyncReconciles | backend/app/provisioning.py:90-145 | the sync's result, membership by membership |
| Membership.CandidatesIff | backend/app/provisioning.py:104-108 | the sync looks at a workspace iff it maps a group to some tier |
| Membership.SyncMeaning | backend/app/provisioning.py:115-142 | in a workspace that maps a group to some tier and has no hand-set row there is a row afterwards iff some group entitles the user, with the highest such role; everything else is unchanged |
| Membership.SyncByColumns | backend/app/provisioning.py:79-142 | the same column by column: the best column naming one of the user's groups becomes the role; with none, an earlier row is revoked iff any column is set |
| Membership.SyncOrderIrrelevant | backend/app/provisioning.py:107-142 | the order of the workspaces does not matter |
| Membership.SyncIdempotent | backend/app/provisioning.py:90-145 | a second sync changes nothing |
| Membership.SyncKeepsAdminIff | backend/app/provisioning.py:115-142 | a sync over any workspaces leaves a workspace an admin iff somebody else is one there, or the user stays or becomes one |
| Membership.ApplyLookup | backend/app/api/workspaces.py:168-242 | every operation's effect on every membership, and uniqueness |
| Membership.AdminNeverLost | backend/app/api/workspaces.py:202-257 | over every sequence of creations, additions, changes and removals a workspace with an admin keeps one |
| Membership.AdminKeptIff | backend/app/provisioning.py:115-142 | over every sequence of operations, syncs included, a workspace with an admin has one at every moment iff every sync spares one |
| Membership.AlwaysUnique | backend/app/orm.py:83-97 | over every sequence of operations, at most one row per workspace and user |
| Membership.HandSetIsPinned | backend/app/provisioning.py:115-142 | a hand-set membership is out of every later sync's reach |
| Membership.ChangeThenPinned | backend/app/api/workspaces.py:202-223 | a role set by hand stays through every later sync |
| Membership.MembershipTable.AddMember | backend/app/api/workspaces.py:168-199 | the new table, or why it was refused |
| Membership.MembershipTable.ChangeMemberRole | backend/app/api/workspaces.py:202-223 | the new table, or why it was refused |
| Membership.MembershipTable.RemoveMember | backend/app/api/workspaces.py:226-242 | the new table, or why it was refused |
| Membership.MembershipTable.SyncGroups | backend/app/provisioning.py:90-145 | the new table; `changed` is true iff it differs from the old one |
| Membership.MembershipTable.SyncWorkspace | backend/app/provisioning.py:115-142 | the loop body for one workspace |
| Authz.GrantedIff | backend/app/authz.py:206-229 | access is granted iff the principal holds the required role there, and the role granted is the highest it holds under membership and token ceiling |
| Authz.RefusedIff | backend/app/authz.py:206-229 | each reason for a refusal, by iff and in order of precedence |
| Authz.AccessControl.ActiveWorkspace | backend/app/authz.py:167-203 | the decision, with the fallback for a request that names no workspace |
| Authz.AccessControl.DefaultWorkspaceFor | backend/app/authz.py:143-164 | the personal workspace, created with its owner as administrator if missing; the shared one in open mode |
| Authz.AccessControl.AuthorizeWorkspaceRole | backend/app/authz.py:206-229 | the same decision as the other resolvers, errors included |
| Authz.AccessControl.RequireWorkspace | backend/app/authz.py:232-265 | the same decision as the other resolvers, errors included |
| Authz.AccessControl.AuthorizeRunView | backend/app/authz.py:313-337 | membership, token scope and the visibility policy |
| Authz.AccessControl.GetRunOr404 | backend/app/api/runs.py:63-76 | a run is found iff it is in the context's workspace and visible there |
| Authz.AccessControl.VisibilityFilter | backend/app/api/runs.py:102-110 | a query keeps exactly its runs that the caller may have listed |
| Authz.TokenIsConfined | backend/app/authz.py:176-200 | a workspace token is granted nothing elsewhere, even when no workspace is named, and nothing above its ceiling |
| Authz.RunViewIsActiveThenFetch | backend/app/authz.py:313-337 | the run view holds iff resolving the run's workspace and fetching the run there succeeds |
| Authz.OrphanRunIsHidden | backend/app/orm.py:133-135 | a run without a workspace is visible to nobody |
| Authz.ListedIffFetchable | backend/app/api/runs.py:102-110 | every listed run is fetchable, and exactly which fetchable ones are not listed |
| Authz.FallbackAgreesIff | backend/app/authz.py:182-183 | exactly when the fallback and the run view agree on all runs of the personal workspace |
| Authz.UnnamedRequest | backend/app/authz.py:143-203 | what a request without a workspace gets: the shared one in open mode and nothing created, else the personal one, created iff missing; refused iff the token's ceiling is too low |
| Authz.FreshFallbackAgrees | backend/app/provisioning.py:18-41 | they agree for a workspace created on the same request |
| Authz.AccessFollowsGroups | backend/app/provisioning.py:115-142 | after a login's sync, access without a hand-set membership is granted iff some group grants enough |
| Authz.HandSetAccessIsPinned | backend/app/provisioning.py:115-142 | access resting on a hand-set membership is unaffected by later syncs and by edits of other memberships |
| RateLimiter.LoginLimiter.IsLimited | backend/app/api/auth.py:40-44 | five failures in an open window |
| RateLimiter.LoginLimiter.Record | backend/app/api/auth.py:47-51 | the window continues or a new one opens |
| RateLimiter.LoginLimiter.Login | backend/app/api/auth.py:95-116 | the verdict, the key's new window, and that no other key changes |
| RateLimiter.AttemptMeans | backend/app/api/auth.py:95-116 | during a lockout an attempt is turned away whatever the password and changes nothing; otherwise it is let in iff the password is right, which clears the entry, and a wrong one counts |
| RateLimiter.RateBound | backend/app/api/auth.py:40-55 | over every sequence of attempts no window records more than 5 failures, and between clears every half-open 300 s span has at most 9 attempts whose answer tells a right password from a wrong one |
| RateLimiter.NineIsReached | backend/app/api/auth.py:40-51 | nine is the best bound |
| RateLimiter.OverlapBound | backend/app/api/auth.py:95-116 | over every interleaving of attempts with at most c in flight no window records more than 4 + c failures |
| RateLimiter.OverlapBoundIsExact | backend/app/api/auth.py:95-116 | the counts such interleavings can reach are exactly 1 to 4 + c |
| RateLimiter.ConcurrentAttemptsEscape | backend/app/api/auth.py:40-51 | with no limit on the attempts in flight there is none on the failures: n attempts that all ask before any records are all let through |
| Schema.KeyWidens | backend/app/db.py:134-160 | a key that holds still holds with more columns |
| Schema.PassReaches | backend/app/db.py:45-101 | a pass that goes through keeps every row and its model-column values and puts every addable column, index and composite key in place |
| Schema.SecondPassIdle | backend/app/db.py:45-101 | a second pass changes nothing |
| Schema.RebuiltIsModel | backend/app/db.py:134-160 | a rebuilt table has the model's columns, NOT NULLs, keys and indexes, and every row's values |
| Schema.ConstraintsAfter | backend/app/db.py:45-101 | what a pass does to a table's NOT NULLs and keys |
| Schema.PartsAfter | backend/app/db.py:64-90 | which columns and indexes a table has after a pass |
| Schema.RelaxationMeans | backend/app/db.py:124-132 | already correct: no global key and a key over the composite's columns |
| Schema.InterruptedIsOverlooked | backend/app/db.py:134-160 | after a refused rebuild the next start goes through with an empty table, the rows still under the temporary name |
| Schema.RebuildIff | backend/app/db.py:134-160 | the rebuild's copy cannot violate the composite key; it goes through iff no NULL stands in a NOT NULL column |
| Schema.SqlitePassIff | backend/app/db.py:104-170 | on SQLite the pass goes through iff every row has a value in every NOT NULL column of the model |
| Schema.PostgresPassGoesThrough | backend/app/db.py:161-170 | on PostgreSQL it always does |
| Schema.Database.AddMissingColumns | backend/app/db.py:64-83 | the table after the column loop |
| Schema.Database.CreateMissingIndexes | backend/app/db.py:85-90 | the table after the index loop, or the refusal |
| Schema.Database.RebuildTable | backend/app/db.py:134-160 | rename, create, copy and drop; or the refusal by the rows or by a left-over temporary table, and what is there then |
| Schema.Database.RelaxUniqueKey | backend/app/db.py:104-170 | the table after relaxing one global key, and when it is refused; a missing table is left alone |
| Schema.Database.ReconcileExistingTables | backend/app/db.py:45-101 | for any declared tables, existing or not: the pass goes through iff it does for every existing one, each of these becomes its reconciled self, and no other table changes; a pass that does not go through loses no row |
| TargetPolicy.AllowedIff | backend/app/ssrf.py:57-98 | an address is allowed iff it is not a metadata endpoint and lies in no special range or the policy admits private targets; mapped spellings count as the IPv4 address |
| TargetPolicy.ReasonIs | backend/app/ssrf.py:66-98 | why an address is blocked, by precedence, and what the policy waives |
| TargetPolicy.ResolveHost | backend/app/ssrf.py:101-114 | the usable addresses of an answer, or a refusal |
| TargetPolicy.CheckAddresses | backend/app/ssrf.py:141-147 | every address is allowed, with their texts in order, or a refusal |
| TargetPolicy.ResolveAndValidate | backend/app/ssrf.py:117-147 | passed iff scheme, host, block list and every resolved address satisfy the policy, with the address texts in order |
| TargetPolicy.PassedIff | backend/app/ssrf.py:117-147 | when a URL passes and what is handed on, condition by condition |
| TargetPolicy.UsableInOrder | backend/app/ssrf.py:101-114 | the usable entries are taken in the order of the answer |
| TargetPolicy.TextsInOrder | backend/app/ssrf.py:141-147 | each address is handed on as its normalised text |
| TargetPolicy.GuardedGetaddrinfo | backend/app/ssrf.py:189-206 | what the guard hands on, and when it raises |
| TargetPolicy.GuardKeepsTheAllowed | backend/app/ssrf.py:189-206 | the guard hands on exactly the allowed addresses and what is no address |
| TargetPolicy.GuardKeepsOrder | backend/app/ssrf.py:189-206 | the guard neither reorders nor repeats |
| TargetPolicy.GuardAgreesWithValidation | backend/app/ssrf.py:168-206 | for an ordinary host, validation passes iff there is an address and the guard drops none |
| GuardedFetch.PinnedAuthorityIsTheAddress | backend/app/ssrf.py:243-247 | the pinned authority reads back as the validated address and the number of the URL's port, in decimal without leading zeros, for IPv4 and IPv6 |
| GuardedFetch.ReadBody | backend/app/ssrf.py:258-265 | the early stop happens iff the whole body exceeds the limit |
| GuardedFetch.FetchHop | backend/app/ssrf.py:233-267 | one pass of the redirect loop, event by event |
| GuardedFetch.GuardedFetch | backend/app/ssrf.py:211-268 | the whole trace and outcome for every world |
| GuardedFetch.FetchIsSafe | backend/app/ssrf.py:231-252 | every connection directly follows a successful validation of the same URL, plain HTTP goes to the first validated address, and at most max_redirects + 1 connections are opened |
| GuardedFetch.NeverPinnedToMetadata | backend/app/ssrf.py:87-98 | no policy lets a pinned connection reach a metadata endpoint |
| GuardedFetch.BodyIsBounded | backend/app/ssrf.py:258-265 | a returned body is at most max_bytes long |
| GuardedFetch.OutcomeOfChain | backend/app/ssrf.py:231-268 | the outcome is that of the redirect chain if it is short enough, and otherwise a refusal |
| GuardedFetch.HopMeans | backend/app/ssrf.py:233-267 | what one hop comes to, in terms of the parsed URL, the DNS answer and the server's answer |
| GuardedFetch.FetchComesToIff | backend/app/ssrf.py:231-268 | a body or an error is the outcome iff some chain of at most max_redirects redirects, each hop admitted, ends in it |
| GuardedFetch.ChunksInOrder | backend/app/ssrf.py:258-265 | the body is the chunks in the order they arrive |
| GuardedFetch.RequestsAreTraced | backend/app/ssrf.py:241-252 | every request a chain calls for is in the trace |
| PemExtractor.ExtractCertificates | ocsp_tester/monitor.py:6439-6470 | the certificates the line scan extracts |
| PemExtractor.BuildBundle | ocsp_tester/monitor.py:6398-6428 | the bundle file, or none when the response has no certificate |
| PemExtractor.ExtractsExactlyTheBlocks | ocsp_tester/monitor.py:6439-6470 | for every text the extracted certificates are its BEGIN, unmarked, END line ranges: all of them, once each, in order |
| PemExtractor.RoundTrip | ocsp_tester/monitor.py:6439-6470 | blocks separated by lines without markers come back exactly, in order |
| PemExtractor.MarksAre | ocsp_tester/monitor.py:6444-6462 | a line is a BEGIN or END line iff the marker text stands on it after blanks |
| PemExtractor.WrittenCertificates | ocsp_tester/monitor.py:6439-6470 | certificates written with the two marker lines, among any other text, are extracted whole and in order |
| PemExtractor.ExtractedAreBlocks | ocsp_tester/monitor.py:6452-6462 | every extracted certificate is such a block |
| PemExtractor.BundleRoundTrip | ocsp_tester/monitor.py:6416-6428 | for all texts, the written bundle yields the issuer file's blocks and then the response's |
| LogLevels.PrefixIsRead | backend/app/worker/loglevels.py:17-28 | a bracketed word at the front is stripped with the blanks around it iff it names a level |
| LogLevels.LevelNames | backend/app/worker/loglevels.py:17-28 | which words name which level, in any case |
| LogLevels.MessageIsSuffix | backend/app/worker/loglevels.py:20-28 | only text at the front is taken away |
| PrintInterceptor.Interceptor.Write | backend/app/worker/__main__.py:45-58 | the new buffer and events, and the returned length |
| PrintInterceptor.Interceptor.EmitLine | backend/app/worker/__main__.py:50-57 | what one finished line adds |
| PrintInterceptor.WholeLines | backend/app/worker/__main__.py:45-61 | however a text is cut into writes, the events are those of its finished lines and the buffer its unfinished one |
| PrintInterceptor.ChunkingInvariance | backend/app/worker/__main__.py:45-58 | two ways of cutting a text leave the same events and buffer |
| PrintInterceptor.NoKeyIsReported | backend/app/worker/__main__.py:51-57 | no emitted event mentions a private key |
| PrintInterceptor.LineBecomes | backend/app/worker/__main__.py:51-58 | a line with the words becomes the fixed notice, a blank one nothing |
| PrintInterceptor.KeyBodyIsReported | backend/app/worker/__main__.py:51-52 | lines between the marker lines of a printed key are reported as they stand |
| PrintInterceptor.HiddenIff | backend/app/worker/__main__.py:50-57 | the lines of a printed key stay hidden iff each of them is blank, carries the marker words, or is the replacement itself |

## Left out

- Boot-time `mark_orphans_failed`, `shutdown` and `delete_run`: they write or remove rows outside supervision, so nothing is claimed of runs they touch.
- Deleted runs in the stream and in appends: the branches for a missing run row are not modelled.
- Process groups, real timers, asyncio scheduling and notifications: timeout, crash, end of file and drops are steps that may happen at any time.
- Concurrency caps in `create_run` and `rerun_run`: a check followed by awaits, only a sequential admission rule.
- RunLifecycle.StoredOutcome: the error text, latency summary and current activity stored beside the status are not modelled.
- Results.StreamedIdsAreStored: assumes that random ids are not in use when drawn; `StoredIff` says what happens otherwise.
- Results.CountersAgree: the transaction is modelled on its own, not inside the run's transition system, because it does not touch the log.
- StreamServer.EventStream: waiting between polls and keep-alives are left out.
- RunLifecycle.CanFinish: an existence claim; `RunTheorems.EveryRunFinishes` speaks of every schedule.
- StreamTheorems.CanEnd: an existence claim, as `OpenStreamCanEnd` is; `EndsWithLastDelivery` and `WholeSession` speak of every continuation. That the network goes on delivering is assumed of no schedule.
- StreamClient.RunStream.OnFrame: the text of a malformed frame plays no role.
- PathValidator.CertificatePathValidator.Judge: the validator's policy parameters are unused by the code and absent here; revocation placeholders and signature algorithms are outside the model.
- PathRefinement.ValidatorRefinesRfc: name constraints, policies and unknown critical extensions of section 6.1 of RFC 5280 are not checked by the code and not part of the comparison.
- Membership.MembershipTable.SyncGroups: group claims and the user row are inputs; the query for candidate workspaces is a list with distinct ids.
- Authz.AccessControl.DefaultWorkspaceFor: the id of a created workspace is an input, and the shared default workspace is taken to exist.
- Authz.GrantedIff: stored role strings are taken to be valid, and authentication itself is not modelled.
- RateLimiter.RateBound: one process's table; several server processes keep separate tables.
- Schema.Database.RebuildTable: primary keys are copied as they are and column types play no role.
- GuardedFetch.FetchIsSafe: an HTTPS hop is dialled by name, so which address it reaches is left to certificate verification, as in the code.
- GuardedFetch.PinnedAuthorityIsTheAddress: address texts are assumed to contain no square brackets.
- TargetPolicy.ResolveAndValidate: parsed URLs and address ranges are inputs.
- PemExtractor.BuildBundle: file names, time stamps and newline translation of the file system are not modelled.
- LogLevels.PrefixIsRead: case folding is that of ASCII letters.
- PrintInterceptor.Interceptor.Write: `flush` does nothing, so an unterminated last line is never emitted; the lock is left out.
- CSV and JSON export, audit rows, cookies, password hashing, the OIDC token exchange, settings and the user interface: thin wrappers or plumbing.
