# Verified models of the hard parts of Pico

A Dafny 4.11 project that models, and proves properties of, the parts of the repository where several actors share
state, where every external step may fail, or where two programs must agree on a text. `dafny verify dfyconfig.toml`
checks all of it.

Every concurrent part is modelled the same way. A datatype holds the state, a `Step` function is one critical section,
one turn of an event loop or one failing external call, and `Run` applies any sequence of steps. Whatever the source
leaves open (clocks, provider answers, Docker, files, the order of threads) is a parameter of the step, so a lemma about
`Run` is about every interleaving and every outcome. Beside the step functions stand classes with the source's own
fields; each method is proved to have exactly the effect of its step. What a step answers, and that it gets through where
it should, is stated apart from the step functions (`GatewayAnswers`, `TerminalRepair`, `TerminalTyping`,
`EgressAnswers`, `ArtifactDelivery`, `ExperimentHistory`, `JsonForms`), in the amounts and conditions of the source, so
that safety is never won by refusing or dropping what the source would serve.

* **Gateway ledger** (`Estimator`, `Accounting`, `GatewayLedger`, `GatewayReach`, `GatewayInvariant`, `GatewayRuns`, `GatewayFinality`,
  `GatewayUsage`, `GatewayAnswers`, `GatewayState`): the supervisor's reserve-and-settle ledger over any number of trials and one run
  budget, with requests in flight while the lock is free, revocation racing with them, and cancellation that may not be
  confirmed.
* **Receipts and reported usage** (`Receipt`, `UsageReport`): the agent's independent check of a frozen receipt, and what
  it then reports.
* **Terminal** (`TerminalLog`, `TerminalStream`, `TerminalSafety`, `TerminalRepair`, `TerminalClient`, `TerminalInput`,
  `TerminalTyping`, `TerminalControls`): the phone's terminal as a protocol against the server's log that repairs its
  gaps, and its bounded input queue.
* **Public egress** (`DohClosure`, `EgressSockets`, `EgressAnswers`, `EgressProxy`, `EgressAccess`, `EgressLifecycle`):
  following DNS aliases, the socket registry under shutdown, and starting and stopping egress around a verifier.
* **Deadlines** (`Deadlines`): nested time budgets, the retry loop, and a cutoff handed over between clocks.
* **Artifact cache** (`Base64`, `RelayDownload`, `LocalData`, `ArtifactCache`, `ArtifactDelivery`, `ArtifactCacheState`):
  strict base64, the chunk loop, and clearing a cache that downloads are writing to.
* **Experiments** (`JsonText`, `CanonicalJson`, `JsonForms`, `ExperimentMatrix`, `ExperimentRun`, `ExperimentHistory`,
  `ExperimentDirectory`): canonical JSON, the matrix of cells, and resuming an interrupted run.

Three findings where a reader might expect otherwise:

* The documentation of `provider_request_admission_deadlines` calls the headless cutoff conservative. The wall clock it
  is projected onto is read last, so the cutoff itself errs late as soon as a millisecond passes between the reads
  (`Deadlines.CutoffIsConservative`, `Deadlines.CutoffErrsLate`); it is the one-second dispatch margin of the headless
  process that makes up for it, within exactly the bound that `Deadlines.PrecheckIsConservative` gives.
* Stopping egress may be repeated after every failure but one: once the proxy's own stop has raised, it raises for good,
  so the object is never stopped and keeps its token, though the proxy is revoked. `EgressAccess.StoppableExactly` gives
  the exact condition.
* An egress proxy that was never started reports itself expired, and becomes active when started; inactivity is
  permanent exactly when a flag is set or the proxy has been started (`EgressSockets.InactivityIsPermanent`).

## Model

| member | source | states |
|---|---|---|
| Estimator.EstimateRequestInputTokens | benchmarks/terminal_bench_2_1/gateway_supervisor.py:707-737 | the counting loop computes the estimate: ASCII characters in groups, every other byte on its own, at least one token |
| Estimator.EstimateWithinBody | benchmarks/terminal_bench_2_1/gateway_supervisor.py:707-737 | the estimate never exceeds the UTF-8 length of a nonempty body, and is never below its share of it |
| Estimator.EstimateCounts | benchmarks/terminal_bench_2_1/gateway_supervisor.py:707-737 | four ASCII characters count as one token, rounded up, and every other byte as one |
| Accounting.BalancedEntriesBalance | benchmarks/terminal_bench_2_1/gateway_supervisor.py:763-800 | if every entry balances (reserved + supplement = used + refund + unreconciled) so do the column sums |
| Accounting.CountsPartition | benchmarks/terminal_bench_2_1/gateway_supervisor.py:763-800 | pending, reconciled and unreconciled entries make up all entries |
| Accounting.TokenCostMonotone | benchmarks/terminal_bench_2_1/gateway_supervisor.py:979-983 | more tokens never cost less |
| Accounting.CeilingsOvershootBelowOnePerRequest | benchmarks/terminal_bench_2_1/gateway_supervisor.py:979-983 | the sum of per-request ceilings exceeds the exact price by less than one micro-unit a request |
| GatewayReach.SettleReach | benchmarks/terminal_bench_2_1/gateway_supervisor.py:401-481 | settling ends one request and reaches nothing else: other trials, the receipt and the number of requests stay, a revoked trial stays revoked |
| GatewayReach.FailReach | benchmarks/terminal_bench_2_1/gateway_supervisor.py:483-510 | failing ends one request and reaches nothing else; actual usage stays |
| GatewayReach.AdmitReach | benchmarks/terminal_bench_2_1/gateway_supervisor.py:293-389 | a refusal changes nothing, except that an exhausted run revokes the trial; an admission needs an idle trial that is not revoked and an open run, and changes that trial only |
| GatewayInvariant.StepKeeps | benchmarks/terminal_bench_2_1/gateway_supervisor.py:226-557 | every critical section keeps the ledger invariant: an entry is pending exactly when its request is active, totals are the sums of the entries, every thread's entry exists |
| GatewayInvariant.RunKeeps | benchmarks/terminal_bench_2_1/gateway_supervisor.py:226-557 | the invariant holds after every interleaving of registrations, admissions, settlements, failures and revocations |
| GatewayInvariant.AdmittedMeans | benchmarks/terminal_bench_2_1/gateway_supervisor.py:293-389 | a request is admitted if and only if it is well formed and its trial is registered, current, not revoked, idle, within every quota and within the open run budget |
| GatewayRuns.FrozenReceiptsAreAccepted | benchmarks/terminal_bench_2_1/gateway_supervisor.py:512-557 | in every reachable state every frozen receipt passes every check of the agent's validator |
| GatewayRuns.FrozenReceiptsAreNobodyElses | benchmarks/terminal_bench_2_1/pico_agent.py:1230-1242 | in every reachable state a frozen receipt is accepted for one identity only: the run, trial id, protocol and pricing it was frozen for |
| GatewayRuns.TrialQuotasConserved | benchmarks/terminal_bench_2_1/gateway_supervisor.py:364-510 | what a trial may still spend is its quota less reservations plus refunds less supplements, the quota being full for a registered trial and zero for a tombstone; at most one request is active and it is the one pending entry; a trial within budget has no negative remainder, no unreconciled request and no output supplement |
| GatewayRuns.RegisteredTrialConserved | benchmarks/terminal_bench_2_1/gateway_supervisor.py:245-510 | from its registration on, through every continuation, a trial's attempts and requests left add up to 128 and each quota left is its full value less reservations plus refunds less supplements |
| GatewayRuns.RunBudgetConserved | benchmarks/terminal_bench_2_1/gateway_supervisor.py:350-481 | run budget left is the maximum less settled cost and open reservations over all trials; a negative remainder implies the run is closed |
| GatewayFinality.RevocationIsFinal | benchmarks/terminal_bench_2_1/gateway_supervisor.py:512-530 | after a revoke took the lock for an id, registered or not, every later registration or request for it is refused |
| GatewayFinality.ReceiptIsFinal | benchmarks/terminal_bench_2_1/gateway_supervisor.py:512-557 | once frozen, a trial never changes again, and every later or concurrent revoke that returns a receipt returns this one |
| GatewayFinality.ClosedRunDrains | benchmarks/terminal_bench_2_1/gateway_supervisor.py:350-481 | closing is permanent, nothing is admitted afterwards, and each trial settles at most one more request |
| GatewayFinality.EachRequestSettlesAtMostOnce | benchmarks/terminal_bench_2_1/gateway_supervisor.py:401-481 | no run settles a request twice |
| GatewayFinality.UnconfirmedCancellationBlocksReceipt | benchmarks/terminal_bench_2_1/gateway_supervisor.py:483-510 | if cancelling an unsettled request raises, the request stays active and its entry pending for good, and its trial never yields a receipt |
| GatewayUsage.RunBills | benchmarks/terminal_bench_2_1/gateway_supervisor.py:401-481 | a trial's actual usage is the sum of what each of its settlements parsed, at its own ceiling price |
| GatewayUsage.ReportedUsageIsBilledUsage | benchmarks/terminal_bench_2_1/pico_agent.py:1074-1181 | end to end: if a run froze a receipt and the agent's accounting of it returns, the tokens in its context are the trial's parsed provider usage, the cost in its metadata is the sum of per-request ceilings, and all are within quota |
| GatewayUsage.CostReservationDominates | benchmarks/terminal_bench_2_1/gateway_supervisor.py:289-481 | if the provider bills at most a token per body byte plus the margin and respects the output cap, no settled request has a cost supplement and the run never closes |
| GatewayUsage.CostReservationCoversTokenReservation | benchmarks/terminal_bench_2_1/gateway_supervisor.py:289-324 | the money reserved covers the price of the tokens reserved |
| GatewayAnswers.SettlementAnswer | benchmarks/terminal_bench_2_1/gateway_supervisor.py:401-481 | a settlement is refused if and only if the input is above 1,000,000 tokens, the output above what was reserved, or the trial or the run cannot pay the usage out of what is left and what was reserved; it returns the response if and only if neither that nor a revocation happened; the trial is revoked and out of budget afterwards exactly if it was or the settlement was refused |
| GatewayAnswers.ReservedUsageIsPaid | benchmarks/terminal_bench_2_1/gateway_supervisor.py:364-481 | in every reachable state, whatever the other trials did, usage within what the request reserved is refused only because the run is overdrawn beyond what the request gives back, and otherwise leaves its trial's standing alone |
| GatewayAnswers.ReservedProviderNeverRevokes | benchmarks/terminal_bench_2_1/gateway_supervisor.py:364-481 | over every interleaving, if the provider never bills more than the requests reserved, no settlement is refused and none revokes a trial, breaks its budget or closes the run |
| GatewayAnswers.FailureAnswer | benchmarks/terminal_bench_2_1/gateway_supervisor.py:483-510 | a confirmed failure of an active request makes it unreconciled, keeps its reservation, and revokes its trial; after a settlement it changes nothing |
| GatewayAnswers.RegistrationAnswer | benchmarks/terminal_bench_2_1/gateway_supervisor.py:226-263 | a registration succeeds if and only if the id is new and well formed, the route right, the lifetime at most 12,000 seconds and the deadline within it; the trial then starts with 128 requests and every quota full; otherwise nothing changes |
| GatewayAnswers.AdmissionAnswer | benchmarks/terminal_bench_2_1/gateway_supervisor.py:265-400 | a request is admitted if and only if it is presentable, its trial admits it and the open run can pay; the same amounts leave the trial and the run and enter the thread; a trial that only the run could not pay for is revoked, and every other refusal changes nothing |
| GatewayAnswers.FirstFailingCheckDecides | benchmarks/terminal_bench_2_1/gateway_supervisor.py:265-362 | a refused request is refused for the first check it fails, in the order of the source |
| GatewayAnswers.ReceiptStillPossibleExactly | benchmarks/terminal_bench_2_1/gateway_supervisor.py:483-557 | from every reachable state some continuation freezes a receipt for an id if and only if the id is valid and its active request, if any, still has the proxy call that ends it |
| GatewayState.GatewayState.Register | benchmarks/terminal_bench_2_1/gateway_supervisor.py:226-263 | a known id, a bad identity, route, lifetime or deadline is refused with nothing changed; otherwise the trial starts with every quota full, and expires and closes admission when it should |
| GatewayState.GatewayState.PrepareRequest | benchmarks/terminal_bench_2_1/gateway_supervisor.py:265-292 | which requests are refused before the lock, and what the others ask to reserve |
| GatewayState.GatewayState.Admit | benchmarks/terminal_bench_2_1/gateway_supervisor.py:293-400 | the first failing check, in the source's order, decides the refusal; an exhausted run revokes the trial; an admission reserves the same amounts from trial, run and accounting and appends one pending entry |
| GatewayState.GatewayState.Settle | benchmarks/terminal_bench_2_1/gateway_supervisor.py:401-481 | the reservation is replaced by actual usage in trial, run budget and entry, as refund or supplement; usage beyond a quota revokes the trial, exactly when `GatewayAnswers.SettlementAnswer` says, and an overdrawn run closes |
| GatewayState.GatewayState.Fail | benchmarks/terminal_bench_2_1/gateway_supervisor.py:483-510 | an active request becomes unreconciled with its whole reservation and its trial is revoked; one that is no longer active changes nothing but the thread |
| GatewayState.GatewayState.RevokeMark | benchmarks/terminal_bench_2_1/gateway_supervisor.py:512-530 | a known trial or a tombstone is revoked; a receipt that exists is returned at once |
| GatewayState.GatewayState.RevokeFinish | benchmarks/terminal_bench_2_1/gateway_supervisor.py:531-557 | with nothing active the accounting is frozen and returned; otherwise the caller gives up |
| Receipt.CheckEntry | benchmarks/terminal_bench_2_1/pico_agent.py:1321-1379 | an entry is accepted if and only if sequence, balance, price and outcome are right, and never while pending |
| Receipt.RecountEntries | benchmarks/terminal_bench_2_1/pico_agent.py:1307-1389 | the validator's loop accepts exactly the valid lists and re-adds every column and count |
| Receipt.CheckRequests | benchmarks/terminal_bench_2_1/pico_agent.py:1281-1308 | the request counts are accepted if and only if they agree with each other and with the number of entries |
| Receipt.CheckSummary | benchmarks/terminal_bench_2_1/pico_agent.py:1390-1410 | the totals are accepted if and only if they balance, price and status included |
| Receipt.ValidateGatewayAccountingReceipt | benchmarks/terminal_bench_2_1/pico_agent.py:1198-1411 | a receipt is accepted if and only if it is valid for the expected identity, which is at most one (`Receipt.ReceiptIsOfOneIdentity`) |
| Receipt.ReceiptIsOfOneIdentity | benchmarks/terminal_bench_2_1/pico_agent.py:1230-1252 | a receipt accepted for one identity is refused for every other run, trial, protocol or pricing |
| Receipt.AcceptedReceiptIsDetermined | benchmarks/terminal_bench_2_1/pico_agent.py:1281-1411 | route, budget flag and the requests in order determine every other field of an accepted receipt |
| Receipt.AcceptedReceiptMeaning | benchmarks/terminal_bench_2_1/pico_agent.py:1198-1411 | an accepted receipt has nothing pending, states its total in CNY, is reconciled exactly if every entry is, and then costs within one micro-unit a request of the exact price |
| UsageReport.ReturnsExactly | benchmarks/terminal_bench_2_1/pico_agent.py:1077-1181 | the call returns if and only if the receipt is settled and the tokens agree, or one of the three grounds for overruling the runtime holds, spelled out |
| UsageReport.ApplyingAgainIsStable | benchmarks/terminal_bench_2_1/pico_agent.py:1074-1181 | a call that returned returns again for the same receipt with the same tokens and cost; a runtime that asked for the signed usage keeps its claim over a receipt that was refused |
| UsageReport.AgentContext.ClassifySignedUsage | benchmarks/terminal_bench_2_1/pico_agent.py:1077-1140 | when the signed usage may replace the runtime's own |
| UsageReport.AgentContext.ApplyGatewayAccounting | benchmarks/terminal_bench_2_1/pico_agent.py:1074-1181 | it returns exactly when the receipt is settled within budget and the runtime agrees or may be overruled; then the gateway's tokens are reported, and otherwise the tokens are left alone |
| TerminalLog.ServeAnswers | packages/runtime-host/src/server/workbar-terminal-authority.ts:591-686 | what an attach reply holds: the output after the requested sequence, or a marked tail of all output |
| TerminalSafety.StepKeeps | apps/mobile/src/Terminal.tsx:147-358 | every callback, under any delivery, keeps the display unbroken up to the position, or up to the position the request that is out named, and buffers only genuine frames |
| TerminalSafety.DisplayIsContiguous | apps/mobile/src/Terminal.tsx:186-332 | for any order, repetition or loss of frames and any refusal by the output queue: whenever there is a position, the display was last reset with the snapshot of an answer of the position's epoch and since then was given exactly the output of the events after that answer up to the position; it holds everything the epoch printed if that snapshot was not truncated |
| TerminalSafety.PositionHeldWhileAttaching | apps/mobile/src/Terminal.tsx:222-301 | from any moment of any run, as long as an attach awaits the ping, the server or a detach and no answer is adopted, the position is the one it was or lost; while the request is out it is the one the request named, or lost |
| TerminalSafety.EpochChangesOnlyThroughLoss | apps/mobile/src/Terminal.tsx:186-301 | no step moves from a position in one epoch to a position in another |
| TerminalSafety.EpochChangeForcesReset | apps/mobile/src/Terminal.tsx:258-291 | between two moments of a run with positions in different epochs a snapshot of the later epoch was accepted as a reset, and nothing from before it is displayed |
| TerminalSafety.ReplacesExactly | apps/mobile/src/Terminal.tsx:273-285 | an adopted snapshot replaces what was displayed if and only if its request had no position or another epoch's, or the snapshot is truncated; a position lost while the request is out does not make it replace |
| TerminalSafety.LostPositionForcesReset | apps/mobile/src/Terminal.tsx:237-283 | after a request sent without a position, what the display then holds does not depend on anything before |
| TerminalSafety.ConsumeLeavesOnlyGaps | apps/mobile/src/Terminal.tsx:186-221 | if the position survives a consume, every frame still buffered lies beyond a gap |
| TerminalSafety.SortKeeps | apps/mobile/src/Terminal.tsx:199-201 | ordering the buffer loses and duplicates no frame |
| TerminalSafety.SortOrders | apps/mobile/src/Terminal.tsx:199-201 | the buffer is in sequence order afterwards |
| TerminalRepair.FrameShownOrFetched | apps/mobile/src/Terminal.tsx:302-332 | a frame that reaches an idle client is dropped only if its epoch is over or the position is past it; otherwise either an attach is under way afterwards, or the position has reached it and the buffer is empty |
| TerminalRepair.GapIsFetched | apps/mobile/src/Terminal.tsx:322-332 | an idle client with an empty buffer that gets a frame of its epoch beyond the next one is attaching afterwards |
| TerminalRepair.DeliveryIsShownOrFetched | apps/mobile/src/Terminal.tsx:302-332 | in every reachable state, after a genuine frame was delivered to an idle client, its epoch is over, an attach is under way, or the display has reached it with nothing left buffered |
| TerminalRepair.FrameWaitsForAttach | apps/mobile/src/Terminal.tsx:314-321 | while an attach is under way a frame waits behind the others; more than 256 frames or 128 KiB cost buffer and position, and another request is asked for |
| TerminalRepair.NextFrameIsShown | apps/mobile/src/Terminal.tsx:322-332 | the next frame is shown at once by an idle client whose output queue accepts it, and nobody is asked |
| TerminalRepair.ThreeRequestsAtMost | apps/mobile/src/Terminal.tsx:234-246 | an attach sends at most three requests and then gives up |
| TerminalRepair.CatchingUpIsPossible | apps/mobile/src/Terminal.tsx:222-301 | from every reachable state of a connected client some continuation without new output leaves it at rest at the end of the current epoch's log with nothing buffered, if only the output queue takes its next write |
| TerminalRepair.ReadOnlyWhileBehind | apps/mobile/src/Terminal.tsx:86-90 | in every reachable state the terminal is read-only as long as it has no position and as long as an attach is under way |
| TerminalRepair.AnswerRetiresEpochs | apps/mobile/src/Terminal.tsx:254-279 | an answer retires every other epoch buffered before its request and the epoch confirmed before; an answer of another epoch than the request named retires that one and everything queued for it |
| TerminalRepair.LossRetiresInput | apps/mobile/src/Terminal.tsx:322-326 | a frame of an unknown epoch, or a restarted display, costs the position, retires queued input and starts an attach |
| TerminalClient.TerminalClient.InvalidatePosition | apps/mobile/src/Terminal.tsx:86-90 | the position is gone and nothing else changes |
| TerminalClient.TerminalClient.Output | apps/mobile/src/Terminal.tsx:91-97 | accepted data extends or replaces the display; refused data loses the position and asks to recover |
| TerminalClient.TerminalClient.Apply | apps/mobile/src/Terminal.tsx:174-185 | one frame moves the position and shows its output |
| TerminalClient.TerminalClient.ApplyBuffered | apps/mobile/src/Terminal.tsx:206-220 | consecutive frames are applied until a gap, a lost position or an empty buffer; repeated ones are dropped |
| TerminalClient.TerminalClient.Consume | apps/mobile/src/Terminal.tsx:186-221 | a foreign epoch loses the position; otherwise consecutive frames are applied in order |
| TerminalClient.TerminalClient.Receive | apps/mobile/src/Terminal.tsx:302-332 | the frame subscription: filters, overflow, and recovery of a gap, which always leads to an attach (`TerminalRepair.FrameShownOrFetched`) |
| TerminalClient.TerminalClient.Attach | apps/mobile/src/Terminal.tsx:222-233 | an attach starts unless one is under way |
| TerminalClient.TerminalClient.NextAttempt | apps/mobile/src/Terminal.tsx:234-246 | each attempt names the position it was sent with; at most three are made |
| TerminalClient.TerminalClient.AttachAnswered | apps/mobile/src/Terminal.tsx:247-291 | an answer is dropped, retried or adopted |
| TerminalClient.TerminalClient.DropOutdated | apps/mobile/src/Terminal.tsx:273-279 | exactly the frames of other epochs buffered before the request are dropped, and their epochs retired |
| TerminalClient.TerminalClient.AttachEnded | apps/mobile/src/Terminal.tsx:292-301 | the attach is over and may be started again |
| TerminalClient.TerminalClient.DisplayReady | apps/mobile/src/Terminal.tsx:612-624 | a restarted display loses the position and starts a new generation |
| TerminalClient.TerminalClient.Resubscribe | apps/mobile/src/Terminal.tsx:147-158 | a new subscription starts with an empty buffer and the old position |
| TerminalInput.TerminalInputChunks | apps/mobile/src/terminal-input.ts:1-17 | the chunks are the typed text cut between code points, each at most 64 KiB of UTF-8, none empty, each as full as it can be |
| TerminalInput.RunInv | apps/mobile/src/Terminal.tsx:410-504 | what every step of typing, resizing, answering and resuming keeps of the queue |
| TerminalInput.InputIsOrderedAndAtMostOnce | apps/mobile/src/Terminal.tsx:410-504 | the chunks sent are accepted chunks in typing order, none twice; the budget is exactly the queue, within 128 tasks and 256 KiB |
| TerminalInput.UnconfirmedInputIsNeverResent | apps/mobile/src/Terminal.tsx:441-457 | after an unconfirmed failure nothing accepted before is ever sent, not even after resuming |
| TerminalInput.BlockedInputStaysSilent | apps/mobile/src/Terminal.tsx:410-504 | until the user resumes, a blocked terminal accepts and sends nothing |
| TerminalInput.ResumeWaitsForQueue | apps/mobile/src/Terminal.tsx:584-595 | resuming does nothing until the queue is empty, and then starts a new, unblocked generation |
| TerminalInput.SizeIsRemembered | apps/mobile/src/Terminal.tsx:505-506 | in every run the remembered size is the last one asked for, whatever happened to the requests for it |
| TerminalInput.ResumeAsksForRememberedSize | apps/mobile/src/Terminal.tsx:505-536 | resuming queues exactly one resize, to the size last asked for in the run, if and only if there is one and the terminal is under control, supports it and its position is known |
| TerminalTyping.TypingTakes | apps/mobile/src/Terminal.tsx:410-431 | typing on an open line takes the chunks in order until one does not fit into 128 tasks and 256 KiB, which pauses the line; on any other line nothing happens |
| TerminalTyping.InputIsSentExactly | apps/mobile/src/Terminal.tsx:432-440 | typed input is sent if and only if generation, identity, terminal and epoch are those it was taken under and the terminal can still be controlled; otherwise it is dropped |
| TerminalTyping.FailureBlocks | apps/mobile/src/Terminal.tsx:441-487 | an unconfirmed request blocks the line if and only if it was typed input for the terminal still under control and running; a confirmed one only returns its budget |
| TerminalTyping.TypedTextIsSent | apps/mobile/src/Terminal.tsx:410-487 | on a healthy terminal text of up to 128 chunks and 256 KiB is accepted whole and, once confirmed, has been sent chunk by chunk, once, in order |
| TerminalTyping.CutMeans | apps/mobile/src/terminal-input.ts:1-17 | each chunk is nonempty text of at most 65,536 bytes, its size is its length in UTF-8, and all but the last are as full as they can be |
| TerminalControls.TerminalControls.Input | apps/mobile/src/Terminal.tsx:410-462 | typing is ignored without control; otherwise chunks are queued in order until one does not fit |
| TerminalControls.TerminalControls.EnqueueControl | apps/mobile/src/Terminal.tsx:463-489 | a task is queued within the budget, or input is paused and nothing queued |
| TerminalControls.TerminalControls.CanControl | apps/mobile/src/Terminal.tsx:490-504 | when a queued task may still act |
| TerminalControls.TerminalControls.StartTask | apps/mobile/src/Terminal.tsx:432-440 | the first task sends its request or is dropped as stale |
| TerminalControls.TerminalControls.FinishTask | apps/mobile/src/Terminal.tsx:441-487 | a confirmed answer, an ignored failure, or one that blocks input; the budget is returned in each case |
| TerminalControls.TerminalControls.Resize | apps/mobile/src/Terminal.tsx:505-536 | the wanted size is remembered, and queued only while the terminal runs, supports it and can be controlled |
| TerminalControls.TerminalControls.ResumeInput | apps/mobile/src/Terminal.tsx:584-595 | with an empty queue blocking and pausing end, everything older is retired and the remembered size is asked for again; otherwise nothing happens |
| TerminalControls.TerminalControls.SelectTerminal | apps/mobile/src/Terminal.tsx:131-146 | choosing another terminal retires everything queued, unblocks input, and leaves it without a position until the new one is attached |
| DohClosure.FirstBadDecides | benchmarks/terminal_bench_2_1/public_egress.py:329-372 | the parse has an error if and only if some answer lacks an owner, a time to live in 0 to 4,294,967,295, or an alias target or public address; the first such answer decides, with the non-public error exactly for an otherwise good answer |
| DohClosure.FirstOccurrencesMeaning | benchmarks/terminal_bench_2_1/public_egress.py:381-389 | each address once, none lost |
| DohClosure.OwnedMeaning | benchmarks/terminal_bench_2_1/public_egress.py:381-389 | the selected addresses are those owned by one of the names |
| DohClosure.InAnswerOrder | benchmarks/terminal_bench_2_1/public_egress.py:381-389 | the addresses come in the order in which the answers first give them |
| DohClosure.ClosedIsReachable | benchmarks/terminal_bench_2_1/public_egress.py:373-380 | a closed set of reachable names containing the host is the set of reachable names, cycles included |
| DohClosure.FewTargets | benchmarks/terminal_bench_2_1/public_egress.py:373-380 | there are no more alias targets than answers, so the bounded loop cannot run out |
| DohClosure.Collect | benchmarks/terminal_bench_2_1/public_egress.py:329-372 | the first bad answer decides the error; otherwise the alias edges and address records are exactly those of the answers |
| DohClosure.Expand | benchmarks/terminal_bench_2_1/public_egress.py:373-380 | the loop of at most 64 rounds computes exactly the names reachable through aliases |
| DohClosure.Select | benchmarks/terminal_bench_2_1/public_egress.py:381-389 | the distinct addresses of reachable owners, where they first occur |
| DohClosure.ParseAnswers | benchmarks/terminal_bench_2_1/public_egress.py:326-389 | the whole parse: more than 64 answers fail; the first bad answer decides the error; if every answer is good the result is the distinct addresses owned by reachable names, in order, all public |
| EgressSockets.RunKeeps | benchmarks/terminal_bench_2_1/public_egress.py:1017-1142 | over every interleaving the registry is what was registered and not discarded, requests and bytes are within their limits, the directions add up, and every decision is counted |
| EgressSockets.NoSocketEscapes | benchmarks/terminal_bench_2_1/public_egress.py:1071-1142 | once one close pass has finished, every socket ever registered was closed or has left the registry, and this stays so |
| EgressSockets.ShutdownIsFinal | benchmarks/terminal_bench_2_1/public_egress.py:1097-1142 | from the first moment the proxy is over, under a monotone clock, it is inactive at every later moment and registers and accepts nothing |
| EgressSockets.InactivityIsPermanent | benchmarks/terminal_bench_2_1/public_egress.py:1097-1109 | inactivity is permanent if and only if a flag is set or the proxy was started |
| EgressSockets.ReceiptIsFinal | benchmarks/terminal_bench_2_1/public_egress.py:1022-1069 | once a receipt is finalized the registry stays empty and nothing it reports changes, the byte counters included if bytes are charged only over registered sockets |
| EgressAnswers.StartAnswer | benchmarks/terminal_bench_2_1/public_egress.py:984-992 | starting works once and not while stopping, and sets the deadline one lifetime ahead |
| EgressAnswers.RegistrationAnswer | benchmarks/terminal_bench_2_1/public_egress.py:1097-1142 | a serving proxy registers every socket and any other refuses it, stopping before revocation before time; a replaced socket leaves in either case |
| EgressAnswers.AcceptanceAnswer | benchmarks/terminal_bench_2_1/public_egress.py:1111-1119 | a serving proxy accepts requests up to its limit, the last one included |
| EgressAnswers.ChargeAnswer | benchmarks/terminal_bench_2_1/public_egress.py:1351-1360 | bytes are charged as long as the total stays within its limit, the limit included |
| EgressAnswers.DecisionAnswer | benchmarks/terminal_bench_2_1/public_egress.py:1362-1388 | decisions are kept while fewer than 256 are, and counted after that |
| EgressAnswers.ReceiptCountsWhatHappened | benchmarks/terminal_bench_2_1/public_egress.py:1022-1069 | over every interleaving the receipt counts exactly the accepted requests, the bytes charged in each direction, and the decisions recorded before it was finalized |
| EgressAnswers.StopGetsThrough | benchmarks/terminal_bench_2_1/public_egress.py:1022-1069 | whatever happened before, a first stop can finalize the receipt once the sockets are given back |
| EgressProxy.PublicEgressProxy.InactiveReasonLocked | benchmarks/terminal_bench_2_1/public_egress.py:1097-1105 | stopped before revoked before expired |
| EgressProxy.PublicEgressProxy.StartProxy | benchmarks/terminal_bench_2_1/public_egress.py:984-992 | refused when started before or stopping; otherwise the deadline is the start plus the lifetime |
| EgressProxy.PublicEgressProxy.AcceptRequest | benchmarks/terminal_bench_2_1/public_egress.py:1111-1119 | refused with the reason when inactive, then at the request limit; otherwise counted once |
| EgressProxy.PublicEgressProxy.RegisterSocket | benchmarks/terminal_bench_2_1/public_egress.py:1121-1126 | refused with the reason when inactive; otherwise in the registry |
| EgressProxy.PublicEgressProxy.ReplaceRegisteredSocket | benchmarks/terminal_bench_2_1/public_egress.py:1128-1138 | the old socket leaves the registry even when the new one is refused |
| EgressProxy.PublicEgressProxy.UnregisterSocket | benchmarks/terminal_bench_2_1/public_egress.py:1140-1142 | the socket is out of the registry, whether or not it was in it, also while inactive |
| EgressProxy.PublicEgressProxy.ChargeBytes | benchmarks/terminal_bench_2_1/public_egress.py:1351-1360 | all of a charge or nothing, to its direction and the total |
| EgressProxy.PublicEgressProxy.RecordDecision | benchmarks/terminal_bench_2_1/public_egress.py:1362-1388 | counted, kept or truncated, and nothing once finalized |
| EgressProxy.PublicEgressProxy.RevokeFlag | benchmarks/terminal_bench_2_1/public_egress.py:1017-1020 | the flag is set before the registry is read |
| EgressProxy.PublicEgressProxy.StopFlag | benchmarks/terminal_bench_2_1/public_egress.py:1022-1035 | only the first caller stops |
| EgressProxy.PublicEgressProxy.ExpireFlag | benchmarks/terminal_bench_2_1/public_egress.py:1071-1077 | the timer's flag |
| EgressProxy.PublicEgressProxy.SnapshotActive | benchmarks/terminal_bench_2_1/public_egress.py:1087-1089 | the pass will close what is registered now |
| EgressProxy.PublicEgressProxy.CloseSocket | benchmarks/terminal_bench_2_1/public_egress.py:1090-1095 | one socket of the pass |
| EgressProxy.PublicEgressProxy.FinishStop | benchmarks/terminal_bench_2_1/public_egress.py:1056-1066 | the receipt is finalized only over an empty registry |
| EgressAccess.TeardownOrder | benchmarks/terminal_bench_2_1/pico_agent.py:1516-1593 | over every sequence of starts and stops with every external step free to fail: the listener is bound while a relay may exist; stopped means relay, listener, proxy and token are gone and, if a proxy was created, it is revoked and its receipt written; at most one proxy |
| EgressAccess.ReleaseNeedsConfirmation | benchmarks/terminal_bench_2_1/pico_agent.py:1550-1589 | only a call that confirmed the relay's removal frees the listener |
| EgressAccess.StartMeaning | benchmarks/terminal_bench_2_1/pico_agent.py:1516-1548 | starting succeeds if and only if there is no proxy, nothing was stopped and proxy, port and relay come up; a later failure leaves the proxy revoked, and everything undone if its clean-up goes through |
| EgressAccess.StopMeaning | benchmarks/terminal_bench_2_1/pico_agent.py:1550-1593 | exactly when one `stop` leaves egress stopped, and exactly when it raises; a proxy that was there is revoked in every case |
| EgressAccess.StoppableExactly | benchmarks/terminal_bench_2_1/public_egress.py:1022-1069 | some sequence of calls still stops the object if and only if the proxy's own stop has neither raised nor returned something that is not a receipt |
| EgressAccess.StoppedForGood | benchmarks/terminal_bench_2_1/pico_agent.py:1516-1552 | once stopped, starting and stopping change nothing |
| EgressAccess.PublicEgressAccess.StartAccess | benchmarks/terminal_bench_2_1/pico_agent.py:1516-1548 | a second start and a start after stopping are refused; any failure after the proxy exists stops everything again and still fails |
| EgressAccess.PublicEgressAccess.HaltProxy | benchmarks/terminal_bench_2_1/public_egress.py:1022-1069 | the first call of the proxy's stop decides; a later one raises again or hands out the same receipt |
| EgressAccess.PublicEgressAccess.StopAccess | benchmarks/terminal_bench_2_1/pico_agent.py:1550-1593 | the proxy is revoked first, then the relay removed, and only with the relay confirmed gone the proxy is stopped and its receipt written; every failure but that of the proxy's own stop can be tried again |
| EgressLifecycle.LifecycleInvariant | benchmarks/terminal_bench_2_1/pico_agent.py:3153-3260 | over every interleaving of activations and stops: verifier commands can use egress if and only if the activation is active, so never after a tear-down, whatever failed in it; the variables are set if and only if active, or the tear-down found egress active and could not clear them; the wrapped stop is called at most once, last, with the first delete policy; a stop that reports no failure left nothing behind |
| EgressLifecycle.ActivationMeaning | benchmarks/terminal_bench_2_1/pico_agent.py:3167-3200 | in every reachable state an activation succeeds if and only if egress is active, or pending and starts with its topology and variables; the verifier can then use it, and otherwise a pending one has failed for good |
| EgressLifecycle.StopTaskFinishes | benchmarks/terminal_bench_2_1/pico_agent.py:3202-3245 | a requested stop goes through all its parts whatever fails: the wrapped stop is called once with the policy asked for, and the stop task has failed exactly if a part of it did |
| EgressLifecycle.NothingStartsAfterStopping | benchmarks/terminal_bench_2_1/pico_agent.py:3167-3253 | after the tear-down no step starts or stops egress again, sets the variables, or leaves the stopping state |
| EgressLifecycle.ActivatedAtMostOnce | benchmarks/terminal_bench_2_1/pico_agent.py:3167-3200 | after one attempt a further activation changes nothing, and no second proxy is created |
| EgressLifecycle.VerifierLifecycle.ActivateEgress | benchmarks/terminal_bench_2_1/pico_agent.py:3167-3200 | only a pending lifecycle is activated, by start, topology and variables together; any failure clears the variables, stops egress and is final |
| EgressLifecycle.VerifierLifecycle.TearDownEgress | benchmarks/terminal_bench_2_1/pico_agent.py:3209-3219 | variables cleared and egress stopped under the lock, each failure noted |
| EgressLifecycle.VerifierLifecycle.StopOnce | benchmarks/terminal_bench_2_1/pico_agent.py:3202-3237 | exactly one part of the stop task; a failure of one part never skips the next |
| EgressLifecycle.VerifierLifecycle.RequestStopTask | benchmarks/terminal_bench_2_1/pico_agent.py:3239-3245 | one task, whose delete policy cannot change |
| Deadlines.DeadlinesReservedExactly | benchmarks/terminal_bench_2_1/pico_agent.py:3574-3588 | deadlines are reserved if and only if more is left than fifteen seconds and the cleanup margin |
| Deadlines.TimeoutGrantedExactly | benchmarks/terminal_bench_2_1/pico_agent.py:3842-3861 | an attempt is made if and only if a whole second is left after every margin, and may use all that is left in whole milliseconds |
| Deadlines.RetryGrantedExactly | benchmarks/terminal_bench_2_1/pico_agent.py:3801-3832 | a retry is granted if and only if one is left, the attempt failed in the runtime with termination confirmed, and thirty seconds are left after every margin |
| Deadlines.TimeoutFits | benchmarks/terminal_bench_2_1/pico_agent.py:3842-3861 | an attempt's timeout with grace, flush and adapter margin ends by the headless deadline, and wastes less than a millisecond |
| Deadlines.RetryLeavesTime | benchmarks/terminal_bench_2_1/pico_agent.py:3801-3832 | a retry that was granted has the minimum execution time less whatever passed before it started |
| Deadlines.RunAttempts | benchmarks/terminal_bench_2_1/pico_agent.py:856-956 | the retry loop: every attempt nests in the headless deadline, every repetition was earned by a confirmed failure, the limit holds, and each way of leaving the loop has its reason |
| Deadlines.AdapterMarginIsTheSlack | benchmarks/terminal_bench_2_1/pico_agent.py:1009-1033 | the command outlasts its process exactly when it starts within the adapter margin, up to a millisecond |
| Deadlines.AdmissionAllowedExactly | benchmarks/terminal_bench_2_1/pico_agent.py:3534-3571 | provider requests are allowed if and only if more than 332 seconds are left; the cutoff is 332 seconds before the deadline on either clock |
| Deadlines.AdmittedRequestSettlesInTime | benchmarks/terminal_bench_2_1/pico_agent.py:691-698 | a request the ledger admits before the cutoff has its 330-second chain end at least 2 seconds before the headless deadline; time between the clock reads only errs early |
| Deadlines.ReadOrderDecides | benchmarks/terminal_bench_2_1/pico_agent.py:691-698 | the cutoff is safe if and only if the gateway's clock was read first |
| Deadlines.CutoffIsConservative | benchmarks/terminal_bench_2_1/pico_agent.py:3534-3571 | the wall-clock cutoff by itself is conservative if and only if that time is within the part of a millisecond lost to truncation |
| Deadlines.CutoffErrsLate | benchmarks/terminal_bench_2_1/pico_agent.py:3534-3571 | the wall-clock cutoff by itself is too late whenever a millisecond passes between the reads |
| Deadlines.CutoffErrsLateHere | benchmarks/terminal_bench_2_1/pico_agent.py:3534-3571 | an instance: two milliseconds between the reads, and a check without margin passes when the gateway has closed |
| Deadlines.PrecheckIsConservative | packages/pico-host/src/internal/headless-one-shot-runner.ts:1169-1182 | what the headless process dispatches the gateway would admit, if and only if the time between the gateway's clock read and the wall clock's is within the one-second margin plus the part of a millisecond lost to truncation |
| Deadlines.DeadlinesNest | benchmarks/terminal_bench_2_1/pico_agent.py:3574-3588 | attempts within headless deadline, 15 seconds before cleanup, cleanup margin before the benchmark's own timeout |
| Base64.DecodingIsBijective | apps/mobile/src/artifact-cache.ts:25-42 | decoding undoes section 4 of RFC 4648 for every byte string, and accepts a text exactly when it is the encoding of its own decoding |
| Base64.DecodableMatches | apps/mobile/src/core.ts:69-73 | a text that decodes matches the pattern and has the announced size |
| Base64.PaddingIs | apps/mobile/src/core.ts:72-72 | the pad count read off the end is the padding of the pattern |
| Base64.EncodingForms | apps/mobile/src/artifact-cache.ts:25-42 | three bytes are four digits to the base 64, most significant first; leftovers are completed by zero bytes and equals signs |
| Base64.EncodingExamples | apps/mobile/src/artifact-cache.ts:25-42 | the vectors of section 10 of RFC 4648 |
| Base64.DecodeChunk | apps/mobile/src/artifact-cache.ts:25-42 | the array filled by index is the decoding; it throws exactly when there is none, spare bits included |
| Base64.DecodeOneGroup | apps/mobile/src/artifact-cache.ts:29-39 | one round of the loop writes exactly the bytes of its four characters, and throws exactly when they decode to nothing |
| RelayDownload.HonestHostDelivers | apps/mobile/src/artifact-cache.ts:194-247 | an honest host's replies pass every check and deliver the file |
| RelayDownload.BroughtBytesFit | apps/mobile/src/artifact-cache.ts:211-239 | an accepted reply is about the file asked for, its text at most 44 KiB, and brings 1 to 32,768 bytes from the offset on, within the file |
| RelayDownload.AcceptChunk | apps/mobile/src/artifact-cache.ts:211-239 | a reply is accepted exactly when it brings some bytes for this offset |
| RelayDownload.ReadChunks | apps/mobile/src/artifact-cache.ts:194-247 | the loop writes exactly what the host delivers, of the announced size, and throws exactly when a reply is refused |
| LocalData.SerialPerHost | apps/mobile/src/local-data.ts:23-58 | at most one cleanup per host is under way and it is the first unsettled one, whenever settled ones are forgotten |
| LocalData.StartsExactlyInTurn | apps/mobile/src/local-data.ts:27-30 | in every reachable state a cleanup may start if and only if every earlier one for its host has settled |
| LocalData.ForgetsOnlyItself | apps/mobile/src/local-data.ts:53-56 | a settled cleanup leaves the map exactly if no later one has taken its place, and no other host does |
| LocalData.LocalData.ClearHostLocalData | apps/mobile/src/local-data.ts:23-51 | the operation is chained behind the latest one the map still knows for the host |
| LocalData.LocalData.ForgetOperation | apps/mobile/src/local-data.ts:52-56 | only the latest operation is removed from the map |
| ArtifactCache.RunKeeps | apps/mobile/src/artifact-cache.ts:50-111 | in every reachable state a pending clear has every running download in its snapshot, aborted, and serves a cleanup under way |
| ArtifactCache.HostDeletionIsQuiescent | apps/mobile/src/artifact-cache.ts:50-69 | when a host's directory is deleted no download that writes under it is in flight, and nothing is left under it |
| ArtifactCache.FullDeletionIsQuiescent | apps/mobile/src/artifact-cache.ts:70-87 | when the whole cache is deleted no download is in flight, and nothing is left |
| ArtifactCache.RefusedExactlyWhileClearing | apps/mobile/src/artifact-cache.ts:102-104 | in every reachable state a download is refused if and only if a clear that covers its host is pending |
| ArtifactCache.NothingStartsOrLands | apps/mobile/src/artifact-cache.ts:100-128 | while a clear is pending no download of the host starts and none finishes a file |
| ArtifactCache.ClearedForGood | apps/mobile/src/artifact-cache.ts:50-87 | no file of a download begun before a deletion is ever seen again, however late it is written |
| ArtifactCache.NeverOverwritten | apps/mobile/src/artifact-cache.ts:272-287 | a finished file changes its author only after it was deleted |
| ArtifactDelivery.ExistingFileIsReused | apps/mobile/src/artifact-cache.ts:183-191 | a current download uses a file that is there: a valid one is kept, an invalid one deleted and fetched again |
| ArtifactDelivery.PartialFileLands | apps/mobile/src/artifact-cache.ts:272-287 | a current download whose partial file was validated becomes the file of its host and resource unless one is there, which then stays; the partial file is gone at the end |
| ArtifactDelivery.CurrentUntilDisturbed | apps/mobile/src/artifact-cache.ts:114-123 | a download stays current until it fails, is aborted, or a clear of its host or of everything begins |
| ArtifactDelivery.ClearTakesEffect | apps/mobile/src/artifact-cache.ts:50-77 | a clear aborts and waits for exactly the downloads it covers, in the turn it begins |
| ArtifactDelivery.UndisturbedDownloadIsCached | apps/mobile/src/artifact-cache.ts:88-298 | in every reachable state without a pending clear of the host, an undisturbed download ends with its file in the cache, the one that was there or else its own, and no other file changed |
| ArtifactDelivery.FullClearGetsThrough | apps/mobile/src/artifact-cache.ts:70-87 | a pending full clear can always finish, and the cache is then empty and open |
| ArtifactDelivery.HostClearGetsThrough | apps/mobile/src/artifact-cache.ts:50-67 | a pending clear of one host can always finish: its files are gone, other hosts keep theirs, and it is open again |
| ArtifactCacheState.ArtifactCacheState.DownloadArtifact | apps/mobile/src/artifact-cache.ts:100-113 | refused while everything or this host is being cleared; otherwise registered with both current epochs |
| ArtifactCacheState.ArtifactCacheState.CheckCurrent | apps/mobile/src/artifact-cache.ts:114-123 | both epochs unchanged and not aborted |
| ArtifactCacheState.ArtifactCacheState.PrepareTarget | apps/mobile/src/artifact-cache.ts:137-183 | a file that exists is reused, otherwise fetched; a download that is no longer current does neither |
| ArtifactCacheState.ArtifactCacheState.ReuseTarget | apps/mobile/src/artifact-cache.ts:183-191 | a valid file ends the download, an invalid one is deleted and fetched again |
| ArtifactCacheState.ArtifactCacheState.LandPartial | apps/mobile/src/artifact-cache.ts:272-287 | an existing file is kept and compared; otherwise the partial file becomes the file, in one turn |
| ArtifactCacheState.ArtifactCacheState.AbortAll | apps/mobile/src/artifact-cache.ts:55-60 | exactly the host's downloads are aborted and waited for |
| ArtifactCacheState.ArtifactCacheState.BeginClearAll | apps/mobile/src/artifact-cache.ts:70-77 | a full clear raises the epoch, aborts every download and waits for all of them; a second one joins the first |
| ArtifactCacheState.ArtifactCacheState.FinishClearAll | apps/mobile/src/artifact-cache.ts:78-85 | with every download over the cache is empty and open again |
| ArtifactCacheState.ArtifactCacheState.BeginClearHost | apps/mobile/src/artifact-cache.ts:50-60 | a host clear closes the host to new downloads, raises its epoch, and aborts and waits for exactly its downloads |
| ArtifactCacheState.ArtifactCacheState.FinishClearHost | apps/mobile/src/artifact-cache.ts:61-67 | the host's files go, no other host's do, and the host is open again |
| JsonText.QuotedReadable | scripts/eval/experiment.ts:43-48 | a printed string can be cut off whatever follows: equal texts begin with equal strings (section 7 of RFC 8259) |
| JsonText.DecimalReadable | scripts/eval/experiment.ts:43-43 | the same for integers not followed by a digit |
| CanonicalJson.FirstDifferenceDecides | scripts/eval/experiment.ts:46-47 | the key order is that of UTF-16 code units: the first difference decides, and a proper prefix comes first |
| CanonicalJson.SortSorts | scripts/eval/experiment.ts:46-47 | distinct keys come out strictly ascending in UTF-16 order |
| CanonicalJson.Readable | scripts/eval/experiment.ts:38-50 | unique readability: equal texts begin with equal values, up to key order, and go on alike |
| CanonicalJson.SamePrintsAlike | scripts/eval/experiment.ts:38-50 | values equal up to key order have the same text |
| CanonicalJson.CanonicalIsFaithful | scripts/eval/experiment.ts:38-53 | the canonical texts of two values are equal if and only if the values are equal up to the order of object keys |
| JsonForms.LiteralForms | scripts/eval/experiment.ts:38-50 | null, true, false, the empty list and the empty object as printed |
| JsonForms.NumberForms | scripts/eval/experiment.ts:43-43 | integers are printed in decimal, most significant digit first, with a minus sign if negative |
| JsonForms.StringForms | scripts/eval/experiment.ts:43-48 | how each code unit of a string is printed: itself, a short escape, or four hexadecimal digits |
| JsonForms.ListForms | scripts/eval/experiment.ts:45-45 | lists are printed in order between brackets with commas |
| JsonForms.ObjectForms | scripts/eval/experiment.ts:46-49 | objects are printed with the greatest key last, wherever it was inserted, as key, colon, value |
| ExperimentMatrix.CellNamesItself | scripts/eval/experiment.ts:73-73 | a cell carries its own subject, scenario and repetition, and its identity is the hash of their list |
| ExperimentMatrix.EveryCellOnce | scripts/eval/experiment.ts:54-80 | a specification is expanded if and only if its version is 1, its id and repetitions are given, and its subjects and scenarios are nonempty and distinct; then into each combination once, their number the product of the sizes, no two with the same identity |
| ExperimentMatrix.CellInItsPlace | scripts/eval/experiment.ts:70-79 | repetition by repetition and scenario by scenario, the subjects as listed in odd repetitions and backwards in even ones, each cell at its computed index |
| ExperimentMatrix.KeyIsFaithful | scripts/eval/experiment.ts:73-73 | the text a cell's identity is hashed from determines the cell |
| ExperimentRun.SameSpecOnly | scripts/eval/experiment.ts:111-123 | a directory is taken up again exactly when its saved specification is this one up to key order |
| ExperimentRun.OneCall | scripts/eval/experiment.ts:97-164 | whatever interrupts a call: it returns the attempts of a prefix of the matrix, executes no persisted cell, rewrites nothing, and leaves a directory the next call may go on with |
| ExperimentRun.ResumeEqualsOneRun | scripts/eval/experiment.ts:97-164 | after any number of interrupted runs, an uninterrupted one returns what one uninterrupted run of an empty directory returns |
| ExperimentRun.PersistedForGood | scripts/eval/experiment.ts:126-159 | a persisted attempt is never rewritten and its cell never executed again |
| ExperimentHistory.ReturnedIsOnDisk | scripts/eval/experiment.ts:143-159 | after every call each attempt it returned is on disk under its cell's name, and so is that of each cell it executed, except perhaps the last if it did not return |
| ExperimentHistory.EachCellCompletesOnce | scripts/eval/experiment.ts:143-159 | over any history of interrupted calls every attempt on disk was there at the start or comes from exactly one completed execution |
| ExperimentHistory.CallExactly | scripts/eval/experiment.ts:143-159 | a call works through the matrix up to the first cell that is neither on disk nor completes, executing and persisting the missing ones in order; what it does there, returns and leaves on disk is exact |
| ExperimentHistory.ForeignDirectoryIsRefused | scripts/eval/experiment.ts:111-142 | a directory of another specification, or with a file this experiment would not have written, is refused with nothing executed and no attempt touched |
| ExperimentDirectory.ExperimentDirectory.FillIn | scripts/eval/experiment.ts:143-159 | known attempts are taken over in matrix order, missing ones executed, validated, persisted and then counted, until a stop, a failure or a crash |
| ExperimentDirectory.ExperimentDirectory.RunIn | scripts/eval/experiment.ts:97-164 | the lock is taken before anything is read and released unless the process dies; a foreign specification or attempt is refused |

## Left out

- Sockets, HTTP, TLS, subprocesses and Docker: a call to any of them is a step or a parameter with every outcome the source distinguishes.
- Authentication, HMAC signatures and nonces: a request reaches the ledger already authenticated. SHA-256 is a function assumed to have no collisions, where identities matter.
- Parsing of provider responses and of request bodies: usage arrives as the two token counts, a body as its code points with its requested output limit.
- Rounding of floating point: deadlines and costs in CNY are real numbers.
- GatewayUsage.CostReservationDominates: says nothing about a provider that bills more than a token per body byte; then the run may close, as GatewayFinality.ClosedRunDrains describes.
- TerminalSafety.DisplayIsContiguous: the output queue is a sink that accepts or refuses each push, so what the WebView does with accepted data, and its own overflow message, are not modelled; one selection of a terminal is modelled, not the list of terminals.
- TerminalControls.TerminalControls.SelectTerminal: the display reset of the same effect is not modelled, because the stream model follows one selected terminal.
- TerminalInput.InputIsOrderedAndAtMostOnce: a request whose answer is lost may have been executed by the host; at most once is about requests issued.
- TerminalLog.ServeAnswers: the server's ring buffer is reduced to the first event it still holds and a limit on the snapshot.
- EgressSockets.NoSocketEscapes: closing is the call on the socket; that the peer sees it is the operating system's part.
- EgressSockets.ReceiptIsFinal: that handlers charge bytes only while their upstream socket is registered is read off the handlers and taken as a condition; bytes attributed to single decisions are not related to the totals, because a tunnel that ends with a socket error loses its local count.
- EgressLifecycle.LifecycleInvariant: that a proxy in use expires after its lifetime is the business of the socket registry and not repeated here, so usable means until then; activation and tear-down are serialised by the activation lock. A stop that goes on after its caller was cancelled twice, outside the lock, is not modelled.
- EgressAccess.TeardownOrder: creating the relay is one step of `start`; the relay's configuration checks are part of its success or failure.
- DohClosure.ParseAnswers: host names and addresses arrive parsed; the public-address test is a parameter.
- Deadlines.PrecheckIsConservative: clocks run at the same rate; a step of the wall clock is not modelled.
- Base64.DecodeChunk: shifts and masks of disjoint six-bit fields are written as sums, quotients and remainders.
- CanonicalJson.CanonicalIsFaithful: numbers are the integers JavaScript holds exactly; the printing of fractions and exponents is not modelled, nor the errors for values that are not JSON.
- ExperimentRun.ResumeEqualsOneRun: `execute` is a function of the cell. A crash while the specification itself is being written, and files other programs put into the directory, are not modelled; `shouldStop` and the signal are both a stop at a cell.
- ArtifactCache.ClearedForGood: the legacy cache, file contents and hashes are not modelled; validation of a file succeeds or fails as the event says.
- LocalData.SerialPerHost: clearing of drafts and reviews inside an operation is part of its running.
- `SerialPoller` and `GenerationFence` (apps/mobile/src/core.ts), `summarizeExperiment` (scripts/eval/experiment.ts) and the upstream worker of the gateway would add only easy members.
