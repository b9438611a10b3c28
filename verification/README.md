# Verified models of the calling platform's state machines

This project models the parts of the platform whose correctness depends on
the order of events, and proves what those parts promise about every run:

- the **media-server rendezvous**, where the SIP answer of an INVITE, the ESL
  connection FreeSWITCH opens in return, a timer and failures race for one uuid
  (`MediaServer.dfy`);
- the **call queue**: presence, pause, ring, release, connect, dequeue, the three
  distribution policies, and the callers' sessions that drive them
  (`CallQueue.dfy`, `QueueCorrespondence.dfy`, `QueuePresence.dfy`,
  `QueueFairness.dfy`, `QueueSessions.dfy`);
- the **time-window machines**: the per-IP SIP limiter, the abuse guard and the
  call metrics (`Windows.dfy`, `RateLimiter.dfy`, `AbuseGuard.dfy`,
  `CallRate.dfy`, `CallMetrics.dfy`);
- **rating and wallet debits** (`Rating.dfy`, `CallLedger.dfy`);
- **store-and-forward and reconciliation**: the audit flush queue, the edge CDR
  shipper, the edge directory, and bulk against per-user hydration
  (`AuditLog.dfy`, `CdrShipper.dfy`, `EdgeDirectory.dfy`, `DirectorySync.dfy`,
  `Hydration.dfy`);
- the **fallback chain** behind an INVITE to an extension (`CallRouting.dfy`).

How the models are built. An object that the source mutates is a class whose
methods follow the source statement by statement and are proved equal to a
function on values; what the source promises is then proved about that function,
over one step and over whole runs, in terms that do not mention the function:
what a state holds is compared with what is read off the events, the raw codes,
the texts or the tables. A run is a `Run` of events, oldest first. The
clock is an integer argument that never decreases. A stretch between two awaits
is one step. What a library, a peer, a database or the operating system does
(an answer, a failure, an insert, a crash) is an event or a parameter left
completely open. Money and durations are exact reals.

## Main results

1. The server with its shared map refines independent calls, one machine per
   call, and hangs up exactly the connections nobody waits for. Any interleaving
   over any number of calls: one report per plain call, timeout
   and endpoint exclude each other, pairs never mix uuids, nothing pending is
   unattended, and nothing is forgotten at rest. For DTLS callers success is
   exclusive, and errors are reported twice exactly when the answer to the
   caller failed and the timer fired too.
2. Callers and agents of a queue correspond one to one. Every queue operation has
   an exact, two-way condition for keeping this, and the sessions of
   `enqueueCaller` are shown to meet those conditions in every interleaving
   except one family, for which the condition is again exact.
3. Agent states, counters and idle times are what happened to the agent.
   Round-robin bounded waiting, a fallback that is never reached, and no
   overtaking under longest-idle.
4. Exact counts in time windows: the limiter's and the guard's bounds and their
   tightness, when sweeping and the missing sliding window can be observed,
   justified and kept bans, true peaks from a trimmed list.
5. What a call costs, to the last digit; longest-prefix pricing that is
   independent of order, monotone and never below the quoted minimum; who is
   debited, once per call, and the stamped cost.
6. No CDR row lost through failures and crashes, exactly once without them; an
   order-preserving audit pipeline; a converging directory with an exact change
   test; bulk hydration equal to per-user hydration.
7. A table of final statuses and final responses for every configuration and
   outcome of the fallback chain.

## Where the code does not do what is promised

- **DTLS errors** can be reported twice (`DtlsErrorReportedTwice`): after a failed
  answer to the caller the timer stays armed.
- **Presence** takes a ringing or busy agent away when the agent unregisters or
  carries the pause flag, although the comment in `recomputePresence` says live
  states are left alone; `SyncIff` gives the exact condition.
- **A failing bridge after a hang-up**: while a bridge is made, a hang-up dequeues
  the caller, but the loop of `enqueueCaller` still releases the agent when the
  bridge then fails, and goes on hunting. If the agent already rings for the next
  caller, it is set free under that caller (`LateFailureBreaks`, `LateFailureHappens`). `StepKeepsIffCareful`
  gives the exact condition. The listeners installed for a bridge stay after it failed,
  so a later hang-up no longer sets `abandoned`.
- **Two final responses**: `routeCall` of the trunk service sends 503 without asking
  whether a response has gone out, from its own attempt to answer the caller or
  already from the device leg (`TwoFinalResponses`); `RoutedAnswersOnce` says exactly
  when that happens.
- **The abuse guard's window** is documented as sliding, but it is a fixed window.
  `BannedIffWindowFull` is the exact rule, `OffensesForceABan` and
  `OffensesBoundReached` the exact bound, and `SlidingWindowIff` says that the
  difference shows exactly for thresholds from 3 on.
- **Sweeping at an offense's own instant** can be observed for every threshold from 2
  on (`SweepingObservableAtItsInstant`, `NeverObservableIff`); `TalliesAgreeIff` says
  exactly when a run notices.
- **A roster with two different texts for one extension, or an unlisted file that
  cannot be removed**, never comes to rest (`SecondRunIsQuietIff`).
- **A short read of the CDR file** moves the offset past what was not read;
  `ShortReadIff` says exactly when that loses rows.

## Model

| member | source | states |
|---|---|---|
| MediaServer.Server.Begin | patches/mediaserver.js:277-325 | a plain call on a server that is not ready is refused and reported; otherwise a fresh uuid becomes pending with an open INVITE |
| MediaServer.Server.OnInviteAnswered | patches/mediaserver.js:327-338 | the answer pairs with a connection that is already there, or binds the dialog and arms the timer; nothing else changes |
| MediaServer.Server.OnInviteFailed | patches/mediaserver.js:339-343 | the entry goes and the error is reported |
| MediaServer.Server.OnNewCall | patches/mediaserver.js:598-620 | unknown or malformed ids are hung up; a bound entry yields its endpoint, disarms the timer and goes; an unbound one keeps the connection |
| MediaServer.Server.OnTimeout | patches/mediaserver.js:286-291 | the entry goes and the timeout is reported |
| MediaServer.Server.OnEndpointReady | patches/mediaserver.js:458-470 | a ready endpoint is reported at once (plain) or once the caller's dialog is up (DTLS) |
| MediaServer.Server.OnCallerAnswered | patches/mediaserver.js:450-454 | the caller's dialog completes the pair if the endpoint is ready |
| MediaServer.Server.OnCallerFailed | patches/mediaserver.js:445-449 | the entry goes and the error is reported, the timer stays |
| MediaServer.StepKeepsInv | patches/mediaserver.js:286-343 | every event, for every call, keeps the invariant of all calls: entry, timer, endpoint and reports of each call agree |
| MediaServer.InvAlways | patches/mediaserver.js:398-479 | the invariant holds after every interleaving of plain and DTLS calls |
| MediaServer.ServerRefinesCalls | patches/mediaserver.js:286-343 | refinement: on every run everything the server holds for a call (entry, timer, endpoint, reports in order) is what the call on its own, without map, timers and other calls, comes to |
| MediaServer.PlainCallIsSettledOnce | patches/mediaserver.js:286-343 | at most one report, endpoint and timeout exclude each other, endpoint of one uuid, pending exactly while the INVITE is open or the timer is armed |
| MediaServer.DtlsCallReports | patches/mediaserver.js:398-479 | success exactly when endpoint and dialog are both set, then alone; two reports exactly when the answer failed and the timer fired |
| MediaServer.DtlsErrorReportedTwice | patches/mediaserver.js:436-479 | a run in which a DTLS call reports two errors |
| MediaServer.NoCallForgotten | patches/mediaserver.js:286-343 | when nothing is outstanding, nothing is pending and every callback has fired |
| MediaServer.RendezvousEitherOrder | patches/mediaserver.js:327-338 | answer then connection and connection then answer end in the same state |
| MediaServer.DuplicateConnectionHungUp | patches/mediaserver.js:606-610 | once an endpoint exists, another connection for its uuid is only hung up |
| MediaServer.HungUpExactly | patches/mediaserver.js:602-610 | on every run exactly the connections that no call waited for when they came are hung up, in order: malformed, unknown, late and duplicate ones |
| CallQueue.QueueService.Define | src/services/queue.service.ts:115-138 | every listed name is one offline agent, in the order of first listing, nobody waits |
| CallQueue.FirstOccurrencesAre | src/services/queue.service.ts:118-128 | one more name is appended to the roster exactly when it has not been listed before |
| CallQueue.QueueService.RecomputePresence | src/services/queue.service.ts:170-187 | the loop recomputes every agent and reports a change exactly when there is one |
| CallQueue.QueueService.Enqueue | src/services/queue.service.ts:229-240 | new state of all queues: the caller waits, holding nobody |
| CallQueue.QueueService.MarkCallerRinging | src/services/queue.service.ts:243-252 | caller and available agent ring together; an unknown caller changes nothing |
| CallQueue.QueueService.ReleaseRing | src/services/queue.service.ts:256-270 | the caller waits again if it held the agent; a ringing agent is freed in any case |
| CallQueue.QueueService.MarkCallerConnected | src/services/queue.service.ts:273-285 | caller connected, agent busy and counted |
| CallQueue.QueueService.Dequeue | src/services/queue.service.ts:288-302 | the caller goes and the agent that served it is freed |
| CallQueue.QueueService.SetAgentPaused | src/services/queue.service.ts:346-359 | the flag is set at once, the state only off a call; true exactly on a change |
| CallQueue.QueueService.NextAvailableAgent | src/services/queue.service.ts:315-340 | the three policies, with the cursor moved by round-robin only |
| CallQueue.QueueService.NextAgent | src/sip/routes/queue.handler.ts:117-131 | the loop that skips agents without a contact equals its recursive form |
| CallQueue.ChosenIsEligible | src/services/queue.service.ts:315-340 | whoever is chosen is available and not excluded, nobody is chosen exactly when nobody is |
| CallQueue.FirstEligibleIsFirst | src/services/queue.service.ts:338-339 | sequential picks the earliest eligible agent of the roster |
| CallQueue.SequentialPicksFirst | src/services/queue.service.ts:338-339 | sequential picks the earliest eligible agent and moves no cursor |
| CallQueue.LongestIdleIs | src/services/queue.service.ts:323-325 | nobody eligible has been idle longer than the agent picked |
| CallQueue.LongestIdlePicksFirst | src/services/queue.service.ts:323-325 | longest-idle picks the first in the roster of those idle longest |
| CallQueue.HuntIsComplete | src/sip/routes/queue.handler.ts:117-131 | an agent is found exactly when some available agent can be reached, and the one found is such an agent |
| CallQueue.HuntFollowsPolicy | src/sip/routes/queue.handler.ts:117-131 | the hunt goes by the queue's policy and asks on only past agents that cannot be reached |
| QueueCorrespondence.EnqueueIff | src/services/queue.service.ts:229-240 | keeps the correspondence if and only if the caller held no agent |
| QueueCorrespondence.RingIff | src/services/queue.service.ts:243-252 | if and only if a free caller rings an available agent, or repeats its own ring |
| QueueCorrespondence.ReleaseIff | src/services/queue.service.ts:256-270 | if and only if the caller rings that agent, or holds it not and the agent is not ringing |
| QueueCorrespondence.ConnectIff | src/services/queue.service.ts:273-285 | if and only if the caller holds the agent, or holds nobody and the agent is free |
| QueueCorrespondence.DequeueIff | src/services/queue.service.ts:288-302 | always, but for an agent with an empty extension, which is not freed |
| QueueCorrespondence.SyncIff | src/services/queue.service.ts:170-187 | if and only if no engaged agent is offline or flagged as paused |
| QueueCorrespondence.PauseKeeps | src/services/queue.service.ts:346-359 | pausing always keeps the correspondence |
| QueueCorrespondence.KeepsIffOrderly | src/services/queue.service.ts:170-302 | all operations: correspondence kept if and only if the operation is orderly |
| QueueCorrespondence.CorrespondenceAlways | src/services/queue.service.ts:170-302 | every state of every orderly run: ringing and busy agents one to one with ringing and connected callers |
| QueueCorrespondence.SelectThenRingIsOrderly | src/sip/ivr.system.ts:647-654 | picking an agent and ringing it in one step is always orderly |
| QueueCorrespondence.LateReleaseBreaks | src/sip/ivr.system.ts:704-710 | releasing a ringing agent for a caller who has left breaks the correspondence |
| QueueCorrespondence.EngagedSizes | src/services/queue.service.ts:243-302 | as many engaged agents as engaged callers |
| QueuePresence.IdleStateIsTrue | src/services/queue.service.ts:170-302 | on every run the pause flag is the one last asked for, and an agent on no call is offline, paused or available as its last known registration and that flag say |
| QueuePresence.EligibleIff | src/services/queue.service.ts:315-320 | who can be chosen: exactly the agents on no call, last known registered, not paused and not excluded |
| QueuePresence.FreedAgentIsEligibleIff | src/services/queue.service.ts:256-302 | an agent that did not answer or whose caller left can be chosen again at once if and only if it is registered and not paused |
| QueuePresence.CountersAreTrue | src/services/queue.service.ts:229-285 | calls handled are the connections made, and the stored arrival is the last one |
| QueueFairness.ScanApproaches | src/services/queue.service.ts:328-335 | the scan stops at or before any eligible position, strictly closer to it than the cursor was |
| QueueFairness.FallbackNeverReached | src/services/queue.service.ts:326-337 | with anybody eligible the scan itself finds an agent |
| QueueFairness.CursorApproaches | src/services/queue.service.ts:315-337 | over any run, each selection that passes an eligible agent over shortens its cyclic distance |
| QueueFairness.BoundedWaiting | src/services/queue.service.ts:315-337 | an agent eligible at a roster's length of consecutive selections is chosen at one of them |
| QueueFairness.IdleSinceIsTrue | src/services/queue.service.ts:170-187 | on every run the stored idle time is when the agent last turned available |
| QueueFairness.NoOvertaking | src/services/queue.service.ts:323-325 | after any run, longest-idle never picks an agent that turned available strictly later than one that is available and not excluded |
| QueueSessions.StepKeepsIffCareful | src/sip/ivr.system.ts:626-735 | any step of any session keeps the correspondence if and only if presence takes no engaged agent and no session of a dequeued caller releases a ringing agent |
| QueueSessions.SessionsKeepCorrespondence | src/sip/ivr.system.ts:597-735 | on every careful run sessions, callers and agents agree, for any number of callers |
| QueueSessions.QueueStaysInCorrespondence | src/sip/ivr.system.ts:647-710 | the correspondence holds on every run where hang-ups and bridge failures do not cross and no engaged agent drops out |
| QueueSessions.RingOfAbandonedCallEnds | src/sip/ivr.system.ts:656-720 | a caller who hung up during a ring is gone however the ring ends, and the agent is free again |
| QueueSessions.LateFailureBreaks | src/sip/ivr.system.ts:682-710 | hang-up while bridging, next caller rung, bridge fails: from every such state the correspondence is lost |
| QueueSessions.LateFailureHappens | src/sip/ivr.system.ts:647-710 | for every fresh queue with an agent, a run from its first event that loses the correspondence with a late bridge failure and was careful before it |
| QueueSessions.NobodyLeftBehind | src/sip/routes/queue.handler.ts:132-139 | when every session has ended, no caller is left and no agent is ringing or busy |
| Windows.FixedWindowBound | src/sip/sip.server.ts:97-102 | fixed windows of at most `cap` give at most `2 * cap - 1` in any closed interval of the window's width |
| RateLimiter.SipRateLimiter.CheckSipRate | src/sip/sip.server.ts:94-103 | the whole new table and the verdict, including the first request of a window |
| RateLimiter.EntryAlways | src/sip/sip.server.ts:94-103 | on every run each entry is the fixed window over the requests it let through |
| RateLimiter.AllowedIffRoom | src/sip/sip.server.ts:94-103 | on every run a request passes if and only if it is the first, or the window ran out, or it let fewer than the limit through |
| RateLimiter.AdmissionBound | src/sip/sip.server.ts:94-103 | at most `2L - 1` requests of one address in any closed interval of a window's length, on every run |
| RateLimiter.AdmissionBoundReached | src/sip/sip.server.ts:94-103 | for every limit and window some run meets that bound |
| AbuseGuard.Clamp | src/sip/abuse-guard.ts:58-63 | each option is kept, or raised to its lower limit when below it |
| AbuseGuard.NotRecorded | src/sip/abuse-guard.ts:79-79 | a trusted or empty address leaves no record and is never banned |
| AbuseGuard.SipAbuseGuard.RecordOffense | src/sip/abuse-guard.ts:78-97 | the whole new table: trusted sources ignored, window reopened, ban set once |
| AbuseGuard.SipAbuseGuard.RecordSuccess | src/sip/abuse-guard.ts:102-105 | a tally is forgiven, an active ban is not |
| AbuseGuard.SipAbuseGuard.Sweep | src/sip/abuse-guard.ts:113-120 | the loop drops exactly the records that are neither banned nor fresh |
| AbuseGuard.SweepingUnobservable | src/sip/abuse-guard.ts:72-120 | a sweeping and a never-sweeping guard answer every ban query alike, on every run in which no offense finds its record swept while its window is open |
| AbuseGuard.TalliesAgreeIff | src/sip/abuse-guard.ts:78-120 | over every run the two guards agree on an address at every point if and only if no offense misses a record that way |
| AbuseGuard.MissedOnlyAtASweep | src/sip/abuse-guard.ts:82-120 | the first record missed is missed at the very instant of a sweep, exactly one window after the only instant of the offenses in it |
| AbuseGuard.LaterOffensesMissNothing | src/sip/abuse-guard.ts:82-120 | offenses strictly after the sweeps before them miss nothing |
| AbuseGuard.SweepingObservableAtItsInstant | src/sip/abuse-guard.ts:113-120 | for every threshold from 2 on, an offense at the sweep's own instant bans in one guard and not in the other |
| AbuseGuard.NeverObservableIff | src/sip/abuse-guard.ts:72-120 | no run whatever tells the guards apart if and only if the threshold is 1 or the address is not penalized |
| AbuseGuard.TallyIsHistory | src/sip/abuse-guard.ts:82-88 | a tally never exceeds the offenses since its window opened |
| AbuseGuard.BansAreJustified | src/sip/abuse-guard.ts:78-97 | every ban was set by an offense that was at least the threshold-th within one window, and lasts exactly `banMs` from it |
| AbuseGuard.BansAreKept | src/sip/abuse-guard.ts:72-120 | no offenses, successes or sweeps before the deadline change it |
| AbuseGuard.RecordTallies | src/sip/abuse-guard.ts:78-105 | on every run a kept record is the fixed window over the offenses since the last success outside a ban |
| AbuseGuard.BannedIffWindowFull | src/sip/abuse-guard.ts:78-97 | on every run an offense leaves an address banned if and only if it was, or the offense is the threshold-th of the fixed window since its last success |
| AbuseGuard.BanLasts | src/sip/abuse-guard.ts:89-90 | a ban set by an offense lasts exactly `banMs` from it |
| AbuseGuard.SuccessClearsTally | src/sip/abuse-guard.ts:99-105 | after a success outside a ban the next offense is the first of a new window |
| AbuseGuard.SweepLeavesOnlyLive | src/sip/abuse-guard.ts:113-120 | a sweep leaves exactly the records of banned addresses and of offenders within the window |
| AbuseGuard.OffensesForceABan | src/sip/abuse-guard.ts:78-97 | never banned and never forgiven means at most `2 * threshold - 3` offenses in any closed span of a window's length |
| AbuseGuard.OffensesBoundReached | src/sip/abuse-guard.ts:78-97 | for every threshold from 2 on some run without a ban has exactly that many |
| AbuseGuard.SlidingWindowIff | src/sip/abuse-guard.ts:6-7 | the documented sliding window is what all runs see if and only if the threshold is at most 2 or the address is not penalized |
| CallRate.WindowIsKept | src/services/metrics.service.ts:101-114 | the trimmed list is the tail of all starts and misses only starts older than the window |
| CallRate.CurrentIsExact | src/services/metrics.service.ts:109-114 | a list just trimmed has one entry for each start of the last second of the whole run |
| CallRate.PeakBounds | src/services/metrics.service.ts:101-114 | no one-second interval of the run had more starts than the peak |
| CallRate.PeakReached | src/services/metrics.service.ts:101-114 | some one-second interval had exactly as many |
| CallMetrics.CallMetricsService.OnCall | src/services/metrics.service.ts:76-99 | the whole new state and the snapshot; an empty id changes nothing |
| CallMetrics.CallMetricsService.RecordOutboundStart | src/services/metrics.service.ts:101-107 | the start is kept, the list trimmed, the peak raised if exceeded |
| CallMetrics.CallMetricsService.TrimCps | src/services/metrics.service.ts:109-114 | the loop drops exactly the leading starts older than the window |
| CallMetrics.CallMetricsService.RecomputePeaks | src/services/metrics.service.ts:116-122 | both concurrency peaks, nothing else |
| CallMetrics.CallMetricsService.CountInbound | src/services/metrics.service.ts:119-120 | the loop counts the inbound legs |
| CallMetrics.CallMetricsService.SweepStale | src/services/metrics.service.ts:124-134 | exactly the stale legs go |
| CallMetrics.CallMetricsService.GetSnapshot | src/services/metrics.service.ts:136-155 | the figures of the state after trimming |
| CallMetrics.CallMetricsService.Tick | src/services/metrics.service.ts:61-64 | sweep, then report |
| CallMetrics.PeakCpsIsLargest | src/services/metrics.service.ts:76-114 | the reported outbound peak is the largest number of outbound starts in any closed second of the whole run |
| CallMetrics.CurrentCpsIsExact | src/services/metrics.service.ts:136-150 | every reported current rate is the number of outbound starts in the last second of the whole run |
| CallMetrics.ConcurrencyPeaks | src/services/metrics.service.ts:116-134 | the concurrency peaks are the maxima over every state of the run |
| CallMetrics.LegsAreHistory | src/services/metrics.service.ts:76-134 | on every run the active legs are exactly those that ringing and answered updates tell of, until any other status or four hours |
| CallMetrics.SnapshotIsTrue | src/services/metrics.service.ts:136-155 | every figure of a report is what the whole run says: live legs by direction, both peaks, current and peak rate |
| Rating.RatingService.Reload | src/services/rating.service.ts:37-59 | the loop builds the loaded book; a failed load keeps the old one |
| Rating.LoadedBookResolves | src/services/rating.service.ts:171-178 | whatever plan is asked for, some plan resolves exactly when the book is not empty |
| Rating.LoadedBookIs | src/services/rating.service.ts:46-57 | the user's plan is the last row of its id; without a known one, that of the first flagged row, or of the first row |
| Rating.ToDigits | src/services/rating.service.ts:184-190 | the loop keeps exactly the digits, in order |
| Rating.DigitsAre | src/services/rating.service.ts:184-190 | the ten digits stay and every other character goes, wherever it stands |
| Rating.LongestPrefixMatch | src/services/rating.service.ts:197-206 | the loop equals the recursive match |
| Rating.MatchIsLongest | src/services/rating.service.ts:197-206 | an applicable rate that no applicable prefix exceeds, none only if none applies |
| Rating.MatchIsFirst | src/services/rating.service.ts:197-206 | among rates of the longest prefix the first counts |
| Rating.MatchOrderIrrelevant | src/services/rating.service.ts:192-206 | with distinct prefixes the order of the rates does not matter |
| Rating.RatingAgrees | src/services/rating.service.ts:70-135 | for every number, book and duration `rate`, `estimateMinCharge` and `isUnrated` answer by one condition: some rate of the resolved plan has a non-empty prefix of the digits |
| Rating.BilledIs | src/services/rating.service.ts:212-216 | billed seconds cover call and minimum, and are the minimum or the least whole number of increments |
| Rating.RatedIs | src/services/rating.service.ts:70-91 | what a call costs: fee plus price per minute times billed minutes of the longest matching rate of the user's plan, to the nearest hundred-thousandth, with that plan's currency |
| Rating.QuoteIsOneSecond | src/services/rating.service.ts:100-115 | the quoted minimum is the price of one second |
| Rating.BillableSecondsMonotone | src/services/rating.service.ts:212-216 | a longer call is never billed fewer seconds |
| Rating.FirstIncrement | src/services/rating.service.ts:212-216 | any positive duration is billed at least like one second |
| Rating.CostNeverFalls | src/services/rating.service.ts:70-91 | with prices not negative, cost never falls as duration grows |
| Rating.CostAtLeastMinimum | src/services/rating.service.ts:100-115 | no positive duration costs less than the minimum quoted before |
| CallLedger.CallStore.LogCall | src/services/database.service.ts:413-424 | newest first, at most 500 |
| CallLedger.CallStore.UpdateCall | src/services/database.service.ts:444-479 | the first record with the id is updated, priced and debited under the conditions of the code; nothing else changes |
| CallLedger.DerivedDurationIs | src/services/rating.service.ts:224-228 | talk time is the nearest whole number of seconds, none without an end or before the start |
| CallLedger.UpdateIs | src/services/database.service.ts:444-479 | which record changes and how, which calls are billed and for how much, and whose wallet is debited, exactly |
| CallLedger.LogKeepsNewest | src/services/database.service.ts:413-424 | on every run the log holds the newest 500 calls, newest first |
| CallLedger.DebitsAlwaysOnce | src/services/database.service.ts:444-479 | over any updates and rate books at most one debit per call, and it equals the cost on the record |
| CallLedger.CostNeverChanges | src/services/database.service.ts:452-476 | once stamped, the cost stays while the record exists |
| CallLedger.DebitCoversQuote | src/services/rating.service.ts:145-169 | a debit is never below the minimum the same book quotes |
| AuditLog.AuditService.Log | src/services/audit.service.ts:81-108 | one more entry in ring and queue, ring capped, nothing when disabled |
| AuditLog.AuditService.BeginFlush | src/services/audit.service.ts:117-121 | the whole queue becomes one more batch in flight, unless disabled, empty or flagged |
| AuditLog.AuditService.EndFlush | src/services/audit.service.ts:122-133 | any batch in flight is persisted, or put back in front and capped; the flag is cleared |
| AuditLog.PipelineInOrder | src/services/audit.service.ts:81-134 | table, batch and queue are the logged events in order, all of them exactly until a failed flush overflows |
| AuditLog.PersistedInOrder | src/services/audit.service.ts:117-134 | the table is an ordered subsequence, and without overflow a prefix, of what was logged |
| AuditLog.TwoFlushesDrain | src/services/audit.service.ts:117-133 | from wherever a run has come to, the flush in flight and one more, if they succeed, leave the whole pipeline in the table, in order |
| AuditLog.RingShowsNewest | src/services/audit.service.ts:101-105 | the ring is exactly the newest events, newest first |
| AuditLog.NeverTwoBatches | src/services/audit.service.ts:117-133 | on every run, whichever flush ends when, at most one batch is in flight and the flag says whether there is one |
| AuditLog.DisabledKeepsNothing | src/services/audit.service.ts:97-118 | switched off, the service never buffers or persists anything |
| CdrShipper.EdgeAgent.FlushCDR | edge/agent/main.go:118-154 | the whole new state for every outcome of examining, opening and reading the file, of the post and of the save |
| CdrShipper.EdgeAgent.CollectRows | edge/agent/main.go:140-145 | the loop keeps exactly the lines that are not blank |
| CdrShipper.EdgeAgent.SaveState | edge/agent/store.go:26-32 | what a restart will load, for every outcome of the save |
| CdrShipper.EdgeAgent.Restart | edge/agent/store.go:18-24 | the offset is what the state file says |
| CdrShipper.SplitConcat | edge/agent/main.go:141-141 | splitting a joined text joins the two pieces at the seam |
| CdrShipper.VisibleLineIsARow | edge/agent/main.go:140-145 | a line with any visible ASCII character is one row, as it is |
| CdrShipper.BlankLineIsNoRow | edge/agent/main.go:140-145 | a line of spaces, tabs and carriage returns is none |
| CdrShipper.ShippedInPartsIff | edge/agent/main.go:136-145 | shipping in two parts ships the same rows if and only if the cut is not inside a line |
| CdrShipper.CutOffIff | edge/agent/main.go:136-145 | dropping the end of a text drops no row if and only if it holds none and the cut is not inside one |
| CdrShipper.NoRowLost | edge/agent/main.go:118-154 | on every run of appends, failed opens, posts and saves and crashes, every row before the offset has been received in order |
| CdrShipper.ExactlyOnce | edge/agent/main.go:118-154 | without failed posts and crashes exactly those rows have been received, each once |
| CdrShipper.AppendedLineArrives | edge/agent/main.go:118-154 | on every run an appended visible line is the last row received after a confirmed flush |
| CdrShipper.SavedFlushSurvivesCrash | edge/agent/main.go:152-153 | what has been shipped and saved is not shipped again after a crash |
| CdrShipper.ReplacedFileFromStart | edge/agent/main.go:123-125 | a file shorter than the offset is shipped from its start |
| CdrShipper.ConfirmedFlushCatchesUp | edge/agent/main.go:146-153 | a confirmed flush leaves nothing unshipped |
| CdrShipper.ShortReadIff | edge/agent/main.go:137-153 | the offset moves to the end however little was read; a confirmed short read loses nothing if and only if the rest holds no row and does not belong to the last line read |
| EdgeDirectory.EscapeRoundTrip | edge/agent/directory.go:12-19 | decoding escaped text gives the text back (section 4.6 of XML 1.0) |
| EdgeDirectory.EscapedHasNoQuote | edge/agent/directory.go:12-19 | escaped text cannot end an attribute |
| EdgeDirectory.EscapedIsWellFormed | edge/agent/directory.go:12-19 | escaped text has no brackets and quotes, and an ampersand only where an entity begins |
| EdgeDirectory.RenderInjective | edge/agent/directory.go:38-51 | different quote-free values render differently |
| EdgeDirectory.FileSays | edge/agent/directory.go:21-52 | which value stands in which parameter of the file, and what stands in for an empty one |
| EdgeDirectory.SameTextIffSameUser | edge/agent/directory.go:21-52 | two users' files are equal if and only if everything shown is |
| DirectorySync.Directory.WriteUsers | edge/agent/directory.go:55-92 | files, change flag and failure, for every roster and every set of files that cannot be written or removed |
| DirectorySync.Directory.WritePages | edge/agent/directory.go:62-77 | the loop writes only what differs and stops at a refused write |
| DirectorySync.Directory.DropUnlisted | edge/agent/directory.go:81-90 | the loop removes the `.xml` files not listed, as far as they can be removed, and reports a change if there was any |
| DirectorySync.ListedPages | edge/agent/directory.go:62-69 | one page per valid extension, in roster order |
| DirectorySync.DirectoryConverges | edge/agent/directory.go:55-92 | afterwards the `.xml` files are exactly the wanted ones and those that could not be removed, all other files untouched; an empty roster changes nothing |
| DirectorySync.ServedUserHasFile | edge/agent/directory.go:55-77 | with distinct extensions every user of two to eight digits has its file with its text |
| DirectorySync.OtherFilesGone | edge/agent/directory.go:79-90 | every `.xml` file left is that of such a user, or could not be removed |
| DirectorySync.NoChangeIff | edge/agent/directory.go:71-88 | no change is reported exactly when every page is in place and no unlisted file is there |
| DirectorySync.SecondRunIsQuietIff | edge/agent/directory.go:55-92 | a second run reports no change if and only if no extension has two different texts and no unlisted file resisted removal |
| DirectorySync.DistinctIsConsistent | edge/agent/directory.go:62-69 | distinct extensions never have two texts for one file |
| DirectorySync.RefusedWriteStops | edge/agent/directory.go:72-75 | the first refused write ends the run: pages before it written, nothing after it, nothing removed |
| Hydration.UserStore.HydrateAllDetail | src/services/database.service.ts:164-204 | reset, then all tables row by row, wallets only when prepaid |
| Hydration.UserStore.HydrateUserDetail | src/services/database.service.ts:211-234 | that one user's detail is replaced entirely, nobody else's |
| Hydration.UserStore.ApplyRows | src/services/database.service.ts:186-203 | the loop applies each row to the user its extension leads to |
| Hydration.RowsProjected | src/services/database.service.ts:236-269 | seen from one user, interleaved rows are that user's own rows in order |
| Hydration.EveryUserListed | src/services/database.service.ts:370-379 | `getUsers` reaches every user |
| Hydration.BulkIsPerUser | src/services/database.service.ts:164-269 | bulk loading leaves every user with exactly what per-user loading computes |
| Hydration.PerUserIs | src/services/database.service.ts:211-269 | the loaded detail field by field: the user's numbers, the target of its last rule of each kind, its settings and wallet rows |
| CallRouting.Invite.RouteToExtension | src/sip/sip.server.ts:525-649 | responses and statuses of the whole chain, whatever has been sent before |
| CallRouting.Invite.RouteRejected | src/sip/sip.server.ts:587-648 | which branch each failure of the device takes, with or without a response already out |
| CallRouting.Invite.RouteUnreachable | src/sip/sip.server.ts:668-731 | PSTN, then forward, then voicemail if offline, then announcement, then 480, each adding to what has been sent |
| CallRouting.Invite.ForwardCall | src/sip/sip.server.ts:764-814 | registered target, mobile of an unregistered one, or 480, each adding to what has been sent |
| CallRouting.Invite.RouteDoNotDisturb | src/sip/sip.server.ts:740-762 | voicemail or a silent 480, guarded by what has been sent |
| CallRouting.SilencedAnswersOnce | src/sip/sip.server.ts:740-762 | do not disturb gives one response, the table's, and one status, voicemail exactly when a message was saved |
| CallRouting.Invite.RouteViaTrunk | src/services/trunk.service.ts:113-141 | the responses sent, including the unguarded 503 on top of one from before |
| CallRouting.Invite.RecordVoicemail | src/sip/ivr.system.ts:131-165 | a response unless one is out or voicemail is off, and whether a message was saved |
| CallRouting.Invite.PlayUnavailable | src/sip/ivr.system.ts:269-291 | a response unless one is out |
| CallRouting.FailureSettles | src/sip/sip.server.ts:587-731 | from any state of the INVITE and for every SIP code the chain adds the table's status and, if none was out, the table's response; a 503 on top exactly after a vain PSTN attempt |
| CallRouting.RoutedAnswersOnce | src/sip/sip.server.ts:525-731 | status and response are those of a table on raw SIP codes; no response exactly for a caller who cancelled and got none from the library; a second one, 503, exactly when the PSTN is tried in vain after a first |
| CallRouting.TwoFinalResponses | src/services/trunk.service.ts:130-140 | both families of inputs with two final responses |
| CallRouting.VoicemailOnlyWhenAbsent | src/sip/sip.server.ts:691-703 | status voicemail exactly for the codes of an absent device, with no other way through and a message saved |
| CallRouting.ReachedDeviceNeverVoicemail | src/sip/sip.server.ts:591-620 | 486, 603, 408, a timeout and 487 never end with voicemail |
| CallRouting.OwnRuleDecides | src/sip/sip.server.ts:591-612 | 486 and 603 go by the busy rule, 408 and a timeout by the no-answer rule, before anything else |

## Left out

- MediaServer.Server.Begin: not connected and not ready are one outcome; the `Endpoint` constructor is taken not to throw.
- MediaServer.Server.OnNewCall: a second connection for an entry that already holds one replaces it, as in the code; that the first is then never hung up is not tracked. Destroying dialogs is not modelled.
- MediaServer.Server.OnTimeout: the timer's length of four seconds is not modelled; it may fire at any time while armed.
- QueueSessions.StepKeepsIffCareful: `enqueueCaller` is modelled as a transition system on values, one step per stretch between awaits, because its local flags live across awaits; hold music, prompts, the order of leg teardown and the deadline's length are not modelled. Agents have non-empty extensions.
- CdrShipper.EdgeAgent.FlushCDR: the file is a text and the offset counts its characters, not bytes; `parseCDRLine` and a file replaced by one at least as long as the offset are not modelled.
- CdrShipper.NoRowLost: the file only grows by whole lines and is read in full; `ShippedInPartsIff` and `ShortReadIff` say what happens otherwise.
- DirectorySync.Directory.WriteUsers: directory entries are plain files, and the directory itself can be made.
- Rating.CostNeverFalls: prices are exact reals; binary floating-point rounding is not modelled.
- CallLedger.CallStore.UpdateCall: the payer is an input of each update, timestamps are numbers (an unparsable one is not modelled), and only the fields that pricing or status use are kept.
- AuditLog.PipelineInOrder: the insert is all or nothing, and creating the schema is part of it.
- Hydration.BulkIsPerUser: tables do not change between the queries; one settings and one wallet row per user, and no row's extension is another user's user name.
- CallRouting.Invite.RouteToExtension: what the SIP library does is an outcome, and it sends a response only while none is out; a second `send` of the code is counted as a second response. Notifications, audit entries and the later `ended` updates are not modelled.
- AbuseGuard.SipAbuseGuard.RecordOffense: the firewall command is not modelled.
- Voicemail uploads of the edge agent (only their save of the shared state appears), trunk files, and the agent's polling loop.
- The wallet tables themselves, write queues and retries towards Postgres and Redis.
- Phone and user-name indexes, lazy lookup caches, snapshots and events for dashboards.
- Conferences, push, dial plans, Teams, prompts and DTMF, HTTP and WebSocket handlers, tokens, the web and mobile clients: foreign calls, or easier than what is here.
