# Verified model of shikigami's protocols

shikigami is an agent host. It serves work that a plane leases to it, jobs from
a filesystem queue, background runs over MCP and editor sessions over ACP. This
project models the protocols in which it does so and proves what they keep: over
every run, against every answer of the other side, for every input.

Time is counted in nanoseconds, as durations are. Everything the host does not
decide (the plane, the clock, the run itself, other programs, how a wire cuts its
bytes, whether a file could be written) is an adversary: a function from a
counter to what happens next, an explicit argument, or a step that may come at
any time. Objects the source updates in place are classes whose methods are tied
to a function of the old state; the laws are lemmas about those functions.

## Modules

- `Wrappers`, `Text`, `Sorting`: options; whitespace, UTF-8, decimal numbers,
  string order; sorting by a key.
- `LeaseTiming`, `ClaimPort`, `FencedRetry`, `FencedRetryProofs`,
  `FencedRetryExact`: lease arithmetic, the plane as adversary, the retry loops of
  fenced calls, and exactly when they go on and succeed.
- `DriveRun`, `WorkerLifecycle`, `ClaimedRun`, `ClaimedRunProofs`, `AgentTurn`,
  `PlaneServe`: one claim from admission to acknowledgement, its book-keeping,
  its agent-turn twin, and the poll loop around it.
- `EventChannel`, `ChannelWakeup`: the bounded coalescing event channel, as a
  class and as interleaved steps with its wakeups.
- `BackgroundRun`: the single-flight background run and its waiters.
- `QueueNames`, `JobQueue`, `JobQueueProofs`, `JobQueueContents`, `FilesystemQueue`,
  `IdleCache`, `ServeLoop`: file names, directories, whole runs of the job queue, what
  its files hold, the queue's calls in place, the memory of an empty inbox step by
  step, the serve loop.
- `HttpRequest`: the streaming request reader against a whole-buffer parser.
- `Base64`: the attachment decoder.
- `ToolCalls`, `ToolReplay`, `ToolCompaction`, `ReplayGaps`, `ContentCalls`: open
  tool calls closed on cancel, replay, exactly when the replay of a history the run
  recorded is complete, and two histories for which it is not.
- `SessionMode`: the mode freeze of a session across failed writes and restarts.
- `Inventory`, `ArtifactChanges`, `ArtifactPatch`: the artifact inventory, its
  difference, the bounded patch.
- `ToolAuthority`: effective tools and how session modes narrow them.

## Where the code does less than its comments say

Each of these is proved: a concrete run or input in which it happens, and for all
runs or inputs the exact condition under which it does not.

- A renewal can be granted and be dead on arrival: the lease is counted from the
  start of the call, so a grant shorter than the call has run out when it is
  adopted, and the run is polled once past its deadline
  (`DriveRun.DeadGrantPollsPastTheDeadline`, `DriveRun.PolledInLeaseIffGrantLive`).
- Plane intake gives up on an acknowledgement whose reply was lost when no renewal
  is granted, where an agent turn goes on
  (`FencedRetryProofs.OneLostReply`, `FencedRetryExact.SucceedsExactlyWhen`).
- A waiter for a background run can sleep past the end of that run, and can report
  a later one, exactly when another run was started in between
  (`BackgroundRun.RestartHidesCompletion`, `BackgroundRun.SleepsPastItsRun`,
  `BackgroundRun.ReportsItsOwnRun`).
- The directory time is read after the scan, so the memory of an empty inbox hides
  a job that arrived between the two, until the inbox changes again
  (`IdleCache.JobHidden`, `IdleCache.HidesTheNetArrivals`).
- Whether a request is served can depend on how the wire cuts its bytes: with a body
  bound below 4095 bytes when other bytes are behind it, and with a body bound of two
  bytes or more when its head ends two to 4096 bytes beyond the header bound (`HttpRequest.SmallBodyBoundDependsOnPieces`,
  `HttpRequest.LargeBodyBoundDependsOnPieces`, `HttpRequest.SplitsAgreeExactly`).
- A first prompt whose session file cannot be written freezes the mode in memory
  only; after a restart another mode can be chosen although runs were driven
  (`SessionMode.FreezeLost`, `SessionMode.ExposedFreezeIsLost`).
- When history was compacted, a replay numbers turns from one on although answers
  carry the run's numbers, and it shows calls that are never answered when some call
  has no id (`ReplayGaps.CompactedReplayIncomplete`,
  `ToolCompaction.ReplayCompleteExactly`).
- The calls of a rejected batch are answered under the ids the model gave, which may
  be empty, and a replay shows a call without an id that is never answered even when
  nothing was dropped (`ReplayGaps.RejectedReplayIncomplete`,
  `ToolCompaction.ReplayCompleteExactly`).
- A backslash in a file name, or names that are not UTF-8, can give two files one path
  in the inventory (`Inventory.BackslashesCollide`, `Inventory.LossyNamesCollide`,
  `Inventory.PathsAreDistinct`).

## Model

| member | source | states |
|---|---|---|
| LeaseTiming.WindowKeepsMargin | src/plane_intake/claimed_run.rs:677-692 | a call is allowed exactly with more than 20 ms left; its window leaves a tenth of the remaining lease, but from 10 to 250 ms, before the deadline, and is capped |
| LeaseTiming.HeartbeatIsReachedInTime | src/plane_intake/claimed_run.rs:669-675 | the next heartbeat comes after the configured interval when two of them are left and after half the remaining lease otherwise; more than 40 ms left at the top of the loop always leave a call window then; with an interval of 20 ms or more they are also needed |
| LeaseTiming.RetrySleepStaysInsideLease | src/plane_intake/claimed_run.rs:449-457 | a retry sleep takes the poll interval, but from 100 to 250 ms, at most half the heartbeat interval and half the remaining lease, and never oversleeps a live one |
| LeaseTiming.GrantLiveOnArrival | crates/shikigami-governance-sekai/src/claim_acquisition.rs:503-523 | a grant is counted from the start of its call and never beyond the time asked for; it is live on arrival exactly when it outlasts the call that brought it |
| FencedRetry.RetryWhileFenced | src/plane_intake/claimed_run.rs:381-427 | the plane's retry loop does what the attempt-by-attempt specification says; its unreachable end is unreachable |
| FencedRetry.AckWithRetry | src/agent_turn/claimed_run.rs:501-553 | the agent turn's retry loop, which tolerates failed renewals, does what its specification says |
| FencedRetryProofs.AttemptKeeps | src/plane_intake/claimed_run.rs:388-404 | an attempt is one dispatch inside the lease or a fence loss without one; it settles the call exactly when it was accepted or lost the fence, and its error is the one its answer stands for |
| FencedRetryProofs.BetweenKeeps | src/plane_intake/claimed_run.rs:407-424 | between two attempts there is at most one renewal and then one sleep, inside the lease; plane intake goes on only after a granted renewal, an agent turn stops here only for shutdown; each way to stop has its error |
| FencedRetryExact.GoesOnExactlyWhen | src/agent_turn/claimed_run.rs:520-550 | exactly when each loop goes on to another attempt, in terms of the flag, the heartbeat's answer and the sleep |
| FencedRetryExact.SucceedsExactlyWhen | src/plane_intake/claimed_run.rs:381-427 | a fenced call succeeds exactly when, within the limit, retryable attempts with such goings-on are followed by an accepted one |
| FencedRetryExact.TurnSucceedsWherePlaneDoes | src/agent_turn/claimed_run.rs:501-553 | whatever plane intake achieves, an agent turn achieves against the same plane, in the same way |
| FencedRetryProofs.FencedCall | src/plane_intake/claimed_run.rs:381-427 | for every plane: at most the limit of dispatches, all the same call; one renewal fewer; none after a lost fence; success exactly when a dispatch was accepted; all inside the lease |
| FencedRetryProofs.CallErrorIsShown | src/plane_intake/claimed_run.rs:388-424 | the error of a call is that of its last event, or a shutdown that was met, or a lease the host's own clock found without safe time |
| FencedRetryProofs.PlaneNeverGoesOnUnrenewed | src/plane_intake/claimed_run.rs:398-424 | every retry follows a granted renewal and a sleep; a renewal not granted is the last event and an error |
| FencedRetryProofs.LostReplyIsRetried | src/agent_turn/claimed_run.rs:513-552 | an agent turn succeeds as soon as one attempt within limit and original lease is answered, though every heartbeat fails |
| FencedRetryProofs.OneLostReply | src/agent_turn/claimed_run.rs:527-535 | a plane and the default times with which an agent turn is acknowledged by its second dispatch and plane intake loses its fence |
| FencedRetryProofs.PlaneGivesUpOnLostReply | src/plane_intake/claimed_run.rs:404-422 | in the same situation plane intake ends with an error after one dispatch |
| DriveRun.DriveClaimedRun | src/plane_intake/claimed_run.rs:102-173 | the select loop does what its round-by-round specification says |
| DriveRun.RoundKeeps | src/plane_intake/claimed_run.rs:102-172 | a round polls the run once and then ends with it, drains it once, or has a granted renewal; all inside the lease |
| DriveRun.HeartbeatKeeps | src/plane_intake/claimed_run.rs:109-157 | a heartbeat renews the lease, or the run is drained and the claim fails with exactly the error that lost the fence |
| DriveRun.DrainKeeps | src/plane_intake/claimed_run.rs:620-653 | a cleanup after a lost fence is cut exactly when it needs more than 50 ms and more than the interval or five seconds; one on shutdown is not cut while the interval and the lease leave it a quarter second more than it needs, and gets no time without a safe lease |
| DriveRun.DriveIsSafe | src/plane_intake/claimed_run.rs:102-173 | for every adversary and number of rounds: every event is inside its lease; only the last may be a drain; a fence lost by the host's own clock had at most 40 ms left when the round began; a stop was woken by shutdown; unfinished means all rounds were driven to granted renewals |
| DriveRun.DriveEndsExactlyWhen | src/plane_intake/claimed_run.rs:102-173 | however long it is watched, a drive ends with the end of its run, or stops for shutdown, exactly when that comes before a heartbeat is due and all heartbeats before were granted |
| DriveRun.HeartbeatsOnSchedule | src/plane_intake/claimed_run.rs:104-113 | over every drive no poll lasts longer than the heartbeat interval, the timer fires after exactly that when the lease has two intervals left and after half of what is left otherwise, and no granted lease exceeds the one asked for |
| DriveRun.PolledInLeaseIffGrantLive | src/plane_intake/claimed_run.rs:102-127 | a poll ends inside its lease exactly when the lease it began with was live |
| DriveRun.LiveGrantsKeepTheRunInItsLease | src/plane_intake/claimed_run.rs:102-127 | with a live first lease and live grants the run is never polled at or after its deadline |
| DriveRun.DeadGrantPollsPastTheDeadline | src/plane_intake/claimed_run.rs:120-127 | a grant shorter than its call gives a poll past the deadline |
| WorkerLifecycle.BegunAndReleased | crates/shikigami-engine/src/worker_lifecycle.rs:389-420 | a claim begun and released is counted once, under its outcome, and no longer active |
| WorkerLifecycle.Lifecycle.BeginClaim | crates/shikigami-engine/src/worker_lifecycle.rs:389-395 | a claim begun is active and restores the fencing flag |
| WorkerLifecycle.Lifecycle.EndClaimTerminal | crates/shikigami-engine/src/worker_lifecycle.rs:397-412 | an ended claim is inactive and counted under its outcome alone |
| WorkerLifecycle.Lifecycle.DropActiveClaim | crates/shikigami-engine/src/worker_lifecycle.rs:414-420 | a dropped claim is inactive and counted nowhere |
| ClaimedRunProofs.ResumesExactlyWhen | src/plane_intake/claimed_run.rs:466-571 | work is prepared exactly when it maps to a task and its continuation is its own, answered and within bounds; it resumes exactly when the host holds the checkpoint named |
| ClaimedRunProofs.AnnouncesWhatItDoes | src/plane_intake/claimed_run.rs:520-571 | what is announced of a run, and its task, say whether it is new, resumes, or replaces one whose checkpoint is missing or was never named |
| ClaimedRun.LifecycleObserveError | src/plane_intake/claimed_run.rs:284-307 | an error drops the claim and flags exactly what it says about the worker |
| ClaimedRun.ReportBeforeRun | src/plane_intake/claimed_run.rs:72-78 | the events before a run are reported in order until one fails, and success means that each was accepted |
| ClaimedRun.Settle | src/plane_intake/claimed_run.rs:245-258 | a claim is released as ended with the acknowledged outcome exactly when the plane accepted it, as dropped otherwise |
| ClaimedRun.AckFor | src/plane_intake/claimed_run.rs:189-244 | parked exactly when the run parked, completed exactly on an unparked success; the reason is the first 512 characters; a checkpoint exactly when a parked run can be read from the host's store, and that one; the artifacts exactly when completed |
| ClaimedRun.DriveAndSettle | src/plane_intake/claimed_run.rs:85-263 | a driven run is acknowledged only when it ended by itself, with what it ended with, and released once; otherwise all rounds watched were driven |
| ClaimedRun.Execute | src/plane_intake/claimed_run.rs:26-265 | for every number of rounds the claim begun is released exactly once, as ended with the acknowledged outcome exactly when an acknowledgement was accepted and as dropped otherwise, or all these rounds were driven; the outcome is what the last poll of the run ended with; a run starts right after the flag was read as unset; an error flags the worker; lease safety is kept |
| ClaimedRunProofs.OneOutcomePerClaim | src/plane_intake/claimed_run.rs:189-250 | all acknowledgements of a claim are one and the same, at most one is accepted, none is sent after a drain |
| ClaimedRunProofs.AcceptedAsItEnded | src/plane_intake/claimed_run.rs:189-250 | an accepted acknowledgement says completed exactly when the run was last polled to an unparked success, parked exactly when to a parked end, and failed otherwise |
| ClaimedRunProofs.SucceededOnlyAfterStarted | src/plane_intake/claimed_run.rs:175-187 | a resumption is reported as succeeded only for the digest whose start was accepted, after the run was polled to success, and only for matching work |
| ClaimedRunProofs.RunOnlyAfterAnnounced | src/plane_intake/claimed_run.rs:72-78 | no run is polled before every event announcing it was accepted, one after the other |
| ClaimedRunProofs.AckAfterResumption | src/plane_intake/claimed_run.rs:175-187 | a resumed run that succeeded is acknowledged only after its resumption was accepted |
| AgentTurn.TurnAckFor | src/agent_turn/claimed_run.rs:150-230 | a turn is acknowledged as parked exactly when it parked on an Action it submitted, as completed exactly when it succeeded unparked |
| AgentTurn.ExecuteTurn | src/agent_turn/claimed_run.rs:22-244 | a turn that is frozen, kill-switched, of another principal or without instructions never runs and fails; every path releases the claim once or drove all rounds watched; a turn goes on unacknowledged exactly when the local run is still active |
| PlaneServe.RunOneClaim | src/plane_intake/serve_loop.rs:98-124 | a claim is begun once and here, keeps its lease, and is not active afterwards unless all rounds watched were driven |
| PlaneServe.OneTurn | src/plane_intake/serve_loop.rs:37-124 | in one turn at most one claim is begun, immediately after the flag was read and found unset, and none with governance down or while the worker does not accept claims; a turn without a claim waits |
| PlaneServe.RunUntilShutdown | src/plane_intake/serve_loop.rs:15-126 | at most `max_jobs` claims, and no more than polls that offered work with governance up, each begun immediately after the shutdown flag was read as unset; a failed one is the last; none is left active; the loop ends served only when shutdown was met, the worker was draining from the start, or all jobs are done |
| EventChannel.AsyncChannel.Emit | crates/shikigami-engine/src/events.rs:272-296 | an emit enqueues or coalesces in place as the channel's value does, and does nothing once closed |
| EventChannel.AsyncChannel.PopOrClosed | crates/shikigami-engine/src/events.rs:256-262 | the oldest event is delivered, or the queue is reported empty and whether it is closed |
| EventChannel.AsyncChannel.RetainOthers | crates/shikigami-engine/src/events.rs:272-284 | coalescing removes the queued previews and nothing else |
| EventChannel.EnqueuedIsFaithful | crates/shikigami-engine/src/events.rs:265-284 | whatever is emitted: delivered and queued events are in order of emission, hold every event that is no preview and the latest preview, and at most `capacity` previews are queued |
| EventChannel.PoppedIsFaithful | crates/shikigami-engine/src/events.rs:247-262 | delivery keeps all that and delivers the oldest event |
| EventChannel.DropsOnlyWhenFull | crates/shikigami-engine/src/events.rs:272-284 | a queued event leaves other than by delivery exactly when it is a preview and another preview meets a queue that is full; what is emitted is queued |
| EventChannel.EveryEventIsAccountedFor | crates/shikigami-engine/src/events.rs:265-284 | over every run, events delivered, queued and dropped are all that were emitted, and the dropped ones are the previews waiting whenever another met a full queue |
| EventChannel.AllArriveUnlessFull | crates/shikigami-engine/src/events.rs:196-284 | over every run of a new channel, what is delivered and queued is everything emitted, in order, exactly when no waiting preview was met by another at a full queue |
| EventChannel.QueueBound | crates/shikigami-engine/src/events.rs:200-217 | the queue is as long as its previews and its other events, so the capacity bounds all but the latter |
| ChannelWakeup.NoLostWakeup | crates/shikigami-engine/src/events.rs:224-262 | over every interleaving a blocked receiver of a non-empty or closed queue has a wakeup on its way |
| ChannelWakeup.FromStart | crates/shikigami-engine/src/events.rs:196-217 | from a new channel on, the pending notification wakes the blocked receiver |
| ChannelWakeup.ReceivesTheOldest | crates/shikigami-engine/src/events.rs:236-262 | a receive answers the event queued first and moves it to the delivered ones, or reports the end, or waits for an open and empty queue |
| ChannelWakeup.EndOfStream | crates/shikigami-engine/src/events.rs:236-246 | the stream ends only when closed and drained, and then every event that may not be dropped was delivered |
| BackgroundRun.Lifecycle.StartRun | src/mcp_server/background_run.rs:60-78 | a start is refused exactly while a run is running |
| BackgroundRun.Lifecycle.FinishRun | src/mcp_server/background_run.rs:141-161 | the end of a run is published with its result |
| BackgroundRun.SingleFlightAndNoMissedCompletion | src/mcp_server/background_run.rs:60-166 | over every interleaving: one task exactly while running, a result exactly when finished, and no waiter asleep unless a run is running |
| BackgroundRun.PublishedAsItEnded | src/mcp_server/background_run.rs:141-161 | over every interleaving each run is remembered with the outcome of the step that ended it, and what is published when a run is over is the outcome and the lines of the last |
| BackgroundRun.FoundAtFirst | src/mcp_server/background_run.rs:103-120 | a caller is told that there is no run exactly when none was ever started; else it waits for the run under way or reports the one that is over |
| BackgroundRun.SleepsPastItsRun | src/mcp_server/background_run.rs:103-139 | a sleeping waiter's own run has ended exactly when another was started since |
| BackgroundRun.ReportsItsOwnRun | src/mcp_server/background_run.rs:121-139 | a waiter reports the result of its own run when no other was started since, otherwise a later run |
| BackgroundRun.RestartHidesCompletion | src/mcp_server/background_run.rs:114-121 | an interleaving in which a waiter sleeps on though its run has ended |
| QueueNames.PriorityRoundTrip | src/serve/queue.rs:396-426 | every priority is read back from the name of its file |
| QueueNames.KeysReverseOrder | src/serve/queue.rs:396-407 | a higher priority gives a smaller file name |
| QueueNames.AdmittedNamesSortThemselves | src/serve/queue.rs:92-113 | among admitted names the claim order is the order of names |
| QueueNames.BeforeIsStrictOrder | src/serve/queue.rs:112-113 | the claim order is a strict total order |
| QueueNames.OriginalNameRestored | src/serve/queue.rs:345-354 | stripping the claim marker gives back every name, even one with a marker of its own |
| JobQueueProofs.SettleMoves | src/serve/queue.rs:136-216 | settling a job moves one file to a name nothing had: back to the inbox while attempts are left, to done exactly on unparked success, to failed otherwise |
| JobQueueContents.SettledAsItRan | src/serve/queue.rs:136-216 | a settled job is put back with one more attempt exactly when its run failed with attempts left; otherwise it is archived under its own name unless taken, with its result or an error note beside it, as done exactly on unparked success; nothing else changes |
| JobQueueProofs.StepConserves | src/serve/queue.rs:65-216 | every step keeps every job, in one place, and brings in only the one it submits |
| JobQueue.SubmissionIsStored | src/serve/queue.rs:65-90 | a submission is accepted exactly when its task is not blank and there is room; then one new file appears, in the inbox, under a name with its priority, and holds the job of the answer, which is the submitted one with an id added where it had none; otherwise nothing changes |
| JobQueueProofs.StepKeepsDepth | src/serve/queue.rs:65-90 | only a submission below its capacity makes the queue deeper, and never beyond it |
| JobQueueProofs.StepUsesWork | src/serve/queue.rs:136-216 | every claim and every settlement lowers the work left |
| JobQueueProofs.StepKeepsArchives | src/serve/queue.rs:327-369 | no step overwrites an archived job, result or error note |
| JobQueueProofs.ArchivesAreForever | src/serve/queue.rs:327-369 | over every run no archived file is overwritten |
| JobQueueProofs.JobStory | src/serve/queue.rs:136-216 | over every run a job is never lost or doubled, is claimed no more often than its attempts allow, and lands in done exactly when a run of it succeeded unparked |
| JobQueueContents.AttemptsCountPutBacks | src/serve/queue.rs:160-178 | over every run a job stays the same but for its attempts, which count how often it was put back |
| JobQueueContents.ClaimedAsSubmitted | src/serve/queue.rs:65-134 | whatever happens in between, what is claimed of an accepted submission is the submitted job, with its attempts counting how often it was put back |
| JobQueueProofs.ClaimedAtMost | src/serve/queue.rs:160-178 | a job at attempt a is claimed at most max(0, limit − a) + 1 times |
| JobQueueProofs.DepthStaysBounded | src/serve/queue.rs:65-90 | without outside drops a queue within max(capacity, 1) stays there over every run |
| JobQueueProofs.ClosedInboxDrains | src/serve/queue.rs:160-178 | without new jobs every run has at most as many steps as there is work left |
| JobQueueProofs.DrainsInOrder | src/serve/queue.rs:92-125 | claims without arrivals come in strictly increasing claim order, so in non-increasing priority |
| FilesystemQueue.Queue.Admit | src/serve/queue.rs:65-90 | admission in place: what is stored is the job answered, which is the one submitted; the memory of an empty inbox is cleared |
| FilesystemQueue.Queue.ClaimNext | src/serve/queue.rs:92-134 | as one step, a claim answers that there is no job exactly when the inbox holds none, and otherwise moves the first job in claim order |
| FilesystemQueue.Queue.RunClaimed | src/serve/queue.rs:136-216 | a run's outcome is filed as specified, and the memory stays sound |
| FilesystemQueue.Queue.DroppedIn | src/serve/queue.rs:283-287 | a file another program drops in moves the directory time, so the memory of an empty inbox stays sound without being told |
| IdleCache.HidesTheNetArrivals | src/serve/queue.rs:92-118 | whatever others do between the steps of a claim that finds nothing, its memory is in force exactly when the inbox did not change after its stamp was read, and then hides jobs exactly when more came in than were taken out between the scan and the reading of the stamp |
| IdleCache.HidesExactlyWhatCameInBetween | src/serve/queue.rs:283-302 | over every interleaving in which jobs come in and nothing else changes the inbox but claims, a memory in force hides a job exactly when its stamp is not the one the scan was made under |
| IdleCache.HidesOnlyAfterAChange | src/serve/queue.rs:283-302 | with removals, and with temporary files that come and go, it hides one only when the stamps differ |
| IdleCache.ChangesAreNoticed | src/serve/queue.rs:283-303 | every change of the inbox and every clearing end the force of a memory, and the next claim scans |
| IdleCache.JobHidden | src/serve/queue.rs:115-118 | a dropped and a submitted job that are hidden |
| IdleCache.HiddenUntilTheInboxChanges | src/serve/queue.rs:283-287 | a hidden job stays hidden however often it is asked for, until the inbox changes |
| ServeLoop.Server.RunUntilShutdown | src/serve/serve_loop.rs:50-148 | the log is what the loop makes of what it meets: bounds at every point, claims as long as there is room and the queue has jobs, only in turns whose flag is unset, health before every wait and after every end, shutdown noted exactly where it is; a normal end leaves no job unjoined and met shutdown or did exactly `max_jobs` |
| ServeLoop.NoClaimAfterShutdown | src/serve/serve_loop.rs:51-90 | when a job is claimed, neither this turn's flag nor any turn before showed shutdown |
| ServeLoop.WaitsOnlyWhenSettled | src/serve/serve_loop.rs:62-120 | the loop waits only when it may claim no more or the queue has just had none, and with a health written that shows how many jobs run and which ended last |
| ServeLoop.Server.OneTurn | src/serve/serve_loop.rs:50-120 | a turn is the last one only for shutdown or with all jobs done and none running |
| ServeLoop.Server.Drain | src/serve/serve_loop.rs:123-140 | on shutdown all claimed jobs are joined and none is claimed |
| ServeLoop.Server.ClaimJobs | src/serve/serve_loop.rs:69-90 | jobs are claimed while both bounds leave room, until the queue has none |
| ServeLoop.Server.Join | src/serve/serve_loop.rs:104-119 | a joined job is counted as completed unless it was put back |
| ServeLoop.OrderlyPrefix | src/serve/serve_loop.rs:62-120 | the bounds hold at every cut of the log |
| ServeLoop.ClaimsAreAccountedFor | src/serve/serve_loop.rs:62-120 | every claimed job is running or has ended once |
| HttpRequest.ReadRequest | src/serve/control.rs:163-240 | the reader in place gives the streamed request, and takes at most both bounds and two pieces off the wire |
| HttpRequest.ReadUntilHead | src/serve/control.rs:167-191 | the first loop finds the head as specified and never holds more than the header bound and a piece |
| HttpRequest.ReadBody | src/serve/control.rs:227-239 | the second loop gives exactly the declared bytes, or refuses a short body |
| HttpRequest.ReadHeaderLines | src/serve/control.rs:203-220 | the last Content-Length and Authorization win, and any length that is no number refuses the request |
| HttpRequest.HeadReadExactly | src/serve/control.rs:192-220 | a head is refused exactly for having no two words on its first line or for a length that is no number; else it has these words and the values of its headers |
| HttpRequest.LengthReadExactly | src/serve/control.rs:203-220 | the declared length is that of the last Content-Length header, none of which may be other than a number; zero without one |
| HttpRequest.BodyReadExactly | src/serve/control.rs:221-240 | the declared bytes are the body, refused as too large exactly above the body bound and as ended early exactly when fewer are there |
| Text.ParsesExactlyNumerals | src/serve/control.rs:211-217 | exactly numerals are numbers: an optional plus, zeros, and the decimal notation of a number below the limit |
| HttpRequest.FindInPrefix | src/serve/control.rs:383-387 | the end of the head is found in a prefix exactly once the prefix covers its first occurrence |
| HttpRequest.HeadFound | src/serve/control.rs:167-191 | whatever the bytes, the search is decided by how many bytes are in once the reads cover the end of the head or the byte after the header bound: too large a request, a head at its first marker, or too long a head |
| HttpRequest.HeadBounded | src/serve/control.rs:167-191 | for every split an accepted head ends at the first marker and the buffer is bounded |
| HttpRequest.StreamedIsWhole | src/serve/control.rs:163-240 | a split gives the whole-buffer result exactly when its completing read stays within the request bound, and is refused as too large exactly otherwise |
| HttpRequest.SplitsAgreeExactly | src/serve/control.rs:163-240 | for all bytes and every body bound: all splits give the same request or refusal exactly when the bytes end before the search stops, or the request bound is passed wherever it stops, or it never is and a head that does not end where the search stops does not end within a piece either |
| HttpRequest.ShortHeadDependsOnPieces | src/serve/control.rs:177-181 | for every head that fits whose completing piece can overrun the request bound, a split that is read whole and a split that is refused as too large |
| HttpRequest.LongHeadDependsOnPieces | src/serve/control.rs:185-190 | for every head that ends two to 4096 bytes beyond the header bound, a split that is refused as too long and a split that is read whole |
| HttpRequest.SmallBodyBoundDependsOnPieces | src/serve/control.rs:177-181 | for every body bound below 4095 a request that is served or refused as too large depending on the split |
| HttpRequest.LargeBodyBoundDependsOnPieces | src/serve/control.rs:182-190 | for every body bound of two or more a request that is served or refused as too long depending on the split |
| HttpRequest.RequestRoundTrip | src/serve/control.rs:192-240 | a request written out is read back the same, its method in upper case, for every split, whatever follows it, and whatever the case of its header names and the blanks around their values |
| Base64.DecodeBase64Compact | src/acp.rs:2367-2415 | the decoder in place computes the group-by-group decoding |
| Base64.RoundTrip | src/acp.rs:2795-2817 | the decoder inverts the standard encoder on every byte string |
| Base64.AcceptsPaddedStrings | src/acp.rs:2378-2389 | exactly the padded strings of section 4 of RFC 4648 are accepted |
| Base64.DecodedLength | src/acp.rs:2390-2413 | the decoded length is three quarters of the characters less the padding |
| Base64.ReencodesIffCanonical | src/acp.rs:2367-2415 | encoding the decoded bytes gives the input back exactly when the unused bits are zero |
| Base64.SizeCheckIsExact | src/acp.rs:2346-2365 | for valid text the check before allocation rejects exactly payloads above the bound |
| Base64.MalformedIsRefused | src/acp.rs:2346-2365 | blank text has no data; other text that is no padded string is refused as malformed, or for its size |
| Base64.AttachmentRoundTrip | src/acp.rs:2346-2365 | a payload comes back however whitespace is mixed into its encoding, unless empty or too large |
| Base64.WhitespaceIsIgnored | src/acp.rs:2347-2358 | whitespace anywhere makes no difference |
| ToolCalls.Checkpoint.CloseOutstandingToolCalls | src/acp.rs:1013-1042 | closing in place appends the specified cancellations |
| ToolCalls.StableIdsDiffer | crates/shikigami-engine/src/model.rs:35-42 | calls at different places are shown under different ids, whatever ids the model gave |
| ToolCalls.ClosingAnswersTheBatch | src/acp.rs:1013-1042 | closing only appends, answers every call of the last batch and cancels exactly the unanswered ones |
| ToolCalls.ClosingIsIdempotent | src/acp.rs:1013-1042 | closing twice is closing once |
| ToolReplay.ConversationUpdates | src/acp.rs:1836-1907 | the replay in place computes the message-by-message specification |
| ToolReplay.ReplayShowsAll | src/acp.rs:1836-1907 | a replay shows every text that is not empty, every call and every answer of the conversation, in order and nothing else, and an answer as failed exactly when denied or cancelled |
| ToolReplay.TurnCountsAssistants | src/acp.rs:1836-1856 | the replay numbers turns by counting assistant messages, saturating |
| ToolReplay.ReplayCorrelates | src/acp.rs:1836-1907 | in a well-formed answered conversation every shown call has a later update under its id, also when raw ids repeat across turns |
| ToolReplay.CancelThenReplay | src/acp.rs:1013-1042 | cancelling with the right turn count makes every shown call answered |
| ToolReplay.OpenAfterClosing | src/acp.rs:1026-1035 | whatever came before the last batch, a call of it is still open for a replay exactly when it has no id, the counts differ, and it was not answered under the replay's number |
| ToolCompaction.ReplayCompleteExactly | src/acp.rs:1013-1042 | a history the run recorded, of which compaction dropped the first turns, is cancelled with the run's turn count; its replay answers every call it shows exactly when nothing was dropped or every call left has an id, no two calls of a batch share one, and every earlier batch was answered under its conversation ids before the next turn |
| ReplayGaps.CompactedReplayIncomplete | src/acp.rs:1836-1907 | a compacted history, its four updates, and the call among them that is never answered |
| ReplayGaps.RejectedReplayIncomplete | crates/shikigami-engine/src/run/tool_batch.rs:206-235 | a history with a rejected batch whose calls have no ids, nothing dropped, its six updates, and the calls among them that are never answered |
| ReplayGaps.StrayAnswerStandsIn | src/acp.rs:1881-1890 | why answers are taken to carry a conversation id or a raw id of their batch: under any other id one could stand in for the missing answer |
| ToolReplay.CancelUnderOwnNumbers | src/acp.rs:1026-1035 | for answers under the replay's own numbers, and any turn count in the checkpoint, the replay is complete exactly when no call is left open so |
| ContentCalls.FreshPartId | src/acp.rs:1117-1122 | a fresh part id is found within one try more than there are parts |
| ContentCalls.CloseContentOutstandingCalls | src/acp.rs:1079-1160 | the sidecar gets the same answers as the plain history, each with one part under an id tried for its own call; part ids stay distinct; nothing is saved exactly when a part of an open call cannot be stored |
| SessionMode.Host.SessionNew | src/acp.rs:290-323 | a new session in place |
| SessionMode.Host.SessionLoad | src/acp.rs:325-376 | a loaded session in place, other sessions untouched |
| SessionMode.Host.SessionPrompt | src/acp.rs:448-505 | the freeze under the session lock, and the mode the run uses |
| SessionMode.Host.SetRunId | src/acp.rs:875-882 | the run id in memory and file |
| SessionMode.ModeIsImmutable | src/acp.rs:448-505 | over every sequence of requests, failed writes and restarts every run uses one mode, unless a restart comes while the freeze was never written |
| SessionMode.WrittenFreezeIsSafe | src/acp.rs:482-486 | with every prompt's write successful no restart is such a one |
| SessionMode.NamedModeIsUsed | src/acp.rs:290-323 | a session made with a mode runs in that mode alone, whatever requests, failed writes and restarts come |
| SessionMode.AcceptedPromptRuns | src/acp.rs:448-505 | an accepted prompt runs in the frozen mode, or freezes the requested one, or without a request the one the session has |
| SessionMode.RunIdIsKept | src/acp.rs:875-882 | a run id is kept in memory, and over a restart when written, and changes nothing else |
| SessionMode.ExposedFreezeIsLost | src/acp.rs:339-358 | wherever the freeze is in memory only, a restart lets the next prompt choose any mode |
| SessionMode.FreezeLost | src/acp.rs:482-486 | a session with runs in two modes |
| SessionMode.RefusedModeChangesNothing | src/acp.rs:453-481 | a refused mode leaves the session as it was, and when it is refused |
| SessionMode.ReloadKeepsFreeze | src/acp.rs:67-71 | a session reloads frozen exactly when its file has a mode, a run id or the flag |
| Inventory.Take | crates/shikigami-engine/src/artifacts.rs:211-262 | within both limits, sorted, each file at most once, complete exactly when not truncated; and truncated exactly when the files, in the order the walk meets them, do not fit |
| Inventory.ListedExactly | crates/shikigami-engine/src/artifacts.rs:220-256 | the files to list are exactly the regular files that names lead to through directories other than `.git` and `.shikigami`, each under its path with its size and digest |
| Inventory.FitsByTotals | crates/shikigami-engine/src/artifacts.rs:240-248 | the walk meets every file once; they fit when they leave a byte to spare and do not when over a limit; only at the limit itself the order decides |
| Inventory.WalkDirectory | crates/shikigami-engine/src/artifacts.rs:220-258 | one directory is split into listed, pushed and left-out files, none lost or doubled |
| Sorting.SortSorts | crates/shikigami-engine/src/artifacts.rs:260 | sorting keeps every file and orders them by path |
| Inventory.PathsAreDistinct | crates/shikigami-engine/src/artifacts.rs:252-256 | for names of any bytes and any way of reading them as text: every file has a path of its own exactly when no two paths read as one text or as texts that differ in slashes against backslashes only |
| Inventory.TextPathsAreDistinct | crates/shikigami-engine/src/artifacts.rs:252-256 | when all names are UTF-8, exactly when no two paths differ in slashes against backslashes only |
| Inventory.PlainPathsAreDistinct | crates/shikigami-engine/src/artifacts.rs:252-256 | in particular when all names are UTF-8 and none holds a backslash |
| Inventory.BackslashesCollide | crates/shikigami-engine/src/artifacts.rs:252-256 | two files with one path, by a backslash |
| Inventory.LossyNamesCollide | crates/shikigami-engine/src/artifacts.rs:252 | two files with one path, by names that are not UTF-8 |
| ArtifactChanges.ChangesAreFaithful | crates/shikigami-engine/src/artifacts.rs:333-368 | the changes applied to before give after; paths strictly sorted; both digests right; empty exactly when nothing changed |
| ArtifactChanges.ChangesUndo | crates/shikigami-engine/src/artifacts.rs:333-368 | undoing the changes gives before back |
| ArtifactPatch.BoundedGitOutput | crates/shikigami-engine/src/artifacts.rs:483-525 | all of the output when it fits the limit, nothing otherwise |
| ArtifactPatch.AddedFilesExactly | crates/shikigami-engine/src/artifacts.rs:398-437 | the files whose diffs are added are, in strict order, those that are there, were changed, and that Git neither ignores nor knows |
| ArtifactPatch.CaptureGitDiff | crates/shikigami-engine/src/artifacts.rs:370-453 | a retained patch is the whole patch and within the bound, and is retained exactly when it fits and is not empty; an error of Git is one, a missing Git is none |
| ToolAuthority.Config.ApplySessionMode | crates/shikigami-engine/src/config.rs:1098-1138 | a mode applied in place narrows the effective tools, a refused one leaves them as they were, and the site profile stays satisfied |
| ToolAuthority.ApplyNarrows | crates/shikigami-engine/src/config.rs:1098-1138 | a mode with tools leaves exactly the common ones, never none; a refusal leaves the tools as they were |
| ToolAuthority.AcceptedExactlyWhen | crates/shikigami-engine/src/config.rs:1098-1138 | when a mode is accepted and why it is refused; its model, effort and prompt take effect where it has them |
| ToolAuthority.ModesOnlyNarrow | crates/shikigami-engine/src/config.rs:1098-1138 | any sequence of modes only narrows authority, in every permission mode |
| ToolAuthority.ReapplyChangesNothing | crates/shikigami-engine/src/config.rs:1098-1138 | applying a mode again changes nothing |
| ToolAuthority.SiteAgentStays | crates/shikigami-engine/src/config.rs:1483-1513 | a configuration that satisfies the site profile still does after any modes, requirement by requirement, and its tools are the gateway's, `report` and `escalate` |
| ToolAuthority.SiteAgentStep | crates/shikigami-engine/src/config.rs:1098-1138 | even a refused mode leaves the site profile satisfied |
| ToolAuthority.PresetSplits | crates/shikigami-engine/src/config.rs:525-546 | the preset splits into effective and excluded tools exactly outside custom mode or when nothing was narrowed |
| ToolAuthority.EffectiveExactly | crates/shikigami-engine/src/config.rs:474-524 | outside custom mode a tool is effective exactly when the mode permits it, observing in all, writing in all but `Read`, `bash` in `WorkspaceExec` alone, and the explicit list is empty or names it; nothing that mutates the workspace is effective under `Read` |
| ToolAuthority.ModesNest | crates/shikigami-engine/src/config.rs:490-524 | for one list `Read` permits no more than `Workspace`, and that is `WorkspaceExec` without `bash` |

## Left out

- Timers and waits are ideal and local computation takes no time; a crash between two file operations of one queue step is not modelled.
- DriveRun.DriveClaimedRun: watched for `rounds` rounds, because the loop need not end; the laws hold for every number of rounds.
- PlaneServe.RunUntilShutdown: watched for `polls` polls, for the same reason.
- ServeLoop.Server.RunUntilShutdown: watched for `polls` polls; what a claim answers and how a job ends are adversarial, the queue itself is proved apart.
- ClaimedRun.Execute: always with a worker lifecycle, which the source makes optional; job credentials, park reasons and mapping of claimed work are inputs.
- AgentTurn.ExecuteTurn: where a parked run's Action is looked for is an input.
- BackgroundRun.SingleFlightAndNoMissedCompletion: the run's task is assumed not to panic; a panic in the source leaves the phase running with no task.
- WorkerLifecycle: publishing snapshots, delayed evidence and the unhealthy flag.
- Request ids and UUIDs are fresh: counters, or names no file holds.
- FilesystemQueue.Queue.ClaimNext: one step here; the steps inside it are those of `IdleCache`. Names are Unicode strings, and temporary files are not shown.
- HttpRequest.ReadRequest: decoding UTF-8 is an input, a read that fails is not modelled, and sizes are unbounded.
- HttpRequest.RequestRoundTrip: for heads of ASCII characters.
- ContentCalls.CloseContentOutstandingCalls: with fewer than 2^32 parts and calls in memory, since the suffix of a part id stops counting there; provenance and times are not shown.
- ToolCompaction.ReplayCompleteExactly: for histories as the run writes them, in which a tool message carries a conversation id or a raw id of the batch before it, with the run's turn count in the checkpoint; how many turns compaction drops is an input.
- ToolReplay.ConversationUpdates: the updates' fields that do not depend on the conversation, and raw arguments as parsed JSON.
- SessionMode: cancel channels, content custody and the working directory of a session; the run id is set only from within prompts.
- Inventory.Take: digests are given with the files; paths are joined with slashes, and how bytes read as text is an input; errors while reading a directory end the source's inventory.
- ArtifactPatch.CaptureGitDiff: what Git answers is an input.
- ToolAuthority: the rest of configuration validation.
- Control routes, receipt artifacts, recovery classification and callbacks are decision tables or foreign calls.
