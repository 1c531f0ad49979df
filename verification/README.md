# Models of the MClaude session, relay and controller protocols

MClaude runs Claude CLI sessions for users on laptops and in clusters. Its hardest code is a set of
small machines: goroutines, selects, callbacks and retry loops that share a few fields. This project
models those machines in Dafny and proves what they keep over whole runs.

Each machine comes in two parts. A `*Spec` module holds its state as a value, its handlers as
transition functions, a `Next` that performs one scheduled step (a step that is not enabled changes
nothing, so every sequence of steps is a run), and the laws of every run. Beside it, a class with the
original's fields has one method per handler, each proved to make exactly the transition; for the
machines with a schedule its `Run` reaches the state the laws speak of. The laws are of three kinds:
what every run keeps; what a part of a run leads to; and, in the `*_outcome_laws` and `*_line_laws` files,
all that one event publishes and leaves, in terms of the state it finds and not of the handlers.

| files | machine |
|---|---|
| `quota_spec`, `quota_laws`, `quota_resume_laws`, `quota_exit_laws`, `quota_outcome_laws`, `quota_monitor` | the quota monitor's event loop, the part of the session it writes, and the stdout router that feeds it |
| `background_work_spec`, `background_line_laws`, `background_work` | counting background agents, two-phase tracking of background shells, killed notices at shutdown |
| `worktrees_spec`, `worktrees` | worktrees shared by sessions: create, join, delete, two-part and overlapping restarts |
| `session_recovery_spec`, `recovery_outcome_laws`, `session_recovery` | the "updating" hand-off between the old pod and the new one |
| `job_dispatcher_spec`, `job_pausing_laws`, `job_retry_laws`, `job_outcome_laws`, `job_dispatcher` | pausing by priority, requeueing, and the loop in which the dispatcher's own writes trigger it again |
| `relay_tunnels_spec`, `relay_reply_laws`, `relay_tunnels`, `relay_routing` | the tunnel multiplexer and its three naming schemes |
| `supervisor_spec`, `supervisor_outcome_laws`, `supervisor` | the restart loop and `stop` of a supervised process, under the controller's serial handlers |
| `agent_key_spec`, `agent_key_outcome_laws`, `agent_key` | registering an agent key with the control plane and storing its seed in a Secret |
| `shell_split`, `creds_file` | the quoting tokenizer, and the credentials-file reader and rewriter |
| `basics` | `Option`, and a fact about prefixes |

Some promises hold only under a condition. These are stated as an if-and-only-if with the condition on
one side (names ending in `Iff`), or with a lemma that builds the run or input that breaks the promise.

- A soft stop's token bound needs a headroom that is not negative (`SoftStopIsBoundedIff`).
- "Prompt once" and "no more nudges than pauses" hold if and only if the driver never reports the
  status "pending", respectively "paused" (`PromptSentOnceIff`, `NudgesPerPauseIff`); the code copies whatever status
  a state-changed event carries (`mclaude-session-agent/session.go:707-723`).
- All running jobs over threshold are paused, whatever order the sort gives equal priorities, if and
  only if every one of them has strictly lower priority than every job within its threshold
  (`PausesAllOverIff`); the comment at `mclaude-session-agent/daemon_jobs.go:646-658` says all are.
- A reconcile that registers a new key is safe from then on, in any order of delivery, if and only if no
  earlier request with another key is still in flight (`SeedMatchesRowIff`); with in-order delivery it
  always is (`SeedMatchesRow`).
- A session's worktree is always there if and only if no restart that puts a session back lost the worktree
  meanwhile (`HousedIffNoneIsRemovedMeanwhile`, `DeleteDuringRestartStrands`).
- A waiting request can be answered, other than by its timeout, if and only if its tunnel entry has not been
  drained (`CanBeAnsweredIff`, `LateRequestIsStranded`); a bound phone is reached if and only if no entry
  of its host was forgotten since (`FrameReachesItsPhoneIff`, `ForgetCutsTheNewerBinding`).
- A queued job refused for want of quota is never started by a later quota update
  (`RefusedJobIsNeverStarted`).
- The monitor's exit closes a closed channel if and only if `stop` was called before (`PanicsIff`).
- A session entry stays "updating" after recovery exactly when no recovered entry is written back to
  its key (`StaysUpdatingIff`): an entry without an ID, of another project ID, or filed under a
  key that its own slugs do not give.
- A rewritten credentials file reads back if and only if its first marker line is a BEGIN line
  (`ReadAfterWriteIff`).
- Prefixed session IDs route home if and only if the hostname has no `~` and no `/`
  (`RouteReturnsHomeIff`).
- `stop` can leave a live process unsignalled, and wait for it to end by itself, if and only if it read the
  command while the loop was past its stop check and not yet waiting for that command
  (`StopMissesIff`, `StopCanMissALateStart`).

Where code and comments disagree, the model follows the code. The comment on
`mclaude-session-agent/quota_monitor.go:198-200` says `onRawOutput` leaves the monitor's fields alone;
it reads and writes three of them. The comment on `mclaude-controller-local/supervisor.go:147-148` gives a
grace period of 30 seconds; the constant is 10, and the model lets the timer fire at any moment.

## Model

| member | source | states |
|---|---|---|
| `QuotaLaws.StopsMatchPauses` | mclaude-session-agent/quota_monitor.go:201-322 | In every run: soft stops sent = pauses published + 1 while a soft or hard stop is pending; interrupts attempted = hard pauses + 1 while a hard stop is pending; each pause, completion and failure event has its KV write |
| `QuotaLaws.BudgetInRun` | mclaude-session-agent/quota_monitor.go:201-240 | With headroom >= 0, a pending soft stop has counted fewer tokens than the headroom, outside soft and hard stops the count is 0, and estimates under-count the bytes by at most 3 a line (until a result line reports the real count) |
| `QuotaLaws.SoftStopIsBoundedIff` | mclaude-session-agent/quota_monitor.go:407-422 | The token bound of a soft stop holds in every run if and only if the headroom is not negative |
| `QuotaLaws.SoftStopByteBound` | mclaude-session-agent/quota_monitor.go:203-216 | While a soft stop is pending and no result line has come, n assistant lines since the mark total fewer than 4 * headroom + 3 * n bytes |
| `QuotaLaws.FailureIffNoResult` | mclaude-session-agent/quota_monitor.go:332-482 | Under every schedule, a monitor that leaves through `doneCh` publishes one failure if no result line was seen and none otherwise; a monitor that left otherwise, or still runs, has published none |
| `QuotaLaws.TurnEndsComeFromResults` | mclaude-session-agent/quota_monitor.go:235-320 | Completions, pauses and a queued turn end together never exceed the result lines: no turn end is handled twice |
| `QuotaLaws.SendsFollowALowReading` | mclaude-session-agent/quota_monitor.go:390-463 | Before every prompt and nudge, the newest quota reading carried data and was below the soft threshold |
| `QuotaLaws.PausesArePersisted` | mclaude-session-agent/quota_monitor.go:250-298 | Every pause event is followed by the KV write of a paused session that names the same tier |
| `QuotaLaws.PromptSentOnceIff` | mclaude-session-agent/quota_monitor.go:424-441 | For any set of reportable statuses, the initial prompt is sent at most once in every run if and only if "pending" is not reportable |
| `QuotaLaws.NudgesPerPauseIff` | mclaude-session-agent/quota_monitor.go:443-463 | For any set of reportable statuses, nudges (+ 1 while paused) never exceed pauses and a paused session names its tier in every run, if and only if "paused" is not reportable |
| `QuotaLaws.DriverStatesKeepBothLaws` | mclaude-session-agent/events.go:24-46 | A driver that reports only the driver states breaks neither law |
| `QuotaLaws.ReportReopensSending` | mclaude-session-agent/session.go:707-723 | After any run that left the monitor idle and no resume time set, a reported "pending" or "paused" and a low reading make it send a prompt or a nudge again |
| `QuotaLaws.TotalsAreExact` | mclaude-session-agent/quota_monitor.go:357-482 | The running totals the laws speak of are the sums over the history of published events |
| `QuotaResumeLaws.NudgesWaitForResetIff` | mclaude-session-agent/quota_monitor.go:443-463 | With `autoContinue`, every nudge follows a pause and comes no earlier than the reset time that pause announced, in every run, if and only if "paused" is not reportable |
| `QuotaResumeLaws.NudgeWaitsForReset` | mclaude-session-agent/quota_monitor.go:262-265 | The same for one nudge of a run, against the newest pause before it |
| `QuotaExitLaws.PanicsIff` | mclaude-session-agent/quota_monitor.go:469-480 | In every run, leaving closes a channel that is already closed, and panics, if and only if the monitor leaves through `doneCh` after `stop` was called |
| `QuotaExitLaws.ClosedIff` | mclaude-session-agent/quota_monitor.go:111-119 | The stop channel is closed exactly when `stop` was called or the monitor left through `doneCh` |
| `QuotaExitLaws.StopThenExitPanics` | mclaude-session-agent/agent.go:1132-1142 | A four-step run that does so: the session is stopped, then its process ends |
| `QuotaOutcomeLaws.PausedAtALowReading` | mclaude-session-agent/quota_monitor.go:443-463 | In every run, a paused session at a low reading is nudged exactly when any resume time it waits for has come; then the reading, the nudge and the write of a running session without tier and resume time are all that is published, otherwise the reading alone |
| `QuotaOutcomeLaws.PendingAtALowReading` | mclaude-session-agent/quota_monitor.go:424-441 | In every run, any low reading prompts a pending session, makes it run and writes that, and nothing else |
| `QuotaOutcomeLaws.HighReading` | mclaude-session-agent/quota_monitor.go:407-422 | In every run, a reading at or over the threshold soft-stops an unstopped session, marks its tokens, and without headroom tries the interrupt at once |
| `QuotaOutcomeLaws.NotedReading` | mclaude-session-agent/quota_monitor.go:390-405 | Every other reading is noted and changes nothing: without data, high during a stop, low in any other status |
| `QuotaOutcomeLaws.TurnEndOutcome` | mclaude-session-agent/quota_monitor.go:247-327 | A queued turn end, taken at either select, pauses with the pending tier and the reset time, completes, or after a denial publishes nothing; a pause ends its stop and its count |
| `QuotaOutcomeLaws.DenialOutcome` | mclaude-session-agent/quota_monitor.go:375-388 | A denied tool stops an unstopped session and names the tool; during another stop the signal is dropped |
| `QuotaOutcomeLaws.ExitOutcome` | mclaude-session-agent/quota_monitor.go:469-480 | An exit takes a queued turn end first and reports a failure only if no turn ever ended |
| `QuotaOutcomeLaws.TokensAreTallied` | mclaude-session-agent/quota_monitor.go:201-233 | In every run the count of a pending stop is what its lines spent since the mark, estimates replaced by each reported total, and the stop is hard exactly when the headroom is zero or some line brought the count to it |
| `QuotaOutcomeLaws.LineOutcome` | mclaude-session-agent/quota_monitor.go:201-242 | An output line publishes an interrupt exactly when it uses up the headroom of a soft stop, and queues a turn end exactly when it is a result |
| `QuotaOutcomeLaws.EffectOutcome` | mclaude-session-agent/session.go:671-785 | The router's second call sets the status, adds the usage, or signals the denied tool if none is signalled, and nothing else the monitor shares |
| `QuotaOutcomeLaws.NotReadyChangesNothing` | mclaude-session-agent/quota_monitor.go:357-482 | No select case, router call or drain happens before its channel and its goroutine allow it |
| `QuotaMonitoring.QuotaMonitor.OnRawOutput` | mclaude-session-agent/quota_monitor.go:201-242 | Token counting, escalation and the non-blocking turn-end signal of one output line are the specified transition, and nothing else changes |
| `QuotaMonitoring.QuotaMonitor.HandleTurnEnd` | mclaude-session-agent/quota_monitor.go:247-327 | Pause, completion or silence by stop reason, with session fields, KV write and reset, is the specified transition |
| `QuotaMonitoring.QuotaMonitor.HandleSubprocessExit` | mclaude-session-agent/quota_monitor.go:332-350 | A process exit publishes a failure unless a turn end was handled before |
| `QuotaMonitoring.QuotaMonitor.HandlePermDenied` | mclaude-session-agent/quota_monitor.go:375-388 | A denied tool stops the session only when no other stop is pending |
| `QuotaMonitoring.QuotaMonitor.InjectSoftStop` | mclaude-session-agent/quota_monitor.go:407-422 | The soft stop marks the current token total, and with zero headroom turns hard at once |
| `QuotaMonitoring.QuotaMonitor.HandleQuota` | mclaude-session-agent/quota_monitor.go:390-464 | A reading stops, prompts, nudges or is only noted, as the specified transition says |
| `QuotaMonitoring.QuotaMonitor.HandleSideEffect` | mclaude-session-agent/session.go:671-785 | What the router's second call does to the fields the monitor shares |
| `QuotaMonitoring.QuotaMonitor.SignalPermDenied` | mclaude-session-agent/quota_monitor.go:124-130 | The one-slot signal keeps the first denied tool |
| `QuotaMonitoring.QuotaMonitor.LeaveThroughDone` | mclaude-session-agent/quota_monitor.go:469-480 | A queued turn end is handled before the exit, then the stop channel is closed |
| `QuotaMonitoring.QuotaMonitor.Perform` | mclaude-session-agent/quota_monitor.go:357-482 | Every ready select case, router call and stop is the specified step |
| `QuotaMonitoring.QuotaMonitor.Run` | mclaude-session-agent/quota_monitor.go:357-482 | Under any schedule the event loop reaches exactly the state the laws speak of |
| `BackgroundWorkSpec.AgentsIsBestSuffix` | mclaude-session-agent/session.go:420-470 | The floored counter is the maximum over all suffixes of the trace, the empty one included, of agent starts minus task notifications |
| `BackgroundWorkSpec.AgentsIsNetIff` | mclaude-session-agent/session.go:420-470 | It equals plain starts minus notifications if and only if no prefix has more notifications than starts |
| `BackgroundWorkSpec.PendingExactly` | mclaude-session-agent/session.go:522-577 | A command is pending exactly when it was announced and neither announced again nor answered by a result since |
| `BackgroundWorkSpec.InFlightExactly` | mclaude-session-agent/session.go:489-600 | For any trace of events, the shells in flight are exactly the latest promotions that were not notified since, with the announced command and the reported task; an untagged notification is the event of the shell it ends |
| `BackgroundWorkSpec.InFlightWithDistinctIDs` | mclaude-session-agent/session.go:489-667 | With distinct announced IDs: in flight means announced, its first later result carries a background ID, and not notified since |
| `BackgroundWorkSpec.FiledAlways` | mclaude-session-agent/session.go:589-596 | Every in-flight shell is filed under its own tool-use ID |
| `BackgroundLineLaws.AnnouncedIff` | mclaude-session-agent/session.go:511-531 | The announcements of an assistant line are exactly its Bash calls with an ID that run in the background |
| `BackgroundLineLaws.ReportedIff` | mclaude-session-agent/session.go:565-584 | The reports of a user line are exactly its tool results, with the background ID they carry or none |
| `BackgroundLineLaws.EventsInBlockOrder` | mclaude-session-agent/session.go:511-598 | Events come in the order of their blocks |
| `BackgroundLineLaws.TraceIff` | mclaude-session-agent/session.go:337-350 | The trace of a run of lines announces exactly their background Bash calls, reports exactly their results, notifies every tagged shell, and none that no notification tags or mentions |
| `BackgroundLineLaws.UntaggedEndsOne` | mclaude-session-agent/session.go:635-666 | An untagged notification ends exactly one in-flight shell that its text mentions, or none if it mentions none |
| `BackgroundLineLaws.InFlightOnLines` | mclaude-session-agent/session.go:489-600 | A shell in flight was called in the background by some line, with its command, and some result line gave its task |
| `BackgroundLineLaws.AgentStartsAreCounted` | mclaude-session-agent/session.go:436-451 | A line adds the number of its Agent calls that run in the background |
| `BackgroundLineLaws.NetIsCallsMinusNotices` | mclaude-session-agent/session.go:420-470 | The net count is all background Agent calls minus all task notifications |
| `BackgroundLineLaws.DueIff` | mclaude-session-agent/agent.go:606-659 | A killed notice is due exactly for a shell in flight of a listed session that is still tracked |
| `BackgroundWork.Session.UpdateInFlightBackgroundAgents` | mclaude-session-agent/session.go:420-470 | The loop over content blocks adds each background agent start; a notification takes one off, never below zero |
| `BackgroundWork.Session.AnnounceShells` | mclaude-session-agent/session.go:497-531 | The announcing loop is the fold of the line's announcements |
| `BackgroundWork.Session.PromoteShells` | mclaude-session-agent/session.go:551-598 | The promoting loop is the fold of the line's results |
| `BackgroundWork.Session.RemoveShellByTaskNotification` | mclaude-session-agent/session.go:605-667 | A tagged notice is the event of its shell; an untagged one is the event of one in-flight shell whose ID occurs in the text, or of none if there is none |
| `BackgroundWork.Session.UpdateInFlightShells` | mclaude-session-agent/session.go:489-600 | One line changes the shell maps by events the line can mean in the state it finds; nothing changes when tracking is off |
| `BackgroundWork.Session.Route` | mclaude-session-agent/session.go:337-350 | Over a whole trace, tagged or not, the fields hold the specified counter and the shells of an event trace that the lines can mean; every pending and in-flight shell was called in the background by some line |
| `BackgroundWork.PublishShellKilledNotifications` | mclaude-session-agent/agent.go:606-659 | For distinct session IDs, each in-flight shell of each tracked session is noticed exactly once, and nothing else is |
| `WorktreesSpec.HousedInRun` | mclaude-session-agent/agent.go:876-901 | For every run, the worktrees of all tracked sessions exist at every point if and only if every restart that puts a session back finds its worktree |
| `WorktreesSpec.HousedStepIff` | mclaude-session-agent/agent.go:1825-1827 | For every step, it keeps each session housed if and only if it does not put back a session whose worktree is gone |
| `WorktreesSpec.TrackedIff` | mclaude-session-agent/agent.go:876-1142 | After any step a session is tracked as it was created or put back by it, or as before unless it was deleted; a create tracks only a new ID that adds its worktree or asked to join |
| `WorktreesSpec.UnderWayIff` | mclaude-session-agent/agent.go:1529-1592 | A restart is under way, with the state it took, from its beginning to its end |
| `WorktreesSpec.KeptIff` | mclaude-session-agent/agent.go:1161-1162 | A delete leaves exactly the worktrees of quota-managed sessions on schedule branches in place |
| `WorktreesSpec.HousedIffNoneIsRemovedMeanwhile` | mclaude-session-agent/agent.go:1118-1171 | For every run, the worktrees exist at every point if and only if no restart that puts its session back lost the worktree, between its beginning and its end, to the delete of a last user that no create made good |
| `WorktreesSpec.SurvivesIff` | mclaude-session-agent/agent.go:1147-1171 | Over any stretch of a run a worktree is still there if and only if every removal in it is followed by a create that adds it again |
| `WorktreesSpec.HousedWithWholeRestarts` | mclaude-session-agent/agent.go:1760-1834 | With each handler and each restart taken as one step, every tracked session's worktree exists at every point of every run |
| `WorktreesSpec.DeleteDuringRestartStrands` | mclaude-session-agent/agent.go:1790-1827 | A delete during a restart brings back a session whose worktree is gone |
| `Worktrees.Agent.WorktreeInUse` | mclaude-session-agent/agent.go:1900-1908 | True exactly when some tracked session has the slug |
| `Worktrees.Agent.HandleCreate` | mclaude-session-agent/agent.go:876-901 | Collision, join and failure branches make the specified change; a session that shares a worktree with a tracked one asked to join |
| `Worktrees.Agent.HandleDelete` | mclaude-session-agent/agent.go:1118-1171 | The session goes; its worktree goes with its last user, unless it is a quota-managed schedule branch; no worktree goes that a tracked session uses |
| `Worktrees.Agent.RestartBegin` | mclaude-session-agent/agent.go:1529-1548 | A restart takes the state the session has before the new process starts; it may overlap another of the same session |
| `Worktrees.Agent.RestartFinish` | mclaude-session-agent/agent.go:1581-1592 | A started process puts that state back under the same ID; a failed start changes no session |
| `Worktrees.Agent.Run` | mclaude-session-agent/agent.go:819-1602 | Under any schedule the object reaches the run of the laws; if no worktree was lost during a restart, each tracked session has its own |
| `SessionRecoverySpec.StaysUpdatingIff` | mclaude-session-agent/agent.go:227-320 | For any store with distinct recovered IDs, after recovering and clearing an entry is "updating" if and only if it was before and no recovered entry is written back to its key, whichever sessions failed to resume and whatever live sessions reported meanwhile |
| `SessionRecoverySpec.NothingStaysUpdating` | mclaude-session-agent/agent.go:440-476 | When recovered entries are under the keys their slugs give, none of them, and no new entry, is left "updating" |
| `SessionRecoverySpec.BannerStays` | mclaude-session-agent/agent.go:252-270 | Until clearing, an updating entry is untouched unless its own session reports a state |
| `SessionRecoverySpec.ClearingWrites` | mclaude-session-agent/agent.go:452-474 | Clearing writes to the keys of the pending entries and to no other |
| `RecoveryOutcomeLaws.MineIff` | mclaude-session-agent/agent.go:228-246 | The agent recovers exactly what is stored under its host and project slug, with its project ID and a session ID |
| `RecoveryOutcomeLaws.MissingSlugsFallBack` | mclaude-session-agent/agent.go:1618-1630 | Each slug a state lacks falls back by itself: to the agent's host, its project, the session's ID |
| `RecoveryOutcomeLaws.StoreAfterRecovery` | mclaude-session-agent/agent.go:248-270 | Recovery turns each of its entries under its own key to "restarting", but for the updating ones, and touches no other |
| `RecoveryOutcomeLaws.PendingAfterRecovery` | mclaude-session-agent/agent.go:258-264 | Pending are exactly the updating entries recovered so far |
| `RecoveryOutcomeLaws.TrackedAfterRecovery` | mclaude-session-agent/agent.go:294-303 | Tracked are exactly the recovered entries whose sessions started |
| `RecoveryOutcomeLaws.StoreAfterClearing` | mclaude-session-agent/agent.go:440-476 | After clearing, what was updating is idle and every other field of it is kept; nothing else has changed since recovery |
| `SessionRecovery.Agent.RecoverOne` | mclaude-session-agent/agent.go:242-300 | Skips foreign and empty-ID entries, keeps an updating entry pending instead of writing it, tracks the session only if it starts |
| `SessionRecovery.Agent.RecoverSessions` | mclaude-session-agent/agent.go:238-320 | The watcher loop is the run of these steps in the delivered order |
| `SessionRecovery.Agent.ClearUpdatingState` | mclaude-session-agent/agent.go:440-476 | The two passes write each pending ID exactly once, as idle, from the live state if there is one, and leave nothing pending |
| `JobPausingLaws.ToPauseIsAPrefix` | mclaude-session-agent/daemon_jobs.go:655-658 | The pausing loop takes the sorted jobs up to the first one within its threshold |
| `JobPausingLaws.PausedFromTheBottom` | mclaude-session-agent/daemon_jobs.go:645-687 | For any order of equal priorities, a paused job had reached its threshold and every running job of strictly lower priority is paused too |
| `JobPausingLaws.PausesAllOverIff` | mclaude-session-agent/daemon_jobs.go:645-687 | Exactly the jobs at or over threshold are paused, for every order of equal priorities, if and only if each of them has strictly lower priority than each job within its threshold |
| `JobPausingLaws.MonotoneThresholdsPauseAllOver` | mclaude-session-agent/daemon_jobs.go:645-687 | It holds when thresholds never decrease along the priorities |
| `JobPausingLaws.UnderInFrontStopsTheLoop` | mclaude-session-agent/daemon_jobs.go:655-658 | Otherwise some order leaves a job over threshold running |
| `JobPausingLaws.OrderWithFirst` | mclaude-session-agent/daemon_jobs.go:652-654 | An unstable sort may put either of two jobs first when the priorities allow it |
| `JobRetryLaws.TakeTriggerAdvances` | mclaude-session-agent/daemon_jobs.go:612-738 | One self-triggered pass keeps the invariant, never lowers a retry count, never touches a failed job, and lowers backlog plus work left |
| `JobRetryLaws.FeedbackQuiesces` | mclaude-session-agent/daemon_jobs.go:559-610 | With the quota unchanged and no other writer, every chain of self-triggered passes ends, within the backlog plus seven passes a job |
| `JobRetryLaws.RetriesAreBounded` | mclaude-session-agent/daemon_jobs.go:415-439 | Through any quota updates and triggers a retry count never exceeds 3, reaching 3 means failed, and a failed job stays as it is |
| `JobRetryLaws.ForgottenForGood` | mclaude-session-agent/daemon_jobs.go:604-607 | A queued job for which no dispatchable entry waits stays as it is through any quota updates and triggers |
| `JobRetryLaws.RefusedJobIsNeverStarted` | mclaude-session-agent/daemon_jobs.go:727-731 | A queued job whose entry is taken while the quota is over its threshold is never started afterwards, however the quota recovers |
| `JobOutcomeLaws.QuotaUpdateOutcome` | mclaude-session-agent/daemon_jobs.go:613-725 | A quota update pauses a running job exactly when it and every job before it in the sorted order are at or over threshold; when none is, it requeues exactly the paused jobs whose time has come; every other job stays as it is |
| `JobOutcomeLaws.OtherJobsAtATrigger` | mclaude-session-agent/daemon_jobs.go:612-738 | A trigger does just that to every job but its own |
| `JobOutcomeLaws.QuotaUpdateWrites` | mclaude-session-agent/daemon_jobs.go:652-721 | The writes of a pass come back as triggers, one for each such job: paused ones from the lowest priority up, requeued ones from the highest down |
| `JobOutcomeLaws.NoticesAreExact` | mclaude-session-agent/daemon_jobs.go:655-687 | Each job the pass pauses, and no other, is sent one stop message and then one lifecycle event |
| `JobOutcomeLaws.TriggerOutcome` | mclaude-session-agent/daemon_jobs.go:347-480 | A triggering job that is queued and below threshold, and only such a one, is started: each way that ends writes the entries the source writes, a third failed start marks it failed, and the last write is its entry |
| `JobOutcomeLaws.StartupOutcome` | mclaude-session-agent/daemon_jobs.go:483-535 | A daemon that starts requeues starting jobs, running ones whose session is gone and paused ones whose time has come, and replays every entry |
| `JobDispatcher.Daemon.PauseExceeded` | mclaude-session-agent/daemon_jobs.go:655-687 | The loop pauses the specified prefix, in order, and sends each paused job its stop message and its lifecycle event, and no other |
| `JobDispatcher.Daemon.RequeuePaused` | mclaude-session-agent/daemon_jobs.go:715-722 | The loop requeues the paused jobs whose resume time, if any, has come |
| `JobDispatcher.Daemon.DispatchQueuedJob` | mclaude-session-agent/daemon_jobs.go:347-480 | Each way a dispatch ends, failed KV writes included, makes the specified writes; the prompt is sent exactly when the session became idle |
| `JobDispatcher.Daemon.ProcessDispatch` | mclaude-session-agent/daemon_jobs.go:613-738 | One trigger pauses or requeues, sends the notices of what it pauses, then dispatches a changed queued job below its threshold |
| `JobDispatcher.Daemon.StartupRecovery` | mclaude-session-agent/daemon_jobs.go:483-535 | Every entry is reset as its status demands |
| `JobDispatcher.Daemon.Run` | mclaude-session-agent/daemon_jobs.go:599-609 | Through any rounds the object reaches the run of the laws, so its retry counts are bounded and its failed jobs stay |
| `RelayTunnelsSpec.EachRequestGetsAtMostItsOwnReply` | mclaude-relay/relay.go:773-810 | Under every interleaving a reply channel is sent at most one value, nothing is dropped, and a response carries the request's own ID and was read on its own entry |
| `RelayTunnelsSpec.WaitingRequestsAreOwned` | mclaude-relay/relay.go:294-308 | A waiting request with an empty channel is listed by its entry or in its reader's hand, so no reply to it was lost |
| `RelayTunnelsSpec.CanBeAnsweredIff` | mclaude-relay/relay.go:801-809 | In every reachable state, some steps other than its own timeout answer a waiting request if and only if its channel is full or its entry has not been drained |
| `RelayTunnelsSpec.LateRequestIsStranded` | mclaude-relay/relay.go:234-253 | A request sent on an entry that was torn down after the request fetched it can only time out |
| `RelayReplyLaws.NilMeansDrained` | mclaude-relay/relay.go:244-253 | In every run, only a request of a drained entry has a nil reply |
| `RelayReplyLaws.ResponseWasRead` | mclaude-relay/relay.go:294-308 | In every run, a request has a response only if one with its ID was read on its own entry while it was pending there |
| `RelayReplyLaws.ReadReplyArrives` | mclaude-relay/relay.go:801-803 | A pending request whose response is read and handed over receives that response |
| `RelayReplyLaws.TeardownAnswersNil` | mclaude-relay/relay.go:237-253 | A teardown gives nil to exactly the requests pending on its entry, and touches no other |
| `RelayReplyLaws.AbandonedGetsNothing` | mclaude-relay/relay.go:794-809 | A failed send or a timeout ends its own request with nothing and takes it off the entry |
| `RelayReplyLaws.RequestBegins` | mclaude-relay/relay.go:773-800 | A request starts under an ID no other has, with an empty channel, pending on the entry it fetched |
| `RelayTunnelsSpec.ListedExactly` | mclaude-relay/relay.go:198-241 | A host is listed exactly while the latest entry registered for it is not torn down, and then as that entry |
| `RelayTunnelsSpec.ReplacedEntriesAreClosed` | mclaude-relay/relay.go:199-204 | An entry replaced by a newer one was closed or torn down |
| `RelayTunnelsSpec.FrameReachesOnePhone` | mclaude-relay/relay.go:338-361 | In every run a tunnel frame matches at most one phone client |
| `RelayTunnelsSpec.FrameReachesItsPhoneIff` | mclaude-relay/relay.go:255-270 | A phone's own frame reaches it if and only if the phone was bound to the host at some step and has neither left nor seen an entry of that host forgotten since |
| `RelayTunnelsSpec.ForgetCutsTheNewerBinding` | mclaude-relay/relay.go:258-262 | The teardown of a replaced entry cuts a phone that was bound to the entry that replaced it |
| `RelayTunnels.RelayServer.RegisterTunnel` | mclaude-relay/relay.go:198-204 | Evicts the host's old connection and takes its place |
| `RelayTunnels.RelayServer.StartRequest` | mclaude-relay/relay.go:773-779 | A fresh ID and a one-slot channel are listed as pending |
| `RelayTunnels.RelayServer.AbandonRequest` | mclaude-relay/relay.go:794-809 | A failed send or a timeout removes the pending request and yields no response |
| `RelayTunnels.RelayServer.MatchResponse` | mclaude-relay/relay.go:295-302 | A response takes its pending request off the entry, once |
| `RelayTunnels.RelayServer.Deliver` | mclaude-relay/relay.go:303-308 | The non-blocking send of a matched response |
| `RelayTunnels.RelayServer.UnlistTunnel` | mclaude-relay/relay.go:237-241 | Teardown leaves the map to a newer entry of the host |
| `RelayTunnels.RelayServer.FailPending` | mclaude-relay/relay.go:244-253 | The loop offers nil to exactly the pending requests and empties the map |
| `RelayTunnels.RelayServer.ForgetTunnel` | mclaude-relay/relay.go:258-270 | No client keeps a tunnel-side ID for the host, and exactly the clients that had one are sent its close |
| `RelayTunnels.RelayServer.JoinClient` | mclaude-relay/relay.go:868-878 | A phone gets the next number and no tunnel-side IDs |
| `RelayTunnels.RelayServer.BindClient` | mclaude-relay/relay.go:903-908 | A phone's tunnel-side ID for a host is made of its number and the host |
| `RelayTunnels.RelayServer.Recipients` | mclaude-relay/relay.go:338-361 | The loops over clients and their tunnel-side IDs find exactly the clients that own the frame's ID on this host, in a reachable state never two |
| `RelayTunnels.RelayServer.Run` | mclaude-relay/relay.go:172-361 | Under any interleaving the tables are those of the laws: no channel is sent two values, and each host is listed as its latest live entry |
| `RelayRouting.ParseUndoesPrefixIff` | mclaude-relay/relay.go:423-434 | Parsing a prefixed ID gives back host and ID if and only if the host has no separator |
| `RelayRouting.RouteReturnsHomeIff` | mclaude-relay/relay.go:564-583 | A session path with a prefixed ID is routed to its own laptop with the original ID and tail if and only if the host has no `~` and no `/` |
| `RelayRouting.UnprefixedRoutesToDefault` | mclaude-relay/relay.go:429-434 | An ID without a prefix goes to the laptop called "default", under the same path |
| `RelayRouting.RoutedIff` | mclaude-relay/relay.go:564 | Session routing is for the paths under `/sessions/` and no others |
| `RelayRouting.TagSessions` | mclaude-relay/relay.go:691-697 | The loop prefixes and labels every session of the list in place |
| `RelayRouting.MergedIDsAreDistinct` | mclaude-relay/relay.go:691-708 | Two merged sessions with one ID come from one laptop and one original ID |
| `RelayRouting.TunnelWsIDIsInjective` | mclaude-relay/relay.go:868-904 | A tunnel-side ID determines the client number and the host, whatever characters the host has |
| `RelayRouting.TunnelWsIDIsMadeOf` | mclaude-relay/relay.go:868-904 | The tunnel-side ID is "ws-", the client's number in decimal, a dash and the host |
| `SupervisionSpec.AtMostOneProcessPerKey` | mclaude-controller-local/controller.go:195-297 | In every run two live processes of one user and project are the same process |
| `SupervisionSpec.AtMostOneStartAfterStop` | mclaude-controller-local/supervisor.go:60-98 | After the stop signal at most one more start succeeds |
| `SupervisionSpec.ExitedForGood` | mclaude-controller-local/supervisor.go:60-98 | A supervisor whose loop has returned never starts or runs a process again, whatever follows |
| `SupervisionSpec.NothingAfterStopReturned` | mclaude-controller-local/supervisor.go:149-182 | Once `stop` has returned, the child has no live process and never gets one |
| `SupervisionSpec.NoProcessOfAnAbsentKey` | mclaude-controller-local/controller.go:369-399 | When the controller is between messages, a key off the child map has no live process |
| `SupervisionSpec.StopCanMissALateStart` | mclaude-controller-local/supervisor.go:158-181 | A run in which `stop` waits for a live process it neither signalled nor killed |
| `SupervisionSpec.StopMissesIff` | mclaude-controller-local/supervisor.go:158-181 | In every reachable state where `stop` has read the command, some continuation leaves a live process unsignalled if and only if the loop is past its stop check but has not started its process, or waits for a live process of another command |
| `SupervisionSpec.StopSignalsTheProcess` | mclaude-controller-local/supervisor.go:163-164 | While no start has succeeded since the stop signal, `stop` has signalled whatever process is alive once it has acted |
| `SupervisionSpec.ExitedOnlyWhenStopped` | mclaude-controller-local/supervisor.go:63-97 | In every run the loop returns only after a stop signal |
| `SupervisionSpec.CrashIsRestarted` | mclaude-controller-local/supervisor.go:80-97 | From every reachable child whose process died without a stop signal, steps of the loop alone reach a new live process, numbered one higher |
| `SupervisionOutcomeLaws.LoopOutcome` | mclaude-controller-local/supervisor.go:60-98 | In every run each piece of the loop leaves, stays, starts what it built, or goes on, and the command in hand is set from its building to its clearing |
| `SupervisionOutcomeLaws.StopOutcome` | mclaude-controller-local/supervisor.go:149-182 | In every run each piece of `stop` closes the signal, reads the command in hand, interrupts it only if it was started, kills only after the grace period, and returns only after the loop |
| `SupervisionOutcomeLaws.KilledWereSignalled` | mclaude-controller-local/supervisor.go:163-176 | Only processes that were interrupted are killed |
| `SupervisionOutcomeLaws.StopCanReturn` | mclaude-controller-local/supervisor.go:163-181 | From every reachable child whose `stop` was called, it can still return, once the processes die |
| `SupervisionOutcomeLaws.CreateOutcome` | mclaude-controller-local/controller.go:195-278 | A create adds a child exactly when its preparations succeed and the key has none; which reply it gets |
| `SupervisionOutcomeLaws.DeleteOutcome` | mclaude-controller-local/controller.go:369-383 | In every run a delete takes the key's child, whose `stop` was not called before, off the map and begins its stop |
| `Supervision.SupervisedChild.RunStep` | mclaude-controller-local/supervisor.go:60-98 | Each atomic piece of the restart loop is the specified step |
| `Supervision.SupervisedChild.StopStep` | mclaude-controller-local/supervisor.go:149-182 | Each atomic piece of `stop` is the specified step |
| `Supervision.Controller.HandleCreate` | mclaude-controller-local/controller.go:237-278 | The preparations fail in the source's order with its replies; a new child is supervised only when the key has none |
| `Supervision.Controller.HandleDelete` | mclaude-controller-local/controller.go:373-383 | The child leaves the map before its `stop` begins |
| `Supervision.Controller.Run` | mclaude-controller-local/controller.go:137-188 | Under any schedule the objects reach the run of the laws: two live processes of one key are one process |
| `AgentKeySpec.RegisterIsExact` | mclaude-control-plane/lifecycle.go:156-232 | Registration is accepted exactly for an entitled caller and a working database, then sets that caller's row and no other; otherwise nothing changes |
| `AgentKeySpec.SeedMatchesRowIff` | mclaude-controller-k8s/reconciler.go:510-579 | From every reachable state, with deliveries in any order, a reconcile that registers a new key keeps Secret and row agreed through everything but a further reconcile if and only if no earlier request with another key is in flight for a project whose user exists |
| `AgentKeySpec.CalmSendsStayAgreed` | mclaude-controller-k8s/reconciler.go:510-615 | In every run whose registrations were each sent with no such request in flight, in whatever order they land, Secret and row agree |
| `AgentKeySpec.SeedMatchesRow` | mclaude-controller-k8s/reconciler.go:510-579 | With in-order delivery and any losses, rejections and failed writes, from any start in which they agree, a stored seed's public key is always the registered one |
| `AgentKeySpec.RetryAfterTimeout` | mclaude-controller-k8s/reconciler.go:597-600 | After a timeout a retry's request can be under way beside the first |
| `AgentKeySpec.OvertakenRequestBreaksIt` | mclaude-control-plane/db.go:524-533 | A first request overtaken by its retry replaces the stored key's row when it lands |
| `AgentKeySpec.SkippedRegistrationBreaksIt` | mclaude-controller-k8s/reconciler.go:542-548 | Without a connection, which the running service always has, a seed is stored that was never registered |
| `AgentKeyOutcomeLaws.UndisturbedStores` | mclaude-controller-k8s/reconciler.go:510-579 | From every reachable state, a reconcile of an assigned project whose request arrives ends with its seed stored and its key registered |
| `AgentKeyOutcomeLaws.SeedIsKept` | mclaude-controller-k8s/reconciler.go:519-522 | In every run a stored seed stays until someone else removes it |
| `AgentKeyOutcomeLaws.WriteOutcome` | mclaude-controller-k8s/reconciler.go:550-576 | The seed is stored exactly when the write succeeds and the Secret is still there, or still not there, as it was read |
| `AgentKey.ControlPlane.HandleAgentRegister` | mclaude-control-plane/lifecycle.go:156-232 | The checks in order, then the upsert, are the specified registration |
| `AgentKey.Reconciler.BeginReconcile` | mclaude-controller-k8s/reconciler.go:510-548 | A stored seed ends the reconcile; otherwise a new key's registration is sent |
| `AgentKey.Reconciler.Deliver` | mclaude-control-plane/lifecycle.go:156-232 | A delivered request is answered once by the control plane |
| `AgentKey.Reconciler.TakeReply` | mclaude-controller-k8s/reconciler.go:597-609 | Any reply but success ends the reconcile |
| `AgentKey.Reconciler.WriteSecret` | mclaude-controller-k8s/reconciler.go:550-576 | A create that finds a Secret is ignored; an update needs one |
| `AgentKey.Reconciler.Run` | mclaude-controller-k8s/reconciler.go:510-615 | Under any schedule the object reaches the run of the laws; if its registrations were sent calmly, Secret and row agree at its end |
| `ShellWords.SplitFailsIffQuoteIsOpen` | mclaude-session-agent/shell_split.go:17-84 | The tokenizer fails exactly on inputs that end inside a quote |
| `ShellWords.SplitAtBlank` | mclaude-session-agent/shell_split.go:27-34 | After a prefix that splits, a blank lets the rest be split on its own, failure included |
| `ShellWords.WrittenTokenIsRead` | mclaude-session-agent/shell_split.go:36-75 | A token put together from bare, single-quoted, escaped and verbatim double-quoted pieces, each where its style suits it, is read back as one |
| `ShellWords.WrittenListIsRead` | mclaude-session-agent/shell_split.go:17-84 | Any list of such tokens, empty ones included, set apart by any blanks and with any around it, is read back |
| `ShellWords.ShellSplit` | mclaude-session-agent/shell_split.go:17-84 | The nested index loops compute the specified split |
| `CredsFile.ReadAfterWriteIff` | mclaude-session-agent/daemon.go:322-343 | Reading after writing a clean token gives the token, trimmed, if and only if the first marker line is BEGIN |
| `CredsFile.WriteOnlyChangesBlocks` | mclaude-session-agent/daemon.go:365-395 | Every line outside the blocks survives in order, and each block holds the token alone |
| `CredsFile.WriteTwice` | mclaude-session-agent/daemon.go:365-395 | Writing a then b is writing b |
| `CredsFile.ReadIff` | mclaude-session-agent/daemon.go:327-342 | Reading gives the first line of content after the first BEGIN line, trimmed, blank lines skipped, if no END line comes first, and nothing otherwise |
| `CredsFile.MarkersIff` | mclaude-session-agent/daemon.go:330-337 | The marker lines; one that holds both markers begins a block |
| `CredsFile.TrimIsExact` | mclaude-session-agent/daemon.go:330 | Trimming takes off all the space around a line and nothing else |
| `CredsFile.LinesOfJoin` | mclaude-session-agent/daemon.go:371-394 | Splitting at newlines undoes joining |
| `CredsFile.ReadJWTFromCredsFile` | mclaude-session-agent/daemon.go:322-343 | The reading loop is the specified read; an unreadable file gives no token |
| `CredsFile.WriteJWTToCredsFile` | mclaude-session-agent/daemon.go:365-395 | The rewriting loop is the specified rewrite; an unreadable file gives no file |

## Left out

Behaviour below the models' granularity:

- Unlocked sharing: `onRawOutput` runs on the router goroutine and shares fields with the monitor goroutine without a lock; each call is one atomic step here.
- Machine integers: token counts and request counters are unbounded; wrap-around after 2^63 tokens or 2^64 requests is not modelled.
- Characters: `shellSplit` and the credentials loops work on bytes; the models work on characters, which makes no difference to their ASCII delimiters.
- Timers and clocks: grace periods, delays, timeouts and poll deadlines fire at any moment; `StateSince` and `StartedAt` stamps are dropped.
- Termination of the supervisor's `stop` is not claimed beyond `SupervisionOutcomeLaws.StopCanReturn`; it waits for a process that may ignore its signals, or that it never signalled.

Contracts with a condition or a gap:

- QuotaLaws.DriverStatesKeepBothLaws: a driver state outside the two constant blocks of `events.go` is allowed as long as it is none of the agent's lifecycle states.
- QuotaMonitoring.QuotaMonitor.HandleSideEffect: only the fields the monitor shares; auto-approve replies, pending controls and KV flushes are dropped.
- BackgroundWork.PublishShellKilledNotifications: attempts are logged; a publish that fails is only logged by the original and is not retried.
- SessionRecoverySpec.StaysUpdatingIff: takes KV writes to succeed and recovered IDs to be distinct; of two recovered entries with one ID only the later one is kept pending.
- JobRetryLaws.FeedbackQuiesces: speaks of the dispatcher's own writes; the lifecycle subscriber and the jobs HTTP API also write entries.
- JobDispatcher.Daemon.DispatchQueuedJob: the prompt's text and the branch it names are dropped.
- JobDispatcher.Daemon.PauseExceeded: takes its KV writes to succeed, and the bucket watch before it; the contents of the notices are dropped.
- WorktreesSpec.HousedInRun: a worktree left behind by a failed create is allowed, as in the original; nothing cleans it up.
- AgentKeySpec.SeedMatchesRowIff: the reconciler is taken to have its connection, as the service ensures before it starts (`mclaude-controller-k8s/main.go:134-145`).
- AgentKeySpec.SeedMatchesRow: takes Secret reads to be up to date, one reconciler for the project, and key generation to be injective; deregistration and revocation, which delete rows, are not steps.
- SupervisionSpec.NoProcessOfAnAbsentKey: the controller's own shutdown, which stops children beside a running handler, only appears as closing a stop channel.
- Supervision.Controller.HandleCreate: waiting for the key file and registering the key, which change no reply and no child, are dropped.

Not modelled:

- KV flushes of a session's own router in `handleSideEffect`, and the drain predicate of graceful shutdown.
- Publishing `session_permission_denied`; PTY frames, session refresh broadcasts, user access filters and header handling in the relay.
- The task directory's path formula, which is one argument `dir`, and the regular expressions that find IDs in text, which are part of the parsed lines.
- JSON, base64 and YAML parsing, HTTP handlers, SQL, NATS and Kubernetes clients, JWT and NKey cryptography, metrics and tracing.
- The CLI, the web app, the MCP server, Helm charts, and slug, retry and admin helpers: easy members that would add little.
