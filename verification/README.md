# Verification of the gateway, the host agent and the server workflows

This project models, in Dafny 4.11, the parts of the repository whose correctness depends on
interleavings, repetition or unbounded input, and proves what they promise. `dafny verify
dfyconfig.toml` checks all of it.

The code that works by changing state step by step is modelled in that form: a class with the
source's fields, whose methods keep the source's loops, branches and order of effects. Each such
method is proved against a specification function on values, and the promises are proved about those
functions, over every input or every run.

## The parts

**Secrets** (`Scrub`, `ScrubLaws`, `Redactor`, `RedactorBatch`). The scrub loop is proved equal to a
reference definition of leftmost non-overlapping replacement, for all secrets. Two promises are made of
the streaming window, and each has its exact boundary. Both hold for every secret without a star.

- No secret is shown, except across a flush. For a set this holds if its secrets are *star-safe*: none
  starts or ends with `*` or contains the eight-star replacement. For any other secret it is false, since
  a replacement next to a piece of it can rebuild it (`HiddenIffStarSafe`, `StreamHidesIffStarSafe`).
- However the input is cut, what is shown is the scrub of the whole input. For one secret this holds
  exactly if the secret does not start with `*` and has no eight stars before its last byte, or is itself
  just eight stars (`StreamIsBatchIff`). So a secret that ends with a few stars is treated alike however
  the input is cut, and yet some input shows it.

**Terminal sessions** (`SessionModel`, `SessionInvariant`, `SessionSteps`, `SessionRuns`,
`SessionTraces`, `SessionOutput`, `SessionFrames`, `SessionReports`, `SessionOutcomes`,
`TerminalSession`). Every `await` ends a step, and the place where a suspended function goes on is part
of the state. The environment may do anything in between: close the browser, kill, answer or lose an API
call, close SSH, shut down, fire a due timer. All results are about all reachable states of all runs.
What a session scrubs, types, shows, tells, reports and records is stated against the history of its
inputs. One promise needs a condition: a byte passes after the grant's current expiry exactly when the
shell opened after the expiry, or the expiry that the API answered last was already over
(`ByteIsLateIff`). The grant is checked when the API answers and not again when the shell opens
(`ASlowShellGetsAByteThrough`), and an end timer for a past moment fires only after what is already
queued in that millisecond (`ALateByteGetsThrough`).

**Gateway registry** (`GatewayModel`, `Gateway`, `GatewayWitness`). Any number of sessions, with the
session protocol above inside each. When the newest holder of an id has finished while an older one with
the same id is still open, a kill for that id reaches nobody (`AKillReachesNobody`);
`KillReachesLatestHolder` states both cases.

**Host agent jobs** (`JobTableModel`, `JobHandlers`, `JobTable`). Any number of handlers on one job
table, with the critical sections of the mutex as steps.

**Creating a server** (`CreateModel`, `CreateRuns`, `CreateTags`, `CreateHistory`, `CreateWitnesses`,
`Workflows`). The workflow, its activities on the database row, the requests in flight, the agent's
handlers and table from the previous part, each `create` execution, and the tagged VMs. Requests and
replies are lost and attempts repeated without bound; rollbacks may race a create, find nothing or fail
to delete. In all of it at most one VM carries the tag, but for those whose deletion by their own create
was refused, an error that `create` ignores (`ARefusedDeletionLeavesTwo`). Two carry it at once exactly
if a create tags one while another such VM was since neither deleted nor created anew
(`NeverTwoVmsIff`). What a failed run leaves is stated exactly: no tagged VM if and only if every VM
that the rollback missed, and every VM that a create tagged after it, was deleted by its create
(`FailedRunLeavesNoVmIff`); a rollback that starts while a create is under way can leave one
(`ARollbackDuringACreateLeaks`). Requests are assumed to arrive while results are kept. If `placeServer`
took effect but no attempt was reported as completed, `placed` is still false, the rollback is skipped,
and the host and its capacity stay held (`ALostPlacementStaysHeld`). `Workflows` has the workflow and
its activities as the loops and branches they are; every effect in it is a step of the protocol. A run
that succeeds has carried out its ten activities one after the other, and no server is metered before
its VM was up and its firewall applied (`SuccessCarriesOutEverything`, `NoMeterBeforeBoot`).

**Capacity** (`Capacity`, `Fleet`). Conservation of each host's counters over place, resize and release,
and the scheduler's choice of a host.

**Firewall and disks** (`Hypervisor`, `Firewall`, `FirewallMeaning`, `FirewallAgent`, `Disks`). The
hypervisor answers as the repository's simulator does; a script, which can be any, says for each call
whether it works, is refused, takes effect without its answer arriving, or never arrives. The state
after every call is recorded, so that safety is stated between every two calls, and the hindered calls
are counted, so that each method says exactly when it succeeds. `SetFirewall` does not look at the
status of a rule's deletion, so the rules are exactly the wanted ones if and only if no deletion was
refused. What forms mean is defined apart from how they are made, packet by packet; then an inbound
packet passes if and only if an inbound rule of the group lists it, while outbound packets always pass,
since their policy is to accept (`GroupIsEnforced`). If no call is hindered, `SyncIPSet` fails exactly
if an address is listed twice and not yet in the set. `AttachDisk` recognizes a volume by substring, so
a volume that sits nowhere yet gets a slot exactly if no other entry mentions its name
(`AttachSeatsIff`, `ReattachVolumes`, `AShorterNameGetsNoSlot`).

**Simulated clusters** (`ChainLock`, `PgCluster`, `KubeJoin`). The promise-chain lock under any arrivals
and failures, the PostgreSQL election and failover, and the Kubernetes join.

**Codecs and accumulators** (`SshWire`, `StepStream`, `StepWire`, `Bandwidth`, `HostKeys`). SSH strings
(section 5 of RFC 4251), the public key request (section 7 of RFC 4252), the event stream of the
console, the bandwidth meter, and host key pins.

## Model

| member | source | states |
|---|---|---|
| Scrub.IndexOf | services/prgd-gateway/src/secrets.ts:34-37 | finds the least occurrence at or after a position, or says that there is none |
| Scrub.ScrubIsRedact | services/prgd-gateway/src/secrets.ts:32-41 | the search-and-splice loop that restarts behind each replacement equals leftmost non-overlapping replacement, for every input and every secret, stars included |
| ScrubLaws.RedactFree | services/prgd-gateway/src/secrets.ts:32-41 | replacing one secret never creates an occurrence of a star-safe one that was absent |
| ScrubLaws.ScrubAllCleans | services/prgd-gateway/src/secrets.ts:32-41 | after scrubbing, no star-safe secret of the set occurs, in whatever order they are replaced |
| ScrubLaws.HiddenIffStarSafe | services/prgd-gateway/src/secrets.ts:14-41 | a secret is hidden in every input if and only if it neither starts nor ends with a star nor contains eight stars |
| ScrubLaws.RedactTwice | services/prgd-gateway/src/secrets.ts:44-50 | scrubbing a scrubbed prefix together with new bytes equals scrubbing everything at once |
| Redactor.Redactor.constructor | services/prgd-gateway/src/secrets.ts:23-26 | keeps exactly the values of at least four bytes |
| Redactor.Redactor.Scrub | services/prgd-gateway/src/secrets.ts:32-41 | the nested loops terminate for all secrets and compute the scrub of the input |
| Redactor.Redactor.Push | services/prgd-gateway/src/secrets.ts:44-50 | shows and holds exactly what the stream specification says |
| Redactor.Redactor.Flush | services/prgd-gateway/src/secrets.ts:53-57 | releases the held bytes and holds nothing |
| RedactorStream.StreamKeepsInv | services/prgd-gateway/src/secrets.ts:43-57 | after any pushes and flushes the bytes shown and held contain no secret except across a flush, and no partial secret is shown early |
| RedactorStream.SecretsShowOnlyAcrossFlushes | services/prgd-gateway/src/secrets.ts:43-57 | for any set of star-safe secrets and any interleaving of push and flush, every occurrence in the output straddles a flush |
| RedactorStream.UnflushedRunShowsNoSecret | services/prgd-gateway/src/secrets.ts:43-57 | without a flush in between no secret is shown, the final release included |
| RedactorBatch.StreamIsBatch | services/prgd-gateway/src/secrets.ts:44-50 | for one secret that no wall of eight stars begins or runs through, and any chunking, shown plus held is the scrub of the whole input, even when replacements shrink the held tail |
| RedactorBatch.ChunkingIsInvisible | services/prgd-gateway/src/secrets.ts:43-57 | for such a secret, pushes followed by a flush show the scrub of the whole input, however it was cut |
| RedactorBatch.StreamIsBatchIff | services/prgd-gateway/src/secrets.ts:18-57 | for one secret, every way of cutting every input shows the scrub of the whole if and only if the secret does not start with a star and has no eight stars before its last byte, or is just eight stars |
| RedactorBatch.StreamHidesIffStarSafe | services/prgd-gateway/src/secrets.ts:18-57 | no chunking of any input shows the secret if and only if it is star-safe |
| SessionSteps.InitInv | services/prgd-gateway/src/session.ts:78-91 | a new session satisfies the session invariant |
| SessionSteps.StepInv | services/prgd-gateway/src/session.ts:82-499 | every handler, continuation and timer keeps the session invariant (control state, event log, timers, frames, redactor, asset) |
| SessionRuns.RunInv | services/prgd-gateway/src/session.ts:82-499 | the invariant holds at every moment of every run, for all interleavings |
| SessionRuns.StepForward | services/prgd-gateway/src/session.ts:387-435 | one step moves the state only forward and fixes id, end reason and event history for good |
| SessionRuns.RunForward | services/prgd-gateway/src/session.ts:50-54 | over any stretch of a run the state only moves forward; id and end reason, once set, stay; frames and events only grow |
| SessionRuns.FinishedOnceReportedOnce | services/prgd-gateway/src/session.ts:340-435 | onFinished is called exactly once when the session closes; an identified session issues exactly one ended event, after everything else and followed only by the recording's outcome; an unidentified one issues none |
| SessionRuns.FramesInOrder | services/prgd-gateway/src/session.ts:466-480 | at most one ready, no output before it, at most one closed and nothing after it; the browser received exactly what the redactor released while the socket was open |
| SessionRuns.BrowserSeesNoSecret | services/prgd-gateway/src/session.ts:254-289 | in what the browser received, a star-safe secret appears only across a flush |
| SessionTraces.ScrubsWhatWasDelivered | services/prgd-gateway/src/session.ts:177-195 | once the requests for secrets are answered, the redactor has exactly the values of at least four bytes that the API delivered in any answer |
| SessionTraces.PastFromLastAnswer | services/prgd-gateway/src/session.ts:177-195 | from the last answer on that is so at every later moment |
| SessionTraces.BrowserSeesNothingDelivered | services/prgd-gateway/src/session.ts:177-289 | no star-safe value that the API delivered appears in what the browser received, except across a flush |
| SessionTraces.ShellGetsLiveInput | services/prgd-gateway/src/session.ts:124-131 | the shell received exactly the input frames that arrived while live, whole and in order, and the stored password where it was injected |
| SessionOutput.OutputIsRelayed | services/prgd-gateway/src/session.ts:253-279 | the redactor was given exactly the chunks that arrived while live, in order, and flushed exactly when its timer fired and when the session ended |
| SessionOutput.EndLosesNothing | services/prgd-gateway/src/session.ts:387-398 | what the redactor still holds when a live session ends is released in that step |
| SessionReports.HeldOutputIsDue | services/prgd-gateway/src/session.ts:264-280 | output that a live session holds back is due for release within 40 ms |
| SessionFrames.BrowserIsToldExactly | services/prgd-gateway/src/session.ts:466-480 | output apart, the browser receives exactly what the inputs call for (ready with the expiry, pong for ping, notices, closed), in order and nothing else, while its socket is open |
| SessionReports.EndReasonIsFirst | services/prgd-gateway/src/session.ts:387-397 | the end reason is that of the first input that ends the session, with the reason the source gives each of them |
| SessionReports.LiveIsInContact | services/prgd-gateway/src/session.ts:344-358 | a session is live only while fewer than three heartbeats or start reports in a row were lost since the last answer |
| SessionReports.ExpiryIsLearned | services/prgd-gateway/src/session.ts:174-175 | the current expiry is the one the API told the session last, with the grant or with an answered event |
| SessionReports.ArmingSetsNotices | services/prgd-gateway/src/session.ts:311-323 | arming sets a notice for each configured lead time still ahead and no other, and one end, at the expiry or after about 24.8 days |
| SessionOutcomes.LiveReportsBeats | services/prgd-gateway/src/session.ts:256-265 | a live session has reported that it started and then one heartbeat per interval, and nothing before |
| SessionOutcomes.LiveIsRecorded | services/prgd-gateway/src/session.ts:235-243 | a live session records if and only if the API asked for it with the grant |
| SessionOutcomes.RecorderStays | services/prgd-gateway/src/session.ts:235-243 | the recorder stays with a session from the moment it is live |
| SessionOutcomes.RecordingIsAccountedFor | services/prgd-gateway/src/session.ts:437-462 | a finished session's recording is reported stored if and only if an upload succeeded, after at most three failures, and failed if and only if four tries failed; otherwise the file could not be closed |
| SessionRuns.LiveIsGuarded | services/prgd-gateway/src/session.ts:311-323 | a live session has exactly one end timer, for the current expiry capped at 2^31-1 ms, not overdue, and fewer than three lost events in a row |
| SessionRuns.NoRelayAfterExpiry | services/prgd-gateway/src/session.ts:311-323 | bytes pass only while live; before the current expiry exactly when the end timer was armed before it, and otherwise only in the millisecond of the arming |
| SessionRuns.LiveStep | services/prgd-gateway/src/session.ts:311-323 | the end timer is armed exactly when the shell opens or a live session is answered another expiry, for that expiry, and is left alone by every other step |
| SessionRuns.ByteIsLateIff | services/prgd-gateway/src/session.ts:174-251 | a byte passes after the current expiry if and only if the shell opened after the expiry or the expiry answered last was already over; a session whose shell opens in time and that is never answered a past expiry passes nothing late |
| SessionRuns.ALateByteGetsThrough | services/prgd-gateway/src/session.ts:364-382 | a run in which a byte passes after the API answered an expiry that is already over |
| SessionRuns.ASlowShellGetsAByteThrough | services/prgd-gateway/src/session.ts:175-251 | a run in which a byte passes because the shell opened after an expiry that was learned in time |
| SessionRuns.ClosingIsNeverStuck | services/prgd-gateway/src/session.ts:387-462 | a closing session always waits for something that can complete |
| SessionRuns.CompletionsConverge | services/prgd-gateway/src/session.ts:415-462 | each completion brings a closing session closer to closed and nothing sets it back |
| SessionRuns.ClosingFinishes | services/prgd-gateway/src/session.ts:387-435 | however other inputs interleave, a closing session is closed after a bounded number of completions, so done resolves |
| SessionRuns.ClosedHoldsNothing | services/prgd-gateway/src/session.ts:387-435 | a closed session has no timer armed, no open SSH client and no data listener |
| TerminalSessions.TerminalSession.constructor | services/prgd-gateway/src/session.ts:78-91 | creates the specified initial state |
| TerminalSessions.TerminalSession.Relay | services/prgd-gateway/src/session.ts:254-262 | pushes or flushes the redactor object and emits exactly what it returns |
| TerminalSessions.TerminalSession.ScheduleExpiry | services/prgd-gateway/src/session.ts:311-323 | the loop over the notice times arms exactly the specified notices and one end timer |
| TerminalSessions.TerminalSession.End | services/prgd-gateway/src/session.ts:387-413 | takes the specified step: ends once, tells browser and asset, then finishes unless the check is in flight |
| TerminalSessions.TerminalSession.Finish | services/prgd-gateway/src/session.ts:415-435 | takes the specified step: reports the error, then the end, or closes at once |
| TerminalSessions.TerminalSession.Refuse | services/prgd-gateway/src/session.ts:483-492 | takes the specified step: an unidentified session is closed without a report |
| TerminalSessions.TerminalSession.OnMessage | services/prgd-gateway/src/session.ts:100-151 | takes the specified step for every client frame in every state |
| TerminalSessions.TerminalSession.OnCheck | services/prgd-gateway/src/session.ts:155-175 | takes the specified step when the API answers the session check, early or late |
| TerminalSessions.TerminalSession.OnSecret | services/prgd-gateway/src/session.ts:177-195 | takes the specified step when one secret reference is answered or fails: its values join the earlier ones, and after the last one the redactor has all of at least four bytes |
| TerminalSessions.TerminalSession.OnSsh | services/prgd-gateway/src/session.ts:197-222 | takes the specified step when the SSH connection is up or failed |
| TerminalSessions.TerminalSession.OnShell | services/prgd-gateway/src/session.ts:224-249 | takes the specified step when the shell opens or is refused, up to going live |
| TerminalSessions.TerminalSession.OnOutput | services/prgd-gateway/src/session.ts:253-275 | takes the specified step for a chunk of output |
| TerminalSessions.TerminalSession.OnSettled | services/prgd-gateway/src/session.ts:340-362 | takes the specified step when the oldest queued event is answered or lost |
| TerminalSessions.TerminalSession.OnAnswer | services/prgd-gateway/src/session.ts:364-382 | takes the specified step for a kill or a moved expiry |
| TerminalSessions.TerminalSession.OnFinishResumes | services/prgd-gateway/src/session.ts:422-462 | takes the specified step at each await of finish and of the recording upload |
| TerminalSessions.TerminalSession.Handle | services/prgd-gateway/src/session.ts:82-499 | for every enabled input the object takes the specified step and keeps the invariant |
| GatewayModel.UpgradeInv | services/prgd-gateway/src/server.ts:94-125 | admitting or refusing a connection keeps the registries exact and never exceeds the limit |
| GatewayModel.UpgradeAnswers | services/prgd-gateway/src/server.ts:94-125 | a request is let in if and only if path, origin and parameter are in order and there is room, adding one new session in its initial state; otherwise nothing changes and the answer names the first thing that is not in order |
| GatewayModel.OriginAllowedIff | services/prgd-gateway/src/server.ts:97-101 | an origin header is allowed if and only if it is an allowed origin with any number of slashes behind |
| GatewayModel.SessionsWereLetIn | services/prgd-gateway/src/server.ts:94-125 | every session there ever is came from a request with the terminal's path, an allowed origin and a proper parameter, while there was room |
| GatewayModel.DeliverInv | services/prgd-gateway/src/server.ts:113-121 | whatever reaches whichever session, its callbacks keep the registries exact |
| GatewayModel.IdentifiedIsOpen | services/prgd-gateway/src/session.ts:166-175 | only the API's answer identifies a session, and that step does not also finish it |
| GatewayModel.RegistriesStayExact | services/prgd-gateway/src/server.ts:94-125 | in every run open connections never exceed maxSessions, each is an unfinished session, and sessions maps an id exactly when the session identified last under it is open, and to that session |
| GatewayModel.FinishKeepsNewer | services/prgd-gateway/src/server.ts:116-118 | finishing a session never unregisters another one with the same id |
| GatewayModel.KillReachesLatestHolder | services/prgd-gateway/src/server.ts:78-83 | a kill ends the session identified last under the id and touches no other one; if that session is over, nothing happens |
| GatewayWitness.AKillReachesNobody | services/prgd-gateway/src/server.ts:78-83 | a run of two connections with one id after which the older one is live and a kill for the id changes nothing |
| GatewayModel.ShutdownEndsAll | services/prgd-gateway/src/server.ts:64-69 | after close every session is ending or over, in any order |
| Gateways.Gateway.OnUpgrade | services/prgd-gateway/src/server.ts:94-125 | judges path, origin header and session parameter, answers 404, 403, 400 or 503 in that order and changes nothing, or registers one new session in its initial state |
| Gateways.Gateway.Deliver | services/prgd-gateway/src/server.ts:113-121 | runs the session's step and its callbacks on the registries |
| Gateways.Gateway.OnKill | services/prgd-gateway/src/server.ts:78-83 | delivers the kill to the registered session |
| Gateways.Gateway.Close | services/prgd-gateway/src/server.ts:64-69 | the loop ends every open connection |
| JobTableModel.ClaimRunsIff | agents/host-agent/internal/agent/agent.go:278-292 | a claim runs the job if and only if no execution of the id is running and none succeeded within the retention; otherwise it hands out that execution |
| JobTableModel.ClaimInv | agents/host-agent/internal/agent/agent.go:278-292 | sweeping and claiming keep the table invariant, so a running entry is never swept |
| JobTableModel.FinishInv | agents/host-agent/internal/agent/agent.go:296-305 | finishing stores the result, closes done once and drops only failures |
| JobHandlers.StepInv | agents/host-agent/internal/agent/agent.go:220-305 | every step of every handler keeps the invariant |
| JobHandlers.OneExecutionAtATime | agents/host-agent/internal/agent/agent.go:220-240 | no two handlers ever execute the same id at the same time |
| JobHandlers.RepliesWithItsExecution | agents/host-agent/internal/agent/agent.go:227-239 | every handler answers with the stored result of the execution it was attached to, which is of its own id |
| JobHandlers.SuccessIsNotRepeated | agents/host-agent/internal/agent/agent.go:274-292 | executions of one id never overlap, and after a success the next starts only after the retention of one hour |
| JobHandlers.DoneClosesOnce | agents/host-agent/internal/agent/agent.go:294-305 | done is closed exactly once, with the result stored |
| JobHandlers.WaitersAreServed | agents/host-agent/internal/agent/agent.go:227-236 | a waiter's execution is being run by some handler, or its result is there |
| JobHandlers.RequestRunsIff | agents/host-agent/internal/agent/agent.go:220-240 | in every reachable state a request runs the job if and only if nothing of its id is running or recently successful; failures can run again |
| JobTables.JobTable.Sweep | agents/host-agent/internal/agent/agent.go:281-285 | the loop over the map drops exactly the stale entries, in any order |
| JobTables.JobTable.Claim | agents/host-agent/internal/agent/agent.go:278-292 | the object takes the specified claim, sharing the entry with waiters |
| JobTables.JobTable.Finish | agents/host-agent/internal/agent/agent.go:296-305 | the object takes the specified finish on the shared entry |
| CreateRuns.StepInv | apps/api/src/workflows/workflows.ts:45-68 | every step of workflow, activities, agent and hypervisor keeps the invariant of the create protocol, racing and failing rollbacks included |
| CreateRuns.FirstMeansAllFailed | agents/host-agent/internal/agent/agent.go:562-643 | while results are kept, a repeated request starts another create only if every earlier one failed |
| CreateHistory.SuccessCarriesOutEverything | apps/api/src/workflows/workflows.ts:45-59 | a run that succeeds has carried out every activity of the try part, one after the other, the firewall after the boot and before the meter |
| CreateHistory.FailureCarriesOutHandler | apps/api/src/workflows/workflows.ts:60-67 | a run that fails has, after the rollback if a placement was reported, marked the server failed, failed its action and said so, in this order |
| CreateHistory.NoMeterBeforeBoot | apps/api/src/workflows/workflows.ts:40-57 | no server is metered at any moment before its VM was waited for and its firewall applied |
| CreateHistory.HostStays | apps/api/src/workflows/activities.ts:152-165 | a placed server stays on its host until a rollback takes effect, whatever a repeated placement would take |
| CreateHistory.MadeWasBuilt | agents/host-agent/internal/agent/agent.go:562-643 | a VM reported as made was cloned, configured with the tag, resized and started, each once and in this order; a create that reports none failed to clone or tried to delete what it had cloned |
| CreateHistory.JobIdsDiffer | apps/api/src/drivers/proxmox.driver.ts:66-68 | different servers, and different workflow runs of one server, never share a create job |
| CreateRuns.NeverTwoVms | apps/api/src/workflows/activities.ts:178-209 | in every run, racing or failing rollbacks included, at most one VM carries the server's tag besides those whose deletion by their own create was refused; without such a refusal at most one does |
| CreateTags.NeverTwoVmsIff | agents/host-agent/internal/agent/agent.go:562-643 | no two VMs ever carry the tag up to a moment of a run if and only if no create tags one while another, whose deletion by its own create was refused, was since then neither deleted nor created anew |
| CreateTags.StraysAreLeft | agents/host-agent/internal/agent/agent.go:624-636 | over the events of a run: the VMs left by refused deletions are exactly those refused and since then deleted neither by a create nor by a rollback, nor created anew |
| CreateWitnesses.ARefusedDeletionLeavesTwo | agents/host-agent/internal/agent/agent.go:624-636 | a run in which a create's own deletion is refused and a repeated attempt leaves two tagged VMs |
| CreateRuns.SuccessHoldsExactlyItsVm | apps/api/src/workflows/workflows.ts:45-59 | a successful run leaves an active, metered server holding host, addresses and the VM named by driverRef, and no other tagged VM but for refused deletions |
| CreateRuns.FailureHoldsNothingButALostPlacement | apps/api/src/workflows/workflows.ts:60-67 | a failed run holds no address, meter or VM in its row, and holds the host if and only if it failed before placement completed although a placement took effect |
| CreateRuns.FailedRunLeavesNoVmIff | apps/api/src/workflows/activities.ts:245-264 | a failed run past placement had a rollback that took effect, and leaves no tagged VM if and only if every VM it missed or a create tagged after it was deleted by its create later |
| CreateRuns.ACleanRollbackIsEnough | apps/api/src/workflows/activities.ts:245-264 | if the rollback that takes effect starts with no create under way, finds the VMs and deletes them, no VM carries the tag from then on, whatever other attempts were like |
| CreateWitnesses.ALostPlacementStaysHeld | apps/api/src/workflows/workflows.ts:48-62 | a run in which the completion of the placement is lost and the failed server keeps its host |
| CreateRuns.RollbackClearsIff | apps/api/src/workflows/activities.ts:245-264 | one rollback leaves no tagged VM if and only if each was deleted and either the search by tag answered or the row knew the only one |
| CreateWitnesses.ARollbackDuringACreateLeaks | apps/api/src/workflows/activities.ts:245-264 | a run whose rollback takes effect while a create is between clone and configuration, and that ends as a handled failure with a tagged VM |
| Workflows.ServerWorkflow.Act | apps/api/src/workflows/workflows.ts:16-19 | up to the limit of five or three attempts of an activity, each with or without effect and completion, are a stretch of a run of the create protocol that ends where the workflow goes next |
| Workflows.ServerWorkflow.AttemptVm | apps/api/src/workflows/activities.ts:178-209 | one attempt, from the look at the row to the reply or the timeout, with the agent moving in between, is a stretch of such a run |
| Workflows.ServerWorkflow.CreateVm | apps/api/src/workflows/workflows.ts:21-25 | up to three attempts are a stretch of such a run |
| Workflows.ServerWorkflow.CompensateCreate | apps/api/src/workflows/activities.ts:245-264 | up to five attempts, with the deletions one by one, are a stretch of such a run and end after the rollback or outside the handler |
| Workflows.ServerWorkflow.AwaitReply | apps/api/src/workflows/activities.ts:190-208 | the reply of whichever handler serves this attempt is stored, or the attempt times out |
| Workflows.ServerWorkflow.Reserve | apps/api/src/workflows/workflows.ts:48-52 | the try block up to the addresses sets placed exactly when the placement completed |
| Workflows.ServerWorkflow.Activate | apps/api/src/workflows/workflows.ts:54-59 | the try block once the VM exists ends in the rollback, or in success with every activity of the try part carried out in order |
| Workflows.ServerWorkflow.TryCreate | apps/api/src/workflows/workflows.ts:48-59 | the try block reports success only at the end of the protocol's try part, and placed exactly when the placement completed |
| Workflows.ServerWorkflow.CreateServer | apps/api/src/workflows/workflows.ts:45-68 | success has carried out every activity in order and holds host, addresses, meter and its VM; a handled failure holds nothing but the host exactly when placement took effect without being reported; past placement there was a rollback that took effect, and the run's exact condition decides whether a tagged VM is left |
| CapacityModel.ApplyKeepsBalance | apps/api/src/workflows/activities.ts:152-319 | place, resize and release keep each host's counters equal to the sum of the sizes placed on it |
| CapacityModel.CountersNeverDrift | apps/api/src/workflows/activities.ts:152-319 | over any activities in any order, repeated at will, the counters equal the sums and never go below zero |
| CapacityModel.ServersAreWherePlaced | apps/api/src/workflows/activities.ts:152-319 | after any activities a server is on the host of its first placement since its last release, and every host counts exactly the servers on it |
| Fleets.EligibleIff | apps/api/src/modules/scheduler/scheduler.service.ts:52-59 | a host is eligible if and only if it is live, allowed, not avoided, suits the family and would still hold no more than it has |
| Fleets.BestIsEmptiest | apps/api/src/modules/scheduler/scheduler.service.ts:58-64 | the host taken has the least fraction of its memory in use |
| CapacityModel.RepeatsChangeNothing | apps/api/src/workflows/activities.ts:152-319 | a repeated attempt changes nothing, even if the scheduler would now pick another host |
| CapacityModel.UnplaceUndoesPlace | apps/api/src/modules/scheduler/scheduler.service.ts:76-93 | releasing a placement restores the counters exactly |
| Fleets.Fleet.Pick | apps/api/src/modules/scheduler/scheduler.service.ts:52-64 | takes the first eligible host of least relative memory use, or says that none is eligible |
| Fleets.Fleet.PlaceServer | apps/api/src/modules/scheduler/scheduler.service.ts:41-85 | places once: on success the server is on the best eligible host, whose counters grew by its size, and nothing else changed; falls back to avoided hosts only if allowed and all are avoided, fails only if none is eligible, and never exceeds a host's capacity |
| Fleets.Fleet.ResizeVm | apps/api/src/workflows/activities.ts:292-302 | gives a server with a VM the new size and moves its host's counters by the difference; otherwise changes nothing |
| Fleets.Fleet.ReleaseServer | apps/api/src/workflows/activities.ts:262-263 | takes the server off its host and its size off that host's counters, and changes nothing else |
| FirewallSpec.StaticAddressReadsBack | agents/host-agent/internal/agent/agent.go:786-793 | the ipconfig written for a static address is read back as that address, with or without a gateway; dhcp has none |
| FirewallSpec.TranslatedCovers | agents/host-agent/internal/agent/agent.go:1044-1062 | the translated rules allow exactly each listed range of each rule |
| FirewallMeaning.PostedMeansAsked | agents/host-agent/internal/proxmox/client.go:381-400 | read as the hypervisor reads it, the form posted for a rule matches exactly the packets the rule describes: direction, protocol, ports and ranges, source, destination |
| FirewallMeaning.WantedRulesEnforce | agents/host-agent/internal/proxmox/client.go:357-401 | with the options that are set and exactly the wanted rules, what passes is what the first matching rule says, and otherwise only outbound packets |
| FirewallMeaning.GroupIsEnforced | agents/host-agent/internal/agent/agent.go:1044-1062 | where the translation of a security group is enforced, an inbound packet passes if and only if some inbound rule lists it |
| FirewallAgent.ApplyGroup | agents/host-agent/internal/agent/agent.go:439-452 | the job: on success without refused deletions an inbound packet passes if and only if some inbound rule of the group lists it, whatever rules there were before |
| FirewallAgent.WrittenNicMatches | agents/host-agent/internal/agent/agent.go:714-722 | a NIC configured with a static address may be filtered if and only if the plan has that address for it; on DHCP it may not |
| FirewallAgent.ToPveRules | agents/host-agent/internal/agent/agent.go:1044-1062 | the nested loops compute the translation, in order |
| FirewallAgent.DeleteRules | agents/host-agent/internal/proxmox/client.go:370-380 | deletes from the last rule to the first; what remains is exactly what refused deletions left, as the faults of the calls decide; it succeeds exactly when every deletion was answered |
| FirewallAgent.SetFirewall | agents/host-agent/internal/proxmox/client.go:357-401 | at every moment only filter setting and rules differ; on success the filter is as asked and the rules are the left-over ones, then the new ones; it succeeds if and only if every call was answered and none but a deletion was refused |
| FirewallAgent.PostRules | agents/host-agent/internal/proxmox/client.go:381-400 | appends the forms of the new rules in order, and succeeds if and only if no call was hindered |
| FirewallAgent.ARefusedDeletionLeavesItsRule | agents/host-agent/internal/proxmox/client.go:370-380 | SetFirewall on a VM with one rule whose deletion is refused reports success and leaves that rule in front of the wanted ones |
| FirewallAgent.SyncIpSet | agents/host-agent/internal/proxmox/client.go:418-455 | at no moment is a wanted address lost; on success the set holds exactly the addresses; it succeeds if and only if no call was hindered and every address listed twice was there before |
| FirewallAgent.DeleteIpSet | agents/host-agent/internal/proxmox/client.go:458-464 | removes the set and nothing else, a missing set is fine, and it succeeds if and only if no call was hindered |
| FirewallAgent.ApplyFirewall | agents/host-agent/internal/agent/agent.go:699-745 | from a safe VM every moment is safe, wherever it stops; on success the VM is safe from any start, the filter is on exactly when every NIC may be filtered, each set is as planned, and the rules are exactly the wanted ones if and only if no deletion was refused; it succeeds if and only if no call was hindered and no matching NIC's plan lists an address twice that its set lacks |
| FirewallAgent.SettleNics | agents/host-agent/internal/agent/agent.go:729-741 | settles every NIC in any order, keeping safety at every call; the same exact condition for success |
| Hypervisor.Api.DeleteRule | agents/host-agent/internal/pvesim/pvesim.go:753-763 | deletes the rule at a position, or leaves it although it answered |
| Hypervisor.Api.PostRule | agents/host-agent/internal/pvesim/pvesim.go:741-752 | appends a rule, or fails |
| Hypervisor.Api.PutOptions | agents/host-agent/internal/pvesim/pvesim.go:715-725 | replaces the options, or fails |
| Hypervisor.Api.PostSet | agents/host-agent/internal/pvesim/pvesim.go:653-668 | creates a set that does not exist, or fails |
| Hypervisor.Api.PostEntry | agents/host-agent/internal/pvesim/pvesim.go:687-694 | adds an entry that is not there, or fails |
| Hypervisor.Api.DeleteEntry | agents/host-agent/internal/pvesim/pvesim.go:702-710 | removes an entry, or fails |
| Hypervisor.Api.DeleteSet | agents/host-agent/internal/pvesim/pvesim.go:695-701 | removes a set with its entries, or fails |
| Hypervisor.Api.PostConfig | agents/host-agent/internal/pvesim/pvesim.go:436-476 | sets a configuration key, or fails |
| Disks.AttachDisk | agents/host-agent/internal/proxmox/client.go:605-631 | a volume some slot mentions stays where it is; otherwise it goes into the first free slot of 1 to 30 and no used slot is written; it succeeds if and only if no call was hindered and the volume is mentioned or a slot is free |
| Disks.DetachDisk | agents/host-agent/internal/proxmox/client.go:634-645 | removes one slot that mentions the volume, or nothing, and succeeds if and only if no call was hindered |
| Disks.EntryOptions | agents/host-agent/internal/proxmox/client.go:629-630 | the entry of a new slot names the volume, excludes it from backups and carries its serial |
| Disks.SlotsAreNumbered | agents/host-agent/internal/proxmox/client.go:620-626 | the slots are scsi1 to scsi30, and one is free if and only if the configuration has no such key |
| Disks.AttachIsIdempotent | agents/host-agent/internal/proxmox/client.go:605-631 | attaching again changes nothing |
| Disks.AttachSeatsIff | agents/host-agent/internal/proxmox/client.go:605-631 | attaching seats a volume if and only if it was seated before or no entry of something else mentions it, and answers with its own slot accordingly |
| Disks.DetachUndoesAttach | agents/host-agent/internal/proxmox/client.go:605-645 | detaching after a fresh attach restores the configuration |
| Disks.ReattachVolumes | apps/api/src/workflows/activities.ts:224-233 | keeps every existing entry; on success a volume has exactly one seat if and only if it had one before or no entry of the configuration, nor of an earlier volume that gets a slot, mentions it; it succeeds if and only if no call was hindered and the free slots suffice for the volumes that get one |
| Disks.SlotsLeft | agents/host-agent/internal/proxmox/client.go:605-631 | along any attachments the free slots shrink by exactly one for each volume that could be told from the start to get one |
| Disks.SeatedIff | apps/api/src/workflows/activities.ts:224-233 | the same on configurations, for any sequence of attachments |
| Disks.OrderlyVolumesAreSeated | apps/api/src/workflows/activities.ts:224-233 | where no name occurs in an earlier volume's entry, only own entries mention a volume and none has two, every volume ends with exactly one seat |
| Disks.AShorterNameGetsNoSlot | agents/host-agent/internal/proxmox/client.go:610-617 | a volume whose name occurs in another's entry gets no seat, whether that entry was there before or belongs to an earlier listed volume |
| BandwidthModel.BilledIsBootTotals | agents/host-agent/internal/agent/agent.go:195-209 | the deltas of any series of readings sum to every boot's final reading less the baseline |
| BandwidthModel.NoResetBillsTheDifference | agents/host-agent/internal/agent/agent.go:195-209 | the sum is last minus first reading if and only if no reading is smaller than the one before |
| BandwidthModel.NeverOverBills | agents/host-agent/internal/agent/agent.go:182-209 | from the creation of a VM on, through traffic, boots, agent restarts and unlisted ticks, no more is billed than was sent since the first reading, and nothing is taken back |
| BandwidthModel.BillsEveryBootIff | agents/host-agent/internal/agent/agent.go:195-209 | of a steadily metered VM the billed bytes are the final readings of all boots less the first reading if and only if every reset was seen or came after a zero reading |
| BandwidthMeters.BandwidthMeter.NetOutDelta | agents/host-agent/internal/agent/agent.go:198-209 | updates the map and returns the specified delta |
| BandwidthMeters.BandwidthMeter.Tick | agents/host-agent/internal/agent/agent.go:147-186 | the loops treat each listed VM as specified and forget those that are gone |
| SshWire.ReadsExactlyWhatIsWritten | services/prgd-gateway/src/ssh-keys.ts:11-24 | reading succeeds at an offset if and only if a whole string is written there, and yields it |
| SshWire.ReadsBack | services/prgd-gateway/src/ssh-keys.ts:11-24 | a string is read back from any place in any buffer |
| SshWire.TruncatedIsRejected | services/prgd-gateway/src/ssh-keys.ts:19-24 | a buffer that ends inside a string is rejected, wherever it was cut |
| SshWire.LengthIsBigEndian | services/prgd-gateway/src/ssh-keys.ts:11-24 | a length is the number that its four bytes make, most significant first |
| SshWire.ManyReadBack | services/prgd-gateway/src/ssh-keys.ts:11-24 | any sequence of strings is read back |
| SshWire.ManyAreUnique | services/prgd-gateway/src/ssh-keys.ts:11-24 | no sequence of strings can be mistaken for another of the same number, whatever follows |
| SshWire.FieldsAreUnique | services/prgd-gateway/src/ssh-client.ts:41-50 | the request's fields determine user, signed flag, certificate and what follows |
| SshWire.SignedBytesAreUnique | services/prgd-gateway/src/ssh-client.ts:52-53 | the signed bytes are injective in session id, user and certificate |
| SshWire.PayloadIsUnique | services/prgd-gateway/src/ssh-client.ts:41-55 | the payload determines user, certificate and signature |
| SshWire.ServerReadsRequest | services/prgd-gateway/src/ssh-client.ts:27-50 | read as the RFC lays it out, the request yields the message number, user, service, method, flag, algorithm and certificate, and then what follows |
| SshWire.ServerReadsSignature | services/prgd-gateway/src/ssh-client.ts:51-55 | behind a signed request the server finds key type and signature, and what was signed is the session id followed by the request's fields |
| SshWire.CertificateBlob | services/prgd-gateway/src/ssh-keys.ts:49-61 | a blob is accepted if and only if it starts with the certificate type, some nonce and the session's own key |
| StepStreamModel.SplitInTwo | apps/console/src/lib/connect.ts:147-155 | cutting a text anywhere changes neither its frames nor the rest |
| StepStreamModel.ChunksDoNotMatter | apps/console/src/lib/connect.ts:147-171 | the updates depend on the text alone, not on where it was cut, even inside a delimiter |
| StepWire.ConsoleReadsServer | apps/api/src/modules/connect/connect.controller.ts:254-326 | end to end: in whatever pieces the server's text arrives, the console hands on exactly the readable steps and runs sent before the end, in order, skips heartbeats, and stops exactly at the end |
| StepWire.BodyMeans | apps/console/src/lib/connect.ts:155-169 | the console reads each message of the server as what it means; data that looks like a step is taken for one |
| StepStreams.StepStream.Push | apps/console/src/lib/connect.ts:151-170 | the loop hands on exactly the updates of the frames that the piece completes |
| StepList.UpsertKeepsTheList | apps/console/src/lib/connect.ts:180-184 | a merge keeps ids unique and indexes sorted, has the new version and leaves the others |
| StepList.ListHoldsTheLatest | apps/console/src/lib/connect.ts:180-184 | after any updates the list holds exactly the latest version of every step, in order |
| ChainLockModel.StepInv | apps/api/src/drivers/fake-platform-agents.ts:104-111 | arrivals, starts, settlements and cleanups keep the chain invariant |
| ChainLockModel.OneAtATimeInArrivalOrder | apps/api/src/drivers/fake-platform-agents.ts:104-111 | tasks of one key never run together and start in arrival order, whatever fails |
| ChainLockModel.PendingKeepsItsChain | apps/api/src/drivers/fake-platform-agents.ts:108-110 | cleanup never detaches a pending task |
| ChainLockModel.ChainsAreRemoved | apps/api/src/drivers/fake-platform-agents.ts:104-111 | a key has a chain exactly while its last task is not cleaned up after, so once everything is over the map is empty |
| ChainLockModel.NestingCannotDeadlock | apps/api/src/drivers/fake-platform-agents.ts:211-222 | while any task is pending some task can start or settle, with host locks around cluster locks |
| ChainLocks.ChainLock.Locked | apps/api/src/drivers/fake-platform-agents.ts:104-107 | queues behind the end of the chain and becomes its end |
| ChainLocks.ChainLock.Finally | apps/api/src/drivers/fake-platform-agents.ts:108-110 | removes the chain only if the call is still its end |
| PgClusterModel.LeaderNeedsAMajority | apps/api/src/drivers/fake-platform-agents.ts:363-406 | a leader is always a configured member of a configured majority |
| PgClusterModel.LeaderIffMajority | apps/api/src/drivers/fake-platform-agents.ts:363-389 | in every run there is a leader if and only if a majority was configured; members, users and databases are exactly those that configurations brought, the latter two to a leader |
| PgClusterModel.MajorityElects | apps/api/src/drivers/fake-platform-agents.ts:375-377 | the configuration that makes a majority elects the member configured first if it runs, and otherwise the lowest that does |
| PgClusterModel.AcceptedStaysRecorded | apps/api/src/drivers/fake-platform-agents.ts:370-389 | users and databases of an accepted configuration are recorded from then on |
| PgClusterModel.AcceptedIff | apps/api/src/drivers/fake-platform-agents.ts:377-389 | a configuration is accepted if and only if there is a leader and it is the member itself or has everything already |
| PgClusterModel.OnlyADownLeaderIsReplaced | apps/api/src/drivers/fake-platform-agents.ts:408-421 | a leader gives way only when it is down, to the lowest running member, and after a configuration it runs |
| PgClusters.PgCluster.Failover | apps/api/src/drivers/fake-platform-agents.ts:408-421 | the ascending search picks the lowest running member |
| PgClusters.PgCluster.ApplyDb | apps/api/src/drivers/fake-platform-agents.ts:363-389 | takes the specified step and keeps the majority invariant |
| KubeJoinModel.NodesJoinWithIssuedTokens | apps/api/src/drivers/fake-platform-agents.ts:494-545 | every node but the first is in the cluster only with a token issued by that cluster at most a day before it was used |
| KubeJoinModel.LetInIff | apps/api/src/drivers/fake-platform-agents.ts:538-545 | such a node is let in if and only if its token is known and not expired and the authority's hash matches |
| KubeJoinModel.TokensLastADay | apps/api/src/drivers/fake-platform-agents.ts:455-545 | in every run a token with the right hash lets a node in if and only if the current cluster handed it out at most a day ago and the tokens were not made to run out since |
| KubeJoinModel.FirstNodeReconciles | apps/api/src/drivers/fake-platform-agents.ts:494-523 | a configuration of the first node makes the cluster once, and takes the nodes to remove out of it |
| KubeJoinModel.OldSecretsAreWorthless | apps/api/src/drivers/fake-platform-agents.ts:173-180 | after expiry of all tokens, or a new cluster, what was valid lets nobody in |
| KubeClusters.KubeCluster.Join | apps/api/src/drivers/fake-platform-agents.ts:538-545 | answers the specified check |
| KubeClusters.KubeCluster.ApplyK8s | apps/api/src/drivers/fake-platform-agents.ts:494-536 | takes the specified step and keeps the token invariant |
| KubeClusters.KubeCluster.IssueToken | apps/api/src/drivers/fake-platform-agents.ts:463-473 | an initialized control plane node hands out a token for a day |
| HostKeyModel.OneKeyPerGroup | services/prgd-gateway/src/host-keys.ts:91-98 | without a file, all keys accepted within one connected group of assets and addresses are the same key |
| HostKeyModel.AcceptedStaysTheOnlyKey | services/prgd-gateway/src/host-keys.ts:91-98 | an accepted key stays the only one accepted for its asset and address |
| HostKeyModel.TrustedIff | services/prgd-gateway/src/host-keys.ts:91-98 | a key is trusted if and only if no key accepted before for its asset or its address is another one, and it is a first use if and only if none was accepted for the asset |
| HostKeyModel.HostMatchesIff | services/prgd-gateway/src/host-keys.ts:30-40 | a line is about a host if and only if a plain pattern matches it and no pattern behind an exclamation mark does |
| HostKeyVerifiers.HostKeyVerifier.HostMatches | services/prgd-gateway/src/host-keys.ts:30-40 | the loop with its flag says: some pattern matches and no negated one does |
| HostKeyVerifiers.HostKeyVerifier.Check | services/prgd-gateway/src/host-keys.ts:81-98 | with a file a key is trusted if and only if a plain line lists it and no revocation does; without one, exactly when no pin disagrees |

## Left out

- RedactorBatch.StreamIsBatchIff: states equality with the whole-input scrub for one secret only; with several secrets the order of scrubbing differs between chunkings, and only non-occurrence is stated there.
- SessionRuns.NoRelayAfterExpiry: relies on timers firing when due, so the clock never passes the deadline of an armed timer. Node turns a delay of 0 into 1 ms, so an expiry that is `now` or past when its timer is armed can be passed by one millisecond more than stated here and in `ByteIsLateIff`.
- SessionRuns.ClosingFinishes: relies on every API call settling, which the request timeout provides, and on uploads and file operations returning.
- CreateRuns.NeverTwoVms: relies on results being kept while requests arrive and on an agent that is not restarted; VMs that a failed clone leaves behind carry no tag and are not part of this model.
- CreateRuns.SuccessHoldsExactlyItsVm: attempts of one activity do not overlap; an attempt that outlives its own timeout is not part of this model.
- CapacityModel.CountersNeverDrift: heartbeats that overwrite the counters with the agent's figures, and a crash between two writes of one activity, are not part of this model.
- Fleets.Fleet.PlaceServer: the region lock makes a placement one step; the liveness of a host is a flag.
- FirewallMeaning.GroupIsEnforced: DHCP and neighbour discovery, which the options let through, connection tracking and the rules of the cluster and the host are not part of this model; whether an address is in a range is a parameter. Ports count for tcp and udp only, so a rule for any protocol that names ports, which the API refuses, admits all of them.
- Gateways.Gateway.OnUpgrade: path, origin header and session parameter are given as text; parsing the URL is not part of this model.
- StepWire.ConsoleReadsServer: relies on JSON text being one line and on empty text not being JSON.
- Disks.ReattachVolumes: the database query that selects the volumes is not part of this model; names are compared with the entries as they were written, without the options that the hypervisor may add.
- Hypervisor.Api.PostRule: appends, as the simulator does.
- StepStreamModel.ChunksDoNotMatter: is about decoded text; the byte decoder is not part of this model, the JSON parser is a parameter, and trimming knows ASCII white space.
- SshWire.CertificateBlob: the text line around the blob (type, base64) is not part of this model.
- HostKeyVerifiers.HostKeyVerifier.Check: comparing one pattern with a name (globs, hashed names) is a parameter, and the parsing and rereading of the file are not part of this model.
- PgClusters.PgCluster.ApplyDb: sees which members run as of one moment, while the source asks them one after another.
- KubeClusters.KubeCluster.ApplyK8s: a node is its role and index; a VM that replaces it is the same node after a boot.
- GatewayModel.RegistriesStayExact: each session has its own clock, and the registry holds sessions as values.
- TerminalSessions.TerminalSession.OnOutput: whether the sudo responder injects a password is the environment's choice; its verdict depends on chunk boundaries and is not modelled. Pausing the shell under back pressure, window sizes and byte counts are left out.
- The recording's contents, the upload itself and the texts of notices.
- `attachIP`, `detachIP` and the virtual network set-up of the host agent.
- Power, snapshot, restore, rebuild and delete workflows beyond the capacity they hold.
- MySQL and Valkey members, backups, and the load balancer, app and deploy agents of the simulator.
- Cryptography, NATS, Temporal, Prisma, Redis, ssh2 and WebSocket internals: steps of the environment.
- Command line, SDKs, Terraform, pages, translations and configuration parsing.
