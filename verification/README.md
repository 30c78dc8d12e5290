# ServerPilot: the keepalive system and its algorithms, in Dafny

ServerPilot shares the GPUs of a fleet. On every GPU that nobody has claimed a small CUDA worker, the keeper, holds the
card; a helper on the server starts, stops and attests keepers, and the central API hands a GPU from its keeper to a
claim. This project models that system and a number of self-contained algorithms beside it, and proves what they keep.

| module | what it models |
|---|---|
| `Processes` | the process table of a host with exits, PID reuse, reboots and pidfds; checking, stopping and starting a worker, each system call a separate step |
| `WorkerState` | the text of the durable map from GPU to worker identity, and reading it back |
| `KeepaliveController` | the helper: enable, disable, attest, the temporary file and the rename, killed anywhere |
| `Json`, `KeepaliveProtocol` | the messages between API and helper, and the two checks on a reply |
| `Handoff` | claim, reassignment and reconciliation tasks on one event loop, with endpoint locks, a step at each suspension point and a log of remote and service calls |
| `HandoffTraces` | what one claim, and one reconciliation, leaves in that log |
| `ReconcileStops` | the stop phase of a reconciliation against a service and a helper that answer in any way |
| `RateLimiting`, `BodyLimit`, `BoundedStream` | the sliding-window limiter, the buffered and replayed request body, the bounded drain of a pipe |
| `PolicyMerge` | merging the agent policy block into a user's file |
| `SshCommand`, `SshAcceptance` | parsing and printing `ssh [-p PORT] USER@HOST`, and what is accepted stated without the parser |
| `GpuOrdinals` | CUDA ordinals in PCI order, computed in three places |
| `Planner` | the smallest useful resource plan |
| `ResourceUsage`, `RoutineStatus`, `LineSeries` | dashboard groups against fleet totals, the routine status projection, chart lines with gaps |

`Text` holds decimal numbers, blanks, lower case and string order; `Execution` the result of a step that may return,
raise or be killed. External calls (the broker service, SSH, the NVIDIA tools, the file system, the clock) are arbitrary:
a nondeterministic choice in a method, a parameter, or an input of the step function. `dafny verify dfyconfig.toml`
checks the whole project.

Where the source changes state the model is a class or a method with a loop, proved against a specification; where it
computes values the model is functions and lemmas. The longest argument is `Handoff.ClaimComesLast` with
`HandoffTraces.ClaimLeaves`; the results that span a whole run or a whole sequence of calls are there, in `Serve` and
`Repeat` of `KeepaliveController.LocalKeepaliveController`, and in `RateLimiting.MinuteIsSafeIff`.

## Where the code is weaker than its words

Each of these is proved with its exact condition or a general family of inputs.

- `_enable` does not check for duplicates, unlike `attest_workers`: a GPU named twice starts two workers and records one
  (`KeepaliveController.StartIsRecordedIff`, `DuplicateLosesWorker`). The adapter refuses such a request before it is
  sent.
- The limiter reads the clock before it takes its lock. A limit of two or more per minute holds exactly when checks take
  the lock in time order (`RateLimiting.MinuteIsSafeIff`); with checks late by at most `d` it holds for windows of 60 - d.
- The body limit says it counts the bytes actually received, but it counts those buffered. The application stays within
  the limit exactly when what follows the buffered events has room in what they left (`BodyLimit.NeverOverLimitIff`).
  The input that breaks it is an `http.request` event after the end of the body or after `http.disconnect`
  (`LimitIsOnTheBuffer`); a server that conforms to ASGI sends neither, so this is a limit of the code's own promise and
  not a defect in service.
- A policy body that holds a marker can be installed once and then never replaced (`PolicyMerge.AcceptedAgainIff`,
  `MarkerBodyIsFinal`).
- The endpoint id is called deterministic; it is not a key (`SshCommand.EndpointIdsCollide`).
- Tasks are grouped by project and task name joined by U+001F: two of them share a group when one project name continues
  another after that character, and only then (`ResourceUsage.TaskKeysSeparateIff`).
- Requested quantities of the visible groups do not add up to the fleet's (`ResourceUsage.RequestedSharedIff`).
- The shared telemetry window is not smoothed over disagreement, but it is read for GPUs that were observed in no window
  at all (`RoutineStatus.MissingWindowIff`, `UnobservedRowHasWindow`).

## Model

| member | source | states |
|---|---|---|
| `Processes.DeadStaysDead` | src/serverpilot/server_keepalive.py:66-73 | Once the worker an identity (PID, boot, start ticks) was taken from is dead, no later process, on any reuse of the PID or after any reboot, answers to that identity |
| `Processes.TorchSubprocessProvider.PinnedAfterRecheck` | src/serverpilot/server_keepalive.py:243-254 | A pidfd opened on the holder of a PID between two checks that found the worker running is a pidfd of that worker, and of a process that carries the worker marker |
| `Processes.TorchSubprocessProvider.IsRunning` | src/serverpilot/server_keepalive.py:694-708 | Three separate `/proc` reads, with any exits, PID reuse or kill between them: yes means the recorded worker still owned its PID some time during the check and a marked process runs under it at the end, no means the worker is dead |
| `Processes.TorchSubprocessProvider.Stop` | src/serverpilot/server_keepalive.py:242-281 | In every interleaving of exits and PID reuse with the steps, signals reach only the recorded, marked worker, the pidfd calls follow the protocol of SIGTERM, wait, SIGKILL and wait, a normal return means the worker is dead, and a raise with no failed call means both signals were delivered and outlived |
| `Processes.TorchSubprocessProvider.Terminate` | src/serverpilot/server_keepalive.py:254-281 | SIGTERM before any wait, SIGKILL only after a wait the worker outlived, each step exactly when the one before it calls for it; returns normally only when the worker has exited, and raises only for a failed signal or after both signals were delivered |
| `Processes.StageDelivers` | src/serverpilot/server_keepalive.py:254-281 | Calls that follow the protocol begin with SIGTERM; no process is waited for unsignalled, and one that is stuck got both signals |
| `Processes.TorchSubprocessProvider.Capture` | src/serverpilot/server_keepalive.py:676-691 | A captured identity names an instance that held the PID during the capture |
| `Processes.TorchSubprocessProvider.Start` | src/serverpilot/server_keepalive.py:180-237 | A successful start names a marked worker that did not exist before the call, was given the CUDA ordinal of the requested GPU and reported that it is ready; it raises only when a lookup, spawn or wait failed or the child has exited |
| `WorkerState.BookOfFile` | src/serverpilot/server_keepalive.py:466-571 | Reading back any written map returns it, the empty map (stored as no file) included |
| `WorkerState.AcceptedIff` | src/serverpilot/server_keepalive.py:466-526 | A text is read as a map exactly when it is a version 3 document whose worker records describe that map: all fields of the right type and value, and no GPU twice; everything else is refused |
| `WorkerState.DocumentAcceptedIff` | src/serverpilot/server_keepalive.py:478-526 | The same for any document in the compact encoding, stated on the document: another schema version, missing workers, a bad record or a repeated GPU is refused |
| `WorkerState.BookFromIsValid` | src/serverpilot/server_keepalive.py:493-526 | Whatever map is read satisfies every check on a record |
| `KeepaliveController.ConsistentEvolves` | src/serverpilot/server_keepalive.py:466-571 | What other processes do between two steps of the helper keeps the invariant of the state file |
| `KeepaliveController.ConsistentReplace` | src/serverpilot/server_keepalive.py:557-564 | Replacing the file by a map that keeps every live recorded worker keeps the invariant |
| `KeepaliveController.ExtendKeeps` | src/serverpilot/server_keepalive.py:388-407 | Adding the started workers to the map forgets no live recorded worker |
| `KeepaliveController.SuccessesInBook` | src/serverpilot/server_keepalive.py:396-407 | Every successful start of a GPU named once is in the map that is written |
| `KeepaliveController.StartIsRecordedIff` | src/serverpilot/server_keepalive.py:392-408 | A started worker is in the map that is written exactly when no later start in the call named the same GPU |
| `KeepaliveController.DuplicateLosesWorker` | src/serverpilot/server_keepalive.py:392-408 | A GPU named twice starts two workers, and the map that is written holds the second alone |
| `KeepaliveController.LocalKeepaliveController.Repeat` | src/serverpilot/server_keepalive.py:367-440 | Two calls in a row, with anything happening on the host in between: after a successful enable whose workers still run, the second enable starts nothing, keeps the file and answers unchanged; after a successful disable, the second one signals nothing, keeps the file and answers unchanged |
| `KeepaliveController.LocalKeepaliveController.ReadIdentities` | src/serverpilot/server_keepalive.py:466-526 | Returns the map of a valid file and raises exactly for a legacy file or a spoilt one |
| `KeepaliveController.LocalKeepaliveController.Publish` | src/serverpilot/server_keepalive.py:528-564 | Up to the rename the file is the old map, after it the new one; success means the new one |
| `KeepaliveController.LocalKeepaliveController.WriteIdentities` | src/serverpilot/server_keepalive.py:528-571 | Whatever fails and wherever the helper is killed, the state file is the complete old or the complete new map, and no live recorded worker is forgotten |
| `KeepaliveController.LocalKeepaliveController.DropDead` | src/serverpilot/server_keepalive.py:374-386 | Only entries of requested GPUs with dead workers are dropped; every requested GPU is either left to start, once, or keeps its entry, and then its worker was seen running during the loop |
| `KeepaliveController.LocalKeepaliveController.StartPending` | src/serverpilot/server_keepalive.py:388-413 | Every successful start is recorded before any failure is raised, the map written is the old one extended by the last start of each GPU, and the start failure is raised only when some pending GPU got no worker, for a fault of the lookup, the spawn, the wait or the child |
| `KeepaliveController.LocalKeepaliveController.Enable` | src/serverpilot/server_keepalive.py:367-413 | Starts workers only for requested GPUs without a live recorded worker, leaves every other entry untouched, keeps every live recorded worker, answers for each requested GPU (unchanged only for a worker seen running during the call), and raises only for a failed start that left a requested GPU without an entry or a failed file operation |
| `KeepaliveController.LocalKeepaliveController.Disable` | src/serverpilot/server_keepalive.py:415-440 | Signals only recorded workers of requested GPUs; a normal return answers stopped for each and leaves no entry of theirs; it raises only for a stop that failed or a failed file operation |
| `KeepaliveController.LocalKeepaliveController.AttestWorkers` | src/serverpilot/server_keepalive.py:321-365 | Evidence for every requested GPU from its recorded identity, seen running during the call, and its driver process; refused exactly for bad or repeated names or a spoilt file, and otherwise only for a GPU without an entry, a live worker or a driver process; nothing is changed |
| `KeepaliveController.LocalKeepaliveController.SetEnabled` | src/serverpilot/server_keepalive.py:300-319 | One helper call as a whole: entries, starts and their recording, whom it signals, the outcomes it answers, and for each exception that it is raised only for its cause, with the invariant kept even when it is killed half-way |
| `KeepaliveController.LocalKeepaliveController.Serve` | src/serverpilot/server_keepalive.py:300-440 | Over any sequence of calls, each possibly killed anywhere, a live worker once recorded stays recorded until it is dead |
| `Json.ReadOfPrint` | src/serverpilot/keepalive_protocol.py:290-291 | Decoding the compact encoding of a value returns the value (strings as in section 7 of RFC 8259) |
| `KeepaliveProtocol.ResponseRoundTrip` | src/serverpilot/keepalive_protocol.py:140-179 | A response survives encode and decode exactly when every UUID in it is well formed |
| `KeepaliveProtocol.RequestRoundTrip` | src/serverpilot/keepalive_protocol.py:56-90 | Every request that encodes at all is decoded to itself |
| `KeepaliveProtocol.ResponseAcceptedIff` | src/serverpilot/keepalive_protocol.py:161-179 | A reply is decoded exactly when it is a version 3 message with a desired state and well-formed results, and then to those results in order |
| `KeepaliveProtocol.UnhashableIff` | src/serverpilot/keepalive_protocol.py:234-256 | The type error of an array or object in place of a status or outcome escapes exactly when only well-formed results come before it |
| `KeepaliveProtocol.RequestAcceptedIff` | src/serverpilot/keepalive_protocol.py:75-90 | A request is decoded exactly when it is a version 3 message with a desired state and one or more well-formed UUIDs |
| `KeepaliveProtocol.ValidUuidIff` | src/serverpilot/keepalive_protocol.py:31-45 | A UUID is well formed exactly when it is `GPU-` and five hexadecimal groups of 8, 4, 4, 4 and 12 digits |
| `KeepaliveProtocol.ResultByGpuUuid` | src/serverpilot/api.py:356-389 | Accepts exactly the replies with one result per requested GPU, all in the expected state, and then tabulates each result under its UUID |
| `KeepaliveProtocol.HelperReplyAccepted` | src/serverpilot/adapters.py:586-605 | The reply to any non-empty list of distinct UUIDs crosses the wire unchanged and passes the adapter and the API check |
| `KeepaliveProtocol.AcceptedReplyIsExact` | src/serverpilot/api.py:356-389 | A reply the API accepts names exactly the requested set, each GPU once, each in the expected state |
| `KeepaliveProtocol.ChecksAgree` | src/serverpilot/adapters.py:586-605 | On duplicate-free requests the adapter and the API accept the same replies |
| `KeepaliveProtocol.DistinctByCount` | src/serverpilot/adapters.py:594-596 | A list is free of duplicates exactly when its set has the same size |
| `Handoff.ScriptIsThePlan` | src/serverpilot/api.py:783-845 | The calls between plan and claim hand off every planned keeper in order: prepare all of an endpoint, then stop, observe and finalise one by one |
| `Handoff.StepKeepsLocks` | src/serverpilot/api.py:313-331 | Every step of every task keeps the lock table and the wait queues exact |
| `Handoff.QueueIsFifo` | src/serverpilot/api.py:321-331 | Locks are granted first come, first served: a queue changes only at its end by arrival, or at its head together with the grant |
| `Handoff.MutualExclusion` | src/serverpilot/api.py:313-331 | Each endpoint lock has at most one holder after every run |
| `Handoff.NoDeadlock` | src/serverpilot/api.py:321-331 | Whenever some task is not done some task can step, because lock sets are taken in sorted order |
| `Handoff.StepGoesDown` | src/serverpilot/api.py:451-930 | Every step lowers the number of steps left to its task |
| `Handoff.RunIsBounded` | src/serverpilot/api.py:451-930 | A run of any tasks is no longer than a bound known from the tasks |
| `Handoff.EveryRunCompletes` | src/serverpilot/api.py:851-930 | Every run is no longer than a bound known from the tasks, and can be continued to one in which all tasks are done |
| `Handoff.OthersKeepHistory` | src/serverpilot/api.py:466-466 | A step of another task disturbs no hand-off: a keeper start happens under the lock of its own endpoint |
| `Handoff.StepKeepsHistories` | src/serverpilot/api.py:750-855 | Every step keeps what the log shows about every task under its locks |
| `Handoff.ClaimComesLast` | src/serverpilot/api.py:750-855 | In every run, when the claim callback executes, each planned keeper has been prepared with its lease, stopped with a verified reply, re-observed and finalised, since all locks were taken; none was released, and no keeper was started on a locked endpoint in between |
| `HandoffTraces.StepKeepsTraces` | src/serverpilot/api.py:750-855 | Every step of every task keeps the logged calls of every claim in line with the point it has reached |
| `HandoffTraces.ClaimLeaves` | src/serverpilot/api.py:750-930 | In every run, the calls of a finished claim are: an ordinary claim that did not lack capacity; that and a plan that cannot be attempted; all calls of the plan in order and then the claim callback; or the calls up to the first failure, after a failed stop with the observation and finalisation it still gets |
| `HandoffTraces.ClaimedOnceIff` | src/serverpilot/api.py:750-855 | In every run a finished claim has executed its claim callback exactly once if it handed something off and nothing failed, and never otherwise |
| `HandoffTraces.GoodHandOffClaims` | src/serverpilot/api.py:750-849 | For a plan of any size that can be attempted, a lack of capacity and good replies to every call lead to the claim |
| `HandoffTraces.FailedStartIsCleanedUp` | src/serverpilot/api.py:520-590 | A keeper start that is not attested, observed and confirmed is stopped again and observed, at whichever of the four calls it failed; only a start known to have started nothing is not |
| `HandoffTraces.EveryStopIsVisited` | src/serverpilot/api.py:633-707 | Whatever became of the stops before it, each prepared stop of a reconciliation is called, observed and, after a good observation, finalised |
| `HandoffTraces.KeeperCallsIff` | src/serverpilot/api.py:520-707 | A keeper is told to start exactly in the start phase, and to stop exactly in the clean-up and for each prepared stop |
| `ReconcileStops.StopPhase` | src/serverpilot/api.py:633-730 | Returns normally exactly when every planned stop was finalised; no helper is called for a stop not prepared with its own lease; failures, finalised stops and calls are the specified ones; however it ends, every stop is observed after its helper call and finalised directly after that observation |
| `ReconcileStops.PrepareAll` | src/serverpilot/api.py:634-665 | The first loop: the prepared stops, their failures and the calls made |
| `ReconcileStops.StopAll` | src/serverpilot/api.py:666-707 | The second loop: one GPU at a time, observed directly after every helper call whatever came of it, finalised directly after an observation that went well and never on an older one, also when it ends in a crash |
| `ReconcileStops.CallsAreOrdered` | src/serverpilot/api.py:634-707 | For any answers and any front of the plan: preparations first, then each helper call followed by its observation, finalised exactly after a good one, in plan order and none twice |
| `ReconcileStops.ReportCodeIff` | src/serverpilot/api.py:708-730 | The report blames an incompatible helper exactly when that is why every unfinished stop failed |
| `ReconcileStops.StopsArePartitioned` | src/serverpilot/api.py:633-730 | Finalised stops and reported failures partition the plan, for every pattern of answers; a GPU whose helper call failed but that was observed empty and finalised counts as finalised |
| `ReconcileStops.FailureExistsIff` | src/serverpilot/api.py:659-707 | A stop is reported failed exactly when it was not finalised |
| `ReconcileStops.AllDoneIff` | src/serverpilot/api.py:708-730 | Nothing is reported exactly when everything was finalised |
| `RateLimiting.RateLimiter.Check` | src/serverpilot/api.py:81-93 | The decision depends on this actor's earlier checks alone, and the new state is the one the history gives |
| `RateLimiting.RateLimiter.PopOld` | src/serverpilot/api.py:85-86 | The loop drops exactly the hits at the head that are a minute old |
| `RateLimiting.ActorsAreIndependent` | src/serverpilot/api.py:78-84 | Each actor's queue is what its own checks alone would have made it |
| `RateLimiting.QueueIsTail` | src/serverpilot/api.py:85-93 | The queue is the end of the admitted history; whatever left it is at least a minute older than the latest check |
| `RateLimiting.WindowHoldsLimit` | src/serverpilot/api.py:81-93 | With checks out of time order by at most `skew`, no window of 60 - skew seconds holds more admitted checks than the limit |
| `RateLimiting.QueueIsLastMinute` | src/serverpilot/api.py:84-93 | In time order the queue is the whole admitted history of the last minute |
| `RateLimiting.RefusedIffFull` | src/serverpilot/api.py:87-92 | In time order a check is refused exactly when the minute before it already holds the limit |
| `RateLimiting.LateLockBreaksMinute` | src/serverpilot/api.py:82-83 | For every positive skew and every limit of two or more, a concrete sequence of checks puts one more than the limit into a minute |
| `RateLimiting.MinuteIsSafeIff` | src/serverpilot/api.py:81-93 | The per-minute limit holds for all sequences of checks exactly when the lock is taken in time order or the limit is at most one |
| `RateLimiting.EveryActorIsLimited` | src/serverpilot/api.py:75-93 | The same for the whole limiter: every actor keeps its limit in every minute whatever the others do |
| `BodyLimit.RequestBodyLimitMiddleware.Call` | src/serverpilot/api.py:103-142 | Rejected for a declared or an actual overflow, run exactly when the body ends within the limit, passed through for other scopes; the application's receive has the whole stream ahead of it |
| `BodyLimit.DeclaredOverIff` | src/serverpilot/api.py:107-116 | A body is refused unread exactly when the last header named content-length, in any case, holds a readable number above the limit |
| `BodyLimit.RequestBodyLimitMiddleware.ReadBody` | src/serverpilot/api.py:118-131 | The reading loop stops at the end of the body, at the first overflow or at the end of the stream, with exactly the events read so far |
| `BodyLimit.ReplayReceive.Receive` | src/serverpilot/api.py:136-142 | Each receive hands out the next event of buffer and live stream, once |
| `BodyLimit.Observe` | src/serverpilot/api.py:103-142 | Whatever the application receives is the original stream from its start, nothing lost or repeated |
| `BodyLimit.OneReading` | src/serverpilot/api.py:118-131 | Fitting, overflowing and unfinished streams exclude each other |
| `BodyLimit.RunStaysWithinLimit` | src/serverpilot/api.py:118-142 | If only lifecycle events follow the body, the application never sees more body bytes than the limit |
| `BodyLimit.NeverOverLimitIff` | src/serverpilot/api.py:118-142 | The application never sees more body bytes than the limit exactly when what follows the buffered events has room in what they left of it |
| `BodyLimit.LimitIsOnTheBuffer` | src/serverpilot/api.py:120-131 | A body event after a disconnect event is handed on uncounted |
| `PolicyMerge.CountIsZero` | scripts/install_agent_policy.py:45-48 | A count of zero means the marker occurs nowhere |
| `PolicyMerge.FindIsFirst` | scripts/install_agent_policy.py:59-60 | The place found is the first occurrence |
| `PolicyMerge.CountSplits` | scripts/install_agent_policy.py:37-39 | No marker occurrence straddles an inserted newline or the start of another marker, so counts add up |
| `PolicyMerge.CountAround` | scripts/install_agent_policy.py:37-67 | Counts add up around a marker wherever it stands in a text |
| `PolicyMerge.AcceptedIff` | scripts/install_agent_policy.py:50-62 | A merge is refused exactly when the text is neither free of markers nor holds one well-formed block of one kind |
| `PolicyMerge.MergeInstalls` | scripts/install_agent_policy.py:57-67 | For a body free of markers the result holds exactly one current block, with that body, and no legacy marker |
| `PolicyMerge.MergeKeepsText` | scripts/install_agent_policy.py:57-67 | The text on both sides of the block survives up to blanks at the seams |
| `PolicyMerge.LastMergeWins` | scripts/install_agent_policy.py:42-67 | For a non-blank text, merging one body and then another gives what merging the second alone gives |
| `PolicyMerge.MergeSettles` | scripts/install_agent_policy.py:42-67 | Merging again changes nothing from the first result on for non-blank text, and from the second on, and not the first, for blank text |
| `PolicyMerge.AcceptedAgainIff` | scripts/install_agent_policy.py:37-67 | The result of a merge accepts another merge exactly when the installed body held no marker |
| `PolicyMerge.MarkerBodyIsFinal` | scripts/install_agent_policy.py:37-52 | A body that is itself a marker can be installed in an empty file, and the result is refused ever after |
| `SshCommand.ReadsTheGrammar` | src/serverpilot/importer.py:17-21 | The reader accepts exactly the texts of the command pattern, each with one user, host and port |
| `SshCommand.ShowOfParse` | src/serverpilot/importer.py:62-66 | Printing a parsed IPv4 address gives back its text |
| `SshCommand.NormalHostIsNormal` | src/serverpilot/importer.py:59-71 | Normalising a host is idempotent over case, IPv4 addresses and DNS labels (section 2.1 of RFC 1123), and keeps it a host of the same length |
| `SshCommand.AcceptedIsCanonical` | src/serverpilot/importer.py:43-84 | What an accepted command yields satisfies every limit of the parser |
| `SshAcceptance.AcceptedIff` | src/serverpilot/importer.py:43-84 | A command is accepted exactly when it is one printable line of at most 512 characters that matches the pattern, with a port from 1 to 65535, a good host and an id that fits, and it yields that user, port and host in lower case |
| `SshAcceptance.Ipv4Iff` | src/serverpilot/importer.py:62-66 | A text is an IPv4 host exactly when it is four numbers up to 255 in their shortest form between dots |
| `SshAcceptance.DnsNameIff` | src/serverpilot/importer.py:67-71 | A host name is accepted exactly when it is one or more labels between dots |
| `SshAcceptance.IsLabelIff` | src/serverpilot/importer.py:21-21 | A label is a letter or digit, or two of them around at most 61 letters, digits and hyphens |
| `SshAcceptance.SlugOfHost` | src/serverpilot/importer.py:32-35 | The slug of a host keeps its lower-case letters and digits in order, with single hyphens between some of them and none at the ends |
| `SshAcceptance.SlugIsFixed` | src/serverpilot/importer.py:32-35 | A host that already is a slug is its own slug |
| `SshCommand.ParseOfNormalized` | src/serverpilot/importer.py:37-84 | Parsing the normal form of any accepted command returns the same user, host and port |
| `SshCommand.CanonicalReparses` | src/serverpilot/importer.py:37-84 | Every user, host and port within the limits comes back from its normal form |
| `SshCommand.NormalizedFits` | src/serverpilot/importer.py:46-49 | The normal form is printable and at most 299 of the 512 characters allowed |
| `SshCommand.NormalFormIsKey` | src/serverpilot/importer.py:37-40 | Equal normal forms mean equal destinations |
| `SshCommand.NormalHostIsLower` | src/serverpilot/importer.py:62-71 | The normal form of an accepted host is its lower case |
| `SshCommand.SameDestinationIff` | src/serverpilot/importer.py:43-84 | Two accepted commands yield the same result exactly when users are equal, ports are equal as numbers (default and leading zeros included) and hosts are equal up to case |
| `SshCommand.EndpointIdsCollideIff` | src/serverpilot/importer.py:32-35 | Two destinations share an endpoint id exactly when ports and host slugs agree |
| `SshCommand.EndpointIdsCollide` | src/serverpilot/importer.py:32-35 | A dot and a hyphen between two labels give two accepted hosts with one endpoint id |
| `GpuOrdinals.Observe` | src/serverpilot/server_keepalive.py:788-809 | The row loop accepts exactly tables without a bad row or a repeated index, UUID or bus id, and collects every GPU |
| `GpuOrdinals.BusIdReads` | src/serverpilot/collector.py:57-69 | A bus id written as domain, bus, device and function is read as those four numbers |
| `GpuOrdinals.BusIdIff` | src/serverpilot/collector.py:57-69 | A text is a bus id exactly when it is written as a domain of four to eight hexadecimal digits, bus, device and function, and it is read as their numbers |
| `GpuOrdinals.PaddedDomain` | src/serverpilot/collector.py:57-69 | A domain written with more leading zeros is the same domain |
| `GpuOrdinals.RepeatsIffClash` | src/serverpilot/collector.py:523-527 | The three seen-sets find exactly the clashes with an earlier row |
| `GpuOrdinals.SortIsSorted` | src/serverpilot/collector.py:549-552 | Sorting on the distinct bus keys keeps the GPUs and puts them in strictly increasing order, so no comparison goes past the key |
| `GpuOrdinals.SameOrdinals` | src/serverpilot/server_collector.py:261-264 | Ordinals depend on which GPUs were seen, not on row order or reader |
| `GpuOrdinals.OrdinalIsRank` | src/serverpilot/collector.py:549-552 | A GPU's ordinal is the number of GPUs with a smaller PCI (domain, bus, device, function) |
| `GpuOrdinals.OrdinalsEnumerate` | src/serverpilot/server_keepalive.py:812-816 | The ordinals are exactly 0 to n - 1 and grow with the bus id |
| `GpuOrdinals.AcceptedReadingsAgree` | src/serverpilot/server_collector.py:206-264 | Two accepted readings that extracted the same GPUs, in any row order, give every UUID the same ordinal |
| `GpuOrdinals.HelperReads` | src/serverpilot/server_keepalive.py:793-803 | The line printed for a GPU gives the helper its index, UUID and bus id |
| `GpuOrdinals.CollectorReads` | src/serverpilot/collector.py:502-522 | The row printed for the same GPU gives both collectors the same UUID and bus id, or is refused for a missing name or number |
| `GpuOrdinals.SameMachineSameOrdinals` | src/serverpilot/server_collector.py:206-264 | Any two accepted readings of what is printed of one machine's GPUs, in any orders, give every UUID the same ordinal |
| `GpuOrdinals.ReadMachine` | src/serverpilot/server_keepalive.py:785-816 | The helper and the two collectors on one machine, from the printed lines and rows in any orders: the helper's table has every UUID at its place in either collector's list, the two lists are equal, and the table names exactly the machine's GPUs |
| `GpuOrdinals.ResolveGpuOrdinals` | src/serverpilot/server_keepalive.py:785-816 | The helper's table holds exactly the ordinals of the observed GPUs, or is refused |
| `GpuOrdinals.ParseGpuCsv` | src/serverpilot/collector.py:495-552 | The collectors list the observed GPUs in ordinal order, or refuse |
| `Planner.SelectSmallestUsefulPlan` | src/serverpilot/planner.py:65-128 | Refused exactly for bad thresholds or a bad frontier, naming the first failed check; else the end of the longest prefix of qualifying expansions, with the decisions and at most one rejection |
| `Planner.CheckFrontier` | src/serverpilot/planner.py:85-97 | The checks accept only frontiers of valid, uniquely named, growing candidates |
| `Planner.StopIsUnique` | src/serverpilot/planner.py:99-128 | One frontier and one pair of thresholds have one answer |
| `Planner.StricterStopsSooner` | src/serverpilot/planner.py:103-106 | Stricter thresholds never select a later plan |
| `Planner.StopsForGood` | src/serverpilot/planner.py:117-127 | What follows the first rejected expansion has no say |
| `Planner.SelectionIsBounded` | src/serverpilot/planner.py:99-128 | After k expansions the remaining time is at most first (1 - f)^k and at most first - k s, so k is bounded by first / s |
| `Planner.RemainingShrinks` | src/serverpilot/planner.py:103-107 | Both bounds hold after every accepted expansion |
| `Planner.FrontierGrows` | src/serverpilot/planner.py:86-97 | Checking neighbours is enough: sizes are componentwise monotone and distinct for every pair |
| `Planner.FrontierIff` | src/serverpilot/planner.py:28-97 | The checks of neighbours accept exactly the lists of sound contracts in which every later one is larger than every earlier one and has another name |
| `Planner.QualifiesIff` | src/serverpilot/planner.py:103-107 | An expansion qualifies exactly when the remaining time is shorter by the seconds and by the fraction |
| `ResourceUsage.MakeResourceUsageGroups` | desktop/ResourceUsageDashboard.swift:1112-1202 | The groups are exactly the visible buckets of the counted records, one for each key, and add up to what the fleet has assigned and running |
| `ResourceUsage.SameGroupIff` | desktop/ResourceUsageDashboard.swift:1123-1135 | Two records share a group exactly when their owners agree in the scope, unless one project name continues the other after a separator |
| `ResourceUsage.TaskKeysSeparateIff` | desktop/ResourceUsageDashboard.swift:1133-1133 | The tasks of some projects are kept apart, whatever they are called, exactly when no project name continues another one after a separator |
| `ResourceUsage.GroupHolds` | desktop/ResourceUsageDashboard.swift:1137-1177 | Each record is in the group of its key as often as in the snapshot, and in no other |
| `ResourceUsage.CountedIff` | desktop/ResourceUsageDashboard.swift:1114-1164 | A lease or a request is counted exactly when no claim stands for it |
| `ResourceUsage.LeaseGpusCountOnce` | desktop/ResourceUsageDashboard.swift:164-195 | Every GPU of a counted lease is in the fleet totals once, assigned or running, and no claim is counted as both |
| `ResourceUsage.Conserved` | desktop/ResourceUsageDashboard.swift:1117-1178 | Every record enters exactly one bucket, so the buckets share out the whole of any quantity |
| `ResourceUsage.VisibleIsEnough` | desktop/ResourceUsageDashboard.swift:1195-1195 | The groups the filter drops have nothing assigned and nothing running |
| `ResourceUsage.GroupsShareTheFleet` | desktop/ResourceUsageDashboard.swift:155-204 | Assigned and running quantities summed over the visible groups are the fleet totals, for every snapshot and scope |
| `ResourceUsage.RequestedBalance` | desktop/ResourceUsageDashboard.swift:104-113 | Requested quantities balance only with those of the dropped groups and of closed requests |
| `ResourceUsage.RequestedSharedIff` | desktop/ResourceUsageDashboard.swift:165-204 | The visible groups show the fleet's requested quantities exactly when the dropped groups ask for what the closed requests add |
| `ResourceUsage.PendingClaimIsHidden` | desktop/ResourceUsageDashboard.swift:129-131 | A lone pending claim is in the fleet total and in no visible group |
| `RoutineStatus.RoutineGpuStatus` | src/serverpilot/mcp_server.py:532-629 | Refused exactly for an invalid public status; otherwise rows, busy rows, servers and windows are the specified ones, and the strict pairing never fails |
| `RoutineStatus.RowsTell` | src/serverpilot/mcp_server.py:551-602 | The rows and the busy rows are exactly what some record tells, field by field, and every record is told |
| `RoutineStatus.WindowReads` | src/serverpilot/mcp_server.py:119-144 | A written window is read back with every part under its own name, and what is read always has a known part |
| `RoutineStatus.SharedIff` | src/serverpilot/mcp_server.py:147-161 | A server has a shared window exactly when some GPU was observed in it and every observed GPU was |
| `RoutineStatus.RecordsSplit` | src/serverpilot/mcp_server.py:551-602 | Every record is in exactly one of the two lists |
| `RoutineStatus.ServersCover` | src/serverpilot/mcp_server.py:547-625 | The servers are listed once each and cover every row and every busy row |
| `RoutineStatus.ReaderFinds` | src/serverpilot/mcp_server.py:617-624 | A reader finds a row's own window, or its server's shared one when the row was observed in none |
| `RoutineStatus.ObservedWindowsComeBack` | src/serverpilot/mcp_server.py:617-624 | Every observed window comes back from the row or from its server |
| `RoutineStatus.MissingWindowIff` | src/serverpilot/mcp_server.py:147-161 | A row without a window is read as having one exactly when the other rows of its server all share it |
| `RoutineStatus.UnobservedRowHasWindow` | src/serverpilot/mcp_server.py:147-161 | Two rows of one server, one of them observed in no window: its reader finds the window of the other |
| `RoutineStatus.WindowHasTelemetry` | src/serverpilot/mcp_server.py:584-590 | A row with a window has telemetry to keep an override in |
| `LineSeries.DrawLine` | desktop/ServerPilot.swift:2658-2678 | The loop plots the valued samples in order, each in the segment reached with it |
| `LineSeries.LineIsFaithful` | desktop/ServerPilot.swift:2658-2678 | Each valued sample is plotted once, in order, and two points share a segment exactly when every sample between has a value and no step between exceeds the threshold |
| `LineSeries.SegmentsAgree` | desktop/ServerPilot.swift:2664-2675 | Segment numbers agree exactly for connected samples |
| `LineSeries.MedianHalves` | desktop/ServerPilot.swift:2707-2710 | At most half of the steps are longer than the median and at most half are shorter |
| `LineSeries.GapThresholdIff` | desktop/ServerPilot.swift:2704-2711 | There is a threshold exactly when two steps are positive, and it is two and a half times the middle of the steps in increasing order, or of the mean of the two middle ones |
| `LineSeries.GapsAreMinority` | desktop/ServerPilot.swift:2699-2711 | At most half of the positive steps are ever reported as gaps |
| `LineSeries.Nearest` | desktop/ServerPilot.swift:2466-2486 | The binary search selects the first of the nearest items |
| `BoundedStream.ReadBoundedStream` | src/serverpilot/adapters.py:237-259 | For every chunking, the kept bytes are the front of the stream and the flag says whether there were more |
| `BoundedStream.ReadBothCuts` | src/serverpilot/adapters.py:237-259 | Two cuts of the same bytes keep the same bytes and raise the same flag; untruncated equal results come from equal bytes |
| `BoundedStream.ReadCutChunk` | src/serverpilot/adapters.py:252-258 | Cutting one chunk in two changes nothing that is kept or flagged |

## Left out

- The broker service and its database: its calls are external steps that may succeed or fail in any way.
- SSH, `nvidia-smi`, the CUDA worker, launchd, HTTP routing, templates, sessions, views, Slurm scripts and configuration.
- `/proc` reads of a running process are taken to succeed, and (boot, PID, start ticks) to name one instance.
- Signals sent through the `Popen` handle of a just-started child whose identity was not captured.
- Processes.TorchSubprocessProvider.Start: the wait for the worker's READY is one step that may fail, the environment beyond the CUDA ordinal is not modelled, and the cache of the ordinals is one fixed map.
- The thread pool of `_enable`: starts are submitted one after the other, though each is interleaved with the rest of the host and may fail or be killed.
- Power loss: a rename is atomic and durable, and `fsync` is a step that may fail.
- Json.ReadOfPrint: covers no floating-point numbers and no lone surrogates, and the text is characters, not UTF-8 bytes.
- The attestation messages of the protocol, the adapter's exact attestation check and the helper probe.
- Handoff.NoDeadlock: models no cancellation of a waiting task, since the acquiring loop stands before the `try`.
- Handoff.ClaimComesLast: takes the planned endpoints to be among the locked ones, as the service plans over the endpoints the caller has locked.
- Handoff: the collector loop's skip of an endpoint whose lock is held, which only takes fewer steps.
- ReconcileStops.StopPhase: the start and recovery phases before it appear only as steps of `Handoff`.
- BodyLimit.RequestBodyLimitMiddleware.Call: the reading of a number from a header's bytes is a parameter, and the limit is not negative.
- RateLimiting.RateLimiter.Check: time is a real number passed in.
- PolicyMerge: `install`, which reads and replaces the file.
- SshCommand.ShowOfParse: an octet with a leading zero is refused, as Python's `ipaddress` has done since 3.9.5.
- SshCommand: the import of whole server files, which fills a table from many lines.
- GpuOrdinals.HelperReads: an index of decimal digits in ASCII; other Unicode digits are not modelled.
- GpuOrdinals.ReadMachine: the rows are given as columns; the texts of columns other than the UUID and the bus id are left open.
- GpuOrdinals.CollectorReads: the collectors' reading of numbers from text is a parameter, as they read them differently.
- Splitting CSV text into rows and columns, and the telemetry columns that play no part in ordinals.
- Planner: floating-point rounding; cores and fractions are exact reals.
- ResourceUsage.MakeResourceUsageGroups: the order of the groups and of the records inside them, the counts of projects, agents and tasks, the normalisation of task names, and integer overflow.
- RoutineStatus.RoutineGpuStatus: rows are edited by their place in the list instead of through shared references, and the telemetry fields that are only copied are one payload.
- LineSeries.DrawLine: identifiers of points and series; times are exact reals.
- BoundedStream.ReadBoundedStream: chunks are given, non-empty, up to the end of the stream.
