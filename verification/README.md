# Swarm orchestration: verified models

Dafny models of the stateful cores of the swarm orchestration repository, with proofs of what they keep over
every input, run or interleaving. `dafny verify dfyconfig.toml` checks everything.

| file | what it models |
|---|---|
| `EventBus.dfy` | emit, subscribe, close and get of the event store as an interleaved transition system with an append log |
| `EventStore.dfy` | the `EventStore` and `Subscriber` objects, each method a run of that system |
| `PromptQueue.dfy` | the prompt queue: a set and a bounded deque against "scan the last N accepted ids", and the FIFO consumer |
| `Watchdog.dfy` | the idle watchdog of an agent session, over real time |
| `SandboxBridge.dfy` | create, materialize and release of a session's sandbox |
| `AcpHost.dfy` | one agent session, with a result, an exception or a cancellation at every await |
| `SessionOutcome.dfy` | what a session comes to, read off its awaits one after another |
| `WatchedSession.dfy` | a session together with its watchdog's trace |
| `SandboxLifecycle.dfy` | sandbox rows against Docker containers under arbitrary store and Docker failures |
| `EventLog.dfy` | the global event file pair: rotation, restarts, and a reader racing both |
| `TraceRetention.dfy` | run directories: pruning, and which file an event goes to |
| `RepoNames.dfy` | letter suffixes as bijective base-26 numerals |
| `StripModel.dfy` | the JSONC depth lexer and the two-pass removal of top-level model entries |
| `BraceLexer.dfy` | what the lexer and the line tests of that removal mean, said of the text |
| `CommaHygiene.dfy` | which dangling commas that removal repairs and which it leaves |
| `ImportLabels.dfy` | the label reconcile: plan, apply, plan again |
| `SseFrames.dfy` | the SSE printer against a parser of section 9.2.6 of the WHATWG HTML Living Standard |
| `Sequences.dfy`, `Texts.dfy` | shared vocabulary |

Objects that change in place are classes; their methods are proved against a specification function or state
machine, and the promises are proved of that. A call whose result the program does not control (Docker, the
database, the file system, an await, the clock) takes its result from a parameter, so a statement about all
parameters covers every way it can go.

## Where the code does less than its documentation says

Each of these has the exact condition under which the promise holds, and most a concrete witness.

- "Full ring-buffer replay" (`src/webhook_receiver/app.py:11`) holds if and only if the ring has at most 500
  entries: the subscriber's queue holds 500, the ring 1000 by default (`EventBus.FullReplayIff`).
- The "monotonic id" (`src/webhook_receiver/app.py:13`) is drawn outside the lock: two concurrent emits can be
  appended in the other order (`EventBus.OvertakingWitness`). Ids ascend along the log if and only if no emit
  that drew first was appended after one that drew later (`EventBus.AscendingIffNoneOvertaken`); even then a
  slower fan-out can send a subscriber 2 before 1 (`EventBus.LatePutWitness`).
- "Within the last `dedup_capacity` deliveries" (`src/webhook_receiver/prompt_queue.py:70-73`): with a capacity of 0
  the set never evicts, so an accepted id is refused for ever (`PromptQueues.DocumentedRuleHoldsIff`).
- `prepare` means not to leak a container whose workspace never materialized
  (`src/webhook_receiver/sandbox_bridge.py:134-138`), but `except Exception` does not see a cancellation; that sandbox
  is left to the reaper (`AcpHost.CancelledMaterializeStrands`; `AcpHost.Strands` lists every way).
- A prompt that succeeded gets no `agent_finished` when the cleanup before it is cut short
  (`AcpHost.OneFinishedEvent`); a release that is itself cancelled emits no `sandbox_released` either
  (`AcpHost.CancelledReleaseIsSilent`).
- The docstring of `_resolve_prompt_race` says both that a prompt's exception is the run's failure and that a
  watchdog verdict wins over it; the code does the latter (`AcpHost.RaceHasOneHonestOutcome`).
- A container can outlive every row, and then stays for ever: the create call raised after making it, or its
  start failed and the cleanup had no effect, or it started and neither the Running nor the Faulted write had
  (`SandboxLifecycle.CreateKeepsCoverageIff`, `SandboxLifecycle.OrphanWitnesses`,
  `SandboxLifecycle.LeaksExactlyTheLost`).
- PowerShell's `-ne` folds case, so a description changed in case only is never written
  (`ImportLabels.CaseOnlyChangeWitness`); a label whose colour is missing or not six hex digits never
  converges, nor do two source labels of one name up to case that disagree
  (`ImportLabels.ReplanIsEmptyIff`); an empty source with `-DeleteMissing` deletes nothing
  (`ImportLabels.DeleteMissingKeysIff`).
- Stripping leaves a top-level entry behind if removing an entry with an unbalanced line lifts an inner key to
  depth 1 (`StripModel.UnbalancedEntryWitness`, `StripModel.StrippingIsCompleteIff`).
- "JSONC comma hygiene" (`scripts/strip-model-settings.ps1:32-34`): for every kept line of every file, a comma is the
  last code before it in the output if and only if the last kept line with code before it ends its code in one and
  is either not repaired, or repaired and still does (`CommaHygiene.CommaBeforeIff`; for the closer a line is
  repaired for `CommaHygiene.CommaBeforeCloserIff`, for every other closer `CommaHygiene.CommaBeforeOtherCloserIff`;
  for one line `CommaHygiene.DanglesAfterDropIff`). A dangling comma is not repaired when a comment line stands
  between the removed entry and the closer (`CommaHygiene.CommentBehindKeepsComma`) or before the entry
  (`CommaHygiene.CommentLineKeepsComma`); the repair misses it when the comment on its line ends in a comma, holds
  a double quote, or holds a comma before another `//` (`CommaHygiene.HarmfulCommentKeepsComma`,
  `CommaHygiene.HarmfulComments`), and leaves another where there are two (`CommaHygiene.TwoCommasKeepOne`).
- "The file pair stays bounded" (`src/webhook_receiver/event_log.py:110-111`): a stat that fails on the first append of
  a process counts an existing file as empty, and the current file then grows past the limit by what was overlooked
  (`EventLogs.FailedStatWitness`); one append keeps the limit if and only if the file is below it or is known to
  have reached it (`EventLogs.AppendKeepsLimitIff`).

One condition is there for the printer alone: an event with an empty type would be read back as `message`, and an
id with a NUL be ignored (`SseFrames.RoundTripIff`). The program names its event types and builds its ids itself,
so neither input arises in it.

## Model

| member | source | states |
|---|---|---|
| `EventBus.StepKeepsInv` | src/webhook_receiver/event_store.py:86-138 | every atomic step of every thread (draw, append, one put, finish, subscribe, the two halves of close, get) keeps ring, log, list, fan-out, queue, order and coverage invariants |
| `EventBus.ReachableInv` | src/webhook_receiver/event_store.py:59-138 | those invariants hold after any interleaving of any number of threads from an empty store of any size |
| `EventBus.RingIsLogTail` | src/webhook_receiver/event_store.py:99-101 | in every interleaving the ring is the last `maxlen` entries of the append log |
| `EventBus.AtMostOnce` | src/webhook_receiver/event_store.py:86-138 | an event reaches a subscriber at most once; what was replayed precedes its registration, what was fanned out follows it; ids never repeat; a queue never exceeds 500 |
| `EventBus.QuiescentDelivery` | src/webhook_receiver/event_store.py:102-106 | with nothing in flight to it and nothing refused, an open subscriber has been given its replay and exactly every event appended since it registered, its queue being the part not yet taken |
| `EventBus.EmitterOrder` | src/webhook_receiver/event_store.py:93-106 | one emitter's events stand in that emitter's order in the ring and in every subscriber's deliveries |
| `EventBus.SerialisedRun` | src/webhook_receiver/event_store.py:93-106 | a run whose emits do not overlap keeps the log ascending and every subscriber's deliveries in log order |
| `EventBus.SerialisedEmitsAscend` | src/webhook_receiver/event_store.py:93-106 | then the ring and every queue carry strictly increasing ids |
| `EventBus.AscendingIffNoneOvertaken` | src/webhook_receiver/event_store.py:93-101 | over every run of any number of threads, ids ascend along the log if and only if no emit that drew its id first was appended after one that drew later |
| `EventBus.GivenInOrder` | src/webhook_receiver/event_store.py:93-137 | a subscriber's deliveries are, one for one and in order, what the run's puts and its replay gave it |
| `EventBus.DeliveriesAscendIff` | src/webhook_receiver/event_store.py:93-137 | over every run, the ids given to a subscriber ascend if and only if no two of its events were put, or replayed, in another order than they were drawn |
| `EventBus.UnovertakenDeliveries` | src/webhook_receiver/event_store.py:93-106 | when no emit was overtaken, they ascend if and only if events were put in the order of their appends |
| `EventBus.EmitOf` | src/webhook_receiver/event_store.py:93-101 | every log entry is one emit of the run: its type, data and thread are the draw's, its id counts the draws before, its position the appends before |
| `EventBus.LatePutWitness` | src/webhook_receiver/event_store.py:99-106 | with no emit overtaken a subscriber can still be sent ids 2, 1 |
| `EventBus.OvertakingWitness` | src/webhook_receiver/event_store.py:93-101 | two overlapping emits can leave ids 2, 1 in the ring |
| `EventBus.FullReplayIff` | src/webhook_receiver/event_store.py:130-137 | a new subscriber is given the first min(ring length, 500) ring entries, all of them if and only if there are at most 500 |
| `EventBus.PartialReplayWitness` | src/webhook_receiver/event_store.py:130-137 | with the default ring size a reachable store replays less than its ring |
| `EventBus.RemoveFrom` | src/webhook_receiver/event_store.py:46-51 | deregistering takes out that queue and no other |
| `EventBus.OpenUntilClosed` | src/webhook_receiver/event_store.py:30-51 | over every run a subscription is closed if and only if its subscriber was, after it opened, and registered until deregistered |
| `EventBus.RegisteredIff` | src/webhook_receiver/event_store.py:43-51 | the list holds exactly the subscriptions not yet deregistered |
| `EventStores.EmitIsARun` | src/webhook_receiver/event_store.py:86-106 | a whole emit, seen as one effect (one log entry, offered to exactly the queues registered at the append), is a run of the transition system |
| `EventStores.FanOutLeads` | src/webhook_receiver/event_store.py:102-106 | fanning out to any copied list is a run that offers the entry once to each listed queue and touches no other |
| `EventStores.RemoveAbsent` | src/webhook_receiver/event_store.py:47-50 | removing a queue that is not registered changes nothing |
| `EventStores.EventStore.Emit` | src/webhook_receiver/event_store.py:86-106 | the object after `emit` is exactly the one-effect emit of its state before, with all invariants kept |
| `EventStores.EventStore.FanOut` | src/webhook_receiver/event_store.py:102-106 | the loop offers the event to exactly the copied subscribers, a full queue swallowed |
| `EventStores.EventStore.AppendAndSnapshot` | src/webhook_receiver/event_store.py:99-101 | ring append and subscriber copy are one step |
| `EventStores.EventStore.Recent` | src/webhook_receiver/event_store.py:115-121 | the newest `limit` events, oldest first; none for a limit of 0 or less |
| `EventStores.EventStore.Subscribe` | src/webhook_receiver/event_store.py:123-138 | the new queue is open and holds the first min(ring length, 500) ring entries, replay and registration being one step |
| `EventStores.EventStore.NextItem` | src/webhook_receiver/event_store.py:35-41 | a closed subscriber stops, an empty queue gives a keepalive, else the oldest item is taken; nothing is closed by it |
| `EventStores.EventStore.Close` | src/webhook_receiver/event_store.py:43-50 | idempotent; afterwards that subscriber, and no other, is closed, and its queue registered no more |
| `PromptQueues.RunKeepsInv` | src/webhook_receiver/prompt_queue.py:88-163 | over every run two acceptances of one delivery id have at least `capacity` other acceptances between them, and what was taken is accounted for |
| `PromptQueues.EvictionKeepsSetInSync` | src/webhook_receiver/prompt_queue.py:97-101 | discarding the deque's head before the push keeps the set equal to the deque's contents |
| `PromptQueues.AcceptRefines` | src/webhook_receiver/prompt_queue.py:88-103 | the set test agrees with scanning the last N accepted ids, and an accepted offer moves set, deque and FIFO to what the scan rule says |
| `PromptQueues.DocumentedRuleHoldsIff` | src/webhook_receiver/prompt_queue.py:70-101 | the code's rule is the documented one unless the capacity is 0 and the id was accepted before |
| `PromptQueues.EventsFollowOutcomes` | src/webhook_receiver/prompt_queue.py:118-163 | one `prompt_consumed` per uncancelled execution, in acceptance order, reporting that execution's own outcome |
| `PromptQueues.EventsTellOutcomes` | src/webhook_receiver/prompt_queue.py:136-161 | field by field over every run: ok is false exactly for a failed host run, with that envelope's ids and that error; else the event is that envelope's, with the session of a completed run |
| `PromptQueues.DuplicateMeans` | src/webhook_receiver/prompt_queue.py:88-103 | an id is a duplicate if and only if one of the last `capacity` accepted envelopes carries it, any of them at capacity 0 |
| `PromptQueues.AcceptancesAreSpaced` | src/webhook_receiver/prompt_queue.py:88-103 | over every run two accepted envelopes with one delivery id have at least `capacity` others between them |
| `PromptQueues.Conservation` | src/webhook_receiver/prompt_queue.py:105-163 | accepted = reported ++ (at most one in flight or abandoned) ++ pending, in order, after any run |
| `PromptQueues.OnlyCancellationStops` | src/webhook_receiver/prompt_queue.py:118-163 | the consumer stops if and only if a cancellation struck, whatever hosts fail |
| `PromptQueues.PromptQueue.Enqueue` | src/webhook_receiver/prompt_queue.py:88-103 | returns true exactly when the id is not among the last `capacity` accepted ids, and then appends the envelope |
| `PromptQueues.PromptQueue.Take` | src/webhook_receiver/prompt_queue.py:119 | hands out the accepted envelopes in acceptance order |
| `PromptQueues.PromptQueue.Finish` | src/webhook_receiver/prompt_queue.py:120-163 | a failed run adds one ok=False event with the envelope's ids and the error, a completed one its session, a cancelled one nothing and stops |
| `Watchdog.PollInterval` | src/webhook_receiver/acp_host.py:641 | the smallest of the idle limit, five seconds, and a positive ceiling |
| `Watchdog.IdleWatchdog` | src/webhook_receiver/acp_host.py:642-655 | beside the tasks that store heartbeats, the loop ends at the first poll at which a limit is reached, naming the idle limit when both are; a ceiling of 0 never fires |
| `Watchdog.LastActivityIsLatest` | src/webhook_receiver/acp_host.py:458-523 | at any point of an ordered trace the stored clock is the newest heartbeat, or the arming |
| `Watchdog.IdleMeansSilence` | src/webhook_receiver/acp_host.py:644-650 | an idle verdict if and only if neither a heartbeat of the trace nor the arming came in the last `idle` seconds |
| `Watchdog.LiveRunIsNeverIdleKilled` | src/webhook_receiver/acp_host.py:619-650 | a trace whose neighbouring heartbeats, and last heartbeat and end, are less than `idle` apart gets no idle verdict at any poll |
| `Watchdog.LiveRunEndsAtTheCeiling` | src/webhook_receiver/acp_host.py:651-655 | and is ended at all only by a ceiling that is set, not before it has passed since the start |
| `Watchdog.SilentRunIsKilledInTime` | src/webhook_receiver/acp_host.py:641-655 | with sleeps late by at most d, in every trace silent from a on either a poll ended the run before a + idle + poll + d or that time has not come |
| `Watchdog.CeilingEndsEveryRun` | src/webhook_receiver/acp_host.py:641-655 | with a positive ceiling, in every trace either a poll ended the run before started + ceiling + poll + d or that time has not come |
| `SandboxBridge.Materialize` | src/webhook_receiver/sandbox_bridge.py:201-215 | the loop is left at the first round that fails, is cancelled, finds the markers or is past the deadline: ready, cancelled (in the copy or the sleep) or with an exception, exactly |
| `SandboxBridge.OutcomeByRounds` | src/webhook_receiver/sandbox_bridge.py:201-215 | by what the rounds did: all before the last copied, found no markers, were before started + timeout and slept; the loop is not given up before that time unless a copy or a sleep failed |
| `SandboxBridge.RoundsAreBounded` | src/webhook_receiver/sandbox_bridge.py:203-215 | with two-second sleeps the loop never passes round timeout / 2 + 1, so it always ends |
| `SandboxBridge.Prepare` | src/webhook_receiver/sandbox_bridge.py:127-152 | over the rounds of the materialize loop: a DELETE exactly when it raised after a create, the event exactly when everything went through, a cancellation passed on exactly as listed |
| `SandboxBridge.Release` | src/webhook_receiver/sandbox_bridge.py:154-171 | one DELETE; one event, which tells whether it worked, unless the DELETE was cancelled: then none, and the cancellation goes on |
| `AcpHost.RaceHasOneHonestOutcome` | src/webhook_receiver/acp_host.py:128-169 | a prompt's result beats everything, a watchdog verdict beats the prompt's error, and no verdict is left exactly for a cancelled prompt with the watchdog pending |
| `AcpHost.Session` | src/webhook_receiver/acp_host.py:464-548 | the `try` block succeeds exactly when the prompt won the race and the spawn context closed cleanly, and is left by a cancellation exactly as listed |
| `AcpHost.Cleanup` | src/webhook_receiver/acp_host.py:569-599 | a spawned process that has not exited is killed and the sandbox gets one DELETE, unless a named earlier step cuts the cleanup short; left by a cancellation or an exception exactly as listed |
| `AcpHost.Workspace` | src/webhook_receiver/acp_host.py:396-414 | when the `try` block is reached, with which sandbox, and which DELETE was already attempted |
| `AcpHost.Run` | src/webhook_receiver/acp_host.py:396-617 | for every schedule the exact event stream, the exact DELETEs, the fate of the process, and whether the run completed, failed or was cancelled |
| `WatchedSessions.LiveSessionIsNotKilled` | src/webhook_receiver/acp_host.py:523-548 | a session without a gap of `idle` between heartbeats ends on a watchdog verdict only at a ceiling that was set and reached |
| `WatchedSessions.SilentSessionEnds` | src/webhook_receiver/acp_host.py:523-568 | a session silent past the latency bound has a watchdog verdict by then and, unanswered and not cancelled on the way out, exactly one `agent_finished`, with ok=False |
| `AcpHost.OneFinishedEvent` | src/webhook_receiver/acp_host.py:549-608 | once the `try` is entered exactly one `agent_finished`, none if cancelled inside; ok=True exactly when the prompt won and the cleanup completed |
| `AcpHost.StartedOnceAndFirst` | src/webhook_receiver/acp_host.py:513-518 | `agent_session_started` at most once, before any `agent_finished` |
| `AcpHost.OneDeleteUnlessStranded` | src/webhook_receiver/sandbox_bridge.py:127-171 | over every schedule a created sandbox gets exactly one DELETE, and no other id any, unless the schedule is in the exact list of those that strand it: then none |
| `AcpHost.PairingUnderHypotheses` | src/webhook_receiver/sandbox_bridge.py:127-171 | with origin removal and deny config not failing and the cleanup reaching the release, the created id is deleted exactly once, or, if materializing was cancelled, never |
| `AcpHost.CancelledMaterializeStrands` | src/webhook_receiver/sandbox_bridge.py:132-138 | that case exists, with everything else going well: no DELETE at all |
| `AcpHost.CancelledReleaseIsSilent` | src/webhook_receiver/acp_host.py:589-608 | a cancelled release has its DELETE attempted and emits neither `sandbox_released` nor `agent_finished ok=True` |
| `SessionOutcomes.OutcomeByAwaits` | src/webhook_receiver/acp_host.py:396-617 | the outcome of every schedule from its awaits in order: the first before the `try` that does not return decides, then the cleanup, then the `try`, where leaving the spawn context has the last word |
| `SessionOutcomes.EventsByAwaits` | src/webhook_receiver/acp_host.py:464-608 | for every schedule and event, whether it is emitted and with which ids, by the first await that does not return: ok=False exactly when the `try` was left by an exception, ok=True when it and the cleanup were fine |
| `SessionOutcomes.CancelledSessionIsSilent` | src/webhook_receiver/acp_host.py:549-550 | if the first of spawn, initialize, new session and prompt that does not return is cancelled, the spawn context being left without error, no `agent_finished` occurs, and the run ends cancelled when the cleanup goes through |
| `SessionOutcomes.SilentSessionWasCancelled` | src/webhook_receiver/acp_host.py:549-568 | and only then: an entered session whose cleanup completed is silent about its end only when it was cancelled there or in leaving the context |
| `SessionOutcomes.DeletesByAwaits` | src/webhook_receiver/sandbox_bridge.py:127-171 | the DELETEs of every schedule, by the same awaits |
| `SessionOutcomes.EventsInOrder` | src/webhook_receiver/acp_host.py:464-608 | provisioned, started, failed, released, succeeded: in this order, each at most once |
| `SandboxLifecycle.CreateKeepsCoverageIff` | src/SwarmSandbox/SwarmSandbox.Api/Services/SandboxManager.cs:15-46 | whether its calls fail before or after taking effect, a create keeps every live container named by an unremoved row with an expiry if and only if it does not orphan its own; no other state is persisted |
| `SandboxLifecycle.CreateKeepsCoverage` | src/SwarmSandbox/SwarmSandbox.Api/Services/SandboxManager.cs:15-46 | and it never costs another container its row |
| `SandboxLifecycle.OrphanWitnesses` | src/SwarmSandbox/SwarmSandbox.Api/Provisioning/DockerSandboxProvisioner.cs:68-92 | a create call that raises after making the container orphans it, and so do two refused row writes |
| `SandboxLifecycle.CreateNamesItsOwnIff` | src/SwarmSandbox/SwarmSandbox.Api/Services/SandboxManager.cs:29-43 | the container a create leaves behind is named by a row exactly when it was started and one of its two writes took effect |
| `SandboxLifecycle.NamedIsAddressed` | src/SwarmSandbox/SwarmSandbox.Api/Services/SandboxManager.cs:118-121 | the identity of a row that names a container addresses that container and no other |
| `SandboxLifecycle.DeleteKeepsCoverage` | src/SwarmSandbox/SwarmSandbox.Api/Services/SandboxManager.cs:95-107 | a delete keeps coverage, whichever of its calls fails |
| `SandboxLifecycle.ReapKeepsCoverage` | src/SwarmSandbox/SwarmSandbox.Api/Services/SandboxReaper.cs:55-80 | so does a reap pass under any set of failing calls |
| `SandboxLifecycle.ReapRowByRow` | src/SwarmSandbox/SwarmSandbox.Api/Services/SandboxReaper.cs:62-79 | after a pass a selected row is Removed with no container under its identity, or unchanged and selected again; other rows are untouched |
| `SandboxLifecycle.UnexpiredRowIsSpared` | src/SwarmSandbox/SwarmSandbox.Api/Services/EfSandboxStore.cs:28-37 | a row whose expiry lies after the clock is left exactly as it was by every pass |
| `SandboxLifecycle.UnexpiredKeepsContainer` | src/SwarmSandbox/SwarmSandbox.Api/Services/EfSandboxStore.cs:28-37 | and keeps its container, when rows claim distinct containers |
| `SandboxLifecycle.UnexpiredSurviveHistories` | src/SwarmSandbox/SwarmSandbox.Api/Services/EfSandboxStore.cs:28-37 | after every history with fresh draws too |
| `SandboxLifecycle.ExpiredRowIsReaped` | src/SwarmSandbox/SwarmSandbox.Api/Services/SandboxReaper.cs:61-79 | a Creating, Running or Faulted row whose time has come is Removed and its container gone when its own calls succeed, whatever becomes of other rows |
| `SandboxLifecycle.FailedStopLeavesAlone` | src/SwarmSandbox/SwarmSandbox.Api/Services/SandboxReaper.cs:69-78 | a failed stop leaves the row and its container to the next pass |
| `SandboxLifecycle.CleanPassIsExact` | src/SwarmSandbox/SwarmSandbox.Api/Services/SandboxReaper.cs:55-80 | a pass without failures removes exactly the Creating, Running and Faulted rows with an expiry at or before the clock, and exactly their containers |
| `SandboxLifecycle.ReapSparesUnexpired` | src/SwarmSandbox/SwarmSandbox.Api/Services/SandboxReaper.cs:62-79 | a pass takes no container from a row it does not select, when rows claim distinct containers |
| `SandboxLifecycle.UnexpiredKeepTheirContainers` | src/SwarmSandbox/SwarmSandbox.Api/Services/SandboxReaper.cs:55-80 | and that is so after every history whose creates drew fresh names and Docker ids |
| `SandboxLifecycle.FaultFreeReapConverges` | src/SwarmSandbox/SwarmSandbox.Api/Services/SandboxReaper.cs:55-80 | a pass without failures leaves the expiry query empty, and none but lost containers once every row has expired |
| `SandboxLifecycle.HistoryKeepsCoverage` | src/SwarmSandbox/SwarmSandbox.Api/Services/SandboxManager.cs:15-107 | over every history of creates, deletes and reaps, whatever calls fail, each container is named by a row the expiry query will select or was orphaned by its own create |
| `SandboxLifecycle.NothingElseLeaks` | src/SwarmSandbox/SwarmSandbox.Api/Services/EfSandboxStore.cs:28-37 | whatever failed along the way, one clean pass after the last expiry leaves only Removed rows and no container but the orphaned ones |
| `SandboxLifecycle.LostStay` | src/SwarmSandbox/SwarmSandbox.Api/Services/SandboxManager.cs:95-121 | an orphaned container stays: no later delete or reap addresses it, when names and ids are drawn afresh |
| `SandboxLifecycle.LeaksExactlyTheLost` | src/SwarmSandbox/SwarmSandbox.Api/Services/SandboxReaper.cs:55-80 | so what is left is exactly the orphaned containers, and nothing leaks if and only if there are none |
| `SandboxLifecycle.ClaimsStayDistinct` | src/SwarmSandbox/SwarmSandbox.Api/Provisioning/DockerSandboxProvisioner.cs:44-48 | no operation makes two rows claim one container |
| `SandboxLifecycle.SandboxService.ProvisionContainer` | src/SwarmSandbox/SwarmSandbox.Api/Provisioning/DockerSandboxProvisioner.cs:42-98 | a container stays exactly when it was made and the start did not fail, or its cleanup had no effect, or the create call itself raised |
| `SandboxLifecycle.SandboxService.CreateSandbox` | src/SwarmSandbox/SwarmSandbox.Api/Services/SandboxManager.cs:15-46 | a created sandbox has a Running row with its container and expiry; a failed one a Faulted row when that write took effect; no other row or container changes; the answer carries the inserted row's id |
| `SandboxLifecycle.SandboxService.DeleteSandbox` | src/SwarmSandbox/SwarmSandbox.Api/Services/SandboxManager.cs:95-107 | false for an unknown id; true exactly when both calls succeed, the row then being Removed with nothing under its identity; a refused removal changes nothing; no other row or container ever changes |
| `SandboxLifecycle.SandboxService.RemoveContainer` | src/SwarmSandbox/SwarmSandbox.Api/Provisioning/DockerSandboxProvisioner.cs:157-170 | unless refused, nothing answers to the identity afterwards, not-found included; every other container stays as it was |
| `SandboxLifecycle.SandboxService.ReapOnce` | src/SwarmSandbox/SwarmSandbox.Api/Services/SandboxReaper.cs:55-80 | the row-by-row loop, in any query order, has the effect of all rows at once |
| `EventLogs.StepKeepsInv` | src/webhook_receiver/event_log.py:103-124 | every append and restart, with stat, rename and write failing or not, keeps the pair a tail of all lines, and the cached size true but for what a failed stat overlooked |
| `EventLogs.PairIsSuffix` | src/webhook_receiver/event_log.py:103-124 | across restarts previous ++ current is a suffix of the lines whose writes succeeded, all of them before the first rotation, at least `max_bytes` afterwards |
| `EventLogs.AllIsAppended` | src/webhook_receiver/event_log.py:103-124 | nothing else is ever written, and nothing twice |
| `EventLogs.SizeIsBytes` | src/webhook_receiver/event_log.py:124 | sizes are those of the lines with their line feeds |
| `EventLogs.CurrentFileIsBounded` | src/webhook_receiver/event_log.py:104-118 | with renames succeeding the current file without its last line is below `max_bytes` plus what failed stats overlooked since it began |
| `EventLogs.NoSlackWithoutFailedStat` | src/webhook_receiver/event_log.py:104-118 | where no stat failed, that is nothing: the cached size is the real size, and the file without its last line is below `max_bytes` |
| `EventLogs.AppendKeepsLimitIff` | src/webhook_receiver/event_log.py:103-124 | an append, its rename and write succeeding, leaves the file within `max_bytes` plus one line if and only if it was below `max_bytes` or was known to have reached it |
| `EventLogs.FailedStatWitness` | src/webhook_receiver/event_log.py:104-108 | a stat that fails on a full file after a restart loses the limit |
| `EventLogs.ReaderNeverRepeats` | src/webhook_receiver/event_log.py:178-219 | a reader of the previous then the current file gets two non-overlapping stretches of the history in order, however many appends, rotations and restarts come between its reads |
| `EventLogs.QuietReaderIsComplete` | src/webhook_receiver/event_log.py:178-219 | with no rotation in between it gets exactly the retained suffix |
| `EventLogs.EventLog.Stat` | src/webhook_receiver/event_log.py:104-108 | the size of the file in bytes when the stat succeeds |
| `EventLogs.EventLog.RotateIfFull` | src/webhook_receiver/event_log.py:104-118 | a failed stat counts as 0; a file known to be full replaces the previous generation; a failed rename leaves the files as they are |
| `EventLogs.EventLog.AppendGlobal` | src/webhook_receiver/event_log.py:103-124 | one append takes the object exactly one step of the rotation machine |
| `TraceRetention.SortIsOldestFirst` | src/webhook_receiver/trace_log.py:92 | sorting by modification time puts the oldest first |
| `TraceRetention.SortByTime` | src/webhook_receiver/trace_log.py:92 | the sort is a permutation |
| `TraceRetention.EligibleExactly` | src/webhook_receiver/trace_log.py:83-87 | the siblings considered are exactly the entries named by 32 lower-case hex digits |
| `TraceRetention.EligibleIff` | src/webhook_receiver/trace_log.py:83-87 | eligible is a name of 32 characters among `0123456789abcdef` |
| `TraceRetention.StaleAreOldest` | src/webhook_receiver/trace_log.py:81-95 | what is spared of the eligible are `max(1, keep)` of them (or all), none older than any stale one |
| `TraceRetention.RetentionIsExact` | src/webhook_receiver/trace_log.py:74-99 | a prune leaves exactly the ineligible directories, the protected one, those whose removal fails, and the newest `max(1, keep)` eligible ones, contents unchanged |
| `TraceRetention.NewRunPrunes` | src/webhook_receiver/event_log.py:126-135 | making a run directory, by a trace or by a run's first event, keeps it and leaves at most `max(1, keep)` other removable ones |
| `TraceRetention.RunIdOf` | src/webhook_receiver/event_log.py:43-56 | the run id is the text of `run_id` when that is truthy, else of `id`, and only if it is a safe path segment |
| `TraceRetention.SegmentIff` | src/webhook_receiver/event_log.py:40 | a segment is 1 to 64 letters, digits, dots, underscores and dashes, a letter or digit first |
| `TraceRetention.EmptyRunIdGivesWay` | src/webhook_receiver/event_log.py:49-56 | an empty or falsy `run_id` gives way to `id`, a truthy one does not |
| `TraceRetention.AppendTouchesOneFile` | src/webhook_receiver/event_log.py:87-101 | an event's line goes to the end of exactly one file, which survives the prune it may trigger; no other surviving file changes |
| `TraceRetention.RoutingHolds` | src/webhook_receiver/event_log.py:87-135 | over every run each file is the order-preserving filter of the event stream by run id, since its directory was made |
| `TraceRetention.StreamIsAppended` | src/webhook_receiver/event_log.py:87-101 | that stream is the appended events, in order |
| `TraceRetention.TraceRoot.PruneRuns` | src/webhook_receiver/trace_log.py:74-99 | exactly the stale, unprotected directories whose removal succeeds disappear |
| `TraceRetention.TraceRoot.AppendRun` | src/webhook_receiver/event_log.py:126-135 | creating, writing and pruning have the effect of one routing step |
| `RepoNames.GetLetterSuffix` | scripts/repo-functions.ps1:30-46 | an error below 1, else the bijective base-26 numeral of the index |
| `RepoNames.DecodeEncode` | scripts/repo-functions.ps1:30-46 | decoding the suffix of n gives n |
| `RepoNames.EncodeDecode` | scripts/repo-functions.ps1:30-46 | every lower-case string is the suffix of the number it decodes to |
| `RepoNames.FirstSuffixes` | scripts/repo-functions.ps1:30-46 | 1 is `a`, 26 is `z`, 27 is `aa`, 703 is `aaa` |
| `RepoNames.SuffixesAscend` | scripts/repo-functions.ps1:30-46 | m < n if and only if the suffix of m is shorter, or as long and alphabetically earlier |
| `RepoNames.GetRepoNames` | scripts/repo-functions.ps1:48-67 | `Count` pairwise distinct names, with letters unless there is one only |
| `StripModel.GetBraceDelta` | scripts/strip-model-settings.ps1:165-183 | the loop computes the balance of its line |
| `BraceLexer.BalanceOfLine` | scripts/strip-model-settings.ps1:163-183 | that balance is the opening less the closing braces of the text: string literals, escapes included, a comment, and an open literal at the end count nothing |
| `BraceLexer.EveryLineDivides` | scripts/strip-model-settings.ps1:165-183 | every line divides into such text, literals and an end |
| `BraceLexer.DeltaOfEveryLine` | scripts/strip-model-settings.ps1:165-183 | so the balance of every line is that of its division |
| `BraceLexer.DepthIsTheSum` | scripts/strip-model-settings.ps1:196-206 | the depth at a line is the sum of the balances before it |
| `BraceLexer.EntryLineIff` | scripts/strip-model-settings.ps1:200-203 | an entry line is white space, `"model"` or `"small_model"` in any case, white space, a colon |
| `BraceLexer.CloserLineIff` | scripts/strip-model-settings.ps1:221 | a closer is white space and then a brace or a bracket that closes |
| `BraceLexer.BlankLineIff` | scripts/strip-model-settings.ps1:237 | a blank line is white space only |
| `BraceLexer.RepairedIff` | scripts/strip-model-settings.ps1:215-242 | a kept line is repaired if and only if a closer follows it after at least one entry and otherwise only blank lines |
| `BraceLexer.NestedObject` | scripts/strip-model-settings.ps1:186-252 | a file with a nested object before the entry loses the entry and the comma before it |
| `StripModel.CommaBeforeCommentIsNeutral` | scripts/strip-model-settings.ps1:227-233 | removing the comma before a quote-free comment never changes the balance, even with a slash before the comma or inside a literal |
| `StripModel.DropCommaIsNeutral` | scripts/strip-model-settings.ps1:222-234 | the comma repair never changes the balance of its line |
| `StripModel.DropCommaShape` | scripts/strip-model-settings.ps1:222-234 | the repair removes nothing, or one comma and trailing white space |
| `StripModel.CommaBeforeComment` | scripts/strip-model-settings.ps1:227 | the comma taken is the last one followed by nothing but a quote-free comment |
| `StripModel.DropCommaKeepsKey` | scripts/strip-model-settings.ps1:200-203 | the repair neither turns a line into an entry line nor stops one from being one |
| `StripModel.Classify` | scripts/strip-model-settings.ps1:196-206 | pass 1 marks exactly the `model` / `small_model` lines at depth 1 |
| `StripModel.OneLineFileIsLeftAlone` | scripts/strip-model-settings.ps1:196-211 | a file of one line is never changed, entries in it or not |
| `StripModel.RemoveKeyLines` | scripts/strip-model-settings.ps1:215-242 | pass 2, which repairs earlier output as it goes, writes exactly the unmarked lines, one repaired if and only if a closer follows it after blanks and a removed entry |
| `StripModel.StripConfig` | scripts/strip-model-settings.ps1:186-252 | a file without top-level entries is left alone, another is written as both passes say |
| `StripModel.OutputDepth` | scripts/strip-model-settings.ps1:196-242 | a surviving line stands at its old depth less the balance of the entries removed before it |
| `StripModel.SurvivorsInOrder` | scripts/strip-model-settings.ps1:215-242 | survivors are the original lines in order, each at most repaired |
| `StripModel.StrippingIsCompleteIff` | scripts/strip-model-settings.ps1:186-252 | a second pass finds nothing if and only if no other line of the file with the text of an entry moves to depth 1 |
| `StripModel.BalancedStripIsIdempotent` | scripts/strip-model-settings.ps1:186-252 | with entries of balance 0 every survivor keeps its depth, no entry is left, and stripping again changes nothing |
| `StripModel.UnbalancedEntryWitness` | scripts/strip-model-settings.ps1:196-206 | an entry that opens an object on its line leaves an inner entry at the top level |
| `CommaHygiene.CommaBeforeTheComment` | scripts/strip-model-settings.ps1:165-183 | cutting the comma in front of a quote-free comment leaves the lexer's comment where it is, but for a slash before the comma that joins it |
| `CommaHygiene.CodeAfterDrop` | scripts/strip-model-settings.ps1:222-234 | the repair takes exactly the comma that the code of a line ends in, when no comment keeps it away, and else leaves what the code ends in |
| `CommaHygiene.DanglesAfterDropIff` | scripts/strip-model-settings.ps1:222-234 | for every line: after the repair the code ends in a comma if and only if it did before and its comment keeps the repair away, or what is left ends in one again |
| `CommaHygiene.CommaBeforeIff` | scripts/strip-model-settings.ps1:186-252 | for every file and every kept line: a comma is the last code before it in the output if and only if the last kept line with code before it dangles and is not repaired, or is repaired and still dangles |
| `CommaHygiene.CommaBeforeCloserIff` | scripts/strip-model-settings.ps1:215-242 | for a closer right behind a removed run, blanks aside, the one repaired line is the last solid one before it |
| `CommaHygiene.CommaBeforeOtherCloserIff` | scripts/strip-model-settings.ps1:221-241 | before any other closer nothing is repaired: a comma is there if and only if the last kept line with code dangled |
| `CommaHygiene.CommentBehindKeepsComma` | scripts/strip-model-settings.ps1:237-241 | a comment line between the removed entry and the closer keeps the comma in the output |
| `CommaHygiene.HarmfulCommentKeepsComma` | scripts/strip-model-settings.ps1:222-233 | a comment with a quote, a comma at its end, or a comma before another comment start keeps the comma before it in the script's output |
| `CommaHygiene.HarmfulComments` | scripts/strip-model-settings.ps1:222-233 | each of the three does occur |
| `CommaHygiene.TwoCommasKeepOne` | scripts/strip-model-settings.ps1:222-226 | of two commas one stays in the output |
| `CommaHygiene.CommentLineKeepsComma` | scripts/strip-model-settings.ps1:222-234 | a whole-line comment before the removed entry keeps the comma above it in the output |
| `ImportLabels.AfterScript` | scripts/import-labels.ps1:141-230 | the target after the script, key by key, for every source: a name given twice takes its first accepted creation or its last accepted update |
| `ImportLabels.PerformSourcePlan` | scripts/import-labels.ps1:141-170 | performing the creates and updates in plan order gives each key its outcome and changes no key outside the source |
| `ImportLabels.PerformDeletePlan` | scripts/import-labels.ps1:172-185 | performing the deletions removes exactly the listed labels outside the source |
| `ImportLabels.SourceLabelsMatchIff` | scripts/import-labels.ps1:141-230 | a source label that no namesake contradicts is matched afterwards if and only if its normalised colour is six hex digits |
| `ImportLabels.AllMatchIff` | scripts/import-labels.ps1:141-230 | all named source labels are matched if and only if all colours are such and namesakes agree |
| `ImportLabels.ReplanIsEmptyIff` | scripts/import-labels.ps1:141-190 | planning again finds nothing if and only if every named source label has such a colour and namesakes agree |
| `ImportLabels.StaysWellFormed` | scripts/import-labels.ps1:200-230 | the target keeps one label per folded name and valid colours |
| `ImportLabels.ColorIsNormalized` | scripts/import-labels.ps1:132-139 | blanks around a colour, a `#` before it and its case are normalised away |
| `ImportLabels.MatchMeans` | scripts/import-labels.ps1:158-165 | a label matches exactly when it has the source's normalised colour and its description up to case |
| `ImportLabels.DeleteMissingKeysIff` | scripts/import-labels.ps1:94-185 | `-DeleteMissing` makes the key sets equal if and only if the source is empty along with the target, or each of its keys was there or is created with a colour the API accepts |
| `ImportLabels.OthersUntouched` | scripts/import-labels.ps1:172-185 | without it labels outside the source are unchanged |
| `ImportLabels.DescriptionWrittenIff` | scripts/import-labels.ps1:141-230 | after the script a target label has a source label's description if and only if its writer has, the first accepted creation or the last accepted update of that name, or the listed one where there is none |
| `ImportLabels.OwnDescriptionWrittenIff` | scripts/import-labels.ps1:163-230 | for a name given once: if and only if it agreed before, or the plan saw a difference (not one in case only) and the colour was accepted |
| `ImportLabels.CaseOnlyChangeWitness` | scripts/import-labels.ps1:165 | a change of case in a description plans no action |
| `ImportLabels.Repository.SourceNames` | scripts/import-labels.ps1:174-177 | the folded names of the named source labels |
| `ImportLabels.Repository.PlanSource` | scripts/import-labels.ps1:139-170 | the create and update loop computes the source plan |
| `ImportLabels.Repository.ComputePlan` | scripts/import-labels.ps1:94-185 | both loops over the index built from the listing compute the plan; an empty source plans nothing |
| `ImportLabels.Repository.Import` | scripts/import-labels.ps1:94-230 | the script takes the repository to the result of the plan |
| `SseFrames.ParseFrames` | src/webhook_receiver/app.py:103-108 | frames of clean items are read back as the items in order, keepalives vanishing, and leave the parser at rest |
| `SseFrames.ParserStaysClean` | src/webhook_receiver/app.py:103-108 | whatever text it is fed, the standard's interpretation dispatches only items without line breaks, NUL in the id, or an empty type |
| `SseFrames.RoundTripIff` | src/webhook_receiver/app.py:103-108 | the stream is read back exactly if and only if every item is clean |
| `SseFrames.FrameIsRead` | src/webhook_receiver/app.py:103-108 | how any frame without line breaks is read: an id with a NUL leaves the last id, an empty type is `message` |
| `SseFrames.FrameText` | src/webhook_receiver/app.py:105-108 | one frame and the keepalive as they go over the wire |
| `SseFrames.LineEnds` | src/webhook_receiver/app.py:103-108 | the interpretation ends lines at LF, CR or CRLF alike |
| `SseFrames.ThreeDataLines` | src/webhook_receiver/app.py:103-108 | and joins data lines by line feeds, as in the first example of the standard |
| `SseFrames.EmptyTypeWitness` | src/webhook_receiver/app.py:108 | an empty type, which the program never emits, would not be read back |

## Left out

Hypotheses the models make:

- Operations on one sandbox row do not overlap and are not cancelled: an update writes the whole row, so a stale delete or reap beside a create could erase the container identity.
- Docker addresses by full id or by name; its resolution of id prefixes is not modelled (row ids of 12 characters would be candidates).
- EF Core's change tracker after a failed save: a later save of the same scope may also write the earlier row.
- A file write appends its whole line or nothing; the reader's skipping of torn or foreign lines is not modelled.
- The httpx client's own open and close, process kill, and event emission inside a session do not raise.
- Cancellation inside `finally` strikes at its awaits only, each a field of the schedule.
- GitHub accepts a label request exactly when a colour it carries is six hex digits, and gives a new label without one a valid default colour.
- No run id is `events.jsonl` or `events.jsonl.1`; the program draws its run ids as uuid hex.
- Case folding and trimming are ASCII; JSON text is one line that decodes back.

Parts of the repository that have no model:

- The event sink, time stamps and boot prefix of `emit`: the prefix is constant in one process, so ids are their counter.
- `PromptInfo` fields that only pass through, `run_id` and error texts of events.
- Splitting and joining of file text and its CRLF handling, `-DryRun`, and the agent-frontmatter half of the strip script.
- `RunTrace` manifest and harness lines, `list_runs`, `read_run_events`: flat reads and writes beside the modelled routing.
- `GetStatusAsync`, `ListAsync`, `GetLogsAsync`, `TrySeedAsync` of the sandbox service.
- HTTP routing and signatures, gating filters, prompt templates, the tool policy, settings, redaction and secret patterns.
- The Blazor UI, Aspire host, compose and Caddy files, `gh` wrappers and validation scripts.

Members stated weaker than a reader might expect:

- SandboxBridge.RoundsAreBounded: counts rounds from the clock read after each copy; a copy that never returns is outside the loop's control.
- EventStores.EventStore.Emit: one thread's whole emit without other steps in between; interleaved emits are the transition system's.
- AcpHost.Run: awaits are taken one after another, so the watchdog's and the drainer's own steps appear through their results only.
- TraceRetention.RetentionIsExact: assumes the listing and the modification times can be read; an error there ends the prune before it removes anything.
- TraceRetention.RoutingHolds: assumes directories are made and lines written without a file system failure; removals may fail.
- TraceRetention.AppendTouchesOneFile: assumes no run is called `events.jsonl` or `events.jsonl.1`, which the segment rule admits and whose directory would collide with the global pair; the program's run ids are uuid hex.
- StripModel.Classify: marks whole lines; that these are the top-level entries of the text assumes each entry on a line of its own. One on the line that opens the object stays, and whatever else stands on an entry's line goes with it.
- SandboxLifecycle.LeaksExactlyTheLost: assumes names and Docker ids drawn afresh, since a delete of a removed row removes by its old name.
