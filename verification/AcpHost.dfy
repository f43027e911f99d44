/** One agent session (src/webhook_receiver/acp_host.py, `AcpHost.run`, control flow).

    A `Schedule` fixes, for every await and every fallible call, whether it returns, raises or is cancelled,
    so a statement about every schedule is one about every execution. */
module AcpHost {
  import opened Sequences
  import opened SandboxBridge

  // ---------------------------------------------------------------- the prompt/watchdog race

  datatype Task = Pending | Result(stopReason: string) | Failed(error: string) | TaskCancelled

  datatype Race = Race(prompt: Task, watchdog: Task)

  datatype Winner = PromptAnswered(stopReason: string) | WatchdogVerdict(error: string) | PromptError(error: string) | NoVerdict

  /** `_resolve_prompt_race`, with the same guarded reads in the same order. */
  function ResolveRace(race: Race): Winner {
    var promptError := if race.prompt.Failed? then Some(race.prompt.error) else None;
    var watchdogError := if race.watchdog.Failed? then Some(race.watchdog.error) else None;
    if promptError.None? && race.prompt.Result? then PromptAnswered(race.prompt.stopReason)
    else if watchdogError.Some? then WatchdogVerdict(watchdogError.value)
    else if promptError.Some? then PromptError(promptError.value)
    else NoVerdict
  }

  /** `asyncio.wait(FIRST_COMPLETED)` returns with a task done, and the watchdog only ever ends by raising. */
  predicate RaceIsOver(race: Race) {
    (!race.prompt.Pending? || !race.watchdog.Pending?) && !race.watchdog.Result? && !race.watchdog.TaskCancelled?
  }

  /** The order of preference among outcomes that became available in the same turn. */
  lemma RaceHasOneHonestOutcome(race: Race)
    requires RaceIsOver(race)
    ensures ResolveRace(race).PromptAnswered? <==> race.prompt.Result?
    ensures ResolveRace(race).WatchdogVerdict? <==> race.watchdog.Failed? && !race.prompt.Result?
    ensures ResolveRace(race).PromptError? <==> race.prompt.Failed? && race.watchdog.Pending?
    ensures ResolveRace(race).NoVerdict? <==> race.prompt.TaskCancelled? && race.watchdog.Pending?
    ensures race.prompt.Result? ==> ResolveRace(race).stopReason == race.prompt.stopReason
    ensures ResolveRace(race).WatchdogVerdict? ==> ResolveRace(race).error == race.watchdog.error
    ensures ResolveRace(race).PromptError? ==> ResolveRace(race).error == race.prompt.error
  {
  }

  // ---------------------------------------------------------------- one run

  datatype Schedule = Schedule(
    binFound: bool,                // resolve_opencode_bin
    bridge: Option<Preparation>,   // Some: the sandbox environment
    workspace: Await<()>,          // _prepare_workspace otherwise
    denyConfigWritten: bool,       // _write_deny_config did not raise
    traced: bool,                  // open_run_trace gave a trace
    spawn: Await<()>, initialize: Await<()>, newSession: Await<string>,
    wait: Await<Race>,             // asyncio.wait over prompt and watchdog
    exit: Await<()>,               // leaving the spawn context
    exited: bool,                  // the process has exited by itself when the cleanup starts
    drainCancelled: bool,          // a cancellation while the stderr drainer is gathered
    traceClosed: bool,             // closing harness.log did not raise
    reapCancelled: bool,           // a cancellation in the kill grace window
    release: Await<bool>,          // the DELETE of the release: its own cancellation, as on loop shutdown, included
    shieldCancelled: bool,         // a cancellation while the shielded release runs on
    successRecorded: bool)         // trace.finish on the success path did not raise

  datatype Process = NotSpawned | Running | Exited | Killed

  datatype Outcome = Completed(sessionId: string, stopReason: string) | RunFailed | RunCancelled

  datatype Transcript = Transcript(events: seq<HostEvent>, deletes: seq<string>, process: Process, outcome: Outcome)

  /** The `try` block is entered. */
  predicate Entered(s: Schedule) {
    && s.binFound && s.denyConfigWritten
    && (if s.bridge.Some? then Prepared(s.bridge.value) else s.workspace.Returns?)
  }

  predicate SessionOpened(s: Schedule) {
    Entered(s) && s.spawn.Returns? && s.initialize.Returns? && s.newSession.Returns?
  }

  /** The prompt's own result won the race and the spawn context closed cleanly. */
  predicate PromptWon(s: Schedule) {
    && SessionOpened(s) && s.wait.Returns? && s.wait.value.prompt.Result?
    && s.exit.Returns?
  }

  /** A cancellation is what leaves the `try` block: it struck the spawn, or the exit of the spawn context,
      or an await inside it with the exit returning (an exit that raises replaces it). */
  predicate CancelledInside(s: Schedule) {
    && Entered(s)
    && (s.spawn.Cancelled? ||
        (s.spawn.Returns? &&
         (s.exit.Cancelled? ||
          (s.exit.Returns? &&
           (s.initialize.Cancelled? ||
            (s.initialize.Returns? && s.newSession.Cancelled?) ||
            (s.initialize.Returns? && s.newSession.Returns? && s.wait.Cancelled?))))))
  }

  /** The cleanup is cut short before it looks at the process. */
  predicate CutBeforeKill(s: Schedule) {
    (s.spawn.Returns? && s.drainCancelled) || (s.traced && !s.traceClosed)
  }

  /** The cleanup is cut short before it releases the sandbox. */
  predicate CutBeforeRelease(s: Schedule) {
    CutBeforeKill(s) || (s.spawn.Returns? && !s.exited && s.reapCancelled)
  }

  /** A cancellation cuts the cleanup short, rather than an exception. */
  predicate CleanupCancelled(s: Schedule) {
    || (s.spawn.Returns? && s.drainCancelled)
    || ((s.traced ==> s.traceClosed) &&
        (|| (s.spawn.Returns? && !s.exited && s.reapCancelled)
         || (s.bridge.Some? && (s.shieldCancelled || s.release.Cancelled?))))
  }

  /** The run ends cancelled: before the `try`, in the cleanup, or inside the `try` with the cleanup completing. */
  predicate EndsCancelled(s: Schedule) {
    if !s.binFound then false
    else if s.bridge.Some? && !Prepared(s.bridge.value) then PrepareCancelled(s.bridge.value)
    else if s.bridge.None? && !s.workspace.Returns? then s.workspace.Cancelled?
    else if !s.denyConfigWritten then false
    else CleanupCancelled(s) || (CleanupCompletes(s) && CancelledInside(s))
  }

  predicate CleanupCompletes(s: Schedule) {
    !CutBeforeRelease(s) && !(s.bridge.Some? && (s.shieldCancelled || s.release.Cancelled?))
  }

  /** The id the sandbox service gave, if it gave one. */
  function SandboxId(s: Schedule): string {
    if s.bridge.Some? && s.bridge.value.create.Returns? then s.bridge.value.create.value else ""
  }

  function SessionId(s: Schedule): string {
    if s.newSession.Returns? then s.newSession.value else ""
  }

  function When(b: bool, e: HostEvent): seq<HostEvent> { if b then [e] else [] }

  /** The five places in a run that emit, in order. */
  function Stream(provisioned: bool, started: bool, failed: bool, released: bool, succeeded: bool,
                  sandboxId: string, sessionId: string, deleted: bool): seq<HostEvent> {
    When(provisioned, SandboxProvisioned(sandboxId)) +
    When(started, AgentSessionStarted(sessionId)) +
    When(failed, AgentFinished(false)) +
    When(released, SandboxReleased(sandboxId, deleted)) +
    When(succeeded, AgentFinished(true))
  }

  /** The whole event stream of a run: each event with the exact condition for it. */
  function ExpectedEvents(s: Schedule): seq<HostEvent> {
    Stream(
      s.binFound && s.bridge.Some? && Prepared(s.bridge.value),
      SessionOpened(s),
      Entered(s) && !PromptWon(s) && !CancelledInside(s),
      Entered(s) && s.bridge.Some? && !CutBeforeRelease(s) && !s.release.Cancelled?,
      PromptWon(s) && CleanupCompletes(s),
      SandboxId(s), SessionId(s), s.release == Returns(true))
  }

  /** The sandbox ids a DELETE is attempted for: by `prepare` when materializing raised, by the release when
      the session was entered and the cleanup got that far. */
  function ExpectedDeletes(s: Schedule): seq<string> {
    if !s.binFound || s.bridge.None? || !s.bridge.value.create.Returns? then []
    else if MaterializeOutcome(s.bridge.value.rounds).Raises? then [SandboxId(s)]
    else if Entered(s) && !CutBeforeRelease(s) then [SandboxId(s)]
    else []
  }

  /** A sandbox that was created and is then forgotten: the exact list of ways. */
  predicate Strands(s: Schedule)
    requires s.bridge.Some?
  {
    var p := s.bridge.value;
    || MaterializeOutcome(p.rounds).Cancelled?
    || (MaterializeOutcome(p.rounds).Returns? && (!p.detach.Returns? || !s.denyConfigWritten || CutBeforeRelease(s)))
  }

  /** The body of the `try` block: how it is left, and what it emitted on the way. */
  method Session(s: Schedule) returns (body: Await<string>, process: Process, events: seq<HostEvent>)
    requires Entered(s) && (s.wait.Returns? ==> RaceIsOver(s.wait.value))
    ensures events == When(SessionOpened(s), AgentSessionStarted(SessionId(s)))
    ensures process == if s.spawn.Returns? then Running else NotSpawned
    ensures body.Returns? <==> PromptWon(s)
    ensures body.Returns? ==> body.value == s.wait.value.prompt.stopReason
    ensures body.Cancelled? <==> CancelledInside(s)
  {
    events, process := [], NotSpawned;
    if !s.spawn.Returns? {
      return Propagate(s.spawn), process, events;
    }
    process := Running;
    if !s.initialize.Returns? {
      body := Propagate(s.initialize);
    } else if !s.newSession.Returns? {
      body := Propagate(s.newSession);
    } else {
      events := events + [AgentSessionStarted(s.newSession.value)];
      if s.wait.Returns? {
        RaceHasOneHonestOutcome(s.wait.value);
        var winner := ResolveRace(s.wait.value);
        body := if winner.PromptAnswered? then Returns(winner.stopReason) else Raises;
      } else {
        body := Propagate(s.wait);
      }
    }
    if !s.exit.Returns? {
      body := Propagate(s.exit);
    }
  }

  /** The `finally` block. */
  method Cleanup(s: Schedule, started: Process, sandbox: Option<string>)
    returns (left: Await<()>, process: Process, deletes: seq<string>, events: seq<HostEvent>)
    requires started == if s.spawn.Returns? then Running else NotSpawned
    requires sandbox.Some? <==> s.bridge.Some?
    ensures left.Returns? <==> CleanupCompletes(s)
    ensures left.Cancelled? <==> CleanupCancelled(s)
    ensures process.NotSpawned? <==> !s.spawn.Returns?
    ensures process.Running? <==> s.spawn.Returns? && !s.exited && CutBeforeKill(s)
    ensures process.Killed? <==> s.spawn.Returns? && !s.exited && !CutBeforeKill(s)
    ensures deletes == if sandbox.Some? && !CutBeforeRelease(s) then [sandbox.value] else []
    ensures events == if sandbox.Some? && !CutBeforeRelease(s) && !s.release.Cancelled?
                      then [SandboxReleased(sandbox.value, s.release == Returns(true))] else []
  {
    process, deletes, events := if started.Running? && s.exited then Exited else started, [], [];
    if s.spawn.Returns? && s.drainCancelled {
      return Cancelled, process, deletes, events;
    }
    if s.traced && !s.traceClosed {
      return Raises, process, deletes, events;
    }
    if process.Running? {
      process := Killed;
      if s.reapCancelled {
        return Cancelled, process, deletes, events;
      }
    }
    if sandbox.Some? {
      var released;
      released, deletes, events := Release(sandbox.value, s.release);
      if s.shieldCancelled || released.Cancelled? {
        return Cancelled, process, deletes, events;
      }
    }
    return Returns(()), process, deletes, events;
  }

  /** Everything before the `try` block: the workspace, from the bridge or not. */
  method Workspace(s: Schedule)
    returns (ready: Await<()>, sandbox: Option<string>, deletes: seq<string>, events: seq<HostEvent>)
    ensures ready.Returns? <==> Entered(s)
    ensures !Entered(s) ==> (ready.Cancelled? <==> EndsCancelled(s))
    ensures ready.Returns? ==> (sandbox.Some? <==> s.bridge.Some?)
    ensures sandbox.Some? ==> s.bridge.Some? && s.bridge.value.create == Returns(sandbox.value)
    ensures events == When(s.binFound && s.bridge.Some? && Prepared(s.bridge.value), SandboxProvisioned(SandboxId(s)))
    ensures deletes == if s.binFound && s.bridge.Some? && s.bridge.value.create.Returns? && MaterializeOutcome(s.bridge.value.rounds).Raises?
                       then [SandboxId(s)] else []
  {
    sandbox, deletes, events := None, [], [];
    if !s.binFound {
      return Raises, sandbox, deletes, events;
    }
    if s.bridge.Some? {
      var prepared;
      prepared, deletes, events := Prepare(s.bridge.value);
      if !prepared.Returns? {
        return Propagate(prepared), sandbox, deletes, events;
      }
      sandbox := Some(prepared.value);
    } else if !s.workspace.Returns? {
      return s.workspace, sandbox, deletes, events;
    }
    return if s.denyConfigWritten then Returns(()) else Raises, sandbox, deletes, events;
  }

  /** What the run is when the `try` block is not reached. */
  lemma OutsideTry(s: Schedule)
    requires !Entered(s)
    ensures !PromptWon(s)
    ensures ExpectedEvents(s) == When(s.binFound && s.bridge.Some? && Prepared(s.bridge.value), SandboxProvisioned(SandboxId(s)))
    ensures ExpectedDeletes(s) ==
            if s.binFound && s.bridge.Some? && s.bridge.value.create.Returns? && MaterializeOutcome(s.bridge.value.rounds).Raises?
            then [SandboxId(s)] else []
  {
  }

  /** ... and when it is. */
  lemma InsideTry(s: Schedule)
    requires Entered(s)
    ensures s.bridge.Some? ==> s.bridge.value.create == Returns(SandboxId(s)) && MaterializeOutcome(s.bridge.value.rounds).Returns?
    ensures ExpectedEvents(s) ==
            When(s.binFound && s.bridge.Some? && Prepared(s.bridge.value), SandboxProvisioned(SandboxId(s))) +
            When(SessionOpened(s), AgentSessionStarted(SessionId(s))) +
            When(!PromptWon(s) && !CancelledInside(s), AgentFinished(false)) +
            (if s.bridge.Some? && !CutBeforeRelease(s) && !s.release.Cancelled?
             then [SandboxReleased(SandboxId(s), s.release == Returns(true))] else []) +
            When(PromptWon(s) && CleanupCompletes(s), AgentFinished(true))
    ensures ExpectedDeletes(s) == if s.bridge.Some? && !CutBeforeRelease(s) then [SandboxId(s)] else []
    ensures EndsCancelled(s) <==> CleanupCancelled(s) || (CleanupCompletes(s) && CancelledInside(s))
    ensures PromptWon(s) ==> !CancelledInside(s) && s.newSession.Returns? && s.wait.Returns?
  {
    hide CancelledInside, CleanupCancelled, CleanupCompletes, CutBeforeRelease;
    assert PromptWon(s) ==> !CancelledInside(s) by {
      WonIsNotCancelled(s);
    }
  }

  lemma WonIsNotCancelled(s: Schedule)
    ensures PromptWon(s) ==> Entered(s) && !CancelledInside(s)
  {
    hide Prepared;
  }

  method Run(s: Schedule) returns (t: Transcript)
    requires s.wait.Returns? ==> RaceIsOver(s.wait.value)
    ensures t.events == ExpectedEvents(s)
    ensures t.deletes == ExpectedDeletes(s)
    ensures t.process.NotSpawned? <==> !(Entered(s) && s.spawn.Returns?)
    ensures t.process.Running? <==> Entered(s) && s.spawn.Returns? && !s.exited && CutBeforeKill(s)
    ensures t.process.Killed? <==> Entered(s) && s.spawn.Returns? && !s.exited && !CutBeforeKill(s)
    ensures t.outcome.Completed? <==> PromptWon(s) && CleanupCompletes(s) && s.successRecorded
    ensures t.outcome.Completed? ==> t.outcome == Completed(s.newSession.value, s.wait.value.prompt.stopReason)
    ensures t.outcome.RunCancelled? <==> EndsCancelled(s)
  {
    if Entered(s) {
      InsideTry(s);
    } else {
      OutsideTry(s);
    }
    hide Entered, SessionOpened, PromptWon, CancelledInside, CleanupCancelled, CleanupCompletes, CutBeforeRelease,
         CutBeforeKill, EndsCancelled, ExpectedEvents, ExpectedDeletes, Prepared, MaterializeOutcome;
    var ready, sandbox, deletes, prelude := Workspace(s);
    if !ready.Returns? {
      return Transcript(prelude, deletes, NotSpawned, if ready.Cancelled? then RunCancelled else RunFailed);
    }
    var body, process, session := Session(s);
    var failed := When(body.Raises?, AgentFinished(false));
    var left, released, swept;
    left, process, released, swept := Cleanup(s, process, sandbox);
    deletes := deletes + released;
    var succeeded := When(body.Returns? && left.Returns?, AgentFinished(true));
    var events := prelude + session + failed + swept + succeeded;
    hide When;
    if left.Cancelled? || (left.Returns? && body.Cancelled?) {
      return Transcript(events, deletes, process, RunCancelled);
    }
    if left.Raises? || body.Raises? || !s.successRecorded {
      return Transcript(events, deletes, process, RunFailed);
    }
    return Transcript(events, deletes, process, Completed(s.newSession.value, body.value));
  }

  // ---------------------------------------------------------------- what every schedule guarantees

  function Count(events: seq<HostEvent>, e: HostEvent): nat {
    multiset(events)[e]
  }

  lemma CountStream(b1: bool, b2: bool, b3: bool, b4: bool, b5: bool, id: string, session: string, deleted: bool)
    ensures Count(Stream(b1, b2, b3, b4, b5, id, session, deleted), AgentFinished(true)) == if b5 then 1 else 0
    ensures Count(Stream(b1, b2, b3, b4, b5, id, session, deleted), AgentFinished(false)) == if b3 then 1 else 0
  {
  }

  lemma CountExpected(s: Schedule)
    ensures Count(ExpectedEvents(s), AgentFinished(true)) == if PromptWon(s) && CleanupCompletes(s) then 1 else 0
    ensures Count(ExpectedEvents(s), AgentFinished(false)) ==
            if Entered(s) && !PromptWon(s) && !CancelledInside(s) then 1 else 0
  {
    hide Entered, SessionOpened, PromptWon, CancelledInside, CutBeforeRelease, CleanupCompletes, Stream, Count, Prepared;
    CountStream(
      s.binFound && s.bridge.Some? && Prepared(s.bridge.value), SessionOpened(s),
      Entered(s) && !PromptWon(s) && !CancelledInside(s),
      Entered(s) && s.bridge.Some? && !CutBeforeRelease(s) && !s.release.Cancelled?,
      PromptWon(s) && CleanupCompletes(s), SandboxId(s), SessionId(s), s.release == Returns(true));
  }

  /** One `agent_finished` a session; none when it was cancelled, or when it had succeeded and the cleanup
      that precedes the success event was cut short. */
  lemma OneFinishedEvent(s: Schedule)
    ensures var n := Count(ExpectedEvents(s), AgentFinished(true)) + Count(ExpectedEvents(s), AgentFinished(false));
            && n <= 1
            && (n == 1 <==> Entered(s) && !CancelledInside(s) && (PromptWon(s) ==> CleanupCompletes(s)))
    ensures AgentFinished(true) in ExpectedEvents(s) <==> PromptWon(s) && CleanupCompletes(s)
    ensures AgentFinished(false) in ExpectedEvents(s) <==> Entered(s) && !PromptWon(s) && !CancelledInside(s)
  {
    hide Entered, SessionOpened, PromptWon, CancelledInside, CutBeforeRelease, CleanupCompletes, ExpectedEvents, Prepared;
    WonIsNotCancelled(s);
    CountExpected(s);
  }

  lemma StartedFirstInStream(b1: bool, b2: bool, b3: bool, b4: bool, b5: bool, id: string, session: string,
                             deleted: bool, i: nat, j: nat)
    requires var e := Stream(b1, b2, b3, b4, b5, id, session, deleted);
             i < |e| && j < |e| && e[i].AgentSessionStarted?
    ensures var e := Stream(b1, b2, b3, b4, b5, id, session, deleted);
            (e[j].AgentSessionStarted? ==> i == j) && (e[j].AgentFinished? ==> i < j)
  {
    assert i == if b1 then 1 else 0;
  }

  /** `agent_session_started` comes at most once, and before any `agent_finished`. */
  lemma StartedOnceAndFirst(s: Schedule, i: nat, j: nat)
    requires i < |ExpectedEvents(s)| && j < |ExpectedEvents(s)|
    requires ExpectedEvents(s)[i].AgentSessionStarted?
    ensures ExpectedEvents(s)[j].AgentSessionStarted? ==> i == j
    ensures ExpectedEvents(s)[j].AgentFinished? ==> i < j
  {
    hide Entered, SessionOpened, PromptWon, CancelledInside, CutBeforeRelease, CleanupCompletes, Stream, Prepared;
    StartedFirstInStream(
      s.binFound && s.bridge.Some? && Prepared(s.bridge.value), SessionOpened(s),
      Entered(s) && !PromptWon(s) && !CancelledInside(s),
      Entered(s) && s.bridge.Some? && !CutBeforeRelease(s) && !s.release.Cancelled?,
      PromptWon(s) && CleanupCompletes(s), SandboxId(s), SessionId(s), s.release == Returns(true), i, j);
  }

  /** A sandbox that was created. */
  predicate Provisioned(s: Schedule) {
    s.binFound && s.bridge.Some? && s.bridge.value.create.Returns?
  }

  /** Every created sandbox gets exactly one DELETE, and no other id ever gets one, unless the schedule is one
      of those listed in `Strands`: then there is none. */
  lemma OneDeleteUnlessStranded(s: Schedule)
    ensures Provisioned(s) ==>
              multiset(ExpectedDeletes(s))[SandboxId(s)] == if Strands(s) then 0 else 1
    ensures forall id :: id in ExpectedDeletes(s) ==> Provisioned(s) && id == SandboxId(s)
    ensures |ExpectedDeletes(s)| <= 1
  {
  }

  /** When nothing between the create and the `try` fails and the cleanup reaches the release, a created
      sandbox gets its one DELETE, whether the session fails, is cancelled or succeeds, unless a cancellation
      struck inside the materialize loop: then it gets none. */
  lemma PairingUnderHypotheses(s: Schedule)
    requires Provisioned(s)
    requires s.denyConfigWritten && s.bridge.value.detach.Returns? && !CutBeforeRelease(s)
    ensures multiset(ExpectedDeletes(s))[SandboxId(s)] == if MaterializeOutcome(s.bridge.value.rounds).Cancelled? then 0 else 1
  {
  }

  /** A cancellation during the materialize loop leaves the sandbox to the reaper. */
  lemma CancelledMaterializeStrands() returns (s: Schedule)
    ensures Provisioned(s) && SandboxId(s) == "sandbox" && CleanupCompletes(s)
    ensures ExpectedDeletes(s) == []
  {
    var rounds := CancelledRound();
    hide MaterializeOutcome;
    s := Schedule(true, Some(Preparation(Returns("sandbox"), rounds, Returns(true), Returns(()))), Returns(()),
                  true, false, Raises, Raises, Raises, Raises, Returns(()), true, false, true, false, Returns(true), false, true);
    assert !Entered(s);
  }

  lemma CancelledRound() returns (r: Materialization)
    ensures MaterializeOutcome(r).Cancelled?
  {
    hide FirstEnd;
    var a := Attempt(Cancelled, false, 0.0, Raises);
    assert forall deadline :: !GoesOn(a, deadline);
    var rounds := Rounds([a], 0.0, 0.0);
    assert rounds.attempts[0] == a;
    r := rounds;
    assert LastRound(r) == a;
  }

  /** A release that is itself cancelled: no `sandbox_released`, no `agent_finished`, the DELETE attempted. */
  lemma CancelledReleaseIsSilent(s: Schedule)
    requires Entered(s) && s.bridge.Some? && s.release.Cancelled? && !CutBeforeRelease(s)
    ensures forall e :: e in ExpectedEvents(s) ==> !e.SandboxReleased?
    ensures AgentFinished(true) !in ExpectedEvents(s)
    ensures ExpectedDeletes(s) == [SandboxId(s)]
  {
  }
}
