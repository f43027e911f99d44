/** A session together with its watchdog: the race of `AcpHost` whose watchdog task is the loop of `Watchdog`
    over the heartbeats and polls up to the moment the race is over. */
module WatchedSessions {
  import opened SandboxBridge
  import opened AcpHost
  import Watchdog

  /** The watchdog task has failed exactly when a poll of the trace reached a limit. */
  ghost predicate Watched(race: Race, armed: real, trace: seq<Watchdog.Event>, started: real, idle: real, ceiling: real) {
    race.watchdog.Failed? <==> exists k: nat :: Watchdog.Fires(armed, trace, started, idle, ceiling, k)
  }

  /** A session whose heartbeats are always less than `idle` apart ends on a watchdog verdict only at a ceiling
      that was set and reached; without a ceiling it never does. */
  lemma LiveSessionIsNotKilled(race: Race, armed: real, trace: seq<Watchdog.Event>, started: real, idle: real, ceiling: real)
    requires RaceIsOver(race) && Watched(race, armed, trace, started, idle, ceiling)
    requires Watchdog.Ordered(armed, trace) && Watchdog.NoGap(armed, trace, idle)
    ensures ResolveRace(race).WatchdogVerdict? ==>
              && ceiling > 0.0 && Watchdog.Now(armed, trace) >= started + ceiling
              && exists k: nat :: k < |trace| && trace[k].Poll? && trace[k].check >= started + ceiling
  {
    hide Watchdog.Ordered, Watchdog.NoGap;
    if ResolveRace(race).WatchdogVerdict? {
      var k: nat :| Watchdog.Fires(armed, trace, started, idle, ceiling, k);
      Watchdog.LiveRunIsNeverIdleKilled(armed, trace, idle, k);
      assert Watchdog.CeilingAt(trace, k, started, ceiling);
      Watchdog.LiveRunEndsAtTheCeiling(armed, trace, started, idle, ceiling, k);
    }
  }

  /** A session silent from time `a` on, and not answered, is over by the latency bound: a race that is decided
      later than that was decided by the watchdog, and the run emits exactly one `agent_finished`, with ok=False,
      unless it was cancelled on the way out. */
  lemma SilentSessionEnds(s: Schedule, armed: real, trace: seq<Watchdog.Event>, started: real, idle: real,
                          ceiling: real, late: real, a: real)
    requires SessionOpened(s) && s.wait.Returns? && RaceIsOver(s.wait.value)
    requires Watched(s.wait.value, armed, trace, started, idle, ceiling)
    requires idle > 0.0 && armed <= a && Watchdog.Ordered(armed, trace)
    requires Watchdog.Timed(armed, trace, started, Watchdog.PollInterval(idle, ceiling), late)
    requires forall j :: 0 <= j < |trace| && trace[j].Heartbeat? ==> trace[j].at <= a
    requires Watchdog.Now(armed, trace) >
             Watchdog.Max(started, a + idle) + Watchdog.PollInterval(idle, ceiling) + late
    ensures s.wait.value.watchdog.Failed?
    ensures exists k: nat :: Watchdog.Fires(armed, trace, started, idle, ceiling, k) &&
              trace[k].wake <= Watchdog.Max(started, a + idle) + Watchdog.PollInterval(idle, ceiling) + late
    ensures !s.wait.value.prompt.Result? && !s.exit.Cancelled? ==>
              Count(ExpectedEvents(s), AgentFinished(false)) == 1 && Count(ExpectedEvents(s), AgentFinished(true)) == 0
  {
    hide Watchdog.Ordered, Watchdog.Timed, Watchdog.PollInterval, Watchdog.Max, Watchdog.Fires, Count, ExpectedEvents,
         CancelledInside, PromptWon, SessionOpened, CleanupCompletes;
    Watchdog.SilentRunIsKilledInTime(armed, trace, started, idle, ceiling, late, a);
    UnansweredIsFailed(s);
  }

  /** A session opened whose race was decided, unanswered, and that was not cancelled in leaving. */
  lemma UnansweredIsFailed(s: Schedule)
    requires SessionOpened(s) && s.wait.Returns?
    ensures !s.wait.value.prompt.Result? && !s.exit.Cancelled? ==>
              Count(ExpectedEvents(s), AgentFinished(false)) == 1 && Count(ExpectedEvents(s), AgentFinished(true)) == 0
  {
    hide Count, ExpectedEvents, CleanupCompletes, Entered;
    CountExpected(s);
  }
}
