/** The idle watchdog of an agent session (src/webhook_receiver/acp_host.py, `_idle_watchdog`).

    A trace is what happens on the event loop, in order: heartbeats (a session update or a harness stderr
    line stores the clock into `last_activity`) and polls of the watchdog. A poll reads the clock, then
    `last_activity`, then the clock again for the ceiling, with no await in between, so it is one event. The
    trace starts when `run` arms the clock, at time `armed`. */
module Watchdog {

  datatype Event =
    | Heartbeat(at: real)
    | Poll(wake: real, check: real)

  /** A verdict, with the position of the poll in the trace. */
  datatype Verdict =
    | StillWatching
    | Idle(poll: nat)
    | Ceiling(poll: nat)

  function Min(a: real, b: real): real { if a <= b then a else b }

  function Max(a: real, b: real): real { if a <= b then b else a }

  /** Line 641: the sleep between polls. */
  function PollInterval(idle: real, ceiling: real): (r: real)
    requires idle > 0.0
    ensures 0.0 < r <= idle && r <= 5.0 && (ceiling > 0.0 ==> r <= ceiling)
    ensures r == idle || r == 5.0 || (ceiling > 0.0 && r == ceiling)
  {
    Min(Min(idle, if ceiling > 0.0 then ceiling else idle), 5.0)
  }

  function Begin(e: Event): real { if e.Poll? then e.wake else e.at }

  function End(e: Event): real { if e.Poll? then e.check else e.at }

  /** The clock never runs backwards. */
  ghost predicate Ordered(armed: real, trace: seq<Event>) {
    && (trace != [] ==> armed <= Begin(trace[0]))
    && (forall k :: 0 <= k < |trace| ==> Begin(trace[k]) <= End(trace[k]))
    && (forall k :: 0 <= k < |trace| - 1 ==> End(trace[k]) <= Begin(trace[k + 1]))
  }

  /** When the trace ends. */
  function Now(armed: real, trace: seq<Event>): real {
    if trace == [] then armed else End(trace[|trace| - 1])
  }

  /** What `last_activity` holds after the trace. */
  function LastActivity(armed: real, trace: seq<Event>): real {
    if trace == [] then armed
    else if trace[|trace| - 1].Heartbeat? then trace[|trace| - 1].at
    else LastActivity(armed, trace[..|trace| - 1])
  }

  // ---------------------------------------------------------------- the loop

  predicate IdleAt(armed: real, trace: seq<Event>, k: nat, idle: real) {
    k < |trace| && trace[k].Poll? && trace[k].wake - LastActivity(armed, trace[..k]) >= idle
  }

  predicate CeilingAt(trace: seq<Event>, k: nat, started: real, ceiling: real) {
    k < |trace| && trace[k].Poll? && ceiling > 0.0 && trace[k].check - started >= ceiling
  }

  /** Poll `k` ends the run: the first poll at which a limit is reached. */
  ghost predicate Fires(armed: real, trace: seq<Event>, started: real, idle: real, ceiling: real, k: nat) {
    && (IdleAt(armed, trace, k, idle) || CeilingAt(trace, k, started, ceiling))
    && forall j :: 0 <= j < k ==> !IdleAt(armed, trace, j, idle) && !CeilingAt(trace, j, started, ceiling)
  }

  /** The watchdog loop beside the tasks that store into `last_activity`; the idle limit is named even when
      both are reached. */
  method IdleWatchdog(armed: real, trace: seq<Event>, started: real, idle: real, ceiling: real) returns (v: Verdict)
    ensures v.StillWatching? <==> forall k :: !Fires(armed, trace, started, idle, ceiling, k)
    ensures !v.StillWatching? ==> Fires(armed, trace, started, idle, ceiling, v.poll)
    ensures !v.StillWatching? ==> (v.Idle? <==> IdleAt(armed, trace, v.poll, idle))
    ensures v.Idle? ==>
              v.poll < |trace| && trace[v.poll].Poll? && trace[v.poll].wake - LastActivity(armed, trace[..v.poll]) >= idle
    ensures v.Ceiling? ==>
              ceiling > 0.0 && v.poll < |trace| && trace[v.poll].Poll? && trace[v.poll].check - started >= ceiling
    ensures forall k :: 0 <= k < (if v.StillWatching? then |trace| else v.poll) && trace[k].Poll? ==>
              && trace[k].wake - LastActivity(armed, trace[..k]) < idle
              && (ceiling > 0.0 ==> trace[k].check - started < ceiling)
  {
    var lastActivity := armed;
    for i := 0 to |trace|
      invariant lastActivity == LastActivity(armed, trace[..i])
      invariant forall k :: 0 <= k < i ==> !IdleAt(armed, trace, k, idle) && !CeilingAt(trace, k, started, ceiling)
      invariant forall k :: 0 <= k < i && trace[k].Poll? ==>
                  && trace[k].wake - LastActivity(armed, trace[..k]) < idle
                  && (ceiling > 0.0 ==> trace[k].check - started < ceiling)
    {
      assert trace[..i + 1][..i] == trace[..i];
      match trace[i]
      case Heartbeat(at) => lastActivity := at;
      case Poll(wake, check) =>
        var silentFor := wake - lastActivity;
        if silentFor >= idle {
          assert Fires(armed, trace, started, idle, ceiling, i);
          return Idle(i);
        }
        if ceiling > 0.0 && check - started >= ceiling {
          assert Fires(armed, trace, started, idle, ceiling, i);
          return Ceiling(i);
        }
    }
    return StillWatching;
  }

  // ---------------------------------------------------------------- soundness

  lemma {:induction false} ClockAdvances(armed: real, trace: seq<Event>, j: nat, k: nat)
    requires Ordered(armed, trace) && j <= k < |trace|
    ensures armed <= Begin(trace[j]) <= Begin(trace[k])
    ensures j < k ==> End(trace[j]) <= Begin(trace[k])
  {
    if j < k {
      ClockAdvances(armed, trace, j, k - 1);
      assert End(trace[k - 1]) <= Begin(trace[k - 1 + 1]);
    } else if j > 0 {
      ClockAdvances(armed, trace, j - 1, j - 1);
      assert End(trace[j - 1]) <= Begin(trace[j - 1 + 1]);
    }
  }

  /** The stored value is the newest heartbeat: one of the heartbeats (or the arming), and none is later. */
  lemma {:induction false} LastActivityIsLatest(armed: real, trace: seq<Event>, k: nat)
    requires Ordered(armed, trace) && k <= |trace|
    ensures var a := LastActivity(armed, trace[..k]);
            && armed <= a
            && (a == armed || exists j :: 0 <= j < k && trace[j] == Heartbeat(a))
            && forall j :: 0 <= j < k && trace[j].Heartbeat? ==> trace[j].at <= a
  {
    if k > 0 {
      assert trace[..k][..k - 1] == trace[..k - 1];
      LastActivityIsLatest(armed, trace, k - 1);
      ClockAdvances(armed, trace, k - 1, k - 1);
      if trace[k - 1].Heartbeat? {
        forall j | 0 <= j < k && trace[j].Heartbeat?
          ensures trace[j].at <= trace[k - 1].at
        {
          ClockAdvances(armed, trace, j, k - 1);
        }
      }
    }
  }

  /** An idle verdict exactly when no heartbeat of the run, nor the arming, came in the last `idle` seconds. */
  lemma IdleMeansSilence(armed: real, trace: seq<Event>, k: nat, idle: real)
    requires Ordered(armed, trace) && k < |trace| && trace[k].Poll?
    ensures IdleAt(armed, trace, k, idle) <==>
            && armed <= trace[k].wake - idle
            && forall j :: 0 <= j < k && trace[j].Heartbeat? ==> trace[j].at <= trace[k].wake - idle
  {
    LastActivityIsLatest(armed, trace, k);
  }

  /** The times of the arming and of the heartbeats. */
  function Beats(armed: real, trace: seq<Event>): (r: seq<real>)
    ensures r != []
  {
    if trace == [] then [armed]
    else
      var last := trace[|trace| - 1];
      Beats(armed, trace[..|trace| - 1]) + (if last.Heartbeat? then [last.at] else [])
  }

  /** Neighbouring heartbeats, and the last one and the end, are less than `idle` apart. */
  ghost predicate NoGap(armed: real, trace: seq<Event>, idle: real) {
    var beats := Beats(armed, trace);
    && (forall i :: 0 <= i < |beats| - 1 ==> beats[i + 1] - beats[i] < idle)
    && Now(armed, trace) - beats[|beats| - 1] < idle
  }

  lemma {:induction false} BeatsEndInLastActivity(armed: real, trace: seq<Event>)
    ensures Beats(armed, trace)[|Beats(armed, trace)| - 1] == LastActivity(armed, trace)
  {
    if trace != [] {
      BeatsEndInLastActivity(armed, trace[..|trace| - 1]);
    }
  }

  lemma {:induction false} BeatsPrefix(armed: real, trace: seq<Event>, k: nat)
    requires k <= |trace|
    ensures Beats(armed, trace[..k]) <= Beats(armed, trace)
  {
    if k < |trace| {
      assert trace[..|trace| - 1][..k] == trace[..k];
      BeatsPrefix(armed, trace[..|trace| - 1], k);
    } else {
      assert trace[..k] == trace;
    }
  }

  /** After poll `k` either no heartbeat came up to position `n`, or the next one came less than `idle` after
      the one the poll read. */
  lemma {:induction false} NextBeatIsNear(armed: real, trace: seq<Event>, idle: real, k: nat, n: nat)
    requires Ordered(armed, trace) && NoGap(armed, trace, idle)
    requires k < n <= |trace| && trace[k].Poll?
    ensures LastActivity(armed, trace[..n]) == LastActivity(armed, trace[..k]) || !IdleAt(armed, trace, k, idle)
  {
    assert trace[..n][..n - 1] == trace[..n - 1];
    if n > k + 1 {
      NextBeatIsNear(armed, trace, idle, k, n - 1);
      if trace[n - 1].Heartbeat? {
        BeatsEndInLastActivity(armed, trace[..n - 1]);
        BeatsPrefix(armed, trace, n);
        var before := Beats(armed, trace[..n - 1]);
        assert Beats(armed, trace[..n]) == before + [trace[n - 1].at];
        assert Beats(armed, trace)[|before| - 1 + 1] - Beats(armed, trace)[|before| - 1] < idle;
        ClockAdvances(armed, trace, k, n - 1);
      }
    }
  }

  /** A run whose heartbeats are always less than `idle` apart is never killed for silence. */
  lemma LiveRunIsNeverIdleKilled(armed: real, trace: seq<Event>, idle: real, k: nat)
    requires Ordered(armed, trace) && NoGap(armed, trace, idle)
    ensures !IdleAt(armed, trace, k, idle)
  {
    if k < |trace| && trace[k].Poll? {
      NextBeatIsNear(armed, trace, idle, k, |trace|);
      assert trace[..|trace|] == trace;
      BeatsEndInLastActivity(armed, trace);
      ClockAdvances(armed, trace, k, |trace| - 1);
    }
  }

  /** A live run is ended only by a ceiling that is set, and not before it has passed since the start. */
  lemma LiveRunEndsAtTheCeiling(armed: real, trace: seq<Event>, started: real, idle: real, ceiling: real, k: nat)
    requires Ordered(armed, trace) && NoGap(armed, trace, idle)
    ensures Fires(armed, trace, started, idle, ceiling, k) ==>
              ceiling > 0.0 && k < |trace| && started + ceiling <= trace[k].check <= Now(armed, trace)
  {
    LiveRunIsNeverIdleKilled(armed, trace, idle, k);
    if k < |trace| {
      ClockAdvances(armed, trace, k, |trace| - 1);
      assert End(trace[k]) <= Now(armed, trace);
    }
  }

  // ---------------------------------------------------------------- latency

  /** The positions of the polls. */
  function Polls(trace: seq<Event>): (r: seq<nat>)
    ensures forall i :: 0 <= i < |r| ==> r[i] < |trace| && trace[r[i]].Poll?
  {
    if trace == [] then []
    else Polls(trace[..|trace| - 1]) + (if trace[|trace| - 1].Poll? then [|trace| - 1] else [])
  }

  lemma {:induction false} EveryPollListed(trace: seq<Event>, k: nat)
    requires k < |trace| && trace[k].Poll?
    ensures k in Polls(trace)
  {
    if k < |trace| - 1 {
      EveryPollListed(trace[..|trace| - 1], k);
    }
  }

  /** When the watchdog last woke, or started. */
  function LastWake(started: real, trace: seq<Event>): real {
    var p := Polls(trace);
    if p == [] then started else trace[p[|p| - 1]].wake
  }

  /** A sleep of `interval` ends, and the loop gets round to the poll, within `late` of that; the trace does
      not run past a poll that is overdue. */
  ghost predicate Timed(armed: real, trace: seq<Event>, started: real, interval: real, late: real) {
    var p := Polls(trace);
    && (p != [] ==> trace[p[0]].wake <= started + interval + late)
    && (forall i :: 0 <= i < |p| - 1 ==> trace[p[i + 1]].wake <= trace[p[i]].wake + interval + late)
    && Now(armed, trace) <= LastWake(started, trace) + interval + late
  }

  /** By the time the trace ends, either no poll has woken at `due` or later and the end is near, or the first
      that did woke in time. */
  lemma {:induction false} FirstWakeAfter(armed: real, trace: seq<Event>, started: real, interval: real, late: real,
                                          due: real, n: nat) returns (i: nat)
    requires Timed(armed, trace, started, interval, late) && n < |Polls(trace)| && trace[Polls(trace)[n]].wake >= due
    ensures i <= n && due <= trace[Polls(trace)[i]].wake <= Max(started, due) + interval + late
    ensures started < due ==> trace[Polls(trace)[i]].wake < due + interval + late
  {
    var p := Polls(trace);
    if n == 0 || trace[p[n - 1]].wake < due {
      i := n;
      assert n > 0 ==> trace[p[n - 1 + 1]].wake <= trace[p[n - 1]].wake + interval + late;
    } else {
      i := FirstWakeAfter(armed, trace, started, interval, late, due, n - 1);
    }
  }

  lemma {:induction false} SomePollFires(armed: real, trace: seq<Event>, started: real, idle: real, ceiling: real, n: nat)
    returns (k: nat)
    requires IdleAt(armed, trace, n, idle) || CeilingAt(trace, n, started, ceiling)
    ensures k <= n && Fires(armed, trace, started, idle, ceiling, k)
  {
    if j: nat :| j < n && (IdleAt(armed, trace, j, idle) || CeilingAt(trace, j, started, ceiling)) {
      k := SomePollFires(armed, trace, started, idle, ceiling, j);
    } else {
      k := n;
    }
  }

  /** From time `due` on every poll finds a limit reached. */
  ghost predicate Due(armed: real, trace: seq<Event>, started: real, idle: real, ceiling: real, due: real) {
    forall k :: 0 <= k < |trace| && trace[k].Poll? && trace[k].wake >= due ==>
      IdleAt(armed, trace, k, idle) || CeilingAt(trace, k, started, ceiling)
  }

  /** Some poll has woken at `due` or later: the poll that ends the run did so in time. */
  lemma FiresInTime(armed: real, trace: seq<Event>, started: real, idle: real, ceiling: real,
                    interval: real, late: real, due: real) returns (k: nat)
    requires Ordered(armed, trace) && Timed(armed, trace, started, interval, late)
    requires Due(armed, trace, started, idle, ceiling, due)
    requires Polls(trace) != [] && LastWake(started, trace) >= due
    ensures Fires(armed, trace, started, idle, ceiling, k) && k < |trace| && trace[k].Poll?
    ensures trace[k].wake <= Max(started, due) + interval + late
    ensures started < due ==> trace[k].wake < due + interval + late
  {
    var p := Polls(trace);
    var i := FirstWakeAfter(armed, trace, started, interval, late, due, |p| - 1);
    hide Timed, Ordered, Fires, Max, LastWake;
    assert IdleAt(armed, trace, p[i], idle) || CeilingAt(trace, p[i], started, ceiling);
    hide Due;
    k := SomePollFires(armed, trace, started, idle, ceiling, p[i]);
    FiresAtPoll(armed, trace, started, idle, ceiling, k);
    ClockAdvances(armed, trace, k, p[i]);
  }

  lemma FiresAtPoll(armed: real, trace: seq<Event>, started: real, idle: real, ceiling: real, k: nat)
    requires Fires(armed, trace, started, idle, ceiling, k)
    ensures k < |trace| && trace[k].Poll?
  {
  }

  /** No poll has woken that late: that time has not come. */
  lemma NotYetDue(armed: real, trace: seq<Event>, started: real, interval: real, late: real, due: real)
    requires Timed(armed, trace, started, interval, late)
    requires Polls(trace) == [] || LastWake(started, trace) < due
    ensures Now(armed, trace) <= Max(started, due) + interval + late
    ensures started < due ==> Now(armed, trace) < due + interval + late
  {
    hide Polls, Now;
  }

  /** A poll ended the run by `limit`, or `limit` has not come; neither exactly at it when `strict`. */
  ghost predicate OverBy(armed: real, trace: seq<Event>, started: real, idle: real, ceiling: real,
                         limit: real, strict: bool) {
    || (exists k: nat :: Fires(armed, trace, started, idle, ceiling, k)
                         && trace[k].wake <= limit && (strict ==> trace[k].wake < limit))
    || (Now(armed, trace) <= limit && (strict ==> Now(armed, trace) < limit))
  }

  /** A limit that every poll from time `due` on would find reached ends the run by due + interval + late. */
  lemma EndsInTime(armed: real, trace: seq<Event>, started: real, idle: real, ceiling: real,
                   interval: real, late: real, due: real)
    requires Ordered(armed, trace) && Timed(armed, trace, started, interval, late)
    requires Due(armed, trace, started, idle, ceiling, due)
    ensures OverBy(armed, trace, started, idle, ceiling, Max(started, due) + interval + late, started < due)
  {
    hide Ordered, Timed, Due, Fires, LastWake;
    if Polls(trace) == [] || LastWake(started, trace) < due {
      NotYetDue(armed, trace, started, interval, late, due);
    } else {
      var k := FiresInTime(armed, trace, started, idle, ceiling, interval, late, due);
    }
  }

  /** Latency: a run silent from time `a` on is over before a + idle + poll + late. Whatever the trace, either
      a poll ended it by then or that time has not come yet. */
  lemma SilentRunIsKilledInTime(armed: real, trace: seq<Event>, started: real, idle: real, ceiling: real,
                                late: real, a: real)
    requires idle > 0.0 && armed <= a
    requires Ordered(armed, trace) && Timed(armed, trace, started, PollInterval(idle, ceiling), late)
    requires forall j :: 0 <= j < |trace| && trace[j].Heartbeat? ==> trace[j].at <= a
    ensures OverBy(armed, trace, started, idle, ceiling,
                   Max(started, a + idle) + PollInterval(idle, ceiling) + late, started < a + idle)
  {
    hide Ordered, Timed, OverBy, IdleAt;
    forall k | 0 <= k < |trace| && trace[k].Poll? && trace[k].wake >= a + idle
      ensures IdleAt(armed, trace, k, idle)
    {
      IdleMeansSilence(armed, trace, k, idle);
    }
    EndsInTime(armed, trace, started, idle, ceiling, PollInterval(idle, ceiling), late, a + idle);
  }

  /** A positive ceiling ends every run before started + ceiling + poll + late. */
  lemma CeilingEndsEveryRun(armed: real, trace: seq<Event>, started: real, idle: real, ceiling: real, late: real)
    requires idle > 0.0 && ceiling > 0.0
    requires Ordered(armed, trace) && Timed(armed, trace, started, PollInterval(idle, ceiling), late)
    ensures OverBy(armed, trace, started, idle, ceiling, started + ceiling + PollInterval(idle, ceiling) + late, true)
  {
    assert forall k :: 0 <= k < |trace| ==> Begin(trace[k]) <= End(trace[k]);
    hide Ordered, Timed, OverBy;
    EndsInTime(armed, trace, started, idle, ceiling, PollInterval(idle, ceiling), late, started + ceiling);
  }
}
