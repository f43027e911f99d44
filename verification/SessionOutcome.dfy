/** What a session comes to, read off its awaits one after another (src/webhook_receiver/acp_host.py, `AcpHost.run`):
    the first await that does not return decides, the exit of the spawn context and the cleanup having the last
    word. The events, the DELETEs and the outcome that `AcpHost` gives a schedule are proved to be these. */
module SessionOutcomes {
  import opened Sequences
  import opened SandboxBridge
  import opened AcpHost

  /** An await or a call returned, raised an `Exception`, or was cancelled. */
  datatype Kind = Fine | Fault | Stop

  function Of<T>(a: Await<T>): Kind {
    match a
    case Returns(_) => Fine
    case Raises => Fault
    case Cancelled => Stop
  }

  function Called(ok: bool): Kind { if ok then Fine else Fault }

  function Struck(b: bool): Kind { if b then Stop else Fine }

  /** The first that is not fine. */
  function First(kinds: seq<Kind>): Kind {
    if kinds == [] then Fine else if kinds[0] != Fine then kinds[0] else First(kinds[1..])
  }

  /** Getting a sandbox: POST, materialize, detach. A cancelled DELETE after a failed materialize is a cancellation. */
  function Getting(p: Preparation): seq<Kind> {
    [Of(p.create),
     if MaterializeOutcome(p.rounds).Raises? && p.cleanup.Cancelled? then Stop else Of(MaterializeOutcome(p.rounds)),
     Of(p.detach)]
  }

  /** Up to the `try` block. */
  function Before(s: Schedule): Kind {
    First([Called(s.binFound),
           if s.bridge.Some? then First(Getting(s.bridge.value)) else Of(s.workspace),
           Called(s.denyConfigWritten)])
  }

  /** The awaits of the `try` block, and the verdict of the race. */
  function Inside(s: Schedule): seq<Kind> {
    [Of(s.spawn), Of(s.initialize), Of(s.newSession), Of(s.wait),
     Called(s.wait.Returns? && s.wait.value.prompt.Result?)]
  }

  /** How the `try` block is left: leaving the spawn context has the last word once it was entered. */
  function Left(s: Schedule): Kind {
    if s.spawn.Returns? && Of(s.exit) != Fine then Of(s.exit) else First(Inside(s))
  }

  /** The cleanup up to the release, and the release. */
  function Sweep(s: Schedule): seq<Kind> {
    [Struck(s.spawn.Returns? && s.drainCancelled),
     Called(!s.traced || s.traceClosed),
     Struck(s.spawn.Returns? && !s.exited && s.reapCancelled),
     Struck(s.bridge.Some? && (s.shieldCancelled || s.release.Cancelled?))]
  }

  lemma FirstOfThree(a: Kind, b: Kind, c: Kind)
    ensures First([a, b, c]) == if a != Fine then a else if b != Fine then b else c
  {
    assert [a, b, c][1..] == [b, c];
    FirstOfTwo(b, c);
  }

  lemma FirstOfFour(a: Kind, b: Kind, c: Kind, d: Kind)
    ensures First([a, b, c, d]) == if a != Fine then a else First([b, c, d])
  {
    assert [a, b, c, d][1..] == [b, c, d];
  }

  lemma FirstOfFive(a: Kind, b: Kind, c: Kind, d: Kind, e: Kind)
    ensures First([a, b, c, d, e]) == if a != Fine then a else First([b, c, d, e])
  {
    assert [a, b, c, d, e][1..] == [b, c, d, e];
  }

  lemma GettingIs(p: Preparation)
    ensures First(Getting(p)) == Fine <==> Prepared(p)
    ensures First(Getting(p)) == Stop <==> PrepareCancelled(p)
  {
    hide First, MaterializeOutcome;
    var g := Getting(p);
    FirstOfThree(g[0], g[1], g[2]);
    assert g == [g[0], g[1], g[2]];
  }

  lemma BeforeIs(s: Schedule)
    ensures Before(s) == Fine <==> Entered(s)
    ensures Before(s) != Fine ==> (Before(s) == Stop <==> EndsCancelled(s))
  {
    hide First, MaterializeOutcome, Prepared, PrepareCancelled, Getting, CleanupCancelled, CleanupCompletes, CancelledInside;
    if s.bridge.Some? {
      GettingIs(s.bridge.value);
    }
    FirstOfThree(Called(s.binFound), if s.bridge.Some? then First(Getting(s.bridge.value)) else Of(s.workspace),
                 Called(s.denyConfigWritten));
  }

  lemma LeftIs(s: Schedule)
    requires Entered(s) && (s.wait.Returns? ==> RaceIsOver(s.wait.value))
    ensures Left(s) == Fine <==> PromptWon(s)
    ensures Left(s) == Stop <==> CancelledInside(s)
  {
    hide First, Entered;
    var k := Inside(s);
    assert k == [k[0], k[1], k[2], k[3], k[4]];
    FirstOfFive(k[0], k[1], k[2], k[3], k[4]);
    FirstOfFour(k[1], k[2], k[3], k[4]);
    FirstOfThree(k[2], k[3], k[4]);
  }

  lemma SweepIs(s: Schedule)
    ensures First(Sweep(s)) == Fine <==> CleanupCompletes(s)
    ensures First(Sweep(s)) == Stop <==> CleanupCancelled(s)
    ensures First(Sweep(s)[..3]) == Fine <==> !CutBeforeRelease(s)
    ensures First(Sweep(s)[..2]) == Fine <==> !CutBeforeKill(s)
  {
    hide First;
    var k := Sweep(s);
    assert k == [k[0], k[1], k[2], k[3]] && k[..3] == [k[0], k[1], k[2]] && k[..2] == [k[0], k[1]];
    FirstOfFour(k[0], k[1], k[2], k[3]);
    FirstOfThree(k[1], k[2], k[3]);
    FirstOfThree(k[0], k[1], k[2]);
    FirstOfTwo(k[0], k[1]);
  }

  lemma FirstOfTwo(a: Kind, b: Kind)
    ensures First([a, b]) == if a != Fine then a else b
  {
    assert [a, b][1..] == [b];
    assert First([b]) == b by {
      assert [b][1..] == [];
      assert First([]) == Fine;
    }
  }

  /** The outcome of every schedule: failed or cancelled by what came before the `try`; else cancelled when the
      cleanup was, or when it completed and the `try` was left by a cancellation; completed when both were fine
      and the success was recorded. */
  lemma OutcomeByAwaits(s: Schedule)
    requires s.wait.Returns? ==> RaceIsOver(s.wait.value)
    ensures EndsCancelled(s) <==>
            if Before(s) != Fine then Before(s) == Stop
            else First(Sweep(s)) == Stop || (First(Sweep(s)) == Fine && Left(s) == Stop)
    ensures PromptWon(s) && CleanupCompletes(s) <==> Before(s) == Fine && Left(s) == Fine && First(Sweep(s)) == Fine
  {
    hide First, Before, Left, Sweep, Inside;
    BeforeIs(s);
    SweepIs(s);
    if Entered(s) {
      LeftIs(s);
      InsideTry(s);
    } else {
      OutsideTry(s);
    }
    hide Entered, EndsCancelled, PromptWon, CleanupCompletes, CleanupCancelled, CancelledInside;
  }

  lemma InStream(b1: bool, b2: bool, b3: bool, b4: bool, b5: bool, id: string, session: string, deleted: bool, e: HostEvent)
    ensures e in Stream(b1, b2, b3, b4, b5, id, session, deleted) <==>
            match e
            case SandboxProvisioned(x) => b1 && x == id
            case AgentSessionStarted(x) => b2 && x == session
            case AgentFinished(ok) => if ok then b5 else b3
            case SandboxReleased(x, y) => b4 && x == id && y == deleted
  {
    hide When;
    InWhen(b1, SandboxProvisioned(id), e);
    InWhen(b2, AgentSessionStarted(session), e);
    InWhen(b3, AgentFinished(false), e);
    InWhen(b4, SandboxReleased(id, deleted), e);
    InWhen(b5, AgentFinished(true), e);
  }

  lemma InWhen(b: bool, x: HostEvent, e: HostEvent)
    ensures e in When(b, x) <==> b && e == x
  {
  }

  /** Which events a schedule emits, each with its payload. */
  lemma EventsByAwaits(s: Schedule, e: HostEvent)
    requires s.wait.Returns? ==> RaceIsOver(s.wait.value)
    ensures e in ExpectedEvents(s) <==>
            match e
            case SandboxProvisioned(id) =>
              s.binFound && s.bridge.Some? && First(Getting(s.bridge.value)) == Fine && s.bridge.value.create == Returns(id)
            case AgentSessionStarted(id) =>
              Before(s) == Fine && s.spawn.Returns? && s.initialize.Returns? && s.newSession == Returns(id)
            case AgentFinished(ok) =>
              if ok then Before(s) == Fine && Left(s) == Fine && First(Sweep(s)) == Fine
              else Before(s) == Fine && Left(s) == Fault
            case SandboxReleased(id, ok) =>
              Before(s) == Fine && s.bridge.Some? && First(Sweep(s)[..3]) == Fine && !s.release.Cancelled?
              && s.bridge.value.create == Returns(id) && (ok <==> s.release == Returns(true))
  {
    hide First, Before, Left, Sweep, Inside, Getting, MaterializeOutcome, Stream, PromptWon, CancelledInside,
         CutBeforeRelease, CleanupCompletes, Entered;
    if s.bridge.Some? {
      GettingIs(s.bridge.value);
    }
    BeforeIs(s);
    SweepIs(s);
    EnteredHas(s);
    if Entered(s) {
      LeftIs(s);
    }
    InStream(
      s.binFound && s.bridge.Some? && Prepared(s.bridge.value), SessionOpened(s),
      Entered(s) && !PromptWon(s) && !CancelledInside(s),
      Entered(s) && s.bridge.Some? && !CutBeforeRelease(s) && !s.release.Cancelled?,
      PromptWon(s) && CleanupCompletes(s), SandboxId(s), SessionId(s), s.release == Returns(true), e);
  }

  lemma EnteredHas(s: Schedule)
    ensures Entered(s) && s.bridge.Some? ==> s.bridge.value.create.Returns?
    ensures PromptWon(s) ==> Entered(s) && !CancelledInside(s)
  {
    hide MaterializeOutcome;
    WonIsNotCancelled(s);
    hide CancelledInside;
  }

  /** A session cancelled at the first of spawn, initialize, new session and prompt that does not return, the
      spawn context being left without an error, emits no `agent_finished`, and the run ends cancelled when the
      cleanup goes through. */
  lemma CancelledSessionIsSilent(s: Schedule)
    requires s.wait.Returns? ==> RaceIsOver(s.wait.value)
    requires Before(s) == Fine && First([Of(s.spawn), Of(s.initialize), Of(s.newSession), Of(s.wait)]) == Stop
    requires s.spawn.Returns? ==> s.exit.Returns?
    ensures AgentFinished(true) !in ExpectedEvents(s) && AgentFinished(false) !in ExpectedEvents(s)
    ensures First(Sweep(s)) == Fine ==> EndsCancelled(s)
  {
    hide First, Before, Sweep, ExpectedEvents, EndsCancelled;
    StopIsInside(s);
    EventsByAwaits(s, AgentFinished(true));
    EventsByAwaits(s, AgentFinished(false));
    OutcomeByAwaits(s);
  }

  lemma StopIsInside(s: Schedule)
    ensures First([Of(s.spawn), Of(s.initialize), Of(s.newSession), Of(s.wait)]) == Stop ==> First(Inside(s)) == Stop
  {
    hide First;
    var k := Inside(s);
    assert k == [k[0], k[1], k[2], k[3], k[4]];
    FirstOfFive(k[0], k[1], k[2], k[3], k[4]);
    FirstOfFour(k[1], k[2], k[3], k[4]);
    FirstOfThree(k[2], k[3], k[4]);
    FirstOfFour(k[0], k[1], k[2], k[3]);
    FirstOfThree(k[1], k[2], k[3]);
  }

  /** Conversely, a session that was entered and whose cleanup completed is silent about its end only when it was
      cancelled: at the first await that did not return, or in leaving the spawn context. */
  lemma SilentSessionWasCancelled(s: Schedule)
    requires s.wait.Returns? ==> RaceIsOver(s.wait.value)
    requires Before(s) == Fine && First(Sweep(s)) == Fine
    requires AgentFinished(true) !in ExpectedEvents(s) && AgentFinished(false) !in ExpectedEvents(s)
    ensures EndsCancelled(s)
    ensures (s.spawn.Returns? && s.exit.Cancelled?) ||
            ((s.spawn.Returns? ==> s.exit.Returns?) &&
             First([Of(s.spawn), Of(s.initialize), Of(s.newSession), Of(s.wait)]) == Stop)
  {
    EventsByAwaits(s, AgentFinished(true));
    EventsByAwaits(s, AgentFinished(false));
    OutcomeByAwaits(s);
    hide First, Before, Sweep, ExpectedEvents, EndsCancelled;
    assert Left(s) == Stop;
    InsideIsStop(s);
  }

  lemma InsideIsStop(s: Schedule)
    ensures First(Inside(s)) == Stop ==> First([Of(s.spawn), Of(s.initialize), Of(s.newSession), Of(s.wait)]) == Stop
  {
    hide First;
    var k := Inside(s);
    assert k == [k[0], k[1], k[2], k[3], k[4]];
    FirstOfFive(k[0], k[1], k[2], k[3], k[4]);
    FirstOfFour(k[1], k[2], k[3], k[4]);
    FirstOfThree(k[2], k[3], k[4]);
    FirstOfFour(k[0], k[1], k[2], k[3]);
    FirstOfThree(k[1], k[2], k[3]);
  }

  /** The DELETEs of a schedule. */
  lemma DeletesByAwaits(s: Schedule)
    ensures ExpectedDeletes(s) ==
            if s.binFound && s.bridge.Some? && s.bridge.value.create.Returns?
               && (MaterializeOutcome(s.bridge.value.rounds).Raises? || (Before(s) == Fine && First(Sweep(s)[..3]) == Fine))
            then [s.bridge.value.create.value] else []
  {
    BeforeIs(s);
    SweepIs(s);
    hide First, Before, Sweep, MaterializeOutcome, CutBeforeRelease;
  }

  /** Where the process of a run ends: a run whose drainer and trace close return leaves none running. */
  lemma NoProcessIsLeft(s: Schedule)
    ensures First(Sweep(s)[..2]) == Fine <==> !CutBeforeKill(s)
    ensures !CutBeforeKill(s) <==> !(s.spawn.Returns? && s.drainCancelled) && (s.traced ==> s.traceClosed)
  {
    SweepIs(s);
  }

  function Rank(e: HostEvent): nat {
    match e
    case SandboxProvisioned(_) => 0
    case AgentSessionStarted(_) => 1
    case AgentFinished(ok) => if ok then 4 else 2
    case SandboxReleased(_, _) => 3
  }

  /** Events come in one order, each kind at most once: provisioned, started, failed, released, succeeded. */
  lemma EventsInOrder(s: Schedule, i: nat, j: nat)
    requires i < j < |ExpectedEvents(s)|
    ensures Rank(ExpectedEvents(s)[i]) < Rank(ExpectedEvents(s)[j])
  {
    hide Entered, SessionOpened, PromptWon, CancelledInside, CutBeforeRelease, CleanupCompletes, Stream, Prepared;
    StreamInOrder(
      s.binFound && s.bridge.Some? && Prepared(s.bridge.value), SessionOpened(s),
      Entered(s) && !PromptWon(s) && !CancelledInside(s),
      Entered(s) && s.bridge.Some? && !CutBeforeRelease(s) && !s.release.Cancelled?,
      PromptWon(s) && CleanupCompletes(s), SandboxId(s), SessionId(s), s.release == Returns(true), i, j);
  }

  ghost predicate Ranked(events: seq<HostEvent>, limit: nat) {
    && (forall i :: 0 <= i < |events| ==> Rank(events[i]) < limit)
    && forall i, j :: 0 <= i < j < |events| ==> Rank(events[i]) < Rank(events[j])
  }

  lemma RankedPush(events: seq<HostEvent>, b: bool, e: HostEvent)
    requires Ranked(events, Rank(e))
    ensures Ranked(events + When(b, e), Rank(e) + 1)
  {
    assert When(b, e) == [] || When(b, e) == [e];
  }

  lemma StreamInOrder(b1: bool, b2: bool, b3: bool, b4: bool, b5: bool, id: string, session: string,
                      deleted: bool, i: nat, j: nat)
    requires i < j < |Stream(b1, b2, b3, b4, b5, id, session, deleted)|
    ensures var e := Stream(b1, b2, b3, b4, b5, id, session, deleted); Rank(e[i]) < Rank(e[j])
  {
    hide When;
    var e1, e2, e3 := SandboxProvisioned(id), AgentSessionStarted(session), AgentFinished(false);
    var e4, e5 := SandboxReleased(id, deleted), AgentFinished(true);
    RankedPush([], b1, e1);
    assert [] + When(b1, e1) == When(b1, e1);
    RankedPush(When(b1, e1), b2, e2);
    RankedPush(When(b1, e1) + When(b2, e2), b3, e3);
    RankedPush(When(b1, e1) + When(b2, e2) + When(b3, e3), b4, e4);
    RankedPush(When(b1, e1) + When(b2, e2) + When(b3, e3) + When(b4, e4), b5, e5);
  }
}
