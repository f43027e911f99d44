/** The sandbox bridge of one agent session (src/webhook_receiver/sandbox_bridge.py).

    Everything the program awaits is a choice of the caller's schedule: it returns, raises an `Exception`,
    or is where a cancellation strikes. `CancelledError` is not an `Exception`, so `except Exception` does
    not see it. */
module SandboxBridge {

  datatype Await<+T> = Returns(value: T) | Raises | Cancelled

  function Propagate<T, U>(a: Await<T>): Await<U>
    requires !a.Returns?
  {
    if a.Raises? then Raises else Cancelled
  }

  // ---------------------------------------------------------------- _materialize

  /** One round of the materialize loop: the `docker cp`, the marker test, the clock read after it, the sleep. */
  datatype Attempt = Attempt(copy: Await<()>, ready: bool, now: real, sleep: Await<()>)

  /** A round leaves the loop going. */
  predicate GoesOn(a: Attempt, deadline: real) {
    a.copy.Returns? && !a.ready && a.now < deadline && a.sleep.Returns?
  }

  predicate CancelledAt(a: Attempt, deadline: real) {
    a.copy.Cancelled? || (a.copy.Returns? && !a.ready && a.now < deadline && a.sleep.Cancelled?)
  }

  predicate ReadyAt(a: Attempt) { a.copy.Returns? && a.ready }

  /** The rounds a run would make, and its deadline; `LastRound` is the one that ends the loop. */
  datatype Rounds = Rounds(attempts: seq<Attempt>, started: real, timeout: real) {
    function Deadline(): real { started + timeout }
  }

  predicate Ends(r: Rounds) {
    exists k :: 0 <= k < |r.attempts| && !GoesOn(r.attempts[k], r.Deadline())
  }

  type Materialization = r: Rounds | Ends(r) witness OneFailure()

  function OneFailure(): (r: Rounds)
    ensures Ends(r)
  {
    var r := Rounds([Attempt(Raises, false, 0.0, Raises)], 0.0, 0.0);
    assert !GoesOn(r.attempts[0], r.Deadline());
    r
  }

  function FirstEnd(attempts: seq<Attempt>, deadline: real): (k: nat)
    requires exists k :: 0 <= k < |attempts| && !GoesOn(attempts[k], deadline)
    ensures k < |attempts| && !GoesOn(attempts[k], deadline)
    ensures forall i :: 0 <= i < k ==> GoesOn(attempts[i], deadline)
  {
    if !GoesOn(attempts[0], deadline) then 0
    else
      assert forall k :: 1 <= k < |attempts| ==> attempts[1..][k - 1] == attempts[k];
      1 + FirstEnd(attempts[1..], deadline)
  }

  function LastRound(r: Materialization): Attempt { r.attempts[FirstEnd(r.attempts, r.Deadline())] }

  /** How the loop is left: ready, cancelled, or with an exception (a failed copy or the deadline). */
  function MaterializeOutcome(r: Materialization): Await<()> {
    if ReadyAt(LastRound(r)) then Returns(())
    else if CancelledAt(LastRound(r), r.Deadline()) then Cancelled
    else Raises
  }

  method Materialize(r: Materialization) returns (outcome: Await<()>)
    ensures outcome == MaterializeOutcome(r)
  {
    var deadline := r.started + r.timeout;
    var i := 0;
    while true
      invariant i <= FirstEnd(r.attempts, deadline)
      decreases FirstEnd(r.attempts, deadline) - i
    {
      var a := r.attempts[i];
      if !a.copy.Returns? {
        return Propagate(a.copy);
      }
      if a.ready {
        return Returns(());
      }
      if a.now >= deadline {
        return Raises;
      }
      if !a.sleep.Returns? {
        return Propagate(a.sleep);
      }
      i := i + 1;
    }
  }

  /** How the loop is left, by what its rounds did: up to some round all copies came, without the markers, before
      `started + timeout`, and were slept on; that round is ready, or was cancelled in its copy or sleep, or failed
      in them, or found the time up. In particular it is not given up before `started + timeout` unless a copy or
      a sleep failed. */
  lemma OutcomeByRounds(r: Materialization) returns (k: nat)
    ensures k < |r.attempts|
    ensures forall i :: 0 <= i < k ==>
              && r.attempts[i].copy.Returns? && !r.attempts[i].ready && r.attempts[i].now < r.started + r.timeout
              && r.attempts[i].sleep.Returns?
    ensures var a := r.attempts[k];
            MaterializeOutcome(r) ==
            if !a.copy.Returns? then (if a.copy.Raises? then Raises else Cancelled)
            else if a.ready then Returns(())
            else if a.now >= r.started + r.timeout then Raises
            else if a.sleep.Cancelled? then Cancelled else Raises
    ensures var a := r.attempts[k];
            a.copy.Returns? && !a.ready ==> a.now >= r.started + r.timeout || !a.sleep.Returns?
  {
    k := FirstEnd(r.attempts, r.Deadline());
    assert forall i :: 0 <= i < k ==> GoesOn(r.attempts[i], r.Deadline());
    hide FirstEnd;
  }

  /** The sleep between rounds lasts two seconds. */
  ghost predicate Paced(attempts: seq<Attempt>, started: real) {
    && (|attempts| > 0 ==> started <= attempts[0].now)
    && forall k :: 0 <= k < |attempts| - 1 ==> attempts[k].now + 2.0 <= attempts[k + 1].now
  }

  /** The loop is over after at most timeout / 2 + 1 rounds, whatever the container does. */
  lemma {:induction false} RoundsAreBounded(attempts: seq<Attempt>, started: real, timeout: real, k: nat)
    requires Paced(attempts, started) && k < |attempts| && 2.0 * k as real >= timeout
    ensures attempts[k].now >= started + 2.0 * k as real
    ensures !GoesOn(attempts[k], started + timeout)
    ensures Ends(Rounds(attempts, started, timeout))
  {
    PacedTime(attempts, started, k);
  }

  lemma {:induction false} PacedTime(attempts: seq<Attempt>, started: real, k: nat)
    requires Paced(attempts, started) && k < |attempts|
    ensures attempts[k].now >= started + 2.0 * k as real
  {
    if k > 0 {
      PacedTime(attempts, started, k - 1);
      assert attempts[k - 1].now + 2.0 <= attempts[k - 1 + 1].now;
    }
  }

  // ---------------------------------------------------------------- prepare and release

  datatype HostEvent =
    | SandboxProvisioned(sandboxId: string)
    | SandboxReleased(releasedId: string, deleted: bool)
    | AgentSessionStarted(sessionId: string)
    | AgentFinished(ok: bool)

  /** The awaits of `prepare`: the POST (the id it returned), the materialize loop, the cleanup DELETE, and
      the removal of `origin`. */
  datatype Preparation = Preparation(create: Await<string>, rounds: Materialization, cleanup: Await<bool>, detach: Await<()>)

  predicate Prepared(p: Preparation) {
    p.create.Returns? && MaterializeOutcome(p.rounds).Returns? && p.detach.Returns?
  }

  /** The cancellations that `prepare` passes on. */
  predicate PrepareCancelled(p: Preparation) {
    || p.create.Cancelled?
    || (p.create.Returns? &&
        (|| MaterializeOutcome(p.rounds).Cancelled?
         || (MaterializeOutcome(p.rounds).Raises? && p.cleanup.Cancelled?)
         || (MaterializeOutcome(p.rounds).Returns? && p.detach.Cancelled?)))
  }

  /** `deletes` lists the sandbox ids for which a DELETE was attempted. */
  method Prepare(p: Preparation) returns (sandbox: Await<string>, deletes: seq<string>, events: seq<HostEvent>)
    ensures sandbox.Returns? <==> Prepared(p)
    ensures sandbox.Returns? ==> sandbox.value == p.create.value
    ensures events == if Prepared(p) then [SandboxProvisioned(p.create.value)] else []
    ensures deletes == if p.create.Returns? && MaterializeOutcome(p.rounds).Raises? then [p.create.value] else []
    ensures sandbox.Cancelled? <==> PrepareCancelled(p)
  {
    deletes, events := [], [];
    if !p.create.Returns? {
      return Propagate(p.create), deletes, events;
    }
    var materialized := Materialize(p.rounds);
    if !materialized.Returns? {
      if materialized.Cancelled? {
        return Cancelled, deletes, events;
      }
      deletes := deletes + [p.create.value];
      return if p.cleanup.Returns? then Raises else Propagate(p.cleanup), deletes, events;
    }
    if !p.detach.Returns? {
      return Propagate(p.detach), deletes, events;
    }
    events := events + [SandboxProvisioned(p.create.value)];
    return Returns(p.create.value), deletes, events;
  }

  /** `release` never raises an `Exception`: a failed DELETE only shows in the event. A cancelled one goes
      through it, and nothing is emitted. */
  method Release(sandboxId: string, delete: Await<bool>)
    returns (left: Await<()>, deletes: seq<string>, events: seq<HostEvent>)
    ensures deletes == [sandboxId]
    ensures !left.Raises? && (left.Cancelled? <==> delete.Cancelled?)
    ensures events == if left.Cancelled? then [] else [SandboxReleased(sandboxId, delete == Returns(true))]
  {
    deletes := [sandboxId];
    if delete.Cancelled? {
      return Cancelled, deletes, [];
    }
    var ok := delete.Returns? && delete.value;
    return Returns(()), deletes, [SandboxReleased(sandboxId, ok)];
  }
}
