/** The in-process prompt queue (src/webhook_receiver/prompt_queue.py).

    `Spec` is the simple form: the list of accepted envelopes and a cursor. `PromptQueue` is the fast
    form the program runs: a set, a bounded deque and a FIFO. The class is proved to behave like `Spec`,
    and the queue's promises are proved of every run of `Spec`. */
module PromptQueues {
  import opened Sequences

  datatype PromptInfo = PromptInfo(
    id: string, deliveryId: string, repo: string, event: string, action: string, labelName: string)

  /** How one execution of the host ended; `NoHost` is the placeholder without a host. */
  datatype HostOutcome =
    | NoHost
    | Completed(sessionId: string, stopReason: string)
    | Failed(error: string)
    | Cancelled

  datatype PromptConsumed =
    | Succeeded(info: PromptInfo, session: Option<(string, string)>)
    | Dropped(id: string, deliveryId: string, error: string)

  datatype Consumer = Waiting | Executing | Stopped

  datatype Spec = Spec(accepted: seq<PromptInfo>, taken: nat, events: seq<PromptConsumed>, consumer: Consumer)

  datatype Op =
    | Enqueue(info: PromptInfo)
    | Take
    | Finish(outcome: HostOutcome)
    | CancelWait

  const EMPTY := Spec([], 0, [], Waiting)

  function Ids(s: seq<PromptInfo>): (r: seq<string>) {
    seq(|s|, i requires 0 <= i < |s| => s[i].deliveryId)
  }

  /** The rule a reader would write: scan the last `capacity` accepted ids. A capacity of 0 never forgets. */
  predicate Duplicate(accepted: seq<PromptInfo>, id: string, capacity: nat) {
    id in Window(Ids(accepted), capacity)
  }

  function Window(ids: seq<string>, capacity: nat): seq<string> {
    if capacity == 0 then ids else LastN(ids, capacity)
  }

  function Report(info: PromptInfo, outcome: HostOutcome): PromptConsumed
    requires !outcome.Cancelled?
  {
    match outcome
    case NoHost => Succeeded(info, None)
    case Completed(session, stop) => Succeeded(info, Some((session, stop)))
    case Failed(error) => Dropped(info.id, info.deliveryId, error)
  }

  predicate Enabled(s: Spec, op: Op) {
    match op
    case Enqueue(_) => true
    case Take => s.consumer.Waiting? && s.taken < |s.accepted|
    case Finish(_) => s.consumer.Executing? && 0 < s.taken <= |s.accepted|
    case CancelWait => s.consumer.Waiting?
  }

  function Next(s: Spec, op: Op, capacity: nat): Spec
    requires Enabled(s, op)
  {
    match op
    case Enqueue(info) =>
      if Duplicate(s.accepted, info.deliveryId, capacity) then s else s.(accepted := s.accepted + [info])
    case Take => s.(taken := s.taken + 1, consumer := Executing)
    case Finish(outcome) =>
      if outcome.Cancelled? then s.(consumer := Stopped)
      else s.(events := s.events + [Report(s.accepted[s.taken - 1], outcome)], consumer := Waiting)
    case CancelWait => s.(consumer := Stopped)
  }

  /** The state after a run from the empty queue, or `None` when some operation was not enabled. */
  function After(ops: seq<Op>, capacity: nat): (r: Option<Spec>) {
    if ops == [] then Some(EMPTY)
    else
      var before := After(ops[..|ops| - 1], capacity);
      var op := ops[|ops| - 1];
      if before.Some? && Enabled(before.value, op) then Some(Next(before.value, op, capacity)) else None
  }

  /** The host outcomes of a run in order, cancelled executions aside. */
  function Outcomes(ops: seq<Op>): (r: seq<HostOutcome>)
    ensures forall k :: 0 <= k < |r| ==> !r[k].Cancelled?
  {
    if ops == [] then []
    else
      var op := ops[|ops| - 1];
      Outcomes(ops[..|ops| - 1]) + (if op.Finish? && !op.outcome.Cancelled? then [op.outcome] else [])
  }

  /** Two acceptances of one delivery id are more than `capacity` acceptances apart. */
  ghost predicate Spaced(ids: seq<string>, capacity: nat) {
    forall i, j :: 0 <= i < j < |ids| && ids[i] == ids[j] ==> capacity > 0 && j - i - 1 >= capacity
  }

  /** Everything taken has been reported, except a running or abandoned envelope. */
  ghost predicate Conserved(s: Spec) {
    && s.taken <= |s.accepted|
    && |s.events| <= s.taken <= |s.events| + 1
    && (s.consumer.Waiting? ==> s.taken == |s.events|)
    && (s.consumer.Executing? ==> s.taken == |s.events| + 1)
  }

  ghost predicate Inv(s: Spec, capacity: nat) {
    Spaced(Ids(s.accepted), capacity) && Conserved(s)
  }

  lemma OfferKeepsSpacing(accepted: seq<PromptInfo>, info: PromptInfo, capacity: nat)
    requires Spaced(Ids(accepted), capacity)
    requires !Duplicate(accepted, info.deliveryId, capacity)
    ensures Spaced(Ids(accepted + [info]), capacity)
  {
    var ids := Ids(accepted);
    var tail := Window(ids, capacity);
    assert Ids(accepted + [info]) == ids + [info.deliveryId];
    assert forall i :: |ids| - |tail| <= i < |ids| ==> ids[i] == tail[i - (|ids| - |tail|)];
    assert forall i :: |ids| - |tail| <= i < |ids| ==> ids[i] != info.deliveryId;
  }

  lemma StepKeepsInv(s: Spec, op: Op, capacity: nat)
    requires Inv(s, capacity) && Enabled(s, op)
    ensures Inv(Next(s, op, capacity), capacity)
  {
    if op.Enqueue? && !Duplicate(s.accepted, op.info.deliveryId, capacity) {
      OfferKeepsSpacing(s.accepted, op.info, capacity);
    }
  }

  /** Over every run, acceptances of one id are spaced out and the events account for what was taken. */
  lemma {:induction false} RunKeepsInv(ops: seq<Op>, capacity: nat)
    requires After(ops, capacity).Some?
    ensures Inv(After(ops, capacity).value, capacity)
  {
    if ops != [] {
      RunKeepsInv(ops[..|ops| - 1], capacity);
      StepKeepsInv(After(ops[..|ops| - 1], capacity).value, ops[|ops| - 1], capacity);
    }
  }

  /** One event per execution that was not cancelled, in acceptance order, with that execution's own outcome. */
  lemma {:induction false} EventsFollowOutcomes(ops: seq<Op>, capacity: nat)
    requires After(ops, capacity).Some?
    ensures var t := After(ops, capacity).value;
            && |t.events| == |Outcomes(ops)| <= |t.accepted|
            && forall k :: 0 <= k < |t.events| ==> t.events[k] == Report(t.accepted[k], Outcomes(ops)[k])
  {
    if ops != [] {
      EventsFollowOutcomes(ops[..|ops| - 1], capacity);
      RunKeepsInv(ops[..|ops| - 1], capacity);
      RunKeepsInv(ops, capacity);
    }
  }

  /** What the events say, field by field: `ok` is false exactly for a failed host run, with the envelope's ids
      and that run's error; otherwise the event is that envelope's, with the session of a completed run. */
  lemma EventsTellOutcomes(ops: seq<Op>, capacity: nat, t: Spec, k: nat)
    requires After(ops, capacity) == Some(t) && k < |t.events|
    ensures k < |Outcomes(ops)| && k < |t.accepted|
    ensures var e, outcome, info := t.events[k], Outcomes(ops)[k], t.accepted[k];
            && (e.Dropped? <==> outcome.Failed?)
            && (outcome.Failed? ==> e.id == info.id && e.deliveryId == info.deliveryId && e.error == outcome.error)
            && (!outcome.Failed? ==> e.info == info)
            && (outcome.Completed? ==> e.session == Some((outcome.sessionId, outcome.stopReason)))
            && (outcome.NoHost? ==> e.session == None)
  {
    hide After, Outcomes;
    EventsFollowOutcomes(ops, capacity);
  }

  /** A delivery id is a duplicate exactly when one of the last `capacity` accepted envelopes carries it; with a
      capacity of 0, when any does. */
  lemma DuplicateMeans(accepted: seq<PromptInfo>, id: string, capacity: nat)
    ensures Duplicate(accepted, id, capacity) <==>
            exists k :: 0 <= k < |accepted| && accepted[k].deliveryId == id && (capacity == 0 || |accepted| - k <= capacity)
  {
    var ids := Ids(accepted);
    var w := Window(ids, capacity);
    assert forall x :: 0 <= x < |w| ==> w[x] == accepted[|ids| - |w| + x].deliveryId;
    if k :| 0 <= k < |accepted| && accepted[k].deliveryId == id && (capacity == 0 || |accepted| - k <= capacity) {
      assert w[k - (|ids| - |w|)] == id;
    }
  }

  /** Over every run, two accepted envelopes with one delivery id have at least `capacity` others between them. */
  lemma AcceptancesAreSpaced(ops: seq<Op>, capacity: nat, t: Spec, i: nat, j: nat)
    requires After(ops, capacity) == Some(t) && i < j < |t.accepted|
    requires t.accepted[i].deliveryId == t.accepted[j].deliveryId
    ensures capacity > 0 && j - i - 1 >= capacity
  {
    hide After;
    RunKeepsInv(ops, capacity);
    assert Ids(t.accepted)[i] == Ids(t.accepted)[j];
  }

  /** accepted == reported ++ (in flight or abandoned) ++ pending, in acceptance order, after any run. */
  lemma Conservation(ops: seq<Op>, capacity: nat, t: Spec)
    requires After(ops, capacity) == Some(t)
    ensures |t.events| <= t.taken <= |t.accepted|
    ensures t.accepted == t.accepted[..|t.events|] + t.accepted[|t.events|..t.taken] + t.accepted[t.taken..]
    ensures |t.accepted[|t.events|..t.taken]| <= 1
    ensures |t.events| == |Outcomes(ops)|
    ensures forall k :: 0 <= k < |t.events| ==> t.events[k] == Report(t.accepted[k], Outcomes(ops)[k])
    ensures Spaced(Ids(t.accepted), capacity)
    ensures t.consumer.Waiting? && t.taken == |t.accepted| ==> |t.events| == |t.accepted|
  {
    hide After, Outcomes, Report, Spaced;
    RunKeepsInv(ops, capacity);
    EventsFollowOutcomes(ops, capacity);
    SplitInThree(t.accepted, |t.events|, t.taken);
  }

  lemma SplitInThree(s: seq<PromptInfo>, i: nat, j: nat)
    requires i <= j <= |s|
    ensures s == s[..i] + s[i..j] + s[j..]
  {
  }

  /** The documented rule ("within the last `dedup_capacity` deliveries") is the code's rule unless the
      capacity is 0 and the id was accepted before: the set then never evicts. */
  lemma DocumentedRuleHoldsIff(accepted: seq<PromptInfo>, id: string, capacity: nat)
    ensures (Duplicate(accepted, id, capacity) <==> id in LastN(Ids(accepted), capacity))
            <==> (capacity > 0 || id !in Ids(accepted))
  {
  }

  predicate HasCancellation(ops: seq<Op>) {
    if ops == [] then false
    else
      var op := ops[|ops| - 1];
      HasCancellation(ops[..|ops| - 1]) || op.CancelWait? || (op.Finish? && op.outcome.Cancelled?)
  }

  /** Without a cancellation the consumer never stops, so nothing is ever abandoned. */
  lemma {:induction false} OnlyCancellationStops(ops: seq<Op>, capacity: nat)
    requires After(ops, capacity).Some?
    ensures After(ops, capacity).value.consumer.Stopped? <==> HasCancellation(ops)
  {
    if ops != [] {
      OnlyCancellationStops(ops[..|ops| - 1], capacity);
    }
  }

  /** The set and the deque both hold exactly the remembered window of accepted ids. */
  ghost predicate Remembers(seen: set<string>, order: seq<string>, ids: seq<string>, capacity: nat) {
    && order == LastN(ids, capacity)
    && forall id :: id in seen <==> id in Window(ids, capacity)
  }

  /** The FIFO, the envelope in hand and asyncio's count of unfinished tasks, all read off the cursor. */
  ghost predicate Mirrors(queue: seq<PromptInfo>, current: Option<PromptInfo>, unfinished: nat, s: Spec) {
    && s.taken <= |s.accepted|
    && queue == s.accepted[s.taken..]
    && (s.consumer.Executing? ==> s.taken > 0)
    && current == (if s.consumer.Executing? then Some(s.accepted[s.taken - 1]) else None)
    && unfinished == |queue| + (if s.consumer.Executing? then 1 else 0)
  }

  /** Discarding the deque's head before a push keeps the set equal to the deque, because the deque never
      repeats an id. */
  lemma EvictionKeepsSetInSync(seen: set<string>, order: seq<string>, ids: seq<string>, id: string, capacity: nat)
    requires Spaced(ids, capacity) && Remembers(seen, order, ids, capacity) && id !in seen
    ensures var kept := if capacity != 0 && |order| == capacity then seen - {order[0]} else seen;
            Remembers(kept + {id}, LastN(order + [id], capacity), ids + [id], capacity)
  {
    LastNPush(ids, id, capacity);
    var w := Window(ids + [id], capacity);
    if capacity > 0 && |order| == capacity {
      assert w == order[1..] + [id];
      assert order == [order[0]] + order[1..];
      assert order[0] !in order[1..] by {
        assert forall i :: 0 <= i < |order| ==> order[i] == ids[|ids| - |order| + i];
      }
    } else {
      assert w == Window(ids, capacity) + [id];
    }
  }

  /** One accepted offer, on the values of the fields. */
  lemma AcceptRefines(model: Spec, info: PromptInfo, capacity: nat, seen: set<string>, order: seq<string>,
                      queue: seq<PromptInfo>, current: Option<PromptInfo>, unfinished: nat)
    requires Inv(model, capacity) && Remembers(seen, order, Ids(model.accepted), capacity)
    requires Mirrors(queue, current, unfinished, model)
    ensures info.deliveryId in seen <==> Duplicate(model.accepted, info.deliveryId, capacity)
    ensures info.deliveryId in seen ==> Next(model, Op.Enqueue(info), capacity) == model
    ensures info.deliveryId !in seen ==>
              var next := model.(accepted := model.accepted + [info]);
              var kept := if capacity != 0 && |order| == capacity then seen - {order[0]} else seen;
              && next == Next(model, Op.Enqueue(info), capacity)
              && Inv(next, capacity)
              && Remembers(kept + {info.deliveryId}, LastN(order + [info.deliveryId], capacity),
                           Ids(next.accepted), capacity)
              && Mirrors(queue + [info], current, unfinished + 1, next)
  {
    if info.deliveryId !in seen {
      StepKeepsInv(model, Op.Enqueue(info), capacity);
      assert Ids(model.accepted + [info]) == Ids(model.accepted) + [info.deliveryId];
      EvictionKeepsSetInSync(seen, order, Ids(model.accepted), info.deliveryId, capacity);
    }
  }

  class PromptQueue {
    const capacity: nat
    var seen: set<string>
    var seenOrder: seq<string>
    var queue: seq<PromptInfo>
    var current: Option<PromptInfo>
    var unfinished: nat
    var events: seq<PromptConsumed>
    var consumer: Consumer
    ghost var model: Spec

    ghost predicate Valid()
      reads this
    {
      && Inv(model, capacity)
      && Remembers(seen, seenOrder, Ids(model.accepted), capacity)
      && Mirrors(queue, current, unfinished, model)
      && events == model.events
      && consumer == model.consumer
    }

    constructor (dedupCapacity: nat)
      ensures Valid() && capacity == dedupCapacity && model == EMPTY
    {
      capacity := dedupCapacity;
      seen, seenOrder, queue, current, unfinished, events, consumer := {}, [], [], None, 0, [], Waiting;
      model := EMPTY;
    }

    method Enqueue(info: PromptInfo) returns (queued: bool)
      requires Valid()
      modifies this
      ensures Valid()
      ensures model == Next(old(model), Op.Enqueue(info), capacity)
      ensures queued <==> !Duplicate(old(model).accepted, info.deliveryId, capacity)
      ensures model.accepted == if queued then old(model).accepted + [info] else old(model).accepted
      ensures model.taken == old(model).taken && model.events == old(model).events
    {
      hide Inv, Remembers, Mirrors, Duplicate, Next;
      AcceptRefines(model, info, capacity, seen, seenOrder, queue, current, unfinished);
      var id := info.deliveryId;
      if id in seen {
        return false;
      }
      if capacity != 0 && |seenOrder| == capacity {
        seen := seen - {seenOrder[0]};
      }
      seenOrder := LastN(seenOrder + [id], capacity);
      seen := seen + {id};
      queue := queue + [info];
      unfinished := unfinished + 1;
      model := model.(accepted := model.accepted + [info]);
      return true;
    }

    /** `await self._queue.get()` returning. */
    method Take() returns (info: PromptInfo)
      requires Valid() && consumer.Waiting? && queue != []
      modifies this
      ensures Valid() && model == Next(old(model), Op.Take, capacity)
      ensures info == old(model).accepted[old(model).taken] && model.taken == old(model).taken + 1
    {
      info := queue[0];
      queue, current, consumer := queue[1..], Some(info), Executing;
      model := Next(model, Op.Take, capacity);
    }

    /** Shutdown while the consumer waits on an empty queue: nothing is in hand. */
    method CancelWait()
      requires Valid() && consumer.Waiting?
      modifies this
      ensures Valid() && model == Next(old(model), Op.CancelWait, capacity)
    {
      consumer := Stopped;
      model := Next(model, Op.CancelWait, capacity);
    }

    /** The rest of one loop iteration: report unless cancelled, then `task_done`. */
    method Finish(outcome: HostOutcome)
      requires Valid() && consumer.Executing?
      modifies this
      ensures Valid() && model == Next(old(model), Op.Finish(outcome), capacity)
      ensures outcome.Failed? ==>
                var info := old(model).accepted[old(model).taken - 1];
                events == old(events) + [Dropped(info.id, info.deliveryId, outcome.error)]
      ensures outcome.Completed? ==>
                events == old(events) + [Succeeded(old(model).accepted[old(model).taken - 1], Some((outcome.sessionId, outcome.stopReason)))]
      ensures outcome.NoHost? ==> events == old(events) + [Succeeded(old(model).accepted[old(model).taken - 1], None)]
      ensures outcome.Cancelled? ==> events == old(events) && consumer.Stopped?
    {
      StepKeepsInv(model, Op.Finish(outcome), capacity);
      if outcome.Cancelled? {
        consumer := Stopped;
      } else {
        events := events + [Report(current.value, outcome)];
        consumer := Waiting;
      }
      current := None;
      unfinished := unfinished - 1;
      model := Next(model, Op.Finish(outcome), capacity);
    }
  }
}
