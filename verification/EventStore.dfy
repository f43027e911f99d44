/** `EventStore` and `Subscriber` as objects (src/webhook_receiver/event_store.py). Each method is a run
    of the bus's atomic steps by one thread, other threads being anywhere inside their own `emit`. */
module EventStores {
  import opened Sequences
  import opened EventBus

  datatype Received = StopIteration | Keepalive | Item(event: Event)

  /** One whole `emit`: the log grows by one entry, and every queue registered at that moment is offered it. */
  function EmitEffect(b: Bus, t: nat, kind: string, data: string): Bus {
    var e, p := Event(b.counter, kind, data), |b.log|;
    b.(counter := b.counter + 1, ring := LastN(b.ring + [e], b.maxlen), log := b.log + [Entry(e, t)],
       subs := seq(|b.subs|, s requires 0 <= s < |b.subs| =>
         if s in b.registered then Offer(b.subs[s], e, p) else b.subs[s]))
  }

  ghost predicate Leads(b: Bus, c: Bus) {
    exists steps: seq<Step> :: After(b, steps) == Some(c)
  }

  lemma LeadsNowhere(b: Bus)
    ensures Leads(b, b)
  {
    assert After(b, []) == Some(b);
  }

  lemma LeadsOn(b: Bus, c: Bus, step: Step)
    requires Leads(b, c) && Enabled(c, step)
    ensures Leads(b, Next(c, step))
  {
    var steps: seq<Step> :| After(b, steps) == Some(c);
    AfterPush(b, steps, step);
  }

  /** `put_nowait` on a bounded queue. */
  function PutNoWait(queue: seq<Event>, event: Event): seq<Event> {
    if |queue| < QUEUE_SIZE then queue + [event] else queue
  }

  /** The bus after the first `i` puts of entry `p`. */
  ghost predicate FannedOut(before: Bus, b: Bus, t: nat, p: nat, subs: seq<nat>, i: nat)
    requires i <= |subs| && p < |before.log| && t < |before.threads|
  {
    && |b.subs| == |before.subs|
    && b == before.(subs := b.subs, threads := before.threads[t := FanningOut(p, subs[i..])])
    && forall s :: 0 <= s < |b.subs| ==>
         b.subs[s] == if s in subs[..i] then Offer(before.subs[s], before.log[p].event, p) else before.subs[s]
  }

  lemma FannedOutStep(before: Bus, b: Bus, t: nat, p: nat, subs: seq<nat>, i: nat)
    requires i < |subs| && p < |before.log| && t < |before.threads|
    requires NoDup(subs) && subs[i] < |before.subs|
    requires FannedOut(before, b, t, p, subs, i)
    ensures Enabled(b, Put(t)) && b.threads[t].todo[0] == subs[i]
    ensures FannedOut(before, Next(b, Put(t)), t, p, subs, i + 1)
  {
    assert subs[i..][1..] == subs[i + 1..];
    assert subs[..i + 1] == subs[..i] + [subs[i]];
    assert subs[i] !in subs[..i];
  }

  lemma EmitIsFannedOut(start: Bus, t: nat, kind: string, data: string, b: Bus)
    requires Enabled(start, Draw(t, kind, data))
    requires var before := Next(Next(start, Draw(t, kind, data)), Append(t));
             FannedOut(before, b, t, |start.log|, start.registered, |start.registered|)
    ensures Enabled(b, Finish(t)) && Next(b, Finish(t)) == EmitEffect(start, t, kind, data)
  {
    var subs := start.registered;
    assert subs[..|subs|] == subs;
    assert Next(b, Finish(t)).threads == start.threads;
  }

  /** The class's whole `emit` is a run of the transition system, so what holds of every run holds of it. */
  lemma EmitIsARun(b: Bus, t: nat, kind: string, data: string)
    requires Inv(b) && t < |b.threads| && b.threads[t].Idle?
    ensures Leads(b, EmitEffect(b, t, kind, data))
  {
    LeadsNowhere(b);
    LeadsOn(b, b, Draw(t, kind, data));
    var drawn := Next(b, Draw(t, kind, data));
    LeadsOn(b, drawn, Append(t));
    var c := Next(drawn, Append(t));
    assert ListOk(b);
    var after := FanOutLeads(b, c, t, b.registered, |b.registered|);
    EmitIsFannedOut(b, t, kind, data, after);
    LeadsOn(b, after, Finish(t));
  }

  lemma {:induction false} FanOutLeads(start: Bus, before: Bus, t: nat, subs: seq<nat>, i: nat) returns (b: Bus)
    requires Leads(start, before) && i <= |subs| && t < |before.threads| && 0 < |before.log|
    requires before.threads[t] == FanningOut(|before.log| - 1, subs)
    requires NoDup(subs) && forall s :: s in subs ==> s < |before.subs|
    ensures FannedOut(before, b, t, |before.log| - 1, subs, i) && Leads(start, b)
  {
    if i == 0 {
      b := before;
      assert subs[0..] == subs;
      assert before.threads[t := FanningOut(|before.log| - 1, subs)] == before.threads;
    } else {
      var c := FanOutLeads(start, before, t, subs, i - 1);
      assert subs[i - 1] in subs;
      FannedOutStep(before, c, t, |before.log| - 1, subs, i - 1);
      LeadsOn(start, c, Put(t));
      b := Next(c, Put(t));
    }
  }

  lemma ListIsDistinct(b: Bus)
    requires Inv(b)
    ensures NoDup(b.registered) && forall i :: 0 <= i < |b.registered| ==> b.registered[i] < |b.subs|
  {
    assert ListOk(b);
    assert forall i :: 0 <= i < |b.registered| ==> b.registered[i] in b.registered;
  }

  class EventStore {
    const maxlen: nat
    var counter: nat
    var events: seq<Event>
    var subscribers: seq<nat>
    var queues: seq<seq<Event>>
    var closed: seq<bool>
    ghost var bus: Bus

    ghost predicate Mirrors()
      reads this
    {
      && bus.maxlen == maxlen && bus.counter == counter && bus.ring == events && bus.registered == subscribers
      && |queues| == |closed| == |bus.subs|
      && forall s :: 0 <= s < |queues| ==> queues[s] == bus.subs[s].queue && closed[s] == bus.subs[s].closed
    }

    ghost predicate Valid()
      reads this
    {
      Inv(bus) && Mirrors()
    }

    constructor (maxlen: nat, ghost threads: nat)
      ensures Valid() && bus == Init(maxlen, threads)
    {
      this.maxlen := maxlen;
      counter, events, subscribers, queues, closed := 1, [], [], [], [];
      bus := Init(maxlen, threads);
    }

    /** Outside the lock: `next(self._counter)`. */
    method DrawEvent(ghost t: nat, kind: string, data: string) returns (event: Event)
      requires Valid() && t < |bus.threads| && bus.threads[t].Idle?
      modifies this
      ensures Valid() && bus == Next(old(bus), Draw(t, kind, data)) && bus.threads[t] == Drawn(event)
      ensures closed == old(closed)
    {
      StepKeepsInv(bus, Draw(t, kind, data));
      hide Inv;
      event := Event(counter, kind, data);
      counter := counter + 1;
      bus := Next(bus, Draw(t, kind, data));
    }

    /** Under the lock: append to the ring and copy the subscriber list. */
    method AppendAndSnapshot(ghost t: nat, event: Event) returns (subs: seq<nat>)
      requires Valid() && t < |bus.threads| && bus.threads[t] == Drawn(event)
      modifies this
      ensures Valid() && bus == Next(old(bus), Append(t)) && subs == old(bus).registered
      ensures closed == old(closed)
    {
      StepKeepsInv(bus, Append(t));
      hide Inv;
      events := LastN(events + [event], maxlen);
      subs := subscribers;
      bus := Next(bus, Append(t));
    }

    /** Outside the lock: one `put_nowait`, a full queue swallowed. */
    method PutInto(ghost t: nat, sub: nat, event: Event)
      requires Valid() && Enabled(bus, Put(t)) && bus.threads[t].todo[0] == sub
      requires bus.log[bus.threads[t].pos].event == event
      modifies this
      ensures Valid() && bus == Next(old(bus), Put(t))
      ensures closed == old(closed)
    {
      StepKeepsInv(bus, Put(t));
      hide Inv;
      queues := queues[sub := PutNoWait(queues[sub], event)];
      bus := Next(bus, Put(t));
    }

    /** The fan-out loop over the copied list. */
    method FanOut(ghost t: nat, event: Event, subs: seq<nat>)
      requires Valid() && NoDup(subs) && forall i :: 0 <= i < |subs| ==> subs[i] < |bus.subs|
      requires t < |bus.threads| && 0 < |bus.log| && bus.log[|bus.log| - 1].event == event
      requires bus.threads[t] == FanningOut(|bus.log| - 1, subs)
      modifies this
      ensures Valid() && |old(bus).log| > 0 && t < |old(bus).threads|
      ensures FannedOut(old(bus), bus, t, |old(bus).log| - 1, subs, |subs|)
      ensures closed == old(closed)
    {
      ghost var before := bus;
      ghost var p := |bus.log| - 1;
      hide Inv;
      for i := 0 to |subs|
        invariant Valid()
        invariant FannedOut(before, bus, t, p, subs, i)
        invariant closed == old(closed)
      {
        FannedOutStep(before, bus, t, p, subs, i);
        PutInto(t, subs[i], event);
      }
    }

    method Emit(ghost t: nat, kind: string, data: string)
      requires Valid() && t < |bus.threads| && bus.threads[t].Idle?
      modifies this
      ensures Valid() && bus == EmitEffect(old(bus), t, kind, data)
      ensures closed == old(closed)
    {
      hide Inv, FannedOut, EmitEffect;
      ghost var start := bus;
      var event := DrawEvent(t, kind, data);
      var subs := AppendAndSnapshot(t, event);
      ListIsDistinct(bus);
      hide ListOk, NoDup;
      FanOut(t, event, subs);
      EmitIsFannedOut(start, t, kind, data, bus);
      StepKeepsInv(bus, Finish(t));
      bus := Next(bus, Finish(t));
    }

    /** The newest `limit` events, oldest first. */
    method Recent(limit: int) returns (r: seq<Event>)
      requires Valid()
      ensures r == if limit <= 0 then [] else LastN(events, limit)
    {
      if limit <= 0 {
        return [];
      }
      return if limit < |events| then events[|events| - limit..] else events;
    }

    /** Replays the ring into a fresh queue until it is full, then registers it, under one lock. */
    method Subscribe() returns (s: nat)
      requires Valid()
      modifies this
      ensures Valid() && Enabled(old(bus), Step.Subscribe) && bus == Next(old(bus), Step.Subscribe)
      ensures s == |old(bus).subs| && queues[s] == events[..Min(|events|, 500)]
      ensures s == |old(closed)| && closed == old(closed) + [false]
    {
      assert RingOk(bus);
      StepKeepsInv(bus, Step.Subscribe);
      hide Inv;
      var q: seq<Event> := [];
      var i := 0;
      while i < |events|
        invariant i <= |events| && q == events[..i] && |q| <= QUEUE_SIZE
      {
        if |q| >= QUEUE_SIZE {
          break;
        }
        q := q + [events[i]];
        i := i + 1;
      }
      s := |queues|;
      queues, closed, subscribers := queues + [q], closed + [false], subscribers + [s];
      bus := Next(bus, Step.Subscribe);
    }

    /** `Subscriber.__next__` with the keepalive expiring on an empty queue. */
    method NextItem(s: nat) returns (r: Received)
      requires Valid() && s < |queues|
      modifies this
      ensures Valid()
      ensures r == if old(closed)[s] then StopIteration
                   else if old(queues)[s] == [] then Keepalive else Item(old(queues)[s][0])
      ensures bus == if r.Item? then Next(old(bus), Get(s)) else old(bus)
      ensures closed == old(closed)
    {
      if closed[s] {
        return StopIteration;
      }
      if queues[s] == [] {
        return Keepalive;
      }
      r := Item(queues[s][0]);
      StepKeepsInv(bus, Get(s));
      hide Inv;
      queues := queues[s := queues[s][1..]];
      bus := Next(bus, Get(s));
    }

    /** Outside the lock: `self._closed = True`. */
    method MarkAsClosed(s: nat)
      requires Valid() && s < |queues|
      modifies this
      ensures Valid() && Enabled(old(bus), MarkClosed(s)) && bus == Next(old(bus), MarkClosed(s))
      ensures s < |old(closed)| && closed == old(closed)[s := true]
    {
      StepKeepsInv(bus, MarkClosed(s));
      hide Inv;
      closed := closed[s := true];
      bus := Next(bus, MarkClosed(s));
    }

    /** Under the lock: `list.remove`, an absent queue swallowed. */
    method DeregisterQueue(s: nat)
      requires Valid() && Enabled(bus, Deregister(s))
      modifies this
      ensures Valid() && bus == Next(old(bus), Deregister(s)) && s !in subscribers
      ensures closed == old(closed)
    {
      StepKeepsInv(bus, Deregister(s));
      assert NoDup(subscribers) by {
        assert ListOk(bus);
      }
      RemoveFrom(subscribers, s);
      RemoveAbsent(subscribers, s);
      hide Inv;
      subscribers := Remove(subscribers, s);
      bus := Next(bus, Deregister(s));
    }

    /** `Subscriber.close`: idempotent; afterwards no emit that starts reaches the queue. */
    method Close(s: nat)
      requires Valid() && s < |queues|
      modifies this
      ensures Valid() && s < |old(bus).subs|
      ensures s < |old(closed)| && closed == old(closed)[s := true]
      ensures old(bus).subs[s].closed ==> bus == old(bus)
      ensures !old(bus).subs[s].closed ==>
                && s !in subscribers && Enabled(old(bus), MarkClosed(s))
                && Enabled(Next(old(bus), MarkClosed(s)), Deregister(s))
                && bus == Next(Next(old(bus), MarkClosed(s)), Deregister(s))
    {
      if !closed[s] {
        hide Inv;
        MarkAsClosed(s);
        DeregisterQueue(s);
      }
    }
  }

  lemma {:induction false} RemoveAbsent(s: seq<nat>, x: nat)
    ensures x !in s ==> Remove(s, x) == s
  {
    if s != [] {
      RemoveAbsent(s[1..], x);
    }
  }
}
