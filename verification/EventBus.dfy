/** The event bus (src/webhook_receiver/event_store.py) as an interleaved transition system.

    Every thread runs `emit` as four kinds of atomic step: draw an id (outside the lock), append and
    snapshot the subscribers (under the lock), put into one subscriber queue at a time (outside the
    lock), and finish. `subscribe`, the two halves of `close`, and a queue `get` are steps of their own.
    The append log, and per subscriber the log positions it was given, are history: no step reads them. */
module EventBus {
  import opened Sequences

  /** `queue.Queue(maxsize=500)`. */
  const QUEUE_SIZE := 500

  datatype Event = Event(seqNo: nat, kind: string, data: string)

  datatype Entry = Entry(event: Event, emitter: nat)

  datatype Phase =
    | Idle
    | Drawn(event: Event)
    | FanningOut(pos: nat, todo: seq<nat>)

  /** A subscriber's queue, and its history: the log length when it registered (`base`), the position of
      the oldest ring entry then (`first`), the log positions put into its queue in order (`got`), those
      refused by a full queue (`lost`), how many were taken out, and the log length at deregistration. */
  datatype Sub = Sub(
    queue: seq<Event>, closed: bool,
    base: nat, first: nat, got: seq<nat>, lost: set<nat>, taken: nat, until: Option<nat>)

  datatype Bus = Bus(
    maxlen: nat, counter: nat, ring: seq<Event>, registered: seq<nat>, subs: seq<Sub>,
    threads: seq<Phase>, log: seq<Entry>)

  datatype Step =
    | Draw(t: nat, kind: string, data: string)
    | Append(t: nat)
    | Put(t: nat)
    | Finish(t: nat)
    | Subscribe
    | MarkClosed(s: nat)
    | Deregister(s: nat)
    | Get(s: nat)

  function Init(maxlen: nat, threads: nat): Bus {
    Bus(maxlen, 1, [], [], [], seq(threads, _ => Idle), [])
  }

  predicate Enabled(b: Bus, step: Step) {
    match step
    case Draw(t, _, _) => t < |b.threads| && b.threads[t].Idle?
    case Append(t) => t < |b.threads| && b.threads[t].Drawn?
    case Put(t) =>
      && t < |b.threads| && b.threads[t].FanningOut? && b.threads[t].todo != []
      && b.threads[t].pos < |b.log| && b.threads[t].todo[0] < |b.subs|
    case Finish(t) => t < |b.threads| && b.threads[t].FanningOut? && b.threads[t].todo == []
    case Subscribe => |b.ring| <= |b.log|
    case MarkClosed(s) => s < |b.subs|
    case Deregister(s) => s < |b.subs| && b.subs[s].closed
    case Get(s) => s < |b.subs| && b.subs[s].queue != []
  }

  /** `put_nowait`: a full queue refuses the event. */
  function Offer(x: Sub, event: Event, pos: nat): Sub {
    if |x.queue| < QUEUE_SIZE then x.(queue := x.queue + [event], got := x.got + [pos])
    else x.(lost := x.lost + {pos})
  }

  function Min(a: nat, b: nat): nat { if a < b then a else b }

  function NewSub(b: Bus): Sub
    requires |b.ring| <= |b.log|
  {
    var n := Min(|b.ring|, QUEUE_SIZE);
    var first := |b.log| - |b.ring|;
    Sub(b.ring[..n], false, |b.log|, first, seq(n, i => first + i), {}, 0, None)
  }

  /** `list.remove` of a queue: the first occurrence, if any. */
  function Remove(s: seq<nat>, x: nat): (r: seq<nat>)
  {
    if s == [] then [] else if s[0] == x then s[1..] else [s[0]] + Remove(s[1..], x)
  }

  function Next(b: Bus, step: Step): Bus
    requires Enabled(b, step)
  {
    match step
    case Draw(t, kind, data) =>
      b.(counter := b.counter + 1, threads := b.threads[t := Drawn(Event(b.counter, kind, data))])
    case Append(t) =>
      var e := b.threads[t].event;
      b.(ring := LastN(b.ring + [e], b.maxlen), log := b.log + [Entry(e, t)],
         threads := b.threads[t := FanningOut(|b.log|, b.registered)])
    case Put(t) =>
      var p, todo := b.threads[t].pos, b.threads[t].todo;
      b.(subs := b.subs[todo[0] := Offer(b.subs[todo[0]], b.log[p].event, p)],
         threads := b.threads[t := FanningOut(p, todo[1..])])
    case Finish(t) => b.(threads := b.threads[t := Idle])
    case Subscribe => b.(subs := b.subs + [NewSub(b)], registered := b.registered + [|b.subs|])
    case MarkClosed(s) => b.(subs := b.subs[s := b.subs[s].(closed := true)])
    case Deregister(s) =>
      if s in b.registered then
        b.(registered := Remove(b.registered, s), subs := b.subs[s := b.subs[s].(until := Some(|b.log|))])
      else b
    case Get(s) =>
      b.(subs := b.subs[s := b.subs[s].(queue := b.subs[s].queue[1..], taken := b.subs[s].taken + 1)])
  }

  /** The bus after a run, or `None` when some step was not enabled. */
  function After(start: Bus, steps: seq<Step>): (r: Option<Bus>) {
    if steps == [] then Some(start)
    else
      var before := After(start, steps[..|steps| - 1]);
      var step := steps[|steps| - 1];
      if before.Some? && Enabled(before.value, step) then Some(Next(before.value, step)) else None
  }

  // ---------------------------------------------------------------- invariants

  /** The ring is the tail of the append log. */
  ghost predicate RingOk(b: Bus) {
    && |b.ring| == Min(|b.log|, b.maxlen)
    && forall i :: 0 <= i < |b.ring| ==> b.ring[i] == b.log[|b.log| - |b.ring| + i].event
  }

  /** Ids are unique and drawn below the counter; one emitter's entries stand in its own order. */
  ghost predicate LogOk(b: Bus) {
    && (forall p :: 0 <= p < |b.log| ==> b.log[p].event.seqNo < b.counter && b.log[p].emitter < |b.threads|)
    && (forall p, q :: 0 <= p < q < |b.log| ==> b.log[p].event.seqNo != b.log[q].event.seqNo)
    && (forall p, q :: 0 <= p < q < |b.log| && b.log[p].emitter == b.log[q].emitter ==>
          b.log[p].event.seqNo < b.log[q].event.seqNo)
  }

  /** An id drawn but not yet appended is held by one thread only, above everything that thread appended. */
  ghost predicate DrawnOk(b: Bus) {
    && (forall t :: 0 <= t < |b.threads| && b.threads[t].Drawn? ==> b.threads[t].event.seqNo < b.counter)
    && (forall t, u :: 0 <= t < u < |b.threads| && b.threads[t].Drawn? && b.threads[u].Drawn? ==>
          b.threads[t].event.seqNo != b.threads[u].event.seqNo)
    && (forall t, p :: 0 <= t < |b.threads| && b.threads[t].Drawn? && 0 <= p < |b.log| ==>
          && b.log[p].event.seqNo != b.threads[t].event.seqNo
          && (b.log[p].emitter == t ==> b.log[p].event.seqNo < b.threads[t].event.seqNo))
  }

  /** `p` is still to be put into the queue of `s` by the thread that appended it. */
  ghost predicate Pending(b: Bus, p: nat, s: nat) {
    && p < |b.log| && b.log[p].emitter < |b.threads|
    && var phase := b.threads[b.log[p].emitter];
       phase.FanningOut? && phase.pos == p && s in phase.todo
  }

  /** A thread fans out the last entry it appended, to distinct subscribers that have not seen it yet. */
  ghost predicate FanOk(b: Bus, t: nat)
    requires t < |b.threads|
  {
    b.threads[t].FanningOut? ==>
      var p, todo := b.threads[t].pos, b.threads[t].todo;
      && p < |b.log| && b.log[p].emitter == t
      && (forall q :: p < q < |b.log| ==> b.log[q].emitter != t)
      && NoDup(todo)
      && forall s :: s in todo ==> s < |b.subs| && Unseen(b.subs[s], p)
  }

  ghost predicate Unseen(x: Sub, p: nat) {
    InWindow(x, p) && p !in x.got && p !in x.lost
  }

  /** The subscriber list holds each live subscription once. */
  ghost predicate ListOk(b: Bus) {
    && NoDup(b.registered)
    && (forall s :: s in b.registered ==> s < |b.subs|)
    && (forall s :: 0 <= s < |b.subs| ==> (s in b.registered <==> b.subs[s].until.None?))
  }

  function Replayed(x: Sub): nat
    requires x.first <= x.base
  {
    Min(x.base - x.first, QUEUE_SIZE)
  }

  /** The queue holds what was put and not yet taken. */
  ghost predicate BufferOk(queue: seq<Event>, got: seq<nat>, taken: nat, log: seq<Entry>) {
    && |queue| <= QUEUE_SIZE
    && |got| == taken + |queue|
    && (forall i :: 0 <= i < |got| ==> got[i] < |log|)
    && (forall i :: 0 <= i < |queue| ==> queue[i] == log[got[taken + i]].event)
  }

  /** The replay comes first; later positions, put or refused, are live ones. */
  ghost predicate WindowOk(x: Sub, logLength: nat) {
    && x.first <= x.base <= logLength
    && Replayed(x) <= |x.got|
    && (forall i :: 0 <= i < Replayed(x) ==> x.got[i] == x.first + i)
    && (forall i :: Replayed(x) <= i < |x.got| ==> InWindow(x, x.got[i]))
    && (x.until.Some? ==> x.base <= x.until.value <= logLength)
    && (forall p :: p in x.lost ==> InWindow(x, p) && p < logLength && p !in x.got)
  }

  ghost predicate QueueOk(x: Sub, log: seq<Entry>) {
    BufferOk(x.queue, x.got, x.taken, log) && WindowOk(x, |log|)
  }

  ghost predicate InWindow(x: Sub, p: nat) {
    x.base <= p && (x.until.Some? ==> p < x.until.value)
  }

  /** One emitter's events arrive in that emitter's order (and hence no event arrives twice). */
  ghost predicate OrderOk(x: Sub, log: seq<Entry>) {
    && (forall i :: 0 <= i < |x.got| ==> x.got[i] < |log|)
    && (forall i, j :: 0 <= i < j < |x.got| && log[x.got[i]].emitter == log[x.got[j]].emitter ==> x.got[i] < x.got[j])
  }

  /** Everything appended while registered was delivered, refused by a full queue, or is on its way. */
  ghost predicate CoverOk(b: Bus, s: nat)
    requires s < |b.subs|
  {
    var x := b.subs[s];
    forall p :: x.base <= p < (if x.until.Some? then x.until.value else |b.log|) ==>
      p in x.got || p in x.lost || Pending(b, p, s)
  }

  ghost predicate Inv(b: Bus) {
    && RingOk(b) && LogOk(b) && DrawnOk(b) && ListOk(b)
    && (forall t :: 0 <= t < |b.threads| ==> FanOk(b, t))
    && (forall s :: 0 <= s < |b.subs| ==> QueueOk(b.subs[s], b.log))
    && (forall s :: 0 <= s < |b.subs| ==> OrderOk(b.subs[s], b.log))
    && (forall s :: 0 <= s < |b.subs| ==> CoverOk(b, s))
  }

  // ---------------------------------------------------------------- every step keeps the invariant

  lemma AppendKeepsRing(b: Bus, n: Bus, e: Entry)
    requires RingOk(b) && n.maxlen == b.maxlen && n.log == b.log + [e] && n.ring == LastN(b.ring + [e.event], b.maxlen)
    ensures RingOk(n)
  {
  }

  lemma StepKeepsRing(b: Bus, step: Step)
    requires RingOk(b) && Enabled(b, step)
    ensures RingOk(Next(b, step))
  {
    if step.Append? {
      hide RingOk, LastN;
      AppendKeepsRing(b, Next(b, step), Entry(b.threads[step.t].event, step.t));
    } else {
      var n := Next(b, step);
      assert n.ring == b.ring && n.log == b.log && n.maxlen == b.maxlen;
    }
  }

  lemma StepKeepsLog(b: Bus, step: Step)
    requires LogOk(b) && DrawnOk(b) && Enabled(b, step)
    ensures LogOk(Next(b, step))
  {
  }

  lemma StepKeepsDrawn(b: Bus, step: Step)
    requires LogOk(b) && DrawnOk(b) && Enabled(b, step)
    ensures DrawnOk(Next(b, step))
  {
  }

  lemma {:induction false} RemoveFrom(s: seq<nat>, x: nat)
    requires NoDup(s)
    ensures NoDup(Remove(s, x))
    ensures forall y :: y in Remove(s, x) <==> y in s && y != x
  {
    if s != [] {
      assert s == [s[0]] + s[1..];
      assert s[0] !in s[1..] by {
        assert forall i :: 0 <= i < |s[1..]| ==> s[1..][i] == s[i + 1];
      }
      var rest := Remove(s[1..], x);
      RemoveFrom(s[1..], x);
      assert forall i :: 0 <= i < |rest| ==> rest[i] in rest;
    }
  }

  lemma StepKeepsList(b: Bus, step: Step)
    requires ListOk(b) && Enabled(b, step)
    ensures ListOk(Next(b, step))
  {
    assert forall i :: 0 <= i < |b.registered| ==> b.registered[i] in b.registered;
    if step.Deregister? {
      RemoveFrom(b.registered, step.s);
      hide NoDup, Remove;
    }
  }

  lemma PutKeepsFan(b: Bus, u: nat, t: nat)
    requires Enabled(b, Put(u)) && t < |b.threads| && FanOk(b, t) && FanOk(b, u)
    ensures FanOk(Next(b, Put(u)), t)
  {
    var todo := b.threads[u].todo;
    assert todo == [todo[0]] + todo[1..];
    var n := Next(b, Put(u));
    if b.threads[t].FanningOut? {
      forall s | s in n.threads[t].todo
        ensures s < |n.subs| && Unseen(n.subs[s], b.threads[t].pos)
      {
        assert s in b.threads[t].todo;
      }
    }
  }

  lemma StepKeepsFan(b: Bus, step: Step, t: nat)
    requires ListOk(b) && LogOk(b) && t < |b.threads| && Enabled(b, step)
    requires forall t :: 0 <= t < |b.threads| ==> FanOk(b, t)
    requires forall s :: 0 <= s < |b.subs| ==> QueueOk(b.subs[s], b.log)
    ensures FanOk(Next(b, step), t)
  {
    assert FanOk(b, t);
    if step.Append? {
      forall s | s in b.registered
        ensures s < |b.subs| && Unseen(b.subs[s], |b.log|)
      {
        assert QueueOk(b.subs[s], b.log);
      }
    } else if step.Put? {
      PutKeepsFan(b, step.t, t);
    }
  }

  lemma PutKeepsBuffer(queue: seq<Event>, got: seq<nat>, taken: nat, log: seq<Entry>, p: nat)
    requires BufferOk(queue, got, taken, log) && p < |log| && |queue| < QUEUE_SIZE
    ensures BufferOk(queue + [log[p].event], got + [p], taken, log)
  {
  }

  lemma PutKeepsWindow(x: Sub, event: Event, logLength: nat, p: nat)
    requires WindowOk(x, logLength) && p < logLength && Unseen(x, p)
    ensures WindowOk(Offer(x, event, p), logLength)
  {
  }

  lemma PutKeepsQueue(x: Sub, log: seq<Entry>, p: nat)
    requires QueueOk(x, log) && p < |log| && Unseen(x, p)
    ensures QueueOk(Offer(x, log[p].event, p), log)
  {
    hide BufferOk, WindowOk, Unseen;
    PutKeepsWindow(x, log[p].event, |log|, p);
    if |x.queue| < QUEUE_SIZE {
      PutKeepsBuffer(x.queue, x.got, x.taken, log, p);
    }
  }

  lemma AppendKeepsQueue(x: Sub, log: seq<Entry>, e: Entry)
    requires QueueOk(x, log)
    ensures QueueOk(x, log + [e])
  {
  }

  lemma GetKeepsQueue(x: Sub, log: seq<Entry>)
    requires QueueOk(x, log) && x.queue != []
    ensures QueueOk(x.(queue := x.queue[1..], taken := x.taken + 1), log)
  {
  }

  lemma CloseKeepsQueue(x: Sub, log: seq<Entry>)
    requires QueueOk(x, log)
    ensures QueueOk(x.(closed := true), log)
    ensures x.until.None? ==> QueueOk(x.(until := Some(|log|)), log)
  {
    assert forall i :: 0 <= i < |x.got| ==> x.got[i] < |log|;
    hide BufferOk;
  }

  lemma NewSubQueueOk(b: Bus)
    requires RingOk(b)
    ensures QueueOk(NewSub(b), b.log)
  {
  }

  lemma StepKeepsQueues(b: Bus, step: Step, s: nat)
    requires RingOk(b) && ListOk(b) && Enabled(b, step) && s < |Next(b, step).subs|
    requires forall t :: 0 <= t < |b.threads| ==> FanOk(b, t)
    requires s < |b.subs| ==> QueueOk(b.subs[s], b.log)
    ensures QueueOk(Next(b, step).subs[s], Next(b, step).log)
  {
    hide QueueOk, RingOk, BufferOk, WindowOk;
    match step
    case Append(t) => AppendKeepsQueue(b.subs[s], b.log, Entry(b.threads[t].event, t));
    case Put(t) =>
      if s == b.threads[t].todo[0] {
        assert FanOk(b, t) && s in b.threads[t].todo;
        PutKeepsQueue(b.subs[s], b.log, b.threads[t].pos);
      }
    case Subscribe => if s == |b.subs| { NewSubQueueOk(b); }
    case MarkClosed(_) => if s < |b.subs| { CloseKeepsQueue(b.subs[s], b.log); }
    case Deregister(u) => CloseKeepsQueue(b.subs[s], b.log);
    case Get(u) => if s == u { GetKeepsQueue(b.subs[s], b.log); }
    case _ =>
  }

  lemma StepKeepsOrder(b: Bus, step: Step, s: nat)
    requires Enabled(b, step) && s < |Next(b, step).subs| && RingOk(b)
    requires step.Put? ==> FanOk(b, step.t) && Unseen(b.subs[b.threads[step.t].todo[0]], b.threads[step.t].pos)
    requires s < |b.subs| ==> OrderOk(b.subs[s], b.log)
    ensures OrderOk(Next(b, step).subs[s], Next(b, step).log)
  {
    hide Unseen, RingOk;
    if step.Put? && s == b.threads[step.t].todo[0] {
      UnseenMeans(b.subs[s], b.threads[step.t].pos);
    }
  }

  lemma UnseenMeans(x: Sub, p: nat)
    ensures Unseen(x, p) ==> p !in x.got && p !in x.lost
  {
  }

  lemma StepKeepsCover(b: Bus, step: Step, s: nat)
    requires Enabled(b, step) && s < |Next(b, step).subs|
    requires ListOk(b)
    requires forall t :: 0 <= t < |b.threads| ==> FanOk(b, t)
    requires s < |b.subs| ==> CoverOk(b, s)
    ensures CoverOk(Next(b, step), s)
  {
  }

  lemma StepKeepsInv(b: Bus, step: Step)
    requires Inv(b) && Enabled(b, step)
    ensures Inv(Next(b, step))
  {
    hide RingOk, LogOk, DrawnOk, ListOk, QueueOk, OrderOk, CoverOk;
    var n := Next(b, step);
    StepKeepsRing(b, step);
    StepKeepsLog(b, step);
    StepKeepsDrawn(b, step);
    StepKeepsList(b, step);
    if step.Put? {
      assert FanOk(b, step.t) && b.threads[step.t].todo[0] in b.threads[step.t].todo;
    }
    hide FanOk, Unseen;
    forall t | 0 <= t < |n.threads|
      ensures FanOk(n, t)
    {
      StepKeepsFan(b, step, t);
    }
    forall s | 0 <= s < |n.subs|
      ensures QueueOk(n.subs[s], n.log) && OrderOk(n.subs[s], n.log) && CoverOk(n, s)
    {
      StepKeepsQueues(b, step, s);
      StepKeepsOrder(b, step, s);
      StepKeepsCover(b, step, s);
    }
  }

  lemma {:induction false} RunKeepsInv(start: Bus, steps: seq<Step>)
    requires Inv(start) && After(start, steps).Some?
    ensures Inv(After(start, steps).value)
  {
    if steps != [] {
      RunKeepsInv(start, steps[..|steps| - 1]);
      StepKeepsInv(After(start, steps[..|steps| - 1]).value, steps[|steps| - 1]);
    }
  }

  /** Reachable: some run of the given number of emitter threads leads here. */
  ghost predicate Reachable(b: Bus) {
    exists maxlen: nat, threads: nat, steps: seq<Step> :: After(Init(maxlen, threads), steps) == Some(b)
  }

  lemma ReachableInv(b: Bus)
    requires Reachable(b)
    ensures Inv(b)
  {
    var maxlen: nat, threads: nat, steps: seq<Step> :| After(Init(maxlen, threads), steps) == Some(b);
    RunKeepsInv(Init(maxlen, threads), steps);
  }

  // ---------------------------------------------------------------- what every interleaving guarantees

  function Events(log: seq<Entry>): seq<Event> {
    seq(|log|, i requires 0 <= i < |log| => log[i].event)
  }

  lemma RingIsLogTail(b: Bus)
    requires Reachable(b)
    ensures b.ring == LastN(Events(b.log), b.maxlen)
  {
    ReachableInv(b);
    assert RingOk(b);
    hide Inv, Reachable;
    assert |b.ring| == |LastN(Events(b.log), b.maxlen)|;
  }

  /** At most once: the positions put into a subscriber's queue never repeat, replayed ones precede its
      registration and live ones follow it, and ids are unique across the log. */
  lemma AtMostOnce(b: Bus, s: nat)
    requires Reachable(b) && s < |b.subs|
    ensures var x := b.subs[s];
            && NoDup(x.got)
            && x.first <= x.base && Replayed(x) <= |x.got|
            && x.got[..Replayed(x)] == seq(Replayed(x), i => x.first + i)
            && (forall i :: 0 <= i < Replayed(x) ==> x.got[i] < x.base)
            && (forall i :: Replayed(x) <= i < |x.got| ==> x.base <= x.got[i] < |b.log|)
            && |x.queue| <= QUEUE_SIZE
    ensures forall p, q :: 0 <= p < q < |b.log| ==> b.log[p].event.seqNo != b.log[q].event.seqNo
  {
    ReachableInv(b);
    assert QueueOk(b.subs[s], b.log) && OrderOk(b.subs[s], b.log);
  }

  /** Positions past the replay are the live ones. */
  lemma LiveOnes(x: Sub, log: seq<Entry>, p: nat)
    requires QueueOk(x, log) && x.until.None?
    ensures p in x.got[Replayed(x)..] <==> x.base <= p && p in x.got
  {
    hide BufferOk;
    if x.base <= p && p in x.got {
      var i :| 0 <= i < |x.got| && x.got[i] == p;
      assert i >= Replayed(x);
      assert x.got[Replayed(x)..][i - Replayed(x)] == p;
    }
  }

  /** Complete delivery: with nothing of it in flight and nothing refused, an open subscription has been
      given its replay and then every event appended since it registered, each exactly once. */
  lemma QuiescentDelivery(b: Bus, s: nat)
    requires Reachable(b) && s < |b.subs| && b.subs[s].until.None? && b.subs[s].lost == {}
    requires forall t :: 0 <= t < |b.threads| && b.threads[t].FanningOut? ==> s !in b.threads[t].todo
    ensures var x := b.subs[s];
            && x.first <= x.base && Replayed(x) <= |x.got|
            && NoDup(x.got)
            && (forall p: nat :: p in x.got[Replayed(x)..] <==> x.base <= p < |b.log|)
            && |x.got| == x.taken + |x.queue|
            && (forall i :: 0 <= i < |x.got| ==> x.got[i] < |b.log|)
            && (forall i :: 0 <= i < |x.queue| ==> x.queue[i] == b.log[x.got[x.taken + i]].event)
  {
    AtMostOnce(b, s);
    ReachableInv(b);
    var x := b.subs[s];
    assert QueueOk(x, b.log) && CoverOk(b, s);
    hide Reachable, Inv, Replayed, WindowOk, NoDup, InWindow;
    forall p: nat
      ensures p in x.got[Replayed(x)..] <==> x.base <= p < |b.log|
    {
      LiveOnes(x, b.log, p);
    }
  }

  /** Each emitter's own events stand in its order in the ring and in every subscriber's deliveries. */
  lemma EmitterOrder(b: Bus, s: nat)
    requires Reachable(b) && s < |b.subs|
    ensures |b.ring| <= |b.log|
    ensures var oldest := |b.log| - |b.ring|;
            && (forall i :: 0 <= i < |b.ring| ==> b.ring[i] == b.log[oldest + i].event)
            && forall i, j :: 0 <= i < j < |b.ring| && b.log[oldest + i].emitter == b.log[oldest + j].emitter ==>
                 b.ring[i].seqNo < b.ring[j].seqNo
    ensures var got := b.subs[s].got;
            && (forall i :: 0 <= i < |got| ==> got[i] < |b.log|)
            && forall i, j :: 0 <= i < j < |got| && b.log[got[i]].emitter == b.log[got[j]].emitter ==>
                 b.log[got[i]].event.seqNo < b.log[got[j]].event.seqNo
  {
    ReachableInv(b);
    assert OrderOk(b.subs[s], b.log) && LogOk(b) && RingOk(b);
    hide Inv, QueueOk, CoverOk, DrawnOk, ListOk, FanOk;
  }

  // ---------------------------------------------------------------- serialised emits

  ghost predicate Quiet(b: Bus) {
    forall t :: 0 <= t < |b.threads| ==> b.threads[t].Idle?
  }

  ghost predicate Ascending(log: seq<Entry>) {
    forall p, q :: 0 <= p < q < |log| ==> log[p].event.seqNo < log[q].event.seqNo
  }

  /** A run in which no thread starts an emit while another is inside one. */
  ghost predicate Serialised(start: Bus, steps: seq<Step>) {
    steps == [] ||
    var before := After(start, steps[..|steps| - 1]);
    && Serialised(start, steps[..|steps| - 1])
    && before.Some? && Enabled(before.value, steps[|steps| - 1])
    && (steps[|steps| - 1].Draw? ==> Quiet(before.value))
  }

  ghost predicate OneBusy(b: Bus) {
    && (forall t, u :: 0 <= t < u < |b.threads| ==> b.threads[t].Idle? || b.threads[u].Idle?)
    && (forall t :: 0 <= t < |b.threads| && b.threads[t].FanningOut? ==> b.threads[t].pos + 1 == |b.log|)
    && (forall t, p :: 0 <= t < |b.threads| && b.threads[t].Drawn? && 0 <= p < |b.log| ==>
          b.log[p].event.seqNo < b.threads[t].event.seqNo)
    && Ascending(b.log)
  }

  ghost predicate GotAscending(x: Sub) {
    forall i, j :: 0 <= i < j < |x.got| ==> x.got[i] < x.got[j]
  }

  lemma StepKeepsOneBusy(b: Bus, step: Step)
    requires OneBusy(b) && Inv(b) && Enabled(b, step) && (step.Draw? ==> Quiet(b))
    ensures OneBusy(Next(b, step))
  {
    assert LogOk(b);
    hide Inv, QueueOk, OrderOk, CoverOk, FanOk, ListOk, RingOk, DrawnOk;
  }

  /** In a serialised run the entry being put is the newest of the log. */
  lemma PutIsNewest(b: Bus, t: nat)
    requires OneBusy(b) && Inv(b) && Enabled(b, Put(t))
    ensures var x, p := b.subs[b.threads[t].todo[0]], b.threads[t].pos;
            forall i :: 0 <= i < |x.got| ==> x.got[i] < p
  {
    var s := b.threads[t].todo[0];
    var x, p := b.subs[s], b.threads[t].pos;
    assert FanOk(b, t) && s in b.threads[t].todo;
    assert Unseen(x, p) && QueueOk(x, b.log);
    hide Inv, FanOk, LogOk, WindowOk, ListOk, RingOk, DrawnOk;
    assert forall i :: 0 <= i < |x.got| ==> x.got[i] in x.got;
  }

  lemma StepKeepsGotAscending(b: Bus, step: Step, s: nat)
    requires OneBusy(b) && Inv(b) && Enabled(b, step) && s < |Next(b, step).subs|
    requires s < |b.subs| ==> GotAscending(b.subs[s])
    ensures GotAscending(Next(b, step).subs[s])
  {
    hide Inv, OneBusy;
    if step.Put? && s == b.threads[step.t].todo[0] {
      PutIsNewest(b, step.t);
    }
  }

  lemma {:induction false} SerialisedRun(start: Bus, steps: seq<Step>)
    requires Inv(start) && OneBusy(start) && Serialised(start, steps)
    requires forall s :: 0 <= s < |start.subs| ==> GotAscending(start.subs[s])
    ensures After(start, steps).Some?
    ensures var b := After(start, steps).value;
            Inv(b) && OneBusy(b) && forall s :: 0 <= s < |b.subs| ==> GotAscending(b.subs[s])
  {
    if steps != [] {
      SerialisedRun(start, steps[..|steps| - 1]);
      var before, step := After(start, steps[..|steps| - 1]).value, steps[|steps| - 1];
      hide Inv, OneBusy, GotAscending;
      StepKeepsInv(before, step);
      StepKeepsOneBusy(before, step);
      forall s | 0 <= s < |Next(before, step).subs|
        ensures GotAscending(Next(before, step).subs[s])
      {
        StepKeepsGotAscending(before, step, s);
      }
    }
  }

  /** When emits are serialised, ring and queues carry strictly increasing ids. */
  lemma SerialisedEmitsAscend(maxlen: nat, threads: nat, steps: seq<Step>, b: Bus, s: nat)
    requires Serialised(Init(maxlen, threads), steps) && After(Init(maxlen, threads), steps) == Some(b)
    requires s < |b.subs|
    ensures forall i, j :: 0 <= i < j < |b.ring| ==> b.ring[i].seqNo < b.ring[j].seqNo
    ensures var q := b.subs[s].queue; forall i, j :: 0 <= i < j < |q| ==> q[i].seqNo < q[j].seqNo
  {
    SerialisedRun(Init(maxlen, threads), steps);
    assert RingOk(b) && QueueOk(b.subs[s], b.log) && GotAscending(b.subs[s]);
    hide Inv, OrderOk, CoverOk, FanOk, ListOk, DrawnOk, LogOk;
  }

  lemma AfterPush(start: Bus, steps: seq<Step>, step: Step)
    ensures After(start, steps + [step]) ==
            var before := After(start, steps);
            if before.Some? && Enabled(before.value, step) then Some(Next(before.value, step)) else None
  {
    assert (steps + [step])[..|steps|] == steps;
  }

  // ---------------------------------------------------------------- when ids ascend

  function Draws(steps: seq<Step>): nat {
    if steps == [] then 0 else Draws(steps[..|steps| - 1]) + (if steps[|steps| - 1].Draw? then 1 else 0)
  }

  function Appends(steps: seq<Step>): nat {
    if steps == [] then 0 else Appends(steps[..|steps| - 1]) + (if steps[|steps| - 1].Append? then 1 else 0)
  }

  predicate DrawsOrAppends(step: Step, t: nat) {
    (step.Draw? || step.Append?) && step.t == t
  }

  /** One emit: drawn at step `i`, and appended at step `l` with no other draw or append of its thread between. */
  ghost predicate Emits(steps: seq<Step>, i: nat, l: nat) {
    && i < l < |steps| && steps[i].Draw? && steps[l] == Append(steps[i].t)
    && forall m :: i < m < l ==> !DrawsOrAppends(steps[m], steps[i].t)
  }

  /** An emit that drew first and appended last of two. */
  ghost predicate Overtaken(steps: seq<Step>) {
    exists i: nat, j: nat, k: nat, l: nat :: i < j && k < l && Emits(steps, i, l) && Emits(steps, j, k)
  }

  lemma {:induction false} CountsAdvance(steps: seq<Step>, i: nat, j: nat)
    requires i <= j <= |steps|
    ensures Draws(steps[..i]) <= Draws(steps[..j]) && Appends(steps[..i]) <= Appends(steps[..j])
    ensures i < j && steps[i].Draw? ==> Draws(steps[..i]) < Draws(steps[..j])
    ensures i < j && steps[i].Append? ==> Appends(steps[..i]) < Appends(steps[..j])
  {
    if i < j {
      assert steps[..j][..j - 1] == steps[..j - 1];
      CountsAdvance(steps, i, j - 1);
    }
  }

  lemma EmitsPush(steps: seq<Step>, step: Step, i: nat, l: nat)
    requires Emits(steps, i, l)
    ensures Emits(steps + [step], i, l)
  {
  }

  /** The counter is one above the number of draws, the log as long as there were appends, and a drawn id tells
      at which step it was drawn. */
  ghost predicate Dated(steps: seq<Step>, b: Bus) {
    && b.counter == Draws(steps) + 1
    && |b.log| == Appends(steps)
    && forall t :: 0 <= t < |b.threads| && b.threads[t].Drawn? ==>
         exists i: nat :: DrawnAt(steps, t, i) && b.threads[t].event == DrawnEvent(steps, i)
  }

  /** The event a draw makes: its id is one above the number of draws before it, and the content is its own. */
  function DrawnEvent(steps: seq<Step>, i: nat): Event
    requires i < |steps| && steps[i].Draw?
  {
    Event(Draws(steps[..i]) + 1, steps[i].kind, steps[i].data)
  }

  /** Step `i` is a draw of thread `t`, which has neither drawn nor appended since. */
  ghost predicate DrawnAt(steps: seq<Step>, t: nat, i: nat) {
    && i < |steps| && steps[i].Draw? && steps[i].t == t
    && forall m :: i < m < |steps| ==> !DrawsOrAppends(steps[m], t)
  }

  lemma DatedStep(steps: seq<Step>, b: Bus, step: Step)
    requires Dated(steps, b) && Enabled(b, step)
    ensures Dated(steps + [step], Next(b, step))
  {
    var n := Next(b, step);
    var all := steps + [step];
    assert all[..|steps|] == steps;
    forall t | 0 <= t < |n.threads| && n.threads[t].Drawn?
      ensures exists i: nat :: DrawnAt(all, t, i) && n.threads[t].event == DrawnEvent(all, i)
    {
      if step.Draw? && step.t == t {
        assert DrawnAt(all, t, |steps|);
      } else {
        assert b.threads[t].Drawn?;
        var i: nat :| DrawnAt(steps, t, i) && b.threads[t].event == DrawnEvent(steps, i);
        assert DrawnAt(all, t, i) && all[..i] == steps[..i];
      }
    }
  }

  lemma {:induction false} RunIsDated(maxlen: nat, threads: nat, steps: seq<Step>)
    requires After(Init(maxlen, threads), steps).Some?
    ensures Dated(steps, After(Init(maxlen, threads), steps).value)
  {
    if steps != [] {
      var init := steps[..|steps| - 1];
      RunIsDated(maxlen, threads, init);
      hide Dated;
      DatedStep(init, After(Init(maxlen, threads), init).value, steps[|steps| - 1]);
      assert steps == init + [steps[|steps| - 1]];
    }
  }

  /** The emit behind log entry `p`: its content and id are its draw's, its position its append's. */
  ghost predicate IsEmitOf(steps: seq<Step>, b: Bus, p: nat, i: nat, l: nat) {
    && Emits(steps, i, l) && p < |b.log|
    && Appends(steps[..l]) == p && b.log[p] == Entry(DrawnEvent(steps, i), steps[i].t)
  }

  lemma {:induction false} EmitOf(maxlen: nat, threads: nat, steps: seq<Step>, p: nat) returns (i: nat, l: nat)
    requires After(Init(maxlen, threads), steps).Some? && p < |After(Init(maxlen, threads), steps).value.log|
    ensures IsEmitOf(steps, After(Init(maxlen, threads), steps).value, p, i, l)
  {
    var init, step := steps[..|steps| - 1], steps[|steps| - 1];
    var before := After(Init(maxlen, threads), init).value;
    assert steps == init + [step];
    if p < |before.log| {
      i, l := EmitOf(maxlen, threads, init, p);
      EmitsPush(init, step, i, l);
      assert steps[..i] == init[..i] && steps[..l] == init[..l];
    } else {
      RunIsDated(maxlen, threads, init);
      i :| DrawnAt(init, step.t, i) && before.threads[step.t].event == DrawnEvent(init, i);
      l := |init|;
      assert steps[..i] == init[..i] && steps[..l] == init;
    }
  }

  /** An append step belongs to one log entry, and has one draw. */
  lemma EmitOfAppend(maxlen: nat, threads: nat, steps: seq<Step>, b: Bus, i: nat, l: nat)
    requires After(Init(maxlen, threads), steps) == Some(b) && Emits(steps, i, l)
    ensures IsEmitOf(steps, b, Appends(steps[..l]), i, l)
  {
    RunIsDated(maxlen, threads, steps);
    CountsAdvance(steps, l, |steps|);
    assert steps[..|steps|] == steps;
    var p := Appends(steps[..l]);
    var i', l' := EmitOf(maxlen, threads, steps, p);
    if l < l' {
      CountsAdvance(steps, l, l');
    } else if l' < l {
      CountsAdvance(steps, l', l);
    }
    assert DrawsOrAppends(steps[i], steps[i].t) && DrawsOrAppends(steps[i'], steps[i].t);
  }

  /** Entry `p` has the smaller id exactly when it was drawn first. */
  lemma SmallerIffDrawnFirst(steps: seq<Step>, b: Bus, p: nat, q: nat, i: nat, k: nat, j: nat, l: nat)
    requires IsEmitOf(steps, b, p, i, k) && IsEmitOf(steps, b, q, j, l)
    ensures b.log[p].event.seqNo < b.log[q].event.seqNo <==> i < j
    ensures p < q <==> k < l
  {
    if i <= j { CountsAdvance(steps, i, j); } else { CountsAdvance(steps, j, i); }
    if k <= l { CountsAdvance(steps, k, l); } else { CountsAdvance(steps, l, k); }
  }

  /** The log of a run carries ascending ids if and only if no emit of the run was overtaken: none that drew
      its id first was appended after one that drew later. */
  lemma AscendingIffNoneOvertaken(maxlen: nat, threads: nat, steps: seq<Step>, b: Bus)
    requires After(Init(maxlen, threads), steps) == Some(b)
    ensures Ascending(b.log) <==> !Overtaken(steps)
  {
    hide After, IsEmitOf;
    if Overtaken(steps) {
      var i: nat, j: nat, k: nat, l: nat :| i < j && k < l && Emits(steps, i, l) && Emits(steps, j, k);
      EmitOfAppend(maxlen, threads, steps, b, i, l);
      EmitOfAppend(maxlen, threads, steps, b, j, k);
      SmallerIffDrawnFirst(steps, b, Appends(steps[..k]), Appends(steps[..l]), j, k, i, l);
      EmitHasEntry(steps, b, Appends(steps[..l]), i, l);
    } else {
      forall p, q | 0 <= p < q < |b.log|
        ensures b.log[p].event.seqNo < b.log[q].event.seqNo
      {
        var i, k := EmitOf(maxlen, threads, steps, p);
        var j, l := EmitOf(maxlen, threads, steps, q);
        EmitHasEntry(steps, b, p, i, k);
        EmitHasEntry(steps, b, q, j, l);
        SmallerIffDrawnFirst(steps, b, p, q, i, k, j, l);
        SmallerIffDrawnFirst(steps, b, q, p, j, l, i, k);
        DistinctEmits(maxlen, threads, steps, b, p, q);
      }
    }
  }

  lemma EmitHasEntry(steps: seq<Step>, b: Bus, p: nat, i: nat, l: nat)
    requires IsEmitOf(steps, b, p, i, l)
    ensures Emits(steps, i, l) && p < |b.log|
  {
  }

  lemma DistinctEmits(maxlen: nat, threads: nat, steps: seq<Step>, b: Bus, p: nat, q: nat)
    requires After(Init(maxlen, threads), steps) == Some(b) && p < q < |b.log|
    ensures b.log[p].event.seqNo != b.log[q].event.seqNo
  {
    RunKeepsInv(Init(maxlen, threads), steps);
    assert LogOk(b);
  }

  /** Step `m` gives log entry `p` to subscriber `s`: a put into a queue that is not full, or the replay. */
  ghost predicate Gives(start: Bus, steps: seq<Step>, m: nat, s: nat, p: nat) {
    && m < |steps| && After(start, steps[..m]).Some?
    && var b := After(start, steps[..m]).value;
       Enabled(b, steps[m]) && GivesNow(b, steps[m], s, p)
  }

  ghost predicate GivesNow(b: Bus, step: Step, s: nat, p: nat)
    requires Enabled(b, step)
  {
    match step
    case Put(t) => b.threads[t].todo[0] == s && b.threads[t].pos == p && |b.subs[s].queue| < QUEUE_SIZE
    case Subscribe =>
      var first := |b.log| - |b.ring|;
      s == |b.subs| && first <= p < first + Min(|b.ring|, QUEUE_SIZE)
    case _ => false
  }

  /** The steps that gave the subscriber its deliveries, one for each. */
  ghost function GivenAt(start: Bus, steps: seq<Step>, s: nat): seq<nat>
    requires After(start, steps).Some?
  {
    if steps == [] then []
    else
      var init, step := steps[..|steps| - 1], steps[|steps| - 1];
      var b := After(start, init).value;
      if step.Subscribe? && s == |b.subs| then seq(Min(|b.ring|, QUEUE_SIZE), _ => |init|)
      else if step.Put? && b.threads[step.t].todo[0] == s && |b.subs[s].queue| < QUEUE_SIZE then
        GivenAt(start, init, s) + [|init|]
      else GivenAt(start, init, s)
  }

  /** `at` and `got` list, in order, exactly the gifts in the set. */
  ghost predicate Lists(gifts: iset<(nat, nat)>, at: seq<nat>, got: seq<nat>) {
    && |at| == |got|
    && (forall x :: 0 <= x < |at| ==> (at[x], got[x]) in gifts)
    && (forall x, y :: 0 <= x < y < |at| ==> at[x] < at[y] || (at[x] == at[y] && got[x] < got[y]))
    && (forall m: nat, p: nat :: (m, p) in gifts ==> exists x :: 0 <= x < |at| && at[x] == m && got[x] == p)
  }

  ghost function Gifts(start: Bus, steps: seq<Step>, s: nat): iset<(nat, nat)> {
    iset m: nat, p: nat | Gives(start, steps, m, s, p) :: (m, p)
  }

  lemma ListsPush(gifts: iset<(nat, nat)>, at: seq<nat>, got: seq<nat>, m: nat, p: nat)
    requires Lists(gifts, at, got) && forall n: nat, q: nat :: (n, q) in gifts ==> n < m
    ensures Lists(gifts + iset{(m, p)}, at + [m], got + [p])
  {
    var all, at', got' := gifts + iset{(m, p)}, at + [m], got + [p];
    assert forall x :: 0 <= x < |at| ==> at[x] < m by {
      assert forall x :: 0 <= x < |at| ==> (at[x], got[x]) in gifts;
    }
    forall n: nat, q: nat | (n, q) in all
      ensures exists x :: 0 <= x < |at'| && at'[x] == n && got'[x] == q
    {
      if (n, q) in gifts {
        var x :| 0 <= x < |at| && at[x] == n && got[x] == q;
        assert at'[x] == n && got'[x] == q;
      } else {
        assert at'[|at|] == n && got'[|at|] == q;
      }
    }
  }

  lemma ListsReplay(gifts: iset<(nat, nat)>, m: nat, first: nat, got: seq<nat>)
    requires forall x :: 0 <= x < |got| ==> got[x] == first + x
    requires forall n: nat, q: nat :: (n, q) in gifts <==> n == m && first <= q < first + |got|
    ensures Lists(gifts, seq(|got|, _ => m), got)
  {
    forall n: nat, q: nat | (n, q) in gifts
      ensures exists x :: 0 <= x < |got| && seq(|got|, _ => m)[x] == n && got[x] == q
    {
      assert got[q - first] == q && seq(|got|, _ => m)[q - first] == m;
    }
  }

  function GotOf(b: Bus, s: nat): seq<nat> { if s < |b.subs| then b.subs[s].got else [] }

  lemma GivesPush(start: Bus, steps: seq<Step>, step: Step, m: nat, s: nat, p: nat)
    requires After(start, steps).Some? && Enabled(After(start, steps).value, step)
    ensures Gives(start, steps + [step], m, s, p) <==>
            Gives(start, steps, m, s, p) || (m == |steps| && GivesNow(After(start, steps).value, step, s, p))
  {
    var all := steps + [step];
    if m <= |steps| {
      assert all[..m] == steps[..m];
    }
    assert steps[..|steps|] == steps;
  }

  /** The gifts of one more step, as values. */
  lemma GiftsStep(b: Bus, step: Step, s: nat)
    requires Enabled(b, step) && RingOk(b) && ListOk(b) && FanLive(b)
    ensures var was, now := GotOf(b, s), GotOf(Next(b, step), s);
            if step.Subscribe? && s == |b.subs| then
              was == [] && |now| == Min(|b.ring|, QUEUE_SIZE)
              && (forall x :: 0 <= x < |now| ==> now[x] == |b.log| - |b.ring| + x)
            else if step.Put? && b.threads[step.t].todo[0] == s && |b.subs[s].queue| < QUEUE_SIZE then
              now == was + [b.threads[step.t].pos]
            else now == was
  {
  }

  ghost predicate FanLive(b: Bus) {
    forall t :: 0 <= t < |b.threads| ==> FanOk(b, t)
  }

  lemma {:induction false} GivenInOrder(maxlen: nat, threads: nat, steps: seq<Step>, s: nat)
    requires After(Init(maxlen, threads), steps).Some?
    ensures Lists(Gifts(Init(maxlen, threads), steps, s), GivenAt(Init(maxlen, threads), steps, s),
                  GotOf(After(Init(maxlen, threads), steps).value, s))
  {
    var start := Init(maxlen, threads);
    if steps != [] {
      var init, step := steps[..|steps| - 1], steps[|steps| - 1];
      assert steps == init + [step];
      assert After(start, init).Some? && Enabled(After(start, init).value, step);
      hide After, Gifts, GivenAt, Lists, Inv, GotOf, Enabled, Next;
      GivenInOrder(maxlen, threads, init, s);
      InitOk(maxlen, threads);
      RunKeepsInv(start, init);
      GiftsPush(start, init, step, s);
    } else {
      NoGifts(start, s);
    }
  }

  lemma InitOk(maxlen: nat, threads: nat)
    ensures Inv(Init(maxlen, threads))
  {
  }

  lemma NoGifts(start: Bus, s: nat)
    requires s >= |start.subs|
    ensures Gifts(start, [], s) == iset{} && Lists(Gifts(start, [], s), [], [])
  {
  }

  lemma GiftsAfter(start: Bus, steps: seq<Step>, step: Step, s: nat)
    requires After(start, steps).Some? && Enabled(After(start, steps).value, step)
    ensures Gifts(start, steps + [step], s) ==
            Gifts(start, steps, s) + iset p: nat | GivesNow(After(start, steps).value, step, s, p) :: (|steps|, p)
    ensures forall n: nat, q: nat :: (n, q) in Gifts(start, steps, s) ==> n < |steps|
  {
    forall m: nat, p: nat
      ensures Gives(start, steps + [step], m, s, p) <==>
              Gives(start, steps, m, s, p) || (m == |steps| && GivesNow(After(start, steps).value, step, s, p))
    {
      GivesPush(start, steps, step, m, s, p);
    }
    assert forall m: nat, p: nat :: Gives(start, steps, m, s, p) ==> m < |steps|;
    hide Gives, After, GivesNow;
  }

  lemma GivenAtPush(start: Bus, steps: seq<Step>, step: Step, s: nat)
    requires After(start, steps).Some? && Enabled(After(start, steps).value, step)
    ensures After(start, steps + [step]) == Some(Next(After(start, steps).value, step))
    ensures var b := After(start, steps).value;
            GivenAt(start, steps + [step], s) ==
            if step.Subscribe? && s == |b.subs| then seq(Min(|b.ring|, QUEUE_SIZE), _ => |steps|)
            else if step.Put? && b.threads[step.t].todo[0] == s && |b.subs[s].queue| < QUEUE_SIZE then
              GivenAt(start, steps, s) + [|steps|]
            else GivenAt(start, steps, s)
  {
    assert (steps + [step])[..|steps|] == steps;
    hide Next, Enabled;
  }

  lemma GivesNowIs(b: Bus, step: Step, s: nat, m: nat)
    requires Enabled(b, step)
    ensures var now := iset p: nat | GivesNow(b, step, s, p) :: (m, p);
            if step.Subscribe? && s == |b.subs| then
              |b.ring| <= |b.log| &&
              var first := |b.log| - |b.ring|;
              forall n: nat, q: nat :: (n, q) in now <==> n == m && first <= q < first + Min(|b.ring|, QUEUE_SIZE)
            else if step.Put? && b.threads[step.t].todo[0] == s && |b.subs[s].queue| < QUEUE_SIZE then
              now == iset{(m, b.threads[step.t].pos)}
            else now == iset{}
  {
  }

  lemma ReplayGifts(b: Bus, step: Step, s: nat, m: nat, gifts: iset<(nat, nat)>, at: seq<nat>, got: seq<nat>)
    requires Enabled(b, step) && step.Subscribe? && s == |b.subs|
    requires gifts == iset p: nat | GivesNow(b, step, s, p) :: (m, p)
    requires |got| == Min(|b.ring|, QUEUE_SIZE) && forall x :: 0 <= x < |got| ==> got[x] == |b.log| - |b.ring| + x
    requires at == seq(Min(|b.ring|, QUEUE_SIZE), _ => m)
    ensures Lists(gifts, at, got)
  {
    GivesNowIs(b, step, s, m);
    hide GivesNow, Lists;
    ListsReplay(gifts, m, |b.log| - |b.ring|, got);
  }

  lemma GiftsPush(start: Bus, steps: seq<Step>, step: Step, s: nat)
    requires After(start, steps).Some? && Enabled(After(start, steps).value, step)
    requires Inv(After(start, steps).value)
    requires Lists(Gifts(start, steps, s), GivenAt(start, steps, s), GotOf(After(start, steps).value, s))
    ensures After(start, steps + [step]) == Some(Next(After(start, steps).value, step))
    ensures Lists(Gifts(start, steps + [step], s), GivenAt(start, steps + [step], s),
                  GotOf(Next(After(start, steps).value, step), s))
  {
    hide RingOk, ListOk, FanLive, Gifts, GivesNow, After, GivenAt, Next, GotOf, Lists;
    var b := After(start, steps).value;
    InvFacts(b);
    hide Inv;
    GiftsStep(b, step, s);
    GiftsAfter(start, steps, step, s);
    GivenAtPush(start, steps, step, s);
    var gifts, at, got := Gifts(start, steps, s), GivenAt(start, steps, s), GotOf(b, s);
    var now := iset p: nat | GivesNow(b, step, s, p) :: (|steps|, p);
    assert Gifts(start, steps + [step], s) == gifts + now;
    if step.Subscribe? && s == |b.subs| {
      NothingListed(gifts, at, got);
      assert gifts + now == now;
      ReplayGifts(b, step, s, |steps|, now, GivenAt(start, steps + [step], s), GotOf(Next(b, step), s));
    } else {
      GivesNowIs(b, step, s, |steps|);
      if step.Put? && b.threads[step.t].todo[0] == s && |b.subs[s].queue| < QUEUE_SIZE {
        ListsPush(gifts, at, got, |steps|, b.threads[step.t].pos);
      } else {
        assert gifts + now == gifts;
      }
    }
  }

  lemma InvFacts(b: Bus)
    requires Inv(b)
    ensures RingOk(b) && ListOk(b) && FanLive(b)
  {
  }

  lemma NothingListed(gifts: iset<(nat, nat)>, at: seq<nat>, got: seq<nat>)
    requires Lists(gifts, at, got) && got == []
    ensures gifts == iset{}
  {
    forall gift: (nat, nat)
      ensures gift !in gifts
    {
      assert (gift.0, gift.1) == gift;
    }
  }

  /** Two of a subscriber's events went out in the wrong order: the one drawn later was put, or replayed, first. */
  ghost predicate SentOutOfOrder(start: Bus, steps: seq<Step>, s: nat) {
    exists m: nat, p: nat, l: nat, q: nat :: GivenBefore(start, steps, s, m, p, l, q) && DrawnLater(steps, p, q)
  }

  ghost predicate GivenBefore(start: Bus, steps: seq<Step>, s: nat, m: nat, p: nat, l: nat, q: nat) {
    Gives(start, steps, m, s, p) && Gives(start, steps, l, s, q) && (m < l || (m == l && p < q))
  }

  /** The `p`-th append of the run belongs to a later draw than the `q`-th. */
  ghost predicate DrawnLater(steps: seq<Step>, p: nat, q: nat) {
    exists i: nat, k: nat, j: nat, l: nat ::
      Emits(steps, i, k) && Appends(steps[..k]) == p && Emits(steps, j, l) && Appends(steps[..l]) == q && j < i
  }

  lemma LargerIffDrawnLater(maxlen: nat, threads: nat, steps: seq<Step>, b: Bus, p: nat, q: nat)
    requires After(Init(maxlen, threads), steps) == Some(b) && p < |b.log| && q < |b.log|
    ensures b.log[q].event.seqNo < b.log[p].event.seqNo <==> DrawnLater(steps, p, q)
  {
    var i, k := EmitOf(maxlen, threads, steps, p);
    var j, l := EmitOf(maxlen, threads, steps, q);
    hide After;
    SmallerIffDrawnFirst(steps, b, q, p, j, l, i, k);
    if DrawnLater(steps, p, q) {
      var i': nat, k': nat, j': nat, l': nat :|
        Emits(steps, i', k') && Appends(steps[..k']) == p && Emits(steps, j', l') && Appends(steps[..l']) == q && j' < i';
      EmitOfAppend(maxlen, threads, steps, b, i', k');
      EmitOfAppend(maxlen, threads, steps, b, j', l');
      SmallerIffDrawnFirst(steps, b, q, p, j', l', i', k');
    }
  }

  /** What reaches one subscriber carries ascending ids if and only if no two of its events were put, or
      replayed, in another order than drawn: a statement about the run's draw, append, subscribe and put steps. */
  lemma DeliveriesAscendIff(maxlen: nat, threads: nat, steps: seq<Step>, b: Bus, s: nat)
    requires After(Init(maxlen, threads), steps) == Some(b) && s < |b.subs|
    ensures var got := b.subs[s].got;
            && (forall i :: 0 <= i < |got| ==> got[i] < |b.log|)
            && ((forall x, y :: 0 <= x < y < |got| ==> b.log[got[x]].event.seqNo < b.log[got[y]].event.seqNo) <==>
                !SentOutOfOrder(Init(maxlen, threads), steps, s))
  {
    var start, got := Init(maxlen, threads), b.subs[s].got;
    hide After, DrawnLater, Gives, SentOutOfOrder, Lists, GivenAt, Gifts;
    GotIsDistinct(maxlen, threads, steps, b, s);
    if SentOutOfOrder(start, steps, s) {
      var x, y := WrongPair(maxlen, threads, steps, b, s);
      LargerIffDrawnLater(maxlen, threads, steps, b, got[x], got[y]);
    } else {
      forall x, y | 0 <= x < y < |got|
        ensures b.log[got[x]].event.seqNo < b.log[got[y]].event.seqNo
      {
        RightPair(maxlen, threads, steps, b, s, x, y);
        LargerIffDrawnLater(maxlen, threads, steps, b, got[x], got[y]);
      }
    }
  }

  lemma WrongPair(maxlen: nat, threads: nat, steps: seq<Step>, b: Bus, s: nat) returns (x: nat, y: nat)
    requires After(Init(maxlen, threads), steps) == Some(b) && s < |b.subs|
    requires SentOutOfOrder(Init(maxlen, threads), steps, s)
    ensures x < y < |b.subs[s].got| && DrawnLater(steps, b.subs[s].got[x], b.subs[s].got[y])
  {
    hide After, DrawnLater, Gives, GivenAt;
    var start, got := Init(maxlen, threads), b.subs[s].got;
    GivenInOrder(maxlen, threads, steps, s);
    var at := GivenAt(start, steps, s);
    var m: nat, p: nat, l: nat, q: nat :| GivenBefore(start, steps, s, m, p, l, q) && DrawnLater(steps, p, q);
    assert (m, p) in Gifts(start, steps, s) && (l, q) in Gifts(start, steps, s);
    hide Gifts;
    x :| 0 <= x < |at| && at[x] == m && got[x] == p;
    y :| 0 <= y < |at| && at[y] == l && got[y] == q;
  }

  lemma RightPair(maxlen: nat, threads: nat, steps: seq<Step>, b: Bus, s: nat, x: nat, y: nat)
    requires After(Init(maxlen, threads), steps) == Some(b) && s < |b.subs|
    requires !SentOutOfOrder(Init(maxlen, threads), steps, s) && x < y < |b.subs[s].got|
    ensures !DrawnLater(steps, b.subs[s].got[x], b.subs[s].got[y])
  {
    hide After, DrawnLater, Gives, GivenAt;
    var start, got := Init(maxlen, threads), b.subs[s].got;
    GivenInOrder(maxlen, threads, steps, s);
    var at := GivenAt(start, steps, s);
    assert (at[x], got[x]) in Gifts(start, steps, s) && (at[y], got[y]) in Gifts(start, steps, s);
    assert GivenBefore(start, steps, s, at[x], got[x], at[y], got[y]);
  }

  lemma GotIsDistinct(maxlen: nat, threads: nat, steps: seq<Step>, b: Bus, s: nat)
    requires After(Init(maxlen, threads), steps) == Some(b) && s < |b.subs|
    ensures var got := b.subs[s].got;
            && (forall i :: 0 <= i < |got| ==> got[i] < |b.log|)
            && forall x, y :: 0 <= x < y < |got| ==> b.log[got[x]].event.seqNo != b.log[got[y]].event.seqNo
  {
    RunKeepsInv(Init(maxlen, threads), steps);
    assert QueueOk(b.subs[s], b.log) && OrderOk(b.subs[s], b.log) && LogOk(b);
    hide After, Inv;
  }

  /** When no emit was overtaken, a subscriber's ids ascend if and only if its events were put in the order in
      which they were appended. */
  lemma UnovertakenDeliveries(maxlen: nat, threads: nat, steps: seq<Step>, b: Bus, s: nat)
    requires After(Init(maxlen, threads), steps) == Some(b) && s < |b.subs| && !Overtaken(steps)
    ensures var got := b.subs[s].got;
            && (forall i :: 0 <= i < |got| ==> got[i] < |b.log|)
            && ((forall x, y :: 0 <= x < y < |got| ==> b.log[got[x]].event.seqNo < b.log[got[y]].event.seqNo) <==>
                GotAscending(b.subs[s]))
  {
    AscendingIffNoneOvertaken(maxlen, threads, steps, b);
    RunKeepsInv(Init(maxlen, threads), steps);
    assert QueueOk(b.subs[s], b.log) && OrderOk(b.subs[s], b.log);
    hide After, Inv, Overtaken;
  }

  lemma OvertakingWitness(maxlen: nat)
    requires maxlen >= 2
    ensures var run := [Draw(0, "", ""), Draw(1, "", ""), Append(1), Append(0)];
            var b := After(Init(maxlen, 2), run);
            b.Some? && b.value.ring == [Event(2, "", ""), Event(1, "", "")]
  {
    var start := Init(maxlen, 2);
    var s1, s2 := [Draw(0, "", "")], [Draw(0, "", ""), Draw(1, "", "")];
    var s3 := s2 + [Append(1)];
    AfterPush(start, [], Draw(0, "", ""));
    AfterPush(start, s1, Draw(1, "", ""));
    AfterPush(start, s2, Append(1));
    AfterPush(start, s3, Append(0));
    assert [] + s1 == s1 && s1 + [Draw(1, "", "")] == s2;
    assert s3 + [Append(0)] == [Draw(0, "", ""), Draw(1, "", ""), Append(1), Append(0)];
    var b2 := After(start, s2).value;
    assert b2.threads == [Drawn(Event(1, "", "")), Drawn(Event(2, "", ""))];
    var b3 := Next(b2, Append(1));
    assert b3.ring == [Event(2, "", "")] && b3.threads[0] == Drawn(Event(1, "", ""));
  }

  /** Two entries appended in draw order, and put by their threads in the other order. */
  lemma LatePuts(b: Bus)
    requires b.threads == [Idle, Idle] && b.log == [] && b.ring == [] && b.counter == 1 && b.registered == [0]
    requires |b.subs| == 1 && b.subs[0].queue == []
    ensures Enabled(b, Draw(0, "", ""))
    ensures var b1 := Next(b, Draw(0, "", ""));
            && Enabled(b1, Append(0))
            && var b2 := Next(b1, Append(0));
            && Enabled(b2, Draw(1, "", ""))
            && var b3 := Next(b2, Draw(1, "", ""));
            && Enabled(b3, Append(1))
            && var b4 := Next(b3, Append(1));
            && Enabled(b4, Put(1))
            && var b5 := Next(b4, Put(1));
            && Enabled(b5, Put(0))
            && var b6 := Next(b5, Put(0));
            && b6.log == [Entry(Event(1, "", ""), 0), Entry(Event(2, "", ""), 1)]
            && |b6.subs| == 1 && b6.subs[0].queue == [Event(2, "", ""), Event(1, "", "")]
  {
    var e1, e2 := Event(1, "", ""), Event(2, "", "");
    var b1 := Next(b, Draw(0, "", ""));
    assert b1.threads == [Drawn(e1), Idle];
    var b2 := Next(b1, Append(0));
    assert b2.threads == [FanningOut(0, [0]), Idle] && b2.log == [Entry(e1, 0)];
    var b3 := Next(b2, Draw(1, "", ""));
    assert b3.threads == [FanningOut(0, [0]), Drawn(e2)];
    var b4 := Next(b3, Append(1));
    assert b4.threads == [FanningOut(0, [0]), FanningOut(1, [0])] && b4.log == [Entry(e1, 0), Entry(e2, 1)];
    hide LastN;
    var b5 := Next(b4, Put(1));
    assert b5.threads[0] == FanningOut(0, [0]) && b5.subs[0].queue == [e2];
  }

  /** No emit overtaken, and still a subscriber is sent ids 2, 1. */
  lemma LatePutWitness(maxlen: nat) returns (run: seq<Step>)
    ensures var b := After(Init(maxlen, 2), run);
            b.Some? && !Overtaken(run) && |b.value.subs| == 1
            && b.value.subs[0].queue == [Event(2, "", ""), Event(1, "", "")]
  {
    var start := Init(maxlen, 2);
    var s1, s2 := [Subscribe], [Subscribe] + [Draw(0, "", "")];
    var s3 := s2 + [Append(0)];
    var s4 := s3 + [Draw(1, "", "")];
    var s5 := s4 + [Append(1)];
    var s6 := s5 + [Put(1)];
    run := s6 + [Put(0)];
    assert After(start, []) == Some(start);
    hide After, Overtaken;
    AfterPush(start, [], Subscribe);
    assert [] + s1 == s1;
    var b := Next(start, Subscribe);
    assert start.threads == [Idle, Idle] && b.registered == [0];
    LatePuts(b);
    hide Next, Enabled;
    AfterPush(start, s1, Draw(0, "", ""));
    AfterPush(start, s2, Append(0));
    AfterPush(start, s3, Draw(1, "", ""));
    AfterPush(start, s4, Append(1));
    AfterPush(start, s5, Put(1));
    AfterPush(start, s6, Put(0));
    AscendingIffNoneOvertaken(maxlen, 2, run, After(start, run).value);
  }

  // ---------------------------------------------------------------- opening and closing

  /** A subscription is open until its subscriber is closed, and registered until it is deregistered. */
  lemma {:induction false} OpenUntilClosed(maxlen: nat, threads: nat, steps: seq<Step>, s: nat)
    requires After(Init(maxlen, threads), steps).Some?
    ensures var b := After(Init(maxlen, threads), steps).value;
            if s < |b.subs| then
              && (b.subs[s].closed <==> MarkClosed(s) in steps)
              && (b.subs[s].until.None? <==> Deregister(s) !in steps)
            else MarkClosed(s) !in steps && Deregister(s) !in steps
  {
    if steps != [] {
      var init, step := steps[..|steps| - 1], steps[|steps| - 1];
      OpenUntilClosed(maxlen, threads, init, s);
      RunKeepsInv(Init(maxlen, threads), init);
      var b := After(Init(maxlen, threads), init).value;
      assert ListOk(b);
      assert steps == init + [step];
      hide Inv, After;
      ClosingStep(b, step, s);
    }
  }

  lemma ClosingStep(b: Bus, step: Step, s: nat)
    requires ListOk(b) && Enabled(b, step)
    ensures var n := Next(b, step);
            && |b.subs| <= |n.subs|
            && (step == MarkClosed(s) || step == Deregister(s) ==> s < |b.subs|)
            && (s < |b.subs| ==>
                  && (n.subs[s].closed <==> b.subs[s].closed || step == MarkClosed(s))
                  && (n.subs[s].until.None? <==> b.subs[s].until.None? && step != Deregister(s)))
            && (|b.subs| <= s < |n.subs| ==> step == Subscribe && !n.subs[s].closed && n.subs[s].until.None?)
  {
  }

  /** In every reachable state the registered subscribers are those not yet deregistered. */
  lemma RegisteredIff(maxlen: nat, threads: nat, steps: seq<Step>, s: nat)
    requires After(Init(maxlen, threads), steps).Some?
    ensures var b := After(Init(maxlen, threads), steps).value;
            s in b.registered <==> s < |b.subs| && Deregister(s) !in steps
  {
    OpenUntilClosed(maxlen, threads, steps, s);
    RunKeepsInv(Init(maxlen, threads), steps);
    assert ListOk(After(Init(maxlen, threads), steps).value);
  }

  // ---------------------------------------------------------------- the documented replay

  /** "Full ring-buffer replay" holds exactly when the ring fits the subscriber's queue. */
  lemma FullReplayIff(b: Bus)
    requires Reachable(b)
    ensures Enabled(b, Subscribe)
    ensures NewSub(b).queue == b.ring[..Min(|b.ring|, 500)]
    ensures NewSub(b).queue == b.ring <==> |b.ring| <= 500
  {
    ReachableInv(b);
    assert RingOk(b);
    hide Inv, Reachable, RingOk;
  }

  /** A store filled by `n` undisturbed emits. */
  lemma {:induction false} Fill(maxlen: nat, n: nat) returns (steps: seq<Step>)
    ensures var b := After(Init(maxlen, 1), steps);
            && b.Some? && |b.value.log| == n
            && b.value.threads == [Idle] && b.value.registered == []
  {
    var start := Init(maxlen, 1);
    if n == 0 {
      steps := [];
      assert start.threads == [Idle];
    } else {
      var before := Fill(maxlen, n - 1);
      AfterPush(start, before, Draw(0, "", ""));
      AfterPush(start, before + [Draw(0, "", "")], Append(0));
      AfterPush(start, before + [Draw(0, "", "")] + [Append(0)], Finish(0));
      steps := before + [Draw(0, "", "")] + [Append(0)] + [Finish(0)];
    }
  }

  /** With the default ring of 1000, a subscriber of a reachable store misses ring entries. */
  lemma PartialReplayWitness() returns (b: Bus)
    ensures Reachable(b) && b.maxlen == 1000 && |b.ring| == 501 && Enabled(b, Subscribe)
    ensures NewSub(b).queue != b.ring
  {
    var steps := Fill(1000, 501);
    b := After(Init(1000, 1), steps).value;
    MaxlenIsFixed(Init(1000, 1), steps);
    RingIsLogTail(b);
    FullReplayIff(b);
  }

  lemma {:induction false} MaxlenIsFixed(start: Bus, steps: seq<Step>)
    requires After(start, steps).Some?
    ensures After(start, steps).value.maxlen == start.maxlen
  {
    if steps != [] {
      MaxlenIsFixed(start, steps[..|steps| - 1]);
    }
  }
}
