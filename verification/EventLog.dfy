/** The durable event log's global file pair (src/webhook_receiver/event_log.py): `events.jsonl` and its one
    previous generation `events.jsonl.1`.

    A file is the sequence of its lines, `None` when it does not exist; a line of length n occupies n + 1
    bytes. `all` and `slack` are history: every line ever written, over every process lifetime, and the bytes
    that a failed stat overlooked since the current file began. */
module EventLogs {
  import opened Sequences

  type Line = string

  datatype Files = Files(previous: Option<seq<Line>>, current: Option<seq<Line>>)

  function Lines(file: Option<seq<Line>>): seq<Line> {
    if file.Some? then file.value else []
  }

  function Size(lines: seq<Line>): nat {
    if lines == [] then 0 else Size(lines[..|lines| - 1]) + |lines[|lines| - 1]| + 1
  }

  datatype Log = Log(files: Files, cached: Option<nat>, all: seq<Line>, slack: nat)

  datatype Op =
    | Append(line: Line, statFails: bool, renameFails: bool, writeFails: bool)
    | Restart

  /** The size is read once a process; a stat that fails counts as 0, on an existing file too. */
  function Statted(l: Log, statFails: bool): (r: Log)
    ensures r.cached.Some?
  {
    if l.cached.Some? then l
    else if statFails then l.(cached := Some(0), slack := Size(Lines(l.files.current)))
    else l.(cached := Some(Size(Lines(l.files.current))))
  }

  /** Renaming a missing file fails too. */
  predicate Rotates(l: Log, maxBytes: nat, renameFails: bool) {
    l.cached.Some? && l.cached.value >= maxBytes && !renameFails && l.files.current.Some?
  }

  function Rotated(l: Log, maxBytes: nat, renameFails: bool): (r: Log)
    ensures l.cached.Some? ==> r.cached.Some?
  {
    if Rotates(l, maxBytes, renameFails) then Log(Files(l.files.current, None), Some(0), l.all, 0) else l
  }

  predicate RotatesAt(l: Log, op: Op, maxBytes: nat) {
    op.Append? && Rotates(Statted(l, op.statFails), maxBytes, op.renameFails)
  }

  function Next(l: Log, op: Op, maxBytes: nat): Log {
    match op
    case Restart => l.(cached := None)
    case Append(line, statFails, renameFails, writeFails) =>
      var r := Rotated(Statted(l, statFails), maxBytes, renameFails);
      if writeFails then r else Written(r, line)
  }

  function Written(r: Log, line: Line): Log
    requires r.cached.Some?
  {
    Log(r.files.(current := Some(Lines(r.files.current) + [line])), Some(r.cached.value + |line| + 1), r.all + [line],
        r.slack)
  }

  function Run(start: Log, ops: seq<Op>, maxBytes: nat): Log {
    if ops == [] then start else Next(Run(start, ops[..|ops| - 1], maxBytes), ops[|ops| - 1], maxBytes)
  }

  const EMPTY := Log(Files(None, None), None, [], 0)

  /** Where the current file, and before it the previous one, begins in the history. */
  function CurrentStart(l: Log): int { |l.all| - |Lines(l.files.current)| }
  function PreviousStart(l: Log): int { CurrentStart(l) - |Lines(l.files.previous)| }

  /** The pair is a tail of everything written, the cached size is the real size less at most the slack, and
      once there is a previous generation it holds at least `maxBytes`. */
  ghost predicate Inv(l: Log, maxBytes: nat) {
    && 0 <= PreviousStart(l)
    && Lines(l.files.previous) == l.all[PreviousStart(l)..CurrentStart(l)]
    && Lines(l.files.current) == l.all[CurrentStart(l)..]
    && (l.cached.Some? ==> l.cached.value <= Size(Lines(l.files.current)) <= l.cached.value + l.slack)
    && (l.files.previous.None? ==> PreviousStart(l) == 0)
    && (l.files.previous.Some? ==> Size(l.files.previous.value) >= maxBytes)
  }

  lemma NoBytes()
    ensures Size([]) == 0
  {
  }

  lemma StatKeepsInv(l: Log, maxBytes: nat, statFails: bool)
    requires Inv(l, maxBytes)
    ensures var r := Statted(l, statFails);
            Inv(r, maxBytes) && r.all == l.all && CurrentStart(r) == CurrentStart(l)
  {
    hide Size;
  }

  lemma RotateKeepsInv(l: Log, maxBytes: nat, renameFails: bool)
    requires Inv(l, maxBytes) && l.cached.Some?
    ensures var r := Rotated(l, maxBytes, renameFails);
            && Inv(r, maxBytes) && r.cached.Some?
            && CurrentStart(r) == if Rotates(l, maxBytes, renameFails) then |l.all| else CurrentStart(l)
  {
    hide Size;
    if Rotates(l, maxBytes, renameFails) {
      assert l.all[|l.all|..] == [];
      assert l.all[CurrentStart(l)..|l.all|] == l.all[CurrentStart(l)..];
      assert Size([]) == 0 by {
        NoBytes();
      }
    }
  }

  lemma WriteKeepsInv(r: Log, line: Line, maxBytes: nat)
    requires Inv(r, maxBytes) && r.cached.Some?
    ensures Inv(Written(r, line), maxBytes) && CurrentStart(Written(r, line)) == CurrentStart(r)
  {
    var lines := Lines(r.files.current);
    assert (lines + [line])[..|lines|] == lines;
    assert (r.all + [line])[PreviousStart(r)..CurrentStart(r)] == r.all[PreviousStart(r)..CurrentStart(r)];
    assert (r.all + [line])[CurrentStart(r)..] == r.all[CurrentStart(r)..] + [line];
  }

  lemma RestartKeepsInv(l: Log, maxBytes: nat)
    requires Inv(l, maxBytes)
    ensures Inv(l.(cached := None), maxBytes) && CurrentStart(l.(cached := None)) == CurrentStart(l)
  {
    hide Size;
  }

  lemma StepKeepsInv(l: Log, op: Op, maxBytes: nat)
    requires Inv(l, maxBytes)
    ensures Inv(Next(l, op, maxBytes), maxBytes)
    ensures l.all <= Next(l, op, maxBytes).all
    ensures CurrentStart(l) <= CurrentStart(Next(l, op, maxBytes))
    ensures CurrentStart(l) < CurrentStart(Next(l, op, maxBytes)) ==> RotatesAt(l, op, maxBytes)
  {
    StartInRange(l);
    hide Inv, CurrentStart, Rotated, Rotates, Size, Statted;
    match op
    case Restart => RestartKeepsInv(l, maxBytes);
    case Append(line, statFails, renameFails, writeFails) =>
      StatKeepsInv(l, maxBytes, statFails);
      var known := Statted(l, statFails);
      RotateKeepsInv(known, maxBytes, renameFails);
      var r := Rotated(known, maxBytes, renameFails);
      assert r.all == l.all by {
        RotateKeepsAll(known, maxBytes, renameFails);
      }
      if !writeFails {
        WriteKeepsInv(r, line, maxBytes);
      }
  }

  lemma RotateKeepsAll(l: Log, maxBytes: nat, renameFails: bool)
    ensures Rotated(l, maxBytes, renameFails).all == l.all
  {
  }

  lemma StartInRange(l: Log)
    ensures CurrentStart(l) <= |l.all|
  {
  }

  lemma {:induction false} RunKeepsInv(start: Log, ops: seq<Op>, maxBytes: nat)
    requires Inv(start, maxBytes)
    ensures Inv(Run(start, ops, maxBytes), maxBytes)
    ensures start.all <= Run(start, ops, maxBytes).all
    ensures CurrentStart(start) <= CurrentStart(Run(start, ops, maxBytes))
  {
    if ops != [] {
      var before := Run(start, ops[..|ops| - 1], maxBytes);
      RunKeepsInv(start, ops[..|ops| - 1], maxBytes);
      StepKeepsInv(before, ops[|ops| - 1], maxBytes);
    }
  }

  lemma SliceConcat(s: seq<Line>, i: nat, j: nat)
    requires i <= j <= |s|
    ensures s[i..j] + s[j..] == s[i..]
  {
  }

  lemma SameSlice(s: seq<Line>, t: seq<Line>, i: nat, j: nat)
    requires s <= t && i <= j <= |s|
    ensures s[i..j] == t[i..j]
  {
  }

  lemma SizeConcat(a: seq<Line>, b: seq<Line>)
    ensures Size(a + b) == Size(a) + Size(b)
  {
    if b == [] {
      assert a + b == a;
    } else {
      SizeConcat(a, b[..|b| - 1]);
      assert (a + b)[..|a + b| - 1] == a + b[..|b| - 1];
    }
  }

  lemma InvMeansSuffix(l: Log, maxBytes: nat)
    requires Inv(l, maxBytes)
    ensures var kept := Lines(l.files.previous) + Lines(l.files.current);
            && IsSuffix(kept, l.all)
            && (l.files.previous.None? ==> kept == l.all)
            && (l.files.previous.Some? ==> Size(Lines(l.files.previous)) >= maxBytes)
            && (l.cached.Some? ==> l.cached.value <= Size(Lines(l.files.current)) <= l.cached.value + l.slack)
  {
    hide Size;
    SliceConcat(l.all, PreviousStart(l), CurrentStart(l));
  }

  /** The lines whose writes succeeded, in order. */
  function Appended(ops: seq<Op>): seq<Line> {
    if ops == [] then []
    else
      var op := ops[|ops| - 1];
      Appended(ops[..|ops| - 1]) + (if op.Append? && !op.writeFails then [op.line] else [])
  }

  lemma {:induction false} AllIsAppended(start: Log, ops: seq<Op>, maxBytes: nat)
    ensures Run(start, ops, maxBytes).all == start.all + Appended(ops)
  {
    if ops == [] {
      assert start.all + Appended(ops) == start.all;
    } else {
      AllIsAppended(start, ops[..|ops| - 1], maxBytes);
    }
  }

  /** What a file of these lines contains. */
  function Text(lines: seq<Line>): string {
    if lines == [] then "" else Text(lines[..|lines| - 1]) + lines[|lines| - 1] + "\n"
  }

  lemma {:induction false} SizeIsBytes(lines: seq<Line>)
    ensures Size(lines) == |Text(lines)|
  {
    if lines != [] {
      SizeIsBytes(lines[..|lines| - 1]);
    }
  }

  /** Across restarts and whatever renames and writes fail: previous ++ current is a suffix of everything
      written, all of it before the first rotation and at least `maxBytes` of it afterwards. */
  lemma PairIsSuffix(ops: seq<Op>, maxBytes: nat)
    ensures Run(EMPTY, ops, maxBytes).all == Appended(ops)
    ensures var l := Run(EMPTY, ops, maxBytes);
            var kept := Lines(l.files.previous) + Lines(l.files.current);
            && IsSuffix(kept, l.all)
            && (l.files.previous.None? ==> kept == l.all)
            && (l.files.previous.Some? ==> Size(kept) >= maxBytes)
            && (l.cached.Some? ==> l.cached.value <= Size(Lines(l.files.current)) <= l.cached.value + l.slack)
  {
    EmptyIsInv(maxBytes);
    hide Run, Size, Inv, IsSuffix, Lines, Appended;
    AllIsAppended(EMPTY, ops, maxBytes);
    assert EMPTY.all + Appended(ops) == Appended(ops);
    RunKeepsInv(EMPTY, ops, maxBytes);
    var l := Run(EMPTY, ops, maxBytes);
    SizeConcat(Lines(l.files.previous), Lines(l.files.current));
    InvMeansSuffix(l, maxBytes);
  }

  lemma EmptyIsInv(maxBytes: nat)
    ensures Inv(EMPTY, maxBytes)
  {
  }

  /** Less its last line, the current file is below the limit and the slack. */
  ghost predicate Bounded(l: Log, maxBytes: nat) {
    var lines := Lines(l.files.current);
    lines != [] ==> Size(lines[..|lines| - 1]) < maxBytes + l.slack
  }

  /** ... below the limit itself. */
  ghost predicate LimitHolds(l: Log, maxBytes: nat) {
    var lines := Lines(l.files.current);
    lines != [] ==> Size(lines[..|lines| - 1]) < maxBytes
  }

  lemma LastLineOff(r: Log, line: Line)
    requires r.cached.Some?
    ensures var lines := Lines(Written(r, line).files.current);
            lines != [] && lines[..|lines| - 1] == Lines(r.files.current)
  {
  }

  /** Exactly when an append keeps the limit, renames succeeding: the file is below it, or its size is known to
      have reached it. A stat that fails on a full file is the way to lose it. */
  lemma AppendKeepsLimitIff(before: Log, op: Op, maxBytes: nat)
    requires maxBytes > 0 && op.Append? && !op.renameFails && !op.writeFails
    ensures LimitHolds(Next(before, op, maxBytes), maxBytes) <==>
            Size(Lines(before.files.current)) < maxBytes || Statted(before, op.statFails).cached.value >= maxBytes
  {
    var known := Statted(before, op.statFails);
    NoBytes();
    assert Lines(known.files.current) == Lines(before.files.current);
    hide Size, Statted;
    LastLineOff(Rotated(known, maxBytes, false), op.line);
  }

  lemma AppendKeepsBound(before: Log, op: Op, maxBytes: nat)
    requires maxBytes > 0 && Inv(before, maxBytes) && Bounded(before, maxBytes)
    requires op.Append? && !op.renameFails
    ensures Bounded(Next(before, op, maxBytes), maxBytes)
  {
    StatKeepsInv(before, maxBytes, op.statFails);
    var known := Statted(before, op.statFails);
    StatKeepsBound(before, op.statFails, maxBytes);
    FullFileRotates(known, maxBytes);
    hide Size, Rotated, Rotates, Inv, Statted;
    LastLineOff(Rotated(known, maxBytes, false), op.line);
  }

  lemma StatKeepsBound(l: Log, statFails: bool, maxBytes: nat)
    requires Bounded(l, maxBytes)
    ensures Bounded(Statted(l, statFails), maxBytes)
  {
    var lines := Lines(l.files.current);
    if lines != [] {
      assert Size(lines) == Size(lines[..|lines| - 1]) + |lines[|lines| - 1]| + 1;
    }
  }

  lemma RestartKeepsBound(before: Log, maxBytes: nat)
    ensures Bounded(before, maxBytes) ==> Bounded(Next(before, Restart, maxBytes), maxBytes)
  {
  }

  /** After the rotation test the file is below the limit and the slack. */
  lemma FullFileRotates(l: Log, maxBytes: nat)
    requires maxBytes > 0 && Inv(l, maxBytes) && Bounded(l, maxBytes) && l.cached.Some?
    ensures var r := Rotated(l, maxBytes, false);
            Size(Lines(r.files.current)) < maxBytes + r.slack && Bounded(r, maxBytes)
  {
    NoBytes();
    assert Size(Lines(l.files.current)) <= l.cached.value + l.slack;
    hide Inv, Size;
  }

  /** With renames succeeding, the current file never exceeds the limit and the slack by more than one line. */
  lemma {:induction false} CurrentFileIsBounded(ops: seq<Op>, maxBytes: nat)
    requires maxBytes > 0
    requires forall i :: 0 <= i < |ops| && ops[i].Append? ==> !ops[i].renameFails
    ensures Bounded(Run(EMPTY, ops, maxBytes), maxBytes)
  {
    if ops != [] {
      var before, op := Run(EMPTY, ops[..|ops| - 1], maxBytes), ops[|ops| - 1];
      CurrentFileIsBounded(ops[..|ops| - 1], maxBytes);
      EmptyIsInv(maxBytes);
      RunKeepsInv(EMPTY, ops[..|ops| - 1], maxBytes);
      hide Inv, Bounded, Size, Rotated, Statted;
      if op.Append? {
        AppendKeepsBound(before, op, maxBytes);
      } else {
        RestartKeepsBound(before, maxBytes);
      }
    }
  }

  /** The slack is nothing but what failed stats overlooked: without one there is none, and with renames
      succeeding as well the limit holds and the cached size is the real size. */
  lemma {:induction false} NoSlackWithoutFailedStat(ops: seq<Op>, maxBytes: nat)
    requires forall i :: 0 <= i < |ops| && ops[i].Append? ==> !ops[i].statFails
    ensures var l := Run(EMPTY, ops, maxBytes);
            && l.slack == 0
            && (l.cached.Some? ==> l.cached.value == Size(Lines(l.files.current)))
            && (maxBytes > 0 && (forall i :: 0 <= i < |ops| && ops[i].Append? ==> !ops[i].renameFails) ==>
                  LimitHolds(l, maxBytes))
  {
    NoSlack(ops, maxBytes);
    PairIsSuffix(ops, maxBytes);
    hide Run, Size;
    if maxBytes > 0 && forall i :: 0 <= i < |ops| && ops[i].Append? ==> !ops[i].renameFails {
      CurrentFileIsBounded(ops, maxBytes);
    }
  }

  lemma {:induction false} NoSlack(ops: seq<Op>, maxBytes: nat)
    requires forall i :: 0 <= i < |ops| && ops[i].Append? ==> !ops[i].statFails
    ensures Run(EMPTY, ops, maxBytes).slack == 0
  {
    if ops != [] {
      NoSlack(ops[..|ops| - 1], maxBytes);
    }
  }

  lemma RunPush(start: Log, ops: seq<Op>, op: Op, maxBytes: nat)
    ensures Run(start, ops + [op], maxBytes) == Next(Run(start, ops, maxBytes), op, maxBytes)
  {
    assert (ops + [op])[..|ops|] == ops;
  }

  /** A restart over a full file, and a stat that fails: the limit is lost. */
  lemma FailedStatWitness()
    ensures !LimitHolds(Run(EMPTY, [Append("a", false, false, false)] + [Restart] + [Append("b", true, false, false)], 1), 1)
  {
    var first, last := Append("a", false, false, false), Append("b", true, false, false);
    assert Run(EMPTY, [], 1) == EMPTY;
    assert [] + [first] == [first];
    RunPush(EMPTY, [], first, 1);
    RunPush(EMPTY, [first], Restart, 1);
    RunPush(EMPTY, [first] + [Restart], last, 1);
    NoBytes();
    assert Size(["a"]) == 2 by {
      assert ["a"][..0] == [];
    }
    assert [] + ["a"] == ["a"];
    hide Run, Size;
    var before := Run(EMPTY, [first] + [Restart], 1);
    assert before.files.current == Some(["a"]) && before.cached.None?;
    AppendKeepsLimitIff(before, last, 1);
  }

  // ---------------------------------------------------------------- a reader racing rotation

  /** `read_global_tail`: the previous file as of `first`, then the current file as of the later `second`. */
  function ReadTail(first: Log, second: Log): seq<Line> {
    Lines(first.files.previous) + Lines(second.files.current)
  }

  /** However many appends, rotations and restarts happen between its two reads, the reader returns two
      stretches of the history in order and without overlap; it misses exactly what lies between. */
  lemma ReaderNeverRepeats(first: Log, ops: seq<Op>, maxBytes: nat)
    requires Inv(first, maxBytes)
    ensures var second := Run(first, ops, maxBytes);
            && 0 <= PreviousStart(first) <= CurrentStart(first) <= CurrentStart(second) <= |second.all|
            && ReadTail(first, second) ==
               second.all[PreviousStart(first)..CurrentStart(first)] + second.all[CurrentStart(second)..]
            && (CurrentStart(first) == CurrentStart(second) ==>
                  ReadTail(first, second) == second.all[PreviousStart(first)..])
  {
    RunKeepsInv(first, ops, maxBytes);
    var second := Run(first, ops, maxBytes);
    hide Run, Size;
    SameSlice(first.all, second.all, PreviousStart(first), CurrentStart(first));
    SliceConcat(second.all, PreviousStart(first), CurrentStart(first));
  }

  /** Without a rotation in between the reader gets exactly the retained suffix. */
  lemma {:induction false} QuietReaderIsComplete(first: Log, ops: seq<Op>, maxBytes: nat)
    requires Inv(first, maxBytes)
    requires forall i :: 0 <= i < |ops| && ops[i].Append? ==>
               !RotatesAt(Run(first, ops[..i], maxBytes), ops[i], maxBytes)
    ensures CurrentStart(Run(first, ops, maxBytes)) == CurrentStart(first)
    ensures ReadTail(first, Run(first, ops, maxBytes)) == Run(first, ops, maxBytes).all[PreviousStart(first)..]
  {
    if ops != [] {
      var init := ops[..|ops| - 1];
      forall i | 0 <= i < |init| && init[i].Append?
        ensures !RotatesAt(Run(first, init[..i], maxBytes), init[i], maxBytes)
      {
        assert init[..i] == ops[..i];
      }
      QuietReaderIsComplete(first, init, maxBytes);
      RunKeepsInv(first, init, maxBytes);
      StepKeepsInv(Run(first, init, maxBytes), ops[|ops| - 1], maxBytes);
    }
    ReaderNeverRepeats(first, ops, maxBytes);
  }

  // ---------------------------------------------------------------- the writer

  class EventLog {
    const maxBytes: nat
    var globalSize: Option<nat>
    var previous: Option<seq<Line>>
    var current: Option<seq<Line>>
    ghost var all: seq<Line>
    ghost var slack: nat

    ghost function State(): Log
      reads this
    {
      Log(Files(previous, current), globalSize, all, slack)
    }

    /** A process start over whatever files are there. */
    constructor (maxBytes: nat, files: Files, ghost all: seq<Line>, ghost slack: nat)
      requires Inv(Log(files, None, all, slack), maxBytes)
      ensures Inv(State(), this.maxBytes) && this.maxBytes == maxBytes && State() == Log(files, None, all, slack)
    {
      this.maxBytes, globalSize, previous, current := maxBytes, None, files.previous, files.current;
      this.all, this.slack := all, slack;
    }

    /** `st_size`, recomputed from the file. */
    method Stat() returns (size: nat)
      ensures size == Size(Lines(current))
    {
      var lines := Lines(current);
      size := 0;
      for i := 0 to |lines|
        invariant size == Size(lines[..i])
      {
        assert lines[..i + 1][..i] == lines[..i];
        size := size + |lines[i]| + 1;
      }
      assert lines[..|lines|] == lines;
    }

    /** Stats the file once a process, then rotates it when it is full. */
    method RotateIfFull(statFails: bool, renameFails: bool)
      requires Inv(State(), maxBytes)
      modifies this`globalSize, this`previous, this`current, this`slack
      ensures State() == Rotated(Statted(old(State()), statFails), maxBytes, renameFails) && globalSize.Some?
    {
      if globalSize.None? {
        if statFails {
          globalSize := Some(0);
          slack := Size(Lines(current));
        } else {
          var size := Stat();
          globalSize := Some(size);
        }
      }
      if globalSize.value >= maxBytes && !renameFails && current.Some? {
        previous, current := current, None;
        globalSize := Some(0);
        slack := 0;
      }
    }

    method AppendGlobal(line: Line, statFails: bool, renameFails: bool, writeFails: bool)
      requires Inv(State(), maxBytes)
      modifies this
      ensures Inv(State(), maxBytes)
      ensures State() == Next(old(State()), Append(line, statFails, renameFails, writeFails), maxBytes)
    {
      hide Inv, Size, Rotated, Rotates, Statted, CurrentStart, PreviousStart;
      assert Inv(Next(State(), Append(line, statFails, renameFails, writeFails), maxBytes), maxBytes) by {
        StepKeepsInv(State(), Append(line, statFails, renameFails, writeFails), maxBytes);
      }
      RotateIfFull(statFails, renameFails);
      if !writeFails {
        current := Some(Lines(current) + [line]);
        globalSize := Some(globalSize.value + |line| + 1);
        all := all + [line];
      }
    }
  }
}
