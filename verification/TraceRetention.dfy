/** Run directories: retention (src/webhook_receiver/trace_log.py, `prune_runs`) and the routing of events to
    files (src/webhook_receiver/event_log.py, `_run_id_of`, `append`, `_append_run`).

    Modification times are an input of every prune, so ties and clock steps are covered. */
module TraceRetention {
  import opened Sequences
  import opened Texts

  type Name = string

  // ---------------------------------------------------------------- prune_runs

  /** `[0-9a-f]{32}`, the whole name. */
  predicate Eligible(name: Name) { |name| == 32 && forall i :: 0 <= i < |name| ==> IsLowerHex(name[i]) }

  /** `list.sort(key=mtime)`: stable insertion by time. */
  function InsertByTime(sorted: seq<Name>, name: Name, mtime: Name -> int): (r: seq<Name>)
    ensures multiset(r) == multiset(sorted) + multiset{name}
  {
    if sorted == [] then [name]
    else
      var last := sorted[|sorted| - 1];
      assert sorted == sorted[..|sorted| - 1] + [last];
      if mtime(last) <= mtime(name) then sorted + [name]
      else InsertByTime(sorted[..|sorted| - 1], name, mtime) + [last]
  }

  function SortByTime(names: seq<Name>, mtime: Name -> int): (r: seq<Name>)
    ensures multiset(r) == multiset(names)
  {
    if names == [] then []
    else
      assert names == names[..|names| - 1] + [names[|names| - 1]];
      InsertByTime(SortByTime(names[..|names| - 1], mtime), names[|names| - 1], mtime)
  }

  ghost predicate OldestFirst(names: seq<Name>, mtime: Name -> int) {
    forall i, j :: 0 <= i < j < |names| ==> mtime(names[i]) <= mtime(names[j])
  }

  ghost predicate NoneNewer(names: seq<Name>, mtime: Name -> int, limit: int) {
    forall i :: 0 <= i < |names| ==> mtime(names[i]) <= limit
  }

  lemma PushKeepsOrder(names: seq<Name>, last: Name, mtime: Name -> int, limit: int)
    requires OldestFirst(names, mtime) && NoneNewer(names, mtime, mtime(last)) && mtime(last) <= limit
    ensures OldestFirst(names + [last], mtime) && NoneNewer(names + [last], mtime, limit)
  {
  }

  lemma PopKeepsOrder(names: seq<Name>, mtime: Name -> int)
    requires OldestFirst(names, mtime) && names != []
    ensures OldestFirst(names[..|names| - 1], mtime)
    ensures NoneNewer(names[..|names| - 1], mtime, mtime(names[|names| - 1]))
  {
  }

  lemma {:induction false} InsertKeepsOrder(sorted: seq<Name>, name: Name, mtime: Name -> int, limit: int)
    requires OldestFirst(sorted, mtime) && NoneNewer(sorted, mtime, limit) && mtime(name) <= limit
    ensures OldestFirst(InsertByTime(sorted, name, mtime), mtime)
    ensures NoneNewer(InsertByTime(sorted, name, mtime), mtime, limit)
  {
    if sorted == [] {
      assert InsertByTime(sorted, name, mtime) == [name];
    } else {
      var init, last := sorted[..|sorted| - 1], sorted[|sorted| - 1];
      PopKeepsOrder(sorted, mtime);
      assert mtime(last) <= limit;
      hide OldestFirst, NoneNewer;
      if mtime(last) <= mtime(name) {
        LastIsNewest(sorted, mtime, mtime(name));
        PushKeepsOrder(sorted, name, mtime, limit);
      } else {
        InsertKeepsOrder(init, name, mtime, mtime(last));
        PushKeepsOrder(InsertByTime(init, name, mtime), last, mtime, limit);
      }
    }
  }

  lemma LastIsNewest(names: seq<Name>, mtime: Name -> int, limit: int)
    requires OldestFirst(names, mtime) && names != [] && mtime(names[|names| - 1]) <= limit
    ensures NoneNewer(names, mtime, limit)
  {
  }

  lemma {:induction false} SortIsOldestFirst(names: seq<Name>, mtime: Name -> int)
    ensures OldestFirst(SortByTime(names, mtime), mtime)
  {
    if names != [] {
      SortIsOldestFirst(names[..|names| - 1], mtime);
      var sorted, name := SortByTime(names[..|names| - 1], mtime), names[|names| - 1];
      var newest := if sorted == [] || mtime(sorted[|sorted| - 1]) <= mtime(name) then mtime(name)
                    else mtime(sorted[|sorted| - 1]);
      if sorted != [] {
        LastIsNewest(sorted, mtime, newest);
      }
      InsertKeepsOrder(sorted, name, mtime, newest);
    }
  }

  function Keep(keepRuns: int): nat { if keepRuns < 1 then 1 else keepRuns }

  function EligibleOf(names: seq<Name>): seq<Name> { Filter(names, Eligible) }

  /** The directories a prune removes unless one is protected: all but the newest `Keep(keepRuns)` eligible. */
  function Stale(names: seq<Name>, mtime: Name -> int, keepRuns: int): seq<Name> {
    var eligible := EligibleOf(names);
    if |eligible| <= Keep(keepRuns) then []
    else
      var sorted := SortByTime(eligible, mtime);
      SizeOfPermutation(eligible, sorted);
      sorted[..|eligible| - Keep(keepRuns)]
  }

  lemma StaleIs(names: seq<Name>, mtime: Name -> int, keepRuns: int)
    ensures var siblings, keep := Filter(names, Eligible), if keepRuns < 1 then 1 else keepRuns;
            && |SortByTime(siblings, mtime)| == |siblings|
            && (|siblings| <= keep ==> Stale(names, mtime, keepRuns) == [])
            && (|siblings| > keep ==> Stale(names, mtime, keepRuns) == SortByTime(siblings, mtime)[..|siblings| - keep])
  {
    hide SortByTime, Filter, Eligible;
    SizeOfPermutation(Filter(names, Eligible), SortByTime(Filter(names, Eligible), mtime));
  }

  lemma SizeOfPermutation(a: seq<Name>, b: seq<Name>)
    requires multiset(a) == multiset(b)
    ensures |a| == |b|
    ensures forall x :: x in a <==> x in b
  {
    assert |multiset(a)| == |a| && |multiset(b)| == |b|;
    assert forall x :: x in a <==> x in multiset(a);
    assert forall x :: x in b <==> x in multiset(b);
  }

  lemma {:induction false} NoDupCounts(s: seq<Name>)
    ensures NoDup(s) <==> forall x :: multiset(s)[x] <= 1
  {
    if s != [] {
      var init, last := s[..|s| - 1], s[|s| - 1];
      assert s == init + [last];
      NoDupCounts(init);
      assert multiset(s) == multiset(init) + multiset{last};
      if NoDup(s) {
        assert NoDup(init);
        assert last !in init;
        assert last !in multiset(init);
      } else if NoDup(init) {
        var i, j :| 0 <= i < j < |s| && s[i] == s[j];
        assert j == |s| - 1;
        assert init[i] in multiset(init);
        assert multiset(s)[last] >= 2;
      } else {
        var x :| multiset(init)[x] > 1;
        assert multiset(s)[x] > 1;
      }
    }
  }

  lemma {:induction false} EligibleExactly(names: seq<Name>)
    ensures forall x :: x in EligibleOf(names) <==> x in names && Eligible(x)
    ensures NoDup(names) ==> NoDup(EligibleOf(names))
  {
    if names != [] {
      EligibleExactly(names[..|names| - 1]);
      assert names == names[..|names| - 1] + [names[|names| - 1]];
    }
  }

  /** `newest` is what a prune spares of the eligible directories: `Keep` of them (or all, when there are
      fewer), none older than any stale one. */
  lemma StaleAreOldest(names: seq<Name>, mtime: Name -> int, keepRuns: int) returns (newest: seq<Name>)
    requires NoDup(names)
    ensures var stale := Stale(names, mtime, keepRuns);
            && |newest| == (if |EligibleOf(names)| <= Keep(keepRuns) then |EligibleOf(names)| else Keep(keepRuns))
            && (forall x :: x in stale || x in newest <==> x in names && Eligible(x))
            && (forall x :: !(x in stale && x in newest))
            && (forall x, y :: x in stale && y in newest ==> mtime(x) <= mtime(y))
  {
    var eligible := EligibleOf(names);
    EligibleExactly(names);
    if |eligible| <= Keep(keepRuns) {
      newest := eligible;
    } else {
      var sorted := SortByTime(eligible, mtime);
      SizeOfPermutation(eligible, sorted);
      NoDupCounts(eligible);
      NoDupCounts(sorted);
      SortIsOldestFirst(eligible, mtime);
      hide SortByTime, EligibleOf, Eligible, OldestFirst, NoDup;
      newest := sorted[|eligible| - Keep(keepRuns)..];
      SplitByAge(sorted, mtime, |eligible| - Keep(keepRuns));
    }
  }

  lemma SplitByAge(sorted: seq<Name>, mtime: Name -> int, cut: nat)
    requires OldestFirst(sorted, mtime) && NoDup(sorted) && cut <= |sorted|
    ensures forall x :: x in sorted <==> x in sorted[..cut] || x in sorted[cut..]
    ensures forall x :: !(x in sorted[..cut] && x in sorted[cut..])
    ensures forall x, y :: x in sorted[..cut] && y in sorted[cut..] ==> mtime(x) <= mtime(y)
  {
    var stale, newest := sorted[..cut], sorted[cut..];
    assert sorted == stale + newest;
    forall i, j | 0 <= i < cut && 0 <= j < |newest|
      ensures stale[i] != newest[j] && mtime(stale[i]) <= mtime(newest[j])
    {
      assert sorted[i] == stale[i] && sorted[cut + j] == newest[j];
    }
  }

  predicate Pruned(name: Name, listing: seq<Name>, mtime: Name -> int, keepRuns: int, protect: Option<Name>) {
    name in Stale(listing, mtime, keepRuns) && protect != Some(name)
  }

  // ---------------------------------------------------------------- which file an event goes to

  /** A payload value as far as `_run_id_of` looks at it. */
  datatype Json = JString(text: string) | JOther(truthy: bool)

  predicate Truthy(v: Option<Json>) {
    match v
    case None => false
    case Some(JString(text)) => text != ""
    case Some(JOther(truthy)) => truthy
  }

  predicate IsAlnum(c: char) { 'A' <= c <= 'Z' || 'a' <= c <= 'z' || '0' <= c <= '9' }

  /** `[A-Za-z0-9][A-Za-z0-9._-]{0,63}`, the whole string. */
  predicate IsSegment(s: string) {
    && 1 <= |s| <= 64 && IsAlnum(s[0])
    && forall i :: 0 <= i < |s| ==> IsAlnum(s[i]) || s[i] in "._-"
  }

  function RunIdOf(runId: Option<Json>, id: Option<Json>): (r: Option<Name>)
    ensures r.Some? ==> IsSegment(r.value) && r.value != "." && r.value != ".."
    ensures r.Some? ==> (if Truthy(runId) then runId else id) == Some(JString(r.value))
    ensures r.Some? <==>
              || (Truthy(runId) && runId.value.JString? && IsSegment(runId.value.text))
              || (!Truthy(runId) && id.Some? && id.value.JString? && IsSegment(id.value.text))
  {
    var rid := if Truthy(runId) then runId else id;
    if rid.Some? && rid.value.JString? && rid.value.text !in [".", ".."] && IsSegment(rid.value.text)
    then Some(rid.value.text)
    else None
  }

  datatype Item = Item(runId: Option<Json>, id: Option<Json>, line: string)

  function Target(item: Item): Option<Name> { RunIdOf(item.runId, item.id) }

  /** The lines of the items for one target, in order. */
  function LinesFor(items: seq<Item>, target: Option<Name>): seq<string> {
    if items == [] then []
    else
      var item := items[|items| - 1];
      LinesFor(items[..|items| - 1], target) + (if Target(item) == target then [item.line] else [])
  }

  /** Run directories with their event files, the global lines, and as history the stream of items and the
      stream position at which each directory was made. */
  datatype Tree = Tree(dirs: map<Name, seq<string>>, global: seq<string>, stream: seq<Item>, born: map<Name, nat>)

  /** A prune that some step performs: the directory listing it reads and the times it sees. */
  datatype Prune = Prune(listing: seq<Name>, mtime: Name -> int, failing: set<Name>)

  datatype Op =
    | Append(item: Item, prune: Prune)
    | OpenTrace(name: Name, prune: Prune)

  ghost predicate Lists(p: Prune, names: set<Name>) {
    NoDup(p.listing) && forall n :: n in p.listing <==> n in names
  }

  predicate Gone(n: Name, p: Prune, keepRuns: int, protect: Name) {
    Pruned(n, p.listing, p.mtime, keepRuns, Some(protect)) && n !in p.failing
  }

  function AfterPrune(t: Tree, p: Prune, keepRuns: int, protect: Name): Tree {
    t.(dirs := map n | n in t.dirs && !Gone(n, p, keepRuns, protect) :: t.dirs[n],
       born := map n | n in t.born && !Gone(n, p, keepRuns, protect) :: t.born[n])
  }

  function MakeDir(t: Tree, name: Name): Tree {
    if name in t.dirs then t else t.(dirs := t.dirs[name := []], born := t.born[name := |t.stream|])
  }

  function Written(t: Tree, item: Item): Tree
    requires Target(item).Some? ==> Target(item).value in t.dirs
  {
    match Target(item)
    case None => t.(global := t.global + [item.line], stream := t.stream + [item])
    case Some(name) => t.(dirs := t.dirs[name := t.dirs[name] + [item.line]], stream := t.stream + [item])
  }

  function Next(t: Tree, op: Op, keepRuns: int): Tree {
    match op
    case OpenTrace(name, p) => AfterPrune(MakeDir(t, name), p, keepRuns, name)
    case Append(item, p) =>
      match Target(item)
      case None => Written(t, item)
      case Some(name) =>
        var written := Written(MakeDir(t, name), item);
        if name in t.dirs then written else AfterPrune(written, p, keepRuns, name)
  }

  function Run(ops: seq<Op>, keepRuns: int): Tree {
    if ops == [] then Tree(map[], [], [], map[]) else Next(Run(ops[..|ops| - 1], keepRuns), ops[|ops| - 1], keepRuns)
  }

  ghost predicate FileOk(t: Tree, n: Name)
    requires n in t.dirs
  {
    n in t.born && t.born[n] <= |t.stream| && t.dirs[n] == LinesFor(t.stream[t.born[n]..], Some(n))
  }

  /** Each file is the order-preserving filter of the stream by target, a run's since its directory was made. */
  ghost predicate Routed(t: Tree) {
    && t.global == LinesFor(t.stream, None)
    && (forall n :: n in t.born ==> n in t.dirs)
    && forall n :: n in t.dirs ==> FileOk(t, n)
  }

  lemma LinesForPush(items: seq<Item>, item: Item, target: Option<Name>)
    ensures LinesFor(items + [item], target) == LinesFor(items, target) + (if Target(item) == target then [item.line] else [])
  {
    assert (items + [item])[..|items|] == items;
  }

  lemma PruneKeepsRouting(t: Tree, p: Prune, keepRuns: int, protect: Name)
    requires Routed(t)
    ensures Routed(AfterPrune(t, p, keepRuns, protect))
  {
    hide Gone;
    var n := AfterPrune(t, p, keepRuns, protect);
    forall x | x in n.dirs
      ensures FileOk(n, x)
    {
      assert FileOk(t, x);
    }
  }

  lemma MakeDirKeepsRouting(t: Tree, name: Name)
    requires Routed(t)
    ensures Routed(MakeDir(t, name))
  {
    var n := MakeDir(t, name);
    assert t.stream[|t.stream|..] == [];
    forall x | x in n.dirs
      ensures FileOk(n, x)
    {
      if x in t.dirs {
        assert FileOk(t, x);
      }
    }
  }

  /** Writing one item into the file of its target, all other files unchanged. */
  lemma WriteKeepsRouting(t: Tree, item: Item)
    requires Routed(t) && (Target(item).Some? ==> Target(item).value in t.dirs)
    ensures Routed(Written(t, item))
  {
    hide LinesFor, Target;
    var n := Written(t, item);
    LinesForPush(t.stream, item, None);
    forall x | x in n.dirs
      ensures FileOk(n, x)
    {
      assert FileOk(t, x);
      LinesForPush(t.stream[t.born[x]..], item, Some(x));
      assert n.stream[t.born[x]..] == t.stream[t.born[x]..] + [item];
    }
  }

  lemma {:induction false} RoutingHolds(ops: seq<Op>, keepRuns: int)
    ensures Routed(Run(ops, keepRuns))
  {
    if ops != [] {
      var t := Run(ops[..|ops| - 1], keepRuns);
      RoutingHolds(ops[..|ops| - 1], keepRuns);
      hide Routed, AfterPrune, Run;
      match ops[|ops| - 1]
      case OpenTrace(name, p) =>
        MakeDirKeepsRouting(t, name);
        PruneKeepsRouting(MakeDir(t, name), p, keepRuns, name);
      case Append(item, p) =>
        match Target(item) {
          case None => WriteKeepsRouting(t, item);
          case Some(name) =>
            MakeDirKeepsRouting(t, name);
            WriteKeepsRouting(MakeDir(t, name), item);
            PruneKeepsRouting(Written(MakeDir(t, name), item), p, keepRuns, name);
        }
    }
  }

  /** One item goes into exactly one file: its target's grows by its line, even when that write triggered a
      prune, and no other surviving file changes. */
  lemma AppendTouchesOneFile(t: Tree, item: Item, p: Prune, keepRuns: int)
    ensures var n := Next(t, Append(item, p), keepRuns);
            match Target(item)
            case None => n.global == t.global + [item.line] && n.dirs == t.dirs
            case Some(name) =>
              && n.global == t.global
              && name in n.dirs && n.dirs[name] == (if name in t.dirs then t.dirs[name] else []) + [item.line]
              && (forall x :: x in n.dirs && x != name ==> x in t.dirs && n.dirs[x] == t.dirs[x])
              && (name in t.dirs ==> n.dirs.Keys == t.dirs.Keys)
  {
    hide Target, Stale;
  }

  /** A prune leaves exactly the ineligible directories, the protected one, those whose removal fails, and the
      newest `max(1, keepRuns)` eligible ones. */
  lemma RetentionIsExact(t: Tree, p: Prune, keepRuns: int, protect: Name) returns (newest: seq<Name>)
    requires Lists(p, t.dirs.Keys)
    ensures var keep := if keepRuns < 1 then 1 else keepRuns;
            && |newest| == (if |EligibleOf(p.listing)| <= keep then |EligibleOf(p.listing)| else keep)
    ensures forall n :: n in newest ==> n in t.dirs && Eligible(n)
    ensures forall n :: n in AfterPrune(t, p, keepRuns, protect).dirs <==>
              n in t.dirs && (!Eligible(n) || n == protect || n in newest || n in p.failing)
    ensures forall n :: n in AfterPrune(t, p, keepRuns, protect).dirs ==> AfterPrune(t, p, keepRuns, protect).dirs[n] == t.dirs[n]
    ensures forall x, y :: x in t.dirs && x !in AfterPrune(t, p, keepRuns, protect).dirs && y in newest ==>
              p.mtime(x) <= p.mtime(y)
  {
    newest := StaleAreOldest(p.listing, p.mtime, keepRuns);
    hide Stale, Eligible, EligibleOf;
  }

  /** A run directory that is made, by a trace or by the run's first event, is kept and has the others pruned:
      what is left is ineligible, that directory, a failed removal, or one of `max(1, keepRuns)`. */
  lemma NewRunPrunes(t: Tree, op: Op, keepRuns: int, name: Name) returns (newest: seq<Name>)
    requires op.OpenTrace? ==> op.name == name
    requires op.Append? ==> Target(op.item) == Some(name) && name !in t.dirs
    requires Lists(op.prune, t.dirs.Keys + {name})
    ensures |newest| <= if keepRuns < 1 then 1 else keepRuns
    ensures var n := Next(t, op, keepRuns);
            && name in n.dirs
            && forall x :: x in n.dirs ==> !Eligible(x) || x == name || x in newest || x in op.prune.failing
  {
    var made := MakeDir(t, name);
    assert made.dirs.Keys == t.dirs.Keys + {name};
    if op.Append? {
      assert Written(made, op.item).dirs.Keys == made.dirs.Keys;
      newest := RetentionIsExact(Written(made, op.item), op.prune, keepRuns, name);
    } else {
      newest := RetentionIsExact(made, op.prune, keepRuns, name);
    }
    hide AfterPrune, Eligible, Target, RunIdOf, EligibleOf;
  }

  const HEX := "0123456789abcdef"

  /** The names a prune may remove: 32 lower-case hex digits. */
  lemma EligibleIff(name: Name)
    ensures Eligible(name) <==> |name| == 32 && forall c :: c in name ==> c in HEX
  {
    HexDigits();
    hide IsLowerHex;
    assert forall i :: 0 <= i < |name| ==> name[i] in name;
  }

  lemma HexDigits()
    ensures forall c :: IsLowerHex(c) <==> c in HEX
  {
    assert HEX[0] == '0' && HEX[1] == '1' && HEX[2] == '2' && HEX[3] == '3' && HEX[4] == '4' && HEX[5] == '5';
    assert HEX[6] == '6' && HEX[7] == '7' && HEX[8] == '8' && HEX[9] == '9' && HEX[10] == 'a' && HEX[11] == 'b';
    assert HEX[12] == 'c' && HEX[13] == 'd' && HEX[14] == 'e' && HEX[15] == 'f';
  }

  lemma AlnumCharacters(c: char)
    ensures IsAlnum(c) <==> c in UPPER || c in LOWER || c in DIGITS
  {
    UpperIs(c);
    LowerIs(c);
    DigitsAre(c);
  }

  predicate SegmentCharacter(c: char) { c in UPPER || c in LOWER || c in DIGITS || c == '.' || c == '_' || c == '-' }

  /** A run id: 1 to 64 letters, digits, dots, underscores and dashes, a letter or a digit first. */
  lemma SegmentIff(s: string)
    ensures IsSegment(s) <==>
            && 1 <= |s| <= 64 && (s[0] in UPPER || s[0] in LOWER || s[0] in DIGITS)
            && forall i :: 0 <= i < |s| ==> SegmentCharacter(s[i])
  {
    hide IsAlnum;
    forall i | 0 <= i < |s|
      ensures SegmentCharacter(s[i]) <==> IsAlnum(s[i]) || s[i] in "._-"
      ensures IsAlnum(s[i]) <==> s[i] in UPPER || s[i] in LOWER || s[i] in DIGITS
    {
      AlnumCharacters(s[i]);
    }
    hide SegmentCharacter;
  }

  /** An empty `run_id`, or a falsy one of another type, gives way to `id`; a truthy one does not. */
  lemma EmptyRunIdGivesWay(id: Option<Json>)
    ensures RunIdOf(Some(JString("")), id) == RunIdOf(None, id) == RunIdOf(Some(JOther(false)), id)
    ensures RunIdOf(Some(JOther(true)), id) == None
    ensures forall s :: IsSegment(s) ==> RunIdOf(Some(JString(s)), id) == Some(s) && RunIdOf(None, Some(JString(s))) == Some(s)
  {
  }

  /** The items of a run are its appends, in order, whatever is pruned. */
  function Items(ops: seq<Op>): seq<Item> {
    if ops == [] then []
    else Items(ops[..|ops| - 1]) + (if ops[|ops| - 1].Append? then [ops[|ops| - 1].item] else [])
  }

  lemma {:induction false} StreamIsAppended(ops: seq<Op>, keepRuns: int)
    ensures Run(ops, keepRuns).stream == Items(ops)
  {
    if ops != [] {
      StreamIsAppended(ops[..|ops| - 1], keepRuns);
      hide Gone, Target;
    }
  }

  // ---------------------------------------------------------------- the file system effects

  class TraceRoot {
    var dirs: map<Name, seq<string>>

    /** `prune_runs`. */
    method PruneRuns(p: Prune, keepRuns: int, protect: Name)
      modifies this
      ensures dirs == map n | n in old(dirs) && !Gone(n, p, keepRuns, protect) :: old(dirs)[n]
    {
      var keep := if keepRuns < 1 then 1 else keepRuns;
      StaleIs(p.listing, p.mtime, keepRuns);
      hide SortByTime, Filter, Eligible, Stale, Keep;
      var siblings := Filter(p.listing, Eligible);
      if |siblings| <= keep {
        return;
      }
      siblings := SortByTime(siblings, p.mtime);
      var stale := siblings[..|siblings| - keep];
      RemoveAll(stale, p.failing, protect);
    }

    /** The removal loop over the stale directories. */
    method RemoveAll(stale: seq<Name>, failing: set<Name>, protect: Name)
      modifies this
      ensures dirs == map n | n in old(dirs) && !(n in stale && n != protect && n !in failing) :: old(dirs)[n]
    {
      for i := 0 to |stale|
        invariant forall n :: n in dirs <==> n in old(dirs) && !(n in stale[..i] && n != protect && n !in failing)
        invariant forall n :: n in dirs ==> dirs[n] == old(dirs)[n]
      {
        assert stale[..i + 1] == stale[..i] + [stale[i]];
        if stale[i] == protect {
          continue;
        }
        if stale[i] !in failing {
          dirs := dirs - {stale[i]};
        }
      }
      assert stale[..|stale|] == stale;
    }

    /** `_append_run`: the directory, the line, and a prune when the directory is new. */
    method AppendRun(name: Name, item: Item, p: Prune, keepRuns: int, ghost t: Tree)
      requires t.dirs == dirs && Target(item) == Some(name)
      modifies this
      ensures dirs == Next(t, Append(item, p), keepRuns).dirs
    {
      var isNew := name !in dirs;
      if isNew {
        dirs := dirs[name := []];
      }
      dirs := dirs[name := dirs[name] + [item.line]];
      if isNew {
        PruneRuns(p, keepRuns, name);
      }
    }
  }
}
