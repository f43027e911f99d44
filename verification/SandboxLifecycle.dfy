/** Sandbox rows and Docker containers (src/SwarmSandbox/SwarmSandbox.Api: SandboxManager, SandboxReaper,
    DockerSandboxProvisioner, EfSandboxStore).

    `World` is the persisted table and the daemon's containers. Every store write and Docker call may fail,
    before or after it took effect; operations do not overlap and are not cancelled. */
module SandboxLifecycle {
  import opened Sequences

  datatype SandboxState = Creating | Running | Stopping | Stopped | Faulted | Removed

  datatype SandboxRecord = SandboxRecord(
    containerId: string, containerName: string, state: SandboxState, expiresAt: Option<int>, lastError: bool)

  /** Rows by id; container names by container id. */
  datatype World = World(rows: map<string, SandboxRecord>, containers: map<string, string>)

  /** Docker ids have 64 characters, names are `swarmsandbox-` and 8 more, row ids are 12 characters. */
  const NAME_PREFIX := "swarmsandbox-"

  predicate IsContainerId(s: string) { |s| == 64 }
  predicate IsContainerName(s: string) { |s| == 21 && NAME_PREFIX <= s }
  predicate IsRowId(s: string) { |s| == 12 }

  function ContainerIdentity(id: string, r: SandboxRecord): string {
    if r.containerName != "" then r.containerName
    else if r.containerId != "" then r.containerId
    else id
  }

  /** The container a Docker call on `identity` acts on: by id or by name. */
  predicate Addresses(w: World, identity: string, c: string) {
    c in w.containers && (c == identity || w.containers[c] == identity)
  }

  /** The expiry query. */
  predicate Expired(r: SandboxRecord, now: int) {
    && (r.state.Creating? || r.state.Running? || r.state.Faulted?)
    && r.expiresAt.Some? && r.expiresAt.value <= now
  }

  /** How a store or Docker call goes: it succeeds, it raises without effect, or it raises after its effect. */
  datatype Call = Succeeds | Refused | RaisedAfter

  predicate TakesEffect(c: Call) { !c.Refused? }

  // ---------------------------------------------------------------- the invariant

  /** The row `id` names container `c`, by the identity every later operation will use. */
  ghost predicate Names(w: World, id: string, c: string) {
    && id in w.rows && c in w.containers
    && w.rows[id].containerId == c && w.rows[id].containerName == w.containers[c]
    && !w.rows[id].state.Removed?
  }

  ghost predicate RowOk(id: string, r: SandboxRecord) {
    && IsRowId(id)
    && (r.state.Creating? || r.state.Running? || r.state.Faulted? || r.state.Removed?)
    && r.expiresAt.Some?
    && ((r.containerId == "" && r.containerName == "") || (IsContainerId(r.containerId) && IsContainerName(r.containerName)))
  }

  ghost predicate ContainersOk(w: World) {
    && (forall c :: c in w.containers ==> IsContainerId(c) && IsContainerName(w.containers[c]))
    && (forall c, d :: c in w.containers && d in w.containers && w.containers[c] == w.containers[d] ==> c == d)
  }

  ghost predicate WellFormed(w: World) {
    && (forall id :: id in w.rows ==> RowOk(id, w.rows[id]))
    && ContainersOk(w)
  }

  /** Container coverage: every live container but those in `lost` is named by a row the reaper comes back to. */
  ghost predicate CoveredBut(w: World, lost: set<string>) {
    forall c :: c in w.containers ==> c in lost || exists id :: Names(w, id, c)
  }

  ghost predicate Covered(w: World) { CoveredBut(w, {}) }

  // ---------------------------------------------------------------- create

  /** One `CreateSandboxAsync`: the ids drawn, the clock, and how its calls go. */
  datatype CreateCalls = CreateCalls(
    rowId: string, containerName: string, containerId: string, expiresAt: int,
    add: Call, create: Call, start: Call, cleanup: Call, update: Call, faultWrite: Call)

  /** What the environment provides: a 12-character row id, a prefixed name, and a Docker id never used before. */
  predicate Drawn(w: World, f: CreateCalls) {
    && IsRowId(f.rowId) && IsContainerName(f.containerName) && IsContainerId(f.containerId)
    && f.containerId !in w.containers
    && forall id :: id in w.rows ==> w.rows[id].containerId != f.containerId
  }

  datatype CreateResult = Created(id: string) | InsertFailed | ProvisioningFailed(id: string)

  /** Docker refuses a second container of the same name. */
  predicate NameTaken(w: World, name: string) {
    exists c :: c in w.containers && w.containers[c] == name
  }

  /** The row was inserted and the daemon made the container. */
  predicate ContainerMade(w: World, f: CreateCalls) {
    f.add.Succeeds? && f.rowId !in w.rows && TakesEffect(f.create) && !NameTaken(w, f.containerName)
  }

  predicate Started(w: World, f: CreateCalls) {
    ContainerMade(w, f) && f.create.Succeeds? && f.start.Succeeds?
  }

  /** The container outlives the call: only a failed start is followed by a removal. */
  predicate ContainerStays(w: World, f: CreateCalls) {
    ContainerMade(w, f) && (f.create.Succeeds? && !f.start.Succeeds? ==> !TakesEffect(f.cleanup))
  }

  /** ... and no row will ever name it: the create call raised after making it; or its start failed and the
      cleanup had no effect; or it started and neither the Running write nor the fallback Faulted write had. */
  predicate Orphaned(w: World, f: CreateCalls) {
    && ContainerMade(w, f)
    && if !f.create.Succeeds? then true
       else if !f.start.Succeeds? then !TakesEffect(f.cleanup)
       else !TakesEffect(f.update) && !TakesEffect(f.faultWrite)
  }

  function AfterCreate(w: World, f: CreateCalls): World {
    if f.rowId in w.rows || !TakesEffect(f.add) then w
    else
      var blank := SandboxRecord("", "", Creating, Some(f.expiresAt), false);
      var filled :=
        if Started(w, f) then blank.(containerId := f.containerId, containerName := f.containerName) else blank;
      var row :=
        if !f.add.Succeeds? then blank
        else if Started(w, f) && f.update.Succeeds? then filled.(state := Running)
        else if TakesEffect(f.faultWrite) then filled.(state := Faulted, lastError := true)
        else if Started(w, f) && TakesEffect(f.update) then filled.(state := Running)
        else blank;
      World(w.rows[f.rowId := row],
            if ContainerStays(w, f) then w.containers[f.containerId := f.containerName] else w.containers)
  }

  lemma CreateKeepsNames(w: World, f: CreateCalls, id: string, c: string)
    requires Drawn(w, f) && Names(w, id, c)
    ensures Names(AfterCreate(w, f), id, c)
  {
  }

  lemma CreateKeepsWellFormed(w: World, f: CreateCalls)
    requires WellFormed(w) && Drawn(w, f)
    ensures WellFormed(AfterCreate(w, f))
  {
  }

  /** The call's own container, when it stays, is named exactly when it is not orphaned. */
  lemma CreateNamesItsOwnIff(w: World, f: CreateCalls)
    requires Drawn(w, f) && ContainerStays(w, f)
    ensures (exists id :: Names(AfterCreate(w, f), id, f.containerId)) <==> !Orphaned(w, f)
  {
    hide NameTaken;
    if !Orphaned(w, f) {
      assert Names(AfterCreate(w, f), f.rowId, f.containerId);
    } else {
      assert forall id :: !Names(AfterCreate(w, f), id, f.containerId);
    }
  }

  /** What is lost by one create. */
  function LostBy(w: World, f: CreateCalls): set<string> {
    if Orphaned(w, f) then {f.containerId} else {}
  }

  lemma CreateKeepsCoverage(w: World, f: CreateCalls, lost: set<string>)
    requires WellFormed(w) && CoveredBut(w, lost) && Drawn(w, f)
    ensures WellFormed(AfterCreate(w, f))
    ensures CoveredBut(AfterCreate(w, f), lost + LostBy(w, f))
  {
    var n := AfterCreate(w, f);
    CreateKeepsWellFormed(w, f);
    assert n.containers == if ContainerStays(w, f) then w.containers[f.containerId := f.containerName] else w.containers;
    hide WellFormed, Drawn, AfterCreate, Names, ContainerStays, Orphaned;
    forall c | c in w.containers && c !in lost
      ensures exists id :: Names(n, id, c)
    {
      var id :| Names(w, id, c);
      CreateKeepsNames(w, f, id, c);
    }
    if ContainerStays(w, f) {
      CreateNamesItsOwnIff(w, f);
    }
  }

  /** Creating keeps every container covered exactly when it does not orphan its own. */
  lemma CreateKeepsCoverageIff(w: World, f: CreateCalls)
    requires WellFormed(w) && Covered(w) && Drawn(w, f)
    ensures WellFormed(AfterCreate(w, f))
    ensures Covered(AfterCreate(w, f)) <==> !Orphaned(w, f)
  {
    CreateKeepsCoverage(w, f, {});
    if Orphaned(w, f) {
      CreateNamesItsOwnIff(w, f);
      assert f.containerId in AfterCreate(w, f).containers;
    }
  }

  /** Both ways of losing a started or half-created container, from an empty service. */
  lemma OrphanWitnesses() returns (lateCreate: CreateCalls, lostWrites: CreateCalls)
    ensures var w := History([]);
            && Drawn(w, lateCreate) && lateCreate.create.RaisedAfter?
            && Drawn(w, lostWrites) && lostWrites.update.Refused? && lostWrites.faultWrite.Refused?
            && !Covered(AfterCreate(w, lateCreate)) && !Covered(AfterCreate(w, lostWrites))
  {
    var name := NAME_PREFIX + "01234567";
    var container := seq(64, _ => '0');
    lateCreate := CreateCalls("0123456789ab", name, container, 0, Succeeds, RaisedAfter, Succeeds, Succeeds, Succeeds, Succeeds);
    lostWrites := CreateCalls("0123456789ab", name, container, 0, Succeeds, Succeeds, Succeeds, Succeeds, Refused, Refused);
    CreateKeepsCoverageIff(History([]), lateCreate);
    CreateKeepsCoverageIff(History([]), lostWrites);
  }

  // ---------------------------------------------------------------- delete and reap

  /** What a Docker removal that succeeds (not-found included) leaves. */
  function Without(w: World, identity: string): map<string, string> {
    map c | c in w.containers && !Addresses(w, identity, c) :: w.containers[c]
  }

  function AfterDelete(w: World, id: string, remove: Call, update: Call): World {
    if id !in w.rows || !TakesEffect(remove) then w
    else World(if remove.Succeeds? && TakesEffect(update) then w.rows[id := w.rows[id].(state := Removed)] else w.rows,
               Without(w, ContainerIdentity(id, w.rows[id])))
  }

  /** How the stop, the remove and the final write go for the rows where they do not simply succeed. */
  datatype ReapCalls = ReapCalls(stop: map<string, Call>, remove: map<string, Call>, update: map<string, Call>)

  function CallFor(calls: map<string, Call>, id: string): Call { if id in calls then calls[id] else Succeeds }

  predicate Selected(w: World, id: string, now: int) {
    id in w.rows && Expired(w.rows[id], now)
  }

  /** The pass removes the container of row `id`. */
  predicate Clears(f: ReapCalls, id: string) {
    CallFor(f.stop, id).Succeeds? && TakesEffect(CallFor(f.remove, id))
  }

  /** The pass marks row `id` as removed. */
  predicate Marks(f: ReapCalls, id: string) {
    Clears(f, id) && CallFor(f.remove, id).Succeeds? && TakesEffect(CallFor(f.update, id))
  }

  function AfterReap(w: World, now: int, f: ReapCalls): World {
    World(
      map id | id in w.rows ::
        if Selected(w, id, now) && Marks(f, id) then w.rows[id].(state := Removed) else w.rows[id],
      map c | c in w.containers && !ClearedAway(w, now, f, c) :: w.containers[c])
  }

  predicate ClearedAway(w: World, now: int, f: ReapCalls, c: string) {
    exists id :: id in w.rows && Selected(w, id, now) && Clears(f, id) && Addresses(w, ContainerIdentity(id, w.rows[id]), c)
  }

  /** The identity of a row that names a container addresses that container and no other. */
  lemma NamedIsAddressed(w: World, id: string, c: string, d: string)
    requires WellFormed(w) && Names(w, id, c)
    ensures Addresses(w, ContainerIdentity(id, w.rows[id]), d) <==> d == c
  {
    assert RowOk(id, w.rows[id]);
  }

  lemma DeleteKeepsWellFormed(w: World, id: string, remove: Call, update: Call)
    requires WellFormed(w)
    ensures WellFormed(AfterDelete(w, id, remove, update))
  {
    assert forall i :: i in w.rows ==> RowOk(i, w.rows[i]);
    hide IsContainerId, IsContainerName, IsRowId, ContainerIdentity;
  }

  /** A container that is still there is not the one that the delete addressed. */
  lemma DeleteKeepsName(w: World, id: string, remove: Call, update: Call, i: string, c: string)
    requires WellFormed(w) && Names(w, i, c) && c in AfterDelete(w, id, remove, update).containers
    ensures Names(AfterDelete(w, id, remove, update), i, c)
  {
    NamedIsAddressed(w, i, c, c);
    hide WellFormed, ContainerIdentity;
  }

  lemma DeleteKeepsCoverage(w: World, id: string, remove: Call, update: Call, lost: set<string>)
    requires WellFormed(w) && CoveredBut(w, lost)
    ensures WellFormed(AfterDelete(w, id, remove, update))
    ensures CoveredBut(AfterDelete(w, id, remove, update), lost)
  {
    var n := AfterDelete(w, id, remove, update);
    DeleteKeepsWellFormed(w, id, remove, update);
    assert n.containers.Keys <= w.containers.Keys;
    hide WellFormed, AfterDelete, Names;
    forall c | c in n.containers && c !in lost
      ensures exists i :: Names(n, i, c)
    {
      var i :| Names(w, i, c);
      DeleteKeepsName(w, id, remove, update, i, c);
    }
  }

  lemma ReapKeepsCoverage(w: World, now: int, f: ReapCalls, lost: set<string>)
    requires WellFormed(w) && CoveredBut(w, lost)
    ensures WellFormed(AfterReap(w, now, f)) && CoveredBut(AfterReap(w, now, f), lost)
  {
    var n := AfterReap(w, now, f);
    assert forall i :: i in n.rows ==> i in w.rows && RowOk(i, w.rows[i]);
    forall c | c in n.containers && c !in lost
      ensures exists i :: Names(n, i, c)
    {
      var i :| Names(w, i, c);
      NamedIsAddressed(w, i, c, c);
      assert Names(n, i, c);
    }
  }

  /** One pass, row by row: an unexpired row is untouched; a selected one is either Removed with no container
      under its identity, or exactly as it was and selected by the next pass. */
  lemma ReapRowByRow(w: World, now: int, f: ReapCalls, id: string)
    requires id in w.rows
    ensures var n := AfterReap(w, now, f);
            && id in n.rows
            && (!Selected(w, id, now) ==> n.rows[id] == w.rows[id])
            && (Selected(w, id, now) ==>
                  || (n.rows[id] == w.rows[id].(state := Removed)
                      && forall c :: !Addresses(n, ContainerIdentity(id, w.rows[id]), c))
                  || (n.rows[id] == w.rows[id] && Selected(n, id, now)))
  {
  }

  /** Different rows never claim the same container. */
  ghost predicate DistinctClaims(w: World) {
    forall i, j :: i in w.rows && j in w.rows && i != j && w.rows[i].containerName != "" ==>
      w.rows[i].containerName != w.rows[j].containerName && w.rows[i].containerId != w.rows[j].containerId
  }

  /** With names drawn afresh, a pass removes no container of a row it did not select. */
  lemma ReapSparesUnexpired(w: World, now: int, f: ReapCalls, id: string, c: string)
    requires WellFormed(w) && DistinctClaims(w) && Names(w, id, c) && !Selected(w, id, now)
    ensures Names(AfterReap(w, now, f), id, c)
  {
    assert forall i :: i in w.rows ==> RowOk(i, w.rows[i]);
    assert !ClearedAway(w, now, f, c);
  }

  const NO_FAULTS := ReapCalls(map[], map[], map[])

  ghost predicate AllExpired(w: World, now: int) {
    forall id :: id in w.rows ==> w.rows[id].expiresAt.Some? && w.rows[id].expiresAt.value <= now
  }

  /** Convergence: a pass without failures leaves the expiry query empty, and when every row has expired it
      leaves only lost containers. */
  lemma FaultFreeReapConverges(w: World, now: int, lost: set<string>)
    requires WellFormed(w) && CoveredBut(w, lost)
    ensures var n := AfterReap(w, now, NO_FAULTS);
            && (forall id :: !Selected(n, id, now))
            && (AllExpired(w, now) ==> n.containers.Keys <= lost)
  {
    var n := AfterReap(w, now, NO_FAULTS);
    if AllExpired(w, now) {
      forall c | c in w.containers && c !in lost
        ensures c !in n.containers
      {
        var i :| Names(w, i, c);
        NamedIsAddressed(w, i, c, c);
        assert RowOk(i, w.rows[i]);
        assert Selected(w, i, now) && Clears(NO_FAULTS, i);
      }
    }
  }

  // ---------------------------------------------------------------- the clock and the states

  /** A row whose time has not come, or that has no time, is left exactly as it was by every pass. */
  lemma UnexpiredRowIsSpared(w: World, now: int, f: ReapCalls, id: string)
    requires id in w.rows && (w.rows[id].expiresAt.Some? ==> w.rows[id].expiresAt.value > now)
    ensures id in AfterReap(w, now, f).rows && AfterReap(w, now, f).rows[id] == w.rows[id]
  {
  }

  /** ... and keeps its container, when rows claim distinct containers. */
  lemma UnexpiredKeepsContainer(w: World, now: int, f: ReapCalls, id: string, c: string)
    requires WellFormed(w) && DistinctClaims(w) && Names(w, id, c)
    requires w.rows[id].expiresAt.Some? ==> w.rows[id].expiresAt.value > now
    ensures Names(AfterReap(w, now, f), id, c) && AfterReap(w, now, f).rows[id] == w.rows[id]
  {
    UnexpiredRowIsSpared(w, now, f, id);
    ReapSparesUnexpired(w, now, f, id, c);
  }

  /** A row in one of the three reaped states whose time has come is Removed, with nothing under its identity,
      when its own stop and remove succeed and its write takes effect, whatever becomes of other rows. */
  lemma ExpiredRowIsReaped(w: World, now: int, f: ReapCalls, id: string)
    requires id in w.rows && w.rows[id].state in {Creating, Running, Faulted}
    requires w.rows[id].expiresAt.Some? && w.rows[id].expiresAt.value <= now
    requires id !in f.stop && id !in f.remove && (id in f.update ==> !f.update[id].Refused?)
    ensures var n := AfterReap(w, now, f);
            && id in n.rows && n.rows[id] == w.rows[id].(state := Removed)
            && forall c :: !Addresses(n, ContainerIdentity(id, w.rows[id]), c)
  {
  }

  /** A row whose stop fails is left alone by the pass, its container too. */
  lemma FailedStopLeavesAlone(w: World, now: int, f: ReapCalls, id: string, c: string)
    requires WellFormed(w) && DistinctClaims(w) && Names(w, id, c)
    requires id in f.stop && !f.stop[id].Succeeds?
    ensures Names(AfterReap(w, now, f), id, c) && AfterReap(w, now, f).rows[id] == w.rows[id]
  {
    forall i | i in w.rows && Addresses(w, ContainerIdentity(i, w.rows[i]), c)
      ensures i == id
    {
      OnlyClaimant(w, i, id, c);
    }
    assert !Clears(f, id);
    assert !ClearedAway(w, now, f, c);
  }

  lemma OnlyClaimant(w: World, i: string, id: string, c: string)
    requires WellFormed(w) && DistinctClaims(w) && Names(w, id, c) && i in w.rows
    requires Addresses(w, ContainerIdentity(i, w.rows[i]), c)
    ensures i == id
  {
    assert RowOk(i, w.rows[i]) && RowOk(id, w.rows[id]);
  }

  /** A pass without failures removes exactly the Creating, Running and Faulted rows whose time has come, and
      exactly their containers. */
  lemma CleanPassIsExact(w: World, now: int, id: string)
    requires id in w.rows
    ensures var r, n := w.rows[id], AfterReap(w, now, NO_FAULTS);
            var due := r.state in {Creating, Running, Faulted} && r.expiresAt.Some? && r.expiresAt.value <= now;
            && id in n.rows && n.rows[id] == (if due then r.(state := Removed) else r)
            && forall c :: WellFormed(w) && DistinctClaims(w) && Names(w, id, c) ==> (c in n.containers <==> !due)
  {
    forall c | WellFormed(w) && DistinctClaims(w) && Names(w, id, c)
      ensures c in AfterReap(w, now, NO_FAULTS).containers <==>
              !(w.rows[id].state in {Creating, Running, Faulted} && w.rows[id].expiresAt.Some? && w.rows[id].expiresAt.value <= now)
    {
      if Selected(w, id, now) {
        NamedIsAddressed(w, id, c, c);
        assert Clears(NO_FAULTS, id);
      } else {
        ReapSparesUnexpired(w, now, NO_FAULTS, id, c);
      }
    }
  }

  // ---------------------------------------------------------------- over whole histories

  datatype Op =
    | Create(calls: CreateCalls)
    | Delete(id: string, remove: Call, update: Call)
    | Reap(now: int, reaped: ReapCalls)

  function Apply(w: World, op: Op): World {
    match op
    case Create(f) => AfterCreate(w, f)
    case Delete(id, remove, update) => AfterDelete(w, id, remove, update)
    case Reap(now, f) => AfterReap(w, now, f)
  }

  function History(ops: seq<Op>): World {
    if ops == [] then World(map[], map[]) else Apply(History(ops[..|ops| - 1]), ops[|ops| - 1])
  }

  /** Every create drew usable ids. */
  ghost predicate Drew(ops: seq<Op>) {
    ops == [] ||
    var w, op := History(ops[..|ops| - 1]), ops[|ops| - 1];
    Drew(ops[..|ops| - 1]) && (op.Create? ==> Drawn(w, op.calls))
  }

  /** The containers that the history's own creates orphaned. */
  function Lost(ops: seq<Op>): set<string> {
    if ops == [] then {}
    else
      var w, op := History(ops[..|ops| - 1]), ops[|ops| - 1];
      Lost(ops[..|ops| - 1]) + (if op.Create? then LostBy(w, op.calls) else {})
  }

  /** After every history, whatever calls failed: each live container is named by a row that is Creating,
      Running or Faulted with an expiry, unless its own create orphaned it. */
  lemma {:induction false} HistoryKeepsCoverage(ops: seq<Op>)
    requires Drew(ops)
    ensures WellFormed(History(ops)) && CoveredBut(History(ops), Lost(ops))
  {
    if ops != [] {
      HistoryKeepsCoverage(ops[..|ops| - 1]);
      var w, lost := History(ops[..|ops| - 1]), Lost(ops[..|ops| - 1]);
      hide WellFormed, CoveredBut, Drawn, LostBy;
      match ops[|ops| - 1]
      case Create(f) => CreateKeepsCoverage(w, f, lost);
      case Delete(id, remove, update) =>
        DeleteKeepsCoverage(w, id, remove, update, lost);
        assert Lost(ops) == lost;
      case Reap(now, f) =>
        ReapKeepsCoverage(w, now, f, lost);
        assert Lost(ops) == lost;
    }
  }

  lemma ExpiredRowsEnd(w: World, now: int)
    requires WellFormed(w) && AllExpired(w, now)
    ensures forall id :: id in AfterReap(w, now, NO_FAULTS).rows ==> AfterReap(w, now, NO_FAULTS).rows[id].state.Removed?
  {
    assert forall id :: id in w.rows ==> RowOk(id, w.rows[id]);
  }

  /** One clean pass after the last expiry leaves every row Removed and no container but the orphaned ones. */
  lemma NothingElseLeaks(ops: seq<Op>, now: int)
    requires Drew(ops) && AllExpired(History(ops), now)
    ensures var w := History(ops + [Reap(now, NO_FAULTS)]);
            w.containers.Keys <= Lost(ops) && forall id :: id in w.rows ==> w.rows[id].state.Removed?
  {
    HistoryKeepsCoverage(ops);
    assert (ops + [Reap(now, NO_FAULTS)])[..|ops|] == ops;
    FaultFreeReapConverges(History(ops), now, Lost(ops));
    ExpiredRowsEnd(History(ops), now);
    hide WellFormed, AfterReap, Drew, Lost, AllExpired, CoveredBut;
  }

  /** The create's name and Docker id are carried by no row, not even a removed one. */
  ghost predicate Unclaimed(w: World, f: CreateCalls) {
    forall id :: id in w.rows ==> w.rows[id].containerName != f.containerName && w.rows[id].containerId != f.containerId
  }

  /** A create writes its own row only, with both of its container's names or neither. */
  lemma OnlyItsRow(w: World, f: CreateCalls)
    requires Drawn(w, f)
    ensures var n := AfterCreate(w, f);
            && (forall id :: id in n.rows && id != f.rowId ==> id in w.rows && n.rows[id] == w.rows[id])
            && (f.rowId in w.rows ==> n == w)
            && (f.rowId in n.rows && f.rowId !in w.rows ==>
                  var r := n.rows[f.rowId];
                  || (r.containerName == "" && r.containerId == "")
                  || (r.containerName == f.containerName && r.containerId == f.containerId))
  {
    hide ContainerMade, ContainerStays;
  }

  lemma CreateKeepsClaims(w: World, f: CreateCalls)
    requires DistinctClaims(w) && WellFormed(w) && Drawn(w, f) && Unclaimed(w, f)
    ensures DistinctClaims(AfterCreate(w, f))
  {
    assert forall id :: id in w.rows ==> RowOk(id, w.rows[id]);
    assert f.containerId != "";
    OnlyItsRow(w, f);
    hide WellFormed, Drawn, AfterCreate;
  }

  /** A create that draws a fresh name and Docker id keeps claims distinct; the other operations always do. */
  lemma ClaimsStayDistinct(w: World, op: Op)
    requires DistinctClaims(w) && WellFormed(w)
    requires op.Create? ==> Drawn(w, op.calls) && Unclaimed(w, op.calls)
    ensures DistinctClaims(Apply(w, op))
  {
    hide WellFormed;
    if op.Create? {
      CreateKeepsClaims(w, op.calls);
    }
  }

  ghost predicate DrewFresh(ops: seq<Op>) {
    ops == [] ||
    var w, op := History(ops[..|ops| - 1]), ops[|ops| - 1];
    DrewFresh(ops[..|ops| - 1]) && (op.Create? ==> Unclaimed(w, op.calls))
  }

  /** Over whole histories: a reap pass takes no container away from a row it does not select. */
  lemma UnexpiredKeepTheirContainers(ops: seq<Op>, now: int, f: ReapCalls, id: string, c: string)
    requires Drew(ops) && DrewFresh(ops)
    requires Names(History(ops), id, c) && !Selected(History(ops), id, now)
    ensures Names(History(ops + [Reap(now, f)]), id, c)
  {
    HistoryKeepsCoverage(ops);
    HistoryKeepsClaims(ops);
    assert (ops + [Reap(now, f)])[..|ops|] == ops;
    ReapSparesUnexpired(History(ops), now, f, id, c);
  }

  /** ... in particular none from a row whose time has not come. */
  lemma UnexpiredSurviveHistories(ops: seq<Op>, now: int, f: ReapCalls, id: string, c: string)
    requires Drew(ops) && DrewFresh(ops) && Names(History(ops), id, c)
    requires History(ops).rows[id].expiresAt.Some? ==> History(ops).rows[id].expiresAt.value > now
    ensures var w := History(ops + [Reap(now, f)]); Names(w, id, c) && w.rows[id] == History(ops).rows[id]
  {
    HistoryKeepsCoverage(ops);
    HistoryKeepsClaims(ops);
    assert (ops + [Reap(now, f)])[..|ops|] == ops;
    hide WellFormed, DistinctClaims, CoveredBut, AfterReap, Drew, DrewFresh;
    UnexpiredKeepsContainer(History(ops), now, f, id, c);
  }

  lemma {:induction false} HistoryKeepsClaims(ops: seq<Op>)
    requires Drew(ops) && DrewFresh(ops)
    ensures DistinctClaims(History(ops))
  {
    if ops != [] {
      HistoryKeepsClaims(ops[..|ops| - 1]);
      HistoryKeepsCoverage(ops[..|ops| - 1]);
      hide WellFormed, CoveredBut, DistinctClaims, Unclaimed, Apply;
      ClaimsStayDistinct(History(ops[..|ops| - 1]), ops[|ops| - 1]);
    }
  }

  /** A live container that no row carries, by name or by id. */
  ghost predicate Stray(w: World, c: string) {
    c in w.containers &&
    forall id :: id in w.rows ==> w.rows[id].containerName != w.containers[c] && w.rows[id].containerId != c
  }

  lemma CreateKeepsStray(w: World, f: CreateCalls, c: string)
    requires Drawn(w, f) && WellFormed(w)
    requires Stray(w, c) || (Orphaned(w, f) && Unclaimed(w, f) && c == f.containerId)
    ensures Stray(AfterCreate(w, f), c)
  {
    assert c in w.containers ==> IsContainerName(w.containers[c]) && IsContainerId(c);
    assert ContainerMade(w, f) && c in w.containers ==> w.containers[c] != f.containerName;
  }

  lemma StrayIsNotAddressed(w: World, id: string, c: string)
    requires WellFormed(w) && Stray(w, c) && id in w.rows
    ensures !Addresses(w, ContainerIdentity(id, w.rows[id]), c)
  {
    assert RowOk(id, w.rows[id]);
  }

  lemma StepKeepsStray(w: World, op: Op, c: string)
    requires WellFormed(w) && Stray(w, c) && (op.Create? ==> Drawn(w, op.calls))
    ensures Stray(Apply(w, op), c)
  {
    if op.Create? {
      CreateKeepsStray(w, op.calls, c);
    } else {
      forall id | id in w.rows
        ensures !Addresses(w, ContainerIdentity(id, w.rows[id]), c)
      {
        StrayIsNotAddressed(w, id, c);
      }
      hide WellFormed, Addresses, ContainerIdentity, Expired;
    }
  }

  /** An orphaned container stays for ever: no delete and no reap ever addresses it. */
  lemma {:induction false} LostStay(ops: seq<Op>, c: string)
    requires Drew(ops) && DrewFresh(ops) && c in Lost(ops)
    ensures Stray(History(ops), c)
  {
    var init, op := ops[..|ops| - 1], ops[|ops| - 1];
    HistoryKeepsCoverage(init);
    hide WellFormed, CoveredBut, Stray, Apply, Drawn, Unclaimed;
    if c in Lost(init) {
      LostStay(init, c);
      StepKeepsStray(History(init), op, c);
    } else {
      CreateKeepsStray(History(init), op.calls, c);
      ApplyCreate(History(init), op);
    }
  }

  lemma ApplyCreate(w: World, op: Op)
    requires op.Create?
    ensures Apply(w, op) == AfterCreate(w, op.calls)
  {
  }

  /** With fresh names and ids, the leak is exact: one clean pass after the last expiry leaves the orphaned
      containers and nothing else, so nothing leaks if and only if no create orphaned its container. */
  lemma LeaksExactlyTheLost(ops: seq<Op>, now: int)
    requires Drew(ops) && DrewFresh(ops) && AllExpired(History(ops), now)
    ensures History(ops + [Reap(now, NO_FAULTS)]).containers.Keys == Lost(ops)
  {
    NothingElseLeaks(ops, now);
    HistoryKeepsCoverage(ops);
    assert (ops + [Reap(now, NO_FAULTS)])[..|ops|] == ops;
    hide WellFormed, CoveredBut, Lost, Drew, DrewFresh;
    forall c | c in Lost(ops)
      ensures c in History(ops + [Reap(now, NO_FAULTS)]).containers
    {
      LostStay(ops, c);
      StepKeepsStray(History(ops), Reap(now, NO_FAULTS), c);
    }
  }

  // ---------------------------------------------------------------- the services

  class SandboxService {
    var rows: map<string, SandboxRecord>
    var containers: map<string, string>

    function Now(): World
      reads this
    {
      World(rows, containers)
    }

    constructor ()
      ensures Now() == History([])
    {
      rows, containers := map[], map[];
    }

    /** `DockerSandboxProvisioner.CreateSandboxAsync`: create, start, and on a failed start remove again. */
    method ProvisionContainer(f: CreateCalls) returns (provisioned: bool)
      requires f.containerId !in containers
      modifies this`containers
      ensures provisioned <==> f.create.Succeeds? && !NameTaken(old(Now()), f.containerName) && f.start.Succeeds?
      ensures containers ==
              if TakesEffect(f.create) && !NameTaken(old(Now()), f.containerName)
                 && (f.create.Succeeds? && !f.start.Succeeds? ==> !TakesEffect(f.cleanup))
              then old(containers)[f.containerId := f.containerName] else old(containers)
    {
      if !TakesEffect(f.create) || NameTaken(Now(), f.containerName) {
        return false;
      }
      containers := containers[f.containerId := f.containerName];
      if !f.create.Succeeds? {
        return false;
      }
      if !f.start.Succeeds? {
        if TakesEffect(f.cleanup) {
          containers := containers - {f.containerId};
        }
        return false;
      }
      return true;
    }

    method UpdateRow(id: string, record: SandboxRecord, call: Call) returns (ok: bool)
      modifies this`rows
      ensures ok <==> call.Succeeds?
      ensures rows == if TakesEffect(call) then old(rows)[id := record] else old(rows)
    {
      if TakesEffect(call) {
        rows := rows[id := record];
      }
      return call.Succeeds?;
    }

    /** `SandboxManager.CreateSandboxAsync`. */
    method CreateSandbox(f: CreateCalls) returns (r: CreateResult)
      requires f.containerId !in containers
      modifies this
      ensures Now() == AfterCreate(old(Now()), f)
      ensures r.Created? <==> Started(old(Now()), f) && f.update.Succeeds?
      ensures r.InsertFailed? <==> !f.add.Succeeds? || f.rowId in old(rows)
      ensures !r.InsertFailed? ==> r.id == f.rowId
      ensures r.InsertFailed? ==> containers == old(containers) && (f.add.Refused? ==> rows == old(rows))
      ensures r.Created? ==>
                && rows == old(rows)[f.rowId := SandboxRecord(f.containerId, f.containerName, Running, Some(f.expiresAt), false)]
                && containers == old(containers)[f.containerId := f.containerName]
      ensures r.ProvisioningFailed? && !f.faultWrite.Refused? ==>
                && f.rowId in rows && rows[f.rowId].state == Faulted && rows[f.rowId].lastError
                && rows[f.rowId].expiresAt == Some(f.expiresAt)
      ensures forall id :: id in old(rows) ==> id in rows && rows[id] == old(rows)[id]
      ensures forall c :: c in old(containers) ==> c in containers && containers[c] == old(containers)[c]
    {
      var record := SandboxRecord("", "", Creating, Some(f.expiresAt), false);
      if f.rowId in rows {
        return InsertFailed;
      }
      var done := UpdateRow(f.rowId, record, f.add);
      if !done {
        return InsertFailed;
      }
      done := ProvisionContainer(f);
      if done {
        record := record.(containerId := f.containerId, containerName := f.containerName, state := Running);
        done := UpdateRow(f.rowId, record, f.update);
      }
      if !done {
        record := record.(state := Faulted, lastError := true);
        var _ := UpdateRow(f.rowId, record, f.faultWrite);
        return ProvisioningFailed(f.rowId);
      }
      return Created(f.rowId);
    }

    /** A `docker rm --force`; not-found is success. Unless it was refused nothing answers to the identity any
        more; no other container is touched in any case, and none at all by a refused call. */
    method RemoveContainer(identity: string, call: Call) returns (ok: bool)
      modifies this`containers
      ensures ok <==> call.Succeeds?
      ensures TakesEffect(call) ==> forall c :: !Addresses(Now(), identity, c)
      ensures forall c :: c in containers ==> c in old(containers) && containers[c] == old(containers)[c]
      ensures forall c :: c in old(containers) && !Addresses(old(Now()), identity, c) ==> c in containers
      ensures !TakesEffect(call) ==> containers == old(containers)
    {
      if TakesEffect(call) {
        containers := Without(Now(), identity);
      }
      return call.Succeeds?;
    }

    /** `SandboxManager.DeleteAsync`: `None` stands for the thrown failure. */
    method DeleteSandbox(id: string, remove: Call, update: Call) returns (r: Option<bool>)
      modifies this
      ensures Now() == AfterDelete(old(Now()), id, remove, update)
      ensures r == if id !in old(rows) then Some(false)
                   else if remove.Succeeds? && update.Succeeds? then Some(true) else None
      ensures r == Some(true) ==>
                && rows == old(rows)[id := old(rows)[id].(state := Removed)]
                && forall c :: !Addresses(Now(), ContainerIdentity(id, old(rows)[id]), c)
      ensures remove.Refused? ==> Now() == old(Now())
      ensures !remove.Succeeds? ==> rows == old(rows)
      ensures forall i :: i in old(rows) && i != id ==> i in rows && rows[i] == old(rows)[i]
      ensures forall c :: c in old(containers) && (id in old(rows) ==> !Addresses(old(Now()), ContainerIdentity(id, old(rows)[id]), c)) ==>
                c in containers && containers[c] == old(containers)[c]
    {
      if id !in rows {
        return Some(false);
      }
      var record := rows[id];
      ghost var w := Now();
      var ok := RemoveContainer(ContainerIdentity(id, record), remove);
      assert Now() == World(w.rows, containers);
      RemovalIsWithout(w, containers, ContainerIdentity(id, record), remove);
      if !ok {
        return None;
      }
      ok := UpdateRow(id, record.(state := Removed), update);
      return if ok then Some(true) else None;
    }

    /** The guarded body of the reap loop: the first failing call abandons the row until the next tick. */
    method ReapRow(id: string, record: SandboxRecord, f: ReapCalls)
      modifies this
      ensures rows == if Marks(f, id) then old(rows)[id := record.(state := Removed)] else old(rows)
      ensures containers == if Clears(f, id) then Without(old(Now()), ContainerIdentity(id, record)) else old(containers)
    {
      var identity := ContainerIdentity(id, record);
      if !CallFor(f.stop, id).Succeeds? {
        return;
      }
      ghost var w := Now();
      var ok := RemoveContainer(identity, CallFor(f.remove, id));
      assert Now() == World(w.rows, containers);
      RemovalIsWithout(w, containers, identity, CallFor(f.remove, id));
      if ok {
        ok := UpdateRow(id, record.(state := Removed), CallFor(f.update, id));
      }
    }

    /** `SandboxReaper.ReapOnceAsync`: `order` is the order in which the query returned the expired rows. */
    method ReapOnce(order: seq<string>, now: int, f: ReapCalls)
      requires NoDup(order) && forall id :: id in order <==> Selected(Now(), id, now)
      modifies this
      ensures Now() == AfterReap(old(Now()), now, f)
    {
      hide ClearedBy, Addresses, Marks, Clears, ContainerIdentity, Expired, PartlyReaped, AfterReap, Without;
      ghost var w := Now();
      var expired := map id | id in order :: rows[id];
      NothingReaped(w, now, f);
      for k := 0 to |order|
        invariant Now() == PartlyReaped(w, now, f, order[..k])
      {
        var id := order[k];
        assert order[..k + 1] == order[..k] + [id];
        PartlyReapedStep(w, now, f, order[..k], id);
        ReapRow(id, expired[id], f);
      }
      assert order[..|order|] == order;
      AllReaped(w, now, f, order);
    }
  }

  /** What a removal promises pins down the containers it leaves. */
  lemma RemovalIsWithout(w: World, left: map<string, string>, identity: string, call: Call)
    requires !TakesEffect(call) ==> left == w.containers
    requires TakesEffect(call) ==> forall c :: !Addresses(World(w.rows, left), identity, c)
    requires forall c :: c in left ==> c in w.containers && left[c] == w.containers[c]
    requires forall c :: c in w.containers && !Addresses(w, identity, c) ==> c in left
    ensures left == if TakesEffect(call) then Without(w, identity) else w.containers
  {
    if TakesEffect(call) {
      forall c | c in left
        ensures c in Without(w, identity)
      {
        assert !Addresses(World(w.rows, left), identity, c);
      }
    }
  }

  /** The world after a pass has handled the rows in `done`. */
  ghost function PartlyReaped(w: World, now: int, f: ReapCalls, done: seq<string>): World {
    World(
      map id | id in w.rows ::
        if id in done && Selected(w, id, now) && Marks(f, id) then w.rows[id].(state := Removed) else w.rows[id],
      map c | c in w.containers && !ClearedBy(w, now, f, done, c) :: w.containers[c])
  }

  ghost predicate ClearedBy(w: World, now: int, f: ReapCalls, done: seq<string>, c: string) {
    exists id :: id in done && Selected(w, id, now) && Clears(f, id) && Addresses(w, ContainerIdentity(id, w.rows[id]), c)
  }

  lemma NothingReaped(w: World, now: int, f: ReapCalls)
    ensures PartlyReaped(w, now, f, []) == w
  {
    assert PartlyReaped(w, now, f, []).rows == w.rows;
    assert PartlyReaped(w, now, f, []).containers == w.containers;
  }

  lemma AllReaped(w: World, now: int, f: ReapCalls, order: seq<string>)
    requires forall id :: id in order <==> Selected(w, id, now)
    ensures PartlyReaped(w, now, f, order) == AfterReap(w, now, f)
  {
    assert forall c :: ClearedBy(w, now, f, order, c) <==> ClearedAway(w, now, f, c);
  }

  /** What handling one more row does to the world. */
  lemma PartlyReapedStep(w: World, now: int, f: ReapCalls, done: seq<string>, id: string)
    requires Selected(w, id, now) && id !in done
    ensures var p, n := PartlyReaped(w, now, f, done), PartlyReaped(w, now, f, done + [id]);
            && id in p.rows && p.rows[id] == w.rows[id]
            && n.rows == (if Marks(f, id)
                          then p.rows[id := w.rows[id].(state := Removed)] else p.rows)
            && n.containers == (if Clears(f, id) then Without(p, ContainerIdentity(id, w.rows[id]))
                                else p.containers)
  {
    hide ContainerIdentity, Expired, Clears, Marks;
    assert forall i :: i in done + [id] <==> i in done || i == id;
    assert forall c :: ClearedBy(w, now, f, done + [id], c) <==>
        ClearedBy(w, now, f, done, c) || (Clears(f, id) && Addresses(w, ContainerIdentity(id, w.rows[id]), c));
  }
}
