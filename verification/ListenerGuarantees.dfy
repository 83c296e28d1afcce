/**
 What every run of listener, range, device and engine transactions keeps, what allocation finds,
 and that reconciliation depends neither on the order of the rows nor on what was bound before.
 */
module ListenerGuarantees {
  import opened Basics
  import opened Listeners

  // -------------------------------------------------------------- invariant

  ghost predicate PortsDistinct(db: Db) {
    forall a, b :: a in db.listeners && b in db.listeners && a != b ==> db.listeners[a].port != db.listeners[b].port
  }

  ghost predicate RowsOk(db: Db) {
    forall id :: id in db.listeners ==>
      && db.start <= db.listeners[id].port <= db.end
      && (db.listeners[id].status == Active ==> db.listeners[id].enabled)
      && db.listeners[id].device in db.devices && db.listeners[id].version >= 1 && id in db.issued
  }

  ghost predicate EventsOk(db: Db) {
    forall e :: e in db.events ==> e.0 in db.listeners && e.1 in db.devices
  }

  ghost predicate Inv(db: Db) {
    RangeAllowed(db.start, db.end) && PortsDistinct(db) && RowsOk(db) && EventsOk(db)
  }

  /** The invariant says all the database checks, and more. */
  lemma InvMeetsConstraints(db: Db)
    requires Inv(db)
    ensures Constraints(db)
  {
  }

  /** A row on a port that passed validation keeps the invariant, constraints included. */
  lemma PutRowKeepsInv(db: Db, id: Id, row: Listener)
    requires Inv(db) && ValidatePort(db, row.port, {id}).None?
    requires row.device in db.devices && row.version >= 1 && row.status == Inactive
    ensures Inv(db.(listeners := db.listeners[id := row], issued := db.issued + {id}))
  {
  }

  lemma StatusKeepsInv(db: Db, after: Db)
    requires Inv(db)
    requires after.listeners.Keys == db.listeners.Keys
    requires after == db.(listeners := after.listeners, desiredActive := after.desiredActive, observed := after.observed)
    requires forall id :: id in db.listeners ==>
      after.listeners[id] == db.listeners[id].(status := after.listeners[id].status)
      && (after.listeners[id].status == Active ==> db.listeners[id].enabled)
    ensures Inv(after)
  {
  }

  lemma ExcludingNobody(db: Db, port: int, id: Id)
    requires ValidatePort(db, port, {}).None?
    ensures ValidatePort(db, port, {id}).None?
  {
  }

  /** The working copy of a creation that raises nothing satisfies the invariant, so it can be committed. */
  lemma CreateWorkIsSound(db: Db, id: Id, input: Input, requested: Option<int>, scan: set<int>, probe: set<int>)
    requires Inv(db) && CreateWork(db, id, input, requested, scan, probe).error.None?
    ensures Inv(CreateWork(db, id, input, requested, scan, probe).db)
  {
    var port := if requested.Some? then requested else FirstFree(db.start, db.end, Used(db), scan);
    ExcludingNobody(db, port.value, id);
    PutRowKeepsInv(db, id, Row(input, port.value, 1));
  }

  lemma UpdateWorkIsSound(db: Db, id: Id, version: nat, input: Input, port: int, probe: set<int>)
    requires Inv(db) && UpdateWork(db, id, version, input, port, probe).error.None?
    ensures Inv(UpdateWork(db, id, version, input, port, probe).db)
  {
    PutRowKeepsInv(db, id, Row(input, port, version + 1));
    assert db.issued + {id} == db.issued;
  }

  /** Serialised, a creation or update never fails at its commit: whatever could, was refused before. */
  lemma CommitNeverViolates(db: Db, id: Id, version: nat, input: Input, requested: Option<int>, port: int,
                            scan: set<int>, probe: set<int>)
    requires Inv(db)
    ensures var work := CreateWork(db, id, input, requested, scan, probe);
      work.error.None? ==> Create(db, id, input, requested, scan, probe) == (work.db, Accepted)
    ensures var work := UpdateWork(db, id, version, input, port, probe);
      work.error.None? ==> Update(db, id, version, input, port, probe) == (work.db, Accepted)
  {
    if CreateWork(db, id, input, requested, scan, probe).error.None? {
      CreateWorkIsSound(db, id, input, requested, scan, probe);
      InvMeetsConstraints(CreateWork(db, id, input, requested, scan, probe).db);
    }
    if UpdateWork(db, id, version, input, port, probe).error.None? {
      UpdateWorkIsSound(db, id, version, input, port, probe);
      InvMeetsConstraints(UpdateWork(db, id, version, input, port, probe).db);
    }
  }

  lemma CreateKeepsInv(db: Db, id: Id, input: Input, requested: Option<int>, scan: set<int>, probe: set<int>)
    requires Inv(db)
    ensures Inv(Create(db, id, input, requested, scan, probe).0)
  {
    if CreateWork(db, id, input, requested, scan, probe).error.None? {
      CreateWorkIsSound(db, id, input, requested, scan, probe);
    }
  }

  lemma UpdateKeepsInv(db: Db, id: Id, version: nat, input: Input, port: int, probe: set<int>)
    requires Inv(db)
    ensures Inv(Update(db, id, version, input, port, probe).0)
  {
    if UpdateWork(db, id, version, input, port, probe).error.None? {
      UpdateWorkIsSound(db, id, version, input, port, probe);
    }
  }

  lemma DeleteKeepsInv(db: Db, id: Id)
    requires Inv(db)
    ensures Inv(Delete(db, id).0)
  {
  }

  lemma UpdateRangeKeepsInv(db: Db, start: int, end: int)
    requires Inv(db)
    ensures Inv(UpdateRange(db, start, end).0)
  {
  }

  lemma DevicesKeepInv(db: Db, id: Id, device: Device)
    requires Inv(db)
    ensures Inv(PutDevice(db, id, device).0) && Inv(DeleteDevice(db, id).0)
  {
  }

  lemma EventsKeepInv(db: Db, listener: Id, device: Id, kept: set<(Id, Id)>)
    requires Inv(db)
    ensures Inv(RecordWake(db, listener, device).0) && Inv(db.(events := db.events * kept))
  {
  }

  lemma StepKeepsInv(db: Db, op: Op)
    requires Inv(db) && Possible(db, op)
    ensures Inv(Step(db, op).0)
  {
    match op
    case Creating(id, input, requested, scan, probe) => CreateKeepsInv(db, id, input, requested, scan, probe);
    case Updating(id, version, input, port, probe) => UpdateKeepsInv(db, id, version, input, port, probe);
    case Deleting(id) => DeleteKeepsInv(db, id);
    case SettingRange(start, end) => UpdateRangeKeepsInv(db, start, end);
    case PuttingDevice(id, device) => DevicesKeepInv(db, id, device);
    case DeletingDevice(id) => DevicesKeepInv(db, id, Device(false, Missing));
    case RecordingWake(id, device) => EventsKeepInv(db, id, device, {});
    case Purging(kept) => EventsKeepInv(db, 0, 0, kept);
    case Resuming(rows, world) => ResumeKeepsInv(db, rows, world);
    case Pausing => StatusKeepsInv(db, Pause(db).db);
  }

  /**
   For every run: ports are pairwise distinct and inside the active range, the range is inside
   1024..65535 and at most 100 wide, an active row is enabled, and references resolve.
   */
  lemma {:induction false} RunKeepsInv(db: Db, ops: seq<Op>)
    requires Inv(db) && PossibleRun(db, ops)
    ensures Inv(Run(db, ops))
    decreases |ops|
  {
    if ops != [] {
      StepKeepsInv(db, ops[0]);
      RunKeepsInv(Step(db, ops[0]).0, ops[1..]);
    }
  }

  /** The tables the migrations leave: ports 40000 to 40099, no device, engine not yet started. */
  function FreshTables(publishedStart: int, publishedEnd: int): Db {
    Db(map[], map[], 40000, 40099, publishedStart, publishedEnd, {}, {}, false, Starting)
  }

  /** Every state reached from them. */
  lemma ReachableTablesAreOk(publishedStart: int, publishedEnd: int, ops: seq<Op>)
    requires PossibleRun(FreshTables(publishedStart, publishedEnd), ops)
    ensures Inv(Run(FreshTables(publishedStart, publishedEnd), ops))
    ensures Constraints(Run(FreshTables(publishedStart, publishedEnd), ops))
  {
    RunKeepsInv(FreshTables(publishedStart, publishedEnd), ops);
    InvMeetsConstraints(Run(FreshTables(publishedStart, publishedEnd), ops));
  }

  /**
   An update raises with a changed row in its working copy exactly when only the name is wrong:
   the discarded session is what keeps that change out of the tables.
   */
  lemma RaisesAfterChangeIff(db: Db, id: Id, version: nat, input: Input, port: int, probe: set<int>)
    requires UpdateWork(db, id, version, input, port, probe).error.Some?
    ensures UpdateWork(db, id, version, input, port, probe).db != db
       <==> CheckUpdate(db, id, version, input, port, probe).None? && input.name == ""
  {
    if CheckUpdate(db, id, version, input, port, probe).None? {
      assert UpdateWork(db, id, version, input, port, probe).db.listeners[id].version != db.listeners[id].version;
    }
  }

  /** Whatever is refused, by a raise before or after changes or by a constraint at commit, changes nothing. */
  lemma RefusedChangesNothing(db: Db, op: Op)
    requires Possible(db, op) && Step(db, op).1.Refused?
    ensures Step(db, op).0 == db
  {
  }

  /** The operations of a run that were not refused. */
  ghost function Taken(db: Db, ops: seq<Op>): seq<Op>
    requires PossibleRun(db, ops)
    decreases |ops|
  {
    if ops == [] then []
    else
      var (next, reply) := Step(db, ops[0]);
      (if reply.Accepted? then [ops[0]] else []) + Taken(next, ops[1..])
  }

  /** Over every run: the tables are those that the operations not refused lead to by themselves. */
  lemma {:induction false} RefusedLeaveNoTrace(db: Db, ops: seq<Op>)
    requires PossibleRun(db, ops)
    ensures PossibleRun(db, Taken(db, ops)) && Run(db, Taken(db, ops)) == Run(db, ops)
    decreases |ops|
  {
    if ops != [] {
      var (next, reply) := Step(db, ops[0]);
      RefusedLeaveNoTrace(next, ops[1..]);
      if reply.Refused? {
        RefusedChangesNothing(db, ops[0]);
        assert Taken(db, ops) == Taken(next, ops[1..]);
      } else {
        RunCons(db, ops[0], Taken(next, ops[1..]));
      }
    }
  }

  // ---------------------------------------------------------------- capacity

  function Range(start: int, end: int): (ports: set<int>)
    ensures forall p :: p in ports <==> start <= p <= end
    decreases end - start
  {
    if start > end then {} else {start} + Range(start + 1, end)
  }

  lemma {:induction false} RangeSize(start: int, end: int)
    requires start <= end + 1
    ensures |Range(start, end)| == end - start + 1
    decreases end - start
  {
    if start <= end {
      RangeSize(start + 1, end);
    }
  }

  lemma {:induction false} AsManyPorts(db: Db, ids: set<Id>)
    requires PortsDistinct(db) && ids <= db.listeners.Keys
    ensures |set id | id in ids :: db.listeners[id].port| == |ids|
  {
    var ports := set id | id in ids :: db.listeners[id].port;
    if ids == {} {
      assert ports == {};
    } else {
      var id :| id in ids;
      var rest := set other | other in ids - {id} :: db.listeners[other].port;
      AsManyPorts(db, ids - {id});
      assert ports == rest + {db.listeners[id].port};
      assert db.listeners[id].port !in rest;
    }
  }

  lemma UsedIsSmall(db: Db)
    requires Inv(db)
    ensures |Used(db)| == |db.listeners| && Used(db) <= Range(db.start, db.end)
  {
    AsManyPorts(db, db.listeners.Keys);
    assert Used(db) == set id | id in db.listeners.Keys :: db.listeners[id].port;
  }

  lemma {:induction false} SubsetSize<T>(a: set<T>, b: set<T>)
    requires a <= b
    ensures |a| <= |b|
    ensures |a| == |b| ==> a == b
  {
    assert b == a + (b - a);
    assert |b| == |a| + |b - a|;
  }

  /** The ports in use never exceed the capacity the settings report. */
  lemma WithinCapacity(db: Db)
    requires Inv(db)
    ensures |db.listeners| <= db.end - db.start + 1 <= 100
  {
    UsedIsSmall(db);
    RangeSize(db.start, db.end);
    SubsetSize(Used(db), Range(db.start, db.end));
  }

  // -------------------------------------------------------------- allocation

  /** The search returns the least free port, and nothing exactly when there is none. */
  lemma {:induction false} FirstFreeIsLeast(port: int, end: int, used: set<int>, busy: set<int>)
    ensures match FirstFree(port, end, used, busy)
      case Some(p) =>
        && port <= p <= end && p !in used && p !in busy
        && (forall q :: port <= q < p ==> q in used || q in busy)
      case None => forall q :: port <= q <= end ==> q in used || q in busy
    decreases end - port
  {
    if port <= end && (port in used || port in busy) {
      FirstFreeIsLeast(port + 1, end, used, busy);
    }
  }

  /** An allocated port always passes the validation that follows. */
  lemma AllocatedPortValidates(db: Db, busy: set<int>)
    requires FirstFree(db.start, db.end, Used(db), busy).Some?
    ensures ValidatePort(db, FirstFree(db.start, db.end, Used(db), busy).value, {}).None?
  {
    FirstFreeIsLeast(db.start, db.end, Used(db), busy);
    var port := FirstFree(db.start, db.end, Used(db), busy).value;
    assert forall id :: id in db.listeners ==> db.listeners[id].port in Used(db);
  }

  /** Pigeonhole: fewer used ports than ports leave one unused. */
  lemma SomePortUnused(used: set<int>, start: int, end: int) returns (port: int)
    requires start <= end + 1 && used <= Range(start, end) && |used| < end - start + 1
    ensures start <= port <= end && port !in used
  {
    RangeSize(start, end);
    var free := Range(start, end) - used;
    assert Range(start, end) == used + free;
    assert |Range(start, end)| == |used| + |free|;
    port :| port in free;
  }

  /** By pigeonhole allocation succeeds while listeners are fewer than ports and none is busy. */
  lemma AllocationSucceeds(db: Db, busy: set<int>)
    requires Inv(db) && |db.listeners| < db.end - db.start + 1
    requires forall p :: db.start <= p <= db.end ==> p !in busy
    ensures FirstFree(db.start, db.end, Used(db), busy).Some?
  {
    UsedIsSmall(db);
    var port := SomePortUnused(Used(db), db.start, db.end);
    FirstFreeIsLeast(db.start, db.end, Used(db), busy);
  }

  /**
   Automatic creation of an otherwise acceptable listener: it takes the least free port and is
   refused exactly when there is none or that port became busy after the scan.
   */
  lemma AutoCreate(db: Db, id: Id, input: Input, scan: set<int>, probe: set<int>)
    requires Inv(db) && input.source.Some? && CheckInput(db, input).None? && input.name != ""
    ensures var (after, reply) := Create(db, id, input, None, scan, probe);
      var free := FirstFree(db.start, db.end, Used(db), scan);
      && (reply.Accepted? <==> free.Some? && free.value !in probe)
      && (reply.Refused? ==> reply.error == Conflict)
      && (reply.Accepted? ==> after.listeners == db.listeners[id := Row(input, free.value, 1)])
  {
    if FirstFree(db.start, db.end, Used(db), scan).Some? {
      AllocatedPortValidates(db, scan);
    }
    CommitNeverViolates(db, id, 0, input, None, 0, scan, probe);
  }

  // ---------------------------------------------------------------- versions

  /** The successful updates of `id` in a run. */
  ghost function Updates(db: Db, ops: seq<Op>, id: Id): nat
    requires PossibleRun(db, ops)
    decreases |ops|
  {
    if ops == [] then 0
    else (if ops[0].Updating? && ops[0].id == id && Step(db, ops[0]).1.Accepted? then 1 else 0)
         + Updates(Step(db, ops[0]).0, ops[1..], id)
  }

  /** How one step may move the version of a row: by one on its own successful update, else not at all. */
  ghost predicate VersionMoves(db: Db, after: Db, op: Op, reply: Reply, id: Id) {
    id in after.listeners ==>
      if id in db.listeners then
        after.listeners[id].version
        == db.listeners[id].version + if op.Updating? && op.id == id && reply.Accepted? then 1 else 0
      else op.Creating? && op.id == id && id !in db.issued && after.listeners[id].version == 1
  }

  lemma CreateVersion(db: Db, op: Op, id: Id)
    requires RowsOk(db) && op.Creating? && Possible(db, op)
    ensures VersionMoves(db, Step(db, op).0, op, Step(db, op).1, id)
  {
  }

  lemma UpdateVersion(db: Db, op: Op, id: Id)
    requires op.Updating? && Possible(db, op)
    ensures VersionMoves(db, Step(db, op).0, op, Step(db, op).1, id)
  {
  }

  lemma VersionStep(db: Db, op: Op, id: Id)
    requires Inv(db) && Possible(db, op)
    ensures VersionMoves(db, Step(db, op).0, op, Step(db, op).1, id)
  {
    match op
    case Creating(_, _, _, _, _) => CreateVersion(db, op, id);
    case Updating(_, _, _, _, _) => UpdateVersion(db, op, id);
    case Resuming(rows, world) => ResumeKeepsRows(db, rows, world);
    case Deleting(_) =>
    case SettingRange(_, _) =>
    case PuttingDevice(_, _) =>
    case DeletingDevice(_) =>
    case RecordingWake(_, _) =>
    case Purging(_) =>
    case Pausing =>
  }

  lemma StepKeepsIssued(db: Db, op: Op)
    requires Possible(db, op)
    ensures db.issued <= Step(db, op).0.issued
  {
    match op
    case Resuming(rows, world) => ResumeKeepsRows(db, rows, world);
    case _ =>
  }

  /** A deleted row never comes back, since ids are not drawn twice. */
  lemma {:induction false} GoneForGood(db: Db, ops: seq<Op>, id: Id)
    requires Inv(db) && PossibleRun(db, ops) && id in db.issued && id !in db.listeners
    ensures id !in Run(db, ops).listeners
    decreases |ops|
  {
    if ops != [] {
      var next := Step(db, ops[0]).0;
      StepKeepsInv(db, ops[0]);
      StepKeepsIssued(db, ops[0]);
      if id in next.listeners {
        VersionStep(db, ops[0], id);
      }
      GoneForGood(next, ops[1..], id);
    }
  }

  /** A listener's version is 1 plus the number of its successful updates, over every run. */
  lemma {:induction false} VersionCountsUpdates(db: Db, ops: seq<Op>, id: Id)
    requires Inv(db) && PossibleRun(db, ops) && id in Run(db, ops).listeners
    ensures Run(db, ops).listeners[id].version
         == (if id in db.listeners then db.listeners[id].version else 1) + Updates(db, ops, id)
    decreases |ops|
  {
    if ops != [] {
      var next := Step(db, ops[0]).0;
      StepKeepsInv(db, ops[0]);
      StepKeepsIssued(db, ops[0]);
      VersionCountsUpdates(next, ops[1..], id);
      if id in next.listeners {
        VersionStep(db, ops[0], id);
      } else if id in next.issued {
        GoneForGood(next, ops[1..], id);
      }
    }
  }

  /** Of the updates sent with one version at most one takes effect. */
  lemma OneUpdatePerVersion(db: Db, op: Op, ops: seq<Op>, again: Op)
    requires Inv(db) && Possible(db, op) && op.Updating? && Step(db, op).1.Accepted?
    requires PossibleRun(Step(db, op).0, ops)
    requires again.Updating? && again.id == op.id && again.version == op.version
    ensures Step(Run(Step(db, op).0, ops), again).1.Refused?
  {
    var after := Step(db, op).0;
    StepKeepsInv(db, op);
    if op.id in Run(after, ops).listeners {
      VersionCountsUpdates(after, ops, op.id);
    }
  }

  // ------------------------------------------------------------ the engine walk

  /** What a selected row ends up as, said without the order in which rows are bound. */
  function OutcomeOf(db: Db, id: Id, world: World): Status
    requires id in db.listeners
  {
    match Prepare(db, id, world)
    case Uncaught => db.listeners[id].status
    case Unusable(reason) => Failing(reason)
    case Ready => if db.listeners[id].port in world.held then Failing("port_bind_failed") else Active
  }

  ghost predicate Binds(db: Db, id: Id, world: World)
    requires id in db.listeners
  {
    Prepare(db, id, world).Ready? && db.listeners[id].port !in world.held
  }

  /** Only statuses of rows differ. */
  ghost predicate StatusOnly(a: Db, b: Db) {
    && b == a.(listeners := b.listeners) && b.listeners.Keys == a.listeners.Keys
    && (forall id :: id in a.listeners ==> b.listeners[id] == a.listeners[id].(status := b.listeners[id].status))
  }

  /** The rows `done` have got their outcomes, the others keep their status. */
  ghost predicate StatusesWalked(db: Db, now: Db, done: seq<Id>, world: World) {
    && StatusOnly(db, now)
    && (forall id :: id in db.listeners ==>
          now.listeners[id].status == if id in done then OutcomeOf(db, id, world) else db.listeners[id].status)
  }

  /** The sockets are those of the rows `done` that bind. */
  ghost predicate SocketsWalked(db: Db, bound: map<Id, int>, done: seq<Id>, world: World) {
    && (forall id :: id in bound <==> id in done && id in db.listeners && Binds(db, id, world))
    && (forall id :: id in bound ==> bound[id] == db.listeners[id].port)
  }

  /** The engine has dealt with exactly the rows `done`. */
  ghost predicate Walked(db: Db, e: Engine, done: seq<Id>, world: World) {
    && StatusesWalked(db, e.db, done, world) && SocketsWalked(db, e.bound, done, world)
    && e.failures + |e.bound| == |done|
  }

  lemma BoundPortIsFree(db: Db, bound: map<Id, int>, done: seq<Id>, id: Id, world: World)
    requires SocketsWalked(db, bound, done, world) && PortsDistinct(db) && id in db.listeners && id !in done
    ensures db.listeners[id].port !in bound.Values
  {
    forall other | other in bound ensures bound[other] != db.listeners[id].port {
      assert other != id;
    }
  }

  lemma PrepareIgnoresStatus(a: Db, b: Db, id: Id, world: World)
    requires StatusOnly(a, b) && id in a.listeners
    ensures Prepare(a, id, world) == Prepare(b, id, world)
  {
  }

  /** A row not yet dealt with is bound or not as its own outcome says: earlier rows do not matter. */
  lemma BindRowIsLocal(db: Db, e: Engine, done: seq<Id>, id: Id, world: World)
    requires Walked(db, e, done, world) && PortsDistinct(db)
    requires id in db.listeners && id !in done && !Prepare(db, id, world).Uncaught?
    ensures BindRow(e, id, world)
         == if Binds(db, id, world)
            then e.(db := SetStatus(e.db, id, OutcomeOf(db, id, world)), bound := e.bound[id := db.listeners[id].port])
            else e.(db := SetStatus(e.db, id, OutcomeOf(db, id, world)), failures := e.failures + 1)
  {
    BoundPortIsFree(db, e.bound, done, id, world);
    PrepareIgnoresStatus(db, e.db, id, world);
  }

  lemma StatusStep(db: Db, now: Db, done: seq<Id>, id: Id, world: World)
    requires StatusesWalked(db, now, done, world) && id in db.listeners
    ensures StatusesWalked(db, SetStatus(now, id, OutcomeOf(db, id, world)), done + [id], world)
  {
    assert forall other :: other in done + [id] <==> other in done || other == id;
  }

  lemma SocketStep(db: Db, bound: map<Id, int>, done: seq<Id>, id: Id, world: World)
    requires SocketsWalked(db, bound, done, world) && id in db.listeners
    ensures SocketsWalked(db, if Binds(db, id, world) then bound[id := db.listeners[id].port] else bound, done + [id], world)
  {
    assert forall other :: other in done + [id] <==> other in done || other == id;
  }

  lemma WalkStep(db: Db, e: Engine, done: seq<Id>, id: Id, world: World)
    requires Walked(db, e, done, world) && PortsDistinct(db)
    requires id in db.listeners && id !in done && !Prepare(db, id, world).Uncaught?
    ensures Walked(db, BindRow(e, id, world), done + [id], world)
    ensures BindRow(e, id, world).raised == e.raised
  {
    BindRowIsLocal(db, e, done, id, world);
    StatusStep(db, e.db, done, id, world);
    SocketStep(db, e.bound, done, id, world);
    assert id !in e.bound;
  }

  /** The walk has dealt with the first k rows and raised at the next, if any, for an uncaught error. */
  ghost predicate WalkedUpTo(db: Db, e: Engine, rows: seq<Id>, world: World, k: nat) {
    && k <= |rows| && Walked(db, e, rows[..k], world)
    && (e.raised <==> k < |rows|)
    && (k < |rows| ==> rows[k] in db.listeners && Prepare(db, rows[k], world).Uncaught?)
    && (forall i :: 0 <= i < k ==> rows[i] in db.listeners && !Prepare(db, rows[i], world).Uncaught?)
  }

  lemma {:induction false} RowsAreWalked(db: Db, rows: seq<Id>, world: World) returns (k: nat)
    requires PortsDistinct(db)
    requires forall id :: id in rows ==> id in db.listeners
    requires forall i, j :: 0 <= i < j < |rows| ==> rows[i] != rows[j]
    ensures WalkedUpTo(db, BindRows(Engine(db, map[], 0, false), rows, world), rows, world, k)
  {
    if rows == [] {
      k := 0;
    } else {
      var n := |rows| - 1;
      var front := rows[..n];
      k := RowsAreWalked(db, front, world);
      k := WalkOneMore(db, BindRows(Engine(db, map[], 0, false), front, world), rows, world, k);
    }
  }

  lemma WalkOneMore(db: Db, e: Engine, rows: seq<Id>, world: World, k: nat) returns (k': nat)
    requires rows != [] && PortsDistinct(db) && e.db.listeners.Keys == db.listeners.Keys
    requires forall id :: id in rows ==> id in db.listeners
    requires forall i, j :: 0 <= i < j < |rows| ==> rows[i] != rows[j]
    requires WalkedUpTo(db, e, rows[..|rows| - 1], world, k)
    ensures WalkedUpTo(db, if e.raised then e else BindRow(e, rows[|rows| - 1], world), rows, world, k')
  {
    var n := |rows| - 1;
    var front, id := rows[..n], rows[n];
    assert rows == front + [id];
    if e.raised {
      k' := k;
      RaisedStays(db, e, front, id, world, k);
    } else {
      assert k == n && front[..n] == front && id !in front && AllCaughtIn(db, front, world);
      if Prepare(db, id, world).Uncaught? {
        k' := n;
        WalkLastUncaught(db, e, front, id, world);
      } else {
        k' := n + 1;
        WalkLastCaught(db, e, front, id, world);
      }
    }
  }

  lemma RaisedStays(db: Db, e: Engine, front: seq<Id>, id: Id, world: World, k: nat)
    requires e.raised && WalkedUpTo(db, e, front, world, k)
    ensures WalkedUpTo(db, e, front + [id], world, k)
  {
    assert (front + [id])[..k] == front[..k];
  }

  ghost predicate AllCaughtIn(db: Db, rows: seq<Id>, world: World) {
    forall i :: 0 <= i < |rows| ==> rows[i] in db.listeners && !Prepare(db, rows[i], world).Uncaught?
  }

  lemma WalkLastUncaught(db: Db, e: Engine, front: seq<Id>, id: Id, world: World)
    requires Walked(db, e, front, world) && AllCaughtIn(db, front, world)
    requires id in db.listeners && Prepare(db, id, world).Uncaught?
    ensures WalkedUpTo(db, BindRow(e, id, world), front + [id], world, |front|)
  {
    UncaughtRaises(db, e, front, id, world);
    StoppedAtLast(db, BindRow(e, id, world), front, id, world);
  }

  lemma WalkLastCaught(db: Db, e: Engine, front: seq<Id>, id: Id, world: World)
    requires PortsDistinct(db) && !e.raised && Walked(db, e, front, world) && AllCaughtIn(db, front, world)
    requires id in db.listeners && id !in front && !Prepare(db, id, world).Uncaught?
    ensures WalkedUpTo(db, BindRow(e, id, world), front + [id], world, |front| + 1)
  {
    WalkStep(db, e, front, id, world);
    WalkedAll(db, BindRow(e, id, world), front + [id], world);
  }

  lemma StoppedAtLast(db: Db, e: Engine, front: seq<Id>, id: Id, world: World)
    requires e.raised && Walked(db, e, front, world) && id in db.listeners && Prepare(db, id, world).Uncaught?
    requires AllCaughtIn(db, front, world)
    ensures WalkedUpTo(db, e, front + [id], world, |front|)
  {
    assert (front + [id])[..|front|] == front;
  }

  lemma WalkedAll(db: Db, e: Engine, rows: seq<Id>, world: World)
    requires !e.raised && Walked(db, e, rows, world)
    requires AllCaughtIn(db, rows, world)
    ensures WalkedUpTo(db, e, rows, world, |rows|)
  {
    assert rows[..|rows|] == rows;
  }

  lemma UncaughtRaises(db: Db, e: Engine, done: seq<Id>, id: Id, world: World)
    requires Walked(db, e, done, world) && id in db.listeners && Prepare(db, id, world).Uncaught?
    ensures BindRow(e, id, world) == e.(raised := true) && Walked(db, BindRow(e, id, world), done, world)
  {
    PrepareIgnoresStatus(db, e.db, id, world);
  }

  lemma ResumeKeepsRows(db: Db, rows: seq<Id>, world: World)
    requires forall id :: id in rows ==> id in db.listeners
    ensures var after := Resume(db, rows, world).db;
      && after == db.(listeners := after.listeners, desiredActive := after.desiredActive, observed := after.observed)
      && after.listeners.Keys == db.listeners.Keys
      && (forall id :: id in db.listeners ==> after.listeners[id] == db.listeners[id].(status := after.listeners[id].status))
  {
    WalkKeepsRows(Engine(db, map[], 0, false), rows, world);
  }

  lemma {:induction false} WalkKeepsRows(e: Engine, rows: seq<Id>, world: World)
    requires forall id :: id in rows ==> id in e.db.listeners
    ensures StatusOnly(e.db, BindRows(e, rows, world).db)
  {
    if rows != [] {
      var before := BindRows(e, rows[..|rows| - 1], world);
      WalkKeepsRows(e, rows[..|rows| - 1], world);
      BindKeepsRow(before, rows[|rows| - 1], world);
    }
  }

  lemma BindKeepsRow(e: Engine, id: Id, world: World)
    requires id in e.db.listeners
    ensures StatusOnly(e.db, BindRow(e, id, world).db)
  {
    var after := BindRow(e, id, world).db;
    if after != e.db {
      SetStatusOnly(e.db, id, after.listeners[id].status);
    }
  }

  lemma SetStatusOnly(db: Db, id: Id, status: Status)
    requires id in db.listeners
    ensures StatusOnly(db, SetStatus(db, id, status))
  {
  }

  lemma ResumeKeepsInv(db: Db, rows: seq<Id>, world: World)
    requires Inv(db) && Enumerates(rows, Selected(db))
    ensures Inv(Resume(db, rows, world).db)
  {
    var k := RowsAreWalked(db, rows, world);
    var after := Resume(db, rows, world).db;
    forall id | id in db.listeners
      ensures after.listeners[id] == db.listeners[id].(status := after.listeners[id].status)
      ensures after.listeners[id].status == Active ==> db.listeners[id].enabled
    {
      assert id in rows[..k] ==> id in rows && id in Selected(db);
    }
    StatusKeepsInv(db, after);
  }

  // ----------------------------------------------------------- reconciliation

  /** The bound set that resuming must reach: no order, no history. */
  ghost function Target(db: Db, world: World): map<Id, int> {
    map id | id in Selected(db) && Binds(db, id, world) :: db.listeners[id].port
  }

  lemma {:induction false} DistinctSize(rows: seq<Id>, ids: set<Id>)
    requires Enumerates(rows, ids)
    ensures |rows| == |ids|
  {
    if rows == [] {
      assert ids == {};
    } else {
      var n := |rows| - 1;
      assert rows[n] in rows;
      var rest := ids - {rows[n]};
      forall id ensures id in rows[..n] <==> id in rest {
        if id in rest {
          assert id in rows;
        }
      }
      DistinctSize(rows[..n], rest);
      assert ids == rest + {rows[n]};
    }
  }

  /** No selected row runs into an error that the engine does not catch. */
  ghost predicate AllCaught(db: Db, world: World) {
    forall id :: id in Selected(db) ==> !Prepare(db, id, world).Uncaught?
  }

  ghost function SettledRows(db: Db, world: World): map<Id, Listener> {
    map id | id in db.listeners ::
      db.listeners[id].(status := if id in Selected(db) then OutcomeOf(db, id, world) else db.listeners[id].status)
  }

  /** The engine that resuming must reach, as a function of tables and world alone. */
  ghost function Settled(db: Db, world: World): Engine {
    var bound := Target(db, world);
    var failures := |Selected(db) - bound.Keys|;
    Engine(db.(listeners := SettledRows(db, world), desiredActive := true,
               observed := if failures == 0 then Running else Degraded(failures)),
           bound, failures, false)
  }

  /**
   Reconciliation: with a configured key and validated parameters the bound set after `resume` is
   exactly the selected rows with usable device and free port, in whatever order the rows come and
   whatever was bound before; failures are the selected rows that are not bound.
   */
  lemma ResumeIsSettled(db: Db, rows: seq<Id>, world: World)
    requires Inv(db) && Enumerates(rows, Selected(db)) && AllCaught(db, world)
    ensures Resume(db, rows, world) == Settled(db, world)
  {
    AllRowsWalked(db, rows, world);
    DistinctSize(rows, Selected(db));
    var e := BindRows(Engine(db, map[], 0, false), rows, world);
    SocketsAreTarget(db, e.bound, rows, world);
    RowsAreSettled(db, e.db, rows, world);
    RunningIffAllBound(db, world);
    assert e.failures == Settled(db, world).failures;
  }

  lemma RowsAreSettled(db: Db, now: Db, rows: seq<Id>, world: World)
    requires StatusesWalked(db, now, rows, world) && Enumerates(rows, Selected(db))
    ensures now.listeners == SettledRows(db, world)
  {
  }

  /** Running is reported exactly when every selected row is bound. */
  lemma RunningIffAllBound(db: Db, world: World)
    ensures Settled(db, world).db.observed == Running <==> Settled(db, world).bound.Keys == Selected(db)
    ensures Settled(db, world).failures == |Selected(db)| - |Settled(db, world).bound|
  {
    var bound := Target(db, world);
    assert |bound.Keys| == |bound| && bound.Keys <= Selected(db);
    assert Selected(db) == bound.Keys + (Selected(db) - bound.Keys);
    assert |Selected(db)| == |bound.Keys| + |Selected(db) - bound.Keys|;
  }

  lemma AllRowsWalked(db: Db, rows: seq<Id>, world: World)
    requires Inv(db) && Enumerates(rows, Selected(db)) && AllCaught(db, world)
    ensures var e := BindRows(Engine(db, map[], 0, false), rows, world);
      !e.raised && Walked(db, e, rows, world)
  {
    var k := RowsAreWalked(db, rows, world);
    forall i | 0 <= i < |rows| ensures !Prepare(db, rows[i], world).Uncaught? {
      assert rows[i] in rows;
    }
    assert rows[..|rows|] == rows;
  }

  lemma SocketsAreTarget(db: Db, bound: map<Id, int>, rows: seq<Id>, world: World)
    requires SocketsWalked(db, bound, rows, world) && Enumerates(rows, Selected(db))
    ensures bound == Target(db, world) && bound.Keys <= Selected(db)
  {
    assert bound.Keys == Target(db, world).Keys;
  }

  /** Two orders of the same rows lead to the same engine. */
  lemma ResumeIsOrderFree(db: Db, rows: seq<Id>, rows': seq<Id>, world: World)
    requires Inv(db) && Enumerates(rows, Selected(db)) && Enumerates(rows', Selected(db)) && AllCaught(db, world)
    ensures Resume(db, rows, world) == Resume(db, rows', world)
  {
    ResumeIsSettled(db, rows, world);
    ResumeIsSettled(db, rows', world);
  }

  // -- said of the tables and the world alone

  /** The row and its device are enabled. */
  ghost predicate Wanted(db: Db, id: Id) {
    && id in db.listeners && db.listeners[id].enabled
    && db.listeners[id].device in db.devices && db.devices[db.listeners[id].device].enabled
  }

  ghost function CredentialOf(db: Db, id: Id): Credential
    requires Wanted(db, id)
  {
    db.devices[db.listeners[id].device].credential
  }

  /** A wanted row with a credential needs the master key; one whose credential can be read, parameters not rejected. */
  ghost predicate Escapes(db: Db, id: Id, world: World) {
    && Wanted(db, id) && !CredentialOf(db, id).Missing?
    && (!world.key || (CredentialOf(db, id).Readable? && id in world.rejected))
  }

  ghost predicate NothingEscapes(db: Db, world: World) {
    forall id :: !Escapes(db, id, world)
  }

  lemma WantedIsSelected(db: Db, id: Id, world: World)
    ensures Wanted(db, id) <==> id in Selected(db)
    ensures Wanted(db, id) ==> (Escapes(db, id, world) <==> Prepare(db, id, world).Uncaught?)
  {
  }

  lemma CaughtPlainly(db: Db, world: World)
    ensures AllCaught(db, world) <==> NothingEscapes(db, world)
  {
    if AllCaught(db, world) {
      forall id ensures !Escapes(db, id, world) {
        WantedIsSelected(db, id, world);
      }
    } else {
      var id :| id in Selected(db) && Prepare(db, id, world).Uncaught?;
      WantedIsSelected(db, id, world);
    }
  }

  /** `resume` raises exactly when some wanted row's error escapes, whatever the order. */
  lemma ResumeRaisesIff(db: Db, rows: seq<Id>, world: World)
    requires Inv(db) && Enumerates(rows, Selected(db))
    ensures Resume(db, rows, world).raised <==> !NothingEscapes(db, world)
    ensures forall id :: id in Resume(db, rows, world).bound ==> id in Target(db, world)
  {
    CaughtPlainly(db, world);
    var k := RowsAreWalked(db, rows, world);
    if k < |rows| {
      assert rows[k] in rows;
    } else {
      forall id | id in Selected(db) ensures !Prepare(db, id, world).Uncaught? {
        assert id in rows;
      }
    }
    forall id | id in Resume(db, rows, world).bound ensures id in Target(db, world) {
      assert id in rows[..k] && id in rows;
    }
  }

  lemma TargetPlainly(db: Db, id: Id, world: World)
    requires NothingEscapes(db, world)
    ensures id in Target(db, world)
       <==> Wanted(db, id) && CredentialOf(db, id).Readable? && db.listeners[id].port !in world.held
    ensures id in Target(db, world) ==> Target(db, world)[id] == db.listeners[id].port
  {
    assert !Escapes(db, id, world);
  }

  /** When nothing escapes, the sockets are those of the wanted rows with a readable credential and a free port. */
  lemma ResumeBindsIff(db: Db, rows: seq<Id>, world: World, id: Id)
    requires Inv(db) && Enumerates(rows, Selected(db)) && NothingEscapes(db, world)
    ensures var bound := Resume(db, rows, world).bound;
      && (id in bound
          <==> Wanted(db, id) && CredentialOf(db, id).Readable? && db.listeners[id].port !in world.held)
      && (id in bound ==> bound[id] == db.listeners[id].port)
  {
    CaughtPlainly(db, world);
    ResumeIsSettled(db, rows, world);
    TargetPlainly(db, id, world);
  }

  /** Then a wanted row says active or why not, any other row says what it said. */
  lemma ResumeSaysWhy(db: Db, rows: seq<Id>, world: World, id: Id)
    requires Inv(db) && Enumerates(rows, Selected(db)) && NothingEscapes(db, world) && id in db.listeners
    ensures id in Resume(db, rows, world).db.listeners
    ensures Resume(db, rows, world).db.listeners[id].status
         == if !Wanted(db, id) then db.listeners[id].status
            else if CredentialOf(db, id).Missing? then Failing("")
            else if CredentialOf(db, id).Unreadable? then Failing("credential_key_mismatch")
            else if db.listeners[id].port in world.held then Failing("port_bind_failed")
            else Active
  {
    CaughtPlainly(db, world);
    ResumeIsSettled(db, rows, world);
    assert !Escapes(db, id, world);
    WantedIsSelected(db, id, world);
    OutcomePlainly(db, id, world);
  }

  lemma OutcomePlainly(db: Db, id: Id, world: World)
    requires Wanted(db, id) ==> !Escapes(db, id, world)
    ensures Wanted(db, id) ==>
      OutcomeOf(db, id, world)
      == if CredentialOf(db, id).Missing? then Failing("")
         else if CredentialOf(db, id).Unreadable? then Failing("credential_key_mismatch")
         else if db.listeners[id].port in world.held then Failing("port_bind_failed")
         else Active
  {
  }

  /** Pausing leaves no socket and no active row, says so, and changes nothing else. */
  lemma PauseStopsAll(db: Db)
    ensures var e := Pause(db);
      && e.bound == map[] && !e.raised && !e.db.desiredActive && e.db.observed == Paused
      && e.db == db.(listeners := e.db.listeners, desiredActive := false, observed := Paused)
      && e.db.listeners.Keys == db.listeners.Keys
      && forall id :: id in db.listeners ==>
           && e.db.listeners[id].status != Active
           && (db.listeners[id].status != Active ==> e.db.listeners[id] == db.listeners[id])
           && (db.listeners[id].status == Active ==> e.db.listeners[id] == db.listeners[id].(status := Inactive))
  {
  }

  lemma {:induction false} Enumeration(ids: set<Id>) returns (rows: seq<Id>)
    ensures Enumerates(rows, ids)
  {
    if ids == {} {
      rows := [];
    } else {
      var id :| id in ids;
      var rest := Enumeration(ids - {id});
      rows := [id] + rest;
    }
  }

  lemma TwoFirst(ids: set<Id>, a: Id, b: Id) returns (rest: seq<Id>)
    requires a in ids && b in ids && a != b
    ensures Enumerates([a, b] + rest, ids) && Enumerates([b, a] + rest, ids)
  {
    rest := Enumeration(ids - {a, b});
    forall id ensures id in [a, b] + rest <==> id in ids { }
    forall id ensures id in [b, a] + rest <==> id in ids { }
  }

  /** A raise stops the walk at the first row whose error is not caught. */
  lemma WalkStopsAt(db: Db, rows: seq<Id>, world: World, n: nat)
    requires Inv(db) && Enumerates(rows, Selected(db)) && n < |rows|
    requires rows[n] in db.listeners && Prepare(db, rows[n], world).Uncaught?
    requires forall i :: 0 <= i < n ==> rows[i] in db.listeners && !Prepare(db, rows[i], world).Uncaught?
    ensures var e := Resume(db, rows, world);
      e.raised && Walked(db, e, rows[..n], world)
  {
    var k := RowsAreWalked(db, rows, world);
    assert k == n;
  }

  /** One caught and one uncaught row: which of them comes first shows in what was dealt with. */
  lemma MixedRowsDependOnOrder(db: Db, caught: Id, uncaught: Id, world: World) returns (rows: seq<Id>, rows': seq<Id>)
    requires Inv(db) && caught in Selected(db) && uncaught in Selected(db)
    requires !Prepare(db, caught, world).Uncaught? && Prepare(db, uncaught, world).Uncaught?
    ensures Enumerates(rows, Selected(db)) && Enumerates(rows', Selected(db))
    ensures Resume(db, rows, world) != Resume(db, rows', world)
  {
    var rest := TwoFirst(Selected(db), caught, uncaught);
    rows, rows' := [caught, uncaught] + rest, [uncaught, caught] + rest;
    WalkStopsAt(db, rows, world, 1);
    WalkStopsAt(db, rows', world, 0);
    assert |rows[..1]| == 1 && |rows'[..0]| == 0;
  }

  /** No selected row gets past its first check. */
  ghost predicate NoneCaught(db: Db, world: World) {
    forall id :: id in Selected(db) ==> Prepare(db, id, world).Uncaught?
  }

  lemma NothingWalked(db: Db, e: Engine, world: World)
    requires Walked(db, e, [], world)
    ensures e == Engine(db, map[], 0, e.raised)
  {
    assert e.db.listeners == db.listeners;
    assert e.bound == map[];
  }

  lemma AllRaiseAlike(db: Db, rows: seq<Id>, world: World)
    requires Inv(db) && Enumerates(rows, Selected(db)) && NoneCaught(db, world) && rows != []
    ensures Resume(db, rows, world) == Engine(db, map[], 0, true)
  {
    assert rows[0] in rows && rows[0] in Selected(db);
    WalkStopsAt(db, rows, world, 0);
    assert rows[..0] == [];
    NothingWalked(db, Resume(db, rows, world), world);
  }

  ghost predicate OrderFree(db: Db, world: World) {
    forall rows: seq<Id>, rows': seq<Id> :: Enumerates(rows, Selected(db)) && Enumerates(rows', Selected(db)) ==>
      Resume(db, rows, world) == Resume(db, rows', world)
  }

  /**
   Exactly when the order of the rows does not matter: every selected row's error is caught, or
   none is.
   */
  lemma OrderFreeIff(db: Db, world: World)
    requires Inv(db)
    ensures OrderFree(db, world) <==> AllCaught(db, world) || NoneCaught(db, world)
  {
    if AllCaught(db, world) {
      forall rows: seq<Id>, rows': seq<Id> | Enumerates(rows, Selected(db)) && Enumerates(rows', Selected(db))
        ensures Resume(db, rows, world) == Resume(db, rows', world)
      {
        ResumeIsOrderFree(db, rows, rows', world);
      }
    } else if NoneCaught(db, world) {
      forall rows: seq<Id>, rows': seq<Id> | Enumerates(rows, Selected(db)) && Enumerates(rows', Selected(db))
        ensures Resume(db, rows, world) == Resume(db, rows', world)
      {
        NoneCaughtIsOrderFree(db, rows, rows', world);
      }
    } else {
      var uncaught :| uncaught in Selected(db) && Prepare(db, uncaught, world).Uncaught?;
      var caught :| caught in Selected(db) && !Prepare(db, caught, world).Uncaught?;
      var rows, rows' := MixedRowsDependOnOrder(db, caught, uncaught, world);
    }
  }

  lemma NoneCaughtIsOrderFree(db: Db, rows: seq<Id>, rows': seq<Id>, world: World)
    requires Inv(db) && Enumerates(rows, Selected(db)) && Enumerates(rows', Selected(db)) && NoneCaught(db, world)
    ensures Resume(db, rows, world) == Resume(db, rows', world)
  {
    DistinctSize(rows, Selected(db));
    DistinctSize(rows', Selected(db));
    if rows != [] {
      AllRaiseAlike(db, rows, world);
      AllRaiseAlike(db, rows', world);
    }
  }

  /** Resuming twice is resuming once. */
  lemma ResumeTwice(db: Db, rows: seq<Id>, rows': seq<Id>, world: World)
    requires Inv(db) && Enumerates(rows, Selected(db)) && AllCaught(db, world)
    requires Enumerates(rows', Selected(Resume(db, rows, world).db))
    ensures Resume(Resume(db, rows, world).db, rows', world) == Resume(db, rows, world)
  {
    ResumeIsSettled(db, rows, world);
    ResumeKeepsInv(db, rows, world);
    SettledTwice(db, world);
    ResumeIsSettled(Settled(db, world).db, rows', world);
  }

  lemma SettledTwice(db: Db, world: World)
    requires AllCaught(db, world)
    ensures AllCaught(Settled(db, world).db, world)
    ensures Settled(Settled(db, world).db, world) == Settled(db, world)
  {
    var once := Settled(db, world).db;
    SameSelection(db, once, world);
    forall id | id in db.listeners ensures SettledRows(once, world)[id] == SettledRows(db, world)[id] { }
    assert SettledRows(once, world) == SettledRows(db, world);
  }

  /** Selection and outcome of a row do not look at statuses. */
  lemma SameSelection(db: Db, now: Db, world: World)
    requires now == db.(listeners := now.listeners, desiredActive := now.desiredActive, observed := now.observed)
    requires now.listeners.Keys == db.listeners.Keys && AllCaught(db, world)
    requires forall id :: id in db.listeners ==> now.listeners[id] == db.listeners[id].(status := now.listeners[id].status)
    ensures Selected(now) == Selected(db) && Target(now, world) == Target(db, world) && AllCaught(now, world)
    ensures forall id :: id in Selected(db) ==> OutcomeOf(now, id, world) == OutcomeOf(db, id, world)
  {
    assert Selected(now) == Selected(db);
    forall id | id in db.listeners ensures Prepare(now, id, world) == Prepare(db, id, world) { }
  }

  // -------------------------------------------------- what the status page says

  ghost function ActiveRows(db: Db): set<Id> {
    set id | id in db.listeners && db.listeners[id].status == Active
  }

  /** Rows that say active although the engine no longer selects them. */
  ghost function Stale(db: Db): set<Id> {
    set id | id in db.listeners && db.listeners[id].status == Active && id !in Selected(db)
  }

  /**
   The reported number of active listeners exceeds the bound ones by the stale rows: it is exact
   if and only if no unselected row was active, for example one whose device was disabled.
   */
  lemma ActiveCountAfterResume(db: Db, rows: seq<Id>, world: World)
    requires Inv(db) && Enumerates(rows, Selected(db)) && AllCaught(db, world)
    ensures var e := Resume(db, rows, world);
      && |ActiveRows(e.db)| == |e.bound| + |Stale(db)|
      && (|ActiveRows(e.db)| == |e.bound| <==> Stale(db) == {})
  {
    ResumeIsSettled(db, rows, world);
    var e := Settled(db, world);
    SettledActive(db, world);
    assert |e.bound.Keys + Stale(db)| == |e.bound.Keys| + |Stale(db)|;
    assert |e.bound.Keys| == |e.bound|;
  }

  lemma ActiveAfterwards(db: Db, id: Id, world: World)
    requires AllCaught(db, world)
    ensures id in ActiveRows(Settled(db, world).db) <==> id in Target(db, world).Keys + Stale(db)
    ensures id !in Target(db, world).Keys || id !in Stale(db)
  {
    if id in Selected(db) {
      assert Settled(db, world).db.listeners[id].status == OutcomeOf(db, id, world);
    }
  }

  lemma SettledActive(db: Db, world: World)
    requires AllCaught(db, world)
    ensures ActiveRows(Settled(db, world).db) == Target(db, world).Keys + Stale(db)
    ensures Target(db, world).Keys !! Stale(db)
  {
    var active, bound, stale := ActiveRows(Settled(db, world).db), Target(db, world).Keys, Stale(db);
    forall id ensures (id in active <==> id in bound + stale) && (id !in bound || id !in stale) {
      ActiveAfterwards(db, id, world);
    }
  }

  // ----------------------------------------------------------------- witness

  /** Tables with one device and at most listener 1, as the run below leaves them. */
  function Tables(rows: map<Id, Listener>, deviceOn: bool, issued: set<Id>, active: bool, observed: Observed): Db {
    Db(rows, map[0 := Device(deviceOn, Readable)], 40000, 40099, 40000, 40099, {}, issued, active, observed)
  }

  const INPUT := Input(0, "listener", None, Some("192.0.2.1"), Some(""), true)
  const ROW := Listener(0, "listener", None, 40000, "192.0.2.1", "", true, Inactive, 1)
  const WORLD := World(true, {}, {})

  lemma DeviceAdded(db: Db)
    requires db == FreshTables(40000, 40099)
    ensures PutDevice(db, 0, Device(true, Readable)).0 == Tables(map[], true, {0}, false, Starting)
  {
  }

  lemma ListenerCreated()
    ensures Create(Tables(map[], true, {0}, false, Starting), 1, INPUT, Some(40000), {}, {}).0
         == Tables(map[1 := ROW], true, {0, 1}, false, Starting)
  {
  }

  lemma OneRowSelected(db: Db)
    requires db == Tables(map[1 := ROW], true, {0, 1}, false, Starting)
    ensures Inv(db) && Selected(db) == {1} && AllCaught(db, WORLD)
    ensures SettledRows(db, WORLD) == map[1 := ROW.(status := Active)] && Target(db, WORLD).Keys == {1}
  {
    assert Selected(db) == {1};
    assert Prepare(db, 1, WORLD) == Ready;
  }

  lemma ListenerBound(db: Db)
    requires db == Tables(map[1 := ROW], true, {0, 1}, false, Starting)
    ensures Inv(db) && Enumerates([1], Selected(db)) && AllCaught(db, WORLD)
    ensures Resume(db, [1], WORLD).db == Tables(map[1 := ROW.(status := Active)], true, {0, 1}, true, Running)
  {
    OneRowSelected(db);
    ResumeIsSettled(db, [1], WORLD);
    SettledWhenAllBind(db, WORLD);
  }

  lemma SettledWhenAllBind(db: Db, world: World)
    requires Target(db, world).Keys == Selected(db)
    ensures Settled(db, world).db == db.(listeners := SettledRows(db, world), desiredActive := true, observed := Running)
  {
    assert Selected(db) - Target(db, world).Keys == {};
  }

  lemma DeviceDisabled()
    ensures PutDevice(Tables(map[1 := ROW.(status := Active)], true, {0, 1}, true, Running), 0, Device(false, Readable)).0
         == Tables(map[1 := ROW.(status := Active)], false, {0, 1}, true, Running)
  {
  }

  lemma RunCons(db: Db, op: Op, rest: seq<Op>)
    requires Possible(db, op) && PossibleRun(Step(db, op).0, rest)
    ensures PossibleRun(db, [op] + rest) && Run(db, [op] + rest) == Run(Step(db, op).0, rest)
  {
    assert ([op] + rest)[1..] == rest;
  }

  /**
   From fresh tables: add a device, create a listener, resume, disable the device. The row says
   active, and after the next resume one listener is reported active and none is bound.
   */
  lemma StaleRowAppears(db: Db) returns (ops: seq<Op>)
    requires db == FreshTables(40000, 40099)
    ensures PossibleRun(db, ops)
    ensures var end := Run(db, ops);
      && Inv(end) && Enumerates([], Selected(end)) && Stale(end) == {1}
      && Resume(end, [], WORLD).bound == map[] && |ActiveRows(Resume(end, [], WORLD).db)| == 1
  {
    var d1 := Tables(map[], true, {0}, false, Starting);
    var d2 := Tables(map[1 := ROW], true, {0, 1}, false, Starting);
    var d3 := Tables(map[1 := ROW.(status := Active)], true, {0, 1}, true, Running);
    var d4 := Tables(map[1 := ROW.(status := Active)], false, {0, 1}, true, Running);
    var o1, o2 := PuttingDevice(0, Device(true, Readable)), Creating(1, INPUT, Some(40000), {}, {});
    var o3, o4 := Resuming([1], WORLD), PuttingDevice(0, Device(false, Readable));
    DeviceAdded(db);
    ListenerCreated();
    ListenerBound(d2);
    DeviceDisabled();
    assert PossibleRun(d4, []) && Run(d4, []) == d4;
    RunCons(d3, o4, []);
    RunCons(d2, o3, [o4] + []);
    RunCons(d1, o2, [o3] + ([o4] + []));
    RunCons(db, o1, [o2] + ([o3] + ([o4] + [])));
    ops := [o1] + ([o2] + ([o3] + ([o4] + [])));
    StaleIsReported(d4);
  }

  lemma StaleIsReported(db: Db)
    requires db == Tables(map[1 := ROW.(status := Active)], false, {0, 1}, true, Running)
    ensures Inv(db) && Enumerates([], Selected(db)) && Stale(db) == {1}
    ensures Resume(db, [], WORLD).bound == map[] && |ActiveRows(Resume(db, [], WORLD).db)| == 1
  {
    assert Selected(db) == {};
    assert Stale(db) == {1};
    ActiveCountAfterResume(db, [], WORLD);
  }
}
