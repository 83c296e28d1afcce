/**
 The listener table, its devices and the active UDP range (app/application/operations_service.py,
 update_udp_range of app/application/observability_service.py) and the engine that binds the
 listeners (app/application/engine_runtime.py), as functions on the state. Each transaction is one
 step; ports held by other programs, key and driver checks are oracle values.
 */
module Listeners {
  import opened Basics

  type Id = nat

  datatype Status = Inactive | Active | Failing(reason: string)

  datatype Listener = Listener(device: Id, name: string, description: Option<string>, port: int, source: string,
                               parameters: string, enabled: bool, status: Status, version: nat)

  datatype Credential = Missing | Readable | Unreadable

  datatype Device = Device(enabled: bool, credential: Credential)

  datatype Observed = Starting | Running | Degraded(failures: nat) | Paused

  /** `events` are the listener and device of the recorded wake events, `issued` all ids ever drawn. */
  datatype Db = Db(listeners: map<Id, Listener>, devices: map<Id, Device>, start: int, end: int,
                   publishedStart: int, publishedEnd: int, events: set<(Id, Id)>, issued: set<Id>,
                   desiredActive: bool, observed: Observed)

  datatype Error = NotFound | Conflict | InUse | StaleVersion | Invalid(detail: string)
                 | OutsidePublished | ExcludesListeners | ConstraintViolated

  datatype Reply = Accepted | Refused(error: Error)

  /** A request after the address and driver libraries have read it: None is a rejected value. */
  datatype Input = Input(device: Id, name: string, description: Option<string>, source: Option<string>,
                         parameters: Option<string>, enabled: bool)

  // ------------------------------------------------------------ allocation

  function Used(db: Db): set<int> {
    set id | id in db.listeners :: db.listeners[id].port
  }

  /** The first port from `port` on that is neither used nor busy. */
  function FirstFree(port: int, end: int, used: set<int>, busy: set<int>): Option<int>
    decreases end - port
  {
    if port > end then None
    else if port !in used && port !in busy then Some(port)
    else FirstFree(port + 1, end, used, busy)
  }

  function ValidatePort(db: Db, port: int, exclude: set<Id>): Option<Error> {
    if !(db.start <= port <= db.end) then Some(Invalid("udp_port_outside_allowed_range"))
    else if exists id | id in db.listeners && id !in exclude :: db.listeners[id].port == port then Some(Conflict)
    else None
  }

  // ------------------------------------------------------------ transactions

  /** The session's working copy of the tables when the block ends, and what it raised, if anything. */
  datatype Work = Work(db: Db, error: Option<Error>)

  predicate RangeAllowed(start: int, end: int) {
    1024 <= start <= 65535 && start <= end <= 65535 && end - start + 1 <= 100
  }

  /** What the database itself checks: unique ports, allowed range, references that resolve. */
  predicate Constraints(db: Db) {
    && RangeAllowed(db.start, db.end)
    && (forall a, b | a in db.listeners && b in db.listeners && a != b :: db.listeners[a].port != db.listeners[b].port)
    && (forall id | id in db.listeners :: db.listeners[id].device in db.devices)
    && (forall e | e in db.events :: e.0 in db.listeners && e.1 in db.devices)
  }

  /** A raise discards the working copy; so does a commit that violates a constraint. */
  function Commit(db: Db, work: Work, violation: Error): (Db, Reply) {
    if work.error.Some? then (db, Refused(work.error.value))
    else if !Constraints(work.db) then (db, Refused(violation))
    else (work.db, Accepted)
  }

  // --------------------------------------------------------- ListenerService

  /** The checks shared by creation and update that come before the port is looked at. */
  function CheckInput(db: Db, input: Input): Option<Error> {
    if input.device !in db.devices then Some(NotFound)
    else if input.enabled && !db.devices[input.device].enabled then Some(Conflict)
    else if input.parameters.None? then Some(Invalid("invalid_listener_parameters"))
    else None
  }

  function Row(input: Input, port: int, version: nat): Listener
    requires input.source.Some? && input.parameters.Some?
  {
    Listener(input.device, input.name, input.description, port, input.source.value, input.parameters.value,
             input.enabled, Inactive, version)
  }

  /** `scan` answers the allocator's probes of busy ports, `probe` the final one. The row is added last. */
  function CreateWork(db: Db, id: Id, input: Input, requested: Option<int>, scan: set<int>, probe: set<int>): Work {
    if input.source.None? then Work(db, Some(Invalid("invalid_allowed_source_ip")))
    else if CheckInput(db, input).Some? then Work(db, CheckInput(db, input))
    else
      var port := if requested.Some? then requested else FirstFree(db.start, db.end, Used(db), scan);
      if port.None? then Work(db, Some(Conflict))
      else if ValidatePort(db, port.value, {}).Some? then Work(db, ValidatePort(db, port.value, {}))
      else if port.value in probe then Work(db, Some(Conflict))
      else if input.name == "" then Work(db, Some(Invalid("listener_name_required")))
      else Work(db.(listeners := db.listeners[id := Row(input, port.value, 1)], issued := db.issued + {id}), None)
  }

  function Create(db: Db, id: Id, input: Input, requested: Option<int>, scan: set<int>, probe: set<int>): (Db, Reply) {
    Commit(db, CreateWork(db, id, input, requested, scan, probe), Conflict)
  }

  /** The guards of an update that come before the row is changed. */
  function CheckUpdate(db: Db, id: Id, version: nat, input: Input, port: int, probe: set<int>): Option<Error> {
    if input.source.None? then Some(Invalid("invalid_allowed_source_ip"))
    else if id !in db.listeners then Some(NotFound)
    else if db.listeners[id].version != version then Some(StaleVersion)
    else if CheckInput(db, input).Some? then CheckInput(db, input)
    else if ValidatePort(db, port, {id}).Some? then ValidatePort(db, port, {id})
    else if port != db.listeners[id].port && port in probe then Some(Conflict)
    else None
  }

  /** The row is changed in the working copy first; only then is the name looked at. */
  function UpdateWork(db: Db, id: Id, version: nat, input: Input, port: int, probe: set<int>): Work {
    var error := CheckUpdate(db, id, version, input, port, probe);
    if error.Some? then Work(db, error)
    else
      Work(db.(listeners := db.listeners[id := Row(input, port, version + 1)]),
           if input.name == "" then Some(Invalid("listener_name_required")) else None)
  }

  function Update(db: Db, id: Id, version: nat, input: Input, port: int, probe: set<int>): (Db, Reply) {
    Commit(db, UpdateWork(db, id, version, input, port, probe), Conflict)
  }

  function Delete(db: Db, id: Id): (Db, Reply) {
    Commit(db,
           if id !in db.listeners then Work(db, Some(NotFound))
           else if exists e | e in db.events :: e.0 == id then Work(db, Some(InUse))
           else Work(db.(listeners := db.listeners - {id}), None),
           ConstraintViolated)
  }

  // --------------------------------------------------------------- settings

  function UpdateRange(db: Db, start: int, end: int): (Db, Reply) {
    Commit(db,
           if start < db.publishedStart || end > db.publishedEnd then Work(db, Some(OutsidePublished))
           else if exists id | id in db.listeners :: db.listeners[id].port < start || db.listeners[id].port > end then
             Work(db, Some(ExcludesListeners))
           else Work(db.(start := start, end := end), None),
           ConstraintViolated)
  }

  // ---------------------------------------------------- devices and events

  function PutDevice(db: Db, id: Id, device: Device): (Db, Reply) {
    Commit(db, Work(db.(devices := db.devices[id := device], issued := db.issued + {id}), None), Conflict)
  }

  function DeleteDevice(db: Db, id: Id): (Db, Reply) {
    Commit(db,
           if id !in db.devices then Work(db, Some(NotFound))
           else if exists l | l in db.listeners :: db.listeners[l].device == id then Work(db, Some(InUse))
           else Work(db.(devices := db.devices - {id}), None),
           ConstraintViolated)
  }

  function RecordWake(db: Db, listener: Id, device: Id): (Db, Reply) {
    Commit(db, Work(db.(events := db.events + {(listener, device)}), None), ConstraintViolated)
  }

  // ----------------------------------------------------------------- engine

  /** Is the master key configured, which rows does a driver reject, which ports are held elsewhere. */
  datatype World = World(key: bool, rejected: set<Id>, held: set<int>)

  datatype Material = Ready | Unusable(reason: string) | Uncaught

  /** What the engine makes of a selected row before it binds: only two of the errors are caught. */
  function Prepare(db: Db, id: Id, world: World): Material
    requires id in db.listeners
  {
    var device := db.listeners[id].device;
    if device !in db.devices || !db.devices[device].enabled || db.devices[device].credential.Missing? then Unusable("")
    else if !world.key then Uncaught
    else if db.devices[device].credential.Unreadable? then Unusable("credential_key_mismatch")
    else if id in world.rejected then Uncaught
    else Ready
  }

  function Selected(db: Db): set<Id> {
    set id | id in db.listeners && db.listeners[id].enabled
             && db.listeners[id].device in db.devices && db.devices[db.listeners[id].device].enabled
  }

  function SetStatus(db: Db, id: Id, status: Status): Db
    requires id in db.listeners
  {
    db.(listeners := db.listeners[id := db.listeners[id].(status := status)])
  }

  /** The engine while it walks the rows: `bound` are its sockets. */
  datatype Engine = Engine(db: Db, bound: map<Id, int>, failures: nat, raised: bool)

  function BindRow(e: Engine, id: Id, world: World): Engine
    requires id in e.db.listeners
  {
    var port := e.db.listeners[id].port;
    match Prepare(e.db, id, world)
    case Uncaught => e.(raised := true)
    case Unusable(reason) => e.(db := SetStatus(e.db, id, Failing(reason)), failures := e.failures + 1)
    case Ready =>
      if port in world.held || port in e.bound.Values then
        e.(db := SetStatus(e.db, id, Failing("port_bind_failed")), failures := e.failures + 1)
      else
        e.(db := SetStatus(e.db, id, Active), bound := e.bound[id := port])
  }

  function BindRows(e: Engine, rows: seq<Id>, world: World): (r: Engine)
    requires forall id :: id in rows ==> id in e.db.listeners
    ensures r.db.listeners.Keys == e.db.listeners.Keys
  {
    if rows == [] then e
    else
      var before := BindRows(e, rows[..|rows| - 1], world);
      if before.raised then before else BindRow(before, rows[|rows| - 1], world)
  }

  /** Close all sockets, bind the rows in the order the query returned them, report. */
  function Resume(db: Db, rows: seq<Id>, world: World): Engine
    requires forall id :: id in rows ==> id in db.listeners
  {
    var e := BindRows(Engine(db, map[], 0, false), rows, world);
    if e.raised then e
    else e.(db := e.db.(desiredActive := true, observed := if e.failures == 0 then Running else Degraded(e.failures)))
  }

  function Pause(db: Db): Engine {
    var listeners := map id | id in db.listeners ::
      if db.listeners[id].status == Active then db.listeners[id].(status := Inactive) else db.listeners[id];
    Engine(db.(listeners := listeners, desiredActive := false, observed := Paused), map[], 0, false)
  }

  // ------------------------------------------------------------------- runs

  datatype Op =
    | Creating(id: Id, input: Input, requested: Option<int>, scan: set<int>, probe: set<int>)
    | Updating(id: Id, version: nat, input: Input, port: int, probe: set<int>)
    | Deleting(id: Id)
    | SettingRange(start: int, end: int)
    | PuttingDevice(id: Id, device: Device)
    | DeletingDevice(id: Id)
    | RecordingWake(id: Id, waker: Id)
    | Purging(kept: set<(Id, Id)>)
    | Resuming(rows: seq<Id>, world: World)
    | Pausing

  /** Ids are fresh, and a query returns the selected rows once each. */
  ghost predicate Possible(db: Db, op: Op) {
    match op
    case Creating(id, _, _, _, _) => id !in db.issued
    case Resuming(rows, _) => Enumerates(rows, Selected(db))
    case _ => true
  }

  ghost predicate Enumerates(rows: seq<Id>, ids: set<Id>) {
    (forall id :: id in rows <==> id in ids) && (forall i, j :: 0 <= i < j < |rows| ==> rows[i] != rows[j])
  }

  ghost function Step(db: Db, op: Op): (Db, Reply)
    requires Possible(db, op)
  {
    match op
    case Creating(id, input, requested, scan, probe) => Create(db, id, input, requested, scan, probe)
    case Updating(id, version, input, port, probe) => Update(db, id, version, input, port, probe)
    case Deleting(id) => Delete(db, id)
    case SettingRange(start, end) => UpdateRange(db, start, end)
    case PuttingDevice(id, device) => PutDevice(db, id, device)
    case DeletingDevice(id) => DeleteDevice(db, id)
    case RecordingWake(id, device) => RecordWake(db, id, device)
    case Purging(kept) => (db.(events := db.events * kept), Accepted)
    case Resuming(rows, world) => (Resume(db, rows, world).db, Accepted)
    case Pausing => (Pause(db).db, Accepted)
  }

  ghost predicate PossibleRun(db: Db, ops: seq<Op>)
    decreases |ops|
  {
    ops == [] || (Possible(db, ops[0]) && PossibleRun(Step(db, ops[0]).0, ops[1..]))
  }

  ghost function Run(db: Db, ops: seq<Op>): Db
    requires PossibleRun(db, ops)
    decreases |ops|
  {
    if ops == [] then db else Run(Step(db, ops[0]).0, ops[1..])
  }
}
