/**
 The listener tables said of the history alone: every reply is the first failing check of a list,
 and every row, device and range is what the last accepted operation on it wrote.
 */
module ListenerHistory {
  import opened Basics
  import opened Listeners
  import opened ListenerGuarantees

  // ------------------------------------------------------------------- replies

  /** The least port of the range that no listener has and no probe finds busy. */
  ghost predicate LeastFree(db: Db, port: int, busy: set<int>) {
    && db.start <= port <= db.end && port !in busy && PortUnused(db, port, {})
    && forall p :: db.start <= p < port ==> p in busy || !PortUnused(db, p, {})
  }

  ghost predicate PortUnused(db: Db, port: int, except: set<Id>) {
    forall id :: id in db.listeners && id !in except ==> db.listeners[id].port != port
  }

  ghost predicate DeviceAllows(db: Db, input: Input) {
    input.device in db.devices && (input.enabled ==> db.devices[input.device].enabled)
  }

  ghost function PortChecks(db: Db, requested: Option<int>, scan: set<int>, probe: set<int>): seq<(bool, Error)> {
    if requested.Some? then
      [(db.start <= requested.value <= db.end, Invalid("udp_port_outside_allowed_range")),
       (PortUnused(db, requested.value, {}) && requested.value !in probe, Conflict)]
    else
      [(exists p :: LeastFree(db, p, scan) && p !in probe, Conflict)]
  }

  /** What an operation asks for, in order, each with the error it is refused with. */
  ghost function Checks(db: Db, op: Op): seq<(bool, Error)> {
    match op
    case Creating(_, input, requested, scan, probe) =>
      [(input.source.Some?, Invalid("invalid_allowed_source_ip")),
       (input.device in db.devices, NotFound), (DeviceAllows(db, input), Conflict),
       (input.parameters.Some?, Invalid("invalid_listener_parameters"))]
      + PortChecks(db, requested, scan, probe)
      + [(input.name != "", Invalid("listener_name_required"))]
    case Updating(id, version, input, port, probe) =>
      [(input.source.Some?, Invalid("invalid_allowed_source_ip")),
       (id in db.listeners, NotFound), (id in db.listeners && db.listeners[id].version == version, StaleVersion),
       (input.device in db.devices, NotFound), (DeviceAllows(db, input), Conflict),
       (input.parameters.Some?, Invalid("invalid_listener_parameters")),
       (db.start <= port <= db.end, Invalid("udp_port_outside_allowed_range")),
       (PortUnused(db, port, {id}), Conflict),
       (id in db.listeners && (db.listeners[id].port == port || port !in probe), Conflict),
       (input.name != "", Invalid("listener_name_required"))]
    case Deleting(id) => [(id in db.listeners, NotFound), (forall e :: e in db.events ==> e.0 != id, InUse)]
    case SettingRange(start, end) =>
      [(db.publishedStart <= start && end <= db.publishedEnd, OutsidePublished),
       (forall id :: id in db.listeners ==> start <= db.listeners[id].port <= end, ExcludesListeners),
       (1024 <= start <= end <= 65535 && end - start < 100, ConstraintViolated)]
    case DeletingDevice(id) =>
      [(id in db.devices, NotFound), (forall l :: l in db.listeners ==> db.listeners[l].device != id, InUse),
       (forall e :: e in db.events ==> e.1 != id, ConstraintViolated)]
    case RecordingWake(id, waker) => [(id in db.listeners && waker in db.devices, ConstraintViolated)]
    case _ => []
  }

  ghost function Answer(checks: seq<(bool, Error)>): Reply {
    var failure := FirstFailure(checks);
    if failure.Some? then Refused(failure.value) else Accepted
  }

  lemma Validates(db: Db, port: int, except: set<Id>)
    ensures ValidatePort(db, port, except)
         == if !(db.start <= port <= db.end) then Some(Invalid("udp_port_outside_allowed_range"))
            else if !PortUnused(db, port, except) then Some(Conflict)
            else None
  {
  }

  lemma Allocates(db: Db, busy: set<int>)
    ensures var free := FirstFree(db.start, db.end, Used(db), busy);
      && (free.Some? ==> LeastFree(db, free.value, busy))
      && (forall p :: LeastFree(db, p, busy) ==> free == Some(p))
  {
    FirstFreeIsLeast(db.start, db.end, Used(db), busy);
    forall p ensures p in Used(db) <==> !PortUnused(db, p, {}) {
      if p in Used(db) {
        var id :| id in db.listeners && db.listeners[id].port == p;
      }
    }
  }

  lemma PortAnswer(db: Db, requested: Option<int>, scan: set<int>, probe: set<int>)
    ensures var port := if requested.Some? then requested else FirstFree(db.start, db.end, Used(db), scan);
      FirstFailure(PortChecks(db, requested, scan, probe))
      == if port.None? then Some(Conflict)
         else if ValidatePort(db, port.value, {}).Some? then ValidatePort(db, port.value, {})
         else if port.value in probe then Some(Conflict)
         else None
  {
    var checks := PortChecks(db, requested, scan, probe);
    assert FirstFailure(checks) == if !checks[0].0 then Some(checks[0].1) else FirstFailure(checks[1..]);
    if requested.Some? {
      Validates(db, requested.value, {});
      assert checks[1..] == [checks[1]];
      assert checks[1..][1..] == [];
    } else {
      Allocates(db, scan);
      assert checks[1..] == [];
      var free := FirstFree(db.start, db.end, Used(db), scan);
      if free.Some? {
        Validates(db, free.value, {});
      }
    }
  }

  lemma CreateAnswers(db: Db, id: Id, input: Input, requested: Option<int>, scan: set<int>, probe: set<int>)
    ensures CreateWork(db, id, input, requested, scan, probe).error
         == FirstFailure(Checks(db, Creating(id, input, requested, scan, probe)))
  {
    var a := [(input.source.Some?, Invalid("invalid_allowed_source_ip")),
              (input.device in db.devices, NotFound), (DeviceAllows(db, input), Conflict)];
    var b := [(input.parameters.Some?, Invalid("invalid_listener_parameters"))];
    var c, d := PortChecks(db, requested, scan, probe), [(input.name != "", Invalid("listener_name_required"))];
    assert Checks(db, Creating(id, input, requested, scan, probe)) == a + b + c + d;
    FirstOfTwo(a + b + c, d);
    FirstOfTwo(a + b, c);
    FirstOfTwo(a, b);
    FirstOfThree(a[0], a[1], a[2]);
    FirstOfOne(b[0]);
    FirstOfOne(d[0]);
    PortAnswer(db, requested, scan, probe);
  }

  lemma UpdateAnswers(db: Db, id: Id, version: nat, input: Input, port: int, probe: set<int>)
    ensures UpdateWork(db, id, version, input, port, probe).error
         == FirstFailure(Checks(db, Updating(id, version, input, port, probe)))
  {
    var checks := Checks(db, Updating(id, version, input, port, probe));
    var a, b, c, d := checks[..3], checks[3..6], checks[6..9], checks[9..];
    assert checks == a + b + c + d;
    FirstOfTwo(a + b + c, d);
    FirstOfTwo(a + b, c);
    FirstOfTwo(a, b);
    assert a == [a[0], a[1], a[2]] && b == [b[0], b[1], b[2]] && c == [c[0], c[1], c[2]] && d == [d[0]];
    FirstOfThree(a[0], a[1], a[2]);
    FirstOfThree(b[0], b[1], b[2]);
    FirstOfThree(c[0], c[1], c[2]);
    FirstOfOne(d[0]);
    Validates(db, port, {id});
  }

  lemma DeleteAnswers(db: Db, id: Id)
    requires Inv(db)
    ensures Delete(db, id).1 == Answer(Checks(db, Deleting(id)))
  {
    var checks := Checks(db, Deleting(id));
    assert checks == [checks[0], checks[1]];
    FirstOfThree(checks[0], checks[1], checks[1]);
    if forall e :: e in db.events ==> e.0 != id {
      DeleteCommits(db, id);
    }
  }

  lemma RangeAnswers(db: Db, start: int, end: int)
    requires Inv(db)
    ensures UpdateRange(db, start, end).1 == Answer(Checks(db, SettingRange(start, end)))
  {
    var checks := Checks(db, SettingRange(start, end));
    assert checks == [checks[0], checks[1], checks[2]];
    FirstOfThree(checks[0], checks[1], checks[2]);
  }

  lemma DeleteDeviceAnswers(db: Db, id: Id)
    requires Inv(db)
    ensures DeleteDevice(db, id).1 == Answer(Checks(db, DeletingDevice(id)))
  {
    var checks := Checks(db, DeletingDevice(id));
    assert checks == [checks[0], checks[1], checks[2]];
    FirstOfThree(checks[0], checks[1], checks[2]);
    if forall l :: l in db.listeners ==> db.listeners[l].device != id {
      DeleteDeviceCommits(db, id);
    }
  }

  lemma OtherAnswers(db: Db, op: Op)
    requires Inv(db) && Possible(db, op) && !op.Creating? && !op.Updating?
    ensures Step(db, op).1 == Answer(Checks(db, op))
  {
    match op
    case Deleting(id) => DeleteAnswers(db, id);
    case SettingRange(start, end) => RangeAnswers(db, start, end);
    case DeletingDevice(id) => DeleteDeviceAnswers(db, id);
    case RecordingWake(id, waker) =>
      FirstOfOne(Checks(db, op)[0]);
      RecordCommits(db, id, waker);
    case PuttingDevice(id, device) => DevicesKeepInv(db, id, device);
    case Purging(kept) =>
    case Resuming(rows, world) =>
    case Pausing =>
  }

  lemma DeleteCommits(db: Db, id: Id)
    requires Inv(db) && forall e :: e in db.events ==> e.0 != id
    ensures Constraints(db.(listeners := db.listeners - {id}))
  {
  }

  lemma DeleteDeviceCommits(db: Db, id: Id)
    requires Inv(db) && forall l :: l in db.listeners ==> db.listeners[l].device != id
    ensures Constraints(db.(devices := db.devices - {id})) <==> forall e :: e in db.events ==> e.1 != id
  {
    if e :| e in db.events && e.1 == id {
      assert e.1 !in db.devices - {id};
    }
  }

  lemma RecordCommits(db: Db, id: Id, waker: Id)
    requires Inv(db)
    ensures Constraints(db.(events := db.events + {(id, waker)})) <==> id in db.listeners && waker in db.devices
  {
    assert (id, waker) in db.events + {(id, waker)};
  }

  /**
   In every state that can be reached, an operation is refused with the error of the first check
   that fails, in the order of the list, and accepted if and only if none does.
   */
  lemma RefusedForFirstFailure(db: Db, op: Op)
    requires Inv(db) && Possible(db, op)
    ensures Step(db, op).1 == Answer(Checks(db, op))
  {
    match op
    case Creating(id, input, requested, scan, probe) =>
      CreateAnswers(db, id, input, requested, scan, probe);
      CommitNeverViolates(db, id, 0, input, requested, 0, scan, probe);
    case Updating(id, version, input, port, probe) =>
      UpdateAnswers(db, id, version, input, port, probe);
      CommitNeverViolates(db, id, version, input, None, port, {}, probe);
    case _ => OtherAnswers(db, op);
  }

  // ------------------------------------------------------------------ one step

  /** The row holds what the accepted operation asked for. */
  ghost predicate Written(db: Db, op: Op, row: Listener) {
    && (op.Creating? || op.Updating?)
    && row.device == op.input.device && row.name == op.input.name && row.description == op.input.description
    && Some(row.source) == op.input.source && Some(row.parameters) == op.input.parameters
    && row.enabled == op.input.enabled
    && (op.Updating? ==> row.port == op.port)
    && (op.Creating? && op.requested.Some? ==> row.port == op.requested.value)
    && (op.Creating? && op.requested.None? ==> LeastFree(db, row.port, op.scan))
  }

  /** All of a row but its status and version. */
  ghost predicate SameContent(a: Listener, b: Listener) {
    a.(status := Inactive, version := 0) == b.(status := Inactive, version := 0)
  }

  predicate Touches(op: Op, id: Id) {
    (op.Creating? || op.Updating? || op.Deleting?) && op.id == id
  }

  lemma CreateWrites(db: Db, op: Op)
    requires op.Creating? && Possible(db, op) && Step(db, op).1.Accepted?
    ensures op.id in Step(db, op).0.listeners && Written(db, op, Step(db, op).0.listeners[op.id])
    ensures Step(db, op).0.listeners[op.id].version == 1 && Step(db, op).0.listeners[op.id].status == Inactive
  {
    Allocates(db, op.scan);
  }

  lemma UpdateWrites(db: Db, op: Op)
    requires op.Updating? && Possible(db, op) && Step(db, op).1.Accepted?
    ensures op.id in Step(db, op).0.listeners && Written(db, op, Step(db, op).0.listeners[op.id])
    ensures Step(db, op).0.listeners[op.id].status == Inactive
  {
  }

  lemma DeleteRemoves(db: Db, op: Op)
    requires op.Deleting? && Possible(db, op) && Step(db, op).1.Accepted?
    ensures op.id !in Step(db, op).0.listeners
  {
  }

  ghost predicate RowKept(db: Db, after: Db, id: Id) {
    && (id in after.listeners <==> id in db.listeners)
    && (id in db.listeners ==> SameContent(db.listeners[id], after.listeners[id]))
  }

  lemma WritersKeepOthers(db: Db, op: Op, id: Id)
    requires Possible(db, op) && (op.Creating? || op.Updating?) && !(Touches(op, id) && Step(db, op).1.Accepted?)
    ensures RowKept(db, Step(db, op).0, id)
  {
  }

  /** Any other operation, and a refused one, leaves the row's content alone. */
  lemma OthersKeepRow(db: Db, op: Op, id: Id)
    requires Possible(db, op) && !(Touches(op, id) && Step(db, op).1.Accepted?)
    ensures RowKept(db, Step(db, op).0, id)
  {
    match op
    case Creating(i, input, requested, scan, probe) => WritersKeepOthers(db, op, id);
    case Updating(i, version, input, port, probe) => WritersKeepOthers(db, op, id);
    case Deleting(i) =>
    case SettingRange(start, end) =>
    case PuttingDevice(i, device) =>
    case DeletingDevice(i) =>
    case RecordingWake(i, waker) =>
    case Purging(kept) =>
    case Resuming(rows, world) => WalkKeepsRows(Engine(db, map[], 0, false), rows, world);
    case Pausing =>
  }

  // ------------------------------------------------------------------- all runs

  /** The last accepted operation that created, updated or deleted the listener, and the tables it found. */
  ghost function LastTouch(db: Db, ops: seq<Op>, id: Id): Option<(Db, Op)>
    requires PossibleRun(db, ops)
    decreases |ops|
  {
    if ops == [] then None
    else
      var (next, reply) := Step(db, ops[0]);
      var later := LastTouch(next, ops[1..], id);
      if later.Some? then later
      else if Touches(ops[0], id) && reply.Accepted? then Some((db, ops[0]))
      else None
  }

  /** What a listener is, given the last operation on it and what it was to begin with. */
  ghost predicate AsTouched(db: Db, touch: Option<(Db, Op)>, end: Db, id: Id) {
    if touch.None? then RowKept(db, end, id)
    else if touch.value.1.Deleting? then id !in end.listeners
    else id in end.listeners && Written(touch.value.0, touch.value.1, end.listeners[id])
  }

  lemma TouchStep(db: Db, op: Op, end: Db, id: Id)
    requires Possible(db, op) && RowKept(Step(db, op).0, end, id)
    ensures AsTouched(db, if Touches(op, id) && Step(db, op).1.Accepted? then Some((db, op)) else None, end, id)
  {
    if Touches(op, id) && Step(db, op).1.Accepted? {
      if op.Creating? {
        CreateWrites(db, op);
      } else if op.Updating? {
        UpdateWrites(db, op);
      } else {
        DeleteRemoves(db, op);
      }
    } else {
      OthersKeepRow(db, op, id);
    }
  }

  /**
   Over every run a listener is there, with device, name, description, port, source, parameters
   and enabled flag, exactly as the last accepted operation on it left it; nothing else changes it.
   */
  lemma {:induction false} RowIsLastWritten(db: Db, ops: seq<Op>, id: Id)
    requires PossibleRun(db, ops)
    ensures AsTouched(db, LastTouch(db, ops, id), Run(db, ops), id)
    decreases |ops|
  {
    if ops != [] {
      var next := Step(db, ops[0]).0;
      RowIsLastWritten(next, ops[1..], id);
      if LastTouch(next, ops[1..], id).None? {
        TouchStep(db, ops[0], Run(db, ops), id);
      }
    }
  }

  // -- settings and devices

  /** The last accepted range, if any. */
  ghost function LastRange(db: Db, ops: seq<Op>): Option<(int, int)>
    requires PossibleRun(db, ops)
    decreases |ops|
  {
    if ops == [] then None
    else
      var (next, reply) := Step(db, ops[0]);
      var later := LastRange(next, ops[1..]);
      if later.Some? then later
      else if ops[0].SettingRange? && reply.Accepted? then Some((ops[0].start, ops[0].end))
      else None
  }

  /** What the last accepted operation on a device left: the device, or its absence. */
  ghost function LastDevice(db: Db, ops: seq<Op>, id: Id): Option<Option<Device>>
    requires PossibleRun(db, ops)
    decreases |ops|
  {
    if ops == [] then None
    else
      var (next, reply) := Step(db, ops[0]);
      var later := LastDevice(next, ops[1..], id);
      if later.Some? then later
      else match ops[0]
        case PuttingDevice(i, device) => if i == id && reply.Accepted? then Some(Some(device)) else None
        case DeletingDevice(i) => if i == id && reply.Accepted? then Some(None) else None
        case _ => None
  }

  function DeviceOf(db: Db, id: Id): Option<Device> {
    if id in db.devices then Some(db.devices[id]) else None
  }

  lemma SettingsStep(db: Db, op: Op, id: Id)
    requires Possible(db, op)
    ensures var (next, reply) := Step(db, op);
      && (next.start, next.end)
         == (if op.SettingRange? && reply.Accepted? then (op.start, op.end) else (db.start, db.end))
      && DeviceOf(next, id)
         == (if op.PuttingDevice? && op.id == id && reply.Accepted? then Some(op.device)
             else if op.DeletingDevice? && op.id == id && reply.Accepted? then None
             else DeviceOf(db, id))
      && next.publishedStart == db.publishedStart && next.publishedEnd == db.publishedEnd
  {
    match op
    case Creating(i, input, requested, scan, probe) =>
    case Updating(i, version, input, port, probe) =>
    case Deleting(i) =>
    case SettingRange(start, end) =>
    case PuttingDevice(i, device) =>
    case DeletingDevice(i) =>
    case RecordingWake(i, waker) =>
    case Purging(kept) =>
    case Resuming(rows, world) => WalkKeepsRows(Engine(db, map[], 0, false), rows, world);
    case Pausing =>
  }

  /** Over every run the range and each device are what was last accepted for them, or what they were. */
  lemma {:induction false} SettingsAreLastAccepted(db: Db, ops: seq<Op>, id: Id)
    requires PossibleRun(db, ops)
    ensures var (end, range, device) := (Run(db, ops), LastRange(db, ops), LastDevice(db, ops, id));
      && (end.start, end.end) == (if range.Some? then range.value else (db.start, db.end))
      && DeviceOf(end, id) == (if device.Some? then device.value else DeviceOf(db, id))
    decreases |ops|
  {
    if ops != [] {
      SettingsStep(db, ops[0], id);
      SettingsAreLastAccepted(Step(db, ops[0]).0, ops[1..], id);
    }
  }

  /** Whether the last operation that recorded or purged a wake event left it there. */
  ghost function LastEvent(db: Db, ops: seq<Op>, event: (Id, Id)): Option<bool>
    requires PossibleRun(db, ops)
    decreases |ops|
  {
    if ops == [] then None
    else
      var (next, reply) := Step(db, ops[0]);
      var later := LastEvent(next, ops[1..], event);
      if later.Some? then later
      else match ops[0]
        case RecordingWake(id, waker) => if (id, waker) == event && reply.Accepted? then Some(true) else None
        case Purging(kept) => if event in kept then None else Some(false)
        case _ => None
  }

  lemma EventStep(db: Db, op: Op, event: (Id, Id))
    requires Possible(db, op)
    ensures var (next, reply) := Step(db, op);
      event in next.events
      <==> (op.RecordingWake? && (op.id, op.waker) == event && reply.Accepted?)
           || (event in db.events && (op.Purging? ==> event in op.kept))
  {
    match op
    case Creating(i, input, requested, scan, probe) =>
    case Updating(i, version, input, port, probe) =>
    case Deleting(i) =>
    case SettingRange(start, end) =>
    case PuttingDevice(i, device) =>
    case DeletingDevice(i) =>
    case RecordingWake(i, waker) =>
    case Purging(kept) =>
    case Resuming(rows, world) => WalkKeepsRows(Engine(db, map[], 0, false), rows, world);
    case Pausing =>
  }

  /** Over every run a wake event is on record from its recording until a purge that does not keep it. */
  lemma {:induction false} EventsAreKeptUntilPurged(db: Db, ops: seq<Op>, event: (Id, Id))
    requires PossibleRun(db, ops)
    ensures event in Run(db, ops).events
       <==> if LastEvent(db, ops, event).Some? then LastEvent(db, ops, event).value else event in db.events
    decreases |ops|
  {
    if ops != [] {
      EventStep(db, ops[0], event);
      EventsAreKeptUntilPurged(Step(db, ops[0]).0, ops[1..], event);
    }
  }
}
