/**
 The listener services and the engine as objects. A service opens a session, changes the session's
 working copy row by row and field by field, and either commits it or raises and drops it; the
 allocator searches with a loop; the engine walks the rows one by one. Each method is tied to the
 function on states that ListenerGuarantees reasons about.
 */
module ControlPlane {
  import opened Basics
  import opened Listeners

  class Database {
    var tables: Db

    /** The migrations' defaults: ports 40000 to 40099, engine not yet started. */
    constructor (publishedStart: int, publishedEnd: int)
      ensures tables == Db(map[], map[], 40000, 40099, publishedStart, publishedEnd, {}, {}, false, Starting)
    {
      tables := Db(map[], map[], 40000, 40099, publishedStart, publishedEnd, {}, {}, false, Starting);
    }

    method Create(id: Id, input: Input, requested: Option<int>, scan: set<int>, probe: set<int>) returns (r: Reply)
      modifies this
      ensures (tables, r) == Listeners.Create(old(tables), id, input, requested, scan, probe)
    {
      var session := new Session(this);
      var error := session.AddListener(id, input, requested, scan, probe);
      r := session.Finish(error, Conflict);
    }

    method Update(id: Id, version: nat, input: Input, port: int, probe: set<int>) returns (r: Reply)
      modifies this
      ensures (tables, r) == Listeners.Update(old(tables), id, version, input, port, probe)
    {
      var session := new Session(this);
      var error := session.ChangeListener(id, version, input, port, probe);
      r := session.Finish(error, Conflict);
    }

    method Delete(id: Id) returns (r: Reply)
      modifies this
      ensures (tables, r) == Listeners.Delete(old(tables), id)
    {
      var session := new Session(this);
      if id !in session.tables.listeners {
        return Refused(NotFound);
      }
      if exists e | e in session.tables.events :: e.0 == id {
        return Refused(InUse);
      }
      session.tables := session.tables.(listeners := session.tables.listeners - {id});
      r := session.Finish(None, ConstraintViolated);
    }

    method UpdateRange(start: int, end: int) returns (r: Reply)
      modifies this
      ensures (tables, r) == Listeners.UpdateRange(old(tables), start, end)
    {
      if start < tables.publishedStart || end > tables.publishedEnd {
        return Refused(OutsidePublished);
      }
      var session := new Session(this);
      if exists id | id in session.tables.listeners ::
        session.tables.listeners[id].port < start || session.tables.listeners[id].port > end {
        return Refused(ExcludesListeners);
      }
      session.tables := session.tables.(start := start);
      session.tables := session.tables.(end := end);
      r := session.Finish(None, ConstraintViolated);
    }

    method DeleteDevice(id: Id) returns (r: Reply)
      modifies this
      ensures (tables, r) == Listeners.DeleteDevice(old(tables), id)
    {
      var session := new Session(this);
      if id !in session.tables.devices {
        return Refused(NotFound);
      }
      if exists l | l in session.tables.listeners :: session.tables.listeners[l].device == id {
        return Refused(InUse);
      }
      session.tables := session.tables.(devices := session.tables.devices - {id});
      r := session.Finish(None, ConstraintViolated);
    }

    method SetMappingStatus(id: Id, status: Status)
      requires id in tables.listeners
      modifies this
      ensures tables == SetStatus(old(tables), id, status)
    {
      tables := tables.(listeners := tables.listeners[id := tables.listeners[id].(status := status)]);
    }

    method Heartbeat(desired: bool, seen: Observed)
      modifies this
      ensures tables == old(tables).(desiredActive := desired, observed := seen)
    {
      tables := tables.(desiredActive := desired, observed := seen);
    }
  }

  /** A transaction: its blocks change `tables` in place and touch nothing of the database. */
  class Session {
    const database: Database
    var tables: Db

    constructor (database: Database)
      ensures this.database == database && tables == database.tables
    {
      this.database, tables := database, database.tables;
    }

    /** Leave the block: a raise drops the working copy, and so does a commit the database rejects. */
    method Finish(error: Option<Error>, violation: Error) returns (r: Reply)
      modifies database
      ensures (database.tables, r) == Commit(old(database.tables), Work(tables, error), violation)
    {
      if error.Some? {
        return Refused(error.value);
      }
      if !Constraints(tables) {
        return Refused(violation);
      }
      database.tables := tables;
      return Accepted;
    }

    method AllocatePort(busy: set<int>) returns (port: Option<int>)
      ensures port == FirstFree(tables.start, tables.end, Used(tables), busy)
    {
      var used := set id | id in tables.listeners :: tables.listeners[id].port;
      var candidate := tables.start;
      while candidate <= tables.end
        invariant FirstFree(tables.start, tables.end, used, busy) == FirstFree(candidate, tables.end, used, busy)
        decreases tables.end - candidate
      {
        if candidate !in used && candidate !in busy {
          return Some(candidate);
        }
        candidate := candidate + 1;
      }
      return None;
    }

    method AddListener(id: Id, input: Input, requested: Option<int>, scan: set<int>, probe: set<int>)
      returns (error: Option<Error>)
      modifies this
      ensures Work(tables, error) == CreateWork(old(tables), id, input, requested, scan, probe)
    {
      if input.source.None? {
        return Some(Invalid("invalid_allowed_source_ip"));
      }
      error := CheckInput(tables, input);
      if error.Some? {
        return;
      }
      var port := requested;
      if port.None? {
        port := AllocatePort(scan);
        if port.None? {
          return Some(Conflict);
        }
      }
      error := ValidatePort(tables, port.value, {});
      if error.Some? {
        return;
      }
      if port.value in probe {
        return Some(Conflict);
      }
      if input.name == "" {
        return Some(Invalid("listener_name_required"));
      }
      tables := tables.(listeners := tables.listeners[id := Row(input, port.value, 1)], issued := tables.issued + {id});
    }

    /** One assignment to the row `id` of a working copy that differs from `base` there at most. */
    method Assign(ghost base: Db, id: Id, row: Listener)
      requires id in tables.listeners && tables == base.(listeners := base.listeners[id := tables.listeners[id]])
      modifies this
      ensures tables == base.(listeners := base.listeners[id := row])
    {
      tables := tables.(listeners := tables.listeners[id := row]);
      assert tables.listeners == base.listeners[id := row];
    }

    /** The row as the update wants it, field by field. */
    method AssignFields(id: Id, input: Input, port: int)
      requires id in tables.listeners && input.source.Some? && input.parameters.Some?
      modifies this
      ensures tables == old(tables).(listeners :=
        old(tables.listeners)[id := Row(input, port, old(tables.listeners[id].version) + 1)])
    {
      ghost var base := tables;
      assert base.listeners == base.listeners[id := base.listeners[id]];
      Assign(base, id, tables.listeners[id].(device := input.device));
      Assign(base, id, tables.listeners[id].(name := input.name));
      Assign(base, id, tables.listeners[id].(description := input.description));
      Assign(base, id, tables.listeners[id].(port := port));
      Assign(base, id, tables.listeners[id].(source := input.source.value));
      Assign(base, id, tables.listeners[id].(parameters := input.parameters.value));
      Assign(base, id, tables.listeners[id].(enabled := input.enabled));
      Assign(base, id, tables.listeners[id].(status := Inactive));
      Assign(base, id, tables.listeners[id].(version := tables.listeners[id].version + 1));
    }

    /** The row is changed first and the name looked at last: on that raise the working copy is already dirty. */
    method ChangeListener(id: Id, version: nat, input: Input, port: int, probe: set<int>) returns (error: Option<Error>)
      modifies this
      ensures Work(tables, error) == UpdateWork(old(tables), id, version, input, port, probe)
    {
      if input.source.None? {
        return Some(Invalid("invalid_allowed_source_ip"));
      }
      if id !in tables.listeners {
        return Some(NotFound);
      }
      if tables.listeners[id].version != version {
        return Some(StaleVersion);
      }
      error := CheckInput(tables, input);
      if error.Some? {
        return;
      }
      error := ValidatePort(tables, port, {id});
      if error.Some? {
        return;
      }
      if port != tables.listeners[id].port && port in probe {
        return Some(Conflict);
      }
      AssignFields(id, input, port);
      if tables.listeners[id].name == "" {
        return Some(Invalid("listener_name_required"));
      }
    }
  }

  class EngineRuntime {
    const database: Database
    var bound: map<Id, int>

    constructor (database: Database)
      ensures this.database == database && bound == map[]
    {
      this.database, bound := database, map[];
    }

    method CloseAll()
      modifies this
      ensures bound == map[]
    {
      bound := map[];
    }

    /** `rows` is the query's answer, in the order it came; whatever was bound is closed first. */
    method Resume(rows: seq<Id>, world: World) returns (failures: nat, raised: bool)
      requires forall id :: id in rows ==> id in database.tables.listeners
      modifies this, database
      ensures Engine(database.tables, bound, failures, raised) == Listeners.Resume(old(database.tables), rows, world)
    {
      CloseAll();
      failures, raised := 0, false;
      ghost var closed := Engine(old(database.tables), map[], 0, false);
      for i := 0 to |rows|
        invariant Engine(database.tables, bound, failures, raised) == BindRows(closed, rows[..i], world)
        invariant !raised
      {
        assert rows[..i + 1][..i] == rows[..i] && rows[i] in rows;
        failures, raised := Bind(rows[i], world, failures);
        if raised {
          RaisedAtPrefix(closed, rows, i + 1, world);
          return;
        }
      }
      assert rows[..|rows|] == rows;
      database.Heartbeat(true, if failures == 0 then Running else Degraded(failures));
    }

    /** One row: prepare, bind, record. */
    method Bind(id: Id, world: World, before: nat) returns (failures: nat, raised: bool)
      requires id in database.tables.listeners
      modifies this, database
      ensures Engine(database.tables, bound, failures, raised)
           == BindRow(Engine(old(database.tables), old(bound), before, false), id, world)
    {
      failures, raised := before, false;
      var port := database.tables.listeners[id].port;
      match Prepare(database.tables, id, world)
      case Uncaught =>
        raised := true;
      case Unusable(reason) =>
        database.SetMappingStatus(id, Failing(reason));
        failures := failures + 1;
      case Ready =>
        if port in world.held || port in bound.Values {
          database.SetMappingStatus(id, Failing("port_bind_failed"));
          failures := failures + 1;
        } else {
          bound := bound[id := port];
          database.SetMappingStatus(id, Active);
        }
    }

    static lemma {:induction false} RaisedAtPrefix(e: Engine, rows: seq<Id>, n: nat, world: World)
      requires n <= |rows| && forall id :: id in rows ==> id in e.db.listeners
      requires BindRows(e, rows[..n], world).raised
      ensures BindRows(e, rows, world) == BindRows(e, rows[..n], world)
    {
      if n < |rows| {
        assert rows[..|rows| - 1][..n] == rows[..n];
        RaisedAtPrefix(e, rows[..|rows| - 1], n, world);
      } else {
        assert rows[..n] == rows;
      }
    }

    method Pause()
      modifies this, database
      ensures Engine(database.tables, bound, 0, false) == Listeners.Pause(old(database.tables))
    {
      CloseAll();
      database.tables := database.tables.(listeners := map id | id in database.tables.listeners ::
        if database.tables.listeners[id].status == Active then database.tables.listeners[id].(status := Inactive)
        else database.tables.listeners[id]);
      database.Heartbeat(false, Paused);
    }

    method ReconcileIfActive(rows: seq<Id>, world: World) returns (failures: nat, raised: bool)
      requires forall id :: id in rows ==> id in database.tables.listeners
      modifies this, database
      ensures if old(database.tables.desiredActive)
        then Engine(database.tables, bound, failures, raised) == Listeners.Resume(old(database.tables), rows, world)
        else database.tables == old(database.tables) && bound == old(bound) && failures == 0 && !raised
    {
      failures, raised := 0, false;
      if database.tables.desiredActive {
        failures, raised := Resume(rows, world);
      }
    }
  }
}
