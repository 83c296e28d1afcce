/**
 The host agent's controller as the object it is: fields changed step by step, exceptions as
 outcomes, compensation in the failing branch. Each method is tied to the function on host states
 that HostGuarantees and HostRuns reason about.
 */
module HostControl {
  import opened Basics
  import opened EnvFile
  import opened RuntimeFiles
  import opened HostJobs
  import opened JobTable

  class HostController {
    const config: Config
    var env: seq<string>
    var files: Files
    var database: string
    var rules: set<Rule>
    var databaseBackups: map<nat, string>
    var runtimeBackups: map<nat, Snapshot>
    var record: Record

    function State(): Host
      reads this
    {
      Host(env, files, database, rules, databaseBackups, runtimeBackups, record)
    }

    constructor (config: Config, env: seq<string>, files: Files, database: string)
      ensures this.config == config
      ensures State() == Host(env, files, database, {}, map[], map[], Record(None, None, None, None))
    {
      this.config, this.env, this.files, this.database := config, env, files, database;
      rules, databaseBackups, runtimeBackups := {}, map[], map[];
      record := Record(None, None, None, None);
    }

    method Write(next: Record, write: bool) returns (r: Outcome)
      modifies this`record
      ensures (State(), r) == SetRecord(old(State()), next, write)
    {
      if !write {
        return Raised("host_operation_failed");
      }
      record := next;
      return Done;
    }

    method UpdateEnv(changes: seq<Setting>, edit: bool) returns (r: Outcome)
      modifies this`env
      ensures (State(), r) == HostJobs.UpdateEnv(old(State()), changes, edit)
    {
      if !edit {
        return Raised("host_operation_failed");
      }
      env := EditLines(env, changes);
      return Done;
    }

    method ApplyFirewall(rule: Rule, fx: FirewallEffects) returns (r: Outcome)
      modifies this`rules, this`record
      ensures (State(), r) == HostJobs.ApplyFirewall(old(State()), rule, fx)
    {
      if !ValidRange(rule.start, rule.end) {
        return Raised(RangeError(rule.start, rule.end));
      }
      if record.firewall.Some? && record.firewall.value != rule {
        if !fx.remove {
          return Raised("firewall_command_failed");
        }
        rules := rules - {record.firewall.value};
      }
      if !fx.add {
        return Raised("firewall_command_failed");
      }
      rules := rules + {rule};
      r := Write(record.(firewall := Some(rule)), fx.write);
    }

    method RequestFirewall(request: DeploymentRequest, fx: FirewallEffects) returns (r: Outcome)
      modifies this`rules, this`record
      ensures (State(), r) == HostJobs.RequestFirewall(old(State()), request, fx)
    {
      if request.source.None? {
        return Raised("invalid_firewall_source_ip");
      }
      r := ApplyFirewall(Rule(request.source.value, request.start, request.end), fx);
    }

    method RemoveFirewall(fx: FirewallEffects) returns (r: Outcome)
      modifies this`rules, this`record
      ensures (State(), r) == HostJobs.RemoveFirewall(old(State()), fx)
    {
      if record.firewall.None? {
        return Done;
      }
      if !fx.remove {
        return Raised("firewall_command_failed");
      }
      rules := rules - {record.firewall.value};
      r := Write(record.(firewall := None), fx.write);
    }

    method ResetFirewall(previous: Option<Rule>, fx: FirewallEffects) returns (r: Outcome)
      modifies this`rules, this`record
      ensures (State(), r) == HostJobs.ResetFirewall(old(State()), previous, fx)
    {
      if previous.Some? {
        r := ApplyFirewall(previous.value, fx);
      } else {
        r := RemoveFirewall(fx);
      }
    }

    method DatabaseRestore(backup: nat, fx: DatabaseEffects) returns (r: Outcome)
      modifies this`database
      ensures (State(), r) == HostJobs.DatabaseRestore(old(State()), backup, fx)
    {
      if backup !in databaseBackups {
        return Raised("database_backup_unavailable");
      }
      match fx
      case Restored =>
        database := databaseBackups[backup];
        return Done;
      case Refused =>
        return Raised("database_restore_failed");
      case Damaged(left) =>
        database := left;
        return Raised("database_restore_failed");
    }

    /** Copy the slots at `paths` aside, absent ones as None. */
    method TakeSnapshot(paths: seq<Path>) returns (snapshot: Snapshot)
      ensures snapshot == Snap(files, paths)
    {
      snapshot := [];
      for i := 0 to |paths|
        invariant |snapshot| == i
        invariant forall k :: 0 <= k < i ==> snapshot[k] == Get(files, paths[k])
      {
        snapshot := snapshot + [Get(files, paths[i])];
      }
    }

    /** Write the managed slots one after the other until one raises. */
    method WriteSlots(contents: Snapshot, fault: Fault) returns (ok: bool)
      requires |contents| == SLOTS
      modifies this`files
      ensures (files, ok) == WriteAll(old(files), Managed(config), contents, fault)
    {
      var paths := Managed(config);
      var i := 0;
      while i < |paths|
        invariant i <= |paths|
        invariant WriteFrom(files, paths, contents, fault, i) == WriteAll(old(files), paths, contents, fault)
      {
        if RaisesAt(fault, i, contents[i]) {
          if i >= FILE_SLOTS {
            files := Put(files, paths[i], fault.left);
          }
          return false;
        }
        files := Put(files, paths[i], contents[i]);
        i := i + 1;
      }
      return true;
    }

    method RestoreRuntime(backup: nat, fault: Fault) returns (r: Outcome)
      modifies this`files
      ensures (State(), r) == HostJobs.RestoreRuntime(config, old(State()), backup, fault)
    {
      if backup !in runtimeBackups || |runtimeBackups[backup]| != SLOTS {
        return Raised("runtime_backup_unavailable");
      }
      var ok := WriteSlots(runtimeBackups[backup], fault);
      return if ok then Done else Raised("host_operation_failed");
    }

    method DeployRuntime(bundle: Snapshot, fx: UpgradeEffects) returns (r: Outcome)
      requires |bundle| == SLOTS
      modifies this`files, this`runtimeBackups
      ensures (State(), r) == HostJobs.DeployRuntime(config, old(State()), bundle, fx)
    {
      if !fx.snapshot {
        return Raised("host_operation_failed");
      }
      var snapshot := TakeSnapshot(BackedUp(config));
      runtimeBackups := runtimeBackups[fx.snapshotId := snapshot];
      var ok := WriteSlots(bundle, fx.copy);
      if !ok {
        var _ := RestoreRuntime(fx.snapshotId, fx.unwind);
        return Raised("host_operation_failed");
      }
      return Done;
    }

    method Deployment(request: DeploymentRequest, fx: DeploymentEffects) returns (r: Outcome)
      modifies this`env, this`rules, this`record
      ensures (State(), r) == HostJobs.Deployment(old(State()), request, fx)
    {
      var DeploymentRequest(source, start, end) := request;
      if source.None? {
        return Raised("invalid_firewall_source_ip");
      }
      if !ValidRange(start, end) {
        return Raised(RangeError(start, end));
      }
      var prior := OldRange(env);
      var previous := record.firewall;
      :- UpdateEnv(RangeSettings(Str(start), Str(end)), fx.edit);
      :- ApplyFirewall(Rule(source.value, start, end), fx.firewall);
      if !fx.compose {
        return Raised("host_command_failed");
      }
      if !fx.healthy {
        r := UndoDeployment(prior, previous, fx);
        return;
      }
      r := Write(record.(deployment := Some((start, end)),
                         rollback := Some(RollbackPoint(prior, None, None, Some(previous)))), fx.write);
    }

    method UndoDeployment(prior: seq<Setting>, previous: Option<Rule>, fx: DeploymentEffects) returns (r: Outcome)
      modifies this`env, this`rules, this`record
      ensures (State(), r) == HostJobs.UndoDeployment(old(State()), prior, previous, fx)
    {
      r := UpdateEnv(prior, fx.undoEdit);
      if r.Raised? {
        return;
      }
      :- ResetFirewall(previous, fx.undoFirewall);
      if !fx.undoCompose {
        return Raised("host_command_failed");
      }
      return Raised("deployment_health_check_failed");
    }

    method Upgrade(request: UpgradeRequest, fx: UpgradeEffects) returns (r: Outcome)
      modifies this
      ensures (State(), r) == HostJobs.Upgrade(config, old(State()), request, fx)
    {
      if !Ready(State(), request, fx) {
        return Raised(NotReadyError(State(), request, fx));
      }
      var prior := OldSettings(State(), OldImage(State(), fx).value);
      r := Install(request, fx, prior);
      if r.Raised? {
        return;
      }
      if record.rollback.Some? && record.rollback.value.databaseBackup.Some? {
        databaseBackups := databaseBackups - {record.rollback.value.databaseBackup.value};
      }
      if record.rollback.Some? && record.rollback.value.runtimeBackup.Some? {
        runtimeBackups := runtimeBackups - {record.rollback.value.runtimeBackup.value};
      }
      r := Write(record.(rollback := Some(RollbackPoint(prior, Some(fx.dumpId), Some(fx.snapshotId), None)),
                         lastSuccessful := Some(fx.verified.value)), fx.write);
    }

    method Install(request: UpgradeRequest, fx: UpgradeEffects, prior: seq<Setting>) returns (r: Outcome)
      requires Ready(State(), request, fx)
      modifies this
      ensures (State(), r) == HostJobs.Install(config, old(State()), request, fx, prior)
    {
      if !fx.dump {
        return Raised("database_backup_failed");
      }
      databaseBackups := databaseBackups[fx.dumpId := database];
      :- DeployRuntime(fx.bundle.value, fx);
      r := Start(ImageSettings(fx.verified.value, Canonical(request.version)), fx);
      if r.Raised? {
        Compensate(prior, fx);
      }
    }

    method Start(settings: seq<Setting>, fx: UpgradeEffects) returns (r: Outcome)
      modifies this`env, this`database
      ensures (State(), r) == HostJobs.Start(old(State()), settings, fx)
    {
      r := UpdateEnv(settings, fx.edit);
      if r.Raised? {
        return;
      }
      database := fx.migrated;
      if !fx.compose {
        return Raised("host_command_failed");
      }
      if !fx.healthy {
        return Raised("upgrade_health_check_failed");
      }
      return Done;
    }

    method Compensate(prior: seq<Setting>, fx: UpgradeEffects)
      modifies this`env, this`files, this`database
      ensures State() == HostJobs.Compensate(config, old(State()), prior, fx)
    {
      var step := UpdateEnv(prior, fx.undoEdit);
      if step.Done? {
        step := RestoreRuntime(fx.snapshotId, fx.undoFiles);
        if step.Done? {
          var _ := DatabaseRestore(fx.dumpId, fx.undoDatabase);
        }
      }
    }

    method Rollback(fx: RollbackEffects) returns (r: Outcome)
      modifies this
      ensures (State(), r) == HostJobs.Rollback(config, old(State()), fx)
    {
      if record.rollback.None? || record.rollback.value.env == [] {
        return Raised("rollback_not_available");
      }
      var point := record.rollback.value;
      :- UpdateEnv(point.env, fx.edit);
      :- RestoreBackups(point, fx);
      r := FinishRollback(point, fx);
    }

    method RestoreBackups(point: RollbackPoint, fx: RollbackEffects) returns (r: Outcome)
      modifies this`files, this`database
      ensures (State(), r) == HostJobs.RestoreBackups(config, old(State()), point, fx)
    {
      r := Done;
      if point.runtimeBackup.Some? {
        :- RestoreRuntime(point.runtimeBackup.value, fx.files);
      }
      if point.databaseBackup.Some? {
        r := DatabaseRestore(point.databaseBackup.value, fx.database);
      }
    }

    method FinishRollback(point: RollbackPoint, fx: RollbackEffects) returns (r: Outcome)
      modifies this`rules, this`record
      ensures (State(), r) == HostJobs.FinishRollback(old(State()), point, fx)
    {
      if point.firewall.Some? {
        :- ResetFirewall(point.firewall.value, fx.firewall);
      }
      if !fx.compose {
        return Raised("host_command_failed");
      }
      if !fx.healthy {
        return Raised("rollback_health_check_failed");
      }
      return Done;
    }
  }

  /** A job thread: run the operation, then save how it ended. */
  method ExecuteJob(controller: HostController, store: JobStore, id: nat, job: Job, writes: EndWrites)
    returns (r: Outcome)
    requires job.Deploy? || job.Upgrading? || job.RollingBack?
    modifies controller, store
    ensures (controller.State(), r) == Step(controller.config, old(controller.State()), job)
    ensures store.State() == FinishJob(old(store.State()), id, OperationOf(job), r, writes)
  {
    match job {
      case Deploy(request, fx) => r := controller.Deployment(request, fx);
      case Upgrading(request, fx) => r := controller.Upgrade(request, fx);
      case RollingBack(fx) => r := controller.Rollback(fx);
    }
    store.Finish(id, OperationOf(job), r, writes);
  }
}
