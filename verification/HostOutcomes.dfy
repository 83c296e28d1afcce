/**
 How the host agent's jobs end, said of their steps alone: each job raises the error of the first
 step that fails, in the order in which it takes them, and succeeds if and only if none does.
 */
module HostOutcomes {
  import opened Basics
  import opened EnvFile
  import opened RuntimeFiles
  import opened HostJobs
  import opened HostGuarantees

  type Steps = seq<(bool, string)>

  function Ending(steps: Steps): Outcome {
    var failure := FirstFailure(steps);
    if failure.Some? then Raised(failure.value) else Done
  }

  lemma Then(a: Steps, b: Steps)
    ensures Ending(a + b) == if Ending(a).Raised? then Ending(a) else Ending(b)
  {
    FirstOfTwo(a, b);
  }

  lemma OneStep(a: (bool, string))
    ensures Ending([a]) == if a.0 then Done else Raised(a.1)
  {
    FirstOfOne(a);
  }

  lemma ThreeSteps(a: (bool, string), b: (bool, string), c: (bool, string))
    ensures Ending([a, b, c])
         == if !a.0 then Raised(a.1) else if !b.0 then Raised(b.1) else if !c.0 then Raised(c.1) else Done
    ensures Ending([a, b]) == if !a.0 then Raised(a.1) else if !b.0 then Raised(b.1) else Done
  {
    FirstOfThree(a, b, c);
  }

  // ---------------------------------------------------------------- slot writes

  /** The slot at which the writes raise, or their number: a file, or a directory that is to be there. */
  function WriteStop(contents: Snapshot, fault: Fault): nat {
    if fault.Breaks? && fault.step < |contents| && (fault.step < 3 || contents[fault.step].Some?) then fault.step
    else |contents|
  }

  lemma {:induction false} WritesEnd(files: Files, paths: seq<Path>, contents: Snapshot, fault: Fault, i: nat)
    requires |contents| == |paths| && i <= |paths|
    ensures WriteFrom(files, paths, contents, fault, i).1
       <==> WriteStop(contents, fault) == |paths| || WriteStop(contents, fault) < i
    decreases |paths| - i
  {
    if i < |paths| && !RaisesAt(fault, i, contents[i]) {
      WritesEnd(Put(files, paths[i], contents[i]), paths, contents, fault, i + 1);
    }
  }

  lemma {:induction false} WritesLeaveFrom(files: Files, paths: seq<Path>, contents: Snapshot, fault: Fault, i: nat, j: nat)
    requires |contents| == |paths| && i <= |paths| && Distinct(paths) && j < |paths| && i <= WriteStop(contents, fault)
    ensures Get(WriteFrom(files, paths, contents, fault, i).0, paths[j])
         == if j < i then Get(files, paths[j])
            else if j < WriteStop(contents, fault) then contents[j]
            else if j == WriteStop(contents, fault) && j >= 3 then fault.left
            else Get(files, paths[j])
    decreases |paths| - i
  {
    if i < |paths| && !RaisesAt(fault, i, contents[i]) {
      WritesLeaveFrom(Put(files, paths[i], contents[i]), paths, contents, fault, i + 1, j);
    }
  }

  /** Slots before the fault hold the new contents, those after it the old; a broken directory holds what is left. */
  lemma WritesLeave(files: Files, paths: seq<Path>, contents: Snapshot, fault: Fault, j: nat)
    requires |contents| == |paths| && Distinct(paths) && j < |paths|
    ensures Get(WriteAll(files, paths, contents, fault).0, paths[j])
         == if j < WriteStop(contents, fault) then contents[j]
            else if j == WriteStop(contents, fault) && j >= 3 then fault.left
            else Get(files, paths[j])
    ensures WriteAll(files, paths, contents, fault).1 <==> WriteStop(contents, fault) == |paths|
  {
    WritesLeaveFrom(files, paths, contents, fault, 0, j);
    WritesEnd(files, paths, contents, fault, 0);
  }

  // ------------------------------------------------------------------- firewall

  function RangeSteps(start: int, end: int): Steps {
    [(1024 <= start <= end <= 65535, "invalid_published_udp_range"), (end - start < 100, "published_udp_range_too_wide")]
  }

  function ApplySteps(recorded: Option<Rule>, rule: Rule, fx: FirewallEffects): Steps {
    RangeSteps(rule.start, rule.end)
    + [(recorded.None? || recorded.value == rule || fx.remove, "firewall_command_failed"),
       (fx.add, "firewall_command_failed"), (fx.write, "host_operation_failed")]
  }

  function RemoveSteps(recorded: Option<Rule>, fx: FirewallEffects): Steps {
    [(recorded.None? || fx.remove, "firewall_command_failed"), (recorded.None? || fx.write, "host_operation_failed")]
  }

  function ResetSteps(recorded: Option<Rule>, previous: Option<Rule>, fx: FirewallEffects): Steps {
    if previous.Some? then ApplySteps(recorded, previous.value, fx) else RemoveSteps(recorded, fx)
  }

  lemma RangeEnds(start: int, end: int)
    ensures Ending(RangeSteps(start, end)) == if ValidRange(start, end) then Done else Raised(RangeError(start, end))
  {
    var steps := RangeSteps(start, end);
    assert steps == [steps[0], steps[1]];
    ThreeSteps(steps[0], steps[1], steps[1]);
  }

  lemma ApplyEnds(h: Host, rule: Rule, fx: FirewallEffects)
    ensures ApplyFirewall(h, rule, fx).1 == Ending(ApplySteps(h.record.firewall, rule, fx))
  {
    var range := RangeSteps(rule.start, rule.end);
    var rest := ApplySteps(h.record.firewall, rule, fx)[2..];
    assert ApplySteps(h.record.firewall, rule, fx) == range + rest && rest == [rest[0], rest[1], rest[2]];
    Then(range, rest);
    RangeEnds(rule.start, rule.end);
    ThreeSteps(rest[0], rest[1], rest[2]);
  }

  lemma RemoveEnds(h: Host, fx: FirewallEffects)
    ensures RemoveFirewall(h, fx).1 == Ending(RemoveSteps(h.record.firewall, fx))
  {
    var steps := RemoveSteps(h.record.firewall, fx);
    assert steps == [steps[0], steps[1]];
    ThreeSteps(steps[0], steps[1], steps[1]);
  }

  lemma ResetEnds(h: Host, previous: Option<Rule>, fx: FirewallEffects)
    ensures ResetFirewall(h, previous, fx).1 == Ending(ResetSteps(h.record.firewall, previous, fx))
  {
    if previous.Some? {
      ApplyEnds(h, previous.value, fx);
    } else {
      RemoveEnds(h, fx);
    }
  }

  // ------------------------------------------------------------------- rollback

  function FilesSteps(h: Host, backup: Option<nat>, fault: Fault): Steps {
    if backup.None? then []
    else
      var there := backup.value in h.runtimeBackups && |h.runtimeBackups[backup.value]| == 5;
      [(there, "runtime_backup_unavailable"),
       (there && WriteStop(h.runtimeBackups[backup.value], fault) == 5, "host_operation_failed")]
  }

  function DatabaseSteps(h: Host, backup: Option<nat>, fx: DatabaseEffects): Steps {
    if backup.None? then []
    else
      [(backup.value in h.databaseBackups, "database_backup_unavailable"), (fx.Restored?, "database_restore_failed")]
  }

  function RestoreSteps(h: Host, point: RollbackPoint, fx: RollbackEffects): Steps {
    FilesSteps(h, point.runtimeBackup, fx.files) + DatabaseSteps(h, point.databaseBackup, fx.database)
  }

  function FinishSteps(recorded: Option<Rule>, point: RollbackPoint, fx: RollbackEffects): Steps {
    (if point.firewall.Some? then ResetSteps(recorded, point.firewall.value, fx.firewall) else [])
    + [(fx.compose, "host_command_failed"), (fx.healthy, "rollback_health_check_failed")]
  }

  /** Point, env, files, database, firewall, compose, health. */
  function RollbackSteps(h: Host, fx: RollbackEffects): Steps {
    if h.record.rollback.None? || h.record.rollback.value.env == [] then [(false, "rollback_not_available")]
    else
      var point := h.record.rollback.value;
      [(fx.edit, "host_operation_failed")] + (RestoreSteps(h, point, fx) + FinishSteps(h.record.firewall, point, fx))
  }

  lemma FilesEnd(config: Config, h: Host, backup: nat, fault: Fault)
    ensures RestoreRuntime(config, h, backup, fault).1 == Ending(FilesSteps(h, Some(backup), fault))
  {
    var files := FilesSteps(h, Some(backup), fault);
    assert files == [files[0], files[1]];
    ThreeSteps(files[0], files[1], files[1]);
    if files[0].0 {
      WritesEnd(h.files, Managed(config), h.runtimeBackups[backup], fault, 0);
    }
  }

  lemma DatabaseEnds(h: Host, backup: nat, fx: DatabaseEffects)
    ensures DatabaseRestore(h, backup, fx).1 == Ending(DatabaseSteps(h, Some(backup), fx))
  {
    var database := DatabaseSteps(h, Some(backup), fx);
    assert database == [database[0], database[1]];
    ThreeSteps(database[0], database[1], database[1]);
  }

  lemma RestoreEnds(config: Config, h: Host, point: RollbackPoint, fx: RollbackEffects)
    ensures RestoreBackups(config, h, point, fx).1 == Ending(RestoreSteps(h, point, fx))
  {
    var files, database := FilesSteps(h, point.runtimeBackup, fx.files), DatabaseSteps(h, point.databaseBackup, fx.database);
    Then(files, database);
    var h1 := h;
    if point.runtimeBackup.Some? {
      FilesEnd(config, h, point.runtimeBackup.value, fx.files);
      h1 := RestoreRuntime(config, h, point.runtimeBackup.value, fx.files).0;
      RestoreFrame(config, h, point.runtimeBackup.value, fx.files);
    }
    if point.databaseBackup.Some? {
      DatabaseEnds(h1, point.databaseBackup.value, fx.database);
    }
  }

  lemma FinishEnds(h: Host, point: RollbackPoint, fx: RollbackEffects)
    ensures FinishRollback(h, point, fx).1 == Ending(FinishSteps(h.record.firewall, point, fx))
  {
    var firewall := if point.firewall.Some? then ResetSteps(h.record.firewall, point.firewall.value, fx.firewall) else [];
    var last := [(fx.compose, "host_command_failed"), (fx.healthy, "rollback_health_check_failed")];
    Then(firewall, last);
    ThreeSteps(last[0], last[1], last[1]);
    if point.firewall.Some? {
      ResetEnds(h, point.firewall.value, fx.firewall);
    }
  }

  /** A rollback ends as its first failing step says. */
  lemma RollbackEnds(config: Config, h: Host, fx: RollbackEffects)
    ensures Rollback(config, h, fx).1 == Ending(RollbackSteps(h, fx))
  {
    if h.record.rollback.None? || h.record.rollback.value.env == [] {
      OneStep((false, "rollback_not_available"));
    } else {
      var point := h.record.rollback.value;
      Then([(fx.edit, "host_operation_failed")], RestoreSteps(h, point, fx) + FinishSteps(h.record.firewall, point, fx));
      OneStep((fx.edit, "host_operation_failed"));
      if fx.edit {
        EditedEnds(config, h, UpdateEnv(h, point.env, true).0, point, fx);
      }
    }
  }

  lemma EditedEnds(config: Config, h: Host, h1: Host, point: RollbackPoint, fx: RollbackEffects)
    requires h1 == h.(env := h1.env)
    ensures var (h2, restored) := RestoreBackups(config, h1, point, fx);
      (if restored.Raised? then restored else FinishRollback(h2, point, fx).1)
      == Ending(RestoreSteps(h, point, fx) + FinishSteps(h.record.firewall, point, fx))
  {
    Then(RestoreSteps(h, point, fx), FinishSteps(h.record.firewall, point, fx));
    RestoreEnds(config, h1, point, fx);
    RestoreBackupsFrame(config, h1, point, fx);
    FinishEnds(RestoreBackups(config, h1, point, fx).0, point, fx);
    SameSteps(h, h1, point, fx);
  }

  lemma SameSteps(h: Host, h1: Host, point: RollbackPoint, fx: RollbackEffects)
    requires h1 == h.(env := h1.env)
    ensures RestoreSteps(h1, point, fx) == RestoreSteps(h, point, fx)
  {
  }

  ghost predicate RestoreWorks(h: Host, point: RollbackPoint, fx: RollbackEffects)
    requires PointUsable(h, point)
  {
    && (point.runtimeBackup.Some? ==> WriteStop(h.runtimeBackups[point.runtimeBackup.value], fx.files) == 5)
    && (point.databaseBackup.Some? ==> fx.database.Restored?)
  }

  /** The remembered rule is added and recorded, another one removed; or the recorded one removed. */
  predicate ResetWorks(recorded: Option<Rule>, previous: Option<Rule>, fx: FirewallEffects) {
    if previous.Some? then fx.add && fx.write && (recorded.Some? && recorded != previous ==> fx.remove)
    else recorded.Some? ==> fx.remove && fx.write
  }

  lemma RestoreSucceedsIff(config: Config, h: Host, point: RollbackPoint, fx: RollbackEffects)
    requires PointUsable(h, point)
    ensures RestoreBackups(config, h, point, fx).1.Done? <==> RestoreWorks(h, point, fx)
  {
    if point.runtimeBackup.Some? {
      WritesEnd(h.files, Managed(config), h.runtimeBackups[point.runtimeBackup.value], fx.files, 0);
    }
  }

  /** A usable point is reached exactly when everything the rollback asks for succeeds. */
  lemma RollbackSucceedsIff(config: Config, h: Host, fx: RollbackEffects)
    requires Usable(h) && h.record.rollback.Some?
    ensures var point := h.record.rollback.value;
      Rollback(config, h, fx).1.Done?
      <==> && fx.edit && RestoreWorks(h, point, fx)
           && (point.firewall.Some? ==> ResetWorks(h.record.firewall, point.firewall.value, fx.firewall))
           && fx.compose && fx.healthy
  {
    var point := h.record.rollback.value;
    var h1 := UpdateEnv(h, point.env, true).0;
    OwnSettingsMap(point.env);
    RestoreSucceedsIff(config, h1, point, fx);
    RestoreBackupsFrame(config, h1, point, fx);
    FinishSucceedsIff(RestoreBackups(config, h1, point, fx).0, point, fx);
  }

  lemma FinishSucceedsIff(h: Host, point: RollbackPoint, fx: RollbackEffects)
    requires point.firewall.Some? && point.firewall.value.Some? ==>
      ValidRange(point.firewall.value.value.start, point.firewall.value.value.end)
    ensures FinishRollback(h, point, fx).1.Done?
       <==> && (point.firewall.Some? ==> ResetWorks(h.record.firewall, point.firewall.value, fx.firewall))
            && fx.compose && fx.healthy
  {
  }

  /**
   How far a failing rollback gets: nothing before env is edited; files as far as they were
   written; the database as the restore left it; the firewall only after both.
   */
  lemma RollbackStopsShort(config: Config, h: Host, fx: RollbackEffects)
    requires Usable(h) && h.record.rollback.Some?
    ensures var (after, point) := (Rollback(config, h, fx).0, h.record.rollback.value);
      && (!fx.edit ==> after == h)
      && (fx.edit ==> after.env == Rewrite(h.env, point.env))
      && (fx.edit && point.runtimeBackup.Some? ==>
            after.files == WriteAll(h.files, Managed(config), h.runtimeBackups[point.runtimeBackup.value], fx.files).0)
      && (fx.edit && !RestoreWorks(h, point, fx) ==> after.rules == h.rules && after.record == h.record)
      && (fx.edit && point.databaseBackup.Some? && fx.database.Damaged?
          && (point.runtimeBackup.Some? ==> WriteStop(h.runtimeBackups[point.runtimeBackup.value], fx.files) == 5) ==>
            after.database == fx.database.left)
  {
    var point := h.record.rollback.value;
    var h1 := UpdateEnv(h, point.env, true).0;
    OwnSettingsMap(point.env);
    RestoreSucceedsIff(config, h1, point, fx);
    RestoreLeaves(config, h1, point, fx);
    FinishRollbackFrame(RestoreBackups(config, h1, point, fx).0, point, fx);
  }

  lemma RestoreLeaves(config: Config, h: Host, point: RollbackPoint, fx: RollbackEffects)
    requires PointUsable(h, point)
    ensures var after := RestoreBackups(config, h, point, fx).0;
      && after == h.(files := after.files, database := after.database)
      && (point.runtimeBackup.Some? ==>
            after.files == WriteAll(h.files, Managed(config), h.runtimeBackups[point.runtimeBackup.value], fx.files).0)
      && (point.databaseBackup.Some? && fx.database.Damaged?
          && (point.runtimeBackup.Some? ==> WriteStop(h.runtimeBackups[point.runtimeBackup.value], fx.files) == 5) ==>
            after.database == fx.database.left)
  {
    if point.runtimeBackup.Some? {
      WritesEnd(h.files, Managed(config), h.runtimeBackups[point.runtimeBackup.value], fx.files, 0);
    }
  }

  // ----------------------------------------------------------------- deployment

  function UndoSteps(rule: Rule, previous: Option<Rule>, fx: DeploymentEffects): Steps {
    [(fx.undoEdit, "host_operation_failed")] + ResetSteps(Some(rule), previous, fx.undoFirewall)
    + [(fx.undoCompose, "host_command_failed"), (false, "deployment_health_check_failed")]
  }

  /** Address, range, env, firewall, compose; then the record, or what undoes it all. */
  function DeploymentSteps(h: Host, request: DeploymentRequest, fx: DeploymentEffects): Steps {
    if request.source.None? then [(false, "invalid_firewall_source_ip")]
    else
      var rule := Rule(request.source.value, request.start, request.end);
      RangeSteps(request.start, request.end) + [(fx.edit, "host_operation_failed")]
      + ApplySteps(h.record.firewall, rule, fx.firewall) + [(fx.compose, "host_command_failed")]
      + if fx.healthy then [(fx.write, "host_operation_failed")] else UndoSteps(rule, h.record.firewall, fx)
  }

  lemma UndoEnds(h: Host, rule: Rule, prior: seq<Setting>, previous: Option<Rule>, fx: DeploymentEffects)
    requires h.record.firewall == Some(rule)
    ensures UndoDeployment(h, prior, previous, fx).1 == Ending(UndoSteps(rule, previous, fx))
  {
    var edit, reset := [(fx.undoEdit, "host_operation_failed")], ResetSteps(Some(rule), previous, fx.undoFirewall);
    var last := [(fx.undoCompose, "host_command_failed"), (false, "deployment_health_check_failed")];
    Then(edit + reset, last);
    Then(edit, reset);
    OneStep(edit[0]);
    ThreeSteps(last[0], last[1], last[1]);
    ResetEnds(UpdateEnv(h, prior, true).0, previous, fx.undoFirewall);
  }

  /** A deployment ends as its first failing step says. */
  lemma DeploymentEnds(h: Host, request: DeploymentRequest, fx: DeploymentEffects)
    ensures Deployment(h, request, fx).1 == Ending(DeploymentSteps(h, request, fx))
  {
    if request.source.None? {
      OneStep((false, "invalid_firewall_source_ip"));
    } else {
      var rule := Rule(request.source.value, request.start, request.end);
      var range, edit := RangeSteps(request.start, request.end), [(fx.edit, "host_operation_failed")];
      var apply, compose := ApplySteps(h.record.firewall, rule, fx.firewall), [(fx.compose, "host_command_failed")];
      var last := if fx.healthy then [(fx.write, "host_operation_failed")] else UndoSteps(rule, h.record.firewall, fx);
      Then(range + edit + apply + compose, last);
      Then(range + edit + apply, compose);
      Then(range + edit, apply);
      Then(range, edit);
      RangeEnds(request.start, request.end);
      OneStep(edit[0]);
      OneStep(compose[0]);
      OneStep((fx.write, "host_operation_failed"));
      if ValidRange(request.start, request.end) {
        var h1 := UpdateEnv(h, RangeSettings(Str(request.start), Str(request.end)), true).0;
        ApplyEnds(h1, rule, fx.firewall);
        var (h2, applied) := ApplyFirewall(h1, rule, fx.firewall);
        if applied.Done? {
          UndoEnds(h2, rule, OldRange(h.env), h.record.firewall, fx);
        }
      }
    }
  }

  // -------------------------------------------------------------------- upgrade

  /** Version, old image, verified image, pull, bundle, backups, copy, env, compose, health, record. */
  function UpgradeSteps(h: Host, request: UpgradeRequest, fx: UpgradeEffects): Steps {
    var bundled := fx.bundle.Some? && |fx.bundle.value| == 5;
    [(request.accepted, "invalid_release_version"),
     (Lookup(h.env, "WOLT_IMAGE", "") != "" || fx.currentImage.Some?, "current_image_unavailable"),
     (fx.verified.Some?, "signature_verification_failed")]
    + [(fx.pull, "host_command_failed"), (bundled, "runtime_bundle_invalid"), (fx.dump, "database_backup_failed")]
    + [(fx.snapshot, "host_operation_failed"),
       (bundled && WriteStop(fx.bundle.value, fx.copy) == 5, "host_operation_failed"), (fx.edit, "host_operation_failed")]
    + [(fx.compose, "host_command_failed"), (fx.healthy, "upgrade_health_check_failed"), (fx.write, "host_operation_failed")]
  }

  lemma InstallEnds(config: Config, h: Host, request: UpgradeRequest, fx: UpgradeEffects, prior: seq<Setting>)
    requires Ready(h, request, fx)
    ensures Install(config, h, request, fx, prior).1
         == if !fx.dump then Raised("database_backup_failed")
            else if !fx.snapshot || WriteStop(fx.bundle.value, fx.copy) != 5 || !fx.edit then Raised("host_operation_failed")
            else if !fx.compose then Raised("host_command_failed")
            else if !fx.healthy then Raised("upgrade_health_check_failed")
            else Done
  {
    WritesEnd(h.files, Managed(config), fx.bundle.value, fx.copy, 0);
  }

  /** An upgrade ends as its first failing step says, whatever its compensation does. */
  lemma UpgradeEnds(config: Config, h: Host, request: UpgradeRequest, fx: UpgradeEffects)
    ensures Upgrade(config, h, request, fx).1 == Ending(UpgradeSteps(h, request, fx))
  {
    var steps := UpgradeSteps(h, request, fx);
    var a, b, c, d := steps[..3], steps[3..6], steps[6..9], steps[9..];
    assert steps == a + b + c + d;
    Then(a + b + c, d);
    Then(a + b, c);
    Then(a, b);
    assert a == [a[0], a[1], a[2]] && b == [b[0], b[1], b[2]] && c == [c[0], c[1], c[2]] && d == [d[0], d[1], d[2]];
    ThreeSteps(a[0], a[1], a[2]);
    ThreeSteps(b[0], b[1], b[2]);
    ThreeSteps(c[0], c[1], c[2]);
    ThreeSteps(d[0], d[1], d[2]);
    if Ready(h, request, fx) {
      InstallEnds(config, h, request, fx, OldSettings(h, OldImage(h, fx).value));
    }
  }

  // ------------------------------------------------------------------- all jobs

  function JobSteps(h: Host, job: Job): Steps {
    match job
    case Deploy(request, fx) => DeploymentSteps(h, request, fx)
    case Upgrading(request, fx) => UpgradeSteps(h, request, fx)
    case RollingBack(fx) => RollbackSteps(h, fx)
    case Applying(request, fx) =>
      if request.source.None? then [(false, "invalid_firewall_source_ip")]
      else ApplySteps(h.record.firewall, Rule(request.source.value, request.start, request.end), fx)
    case Removing(fx) => RemoveSteps(h.record.firewall, fx)
  }

  /** Every job and firewall call raises the error of its first failing step and succeeds if none fails. */
  lemma JobEnds(config: Config, h: Host, job: Job)
    ensures Step(config, h, job).1 == Ending(JobSteps(h, job))
  {
    match job
    case Deploy(request, fx) => DeploymentEnds(h, request, fx);
    case Upgrading(request, fx) => UpgradeEnds(config, h, request, fx);
    case RollingBack(fx) => RollbackEnds(config, h, fx);
    case Applying(request, fx) =>
      OneStep((false, "invalid_firewall_source_ip"));
      if request.source.Some? {
        ApplyEnds(h, Rule(request.source.value, request.start, request.end), fx);
      }
    case Removing(fx) => RemoveEnds(h, fx);
  }
}
