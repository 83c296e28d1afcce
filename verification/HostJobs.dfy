/**
 The host agent's job transactions as functions on the state of the host: deployment, upgrade and
 rollback with their backups and compensations (host_agent/server.py, _execute_job and the
 operations it calls). Every external effect is an oracle value that says how it went.
 */
module HostJobs {
  import opened Basics
  import opened EnvFile
  import opened RuntimeFiles

  const UDP_START := "WOLT_UDP_PUBLISHED_START"
  const UDP_END := "WOLT_UDP_PUBLISHED_END"
  const IMAGE := "WOLT_IMAGE"
  const VERSION := "WOLT_VERSION"

  datatype Rule = Rule(source: string, start: int, end: int)

  /** What the recorded rollback point names. `firewall` is None when the point does not mention it. */
  datatype RollbackPoint = RollbackPoint(env: seq<Setting>, databaseBackup: Option<nat>,
                                         runtimeBackup: Option<nat>, firewall: Option<Option<Rule>>)

  /** The persisted state file, without its job table. */
  datatype Record = Record(firewall: Option<Rule>, deployment: Option<(int, int)>,
                           rollback: Option<RollbackPoint>, lastSuccessful: Option<string>)

  /** `rules` are the WOLT rules present in UFW; the two maps are the agent's backup directories. */
  datatype Host = Host(env: seq<string>, files: Files, database: string, rules: set<Rule>,
                       databaseBackups: map<nat, string>, runtimeBackups: map<nat, Snapshot>,
                       record: Record)

  // ------------------------------------------------------ external effects

  datatype FirewallEffects = FirewallEffects(remove: bool, add: bool, write: bool)

  /** A failed restore may already have dropped the database, leaving something else in its place. */
  datatype DatabaseEffects = Restored | Refused | Damaged(left: string)

  datatype DeploymentEffects = DeploymentEffects(
    edit: bool, firewall: FirewallEffects, compose: bool, healthy: bool,
    undoEdit: bool, undoFirewall: FirewallEffects, undoCompose: bool, write: bool)

  /** `migrated` is the database after the new image has been started on it. */
  datatype UpgradeEffects = UpgradeEffects(
    currentImage: Option<string>, verified: Option<string>, pull: bool, bundle: Option<Snapshot>,
    dump: bool, dumpId: nat, snapshot: bool, snapshotId: nat, copy: Fault, unwind: Fault,
    edit: bool, compose: bool, migrated: string, healthy: bool,
    undoEdit: bool, undoFiles: Fault, undoDatabase: DatabaseEffects, write: bool)

  datatype RollbackEffects = RollbackEffects(
    edit: bool, files: Fault, database: DatabaseEffects, firewall: FirewallEffects,
    compose: bool, healthy: bool)

  // -------------------------------------------------------------- firewall

  predicate ValidRange(start: int, end: int) {
    1024 <= start <= end <= 65535 && end - start + 1 <= 100
  }

  function RangeError(start: int, end: int): string {
    if 1024 <= start <= end <= 65535 then "published_udp_range_too_wide" else "invalid_published_udp_range"
  }

  function SetRecord(h: Host, record: Record, write: bool): (Host, Outcome) {
    if write then (h.(record := record), Done) else (h, Raised("host_operation_failed"))
  }

  function ApplyFirewall(h: Host, rule: Rule, fx: FirewallEffects): (Host, Outcome) {
    if !ValidRange(rule.start, rule.end) then (h, Raised(RangeError(rule.start, rule.end)))
    else
      var stale := h.record.firewall.Some? && h.record.firewall.value != rule;
      if stale && !fx.remove then (h, Raised("firewall_command_failed"))
      else
        var h1 := if stale then h.(rules := h.rules - {h.record.firewall.value}) else h;
        if !fx.add then (h1, Raised("firewall_command_failed"))
        else
          var h2 := h1.(rules := h1.rules + {rule});
          SetRecord(h2, h2.record.(firewall := Some(rule)), fx.write)
  }

  /** A requested source and range; `source` is None when it is not an address. */
  datatype DeploymentRequest = DeploymentRequest(source: Option<string>, start: int, end: int)

  function RequestFirewall(h: Host, request: DeploymentRequest, fx: FirewallEffects): (Host, Outcome) {
    if request.source.None? then (h, Raised("invalid_firewall_source_ip"))
    else ApplyFirewall(h, Rule(request.source.value, request.start, request.end), fx)
  }

  function RemoveFirewall(h: Host, fx: FirewallEffects): (Host, Outcome) {
    if h.record.firewall.None? then (h, Done)
    else if !fx.remove then (h, Raised("firewall_command_failed"))
    else
      var h1 := h.(rules := h.rules - {h.record.firewall.value});
      SetRecord(h1, h1.record.(firewall := None), fx.write)
  }

  /** Put back a remembered rule, or the absence of one. */
  function ResetFirewall(h: Host, previous: Option<Rule>, fx: FirewallEffects): (Host, Outcome) {
    if previous.Some? then ApplyFirewall(h, previous.value, fx) else RemoveFirewall(h, fx)
  }

  // ----------------------------------------------------- env and database

  function UpdateEnv(h: Host, changes: seq<Setting>, edit: bool): (Host, Outcome) {
    if edit then (h.(env := Rewrite(h.env, changes)), Done)
    else (h, Raised("host_operation_failed"))
  }

  function DatabaseRestore(h: Host, backup: nat, fx: DatabaseEffects): (Host, Outcome) {
    if backup !in h.databaseBackups then (h, Raised("database_backup_unavailable"))
    else match fx
      case Restored => (h.(database := h.databaseBackups[backup]), Done)
      case Refused => (h, Raised("database_restore_failed"))
      case Damaged(left) => (h.(database := left), Raised("database_restore_failed"))
  }

  // ---------------------------------------------------------- runtime files

  function RestoreRuntime(config: Config, h: Host, backup: nat, fault: Fault): (Host, Outcome) {
    if backup !in h.runtimeBackups || |h.runtimeBackups[backup]| != SLOTS then
      (h, Raised("runtime_backup_unavailable"))
    else
      var (files, ok) := WriteAll(h.files, Managed(config), h.runtimeBackups[backup], fault);
      (h.(files := files), if ok then Done else Raised("host_operation_failed"))
  }

  function DeployRuntime(config: Config, h: Host, bundle: Snapshot, fx: UpgradeEffects): (Host, Outcome)
    requires |bundle| == SLOTS
  {
    if !fx.snapshot then (h, Raised("host_operation_failed"))
    else
      var h1 := h.(runtimeBackups := h.runtimeBackups[fx.snapshotId := Snap(h.files, BackedUp(config))]);
      var (files, ok) := WriteAll(h1.files, Managed(config), bundle, fx.copy);
      var h2 := h1.(files := files);
      if ok then (h2, Done)
      else (RestoreRuntime(config, h2, fx.snapshotId, fx.unwind).0, Raised("host_operation_failed"))
  }

  // ------------------------------------------------------------- deployment

  /** Decimal text of a port number. */
  function Str(n: nat): string {
    if n < 10 then ["0123456789"[n]] else Str(n / 10) + ["0123456789"[n % 10]]
  }

  function RangeSettings(start: string, end: string): seq<Setting> {
    [Setting(UDP_START, start), Setting(UDP_END, end)]
  }

  /** The published range to go back to: the old one, or the default. */
  function OldRange(env: seq<string>): seq<Setting> {
    RangeSettings(Lookup(env, UDP_START, "40000"), Lookup(env, UDP_END, "40099"))
  }

  function Lookup(env: seq<string>, key: string, default: string): string {
    var values := Parse(env);
    if key in values then values[key] else default
  }

  /** What a deployment remembers before its first effect: the range and the rule to go back to. */
  datatype DeploymentReads = DeploymentReads(prior: seq<Setting>, previous: Option<Rule>)

  function ReadDeployment(h: Host): DeploymentReads {
    DeploymentReads(OldRange(h.env), h.record.firewall)
  }

  function Deployment(h: Host, request: DeploymentRequest, fx: DeploymentEffects): (Host, Outcome) {
    DeploymentFrom(h, request, fx, ReadDeployment(h))
  }

  /** The effects of a deployment that remembers `seen`. */
  function DeploymentFrom(h: Host, request: DeploymentRequest, fx: DeploymentEffects, seen: DeploymentReads):
    (Host, Outcome)
  {
    var DeploymentRequest(source, start, end) := request;
    if source.None? then (h, Raised("invalid_firewall_source_ip"))
    else if !ValidRange(start, end) then (h, Raised(RangeError(start, end)))
    else
      var (h1, edited) := UpdateEnv(h, RangeSettings(Str(start), Str(end)), fx.edit);
      if edited.Raised? then (h1, edited)
      else
        var (h2, applied) := ApplyFirewall(h1, Rule(source.value, start, end), fx.firewall);
        if applied.Raised? then (h2, applied)
        else if !fx.compose then (h2, Raised("host_command_failed"))
        else if !fx.healthy then UndoDeployment(h2, seen.prior, seen.previous, fx)
        else
          SetRecord(h2, h2.record.(deployment := Some((start, end)),
                                   rollback := Some(RollbackPoint(seen.prior, None, None, Some(seen.previous)))),
                    fx.write)
  }

  function UndoDeployment(h: Host, prior: seq<Setting>, previous: Option<Rule>, fx: DeploymentEffects): (Host, Outcome) {
    var (h1, edited) := UpdateEnv(h, prior, fx.undoEdit);
    if edited.Raised? then (h1, edited)
    else
      var (h2, reset) := ResetFirewall(h1, previous, fx.undoFirewall);
      if reset.Raised? then (h2, reset)
      else if !fx.undoCompose then (h2, Raised("host_command_failed"))
      else (h2, Raised("deployment_health_check_failed"))
  }

  // ---------------------------------------------------------------- upgrade

  /** `accepted` says whether the version matches the release pattern. */
  datatype UpgradeRequest = UpgradeRequest(version: string, accepted: bool)

  function Canonical(version: string): string {
    if version != "" && version[0] == 'v' then version else "v" + version
  }

  function ImageSettings(image: string, version: string): seq<Setting> {
    [Setting(IMAGE, image), Setting(VERSION, version)]
  }

  /** The image to go back to: the recorded one unless missing or empty, else the running one. */
  function OldImage(h: Host, fx: UpgradeEffects): Option<string> {
    var recorded := Lookup(h.env, IMAGE, "");
    if recorded != "" then Some(recorded) else fx.currentImage
  }

  function OldSettings(h: Host, oldImage: string): seq<Setting> {
    ImageSettings(oldImage, Lookup(h.env, VERSION, "unknown"))
  }

  /** The steps before the guarded block all succeeded: verified, pulled and extracted. */
  predicate Ready(h: Host, request: UpgradeRequest, fx: UpgradeEffects) {
    && request.accepted && OldImage(h, fx).Some? && fx.verified.Some? && fx.pull
    && fx.bundle.Some? && |fx.bundle.value| == SLOTS
  }

  function NotReadyError(h: Host, request: UpgradeRequest, fx: UpgradeEffects): string {
    if !request.accepted then "invalid_release_version"
    else if OldImage(h, fx).None? then "current_image_unavailable"
    else if fx.verified.None? then "signature_verification_failed"
    else if !fx.pull then "host_command_failed"
    else "runtime_bundle_invalid"
  }

  function Upgrade(config: Config, h: Host, request: UpgradeRequest, fx: UpgradeEffects): (Host, Outcome) {
    if !Ready(h, request, fx) then (h, Raised(NotReadyError(h, request, fx)))
    else
      var prior := OldSettings(h, OldImage(h, fx).value);
      var (h1, installed) := Install(config, h, request, fx, prior);
      if installed.Raised? then (h1, installed)
      else FinishUpgrade(h1, prior, fx.verified.value, fx)
  }

  /** The guarded block: back up, deploy, edit, start; compensate when a later step raises. */
  function Install(config: Config, h: Host, request: UpgradeRequest, fx: UpgradeEffects, prior: seq<Setting>): (Host, Outcome)
    requires Ready(h, request, fx)
  {
    if !fx.dump then (h, Raised("database_backup_failed"))
    else
      var h1 := h.(databaseBackups := h.databaseBackups[fx.dumpId := h.database]);
      var (h2, deployed) := DeployRuntime(config, h1, fx.bundle.value, fx);
      if deployed.Raised? then (h2, deployed)
      else
        var (h3, started) := Start(h2, ImageSettings(fx.verified.value, Canonical(request.version)), fx);
        if started.Raised? then (Compensate(config, h3, prior, fx), started) else (h3, Done)
  }

  function Start(h: Host, settings: seq<Setting>, fx: UpgradeEffects): (Host, Outcome) {
    var (h1, edited) := UpdateEnv(h, settings, fx.edit);
    if edited.Raised? then (h1, edited)
    else
      var h2 := h1.(database := fx.migrated);
      if !fx.compose then (h2, Raised("host_command_failed"))
      else if !fx.healthy then (h2, Raised("upgrade_health_check_failed"))
      else (h2, Done)
  }

  /** The automatic rollback stops at its first failing step. */
  function Compensate(config: Config, h: Host, prior: seq<Setting>, fx: UpgradeEffects): Host {
    var (h1, edited) := UpdateEnv(h, prior, fx.undoEdit);
    if edited.Raised? then h1
    else
      var (h2, restored) := RestoreRuntime(config, h1, fx.snapshotId, fx.undoFiles);
      if restored.Raised? then h2
      else DatabaseRestore(h2, fx.dumpId, fx.undoDatabase).0
  }

  /** The backups of the earlier point go first, the new point is recorded after. */
  function FinishUpgrade(h: Host, prior: seq<Setting>, image: string, fx: UpgradeEffects): (Host, Outcome) {
    var point := h.record.rollback;
    var h1 := h.(
      databaseBackups := if point.Some? && point.value.databaseBackup.Some?
                         then h.databaseBackups - {point.value.databaseBackup.value} else h.databaseBackups,
      runtimeBackups := if point.Some? && point.value.runtimeBackup.Some?
                        then h.runtimeBackups - {point.value.runtimeBackup.value} else h.runtimeBackups);
    SetRecord(h1, h1.record.(rollback := Some(RollbackPoint(prior, Some(fx.dumpId), Some(fx.snapshotId), None)),
                             lastSuccessful := Some(image)),
              fx.write)
  }

  // --------------------------------------------------------------- rollback

  function RestoreBackups(config: Config, h: Host, point: RollbackPoint, fx: RollbackEffects): (Host, Outcome) {
    var (h1, restored) :=
      if point.runtimeBackup.Some? then RestoreRuntime(config, h, point.runtimeBackup.value, fx.files)
      else (h, Done);
    if restored.Raised? || point.databaseBackup.None? then (h1, restored)
    else DatabaseRestore(h1, point.databaseBackup.value, fx.database)
  }

  function Rollback(config: Config, h: Host, fx: RollbackEffects): (Host, Outcome) {
    if h.record.rollback.None? || h.record.rollback.value.env == [] then (h, Raised("rollback_not_available"))
    else
      var point := h.record.rollback.value;
      var (h1, edited) := UpdateEnv(h, point.env, fx.edit);
      if edited.Raised? then (h1, edited)
      else
        var (h2, restored) := RestoreBackups(config, h1, point, fx);
        if restored.Raised? then (h2, restored) else FinishRollback(h2, point, fx)
  }

  function FinishRollback(h: Host, point: RollbackPoint, fx: RollbackEffects): (Host, Outcome) {
    var (h1, reset) :=
      if point.firewall.Some? then ResetFirewall(h, point.firewall.value, fx.firewall) else (h, Done);
    if reset.Raised? then (h1, reset)
    else if !fx.compose then (h1, Raised("host_command_failed"))
    else if !fx.healthy then (h1, Raised("rollback_health_check_failed"))
    else (h1, Done)
  }

  // --------------------------------------------------------------- all jobs

  datatype Job =
    | Deploy(deployment: DeploymentRequest, deploymentEffects: DeploymentEffects)
    | Upgrading(upgrade: UpgradeRequest, upgradeEffects: UpgradeEffects)
    | RollingBack(rollbackEffects: RollbackEffects)
    | Applying(requested: DeploymentRequest, firewallEffects: FirewallEffects)
    | Removing(firewallEffects: FirewallEffects)

  /** The name under which a job of the agent's three operations is started. */
  function OperationOf(job: Job): string {
    if job.Deploy? then "deployment" else if job.Upgrading? then "upgrade" else "rollback"
  }

  function Step(config: Config, h: Host, job: Job): (Host, Outcome) {
    match job
    case Deploy(request, fx) => Deployment(h, request, fx)
    case Upgrading(request, fx) => Upgrade(config, h, request, fx)
    case RollingBack(fx) => Rollback(config, h, fx)
    case Applying(request, fx) => RequestFirewall(h, request, fx)
    case Removing(fx) => RemoveFirewall(h, fx)
  }

  function Run(config: Config, h: Host, jobs: seq<Job>): Host
    decreases |jobs|
  {
    if jobs == [] then h else Run(config, Step(config, h, jobs[0]).0, jobs[1..])
  }
}
