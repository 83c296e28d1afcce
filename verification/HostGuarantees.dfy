/**
 What the host agent's jobs guarantee: upgrades are all-or-nothing, the recorded rollback point
 stays usable, a rollback returns to the point, and the firewall never holds a stray rule.
 */
module HostGuarantees {
  import opened Basics
  import opened EnvFile
  import opened RuntimeFiles
  import opened HostJobs

  // ---------------------------------------------------------- environment

  ghost predicate Tidy(env: seq<string>) {
    && Count(env, UDP_START) <= 1 && Count(env, UDP_END) <= 1
    && Count(env, IMAGE) <= 1 && Count(env, VERSION) <= 1
  }

  ghost predicate OwnSettings(settings: seq<Setting>) {
    || (exists a, b :: settings == RangeSettings(a, b))
    || (exists a, b :: settings == ImageSettings(a, b))
  }

  /** The four keys the agent writes are good keys. */
  lemma OwnKeysAreGood()
    ensures GoodKey(UDP_START) && GoodKey(UDP_END) && GoodKey(IMAGE) && GoodKey(VERSION)
  {
    assert !IsSpace('W');
  }

  lemma OwnKeysDiffer()
    ensures UDP_START != UDP_END && IMAGE != VERSION
  {
    assert |UDP_START| != |UDP_END|;
    assert |IMAGE| != |VERSION|;
  }

  lemma PairMap(a: Setting, b: Setting)
    requires GoodKey(a.key) && GoodKey(b.key) && a.key != b.key
    ensures WellFormed([a, b])
    ensures AsMap([a, b]) == map[a.key := a.value, b.key := b.value]
  {
    assert [a, b][1..] == [b] && [b][1..] == [];
    assert AsMap([b]) == map[b.key := b.value];
  }

  lemma OwnSettingsMap(settings: seq<Setting>)
    requires OwnSettings(settings)
    ensures WellFormed(settings) && |settings| == 2
    ensures AsMap(settings) == map[settings[0].key := settings[0].value, settings[1].key := settings[1].value]
    ensures (settings[0].key, settings[1].key) in {(UDP_START, UDP_END), (IMAGE, VERSION)}
  {
    OwnKeysAreGood();
    OwnKeysDiffer();
    PairMap(settings[0], settings[1]);
    assert settings == [settings[0], settings[1]];
  }

  lemma EditStaysTidy(env: seq<string>, settings: seq<Setting>)
    requires Tidy(env) && OwnSettings(settings)
    ensures Tidy(Rewrite(env, settings))
  {
    OwnSettingsMap(settings);
    EditedValue(env, settings, UDP_START);
    EditedValue(env, settings, UDP_END);
    EditedValue(env, settings, IMAGE);
    EditedValue(env, settings, VERSION);
  }

  lemma OwnEditReads(env: seq<string>, settings: seq<Setting>)
    requires Tidy(env) && OwnSettings(settings)
    ensures Parse(Rewrite(env, settings)) == Parse(env) + AsMap(settings)
  {
    OwnSettingsMap(settings);
    EditIsMapUpdateIff(env, settings);
  }

  lemma OwnEditUndone(env: seq<string>, settings: seq<Setting>, back: seq<Setting>)
    requires Tidy(env) && OwnSettings(settings) && OwnSettings(back)
    requires settings[0].key == back[0].key && settings[1].key == back[1].key
    ensures Parse(Rewrite(Rewrite(env, settings), back)) == Parse(env) + AsMap(back)
  {
    OwnSettingsMap(settings);
    OwnSettingsMap(back);
    EditThenEditBack(env, settings, back);
  }

  // -------------------------------------------------------------- upgrade

  ghost predicate Fresh(h: Host, fx: UpgradeEffects) {
    fx.dumpId !in h.databaseBackups && fx.snapshotId !in h.runtimeBackups
  }

  /** The forward steps up to the end of the file deployment all succeeded. */
  ghost predicate Deployed(h: Host, request: UpgradeRequest, fx: UpgradeEffects, config: Config) {
    && Ready(h, request, fx) && fx.dump && fx.snapshot
    && WriteAll(h.files, Managed(config), fx.bundle.value, fx.copy).1
  }

  /** Every forward step of the upgrade succeeded. */
  ghost predicate Forward(h: Host, request: UpgradeRequest, fx: UpgradeEffects, config: Config) {
    Deployed(h, request, fx, config) && fx.edit && fx.compose && fx.healthy && fx.write
  }

  /** Whatever compensation ran, ran to its end. */
  ghost predicate Compensated(fx: UpgradeEffects) {
    fx.unwind.Sound? && fx.undoEdit && fx.undoFiles.Sound? && fx.undoDatabase.Restored?
  }

  lemma UpgradeSucceedsIff(config: Config, h: Host, request: UpgradeRequest, fx: UpgradeEffects)
    ensures Upgrade(config, h, request, fx).1.Done? <==> Forward(h, request, fx, config)
  {
  }

  /** The state in which a failed upgrade leaves everything except env and the backup directories. */
  ghost predicate Untouched(h: Host, after: Host) {
    && after.files == h.files && after.database == h.database
    && after.rules == h.rules && after.record == h.record
    && (forall id :: id in h.databaseBackups ==>
          id in after.databaseBackups && after.databaseBackups[id] == h.databaseBackups[id])
    && (forall id :: id in h.runtimeBackups ==>
          id in after.runtimeBackups && after.runtimeBackups[id] == h.runtimeBackups[id])
  }

  /** A failure while the bundle is copied: the deployment restores the slots itself. */
  lemma DeployRuntimeUnwinds(config: Config, h: Host, bundle: Snapshot, fx: UpgradeEffects)
    requires Installed(config) && |bundle| == SLOTS && fx.unwind.Sound?
    requires DeployRuntime(config, h, bundle, fx).1.Raised?
    ensures DeployRuntime(config, h, bundle, fx).0.files == h.files
  {
    if fx.snapshot {
      InstalledRoundTrip(config, h.files, bundle, fx.copy);
    }
  }

  /** A failure after the bundle was copied: the upgrade's own compensation restores the slots. */
  lemma CompensationRestores(config: Config, h: Host, h3: Host, prior: seq<Setting>, fx: UpgradeEffects)
    requires Installed(config) && Compensated(fx)
    requires fx.dumpId in h3.databaseBackups && h3.databaseBackups[fx.dumpId] == h.database
    requires fx.snapshotId in h3.runtimeBackups
          && h3.runtimeBackups[fx.snapshotId] == Snap(h.files, BackedUp(config))
    requires forall p :: p !in Managed(config) ==> Get(h3.files, p) == Get(h.files, p)
    ensures Compensate(config, h3, prior, fx)
         == h3.(env := Rewrite(h3.env, prior), files := h.files, database := h.database)
  {
    SoundWrites(h3.files, Managed(config), Snap(h.files, Managed(config)), 0);
    RestoreIsAbsolute(h.files, h3.files, Managed(config), Sound);
  }

  /**
   Upgrade is all-or-nothing. Wherever a forward step fails, if the compensation that runs
   succeeds, files, database, firewall and record are as at the start, earlier backups are kept,
   and env reads as before, except that image and version are set to their old or fallback values
   when the file deployment had completed.
   */
  lemma UpgradeAllOrNothing(config: Config, h: Host, request: UpgradeRequest, fx: UpgradeEffects)
    requires Installed(config) && Fresh(h, fx) && Tidy(h.env)
    requires !Forward(h, request, fx, config) && fx.write && Compensated(fx)
    ensures var (after, outcome) := Upgrade(config, h, request, fx);
      && outcome.Raised?
      && Untouched(h, after)
      && (!Deployed(h, request, fx, config) ==> after.env == h.env)
      && (Deployed(h, request, fx, config) ==>
            Parse(after.env) == Parse(h.env) + AsMap(OldSettings(h, OldImage(h, fx).value)))
  {
    UpgradeSucceedsIff(config, h, request, fx);
    if Deployed(h, request, fx, config) {
      var prior := OldSettings(h, OldImage(h, fx).value);
      var target := ImageSettings(fx.verified.value, Canonical(request.version));
      var h1 := h.(databaseBackups := h.databaseBackups[fx.dumpId := h.database]);
      var (h2, deployed) := DeployRuntime(config, h1, fx.bundle.value, fx);
      forall p | p !in Managed(config) ensures Get(h2.files, p) == Get(h.files, p) {
        WriteFrame(h.files, Managed(config), fx.bundle.value, fx.copy, 0, p);
      }
      var (h3, started) := Start(h2, target, fx);
      CompensationRestores(config, h, h3, prior, fx);
      assert OwnSettings(prior) && OwnSettings(target);
      OwnEditReads(h.env, prior);
      OwnEditUndone(h.env, target, prior);
    } else if Ready(h, request, fx) && fx.dump {
      var h1 := h.(databaseBackups := h.databaseBackups[fx.dumpId := h.database]);
      DeployRuntimeUnwinds(config, h1, fx.bundle.value, fx);
    }
  }

  lemma OverrideWithSame(values: map<string, string>, a: Setting, b: Setting)
    requires a.key in values && values[a.key] == a.value
    requires b.key in values && values[b.key] == b.value
    ensures values + map[a.key := a.value, b.key := b.value] == values
  {
  }

  /** With a recorded image and version, a compensated upgrade leaves every key reading as before. */
  lemma FailedUpgradeKeepsEnv(config: Config, h: Host, request: UpgradeRequest, fx: UpgradeEffects)
    requires Installed(config) && Fresh(h, fx) && Tidy(h.env)
    requires !Forward(h, request, fx, config) && fx.write && Compensated(fx)
    requires Lookup(h.env, IMAGE, "") != "" && VERSION in Parse(h.env)
    ensures Parse(Upgrade(config, h, request, fx).0.env) == Parse(h.env)
  {
    UpgradeAllOrNothing(config, h, request, fx);
    if Deployed(h, request, fx, config) {
      var prior := OldSettings(h, OldImage(h, fx).value);
      assert OwnSettings(prior);
      OwnSettingsMap(prior);
      OverrideWithSame(Parse(h.env), prior[0], prior[1]);
    }
  }

  // ------------------------------------------------------------- firewall

  function Recorded(h: Host): set<Rule> {
    if h.record.firewall.Some? then {h.record.firewall.value} else {}
  }

  /** The WOLT rules present in UFW are at most the one recorded rule. */
  ghost predicate NoStrayRule(h: Host) {
    h.rules <= Recorded(h)
  }

  /** A successful apply leaves exactly the requested rule, recorded and present. */
  lemma ApplyLeavesExactlyRule(h: Host, rule: Rule, fx: FirewallEffects)
    requires NoStrayRule(h)
    requires ApplyFirewall(h, rule, fx).1.Done?
    ensures var after := ApplyFirewall(h, rule, fx).0;
      after == h.(rules := {rule}, record := h.record.(firewall := Some(rule)))
  {
    assert h.rules + {rule} == {rule} || h.rules - Recorded(h) + {rule} == {rule};
    assert h.record.firewall.Some? ==> h.rules - {h.record.firewall.value} == {};
  }

  /**
   An apply keeps the firewall free of stray rules, whatever fails, except in one case: the new
   rule was added and the state file could not be written.
   */
  lemma ApplyKeepsNoStrayRuleIff(h: Host, rule: Rule, fx: FirewallEffects)
    requires NoStrayRule(h)
    ensures NoStrayRule(ApplyFirewall(h, rule, fx).0)
       <==> !(ValidRange(rule.start, rule.end) && h.record.firewall != Some(rule)
              && (h.record.firewall.Some? ==> fx.remove) && fx.add && !fx.write)
  {
    var after := ApplyFirewall(h, rule, fx).0;
    if ValidRange(rule.start, rule.end) && fx.add && (h.record.firewall.Some? ==> fx.remove || h.record.firewall.value == rule) {
      assert rule in after.rules;
    }
  }

  lemma ResetLeavesExactly(h: Host, previous: Option<Rule>, fx: FirewallEffects)
    requires NoStrayRule(h)
    requires ResetFirewall(h, previous, fx).1.Done?
    ensures var after := ResetFirewall(h, previous, fx).0;
      && after == h.(rules := after.rules, record := h.record.(firewall := previous))
      && after.rules == Recorded(after)
  {
    if previous.Some? {
      ApplyLeavesExactlyRule(h, previous.value, fx);
    } else if h.record.firewall.Some? {
      assert h.rules - {h.record.firewall.value} == {};
    }
  }

  // ----------------------------------------------------------- deployment

  /**
   A deployment that fails its health check and whose compensation succeeds ends with the
   previous rule (or none) recorded and present and the old or default range in env; files,
   database and rollback point are untouched.
   */
  lemma UnhealthyDeploymentUndone(h: Host, request: DeploymentRequest, fx: DeploymentEffects)
    requires NoStrayRule(h) && Tidy(h.env)
    requires Deployment(h, request, fx).1 == Raised("deployment_health_check_failed")
    ensures var after := Deployment(h, request, fx).0;
      && Parse(after.env) == Parse(h.env) + AsMap(OldRange(h.env))
      && after.record == h.record && after.rules == Recorded(h)
      && after == h.(env := after.env, rules := after.rules)
  {
    var target := RangeSettings(Str(request.start), Str(request.end));
    var rule := Rule(request.source.value, request.start, request.end);
    assert OwnSettings(target) && OwnSettings(OldRange(h.env));
    OwnEditUndone(h.env, target, OldRange(h.env));
    var h1 := UpdateEnv(h, target, fx.edit).0;
    var (h2, applied) := ApplyFirewall(h1, rule, fx.firewall);
    assert applied.Done? && Deployment(h, request, fx) == UndoDeployment(h2, OldRange(h.env), h.record.firewall, fx);
    ApplyLeavesExactlyRule(h1, rule, fx.firewall);
    CompletedUndo(h2, OldRange(h.env), h.record.firewall, fx);
  }

  lemma CompletedUndo(h: Host, prior: seq<Setting>, previous: Option<Rule>, fx: DeploymentEffects)
    requires NoStrayRule(h)
    requires UndoDeployment(h, prior, previous, fx).1 == Raised("deployment_health_check_failed")
    ensures var after := UndoDeployment(h, prior, previous, fx).0;
      && after == h.(env := Rewrite(h.env, prior), rules := after.rules, record := h.record.(firewall := previous))
      && after.rules == Recorded(after)
  {
    ResetLeavesExactly(UpdateEnv(h, prior, fx.undoEdit).0, previous, fx.undoFirewall);
  }

  /** The guards at which an apply of a valid rule raises. */
  ghost predicate FirewallStops(h: Host, rule: Rule, fx: FirewallEffects) {
    (h.record.firewall.Some? && h.record.firewall.value != rule && !fx.remove) || !fx.add || !fx.write
  }

  /** The deployment never edited env, or reached its health check, failed it and edited env back. */
  ghost predicate EditUndone(h: Host, request: DeploymentRequest, fx: DeploymentEffects) {
    || request.source.None? || !ValidRange(request.start, request.end) || !fx.edit
    || (!FirewallStops(h, Rule(request.source.value, request.start, request.end), fx.firewall)
        && fx.compose && !fx.healthy && fx.undoEdit)
  }

  ghost predicate RangeReads(env: seq<string>, start: string, end: string) {
    Lookup(env, UDP_START, "40000") == start && Lookup(env, UDP_END, "40099") == end
  }

  /**
   A failed deployment leaves the published range as it was exactly when it was rejected before
   editing env or failed its health check and edited env back, or when the range is the same. When
   the firewall, the compose step or the last state write fails, the NEW range stays in env.
   */
  lemma FailedDeploymentKeepsRangeIff(h: Host, request: DeploymentRequest, fx: DeploymentEffects)
    requires Tidy(h.env) && Deployment(h, request, fx).1.Raised?
    ensures var (start, end) := (Lookup(h.env, UDP_START, "40000"), Lookup(h.env, UDP_END, "40099"));
      RangeReads(Deployment(h, request, fx).0.env, start, end)
      <==> EditUndone(h, request, fx) || (Str(request.start), Str(request.end)) == (start, end)
  {
    if request.source.Some? && ValidRange(request.start, request.end) && fx.edit {
      RangeAfterEdit(h.env, Str(request.start), Str(request.end));
      FailedDeploymentEnv(h, request, fx);
    }
  }

  /** Two deployments of a fresh host that fail and leave the new range: compose fails, or the last write. */
  lemma FailedDeploymentLeavesRange(files: Files, database: string, fx: DeploymentEffects)
    requires fx.edit && fx.firewall == FirewallEffects(true, true, true)
    requires !fx.compose || (fx.healthy && !fx.write)
    ensures var h := FreshHost([], files, database);
      var (after, outcome) := Deployment(h, DeploymentRequest(Some("192.0.2.1"), 41000, 41009), fx);
      && outcome.Raised?
      && RangeReads(h.env, "40000", "40099") && RangeReads(after.env, "41000", "41009")
  {
    var h := FreshHost([], files, database);
    DecimalTexts();
    RangeAfterEdit([], "41000", "41009");
    FailedDeploymentEnv(h, DeploymentRequest(Some("192.0.2.1"), 41000, 41009), fx);
  }

  lemma DecimalTexts()
    ensures Str(41000) == "41000" && Str(41009) == "41009"
  {
    assert Str(4) == "4" && Str(41) == "41" && Str(410) == "410" && Str(4100) == "4100";
  }

  /** The number that decimal digits stand for, from their character codes. */
  function Num(digits: string): int {
    if digits == "" then 0 else 10 * Num(digits[..|digits| - 1]) + (digits[|digits| - 1] as int - 48)
  }

  /** A port number written to env reads back. */
  lemma {:induction false} NumOfStr(n: nat)
    ensures Num(Str(n)) == n
  {
    assert forall k :: 0 <= k < 10 ==> "0123456789"[k] as int - 48 == k;
    if n < 10 {
      assert Str(n)[..0] == "";
    } else {
      NumOfStr(n / 10);
      assert Str(n)[..|Str(n)| - 1] == Str(n / 10);
    }
  }

  /** A host the agent has not touched yet. */
  function FreshHost(env: seq<string>, files: Files, database: string): Host {
    Host(env, files, database, {}, map[], map[], Record(None, None, None, None))
  }

  lemma RangeAfterEdit(env: seq<string>, start: string, end: string)
    requires Tidy(env)
    ensures RangeReads(Rewrite(env, RangeSettings(start, end)), start, end)
    ensures RangeReads(Rewrite(Rewrite(env, RangeSettings(start, end)), OldRange(env)),
                       Lookup(env, UDP_START, "40000"), Lookup(env, UDP_END, "40099"))
  {
    var target, prior := RangeSettings(start, end), OldRange(env);
    assert OwnSettings(target) && OwnSettings(prior);
    OwnEditReads(env, target);
    OwnEditUndone(env, target, prior);
    OwnSettingsMap(target);
    OwnSettingsMap(prior);
    OwnKeysDiffer();
  }

  lemma FailedDeploymentEnv(h: Host, request: DeploymentRequest, fx: DeploymentEffects)
    requires request.source.Some? && ValidRange(request.start, request.end) && fx.edit
    requires Deployment(h, request, fx).1.Raised?
    ensures var edited := Rewrite(h.env, RangeSettings(Str(request.start), Str(request.end)));
      Deployment(h, request, fx).0.env
      == if EditUndone(h, request, fx) then Rewrite(edited, OldRange(h.env)) else edited
  {
    var rule := Rule(request.source.value, request.start, request.end);
    var h1 := UpdateEnv(h, RangeSettings(Str(request.start), Str(request.end)), true).0;
    var (h2, applied) := ApplyFirewall(h1, rule, fx.firewall);
    assert h2.env == h1.env && (applied.Raised? <==> FirewallStops(h, rule, fx.firewall));
    UndoEdits(h2, OldRange(h.env), h.record.firewall, fx);
  }

  lemma UndoEdits(h: Host, prior: seq<Setting>, previous: Option<Rule>, fx: DeploymentEffects)
    ensures UndoDeployment(h, prior, previous, fx).0.env == if fx.undoEdit then Rewrite(h.env, prior) else h.env
  {
  }

  // ----------------------------------------------- the recorded rollback point

  /** Every backup the point names exists. */
  ghost predicate PointUsable(h: Host, point: RollbackPoint) {
    && (point.databaseBackup.Some? ==> point.databaseBackup.value in h.databaseBackups)
    && (point.runtimeBackup.Some? ==>
          point.runtimeBackup.value in h.runtimeBackups
          && |h.runtimeBackups[point.runtimeBackup.value]| == SLOTS)
  }

  ghost predicate RulesValid(h: Host) {
    && (h.record.firewall.Some? ==> ValidRange(h.record.firewall.value.start, h.record.firewall.value.end))
    && (h.record.rollback.Some? ==>
          var point := h.record.rollback.value;
          point.firewall.Some? && point.firewall.value.Some? ==>
            ValidRange(point.firewall.value.value.start, point.firewall.value.value.end))
  }

  /** What is remembered was once the agent's own: valid rules and the keys it edits. */
  ghost predicate Remembered(h: Host) {
    RulesValid(h) && (h.record.rollback.Some? ==> OwnSettings(h.record.rollback.value.env))
  }

  ghost predicate Usable(h: Host) {
    Remembered(h) && (h.record.rollback.Some? ==> PointUsable(h, h.record.rollback.value))
  }

  /** A usable point can be rolled back to: only an external effect can make the rollback fail. */
  lemma UsablePointRollsBack(config: Config, h: Host, fx: RollbackEffects)
    requires Usable(h) && h.record.rollback.Some?
    requires fx.edit && fx.files.Sound? && fx.database.Restored? && fx.compose && fx.healthy
    requires fx.firewall.remove && fx.firewall.add && fx.firewall.write
    ensures Rollback(config, h, fx).1.Done?
  {
    var point := h.record.rollback.value;
    OwnSettingsMap(point.env);
    if point.runtimeBackup.Some? {
      SoundWrites(h.files, Managed(config), h.runtimeBackups[point.runtimeBackup.value], 0);
    }
  }

  /** An upgrade draws fresh backup names and can write its last record; nothing is asked of other jobs. */
  ghost predicate Admissible(h: Host, job: Job) {
    job.Upgrading? ==> Fresh(h, job.upgradeEffects) && job.upgradeEffects.write
  }

  /** The job set a new rollback point. */
  ghost predicate Commits(config: Config, h: Host, job: Job) {
    (job.Deploy? || job.Upgrading?) && Step(config, h, job).1.Done?
  }

  /** The rollback point and the contents of the backups it names. */
  ghost predicate SamePoint(h: Host, after: Host) {
    && after.record.rollback == h.record.rollback
    && (h.record.rollback.Some? ==>
          var point := h.record.rollback.value;
          && (point.databaseBackup.Some? && point.databaseBackup.value in h.databaseBackups ==>
                point.databaseBackup.value in after.databaseBackups
                && after.databaseBackups[point.databaseBackup.value] == h.databaseBackups[point.databaseBackup.value])
          && (point.runtimeBackup.Some? && point.runtimeBackup.value in h.runtimeBackups ==>
                point.runtimeBackup.value in after.runtimeBackups
                && after.runtimeBackups[point.runtimeBackup.value] == h.runtimeBackups[point.runtimeBackup.value]))
  }

  // -- what each job does to record and backups, one job at a time

  lemma FirewallFrame(h: Host, previous: Option<Rule>, fx: FirewallEffects)
    requires previous.Some? ==> ValidRange(previous.value.start, previous.value.end)
    ensures var after := ResetFirewall(h, previous, fx).0;
      && after == h.(rules := after.rules, record := h.record.(firewall := after.record.firewall))
      && after.record.firewall in {h.record.firewall, previous}
  {
  }

  lemma UndoFrame(h: Host, prior: seq<Setting>, previous: Option<Rule>, fx: DeploymentEffects)
    requires previous.Some? ==> ValidRange(previous.value.start, previous.value.end)
    ensures var (after, outcome) := UndoDeployment(h, prior, previous, fx);
      && outcome.Raised?
      && after == h.(env := after.env, rules := after.rules, record := h.record.(firewall := after.record.firewall))
      && after.record.firewall in {h.record.firewall, previous}
      && after.env in {h.env, Rewrite(h.env, prior)}
  {
    FirewallFrame(UpdateEnv(h, prior, true).0, previous, fx.undoFirewall);
  }

  lemma DeploymentFrame(h: Host, request: DeploymentRequest, fx: DeploymentEffects)
    requires h.record.firewall.Some? ==> ValidRange(h.record.firewall.value.start, h.record.firewall.value.end)
    ensures var (after, outcome) := Deployment(h, request, fx);
      var target := if request.source.Some? && ValidRange(request.start, request.end)
                    then RangeSettings(Str(request.start), Str(request.end)) else [];
      && after == h.(env := after.env, rules := after.rules, record := after.record)
      && (outcome.Raised? ==> after.record == h.record.(firewall := after.record.firewall))
      && (outcome.Done? ==> after.record.rollback == Some(RollbackPoint(OldRange(h.env), None, None, Some(h.record.firewall))))
      && (after.record.firewall.Some? ==> ValidRange(after.record.firewall.value.start, after.record.firewall.value.end))
      && (after.env == h.env || (target != [] &&
            after.env in {Rewrite(h.env, target), Rewrite(Rewrite(h.env, target), OldRange(h.env))}))
  {
    var DeploymentRequest(source, start, end) := request;
    if source.Some? && ValidRange(start, end) && fx.edit {
      var h1 := UpdateEnv(h, RangeSettings(Str(start), Str(end)), true).0;
      var rule := Rule(source.value, start, end);
      FirewallFrame(h1, Some(rule), fx.firewall);
      var h2 := ApplyFirewall(h1, rule, fx.firewall).0;
      assert h2 == ResetFirewall(h1, Some(rule), fx.firewall).0;
      UndoFrame(h2, OldRange(h.env), h.record.firewall, fx);
    }
  }

  ghost predicate OnlySlotsDiffer(config: Config, a: Files, b: Files) {
    forall p :: p !in Managed(config) ==> Get(a, p) == Get(b, p)
  }

  lemma RestoreFrame(config: Config, h: Host, backup: nat, fault: Fault)
    ensures var after := RestoreRuntime(config, h, backup, fault).0;
      after == h.(files := after.files) && OnlySlotsDiffer(config, h.files, after.files)
  {
    if backup in h.runtimeBackups && |h.runtimeBackups[backup]| == SLOTS {
      forall p | p !in Managed(config) ensures Get(h.files, p) == Get(RestoreRuntime(config, h, backup, fault).0.files, p) {
        WriteFrame(h.files, Managed(config), h.runtimeBackups[backup], fault, 0, p);
      }
    }
  }

  lemma DeployRuntimeFrame(config: Config, h: Host, bundle: Snapshot, fx: UpgradeEffects)
    requires |bundle| == SLOTS
    ensures var (after, outcome) := DeployRuntime(config, h, bundle, fx);
      && after == h.(files := after.files, runtimeBackups := after.runtimeBackups)
      && OnlySlotsDiffer(config, h.files, after.files)
      && after.runtimeBackups
         == (if fx.snapshot then h.runtimeBackups[fx.snapshotId := Snap(h.files, BackedUp(config))] else h.runtimeBackups)
      && (outcome.Done? ==> fx.snapshot)
  {
    if fx.snapshot {
      var h1 := h.(runtimeBackups := h.runtimeBackups[fx.snapshotId := Snap(h.files, BackedUp(config))]);
      var files := WriteAll(h1.files, Managed(config), bundle, fx.copy).0;
      forall p | p !in Managed(config) ensures Get(h.files, p) == Get(files, p) {
        WriteFrame(h.files, Managed(config), bundle, fx.copy, 0, p);
      }
      RestoreFrame(config, h1.(files := files), fx.snapshotId, fx.unwind);
    }
  }

  lemma CompensateFrame(config: Config, h: Host, prior: seq<Setting>, fx: UpgradeEffects)
    ensures var after := Compensate(config, h, prior, fx);
      && after == h.(env := after.env, files := after.files, database := after.database)
      && after.env in {h.env, Rewrite(h.env, prior)}
      && OnlySlotsDiffer(config, h.files, after.files)
  {
    RestoreFrame(config, UpdateEnv(h, prior, true).0, fx.snapshotId, fx.undoFiles);
  }

  lemma InstallFrame(config: Config, h: Host, request: UpgradeRequest, fx: UpgradeEffects, prior: seq<Setting>)
    requires Ready(h, request, fx)
    ensures var (after, outcome) := Install(config, h, request, fx, prior);
      var target := ImageSettings(fx.verified.value, Canonical(request.version));
      var dumped := h.databaseBackups[fx.dumpId := h.database];
      var snapped := h.runtimeBackups[fx.snapshotId := Snap(h.files, BackedUp(config))];
      && after == h.(env := after.env, files := after.files, database := after.database,
                     databaseBackups := after.databaseBackups, runtimeBackups := after.runtimeBackups)
      && OnlySlotsDiffer(config, h.files, after.files)
      && after.databaseBackups in {h.databaseBackups, dumped}
      && after.runtimeBackups in {h.runtimeBackups, snapped}
      && (outcome.Done? ==> after.databaseBackups == dumped && after.runtimeBackups == snapped)
      && after.env in {h.env, Rewrite(h.env, target), Rewrite(h.env, prior), Rewrite(Rewrite(h.env, target), prior)}
  {
    if fx.dump {
      var target := ImageSettings(fx.verified.value, Canonical(request.version));
      var h1 := h.(databaseBackups := h.databaseBackups[fx.dumpId := h.database]);
      var (h2, deployed) := DeployRuntime(config, h1, fx.bundle.value, fx);
      DeployRuntimeFrame(config, h1, fx.bundle.value, fx);
      if deployed.Done? {
        var (h3, started) := Start(h2, target, fx);
        CompensateFrame(config, h3, prior, fx);
      }
    }
  }

  lemma GrownKeepsPoint(h: Host, after: Host)
    requires after.record == h.record
    requires forall id :: id in h.databaseBackups ==>
      id in after.databaseBackups && after.databaseBackups[id] == h.databaseBackups[id]
    requires forall id :: id in h.runtimeBackups ==>
      id in after.runtimeBackups && after.runtimeBackups[id] == h.runtimeBackups[id]
    ensures SamePoint(h, after)
  {
  }

  lemma InstallGrows(config: Config, h: Host, request: UpgradeRequest, fx: UpgradeEffects, prior: seq<Setting>)
    requires Fresh(h, fx) && Ready(h, request, fx)
    ensures SamePoint(h, Install(config, h, request, fx, prior).0)
  {
    InstallFrame(config, h, request, fx, prior);
    GrownKeepsPoint(h, Install(config, h, request, fx, prior).0);
  }

  lemma UpgradeFrame(config: Config, h: Host, request: UpgradeRequest, fx: UpgradeEffects)
    ensures var (after, outcome) := Upgrade(config, h, request, fx);
      && after.rules == h.rules && after.record.firewall == h.record.firewall
      && OnlySlotsDiffer(config, h.files, after.files)
      && (outcome.Raised? ==> after.record == h.record)
      && (outcome.Done? ==>
            && Ready(h, request, fx)
            && after.record.rollback == Some(RollbackPoint(OldSettings(h, OldImage(h, fx).value),
                                                           Some(fx.dumpId), Some(fx.snapshotId), None)))
  {
    if Ready(h, request, fx) {
      var prior := OldSettings(h, OldImage(h, fx).value);
      InstallFrame(config, h, request, fx, prior);
      FinishFrame(Install(config, h, request, fx, prior).0, prior, fx.verified.value, fx);
    }
  }

  /** A failed upgrade leaves the earlier point intact, provided its last write is not what failed. */
  lemma FailedUpgradeKeepsPoint(config: Config, h: Host, request: UpgradeRequest, fx: UpgradeEffects)
    requires Fresh(h, fx) && fx.write && Upgrade(config, h, request, fx).1.Raised?
    ensures SamePoint(h, Upgrade(config, h, request, fx).0)
  {
    if Ready(h, request, fx) {
      var prior := OldSettings(h, OldImage(h, fx).value);
      InstallGrows(config, h, request, fx, prior);
      FinishFrame(Install(config, h, request, fx, prior).0, prior, fx.verified.value, fx);
    } else {
      GrownKeepsPoint(h, h);
    }
  }

  lemma FinishFrame(h: Host, prior: seq<Setting>, image: string, fx: UpgradeEffects)
    ensures var (after, outcome) := FinishUpgrade(h, prior, image, fx);
      && (outcome.Done? <==> fx.write)
      && after == h.(databaseBackups := after.databaseBackups, runtimeBackups := after.runtimeBackups, record := after.record)
      && after.record.firewall == h.record.firewall
      && (fx.write ==> after.record.rollback == Some(RollbackPoint(prior, Some(fx.dumpId), Some(fx.snapshotId), None)))
      && (!fx.write ==> after.record == h.record)
  {
  }

  /** A successful upgrade on a usable host keeps exactly its own two backups beside the unnamed ones. */
  lemma UpgradeBackups(config: Config, h: Host, request: UpgradeRequest, fx: UpgradeEffects)
    requires Fresh(h, fx) && Usable(h)
    requires Upgrade(config, h, request, fx).1.Done?
    ensures var after := Upgrade(config, h, request, fx).0;
      && fx.dumpId in after.databaseBackups && after.databaseBackups[fx.dumpId] == h.database
      && fx.snapshotId in after.runtimeBackups
      && after.runtimeBackups[fx.snapshotId] == Snap(h.files, BackedUp(config))
  {
    InstallFrame(config, h, request, fx, OldSettings(h, OldImage(h, fx).value));
  }

  lemma RestoreBackupsFrame(config: Config, h: Host, point: RollbackPoint, fx: RollbackEffects)
    ensures var after := RestoreBackups(config, h, point, fx).0;
      && after == h.(files := after.files, database := after.database)
      && OnlySlotsDiffer(config, h.files, after.files)
  {
    if point.runtimeBackup.Some? {
      RestoreFrame(config, h, point.runtimeBackup.value, fx.files);
    }
  }

  lemma RollbackFrame(config: Config, h: Host, fx: RollbackEffects)
    requires RulesValid(h)
    ensures var after := Rollback(config, h, fx).0;
      && after == h.(env := after.env, files := after.files, database := after.database,
                     rules := after.rules, record := h.record.(firewall := after.record.firewall))
      && OnlySlotsDiffer(config, h.files, after.files)
      && (after.record.firewall.Some? ==> ValidRange(after.record.firewall.value.start, after.record.firewall.value.end))
      && (after.env == h.env || (h.record.rollback.Some? && after.env == Rewrite(h.env, h.record.rollback.value.env)))
  {
    if h.record.rollback.Some? && h.record.rollback.value.env != [] && fx.edit {
      var point := h.record.rollback.value;
      var h1 := UpdateEnv(h, point.env, true).0;
      var (h2, restored) := RestoreBackups(config, h1, point, fx);
      assert Rollback(config, h, fx).0 == if restored.Raised? then h2 else FinishRollback(h2, point, fx).0;
      RestoreBackupsFrame(config, h1, point, fx);
      FinishRollbackFrame(h2, point, fx);
    }
  }

  lemma FinishRollbackFrame(h: Host, point: RollbackPoint, fx: RollbackEffects)
    requires point.firewall.Some? && point.firewall.value.Some? ==>
      ValidRange(point.firewall.value.value.start, point.firewall.value.value.end)
    ensures var after := FinishRollback(h, point, fx).0;
      && after == h.(rules := after.rules, record := h.record.(firewall := after.record.firewall))
      && (after.record.firewall == h.record.firewall || point.firewall == Some(after.record.firewall))
  {
    if point.firewall.Some? {
      FirewallFrame(h, point.firewall.value, fx.firewall);
    }
  }

  // -- all jobs

  /** A job that does not commit, a failed upgrade included, leaves the earlier point intact. */
  lemma NonCommitKeepsPoint(config: Config, h: Host, job: Job)
    requires Remembered(h) && Admissible(h, job) && !Commits(config, h, job)
    ensures SamePoint(h, Step(config, h, job).0)
  {
    match job
    case Deploy(request, fx) => DeploymentFrame(h, request, fx);
    case Upgrading(request, fx) => FailedUpgradeKeepsPoint(config, h, request, fx);
    case RollingBack(fx) => RollbackFrame(config, h, fx);
    case Applying(request, fx) =>
    case Removing(fx) =>
  }

  /** Whatever fails, what the agent remembers stays its own. */
  lemma StepKeepsRemembered(config: Config, h: Host, job: Job)
    requires Remembered(h)
    ensures Remembered(Step(config, h, job).0)
  {
    match job
    case Deploy(request, fx) => DeploymentFrame(h, request, fx);
    case Upgrading(request, fx) =>
      UpgradeFrame(config, h, request, fx);
      if Upgrade(config, h, request, fx).1.Done? {
        assert OwnSettings(OldSettings(h, OldImage(h, fx).value));
      }
    case RollingBack(fx) => RollbackFrame(config, h, fx);
    case Applying(request, fx) =>
    case Removing(fx) =>
  }

  /** Every job keeps the recorded point usable, whatever else fails. */
  lemma StepKeepsUsable(config: Config, h: Host, job: Job)
    requires Usable(h) && Admissible(h, job)
    ensures Usable(Step(config, h, job).0)
  {
    StepKeepsRemembered(config, h, job);
    if !Commits(config, h, job) {
      NonCommitKeepsPoint(config, h, job);
    } else if job.Deploy? {
      DeploymentFrame(h, job.deployment, job.deploymentEffects);
    } else {
      UpgradeFrame(config, h, job.upgrade, job.upgradeEffects);
      UpgradeBackups(config, h, job.upgrade, job.upgradeEffects);
    }
  }

  /**
   One upgrade keeps the point usable exactly when the last write succeeds or there was nothing to
   lose: the old backups are deleted BEFORE the new point is recorded.
   */
  lemma UpgradeKeepsUsableIff(config: Config, h: Host, request: UpgradeRequest, fx: UpgradeEffects)
    requires Usable(h) && Fresh(h, fx)
    ensures Usable(Upgrade(config, h, request, fx).0)
       <==> !(Forward(h, request, fx.(write := true), config) && !fx.write
              && h.record.rollback.Some?
              && (h.record.rollback.value.databaseBackup.Some? || h.record.rollback.value.runtimeBackup.Some?))
  {
    if fx.write {
      StepKeepsUsable(config, h, Upgrading(request, fx));
    } else if Forward(h, request, fx.(write := true), config) {
      UnrecordedUpgradeUsableIff(config, h, request, fx);
    } else {
      WriteFlagUnread(config, h, request, fx);
      StepKeepsUsable(config, h, Upgrading(request, fx.(write := true)));
    }
  }

  lemma UnrecordedUpgradeUsableIff(config: Config, h: Host, request: UpgradeRequest, fx: UpgradeEffects)
    requires Usable(h) && Fresh(h, fx) && Forward(h, request, fx.(write := true), config) && !fx.write
    ensures Usable(Upgrade(config, h, request, fx).0)
       <==> !(h.record.rollback.Some?
              && (h.record.rollback.value.databaseBackup.Some? || h.record.rollback.value.runtimeBackup.Some?))
  {
    var prior := OldSettings(h, OldImage(h, fx).value);
    InstallSucceedsIff(config, h, request, fx, prior);
    InstallKeepsUsable(config, h, request, fx, prior);
    InstallFrame(config, h, request, fx, prior);
    UnrecordedFinishLosesPoint(Install(config, h, request, fx, prior).0, prior, fx.verified.value, fx);
  }

  lemma InstallKeepsUsable(config: Config, h: Host, request: UpgradeRequest, fx: UpgradeEffects, prior: seq<Setting>)
    requires Usable(h) && Fresh(h, fx) && Ready(h, request, fx)
    ensures Usable(Install(config, h, request, fx, prior).0)
  {
    InstallFrame(config, h, request, fx, prior);
    InstallGrows(config, h, request, fx, prior);
  }

  lemma InstallSucceedsIff(config: Config, h: Host, request: UpgradeRequest, fx: UpgradeEffects, prior: seq<Setting>)
    requires Ready(h, request, fx)
    ensures Install(config, h, request, fx, prior).1.Done? <==> Forward(h, request, fx.(write := true), config)
  {
  }

  lemma UnrecordedFinishLosesPoint(h: Host, prior: seq<Setting>, image: string, fx: UpgradeEffects)
    requires Usable(h) && !fx.write
    ensures Usable(FinishUpgrade(h, prior, image, fx).0)
       <==> !(h.record.rollback.Some?
              && (h.record.rollback.value.databaseBackup.Some? || h.record.rollback.value.runtimeBackup.Some?))
  {
  }

  lemma StepKeepsTidy(config: Config, h: Host, job: Job)
    requires Tidy(h.env) && Remembered(h)
    ensures Tidy(Step(config, h, job).0.env)
  {
    match job
    case Deploy(request, fx) =>
      DeploymentFrame(h, request, fx);
      if request.source.Some? && ValidRange(request.start, request.end) {
        TidyThereAndBack(h.env, RangeSettings(Str(request.start), Str(request.end)), OldRange(h.env));
      }
    case Upgrading(request, fx) =>
      if Ready(h, request, fx) {
        var prior := OldSettings(h, OldImage(h, fx).value);
        InstallFrame(config, h, request, fx, prior);
        TidyThereAndBack(h.env, ImageSettings(fx.verified.value, Canonical(request.version)), prior);
      }
    case RollingBack(fx) =>
      RollbackFrame(config, h, fx);
      if h.record.rollback.Some? {
        EditStaysTidy(h.env, h.record.rollback.value.env);
      }
    case Applying(request, fx) =>
    case Removing(fx) =>
  }

  lemma TidyThereAndBack(env: seq<string>, target: seq<Setting>, prior: seq<Setting>)
    requires Tidy(env)
    requires OwnSettings(target) && OwnSettings(prior)
    ensures Tidy(Rewrite(env, target)) && Tidy(Rewrite(env, prior)) && Tidy(Rewrite(Rewrite(env, target), prior))
  {
    EditStaysTidy(env, target);
    EditStaysTidy(env, prior);
    EditStaysTidy(Rewrite(env, target), prior);
  }

  // ------------------------------------------ an upgrade whose last write fails

  /** Every forward step succeeded except the last write of the state file. */
  ghost predicate Unrecorded(h: Host, request: UpgradeRequest, fx: UpgradeEffects, config: Config) {
    Forward(h, request, fx.(write := true), config) && !fx.write
  }

  ghost predicate SlotsHold(config: Config, files: Files, snapshot: Snapshot) {
    |snapshot| == SLOTS && forall k :: 0 <= k < SLOTS ==> Get(files, Managed(config)[k]) == snapshot[k]
  }

  lemma WrittenSlotsHold(config: Config, files: Files, contents: Snapshot, fault: Fault)
    requires Installed(config) && |contents| == SLOTS && WriteAll(files, Managed(config), contents, fault).1
    ensures SlotsHold(config, WriteAll(files, Managed(config), contents, fault).0, contents)
  {
    forall k | 0 <= k < SLOTS
      ensures Get(WriteAll(files, Managed(config), contents, fault).0, Managed(config)[k]) == contents[k]
    {
      WriteFills(files, Managed(config), contents, fault, 0, k);
    }
  }

  lemma ImageReads(env: seq<string>, image: string, version: string)
    requires Tidy(env)
    ensures Lookup(Rewrite(env, ImageSettings(image, version)), IMAGE, "") == image
    ensures Lookup(Rewrite(env, ImageSettings(image, version)), VERSION, "unknown") == version
  {
    var settings := ImageSettings(image, version);
    assert OwnSettings(settings);
    OwnSettingsMap(settings);
    OwnEditReads(env, settings);
    OwnKeysDiffer();
  }

  /** What the guarded block leaves when it does not raise. */
  lemma InstalledState(config: Config, h: Host, request: UpgradeRequest, fx: UpgradeEffects, prior: seq<Setting>)
    requires Forward(h, request, fx.(write := true), config)
    ensures var (h1, installed) := Install(config, h, request, fx, prior);
      && installed.Done?
      && h1.files == WriteAll(h.files, Managed(config), fx.bundle.value, fx.copy).0 && h1.database == fx.migrated
      && h1.env == Rewrite(h.env, ImageSettings(fx.verified.value, Canonical(request.version)))
      && h1.record == h.record && h1.rules == h.rules
  {
    InstallFrame(config, h, request, fx, prior);
  }

  /**
   When only the last write fails, the job fails and the upgrade is in effect all the same: new
   files, image, version and database, the record of before and, gone, the backups it names.
   */
  lemma UnrecordedUpgradeStaysInEffect(config: Config, h: Host, request: UpgradeRequest, fx: UpgradeEffects)
    requires Installed(config) && Tidy(h.env) && Unrecorded(h, request, fx, config)
    ensures var (after, outcome) := Upgrade(config, h, request, fx);
      && outcome.Raised?
      && SlotsHold(config, after.files, fx.bundle.value) && OnlySlotsDiffer(config, h.files, after.files)
      && after.database == fx.migrated && after.rules == h.rules && after.record == h.record
      && Lookup(after.env, IMAGE, "") == fx.verified.value
      && Lookup(after.env, VERSION, "unknown") == Canonical(request.version)
    ensures h.record.rollback.Some? ==>
      var (after, point) := (Upgrade(config, h, request, fx).0, h.record.rollback.value);
      && (point.databaseBackup.Some? ==> point.databaseBackup.value !in after.databaseBackups)
      && (point.runtimeBackup.Some? ==> point.runtimeBackup.value !in after.runtimeBackups)
  {
    var prior := OldSettings(h, OldImage(h, fx).value);
    InstalledState(config, h, request, fx, prior);
    FinishFrame(Install(config, h, request, fx, prior).0, prior, fx.verified.value, fx);
    WrittenSlotsHold(config, h.files, fx.bundle.value, fx.copy);
    UpgradeFrame(config, h, request, fx);
    ImageReads(h.env, fx.verified.value, Canonical(request.version));
  }

  /** Image and version read as before; an image that was not set may have become the running one. */
  ghost predicate ImageBack(h: Host, fx: UpgradeEffects, image: string, version: string) {
    && version == Lookup(h.env, VERSION, "unknown")
    && (image == Lookup(h.env, IMAGE, "") || (Lookup(h.env, IMAGE, "") == "" && Some(image) == fx.currentImage))
  }

  /** Everything is as before the upgrade: files, database, rules, record, earlier backups, image, version. */
  ghost predicate Undone(h: Host, fx: UpgradeEffects, after: Host) {
    Untouched(h, after) && ImageBack(h, fx, Lookup(after.env, IMAGE, ""), Lookup(after.env, VERSION, "unknown"))
  }

  /** The recorded point names a backup that is there to be deleted. */
  ghost predicate NamesBackup(h: Host) {
    h.record.rollback.Some?
    && var point := h.record.rollback.value;
       || (point.databaseBackup.Some? && point.databaseBackup.value in h.databaseBackups)
       || (point.runtimeBackup.Some? && point.runtimeBackup.value in h.runtimeBackups)
  }

  /** The upgrade asks for what is there already, and has no earlier backup to delete. */
  ghost predicate AsksNothing(config: Config, h: Host, request: UpgradeRequest, fx: UpgradeEffects)
    requires fx.bundle.Some? && fx.verified.Some?
  {
    && fx.bundle.value == Snap(h.files, Managed(config)) && fx.migrated == h.database
    && ImageBack(h, fx, fx.verified.value, Canonical(request.version)) && !NamesBackup(h)
  }

  /**
   Exactly when a failed upgrade, whose compensation succeeds as far as it runs, is undone: unless
   only its last write failed, or it asked for nothing new and had no earlier backup to delete.
   */
  lemma FailedUpgradeUndoneIff(config: Config, h: Host, request: UpgradeRequest, fx: UpgradeEffects)
    requires Installed(config) && Fresh(h, fx) && Tidy(h.env) && Compensated(fx)
    requires Upgrade(config, h, request, fx).1.Raised?
    ensures Undone(h, fx, Upgrade(config, h, request, fx).0)
       <==> !Unrecorded(h, request, fx, config) || AsksNothing(config, h, request, fx)
  {
    UpgradeSucceedsIff(config, h, request, fx);
    if Unrecorded(h, request, fx, config) {
      UnrecordedUndoneIff(config, h, request, fx);
    } else {
      var written := fx.(write := true);
      WriteFlagUnread(config, h, request, fx);
      UpgradeAllOrNothing(config, h, request, written);
      CompensatedReads(config, h, request, written);
    }
  }

  lemma CompensatedReads(config: Config, h: Host, request: UpgradeRequest, fx: UpgradeEffects)
    requires Installed(config) && Fresh(h, fx) && Tidy(h.env)
    requires !Forward(h, request, fx, config) && fx.write && Compensated(fx)
    ensures var after := Upgrade(config, h, request, fx).0;
      ImageBack(h, fx, Lookup(after.env, IMAGE, ""), Lookup(after.env, VERSION, "unknown"))
  {
    UpgradeAllOrNothing(config, h, request, fx);
    if Deployed(h, request, fx, config) {
      var prior := OldSettings(h, OldImage(h, fx).value);
      assert OwnSettings(prior);
      OwnSettingsMap(prior);
      OwnKeysDiffer();
    }
  }

  lemma UnrecordedUndoneIff(config: Config, h: Host, request: UpgradeRequest, fx: UpgradeEffects)
    requires Installed(config) && Fresh(h, fx) && Tidy(h.env) && Unrecorded(h, request, fx, config)
    ensures Undone(h, fx, Upgrade(config, h, request, fx).0) <==> AsksNothing(config, h, request, fx)
  {
    var after := Upgrade(config, h, request, fx).0;
    UnrecordedUpgradeStaysInEffect(config, h, request, fx);
    SameSlotsSameFiles(config, h.files, after.files, fx.bundle.value);
    UnrecordedBackups(config, h, request, fx);
  }

  lemma UnrecordedBackups(config: Config, h: Host, request: UpgradeRequest, fx: UpgradeEffects)
    requires Fresh(h, fx) && Unrecorded(h, request, fx, config)
    ensures var after := Upgrade(config, h, request, fx).0;
      && ((forall id :: id in h.databaseBackups ==>
             id in after.databaseBackups && after.databaseBackups[id] == h.databaseBackups[id])
          && (forall id :: id in h.runtimeBackups ==>
                id in after.runtimeBackups && after.runtimeBackups[id] == h.runtimeBackups[id])
          <==> !NamesBackup(h))
  {
    var prior := OldSettings(h, OldImage(h, fx).value);
    InstallFrame(config, h, request, fx, prior);
    InstallSucceedsIff(config, h, request, fx, prior);
    FinishFrame(Install(config, h, request, fx, prior).0, prior, fx.verified.value, fx);
  }

  lemma SameSlotsSameFiles(config: Config, before: Files, after: Files, contents: Snapshot)
    requires OnlySlotsDiffer(config, before, after) && SlotsHold(config, after, contents)
    ensures after == before <==> contents == Snap(before, Managed(config))
  {
    if contents == Snap(before, Managed(config)) {
      forall p ensures Get(after, p) == Get(before, p) {
        if p in Managed(config) {
          var k :| 0 <= k < SLOTS && Managed(config)[k] == p;
        }
      }
      SameFiles(after, before);
    }
  }

  /** An upgrade that raises before its last write does not depend on how that write would go. */
  lemma WriteFlagUnread(config: Config, h: Host, request: UpgradeRequest, fx: UpgradeEffects)
    requires !Forward(h, request, fx.(write := true), config)
    ensures Upgrade(config, h, request, fx) == Upgrade(config, h, request, fx.(write := true))
  {
    if Ready(h, request, fx) {
      InstallSucceedsIff(config, h, request, fx, OldSettings(h, OldImage(h, fx).value));
    }
  }

  // --------------------------------------------------------------- witnesses

  /** Effects under which every step of an upgrade succeeds, but perhaps its last write. */
  function SmoothUpgrade(bundle: Snapshot, name: nat, write: bool): UpgradeEffects {
    UpgradeEffects(Some("image"), Some("image"), true, Some(bundle), true, name, true, name, Sound, Sound,
                   true, true, "migrated", true, true, Sound, Restored, write)
  }

  /** From a fresh host: one upgrade, then one whose last write fails, and the point is lost. */
  lemma PointLost(config: Config, env: seq<string>, files: Files, database: string, bundle: Snapshot, request: UpgradeRequest)
    requires |bundle| == SLOTS && request.accepted
    ensures var h1 := Upgrade(config, FreshHost(env, files, database), request, SmoothUpgrade(bundle, 0, true)).0;
      var h2 := Upgrade(config, h1, request, SmoothUpgrade(bundle, 1, false)).0;
      Usable(h1) && !Usable(h2)
  {
    var h0 := FreshHost(env, files, database);
    var fx1, fx2 := SmoothUpgrade(bundle, 0, true), SmoothUpgrade(bundle, 1, false);
    SmoothIsForward(config, h0, request, bundle, 0, true);
    var h1 := Upgrade(config, h0, request, fx1).0;
    StepKeepsUsable(config, h0, Upgrading(request, fx1));
    UpgradeFrame(config, h0, request, fx1);
    SmoothNamesUsed(config, h0, request, fx1);
    SmoothIsForward(config, h1, request, bundle, 1, false);
    UpgradeKeepsUsableIff(config, h1, request, fx2);
  }

  lemma SmoothIsForward(config: Config, h: Host, request: UpgradeRequest, bundle: Snapshot, name: nat, write: bool)
    requires |bundle| == SLOTS && request.accepted
    ensures Forward(h, request, SmoothUpgrade(bundle, name, write).(write := true), config)
    ensures Upgrade(config, h, request, SmoothUpgrade(bundle, name, true)).1.Done?
  {
    SoundWrites(h.files, Managed(config), bundle, 0);
    UpgradeSucceedsIff(config, h, request, SmoothUpgrade(bundle, name, true));
  }

  lemma SmoothNamesUsed(config: Config, h: Host, request: UpgradeRequest, fx: UpgradeEffects)
    requires h.databaseBackups == map[] && h.runtimeBackups == map[] && Ready(h, request, fx)
    ensures var after := Upgrade(config, h, request, fx).0;
      after.databaseBackups.Keys <= {fx.dumpId} && after.runtimeBackups.Keys <= {fx.snapshotId}
  {
    InstallFrame(config, h, request, fx, OldSettings(h, OldImage(h, fx).value));
  }

  /** From a fresh host: the rule is added, the state file is not written, the rule is stray. */
  lemma StrayRuleAppears(env: seq<string>, files: Files, database: string, rule: Rule)
    requires ValidRange(rule.start, rule.end)
    ensures var h := FreshHost(env, files, database);
      NoStrayRule(h) && !NoStrayRule(ApplyFirewall(h, rule, FirewallEffects(true, true, false)).0)
  {
    ApplyKeepsNoStrayRuleIff(FreshHost(env, files, database), rule, FirewallEffects(true, true, false));
  }
}
