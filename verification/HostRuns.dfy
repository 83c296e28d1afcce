/**
 The host agent over whole runs of serialised jobs: what every job keeps, where a rollback leads
 from anywhere in a run, and that rolling back again changes nothing.
 */
module HostRuns {
  import opened Basics
  import opened EnvFile
  import opened RuntimeFiles
  import opened HostJobs
  import opened HostGuarantees

  ghost predicate AdmissibleRun(config: Config, h: Host, jobs: seq<Job>)
    decreases |jobs|
  {
    jobs == [] || (Admissible(h, jobs[0]) && AdmissibleRun(config, Step(config, h, jobs[0]).0, jobs[1..]))
  }

  /** No job of the run sets a new rollback point: every upgrade and deployment in it fails. */
  ghost predicate NoCommit(config: Config, h: Host, jobs: seq<Job>)
    decreases |jobs|
  {
    jobs == [] || (!Commits(config, h, jobs[0]) && NoCommit(config, Step(config, h, jobs[0]).0, jobs[1..]))
  }

  /** The rollback point is usable and env sets no WOLT key twice. */
  ghost predicate Steady(h: Host) {
    Usable(h) && Tidy(h.env)
  }

  /** A host the agent has not touched yet. */
  lemma FreshHostIsSteady(env: seq<string>, files: Files, database: string)
    requires Tidy(env)
    ensures Steady(FreshHost(env, files, database)) && NoStrayRule(FreshHost(env, files, database))
  {
  }

  // --------------------------------------------- point and env, over any run

  lemma StepKeepsSteady(config: Config, h: Host, job: Job)
    requires Steady(h) && Admissible(h, job)
    ensures Steady(Step(config, h, job).0)
  {
    StepKeepsUsable(config, h, job);
    StepKeepsTidy(config, h, job);
  }

  /** In every run the recorded point is usable, so a rollback can always be carried out. */
  lemma {:induction false} RunStaysSteady(config: Config, h: Host, jobs: seq<Job>)
    requires Steady(h) && AdmissibleRun(config, h, jobs)
    ensures Steady(Run(config, h, jobs))
    decreases |jobs|
  {
    if jobs != [] {
      StepKeepsSteady(config, h, jobs[0]);
      RunStaysSteady(config, Step(config, h, jobs[0]).0, jobs[1..]);
    }
  }

  /** Failed jobs, however many and however they fail, leave the point and its backups intact. */
  lemma {:induction false} RunKeepsPoint(config: Config, h: Host, jobs: seq<Job>)
    requires Remembered(h) && AdmissibleRun(config, h, jobs) && NoCommit(config, h, jobs)
    ensures SamePoint(h, Run(config, h, jobs))
    decreases |jobs|
  {
    if jobs != [] {
      var next := Step(config, h, jobs[0]).0;
      NonCommitKeepsPoint(config, h, jobs[0]);
      StepKeepsRemembered(config, h, jobs[0]);
      RunKeepsPoint(config, next, jobs[1..]);
    }
  }

  // ------------------------------------------------- firewall, over any run

  /** The firewall writes of the job reach the state file. */
  ghost predicate Recording(job: Job) {
    match job
    case Deploy(_, fx) => fx.firewall.write && fx.undoFirewall.write
    case RollingBack(fx) => fx.firewall.write
    case Applying(_, fx) => fx.write
    case _ => true
  }

  lemma ResetKeepsNoStrayRule(h: Host, previous: Option<Rule>, fx: FirewallEffects)
    requires NoStrayRule(h) && (previous.Some? ==> fx.write)
    ensures NoStrayRule(ResetFirewall(h, previous, fx).0)
  {
    if previous.Some? {
      ApplyKeepsNoStrayRuleIff(h, previous.value, fx);
    }
  }

  lemma DeploymentKeepsNoStrayRule(h: Host, request: DeploymentRequest, fx: DeploymentEffects)
    requires NoStrayRule(h) && fx.firewall.write && fx.undoFirewall.write
    ensures NoStrayRule(Deployment(h, request, fx).0)
  {
    var DeploymentRequest(source, start, end) := request;
    if source.Some? && ValidRange(start, end) && fx.edit {
      var h1 := UpdateEnv(h, RangeSettings(Str(start), Str(end)), true).0;
      var rule := Rule(source.value, start, end);
      ApplyKeepsNoStrayRuleIff(h1, rule, fx.firewall);
      var h2 := ApplyFirewall(h1, rule, fx.firewall).0;
      ResetKeepsNoStrayRule(UpdateEnv(h2, OldRange(h.env), true).0, h.record.firewall, fx.undoFirewall);
    }
  }

  lemma RollbackKeepsNoStrayRule(config: Config, h: Host, fx: RollbackEffects)
    requires NoStrayRule(h) && fx.firewall.write
    ensures NoStrayRule(Rollback(config, h, fx).0)
  {
    if h.record.rollback.Some? && h.record.rollback.value.env != [] && fx.edit {
      var point := h.record.rollback.value;
      var h1 := UpdateEnv(h, point.env, true).0;
      RestoreBackupsFrame(config, h1, point, fx);
      FinishKeepsNoStrayRule(RestoreBackups(config, h1, point, fx).0, point, fx);
    }
  }

  lemma FinishKeepsNoStrayRule(h: Host, point: RollbackPoint, fx: RollbackEffects)
    requires NoStrayRule(h) && fx.firewall.write
    ensures NoStrayRule(FinishRollback(h, point, fx).0)
  {
    if point.firewall.Some? {
      ResetKeepsNoStrayRule(h, point.firewall.value, fx.firewall);
    }
  }

  lemma StepKeepsNoStrayRule(config: Config, h: Host, job: Job)
    requires NoStrayRule(h) && Recording(job)
    ensures NoStrayRule(Step(config, h, job).0)
  {
    match job
    case Deploy(request, fx) => DeploymentKeepsNoStrayRule(h, request, fx);
    case Upgrading(request, fx) => UpgradeFrame(config, h, request, fx);
    case RollingBack(fx) => RollbackKeepsNoStrayRule(config, h, fx);
    case Applying(request, fx) =>
      if request.source.Some? {
        ApplyKeepsNoStrayRuleIff(h, Rule(request.source.value, request.start, request.end), fx);
      }
    case Removing(fx) => ResetKeepsNoStrayRule(h, None, fx);
  }

  /** In every run whose firewall writes succeed, whatever else fails, UFW never holds a stray rule. */
  lemma {:induction false} RunLeavesNoStrayRule(config: Config, h: Host, jobs: seq<Job>)
    requires NoStrayRule(h) && forall i :: 0 <= i < |jobs| ==> Recording(jobs[i])
    ensures NoStrayRule(Run(config, h, jobs))
    decreases |jobs|
  {
    if jobs != [] {
      StepKeepsNoStrayRule(config, h, jobs[0]);
      RunLeavesNoStrayRule(config, Step(config, h, jobs[0]).0, jobs[1..]);
    }
  }

  // ------------------------------------------ what no job of any run touches

  ghost predicate Foreign(key: string) {
    key != UDP_START && key != UDP_END && key != IMAGE && key != VERSION
  }

  lemma OwnEditKeepsForeign(env: seq<string>, settings: seq<Setting>, key: string)
    requires OwnSettings(settings) && Foreign(key)
    ensures Value(Rewrite(env, settings), key) == Value(env, key)
  {
    OwnSettingsMap(settings);
    FindInMap(settings, key);
    EditedValue(env, settings, key);
  }

  lemma StepTouchesOnlyItsOwn(config: Config, h: Host, job: Job, key: string)
    requires Remembered(h) && Foreign(key)
    ensures OnlySlotsDiffer(config, h.files, Step(config, h, job).0.files)
    ensures Value(Step(config, h, job).0.env, key) == Value(h.env, key)
  {
    match job
    case Deploy(request, fx) =>
      DeploymentFrame(h, request, fx);
      if request.source.Some? && ValidRange(request.start, request.end) {
        ForeignThereAndBack(h.env, RangeSettings(Str(request.start), Str(request.end)), OldRange(h.env), key);
      }
    case Upgrading(request, fx) =>
      UpgradeFrame(config, h, request, fx);
      UpgradeKeepsForeign(config, h, request, fx, key);
    case RollingBack(fx) =>
      RollbackFrame(config, h, fx);
      if h.record.rollback.Some? {
        OwnEditKeepsForeign(h.env, h.record.rollback.value.env, key);
      }
    case Applying(request, fx) =>
    case Removing(fx) =>
  }

  lemma UpgradeKeepsForeign(config: Config, h: Host, request: UpgradeRequest, fx: UpgradeEffects, key: string)
    requires Foreign(key)
    ensures Value(Upgrade(config, h, request, fx).0.env, key) == Value(h.env, key)
  {
    if Ready(h, request, fx) {
      var prior := OldSettings(h, OldImage(h, fx).value);
      InstallFrame(config, h, request, fx, prior);
      ForeignThereAndBack(h.env, ImageSettings(fx.verified.value, Canonical(request.version)), prior, key);
      FinishFrame(Install(config, h, request, fx, prior).0, prior, fx.verified.value, fx);
    }
  }

  lemma ForeignThereAndBack(env: seq<string>, target: seq<Setting>, prior: seq<Setting>, key: string)
    requires OwnSettings(target) && OwnSettings(prior) && Foreign(key)
    ensures Value(Rewrite(env, target), key) == Value(env, key)
    ensures Value(Rewrite(env, prior), key) == Value(env, key)
    ensures Value(Rewrite(Rewrite(env, target), prior), key) == Value(env, key)
  {
    OwnEditKeepsForeign(env, target, key);
    OwnEditKeepsForeign(env, prior, key);
    OwnEditKeepsForeign(Rewrite(env, target), prior, key);
  }

  /** In every run, whatever fails, only the five slots and the four WOLT keys ever change on the host. */
  lemma {:induction false} RunTouchesOnlyItsOwn(config: Config, h: Host, jobs: seq<Job>, key: string)
    requires Remembered(h) && Foreign(key)
    ensures OnlySlotsDiffer(config, h.files, Run(config, h, jobs).files)
    ensures Value(Run(config, h, jobs).env, key) == Value(h.env, key)
    decreases |jobs|
  {
    if jobs != [] {
      StepTouchesOnlyItsOwn(config, h, jobs[0], key);
      StepKeepsRemembered(config, h, jobs[0]);
      RunTouchesOnlyItsOwn(config, Step(config, h, jobs[0]).0, jobs[1..], key);
    }
  }

  // ------------------------------------------------------------- rollback

  function RuleSet(rule: Option<Rule>): set<Rule> {
    if rule.Some? then {rule.value} else {}
  }

  /** The host is where the point says: env edited, slots and database as backed up, firewall reset. */
  ghost predicate AtPoint(config: Config, before: Host, after: Host, point: RollbackPoint) {
    && after.env == Rewrite(before.env, point.env)
    && (point.runtimeBackup.Some? ==>
          point.runtimeBackup.value in before.runtimeBackups
          && SlotsHold(config, after.files, before.runtimeBackups[point.runtimeBackup.value]))
    && (point.runtimeBackup.None? ==> after.files == before.files)
    && after.database == (if point.databaseBackup.Some? && point.databaseBackup.value in before.databaseBackups
                          then before.databaseBackups[point.databaseBackup.value] else before.database)
    && FirewallAtPoint(before, after, point)
    && after.record == before.record.(firewall := after.record.firewall)
    && after.databaseBackups == before.databaseBackups && after.runtimeBackups == before.runtimeBackups
    && OnlySlotsDiffer(config, before.files, after.files)
  }

  /** The remembered rule took the place of the recorded one; without strays it is the only one. */
  ghost predicate FirewallAtPoint(before: Host, after: Host, point: RollbackPoint) {
    if point.firewall.Some? then
      after.record.firewall == point.firewall.value
      && after.rules == before.rules - Recorded(before) + RuleSet(point.firewall.value)
    else after.record.firewall == before.record.firewall && after.rules == before.rules
  }

  lemma RestoreBackupsReaches(config: Config, h: Host, point: RollbackPoint, fx: RollbackEffects)
    requires Installed(config) && PointUsable(h, point)
    requires RestoreBackups(config, h, point, fx).1.Done?
    ensures var after := RestoreBackups(config, h, point, fx).0;
      && (point.runtimeBackup.Some? ==> SlotsHold(config, after.files, h.runtimeBackups[point.runtimeBackup.value]))
      && (point.runtimeBackup.None? ==> after.files == h.files)
      && after.database == (if point.databaseBackup.Some? then h.databaseBackups[point.databaseBackup.value] else h.database)
  {
    if point.runtimeBackup.Some? {
      WrittenSlotsHold(config, h.files, h.runtimeBackups[point.runtimeBackup.value], fx.files);
    }
  }

  /** A successful rollback leads exactly to the recorded point. */
  lemma RollbackReachesPoint(config: Config, h: Host, fx: RollbackEffects)
    requires Installed(config) && Usable(h) && Rollback(config, h, fx).1.Done?
    ensures h.record.rollback.Some?
    ensures AtPoint(config, h, Rollback(config, h, fx).0, h.record.rollback.value)
  {
    var point := h.record.rollback.value;
    var h1 := UpdateEnv(h, point.env, true).0;
    var (h2, restored) := RestoreBackups(config, h1, point, fx);
    assert restored.Done? && Rollback(config, h, fx) == FinishRollback(h2, point, fx);
    RestoreBackupsReaches(config, h1, point, fx);
    RestoreBackupsFrame(config, h1, point, fx);
    FinishReaches(h2, point, fx);
  }

  lemma ResetSwaps(h: Host, previous: Option<Rule>, fx: FirewallEffects)
    requires ResetFirewall(h, previous, fx).1.Done?
    ensures var after := ResetFirewall(h, previous, fx).0;
      && after == h.(rules := h.rules - Recorded(h) + RuleSet(previous), record := h.record.(firewall := previous))
  {
    if previous.Some? {
      assert h.rules - {previous.value} + {previous.value} == h.rules + {previous.value};
      assert h.record.firewall.None? ==> h.rules - Recorded(h) == h.rules;
    } else {
      assert h.rules - Recorded(h) + {} == h.rules - Recorded(h);
      assert h.record.firewall.None? ==> h.rules - Recorded(h) == h.rules;
    }
  }

  lemma FinishReaches(h: Host, point: RollbackPoint, fx: RollbackEffects)
    requires FinishRollback(h, point, fx).1.Done?
    ensures var after := FinishRollback(h, point, fx).0;
      && after == h.(rules := after.rules, record := h.record.(firewall := after.record.firewall))
      && FirewallAtPoint(h, after, point)
  {
    if point.firewall.Some? {
      ResetSwaps(h, point.firewall.value, fx.firewall);
    }
  }

  /** Rolling back again, if it succeeds, changes nothing at all. */
  lemma RollbackTwice(config: Config, h: Host, fx: RollbackEffects, again: RollbackEffects)
    requires Installed(config) && Usable(h)
    requires Rollback(config, h, fx).1.Done?
    requires Rollback(config, Rollback(config, h, fx).0, again).1.Done?
    ensures Rollback(config, Rollback(config, h, fx).0, again).0 == Rollback(config, h, fx).0
  {
    var once := Rollback(config, h, fx).0;
    RollbackReachesPoint(config, h, fx);
    StepKeepsUsable(config, h, RollingBack(fx));
    assert Step(config, h, RollingBack(fx)).0 == once;
    RollbackReachesPoint(config, once, again);
    var point := h.record.rollback.value;
    OwnSettingsMap(point.env);
    EditTwice(h.env, point.env);
    SamePointSameHost(config, h, once, Rollback(config, once, again).0, point);
  }

  lemma SamePointSameHost(config: Config, h: Host, once: Host, twice: Host, point: RollbackPoint)
    requires AtPoint(config, h, once, point) && AtPoint(config, once, twice, point)
    requires twice.env == once.env && PointUsable(h, point)
    ensures twice == once
  {
    forall p ensures Get(twice.files, p) == Get(once.files, p) {
      if p in Managed(config) {
        var k :| 0 <= k < SLOTS && Managed(config)[k] == p;
      }
    }
    SameFiles(twice.files, once.files);
    if point.firewall.Some? {
      assert Recorded(once) == RuleSet(point.firewall.value);
      assert twice.rules == once.rules;
    }
  }

  /**
   Rollback undoes the last successful upgrade. However many failed jobs, rollbacks and firewall
   changes came in between, and whatever failed in them, a successful rollback brings back every
   file and the database as they were before the upgrade, and image and version as they were or
   their fallbacks; keys that are not WOLT's read as before.
   */
  lemma RollbackUndoesUpgrade(config: Config, h0: Host, request: UpgradeRequest, fx: UpgradeEffects,
                              jobs: seq<Job>, undo: RollbackEffects, key: string)
    requires Installed(config) && Steady(h0) && Fresh(h0, fx)
    requires Upgrade(config, h0, request, fx).1.Done?
    requires AdmissibleRun(config, Upgrade(config, h0, request, fx).0, jobs)
    requires NoCommit(config, Upgrade(config, h0, request, fx).0, jobs)
    requires Rollback(config, Run(config, Upgrade(config, h0, request, fx).0, jobs), undo).1.Done?
    ensures OldImage(h0, fx).Some?
    ensures var h2 := Run(config, Upgrade(config, h0, request, fx).0, jobs);
      var h3 := Rollback(config, h2, undo).0;
      && h3.files == h0.files && h3.database == h0.database
      && (if Lookup(h0.env, IMAGE, "") != "" then Lookup(h3.env, IMAGE, "") == Lookup(h0.env, IMAGE, "")
          else Some(Lookup(h3.env, IMAGE, "")) == fx.currentImage)
      && Lookup(h3.env, VERSION, "unknown") == Lookup(h0.env, VERSION, "unknown")
      && (Foreign(key) ==> Value(h3.env, key) == Value(h0.env, key))
  {
    var job := Upgrading(request, fx);
    var h1 := Upgrade(config, h0, request, fx).0;
    var h2 := Run(config, h1, jobs);
    var h3 := Rollback(config, h2, undo).0;
    assert h1 == Step(config, h0, job).0;
    UpgradeSucceedsIff(config, h0, request, fx);
    StepKeepsSteady(config, h0, job);
    RunStaysSteady(config, h1, jobs);
    RunKeepsPoint(config, h1, jobs);
    UpgradeFrame(config, h0, request, fx);
    UpgradeBackups(config, h0, request, fx);
    RollbackReachesPoint(config, h2, undo);
    FilesBack(config, h0, h1, jobs, h3);
    ImageReads(h2.env, OldImage(h0, fx).value, Lookup(h0.env, VERSION, "unknown"));
    if Foreign(key) {
      StepTouchesOnlyItsOwn(config, h0, job, key);
      RunTouchesOnlyItsOwn(config, h1, jobs, key);
      OwnEditKeepsForeign(h2.env, h2.record.rollback.value.env, key);
    }
  }

  lemma FilesBack(config: Config, h0: Host, h1: Host, jobs: seq<Job>, h3: Host)
    requires Remembered(h1) && Installed(config)
    requires OnlySlotsDiffer(config, h0.files, h1.files)
    requires OnlySlotsDiffer(config, Run(config, h1, jobs).files, h3.files)
    requires SlotsHold(config, h3.files, Snap(h0.files, BackedUp(config)))
    ensures h3.files == h0.files
  {
    assert Foreign("") by {
      assert |UDP_START| > 0 && |UDP_END| > 0 && |IMAGE| > 0 && |VERSION| > 0;
    }
    RunTouchesOnlyItsOwn(config, h1, jobs, "");
    forall p ensures Get(h3.files, p) == Get(h0.files, p) {
      if p in Managed(config) {
        var k :| 0 <= k < SLOTS && Managed(config)[k] == p;
      }
    }
    SameFiles(h3.files, h0.files);
  }

  /**
   Rollback undoes the last successful deployment: the rule of before (or none) is recorded, the
   published range reads as before or as the default, and, if no stray rule crept in meanwhile,
   that rule is exactly what UFW holds.
   */
  lemma RollbackUndoesDeployment(config: Config, h0: Host, request: DeploymentRequest, fx: DeploymentEffects,
                                 jobs: seq<Job>, undo: RollbackEffects)
    requires Installed(config) && Steady(h0)
    requires Deployment(h0, request, fx).1.Done?
    requires AdmissibleRun(config, Deployment(h0, request, fx).0, jobs)
    requires NoCommit(config, Deployment(h0, request, fx).0, jobs)
    requires Rollback(config, Run(config, Deployment(h0, request, fx).0, jobs), undo).1.Done?
    ensures var h2 := Run(config, Deployment(h0, request, fx).0, jobs);
      var h3 := Rollback(config, h2, undo).0;
      && h3.record.firewall == h0.record.firewall && (NoStrayRule(h2) ==> h3.rules == Recorded(h0))
      && RangeReads(h3.env, Lookup(h0.env, UDP_START, "40000"), Lookup(h0.env, UDP_END, "40099"))
      && h3.files == h2.files && h3.database == h2.database
  {
    var job := Deploy(request, fx);
    var h1 := Deployment(h0, request, fx).0;
    var h2 := Run(config, h1, jobs);
    assert h1 == Step(config, h0, job).0;
    StepKeepsSteady(config, h0, job);
    RunStaysSteady(config, h1, jobs);
    RunKeepsPoint(config, h1, jobs);
    DeploymentFrame(h0, request, fx);
    RollbackReachesPoint(config, h2, undo);
    RangeAfterEdit(h2.env, Lookup(h0.env, UDP_START, "40000"), Lookup(h0.env, UDP_END, "40099"));
  }

  // ------------------------------------------------ what a success amounts to

  /** A successful deployment leaves exactly the requested rule and the requested range, and says so. */
  lemma DeploymentTakesEffect(h: Host, request: DeploymentRequest, fx: DeploymentEffects)
    requires Tidy(h.env) && NoStrayRule(h) && Deployment(h, request, fx).1.Done?
    ensures request.source.Some? && ValidRange(request.start, request.end)
    ensures var after := Deployment(h, request, fx).0;
      var rule := Rule(request.source.value, request.start, request.end);
      && after.rules == {rule} && after.record.firewall == Some(rule)
      && after.record.deployment == Some((request.start, request.end))
      && PortsRead(after.env, request.start, request.end)
      && after.files == h.files && after.database == h.database
  {
    var target := RangeSettings(Str(request.start), Str(request.end));
    var rule := Rule(request.source.value, request.start, request.end);
    ApplyLeavesExactlyRule(UpdateEnv(h, target, true).0, rule, fx.firewall);
    RangeAfterEdit(h.env, Str(request.start), Str(request.end));
    RangeAsNumbers(Deployment(h, request, fx).0.env, request.start, request.end);
  }

  /** The published range in env, read as numbers. */
  ghost predicate PortsRead(env: seq<string>, start: int, end: int) {
    Num(Lookup(env, UDP_START, "40000")) == start && Num(Lookup(env, UDP_END, "40099")) == end
  }

  lemma RangeAsNumbers(env: seq<string>, start: nat, end: nat)
    requires RangeReads(env, Str(start), Str(end))
    ensures PortsRead(env, start, end)
  {
    NumOfStr(start);
    NumOfStr(end);
  }

  /** On an empty env file, the lines of the file afterwards, letter by letter. */
  lemma DeploymentWritesLines(files: Files, database: string, fx: DeploymentEffects)
    requires Deployment(FreshHost([], files, database), DeploymentRequest(Some("192.0.2.1"), 41000, 41009), fx).1.Done?
    ensures Deployment(FreshHost([], files, database), DeploymentRequest(Some("192.0.2.1"), 41000, 41009), fx).0.env
         == ["WOLT_UDP_PUBLISHED_START=41000", "WOLT_UDP_PUBLISHED_END=41009"]
  {
    DecimalTexts();
    RangeLines("41000", "41009");
    assert UDP_START + "=" + "41000" == "WOLT_UDP_PUBLISHED_START=41000";
    assert UDP_END + "=" + "41009" == "WOLT_UDP_PUBLISHED_END=41009";
  }

  lemma RangeLines(start: string, end: string)
    ensures Rewrite([], RangeSettings(start, end)) == [UDP_START + "=" + start, UDP_END + "=" + end]
  {
    var settings := RangeSettings(start, end);
    var last := [Setting(UDP_END, end)];
    assert settings[1..] == last && last[1..] == [];
    assert RenderAll(last) == [Render(UDP_END, end)];
    assert RenderAll(settings) == [Render(UDP_START, start)] + RenderAll(last);
  }

  /** The version as written: it starts with 'v', and is the requested one or that one behind the 'v'. */
  predicate Tagged(version: string, written: string) {
    && |written| >= 1 && written[0] == 'v' && (written == version || written[1..] == version)
    && (|version| >= 1 && version[0] == 'v' ==> written == version)
  }

  /** A successful upgrade installs the bundle, names the verified image and the version, and says so. */
  lemma UpgradeTakesEffect(config: Config, h: Host, request: UpgradeRequest, fx: UpgradeEffects)
    requires Installed(config) && Tidy(h.env) && Upgrade(config, h, request, fx).1.Done?
    ensures Ready(h, request, fx)
    ensures var after := Upgrade(config, h, request, fx).0;
      && SlotsHold(config, after.files, fx.bundle.value)
      && Lookup(after.env, IMAGE, "") == fx.verified.value
      && Tagged(request.version, Lookup(after.env, VERSION, "unknown"))
      && after.record.lastSuccessful == fx.verified && after.database == fx.migrated
      && after.rules == h.rules && after.record.firewall == h.record.firewall
  {
    UpgradeSucceedsIff(config, h, request, fx);
    InstalledState(config, h, request, fx, OldSettings(h, OldImage(h, fx).value));
    WrittenSlotsHold(config, h.files, fx.bundle.value, fx.copy);
    ImageReads(h.env, fx.verified.value, Canonical(request.version));
  }
}
