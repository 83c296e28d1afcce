/**
 A firewall call is not refused while a job runs (host_agent/server.py, /v1/firewall/apply), and a
 deployment remembers the rule to go back to before its first effect. What a call in between does
 to the rollback point.
 */
module HostRaces {
  import opened Basics
  import opened EnvFile
  import opened RuntimeFiles
  import opened HostJobs
  import opened HostGuarantees
  import opened HostRuns

  predicate IsCall(job: Job) {
    job.Applying? || job.Removing?
  }

  /** The call goes through and puts another rule, or none, in the place of the recorded one. */
  predicate ChangesRule(h: Host, call: Job) {
    match call
    case Applying(request, fx) =>
      && request.source.Some? && ValidRange(request.start, request.end)
      && h.record.firewall != Some(Rule(request.source.value, request.start, request.end))
      && (h.record.firewall.Some? ==> fx.remove) && fx.add && fx.write
    case Removing(fx) => h.record.firewall.Some? && fx.remove && fx.write
    case _ => false
  }

  lemma CallFrame(config: Config, h: Host, call: Job)
    requires IsCall(call)
    ensures var after := Step(config, h, call).0;
      && after == h.(rules := after.rules, record := h.record.(firewall := after.record.firewall))
      && (after.record.firewall != h.record.firewall <==> ChangesRule(h, call))
  {
  }

  /**
   A deployment remembers its rule, a firewall call comes in, the deployment goes on and succeeds.
   It ends where it would have ended, had the call come first, if and only if the call did not
   change the recorded rule; if it did, the rollback point names the rule of before the call.
   */
  lemma CallBetweenChangesPointIff(config: Config, h: Host, call: Job, request: DeploymentRequest, fx: DeploymentEffects)
    requires IsCall(call) && DeploymentFrom(Step(config, h, call).0, request, fx, ReadDeployment(h)).1.Done?
    ensures var h1 := Step(config, h, call).0;
      var (raced, serial) := (DeploymentFrom(h1, request, fx, ReadDeployment(h)), Deployment(h1, request, fx));
      && serial.1.Done? && (raced == serial <==> !ChangesRule(h, call))
      && raced.0.record.rollback.Some? && serial.0.record.rollback.Some?
      && raced.0.record.rollback.value.firewall == Some(h.record.firewall)
      && raced.0 == serial.0.(record := serial.0.record.(rollback := raced.0.record.rollback))
  {
    CallFrame(config, h, call);
    var h1 := Step(config, h, call).0;
    SameButPoint(h1, request, fx, ReadDeployment(h), ReadDeployment(h1));
  }

  /** What a successful deployment remembers goes nowhere but into its rollback point. */
  lemma SameButPoint(h: Host, request: DeploymentRequest, fx: DeploymentEffects, a: DeploymentReads, b: DeploymentReads)
    requires DeploymentFrom(h, request, fx, a).1.Done?
    ensures var (one, other) := (DeploymentFrom(h, request, fx, a), DeploymentFrom(h, request, fx, b));
      && other.1.Done?
      && one.0.record.rollback == Some(RollbackPoint(a.prior, None, None, Some(a.previous)))
      && other.0.record.rollback == Some(RollbackPoint(b.prior, None, None, Some(b.previous)))
      && one.0 == other.0.(record := other.0.record.(rollback := one.0.record.rollback))
  {
  }

  /**
   So the rule that the call asked for does not come back: after any failed jobs in between, a
   rollback records the rule of before the call, and that is the call's rule if and only if the
   call changed nothing.
   */
  lemma RollbackForgetsCall(config: Config, h: Host, call: Job, request: DeploymentRequest, fx: DeploymentEffects,
                            jobs: seq<Job>, undo: RollbackEffects)
    requires Installed(config) && Steady(h) && IsCall(call)
    requires DeploymentFrom(Step(config, h, call).0, request, fx, ReadDeployment(h)).1.Done?
    requires var h2 := DeploymentFrom(Step(config, h, call).0, request, fx, ReadDeployment(h)).0;
      && AdmissibleRun(config, h2, jobs) && NoCommit(config, h2, jobs)
      && Rollback(config, Run(config, h2, jobs), undo).1.Done?
    ensures var h2 := DeploymentFrom(Step(config, h, call).0, request, fx, ReadDeployment(h)).0;
      var h4 := Rollback(config, Run(config, h2, jobs), undo).0;
      && h4.record.firewall == h.record.firewall
      && (h4.record.firewall == Step(config, h, call).0.record.firewall <==> !ChangesRule(h, call))
  {
    var h1 := Step(config, h, call).0;
    var h2 := DeploymentFrom(h1, request, fx, ReadDeployment(h)).0;
    CallFrame(config, h, call);
    RacedIsSteady(config, h, call, request, fx);
    RunStaysSteady(config, h2, jobs);
    RunKeepsPoint(config, h2, jobs);
    RollbackReachesPoint(config, Run(config, h2, jobs), undo);
    SameButPoint(h1, request, fx, ReadDeployment(h), ReadDeployment(h));
  }

  lemma RacedIsSteady(config: Config, h: Host, call: Job, request: DeploymentRequest, fx: DeploymentEffects)
    requires Steady(h) && IsCall(call)
    requires DeploymentFrom(Step(config, h, call).0, request, fx, ReadDeployment(h)).1.Done?
    ensures Steady(DeploymentFrom(Step(config, h, call).0, request, fx, ReadDeployment(h)).0)
  {
    var h1 := Step(config, h, call).0;
    StepKeepsSteady(config, h, call);
    SameButPoint(h1, request, fx, ReadDeployment(h), ReadDeployment(h1));
    StepKeepsSteady(config, h1, Deploy(request, fx));
    assert Step(config, h1, Deploy(request, fx)) == Deployment(h1, request, fx);
    assert OwnSettings(OldRange(h.env));
  }

  /**
   Nor does an unhealthy deployment spare it: its compensation, if it succeeds, records the rule of
   before the call, so the call stands afterwards if and only if it changed nothing.
   */
  lemma UndoForgetsCall(config: Config, h: Host, call: Job, request: DeploymentRequest, fx: DeploymentEffects)
    requires IsCall(call)
    requires DeploymentFrom(Step(config, h, call).0, request, fx, ReadDeployment(h)).1
          == Raised("deployment_health_check_failed")
    ensures var h1 := Step(config, h, call).0;
      var after := DeploymentFrom(h1, request, fx, ReadDeployment(h)).0;
      && after.record.firewall == h.record.firewall
      && (after.record.firewall == h1.record.firewall <==> !ChangesRule(h, call))
  {
    CallFrame(config, h, call);
    UndoRecords(Step(config, h, call).0, request, fx, ReadDeployment(h));
  }

  lemma UndoRecords(h: Host, request: DeploymentRequest, fx: DeploymentEffects, seen: DeploymentReads)
    requires DeploymentFrom(h, request, fx, seen).1 == Raised("deployment_health_check_failed")
    ensures DeploymentFrom(h, request, fx, seen).0.record.firewall == seen.previous
  {
    var h1 := UpdateEnv(h, RangeSettings(Str(request.start), Str(request.end)), fx.edit).0;
    var h2 := ApplyFirewall(h1, Rule(request.source.value, request.start, request.end), fx.firewall).0;
    assert DeploymentFrom(h, request, fx, seen) == UndoDeployment(h2, seen.prior, seen.previous, fx);
    assert ResetFirewall(UpdateEnv(h2, seen.prior, true).0, seen.previous, fx.undoFirewall).1.Done?;
  }

  /** A deployment in which everything works succeeds on any host and records its rule. */
  lemma SmoothDeployment(h: Host, request: DeploymentRequest, fx: DeploymentEffects, seen: DeploymentReads)
    requires request.source.Some? && ValidRange(request.start, request.end)
    requires fx.edit && fx.firewall == FirewallEffects(true, true, true) && fx.compose && fx.healthy && fx.write
    ensures var (after, outcome) := DeploymentFrom(h, request, fx, seen);
      outcome.Done? && after.record.firewall == Some(Rule(request.source.value, request.start, request.end))
  {
  }

  lemma RunPair(config: Config, h: Host, one: Job, other: Job)
    ensures Run(config, h, [one, other]) == Step(config, Step(config, h, one).0, other).0
  {
    var next := Step(config, h, one).0;
    assert [one, other][1..] == [other] && [other][1..] == [];
    assert Run(config, next, [other]) == Run(config, Step(config, next, other).0, []);
  }

  /**
   A call for one rule while a smooth deployment for another is under way. The end is that of
   neither order: call first, the point would name the call's rule; call last, UFW would hold it.
   */
  lemma CallBetweenIsNeitherOrder(config: Config, h: Host, call: Job, request: DeploymentRequest, fx: DeploymentEffects)
    requires request.source.Some? && ValidRange(request.start, request.end)
    requires fx.edit && fx.firewall == FirewallEffects(true, true, true) && fx.compose && fx.healthy && fx.write
    requires IsCall(call) && ChangesRule(h, call) && ChangesRule(Deployment(h, request, fx).0, call)
    ensures var raced := DeploymentFrom(Step(config, h, call).0, request, fx, ReadDeployment(h)).0;
      && raced != Run(config, h, [call, Deploy(request, fx)])
      && raced != Run(config, h, [Deploy(request, fx), call])
  {
    var h1, deploy := Step(config, h, call).0, Deploy(request, fx);
    SmoothDeployment(h1, request, fx, ReadDeployment(h));
    SmoothDeployment(h, request, fx, ReadDeployment(h));
    CallBetweenChangesPointIff(config, h, call, request, fx);
    CallFrame(config, Deployment(h, request, fx).0, call);
    RunPair(config, h, call, deploy);
    RunPair(config, h, deploy, call);
  }

  /** Such a call and deployment, on a host the agent has not touched. */
  lemma NeitherOrderOnFreshHost(config: Config, env: seq<string>, files: Files, database: string, fx: DeploymentEffects)
    requires fx.edit && fx.firewall == FirewallEffects(true, true, true) && fx.compose && fx.healthy && fx.write
    ensures var h, request := FreshHost(env, files, database), DeploymentRequest(Some("192.0.2.1"), 41000, 41009);
      var call := Applying(DeploymentRequest(Some("192.0.2.7"), 42000, 42009), FirewallEffects(true, true, true));
      var raced := DeploymentFrom(Step(config, h, call).0, request, fx, ReadDeployment(h)).0;
      && raced != Run(config, h, [call, Deploy(request, fx)])
      && raced != Run(config, h, [Deploy(request, fx), call])
  {
    var h, request := FreshHost(env, files, database), DeploymentRequest(Some("192.0.2.1"), 41000, 41009);
    var call := Applying(DeploymentRequest(Some("192.0.2.7"), 42000, 42009), FirewallEffects(true, true, true));
    SmoothDeployment(h, request, fx, ReadDeployment(h));
    assert Deployment(h, request, fx).0.record.firewall == Some(Rule("192.0.2.1", 41000, 41009));
    CallBetweenIsNeitherOrder(config, h, call, request, fx);
  }
}
