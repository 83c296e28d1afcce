/**
 Job table and host together: starts, job threads and firewall calls of one agent process. A thread
 first remembers what a deployment goes back to and takes effect later; other threads and firewall
 calls may come in between. The running-job check makes the jobs serial all the same.
 */
module AgentRuns {
  import opened Basics
  import opened RuntimeFiles
  import opened HostJobs
  import opened HostRaces
  import opened JobTable

  /** A job's thread; `seen` is what it has read so far. */
  datatype Thread = Thread(job: Job, seen: Option<DeploymentReads>)

  datatype Agent = Agent(host: Host, jobs: Jobs, threads: map<nat, Thread>)

  datatype Event =
    | Request(id: nat, job: Job, write: bool)
    | ThreadReads(id: nat)
    | ThreadEnds(id: nat, writes: EndWrites)
    | FirewallCall(call: Job)

  predicate IsOperation(job: Job) {
    job.Deploy? || job.Upgrading? || job.RollingBack?
  }

  ghost predicate Possible(s: Agent, event: Event) {
    match event
    case Request(id, job, _) => IsOperation(job) && id !in s.jobs.memory && IndexOf(s.jobs.table, id) == |s.jobs.table|
    case ThreadReads(id) => id in s.threads && s.threads[id].seen.None?
    case ThreadEnds(id, _) => id in s.threads && s.threads[id].seen.Some?
    case FirewallCall(call) => IsCall(call)
  }

  /** What a thread does to the host, going by what it has read. */
  function Effect(config: Config, h: Host, thread: Thread): (Host, Outcome) {
    if thread.job.Deploy? && thread.seen.Some? then
      DeploymentFrom(h, thread.job.deployment, thread.job.deploymentEffects, thread.seen.value)
    else Step(config, h, thread.job)
  }

  function Next(config: Config, s: Agent, event: Event): (Agent, Outcome) {
    match event
    case Request(id, job, write) =>
      var (jobs, started) := StartJob(s.jobs, OperationOf(job), id, write);
      (s.(jobs := jobs, threads := if started.Done? then s.threads[id := Thread(job, None)] else s.threads), started)
    case ThreadReads(id) =>
      if id !in s.threads then (s, Done)
      else (s.(threads := s.threads[id := s.threads[id].(seen := Some(ReadDeployment(s.host)))]), Done)
    case ThreadEnds(id, writes) =>
      if id !in s.threads then (s, Done)
      else
        var (host, outcome) := Effect(config, s.host, s.threads[id]);
        (Agent(host, FinishJob(s.jobs, id, OperationOf(s.threads[id].job), outcome, writes), s.threads - {id}), outcome)
    case FirewallCall(call) =>
      var (host, outcome) := Step(config, s.host, call);
      (s.(host := host), outcome)
  }

  function After(config: Config, s: Agent, events: seq<Event>): Agent {
    if events == [] then s else Next(config, After(config, s, events[..|events| - 1]), events[|events| - 1]).0
  }

  ghost predicate PossibleRun(config: Config, s: Agent, events: seq<Event>) {
    events == []
    || (PossibleRun(config, s, events[..|events| - 1])
        && Possible(After(config, s, events[..|events| - 1]), events[|events| - 1]))
  }

  // ------------------------------------------------------------ one at a time

  /** The threads are those of the table, each under the name of its operation. */
  ghost predicate InStep(s: Agent) {
    && Consistent(s.jobs) && s.threads.Keys == s.jobs.threads
    && (forall id :: id in s.threads ==>
          IsOperation(s.threads[id].job) && id in s.jobs.memory
          && s.jobs.memory[id].operation == OperationOf(s.threads[id].job))
  }

  lemma NextStaysInStep(config: Config, s: Agent, event: Event)
    requires InStep(s) && Possible(s, event)
    ensures InStep(Next(config, s, event).0)
  {
    match event
    case Request(id, job, write) => StepStaysConsistent(s.jobs, JobTable.Start(OperationOf(job), id, write));
    case ThreadReads(id) =>
    case ThreadEnds(id, writes) =>
      var outcome := Effect(config, s.host, s.threads[id]).1;
      StepStaysConsistent(s.jobs, JobTable.Finish(id, OperationOf(s.threads[id].job), outcome, writes));
    case FirewallCall(call) =>
  }

  lemma {:induction false} RunStaysInStep(config: Config, s: Agent, events: seq<Event>)
    requires InStep(s) && PossibleRun(config, s, events)
    ensures InStep(After(config, s, events))
  {
    if events != [] {
      RunStaysInStep(config, s, events[..|events| - 1]);
      NextStaysInStep(config, After(config, s, events[..|events| - 1]), events[|events| - 1]);
    }
  }

  /** Two threads are never under way at the same time. */
  lemma OneThread(s: Agent, a: nat, b: nat)
    requires InStep(s) && a in s.threads && b in s.threads
    ensures a == b
  {
    assert a in s.jobs.threads && b in s.jobs.threads;
    assert IsRunning(s.jobs, a) && IsRunning(s.jobs, b);
  }

  /** While a job's thread has not finished, a second start is refused and nothing changes. */
  lemma SecondStartRefused(config: Config, s: Agent, id: nat, job: Job, write: bool)
    requires InStep(s) && s.threads != map[] && IsOperation(job)
    ensures Next(config, s, Request(id, job, write)) == (s, Raised("host_operation_in_progress"))
  {
    var running :| running in s.threads;
    assert running in s.jobs.threads;
    assert IsRunning(s.jobs, running) && running in s.jobs.memory;
  }

  /** While nothing runs, each of the three operations is started and recorded under its name. */
  lemma IdleStartIsRecorded(config: Config, s: Agent, id: nat, job: Job)
    requires InStep(s) && !AnyRunning(s.jobs) && IsOperation(job)
    ensures var (after, started) := Next(config, s, Request(id, job, true));
      var name := if job.Deploy? then "deployment" else if job.Upgrading? then "upgrade" else "rollback";
      && started.Done? && GetJob(after.jobs, id) == Some(Entry(id, name, Running, None))
      && after.threads == map[id := Thread(job, None)] && after.host == s.host
  {
    forall other ensures other !in s.threads {
      assert other in s.jobs.threads ==> IsRunning(s.jobs, other) && other in s.jobs.memory;
    }
    assert s.threads == map[];
  }

  // ------------------------------------------------- accepted, ended, in order

  /** The requests that were let through, in order. */
  function Accepted(config: Config, s: Agent, events: seq<Event>): seq<(nat, Job)> {
    if events == [] then []
    else
      var front, last := events[..|events| - 1], events[|events| - 1];
      Accepted(config, s, front)
      + if last.Request? && Next(config, After(config, s, front), last).1.Done? then [(last.id, last.job)] else []
  }

  /** The thread that an event brings to its end. */
  function EndedBy(s: Agent, event: Event): seq<(nat, Job)> {
    if event.ThreadEnds? && event.id in s.threads then [(event.id, s.threads[event.id].job)] else []
  }

  /** The threads that came to their end, in order. */
  function Ended(config: Config, s: Agent, events: seq<Event>): seq<(nat, Job)> {
    if events == [] then []
    else
      var front, last := events[..|events| - 1], events[|events| - 1];
      Ended(config, s, front) + EndedBy(After(config, s, front), last)
  }

  /** What was accepted is what has ended and, last, what is under way. */
  ghost predicate Served(accepted: seq<(nat, Job)>, ended: seq<(nat, Job)>, threads: map<nat, Thread>) {
    && (threads == map[] ==> accepted == ended)
    && (forall id :: id in threads ==> accepted == ended + [(id, threads[id].job)])
  }

  lemma ServedStep(config: Config, s: Agent, event: Event, accepted: seq<(nat, Job)>, ended: seq<(nat, Job)>)
    requires InStep(s) && Possible(s, event) && Served(accepted, ended, s.threads)
    ensures var after := Next(config, s, event);
      Served(accepted + if event.Request? && after.1.Done? then [(event.id, event.job)] else [],
             ended + EndedBy(s, event), after.0.threads)
  {
    var after := Next(config, s, event).0;
    assert accepted + [] == accepted && ended + [] == ended;
    match event
    case Request(id, job, write) =>
      if s.threads != map[] {
        SecondStartRefused(config, s, id, job, write);
      }
    case ThreadReads(id) =>
      forall other | other in s.threads ensures other == id {
        OneThread(s, other, id);
      }
    case ThreadEnds(id, writes) =>
      forall other | other in s.threads ensures other == id {
        OneThread(s, other, id);
      }
      assert after.threads == map[];
    case FirewallCall(call) =>
  }

  /**
   Over every run from an idle agent: the accepted jobs, in order, are those that have ended
   followed by the one under way. None is lost, none is done twice, none overtakes another.
   */
  lemma {:induction false} AcceptedAreServedInOrder(config: Config, s: Agent, events: seq<Event>)
    requires InStep(s) && s.threads == map[] && PossibleRun(config, s, events)
    ensures Served(Accepted(config, s, events), Ended(config, s, events), After(config, s, events).threads)
  {
    if events != [] {
      var front, last := events[..|events| - 1], events[|events| - 1];
      AcceptedAreServedInOrder(config, s, front);
      RunStaysInStep(config, s, front);
      ServedStep(config, After(config, s, front), last, Accepted(config, s, front), Ended(config, s, front));
    }
  }

  // --------------------------------------------------------- the host, serially

  /** The jobs and firewall calls that have taken effect, in that order. */
  function Serial(config: Config, s: Agent, events: seq<Event>): seq<Job> {
    if events == [] then []
    else
      var front, last := events[..|events| - 1], events[|events| - 1];
      Serial(config, s, front) + Taken(After(config, s, front), last)
  }

  function Taken(s: Agent, event: Event): seq<Job> {
    match event
    case ThreadEnds(id, _) => if id in s.threads then [s.threads[id].job] else []
    case FirewallCall(call) => [call]
    case _ => []
  }

  function Operations(jobs: seq<Job>): seq<Job> {
    if jobs == [] then []
    else
      Operations(jobs[..|jobs| - 1]) + if IsOperation(jobs[|jobs| - 1]) then [jobs[|jobs| - 1]] else []
  }

  function JobsOf(entries: seq<(nat, Job)>): seq<Job> {
    if entries == [] then [] else JobsOf(entries[..|entries| - 1]) + [entries[|entries| - 1].1]
  }

  /** A deployment has remembered its rule, and a call that changes the rule comes in before it ends. */
  ghost predicate Races(s: Agent, event: Event) {
    && event.FirewallCall? && ChangesRule(s.host, event.call)
    && exists id :: id in s.threads && s.threads[id].job.Deploy? && s.threads[id].seen.Some?
  }

  ghost predicate NoRace(config: Config, s: Agent, events: seq<Event>) {
    events == []
    || (NoRace(config, s, events[..|events| - 1])
        && !Races(After(config, s, events[..|events| - 1]), events[|events| - 1]))
  }

  /** What the deployment under way has read is still so. */
  ghost predicate SeenIsCurrent(s: Agent) {
    forall id :: id in s.threads && s.threads[id].job.Deploy? && s.threads[id].seen.Some? ==>
      s.threads[id].seen.value == ReadDeployment(s.host)
  }

  lemma SeenStaysCurrent(config: Config, s: Agent, event: Event)
    requires InStep(s) && SeenIsCurrent(s) && Possible(s, event) && !Races(s, event)
    ensures SeenIsCurrent(Next(config, s, event).0)
  {
    match event
    case Request(id, job, write) =>
    case ThreadReads(id) =>
    case ThreadEnds(id, writes) =>
      forall other | other in s.threads ensures other == id {
        OneThread(s, other, id);
      }
    case FirewallCall(call) => CallFrame(config, s.host, call);
  }

  lemma HostStep(config: Config, s: Agent, event: Event)
    requires SeenIsCurrent(s) && Possible(s, event)
    ensures Next(config, s, event).0.host
         == if Taken(s, event) == [] then s.host else Step(config, s.host, Taken(s, event)[0]).0
  {
  }

  lemma {:induction false} RunSnoc(config: Config, h: Host, jobs: seq<Job>, job: Job)
    ensures Run(config, h, jobs + [job]) == Step(config, Run(config, h, jobs), job).0
    decreases |jobs|
  {
    if jobs == [] {
      assert [] + [job] == [job] && [job][1..] == [];
    } else {
      assert (jobs + [job])[1..] == jobs[1..] + [job];
      RunSnoc(config, Step(config, h, jobs[0]).0, jobs[1..], job);
    }
  }

  lemma {:induction false} HostIsSerial(config: Config, s: Agent, events: seq<Event>)
    requires InStep(s) && s.threads == map[] && PossibleRun(config, s, events) && NoRace(config, s, events)
    ensures After(config, s, events).host == Run(config, s.host, Serial(config, s, events))
    ensures SeenIsCurrent(After(config, s, events))
  {
    if events != [] {
      var front, last := events[..|events| - 1], events[|events| - 1];
      var before := After(config, s, front);
      HostIsSerial(config, s, front);
      RunStaysInStep(config, s, front);
      SeenStaysCurrent(config, before, last);
      HostStep(config, before, last);
      RunTaken(config, s.host, Serial(config, s, front), Taken(before, last));
    }
  }

  lemma RunTaken(config: Config, h: Host, jobs: seq<Job>, taken: seq<Job>)
    requires |taken| <= 1
    ensures Run(config, h, jobs + taken)
         == if taken == [] then Run(config, h, jobs) else Step(config, Run(config, h, jobs), taken[0]).0
  {
    if taken == [] {
      assert jobs + taken == jobs;
    } else {
      RunSnoc(config, h, jobs, taken[0]);
      assert taken == [taken[0]];
    }
  }

  lemma OperationsAppend(jobs: seq<Job>, job: Job)
    ensures Operations(jobs + [job]) == Operations(jobs) + if IsOperation(job) then [job] else []
  {
    assert (jobs + [job])[..|jobs|] == jobs;
  }

  lemma JobsOfAppend(entries: seq<(nat, Job)>, entry: (nat, Job))
    ensures JobsOf(entries + [entry]) == JobsOf(entries) + [entry.1]
  {
    assert (entries + [entry])[..|entries|] == entries;
  }

  lemma TakenIsEnded(s: Agent, event: Event, serial: seq<Job>, ended: seq<(nat, Job)>)
    requires InStep(s) && Possible(s, event) && Operations(serial) == JobsOf(ended)
    ensures Operations(serial + Taken(s, event)) == JobsOf(ended + EndedBy(s, event))
  {
    assert serial + [] == serial && ended + [] == ended;
    match event
    case ThreadEnds(id, _) =>
      OperationsAppend(serial, s.threads[id].job);
      JobsOfAppend(ended, (id, s.threads[id].job));
    case FirewallCall(call) => OperationsAppend(serial, call);
    case _ =>
  }

  lemma {:induction false} SerialIsEnded(config: Config, s: Agent, events: seq<Event>)
    requires InStep(s) && PossibleRun(config, s, events)
    ensures Operations(Serial(config, s, events)) == JobsOf(Ended(config, s, events))
  {
    if events != [] {
      var front := events[..|events| - 1];
      SerialIsEnded(config, s, front);
      RunStaysInStep(config, s, front);
      TakenIsEnded(After(config, s, front), events[|events| - 1], Serial(config, s, front), Ended(config, s, front));
    }
  }

  /**
   After any run from an idle agent in which no firewall call races with a deployment, the host is
   where the accepted jobs, each whole and in the order they were accepted, and the firewall calls
   between them lead; only the job under way has not taken effect.
   */
  lemma HostIsRunOfAccepted(config: Config, s: Agent, events: seq<Event>)
    requires InStep(s) && s.threads == map[] && PossibleRun(config, s, events) && NoRace(config, s, events)
    ensures var (end, serial) := (After(config, s, events), Serial(config, s, events));
      && end.host == Run(config, s.host, serial)
      && (end.threads == map[] ==> Operations(serial) == JobsOf(Accepted(config, s, events)))
      && (forall id :: id in end.threads ==>
            Operations(serial) + [end.threads[id].job] == JobsOf(Accepted(config, s, events)))
  {
    HostIsSerial(config, s, events);
    SerialIsEnded(config, s, events);
    AcceptedAreServedInOrder(config, s, events);
    var end := After(config, s, events);
    forall id | id in end.threads
      ensures JobsOf(Accepted(config, s, events)) == JobsOf(Ended(config, s, events)) + [end.threads[id].job]
    {
      JobsOfAppend(Ended(config, s, events), (id, end.threads[id].job));
    }
  }
}
