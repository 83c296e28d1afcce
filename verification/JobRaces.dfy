/**
 Starting a job takes two critical sections (host_agent/server.py, start_job): one checks that no
 job is running, the other, in _save_job, inserts the new one. Here starts may interleave freely.
 */
module JobRaces {
  import opened Basics
  import opened JobTable

  /** `pending` are the starts that have passed their check and not inserted yet. */
  datatype Agent = Agent(jobs: Jobs, pending: map<nat, string>)

  datatype Act =
    | Check(id: nat, operation: string)
    | Insert(id: nat, write: bool)
    | Complete(id: nat, operation: string, outcome: Outcome, writes: EndWrites)

  predicate Passes(s: Agent, act: Act) {
    act.Check? && Supported(act.operation) && !AnyRunning(s.jobs)
  }

  function Next(s: Agent, act: Act): Agent {
    match act
    case Check(id, operation) => if Passes(s, act) then s.(pending := s.pending[id := operation]) else s
    case Insert(id, write) =>
      if id !in s.pending then s
      else
        var saved := Save(s.jobs, Entry(id, s.pending[id], Running, None), write);
        Agent(if write then saved.(threads := saved.threads + {id}) else saved, s.pending - {id})
    case Complete(id, operation, outcome, writes) => s.(jobs := FinishJob(s.jobs, id, operation, outcome, writes))
  }

  /** Ids are new when drawn, a start inserts after its check, a job completes while it runs. */
  ghost predicate Can(s: Agent, act: Act) {
    match act
    case Check(id, _) => id !in s.pending && id !in s.jobs.memory
    case Insert(id, _) => id in s.pending
    case Complete(id, _, _, _) => id in s.jobs.threads && IsRunning(s.jobs, id)
  }

  function After(s: Agent, acts: seq<Act>): Agent {
    if acts == [] then s else Next(After(s, acts[..|acts| - 1]), acts[|acts| - 1])
  }

  ghost predicate Interleaving(s: Agent, acts: seq<Act>) {
    acts == []
    || (Interleaving(s, acts[..|acts| - 1]) && Can(After(s, acts[..|acts| - 1]), acts[|acts| - 1]))
  }

  /** A check passes while another checked start is pending. */
  ghost predicate Overlaps(s: Agent, act: Act) {
    Passes(s, act) && s.pending != map[]
  }

  /** No check of the interleaving does. */
  ghost predicate NoOverlap(s: Agent, acts: seq<Act>) {
    acts == []
    || (NoOverlap(s, acts[..|acts| - 1]) && !Overlaps(After(s, acts[..|acts| - 1]), acts[|acts| - 1]))
  }

  ghost predicate OnlyInserts(acts: seq<Act>) {
    forall i :: 0 <= i < |acts| ==> acts[i].Insert?
  }

  /** Letting pending starts go on after the first k acts does not give two running jobs. */
  ghost predicate SingleAt(s: Agent, acts: seq<Act>, k: nat, rest: seq<Act>) {
    k <= |acts| && OnlyInserts(rest) && Interleaving(s, acts[..k] + rest) ==>
      AtMostOneRunning(After(s, acts[..k] + rest).jobs)
  }

  /** At every point of the interleaving, letting the pending starts go on never gives two running jobs. */
  ghost predicate StaysSingle(s: Agent, acts: seq<Act>) {
    forall k: nat, rest: seq<Act> :: SingleAt(s, acts, k, rest)
  }

  // -------------------------------------------------------- one step, one run

  /** At most one start is pending, none while a job runs. */
  ghost predicate Calm(s: Agent) {
    && AtMostOneRunning(s.jobs)
    && (forall a, b :: a in s.pending && b in s.pending ==> a == b)
    && (s.pending != map[] ==> !AnyRunning(s.jobs))
  }

  lemma NextStaysCalm(s: Agent, act: Act)
    requires Calm(s) && Can(s, act) && !Overlaps(s, act)
    ensures Calm(Next(s, act))
  {
    var after := Next(s, act);
    match act
    case Check(id, operation) =>
    case Insert(id, write) =>
      assert forall other :: other in s.pending ==> other == id;
      forall other | IsRunning(after.jobs, other) ensures other == id {
        assert other != id ==> other in s.jobs.memory;
      }
      assert after.pending == map[];
    case Complete(id, operation, outcome, writes) =>
      assert IsRunning(s.jobs, id) && s.jobs.memory[id].status == Running && s.pending == map[];
      forall other ensures !IsRunning(after.jobs, other) {
        assert other != id ==> IsRunning(after.jobs, other) == IsRunning(s.jobs, other);
      }
  }

  lemma AfterSnoc(s: Agent, acts: seq<Act>, act: Act)
    ensures After(s, acts + [act]) == Next(After(s, acts), act)
    ensures Interleaving(s, acts + [act]) <==> Interleaving(s, acts) && Can(After(s, acts), act)
  {
    assert (acts + [act])[..|acts|] == acts;
  }

  lemma {:induction false} CalmAllAlong(s: Agent, acts: seq<Act>)
    requires Calm(s) && Interleaving(s, acts) && NoOverlap(s, acts)
    ensures Calm(After(s, acts))
  {
    if acts != [] {
      var front := acts[..|acts| - 1];
      CalmAllAlong(s, front);
      NextStaysCalm(After(s, front), acts[|acts| - 1]);
    }
  }

  lemma {:induction false} InsertsDoNotOverlap(s: Agent, acts: seq<Act>, rest: seq<Act>)
    requires NoOverlap(s, acts) && OnlyInserts(rest)
    ensures NoOverlap(s, acts + rest)
  {
    if rest == [] {
      assert acts + rest == acts;
    } else {
      InsertsDoNotOverlap(s, acts, rest[..|rest| - 1]);
      assert (acts + rest)[..|acts + rest| - 1] == acts + rest[..|rest| - 1];
    }
  }

  lemma {:induction false} PrefixHasNoOverlap(s: Agent, acts: seq<Act>, k: nat)
    requires NoOverlap(s, acts) && k <= |acts|
    ensures NoOverlap(s, acts[..k])
  {
    if k < |acts| {
      PrefixHasNoOverlap(s, acts[..|acts| - 1], k);
      assert acts[..|acts| - 1][..k] == acts[..k];
    } else {
      assert acts[..k] == acts;
    }
  }

  /** Where an interleaving overlaps. */
  lemma {:induction false} FindOverlap(s: Agent, acts: seq<Act>) returns (front: seq<Act>, act: Act)
    requires Interleaving(s, acts) && !NoOverlap(s, acts)
    ensures front + [act] <= acts && Interleaving(s, front + [act]) && Overlaps(After(s, front), act)
  {
    front, act := acts[..|acts| - 1], acts[|acts| - 1];
    assert front + [act] == acts;
    if !Overlaps(After(s, front), act) {
      front, act := FindOverlap(s, front);
    }
  }

  lemma TwoInserts(s: Agent, a: nat, b: nat)
    requires a in s.pending && b in s.pending && a != b
    ensures Can(s, Insert(a, true)) && Can(Next(s, Insert(a, true)), Insert(b, true))
    ensures var end := Next(Next(s, Insert(a, true)), Insert(b, true));
      IsRunning(end.jobs, a) && IsRunning(end.jobs, b)
  {
  }

  lemma AfterTwo(s: Agent, acts: seq<Act>, x: Act, y: Act)
    ensures After(s, acts + [x, y]) == Next(Next(After(s, acts), x), y)
    ensures Interleaving(s, acts) && Can(After(s, acts), x) && Can(Next(After(s, acts), x), y) ==>
      Interleaving(s, acts + [x, y])
  {
    AfterSnoc(s, acts, x);
    AfterSnoc(s, acts + [x], y);
    assert acts + [x] + [y] == acts + [x, y];
  }

  /** Two pending starts, let go on, give two running jobs. */
  lemma PendingGiveTwo(s: Agent, acts: seq<Act>, a: nat, b: nat)
    requires Interleaving(s, acts) && a != b
    requires a in After(s, acts).pending && b in After(s, acts).pending
    ensures Interleaving(s, acts + [Insert(a, true), Insert(b, true)])
    ensures !AtMostOneRunning(After(s, acts + [Insert(a, true), Insert(b, true)]).jobs)
  {
    TwoInserts(After(s, acts), a, b);
    AfterTwo(s, acts, Insert(a, true), Insert(b, true));
  }

  lemma OverlapLeavesTwoPending(s: Agent, act: Act) returns (other: nat)
    requires Overlaps(s, act) && Can(s, act)
    ensures other != act.id && other in Next(s, act).pending && act.id in Next(s, act).pending
  {
    other :| other in s.pending;
  }

  /** An overlap can always be completed to two running jobs: both starts insert. */
  lemma OverlapExtends(s: Agent, front: seq<Act>, act: Act) returns (rest: seq<Act>)
    requires Interleaving(s, front + [act]) && Overlaps(After(s, front), act)
    ensures OnlyInserts(rest) && Interleaving(s, front + [act] + rest)
    ensures !AtMostOneRunning(After(s, front + [act] + rest).jobs)
  {
    AfterSnoc(s, front, act);
    var other := OverlapLeavesTwoPending(After(s, front), act);
    PendingGiveTwo(s, front + [act], other, act.id);
    rest := [Insert(other, true), Insert(act.id, true)];
  }

  lemma OverlapGivesTwo(s: Agent, acts: seq<Act>, front: seq<Act>, act: Act)
    requires Interleaving(s, front + [act]) && Overlaps(After(s, front), act) && front + [act] <= acts
    ensures !StaysSingle(s, acts)
  {
    var rest := OverlapExtends(s, front, act);
    assert acts[..|front| + 1] == front + [act];
    NotSingle(s, acts, |front| + 1, rest);
  }

  lemma NotSingle(s: Agent, acts: seq<Act>, k: nat, rest: seq<Act>)
    requires k <= |acts| && OnlyInserts(rest) && Interleaving(s, acts[..k] + rest)
    requires !AtMostOneRunning(After(s, acts[..k] + rest).jobs)
    ensures !StaysSingle(s, acts)
  {
    assert !SingleAt(s, acts, k, rest);
  }

  lemma NoOverlapStaysSingle(s: Agent, acts: seq<Act>)
    requires Calm(s) && NoOverlap(s, acts)
    ensures StaysSingle(s, acts)
  {
    forall k: nat, rest: seq<Act> ensures SingleAt(s, acts, k, rest) {
      if k <= |acts| && OnlyInserts(rest) && Interleaving(s, acts[..k] + rest) {
        PrefixHasNoOverlap(s, acts, k);
        InsertsDoNotOverlap(s, acts[..k], rest);
        CalmAllAlong(s, acts[..k] + rest);
      }
    }
  }

  /**
   Over every interleaving of checks, insertions and completions: at most one job can come to run
   if and only if no check passes while another checked start is pending.
   */
  lemma SingleIffNoOverlap(s: Agent, acts: seq<Act>)
    requires Calm(s) && Interleaving(s, acts)
    ensures StaysSingle(s, acts) <==> NoOverlap(s, acts)
  {
    if NoOverlap(s, acts) {
      NoOverlapStaysSingle(s, acts);
    } else {
      var front, act := FindOverlap(s, acts);
      OverlapGivesTwo(s, acts, front, act);
    }
  }

  /** Check, check, insert, insert: two running jobs. */
  lemma TwoStartsRace(s: Agent, a: nat, b: nat, operation: string, first: bool, second: bool)
    requires !AnyRunning(s.jobs) && a != b && Supported(operation)
    ensures var end := Next(Next(Next(Next(s, Check(a, operation)), Check(b, operation)), Insert(a, first)), Insert(b, second));
      IsRunning(end.jobs, a) && IsRunning(end.jobs, b) && !AtMostOneRunning(end.jobs)
  {
    var end := Next(Next(Next(Next(s, Check(a, operation)), Check(b, operation)), Insert(a, first)), Insert(b, second));
    assert IsRunning(end.jobs, a) && IsRunning(end.jobs, b);
  }

  /** A check followed at once by its insertion is the serialised start. */
  lemma CheckThenInsertIsStart(s: Agent, id: nat, operation: string, write: bool)
    requires s.pending == map[]
    ensures Next(Next(s, Check(id, operation)), Insert(id, write)) == Agent(StartJob(s.jobs, operation, id, write).0, map[])
  {
    assert map[id := operation] - {id} == map[];
  }
}
