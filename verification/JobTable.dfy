/**
 The host agent's job table: jobs of this process in memory and the last twenty in the state file,
 whose keys are written sorted (host_agent/server.py, _save_job, start_job, job and StateStore).
 */
module JobTable {
  import opened Basics

  datatype Status = Running | Succeeded | Failed

  datatype Entry = Entry(id: nat, operation: string, status: Status, error: Option<string>)

  /** `memory` is the `jobs` dictionary, `table` the persisted one in file order, `threads` the jobs under way. */
  datatype Jobs = Jobs(memory: map<nat, Entry>, table: seq<Entry>, threads: set<nat>)

  const KEPT: nat := 20

  ghost predicate Sorted(table: seq<Entry>) {
    forall i, j :: 0 <= i < j < |table| ==> table[i].id < table[j].id
  }

  // --------------------------------------------------------------- saving

  function IndexOf(table: seq<Entry>, id: nat): (i: nat)
    ensures i <= |table|
    ensures i < |table| ==> table[i].id == id
    ensures forall k :: 0 <= k < i ==> table[k].id != id
  {
    if table == [] || table[0].id == id then 0 else 1 + IndexOf(table[1..], id)
  }

  /** `jobs[id] = job`: an existing key keeps its place, a new one goes last. */
  function Assign(table: seq<Entry>, e: Entry): seq<Entry> {
    var i := IndexOf(table, e.id);
    if i < |table| then table[i := e] else table + [e]
  }

  function Trim(table: seq<Entry>): (r: seq<Entry>)
    ensures |r| <= KEPT
  {
    if |table| > KEPT then table[|table| - KEPT..] else table
  }

  /** Put `e` where it belongs among entries sorted by id. */
  function Insert(table: seq<Entry>, e: Entry): seq<Entry> {
    if table == [] || e.id <= table[0].id then [e] + table
    else [table[0]] + Insert(table[1..], e)
  }

  /** Writing the file sorts it; only the last entry can be out of place. */
  function WriteSorted(table: seq<Entry>): seq<Entry> {
    if table == [] then [] else Insert(table[..|table| - 1], table[|table| - 1])
  }

  function Stored(table: seq<Entry>, e: Entry): seq<Entry> {
    WriteSorted(Trim(Assign(table, e)))
  }

  /** Memory is set first; then the file is written, which raises when `write` is false. */
  function Save(s: Jobs, e: Entry, write: bool): Jobs {
    s.(memory := s.memory[e.id := e], table := if write then Stored(s.table, e) else s.table)
  }

  lemma {:induction false} InsertKeepsEntries(table: seq<Entry>, e: Entry)
    ensures multiset(Insert(table, e)) == multiset(table) + multiset{e}
    ensures |Insert(table, e)| == |table| + 1
  {
    if table == [] || e.id <= table[0].id {
    } else {
      InsertKeepsEntries(table[1..], e);
      assert table == [table[0]] + table[1..];
    }
  }

  lemma {:induction false} InsertSorts(table: seq<Entry>, e: Entry)
    requires Sorted(table)
    requires forall i :: 0 <= i < |table| ==> table[i].id != e.id
    ensures Sorted(Insert(table, e))
    ensures forall i :: 0 <= i < |Insert(table, e)| ==> Insert(table, e)[i] == e || Insert(table, e)[i] in table
  {
    if table == [] || e.id <= table[0].id {
    } else {
      InsertSorts(table[1..], e);
    }
  }

  lemma WriteKeepsEntries(table: seq<Entry>)
    ensures multiset(WriteSorted(table)) == multiset(table)
    ensures |WriteSorted(table)| == |table|
  {
    if table != [] {
      InsertKeepsEntries(table[..|table| - 1], table[|table| - 1]);
      assert table == table[..|table| - 1] + [table[|table| - 1]];
    }
  }

  /** Assigning to a sorted table leaves all but the last entry sorted, and no id twice. */
  lemma AssignShape(table: seq<Entry>, e: Entry)
    requires Sorted(table)
    ensures var a := Assign(table, e);
      && a != [] && Sorted(a[..|a| - 1])
      && (forall i :: 0 <= i < |a| - 1 ==> a[i].id != a[|a| - 1].id)
      && (|a| == |table| || |a| == |table| + 1)
  {
    var i := IndexOf(table, e.id);
    if i < |table| {
      assert forall k :: 0 <= k < |table| ==> table[i := e][k].id == table[k].id;
    }
  }

  lemma TrimShape(a: seq<Entry>)
    requires a != [] && Sorted(a[..|a| - 1])
    requires forall i :: 0 <= i < |a| - 1 ==> a[i].id != a[|a| - 1].id
    ensures var t := Trim(a);
      && t != [] && Sorted(t[..|t| - 1]) && t[|t| - 1] == a[|a| - 1]
      && (forall i :: 0 <= i < |t| - 1 ==> t[i].id != t[|t| - 1].id)
  {
    var t, d := Trim(a), |a| - |Trim(a)|;
    if d > 0 {
      assert t == a[d..];
      SortedTail(a[..|a| - 1], d);
      assert t[..|t| - 1] == a[..|a| - 1][d..];
      assert forall i :: 0 <= i < |t| ==> t[i] == a[i + d];
    }
  }

  lemma SortedTail(table: seq<Entry>, d: nat)
    requires Sorted(table) && d <= |table|
    ensures Sorted(table[d..])
  {
  }

  /** The file stays sorted and never holds more than twenty jobs. */
  lemma StoredIsSorted(table: seq<Entry>, e: Entry)
    requires Sorted(table)
    ensures Sorted(Stored(table, e)) && |Stored(table, e)| <= KEPT
  {
    AssignShape(table, e);
    TrimShape(Assign(table, e));
    var t := Trim(Assign(table, e));
    InsertSorts(t[..|t| - 1], t[|t| - 1]);
    WriteKeepsEntries(t);
  }

  /**
   The job being saved survives its own trim exactly when it is new or stands among the last
   twenty of the file. With at most twenty jobs in the file that is always so.
   */
  lemma SavedSurvivesIff(table: seq<Entry>, e: Entry)
    requires Sorted(table)
    ensures e in Stored(table, e)
       <==> IndexOf(table, e.id) == |table| || IndexOf(table, e.id) + KEPT >= |table|
  {
    var a, i := Assign(table, e), IndexOf(table, e.id);
    AssignOnce(table, e);
    TrimKeepsIff(a, i, e);
    WriteKeepsEntries(Trim(a));
    assert e in Stored(table, e) <==> e in multiset(Stored(table, e));
    assert e in Trim(a) <==> e in multiset(Trim(a));
  }

  lemma AssignOnce(table: seq<Entry>, e: Entry)
    requires Sorted(table)
    ensures var a, i := Assign(table, e), IndexOf(table, e.id);
      && i < |a| && a[i] == e && (forall k :: 0 <= k < |a| && k != i ==> a[k].id != e.id)
      && |a| == (if i < |table| then |table| else |table| + 1)
  {
    var i := IndexOf(table, e.id);
    if i < |table| {
      assert forall k :: 0 <= k < |table| && k != i ==> table[k].id != e.id;
    }
  }

  lemma TrimKeepsIff(a: seq<Entry>, i: nat, e: Entry)
    requires i < |a| && a[i] == e && (forall k :: 0 <= k < |a| && k != i ==> a[k].id != e.id)
    ensures e in Trim(a) <==> i + KEPT >= |a|
  {
    var t := Trim(a);
    var d := |a| - |t|;
    assert forall k :: 0 <= k < |t| ==> t[k] == a[k + d];
    if i >= d {
      assert t[i - d] == e;
    }
  }

  /** A full file makes room for a new job by dropping the least id, not the oldest job. */
  lemma FullTableDropsLeastId(table: seq<Entry>, e: Entry)
    requires Sorted(table) && |table| == KEPT && IndexOf(table, e.id) == KEPT
    ensures multiset(Stored(table, e)) == multiset(table) - multiset{table[0]} + multiset{e}
    ensures forall i :: 1 <= i < |table| ==> table[0].id < table[i].id
  {
    var t := Trim(Assign(table, e));
    assert t == table[1..] + [e];
    WriteKeepsEntries(t);
    SwapFirst(table, e);
  }

  lemma SwapFirst(table: seq<Entry>, e: Entry)
    requires table != []
    ensures multiset(table[1..] + [e]) == multiset(table) - multiset{table[0]} + multiset{e}
  {
    assert table == [table[0]] + table[1..];
  }

  // ----------------------------------------------------- starting, finishing

  predicate IsRunning(s: Jobs, id: nat) {
    id in s.memory && s.memory[id].status == Running
  }

  predicate AnyRunning(s: Jobs) {
    exists id | id in s.memory :: s.memory[id].status == Running
  }

  predicate Supported(operation: string) {
    operation in {"deployment", "upgrade", "rollback"}
  }

  /** The thread is started only after the save; when that raises, the entry stays and nothing runs. */
  function StartJob(s: Jobs, operation: string, id: nat, write: bool): (Jobs, Outcome) {
    if !Supported(operation) then (s, Raised("unsupported_host_operation"))
    else if AnyRunning(s) then (s, Raised("host_operation_in_progress"))
    else
      var saved := Save(s, Entry(id, operation, Running, None), write);
      if write then (saved.(threads := s.threads + {id}), Done) else (saved, Raised("state_not_written"))
  }

  /** How the saves of a thread that ends go: of the success, and of the failure. */
  datatype EndWrites = EndWrites(success: bool, failure: bool)

  /** A success whose save raises is saved again, as a failure. */
  function FinishJob(s: Jobs, id: nat, operation: string, outcome: Outcome, writes: EndWrites): Jobs {
    var ended := s.(threads := s.threads - {id});
    if outcome.Raised? then Save(ended, Entry(id, operation, Failed, Some(outcome.detail)), writes.failure)
    else
      var saved := Save(ended, Entry(id, operation, Succeeded, None), writes.success);
      if writes.success then saved
      else Save(saved, Entry(id, operation, Failed, Some("host_operation_failed")), writes.failure)
  }

  /** `job(id)`: this process first, then the file. */
  function GetJob(s: Jobs, id: nat): Option<Entry> {
    if id in s.memory then Some(s.memory[id])
    else
      var i := IndexOf(s.table, id);
      if i < |s.table| then Some(s.table[i]) else None
  }

  datatype Event =
    | Start(operation: string, id: nat, write: bool)
    | Finish(id: nat, operation: string, outcome: Outcome, writes: EndWrites)
    | Restart

  /** A thread ends while it is under way, and an id is new when its job starts. */
  ghost predicate Possible(s: Jobs, event: Event) {
    match event
    case Start(_, id, _) => id !in s.memory && IndexOf(s.table, id) == |s.table|
    case Finish(id, operation, _, _) => id in s.threads && id in s.memory && s.memory[id].operation == operation
    case Restart => true
  }

  function StepEvent(s: Jobs, event: Event): Jobs {
    match event
    case Start(operation, id, write) => StartJob(s, operation, id, write).0
    case Finish(id, operation, outcome, writes) => FinishJob(s, id, operation, outcome, writes)
    case Restart => Jobs(map[], s.table, {})
  }

  function RunEvents(s: Jobs, events: seq<Event>): Jobs {
    if events == [] then s else StepEvent(RunEvents(s, events[..|events| - 1]), events[|events| - 1])
  }

  ghost predicate PossibleRun(s: Jobs, events: seq<Event>) {
    events == []
    || (PossibleRun(s, events[..|events| - 1])
        && Possible(RunEvents(s, events[..|events| - 1]), events[|events| - 1]))
  }

  ghost predicate AtMostOneRunning(s: Jobs) {
    forall a, b :: IsRunning(s, a) && IsRunning(s, b) ==> a == b
  }

  /** A job under way is running, and the file says so. */
  ghost predicate ThreadsRun(s: Jobs) {
    forall id :: id in s.threads ==> IsRunning(s, id) && s.memory[id].id == id && s.memory[id] in s.table
  }

  ghost predicate Consistent(s: Jobs) {
    AtMostOneRunning(s) && ThreadsRun(s) && Sorted(s.table) && |s.table| <= KEPT
  }

  /** An agent that has just started: nothing in memory, whatever the file holds. */
  function Started(table: seq<Entry>): Jobs {
    Jobs(map[], table, {})
  }

  lemma SaveKeepsTable(table: seq<Entry>, e: Entry)
    requires Sorted(table) && |table| <= KEPT
    ensures Sorted(Stored(table, e)) && |Stored(table, e)| <= KEPT && e in Stored(table, e)
  {
    StoredIsSorted(table, e);
    SavedSurvivesIff(table, e);
  }

  lemma StartStaysConsistent(s: Jobs, operation: string, id: nat, write: bool)
    requires Consistent(s) && id !in s.memory
    ensures Consistent(StartJob(s, operation, id, write).0)
  {
    var after := StartJob(s, operation, id, write).0;
    if Supported(operation) && !AnyRunning(s) {
      SaveKeepsTable(s.table, Entry(id, operation, Running, None));
      forall other | IsRunning(after, other) ensures other == id {
        assert other != id ==> other in s.memory;
      }
      assert forall other :: other in s.threads ==> IsRunning(s, other) && other in s.memory;
      assert s.threads == {};
    }
  }

  /** After a thread has ended nothing runs, however its saves went. */
  lemma NothingRuns(s: Jobs, id: nat, operation: string, outcome: Outcome, writes: EndWrites)
    requires Consistent(s) && id in s.threads
    ensures !AnyRunning(FinishJob(s, id, operation, outcome, writes))
    ensures FinishJob(s, id, operation, outcome, writes).threads == {}
  {
    var after := FinishJob(s, id, operation, outcome, writes);
    forall other | other in after.memory ensures after.memory[other].status != Running {
      assert IsRunning(s, id) && (other != id && IsRunning(after, other) ==> IsRunning(s, other));
    }
    forall other | other in s.threads ensures other == id {
      assert IsRunning(s, id) && IsRunning(s, other);
    }
  }

  lemma FinishKeepsTable(s: Jobs, id: nat, operation: string, outcome: Outcome, writes: EndWrites)
    requires Sorted(s.table) && |s.table| <= KEPT
    ensures var after := FinishJob(s, id, operation, outcome, writes);
      Sorted(after.table) && |after.table| <= KEPT
  {
    StoredIsSorted(s.table, FinishJob(s, id, operation, outcome, writes).memory[id]);
  }

  lemma StepStaysConsistent(s: Jobs, event: Event)
    requires Consistent(s) && Possible(s, event)
    ensures Consistent(StepEvent(s, event))
  {
    match event
    case Start(operation, id, write) => StartStaysConsistent(s, operation, id, write);
    case Finish(id, operation, outcome, writes) =>
      NothingRuns(s, id, operation, outcome, writes);
      FinishKeepsTable(s, id, operation, outcome, writes);
    case Restart =>
  }

  /**
   In every serialised run, whatever save raises, at most one job is running, the job under way is
   the running one, and the file holds at most twenty.
   */
  lemma {:induction false} RunStaysConsistent(s: Jobs, events: seq<Event>)
    requires Consistent(s) && PossibleRun(s, events)
    ensures Consistent(RunEvents(s, events)) && |RunEvents(s, events).table| <= 20
  {
    if events != [] {
      RunStaysConsistent(s, events[..|events| - 1]);
      StepStaysConsistent(RunEvents(s, events[..|events| - 1]), events[|events| - 1]);
    }
  }

  /** The end of a thread re-enables starting, whatever its outcome and whatever saves raise. */
  lemma FinishReenablesStart(s: Jobs, id: nat, operation: string, outcome: Outcome, writes: EndWrites,
                             next: string, nextId: nat)
    requires Consistent(s) && Possible(s, Finish(id, operation, outcome, writes)) && Supported(next)
    ensures var after := FinishJob(s, id, operation, outcome, writes);
      && id in after.memory && after.memory[id].id == id && after.memory[id].operation == operation
      && after.memory[id].status in {Succeeded, Failed}
      && (after.memory[id].status == Succeeded <==> outcome.Done? && writes.success)
      && after.memory[id].error == (if outcome.Raised? then Some(outcome.detail)
                                    else if writes.success then None else Some("host_operation_failed"))
      && StartJob(after, next, nextId, true).1.Done?
  {
    NothingRuns(s, id, operation, outcome, writes);
  }

  // ---------------------------------------------------------- blocked starts

  /** Since the last restart some start passed the check and raised in its own save. */
  predicate StartRaised(s: Jobs, events: seq<Event>) {
    events != []
    && var front, last := events[..|events| - 1], events[|events| - 1];
       match last
       case Start(operation, _, write) =>
         StartRaised(s, front) || (Supported(operation) && !AnyRunning(RunEvents(s, front)) && !write)
       case Finish(_, _, _, _) => StartRaised(s, front)
       case Restart => false
  }

  /** A running entry means a thread under way or a start that raised, and conversely. */
  lemma {:induction false} RunningMeans(table: seq<Entry>, events: seq<Event>)
    requires Consistent(Started(table)) && PossibleRun(Started(table), events)
    ensures var end := RunEvents(Started(table), events);
      && (AnyRunning(end) <==> end.threads != {} || StartRaised(Started(table), events))
      && (end.threads == {} || !StartRaised(Started(table), events))
  {
    if events != [] {
      var s, front, last := Started(table), events[..|events| - 1], events[|events| - 1];
      RunningMeans(table, front);
      RunStaysConsistent(s, front);
      RunningStep(RunEvents(s, front), last, StartRaised(s, front));
    }
  }

  lemma RunningStep(s: Jobs, event: Event, raised: bool)
    requires Consistent(s) && Possible(s, event)
    requires (AnyRunning(s) <==> s.threads != {} || raised) && (s.threads == {} || !raised)
    ensures var after := StepEvent(s, event);
      var now := match event
        case Start(operation, _, write) => raised || (Supported(operation) && !AnyRunning(s) && !write)
        case Finish(_, _, _, _) => raised
        case Restart => false;
      (AnyRunning(after) <==> after.threads != {} || now) && (after.threads == {} || !now)
  {
    match event
    case Start(operation, id, write) =>
      if Supported(operation) && !AnyRunning(s) {
        assert IsRunning(StepEvent(s, event), id);
      }
    case Finish(id, operation, outcome, writes) => NothingRuns(s, id, operation, outcome, writes);
    case Restart =>
  }

  /**
   With no thread under way, the next start is let through if and only if since the agent was
   started no start raised in its own save: the entry such a start leaves never ends.
   */
  lemma StartingStaysPossibleIff(table: seq<Entry>, events: seq<Event>, operation: string, id: nat)
    requires Consistent(Started(table)) && PossibleRun(Started(table), events) && Supported(operation)
    requires RunEvents(Started(table), events).threads == {}
    ensures var end := RunEvents(Started(table), events);
      StartJob(end, operation, id, true)
      == if StartRaised(Started(table), events) then (end, Raised("host_operation_in_progress"))
         else (Save(end, Entry(id, operation, Running, None), true).(threads := {id}), Done)
  {
    RunningMeans(table, events);
    assert {} + {id} == {id};
  }

  ghost predicate NoRestart(events: seq<Event>) {
    forall i :: 0 <= i < |events| ==> !events[i].Restart?
  }

  lemma {:induction false} RaisedStaysRaised(s: Jobs, events: seq<Event>, more: seq<Event>)
    requires StartRaised(s, events) && NoRestart(more)
    ensures StartRaised(s, events + more)
  {
    if more == [] {
      assert events + more == events;
    } else {
      RaisedStaysRaised(s, events, more[..|more| - 1]);
      assert (events + more)[..|events + more| - 1] == events + more[..|more| - 1];
      assert !more[|more| - 1].Restart?;
    }
  }

  /** Once a start has raised in its save, every start is refused until the agent is restarted. */
  lemma BlockedUntilRestart(table: seq<Entry>, events: seq<Event>, more: seq<Event>, operation: string, id: nat)
    requires Consistent(Started(table)) && PossibleRun(Started(table), events + more) && Supported(operation)
    requires StartRaised(Started(table), events) && NoRestart(more)
    ensures var end := RunEvents(Started(table), events + more);
      && StartJob(end, operation, id, true) == (end, Raised("host_operation_in_progress"))
      && StartJob(StepEvent(end, Restart), operation, id, true).1.Done?
  {
    RaisedStaysRaised(Started(table), events, more);
    RunningMeans(table, events + more);
  }

  /** A first start on an empty file whose save raises: no thread runs, and the second start is refused. */
  lemma RaisedStartBlocks(id: nat, next: nat)
    ensures var end := RunEvents(Started([]), [Start("upgrade", id, false)]);
      && Consistent(Started([])) && PossibleRun(Started([]), [Start("upgrade", id, false)]) && end.threads == {}
      && StartJob(end, "upgrade", next, true) == (end, Raised("host_operation_in_progress"))
  {
    var events := [Start("upgrade", id, false)];
    assert events[..0] == [];
    assert PossibleRun(Started([]), events[..0]);
    assert RunEvents(Started([]), events) == StartJob(Started([]), "upgrade", id, false).0;
    assert IsRunning(RunEvents(Started([]), events), id);
  }

  // ------------------------------------------------ what a caller reads back

  /** What an event put into memory, if anything. */
  function SavedBy(s: Jobs, event: Event): Option<Entry> {
    match event
    case Start(operation, id, _) =>
      if Supported(operation) && !AnyRunning(s) then Some(Entry(id, operation, Running, None)) else None
    case Finish(id, operation, outcome, writes) => Some(FinishJob(s, id, operation, outcome, writes).memory[id])
    case Restart => None
  }

  /** The last value saved for `id` since the process started. */
  function LastSaved(s: Jobs, events: seq<Event>, id: nat): Option<Entry> {
    if events == [] then None
    else
      var front, last := events[..|events| - 1], events[|events| - 1];
      var saved := SavedBy(RunEvents(s, front), last);
      if last.Restart? then None
      else if saved.Some? && saved.value.id == id then saved
      else LastSaved(s, front, id)
  }

  /** Every job of this process reads back as it was last saved, even when evicted from the file. */
  lemma {:induction false} JobReadsLastSaved(s: Jobs, events: seq<Event>, id: nat)
    requires s.memory == map[]
    ensures LastSaved(s, events, id).Some? <==> id in RunEvents(s, events).memory
    ensures LastSaved(s, events, id).Some? ==> GetJob(RunEvents(s, events), id) == LastSaved(s, events, id)
  {
    if events != [] {
      var front, last := events[..|events| - 1], events[|events| - 1];
      JobReadsLastSaved(s, front, id);
      MemoryAfter(RunEvents(s, front), last, id);
    }
  }

  lemma MemoryAfter(s: Jobs, event: Event, id: nat)
    ensures var after, saved := StepEvent(s, event), SavedBy(s, event);
      if event.Restart? then id !in after.memory
      else if saved.Some? && saved.value.id == id then id in after.memory && after.memory[id] == saved.value
      else (id in after.memory <==> id in s.memory) && (id in s.memory ==> after.memory[id] == s.memory[id])
  {
  }

  lemma SavedIsFound(table: seq<Entry>, e: Entry)
    requires Sorted(table) && |table| <= KEPT
    ensures GetJob(Started(Stored(table, e)), e.id) == Some(e)
  {
    SaveKeepsTable(table, e);
    var stored := Stored(table, e);
    var k :| 0 <= k < |stored| && stored[k] == e;
    IndexInSorted(stored, k);
  }

  /**
   A job that has ended reads the same before and after a restart if and only if its last save did
   not raise; otherwise the file goes on saying that it is running.
   */
  lemma EndSurvivesRestartIff(s: Jobs, id: nat, operation: string, outcome: Outcome, writes: EndWrites)
    requires Consistent(s) && Possible(s, Finish(id, operation, outcome, writes))
    ensures var after := FinishJob(s, id, operation, outcome, writes);
      var restarted := GetJob(StepEvent(after, Restart), id);
      && (restarted == GetJob(after, id) <==> (outcome.Done? && writes.success) || writes.failure)
      && (!((outcome.Done? && writes.success) || writes.failure) ==> restarted == Some(s.memory[id]))
  {
    var after := FinishJob(s, id, operation, outcome, writes);
    SavedIsFound(s.table, after.memory[id]);
    var k :| 0 <= k < |s.table| && s.table[k] == s.memory[id];
    IndexInSorted(s.table, k);
    assert IsRunning(s, id);
  }

  lemma {:induction false} IndexInSorted(table: seq<Entry>, k: nat)
    requires Sorted(table) && k < |table|
    ensures IndexOf(table, table[k].id) == k
  {
    if k > 0 {
      IndexInSorted(table[1..], k - 1);
    }
  }

  // ------------------------------------------------------------ the object

  class JobStore {
    var jobs: map<nat, Entry>
    var table: seq<Entry>
    var threads: set<nat>

    function State(): Jobs
      reads this
    {
      Jobs(jobs, table, threads)
    }

    constructor (table: seq<Entry>)
      ensures State() == Started(table)
    {
      jobs, threads := map[], {};
      this.table := table;
    }

    /** `write` says how the write of the state file goes. */
    method SaveJob(e: Entry, write: bool) returns (r: Outcome)
      modifies this`jobs, this`table
      ensures State() == Save(old(State()), e, write)
      ensures r == if write then Done else Raised("state_not_written")
    {
      jobs := jobs[e.id := e];
      var grown := Assign(table, e);
      var drop := if |grown| > KEPT then |grown| - KEPT else 0;
      var kept := grown;
      for k := 0 to drop
        invariant kept == grown[k..]
      {
        kept := kept[1..];
      }
      if !write {
        return Raised("state_not_written");
      }
      table := WriteSorted(kept);
      return Done;
    }

    method Start(operation: string, id: nat, write: bool) returns (r: Outcome)
      modifies this
      ensures (State(), r) == StartJob(old(State()), operation, id, write)
    {
      if !Supported(operation) {
        return Raised("unsupported_host_operation");
      }
      if AnyRunning(State()) {
        return Raised("host_operation_in_progress");
      }
      r := SaveJob(Entry(id, operation, Running, None), write);
      if r.Done? {
        threads := threads + {id};
      }
    }

    /** The end of a job's thread: the save of a success is inside the guarded block. */
    method Finish(id: nat, operation: string, outcome: Outcome, writes: EndWrites)
      modifies this
      ensures State() == FinishJob(old(State()), id, operation, outcome, writes)
    {
      var ended := outcome;
      threads := threads - {id};
      if outcome.Done? {
        var saved := SaveJob(Entry(id, operation, Succeeded, None), writes.success);
        ended := if saved.Done? then Done else Raised("host_operation_failed");
      }
      if ended.Raised? {
        var _ := SaveJob(Entry(id, operation, Failed, Some(ended.detail)), writes.failure);
      }
    }

    method Get(id: nat) returns (found: Option<Entry>)
      ensures found == GetJob(State(), id)
    {
      if id in jobs {
        return Some(jobs[id]);
      }
      for i := 0 to |table|
        invariant IndexOf(table, id) >= i
      {
        if table[i].id == id {
          return Some(table[i]);
        }
      }
      return None;
    }
  }
}
