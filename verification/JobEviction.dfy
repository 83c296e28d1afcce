/**
 Which jobs the state file holds after any run: the file is written sorted by id and trimmed from
 the front (host_agent/server.py, _save_job and StateStore.write), so it evicts by id and not by age.
 */
module JobEviction {
  import opened Basics
  import opened JobTable

  /** The ids of the jobs whose start was written to the file, in the order they were started. */
  function Written(s: Jobs, events: seq<Event>): seq<nat> {
    if events == [] then []
    else
      var front, last := events[..|events| - 1], events[|events| - 1];
      Written(s, front)
      + if last.Start? && StartJob(RunEvents(s, front), last.operation, last.id, last.write).1.Done? then [last.id] else []
  }

  ghost function SetOf(ids: seq<nat>): set<nat> {
    set id | id in ids
  }

  ghost predicate Distinct(ids: seq<nat>) {
    forall i, j :: 0 <= i < j < |ids| ==> ids[i] != ids[j]
  }

  ghost function IdsOf(table: seq<Entry>): set<nat> {
    set e | e in table :: e.id
  }

  // ----------------------------------------------------------- one save

  lemma SameEntriesSameIds(a: seq<Entry>, b: seq<Entry>)
    requires multiset(a) == multiset(b)
    ensures IdsOf(a) == IdsOf(b)
  {
    assert forall e :: e in a <==> e in multiset(a);
    assert forall e :: e in b <==> e in multiset(b);
  }

  lemma IdsOfAppend(table: seq<Entry>, e: Entry)
    ensures IdsOf(table + [e]) == IdsOf(table) + {e.id}
  {
    assert forall x :: x in table + [e] <==> x in table || x == e;
  }

  lemma IdsOfTail(table: seq<Entry>)
    requires Sorted(table) && table != []
    ensures IdsOf(table[1..]) == IdsOf(table) - {table[0].id}
    ensures table[0].id in IdsOf(table) && forall id :: id in IdsOf(table) ==> table[0].id <= id
  {
    assert table == [table[0]] + table[1..];
    assert table[0] in table;
    forall e | e in table[1..] ensures e.id > table[0].id {
      var k :| 0 <= k < |table| - 1 && table[1..][k] == e;
      assert table[k + 1] == e;
    }
  }

  lemma IdsOfUpdate(table: seq<Entry>, i: nat, e: Entry)
    requires i < |table| && table[i].id == e.id
    ensures IdsOf(table[i := e]) == IdsOf(table)
  {
    var after := table[i := e];
    forall x | x in table ensures x.id in IdsOf(after) {
      var k :| 0 <= k < |table| && table[k] == x;
      assert after[k] in after && after[k].id == x.id;
    }
    forall x | x in after ensures x.id in IdsOf(table) {
      var k :| 0 <= k < |table| && after[k] == x;
      assert table[k] in table && table[k].id == x.id;
    }
  }

  lemma AbsentId(table: seq<Entry>, id: nat)
    ensures id !in IdsOf(table) <==> IndexOf(table, id) == |table|
  {
    var i := IndexOf(table, id);
    if i < |table| {
      assert table[i] in table;
    }
  }

  lemma {:induction false} AsManyIds(table: seq<Entry>)
    requires Sorted(table)
    ensures |IdsOf(table)| == |table|
  {
    if table != [] {
      IdsOfTail(table);
      AsManyIds(table[1..]);
      assert IdsOf(table) == IdsOf(table[1..]) + {table[0].id};
    }
  }

  /** What a save makes of the ids in the file. */
  ghost function NextFile(file: set<nat>, least: nat, id: nat): set<nat> {
    if |file| < KEPT then file + {id} else file - {least} + {id}
  }

  lemma StoredIds(table: seq<Entry>, e: Entry)
    ensures IdsOf(Stored(table, e)) == IdsOf(Trim(Assign(table, e)))
  {
    var trimmed := Trim(Assign(table, e));
    WriteKeepsEntries(trimmed);
    SameEntriesSameIds(WriteSorted(trimmed), trimmed);
  }

  lemma NewJobStored(table: seq<Entry>, e: Entry)
    requires Sorted(table) && |table| <= KEPT && IndexOf(table, e.id) == |table|
    ensures IdsOf(Stored(table, e)) == NextFile(IdsOf(table), if table == [] then 0 else table[0].id, e.id)
  {
    StoredIds(table, e);
    AsManyIds(table);
    if |table| < KEPT {
      assert Trim(Assign(table, e)) == table + [e];
      IdsOfAppend(table, e);
    } else {
      DropsFirst(table, e);
      IdsOfTail(table);
      IdsOfAppend(table[1..], e);
    }
  }

  lemma DropsFirst(table: seq<Entry>, e: Entry)
    requires |table| == KEPT && IndexOf(table, e.id) == |table|
    ensures Trim(Assign(table, e)) == table[1..] + [e]
  {
  }

  lemma KnownJobStored(table: seq<Entry>, e: Entry)
    requires Sorted(table) && |table| <= KEPT && IndexOf(table, e.id) < |table|
    ensures IdsOf(Stored(table, e)) == IdsOf(table)
  {
    StoredIds(table, e);
    IdsOfUpdate(table, IndexOf(table, e.id), e);
  }

  // ---------------------------------------------------------- whole runs

  /** Every job evicted has a smaller id than every job kept, the last one started aside. */
  ghost predicate EvictsById(file: set<nat>, ids: seq<nat>) {
    ids != [] ==>
      && ids[|ids| - 1] in file
      && forall gone, kept :: gone in ids && gone !in file && kept in file && kept != ids[|ids| - 1] ==> gone < kept
  }

  /** What the file holds of the jobs `ids`, in the order they were started. */
  ghost predicate FileOf(file: set<nat>, ids: seq<nat>) {
    && file <= SetOf(ids) && |file| <= KEPT
    && (|ids| <= KEPT ==> file == SetOf(ids)) && (|ids| > KEPT ==> |file| == KEPT)
    && EvictsById(file, ids)
  }

  lemma {:induction false} AsManyAsDistinct(ids: seq<nat>)
    requires Distinct(ids)
    ensures |SetOf(ids)| == |ids|
  {
    if ids != [] {
      var front, last := ids[..|ids| - 1], ids[|ids| - 1];
      AsManyAsDistinct(front);
      assert last !in front;
      assert SetOf(ids) == SetOf(front) + {last};
    }
  }

  lemma EvictionStep(file: set<nat>, ids: seq<nat>, least: nat, id: nat)
    requires EvictsById(file, ids) && id !in ids && file <= SetOf(ids) && ids != []
    requires least in file && forall x :: x in file ==> least <= x
    ensures EvictsById(file - {least} + {id}, ids + [id])
  {
    var last := ids[|ids| - 1];
    forall gone, kept | gone in ids && (gone !in file || gone == least) && kept in file && kept != least
      ensures gone < kept
    {
      if gone != least && kept == last {
        assert least != last && gone < least;
      }
    }
  }

  lemma FileStep(file: set<nat>, ids: seq<nat>, least: nat, id: nat)
    requires FileOf(file, ids) && Distinct(ids + [id]) && (file != {} ==> least in file && forall x :: x in file ==> least <= x)
    ensures FileOf(NextFile(file, least, id), ids + [id])
  {
    var all := ids + [id];
    assert forall i :: 0 <= i < |ids| ==> all[i] == ids[i] && all[i] != all[|ids|];
    AsManyAsDistinct(ids);
    assert SetOf(all) == SetOf(ids) + {id};
    if |ids| >= KEPT {
      EvictionStep(file, ids, least, id);
    }
  }

  lemma {:induction false} RunFile(events: seq<Event>)
    requires PossibleRun(Started([]), events) && Distinct(Written(Started([]), events))
    ensures Consistent(RunEvents(Started([]), events))
    ensures FileOf(IdsOf(RunEvents(Started([]), events).table), Written(Started([]), events))
  {
    var s := Started([]);
    RunStaysConsistent(s, events);
    if events != [] {
      var front, last := events[..|events| - 1], events[|events| - 1];
      FrontDistinct(Written(s, front), Written(s, events));
      RunFile(front);
      FileAfterEvent(RunEvents(s, front), last, Written(s, front), Written(s, events));
    }
  }

  lemma FrontDistinct(front: seq<nat>, ids: seq<nat>)
    requires front <= ids && Distinct(ids)
    ensures Distinct(front)
  {
  }

  lemma FileAfterStart(s: Jobs, operation: string, id: nat, ids: seq<nat>)
    requires Consistent(s) && IndexOf(s.table, id) == |s.table| && FileOf(IdsOf(s.table), ids) && Distinct(ids + [id])
    ensures FileOf(IdsOf(Stored(s.table, Entry(id, operation, Running, None))), ids + [id])
  {
    var least := if s.table == [] then 0 else s.table[0].id;
    if s.table != [] {
      IdsOfTail(s.table);
    }
    NewJobStored(s.table, Entry(id, operation, Running, None));
    FileStep(IdsOf(s.table), ids, least, id);
  }

  lemma FinishKeepsIds(s: Jobs, id: nat, operation: string, outcome: Outcome, writes: EndWrites)
    requires Consistent(s) && id in s.threads
    ensures IdsOf(FinishJob(s, id, operation, outcome, writes).table) == IdsOf(s.table)
  {
    assert s.memory[id] in s.table && s.memory[id].id == id;
    AbsentId(s.table, id);
    KnownJobStored(s.table, FinishJob(s, id, operation, outcome, writes).memory[id]);
  }

  lemma FileAfterEvent(s: Jobs, event: Event, ids: seq<nat>, after: seq<nat>)
    requires Consistent(s) && Possible(s, event) && FileOf(IdsOf(s.table), ids) && Distinct(after)
    requires after == ids + if event.Start? && StartJob(s, event.operation, event.id, event.write).1.Done? then [event.id]
                            else []
    ensures FileOf(IdsOf(StepEvent(s, event).table), after)
  {
    match event
    case Start(operation, id, write) =>
      if StartJob(s, operation, id, write).1.Done? {
        FileAfterStart(s, operation, id, ids);
      } else {
        assert after == ids;
      }
    case Finish(id, operation, outcome, writes) =>
      assert after == ids;
      FinishKeepsIds(s, id, operation, outcome, writes);
    case Restart =>
      assert after == ids;
  }

  // --------------------------------------------------- exactly which jobs

  ghost function Greater(ids: seq<nat>, id: nat): set<nat> {
    set other | other in ids && other > id
  }

  /** All jobs but the last one started. */
  function Earlier(ids: seq<nat>): seq<nat>
    requires ids != []
  {
    ids[..|ids| - 1]
  }

  /** The job is the last one, or fewer than nineteen of those before the last have a greater id. */
  ghost predicate Survives(ids: seq<nat>, id: nat) {
    ids != [] && (id == ids[|ids| - 1] || |Greater(Earlier(ids), id)| < KEPT - 1)
  }

  lemma Smaller(a: set<nat>, b: set<nat>)
    requires a <= b
    ensures |a| <= |b|
  {
    assert b == a + (b - a) && |a + (b - a)| == |a| + |b - a|;
  }

  lemma LastOnce(ids: seq<nat>)
    requires Distinct(ids) && ids != []
    ensures ids[|ids| - 1] !in Earlier(ids) && SetOf(ids) == SetOf(Earlier(ids)) + {ids[|ids| - 1]}
    ensures |SetOf(Earlier(ids))| == |ids| - 1
  {
    AsManyAsDistinct(Earlier(ids));
  }

  lemma KeptIff(file: set<nat>, ids: seq<nat>, id: nat)
    requires FileOf(file, ids) && Distinct(ids) && id in ids
    ensures id in file <==> Survives(ids, id)
  {
    var last := ids[|ids| - 1];
    LastOnce(ids);
    if id != last {
      var others := file - {last};
      if id in file {
        if |ids| <= KEPT {
          Smaller(Greater(Earlier(ids), id), SetOf(Earlier(ids)) - {id});
        } else {
          forall other | other in Greater(Earlier(ids), id) ensures other in others - {id} {
            assert other in SetOf(ids);
          }
          Smaller(Greater(Earlier(ids), id), others - {id});
        }
      } else {
        forall kept | kept in others ensures kept in Greater(Earlier(ids), id) {
          assert kept in SetOf(ids);
        }
        Smaller(others, Greater(Earlier(ids), id));
      }
    }
  }

  /** The last twenty jobs, or all of them. */
  function Recent(ids: seq<nat>): seq<nat> {
    if |ids| > KEPT then ids[|ids| - KEPT..] else ids
  }

  /** Each of the nineteen jobs before the last has a greater id than every older job. */
  ghost predicate RecentAreGreatest(ids: seq<nat>) {
    forall i, j :: 0 <= i < |ids| - KEPT <= j < |ids| - 1 ==> ids[i] < ids[j]
  }

  lemma RecentIff(file: set<nat>, ids: seq<nat>)
    requires FileOf(file, ids) && Distinct(ids)
    ensures file == SetOf(Recent(ids)) <==> RecentAreGreatest(ids)
  {
    if |ids| > KEPT {
      if file == SetOf(Recent(ids)) {
        forall i, j | 0 <= i < |ids| - KEPT <= j < |ids| - 1 ensures ids[i] < ids[j] {
          OlderIsSmaller(file, ids, i, j);
        }
      } else if RecentAreGreatest(ids) {
        RecentAreKept(file, ids);
      }
    }
  }

  lemma OlderIsSmaller(file: set<nat>, ids: seq<nat>, i: nat, j: nat)
    requires FileOf(file, ids) && Distinct(ids) && file == SetOf(Recent(ids)) && i < |ids| - KEPT <= j < |ids| - 1
    ensures ids[i] < ids[j]
  {
    NotRecent(ids, i);
    assert ids[j] == Recent(ids)[j - (|ids| - KEPT)];
    assert ids[i] in ids && ids[i] !in file && ids[j] in file && ids[j] != ids[|ids| - 1];
  }

  lemma NotRecent(ids: seq<nat>, i: nat)
    requires Distinct(ids) && i < |ids| - KEPT
    ensures ids[i] !in Recent(ids)
  {
    var d := |ids| - KEPT;
    forall k | 0 <= k < KEPT ensures Recent(ids)[k] != ids[i] {
      assert Recent(ids)[k] == ids[d + k];
    }
  }

  lemma RecentAreKept(file: set<nat>, ids: seq<nat>)
    requires FileOf(file, ids) && Distinct(ids) && |ids| > KEPT && RecentAreGreatest(ids)
    ensures file == SetOf(Recent(ids))
  {
    var d, last := |ids| - KEPT, ids[|ids| - 1];
    forall id | id in file ensures id in SetOf(Recent(ids)) {
      var k :| 0 <= k < |ids| && ids[k] == id;
      if k < d {
        OlderIsGone(file, ids, k);
      } else {
        assert ids[d..][k - d] == id;
      }
    }
    FrontDistinctTail(ids, d);
    AsManyAsDistinct(Recent(ids));
    SameSize(file, SetOf(Recent(ids)));
  }

  lemma FrontDistinctTail(ids: seq<nat>, d: nat)
    requires Distinct(ids) && d <= |ids|
    ensures Distinct(ids[d..])
  {
  }

  lemma SameSize(a: set<nat>, b: set<nat>)
    requires a <= b && |a| == |b|
    ensures a == b
  {
    assert b == a + (b - a);
  }

  lemma OlderIsGone(file: set<nat>, ids: seq<nat>, k: nat)
    requires FileOf(file, ids) && Distinct(ids) && |ids| > KEPT && RecentAreGreatest(ids) && k < |ids| - KEPT
    ensures ids[k] !in file
  {
    var d := |ids| - KEPT;
    var before := ids[d..|ids| - 1];
    FrontDistinctTail(ids[..|ids| - 1], d);
    assert before == ids[..|ids| - 1][d..];
    AsManyAsDistinct(before);
    forall id | id in before ensures id in Greater(Earlier(ids), ids[k]) {
      var j :| 0 <= j < |before| && before[j] == id;
      assert ids[d + j] == id && ids[..|ids| - 1][d + j] == id;
    }
    Smaller(SetOf(before), Greater(Earlier(ids), ids[k]));
    assert ids[k] in ids;
    KeptIff(file, ids, ids[k]);
  }

  // ------------------------------------------------------------ main results

  /**
   After any run from an empty file, and a restart, a job is found if and only if it is the last
   one started or fewer than nineteen of the jobs started before the last have a greater id.
   */
  lemma FoundAfterRestartIff(events: seq<Event>, id: nat)
    requires PossibleRun(Started([]), events) && Distinct(Written(Started([]), events))
    requires id in Written(Started([]), events)
    ensures GetJob(StepEvent(RunEvents(Started([]), events), Restart), id).Some?
       <==> Survives(Written(Started([]), events), id)
  {
    RunFile(events);
    FoundIff(RunEvents(Started([]), events), Written(Started([]), events), id);
  }

  lemma FoundIff(s: Jobs, ids: seq<nat>, id: nat)
    requires FileOf(IdsOf(s.table), ids) && Distinct(ids) && id in ids
    ensures GetJob(StepEvent(s, Restart), id).Some? <==> Survives(ids, id)
  {
    AbsentId(s.table, id);
    KeptIff(IdsOf(s.table), ids, id);
  }

  /**
   The file holds exactly the twenty most recent jobs if and only if each of the nineteen before
   the last has a greater id than every older job. Ids are random, so it usually does not.
   */
  lemma FileIsMostRecentIff(events: seq<Event>)
    requires PossibleRun(Started([]), events) && Distinct(Written(Started([]), events))
    ensures var ids := Written(Started([]), events);
      IdsOf(RunEvents(Started([]), events).table) == SetOf(Recent(ids)) <==> RecentAreGreatest(ids)
  {
    RunFile(events);
    RecentIff(IdsOf(RunEvents(Started([]), events).table), Written(Started([]), events));
  }

  // ----------------------------------------------------------------- witness

  /** Jobs one after the other, each started and ended before the next. */
  function OneByOne(ids: seq<nat>): seq<Event> {
    if ids == [] then [] else Then(OneByOne(Earlier(ids)), ids[|ids| - 1])
  }

  function Then(events: seq<Event>, id: nat): seq<Event> {
    events + [Start("rollback", id, true)] + [Finish(id, "rollback", Done, EndWrites(true, true))]
  }

  /** Nothing runs, and memory and file hold none but the jobs so far. */
  ghost predicate Idle(s: Jobs, ids: seq<nat>) {
    && Consistent(s) && !AnyRunning(s) && s.threads == {}
    && (forall id :: id in s.memory ==> id in ids) && (forall e :: e in s.table ==> e.id in ids)
  }

  lemma RunSnoc(s: Jobs, events: seq<Event>, event: Event)
    ensures RunEvents(s, events + [event]) == StepEvent(RunEvents(s, events), event)
    ensures PossibleRun(s, events + [event]) <==> PossibleRun(s, events) && Possible(RunEvents(s, events), event)
    ensures Written(s, events + [event])
         == Written(s, events)
            + if event.Start? && StartJob(RunEvents(s, events), event.operation, event.id, event.write).1.Done?
              then [event.id] else []
  {
    assert (events + [event])[..|events|] == events;
  }

  lemma StoredFrom(table: seq<Entry>, e: Entry)
    requires Sorted(table)
    ensures forall x :: x in Stored(table, e) ==> x == e || x in table
  {
    StoredIsSorted(table, e);
    var grown := Assign(table, e);
    WriteKeepsEntries(Trim(grown));
    forall x | x in Stored(table, e) ensures x == e || x in table {
      assert x in multiset(WriteSorted(Trim(grown)));
      assert x in Trim(grown) && x in grown;
    }
  }

  lemma OneMoreJob(s: Jobs, ids: seq<nat>, id: nat)
    requires Idle(s, ids) && id !in ids
    ensures var begun := StepEvent(s, Start("rollback", id, true));
      var finish := Finish(id, "rollback", Done, EndWrites(true, true));
      && Possible(s, Start("rollback", id, true)) && StartJob(s, "rollback", id, true).1.Done?
      && Possible(begun, finish) && Idle(StepEvent(begun, finish), ids + [id])
  {
    var start, finish := Start("rollback", id, true), Finish(id, "rollback", Done, EndWrites(true, true));
    var begun := StepEvent(s, start);
    assert id !in IdsOf(s.table);
    AbsentId(s.table, id);
    StepStaysConsistent(s, start);
    StepStaysConsistent(begun, finish);
    NothingRuns(begun, id, "rollback", Done, EndWrites(true, true));
    StoredFrom(s.table, Entry(id, "rollback", Running, None));
    StoredFrom(begun.table, Entry(id, "rollback", Succeeded, None));
  }

  ghost predicate Ran(events: seq<Event>, ids: seq<nat>) {
    && PossibleRun(Started([]), events) && Written(Started([]), events) == ids
    && Idle(RunEvents(Started([]), events), ids)
  }

  lemma RanOneMore(events: seq<Event>, ids: seq<nat>, id: nat)
    requires Ran(events, ids) && id !in ids
    ensures Ran(Then(events, id), ids + [id])
  {
    var s, start := Started([]), Start("rollback", id, true);
    OneMoreJob(RunEvents(s, events), ids, id);
    RunSnoc(s, events, start);
    RunSnoc(s, events + [start], Finish(id, "rollback", Done, EndWrites(true, true)));
  }

  lemma RanNothing()
    ensures Ran([], [])
  {
  }

  lemma {:induction false} OneByOneRuns(ids: seq<nat>)
    requires Distinct(ids)
    ensures Ran(OneByOne(ids), ids)
  {
    if ids == [] {
      RanNothing();
    } else {
      var front, last := Earlier(ids), ids[|ids| - 1];
      LastOnce(ids);
      OneByOneRuns(front);
      RanOneMore(OneByOne(front), front, last);
      SameRun(Then(OneByOne(front), last), front + [last], OneByOne(ids), ids);
    }
  }

  lemma SameRun(events: seq<Event>, ids: seq<nat>, events': seq<Event>, ids': seq<nat>)
    requires Ran(events, ids) && events == events' && ids == ids'
    ensures Ran(events', ids')
  {
  }

  /** Twenty-one jobs of which the last but one has the least id. */
  ghost predicate LastButOneIsLeast(ids: seq<nat>) {
    Distinct(ids) && |ids| == KEPT + 1 && forall i :: 0 <= i < KEPT - 1 ==> ids[KEPT - 1] < ids[i]
  }

  lemma LeastIsGone(ids: seq<nat>)
    requires LastButOneIsLeast(ids)
    ensures !Survives(ids, ids[KEPT - 1])
  {
    var others := ids[..KEPT - 1];
    AsManyAsDistinct(others);
    forall id | id in others ensures id in Greater(Earlier(ids), ids[KEPT - 1]) {
      var k :| 0 <= k < KEPT - 1 && others[k] == id;
      assert Earlier(ids)[k] == id;
    }
    Smaller(SetOf(others), Greater(Earlier(ids), ids[KEPT - 1]));
  }

  lemma OldestIsFound(ids: seq<nat>)
    requires LastButOneIsLeast(ids)
    ensures Survives(ids, ids[0])
  {
    var others := ids[..KEPT - 1];
    AsManyAsDistinct(others);
    forall id | id in Greater(Earlier(ids), ids[0]) ensures id in SetOf(others) - {ids[0]} {
      var k :| 0 <= k < KEPT && Earlier(ids)[k] == id;
      assert k != KEPT - 1 && others[k] == id;
    }
    assert others[0] in others;
    Smaller(Greater(Earlier(ids), ids[0]), SetOf(others) - {ids[0]});
  }

  /** Jobs 1 to 19, then job 0, then job 20. */
  const DIPPING: seq<nat> := seq(KEPT + 1, i => if i < KEPT - 1 then i + 1 else if i == KEPT - 1 then 0 else KEPT)

  /** A run of twenty-one jobs: after a restart the most recent but one is gone, the oldest of all is found. */
  lemma RecentJobIsGone()
    ensures PossibleRun(Started([]), OneByOne(DIPPING)) && Written(Started([]), OneByOne(DIPPING)) == DIPPING
    ensures var restarted := StepEvent(RunEvents(Started([]), OneByOne(DIPPING)), Restart);
      GetJob(restarted, DIPPING[KEPT - 1]).None? && GetJob(restarted, DIPPING[0]).Some?
  {
    OneByOneRuns(DIPPING);
    LeastIsGone(DIPPING);
    OldestIsFound(DIPPING);
    FoundAfterRestartIff(OneByOne(DIPPING), DIPPING[KEPT - 1]);
    FoundAfterRestartIff(OneByOne(DIPPING), DIPPING[0]);
  }
}
