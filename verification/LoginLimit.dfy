/**
 The login attempt limiter (app/web/auth_routes.py): a deque of recent attempts per key, pruned
 from the front, against the plain definition that counts admitted attempts in the window.
 */
module LoginLimit {

  datatype Event = Attempt(key: string, at: real) | Clear(key: string)

  // ------------------------------------------------------ plain definition

  function Recent(times: seq<real>, cutoff: real): seq<real> {
    if times == [] then []
    else
      var t := times[|times| - 1];
      Recent(times[..|times| - 1], cutoff) + if t >= cutoff then [t] else []
  }

  /** All admitted attempts of `key` since its last clear, none ever pruned. */
  function Admissions(limit: int, window: real, events: seq<Event>, key: string): seq<real> {
    if events == [] then []
    else
      var last, before := events[|events| - 1], Admissions(limit, window, events[..|events| - 1], key);
      if last.key != key then before
      else match last
        case Clear(_) => []
        case Attempt(_, at) => if |Recent(before, at - window)| < limit then before + [at] else before
  }

  // ------------------------------------------------------------- the deque

  function Prune(deque: seq<real>, cutoff: real): seq<real> {
    if deque != [] && deque[0] < cutoff then Prune(deque[1..], cutoff) else deque
  }

  function AfterAttempt(limit: int, window: real, deque: seq<real>, at: real): seq<real> {
    var pruned := Prune(deque, at - window);
    if |pruned| >= limit then pruned else pruned + [at]
  }

  function Deque(limit: int, window: real, events: seq<Event>, key: string): seq<real> {
    if events == [] then []
    else
      var last, before := events[|events| - 1], Deque(limit, window, events[..|events| - 1], key);
      if last.key != key then before
      else match last
        case Clear(_) => []
        case Attempt(_, at) => AfterAttempt(limit, window, before, at)
  }

  // ------------------------------------------------------------ refinement

  predicate IsAttempt(event: Event, key: string) {
    event.Attempt? && event.key == key
  }

  ghost predicate NonDecreasing(events: seq<Event>, key: string) {
    forall i, j :: 0 <= i < j < |events| && IsAttempt(events[i], key) && IsAttempt(events[j], key) ==>
      events[i].at <= events[j].at
  }

  ghost predicate Bounded(times: seq<real>, bound: real) {
    forall i :: 0 <= i < |times| ==> times[i] <= bound
  }

  /** No attempt of `key` in `events` has a reading after `now`. */
  ghost predicate NotAfter(events: seq<Event>, key: string, now: real) {
    forall i :: 0 <= i < |events| && IsAttempt(events[i], key) ==> events[i].at <= now
  }

  lemma {:induction false} PruneAppend(deque: seq<real>, at: real, cutoff: real)
    requires Bounded(deque, at)
    ensures Prune(deque + [at], cutoff) == if at >= cutoff then Prune(deque, cutoff) + [at] else []
    ensures at < cutoff ==> Prune(deque, cutoff) == []
  {
    if deque == [] {
      assert deque + [at] == [at];
      assert [at][1..] == [];
    } else {
      assert (deque + [at])[1..] == deque[1..] + [at];
      PruneAppend(deque[1..], at, cutoff);
    }
  }

  lemma {:induction false} PruneAgain(deque: seq<real>, early: real, late: real)
    requires early <= late
    ensures Prune(Prune(deque, early), late) == Prune(deque, late)
    ensures forall bound :: Bounded(deque, bound) ==> Bounded(Prune(deque, early), bound)
  {
    if deque != [] && deque[0] < early {
      PruneAgain(deque[1..], early, late);
    }
  }

  lemma {:induction false} NothingRecent(times: seq<real>, bound: real, cutoff: real)
    requires Bounded(times, bound) && bound < cutoff
    ensures Recent(times, cutoff) == []
  {
    if times != [] {
      NothingRecent(times[..|times| - 1], bound, cutoff);
    }
  }

  lemma {:induction false} ReadingsBounded(limit: int, window: real, events: seq<Event>, key: string, now: real)
    requires NotAfter(events, key, now)
    ensures Bounded(Admissions(limit, window, events, key), now)
    ensures Bounded(Deque(limit, window, events, key), now)
  {
    if events != [] {
      var front, last := events[..|events| - 1], events[|events| - 1];
      ReadingsBounded(limit, window, front, key, now);
      if last.Attempt? && last.key == key {
        PruneAgain(Deque(limit, window, front, key), last.at - window, last.at - window);
      }
    }
  }

  /**
   The pruned deque loses nothing that can still count: at every reading not before the latest
   one of the key, what is left after pruning is exactly the recent admissions.
   */
  lemma {:induction false} DequeHoldsRecent(limit: int, window: real, events: seq<Event>, key: string, now: real)
    requires NonDecreasing(events, key) && NotAfter(events, key, now)
    ensures Prune(Deque(limit, window, events, key), now - window)
         == Recent(Admissions(limit, window, events, key), now - window)
  {
    if events != [] {
      var front, last := events[..|events| - 1], events[|events| - 1];
      assert NotAfter(front, key, now);
      if last.key != key {
        DequeHoldsRecent(limit, window, front, key, now);
      } else if last.Attempt? {
        assert events == front + [Attempt(key, last.at)];
        AttemptsSoFar(front, key, last.at);
        DequeHoldsRecent(limit, window, front, key, now);
        DequeHoldsRecent(limit, window, front, key, last.at);
        ReadingsBounded(limit, window, front, key, last.at);
        AttemptHoldsRecent(limit, window, Deque(limit, window, front, key),
                           Admissions(limit, window, front, key), last.at, now);
      }
    }
  }

  lemma AttemptHoldsRecent(limit: int, window: real, deque: seq<real>, admitted: seq<real>, at: real, now: real)
    requires at <= now && Bounded(deque, at) && Bounded(admitted, at)
    requires Prune(deque, at - window) == Recent(admitted, at - window)
    requires Prune(deque, now - window) == Recent(admitted, now - window)
    ensures Prune(AfterAttempt(limit, window, deque, at), now - window)
         == Recent(if |Recent(admitted, at - window)| < limit then admitted + [at] else admitted, now - window)
  {
    var pruned := Prune(deque, at - window);
    PruneAgain(deque, at - window, now - window);
    if |pruned| < limit {
      PruneAppend(pruned, at, now - window);
      assert (admitted + [at])[..|admitted|] == admitted;
      if at < now - window {
        NothingRecent(admitted, at, now - window);
      }
    }
  }

  /** For non-decreasing readings the limiter answers as the plain definition does, on every run. */
  lemma LimiterRefinesCount(limit: int, window: real, events: seq<Event>, key: string, now: real)
    requires NonDecreasing(events + [Attempt(key, now)], key)
    ensures |Prune(Deque(limit, window, events, key), now - window)| < limit
       <==> |Recent(Admissions(limit, window, events, key), now - window)| < limit
  {
    AttemptsSoFar(events, key, now);
    DequeHoldsRecent(limit, window, events, key, now);
  }

  lemma AttemptsSoFar(events: seq<Event>, key: string, now: real)
    requires NonDecreasing(events + [Attempt(key, now)], key)
    ensures NonDecreasing(events, key) && NotAfter(events, key, now)
  {
    var all := events + [Attempt(key, now)];
    assert all[|events|] == Attempt(key, now);
    assert forall i :: 0 <= i < |events| ==> all[i] == events[i];
  }

  lemma DequeAppend(limit: int, window: real, events: seq<Event>, event: Event, key: string)
    ensures Deque(limit, window, events + [event], key)
         == if event.key != key then Deque(limit, window, events, key)
            else if event.Clear? then []
            else AfterAttempt(limit, window, Deque(limit, window, events, key), event.at)
  {
    assert (events + [event])[..|events|] == events;
  }

  // --------------------------------------------------------------- the cap

  function InWindow(times: seq<real>, from: real, to: real): nat {
    if times == [] then 0
    else
      var t := times[|times| - 1];
      InWindow(times[..|times| - 1], from, to) + if from <= t <= to then 1 else 0
  }

  lemma {:induction false} WindowWithinRecent(times: seq<real>, from: real, to: real, cutoff: real)
    requires cutoff <= from
    ensures InWindow(times, from, to) <= |Recent(times, cutoff)|
  {
    if times != [] {
      WindowWithinRecent(times[..|times| - 1], from, to, cutoff);
    }
  }

  lemma {:induction false} AdmissionsAreCapped(limit: int, window: real, events: seq<Event>, key: string, from: real)
    ensures InWindow(Admissions(limit, window, events, key), from, from + window) <= if limit > 0 then limit else 0
  {
    if events != [] {
      var front, last := events[..|events| - 1], events[|events| - 1];
      AdmissionsAreCapped(limit, window, front, key, from);
      var before := Admissions(limit, window, front, key);
      if last.key == key && last.Attempt? && |Recent(before, last.at - window)| < limit {
        assert (before + [last.at])[..|before|] == before;
        if from <= last.at <= from + window {
          WindowWithinRecent(before, from, from + window, last.at - window);
        }
      }
    }
  }

  /** The attempts of `key` that the DEQUE let through since the last clear. */
  function LetThrough(limit: int, window: real, events: seq<Event>, key: string): seq<real> {
    if events == [] then []
    else
      var front, last := events[..|events| - 1], events[|events| - 1];
      var before := LetThrough(limit, window, front, key);
      if last.key != key then before
      else match last
        case Clear(_) => []
        case Attempt(_, at) =>
          if |Prune(Deque(limit, window, front, key), at - window)| < limit then before + [at] else before
  }

  lemma NonDecreasingFront(events: seq<Event>, key: string)
    requires events != [] && NonDecreasing(events, key)
    ensures NonDecreasing(events[..|events| - 1], key)
  {
  }

  /** For non-decreasing readings the deque lets through exactly what the plain definition admits. */
  lemma {:induction false} LetThroughIsAdmissions(limit: int, window: real, events: seq<Event>, key: string)
    requires NonDecreasing(events, key)
    ensures LetThrough(limit, window, events, key) == Admissions(limit, window, events, key)
  {
    if events != [] {
      var front, last := events[..|events| - 1], events[|events| - 1];
      NonDecreasingFront(events, key);
      LetThroughIsAdmissions(limit, window, front, key);
      if last.Attempt? && last.key == key {
        assert events == front + [Attempt(key, last.at)];
        LimiterRefinesCount(limit, window, front, key, last.at);
      }
    }
  }

  /**
   For non-decreasing readings no closed window of `window` seconds without a clear sees the
   limiter let more than `limit` attempts through.
   */
  lemma WindowIsCapped(limit: int, window: real, events: seq<Event>, key: string, from: real)
    requires NonDecreasing(events, key)
    ensures InWindow(LetThrough(limit, window, events, key), from, from + window) <= if limit > 0 then limit else 0
  {
    LetThroughIsAdmissions(limit, window, events, key);
    AdmissionsAreCapped(limit, window, events, key, from);
  }

  /** With readings 50, 51, 100, 52 a limit of two in ten seconds lets three through in [50, 60]. */
  lemma OutOfOrderExceedsLimit()
    ensures var events := [Attempt("k", 50.0), Attempt("k", 51.0), Attempt("k", 100.0), Attempt("k", 52.0)];
      && LetThrough(2, 10.0, events, "k") == [50.0, 51.0, 100.0, 52.0]
      && InWindow(LetThrough(2, 10.0, events, "k"), 50.0, 60.0) == 3
  {
    var e1 := [Attempt("k", 50.0)];
    var e2 := e1 + [Attempt("k", 51.0)];
    var e3 := e2 + [Attempt("k", 100.0)];
    var e4 := e3 + [Attempt("k", 52.0)];
    OneMore(2, 10.0, [], "k", 50.0);
    assert [] + e1 == e1;
    assert Deque(2, 10.0, e1, "k") == [50.0];
    OneMore(2, 10.0, e1, "k", 51.0);
    assert Deque(2, 10.0, e2, "k") == [50.0, 51.0];
    OneMore(2, 10.0, e2, "k", 100.0);
    assert [50.0, 51.0][1..] == [51.0] && [51.0][1..] == [];
    assert Deque(2, 10.0, e3, "k") == [100.0];
    OneMore(2, 10.0, e3, "k", 52.0);
    assert LetThrough(2, 10.0, e4, "k") == [50.0, 51.0, 100.0, 52.0];
    CountFour(50.0, 51.0, 100.0, 52.0, 50.0, 60.0);
    assert e4 == [Attempt("k", 50.0), Attempt("k", 51.0), Attempt("k", 100.0), Attempt("k", 52.0)];
  }

  lemma OneMore(limit: int, window: real, events: seq<Event>, key: string, at: real)
    ensures var all := events + [Attempt(key, at)];
      && Deque(limit, window, all, key) == AfterAttempt(limit, window, Deque(limit, window, events, key), at)
      && LetThrough(limit, window, all, key)
         == LetThrough(limit, window, events, key)
            + if |Prune(Deque(limit, window, events, key), at - window)| < limit then [at] else []
  {
    assert (events + [Attempt(key, at)])[..|events|] == events;
  }

  lemma CountFour(a: real, b: real, c: real, d: real, from: real, to: real)
    ensures InWindow([a, b, c, d], from, to)
         == (if from <= a <= to then 1 else 0) + (if from <= b <= to then 1 else 0)
            + (if from <= c <= to then 1 else 0) + if from <= d <= to then 1 else 0
  {
    assert [a, b, c, d][..3] == [a, b, c] && [a, b, c][..2] == [a, b] && [a, b][..1] == [a] && [a][..0] == [];
    assert InWindow([a], from, to) == if from <= a <= to then 1 else 0;
    assert InWindow([a, b], from, to) == InWindow([a], from, to) + if from <= b <= to then 1 else 0;
    assert InWindow([a, b, c], from, to) == InWindow([a, b], from, to) + if from <= c <= to then 1 else 0;
  }

  // ------------------------------------------------------------ the object

  /** The deque of a key; a missing key has an empty one. */
  function DequeOf(attempts: map<string, seq<real>>, key: string): seq<real> {
    if key in attempts then attempts[key] else []
  }

  ghost predicate Tracks(limit: int, window: real, attempts: map<string, seq<real>>, log: seq<Event>) {
    forall key :: DequeOf(attempts, key) == Deque(limit, window, log, key)
  }

  /** Changing one key's deque as its history says keeps all keys tracked. */
  lemma TrackEvent(limit: int, window: real, attempts: map<string, seq<real>>, log: seq<Event>,
                   event: Event, after: map<string, seq<real>>)
    requires Tracks(limit, window, attempts, log)
    requires forall key :: key != event.key ==> DequeOf(after, key) == DequeOf(attempts, key)
    requires DequeOf(after, event.key)
          == if event.Clear? then [] else AfterAttempt(limit, window, DequeOf(attempts, event.key), event.at)
    ensures Tracks(limit, window, after, log + [event])
  {
    forall key ensures DequeOf(after, key) == Deque(limit, window, log + [event], key) {
      DequeAppend(limit, window, log, event, key);
    }
  }

  lemma TrackAttempt(limit: int, window: real, attempts: map<string, seq<real>>, log: seq<Event>,
                     key: string, now: real, next: map<string, seq<real>>)
    requires Tracks(limit, window, attempts, log)
    requires next == attempts[key := AfterAttempt(limit, window, DequeOf(attempts, key), now)]
    ensures Tracks(limit, window, next, log + [Attempt(key, now)])
  {
    TrackEvent(limit, window, attempts, log, Attempt(key, now), next);
  }

  lemma AnswerIsCount(limit: int, window: real, events: seq<Event>, key: string, now: real)
    ensures NonDecreasing(events + [Attempt(key, now)], key) ==>
      (|Prune(Deque(limit, window, events, key), now - window)| < limit
       <==> |Recent(Admissions(limit, window, events, key), now - window)| < limit)
  {
    if NonDecreasing(events + [Attempt(key, now)], key) {
      LimiterRefinesCount(limit, window, events, key, now);
    }
  }

  class LoginAttemptLimiter {
    const limit: int
    const window: real
    var attempts: map<string, seq<real>>
    ghost var log: seq<Event>

    ghost predicate Valid()
      reads this
    {
      Tracks(limit, window, attempts, log)
    }

    constructor (limit: int, window: real)
      ensures Valid() && log == [] && this.limit == limit && this.window == window
    {
      this.limit, this.window, attempts, log := limit, window, map[], [];
    }

    static method PruneFront(start: seq<real>, cutoff: real) returns (deque: seq<real>)
      ensures deque == Prune(start, cutoff)
    {
      deque := start;
      while deque != [] && deque[0] < cutoff
        invariant Prune(deque, cutoff) == Prune(start, cutoff)
        decreases |deque|
      {
        deque := deque[1..];
      }
    }

    method Allow(key: string, now: real) returns (ok: bool)
      requires Valid()
      modifies this
      ensures Valid() && log == old(log) + [Attempt(key, now)]
      ensures ok == (|Prune(Deque(limit, window, old(log), key), now - window)| < limit)
      ensures NonDecreasing(log, key) ==>
        ok == (|Recent(Admissions(limit, window, old(log), key), now - window)| < limit)
    {
      var deque := PruneFront(DequeOf(attempts, key), now - window);
      assert DequeOf(attempts, key) == Deque(limit, window, log, key);
      ok := |deque| < limit;
      if ok {
        deque := deque + [now];
      }
      var next := attempts[key := deque];
      TrackAttempt(limit, window, attempts, log, key, now, next);
      AnswerIsCount(limit, window, log, key, now);
      attempts, log := next, log + [Attempt(key, now)];
    }

    method Clear(key: string)
      requires Valid()
      modifies this
      ensures Valid() && log == old(log) + [Event.Clear(key)]
    {
      TrackEvent(limit, window, attempts, log, Event.Clear(key), attempts - {key});
      attempts := attempts - {key};
      log := log + [Event.Clear(key)];
    }
  }
}
