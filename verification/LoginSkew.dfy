/**
 The login limiter with readings that go back. The clock is read before the lock is taken
 (app/web/auth_routes.py, allow), so attempts may reach the deque out of order: here by at most
 `skew` seconds. What the limiter then caps, and that it caps no more.
 */
module LoginSkew {
  import opened LoginLimit

  /** No attempt of `key` has a reading more than `skew` before an earlier one. */
  ghost predicate Skewed(events: seq<Event>, key: string, skew: real) {
    forall i, j :: 0 <= i < j < |events| && IsAttempt(events[i], key) && IsAttempt(events[j], key) ==>
      events[j].at >= events[i].at - skew
  }

  ghost predicate CappedFor(limit: int, window: real, events: seq<Event>, key: string, from: real, span: real) {
    InWindow(LetThrough(limit, window, events, key), from, from + span) <= if limit > 0 then limit else 0
  }

  /** In no run do more than `limit` attempts get through within `span` seconds without a clear. */
  ghost predicate Caps(limit: int, window: real, skew: real, span: real) {
    forall events, key, from :: Skewed(events, key, skew) ==> CappedFor(limit, window, events, key, from, span)
  }

  // ------------------------------------------------------------------ the cap

  lemma {:induction false} InWindowAppend(a: seq<real>, t: real, from: real, to: real)
    ensures InWindow(a + [t], from, to) == InWindow(a, from, to) + if from <= t <= to then 1 else 0
  {
    assert (a + [t])[..|a|] == a;
  }

  lemma {:induction false} InWindowTail(a: seq<real>, from: real, to: real)
    requires a != []
    ensures InWindow(a, from, to) == InWindow(a[1..], from, to) + if from <= a[0] <= to then 1 else 0
  {
    if |a| == 1 {
      assert a[1..] == [] && a[..0] == [];
    } else {
      InWindowTail(a[..|a| - 1], from, to);
      assert a[..|a| - 1][1..] == a[1..][..|a| - 2];
    }
  }

  lemma {:induction false} InWindowBound(a: seq<real>, from: real, to: real)
    ensures InWindow(a, from, to) <= |a|
  {
    if a != [] {
      InWindowBound(a[..|a| - 1], from, to);
    }
  }

  /** Pruning before the window takes nothing of it. */
  lemma {:induction false} PruneOutside(deque: seq<real>, cutoff: real, from: real, to: real)
    requires cutoff <= from
    ensures InWindow(Prune(deque, cutoff), from, to) == InWindow(deque, from, to)
    decreases |deque|
  {
    if deque != [] && deque[0] < cutoff {
      InWindowTail(deque, from, to);
      PruneOutside(deque[1..], cutoff, from, to);
    }
  }

  /** One attempt adds alike to the deque and to what was let through. */
  lemma AttemptInWindow(limit: int, window: real, deque: seq<real>, through: seq<real>, at: real, from: real, to: real)
    requires InWindow(through, from, to) == InWindow(deque, from, to) && at - window <= from
    ensures InWindow(through + if |Prune(deque, at - window)| < limit then [at] else [], from, to)
         == InWindow(AfterAttempt(limit, window, deque, at), from, to)
  {
    var pruned := Prune(deque, at - window);
    PruneOutside(deque, at - window, from, to);
    if |pruned| < limit {
      BothAppend(pruned, through, at, from, to);
    } else {
      assert through + [] == through;
    }
  }

  lemma BothAppend(a: seq<real>, b: seq<real>, t: real, from: real, to: real)
    requires InWindow(a, from, to) == InWindow(b, from, to)
    ensures InWindow(a + [t], from, to) == InWindow(b + [t], from, to)
  {
    InWindowAppend(a, t, from, to);
    InWindowAppend(b, t, from, to);
  }

  /** A window that starts no more than `window` before the latest reading is still in the deque. */
  lemma {:induction false} DequeHoldsWindow(limit: int, window: real, events: seq<Event>, key: string, latest: real,
                                            from: real, to: real)
    requires NotAfter(events, key, latest) && latest - window <= from
    ensures InWindow(LetThrough(limit, window, events, key), from, to)
         == InWindow(Deque(limit, window, events, key), from, to)
  {
    if events != [] {
      var front, last := events[..|events| - 1], events[|events| - 1];
      DequeHoldsWindow(limit, window, front, key, latest, from, to);
      if IsAttempt(last, key) {
        assert events == front + [Attempt(key, last.at)];
        OneMore(limit, window, front, key, last.at);
        AttemptInWindow(limit, window, Deque(limit, window, front, key), LetThrough(limit, window, front, key),
                        last.at, from, to);
      }
    }
  }

  /** Readings that go back by at most `skew`: the cap holds for spans shorter than the window by the skew. */
  lemma {:induction false} SkewedIsCapped(limit: int, window: real, events: seq<Event>, key: string, from: real,
                                          skew: real, span: real)
    requires skew >= 0.0 && Skewed(events, key, skew) && span <= window - skew
    ensures CappedFor(limit, window, events, key, from, span)
  {
    if events != [] {
      var front, last := events[..|events| - 1], events[|events| - 1];
      SkewedIsCapped(limit, window, front, key, from, skew, span);
      if IsAttempt(last, key) {
        var deque := Deque(limit, window, front, key);
        InWindowAppend(LetThrough(limit, window, front, key), last.at, from, from + span);
        if from <= last.at <= from + span {
          assert NotAfter(front, key, last.at + skew);
          DequeHoldsWindow(limit, window, front, key, last.at + skew, from, from + span);
          PruneOutside(deque, last.at - window, from, from + span);
          InWindowBound(Prune(deque, last.at - window), from, from + span);
        }
      }
    }
  }

  /** A limit of one: the deque is the last attempt let through, and each came after the window of the one before. */
  ghost predicate Apart(times: seq<real>, window: real) {
    |times| <= 1 || (times[|times| - 1] > times[|times| - 2] + window && Apart(times[..|times| - 1], window))
  }

  lemma {:induction false} OneAtATime(window: real, events: seq<Event>, key: string)
    ensures var through := LetThrough(1, window, events, key);
      Apart(through, window) && Deque(1, window, events, key) == if through == [] then [] else [through[|through| - 1]]
  {
    if events != [] {
      var front, last := events[..|events| - 1], events[|events| - 1];
      OneAtATime(window, front, key);
      var before := LetThrough(1, window, front, key);
      if IsAttempt(last, key) {
        var deque := Deque(1, window, front, key);
        assert deque != [] ==> deque[1..] == [];
        assert Prune(deque, last.at - window) == if deque != [] && deque[0] < last.at - window then [] else deque;
        assert (before + [last.at])[..|before|] == before;
      }
    }
  }

  lemma {:induction false} NothingLeft(times: seq<real>, window: real, from: real, to: real)
    requires Apart(times, window) && window >= 0.0 && (times != [] ==> times[|times| - 1] < from)
    ensures InWindow(times, from, to) == 0
  {
    if times != [] {
      NothingLeft(times[..|times| - 1], window, from, to);
    }
  }

  lemma {:induction false} ApartIsCapped(times: seq<real>, window: real, from: real, span: real)
    requires Apart(times, window) && 0.0 <= span <= window
    ensures InWindow(times, from, from + span) <= 1
  {
    if times != [] {
      var front, last := times[..|times| - 1], times[|times| - 1];
      if from <= last <= from + span {
        NothingLeft(front, window, from, from + span);
      } else {
        ApartIsCapped(front, window, from, span);
      }
    }
  }

  lemma {:induction false} NothingThrough(limit: int, window: real, events: seq<Event>, key: string)
    requires limit <= 0
    ensures LetThrough(limit, window, events, key) == []
  {
    if events != [] {
      NothingThrough(limit, window, events[..|events| - 1], key);
    }
  }

  // -------------------------------------------------------------- no more than it

  function Zeros(n: nat): seq<real> {
    if n == 0 then [] else Zeros(n - 1) + [0.0]
  }

  function Burst(n: nat): seq<Event> {
    if n == 0 then [] else Burst(n - 1) + [Attempt("k", 0.0)]
  }

  ghost predicate AllZero(times: seq<real>) {
    forall i :: 0 <= i < |times| ==> times[i] == 0.0
  }

  lemma {:induction false} PruneIsSuffix(deque: seq<real>, cutoff: real)
    ensures |Prune(deque, cutoff)| <= |deque|
    ensures AllZero(deque) ==> AllZero(Prune(deque, cutoff)) && (cutoff > 0.0 ==> Prune(deque, cutoff) == [])
    decreases |deque|
  {
    if deque != [] {
      PruneIsSuffix(deque[1..], cutoff);
    }
  }

  lemma ZeroGetsThrough(limit: int, window: real, deque: seq<real>)
    requires AllZero(deque) && |deque| < limit
    ensures |Prune(deque, 0.0 - window)| < limit
    ensures AllZero(AfterAttempt(limit, window, deque, 0.0)) && |AfterAttempt(limit, window, deque, 0.0)| <= |deque| + 1
  {
    PruneIsSuffix(deque, 0.0 - window);
  }

  ghost predicate AllThrough(limit: int, window: real, events: seq<Event>, n: nat) {
    && LetThrough(limit, window, events, "k") == Zeros(n)
    && AllZero(Deque(limit, window, events, "k")) && |Deque(limit, window, events, "k")| <= n
  }

  lemma OneMoreThrough(limit: int, window: real, events: seq<Event>, n: nat)
    requires n < limit && AllThrough(limit, window, events, n)
    ensures AllThrough(limit, window, events + [Attempt("k", 0.0)], n + 1)
  {
    ZeroGetsThrough(limit, window, Deque(limit, window, events, "k"));
    OneMore(limit, window, events, "k", 0.0);
  }

  /** As many attempts at time zero as the limit allows all get through. */
  lemma {:induction false} BurstGetsThrough(limit: int, window: real, n: nat)
    requires n <= limit
    ensures AllThrough(limit, window, Burst(n), n)
  {
    if n > 0 {
      BurstGetsThrough(limit, window, n - 1);
      OneMoreThrough(limit, window, Burst(n - 1), n - 1);
    }
  }

  lemma {:induction false} ZerosCounted(n: nat, to: real)
    requires to >= 0.0
    ensures InWindow(Zeros(n), 0.0, to) == n
  {
    if n > 0 {
      ZerosCounted(n - 1, to);
      InWindowAppend(Zeros(n - 1), 0.0, 0.0, to);
    }
  }

  lemma {:induction false} BurstIsAtZero(n: nat)
    ensures |Burst(n)| == n && forall i :: 0 <= i < n ==> Burst(n)[i] == Attempt("k", 0.0)
  {
    if n > 0 {
      BurstIsAtZero(n - 1);
    }
  }

  /** A burst, then one attempt after the window: it empties the deque and gets through. */
  lemma AfterBurst(limit: int, window: real, at: real)
    requires limit >= 1 && at > window && at >= 0.0
    ensures var events := Burst(limit) + [Attempt("k", at)];
      LetThrough(limit, window, events, "k") == Zeros(limit) + [at] && Deque(limit, window, events, "k") == [at]
  {
    BurstGetsThrough(limit, window, limit);
    PruneIsSuffix(Deque(limit, window, Burst(limit), "k"), at - window);
    OneMore(limit, window, Burst(limit), "k", at);
  }

  /** A span longer than the window holds one attempt too many, with no reading going back. */
  lemma LongSpanExceeds(limit: int, window: real, skew: real, span: real) returns (events: seq<Event>)
    requires limit >= 1 && skew >= 0.0 && span >= 0.0 && span > window
    ensures Skewed(events, "k", skew) && !CappedFor(limit, window, events, "k", 0.0, span)
  {
    events := Burst(limit) + [Attempt("k", span)];
    BurstIsAtZero(limit);
    AfterBurst(limit, window, span);
    ZerosCounted(limit, span);
    InWindowAppend(Zeros(limit), span, 0.0, span);
  }

  /** One reading ahead by the skew empties the deque; the next one is back inside the span. */
  lemma SkewExceeds(limit: int, window: real, skew: real, span: real) returns (events: seq<Event>)
    requires limit >= 2 && skew >= 0.0 && 0.0 <= span <= window && span > window - skew
    ensures Skewed(events, "k", skew) && !CappedFor(limit, window, events, "k", 0.0, span)
  {
    var ahead := Burst(limit) + [Attempt("k", span + skew)];
    events := ahead + [Attempt("k", span)];
    BurstIsAtZero(limit);
    AfterBurst(limit, window, span + skew);
    OneMore(limit, window, ahead, "k", span);
    ZerosCounted(limit, span);
    InWindowAppend(Zeros(limit), span + skew, 0.0, span);
    InWindowAppend(Zeros(limit) + [span + skew], span, 0.0, span);
  }

  /**
   Exactly what the limiter caps. With readings that go back by at most `skew`, no `span` seconds
   see more than `limit` attempts let through if and only if the span is shorter than the window by
   the skew; a limit of one is not affected by skew, and a limit of none lets nothing through.
   */
  lemma CapsIff(limit: int, window: real, skew: real, span: real)
    requires skew >= 0.0 && span >= 0.0
    ensures Caps(limit, window, skew, span)
       <==> limit <= 0 || span <= window - skew || (limit == 1 && span <= window)
  {
    if limit <= 0 || span <= window - skew || (limit == 1 && span <= window) {
      forall events, key, from | Skewed(events, key, skew)
        ensures CappedFor(limit, window, events, key, from, span)
      {
        CappedWhen(limit, window, skew, span, events, key, from);
      }
    } else {
      var events: seq<Event>;
      if span > window {
        events := LongSpanExceeds(limit, window, skew, span);
      } else {
        events := SkewExceeds(limit, window, skew, span);
      }
    }
  }

  lemma CappedWhen(limit: int, window: real, skew: real, span: real, events: seq<Event>, key: string, from: real)
    requires skew >= 0.0 && span >= 0.0 && Skewed(events, key, skew)
    requires limit <= 0 || span <= window - skew || (limit == 1 && span <= window)
    ensures CappedFor(limit, window, events, key, from, span)
  {
    if limit <= 0 {
      NothingThrough(limit, window, events, key);
    } else if span <= window - skew {
      SkewedIsCapped(limit, window, events, key, from, skew, span);
    } else {
      OneAtATime(window, events, key);
      ApartIsCapped(LetThrough(1, window, events, key), window, from, span);
    }
  }
}
