/**
 The wake rate limiter (app/rate_limit.py): one remembered reading per port and MAC, against
 definitions over the whole history of requests.
 */
module RateLimit {
  import opened Basics

  type Key = (int, string)

  datatype Request = Request(key: Key, at: real)

  // ------------------------------------------------------ the history view

  predicate Permits(interval: real, previous: Option<real>, now: real) {
    previous.None? || now - previous.value >= interval
  }

  /** What the limiter remembers for `key` after `requests`. */
  function LastAllowed(interval: real, requests: seq<Request>, key: Key): Option<real> {
    if requests == [] then None
    else
      var r := requests[|requests| - 1];
      var previous := LastAllowed(interval, requests[..|requests| - 1], key);
      if r.key == key && Permits(interval, previous, r.at) then Some(r.at) else previous
  }

  /** Request i of the history was let through. */
  predicate Admitted(interval: real, requests: seq<Request>, i: nat)
    requires i < |requests|
  {
    Permits(interval, LastAllowed(interval, requests[..i], requests[i].key), requests[i].at)
  }

  /** The admitted requests of `key` among the first n. */
  ghost function AdmittedOf(interval: real, requests: seq<Request>, key: Key, n: nat): set<nat>
    requires n <= |requests|
  {
    set i: nat | i < n && requests[i].key == key && Admitted(interval, requests, i)
  }

  ghost function Admissions(interval: real, requests: seq<Request>, key: Key): set<nat> {
    AdmittedOf(interval, requests, key, |requests|)
  }

  lemma RememberStep(interval: real, requests: seq<Request>, key: Key, n: nat)
    requires n < |requests|
    ensures LastAllowed(interval, requests[..n + 1], key)
         == if requests[n].key == key && Admitted(interval, requests, n) then Some(requests[n].at)
            else LastAllowed(interval, requests[..n], key)
  {
    assert requests[..n + 1][..n] == requests[..n];
  }

  lemma AdmittedStep(interval: real, requests: seq<Request>, key: Key, n: nat)
    requires n < |requests|
    ensures AdmittedOf(interval, requests, key, n + 1)
         == AdmittedOf(interval, requests, key, n)
            + if requests[n].key == key && Admitted(interval, requests, n) then {n} else {}
  {
  }

  /** The remembered reading is the reading of an admission and the latest of them. */
  lemma {:induction false} LastAllowedIsLatest(interval: real, requests: seq<Request>, key: Key, n: nat)
    requires interval >= 0.0 && n <= |requests|
    ensures var last, admitted := LastAllowed(interval, requests[..n], key), AdmittedOf(interval, requests, key, n);
      && (last.None? <==> admitted == {})
      && (last.Some? ==> exists i: nat :: i in admitted && requests[i].at == last.value)
      && (forall i: nat :: i in admitted ==> last.Some? && requests[i].at <= last.value)
  {
    if n > 0 {
      LastAllowedIsLatest(interval, requests, key, n - 1);
      RememberStep(interval, requests, key, n - 1);
      AdmittedStep(interval, requests, key, n - 1);
    }
  }

  // ------------------------------------------------------------ properties

  /** For ANY clock readings, two admissions of one key are at least the interval apart. */
  lemma AdmissionsAreSpaced(interval: real, requests: seq<Request>, i: nat, j: nat)
    requires interval >= 0.0 && i < j < |requests| && requests[i].key == requests[j].key
    requires Admitted(interval, requests, i) && Admitted(interval, requests, j)
    ensures requests[j].at - requests[i].at >= interval
  {
    LastAllowedIsLatest(interval, requests, requests[j].key, j);
    assert i in AdmittedOf(interval, requests, requests[j].key, j);
  }

  /**
   Being admitted, said without the limiter's memory: a request passes exactly when every
   earlier admission of its key is at least the interval before it.
   */
  lemma AdmittedIffSpaced(interval: real, requests: seq<Request>, i: nat)
    requires interval >= 0.0 && i < |requests|
    ensures Admitted(interval, requests, i)
       <==> forall j: nat :: j < i && requests[j].key == requests[i].key && Admitted(interval, requests, j)
              ==> requests[i].at - requests[j].at >= interval
  {
    var key := requests[i].key;
    LastAllowedIsLatest(interval, requests, key, i);
    if Admitted(interval, requests, i) {
      forall j: nat | j < i && requests[j].key == key && Admitted(interval, requests, j)
        ensures requests[i].at - requests[j].at >= interval
      {
        AdmissionsAreSpaced(interval, requests, j, i);
      }
    } else {
      var j: nat :| j in AdmittedOf(interval, requests, key, i)
                    && requests[j].at == LastAllowed(interval, requests[..i], key).value;
    }
  }

  function Only(requests: seq<Request>, key: Key): seq<Request> {
    if requests == [] then []
    else
      var r := requests[|requests| - 1];
      Only(requests[..|requests| - 1], key) + if r.key == key then [r] else []
  }

  /** Each key is decided as by a limiter that is fed that key's requests only. */
  lemma {:induction false} KeysAreIndependent(interval: real, requests: seq<Request>, key: Key)
    ensures LastAllowed(interval, requests, key) == LastAllowed(interval, Only(requests, key), key)
    ensures requests != [] && requests[|requests| - 1].key == key ==>
      Only(requests, key) != []
      && Admitted(interval, requests, |requests| - 1)
         == Admitted(interval, Only(requests, key), |Only(requests, key)| - 1)
  {
    if requests != [] {
      var front := requests[..|requests| - 1];
      KeysAreIndependent(interval, front, key);
      if requests[|requests| - 1].key == key {
        var own := Only(requests, key);
        assert own[..|own| - 1] == Only(front, key);
      } else {
        assert Only(requests, key) == Only(front, key);
      }
    }
  }

  // ------------------------------------------------------ how many, at most

  ghost function InSpan(interval: real, requests: seq<Request>, key: Key, from: real, to: real, n: nat): set<nat>
    requires n <= |requests|
  {
    set i: nat | i in AdmittedOf(interval, requests, key, n) && from <= requests[i].at <= to
  }

  function Gaps(n: nat, interval: real): real {
    if n == 0 then 0.0 else Gaps(n - 1, interval) + interval
  }

  /** Admission i of the span is as many intervals after its start as there are others. */
  ghost predicate FarIn(span: set<nat>, requests: seq<Request>, from: real, interval: real, i: nat) {
    span != {} ==> i in span && i < |requests| && requests[i].at - from >= Gaps(|span| - 1, interval)
  }

  lemma {:induction false} SpanHoldsGaps(interval: real, requests: seq<Request>, key: Key, from: real, to: real, n: nat)
    returns (i: nat)
    requires interval >= 0.0 && n <= |requests|
    ensures FarIn(InSpan(interval, requests, key, from, to, n), requests, from, interval, i)
  {
    i := 0;
    if n > 0 {
      var m := n - 1;
      var before := SpanHoldsGaps(interval, requests, key, from, to, m);
      FarInStep(interval, requests, key, from, to, m, before);
      i := if m in InSpan(interval, requests, key, from, to, n) then m else before;
    }
  }

  lemma FarInStep(interval: real, requests: seq<Request>, key: Key, from: real, to: real, m: nat, i: nat)
    requires interval >= 0.0 && m < |requests|
    requires FarIn(InSpan(interval, requests, key, from, to, m), requests, from, interval, i)
    ensures var span := InSpan(interval, requests, key, from, to, m + 1);
      FarIn(span, requests, from, interval, if m in span then m else i)
  {
    var before := InSpan(interval, requests, key, from, to, m);
    SpanStep(interval, requests, key, from, to, m);
    if m in InSpan(interval, requests, key, from, to, m + 1) {
      if before != {} {
        AdmissionsAreSpaced(interval, requests, i, m);
      }
      OneMoreGap(before, m, if before != {} then requests[i].at else from, requests[m].at, from, interval);
    }
  }

  lemma SpanStep(interval: real, requests: seq<Request>, key: Key, from: real, to: real, n: nat)
    requires n < |requests|
    ensures var before := InSpan(interval, requests, key, from, to, n);
      var span := InSpan(interval, requests, key, from, to, n + 1);
      && n !in before && span == (if n in span then before + {n} else before)
      && (n in span ==> requests[n].key == key && Admitted(interval, requests, n) && from <= requests[n].at <= to)
  {
    AdmittedStep(interval, requests, key, n);
  }

  lemma OneMoreGap(before: set<nat>, n: nat, previous: real, at: real, from: real, interval: real)
    requires n !in before && at >= from
    requires before != {} ==> previous - from >= Gaps(|before| - 1, interval) && at - previous >= interval
    ensures at - from >= Gaps(|before + {n}| - 1, interval)
  {
    assert |before + {n}| == |before| + 1;
  }

  lemma {:induction false} GapsFitIn(gaps: nat, length: real, interval: real)
    requires interval > 0.0 && Gaps(gaps, interval) <= length
    ensures gaps as real <= length / interval
  {
    GapsAreProduct(gaps, interval);
    var quotient := length / interval;
    assert quotient * interval == length;
    assert (quotient - gaps as real) * interval >= 0.0;
  }

  lemma {:induction false} GapsAreProduct(n: nat, interval: real)
    ensures Gaps(n, interval) == n as real * interval
  {
    if n > 0 {
      GapsAreProduct(n - 1, interval);
    }
  }

  /** Any span of length L holds at most floor(L / interval) + 1 admissions of a key. */
  lemma AtMostPerSpan(interval: real, requests: seq<Request>, key: Key, from: real, length: real)
    requires interval > 0.0 && length >= 0.0
    ensures |InSpan(interval, requests, key, from, from + length, |requests|)| <= (length / interval).Floor + 1
  {
    var span := InSpan(interval, requests, key, from, from + length, |requests|);
    var _ := SpanHoldsGaps(interval, requests, key, from, from + length, |requests|);
    if span != {} {
      GapsFitIn(|span| - 1, length, interval);
    }
  }

  // ------------------------------------------------------------ optimality

  ghost predicate NonDecreasing(requests: seq<Request>, key: Key) {
    forall i, j :: 0 <= i < j < |requests| && requests[i].key == key && requests[j].key == key ==>
      requests[i].at <= requests[j].at
  }

  /** A choice among the key's first n requests that keeps the interval between any two of them. */
  ghost predicate SpacedChoice(interval: real, requests: seq<Request>, key: Key, choice: set<nat>, n: nat)
    requires n <= |requests|
  {
    && (forall i :: i in choice ==> i < n && requests[i].key == key)
    && (forall i, j :: i in choice && j in choice && i < j ==> requests[j].at - requests[i].at >= interval)
  }

  /** Greedy is ahead: never fewer admissions and, when level, the choice i ends no earlier. */
  ghost predicate Ahead(interval: real, requests: seq<Request>, key: Key, choice: set<nat>, n: nat, i: nat)
    requires n <= |requests|
  {
    && |choice| <= |AdmittedOf(interval, requests, key, n)|
    && (|choice| == |AdmittedOf(interval, requests, key, n)| && choice != {} ==>
          i < n && i in choice && Behind(LastAllowed(interval, requests[..n], key), requests[i].at))
  }

  lemma {:induction false} GreedyStaysAhead(interval: real, requests: seq<Request>, key: Key, choice: set<nat>, n: nat)
    returns (i: nat)
    requires interval >= 0.0 && NonDecreasing(requests, key) && n <= |requests|
    requires SpacedChoice(interval, requests, key, choice, n)
    ensures Ahead(interval, requests, key, choice, n, i)
  {
    i := 0;
    if n == 0 {
      assert choice == {};
    } else {
      var m := n - 1;
      ChoiceShrinks(interval, requests, key, choice, m);
      var before := GreedyStaysAhead(interval, requests, key, choice - {m}, m);
      AheadStep(interval, requests, key, choice, m, before);
      i := if m in choice then m else before;
    }
  }

  lemma ChoiceShrinks(interval: real, requests: seq<Request>, key: Key, choice: set<nat>, m: nat)
    requires m < |requests| && SpacedChoice(interval, requests, key, choice, m + 1)
    ensures SpacedChoice(interval, requests, key, choice - {m}, m)
  {
  }

  lemma AheadStep(interval: real, requests: seq<Request>, key: Key, choice: set<nat>, m: nat, i: nat)
    requires interval >= 0.0 && NonDecreasing(requests, key) && m < |requests|
    requires SpacedChoice(interval, requests, key, choice, m + 1)
    requires Ahead(interval, requests, key, choice - {m}, m, i)
    ensures Ahead(interval, requests, key, choice, m + 1, if m in choice then m else i)
  {
    var rest := choice - {m};
    AdmittedStep(interval, requests, key, m);
    CardsGrow(AdmittedOf(interval, requests, key, m), AdmittedOf(interval, requests, key, m + 1), rest, choice, m);
    if m in choice {
      LevelIsAdmitted(interval, requests, key, m, rest, i);
      LastNotAfter(interval, requests, key, m);
    } else {
      RememberStep(interval, requests, key, m);
    }
  }

  predicate Behind(last: Option<real>, at: real) {
    last.Some? && last.value <= at
  }

  /** When greedy is level with the other choices, it admits the next one too. */
  lemma LevelIsAdmitted(interval: real, requests: seq<Request>, key: Key, m: nat, rest: set<nat>, i: nat)
    requires interval >= 0.0 && m < |requests| && requests[m].key == key
    requires rest != {} && |rest| == |AdmittedOf(interval, requests, key, m)| ==>
      i < m && requests[m].at - requests[i].at >= interval
      && Behind(LastAllowed(interval, requests[..m], key), requests[i].at)
    ensures |rest| == |AdmittedOf(interval, requests, key, m)| ==> Admitted(interval, requests, m)
  {
    LastAllowedIsLatest(interval, requests, key, m);
  }

  lemma CardsGrow(before: set<nat>, admitted: set<nat>, rest: set<nat>, choice: set<nat>, n: nat)
    requires n !in before && n !in rest && admitted in {before, before + {n}} && rest == choice - {n}
    ensures |admitted| == |before| + (if n in admitted then 1 else 0)
    ensures |choice| == |rest| + (if n in choice then 1 else 0)
  {
    assert choice == rest || choice == rest + {n};
  }

  lemma LastNotAfter(interval: real, requests: seq<Request>, key: Key, m: nat)
    requires interval >= 0.0 && NonDecreasing(requests, key)
    requires m < |requests| && requests[m].key == key
    ensures Behind(LastAllowed(interval, requests[..m + 1], key), requests[m].at)
  {
    RememberStep(interval, requests, key, m);
    LastAllowedIsLatest(interval, requests, key, m);
  }

  /**
   The limiter is optimal: for non-decreasing readings no set of the key's requests that keeps
   the interval is larger than the set the limiter admits, which is itself such a set.
   */
  lemma LimiterIsOptimal(interval: real, requests: seq<Request>, key: Key, choice: set<nat>)
    requires interval >= 0.0 && NonDecreasing(requests, key)
    requires SpacedChoice(interval, requests, key, choice, |requests|)
    ensures |choice| <= |Admissions(interval, requests, key)|
    ensures SpacedChoice(interval, requests, key, Admissions(interval, requests, key), |requests|)
  {
    var _ := GreedyStaysAhead(interval, requests, key, choice, |requests|);
    var admitted := Admissions(interval, requests, key);
    forall i, j | i in admitted && j in admitted && i < j ensures requests[j].at - requests[i].at >= interval {
      AdmissionsAreSpaced(interval, requests, i, j);
    }
  }

  // ------------------------------------------------------------ the object

  class RateLimiter {
    const interval: real
    var lastAllowed: map<Key, real>
    ghost var log: seq<Request>

    ghost predicate Valid()
      reads this
    {
      && interval >= 0.0
      && (forall key :: key in lastAllowed <==> LastAllowed(interval, log, key).Some?)
      && (forall key :: key in lastAllowed ==> LastAllowed(interval, log, key) == Some(lastAllowed[key]))
    }

    constructor (interval: real)
      requires interval >= 0.0
      ensures Valid() && log == [] && this.interval == interval
    {
      this.interval, lastAllowed, log := interval, map[], [];
    }

    /** A negative interval is refused. */
    static method Create(interval: real) returns (limiter: RateLimiter?)
      ensures limiter == null <==> interval < 0.0
      ensures limiter != null ==> fresh(limiter) && limiter.Valid() && limiter.log == [] && limiter.interval == interval
    {
      if interval < 0.0 {
        return null;
      }
      limiter := new RateLimiter(interval);
    }

    method Allow(port: int, mac: string, now: real) returns (ok: bool)
      requires Valid()
      modifies this
      ensures Valid() && log == old(log) + [Request((port, mac), now)]
      ensures ok == Admitted(interval, log, |log| - 1)
      ensures forall key :: key != (port, mac) ==>
        (key in lastAllowed <==> key in old(lastAllowed))
        && (key in lastAllowed ==> lastAllowed[key] == old(lastAllowed)[key])
    {
      var key := (port, mac);
      log := log + [Request(key, now)];
      assert log[..|log| - 1] == old(log);
      if key in lastAllowed && now - lastAllowed[key] < interval {
        return false;
      }
      lastAllowed := lastAllowed[key := now];
      return true;
    }
  }
}
