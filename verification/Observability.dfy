/**
 Paging of wake events and the dashboard's hourly series
 (app/application/observability_service.py, wake_events and dashboard).
 */
module Observability {

  // ------------------------------------------------------------------ pages

  function Min(a: int, b: int): int {
    if a < b then a else b
  }

  /** OFFSET (page - 1) * size LIMIT size. */
  function Page<T>(rows: seq<T>, page: nat, size: nat): seq<T>
    requires page >= 1 && size >= 1
  {
    var from := Min((page - 1) * size, |rows|);
    rows[from..Min(from + size, |rows|)]
  }

  function Pages(total: nat, size: nat): nat
    requires size >= 1
  {
    var n := (total + size - 1) / size;
    if n > 1 then n else 1
  }

  function Concat<T>(rows: seq<T>, size: nat, pages: nat): seq<T>
    requires size >= 1
  {
    if pages == 0 then [] else Concat(rows, size, pages - 1) + Page(rows, pages, size)
  }

  lemma {:induction false} FirstPages<T>(rows: seq<T>, size: nat, pages: nat)
    requires size >= 1
    ensures Concat(rows, size, pages) == rows[..Min(pages * size, |rows|)]
  {
    if pages > 0 {
      FirstPages(rows, size, pages - 1);
      assert pages * size == (pages - 1) * size + size;
    }
  }

  lemma PagesReachEnd(total: nat, size: nat)
    requires size >= 1
    ensures Pages(total, size) * size >= total
    ensures total > 0 ==> (Pages(total, size) - 1) * size < total
  {
    var n := (total + size - 1) / size;
    var r := (total + size - 1) % size;
    assert n * size + r == total + size - 1;
    assert (n - 1) * size == n * size - size;
    if n <= 1 {
      assert n == 0 ==> n * size == 0;
      assert n == 1 ==> n * size == size;
    }
  }

  /** The reported pages, put together, are all rows in order: none lost, none twice. */
  lemma PagesPartitionRows<T>(rows: seq<T>, size: nat)
    requires size >= 1
    ensures Concat(rows, size, Pages(|rows|, size)) == rows
  {
    PagesReachEnd(|rows|, size);
    FirstPages(rows, size, Pages(|rows|, size));
  }

  /** The page count is exact: the last page of a non-empty table has rows, a later one has none. */
  lemma PageCountIsExact<T>(rows: seq<T>, size: nat, page: nat)
    requires size >= 1 && page >= 1
    ensures rows != [] ==> (Page(rows, page, size) != [] <==> page <= Pages(|rows|, size))
  {
    PagesReachEnd(|rows|, size);
    PageHasRowsIff(rows, page, size);
    var pages := Pages(|rows|, size);
    if page <= pages {
      BeyondEnd(pages - 1, page - 1, size);
    } else {
      BeyondEnd(page - 1, pages, size);
    }
  }

  lemma PageHasRowsIff<T>(rows: seq<T>, page: nat, size: nat)
    requires size >= 1 && page >= 1
    ensures Page(rows, page, size) != [] <==> (page - 1) * size < |rows|
  {
    var from := (page - 1) * size;
    assert from >= 0;
  }

  lemma BeyondEnd(before: nat, pages: nat, size: nat)
    requires before >= pages
    ensures before * size >= pages * size
  {
    assert before * size == pages * size + (before - pages) * size;
  }

  /** Row k of the table stands at place k % size of page k / size + 1, and no page is longer than asked. */
  lemma RowIsOnPage<T>(rows: seq<T>, size: nat, k: nat)
    requires size >= 1 && k < |rows|
    ensures k % size < |Page(rows, k / size + 1, size)| <= size
    ensures Page(rows, k / size + 1, size)[k % size] == rows[k]
  {
    assert k / size * size + k % size == k;
  }

  // -------------------------------------------------------------- dashboard

  const HOUR: nat := 3600

  datatype Event = Event(at: int, code: string)

  datatype Bucket = Bucket(start: int, success: nat, rateLimited: nat, failed: int, total: nat)

  predicate During(e: Event, from: int, to: int) {
    from <= e.at < to
  }

  /** Events with the given code between two instants. */
  function CountCode(events: seq<Event>, from: int, to: int, code: string): nat {
    if events == [] then 0
    else CountCode(events[1..], from, to, code) + if During(events[0], from, to) && events[0].code == code then 1 else 0
  }

  function CountAll(events: seq<Event>, from: int, to: int): nat {
    if events == [] then 0
    else CountAll(events[1..], from, to) + if During(events[0], from, to) then 1 else 0
  }

  /** The dashboard's total: it has no upper bound. */
  function CountSince(events: seq<Event>, from: int): nat {
    if events == [] then 0
    else CountSince(events[1..], from) + if from <= events[0].at then 1 else 0
  }

  function BucketAt(events: seq<Event>, from: int): Bucket {
    var total := CountAll(events, from, from + HOUR);
    var success := CountCode(events, from, from + HOUR, "success");
    var limited := CountCode(events, from, from + HOUR, "rate_limited");
    Bucket(from, success, limited, total - success - limited, total)
  }

  function SumTotals(series: seq<Bucket>): nat {
    if series == [] then 0 else SumTotals(series[..|series| - 1]) + series[|series| - 1].total
  }

  method Series(events: seq<Event>, start: int, hours: nat) returns (series: seq<Bucket>)
    ensures |series| == hours
    ensures forall i :: 0 <= i < hours ==> series[i] == BucketAt(events, start + i * HOUR)
    ensures SumTotals(series) == CountAll(events, start, start + hours * HOUR)
  {
    series := [];
    NothingBetween(events, start);
    for index := 0 to hours
      invariant |series| == index
      invariant forall i :: 0 <= i < index ==> series[i] == BucketAt(events, start + i * HOUR)
      invariant SumTotals(series) == CountAll(events, start, start + index * HOUR)
    {
      var from := start + index * HOUR;
      ghost var before := series;
      series := series + [BucketAt(events, from)];
      assert series[..index] == before;
      Adjacent(events, start, from, from + HOUR);
    }
  }

  lemma {:induction false} NothingBetween(events: seq<Event>, at: int)
    ensures CountAll(events, at, at) == 0
  {
    if events != [] {
      NothingBetween(events[1..], at);
    }
  }

  lemma {:induction false} Adjacent(events: seq<Event>, a: int, b: int, c: int)
    requires a <= b <= c
    ensures CountAll(events, a, c) == CountAll(events, a, b) + CountAll(events, b, c)
  {
    if events != [] {
      Adjacent(events[1..], a, b, c);
    }
  }

  /** The events of one hour that a predicate picks. */
  function Picked(events: seq<Event>, from: int, pick: string -> bool): seq<Event> {
    if events == [] then []
    else
      (if from <= events[0].at < from + 3600 && pick(events[0].code) then [events[0]] else [])
      + Picked(events[1..], from, pick)
  }

  /** A bucket counts its hour: successes, rate-limited, all others as failures (so never negative), and all. */
  lemma {:induction false} BucketCountsItsHour(events: seq<Event>, from: int)
    ensures var bucket := BucketAt(events, from);
      && bucket.start == from
      && bucket.success == |Picked(events, from, code => code == "success")|
      && bucket.rateLimited == |Picked(events, from, code => code == "rate_limited")|
      && bucket.failed == |Picked(events, from, code => code != "success" && code != "rate_limited")|
      && bucket.total == |Picked(events, from, code => true)|
  {
    if events != [] {
      BucketCountsItsHour(events[1..], from);
    }
  }

  /** The hourly series adds up to the total exactly when no event lies at or after the end instant. */
  lemma {:induction false} SeriesMatchesTotalIff(events: seq<Event>, start: int, hours: nat)
    ensures CountAll(events, start, start + hours * HOUR) <= CountSince(events, start)
    ensures CountAll(events, start, start + hours * HOUR) == CountSince(events, start)
       <==> forall i :: 0 <= i < |events| ==> events[i].at < start + hours * HOUR
  {
    if events != [] {
      SeriesMatchesTotalIff(events[1..], start, hours);
      assert forall i :: 1 <= i < |events| ==> events[i] == events[1..][i - 1];
    }
  }

  /** One event at the end instant is in the total and in no bucket. */
  lemma EventAtEndIsInNoBucket(start: int, hours: nat, code: string)
    ensures var events := [Event(start + hours * HOUR, code)];
      CountAll(events, start, start + hours * HOUR) == 0 && CountSince(events, start) == 1
  {
    assert [Event(start + hours * HOUR, code)][1..] == [];
  }
}
