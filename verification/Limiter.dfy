/** The rate limiter: one counter per key, reopened when its window has passed. */
module Limiter {
  import opened Base

  type Time = int

  const DAY: Time := 86400

  datatype Row = Row(count: nat, reset: Time)

  /** The upsert: a call opens a window or is counted in the open one, allowed or not. */
  function Counted(row: Option<Row>, t: Time, window: nat): Row {
    if row.None? || row.value.reset <= t then Row(1, t + window)
    else Row(row.value.count + 1, row.value.reset)
  }

  predicate Purged(row: Row, t: Time) {
    row.reset < t - DAY
  }

  class Limits {
    var rows: map<string, Row>
    var accepting: bool   // whether the database will accept the next commit

    constructor (accepting: bool)
      ensures rows == map[] && this.accepting == accepting
    {
      rows, this.accepting := map[], accepting;
    }

    /** An answer of true refuses the caller; it is also the answer when the count could not be kept. */
    method Limited(key: string, max: int, window: nat, t: Time) returns (limited: bool)
      modifies this`rows
      ensures var row := Counted(if key in old(rows) then Some(old(rows)[key]) else None, t, window);
        && limited == !(accepting && row.count <= max)
        && rows == if accepting then old(rows)[key := row] else old(rows)
    {
      var row := Row(1, t + window);
      if key in rows {
        var was := rows[key];
        row := Row(if was.reset <= t then 1 else was.count + 1, if was.reset <= t then t + window else was.reset);
      }
      if !accepting {
        return true;
      }
      rows := rows[key := row];
      limited := !(row.count <= max);
    }

    /** Part of the reconciliation. */
    method Purge(t: Time)
      modifies this`rows
      ensures rows == map key | key in old(rows) && old(rows)[key].reset >= t - 86400 :: old(rows)[key]
    {
      rows := map key | key in rows && !Purged(rows[key], t) :: rows[key];
    }
  }

  // ---- one key over time -----------------------------------------------

  ghost predicate InOrder(times: seq<Time>) {
    forall i, j :: 0 <= i < j < |times| ==> times[i] <= times[j]
  }

  /** The key's row after these calls. */
  function After(times: seq<Time>, window: nat): Option<Row> {
    if times == [] then None else Some(Counted(After(times[..|times| - 1], window), times[|times| - 1], window))
  }

  /** Whether the last of these calls is allowed. */
  predicate Allowed(times: seq<Time>, max: nat, window: nat)
    requires times != []
  {
    Counted(After(times[..|times| - 1], window), times[|times| - 1], window).count <= max
  }

  /** How many of the calls made at `lo <= t < hi` are allowed. */
  function AllowedIn(times: seq<Time>, max: nat, window: nat, lo: Time, hi: Time): nat {
    if times == [] then 0
    else
      AllowedIn(times[..|times| - 1], max, window, lo, hi)
      + if lo <= times[|times| - 1] < hi && Allowed(times, max, window) then 1 else 0
  }

  /** The call that opened the current window. */
  function Opened(times: seq<Time>, window: nat): nat {
    if times == [] then 0
    else
      var before := After(times[..|times| - 1], window);
      if before.None? || before.value.reset <= times[|times| - 1] then |times| - 1
      else Opened(times[..|times| - 1], window)
  }

  /** How many calls from the `from`-th on are allowed. */
  function AllowedFrom(times: seq<Time>, max: nat, window: nat, from: nat): nat {
    if |times| <= from then 0
    else AllowedFrom(times[..|times| - 1], max, window, from) + if Allowed(times, max, window) then 1 else 0
  }

  /** Of the calls in one window exactly the first `max` are allowed. */
  lemma {:induction false} WindowBound(times: seq<Time>, max: nat, window: nat)
    requires times != []
    ensures Opened(times, window) < |times|
    ensures After(times, window).value.count == |times| - Opened(times, window)
    ensures AllowedFrom(times, max, window, Opened(times, window)) == Min(|times| - Opened(times, window), max)
  {
    var front := times[..|times| - 1];
    if front != [] {
      WindowBound(front, max, window);
    }
    assert AllowedFrom(front, max, window, |times| - 1) == 0;
  }

  /** A window lasts exactly its length from the call that opened it: a call before its end is counted
      with those since, one at its end or later opens the next. */
  lemma {:induction false} WindowsExactly(times: seq<Time>, window: nat, t: Time)
    requires times != []
    ensures Opened(times, window) < |times|
    ensures After(times, window).value.reset == times[Opened(times, window)] + window
    ensures Counted(After(times, window), t, window).count ==
      if t >= times[Opened(times, window)] + window then 1 else |times| - Opened(times, window) + 1
  {
    WindowBound(times, 0, window);
    var front := times[..|times| - 1];
    if front != [] {
      WindowsExactly(front, window, t);
    }
  }

  /** What is known of an interval of one window's length, given the window now open. */
  ghost predicate Bounded(times: seq<Time>, max: nat, window: nat, lo: Time) {
    var n, row := AllowedIn(times, max, window, lo, lo + window), After(times, window);
    if times == [] || max == 0 then n == 0
    else
      && (times[|times| - 1] < lo ==> n == 0)
      && times[|times| - 1] >= row.value.reset - window
      && row.value.count >= 1
      && if row.value.reset - window < lo then n <= Min(row.value.count, max) - 1
         else if row.value.reset - window < lo + window then n <= max - 1 + Min(row.value.count, max)
         else n <= 2 * max - 1
  }

  lemma BoundedNext(times: seq<Time>, max: nat, window: nat, lo: Time)
    requires times != [] && InOrder(times) && Bounded(times[..|times| - 1], max, window, lo)
    ensures Bounded(times, max, window, lo)
  {
  }

  lemma {:induction false} AlwaysBounded(times: seq<Time>, max: nat, window: nat, lo: Time)
    requires InOrder(times)
    ensures Bounded(times, max, window, lo)
  {
    if times != [] {
      AlwaysBounded(times[..|times| - 1], max, window, lo);
      BoundedNext(times, max, window, lo);
    }
  }

  /** In any half-open interval as long as a window fewer than `2 * max` calls are allowed: it
      meets two windows at most, and then the call that opened the first lies before it. */
  lemma IntervalBound(times: seq<Time>, max: nat, window: nat, lo: Time)
    requires InOrder(times)
    ensures AllowedIn(times, max, window, lo, lo + window) <= if max == 0 then 0 else 2 * max - 1
  {
    AlwaysBounded(times, max, window, lo);
  }

  /** That bound is met: with two calls a window of ten, three of these fall within ten. */
  lemma IntervalBoundIsMet()
    ensures InOrder([0, 9, 10, 11]) && AllowedIn([0, 9, 10, 11], 2, 10, 9, 19) == 3
  {
    var times := [0, 9, 10, 11];
    assert times[..3] == [0, 9, 10] && times[..3][..2] == [0, 9] && times[..3][..2][..1] == [0];
    assert After([0], 10) == Some(Row(1, 10)) by { assert [0][..0] == []; }
    assert After([0, 9], 10) == Some(Row(2, 10)) by { assert [0, 9][..1] == [0]; }
    assert After([0, 9, 10], 10) == Some(Row(1, 20)) by { assert [0, 9, 10][..2] == [0, 9]; }
    assert AllowedIn([0], 2, 10, 9, 19) == 0;
    assert AllowedIn([0, 9], 2, 10, 9, 19) == 1;
    assert AllowedIn([0, 9, 10], 2, 10, 9, 19) == 2;
  }

  // ---- purging ---------------------------------------------------------

  datatype Event = Call(t: Time) | Purge(t: Time)

  ghost predicate EventsInOrder(events: seq<Event>) {
    forall i, j :: 0 <= i < j < |events| ==> events[i].t <= events[j].t
  }

  /** The key's row after calls and purges. */
  function Kept(events: seq<Event>, window: nat): Option<Row> {
    if events == [] then None
    else
      var before := Kept(events[..|events| - 1], window);
      match events[|events| - 1]
      case Call(t) => Some(Counted(before, t, window))
      case Purge(t) => if before.Some? && Purged(before.value, t) then None else before
  }

  function Calls(events: seq<Event>): seq<Time> {
    if events == [] then []
    else Calls(events[..|events| - 1]) + if events[|events| - 1].Call? then [events[|events| - 1].t] else []
  }

  /** Purging only forgets rows whose window has passed. */
  lemma {:induction false} PurgeForgets(events: seq<Event>, window: nat)
    requires EventsInOrder(events)
    ensures var kept, all := Kept(events, window), After(Calls(events), window);
      kept == all || (kept.None? && all.Some? && events != [] && all.value.reset <= events[|events| - 1].t)
  {
    if events != [] {
      var front := events[..|events| - 1];
      PurgeForgets(front, window);
      assert front != [] ==> front[|front| - 1].t <= events[|events| - 1].t;
      if events[|events| - 1].Call? {
        assert Calls(events)[..|Calls(events)| - 1] == Calls(front);
      } else {
        assert Calls(events) == Calls(front);
      }
    }
  }

  /** Purging is unobservable: the next call is answered as if no row had ever been deleted. */
  lemma PurgeUnobservable(events: seq<Event>, max: nat, window: nat, t: Time)
    requires EventsInOrder(events + [Call(t)])
    ensures (Counted(Kept(events, window), t, window).count <= max) == Allowed(Calls(events) + [t], max, window)
  {
    var more := events + [Call(t)];
    assert forall i :: 0 <= i < |events| ==> events[i] == more[i];
    assert EventsInOrder(events);
    PurgeForgets(events, window);
    assert (Calls(events) + [t])[..|Calls(events)|] == Calls(events);
    if events != [] {
      assert more[|events| - 1].t <= more[|events|].t;
    }
  }
}
