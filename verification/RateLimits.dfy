/** The two auth rate limiters of app.py: the in-memory sliding window and the Redis counter. */
module RateLimits {
  import opened Common
  import opened Hashing

  // ---------- one key, as functions of its full request log ----------

  /** `[t for t in ts if now - t < window]`. */
  function Prune(ts: seq<real>, now: real, window: real): (r: seq<real>)
    ensures |r| <= |ts|
  {
    if ts == [] then []
    else
      var before, last := Prune(ts[..|ts| - 1], now, window), ts[|ts| - 1];
      if now - last < window then before + [last] else before
  }

  /** The list the in-memory limiter stores after the arrivals of one key. */
  function MemoryList(max: int, window: real, arrivals: seq<real>): seq<real> {
    if arrivals == [] then []
    else
      var now := arrivals[|arrivals| - 1];
      var kept := Prune(MemoryList(max, window, arrivals[..|arrivals| - 1]), now, window);
      if |kept| >= max then kept else kept + [now]
  }

  /** Whether the in-memory limiter accepts a request at `now` after these arrivals. */
  predicate MemoryAccepts(max: int, window: real, arrivals: seq<real>, now: real) {
    |Prune(MemoryList(max, window, arrivals), now, window)| < max
  }

  /** The full log of accepted requests. */
  function MemoryLog(max: int, window: real, arrivals: seq<real>): seq<real> {
    if arrivals == [] then []
    else
      var before, now := arrivals[..|arrivals| - 1], arrivals[|arrivals| - 1];
      if MemoryAccepts(max, window, before, now) then MemoryLog(max, window, before) + [now]
      else MemoryLog(max, window, before)
  }

  /** A Redis counter: its value, and when it expires. */
  datatype Counter = Counter(count: int, expireAt: real)

  function Live(c: Option<Counter>, now: real): int {
    if c.Some? && now < c.value.expireAt then c.value.count else 0
  }

  /** INCR, which starts from 0 when the key is absent or expired, then EXPIRE. */
  function Bump(c: Option<Counter>, now: real, window: real): Counter {
    Counter(Live(c, now) + 1, now + window)
  }

  function RedisCounter(window: real, arrivals: seq<real>): Option<Counter> {
    if arrivals == [] then None
    else Some(Bump(RedisCounter(window, arrivals[..|arrivals| - 1]), arrivals[|arrivals| - 1], window))
  }

  predicate RedisAccepts(max: int, window: real, arrivals: seq<real>, now: real) {
    Bump(RedisCounter(window, arrivals), now, window).count <= max
  }

  function RedisLog(max: int, window: real, arrivals: seq<real>): seq<real> {
    if arrivals == [] then []
    else
      var before, now := arrivals[..|arrivals| - 1], arrivals[|arrivals| - 1];
      if RedisAccepts(max, window, before, now) then RedisLog(max, window, before) + [now]
      else RedisLog(max, window, before)
  }

  ghost predicate Nondecreasing(ts: seq<real>) {
    forall i, j :: 0 <= i < j < |ts| ==> ts[i] <= ts[j]
  }

  /** How many of the times lie in the half-open interval from `from` to `to`. */
  function CountIn(ts: seq<real>, from: real, to: real): nat {
    if ts == [] then 0
    else CountIn(ts[..|ts| - 1], from, to) + if from <= ts[|ts| - 1] < to then 1 else 0
  }

  // ---------- the sliding window is exact ----------

  /** Pruning at `a` first changes nothing at `b` if whatever `a` drops, `b` drops. */
  lemma {:induction false} PrunedTwice(ts: seq<real>, a: real, b: real, window: real)
    requires forall k :: 0 <= k < |ts| && a - ts[k] >= window ==> b - ts[k] >= window
    ensures Prune(Prune(ts, a, window), b, window) == Prune(ts, b, window)
  {
    if ts != [] {
      PrunedTwice(ts[..|ts| - 1], a, b, window);
      var before, last := Prune(ts[..|ts| - 1], a, window), ts[|ts| - 1];
      assert (before + [last])[..|before|] == before;
    }
  }

  lemma PruneAppend(ts: seq<real>, t: real, now: real, window: real)
    ensures Prune(ts + [t], now, window) ==
      if now - t < window then Prune(ts, now, window) + [t] else Prune(ts, now, window)
  {
    assert (ts + [t])[..|ts|] == ts;
  }

  /** Nothing that is still in the window at `now` was out of it for an arrival in between. */
  ghost predicate InOrder(window: real, arrivals: seq<real>, now: real) {
    forall i, j :: 0 <= i < j < |arrivals| && arrivals[j] - arrivals[i] >= window ==> now - arrivals[i] >= window
  }

  /** A clock read under the lock would give this. */
  lemma SortedIsInOrder(window: real, arrivals: seq<real>, now: real)
    requires Nondecreasing(arrivals) && (arrivals != [] ==> arrivals[|arrivals| - 1] <= now)
    ensures InOrder(window, arrivals, now)
  {
  }

  lemma {:induction false} PruneKeepsMembers(ts: seq<real>, now: real, window: real)
    ensures forall t :: t in Prune(ts, now, window) ==> t in ts
  {
    if ts != [] {
      PruneKeepsMembers(ts[..|ts| - 1], now, window);
    }
  }

  lemma {:induction false} ListHoldsArrivals(max: int, window: real, arrivals: seq<real>)
    ensures forall t :: t in MemoryList(max, window, arrivals) ==> t in arrivals
  {
    if arrivals != [] {
      var before := arrivals[..|arrivals| - 1];
      ListHoldsArrivals(max, window, before);
      PruneKeepsMembers(MemoryList(max, window, before), arrivals[|arrivals| - 1], window);
    }
  }

  /** What the stored list counts at `now` is what the full log of acceptances counts. */
  predicate ListCounts(max: int, window: real, arrivals: seq<real>, now: real) {
    Prune(MemoryList(max, window, arrivals), now, window) == Prune(MemoryLog(max, window, arrivals), now, window)
  }

  /** What the list still counts at `now` is what the full log of acceptances counts. */
  lemma {:induction false} ListCountsTheLog(max: int, window: real, arrivals: seq<real>, now: real)
    requires InOrder(window, arrivals, now)
    ensures ListCounts(max, window, arrivals, now)
  {
    if arrivals != [] {
      var before, last := arrivals[..|arrivals| - 1], arrivals[|arrivals| - 1];
      var list, log := MemoryList(max, window, before), MemoryLog(max, window, before);
      ListCountsTheLog(max, window, before, now);
      ListHoldsArrivals(max, window, before);
      forall k | 0 <= k < |list| && last - list[k] >= window
        ensures now - list[k] >= window
      {
        assert list[k] in before;
      }
      PrunedTwice(list, last, now, window);
      PruneAppend(Prune(list, last, window), last, now, window);
      PruneAppend(log, last, now, window);
    }
  }

  /** With room for everybody the log is the arrivals. */
  lemma {:induction false} RoomForAll(max: int, window: real, arrivals: seq<real>)
    requires |arrivals| < max
    ensures MemoryLog(max, window, arrivals) == arrivals && |MemoryList(max, window, arrivals)| <= |arrivals|
  {
    if arrivals != [] {
      var before, now := arrivals[..|arrivals| - 1], arrivals[|arrivals| - 1];
      RoomForAll(max, window, before);
      assert arrivals == before + [now];
      MemoryStep(max, window, before, now);
    }
  }

  /** Pruning at `a` first never counts more at `b`, and counts less if it drops something `b` keeps. */
  lemma {:induction false} PrunedTwiceLoses(ts: seq<real>, a: real, b: real, window: real, t: real)
    ensures |Prune(Prune(ts, a, window), b, window)| <= |Prune(ts, b, window)|
    ensures t in ts && a - t >= window > b - t ==> |Prune(Prune(ts, a, window), b, window)| < |Prune(ts, b, window)|
  {
    if ts != [] {
      PrunedTwiceLoses(ts[..|ts| - 1], a, b, window, t);
      var before, last := Prune(ts[..|ts| - 1], a, window), ts[|ts| - 1];
      assert (before + [last])[..|before|] == before;
      assert t in ts ==> t in ts[..|ts| - 1] || t == last;
    }
  }

  lemma {:induction false} PruneHolds(ts: seq<real>, now: real, window: real, t: real)
    requires t in ts && now - t < window
    ensures t in Prune(ts, now, window)
  {
    if t != ts[|ts| - 1] {
      PruneHolds(ts[..|ts| - 1], now, window, t);
    }
  }

  /** With room for everybody, the list counts at `now` what it counted there before `last`, pruned at `last`. */
  lemma ListShrinks(max: int, window: real, before: seq<real>, last: real, now: real, t: real)
    requires |before| + 1 < max
    ensures
      var n := |Prune(MemoryList(max, window, before + [last]), now, window)| - |Prune(before + [last], now, window)|;
      var m := |Prune(MemoryList(max, window, before), now, window)| - |Prune(before, now, window)|;
      n <= m && (t in MemoryList(max, window, before) && last - t >= window > now - t ==> n < m)
  {
    var list := MemoryList(max, window, before);
    RoomForAll(max, window, before);
    assert (before + [last])[..|before|] == before;
    PruneAppend(before, last, now, window);
    PruneAppend(Prune(list, last, window), last, now, window);
    PrunedTwiceLoses(list, last, now, window, t);
  }

  /** With room for everybody, a late request is counted short. */
  lemma {:induction false} LateIsCountedShort(max: int, window: real, arrivals: seq<real>, now: real)
    requires |arrivals| < max && !InOrder(window, arrivals, now)
    ensures |Prune(MemoryList(max, window, arrivals), now, window)| < |Prune(arrivals, now, window)|
  {
    var before, last := arrivals[..|arrivals| - 1], arrivals[|arrivals| - 1];
    assert before + [last] == arrivals;
    if InOrder(window, before, now) {
      ListCountsTheLog(max, window, before, now);
      RoomForAll(max, window, before);
      var i :| 0 <= i < |before| && last - before[i] >= window > now - before[i];
      PruneHolds(before, now, window, before[i]);
      PruneKeepsMembers(MemoryList(max, window, before), now, window);
      ListShrinks(max, window, before, last, now, before[i]);
    } else {
      LateIsCountedShort(max, window, before, now);
      ListShrinks(max, window, before, last, now, now);
    }
  }

  /** For every limit, the list counts what the log counts exactly when the request is not late. */
  lemma ListIsExactExactlyInOrder(window: real, arrivals: seq<real>, now: real)
    ensures InOrder(window, arrivals, now) <==>
      forall max: int :: ListCounts(max, window, arrivals, now)
  {
    if InOrder(window, arrivals, now) {
      forall max: int
        ensures ListCounts(max, window, arrivals, now)
      {
        ListCountsTheLog(max, window, arrivals, now);
      }
    } else {
      var max := |arrivals| + 1;
      RoomForAll(max, window, arrivals);
      LateIsCountedShort(max, window, arrivals, now);
      assert !ListCounts(max, window, arrivals, now);
    }
  }

  /** The stored list is exactly the accepted timestamps of the full log inside the window at the last check. */
  lemma {:induction false} ListIsTheLogInWindow(max: int, window: real, arrivals: seq<real>)
    requires arrivals != [] && window > 0.0 && InOrder(window, arrivals[..|arrivals| - 1], arrivals[|arrivals| - 1])
    ensures MemoryList(max, window, arrivals)
        == Prune(MemoryLog(max, window, arrivals), arrivals[|arrivals| - 1], window)
  {
    var before, last := arrivals[..|arrivals| - 1], arrivals[|arrivals| - 1];
    ListCountsTheLog(max, window, before, last);
    PruneAppend(MemoryLog(max, window, before), last, last, window);
  }

  /** A request is accepted exactly when fewer than `max` were accepted in the last `window`. */
  lemma AcceptanceIsExact(max: int, window: real, arrivals: seq<real>, now: real)
    requires InOrder(window, arrivals, now)
    ensures MemoryAccepts(max, window, arrivals, now) <==> |Prune(MemoryLog(max, window, arrivals), now, window)| < max
  {
    ListCountsTheLog(max, window, arrivals, now);
  }

  /** What lies in an interval that `now` ends is still in the window at `now`. */
  lemma {:induction false} IntervalIsInWindow(ts: seq<real>, now: real, window: real, from: real)
    requires from <= now < from + window
    ensures CountIn(ts, from, from + window) <= |Prune(ts, now, window)|
  {
    if ts != [] {
      IntervalIsInWindow(ts[..|ts| - 1], now, window, from);
    }
  }

  lemma CountAppend(ts: seq<real>, t: real, from: real, to: real)
    ensures CountIn(ts + [t], from, to) == CountIn(ts, from, to) + if from <= t < to then 1 else 0
  {
    assert (ts + [t])[..|ts|] == ts;
  }

  /** Every arrival was in order when it came. */
  ghost predicate AllInOrder(window: real, arrivals: seq<real>) {
    forall k :: 0 <= k < |arrivals| ==> InOrder(window, arrivals[..k], arrivals[k])
  }

  lemma SortedAreInOrder(window: real, arrivals: seq<real>)
    requires Nondecreasing(arrivals)
    ensures AllInOrder(window, arrivals)
  {
    forall k | 0 <= k < |arrivals|
      ensures InOrder(window, arrivals[..k], arrivals[k])
    {
      SortedIsInOrder(window, arrivals[..k], arrivals[k]);
    }
  }

  /** How many of the arrivals in the interval were late. */
  ghost function LateIn(window: real, arrivals: seq<real>, from: real): nat {
    if arrivals == [] then 0
    else
      var before, now := arrivals[..|arrivals| - 1], arrivals[|arrivals| - 1];
      LateIn(window, before, from) + if from <= now < from + window && !InOrder(window, before, now) then 1 else 0
  }

  /** Whatever the order, an interval of the window's length holds at most `max` acceptances and the late arrivals. */
  lemma {:induction false} MemoryWindowBoundWithLate(max: nat, window: real, arrivals: seq<real>, from: real)
    ensures CountIn(MemoryLog(max, window, arrivals), from, from + window) <= max + LateIn(window, arrivals, from)
  {
    if arrivals != [] {
      var before, now := arrivals[..|arrivals| - 1], arrivals[|arrivals| - 1];
      var log := MemoryLog(max, window, before);
      MemoryWindowBoundWithLate(max, window, before, from);
      CountAppend(log, now, from, from + window);
      if from <= now < from + window && InOrder(window, before, now) {
        AcceptanceIsExact(max, window, before, now);
        IntervalIsInWindow(log, now, window, from);
      }
    }
  }

  lemma {:induction false} NoneLateInOrder(window: real, arrivals: seq<real>, from: real)
    requires AllInOrder(window, arrivals)
    ensures LateIn(window, arrivals, from) == 0
  {
    if arrivals != [] {
      var before, now := arrivals[..|arrivals| - 1], arrivals[|arrivals| - 1];
      assert InOrder(window, arrivals[..|arrivals| - 1], now);
      forall k | 0 <= k < |before|
        ensures InOrder(window, before[..k], before[k])
      {
        assert before[..k] == arrivals[..k];
      }
      NoneLateInOrder(window, before, from);
    }
  }

  /** With all arrivals in order, no half-open interval of the window's length holds more than `max` acceptances. */
  lemma MemoryWindowBound(max: nat, window: real, arrivals: seq<real>, from: real)
    requires AllInOrder(window, arrivals)
    ensures CountIn(MemoryLog(max, window, arrivals), from, from + window) <= max
  {
    MemoryWindowBoundWithLate(max, window, arrivals, from);
    NoneLateInOrder(window, arrivals, from);
  }

  /** The accepted requests of the last `window` before `now`. */
  ghost function Recent(ts: seq<real>, now: real, window: real): set<int> {
    set k | 0 <= k < |ts| && now - ts[k] < window
  }

  lemma {:induction false} PruneKeepsRecent(ts: seq<real>, now: real, window: real)
    ensures |Prune(ts, now, window)| == |Recent(ts, now, window)|
  {
    if ts == [] {
      assert Recent(ts, now, window) == {};
    } else {
      var n := |ts| - 1;
      PruneKeepsRecent(ts[..n], now, window);
      assert Recent(ts, now, window)
          == if now - ts[n] < window then Recent(ts[..n], now, window) + {n} else Recent(ts[..n], now, window);
    }
  }

  lemma {:induction false} CountInIsSize(ts: seq<real>, from: real, to: real, inside: set<int>)
    requires inside == set k | 0 <= k < |ts| && from <= ts[k] < to
    ensures CountIn(ts, from, to) == |inside|
  {
    if ts == [] {
      assert inside == {};
    } else {
      var n := |ts| - 1;
      var rest := set k | 0 <= k < n && from <= ts[..n][k] < to;
      CountInIsSize(ts[..n], from, to, rest);
      assert inside == if from <= ts[n] < to then rest + {n} else rest;
    }
  }

  /** A request in order is accepted exactly when the log has fewer than `max` requests younger than the window. */
  lemma AcceptedExactlyByRecent(max: int, window: real, arrivals: seq<real>, now: real)
    requires InOrder(window, arrivals, now)
    ensures MemoryAccepts(max, window, arrivals, now) <==> |Recent(MemoryLog(max, window, arrivals), now, window)| < max
  {
    AcceptanceIsExact(max, window, arrivals, now);
    PruneKeepsRecent(MemoryLog(max, window, arrivals), now, window);
  }

  lemma MemoryStep(max: int, window: real, before: seq<real>, now: real)
    ensures var kept := Prune(MemoryList(max, window, before), now, window);
      && MemoryList(max, window, before + [now]) == (if |kept| >= max then kept else kept + [now])
      && MemoryLog(max, window, before + [now]) ==
           (if |kept| < max then MemoryLog(max, window, before) + [now] else MemoryLog(max, window, before))
  {
    assert (before + [now])[..|before|] == before;
  }

  lemma PruneOne(t: real, now: real, window: real)
    ensures Prune([t], now, window) == if now - t < window then [t] else []
  {
    assert [] + [t] == [t];
    PruneAppend([], t, now, window);
  }

  /**
    The order matters: the clock is read before the lock is taken, and a late request that enters
    after a younger one finds older acceptances already pruned. One late arrival, one acceptance too many.
   */
  lemma LateRequestOvershoots(window: real)
    requires window > 0.0
    ensures CountIn(MemoryLog(2, window, [0.0, 0.0, window, 0.0]), 0.0, window) == 3
    ensures LateIn(window, [0.0, 0.0, window, 0.0], 0.0) == 1
  {
    LateLog(window);
    var log := [0.0, 0.0, window];
    CountAppend([], 0.0, 0.0, window);
    CountAppend([0.0], 0.0, 0.0, window);
    CountAppend([0.0, 0.0], window, 0.0, window);
    CountAppend(log, 0.0, 0.0, window);
    assert [] + [0.0] == [0.0] && [0.0] + [0.0] == [0.0, 0.0] && [0.0, 0.0] + [window] == log;
    assert log + [0.0] == [0.0, 0.0, window, 0.0];
    OnlyTheLastIsLate(window);
  }

  /** The log of three requests, the last one late. */
  lemma LogOfThree(max: nat, window: real)
    requires window > 0.0
    ensures MemoryLog(max, window, [0.0, window, 0.5 * window]) ==
      if max == 0 then [] else if max == 1 then [0.0, window] else [0.0, window, 0.5 * window]
  {
    var a0, a1, a2 := [0.0], [0.0, window], [0.0, window, 0.5 * window];
    assert [] + [0.0] == a0 && a0 + [window] == a1 && a1 + [0.5 * window] == a2 && [] + [window] == [window];
    MemoryStep(max, window, [], 0.0);
    PruneOne(0.0, window, window);
    MemoryStep(max, window, a0, window);
    PruneOne(window, 0.5 * window, window);
    MemoryStep(max, window, a1, 0.5 * window);
  }

  lemma SpreadOut(window: real, from: real)
    requires window > 0.0
    ensures CountIn([0.0, window], from, from + window) <= 1
    ensures CountIn([0.0, window, 0.5 * window], from, from + window) <= 2
  {
    var a0, a1 := [0.0], [0.0, window];
    assert [] + [0.0] == a0 && a0 + [window] == a1 && a1 + [0.5 * window] == [0.0, window, 0.5 * window];
    CountAppend([], 0.0, from, from + window);
    CountAppend(a0, window, from, from + window);
    CountAppend(a1, 0.5 * window, from, from + window);
  }

  /** A late request need not overshoot: here one is late, and the bound holds for every limit. */
  lemma LateButBounded(max: nat, window: real, from: real)
    requires window > 0.0
    ensures !AllInOrder(window, [0.0, window, 0.5 * window])
    ensures CountIn(MemoryLog(max, window, [0.0, window, 0.5 * window]), from, from + window) <= max
  {
    var a1, a2 := [0.0, window], [0.0, window, 0.5 * window];
    assert a2[..2] == a1 && a1[1] - a1[0] >= window && 0.5 * window - a1[0] < window;
    assert !InOrder(window, a2[..2], a2[2]);
    LogOfThree(max, window);
    SpreadOut(window, from);
  }

  lemma OnlyTheLastIsLate(window: real)
    requires window > 0.0
    ensures LateIn(window, [0.0, 0.0, window, 0.0], 0.0) == 1
  {
    var a1, a2, a3, a4 := [0.0], [0.0, 0.0], [0.0, 0.0, window], [0.0, 0.0, window, 0.0];
    assert a4[..3] == a3 && a3[..2] == a2 && a2[..1] == a1 && a1[..0] == [];
    assert a3[2] - a3[0] >= window && 0.0 - a3[0] < window;
    assert !InOrder(window, a3, 0.0);
    assert LateIn(window, a1, 0.0) == 0;
    assert InOrder(window, a1, 0.0);
    assert LateIn(window, a2, 0.0) == 0;
    assert LateIn(window, a3, 0.0) == 0;
  }

  /** Everything is accepted at limit two. */
  lemma LateLog(window: real)
    requires window > 0.0
    ensures MemoryLog(2, window, [0.0, 0.0, window, 0.0]) == [0.0, 0.0, window, 0.0]
  {
    var a1, a2, a3 := [0.0], [0.0, 0.0], [0.0, 0.0, window];
    assert [] + [0.0] == a1 && a1 + [0.0] == a2 && a2 + [window] == a3 && a3 + [0.0] == [0.0, 0.0, window, 0.0];
    MemoryStep(2, window, [], 0.0);
    PruneOne(0.0, 0.0, window);
    MemoryStep(2, window, a1, 0.0);
    PruneOne(0.0, window, window);
    PruneAppend(a1, 0.0, window, window);
    MemoryStep(2, window, a2, window);
    assert [] + [window] == [window];
    PruneOne(window, 0.0, window);
    MemoryStep(2, window, a3, 0.0);
  }

  // ---------- the Redis counter ----------

  /** Arrival `i` follows a gap of at least the window, and no later one does. */
  ghost predicate LastGapAt(window: real, arrivals: seq<real>, i: nat) {
    && i < |arrivals|
    && (i == 0 || arrivals[i] - arrivals[i - 1] >= window)
    && forall j :: i < j < |arrivals| ==> Close(window, arrivals, j)
  }

  ghost predicate Close(window: real, arrivals: seq<real>, j: nat)
    requires 0 < j < |arrivals|
  {
    arrivals[j] - arrivals[j - 1] < window
  }

  /** The counter counts all requests, rejected ones too, since the last gap of at least the window. */
  lemma {:induction false} CounterCountsSinceLastGap(window: real, arrivals: seq<real>, i: nat)
    requires LastGapAt(window, arrivals, i)
    ensures RedisCounter(window, arrivals) ==
      Some(Counter(|arrivals| - i, arrivals[|arrivals| - 1] + window))
  {
    var n := |arrivals|;
    var before := arrivals[..n - 1];
    if i < n - 1 {
      assert Close(window, arrivals, n - 1);
      forall j | i < j < n - 1
        ensures Close(window, before, j)
      {
        assert Close(window, arrivals, j);
      }
      CounterCountsSinceLastGap(window, before, i);
    } else if n > 1 {
      assert RedisCounter(window, before).value.expireAt == before[n - 2] + window;
    }
  }

  predicate AtMost(ts: seq<real>, top: real) {
    forall k :: 0 <= k < |ts| ==> ts[k] <= top
  }

  lemma {:induction false} PruneKeepsBound(ts: seq<real>, now: real, window: real, top: real)
    requires AtMost(ts, top)
    ensures AtMost(Prune(ts, now, window), top)
  {
    if ts != [] {
      PruneKeepsBound(ts[..|ts| - 1], now, window, top);
    }
  }

  lemma {:induction false} ListIsBounded(max: int, window: real, arrivals: seq<real>)
    requires Nondecreasing(arrivals) && arrivals != []
    ensures AtMost(MemoryList(max, window, arrivals), arrivals[|arrivals| - 1])
  {
    var before, now := arrivals[..|arrivals| - 1], arrivals[|arrivals| - 1];
    if before != [] {
      ListIsBounded(max, window, before);
      assert AtMost(MemoryList(max, window, before), now);
    }
    PruneKeepsBound(MemoryList(max, window, before), now, window, now);
  }

  lemma {:induction false} PruneDropsOld(ts: seq<real>, now: real, window: real)
    requires AtMost(ts, now - window)
    ensures Prune(ts, now, window) == []
  {
    if ts != [] {
      PruneDropsOld(ts[..|ts| - 1], now, window);
    }
  }

  /** The window never counts more than the counter. */
  lemma {:induction false} WindowBelowCounter(max: int, window: real, arrivals: seq<real>, now: real)
    requires Nondecreasing(arrivals) && (arrivals != [] ==> arrivals[|arrivals| - 1] <= now)
    ensures |Prune(MemoryList(max, window, arrivals), now, window)| <= Live(RedisCounter(window, arrivals), now)
  {
    if arrivals != [] {
      var before, last := arrivals[..|arrivals| - 1], arrivals[|arrivals| - 1];
      WindowBelowCounter(max, window, before, last);
      if now >= last + window {
        ListIsBounded(max, window, arrivals);
        PruneDropsOld(MemoryList(max, window, arrivals), now, window);
      }
    }
  }

  /** On the same arrivals, whatever the Redis path accepts the in-memory path accepts too. */
  lemma RedisSimulatesIntoMemory(max: int, window: real, arrivals: seq<real>, now: real)
    requires Nondecreasing(arrivals) && (arrivals != [] ==> arrivals[|arrivals| - 1] <= now)
    requires RedisAccepts(max, window, arrivals, now)
    ensures MemoryAccepts(max, window, arrivals, now)
  {
    WindowBelowCounter(max, window, arrivals, now);
  }

  lemma {:induction false} RedisLogIsSmaller(max: int, window: real, arrivals: seq<real>, from: real, to: real)
    requires Nondecreasing(arrivals)
    ensures CountIn(RedisLog(max, window, arrivals), from, to) <= CountIn(MemoryLog(max, window, arrivals), from, to)
  {
    if arrivals != [] {
      var before, now := arrivals[..|arrivals| - 1], arrivals[|arrivals| - 1];
      RedisLogIsSmaller(max, window, before, from, to);
      CountAppend(RedisLog(max, window, before), now, from, to);
      CountAppend(MemoryLog(max, window, before), now, from, to);
      if RedisAccepts(max, window, before, now) {
        RedisSimulatesIntoMemory(max, window, before, now);
      }
    }
  }

  /** The Redis path keeps the window bound too. */
  lemma RedisWindowBound(max: nat, window: real, arrivals: seq<real>, from: real)
    requires Nondecreasing(arrivals)
    ensures CountIn(RedisLog(max, window, arrivals), from, from + window) <= max
  {
    RedisLogIsSmaller(max, window, arrivals, from, from + window);
    SortedAreInOrder(window, arrivals);
    MemoryWindowBound(max, window, arrivals, from);
  }

  /** Every log that is not empty has a last gap. */
  lemma {:induction false} LastGapExists(window: real, arrivals: seq<real>) returns (i: nat)
    requires arrivals != []
    ensures LastGapAt(window, arrivals, i)
  {
    var n := |arrivals|;
    if n == 1 || !Close(window, arrivals, n - 1) {
      i := n - 1;
    } else {
      var before := arrivals[..n - 1];
      i := LastGapExists(window, before);
      forall j | i < j < n
        ensures Close(window, arrivals, j)
      {
        assert j < n - 1 ==> Close(window, before, j);
      }
    }
  }

  /** The requests since the last gap before `now`, the new one included. */
  function SinceGap(window: real, arrivals: seq<real>, i: nat, now: real): int
    requires i < |arrivals|
  {
    if now - arrivals[|arrivals| - 1] >= window then 1 else |arrivals| - i + 1
  }

  /** The Redis path accepts exactly when at most `max` requests came since the last gap. */
  lemma RedisAcceptsExactly(max: int, window: real, arrivals: seq<real>, now: real, i: nat)
    requires LastGapAt(window, arrivals, i)
    ensures RedisAccepts(max, window, arrivals, now) <==> SinceGap(window, arrivals, i, now) <= max
  {
    CounterCountsSinceLastGap(window, arrivals, i);
  }

  /**
    The two limiters disagree exactly when fewer than `max` requests were accepted in the last window,
    but more than `max` came since the last gap.
   */
  lemma LimitersDisagreeExactly(max: int, window: real, arrivals: seq<real>, now: real, i: nat)
    requires Nondecreasing(arrivals) && LastGapAt(window, arrivals, i) && arrivals[|arrivals| - 1] <= now
    ensures RedisAccepts(max, window, arrivals, now) != MemoryAccepts(max, window, arrivals, now) <==>
      |Prune(MemoryLog(max, window, arrivals), now, window)| < max < SinceGap(window, arrivals, i, now)
  {
    RedisAcceptsExactly(max, window, arrivals, now, i);
    SortedIsInOrder(window, arrivals, now);
    AcceptanceIsExact(max, window, arrivals, now);
    WindowBelowCounter(max, window, arrivals, now);
  }

  /** They do disagree: with limit one, on the third of three requests in 1.2 windows. */
  lemma MemoryAcceptsWhatRedisRejects(window: real)
    requires window > 0.0
    ensures MemoryAccepts(1, window, [0.0, 0.5 * window], 1.2 * window)
    ensures !RedisAccepts(1, window, [0.0, 0.5 * window], 1.2 * window)
  {
    FirstIsKept(window);
    PruneOne(0.0, 1.2 * window, window);
    assert Close(window, [0.0, 0.5 * window], 1);
    RedisAcceptsExactly(1, window, [0.0, 0.5 * window], 1.2 * window, 0);
  }

  lemma FirstIsKept(window: real)
    requires window > 0.0
    ensures MemoryList(1, window, [0.0, 0.5 * window]) == [0.0]
  {
    assert [] + [0.0] == [0.0] && [0.0] + [0.5 * window] == [0.0, 0.5 * window];
    MemoryStep(1, window, [], 0.0);
    MemoryStep(1, window, [0.0], 0.5 * window);
    PruneOne(0.0, 0.5 * window, window);
  }

  /** Once over the Redis limit, a client that keeps calling within the window stays locked out. */
  lemma {:induction false} LockoutLasts(max: int, window: real, arrivals: seq<real>, more: seq<real>, now: real)
    requires arrivals != [] && RedisCounter(window, arrivals).value.count > max
    requires forall j :: |arrivals| <= j < |arrivals + more| ==> Close(window, arrivals + more, j)
    requires now - (arrivals + more)[|arrivals + more| - 1] < window
    ensures RedisCounter(window, arrivals + more).value.count > max
    ensures !RedisAccepts(max, window, arrivals + more, now)
  {
    var all := arrivals + more;
    if more == [] {
      assert all == arrivals;
    } else {
      var before := more[..|more| - 1];
      assert all[..|all| - 1] == arrivals + before;
      forall j | |arrivals| <= j < |arrivals + before|
        ensures Close(window, arrivals + before, j)
      {
        assert Close(window, all, j);
      }
      assert Close(window, all, |all| - 1);
      LockoutLasts(max, window, arrivals, before, all[|all| - 1]);
    }
  }

  // ---------- Redis comes and goes ----------

  /** A call at `now`, which Redis serves when it is up, and the fallback otherwise. */
  datatype Call = Call(now: real, up: bool)

  /** The arrivals that one of the two limiters sees. */
  function Arrivals(calls: seq<Call>, up: bool): seq<real> {
    if calls == [] then []
    else
      var before, last := Arrivals(calls[..|calls| - 1], up), calls[|calls| - 1];
      if last.up == up then before + [last.now] else before
  }

  /** What the two accept together. */
  function Accepted(max: int, window: real, calls: seq<Call>): seq<real> {
    if calls == [] then []
    else
      var before, last := calls[..|calls| - 1], calls[|calls| - 1];
      if (if last.up then RedisAccepts(max, window, Arrivals(before, true), last.now)
          else MemoryAccepts(max, window, Arrivals(before, false), last.now))
      then Accepted(max, window, before) + [last.now] else Accepted(max, window, before)
  }

  ghost predicate InTime(calls: seq<Call>) {
    forall i, j :: 0 <= i < j < |calls| ==> calls[i].now <= calls[j].now
  }

  predicate IsArrival(calls: seq<Call>, t: real) {
    exists k :: 0 <= k < |calls| && calls[k].now == t
  }

  lemma {:induction false} ArrivalsAreSorted(calls: seq<Call>, up: bool)
    requires InTime(calls)
    ensures Nondecreasing(Arrivals(calls, up))
    ensures forall k :: 0 <= k < |Arrivals(calls, up)| ==> IsArrival(calls, Arrivals(calls, up)[k])
  {
    if calls != [] {
      var before := calls[..|calls| - 1];
      ArrivalsAreSorted(before, up);
      forall t | IsArrival(before, t)
        ensures IsArrival(calls, t) && t <= calls[|calls| - 1].now
      {
        var k :| 0 <= k < |before| && before[k].now == t;
        assert calls[k].now == t;
      }
    }
  }

  lemma RedisStep(max: int, window: real, before: seq<real>, now: real, from: real, to: real)
    ensures CountIn(RedisLog(max, window, before + [now]), from, to) == CountIn(RedisLog(max, window, before), from, to)
      + if RedisAccepts(max, window, before, now) && from <= now < to then 1 else 0
  {
    assert (before + [now])[..|before|] == before;
    CountAppend(RedisLog(max, window, before), now, from, to);
  }

  lemma MemoryLogStep(max: int, window: real, before: seq<real>, now: real, from: real, to: real)
    ensures CountIn(MemoryLog(max, window, before + [now]), from, to)
         == CountIn(MemoryLog(max, window, before), from, to)
      + if MemoryAccepts(max, window, before, now) && from <= now < to then 1 else 0
  {
    MemoryStep(max, window, before, now);
    CountAppend(MemoryLog(max, window, before), now, from, to);
  }

  /** Each limiter counts its own arrivals only. */
  lemma {:induction false} AcceptedTogether(max: int, window: real, calls: seq<Call>, from: real, to: real)
    ensures CountIn(Accepted(max, window, calls), from, to)
         == CountIn(RedisLog(max, window, Arrivals(calls, true)), from, to)
          + CountIn(MemoryLog(max, window, Arrivals(calls, false)), from, to)
  {
    if calls != [] {
      var before, last := calls[..|calls| - 1], calls[|calls| - 1];
      AcceptedTogether(max, window, before, from, to);
      CountAppend(Accepted(max, window, before), last.now, from, to);
      if last.up {
        RedisStep(max, window, Arrivals(before, true), last.now, from, to);
      } else {
        MemoryLogStep(max, window, Arrivals(before, false), last.now, from, to);
      }
    }
  }

  lemma FallbackBound(max: nat, window: real, calls: seq<Call>, from: real)
    requires InTime(calls)
    ensures CountIn(MemoryLog(max, window, Arrivals(calls, false)), from, from + window) <= max
  {
    ArrivalsAreSorted(calls, false);
    SortedAreInOrder(window, Arrivals(calls, false));
    MemoryWindowBound(max, window, Arrivals(calls, false), from);
  }

  /** However Redis comes and goes, a window holds at most twice the limit. */
  lemma FallbackDoublesTheBound(max: nat, window: real, calls: seq<Call>, from: real)
    requires InTime(calls)
    ensures CountIn(Accepted(max, window, calls), from, from + window) <= 2 * max
  {
    AcceptedTogether(max, window, calls, from, from + window);
    ArrivalsAreSorted(calls, true);
    RedisWindowBound(max, window, Arrivals(calls, true), from);
    FallbackBound(max, window, calls, from);
  }

  // ---------- the limiter object ----------

  function RateKey(scope: string, clientIp: string): string {
    scope + ":" + clientIp
  }

  /** Keys of different scopes or clients differ, although IPv6 addresses contain colons: scopes do not. */
  lemma KeysDoNotCollide(scope: string, ip: string, scope': string, ip': string)
    requires ':' !in scope && ':' !in scope' && RateKey(scope, ip) == RateKey(scope', ip')
    ensures scope == scope' && ip == ip'
  {
    FirstColonSplits(scope, ip, scope', ip');
  }

  function At(log: map<string, seq<real>>, key: string): seq<real> {
    if key in log then log[key] else []
  }

  function CounterAt(counters: map<string, Counter>, key: string): Option<Counter> {
    if key in counters then Some(counters[key]) else None
  }

  /** What a scope allows: every caller of a scope passes the same limit and window. */
  datatype Policy = Policy(max: int, window: real)

  class RateLimiter {
    var memory: map<string, seq<real>>
    var redis: map<string, Counter>
    const policies: map<string, Policy>
    ghost var memoryArrivals: map<string, seq<real>>
    ghost var redisArrivals: map<string, seq<real>>

    /** What is stored for a key is what its full request logs determine. */
    ghost predicate KeyOk(key: string)
      reads this
      requires key in policies
    {
      && At(memory, key) == MemoryList(policies[key].max, policies[key].window, At(memoryArrivals, key))
      && CounterAt(redis, key) == RedisCounter(policies[key].window, At(redisArrivals, key))
    }

    /** Every key is as its logs determine, and no empty list is kept. */
    ghost predicate Valid()
      reads this
    {
      && (forall key :: key in memory ==> memory[key] != [])
      && (forall key :: key in policies ==> KeyOk(key))
    }

    constructor (policies: map<string, Policy>)
      ensures Valid() && this.policies == policies && memoryArrivals == map[] && redisArrivals == map[]
    {
      this.policies := policies;
      memory, redis, memoryArrivals, redisArrivals := map[], map[], map[], map[];
    }

    /** The comprehension of the code, as a loop. */
    method InWindow(ts: seq<real>, now: real, window: real) returns (kept: seq<real>)
      ensures kept == Prune(ts, now, window)
    {
      kept := [];
      for k := 0 to |ts|
        invariant kept == Prune(ts[..k], now, window)
      {
        assert ts[..k + 1][..k] == ts[..k];
        if now - ts[k] < window {
          kept := kept + [ts[k]];
        }
      }
      assert ts[..|ts|] == ts;
    }

    /** Store the pruned list, or drop the key; then accept and record, or reject. */
    method StoreAndDecide(key: string, timestamps: seq<real>, max: int, now: real) returns (accepted: bool)
      requires forall k :: k in memory ==> memory[k] != []
      modifies this`memory
      ensures accepted == (|timestamps| < max)
      ensures At(memory, key) == if accepted then timestamps + [now] else timestamps
      ensures forall other :: other != key ==> At(memory, other) == At(old(memory), other)
      ensures forall k :: k in memory ==> memory[k] != []
    {
      if timestamps == [] {
        memory := memory - {key};
      } else {
        memory := memory[key := timestamps];
      }
      accepted := |timestamps| < max;
      if accepted {
        memory := memory[key := timestamps + [now]];
      }
    }

    method CheckMemory(key: string, max: int, window: real, now: real) returns (accepted: bool)
      requires Valid() && key in policies && policies[key] == Policy(max, window)
      modifies this`memory, this`memoryArrivals
      ensures Valid()
      ensures accepted == MemoryAccepts(max, window, At(old(memoryArrivals), key), now)
      ensures memoryArrivals == old(memoryArrivals)[key := At(old(memoryArrivals), key) + [now]]
      ensures forall other :: other != key ==> At(memory, other) == At(old(memory), other)
    {
      assert KeyOk(key);
      ghost var arrivals := At(memoryArrivals, key);
      assert (arrivals + [now])[..|arrivals|] == arrivals;
      var timestamps := InWindow(At(memory, key), now, window);
      accepted := StoreAndDecide(key, timestamps, max, now);
      memoryArrivals := memoryArrivals[key := arrivals + [now]];
      assert At(memory, key) == MemoryList(max, window, arrivals + [now]);
      forall other | other in policies
        ensures KeyOk(other)
      {
        assert old(KeyOk(other));
        if other != key {
          assert At(memory, other) == old(At(memory, other));
          assert At(memoryArrivals, other) == old(At(memoryArrivals, other));
        }
      }
    }

    /** INCR and EXPIRE in one pipeline, or the in-memory fallback when Redis is down. */
    method Check(key: string, max: int, window: real, now: real, redisUp: bool) returns (accepted: bool)
      requires Valid() && key in policies && policies[key] == Policy(max, window)
      modifies this`memory, this`memoryArrivals, this`redis, this`redisArrivals
      ensures Valid()
      ensures accepted ==
        if redisUp then RedisAccepts(max, window, At(old(redisArrivals), key), now)
        else MemoryAccepts(max, window, At(old(memoryArrivals), key), now)
      ensures redisArrivals ==
        if redisUp then old(redisArrivals)[key := At(old(redisArrivals), key) + [now]] else old(redisArrivals)
      ensures memoryArrivals ==
        if redisUp then old(memoryArrivals) else old(memoryArrivals)[key := At(old(memoryArrivals), key) + [now]]
      ensures forall other :: other != key ==>
        At(memory, other) == At(old(memory), other) && CounterAt(redis, other) == CounterAt(old(redis), other)
    {
      if !redisUp {
        accepted := CheckMemory(key, max, window, now);
        return;
      }
      assert KeyOk(key);
      ghost var arrivals := At(redisArrivals, key);
      assert (arrivals + [now])[..|arrivals|] == arrivals;
      var counter := Bump(CounterAt(redis, key), now, window);
      redis := redis[key := counter];
      redisArrivals := redisArrivals[key := arrivals + [now]];
      accepted := !(counter.count > max);
      forall other | other in policies
        ensures KeyOk(other)
      {
        assert old(KeyOk(other));
      }
    }
  }
}
