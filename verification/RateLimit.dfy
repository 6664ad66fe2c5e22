/** The in-memory sliding-window rate limiter and its background sweeper.

    Each key owns a bounded queue of grant times. The functions `Ask` and `Sweep`
    are the queue-level behaviour, `Admits` is the sliding window over the
    whole grant log, and the theorems say that the two never disagree. */
module RateLimit {

  /** The limit that callers attach to a key: at most `max` grants in `duration` seconds. */
  datatype Limit = Limit(max: nat, duration: int)

  /** Grant times of the keys, oldest first. */
  type Queues = map<string, seq<int>>

  ghost predicate NonEmptyQueues(store: Queues) {
    forall k | k in store :: store[k] != []
  }

  /** One request: the queues afterwards and whether the request is granted. */
  function Ask(store: Queues, key: string, limit: Limit, now: int): (r: (Queues, bool))
    requires NonEmptyQueues(store)
    ensures NonEmptyQueues(r.0)
  {
    if key !in store then
      (store[key := [now]], true)
    else
      var queue := store[key];
      if |queue| < limit.max then
        (store[key := queue + [now]], true)
      else if now - queue[0] >= limit.duration then
        (store[key := queue[1..] + [now]], true)
      else
        (store, false)
  }

  predicate Stale(queue: seq<int>, expiration: nat, now: int) {
    |queue| == 0 || now - queue[|queue| - 1] > expiration
  }

  /** One pass of the sweeper: the queues whose newest grant is not older than `expiration`. */
  function Sweep(store: Queues, expiration: nat, now: int): Queues {
    map k | k in store && !Stale(store[k], expiration, now) :: store[k]
  }

  class InMemoryRateLimiter {
    var store: Queues
    var expiration: nat

    ghost predicate Valid()
      reads this
    {
      NonEmptyQueues(store)
    }

    constructor (expiration: nat)
      ensures Valid() && store == map[] && this.expiration == expiration
    {
      store := map[];
      this.expiration := expiration;
    }

    /** The sweeper's critical section: walks the keys and deletes the stale ones. */
    method ClearExpiredItems(now: int)
      requires Valid()
      modifies this`store
      ensures Valid()
      ensures store == Sweep(old(store), expiration, now)
    {
      var keys := store.Keys;
      while keys != {}
        invariant keys <= store.Keys <= old(store).Keys
        invariant forall k | k in store :: store[k] == old(store)[k]
        invariant forall k | k in old(store) ::
                    k in store <==> k in keys || !Stale(old(store)[k], expiration, now)
        decreases |keys|
      {
        var key :| key in keys;
        var queue := store[key];
        if |queue| == 0 || now - queue[|queue| - 1] > expiration {
          store := store - {key};
        }
        keys := keys - {key};
      }
    }

    method Request(key: string, maxRequestNum: nat, duration: int, now: int) returns (granted: bool)
      requires Valid()
      modifies this`store
      ensures Valid()
      ensures (store, granted) == Ask(old(store), key, Limit(maxRequestNum, duration), now)
    {
      if key in store {
        var queue := store[key];
        if |queue| < maxRequestNum {
          store := store[key := queue + [now]];
          return true;
        } else if now - queue[0] >= duration {
          queue := queue[1..];
          queue := queue + [now];
          store := store[key := queue];
          return true;
        } else {
          return false;
        }
      }
      store := store[key := [now]];
      return true;
    }
  }

  // ----- the sliding window -----

  /** A limit of zero still lets one request through, because a fresh key is always granted. */
  function Capacity(limit: Limit): nat {
    if limit.max == 0 then 1 else limit.max
  }

  /** How many of the grants lie in the last `duration` seconds. */
  function Recent(grants: seq<int>, duration: int, now: int): nat {
    if grants == [] then 0
    else (if now - grants[0] < duration then 1 else 0) + Recent(grants[1..], duration, now)
  }

  function Grants(log: Queues, key: string): seq<int> {
    if key in log then log[key] else []
  }

  /** The specification: fewer than the capacity of the key's earlier grants are recent. */
  predicate Admits(log: Queues, key: string, limit: Limit, now: int) {
    Recent(Grants(log, key), limit.duration, now) < Capacity(limit)
  }

  // ----- runs -----

  datatype Event = Request(key: string, now: int) | SweepAt(now: int)

  type Limits = string -> Limit

  predicate Monotone(events: seq<Event>, clock: int) {
    events == [] || (clock <= events[0].now && Monotone(events[1..], events[0].now))
  }

  /** The decisions of the queues over a run, in the order of the requests. */
  function Decisions(events: seq<Event>, limits: Limits, expiration: nat, store: Queues): seq<bool>
    requires NonEmptyQueues(store)
  {
    if events == [] then []
    else
      match events[0]
      case Request(key, now) =>
        var (next, granted) := Ask(store, key, limits(key), now);
        [granted] + Decisions(events[1..], limits, expiration, next)
      case SweepAt(now) =>
        Decisions(events[1..], limits, expiration, Sweep(store, expiration, now))
  }

  function Grant(log: Queues, key: string, now: int, granted: bool): Queues {
    if granted then log[key := Grants(log, key) + [now]] else log
  }

  /** The decisions of the window specification, which keeps every grant and knows no sweeper. */
  function WindowDecisions(events: seq<Event>, limits: Limits, log: Queues): seq<bool> {
    if events == [] then []
    else
      match events[0]
      case Request(key, now) =>
        var granted := Admits(log, key, limits(key), now);
        [granted] + WindowDecisions(events[1..], limits, Grant(log, key, now, granted))
      case SweepAt(_) =>
        WindowDecisions(events[1..], limits, log)
  }

  /** Every grant of a run, per key. */
  function GrantLog(events: seq<Event>, limits: Limits, expiration: nat, store: Queues, log: Queues): Queues
    requires NonEmptyQueues(store)
  {
    if events == [] then log
    else
      match events[0]
      case Request(key, now) =>
        var (next, granted) := Ask(store, key, limits(key), now);
        GrantLog(events[1..], limits, expiration, next, Grant(log, key, now, granted))
      case SweepAt(now) =>
        GrantLog(events[1..], limits, expiration, Sweep(store, expiration, now), log)
  }

  // ----- the invariant between queue and log -----

  ghost predicate Ordered(ts: seq<int>, clock: int) {
    && (forall i, j | 0 <= i < j < |ts| :: ts[i] <= ts[j])
    && (forall i | 0 <= i < |ts| :: ts[i] <= clock)
  }

  ghost predicate Spaced(ts: seq<int>, limit: Limit) {
    forall i | 0 <= i && i + Capacity(limit) < |ts| :: ts[i + Capacity(limit)] - ts[i] >= limit.duration
  }

  /** `queue` is the end of the log `ts`; what is missing from a queue that is not full
      has already left the window. */
  ghost predicate Tracks(queue: seq<int>, ts: seq<int>, limit: Limit, clock: int) {
    && Ordered(ts, clock)
    && Spaced(ts, limit)
    && |queue| <= |ts|
    && |queue| <= Capacity(limit)
    && ts[|ts| - |queue|..] == queue
    && (|queue| < Capacity(limit) ==> forall i | 0 <= i < |ts| - |queue| :: clock - ts[i] >= limit.duration)
  }

  ghost predicate TracksAll(store: Queues, log: Queues, limits: Limits, clock: int) {
    && NonEmptyQueues(store)
    && forall k :: Tracks(Grants(store, k), Grants(log, k), limits(k), clock)
  }

  ghost predicate ShortDurations(limits: Limits, expiration: nat) {
    forall k :: limits(k).duration <= expiration + 1
  }

  lemma {:induction false} RecentOfConcat(a: seq<int>, b: seq<int>, duration: int, now: int)
    ensures Recent(a + b, duration, now) == Recent(a, duration, now) + Recent(b, duration, now)
  {
    if a == [] {
      assert a + b == b;
    } else {
      RecentOfConcat(a[1..], b, duration, now);
      assert (a + b)[1..] == a[1..] + b;
    }
  }

  lemma {:induction false} RecentBounds(ts: seq<int>, duration: int, now: int)
    ensures Recent(ts, duration, now) <= |ts|
    ensures (forall i | 0 <= i < |ts| :: now - ts[i] >= duration) ==> Recent(ts, duration, now) == 0
    ensures (forall i | 0 <= i < |ts| :: now - ts[i] < duration) ==> Recent(ts, duration, now) == |ts|
  {
    if ts != [] {
      RecentBounds(ts[1..], duration, now);
    }
  }

  /** What a queue has forgotten is older than what it holds. */
  lemma DroppedIsOld(queue: seq<int>, ts: seq<int>, limit: Limit, clock: int, now: int)
    requires Tracks(queue, ts, limit, clock) && clock <= now
    requires |queue| < Capacity(limit) || now - queue[0] >= limit.duration
    ensures Recent(ts[..|ts| - |queue|], limit.duration, now) == 0
  {
    var dropped := ts[..|ts| - |queue|];
    forall i | 0 <= i < |dropped| ensures now - dropped[i] >= limit.duration {
      assert dropped[i] == ts[i];
      if |queue| == Capacity(limit) {
        assert ts[i] <= ts[|ts| - |queue|] == queue[0];
      }
    }
    RecentBounds(dropped, limit.duration, now);
  }

  /** A full queue whose oldest grant is recent holds only recent grants. */
  lemma FullQueueIsRecent(queue: seq<int>, ts: seq<int>, limit: Limit, clock: int, now: int)
    requires Tracks(queue, ts, limit, clock)
    requires |queue| == Capacity(limit) && now - queue[0] < limit.duration
    ensures Recent(queue, limit.duration, now) == |queue|
  {
    forall i | 0 <= i < |queue| ensures now - queue[i] < limit.duration {
      assert ts[|ts| - |queue|] == queue[0] && ts[|ts| - |queue| + i] == queue[i];
    }
    RecentBounds(queue, limit.duration, now);
  }

  /** The queue alone decides as the whole log does. */
  lemma QueueDecides(queue: seq<int>, ts: seq<int>, limit: Limit, clock: int, now: int)
    requires Tracks(queue, ts, limit, clock) && clock <= now
    ensures Recent(ts, limit.duration, now) < Capacity(limit)
       <==> |queue| < Capacity(limit) || now - queue[0] >= limit.duration
  {
    var dropped := ts[..|ts| - |queue|];
    assert ts == dropped + queue;
    RecentOfConcat(dropped, queue, limit.duration, now);
    if |queue| < Capacity(limit) {
      DroppedIsOld(queue, ts, limit, clock, now);
      RecentBounds(queue, limit.duration, now);
    } else if now - queue[0] >= limit.duration {
      DroppedIsOld(queue, ts, limit, clock, now);
      RecentBounds(queue[1..], limit.duration, now);
    } else {
      FullQueueIsRecent(queue, ts, limit, clock, now);
    }
  }

  lemma OrderedGrows(ts: seq<int>, clock: int, now: int)
    requires Ordered(ts, clock) && clock <= now
    ensures Ordered(ts + [now], now)
  {
  }

  /** The grant that is a capacity back is the oldest of a full queue. */
  lemma SpacedGrows(queue: seq<int>, ts: seq<int>, limit: Limit, now: int)
    requires Spaced(ts, limit) && |queue| <= |ts| && ts[|ts| - |queue|..] == queue && |queue| == Capacity(limit)
    requires now - queue[0] >= limit.duration
    ensures Spaced(ts + [now], limit)
  {
    assert ts[|ts| - |queue|] == queue[0];
  }

  /** What a queue that is not full has forgotten has left the window. */
  lemma SpacedGrowsEarly(queue: seq<int>, ts: seq<int>, limit: Limit, clock: int, now: int)
    requires Tracks(queue, ts, limit, clock) && clock <= now && |queue| < Capacity(limit)
    ensures Spaced(ts + [now], limit)
  {
    hide Ordered;
  }

  lemma TailGrows(queue: seq<int>, ts: seq<int>, now: int)
    requires |queue| <= |ts| && ts[|ts| - |queue|..] == queue
    ensures (ts + [now])[|ts| - |queue|..] == queue + [now]
    ensures queue != [] ==> (ts + [now])[|ts| + 1 - |queue|..] == queue[1..] + [now]
  {
  }

  /** A granted request keeps the relation; the queue forgets its oldest entry when it is full. */
  lemma GrantKeepsTracks(queue: seq<int>, ts: seq<int>, limit: Limit, clock: int, now: int)
    requires Tracks(queue, ts, limit, clock) && clock <= now
    requires |queue| < Capacity(limit) || now - queue[0] >= limit.duration
    ensures |queue| < Capacity(limit) ==> Tracks(queue + [now], ts + [now], limit, now)
    ensures |queue| == Capacity(limit) ==> Tracks(queue[1..] + [now], ts + [now], limit, now)
  {
    if |queue| == Capacity(limit) {
      SpacedGrows(queue, ts, limit, now);
    } else {
      SpacedGrowsEarly(queue, ts, limit, clock, now);
    }
    OrderedGrows(ts, clock, now);
    TailGrows(queue, ts, now);
    hide Ordered, Spaced, Capacity;
  }

  lemma AskDecides(store: Queues, log: Queues, limits: Limits, clock: int, key: string, now: int)
    requires TracksAll(store, log, limits, clock) && clock <= now
    ensures Ask(store, key, limits(key), now).1 == Admits(log, key, limits(key), now)
  {
    assert Tracks(Grants(store, key), Grants(log, key), limits(key), clock);
    QueueDecides(Grants(store, key), Grants(log, key), limits(key), clock, now);
  }

  lemma AskEffect(store: Queues, key: string, limit: Limit, now: int)
    requires NonEmptyQueues(store) && |Grants(store, key)| <= Capacity(limit)
    ensures var (next, granted) := Ask(store, key, limit, now);
            var queue := Grants(store, key);
            && (granted <==> |queue| < Capacity(limit) || now - queue[0] >= limit.duration)
            && (forall k | k != key :: Grants(next, k) == Grants(store, k))
            && Grants(next, key) == if !granted then queue
                                    else if |queue| < Capacity(limit) then queue + [now]
                                    else queue[1..] + [now]
  {
  }

  lemma AskKeepsTracks(store: Queues, log: Queues, limits: Limits, clock: int, key: string, now: int)
    requires TracksAll(store, log, limits, clock) && clock <= now
    ensures var (next, granted) := Ask(store, key, limits(key), now);
            TracksAll(next, Grant(log, key, now, granted), limits, now)
  {
    var limit := limits(key);
    var queue, ts := Grants(store, key), Grants(log, key);
    assert Tracks(queue, ts, limit, clock);
    AskEffect(store, key, limit, now);
    var (next, granted) := Ask(store, key, limit, now);
    var grown := Grant(log, key, now, granted);
    assert Grants(grown, key) == if granted then ts + [now] else ts;
    assert forall k | k != key :: Grants(grown, k) == Grants(log, k);
    if granted {
      GrantKeepsTracks(queue, ts, limit, clock, now);
    } else {
      TracksLater(queue, ts, limit, clock, now);
    }
    hide Ask, Grant, Grants, Ordered, Spaced, Capacity;
    forall k ensures Tracks(Grants(next, k), Grants(grown, k), limits(k), now) {
      assert Tracks(Grants(store, k), Grants(log, k), limits(k), clock);
      if k != key {
        TracksLater(Grants(store, k), Grants(log, k), limits(k), clock, now);
      }
    }
  }

  lemma TracksLater(queue: seq<int>, ts: seq<int>, limit: Limit, clock: int, now: int)
    requires Tracks(queue, ts, limit, clock) && clock <= now
    ensures Tracks(queue, ts, limit, now)
  {
    hide Spaced;
  }

  /** A queue that is dropped has left the window altogether. */
  lemma StaleKeepsTracks(queue: seq<int>, ts: seq<int>, limit: Limit, clock: int, expiration: nat, now: int)
    requires Tracks(queue, ts, limit, clock) && clock <= now && queue != []
    requires Stale(queue, expiration, now) && limit.duration <= expiration + 1
    ensures Tracks([], ts, limit, now)
  {
    hide Spaced;
    assert queue[|queue| - 1] == ts[|ts| - 1];
  }

  lemma SweepKeepsTracks(store: Queues, log: Queues, limits: Limits, clock: int, expiration: nat, now: int)
    requires TracksAll(store, log, limits, clock) && clock <= now
    requires ShortDurations(limits, expiration)
    ensures TracksAll(Sweep(store, expiration, now), log, limits, now)
  {
    var swept := Sweep(store, expiration, now);
    hide Tracks;
    forall k ensures Tracks(Grants(swept, k), Grants(log, k), limits(k), now) {
      var queue, ts := Grants(store, k), Grants(log, k);
      assert Tracks(queue, ts, limits(k), clock);
      if k in store && k !in swept {
        StaleKeepsTracks(queue, ts, limits(k), clock, expiration, now);
      } else {
        TracksLater(queue, ts, limits(k), clock, now);
      }
    }
  }

  /** With durations no longer than the expiry, the queues decide every run exactly as the
      sliding window does, sweeps included. */
  lemma {:induction false} QueuesRefineWindow(events: seq<Event>, limits: Limits, expiration: nat,
                                              store: Queues, log: Queues, clock: int)
    requires TracksAll(store, log, limits, clock) && Monotone(events, clock)
    requires ShortDurations(limits, expiration)
    ensures Decisions(events, limits, expiration, store) == WindowDecisions(events, limits, log)
    ensures forall k :: Spaced(Grants(GrantLog(events, limits, expiration, store, log), k), limits(k))
    decreases |events|
  {
    if events == [] {
      forall k ensures Spaced(Grants(log, k), limits(k)) {
        assert Tracks(Grants(store, k), Grants(log, k), limits(k), clock);
      }
    } else {
      match events[0]
      case Request(key, now) =>
        AskDecides(store, log, limits, clock, key, now);
        AskKeepsTracks(store, log, limits, clock, key, now);
        var (next, granted) := Ask(store, key, limits(key), now);
        QueuesRefineWindow(events[1..], limits, expiration, next, Grant(log, key, now, granted), now);
      case SweepAt(now) =>
        SweepKeepsTracks(store, log, limits, clock, expiration, now);
        QueuesRefineWindow(events[1..], limits, expiration, Sweep(store, expiration, now), log, now);
    }
  }

  lemma EmptyTracks(limits: Limits, clock: int)
    ensures TracksAll(map[], map[], limits, clock)
  {
    forall k ensures Tracks(Grants(map[], k), Grants(map[], k), limits(k), clock) {
    }
  }

  /** Any capacity + 1 consecutive grants of a key span at least its duration. */
  lemma GrantsAreSpaced(events: seq<Event>, limits: Limits, expiration: nat, clock: int, key: string, i: nat)
    requires Monotone(events, clock) && ShortDurations(limits, expiration)
    requires i + Capacity(limits(key)) < |Grants(GrantLog(events, limits, expiration, map[], map[]), key)|
    ensures var ts := Grants(GrantLog(events, limits, expiration, map[], map[]), key);
            ts[i + Capacity(limits(key))] - ts[i] >= limits(key).duration
  {
    EmptyTracks(limits, clock);
    QueuesRefineWindow(events, limits, expiration, map[], map[], clock);
    assert Spaced(Grants(GrantLog(events, limits, expiration, map[], map[]), key), limits(key));
  }

  function WithoutSweeps(events: seq<Event>): seq<Event> {
    if events == [] then []
    else if events[0].SweepAt? then WithoutSweeps(events[1..])
    else [events[0]] + WithoutSweeps(events[1..])
  }

  lemma {:induction false} WindowIgnoresSweeps(events: seq<Event>, limits: Limits, log: Queues)
    ensures WindowDecisions(events, limits, log) == WindowDecisions(WithoutSweeps(events), limits, log)
    decreases |events|
  {
    if events != [] {
      match events[0]
      case Request(key, now) =>
        var rest := WithoutSweeps(events[1..]);
        assert ([events[0]] + rest)[1..] == rest;
        WindowIgnoresSweeps(events[1..], limits, Grant(log, key, now, Admits(log, key, limits(key), now)));
      case SweepAt(_) =>
        WindowIgnoresSweeps(events[1..], limits, log);
    }
  }

  lemma {:induction false} WithoutSweepsMonotone(events: seq<Event>, clock: int)
    requires Monotone(events, clock)
    ensures Monotone(WithoutSweeps(events), clock)
    decreases |events|
  {
    if events != [] {
      WithoutSweepsMonotone(events[1..], events[0].now);
      var rest := WithoutSweeps(events[1..]);
      if events[0].SweepAt? {
        MonotoneWeaken(rest, events[0].now, clock);
      } else {
        assert ([events[0]] + rest)[1..] == rest;
      }
    }
  }

  lemma MonotoneWeaken(events: seq<Event>, clock: int, earlier: int)
    requires Monotone(events, clock) && earlier <= clock
    ensures Monotone(events, earlier)
  {
  }

  /** Removing every sweep from a run changes no decision. */
  lemma SweepsAreInvisible(events: seq<Event>, limits: Limits, expiration: nat, clock: int)
    requires Monotone(events, clock) && ShortDurations(limits, expiration)
    ensures Decisions(events, limits, expiration, map[])
         == Decisions(WithoutSweeps(events), limits, expiration, map[])
  {
    EmptyTracks(limits, clock);
    QueuesRefineWindow(events, limits, expiration, map[], map[], clock);
    WithoutSweepsMonotone(events, clock);
    QueuesRefineWindow(WithoutSweeps(events), limits, expiration, map[], map[], clock);
    WindowIgnoresSweeps(events, limits, map[]);
  }

  // ----- the bound on the duration is exact -----

  /** `n` requests at time zero. */
  function Burst(key: string, n: nat): seq<Event> {
    if n == 0 then [] else [Request(key, 0)] + Burst(key, n - 1)
  }

  function Zeros(n: nat): seq<int> {
    if n == 0 then [] else Zeros(n - 1) + [0]
  }

  /** Fills the queue, lets the key expire, and asks again. */
  function ExpiryRun(key: string, n: nat, expiration: nat): seq<Event> {
    Burst(key, n) + [SweepAt(expiration + 1), Request(key, expiration + 1)]
  }

  ghost predicate AgreesOnAllRuns(limits: Limits, expiration: nat) {
    forall events | Monotone(events, 0) ::
      Decisions(events, limits, expiration, map[]) == WindowDecisions(events, limits, map[])
  }

  /** Once the burst has filled the window, the sweep makes the queue forget it. */
  lemma ForgottenTooEarly(key: string, limits: Limits, expiration: nat, store: Queues, log: Queues)
    requires limits(key).duration > expiration + 1
    requires Grants(log, key) == Zeros(Capacity(limits(key)))
    requires NonEmptyQueues(store) && Grants(store, key) == Grants(log, key)
    ensures Decisions(ExpiryRun(key, 0, expiration), limits, expiration, store) == [true]
    ensures WindowDecisions(ExpiryRun(key, 0, expiration), limits, log) == [false]
  {
    var now := expiration + 1;
    var events := ExpiryRun(key, 0, expiration);
    assert events == [SweepAt(now), Request(key, now)] && events[1..] == [Request(key, now)];
    ZerosAreZero(Capacity(limits(key)));
    RecentBounds(Grants(log, key), limits(key).duration, now);
    var swept := Sweep(store, expiration, now);
    assert key !in swept;
    assert Decisions(events[1..], limits, expiration, swept) == [true];
    assert WindowDecisions(events[1..], limits, log) == [false];
  }

  /** A request of the burst that still fits is granted by both. */
  lemma BurstIsGranted(key: string, limit: Limit, store: Queues, log: Queues, n: nat)
    requires n < Capacity(limit) && Grants(log, key) == Zeros(n)
    requires NonEmptyQueues(store) && Grants(store, key) == Grants(log, key)
    ensures Admits(log, key, limit, 0)
    ensures Ask(store, key, limit, 0) == (store[key := Zeros(n + 1)], true)
  {
    ZerosAreZero(n);
    RecentBounds(Grants(log, key), limit.duration, 0);
    if n == 0 {
      assert key !in store;
      assert Zeros(1) == [0];
    }
  }

  lemma {:induction false} ExpiryRunDiffers(key: string, n: nat, limits: Limits, expiration: nat, store: Queues,
                                            log: Queues)
    requires limits(key).duration > expiration + 1
    requires n <= Capacity(limits(key)) && Grants(log, key) == Zeros(Capacity(limits(key)) - n)
    requires NonEmptyQueues(store) && Grants(store, key) == Grants(log, key)
    ensures Monotone(ExpiryRun(key, n, expiration), 0)
    ensures Decisions(ExpiryRun(key, n, expiration), limits, expiration, store)
         != WindowDecisions(ExpiryRun(key, n, expiration), limits, log)
    decreases n
  {
    var events := ExpiryRun(key, n, expiration);
    if n == 0 {
      ForgottenTooEarly(key, limits, expiration, store, log);
      assert events == [SweepAt(expiration + 1), Request(key, expiration + 1)];
    } else {
      assert events[0] == Request(key, 0) && events[1..] == ExpiryRun(key, n - 1, expiration);
      BurstIsGranted(key, limits(key), store, log, Capacity(limits(key)) - n);
      var next := store[key := Zeros(Capacity(limits(key)) - n + 1)];
      var grown := Grant(log, key, 0, true);
      ExpiryRunDiffers(key, n - 1, limits, expiration, next, grown);
      var left := Decisions(events[1..], limits, expiration, next);
      var right := WindowDecisions(events[1..], limits, grown);
      assert Decisions(events, limits, expiration, store) == [true] + left;
      assert WindowDecisions(events, limits, log) == [true] + right;
      assert ([true] + left)[1..] == left && ([true] + right)[1..] == right;
    }
  }

  lemma ZerosAreZero(n: nat)
    ensures |Zeros(n)| == n && forall i | 0 <= i < n :: Zeros(n)[i] == 0
  {
  }

  /** The sweeper is harmless exactly when no duration exceeds the expiry by more than one second. */
  lemma SweepBoundIsExact(limits: Limits, expiration: nat)
    ensures AgreesOnAllRuns(limits, expiration) <==> ShortDurations(limits, expiration)
  {
    if ShortDurations(limits, expiration) {
      forall events | Monotone(events, 0)
        ensures Decisions(events, limits, expiration, map[]) == WindowDecisions(events, limits, map[])
      {
        EmptyTracks(limits, 0);
        QueuesRefineWindow(events, limits, expiration, map[], map[], 0);
      }
    } else {
      var key :| limits(key).duration > expiration + 1;
      ExpiryRunDiffers(key, Capacity(limits(key)), limits, expiration, map[], map[]);
      assert Monotone(ExpiryRun(key, Capacity(limits(key)), expiration), 0);
    }
  }
}
