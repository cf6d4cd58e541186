/** `CoroMultiLookup`: all lookups of a list as coroutines, a limited number of them
    in flight. */
module MultiLookup {
  import opened Search
  import opened SchedulerQueue
  import opened EventLog
  import opened CoroutineLedger
  import opened TcAlloc
  import opened Coroutines

  /** The state of the multi-lookup when it has taken k of the keys. */
  ghost predicate Spawning(t: Throttler, lookups: seq<int>, k: nat, blocks: nat)
    reads t, t.sched, t.sched.arr, t.alloc
    requires k <= |lookups|
  {
    var s := Min(k, t.streams);
    && 1 <= t.streams
    && t.Inv([], [])
    && t.spawned == lookups[..k]
    && t.limit as nat + s == t.streams
    && |t.lost| == Overwritten(s) && |t.sched.queued| == s - Overwritten(s)
    && t.foundCount + t.notFoundCount == k - s
    && |t.lost| <= k && multiset(LostKeys(t.log)) == multiset(lookups[..|t.lost|])
    && t.alloc.allocCount == Max(blocks, |t.foreign| + Min(k, t.streams + 1))
  }

  /** One iteration over the list of keys: `t.spawn(CoroBinarySearch(...))`. */
  method SpawnNext(t: Throttler, lookups: seq<int>, k: nat, ghost blocks: nat)
    requires k < |lookups| && Spawning(t, lookups, k, blocks)
    modifies t, t.sched, t.sched.arr, t.alloc
    ensures Spawning(t, lookups, k + 1, blocks)
  {
    hide Throttler.Inv, Overwritten, LostKeys, KeysOf;
    NothingFinished(t, lookups[..k]);
    OneMoreInFlight(Min(k, t.streams));
    assert lookups[..k + 1] == lookups[..k] + [lookups[k]];
    var task := t.Create(lookups[k]);
    t.Spawn(task);
  }

  /** As long as no task has finished, all keys spawned belong to tasks that wait. */
  lemma NothingFinished(t: Throttler, keys: seq<int>)
    requires t.Inv([], []) && t.spawned == keys
    ensures t.foundCount + t.notFoundCount == 0 ==>
              multiset(KeysOf(t.log, t.sched.queued) + LostKeys(t.log)) == multiset(keys)
  {
    hide Accounts, OnPace, Hits, KeysOf, LostKeys;
    KeysConserved(t.log);
    assert keys[..|keys| - 0] == keys;
  }

  /** What the books say once nothing is running. */
  lemma Settled(t: Throttler, n: nat)
    requires t.Inv([], []) && n == |t.sched.queued| + |t.lost|
    ensures Tallied(t.v, t.log, t.foundCount, t.notFoundCount)
    ensures t.foundCount + t.notFoundCount + n == |t.spawned|
    ensures n == 0 ==> |Turns(t.log)| == Comparisons(t.v, t.spawned) + |t.spawned| && t.alloc.live == t.foreign
    ensures Legal(t.log) && Bounded(t.log, t.streams)
    ensures SpawnedKeys(t.log) == t.spawned && Replay(t.log) == t.sched.queued
    ensures Timely(t.v, t.log) && TurnsLimited(t.log, if |t.v| == 0 then 1 else Log2(|t.v|) + 2)
    ensures t.sched.Valid() && t.alloc.Valid() && t.alloc.Uniform(t.frameSize) && |t.alloc.live| == |t.foreign| + n
  {
    hide Accounts, AllOwned, OnPace, Tallied, Timely, Legal, Bounded, Replay, Turns, SpawnedKeys, TurnsLimited;
    hide Roll, Ring.Valid, Allocator.Valid, Allocator.Uniform, Log2, Comparisons;
    var tasks := t.Tasks([], []);
    AccountsEnd(t.v, t.frames, tasks, t.spawned, t.foundCount + t.notFoundCount, |Turns(t.log)|);
    PaceIsTimely(t.v, t.frames, t.log);
    assert t.spawned[..|t.spawned| - 0] == t.spawned;
    if n == 0 {
      AccountsNone(t.v, t.frames, t.spawned, t.foundCount + t.notFoundCount, |Turns(t.log)|);
    }
  }

  lemma InFlightBound(log: Log, streams: nat, spawns: nat)
    requires Legal(log) && Bounded(log, streams) && |SpawnedKeys(log)| == spawns
    requires Min(streams, spawns) < N
    ensures Bounded(log, N - 1)
  {
    BoundedBySpawns(log, spawns);
    if streams < N {
      BoundedMonotone(log, streams, N - 1);
    } else {
      BoundedMonotone(log, spawns, N - 1);
    }
  }

  /** The rounds of the ring in which the tasks are left behind. */
  lemma LeftBehind(s: nat)
    ensures Overwritten(s) + (if s - Overwritten(s) == N then N else 0) == N * (s / N)
    ensures N * (s / N) == 0 <==> s < N
    ensures Overwritten(s) <= N * (s / N) <= s
  {
    OneMoreInFlight(s);
  }

  /** What a multi-lookup reports when its tasks have run as the log says: the keys of
      those that have finished, and whether each was found.

      The other tasks are lost. With s tasks in flight, all but the last overwritten
      round of the ring have the first keys of the list; the tasks of the last one are
      left in the ring, and have the next keys if none has made room for another. */
  ghost predicate Reports(v: seq<int>, lookups: seq<int>, streams: nat, found: nat, notFound: nat, log: Log) {
    var s := Min(streams, |lookups|);
    var (first, lost) := (Overwritten(s), N * (s / N));
    && first <= lost <= |lookups|
    && SpawnedKeys(log) == lookups
    && Conserved(FinishedKeys(log), KeysOf(log, Replay(log)), lookups[..first], lookups)
    && |FinishedKeys(log)| == |lookups| - lost && |Replay(log)| == lost - first
    && Tallied(v, log, found, notFound)
    && found <= Hits(v, lookups[first..]) <= found + (lost - first)
    && (|lookups| <= streams ==> found == Hits(v, lookups[lost..]))
  }

  lemma HitsConserved(v: seq<int>, finished: seq<int>, queued: seq<int>, lost: seq<int>, keys: seq<int>)
    requires Conserved(finished, queued, lost, keys)
    ensures Hits(v, keys) == Hits(v, finished) + Hits(v, queued) + Hits(v, lost)
  {
    hide HitOf, Total;
    TotalConcat(HitOf(v), finished, queued);
    TotalConcat(HitOf(v), finished + queued, lost);
    TotalPermutation(HitOf(v), keys, finished + queued + lost);
  }

  lemma HitsAtMost(v: seq<int>, keys: seq<int>)
    ensures Hits(v, keys) <= |keys|
    ensures keys == [] ==> Hits(v, keys) == 0
  {
    TotalBound(HitOf(v), keys, 1);
  }

  /** So much follows from the tasks that are lost before anything runs, and those left
      in a ring that is completely full. */
  lemma Reported(v: seq<int>, lookups: seq<int>, streams: nat, found: nat, notFound: nat, log: Log)
    requires Legal(log) && SpawnedKeys(log) == lookups && Tallied(v, log, found, notFound)
    requires var s := Min(streams, |lookups|);
             && found + notFound == |lookups| - N * (s / N)
             && multiset(LostKeys(log)) == multiset(lookups[..Overwritten(s)])
             && |Replay(log)| == if s - Overwritten(s) == N then N else 0
    ensures Reports(v, lookups, streams, found, notFound, log)
    ensures Min(streams, |lookups|) < N ==> found == Hits(v, lookups)
  {
    hide Hits, Overwritten, KeysOf, Legal, Replay, SpawnedKeys, FinishedKeys, LostKeys;
    var s := Min(streams, |lookups|);
    LeftBehind(s);
    KeysConserved(log);
    var finished, left, first := FinishedKeys(log), KeysOf(log, Replay(log)), lookups[..Overwritten(s)];
    HitsConserved(v, finished, left, first, lookups);
    HitsFrom(v, lookups, Overwritten(s));
    HitsAtMost(v, left);
    HitsAtMost(v, finished);
    HitsAtMost(v, lookups[|lookups|..]);
    assert lookups[0..] == lookups;
  }

  /** The hits of a list from its m-th key on. */
  lemma HitsFrom(v: seq<int>, lookups: seq<int>, m: nat)
    requires m <= |lookups|
    ensures Hits(v, lookups) == Hits(v, lookups[..m]) + Hits(v, lookups[m..])
  {
    assert lookups == lookups[..m] + lookups[m..];
    TotalConcat(HitOf(v), lookups[..m], lookups[m..]);
  }

  /** The number of hits is that of the plain loop, and every key is reported as
      found or not, exactly as long as the tasks in flight fit into the ring: one slot
      of it must stay free. Beyond that, the tasks of every round of the ring that was
      overwritten are never resumed again; nothing else goes wrong.

      Every task that finishes has been resumed once more than its search makes
      comparisons, so never more than floor(log2 n) + 2 times.

      From an empty allocator, the frames take as many blocks as there can be tasks at
      once: a task is created before `spawn` makes room for it. */
  method CoroMultiLookup(sched: Ring, alloc: Allocator, v: seq<int>, lookups: seq<int>, streams: uint32, frameSize: nat)
    returns (found: nat, notFound: nat, bug: bool, ghost log: Log)
    requires sched.Valid() && sched.Drained() && alloc.Valid() && alloc.Uniform(frameSize)
    requires 1 <= streams <= 0x7FFF_FFFF
    modifies sched, sched.arr, alloc
    ensures sched.Valid() && sched.Drained() && alloc.Valid() && alloc.Uniform(frameSize)
    ensures Reports(v, lookups, streams as nat, found, notFound, log)
    ensures var inFlight := Min(streams as nat, |lookups|);
            && |alloc.live| == old(|alloc.live|) + N * (inFlight / N)
    ensures bug <==> 256 <= |lookups| && 256 <= streams
    ensures |lookups| <= 255 || streams <= 255 ==> !bug && found == Hits(v, lookups) && found + notFound == |lookups|
    ensures !bug ==>
              && found == Hits(v, lookups)
              && |Turns(log)| == Comparisons(v, lookups) + |lookups|
              && Bounded(log, N - 1)
              && alloc.live == old(alloc.live)
    ensures Legal(log) && Bounded(log, streams as nat)
    ensures Timely(v, log) && TurnsLimited(log, if |v| == 0 then 1 else Log2(|v|) + 2)
    ensures alloc.allocCount == Max(old(alloc.allocCount), old(|alloc.live|) + Min(|lookups|, streams as nat + 1))
  {
    hide Throttler.Inv, TurnsLimited, Log2, Hits, Reports, LostKeys, FinishedKeys, Timely, Tallied;
    sched.Forget();
    var t := new Throttler(v, streams, frameSize, sched, alloc);
    Started(t, lookups, alloc.allocCount);
    for k := 0 to |lookups|
      invariant t.v == v && t.streams == streams as nat && t.frameSize == frameSize
      invariant t.sched == sched && t.alloc == alloc
      invariant fresh(t) && t.foreign == old(alloc.live)
      invariant Spawning(t, lookups, k, old(alloc.allocCount))
    {
      SpawnNext(t, lookups, k, old(alloc.allocCount));
    }
    assert lookups[..|lookups|] == lookups;
    ghost var lost := N * (Min(streams as nat, |lookups|) / N);
    LeftBehind(Min(streams as nat, |lookups|));
    t.Run();
    Settled(t, lost);
    found, notFound := t.foundCount, t.notFoundCount;
    bug := found + notFound != |lookups|;
    t.Run();
    Settled(t, lost);
    log := t.log;
    Reported(v, lookups, streams as nat, found, notFound, log);
    if lost == 0 {
      InFlightBound(log, streams as nat, |lookups|);
    }
  }

  lemma Started(t: Throttler, lookups: seq<int>, blocks: nat)
    requires 1 <= t.streams && t.Inv([], []) && t.spawned == [] && t.lost == [] && t.limit as nat == t.streams
    requires t.foundCount == 0 && t.notFoundCount == 0 && blocks == t.alloc.allocCount && t.log == Start
    ensures Spawning(t, lookups, 0, blocks)
  {
    hide Throttler.Booked, Throttler.Logged;
    assert lookups[..0] == [];
  }

  /** The largest number of streams that the ring has room for. */
  method RingJustLargeEnough(v: seq<int>, lookups: seq<int>) returns (found: nat, notFound: nat, bug: bool)
    requires |lookups| == 1024
    ensures !bug && found + notFound == 1024 && found == Hits(v, lookups)
  {
    hide TurnsLimited, Log2, Timely;
    var sched := new Ring();
    var alloc := new Allocator();
    ghost var log;
    found, notFound, bug, log := CoroMultiLookup(sched, alloc, v, lookups, 255, 100);
  }

  /** An instance beyond the ring: 256 streams fill it completely, and of 1024 tasks
      only 768 finish. */
  method RingCompletelyFull(v: seq<int>, lookups: seq<int>) returns (found: nat, notFound: nat, bug: bool)
    requires |lookups| == 1024
    ensures bug && found + notFound == 768
  {
    hide TurnsLimited, Log2, Timely;
    var sched := new Ring();
    var alloc := new Allocator();
    ghost var log;
    found, notFound, bug, log := CoroMultiLookup(sched, alloc, v, lookups, 256, 100);
  }
}
