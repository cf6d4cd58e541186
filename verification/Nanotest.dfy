/** The benchmark driver: its test data and its loop over the chosen algorithm. */
module Nanotest {
  import opened Search
  import opened SchedulerQueue
  import opened TcAlloc
  import Coroutines
  import StateMachine
  import MultiLookup
  import EventLog
  import CoroutineLedger

  const SIZE_OF_INT: nat := 4

  datatype Algorithm = Naive | Sm | Coro

  function Evens(count: nat): seq<int> {
    seq(count, i => i + i)
  }

  /** The sorted vector that is searched. */
  method BuildVector(byteCount: nat) returns (v: seq<int>)
    ensures v == Evens(byteCount / SIZE_OF_INT)
    ensures |v| == byteCount / 4 && forall i :: 0 <= i < |v| ==> v[i] == 2 * i
  {
    var count := byteCount / SIZE_OF_INT;
    v := [];
    for i := 0 to count
      invariant v == Evens(i)
    {
      v := v + [i + i];
    }
  }

  /** The keys found in it are the even ones in its range. */
  lemma EvensFound(count: nat, key: int)
    ensures Found(Evens(count), key) <==> key % 2 == 0 && 0 <= key < 2 * count
  {
    var v := Evens(count);
    SortedFound(v, key);
    if key % 2 == 0 && 0 <= key < 2 * count {
      assert v[key / 2] == key;
    }
  }

  /** The tasks left behind by one run, when it is the coroutines that run: those that
      are first in the list of keys, and all. */
  ghost function LostFirst(algo: Algorithm, streams: nat, lookups: seq<int>): nat {
    if algo == Coro then Coroutines.Overwritten(Coroutines.Min(streams, |lookups|)) else 0
  }

  ghost function LostInAll(algo: Algorithm, streams: nat, lookups: seq<int>): nat {
    if algo == Coro then N * (Coroutines.Min(streams, |lookups|) / N) else 0
  }

  /** The hits of the keys that are not lost, where it is known which these are. Else
      the difference is at most one ring. */
  ghost predicate Counts(algo: Algorithm, v: seq<int>, lookups: seq<int>, streams: nat, runs: nat, sum: int) {
    var (first, lost) := (LostFirst(algo, streams, lookups), LostInAll(algo, streams, lookups));
    && first <= lost <= |lookups|
    && sum <= runs * Hits(v, lookups[first..]) <= sum + runs * (lost - first)
    && (|lookups| <= streams ==> sum == runs * Hits(v, lookups[lost..]))
    && (lost == 0 ==> sum == runs * Hits(v, lookups))
  }

  /** The blocks that the tasks left behind by some runs have in use. */
  ghost function LeftInUse(algo: Algorithm, streams: nat, lookups: seq<int>, runs: nat): nat {
    runs * LostInAll(algo, streams, lookups)
  }

  lemma OneMoreInUse(algo: Algorithm, streams: nat, lookups: seq<int>, runs: nat)
    ensures LeftInUse(algo, streams, lookups, 0) == 0
    ensures LeftInUse(algo, streams, lookups, runs + 1)
            == LeftInUse(algo, streams, lookups, runs) + LostInAll(algo, streams, lookups)
  {
    hide LostInAll;
    Distribute(runs, LostInAll(algo, streams, lookups));
  }

  lemma PlainCount(algo: Algorithm, v: seq<int>, lookups: seq<int>, streams: nat)
    requires algo != Coro
    ensures Counts(algo, v, lookups, streams, 1, Hits(v, lookups))
  {
    hide Hits;
    assert lookups[0..] == lookups;
  }

  lemma CoroCount(v: seq<int>, lookups: seq<int>, streams: nat, found: nat, notFound: nat, log: EventLog.Log)
    requires MultiLookup.Reports(v, lookups, streams, found, notFound, log)
    requires Coroutines.Min(streams, |lookups|) < N ==> found == Hits(v, lookups)
    ensures Counts(Coro, v, lookups, streams, 1, found)
  {
    hide Hits, EventLog.Conserved, CoroutineLedger.Tallied, Coroutines.Overwritten;
    MultiLookup.LeftBehind(Coroutines.Min(streams, |lookups|));
  }

  method RunOnce(algo: Algorithm, v: seq<int>, lookups: seq<int>, streams: Coroutines.uint32, frameSize: nat,
                 sched: Ring, alloc: Allocator) returns (result: nat)
    requires 1 <= streams <= 0x7FFF_FFFF
    requires sched.Valid() && sched.Drained() && alloc.Valid() && alloc.Uniform(frameSize)
    modifies sched, sched.arr, alloc
    ensures sched.Valid() && sched.Drained() && alloc.Valid() && alloc.Uniform(frameSize)
    ensures Counts(algo, v, lookups, streams as nat, 1, result)
    ensures var lost := LostInAll(algo, streams as nat, lookups);
            && |alloc.live| == old(|alloc.live|) + lost
            && (lost == 0 ==> alloc.live == old(alloc.live))
    ensures alloc.allocCount == if algo == Coro
                                then Blocks(old(alloc.allocCount), old(|alloc.live|), streams as nat, lookups)
                                else old(alloc.allocCount)
  {
    hide Hits, Counts, MultiLookup.Reports;
    match algo {
      case Naive =>
        result := TestNaive(v, lookups);
        PlainCount(algo, v, lookups, streams as nat);
      case Sm =>
        ghost var runs, filling;
        result, runs, filling := StateMachine.SmMultiLookup(v, lookups, streams as nat);
        PlainCount(algo, v, lookups, streams as nat);
      case Coro =>
        var notFound, bug;
        ghost var log;
        result, notFound, bug, log := MultiLookup.CoroMultiLookup(sched, alloc, v, lookups, streams, frameSize);
        MultiLookup.LeftBehind(Coroutines.Min(streams as nat, |lookups|));
        CoroCount(v, lookups, streams as nat, result, notFound, log);
    }
  }

  /** The blocks ever obtained once a coroutine multi-lookup has run. */
  ghost function Blocks(before: nat, live: nat, streams: nat, lookups: seq<int>): nat {
    Coroutines.Max(before, live + Coroutines.Min(|lookups|, streams + 1))
  }

  /** Each run finds the blocks in use that the ones before have left behind. */
  ghost function BlocksAfter(algo: Algorithm, before: nat, live: nat, streams: nat, lookups: seq<int>, runs: nat): nat {
    if algo == Coro && runs > 0
    then Blocks(before, live + LeftInUse(algo, streams, lookups, runs - 1), streams, lookups)
    else before
  }

  lemma OneMore(algo: Algorithm, v: seq<int>, lookups: seq<int>, streams: nat, runs: nat, sum: int, result: int)
    requires Counts(algo, v, lookups, streams, runs, sum) && Counts(algo, v, lookups, streams, 1, result)
    ensures Counts(algo, v, lookups, streams, runs + 1, sum + result)
  {
    hide Hits, LostFirst, LostInAll;
    var (first, lost) := (LostFirst(algo, streams, lookups), LostInAll(algo, streams, lookups));
    Distribute(runs, Hits(v, lookups[first..]));
    Distribute(runs, Hits(v, lookups[lost..]));
    Distribute(runs, Hits(v, lookups));
    Distribute(runs, lost - first);
  }

  lemma Distribute(runs: nat, x: nat)
    ensures (runs + 1) * x == runs * x + x
  {
  }

  /** The sum over all repetitions is that many times the count of one, whichever
      algorithm is chosen: the hits of the plain loop, unless the ring loses tasks.

      Then each repetition leaves the blocks of the lost tasks in use. If there are
      none, only the first one obtains memory. */
  method RunRepeatedly(algo: Algorithm, v: seq<int>, lookups: seq<int>, streams: Coroutines.uint32, repetitions: int,
                       expected: int, frameSize: nat, sched: Ring, alloc: Allocator) returns (sum: int, ok: bool)
    requires 1 <= streams <= 0x7FFF_FFFF
    requires sched.Valid() && sched.Drained() && alloc.Valid() && alloc.Uniform(frameSize)
    modifies sched, sched.arr, alloc
    ensures var runs: nat := if repetitions < 0 then 0 else repetitions;
            && Counts(algo, v, lookups, streams as nat, runs, sum)
            && (algo != Coro || |lookups| <= 255 || streams <= 255 ==> sum == runs * Hits(v, lookups))
            && |alloc.live| == old(|alloc.live|) + LeftInUse(algo, streams as nat, lookups, runs)
            && alloc.allocCount
               == BlocksAfter(algo, old(alloc.allocCount), old(|alloc.live|), streams as nat, lookups, runs)
    ensures ok <==> sum == expected
  {
    hide Hits, Counts, LeftInUse, LostInAll;
    sum := 0;
    var left := repetitions;
    ghost var done: nat := 0;
    NoRuns(algo, v, lookups, streams as nat);
    OneMoreInUse(algo, streams as nat, lookups, 0);
    while left > 0
      invariant left + done == repetitions && (if repetitions < 0 then done == 0 else 0 <= left)
      invariant sched.Valid() && sched.Drained() && alloc.Valid() && alloc.Uniform(frameSize)
      invariant Counts(algo, v, lookups, streams as nat, done, sum)
      invariant |alloc.live| == old(|alloc.live|) + LeftInUse(algo, streams as nat, lookups, done)
      invariant alloc.allocCount
                == BlocksAfter(algo, old(alloc.allocCount), old(|alloc.live|), streams as nat, lookups, done)
    {
      left := left - 1;
      var result := RunOnce(algo, v, lookups, streams, frameSize, sched, alloc);
      OneMore(algo, v, lookups, streams as nat, done, sum, result);
      OneMoreInUse(algo, streams as nat, lookups, done);
      if done > 0 {
        OneMoreInUse(algo, streams as nat, lookups, done - 1);
      }
      sum := sum + result;
      done := done + 1;
    }
    ok := sum == expected;
    EnoughRoom(algo, v, lookups, streams as nat, done, sum);
  }

  lemma EnoughRoom(algo: Algorithm, v: seq<int>, lookups: seq<int>, streams: nat, runs: nat, sum: int)
    requires Counts(algo, v, lookups, streams, runs, sum)
    ensures algo != Coro || |lookups| <= 255 || streams <= 255 ==> sum == runs * Hits(v, lookups)
  {
    hide Hits;
    MultiLookup.LeftBehind(Coroutines.Min(streams, |lookups|));
  }

  lemma NoRuns(algo: Algorithm, v: seq<int>, lookups: seq<int>, streams: nat)
    ensures Counts(algo, v, lookups, streams, 0, 0)
  {
    hide Hits;
    MultiLookup.LeftBehind(Coroutines.Min(streams, |lookups|));
  }
}
