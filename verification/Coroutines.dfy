/** The interleaved search with coroutines: a throttled multi-lookup that runs on
    the ring of suspended coroutines. */
module Coroutines {
  import opened Wrappers
  import opened Search
  import opened SchedulerQueue
  import opened EventLog
  import opened CoroutineLedger
  import opened TcAlloc

  /** Every task that has been spawned knows the throttler it reports to. */
  ghost predicate AllOwned(frames: Frames, created: seq<Handle>) {
    forall h {:trigger frames[h]} :: h in frames && h !in created ==> frames[h].owned
  }

  /** The allocator has handed out, besides the foreign blocks, the given ones: n of
      them, all of one size. */
  ghost predicate Holds(alloc: Allocator, size: nat, foreign: set<Handle>, blocks: set<Handle>, n: nat)
    reads alloc
  {
    && alloc.Valid() && alloc.Uniform(size)
    && foreign !! blocks && alloc.live == foreign + blocks
    && |alloc.live| == |foreign| + n
  }

  lemma OwnedUpdate(frames: Frames, h: Handle, c: Coroutine, created: seq<Handle>)
    requires AllOwned(frames, created) && h in frames && h !in created && c.owned == frames[h].owned
    ensures c.owned && AllOwned(frames[h := c], created)
  {
  }

  lemma OwnedButCreated(frames: Frames, h: Handle, c: Coroutine)
    requires AllOwned(frames, [])
    ensures AllOwned(frames[h := c], [h])
  {
  }

  lemma BooksEmpty(v: seq<int>, n: nat)
    ensures Accounts(v, map[], [], [], 0, |Turns(Start)|) && AllOwned(map[], [])
    ensures OnPace(v, map[], Start, [], Newest([])) && Tallied(v, Start, 0, 0) && Shows(Start, n, [], [])
  {
    AccountsEmpty(v);
  }

  newtype uint32 = x: int | 0 <= x < 0x1_0000_0000

  /** One activation of the multi-lookup: its throttler, the two counters its tasks
      write to, and the frames of the tasks it has created. The ring and the frame
      allocator are shared with other activations.

      `lost` are the tasks whose handles an overflowing push has made unreachable. */
  class Throttler {
    const v: seq<int>
    const streams: nat
    const frameSize: nat
    const sched: Ring
    const alloc: Allocator
    ghost const foreign: set<Handle>

    var limit: uint32
    var foundCount: nat
    var notFoundCount: nat
    var frames: Frames

    ghost var spawned: seq<int>
    ghost var lost: seq<Handle>
    ghost var log: Log

    constructor (v: seq<int>, streams: uint32, frameSize: nat, sched: Ring, alloc: Allocator)
      requires sched.Valid() && sched.queued == [] && alloc.Valid() && alloc.Uniform(frameSize)
      ensures this.v == v && this.streams == streams as nat && this.frameSize == frameSize
      ensures this.sched == sched && this.alloc == alloc && foreign == alloc.live
      ensures Inv([], []) && spawned == [] && lost == [] && limit == streams && foundCount == 0 && notFoundCount == 0
      ensures log == Start
    {
      hide Ring.Valid, Accounts, AllOwned, OnPace, Tallied, Shows, Turns;
      this.v, this.streams, this.frameSize, this.sched, this.alloc := v, streams as nat, frameSize, sched, alloc;
      foreign := alloc.live;
      limit, foundCount, notFoundCount, frames := streams, 0, 0, map[];
      spawned, lost, log := [], [], Start;
      new;
      BooksEmpty(v, this.streams);
      assert spawned[..|spawned| - 0] == [];
    }

    /** All unfinished tasks of this activation. */
    ghost function Tasks(running: seq<Handle>, created: seq<Handle>): seq<Handle>
      reads this, sched
    {
      Roll(running, sched.queued, lost, created)
    }

    /** Every key spawned is accounted for. */
    ghost predicate Booked(tasks: seq<Handle>, created: seq<Handle>)
      reads this
    {
      && Accounts(v, frames, tasks, spawned, foundCount + notFoundCount, |Turns(log)|)
      && AllOwned(frames, created)
      && OnPace(v, frames, log, created, Newest(spawned))
      && Tallied(v, log, foundCount, notFoundCount)
    }

    /** The queue, with the running task as its front, is what first-in-first-out
        makes of the turns taken. */
    ghost predicate Logged(queue: seq<Handle>, created: nat)
      reads this
    {
      created <= |spawned| && Shows(log, streams, queue, spawned[..|spawned| - created])
    }

    /** The frames are the blocks taken from the allocator since this activation
        began; n of them belong to unfinished tasks. */
    ghost predicate Allocated(n: nat)
      reads this, alloc
    {
      Holds(alloc, frameSize, foreign, frames.Keys, n)
    }

    /** The limit is what the n tasks in flight leave of the streams. */
    ghost predicate Throttled(n: nat)
      reads this
    {
      && limit as int + n == streams < 0x1_0000_0000
      && |lost| % N == 0
    }

    ghost function Ahead(running: seq<Handle>): seq<Handle>
      reads this, sched
    {
      if running == [] then sched.queued else running + sched.queued
    }

    ghost predicate Inv(running: seq<Handle>, created: seq<Handle>)
      reads this, sched, sched.arr, alloc
    {
      && sched.Valid()
      && Booked(Tasks(running, created), created)
      && Logged(Ahead(running), |created|)
      && Allocated(|Tasks(running, created)|)
      && Throttled(|Ahead(running)| + |lost|)
      && |Ahead(running)| <= N
    }

    /** The body of the coroutine from where it is suspended to the next suspension or
        to its end. The element compared was prefetched before the suspension. */
    method Advance(h: Handle) returns (suspended: bool)
      requires h in frames && Resumable(v, frames[h])
      modifies this`frames, this`foundCount, this`notFoundCount
      ensures h in frames && frames == old(frames)[h := frames[h]]
      ensures suspended ==>
                && Resumable(v, frames[h])
                && frames[h].val == old(frames[h].val) && frames[h].owned == old(frames[h].owned)
                && TurnsLeft(v, frames[h]) + 1 == TurnsLeft(v, old(frames[h]))
                && foundCount == old(foundCount) && notFoundCount == old(notFoundCount)
      ensures !suspended ==>
                && frames == old(frames) && TurnsLeft(v, frames[h]) == 1
                && (if Found(v, frames[h].val)
                    then foundCount == old(foundCount) + 1 && notFoundCount == old(notFoundCount)
                    else foundCount == old(foundCount) && notFoundCount == old(notFoundCount) + 1)
    {
      hide Steps, Answer, Found;
      var c := frames[h];
      var first, len := c.first, c.len;
      if c.at == Initial {
        len := c.last - c.first;
        if len == 0 {
          NothingToSearch(v, c);
        }
      } else {
        var x := v[c.middle];
        TurnIsProbe(v, c);
        if x < c.val {
          first := c.middle;
          first := first + 1;
          len := len - c.half - 1;
        } else {
          len := c.half;
        }
        if x == c.val {
          foundCount := foundCount + 1;
          return false;
        }
      }
      if len > 0 {
        var half := len / 2;
        var middle := first + half;
        assert middle < |v|;
        frames := frames[h := c.(at := AfterPrefetch, first := first, len := len, half := half, middle := middle)];
        return true;
      }
      notFoundCount := notFoundCount + 1;
      return false;
    }

    /** One turn of the running task, entered in the books. A task that has finished
        is off the books, but its frame is not yet released. */
    method RunTurn(h: Handle, ghost created: seq<Handle>) returns (suspended: bool)
      requires Booked(Tasks([h], created), created) && Logged([h] + sched.queued, |created|)
      modifies this`foundCount, this`notFoundCount, this`frames, this`log
      ensures h in frames && frames[h].owned && AllOwned(frames, created) && frames.Keys == old(frames.Keys)
      ensures OnPace(v, if suspended then frames else frames - {h}, log, created, Newest(spawned))
      ensures Tallied(v, log, foundCount, notFoundCount) && LostKeys(log) == old(LostKeys(log))
      ensures Accounts(v, if suspended then frames else frames - {h}, Tasks(if suspended then [h] else [], created),
                       spawned, foundCount + notFoundCount, |Turns(log)|)
      ensures foundCount + notFoundCount == old(foundCount + notFoundCount) + (if suspended then 0 else 1)
      ensures |Turns(log)| == old(|Turns(log)|) + 1
      ensures Logged(if suspended then sched.queued + [h] else sched.queued, |created|)
    {
      hide Accounts, AllOwned, OnPace, Tallied, Roll, Suspended, Answer, Steps, Found, Shows, Turns, TurnsLeft, Total;
      ghost var rest := Tasks([], created);
      RollRunning(h, sched.queued, lost, created);
      AccountsHead(v, frames, h, rest, spawned, foundCount + notFoundCount, |Turns(log)|);
      suspended := Advance(h);
      assert frames.Keys == old(frames.Keys);
      OwnedUpdate(old(frames), h, frames[h], created);
      PaceRan(v, old(frames), log, created, Newest(spawned), h, frames[h], !suspended);
      TalliedRan(v, old(frames), log, created, Newest(spawned), h, !suspended, old(foundCount), old(notFoundCount));
      LogRan(log, h, sched.queued, !suspended, streams, spawned[..|spawned| - |created|]);
      log := Then(log, Ran(h, !suspended));
      if suspended {
        AccountsUpdate(v, old(frames), h, rest, spawned, foundCount + notFoundCount, old(|Turns(log)|),
                       frames[h], 1);
      } else {
        AccountsFinish(v, frames, h, rest, spawned, old(foundCount + notFoundCount), old(|Turns(log)|));
      }
    }

    /** The running task has suspended: it goes to the back of the queue and control
        passes to the front. */
    method Transfer(h: Handle, ghost created: seq<Handle>) returns (next: Handle)
      requires sched.Valid() && |sched.queued| < N
      requires Accounts(v, frames, Tasks([h], created), spawned, foundCount + notFoundCount, |Turns(log)|)
      modifies sched, sched.arr
      ensures sched.Valid() && [next] + sched.queued == old(sched.queued) + [h]
      ensures Accounts(v, frames, Tasks([next], created), spawned, foundCount + notFoundCount, |Turns(log)|)
    {
      hide Accounts, Roll;
      ghost var q := sched.queued;
      sched.PushBack(h);
      next := sched.PopFront();
      assert [next] + sched.queued == q + [h];
      RollTransferred(v, frames, h, q, next, sched.queued, lost, created, spawned, foundCount + notFoundCount,
                      |Turns(log)|);
    }

    /** The running task has finished: `return_void` tells its owner, which raises the
        limit, and leaving the final suspension point releases the frame. */
    method Retire(h: Handle, ghost created: seq<Handle>, ghost n: nat)
      requires h in frames && frames[h].owned && AllOwned(frames, created)
      requires |created| <= n && Allocated(n + 1) && Throttled(n + 1 - |created|)
      modifies this`limit, this`frames, alloc
      ensures frames == old(frames) - {h} && AllOwned(frames, created) && limit as int == old(limit) as int + 1
      ensures Allocated(n) && Throttled(n - |created|)
      ensures alloc.allocCount == old(alloc.allocCount)
    {
      limit := limit + 1;
      frames := frames - {h};
      alloc.Free(h, frameSize);
    }

    /** A turn of the running task and what its end brings about: control passes to the
        front of the queue, or the task is retired. */
    method PlayTurn(h: Handle, ghost created: seq<Handle>) returns (next: Option<Handle>)
      requires Inv([h], created)
      modifies this`limit, this`foundCount, this`notFoundCount, this`frames, this`log, sched, sched.arr, alloc
      ensures match next
              case Some(t) => Inv([t], created) && limit == old(limit)
              case None => Inv([], created) && limit as int == old(limit) as int + 1
      ensures foundCount + notFoundCount == old(foundCount + notFoundCount) + (if next == None then 1 else 0)
      ensures |Turns(log)| == old(|Turns(log)|) + 1 <= Total(TurnsOf(v), spawned)
      ensures LostKeys(log) == old(LostKeys(log))
      ensures |sched.queued| == old(|sched.queued|)
      ensures alloc.allocCount == old(alloc.allocCount)
    {
      hide Accounts, AllOwned, OnPace, Tallied, Roll, Turns, Total, Shows, Holds, Ring.Valid, TurnsOf, LostKeys, Newest;
      AccountsTask(v, frames, Tasks([h], created), spawned, foundCount + notFoundCount, |Turns(log)|, 0);
      var suspended := RunTurn(h, created);
      if !suspended {
        Retire(h, created, |Tasks([], created)|);
        return None;
      }
      var front := Transfer(h, created);
      next := Some(front);
    }

    /** `resume()` on a suspended task, up to its return: the task runs until it
        suspends and transfers control to the front of the queue, which runs in turn,
        until one of them finishes. */
    method Resume(h: Handle, ghost created: seq<Handle>)
      requires Inv([h], created)
      modifies this`limit, this`foundCount, this`notFoundCount, this`frames, this`log, sched, sched.arr, alloc
      ensures Inv([], created)
      ensures limit as int == old(limit) as int + 1
      ensures foundCount + notFoundCount == old(foundCount + notFoundCount) + 1
      ensures LostKeys(log) == old(LostKeys(log))
      ensures |sched.queued| == old(|sched.queued|)
      ensures alloc.allocCount == old(alloc.allocCount)
    {
      hide Inv, Turns, Total, TurnsOf;
      var running := Some(h);
      while running.Some?
        invariant match running
                  case Some(t) => Inv([t], created) && limit == old(limit)
                  case None => Inv([], created) && limit as int == old(limit) as int + 1
        invariant foundCount + notFoundCount
                  == old(foundCount + notFoundCount) + (if running == None then 1 else 0)
        invariant LostKeys(log) == old(LostKeys(log))
        invariant |sched.queued| == old(|sched.queued|)
        invariant alloc.allocCount == old(alloc.allocCount)
        decreases Total(TurnsOf(v), spawned) - |Turns(log)|
      {
        running := PlayTurn(running.value, created);
      }
    }

    /** `operator new` of the coroutine frame. */
    method NewFrame(ghost n: nat) returns (h: Handle)
      requires Allocated(n)
      modifies alloc
      ensures h !in frames && Holds(alloc, frameSize, foreign, frames.Keys + {h}, n + 1)
      ensures alloc.allocCount == Max(old(alloc.allocCount), |foreign| + n + 1)
    {
      h := alloc.Alloc(frameSize);
    }

    /** `CoroBinarySearch(...)`: the frame of a new task is allocated and the task
        suspends at once, without an owner. */
    method Create(key: int) returns (h: Handle)
      requires Inv([], [])
      modifies this`frames, this`spawned, alloc
      ensures Inv([], [h]) && spawned == old(spawned) + [key]
      ensures alloc.allocCount == Max(old(alloc.allocCount), |foreign| + |sched.queued| + |lost| + 1)
    {
      hide Accounts, AllOwned, OnPace, Tallied, Roll, Shows, Turns, Total, Holds;
      h := NewFrame(|Tasks([], [])|);
      AccountsCreate(v, frames, Tasks([], []), spawned, foundCount + notFoundCount, |Turns(log)|, h, key);
      OwnedButCreated(frames, h, Fresh(v, key));
      PaceCreated(v, frames, log, Newest(spawned), h, key);
      frames := frames[h := Fresh(v, key)];
      spawned := spawned + [key];
      RollCreated(v, frames, h, sched.queued, lost, spawned, foundCount + notFoundCount, |Turns(log)|);
      assert frames.Keys == old(frames.Keys) + {h};
      assert spawned[..|spawned| - 1] == old(spawned) == old(spawned[..|spawned| - 0]);
    }

    /** `set_owner` on a task that has just been created. */
    method SetOwner(h: Handle)
      requires Booked(Tasks([], [h]), [h])
      modifies this`frames
      ensures frames.Keys == old(frames.Keys) && AllOwned(frames, []) && h !in sched.queued
      ensures OnPace(v, frames, log, [h], Newest(spawned))
      ensures Accounts(v, frames, [h] + Tasks([], []), spawned, foundCount + notFoundCount, |Turns(log)|)
    {
      hide Accounts, OnPace, Tallied, Roll, Turns, Total;
      ghost var others := Tasks([], []);
      RollCreated(v, frames, h, sched.queued, lost, spawned, foundCount + notFoundCount, |Turns(log)|);
      AccountsHead(v, frames, h, others, spawned, foundCount + notFoundCount, |Turns(log)|);
      RollRunning(h, sched.queued, lost, []);
      var c := frames[h].(owned := true);
      AccountsUpdate(v, frames, h, others, spawned, foundCount + notFoundCount, |Turns(log)|, c, 0);
      PaceOwned(v, frames, log, Newest(spawned), h);
      frames := frames[h := c];
      assert frames.Keys == old(frames.Keys);
    }

    /** The books when a task is pushed. */
    ghost method RecordSpawn(h: Handle)
      requires Accounts(v, frames, [h] + Tasks([], []), spawned, foundCount + notFoundCount, |Turns(log)|)
      requires AllOwned(frames, []) && OnPace(v, frames, log, [h], Newest(spawned))
      requires Tallied(v, log, foundCount, notFoundCount)
      requires Logged(sched.queued, 1) && h !in sched.queued && |sched.queued| < streams && |sched.queued| <= N
      modifies this`lost, this`log
      ensures lost == if |sched.queued| < N then old(lost) else sched.queued + old(lost)
      ensures Booked(Roll([], Pushed(sched.queued, h), lost, []), []) && Logged(Pushed(sched.queued, h), 0)
      ensures LostKeys(log) == if |sched.queued| < N then old(LostKeys(log))
                               else old(KeysOf(log, sched.queued) + LostKeys(log))
    {
      hide Accounts, AllOwned, OnPace, Roll, Shows, Turns, FinishedKeys, LostKeys, KeysOf, Hits;
      var q := sched.queued;
      PaceSpawned(v, frames, log, Newest(spawned), h);
      LogSpawned(log, h, Newest(spawned), q, streams, spawned[..|spawned| - 1]);
      assert spawned[..|spawned| - 1] + [Newest(spawned)] == spawned == spawned[..|spawned| - 0];
      log := Then(log, Spawned(h, Newest(spawned)));
      RollSpawned(v, frames, h, q, lost, spawned, foundCount + notFoundCount, |Turns(log)|);
      if |q| == N {
        lost := q + lost;
      }
    }

    /** The new task is put at the back of the queue and charged against the limit. A
        push that overflows the ring loses a whole round of it. */
    method Enqueue(h: Handle)
      requires Inv([], [h]) && limit > 0
      modifies this`limit, this`frames, this`lost, this`log, sched, sched.arr
      ensures Inv([], []) && limit as int == old(limit) as int - 1
      ensures if old(|sched.queued|) < N
              then && |sched.queued| == old(|sched.queued|) + 1 && |lost| == old(|lost|)
                   && LostKeys(log) == old(LostKeys(log))
              else && |sched.queued| == 1 && |lost| == old(|lost|) + N
                   && LostKeys(log) == old(KeysOf(log, sched.queued) + LostKeys(log))
    {
      hide Accounts, AllOwned, OnPace, Tallied, Roll, Shows, Turns, LostKeys, KeysOf, Holds, Ring.Valid, Newest;
      SetOwner(h);
      RecordSpawn(h);
      sched.PushBack(h);
      limit := limit - 1;
    }

    /** The front of the queue leaves it to run. */
    method PopTask(ghost created: seq<Handle>) returns (h: Handle)
      requires Inv([], created) && sched.queued != []
      modifies sched
      ensures Inv([h], created) && |sched.queued| + 1 == old(|sched.queued|)
    {
      hide Accounts, AllOwned, OnPace, Tallied, Roll, Turns, Allocated, Throttled, Logged, Ring.Valid;
      RollPopped(sched.queued, lost, created);
      ghost var q := sched.queued;
      h := sched.PopFront();
      assert [h] + sched.queued == q;
    }

    /** As `PopTask`, but only if the ring does not look empty. */
    method TryPopTask() returns (h: Option<Handle>)
      requires Inv([], [])
      modifies sched
      ensures h == None <==> old(|sched.queued|) == 0 || old(|sched.queued|) == N
      ensures h == None ==> Inv([], []) && sched.queued == old(sched.queued)
      ensures h.Some? ==> Inv([h.value], []) && |sched.queued| + 1 == old(|sched.queued|)
    {
      hide Accounts, AllOwned, OnPace, Tallied, Roll, Turns, Allocated, Throttled, Logged, Ring.Valid;
      ghost var q := sched.queued;
      h := sched.TryPopFront();
      if h.Some? {
        RollPopped(q, lost, []);
        assert [h.value] + sched.queued == q;
      }
    }

    /** Starts a task. When the limit is used up, first a task has to finish. */
    method Spawn(h: Handle)
      requires Inv([], [h]) && 1 <= streams && (sched.queued == [] ==> lost == [])
      modifies this`limit, this`foundCount, this`notFoundCount, this`frames, this`lost, this`log
      modifies sched, sched.arr, alloc
      ensures Inv([], []) && alloc.allocCount == old(alloc.allocCount)
      ensures if old(limit) == 0
              then && limit == 0 && foundCount + notFoundCount == old(foundCount + notFoundCount) + 1
                   && |sched.queued| == old(|sched.queued|) && |lost| == old(|lost|)
                   && LostKeys(log) == old(LostKeys(log))
              else && limit as int == old(limit) as int - 1
                   && foundCount + notFoundCount == old(foundCount + notFoundCount)
                   && (if old(|sched.queued|) < N
                       then && |sched.queued| == old(|sched.queued|) + 1 && |lost| == old(|lost|)
                            && LostKeys(log) == old(LostKeys(log))
                       else && |sched.queued| == 1 && |lost| == old(|lost|) + N
                            && LostKeys(log) == old(KeysOf(log, sched.queued) + LostKeys(log)))
    {
      hide Booked, Roll, Holds, Logged, LostKeys;
      if limit == 0 {
        var front := PopTask([h]);
        Resume(front, [h]);
      }
      Enqueue(h);
    }

    /** Resumes the front of the queue until the ring looks empty. */
    method Run()
      requires Inv([], [])
      modifies this`limit, this`foundCount, this`notFoundCount, this`frames, this`log, sched, sched.arr, alloc
      ensures Inv([], []) && sched.Drained() && alloc.allocCount == old(alloc.allocCount)
      ensures |sched.queued| == if old(|sched.queued|) == N then N else 0
      ensures foundCount + notFoundCount == old(foundCount + notFoundCount) + old(|sched.queued|) - |sched.queued|
      ensures sched.queued == [] && lost == [] ==> limit as nat == streams
      ensures old(|sched.queued|) == 0 || old(|sched.queued|) == N ==>
                log == old(log) && foundCount == old(foundCount) && notFoundCount == old(notFoundCount)
      ensures LostKeys(log) == old(LostKeys(log))
    {
      hide Booked, Roll, Allocated, Logged, LostKeys;
      ghost var n := |sched.queued|;
      while true
        invariant Inv([], []) && alloc.allocCount == old(alloc.allocCount)
        invariant |sched.queued| <= n && (n == N ==> |sched.queued| == N) && LostKeys(log) == old(LostKeys(log))
        invariant foundCount + notFoundCount == old(foundCount + notFoundCount) + n - |sched.queued|
        invariant |sched.queued| == n ==>
                    log == old(log) && foundCount == old(foundCount) && notFoundCount == old(notFoundCount)
        decreases |sched.queued|
      {
        var h := TryPopTask();
        if h == None {
          return;
        }
        Resume(h.value, []);
      }
    }
  }

  function Min(a: nat, b: nat): nat {
    if a <= b then a else b
  }

  function Max(a: nat, b: nat): nat {
    if a <= b then b else a
  }

  /** The tasks a ring of N slots has lost when s of them are in flight: every round
      of the ring that has been overwritten. */
  function Overwritten(s: nat): nat {
    if s == 0 then 0 else N * ((s - 1) / N)
  }

  lemma OneMoreInFlight(s: nat)
    ensures Overwritten(s) <= s && s - Overwritten(s) <= N && Overwritten(s) % N == 0
    ensures 0 < s ==> 0 < s - Overwritten(s)
    ensures Overwritten(s + 1) == (if s - Overwritten(s) == N then s else Overwritten(s))
    ensures s - Overwritten(s) == N ==> N * (s / N) == s
    ensures s - Overwritten(s) < N ==> N * (s / N) == Overwritten(s)
  {
  }
}
