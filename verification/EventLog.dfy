/** The order in which the scheduler runs its tasks, as a log of events. */
module EventLog {
  import opened SchedulerQueue

  /** A task that looks up a key is put on the queue for the first time, or runs for one
      turn: until it suspends again or finishes. */
  datatype Event = Spawned(h: Handle, key: int) | Ran(h: Handle, finished: bool)

  datatype Log = Start | Then(before: Log, event: Event)

  ghost function QueueAfter(q: seq<Handle>, e: Event): seq<Handle> {
    match e
    case Spawned(h, _) => Pushed(q, h)
    case Ran(_, finished) => if q == [] then [] else q[1..] + (if finished then [] else [q[0]])
  }

  /** The queue after a log, a running task being counted as its front until its
      turn is over. */
  ghost function Replay(log: Log): seq<Handle> {
    if log == Start then [] else QueueAfter(Replay(log.before), log.event)
  }

  /** Only the front of the queue runs, and no task is spawned that is queued already. */
  ghost predicate Allowed(q: seq<Handle>, e: Event) {
    match e
    case Spawned(h, _) => h !in q
    case Ran(h, _) => q != [] && q[0] == h
  }

  ghost predicate Legal(log: Log) {
    log == Start || (Legal(log.before) && Allowed(Replay(log.before), log.event))
  }

  /** The queue was never longer than n. */
  ghost predicate Bounded(log: Log, n: nat) {
    |Replay(log)| <= n && (log == Start || Bounded(log.before, n))
  }

  /** The tasks that ran, turn by turn. */
  ghost function Turns(log: Log): seq<Handle> {
    if log == Start then []
    else Turns(log.before) + (if log.event.Ran? then [log.event.h] else [])
  }

  /** The keys of the tasks that were spawned, in order. */
  ghost function SpawnedKeys(log: Log): seq<int> {
    if log == Start then []
    else if log.event.Spawned? then SpawnedKeys(log.before) + [log.event.key]
    else SpawnedKeys(log.before)
  }

  /** The key that task h, as it was last spawned, looks up. */
  ghost function KeyOf(log: Log, h: Handle): int {
    if log == Start then 0
    else if log.event.Spawned? && log.event.h == h then log.event.key
    else KeyOf(log.before, h)
  }

  ghost function KeysOf(log: Log, q: seq<Handle>): (r: seq<int>)
    ensures |r| == |q|
  {
    seq(|q|, i requires 0 <= i < |q| => KeyOf(log, q[i]))
  }

  /** The keys of the tasks that have finished, in order. */
  ghost function FinishedKeys(log: Log): seq<int> {
    if log == Start then []
    else if log.event.Ran? && log.event.finished
    then FinishedKeys(log.before) + [KeyOf(log.before, log.event.h)]
    else FinishedKeys(log.before)
  }

  /** The keys of the tasks that a push on the full ring has made unreachable. */
  ghost function LostKeys(log: Log): seq<int> {
    if log == Start then []
    else if log.event.Spawned? && |Replay(log.before)| >= N
    then KeysOf(log.before, Replay(log.before)) + LostKeys(log.before)
    else LostKeys(log.before)
  }

  /** Every key spawned is that of a task that has finished, is queued, or is lost. */
  ghost predicate Conserved(finished: seq<int>, queued: seq<int>, lost: seq<int>, spawned: seq<int>) {
    multiset(finished) + multiset(queued) + multiset(lost) == multiset(spawned)
  }

  lemma ConservedBySpawn(finished: seq<int>, queued: seq<int>, lost: seq<int>, spawned: seq<int>, key: int)
    requires Conserved(finished, queued, lost, spawned)
    ensures Conserved(finished, queued + [key], lost, spawned + [key])
    ensures Conserved(finished, [key], queued + lost, spawned + [key])
  {
  }

  lemma ConservedByTurn(finished: seq<int>, key: int, queued: seq<int>, lost: seq<int>, spawned: seq<int>)
    requires Conserved(finished, [key] + queued, lost, spawned)
    ensures Conserved(finished, queued + [key], lost, spawned)
    ensures Conserved(finished + [key], queued, lost, spawned)
  {
  }

  ghost predicate KeysKept(log: Log) {
    Conserved(FinishedKeys(log), KeysOf(log, Replay(log)), LostKeys(log), SpawnedKeys(log))
  }

  lemma KeysKeptBySpawn(log: Log, h: Handle, key: int)
    requires KeysKept(log) && h !in Replay(log)
    ensures KeysKept(Then(log, Spawned(h, key)))
  {
    hide Conserved;
    var log', q := Then(log, Spawned(h, key)), Replay(log);
    assert KeysOf(log', Pushed(q, h)) == if |q| < N then KeysOf(log, q) + [key] else [key];
    ConservedBySpawn(FinishedKeys(log), KeysOf(log, q), LostKeys(log), SpawnedKeys(log), key);
  }

  lemma KeysKeptByTurn(log: Log, finished: bool)
    requires KeysKept(log) && Replay(log) != []
    ensures KeysKept(Then(log, Ran(Replay(log)[0], finished)))
  {
    hide Conserved;
    var q := Replay(log);
    var log', key, rest := Then(log, Ran(q[0], finished)), KeyOf(log, q[0]), KeysOf(log, q[1..]);
    assert KeysOf(log, q) == [key] + rest;
    assert q[1..] + [] == q[1..];
    assert KeysOf(log', Replay(log')) == if finished then rest else rest + [key];
    ConservedByTurn(FinishedKeys(log), key, rest, LostKeys(log), SpawnedKeys(log));
  }

  lemma {:induction false} KeysConserved(log: Log)
    requires Legal(log)
    ensures KeysKept(log)
  {
    if log != Start {
      hide KeysKept;
      KeysConserved(log.before);
      match log.event {
        case Spawned(h, key) => KeysKeptBySpawn(log.before, h, key);
        case Ran(_, finished) => KeysKeptByTurn(log.before, finished);
      }
    }
  }

  /** The turns task h has taken since it was last spawned. */
  ghost function TurnsTaken(log: Log, h: Handle): nat {
    if log == Start || (log.event.Spawned? && log.event.h == h) then 0
    else TurnsTaken(log.before, h) + (if log.event.Ran? && log.event.h == h then 1 else 0)
  }

  /** No task has ever taken more than n turns. */
  ghost predicate TurnsLimited(log: Log, n: nat) {
    && (forall h: Handle :: TurnsTaken(log, h) <= n)
    && (log == Start || TurnsLimited(log.before, n))
  }

  /** `log` continues `start`. */
  ghost predicate Extends(log: Log, start: Log) {
    log == start || (log != Start && Extends(log.before, start))
  }

  /** Task x does not run after `start`. */
  ghost predicate Waits(log: Log, start: Log, x: Handle)
    requires Extends(log, start)
  {
    log == start || ((log.event.Ran? ==> log.event.h != x) && Waits(log.before, start, x))
  }

  ghost predicate NoDuplicates(q: seq<Handle>) {
    forall i, j :: 0 <= i < j < |q| ==> q[i] != q[j]
  }

  lemma {:induction false} QueueHasNoDuplicates(log: Log)
    requires Legal(log)
    ensures NoDuplicates(Replay(log))
  {
    if log != Start {
      QueueHasNoDuplicates(log.before);
    }
  }

  /** A legal log in which the given keys were spawned has left the given queue, which
      was never longer than n. */
  ghost predicate Shows(log: Log, n: nat, queue: seq<Handle>, keys: seq<int>) {
    Legal(log) && Bounded(log, n) && Replay(log) == queue && SpawnedKeys(log) == keys
  }

  /** The front of the queue has had a turn. */
  lemma LogRan(log: Log, h: Handle, q: seq<Handle>, finished: bool, n: nat, keys: seq<int>)
    requires Shows(log, n, [h] + q, keys)
    ensures var log' := Then(log, Ran(h, finished));
            && Shows(log', n, if finished then q else q + [h], keys)
            && |Turns(log')| == |Turns(log)| + 1
            && LostKeys(log') == LostKeys(log)
  {
    assert ([h] + q)[1..] == q;
  }

  /** A task has been put on the queue. */
  lemma LogSpawned(log: Log, h: Handle, key: int, q: seq<Handle>, n: nat, keys: seq<int>)
    requires Shows(log, n, q, keys) && h !in q && |q| < n
    ensures var log' := Then(log, Spawned(h, key));
            && Shows(log', n, Pushed(q, h), keys + [key])
            && Turns(log') == Turns(log) && FinishedKeys(log') == FinishedKeys(log)
            && LostKeys(log') == if |q| < N then LostKeys(log) else KeysOf(log, q) + LostKeys(log)
  {
    assert Turns(log) + [] == Turns(log);
  }

  lemma {:induction false} BoundedBySpawns(log: Log, n: nat)
    requires Legal(log) && |SpawnedKeys(log)| <= n
    ensures Bounded(log, n) && |Replay(log)| <= |SpawnedKeys(log)|
  {
    if log != Start {
      BoundedBySpawns(log.before, n);
    }
  }

  lemma {:induction false} BoundedMonotone(log: Log, m: nat, n: nat)
    requires Bounded(log, m) && m <= n
    ensures Bounded(log, n)
  {
    if log != Start {
      BoundedMonotone(log.before, m, n);
    }
  }

  lemma {:induction false} PrefixFacts(log: Log, start: Log, n: nat)
    requires Extends(log, start) && Legal(log) && Bounded(log, n)
    ensures Legal(start) && Bounded(start, n) && Turns(start) <= Turns(log)
  {
    if log != start {
      PrefixFacts(log.before, start, n);
    }
  }

  /** Of the tasks in q, the first few have had a turn each, in order, since the
      turns `earlier` were taken; the others are at the front of the queue. */
  ghost predicate InOrder(q: seq<Handle>, earlier: seq<Handle>, turns: seq<Handle>, queue: seq<Handle>) {
    var t := |turns| - |earlier|;
    0 <= t <= |q| && turns == earlier + q[..t] && q[t..] <= queue
  }

  lemma InOrderStep(q: seq<Handle>, earlier: seq<Handle>, turns: seq<Handle>, queue: seq<Handle>, e: Event)
    requires InOrder(q, earlier, turns, queue)
    requires Allowed(queue, e) && |queue| < N
    requires e.Ran? ==> |turns| - |earlier| < |q|
    ensures InOrder(q, earlier, turns + (if e.Ran? then [e.h] else []), QueueAfter(queue, e))
  {
    var t := |turns| - |earlier|;
    var ahead := q[t..];
    match e {
      case Ran(h, finished) =>
        assert ahead[0] == h;
        assert turns + [h] == earlier + q[..t + 1];
        PrefixStep(ahead, queue, if finished then [] else [queue[0]]);
      case Spawned(h, _) =>
        assert turns + [] == turns;
        assert queue <= queue + [h];
    }
  }

  lemma PrefixStep(p: seq<Handle>, q: seq<Handle>, back: seq<Handle>)
    requires p != [] && p <= q
    ensures p[1..] <= q[1..] + back
  {
  }

  /** From any moment on, the tasks that are queued then take their turns first, in
      the order in which they are queued, whatever is spawned or finishes meanwhile. */
  lemma {:induction false} QueueOrder(log: Log, start: Log)
    requires Extends(log, start) && Legal(log) && Bounded(log, N - 1)
    requires |Turns(log)| - |Turns(start)| <= |Replay(start)|
    ensures InOrder(Replay(start), Turns(start), Turns(log), Replay(log))
  {
    if log != start {
      QueueOrder(log.before, start);
      InOrderStep(Replay(start), Turns(start), Turns(log.before), Replay(log.before), log.event);
    }
  }

  /** While the last task of the queue waits, only tasks ahead of it have run. */
  lemma {:induction false} WaitingTurns(log: Log, start: Log)
    requires Extends(log, start) && Legal(log) && Bounded(log, N - 1)
    requires var q := Replay(start); q != [] && Waits(log, start, q[|q| - 1])
    ensures |Turns(log)| - |Turns(start)| < |Replay(start)|
  {
    if log != start {
      var q := Replay(start);
      WaitingTurns(log.before, start);
      QueueOrder(log.before, start);
      var t := |Turns(log.before)| - |Turns(start)|;
      if log.event.Ran? {
        assert q[t..][0] == q[t] == log.event.h;
      }
    }
  }

  /** Between two consecutive turns of a task, every other task queued at the first
      one takes exactly one turn, in queue order, and no other task runs. When the
      queue never holds more than n, these are fewer than n turns. */
  lemma RoundRobin(first: Log, until: Log, x: Handle, finished: bool, n: nat)
    requires first.Then? && first.event == Ran(x, false)
    requires Extends(until, first) && Waits(until, first, x)
    requires Legal(Then(until, Ran(x, finished)))
    requires Bounded(until, N - 1) && Bounded(until, n)
    ensures var q := Replay(first);
            && q != [] && NoDuplicates(q) && q[|q| - 1] == x
            && Turns(until) == Turns(first) + q[..|q| - 1]
            && |q| - 1 < n
  {
    var q := Replay(first);
    PrefixFacts(until, first, n);
    QueueHasNoDuplicates(first);
    assert q != [] && q[|q| - 1] == x;
    WaitingTurns(until, first);
    QueueOrder(until, first);
    var t := |Turns(until)| - |Turns(first)|;
    assert q[t..][0] == q[t] == x;
  }

  /** The same for any two consecutive turns of a task within a longer log. */
  lemma RoundRobinThroughout(log: Log, first: Log, until: Log, x: Handle, finished: bool, n: nat)
    requires Legal(log) && Bounded(log, N - 1) && Bounded(log, n)
    requires Extends(log, Then(until, Ran(x, finished)))
    requires first.Then? && first.event == Ran(x, false)
    requires Extends(until, first) && Waits(until, first, x)
    ensures var q := Replay(first);
            && q != [] && NoDuplicates(q) && q[|q| - 1] == x
            && Turns(until) == Turns(first) + q[..|q| - 1]
            && |q| - 1 < n
            && Turns(until) + [x] <= Turns(log)
  {
    var second := Then(until, Ran(x, finished));
    PrefixFacts(log, second, N - 1);
    PrefixFacts(log, second, n);
    RoundRobin(first, until, x, finished, n);
  }
}
