/** Suspended coroutines of the interleaved search, and the accounts of the tasks
    that have been spawned and have not finished. */
module CoroutineLedger {
  import opened Search
  import opened SchedulerQueue
  import opened EventLog

  /** Where `resume()` enters the coroutine: at the initial suspension, or behind the
      `co_await` in its loop. */
  datatype ResumePoint = Initial | AfterPrefetch

  datatype Coroutine = Coroutine(at: ResumePoint, first: nat, last: nat, len: nat, half: nat, middle: nat, val: int,
                                 owned: bool)

  type Frames = map<Handle, Coroutine>

  function Fresh(v: seq<int>, key: int): Coroutine {
    Coroutine(Initial, 0, |v|, 0, 0, 0, key, false)
  }

  /** The variables that are live across the suspension make sense. */
  ghost predicate Suspended(v: seq<int>, c: Coroutine) {
    match c.at
    case Initial => c.first == 0 && c.last == |v|
    case AfterPrefetch => 0 < c.len && c.first + c.len <= |v| && c.half == c.len / 2 && c.middle == c.first + c.half
  }

  ghost function View(v: seq<int>, c: Coroutine): (l: Lookup)
    requires Suspended(v, c)
    ensures Fits(v, l) && l.key == c.val
  {
    if c.at == Initial then Begin(v, c.val) else Searching(c.first, c.len, c.val)
  }

  /** A suspended coroutine that will report what an undisturbed search reports. */
  ghost predicate Resumable(v: seq<int>, c: Coroutine) {
    Suspended(v, c) && Answer(v, View(v, c)) == Found(v, c.val)
  }

  /** How many more turns the coroutine takes, the one in which it finishes included. */
  ghost function TurnsLeft(v: seq<int>, c: Coroutine): nat
    requires Suspended(v, c)
  {
    Steps(v, View(v, c)) + (if c.at == Initial then 1 else 0)
  }

  /** A turn behind the `co_await` is one comparison of the plain search. */
  lemma TurnIsProbe(v: seq<int>, c: Coroutine)
    requires Resumable(v, c) && c.at == AfterPrefetch
    ensures var r := Probe(v, View(v, c));
            && Answer(v, r) == Found(v, c.val)
            && TurnsLeft(v, c) == 1 + Steps(v, r)
            && (r.Finished? ==> r.hit == Found(v, c.val) && TurnsLeft(v, c) == 1)
  {
  }

  /** In an empty vector the first turn is also the last. */
  lemma NothingToSearch(v: seq<int>, c: Coroutine)
    requires Suspended(v, c) && |v| == 0
    ensures TurnsLeft(v, c) == 1 && !Found(v, c.val)
  {
  }

  /** The turns of a whole task. */
  ghost function TurnsOf(v: seq<int>): int -> nat {
    key => Steps(v, Begin(v, key)) + 1
  }

  ghost function TurnsAt(v: seq<int>, frames: Frames): int -> nat {
    h => if h >= 0 && h in frames && Suspended(v, frames[h]) then TurnsLeft(v, frames[h]) else 0
  }

  lemma {:induction false} TotalCongruence(f: int -> nat, g: int -> nat, hs: seq<int>)
    requires forall i :: 0 <= i < |hs| ==> f(hs[i]) == g(hs[i])
    ensures Total(f, hs) == Total(g, hs)
  {
    if hs != [] {
      TotalCongruence(f, g, hs[..|hs| - 1]);
    }
  }

  lemma TotalFirst(f: int -> nat, h: int, hs: seq<int>)
    ensures Total(f, [h] + hs) == f(h) + Total(f, hs)
  {
    TotalConcat(f, [h], hs);
    TotalSnoc(f, [], h);
    assert [] + [h] == [h];
  }

  /** The frames are those of the listed tasks, once each. */
  ghost predicate Roster(frames: Frames, tasks: seq<Handle>) {
    NoDuplicates(tasks) && forall h :: h in frames <==> h in tasks
  }

  ghost predicate AllResumable(v: seq<int>, frames: Frames) {
    forall h {:trigger frames[h]} :: h in frames ==> Resumable(v, frames[h])
  }

  /** Every key has a task that has finished or is listed, and the turns taken and still
      to be taken are those of the whole searches. */
  ghost predicate Sums(v: seq<int>, frames: Frames, tasks: seq<Handle>, keys: seq<int>, finished: nat, turns: nat) {
    && finished + |tasks| == |keys|
    && turns + Total(TurnsAt(v, frames), tasks) == Total(TurnsOf(v), keys)
  }

  ghost predicate Accounts(v: seq<int>, frames: Frames, tasks: seq<Handle>, keys: seq<int>,
                           finished: nat, turns: nat) {
    && Roster(frames, tasks)
    && AllResumable(v, frames)
    && Sums(v, frames, tasks, keys, finished, turns)
  }

  lemma AccountsEmpty(v: seq<int>)
    ensures Accounts(v, map[], [], [], 0, 0)
  {
  }

  /** The totals over a list whose first task has the frame c. */
  lemma HeadTotals(v: seq<int>, frames: Frames, h: Handle, c: Coroutine, rest: seq<Handle>)
    requires h !in rest && Suspended(v, c)
    ensures Total(TurnsAt(v, frames[h := c]), [h] + rest) == TurnsLeft(v, c) + Total(TurnsAt(v, frames), rest)
  {
    var frames' := frames[h := c];
    TotalCongruence(TurnsAt(v, frames'), TurnsAt(v, frames), rest);
    TotalFirst(TurnsAt(v, frames'), h, rest);
  }

  lemma ResumableUpdate(v: seq<int>, frames: Frames, h: Handle, c: Coroutine)
    requires AllResumable(v, frames) && Resumable(v, c)
    ensures AllResumable(v, frames[h := c])
  {
    hide Resumable;
  }

  lemma SumsCreate(v: seq<int>, frames: Frames, tasks: seq<Handle>, keys: seq<int>, finished: nat,
                   turns: nat, h: Handle, key: int)
    requires Sums(v, frames, tasks, keys, finished, turns) && h !in tasks
    ensures Sums(v, frames[h := Fresh(v, key)], [h] + tasks, keys + [key], finished, turns)
  {
    hide Total;
    HeadTotals(v, frames, h, Fresh(v, key), tasks);
    TotalSnoc(TurnsOf(v), keys, key);
  }

  /** A task is created. */
  lemma AccountsCreate(v: seq<int>, frames: Frames, tasks: seq<Handle>, keys: seq<int>, finished: nat,
                       turns: nat, h: Handle, key: int)
    requires Accounts(v, frames, tasks, keys, finished, turns)
    requires h !in frames
    ensures Accounts(v, frames[h := Fresh(v, key)], [h] + tasks, keys + [key], finished, turns)
  {
    hide Sums, AllResumable;
    ResumableUpdate(v, frames, h, Fresh(v, key));
    SumsCreate(v, frames, tasks, keys, finished, turns, h, key);
    assert Roster(frames[h := Fresh(v, key)], [h] + tasks);
  }

  lemma SumsUpdate(v: seq<int>, frames: Frames, h: Handle, rest: seq<Handle>, keys: seq<int>, finished: nat,
                   turns: nat, c: Coroutine, taken: nat)
    requires Sums(v, frames, [h] + rest, keys, finished, turns)
    requires h in frames && h !in rest && Suspended(v, frames[h]) && Suspended(v, c)
    requires c.val == frames[h].val && TurnsLeft(v, c) + taken == TurnsLeft(v, frames[h])
    ensures Sums(v, frames[h := c], [h] + rest, keys, finished, turns + taken)
  {
    hide Suspended, View, Total;
    assert frames[h := frames[h]] == frames;
    HeadTotals(v, frames, h, c, rest);
    HeadTotals(v, frames, h, frames[h], rest);
  }

  lemma SumsFinish(v: seq<int>, frames: Frames, h: Handle, rest: seq<Handle>, keys: seq<int>, finished: nat,
                   turns: nat)
    requires Sums(v, frames, [h] + rest, keys, finished, turns)
    requires h in frames && h !in rest && Suspended(v, frames[h]) && TurnsLeft(v, frames[h]) == 1
    ensures Sums(v, frames - {h}, rest, keys, finished + 1, turns + 1)
  {
    hide Suspended, View, Total;
    assert (frames - {h})[h := frames[h]] == frames;
    HeadTotals(v, frames - {h}, h, frames[h], rest);
  }

  lemma RosterFinish(frames: Frames, h: Handle, rest: seq<Handle>)
    requires Roster(frames, [h] + rest)
    ensures h !in rest && Roster(frames - {h}, rest)
  {
    var tasks := [h] + rest;
    assert tasks[0] == h && forall i :: 0 <= i < |rest| ==> tasks[i + 1] == rest[i];
    assert h !in rest;
    forall k ensures k in frames - {h} <==> k in rest {
      assert k in tasks <==> k == h || k in rest;
    }
  }

  /** The first task changes its frame: its owner is set, or a turn has moved it on. */
  lemma AccountsUpdate(v: seq<int>, frames: Frames, h: Handle, rest: seq<Handle>, keys: seq<int>, finished: nat,
                       turns: nat, c: Coroutine, taken: nat)
    requires Accounts(v, frames, [h] + rest, keys, finished, turns)
    requires Resumable(v, c)
    requires h in frames && Suspended(v, frames[h])
    requires c.val == frames[h].val && TurnsLeft(v, c) + taken == TurnsLeft(v, frames[h])
    ensures Accounts(v, frames[h := c], [h] + rest, keys, finished, turns + taken)
  {
    hide Sums, AllResumable;
    RosterFinish(frames, h, rest);
    ResumableUpdate(v, frames, h, c);
    SumsUpdate(v, frames, h, rest, keys, finished, turns, c, taken);
  }

  /** The first task finishes with its last turn. */
  lemma AccountsFinish(v: seq<int>, frames: Frames, h: Handle, rest: seq<Handle>, keys: seq<int>, finished: nat,
                       turns: nat)
    requires Accounts(v, frames, [h] + rest, keys, finished, turns)
    requires h in frames && Suspended(v, frames[h]) && TurnsLeft(v, frames[h]) == 1
    ensures Accounts(v, frames - {h}, rest, keys, finished + 1, turns + 1)
  {
    hide Sums;
    RosterFinish(frames, h, rest);
    SumsFinish(v, frames, h, rest, keys, finished, turns);
    assert AllResumable(v, frames - {h}) by { hide Resumable; }
  }

  lemma {:induction false} NoDuplicatesIsMultiplicity(q: seq<Handle>)
    ensures NoDuplicates(q) <==> forall h :: multiset(q)[h] <= 1
  {
    if q != [] {
      var n := |q| - 1;
      var p := q[..n];
      NoDuplicatesIsMultiplicity(p);
      assert q == p + [q[n]];
      assert NoDuplicates(q) <==> NoDuplicates(p) && q[n] !in p;
      assert q[n] in p <==> multiset(p)[q[n]] > 0;
      if NoDuplicates(p) && q[n] !in p {
        forall h ensures multiset(q)[h] <= 1 {
          assert multiset(q)[h] == multiset(p)[h] + (if h == q[n] then 1 else 0);
        }
      } else if !NoDuplicates(p) {
        var h :| multiset(p)[h] > 1;
        assert multiset(q)[h] > 1;
      } else {
        assert multiset(q)[q[n]] > 1;
      }
    }
  }

  /** The accounts do not depend on the order in which the tasks are listed. */
  lemma AccountsReorder(v: seq<int>, frames: Frames, tasks: seq<Handle>, tasks': seq<Handle>, keys: seq<int>,
                        finished: nat, turns: nat)
    requires Accounts(v, frames, tasks, keys, finished, turns)
    requires multiset(tasks') == multiset(tasks)
    ensures Accounts(v, frames, tasks', keys, finished, turns)
  {
    hide AllResumable, NoDuplicates, Total;
    NoDuplicatesIsMultiplicity(tasks);
    NoDuplicatesIsMultiplicity(tasks');
    assert |tasks'| == |multiset(tasks')| == |tasks|;
    TotalPermutation(TurnsAt(v, frames), tasks', tasks);
    forall h ensures h in tasks' <==> h in tasks {
      assert h in tasks' <==> h in multiset(tasks');
      assert h in tasks <==> h in multiset(tasks);
    }
  }

  lemma Swapped(h: Handle, q: seq<Handle>, rest: seq<Handle>)
    ensures multiset(q + [h] + rest) == multiset([h] + q + rest)
  {
  }

  /** A task moves from the front of the list behind the part q of it, or back. */
  lemma AccountsMove(v: seq<int>, frames: Frames, h: Handle, q: seq<Handle>, rest: seq<Handle>, keys: seq<int>,
                     finished: nat, turns: nat)
    ensures Accounts(v, frames, [h] + q + rest, keys, finished, turns)
            <==> Accounts(v, frames, q + [h] + rest, keys, finished, turns)
  {
    hide Accounts;
    Swapped(h, q, rest);
    var a, b := [h] + q + rest, q + [h] + rest;
    if Accounts(v, frames, a, keys, finished, turns) {
      AccountsReorder(v, frames, a, b, keys, finished, turns);
    }
    if Accounts(v, frames, b, keys, finished, turns) {
      AccountsReorder(v, frames, b, a, keys, finished, turns);
    }
  }

  /** All unfinished tasks: running, queued, lost, and created but not yet spawned. */
  ghost function Roll(running: seq<Handle>, queued: seq<Handle>, lost: seq<Handle>, created: seq<Handle>)
    : (r: seq<Handle>)
    ensures |r| == |running| + |queued| + |lost| + |created|
  {
    running + queued + (lost + created)
  }

  lemma RollRunning(h: Handle, q: seq<Handle>, lost: seq<Handle>, created: seq<Handle>)
    ensures Roll([h], q, lost, created) == [h] + Roll([], q, lost, created)
    ensures forall t :: t in q || t in lost || t in created ==> t in Roll([], q, lost, created)
  {
    assert Roll([h], q, lost, created) == [h] + Roll([], q, lost, created);
    var r := Roll([], q, lost, created);
    assert r == q + lost + created;
  }

  lemma RollPopped(q: seq<Handle>, lost: seq<Handle>, created: seq<Handle>)
    requires q != []
    ensures Roll([q[0]], q[1..], lost, created) == Roll([], q, lost, created)
  {
    assert [q[0]] + q[1..] == q == [] + q;
  }

  /** The running task h has been put behind the queue q and the front popped. */
  lemma RollTransferred(v: seq<int>, frames: Frames, h: Handle, q: seq<Handle>, next: Handle, q': seq<Handle>,
                        lost: seq<Handle>, created: seq<Handle>, keys: seq<int>, finished: nat, turns: nat)
    requires Accounts(v, frames, Roll([h], q, lost, created), keys, finished, turns)
    requires [next] + q' == q + [h]
    ensures Accounts(v, frames, Roll([next], q', lost, created), keys, finished, turns)
  {
    hide Accounts;
    var rest := lost + created;
    assert Roll([h], q, lost, created) == [h] + q + rest;
    assert Roll([next], q', lost, created) == q + [h] + rest;
    AccountsMove(v, frames, h, q, rest, keys, finished, turns);
  }

  /** The created task h is listed last, or first. */
  lemma RollCreated(v: seq<int>, frames: Frames, h: Handle, q: seq<Handle>, lost: seq<Handle>, keys: seq<int>,
                    finished: nat, turns: nat)
    ensures Accounts(v, frames, [h] + Roll([], q, lost, []), keys, finished, turns)
            <==> Accounts(v, frames, Roll([], q, lost, [h]), keys, finished, turns)
  {
    hide Accounts;
    var r := Roll([], q, lost, []);
    assert [h] + r == [h] + r + [] && Roll([], q, lost, [h]) == r + [h] + [];
    AccountsMove(v, frames, h, r, [], keys, finished, turns);
  }

  /** The created task h has been pushed on the queue; if that was full, it is lost. */
  lemma RollSpawned(v: seq<int>, frames: Frames, h: Handle, q: seq<Handle>, lost: seq<Handle>, keys: seq<int>,
                    finished: nat, turns: nat)
    requires Accounts(v, frames, [h] + Roll([], q, lost, []), keys, finished, turns)
    ensures Accounts(v, frames, Roll([], Pushed(q, h), if |q| < N then lost else q + lost, []),
                     keys, finished, turns)
  {
    hide Accounts;
    if |q| < N {
      assert [h] + Roll([], q, lost, []) == [h] + q + lost;
      assert Roll([], q + [h], lost, []) == q + [h] + lost;
      AccountsMove(v, frames, h, q, lost, keys, finished, turns);
    } else {
      assert [h] + Roll([], q, lost, []) == Roll([], [h], q + lost, []);
    }
  }

  /** What the accounts say about the first task of the list. */
  lemma AccountsHead(v: seq<int>, frames: Frames, h: Handle, rest: seq<Handle>, keys: seq<int>, finished: nat,
                     turns: nat)
    requires Accounts(v, frames, [h] + rest, keys, finished, turns)
    ensures h in frames && h !in rest && Resumable(v, frames[h])
  {
    hide Sums;
    RosterFinish(frames, h, rest);
    assert ([h] + rest)[0] == h;
  }

  /** What the accounts say about a task in the list. */
  lemma AccountsTask(v: seq<int>, frames: Frames, tasks: seq<Handle>, keys: seq<int>, finished: nat,
                     turns: nat, i: nat)
    requires Accounts(v, frames, tasks, keys, finished, turns) && i < |tasks|
    ensures tasks[i] in frames && Resumable(v, frames[tasks[i]])
    ensures turns < Total(TurnsOf(v), keys)
  {
    hide NoDuplicates, Total;
    var h := tasks[i];
    assert h in tasks;
    assert turns < Total(TurnsOf(v), keys) by {
      var q, rest := tasks[..i], tasks[i + 1..];
      assert tasks == q + ([h] + rest);
      TotalConcat(TurnsAt(v, frames), q, [h] + rest);
      TotalFirst(TurnsAt(v, frames), h, rest);
      SomeTurnLeft(v, frames[h]);
    }
  }

  /** What the accounts say about all tasks. */
  lemma AccountsEnd(v: seq<int>, frames: Frames, tasks: seq<Handle>, keys: seq<int>, finished: nat,
                    turns: nat)
    requires Accounts(v, frames, tasks, keys, finished, turns)
    ensures finished + |tasks| == |keys|
    ensures tasks == [] ==> turns == Comparisons(v, keys) + |keys|
  {
    hide AllResumable, Roster;
    TurnsAreStepsAndStarts(v, keys);
  }

  lemma AccountsNone(v: seq<int>, frames: Frames, keys: seq<int>, finished: nat, turns: nat)
    requires Accounts(v, frames, [], keys, finished, turns)
    ensures frames == map[]
  {
    hide AllResumable, Sums;
    assert frames.Keys == {};
  }

  lemma SomeTurnLeft(v: seq<int>, c: Coroutine)
    requires Suspended(v, c)
    ensures 1 <= TurnsLeft(v, c)
  {
  }

  // ---------- The turns of each task ----------

  lemma TurnBound(v: seq<int>, key: int)
    ensures TurnsOf(v)(key) <= if |v| == 0 then 1 else Log2(|v|) + 2
  {
    if |v| > 0 {
      StepBound(v, Begin(v, key));
    }
  }

  /** Each task in the log has finished with the last turn of its search, or has not
      come that far. */
  ghost predicate Timely(v: seq<int>, log: Log) {
    log == Start || (Timely(v, log.before) &&
      match log.event
      case Spawned(_, _) => true
      case Ran(h, finished) =>
        var taken, whole := TurnsTaken(log, h), TurnsOf(v)(KeyOf(log, h));
        taken <= whole && (finished <==> taken == whole))
  }

  lemma {:induction false} TimelyMeansLimited(v: seq<int>, log: Log)
    requires Timely(v, log)
    ensures TurnsLimited(log, if |v| == 0 then 1 else Log2(|v|) + 2)
  {
    hide Log2;
    if log != Start {
      TimelyMeansLimited(v, log.before);
      var h, b := log.event.h, log.before;
      TurnBound(v, KeyOf(log, h));
      assert forall t: Handle :: t != h ==> TurnsTaken(log, t) == TurnsTaken(b, t);
    }
  }

  lemma PaceIsTimely(v: seq<int>, frames: Frames, log: Log)
    requires exists newest :: OnPace(v, frames, log, [], newest)
    ensures Timely(v, log) && TurnsLimited(log, if |v| == 0 then 1 else Log2(|v|) + 2)
  {
    TimelyMeansLimited(v, log);
  }

  ghost function Newest(keys: seq<int>): int {
    if keys == [] then 0 else keys[|keys| - 1]
  }

  /** The frame of a spawned task has the key that it has in the log, and the turns that
      the log shows of it and those it has left are the turns of its whole search. A
      task that is only created is at its start and looks up the newest key. */
  ghost predicate OnPace(v: seq<int>, frames: Frames, log: Log, created: seq<Handle>, newest: int) {
    && Timely(v, log)
    && forall h {:trigger frames[h]} :: h in frames ==>
         && Suspended(v, frames[h])
         && (if h in created then frames[h].at == Initial && frames[h].val == newest
             else && KeyOf(log, h) == frames[h].val
                  && TurnsTaken(log, h) + TurnsLeft(v, frames[h]) == TurnsOf(v)(frames[h].val))
  }

  /** A task has taken a turn and goes on as c, or has finished. */
  lemma PaceRan(v: seq<int>, frames: Frames, log: Log, created: seq<Handle>, newest: int, h: Handle, c: Coroutine,
                finished: bool)
    requires OnPace(v, frames, log, created, newest) && h in frames && h !in created
    requires if finished then TurnsLeft(v, frames[h]) == 1
             else Suspended(v, c) && c.val == frames[h].val && TurnsLeft(v, c) + 1 == TurnsLeft(v, frames[h])
    ensures OnPace(v, if finished then frames - {h} else frames[h := c], Then(log, Ran(h, finished)), created, newest)
  {
    hide Steps, Suspended, View, TurnsOf;
    if !finished {
      SomeTurnLeft(v, c);
    }
    var log' := Then(log, Ran(h, finished));
    assert forall t: Handle ::
        KeyOf(log', t) == KeyOf(log, t) && TurnsTaken(log', t) == TurnsTaken(log, t) + (if t == h then 1 else 0);
  }

  lemma PaceCreated(v: seq<int>, frames: Frames, log: Log, newest: int, h: Handle, key: int)
    requires OnPace(v, frames, log, [], newest)
    ensures OnPace(v, frames[h := Fresh(v, key)], log, [h], key)
  {
    hide Steps, Timely, TurnsOf;
  }

  lemma PaceOwned(v: seq<int>, frames: Frames, log: Log, newest: int, h: Handle)
    requires OnPace(v, frames, log, [h], newest) && h in frames
    ensures OnPace(v, frames[h := frames[h].(owned := true)], log, [h], newest)
  {
    hide Steps, Timely, TurnsOf;
  }

  lemma PaceSpawned(v: seq<int>, frames: Frames, log: Log, newest: int, h: Handle)
    requires OnPace(v, frames, log, [h], newest)
    ensures OnPace(v, frames, Then(log, Spawned(h, newest)), [], newest)
  {
    var log' := Then(log, Spawned(h, newest));
    assert forall t: Handle :: t != h ==> KeyOf(log', t) == KeyOf(log, t) && TurnsTaken(log', t) == TurnsTaken(log, t);
  }

  // ---------- The counters ----------

  /** The counters say how many of the finished tasks have found their keys. */
  ghost predicate Tallied(v: seq<int>, log: Log, found: nat, notFound: nat) {
    && found == Hits(v, FinishedKeys(log))
    && found + notFound == |FinishedKeys(log)|
  }

  /** A turn of the task h, in which it may have finished and raised one of the counters. */
  lemma TalliedRan(v: seq<int>, frames: Frames, log: Log, created: seq<Handle>, newest: int, h: Handle, finished: bool,
                   found: nat, notFound: nat)
    requires OnPace(v, frames, log, created, newest) && h in frames && h !in created
    requires Tallied(v, log, found, notFound)
    ensures var log', hit := Then(log, Ran(h, finished)), Found(v, frames[h].val);
            if finished then Tallied(v, log', if hit then found + 1 else found, if hit then notFound else notFound + 1)
            else Tallied(v, log', found, notFound)
  {
    hide Found, Timely, TurnsOf;
    TotalSnoc(HitOf(v), FinishedKeys(log), frames[h].val);
  }

  lemma {:induction false} TurnsAreStepsAndStarts(v: seq<int>, keys: seq<int>)
    ensures Total(TurnsOf(v), keys) == Comparisons(v, keys) + |keys|
  {
    if keys != [] {
      TurnsAreStepsAndStarts(v, keys[..|keys| - 1]);
    }
  }
}
