/** The completion token of the abortable timer wait: an object that can be moved but
    not copied, and that resumes the waiting coroutine when it is called or, failing
    that, when it is destroyed. */
module ResumeToken {
  import opened Wrappers

  type ErrorCode = int
  const SUCCESS: ErrorCode := 0
  const OPERATION_ABORTED: ErrorCode := 125

  // ---------- The life of the token objects of one wait ----------

  datatype Event =
    | Move(src: nat, dst: nat)
    | Invoke(id: nat, ec: ErrorCode)
    | Destroy(id: nat)

  /** The token objects that exist, with whether each holds the coroutine's handle,
      and the codes with which the coroutine has been resumed. */
  datatype Tokens = Tokens(holds: map<nat, bool>, resumed: seq<ErrorCode>)

  /** Any object may be moved from or destroyed, once it exists; the timer calls only
      an object that holds the handle. */
  predicate Allowed(t: Tokens, e: Event) {
    match e
    case Move(src, dst) => src in t.holds && dst !in t.holds
    case Invoke(id, _) => id in t.holds && t.holds[id]
    case Destroy(id) => id in t.holds
  }

  function Next(t: Tokens, e: Event): Tokens
    requires Allowed(t, e)
  {
    match e
    case Move(src, dst) => Tokens(t.holds[src := false][dst := t.holds[src]], t.resumed)
    case Invoke(id, ec) => Tokens(t.holds[id := false], t.resumed + [ec])
    case Destroy(id) => Tokens(t.holds - {id}, if t.holds[id] then t.resumed + [OPERATION_ABORTED] else t.resumed)
  }

  /** The event writes the error code into the awaiter, which is part of the frame of
      the waiting coroutine. */
  predicate TouchesAwaiter(t: Tokens, e: Event)
    requires Allowed(t, e)
  {
    e.Invoke? || (e.Destroy? && t.holds[e.id])
  }

  ghost predicate Possible(t: Tokens, trace: seq<Event>)
    decreases |trace|
  {
    trace == [] || (Allowed(t, trace[0]) && Possible(Next(t, trace[0]), trace[1..]))
  }

  ghost function After(t: Tokens, trace: seq<Event>): Tokens
    requires Possible(t, trace)
    decreases |trace|
  {
    if trace == [] then t else After(Next(t, trace[0]), trace[1..])
  }

  const AWAITED: Tokens := Tokens(map[0 := true], [])

  /** Exactly one object holds the handle, or the coroutine has been resumed. */
  ghost predicate OneHolder(t: Tokens) {
    && (t.resumed == [] ==> exists id :: id in t.holds && t.holds[id])
    && (t.resumed != [] ==> |t.resumed| == 1 && forall id :: id in t.holds ==> !t.holds[id])
    && (forall i, j :: i in t.holds && j in t.holds && t.holds[i] && t.holds[j] ==> i == j)
  }

  lemma OneHolderStep(t: Tokens, e: Event)
    requires OneHolder(t) && Allowed(t, e)
    ensures OneHolder(Next(t, e))
    ensures TouchesAwaiter(t, e) ==> t.resumed == []
    ensures t.resumed <= Next(t, e).resumed
    ensures Next(t, e).resumed != t.resumed <==> TouchesAwaiter(t, e)
  {
    var t' := Next(t, e);
    if t.resumed == [] {
      var id :| id in t.holds && t.holds[id];
      if t'.resumed == [] {
        var holder := if e.Move? && e.src == id then e.dst else id;
        assert holder in t'.holds && t'.holds[holder];
      }
    }
  }

  lemma {:induction false} OneHolderAlways(t: Tokens, trace: seq<Event>)
    requires OneHolder(t) && Possible(t, trace)
    ensures OneHolder(After(t, trace)) && t.resumed <= After(t, trace).resumed
    decreases |trace|
  {
    if trace != [] {
      OneHolderStep(t, trace[0]);
      OneHolderAlways(Next(t, trace[0]), trace[1..]);
    }
  }

  ghost predicate WasCalled(trace: seq<Event>) {
    exists i :: 0 <= i < |trace| && trace[i].Invoke?
  }

  /** The coroutine is resumed with the code of the call and, from then on, not again. */
  lemma {:induction false} CalledResumes(t: Tokens, trace: seq<Event>, i: nat)
    requires OneHolder(t) && Possible(t, trace) && i < |trace| && trace[i].Invoke?
    ensures After(t, trace).resumed == [trace[i].ec]
    decreases |trace|
  {
    var t' := Next(t, trace[0]);
    OneHolderStep(t, trace[0]);
    if i == 0 {
      assert t'.resumed == [trace[0].ec];
      OneHolderAlways(t', trace[1..]);
    } else {
      CalledResumes(t', trace[1..], i - 1);
    }
  }

  lemma {:induction false} NotCalledAborts(t: Tokens, trace: seq<Event>)
    requires OneHolder(t) && Possible(t, trace) && t.resumed == [] && !WasCalled(trace)
    ensures After(t, trace).resumed == [] || After(t, trace).resumed == [OPERATION_ABORTED]
    decreases |trace|
  {
    if trace != [] {
      var t' := Next(t, trace[0]);
      OneHolderStep(t, trace[0]);
      OneHolderAlways(t', trace[1..]);
      assert !trace[0].Invoke? && forall i :: 0 <= i < |trace[1..]| ==> trace[1..][i] == trace[i + 1];
      if t'.resumed == [] {
        NotCalledAborts(t', trace[1..]);
      }
    }
  }

  /** However the token is moved about, called and destroyed: when all its objects are
      gone the coroutine has been resumed exactly once, with the code of the call, or
      as aborted, which is not success, if the token was never called. */
  lemma ResumedExactlyOnce(trace: seq<Event>)
    requires Possible(AWAITED, trace) && After(AWAITED, trace).holds == map[]
    ensures |After(AWAITED, trace).resumed| == 1
    ensures forall i :: 0 <= i < |trace| && trace[i].Invoke? ==> After(AWAITED, trace).resumed == [trace[i].ec]
    ensures !WasCalled(trace) ==> After(AWAITED, trace).resumed == [OPERATION_ABORTED] && OPERATION_ABORTED != 0
  {
    assert OneHolder(AWAITED) by { assert 0 in AWAITED.holds && AWAITED.holds[0]; }
    OneHolderAlways(AWAITED, trace);
    forall i | 0 <= i < |trace| && trace[i].Invoke? ensures After(AWAITED, trace).resumed == [trace[i].ec] {
      CalledResumes(AWAITED, trace, i);
    }
    if !WasCalled(trace) {
      NotCalledAborts(AWAITED, trace);
    }
  }

  // ---------- The objects ----------

  /** Part of the coroutine's frame; it is gone once the coroutine has resumed. */
  class Awaiter {
    var ec: ErrorCode
    ghost var alive: bool

    constructor ()
      ensures ec == SUCCESS && alive
    {
      ec := SUCCESS;
      alive := true;
    }

    /** `await_resume`: throws unless the code is that of success. */
    method AwaitResume() returns (thrown: Option<ErrorCode>)
      requires alive
      ensures thrown == if ec == 0 then None else Some(ec)
    {
      if ec != SUCCESS {
        return Some(ec);
      }
      return None;
    }

    method SetCode(ec: ErrorCode)
      requires alive
      modifies this`ec
      ensures this.ec == ec
    {
      this.ec := ec;
    }
  }

  /** `thrown` is the code of the exception in which the last wait has ended, if any. */
  class Coroutine {
    const awaiter: Awaiter
    ghost var resumedWith: seq<ErrorCode>
    var thrown: Option<ErrorCode>

    constructor (awaiter: Awaiter)
      ensures this.awaiter == awaiter && resumedWith == [] && thrown == None
    {
      this.awaiter := awaiter;
      resumedWith, thrown := [], None;
    }

    /** The coroutine goes on with `await_resume`, and leaves the awaiter behind. */
    method Resume()
      requires awaiter.alive
      modifies this, awaiter`alive
      ensures resumedWith == old(resumedWith) + [awaiter.ec] && !awaiter.alive
      ensures thrown == if awaiter.ec == 0 then None else Some(awaiter.ec)
    {
      thrown := awaiter.AwaitResume();
      resumedWith := resumedWith + [awaiter.ec];
      awaiter.alive := false;
    }
  }

  class Callback {
    const me: Awaiter
    var coro: Coroutine?

    /** As long as it holds the handle, the awaiter it points to is alive. */
    ghost predicate Valid()
      reads this, me, coro
    {
      coro != null ==> coro.awaiter == me && me.alive && coro.resumedWith == []
    }

    constructor (me: Awaiter, coro: Coroutine)
      requires coro.awaiter == me && me.alive && coro.resumedWith == []
      ensures Valid() && this.me == me && this.coro == coro
    {
      this.me := me;
      this.coro := coro;
    }

    constructor Move(other: Callback)
      requires other.Valid()
      modifies other`coro
      ensures Valid() && other.Valid()
      ensures me == other.me && coro == old(other.coro) && other.coro == null
    {
      me := other.me;
      coro := other.coro;
      new;
      other.coro := null;
    }

    method Invoke(ec: ErrorCode)
      requires Valid() && coro != null
      modifies this`coro, me, coro
      ensures Valid() && coro == null && !me.alive
      ensures old(coro).resumedWith == [ec] && old(coro).thrown == if ec == 0 then None else Some(ec)
    {
      me.SetCode(ec);
      var tmp := coro;
      coro := null;
      tmp.Resume();
    }

    /** The destructor; the object is not used afterwards. */
    method Destroy()
      requires Valid()
      modifies me, coro
      ensures coro != null ==> coro.resumedWith == [OPERATION_ABORTED] && !me.alive
      ensures coro != null ==> coro.thrown == Some(OPERATION_ABORTED)
      ensures coro == null ==> me.alive == old(me.alive) && me.ec == old(me.ec)
    {
      if coro != null {
        me.SetCode(OPERATION_ABORTED);
        coro.Resume();
      }
    }
  }

  // ---------- Whole traces, played on the objects ----------

  type Objects = map<nat, Callback>

  function Thrown(resumed: seq<ErrorCode>): Option<ErrorCode> {
    if resumed == [] || resumed[|resumed| - 1] == SUCCESS then None else Some(resumed[|resumed| - 1])
  }

  /** The objects that exist are those of t, and they hold the coroutine's handle as t
      says; the awaiter is there until the coroutine has been resumed. */
  ghost predicate Shows(me: Awaiter, coro: Coroutine, objects: Objects, t: Tokens)
    reads me, coro, objects.Values
  {
    && objects.Keys == t.holds.Keys
    && (forall i, j :: i in objects && j in objects && i != j ==> objects[i] != objects[j])
    && (forall i :: i in objects ==> objects[i].me == me && objects[i].coro == if t.holds[i] then coro else null)
    && coro.awaiter == me && coro.resumedWith == t.resumed
    && coro.thrown == Thrown(t.resumed)
    && (me.alive <==> t.resumed == [])
  }

  method PerformMove(me: Awaiter, coro: Coroutine, objects: Objects, ghost t: Tokens, src: nat, dst: nat)
    returns (objects': Objects)
    requires Shows(me, coro, objects, t) && OneHolder(t) && Allowed(t, Move(src, dst))
    modifies objects.Values
    ensures Shows(me, coro, objects', Next(t, Move(src, dst)))
    ensures forall o :: o in objects'.Values ==> o in objects.Values || fresh(o)
  {
    var moved := new Callback.Move(objects[src]);
    objects' := objects[dst := moved];
  }

  method PerformInvoke(me: Awaiter, coro: Coroutine, objects: Objects, ghost t: Tokens, id: nat, ec: ErrorCode)
    requires Shows(me, coro, objects, t) && OneHolder(t) && Allowed(t, Invoke(id, ec))
    modifies me, coro, objects.Values
    ensures Shows(me, coro, objects, Next(t, Invoke(id, ec)))
  {
    objects[id].Invoke(ec);
  }

  method PerformDestroy(me: Awaiter, coro: Coroutine, objects: Objects, ghost t: Tokens, id: nat)
    returns (objects': Objects)
    requires Shows(me, coro, objects, t) && OneHolder(t) && Allowed(t, Destroy(id))
    modifies me, coro, objects.Values
    ensures Shows(me, coro, objects', Next(t, Destroy(id)))
    ensures forall o :: o in objects'.Values ==> o in objects.Values
  {
    objects[id].Destroy();
    objects' := objects - {id};
  }

  method Perform(me: Awaiter, coro: Coroutine, objects: Objects, ghost t: Tokens, e: Event) returns (objects': Objects)
    requires Shows(me, coro, objects, t) && OneHolder(t) && Allowed(t, e)
    modifies me, coro, objects.Values
    ensures Shows(me, coro, objects', Next(t, e))
    ensures forall o :: o in objects'.Values ==> o in objects.Values || fresh(o)
  {
    hide Shows, OneHolder, Allowed, Next;
    match e {
      case Move(src, dst) => objects' := PerformMove(me, coro, objects, t, src, dst);
      case Invoke(id, ec) =>
        PerformInvoke(me, coro, objects, t, id, ec);
        objects' := objects;
      case Destroy(id) => objects' := PerformDestroy(me, coro, objects, t, id);
    }
  }

  /** Every possible trace takes the objects to where the transitions say. */
  method Execute(me: Awaiter, coro: Coroutine, objects: Objects, ghost t: Tokens, trace: seq<Event>)
    returns (objects': Objects)
    requires Shows(me, coro, objects, t) && OneHolder(t) && Possible(t, trace)
    modifies me, coro, objects.Values
    ensures Shows(me, coro, objects', After(t, trace))
  {
    objects' := objects;
    ghost var now := t;
    assert trace[0..] == trace;
    for i := 0 to |trace|
      invariant Shows(me, coro, objects', now) && OneHolder(now)
      invariant Possible(now, trace[i..]) && After(now, trace[i..]) == After(t, trace)
      invariant forall o :: o in objects'.Values ==> o in objects.Values || fresh(o)
    {
      hide Shows, OneHolder, Allowed, Next;
      assert trace[i..][0] == trace[i] && trace[i..][1..] == trace[i + 1..];
      objects' := Perform(me, coro, objects', now, trace[i]);
      OneHolderStep(now, trace[i]);
      now := Next(now, trace[i]);
    }
  }

  /** One await, from the suspension of the coroutine to the end of the last object. It
      ends without an exception exactly if the token was called with success. */
  method Await(trace: seq<Event>) returns (coro: Coroutine)
    requires Possible(AWAITED, trace) && After(AWAITED, trace).holds == map[]
    ensures |coro.resumedWith| == 1 && !coro.awaiter.alive
    ensures forall i :: 0 <= i < |trace| && trace[i].Invoke? ==>
              && coro.resumedWith == [trace[i].ec]
              && coro.thrown == if trace[i].ec == 0 then None else Some(trace[i].ec)
    ensures !WasCalled(trace) ==> coro.thrown == Some(OPERATION_ABORTED)
    ensures coro.thrown == None <==> exists i :: 0 <= i < |trace| && trace[i].Invoke? && trace[i].ec == 0
  {
    var me := new Awaiter();
    coro := new Coroutine(me);
    var token := new Callback(me, coro);
    assert OneHolder(AWAITED) by { assert 0 in AWAITED.holds && AWAITED.holds[0]; }
    var objects := Execute(me, coro, map[0 := token], AWAITED, trace);
    ResumedExactlyOnce(trace);
  }
}
