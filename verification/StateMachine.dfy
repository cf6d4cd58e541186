/** The hand-written state machine: a frame holds one lookup, and a multi-lookup
    rotates over a fixed vector of frames. */
module StateMachine {
  import opened Search
  import opened Interleaving
  import opened Rotation

  datatype State = KeepGoing | Found | NotFound | Empty

  class Frame {
    var first: nat
    var last: nat
    var middle: nat
    var len: nat
    var half: nat
    var val: int
    var state: State

    constructor ()
      ensures state == Empty
    {
      state := Empty;
    }

    /** A frame that keeps going has already chosen the element of its next comparison. */
    ghost predicate Valid(v: seq<int>)
      reads this
    {
      state == KeepGoing ==>
        0 < len && first + len <= |v| && half == len / 2 && middle == first + half
    }

    ghost function View(): Lookup
      reads this
    {
      if state == KeepGoing then Searching(first, len, val) else Finished(val, state == Found)
    }

    method Init(v: seq<int>, first: nat, last: nat, key: int)
      requires first <= last <= |v|
      modifies this
      ensures Valid(v) && state != Empty
      ensures View() == Window(first, last - first, key)
    {
      this.val := key;
      this.first := first;
      this.last := last;
      this.len := last - first;
      if len == 0 {
        state := NotFound;
        return;
      }
      half := len / 2;
      middle := first + half;
      state := KeepGoing;
      Prefetch(v, middle);
    }

    /** One comparison; returns whether the lookup is over. */
    method Run(v: seq<int>) returns (done: bool)
      requires Valid(v) && state == KeepGoing
      modifies this
      ensures Valid(v) && state != Empty
      ensures View() == Probe(v, old(View()))
      ensures done <==> state != KeepGoing
    {
      var x := v[middle];
      if x < val {
        first := middle;
        first := first + 1;
        len := len - half - 1;
      } else {
        len := half;
      }
      if x == val {
        state := Found;
        return true;
      }
      if len > 0 {
        half := len / 2;
        middle := first + half;
        Prefetch(v, middle);
        return false;
      }
      state := NotFound;
      return true;
    }
  }

  /** The prefetched element has to exist; fetching it changes nothing. */
  method Prefetch(v: seq<int>, at: nat)
    requires at < |v|
  {
  }

  /** A single lookup run to its end. */
  method SmBinarySearch(v: seq<int>, key: int) returns (hit: bool)
    ensures hit == Search.Found(v, key)
  {
    var f := new Frame();
    f.Init(v, 0, |v|, key);
    while f.state == KeepGoing
      invariant f.Valid(v) && f.state != Empty && Fits(v, f.View())
      invariant Answer(v, f.View()) == Search.Found(v, key)
      decreases if f.state == KeepGoing then f.len + 1 else 0
    {
      var _ := f.Run(v);
    }
    return f.state == Found;
  }

  // ---------- A vector of frames ----------

  ghost predicate Separate(fs: seq<Frame>) {
    forall i, j :: 0 <= i < j < |fs| ==> fs[i] != fs[j]
  }

  ghost predicate AllValid(v: seq<int>, fs: seq<Frame>)
    reads fs
  {
    forall i :: 0 <= i < |fs| ==> fs[i].Valid(v)
  }

  ghost function Views(fs: seq<Frame>): (ls: seq<Lookup>)
    reads fs
    ensures |ls| == |fs|
    ensures forall i :: 0 <= i < |fs| ==> ls[i] == fs[i].View()
  {
    seq(|fs|, i requires 0 <= i < |fs| reads fs => fs[i].View())
  }

  ghost function States(fs: seq<Frame>): (ss: seq<State>)
    reads fs
    ensures |ss| == |fs|
    ensures forall i :: 0 <= i < |fs| ==> ss[i] == fs[i].state
  {
    seq(|fs|, i requires 0 <= i < |fs| reads fs => fs[i].state)
  }

  /** Frames are filled from the top down: after k keys, k smaller than their
      number, those above index i and no others; afterwards all of them. Unless the
      vector is empty, a filled frame is busy, with the possible exception of
      frame i. */
  ghost predicate Fillable(v: seq<int>, states: seq<State>, i: nat, k: nat) {
    && i < |states|
    && (k < |states| ==> i == |states| - 1 - k)
    && (forall j :: 0 <= j < |states| ==> (states[j] == Empty <==> k < |states| && j <= i))
    && (|v| > 0 ==> forall j :: 0 <= j < |states| && j != i && states[j] != Empty ==> states[j] == KeepGoing)
  }

  ghost predicate Filled(v: seq<int>, states: seq<State>, i: nat, k: nat) {
    Fillable(v, states, i, k) && (|v| > 0 && states[i] != Empty ==> states[i] == KeepGoing)
  }

  /** The index after i in the rotation. */
  function Next(i: nat, N: nat): (r: nat)
    requires i <= N
    ensures r == Around(i - 1, N + 1)
  {
    AroundFromBelow(N + 1);
    if i == 0 then N else i - 1
  }

  ghost predicate AllBusy(states: seq<State>) {
    forall j :: 0 <= j < |states| ==> states[j] == KeepGoing
  }

  /** If the next frame is busy, every frame is: the rotation below it never meets
      one that is empty or finished. */
  lemma BusyMeansFull(v: seq<int>, states: seq<State>, i: nat, k: nat)
    requires Filled(v, states, i, k) && states[i] == KeepGoing && |v| > 0
    ensures |states| <= k && AllBusy(states)
  {
  }

  lemma BusyMeansFillable(v: seq<int>, states: seq<State>, i: nat, k: nat, s: State)
    requires AllBusy(states) && i < |states| <= k && s != Empty
    ensures Fillable(v, states[i := s], i, k)
  {
  }

  lemma FilledNext(v: seq<int>, states: seq<State>, i: nat, k: nat, s: State)
    requires Fillable(v, states, i, k)
    requires s != Empty && (|v| > 0 ==> s == KeepGoing)
    ensures Filled(v, states[i := s], Next(i, |states| - 1), k + 1)
  {
  }

  method NewFrames(streams: nat) returns (fs: seq<Frame>)
    ensures |fs| == streams && Separate(fs) && fresh(fs)
    ensures forall i :: 0 <= i < |fs| ==> fs[i].state == Empty
  {
    fs := [];
    while |fs| < streams
      invariant |fs| <= streams && Separate(fs) && fresh(fs)
      invariant forall i :: 0 <= i < |fs| ==> fs[i].state == Empty
    {
      var f := new Frame();
      fs := fs + [f];
    }
  }

  /** The state of a multi-lookup that fills frame i next. */
  ghost predicate Pool(v: seq<int>, f: seq<Frame>, i: nat, b: Books)
    reads f
  {
    && Separate(f) && AllValid(v, f)
    && Filled(v, States(f), i, |b.taken|)
    && Balanced(v, b, Views(f))
  }

  /** `fr->run()` on frame i of the vector. It is only ever called on a busy frame. */
  method RunFrame(v: seq<int>, f: seq<Frame>, i: nat) returns (done: bool)
    requires i < |f| && Separate(f) && AllValid(v, f) && f[i].state == KeepGoing
    modifies f[i]
    ensures AllValid(v, f)
    ensures Views(f) == old(Views(f))[i := Probe(v, old(Views(f))[i])]
    ensures f[i].state != Empty && States(f) == old(States(f))[i := f[i].state]
    ensures done <==> f[i].state != KeepGoing
  {
    done := f[i].Run(v);
    assert forall j :: 0 <= j < |f| && j != i ==> f[j] != f[i];
  }

  /** `fr->init(beg, end, key)` on frame i of the vector. */
  method InitFrame(v: seq<int>, f: seq<Frame>, i: nat, key: int)
    requires i < |f| && Separate(f) && AllValid(v, f)
    modifies f[i]
    ensures AllValid(v, f)
    ensures Views(f) == old(Views(f))[i := Begin(v, key)]
    ensures States(f) == old(States(f))[i := if |v| == 0 then NotFound else KeepGoing]
  {
    f[i].Init(v, 0, |v|, key);
    assert forall j :: 0 <= j < |f| && j != i ==> f[j] != f[i];
  }

  /** The next key goes into frame i when that is free. */
  method FillFrame(v: seq<int>, f: seq<Frame>, i: nat, key: int, ghost b: Books)
    requires i < |f| && Separate(f) && AllValid(v, f) && f[i].state != KeepGoing
    requires Fillable(v, States(f), i, |b.taken|)
    requires Balanced(v, b, Views(f))
    modifies f[i]
    ensures Pool(v, f, Next(i, |f| - 1), b.Admit(v, key))
    ensures Views(f) == old(Views(f))[i := Begin(v, key)]
  {
    hide Balanced;
    BalancedAdmit(v, b, Views(f), i, key);
    FilledNext(v, States(f), i, |b.taken|, if |v| == 0 then NotFound else KeepGoing);
    InitFrame(v, f, i, key);
  }

  lemma BalancedFits(v: seq<int>, b: Books, ls: seq<Lookup>)
    requires Balanced(v, b, ls)
    ensures AllFit(v, ls)
  {
  }

  /** The busy frame i makes its next comparison; a key that is found is counted. */
  method RunAndCount(v: seq<int>, f: seq<Frame>, i: nat, count: nat, ghost b0: Books)
    returns (done: bool, result: nat, ghost b: Books)
    requires i < |f| && Separate(f) && AllValid(v, f) && f[i].state == KeepGoing
    requires Balanced(v, b0, Views(f)) && b0.hits == count
    modifies f[i]
    ensures AllValid(v, f) && AllFit(v, old(Views(f)))
    ensures Views(f) == old(Views(f))[i := Probe(v, old(Views(f))[i])]
    ensures f[i].state != Empty && States(f) == old(States(f))[i := f[i].state]
    ensures done <==> f[i].state != KeepGoing
    ensures b == b0.Probed(Probe(v, old(Views(f))[i]))
    ensures Balanced(v, b, Views(f)) && b.hits == result
  {
    hide Balanced;
    BalancedFits(v, b0, Views(f));
    BalancedProbe(v, b0, Views(f), i);
    b := b0.Probed(Probe(v, Views(f)[i]));
    result := count;
    done := RunFrame(v, f, i);
    if done && f[i].state == Found {
      result := result + 1;
    }
  }

  /** How many turns lie behind when the next is that of frame i: keys put into free
      frames, or runs of busy ones. */
  ghost predicate InTurn(v: seq<int>, d: nat, i: nat, keys: nat, ran: seq<nat>) {
    && Downwards(ran, -1, d)
    && i == Around(-1 - (if |v| == 0 || keys < d then keys else |ran|), d)
    && (|v| == 0 || keys <= d ==> ran == [])
  }

  /** The next key has been taken, with some more runs. */
  lemma StillInTurn(v: seq<int>, ls: seq<Lookup>, states: seq<State>, i: nat, keys: nat, ran: seq<nat>, key: int,
                    more: seq<nat>, ls': seq<Lookup>, i': nat)
    requires AllFit(v, ls) && |states| == |ls| && Filled(v, states, i, keys)
    requires forall j :: 0 <= j < |ls| ==> (ls[j].Searching? <==> states[j] == KeepGoing)
    requires InTurn(v, |ls|, i, keys, ran) && KeyTaken(v, ls, i, key, more, ls', i')
    ensures InTurn(v, |ls|, i', keys + 1, ran + more)
  {
    hide Around;
    var d := |ls|;
    if ls[i].Searching? {
      BusyNotEmpty(v, ls, i);
      assert d <= keys;
      DownwardsJoined(ran, more, -1, d);
      var n := |ran + more|;
      assert more[|more| - 1] == (ran + more)[n - 1] == Around(-1 - (n - 1), d);
      AroundBack(-1 - (n - 1), 1, d);
    } else {
      assert ran + more == ran;
      assert |v| > 0 ==> keys < d;
      AroundBack(-1 - keys, 1, d);
      AroundFromBelow(d);
    }
  }

  lemma BusyNotEmpty(v: seq<int>, ls: seq<Lookup>, i: nat)
    requires AllFit(v, ls) && i < |ls| && ls[i].Searching?
    ensures |v| > 0
  {
    assert Fits(v, ls[i]);
  }

  /** With every frame busy, the rotation runs them in turn until a lookup finishes;
      its frame takes the next key. `ran` are the frames run, in order. */
  method RotateUntilFree(v: seq<int>, f: seq<Frame>, start: nat, key: int, count: nat, ghost b0: Books)
    returns (i: nat, result: nat, ghost b: Books, ghost ran: seq<nat>)
    requires Separate(f) && AllValid(v, f)
    requires AllBusy(States(f)) && start < |f| <= |b0.taken|
    requires Balanced(v, b0, Views(f)) && b0.hits == count
    modifies f
    ensures b.taken == b0.taken + [key] && b.hits == result && b.probes == b0.probes + |ran|
    ensures Pool(v, f, i, b)
    ensures AllFit(v, old(Views(f))) && KeyTaken(v, old(Views(f)), start, key, ran, Views(f), i)
  {
    hide Balanced, EndsOne, Going, Interleave, KeyTaken, Around, Separate, AllValid, Fillable, Pool, Comparisons;
    ghost var ls := Views(f);
    BalancedFits(v, b0, ls);
    assert AllSearching(ls);
    GoingAtFirst(v, ls, start);
    i, result, b, ran := start, count, b0, [];
    while true
      invariant AllValid(v, f) && AllBusy(States(f)) && i < |f|
      invariant Balanced(v, b, Views(f)) && b.hits == result && b.taken == b0.taken
      invariant Going(v, ls, start, ran, Views(f), i)
      invariant b.probes == b0.probes + |ran|
      decreases Comparisons(v, b.taken) - b.probes
    {
      hide AllFit, Fits, Probe;
      BalancedBounds(v, b, Views(f));
      ghost var states, now := States(f), Views(f);
      assert AllSearching(now);
      GoingOn(v, ls, start, ran, now, i);
      ran := ran + [i];
      var done;
      done, result, b := RunAndCount(v, f, i, result, b);
      if done {
        BusyMeansFillable(v, states, i, |b.taken|, f[i].state);
        FillFrame(v, f, i, key, b);
        b := b.Admit(v, key);
        KeyTakenAtEnd(v, ls, start, key, ran);
        i := Next(i, |f| - 1);
        return;
      }
      i := Next(i, |f| - 1);
    }
  }

  /** One iteration over the list of keys. */
  method TakeKey(v: seq<int>, f: seq<Frame>, start: nat, key: int, count: nat, ghost b0: Books, ghost ran0: seq<nat>)
    returns (i: nat, result: nat, ghost b: Books, ghost ran: seq<nat>)
    requires Pool(v, f, start, b0) && b0.hits == count && InTurn(v, |f|, start, |b0.taken|, ran0)
    modifies f
    ensures b.taken == b0.taken + [key] && b.hits == result && b.probes == b0.probes + |ran|
    ensures Pool(v, f, i, b) && InTurn(v, |f|, i, |b.taken|, ran0 + ran)
    ensures AllFit(v, old(Views(f))) && KeyTaken(v, old(Views(f)), start, key, ran, Views(f), i)
  {
    hide Balanced, InTurn, EndsOne, Around;
    ghost var ls, states := Views(f), States(f);
    BalancedFits(v, b0, ls);
    if f[start].state != KeepGoing {
      FillFrame(v, f, start, key, b0);
      i, result, b, ran := Next(start, |f| - 1), count, b0.Admit(v, key), [];
    } else {
      hide KeyTaken;
      BusyNotEmpty(v, ls, start);
      BusyMeansFull(v, states, start, |b0.taken|);
      i, result, b, ran := RotateUntilFree(v, f, start, key, count, b0);
    }
    StillInTurn(v, ls, states, start, |b0.taken|, ran0, key, ran, Views(f), i);
  }

  /** Frame j makes a comparison if it is still busy. */
  method DrainFrame(v: seq<int>, f: seq<Frame>, j: nat, count: nat, ghost b0: Books)
    returns (busy: bool, result: nat, ghost b: Books)
    requires j < |f| && Separate(f) && AllValid(v, f)
    requires Balanced(v, b0, Views(f)) && b0.hits == count
    modifies f[j]
    ensures AllValid(v, f) && AllFit(v, old(Views(f)))
    ensures busy <==> old(Views(f))[j].Searching?
    ensures Views(f) == if busy then old(Views(f))[j := Probe(v, old(Views(f))[j])] else old(Views(f))
    ensures Balanced(v, b, Views(f)) && b.hits == result && b.taken == b0.taken
    ensures b.probes == b0.probes + (if busy then 1 else 0) && (!busy ==> result == count)
  {
    hide Balanced;
    BalancedFits(v, b0, Views(f));
    assert Views(f)[j] == f[j].View();
    busy, result, b := f[j].state == KeepGoing, count, b0;
    if busy {
      var done;
      done, result, b := RunAndCount(v, f, j, count, b0);
    }
  }

  /** One pass over the frames that are still busy: each of them makes one comparison.
      Reports whether there were any. */
  method DrainOnce(v: seq<int>, f: seq<Frame>, count: nat, ghost b0: Books)
    returns (moreWork: bool, result: nat, ghost b: Books, ghost ran: seq<nat>)
    requires Separate(f) && AllValid(v, f)
    requires Balanced(v, b0, Views(f)) && b0.hits == count
    modifies f
    ensures Upwards(ran, old(Views(f)), |f|) && b.probes == b0.probes + |ran|
    ensures AllValid(v, f)
    ensures Balanced(v, b, Views(f)) && b.hits == result && b.taken == b0.taken
    ensures moreWork <==> !AllFinished(old(Views(f)))
    ensures moreWork <==> ran != []
    ensures !moreWork ==> AllFinished(Views(f)) && result == count
    ensures AllFit(v, old(Views(f)))
    ensures OneEach(v, old(Views(f)), |f|, Views(f))
  {
    hide Balanced;
    ghost var ls := Views(f);
    BalancedFits(v, b0, ls);
    moreWork, result, b, ran := false, count, b0, [];
    for j := 0 to |f|
      invariant AllValid(v, f)
      invariant Balanced(v, b, Views(f)) && b.hits == result && b.taken == b0.taken
      invariant Upwards(ran, ls, j) && b.probes == b0.probes + |ran|
      invariant if moreWork then ran != [] && !AllFinished(ls)
                else ran == [] && result == count && forall m :: 0 <= m < j ==> ls[m].Finished?
      invariant OneEach(v, ls, j, Views(f))
    {
      hide Probe, Upwards, OneEach, AllFit, AllValid, Separate, Fits;
      UpwardsNext(v, ls, ran, j, Views(f));
      var busy;
      busy, result, b := DrainFrame(v, f, j, result, b);
      if busy {
        moreWork := true;
        ran := ran + [j];
      }
    }
  }

  lemma PoolAtFirst(v: seq<int>, f: seq<Frame>)
    requires Separate(f) && f != [] && forall i :: 0 <= i < |f| ==> f[i].state == Empty
    ensures Pool(v, f, |f| - 1, Books([], [], 0, 0)) && InTurn(v, |f|, |f| - 1, 0, [])
  {
    NothingYet(v, Views(f));
    AroundFromBelow(|f|);
  }

  lemma InTurnMeans(v: seq<int>, d: nat, i: nat, keys: nat, ran: seq<nat>)
    requires InTurn(v, d, i, keys, ran)
    ensures Downwards(ran, -1, d) && (|v| == 0 || keys <= d ==> ran == [])
  {
  }

  /** Every lookup is started in some frame, and the keys found are counted as
      their frames finish. The hits and the number of calls to `Run` are those of
      the plain loop over the same keys. As long as there are keys, `filling`, the
      frames run, go downwards without a gap. */
  method SmMultiLookup(v: seq<int>, lookups: seq<int>, streams: nat)
    returns (result: nat, ghost runs: nat, ghost filling: seq<nat>)
    requires 1 <= streams
    ensures result == Hits(v, lookups)
    ensures runs == Comparisons(v, lookups)
    ensures Downwards(filling, -1, streams) && |filling| <= runs
    ensures |v| == 0 || |lookups| <= streams ==> filling == []
  {
    hide Balanced, Comparisons, Hits, KeyTaken, InTurn, Downwards, Separate, AllValid, Filled;
    var f := NewFrames(streams);
    var i: nat := streams - 1;
    result, filling := 0, [];
    ghost var b := Books([], [], 0, 0);
    PoolAtFirst(v, f);
    for k := 0 to |lookups|
      invariant fresh(f) && |f| == streams
      invariant Pool(v, f, i, b) && b.taken == lookups[..k] && b.hits == result
      invariant InTurn(v, streams, i, k, filling) && b.probes == |filling|
    {
      assert lookups[..k + 1] == lookups[..k] + [lookups[k]];
      ghost var more;
      i, result, b, more := TakeKey(v, f, i, lookups[k], result, b, filling);
      filling := filling + more;
    }
    InTurnMeans(v, streams, i, |lookups|, filling);
    var moreWork := true;
    while moreWork
      invariant fresh(f) && Separate(f) && AllValid(v, f)
      invariant Balanced(v, b, Views(f)) && b.taken == lookups && b.hits == result && |filling| <= b.probes
      invariant !moreWork ==> AllFinished(Views(f))
      decreases Comparisons(v, lookups) - b.probes, moreWork
    {
      BalancedBounds(v, b, Views(f));
      ghost var ran;
      moreWork, result, b, ran := DrainOnce(v, f, result, b);
    }
    BalancedEnd(v, b, Views(f));
    runs := b.probes;
  }
}
