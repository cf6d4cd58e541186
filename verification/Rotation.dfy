/** In which order the rotation of a multi-lookup runs its frames, and which of them
    takes the next key. */
module Rotation {
  import opened Arithmetic
  import opened Search
  import opened Interleaving

  // ---------- Around and around ----------

  /** The place that a count has when there are d of them, from 0 up and around. */
  function Around(a: int, d: nat): (r: nat)
    requires 0 < d
    ensures r < d && (0 <= a < d ==> r == a)
  {
    a % d
  }

  lemma AroundBack(a: int, k: nat, d: nat)
    requires 0 < d
    ensures Around(Around(a, d) - k, d) == Around(a - k, d)
  {
    RemainderBack(a, k, d);
  }

  lemma AroundFromBelow(d: nat)
    requires 0 < d
    ensures Around(-1, d) == d - 1 == Around(-1 - d, d)
  {
    QuotientAndRemainder(-1, d, -1, d - 1);
    QuotientAndRemainder(-1 - d, d, -2, d - 1);
  }

  /** The frames run from `start` down to 0 and on from the last of d, over and over. */
  ghost predicate Downwards(ran: seq<nat>, start: int, d: nat) {
    0 < d && forall m :: 0 <= m < |ran| ==> ran[m] == Around(start - m, d)
  }

  lemma DownwardsNext(ran: seq<nat>, start: int, d: nat, i: nat)
    requires Downwards(ran, start, d) && i == Around(start - |ran|, d)
    ensures Downwards(ran + [i], start, d)
  {
  }

  lemma DownwardsJoined(a: seq<nat>, b: seq<nat>, start: int, d: nat)
    requires 0 < d && Downwards(a, start, d) && Downwards(b, Around(start - |a|, d), d)
    ensures Downwards(a + b, start, d)
  {
    forall m | |a| <= m < |a + b| ensures (a + b)[m] == Around(start - m, d) {
      hide Around;
      AroundBack(start - |a|, m - |a|, d);
    }
  }

  /** The turns are fair: among any d consecutive ones, every frame has exactly one. */
  lemma TurnsAreFair(ran: seq<nat>, start: int, d: nat, m: nat, j: nat) returns (p: nat)
    requires Downwards(ran, start, d) && m + d <= |ran| && j < d
    ensures m <= p < m + d && ran[p] == j
    ensures forall p' :: m <= p' < m + d && ran[p'] == j ==> p' == p
  {
    var q := RemainderOccurs(start - m, d, j);
    p := m + q;
    forall p' | m <= p' < m + d && ran[p'] == j ensures p' == p {
      if p' < p {
        RemaindersApart(start - p, start - p', d);
      } else if p < p' {
        RemaindersApart(start - p', start - p, d);
      }
    }
  }

  /** The first d frames run from 0 up, leaving out those without a lookup. */
  ghost predicate Upwards(ran: seq<nat>, ls: seq<Lookup>, d: nat)
    requires d <= |ls|
  {
    && (forall m, n :: 0 <= m < n < |ran| ==> ran[m] < ran[n])
    && (forall j: nat :: j in ran <==> j < d && ls[j].Searching?)
  }

  /** Each of the first d lookups, unless it had ended, has made one comparison. */
  ghost predicate OneEach(v: seq<int>, ls: seq<Lookup>, d: nat, now: seq<Lookup>)
    requires AllFit(v, ls)
  {
    && |now| == |ls|
    && (forall m :: 0 <= m < |ls| && (m >= d || ls[m].Finished?) ==> now[m] == ls[m])
    && (forall m :: 0 <= m < |ls| && m < d && ls[m].Searching? ==> now[m] == Probe(v, ls[m]))
  }

  /** Frame j is next. */
  lemma UpwardsNext(v: seq<int>, ls: seq<Lookup>, ran: seq<nat>, j: nat, now: seq<Lookup>)
    requires AllFit(v, ls) && j < |ls| && Upwards(ran, ls, j) && OneEach(v, ls, j, now)
    ensures j < |now| && now[j] == ls[j] && Fits(v, ls[j])
    ensures if ls[j].Searching? then Upwards(ran + [j], ls, j + 1) && OneEach(v, ls, j + 1, now[j := Probe(v, ls[j])])
            else Upwards(ran, ls, j + 1) && OneEach(v, ls, j + 1, now)
  {
    assert Fits(v, ls[j]);
    hide Probe, Fits;
    if ls[j].Searching? {
      forall m | 0 <= m < |ran| ensures ran[m] < j {
        assert ran[m] in ran;
      }
    }
  }

  // ---------- Until one lookup ends ----------

  ghost predicate AllSearching(ls: seq<Lookup>) {
    forall i :: 0 <= i < |ls| ==> ls[i].Searching?
  }

  /** No lookup has ended, before and after each of the turns. */
  ghost predicate NoneEnds(v: seq<int>, ls: seq<Lookup>, ran: seq<nat>)
    requires AllFit(v, ls) && ScheduleFor(ls, ran)
    decreases |ran|
  {
    AllSearching(ls) && (ran == [] || NoneEnds(v, Turn(v, ls, ran[0]), ran[1..]))
  }

  /** The turns go downwards from `start`, and with the last one, but not before, a
      lookup has ended. */
  ghost predicate EndsOne(v: seq<int>, ls: seq<Lookup>, start: nat, ran: seq<nat>)
    requires AllFit(v, ls)
  {
    && ran != [] && Downwards(ran, start, |ls|) && ScheduleFor(ls, ran)
    && NoneEnds(v, ls, ran[..|ran| - 1])
    && Interleave(v, ls, ran)[ran[|ran| - 1]].Finished?
  }

  /** What happens to the frames when the next key is taken: if the frame whose turn it
      is, `start`, has no lookup in progress the key is for that frame; else it is for
      the first whose lookup ends. The next turn is that of the frame below. */
  ghost predicate KeyTaken(v: seq<int>, ls: seq<Lookup>, start: nat, key: int, ran: seq<nat>,
                           ls': seq<Lookup>, i: nat)
    requires AllFit(v, ls) && start < |ls|
  {
    && ScheduleFor(ls, ran)
    && (if ls[start].Searching? then EndsOne(v, ls, start, ran) else ran == [])
    && var x := if ran == [] then start else ran[|ran| - 1];
       ls' == Interleave(v, ls, ran)[x := Begin(v, key)] && i == Around(x - 1, |ls|)
  }

  lemma {:induction false} InterleaveSnoc(v: seq<int>, ls: seq<Lookup>, ran: seq<nat>, i: nat)
    requires AllFit(v, ls) && ScheduleFor(ls, ran + [i])
    ensures ScheduleFor(ls, ran) && i < |ls|
    ensures Interleave(v, ls, ran + [i]) == Turn(v, Interleave(v, ls, ran), i)
    ensures NoneEnds(v, ls, ran) && AllSearching(Interleave(v, ls, ran + [i])) ==> NoneEnds(v, ls, ran + [i])
    decreases |ran|
  {
    assert (ran + [i])[|ran|] == i && forall k :: 0 <= k < |ran| ==> (ran + [i])[k] == ran[k];
    if ran == [] {
      assert ran + [i] == [i] && [i][1..] == [];
      var next := Turn(v, ls, i);
      assert Interleave(v, next, []) == next;
      assert Interleave(v, ls, [i]) == next;
      assert AllSearching(next) ==> NoneEnds(v, next, []);
    } else {
      assert (ran + [i])[0] == ran[0] && (ran + [i])[1..] == ran[1..] + [i];
      InterleaveSnoc(v, Turn(v, ls, ran[0]), ran[1..], i);
    }
  }

  lemma {:induction false} NoneEndsPrefix(v: seq<int>, ls: seq<Lookup>, ran: seq<nat>, n: nat)
    requires AllFit(v, ls) && ScheduleFor(ls, ran) && NoneEnds(v, ls, ran) && n <= |ran|
    ensures AllSearching(Interleave(v, ls, ran[..n]))
    decreases |ran|
  {
    if n == 0 {
      assert ran[..n] == [];
    } else {
      assert ran[..n][0] == ran[0] && ran[..n][1..] == ran[1..][..n - 1];
      NoneEndsPrefix(v, Turn(v, ls, ran[0]), ran[1..], n - 1);
    }
  }

  /** This leaves no choice: the turns are determined, and so is the frame. */
  lemma TurnsDetermined(v: seq<int>, ls: seq<Lookup>, start: nat, ran: seq<nat>, ran': seq<nat>)
    requires AllFit(v, ls) && EndsOne(v, ls, start, ran) && EndsOne(v, ls, start, ran')
    ensures ran == ran'
  {
    if |ran| < |ran'| {
      NotShorter(v, ls, start, ran, ran');
    } else if |ran'| < |ran| {
      NotShorter(v, ls, start, ran', ran);
    }
  }

  lemma NotShorter(v: seq<int>, ls: seq<Lookup>, start: nat, ran: seq<nat>, ran': seq<nat>)
    requires AllFit(v, ls) && EndsOne(v, ls, start, ran) && EndsOne(v, ls, start, ran')
    ensures |ran'| <= |ran|
  {
    if |ran| < |ran'| {
      var before := ran'[..|ran'| - 1];
      assert before[..|ran|] == ran;
      NoneEndsPrefix(v, ls, before, |ran|);
    }
  }

  // ---------- One turn after the other ----------

  /** The turns so far, from `start` to the frame i whose turn is next, have ended no
      lookup. */
  ghost predicate Going(v: seq<int>, ls: seq<Lookup>, start: nat, ran: seq<nat>, now: seq<Lookup>, i: nat)
    requires AllFit(v, ls)
  {
    && Downwards(ran, start, |ls|) && ScheduleFor(ls, ran) && i == Around(start - |ran|, |ls|)
    && NoneEnds(v, ls, ran) && now == Interleave(v, ls, ran)
  }

  lemma GoingAtFirst(v: seq<int>, ls: seq<Lookup>, start: nat)
    requires AllFit(v, ls) && AllSearching(ls) && start < |ls|
    ensures Going(v, ls, start, [], ls, start)
  {
  }

  lemma TurnOf(v: seq<int>, ls: seq<Lookup>, ran: seq<nat>, i: nat)
    requires AllFit(v, ls) && ScheduleFor(ls, ran) && NoneEnds(v, ls, ran) && i < |ls|
    requires AllSearching(Interleave(v, ls, ran))
    ensures ScheduleFor(ls, ran + [i])
    ensures var now := Interleave(v, ls, ran);
            var now' := now[i := Probe(v, now[i])];
            && now' == Interleave(v, ls, ran + [i])
            && (now'[i].Searching? ==> NoneEnds(v, ls, ran + [i]))
  {
    hide NoneEnds, Interleave, Probe;
    InterleaveSnoc(v, ls, ran, i);
    assert Interleave(v, ls, ran + [i])[i].Searching? ==> AllSearching(Interleave(v, ls, ran + [i]));
  }

  /** The frame i has its turn. */
  lemma GoingOn(v: seq<int>, ls: seq<Lookup>, start: nat, ran: seq<nat>, now: seq<Lookup>, i: nat)
    requires AllFit(v, ls) && Going(v, ls, start, ran, now, i) && AllSearching(now)
    ensures i < |now| == |ls| && Fits(v, now[i])
    ensures var now', below := now[i := Probe(v, now[i])], Around(i - 1, |ls|);
            if now'[i].Searching? then Going(v, ls, start, ran + [i], now', below)
            else EndsOne(v, ls, start, ran + [i]) && now' == Interleave(v, ls, ran + [i])
  {
    hide NoneEnds, Interleave, Probe, Around, AllSearching, ScheduleFor, Fits;
    assert Fits(v, now[i]);
    TurnOf(v, ls, ran, i);
    DownwardsNext(ran, start, |ls|, i);
    AroundBack(start - |ran|, 1, |ls|);
    hide Downwards;
    assert (ran + [i])[..|ran + [i]| - 1] == ran;
  }

  lemma KeyTakenAtEnd(v: seq<int>, ls: seq<Lookup>, start: nat, key: int, ran: seq<nat>)
    requires AllFit(v, ls) && AllSearching(ls) && start < |ls| && EndsOne(v, ls, start, ran)
    ensures ScheduleFor(ls, ran)
    ensures var x: int := ran[|ran| - 1];
            KeyTaken(v, ls, start, key, ran, Interleave(v, ls, ran)[x := Begin(v, key)], Around(x - 1, |ls|))
  {
  }
}
