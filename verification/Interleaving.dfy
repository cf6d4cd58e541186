/** Several lookups in progress at once, advanced one comparison at a time in any
    order, and the books a multi-lookup keeps about them. */
module Interleaving {
  import opened Search

  ghost predicate AllFit(v: seq<int>, ls: seq<Lookup>) {
    forall i {:trigger Fits(v, ls[i])} :: 0 <= i < |ls| ==> Fits(v, ls[i])
  }

  ghost predicate AllFinished(ls: seq<Lookup>) {
    forall i :: 0 <= i < |ls| ==> ls[i].Finished?
  }

  // ---------- Schedule independence ----------

  ghost predicate ScheduleFor(ls: seq<Lookup>, schedule: seq<nat>) {
    forall k :: 0 <= k < |schedule| ==> schedule[k] < |ls|
  }

  /** Lookup i makes a comparison, unless it has already finished. */
  ghost function Turn(v: seq<int>, ls: seq<Lookup>, i: nat): (r: seq<Lookup>)
    requires AllFit(v, ls) && i < |ls|
    ensures AllFit(v, r) && |r| == |ls|
  {
    if ls[i].Searching? then ls[i := Probe(v, ls[i])] else ls
  }

  ghost function Interleave(v: seq<int>, ls: seq<Lookup>, schedule: seq<nat>): (r: seq<Lookup>)
    requires AllFit(v, ls) && ScheduleFor(ls, schedule)
    ensures AllFit(v, r) && |r| == |ls|
    decreases |schedule|
  {
    if schedule == [] then ls else Interleave(v, Turn(v, ls, schedule[0]), schedule[1..])
  }

  /** How many of the turns in a schedule were comparisons. */
  ghost function Work(v: seq<int>, ls: seq<Lookup>, schedule: seq<nat>): nat
    requires AllFit(v, ls) && ScheduleFor(ls, schedule)
    decreases |schedule|
  {
    if schedule == [] then 0
    else (if ls[schedule[0]].Searching? then 1 else 0)
         + Work(v, Turn(v, ls, schedule[0]), schedule[1..])
  }

  lemma {:induction false} InterleaveKeepsAnswers(v: seq<int>, ls: seq<Lookup>, schedule: seq<nat>, i: nat)
    requires AllFit(v, ls) && ScheduleFor(ls, schedule) && i < |ls|
    ensures Interleave(v, ls, schedule)[i].key == ls[i].key
    ensures Answer(v, Interleave(v, ls, schedule)[i]) == Answer(v, ls[i])
    decreases |schedule|
  {
    if schedule != [] {
      InterleaveKeepsAnswers(v, Turn(v, ls, schedule[0]), schedule[1..], i);
    }
  }

  /** Whatever the order of the turns, once every lookup has finished each one
      reports the answer of its own, undisturbed search. */
  lemma ScheduleIndependence(v: seq<int>, ls: seq<Lookup>, schedule: seq<nat>)
    requires AllFit(v, ls) && ScheduleFor(ls, schedule)
    requires AllFinished(Interleave(v, ls, schedule))
    ensures Interleave(v, ls, schedule) == seq(|ls|, i requires 0 <= i < |ls| => Finished(ls[i].key, Answer(v, ls[i])))
  {
    var done := Interleave(v, ls, schedule);
    forall i | 0 <= i < |ls| ensures done[i] == Finished(ls[i].key, Answer(v, ls[i])) {
      InterleaveKeepsAnswers(v, ls, schedule, i);
    }
  }

  /** The comparisons made so far and those still to be made add up to the same
      number under every schedule. */
  lemma {:induction false} WorkConservation(v: seq<int>, ls: seq<Lookup>, schedule: seq<nat>)
    requires AllFit(v, ls) && ScheduleFor(ls, schedule)
    ensures Work(v, ls, schedule) + StepsLeft(v, Interleave(v, ls, schedule)) == StepsLeft(v, ls)
    decreases |schedule|
  {
    if schedule != [] {
      var i := schedule[0];
      if ls[i].Searching? {
        SlotUpdateSteps(v, ls, i, Probe(v, ls[i]));
      }
      WorkConservation(v, Turn(v, ls, i), schedule[1..]);
    }
  }

  /** All lookups have finished exactly when all the comparisons have been made, so
      every schedule that finishes takes the same number of comparisons. */
  lemma FinishedIffWorkDone(v: seq<int>, ls: seq<Lookup>, schedule: seq<nat>)
    requires AllFit(v, ls) && ScheduleFor(ls, schedule)
    ensures AllFinished(Interleave(v, ls, schedule)) <==> Work(v, ls, schedule) == StepsLeft(v, ls)
  {
    WorkConservation(v, ls, schedule);
    NothingLeft(v, Interleave(v, ls, schedule));
  }

  // ---------- Totals over the slots of a pool ----------

  /** How many of the lookups still in progress are for the given key. */
  ghost function Live(ls: seq<Lookup>, key: int): nat {
    if ls == [] then 0 else Live(ls[..|ls| - 1], key) + Busy(ls[|ls| - 1], key)
  }

  ghost function Busy(l: Lookup, key: int): nat {
    if l.Searching? && l.key == key then 1 else 0
  }

  ghost function StepsLeft(v: seq<int>, ls: seq<Lookup>): nat
    requires AllFit(v, ls)
  {
    if ls == [] then 0 else StepsLeft(v, ls[..|ls| - 1]) + Steps(v, ls[|ls| - 1])
  }

  lemma {:induction false} SlotUpdateLive(ls: seq<Lookup>, i: nat, x: Lookup, key: int)
    requires i < |ls|
    ensures Live(ls[i := x], key) + Busy(ls[i], key) == Live(ls, key) + Busy(x, key)
  {
    var n := |ls| - 1;
    if i == n {
      assert ls[i := x][..n] == ls[..n];
    } else {
      assert ls[i := x][..n] == ls[..n][i := x];
      SlotUpdateLive(ls[..n], i, x, key);
    }
  }

  lemma {:induction false} SlotUpdateSteps(v: seq<int>, ls: seq<Lookup>, i: nat, x: Lookup)
    requires AllFit(v, ls) && i < |ls| && Fits(v, x)
    ensures AllFit(v, ls[i := x])
    ensures StepsLeft(v, ls[i := x]) + Steps(v, ls[i]) == StepsLeft(v, ls) + Steps(v, x)
  {
    var n := |ls| - 1;
    var us := ls[i := x];
    if i == n {
      assert us[..n] == ls[..n];
    } else {
      assert us[..n] == ls[..n][i := x];
      SlotUpdateSteps(v, ls[..n], i, x);
    }
  }

  lemma {:induction false} NothingLeft(v: seq<int>, ls: seq<Lookup>)
    requires AllFit(v, ls)
    ensures AllFinished(ls) <==> StepsLeft(v, ls) == 0
  {
    if ls != [] {
      var n := |ls| - 1;
      NothingLeft(v, ls[..n]);
      assert AllFinished(ls) <==> AllFinished(ls[..n]) && ls[n].Finished? by {
        assert forall i :: 0 <= i < n ==> ls[..n][i] == ls[i];
      }
    }
  }

  lemma {:induction false} NothingLive(ls: seq<Lookup>, key: int)
    requires AllFinished(ls)
    ensures Live(ls, key) == 0
  {
    if ls != [] {
      NothingLive(ls[..|ls| - 1], key);
    }
  }

  // ---------- The books of a multi-lookup ----------

  /** The lookup will report what an undisturbed search for its key reports. */
  ghost predicate Faithful(v: seq<int>, l: Lookup) {
    Fits(v, l) && (l.Searching? ==> Answer(v, l) == Found(v, l.key))
  }

  ghost predicate AllFaithful(v: seq<int>, ls: seq<Lookup>) {
    forall i {:trigger Faithful(v, ls[i])} :: 0 <= i < |ls| ==> Faithful(v, ls[i])
  }

  /** The books of a multi-lookup: the keys taken from the list so far, those whose
      lookup is over, the hits counted, and the comparisons made. */
  datatype Books = Books(taken: seq<int>, retired: seq<int>, hits: nat, probes: nat) {

    /** A key is taken. One that needs no comparison is retired, as a miss, at once. */
    function Admit(v: seq<int>, key: int): Books {
      this.(taken := taken + [key], retired := if |v| == 0 then retired + [key] else retired)
    }

    /** A comparison is made, which leaves its lookup as r. */
    function Probed(r: Lookup): Books {
      Books(taken,
            if r.Finished? then retired + [r.key] else retired,
            if r.Finished? && r.hit then hits + 1 else hits,
            probes + 1)
    }
  }

  function Is(key: int): int -> nat {
    k => if k == key then 1 else 0
  }

  lemma {:induction false} CountIsMultiplicity(keys: seq<int>, key: int)
    ensures Total(Is(key), keys) == multiset(keys)[key]
  {
    if keys != [] {
      var n := |keys| - 1;
      CountIsMultiplicity(keys[..n], key);
      assert keys == keys[..n] + [keys[n]];
    }
  }

  /** Every key taken is either retired or in progress, once each. */
  ghost predicate KeysBalanced(taken: seq<int>, retired: seq<int>, ls: seq<Lookup>) {
    forall key :: Total(Is(key), taken) == Total(Is(key), retired) + Live(ls, key)
  }

  lemma KeysUpdate(taken: seq<int>, retired: seq<int>, taken': seq<int>, retired': seq<int>,
                   ls: seq<Lookup>, i: nat, x: Lookup)
    requires KeysBalanced(taken, retired, ls) && i < |ls|
    requires taken' == taken || taken' == taken + [x.key]
    requires retired' == retired || retired' == retired + [x.key]
    requires ls[i].Searching? ==> ls[i].key == x.key
    requires (if taken' == taken then 0 else 1) + (if ls[i].Searching? then 1 else 0)
             == (if retired' == retired then 0 else 1) + (if x.Searching? then 1 else 0)
    ensures KeysBalanced(taken', retired', ls[i := x])
  {
    forall key ensures Total(Is(key), taken') == Total(Is(key), retired') + Live(ls[i := x], key) {
      TotalSnoc(Is(key), taken, x.key);
      TotalSnoc(Is(key), retired, x.key);
      SlotUpdateLive(ls, i, x, key);
    }
  }

  /** Every key taken so far is either retired or in progress, once each; the hits
      are those among the retired keys; and the comparisons made and still to make
      are those of the plain search. */
  ghost predicate Balanced(v: seq<int>, b: Books, ls: seq<Lookup>) {
    && AllFaithful(v, ls)
    && AllFit(v, ls)
    && KeysBalanced(b.taken, b.retired, ls)
    && b.hits == Hits(v, b.retired)
    && b.probes + StepsLeft(v, ls) == Comparisons(v, b.taken)
  }

  lemma FaithfulUpdate(v: seq<int>, ls: seq<Lookup>, i: nat, x: Lookup)
    requires AllFaithful(v, ls) && i < |ls| && Faithful(v, x)
    ensures AllFaithful(v, ls[i := x])
  {
  }

  lemma NothingYet(v: seq<int>, ls: seq<Lookup>)
    requires AllFinished(ls)
    ensures Balanced(v, Books([], [], 0, 0), ls)
  {
    assert AllFit(v, ls);
    NothingLeft(v, ls);
    forall key ensures Live(ls, key) == 0 { NothingLive(ls, key); }
  }

  /** A finished slot takes the next key. */
  lemma BalancedAdmit(v: seq<int>, b: Books, ls: seq<Lookup>, i: nat, key: int)
    requires Balanced(v, b, ls)
    requires i < |ls| && ls[i].Finished?
    ensures Balanced(v, b.Admit(v, key), ls[i := Begin(v, key)])
  {
    var l := Begin(v, key);
    SlotUpdateSteps(v, ls, i, l);
    FaithfulUpdate(v, ls, i, l);
    TotalSnoc(StepsOf(v), b.taken, key);
    TotalSnoc(HitOf(v), b.retired, key);
    KeysUpdate(b.taken, b.retired, b.Admit(v, key).taken, b.Admit(v, key).retired, ls, i, l);
  }

  /** A slot makes a comparison; if that ends its lookup the key is retired. */
  lemma BalancedProbe(v: seq<int>, b: Books, ls: seq<Lookup>, i: nat)
    requires Balanced(v, b, ls)
    requires i < |ls| && ls[i].Searching?
    ensures Balanced(v, b.Probed(Probe(v, ls[i])), ls[i := Probe(v, ls[i])])
  {
    var l := ls[i];
    var r := Probe(v, l);
    assert Faithful(v, l) && Answer(v, l) == Answer(v, r);
    FaithfulUpdate(v, ls, i, r);
    SlotUpdateSteps(v, ls, i, r);
    TotalSnoc(HitOf(v), b.retired, r.key);
    KeysUpdate(b.taken, b.retired, b.Probed(r).taken, b.Probed(r).retired, ls, i, r);
  }

  /** Never more comparisons than the plain search makes for the same keys. */
  lemma BalancedBounds(v: seq<int>, b: Books, ls: seq<Lookup>)
    requires Balanced(v, b, ls)
    ensures b.probes <= Comparisons(v, b.taken)
  {
  }

  /** When nothing is in progress the books are those of the plain loop. */
  lemma BalancedEnd(v: seq<int>, b: Books, ls: seq<Lookup>)
    requires Balanced(v, b, ls) && AllFinished(ls)
    ensures b.hits == Hits(v, b.taken) && b.probes == Comparisons(v, b.taken)
    ensures multiset(b.retired) == multiset(b.taken)
  {
    NothingLeft(v, ls);
    forall key ensures multiset(b.retired)[key] == multiset(b.taken)[key] {
      NothingLive(ls, key);
      CountIsMultiplicity(b.retired, key);
      CountIsMultiplicity(b.taken, key);
    }
    TotalPermutation(HitOf(v), b.retired, b.taken);
  }
}
