/** The ring of suspended coroutines: 256 slots, no test for overflow. */
module SchedulerQueue {
  import opened Wrappers

  /** The address of a suspended coroutine's frame. */
  type Handle = nat

  const N: nat := 256

  /** The slot k places behind the one at index `tail`. */
  function Slot(tail: nat, k: nat): nat {
    (tail + k) % N
  }

  lemma SlotsAround(tail: nat, k: nat)
    requires tail < N
    ensures Slot(tail, k) < N && Slot(tail, 0) == tail == Slot(tail, N)
    ensures Slot(tail, k + 1) == (Slot(tail, k) + 1) % N == Slot((tail + 1) % N, k)
  {
  }

  lemma SlotsApart(tail: nat, j: nat, k: nat)
    requires j < k < j + N
    ensures Slot(tail, j) != Slot(tail, k)
  {
  }

  /** `queued` is what a reader of the ring would pop, front first. Because
      `head == tail` means both empty and full, a push that finds 256 handles
      queued makes all of them unreachable. */
  class Ring {
    var head: nat
    var tail: nat
    const arr: array<Handle>
    ghost var queued: seq<Handle>

    constructor ()
      ensures Valid() && queued == [] && fresh(arr) && arr.Length == 256
    {
      head, tail := 0, 0;
      arr := new Handle[N];
      queued := [];
    }

    ghost predicate Valid()
      reads this, arr
    {
      && arr.Length == N && head < N && tail < N
      && |queued| <= N
      && head == Slot(tail, |queued|)
      && forall k :: 0 <= k < |queued| ==> arr[Slot(tail, k)] == queued[k]
    }

    /** The test the ring makes before popping. */
    predicate Drained()
      reads this
    {
      head == tail
    }

    /** A ring that looks empty is as good as empty: whatever a full one still holds
        is given up. */
    ghost method Forget()
      requires Valid() && Drained()
      modifies this`queued
      ensures Valid() && queued == []
    {
      queued := [];
    }

    method PushBack(h: Handle)
      requires Valid()
      modifies this, arr
      ensures Valid()
      ensures queued == Pushed(old(queued), h)
    {
      hide Slot;
      SlotsAround(tail, |queued|);
      forall k | 0 <= k < |queued| < N ensures Slot(tail, k) != head {
        SlotsApart(tail, k, |queued|);
      }
      arr[head] := h;
      head := (head + 1) % N;
      SlotsAround(tail, 0);
      queued := Pushed(queued, h);
    }

    method PopFront() returns (h: Handle)
      requires Valid() && queued != []
      modifies this
      ensures Valid()
      ensures h == old(queued)[0] && queued == old(queued)[1..]
    {
      h := arr[tail];
      tail := (tail + 1) % N;
      hide Slot;
      SlotsAround(old(tail), 0);
      forall k | 0 <= k < |queued| ensures Slot(tail, k) == Slot(old(tail), k + 1) {
        SlotsAround(old(tail), k);
      }
      queued := queued[1..];
    }

    /** Pops the front of the queue, unless the ring looks empty: which it does when
        nothing is queued, and also when all 256 slots are in use. */
    method TryPopFront() returns (h: Option<Handle>)
      requires Valid()
      modifies this
      ensures Valid()
      ensures h == None <==> old(|queued|) == 0 || old(|queued|) == N
      ensures h == None ==> queued == old(queued) && head == old(head) && tail == old(tail)
      ensures h.Some? ==> h.value == old(queued)[0] && queued == old(queued)[1..]
    {
      if head != tail {
        var front := PopFront();
        h := Some(front);
      } else {
        h := None;
      }
    }
  }

  /** The queue after a push: first in, first out, as long as a slot is free. */
  ghost function Pushed(q: seq<Handle>, h: Handle): seq<Handle> {
    if |q| < N then q + [h] else [h]
  }
}
