/** The memory of completion handlers: one slot inside the session, and the heap when
    the slot is taken or too small. */
module HandlerAllocator {
  import opened Arithmetic
  import opened Wrappers

  const STORAGE_SIZE: nat := 1024
  const SIZE_LIMIT: nat := 0x1_0000_0000_0000_0000

  /** A `std::size_t`. */
  newtype Size = x: int | 0 <= x < 0x1_0000_0000_0000_0000

  /** The product as `std::size_t` computes it. */
  function Times(n: Size, elem: Size): Size {
    (n as int * elem as int % SIZE_LIMIT) as Size
  }

  /** The size that is meant. */
  function Bytes(n: Size, elem: Size): nat {
    n as int * elem as int
  }

  /** The test made before allocating. */
  predicate Overflows(n: Size, elem: Size)
    requires 0 < elem
  {
    Times(n, elem) / elem != n
  }

  lemma QuotientTooSmall(a: nat, n: nat, d: nat)
    requires 0 < d && a < n * d
    ensures a / d < n
  {
    var q := a / d;
    assert q * d <= a;
    if n < q {
      MultiplesApart(n, q, d);
    }
  }

  /** The test rejects exactly the requests whose size does not
      fit into a `std::size_t`. */
  lemma OverflowTest(n: Size, elem: Size)
    requires 0 < elem
    ensures Overflows(n, elem) <==> 0x1_0000_0000_0000_0000 <= n as int * elem as int
    ensures !Overflows(n, elem) ==> Times(n, elem) as int == Bytes(n, elem) == n as int * elem as int
  {
    var product := Bytes(n, elem);
    if product < SIZE_LIMIT {
      QuotientAndRemainder(product, elem as int, n as int, 0);
    } else {
      QuotientTooSmall(product % SIZE_LIMIT, n as int, elem as int);
    }
  }

  // ---------- Allocation ----------

  datatype Block = Slot | Heap(id: nat)

  datatype Call = Obtain(n: Size, elem: Size) | Return(p: Block)

  /** The slot of one session, shared by the allocators of all handler types, and the
      blocks in use with the number of bytes asked for. */
  datatype Memory = Memory(inUse: bool, heapCalls: nat, live: map<Block, nat>)

  predicate Matched(m: Memory, c: Call) {
    match c
    case Obtain(_, elem) => 0 < elem
    case Return(p) => p in m.live
  }

  function Target(m: Memory, bytes: nat): Block {
    if !m.inUse && bytes <= STORAGE_SIZE then Slot else Heap(m.heapCalls)
  }

  function Called(m: Memory, c: Call): Memory
    requires Matched(m, c)
  {
    match c
    case Obtain(n, elem) =>
      var bytes: nat := Times(n, elem) as int;
      if Overflows(n, elem) then m
      else if Target(m, bytes) == Slot then Memory(true, m.heapCalls, m.live[Slot := bytes])
      else Memory(m.inUse, m.heapCalls + 1, m.live[Heap(m.heapCalls) := bytes])
    case Return(p) => Memory(m.inUse && p != Slot, m.heapCalls, m.live - {p})
  }

  /** The slot is marked exactly while it is in use, and no block of the heap is handed
      out twice. */
  ghost predicate Sound(m: Memory) {
    && (m.inUse <==> Slot in m.live)
    && (Slot in m.live ==> m.live[Slot] <= STORAGE_SIZE)
    && forall id: nat :: Heap(id) in m.live ==> id < m.heapCalls
  }

  /** Who serves a request, by its size in bytes. */
  lemma ServedBy(m: Memory, n: Size, elem: Size)
    requires Sound(m) && 0 < elem
    ensures var size, m' := n as int * elem as int, Called(m, Obtain(n, elem));
            && (!m.inUse && size <= 1024 ==> m' == Memory(true, m.heapCalls, m.live[Slot := size]))
            && ((m.inUse || 1025 <= size) && size < 0x1_0000_0000_0000_0000 ==>
                  && m' == Memory(m.inUse, m.heapCalls + 1, m.live[Heap(m.heapCalls) := size])
                  && Heap(m.heapCalls) !in m.live)
            && (0x1_0000_0000_0000_0000 <= size ==> m' == m)
  {
    OverflowTest(n, elem);
    hide Bytes, Times, Overflows;
  }

  lemma SizedRight(n: Size, elem: Size)
    requires 0 < elem
    ensures n as int == Bytes(n, elem) <==> elem == 1 || n == 0
  {
    if 0 < n && 1 < elem {
      assert n as int * elem as int == n as int + n as int * (elem as int - 1);
      assert 0 < n as int * (elem as int - 1);
    }
  }

  class HandlerMemory {
    var inUse: bool
    var heapCalls: nat
    ghost var live: map<Block, nat>

    ghost function View(): Memory
      reads this
    {
      Memory(inUse, heapCalls, live)
    }

    constructor ()
      ensures Sound(View()) && View() == Memory(false, 0, map[])
    {
      inUse, heapCalls, live := false, 0, map[];
    }

    /** `SimpleAllocator<T>::allocate`, for elements of the given size; no result stands
        for `std::bad_alloc`. */
    method Allocate(n: Size, elem: Size) returns (p: Option<Block>)
      requires Sound(View()) && 0 < elem
      modifies this
      ensures Sound(View()) && View() == Called(old(View()), Obtain(n, elem))
      ensures p == None <==> 0x1_0000_0000_0000_0000 <= n as int * elem as int
      ensures p == None ==> live == old(live)
      ensures p.Some? ==> p.value !in old(live) && live == old(live)[p.value := n as int * elem as int]
      ensures p == Some(Slot) <==> !old(inUse) && n as int * elem as int <= 1024
      ensures inUse == (old(inUse) || p == Some(Slot))
      ensures heapCalls == if p.Some? && p.value.Heap? then old(heapCalls) + 1 else old(heapCalls)
    {
      hide Times, Overflows;
      OverflowTest(n, elem);
      hide Bytes;
      var bytes := Times(n, elem);
      if Overflows(n, elem) {
        return None;
      }
      if !inUse && bytes as int <= STORAGE_SIZE {
        inUse := true;
        live := live[Slot := bytes as int];
        return Some(Slot);
      }
      p := Some(Heap(heapCalls));
      live := live[Heap(heapCalls) := bytes as int];
      heapCalls := heapCalls + 1;
    }

    /** `SimpleAllocator<T>::deallocate` gives a block back to where it came from. The
        size reported to the heap is the number of elements: the right number of bytes
        only for elements of one byte. */
    method Deallocate(p: Block, n: Size, elem: Size) returns (reported: Option<Size>)
      requires Sound(View()) && p in live && live[p] == Bytes(n, elem) && 0 < elem
      modifies this
      ensures Sound(View()) && View() == Called(old(View()), Return(p))
      ensures reported == None <==> p == Slot
      ensures reported.Some? ==> reported.value == n && (n as int == old(live)[p] <==> elem == 1 || n == 0)
    {
      live := live - {p};
      if p == Slot {
        inUse := false;
        return None;
      }
      SizedRight(n, elem);
      return Some(n);
    }
  }

  /** An instance: a block of the heap for one element of two bytes is given back as a
      block of one byte. */
  method WrongSizeReported() returns (bytes: nat, reported: Option<Size>)
    ensures bytes == 2 && reported == Some(1)
  {
    var memory := new HandlerMemory();
    var slot := memory.Allocate(1, 2);
    var p := memory.Allocate(1, 2);
    assert p.Some? && p.value != Slot;
    bytes := Bytes(1, 2);
    reported := memory.Deallocate(p.value, 1, 2);
  }

  // ---------- Traces of matched calls ----------

  ghost predicate AllMatched(m: Memory, calls: seq<Call>)
    decreases |calls|
  {
    calls == [] || (Matched(m, calls[0]) && AllMatched(Called(m, calls[0]), calls[1..]))
  }

  ghost function AfterCalls(m: Memory, calls: seq<Call>): Memory
    requires AllMatched(m, calls)
    decreases |calls|
  {
    if calls == [] then m else AfterCalls(Called(m, calls[0]), calls[1..])
  }

  function Obtained(calls: seq<Call>): int {
    if calls == [] then 0
    else (match calls[0]
          case Obtain(n, elem) => if n as int * elem as int < 0x1_0000_0000_0000_0000 then 1 else 0
          case Return(_) => -1)
         + Obtained(calls[1..])
  }

  /** Over every trace of matched calls the slot is marked exactly while one block in
      use occupies it, and every call that is not rejected obtains a block of its own:
      the blocks in use are as many as the calls that have obtained one and not yet
      returned it. */
  lemma {:induction false} TraceKeepsMemorySound(m: Memory, calls: seq<Call>)
    requires Sound(m) && AllMatched(m, calls)
    ensures var m' := AfterCalls(m, calls);
            Sound(m') && |m'.live| == |m.live| + Obtained(calls)
    decreases |calls|
  {
    hide Bytes, Times, Overflows;
    if calls != [] {
      var m' := Called(m, calls[0]);
      match calls[0] {
        case Obtain(n, elem) =>
          OverflowTest(n, elem);
        case Return(p) =>
          assert m.live.Keys == m'.live.Keys + {p};
      }
      assert Sound(m');
      TraceKeepsMemorySound(m', calls[1..]);
    }
  }

  /** Requests of at most 1024 bytes, each returned before the next. */
  ghost predicate OneAtATime(calls: seq<Call>) {
    forall i :: 0 <= i < |calls| ==>
      SmallRequest(calls[i]) && (calls[i].Return? || i == |calls| - 1 || calls[i + 1].Return?)
  }

  predicate SmallRequest(c: Call) {
    c.Obtain? ==> c.n as int * c.elem as int <= 1024
  }

  /** What such a handler finds: nothing in use, or only the slot, which it returns next. */
  ghost predicate SlotOnly(m: Memory, calls: seq<Call>) {
    Sound(m) && (m.live.Keys == {} || (m.live.Keys == {Slot} && (calls != [] ==> calls[0].Return?)))
  }

  /** It never reaches the heap. */
  lemma {:induction false} SlotSuffices(m: Memory, calls: seq<Call>)
    requires SlotOnly(m, calls) && AllMatched(m, calls) && OneAtATime(calls)
    ensures AfterCalls(m, calls).heapCalls == m.heapCalls
    ensures AfterCalls(m, calls).live.Keys <= {Slot}
    decreases |calls|
  {
    if calls != [] {
      hide Called;
      var m', rest := Called(m, calls[0]), calls[1..];
      FoundAgain(m, calls);
      assert OneAtATime(rest) by {
        forall i | 0 <= i < |rest| ensures SmallRequest(rest[i])
        ensures rest[i].Return? || i == |rest| - 1 || rest[i + 1].Return? {
          assert rest[i] == calls[i + 1];
        }
      }
      SlotSuffices(m', rest);
    }
  }

  lemma FoundAgain(m: Memory, calls: seq<Call>)
    requires SlotOnly(m, calls) && calls != [] && Matched(m, calls[0]) && OneAtATime(calls)
    ensures SlotOnly(Called(m, calls[0]), calls[1..]) && Called(m, calls[0]).heapCalls == m.heapCalls
  {
    assert 1 < |calls| ==> calls[1..][0] == calls[1];
    match calls[0] {
      case Obtain(n, elem) =>
        assert SmallRequest(calls[0]) && (|calls| == 1 || calls[1].Return?);
        ServedBy(m, n, elem);
        hide Called;
        assert Called(m, calls[0]).live.Keys == {Slot};
      case Return(p) =>
        assert Called(m, calls[0]).live.Keys == m.live.Keys - {p};
    }
  }
}
