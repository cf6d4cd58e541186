/** The caching allocator of coroutine frames: freed blocks go on a list and the
    most recently freed one is handed out again. */
module TcAlloc {

  /** A block of memory, numbered by the call of `malloc` that returned it. */
  type Block = nat

  datatype Header = Header(block: Block, size: nat)

  class Allocator {
    var root: seq<Header>
    var lastSizeAllocated: nat
    var total: nat
    var allocCount: nat
    ghost var live: set<Block>
    ghost var capacity: seq<nat>

    constructor ()
      ensures Valid() && Honest() && root == [] && live == {}
      ensures allocCount == total == lastSizeAllocated == 0
    {
      root, lastSizeAllocated, total, allocCount := [], 0, 0, 0;
      live, capacity := {}, [];
    }

    /** Every block ever obtained is either in use or on the list, once. */
    ghost predicate Valid()
      reads this
    {
      && |capacity| == allocCount
      && (forall i, j :: 0 <= i < j < |root| ==> root[i].block != root[j].block)
      && (forall i :: 0 <= i < |root| ==> root[i].block < allocCount && root[i].block !in live)
      && (forall b :: b in live ==> b < allocCount)
      && |live| + |root| == allocCount
    }

    /** The header of a freed block states its real size. */
    ghost predicate Honest()
      reads this
    {
      forall i :: 0 <= i < |root| ==> root[i].block < |capacity| && root[i].size == capacity[root[i].block]
    }

    /** Only blocks of one size have ever been asked for. */
    ghost predicate Uniform(sz: nat)
      reads this
    {
      && (forall i :: 0 <= i < |root| ==> root[i].size == sz)
      && (forall b :: 0 <= b < |capacity| ==> capacity[b] == sz)
      && total == allocCount * sz
    }

    method Alloc(sz: nat) returns (p: Block)
      requires Valid()
      modifies this
      ensures Valid() && p !in old(live) && live == old(live) + {p} && p < |capacity|
      ensures if old(root) != [] && old(root)[0].size <= sz
              then root == old(root)[1..] && p == old(root)[0].block
                   && allocCount == old(allocCount) && total == old(total) && capacity == old(capacity)
              else root == old(root) && p == old(allocCount)
                   && allocCount == old(allocCount) + 1 && total == old(total) + sz && capacity == old(capacity) + [sz]
      ensures lastSizeAllocated == if allocCount == old(allocCount) then old(lastSizeAllocated) else sz
      ensures old(Honest()) ==> Honest() && (capacity[p] >= sz <==> !(old(root) != [] && old(root)[0].size < sz))
      ensures old(Uniform(sz)) ==> Uniform(sz)
    {
      if root != [] && root[0].size <= sz {
        p := root[0].block;
        root := root[1..];
        live := live + {p};
        return;
      }
      p := allocCount;
      allocCount := allocCount + 1;
      total := total + sz;
      lastSizeAllocated := sz;
      capacity := capacity + [sz];
      live := live + {p};
    }

    method Free(p: Block, sz: nat)
      requires Valid() && p in live
      modifies this
      ensures Valid() && live == old(live) - {p} && root == [Header(p, sz)] + old(root)
      ensures allocCount == old(allocCount) && total == old(total) && capacity == old(capacity)
      ensures lastSizeAllocated == old(lastSizeAllocated)
      ensures old(Uniform(sz)) ==> Uniform(sz)
      ensures p < |capacity| && (old(Honest()) ==> (Honest() <==> capacity[p] == sz))
    {
      root := [Header(p, sz)] + root;
      assert root[0] == Header(p, sz) && forall i :: 1 <= i < |root| ==> root[i] == old(root)[i - 1];
      live := live - {p};
    }
  }

  /** The reuse test lets a block through that is too small for the request: after a
      block of 8 bytes has been freed, a request for 16 is given that block. */
  method TooSmallABlock() returns (a: Allocator, p: Block)
    ensures fresh(a) && a.Valid() && p in a.live && p < |a.capacity| && a.capacity[p] == 8
    ensures a.allocCount == 1
  {
    a := new Allocator();
    var q := a.Alloc(8);
    a.Free(q, 8);
    p := a.Alloc(16);
  }
}
