/** The code of lib/common/ch_mpool.c, its loops over the chain and over the slots,
    proved to do what the functions of `Mpool` say. */
module MpoolCode {
  import opened Mpool

  class PoolT {
    var blocks: seq<Block>
    var current: nat
    var large: seq<Slot>
    var max: nat
    var heap: Heap
    ghost var small: seq<Region>

    ghost function View(): Pool
      reads this
    {
      Pool(blocks, current, large, max, heap, small)
    }

    ghost predicate Usable()
      reads this
    {
      Chain(View()) && Psize(View()) >= 0
    }

    /** ch_pool_create, once memalign has answered p. */
    constructor (h: Heap, size: nat, p: nat)
      ensures View() == Create(h, size, p) && Usable()
    {
      var rest := (size - POOL_T) % SIZE_T;
      blocks := [Block(p, p + POOL_T, p + size, 0)];
      current := 0;
      large := [];
      max := if rest < MAX_ALLOC_FROM_POOL then rest else MAX_ALLOC_FROM_POOL;
      heap := Take(h, p, size);
      small := [];
    }

    /** The walk to the end of the chain, lines 114-118. */
    method PassOver()
      requires current < |blocks|
      modifies this`blocks, this`current
      ensures blocks == Bumped(old(blocks), old(current)) && current == Moved(old(blocks), old(current), old(current))
    {
      ghost var was, from := blocks, current;
      var p := current;
      while p < |blocks| - 1
        invariant from <= p < |blocks| == |was|
        invariant current <= p && Moved(was, p, current) == Moved(was, from, from)
        invariant forall i :: 0 <= i < |blocks| ==>
          blocks[i] == if from <= i < p then was[i].(failed := was[i].failed + 1) else was[i]
      {
        var failed := blocks[p].failed;
        blocks := blocks[p := blocks[p].(failed := failed + 1)];
        if failed > 4 {
          current := p + 1;
        }
        p := p + 1;
      }
    }

    /** ch_palloc_block. */
    method PallocBlock(size: nat, m: nat) returns (r: nat)
      requires Usable()
      modifies this
      ensures (View(), r) == Mpool.PallocBlock(old(View()), size, m) && Usable()
    {
      if m == 0 {
        return 0;
      }
      var psize := blocks[0].end - blocks[0].base;
      heap := Take(heap, m, psize);
      r := AlignUp(m + POOL_DATA_T);
      PassOver();
      small := small + [Region(r, size, |blocks|)];
      blocks := blocks + [Block(m, r + size, m + psize, 0)];
    }

    /** Lines 134-140. */
    static method TryBlock(b: Block, size: nat, align: bool) returns (fits: bool, a: nat)
      ensures a == Start(b.last, align) && (fits <==> Fits(b, size, align))
    {
      a := b.last;
      if align {
        a := AlignUp(a);
      }
      fits := (b.end - a) % SIZE_T >= size;
    }

    /** ch_palloc_small. */
    method PallocSmall(size: nat, align: bool, m: nat) returns (r: nat)
      requires Usable()
      modifies this
      ensures (View(), r) == Mpool.PallocSmall(old(View()), size, align, m) && Usable()
    {
      var p := current;
      while p < |blocks|
        invariant current <= p <= |blocks| && View() == old(View())
        invariant FirstFit(blocks, current, size, align) == FirstFit(blocks, p, size, align)
      {
        var fits, a := TryBlock(blocks[p], size, align);
        if fits {
          blocks := blocks[p := blocks[p].(last := a + size)];
          small := small + [Region(a, size, p)];
          return a;
        }
        p := p + 1;
      }
      r := PallocBlock(size, m);
    }

    /** Lines 181-191 and 226-236. */
    method NewSlot(p: nat, m: nat) returns (r: nat)
      requires Usable()
      modifies this
      ensures (View(), r) == Mpool.NewSlot(old(View()), p, m) && Usable()
    {
      var a := PallocSmall(LARGE_T, true, m);
      if a == 0 {
        heap := Free(heap, p);
        return 0;
      }
      large := [Slot(a, p)] + large;
      return p;
    }

    /** ch_palloc_large: at most five slots are looked at. */
    method PallocLarge(size: nat, p: nat, m: nat) returns (r: nat)
      requires Usable()
      modifies this
      ensures (View(), r) == Mpool.PallocLarge(old(View()), size, p, m) && Usable()
    {
      if p == 0 {
        return 0;
      }
      heap := Take(heap, p, size);
      var n, i := 0, 0;
      while i < |large|
        invariant n == i <= |large| && i <= 4
        invariant View() == old(View()).(heap := Take(old(heap), p, size))
        invariant EmptySlot(large, 0) == EmptySlot(large, i)
      {
        if large[i].alloc == 0 {
          large := large[i := large[i].(alloc := p)];
          return p;
        }
        n := n + 1;
        if n - 1 > 3 {
          assert EmptySlot(large, i) == EmptySlot(large, i + 1) == |large|;
          break;
        }
        i := i + 1;
      }
      r := NewSlot(p, m);
    }

    /** ch_palloc (aligned) and ch_pnalloc. */
    method Palloc(size: nat, align: bool, p: nat, m: nat) returns (r: nat)
      requires Usable()
      modifies this
      ensures (View(), r) == Mpool.Palloc(old(View()), size, align, p, m) && Usable()
    {
      if size <= max {
        r := PallocSmall(size, align, m);
      } else {
        r := PallocLarge(size, p, m);
      }
    }

    /** ch_pmemalign. */
    method Pmemalign(size: nat, p: nat, m: nat) returns (r: nat)
      requires Usable()
      modifies this
      ensures (View(), r) == Mpool.Pmemalign(old(View()), size, p, m) && Usable()
    {
      if p == 0 {
        return 0;
      }
      heap := Take(heap, p, size);
      r := NewSlot(p, m);
    }

    /** ch_pfree. */
    method Pfree(p: nat) returns (ok: bool)
      modifies this
      ensures (View(), ok) == Mpool.Pfree(old(View()), p)
    {
      var i := 0;
      while i < |large|
        invariant 0 <= i <= |large| && View() == old(View()) && SlotOf(large, p, 0) == SlotOf(large, p, i)
      {
        if p == large[i].alloc {
          heap := Free(heap, large[i].alloc);
          large := large[i := large[i].(alloc := 0)];
          return true;
        }
        i := i + 1;
      }
      return false;
    }

    /** The loop over the slots in ch_pool_reset and ch_pool_destroy; free is not called for an empty one. */
    method FreeSlots()
      modifies this`heap
      ensures heap == FreeAll(old(heap), Allocs(large))
    {
      var i := 0;
      while i < |large|
        invariant 0 <= i <= |large|
        invariant FreeAll(old(heap), Allocs(large)) == FreeAll(heap, Allocs(large)[i..])
      {
        if large[i].alloc != 0 {
          heap := Free(heap, large[i].alloc);
        }
        assert Allocs(large)[i..][1..] == Allocs(large)[i + 1..];
        i := i + 1;
      }
    }

    /** ch_pool_reset. */
    method Reset()
      modifies this
      ensures View() == Mpool.Reset(old(View()))
    {
      FreeSlots();
      var p := 0;
      while p < |blocks|
        invariant 0 <= p <= |blocks| == old(|blocks|)
        invariant forall i :: 0 <= i < p ==>
          blocks[i] == old(blocks)[i].(last := old(blocks)[i].base + POOL_T, failed := 0)
        invariant forall i :: p <= i < |blocks| ==> blocks[i] == old(blocks)[i]
        invariant max == old(max) && heap == FreeAll(old(heap), Allocs(old(large)))
      {
        blocks := blocks[p := blocks[p].(last := blocks[p].base + POOL_T, failed := 0)];
        p := p + 1;
      }
      assert blocks == Rewound(old(blocks));
      current := 0;
      large := [];
      small := [];
    }

    /** ch_pool_destroy. */
    method Destroy()
      requires Usable()
      modifies this`heap
      ensures heap == Mpool.Destroy(old(View()))
    {
      FreeSlots();
      ghost var h := heap;
      var p := 0;
      while p < |blocks|
        invariant 0 <= p <= |blocks|
        invariant FreeAll(h, Bases(blocks)) == FreeAll(heap, Bases(blocks)[p..])
      {
        heap := Free(heap, blocks[p].base);
        assert Bases(blocks)[p..][1..] == Bases(blocks)[p + 1..];
        p := p + 1;
      }
    }
  }

}
