/** What the pool allocator keeps over every run, and when. */
module MpoolProps {
  import opened Mpool

  // -------------------------------------------------------------- invariant

  ghost predicate HeapOk(h: Heap) {
    && !h.fault && 0 !in h.live && h.obtained == h.released + |h.live|
    && forall a, b :: a in h.live && b in h.live && a != b ==> Apart(a, h.live[a], b, h.live[b])
  }

  /** Nonzero entries are different from each other. */
  ghost predicate Distinct(xs: seq<nat>) {
    forall i, j :: 0 <= i < j < |xs| && xs[i] != 0 ==> xs[i] != xs[j]
  }

  /** The live heap blocks are those that the pool can reach, each in one place. */
  ghost predicate Owned(live: map<nat, nat>, xs: seq<nat>) {
    && Distinct(xs)
    && (forall a :: a in live <==> a != 0 && a in xs)
  }

  function Header(k: nat): nat {
    if k == 0 then POOL_T else POOL_DATA_T
  }

  ghost predicate BlockOk(b: Block, k: nat, psize: nat) {
    && b.base % POOL_ALIGNMENT == 0 && b.end == b.base + psize < SIZE_T
    && b.base + Header(k) <= b.last <= b.end
  }

  ghost predicate BlocksOk(blocks: seq<Block>, live: map<nat, nat>, psize: nat) {
    && (forall k :: 0 <= k < |blocks| ==>
          && BlockOk(blocks[k], k, psize) && blocks[k].base != 0
          && blocks[k].base in live && live[blocks[k].base] == psize)
    && (forall i, j :: 0 <= i < j < |blocks| ==> blocks[i].base != blocks[j].base)
  }

  ghost predicate SizesOk(s: Pool) {
    Chain(s) && POOL_T <= Psize(s) < SIZE_T && Psize(s) % ALIGNMENT == 0 && s.max <= Psize(s) - POOL_T
  }

  ghost predicate Cut(r: Region, blocks: seq<Block>) {
    && r.block < |blocks|
    && blocks[r.block].base + Header(r.block) <= r.addr
    && r.addr + r.len <= blocks[r.block].last
  }

  /** The regions lie in their blocks, past the header, and overlap nowhere. */
  ghost predicate RegionsOk(small: seq<Region>, blocks: seq<Block>) {
    && (forall i :: 0 <= i < |small| ==> Cut(small[i], blocks))
    && (forall i, j :: 0 <= i < j < |small| ==> Apart(small[i].addr, small[i].len, small[j].addr, small[j].len))
  }

  ghost predicate Listed(a: nat, small: seq<Region>) {
    exists q :: 0 <= q < |small| && small[q].addr == a && small[q].len == LARGE_T
  }

  /** The slots are regions of their own. */
  ghost predicate SlotsOk(large: seq<Slot>, small: seq<Region>) {
    && (forall i :: 0 <= i < |large| ==> Listed(large[i].addr, small))
    && (forall i, j :: 0 <= i < j < |large| ==> large[i].addr != large[j].addr)
  }

  /** A block is passed over for good exactly after six failed requests. */
  ghost predicate FailuresOk(blocks: seq<Block>, current: nat) {
    && (forall i :: 0 <= i < |blocks| ==> (i < current <==> blocks[i].failed > 5))
    && (forall i, j :: current <= i < j < |blocks| ==> blocks[i].failed >= blocks[j].failed)
  }

  /** The chain, the regions and the slots are in order. */
  ghost predicate Shape(s: Pool) {
    && SizesOk(s) && HeapOk(s.heap) && BlocksOk(s.blocks, s.heap.live, Psize(s))
    && RegionsOk(s.small, s.blocks) && SlotsOk(s.large, s.small) && FailuresOk(s.blocks, s.current)
  }

  ghost predicate Owns(s: Pool) {
    Owned(s.heap.live, Bases(s.blocks) + Allocs(s.large))
  }

  ghost predicate Inv(s: Pool) {
    Shape(s) && Owns(s)
  }

  // ---------------------------------------------------------- small requests

  lemma FitsExactly(b: Block, k: nat, psize: nat, size: nat, align: bool)
    requires BlockOk(b, k, psize) && psize % ALIGNMENT == 0 && psize < SIZE_T
    ensures Start(b.last, align) <= b.end
    ensures Fits(b, size, align) <==> Start(b.last, align) + size <= b.end
  {
    AlignedEnd(b.base, psize);
    AlignedBelow(b.last, b.end);
    SmallDifference(b.end - Start(b.last, align));
  }

  lemma AlignedEnd(base: nat, psize: nat)
    requires base % POOL_ALIGNMENT == 0 && psize % ALIGNMENT == 0
    ensures (base + psize) % ALIGNMENT == 0
  {
  }

  lemma AlignedBelow(last: nat, end: nat)
    requires last <= end && end % ALIGNMENT == 0
    ensures AlignUp(last) <= end
  {
    var x, y := AlignUp(last) / 8, end / 8;
    assert AlignUp(last) == 8 * x && end == 8 * y;
  }

  lemma SmallDifference(d: nat)
    requires d < SIZE_T
    ensures d % SIZE_T == d
  {
  }

  /** A region cut behind `last` is apart from every region handed out so far. */
  lemma CutApart(h: Heap, blocks: seq<Block>, psize: nat, small: seq<Region>, k: nat, a: nat, n: nat)
    requires HeapOk(h) && BlocksOk(blocks, h.live, psize) && RegionsOk(small, blocks)
    requires k < |blocks| && blocks[k].last <= a && a + n <= blocks[k].end
    ensures forall i :: 0 <= i < |small| ==> Apart(small[i].addr, small[i].len, a, n)
  {
    forall i | 0 <= i < |small|
      ensures Apart(small[i].addr, small[i].len, a, n)
    {
      var r := small[i];
      assert Cut(r, blocks);
      if r.block != k {
        var b, c := blocks[r.block], blocks[k];
        assert b.base != c.base;
        assert Apart(b.base, psize, c.base, psize);
      }
    }
  }

  /** One region more, cut from blocks that have only grown. */
  lemma RegionAdded(small: seq<Region>, blocks: seq<Block>, blocks': seq<Block>, r: Region)
    requires RegionsOk(small, blocks) && |blocks| <= |blocks'| && Cut(r, blocks')
    requires forall k :: 0 <= k < |blocks| ==> blocks'[k].base == blocks[k].base && blocks[k].last <= blocks'[k].last
    requires forall i :: 0 <= i < |small| ==> Apart(small[i].addr, small[i].len, r.addr, r.len)
    ensures RegionsOk(small + [r], blocks')
  {
    forall i | 0 <= i < |small|
      ensures Cut(small[i], blocks')
    {
      assert Cut(small[i], blocks);
    }
  }

  /** Cutting a region off a block. */
  lemma CutOff(h: Heap, blocks: seq<Block>, psize: nat, small: seq<Region>, k: nat, size: nat, align: bool)
    requires HeapOk(h) && BlocksOk(blocks, h.live, psize) && psize < SIZE_T && psize % ALIGNMENT == 0
    requires RegionsOk(small, blocks) && k < |blocks| && Fits(blocks[k], size, align)
    ensures var a := Start(blocks[k].last, align);
            var blocks' := blocks[k := blocks[k].(last := a + size)];
            && a != 0 && BlocksOk(blocks', h.live, psize) && RegionsOk(small + [Region(a, size, k)], blocks')
  {
    var a := Start(blocks[k].last, align);
    var blocks' := blocks[k := blocks[k].(last := a + size)];
    FitsExactly(blocks[k], k, psize, size, align);
    CutApart(h, blocks, psize, small, k, a, size);
    RegionAdded(small, blocks, blocks', Region(a, size, k));
  }

  lemma LastAlone(blocks: seq<Block>, current: nat, k: nat, last: nat)
    requires k < |blocks| && FailuresOk(blocks, current)
    ensures var blocks' := blocks[k := blocks[k].(last := last)];
            FailuresOk(blocks', current) && Bases(blocks') == Bases(blocks)
  {
    var blocks' := blocks[k := blocks[k].(last := last)];
    assert forall i :: 0 <= i < |blocks| ==> blocks'[i].failed == blocks[i].failed;
  }

  lemma ChainBlocks(s: Pool, s': Pool, k: nat, size: nat, align: bool)
    requires SizesOk(s) && HeapOk(s.heap) && BlocksOk(s.blocks, s.heap.live, Psize(s)) && RegionsOk(s.small, s.blocks)
    requires k < |s.blocks| && Fits(s.blocks[k], size, align)
    requires var a := Start(s.blocks[k].last, align);
             s' == s.(blocks := s.blocks[k := s.blocks[k].(last := a + size)], small := s.small + [Region(a, size, k)])
    ensures SizesOk(s') && BlocksOk(s'.blocks, s'.heap.live, Psize(s')) && RegionsOk(s'.small, s'.blocks)
    ensures Psize(s') == Psize(s) && Start(s.blocks[k].last, align) != 0
  {
    assert s'.blocks[0].base == s.blocks[0].base && s'.blocks[0].end == s.blocks[0].end;
    CutOff(s.heap, s.blocks, Psize(s), s.small, k, size, align);
  }

  /** The request is served from a block of the chain. */
  lemma FromChain(s: Pool, size: nat, align: bool, m: nat)
    requires Shape(s) && FirstFit(s.blocks, s.current, size, align) < |s.blocks|
    ensures var (s', a) := PallocSmall(s, size, align, m);
            Shape(s') && Psize(s') == Psize(s) && a != 0 && (align ==> a % ALIGNMENT == 0)
  {
    var k := FirstFit(s.blocks, s.current, size, align);
    var a := Start(s.blocks[k].last, align);
    ChainBlocks(s, PallocSmall(s, size, align, m).0, k, size, align);
    LastAlone(s.blocks, s.current, k, a + size);
    SlotsKept(s.large, s.small, Region(a, size, k));
  }

  lemma SlotsKept(large: seq<Slot>, small: seq<Region>, r: Region)
    requires SlotsOk(large, small)
    ensures SlotsOk(large, small + [r])
  {
    forall i | 0 <= i < |large|
      ensures Listed(large[i].addr, small + [r])
    {
      var q :| 0 <= q < |small| && small[q].addr == large[i].addr && small[q].len == LARGE_T;
      assert (small + [r])[q] == small[q];
    }
  }

  lemma HeapTake(h: Heap, a: nat, n: nat)
    requires HeapOk(h) && a != 0 && Fresh(h, a, n)
    ensures HeapOk(Take(h, a, n))
  {
    assert h.live[a := n].Keys == h.live.Keys + {a};
    assert |h.live| == |h.live.Keys| && |h.live[a := n]| == |h.live[a := n].Keys|;
  }

  /** Passing over blocks keeps the failure counts in order. */
  lemma {:induction false} MovedPast(blocks: seq<Block>, k: nat, current: nat)
    requires current <= k < |blocks|
    requires forall i, j :: current <= i < j < |blocks| ==> blocks[i].failed >= blocks[j].failed
    ensures forall i :: current <= i < Moved(blocks, k, current) ==> blocks[i].failed > 4
    decreases |blocks| - k
  {
    if k < |blocks| - 1 {
      MovedPast(blocks, k + 1, if blocks[k].failed > 4 then k + 1 else current);
    }
  }

  lemma {:induction false} MovedRest(blocks: seq<Block>, k: nat, current: nat)
    requires k < |blocks| && current <= k
    ensures forall i :: Moved(blocks, k, current) <= i < |blocks| - 1 && k <= i ==> blocks[i].failed <= 4
    decreases |blocks| - k
  {
    if k < |blocks| - 1 {
      MovedRest(blocks, k + 1, if blocks[k].failed > 4 then k + 1 else current);
    }
  }

  lemma FailuresKept(blocks: seq<Block>, current: nat, b: Block)
    requires current < |blocks| && FailuresOk(blocks, current) && b.failed == 0
    ensures FailuresOk(Bumped(blocks, current) + [b], Moved(blocks, current, current))
  {
    MovedPast(blocks, current, current);
    MovedRest(blocks, current, current);
    var r := Bumped(blocks, current) + [b];
    var n := |blocks|;
    assert r[n] == b && forall i :: 0 <= i < n ==> r[i] == Bumped(blocks, current)[i];
  }

  /** blocks' is blocks with a block more, from which size bytes are cut. */
  ghost predicate Linked(blocks: seq<Block>, blocks': seq<Block>, m: nat, size: nat, psize: nat) {
    && |blocks'| == |blocks| + 1
    && blocks'[|blocks|] == Block(m, m + POOL_DATA_T + size, m + psize, 0)
    && forall k :: 0 <= k < |blocks| ==>
         blocks'[k].base == blocks[k].base && blocks'[k].last == blocks[k].last && blocks'[k].end == blocks[k].end
  }

  lemma LinkBlock(h: Heap, blocks: seq<Block>, blocks': seq<Block>, psize: nat, small: seq<Region>, m: nat, size: nat)
    requires BlocksOk(blocks, h.live, psize) && RegionsOk(small, blocks) && blocks != []
    requires m != 0 && FreshBlock(h, m, psize) && POOL_DATA_T + size <= psize && Linked(blocks, blocks', m, size, psize)
    ensures BlocksOk(blocks', h.live[m := psize], psize)
    ensures RegionsOk(small + [Region(m + POOL_DATA_T, size, |blocks|)], blocks')
  {
    NewBlockOk(blocks, blocks', h.live, psize, m);
    NewBlockApart(blocks, h, psize, small, m, m + POOL_DATA_T, size);
    RegionAdded(small, blocks, blocks', Region(m + POOL_DATA_T, size, |blocks|));
  }

  lemma LinkedBlocks(s: Pool, s': Pool, size: nat, m: nat)
    requires SizesOk(s) && BlocksOk(s.blocks, s.heap.live, Psize(s)) && RegionsOk(s.small, s.blocks)
    requires size <= Psize(s) - POOL_DATA_T && m != 0 && FreshBlock(s.heap, m, Psize(s))
    requires Linked(s.blocks, s'.blocks, m, size, Psize(s))
    requires s'.small == s.small + [Region(m + POOL_DATA_T, size, |s.blocks|)]
    requires s'.heap.live == s.heap.live[m := Psize(s)] && s'.max == s.max && s'.current < |s.blocks|
    ensures SizesOk(s') && Psize(s') == Psize(s)
    ensures BlocksOk(s'.blocks, s'.heap.live, Psize(s')) && RegionsOk(s'.small, s'.blocks)
  {
    LinkBlock(s.heap, s.blocks, s'.blocks, Psize(s), s.small, m, size);
  }

  /** What ch_palloc_block leaves behind, field by field. */
  lemma BlockFields(s: Pool, size: nat, m: nat)
    requires SizesOk(s) && m != 0 && m % POOL_ALIGNMENT == 0
    ensures var (s', a) := PallocBlock(s, size, m);
            && a == m + POOL_DATA_T && Linked(s.blocks, s'.blocks, m, size, Psize(s))
            && s'.small == s.small + [Region(a, size, |s.blocks|)] && s'.heap == Take(s.heap, m, Psize(s))
            && s'.max == s.max && s'.current < |s.blocks| && s'.large == s.large
            && s'.blocks == Bumped(s.blocks, s.current) + [Block(m, a + size, m + Psize(s), 0)]
            && s'.current == Moved(s.blocks, s.current, s.current)
  {
    AlignedEnd(m, POOL_DATA_T);
  }

  /** A new block is added to the chain. */
  lemma FromNewBlock(s: Pool, size: nat, m: nat)
    requires Shape(s) && size <= Psize(s) - POOL_DATA_T && m != 0 && FreshBlock(s.heap, m, Psize(s))
    ensures var (s', a) := PallocBlock(s, size, m);
            Shape(s') && Psize(s') == Psize(s) && a == m + POOL_DATA_T
  {
    var s' := PallocBlock(s, size, m).0;
    BlockFields(s, size, m);
    LinkedBlocks(s, s', size, m);
    HeapTake(s.heap, m, Psize(s));
    FailuresKept(s.blocks, s.current, Block(m, m + POOL_DATA_T + size, m + Psize(s), 0));
    SlotsKept(s.large, s.small, Region(m + POOL_DATA_T, size, |s.blocks|));
  }

  lemma NewBlockOk(blocks: seq<Block>, blocks': seq<Block>, live: map<nat, nat>, psize: nat, m: nat)
    requires BlocksOk(blocks, live, psize) && m != 0 && m !in live
    requires |blocks'| == |blocks| + 1 && BlockOk(blocks'[|blocks|], |blocks|, psize) && blocks'[|blocks|].base == m
    requires forall k :: 0 <= k < |blocks| ==>
      blocks'[k].base == blocks[k].base && blocks'[k].last == blocks[k].last && blocks'[k].end == blocks[k].end
    ensures BlocksOk(blocks', live[m := psize], psize)
  {
  }

  lemma NewBlockApart(blocks: seq<Block>, h: Heap, psize: nat, small: seq<Region>, m: nat, a: nat, size: nat)
    requires BlocksOk(blocks, h.live, psize) && RegionsOk(small, blocks)
    requires m != 0 && Fresh(h, m, psize) && m <= a && a + size <= m + psize
    ensures forall i :: 0 <= i < |small| ==> Apart(small[i].addr, small[i].len, a, size)
  {
    forall i | 0 <= i < |small|
      ensures Apart(small[i].addr, small[i].len, a, size)
    {
      assert Cut(small[i], blocks);
      var b := blocks[small[i].block];
      assert Apart(m, psize, b.base, psize);
    }
  }

  /** One more owner for one more live block, at any place. */
  lemma OwnedInsert(live: map<nat, nat>, xs: seq<nat>, ys: seq<nat>, p: nat, n: nat)
    requires Owned(live, xs + ys) && p != 0 && p !in live
    ensures Owned(live[p := n], xs + [p] + ys)
  {
    var all, all' := xs + ys, xs + [p] + ys;
    assert p !in all;
    InsertedIn(xs, ys, p);
    forall i, j | 0 <= i < j < |all'| && all'[i] != 0
      ensures all'[i] != all'[j]
    {
      assert all'[i] == if i < |xs| then all[i] else if i == |xs| then p else all[i - 1];
      assert all'[j] == if j < |xs| then all[j] else if j == |xs| then p else all[j - 1];
    }
  }

  lemma InsertedIn(xs: seq<nat>, ys: seq<nat>, p: nat)
    ensures forall a :: a in xs + [p] + ys <==> a in xs + ys || a == p
  {
    forall a
      ensures a in xs + [p] + ys <==> a in xs + ys || a == p
    {
      assert a in xs + [p] + ys <==> a in xs || a in [p] || a in ys;
      assert a in xs + ys <==> a in xs || a in ys;
    }
  }

  /** The owners change only by a new block. */
  lemma SmallOwns(s: Pool, size: nat, align: bool, m: nat, ys: seq<nat>)
    requires Chain(s) && Psize(s) >= 0 && m !in s.heap.live
    requires Owned(s.heap.live, Bases(s.blocks) + ys)
    ensures var s' := PallocSmall(s, size, align, m).0;
            Owned(s'.heap.live, Bases(s'.blocks) + ys)
  {
    var s' := PallocSmall(s, size, align, m).0;
    if FirstFit(s.blocks, s.current, size, align) < |s.blocks| {
      assert Bases(s'.blocks) == Bases(s.blocks);
    } else if m != 0 {
      assert Bases(s'.blocks) == Bases(s.blocks) + [m];
      OwnedInsert(s.heap.live, Bases(s.blocks), ys, m, Psize(s));
    }
  }

  /** Small requests: the invariant is kept, the region is new, and NULL comes from memalign alone. */
  lemma SmallKeeps(s: Pool, size: nat, align: bool, m: nat)
    requires Shape(s) && size <= Psize(s) - POOL_DATA_T && FreshBlock(s.heap, m, Psize(s))
    ensures var (s', a) := PallocSmall(s, size, align, m);
            && Shape(s') && Psize(s') == Psize(s)
            && (a == 0 <==> m == 0 && FirstFit(s.blocks, s.current, size, align) == |s.blocks|)
            && (a == 0 ==> s' == s)
            && (a != 0 && align ==> a % ALIGNMENT == 0)
  {
    if FirstFit(s.blocks, s.current, size, align) < |s.blocks| {
      FromChain(s, size, align, m);
    } else if m != 0 {
      FromNewBlock(s, size, m);
    }
  }

  /** A served request is recorded as the newest region; slots and limit stay. */
  lemma SmallRecorded(s: Pool, size: nat, align: bool, m: nat)
    requires Chain(s) && Psize(s) >= 0
    ensures var (s', a) := PallocSmall(s, size, align, m);
            && s'.large == s.large && s'.max == s.max
            && (a != 0 ==> exists k :: s'.small == s.small + [Region(a, size, k)])
  {
  }

  // ------------------------------------------------------- owners and the heap

  /** One owner gives up its block. */
  lemma OwnedRemove(live: map<nat, nat>, xs: seq<nat>, ys: seq<nat>, p: nat)
    requires Owned(live, xs + [p] + ys)
    ensures Owned(if p == 0 then live else live - {p}, xs + ys)
    ensures p != 0 ==> p in live && p !in xs
  {
    var all, all' := xs + ys, xs + [p] + ys;
    InsertedIn(xs, ys, p);
    assert all'[|xs|] == p;
    assert forall i :: 0 <= i < |all| ==> all[i] == all'[if i < |xs| then i else i + 1];
    assert forall i :: 0 <= i < |xs| ==> all'[i] == xs[i];
    if p != 0 {
      assert forall i :: 0 <= i < |all| ==> all[i] != p;
    }
  }

  /** An owner without a block gets one. */
  lemma OwnedFill(live: map<nat, nat>, xs: seq<nat>, i: nat, p: nat, n: nat)
    requires Owned(live, xs) && i < |xs| && xs[i] == 0 && p != 0 && p !in live
    ensures Owned(live[p := n], xs[i := p])
  {
    assert xs == xs[..i] + [0] + xs[i + 1..];
    assert xs[i := p] == xs[..i] + [p] + xs[i + 1..];
    OwnedRemove(live, xs[..i], xs[i + 1..], 0);
    OwnedInsert(live, xs[..i], xs[i + 1..], p, n);
  }

  /** An owner gives its block back and stays, empty. */
  lemma OwnedEmpty(live: map<nat, nat>, xs: seq<nat>, i: nat)
    requires Owned(live, xs) && i < |xs| && xs[i] != 0
    ensures Owned(live - {xs[i]}, xs[i := 0]) && xs[i] in live && forall j :: 0 <= j < |xs| && j != i ==> xs[j] != xs[i]
  {
    var p, ys := xs[i], xs[i := 0];
    assert xs[i] in xs;
    assert forall j :: 0 <= j < |xs| && j != i ==> ys[j] == xs[j] && xs[j] != p;
    forall a | a != 0
      ensures a in ys <==> a in xs && a != p
    {
      if a in xs && a != p {
        var j :| 0 <= j < |xs| && xs[j] == a;
        assert ys[j] == a;
      }
    }
  }

  lemma HeapFree(h: Heap, a: nat)
    requires HeapOk(h) && (a == 0 || a in h.live)
    ensures HeapOk(Free(h, a))
  {
    if a != 0 {
      assert (h.live - {a}).Keys == h.live.Keys - {a};
      assert |h.live| == |h.live.Keys| && |h.live - {a}| == |(h.live - {a}).Keys|;
    }
  }

  /** Releasing all of ys leaves just what xs own. */
  lemma {:induction false} FreeAllOwned(h: Heap, xs: seq<nat>, ys: seq<nat>)
    requires HeapOk(h) && Owned(h.live, xs + ys)
    ensures var h' := FreeAll(h, ys);
            HeapOk(h') && Owned(h'.live, xs) && forall a :: a in h'.live ==> a in h.live && h'.live[a] == h.live[a]
    decreases |ys|
  {
    if ys == [] {
      assert xs + ys == xs;
    } else {
      assert xs + ys == xs + [ys[0]] + ys[1..];
      OwnedRemove(h.live, xs, ys[1..], ys[0]);
      HeapFree(h, ys[0]);
      FreeAllOwned(Free(h, ys[0]), xs, ys[1..]);
    }
  }

  // ---------------------------------------------------------- large requests

  lemma BlocksTake(blocks: seq<Block>, live: map<nat, nat>, psize: nat, p: nat, n: nat)
    requires BlocksOk(blocks, live, psize) && p !in live
    ensures BlocksOk(blocks, live[p := n], psize)
  {
  }

  /** A heap block obtained for a large request; it is not yet in a slot. */
  lemma TakeShape(s: Pool, p: nat, n: nat)
    requires Shape(s) && p != 0 && Fresh(s.heap, p, n)
    ensures Shape(s.(heap := Take(s.heap, p, n)))
  {
    HeapTake(s.heap, p, n);
    BlocksTake(s.blocks, s.heap.live, Psize(s), p, n);
  }

  /** Releasing a block that is not one of the chain. */
  lemma FreeKeeps(s: Pool, p: nat)
    requires Shape(s) && (p == 0 || p in s.heap.live) && p !in Bases(s.blocks)
    ensures Shape(s.(heap := Free(s.heap, p)))
  {
    HeapFree(s.heap, p);
    if p != 0 {
      BlocksFree(s.blocks, s.heap.live, Psize(s), p);
      HeapShape(s, Free(s.heap, p));
    }
  }

  lemma HeapShape(s: Pool, h: Heap)
    requires Shape(s) && HeapOk(h) && BlocksOk(s.blocks, h.live, Psize(s))
    ensures Shape(s.(heap := h))
  {
  }

  lemma BlocksFree(blocks: seq<Block>, live: map<nat, nat>, psize: nat, p: nat)
    requires BlocksOk(blocks, live, psize) && p !in Bases(blocks)
    ensures BlocksOk(blocks, live - {p}, psize)
  {
    assert forall k :: 0 <= k < |blocks| ==> Bases(blocks)[k] == blocks[k].base;
  }

  lemma SlotApart(large: seq<Slot>, small: seq<Region>, blocks: seq<Block>, r: Region, i: nat)
    requires SlotsOk(large, small) && RegionsOk(small + [r], blocks) && r.len == LARGE_T && i < |large|
    ensures large[i].addr != r.addr
  {
    assert Listed(large[i].addr, small);
    var q :| 0 <= q < |small| && small[q].addr == large[i].addr && small[q].len == LARGE_T;
    var all := small + [r];
    assert all[q] == small[q] && all[|small|] == r;
  }

  /** A region of the right size becomes the first slot. */
  lemma SlotAdded(large: seq<Slot>, small: seq<Region>, blocks: seq<Block>, r: Region, p: nat)
    requires SlotsOk(large, small) && RegionsOk(small + [r], blocks) && r.len == LARGE_T
    ensures SlotsOk([Slot(r.addr, p)] + large, small + [r])
  {
    var large' := [Slot(r.addr, p)] + large;
    SlotsKept(large, small, r);
    assert (small + [r])[|small|] == r;
    assert Listed(r.addr, small + [r]);
    forall i | 0 <= i < |large|
      ensures large[i].addr != r.addr
    {
      SlotApart(large, small, blocks, r, i);
    }
    assert forall i :: 1 <= i < |large'| ==> large'[i] == large[i - 1];
  }

  /** A new slot for p, or p is released again. */
  lemma NewSlotShape(s: Pool, p: nat, m: nat)
    requires Shape(s) && p in s.heap.live && p !in Bases(s.blocks) && FreshBlock(s.heap, m, Psize(s))
    ensures var (s', r) := NewSlot(s, p, m);
            && Shape(s') && Psize(s') == Psize(s)
            && (r == 0 <==> p == 0 || (m == 0 && FirstFit(s.blocks, s.current, LARGE_T, true) == |s.blocks|))
            && (r == 0 ==> p == 0 || p !in s'.heap.live)
  {
    var (s1, a) := PallocSmall(s, LARGE_T, true, m);
    SmallKeeps(s, LARGE_T, true, m);
    if a == 0 {
      FreeKeeps(s, p);
    } else {
      SmallRecorded(s, LARGE_T, true, m);
      var k :| s1.small == s.small + [Region(a, LARGE_T, k)];
      SlotAdded(s.large, s.small, s1.blocks, Region(a, LARGE_T, k), p);
      SlotShape(s1, Slot(a, p));
    }
  }

  lemma NewSlotOwns(s: Pool, p: nat, m: nat)
    requires Chain(s) && Psize(s) >= 0 && Owned(s.heap.live, Bases(s.blocks) + [p] + Allocs(s.large)) && p != 0
    requires m !in s.heap.live
    ensures var (s', r) := NewSlot(s, p, m);
            && Owns(s') && s'.max == s.max
            && (r != 0 ==> r == p && s'.large != [] && s'.large[0].alloc == p)
            && (r == 0 ==> s'.large == s.large)
  {
    var (s1, a) := PallocSmall(s, LARGE_T, true, m);
    var ys := [p] + Allocs(s.large);
    assert Bases(s.blocks) + [p] + Allocs(s.large) == Bases(s.blocks) + ys;
    SmallOwns(s, LARGE_T, true, m, ys);
    SmallRecorded(s, LARGE_T, true, m);
    if a == 0 {
      assert Bases(s1.blocks) + ys == Bases(s1.blocks) + [p] + Allocs(s.large);
      OwnedRemove(s1.heap.live, Bases(s1.blocks), Allocs(s.large), p);
    } else {
      assert Allocs([Slot(a, p)] + s.large) == ys;
    }
  }

  lemma SlotShape(s: Pool, slot: Slot)
    requires Shape(s) && SlotsOk([slot] + s.large, s.small)
    ensures Shape(s.(large := [slot] + s.large)) && Psize(s.(large := [slot] + s.large)) == Psize(s)
  {
  }

  /** The contents of a slot change. */
  lemma SlotChanged(s: Pool, i: nat, p: nat)
    requires Shape(s) && i < |s.large|
    ensures Shape(s.(large := s.large[i := s.large[i].(alloc := p)]))
  {
    var large' := s.large[i := s.large[i].(alloc := p)];
    assert forall j :: 0 <= j < |large'| ==> large'[j].addr == s.large[j].addr;
    assert SlotsOk(large', s.small);
  }

  lemma OwnersChanged(blocks: seq<Block>, large: seq<Slot>, i: nat, p: nat)
    requires i < |large|
    ensures Bases(blocks) + Allocs(large[i := large[i].(alloc := p)])
         == (Bases(blocks) + Allocs(large))[|blocks| + i := p]
  {
  }

  /** An empty slot is used again. */
  lemma RefilledShape(s: Pool, i: nat, p: nat, n: nat)
    requires Shape(s) && i < |s.large| && p != 0 && Fresh(s.heap, p, n)
    ensures Shape(s.(heap := Take(s.heap, p, n), large := s.large[i := s.large[i].(alloc := p)]))
  {
    TakeShape(s, p, n);
    SlotChanged(s.(heap := Take(s.heap, p, n)), i, p);
  }

  lemma RefilledOwns(s: Pool, i: nat, p: nat, n: nat)
    requires Owns(s) && i < |s.large| && s.large[i].alloc == 0 && p != 0 && p !in s.heap.live
    ensures Owns(s.(heap := Take(s.heap, p, n), large := s.large[i := s.large[i].(alloc := p)]))
  {
    OwnersChanged(s.blocks, s.large, i, p);
    OwnedFill(s.heap.live, Bases(s.blocks) + Allocs(s.large), |s.blocks| + i, p, n);
  }

  lemma NotABase(s: Pool, p: nat)
    requires Shape(s) && p !in s.heap.live
    ensures p !in Bases(s.blocks)
  {
    assert forall k :: 0 <= k < |s.blocks| ==> Bases(s.blocks)[k] == s.blocks[k].base;
  }

  /** A new slot for a block just obtained: ch_pmemalign, and ch_palloc_large without an empty slot. */
  lemma SlotKeeps(s: Pool, size: nat, p: nat, m: nat)
    requires Shape(s) && Owns(s) && p != 0 && Fresh(s.heap, p, size) && FreshBlock(Take(s.heap, p, size), m, Psize(s))
    ensures var (s', r) := NewSlot(s.(heap := Take(s.heap, p, size)), p, m);
            && Shape(s') && Owns(s') && Psize(s') == Psize(s) && s'.max == s.max
            && (r == 0 <==> m == 0 && FirstFit(s.blocks, s.current, LARGE_T, true) == |s.blocks|)
            && (r != 0 ==> r == p && s'.large != [] && s'.large[0].alloc == p)
            && (r == 0 ==> s'.large == s.large && p !in s'.heap.live)
  {
    var s1 := s.(heap := Take(s.heap, p, size));
    NotABase(s, p);
    TakeShape(s, p, size);
    NewSlotShape(s1, p, m);
    OwnedInsert(s.heap.live, Bases(s.blocks), Allocs(s.large), p, size);
    NewSlotOwns(s1, p, m);
  }

  /** The block p goes into the first empty slot among the first five, or else into a new first slot. */
  ghost predicate Slotted(large: seq<Slot>, large': seq<Slot>, p: nat) {
    if exists i :: 0 <= i < |large| && i < 5 && large[i].alloc == 0
    then exists i :: && 0 <= i < |large| && i < 5 && large[i].alloc == 0
                     && (forall j :: 0 <= j < i ==> large[j].alloc != 0)
                     && large' == large[i := large[i].(alloc := p)]
    else large' != [] && large'[0].alloc == p && large'[1..] == large
  }

  lemma LargeSlotted(s: Pool, size: nat, p: nat, m: nat)
    requires Chain(s) && Psize(s) >= 0 && PallocLarge(s, size, p, m).1 != 0
    ensures PallocLarge(s, size, p, m).1 == p && Slotted(s.large, PallocLarge(s, size, p, m).0.large, p)
  {
    var i := EmptySlot(s.large, 0);
    if i == |s.large| {
      NoEmptySlot(s.large);
      var s1 := s.(heap := Take(s.heap, p, size));
      SmallRecorded(s1, LARGE_T, true, m);
      assert ([Slot(PallocSmall(s1, LARGE_T, true, m).1, p)] + s.large)[1..] == s.large;
    }
  }

  /** Large requests: nothing was obtained after all if the block goes nowhere. */
  lemma LargeKeeps(s: Pool, size: nat, p: nat, m: nat)
    requires Shape(s) && Owns(s) && Fresh(s.heap, p, size)
    requires p != 0 ==> FreshBlock(Take(s.heap, p, size), m, Psize(s))
    ensures var (s', r) := PallocLarge(s, size, p, m);
            && Shape(s') && Owns(s') && Psize(s') == Psize(s) && s'.max == s.max
            && (r != 0 ==> r == p && Slotted(s.large, s'.large, p))
            && (r == 0 ==> s'.large == s.large && p !in s'.heap.live)
            && (r == 0 <==> p == 0 || (m == 0 && EmptySlot(s.large, 0) == |s.large|
                                       && FirstFit(s.blocks, s.current, LARGE_T, true) == |s.blocks|))
  {
    if p != 0 {
      var i := EmptySlot(s.large, 0);
      if i < |s.large| {
        RefilledShape(s, i, p, size);
        RefilledOwns(s, i, p, size);
      } else {
        SlotKeeps(s, size, p, m);
      }
    }
    if PallocLarge(s, size, p, m).1 != 0 {
      LargeSlotted(s, size, p, m);
    }
  }

  lemma NoEmptySlot(large: seq<Slot>)
    requires EmptySlot(large, 0) == |large|
    ensures forall i :: 0 <= i < |large| && i < 5 ==> large[i].alloc != 0
  {
  }

  lemma PallocKeeps(s: Pool, size: nat, align: bool, p: nat, m: nat)
    requires Shape(s) && Owns(s) && Answers(s, OpPalloc(size, align, p, m))
    ensures var s' := Palloc(s, size, align, p, m).0;
            Shape(s') && Owns(s') && Psize(s') == Psize(s) && s'.max == s.max
  {
    if size <= s.max {
      SmallKeeps(s, size, align, m);
      SmallRecorded(s, size, align, m);
      SmallOwns(s, size, align, m, Allocs(s.large));
    } else {
      LargeKeeps(s, size, p, m);
    }
  }

  // -------------------------------------------------------------- the answers

  /** A block from `current` on has room for the request. */
  ghost predicate Room(s: Pool, size: nat, align: bool) {
    exists k :: s.current <= k < |s.blocks| && Start(s.blocks[k].last, align) + size <= s.blocks[k].end
  }

  lemma RoomFits(s: Pool, size: nat, align: bool)
    requires Shape(s)
    ensures Room(s, size, align) <==> FirstFit(s.blocks, s.current, size, align) < |s.blocks|
  {
    forall k | 0 <= k < |s.blocks|
      ensures Fits(s.blocks[k], size, align) <==> Start(s.blocks[k].last, align) + size <= s.blocks[k].end
    {
      FitsExactly(s.blocks[k], k, Psize(s), size, align);
    }
    var k := FirstFit(s.blocks, s.current, size, align);
    if k < |s.blocks| {
      assert Start(s.blocks[k].last, align) + size <= s.blocks[k].end;
    }
  }

  ghost predicate RoomAt(s: Pool, k: nat, size: nat, align: bool) {
    s.current <= k < |s.blocks| && Start(s.blocks[k].last, align) + size <= s.blocks[k].end
  }

  /** The region is cut from the first block that has room, behind what was cut before, and no failure is counted; or
      else from a new block, behind its header, and the blocks that were tried have failed once more, but the last. */
  ghost predicate CutRight(s: Pool, size: nat, align: bool, m: nat, s': Pool, a: nat) {
    if Room(s, size, align) then
      && |s'.blocks| == |s.blocks| && (forall i :: 0 <= i < |s.blocks| ==> s'.blocks[i].failed == s.blocks[i].failed)
      && exists k: nat :: RoomAt(s, k, size, align) && (forall j :: s.current <= j < k ==> !RoomAt(s, j, size, align)) &&
                     a == Start(s.blocks[k].last, align)
    else
      && a == m + 32 && |s'.blocks| == |s.blocks| + 1 && s'.blocks[|s.blocks|].failed == 0
      && forall i :: 0 <= i < |s.blocks| ==>
           s'.blocks[i].failed == s.blocks[i].failed + if s.current <= i < |s.blocks| - 1 then 1 else 0
  }

  lemma CutsRight(s: Pool, size: nat, align: bool, m: nat)
    requires Shape(s) && size <= Psize(s) - POOL_DATA_T && FreshBlock(s.heap, m, Psize(s))
    requires PallocSmall(s, size, align, m).1 != 0
    ensures var (s', a) := PallocSmall(s, size, align, m); CutRight(s, size, align, m, s', a)
  {
    var k := FirstFit(s.blocks, s.current, size, align);
    RoomFits(s, size, align);
    forall j: nat | s.current <= j < |s.blocks|
      ensures RoomAt(s, j, size, align) <==> Fits(s.blocks[j], size, align)
    {
      FitsExactly(s.blocks[j], j, Psize(s), size, align);
    }
    if k < |s.blocks| {
      assert RoomAt(s, k, size, align);
    } else {
      FromNewBlock(s, size, m);
    }
  }

  /** What a small request answers: NULL if no block has room and no block can be had, and then nothing
      has changed; else the address of the newest region, which is as long as asked and aligned if asked. */
  ghost predicate SmallAnswer(s: Pool, size: nat, align: bool, m: nat, s': Pool, a: nat) {
    && (a == 0 <==> !Room(s, size, align) && m == 0)
    && (a == 0 ==> s' == s)
    && (a != 0 ==> && |s'.small| == |s.small| + 1 && s'.small[..|s.small|] == s.small
                   && s'.small[|s.small|].addr == a && s'.small[|s.small|].len == size
                   && s'.large == s.large && (align ==> a % 8 == 0) && CutRight(s, size, align, m, s', a))
  }

  /** One slot holds p, and no other. */
  ghost predicate InOneSlot(large: seq<Slot>, p: nat) {
    exists i :: 0 <= i < |large| && large[i].alloc == p && forall j :: 0 <= j < |large| && j != i ==> large[j].alloc != p
  }

  /** What a request that goes to the heap answers, if a slot can be had or not: the block that was obtained, live,
      of the size asked for and in exactly one slot, or NULL, with nothing obtained. */
  ghost predicate LargeAnswer(size: nat, p: nat, slot: bool, s: Pool, s': Pool, a: nat) {
    && (a == 0 <==> p == 0 || !slot)
    && (a != 0 ==> a == p && p in s'.heap.live && s'.heap.live[p] == size && InOneSlot(s'.large, p))
    && (a == 0 ==> s'.large == s.large && (p != 0 ==> p !in s'.heap.live))
  }

  ghost predicate EmptyAmongFive(large: seq<Slot>) {
    exists i :: 0 <= i < |large| && i < 5 && large[i].alloc == 0
  }

  lemma EmptySlotFound(large: seq<Slot>)
    ensures EmptyAmongFive(large) <==> EmptySlot(large, 0) < |large|
  {
    if EmptySlot(large, 0) < |large| {
      assert large[EmptySlot(large, 0)].alloc == 0;
    } else {
      NoEmptySlot(large);
    }
  }

  lemma SmallAnswers(s: Pool, size: nat, align: bool, m: nat)
    requires Shape(s) && size <= Psize(s) - POOL_DATA_T && FreshBlock(s.heap, m, Psize(s))
    ensures var (s', a) := PallocSmall(s, size, align, m); SmallAnswer(s, size, align, m, s', a)
  {
    SmallKeeps(s, size, align, m);
    SmallRecorded(s, size, align, m);
    RoomFits(s, size, align);
    if PallocSmall(s, size, align, m).1 != 0 {
      CutsRight(s, size, align, m);
    }
  }

  lemma OwnedOnce(bs: seq<nat>, large: seq<Slot>, i: nat)
    requires Distinct(bs + Allocs(large)) && i < |large| && large[i].alloc != 0
    ensures InOneSlot(large, large[i].alloc)
  {
    var xs := bs + Allocs(large);
    forall j | 0 <= j < |large| && j != i
      ensures large[j].alloc != large[i].alloc
    {
      assert xs[|bs| + i] == large[i].alloc && xs[|bs| + j] == large[j].alloc;
    }
  }

  lemma NewSlotLive(s: Pool, p: nat, m: nat)
    requires Chain(s) && Psize(s) >= 0 && p in s.heap.live && m != p && NewSlot(s, p, m).1 != 0
    ensures var s' := NewSlot(s, p, m).0; p in s'.heap.live && s'.heap.live[p] == s.heap.live[p]
  {
  }

  lemma NewSlotAnswers(s: Pool, size: nat, p: nat, m: nat)
    requires Shape(s) && Owns(s) && p != 0 && Fresh(s.heap, p, size) && FreshBlock(Take(s.heap, p, size), m, Psize(s))
    ensures var (s', a) := NewSlot(s.(heap := Take(s.heap, p, size)), p, m);
            LargeAnswer(size, p, Room(s, LARGE_T, true) || m != 0, s, s', a)
  {
    var s1 := s.(heap := Take(s.heap, p, size));
    var (s', a) := NewSlot(s1, p, m);
    SlotKeeps(s, size, p, m);
    RoomFits(s, LARGE_T, true);
    if a != 0 {
      NewSlotLive(s1, p, m);
      OwnedOnce(Bases(s'.blocks), s'.large, 0);
    }
  }

  lemma LargeAnswers(s: Pool, size: nat, p: nat, m: nat)
    requires Shape(s) && Owns(s) && Fresh(s.heap, p, size)
    requires p != 0 ==> FreshBlock(Take(s.heap, p, size), m, Psize(s))
    ensures var (s', a) := PallocLarge(s, size, p, m);
            LargeAnswer(size, p, EmptyAmongFive(s.large) || Room(s, LARGE_T, true) || m != 0, s, s', a)
  {
    EmptySlotFound(s.large);
    if p != 0 {
      var i := EmptySlot(s.large, 0);
      if i < |s.large| {
        RefilledOwns(s, i, p, size);
        var s' := PallocLarge(s, size, p, m).0;
        assert s'.large[i].alloc == p;
        OwnedOnce(Bases(s'.blocks), s'.large, i);
      } else {
        NewSlotAnswers(s, size, p, m);
      }
    }
  }

  /** What a call answers is right. */
  ghost predicate AnswerOk(s: Pool, op: Op)
    requires Chain(s) && Psize(s) >= 0
  {
    match op
    case OpPalloc(size, align, p, m) =>
      var (s', a) := Palloc(s, size, align, p, m);
      if size <= s.max then SmallAnswer(s, size, align, m, s', a)
      else LargeAnswer(size, p, EmptyAmongFive(s.large) || Room(s, LARGE_T, true) || m != 0, s, s', a)
    case OpMemalign(size, p, m) =>
      var (s', a) := Pmemalign(s, size, p, m);
      LargeAnswer(size, p, Room(s, LARGE_T, true) || m != 0, s, s', a)
    case OpFree(p) =>
      var (s', ok) := Pfree(s, p);
      && (ok <==> exists i :: 0 <= i < |s.large| && s.large[i].alloc == p)
      && (ok && p != 0 ==> p in s.heap.live && p !in s'.heap.live && forall i :: 0 <= i < |s'.large| ==> s'.large[i].alloc != p)
    case OpReset => forall k :: 0 <= k < |s.blocks| ==> k < |Reset(s).blocks| && Reset(s).blocks[k].last == s.blocks[k].base + POOL_T
  }

  lemma FreeAnswers(s: Pool, p: nat)
    requires Shape(s) && Owns(s)
    ensures AnswerOk(s, OpFree(p))
  {
    PfreeOwns(s, p);
    var (s', ok) := Pfree(s, p);
    assert forall i :: 0 <= i < |s.large| ==> Allocs(s.large)[i] == s.large[i].alloc;
    assert forall i :: 0 <= i < |s'.large| ==> Allocs(s'.large)[i] == s'.large[i].alloc;
  }

  lemma StepAnswers(s: Pool, op: Op)
    requires Shape(s) && Owns(s) && Answers(s, op)
    ensures AnswerOk(s, op)
  {
    match op
    case OpPalloc(size, align, p, m) =>
      if size <= s.max {
        SmallAnswers(s, size, align, m);
      } else {
        LargeAnswers(s, size, p, m);
      }
    case OpMemalign(size, p, m) =>
      if p != 0 {
        NewSlotAnswers(s, size, p, m);
      }
    case OpFree(p) => FreeAnswers(s, p);
    case OpReset =>
  }

  /** Every call of the run answers right. */
  ghost predicate AllAnswered(s: Pool, ops: seq<Op>)
    decreases |ops|
  {
    ops == [] || (Chain(s) && Psize(s) >= 0 && AnswerOk(s, ops[0]) && AllAnswered(Apply(s, ops[0]), ops[1..]))
  }

  // -------------------------------------------------------- release and reset

  lemma PfreeShape(s: Pool, p: nat)
    requires Shape(s) && (p != 0 && p in Allocs(s.large) ==> p in s.heap.live && p !in Bases(s.blocks))
    ensures Shape(Pfree(s, p).0)
  {
    var i := SlotOf(s.large, p, 0);
    if i < |s.large| {
      assert Allocs(s.large)[i] == p;
      if p != 0 {
        FreeKeeps(s, p);
      }
      SlotChanged(s.(heap := Free(s.heap, p)), i, 0);
    }
  }

  /** In a list of owners a block occurs once, so the slot found is the one that has it. */
  lemma OwnedByOne(live: map<nat, nat>, bs: seq<nat>, ys: seq<nat>, i: nat)
    requires Owned(live, bs + ys) && i < |ys| && ys[i] != 0
    ensures Owned(live - {ys[i]}, bs + ys[i := 0])
    ensures ys[i] in live && ys[i] !in bs && ys[i] !in ys[i := 0]
  {
    var xs := bs + ys;
    assert xs[|bs| + i] == ys[i];
    OwnedEmpty(live, xs, |bs| + i);
    assert xs[|bs| + i := 0] == bs + ys[i := 0];
    assert forall k :: 0 <= k < |bs| ==> bs[k] == xs[k];
    var zs := ys[i := 0];
    assert forall k :: 0 <= k < |ys| && k != i ==> zs[k] == xs[|bs| + k];
  }

  /** ch_pfree answers 0 exactly for an address in a slot, and releases it once. */
  lemma PfreeOwns(s: Pool, p: nat)
    requires Owns(s)
    ensures Owns(Pfree(s, p).0) && (p != 0 && p in Allocs(s.large) ==> p in s.heap.live && p !in Bases(s.blocks))
    ensures Pfree(s, p).1 <==> p in Allocs(s.large)
    ensures p != 0 ==> p !in Allocs(Pfree(s, p).0.large)
  {
    var i := SlotOf(s.large, p, 0);
    var ys := Allocs(s.large);
    assert forall k :: 0 <= k < |ys| ==> ys[k] == s.large[k].alloc;
    if i < |s.large| {
      assert ys[i] == p;
      assert Allocs(s.large[i := s.large[i].(alloc := 0)]) == ys[i := 0];
      if p != 0 {
        OwnedByOne(s.heap.live, Bases(s.blocks), ys, i);
      } else {
        assert ys[i := 0] == ys;
      }
    }
  }

  lemma ResetShape(s: Pool, h: Heap)
    requires Shape(s) && HeapOk(h)
    requires forall k :: 0 <= k < |s.blocks| ==>
      s.blocks[k].base in h.live && h.live[s.blocks[k].base] == s.heap.live[s.blocks[k].base]
    ensures Shape(Pool(Rewound(s.blocks), 0, [], s.max, h, []))
  {
    var s' := Pool(Rewound(s.blocks), 0, [], s.max, h, []);
    assert s'.blocks[0].base == s.blocks[0].base && s'.blocks[0].end == s.blocks[0].end;
    assert SizesOk(s') && Psize(s') == Psize(s);
    assert BlocksOk(s'.blocks, h.live, Psize(s));
  }

  lemma BasesLive(live: map<nat, nat>, blocks: seq<Block>)
    requires Owned(live, Bases(blocks)) && forall k :: 0 <= k < |blocks| ==> blocks[k].base != 0
    ensures forall k :: 0 <= k < |blocks| ==> blocks[k].base in live
  {
    forall k | 0 <= k < |blocks|
      ensures blocks[k].base in live
    {
      assert Bases(blocks)[k] in Bases(blocks);
    }
  }

  /** After a reset just the chain is live. */
  lemma ResetKeeps(s: Pool)
    requires Shape(s) && Owns(s)
    ensures Shape(Reset(s)) && Owns(Reset(s)) && Psize(Reset(s)) == Psize(s)
  {
    FreeAllOwned(s.heap, Bases(s.blocks), Allocs(s.large));
    var h := FreeAll(s.heap, Allocs(s.large));
    BasesLive(h.live, s.blocks);
    ResetShape(s, h);
    ResetOwns(s, h);
  }

  lemma ResetOwns(s: Pool, h: Heap)
    requires s.blocks != [] && Owned(h.live, Bases(s.blocks)) && h == FreeAll(s.heap, Allocs(s.large))
    ensures Owns(Reset(s)) && Psize(Reset(s)) == s.blocks[0].end - s.blocks[0].base
  {
    assert Bases(Rewound(s.blocks)) == Bases(s.blocks);
    assert Bases(s.blocks) + Allocs([]) == Bases(s.blocks);
  }

  // ------------------------------------------------------------------- runs

  lemma StepKeeps(s: Pool, op: Op)
    requires Shape(s) && Owns(s) && Answers(s, op)
    ensures Shape(Apply(s, op)) && Owns(Apply(s, op)) && Psize(Apply(s, op)) == Psize(s) && Apply(s, op).max == s.max
  {
    match op
    case OpPalloc(size, align, p, m) => PallocKeeps(s, size, align, p, m);
    case OpMemalign(size, p, m) =>
      if p != 0 {
        SlotKeeps(s, size, p, m);
      }
    case OpFree(p) =>
      PfreeOwns(s, p);
      PfreeShape(s, p);
    case OpReset => ResetKeeps(s);
  }

  /** The invariant holds over every run. */
  lemma {:induction false} RunKeeps(s: Pool, ops: seq<Op>)
    requires Shape(s) && Owns(s) && Possible(s, ops)
    ensures Shape(Run(s, ops)) && Owns(Run(s, ops)) && Psize(Run(s, ops)) == Psize(s) && Run(s, ops).max == s.max
    ensures AllAnswered(s, ops)
    decreases |ops|
  {
    if ops != [] {
      StepAnswers(s, ops[0]);
      StepKeeps(s, ops[0]);
      RunKeeps(Apply(s, ops[0]), ops[1..]);
    }
  }

  const NO_HEAP := Heap(map[], 0, 0, false)

  /** memalign's answer to the request for the first block. */
  ghost predicate FirstBlock(size: nat, p: nat) {
    p != 0 && p % POOL_ALIGNMENT == 0 && p + size < SIZE_T
  }

  /** The sizes that a pool can have: its header fits in, and blocks end on an aligned address. */
  predicate Sized(size: nat) {
    size >= POOL_T && size % ALIGNMENT == 0
  }

  lemma CreateShape(size: nat, p: nat)
    requires FirstBlock(size, p) && Sized(size)
    ensures Shape(Create(NO_HEAP, size, p))
  {
    assert (size - POOL_T) % SIZE_T == size - POOL_T;
    assert |map[p := size]| == 1;
  }

  lemma CreateInv(size: nat, p: nat)
    requires FirstBlock(size, p) && Sized(size)
    ensures Shape(Create(NO_HEAP, size, p)) && Owns(Create(NO_HEAP, size, p))
  {
    var s := Create(NO_HEAP, size, p);
    CreateShape(size, p);
    assert s.heap.live == map[p := size];
    assert Bases(s.blocks) + Allocs(s.large) == [p];
  }

  /** From creation on: regions disjoint, inside their blocks and past the headers, slots
      apart, and every live heap block in exactly one place.  Every call answers right, and requests of up to
      4095 bytes that fit behind the pool header are the small ones. */
  lemma RunInv(size: nat, p: nat, ops: seq<Op>)
    requires FirstBlock(size, p) && Sized(size) && Possible(Create(NO_HEAP, size, p), ops)
    ensures Inv(Run(Create(NO_HEAP, size, p), ops)) && AllAnswered(Create(NO_HEAP, size, p), ops)
    ensures Run(Create(NO_HEAP, size, p), ops).max == if size < 80 + 4095 then size - 80 else 4095
  {
    assert (size - POOL_T) % SIZE_T == size - POOL_T;
    CreateInv(size, p);
    RunKeeps(Create(NO_HEAP, size, p), ops);
  }

  /** Destroy releases every heap block that was ever obtained, each once: whatever the run. */
  lemma EverythingFreedOnce(size: nat, p: nat, ops: seq<Op>)
    requires FirstBlock(size, p) && Sized(size) && Possible(Create(NO_HEAP, size, p), ops)
    ensures var h := Destroy(Run(Create(NO_HEAP, size, p), ops));
            h.live == map[] && !h.fault && h.obtained == h.released
  {
    RunInv(size, p, ops);
    var s := Run(Create(NO_HEAP, size, p), ops);
    FreeAllOwned(s.heap, Bases(s.blocks), Allocs(s.large));
    assert [] + Bases(s.blocks) == Bases(s.blocks);
    FreeAllOwned(FreeAll(s.heap, Allocs(s.large)), [], Bases(s.blocks));
    assert Destroy(s).live.Keys == {};
  }

  // ------------------------------------------------- pool sizes that go wrong

  ghost predicate Contained(s: Pool) {
    forall i :: 0 <= i < |s.small| ==>
      var r := s.small[i];
      && r.block < |s.blocks|
      && s.blocks[r.block].base <= r.addr && r.addr + r.len <= s.blocks[r.block].end
  }

  /** n unaligned requests for one byte. */
  function Bytes(n: nat): seq<Op> {
    seq(n, _ => OpPalloc(1, false, 0, 0))
  }

  /** The only block with all but `left` of its bytes handed out. */
  ghost predicate Filled(s: Pool, left: nat) {
    && |s.blocks| == 1 && s.current == 0 && s.max >= 1
    && s.blocks[0].last + left == s.blocks[0].end && s.blocks[0].base <= s.blocks[0].last
    && s.blocks[0].end < SIZE_T
  }

  lemma OneByte(s: Pool, left: nat)
    requires Filled(s, left) && left > 0
    ensures Answers(s, OpPalloc(1, false, 0, 0))
    ensures var s' := Apply(s, OpPalloc(1, false, 0, 0));
            && Filled(s', left - 1) && s'.blocks[0].base == s.blocks[0].base && s'.blocks[0].end == s.blocks[0].end
  {
    assert (s.blocks[0].end - s.blocks[0].last) % SIZE_T == left;
    assert Fits(s.blocks[0], 1, false);
    assert FirstFit(s.blocks, 0, 1, false) == 0;
  }

  /** Once the block is full, an aligned request is cut from beyond its end. */
  lemma BeyondEnd(s: Pool)
    requires Filled(s, 0) && s.blocks[0].end % ALIGNMENT != 0
    ensures Answers(s, OpPalloc(1, true, 0, 0)) && !Contained(Apply(s, OpPalloc(1, true, 0, 0)))
  {
    var b := s.blocks[0];
    var a := AlignUp(b.last);
    assert a > b.end;
    assert (b.end - a) % SIZE_T == SIZE_T - (a - b.end);
    assert Fits(b, 1, true);
    assert FirstFit(s.blocks, 0, 1, true) == 0;
    var s' := Apply(s, OpPalloc(1, true, 0, 0));
    assert s'.small[|s.small|] == Region(a, 1, 0);
  }

  lemma {:induction false} FillThenOverrun(s: Pool, left: nat)
    requires Filled(s, left) && s.blocks[0].end % ALIGNMENT != 0
    ensures var ops := Bytes(left) + [OpPalloc(1, true, 0, 0)];
            Possible(s, ops) && !Contained(Run(s, ops))
    decreases left
  {
    var last := OpPalloc(1, true, 0, 0);
    var ops := Bytes(left) + [last];
    if left == 0 {
      BeyondEnd(s);
      assert ops == [last] && ops[1..] == [];
      assert Possible(Apply(s, last), []);
    } else {
      OneByte(s, left);
      assert ops[0] == OpPalloc(1, false, 0, 0) && ops[1..] == Bytes(left - 1) + [last];
      FillThenOverrun(Apply(s, ops[0]), left - 1);
    }
  }

  lemma AlignedContained(size: nat, p: nat, ops: seq<Op>)
    requires FirstBlock(size, p) && Sized(size) && Possible(Create(NO_HEAP, size, p), ops)
    ensures Contained(Run(Create(NO_HEAP, size, p), ops))
  {
    RunInv(size, p, ops);
    ShapeContained(Run(Create(NO_HEAP, size, p), ops));
  }

  lemma UnalignedOverrun(size: nat, p: nat)
    requires FirstBlock(size, p) && size > POOL_T && size % ALIGNMENT != 0
    ensures exists ops :: Possible(Create(NO_HEAP, size, p), ops) && !Contained(Run(Create(NO_HEAP, size, p), ops))
  {
    CreateFilled(size, p);
    UnalignedEnd(size, p);
    FillThenOverrun(Create(NO_HEAP, size, p), size - POOL_T);
  }

  lemma UnalignedEnd(size: nat, p: nat)
    requires p % POOL_ALIGNMENT == 0 && size % ALIGNMENT != 0
    ensures (p + size) % ALIGNMENT != 0
  {
  }

  lemma CreateFilled(size: nat, p: nat)
    requires FirstBlock(size, p) && size > POOL_T
    ensures Filled(Create(NO_HEAP, size, p), size - POOL_T) && Create(NO_HEAP, size, p).blocks[0].end == p + size
  {
    assert (size - POOL_T) % SIZE_T == size - POOL_T;
  }

  /** A pool whose header does not fit in: the first request is cut from beyond the end. */
  lemma TooSmallOverrun(size: nat, p: nat)
    requires FirstBlock(size, p) && size < POOL_T
    ensures exists ops :: Possible(Create(NO_HEAP, size, p), ops) && !Contained(Run(Create(NO_HEAP, size, p), ops))
  {
    var s, op := Create(NO_HEAP, size, p), OpPalloc(1, false, 0, 0);
    var b := s.blocks[0];
    assert (size - POOL_T) % SIZE_T == SIZE_T - (POOL_T - size);
    assert (b.end - b.last) % SIZE_T == SIZE_T - (POOL_T - size);
    assert Fits(b, 1, false);
    assert FirstFit(s.blocks, 0, 1, false) == 0;
    var s' := Apply(s, op);
    assert s'.small[0] == Region(b.last, 1, 0) && s'.blocks[0].end == b.end;
    assert !Contained(s');
    assert [op][1..] == [];
    assert Possible(s', []);
    assert Possible(s, [op]) && Run(s, [op]) == s';
  }

  /** No run hands out memory beyond a block exactly when the pool's header fits in its size and the size is a
      multiple of the alignment: otherwise the difference of line 140 can be negative, and its cast passes
      the test. */
  lemma ContainedIffSized(size: nat, p: nat)
    requires FirstBlock(size, p)
    ensures (forall ops :: Possible(Create(NO_HEAP, size, p), ops) ==> Contained(Run(Create(NO_HEAP, size, p), ops)))
            <==> Sized(size)
  {
    if Sized(size) {
      forall ops | Possible(Create(NO_HEAP, size, p), ops)
        ensures Contained(Run(Create(NO_HEAP, size, p), ops))
      {
        AlignedContained(size, p, ops);
      }
    } else if size < POOL_T {
      TooSmallOverrun(size, p);
    } else {
      UnalignedOverrun(size, p);
    }
  }

  lemma ShapeContained(s: Pool)
    requires Shape(s)
    ensures Contained(s)
  {
    forall i | 0 <= i < |s.small|
      ensures Cut(s.small[i], s.blocks) && s.blocks[s.small[i].block].last <= s.blocks[s.small[i].block].end
    {
    }
  }
}
