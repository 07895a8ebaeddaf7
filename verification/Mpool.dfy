/** The pool allocator of lib/common/ch_mpool.c: a chain of blocks that small requests
    are cut from, and a list of slots for the large requests that go to the heap.

    The functions say what each call does to the pool; `MpoolCode` holds the code with
    its loops, `MpoolProps` what holds over every run. */
module Mpool {

  const SIZE_T: nat := 0x1_0000_0000_0000_0000

  // LP64: sizeof(ch_pool_t), sizeof(ch_pool_data_t), sizeof(ch_pool_large_t).
  const POOL_T: nat := 80
  const POOL_DATA_T: nat := 32
  const LARGE_T: nat := 16

  const ALIGNMENT: nat := 8
  const POOL_ALIGNMENT: nat := 16
  const MAX_ALLOC_FROM_POOL: nat := 4095

  /** A block of the chain; [base, end) is its memory, `last` the first byte not handed out. */
  datatype Block = Block(base: nat, last: nat, end: nat, failed: nat)

  /** A record of the large list, itself a small region at addr; alloc == 0 when empty. */
  datatype Slot = Slot(addr: nat, alloc: nat)

  /** A region that was handed out, and the block that it was cut from. */
  datatype Region = Region(addr: nat, len: nat, block: nat)

  /** The process heap: the live blocks with their sizes.  `fault` records the release
      of an address that is not live. */
  datatype Heap = Heap(live: map<nat, nat>, obtained: nat, released: nat, fault: bool)

  /** `small` lists the regions that were handed out since the last reset. */
  datatype Pool = Pool(blocks: seq<Block>, current: nat, large: seq<Slot>, max: nat, heap: Heap, small: seq<Region>)

  // ------------------------------------------------------------------- heap

  predicate Apart(a: nat, n: nat, b: nat, m: nat) {
    a + n <= b || b + m <= a
  }

  /** What an address returned by malloc or memalign is: NULL, or memory that overlaps nothing live. */
  predicate Fresh(h: Heap, a: nat, n: nat) {
    a != 0 ==> && a !in h.live && a + n < SIZE_T
               && forall b :: b in h.live ==> Apart(a, n, b, h.live[b])
  }

  function Take(h: Heap, a: nat, n: nat): Heap {
    h.(live := h.live[a := n], obtained := h.obtained + 1)
  }

  /** free: nothing for NULL. */
  function Free(h: Heap, a: nat): Heap {
    if a == 0 then h
    else if a in h.live then h.(live := h.live - {a}, released := h.released + 1)
    else h.(fault := true)
  }

  function FreeAll(h: Heap, xs: seq<nat>): Heap
    decreases |xs|
  {
    if xs == [] then h else FreeAll(Free(h, xs[0]), xs[1..])
  }

  // ---------------------------------------------------------- small requests

  function AlignUp(a: nat): (r: nat)
    ensures a <= r < a + ALIGNMENT && r % ALIGNMENT == 0
    ensures a % ALIGNMENT == 0 ==> r == a
  {
    (a + 7) / 8 * 8
  }

  function Start(last: nat, align: bool): nat {
    if align then AlignUp(last) else last
  }

  /** The test of line 140: the difference is cast to an unsigned type. */
  predicate Fits(b: Block, size: nat, align: bool) {
    (b.end - Start(b.last, align)) % SIZE_T >= size
  }

  /** The first block from k on that the request fits in, or the length of the chain. */
  function FirstFit(blocks: seq<Block>, k: nat, size: nat, align: bool): (r: nat)
    requires k <= |blocks|
    ensures k <= r <= |blocks|
    ensures r < |blocks| ==> Fits(blocks[r], size, align)
    ensures forall i :: k <= i < r ==> !Fits(blocks[i], size, align)
    decreases |blocks| - k
  {
    if k == |blocks| || Fits(blocks[k], size, align) then k else FirstFit(blocks, k + 1, size, align)
  }

  /** Every block from k on but the last counts one more failure. */
  function Bumped(blocks: seq<Block>, k: nat): (r: seq<Block>)
    ensures |r| == |blocks|
    ensures forall i :: 0 <= i < |blocks| ==>
              r[i] == if k <= i < |blocks| - 1 then blocks[i].(failed := blocks[i].failed + 1) else blocks[i]
  {
    seq(|blocks|, i requires 0 <= i < |blocks| =>
      if k <= i < |blocks| - 1 then blocks[i].(failed := blocks[i].failed + 1) else blocks[i])
  }

  /** Where `current` goes when the failures from k on are counted. */
  function Moved(blocks: seq<Block>, k: nat, current: nat): (r: nat)
    requires k < |blocks| && current <= k
    ensures current <= r < |blocks| && (r == current || (k < r && blocks[r - 1].failed > 4))
    decreases |blocks| - k
  {
    if k == |blocks| - 1 then current
    else Moved(blocks, k + 1, if blocks[k].failed > 4 then k + 1 else current)
  }

  predicate Chain(s: Pool) {
    s.blocks != [] && s.current < |s.blocks|
  }

  function Psize(s: Pool): int
    requires Chain(s)
  {
    s.blocks[0].end - s.blocks[0].base
  }

  /** ch_palloc_block; m is memalign's answer. */
  function PallocBlock(s: Pool, size: nat, m: nat): (Pool, nat)
    requires Chain(s) && Psize(s) >= 0
  {
    if m == 0 then (s, 0)
    else
      var a := AlignUp(m + POOL_DATA_T);
      (s.(blocks := Bumped(s.blocks, s.current) + [Block(m, a + size, m + Psize(s), 0)],
          current := Moved(s.blocks, s.current, s.current),
          heap := Take(s.heap, m, Psize(s)),
          small := s.small + [Region(a, size, |s.blocks|)]),
       a)
  }

  /** ch_palloc_small. */
  function PallocSmall(s: Pool, size: nat, align: bool, m: nat): (Pool, nat)
    requires Chain(s) && Psize(s) >= 0
  {
    var k := FirstFit(s.blocks, s.current, size, align);
    if k < |s.blocks| then
      var a := Start(s.blocks[k].last, align);
      (s.(blocks := s.blocks[k := s.blocks[k].(last := a + size)], small := s.small + [Region(a, size, k)]), a)
    else
      PallocBlock(s, size, m)
  }

  // ---------------------------------------------------------- large requests

  /** The first empty slot among the five that are looked at, or else the length of the list. */
  function EmptySlot(large: seq<Slot>, i: nat): (r: nat)
    requires i <= |large|
    ensures i <= r <= |large|
    ensures r < |large| ==> large[r].alloc == 0 && (i <= 5 ==> r < 5)
    ensures forall j :: i <= j < r && j < 5 ==> large[j].alloc != 0
    decreases |large| - i
  {
    if i >= 5 || i == |large| then |large|
    else if large[i].alloc == 0 then i
    else EmptySlot(large, i + 1)
  }

  /** Puts the heap block p, already taken, in a new slot at the front; gives it back if there is no room. */
  function NewSlot(s: Pool, p: nat, m: nat): (Pool, nat)
    requires Chain(s) && Psize(s) >= 0
  {
    var (s', a) := PallocSmall(s, LARGE_T, true, m);
    if a == 0 then (s'.(heap := Free(s'.heap, p)), 0)
    else (s'.(large := [Slot(a, p)] + s'.large), p)
  }

  /** ch_palloc_large; p is malloc's answer, m the answer for a new block. */
  function PallocLarge(s: Pool, size: nat, p: nat, m: nat): (Pool, nat)
    requires Chain(s) && Psize(s) >= 0
  {
    if p == 0 then (s, 0)
    else
      var s1 := s.(heap := Take(s.heap, p, size));
      var i := EmptySlot(s.large, 0);
      if i < |s.large| then (s1.(large := s.large[i := s.large[i].(alloc := p)]), p)
      else NewSlot(s1, p, m)
  }

  /** ch_pmemalign. */
  function Pmemalign(s: Pool, size: nat, p: nat, m: nat): (Pool, nat)
    requires Chain(s) && Psize(s) >= 0
  {
    if p == 0 then (s, 0) else NewSlot(s.(heap := Take(s.heap, p, size)), p, m)
  }

  /** ch_palloc and ch_pnalloc. */
  function Palloc(s: Pool, size: nat, align: bool, p: nat, m: nat): (Pool, nat)
    requires Chain(s) && Psize(s) >= 0
  {
    if size <= s.max then PallocSmall(s, size, align, m) else PallocLarge(s, size, p, m)
  }

  function SlotOf(large: seq<Slot>, p: nat, i: nat): (r: nat)
    requires i <= |large|
    ensures i <= r <= |large|
    ensures r < |large| ==> large[r].alloc == p
    ensures forall j :: i <= j < r ==> large[j].alloc != p
    decreases |large| - i
  {
    if i == |large| || large[i].alloc == p then i else SlotOf(large, p, i + 1)
  }

  /** ch_pfree: true for the answer 0. */
  function Pfree(s: Pool, p: nat): (Pool, bool) {
    var i := SlotOf(s.large, p, 0);
    if i == |s.large| then (s, false)
    else (s.(heap := Free(s.heap, p), large := s.large[i := s.large[i].(alloc := 0)]), true)
  }

  // ------------------------------------------------- create, reset, destroy

  function Allocs(large: seq<Slot>): (r: seq<nat>)
    ensures |r| == |large| && forall i :: 0 <= i < |r| ==> r[i] == large[i].alloc
  {
    seq(|large|, i requires 0 <= i < |large| => large[i].alloc)
  }

  function Bases(blocks: seq<Block>): (r: seq<nat>)
    ensures |r| == |blocks| && forall i :: 0 <= i < |r| ==> r[i] == blocks[i].base
  {
    seq(|blocks|, i requires 0 <= i < |blocks| => blocks[i].base)
  }

  /** ch_pool_create with memalign's answer p, not NULL. */
  function Create(h: Heap, size: nat, p: nat): Pool
  {
    Pool([Block(p, p + POOL_T, p + size, 0)], 0, [],
         var rest := (size - POOL_T) % SIZE_T; if rest < MAX_ALLOC_FROM_POOL then rest else MAX_ALLOC_FROM_POOL,
         Take(h, p, size), [])
  }

  function Rewound(blocks: seq<Block>): (r: seq<Block>)
    ensures |r| == |blocks|
    ensures forall i :: 0 <= i < |r| ==> r[i] == blocks[i].(last := blocks[i].base + POOL_T, failed := 0)
  {
    seq(|blocks|, i requires 0 <= i < |blocks| => blocks[i].(last := blocks[i].base + POOL_T, failed := 0))
  }

  function Reset(s: Pool): Pool {
    Pool(Rewound(s.blocks), 0, [], s.max, FreeAll(s.heap, Allocs(s.large)), [])
  }

  function Destroy(s: Pool): Heap {
    FreeAll(FreeAll(s.heap, Allocs(s.large)), Bases(s.blocks))
  }

  // ------------------------------------------------------------------- runs

  /** A call with the heap's answers to the requests that it may make. */
  datatype Op =
    | OpPalloc(size: nat, align: bool, p: nat, m: nat)
    | OpMemalign(size: nat, p: nat, m: nat)
    | OpFree(p: nat)
    | OpReset

  predicate FreshBlock(h: Heap, m: nat, n: nat) {
    Fresh(h, m, n) && m % POOL_ALIGNMENT == 0
  }

  /** The answers are such as malloc and memalign give, to the requests that are made. */
  predicate Answers(s: Pool, op: Op)
    requires Chain(s) && Psize(s) >= 0
  {
    match op
    case OpPalloc(size, align, p, m) =>
      if size <= s.max then FreshBlock(s.heap, m, Psize(s))
      else Fresh(s.heap, p, size) && (p != 0 ==> FreshBlock(Take(s.heap, p, size), m, Psize(s)))
    case OpMemalign(size, p, m) =>
      Fresh(s.heap, p, size) && (p != 0 ==> FreshBlock(Take(s.heap, p, size), m, Psize(s)))
    case _ => true
  }

  function Apply(s: Pool, op: Op): Pool
    requires Chain(s) && Psize(s) >= 0
  {
    match op
    case OpPalloc(size, align, p, m) => Palloc(s, size, align, p, m).0
    case OpMemalign(size, p, m) => Pmemalign(s, size, p, m).0
    case OpFree(p) => Pfree(s, p).0
    case OpReset => Reset(s)
  }

  /** Every answer along the run is possible. */
  predicate Possible(s: Pool, ops: seq<Op>)
    decreases |ops|
  {
    ops == [] || (Chain(s) && Psize(s) >= 0 && Answers(s, ops[0]) && Possible(Apply(s, ops[0]), ops[1..]))
  }

  function Run(s: Pool, ops: seq<Op>): Pool
    requires Possible(s, ops)
    decreases |ops|
  {
    if ops == [] then s else Run(Apply(s, ops[0]), ops[1..])
  }
}
