/** The hash of lib/common/ch_jhash.h and its use for UDP sessions in
    StreamAnalyze/ch_sa_udp_session_pool.c and ch_sa_udp_session.h: both directions of a
    flow must fall into one bucket. */
module Jhash {
  import opened Common

  /** Unsigned 32-bit numbers. */
  type uint32 = w: nat | w < 0x1_0000_0000

  const JHASH_INITVAL: uint32 := 0xdeadbeef

  function Add(x: uint32, y: uint32): uint32 {
    (x + y) % 0x1_0000_0000
  }

  function Sub(x: uint32, y: uint32): uint32 {
    (x - y) % 0x1_0000_0000
  }

  function Pow2(n: nat): (r: nat)
    ensures r > 0
  {
    if n == 0 then 1 else 2 * Pow2(n - 1)
  }

  /** Exclusive or of the low n bits, bit by bit. */
  function XorBits(x: nat, y: nat, n: nat): (r: nat)
    ensures r < Pow2(n)
    decreases n
  {
    if n == 0 then 0 else 2 * XorBits(x / 2, y / 2, n - 1) + (x + y) % 2
  }

  lemma Pow32()
    ensures Pow2(32) == 0x1_0000_0000
  {
    assert Pow2(8) == 0x100;
    assert Pow2(16) == 0x1_0000;
    assert Pow2(24) == 0x100_0000;
  }

  function Xor(x: uint32, y: uint32): uint32 {
    Pow32();
    XorBits(x, y, 32)
  }

  /** rol32: (x << n) | (x >> (32 - n)); the two parts have no bit in common, so they are added. */
  function Rol(x: uint32, n: nat): uint32
    requires n <= 32
  {
    ((x * Pow2(n)) % 0x1_0000_0000 + x / Pow2(32 - n)) % 0x1_0000_0000
  }

  lemma SumBack(x: uint32, y: uint32)
    ensures Sub(Add(x, y), y) == x && Add(Sub(x, y), y) == x
  {
  }

  lemma {:induction false} XorBitsTwice(x: nat, r: nat, n: nat)
    requires x < Pow2(n)
    ensures XorBits(XorBits(x, r, n), r, n) == x
    decreases n
  {
    if n > 0 {
      XorBitsTwice(x / 2, r / 2, n - 1);
      BitTwice(XorBits(x / 2, r / 2, n - 1), x, r);
    }
  }

  lemma BitTwice(h: nat, x: nat, r: nat)
    ensures var z := 2 * h + (x + r) % 2; z / 2 == h && (z + r) % 2 == x % 2
  {
    var p, q := x / 2, r / 2;
    var a, b := x % 2, r % 2;
    assert x == 2 * p + a && r == 2 * q + b;
    if a + b == 2 {
      assert x + r == 2 * (p + q + 1);
    }
  }

  lemma {:induction false} XorBitsCommutes(x: nat, y: nat, n: nat)
    ensures XorBits(x, y, n) == XorBits(y, x, n)
    decreases n
  {
    if n > 0 {
      XorBitsCommutes(x / 2, y / 2, n - 1);
    }
  }

  lemma XorTwice(x: uint32, r: uint32)
    ensures Xor(Xor(x, r), r) == x
  {
    Pow32();
    XorBitsTwice(x, r, 32);
  }

  lemma XorCommutes(x: uint32, y: uint32)
    ensures Xor(x, y) == Xor(y, x)
  {
    XorBitsCommutes(x, y, 32);
  }

  // ----------------------------------------------------------------- mixing

  datatype State = State(a: uint32, b: uint32, c: uint32)

  /** Half a line of __jhash_mix: x -= y; x ^= rol32(y, n). */
  function Blend(x: uint32, y: uint32, n: nat): uint32
    requires n <= 32
  {
    Xor(Sub(x, y), Rol(y, n))
  }

  function Unblend(x: uint32, y: uint32, n: nat): uint32
    requires n <= 32
  {
    Add(Xor(x, Rol(y, n)), y)
  }

  /** __jhash_mix. */
  function Mix(s: State): State {
    var a1 := Blend(s.a, s.c, 4);
    var c1 := Add(s.c, s.b);
    var b1 := Blend(s.b, a1, 6);
    var a2 := Add(a1, c1);
    var c2 := Blend(c1, b1, 8);
    var b2 := Add(b1, a2);
    var a3 := Blend(a2, c2, 16);
    var c3 := Add(c2, b2);
    var b3 := Blend(b2, a3, 19);
    var a4 := Add(a3, c3);
    var c4 := Blend(c3, b3, 4);
    State(a4, Add(b3, a4), c4)
  }

  function Unmix(s: State): State {
    var b3 := Sub(s.b, s.a);
    var c3 := Unblend(s.c, b3, 4);
    var a3 := Sub(s.a, c3);
    var b2 := Unblend(b3, a3, 19);
    var c2 := Sub(c3, b2);
    var a2 := Unblend(a3, c2, 16);
    var b1 := Sub(b2, a2);
    var c1 := Unblend(c2, b1, 8);
    var a1 := Sub(a2, c1);
    var b0 := Unblend(b1, a1, 6);
    var c0 := Sub(c1, b0);
    State(Unblend(a1, c0, 4), b0, c0)
  }

  lemma BlendBack(x: uint32, y: uint32, n: nat)
    requires n <= 32
    ensures Unblend(Blend(x, y, n), y, n) == x
  {
    XorTwice(Sub(x, y), Rol(y, n));
    SumBack(x, y);
  }

  /** Mixing is reversible: no information is lost in a block. */
  lemma MixReversible(s: State)
    ensures Unmix(Mix(s)) == s
  {
    var a1 := Blend(s.a, s.c, 4);
    var c1 := Add(s.c, s.b);
    var b1 := Blend(s.b, a1, 6);
    var a2 := Add(a1, c1);
    var c2 := Blend(c1, b1, 8);
    var b2 := Add(b1, a2);
    var a3 := Blend(a2, c2, 16);
    var c3 := Add(c2, b2);
    var b3 := Blend(b2, a3, 19);
    var a4 := Add(a3, c3);
    SumBack(b3, a4);
    BlendBack(c3, b3, 4);
    SumBack(a3, c3);
    BlendBack(b2, a3, 19);
    SumBack(c2, b2);
    BlendBack(a2, c2, 16);
    SumBack(b1, a2);
    BlendBack(c1, b1, 8);
    SumBack(a1, c1);
    BlendBack(s.b, a1, 6);
    SumBack(s.c, s.b);
    BlendBack(s.a, s.c, 4);
  }

  /** Two different states stay different. */
  lemma MixInjective(s: State, t: State)
    requires Mix(s) == Mix(t)
    ensures s == t
  {
    MixReversible(s);
    MixReversible(t);
  }

  /** Half a line of __jhash_final: x ^= y; x -= rol32(y, n). */
  function Fold(x: uint32, y: uint32, n: nat): uint32
    requires n <= 32
  {
    Sub(Xor(x, y), Rol(y, n))
  }

  function Unfold(x: uint32, y: uint32, n: nat): uint32
    requires n <= 32
  {
    Xor(Add(x, Rol(y, n)), y)
  }

  lemma FoldBack(x: uint32, y: uint32, n: nat)
    requires n <= 32
    ensures Unfold(Fold(x, y, n), y, n) == x
  {
    SumBack(Xor(x, y), Rol(y, n));
    XorTwice(x, y);
  }

  /** __jhash_final. */
  function Finished(s: State): State {
    var c1 := Fold(s.c, s.b, 14);
    var a1 := Fold(s.a, c1, 11);
    var b1 := Fold(s.b, a1, 25);
    var c2 := Fold(c1, b1, 16);
    var a2 := Fold(a1, c2, 4);
    var b2 := Fold(b1, a2, 14);
    State(a2, b2, Fold(c2, b2, 24))
  }

  function Final(s: State): uint32 {
    Finished(s).c
  }

  function Unfinished(s: State): State {
    var c2 := Unfold(s.c, s.b, 24);
    var b1 := Unfold(s.b, s.a, 14);
    var a1 := Unfold(s.a, c2, 4);
    var c1 := Unfold(c2, b1, 16);
    var b0 := Unfold(b1, a1, 25);
    State(Unfold(a1, c1, 11), b0, Unfold(c1, b0, 14))
  }

  /** The final mixing is reversible as well: it loses nothing but the two words that are not returned. */
  lemma FinalReversible(s: State)
    ensures Unfinished(Finished(s)) == s
  {
    var c1 := Fold(s.c, s.b, 14);
    var a1 := Fold(s.a, c1, 11);
    var b1 := Fold(s.b, a1, 25);
    var c2 := Fold(c1, b1, 16);
    var a2 := Fold(a1, c2, 4);
    var b2 := Fold(b1, a2, 14);
    FoldBack(c2, b2, 24);
    FoldBack(b1, a2, 14);
    FoldBack(a1, c2, 4);
    FoldBack(c1, b1, 16);
    FoldBack(s.b, a1, 25);
    FoldBack(s.a, c1, 11);
    FoldBack(s.c, s.b, 14);
  }

  /** Two different states are different after it, and if two of the words are the same the hash tells them apart. */
  lemma FinalTells(s: State, t: State)
    requires s != t
    ensures Finished(s) != Finished(t)
    ensures Finished(s).a == Finished(t).a && Finished(s).b == Finished(t).b ==> Final(s) != Final(t)
  {
    FinalReversible(s);
    FinalReversible(t);
  }

  function AddWords(s: State, x: uint32, y: uint32, z: uint32): State {
    State(Add(s.a, x), Add(s.b, y), Add(s.c, z))
  }

  function Initial(length: uint32, initval: uint32): State {
    var x := Add(Add(JHASH_INITVAL, (4 * length) % 0x1_0000_0000), initval);
    State(x, x, x)
  }

  // ------------------------------------------------------ what a key decides

  datatype Block = Block(x: uint32, y: uint32, z: uint32)

  function WordAt(k: seq<uint32>, i: nat): uint32 {
    if i < |k| then k[i] else 0
  }

  /** The words of a key, three at a time; the last block is filled up with zeros. */
  function BlocksOf(k: seq<uint32>): (r: seq<Block>)
    ensures |r| == (|k| + 2) / 3
    ensures forall i :: 0 <= i < |r| ==> r[i] == Block(WordAt(k, 3 * i), WordAt(k, 3 * i + 1), WordAt(k, 3 * i + 2))
  {
    seq((|k| + 2) / 3, i requires 0 <= i => Block(WordAt(k, 3 * i), WordAt(k, 3 * i + 1), WordAt(k, 3 * i + 2)))
  }

  function AddBlock(s: State, b: Block): State {
    AddWords(s, b.x, b.y, b.z)
  }

  /** Blocks from i on are added to the state, with a mix between any two. */
  function Absorbed(bs: seq<Block>, i: nat, s: State, mix: State -> State, add: (State, Block) -> State): State
    requires i < |bs|
    decreases |bs| - i
  {
    if i + 1 == |bs| then add(s, bs[i]) else Absorbed(bs, i + 1, mix(add(s, bs[i])), mix, add)
  }

  ghost predicate Injective(mix: State -> State) {
    forall s, t :: mix(s) == mix(t) ==> s == t
  }

  ghost predicate Separates(add: (State, Block) -> State) {
    && (forall s, t, b :: add(s, b) == add(t, b) ==> s == t)
    && (forall s, b, d :: add(s, b) == add(s, d) ==> b == d)
  }

  /** Equal blocks from i on cannot make different states equal. */
  lemma {:induction false} TailInjective(bs: seq<Block>, ds: seq<Block>, i: nat, s: State, t: State,
                                         mix: State -> State, add: (State, Block) -> State)
    requires Injective(mix) && Separates(add) && |bs| == |ds| && i < |bs| && (forall k :: i <= k < |bs| ==> bs[k] == ds[k])
    requires Absorbed(bs, i, s, mix, add) == Absorbed(ds, i, t, mix, add)
    ensures s == t
    decreases |bs| - i
  {
    if i + 1 < |bs| {
      TailInjective(bs, ds, i + 1, mix(add(s, bs[i])), mix(add(t, bs[i])), mix, add);
    }
  }

  /** Blocks that differ at j only. */
  lemma {:induction false} OneBlockFrom(bs: seq<Block>, ds: seq<Block>, j: nat, i: nat, s: State,
                                        mix: State -> State, add: (State, Block) -> State)
    requires Injective(mix) && Separates(add) && |bs| == |ds| && i <= j < |bs|
    requires bs[j] != ds[j] && forall k :: 0 <= k < |bs| && k != j ==> bs[k] == ds[k]
    ensures Absorbed(bs, i, s, mix, add) != Absorbed(ds, i, s, mix, add)
    decreases j - i
  {
    if i < j {
      OneBlockFrom(bs, ds, j, i + 1, mix(add(s, bs[i])), mix, add);
    } else if i + 1 < |bs| && Absorbed(bs, i, s, mix, add) == Absorbed(ds, i, s, mix, add) {
      TailInjective(bs, ds, i + 1, mix(add(s, bs[i])), mix(add(s, ds[i])), mix, add);
    }
  }

  /** The three words that ch_jhash2 holds when only the final mixing is left. */
  function Mixed(k: seq<uint32>, s: State): State
    requires k != []
  {
    Absorbed(BlocksOf(k), 0, s, Mix, AddBlock)
  }

  function Hash(k: seq<uint32>, initval: uint32): uint32
    requires |k| < 0x1_0000_0000
  {
    var s := Initial(|k|, initval);
    if k == [] then s.c else Final(Mixed(k, s))
  }

  /** The loop of ch_jhash2 and its switch, with the macros that it expands as parameters. */
  method AbsorbAll(k: seq<uint32>, s0: State, mix: State -> State, add: (State, Block) -> State) returns (s: State)
    requires k != []
    ensures s == Absorbed(BlocksOf(k), 0, s0, mix, add)
  {
    ghost var bs, n := BlocksOf(k), 0;
    s := s0;
    var i, length := 0, |k|;
    while length > 3
      invariant i == 3 * n && i + length == |k| && length > 0
      invariant Absorbed(bs, n, s, mix, add) == Absorbed(bs, 0, s0, mix, add)
    {
      assert bs[n] == Block(k[i], k[i + 1], k[i + 2]);
      s := mix(add(s, Block(k[i], k[i + 1], k[i + 2])));
      length := length - 3;
      i := i + 3;
      n := n + 1;
    }
    assert n + 1 == |bs|;
    match length {
      case 3 => s := add(s, Block(k[i], k[i + 1], k[i + 2]));
      case 2 => s := add(s, Block(k[i], k[i + 1], 0));
      case _ => s := add(s, Block(k[i], 0, 0));
    }
  }

  /** ch_jhash2. */
  method Jhash2(k: seq<uint32>, initval: uint32) returns (r: uint32)
    requires |k| < 0x1_0000_0000
    ensures r == Hash(k, initval)
  {
    var s := Initial(|k|, initval);
    if k == [] {
      return s.c;
    }
    s := AbsorbAll(k, s, Mix, AddBlock);
    r := Final(s);
  }

  /** An empty key hashes to the initial value alone: 0xdeadbeef plus the previous hash. */
  lemma EmptyKey(initval: uint32)
    ensures Hash([], initval) == (0xdeadbeef + initval) % 0x1_0000_0000
  {
  }

  lemma AddCommutes(x: uint32, y: uint32)
    ensures Add(x, y) == Add(y, x)
  {
  }

  lemma AddInjective(x: uint32, y: uint32, x': uint32, y': uint32)
    requires Add(x, y) == Add(x', y') && (x == x' || y == y')
    ensures x == x' && y == y'
  {
    SumBack(x, y);
    SumBack(x', y');
    AddCommutes(x, y);
    AddCommutes(x', y');
    SumBack(y, x);
    SumBack(y', x');
  }

  lemma AddBlockSeparates()
    ensures Separates(AddBlock)
  {
    forall s, t, b, d | AddBlock(s, b) == AddBlock(t, d) && (s == t || b == d)
      ensures s == t && b == d
    {
      AddInjective(s.a, b.x, t.a, d.x);
      AddInjective(s.b, b.y, t.b, d.y);
      AddInjective(s.c, b.z, t.c, d.z);
    }
  }

  lemma MixIsInjective()
    ensures Injective(Mix)
  {
    forall s, t | Mix(s) == Mix(t)
      ensures s == t
    {
      MixInjective(s, t);
    }
  }

  /** Two keys of one length that differ within one block of three words, wherever it is, reach different
      states before the final mixing and after it: no block is lost on the way. */
  lemma OneBlockTold(k: seq<uint32>, l: seq<uint32>, j: nat, initval: uint32)
    requires |k| == |l| < 0x1_0000_0000 && k != l && 3 * j < |k|
    requires forall i :: 0 <= i < |k| && !(3 * j <= i < 3 * j + 3) ==> k[i] == l[i]
    ensures var s := Initial(|k|, initval);
            && Mixed(k, s) != Mixed(l, s) && Finished(Mixed(k, s)) != Finished(Mixed(l, s))
            && Hash(k, initval) == Final(Mixed(k, s)) && Hash(l, initval) == Final(Mixed(l, s))
  {
    MixIsInjective();
    AddBlockSeparates();
    OneBlockOff(k, l, j);
    OneBlockFrom(BlocksOf(k), BlocksOf(l), j, 0, Initial(|k|, initval), Mix, AddBlock);
    FinalTells(Mixed(k, Initial(|k|, initval)), Mixed(l, Initial(|k|, initval)));
  }

  lemma OneBlockOff(k: seq<uint32>, l: seq<uint32>, j: nat)
    requires |k| == |l| && k != l && 3 * j < |k|
    requires forall i :: 0 <= i < |k| && !(3 * j <= i < 3 * j + 3) ==> k[i] == l[i]
    ensures var bs, ds := BlocksOf(k), BlocksOf(l);
            bs[j] != ds[j] && forall i :: 0 <= i < |bs| && i != j ==> bs[i] == ds[i]
  {
    var i :| 0 <= i < |k| && k[i] != l[i];
    assert i == 3 * j || i == 3 * j + 1 || i == 3 * j + 2;
    assert WordAt(k, i) != WordAt(l, i);
  }

  // ---------------------------------------------------------------- sorting

  predicate Ascending(s: seq<nat>) {
    forall i, j :: 0 <= i < j < |s| ==> s[i] <= s[j]
  }

  function Is(x: nat, v: nat): nat {
    if x == v then 1 else 0
  }

  /** How often v is among the numbers of s. */
  function Times(s: seq<nat>, v: nat): nat {
    if s == [] then 0 else Is(s[0], v) + Times(s[1..], v)
  }

  lemma {:induction false} TimesIn(s: seq<nat>, v: nat)
    ensures Times(s, v) > 0 <==> v in s
  {
    if s != [] {
      TimesIn(s[1..], v);
      assert s == [s[0]] + s[1..];
    }
  }

  lemma FirstOf(s: seq<nat>, t: seq<nat>)
    requires Ascending(s) && Ascending(t) && s != [] && t != []
    requires forall v :: Times(s, v) == Times(t, v)
    ensures s[0] == t[0] && forall v :: Times(s[1..], v) == Times(t[1..], v)
  {
    TimesIn(s, s[0]);
    TimesIn(t, s[0]);
    TimesIn(t, t[0]);
    TimesIn(s, t[0]);
    assert s[0] == t[0];
    forall v
      ensures Times(s[1..], v) == Times(t[1..], v)
    {
      assert Times(s, v) == Times(t, v);
    }
  }

  /** Numbers in ascending order are determined by how often each occurs. */
  lemma {:induction false} AscendingUnique(s: seq<nat>, t: seq<nat>)
    requires Ascending(s) && Ascending(t) && |s| == |t| && forall v :: Times(s, v) == Times(t, v)
    ensures s == t
    decreases |s|
  {
    if s != [] {
      FirstOf(s, t);
      AscendingUnique(s[1..], t[1..]);
      assert s == [s[0]] + s[1..] && t == [t[0]] + t[1..];
    }
  }

  /** __do_swap. */
  function Swap(a: uint32, b: uint32): (uint32, uint32) {
    if a > b then (b, a) else (a, b)
  }

  /** The network of ch_jhash_3words_sort. */
  function Sort3(x: uint32, y: uint32, z: uint32): (r: seq<uint32>)
    ensures |r| == 3
  {
    var (a, b) := Swap(x, y);
    var (a, c) := Swap(a, z);
    var (b, c) := Swap(b, c);
    [a, b, c]
  }

  lemma Times3(a: nat, b: nat, c: nat, v: nat)
    ensures Times([a, b, c], v) == Is(a, v) + Is(b, v) + Is(c, v)
  {
    assert [a, b, c][1..] == [b, c] && [b, c][1..] == [c];
    assert Times([c], v) == Is(c, v) + Times([], v);
    assert Times([b, c], v) == Is(b, v) + Times([c], v);
  }

  lemma Sort3Sorts(x: uint32, y: uint32, z: uint32)
    ensures Ascending(Sort3(x, y, z))
    ensures forall v :: Times(Sort3(x, y, z), v) == Is(x, v) + Is(y, v) + Is(z, v)
  {
    var r := Sort3(x, y, z);
    forall v
      ensures Times(r, v) == Is(x, v) + Is(y, v) + Is(z, v)
    {
      Times3(r[0], r[1], r[2], v);
      assert r == [r[0], r[1], r[2]];
    }
  }

  /** The network of ch_jhash_4words_sort: the least word comes first, and then the network for three. */
  function Sort4(w: uint32, x: uint32, y: uint32, z: uint32): (r: seq<uint32>)
    ensures |r| == 4
  {
    var (a, b) := Swap(w, x);
    var (a, c) := Swap(a, y);
    var (a, d) := Swap(a, z);
    [a] + Sort3(b, c, d)
  }

  lemma Sort4Sorts(w: uint32, x: uint32, y: uint32, z: uint32)
    ensures Ascending(Sort4(w, x, y, z))
    ensures forall v :: Times(Sort4(w, x, y, z), v) == Is(w, v) + Is(x, v) + Is(y, v) + Is(z, v)
  {
    var (a1, b) := Swap(w, x);
    var (a2, c) := Swap(a1, y);
    var (a, d) := Swap(a2, z);
    var s := Sort3(b, c, d);
    Sort3Sorts(b, c, d);
    LeastFirst(a, s);
    forall v
      ensures Times([a] + s, v) == Is(w, v) + Is(x, v) + Is(y, v) + Is(z, v)
    {
      assert ([a] + s)[1..] == s;
      assert Times(s, v) == Is(b, v) + Is(c, v) + Is(d, v);
    }
  }

  lemma LeastFirst(a: nat, s: seq<nat>)
    requires Ascending(s) && (s != [] ==> a <= s[0])
    ensures Ascending([a] + s)
  {
    var r := [a] + s;
    assert forall i :: 0 < i < |r| ==> r[i] == s[i - 1] && s[0] <= s[i - 1];
  }

  /** ch_jhash_4words_sort. */
  function Hash4Sort(a: uint32, b: uint32, c: uint32, d: uint32, initval: uint32): uint32 {
    Hash(Sort4(a, b, c, d), initval)
  }

  /** __jhash_nwords. */
  function NWords(k: seq<uint32>, initval: uint32): uint32
    requires |k| == 3
  {
    Final(AddWords(State(initval, initval, initval), k[0], k[1], k[2]))
  }

  /** ch_jhash_3words_sort. */
  function Hash3Sort(a: uint32, b: uint32, c: uint32, initval: uint32): uint32 {
    NWords(Sort3(a, b, c), Add(Add(initval, JHASH_INITVAL), 12))
  }

  lemma {:induction false} TimesMultiset(s: seq<nat>, v: nat)
    ensures Times(s, v) == multiset(s)[v]
  {
    if s != [] {
      TimesMultiset(s[1..], v);
      assert s == [s[0]] + s[1..];
    }
  }

  lemma Times4(a: nat, b: nat, c: nat, d: nat, v: nat)
    ensures Times([a, b, c, d], v) == Is(a, v) + Is(b, v) + Is(c, v) + Is(d, v)
  {
    Times3(b, c, d, v);
    assert [a, b, c, d][1..] == [b, c, d];
  }

  lemma SameTimes(k: seq<uint32>, l: seq<uint32>, v: nat)
    requires multiset(k) == multiset(l)
    ensures Times(k, v) == Times(l, v)
  {
    TimesMultiset(k, v);
    TimesMultiset(l, v);
  }

  lemma Sorted4Times(k: seq<uint32>, v: nat)
    requires |k| == 4
    ensures Times(Sort4(k[0], k[1], k[2], k[3]), v) == Times(k, v)
  {
    Sort4Sorts(k[0], k[1], k[2], k[3]);
    Times4(k[0], k[1], k[2], k[3], v);
    assert k == [k[0], k[1], k[2], k[3]];
  }

  lemma Sorted3Times(k: seq<uint32>, v: nat)
    requires |k| == 3
    ensures Times(Sort3(k[0], k[1], k[2]), v) == Times(k, v)
  {
    Sort3Sorts(k[0], k[1], k[2]);
    Times3(k[0], k[1], k[2], v);
    assert k == [k[0], k[1], k[2]];
  }

  /** The order of the words does not matter. */
  lemma Hash4Symmetric(k: seq<uint32>, l: seq<uint32>, initval: uint32)
    requires |k| == |l| == 4 && multiset(k) == multiset(l)
    ensures Hash4Sort(k[0], k[1], k[2], k[3], initval) == Hash4Sort(l[0], l[1], l[2], l[3], initval)
  {
    var s, t := Sort4(k[0], k[1], k[2], k[3]), Sort4(l[0], l[1], l[2], l[3]);
    forall v: nat
      ensures Times(s, v) == Times(t, v)
    {
      Sorted4Times(k, v);
      Sorted4Times(l, v);
      SameTimes(k, l, v);
    }
    Sort4Sorts(k[0], k[1], k[2], k[3]);
    Sort4Sorts(l[0], l[1], l[2], l[3]);
    AscendingUnique(s, t);
  }

  lemma Hash3Symmetric(k: seq<uint32>, l: seq<uint32>, initval: uint32)
    requires |k| == |l| == 3 && multiset(k) == multiset(l)
    ensures Hash3Sort(k[0], k[1], k[2], initval) == Hash3Sort(l[0], l[1], l[2], initval)
  {
    var s, t := Sort3(k[0], k[1], k[2]), Sort3(l[0], l[1], l[2]);
    forall v: nat
      ensures Times(s, v) == Times(t, v)
    {
      Sorted3Times(k, v);
      Sorted3Times(l, v);
      SameTimes(k, l, v);
    }
    Sort3Sorts(k[0], k[1], k[2]);
    Sort3Sorts(l[0], l[1], l[2]);
    AscendingUnique(s, t);
  }

  // ------------------------------------------------------------ UDP sessions

  /** An IPv6 address as the four words that the hash reads. */
  datatype Addr = Addr(w0: uint32, w1: uint32, w2: uint32, w3: uint32)

  datatype Packet = Packet(isIpv6: bool, srcIp: uint32, dstIp: uint32, srcAddr: Addr, dstAddr: Addr,
                           srcPort: uint32, dstPort: uint32)

  datatype Endpoint = Endpoint(ip: uint32, addr: Addr, port: uint32)

  datatype Session = Session(isIpv6: bool, req: Endpoint, res: Endpoint)

  /** ipv6_hash. */
  function AddrHash(s: Addr, d: Addr): uint32 {
    Xor(Xor(Xor(Xor(s.w0, d.w0), Xor(s.w1, d.w1)), Xor(s.w2, d.w2)), Xor(s.w3, d.w3))
  }

  /** _sa_udp_session_entry_hash, and the same for TCP requests and sessions. */
  function EntryHash(p: Packet): uint32 {
    if p.isIpv6 then Hash3Sort(AddrHash(p.srcAddr, p.dstAddr), p.srcPort, p.dstPort, 0)
    else Hash4Sort(p.srcIp, p.dstIp, p.srcPort, p.dstPort, 0)
  }

  predicate IsRequest(u: Session, p: Packet) {
    if p.isIpv6 then
      && u.isIpv6 && u.req.addr == p.srcAddr && u.req.port == p.srcPort
      && u.res.addr == p.dstAddr && u.res.port == p.dstPort
    else
      && u.req.ip == p.srcIp && u.req.port == p.srcPort
      && u.res.ip == p.dstIp && u.res.port == p.dstPort
  }

  predicate IsResponse(u: Session, p: Packet) {
    if p.isIpv6 then
      && u.isIpv6 && u.req.addr == p.dstAddr && u.req.port == p.dstPort
      && u.res.addr == p.srcAddr && u.res.port == p.srcPort
    else
      && u.req.ip == p.dstIp && u.req.port == p.dstPort
      && u.res.ip == p.srcIp && u.res.port == p.srcPort
  }

  /** ch_sa_udp_session_init in a table entry that held `old`: only the fields of the packet's IP version are set. */
  function Init(prev: Session, p: Packet): Session {
    if p.isIpv6
    then Session(true, prev.req.(addr := p.srcAddr, port := p.srcPort), prev.res.(addr := p.dstAddr, port := p.dstPort))
    else Session(false, prev.req.(ip := p.srcIp, port := p.srcPort), prev.res.(ip := p.dstIp, port := p.dstPort))
  }

  function Reply(p: Packet): Packet {
    p.(srcIp := p.dstIp, dstIp := p.srcIp, srcAddr := p.dstAddr, dstAddr := p.srcAddr,
       srcPort := p.dstPort, dstPort := p.srcPort)
  }

  lemma AddrHashCommutes(s: Addr, d: Addr)
    ensures AddrHash(s, d) == AddrHash(d, s)
  {
    XorCommutes(s.w0, d.w0);
    XorCommutes(s.w1, d.w1);
    XorCommutes(s.w2, d.w2);
    XorCommutes(s.w3, d.w3);
  }

  lemma PairMultiset(a: uint32, b: uint32)
    ensures multiset([a, b]) == multiset([b, a])
  {
    assert multiset([a, b]) == multiset{a, b} == multiset([b, a]);
  }

  lemma Crossed4(a: uint32, b: uint32, c: uint32, d: uint32)
    ensures Hash4Sort(a, b, c, d, 0) == Hash4Sort(b, a, d, c, 0)
  {
    var k, l := [a, b, c, d], [b, a, d, c];
    assert k == [a, b] + [c, d] && l == [b, a] + [d, c];
    PairMultiset(a, b);
    PairMultiset(c, d);
    Hash4Symmetric(k, l, 0);
  }

  lemma Crossed3(h: uint32, c: uint32, d: uint32)
    ensures Hash3Sort(h, c, d, 0) == Hash3Sort(h, d, c, 0)
  {
    var k, l := [h, c, d], [h, d, c];
    assert k == [h] + [c, d] && l == [h] + [d, c];
    PairMultiset(c, d);
    Hash3Symmetric(k, l, 0);
  }

  /** Both directions of a flow have one hash. */
  lemma ReplyHash(p: Packet)
    ensures EntryHash(Reply(p)) == EntryHash(p)
  {
    if p.isIpv6 {
      AddrHashCommutes(p.srcAddr, p.dstAddr);
      Crossed3(AddrHash(p.srcAddr, p.dstAddr), p.srcPort, p.dstPort);
    } else {
      Crossed4(p.srcIp, p.dstIp, p.srcPort, p.dstPort);
    }
  }

  /** A session made by a packet is the session of just the packets of its flow, in either direction. */
  lemma FlowOf(prev: Session, p: Packet, q: Packet)
    requires p.isIpv6 == q.isIpv6
    ensures IsRequest(Init(prev, p), q) <==> Ends(q) == Ends(p)
    ensures IsResponse(Init(prev, p), q) <==> Ends(q) == Ends(Reply(p))
  {
  }

  /** The part of a packet that tells its flow and direction. */
  function Ends(p: Packet): (bool, uint32, uint32, Option<(Addr, Addr)>, Option<(uint32, uint32)>) {
    (p.isIpv6, p.srcPort, p.dstPort,
     if p.isIpv6 then Some((p.srcAddr, p.dstAddr)) else None,
     if p.isIpv6 then None else Some((p.srcIp, p.dstIp)))
  }

  /** A packet that belongs to a session is looked for in the bucket where the session is. */
  lemma SameBucket(prev: Session, p: Packet, q: Packet)
    requires p.isIpv6 == q.isIpv6
    requires IsRequest(Init(prev, p), q) || IsResponse(Init(prev, p), q)
    ensures EntryHash(q) == EntryHash(p)
  {
    ReplyHash(p);
  }
}
