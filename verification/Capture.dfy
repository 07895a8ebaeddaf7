/** In-order payload capture of one direction of a TCP session
    (StreamAnalyze/ch_sa_tcp_session_handler.c), on top of the fragment buffer.

    Packets carry slices of one byte stream and may be retransmitted, overlap or
    arrive in any order.  What is stored is determined by the set of bytes that
    arrived: it is the stream up to the first missing byte, cut by the two caps. */
module Capture {
  import opened Common
  import opened Assembler

  const MAX_DSIZE := 512
  const MAX_PAYLOAD := 0xFFFF

  function Min(a: nat, b: nat): nat {
    if a < b then a else b
  }

  /** Capacity of a data store: payload_data_size, but never above MAX_DSIZE. */
  function Cap(maxPlen: nat): nat {
    Min(maxPlen, MAX_DSIZE)
  }

  datatype Packet = Packet(sentSeq: nat, payload: seq<Byte>, fin: bool, rst: bool)

  /** What the environment answers while a packet is processed: whether each of
      the two possible store requests and the fragment allocation succeed. */
  datatype Env = Env(store1: bool, store2: bool, mem: bool)

  /** ch_tcp_session_endpoint_offset_get: subtraction modulo 2^32. */
  function Offset(initSeq: nat, pkt: Packet): nat {
    (pkt.sentSeq - initSeq) % TWO32
  }

  function Piece(initSeq: nat, pkt: Packet): Fragment {
    Fragment(Offset(initSeq, pkt), pkt.payload)
  }

  /** The payload is a slice of the stream, unless it starts beyond the cap. */
  predicate Carries(maxPlen: nat, d: Fragment, stream: seq<Byte>) {
    && |d.data| <= MAX_PAYLOAD
    && (d.offset < maxPlen ==> SliceOf(d, stream))
  }

  /** Byte q of the stream is in one of the payloads that start below the cap. */
  predicate Arrived(maxPlen: nat, log: seq<Fragment>, q: nat) {
    exists k :: 0 <= k < |log| && log[k].offset < maxPlen && Within(log[k], q)
  }

  lemma ArrivedAppend(maxPlen: nat, log: seq<Fragment>, d: Fragment, q: nat)
    ensures Arrived(maxPlen, log + [d], q) <==>
              Arrived(maxPlen, log, q) || (d.offset < maxPlen && Within(d, q))
  {
    var all := log + [d];
    assert all[|log|] == d;
    assert forall k :: 0 <= k < |log| ==> all[k] == log[k];
  }

  /** Appending the bytes that follow keeps the store a prefix of the stream. */
  lemma StoreGrows(stream: seq<Byte>, last: nat, end: nat, cap: nat)
    requires last <= end <= |stream|
    ensures var old_, data := stream[..Min(last, cap)], stream[last..end];
            (old_ + data)[..Min(|old_| + |data|, cap)] == stream[..Min(end, cap)]
  {
    if last <= cap {
      assert stream[..last] + stream[last..end] == stream[..end];
    }
  }

  /** g is the first byte of the stream that did not arrive. */
  predicate FirstGap(maxPlen: nat, log: seq<Fragment>, g: nat) {
    !Arrived(maxPlen, log, g) && forall q: nat :: q < g ==> Arrived(maxPlen, log, q)
  }

  class Direction {
    const maxPlen: nat
    const initSeq: nat
    const asm: Buffer
    var lastOffset: nat
    var store: Option<seq<Byte>>
    var error: bool
    var dataOk: bool
    ghost const stream: seq<Byte>
    ghost var log: seq<Fragment>

    function Stored(): seq<Byte>
      reads this
    {
      if store.Some? then store.value else []
    }

    /** What is stored is a prefix of the stream, and what has arrived is exactly
        what lies below lastOffset or waits in the buffer. */
    ghost predicate Consistent()
      reads this, asm
    {
      && PrefixStored()
      && (!error && |Stored()| < maxPlen ==>
            forall q: nat :: Arrived(maxPlen, log, q) <==> q < lastOffset || Covers(asm.frags, q))
      && (!error && |Stored()| >= maxPlen ==>
            forall q: nat :: q < maxPlen ==> Arrived(maxPlen, log, q))
    }

    ghost predicate PrefixStored()
      reads this, asm
    {
      && maxPlen + MAX_PAYLOAD < TWO32
      && asm.Valid() && AllSlices(asm.frags, stream)
      && lastOffset <= |stream| && lastOffset < TWO32
      && (dataOk <==> store.Some? && |Stored()| >= maxPlen)
      && |Stored()| <= Cap(maxPlen)
      && (!error ==> Stored() == stream[..Min(lastOffset, Cap(maxPlen))])
    }

    /** Between packets the byte at lastOffset is missing: the buffer holds nothing next to it. */
    ghost predicate Valid()
      reads this, asm
    {
      && Consistent()
      && (!error && |Stored()| < maxPlen ==> forall q: nat :: Covers(asm.frags, q) ==> q > lastOffset)
    }

    constructor (maxPlen: nat, initSeq: nat, ghost stream: seq<Byte>)
      requires maxPlen + MAX_PAYLOAD < TWO32
      ensures Valid() && fresh(asm) && log == [] && !error
      ensures this.maxPlen == maxPlen && this.initSeq == initSeq && this.stream == stream
    {
      this.maxPlen, this.initSeq, this.stream := maxPlen, initSeq, stream;
      asm := new Buffer();
      lastOffset, store, error, dataOk, log := 0, None, false, false, [];
    }

    /** _need_process_payload */
    predicate NeedProcess(offset: nat)
      reads this
    {
      offset < maxPlen && !error && |Stored()| < maxPlen
    }

    /** _write_session_payload; `got` is the answer of the store pool if it is asked. */
    method WritePayload(data: seq<Byte>, got: bool)
      requires |Stored()| <= Cap(maxPlen)
      modifies this`store, this`error, this`dataOk, asm
      ensures if old(store.None?) && !got then error && store == old(store) && dataOk == old(dataOk) && asm.frags == old(asm.frags)
              else && store == Some((old(Stored()) + data)[..Min(|old(Stored())| + |data|, Cap(maxPlen))])
                   && error == old(error)
                   && (dataOk <==> old(dataOk) || |Stored()| >= maxPlen)
                   && asm.frags == if old(|Stored()|) < maxPlen <= |Stored()| then [] else old(asm.frags)
    {
      if store.None? {
        if !got {
          error := true;
          return;
        }
        store := Some([]);
      }
      var dataSize := |store.value|;
      if dataSize >= maxPlen {
        dataOk := true;
        assert (old(Stored()) + data)[..dataSize] == old(Stored());
        return;
      }
      var rlen := |data|;
      if dataSize + rlen > maxPlen {
        rlen := maxPlen - dataSize;
      }
      // ch_sa_data_store_write
      var room := Cap(maxPlen) - dataSize;
      if rlen < room {
        room := rlen;
      }
      assert (old(Stored()) + data)[..dataSize + room] == old(Stored()) + data[..room];
      store := Some(store.value + data[..room]);
      if |store.value| >= maxPlen {
        dataOk := true;
        asm.Fin();
      }
    }

    /** Lines 671-677: bytes that extend the prefix. */
    method Extend(d: Fragment, env: Env)
      requires Valid() && Carries(maxPlen, d, stream) && NeedProcess(d.offset)
      requires d.offset <= lastOffset < End(d)
      modifies this, asm
      ensures log == old(log) + [d] && Consistent()
      ensures error ==> old(error) || !env.store1
    {
      var diff := lastOffset - d.offset;
      var data := d.data[diff..];
      log := log + [d];
      forall q: nat
        ensures Arrived(maxPlen, log, q) <==> q < End(d) || Covers(asm.frags, q)
      {
        ArrivedAppend(maxPlen, old(log), d, q);
      }
      Append(Fragment(lastOffset, data), env.store1);
    }

    /** Write the bytes that follow the prefix and move lastOffset past them. */
    method Append(d: Fragment, got: bool)
      requires PrefixStored() && SliceOf(d, stream) && d.offset == lastOffset && Fits(d)
      modifies this`store, this`error, this`dataOk, this`lastOffset, asm
      ensures PrefixStored() && lastOffset == End(d)
      ensures old(error) ==> error
      ensures error ==> old(error) || !got
      ensures !error ==> |Stored()| >= |old(Stored())|
      ensures !error && |Stored()| < maxPlen ==> asm.frags == old(asm.frags)
    {
      assert d.data == stream[lastOffset..End(d)];
      StoreGrows(stream, lastOffset, End(d), Cap(maxPlen));
      lastOffset := (d.offset + |d.data|) % TWO32;
      WritePayload(d.data, got);
    }

    /** Lines 679-687: take what the buffer holds right after the prefix. */
    method Drain(env: Env)
      requires Consistent()
      modifies this, asm
      ensures log == old(log) && Valid()
      ensures error ==> old(error) || !env.store2
    {
      var df := asm.Pop(lastOffset, stream);
      if df.Some? {
        Take(df.value, env);
      }
    }

    method Take(df: Fragment, env: Env)
      requires PrefixStored() && SliceOf(df, stream) && df.offset == lastOffset && Fits(df)
      requires !error && |Stored()| < maxPlen ==>
                 && (forall q: nat :: Arrived(maxPlen, log, q) <==> q < End(df) || Covers(asm.frags, q))
                 && (forall q: nat :: Covers(asm.frags, q) ==> q > End(df))
      requires !error && |Stored()| >= maxPlen ==>
                 forall q: nat :: q < maxPlen ==> Arrived(maxPlen, log, q)
      modifies this, asm
      ensures log == old(log) && Valid()
      ensures error ==> old(error) || !env.store2
    {
      Append(df, env.store2);
    }

    /** The data part of one packet: _need_process_payload and _process_data_packet.
        `closed` says that the session was closed because memory ran out. */
    method Process(pkt: Packet, env: Env) returns (closed: bool)
      requires Valid() && Carries(maxPlen, Piece(initSeq, pkt), stream)
      modifies this, asm
      ensures log == old(log) + [Piece(initSeq, pkt)]
      ensures if closed then !env.mem else Valid()
      ensures error ==> old(error) || !env.store1 || !env.store2
    {
      var d := Piece(initSeq, pkt);
      closed := false;
      forall q: nat
        ensures Arrived(maxPlen, log + [d], q) <==> Arrived(maxPlen, log, q) || (d.offset < maxPlen && Within(d, q))
      {
        ArrivedAppend(maxPlen, log, d, q);
      }
      if !NeedProcess(d.offset) {
        log := log + [d];
        return;
      }
      var endOffset := (d.offset + |d.data|) % TWO32;
      if endOffset <= lastOffset {
        log := log + [d];
      } else if d.offset > lastOffset {
        var rc := asm.Push(d.data, d.offset, env.mem, stream);
        log := log + [d];
        if rc != 0 {
          closed := true;
        }
      } else {
        Extend(d, env);
        Drain(env);
      }
    }

    /** ch_sa_tcp_session_packet_handle, for a packet that ends no session: it leaves before the data part
        for a FIN, and has no data part for an empty payload. */
    method Handle(pkt: Packet, env: Env) returns (closed: bool)
      requires Valid() && !pkt.rst && (HasData(pkt) ==> Carries(maxPlen, Piece(initSeq, pkt), stream))
      modifies this, asm
      ensures log == old(log) + if HasData(pkt) then [Piece(initSeq, pkt)] else []
      ensures if closed then !env.mem else Valid()
      ensures error ==> old(error) || !env.store1 || !env.store2
    {
      closed := false;
      if !pkt.fin && pkt.payload != [] {
        closed := Process(pkt, env);
      }
    }

    /** While no allocation failed, the store holds the stream up to the first gap. */
    lemma UpToFirstGap() returns (g: nat)
      requires Valid() && !error
      requires forall k :: 0 <= k < |log| ==> Carries(maxPlen, log[k], stream)
      ensures FirstGap(maxPlen, log, g) && g <= |stream|
      ensures Stored() == stream[..Min(g, Cap(maxPlen))]
    {
      g := FindGap(maxPlen, log, 0, |stream|);
      if |Stored()| < maxPlen {
        assert FirstGap(maxPlen, log, lastOffset);
        OneGap(maxPlen, log, g, lastOffset);
      } else {
        assert g >= maxPlen;
      }
    }

    /** The first n packets, none of them an RST, have been handled. */
    ghost predicate Through(pkts: seq<Packet>, n: nat)
      requires n <= |pkts|
      reads this, asm
    {
      && Valid() && !Reset(pkts[..n]) && log == Pieces(initSeq, Handled(pkts[..n]))
      && forall k :: 0 <= k < |log| ==> Carries(maxPlen, log[k], stream)
    }

    method Next(pkts: seq<Packet>, n: nat, env: Env) returns (closed: bool)
      requires n < |pkts| && Through(pkts, n) && !pkts[n].rst
      requires HasData(pkts[n]) ==> Carries(maxPlen, Piece(initSeq, pkts[n]), stream)
      modifies this, asm
      ensures if closed then !env.mem else Through(pkts, n + 1)
      ensures error ==> old(error) || !env.store1 || !env.store2
    {
      HandledNext(initSeq, pkts, n);
      closed := Handle(pkts[n], env);
    }

    lemma CapturedNow(pkts: seq<Packet>)
      requires Valid() && !error && log == Pieces(initSeq, pkts)
      requires forall k :: 0 <= k < |log| ==> Carries(maxPlen, log[k], stream)
      ensures Captured(maxPlen, initSeq, stream, pkts, Stored())
      ensures maxPlen > 0 ==> (dataOk <==> |Stored()| == maxPlen)
    {
      var g := UpToFirstGap();
    }
  }

  /** A store or a fragment that one of the first n packets asked for was not got. */
  predicate SomeFailed(envs: seq<Env>, n: nat)
    requires n <= |envs|
  {
    exists k :: 0 <= k < n && !(envs[k].store1 && envs[k].store2 && envs[k].mem)
  }

  lemma {:induction false} FindGap(maxPlen: nat, log: seq<Fragment>, from: nat, bound: nat) returns (g: nat)
    requires from <= bound
    requires forall q: nat :: q < from ==> Arrived(maxPlen, log, q)
    requires forall q: nat :: q >= bound ==> !Arrived(maxPlen, log, q)
    ensures FirstGap(maxPlen, log, g) && g <= bound
    decreases bound - from
  {
    if Arrived(maxPlen, log, from) {
      g := FindGap(maxPlen, log, from + 1, bound);
    } else {
      g := from;
    }
  }

  /** The bytes captured from the packets: the stream up to the first byte that none of them
      carried, cut at the capacity of a store. */
  ghost predicate Captured(maxPlen: nat, initSeq: nat, stream: seq<Byte>, pkts: seq<Packet>, stored: seq<Byte>) {
    exists g: nat :: FirstGap(maxPlen, Pieces(initSeq, pkts), g) && g <= |stream| && stored == stream[..Min(g, Cap(maxPlen))]
  }

  /** The captured bytes do not depend on the order of arrival, nor on repetitions. */
  lemma OrderIrrelevant(maxPlen: nat, initSeq: nat, stream: seq<Byte>,
                        pkts1: seq<Packet>, pkts2: seq<Packet>, stored1: seq<Byte>, stored2: seq<Byte>)
    requires forall p :: p in pkts1 <==> p in pkts2
    requires Captured(maxPlen, initSeq, stream, pkts1, stored1) && Captured(maxPlen, initSeq, stream, pkts2, stored2)
    ensures stored1 == stored2
  {
    var log1, log2 := Pieces(initSeq, pkts1), Pieces(initSeq, pkts2);
    var g1: nat :| FirstGap(maxPlen, log1, g1) && g1 <= |stream| && stored1 == stream[..Min(g1, Cap(maxPlen))];
    var g2: nat :| FirstGap(maxPlen, log2, g2) && g2 <= |stream| && stored2 == stream[..Min(g2, Cap(maxPlen))];
    forall q: nat
      ensures Arrived(maxPlen, log1, q) <==> Arrived(maxPlen, log2, q)
    {
      if Arrived(maxPlen, log1, q) {
        SameArrived(maxPlen, initSeq, pkts1, pkts2, q);
      }
      if Arrived(maxPlen, log2, q) {
        SameArrived(maxPlen, initSeq, pkts2, pkts1, q);
      }
    }
    OneGap(maxPlen, log1, g1, g2);
  }

  lemma {:induction false} PiecesAt(initSeq: nat, pkts: seq<Packet>)
    ensures |Pieces(initSeq, pkts)| == |pkts|
    ensures forall k :: 0 <= k < |pkts| ==> Pieces(initSeq, pkts)[k] == Piece(initSeq, pkts[k])
  {
    if pkts != [] {
      PiecesAt(initSeq, pkts[..|pkts| - 1]);
    }
  }

  lemma SameArrived(maxPlen: nat, initSeq: nat, pkts1: seq<Packet>, pkts2: seq<Packet>, q: nat)
    requires (forall p :: p in pkts1 ==> p in pkts2) && Arrived(maxPlen, Pieces(initSeq, pkts1), q)
    ensures Arrived(maxPlen, Pieces(initSeq, pkts2), q)
  {
    var log1, log2 := Pieces(initSeq, pkts1), Pieces(initSeq, pkts2);
    PiecesAt(initSeq, pkts1);
    PiecesAt(initSeq, pkts2);
    var k :| 0 <= k < |log1| && log1[k].offset < maxPlen && Within(log1[k], q);
    assert pkts1[k] in pkts2;
    var j :| 0 <= j < |pkts2| && pkts2[j] == pkts1[k];
    assert log2[j] == log1[k];
  }

  lemma OneGap(maxPlen: nat, log: seq<Fragment>, g1: nat, g2: nat)
    requires FirstGap(maxPlen, log, g1) && FirstGap(maxPlen, log, g2)
    ensures g1 == g2
  {
    assert !(g1 < g2) && !(g2 < g1);
  }

  function Pieces(initSeq: nat, pkts: seq<Packet>): seq<Fragment> {
    if pkts == [] then [] else Pieces(initSeq, pkts[..|pkts| - 1]) + [Piece(initSeq, pkts[|pkts| - 1])]
  }

  // ------------------------------------------------- packets that are not captured

  /** The data part is entered. */
  predicate HasData(p: Packet) {
    !p.fin && !p.rst && p.payload != []
  }

  /** An RST closes the session. */
  predicate Reset(pkts: seq<Packet>) {
    exists k :: 0 <= k < |pkts| && pkts[k].rst
  }

  /** The packets whose payload is looked at. */
  function Handled(pkts: seq<Packet>): seq<Packet> {
    if pkts == [] then []
    else
      var init, p := pkts[..|pkts| - 1], pkts[|pkts| - 1];
      if HasData(p) && !Reset(init) then Handled(init) + [p] else Handled(init)
  }

  /** Packet k is a FIN, or an RST came with or before it. */
  predicate Dropped(pkts: seq<Packet>, k: nat)
    requires k < |pkts|
  {
    pkts[k].fin || Reset(pkts[..k + 1])
  }

  /** The packet carries byte q of the stream, in a payload that starts below the cap. */
  predicate Brings(maxPlen: nat, initSeq: nat, p: Packet, q: nat) {
    Offset(initSeq, p) < maxPlen && Within(Piece(initSeq, p), q)
  }

  /** Byte q is carried by a packet that is not dropped. */
  predicate Kept(maxPlen: nat, initSeq: nat, pkts: seq<Packet>, q: nat) {
    exists k :: 0 <= k < |pkts| && Brings(maxPlen, initSeq, pkts[k], q) && !Dropped(pkts, k)
  }

  lemma KeptAppend(maxPlen: nat, initSeq: nat, init: seq<Packet>, p: Packet, q: nat)
    ensures Kept(maxPlen, initSeq, init + [p], q) <==>
            Kept(maxPlen, initSeq, init, q) || (Brings(maxPlen, initSeq, p, q) && HasData(p) && !Reset(init))
  {
    var pkts, n := init + [p], |init|;
    forall k | 0 <= k < n
      ensures pkts[k] == init[k] && Dropped(pkts, k) == Dropped(init, k)
    {
      assert pkts[..k + 1] == init[..k + 1];
    }
    assert pkts[..n + 1] == pkts && pkts[n] == p;
    assert Reset(pkts) <==> Reset(init) || p.rst;
    assert Dropped(pkts, n) <==> p.fin || p.rst || Reset(init);
  }

  lemma {:induction false} HandledBring(maxPlen: nat, initSeq: nat, pkts: seq<Packet>, q: nat)
    ensures Arrived(maxPlen, Pieces(initSeq, Handled(pkts)), q) <==> Kept(maxPlen, initSeq, pkts, q)
    decreases |pkts|
  {
    if pkts != [] {
      var init, p := pkts[..|pkts| - 1], pkts[|pkts| - 1];
      HandledBring(maxPlen, initSeq, init, q);
      KeptAppend(maxPlen, initSeq, init, p, q);
      assert init + [p] == pkts;
      if HasData(p) && !Reset(init) {
        assert (Handled(init) + [p])[..|Handled(init)|] == Handled(init);
        ArrivedAppend(maxPlen, Pieces(initSeq, Handled(init)), Piece(initSeq, p), q);
      }
    }
  }

  lemma HandledNext(initSeq: nat, pkts: seq<Packet>, n: nat)
    requires n < |pkts| && !Reset(pkts[..n]) && !pkts[n].rst
    ensures !Reset(pkts[..n + 1])
    ensures Pieces(initSeq, Handled(pkts[..n + 1])) ==
            Pieces(initSeq, Handled(pkts[..n])) + if HasData(pkts[n]) then [Piece(initSeq, pkts[n])] else []
  {
    var h := Handled(pkts[..n]);
    assert pkts[..n + 1][..n] == pkts[..n];
    assert (h + [pkts[n]])[..|h|] == h;
    assert forall k :: 0 <= k < n ==> pkts[..n + 1][k] == pkts[..n][k];
  }

  /** Nothing is handled from an RST on. */
  lemma {:induction false} HandledUpTo(pkts: seq<Packet>, n: nat)
    requires n <= |pkts| && (n < |pkts| ==> pkts[n].rst)
    ensures Handled(pkts[..n]) == Handled(pkts)
    decreases |pkts|
  {
    if n == |pkts| {
      assert pkts[..n] == pkts;
    } else {
      var init := pkts[..|pkts| - 1];
      assert n < |init| ==> init[n].rst;
      HandledUpTo(init, n);
      assert init[..n] == pkts[..n];
    }
  }

  lemma KeptArrives(maxPlen: nat, initSeq: nat, pkts: seq<Packet>, q: nat)
    requires Kept(maxPlen, initSeq, pkts, q)
    ensures Arrived(maxPlen, Pieces(initSeq, pkts), q)
  {
    PiecesAt(initSeq, pkts);
    var k :| 0 <= k < |pkts| && Brings(maxPlen, initSeq, pkts[k], q) && !Dropped(pkts, k);
    assert Pieces(initSeq, pkts)[k] == Piece(initSeq, pkts[k]);
  }

  lemma GapBelow(maxPlen: nat, some: seq<Fragment>, every: seq<Fragment>, g: nat, h: nat)
    requires FirstGap(maxPlen, some, g) && FirstGap(maxPlen, every, h)
    requires forall q: nat :: Arrived(maxPlen, some, q) ==> Arrived(maxPlen, every, q)
    ensures g <= h
  {
    assert h < g ==> Arrived(maxPlen, some, h);
  }

  /** What the FIN and RST packets cost: less is captured than the packets carried exactly if, below what they
      carried without a gap and within the capacity, there is a byte that only FIN packets and packets from an
      RST on carried. */
  lemma LostExactly(maxPlen: nat, initSeq: nat, stream: seq<Byte>, pkts: seq<Packet>, stored: seq<Byte>, all: seq<Byte>)
    requires Captured(maxPlen, initSeq, stream, Handled(pkts), stored) && Captured(maxPlen, initSeq, stream, pkts, all)
    ensures stored <= all
    ensures stored != all <==> exists q: nat :: q < |all| && !Kept(maxPlen, initSeq, pkts, q)
  {
    var some, every := Pieces(initSeq, Handled(pkts)), Pieces(initSeq, pkts);
    var g: nat :| FirstGap(maxPlen, some, g) && g <= |stream| && stored == stream[..Min(g, Cap(maxPlen))];
    var h: nat :| FirstGap(maxPlen, every, h) && h <= |stream| && all == stream[..Min(h, Cap(maxPlen))];
    forall q: nat
      ensures Arrived(maxPlen, some, q) <==> Kept(maxPlen, initSeq, pkts, q)
      ensures Arrived(maxPlen, some, q) ==> Arrived(maxPlen, every, q)
    {
      HandledBring(maxPlen, initSeq, pkts, q);
      if Kept(maxPlen, initSeq, pkts, q) {
        KeptArrives(maxPlen, initSeq, pkts, q);
      }
    }
    GapBelow(maxPlen, some, every, g, h);
    if stored != all {
      assert g < |all| && !Kept(maxPlen, initSeq, pkts, g);
    }
  }

  /** The data of a FIN packet, the usual last segment, is not captured. */
  lemma FinDataLost(b: Byte)
    ensures var pkts := [Packet(0, [b], true, false)];
            Captured(1, 0, [b], Handled(pkts), []) && Captured(1, 0, [b], pkts, [b])
  {
    var pkts := [Packet(0, [b], true, false)];
    assert Handled(pkts) == [] by {
      assert pkts[..0] == [];
    }
    assert FirstGap(1, Pieces(0, []), 0);
    PiecesAt(0, pkts);
    assert FirstGap(1, Pieces(0, pkts), 1) by {
      assert Within(Pieces(0, pkts)[0], 0);
    }
  }

  /** When the whole of what was asked for is there: never for more than a store can hold. */
  lemma DataOkExactly(maxPlen: nat, initSeq: nat, stream: seq<Byte>, pkts: seq<Packet>, stored: seq<Byte>, g: nat)
    requires Captured(maxPlen, initSeq, stream, pkts, stored) && FirstGap(maxPlen, Pieces(initSeq, pkts), g)
    ensures |stored| == maxPlen <==> maxPlen <= MAX_DSIZE && g >= maxPlen
  {
    var h: nat :| FirstGap(maxPlen, Pieces(initSeq, pkts), h) && h <= |stream| && stored == stream[..Min(h, Cap(maxPlen))];
    OneGap(maxPlen, Pieces(initSeq, pkts), g, h);
  }

  // ------------------------------------------------ in terms of sequence numbers

  /** The payload of the packet begins with byte o of the stream: sequence numbers wrap at 2^32. */
  predicate StartsAt(initSeq: nat, pkt: Packet, o: nat) {
    pkt.sentSeq % 0x1_0000_0000 == (initSeq + o) % 0x1_0000_0000
  }

  /** The i-th byte of the payload is byte q of the stream. */
  predicate ByteIs(initSeq: nat, pkt: Packet, i: nat, q: nat) {
    (pkt.sentSeq + i) % 0x1_0000_0000 == (initSeq + q) % 0x1_0000_0000
  }

  /** The offset is the one 32-bit number that leads from the initial sequence number to the packet's. */
  lemma OffsetIs(initSeq: nat, pkt: Packet, o: nat)
    ensures Offset(initSeq, pkt) < 0x1_0000_0000 && StartsAt(initSeq, pkt, Offset(initSeq, pkt))
    ensures o < 0x1_0000_0000 && StartsAt(initSeq, pkt, o) ==> o == Offset(initSeq, pkt)
  {
    ModOf(pkt.sentSeq, initSeq, Offset(initSeq, pkt));
    if o < 0x1_0000_0000 && StartsAt(initSeq, pkt, o) {
      ModOf(pkt.sentSeq, initSeq, o);
    }
  }

  lemma ModOf(a: nat, b: nat, r: nat)
    requires r < TWO32
    ensures (a - b) % TWO32 == r <==> a % TWO32 == (b + r) % TWO32
  {
    var k := (a - b) / TWO32;
    assert a - b == k * TWO32 + (a - b) % TWO32;
    var x, y := a / TWO32, (b + r) / TWO32;
    assert a == x * TWO32 + a % TWO32 && b + r == y * TWO32 + (b + r) % TWO32;
    if (a - b) % TWO32 == r {
      SameRest(a % TWO32, (b + r) % TWO32, y + k - x);
    }
    if a % TWO32 == (b + r) % TWO32 {
      SameRest((a - b) % TWO32, r, x - y - k);
    }
  }

  lemma SameRest(u: nat, v: nat, n: int)
    requires u < TWO32 && v < TWO32 && u == v + n * TWO32
    ensures u == v
  {
  }

  /** A byte of a packet is a byte of the stream just where the packet starts so far before it. */
  lemma ByteStart(initSeq: nat, pkt: Packet, i: nat, q: nat)
    requires i <= q
    ensures ByteIs(initSeq, pkt, i, q) <==> StartsAt(initSeq, pkt, q - i)
  {
    ShiftMod(pkt.sentSeq, initSeq + (q - i), i);
  }

  lemma ShiftMod(a: nat, b: nat, i: nat)
    ensures (a + i) % TWO32 == (b + i) % TWO32 <==> a % TWO32 == b % TWO32
  {
    var x, y := a / TWO32, b / TWO32;
    assert a == x * TWO32 + a % TWO32 && b == y * TWO32 + b % TWO32;
    var u, v := (a + i) / TWO32, (b + i) / TWO32;
    assert a + i == u * TWO32 + (a + i) % TWO32 && b + i == v * TWO32 + (b + i) % TWO32;
    if (a + i) % TWO32 == (b + i) % TWO32 {
      SameRest(a % TWO32, b % TWO32, u - v - x + y);
    }
    if a % TWO32 == b % TWO32 {
      SameRest((a + i) % TWO32, (b + i) % TWO32, x - y - u + v);
    }
  }

  /** The payload holds byte q of the stream, and does not begin before the stream. */
  predicate CarriesByte(initSeq: nat, pkt: Packet, q: nat) {
    exists i :: 0 <= i < |pkt.payload| && i <= q && ByteIs(initSeq, pkt, i, q)
  }

  lemma BringsIff(maxPlen: nat, initSeq: nat, pkt: Packet, q: nat)
    requires q < maxPlen < TWO32
    ensures Brings(maxPlen, initSeq, pkt, q) <==> CarriesByte(initSeq, pkt, q)
  {
    var o := Offset(initSeq, pkt);
    OffsetIs(initSeq, pkt, 0);
    if Brings(maxPlen, initSeq, pkt, q) {
      ByteStart(initSeq, pkt, q - o, q);
      assert ByteIs(initSeq, pkt, q - o, q);
    }
    if CarriesByte(initSeq, pkt, q) {
      var i :| 0 <= i < |pkt.payload| && i <= q && ByteIs(initSeq, pkt, i, q);
      ByteStart(initSeq, pkt, i, q);
      OffsetIs(initSeq, pkt, q - i);
    }
  }

  /** A payload that begins before the stream is ignored, with what it holds of the stream. */
  lemma EarlyIgnored(maxPlen: nat, initSeq: nat, pkt: Packet, i: nat, q: nat)
    requires maxPlen + MAX_PAYLOAD < TWO32 && q < i <= MAX_PAYLOAD && ByteIs(initSeq, pkt, i, q)
    ensures Offset(initSeq, pkt) >= maxPlen && forall x: nat :: !Brings(maxPlen, initSeq, pkt, x)
  {
    ShiftMod(pkt.sentSeq + (i - q), initSeq, q);
    var o := TWO32 - (i - q);
    ShiftMod(pkt.sentSeq, initSeq + o, i - q);
    WholeTurn(initSeq);
    OffsetIs(initSeq, pkt, o);
  }

  lemma WholeTurn(a: nat)
    ensures (a + TWO32) % TWO32 == a % TWO32
  {
  }

  /** A packet that starts one byte early, as a keep-alive probe does, loses its data. */
  lemma EarlyDataLost(b: Byte)
    ensures var pkt := Packet(999, [b, b], false, false);
            ByteIs(1000, pkt, 1, 0) && Captured(1, 1000, [b], [pkt], [])
  {
    var pkt := Packet(999, [b, b], false, false);
    PiecesAt(1000, [pkt]);
    EarlyIgnored(1, 1000, pkt, 1, 0);
    assert FirstGap(1, Pieces(1000, [pkt]), 0);
  }

  /** The payload is what the stream holds where it begins, if that is below the cap. */
  predicate SentFrom(maxPlen: nat, initSeq: nat, pkt: Packet, stream: seq<Byte>) {
    && |pkt.payload| <= MAX_PAYLOAD
    && forall o :: 0 <= o < maxPlen && StartsAt(initSeq, pkt, o) ==>
         o + |pkt.payload| <= |stream| && pkt.payload == stream[o..o + |pkt.payload|]
  }

  lemma SentCarries(maxPlen: nat, initSeq: nat, pkt: Packet, stream: seq<Byte>)
    requires SentFrom(maxPlen, initSeq, pkt, stream)
    ensures Carries(maxPlen, Piece(initSeq, pkt), stream)
  {
    OffsetIs(initSeq, pkt, 0);
  }

  /** Byte q was carried by a packet that is not dropped, and so was every byte before it. */
  ghost predicate CarriedUpTo(initSeq: nat, pkts: seq<Packet>, q: nat) {
    forall j: nat :: j <= q ==> Carried(initSeq, pkts, j)
  }

  predicate Carried(initSeq: nat, pkts: seq<Packet>, j: nat) {
    exists k :: 0 <= k < |pkts| && !Dropped(pkts, k) && CarriesByte(initSeq, pkts[k], j)
  }

  /** What is stored of the stream: byte q exactly if it is below the two caps and it and all bytes before it
      were carried by packets that are no FIN and come before an RST. */
  ghost predicate StoredExactly(maxPlen: nat, initSeq: nat, stream: seq<Byte>, pkts: seq<Packet>, stored: seq<Byte>) {
    && stored <= stream
    && forall q: nat :: q < |stored| <==> q < maxPlen && q < 512 && CarriedUpTo(initSeq, pkts, q)
  }

  lemma KeptCarried(maxPlen: nat, initSeq: nat, pkts: seq<Packet>, q: nat)
    requires q < maxPlen < TWO32
    ensures Kept(maxPlen, initSeq, pkts, q) <==> Carried(initSeq, pkts, q)
  {
    forall k | 0 <= k < |pkts|
      ensures Brings(maxPlen, initSeq, pkts[k], q) <==> CarriesByte(initSeq, pkts[k], q)
    {
      BringsIff(maxPlen, initSeq, pkts[k], q);
    }
  }

  lemma CapturedExactly(maxPlen: nat, initSeq: nat, stream: seq<Byte>, pkts: seq<Packet>, stored: seq<Byte>)
    requires maxPlen < TWO32 && Captured(maxPlen, initSeq, stream, Handled(pkts), stored)
    ensures StoredExactly(maxPlen, initSeq, stream, pkts, stored)
  {
    var log := Pieces(initSeq, Handled(pkts));
    var g: nat :| FirstGap(maxPlen, log, g) && g <= |stream| && stored == stream[..Min(g, Cap(maxPlen))];
    forall q: nat | q < maxPlen
      ensures Arrived(maxPlen, log, q) <==> Carried(initSeq, pkts, q)
    {
      HandledBring(maxPlen, initSeq, pkts, q);
      KeptCarried(maxPlen, initSeq, pkts, q);
    }
    forall q: nat
      ensures q < |stored| <==> q < maxPlen && q < 512 && CarriedUpTo(initSeq, pkts, q)
    {
      if q < maxPlen && g <= q {
        assert !Carried(initSeq, pkts, g);
      }
    }
  }

  /** A whole session direction, packet after packet, up to an RST.  Unless a store or a
      fragment could not be allocated, the captured bytes are the stream up to the first
      byte that no handled packet carried, cut at the capacity of a store, and data_ok says
      that these are all that were asked for. */
  method Run(maxPlen: nat, initSeq: nat, ghost stream: seq<Byte>, pkts: seq<Packet>, envs: seq<Env>)
      returns (stored: seq<Byte>, failed: bool, dataOk: bool)
    requires maxPlen + MAX_PAYLOAD < TWO32 && |envs| == |pkts|
    requires forall k :: 0 <= k < |pkts| && HasData(pkts[k]) ==> SentFrom(maxPlen, initSeq, pkts[k], stream)
    ensures !failed ==> Captured(maxPlen, initSeq, stream, Handled(pkts), stored)
    ensures !failed ==> StoredExactly(maxPlen, initSeq, stream, pkts, stored)
    ensures failed ==> SomeFailed(envs, |envs|)
    ensures !failed && maxPlen > 0 ==> (dataOk <==> |stored| == maxPlen)
  {
    var dir := new Direction(maxPlen, initSeq, stream);
    var n := 0;
    failed := false;
    while n < |pkts| && !pkts[n].rst
      invariant 0 <= n <= |pkts|
      invariant dir.maxPlen == maxPlen && dir.initSeq == initSeq && dir.stream == stream && fresh(dir) && fresh(dir.asm)
      invariant dir.Through(pkts, n)
      invariant dir.error ==> SomeFailed(envs, n)
    {
      if HasData(pkts[n]) {
        SentCarries(maxPlen, initSeq, pkts[n], stream);
      }
      var closed := dir.Next(pkts, n, envs[n]);
      if closed {
        return [], true, false;
      }
      n := n + 1;
    }
    HandledUpTo(pkts, n);
    stored, failed, dataOk := dir.Stored(), dir.error, dir.dataOk;
    if !failed {
      dir.CapturedNow(Handled(pkts));
      CapturedExactly(maxPlen, initSeq, stream, pkts, stored);
    }
  }
}
