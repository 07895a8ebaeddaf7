/** The packet hand-off protocol: receive tasks (PDispatcher/ch_packet_rxtask.c) put
    reference-counted packet buffers on bounded rings (MProcess/ch_process_interface.c)
    and consumer tasks (StreamAnalyze/ch_sa_session_task.c and its TCP and UDP
    siblings) take them off and release them.

    The steps of all tasks interleave freely.  Testing a ring, enqueuing, dequeuing, looking
    at a packet and dropping it are steps of their own.  What is one step: a holder's last
    look at a packet with its release, accepting a packet with setting its count, and a
    counter's increment with the step that it counts. */
module HandOff {

  type Mbuf = nat

  datatype Iface = Tcp | Udp | Sa

  datatype Kind = TcpPacket | UdpPacket | OtherPacket

  /** What a packet is, when it is received.  rejected: it cannot be parsed or a filter rule matches it.
      filtered: the UDP interface does not take it.  chained: it comes in several segments.  first and second:
      the rings that its hash chooses on the TCP or UDP interface and on the SA interface. */
  datatype Packet = Packet(kind: Kind, rejected: bool, filtered: bool, chained: bool, first: nat, second: nat)

  /** copy[r]: ring r is read in copy mode.  traffic[t]: the packets that receive task t can get.  The ring
      sizes and interfaces are fixed at start-up. */
  datatype Config = Config(iface: seq<Iface>, size: seq<nat>, copy: seq<bool>, traffic: seq<set<Packet>>, pcap: bool)

  predicate Sane(c: Config) {
    |c.size| == |c.iface| == |c.copy|
  }

  /** TCP and UDP packets are put twice. */
  predicate Twice(w: Packet) {
    w.kind != OtherPacket
  }

  /** The first put goes to a ring: _tcp_filter takes every TCP packet and _sa_filter every packet. */
  predicate Taken(w: Packet) {
    w.kind == TcpPacket || (w.kind == UdpPacket && !w.filtered)
  }

  /** The rings of a packet that is not rejected are rings of its interfaces. */
  predicate Routed(c: Config, w: Packet)
    requires Sane(c)
  {
    !w.rejected ==>
      && w.second < |c.size| && c.iface[w.second] == Sa
      && (Taken(w) ==> w.first < |c.size| && c.iface[w.first] == if w.kind == TcpPacket then Tcp else Udp)
  }

  /** A packet that receive task t can get. */
  predicate Possible(c: Config, t: nat, w: Packet)
    requires Sane(c) && t < |c.traffic|
  {
    w in c.traffic[t] && Routed(c, w)
  }

  /** Where a receive task stands.  `last` marks the put on the SA interface. */
  datatype Task =
    | Idle
    | Parsing(m: Mbuf, w: Packet)
    | Putting(m: Mbuf, w: Packet, last: bool)
    | Testing(m: Mbuf, w: Packet, last: bool)
    | Enqueuing(m: Mbuf, w: Packet, last: bool)
    | Dropping(m: Mbuf, w: Packet, last: bool)

  function Route(w: Packet, last: bool): nat {
    if last then w.second else w.first
  }

  /** Where the consumer of a ring stands. */
  datatype Consumer =
    | Waiting
    | Popped(m: Mbuf)
    | Copying(m: Mbuf)
    | OnCopy
    | Holding(m: Mbuf)

  datatype Counters = Counters(packets: nat, ok: nat, error: nat)

  /** The mempool.  rc holds the reference counts of the buffers that are not in it, each the count of the
      first segment of its packet.  chain: the live packets that have further segments; tails: those of them
      whose further segments are not in the mempool.  `fault` records the use or release of a first segment
      whose count is zero, `tailFault` that of further segments that are in the mempool. */
  datatype Pool = Pool(rc: map<Mbuf, nat>, chain: set<Mbuf>, tails: set<Mbuf>,
                       received: nat, released: nat, fault: bool, tailFault: bool)

  /** `lost` are references that nobody can release any more. */
  datatype State = State(pool: Pool, isFree: map<Mbuf, bool>, rings: seq<seq<Mbuf>>, consumers: seq<Consumer>,
                         tasks: seq<Task>, counters: seq<Counters>, lost: multiset<Mbuf>)

  function Rc(p: Pool, m: Mbuf): nat {
    if m in p.rc then p.rc[m] else 0
  }

  // ------------------------------------------------------------------ actions

  /** A read or write of the packet in its first segment. */
  function Touch(p: Pool, m: Mbuf): Pool {
    p.(fault := p.fault || Rc(p, m) == 0)
  }

  /** A read of all segments. */
  function TouchAll(p: Pool, m: Mbuf): Pool {
    Touch(p, m).(tailFault := p.tailFault || (m in p.chain && m !in p.tails))
  }

  /** One reference less; a count of zero is not kept. */
  function Less(rc: map<Mbuf, nat>, m: Mbuf): map<Mbuf, nat> {
    if m !in rc || rc[m] == 0 then rc else if rc[m] == 1 then rc - {m} else rc[m := rc[m] - 1]
  }

  /** rte_pktmbuf_free on the first segment: drop one reference; the last one returns it to the pool. */
  function FreeHead(p: Pool, m: Mbuf): Pool {
    if Rc(p, m) == 0 then p.(fault := true)
    else if Rc(p, m) == 1 then p.(rc := Less(p.rc, m), chain := p.chain - {m}, released := p.released + 1)
    else p.(rc := Less(p.rc, m))
  }

  /** ... and on the further segments, whose counts are one: each call returns them to the pool. */
  function FreeTail(p: Pool, m: Mbuf): Pool {
    if m !in p.chain then p
    else if m in p.tails then p.(tails := p.tails - {m})
    else p.(tailFault := true)
  }

  function Free(p: Pool, m: Mbuf): Pool {
    FreeHead(FreeTail(p, m), m)
  }

  function Allocate(p: Pool, m: Mbuf, chained: bool): Pool {
    p.(rc := p.rc[m := 1], received := p.received + 1,
       chain := if chained then p.chain + {m} else p.chain - {m},
       tails := if chained then p.tails + {m} else p.tails - {m})
  }

  datatype Step =
    | Receive(t: nat, m: Mbuf, w: Packet)
    | Reject(t: nat)
    | Accept(t: nat)
    | Filter(t: nat)
    | Choose(t: nat)
    | Test(t: nat)
    | Enqueue(t: nat)
    | Drop(t: nat)
    | Dequeue(r: nat)
    | Mark(r: nat)
    | Copy(r: nat)
    | FinishCopy(r: nat)
    | Release(r: nat)

  /** A ring that can be passed: reading from a capture file, a task waits for room in it. */
  predicate Open(c: Config, r: nat)
    requires r < |c.size|
  {
    c.pcap ==> c.size[r] > 0
  }

  /** A task works on a packet that it can get; past the parser it is not a rejected one, and the first put
      is that of a packet that is put twice.  The rings that it has passed are open. */
  predicate TaskShaped(c: Config, t: nat, k: Task)
    requires Sane(c) && t < |c.traffic|
  {
    k.Idle? ||
    ( && Possible(c, t, k.w)
      && (!k.Parsing? ==>
            && !k.w.rejected
            && (!k.last ==> Twice(k.w))
            && (k.last && Taken(k.w) ==> Open(c, k.w.first)))
      && (k.Testing? || k.Enqueuing? ==> k.last || Taken(k.w))
      && (k.Enqueuing? ==> c.size[Route(k.w, k.last)] > 0)
      && (k.Dropping? && c.pcap ==> !k.last && !Taken(k.w)))
  }

  predicate Shaped(c: Config, s: State) {
    && Sane(c)
    && |s.rings| == |s.consumers| == |s.counters| == |c.size|
    && |s.tasks| == |c.traffic|
    && forall t :: 0 <= t < |s.tasks| ==> TaskShaped(c, t, s.tasks[t])
  }

  predicate Enabled(c: Config, s: State, a: Step)
    requires Shaped(c, s)
  {
    match a
    case Receive(t, m, w) => t < |s.tasks| && s.tasks[t].Idle? && Rc(s.pool, m) == 0 && Possible(c, t, w)
    case Reject(t) => t < |s.tasks| && s.tasks[t].Parsing? && s.tasks[t].w.rejected
    case Accept(t) => t < |s.tasks| && s.tasks[t].Parsing? && !s.tasks[t].w.rejected
    case Filter(t) => t < |s.tasks| && s.tasks[t].Putting? && !s.tasks[t].last && !Taken(s.tasks[t].w)
    case Choose(t) => t < |s.tasks| && s.tasks[t].Putting? && (s.tasks[t].last || Taken(s.tasks[t].w))
    case Test(t) => t < |s.tasks| && s.tasks[t].Testing?
    case Enqueue(t) => t < |s.tasks| && s.tasks[t].Enqueuing?
    case Drop(t) => t < |s.tasks| && s.tasks[t].Dropping?
    case Dequeue(r) => r < |s.rings| && s.consumers[r].Waiting? && s.rings[r] != []
    case Mark(r) => r < |s.rings| && s.consumers[r].Popped?
    case Copy(r) => r < |s.rings| && s.consumers[r].Copying?
    case FinishCopy(r) => r < |s.rings| && s.consumers[r].OnCopy?
    case Release(r) => r < |s.rings| && s.consumers[r].Holding?
  }

  /** What follows the put on one interface: the SA put, or nothing. */
  function After(m: Mbuf, w: Packet, last: bool): Task {
    if last then Idle else Putting(m, w, true)
  }

  function DoReceive(s: State, t: nat, m: Mbuf, w: Packet): State
    requires t < |s.tasks|
  {
    s.(pool := Allocate(s.pool, m, w.chained), tasks := s.tasks[t := Parsing(m, w)])
  }

  function DoReject(s: State, t: nat): State
    requires t < |s.tasks| && s.tasks[t].Parsing?
  {
    var m := s.tasks[t].m;
    s.(pool := Free(Touch(s.pool, m), m), tasks := s.tasks[t := Idle])
  }

  /** TCP and UDP packets are put twice and their first segment gets a count of two; others only go to SA. */
  function DoAccept(s: State, t: nat): State
    requires t < |s.tasks| && s.tasks[t].Parsing?
  {
    var k := s.tasks[t];
    var p := Touch(s.pool, k.m);
    s.(pool := if Twice(k.w) then p.(rc := p.rc[k.m := 2]) else p,
       tasks := s.tasks[t := Putting(k.m, k.w, !Twice(k.w))])
  }

  function DoFilter(s: State, t: nat): State
    requires t < |s.tasks| && s.tasks[t].Putting?
  {
    var k := s.tasks[t];
    s.(pool := Touch(s.pool, k.m), tasks := s.tasks[t := Dropping(k.m, k.w, k.last)])
  }

  function DoChoose(s: State, t: nat): State
    requires t < |s.tasks| && s.tasks[t].Putting? && Route(s.tasks[t].w, s.tasks[t].last) < |s.counters|
  {
    var k := s.tasks[t];
    var r := Route(k.w, k.last);
    var n := s.counters[r];
    s.(pool := Touch(s.pool, k.m), tasks := s.tasks[t := Testing(k.m, k.w, k.last)],
       counters := s.counters[r := n.(packets := n.packets + 1)])
  }

  /** The test for a full ring; reading from a capture file, the task spins on it. */
  function DoTest(c: Config, s: State, t: nat): State
    requires Shaped(c, s) && t < |s.tasks| && s.tasks[t].Testing?
  {
    var k := s.tasks[t];
    var r := Route(k.w, k.last);
    var n := s.counters[r];
    if |s.rings[r]| < c.size[r] then s.(tasks := s.tasks[t := Enqueuing(k.m, k.w, k.last)])
    else if c.pcap then s
    else s.(tasks := s.tasks[t := Dropping(k.m, k.w, k.last)], counters := s.counters[r := n.(error := n.error + 1)])
  }

  /** The enqueue, whose result is ignored. */
  function DoEnqueue(c: Config, s: State, t: nat): State
    requires Shaped(c, s) && t < |s.tasks| && s.tasks[t].Enqueuing?
  {
    var k := s.tasks[t];
    var r := Route(k.w, k.last);
    var n, q := s.counters[r], s.rings[r];
    var s1 := s.(tasks := s.tasks[t := After(k.m, k.w, k.last)], counters := s.counters[r := n.(ok := n.ok + 1)]);
    if |q| < c.size[r] then s1.(rings := s.rings[r := q + [k.m]])
    else s1.(lost := s.lost + multiset{k.m})
  }

  function DoDrop(s: State, t: nat): State
    requires t < |s.tasks| && s.tasks[t].Dropping?
  {
    var k := s.tasks[t];
    s.(pool := Free(s.pool, k.m), tasks := s.tasks[t := After(k.m, k.w, k.last)])
  }

  function DoDequeue(s: State, r: nat): State
    requires r < |s.rings| == |s.consumers| && s.rings[r] != []
  {
    s.(rings := s.rings[r := s.rings[r][1..]], consumers := s.consumers[r := Popped(s.rings[r][0])])
  }

  /** After the dequeue: is_free is cleared in the shared packet, then copy mode or a
      packet of several segments leads to a private copy. */
  function DoMark(c: Config, s: State, r: nat): State
    requires r < |s.consumers| == |c.copy| && s.consumers[r].Popped?
  {
    var m := s.consumers[r].m;
    s.(pool := Touch(s.pool, m), isFree := s.isFree[m := false],
       consumers := s.consumers[r := if c.copy[r] || m in s.pool.chain then Copying(m) else Holding(m)])
  }

  function DoCopy(s: State, r: nat): State
    requires r < |s.consumers| && s.consumers[r].Copying?
  {
    var m := s.consumers[r].m;
    s.(pool := Free(TouchAll(s.pool, m), m), consumers := s.consumers[r := OnCopy])
  }

  /** The packet has been handled; it is freed if its is_free is 0. */
  function DoRelease(s: State, r: nat): State
    requires r < |s.consumers| && s.consumers[r].Holding?
  {
    var m := s.consumers[r].m;
    var s1 := s.(pool := Touch(s.pool, m), consumers := s.consumers[r := Waiting]);
    if m in s.isFree && !s.isFree[m] then s1.(pool := Free(s1.pool, m)) else s1.(lost := s.lost + multiset{m})
  }

  function Apply(c: Config, s: State, a: Step): State
    requires Shaped(c, s) && Enabled(c, s, a)
  {
    match a
    case Receive(t, m, w) => DoReceive(s, t, m, w)
    case Reject(t) => DoReject(s, t)
    case Accept(t) => DoAccept(s, t)
    case Filter(t) => DoFilter(s, t)
    case Choose(t) => DoChoose(s, t)
    case Test(t) => DoTest(c, s, t)
    case Enqueue(t) => DoEnqueue(c, s, t)
    case Drop(t) => DoDrop(s, t)
    case Dequeue(r) => DoDequeue(s, r)
    case Mark(r) => DoMark(c, s, r)
    case Copy(r) => DoCopy(s, r)
    case FinishCopy(r) => s.(consumers := s.consumers[r := Waiting])
    case Release(r) => DoRelease(s, r)
  }

  /** At start-up all buffers are in the mempool; isFree is whatever memory holds. */
  predicate Start(c: Config, s: State) {
    && Shaped(c, s)
    && s.pool == Pool(map[], {}, {}, 0, 0, false, false) && s.lost == multiset{}
    && (forall r :: 0 <= r < |s.rings| ==> s.rings[r] == [] && s.consumers[r] == Waiting && s.counters[r] == Counters(0, 0, 0))
    && (forall t :: 0 <= t < |s.tasks| ==> s.tasks[t] == Idle)
  }

  /** s' is the state after the steps, each enabled when it is taken. */
  ghost predicate Runs(c: Config, s: State, steps: seq<Step>, s': State)
    decreases |steps|
  {
    if steps == [] then s == s'
    else Shaped(c, s) && Enabled(c, s, steps[0]) && Runs(c, Apply(c, s, steps[0]), steps[1..], s')
  }

  // --------------------------------------------------------------- accounting

  /** References a receive task still has to place or release. */
  function Owed(k: Task): nat {
    match k
    case Idle => 0
    case Parsing(_, _) => 1
    case Putting(_, _, last) => if last then 1 else 2
    case Testing(_, _, last) => if last then 1 else 2
    case Enqueuing(_, _, last) => if last then 1 else 2
    case Dropping(_, _, last) => if last then 1 else 2
  }

  function Owes(k: Task, m: Mbuf): nat {
    if !k.Idle? && k.m == m then Owed(k) else 0
  }

  predicate Holds(k: Consumer) {
    k.Popped? || k.Copying? || k.Holding?
  }

  function Keeps(k: Consumer, m: Mbuf): nat {
    if Holds(k) && k.m == m then 1 else 0
  }

  /** Counted in `packets` but not yet in `ok` or `error`. */
  function Flies(k: Task, r: nat): nat {
    if (k.Testing? || k.Enqueuing?) && Route(k.w, k.last) == r then 1 else 0
  }

  function OwedAll(ks: seq<Task>, m: Mbuf): nat {
    if ks == [] then 0 else Owes(ks[0], m) + OwedAll(ks[1..], m)
  }

  function HeldAll(ks: seq<Consumer>, m: Mbuf): nat {
    if ks == [] then 0 else Keeps(ks[0], m) + HeldAll(ks[1..], m)
  }

  function QueuedAll(qs: seq<seq<Mbuf>>, m: Mbuf): nat {
    if qs == [] then 0 else multiset(qs[0])[m] + QueuedAll(qs[1..], m)
  }

  function FlyingAll(ks: seq<Task>, r: nat): nat {
    if ks == [] then 0 else Flies(ks[0], r) + FlyingAll(ks[1..], r)
  }

  /** Everyone who still has to release m: ring entries, consumers that hold it,
      puts the receive tasks still owe, and references that were lost. */
  function Refs(s: State, m: Mbuf): nat {
    QueuedAll(s.rings, m) + HeldAll(s.consumers, m) + OwedAll(s.tasks, m) + s.lost[m]
  }

  lemma {:induction false} OwedUpdate(ks: seq<Task>, i: nat, k: Task, m: Mbuf)
    requires i < |ks|
    ensures OwedAll(ks[i := k], m) + Owes(ks[i], m) == OwedAll(ks, m) + Owes(k, m)
  {
    if i == 0 {
      assert ks[0 := k][1..] == ks[1..];
    } else {
      assert ks[i := k][1..] == ks[1..][i - 1 := k];
      OwedUpdate(ks[1..], i - 1, k, m);
    }
  }

  lemma {:induction false} HeldUpdate(ks: seq<Consumer>, i: nat, k: Consumer, m: Mbuf)
    requires i < |ks|
    ensures HeldAll(ks[i := k], m) + Keeps(ks[i], m) == HeldAll(ks, m) + Keeps(k, m)
  {
    if i == 0 {
      assert ks[0 := k][1..] == ks[1..];
    } else {
      assert ks[i := k][1..] == ks[1..][i - 1 := k];
      HeldUpdate(ks[1..], i - 1, k, m);
    }
  }

  lemma {:induction false} QueuedUpdate(qs: seq<seq<Mbuf>>, i: nat, q: seq<Mbuf>, m: Mbuf)
    requires i < |qs|
    ensures QueuedAll(qs[i := q], m) + multiset(qs[i])[m] == QueuedAll(qs, m) + multiset(q)[m]
  {
    if i == 0 {
      assert qs[0 := q][1..] == qs[1..];
    } else {
      assert qs[i := q][1..] == qs[1..][i - 1 := q];
      QueuedUpdate(qs[1..], i - 1, q, m);
    }
  }

  lemma {:induction false} FlyingUpdate(ks: seq<Task>, i: nat, k: Task, r: nat)
    requires i < |ks|
    ensures FlyingAll(ks[i := k], r) + Flies(ks[i], r) == FlyingAll(ks, r) + Flies(k, r)
  {
    if i == 0 {
      assert ks[0 := k][1..] == ks[1..];
    } else {
      assert ks[i := k][1..] == ks[1..][i - 1 := k];
      FlyingUpdate(ks[1..], i - 1, k, r);
    }
  }

  lemma {:induction false} NothingOwed(ks: seq<Task>, m: Mbuf)
    requires forall i :: 0 <= i < |ks| ==> ks[i].Idle?
    ensures OwedAll(ks, m) == 0 && FlyingAll(ks, m) == 0
  {
    if ks != [] {
      NothingOwed(ks[1..], m);
    }
  }

  lemma {:induction false} NothingHeld(ks: seq<Consumer>, m: Mbuf)
    requires forall i :: 0 <= i < |ks| ==> ks[i].Waiting?
    ensures HeldAll(ks, m) == 0
  {
    if ks != [] {
      NothingHeld(ks[1..], m);
    }
  }

  lemma {:induction false} NothingQueued(qs: seq<seq<Mbuf>>, m: Mbuf)
    requires forall i :: 0 <= i < |qs| ==> qs[i] == []
    ensures QueuedAll(qs, m) == 0
  {
    if qs != [] {
      NothingQueued(qs[1..], m);
    }
  }

  /** Every buffer that was received is live or was released, and no dead one was used. */
  predicate Sound(p: Pool) {
    && !p.fault
    && (forall m :: m in p.rc ==> p.rc[m] > 0)
    && p.received == p.released + |p.rc|
    && p.tails <= p.chain <= p.rc.Keys
  }

  ghost predicate Referenced(s: State) {
    forall m: Mbuf :: Rc(s.pool, m) == Refs(s, m)
  }

  ghost predicate Counted(s: State) {
    forall r: nat :: r < |s.counters| ==>
      s.counters[r].packets == s.counters[r].ok + s.counters[r].error + FlyingAll(s.tasks, r)
  }

  /** A packet that is still being parsed is referenced once. */
  predicate ParsedAlone(s: State) {
    forall t :: 0 <= t < |s.tasks| && s.tasks[t].Parsing? ==> Rc(s.pool, s.tasks[t].m) == 1
  }

  /** A consumer holds only packets marked as its own to free. */
  predicate HoldsOwn(s: State) {
    forall r :: 0 <= r < |s.consumers| && s.consumers[r].Holding? ==>
      s.consumers[r].m in s.isFree && !s.isFree[s.consumers[r].m]
  }

  /** The count of a buffer equals the references to it. */
  ghost predicate Inv(c: Config, s: State) {
    Shaped(c, s) && Sound(s.pool) && Referenced(s) && Counted(s) && ParsedAlone(s) && HoldsOwn(s)
  }

  /** The buffer a task works on is live, and no other task is still parsing it. */
  lemma TaskOwns(c: Config, s: State, t: nat)
    requires Inv(c, s) && t < |s.tasks| && !s.tasks[t].Idle?
    ensures Rc(s.pool, s.tasks[t].m) >= Owed(s.tasks[t]) >= 1
    ensures forall u :: 0 <= u < |s.tasks| && u != t && s.tasks[u].Parsing? ==> s.tasks[u].m != s.tasks[t].m
  {
    var m := s.tasks[t].m;
    OwedUpdate(s.tasks, t, Idle, m);
    assert Rc(s.pool, m) == Refs(s, m);
    forall u: nat | u < |s.tasks| && u != t && s.tasks[u].Parsing?
      ensures s.tasks[u].m != m
    {
      OwedUpdate(s.tasks[t := Idle], u, Idle, m);
    }
  }

  /** The buffer a consumer holds is live, and no task is still parsing it. */
  lemma ConsumerOwns(c: Config, s: State, r: nat)
    requires Inv(c, s) && r < |s.consumers| && Holds(s.consumers[r])
    ensures Rc(s.pool, s.consumers[r].m) >= 1
    ensures forall u :: 0 <= u < |s.tasks| && s.tasks[u].Parsing? ==> s.tasks[u].m != s.consumers[r].m
  {
    var m := s.consumers[r].m;
    HeldUpdate(s.consumers, r, Waiting, m);
    assert Rc(s.pool, m) == Refs(s, m);
    forall u: nat | u < |s.tasks| && s.tasks[u].Parsing?
      ensures s.tasks[u].m != m
    {
      OwedUpdate(s.tasks, u, Idle, m);
    }
  }

  // ------------------------------------------------- every step keeps the invariant

  lemma LessSize(rc: map<Mbuf, nat>, m: Mbuf)
    requires (forall x :: x in rc ==> rc[x] > 0) && m in rc
    ensures |Less(rc, m)| == |rc| - if rc[m] == 1 then 1 else 0
    ensures Less(rc, m).Keys == if rc[m] == 1 then rc.Keys - {m} else rc.Keys
    ensures forall x :: x in Less(rc, m) ==> Less(rc, m)[x] > 0
  {
    assert Less(rc, m).Keys == if rc[m] == 1 then rc.Keys - {m} else rc.Keys;
    assert |Less(rc, m).Keys| == |Less(rc, m)| && |rc.Keys| == |rc|;
  }

  lemma FreeHeadOne(p: Pool, m: Mbuf)
    requires Sound(p) && Rc(p, m) >= 1 && m !in p.tails
    ensures Sound(FreeHead(p, m))
    ensures forall x: Mbuf :: Rc(FreeHead(p, m), x) == Rc(p, x) - if x == m then 1 else 0
  {
    LessSize(p.rc, m);
  }

  lemma FreeTailOne(p: Pool, m: Mbuf)
    requires Sound(p)
    ensures Sound(FreeTail(p, m)) && FreeTail(p, m).rc == p.rc && m !in FreeTail(p, m).tails
  {
  }

  /** A release of a live buffer takes one reference away. */
  lemma FreeOne(p: Pool, m: Mbuf)
    requires Sound(p) && Rc(p, m) >= 1
    ensures Sound(Free(p, m))
    ensures forall x: Mbuf :: Rc(Free(p, m), x) == Rc(p, x) - if x == m then 1 else 0
  {
    FreeTailOne(p, m);
    FreeHeadOne(FreeTail(p, m), m);
  }

  lemma AllocateOne(p: Pool, m: Mbuf, chained: bool)
    requires Sound(p) && Rc(p, m) == 0
    ensures Sound(Allocate(p, m, chained))
    ensures forall x: Mbuf :: Rc(Allocate(p, m, chained), x) == Rc(p, x) + if x == m then 1 else 0
  {
    var rc := p.rc[m := 1];
    assert rc.Keys == p.rc.Keys + {m};
    assert |rc.Keys| == |rc| && |p.rc.Keys| == |p.rc|;
  }

  lemma SetTwo(p: Pool, m: Mbuf)
    requires Sound(p) && m in p.rc
    ensures Sound(p.(rc := p.rc[m := 2]))
  {
    var rc := p.rc[m := 2];
    assert rc.Keys == p.rc.Keys;
    assert |rc.Keys| == |rc| && |p.rc.Keys| == |p.rc|;
  }

  lemma CountedStep(s: State, s': State, t: nat)
    requires Counted(s) && |s'.counters| == |s.counters|
    requires t < |s.tasks| == |s'.tasks| && s'.tasks == s.tasks[t := s'.tasks[t]]
    requires forall r: nat :: r < |s.counters| ==>
               s'.counters[r].packets + s.counters[r].ok + s.counters[r].error + Flies(s.tasks[t], r) ==
               s.counters[r].packets + s'.counters[r].ok + s'.counters[r].error + Flies(s'.tasks[t], r)
    ensures Counted(s')
  {
    forall r: nat | r < |s.counters|
      ensures s'.counters[r].packets == s'.counters[r].ok + s'.counters[r].error + FlyingAll(s'.tasks, r)
    {
      FlyingUpdate(s.tasks, t, s'.tasks[t], r);
    }
  }

  lemma ReferencedStep(s: State, s': State, t: nat)
    requires Referenced(s) && s'.consumers == s.consumers && s'.rings == s.rings && s'.lost == s.lost
    requires t < |s.tasks| == |s'.tasks| && s'.tasks == s.tasks[t := s'.tasks[t]]
    requires forall m: Mbuf :: Rc(s'.pool, m) + Owes(s.tasks[t], m) == Rc(s.pool, m) + Owes(s'.tasks[t], m)
    ensures Referenced(s')
  {
    forall m: Mbuf
      ensures Rc(s'.pool, m) == Refs(s', m)
    {
      assert Rc(s.pool, m) == Refs(s, m);
      OwedUpdate(s.tasks, t, s'.tasks[t], m);
    }
  }

  lemma ShapedStep(c: Config, s: State, s': State, t: nat)
    requires Shaped(c, s) && |s'.counters| == |s.counters| && s'.consumers == s.consumers && |s'.rings| == |s.rings|
    requires t < |s.tasks| == |s'.tasks| && s'.tasks == s.tasks[t := s'.tasks[t]] && TaskShaped(c, t, s'.tasks[t])
    ensures Shaped(c, s')
  {
  }

  /** A step of task t: the counts change as much as what the task owes, and the counters as much as what is
      in flight. */
  lemma TaskStep(c: Config, s: State, s': State, t: nat)
    requires Inv(c, s) && Sound(s'.pool)
    requires t < |s.tasks| == |s'.tasks| && s'.tasks == s.tasks[t := s'.tasks[t]] && TaskShaped(c, t, s'.tasks[t])
    requires |s'.counters| == |s.counters| && s'.consumers == s.consumers && s'.rings == s.rings
    requires s'.isFree == s.isFree && s'.lost == s.lost
    requires s'.tasks[t].Parsing? ==> s.tasks[t].Idle?
    requires s.tasks[t].Idle? ==> s'.tasks[t].Parsing? && Rc(s.pool, s'.tasks[t].m) == 0
    requires s.tasks[t].Idle? || s'.tasks[t].Idle? || s.tasks[t].m == s'.tasks[t].m
    requires forall m: Mbuf :: Rc(s'.pool, m) + Owes(s.tasks[t], m) == Rc(s.pool, m) + Owes(s'.tasks[t], m)
    requires forall r: nat :: r < |s.counters| ==>
               s'.counters[r].packets + s.counters[r].ok + s.counters[r].error + Flies(s.tasks[t], r) ==
               s.counters[r].packets + s'.counters[r].ok + s'.counters[r].error + Flies(s'.tasks[t], r)
    ensures Inv(c, s')
  {
    ShapedStep(c, s, s', t);
    ReferencedStep(s, s', t);
    CountedStep(s, s', t);
    if !s.tasks[t].Idle? {
      TaskOwns(c, s, t);
    }
  }

  /** A step of a consumer that leaves rings and tasks alone. */
  lemma ConsumerStep(c: Config, s: State, s': State, r: nat)
    requires Inv(c, s) && Sound(s'.pool)
    requires r < |s.consumers| == |s'.consumers| && s'.consumers == s.consumers[r := s'.consumers[r]]
    requires s'.tasks == s.tasks && s'.rings == s.rings && s'.lost == s.lost && s'.counters == s.counters
    requires forall m: Mbuf :: Rc(s'.pool, m) + Keeps(s.consumers[r], m) == Rc(s.pool, m) + Keeps(s'.consumers[r], m)
    requires forall m :: m in s.isFree && !s.isFree[m] ==> m in s'.isFree && !s'.isFree[m]
    requires s'.consumers[r].Holding? ==> s'.consumers[r].m in s'.isFree && !s'.isFree[s'.consumers[r].m]
    requires Holds(s'.consumers[r]) ==> Holds(s.consumers[r]) && s.consumers[r].m == s'.consumers[r].m
    ensures Inv(c, s')
  {
    forall m: Mbuf
      ensures Rc(s'.pool, m) == Refs(s', m)
    {
      assert Rc(s.pool, m) == Refs(s, m);
      HeldUpdate(s.consumers, r, s'.consumers[r], m);
    }
    if Holds(s.consumers[r]) {
      ConsumerOwns(c, s, r);
    }
  }

  lemma KeepsReceive(c: Config, s: State, t: nat, m: Mbuf, w: Packet)
    requires Inv(c, s) && Enabled(c, s, Receive(t, m, w))
    ensures Inv(c, DoReceive(s, t, m, w))
  {
    AllocateOne(s.pool, m, w.chained);
    TaskStep(c, s, DoReceive(s, t, m, w), t);
  }

  lemma KeepsReject(c: Config, s: State, t: nat)
    requires Inv(c, s) && Enabled(c, s, Reject(t))
    ensures Inv(c, DoReject(s, t))
  {
    TaskOwns(c, s, t);
    FreeOne(s.pool, s.tasks[t].m);
    TaskStep(c, s, DoReject(s, t), t);
  }

  lemma KeepsAccept(c: Config, s: State, t: nat)
    requires Inv(c, s) && Enabled(c, s, Accept(t))
    ensures Inv(c, DoAccept(s, t))
  {
    TaskOwns(c, s, t);
    SetTwo(s.pool, s.tasks[t].m);
    TaskStep(c, s, DoAccept(s, t), t);
  }

  lemma KeepsFilter(c: Config, s: State, t: nat)
    requires Inv(c, s) && Enabled(c, s, Filter(t))
    ensures Inv(c, DoFilter(s, t))
  {
    TaskOwns(c, s, t);
    TaskStep(c, s, DoFilter(s, t), t);
  }

  lemma KeepsChoose(c: Config, s: State, t: nat)
    requires Inv(c, s) && Enabled(c, s, Choose(t))
    ensures Inv(c, DoChoose(s, t))
  {
    TaskOwns(c, s, t);
    TaskStep(c, s, DoChoose(s, t), t);
  }

  lemma KeepsTest(c: Config, s: State, t: nat)
    requires Inv(c, s) && Enabled(c, s, Test(t))
    ensures Inv(c, DoTest(c, s, t))
  {
    var s' := DoTest(c, s, t);
    assert s'.tasks == s.tasks[t := s'.tasks[t]];
    TaskStep(c, s, s', t);
  }

  lemma EnqueueRefs(c: Config, s: State, t: nat, m: Mbuf)
    requires Shaped(c, s) && Referenced(s) && Enabled(c, s, Enqueue(t))
    ensures var s' := DoEnqueue(c, s, t); Rc(s'.pool, m) == Refs(s', m)
  {
    var k := s.tasks[t];
    assert Rc(s.pool, m) == Refs(s, m);
    var r := Route(k.w, k.last);
    OwedUpdate(s.tasks, t, After(k.m, k.w, k.last), m);
    QueuedUpdate(s.rings, r, s.rings[r] + [k.m], m);
  }

  lemma KeepsEnqueue(c: Config, s: State, t: nat)
    requires Inv(c, s) && Enabled(c, s, Enqueue(t))
    ensures Inv(c, DoEnqueue(c, s, t))
  {
    var s' := DoEnqueue(c, s, t);
    forall m: Mbuf
      ensures Rc(s'.pool, m) == Refs(s', m)
    {
      EnqueueRefs(c, s, t, m);
    }
    ShapedStep(c, s, s', t);
    CountedStep(s, s', t);
  }

  lemma KeepsDrop(c: Config, s: State, t: nat)
    requires Inv(c, s) && Enabled(c, s, Drop(t))
    ensures Inv(c, DoDrop(s, t))
  {
    TaskOwns(c, s, t);
    FreeOne(s.pool, s.tasks[t].m);
    TaskStep(c, s, DoDrop(s, t), t);
  }

  lemma KeepsDequeue(c: Config, s: State, r: nat)
    requires Inv(c, s) && Enabled(c, s, Dequeue(r))
    ensures Inv(c, DoDequeue(s, r))
  {
    var s', q := DoDequeue(s, r), s.rings[r];
    assert q == [q[0]] + q[1..];
    forall m: Mbuf
      ensures Rc(s'.pool, m) == Refs(s', m)
    {
      assert Rc(s.pool, m) == Refs(s, m);
      HeldUpdate(s.consumers, r, Popped(q[0]), m);
      QueuedUpdate(s.rings, r, q[1..], m);
    }
  }

  lemma KeepsMark(c: Config, s: State, r: nat)
    requires Inv(c, s) && Enabled(c, s, Mark(r))
    ensures Inv(c, DoMark(c, s, r))
  {
    ConsumerOwns(c, s, r);
    ConsumerStep(c, s, DoMark(c, s, r), r);
  }

  lemma KeepsCopy(c: Config, s: State, r: nat)
    requires Inv(c, s) && Enabled(c, s, Copy(r))
    ensures Inv(c, DoCopy(s, r))
  {
    var m := s.consumers[r].m;
    ConsumerOwns(c, s, r);
    FreeOne(TouchAll(s.pool, m), m);
    ConsumerStep(c, s, DoCopy(s, r), r);
  }

  lemma KeepsRelease(c: Config, s: State, r: nat)
    requires Inv(c, s) && Enabled(c, s, Release(r))
    ensures Inv(c, DoRelease(s, r))
  {
    ConsumerOwns(c, s, r);
    FreeOne(s.pool, s.consumers[r].m);
    ConsumerStep(c, s, DoRelease(s, r), r);
  }

  /** Every step of every task, in any order, keeps the invariant. */
  lemma StepKeepsInv(c: Config, s: State, a: Step)
    requires Inv(c, s) && Enabled(c, s, a)
    ensures Inv(c, Apply(c, s, a))
  {
    match a
    case Receive(t, m, w) => KeepsReceive(c, s, t, m, w);
    case Reject(t) => KeepsReject(c, s, t);
    case Accept(t) => KeepsAccept(c, s, t);
    case Filter(t) => KeepsFilter(c, s, t);
    case Choose(t) => KeepsChoose(c, s, t);
    case Test(t) => KeepsTest(c, s, t);
    case Enqueue(t) => KeepsEnqueue(c, s, t);
    case Drop(t) => KeepsDrop(c, s, t);
    case Dequeue(r) => KeepsDequeue(c, s, r);
    case Mark(r) => KeepsMark(c, s, r);
    case Copy(r) => KeepsCopy(c, s, r);
    case FinishCopy(r) => ConsumerStep(c, s, Apply(c, s, a), r);
    case Release(r) => KeepsRelease(c, s, r);
  }

  lemma StartInv(c: Config, s: State)
    requires Start(c, s)
    ensures Inv(c, s)
  {
    forall m: Mbuf
      ensures Rc(s.pool, m) == Refs(s, m) && FlyingAll(s.tasks, m) == 0
    {
      NothingOwed(s.tasks, m);
      NothingHeld(s.consumers, m);
      NothingQueued(s.rings, m);
    }
  }

  // ------------------------------------------------------------ whole runs

  lemma {:induction false} RunKeepsInv(c: Config, s: State, steps: seq<Step>, s': State)
    requires Inv(c, s) && Runs(c, s, steps, s')
    ensures Inv(c, s')
    decreases |steps|
  {
    if steps != [] {
      StepKeepsInv(c, s, steps[0]);
      RunKeepsInv(c, Apply(c, s, steps[0]), steps[1..], s');
    }
  }

  /** Safety, for any number of receive tasks: the first segment of a packet is not used or released after
      its last release, and its count is what its holders owe. */
  lemma NeverUsedAfterRelease(c: Config, s: State, steps: seq<Step>, s': State)
    requires Start(c, s) && Runs(c, s, steps, s')
    ensures !s'.pool.fault
    ensures forall m: Mbuf :: Rc(s'.pool, m) == Refs(s', m)
    ensures s'.pool.received == s'.pool.released + |s'.pool.rc|
  {
    StartInv(c, s);
    RunKeepsInv(c, s, steps, s');
  }
}
