/** The order of packets: the consumer of a ring handles what was put on it, first in first out, and a receive
    task puts its packets on a ring in the order in which it received them.  What was received, put and handled
    is read off the steps of a run. */
module HandOffOrder {
  import opened HandOff
  import HandOffLoss

  /** The step, taken in s, gives ring r this packet. */
  function PutNow(c: Config, s: State, a: Step, r: nat): seq<Mbuf>
    requires Shaped(c, s) && Enabled(c, s, a)
  {
    if a.Enqueue? && Route(s.tasks[a.t].w, s.tasks[a.t].last) == r && |s.rings[r]| < c.size[r]
    then [s.tasks[a.t].m] else []
  }

  /** The step, taken in s, ends the handling of this packet by the consumer of ring r: it is copied or released. */
  function DoneNow(c: Config, s: State, a: Step, r: nat): seq<Mbuf>
    requires Shaped(c, s) && Enabled(c, s, a)
  {
    if (a.Copy? || a.Release?) && a.r == r then [s.consumers[r].m] else []
  }

  /** The step, taken in s, gives the consumer of ring r this packet. */
  function GotNow(c: Config, s: State, a: Step, r: nat): seq<Mbuf>
    requires Shaped(c, s) && Enabled(c, s, a)
  {
    if a.Dequeue? && a.r == r then Held(Apply(c, s, a).consumers[r]) else []
  }

  function Held(k: Consumer): seq<Mbuf> {
    if Holds(k) then [k.m] else []
  }

  /** What the steps of a run tell, one after the other. */
  ghost function Told(now: (State, Step) -> seq<Mbuf>, c: Config, s: State, steps: seq<Step>): seq<Mbuf>
    decreases |steps|
  {
    if steps == [] || !Shaped(c, s) || !Enabled(c, s, steps[0]) then []
    else now(s, steps[0]) + Told(now, c, Apply(c, s, steps[0]), steps[1..])
  }

  function PutOf(c: Config, r: nat): (State, Step) -> seq<Mbuf> {
    (s: State, a: Step) => if Shaped(c, s) && Enabled(c, s, a) then PutNow(c, s, a, r) else []
  }

  function DoneOf(c: Config, r: nat): (State, Step) -> seq<Mbuf> {
    (s: State, a: Step) => if Shaped(c, s) && Enabled(c, s, a) then DoneNow(c, s, a, r) else []
  }

  function GotOf(c: Config, r: nat): (State, Step) -> seq<Mbuf> {
    (s: State, a: Step) => if Shaped(c, s) && Enabled(c, s, a) then GotNow(c, s, a, r) else []
  }

  /** The packets put on ring r, got from it, and handled by its consumer, in the order of the steps. */
  ghost function Puts(c: Config, s: State, steps: seq<Step>, r: nat): seq<Mbuf> {
    Told(PutOf(c, r), c, s, steps)
  }

  ghost function Gets(c: Config, s: State, steps: seq<Step>, r: nat): seq<Mbuf> {
    Told(GotOf(c, r), c, s, steps)
  }

  ghost function Done(c: Config, s: State, steps: seq<Step>, r: nat): seq<Mbuf> {
    Told(DoneOf(c, r), c, s, steps)
  }

  // ------------------------------------------------------------------ one ring

  lemma EnqueueOrder(c: Config, s: State, a: Step, r: nat)
    requires Shaped(c, s) && Enabled(c, s, a) && a.Enqueue? && r < |s.rings|
    ensures Apply(c, s, a).rings[r] == s.rings[r] + PutNow(c, s, a, r) && Apply(c, s, a).consumers == s.consumers
  {
  }

  lemma DequeueOrder(c: Config, s: State, a: Step, r: nat)
    requires Shaped(c, s) && Enabled(c, s, a) && a.Dequeue? && r < |s.rings|
    ensures var s' := Apply(c, s, a);
            && s.rings[r] == GotNow(c, s, a, r) + s'.rings[r]
            && Held(s'.consumers[r]) == Held(s.consumers[r]) + GotNow(c, s, a, r)
  {
    if a.r == r {
      assert s.rings[r] == [s.rings[r][0]] + s.rings[r][1..];
    }
  }

  lemma HandleOrder(c: Config, s: State, a: Step, r: nat)
    requires Shaped(c, s) && Enabled(c, s, a) && (a.Mark? || a.Copy? || a.FinishCopy? || a.Release?) && r < |s.rings|
    ensures var s' := Apply(c, s, a);
            s'.rings == s.rings && Held(s.consumers[r]) == DoneNow(c, s, a, r) + Held(s'.consumers[r])
  {
  }

  lemma TaskOrder(c: Config, s: State, a: Step)
    requires Shaped(c, s) && Enabled(c, s, a)
    requires a.Receive? || a.Reject? || a.Accept? || a.Filter? || a.Choose? || a.Test? || a.Drop?
    ensures Apply(c, s, a).rings == s.rings && Apply(c, s, a).consumers == s.consumers
  {
  }

  /** What a step gets off a ring stood first, and what it puts stands last. */
  lemma StepOrder(c: Config, s: State, a: Step, r: nat)
    requires Shaped(c, s) && Enabled(c, s, a) && r < |s.rings|
    ensures var s' := Apply(c, s, a);
            && r < |s'.rings| && r < |s'.consumers|
            && s.rings[r] + PutNow(c, s, a, r) == GotNow(c, s, a, r) + s'.rings[r]
            && Held(s.consumers[r]) + GotNow(c, s, a, r) == DoneNow(c, s, a, r) + Held(s'.consumers[r])
  {
    if a.Enqueue? {
      EnqueueOrder(c, s, a, r);
    } else if a.Dequeue? {
      DequeueOrder(c, s, a, r);
    } else if a.Mark? || a.Copy? || a.FinishCopy? || a.Release? {
      HandleOrder(c, s, a, r);
    } else {
      TaskOrder(c, s, a);
    }
  }

  /** Two equations side by side, for the lists of one step and of the rest of the run. */
  lemma Glue(x: seq<Mbuf>, p: seq<Mbuf>, g: seq<Mbuf>, y: seq<Mbuf>, ps: seq<Mbuf>, gs: seq<Mbuf>, z: seq<Mbuf>)
    requires x + p == g + y && y + ps == gs + z
    ensures x + (p + ps) == (g + gs) + z
  {
    assert x + (p + ps) == (x + p) + ps == (g + y) + ps == g + (y + ps) == g + (gs + z) == (g + gs) + z;
  }

  lemma {:induction false} RunOrder(c: Config, s: State, steps: seq<Step>, s': State, r: nat)
    requires Inv(c, s) && Runs(c, s, steps, s') && r < |s.rings|
    ensures r < |s'.rings| && r < |s'.consumers|
    ensures s.rings[r] + Puts(c, s, steps, r) == Gets(c, s, steps, r) + s'.rings[r]
    ensures Held(s.consumers[r]) + Gets(c, s, steps, r) == Done(c, s, steps, r) + Held(s'.consumers[r])
    decreases |steps|
  {
    if steps != [] {
      var a, s1 := steps[0], Apply(c, s, steps[0]);
      StepKeepsInv(c, s, a);
      StepOrder(c, s, a, r);
      RunOrder(c, s1, steps[1..], s', r);
      Glue(s.rings[r], PutNow(c, s, a, r), GotNow(c, s, a, r), s1.rings[r],
           Puts(c, s1, steps[1..], r), Gets(c, s1, steps[1..], r), s'.rings[r]);
      Glue(Held(s.consumers[r]), GotNow(c, s, a, r), DoneNow(c, s, a, r), Held(s1.consumers[r]),
           Gets(c, s1, steps[1..], r), Done(c, s1, steps[1..], r), Held(s'.consumers[r]));
    }
  }

  /** First in, first out, over every run: what the consumer of a ring has handled, then the packet it holds, then the
      packets on the ring are exactly the packets that were put there, in that order. */
  lemma FirstInFirstOut(c: Config, s: State, steps: seq<Step>, s': State, r: nat)
    requires Start(c, s) && Runs(c, s, steps, s') && r < |c.size|
    ensures r < |s'.rings| && r < |s'.consumers|
    ensures Gets(c, s, steps, r) + s'.rings[r] == Puts(c, s, steps, r)
    ensures Done(c, s, steps, r) + Held(s'.consumers[r]) == Gets(c, s, steps, r)
    ensures Gets(c, s, steps, r) <= Puts(c, s, steps, r)
  {
    StartInv(c, s);
    RunOrder(c, s, steps, s', r);
    assert [] + Puts(c, s, steps, r) == Puts(c, s, steps, r) && [] + Gets(c, s, steps, r) == Gets(c, s, steps, r);
  }

  // ------------------------------------------------------------ one receive task

  /** a is left of b when some entries are taken away. */
  predicate Within(a: seq<Mbuf>, b: seq<Mbuf>)
    decreases |b|
  {
    a == [] || (b != [] && ((a[0] == b[0] && Within(a[1..], b[1..])) || Within(a, b[1..])))
  }

  lemma {:induction false} WithinSkip(a: seq<Mbuf>, x: seq<Mbuf>, b: seq<Mbuf>)
    requires Within(a, b) && |x| <= 1
    ensures Within(a, x + b)
  {
    if x == [] {
      assert x + b == b;
    } else {
      assert (x + b)[1..] == b;
    }
  }

  lemma {:induction false} WithinBoth(m: Mbuf, a: seq<Mbuf>, b: seq<Mbuf>)
    requires Within(a, b)
    ensures Within([m] + a, [m] + b)
  {
    assert ([m] + a)[1..] == a && ([m] + b)[1..] == b;
  }

  function ReceivedOf(t: nat): (State, Step) -> seq<Mbuf> {
    (s: State, a: Step) => if a.Receive? && a.t == t then [a.m] else []
  }

  function PutByOf(c: Config, t: nat, r: nat): (State, Step) -> seq<Mbuf> {
    (s: State, a: Step) => if Shaped(c, s) && Enabled(c, s, a) && a.Enqueue? && a.t == t then PutNow(c, s, a, r) else []
  }

  /** What task t has received, and what it has put on ring r. */
  ghost function Received(c: Config, s: State, steps: seq<Step>, t: nat): seq<Mbuf> {
    Told(ReceivedOf(t), c, s, steps)
  }

  ghost function PutsBy(c: Config, s: State, steps: seq<Step>, t: nat, r: nat): seq<Mbuf> {
    Told(PutByOf(c, t, r), c, s, steps)
  }

  /** A packet whose put on ring r is still before the task. */
  function Pending(k: Task, r: nat): seq<Mbuf> {
    if k.Idle? then []
    else if k.Parsing? then if k.w.first == r || k.w.second == r then [k.m] else []
    else if k.last then if !k.Dropping? && k.w.second == r then [k.m] else []
    else if (!k.Dropping? && k.w.first == r) || k.w.second == r then [k.m] else []
  }

  /** A task puts a packet on a ring of the interface that is for it, once. */
  lemma RightRing(c: Config, s: State, t: nat)
    requires Shaped(c, s) && t < |s.tasks| && s.tasks[t].Enqueuing?
    ensures var k := s.tasks[t];
            && Route(k.w, k.last) < |c.iface|
            && c.iface[Route(k.w, k.last)] == (if k.last then Sa else if k.w.kind == TcpPacket then Tcp else Udp)
            && (!k.last ==> k.w.kind != OtherPacket && k.w.first != k.w.second)
  {
  }

  /** What a step of any task means for task t. */
  lemma TaskPending(c: Config, s: State, a: Step, t: nat, r: nat)
    requires Shaped(c, s) && Enabled(c, s, a) && t < |s.tasks| && r < |s.rings|
    ensures var s', p, q := Apply(c, s, a), PutByOf(c, t, r)(s, a), ReceivedOf(t)(s, a);
            && t < |s'.tasks|
            && (p == [] ==> Pending(s'.tasks[t], r) == [] || Pending(s'.tasks[t], r) == Pending(s.tasks[t], r) + q)
            && (p != [] ==> |p| == 1 && Pending(s.tasks[t], r) == p && q == [] && Pending(s'.tasks[t], r) == [])
            && |Pending(s.tasks[t], r) + q| <= 1
  {
    if a.Enqueue? {
      RightRing(c, s, a.t);
    }
  }

  /** The lists of one step before those of the rest of the run. */
  lemma {:induction false} WithinStep(p: seq<Mbuf>, q: seq<Mbuf>, k: seq<Mbuf>, k': seq<Mbuf>, ps: seq<Mbuf>, qs: seq<Mbuf>)
    requires Within(ps, k' + qs) && |k + q| <= 1
    requires p == [] ==> k' == [] || k' == k + q
    requires p != [] ==> |p| == 1 && k == p && q == [] && k' == []
    ensures Within(p + ps, k + (q + qs))
  {
    assert k + (q + qs) == (k + q) + qs;
    if p == [] {
      assert p + ps == ps;
      if k' == [] {
        assert k' + qs == qs;
        WithinSkip(ps, k + q, qs);
      }
    } else {
      assert k' + qs == qs && k + q == p == [p[0]];
      WithinBoth(p[0], ps, qs);
    }
  }

  lemma {:induction false} RunTaskOrder(c: Config, s: State, steps: seq<Step>, s': State, t: nat, r: nat)
    requires Inv(c, s) && Runs(c, s, steps, s') && t < |s.tasks| && r < |s.rings|
    ensures Within(PutsBy(c, s, steps, t, r), Pending(s.tasks[t], r) + Received(c, s, steps, t))
    decreases |steps|
  {
    if steps != [] {
      var a, s1 := steps[0], Apply(c, s, steps[0]);
      StepKeepsInv(c, s, a);
      TaskPending(c, s, a, t, r);
      RunTaskOrder(c, s1, steps[1..], s', t, r);
      WithinStep(PutByOf(c, t, r)(s, a), ReceivedOf(t)(s, a), Pending(s.tasks[t], r), Pending(s1.tasks[t], r),
                 PutsBy(c, s1, steps[1..], t, r), Received(c, s1, steps[1..], t));
    }
  }

  /** Over every run: what a receive task has put on a ring is what it received, some left out, in the order
      in which it received it. */
  lemma ReceivedOrder(c: Config, s: State, steps: seq<Step>, s': State, t: nat, r: nat)
    requires Start(c, s) && Runs(c, s, steps, s') && t < |c.traffic| && r < |c.size|
    ensures Within(PutsBy(c, s, steps, t, r), Received(c, s, steps, t))
  {
    StartInv(c, s);
    RunTaskOrder(c, s, steps, s', t, r);
    assert [] + Received(c, s, steps, t) == Received(c, s, steps, t);
  }

  // --------------------------------------------------------------- the counters

  /** The step counts once for ring r: as a packet, as one that was put, or as one that was refused. */
  function CountNow(c: Config, s: State, a: Step, r: nat): Counters
    requires Shaped(c, s) && Enabled(c, s, a)
  {
    var at := (a.Choose? || a.Enqueue? || a.Test?) && Route(s.tasks[a.t].w, s.tasks[a.t].last) == r;
    Counters(if at && a.Choose? then 1 else 0, if at && a.Enqueue? then 1 else 0,
             if at && a.Test? && |s.rings[r]| >= c.size[r] && !c.pcap then 1 else 0)
  }

  function Plus(n: Counters, m: Counters): Counters {
    Counters(n.packets + m.packets, n.ok + m.ok, n.error + m.error)
  }

  function CountOf(c: Config, r: nat): (State, Step) -> Counters {
    (s: State, a: Step) => if Shaped(c, s) && Enabled(c, s, a) then CountNow(c, s, a, r) else Counters(0, 0, 0)
  }

  ghost function Totalled(now: (State, Step) -> Counters, c: Config, s: State, steps: seq<Step>): Counters
    decreases |steps|
  {
    if steps == [] || !Shaped(c, s) || !Enabled(c, s, steps[0]) then Counters(0, 0, 0)
    else Plus(now(s, steps[0]), Totalled(now, c, Apply(c, s, steps[0]), steps[1..]))
  }

  ghost function Counts(c: Config, s: State, steps: seq<Step>, r: nat): Counters {
    Totalled(CountOf(c, r), c, s, steps)
  }

  lemma PlusPlus(n: Counters, m: Counters, k: Counters)
    ensures Plus(Plus(n, m), k) == Plus(n, Plus(m, k))
  {
  }

  lemma StepCounts(c: Config, s: State, a: Step, r: nat)
    requires Shaped(c, s) && Enabled(c, s, a) && r < |s.counters|
    ensures var s' := Apply(c, s, a); r < |s'.counters| && s'.counters[r] == Plus(s.counters[r], CountNow(c, s, a, r))
  {
  }

  lemma {:induction false} RunCounts(c: Config, s: State, steps: seq<Step>, s': State, r: nat)
    requires Inv(c, s) && Runs(c, s, steps, s') && r < |s.counters|
    ensures r < |s'.counters| && s'.counters[r] == Plus(s.counters[r], Counts(c, s, steps, r))
    decreases |steps|
  {
    if steps != [] {
      StepKeepsInv(c, s, steps[0]);
      StepCounts(c, s, steps[0], r);
      var s1 := Apply(c, s, steps[0]);
      RunCounts(c, s1, steps[1..], s', r);
      PlusPlus(s.counters[r], CountNow(c, s, steps[0], r), Counts(c, s1, steps[1..], r));
    }
  }

  /** Over every run the counters of a ring are the numbers of packets that chose it, were enqueued and were refused. */
  lemma CountersCount(c: Config, s: State, steps: seq<Step>, s': State, r: nat)
    requires Start(c, s) && Runs(c, s, steps, s') && r < |c.size|
    ensures r < |s'.counters| && s'.counters[r] == Counts(c, s, steps, r)
  {
    StartInv(c, s);
    RunCounts(c, s, steps, s', r);
  }

  // ------------------------------------------------- who works on a private copy

  /** A consumer works on the shared packet exactly if its ring is not read in copy mode and the packet has one
      segment. */
  predicate CopiesWell(c: Config, s: State)
    requires Shaped(c, s)
  {
    forall r :: 0 <= r < |s.consumers| ==>
      && (s.consumers[r].Holding? ==> !c.copy[r] && s.consumers[r].m !in s.pool.chain)
      && (s.consumers[r].Copying? ==> c.copy[r] || s.consumers[r].m in s.pool.chain)
  }

  /** A packet that stays live stays in one segment or in several. */
  lemma FreeChain(p: Pool, m: Mbuf, x: Mbuf)
    requires Rc(Free(p, m), x) >= 1
    ensures x in Free(p, m).chain <==> x in p.chain
  {
  }

  lemma StepChain(c: Config, s: State, a: Step, x: Mbuf)
    requires Shaped(c, s) && Enabled(c, s, a) && Rc(s.pool, x) >= 1 && Rc(Apply(c, s, a).pool, x) >= 1
    ensures x in Apply(c, s, a).pool.chain <==> x in s.pool.chain
  {
    match a
    case Reject(t) => FreeChain(Touch(s.pool, s.tasks[t].m), s.tasks[t].m, x);
    case Drop(t) => FreeChain(s.pool, s.tasks[t].m, x);
    case Copy(r) => FreeChain(TouchAll(s.pool, s.consumers[r].m), s.consumers[r].m, x);
    case Release(r) =>
      if s.consumers[r].m in s.isFree && !s.isFree[s.consumers[r].m] {
        FreeChain(Touch(s.pool, s.consumers[r].m), s.consumers[r].m, x);
      }
    case _ =>
  }

  /** The other consumers stay as they are, and a consumer gets to its packet by way of the look at it. */
  lemma OthersStay(c: Config, s: State, a: Step, r: nat)
    requires Shaped(c, s) && Enabled(c, s, a) && r < |s.consumers| && Shaped(c, Apply(c, s, a))
    ensures var k := Apply(c, s, a).consumers[r];
            k.Holding? || k.Copying? ==> k == s.consumers[r] || (a == Mark(r) && k == DoMark(c, s, r).consumers[r])
  {
  }

  lemma StepCopies(c: Config, s: State, a: Step)
    requires Inv(c, s) && CopiesWell(c, s) && Enabled(c, s, a)
    ensures Inv(c, Apply(c, s, a)) && CopiesWell(c, Apply(c, s, a))
  {
    var s' := Apply(c, s, a);
    StepKeepsInv(c, s, a);
    forall r: nat | r < |s'.consumers| && (s'.consumers[r].Holding? || s'.consumers[r].Copying?)
      ensures s'.consumers[r].Holding? ==> !c.copy[r] && s'.consumers[r].m !in s'.pool.chain
      ensures s'.consumers[r].Copying? ==> c.copy[r] || s'.consumers[r].m in s'.pool.chain
    {
      OthersStay(c, s, a, r);
      ConsumerOwns(c, s, r);
      ConsumerOwns(c, s', r);
      StepChain(c, s, a, s'.consumers[r].m);
    }
  }

  lemma {:induction false} RunCopies(c: Config, s: State, steps: seq<Step>, s': State)
    requires Inv(c, s) && CopiesWell(c, s) && Runs(c, s, steps, s')
    ensures Inv(c, s') && CopiesWell(c, s')
    decreases |steps|
  {
    if steps != [] {
      StepCopies(c, s, steps[0]);
      RunCopies(c, Apply(c, s, steps[0]), steps[1..], s');
    }
  }

  /** In every reachable state. */
  lemma CopiedExactly(c: Config, s: State, steps: seq<Step>, s': State)
    requires Start(c, s) && Runs(c, s, steps, s')
    ensures Shaped(c, s') && CopiesWell(c, s')
  {
    StartInv(c, s);
    RunCopies(c, s, steps, s');
  }

  // ------------------------------------------------------ every packet that is due

  /** A packet that belongs on ring r: every packet that is not rejected on its SA ring, a TCP packet on its TCP ring,
      and a UDP packet that the interface takes on its UDP ring. */
  predicate Due(w: Packet, r: nat) {
    !w.rejected &&
    (w.second == r ||
     (w.first == r && (w.kind == TcpPacket || (w.kind == UdpPacket && !w.filtered))))
  }

  /** The task has not yet come to ring r with a packet that is due there. */
  function Expected(r: nat): Task -> bool {
    (k: Task) =>
      !k.Idle? && Due(k.w, r) && (k.Parsing? || (k.Putting? && (!k.last || k.w.second == r)) || (!k.last && k.w.second == r))
  }

  function Arrives(a: Step, r: nat): nat {
    if a.Receive? && Due(a.w, r) then 1 else 0
  }

  /** How many packets that are due on ring r were received. */
  function Arrived(steps: seq<Step>, r: nat): nat {
    if steps == [] then 0 else Arrives(steps[0], r) + Arrived(steps[1..], r)
  }

  lemma TaskExpected(c: Config, s: State, a: Step, r: nat)
    requires Shaped(c, s) && Enabled(c, s, a) && r < |s.counters| && Shaped(c, Apply(c, s, a))
    requires a.Receive? || a.Reject? || a.Accept? || a.Filter? || a.Choose? || a.Test? || a.Enqueue? || a.Drop?
    ensures var s', k, k' := Apply(c, s, a), s.tasks[a.t], Apply(c, s, a).tasks[a.t];
            && s'.tasks == s.tasks[a.t := k']
            && s'.counters[r].packets + (if Expected(r)(k') then 1 else 0) ==
               s.counters[r].packets + (if Expected(r)(k) then 1 else 0) + Arrives(a, r)
  {
    assert !s.tasks[a.t].Idle? ==> Possible(c, a.t, s.tasks[a.t].w);
  }

  lemma StepExpected(c: Config, s: State, a: Step, r: nat)
    requires Shaped(c, s) && Enabled(c, s, a) && r < |s.counters| && Shaped(c, Apply(c, s, a))
    ensures var s' := Apply(c, s, a);
            s'.counters[r].packets + HandOffLoss.Count(s'.tasks, Expected(r)) ==
            s.counters[r].packets + HandOffLoss.Count(s.tasks, Expected(r)) + Arrives(a, r)
  {
    var s' := Apply(c, s, a);
    if a.Dequeue? || a.Mark? || a.Copy? || a.FinishCopy? || a.Release? {
      assert s'.tasks == s.tasks && s'.counters == s.counters;
    } else {
      TaskExpected(c, s, a, r);
      HandOffLoss.CountUpdate(s.tasks, a.t, s'.tasks[a.t], Expected(r));
    }
  }

  lemma {:induction false} RunExpected(c: Config, s: State, steps: seq<Step>, s': State, r: nat)
    requires Inv(c, s) && Runs(c, s, steps, s') && r < |s.counters|
    ensures r < |s'.counters| && s'.counters[r].packets + HandOffLoss.Count(s'.tasks, Expected(r)) ==
                                 s.counters[r].packets + HandOffLoss.Count(s.tasks, Expected(r)) + Arrived(steps, r)
    decreases |steps|
  {
    if steps != [] {
      StepKeepsInv(c, s, steps[0]);
      StepExpected(c, s, steps[0], r);
      RunExpected(c, Apply(c, s, steps[0]), steps[1..], s', r);
    }
  }

  /** Over every run: the packets received that are due on a ring are those that were enqueued there, those that were
      refused there, those whose put is under way, and those whose task has not come to it yet. */
  lemma EveryPacketPut(c: Config, s: State, steps: seq<Step>, s': State, r: nat)
    requires Start(c, s) && Runs(c, s, steps, s') && r < |c.size|
    ensures r < |s'.counters|
    ensures Arrived(steps, r) == s'.counters[r].ok + s'.counters[r].error + FlyingAll(s'.tasks, r)
                                 + HandOffLoss.Count(s'.tasks, Expected(r))
    ensures HandOffLoss.Quiet(s') ==> Arrived(steps, r) == s'.counters[r].ok + s'.counters[r].error
  {
    StartInv(c, s);
    RunKeepsInv(c, s, steps, s');
    RunExpected(c, s, steps, s', r);
    HandOffLoss.NoneCounted(s.tasks, Expected(r));
    if HandOffLoss.Quiet(s') {
      HandOffLoss.NoneCounted(s'.tasks, Expected(r));
      NothingOwed(s'.tasks, r);
    }
  }
}
