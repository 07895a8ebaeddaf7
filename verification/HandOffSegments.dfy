/** Packets of several segments.  Only the first segment of a packet gets the count of two
    (packet/ch_packet.h), so the further segments of a packet that is delivered twice go back to
    the mempool with the first delivery. */
module HandOffSegments {
  import opened HandOff
  import opened HandOffRuns

  /** Both puts of the packet get through: the rings can be passed. */
  predicate Passes(c: Config, w: Packet)
    requires Sane(c) && Routed(c, w)
  {
    !w.rejected && Open(c, w.second) && (Taken(w) ==> Open(c, w.first))
  }

  /** Some task can get a chained packet that is put twice, and both puts get through. */
  predicate TwiceChained(c: Config)
    requires Sane(c)
  {
    exists t, w :: 0 <= t < |c.traffic| && w in c.traffic[t] && Possible(c, t, w) && w.chained && Twice(w) && Passes(c, w)
  }

  predicate Alone(p: Pool, m: Mbuf) {
    Rc(p, m) == 1 && m in p.tails
  }

  /** Task t still owes the SA put of chained packet m, and at most one delivery has been made. */
  predicate Pending(s: State, t: nat, m: Mbuf)
    requires t < |s.tasks|
  {
    var k := s.tasks[t];
    && !k.Idle? && !k.Parsing? && k.m == m && k.w.chained && Twice(k.w)
    && ((Rc(s.pool, m) == 2 && m in s.pool.tails) || (k.last && Rc(s.pool, m) == 1 && m !in s.pool.tails))
  }

  predicate Safe(s: State, m: Mbuf) {
    Alone(s.pool, m) || exists t :: 0 <= t < |s.tasks| && Pending(s, t, m)
  }

  /** A chained packet is the task's own chained packet. */
  predicate Linked(s: State) {
    forall t :: 0 <= t < |s.tasks| && !s.tasks[t].Idle? && s.tasks[t].m in s.pool.chain ==> s.tasks[t].w.chained
  }

  predicate ChainsSafe(s: State) {
    !s.pool.tailFault && Linked(s) && forall m :: m in s.pool.chain ==> Safe(s, m)
  }

  /** If no chained packet gets through twice, a task stays where it owes the SA put of one. */
  lemma Dammed(c: Config, s: State, t: nat)
    requires Shaped(c, s) && !TwiceChained(c) && t < |s.tasks| && !s.tasks[t].Idle? && !s.tasks[t].Parsing?
    requires s.tasks[t].w.chained && Twice(s.tasks[t].w) && s.tasks[t].last
    ensures s.tasks[t].Putting? || s.tasks[t].Testing?
  {
    var w := s.tasks[t].w;
    assert Possible(c, t, w) && !Passes(c, w);
    assert !Open(c, w.second);
  }

  lemma TwoTasks(c: Config, s: State, t: nat, u: nat)
    requires Inv(c, s) && t < |s.tasks| && u < |s.tasks| && t != u
    requires !s.tasks[t].Idle? && !s.tasks[u].Idle? && s.tasks[t].m == s.tasks[u].m
    ensures Rc(s.pool, s.tasks[t].m) >= Owed(s.tasks[t]) + Owed(s.tasks[u])
  {
    var m := s.tasks[t].m;
    assert Rc(s.pool, m) == Refs(s, m);
    OwedUpdate(s.tasks, t, Idle, m);
    OwedUpdate(s.tasks[t := Idle], u, Idle, m);
  }

  lemma TaskAndConsumer(c: Config, s: State, t: nat, r: nat)
    requires Inv(c, s) && t < |s.tasks| && r < |s.consumers| && Holds(s.consumers[r])
    requires !s.tasks[t].Idle? && s.tasks[t].m == s.consumers[r].m
    ensures Rc(s.pool, s.tasks[t].m) >= Owed(s.tasks[t]) + 1
  {
    var m := s.tasks[t].m;
    assert Rc(s.pool, m) == Refs(s, m);
    OwedUpdate(s.tasks, t, Idle, m);
    HeldUpdate(s.consumers, r, Waiting, m);
  }

  /** The pool is left alone where other packets than m0 are concerned. */
  ghost predicate OnlyAt(p: Pool, m0: Mbuf, p': Pool) {
    forall m :: m != m0 ==> Rc(p', m) == Rc(p, m) && (m in p'.chain <==> m in p.chain) && (m in p'.tails <==> m in p.tails)
  }

  lemma FreeOnlyAt(p: Pool, m: Mbuf)
    ensures OnlyAt(p, m, Free(p, m)) && OnlyAt(p, m, Free(Touch(p, m), m)) && OnlyAt(p, m, Free(TouchAll(p, m), m))
  {
  }

  lemma FreeSafe(p: Pool, m: Mbuf)
    requires Rc(p, m) >= 1 && !p.tailFault && p.tails <= p.chain && (m in p.chain ==> m in p.tails)
    ensures var f := Free(p, m);
            && !f.tailFault && Free(Touch(p, m), m) == f && Free(TouchAll(p, m), m) == f
            && (m in f.chain ==> m in p.chain && Rc(p, m) >= 2 && m !in f.tails)
            && Rc(f, m) == Rc(p, m) - 1
  {
  }

  /** The chained packets that a step of task t does not work on. */
  lemma TaskFrame(s: State, s': State, t: nat, m0: Mbuf)
    requires ChainsSafe(s) && t < |s.tasks| == |s'.tasks| && s'.tasks == s.tasks[t := s'.tasks[t]]
    requires OnlyAt(s.pool, m0, s'.pool) && (!s.tasks[t].Idle? ==> s.tasks[t].m == m0)
    ensures forall m :: m in s'.pool.chain && m != m0 ==> Safe(s', m)
  {
    forall m | m in s'.pool.chain && m != m0
      ensures Safe(s', m)
    {
      assert Safe(s, m);
      if !Alone(s.pool, m) {
        var u :| 0 <= u < |s.tasks| && Pending(s, u, m);
        assert Pending(s', u, m);
      }
    }
  }

  /** A task step that leaves the pool as it is. */
  lemma TaskMoves(c: Config, s: State, s': State, t: nat)
    requires Inv(c, s) && ChainsSafe(s) && s'.pool == s.pool
    requires t < |s.tasks| == |s'.tasks| && s'.tasks == s.tasks[t := s'.tasks[t]]
    requires !s.tasks[t].Idle? && !s.tasks[t].Parsing? && !s'.tasks[t].Parsing?
    requires !s'.tasks[t].Idle? ==> s'.tasks[t].m == s.tasks[t].m && s'.tasks[t].w == s.tasks[t].w &&
                                    (s.tasks[t].last ==> s'.tasks[t].last)
    requires s'.tasks[t].Idle? ==> !(s.tasks[t].w.chained && Twice(s.tasks[t].w))
    ensures ChainsSafe(s')
  {
    var m := s.tasks[t].m;
    TaskFrame(s, s', t, m);
    if m in s.pool.chain && !Alone(s.pool, m) {
      var u :| 0 <= u < |s.tasks| && Pending(s, u, m);
      assert Pending(s', u, m);
    }
  }

  lemma ReceiveSafe(c: Config, s: State, t: nat, m: Mbuf, w: Packet)
    requires Inv(c, s) && ChainsSafe(s) && Enabled(c, s, Receive(t, m, w))
    ensures ChainsSafe(DoReceive(s, t, m, w))
  {
    var s' := DoReceive(s, t, m, w);
    TaskFrame(s, s', t, m);
    forall u: nat | u < |s.tasks| && u != t && !s.tasks[u].Idle?
      ensures s.tasks[u].m != m
    {
      TaskOwns(c, s, u);
    }
  }

  /** A packet in the parser is its task's alone. */
  lemma ParserAlone(c: Config, s: State, t: nat)
    requires Inv(c, s) && ChainsSafe(s) && t < |s.tasks| && s.tasks[t].Parsing? && s.tasks[t].m in s.pool.chain
    ensures Alone(s.pool, s.tasks[t].m)
  {
    if !Alone(s.pool, s.tasks[t].m) {
      var u :| 0 <= u < |s.tasks| && Pending(s, u, s.tasks[t].m);
      TaskOwns(c, s, u);
    }
  }

  lemma RejectSafe(c: Config, s: State, t: nat)
    requires Inv(c, s) && ChainsSafe(s) && Enabled(c, s, Reject(t))
    ensures ChainsSafe(DoReject(s, t))
  {
    var s', m := DoReject(s, t), s.tasks[t].m;
    TaskOwns(c, s, t);
    if m in s.pool.chain {
      ParserAlone(c, s, t);
    }
    FreeSafe(s.pool, m);
    FreeOnlyAt(s.pool, m);
    TaskFrame(s, s', t, m);
  }

  lemma AcceptSafe(c: Config, s: State, t: nat)
    requires Inv(c, s) && ChainsSafe(s) && Enabled(c, s, Accept(t))
    ensures ChainsSafe(DoAccept(s, t))
  {
    var s', m := DoAccept(s, t), s.tasks[t].m;
    TaskOwns(c, s, t);
    TaskFrame(s, s', t, m);
    if m in s.pool.chain {
      ParserAlone(c, s, t);
      assert Twice(s.tasks[t].w) ==> Pending(s', t, m);
    }
  }

  lemma DropSafe(c: Config, s: State, t: nat)
    requires Inv(c, s) && ChainsSafe(s) && Enabled(c, s, Drop(t)) && !TwiceChained(c)
    ensures ChainsSafe(DoDrop(s, t))
  {
    var s', m := DoDrop(s, t), s.tasks[t].m;
    TaskOwns(c, s, t);
    if m in s.pool.chain && !Alone(s.pool, m) {
      var u :| 0 <= u < |s.tasks| && Pending(s, u, m);
      if u != t {
        TwoTasks(c, s, t, u);
      } else if s.tasks[t].last {
        Dammed(c, s, t);
      }
      FreeSafe(s.pool, m);
      assert Pending(s', u, m);
    } else {
      FreeSafe(s.pool, m);
    }
    FreeOnlyAt(s.pool, m);
    TaskFrame(s, s', t, m);
  }

  /** A consumer that releases its packet. */
  lemma ConsumerSafe(c: Config, s: State, s': State, r: nat)
    requires Inv(c, s) && ChainsSafe(s) && r < |s.consumers| && Holds(s.consumers[r]) && s'.tasks == s.tasks
    requires var m := s.consumers[r].m; s'.pool == Free(Touch(s.pool, m), m) || s'.pool == Free(TouchAll(s.pool, m), m)
    ensures ChainsSafe(s')
  {
    var m := s.consumers[r].m;
    ConsumerOwns(c, s, r);
    if m in s.pool.chain && !Alone(s.pool, m) {
      var u :| 0 <= u < |s.tasks| && Pending(s, u, m);
      TaskAndConsumer(c, s, u, r);
      FreeSafe(s.pool, m);
      assert Pending(s', u, m);
    } else {
      FreeSafe(s.pool, m);
    }
    FreeOnlyAt(s.pool, m);
    ConsumerFrame(s, s', m);
  }

  lemma ConsumerFrame(s: State, s': State, m0: Mbuf)
    requires ChainsSafe(s) && s'.tasks == s.tasks && OnlyAt(s.pool, m0, s'.pool)
    ensures forall m :: m in s'.pool.chain && m != m0 ==> Safe(s', m)
  {
    forall m | m in s'.pool.chain && m != m0
      ensures Safe(s', m)
    {
      assert Safe(s, m);
      if !Alone(s.pool, m) {
        var u :| 0 <= u < |s.tasks| && Pending(s, u, m);
        assert Pending(s', u, m);
      }
    }
  }

  /** A step after which tasks and pool are the same. */
  lemma SameSafe(s: State, s': State)
    requires ChainsSafe(s) && s'.tasks == s.tasks && s'.pool == s.pool
    ensures ChainsSafe(s')
  {
    forall m | m in s'.pool.chain
      ensures Safe(s', m)
    {
      assert Safe(s, m);
      if !Alone(s.pool, m) {
        var u :| 0 <= u < |s.tasks| && Pending(s, u, m);
        assert Pending(s', u, m);
      }
    }
  }

  lemma MoveSafe(c: Config, s: State, a: Step)
    requires Inv(c, s) && ChainsSafe(s) && Enabled(c, s, a) && !TwiceChained(c)
    requires a.Filter? || a.Choose? || a.Test? || a.Enqueue?
    ensures ChainsSafe(Apply(c, s, a))
  {
    var s' := Apply(c, s, a);
    TaskOwns(c, s, a.t);
    assert s'.tasks == s.tasks[a.t := s'.tasks[a.t]];
    if s'.tasks[a.t].Idle? && s.tasks[a.t].w.chained && Twice(s.tasks[a.t].w) {
      Dammed(c, s, a.t);
      assert false;
    }
    TaskMoves(c, s, s', a.t);
  }

  lemma WaitSafe(c: Config, s: State, a: Step)
    requires Inv(c, s) && ChainsSafe(s) && Enabled(c, s, a) && (a.Dequeue? || a.Mark? || a.FinishCopy?)
    ensures ChainsSafe(Apply(c, s, a))
  {
    if a.Mark? {
      ConsumerOwns(c, s, a.r);
    }
    SameSafe(s, Apply(c, s, a));
  }

  lemma StepKeepsSafe(c: Config, s: State, a: Step)
    requires Inv(c, s) && ChainsSafe(s) && Enabled(c, s, a) && !TwiceChained(c)
    ensures ChainsSafe(Apply(c, s, a))
  {
    match a
    case Receive(t, m, w) => ReceiveSafe(c, s, t, m, w);
    case Reject(t) => RejectSafe(c, s, t);
    case Accept(t) => AcceptSafe(c, s, t);
    case Drop(t) => DropSafe(c, s, t);
    case Copy(r) => ConsumerSafe(c, s, DoCopy(s, r), r);
    case Release(r) => ConsumerSafe(c, s, DoRelease(s, r), r);
    case Filter(_) => MoveSafe(c, s, a);
    case Choose(_) => MoveSafe(c, s, a);
    case Test(_) => MoveSafe(c, s, a);
    case Enqueue(_) => MoveSafe(c, s, a);
    case Dequeue(_) => WaitSafe(c, s, a);
    case Mark(_) => WaitSafe(c, s, a);
    case FinishCopy(_) => WaitSafe(c, s, a);
  }

  lemma {:induction false} RunKeepsSafe(c: Config, s: State, steps: seq<Step>, s': State)
    requires Inv(c, s) && ChainsSafe(s) && !TwiceChained(c) && Runs(c, s, steps, s')
    ensures Inv(c, s') && ChainsSafe(s')
    decreases |steps|
  {
    if steps != [] {
      StepKeepsInv(c, s, steps[0]);
      StepKeepsSafe(c, s, steps[0]);
      RunKeepsSafe(c, Apply(c, s, steps[0]), steps[1..], s');
    }
  }

  /** A chained packet gets through twice: its further segments are used after their release. */
  lemma FaultingRun(c: Config, t: nat, w: Packet) returns (s': State)
    requires Sane(c) && t < |c.traffic| && Possible(c, t, w) && w.chained && Twice(w) && Passes(c, w)
    ensures Leads(c, Fresh(c), s') && s'.pool.tailFault
  {
    var s := Fresh(c);
    StartInv(c, s);
    var s1 := Admit(c, s, t, w, 0);
    var s2 := Deliver(c, s1, t);
    assert s2.tasks[t] == Putting(0, w, true) && 0 in s2.pool.chain && 0 !in s2.pool.tails;
    s' := Deliver(c, s2, t);
    LeadsOn(c, s, s1, s2);
    LeadsOn(c, s, s2, s');
  }

  /** No run uses or releases a segment that is back in the mempool exactly if no packet that is delivered
      twice can be chained. */
  ghost predicate AlwaysSafe(c: Config) {
    forall s, steps, s' :: Start(c, s) && Runs(c, s, steps, s') ==> !s'.pool.fault && !s'.pool.tailFault
  }

  lemma SafeIffNotTwiceChained(c: Config)
    requires Sane(c)
    ensures AlwaysSafe(c) <==> !TwiceChained(c)
  {
    if TwiceChained(c) {
      var t, w :| 0 <= t < |c.traffic| && w in c.traffic[t] && Possible(c, t, w) && w.chained && Twice(w) && Passes(c, w);
      var s' := FaultingRun(c, t, w);
      var steps :| Runs(c, Fresh(c), steps, s');
      assert Start(c, Fresh(c));
    } else {
      forall s, steps, s' | Start(c, s) && Runs(c, s, steps, s')
        ensures !s'.pool.fault && !s'.pool.tailFault
      {
        StartInv(c, s);
        RunKeepsSafe(c, s, steps, s');
      }
    }
  }
}
