/** Building blocks for runs of the hand-off protocol: a task up to its enqueue, and a put
    whose packet the consumer has handled. */
module HandOffRuns {
  import opened Common
  import opened HandOff

  type Next = (State, Step) -> Option<State>

  function Go(c: Config): Next {
    (s: State, a: Step) => if Shaped(c, s) && Enabled(c, s, a) then Some(Apply(c, s, a)) else None
  }

  /** A run of any step function. */
  ghost predicate Chain(next: Next, s: State, steps: seq<Step>, s': State)
    decreases |steps|
  {
    if steps == [] then s == s'
    else next(s, steps[0]).Some? && Chain(next, next(s, steps[0]).value, steps[1..], s')
  }

  lemma {:induction false} ChainConcat(next: Next, s: State, first: seq<Step>, mid: State, second: seq<Step>, end: State)
    requires Chain(next, s, first, mid) && Chain(next, mid, second, end)
    ensures Chain(next, s, first + second, end)
    decreases |first|
  {
    if first == [] {
      assert first + second == second;
    } else {
      assert (first + second)[1..] == first[1..] + second;
      ChainConcat(next, next(s, first[0]).value, first[1..], mid, second, end);
    }
  }

  lemma {:induction false} RunsIsChain(c: Config, s: State, steps: seq<Step>, s': State)
    ensures Runs(c, s, steps, s') <==> Chain(Go(c), s, steps, s')
    decreases |steps|
  {
    if steps != [] && Shaped(c, s) && Enabled(c, s, steps[0]) {
      RunsIsChain(c, Apply(c, s, steps[0]), steps[1..], s');
    }
  }

  lemma RunsConcat(c: Config, s: State, first: seq<Step>, mid: State, second: seq<Step>, end: State)
    requires Runs(c, s, first, mid) && Runs(c, mid, second, end)
    ensures Runs(c, s, first + second, end)
  {
    RunsIsChain(c, s, first, mid);
    RunsIsChain(c, mid, second, end);
    ChainConcat(Go(c), s, first, mid, second, end);
    RunsIsChain(c, s, first + second, end);
  }

  /** s' can be reached from s. */
  ghost predicate Leads(c: Config, s: State, s': State) {
    exists steps :: Runs(c, s, steps, s')
  }

  lemma LeadsNowhere(c: Config, s: State)
    ensures Leads(c, s, s)
  {
    assert Runs(c, s, [], s);
  }

  lemma LeadsOn(c: Config, s: State, mid: State, end: State)
    requires Leads(c, s, mid) && Leads(c, mid, end)
    ensures Leads(c, s, end)
  {
    var first :| Runs(c, s, first, mid);
    var second :| Runs(c, mid, second, end);
    RunsConcat(c, s, first, mid, second, end);
  }

  /** One more step. */
  lemma Do(c: Config, s0: State, s: State, a: Step) returns (s': State)
    requires Inv(c, s) && Leads(c, s0, s) && Enabled(c, s, a)
    ensures s' == Apply(c, s, a) && Inv(c, s') && Leads(c, s0, s')
  {
    s' := Apply(c, s, a);
    StepKeepsInv(c, s, a);
    assert [a][1..] == [];
    assert Runs(c, s, [a], s');
    LeadsOn(c, s0, s, s');
  }

  lemma {:induction false} Outside(keys: set<Mbuf>) returns (m: Mbuf)
    ensures forall x :: x in keys ==> x < m
    decreases |keys|
  {
    if keys == {} {
      return 0;
    }
    var x :| x in keys;
    var rest := keys - {x};
    var n := Outside(rest);
    m := if n <= x then x + 1 else n;
    assert forall y :: y in keys ==> y == x || y in rest;
  }

  function Fresh(c: Config): (s: State)
    requires Sane(c)
    ensures Start(c, s)
  {
    State(Pool(map[], {}, {}, 0, 0, false, false), map[], seq(|c.size|, _ => []), seq(|c.size|, _ => Waiting),
          seq(|c.traffic|, _ => Idle), seq(|c.size|, _ => Counters(0, 0, 0)), multiset{})
  }

  /** A packet that is not rejected is received and accepted. */
  lemma Admit(c: Config, s: State, t: nat, w: Packet, m: Mbuf) returns (s': State)
    requires Inv(c, s) && t < |s.tasks| && s.tasks[t] == Idle && Possible(c, t, w) && !w.rejected && m !in s.pool.rc
    ensures Inv(c, s') && Leads(c, s, s') && s'.tasks == s.tasks[t := Putting(m, w, !Twice(w))]
    ensures s'.rings == s.rings && s'.consumers == s.consumers && s'.lost == s.lost
    ensures Rc(s'.pool, m) == if Twice(w) then 2 else 1
    ensures w.chained ==> m in s'.pool.tails
  {
    LeadsNowhere(c, s);
    var s1 := Do(c, s, s, Receive(t, m, w));
    s' := Do(c, s, s1, Accept(t));
  }

  /** A task sees room in its ring. */
  lemma PassTest(c: Config, s: State, t: nat) returns (s': State)
    requires Inv(c, s) && t < |s.tasks| && s.tasks[t].Putting? && (s.tasks[t].last || Taken(s.tasks[t].w))
    requires var r := Route(s.tasks[t].w, s.tasks[t].last); |s.rings[r]| < c.size[r]
    ensures Inv(c, s') && Leads(c, s, s')
    ensures var k := s.tasks[t]; s'.tasks == s.tasks[t := Enqueuing(k.m, k.w, k.last)]
    ensures s'.rings == s.rings && s'.consumers == s.consumers && s'.lost == s.lost && s'.pool == s.pool
  {
    TaskOwns(c, s, t);
    LeadsNowhere(c, s);
    var s1 := Do(c, s, s, Choose(t));
    s' := Do(c, s, s1, Test(t));
  }

  /** The enqueue on a ring that has room. */
  lemma PutOn(c: Config, s: State, t: nat) returns (s': State)
    requires Inv(c, s) && t < |s.tasks| && s.tasks[t].Enqueuing?
    requires var r := Route(s.tasks[t].w, s.tasks[t].last); |s.rings[r]| < c.size[r]
    ensures Inv(c, s') && Leads(c, s, s')
    ensures var k := s.tasks[t]; s'.tasks == s.tasks[t := After(k.m, k.w, k.last)]
    ensures var k := s.tasks[t]; var r := Route(k.w, k.last); s'.rings == s.rings[r := s.rings[r] + [k.m]]
    ensures s'.consumers == s.consumers && s'.lost == s.lost && s'.pool == s.pool
  {
    LeadsNowhere(c, s);
    s' := Do(c, s, s, Enqueue(t));
  }

  /** What one delivery of a packet does to the mempool: a reference less; the further segments go back,
      a second time if they are back already. */
  predicate OneLess(p: Pool, m: Mbuf, p': Pool) {
    && p'.rc == Less(p.rc, m)
    && (Rc(p, m) >= 2 && m in p.tails && m in p.chain ==> m in p'.chain && m !in p'.tails)
    && (m in p.chain && m !in p.tails ==> p'.tailFault)
  }

  lemma FreeOneLess(p: Pool, m: Mbuf)
    requires Rc(p, m) >= 1
    ensures OneLess(p, m, Free(p, m)) && Free(Touch(p, m), m) == Free(p, m)
    ensures OneLess(p, m, Free(TouchAll(p, m), m))
  {
  }

  /** The consumer of a ring takes the one packet on it. */
  lemma Take(c: Config, s: State, r: nat) returns (s': State)
    requires Inv(c, s) && r < |s.rings| && |s.rings[r]| == 1 && s.consumers[r] == Waiting
    ensures Inv(c, s') && Leads(c, s, s') && s'.rings == s.rings[r := []] && s'.pool == s.pool
    ensures s'.consumers[r] == Copying(s.rings[r][0]) || s'.consumers[r] == Holding(s.rings[r][0])
    ensures s'.consumers == s.consumers[r := s'.consumers[r]] && s'.tasks == s.tasks && s'.lost == s.lost
  {
    var s1 := Pop(c, s, r);
    s' := Look(c, s1, r);
    LeadsOn(c, s, s1, s');
    assert s'.consumers == s.consumers[r := s'.consumers[r]];
  }

  lemma Pop(c: Config, s: State, r: nat) returns (s': State)
    requires Inv(c, s) && r < |s.rings| && |s.rings[r]| == 1 && s.consumers[r] == Waiting
    ensures Inv(c, s') && Leads(c, s, s') && s'.rings == s.rings[r := []] && s'.pool == s.pool
    ensures s'.consumers == s.consumers[r := Popped(s.rings[r][0])] && s'.tasks == s.tasks && s'.lost == s.lost
  {
    LeadsNowhere(c, s);
    s' := Do(c, s, s, Dequeue(r));
    assert s.rings[r][1..] == [];
  }

  /** The consumer chooses between a copy and the packet itself. */
  lemma Look(c: Config, s: State, r: nat) returns (s': State)
    requires Inv(c, s) && r < |s.rings| && s.consumers[r].Popped?
    ensures Inv(c, s') && Leads(c, s, s') && s'.rings == s.rings && s'.pool == s.pool
    ensures s'.consumers[r] == Copying(s.consumers[r].m) || s'.consumers[r] == Holding(s.consumers[r].m)
    ensures s'.consumers == s.consumers[r := s'.consumers[r]] && s'.tasks == s.tasks && s'.lost == s.lost
  {
    ConsumerOwns(c, s, r);
    LeadsNowhere(c, s);
    s' := Do(c, s, s, Mark(r));
  }

  /** The consumer of a ring is done with its packet. */
  lemma Handle(c: Config, s: State, r: nat) returns (s': State)
    requires Inv(c, s) && r < |s.rings| && (s.consumers[r].Copying? || s.consumers[r].Holding?)
    ensures Inv(c, s') && Leads(c, s, s') && s'.rings == s.rings
    ensures s'.consumers == s.consumers[r := Waiting] && s'.tasks == s.tasks && s'.lost == s.lost
    ensures OneLess(s.pool, s.consumers[r].m, s'.pool)
  {
    ConsumerOwns(c, s, r);
    FreeOneLess(s.pool, s.consumers[r].m);
    LeadsNowhere(c, s);
    if s.consumers[r].Copying? {
      var s1 := Do(c, s, s, Copy(r));
      s' := Do(c, s, s1, FinishCopy(r));
    } else {
      s' := Do(c, s, s, Release(r));
    }
  }

  lemma Consume(c: Config, s: State, r: nat) returns (s': State)
    requires Inv(c, s) && r < |s.rings| && |s.rings[r]| == 1 && s.consumers[r] == Waiting
    ensures Inv(c, s') && Leads(c, s, s') && s'.rings == s.rings[r := []]
    ensures s'.consumers == s.consumers && s'.tasks == s.tasks && s'.lost == s.lost
    ensures OneLess(s.pool, s.rings[r][0], s'.pool)
  {
    var s1 := Take(c, s, r);
    s' := Handle(c, s1, r);
    LeadsOn(c, s, s1, s');
    assert s'.consumers == s.consumers;
  }

  /** A put that gets no place: filtered, or refused at a ring of no size. */
  lemma Refuse(c: Config, s: State, t: nat) returns (s': State)
    requires Inv(c, s) && t < |s.tasks| && s.tasks[t].Putting?
    requires var k := s.tasks[t]; k.last || Taken(k.w) ==> !c.pcap && c.size[Route(k.w, k.last)] == 0
    ensures Inv(c, s') && Leads(c, s, s') && s'.pool == s.pool
    ensures var k := s.tasks[t]; s'.tasks == s.tasks[t := Dropping(k.m, k.w, k.last)]
    ensures s'.rings == s.rings && s'.consumers == s.consumers && s'.lost == s.lost
  {
    TaskOwns(c, s, t);
    LeadsNowhere(c, s);
    if s.tasks[t].last || Taken(s.tasks[t].w) {
      var s1 := Do(c, s, s, Choose(t));
      s' := Do(c, s, s1, Test(t));
    } else {
      s' := Do(c, s, s, Filter(t));
    }
  }

  lemma GiveUp(c: Config, s: State, t: nat) returns (s': State)
    requires Inv(c, s) && t < |s.tasks| && s.tasks[t].Putting?
    requires var k := s.tasks[t]; k.last || Taken(k.w) ==> !c.pcap && c.size[Route(k.w, k.last)] == 0
    ensures Inv(c, s') && Leads(c, s, s')
    ensures var k := s.tasks[t]; s'.tasks == s.tasks[t := After(k.m, k.w, k.last)] && OneLess(s.pool, k.m, s'.pool)
    ensures s'.rings == s.rings && s'.consumers == s.consumers && s'.lost == s.lost
  {
    TaskOwns(c, s, t);
    FreeOneLess(s.pool, s.tasks[t].m);
    var s1 := Refuse(c, s, t);
    s' := Do(c, s, s1, Drop(t));
  }

  /** The ring of a put is empty and can be passed, and its consumer waits. */
  predicate Clear(c: Config, s: State, k: Task)
    requires Shaped(c, s) && k.Putting? && Route(k.w, k.last) < |c.size|
  {
    var r := Route(k.w, k.last);
    Open(c, r) && s.rings[r] == [] && s.consumers[r] == Waiting
  }

  /** A put on an empty ring, whose consumer handles it at once. */
  lemma Pass(c: Config, s: State, t: nat) returns (s': State)
    requires Inv(c, s) && t < |s.tasks| && s.tasks[t].Putting? && (s.tasks[t].last || Taken(s.tasks[t].w))
    requires Clear(c, s, s.tasks[t]) && c.size[Route(s.tasks[t].w, s.tasks[t].last)] > 0
    ensures Inv(c, s') && Leads(c, s, s')
    ensures var k := s.tasks[t]; s'.tasks == s.tasks[t := After(k.m, k.w, k.last)] && OneLess(s.pool, k.m, s'.pool)
    ensures s'.rings == s.rings && s'.consumers == s.consumers && s'.lost == s.lost
  {
    var k := s.tasks[t];
    var r := Route(k.w, k.last);
    var s1 := PassTest(c, s, t);
    s' := PutAndConsume(c, s1, t);
    LeadsOn(c, s, s1, s');
    assert s'.tasks == s.tasks[t := After(k.m, k.w, k.last)];
  }

  lemma PutAndConsume(c: Config, s: State, t: nat) returns (s': State)
    requires Inv(c, s) && t < |s.tasks| && s.tasks[t].Enqueuing?
    requires var r := Route(s.tasks[t].w, s.tasks[t].last); c.size[r] > 0 && s.rings[r] == [] && s.consumers[r] == Waiting
    ensures Inv(c, s') && Leads(c, s, s')
    ensures var k := s.tasks[t]; s'.tasks == s.tasks[t := After(k.m, k.w, k.last)] && OneLess(s.pool, k.m, s'.pool)
    ensures s'.rings == s.rings && s'.consumers == s.consumers && s'.lost == s.lost
  {
    var k := s.tasks[t];
    var r := Route(k.w, k.last);
    var s1 := PutOn(c, s, t);
    assert s1.rings[r] == [k.m];
    s' := Consume(c, s1, r);
    LeadsOn(c, s, s1, s');
    assert s'.rings == s.rings;
  }

  /** A put is done with, and so is the consumer with what it got. */
  lemma Deliver(c: Config, s: State, t: nat) returns (s': State)
    requires Inv(c, s) && t < |s.tasks| && s.tasks[t].Putting?
    requires s.tasks[t].last || Taken(s.tasks[t].w) ==> Clear(c, s, s.tasks[t])
    ensures Inv(c, s') && Leads(c, s, s')
    ensures var k := s.tasks[t]; s'.tasks == s.tasks[t := After(k.m, k.w, k.last)] && OneLess(s.pool, k.m, s'.pool)
    ensures s'.rings == s.rings && s'.consumers == s.consumers && s'.lost == s.lost
  {
    var k := s.tasks[t];
    var r := Route(k.w, k.last);
    if (k.last || Taken(k.w)) && c.size[r] > 0 {
      s' := Pass(c, s, t);
    } else {
      s' := GiveUp(c, s, t);
    }
  }
}
