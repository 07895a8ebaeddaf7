/** When a reference can be lost: the test for a full ring and the enqueue are two steps, and
    the result of the enqueue is ignored (MProcess/ch_process_interface.c). */
module HandOffLoss {
  import opened HandOff
  import opened HandOffRuns

  // ------------------------------------------------------------------ counting

  function Count<T>(xs: seq<T>, f: T -> bool): nat {
    if xs == [] then 0 else (if f(xs[0]) then 1 else 0) + Count(xs[1..], f)
  }

  lemma {:induction false} CountUpdate<T>(xs: seq<T>, i: nat, x: T, f: T -> bool)
    requires i < |xs|
    ensures Count(xs[i := x], f) + (if f(xs[i]) then 1 else 0) == Count(xs, f) + (if f(x) then 1 else 0)
  {
    if i == 0 {
      assert xs[0 := x][1..] == xs[1..];
    } else {
      assert xs[i := x][1..] == xs[1..][i - 1 := x];
      CountUpdate(xs[1..], i - 1, x, f);
    }
  }

  lemma {:induction false} CountBelow<T, U>(xs: seq<T>, f: T -> bool, ys: seq<U>, g: U -> bool)
    requires |xs| == |ys| && forall i :: 0 <= i < |xs| && f(xs[i]) ==> g(ys[i])
    ensures Count(xs, f) <= Count(ys, g)
  {
    if xs != [] {
      assert forall i :: 0 <= i < |xs[1..]| ==> xs[1..][i] == xs[i + 1] && ys[1..][i] == ys[i + 1];
      assert f(xs[0]) ==> g(ys[0]);
      CountBelow(xs[1..], f, ys[1..], g);
    }
  }

  lemma {:induction false} CountFind<T>(xs: seq<T>, f: T -> bool) returns (i: nat)
    requires Count(xs, f) >= 1
    ensures i < |xs| && f(xs[i])
  {
    if f(xs[0]) {
      return 0;
    }
    i := CountFind(xs[1..], f);
    i := i + 1;
  }

  lemma {:induction false} CountOther<T>(xs: seq<T>, f: T -> bool, j: nat) returns (i: nat)
    requires Count(xs, f) >= 2 && j < |xs|
    ensures i < |xs| && f(xs[i]) && i != j
  {
    if j == 0 || !f(xs[0]) {
      if j == 0 {
        i := CountFind(xs[1..], f);
      } else {
        i := CountOther(xs[1..], f, j - 1);
      }
      i := i + 1;
    } else {
      i := 0;
    }
  }

  // ----------------------------------------------------- who can write to a ring

  /** The packet comes to ring r: by its first put, or by the SA put if it gets that far. */
  predicate Reaches(c: Config, w: Packet, r: nat)
    requires Sane(c)
  {
    && Routed(c, w) && !w.rejected
    && ((Taken(w) && w.first == r) || (w.second == r && (Taken(w) ==> Open(c, w.first))))
  }

  /** A task that can get the packets p can put on r. */
  predicate Uses(c: Config, p: set<Packet>, r: nat)
    requires Sane(c)
  {
    exists w :: w in p && Reaches(c, w, r)
  }

  /** The packet comes to ring r and is done with: the SA put that may follow gets through. */
  predicate FlowsBy(c: Config, w: Packet, r: nat)
    requires Sane(c)
  {
    Reaches(c, w, r) && Open(c, w.second)
  }

  /** A task that can get the packets p can put on r any number of times. */
  predicate Flows(c: Config, p: set<Packet>, r: nat)
    requires Sane(c)
  {
    exists w :: w in p && FlowsBy(c, w, r)
  }

  function User(c: Config, r: nat): set<Packet> -> bool
    requires Sane(c)
  {
    p => Uses(c, p, r)
  }

  function Users(c: Config, r: nat): nat
    requires Sane(c)
  {
    Count(c.traffic, User(c, r))
  }

  predicate SomeFlows(c: Config, r: nat)
    requires Sane(c)
  {
    exists t :: 0 <= t < |c.traffic| && Flows(c, c.traffic[t], r)
  }

  /** Two tasks write to a ring that has places, and can fill it: one of them any number of times, or else
      each of them once and they are more than the places. */
  predicate Overrun(c: Config, r: nat)
    requires Sane(c) && r < |c.size|
  {
    0 < c.size[r] && 2 <= Users(c, r) && (SomeFlows(c, r) || c.size[r] < Users(c, r))
  }

  predicate NoOverrun(c: Config)
    requires Sane(c)
  {
    forall r :: 0 <= r < |c.size| ==> !Overrun(c, r)
  }

  // ---------------------------------------------------------- nothing is lost

  /** About to enqueue on r. */
  function OnRing(r: nat): Task -> bool {
    (k: Task) => k.Enqueuing? && Route(k.w, k.last) == r
  }

  /** Has put the first of two on r, or is about to. */
  function Claims(r: nat): Task -> bool {
    (k: Task) => !k.Idle? && !k.Parsing? && Taken(k.w) && k.w.first == r && (k.last || k.Enqueuing?)
  }

  /** Nothing is lost, and every task about to enqueue will find its place.  Where no task can put twice,
      the entries of a ring come from different tasks. */
  predicate Roomy(c: Config, s: State)
    requires Shaped(c, s)
  {
    && s.lost == multiset{}
    && (forall r :: 0 <= r < |c.size| ==> |s.rings[r]| + Count(s.tasks, OnRing(r)) <= c.size[r])
    && (forall r :: 0 <= r < |c.size| && !SomeFlows(c, r) ==>
          |s.rings[r]| + Count(s.tasks, OnRing(r)) <= Count(s.tasks, Claims(r)))
  }

  lemma TaskUses(c: Config, s: State, t: nat, r: nat)
    requires Shaped(c, s) && t < |s.tasks| && r < |c.size| && (OnRing(r)(s.tasks[t]) || Claims(r)(s.tasks[t]))
    ensures Uses(c, c.traffic[t], r)
  {
    var w := s.tasks[t].w;
    assert Possible(c, t, w) && Reaches(c, w, r);
  }

  /** A task that can put only once has an SA put before it that it cannot pass. */
  lemma Blocked(c: Config, s: State, t: nat, r: nat)
    requires Shaped(c, s) && t < |s.tasks| && r < |c.size| && !SomeFlows(c, r) && Claims(r)(s.tasks[t])
    ensures s.tasks[t].last ==> s.tasks[t].Putting? || s.tasks[t].Testing?
    ensures Possible(c, t, s.tasks[t].w) && !Open(c, s.tasks[t].w.second)
  {
    var w := s.tasks[t].w;
    assert Possible(c, t, w) && Reaches(c, w, r);
    assert !Flows(c, c.traffic[t], r) && !FlowsBy(c, w, r);
  }

  lemma FlowsOnSa(c: Config, s: State, t: nat, r: nat)
    requires Shaped(c, s) && t < |s.tasks| && r < |c.size| && !SomeFlows(c, r) && OnRing(r)(s.tasks[t])
    ensures Claims(r)(s.tasks[t])
  {
    var w := s.tasks[t].w;
    assert Possible(c, t, w) && Reaches(c, w, r);
    assert !Flows(c, c.traffic[t], r) && !FlowsBy(c, w, r);
  }

  /** The places that a step of task t takes on ring r or gives back, and its claims. */
  lemma TaskCounts(s: State, s': State, t: nat, r: nat)
    requires t < |s.tasks| == |s'.tasks| && s'.tasks == s.tasks[t := s'.tasks[t]]
    ensures Count(s'.tasks, OnRing(r)) + (if OnRing(r)(s.tasks[t]) then 1 else 0) ==
            Count(s.tasks, OnRing(r)) + (if OnRing(r)(s'.tasks[t]) then 1 else 0)
    ensures Count(s'.tasks, Claims(r)) + (if Claims(r)(s.tasks[t]) then 1 else 0) ==
            Count(s.tasks, Claims(r)) + (if Claims(r)(s'.tasks[t]) then 1 else 0)
  {
    CountUpdate(s.tasks, t, s'.tasks[t], OnRing(r));
    CountUpdate(s.tasks, t, s'.tasks[t], Claims(r));
  }

  /** Steps that put nothing on a ring, send no task into the enqueue and take no claim back. */
  lemma QuietRoomy(c: Config, s: State, s': State, t: nat)
    requires Shaped(c, s) && Shaped(c, s') && Roomy(c, s) && s'.lost == s.lost
    requires t < |s.tasks| && s'.tasks == s.tasks[t := s'.tasks[t]] && s'.rings == s.rings
    requires forall r :: 0 <= r < |c.size| ==> !OnRing(r)(s.tasks[t]) && !OnRing(r)(s'.tasks[t])
    requires forall r :: 0 <= r < |c.size| && !SomeFlows(c, r) && Claims(r)(s.tasks[t]) ==> Claims(r)(s'.tasks[t])
    ensures Roomy(c, s')
  {
    forall r: nat | r < |c.size|
      ensures |s'.rings[r]| + Count(s'.tasks, OnRing(r)) <= c.size[r]
      ensures !SomeFlows(c, r) ==> |s'.rings[r]| + Count(s'.tasks, OnRing(r)) <= Count(s'.tasks, Claims(r))
    {
      TaskCounts(s, s', t, r);
    }
  }

  lemma TaskRoomy(c: Config, s: State, a: Step)
    requires Inv(c, s) && Roomy(c, s) && Enabled(c, s, a) && Shaped(c, Apply(c, s, a))
    requires a.Receive? || a.Reject? || a.Accept? || a.Filter? || a.Choose? || a.Drop?
    ensures Roomy(c, Apply(c, s, a))
  {
    var s' := Apply(c, s, a);
    forall r: nat | r < |c.size| && !SomeFlows(c, r) && Claims(r)(s.tasks[a.t])
      ensures Claims(r)(s'.tasks[a.t])
    {
      Blocked(c, s, a.t, r);
    }
    QuietRoomy(c, s, s', a.t);
  }

  /** A task that passes the test on r: it is the only one to write to r, or r has a place for every task. */
  lemma TestRing(c: Config, s: State, s': State, t: nat, r: nat)
    requires Shaped(c, s) && Shaped(c, s') && Roomy(c, s) && NoOverrun(c) && r < |c.size|
    requires t < |s.tasks| && s'.tasks == s.tasks[t := s'.tasks[t]] && s'.rings == s.rings
    requires OnRing(r)(s'.tasks[t]) && !OnRing(r)(s.tasks[t]) && |s.rings[r]| < c.size[r]
    requires !SomeFlows(c, r) ==> !Claims(r)(s.tasks[t])
    ensures |s'.rings[r]| + Count(s'.tasks, OnRing(r)) <= c.size[r]
    ensures !SomeFlows(c, r) ==> |s'.rings[r]| + Count(s'.tasks, OnRing(r)) <= Count(s'.tasks, Claims(r))
  {
    TaskCounts(s, s', t, r);
    forall u | 0 <= u < |s'.tasks| && (OnRing(r)(s'.tasks[u]) || Claims(r)(s'.tasks[u]))
      ensures User(c, r)(c.traffic[u])
    {
      TaskUses(c, s', u, r);
    }
    CountBelow(s'.tasks, OnRing(r), c.traffic, User(c, r));
    CountBelow(s'.tasks, Claims(r), c.traffic, User(c, r));
    if !SomeFlows(c, r) {
      FlowsOnSa(c, s', t, r);
    }
    assert !Overrun(c, r);
  }

  lemma TestRoomy(c: Config, s: State, t: nat)
    requires Inv(c, s) && Roomy(c, s) && NoOverrun(c) && Enabled(c, s, Test(t)) && Shaped(c, DoTest(c, s, t))
    ensures Roomy(c, DoTest(c, s, t))
  {
    var s', k := DoTest(c, s, t), s.tasks[t];
    assert s'.tasks == s.tasks[t := s'.tasks[t]];
    forall r: nat | r < |c.size|
      ensures |s'.rings[r]| + Count(s'.tasks, OnRing(r)) <= c.size[r]
      ensures !SomeFlows(c, r) ==> |s'.rings[r]| + Count(s'.tasks, OnRing(r)) <= Count(s'.tasks, Claims(r))
    {
      if !SomeFlows(c, r) && Claims(r)(k) {
        Blocked(c, s, t, r);
      }
      if s'.tasks[t].Enqueuing? && Route(k.w, k.last) == r {
        TestRing(c, s, s', t, r);
      } else {
        TaskCounts(s, s', t, r);
      }
    }
  }

  lemma EnqueueRoomy(c: Config, s: State, t: nat)
    requires Inv(c, s) && Roomy(c, s) && Enabled(c, s, Enqueue(t)) && Shaped(c, DoEnqueue(c, s, t))
    ensures Roomy(c, DoEnqueue(c, s, t))
  {
    var s', k := DoEnqueue(c, s, t), s.tasks[t];
    var q := Route(k.w, k.last);
    CountUpdate(s.tasks, t, Idle, OnRing(q));
    forall r: nat | r < |c.size|
      ensures |s'.rings[r]| + Count(s'.tasks, OnRing(r)) <= c.size[r]
      ensures !SomeFlows(c, r) ==> |s'.rings[r]| + Count(s'.tasks, OnRing(r)) <= Count(s'.tasks, Claims(r))
    {
      TaskCounts(s, s', t, r);
      if !SomeFlows(c, r) && Claims(r)(k) {
        Blocked(c, s, t, r);
      }
    }
  }

  lemma ConsumerRoomy(c: Config, s: State, a: Step)
    requires Inv(c, s) && Roomy(c, s) && Enabled(c, s, a) && Shaped(c, Apply(c, s, a))
    requires a.Dequeue? || a.Mark? || a.Copy? || a.FinishCopy? || a.Release?
    ensures Roomy(c, Apply(c, s, a))
  {
    var s' := Apply(c, s, a);
    assert s'.tasks == s.tasks && s'.lost == s.lost;
    assert forall r :: 0 <= r < |c.size| ==> |s'.rings[r]| <= |s.rings[r]|;
  }

  lemma StepKeepsRoomy(c: Config, s: State, a: Step)
    requires Inv(c, s) && Roomy(c, s) && NoOverrun(c) && Enabled(c, s, a)
    ensures Inv(c, Apply(c, s, a)) && Roomy(c, Apply(c, s, a))
  {
    StepKeepsInv(c, s, a);
    if a.Enqueue? {
      EnqueueRoomy(c, s, a.t);
    } else if a.Test? {
      TestRoomy(c, s, a.t);
    } else if a.Dequeue? || a.Mark? || a.Copy? || a.FinishCopy? || a.Release? {
      ConsumerRoomy(c, s, a);
    } else {
      TaskRoomy(c, s, a);
    }
  }

  lemma {:induction false} RunKeepsRoomy(c: Config, s: State, steps: seq<Step>, s': State)
    requires Inv(c, s) && Roomy(c, s) && NoOverrun(c) && Runs(c, s, steps, s')
    ensures Inv(c, s') && Roomy(c, s')
    decreases |steps|
  {
    if steps != [] {
      StepKeepsRoomy(c, s, steps[0]);
      RunKeepsRoomy(c, Apply(c, s, steps[0]), steps[1..], s');
    }
  }

  lemma {:induction false} NoneCounted<T>(xs: seq<T>, f: T -> bool)
    requires forall i :: 0 <= i < |xs| ==> !f(xs[i])
    ensures Count(xs, f) == 0
  {
    if xs != [] {
      NoneCounted(xs[1..], f);
    }
  }

  lemma StartRoomy(c: Config, s: State)
    requires Start(c, s)
    ensures Roomy(c, s)
  {
    forall r: nat | r < |c.size|
      ensures Count(s.tasks, OnRing(r)) == 0
    {
      NoneCounted(s.tasks, OnRing(r));
    }
  }

  // ------------------------------------------------------- everything is released

  predicate Quiet(s: State) {
    && (forall r :: 0 <= r < |s.rings| ==> s.rings[r] == [])
    && (forall r :: 0 <= r < |s.consumers| ==> s.consumers[r] == Waiting)
    && (forall t :: 0 <= t < |s.tasks| ==> s.tasks[t] == Idle)
  }

  /** Where no ring can be overrun nothing leaks: once the tasks are idle and the rings empty, every buffer
      that was received has been released, with the further segments. */
  lemma EveryBufferReleased(c: Config, s: State, steps: seq<Step>, s': State)
    requires Start(c, s) && Runs(c, s, steps, s') && NoOverrun(c) && Quiet(s')
    ensures s'.pool.rc == map[] && s'.pool.tails == {} && s'.pool.received == s'.pool.released
  {
    StartInv(c, s);
    StartRoomy(c, s);
    RunKeepsRoomy(c, s, steps, s');
    forall m: Mbuf
      ensures m !in s'.pool.rc
    {
      assert Rc(s'.pool, m) == Refs(s', m);
      NothingOwed(s'.tasks, m);
      NothingHeld(s'.consumers, m);
      NothingQueued(s'.rings, m);
    }
    assert s'.pool.rc == map[];
  }

  // ------------------------------------------------------------- losing runs

  /** All rings but r are empty, and all consumers wait. */
  predicate Drained(s: State, r: nat) {
    && (forall q :: 0 <= q < |s.rings| && q != r ==> s.rings[q] == [])
    && (forall q :: 0 <= q < |s.consumers| ==> s.consumers[q] == Waiting)
  }

  /** Where the put of packet w on ring r is the SA put. */
  predicate ByLast(w: Packet, r: nat) {
    !(Taken(w) && w.first == r)
  }

  /** Up to the moment before the put on r. */
  lemma Approach(c: Config, s: State, t: nat, r: nat, w: Packet) returns (s': State)
    requires Inv(c, s) && t < |s.tasks| && s.tasks[t] == Idle && r < |s.rings| && Drained(s, r)
    requires Possible(c, t, w) && Reaches(c, w, r)
    ensures Inv(c, s') && Leads(c, s, s') && |s'.tasks| == |s.tasks| && s'.tasks == s.tasks[t := s'.tasks[t]]
    ensures s'.tasks[t].Putting? && s'.tasks[t].w == w && s'.tasks[t].last == ByLast(w, r)
    ensures s'.rings == s.rings && s'.consumers == s.consumers && s'.lost == s.lost
  {
    var m := Outside(s.pool.rc.Keys);
    s' := Admit(c, s, t, w, m);
    if Twice(w) && ByLast(w, r) {
      var s1 := s';
      s' := Deliver(c, s1, t);
      LeadsOn(c, s, s1, s');
      assert s'.tasks == s.tasks[t := Putting(m, w, true)];
    }
  }

  /** Up to the moment before the enqueue on a ring that has room. */
  lemma Arm(c: Config, s: State, t: nat, r: nat, w: Packet) returns (s': State)
    requires Inv(c, s) && t < |s.tasks| && s.tasks[t] == Idle && r < |s.rings| && Drained(s, r)
    requires Possible(c, t, w) && Reaches(c, w, r) && |s.rings[r]| < c.size[r]
    ensures Inv(c, s') && Leads(c, s, s') && |s'.tasks| == |s.tasks| && s'.tasks == s.tasks[t := s'.tasks[t]]
    ensures s'.tasks[t].Enqueuing? && s'.tasks[t].w == w && s'.tasks[t].last == ByLast(w, r)
    ensures s'.rings == s.rings && s'.consumers == s.consumers && s'.lost == s.lost
  {
    var s1 := Approach(c, s, t, r, w);
    s' := PassTest(c, s1, t);
    LeadsOn(c, s, s1, s');
  }

  /** The task's enqueue on ring r, and the SA put that follows. */
  lemma Finish(c: Config, s: State, t: nat, r: nat, w: Packet) returns (s': State)
    requires Inv(c, s) && t < |s.tasks| && r < |s.rings| && Drained(s, r) && s.tasks[t].Enqueuing?
    requires Possible(c, t, w) && FlowsBy(c, w, r) && |s.rings[r]| < c.size[r]
    requires s.tasks[t].w == w && s.tasks[t].last == ByLast(w, r)
    ensures Inv(c, s') && Leads(c, s, s') && s'.tasks == s.tasks[t := Idle]
    ensures s'.rings == s.rings[r := s.rings[r] + [s.tasks[t].m]] && s'.consumers == s.consumers && s'.lost == s.lost
  {
    var s1 := PutOn(c, s, t);
    if ByLast(w, r) {
      s' := s1;
    } else {
      s' := Deliver(c, s1, t);
      LeadsOn(c, s, s1, s');
    }
  }

  /** Fill ring r up to n entries. */
  lemma {:induction false} Fill(c: Config, s: State, t: nat, r: nat, w: Packet, n: nat) returns (s': State)
    requires Inv(c, s) && t < |s.tasks| && s.tasks[t] == Idle && r < |s.rings| && Drained(s, r)
    requires Possible(c, t, w) && FlowsBy(c, w, r) && |s.rings[r]| <= n < c.size[r]
    ensures Inv(c, s') && Leads(c, s, s') && s'.tasks == s.tasks && |s'.rings| == |s.rings|
    ensures Drained(s', r) && |s'.rings[r]| == n
    decreases n - |s.rings[r]|
  {
    if |s.rings[r]| == n {
      LeadsNowhere(c, s);
      return s;
    }
    var s1 := Arm(c, s, t, r, w);
    var s2 := Finish(c, s1, t, r, w);
    LeadsOn(c, s, s1, s2);
    assert s2.tasks == s.tasks;
    s' := Fill(c, s2, t, r, w, n);
    LeadsOn(c, s, s2, s');
  }

  /** More tasks stand before the enqueue than the ring has places. */
  lemma {:induction false} LoseArmed(c: Config, s: State, r: nat) returns (s': State)
    requires Inv(c, s) && r < |c.size| && c.size[r] < |s.rings[r]| + Count(s.tasks, OnRing(r)) && |s.rings[r]| <= c.size[r]
    ensures Leads(c, s, s') && s'.lost != multiset{}
    decreases Count(s.tasks, OnRing(r))
  {
    var t := CountFind(s.tasks, OnRing(r));
    LeadsNowhere(c, s);
    if |s.rings[r]| == c.size[r] {
      s' := Do(c, s, s, Enqueue(t));
      assert s.tasks[t].m in s'.lost;
    } else {
      var s1 := PutOn(c, s, t);
      CountUpdate(s.tasks, t, s1.tasks[t], OnRing(r));
      s' := LoseArmed(c, s1, r);
      LeadsOn(c, s, s1, s');
    }
  }

  /** Two tasks meet at the last place of a ring. */
  lemma Meet(c: Config, s: State, t: nat, w: Packet, u: nat, v: Packet, r: nat) returns (s': State)
    requires Inv(c, s) && t < |s.tasks| && u < |s.tasks| && t != u && s.tasks[t] == Idle && s.tasks[u] == Idle
    requires r < |s.rings| && Drained(s, r) && |s.rings[r]| + 1 == c.size[r]
    requires Possible(c, t, w) && Reaches(c, w, r) && Possible(c, u, v) && Reaches(c, v, r)
    ensures Leads(c, s, s') && s'.lost != multiset{}
  {
    var s1 := Arm(c, s, t, r, w);
    CountUpdate(s.tasks, t, s1.tasks[t], OnRing(r));
    var s2 := Arm(c, s1, u, r, v);
    CountUpdate(s1.tasks, u, s2.tasks[u], OnRing(r));
    LeadsOn(c, s, s1, s2);
    s' := LoseArmed(c, s2, r);
    LeadsOn(c, s, s2, s');
  }

  /** A task that can put any number of packets on r fills it up to the last place, and meets another one there. */
  lemma LoseByFilling(c: Config, t: nat, u: nat, r: nat) returns (s': State)
    requires Sane(c) && r < |c.size| && c.size[r] > 0 && t < |c.traffic| && u < |c.traffic| && t != u
    requires Flows(c, c.traffic[t], r) && Uses(c, c.traffic[u], r)
    ensures Leads(c, Fresh(c), s') && s'.lost != multiset{}
  {
    var s := Fresh(c);
    StartInv(c, s);
    var w :| w in c.traffic[t] && FlowsBy(c, w, r);
    var v :| v in c.traffic[u] && Reaches(c, v, r);
    var s1 := Fill(c, s, t, r, w, c.size[r] - 1);
    s' := Meet(c, s1, t, w, u, v, r);
    LeadsOn(c, s, s1, s');
  }

  /** All tasks up to n that can put on r stand before the enqueue, and no other task has begun. */
  predicate Armed(c: Config, s: State, r: nat, n: nat)
    requires Sane(c) && n <= |c.traffic| == |s.tasks|
  {
    && (forall t :: 0 <= t < n && Uses(c, c.traffic[t], r) ==> OnRing(r)(s.tasks[t]))
    && (forall t :: n <= t < |s.tasks| ==> s.tasks[t] == Idle)
  }

  lemma {:induction false} ArmAll(c: Config, s: State, r: nat, n: nat) returns (s': State)
    requires Inv(c, s) && r < |s.rings| && |s.rings[r]| < c.size[r] && Drained(s, r)
    requires n <= |s.tasks| && Armed(c, s, r, n)
    ensures Inv(c, s') && Leads(c, s, s') && s'.rings == s.rings && Armed(c, s', r, |s'.tasks|)
    decreases |s.tasks| - n
  {
    LeadsNowhere(c, s);
    if n == |s.tasks| {
      return s;
    }
    var s1 := s;
    if Uses(c, c.traffic[n], r) {
      var w :| w in c.traffic[n] && Reaches(c, w, r);
      s1 := Arm(c, s, n, r, w);
    }
    s' := ArmAll(c, s1, r, n + 1);
    LeadsOn(c, s, s1, s');
  }

  lemma LoseByNumber(c: Config, r: nat) returns (s': State)
    requires Sane(c) && r < |c.size| && 0 < c.size[r] < Users(c, r)
    ensures Leads(c, Fresh(c), s') && s'.lost != multiset{}
  {
    var s := Fresh(c);
    StartInv(c, s);
    var s1 := ArmAll(c, s, r, 0);
    CountBelow(c.traffic, User(c, r), s1.tasks, OnRing(r));
    s' := LoseArmed(c, s1, r);
    LeadsOn(c, s, s1, s');
  }

  ghost predicate CanLose(c: Config) {
    exists s, steps, s' :: Start(c, s) && Runs(c, s, steps, s') && s'.lost != multiset{}
  }

  lemma LossShown(c: Config, s': State)
    requires Sane(c) && Leads(c, Fresh(c), s') && s'.lost != multiset{}
    ensures CanLose(c)
  {
    var steps :| Runs(c, Fresh(c), steps, s');
    assert Start(c, Fresh(c));
  }

  /** Some run loses a reference exactly when a ring can be overrun. */
  lemma CanLoseIffOverrun(c: Config)
    requires Sane(c)
    ensures CanLose(c) <==> !NoOverrun(c)
  {
    if NoOverrun(c) && CanLose(c) {
      var s, steps, s' :| Start(c, s) && Runs(c, s, steps, s') && s'.lost != multiset{};
      StartInv(c, s);
      StartRoomy(c, s);
      RunKeepsRoomy(c, s, steps, s');
    }
    if !NoOverrun(c) {
      var r :| 0 <= r < |c.size| && Overrun(c, r);
      var s';
      if c.size[r] < Users(c, r) {
        s' := LoseByNumber(c, r);
      } else {
        var t :| 0 <= t < |c.traffic| && Flows(c, c.traffic[t], r);
        var u := CountOther(c.traffic, User(c, r), t);
        s' := LoseByFilling(c, t, u, r);
      }
      LossShown(c, s');
    }
  }
}
