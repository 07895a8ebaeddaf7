/** The hand-off protocol can come to rest: no task waits for ever, unless it has to put on
    a ring that it can never pass. */
module HandOffRest {
  import opened HandOff
  import opened HandOffRuns
  import opened HandOffLoss

  function Sum(xs: seq<nat>): nat {
    if xs == [] then 0 else xs[0] + Sum(xs[1..])
  }

  lemma {:induction false} SumUpdate(xs: seq<nat>, i: nat, v: nat)
    requires i < |xs|
    ensures Sum(xs[i := v]) + xs[i] == Sum(xs) + v
    decreases |xs|
  {
    if i > 0 {
      assert xs[i := v][1..] == xs[1..][i - 1 := v];
      SumUpdate(xs[1..], i - 1, v);
    } else {
      assert xs[i := v][1..] == xs[1..];
    }
  }

  /** An upper bound on the steps that are left with the packet of a task, those of its consumers included. */
  function TaskWork(k: Task): nat {
    match k
    case Idle => 0
    case Parsing(_, _) => 15
    case Putting(_, _, last) => if last then 7 else 14
    case Testing(_, _, last) => if last then 6 else 13
    case Enqueuing(_, _, last) => if last then 5 else 12
    case Dropping(_, _, last) => if last then 1 else 8
  }

  function ConsumerWork(k: Consumer): nat {
    match k
    case Waiting => 0
    case Popped(_) => 3
    case Copying(_) => 2
    case OnCopy => 1
    case Holding(_) => 1
  }

  function TaskWorks(ks: seq<Task>): (r: seq<nat>)
    ensures |r| == |ks| && forall i :: 0 <= i < |r| ==> r[i] == TaskWork(ks[i])
  {
    seq(|ks|, i requires 0 <= i < |ks| => TaskWork(ks[i]))
  }

  function ConsumerWorks(ks: seq<Consumer>): (r: seq<nat>)
    ensures |r| == |ks| && forall i :: 0 <= i < |r| ==> r[i] == ConsumerWork(ks[i])
  {
    seq(|ks|, i requires 0 <= i < |ks| => ConsumerWork(ks[i]))
  }

  function RingWorks(qs: seq<seq<Mbuf>>): (r: seq<nat>)
    ensures |r| == |qs| && forall i :: 0 <= i < |r| ==> r[i] == 4 * |qs[i]|
  {
    seq(|qs|, i requires 0 <= i < |qs| => 4 * |qs[i]|)
  }

  function Work(s: State): nat {
    Sum(TaskWorks(s.tasks)) + Sum(ConsumerWorks(s.consumers)) + Sum(RingWorks(s.rings))
  }

  lemma TaskMoves(ks: seq<Task>, t: nat, k: Task)
    requires t < |ks|
    ensures Sum(TaskWorks(ks[t := k])) + TaskWork(ks[t]) == Sum(TaskWorks(ks)) + TaskWork(k)
  {
    SumUpdate(TaskWorks(ks), t, TaskWork(k));
    assert TaskWorks(ks[t := k]) == TaskWorks(ks)[t := TaskWork(k)];
  }

  lemma ConsumerMoves(ks: seq<Consumer>, r: nat, k: Consumer)
    requires r < |ks|
    ensures Sum(ConsumerWorks(ks[r := k])) + ConsumerWork(ks[r]) == Sum(ConsumerWorks(ks)) + ConsumerWork(k)
  {
    SumUpdate(ConsumerWorks(ks), r, ConsumerWork(k));
    assert ConsumerWorks(ks[r := k]) == ConsumerWorks(ks)[r := ConsumerWork(k)];
  }

  lemma RingMoves(qs: seq<seq<Mbuf>>, r: nat, q: seq<Mbuf>)
    requires r < |qs|
    ensures Sum(RingWorks(qs[r := q])) + 4 * |qs[r]| == Sum(RingWorks(qs)) + 4 * |q|
  {
    SumUpdate(RingWorks(qs), r, 4 * |q|);
    assert RingWorks(qs[r := q]) == RingWorks(qs)[r := 4 * |q|];
  }

  /** The put on the SA interface (last), or the first of two, is still before the task. */
  predicate Ahead(k: Task, last: bool) {
    match k
    case Idle => false
    case Parsing(_, w) => !w.rejected && (last || Taken(w))
    case Putting(_, w, l) => last || (!l && Taken(w))
    case Testing(_, w, l) => last || (!l && Taken(w))
    case Enqueuing(_, _, l) => last && !l
    case Dropping(_, _, l) => last && !l
  }

  predicate Faces(c: Config, k: Task, last: bool) {
    Ahead(k, last) && Route(k.w, last) < |c.size| && !Open(c, Route(k.w, last))
  }

  /** Reading from a capture file, a task has a put before it, now or later, on a ring that can hold nothing. */
  predicate Stuck(c: Config, s: State) {
    exists t, last :: 0 <= t < |s.tasks| && Faces(c, s.tasks[t], last)
  }

  /** The next step of a consumer that is busy. */
  function ConsumerStepOf(k: Consumer, r: nat): Step
    requires k != Waiting
  {
    match k
    case Popped(_) => Mark(r)
    case Copying(_) => Copy(r)
    case OnCopy => FinishCopy(r)
    case Holding(_) => Release(r)
  }

  /** The next step of a task that is busy: there is no choice. */
  function TaskStepOf(k: Task, t: nat): Step
    requires k != Idle
  {
    match k
    case Parsing(_, w) => if w.rejected then Reject(t) else Accept(t)
    case Putting(_, w, last) => if last || Taken(w) then Choose(t) else Filter(t)
    case Testing(_, _, _) => Test(t)
    case Enqueuing(_, _, _) => Enqueue(t)
    case Dropping(_, _, _) => Drop(t)
  }

  lemma BusyConsumer(c: Config, s: State, r: nat)
    requires Shaped(c, s) && r < |s.consumers| && s.consumers[r] != Waiting
    ensures Enabled(c, s, ConsumerStepOf(s.consumers[r], r))
    ensures var s' := Apply(c, s, ConsumerStepOf(s.consumers[r], r)); Work(s') < Work(s) && s'.tasks == s.tasks
  {
    var s' := Apply(c, s, ConsumerStepOf(s.consumers[r], r));
    ConsumerMoves(s.consumers, r, s'.consumers[r]);
    assert s'.consumers == s.consumers[r := s'.consumers[r]] && s'.rings == s.rings;
  }

  lemma DequeueWorks(c: Config, s: State, r: nat)
    requires Shaped(c, s) && r < |s.rings| && s.rings[r] != [] && s.consumers[r] == Waiting
    ensures Work(Apply(c, s, Dequeue(r))) < Work(s) && Apply(c, s, Dequeue(r)).tasks == s.tasks
  {
    ConsumerMoves(s.consumers, r, Popped(s.rings[r][0]));
    RingMoves(s.rings, r, s.rings[r][1..]);
  }

  /** A step of a task brings no new put before it, and takes none away that it cannot pass. */
  lemma FacesSame(c: Config, s: State, t: nat, last: bool)
    requires Shaped(c, s) && t < |s.tasks| && s.tasks[t] != Idle && Enabled(c, s, TaskStepOf(s.tasks[t], t))
    ensures var s' := Apply(c, s, TaskStepOf(s.tasks[t], t));
            && |s'.tasks| == |s.tasks| && s'.tasks == s.tasks[t := s'.tasks[t]]
            && (Faces(c, s'.tasks[t], last) <==> Faces(c, s.tasks[t], last))
  {
  }

  /** The steps of a task other than the enqueue leave the rings alone. */
  lemma BusyTaskMoves(c: Config, s: State, t: nat)
    requires Shaped(c, s) && t < |s.tasks| && s.tasks[t] != Idle && !s.tasks[t].Enqueuing?
    requires s.tasks[t].Testing? ==>
               var r := Route(s.tasks[t].w, s.tasks[t].last); |s.rings[r]| < c.size[r] || !c.pcap
    ensures Enabled(c, s, TaskStepOf(s.tasks[t], t))
    ensures var s' := Apply(c, s, TaskStepOf(s.tasks[t], t));
            && s'.rings == s.rings && s'.consumers == s.consumers && |s'.tasks| == |s.tasks|
            && s'.tasks == s.tasks[t := s'.tasks[t]] && TaskWork(s'.tasks[t]) < TaskWork(s.tasks[t])
  {
  }

  lemma BusyTaskEnqueues(c: Config, s: State, t: nat)
    requires Shaped(c, s) && t < |s.tasks| && s.tasks[t].Enqueuing?
    ensures Work(Apply(c, s, Enqueue(t))) < Work(s)
  {
    var k := s.tasks[t];
    var r := Route(k.w, k.last);
    TaskMoves(s.tasks, t, After(k.m, k.w, k.last));
    RingMoves(s.rings, r, s.rings[r] + [k.m]);
  }

  lemma BusyTask(c: Config, s: State, t: nat)
    requires Shaped(c, s) && !Stuck(c, s) && t < |s.tasks| && s.tasks[t] != Idle
    requires forall r :: 0 <= r < |s.rings| ==> s.rings[r] == []
    ensures Enabled(c, s, TaskStepOf(s.tasks[t], t))
    ensures Work(Apply(c, s, TaskStepOf(s.tasks[t], t))) < Work(s)
  {
    var k := s.tasks[t];
    if k.Enqueuing? {
      BusyTaskEnqueues(c, s, t);
    } else {
      if k.Testing? {
        assert !Faces(c, k, k.last);
      }
      BusyTaskMoves(c, s, t);
      TaskMoves(s.tasks, t, Apply(c, s, TaskStepOf(k, t)).tasks[t]);
    }
  }

  lemma StaysFree(c: Config, s: State, t: nat)
    requires Shaped(c, s) && t < |s.tasks| && s.tasks[t] != Idle && Enabled(c, s, TaskStepOf(s.tasks[t], t))
    requires !Stuck(c, s)
    ensures !Stuck(c, Apply(c, s, TaskStepOf(s.tasks[t], t)))
  {
    var s' := Apply(c, s, TaskStepOf(s.tasks[t], t));
    FacesSame(c, s, t, false);
    FacesSame(c, s, t, true);
    forall u, last | 0 <= u < |s'.tasks|
      ensures !Faces(c, s'.tasks[u], last)
    {
      assert !Faces(c, s.tasks[u], last);
    }
  }

  /** A step that brings the tasks nearer to rest. */
  lemma Nearer(c: Config, s: State) returns (a: Step)
    requires Inv(c, s) && !Stuck(c, s) && !Quiet(s)
    ensures Enabled(c, s, a) && Inv(c, Apply(c, s, a)) && !Stuck(c, Apply(c, s, a)) && Work(Apply(c, s, a)) < Work(s)
  {
    if r :| 0 <= r < |s.consumers| && s.consumers[r] != Waiting {
      a := ConsumerStepOf(s.consumers[r], r);
      BusyConsumer(c, s, r);
    } else if r :| 0 <= r < |s.rings| && s.rings[r] != [] {
      a := Dequeue(r);
      DequeueWorks(c, s, r);
    } else {
      var t :| 0 <= t < |s.tasks| && s.tasks[t] != Idle;
      a := TaskStepOf(s.tasks[t], t);
      BusyTask(c, s, t);
      StaysFree(c, s, t);
    }
    StepKeepsInv(c, s, a);
  }

  lemma {:induction false} Rest(c: Config, s: State) returns (s': State)
    requires Inv(c, s) && !Stuck(c, s)
    ensures Leads(c, s, s') && Quiet(s')
    decreases Work(s)
  {
    LeadsNowhere(c, s);
    if Quiet(s) {
      return s;
    }
    var a := Nearer(c, s);
    var s1 := Do(c, s, s, a);
    s' := Rest(c, s1);
    LeadsOn(c, s, s1, s');
  }

  lemma StuckStep(c: Config, s: State, a: Step, t: nat, last: bool)
    requires Shaped(c, s) && Enabled(c, s, a) && t < |s.tasks| && Faces(c, s.tasks[t], last)
    ensures var s' := Apply(c, s, a); t < |s'.tasks| && Faces(c, s'.tasks[t], last)
  {
    if a == TaskStepOf(s.tasks[t], t) {
      FacesSame(c, s, t, last);
    } else {
      assert Apply(c, s, a).tasks[t] == s.tasks[t];
    }
  }

  /** A task with a ring before it that it cannot pass never comes to rest. */
  lemma {:induction false} StuckStays(c: Config, s: State, steps: seq<Step>, s': State, t: nat, last: bool)
    requires Inv(c, s) && Runs(c, s, steps, s') && t < |s.tasks| && Faces(c, s.tasks[t], last)
    ensures !Quiet(s')
    decreases |steps|
  {
    if steps != [] {
      StepKeepsInv(c, s, steps[0]);
      StuckStep(c, s, steps[0], t, last);
      StuckStays(c, Apply(c, s, steps[0]), steps[1..], s', t, last);
    } else {
      assert s'.tasks[t] != Idle;
    }
  }

  ghost predicate CanRest(c: Config, s: State) {
    exists s' :: Leads(c, s, s') && Quiet(s')
  }

  /** From every reachable state the tasks can come to rest, unless one of them has a put before it on a ring
      that can hold nothing while packets are read from a capture file. */
  lemma CanRestIffNotStuck(c: Config, s0: State, before: seq<Step>, s: State)
    requires Start(c, s0) && Runs(c, s0, before, s)
    ensures CanRest(c, s) <==> !Stuck(c, s)
  {
    StartInv(c, s0);
    RunKeepsInv(c, s0, before, s);
    if Stuck(c, s) {
      var t, last :| 0 <= t < |s.tasks| && Faces(c, s.tasks[t], last);
      forall s' | Leads(c, s, s')
        ensures !Quiet(s')
      {
        var steps :| Runs(c, s, steps, s');
        StuckStays(c, s, steps, s', t, last);
      }
    } else {
      var s' := Rest(c, s);
    }
  }

  /** So where no ring can be overrun, every buffer received so far can still be released. */
  lemma AllCanBeReleased(c: Config, s0: State, before: seq<Step>, s: State)
    requires Start(c, s0) && Runs(c, s0, before, s) && NoOverrun(c) && !Stuck(c, s)
    ensures exists s' :: Leads(c, s, s') && Quiet(s') && s'.pool.rc == map[] && s'.pool.received == s'.pool.released
  {
    StartInv(c, s0);
    RunKeepsInv(c, s0, before, s);
    var s' := Rest(c, s);
    var steps :| Runs(c, s, steps, s');
    RunsConcat(c, s0, before, s, steps, s');
    EveryBufferReleased(c, s0, before + steps, s');
  }
}
