/** The windowed packet statistics of statistic/ch_stat_pool.c and ch_stat_obj.c: six
    series of time slots, one for all packets and five by packet type, that start anew
    when the window is over. */
module Stat {

  const UINT64: nat := 0x1_0000_0000_0000_0000
  const UINT32: nat := 0x1_0000_0000
  const STAT_NUM: nat := 6

  datatype Entry = Entry(n: nat, v: nat)

  const ZERO := Entry(0, 0)

  type Series = seq<Entry>

  /** up and tv: the length of the window and of a slot, in seconds. */
  datatype Pool = Pool(baseTime: nat, up: nat, tv: nat, total: nat, bytes: nat, objs: seq<Series>)

  /** STAT_ENTRY_COUNT, with its cast. */
  function EntryCount(up: nat, tv: nat): nat {
    if tv == 0 then 0 else (up / tv) % UINT32
  }

  function Empty(num: nat): (s: Series)
    ensures |s| == num && forall i :: 0 <= i < num ==> s[i] == ZERO
  {
    seq(num, _ => ZERO)
  }

  predicate Shaped(p: Pool) {
    && p.tv > 0 && p.baseTime + p.up <= UINT64
    && |p.objs| == STAT_NUM && forall k :: 0 <= k < STAT_NUM ==> |p.objs[k]| == EntryCount(p.up, p.tv)
  }

  function Create(now: nat, up: nat, tv: nat): Pool {
    Pool(now, up, tv, 0, 0, seq(STAT_NUM, _ => Empty(EntryCount(up, tv))))
  }

  // -------------------------------------------------------------- operations

  /** ch_stat_obj_handle: nothing for an index beyond the series. */
  function Count(s: Series, index: nat, size: nat): (r: Series)
    ensures |r| == |s|
  {
    if index >= |s| then s else s[index := Entry(s[index].n + 1, s[index].v + size)]
  }

  function Index(p: Pool, time: nat): nat
    requires p.tv > 0 && time >= p.baseTime
  {
    ((time - p.baseTime) / p.tv) % UINT32
  }

  /** ch_stat_pool_handle. */
  function Handle(p: Pool, time: nat, size: nat, kind: int): Pool
    requires Shaped(p)
  {
    var q := p.(total := p.total + 1, bytes := p.bytes + size);
    if time < p.baseTime then q
    else
      var i := Index(p, time);
      var all := q.(objs := q.objs[0 := Count(q.objs[0], i, size)]);
      if kind <= 0 || kind >= STAT_NUM then all
      else all.(objs := all.objs[kind := Count(all.objs[kind], i, size)])
  }

  /** The test of line 175, an unsigned subtraction. */
  predicate Over(p: Pool, time: nat) {
    (time - p.baseTime) % UINT64 >= p.up
  }

  /** ch_stat_pool_update. */
  function Update(p: Pool, time: nat): Pool
    requires Shaped(p)
  {
    if !Over(p, time) then p
    else Pool(time, p.up, p.tv, 0, 0, seq(STAT_NUM, _ => Empty(EntryCount(p.up, p.tv))))
  }

  // ---------------------------------------------------------------- balance

  function SumN(s: Series): nat {
    if s == [] then 0 else SumN(s[..|s| - 1]) + s[|s| - 1].n
  }

  function SumV(s: Series): nat {
    if s == [] then 0 else SumV(s[..|s| - 1]) + s[|s| - 1].v
  }

  /** The slots of the first series add up to the totals. */
  predicate Exact(p: Pool)
    requires Shaped(p)
  {
    SumN(p.objs[0]) == p.total && SumV(p.objs[0]) == p.bytes
  }

  /** Slot i of the first series is the sum of the slots of the typed ones. */
  predicate Split(p: Pool, i: nat)
    requires Shaped(p) && i < |p.objs[0]|
  {
    var o := p.objs;
    && o[0][i].n == o[1][i].n + o[2][i].n + o[3][i].n + o[4][i].n + o[5][i].n
    && o[0][i].v == o[1][i].v + o[2][i].v + o[3][i].v + o[4][i].v + o[5][i].v
  }

  predicate AllSplit(p: Pool)
    requires Shaped(p)
  {
    forall i :: 0 <= i < |p.objs[0]| ==> Split(p, i)
  }

  lemma {:induction false} SumCount(s: Series, index: nat, size: nat)
    requires index < |s|
    ensures SumN(Count(s, index, size)) == SumN(s) + 1
    ensures SumV(Count(s, index, size)) == SumV(s) + size
  {
    var r, n := Count(s, index, size), |s| - 1;
    if index < n {
      SumCount(s[..n], index, size);
      assert r[..n] == Count(s[..n], index, size);
    } else {
      assert r[..n] == s[..n];
    }
  }

  lemma {:induction false} SumEmpty(num: nat)
    ensures SumN(Empty(num)) == 0 && SumV(Empty(num)) == 0
  {
    if num > 0 {
      assert Empty(num)[..num - 1] == Empty(num - 1);
      SumEmpty(num - 1);
    }
  }

  /** What a packet does to slot i of series k. */
  lemma Cell(p: Pool, time: nat, size: nat, kind: int, k: nat, i: nat)
    requires Shaped(p) && 1 <= kind < STAT_NUM && k < STAT_NUM && i < |p.objs[0]| && time >= p.baseTime
    ensures var o, o' := p.objs, Handle(p, time, size, kind).objs;
            && |o'| == STAT_NUM && |o'[k]| == |o[k]|
            && o'[k][i] == if i == Index(p, time) && (k == 0 || k == kind)
                           then Entry(o[k][i].n + 1, o[k][i].v + size) else o[k][i]
  {
  }

  lemma SlotSplits(p: Pool, time: nat, size: nat, kind: int, i: nat)
    requires Shaped(p) && 1 <= kind < STAT_NUM && i < |p.objs[0]| && time >= p.baseTime && Split(p, i)
    requires Shaped(Handle(p, time, size, kind))
    ensures Split(Handle(p, time, size, kind), i)
  {
    forall k | 0 <= k < STAT_NUM
      ensures Handle(p, time, size, kind).objs[k][i] ==
              if i == Index(p, time) && (k == 0 || k == kind)
              then Entry(p.objs[k][i].n + 1, p.objs[k][i].v + size) else p.objs[k][i]
    {
      Cell(p, time, size, kind, k, i);
    }
  }

  /** Packets of the types that the receive task reports keep every slot split by type. */
  lemma HandleSplits(p: Pool, time: nat, size: nat, kind: int)
    requires Shaped(p) && AllSplit(p) && 1 <= kind < STAT_NUM
    ensures Shaped(Handle(p, time, size, kind)) && AllSplit(Handle(p, time, size, kind))
  {
    HandleShape(p, time, size, kind);
    if time >= p.baseTime {
      forall i | 0 <= i < |p.objs[0]|
        ensures Split(Handle(p, time, size, kind), i)
      {
        assert Split(p, i);
        SlotSplits(p, time, size, kind, i);
      }
    } else {
      var q := Handle(p, time, size, kind);
      assert forall i :: 0 <= i < |p.objs[0]| ==> Split(p, i) && Split(q, i);
    }
  }

  /** The packet has no slot: it is only counted in the totals. */
  predicate Missed(p: Pool, time: nat)
    requires Shaped(p)
  {
    time < p.baseTime || Index(p, time) >= EntryCount(p.up, p.tv)
  }

  lemma HandleShape(p: Pool, time: nat, size: nat, kind: int)
    requires Shaped(p)
    ensures var q := Handle(p, time, size, kind);
            && Shaped(q) && q.baseTime == p.baseTime && q.up == p.up && q.tv == p.tv
            && q.total == p.total + 1 && q.bytes == p.bytes + size
            && q.objs[0] == if time < p.baseTime then p.objs[0] else Count(p.objs[0], Index(p, time), size)
  {
  }

  /** A packet keeps the balance exactly when it has a slot. */
  lemma HandleExact(p: Pool, time: nat, size: nat, kind: int)
    requires Shaped(p) && Exact(p)
    ensures Shaped(Handle(p, time, size, kind))
    ensures Exact(Handle(p, time, size, kind)) <==> !Missed(p, time)
  {
    HandleShape(p, time, size, kind);
    if !Missed(p, time) {
      SumCount(p.objs[0], Index(p, time), size);
    }
  }

  /** A new window is empty, and balanced. */
  lemma UpdateExact(p: Pool, time: nat)
    requires Shaped(p) && Exact(p) && time + p.up <= UINT64
    ensures var q := Update(p, time);
            && Shaped(q) && Exact(q) && q.up == p.up && q.tv == p.tv
            && (AllSplit(p) ==> AllSplit(q))
  {
    SumEmpty(EntryCount(p.up, p.tv));
  }

  // ----------------------------------------------------- slots and the window

  /** The slots cover the whole window. */
  predicate Covers(up: nat, tv: nat)
    requires tv > 0
  {
    up > 0 && up % tv == 0 && up / tv < UINT32
  }

  lemma CoversExactly(up: nat, tv: nat)
    requires tv > 0
    ensures Covers(up, tv) <==> up > 0 && EntryCount(up, tv) * tv == up
  {
    var d := up / tv;
    assert up == d * tv + up % tv;
    if EntryCount(up, tv) * tv == up {
      assert d % UINT32 <= d;
      MulMonotone(d % UINT32, d, tv);
    }
  }

  lemma MulMonotone(a: nat, b: nat, c: nat)
    requires a <= b && c > 0
    ensures a * c <= b * c && (a < b ==> a * c + c <= b * c)
  {
    if a < b {
      assert b * c == (a + 1) * c + (b - a - 1) * c;
    }
  }

  /** After an update every packet of that time has a slot, if the slots cover the window. */
  lemma NoneMissed(p: Pool, time: nat)
    requires Shaped(p) && time + p.up <= UINT64 && Covers(p.up, p.tv)
    ensures Shaped(Update(p, time)) && !Missed(Update(p, time), time)
  {
    OverWhen(p, time);
    var base := Update(p, time).baseTime;
    SlotOf(time - base, p.up, p.tv);
  }

  /** The unsigned test is right: the window is over when the time is outside it, on either side. */
  lemma OverWhen(p: Pool, time: nat)
    requires p.baseTime + p.up <= UINT64 && time + p.up <= UINT64 && p.up > 0
    ensures Over(p, time) <==> !(p.baseTime <= time < p.baseTime + p.up)
  {
    if time < p.baseTime {
      assert (time - p.baseTime) % UINT64 == UINT64 + time - p.baseTime;
    } else {
      assert (time - p.baseTime) % UINT64 == time - p.baseTime;
    }
  }

  lemma SlotOf(d: nat, up: nat, tv: nat)
    requires tv > 0 && d < up && Covers(up, tv)
    ensures (d / tv) % UINT32 == d / tv < EntryCount(up, tv)
  {
    var i, n := d / tv, up / tv;
    assert d == i * tv + d % tv && up == n * tv;
    if i >= n {
      MulMonotone(n, i, tv);
    }
  }

  // ------------------------------------------------- the receive tasks' runs

  datatype Packet = Packet(size: nat, kind: int)

  /** A receive task begins a run: it reads the time and updates the pool.  In the run it handles packets,
      all with the time that it read.  All tasks share one pool, and their calls interleave. */
  datatype Event = Begin(task: nat, time: nat) | Got(task: nat, packet: Packet)

  /** A packet that was handled, with its time. */
  datatype Seen = Seen(time: nat, size: nat, kind: int)

  /** times: what each task that has begun a run read.  log: the packets handled since the window began. */
  datatype System = System(pool: Pool, times: map<nat, nat>, log: seq<Seen>)

  function Opened(now: nat, up: nat, tv: nat): System {
    System(Create(now, up, tv), map[], [])
  }

  /** One of n tasks acts; it reports packets as one of the five types. */
  predicate Allowed(n: nat, s: System, e: Event) {
    && e.task < n
    && match e
       case Begin(_, time) => time + s.pool.up <= UINT64
       case Got(t, x) => t in s.times && 1 <= x.kind < STAT_NUM
  }

  function Apply(n: nat, s: System, e: Event): System
    requires Shaped(s.pool) && Allowed(n, s, e)
  {
    match e
    case Begin(t, time) =>
      System(Update(s.pool, time), s.times[t := time], if Over(s.pool, time) then [] else s.log)
    case Got(t, x) =>
      System(Handle(s.pool, s.times[t], x.size, x.kind), s.times, s.log + [Seen(s.times[t], x.size, x.kind)])
  }

  ghost predicate Runs(n: nat, s: System, events: seq<Event>, s': System)
    decreases |events|
  {
    if events == [] then s == s'
    else Shaped(s.pool) && Allowed(n, s, events[0]) && Runs(n, Apply(n, s, events[0]), events[1..], s')
  }

  lemma ApplyShape(n: nat, s: System, e: Event)
    requires Shaped(s.pool) && Allowed(n, s, e)
    ensures var p := Apply(n, s, e).pool; Shaped(p) && p.up == s.pool.up && p.tv == s.pool.tv
  {
    if e.Got? {
      HandleShape(s.pool, s.times[e.task], e.packet.size, e.packet.kind);
    }
  }

  /** The task that is the only one has a slot for its packets. */
  predicate InTime(s: System)
    requires Shaped(s.pool)
  {
    Exact(s.pool) && (0 in s.times ==> !Missed(s.pool, s.times[0]))
  }

  lemma {:induction false} OneTaskExact(s: System, events: seq<Event>, s': System)
    requires Shaped(s.pool) && InTime(s) && Covers(s.pool.up, s.pool.tv) && Runs(1, s, events, s')
    ensures Shaped(s'.pool) && Exact(s'.pool)
    decreases |events|
  {
    if events != [] {
      var e := events[0];
      ApplyShape(1, s, e);
      if e.Begin? {
        UpdateExact(s.pool, e.time);
        NoneMissed(s.pool, e.time);
      } else {
        HandleShape(s.pool, s.times[0], e.packet.size, e.packet.kind);
        HandleExact(s.pool, s.times[0], e.packet.size, e.packet.kind);
      }
      OneTaskExact(Apply(1, s, e), events[1..], s');
    }
  }

  lemma {:induction false} NoTaskExact(s: System, events: seq<Event>, s': System)
    requires Shaped(s.pool) && Exact(s.pool) && Runs(0, s, events, s')
    ensures Shaped(s'.pool) && Exact(s'.pool)
  {
    assert events == [];
  }

  lemma CreateExact(now: nat, up: nat, tv: nat)
    requires tv > 0 && now + up <= UINT64
    ensures var p := Create(now, up, tv); Shaped(p) && Exact(p) && AllSplit(p)
  {
    SumEmpty(EntryCount(up, tv));
  }

  /** After the events the totals and the slots differ. */
  ghost predicate Unbalances(n: nat, now: nat, up: nat, tv: nat, events: seq<Event>) {
    exists s :: Runs(n, Opened(now, up, tv), events, s) && Shaped(s.pool) && !Exact(s.pool)
  }

  /** A packet at the end of the last slot, but still in the window, is missed. */
  lemma LateMissed(n: nat, now: nat, up: nat, tv: nat)
    requires tv > 0 && now + up + up <= UINT64 && !Covers(up, tv) && n >= 1
    ensures Unbalances(n, now, up, tv, [Begin(0, now + EntryCount(up, tv) * tv), Got(0, Packet(1, 1))])
  {
    CreateExact(now, up, tv);
    var s := Opened(now, up, tv);
    var time := now + EntryCount(up, tv) * tv;
    LateTime(up, tv);
    if up > 0 {
      OverWhen(s.pool, time);
    }
    LateIndex(EntryCount(up, tv), tv);
    var s1 := Apply(n, s, Begin(0, time));
    UpdateExact(s.pool, time);
    assert Missed(s1.pool, time);
    LostAt(n, s, Begin(0, time), s1, Got(0, Packet(1, 1)));
  }

  /** A second event whose packet is missed. */
  lemma LostAt(n: nat, s: System, e: Event, s1: System, g: Event)
    requires Shaped(s.pool) && Allowed(n, s, e) && s1 == Apply(n, s, e) && Shaped(s1.pool) && Exact(s1.pool)
    requires g.Got? && Allowed(n, s1, g) && Missed(s1.pool, s1.times[g.task])
    ensures exists s' :: Runs(n, s, [e, g], s') && Shaped(s'.pool) && !Exact(s'.pool)
  {
    var s' := Apply(n, s1, g);
    HandleExact(s1.pool, s1.times[g.task], g.packet.size, g.packet.kind);
    assert [e, g][1..] == [g] && [g][1..] == [];
    assert Runs(n, s1, [g], s');
    assert Runs(n, s, [e, g], s');
  }

  /** The update of a second task falls between the update and a packet of the first. */
  lemma SecondTaskMisses(n: nat, now: nat, up: nat, tv: nat)
    requires tv > 0 && now + up + up <= UINT64 && Covers(up, tv) && n >= 2
    ensures Unbalances(n, now, up, tv, [Begin(0, now + up - 1), Begin(1, now + up), Got(0, Packet(1, 1))])
  {
    CreateExact(now, up, tv);
    var s, b, e, g := Opened(now, up, tv), Begin(0, now + up - 1), Begin(1, now + up), Got(0, Packet(1, 1));
    OverWhen(s.pool, now + up - 1);
    OverWhen(s.pool, now + up);
    var s1 := Apply(n, s, b);
    assert s1.pool == s.pool;
    UpdateExact(s1.pool, now + up);
    var s2 := Apply(n, s1, e);
    assert s2.times[0] < s2.pool.baseTime;
    LostAt(n, s1, e, s2, g);
    assert [b, e, g][1..] == [e, g];
  }

  lemma LateTime(up: nat, tv: nat)
    requires tv > 0 && !Covers(up, tv)
    ensures EntryCount(up, tv) * tv <= up && (up > 0 ==> EntryCount(up, tv) * tv < up)
  {
    CoversExactly(up, tv);
    var d := up / tv;
    assert up == d * tv + up % tv;
    MulMonotone(d % UINT32, d, tv);
  }

  lemma LateIndex(n: nat, tv: nat)
    requires tv > 0 && n < UINT32
    ensures (n * tv / tv) % UINT32 == n
  {
    assert n * tv / tv == n by {
      DivMul(n, tv);
    }
  }

  lemma DivMul(n: nat, tv: nat)
    requires tv > 0
    ensures n * tv / tv == n
  {
    var q := n * tv / tv;
    assert n * tv == q * tv + (n * tv) % tv;
    if q < n {
      MulMonotone(q, n, tv);
    } else if q > n {
      MulMonotone(n, q, tv);
    }
  }

  ghost predicate AlwaysExact(n: nat, now: nat, up: nat, tv: nat) {
    forall events, s :: Runs(n, Opened(now, up, tv), events, s) ==> Shaped(s.pool) && Exact(s.pool)
  }

  /** The slots add up to the totals after every run exactly when the slots cover the window and there is one
      receive task at most, or none at all.  Time need not be monotone. */
  lemma ExactIffOneTaskCovers(n: nat, now: nat, up: nat, tv: nat)
    requires tv > 0 && now + up + up <= UINT64
    ensures AlwaysExact(n, now, up, tv) <==> n == 0 || (n == 1 && Covers(up, tv))
  {
    CreateExact(now, up, tv);
    if n == 0 || (n == 1 && Covers(up, tv)) {
      forall events, s | Runs(n, Opened(now, up, tv), events, s)
        ensures Shaped(s.pool) && Exact(s.pool)
      {
        if n == 0 {
          NoTaskExact(Opened(now, up, tv), events, s);
        } else {
          OneTaskExact(Opened(now, up, tv), events, s);
        }
      }
    } else if Covers(up, tv) {
      SecondTaskMisses(n, now, up, tv);
    } else {
      LateMissed(n, now, up, tv);
    }
  }

  /** Every slot is the sum over the types after every run of any number of tasks, whatever the window
      and the times. */
  lemma {:induction false} RunSplits(n: nat, s: System, events: seq<Event>, s': System)
    requires Shaped(s.pool) && AllSplit(s.pool) && Runs(n, s, events, s')
    ensures Shaped(s'.pool) && AllSplit(s'.pool)
    decreases |events|
  {
    if events != [] {
      var e := events[0];
      ApplyShape(n, s, e);
      if e.Got? {
        HandleSplits(s.pool, s.times[e.task], e.packet.size, e.packet.kind);
      }
      RunSplits(n, Apply(n, s, e), events[1..], s');
    }
  }

  // ------------------------------------------------------ what a slot counts

  /** The packet falls into slot i of a window that begins at base. */
  predicate InSlot(x: Seen, base: nat, tv: nat, i: nat) {
    base + i * tv <= x.time < base + (i + 1) * tv
  }

  /** The packets of slot i, all of them for k == 0, else those of type k. */
  function Tally(log: seq<Seen>, base: nat, tv: nat, k: nat, i: nat): Entry {
    if log == [] then ZERO
    else
      var e, x := Tally(log[..|log| - 1], base, tv, k, i), log[|log| - 1];
      if InSlot(x, base, tv, i) && (k == 0 || x.kind == k) then Entry(e.n + 1, e.v + x.size) else e
  }

  function Sizes(log: seq<Seen>): nat {
    if log == [] then 0 else Sizes(log[..|log| - 1]) + log[|log| - 1].size
  }

  /** The totals and every slot of every series say what the packets since the window began were. */
  ghost predicate Means(p: Pool, log: seq<Seen>) {
    && Shaped(p) && p.total == |log| && p.bytes == Sizes(log)
    && forall k, i :: 0 <= k < STAT_NUM && 0 <= i < |p.objs[k]| ==> p.objs[k][i] == Tally(log, p.baseTime, p.tv, k, i)
  }

  lemma SlotUnique(d: nat, tv: nat, i: nat)
    requires tv > 0
    ensures d / tv == i <==> i * tv <= d < (i + 1) * tv
  {
    var q := d / tv;
    assert d == q * tv + d % tv;
    assert (q + 1) * tv == q * tv + tv && (i + 1) * tv == i * tv + tv;
    if q < i {
      MulMonotone(q, i, tv);
    } else if i < q {
      MulMonotone(i, q, tv);
    }
  }

  /** The packet is so many slots past the window's beginning that its 32-bit index is that of an early slot. */
  predicate Wraps(p: Pool, time: nat)
    requires Shaped(p)
  {
    time >= p.baseTime && (time - p.baseTime) / p.tv >= UINT32 && Index(p, time) < EntryCount(p.up, p.tv)
  }

  /** The slot that a packet is counted in is the one that it falls into. */
  lemma SlotMeans(p: Pool, time: nat, size: nat, kind: int, i: nat)
    requires Shaped(p) && i < EntryCount(p.up, p.tv)
    ensures InSlot(Seen(time, size, kind), p.baseTime, p.tv, i) <==>
            time >= p.baseTime && (time - p.baseTime) / p.tv == i
    ensures !Wraps(p, time) ==>
              (InSlot(Seen(time, size, kind), p.baseTime, p.tv, i) <==> time >= p.baseTime && Index(p, time) == i)
  {
    MulMonotone(0, i, p.tv);
    if time >= p.baseTime {
      SlotUnique(time - p.baseTime, p.tv, i);
    }
  }

  /** A packet keeps the meaning exactly if its index does not wrap: one before the window or past its
      last slot is in the totals alone. */
  lemma HandleMeans(p: Pool, log: seq<Seen>, time: nat, size: nat, kind: int)
    requires Means(p, log) && 1 <= kind < STAT_NUM
    ensures Means(Handle(p, time, size, kind), log + [Seen(time, size, kind)]) <==> !Wraps(p, time)
  {
    var x := Seen(time, size, kind);
    var q, log' := Handle(p, time, size, kind), log + [x];
    HandleShape(p, time, size, kind);
    assert log'[..|log|] == log;
    if Wraps(p, time) {
      var i := Index(p, time);
      Cell(p, time, size, kind, 0, i);
      SlotMeans(p, time, size, kind, i);
      assert q.objs[0][i] != Tally(log', q.baseTime, q.tv, 0, i);
    } else {
      forall k, i | 0 <= k < STAT_NUM && 0 <= i < |q.objs[k]|
        ensures q.objs[k][i] == Tally(log', q.baseTime, q.tv, k, i)
      {
        SlotMeans(p, time, size, kind, i);
        if time >= p.baseTime {
          Cell(p, time, size, kind, k, i);
        }
      }
    }
  }

  lemma UpdateMeans(p: Pool, log: seq<Seen>, time: nat)
    requires Means(p, log) && time + p.up <= UINT64
    ensures Means(Update(p, time), if Over(p, time) then [] else log)
  {
  }

  lemma OpenedMeans(now: nat, up: nat, tv: nat)
    requires tv > 0 && now + up <= UINT64
    ensures Means(Opened(now, up, tv).pool, [])
  {
  }

  lemma StepMeans(n: nat, s: System, e: Event)
    requires Means(s.pool, s.log) && Allowed(n, s, e)
    requires e.Got? ==> !Wraps(s.pool, s.times[e.task])
    ensures var s' := Apply(n, s, e); Means(s'.pool, s'.log) && s'.pool.up == s.pool.up && s'.pool.tv == s.pool.tv
  {
    ApplyShape(n, s, e);
    match e
    case Begin(_, time) => UpdateMeans(s.pool, s.log, time);
    case Got(t, x) => HandleMeans(s.pool, s.log, s.times[t], x.size, x.kind);
  }

  /** All times that were read lie within 2^32 slots. */
  predicate Near(s: System, lo: nat) {
    && s.pool.tv > 0
    && lo <= s.pool.baseTime
    && forall t :: t in s.times ==> lo <= s.times[t] < lo + UINT32 * s.pool.tv
  }

  predicate ReadNear(events: seq<Event>, lo: nat, tv: nat) {
    forall i :: 0 <= i < |events| && events[i].Begin? ==> lo <= events[i].time < lo + UINT32 * tv
  }

  lemma SlotFits(d: nat, tv: nat)
    requires tv > 0 && d < UINT32 * tv
    ensures d / tv < UINT32
  {
    assert d == d / tv * tv + d % tv;
    if d / tv >= UINT32 {
      MulMonotone(UINT32, d / tv, tv);
    }
  }

  /** After every run of any number of tasks, slot i of series k holds the number and the bytes of just the
      packets of that type, handled since the window began, whose time lies in its i-th interval; the totals
      hold all packets since then.  The times that were read must lie within 2^32 slots. */
  lemma {:induction false} RunMeans(n: nat, s: System, events: seq<Event>, s': System, lo: nat)
    requires Means(s.pool, s.log) && Near(s, lo) && ReadNear(events, lo, s.pool.tv) && Runs(n, s, events, s')
    ensures Means(s'.pool, s'.log)
    decreases |events|
  {
    if events != [] {
      var e := events[0];
      if e.Got? && s.times[e.task] >= s.pool.baseTime {
        SlotFits(s.times[e.task] - s.pool.baseTime, s.pool.tv);
      }
      StepMeans(n, s, e);
      RunMeans(n, Apply(n, s, e), events[1..], s', lo);
    }
  }

  /** For a single task it is enough that the slots cover the window. */
  lemma {:induction false} OneTaskMeans(s: System, events: seq<Event>, s': System)
    requires Means(s.pool, s.log) && Covers(s.pool.up, s.pool.tv) && Runs(1, s, events, s')
    requires 0 in s.times ==> s.pool.baseTime <= s.times[0] < s.pool.baseTime + s.pool.up
    ensures Means(s'.pool, s'.log)
    decreases |events|
  {
    if events != [] {
      var e := events[0];
      if e.Begin? {
        OverWhen(s.pool, e.time);
      } else {
        SlotOf(s.times[0] - s.pool.baseTime, s.pool.up, s.pool.tv);
        HandleShape(s.pool, s.times[0], e.packet.size, e.packet.kind);
      }
      StepMeans(1, s, e);
      OneTaskMeans(Apply(1, s, e), events[1..], s');
    }
  }

  // --------------------------------------------------- the statistics task

  /** A turn of the statistics task handles its packet before it updates.  The entry goes back to its pool
      between the two, and the update reads its time again: by then a receive task may have filled it anew. */
  function TaskTurn(p: Pool, time: nat, size: nat, kind: int, reread: nat): Pool
    requires Shaped(p)
  {
    HandleShape(p, time, size, kind);
    Update(Handle(p, time, size, kind), reread)
  }

  /** The balance survives a turn exactly if the packet has a slot or the time that is read again ends the window. */
  lemma TaskTurnExact(p: Pool, time: nat, size: nat, kind: int, reread: nat)
    requires Shaped(p) && Exact(p) && reread + p.up <= UINT64
    ensures Shaped(TaskTurn(p, time, size, kind, reread))
    ensures Exact(TaskTurn(p, time, size, kind, reread)) <==> !Missed(p, time) || Over(p, reread)
  {
    HandleShape(p, time, size, kind);
    HandleExact(p, time, size, kind);
    SumEmpty(EntryCount(p.up, p.tv));
  }

  /** If the time is still the same, the balance holds, but a packet outside the window, which opens the next
      one, is then counted nowhere. */
  lemma TaskTurnUndisturbed(p: Pool, time: nat, size: nat, kind: int)
    requires Shaped(p) && Exact(p) && time + p.up <= UINT64 && Covers(p.up, p.tv)
    ensures Shaped(TaskTurn(p, time, size, kind, time)) && Exact(TaskTurn(p, time, size, kind, time))
    ensures TaskTurn(p, time, size, kind, time).total == if p.baseTime <= time < p.baseTime + p.up then p.total + 1 else 0
  {
    HandleShape(p, time, size, kind);
    OverWhen(p, time);
    OverWhen(Handle(p, time, size, kind), time);
    TaskTurnExact(p, time, size, kind, time);
    if p.baseTime <= time < p.baseTime + p.up {
      SlotOf(time - p.baseTime, p.up, p.tv);
    }
  }

  /** A packet past the window, whose entry was filled anew with a time inside it: the balance is lost. */
  lemma TaskTurnDisturbed(now: nat, up: nat, tv: nat)
    requires tv > 0 && now + up + up <= UINT64 && Covers(up, tv)
    ensures var p := Create(now, up, tv);
            Shaped(p) && !Exact(TaskTurn(p, now + up, 1, 1, now))
  {
    CreateExact(now, up, tv);
    var p := Create(now, up, tv);
    OverWhen(p, now);
    CoversExactly(up, tv);
    LateIndex(EntryCount(up, tv), tv);
    assert Missed(p, now + up);
    TaskTurnExact(p, now + up, 1, 1, now);
  }

  // -------------------------------------------------------------- the code

  class StatPool {
    var baseTime: nat
    var up: nat
    var tv: nat
    var total: nat
    var bytes: nat
    var objs: seq<Series>

    ghost function View(): Pool
      reads this
    {
      Pool(baseTime, up, tv, total, bytes, objs)
    }

    /** ch_stat_pool_create for a new file. */
    constructor (now: nat, up: nat, tv: nat)
      requires tv > 0 && now + up <= UINT64
      ensures View() == Create(now, up, tv) && Shaped(View())
    {
      baseTime, total, bytes := now, 0, 0;
      this.up, this.tv := up, tv;
      objs := seq(STAT_NUM, _ => Empty(EntryCount(up, tv)));
    }

    /** ch_stat_obj_handle. */
    method ObjHandle(k: nat, index: nat, size: nat)
      requires k < |objs|
      modifies this`objs
      ensures objs == old(objs)[k := Count(old(objs)[k], index, size)]
    {
      if |objs[k]| <= index {
        assert objs == objs[k := objs[k]];
        return;
      }
      var e := objs[k][index];
      objs := objs[k := objs[k][index := Entry(e.n + 1, e.v + size)]];
    }

    /** ch_stat_pool_handle. */
    method HandlePacket(time: nat, size: nat, kind: int)
      requires Shaped(View())
      modifies this`total, this`bytes, this`objs
      ensures View() == Handle(old(View()), time, size, kind)
    {
      total := total + 1;
      bytes := bytes + size;
      if time < baseTime {
        return;
      }
      var index := ((time - baseTime) / tv) % UINT32;
      ObjHandle(0, index, size);
      if kind <= 0 || kind >= STAT_NUM {
        return;
      }
      ObjHandle(kind, index, size);
    }

    /** ch_stat_obj_reset, entry by entry. */
    method ObjReset(k: nat)
      requires k < |objs|
      modifies this`objs
      ensures objs == old(objs)[k := Empty(|old(objs)[k]|)]
    {
      ghost var num := |objs[k]|;
      var s := objs[k];
      var i := 0;
      while i < |s|
        invariant 0 <= i <= |s| == num && forall j :: 0 <= j < i ==> s[j] == ZERO
      {
        s := s[i := ZERO];
        i := i + 1;
      }
      assert s == Empty(num);
      objs := objs[k := s];
    }

    /** ch_stat_pool_update. */
    method UpdateWindow(time: nat)
      requires Shaped(View()) && time < UINT64
      modifies this
      ensures View() == Update(old(View()), time)
    {
      if (time - baseTime) % UINT64 < up {
        return;
      }
      baseTime, total, bytes := time, 0, 0;
      ghost var num := EntryCount(up, tv);
      var k := 0;
      while k < STAT_NUM
        invariant 0 <= k <= STAT_NUM == |objs|
        invariant forall j :: 0 <= j < k ==> objs[j] == Empty(num)
        invariant forall j :: k <= j < STAT_NUM ==> |objs[j]| == num
        invariant baseTime == time && total == 0 && bytes == 0 && up == old(up) && tv == old(tv)
      {
        ObjReset(k);
        k := k + 1;
      }
      assert objs == seq(STAT_NUM, _ => Empty(num));
    }
  }
}
