/** The table of monitored sessions of SessionMonitor/ch_session_monitor.c: items in an
    array, added behind the last used one, found by best match or by id, and moved
    together when one is deleted. */
module Monitor {
  import opened Common

  const UINT64_MAX: nat := 0xffff_ffff_ffff_ffff
  const ID_INIT_VALUE: nat := 12345
  const FULL: nat := 1

  datatype Status = Init | Start | Stop

  /** kind: the item types MON_ITEM_TYPE_*, from 0 (IP) to 3 (SESSION). */
  const IP := 0
  const PORT := 1
  const IP_PORT := 2
  const SESSION := 3

  datatype Key = Key(srcIp: nat, dstIp: nat, srcPort: nat, dstPort: nat)

  datatype Item = Item(id: nat, key: Key, timeTv: nat, startTime: nat, lastTime: nat, kind: int, status: Status)

  function Reversed(k: Key): Key {
    Key(k.dstIp, k.srcIp, k.dstPort, k.srcPort)
  }

  /** The keys that the four add functions let through: what the type does not use is
      zero, and what it uses is not. */
  predicate KeyOk(kind: int, k: Key) {
    match kind
    case 0 => k.dstIp != 0 && k == Key(0, k.dstIp, 0, 0)
    case 1 => k.dstPort != 0 && k == Key(0, 0, 0, k.dstPort)
    case 2 => k.dstIp != 0 && k.dstPort != 0 && k == Key(0, k.dstIp, 0, k.dstPort)
    case 3 => k.srcIp != 0 && k.dstIp != 0 && k.srcPort != 0 && k.dstPort != 0
    case _ => false
  }

  /** is_match. */
  predicate IsMatch(item: Item, q: Key) {
    match item.kind
    case 0 => item.key.dstIp == q.srcIp || item.key.dstIp == q.dstIp
    case 1 => item.key.dstPort == q.srcPort || item.key.dstPort == q.dstPort
    case 2 => || (item.key.dstIp == q.srcIp && item.key.dstPort == q.srcPort)
              || (item.key.dstIp == q.dstIp && item.key.dstPort == q.dstPort)
    case 3 => item.key == q || item.key == Reversed(q)
    case _ => false
  }

  predicate Hit(item: Item, q: Key) {
    item.status != Stop && IsMatch(item, q)
  }

  /** The same monitored thing; the two directions of a session are one. */
  predicate Same(item: Item, kind: int, k: Key) {
    item.kind == kind && (item.key == k || (kind == SESSION && item.key == Reversed(k)))
  }

  /** The used items in order, the next id and the size of the array. */
  datatype Table = Table(items: seq<Item>, nextId: nat, capacity: nat)

  predicate ItemOk(item: Item, nextId: nat) {
    item.status != Init && KeyOk(item.kind, item.key) && ID_INIT_VALUE <= item.id < nextId
  }

  /** The used items have ids that were given out, strictly increasing. */
  predicate ItemsOk(items: seq<Item>, nextId: nat) {
    && (forall i :: 0 <= i < |items| ==> ItemOk(items[i], nextId))
    && (forall i, j :: 0 <= i < j < |items| ==> items[i].id < items[j].id)
  }

  predicate Ok(t: Table) {
    |t.items| <= t.capacity && ID_INIT_VALUE <= t.nextId < UINT64_MAX && ItemsOk(t.items, t.nextId)
  }

  // ------------------------------------------------------------------ lookup

  /** r is the first of the hits of the highest type. */
  predicate IsBest(items: seq<Item>, q: Key, r: Option<nat>) {
    match r
    case None => forall i :: 0 <= i < |items| ==> !Hit(items[i], q)
    case Some(b) =>
      && b < |items| && Hit(items[b], q)
      && (forall i :: 0 <= i < |items| && Hit(items[i], q) ==> items[i].kind <= items[b].kind)
      && (forall i :: 0 <= i < b && Hit(items[i], q) ==> items[i].kind < items[b].kind)
  }

  /** The first running item for the same thing. */
  function FirstSame(items: seq<Item>, kind: int, k: Key, i: nat): (r: Option<nat>)
    requires i <= |items|
    ensures r.Some? ==> i <= r.value < |items| && items[r.value].status != Stop && Same(items[r.value], kind, k)
    ensures forall j :: i <= j < (if r.Some? then r.value else |items|) ==>
              !(items[j].status != Stop && Same(items[j], kind, k))
    decreases |items| - i
  {
    if i == |items| then None
    else if items[i].status != Stop && Same(items[i], kind, k) then Some(i)
    else FirstSame(items, kind, k, i + 1)
  }

  function IndexOf(items: seq<Item>, id: nat, i: nat): (r: Option<nat>)
    requires i <= |items|
    ensures r.Some? ==> i <= r.value < |items| && items[r.value].id == id
    ensures r.None? ==> forall j :: i <= j < |items| ==> items[j].id != id
    decreases |items| - i
  {
    if i == |items| then None else if items[i].id == id then Some(i) else IndexOf(items, id, i + 1)
  }

  /** A hit for the key of an item to add is of no higher type, and of the same type only for the same thing. */
  lemma HitsOfKey(item: Item, kind: int, k: Key)
    requires KeyOk(item.kind, item.key) && KeyOk(kind, k)
    ensures IsMatch(item, k) ==> item.kind <= kind
    ensures item.kind == kind ==> (IsMatch(item, k) <==> Same(item, kind, k))
  {
  }

  /** Best match, asked for a key, is an exact search for a duplicate. */
  lemma BestIsDuplicate(items: seq<Item>, kind: int, k: Key, best: Option<nat>)
    requires KeyOk(kind, k) && (forall i :: 0 <= i < |items| ==> KeyOk(items[i].kind, items[i].key))
    requires IsBest(items, k, best)
    ensures FirstSame(items, kind, k, 0) == if best.Some? && items[best.value].kind == kind then best else None
  {
    forall i | 0 <= i < |items|
      ensures IsMatch(items[i], k) ==> items[i].kind <= kind
      ensures items[i].kind == kind ==> (IsMatch(items[i], k) <==> Same(items[i], kind, k))
    {
      HitsOfKey(items[i], kind, k);
    }
    var f := FirstSame(items, kind, k, 0);
    if f.Some? {
      assert Hit(items[f.value], k);
    }
  }

  /** One end of a conversation. */
  datatype End = End(ip: nat, port: nat)

  function Ends(q: Key): multiset<End> {
    multiset{End(q.srcIp, q.srcPort), End(q.dstIp, q.dstPort)}
  }

  /** What an item watches, told by the two ends of the conversation and not by its direction: an address, a port or
      an end that is one of them, or both ends at once. */
  lemma MatchByEnds(item: Item, q: Key)
    ensures item.kind == IP ==> (IsMatch(item, q) <==> exists e :: e in Ends(q) && e.ip == item.key.dstIp)
    ensures item.kind == PORT ==> (IsMatch(item, q) <==> exists e :: e in Ends(q) && e.port == item.key.dstPort)
    ensures item.kind == IP_PORT ==> (IsMatch(item, q) <==> End(item.key.dstIp, item.key.dstPort) in Ends(q))
    ensures item.kind == SESSION ==> (IsMatch(item, q) <==> Ends(item.key) == Ends(q))
    ensures !(IP <= item.kind <= SESSION) ==> !IsMatch(item, q)
  {
    var a, b := End(q.srcIp, q.srcPort), End(q.dstIp, q.dstPort);
    assert a in Ends(q) && b in Ends(q);
    assert forall e :: e in Ends(q) ==> e == a || e == b;
    if item.kind == SESSION {
      SameEnds(item.key, q);
    }
  }

  lemma SameEnds(k: Key, q: Key)
    ensures Ends(k) == Ends(q) <==> k == q || k == Reversed(q)
  {
    var a, b := End(q.srcIp, q.srcPort), End(q.dstIp, q.dstPort);
    var c, d := End(k.srcIp, k.srcPort), End(k.dstIp, k.dstPort);
    assert Ends(q)[a] >= 1 && Ends(q)[b] >= 1 && Ends(k)[c] >= 1 && Ends(k)[d] >= 1;
    if Ends(k) == Ends(q) {
      assert c in Ends(q) && d in Ends(q);
      if c == d {
        assert Ends(k)[c] == 2;
      }
    }
    if k == Reversed(q) {
      assert Ends(k) == Ends(q);
    }
  }

  /** The direction of a packet does not matter to any item. */
  lemma MatchBothWays(item: Item, q: Key)
    ensures IsMatch(item, q) <==> IsMatch(item, Reversed(q))
  {
  }

  // -------------------------------------------------------------- operations

  /** _item_add; `now` is the clock in seconds. */
  function Add(t: Table, kind: int, k: Key, timeTv: nat, now: nat): (Table, nat) {
    var dup := FirstSame(t.items, kind, k, 0);
    if dup.Some? then (t, t.items[dup.value].id)
    else if |t.items| == t.capacity then (t, FULL)
    else
      (t.(items := t.items + [Item(t.nextId, k, timeTv, now, now, kind, Start)], nextId := (t.nextId + 1) % UINT64_MAX),
       t.nextId)
  }

  function Delete(t: Table, id: nat): Table {
    match IndexOf(t.items, id, 0)
    case None => t
    case Some(i) => t.(items := t.items[..i] + t.items[i + 1..])
  }

  function SetStatus(t: Table, id: nat, status: Status): Table {
    match IndexOf(t.items, id, 0)
    case None => t
    case Some(i) => t.(items := t.items[i := t.items[i].(status := status)])
  }

  datatype Op =
    | OpAdd(kind: int, key: Key, timeTv: nat, now: nat)
    | OpDelete(id: nat)
    | OpStop(id: nat)
    | OpRestart(id: nat)

  function Apply(t: Table, op: Op): Table {
    match op
    case OpAdd(kind, k, timeTv, now) => if KeyOk(kind, k) then Add(t, kind, k, timeTv, now).0 else t
    case OpDelete(id) => Delete(t, id)
    case OpStop(id) => SetStatus(t, id, Stop)
    case OpRestart(id) => SetStatus(t, id, Start)
  }

  function Run(t: Table, ops: seq<Op>): Table
    decreases |ops|
  {
    if ops == [] then t else Run(Apply(t, ops[0]), ops[1..])
  }

  lemma NoWrap(id: nat)
    requires id + 1 < UINT64_MAX
    ensures (id + 1) % UINT64_MAX == id + 1
  {
  }

  lemma AddKeeps(t: Table, kind: int, k: Key, timeTv: nat, now: nat)
    requires Ok(t) && KeyOk(kind, k) && t.nextId + 1 < UINT64_MAX
    ensures var t' := Add(t, kind, k, timeTv, now).0;
            Ok(t') && t'.capacity == t.capacity && t.nextId <= t'.nextId <= t.nextId + 1
  {
    NoWrap(t.nextId);
  }

  lemma SetStatusKeeps(t: Table, id: nat, status: Status)
    requires Ok(t) && status != Init
    ensures Ok(SetStatus(t, id, status))
  {
  }

  lemma RemovedOk(items: seq<Item>, nextId: nat, i: nat)
    requires ItemsOk(items, nextId) && i < |items|
    ensures ItemsOk(items[..i] + items[i + 1..], nextId)
  {
    var left := items[..i] + items[i + 1..];
    assert forall j :: 0 <= j < i ==> left[j] == items[j];
    assert forall j :: i <= j < |left| ==> left[j] == items[j + 1];
  }

  lemma DeleteKeeps(t: Table, id: nat)
    requires Ok(t)
    ensures Ok(Delete(t, id))
  {
    var r := IndexOf(t.items, id, 0);
    if r.Some? {
      RemovedOk(t.items, t.nextId, r.value);
    }
  }

  lemma StepKeeps(t: Table, op: Op)
    requires Ok(t) && t.nextId + 1 < UINT64_MAX
    ensures Ok(Apply(t, op)) && t.nextId <= Apply(t, op).nextId <= t.nextId + 1
  {
    match op
    case OpAdd(kind, k, timeTv, now) =>
      if KeyOk(kind, k) {
        AddKeeps(t, kind, k, timeTv, now);
      }
    case OpDelete(id) => DeleteKeeps(t, id);
    case OpStop(id) => SetStatusKeeps(t, id, Stop);
    case OpRestart(id) => SetStatusKeeps(t, id, Start);
  }

  /** As long as the ids have not wrapped around: used items in front, ids strictly increasing,
      whatever the operations. */
  lemma {:induction false} RunKeeps(t: Table, ops: seq<Op>)
    requires Ok(t) && t.nextId + |ops| < UINT64_MAX
    ensures Ok(Run(t, ops))
    decreases |ops|
  {
    if ops != [] {
      StepKeeps(t, ops[0]);
      RunKeeps(Apply(t, ops[0]), ops[1..]);
    }
  }

  predicate Has(items: seq<Item>, id: nat) {
    exists i :: 0 <= i < |items| && items[i].id == id
  }

  lemma RemovedHas(items: seq<Item>, i: nat, other: nat)
    requires i < |items| && items[i].id != other
    ensures Has(items[..i] + items[i + 1..], other) <==> Has(items, other)
  {
    var left := items[..i] + items[i + 1..];
    if Has(items, other) {
      var j :| 0 <= j < |items| && items[j].id == other;
      assert left[if j < i then j else j - 1] == items[j];
    }
    if Has(left, other) {
      var j :| 0 <= j < |left| && left[j].id == other;
      assert left[j] == items[if j < i then j else j + 1];
    }
  }

  /** A deleted id is gone, and the others stay. */
  lemma DeleteRemoves(t: Table, id: nat, other: nat)
    requires Ok(t)
    ensures !Has(Delete(t, id).items, id)
    ensures other != id ==> (Has(Delete(t, id).items, other) <==> Has(t.items, other))
  {
    var items, left := t.items, Delete(t, id).items;
    var r := IndexOf(items, id, 0);
    if r.Some? {
      assert forall j :: 0 <= j < |left| ==> left[j] == items[if j < r.value then j else j + 1];
      if other != id {
        RemovedHas(items, r.value, other);
      }
    }
  }

  /** A delete takes away the item with the id and changes no other. */
  lemma DeleteKeepsOthers(t: Table, id: nat, x: Item)
    requires Ok(t)
    ensures x in Delete(t, id).items <==> x in t.items && x.id != id
  {
    var items, left := t.items, Delete(t, id).items;
    var r := IndexOf(items, id, 0);
    if r.Some? {
      assert forall j :: 0 <= j < |left| ==> left[j] == items[if j < r.value then j else j + 1];
      if x in items && x.id != id {
        var j :| 0 <= j < |items| && items[j] == x;
        assert left[if j < r.value then j else j - 1] == x;
      }
    }
  }

  /** Stop and restart change the status of the item with the id and nothing else. */
  lemma StatusAlone(t: Table, id: nat, status: Status)
    requires Ok(t)
    ensures var t' := SetStatus(t, id, status);
            && t'.nextId == t.nextId && |t'.items| == |t.items|
            && forall i :: 0 <= i < |t.items| ==>
                 t'.items[i] == if t.items[i].id == id then t.items[i].(status := status) else t.items[i]
  {
  }

  /** The result of an add says what happened: an id of a running item for the same thing, FULL, or a new id. */
  lemma AddAnswer(t: Table, kind: int, k: Key, timeTv: nat, now: nat)
    requires Ok(t)
    ensures var (t', id) := Add(t, kind, k, timeTv, now);
      && (id == t.nextId <==> t' != t)
      && (id == FULL <==> |t.items| == t.capacity
                          && forall i :: 0 <= i < |t.items| ==> t.items[i].status == Stop || !Same(t.items[i], kind, k))
      && ((exists i :: 0 <= i < |t.items| && t.items[i].id == id) <==>
          (exists i :: 0 <= i < |t.items| && t.items[i].status != Stop && Same(t.items[i], kind, k)))
      && (t' != t ==> forall i :: 0 <= i < |t.items| ==> t.items[i].id < id)
      && (t' != t ==> t'.items == t.items + [Item(id, k, timeTv, now, now, kind, Start)])
  {
    var (t', id) := Add(t, kind, k, timeTv, now);
    if t' != t || id == t.nextId {
      assert id == t.nextId ==> FirstSame(t.items, kind, k, 0).None?;
      assert |t.items| < t.capacity ==> |t'.items| == |t.items| + 1;
    }
  }

  /** Adding the same thing again, a session in either direction, gives the same id and changes nothing. */
  lemma AddTwice(t: Table, kind: int, k: Key, k': Key, timeTv: nat, now: nat, timeTv': nat, now': nat)
    requires Ok(t) && KeyOk(kind, k) && (k' == k || (kind == SESSION && k' == Reversed(k)))
    requires Add(t, kind, k, timeTv, now).1 != FULL
    ensures var (t1, id) := Add(t, kind, k, timeTv, now); Add(t1, kind, k', timeTv', now') == (t1, id)
  {
    var (t1, id) := Add(t, kind, k, timeTv, now);
    assert forall item: Item :: Same(item, kind, k') <==> Same(item, kind, k);
    SameFirst(t1.items, kind, k, k', 0);
    var dup := FirstSame(t.items, kind, k, 0);
    if dup.None? {
      assert t1.items[|t.items|].id == id && Same(t1.items[|t.items|], kind, k);
      var f := FirstSame(t1.items, kind, k, 0);
      assert f.Some? && f.value == |t.items| by {
        assert forall i :: 0 <= i < |t.items| ==> t1.items[i] == t.items[i];
      }
    }
  }

  lemma {:induction false} SameFirst(items: seq<Item>, kind: int, k: Key, k': Key, i: nat)
    requires i <= |items| && forall item: Item :: Same(item, kind, k') <==> Same(item, kind, k)
    ensures FirstSame(items, kind, k', i) == FirstSame(items, kind, k, i)
    decreases |items| - i
  {
    if i < |items| {
      SameFirst(items, kind, k, k', i + 1);
    }
  }

  // ---------------------------------------------------- one running item for a thing

  /** Both items run, and are for the same thing. */
  predicate Clash(a: Item, b: Item) {
    a.status != Stop && b.status != Stop && Same(a, b.kind, b.key)
  }

  predicate Unique(items: seq<Item>) {
    forall i, j :: 0 <= i < j < |items| ==> !Clash(items[i], items[j])
  }

  lemma ClashSymmetric(a: Item, b: Item)
    ensures Clash(a, b) <==> Clash(b, a)
  {
  }

  /** A restart of an item while another one for the same thing runs. */
  predicate Revives(t: Table, op: Op) {
    op.OpRestart? &&
    match IndexOf(t.items, op.id, 0)
    case None => false
    case Some(i) => exists j :: 0 <= j < |t.items| && j != i && Clash(t.items[j], t.items[i].(status := Start))
  }

  lemma RestartUnique(items: seq<Item>, i: nat)
    requires Unique(items) && i < |items|
    ensures var items' := items[i := items[i].(status := Start)];
            Unique(items') <==> forall j :: 0 <= j < |items| && j != i ==> !Clash(items[j], items'[i])
  {
    var items' := items[i := items[i].(status := Start)];
    if Unique(items') {
      forall j | 0 <= j < |items| && j != i
        ensures !Clash(items[j], items'[i])
      {
        ClashSymmetric(items[j], items'[i]);
        assert if j < i then !Clash(items'[j], items'[i]) else !Clash(items'[i], items'[j]);
      }
    } else {
      var a, b :| 0 <= a < b < |items| && Clash(items'[a], items'[b]);
      ClashSymmetric(items'[a], items'[b]);
      assert !Clash(items[a], items[b]);
      assert Clash(items[if a == i then b else a], items'[i]);
    }
  }

  lemma OthersUnique(t: Table, op: Op)
    requires Unique(t.items) && !op.OpRestart?
    ensures Unique(Apply(t, op).items)
  {
    var items, items' := t.items, Apply(t, op).items;
    if op.OpDelete? && IndexOf(items, op.id, 0).Some? {
      var i := IndexOf(items, op.id, 0).value;
      assert forall j :: 0 <= j < |items'| ==> items'[j] == items[if j < i then j else j + 1];
    } else if op.OpAdd? && items' != items {
      assert forall j :: 0 <= j < |items| ==> items'[j] == items[j] && !Clash(items[j], items'[|items|]);
    }
  }

  /** While no two running items are for the same thing, the only operation that can change this is a restart,
      and it does so exactly if another item for the same thing was added, and runs, since the stop. */
  lemma StepUnique(t: Table, op: Op)
    requires Unique(t.items)
    ensures Unique(Apply(t, op).items) <==> !Revives(t, op)
  {
    if op.OpRestart? {
      var r := IndexOf(t.items, op.id, 0);
      if r.Some? {
        RestartUnique(t.items, r.value);
      }
    } else {
      OthersUnique(t, op);
    }
  }

  lemma {:induction false} RunSnoc(t: Table, ops: seq<Op>, op: Op)
    ensures Run(t, ops + [op]) == Apply(Run(t, ops), op)
    decreases |ops|
  {
    if ops == [] {
      assert [op][1..] == [];
    } else {
      assert (ops + [op])[1..] == ops[1..] + [op];
      RunSnoc(Apply(t, ops[0]), ops[1..], op);
    }
  }

  /** Over a run the running items are for different things at all times exactly if no restart
      revives an item beside another one for the same thing. */
  lemma {:induction false} RunUnique(t: Table, ops: seq<Op>)
    requires Unique(t.items)
    ensures (forall n :: 0 <= n <= |ops| ==> Unique(Run(t, ops[..n]).items)) <==>
            (forall n :: 0 <= n < |ops| ==> !Revives(Run(t, ops[..n]), ops[n]))
    decreases |ops|
  {
    if ops == [] {
      assert ops[..0] == [];
    } else {
      var k := |ops| - 1;
      var init := ops[..k];
      RunUnique(t, init);
      RunSnoc(t, init, ops[k]);
      assert forall n :: 0 <= n <= k ==> ops[..n] == init[..n];
      assert init[..k] == init && init + [ops[k]] == ops == ops[..k + 1];
      if Unique(Run(t, init).items) {
        StepUnique(Run(t, init), ops[k]);
      }
    }
  }

  /** Add, stop, add and restart: two running items for one thing. */
  lemma TwoRunning(kind: int, k: Key, capacity: nat)
    requires KeyOk(kind, k) && capacity >= 2
    ensures !Unique(Run(Table([], ID_INIT_VALUE, capacity),
                        [OpAdd(kind, k, 0, 0), OpStop(ID_INIT_VALUE), OpAdd(kind, k, 0, 0), OpRestart(ID_INIT_VALUE)]).items)
  {
    var add, stop, restart := OpAdd(kind, k, 0, 0), OpStop(ID_INIT_VALUE), OpRestart(ID_INIT_VALUE);
    var a := Item(ID_INIT_VALUE, k, 0, 0, 0, kind, Start);
    var b := a.(id := ID_INIT_VALUE + 1);
    var t0 := Table([], ID_INIT_VALUE, capacity);
    var t1 := Table([a], ID_INIT_VALUE + 1, capacity);
    var t2 := Table([a.(status := Stop)], ID_INIT_VALUE + 1, capacity);
    var t3 := Table([a.(status := Stop), b], ID_INIT_VALUE + 2, capacity);
    var t4 := Table([a, b], ID_INIT_VALUE + 2, capacity);
    assert Apply(t0, add) == t1 && Apply(t1, stop) == t2 && Apply(t2, add) == t3 && Apply(t3, restart) == t4;
    assert [restart][1..] == [] && [add, restart][1..] == [restart];
    assert [stop, add, restart][1..] == [add, restart] && [add, stop, add, restart][1..] == [stop, add, restart];
    assert Run(t3, [restart]) == t4;
    assert Run(t2, [add, restart]) == t4;
    assert Run(t1, [stop, add, restart]) == t4;
    assert Run(t0, [add, stop, add, restart]) == t4;
    assert Clash(t4.items[0], t4.items[1]);
  }
}
