/** The code of SessionMonitor/ch_session_monitor.c over its array of items. */
module MonitorCode {
  import opened Common
  import opened Monitor

  class MonitorT {
    const items: array<Item>
    var nextId: nat

    /** The items in use. */
    ghost var list: seq<Item>

    ghost predicate Valid()
      reads this, items
    {
      && |list| <= items.Length && items[..|list|] == list
      && (forall i :: 0 <= i < |list| ==> list[i].status != Init)
      && (forall i :: |list| <= i < items.Length ==> items[i].status == Init)
    }

    ghost function View(): Table
      reads this
    {
      Table(list, nextId, items.Length)
    }

    /** A new file: every item is initialised. */
    constructor (number: nat)
      ensures Valid() && fresh(items) && View() == Table([], ID_INIT_VALUE, number) && Ok(View())
    {
      items := new Item[number](_ => Item(0, Key(0, 0, 0, 0), 0, 0, 0, 0, Init));
      nextId := ID_INIT_VALUE;
      list := [];
    }

    /** ch_session_monitor_item_find. */
    method Find(q: Key) returns (best: Option<nat>)
      requires Valid()
      ensures IsBest(list, q, best)
    {
      best := None;
      var i := 0;
      while i < items.Length && items[i].status != Init
        invariant 0 <= i <= |list|
        invariant IsBest(list[..i], q, best)
        decreases items.Length - i
      {
        assert items[i] == list[i] && list[..i + 1] == list[..i] + [list[i]];
        if items[i].status != Stop && IsMatch(items[i], q) {
          if best.None? || items[best.value].kind < items[i].kind {
            assert best.Some? ==> items[best.value] == list[best.value];
            best := Some(i);
          } else {
            assert items[best.value] == list[best.value];
          }
        }
        i := i + 1;
      }
      assert i == |list| && list[..i] == list;
    }

    /** ch_session_monitor_item_findById. */
    method FindById(id: nat) returns (r: Option<nat>)
      requires Valid()
      ensures r == IndexOf(list, id, 0)
    {
      var i := 0;
      while i < items.Length && items[i].status != Init
        invariant 0 <= i <= |list| && IndexOf(list, id, 0) == IndexOf(list, id, i)
        decreases items.Length - i
      {
        assert items[i] == list[i];
        if items[i].id == id {
          return Some(i);
        }
        i := i + 1;
      }
      return None;
    }

    /** _alloc_item: the first item that is not in use. */
    method AllocItem() returns (i: nat)
      requires Valid()
      ensures i == |list|
    {
      i := 0;
      while i < items.Length
        invariant 0 <= i <= |list|
      {
        if items[i].status == Init {
          return;
        }
        i := i + 1;
      }
    }

    /** ch_session_monitor_item_count. */
    method Count() returns (c: nat)
      requires Valid()
      ensures c == |list|
    {
      c := 0;
      while c < items.Length && items[c].status != Init
        invariant 0 <= c <= |list|
        decreases items.Length - c
      {
        c := c + 1;
      }
    }

    /** _item_add. */
    method AddItem(kind: int, k: Key, timeTv: nat, now: nat) returns (id: nat)
      requires Valid() && Ok(View()) && KeyOk(kind, k)
      modifies this`nextId, this`list, items
      ensures Valid() && (View(), id) == Add(old(View()), kind, k, timeTv, now)
    {
      var best := Find(k);
      BestIsDuplicate(list, kind, k, best);
      assert best.Some? ==> items[best.value] == list[best.value];
      if best.Some? && items[best.value].kind == kind {
        return items[best.value].id;
      }
      var i := AllocItem();
      if i == items.Length {
        return FULL;
      }
      id := nextId;
      nextId := (nextId + 1) % UINT64_MAX;
      items[i] := Item(id, k, timeTv, now, now, kind, Start);
      list := list + [items[i]];
    }

    /** ch_session_monitor_item_add_ip. */
    method AddIp(ip: nat, timeTv: nat, now: nat) returns (id: nat)
      requires Valid() && Ok(View())
      modifies this`nextId, this`list, items
      ensures Valid() && View() == Apply(old(View()), OpAdd(IP, Key(0, ip, 0, 0), timeTv, now))
      ensures id == if ip == 0 then 0 else Add(old(View()), IP, Key(0, ip, 0, 0), timeTv, now).1
    {
      if ip == 0 {
        return 0;
      }
      id := AddItem(IP, Key(0, ip, 0, 0), timeTv, now);
    }

    /** ch_session_monitor_item_add_port. */
    method AddPort(port: nat, timeTv: nat, now: nat) returns (id: nat)
      requires Valid() && Ok(View())
      modifies this`nextId, this`list, items
      ensures Valid() && View() == Apply(old(View()), OpAdd(PORT, Key(0, 0, 0, port), timeTv, now))
      ensures id == if port == 0 then 0 else Add(old(View()), PORT, Key(0, 0, 0, port), timeTv, now).1
    {
      if port == 0 {
        return 0;
      }
      id := AddItem(PORT, Key(0, 0, 0, port), timeTv, now);
    }

    /** ch_session_monitor_item_add_ip_port. */
    method AddIpPort(ip: nat, port: nat, timeTv: nat, now: nat) returns (id: nat)
      requires Valid() && Ok(View())
      modifies this`nextId, this`list, items
      ensures Valid() && View() == Apply(old(View()), OpAdd(IP_PORT, Key(0, ip, 0, port), timeTv, now))
      ensures id == if ip == 0 || port == 0 then 0 else Add(old(View()), IP_PORT, Key(0, ip, 0, port), timeTv, now).1
    {
      if ip == 0 || port == 0 {
        return 0;
      }
      id := AddItem(IP_PORT, Key(0, ip, 0, port), timeTv, now);
    }

    /** ch_session_monitor_item_add_session. */
    method AddSession(srcIp: nat, dstIp: nat, srcPort: nat, dstPort: nat, timeTv: nat, now: nat) returns (id: nat)
      requires Valid() && Ok(View())
      modifies this`nextId, this`list, items
      ensures Valid() && View() == Apply(old(View()), OpAdd(SESSION, Key(srcIp, dstIp, srcPort, dstPort), timeTv, now))
      ensures id == if srcIp == 0 || srcPort == 0 || dstIp == 0 || dstPort == 0 then 0 else Add(old(View()), SESSION, Key(srcIp, dstIp, srcPort, dstPort), timeTv, now).1
    {
      if srcIp == 0 || srcPort == 0 || dstIp == 0 || dstPort == 0 {
        return 0;
      }
      id := AddItem(SESSION, Key(srcIp, dstIp, srcPort, dstPort), timeTv, now);
    }

    /** elements_move; ITEM_INIT leaves the type as it was. */
    method MoveElements(start: nat)
      requires Valid() && start < |list|
      modifies this`list, items
      ensures Valid() && list == old(list)[..start] + old(list)[start + 1..]
    {
      ghost var was := list;
      var cur := start + 1;
      while cur < items.Length && items[cur].status != Init
        invariant start < cur <= |was|
        invariant forall i :: 0 <= i < start ==> items[i] == was[i]
        invariant forall i :: start <= i < cur - 1 ==> items[i] == was[i + 1]
        invariant forall i :: cur <= i < |was| ==> items[i] == was[i]
        invariant forall i :: |was| <= i < items.Length ==> items[i].status == Init
        decreases items.Length - cur
      {
        items[cur - 1] := items[cur];
        cur := cur + 1;
      }
      assert cur == |was|;
      items[cur - 1] := Item(0, Key(0, 0, 0, 0), 0, 0, 0, items[cur - 1].kind, Init);
      list := was[..start] + was[start + 1..];
      assert forall i :: 0 <= i < |list| ==> items[i] == list[i];
    }

    /** ch_session_monitor_item_del. */
    method Del(id: nat)
      requires Valid()
      modifies this`list, items
      ensures Valid() && View() == Delete(old(View()), id)
    {
      var r := FindById(id);
      if r.Some? {
        MoveElements(r.value);
      }
    }

    /** ch_session_monitor_item_stop and ch_session_monitor_item_restart. */
    method SetState(id: nat, status: Status)
      requires Valid() && status != Init
      modifies this`list, items
      ensures Valid() && View() == SetStatus(old(View()), id, status)
    {
      var r := FindById(id);
      if r.Some? {
        ghost var was := list;
        assert items[r.value] == was[r.value];
        items[r.value] := items[r.value].(status := status);
        list := was[r.value := was[r.value].(status := status)];
        assert forall i :: 0 <= i < |list| ==> items[i] == list[i];
      }
    }
  }
}
