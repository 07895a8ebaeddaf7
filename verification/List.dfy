/** The intrusive doubly linked list of lib/common/ch_list.h: list heads and entries are
    nodes of one ring.  A ring is given by the sequence of its nodes, the head first;
    each operation is proved to do the matching sequence operation, and its frame names
    the few nodes that it writes. */
module List {

  class Node {
    var next: Node?
    var prev: Node?

    constructor ()
    {
      next, prev := null, null;
    }
  }

  ghost predicate Link(a: Node, b: Node)
    reads a, b
  {
    a.next == b && b.prev == a
  }

  ghost predicate Chain(s: seq<Node>)
    reads s
  {
    forall i :: 0 <= i < |s| - 1 ==> Link(s[i], s[i + 1])
  }

  predicate Distinct(s: seq<Node>) {
    forall i, j :: 0 <= i < j < |s| ==> s[i] != s[j]
  }

  /** The nodes of s, each once, in a ring. */
  ghost predicate Ring(s: seq<Node>)
    reads s
  {
    s != [] && Distinct(s) && Chain(s) && Link(s[|s| - 1], s[0])
  }

  // ------------------------------------------------------------------ queries

  /** list_empty. */
  method IsEmpty(head: Node, ghost r: seq<Node>) returns (empty: bool)
    requires Ring(r) && r[0] == head
    ensures empty <==> r == [head]
  {
    empty := head.next == head;
    assert |r| > 1 ==> Link(r[0], r[1]);
  }

  /** list_is_last. */
  method IsLast(entry: Node, head: Node, ghost r: seq<Node>, ghost k: nat) returns (last: bool)
    requires Ring(r) && r[0] == head && k < |r| && r[k] == entry
    ensures last <==> k == |r| - 1
  {
    last := entry.next == head;
    assert k < |r| - 1 ==> Link(r[k], r[k + 1]);
  }

  /** list_is_singular. */
  method IsSingular(head: Node, ghost r: seq<Node>) returns (one: bool)
    requires Ring(r) && r[0] == head
    ensures one <==> |r| == 2
  {
    one := head.next != head && head.next == head.prev;
    assert |r| > 1 ==> Link(r[0], r[1]);
  }

  // ------------------------------------------------------------ one node moves

  /** INIT_LIST_HEAD. */
  method InitHead(list: Node)
    modifies list
    ensures Ring([list])
  {
    list.next := list;
    list.prev := list;
  }

  /** __list_add between two neighbours. */
  method Insert(entry: Node, prev: Node, next: Node)
    requires entry != prev && entry != next
    modifies entry, prev`next, next`prev
    ensures Link(prev, entry) && Link(entry, next)
  {
    next.prev := entry;
    entry.next := next;
    entry.prev := prev;
    prev.next := entry;
  }

  /** list_add: behind the head. */
  method AddFront(entry: Node, head: Node, ghost r: seq<Node>)
    requires Ring(r) && r[0] == head && entry !in r
    modifies entry, head, head.next
    ensures Ring([head, entry] + r[1..])
  {
    assert |r| > 1 ==> Link(r[0], r[1]);
    Insert(entry, head, head.next);
    ghost var t := [head, entry] + r[1..];
    assert forall i :: 1 <= i < |r| ==> t[i + 1] == r[i];
    assert Chain(t);
  }

  /** list_add_tail: before the head. */
  method AddTail(entry: Node, head: Node, ghost r: seq<Node>)
    requires Ring(r) && r[0] == head && entry !in r
    modifies entry, head, head.prev
    ensures Ring(r + [entry])
  {
    Insert(entry, head.prev, head);
    ghost var t := r + [entry];
    assert forall i :: 0 <= i < |r| - 1 ==> Link(r[i], r[i + 1]);
    assert Chain(t);
  }

  /** The neighbours of an entry in the ring a + [entry] + b. */
  lemma Neighbours(a: seq<Node>, entry: Node, b: seq<Node>)
    requires a != [] && Ring(a + [entry] + b)
    ensures Link(a[|a| - 1], entry) && Link(entry, if b == [] then a[0] else b[0])
    ensures entry !in a && entry !in b && Ring(a + [entry] + b)
    ensures |a| == 1 && b == [] <==> a[|a| - 1] == if b == [] then a[0] else b[0]
  {
    var s, n := a + [entry] + b, |a|;
    assert s[n - 1] == a[n - 1] && s[n] == entry && Link(s[n - 1], s[n]);
    assert b != [] ==> s[n + 1] == b[0] && Link(s[n], s[n + 1]);
    assert forall i :: 0 <= i < n ==> s[i] == a[i];
    assert forall i :: 0 <= i < |b| ==> s[n + 1 + i] == b[i];
  }

  lemma ChainSlice(s: seq<Node>, i: nat, j: nat)
    requires i <= j <= |s| && Chain(s)
    ensures Chain(s[i..j])
  {
    var t := s[i..j];
    forall k | 0 <= k < |t| - 1
      ensures Link(t[k], t[k + 1])
    {
      assert t[k] == s[i + k] && t[k + 1] == s[i + k + 1];
      assert Link(s[i + k], s[i + k + 1]);
    }
  }

  lemma DistinctWithout(a: seq<Node>, entry: Node, b: seq<Node>)
    requires Distinct(a + [entry] + b)
    ensures Distinct(a + b) && entry !in a + b
  {
    var s, t, n := a + [entry] + b, a + b, |a|;
    assert s[n] == entry;
    forall i | 0 <= i < |t|
      ensures t[i] == s[if i < n then i else i + 1]
    {
    }
  }

  /** The pieces of a ring, without the links at their ends. */
  lemma Pieces(a: seq<Node>, entry: Node, b: seq<Node>)
    requires Ring(a + [entry] + b)
    ensures Chain(a) && Chain(b) && Distinct(a + b) && entry !in a + b
  {
    var s, n := a + [entry] + b, |a|;
    ChainSlice(s, 0, n);
    ChainSlice(s, n + 1, |s|);
    assert s[0..n] == a && s[n + 1..|s|] == b;
    DistinctWithout(a, entry, b);
  }

  /** Two chains and the links between them make a ring. */
  lemma Joined(a: seq<Node>, b: seq<Node>)
    requires a != [] && b != [] && Chain(a) && Chain(b) && Distinct(a + b)
    requires Link(a[|a| - 1], b[0]) && Link(b[|b| - 1], a[0])
    ensures Ring(a + b)
  {
    var t := a + b;
    forall i | 0 <= i < |t| - 1
      ensures Link(t[i], t[i + 1])
    {
      if i < |a| - 1 {
        assert t[i] == a[i] && t[i + 1] == a[i + 1] && Link(a[i], a[i + 1]);
      } else if i >= |a| {
        var j := i - |a|;
        assert t[i] == b[j] && t[i + 1] == b[j + 1] && Link(b[j], b[j + 1]);
      }
    }
  }

  /** __list_del on the neighbours of an entry; the entry itself keeps its pointers. */
  method Unlink(prev: Node?, next: Node?, ghost a: seq<Node>, ghost entry: Node, ghost b: seq<Node>)
    requires a != [] && Ring(a + [entry] + b) && prev == entry.prev && next == entry.next
    modifies prev, next
    ensures Ring(a + b)
  {
    Neighbours(a, entry, b);
    Pieces(a, entry, b);
    if prev == null || next == null {
      return;
    }
    next.prev := prev;
    prev.next := next;
    assert Chain(a);
    assert Chain(b);
    if b == [] {
      assert a + b == a;
    } else {
      Joined(a, b);
    }
  }

  /** list_del. */
  method Del(entry: Node, ghost a: seq<Node>, ghost b: seq<Node>)
    requires a != [] && Ring(a + [entry] + b)
    modifies entry, entry.prev, entry.next
    ensures Ring(a + b) && entry.next == null && entry.prev == null
  {
    Neighbours(a, entry, b);
    Unlink(entry.prev, entry.next, a, entry, b);
    entry.next := null;
    entry.prev := null;
  }

  /** list_del_init. */
  method DelInit(entry: Node, ghost a: seq<Node>, ghost b: seq<Node>)
    requires a != [] && Ring(a + [entry] + b)
    modifies entry, entry.prev, entry.next
    ensures Ring(a + b) && Ring([entry])
  {
    Neighbours(a, entry, b);
    Pieces(a, entry, b);
    Unlink(entry.prev, entry.next, a, entry, b);
    InitHead(entry);
  }

  /** Any node of a ring may be taken as its head. */
  lemma Turned(x: seq<Node>, y: seq<Node>)
    requires Ring(x + y)
    ensures Ring(y + x)
  {
    if x == [] || y == [] {
      assert x + y == y + x;
    } else {
      var s, n := x + y, |x|;
      ChainSlice(s, 0, n);
      ChainSlice(s, n, |s|);
      assert s[0..n] == x && s[n..|s|] == y;
      assert s[n - 1] == x[n - 1] && s[n] == y[0] && Link(s[n - 1], s[n]);
      DistinctTurned(x, y);
      Joined(y, x);
    }
  }

  lemma DistinctTurned(x: seq<Node>, y: seq<Node>)
    requires Distinct(x + y)
    ensures Distinct(y + x)
  {
    var s, t := x + y, y + x;
    assert forall i :: 0 <= i < |t| ==> t[i] == s[if i < |y| then |x| + i else i - |y|];
  }

  /** The links of the head of a ring. */
  lemma HeadLinks(h: Node, c: seq<Node>)
    requires Ring([h] + c)
    ensures c == [] ==> Link(h, h)
    ensures c != [] ==> Link(h, c[0]) && Link(c[|c| - 1], h)
    ensures Chain(c) && Distinct(c) && h !in c
  {
    var s := [h] + c;
    ChainSlice(s, 1, |s|);
    assert s[1..|s|] == c;
    assert s[0] == h && forall i :: 0 <= i < |c| ==> s[i + 1] == c[i];
    assert c != [] ==> Link(s[0], s[1]);
  }

  lemma DistinctCons(h: Node, c: seq<Node>)
    requires Distinct(c) && h !in c
    ensures Distinct([h] + c)
  {
  }

  /** A head and a chain with the links between them. */
  lemma HeadRing(h: Node, c: seq<Node>)
    requires Chain(c) && Distinct(c) && h !in c
    requires if c == [] then Link(h, h) else Link(h, c[0]) && Link(c[|c| - 1], h)
    ensures Ring([h] + c)
  {
    DistinctCons(h, c);
    if c != [] {
      Joined([h], c);
    }
  }

  /** list_replace: the new entry takes the place of the old one, even if that is alone. */
  method Replace(was: Node, entry: Node, ghost c: seq<Node>)
    requires Ring([was] + c) && entry != was && entry !in c
    modifies entry, was.next, was.prev
    ensures Ring([entry] + c)
  {
    HeadLinks(was, c);
    entry.next := was.next;
    entry.next.prev := entry;
    entry.prev := was.prev;
    entry.prev.next := entry;
    assert Chain(c);
    HeadRing(entry, c);
  }

  /** list_replace_init. */
  method ReplaceInit(was: Node, entry: Node, ghost c: seq<Node>)
    requires Ring([was] + c) && entry != was && entry !in c
    modifies entry, was, was.next, was.prev
    ensures Ring([entry] + c) && Ring([was])
  {
    HeadLinks(was, c);
    Replace(was, entry, c);
    InitHead(was);
  }

  /** list_move within one list. */
  method Move(entry: Node, head: Node, ghost a: seq<Node>, ghost b: seq<Node>)
    requires Ring([head] + a + [entry] + b)
    modifies entry, entry.prev, entry.next, head, head.next
    ensures Ring([head, entry] + a + b)
  {
    Neighbours([head] + a, entry, b);
    Pieces([head] + a, entry, b);
    FirstNext(head, a, entry, b);
    Unlink(entry.prev, entry.next, [head] + a, entry, b);
    assert [head] + a + b == [head] + (a + b);
    FirstNextPlain(head, a + b);
    AddFront(entry, head, [head] + (a + b));
    assert [head, entry] + ([head] + (a + b))[1..] == [head, entry] + a + b;
  }

  lemma FirstNext(head: Node, a: seq<Node>, entry: Node, b: seq<Node>)
    requires Ring([head] + a + [entry] + b)
    ensures head.next == if a == [] then entry else a[0]
    ensures head.prev == if b == [] then entry else b[|b| - 1]
  {
    var c := a + [entry] + b;
    assert [head] + a + [entry] + b == [head] + c;
    HeadLinks(head, c);
  }

  lemma FirstNextPlain(head: Node, c: seq<Node>)
    requires Ring([head] + c)
    ensures head.next == if c == [] then head else c[0]
    ensures head.prev == if c == [] then head else c[|c| - 1]
  {
    HeadLinks(head, c);
  }

  /** list_move_tail within one list. */
  method MoveTail(entry: Node, head: Node, ghost a: seq<Node>, ghost b: seq<Node>)
    requires Ring([head] + a + [entry] + b)
    modifies entry, entry.prev, entry.next, head, head.prev
    ensures Ring([head] + a + b + [entry])
  {
    Neighbours([head] + a, entry, b);
    Pieces([head] + a, entry, b);
    FirstNext(head, a, entry, b);
    Unlink(entry.prev, entry.next, [head] + a, entry, b);
    assert [head] + a + b == [head] + (a + b);
    FirstNextPlain(head, a + b);
    AddTail(entry, head, [head] + (a + b));
  }

  /** list_rotate_left. */
  method RotateLeft(head: Node, ghost c: seq<Node>)
    requires Ring([head] + c)
    modifies [head] + c
    ensures Ring([head] + (if c == [] then [] else c[1..] + [c[0]]))
  {
    FirstNextPlain(head, c);
    var empty := IsEmpty(head, [head] + c);
    if !empty {
      var first := head.next;
      assert c == [c[0]] + c[1..];
      assert [head] + c == [head] + [] + [c[0]] + c[1..];
      FirstNext(head, [], c[0], c[1..]);
      Neighbours([head] + [], c[0], c[1..]);
      assert |c| > 1 ==> c[1..][0] == c[1];
      assert first.next in [head] + c && head.prev in [head] + c && first in [head] + c && first.prev == head;
      MoveTail(first, head, [], c[1..]);
      assert [head] + [] + c[1..] + [c[0]] == [head] + (c[1..] + [c[0]]);
    } else {
      assert c == [];
    }
  }

  // -------------------------------------------------------- whole lists move

  /** __list_cut_position: the entries up to and including the last of x go to `list`. */
  method CutAt(list: Node, head: Node, entry: Node, ghost x: seq<Node>, ghost y: seq<Node>, ghost c: seq<Node>)
    requires x != [] && c == x + y && Ring([head] + c) && x[|x| - 1] == entry && list != head && list !in c
    modifies list, head, head.next, entry, entry.next
    ensures Ring([list] + x) && Ring([head] + y)
  {
    HeadLinks(head, c);
    InTwo(x, y);
    var entryFirst := entry.next;
    assert entryFirst == if y == [] then head else y[0];
    list.next := head.next;
    list.next.prev := list;
    list.prev := entry;
    entry.next := list;
    head.next := entryFirst;
    entryFirst.prev := head;
    assert Chain(x) && Chain(y);
    HeadRing(list, x);
    HeadRing(head, y);
  }

  /** Two parts of a chain. */
  lemma InTwo(x: seq<Node>, y: seq<Node>)
    requires x != [] && Chain(x + y) && Distinct(x + y)
    ensures Chain(x) && Chain(y) && Distinct(x) && Distinct(y)
    ensures forall n :: n in x ==> n !in y
    ensures (x + y)[0] == x[0] && (x + y)[|x + y| - 1] == if y == [] then x[|x| - 1] else y[|y| - 1]
    ensures y != [] ==> Link(x[|x| - 1], y[0])
  {
    var s, n := x + y, |x|;
    ChainSlice(s, 0, n);
    ChainSlice(s, n, |s|);
    assert s[0..n] == x && s[n..|s|] == y;
    assert forall i :: 0 <= i < n ==> s[i] == x[i];
    assert forall i :: 0 <= i < |y| ==> s[n + i] == y[i];
    assert y != [] ==> s[n - 1] == x[n - 1] && s[n] == y[0] && Link(s[n - 1], s[n]);
  }

  /** list_cut_position: nothing for an empty list, and just an empty `list` when the entry is the head. */
  method CutPosition(list: Node, head: Node, entry: Node, ghost x: seq<Node>, ghost y: seq<Node>, ghost c: seq<Node>)
    requires c == x + y && Ring([head] + c) && list != head && list !in c
    requires entry == if x == [] then head else x[|x| - 1]
    modifies list, head, head.next, entry, entry.next
    ensures c != [] ==> Ring([list] + x)
    ensures Ring([head] + y)
    ensures c == [] ==> list.next == old(list.next) && list.prev == old(list.prev)
  {
    CutEnds(head, x, y, c, entry);
    var empty := IsEmpty(head, [head] + c);
    if empty {
      assert |[head] + c| == 1;
      return;
    }
    var one := IsSingular(head, [head] + c);
    if one && head.next != entry && head != entry {
      return;
    }
    if entry == head {
      assert [list] + x == [list];
      InitHead(list);
    } else {
      CutAt(list, head, entry, x, y, c);
    }
  }

  /** Where a cut can be: at the head just if nothing is cut off, and in a list with one entry
      at the head or at that entry. */
  lemma CutEnds(head: Node, x: seq<Node>, y: seq<Node>, c: seq<Node>, entry: Node)
    requires c == x + y && Ring([head] + c) && entry == if x == [] then head else x[|x| - 1]
    ensures entry == head <==> x == []
    ensures |c| == 1 ==> head.next == entry || head == entry
    ensures c == [] ==> y == []
    ensures x == [] ==> c == y
  {
    HeadLinks(head, c);
    if x != [] {
      assert c[|x| - 1] == entry;
    }
  }

  lemma DistinctJoin(x: seq<Node>, y: seq<Node>)
    requires Distinct(x) && Distinct(y) && forall n :: n in x ==> n !in y
    ensures Distinct(x + y)
  {
    var s := x + y;
    assert forall i :: |x| <= i < |s| ==> s[i] in y;
  }

  /** __list_splice of the entries x, which a head `list` holds, behind `head`. */
  method JoinFront(list: Node, head: Node, ghost x: seq<Node>, ghost y: seq<Node>)
    requires x != [] && Ring([list] + x) && Ring([head] + y)
    requires list != head && list !in y && head !in x && forall n :: n in x ==> n !in y
    modifies head, head.next, list.next, list.prev
    ensures Ring([head] + (x + y)) && list.next == old(list.next) && list.prev == old(list.prev)
  {
    HeadLinks(list, x);
    HeadLinks(head, y);
    var prev, next := head, head.next;
    var first, last := list.next, list.prev;
    first.prev := prev;
    prev.next := first;
    last.next := next;
    next.prev := last;
    assert Chain(x) && Chain(y);
    Spliced(head, x, y);
  }

  lemma Spliced(head: Node, x: seq<Node>, y: seq<Node>)
    requires x != [] && Chain(x) && Chain(y) && Distinct(x) && Distinct(y)
    requires head !in x && head !in y && forall n :: n in x ==> n !in y
    requires Link(head, x[0]) && (if y == [] then Link(x[|x| - 1], head) else Link(x[|x| - 1], y[0]) && Link(y[|y| - 1], head))
    ensures Ring([head] + (x + y))
  {
    DistinctJoin(x, y);
    if y == [] {
      assert x + y == x;
    } else {
      ChainJoin(x, y);
      assert (x + y)[0] == x[0] && (x + y)[|x + y| - 1] == y[|y| - 1];
    }
    HeadRing(head, x + y);
  }

  lemma ChainJoin(x: seq<Node>, y: seq<Node>)
    requires x != [] && y != [] && Chain(x) && Chain(y) && Link(x[|x| - 1], y[0])
    ensures Chain(x + y)
  {
    var t := x + y;
    forall i | 0 <= i < |t| - 1
      ensures Link(t[i], t[i + 1])
    {
      if i < |x| - 1 {
        assert t[i] == x[i] && t[i + 1] == x[i + 1] && Link(x[i], x[i + 1]);
      } else if i >= |x| {
        var j := i - |x|;
        assert t[i] == y[j] && t[i + 1] == y[j + 1] && Link(y[j], y[j + 1]);
      }
    }
  }

  /** __list_splice of the entries x before `head`, at the end. */
  method JoinTail(list: Node, head: Node, ghost x: seq<Node>, ghost y: seq<Node>)
    requires x != [] && Ring([list] + x) && Ring([head] + y)
    requires list != head && list !in y && head !in x && forall n :: n in x ==> n !in y
    modifies head, head.prev, list.next, list.prev
    ensures Ring([head] + (y + x)) && list.next == old(list.next) && list.prev == old(list.prev)
  {
    HeadLinks(list, x);
    HeadLinks(head, y);
    var prev, next := head.prev, head;
    var first, last := list.next, list.prev;
    first.prev := prev;
    prev.next := first;
    last.next := next;
    next.prev := last;
    assert Chain(x);
    assert Chain(y);
    if y == [] {
      assert y + x == x;
      HeadRing(head, x);
    } else {
      assert Link(y[|y| - 1], x[0]) && Link(x[|x| - 1], head) && Link(head, y[0]);
      Spliced(head, y, x);
    }
  }

  /** list_splice: nothing for an empty list. */
  method SpliceFront(list: Node, head: Node, ghost x: seq<Node>, ghost y: seq<Node>)
    requires Ring([list] + x) && Ring([head] + y)
    requires list != head && list !in y && head !in x && forall n :: n in x ==> n !in y
    modifies head, head.next, list.next, list.prev
    ensures Ring([head] + (x + y)) && (x == [] ==> Ring([list]))
    ensures x != [] ==> list.next == old(list.next) && list.prev == old(list.prev)
  {
    var empty := IsEmpty(list, [list] + x);
    if empty {
      assert x + y == y && [list] + x == [list];
    } else {
      JoinFront(list, head, x, y);
    }
  }

  /** list_splice_tail. */
  method SpliceTail(list: Node, head: Node, ghost x: seq<Node>, ghost y: seq<Node>)
    requires Ring([list] + x) && Ring([head] + y)
    requires list != head && list !in y && head !in x && forall n :: n in x ==> n !in y
    modifies head, head.prev, list.next, list.prev
    ensures Ring([head] + (y + x)) && (x == [] ==> Ring([list]))
    ensures x != [] ==> list.next == old(list.next) && list.prev == old(list.prev)
  {
    var empty := IsEmpty(list, [list] + x);
    if empty {
      assert y + x == y && [list] + x == [list];
    } else {
      JoinTail(list, head, x, y);
    }
  }

  /** list_splice_init: the emptied list is a list again. */
  method SpliceFrontInit(list: Node, head: Node, ghost x: seq<Node>, ghost y: seq<Node>)
    requires Ring([list] + x) && Ring([head] + y)
    requires list != head && list !in y && head !in x && forall n :: n in x ==> n !in y
    modifies list, head, head.next, list.next, list.prev
    ensures Ring([list]) && Ring([head] + (x + y))
  {
    HeadLinks(list, x);
    var empty := IsEmpty(list, [list] + x);
    if empty {
      assert x + y == y && [list] + x == [list];
    } else {
      JoinFront(list, head, x, y);
      assert list !in [head] + (x + y);
      InitHead(list);
    }
  }

  /** list_splice_tail_init. */
  method SpliceTailInit(list: Node, head: Node, ghost x: seq<Node>, ghost y: seq<Node>)
    requires Ring([list] + x) && Ring([head] + y)
    requires list != head && list !in y && head !in x && forall n :: n in x ==> n !in y
    modifies list, head, head.prev, list.next, list.prev
    ensures Ring([list]) && Ring([head] + (y + x))
  {
    HeadLinks(list, x);
    var empty := IsEmpty(list, [list] + x);
    if empty {
      assert y + x == y && [list] + x == [list];
    } else {
      JoinTail(list, head, x, y);
      assert list !in [head] + (y + x);
      InitHead(list);
    }
  }

  /** list_move from one list to the front of another. */
  method MoveAcross(entry: Node, head: Node, ghost a: seq<Node>, ghost b: seq<Node>, ghost c: seq<Node>)
    requires a != [] && Ring(a + [entry] + b) && Ring([head] + c)
    requires forall n :: n in a + [entry] + b ==> n !in [head] + c
    modifies entry, entry.prev, entry.next, head, head.next
    ensures Ring(a + b) && Ring([head, entry] + c)
  {
    Neighbours(a, entry, b);
    Pieces(a, entry, b);
    FirstNextPlain(head, c);
    ghost var r, s := [head] + c, a + b;
    ghost var prev, next := a[|a| - 1], if b == [] then a[0] else b[0];
    assert prev in a + [entry] + b && next in a + [entry] + b && entry in a + [entry] + b;
    assert prev !in r && next !in r && entry !in r && entry !in s;
    assert forall n :: n in s ==> n in a + [entry] + b;
    Unlink(entry.prev, entry.next, a, entry, b);
    assert head.next in r;
    AddFront(entry, head, r);
    assert r[1..] == c;
  }

  /** list_move_tail from one list to the end of another. */
  method MoveTailAcross(entry: Node, head: Node, ghost a: seq<Node>, ghost b: seq<Node>, ghost c: seq<Node>)
    requires a != [] && Ring(a + [entry] + b) && Ring([head] + c)
    requires forall n :: n in a + [entry] + b ==> n !in [head] + c
    modifies entry, entry.prev, entry.next, head, head.prev
    ensures Ring(a + b) && Ring([head] + c + [entry])
  {
    Neighbours(a, entry, b);
    Pieces(a, entry, b);
    FirstNextPlain(head, c);
    ghost var r, s := [head] + c, a + b;
    ghost var prev, next := a[|a| - 1], if b == [] then a[0] else b[0];
    assert prev in a + [entry] + b && next in a + [entry] + b && entry in a + [entry] + b;
    assert prev !in r && next !in r && entry !in r && entry !in s;
    assert forall n :: n in s ==> n in a + [entry] + b;
    Unlink(entry.prev, entry.next, a, entry, b);
    ghost var last := if c == [] then head else c[|c| - 1];
    assert head.prev == last && last in r && head in r;
    assert forall n :: n in s ==> n !in r;
    assert last !in s && head !in s;
    AddTail(entry, head, r);
  }
}
