/** The pool of data stores of StreamAnalyze/ch_sa_data_store_pool.h and its owners, the two
    directions of each session (ch_sa_session_entry.h): who has which store, over every run. */
module DataStore {
  import opened Common

  const PRE_ALLOC_N: nat := 1000

  /** A store, by the order in which the stores were allocated. */
  type Store = nat

  /** One direction of a session: the field req_dstore or res_dstore of its entry. */
  datatype Place = Place(session: nat, isReq: bool)

  /** The free list, the number of stores allocated, and the places that are not NULL.  `lost` are the stores
      that nothing points to any more. */
  datatype State = State(free: seq<Store>, made: nat, held: map<Place, Store>, lost: set<Store>, limits: nat)

  /** ch_sa_data_store_get; memory: ch_pcalloc succeeds. */
  function Get(s: State, memory: bool): (State, Option<Store>) {
    if s.made > s.limits && s.free == [] then (s, None)
    else if s.free == [] then
      if memory then (s.(made := s.made + 1), Some(s.made)) else (s, None)
    else (s.(free := s.free[1..]), Some(s.free[0]))
  }

  /** A direction that has data to keep gets a store, if it has none. */
  function Need(s: State, p: Place, memory: bool): State {
    if p in s.held then s
    else match Get(s, memory)
      case (s', None) => s'
      case (s', Some(d)) => s'.(held := s'.held[p := d])
  }

  function Drop(s: State, p: Place): State {
    if p in s.held then s.(free := s.free + [s.held[p]], held := s.held - {p}) else s
  }

  /** ch_sa_sentry_dstore_free: both directions of the session. */
  function Release(s: State, session: nat): State {
    Drop(Drop(s, Place(session, true)), Place(session, false))
  }

  function Forget(s: State, p: Place): State {
    if p in s.held then s.(lost := s.lost + {s.held[p]}, held := s.held - {p}) else s
  }

  /** ch_sa_session_entry_init: both pointers are cleared, whatever they hold. */
  function Init(s: State, session: nat): State {
    Forget(Forget(s, Place(session, true)), Place(session, false))
  }

  datatype Op = OpInit(session: nat) | OpNeed(p: Place, memory: bool) | OpRelease(session: nat)

  function Apply(s: State, op: Op): State {
    match op
    case OpInit(session) => Init(s, session)
    case OpNeed(p, memory) => Need(s, p, memory)
    case OpRelease(session) => Release(s, session)
  }

  function Run(s: State, ops: seq<Op>): State
    decreases |ops|
  {
    if ops == [] then s else Run(Apply(s, ops[0]), ops[1..])
  }

  /** ch_sa_data_store_pool_create: n of the first thousand stores could be allocated. */
  function Create(n: nat, limits: nat): State
    requires n <= PRE_ALLOC_N
  {
    State(seq(n, i => i), n, map[], {}, limits)
  }

  // --------------------------------------------------------------- invariant

  function Max(a: nat, b: nat): nat {
    if a < b then b else a
  }

  /** Every store that was allocated is in one place: once in the free list, with one owner, or lost. */
  ghost predicate OneOwner(s: State) {
    && (forall i, j :: 0 <= i < j < |s.free| ==> s.free[i] != s.free[j])
    && (forall p, q :: p in s.held && q in s.held && p != q ==> s.held[p] != s.held[q])
    && (forall p, i :: p in s.held && 0 <= i < |s.free| ==> s.held[p] != s.free[i])
    && (forall i :: 0 <= i < |s.free| ==> s.free[i] < s.made)
    && (forall p :: p in s.held ==> s.held[p] < s.made && s.held[p] !in s.lost)
    && (forall d :: d in s.lost ==> d < s.made && d !in s.free)
    && |s.free| + |s.held| + |s.lost| == s.made
  }

  ghost predicate Ok(s: State) {
    OneOwner(s) && s.made <= Max(PRE_ALLOC_N, s.limits + 1)
  }

  lemma PutSize(held: map<Place, Store>, p: Place, d: Store)
    requires p !in held
    ensures |held[p := d]| == |held| + 1
  {
    var t := held[p := d];
    assert t.Keys == held.Keys + {p};
    assert |t| == |t.Keys| && |held| == |held.Keys|;
  }

  lemma TakeFree(s: State, p: Place)
    requires OneOwner(s) && p !in s.held && s.free != []
    ensures OneOwner(s.(free := s.free[1..], held := s.held[p := s.free[0]]))
  {
    PutSize(s.held, p, s.free[0]);
    var rest := s.free[1..];
    assert forall i :: 0 <= i < |rest| ==> rest[i] == s.free[i + 1];
  }

  lemma TakeNew(s: State, p: Place)
    requires OneOwner(s) && p !in s.held && s.free == []
    ensures OneOwner(s.(made := s.made + 1, held := s.held[p := s.made]))
  {
    PutSize(s.held, p, s.made);
  }

  lemma GetKeeps(s: State, p: Place, memory: bool)
    requires Ok(s) && p !in s.held
    ensures Ok(Need(s, p, memory))
    ensures p in Need(s, p, memory).held <==> s.free != [] || (s.made <= s.limits && memory)
  {
    if s.free != [] {
      TakeFree(s, p);
    } else if s.made <= s.limits && memory {
      TakeNew(s, p);
    }
  }

  lemma CutSize(held: map<Place, Store>, p: Place)
    requires p in held
    ensures |held - {p}| == |held| - 1
  {
    var t := held - {p};
    assert t.Keys == held.Keys - {p};
    assert |t| == |t.Keys| && |held| == |held.Keys|;
  }

  lemma ForgetKeeps(s: State, p: Place)
    requires Ok(s)
    ensures Ok(Forget(s, p)) && p !in Forget(s, p).held && s.lost <= Forget(s, p).lost
    ensures Forget(s, p).lost == s.lost <==> p !in s.held
  {
    if p in s.held {
      CutSize(s.held, p);
      assert s.held[p] in Forget(s, p).lost;
    }
  }

  predicate HoldsAny(s: State, session: nat) {
    Place(session, true) in s.held || Place(session, false) in s.held
  }

  /** Initialising an entry loses a store exactly if the session still holds one. */
  lemma InitLoses(s: State, session: nat)
    requires Ok(s)
    ensures Ok(Init(s, session)) && s.lost <= Init(s, session).lost && !HoldsAny(Init(s, session), session)
    ensures Init(s, session).lost == s.lost <==> !HoldsAny(s, session)
  {
    var s1 := Forget(s, Place(session, true));
    ForgetKeeps(s, Place(session, true));
    ForgetKeeps(s1, Place(session, false));
    assert Place(session, false) in s1.held <==> Place(session, false) in s.held;
  }

  lemma DropKeeps(s: State, p: Place)
    requires Ok(s)
    ensures Ok(Drop(s, p)) && p !in Drop(s, p).held && Drop(s, p).lost == s.lost
  {
    if p in s.held {
      CutSize(s.held, p);
    }
  }

  lemma StepKeeps(s: State, op: Op)
    requires Ok(s)
    ensures Ok(Apply(s, op)) && s.lost <= Apply(s, op).lost && Apply(s, op).limits == s.limits
    ensures Apply(s, op).lost == s.lost <==> !(op.OpInit? && HoldsAny(s, op.session))
  {
    match op
    case OpInit(session) => InitLoses(s, session);
    case OpNeed(p, memory) =>
      if p !in s.held {
        GetKeeps(s, p, memory);
      }
    case OpRelease(session) =>
      DropKeeps(s, Place(session, true));
      DropKeeps(Drop(s, Place(session, true)), Place(session, false));
  }

  lemma CreateOk(n: nat, limits: nat)
    requires n <= PRE_ALLOC_N
    ensures Ok(Create(n, limits))
  {
  }

  /** Over every run: no store has two owners, and there are never more than the larger of
      1000 and one more than the limit. */
  lemma {:induction false} RunKeeps(s: State, ops: seq<Op>)
    requires Ok(s)
    ensures Ok(Run(s, ops)) && Run(s, ops).limits == s.limits
    decreases |ops|
  {
    if ops != [] {
      StepKeeps(s, ops[0]);
      RunKeeps(Apply(s, ops[0]), ops[1..]);
    }
  }

  lemma {:induction false} RunSnoc(s: State, ops: seq<Op>, op: Op)
    ensures Run(s, ops + [op]) == Apply(Run(s, ops), op)
    decreases |ops|
  {
    if ops == [] {
      assert [op][1..] == [];
    } else {
      assert (ops + [op])[1..] == ops[1..] + [op];
      RunSnoc(Apply(s, ops[0]), ops[1..], op);
    }
  }

  /** Step k initialises the entry of a session that still holds a store. */
  ghost predicate InitTooSoon(s: State, ops: seq<Op>, k: nat)
    requires k < |ops|
  {
    ops[k].OpInit? && HoldsAny(Run(s, ops[..k]), ops[k].session)
  }

  ghost predicate SomeTooSoon(s: State, ops: seq<Op>) {
    exists k :: 0 <= k < |ops| && InitTooSoon(s, ops, k)
  }

  lemma TooSoonSnoc(s: State, ops: seq<Op>, op: Op)
    ensures SomeTooSoon(s, ops + [op]) <==>
            SomeTooSoon(s, ops) || (op.OpInit? && HoldsAny(Run(s, ops), op.session))
  {
    var all, n := ops + [op], |ops|;
    forall k | 0 <= k < n
      ensures InitTooSoon(s, all, k) <==> InitTooSoon(s, ops, k)
    {
      assert all[..k] == ops[..k];
    }
    assert all[..n] == ops && all[n] == op;
    assert InitTooSoon(s, all, n) <==> op.OpInit? && HoldsAny(Run(s, ops), op.session);
  }

  /** A run loses a store exactly if it initialises an entry that still holds one. */
  lemma {:induction false} LosesIff(s: State, ops: seq<Op>)
    requires Ok(s)
    ensures s.lost <= Run(s, ops).lost
    ensures Run(s, ops).lost != s.lost <==> SomeTooSoon(s, ops)
    decreases |ops|
  {
    if ops != [] {
      var init, op := ops[..|ops| - 1], ops[|ops| - 1];
      assert init + [op] == ops;
      LosesIff(s, init);
      RunKeeps(s, init);
      StepKeeps(Run(s, init), op);
      RunSnoc(s, init, op);
      TooSoonSnoc(s, init, op);
    }
  }

  function Elements(xs: seq<Store>): set<Store> {
    set x | x in xs
  }

  function Values(held: map<Place, Store>): set<Store> {
    set p | p in held :: held[p]
  }

  /** Each store that was allocated is free, held or lost. */
  lemma AllAccounted(s: State, d: Store)
    requires OneOwner(s) && d < s.made
    ensures d in s.free || d in s.lost || exists p :: p in s.held && s.held[p] == d
  {
    FreeSize(s.free);
    HeldSize(s.held);
    var f, h := Elements(s.free), Values(s.held);
    assert forall x :: x in h ==> x !in s.free && x !in s.lost;
    ThreeParts(f, h, s.lost, s.made, d);
  }

  lemma ThreeParts(f: set<nat>, h: set<nat>, l: set<nat>, n: nat, d: nat)
    requires f !! h && f !! l && h !! l && |f| + |h| + |l| == n && d < n
    requires forall x :: x in f || x in h || x in l ==> x < n
    ensures d in f || d in h || d in l
  {
    assert |f + h| == |f| + |h| && |f + h + l| == |f + h| + |l|;
    Below(f + h + l, n, d);
  }

  lemma {:induction false} FreeSize(xs: seq<Store>)
    requires forall i, j :: 0 <= i < j < |xs| ==> xs[i] != xs[j]
    ensures |Elements(xs)| == |xs|
    decreases |xs|
  {
    if xs != [] {
      var n := |xs| - 1;
      FreeSize(xs[..n]);
      assert xs == xs[..n] + [xs[n]];
      assert Elements(xs) == Elements(xs[..n]) + {xs[n]};
      assert xs[n] !in xs[..n];
    }
  }

  lemma {:induction false} HeldSize(held: map<Place, Store>)
    requires forall p, q :: p in held && q in held && p != q ==> held[p] != held[q]
    ensures |Values(held)| == |held|
    decreases |held|
  {
    if held.Keys != {} {
      var p :| p in held;
      var rest := held - {p};
      assert rest[p := held[p]] == held;
      PutSize(rest, p, held[p]);
      HeldSize(rest);
      assert Values(held) == Values(rest) + {held[p]};
      assert held[p] !in Values(rest);
    } else {
      assert |held| == |held.Keys|;
    }
  }

  /** n numbers below n are all of them. */
  lemma {:induction false} Below(all: set<nat>, n: nat, d: nat)
    requires |all| == n && d < n && forall x :: x in all ==> x < n
    ensures d in all
    decreases n
  {
    if n - 1 in all {
      if d < n - 1 {
        Below(all - {n - 1}, n - 1, d);
      }
    } else {
      NoMoreThan(all, n - 1);
    }
  }

  lemma {:induction false} NoMoreThan(all: set<nat>, n: nat)
    requires forall x :: x in all ==> x < n
    ensures |all| <= n
    decreases n
  {
    if n == 0 {
      assert all == {};
    } else {
      NoMoreThan(all - {n - 1}, n - 1);
    }
  }

  // --------------------------------------------------------------------- code

  class Pool {
    var freeList: seq<Store>
    var freeN: nat
    var usingN: nat
    var allocN: nat
    var limits: nat
    var held: map<Place, Store>
    ghost var lost: set<Store>

    ghost function View(): State
      reads this
    {
      State(freeList, allocN, held, lost, limits)
    }

    /** The counters are the lengths they stand for; using_n still counts what was lost. */
    ghost predicate Valid()
      reads this
    {
      Ok(View()) && freeN == |freeList| && usingN == |held| + |lost| && freeN + usingN == allocN
    }

    /** ch_sa_data_store_pool_create; `got` stores can be allocated. */
    constructor (got: nat, limits: nat)
      ensures Valid() && View() == Create(if got < PRE_ALLOC_N then got else PRE_ALLOC_N, limits)
    {
      freeList, freeN, usingN, allocN, held, lost := [], 0, 0, 0, map[], {};
      this.limits := limits;
      new;
      var i := 0;
      while i < PRE_ALLOC_N && i < got
        invariant 0 <= i <= PRE_ALLOC_N && i <= got
        invariant allocN == freeN == i && usingN == 0 && held == map[] && lost == {} && this.limits == limits
        invariant freeList == seq(i, j => j)
      {
        freeList := freeList + [allocN];
        allocN := allocN + 1;
        freeN := freeN + 1;
        i := i + 1;
      }
      CreateOk(i, limits);
    }

    /** ch_sa_data_store_get for the place p. */
    method GetFor(p: Place, memory: bool) returns (ok: bool)
      requires Valid() && p !in held
      modifies this
      ensures Valid() && View() == Need(old(View()), p, memory) && (ok <==> p in held)
    {
      GetKeeps(View(), p, memory);
      ok := false;
      if allocN > limits && freeList == [] {
        return;
      }
      var dst: Store;
      if freeList == [] {
        if !memory {
          return;
        }
        dst := allocN;
        usingN := usingN + 1;
        allocN := allocN + 1;
      } else {
        dst := freeList[0];
        freeList := freeList[1..];
        freeN := freeN - 1;
        usingN := usingN + 1;
      }
      PutSize(held, p, dst);
      held := held[p := dst];
      ok := true;
    }

    /** ch_sa_data_store_free of what the place p holds, if anything. */
    method FreeOf(p: Place)
      requires Valid()
      modifies this
      ensures Valid() && View() == Drop(old(View()), p)
    {
      DropKeeps(View(), p);
      if p in held {
        CutSize(held, p);
        freeList := freeList + [held[p]];
        freeN := freeN + 1;
        usingN := usingN - 1;
        held := held - {p};
      }
    }

    method Clear(p: Place)
      requires Valid()
      modifies this`held, this`lost
      ensures Valid() && View() == Forget(old(View()), p)
    {
      ForgetKeeps(View(), p);
      if p in held {
        CutSize(held, p);
        lost := lost + {held[p]};
        held := held - {p};
      }
    }

    /** ch_sa_session_entry_init, as far as the stores are concerned. */
    method InitSession(session: nat)
      requires Valid()
      modifies this`held, this`lost
      ensures Valid() && View() == Init(old(View()), session)
    {
      Clear(Place(session, true));
      Clear(Place(session, false));
    }

    /** ch_sa_sentry_dstore_free. */
    method ReleaseSession(session: nat)
      requires Valid()
      modifies this
      ensures Valid() && View() == Release(old(View()), session)
    {
      FreeOf(Place(session, true));
      FreeOf(Place(session, false));
    }
  }
}
