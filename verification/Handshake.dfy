/** The three-way handshake tracker of StreamAnalyze/ch_sa_tcp_session_request_handler.c,
    for one connection: the request that a SYN creates, what moves it on, and when a
    session comes of it (section 3.5 of RFC 9293).

    `Step` is what one packet does.  `Reading` follows a trace by its events alone, without the
    tracker's state, and `SessionIffHandshake` says by it exactly which packets create a session. */
module Handshake {
  import opened Common

  const SEQ: nat := 0x1_0000_0000

  const TH_SYN: bv8 := 0x02
  const TH_RST: bv8 := 0x04
  const TH_ACK: bv8 := 0x10

  datatype Packet = Packet(flags: bv8, sentSeq: nat, recvAck: nat, payloadLen: nat)

  predicate IsSyn(p: Packet) {
    p.flags & TH_SYN != 0 && p.flags & TH_ACK == 0
  }

  predicate IsSynAck(p: Packet) {
    p.flags & TH_SYN != 0 && p.flags & TH_ACK != 0
  }

  predicate IsRst(p: Packet) {
    p.flags & TH_RST != 0
  }

  predicate HasAck(p: Packet) {
    p.flags & TH_ACK != 0
  }

  predicate HasData(p: Packet) {
    p.payloadLen > 0
  }

  /** What happens to the connection.  entryOk and sessionOk: the tables have room for a
      request and for a session.  The timeout sweeps and the end of a session come from outside. */
  datatype Event =
    | Arrive(p: Packet, entryOk: bool, sessionOk: bool)
    | RequestExpires
    | SessionEnds

  datatype Phase = Syn | SynAck | AckAck

  function Rank(ph: Phase): nat {
    match ph case Syn => 1 case SynAck => 2 case AckAck => 3
  }

  /** `born`, `synAckAt` and `ackAt` number the packets that led here. */
  datatype Request = Request(phase: Phase, reqSn: nat, resSn: nat, reqPackets: nat, resPackets: nat,
                             born: nat, synAckAt: nat, ackAt: nat)

  /** `open`: a session of the connection is in the table.  `made` lists the requests that
      became a session, by the number of the packet that created them. */
  datatype State = State(req: Option<Request>, open: bool, made: seq<nat>, now: nat)

  const START := State(None, false, [], 0)

  predicate IsAckAck(r: Request, p: Packet) {
    HasAck(p) && r.phase == SynAck && p.recvAck == r.resSn
  }

  /** A session, if the table has room; the request is freed in either case. */
  function Establish(s: State, r: Request, sessionOk: bool): State {
    if sessionOk then s.(req := None, open := true, made := s.made + [r.born]) else s.(req := None)
  }

  /** _three_way_handshake_process. */
  function ThreeWay(s: State, p: Packet, entryOk: bool, sessionOk: bool): State {
    if s.req.None? then
      if IsSyn(p) && entryOk
      then s.(req := Some(Request(Syn, (p.sentSeq + 1) % SEQ, 0, 1, 0, s.now, 0, 0)))
      else s
    else
      var r := s.req.value;
      if IsSyn(p) then s.(req := Some(r.(reqPackets := r.reqPackets + 1)))
      else if IsSynAck(p) then
        if r.phase == Syn
        then s.(req := Some(r.(resSn := (p.sentSeq + 1) % SEQ, phase := SynAck, resPackets := r.resPackets + 1,
                               synAckAt := s.now)))
        else s
      else if IsAckAck(r, p) then
        var r' := r.(reqPackets := r.reqPackets + 1, phase := AckAck, ackAt := s.now);
        if HasData(p) then Establish(s, r', sessionOk) else s.(req := Some(r'))
      else if IsRst(p) then s.(req := None)
      else if HasData(p) && r.phase == AckAck then Establish(s, r, sessionOk)
      else s
  }

  /** The packet goes to the session instead. */
  predicate ToSession(s: State, p: Packet) {
    s.open && !IsSyn(p) && !IsSynAck(p)
  }

  function Step(s: State, e: Event): State {
    var s' := match e
      case RequestExpires => s.(req := None)
      case SessionEnds => s.(open := false)
      case Arrive(p, entryOk, sessionOk) => if ToSession(s, p) then s else ThreeWay(s, p, entryOk, sessionOk);
    s'.(now := s.now + 1)
  }

  function After(h: seq<Event>): State {
    if h == [] then START else Step(After(h[..|h| - 1]), h[|h| - 1])
  }

  /** The event e creates a session in state s. */
  predicate Creates(s: State, e: Event) {
    Step(s, e).made != s.made
  }

  // --------------------------------------------- what the packets say

  /** An event, whether a session was open when it came, and whether there was no request. */
  datatype Seen = Seen(e: Event, open: bool, idle: bool)

  function Log(h: seq<Event>): (l: seq<Seen>)
    ensures |l| == |h|
  {
    if h == [] then []
    else
      var s := After(h[..|h| - 1]);
      Log(h[..|h| - 1]) + [Seen(h[|h| - 1], s.open, s.req.None?)]
  }

  predicate SynIn(x: Seen) {
    x.e.Arrive? && IsSyn(x.e.p) && x.e.entryOk && x.idle
  }

  predicate SynAckIn(x: Seen) {
    x.e.Arrive? && IsSynAck(x.e.p)
  }

  /** A packet without SYN that comes while no session is open. */
  predicate Plain(e: Event, open: bool) {
    e.Arrive? && e.p.flags & TH_SYN == 0 && !open
  }

  /** A packet that acknowledges sn. */
  predicate AckIn(x: Seen, sn: nat) {
    Plain(x.e, x.open) && HasAck(x.e.p) && x.e.p.recvAck == sn
  }

  predicate DataIn(x: Seen) {
    Plain(x.e, x.open) && HasData(x.e.p)
  }

  /** An event that ends a request before it becomes a session. */
  predicate EndIn(x: Seen) {
    x.e.RequestExpires? || (Plain(x.e, x.open) && IsRst(x.e.p))
  }

  /** The number that acknowledges a packet. */
  function Following(x: Seen): nat
    requires x.e.Arrive?
  {
    (x.e.p.sentSeq + 1) % SEQ
  }

  /** Sequence numbers wrap at 32 bits. */
  lemma FollowingWraps(x: Seen)
    requires x.e.Arrive? && x.e.p.sentSeq <= 0xFFFF_FFFF
    ensures Following(x) == if x.e.p.sentSeq == 0xFFFF_FFFF then 0 else x.e.p.sentSeq + 1
  {
  }

  /** The control bits, counted from the lowest: SYN is bit 1, RST bit 2 and ACK bit 4 (section 3.1 of RFC 9293). */
  lemma ControlBits(p: Packet)
    ensures IsSyn(p) <==> (p.flags >> 1) & 1 == 1 && (p.flags >> 4) & 1 == 0
    ensures IsSynAck(p) <==> (p.flags >> 1) & 1 == 1 && (p.flags >> 4) & 1 == 1
    ensures IsRst(p) <==> (p.flags >> 2) & 1 == 1
    ensures HasAck(p) <==> (p.flags >> 4) & 1 == 1
  {
  }

  /** i1 is the first SYN+ACK after i0. */
  predicate FirstSynAck(l: seq<Seen>, i0: nat, i1: nat) {
    && i0 < i1 < |l| && SynAckIn(l[i1])
    && forall k :: i0 < k < i1 ==> !SynAckIn(l[k])
  }

  /** i2 is the first packet after i1 that acknowledges sn. */
  predicate FirstAck(l: seq<Seen>, i1: nat, i2: nat, sn: nat) {
    && i1 < i2 < |l| && AckIn(l[i2], sn)
    && forall k :: i1 < k < i2 ==> !AckIn(l[k], sn)
  }

  /** A complete handshake: the request of the SYN at i0, the SYN+ACK at i1 and its ACK at i2, and the
      first data at i; nothing ends it on the way. */
  predicate Complete(l: seq<Seen>, i0: nat, i1: nat, i2: nat, i: nat) {
    && i0 < |l| && SynIn(l[i0])
    && FirstSynAck(l, i0, i1) && FirstAck(l, i1, i2, Following(l[i1]))
    && i2 <= i < |l| && DataIn(l[i]) && (i == i2 || !IsRst(l[i].e.p)) && l[i].e.sessionOk
    && (forall k :: i2 <= k < i ==> !DataIn(l[k]))
    && (forall k :: i0 < k < i && k != i2 ==> !EndIn(l[k]))
  }

  // ------------------------------------------------------ history of a request

  /** How the live request came about. */
  predicate History(l: seq<Seen>, r: Request) {
    && r.born < |l| && SynIn(l[r.born]) && r.reqSn == Following(l[r.born])
    && r.reqPackets >= 1 && r.resPackets == (if r.phase == Syn then 0 else 1)
    && (forall k :: r.born < k < |l| && !(r.phase == AckAck && k == r.ackAt) ==> !EndIn(l[k]))
    && (r.phase == Syn ==> forall k :: r.born < k < |l| ==> !SynAckIn(l[k]))
    && (r.phase != Syn ==> FirstSynAck(l, r.born, r.synAckAt) && r.resSn == Following(l[r.synAckAt]))
    && (r.phase == SynAck ==> forall k :: r.synAckAt < k < |l| ==> !AckIn(l[k], r.resSn))
    && (r.phase == AckAck ==> FirstAck(l, r.synAckAt, r.ackAt, r.resSn)
                              && forall k :: r.ackAt <= k < |l| ==> !DataIn(l[k]))
  }

  /** An event that leaves the request in its phase. */
  lemma Unmoved(l: seq<Seen>, x: Seen, r: Request, r': Request)
    requires History(l, r) && r' == r.(reqPackets := r'.reqPackets) && r'.reqPackets >= r.reqPackets
    requires !EndIn(x) && (r.phase == Syn ==> !SynAckIn(x))
    requires (r.phase == SynAck ==> !AckIn(x, r.resSn)) && (r.phase == AckAck ==> !DataIn(x))
    ensures History(l + [x], r')
  {
  }

  /** The request moves to its next phase. */
  lemma MovedOn(l: seq<Seen>, x: Seen, r: Request, r': Request)
    requires History(l, r) && r'.born == r.born && r'.reqSn == r.reqSn
    requires r'.reqPackets >= r.reqPackets && r'.resPackets == 1
    requires || (r.phase == Syn && r'.phase == SynAck && !EndIn(x)
                 && SynAckIn(x) && r'.synAckAt == |l| && r'.resSn == Following(x))
             || (r.phase == SynAck && r'.phase == AckAck && AckIn(x, r.resSn) && !DataIn(x)
                 && r'.ackAt == |l| && r'.synAckAt == r.synAckAt && r'.resSn == r.resSn)
    ensures History(l + [x], r')
  {
  }

  /** What one event can do to a request that stays. */
  lemma StepOnRequest(s: State, e: Event, r: Request, r': Request)
    requires s.req == Some(r) && Step(s, e).req == Some(r')
    ensures var x := Seen(e, s.open, false);
      && r'.reqPackets >= r.reqPackets && r'.reqSn == r.reqSn
      && r'.resPackets == r.resPackets + (if r'.phase != r.phase && r.phase == Syn then 1 else 0)
      &&
      if r'.phase == r.phase then
        && r' == r.(reqPackets := r'.reqPackets)
        && !EndIn(x) && (r.phase == Syn ==> !SynAckIn(x))
        && (r.phase == SynAck ==> !AckIn(x, r.resSn)) && (r.phase == AckAck ==> !DataIn(x))
      else if r.phase == Syn then
        && r'.phase == SynAck && r'.born == r.born && !EndIn(x)
        && SynAckIn(x) && r'.synAckAt == s.now && r'.resSn == Following(x)
      else
        && r.phase == SynAck && r'.phase == AckAck && r'.born == r.born && AckIn(x, r.resSn) && !DataIn(x)
        && r'.ackAt == s.now && r'.synAckAt == r.synAckAt && r'.resSn == r.resSn
  {
  }

  ghost predicate Reached(s: State, l: seq<Seen>) {
    s.now == |l| && (s.req.Some? ==> History(l, s.req.value))
  }

  lemma Grow(s: State, l: seq<Seen>, e: Event)
    requires Reached(s, l)
    ensures Reached(Step(s, e), l + [Seen(e, s.open, s.req.None?)])
  {
    var s', x := Step(s, e), Seen(e, s.open, s.req.None?);
    if s'.req.Some? && s.req.Some? {
      var r, r' := s.req.value, s'.req.value;
      StepOnRequest(s, e, r, r');
      if r'.phase == r.phase {
        Unmoved(l, x, r, r');
      } else {
        MovedOn(l, x, r, r');
      }
    }
  }

  /** The history of every reachable request. */
  lemma {:induction false} AllReached(h: seq<Event>)
    ensures Reached(After(h), Log(h))
  {
    if h != [] {
      AllReached(h[..|h| - 1]);
      Grow(After(h[..|h| - 1]), Log(h[..|h| - 1]), h[|h| - 1]);
    }
  }

  // ---------------------------------------------------------- main results

  lemma CreatesWhen(s: State, e: Event)
    ensures Creates(s, e) <==>
      && e.Arrive? && Plain(e, s.open) && s.req.Some? && HasData(e.p) && e.sessionOk
      && (IsAckAck(s.req.value, e.p) || (s.req.value.phase == AckAck && !IsRst(e.p)))
  {
    if e.Arrive? && s.req.Some? {
      assert |s.made + [s.req.value.born]| != |s.made|;
    }
  }

  /** The ACK brings the data with it. */
  lemma CompletedNow(l: seq<Seen>, x: Seen, r: Request)
    requires History(l, r) && r.phase == SynAck && AckIn(x, r.resSn) && DataIn(x) && x.e.sessionOk
    ensures Complete(l + [x], r.born, r.synAckAt, |l|, |l|)
  {
    assert FirstAck(l + [x], r.synAckAt, |l|, r.resSn);
  }

  /** The data comes after the ACK. */
  lemma CompletedBefore(l: seq<Seen>, x: Seen, r: Request)
    requires History(l, r) && r.phase == AckAck && DataIn(x) && x.e.sessionOk && !IsRst(x.e.p)
    ensures Complete(l + [x], r.born, r.synAckAt, r.ackAt, |l|)
  {
    assert FirstAck(l + [x], r.synAckAt, r.ackAt, r.resSn);
  }

  lemma {:induction false} LogSnoc(h: seq<Event>, e: Event)
    ensures Log(h + [e]) == Log(h) + [Seen(e, After(h).open, After(h).req.None?)]
    ensures After(h + [e]) == Step(After(h), e)
  {
    assert (h + [e])[..|h|] == h;
  }

  /** Every session has its handshake. */
  lemma {:induction false} HandshakeBefore(h: seq<Event>, e: Event)
    requires Creates(After(h), e)
    ensures exists i0, i1, i2 :: Complete(Log(h + [e]), i0, i1, i2, |h|)
  {
    AllReached(h);
    CreatesWhen(After(h), e);
    LogSnoc(h, e);
    var r, x := After(h).req.value, Seen(e, After(h).open, false);
    if r.phase == SynAck {
      CompletedNow(Log(h), x, r);
    } else {
      CompletedBefore(Log(h), x, r);
    }
  }

  /** Where the request of a complete handshake stands before event k. */
  ghost predicate Underway(s: State, l: seq<Seen>, i0: nat, i1: nat, i2: nat, k: nat)
    requires i1 < |l| && SynAckIn(l[i1])
  {
    && s.req.Some? && s.req.value.born == i0 && s.now == k
    && s.req.value.phase == (if k <= i1 then Syn else if k <= i2 then SynAck else AckAck)
    && (i1 < k ==> s.req.value.resSn == Following(l[i1]))
  }

  lemma StayUnderway(s: State, e: Event, l: seq<Seen>, i0: nat, i1: nat, i2: nat, i: nat, k: nat)
    requires Complete(l, i0, i1, i2, i) && i0 < k < i && Underway(s, l, i0, i1, i2, k)
    requires l[k] == Seen(e, s.open, false)
    ensures Underway(Step(s, e), l, i0, i1, i2, k + 1)
  {
    assert k != i2 ==> !EndIn(l[k]);
    assert i2 <= k ==> !DataIn(l[k]);
    assert k < i1 ==> !SynAckIn(l[k]);
    assert i1 < k < i2 ==> !AckIn(l[k], Following(l[i1]));
  }

  lemma {:induction false} LogAt(h: seq<Event>, k: nat)
    requires k < |h|
    ensures Log(h)[k] == Seen(h[k], After(h[..k]).open, After(h[..k]).req.None?)
    ensures After(h[..k + 1]) == Step(After(h[..k]), h[k])
  {
    assert h[..k + 1][..k] == h[..k];
    var g := h[..|h| - 1];
    if k < |g| {
      assert g[..k] == h[..k];
      LogAt(g, k);
    }
  }

  lemma {:induction false} AlwaysUnderway(h: seq<Event>, i0: nat, i1: nat, i2: nat, i: nat, k: nat)
    requires Complete(Log(h), i0, i1, i2, i) && i0 < k <= i
    ensures Underway(After(h[..k]), Log(h), i0, i1, i2, k)
    decreases k
  {
    LogAt(h, k - 1);
    if k == i0 + 1 {
      AllReached(h[..i0]);
    } else {
      AlwaysUnderway(h, i0, i1, i2, i, k - 1);
      StayUnderway(After(h[..k - 1]), h[k - 1], Log(h), i0, i1, i2, i, k - 1);
    }
  }

  lemma FinalStep(s: State, e: Event, l: seq<Seen>, i0: nat, i1: nat, i2: nat, i: nat)
    requires Complete(l, i0, i1, i2, i) && Underway(s, l, i0, i1, i2, i) && l[i] == Seen(e, s.open, false)
    ensures Creates(s, e)
  {
    CreatesWhen(s, e);
  }

  /** Every complete handshake makes a session. */
  lemma {:induction false} SessionAfter(h: seq<Event>, e: Event, i0: nat, i1: nat, i2: nat)
    requires Complete(Log(h + [e]), i0, i1, i2, |h|)
    ensures Creates(After(h), e)
  {
    var h' := h + [e];
    AlwaysUnderway(h', i0, i1, i2, |h|, |h|);
    LogAt(h', |h|);
    assert h'[..|h|] == h && h'[|h|] == e;
    FinalStep(After(h), e, Log(h'), i0, i1, i2, |h|);
  }

  /** The same with the state that the tracker was in when each event came. */
  lemma {:induction false} SessionIffLogged(h: seq<Event>, e: Event)
    ensures Creates(After(h), e) <==> exists i0, i1, i2 :: Complete(Log(h + [e]), i0, i1, i2, |h|)
  {
    if Creates(After(h), e) {
      HandshakeBefore(h, e);
    } else if exists i0, i1, i2 :: Complete(Log(h + [e]), i0, i1, i2, |h|) {
      var i0, i1, i2 :| Complete(Log(h + [e]), i0, i1, i2, |h|);
      SessionAfter(h, e, i0, i1, i2);
    }
  }

  // ------------------------------------------------------ by the events alone

  /** Packet k acknowledges the first SYN+ACK after i0, as the first one to do so. */
  ghost predicate ItsAck(l: seq<Seen>, i0: nat, k: nat) {
    exists i1: nat :: FirstSynAck(l, i0, i1) && FirstAck(l, i1, k, Following(l[i1]))
  }

  /** Event k is the end of the request of the SYN at i0: it expires, it is reset by a packet that is not its
      ACK, or it takes its first data, with or after its ACK. */
  ghost predicate StopsAt(l: seq<Seen>, i0: nat, k: nat)
    requires k < |l|
  {
    || (EndIn(l[k]) && !ItsAck(l, i0, k))
    || (DataIn(l[k]) && exists i2: nat :: i2 <= k && ItsAck(l, i0, i2))
  }

  /** A request that the SYN at i0 made is waiting at the end of l. */
  ghost predicate Alive(l: seq<Seen>, i0: nat) {
    i0 < |l| && SynIn(l[i0]) && forall k :: i0 < k < |l| ==> !StopsAt(l, i0, k)
  }

  /** Event i of l completes a handshake. */
  ghost predicate Completes(l: seq<Seen>, i: nat) {
    exists i0, i1, i2 :: Complete(l, i0, i1, i2, i)
  }

  /** The events with whether a session was open and whether no request was waiting, both told by the events before. */
  ghost function Reading(h: seq<Event>): (l: seq<Seen>)
    ensures |l| == |h|
    decreases |h|, 0
  {
    if h == [] then []
    else
      var g := h[..|h| - 1];
      Reading(g) + [Seen(h[|h| - 1], OpenAfter(g), IdleAfter(g))]
  }

  /** A session is open: a handshake was completed and the session has not ended since. */
  ghost predicate OpenAfter(h: seq<Event>)
    decreases |h|, 1
  {
    h != [] && !h[|h| - 1].SessionEnds? && (OpenAfter(h[..|h| - 1]) || Completes(Reading(h), |h| - 1))
  }

  ghost predicate IdleAfter(h: seq<Event>)
    decreases |h|, 1
  {
    !exists i0 :: Alive(Reading(h), i0)
  }

  lemma OneSynAck(l: seq<Seen>, i0: nat, i1: nat, i1': nat)
    requires FirstSynAck(l, i0, i1) && FirstSynAck(l, i0, i1')
    ensures i1 == i1'
  {
  }

  lemma OneAck(l: seq<Seen>, i1: nat, i2: nat, i2': nat, sn: nat)
    requires FirstAck(l, i1, i2, sn) && FirstAck(l, i1, i2', sn)
    ensures i2 == i2'
  {
  }

  /** The ACK that a request remembers is its ACK, and no other packet is. */
  lemma AckOfHistory(l: seq<Seen>, r: Request, k: nat)
    requires History(l, r)
    ensures ItsAck(l, r.born, k) <==> r.phase == AckAck && k == r.ackAt
  {
    if ItsAck(l, r.born, k) {
      var i1: nat :| FirstSynAck(l, r.born, i1) && FirstAck(l, i1, k, Following(l[i1]));
      assert r.phase != Syn;
      OneSynAck(l, r.born, i1, r.synAckAt);
      assert r.phase == AckAck;
      OneAck(l, i1, k, r.ackAt, r.resSn);
    }
    if r.phase == AckAck {
      assert FirstSynAck(l, r.born, r.synAckAt) && FirstAck(l, r.synAckAt, r.ackAt, Following(l[r.synAckAt]));
    }
  }

  /** A request that is there is alive by the events. */
  lemma HistoryAlive(l: seq<Seen>, r: Request)
    requires History(l, r)
    ensures Alive(l, r.born)
  {
    forall k | r.born < k < |l|
      ensures !StopsAt(l, r.born, k)
    {
      AckOfHistory(l, r, k);
      if i2: nat :| i2 <= k && ItsAck(l, r.born, i2) {
        AckOfHistory(l, r, i2);
      }
    }
  }

  /** What was an ACK of a request stays one when more is logged. */
  lemma AckGrows(l: seq<Seen>, x: Seen, i0: nat, k: nat)
    requires k < |l|
    ensures ItsAck(l + [x], i0, k) <==> ItsAck(l, i0, k)
  {
    var l' := l + [x];
    assert forall j :: 0 <= j < |l| ==> l'[j] == l[j];
    if ItsAck(l', i0, k) {
      var i1: nat :| FirstSynAck(l', i0, i1) && FirstAck(l', i1, k, Following(l'[i1]));
      assert FirstSynAck(l, i0, i1) && FirstAck(l, i1, k, Following(l[i1]));
    }
    if ItsAck(l, i0, k) {
      var i1: nat :| FirstSynAck(l, i0, i1) && FirstAck(l, i1, k, Following(l[i1]));
      assert FirstSynAck(l', i0, i1) && FirstAck(l', i1, k, Following(l'[i1]));
    }
  }

  lemma AlivePrefix(l: seq<Seen>, x: Seen, i0: nat)
    requires Alive(l + [x], i0) && i0 < |l|
    ensures Alive(l, i0)
  {
    var l' := l + [x];
    forall k | i0 < k < |l|
      ensures !StopsAt(l, i0, k)
    {
      AckGrows(l, x, i0, k);
      assert !StopsAt(l', i0, k) && l'[k] == l[k];
      if i2: nat :| i2 <= k && ItsAck(l, i0, i2) {
        AckGrows(l, x, i0, i2);
      }
    }
  }

  /** The packet that comes next acknowledges the request's SYN+ACK. */
  lemma NextAck(l: seq<Seen>, x: Seen, r: Request)
    requires History(l, r)
    ensures ItsAck(l + [x], r.born, |l|) <==> r.phase == SynAck && AckIn(x, r.resSn)
  {
    var l', n := l + [x], |l|;
    assert forall j :: 0 <= j < |l| ==> l'[j] == l[j];
    if ItsAck(l', r.born, n) {
      var i1: nat :| FirstSynAck(l', r.born, i1) && FirstAck(l', i1, n, Following(l'[i1]));
      assert FirstSynAck(l, r.born, i1);
      assert r.phase != Syn;
      OneSynAck(l, r.born, i1, r.synAckAt);
      assert l'[n] == x;
    }
    if r.phase == SynAck && AckIn(x, r.resSn) {
      assert FirstSynAck(l', r.born, r.synAckAt) && FirstAck(l', r.synAckAt, n, Following(l'[r.synAckAt]));
    }
  }

  /** A request goes only by an event that stops it. */
  lemma GoneStops(s: State, e: Event, l: seq<Seen>, r: Request)
    requires s.req == Some(r) && History(l, r) && Step(s, e).req.None?
    ensures StopsAt(l + [Seen(e, s.open, false)], r.born, |l|)
  {
    var x := Seen(e, s.open, false);
    var l', n := l + [x], |l|;
    assert l'[n] == x;
    NextAck(l, x, r);
    if r.phase == AckAck {
      AckOfHistory(l, r, r.ackAt);
      AckGrows(l, x, r.born, r.ackAt);
    }
  }

  /** A request that is alive by the events is there. */
  lemma {:induction false} AliveThere(h: seq<Event>, i0: nat)
    requires Alive(Log(h), i0)
    ensures After(h).req.Some? && After(h).req.value.born == i0
  {
    var g, e := h[..|h| - 1], h[|h| - 1];
    AllReached(g);
    if i0 < |g| {
      var x := Seen(e, After(g).open, After(g).req.None?);
      AlivePrefix(Log(g), x, i0);
      AliveThere(g, i0);
      var r := After(g).req.value;
      assert !StopsAt(Log(h), i0, |g|);
      if After(h).req.None? {
        GoneStops(After(g), e, Log(g), r);
      } else {
        StepOnRequest(After(g), e, r, After(h).req.value);
      }
    }
  }

  /** The events alone tell what the tracker's state is. */
  lemma {:induction false} ReadingIsLog(h: seq<Event>)
    ensures Reading(h) == Log(h)
    ensures OpenAfter(h) == After(h).open && IdleAfter(h) == After(h).req.None?
    decreases |h|
  {
    if h != [] {
      var g, e := h[..|h| - 1], h[|h| - 1];
      assert h == g + [e];
      ReadingIsLog(g);
      OpenSteps(g, e);
      IdleReads(h);
    }
  }

  lemma {:induction false} OpenSteps(g: seq<Event>, e: Event)
    requires Reading(g + [e]) == Log(g + [e]) && OpenAfter(g) == After(g).open
    ensures OpenAfter(g + [e]) == After(g + [e]).open
  {
    var h := g + [e];
    assert h[..|h| - 1] == g && h[|h| - 1] == e;
    SessionIffLogged(g, e);
    CreatesWhen(After(g), e);
  }

  lemma {:induction false} IdleReads(h: seq<Event>)
    requires Reading(h) == Log(h)
    ensures IdleAfter(h) == After(h).req.None?
  {
    AllReached(h);
    if After(h).req.Some? {
      HistoryAlive(Log(h), After(h).req.value);
    }
    if i0 :| Alive(Log(h), i0) {
      AliveThere(h, i0);
    }
  }

  /** A session is created exactly by the first data with or after the ACK of the first SYN+ACK after the SYN
      that made the request, with nothing ending the request on the way and no session open: over every trace,
      read by its events alone. */
  lemma {:induction false} SessionIffHandshake(h: seq<Event>, e: Event)
    ensures Creates(After(h), e) <==> Completes(Reading(h + [e]), |h|)
  {
    ReadingIsLog(h + [e]);
    SessionIffLogged(h, e);
  }

  /** The three packets of a handshake, for all sequence numbers: the third one, with data, creates a session exactly
      if it acknowledges the number that follows that of the second. */
  lemma {:induction false} ThreePackets(x: nat, y: nat, ack: nat, seq3: nat, len: nat)
    requires y <= 0xFFFF_FFFF && len > 0
    ensures var h := [Arrive(Packet(0x02, x, 0, 0), true, true), Arrive(Packet(0x12, y, 0, 0), true, true)];
            Creates(After(h), Arrive(Packet(0x10, seq3, ack, len), true, true)) <==>
            ack == if y == 0xFFFF_FFFF then 0 else y + 1
  {
    var e0, e1 := Arrive(Packet(0x02, x, 0, 0), true, true), Arrive(Packet(0x12, y, 0, 0), true, true);
    var h := [e0, e1];
    assert h[..1] == [e0] && [e0][..0] == [];
    assert After([e0]) == Step(START, e0);
    assert After(h) == Step(Step(START, e0), e1);
  }

  /** The phase of a request never goes back. */
  lemma PhaseMonotone(s: State, e: Event)
    requires s.req.Some? && Step(s, e).req.Some?
    ensures Step(s, e).req.value.born == s.req.value.born
    ensures Rank(Step(s, e).req.value.phase) >= Rank(s.req.value.phase)
  {
    StepOnRequest(s, e, s.req.value, Step(s, e).req.value);
  }

  predicate MadeOk(s: State) {
    && (forall i, j :: 0 <= i < j < |s.made| ==> s.made[i] < s.made[j])
    && (forall i :: 0 <= i < |s.made| ==> s.made[i] < s.now && (s.req.Some? ==> s.made[i] < s.req.value.born))
    && (s.req.Some? ==> s.req.value.born < s.now)
  }

  lemma MadeStep(s: State, e: Event)
    requires MadeOk(s)
    ensures MadeOk(Step(s, e))
  {
    if Creates(s, e) {
      CreatesWhen(s, e);
      assert Step(s, e).made == s.made + [s.req.value.born];
    } else if s.req.Some? && Step(s, e).req.Some? {
      PhaseMonotone(s, e);
    }
  }

  /** No request makes two sessions: the requests that made one are in the order of their birth. */
  lemma {:induction false} OneSessionEach(h: seq<Event>)
    ensures MadeOk(After(h))
  {
    if h != [] {
      OneSessionEach(h[..|h| - 1]);
      MadeStep(After(h[..|h| - 1]), h[|h| - 1]);
    }
  }

  // -------------------------------------------------------------- the code

  /** The request and the session of one connection, as the two tables hold them. */
  class Connection {
    var live: bool
    var phase: Phase
    var reqSn: nat
    var resSn: nat
    var reqPackets: nat
    var resPackets: nat
    var open: bool
    ghost var born: nat
    ghost var synAckAt: nat
    ghost var ackAt: nat
    ghost var made: seq<nat>
    ghost var now: nat

    ghost function View(): State
      reads this
    {
      State(if live then Some(Request(phase, reqSn, resSn, reqPackets, resPackets, born, synAckAt, ackAt)) else None,
            open, made, now)
    }

    constructor ()
      ensures View() == START
    {
      live, phase, reqSn, resSn, reqPackets, resPackets, open := false, Syn, 0, 0, 0, 0, false;
      born, synAckAt, ackAt, made, now := 0, 0, 0, [], 0;
    }

    /** _tcp_session_create and the release of the request, lines 380-386 and 402-407. */
    method Create(sessionOk: bool) returns (rc: int)
      requires live
      modifies this`live, this`open, this`made
      ensures View() == Establish(old(View()), old(View()).req.value, sessionOk)
      ensures rc == if sessionOk then 0 else -1
    {
      rc := -1;
      if sessionOk {
        open := true;
        made := made + [born];
        rc := 0;
      }
      live := false;
    }

    /** _three_way_handshake_process: 0 is returned just for a packet that makes a session. */
    method ThreeWayHandshake(p: Packet, entryOk: bool, sessionOk: bool) returns (rc: int)
      modifies this
      ensures View() == ThreeWay(old(View()), p, entryOk, sessionOk)
      ensures rc == if View().made != old(View()).made then 0 else -1
    {
      rc := -1;
      if !live {
        if IsSyn(p) {
          if !entryOk {
            return;
          }
          live, phase := true, Syn;
          reqSn, resSn := (p.sentSeq + 1) % SEQ, 0;
          reqPackets, resPackets := 1, 0;
          born, synAckAt, ackAt := now, 0, 0;
        }
      } else if IsSyn(p) {
        reqPackets := reqPackets + 1;
      } else if IsSynAck(p) {
        if phase == Syn {
          resSn := (p.sentSeq + 1) % SEQ;
          phase := SynAck;
          resPackets := resPackets + 1;
          synAckAt := now;
        }
      } else if HasAck(p) && phase == SynAck && p.recvAck == resSn {
        reqPackets := reqPackets + 1;
        phase := AckAck;
        ackAt := now;
        if HasData(p) {
          rc := Create(sessionOk);
        }
      } else if IsRst(p) {
        live := false;
      } else if HasData(p) {
        if phase == AckAck {
          rc := Create(sessionOk);
        }
      }
    }

    /** ch_sa_tcp_session_request_packet_handle; a packet for the session leaves the request alone. */
    method Handle(p: Packet, entryOk: bool, sessionOk: bool) returns (res: int)
      modifies this
      ensures View() == Step(old(View()), Arrive(p, entryOk, sessionOk))
      ensures res == if ToSession(old(View()), p) || Creates(old(View()), Arrive(p, entryOk, sessionOk)) then 0 else -1
    {
      res := 0;
      if !IsSyn(p) && !IsSynAck(p) && open {
      } else {
        res := ThreeWayHandshake(p, entryOk, sessionOk);
      }
      now := now + 1;
    }
  }
}
