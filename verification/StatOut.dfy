/** The serialisers of the statistics, ch_stat_obj_out of statistic/ch_stat_obj.c and
    ch_stat_pool_out and ch_stat_pool_out_all of statistic/ch_stat_pool.c, and a reader
    that recovers what they wrote. */
module StatOut {
  import opened Common
  import opened Output
  import opened OutputCode
  import Stat

  // -------------------------------------------------------------- what is written

  function EntryValues(s: Stat.Series): seq<Value>
    decreases |s|
  {
    if s == [] then [] else [Num(U64, s[0].n), Num(U64, s[0].v)] + EntryValues(s[1..])
  }

  /** No more entries than there are. */
  function Clip(s: Stat.Series, n: nat): (r: nat)
    ensures r <= |s|
  {
    if n > |s| then |s| else n
  }

  function SeriesValues(s: Stat.Series, kind: nat, n: nat): seq<Value> {
    [Num(U16, kind), Num(U32, Clip(s, n))] + EntryValues(s[..Clip(s, n)])
  }

  /** _g_stat_out. */
  function HeaderValues(p: Stat.Pool, time: nat): seq<Value> {
    [Num(U64, time), Num(U64, p.baseTime), Num(U64, p.up), Num(U64, p.tv), Num(U64, p.total), Num(U64, p.bytes)]
  }

  /** The series from k on. */
  function RestValues(p: Stat.Pool, n: nat, k: nat): seq<Value>
    requires k <= |p.objs|
    decreases |p.objs| - k
  {
    if k == |p.objs| then [] else SeriesValues(p.objs[k], k, n) + RestValues(p, n, k + 1)
  }

  function AllValues(p: Stat.Pool, time: nat, n: nat): seq<Value> {
    HeaderValues(p, time) + [Num(U16, |p.objs|)] + RestValues(p, n, 0)
  }

  function OneValues(p: Stat.Pool, time: nat, n: nat, kind: nat): seq<Value>
    requires kind < |p.objs|
  {
    HeaderValues(p, time) + [Num(U16, 1)] + SeriesValues(p.objs[kind], kind, n)
  }

  /** _index_up: the time, or the clock when it is before the window, and the number of slots begun. */
  function IndexUp(p: Stat.Pool, time: nat, clock: nat): (nat, nat)
    requires p.tv > 0
  {
    var t := if time < p.baseTime then clock else time;
    (t, ((t - p.baseTime) % Stat.UINT64 / p.tv % Stat.UINT32 + 1) % Stat.UINT32)
  }

  // --------------------------------------------------------------------- code

  /** What a serialiser promises of its result: on success everything was appended and the length
      returned says how much; on failure nothing before is lost. */
  ghost predicate Appended(was: seq<byte>, now: seq<byte>, len: int, xs: seq<Value>) {
    && (len >= 0 ==> now == was + EncodedAll(xs) && len == |EncodedAll(xs)|)
    && (len < 0 ==> len == -1 && was <= now)
  }

  /** The loop of ch_stat_obj_out. */
  method EntriesOut(dout: Dout, s: Stat.Series) returns (len: int)
    requires dout.Valid()
    modifies dout, dout.base
    ensures dout.Valid() && (dout.base == old(dout.base) || fresh(dout.base))
    ensures Appended(old(dout.Content()), dout.Content(), len, EntryValues(s))
  {
    ghost var was, done: seq<byte> := dout.Content(), [];
    len := 0;
    var i := 0;
    while i < |s|
      invariant 0 <= i <= |s| && len >= 0 && dout.Valid() && (dout.base == old(dout.base) || fresh(dout.base))
      invariant dout.Content() == was + done && done == EncodedAll(EntryValues(s[..i])) && len == |done|
    {
      var xs := [Num(U64, s[i].n), Num(U64, s[i].v)];
      var rc, _ := dout.WriteAll(xs);
      ReturnedLength(xs);
      if rc == -1 {
        return -1;
      }
      Shifted(was, done, EncodedAll(xs));
      EntriesSnoc(s, i);
      done := done + EncodedAll(xs);
      len := len + rc;
      i := i + 1;
    }
    assert s[..i] == s;
  }

  lemma {:induction false} EntriesConcat(s: Stat.Series, t: Stat.Series)
    ensures EntryValues(s + t) == EntryValues(s) + EntryValues(t)
    decreases |s|
  {
    if s == [] {
      assert s + t == t;
    } else {
      assert (s + t)[1..] == s[1..] + t;
      EntriesConcat(s[1..], t);
    }
  }

  lemma EntriesSnoc(s: Stat.Series, i: nat)
    requires i < |s|
    ensures EncodedAll(EntryValues(s[..i + 1]))
         == EncodedAll(EntryValues(s[..i])) + EncodedAll([Num(U64, s[i].n), Num(U64, s[i].v)])
  {
    assert s[..i + 1] == s[..i] + [s[i]];
    EntriesConcat(s[..i], [s[i]]);
    assert EntryValues([s[i]]) == [Num(U64, s[i].n), Num(U64, s[i].v)];
    EncodedConcat(EntryValues(s[..i]), [Num(U64, s[i].n), Num(U64, s[i].v)]);
  }

  /** Two parts written one after the other. */
  lemma AppendedBoth(was: seq<byte>, mid: seq<byte>, now: seq<byte>, len1: int, len2: int, xs: seq<Value>, ys: seq<Value>)
    requires len1 >= 0 && Appended(was, mid, len1, xs) && Appended(mid, now, len2, ys)
    ensures Appended(was, now, if len2 == -1 then -1 else len1 + len2, xs + ys)
  {
    EncodedConcat(xs, ys);
    Shifted(was, EncodedAll(xs), EncodedAll(ys));
  }

  /** ch_stat_obj_out. */
  method ObjOut(dout: Dout, s: Stat.Series, kind: nat, n: nat) returns (len: int)
    requires dout.Valid()
    modifies dout, dout.base
    ensures dout.Valid() && (dout.base == old(dout.base) || fresh(dout.base))
    ensures Appended(old(dout.Content()), dout.Content(), len, SeriesValues(s, kind, n))
  {
    var m := Clip(s, n);
    var head := [Num(U16, kind), Num(U32, m)];
    var rc, _ := dout.WriteAll(head);
    ReturnedLength(head);
    if rc == -1 {
      return -1;
    }
    ghost var mid := dout.Content();
    var rest := EntriesOut(dout, s[..m]);
    AppendedBoth(old(dout.Content()), mid, dout.Content(), rc, rest, head, EntryValues(s[..m]));
    len := if rest == -1 then -1 else rc + rest;
  }

  /** ch_stat_pool_out. */
  method PoolOut(p: Stat.Pool, dout: Dout, time: nat, kind: int, clock: nat) returns (len: int)
    requires dout.Valid() && Stat.Shaped(p)
    modifies dout, dout.base
    ensures dout.Valid() && (dout.base == old(dout.base) || fresh(dout.base))
    ensures kind < 0 || kind >= Stat.STAT_NUM ==> len == -1 && dout.Content() == old(dout.Content())
    ensures 0 <= kind < Stat.STAT_NUM ==>
      var (t, n) := IndexUp(p, time, clock);
      Appended(old(dout.Content()), dout.Content(), len, OneValues(p, t, n, kind))
  {
    if kind < 0 || kind >= Stat.STAT_NUM {
      return -1;
    }
    var (t, n) := IndexUp(p, time, clock);
    var head := HeaderValues(p, t) + [Num(U16, 1)];
    var rc, _ := dout.WriteAll(head);
    ReturnedLength(head);
    if rc == -1 {
      return -1;
    }
    ghost var mid := dout.Content();
    var rest := ObjOut(dout, p.objs[kind], kind, n);
    AppendedBoth(old(dout.Content()), mid, dout.Content(), rc, rest, head, SeriesValues(p.objs[kind], kind, n));
    len := if rest == -1 then -1 else rc + rest;
  }

  /** The loop of ch_stat_pool_out_all, from the series k on. */
  method RestOut(p: Stat.Pool, dout: Dout, n: nat) returns (len: int)
    requires dout.Valid() && Stat.Shaped(p)
    modifies dout, dout.base
    ensures dout.Valid() && (dout.base == old(dout.base) || fresh(dout.base))
    ensures Appended(old(dout.Content()), dout.Content(), len, RestValues(p, n, 0))
  {
    ghost var was, done: seq<Value> := dout.Content(), [];
    len := 0;
    var i := 0;
    while i < |p.objs|
      invariant 0 <= i <= |p.objs| && len >= 0 && dout.Valid() && (dout.base == old(dout.base) || fresh(dout.base))
      invariant dout.Content() == was + EncodedAll(done) && len == |EncodedAll(done)|
      invariant RestValues(p, n, 0) == done + RestValues(p, n, i)
    {
      var rc := ObjOut(dout, p.objs[i], i, n);
      if rc == -1 {
        return -1;
      }
      ghost var xs := SeriesValues(p.objs[i], i, n);
      EncodedConcat(done, xs);
      Shifted(was, EncodedAll(done), EncodedAll(xs));
      RestStep(p, n, i, done);
      done := done + xs;
      len := len + rc;
      i := i + 1;
    }
    assert done + [] == done;
  }

  lemma RestStep(p: Stat.Pool, n: nat, i: nat, done: seq<Value>)
    requires i < |p.objs|
    ensures done + RestValues(p, n, i) == done + SeriesValues(p.objs[i], i, n) + RestValues(p, n, i + 1)
  {
  }

  /** ch_stat_pool_out_all. */
  method PoolOutAll(p: Stat.Pool, dout: Dout, time: nat, clock: nat) returns (len: int)
    requires dout.Valid() && Stat.Shaped(p)
    modifies dout, dout.base
    ensures dout.Valid() && (dout.base == old(dout.base) || fresh(dout.base))
    ensures var (t, n) := IndexUp(p, time, clock);
            Appended(old(dout.Content()), dout.Content(), len, AllValues(p, t, n))
  {
    var (t, n) := IndexUp(p, time, clock);
    var head := HeaderValues(p, t) + [Num(U16, |p.objs|)];
    var rc, _ := dout.WriteAll(head);
    ReturnedLength(head);
    if rc == -1 {
      return -1;
    }
    ghost var mid := dout.Content();
    var rest := RestOut(p, dout, n);
    AppendedBoth(old(dout.Content()), mid, dout.Content(), rc, rest, head, RestValues(p, n, 0));
    len := if rest == -1 then -1 else rc + rest;
  }

  // ------------------------------------------------------------------- reading

  /** A series as it was sent: its type and its entries. */
  datatype Sent = Sent(kind: nat, entries: Stat.Series)

  datatype Report = Report(time: nat, baseTime: nat, up: nat, tv: nat, total: nat, bytes: nat, series: seq<Sent>)

  /** A number of things, one after the other. */
  function Many<T>(read: seq<byte> -> Option<(T, seq<byte>)>, s: seq<byte>, count: nat): Option<(seq<T>, seq<byte>)>
    decreases count
  {
    if count == 0 then Some(([], s))
    else
      match read(s)
      case None => None
      case Some((x, rest)) =>
        match Many(read, rest, count - 1)
        case None => None
        case Some((xs, rest')) => Some(([x] + xs, rest'))
  }

  function ReadEntry(s: seq<byte>): Option<(Stat.Entry, seq<byte>)> {
    match ReadAll(s, [NumF(U64), NumF(U64)])
    case None => None
    case Some((xs, rest)) =>
      if |xs| != 2 || !xs[0].Num? || !xs[1].Num? then None else Some((Stat.Entry(xs[0].v, xs[1].v), rest))
  }

  function ReadSeries(s: seq<byte>): Option<(Sent, seq<byte>)> {
    match ReadAll(s, [NumF(U16), NumF(U32)])
    case None => None
    case Some((xs, rest)) =>
      if |xs| != 2 || !xs[0].Num? || !xs[1].Num? then None
      else
        match Many(ReadEntry, rest, xs[1].v)
        case None => None
        case Some((es, rest')) => Some((Sent(xs[0].v, es), rest'))
  }

  const HEADER := [NumF(U64), NumF(U64), NumF(U64), NumF(U64), NumF(U64), NumF(U64), NumF(U16)]

  function ReadReport(s: seq<byte>): Option<(Report, seq<byte>)> {
    match ReadAll(s, HEADER)
    case None => None
    case Some((xs, rest)) =>
      if |xs| != 7 || exists i :: 0 <= i < 7 && !xs[i].Num? then None
      else
        match Many(ReadSeries, rest, xs[6].v)
        case None => None
        case Some((series, rest')) =>
          Some((Report(xs[0].v, xs[1].v, xs[2].v, xs[3].v, xs[4].v, xs[5].v, series), rest'))
  }

  /** All counters are 64-bit numbers. */
  predicate Counters(s: Stat.Series) {
    |s| < Pow(U32) && forall i :: 0 <= i < |s| ==> s[i].n < Pow(U64) && s[i].v < Pow(U64)
  }

  /** What is written in two parts is the first part and then the rest. */
  lemma InTwo(xs: seq<Value>, ys: seq<Value>, rest: seq<byte>)
    ensures EncodedAll(xs + ys) + rest == EncodedAll(xs) + (EncodedAll(ys) + rest)
  {
    EncodedConcat(xs, ys);
    Shifted(EncodedAll(xs), EncodedAll(ys), rest);
  }

  lemma ReadPairBack(w1: nat, a: nat, w2: nat, b: nat, rest: seq<byte>)
    requires a < Pow(w1) && b < Pow(w2)
    ensures ReadAll(EncodedAll([Num(w1, a), Num(w2, b)]) + rest, [NumF(w1), NumF(w2)]) == Some(([Num(w1, a), Num(w2, b)], rest))
  {
    var xs := [Num(w1, a), Num(w2, b)];
    ReadAllBack(xs, rest);
    assert Fields(xs) == [NumF(w1), NumF(w2)];
  }

  function Concat(parts: seq<seq<byte>>): seq<byte>
    decreases |parts|
  {
    if parts == [] then [] else parts[0] + Concat(parts[1..])
  }

  /** What reads back each part reads back all of them. */
  lemma {:induction false} ManyBack<T>(read: seq<byte> -> Option<(T, seq<byte>)>, parts: seq<seq<byte>>, xs: seq<T>, rest: seq<byte>)
    requires |parts| == |xs|
    requires forall i, t: seq<byte> :: 0 <= i < |xs| ==> read(parts[i] + t) == Some((xs[i], t))
    ensures Many(read, Concat(parts) + rest, |xs|) == Some((xs, rest))
    decreases |xs|
  {
    if xs == [] {
      assert Concat(parts) + rest == rest;
    } else {
      var tail := Concat(parts[1..]) + rest;
      assert Concat(parts) + rest == parts[0] + tail;
      ManyBack(read, parts[1..], xs[1..], rest);
      assert xs == [xs[0]] + xs[1..];
    }
  }

  lemma ReadEntryBack(e: Stat.Entry, rest: seq<byte>)
    requires e.n < Pow(U64) && e.v < Pow(U64)
    ensures ReadEntry(EncodedAll([Num(U64, e.n), Num(U64, e.v)]) + rest) == Some((e, rest))
  {
    ReadPairBack(U64, e.n, U64, e.v, rest);
  }

  function EntryBytes(e: Stat.Entry): seq<byte> {
    EncodedAll([Num(U64, e.n), Num(U64, e.v)])
  }

  /** The bytes of the entries, one part each. */
  function EntryParts(s: Stat.Series): (r: seq<seq<byte>>)
    ensures |r| == |s| && forall i :: 0 <= i < |r| ==> r[i] == EntryBytes(s[i])
  {
    seq(|s|, i requires 0 <= i < |s| => EntryBytes(s[i]))
  }

  lemma {:induction false} EntryPartsOf(s: Stat.Series)
    ensures EncodedAll(EntryValues(s)) == Concat(EntryParts(s))
    decreases |s|
  {
    if s != [] {
      EncodedConcat([Num(U64, s[0].n), Num(U64, s[0].v)], EntryValues(s[1..]));
      EntryPartsOf(s[1..]);
      assert EntryParts(s)[1..] == EntryParts(s[1..]);
    }
  }

  lemma ReadEntriesBack(s: Stat.Series, rest: seq<byte>)
    requires forall i :: 0 <= i < |s| ==> s[i].n < Pow(U64) && s[i].v < Pow(U64)
    ensures Many(ReadEntry, EncodedAll(EntryValues(s)) + rest, |s|) == Some((s, rest))
  {
    EntryPartsOf(s);
    forall i, t: seq<byte> | 0 <= i < |s|
      ensures ReadEntry(EntryParts(s)[i] + t) == Some((s[i], t))
    {
      ReadEntryBack(s[i], t);
    }
    ManyBack(ReadEntry, EntryParts(s), s, rest);
  }

  lemma ReadSeriesCons(s: seq<byte>, kind: nat, m: nat, rest: seq<byte>, es: Stat.Series, rest': seq<byte>)
    requires ReadAll(s, [NumF(U16), NumF(U32)]) == Some(([Num(U16, kind), Num(U32, m)], rest))
    requires Many(ReadEntry, rest, m) == Some((es, rest'))
    ensures ReadSeries(s) == Some((Sent(kind, es), rest'))
  {
  }

  lemma ReadSeriesBack(s: Stat.Series, kind: nat, n: nat, rest: seq<byte>)
    requires Counters(s) && kind < Pow(U16)
    ensures ReadSeries(EncodedAll(SeriesValues(s, kind, n)) + rest) == Some((Sent(kind, s[..Clip(s, n)]), rest))
  {
    var m := Clip(s, n);
    var tail := EncodedAll(EntryValues(s[..m])) + rest;
    InTwo([Num(U16, kind), Num(U32, m)], EntryValues(s[..m]), rest);
    ReadPairBack(U16, kind, U32, m, tail);
    ReadEntriesBack(s[..m], rest);
    ReadSeriesCons(EncodedAll(SeriesValues(s, kind, n)) + rest, kind, m, tail, s[..m], rest);
  }

  function SeriesBytes(p: Stat.Pool, n: nat, k: nat): seq<byte>
    requires k < |p.objs|
  {
    EncodedAll(SeriesValues(p.objs[k], k, n))
  }

  /** The bytes of the series from k on, one part each. */
  function Parts(p: Stat.Pool, n: nat, k: nat): (r: seq<seq<byte>>)
    requires k <= |p.objs|
    ensures |r| == |p.objs| - k && forall i :: 0 <= i < |r| ==> r[i] == SeriesBytes(p, n, k + i)
  {
    seq(|p.objs| - k, i requires 0 <= i < |p.objs| - k => SeriesBytes(p, n, k + i))
  }

  lemma {:induction false} PartsOf(p: Stat.Pool, n: nat, k: nat)
    requires k <= |p.objs|
    ensures EncodedAll(RestValues(p, n, k)) == Concat(Parts(p, n, k))
    decreases |p.objs| - k
  {
    if k < |p.objs| {
      EncodedConcat(SeriesValues(p.objs[k], k, n), RestValues(p, n, k + 1));
      PartsOf(p, n, k + 1);
      assert Parts(p, n, k)[1..] == Parts(p, n, k + 1);
    }
  }

  /** The first n entries of each series. */
  function SentOf(p: Stat.Pool, n: nat): (r: seq<Sent>)
    ensures |r| == |p.objs|
    ensures forall i :: 0 <= i < |r| ==> r[i] == Sent(i, p.objs[i][..Clip(p.objs[i], n)])
  {
    seq(|p.objs|, i requires 0 <= i < |p.objs| => Sent(i, p.objs[i][..Clip(p.objs[i], n)]))
  }

  lemma ReadAllSeries(p: Stat.Pool, n: nat, rest: seq<byte>)
    requires |p.objs| < Pow(U16) && forall j :: 0 <= j < |p.objs| ==> Counters(p.objs[j])
    ensures Many(ReadSeries, EncodedAll(RestValues(p, n, 0)) + rest, |p.objs|) == Some((SentOf(p, n), rest))
  {
    var parts := Parts(p, n, 0);
    PartsOf(p, n, 0);
    forall i, t: seq<byte> | 0 <= i < |parts|
      ensures ReadSeries(parts[i] + t) == Some((SentOf(p, n)[i], t))
    {
      ReadSeriesBack(p.objs[i], i, n, t);
    }
    ManyBack(ReadSeries, parts, SentOf(p, n), rest);
  }

  lemma ReadHeaderBack(p: Stat.Pool, time: nat, count: nat, rest: seq<byte>)
    requires time < Pow(U64) && p.baseTime < Pow(U64) && p.up < Pow(U64) && p.tv < Pow(U64)
    requires p.total < Pow(U64) && p.bytes < Pow(U64) && count < Pow(U16)
    ensures ReadAll(EncodedAll(HeaderValues(p, time) + [Num(U16, count)]) + rest, HEADER)
         == Some((HeaderValues(p, time) + [Num(U16, count)], rest))
  {
    var xs := HeaderValues(p, time) + [Num(U16, count)];
    ReadAllBack(xs, rest);
    assert Fields(xs) == HEADER;
  }

  lemma ReadReportCons(s: seq<byte>, p: Stat.Pool, time: nat, count: nat, rest: seq<byte>, xs: seq<Sent>, rest': seq<byte>)
    requires ReadAll(s, HEADER) == Some((HeaderValues(p, time) + [Num(U16, count)], rest))
    requires Many(ReadSeries, rest, count) == Some((xs, rest'))
    ensures ReadReport(s) == Some((Report(time, p.baseTime, p.up, p.tv, p.total, p.bytes, xs), rest'))
  {
  }

  /** The whole report is read back, whatever follows it. */
  lemma ReadReportBack(p: Stat.Pool, time: nat, n: nat, rest: seq<byte>)
    requires |p.objs| < Pow(U16) && forall j :: 0 <= j < |p.objs| ==> Counters(p.objs[j])
    requires time < Pow(U64) && p.baseTime < Pow(U64) && p.up < Pow(U64) && p.tv < Pow(U64)
    requires p.total < Pow(U64) && p.bytes < Pow(U64)
    ensures ReadReport(EncodedAll(AllValues(p, time, n)) + rest)
         == Some((Report(time, p.baseTime, p.up, p.tv, p.total, p.bytes, SentOf(p, n)), rest))
  {
    var tail := EncodedAll(RestValues(p, n, 0)) + rest;
    InTwo(HeaderValues(p, time) + [Num(U16, |p.objs|)], RestValues(p, n, 0), rest);
    ReadHeaderBack(p, time, |p.objs|, tail);
    ReadAllSeries(p, n, rest);
    ReadReportCons(EncodedAll(AllValues(p, time, n)) + rest, p, time, |p.objs|, tail, SentOf(p, n), rest);
  }
}
