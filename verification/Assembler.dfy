/** The out-of-order buffer of one TCP direction (tcp/session/ch_assemble_fragment.c).

    The ring of fragments is a sequence ordered by offset.  `Covers` says which
    stream offsets the buffer holds; push and pop are specified by it. */
module Assembler {
  import opened Common

  type Byte = b: int | 0 <= b < 256

  const TWO32 := 0x1_0000_0000

  datatype Fragment = Fragment(offset: nat, data: seq<Byte>)

  function End(d: Fragment): nat {
    d.offset + |d.data|
  }

  /** The program computes `offset + len` in 32 bits; for such a fragment it does not wrap. */
  predicate Fits(d: Fragment) {
    End(d) < TWO32
  }

  predicate Within(d: Fragment, q: nat) {
    d.offset <= q < d.offset + |d.data|
  }

  predicate Covers(frags: seq<Fragment>, q: nat) {
    exists k :: 0 <= k < |frags| && Within(frags[k], q)
  }

  /** Non-empty fragments, in order, with a gap between any two of them. */
  predicate Separated(frags: seq<Fragment>) {
    && (forall k :: 0 <= k < |frags| ==> Fits(frags[k]) && frags[k].data != [])
    && (forall a, b :: 0 <= a < b < |frags| ==> End(frags[a]) < frags[b].offset)
  }

  predicate SliceOf(d: Fragment, stream: seq<Byte>) {
    d.offset + |d.data| <= |stream| && d.data == stream[d.offset..d.offset + |d.data|]
  }

  predicate AllSlices(frags: seq<Fragment>, stream: seq<Byte>) {
    forall k :: 0 <= k < |frags| ==> SliceOf(frags[k], stream)
  }

  /** _data_fragment_covered: a lies inside b. */
  predicate Covered(a: Fragment, b: Fragment) {
    a.offset >= b.offset && End(b) >= End(a)
  }

  /** The same test as the program makes it, with ends computed in 32 bits. */
  predicate Covered32(a: Fragment, b: Fragment) {
    a.offset >= b.offset && End(b) % TWO32 >= End(a) % TWO32
  }

  /** For a slice the 32-bit test is right, whatever the buffer holds, exactly if the slice ends below 2^32: one
      that passes it is taken for covered, and dropped, beside a fragment that has none of it. */
  lemma CoveredIffFits(df: Fragment)
    requires df.offset < TWO32 && 0 < |df.data| < TWO32
    ensures (forall d :: Fits(d) && d.data != [] ==> (Covered32(df, d) <==> Covered(df, d))) <==> Fits(df)
  {
    if !Fits(df) {
      var wrapped := End(df) % TWO32;
      assert wrapped == End(df) - TWO32 && wrapped < df.offset;
      var n := if wrapped == 0 then 1 else wrapped;
      var d := Fragment(0, seq(n, _ => 0));
      assert End(d) == n && Fits(d) && d.data != [];
      assert Covered32(df, d) && !Covered(df, d) && !Within(d, df.offset);
    }
  }

  /** The fragments that df does not cover. */
  function Uncovered(frags: seq<Fragment>, df: Fragment): seq<Fragment> {
    if frags == [] then []
    else
      var last := frags[|frags| - 1];
      Uncovered(frags[..|frags| - 1], df) + if Covered(last, df) then [] else [last]
  }

  lemma {:induction false} UncoveredProps(frags: seq<Fragment>, df: Fragment)
    ensures forall d :: d in Uncovered(frags, df) <==> d in frags && !Covered(d, df)
    ensures Uncovered(frags, df) == frags || exists d :: d in frags && Covered(d, df)
  {
    if frags != [] {
      var front, last := frags[..|frags| - 1], frags[|frags| - 1];
      assert frags == front + [last];
      UncoveredProps(front, df);
    }
  }

  lemma {:induction false} UncoveredSeparated(frags: seq<Fragment>, df: Fragment)
    requires Separated(frags)
    ensures Separated(Uncovered(frags, df))
  {
    if frags != [] {
      var front, last := frags[..|frags| - 1], frags[|frags| - 1];
      UncoveredSeparated(front, df);
      UncoveredProps(front, df);
      var kept := Uncovered(front, df);
      forall a | 0 <= a < |kept|
        ensures End(kept[a]) < last.offset
      {
        assert kept[a] in front;
      }
      if !Covered(last, df) {
        AppendSeparated(kept, last);
      }
    }
  }

  lemma AppendSeparated(frags: seq<Fragment>, last: Fragment)
    requires Separated(frags) && Fits(last) && last.data != []
    requires forall a :: 0 <= a < |frags| ==> End(frags[a]) < last.offset
    ensures Separated(frags + [last])
  {
  }

  lemma UncoveredCovers(frags: seq<Fragment>, df: Fragment, q: nat)
    requires Separated(frags) && Fits(df)
    ensures Covers(Uncovered(frags, df), q) || Within(df, q) <==> Covers(frags, q) || Within(df, q)
  {
    UncoveredProps(frags, df);
    var kept := Uncovered(frags, df);
    if Covers(frags, q) && !Within(df, q) {
      var a :| 0 <= a < |frags| && Within(frags[a], q);
      assert frags[a] in kept;
    }
    if Covers(kept, q) {
      var a :| 0 <= a < |kept| && Within(kept[a], q);
      assert kept[a] in frags;
    }
  }

  /** _data_fragment_covered. */
  method TestCovered(a: Fragment, b: Fragment) returns (covered: bool)
    requires Fits(a) && Fits(b)
    ensures covered <==> Covered(a, b)
  {
    covered := Covered32(a, b);
  }

  lemma UncoveredSnoc(frags: seq<Fragment>, k: nat, df: Fragment)
    requires k < |frags|
    ensures Uncovered(frags[..k + 1], df) == Uncovered(frags[..k], df) + (if Covered(frags[k], df) then [] else [frags[k]])
  {
    assert frags[..k + 1][..k] == frags[..k];
  }

  /** _data_fragment_covered_free: drop what df covers; stop if df itself is covered. */
  method FreeCovered(frags: seq<Fragment>, df: Fragment) returns (kept: seq<Fragment>, covered: bool)
    requires Separated(frags) && Fits(df)
    ensures covered ==> kept == frags && exists k :: 0 <= k < |frags| && Covered(df, frags[k])
    ensures !covered ==> kept == Uncovered(frags, df) && forall d :: d in kept ==> !Covered(df, d)
    ensures forall q: nat :: Covers(kept, q) || Within(df, q) <==> Covers(frags, q) || Within(df, q)
  {
    kept, covered := [], false;
    var k := 0;
    while k < |frags|
      invariant 0 <= k <= |frags| && !covered
      invariant kept == Uncovered(frags[..k], df)
      invariant forall j :: 0 <= j < |kept| ==> !Covered(df, kept[j])
    {
      UncoveredSnoc(frags, k, df);
      var inside := TestCovered(frags[k], df);
      if !inside {
        covered := TestCovered(df, frags[k]);
        if covered {
          NoneDropped(frags, k, df);
          kept := kept + frags[k..];
          assert frags[..k] + frags[k..] == frags;
          return;
        }
        kept := kept + [frags[k]];
      }
      k := k + 1;
    }
    assert frags[..k] == frags;
    KeptCovers(frags, df);
  }

  lemma NoneDropped(frags: seq<Fragment>, k: nat, df: Fragment)
    requires Separated(frags) && Fits(df) && k < |frags| && Covered(df, frags[k])
    ensures Uncovered(frags[..k], df) == frags[..k]
  {
    UncoveredProps(frags[..k], df);
    forall d | d in frags[..k]
      ensures !Covered(d, df)
    {
      var a :| 0 <= a < k && frags[a] == d;
      assert End(frags[a]) < frags[k].offset;
    }
  }

  /** _data_fragment_neighbors_get: the index of the first fragment that does not
      start before df; it is the neighbour after, the one below it the neighbour before. */
  method Neighbors(frags: seq<Fragment>, df: Fragment) returns (at: nat)
    ensures at <= |frags|
    ensures forall k :: 0 <= k < at ==> frags[k].offset < df.offset
    ensures at < |frags| ==> frags[at].offset >= df.offset
  {
    at := 0;
    while at < |frags| && frags[at].offset < df.offset
      invariant at <= |frags|
      invariant forall k :: 0 <= k < at ==> frags[k].offset < df.offset
    {
      at := at + 1;
    }
  }

  /** df is no part of its neighbours and they are no part of it. */
  predicate Between(frags: seq<Fragment>, at: nat, df: Fragment)
    requires at <= |frags|
  {
    && (at > 0 ==> frags[at - 1].offset < df.offset)
    && (at < |frags| ==> frags[at].offset >= df.offset)
    && (forall k :: at - 1 <= k <= at && 0 <= k < |frags| ==> !Covered(frags[k], df) && !Covered(df, frags[k]))
  }

  /** _data_fragment_trim: cut off what the neighbours already hold. */
  method Trim(frags: seq<Fragment>, at: nat, df: Fragment, ghost stream: seq<Byte>) returns (r: Fragment)
    requires Separated(frags) && Fits(df) && at <= |frags| && Between(frags, at, df)
    ensures Fits(r)
    ensures at > 0 ==> End(frags[at - 1]) <= r.offset
    ensures at < |frags| ==> End(r) <= frags[at].offset
    ensures SliceOf(df, stream) ==> SliceOf(r, stream)
    ensures forall q: nat :: Within(r, q) ==> Within(df, q)
    ensures forall q: nat :: Within(df, q) ==> Within(r, q) || Covers(frags, q)
  {
    r := df;
    if at > 0 && End(frags[at - 1]) > r.offset {
      var diff := End(frags[at - 1]) - r.offset;
      r := Fragment(r.offset + diff, r.data[diff..]);
    }
    if at < |frags| && End(r) > frags[at].offset {
      var diff := End(r) - frags[at].offset;
      r := r.(data := r.data[..|r.data| - diff]);
    }
    forall q: nat | Within(df, q) && !Within(r, q)
      ensures Covers(frags, q)
    {
      if q < r.offset {
        assert Within(frags[at - 1], q);
      } else {
        assert Within(frags[at], q);
      }
    }
  }

  function Glue(a: Fragment, b: Fragment): Fragment {
    Fragment(a.offset, a.data + b.data)
  }

  lemma GlueProps(a: Fragment, b: Fragment, stream: seq<Byte>)
    requires End(a) == b.offset
    ensures End(Glue(a, b)) == End(b)
    ensures forall q: nat :: Within(Glue(a, b), q) <==> Within(a, q) || Within(b, q)
    ensures SliceOf(a, stream) && SliceOf(b, stream) ==> SliceOf(Glue(a, b), stream)
  {
  }

  /** _data_fragments_merge, first half: join df with the neighbours it touches.
      The result replaces the fragments from lo up to hi. */
  method Join(frags: seq<Fragment>, at: nat, df: Fragment, ghost stream: seq<Byte>)
      returns (mdf: Fragment, lo: nat, hi: nat)
    requires Separated(frags) && Fits(df) && df.data != [] && at <= |frags|
    requires at > 0 ==> End(frags[at - 1]) <= df.offset
    requires at < |frags| ==> End(df) <= frags[at].offset
    ensures lo <= at <= hi <= |frags| && Fits(mdf) && mdf.data != []
    ensures lo > 0 ==> End(frags[lo - 1]) < mdf.offset
    ensures hi < |frags| ==> End(mdf) < frags[hi].offset
    ensures AllSlices(frags, stream) && SliceOf(df, stream) ==> SliceOf(mdf, stream)
    ensures forall q: nat :: Within(mdf, q) <==> Within(df, q) || exists k :: lo <= k < hi && Within(frags[k], q)
  {
    mdf, lo, hi := df, at, at;
    if at > 0 && End(frags[at - 1]) == df.offset {
      GlueProps(frags[at - 1], mdf, stream);
      mdf, lo := Glue(frags[at - 1], mdf), at - 1;
    }
    assert forall q: nat :: Within(mdf, q) <==> Within(df, q) || exists k :: lo <= k < at && Within(frags[k], q);
    if at < |frags| && End(df) == frags[at].offset {
      GlueProps(mdf, frags[at], stream);
      mdf, hi := Glue(mdf, frags[at]), at + 1;
    }
  }

  /** _data_fragments_merge: insert df, joined with the neighbours it touches. */
  method Merge(frags: seq<Fragment>, at: nat, df: Fragment, ghost stream: seq<Byte>) returns (r: seq<Fragment>)
    requires Separated(frags) && Fits(df) && df.data != [] && at <= |frags|
    requires at > 0 ==> End(frags[at - 1]) <= df.offset
    requires at < |frags| ==> End(df) <= frags[at].offset
    ensures Separated(r)
    ensures AllSlices(frags, stream) && SliceOf(df, stream) ==> AllSlices(r, stream)
    ensures forall q: nat :: Covers(r, q) <==> Covers(frags, q) || Within(df, q)
  {
    var mdf, lo, hi := Join(frags, at, df, stream);
    r := frags[..lo] + [mdf] + frags[hi..];
    MergedSeparated(frags, lo, mdf, hi);
    forall q: nat
      ensures Covers(r, q) <==> Covers(frags, q) || Within(df, q)
    {
      MergedCovers(frags, lo, mdf, hi, q);
    }
  }

  lemma MergedSeparated(frags: seq<Fragment>, lo: nat, mdf: Fragment, hi: nat)
    requires Separated(frags) && lo <= hi <= |frags| && Fits(mdf) && mdf.data != []
    requires lo > 0 ==> End(frags[lo - 1]) < mdf.offset
    requires hi < |frags| ==> End(mdf) < frags[hi].offset
    ensures Separated(frags[..lo] + [mdf] + frags[hi..])
  {
    var r := frags[..lo] + [mdf] + frags[hi..];
    forall k | 0 <= k < |r|
      ensures Fits(r[k]) && r[k].data != []
      ensures k < lo ==> r[k] == frags[k] && End(r[k]) < mdf.offset
      ensures k > lo ==> r[k] == frags[k - lo - 1 + hi] && End(mdf) < r[k].offset
    {
      if k < lo - 1 {
        assert End(frags[k]) < frags[lo - 1].offset;
      }
      if k > lo + 1 {
        assert End(frags[hi]) < frags[k - lo - 1 + hi].offset;
      }
    }
  }

  /** What the spliced sequence covers: the kept ends and the new fragment. */
  lemma MergedCovers(frags: seq<Fragment>, lo: nat, mdf: Fragment, hi: nat, q: nat)
    requires lo <= hi <= |frags|
    ensures Covers(frags[..lo] + [mdf] + frags[hi..], q) <==>
              Within(mdf, q) || exists k :: (0 <= k < lo || hi <= k < |frags|) && Within(frags[k], q)
  {
    var r := frags[..lo] + [mdf] + frags[hi..];
    if Covers(r, q) {
      var k :| 0 <= k < |r| && Within(r[k], q);
      if k < lo {
        assert Within(frags[k], q);
      } else if k > lo {
        assert Within(frags[k - lo - 1 + hi], q);
      }
    }
    if Within(mdf, q) {
      assert Within(r[lo], q);
    } else if exists k :: (0 <= k < lo || hi <= k < |frags|) && Within(frags[k], q) {
      var k :| (0 <= k < lo || hi <= k < |frags|) && Within(frags[k], q);
      assert Within(r[if k < lo then k else k - hi + lo + 1], q);
    }
  }

  /** _data_fragments_covered_free: drop or shorten what lies below `last`. */
  method FreeStale(frags: seq<Fragment>, last: nat, ghost stream: seq<Byte>) returns (r: seq<Fragment>)
    requires Separated(frags)
    ensures Separated(r) && (AllSlices(frags, stream) ==> AllSlices(r, stream))
    ensures forall k :: 0 <= k < |r| ==> r[k].offset >= last
    ensures forall q: nat :: Covers(r, q) <==> Covers(frags, q) && q >= last
  {
    var k := 0;
    while k < |frags| && End(frags[k]) <= last
      invariant 0 <= k <= |frags|
      invariant forall a :: 0 <= a < k ==> End(frags[a]) <= last
    {
      k := k + 1;
    }
    if k == |frags| {
      r := [];
      return;
    }
    r := [Cut(frags[k], last)] + frags[k + 1..];
    forall q: nat
      ensures Covers(r, q) <==> Covers(frags, q) && q >= last
    {
      StaleCovers(frags, k, last, q);
    }
  }

  function Cut(d: Fragment, last: nat): (r: Fragment)
    requires last < End(d) && d.data != []
    ensures End(r) == End(d) && r.data != [] && r.offset >= last && r.offset >= d.offset
    ensures forall q: nat :: Within(r, q) <==> Within(d, q) && q >= last
  {
    if d.offset < last then Fragment(last, d.data[last - d.offset..]) else d
  }

  lemma StaleCovers(frags: seq<Fragment>, k: nat, last: nat, q: nat)
    requires Separated(frags) && k < |frags| && last < End(frags[k])
    requires forall a :: 0 <= a < k ==> End(frags[a]) <= last
    ensures Covers([Cut(frags[k], last)] + frags[k + 1..], q) <==> Covers(frags, q) && q >= last
  {
    var r := [Cut(frags[k], last)] + frags[k + 1..];
    if Covers(r, q) {
      var a :| 0 <= a < |r| && Within(r[a], q);
      assert Within(frags[k + a], q);
    }
    if Covers(frags, q) && q >= last {
      var a :| 0 <= a < |frags| && Within(frags[a], q);
      assert Within(r[a - k], q);
    }
  }

  /** Lines 229-247: between its neighbours, what they do not hold of df. */
  method Insert(frags: seq<Fragment>, df: Fragment, mem: bool, ghost stream: seq<Byte>) returns (rc: int, r: seq<Fragment>)
    requires Separated(frags) && Fits(df) && forall d :: d in frags ==> !Covered(d, df) && !Covered(df, d)
    ensures Separated(r) && (rc == 0 || (rc == -1 && !mem))
    ensures AllSlices(frags, stream) && SliceOf(df, stream) ==> AllSlices(r, stream)
    ensures rc == 0 ==> forall q: nat :: Covers(r, q) <==> Covers(frags, q) || Within(df, q)
  {
    var at := Neighbors(frags, df);
    var tmp := Trim(frags, at, df, stream);
    if tmp.data == [] {
      return 0, frags;
    }
    if !mem {
      return -1, frags;
    }
    r := Merge(frags, at, tmp, stream);
    rc := 0;
  }

  class Buffer {
    var frags: seq<Fragment>

    predicate Valid()
      reads this
    {
      Separated(frags)
    }

    constructor ()
      ensures frags == []
    {
      frags := [];
    }

    /** ch_assemble_fragment_fin */
    method Fin()
      modifies this
      ensures frags == []
    {
      frags := [];
    }

    /** ch_assemble_fragment_push.  `mem` says whether the allocation succeeds. */
    method Push(data: seq<Byte>, offset: nat, mem: bool, ghost stream: seq<Byte>) returns (rc: int)
      requires Valid() && Fits(Fragment(offset, data))
      modifies this
      ensures Valid()
      ensures rc == 0 || (rc == -1 && !mem)
      ensures old(AllSlices(frags, stream)) && SliceOf(Fragment(offset, data), stream) ==> AllSlices(frags, stream)
      ensures rc == 0 ==>
                forall q: nat :: Covers(frags, q) <==> Covers(old(frags), q) || Within(Fragment(offset, data), q)
    {
      var df := Fragment(offset, data);
      var kept, covered := FreeCovered(frags, df);
      if covered {
        return 0;
      }
      KeptFacts(frags, df, stream);
      rc, frags := Insert(kept, df, mem, stream);
    }

    /** ch_assemble_fragment_pop: the bytes from `last` up to the next gap, if any. */
    method Pop(last: nat, ghost stream: seq<Byte>) returns (df: Option<Fragment>)
      requires Valid()
      modifies this
      ensures Valid()
      ensures old(AllSlices(frags, stream)) ==> AllSlices(frags, stream) && (df.Some? ==> SliceOf(df.value, stream))
      ensures df.Some? <==> Covers(old(frags), last)
      ensures df.Some? ==> df.value.offset == last && df.value.data != [] && Fits(df.value)
      ensures var next := if df.Some? then End(df.value) else last;
              && (forall q: nat :: Covers(frags, q) ==> q > next)
              && (forall q: nat :: Covers(frags, q) || (df.Some? && Within(df.value, q)) <==>
                                   Covers(old(frags), q) && q >= last)
    {
      if frags == [] {
        return None;
      }
      frags := FreeStale(frags, last, stream);
      if frags == [] {
        return None;
      }
      PoppedCovers(frags);
      AtFront(frags, last);
      if frags[0].offset == last {
        df := Some(frags[0]);
        frags := frags[1..];
      } else {
        return None;
      }
    }
  }

  /** What lies at and behind `last` when nothing lies before it. */
  lemma AtFront(frags: seq<Fragment>, last: nat)
    requires frags != [] && Separated(frags) && forall k :: 0 <= k < |frags| ==> frags[k].offset >= last
    ensures Covers(frags, last) <==> frags[0].offset == last
    ensures frags[0].offset != last ==> forall q: nat :: Covers(frags, q) ==> q > last
    ensures Separated(frags[1..]) && forall q: nat :: Covers(frags[1..], q) ==> q > End(frags[0])
  {
    if frags[0].offset == last {
      assert Within(frags[0], last);
    }
    var rest := frags[1..];
    assert forall k :: 0 <= k < |rest| ==> rest[k] == frags[k + 1];
    assert forall k :: 0 < k < |frags| ==> frags[k].offset > frags[0].offset;
  }

  lemma PoppedCovers(frags: seq<Fragment>)
    requires frags != []
    ensures forall q: nat :: Covers(frags, q) <==> Covers(frags[1..], q) || Within(frags[0], q)
  {
    forall q: nat | Covers(frags[1..], q)
      ensures Covers(frags, q)
    {
      var a :| 0 <= a < |frags[1..]| && Within(frags[1..][a], q);
      assert Within(frags[a + 1], q);
    }
    forall q: nat | Covers(frags, q) && !Within(frags[0], q)
      ensures Covers(frags[1..], q)
    {
      var a :| 0 <= a < |frags| && Within(frags[a], q);
      assert Within(frags[1..][a - 1], q);
    }
  }

  /** What is left when the fragments inside df are freed. */
  lemma KeptFacts(frags: seq<Fragment>, df: Fragment, stream: seq<Byte>)
    requires Separated(frags)
    ensures var kept := Uncovered(frags, df);
            && Separated(kept) && (AllSlices(frags, stream) ==> AllSlices(kept, stream))
            && (forall d :: d in kept ==> !Covered(d, df))
  {
    UncoveredProps(frags, df);
    UncoveredSeparated(frags, df);
    SubSlices(frags, Uncovered(frags, df), stream);
  }

  lemma KeptCovers(frags: seq<Fragment>, df: Fragment)
    requires Separated(frags) && Fits(df)
    ensures forall q: nat :: Covers(Uncovered(frags, df), q) || Within(df, q) <==> Covers(frags, q) || Within(df, q)
  {
    forall q: nat
      ensures Covers(Uncovered(frags, df), q) || Within(df, q) <==> Covers(frags, q) || Within(df, q)
    {
      UncoveredCovers(frags, df, q);
    }
  }

  lemma SubSlices(frags: seq<Fragment>, kept: seq<Fragment>, stream: seq<Byte>)
    requires forall d :: d in kept ==> d in frags
    ensures AllSlices(frags, stream) ==> AllSlices(kept, stream)
  {
    if AllSlices(frags, stream) {
      forall k | 0 <= k < |kept|
        ensures SliceOf(kept[k], stream)
      {
        assert kept[k] in frags;
      }
    }
  }
}
