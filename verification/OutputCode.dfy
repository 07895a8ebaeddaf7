/** The code of lib/common/ch_data_output.h over its buffer. */
module OutputCode {
  import opened Common
  import opened Output

  const DOUT_SIZE_DEFAULT: nat := 65536
  const DOUT_SIZE_EXT: nat := 32
  const UINT16: nat := 0x1_0000

  /** DOUT_CHECK: where `end` is after room for sz bytes was asked for and got. */
  function GrownEnd(pos: nat, end: nat, sz: nat): nat {
    if pos + sz > end then end + 4 * sz else end
  }

  /** The room that ch_dout_string16_write asks for: the length is a 16-bit number. */
  function Room16(len: nat): nat {
    (len + 2) % UINT16
  }

  /** ch_dout_string16_write stays before `end`: after the check for the whole and the check for the
      count there is room for both. */
  predicate Inside16(pos: nat, end: nat, len: nat) {
    pos + 2 + len <= GrownEnd(pos, GrownEnd(pos, end, Room16(len)), 2)
  }

  /** base, pos and end as an array and two offsets into it. */
  class Dout {
    var base: array<byte>
    var pos: nat
    var end: nat

    ghost predicate Valid()
      reads this
    {
      pos <= end && DOUT_SIZE_DEFAULT <= end && end + DOUT_SIZE_EXT == base.Length
    }

    ghost function Content(): seq<byte>
      requires Valid()
      reads this, base
    {
      base[..pos]
    }

    /** ch_dout_init, when malloc succeeds. */
    constructor ()
      ensures Valid() && fresh(base) && Content() == []
    {
      base := new byte[DOUT_SIZE_DEFAULT + DOUT_SIZE_EXT](_ => 0);
      pos, end := 0, DOUT_SIZE_DEFAULT;
    }

    /** ch_dout_incr: what is there is copied to a larger buffer; malloc may fail. */
    method Grow(incr: nat) returns (ok: bool)
      requires Valid()
      modifies this
      ensures Valid() && Content() == old(Content()) && pos == old(pos)
      ensures if ok then fresh(base) && end == old(end) + incr else base == old(base) && end == old(end)
    {
      ok := *;
      if !ok {
        return;
      }
      var nsize := end + incr;
      var osize := pos;
      var addr := new byte[nsize + DOUT_SIZE_EXT](_ => 0);
      ghost var was := base[..pos];
      CopyInto(addr, 0, base[..osize]);
      assert addr[..osize] == was;
      base := addr;
      end := nsize;
    }

    /** DOUT_CHECK: room for sz bytes before `end`. */
    method Check(sz: nat) returns (ok: bool)
      requires Valid()
      modifies this
      ensures Valid() && Content() == old(Content()) && pos == old(pos) && end >= old(end)
      ensures base == old(base) || fresh(base)
      ensures ok ==> pos + sz <= end && end == GrownEnd(old(pos), old(end), sz)
      ensures !ok ==> old(pos) + sz > old(end) && base == old(base) && end == old(end)
    {
      ok := true;
      if pos + sz > end {
        ok := Grow(4 * sz);
      }
    }

    /** dout_write. */
    method Append(bytes: seq<byte>)
      requires Valid() && pos + |bytes| <= end
      modifies this`pos, base
      ensures Valid() && Content() == old(Content()) + bytes && pos == old(pos) + |bytes|
    {
      CopyInto(base, pos, bytes);
      pos := pos + |bytes|;
    }

    /** The writers of 1, 2, 4 and 8 byte numbers. */
    method WriteNumber(v: nat, width: nat) returns (r: int)
      requires Valid()
      modifies this, base
      ensures Valid() && (base == old(base) || fresh(base)) && end >= old(end)
      ensures end == if r >= 0 then GrownEnd(old(pos), old(end), width) else old(end)
      ensures r == width || (r == -1 && old(pos) + width > old(end))
      ensures r >= 0 ==> Content() == old(Content()) + Encoded(Num(width, v)) && pos == old(pos) + width
      ensures r == -1 ==> Content() == old(Content())
    {
      var ok := Check(width);
      if !ok {
        return -1;
      }
      var barr := ValueBytes(v, width);
      Append(barr);
      return width;
    }

    /** ch_dout_bytes_write and ch_dout_string_write; the room for all of it is made first. */
    method WriteBlob(bytes: seq<byte>) returns (r: int)
      requires Valid()
      modifies this, base
      ensures Valid() && (base == old(base) || fresh(base))
      ensures r == |bytes| + 8 || (r == -1 && old(pos) + |bytes| + 8 > old(end))
      ensures r >= 0 ==> Content() == old(Content()) + Encoded(Blob(bytes)) && pos == old(pos) + r
      ensures r == -1 ==> Content() == old(Content())
    {
      var rlen := |bytes| + 8;
      var ok := Check(rlen);
      if !ok {
        return -1;
      }
      ghost var was := Content();
      var _ := WriteNumber(|bytes|, U64);
      Append(bytes);
      Shifted(was, BigEndian(|bytes|, U64), bytes);
      return rlen;
    }

    /** ch_dout_string16_write.  The answer of the check for the count is not looked at.  `overrun` says that the
        bytes are copied past `end`; the model stops there. */
    method WriteStr16(bytes: seq<byte>) returns (r: int, overrun: bool)
      requires Valid() && |bytes| < UINT16
      modifies this, base
      ensures Valid() && (base == old(base) || fresh(base)) && old(Content()) <= Content()
      ensures r == Room16(|bytes|) || (r == -1 && !overrun && old(pos) + Room16(|bytes|) > old(end))
      ensures r >= 0 ==> (overrun <==> !Inside16(old(pos), old(end), |bytes|))
      ensures r >= 0 && !overrun ==> Content() == old(Content()) + Encoded(Str16(bytes)) && pos == old(pos) + |bytes| + 2
      ensures r == -1 ==> Content() == old(Content())
    {
      var rlen := Room16(|bytes|);
      var ok := Check(rlen);
      if !ok {
        return -1, false;
      }
      ghost var was := Content();
      var rc := WriteNumber(|bytes|, U16);
      if pos + |bytes| > end {
        return rlen, true;
      }
      assert rc >= 0;
      Append(bytes);
      Shifted(was, BigEndian(|bytes|, U16), bytes);
      return rlen, false;
    }

    method Write(x: Value) returns (r: int, overrun: bool)
      requires Valid() && (x.Str16? ==> |x.bytes| < UINT16)
      modifies this, base
      ensures Valid() && (base == old(base) || fresh(base)) && old(Content()) <= Content()
      ensures r == Returned(x) || (r == -1 && !overrun)
      ensures overrun ==> TooLong(x)
      ensures r >= 0 && !overrun ==> Content() == old(Content()) + Encoded(x)
      ensures r == -1 ==> Content() == old(Content())
    {
      overrun := false;
      match x {
        case Num(width, v) => r := WriteNumber(v, width);
        case Blob(bytes) => r := WriteBlob(bytes);
        case Str16(bytes) => r, overrun := WriteStr16(bytes);
      }
    }

    /** Any sequence of writes, up to a failure: everything before stays, and the content is what was there and the
        encodings.  The lengths returned add up to the bytes appended unless a 16-bit string is too long, and only
        such a string can be written past `end`. */
    method WriteAll(xs: seq<Value>) returns (len: int, overrun: bool)
      requires Valid() && forall i :: 0 <= i < |xs| ==> xs[i].Str16? ==> |xs[i].bytes| < UINT16
      modifies this, base
      ensures Valid() && (base == old(base) || fresh(base)) && old(Content()) <= Content()
      ensures overrun ==> exists i :: 0 <= i < |xs| && TooLong(xs[i])
      ensures len >= 0 && !overrun ==> Content() == old(Content()) + EncodedAll(xs) && len == ReturnedAll(xs)
      ensures len < 0 ==> len == -1
    {
      ghost var was, done: seq<byte> := Content(), [];
      len, overrun := 0, false;
      var i := 0;
      while i < |xs|
        invariant 0 <= i <= |xs| && len >= 0 && !overrun && Valid() && (base == old(base) || fresh(base))
        invariant Content() == was + done && done == EncodedAll(xs[..i])
        invariant len + ReturnedAll(xs[i..]) == ReturnedAll(xs)
      {
        var r;
        r, overrun := Write(xs[i]);
        if r == -1 || overrun {
          assert overrun ==> TooLong(xs[i]);
          len := if r == -1 then -1 else len + r;
          return;
        }
        EncodedSnoc(xs, i);
        Shifted(was, done, Encoded(xs[i]));
        done := done + Encoded(xs[i]);
        assert xs[i..][1..] == xs[i + 1..];
        len := len + r;
        i := i + 1;
      }
      assert xs[..i] == xs;
    }
  }

  /** A 16-bit string whose length with its count is no 16-bit number. */
  predicate TooLong(x: Value) {
    x.Str16? && |x.bytes| > 65533
  }

  /** The length that a writer returns. */
  function Returned(x: Value): nat {
    match x
    case Num(width, _) => width
    case Blob(bytes) => |bytes| + 8
    case Str16(bytes) => Room16(|bytes|)
  }

  function ReturnedAll(xs: seq<Value>): nat
    decreases |xs|
  {
    if xs == [] then 0 else Returned(xs[0]) + ReturnedAll(xs[1..])
  }

  /** The length returned is the number of bytes appended exactly for strings that are not too long. */
  lemma ReturnedIff(x: Value)
    requires x.Str16? ==> |x.bytes| < UINT16
    ensures Returned(x) == |Encoded(x)| <==> !TooLong(x)
  {
  }

  lemma {:induction false} ReturnedLength(xs: seq<Value>)
    requires forall i :: 0 <= i < |xs| ==> (xs[i].Str16? ==> |xs[i].bytes| < UINT16) && !TooLong(xs[i])
    ensures ReturnedAll(xs) == |EncodedAll(xs)|
    decreases |xs|
  {
    if xs != [] {
      ReturnedIff(xs[0]);
      ReturnedLength(xs[1..]);
    }
  }

  lemma Shifted(a: seq<byte>, b: seq<byte>, c: seq<byte>)
    ensures a + b + c == a + (b + c)
  {
  }

  lemma {:induction false} EncodedConcat(xs: seq<Value>, ys: seq<Value>)
    ensures EncodedAll(xs + ys) == EncodedAll(xs) + EncodedAll(ys)
    decreases |xs|
  {
    if xs == [] {
      assert xs + ys == ys;
    } else {
      assert (xs + ys)[1..] == xs[1..] + ys;
      EncodedConcat(xs[1..], ys);
    }
  }

  lemma EncodedSnoc(xs: seq<Value>, i: nat)
    requires i < |xs|
    ensures EncodedAll(xs[..i + 1]) == EncodedAll(xs[..i]) + Encoded(xs[i])
  {
    assert xs[..i + 1] == xs[..i] + [xs[i]];
    EncodedConcat(xs[..i], [xs[i]]);
    assert EncodedAll([xs[i]]) == Encoded(xs[i]) + EncodedAll([]);
  }

  /** A 16-bit string stays before `end`, whatever a buffer holds, exactly up to 65533 bytes. */
  lemma Inside16Iff(len: nat)
    requires len < UINT16
    ensures (forall pos: nat, end: nat :: DOUT_SIZE_DEFAULT <= end && pos <= end ==> Inside16(pos, end, len)) <==> len <= 65533
  {
    if len > 65533 {
      assert !Inside16(DOUT_SIZE_DEFAULT - 2, DOUT_SIZE_DEFAULT, len);
    }
  }
}
