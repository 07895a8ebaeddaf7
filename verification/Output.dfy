/** The growable output buffer of lib/common/ch_data_output.h: big-endian numbers and
    counted byte strings are appended, and the buffer is replaced by a larger one when
    it is full. */
module Output {
  import opened Common

  type byte = b: nat | b < 256

  // Widths in bytes.
  const U16: nat := 2
  const U32: nat := 4
  const U64: nat := 8

  // ---------------------------------------------------------------- encoding

  function Pow(n: nat): (r: nat)
    ensures r > 0
  {
    if n == 0 then 1 else 256 * Pow(n - 1)
  }

  /** The n low bytes of v, the most significant first. */
  function BigEndian(v: nat, n: nat): (r: seq<byte>)
    ensures |r| == n
    decreases n
  {
    if n == 0 then [] else BigEndian(v / 256, n - 1) + [v % 256]
  }

  function Number(bytes: seq<byte>): nat {
    if bytes == [] then 0 else Number(bytes[..|bytes| - 1]) * 256 + bytes[|bytes| - 1]
  }

  /** What is written can be read again; what does not fit is cut to its low bytes. */
  lemma {:induction false} NumberOf(v: nat, n: nat)
    ensures Number(BigEndian(v, n)) == v % Pow(n)
  {
    if n > 0 {
      var b := BigEndian(v, n);
      assert b[..n - 1] == BigEndian(v / 256, n - 1);
      NumberOf(v / 256, n - 1);
      ModStep(v, Pow(n - 1));
    }
  }

  lemma ModStep(v: nat, m: nat)
    requires m > 0
    ensures (v / 256) % m * 256 + v % 256 == v % (256 * m)
  {
    var q, d := v / 256, v / 256 / m;
    var r := q % m;
    assert q == d * m + r;
    assert v == (256 * m) * d + (r * 256 + v % 256) by {
      assert v == 256 * q + v % 256;
      assert 256 * (d * m) == (256 * m) * d;
    }
    assert r * 256 + v % 256 < 256 * m by {
      assert (r + 1) * 256 <= m * 256;
    }
    DivModUnique(v, 256 * m, d, r * 256 + v % 256);
  }

  lemma MulStep(k: nat, a: nat, b: nat)
    requires a < b
    ensures k * a + k <= k * b
  {
    var c := b - a - 1;
    assert k * c >= 0;
    assert k * b == k * a + k + k * c;
  }

  lemma DivModUnique(v: nat, k: nat, d: nat, x: nat)
    requires k > 0 && v == k * d + x && x < k
    ensures v / k == d && v % k == x
  {
    var q := v / k;
    if q < d {
      MulStep(k, q, d);
    } else if q > d {
      MulStep(k, d, q);
    }
  }

  lemma {:induction false} BigEndianAt(v: nat, n: nat, i: nat)
    requires i < n
    ensures BigEndian(v, n)[i] == (v / Pow(n - 1 - i)) % 256
    decreases n
  {
    if i < n - 1 {
      BigEndianAt(v / 256, n - 1, i);
      DivDiv(v, Pow(n - 2 - i));
    }
  }

  lemma DivDiv(v: nat, m: nat)
    requires m > 0
    ensures v / 256 / m == v / (256 * m)
  {
    var q, r := v / 256, v % 256;
    var d, x := q / m, q % m;
    assert q == d * m + x;
    assert v == (256 * m) * d + (x * 256 + r) by {
      assert 256 * (d * m) == (256 * m) * d;
    }
    assert x * 256 + r < 256 * m by {
      assert (x + 1) * 256 <= m * 256;
    }
    DivModUnique(v, 256 * m, d, x * 256 + r);
  }

  /** DOUT_VALUE_WRITE: the bytes of v by shifting, from the first to the last. */
  method ValueBytes(v: nat, n: nat) returns (barr: seq<byte>)
    ensures barr == BigEndian(v, n)
  {
    barr := [];
    var i := 1;
    while i <= n
      invariant 1 <= i <= n + 1 && |barr| == i - 1
      invariant barr == BigEndian(v, n)[..i - 1]
    {
      BigEndianAt(v, n, i - 1);
      barr := barr + [(v / Pow(n - i)) % 256];
      i := i + 1;
    }
  }

  // ------------------------------------------------------------------ values

  /** One write: a number of `width` bytes, bytes with a 64-bit count, or with a 16-bit count. */
  datatype Value = Num(width: nat, v: nat) | Blob(bytes: seq<byte>) | Str16(bytes: seq<byte>)

  predicate Fits(x: Value) {
    match x
    case Num(width, v) => v < Pow(width)
    case Blob(bytes) => |bytes| < Pow(U64)
    case Str16(bytes) => |bytes| < Pow(U16)
  }

  function Encoded(x: Value): seq<byte> {
    match x
    case Num(width, v) => BigEndian(v, width)
    case Blob(bytes) => BigEndian(|bytes|, U64) + bytes
    case Str16(bytes) => BigEndian(|bytes|, U16) + bytes
  }

  function EncodedAll(xs: seq<Value>): seq<byte>
    decreases |xs|
  {
    if xs == [] then [] else Encoded(xs[0]) + EncodedAll(xs[1..])
  }

  /** What a reader expects next. */
  datatype Field = NumF(width: nat) | BlobF | Str16F

  function FieldOf(x: Value): Field {
    match x case Num(width, _) => NumF(width) case Blob(_) => BlobF case Str16(_) => Str16F
  }

  function ReadNumber(s: seq<byte>, width: nat): Option<(nat, seq<byte>)> {
    if |s| < width then None else Some((Number(s[..width]), s[width..]))
  }

  function ReadCounted(s: seq<byte>, width: nat): Option<(seq<byte>, seq<byte>)> {
    match ReadNumber(s, width)
    case None => None
    case Some((n, rest)) => if |rest| < n then None else Some((rest[..n], rest[n..]))
  }

  function Read(s: seq<byte>, f: Field): Option<(Value, seq<byte>)> {
    match f
    case NumF(width) => (match ReadNumber(s, width) case None => None case Some((n, rest)) => Some((Num(width, n), rest)))
    case BlobF => (match ReadCounted(s, U64) case None => None case Some((b, rest)) => Some((Blob(b), rest)))
    case Str16F => (match ReadCounted(s, U16) case None => None case Some((b, rest)) => Some((Str16(b), rest)))
  }

  function ReadAll(s: seq<byte>, fs: seq<Field>): Option<(seq<Value>, seq<byte>)>
    decreases |fs|
  {
    if fs == [] then Some(([], s))
    else match Read(s, fs[0])
      case None => None
      case Some((x, rest)) =>
        match ReadAll(rest, fs[1..])
        case None => None
        case Some((xs, rest')) => Some(([x] + xs, rest'))
  }

  lemma ReadNumberBack(v: nat, width: nat, rest: seq<byte>)
    requires v < Pow(width)
    ensures ReadNumber(BigEndian(v, width) + rest, width) == Some((v, rest))
  {
    var s := BigEndian(v, width) + rest;
    assert s[..width] == BigEndian(v, width) && s[width..] == rest;
    NumberOf(v, width);
    assert v % Pow(width) == v;
  }

  lemma ReadCountedBack(b: seq<byte>, width: nat, rest: seq<byte>)
    requires |b| < Pow(width)
    ensures ReadCounted(BigEndian(|b|, width) + b + rest, width) == Some((b, rest))
  {
    assert BigEndian(|b|, width) + b + rest == BigEndian(|b|, width) + (b + rest);
    ReadNumberBack(|b|, width, b + rest);
    assert (b + rest)[..|b|] == b && (b + rest)[|b|..] == rest;
  }

  lemma ReadBack(x: Value, rest: seq<byte>)
    requires Fits(x)
    ensures Read(Encoded(x) + rest, FieldOf(x)) == Some((x, rest))
  {
    match x
    case Num(width, v) => ReadNumberBack(v, width, rest);
    case Blob(bytes) => ReadCountedBack(bytes, U64, rest);
    case Str16(bytes) => ReadCountedBack(bytes, U16, rest);
  }

  function Fields(xs: seq<Value>): (fs: seq<Field>)
    ensures |fs| == |xs|
  {
    seq(|xs|, i requires 0 <= i < |xs| => FieldOf(xs[i]))
  }

  /** Whatever is written, in any order, is read back by a reader that expects those fields. */
  lemma {:induction false} ReadAllBack(xs: seq<Value>, rest: seq<byte>)
    requires forall i :: 0 <= i < |xs| ==> Fits(xs[i])
    ensures ReadAll(EncodedAll(xs) + rest, Fields(xs)) == Some((xs, rest))
    decreases |xs|
  {
    if xs == [] {
      assert EncodedAll(xs) + rest == rest;
    } else {
      var tail := EncodedAll(xs[1..]) + rest;
      assert EncodedAll(xs) + rest == Encoded(xs[0]) + tail;
      ReadBack(xs[0], tail);
      assert Fields(xs)[1..] == Fields(xs[1..]);
      ReadAllBack(xs[1..], rest);
      assert xs == [xs[0]] + xs[1..];
    }
  }
}
