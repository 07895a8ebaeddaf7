/** Moving blocks of an array in place, as `reverse` and `permute` of
    lib/common/ch_getopt.c do. */
module Blocks {

  function Rev<T>(s: seq<T>): (r: seq<T>)
    ensures |r| == |s|
  {
    if s == [] then [] else Rev(s[1..]) + [s[0]]
  }

  lemma {:induction false} RevAt<T>(s: seq<T>, i: nat)
    requires i < |s|
    ensures Rev(s)[i] == s[|s| - 1 - i]
  {
    if i < |s| - 1 {
      RevAt(s[1..], i);
    }
  }

  lemma {:induction false} RevConcat<T>(x: seq<T>, y: seq<T>)
    ensures Rev(x + y) == Rev(y) + Rev(x)
  {
    if x == [] {
      assert x + y == y;
    } else {
      assert (x + y)[1..] == x[1..] + y;
      RevConcat(x[1..], y);
    }
  }

  lemma {:induction false} RevRev<T>(x: seq<T>)
    ensures Rev(Rev(x)) == x
  {
    if x != [] {
      RevRev(x[1..]);
      RevConcat(Rev(x[1..]), [x[0]]);
      assert Rev([x[0]]) == [x[0]];
    }
  }

  /** reverse, on the middle part of what the array holds. */
  method Reverse<T>(argv: array<T>, start: nat, len: nat, ghost pre: seq<T>, ghost mid: seq<T>, ghost post: seq<T>)
    requires argv[..] == pre + mid + post && |pre| == start && |mid| == len
    modifies argv
    ensures argv[..] == pre + Rev(mid) + post
  {
    ghost var s := pre + mid + post;
    var lo, n: int := start, len;
    while n >= 2
      invariant start <= lo && lo + lo + n == 2 * start + len && n >= 0
      invariant forall i :: 0 <= i < start || start + len <= i < argv.Length ==> argv[i] == s[i]
      invariant forall i :: start <= i < lo || lo + n <= i < start + len ==> argv[i] == s[2 * start + len - 1 - i]
      invariant forall i :: lo <= i < lo + n ==> argv[i] == s[i]
      decreases n
    {
      argv[lo], argv[lo + n - 1] := argv[lo + n - 1], argv[lo];
      lo, n := lo + 1, n - 2;
    }
    ghost var t := argv[..];
    forall i | 0 <= i < len
      ensures t[start + i] == Rev(mid)[i]
    {
      RevAt(mid, i);
    }
    InParts(t, pre, Rev(mid), post);
  }

  lemma InParts<T>(t: seq<T>, pre: seq<T>, mid: seq<T>, post: seq<T>)
    requires |t| == |pre| + |mid| + |post|
    requires forall i :: 0 <= i < |pre| ==> t[i] == (pre + mid + post)[i]
    requires forall i :: 0 <= i < |mid| ==> t[|pre| + i] == mid[i]
    requires forall i :: |pre| + |mid| <= i < |t| ==> t[i] == (pre + mid + post)[i]
    ensures t == pre + mid + post
  {
    assert t[|pre|..|pre| + |mid|] == mid;
  }

  /** Exchanging two neighbouring blocks x and y by three reversals, lines 147-149. */
  method ExchangeBlocks<T>(argv: array<T>, start: nat, len1: nat, len2: nat,
                           ghost pre: seq<T>, ghost x: seq<T>, ghost y: seq<T>, ghost post: seq<T>)
    requires argv[..] == pre + x + y + post && |pre| == start && |x| == len1 && |y| == len2
    modifies argv
    ensures argv[..] == pre + y + x + post
  {
    RevConcat(x, y);
    RevRev(x);
    RevRev(y);
    Regroup(pre, x, y, post);
    Regroup(pre, Rev(y), Rev(x), post);
    Reverse(argv, start, len1 + len2, pre, x + y, post);
    Reverse(argv, start, len2, pre, Rev(y), Rev(x) + post);
    Regroup(pre, y, Rev(x), post);
    Reverse(argv, start + len2, len1, pre + y, Rev(x), post);
  }

  lemma Regroup<T>(w: seq<T>, x: seq<T>, y: seq<T>, z: seq<T>)
    ensures w + x + y + z == w + (x + y) + z == w + x + (y + z)
  {
  }
}
