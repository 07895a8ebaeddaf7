/** What several components share. */
module Common {

  /** A value, or NULL. */
  datatype Option<T> = None | Some(value: T)

  /** memcpy of src to a + at. */
  method CopyInto<T>(a: array<T>, at: nat, src: seq<T>)
    requires at + |src| <= a.Length
    modifies a
    ensures a[..at + |src|] == old(a[..at]) + src
  {
    var k := 0;
    while k < |src|
      invariant 0 <= k <= |src|
      invariant a[..at] == old(a[..at])
      invariant a[at..at + k] == src[..k]
    {
      a[at + k] := src[k];
      k := k + 1;
      assert a[at..at + k] == src[..k];
    }
    assert a[..at + |src|] == a[..at] + a[at..at + |src|];
  }
}
