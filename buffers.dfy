/** Bytes and the two in-place `Uint8Array` operations the crypto code uses: `fill(0)` and `set`. */
module Buffers {

  type byte = x: int | 0 <= x < 256
  type Bytes = seq<byte>

  /** Every byte of `s` is zero. */
  predicate AllZero(s: seq<byte>)
  {
    forall i :: 0 <= i < |s| ==> s[i] == 0
  }

  /** `a.fill(0, lo, hi)`: zero exactly the bytes with index in [lo, hi). */
  method FillZero(a: array<byte>, lo: nat, hi: nat)
    requires lo <= hi <= a.Length
    modifies a
    ensures forall i :: lo <= i < hi ==> a[i] == 0
    ensures forall i :: 0 <= i < a.Length && !(lo <= i < hi) ==> a[i] == old(a[i])
  {
    var i := lo;
    while i < hi
      invariant lo <= i <= hi
      invariant forall k :: lo <= k < i ==> a[k] == 0
      invariant forall k :: 0 <= k < a.Length && !(lo <= k < i) ==> a[k] == old(a[k])
    {
      a[i] := 0;
      i := i + 1;
    }
  }

  /** `dst.set(src, offset)`: copy `src` into `dst` starting at `offset`; the rest of `dst` is kept. */
  method Set(dst: array<byte>, src: Bytes, offset: nat)
    requires offset + |src| <= dst.Length
    modifies dst
    ensures dst[..] == old(dst[..offset]) + src + old(dst[offset + |src|..])
  {
    var i := 0;
    while i < |src|
      invariant 0 <= i <= |src|
      invariant forall k :: 0 <= k < i ==> dst[offset + k] == src[k]
      invariant forall k :: 0 <= k < dst.Length && !(offset <= k < offset + i) ==> dst[k] == old(dst[k])
    {
      dst[offset + i] := src[i];
      i := i + 1;
    }
    assert dst[..] == old(dst[..offset]) + src + old(dst[offset + |src|..]);
  }

  /** A new buffer holding `head` then `tail`, filled with two `set` calls. */
  method Joined(head: Bytes, tail: Bytes) returns (buf: array<byte>)
    ensures fresh(buf) && buf[..] == head + tail
  {
    buf := new byte[|head| + |tail|];
    Set(buf, head, 0);
    assert buf[..|head|] == head;
    Set(buf, tail, |head|);
    assert buf[..] == head + tail;
  }
}
