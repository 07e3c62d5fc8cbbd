/** Bytes, little-endian words inside byte strings, and in-place stores. */
module Bytes {
  import opened Bits

  type byte = x: int | 0 <= x < 256

  /** The little-endian number in the `k` bytes at `off`. */
  function LE(m: seq<byte>, off: nat, k: nat): nat
    requires off + k <= |m|
    decreases |m| - off
  {
    if k == 0 then 0 else (m[off] as int) + 0x100 * LE(m, off + 1, k - 1)
  }

  /** The `k` low bytes of `v`, little-endian. */
  function LEBytes(v: nat, k: nat): (bs: seq<byte>)
    ensures |bs| == k
  {
    if k == 0 then [] else [v % 0x100] + LEBytes(v / 0x100, k - 1)
  }

  function Pow256(k: nat): nat {
    if k == 0 then 1 else 0x100 * Pow256(k - 1)
  }

  lemma {:induction false} LEBound(m: seq<byte>, off: nat, k: nat)
    requires off + k <= |m|
    ensures LE(m, off, k) < Pow256(k)
    decreases k
  {
    if k > 0 {
      LEBound(m, off + 1, k - 1);
    }
  }

  /** Reading back the bytes of a number that fits. */
  lemma {:induction false} LERoundTrip(v: nat, k: nat)
    requires v < Pow256(k)
    ensures LE(LEBytes(v, k), 0, k) == v
  {
    if k > 0 {
      LERoundTrip(v / 0x100, k - 1);
      LEAgree(LEBytes(v, k), 1, LEBytes(v / 0x100, k - 1), 0, k - 1);
    }
  }

  /** The bytes of a number that was read are the bytes it was read from. */
  lemma {:induction false} LEReadBack(m: seq<byte>, off: nat, k: nat)
    requires off + k <= |m|
    ensures LEBytes(LE(m, off, k), k) == m[off..off + k]
    decreases k
  {
    if k > 0 {
      LEReadBack(m, off + 1, k - 1);
      assert m[off..off + k] == [m[off]] + m[off + 1..off + 1 + (k - 1)];
    }
  }

  /** Numbers read from strings that agree on the bytes are equal. */
  lemma {:induction false} LEAgree(m: seq<byte>, off: nat, m': seq<byte>, off': nat, k: nat)
    requires off + k <= |m| && off' + k <= |m'|
    requires m[off..off + k] == m'[off'..off' + k]
    ensures LE(m, off, k) == LE(m', off', k)
    decreases k
  {
    if k > 0 {
      var w, w' := m[off..off + k], m'[off'..off' + k];
      assert w[0] == m[off] && w'[0] == m'[off'];
      assert w[1..] == m[off + 1..off + 1 + (k - 1)] && w'[1..] == m'[off' + 1..off' + 1 + (k - 1)];
      LEAgree(m, off + 1, m', off' + 1, k - 1);
    }
  }

  /** The little-endian 32-bit word at `off`. */
  function U32(m: seq<byte>, off: nat): nat
    requires off + 4 <= |m|
  {
    LE(m, off, 4)
  }

  /** The four bytes of a 32-bit word; `U32` reads them back. */
  function U32Bytes(v: nat): (bs: seq<byte>)
    requires v < TWO32
    ensures |bs| == 4 && U32(bs, 0) == v
  {
    assert Pow256(4) == TWO32;
    LERoundTrip(v, 4);
    LEBytes(v, 4)
  }

  /** The string `m` with `bs` stored at `off`. */
  function Put(m: seq<byte>, off: nat, bs: seq<byte>): (r: seq<byte>)
    requires off + |bs| <= |m|
    ensures |r| == |m|
  {
    seq(|m|, i requires 0 <= i < |m| => if off <= i < off + |bs| then bs[i - off] else m[i])
  }

  /** The bytes stored are `bs`, the others are as they were. */
  lemma {:induction false} PutIndex(m: seq<byte>, off: nat, bs: seq<byte>, i: nat)
    requires off + |bs| <= |m| && i < |m|
    ensures Put(m, off, bs)[i] == if off <= i < off + |bs| then bs[i - off] else m[i]
  {
  }

  lemma {:induction false} PutAt(m: seq<byte>, off: nat, bs: seq<byte>)
    requires off + |bs| <= |m|
    ensures forall i | 0 <= i < |m| :: Put(m, off, bs)[i] == if off <= i < off + |bs| then bs[i - off] else m[i]
  {
    forall i | 0 <= i < |m|
      ensures Put(m, off, bs)[i] == if off <= i < off + |bs| then bs[i - off] else m[i]
    {
      PutIndex(m, off, bs, i);
    }
  }

  /** A word read from two strings that agree on its four bytes is the same word. */
  lemma {:induction false} U32Agree(m: seq<byte>, off: nat, m': seq<byte>, off': nat)
    requires off + 4 <= |m| && off' + 4 <= |m'|
    requires m[off..off + 4] == m'[off'..off' + 4]
    ensures U32(m, off) == U32(m', off')
  {
    LEAgree(m, off, m', off', 4);
  }

  /** Copies `x` over the bytes of a buffer from `off` on. */
  method Store(buf: array<byte>, off: nat, x: seq<byte>)
    requires off + |x| <= buf.Length
    modifies buf
    ensures buf[..] == Put(old(buf[..]), off, x)
  {
    for i := 0 to |x|
      invariant forall j | 0 <= j < buf.Length :: buf[j] == if off <= j < off + i then x[j - off] else old(buf[j])
    {
      buf[off + i] := x[i];
    }
    PutAt(old(buf[..]), off, x);
  }
}
