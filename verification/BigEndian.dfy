/** Bytes and the big-endian integer fields that libfdt stores in a blob
    (section 5.2 of the Devicetree Specification v0.3: header fields are
    big-endian 32-bit integers, reserve entries are big-endian 64-bit ones). */
module BigEndian {
  import opened Word32

  type byte = x: int | 0 <= x < 0x100
  type u64 = x: int | 0 <= x < 0x1_0000_0000_0000_0000

  const NUL: byte := 0

  function Pow256(n: nat): (p: nat)
    ensures p >= 1
  {
    if n == 0 then 1 else 0x100 * Pow256(n - 1)
  }

  lemma PowerValues()
    ensures Pow256(4) == 0x1_0000_0000 && Pow256(8) == 0x1_0000_0000_0000_0000
  {
    assert Pow256(2) == 0x1_0000 && Pow256(6) == 0x1_0000_0000 * Pow256(2) by {
      assert Pow256(4) == 0x1_0000 * Pow256(2);
    }
  }

  /** The number a big-endian byte string denotes. */
  function Be(s: seq<byte>): (v: nat)
    ensures v < Pow256(|s|)
  {
    if s == [] then 0 else Be(s[..|s| - 1]) * 0x100 + s[|s| - 1]
  }

  function Enc(v: nat, n: nat): (s: seq<byte>)
    ensures |s| == n
  {
    if n == 0 then [] else Enc(v / 0x100, n - 1) + [v % 0x100]
  }

  lemma {:induction false} BeEnc(v: nat, n: nat)
    requires v < Pow256(n)
    ensures Be(Enc(v, n)) == v
  {
    if n > 0 {
      BeEnc(v / 0x100, n - 1);
      assert Enc(v, n)[..n - 1] == Enc(v / 0x100, n - 1);
    }
  }

  lemma {:induction false} EncBe(s: seq<byte>)
    ensures Enc(Be(s), |s|) == s
  {
    if s != [] {
      EncBe(s[..|s| - 1]);
      assert s == s[..|s| - 1] + [s[|s| - 1]];
    }
  }

  lemma BeSnoc(s: seq<byte>, x: byte)
    ensures Be(s + [x]) == Be(s) * 0x100 + x as int
  {
    assert (s + [x])[..|s|] == s;
  }

  /** A four-byte word, byte by byte. */
  lemma BeFour(a: byte, b: byte, c: byte, d: byte)
    ensures Be([a, b, c, d]) == ((a as int * 0x100 + b as int) * 0x100 + c as int) * 0x100 + d as int
  {
    BeSnoc([], a);
    BeSnoc([a], b);
    BeSnoc([a, b], c);
    BeSnoc([a, b, c], d);
    assert [] + [a] == [a] && [a] + [b] == [a, b] && [a, b] + [c] == [a, b, c] && [a, b, c] + [d] == [a, b, c, d];
  }

  function Enc32(v: u32): (s: seq<byte>)
    ensures |s| == 4 && Be(s) == v
  {
    PowerValues();
    BeEnc(v, 4);
    Enc(v, 4)
  }

  function Enc64(v: u64): (s: seq<byte>)
    ensures |s| == 8 && Be(s) == v
  {
    PowerValues();
    BeEnc(v, 8);
    Enc(v, 8)
  }

  function Get32(b: seq<byte>, off: nat): u32
    requires off + 4 <= |b|
  {
    PowerValues();
    Be(b[off..off + 4])
  }

  function Get64(b: seq<byte>, off: nat): u64
    requires off + 8 <= |b|
  {
    PowerValues();
    Be(b[off..off + 8])
  }

  /** Equal-length prefixes cancel. */
  lemma Cancel(a: seq<byte>, r: seq<byte>, b: seq<byte>, q: seq<byte>)
    requires |a| == |b| && a + r == b + q
    ensures a == b && r == q
  {
    assert (a + r)[..|a|] == a && (a + r)[|a|..] == r;
    assert (b + q)[..|b|] == b && (b + q)[|b|..] == q;
  }

  /** A slice of a slice. */
  lemma SliceSlice(b: seq<byte>, i: nat, j: nat, o: nat, p: nat)
    requires i <= j <= |b| && o <= p <= j - i
    ensures b[i..j][o..p] == b[i + o..i + p]
  {
    var x, y := b[i..j][o..p], b[i + o..i + p];
    assert |x| == |y|;
    assert forall k | 0 <= k < |x| :: x[k] == b[i..j][o + k] == b[i + (o + k)] == y[k];
  }

  /** `b` with `data` written over it at `off`. */
  function Patch(b: seq<byte>, off: nat, data: seq<byte>): (r: seq<byte>)
    requires off + |data| <= |b|
    ensures |r| == |b|
  {
    b[..off] + data + b[off + |data|..]
  }

  lemma PatchSlices(b: seq<byte>, off: nat, data: seq<byte>, i: nat, j: nat)
    requires off + |data| <= |b| && i <= j <= |b|
    requires j <= off || off + |data| <= i
    ensures Patch(b, off, data)[i..j] == b[i..j]
  {
  }

  lemma PatchData(b: seq<byte>, off: nat, data: seq<byte>)
    requires off + |data| <= |b|
    ensures Patch(b, off, data)[off..off + |data|] == data
  {
  }

  lemma PatchMore(a: seq<byte>, off: nat, x: seq<byte>, y: seq<byte>)
    requires off + |x| + |y| <= |a|
    ensures Patch(Patch(a, off, x), off + |x|, y) == Patch(a, off, x + y)
  {
    var b := Patch(a, off, x);
    assert b[..off + |x|] == a[..off] + x;
    assert b[off + |x| + |y|..] == a[off + |x| + |y|..];
    assert a[..off] + x + y == a[..off] + (x + y);
  }

  lemma PatchNothing(a: seq<byte>, off: nat)
    requires off <= |a|
    ensures Patch(a, off, []) == a
  {
  }

  method Read32(buf: array<byte>, off: nat) returns (v: u32)
    requires off + 4 <= buf.Length
    ensures v == Get32(buf[..], off)
  {
    v := Get32(buf[off..off + 4], 0);
    assert buf[..][off..off + 4] == buf[off..off + 4] == buf[off..off + 4][0..4];
  }

  method Read64(buf: array<byte>, off: nat) returns (v: u64)
    requires off + 8 <= buf.Length
    ensures v == Get64(buf[..], off)
  {
    v := Get64(buf[off..off + 8], 0);
    assert buf[..][off..off + 8] == buf[off..off + 8] == buf[off..off + 8][0..8];
  }

  /** memcpy from a value that does not alias the buffer. */
  method MemCpy(buf: array<byte>, off: nat, data: seq<byte>)
    requires off + |data| <= buf.Length
    modifies buf
    ensures buf[..] == Patch(old(buf[..]), off, data)
  {
    forall i | 0 <= i < |data| {
      buf[off + i] := data[i];
    }
  }

  method Write32(buf: array<byte>, off: nat, v: u32)
    requires off + 4 <= buf.Length
    modifies buf
    ensures buf[..] == Patch(old(buf[..]), off, Enc32(v))
  {
    MemCpy(buf, off, Enc32(v));
  }

  /** memmove inside one buffer: all reads happen before all writes. */
  method MemMove(buf: array<byte>, dst: nat, src: nat, n: nat)
    requires dst + n <= buf.Length && src + n <= buf.Length
    modifies buf
    ensures buf[..] == Patch(old(buf[..]), dst, old(buf[src..src + n]))
  {
    forall i | 0 <= i < n {
      buf[dst + i] := buf[src + i];
    }
  }
}
