/**
 * Byte-level helpers shared by the packet decoders: reading a received frame
 * at a fixed offset, and the little-endian loads and stores the x86 hosts of
 * the switch perform when a packed header field is read through a struct.
 */
module Bytes {
  type byte = x: nat | x < 0x100

  /** The byte at offset i of a received frame; memory past the end of the frame reads as 0. */
  function ByteAt(frame: seq<byte>, i: nat): byte
  {
    if i < |frame| then frame[i] else 0
  }

  /** The n bytes of a frame starting at offset off. */
  function Window(frame: seq<byte>, off: nat, n: nat): (w: seq<byte>)
    ensures |w| == n
    ensures forall i :: 0 <= i < n ==> w[i] == ByteAt(frame, off + i)
  {
    seq<byte>(n, i requires 0 <= i < n => ByteAt(frame, off + i))
  }

  /** Inside the frame a window is a plain slice of it. */
  lemma WindowInside(frame: seq<byte>, off: nat, n: nat)
    requires off + n <= |frame|
    ensures Window(frame, off, n) == frame[off..off + n]
  {
  }

  function Zeros(n: nat): (z: seq<byte>)
    ensures |z| == n && forall i :: 0 <= i < n ==> z[i] == 0
  {
    seq(n, i => 0)
  }

  /** A 16-bit field in network byte order, as rte_be_to_cpu_16 yields it. */
  function Be16(hi: byte, lo: byte): (v: nat)
    ensures v < 0x1_0000
  {
    (hi as nat) * 0x100 + (lo as nat)
  }

  type u16 = x: nat | x < 0x1_0000
  type u32 = x: nat | x < 0x1_0000_0000
  type u64 = x: nat | x < 0x1_0000_0000_0000_0000

  /** a - b on uint64_t: wraps modulo 2^64 when b > a. */
  function Sub64(a: u64, b: u64): (d: u64)
    ensures b <= a ==> d == a - b
    ensures a < b ==> d == a + 0x1_0000_0000_0000_0000 - b
  {
    (a - b) % 0x1_0000_0000_0000_0000
  }

  /** Little-endian load of a 16-bit field. */
  function Le16(b: seq<byte>): u16
    requires |b| == 2
  {
    b[0] as nat + 0x100 * (b[1] as nat)
  }

  /** Little-endian load of a 32-bit field. */
  function Le32(b: seq<byte>): u32
    requires |b| == 4
  {
    Le16(b[..2]) + 0x1_0000 * Le16(b[2..])
  }

  /** Little-endian store of a 16-bit field. */
  function Le16Bytes(x: u16): (b: seq<byte>)
    ensures |b| == 2
  {
    [x % 0x100, x / 0x100]
  }

  /** Little-endian store of a 32-bit field. */
  function Le32Bytes(x: u32): (b: seq<byte>)
    ensures |b| == 4
  {
    Le16Bytes(x % 0x1_0000) + Le16Bytes(x / 0x1_0000)
  }

  /** Storing a loaded 16-bit field gives back its bytes, and loading a stored value gives back the value. */
  lemma Le16RoundTrip(b: seq<byte>, x: u16)
    requires |b| == 2
    ensures Le16Bytes(Le16(b)) == b
    ensures Le16(Le16Bytes(x)) == x
  {
  }

  /** Storing a loaded 32-bit field gives back its bytes, and loading a stored value gives back the value. */
  lemma Le32RoundTrip(b: seq<byte>, x: u32)
    requires |b| == 4
    ensures Le32Bytes(Le32(b)) == b
    ensures Le32(Le32Bytes(x)) == x
  {
    Le32StoreLoad(b);
    Le32LoadStore(x);
  }

  lemma Le32StoreLoad(b: seq<byte>)
    requires |b| == 4
    ensures Le32Bytes(Le32(b)) == b
  {
    var lo, hi := Le16(b[..2]), Le16(b[2..]);
    DivModParts(lo, hi);
    Le16RoundTrip(b[..2], 0);
    Le16RoundTrip(b[2..], 0);
    assert Le32Bytes(Le32(b)) == Le16Bytes(lo) + Le16Bytes(hi);
    assert b == b[..2] + b[2..];
  }

  lemma Le32LoadStore(x: u32)
    ensures Le32(Le32Bytes(x)) == x
  {
    var s := Le32Bytes(x);
    Le16RoundTrip([0, 0], x % 0x1_0000);
    Le16RoundTrip([0, 0], x / 0x1_0000);
    assert s[..2] == Le16Bytes(x % 0x1_0000) && s[2..] == Le16Bytes(x / 0x1_0000);
  }

  /** lo + 2^16 hi splits back into lo and hi under % 2^16 and / 2^16. */
  lemma DivModParts(lo: nat, hi: nat)
    requires lo < 0x1_0000
    ensures (lo + 0x1_0000 * hi) % 0x1_0000 == lo && (lo + 0x1_0000 * hi) / 0x1_0000 == hi
  {
  }
}
