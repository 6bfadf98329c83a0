/** The fixed-width integers of the Go sources, and the big-endian layout that
    `encoding/binary` gives them in a byte buffer. */
module Machine {

  type Byte = x: int | 0 <= x < 0x100
  type U16 = x: int | 0 <= x < 0x1_0000
  type U32 = x: int | 0 <= x < 0x1_0000_0000

  datatype Option<+T> = None | Some(value: T)

  /** Conversion to `uint16`: the high bits are dropped. */
  function ToU16(x: int): U16 {
    if 0 <= x < 0x1_0000 then x else x % 0x1_0000
  }

  /** Conversion to `uint32`. */
  function ToU32(x: int): U32 {
    if 0 <= x < 0x1_0000_0000 then x else x % 0x1_0000_0000
  }

  /** `^x` on a `uint16`. */
  function Not16(x: U16): U16 {
    0xFFFF - x
  }

  /** The big-endian 16-bit word at offset `i`. */
  function Get16(b: seq<Byte>, i: nat): U16
    requires i + 2 <= |b|
  {
    (b[i] as int) * 0x100 + b[i + 1]
  }

  /** The big-endian 32-bit word at offset `i`. */
  function Get32(b: seq<Byte>, i: nat): U32
    requires i + 4 <= |b|
  {
    (b[i] as int) * 0x100_0000 + (b[i + 1] as int) * 0x1_0000 + (b[i + 2] as int) * 0x100 + b[i + 3]
  }

  function Bytes16(v: U16): (b: seq<Byte>)
    ensures |b| == 2
  {
    [v / 0x100, v % 0x100]
  }

  function Bytes32(v: U32): (b: seq<Byte>)
    ensures |b| == 4
  {
    [v / 0x100_0000, v / 0x1_0000 % 0x100, v / 0x100 % 0x100, v % 0x100]
  }

  /** `b` with the bytes `w` written over it from offset `i`. */
  function Patched(b: seq<Byte>, i: nat, w: seq<Byte>): (r: seq<Byte>)
    requires i + |w| <= |b|
    ensures |r| == |b|
    ensures forall k :: 0 <= k < |b| ==> r[k] == if i <= k < i + |w| then w[k - i] else b[k]
  {
    seq(|b|, k requires 0 <= k < |b| => if i <= k < i + |w| then w[k - i] else b[k])
  }

  /** The two halves of the big-endian encoding of a 16-bit value give it back, and
      conversely: `Uint16` and `PutUint16` are inverse. */
  lemma {:induction false} Word16RoundTrip(v: U16, b: seq<Byte>)
    ensures Get16(Bytes16(v), 0) == v
    ensures |b| == 2 ==> Bytes16(Get16(b, 0)) == b
  {
    if |b| == 2 {
      assert b == [b[0], b[1]];
    }
  }

  lemma {:induction false} Digits(hi: nat, lo: Byte)
    ensures (hi * 0x100 + lo) / 0x100 == hi && (hi * 0x100 + lo) % 0x100 == lo
  {
  }

  /** `Uint32` and `PutUint32` are inverse. */
  lemma {:induction false} Word32RoundTrip(v: U32, b: seq<Byte>)
    ensures Get32(Bytes32(v), 0) == v
    ensures |b| == 4 ==> Bytes32(Get32(b, 0)) == b
  {
    assert v == v / 0x100 * 0x100 + v % 0x100;
    assert v / 0x100 == v / 0x1_0000 * 0x100 + v / 0x100 % 0x100;
    assert v / 0x1_0000 == v / 0x100_0000 * 0x100 + v / 0x1_0000 % 0x100;
    if |b| == 4 {
      var high2 := (b[0] as int) * 0x100 + b[1];
      var high3 := high2 * 0x100 + b[2];
      Digits(b[0], b[1]);
      Digits(high2, b[2]);
      Digits(high3, b[3]);
      var x := Get32(b, 0);
      assert x == high3 * 0x100 + b[3];
      assert x / 0x100 == high3;
      assert x / 0x1_0000 == high2;
      assert x / 0x100_0000 == b[0];
      assert b == [b[0], b[1], b[2], b[3]];
    }
  }
}
