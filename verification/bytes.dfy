/** Bytes, 512-byte sectors and the little-endian 32-bit items stored in them. */
module Bytes {

  type Byte = x: int | 0 <= x < 256

  type Sector = s: seq<Byte> | |s| == 512 witness seq(512, _ => 0)

  /** A sector of zeros. */
  function Blank(): Sector {
    seq(512, _ => 0)
  }

  /** A byte and its eight bits are the same number. */
  lemma AsBits(b: Byte)
    ensures (b as bv8) as int == b
  {
    var v := BitsOf(b);
    BackAgain(v);
  }

  lemma {:induction false} BitsOf(b: Byte) returns (v: bv8)
    ensures v as int == b
  {
    if b == 0 {
      v := 0;
    } else {
      var w := BitsOf(b - 1);
      OneMore(w);
      v := w + 1;
    }
  }

  lemma BackAgain(v: bv8)
    ensures (v as int) as bv8 == v
  {
  }

  lemma OneMore(v: bv8)
    requires v as int < 255
    ensures (v + 1) as int == v as int + 1
  {
  }

  /** The 32-bit little-endian number at offset i. */
  function U32(s: seq<Byte>, i: nat): (v: nat)
    requires i + 4 <= |s|
    ensures v < 0x1_0000_0000
  {
    s[i] as int + 0x100 * s[i + 1] as int + 0x1_0000 * s[i + 2] as int + 0x100_0000 * s[i + 3] as int
  }

  function ByteOf(v: nat, k: nat): Byte
    requires k < 4
  {
    (if k == 0 then v else if k == 1 then v / 0x100 else if k == 2 then v / 0x1_0000 else v / 0x100_0000) % 256
  }

  /** s with the number v stored at offset i. */
  function WithU32(s: seq<Byte>, i: nat, v: nat): (r: seq<Byte>)
    requires i + 4 <= |s|
    ensures |r| == |s|
  {
    s[i := ByteOf(v, 0)][i + 1 := ByteOf(v, 1)][i + 2 := ByteOf(v, 2)][i + 3 := ByteOf(v, 3)]
  }

  /** The lowest byte comes first. */
  lemma LittleEndian()
    ensures U32([0x78, 0x56, 0x34, 0x12], 0) == 0x1234_5678
    ensures WithU32([0, 0, 0, 0], 0, 0x1234_5678) == [0x78, 0x56, 0x34, 0x12]
  {
  }

  lemma BytesOfWord(v: nat)
    requires v < 0x1_0000_0000
    ensures v == ByteOf(v, 0) + 0x100 * ByteOf(v, 1) as int + 0x1_0000 * ByteOf(v, 2) as int + 0x100_0000 * ByteOf(v, 3) as int
  {
    assert v / 0x1_0000 == v / 0x100 / 0x100;
    assert v / 0x100_0000 == v / 0x1_0000 / 0x100;
  }

  /** A stored number reads back, and any other item that does not overlap it is unchanged. */
  lemma StoredU32(s: seq<Byte>, i: nat, v: nat, j: nat)
    requires i + 4 <= |s| && j + 4 <= |s| && v < 0x1_0000_0000
    requires j == i || j + 4 <= i || i + 4 <= j
    ensures U32(WithU32(s, i, v), j) == if j == i then v else U32(s, j)
  {
    BytesOfWord(v);
    var r := WithU32(s, i, v);
    assert r[i] == ByteOf(v, 0) && r[i + 1] == ByteOf(v, 1) && r[i + 2] == ByteOf(v, 2) && r[i + 3] == ByteOf(v, 3);
    hide ByteOf;
  }

  /** Stores the number v at offset i of the buffer. */
  method StoreU32(buf: array<Byte>, i: nat, v: nat)
    requires i + 4 <= buf.Length
    modifies buf
    ensures buf[..] == WithU32(old(buf[..]), i, v)
  {
    buf[i] := ByteOf(v, 0);
    buf[i + 1] := ByteOf(v, 1);
    buf[i + 2] := ByteOf(v, 2);
    buf[i + 3] := ByteOf(v, 3);
  }
}
