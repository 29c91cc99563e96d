/** The 32-byte directory entries of a sector. */
module Entries {
  import opened Bytes

  const ATTR := 11
  const CRE_TIME := 14
  const CRE_DATE := 16
  const ACC_DATE := 18
  const CLUST_HI := 20
  const MOD_TIME := 22
  const MOD_DATE := 24
  const CLUST_LO := 26
  const SIZE := 28
  const ATTR_ARCHIVE := 0x20

  type Half = x: int | 0 <= x < 0x1_0000

  function U16(s: seq<Byte>, i: nat): Half
    requires i + 2 <= |s|
  {
    s[i] as int + 0x100 * s[i + 1] as int
  }

  function WithU16(s: seq<Byte>, i: nat, v: Half): (r: seq<Byte>)
    requires i + 2 <= |s|
    ensures |r| == |s|
  {
    s[i := v % 256][i + 1 := v / 256]
  }

  /** attr | ATTR_ARCHIVE */
  function Archived(attr: Byte): (r: Byte)
    ensures r / 0x20 % 2 == 1 && r % 0x20 == attr % 0x20 && r / 0x40 == attr / 0x40
  {
    if attr / ATTR_ARCHIVE % 2 == 1 then attr else attr + ATTR_ARCHIVE
  }

  /** The sector after the entry at idx is brought up to date for a file that was accessed or modified. */
  function Stamped(s: Sector, idx: nat, accessed: bool, modified: bool, size: nat, date: Half, time: Half): (r: Sector)
    requires idx + 32 <= 512
  {
    var a := if accessed then WithU16(s, idx + ACC_DATE, date) else s;
    if !modified then a
    else
      WithU16(WithU16(WithU32(a[idx + ATTR := Archived(a[idx + ATTR])], idx + SIZE, size), idx + MOD_DATE, date),
              idx + MOD_TIME, time)
  }

  /** The bytes of an entry that a file may rewrite. */
  predicate StampField(k: int) {
    k == ATTR || ACC_DATE <= k < CLUST_HI || MOD_TIME <= k < CLUST_LO || SIZE <= k < 32
  }

  /** A modified file's entry reads back its size; nothing outside the stamped fields changes. */
  lemma StampedReads(s: Sector, idx: nat, accessed: bool, modified: bool, size: nat, date: Half, time: Half)
    requires idx + 32 <= 512 && size < 0x1_0000_0000
    ensures var r := Stamped(s, idx, accessed, modified, size, date, time);
      && U32(r, idx + 28) == (if modified then size else U32(s, idx + 28))
      && U16(r, idx + 22) == (if modified then time else U16(s, idx + 22))
      && U16(r, idx + 24) == (if modified then date else U16(s, idx + 24))
      && U16(r, idx + 18) == (if accessed then date else U16(s, idx + 18))
      && r[idx + 11] == (if modified then Archived(s[idx + 11]) else s[idx + 11])
    ensures forall k :: 0 <= k < 512 && !StampField(k - idx) ==>
      Stamped(s, idx, accessed, modified, size, date, time)[k] == s[k]
  {
    BytesOfWord(size);
  }

  method StoreU16(buf: array<Byte>, i: nat, v: Half)
    requires i + 2 <= buf.Length
    modifies buf
    ensures buf[..] == WithU16(old(buf[..]), i, v)
  {
    buf[i] := v % 256;
    buf[i + 1] := v / 256;
  }

  /** Brings the entry at idx of a buffered sector up to date. */
  method Stamp(buf: array<Byte>, idx: nat, accessed: bool, modified: bool, size: nat, date: Half, time: Half)
    requires buf.Length == 512 && idx + 32 <= 512
    modifies buf
    ensures buf[..] == Stamped(old(buf[..]), idx, accessed, modified, size, date, time)
  {
    if accessed {
      StoreU16(buf, idx + ACC_DATE, date);
    }
    if modified {
      buf[idx + ATTR] := Archived(buf[idx + ATTR]);
      StoreU32(buf, idx + SIZE, size);
      StoreU16(buf, idx + MOD_DATE, date);
      StoreU16(buf, idx + MOD_TIME, time);
    }
  }
}
