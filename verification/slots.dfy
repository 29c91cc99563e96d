/** The directory slots of a chain, and the writes that put an entry into a buffered sector. */
module Slots {
  import opened Bytes
  import opened Entries
  import opened Names
  import opened Chains
  import opened Volume
  import opened Layout

  ghost function SlotAt(l: seq<Sector>, secs: seq<nat>, p: nat): Slot
    requires OnDisk(secs, |l|) && p < 16 * |secs|
  {
    l[secs[p / 16]][32 * (p % 16)..32 * (p % 16) + 32]
  }

  /** The slots of the sectors, in order. */
  ghost function SlotsOf(l: seq<Sector>, secs: seq<nat>): (r: seq<Slot>)
    requires OnDisk(secs, |l|)
    ensures |r| == 16 * |secs|
  {
    seq(16 * |secs|, p requires 0 <= p < 16 * |secs| => SlotAt(l, secs, p))
  }

  /** A sector with the slot at byte idx replaced. */
  function WithSlot(b: seq<Byte>, idx: nat, s: Slot): (r: seq<Byte>)
    requires idx + 32 <= |b|
    ensures |r| == |b|
  {
    b[..idx] + s + b[idx + 32..]
  }

  /** Replacing one slot in its sector replaces it in the directory and changes no other slot. */
  lemma SlotWritten(l: seq<Sector>, secs: seq<nat>, p: nat, s: Slot)
    requires OnDisk(secs, |l|) && Distinct(secs) && p < 16 * |secs|
    ensures SlotsOf(l[secs[p / 16] := WithSlot(l[secs[p / 16]], 32 * (p % 16), s)], secs) == SlotsOf(l, secs)[p := s]
  {
    var l' := l[secs[p / 16] := WithSlot(l[secs[p / 16]], 32 * (p % 16), s)];
    forall k | 0 <= k < 16 * |secs|
      ensures SlotsOf(l', secs)[k] == SlotsOf(l, secs)[p := s][k]
    {
      SlotInSector(l[secs[p / 16]], p % 16, s, k % 16);
      if k / 16 != p / 16 {
        assert secs[k / 16] != secs[p / 16];
      }
    }
  }

  lemma SlotInSector(b: Sector, i: nat, s: Slot, j: nat)
    requires i < 16 && j < 16
    ensures WithSlot(b, 32 * i, s)[32 * j..32 * j + 32] == if j == i then s else b[32 * j..32 * j + 32]
  {
  }

  lemma SlotsFrame(l: seq<Sector>, l': seq<Sector>, secs: seq<nat>)
    requires |l| == |l'| && OnDisk(secs, |l|)
    requires forall s :: 0 <= s < |l| && s in secs ==> l'[s] == l[s]
    ensures SlotsOf(l', secs) == SlotsOf(l, secs)
  {
    forall k | 0 <= k < 16 * |secs|
      ensures SlotsOf(l', secs)[k] == SlotsOf(l, secs)[k]
    {
      assert secs[k / 16] in secs;
    }
  }

  /** No data sector outside the list differs, and mirrored tables that agreed still do. */
  ghost predicate OthersKept(g: Geometry, l: seq<Sector>, l': seq<Sector>, secs: seq<nat>) {
    && |l| == |l'| && MirrorKept(g, l, l')
    && forall s :: g.dataSect <= s < |l| && s !in secs ==> l'[s] == l[s]
  }

  ghost predicate MirrorKept(g: Geometry, l: seq<Sector>, l': seq<Sector>) {
    |l| == |l'| && (g.Fits(|l|) && Mirrors(g, l) ==> Mirrors(g, l'))
  }

  /** Every slot is an end mark. */
  ghost predicate Zeroed(z: seq<Slot>) {
    forall k :: 0 <= k < |z| ==> SlotLast(z[k])
  }

  /** b is a followed by end marks. */
  ghost predicate PaddedTo(a: seq<Slot>, b: seq<Slot>) {
    a <= b && Zeroed(b[|a|..])
  }

  lemma PaddedBy(a: seq<Slot>, z: seq<Slot>)
    requires Zeroed(z)
    ensures PaddedTo(a, a + z)
  {
    assert (a + z)[|a|..] == z;
  }

  lemma PaddedTwice(a: seq<Slot>, b: seq<Slot>, c: seq<Slot>)
    requires PaddedTo(a, b) && PaddedTo(b, c)
    ensures PaddedTo(a, c)
  {
    forall k | 0 <= k < |c[|a|..]|
      ensures SlotLast(c[|a|..][k])
    {
      assert c[|a|..][k] == c[|a| + k];
      if |a| + k < |b| {
        assert c[|a| + k] == b[|a| + k] == b[|a|..][k];
      } else {
        assert c[|a| + k] == c[|b|..][|a| + k - |b|];
      }
    }
  }

  /** A cleared cluster behind a directory adds end marks. */
  lemma SlotsCleared(g: Geometry, l: seq<Sector>, l': seq<Sector>, chain: seq<nat>, c: nat)
    requires Clusters(g, chain) && 2 <= c < g.clustCnt && c !in chain
    requires |l| == |l'| && OnDisk(Sectors(g, chain + [c]), |l|)
    requires ClearedCluster(g, l, l', c)
    ensures OnDisk(Sectors(g, chain), |l|) && OnDisk(ClusterSectors(g, c), |l|)
    ensures SlotsOf(l', Sectors(g, chain + [c])) == SlotsOf(l, Sectors(g, chain)) + SlotsOf(l', ClusterSectors(g, c))
    ensures Zeroed(SlotsOf(l', ClusterSectors(g, c)))
  {
    SectorsAppend(g, chain, c);
    var s0, s1 := Sectors(g, chain), ClusterSectors(g, c);
    assert forall x :: 0 <= x < |s0| ==> (s0 + s1)[x] == s0[x];
    assert forall x :: 0 <= x < |s1| ==> (s0 + s1)[|s0| + x] == s1[x];
    forall x | 0 <= x < |s0|
      ensures l'[s0[x]] == l[s0[x]]
    {
      var k, i := SectorOrigin(g, chain, x);
      SectorElsewhere(g, chain[k], i, c);
    }
    SlotsConcat(l, l', s0, s1);
  }

  lemma SectorElsewhere(g: Geometry, d: nat, i: nat, c: nat)
    requires 2 <= c && 2 <= d && c != d && i < g.spc
    ensures !(g.ClustToSect(c) <= g.ClustToSect(d) + i < g.ClustToSect(c) + g.spc)
  {
    var j := g.ClustToSect(d) + i - g.ClustToSect(c);
    if 0 <= j < g.spc {
      ClustersApart(g, d, i, c, j);
    }
  }

  lemma SlotsConcat(l: seq<Sector>, l': seq<Sector>, s0: seq<nat>, s1: seq<nat>)
    requires |l| == |l'| && OnDisk(s0, |l|) && OnDisk(s1, |l|)
    requires forall x :: 0 <= x < |s0| ==> l'[s0[x]] == l[s0[x]]
    ensures OnDisk(s0 + s1, |l|)
    ensures SlotsOf(l', s0 + s1) == SlotsOf(l, s0) + SlotsOf(l', s1)
  {
    var s := s0 + s1;
    forall k | 0 <= k < 16 * |s|
      ensures SlotsOf(l', s)[k] == (SlotsOf(l, s0) + SlotsOf(l', s1))[k]
    {
      if k < 16 * |s0| {
        assert s[k / 16] == s0[k / 16];
      } else {
        assert (k - 16 * |s0|) / 16 == k / 16 - |s0| && (k - 16 * |s0|) % 16 == k % 16;
        assert s[k / 16] == s1[k / 16 - |s0|];
      }
    }
  }

  /** Allocating and clearing a cluster changes no data sector but its own. */
  lemma OthersKeptCleared(g: Geometry, l: seq<Sector>, l1: seq<Sector>, l2: seq<Sector>, chain: seq<nat>, c: nat)
    requires Clusters(g, chain) && 2 <= c < g.clustCnt
    requires SameData(g, l, l1) && ClearedOnly(g, l1, l2, c) && MirrorKept(g, l, l1) && MirrorKept(g, l1, l2)
    ensures Clusters(g, chain + [c]) && OthersKept(g, l, l2, Sectors(g, chain + [c]))
  {
    SectorsAppend(g, chain, c);
    InCluster(g, c);
  }

  lemma InCluster(g: Geometry, c: nat)
    requires 2 <= c
    ensures forall s: nat :: g.ClustToSect(c) <= s < g.ClustToSect(c) + g.spc ==> s in ClusterSectors(g, c)
  {
    forall s: nat | g.ClustToSect(c) <= s < g.ClustToSect(c) + g.spc
      ensures s in ClusterSectors(g, c)
    {
      assert ClusterSectors(g, c)[s - g.ClustToSect(c)] == s;
    }
  }

  /** No sector outside the cluster differs. */
  ghost predicate ClearedOnly(g: Geometry, l: seq<Sector>, l': seq<Sector>, c: nat)
    requires 2 <= c
  {
    |l| == |l'| && forall s :: 0 <= s < |l| && !(g.ClustToSect(c) <= s < g.ClustToSect(c) + g.spc) ==> l'[s] == l[s]
  }

  lemma ClearedMeans(g: Geometry, l: seq<Sector>, l': seq<Sector>, c: nat)
    requires 2 <= c && ClearedCluster(g, l, l', c)
    ensures ClearedOnly(g, l, l', c)
  {
  }

  lemma OthersKeptSelf(g: Geometry, l: seq<Sector>, secs: seq<nat>)
    ensures OthersKept(g, l, l, secs)
  {
  }

  /** Other sectors kept twice are kept. */
  lemma OthersKeptTwice(g: Geometry, l: seq<Sector>, l1: seq<Sector>, l2: seq<Sector>, s1: seq<nat>, s2: seq<nat>)
    requires OthersKept(g, l, l1, s1) && OthersKept(g, l1, l2, s2) && s1 <= s2
    ensures OthersKept(g, l, l2, s2)
  {
    PrefixMembers(s1, s2);
  }

  lemma PrefixMembers(s1: seq<nat>, s2: seq<nat>)
    requires s1 <= s2
    ensures forall x :: x in s1 ==> x in s2
  {
    forall i | 0 <= i < |s1| ensures s1[i] in s2 { assert s1[i] == s2[i]; }
  }

  // ---------------------------------------------------------------- positions

  /**
   The next sector of a chain of aligned clusters: the source tests whether the next sector number is
   a multiple of the cluster size.
   */
  lemma NextSector(g: Geometry, s: seq<nat>, x: nat)
    requires Clusters(g, s) && 1 <= g.spc && g.dataSect % g.spc == 0 && x < |Sectors(g, s)|
    ensures var d := Quot(x, g.spc); d < |s|
    ensures var d := Quot(x, g.spc); var n := Sectors(g, s)[x] + 1;
      if n % g.spc != 0 then x + 1 < |Sectors(g, s)| && Sectors(g, s)[x + 1] == n && Quot(x + 1, g.spc) == d
      else if d + 1 < |s| then x + 1 < |Sectors(g, s)| && Sectors(g, s)[x + 1] == g.ClustToSect(s[d + 1]) && Quot(x + 1, g.spc) == d + 1
      else x + 1 == |Sectors(g, s)|
  {
    hide Sectors;
    var k, i := SectorOrigin(g, s, x);
    Position(x, g.spc, k, i);
    AlignedSector(g, s[k], i + 1);
    if i + 1 < g.spc {
      SectorAt(g, s, k, i + 1);
      Position(x + 1, g.spc, k, i + 1);
    } else {
      assert Times(k + 1, g.spc) == x + 1;
      Position(x + 1, g.spc, k + 1, 0);
      if k + 1 < |s| {
        SectorAt(g, s, k + 1, 0);
      }
    }
  }

  /** The cluster that the source computes from a sector number is the one the sector lies in. */
  lemma ClusterOfSector(g: Geometry, s: seq<nat>, x: nat)
    requires Clusters(g, s) && 1 <= g.spc && x < |Sectors(g, s)|
    ensures g.dataSect <= Sectors(g, s)[x] && Quot(x, g.spc) < |s|
    ensures g.SectToClust(Sectors(g, s)[x]) == s[Quot(x, g.spc)]
  {
    hide Sectors;
    var k, i := SectorOrigin(g, s, x);
    Position(x, g.spc, k, i);
    Position(Times(s[k] - 2, g.spc) + i, g.spc, s[k] - 2, i);
  }

  /** The position behind the last slot of a chain is the first slot of the cluster appended to it. */
  lemma EndPosition(g: Geometry, s: seq<nat>, c: nat, p: nat)
    requires Clusters(g, s) && 2 <= c < g.clustCnt && 1 <= g.spc && p == 16 * |Sectors(g, s)|
    ensures Clusters(g, s + [c]) && p / 16 < |Sectors(g, s + [c])| && p % 16 == 0
    ensures Sectors(g, s + [c])[p / 16] == g.ClustToSect(c) && Quot(p / 16, g.spc) == |s|
  {
    hide Sectors;
    SectorsAppend(g, s, c);
    SectorAt(g, s + [c], |s|, 0);
    Position(p / 16, g.spc, |s|, 0);
  }

  lemma Position(x: nat, spc: nat, k: nat, i: nat)
    requires i < spc && x == Times(k, spc) + i
    ensures Quot(x, spc) == k && x % spc == i
  {
    TimesIsProduct(k, spc);
    DivMod(x, spc, k, i);
  }

  /** In an aligned data region only the end of a cluster has a sector number divisible by the cluster size. */
  lemma AlignedSector(g: Geometry, c: nat, i: nat)
    requires 2 <= c && 1 <= g.spc && g.dataSect % g.spc == 0 && 1 <= i <= g.spc
    ensures (g.ClustToSect(c) + i) % g.spc == 0 <==> i == g.spc
  {
    var q := Quot(g.dataSect, g.spc);
    TimesIsProduct(q, g.spc);
    TimesSum(c - 2, q, g.spc);
    if i < g.spc {
      Position(g.ClustToSect(c) + i, g.spc, c - 2 + q, i);
    } else {
      Position(g.ClustToSect(c) + i, g.spc, c - 2 + q + 1, 0);
    }
  }

  lemma {:induction false} TimesSum(a: nat, b: nat, n: nat)
    ensures Times(a + b, n) == Times(a, n) + Times(b, n)
  {
    if b > 0 {
      TimesSum(a, b - 1, n);
    }
  }

  /** The test the source makes on sector i of cluster c says rightly whether the cluster ends before it. */
  predicate EndTestRight(g: Geometry, c: nat, i: nat)
    requires 2 <= c && 1 <= g.spc
  {
    (g.ClustToSect(c) + i) % g.spc == 0 <==> i == g.spc
  }

  /** That test is right for every cluster exactly when the data region is aligned to the cluster size. */
  lemma AlignmentNeeded(g: Geometry)
    requires 1 <= g.spc
    ensures (forall c: nat, i: nat :: 2 <= c && 1 <= i <= g.spc ==> EndTestRight(g, c, i)) <==> g.dataSect % g.spc == 0
  {
    if g.dataSect % g.spc == 0 {
      forall c: nat, i: nat | 2 <= c && 1 <= i <= g.spc
        ensures EndTestRight(g, c, i)
      {
        AlignedSector(g, c, i);
      }
    } else {
      var q := Quot(g.dataSect, g.spc);
      TimesIsProduct(q, g.spc);
      Position(g.dataSect + g.spc, g.spc, q + 1, g.dataSect % g.spc);
      assert !EndTestRight(g, 2, g.spc);
    }
  }

  // ---------------------------------------------------------------- writing entries

  /** The bytes of a slot that hold characters. */
  predicate CharField(k: int) {
    1 <= k < 11 || 14 <= k < 26 || 28 <= k < 32
  }

  /** The character loop: the fragment, its terminator and the padding. */
  method PutLfnNameFrag(buf: array<Byte>, idx: nat, f: seq<Byte>)
    requires idx + 32 <= buf.Length && |f| <= 13
    modifies buf
    ensures forall j :: 0 <= j < 13 ==> buf[idx + LfnIndex(j)] == LowByte(f, j) && buf[idx + LfnIndex(j) + 1] == HighByte(f, j)
    ensures forall k :: 0 <= k < buf.Length && !(idx <= k < idx + 32 && CharField(k - idx)) ==> buf[k] == old(buf[k])
  {
    var i := 0;
    while i < |f|
      invariant i <= |f|
      invariant forall j :: 0 <= j < i ==> buf[idx + LfnIndex(j)] == LowByte(f, j) && buf[idx + LfnIndex(j) + 1] == HighByte(f, j)
      invariant forall k :: 0 <= k < buf.Length && !(idx <= k < idx + 32 && CharField(k - idx)) ==> buf[k] == old(buf[k])
    {
      buf[idx + LfnIndex(i)] := f[i];
      buf[idx + LfnIndex(i) + 1] := 0;
      i := i + 1;
    }
    if i < 13 {
      buf[idx + LfnIndex(i)] := 0;
      buf[idx + LfnIndex(i) + 1] := 0;
      i := i + 1;
      while i < 13
        invariant |f| < i <= 13
        invariant forall j :: 0 <= j < i ==> buf[idx + LfnIndex(j)] == LowByte(f, j) && buf[idx + LfnIndex(j) + 1] == HighByte(f, j)
        invariant forall k :: 0 <= k < buf.Length && !(idx <= k < idx + 32 && CharField(k - idx)) ==> buf[k] == old(buf[k])
      {
        buf[idx + LfnIndex(i)] := 0xff;
        buf[idx + LfnIndex(i) + 1] := 0xff;
        i := i + 1;
      }
    }
  }

  /** The characters of a slot are those of the fragment. */
  ghost predicate CharsAre(b: seq<Byte>, f: seq<Byte>)
    requires |b| == 32
  {
    forall j :: 0 <= j < 13 ==> b[LfnIndex(j)] == LowByte(f, j) && b[LfnIndex(j) + 1] == HighByte(f, j)
  }

  /** A slot is determined by its characters and its other fields. */
  lemma SlotIs(b: seq<Byte>, f: seq<Byte>, ord: Byte, crc: Byte)
    requires |b| == 32 && |f| <= 13 && CharsAre(b, f)
    requires b[0] == ord && b[ATTR] == ATTR_LFN && b[12] == 0 && b[LFN_CRC] == crc && b[26] == 0 && b[27] == 0
    ensures b == LfnSlot(f, ord, crc)
  {
    forall k | 0 <= k < 32
      ensures b[k] == LfnByte(f, ord, crc, k)
    {
      if 1 <= k < 11 {
        CharByte(b, f, ord, crc, k, (k - 1) / 2);
      } else if 14 <= k < 26 {
        CharByte(b, f, ord, crc, k, 5 + (k - 14) / 2);
      } else if 28 <= k {
        CharByte(b, f, ord, crc, k, 11 + (k - 28) / 2);
      }
    }
  }

  lemma CharByte(b: seq<Byte>, f: seq<Byte>, ord: Byte, crc: Byte, k: nat, j: nat)
    requires |b| == 32 && CharsAre(b, f) && j < 13 && (k == LfnIndex(j) || k == LfnIndex(j) + 1)
    ensures b[k] == LfnByte(f, ord, crc, k)
  {
    assert b[LfnIndex(j)] == LowByte(f, j) && b[LfnIndex(j) + 1] == HighByte(f, j);
  }

  /** Writes a whole long name slot into a buffered sector. */
  method WriteLfn(buf: array<Byte>, idx: nat, f: seq<Byte>, ord: Byte, crc: Byte)
    requires idx + 32 <= buf.Length && |f| <= 13
    modifies buf
    ensures buf[..] == WithSlot(old(buf[..]), idx, LfnSlot(f, ord, crc))
  {
    hide LfnSlot, LfnByte, LowByte, HighByte;
    PutLfnNameFrag(buf, idx, f);
    buf[idx + ATTR] := ATTR_LFN;
    buf[idx] := ord;
    buf[idx + LFN_CRC] := crc;
    buf[idx + 12] := 0;
    buf[idx + 26], buf[idx + 27] := 0, 0;
    SlotIs(buf[idx..idx + 32], f, ord, crc);
    Spliced32(old(buf[..]), buf[..], idx);
  }

  /** A change inside one slot is the replacement of that slot. */
  lemma Spliced32(b: seq<Byte>, b': seq<Byte>, idx: nat)
    requires |b| == |b'| && idx + 32 <= |b| && forall k :: 0 <= k < |b| && !(idx <= k < idx + 32) ==> b'[k] == b[k]
    ensures b' == WithSlot(b, idx, b'[idx..idx + 32])
  {
  }

  /** A short entry: name, attributes, zero size, one time stamp for everything, and the cluster. */
  function SfnByteAt(sfn: seq<Byte>, attr: Byte, clust: nat, date: Half, time: Half, k: nat): Byte
    requires |sfn| == 11 && k < 32
  {
    if k < 11 then sfn[k]
    else if k == ATTR then attr
    else if k == CRE_TIME || k == MOD_TIME then time % 256
    else if k == CRE_TIME + 1 || k == MOD_TIME + 1 then time / 256
    else if k == CRE_DATE || k == MOD_DATE || k == ACC_DATE then date % 256
    else if k == CRE_DATE + 1 || k == MOD_DATE + 1 || k == ACC_DATE + 1 then date / 256
    else if k == CLUST_LO then ByteOf(clust, 0)
    else if k == CLUST_LO + 1 then ByteOf(clust, 1)
    else if k == CLUST_HI then ByteOf(clust, 2)
    else if k == CLUST_HI + 1 then ByteOf(clust, 3)
    else 0
  }

  function SfnSlot(sfn: seq<Byte>, attr: Byte, clust: nat, date: Half, time: Half): Slot
    requires |sfn| == 11
  {
    seq(32, k requires 0 <= k < 32 => SfnByteAt(sfn, attr, clust, date, time, k))
  }

  /** The start cluster that a short entry carries: low half at offset 26, high half at offset 20. */
  function ClustOf(s: Slot): (c: nat)
    ensures c == s[26] as int + 0x100 * s[27] as int + 0x1_0000 * s[20] as int + 0x100_0000 * s[21] as int
  {
    U16(s, CLUST_HI) * 0x1_0000 + U16(s, CLUST_LO)
  }

  /** A short entry, byte by byte: the one time stamp goes to creation and modification, its date to the access as well. */
  lemma SfnSlotLayout(attr: Byte)
    ensures SfnSlot(README, attr, 0x0403_0201, 0x2211, 0x4433)
         == [0x52, 0x45, 0x41, 0x44, 0x4d, 0x45, 0x20, 0x20, 0x54, 0x58, 0x54, attr, 0, 0, 0x33, 0x44,
             0x11, 0x22, 0x11, 0x22, 3, 4, 0x33, 0x44, 0x11, 0x22, 1, 2, 0, 0, 0, 0]
  {
  }

  /** A written short entry reads back: name, attributes, cluster and an empty size. */
  lemma SfnSlotReads(sfn: seq<Byte>, attr: Byte, clust: nat, date: Half, time: Half)
    requires |sfn| == 11 && clust < WORD
    ensures var s := SfnSlot(sfn, attr, clust, date, time);
      s[..11] == sfn && s[ATTR] == attr && U32(s, SIZE) == 0 && ClustOf(s) == clust
  {
    BytesOfWord(clust);
  }

  /** The short entry of a name is one, and carries the checksum its long name slots do. */
  lemma SfnSlotShort(name: seq<Byte>, attr: Byte, start: nat, date: Half, time: Half)
    requires attr != ATTR_LFN
    ensures ShortPart(SfnSlot(SfnName(name), attr, start, date, time), Crc(SfnName(name)))
  {
    hide SfnName, Crc;
    SfnNameTaken(name);
    var s := SfnSlot(SfnName(name), attr, start, date, time);
    assert s[0] == SfnName(name)[0] && s[ATTR] == attr;
    assert s[..11] == SfnName(name);
  }

  /** Writes a short entry into a buffered sector. */
  method WriteSfn(buf: array<Byte>, idx: nat, sfn: seq<Byte>, attr: Byte, clust: nat, date: Half, time: Half)
    requires idx + 32 <= buf.Length && |sfn| == 11
    modifies buf
    ensures buf[..] == WithSlot(old(buf[..]), idx, SfnSlot(sfn, attr, clust, date, time))
  {
    hide SfnByteAt;
    forall k | 0 <= k < 32 { buf[idx + k] := SfnByteAt(sfn, attr, clust, date, time, k); }
    assert buf[idx..idx + 32] == SfnSlot(sfn, attr, clust, date, time);
    Spliced32(old(buf[..]), buf[..], idx);
  }
}
