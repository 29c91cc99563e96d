/** The layout of a FAT32 volume and what its sectors say, as functions of the sector contents. */
module Volume {
  import opened Bytes
  import opened Chains

  const HALF := 0x1000_0000   // the low 28 bits of a table item are the entry
  const WORD := 0x1_0000_0000

  /** The product k * n by repeated addition, which keeps the arithmetic of the proofs linear. */
  function Times(k: nat, n: nat): nat {
    if k == 0 then 0 else Times(k - 1, n) + n
  }

  lemma TimesZero(n: nat)
    ensures Times(0, n) == 0
  {
  }

  lemma {:induction false} TimesIsProduct(k: nat, n: nat)
    ensures Times(k, n) == k * n
  {
    if k > 0 {
      TimesIsProduct(k - 1, n);
      assert k * n == (k - 1) * n + n;
    }
  }

  lemma {:induction false} TimesGrows(k: nat, j: nat, n: nat)
    requires k < j
    ensures Times(k, n) + n <= Times(j, n)
    decreases j
  {
    if k < j - 1 {
      TimesGrows(k, j - 1, n);
    }
  }

  /** Integer quotient, as C computes it for unsigned operands. */
  function Quot(a: nat, b: nat): (q: nat)
    requires 1 <= b
  {
    a / b
  }

  /** How far a 32-bit counter is from the number n it should count. */
  function Gap(counter: nat, n: nat): (d: int)
    ensures 0 <= d < WORD
  {
    (counter - n) % WORD
  }

  /** A 32-bit counter moved by d. */
  function Plus(counter: int, d: int): (r: nat)
    ensures r < WORD
  {
    (counter + d) % WORD
  }

  lemma PlusZero(counter: nat)
    requires counter < WORD
    ensures Plus(counter, 0) == counter
  {
  }

  lemma PlusTwice(counter: int, d: int, e: int)
    ensures Plus(Plus(counter, d), e) == Plus(counter, d + e)
  {
    var q := (counter + d) / WORD;
    assert counter + d == q * WORD + Plus(counter, d);
    assert (counter + d + e - q * WORD) % WORD == (counter + d + e) % WORD;
  }

  lemma GapKept(counter: nat, n: nat, d: int)
    requires 0 <= n + d
    ensures Gap(Plus(counter, d), n + d) == Gap(counter, n)
  {
    PlusTwice(counter, d, -(n + d));
  }

  /** A counter moved by one more than what it counts is one off from then on. */
  lemma GapOff(counter: nat, n: nat)
    ensures Gap(Plus(counter, 1), n) == Plus(Gap(counter, n), 1) != Gap(counter, n)
  {
    PlusTwice(counter, 1, -(n as int));
    PlusTwice(counter, -(n as int), 1);
  }

  /** The fields of the mounted volume that never change. spc is 1 << clust_shift. */
  datatype Geometry = Geometry(
    clustCnt: nat, spc: nat, infoSect: nat, fatSect0: nat, fatSect1: nat, dataSect: nat)
  {
    ghost predicate Region(fs: nat) {
      0 < fs && fs + clustCnt / 128 <= dataSect && !(fs <= infoSect < fs + clustCnt / 128)
    }

    /** The regions are disjoint, lie on a disk of n sectors, and every table entry has a cluster. */
    ghost predicate Fits(n: nat) {
      && 2 < clustCnt <= BAD && clustCnt % 128 == 0
      && 1 <= spc
      && 0 < infoSect < dataSect
      && Region(fatSect0)
      && (fatSect1 != 0 ==> Region(fatSect1))
      && (fatSect1 != 0 ==> fatSect0 + clustCnt / 128 <= fatSect1 || fatSect1 + clustCnt / 128 <= fatSect0)
      && dataSect + Times(clustCnt - 2, spc) <= n < WORD
    }

    /** First sector of a cluster. */
    function ClustToSect(c: nat): nat
      requires 2 <= c
    {
      Times(c - 2, spc) + dataSect
    }

    /** A cluster of the table lies in the data region, on the disk. */
    lemma ClusterFits(c: nat, n: nat)
      requires Fits(n) && 2 <= c < clustCnt
      ensures dataSect <= ClustToSect(c) && ClustToSect(c) + spc <= n
    {
      TimesGrows(c - 2, clustCnt - 2, spc);
    }

    function SectToClust(s: nat): nat
      requires dataSect <= s && 1 <= spc
    {
      Quot(s - dataSect, spc) + 2
    }
  }

  /** The whole 32-bit item of cluster c in the table that starts at sector fs. */
  ghost function Item(l: seq<Sector>, fs: nat, c: nat): (v: nat)
    requires fs + c / 128 < |l|
    ensures v < WORD
  {
    U32(l[fs + c / 128], 4 * (c % 128))
  }

  /** The n entries of the table that starts at sector fs: the low 28 bits of its items. */
  ghost function TableAt(l: seq<Sector>, fs: nat, n: nat): (t: Table)
    requires n % 128 == 0 && fs + n / 128 <= |l|
    ensures |t| == n
  {
    seq(n, c requires 0 <= c < n => Item(l, fs, c) % HALF)
  }

  function NewItem(old_: nat, v: nat): (r: nat)
    requires old_ < WORD
    ensures r < WORD && r % HALF == v % HALF && r / HALF == old_ / HALF
  {
    old_ / HALF * HALF + v % HALF
  }

  /** The sectors after entry c of the table at fs is set to v; the upper four bits are kept. */
  ghost function WithEntry(l: seq<Sector>, fs: nat, c: nat, v: nat): (r: seq<Sector>)
    requires fs + c / 128 < |l|
    ensures |r| == |l|
    ensures forall s :: 0 <= s < |l| && s != fs + c / 128 ==> r[s] == l[s]
  {
    l[fs + c / 128 := WithU32(l[fs + c / 128], 4 * (c % 128), NewItem(Item(l, fs, c), v))]
  }

  /** Setting one entry changes the low 28 bits of that item and no other item of that table. */
  lemma WithEntryItems(l: seq<Sector>, fs: nat, c: nat, v: nat, d: nat)
    requires fs + c / 128 < |l| && fs + d / 128 < |l|
    ensures Item(WithEntry(l, fs, c, v), fs, d)
         == if d == c then NewItem(Item(l, fs, c), v) else Item(l, fs, d)
  {
    if d / 128 == c / 128 {
      StoredU32(l[fs + c / 128], 4 * (c % 128), NewItem(Item(l, fs, c), v), 4 * (d % 128));
    }
  }

  lemma WithEntryTable(l: seq<Sector>, fs: nat, c: nat, v: nat, n: nat)
    requires n % 128 == 0 && fs + n / 128 <= |l| && c < n
    ensures TableAt(WithEntry(l, fs, c, v), fs, n) == TableAt(l, fs, n)[c := v % HALF]
  {
    forall d | 0 <= d < n
      ensures TableAt(WithEntry(l, fs, c, v), fs, n)[d] == TableAt(l, fs, n)[c := v % HALF][d]
    {
      WithEntryItems(l, fs, c, v, d);
    }
  }

  /** A table is a function of its own sectors. */
  lemma TableFrame(l: seq<Sector>, l': seq<Sector>, fs: nat, n: nat)
    requires |l| == |l'| && n % 128 == 0 && fs + n / 128 <= |l|
    requires forall s :: fs <= s < fs + n / 128 ==> l'[s] == l[s]
    ensures TableAt(l', fs, n) == TableAt(l, fs, n)
  {
    forall d | 0 <= d < n
      ensures TableAt(l', fs, n)[d] == TableAt(l, fs, n)[d]
    {
    }
  }

  /** Everything outside the data region may differ, the data region is the same. */
  ghost predicate SameData(g: Geometry, l: seq<Sector>, l': seq<Sector>) {
    |l| == |l'| && forall s :: g.dataSect <= s < |l| ==> l'[s] == l[s]
  }

  /** No sector from the data region on but x differs. */
  ghost predicate SameDataBut(g: Geometry, l: seq<Sector>, l': seq<Sector>, x: nat) {
    |l'| == |l| && forall s :: g.dataSect <= s < |l| && s != x ==> l'[s] == l[s]
  }

  lemma SameDataMeans(g: Geometry, l: seq<Sector>, l': seq<Sector>)
    requires SameData(g, l, l')
    ensures |l| == |l'|
  {
  }

  lemma SameDataTwice(g: Geometry, l: seq<Sector>, l1: seq<Sector>, l2: seq<Sector>)
    requires SameData(g, l, l1) && SameData(g, l1, l2)
    ensures SameData(g, l, l2)
  {
  }

  /** The disk with one buffered sector on top, when that buffer is dirty. */
  ghost function Overlaid(l: seq<Sector>, dirty: bool, s: nat, b: seq<Byte>): (r: seq<Sector>)
    requires dirty ==> s < |l| && |b| == 512
    ensures |r| == |l|
  {
    if dirty then l[s := b] else l
  }

  lemma OverlaidSame(g: Geometry, l: seq<Sector>, l': seq<Sector>, dirty: bool, s: nat, b: seq<Byte>)
    requires SameData(g, l, l') && (dirty ==> s < |l| && |b| == 512)
    ensures SameData(g, Overlaid(l, dirty, s, b), Overlaid(l', dirty, s, b))
  {
  }

  /** Exactly the sectors of one cluster are zeroed. */
  ghost predicate ClearedCluster(g: Geometry, l: seq<Sector>, l': seq<Sector>, c: nat)
    requires 2 <= c
  {
    |l| == |l'| && forall s :: 0 <= s < |l| ==>
      l'[s] == if g.ClustToSect(c) <= s < g.ClustToSect(c) + g.spc then Blank() else l[s]
  }

  /** The active table and the mirror hold the same entries. */
  ghost predicate Mirrors(g: Geometry, l: seq<Sector>)
    requires g.Fits(|l|)
  {
    g.fatSect1 != 0 ==> TableAt(l, g.fatSect1, g.clustCnt) == TableAt(l, g.fatSect0, g.clustCnt)
  }

  /** The sectors after entry c is set in the mirror, when there is one. */
  ghost function PutMirror(g: Geometry, l: seq<Sector>, c: nat, v: nat): (r: seq<Sector>)
    requires g.Fits(|l|) && c < g.clustCnt
    ensures |r| == |l|
  {
    if g.fatSect1 != 0 then WithEntry(l, g.fatSect1, c, v) else l
  }

  /** The sectors after entry c is set in both tables. */
  ghost function PutBoth(g: Geometry, l: seq<Sector>, c: nat, v: nat): (r: seq<Sector>)
    requires g.Fits(|l|) && c < g.clustCnt
    ensures |r| == |l|
  {
    WithEntry(PutMirror(g, l, c, v), g.fatSect0, c, v)
  }

  lemma PutMirrorFacts(g: Geometry, l: seq<Sector>, c: nat, v: nat)
    requires g.Fits(|l|) && c < g.clustCnt && v < HALF
    ensures var r := PutMirror(g, l, c, v);
      && TableAt(r, g.fatSect0, g.clustCnt) == TableAt(l, g.fatSect0, g.clustCnt)
      && (g.fatSect1 != 0 ==> TableAt(r, g.fatSect1, g.clustCnt) == TableAt(l, g.fatSect1, g.clustCnt)[c := v])
      && SameData(g, l, r) && r[g.infoSect] == l[g.infoSect]
  {
    hide TableAt, WithEntry;
    if g.fatSect1 != 0 {
      WithEntryTable(l, g.fatSect1, c, v, g.clustCnt);
      assert c / 128 < g.clustCnt / 128;
      TableFrame(l, WithEntry(l, g.fatSect1, c, v), g.fatSect0, g.clustCnt);
    }
  }

  /** Setting an entry in both tables sets it in the active one and keeps the mirror equal. */
  lemma PutBothFacts(g: Geometry, l: seq<Sector>, c: nat, v: nat)
    requires g.Fits(|l|) && c < g.clustCnt && v < HALF
    ensures var r := PutBoth(g, l, c, v);
      && TableAt(r, g.fatSect0, g.clustCnt) == TableAt(l, g.fatSect0, g.clustCnt)[c := v]
      && (Mirrors(g, l) ==> Mirrors(g, r))
      && SameData(g, l, r) && r[g.infoSect] == l[g.infoSect]
  {
    hide TableAt, WithEntry;
    var m := PutMirror(g, l, c, v);
    PutMirrorFacts(g, l, c, v);
    WithEntryTable(m, g.fatSect0, c, v, g.clustCnt);
    assert c / 128 < g.clustCnt / 128;
    if g.fatSect1 != 0 {
      TableFrame(m, PutBoth(g, l, c, v), g.fatSect1, g.clustCnt);
    }
  }

  /** Both tables are the same on two disks that agree on the table sectors. */
  lemma TablesUntouched(g: Geometry, l: seq<Sector>, l': seq<Sector>)
    requires g.Fits(|l|) && |l'| == |l|
    requires forall s :: 0 <= s < g.dataSect && s != g.infoSect ==> l'[s] == l[s]
    ensures TableAt(l', g.fatSect0, g.clustCnt) == TableAt(l, g.fatSect0, g.clustCnt)
    ensures Mirrors(g, l) ==> Mirrors(g, l')
  {
    TableFrame(l, l', g.fatSect0, g.clustCnt);
    if g.fatSect1 != 0 {
      TableFrame(l, l', g.fatSect1, g.clustCnt);
    }
  }

  // Offsets in the information sector.
  const FREE_CNT := 488
  const NEXT_FREE := 492

  function WithInfo(s: Sector, nextFree: nat, freeCnt: nat): (r: Sector)
  {
    WithU32(WithU32(s, NEXT_FREE, nextFree), FREE_CNT, freeCnt)
  }

  /** The information sector carries both numbers. */
  lemma InfoReads(s: Sector, nextFree: nat, freeCnt: nat)
    requires nextFree < WORD && freeCnt < WORD
    ensures U32(WithInfo(s, nextFree, freeCnt), NEXT_FREE) == nextFree
    ensures U32(WithInfo(s, nextFree, freeCnt), FREE_CNT) == freeCnt
  {
    StoredU32(s, NEXT_FREE, nextFree, NEXT_FREE);
    StoredU32(WithU32(s, NEXT_FREE, nextFree), FREE_CNT, freeCnt, NEXT_FREE);
    StoredU32(WithU32(s, NEXT_FREE, nextFree), FREE_CNT, freeCnt, FREE_CNT);
  }
}
