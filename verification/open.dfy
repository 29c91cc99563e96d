/** Opening a file that exists: from the entry of a name to a handle at its first or its last byte. */
module Opening {
  import opened Bytes
  import opened Entries
  import opened Names
  import opened Listing
  import opened Chains
  import opened Volume
  import opened Layout
  import opened Slots
  import opened FatFs
  import opened Files
  import opened Dirs

  const CLUSTER_LIMIT := 128     // sectors of a cluster: a power of two in one byte

  /** The first sector of a cluster as 32-bit arithmetic computes it, for any number. */
  function FirstSector(g: Geometry, c: nat): nat {
    if 2 <= c then (Times(c - 2, g.spc) + g.dataSect) % WORD else (g.dataSect - (2 - c) * g.spc) % WORD
  }

  ghost predicate InData(g: Geometry, s: nat) {
    2 <= g.clustCnt && g.dataSect <= s < g.dataSect + Times(g.clustCnt - 2, g.spc)
  }

  /** The handle of an entry points into the data region exactly when the entry's first cluster is a cluster. */
  lemma HandleInData(g: Geometry, n: nat, c: nat)
    requires g.Fits(n) && g.spc <= CLUSTER_LIMIT && c < g.clustCnt
    ensures InData(g, FirstSector(g, c)) <==> 2 <= c
    ensures 2 <= c ==> FirstSector(g, c) == g.ClustToSect(c)
  {
    hide Times;
    if 2 <= c {
      g.ClusterFits(c, n);
      TimesGrows(c - 2, g.clustCnt - 2, g.spc);
      Small(g.ClustToSect(c));
    } else {
      ReservedOutside(g, n, c);
    }
  }

  lemma Small(x: int)
    requires -WORD <= x < WORD
    ensures x % WORD == if x < 0 then x + WORD else x
  {
  }

  lemma ReservedOutside(g: Geometry, n: nat, c: nat)
    requires g.Fits(n) && g.spc <= CLUSTER_LIMIT && c < 2
    ensures !InData(g, FirstSector(g, c))
  {
    hide Times;
    var d := if c == 0 then 2 * g.spc else g.spc;
    assert (2 - c) * g.spc == d;
    Small(g.dataSect - d);
    if g.dataSect < d {
      TimesIsProduct(g.clustCnt - 2, g.spc);
      SmallTable(g, n);
    }
  }

  /** A volume whose data region starts as early as that is small. */
  lemma SmallTable(g: Geometry, n: nat)
    requires g.Fits(n) && g.spc <= CLUSTER_LIMIT && g.dataSect < 2 * g.spc
    ensures g.dataSect + (g.clustCnt - 2) * g.spc <= WORD - 2 * g.spc
  {
    assert g.clustCnt / 128 <= g.dataSect < 256;
    assert g.clustCnt < 0x8000;
    assert g.clustCnt * g.spc <= 0x8000 * 128;
  }

  /** Slot k is the entry of a file whose clusters are chain, a chain of its own that holds its size. */
  ghost predicate Openable(g: Geometry, b: Dirs.Snapshot, k: nat, sclust: nat, chain: seq<nat>) {
    && k < |b.slots| && ChainOf(g, b.t, chain, ClustOf(b.slots[k]))
    && IsHead(b.t, ClustOf(b.slots[k])) && IsHead(b.t, sclust) && ClustOf(b.slots[k]) != sclust
    && U32(b.slots[k], SIZE) <= 512 * |Sectors(g, chain)|
  }

  /** The chain of the file is elsewhere than the directory, which holds the entry and is what the volume buffer shows. */
  lemma OwnedByEntry(d: Dir, k: nat, s: Slot, chain: seq<nat>)
    requires d.Valid() && d.Buffered(k, s) && Openable(d.fat.g, d.Now(), k, d.sclust, chain)
    ensures d.fat.Valid() && s == d.Now().slots[k] && Clusters(d.fat.g, chain)
    ensures Owned(d.fat.g, d.fat.T(), chain, ClustOf(s), d.fat.sect, d.sect, d.clust)
    ensures d.idx % 32 == 0 && d.idx + 32 <= 512
  {
    hide Dir.Valid, Fat.Valid, Fat.L, Fat.T, Sectors, Clusters, WellFormed, IsChain, Quot, ClustOf, IsHead, SlotsOf, ChainOf, InUse;
    d.Facts();
    d.NowMeans();
    EntryAt(d, k, s);
    var g, t := d.fat.g, d.fat.T();
    ChainOfParts(g, t, chain, ClustOf(s));
    ChainOfParts(g, t, d.chain, d.sclust);
    var j := Quot(k / 16, g.spc);
    ChainInUse(t, d.chain, j);
    forall i | 0 <= i < |chain| ensures chain[i] != d.clust { ChainsDisjoint(t, chain, d.chain, i, j); }
    OutsideChain(g, chain, d.clust, d.sect - g.ClustToSect(d.clust));
    OwnedFrom(g, t, chain, ClustOf(s), d.fat.sect, d.sect, d.clust);
  }

  lemma EntryAt(d: Dir, k: nat, s: Slot)
    requires d.Valid() && d.Buffered(k, s)
    ensures d.fat.sect == d.sect && k < |d.Listed()| && s == d.Listed()[k] && d.idx == 32 * (k % 16)
    ensures 1 <= d.fat.g.spc && Quot(k / 16, d.fat.g.spc) < |d.chain| && d.clust == d.chain[Quot(k / 16, d.fat.g.spc)] && 2 <= d.clust
    ensures d.fat.g.ClustToSect(d.clust) <= d.sect < d.fat.g.ClustToSect(d.clust) + d.fat.g.spc
  {
    hide Dir.Valid, Fat.Valid, Fat.L, Fat.T, Sectors, Clusters, ChainOf, SlotsOf, Quot;
    d.Facts();
    SectorCluster(d.fat.g, d.chain, k / 16);
  }

  /** Where a sector of a chain lies in its cluster. */
  lemma SectorCluster(g: Geometry, s: seq<nat>, x: nat)
    requires Clusters(g, s) && 1 <= g.spc && x < |Sectors(g, s)| && Quot(x, g.spc) < |s| && 2 <= s[Quot(x, g.spc)]
    ensures g.ClustToSect(s[Quot(x, g.spc)]) <= Sectors(g, s)[x] < g.ClustToSect(s[Quot(x, g.spc)]) + g.spc
  {
    hide Sectors, Clusters;
    var k, i := SectorOrigin(g, s, x);
    Position(x, g.spc, k, i);
  }

  /** What an opened handle shows, and what it has left of the table. */
  ghost predicate Opened(f: File, b: Dirs.Snapshot, k: nat, chain: seq<nat>, append: bool, trunc: bool)
    requires f.Valid()
    reads f, f.buf, f.fat, f.fat.buf
  {
    && k < |b.slots| && Clusters(f.fat.g, chain)
    && f.sclust == ClustOf(b.slots[k]) && f.size == (if trunc then 0 else U32(b.slots[k], 28))
    && f.offset == (if append then f.size else 0)
    && OnDisk(Sectors(f.fat.g, chain), |b.l|) && Content(b.l, Sectors(f.fat.g, chain)) <= f.Data()
    && OnlyGrew(b.t, f.fat.T(), chain, f.chain) && f.fat.Drift() == b.drift
  }

  /** The handle is filled from the entry and its buffer by a first seek. */
  method OpenAt(d: Dir, s: Slot, canRead: bool, canWrite: bool, append: bool, trunc: bool, ghost k: nat, ghost chain: seq<nat>)
    returns (err: int, f: File)
    requires d.Valid() && d.Buffered(k, s) && Openable(d.fat.g, d.Now(), k, d.sclust, chain)
    modifies d.fat, d.fat.buf
    ensures d.fat.Valid() && f.fat == d.fat && fresh(f)
    ensures err == ERR_NONE ==> f.Ready() && f.Valid() && Opened(f, old(d.Now()), k, chain, append, trunc)
  {
    hide Dir.Valid, Fat.Valid, Fat.L, Fat.T, Fat.Drift, Fat.MirrorAgrees, Sectors, Clusters, ChainOf, SlotsOf, Quot, Dir.Buffered, Owned, OnlyGrew, ClustOf, Content, OnDisk,
         File.AtCursor, File.Data, File.View;
    ghost var b := d.Now();
    OwnedByEntry(d, k, s, chain);
    OpenableMeans(d, k, chain);
    f := new File(d.fat, d.sect, d.idx, ClustOf(s), U32(s, SIZE), canRead, canWrite, trunc, chain, d.clust);
    FirstView(f);
    ghost var now := f.Now();
    err := f.Seek(0, if append then SeekEnd else SeekStart);
    if err == ERR_NONE {
      f.KeepsMeans(now);
    }
  }

  lemma OpenableMeans(d: Dir, k: nat, chain: seq<nat>)
    requires d.Valid() && Openable(d.fat.g, d.Now(), k, d.sclust, chain)
    ensures k < |d.Now().slots| && U32(d.Now().slots[k], SIZE) <= 512 * |Sectors(d.fat.g, chain)|
    ensures d.Now().l == d.fat.L() && d.Now().t == d.fat.T() && d.Now().drift == d.fat.Drift()
  {
    hide Dir.Valid, Fat.Valid, Fat.L, Fat.T, Fat.Drift, Sectors, Clusters, WellFormed, IsChain, ClustOf, IsHead, SlotsOf, ChainOf, U32;
    d.NowMeans();
  }

  /** A new handle shows what the disk shows. */
  lemma FirstView(f: File)
    requires f.Valid() && f.sect == NOWHERE
    ensures Clusters(f.fat.g, f.chain) && OnDisk(Sectors(f.fat.g, f.chain), |f.fat.L()|)
    ensures f.Now().data == Content(f.fat.L(), Sectors(f.fat.g, f.chain)) && f.Now().t == f.fat.T() && f.Now().chain == f.chain
    ensures f.Now().drift == f.fat.Drift()
  {
    hide Fat.Valid, Fat.L, Fat.T, Fat.Drift, Sectors, Clusters, Content, Owned;
    f.Facts();
  }

  /**
   Opens the file that a name denotes: a handle with the entry's size, or none if the file is truncated, at the start
   of the file or at its end, that shows the bytes of the file's clusters. The chain grows when the end of the file is the end of its
   last cluster.
   */
  method OpenFile(d: Dir, name: seq<Byte>, canRead: bool, canWrite: bool, append: bool, trunc: bool, ghost chain: seq<nat>)
    returns (err: int, f: File?, ghost k: nat)
    requires d.Valid() && Intact(d.Now().slots, 0)
    requires var r := Lookup(d.Now().slots, name, 0); r.Found? ==> Openable(d.fat.g, d.Now(), r.sfn, d.sclust, chain)
    modifies d`clust, d`sect, d`idx, d`nameLen, d`nameCrc, d.nameBuf, d.fat, d.fat.buf
    ensures d.fat.Valid()
    ensures f == null ==> err == ERR_IO || (err == ERR_EOF && Lookup(old(d.Now().slots), name, 0) == NotFound)
    ensures err == ERR_NONE ==>
      && f != null && f.fat == d.fat && f.Ready() && f.Valid() && Lookup(old(d.Now().slots), name, 0).Found?
      && k == Lookup(old(d.Now().slots), name, 0).sfn && Opened(f, old(d.Now()), k, chain, append, trunc)
  {
    hide Dir.Valid, Fat.Valid, Fat.L, Fat.T, Sectors, Clusters, ChainOf, SlotsOf, Quot, Intact, Lookup, Dir.Now, Dir.Buffered, Dir.StandsAt, Openable,
         File.Valid, File.Ready, Opened, Owned, ClustOf, U32;
    f, k := null, 0;
    ghost var b := d.Now();
    var s, firstSect, firstIdx;
    ghost var first;
    err, s, firstSect, firstIdx, first, k := d.Search(name);
    if err != ERR_NONE {
      return;
    }
    OwnedByEntry(d, k, s, chain);
    err, f := OpenAt(d, s, canRead, canWrite, append, trunc, k, chain);
  }
}
