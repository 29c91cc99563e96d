/** Unlinking a name, and what creating and unlinking one leave behind. */
module Unlinking {
  import opened Bytes
  import opened Entries
  import opened Names
  import opened Listing
  import opened Chains
  import opened Volume
  import opened Layout
  import opened Slots
  import opened FatFs
  import opened Dirs

  /** Read-only, system or label. */
  predicate Protected(attr: Byte) {
    attr % 2 == 1 || attr / 4 % 2 == 1 || attr / 8 % 2 == 1
  }

  predicate IsDir(attr: Byte) {
    attr / 16 % 2 == 1
  }

  /** The attribute has one of the bits of the mask. */
  predicate Masked(attr: Byte, mask: bv8) {
    (attr as bv8) & mask != 0
  }

  const PROTECTING: bv8 := 0x01 | 0x04 | 0x08    // FAT_ATTR_RO, FAT_ATTR_SYS and FAT_ATTR_LABEL
  const DIRECTORY: bv8 := 0x10                   // FAT_ATTR_DIR

  /** The two tests are those of the attribute masks, on every attribute byte. */
  lemma AttributeMasks(attr: Byte)
    ensures Protected(attr) <==> Masked(attr, PROTECTING)
    ensures IsDir(attr) <==> Masked(attr, DIRECTORY)
  {
    hide *;
    AsBits(attr);
    ProtectingBits(attr as bv8);
    DirectoryBit(attr as bv8);
    MaskedMeans(attr);
  }

  lemma MaskedMeans(attr: Byte)
    ensures forall mask :: Masked(attr, mask) <==> (attr as bv8) & mask != 0
  {
  }

  lemma ProtectingBits(v: bv8)
    ensures Protected(v as int) <==> v & PROTECTING != 0
  {
    ReadOnlyBit(v);
    SystemBit(v);
    LabelBit(v);
  }

  lemma ReadOnlyBit(v: bv8)
    ensures (v as int) % 2 == 1 <==> v & 0x01 != 0
  {
  }

  lemma SystemBit(v: bv8)
    ensures (v as int) / 4 % 2 == 1 <==> v & 0x04 != 0
  {
  }

  lemma LabelBit(v: bv8)
    ensures (v as int) / 8 % 2 == 1 <==> v & 0x08 != 0
  {
  }

  lemma DirectoryBit(v: bv8)
    ensures IsDir(v as int) <==> v & DIRECTORY != 0
  {
  }

  // ---------------------------------------------------------------- the table

  /** Freeing a chain from its head leaves every chain with another head as it was. */
  lemma ClearedKeeps(t: Table, freed: seq<nat>, r: seq<nat>)
    requires WellFormed(t) && IsChain(t, freed) && IsChain(t, r)
    requires IsHead(t, freed[0]) && IsHead(t, r[0]) && freed[0] != r[0]
    ensures IsChain(Cleared(t, freed), r) && forall c :: c in r ==> c !in freed
  {
    forall i, j | 0 <= i < |freed| && 0 <= j < |r|
      ensures freed[i] != r[j]
    {
      ChainsDisjoint(t, freed, r, i, j);
    }
    forall j | 0 <= j < |r| - 1
      ensures Cleared(t, freed)[r[j]] == r[j + 1]
    {
      assert t[r[j]] == r[j + 1];
    }
  }

  lemma ChainOfCleared(g: Geometry, t: Table, chain: seq<nat>, first: nat, freed: seq<nat>)
    requires ChainOf(g, t, chain, first) && IsHead(t, first) && freed != []
    requires if freed[0] < 2 then freed == [freed[0]] && freed[0] < |t| else IsChain(t, freed) && IsHead(t, freed[0]) && freed[0] != first
    requires WellFormed(Cleared(t, freed))
    ensures ChainOf(g, Cleared(t, freed), chain, first)
  {
    hide WellFormed, Clusters, IsHead;
    ChainOfParts(g, t, chain, first);
    if freed[0] < 2 {
      ChainKept(t, chain, freed[0], 0);
      assert Cleared(t, freed) == t[freed[0] := 0];
    } else {
      ClearedKeeps(t, freed, chain);
    }
  }

  // ---------------------------------------------------------------- unlinking

  /**
   What an entry's first cluster can be in a sound directory: the head of a chain that is not the directory's; a number below 2,
   as other systems write for empty files, whose table entry links to no cluster; or a cluster in no chain.
   */
  ghost predicate Belongs(t: Table, clust: nat, sclust: nat) {
    && clust < |t|
    && if clust < 2 then !InTable(t, t[clust]) else InUse(t, clust) ==> IsHead(t, clust) && clust != sclust
  }

  ghost predicate Placed(b: Snapshot, sclust: nat, name: seq<Byte>) {
    var r := Lookup(b.slots, name, 0);
    r.Found? ==> r.sfn < |b.slots| && Belongs(b.t, ClustOf(b.slots[r.sfn]), sclust)
  }

  /** The table after unlinking: freed was followed from the first cluster to an end mark, and is free now. */
  ghost predicate Freed(t: Table, freed: seq<nat>, clust: nat, t': Table) {
    IsRun(t, freed) && freed[0] == clust && t' == Cleared(t, freed) && (2 <= clust ==> IsChain(t, freed)) && (clust < 2 ==> freed == [clust])
  }

  lemma FreedIs(t: Table, freed: seq<nat>, clust: nat)
    requires IsRun(t, freed) && freed[0] == clust && Belongs(t, clust, clust + 1)
    ensures Freed(t, freed, clust, Cleared(t, freed))
  {
    RunIsChain(t, freed);
    assert 1 < |freed| ==> t[freed[0]] == freed[1] && InTable(t, freed[1]);
  }

  /** Why an entry cannot be unlinked: it is protected, it is a directory in use, or it passes for the root. */
  ghost predicate Refused(g: Geometry, b: Snapshot, k: nat, sclust: nat, rootClust: nat, sub: seq<nat>)
    requires k < |b.slots|
  {
    || Masked(b.slots[k][11], PROTECTING)
    || (k == 0 && sclust == rootClust)
    || (Masked(b.slots[k][11], DIRECTORY) && !Dir.Vacant(SubSlots(g, b.l, sub)))
  }

  /** What a caller sees of unlinking a name: it gives its next match, and every other name what it gave before. */
  ghost predicate Forgotten(s: seq<Slot>, s': seq<Slot>, name: seq<Byte>) {
    var r := Lookup(s, name, 0);
    && r.Found? && Removed(s, s', r.first, r.sfn) && Intact(s', 0)
    && (forall m :: Lookup(s, m, 0) != r ==> Lookup(s', m, 0) == Lookup(s, m, 0))
    && (forall m :: Lookup(s, m, 0) == r ==> Lookup(s', m, 0) == Lookup(s, m, r.sfn + 1))
  }

  /** The directory shows the same slots on a disk with the same data. */
  lemma SameListing(d: Dir, b: Snapshot)
    requires d.Valid() && b.secs == d.Secs() && SameData(d.fat.g, b.l, d.fat.L()) && MirrorKept(d.fat.g, b.l, d.fat.L())
    requires OnDisk(b.secs, |b.l|) && b.slots == SlotsOf(b.l, b.secs)
    ensures d.Listed() == b.slots && OthersKept(d.fat.g, b.l, d.fat.L(), d.Secs())
  {
    hide Dir.Valid, Fat.Valid, Fat.L, Fat.T, ChainOf, SlotsOf, Sectors, Clusters, MirrorKept;
    d.Facts();
    d.ListedIs();
    SlotsFrame(b.l, d.fat.L(), d.Secs());
  }

  lemma SnapshotParts(d: Dir, b: Snapshot)
    requires d.Valid() && b == d.Now()
    ensures d.fat.Valid() && b.secs == d.Secs() && OnDisk(b.secs, |b.l|) && b.slots == SlotsOf(b.l, b.secs) && b.l == d.fat.L()
    ensures b.t == d.fat.T() && ChainOf(d.fat.g, b.t, d.chain, d.sclust) && b.slots == d.Listed() && WellFormed(b.t) && b.chain == d.chain
    ensures IsChain(b.t, b.chain) && |b.chain| > 0 && b.chain[0] == d.sclust && |b.t| <= BAD
    ensures b.drift == d.fat.Drift()
  {
    hide Fat.Valid, Fat.L, Fat.T, WellFormed, IsChain, SlotsOf, Sectors, Clusters;
    d.Facts();
    ChainOfParts(d.fat.g, b.t, d.chain, d.sclust);
  }

  /** The test for the root is met by the first slot of the root directory and by no other. */
  lemma RootSlot(d: Dir, k: nat, rootClust: nat)
    requires d.Valid() && d.At(k) && IsHead(d.fat.T(), rootClust) && 2 <= rootClust
    ensures (d.clust == rootClust && d.sect == d.fat.g.ClustToSect(rootClust) && d.idx == 0) <==> (k == 0 && d.sclust == rootClust)
  {
    hide Dir.Valid, Fat.Valid, Fat.L, Fat.T, ChainOf, Sectors, Clusters, WellFormed, Quot;
    d.Facts();
    var g, chain := d.fat.g, d.chain;
    ChainOfParts(g, d.fat.T(), chain, d.sclust);
    var x := k / 16;
    var j := Quot(x, g.spc);
    d.AtMeans(k);
    OnCluster(d, k);
    if chain[j] == rootClust && j > 0 {
      ChainStep(d.fat.T(), chain, j - 1);
    }
    SectorAt(g, chain, 0, 0);
    QuotZero(g.spc);
  }

  lemma OnCluster(d: Dir, k: nat)
    requires d.Valid() && d.At(k)
    ensures 1 <= d.fat.g.spc && Quot(k / 16, d.fat.g.spc) < |d.chain| && d.clust == d.chain[Quot(k / 16, d.fat.g.spc)]
  {
  }

  /** The slots of the directory to be unlinked, as the disk holds them. */
  ghost function SubSlots(g: Geometry, l: seq<Sector>, sub: seq<nat>): seq<Slot> {
    if Clusters(g, sub) && OnDisk(Sectors(g, sub), |l|) then SlotsOf(l, Sectors(g, sub)) else []
  }

  /** Looks through the directory that starts at clust with a second directory handle. */
  method CheckSub(d: Dir, clust: nat, rootClust: nat, ghost sub: seq<nat>) returns (err: int)
    requires d.Valid() && ChainOf(d.fat.g, d.Now().t, sub, if clust == 0 then rootClust else clust)
    modifies d.fat`disk, d.fat`bufDirty, d.fat`sect, d.fat.buf
    ensures d.fat.Valid() && d.Valid() && d.Now() == old(d.Now())
    ensures err == ERR_NONE || err == ERR_DENIED || err == ERR_IO || err == ERR_EOF
    ensures err != ERR_IO ==> (err == ERR_NONE <==> Dir.Vacant(SubSlots(d.fat.g, d.Now().l, sub)))
  {
    hide Dir.Valid, Fat.Valid, Fat.L, Fat.T, Fat.Drift, ChainOf, SlotsOf, Sectors, Clusters, Dir.Secs, Quot, Dir.Listed, Dir.InSector, Dir.At, Dir.Now, Dir.Vacant,
         SubSlots;
    d.Facts();
    SnapshotParts(d, d.Now());
    var tmp := new Dir(d.fat, clust, rootClust, sub);
    SnapshotParts(tmp, tmp.Now());
    SubListing(tmp, sub);
    err := tmp.CheckEmpty();
    tmp.NowMeans();
    d.ValidFrom();
    d.NowMeans();
    d.ListedIs();
  }

  lemma SubListing(d: Dir, sub: seq<nat>)
    requires d.Valid() && d.chain == sub
    ensures SubSlots(d.fat.g, d.Now().l, sub) == d.Now().slots
  {
    hide Dir.Valid, Fat.L, Fat.T, SlotsOf, Sectors, Clusters;
    d.Facts();
  }

  /** The checks before anything is changed. */
  method Admit(d: Dir, attr: Byte, clust: nat, rootClust: nat, ghost sub: seq<nat>, ghost k: nat) returns (err: int)
    requires d.Valid() && d.At(k) && k < |d.Now().slots| && attr == d.Now().slots[k][ATTR]
    requires IsHead(d.Now().t, rootClust) && 2 <= rootClust
    requires Masked(attr, DIRECTORY) ==> ChainOf(d.fat.g, d.Now().t, sub, if clust == 0 then rootClust else clust)
    modifies d.fat`disk, d.fat`bufDirty, d.fat`sect, d.fat.buf
    ensures d.fat.Valid() && d.Valid() && d.Now() == old(d.Now()) && d.At(k)
    ensures err == ERR_NONE || err == ERR_DENIED || err == ERR_IO || err == ERR_EOF
    ensures err != ERR_IO ==> (err == ERR_NONE <==> !Refused(d.fat.g, d.Now(), k, d.sclust, rootClust, sub))
  {
    hide Dir.Valid, Fat.Valid, Fat.L, Fat.T, ChainOf, SlotsOf, Sectors, Clusters, Dir.Secs, Quot, Dir.Listed, Dir.InSector, Dir.Now, Dir.Vacant, Masked, IsDir, Protected;
    ghost var b := d.Now();
    SnapshotParts(d, b);
    RootSlot(d, k, rootClust);
    if d.clust == rootClust && d.sect == d.fat.g.ClustToSect(rootClust) && d.idx == 0 {
      return ERR_DENIED;
    }
    AttributeMasks(attr);
    if Protected(attr) {
      return ERR_DENIED;
    }
    err := ERR_NONE;
    if IsDir(attr) {
      err := CheckSub(d, clust, rootClust, sub);
    }
  }

  ghost predicate Separate(t: Table, clust: nat, sclust: nat) {
    Belongs(t, clust, sclust) && IsHead(t, sclust)
  }

  /** Whether the freeing walk can start at a cluster: it is in use, or it is a reserved entry that holds an end mark. */
  ghost predicate Removable(t: Table, clust: nat) {
    if clust < 2 then clust < |t| && EOC_MIN <= t[clust] else InUse(t, clust)
  }

  lemma SeparateMeans(t: Table, clust: nat, sclust: nat)
    requires Separate(t, clust, sclust)
    ensures clust < |t| && IsHead(t, sclust) && Belongs(t, clust, clust + 1)
    ensures clust < 2 ==> !InTable(t, t[clust]) && (Removable(t, clust) <==> EOC_MIN <= t[clust])
    ensures 2 <= clust && Removable(t, clust) ==> InUse(t, clust) && IsHead(t, clust) && clust != sclust
  {
  }

  /** Frees the chain of an entry; the directory does not notice. */
  method DropChain(d: Dir, clust: nat) returns (err: int, ghost freed: seq<nat>)
    requires d.Valid() && Separate(d.Now().t, clust, d.sclust)
    modifies d.fat, d.fat.buf
    ensures d.fat.Valid()
    ensures err == ERR_NONE || err == ERR_IO || err == ERR_BROKEN
    ensures err == ERR_NONE ==>
      && d.Valid() && Freed(old(d.Now().t), freed, clust, d.Now().t)
      && d.Listed() == old(d.Listed()) && OthersKept(d.fat.g, old(d.fat.L()), d.fat.L(), d.Secs())
      && d.fat.Drift() == if clust < 2 then Plus(old(d.fat.Drift()), 1) else old(d.fat.Drift())
    ensures err != ERR_IO ==> (err == ERR_NONE <==> Removable(old(d.Now().t), clust))
  {
    hide Dir.Valid, Fat.Valid, Fat.L, Fat.T, ChainOf, SlotsOf, Sectors, Clusters, Dir.Secs, Dir.Listed, Dir.Now, Mirrors, MirrorKept, SameData,
         Fat.MirrorAgrees, Fat.Drift, Fat.Info, Fat.Flushed, WellFormed, IsChain, IsRun, Plus, Cleared, Separate, OthersKept, Geometry.Fits, IsHead;
    ghost var b := d.Now();
    SnapshotParts(d, b);
    d.Facts();
    d.MirrorNow();
    ghost var agreed := d.fat.MirrorAgrees();
    SeparateMeans(b.t, clust, d.sclust);
    err, freed := d.fat.RemoveChain(clust);
    if err != ERR_NONE {
      return;
    }
    SameDataMeans(d.fat.g, b.l, d.fat.L());
    d.MirrorFrom(b.l, agreed);
    FreedIs(b.t, freed, clust);
    ChainOfCleared(d.fat.g, b.t, d.chain, d.sclust, freed);
    d.ValidFrom();
    d.NowMeans();
    SameListing(d, b);
  }

  lemma InUseMeans(t: Table, c: nat)
    requires InUse(t, c)
    ensures 2 <= c < |t|
  {
  }

  /** Frees the chain of an entry and the entry's slots, and writes everything back. */
  method Erase(d: Dir, clust: nat, firstSect: nat, firstIdx: nat, ghost f: nat, ghost k: nat) returns (err: int, ghost freed: seq<nat>)
    requires d.Valid() && Separate(d.Now().t, clust, d.sclust) && d.At(k) && d.StandsAt(f, firstSect, firstIdx) && f <= k
    modifies d`clust, d`sect, d`idx, d.fat, d.fat.buf
    ensures d.fat.Valid()
    ensures err == ERR_NONE || err == ERR_IO || err == ERR_BROKEN
    ensures err == ERR_NONE ==>
      && d.Valid() && Freed(old(d.Now().t), freed, clust, d.Now().t)
      && Removed(old(d.Listed()), d.Listed(), f, k) && OthersKept(d.fat.g, old(d.fat.L()), d.fat.L(), d.Secs())
      && d.fat.Drift() == if clust < 2 then Plus(old(d.fat.Drift()), 1) else old(d.fat.Drift())
    ensures !Removable(old(d.Now().t), clust) ==> err != ERR_NONE
    ensures err == ERR_BROKEN ==> !Removable(old(d.Now().t), clust)
  {
    hide Dir.Valid, Fat.Valid, Fat.L, Fat.T, ChainOf, SlotsOf, Sectors, Clusters, Dir.Secs, Dir.Listed, Dir.Now, Mirrors, MirrorKept, SameData,
         Fat.MirrorAgrees, Fat.Info, Fat.Flushed, WellFormed, IsChain, Plus, Cleared, OthersKept, Geometry.Fits, IsHead, Dir.At, Dir.StandsAt,
         Removed, FreeCount, Separate, Gap, Freed, Removable;
    ghost var b := d.Now();
    SnapshotParts(d, b);
    err, freed := DropChain(d, clust);
    if err != ERR_NONE {
      return;
    }
    ghost var b1 := d.Now();
    SnapshotParts(d, b1);
    err := d.RemoveEntries(firstSect, firstIdx, f, k);
    d.Facts();
    if err != ERR_NONE {
      return;
    }
    ghost var b2 := d.Now();
    SnapshotParts(d, b2);
    OthersKeptTwice(d.fat.g, b.l, b1.l, b2.l, d.Secs(), d.Secs());
    err := Settle(d);
    SnapshotParts(d, d.Now());
    OthersKeptTwice(d.fat.g, b.l, b2.l, d.fat.L(), d.Secs(), d.Secs());
  }

  /**
   Freeing one entry and counting it keeps the counter right exactly when the entry belongs to a cluster; a reserved entry
   is lost, and cannot be freed a second time.
   */
  lemma OnlyClustersCount(t: Table, c: nat, counter: nat)
    requires c < |t| && t[c] != 0
    ensures Gap(Plus(counter, 1), FreeCount(t[c := 0])) == Gap(counter, FreeCount(t)) <==> 2 <= c
    ensures c < 2 && EOC_MIN <= t[c] ==> Removable(t, c) && Freed(t, [c], c, t[c := 0]) && !Removable(t[c := 0], c)
  {
    if 2 <= c {
      CountAfterFree(t, c);
      GapKept(counter, FreeCount(t), 1);
    } else {
      ReservedFreed(t, c);
      GapOff(counter, FreeCount(t));
      assert Cleared(t, [c]) == t[c := 0];
    }
  }

  /** A volume with one free cluster and an empty file without clusters, before and after the file is unlinked. */
  lemma EmptyFileMiscounted()
    ensures Belongs([0x0fff_fff8, EOC, 0], 0, 2) && Removable([0x0fff_fff8, EOC, 0], 0)
    ensures Freed([0x0fff_fff8, EOC, 0], [0], 0, [0, EOC, 0]) && !Removable([0, EOC, 0], 0)
    ensures Gap(Plus(1, 1), FreeCount([0, EOC, 0])) != Gap(1, FreeCount([0x0fff_fff8, EOC, 0]))
  {
    var t: Table := [0x0fff_fff8, EOC, 0];
    OnlyClustersCount(t, 0, 1);
    assert t[0 := 0] == [0, EOC, 0];
  }

  /** Writes everything back; the directory does not notice. */
  method Settle(d: Dir) returns (err: int)
    requires d.Valid()
    modifies d.fat`disk, d.fat`bufDirty, d.fat`sect, d.fat`infoDirty, d.fat.buf
    ensures d.Valid() && d.Now().t == old(d.Now().t) && d.Listed() == old(d.Listed())
    ensures err == ERR_NONE || err == ERR_IO
    ensures OthersKept(d.fat.g, old(d.fat.L()), d.fat.L(), d.Secs())
  {
    hide Dir.Valid, Fat.Valid, Fat.L, Fat.T, ChainOf, SlotsOf, Sectors, Clusters, Dir.Secs, Dir.Listed, Dir.Now, Mirrors, MirrorKept, SameData,
         Fat.MirrorAgrees, Fat.Info, Fat.Flushed, WellFormed, OthersKept, Geometry.Fits, WithInfo;
    ghost var b := d.Now();
    SnapshotParts(d, b);
    d.Facts();
    d.MirrorNow();
    ghost var agreed := d.fat.MirrorAgrees();
    err := d.fat.SyncFs();
    SameDataMeans(d.fat.g, b.l, d.fat.L());
    d.MirrorFrom(b.l, agreed);
    d.ValidFrom();
    d.NowMeans();
    SameListing(d, b);
  }

  /**
   Unlinks the file or empty directory that a name denotes: its chain becomes free and its slots are
   marked, and the name gives its next match, which is none when it had one entry. An entry whose first cluster is below 2
   loses the reserved table entry of that number and makes the counter of free clusters one too high; where that entry is
   free already, unlinking fails.
   */
  method Unlink(d: Dir, name: seq<Byte>, rootClust: nat, ghost sub: seq<nat>) returns (err: int, ghost freed: seq<nat>)
    requires d.Valid() && Intact(d.Now().slots, 0) && Placed(d.Now(), d.sclust, name)
    requires IsHead(d.Now().t, d.sclust) && IsHead(d.Now().t, rootClust) && 2 <= rootClust
    requires SubDir(d.fat.g, d.Now(), name, rootClust, sub)
    modifies d`clust, d`sect, d`idx, d`nameLen, d`nameCrc, d.nameBuf, d.fat, d.fat.buf
    ensures d.fat.Valid()
    ensures err == ERR_NONE || err == ERR_IO || err == ERR_EOF || err == ERR_DENIED || err == ERR_BROKEN
    ensures err == ERR_BROKEN ==>
      && Lookup(old(d.Now().slots), name, 0).Found? && Lookup(old(d.Now().slots), name, 0).sfn < |old(d.Now().slots)|
      && !Removable(old(d.Now().t), ClustOf(old(d.Now().slots)[Lookup(old(d.Now().slots), name, 0).sfn]))
    ensures err == ERR_EOF ==>
      && d.Valid() && d.Now() == old(d.Now())
      && (Lookup(d.Now().slots, name, 0) == NotFound
          || (Lookup(d.Now().slots, name, 0).Found? && Lookup(d.Now().slots, name, 0).sfn < |d.Now().slots|
              && Refused(d.fat.g, d.Now(), Lookup(d.Now().slots, name, 0).sfn, d.sclust, rootClust, sub)))
    ensures err == ERR_DENIED ==>
      && d.Valid() && d.Now() == old(d.Now()) && Lookup(d.Now().slots, name, 0).Found?
      && Lookup(d.Now().slots, name, 0).sfn < |d.Now().slots|
      && Refused(d.fat.g, d.Now(), Lookup(d.Now().slots, name, 0).sfn, d.sclust, rootClust, sub)
    ensures err == ERR_NONE ==>
      && d.Valid() && Forgotten(old(d.Now().slots), d.Now().slots, name)
      && Lookup(old(d.Now().slots), name, 0).sfn < |old(d.Now().slots)|
      && !Refused(d.fat.g, old(d.Now()), Lookup(old(d.Now().slots), name, 0).sfn, d.sclust, rootClust, sub)
      && OthersKept(d.fat.g, old(d.Now().l), d.Now().l, d.Secs())
      && var clust := ClustOf(old(d.Now().slots)[Lookup(old(d.Now().slots), name, 0).sfn]);
         && Removable(old(d.Now().t), clust) && Freed(old(d.Now().t), freed, clust, d.Now().t)
         && d.fat.Drift() == if clust < 2 then Plus(old(d.fat.Drift()), 1) else old(d.fat.Drift())
  {
    hide Dir.Valid, Fat.Valid, Fat.L, Fat.T, ChainOf, SlotsOf, Sectors, Clusters, Dir.Secs, Dir.Listed, Dir.Now, Gap, FreeCount, Fat.Info, WellFormed, IsChain,
         Cleared, OthersKept, Geometry.Fits, IsHead, Dir.At, Dir.StandsAt, Removed, Intact, Lookup, Dir.Buffered, Refused, InUse, ClustOf, Belongs, Freed, Removable, Plus;
    ghost var b := d.Now();
    SnapshotParts(d, b);
    freed := [];
    var s, firstSect, firstIdx;
    ghost var f, k;
    err, s, firstSect, firstIdx, f, k := d.Search(name);
    if err != ERR_NONE {
      return;
    }
    d.BufferedMeans(k, s);
    SnapshotParts(d, b);
    var clust := ClustOf(s);
    err := Admit(d, s[ATTR], clust, rootClust, sub, k);
    if err != ERR_NONE {
      return;
    }
    SnapshotParts(d, b);
    err, freed := Erase(d, clust, firstSect, firstIdx, f, k);
    if err == ERR_NONE {
      SnapshotParts(d, d.Now());
      RemovedLookup(b.slots, d.Listed(), name);
    }
  }

  /** sub lists the clusters of the directory that the name denotes, when it denotes one. */
  ghost predicate SubDir(g: Geometry, b: Snapshot, name: seq<Byte>, rootClust: nat, sub: seq<nat>) {
    var r := Lookup(b.slots, name, 0);
    r.Found? && r.sfn < |b.slots| && Masked(b.slots[r.sfn][11], DIRECTORY) ==>
      ChainOf(g, b.t, sub, if ClustOf(b.slots[r.sfn]) == 0 then rootClust else ClustOf(b.slots[r.sfn]))
  }

  // ---------------------------------------------------------------- creating and unlinking

  /** A chain of the one cluster c was started, and the directory with clusters s may have grown to s'. */
  ghost predicate Created(t: Table, t': Table, s: seq<nat>, s': seq<nat>, c: nat) {
    IsFree(t, c) && OnlyGrew(t[c := EOC], t', s, s')
  }

  lemma CreatedEntry(t: Table, t': Table, s: seq<nat>, s': seq<nat>, c: nat)
    requires Created(t, t', s, s', c) && WellFormed(t) && IsChain(t, s) && IsChain(t', s')
    ensures t'[c] == EOC && c !in s' && InUse(t', c) && c < |t| == |t'| && s[0] == s'[0]
    ensures FreeSet(t') == FreeSet(t) - {c} - set x | x in s'[|s|..]
  {
    hide WellFormed;
    FreeOutside(t, s, c);
    forall i | 0 <= i < |s'| ensures s'[i] != c && t'[s'[i]] != 0 {
      if i < |s| { assert s[i] == s'[i]; } else { assert IsFree(t[c := EOC], s'[i]); }
      ChainInUse(t', s', i);
    }
    forall x | x in s'[|s| - 1..] && x !in s'[|s|..] ensures x == s'[|s| - 1] {}
    var p := s'[|s| - 1];
    assert p == s[|s| - 1];
    forall x | 2 <= x < |t|
      ensures x in FreeSet(t') <==> x in FreeSet(t) && x != c && x !in s'[|s|..]
    {
      if x in s'[|s|..] {
        var i :| |s| <= i < |s'| && s'[i] == x;
      } else if x != p {
        assert t'[x] == t[c := EOC][x];
      } else {
        assert t[p] != 0;
      }
    }
  }

  /** A cluster in use that nothing links to is still such a cluster. */
  lemma CreatedHead(t: Table, t': Table, s: seq<nat>, s': seq<nat>, c: nat, h: nat)
    requires Created(t, t', s, s', c) && IsChain(t', s') && |t'| <= BAD
    requires IsHead(t, h) && h < EOC_MIN && (InUse(t, h) || h == c)
    requires c !in s'
    ensures IsHead(t', h)
  {
    forall d: nat | InTable(t', d)
      ensures t'[d] != h
    {
      if d in s'[|s| - 1..] {
        var i :| |s| - 1 <= i < |s'| && s'[i] == d;
        ChainStep(t', s', i);
        if i + 1 < |s'| {
          assert IsFree(t[c := EOC], s'[i + 1]);
        }
      }
    }
  }

  /** The directory and its listing are as before after a chain of its own was started for a new file. */
  lemma StartedChain(d: Dir, b: Snapshot, c: nat)
    requires d.fat.Valid() && d.fat.g.dataSect % d.fat.g.spc == 0 && 1 <= d.fat.g.spc && d.nameBuf.Length == 512 && d.nameBuf != d.fat.buf
    requires ChainOf(d.fat.g, b.t, d.chain, d.sclust) && IsFree(b.t, c) && c < |b.t| && d.fat.T() == b.t[c := EOC]
    ensures d.Valid()
  {
    hide Fat.Valid, Fat.L, Fat.T, IsChain, WellFormed, Clusters, Sectors, ChainOf, IsFree;
    var g := d.fat.g;
    ChainOfParts(g, b.t, d.chain, d.sclust);
    StretchKeeps(b.t, 0, c);
    ZeroOutside(d.chain);
    ChainOfFrom(g, d.fat.T(), d.chain, d.sclust);
  }

  lemma ZeroOutside(s: seq<nat>)
    requires forall i :: 0 <= i < |s| ==> 2 <= s[i]
    ensures 0 !in s
  {
  }

  /** The slot of a new file's short entry. */
  ghost predicate NewFile(s: Slot, c: nat) {
    s[11] == 0x20 && ClustOf(s) == c && U32(s, 28) == 0
  }

  /**
   The creating half of opening a file: starts a chain and adds an entry for it. done says that the source
   reached the end of both without an error.
   */
  method Create(d: Dir, name: seq<Byte>, date: Half, time: Half, stale: Byte) returns (err: int, ghost c: nat, ghost q: nat, ghost done: bool)
    requires d.Valid()
    modifies d`clust, d`sect, d`idx, d`chain, d.fat, d.fat.buf
    ensures d.fat.Valid()
    ensures err == ERR_NONE && stale != 0 ==> done
    ensures done ==>
      && err == ERR_NONE && d.Valid()
      && Created(old(d.Now().t), d.Now().t, old(d.chain), d.chain, c)
      && q + SlotsFor(|name|) < |d.Now().slots| && NewFile(d.Now().slots[q + SlotsFor(|name|)], c)
      && Dir.NewlyFound(old(d.Now().slots), d.Now().slots, name, q) && Dir.EntriesKept(old(d.Now().slots), d.Now().slots)
      && d.fat.Drift() == old(d.fat.Drift()) && OthersKept(d.fat.g, old(d.Now().l), d.Now().l, d.Secs())
  {
    hide Dir.Valid, Fat.Valid, Fat.L, Fat.T, ChainOf, SlotsOf, Sectors, Clusters, Dir.Secs, Dir.Listed, Dir.Now, Mirrors, MirrorKept, SameData,
         Fat.MirrorAgrees, Fat.Drift, Fat.Info, Fat.Flushed, WellFormed, OthersKept, Geometry.Fits, OnlyGrew, FirstFreeAfter, Plus, SfnSlot, SfnName,
         Added, Room, PaddedTo, Dir.NewlyFound, Dir.EntriesKept, ClustOf, U32, SlotsFor, Dir.At;
    ghost var b := d.Now();
    SnapshotParts(d, b);
    d.Facts();
    d.MirrorNow();
    ghost var agreed := d.fat.MirrorAgrees();
    done, q, c := false, 0, 0;
    var clust;
    err, clust, done := d.fat.CreateChain(stale);
    if err != ERR_NONE {
      done := false;
      return;
    }
    c := clust;
    SameDataMeans(d.fat.g, b.l, d.fat.L());
    if done {
      d.MirrorFrom(b.l, agreed);
      FirstMeans(b.t, c);
      StartedChain(d, b, c);
    } else {
      MirrorSelf(d.fat.g, b.l);
      d.ValidFrom();
    }
    d.NowMeans();
    SameListing(d, b);
    ghost var mid, ends, l1, secs1 := [], false, d.fat.L(), d.Secs();
    err, q, mid, ends := d.Add(name, ATTR_ARCHIVE, clust, date, time);
    done := done && err == ERR_NONE;
    if done {
      d.NowMeans();
      d.ListedIs();
      OthersKeptTwice(d.fat.g, b.l, l1, d.fat.L(), secs1, d.Secs());
      SfnSlotReads(SfnName(name), ATTR_ARCHIVE, c, date, time);
    }
  }

  lemma MirrorSelf(g: Geometry, l: seq<Sector>)
    ensures MirrorKept(g, l, l)
  {
  }

  lemma FirstMeans(t: Table, c: nat)
    requires exists lo :: FirstFreeAfter(t, lo, c)
    ensures IsFree(t, c) && c < |t|
  {
  }

  /** The preconditions of unlinking hold for a name just created, and what unlinking frees is its cluster. */
  lemma CreatedPlaced(b: Snapshot, b': Snapshot, sclust: nat, rootClust: nat, name: seq<Byte>, q: nat, c: nat)
    requires WellFormed(b.t) && IsChain(b.t, b.chain) && IsChain(b'.t, b'.chain) && |b'.t| <= BAD
    requires b.chain[0] == sclust && IsHead(b.t, sclust) && IsHead(b.t, rootClust) && InUse(b.t, rootClust)
    requires Created(b.t, b'.t, b.chain, b'.chain, c)
    requires q + SlotsFor(|name|) < |b'.slots| && NewFile(b'.slots[q + SlotsFor(|name|)], c)
    requires Lookup(b'.slots, name, 0) == Found(q, q + SlotsFor(|name|))
    ensures Placed(b', sclust, name) && SubDir'(b', name)
    ensures IsHead(b'.t, sclust) && IsHead(b'.t, rootClust)
    ensures c < |b'.t| && b'.t[c] == EOC && ClustOf(b'.slots[q + SlotsFor(|name|)]) == c
  {
    hide WellFormed, IsChain, Lookup, OnlyGrew, SlotsFor;
    CreatedEntry(b.t, b'.t, b.chain, b'.chain, c);
    StartInUse(b.t, b.chain);
    NewHead(b.t, c);
    CreatedHead(b.t, b'.t, b.chain, b'.chain, c, sclust);
    CreatedHead(b.t, b'.t, b.chain, b'.chain, c, rootClust);
    CreatedHead(b.t, b'.t, b.chain, b'.chain, c, c);
  }

  /** Nothing links to a free cluster. */
  lemma NewHead(t: Table, c: nat)
    requires WellFormed(t) && IsFree(t, c)
    ensures IsHead(t, c)
  {
  }

  lemma StartInUse(t: Table, s: seq<nat>)
    requires IsChain(t, s)
    ensures |s| > 0 && InUse(t, s[0])
  {
    ChainInUse(t, s, 0);
  }

  /** The name denotes a file. */
  ghost predicate SubDir'(b: Snapshot, name: seq<Byte>) {
    var r := Lookup(b.slots, name, 0);
    r.Found? && r.sfn < |b.slots| ==> !Masked(b.slots[r.sfn][11], DIRECTORY)
  }

  /** A chain that starts in a tail is that cluster alone. */
  lemma TailAlone(t: Table, s: seq<nat>)
    requires |t| <= BAD && IsChain(t, s) && t[s[0]] == EOC
    ensures s == [s[0]]
  {
    ChainStep(t, s, 0);
  }

  /** The clusters of a directory that were not there before. */
  ghost function NewClusters(s: seq<nat>, s': seq<nat>): set<nat>
    requires |s| <= |s'|
  {
    set x | x in s'[|s|..]
  }

  lemma FreedAgain(t: Table, c: nat)
    requires 2 <= c < |t|
    ensures FreeSet(Cleared(t, [c])) == FreeSet(t) + {c}
  {
  }

  /**
   Creating a file and unlinking it again: the set of free clusters is what it was, apart from clusters
   that the directory gained, and every name denotes what it denoted.
   */
  method CreateThenUnlink(d: Dir, name: seq<Byte>, date: Half, time: Half, stale: Byte, rootClust: nat) returns (done: bool)
    requires stale != 0 && d.Valid() && Intact(d.Now().slots, 0) && Lookup(d.Now().slots, name, 0) == NotFound && 0 !in name && 0xff !in name
    requires IsHead(d.Now().t, d.sclust) && IsHead(d.Now().t, rootClust) && InUse(d.Now().t, rootClust)
    modifies d`clust, d`sect, d`idx, d`chain, d`nameLen, d`nameCrc, d.nameBuf, d.fat, d.fat.buf
    ensures done ==>
      && d.Valid() && |old(d.chain)| <= |d.chain|
      && FreeSet(d.Now().t) == FreeSet(old(d.Now().t)) - NewClusters(old(d.chain), d.chain)
      && Intact(d.Now().slots, 0) && forall m :: Lookup(d.Now().slots, m, 0) == Lookup(old(d.Now().slots), m, 0)
  {
    hide Dir.Valid, Fat.Valid, Fat.L, Fat.T, ChainOf, SlotsOf, Sectors, Clusters, Dir.Secs, Dir.Listed, Dir.Now, WellFormed, IsChain, Intact, Lookup,
         Refused, FreeSet, IsHead, InUse, Placed, NewFile, Fat.Drift, OthersKept, Removed, Cleared, ClustOf, OnlyGrew, SlotsFor;
    ghost var b := d.Now();
    SnapshotParts(d, b);
    done := false;
    var err;
    ghost var c, q, made;
    err, c, q, made := Create(d, name, date, time, stale);
    if err != ERR_NONE {
      return;
    }
    ghost var b' := d.Now();
    SnapshotParts(d, b');
    CreatedPlaced(b, b', d.sclust, rootClust, name, q, c);
    FileHasNoSub(d.fat.g, b', name, rootClust);
    InUseMeans(b.t, rootClust);
    ghost var freed;
    err, freed := Unlink(d, name, rootClust, []);
    if err != ERR_NONE {
      return;
    }
    SnapshotParts(d, d.Now());
    done := true;
    Undone(b, b', d.Now(), name, q, c, freed);
  }

  lemma FileHasNoSub(g: Geometry, b: Snapshot, name: seq<Byte>, rootClust: nat)
    requires SubDir'(b, name)
    ensures SubDir(g, b, name, rootClust, [])
  {
  }

  /** Unlinking what was just created undoes it. */
  lemma Undone(b: Snapshot, b': Snapshot, e: Snapshot, name: seq<Byte>, q: nat, c: nat, freed: seq<nat>)
    requires WellFormed(b.t) && IsChain(b.t, b.chain) && IsChain(b'.t, b'.chain) && |b'.t| <= BAD && e.chain == b'.chain
    requires Intact(b.slots, 0) && Lookup(b.slots, name, 0) == NotFound && 0 !in name && 0xff !in name
    requires Created(b.t, b'.t, b.chain, b'.chain, c) && Dir.NewlyFound(b.slots, b'.slots, name, q)
    requires b'.t[c] == EOC && IsChain(b'.t, freed) && freed[0] == c && e.t == Cleared(b'.t, freed)
    requires Forgotten(b'.slots, e.slots, name)
    ensures |b.chain| <= |e.chain| && FreeSet(e.t) == FreeSet(b.t) - NewClusters(b.chain, e.chain)
    ensures Intact(e.slots, 0) && forall m :: Lookup(e.slots, m, 0) == Lookup(b.slots, m, 0)
  {
    hide WellFormed, Lookup, Intact, Removed, SlotsFor, FreeSet, Cleared;
    CreatedEntry(b.t, b'.t, b.chain, b'.chain, c);
    TailAlone(b'.t, freed);
    FreedAgain(b'.t, c);
    FreeOnce(b.t, b.chain, b'.chain, c);
    forall m
      ensures Lookup(e.slots, m, 0) == Lookup(b.slots, m, 0)
    {
    }
  }

  lemma FreeOnce(t: Table, s: seq<nat>, s': seq<nat>, c: nat)
    requires IsFree(t, c) && s <= s' && c !in s'
    ensures FreeSet(t) - {c} - (set x | x in s'[|s|..]) + {c} == FreeSet(t) - NewClusters(s, s')
  {
  }
}
