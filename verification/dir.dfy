/** Directories on the volume: walking, searching, adding and removing entries. */
module Dirs {
  import opened Bytes
  import opened Entries
  import opened Names
  import opened Listing
  import opened Chains
  import opened Volume
  import opened Layout
  import opened Slots
  import opened FatFs

  /** What a directory showed at some moment: table, clusters, logical disk, sectors and slots. */
  datatype Snapshot = Snapshot(t: Table, chain: seq<nat>, l: seq<Sector>, secs: seq<nat>, slots: seq<Slot>, drift: int)

  class Dir {
    const fat: Fat
    const sclust: nat
    var clust: nat
    var sect: nat
    var idx: nat
    // The name, its length and the checksum that the last long name parsed left behind (globals of the source).
    const nameBuf: array<Byte>
    var nameLen: nat
    var nameCrc: Byte
    // The clusters of the directory.
    ghost var chain: seq<nat>

    /** Enters a directory; cluster zero, which a parent link may carry, stands for the root. */
    constructor (fat: Fat, c: nat, rootClust: nat, ghost chain: seq<nat>)
      requires fat.Valid() && fat.g.dataSect % fat.g.spc == 0
      requires ChainOf(fat.g, fat.T(), chain, if c == 0 then rootClust else c)
      ensures Valid() && At(0) && fresh(nameBuf)
      ensures this.fat == fat && this.chain == chain && sclust == if c == 0 then rootClust else c
    {
      hide Fat.Valid, Fat.L, Fat.T, Sectors, Clusters, ChainOf;
      fat.Fits();
      ghost var first := if c == 0 then rootClust else c;
      ChainOfFacts(fat.g, fat.T(), chain, first, |fat.disk|);
      SectorAt(fat.g, chain, 0, 0);
      QuotZero(fat.g.spc);
      this.fat, this.chain := fat, chain;
      sclust := if c == 0 then rootClust else c;
      clust := if c == 0 then rootClust else c;
      sect := fat.g.ClustToSect(if c == 0 then rootClust else c);
      idx := 0;
      nameBuf := new Byte[512](_ => 0);
      nameLen, nameCrc := 0, 0;
    }

    ghost predicate Valid()
      reads this`chain, fat, fat.buf
    {
      && fat.Valid() && nameBuf.Length == 512 && nameBuf != fat.buf
      && 1 <= fat.g.spc && fat.g.dataSect % fat.g.spc == 0
      && ChainOf(fat.g, fat.T(), chain, sclust)
    }

    ghost function Secs(): seq<nat>
      reads this`chain
    {
      if Clusters(fat.g, chain) then Sectors(fat.g, chain) else []
    }

    lemma Facts()
      requires Valid()
      ensures fat.Valid() && Distinct(chain) && Distinct(Secs()) && OnDisk(Secs(), |fat.disk|) && 0 < |Secs()|
      ensures forall x :: 0 <= x < |Secs()| ==> fat.g.dataSect <= Secs()[x] < |fat.disk|
      ensures 1 <= fat.g.spc && fat.g.dataSect % fat.g.spc == 0 && Clusters(fat.g, chain) && |chain| > 0 && chain[0] == sclust
      ensures forall i :: 0 <= i < |chain| ==> 2 <= chain[i] < fat.g.clustCnt
      ensures 0 < fat.g.dataSect && nameBuf.Length == 512 && nameBuf != fat.buf && Secs() == Sectors(fat.g, chain)
      ensures ChainOf(fat.g, fat.T(), chain, sclust)
    {
      hide Fat.L, Fat.T, Geometry.Fits, ChainOf, Sectors, Clusters;
      fat.Fits();
      ChainOfFacts(fat.g, fat.T(), chain, sclust, |fat.disk|);
    }

    lemma ValidFrom()
      requires fat.Valid() && nameBuf.Length == 512 && nameBuf != fat.buf
      requires 1 <= fat.g.spc && fat.g.dataSect % fat.g.spc == 0
      requires ChainOf(fat.g, fat.T(), chain, sclust)
      ensures Valid()
    {
    }

    /** The directory keeps its chain as long as the table does. */
    twostate lemma ValidKept()
      requires old(Valid()) && fat.Valid() && fat.T() == old(fat.T()) && chain == old(chain)
      ensures Valid() && Secs() == old(Secs())
    {
      hide Fat.Valid, Fat.L, Fat.T, ChainOf, Sectors, Clusters;
    }

    /** The slots of the directory. */
    ghost function Listed(): seq<Slot>
      requires Valid()
      reads this`chain, fat, fat.buf
    {
      Facts();
      SlotsOf(fat.L(), Secs())
    }

    /** The directory pointer is in sector x. */
    ghost predicate InSector(x: nat)
      reads this`chain, this`clust, this`sect
    {
      && x < |Secs()| && 1 <= fat.g.spc && sect == Secs()[x]
      && Quot(x, fat.g.spc) < |chain| && clust == chain[Quot(x, fat.g.spc)]
    }

    /** The directory pointer is at slot p. */
    ghost predicate At(p: nat)
      reads this`chain, this`clust, this`sect, this`idx
    {
      InSector(p / 16) && idx == 32 * (p % 16)
    }

    /** Goes to the first slot of a cluster. */
    method AtClust(c: nat, ghost k: nat)
      requires Valid() && k < |chain| && chain[k] == c
      modifies this`clust, this`sect, this`idx
      ensures Valid() && At(16 * Times(k, fat.g.spc))
    {
      hide Valid, Fat.Valid, Sectors, Clusters, ChainOf;
      Facts();
      SectorAt(fat.g, chain, k, 0);
      Position(Times(k, fat.g.spc), fat.g.spc, k, 0);
      clust := c;
      sect := fat.g.ClustToSect(c);
      idx := 0;
    }

    /** Steps to the next slot; says EOF behind the last slot of the last cluster. */
    method Next(ghost p: nat) returns (err: int)
      requires Valid() && At(p)
      modifies this`clust, this`sect, this`idx, fat`disk, fat`bufDirty, fat`sect, fat.buf
      ensures fat.Valid() && Valid() && fat.L() == old(fat.L()) && fat.T() == old(fat.T()) && Now() == old(Now())
      ensures err == ERR_NONE || err == ERR_IO || err == ERR_EOF
      ensures err == ERR_NONE ==> At(p + 1)
      ensures err == ERR_EOF ==> p + 1 == 16 * |Secs()| && clust == chain[|chain| - 1]
    {
      hide Valid, Fat.Valid, Fat.L, Fat.T, InSector, Secs;
      InDirectory(p / 16);
      Facts();
      idx := idx + 32;
      if idx < 512 {
        assert (p + 1) / 16 == p / 16;
        return ERR_NONE;
      }
      idx := 0;
      assert (p + 1) / 16 == p / 16 + 1 && (p + 1) % 16 == 0;
      err := NextSect(p / 16);
      Facts();
    }

    lemma AtMeans(p: nat)
      requires Valid() && At(p)
      ensures p / 16 < |Secs()| && sect == Secs()[p / 16] && idx == 32 * (p % 16) && fat.Valid()
    {
    }

    lemma InDirectory(x: nat)
      requires Valid() && InSector(x)
      ensures x < |Secs()| && fat.Valid()
    {
    }

    /** Steps to the next sector, following the chain behind the last sector of a cluster. */
    method NextSect(ghost x: nat) returns (err: int)
      requires Valid() && InSector(x)
      modifies this`clust, this`sect, this`idx, fat`disk, fat`bufDirty, fat`sect, fat.buf
      ensures Valid() && fat.L() == old(fat.L()) && fat.T() == old(fat.T())
      ensures err == ERR_NONE || err == ERR_IO || err == ERR_EOF
      ensures err == ERR_NONE ==> InSector(x + 1) && (idx == old(idx) || idx == 0)
      ensures err == ERR_EOF ==> x + 1 == |Secs()| && clust == chain[|chain| - 1]
    {
      hide Valid, Fat.Valid, Fat.L, Fat.T, Sectors, Clusters, ChainOf, Quot, IsChain, Chains.WellFormed, IsTail, Secs;
      Facts();
      sect := sect + 1;
      NextSector(fat.g, chain, x);
      if sect % fat.g.spc != 0 {
        return ERR_NONE;
      }
      ghost var d := Quot(x, fat.g.spc);
      ChainOfParts(fat.g, fat.T(), chain, sclust);
      ChainStep(fat.T(), chain, d);
      var next, kind;
      err, next, kind := fat.GetFat(clust);
      ValidKept();
      if err != ERR_NONE {
        return;
      }
      if kind == Bad || kind == Free {
        return ERR_BROKEN;
      }
      if kind == Last {
        return ERR_EOF;
      }
      clust := next;
      sect := fat.g.ClustToSect(next);
      idx := 0;
      return ERR_NONE;
    }

    // -------------------------------------------------------------- one slot

    /** The pointer is at slot p, whose sector is in the volume buffer, and s is what the slot holds. */
    ghost predicate Buffered(p: nat, s: Slot)
      requires Valid()
      reads this`chain, this`clust, this`sect, this`idx, fat, fat.buf
    {
      Facts();
      && At(p) && fat.sect == sect && sect < |fat.L()| && fat.buf[..] == fat.L()[sect]
      && p < |Listed()| && s == Listed()[p]
    }

    /** The slot under the pointer, read through the volume buffer. */
    method Load(ghost p: nat) returns (err: int, s: Slot)
      requires Valid() && At(p)
      modifies fat`disk, fat`bufDirty, fat`sect, fat.buf
      ensures fat.Valid() && Valid() && fat.L() == old(fat.L()) && fat.T() == old(fat.T()) && Listed() == old(Listed()) && p < |Listed()|
      ensures Now() == old(Now())
      ensures err == ERR_NONE || err == ERR_IO
      ensures sect < |fat.L()| && (err == ERR_NONE ==> s == Listed()[p] && fat.sect == sect && fat.buf[..] == fat.L()[sect])
      ensures err == ERR_NONE ==> Buffered(p, s)
    {
      hide Valid, Fat.Valid, Fat.L, Fat.T, Sectors, Clusters, ChainOf, Quot;
      Facts();
      s := seq(32, _ => 0);
      err := fat.UpdateBuf(sect);
      ValidKept();
      fat.BufferLength();
      if err == ERR_NONE {
        s := fat.buf[idx..idx + 32];
      }
    }

    /** A slot of the directory was replaced, and nothing else on the logical disk. */
    lemma SlotPut(l0: seq<Sector>, p: nat, s: Slot)
      requires Valid() && At(p) && OnDisk(Secs(), |l0|)
      requires sect < |l0| && fat.L() == l0[sect := WithSlot(l0[sect], 32 * (p % 16), s)]
      ensures p < 16 * |Secs()| && Listed() == SlotsOf(l0, Secs())[p := s]
      ensures OthersKept(fat.g, l0, fat.L(), Secs())
    {
      hide Valid, Fat.Valid, Fat.L, Fat.T, Sectors, Clusters, ChainOf, Quot, WithSlot, SlotsOf;
      Facts();
      SlotWritten(l0, Secs(), p, s);
      fat.Fits();
      TablesUntouched(fat.g, l0, fat.L());
    }

    lemma ListedIs()
      requires Valid()
      ensures fat.Valid() && OnDisk(Secs(), |fat.L()|) && Listed() == SlotsOf(fat.L(), Secs()) && |Listed()| == 16 * |Secs()|
    {
      Facts();
    }

    /** Puts a long name slot under the pointer. */
    method StoreLfn(ghost p: nat, f: seq<Byte>, ord: Byte, crc: Byte) returns (err: int)
      requires Valid() && At(p) && |f| <= 13
      modifies fat`disk, fat`bufDirty, fat`sect, fat.buf
      ensures Valid() && fat.T() == old(fat.T()) && OthersKept(fat.g, old(fat.L()), fat.L(), Secs())
      ensures err == ERR_NONE || err == ERR_IO
      ensures p < |old(Listed())|
      ensures err == ERR_NONE ==> Listed() == old(Listed())[p := LfnSlot(f, ord, crc)]
      ensures err != ERR_NONE ==> Listed() == old(Listed())
    {
      hide Valid, Fat.Valid, Fat.L, Fat.T, Sectors, Clusters, ChainOf, Quot, LfnSlot, Listed;
      Facts();
      ListedIs();
      var s;
      err, s := Load(p);
      ListedIs();
      ghost var l0 := fat.L();
      if err == ERR_NONE {
        fat.PutLfn(idx, f, ord, crc);
        ValidKept();
        SlotPut(l0, p, LfnSlot(f, ord, crc));
        ListedIs();
      }
    }

    /** Puts a short entry under the pointer. */
    method StoreSfn(ghost p: nat, sfn: seq<Byte>, attr: Byte, start: nat, date: Half, time: Half) returns (err: int)
      requires Valid() && At(p) && |sfn| == 11
      modifies fat`disk, fat`bufDirty, fat`sect, fat.buf
      ensures Valid() && fat.T() == old(fat.T()) && OthersKept(fat.g, old(fat.L()), fat.L(), Secs())
      ensures err == ERR_NONE || err == ERR_IO
      ensures p < |old(Listed())|
      ensures err == ERR_NONE ==> Listed() == old(Listed())[p := SfnSlot(sfn, attr, start, date, time)]
      ensures err != ERR_NONE ==> Listed() == old(Listed())
    {
      hide Valid, Fat.Valid, Fat.L, Fat.T, Sectors, Clusters, ChainOf, Quot, SfnSlot, Listed;
      Facts();
      ListedIs();
      var s;
      err, s := Load(p);
      ListedIs();
      ghost var l0 := fat.L();
      if err == ERR_NONE {
        fat.PutSfn(idx, sfn, attr, start, date, time);
        ValidKept();
        SlotPut(l0, p, SfnSlot(sfn, attr, start, date, time));
        ListedIs();
      }
    }

    /** Sets the first byte of the slot under the pointer. */
    method Mark(ghost p: nat, b: Byte) returns (err: int)
      requires Valid() && At(p)
      modifies fat`disk, fat`bufDirty, fat`sect, fat.buf
      ensures Valid() && fat.T() == old(fat.T()) && OthersKept(fat.g, old(fat.L()), fat.L(), Secs())
      ensures err == ERR_NONE || err == ERR_IO
      ensures p < |old(Listed())|
      ensures err == ERR_NONE ==> Listed() == old(Listed())[p := old(Listed())[p][0 := b]]
      ensures err != ERR_NONE ==> Listed() == old(Listed())
    {
      hide Valid, Fat.Valid, Fat.L, Fat.T, Sectors, Clusters, ChainOf, Quot, Listed;
      Facts();
      ListedIs();
      var s;
      err, s := Load(p);
      ListedIs();
      ghost var l0 := fat.L();
      if err == ERR_NONE {
        fat.MarkSlot(idx, b);
        ValidKept();
        SlotPut(l0, p, s[0 := b]);
        ListedIs();
      }
    }

    // -------------------------------------------------------------- stretching

    ghost function Now(): Snapshot
      requires Valid()
      reads this`chain, fat, fat.buf
    {
      Facts();
      Snapshot(fat.T(), chain, fat.L(), Secs(), Listed(), fat.Drift())
    }

    /** Since b the directory has only been extended, by cleared clusters that were free. */
    ghost predicate Extends(b: Snapshot)
      requires Valid()
      reads this`chain, fat, fat.buf
    {
      Facts();
      && OnlyGrew(b.t, fat.T(), b.chain, chain) && b.secs <= Secs()
      && PaddedTo(b.slots, Listed()) && fat.Drift() == b.drift
      && OthersKept(fat.g, b.l, fat.L(), Secs())
    }

    lemma ExtendsSelf()
      requires Valid()
      ensures Extends(Now())
    {
      Facts();
      GrewNot(fat.T(), chain);
    }

    /** One cleared cluster behind the chain extends the directory. */
    lemma ExtendsByOne(b: Snapshot, l1: seq<Sector>, c: nat)
      requires Valid() && b.chain + [c] == chain && 2 <= c < fat.g.clustCnt && c !in b.chain && Clusters(fat.g, b.chain)
      requires b.secs == Sectors(fat.g, b.chain) && OnDisk(b.secs, |b.l|) && b.slots == SlotsOf(b.l, b.secs)
      requires (forall x :: 0 <= x < |b.secs| ==> fat.g.dataSect <= b.secs[x])
      requires OnlyGrew(b.t, fat.T(), b.chain, chain) && fat.Drift() == b.drift
      requires SameData(fat.g, b.l, l1) && |l1| == |fat.L()| && ClearedCluster(fat.g, l1, fat.L(), c)
      requires MirrorKept(fat.g, b.l, l1) && MirrorKept(fat.g, l1, fat.L())
      ensures Extends(b)
    {
      hide Valid, Fat.Valid, Fat.L, Fat.T, ChainOf, OnlyGrew, SlotsOf, Sectors, Clusters, ClearedCluster, ClearedOnly, OthersKept, MirrorKept, PaddedTo, Zeroed;
      Facts();
      ClearedMeans(fat.g, l1, fat.L(), c);
      OthersKeptCleared(fat.g, b.l, l1, fat.L(), b.chain, c);
      SlotsFrame(b.l, l1, b.secs);
      SlotsCleared(fat.g, l1, fat.L(), b.chain, c);
      SectorsPrefix(fat.g, b.chain, chain);
      SectorsAppend(fat.g, b.chain, c);
      ListedIs();
      PaddedBy(b.slots, SlotsOf(fat.L(), ClusterSectors(fat.g, c)));
    }

    /** Steps to the next slot, stretching the directory by a cleared cluster at its end. */
    method NextStretch(ghost p: nat) returns (err: int)
      requires Valid() && At(p)
      modifies this`clust, this`sect, this`idx, this`chain, fat, fat.buf
      ensures fat.Valid()
      ensures err == ERR_NONE ==>
        && Valid() && At(p + 1) && Extends(old(Now()))
        && |chain| == (if p + 1 < old(16 * |Secs()|) then old(|chain|) else old(|chain|) + 1)
    {
      hide Valid, Fat.Valid, Fat.L, Fat.T, ChainOf, OnlyGrew, SlotsOf, Sectors, Clusters, Chosen, Stretched, Chains.IsFree, IsTail, Quot, SameData,
           ClearedCluster, Extends, OthersKept;
      Facts();
      ghost var b, g := Now(), fat.g;
      err := Next(p);
      ListedIs();
      ExtendsSelf();
      assert Now() == b;
      if err != ERR_EOF {
        return;
      }
      Facts();
      err := Grow(p);
    }

    /** Mirrored tables that agreed in l, which was says, still do. */
    lemma MirrorFrom(l: seq<Sector>, was: bool)
      requires fat.Valid() && |l| == |fat.L()| && (fat.g.Fits(|l|) && Mirrors(fat.g, l) ==> was) && (was ==> fat.MirrorAgrees())
      ensures MirrorKept(fat.g, l, fat.L())
    {
    }

    lemma MirrorNow()
      requires fat.Valid()
      ensures fat.g.Fits(|fat.L()|) && Mirrors(fat.g, fat.L()) ==> fat.MirrorAgrees()
    {
    }

    /** Appends a cleared cluster and goes to its first slot, behind slot p, the last one so far. */
    method Grow(ghost p: nat) returns (err: int)
      requires Valid() && p + 1 == 16 * |Secs()| && |chain| > 0 && clust == chain[|chain| - 1]
      modifies this`clust, this`sect, this`idx, this`chain, fat, fat.buf
      ensures fat.Valid()
      ensures err == ERR_NONE ==> Valid() && At(p + 1) && Extends(old(Now())) && |chain| == old(|chain|) + 1
    {
      hide Valid, Fat.Valid, Fat.L, Fat.T, ChainOf, OnlyGrew, SlotsOf, Sectors, Clusters, Chosen, Stretched, Chains.IsFree, IsTail, Quot, SameData,
           ClearedCluster, Extends, OthersKept, Mirrors, MirrorKept, Geometry.Fits, Fat.MirrorAgrees, Fat.Drift, Fat.Info, Fat.Flushed, FreeCount, Chains.WellFormed, IsChain, Plus, Listed;
      ghost var b, g := Now(), fat.g;
      ListedIs();
      Facts();
      ChainOfTail(g, b.t, chain, sclust);
      MirrorNow();
      ghost var agreed := fat.MirrorAgrees();
      var next;
      ghost var done;
      err, next, done := fat.StretchChain(clust, 0);
      if err != ERR_NONE {
        return;
      }
      ghost var l1, agreed1 := fat.L(), fat.MirrorAgrees();
      SameDataMeans(g, b.l, l1);
      MirrorFrom(b.l, agreed);
      MirrorNow();
      ChainOfStretch(g, b.t, b.chain, sclust, next);
      clust := next;
      sect := fat.g.ClustToSect(next);
      idx := 0;
      chain := chain + [next];
      ValidFrom();
      Facts();
      EndPosition(g, b.chain, next, p + 1);
      label C:
      err := fat.ClustClear(clust);
      ValidKept@C();
      MirrorFrom(l1, agreed1);
      if err == ERR_NONE {
        ExtendsByOne(b, l1, next);
      }
    }

    // -------------------------------------------------------------- adding an entry

    lemma NowMeans()
      requires Valid()
      ensures fat.Valid() && Now().t == fat.T() && Now().chain == chain && Now().l == fat.L() && Now().secs == Secs() && Now().slots == Listed() && Now().drift == fat.Drift()
      ensures IsChain(fat.T(), chain) && |fat.T()| <= BAD
    {
      Facts();
      ChainOfParts(fat.g, fat.T(), chain, sclust);
    }

    lemma ExtendsMeans(b: Snapshot)
      requires Valid() && Extends(b)
      ensures fat.Valid() && OnlyGrew(b.t, fat.T(), b.chain, chain) && b.secs <= Secs() && fat.Drift() == b.drift
      ensures PaddedTo(b.slots, Listed()) && b.slots <= Listed() && OthersKept(fat.g, b.l, fat.L(), Secs())
      ensures forall k :: |b.slots| <= k < |Listed()| ==> SlotLast(Listed()[k])
    {
      Facts();
      forall k | |b.slots| <= k < |Listed()| ensures SlotLast(Listed()[k]) {
        assert Listed()[|b.slots|..][k - |b.slots|] == Listed()[k];
      }
    }

    /** Extensions before b' and since b' compose. */
    lemma ExtendsTwice(b: Snapshot, b': Snapshot)
      requires Valid() && Extends(b') && b'.drift == b.drift
      requires OnlyGrew(b.t, b'.t, b.chain, b'.chain) && IsChain(b'.t, b'.chain) && |b'.t| <= BAD
      requires b.secs <= b'.secs && PaddedTo(b.slots, b'.slots) && OthersKept(fat.g, b.l, b'.l, b'.secs)
      ensures Extends(b)
    {
      hide Valid, Fat.Valid, Fat.L, Fat.T, ChainOf, OnlyGrew, SlotsOf, Sectors, Clusters, Chains.WellFormed, IsChain, PaddedTo, OthersKept, Listed;
      Facts();
      ExtendsMeans(b');
      NowMeans();
      ChainGrewTwice(b.t, b'.t, fat.T(), b.chain, b'.chain, chain);
      PaddedTwice(b.slots, b'.slots, Listed());
      OthersKeptTwice(fat.g, b.l, b'.l, fat.L(), b'.secs, Secs());
    }

    /** How many slots the search for room may still pass before it must meet an end mark. */
    static function Ahead(len: nat, p: nat, ends: bool): nat {
      if ends then 0 else if p < len then len - p + 1 else 1
    }

    /** Sector s and byte offset i are where slot p is. */
    ghost predicate StandsAt(p: nat, s: nat, i: nat)
      reads this`chain
    {
      p / 16 < |Secs()| && s == Secs()[p / 16] && i == 32 * (p % 16)
    }

    /** One round of the search for room: looks at slot p and steps behind it. */
    method Probe(ghost p: nat, cnt: nat, ends: bool, firstSect: nat, firstIdx: nat, ghost n: nat, ghost b: Snapshot)
      returns (err: int, firstSect': nat, firstIdx': nat, cnt': nat, ends': bool)
      requires Valid() && At(p) && Extends(b) && cnt <= p && Scanning(Listed(), p, cnt, ends)
      requires 0 < cnt ==> StandsAt(p - cnt, firstSect, firstIdx)
      requires cnt <= n && NoRoomBefore(Listed(), p - cnt, n)
      modifies this`clust, this`sect, this`idx, this`chain, fat, fat.buf
      ensures fat.Valid()
      ensures err == ERR_NONE ==>
        && Valid() && At(p + 1) && Extends(b)
        && cnt' <= cnt + 1 && cnt' <= p + 1 && (ends ==> ends' && cnt' == cnt + 1) && (|b.slots| <= p ==> ends')
        && Scanning(Listed(), p + 1, cnt', ends') && NoRoomBefore(Listed(), p + 1 - cnt', n)
        && (0 < cnt' ==> StandsAt(p + 1 - cnt', firstSect', firstIdx'))
    {
      hide Valid, Fat.Valid, Fat.L, Fat.T, ChainOf, OnlyGrew, SlotsOf, Sectors, Clusters, Secs, Quot, Extends, OthersKept, Listed, Now, InSector,
           IsChain, Scanning, NoRoomBefore, PaddedTo, At;
      ghost var b1 := Now();
      NowMeans();
      ExtendsMeans(b);
      AtMeans(p);
      firstSect', firstIdx', cnt', ends' := firstSect, firstIdx, cnt, ends;
      var s;
      err, s := Load(p);
      if err != ERR_NONE {
        return;
      }
      ScanningStep(Listed(), p, cnt, ends);
      NoRoomStep(Listed(), p, cnt, ends, n);
      if ends || SlotFree(s) {
        if cnt == 0 {
          firstSect', firstIdx' := sect, idx;
        }
        cnt' := cnt + 1;
      } else {
        cnt' := 0;
      }
      if SlotLast(s) {
        ends' := true;
      }
      err := NextStretch(p);
      if err != ERR_NONE {
        return;
      }
      ExtendsMeans(b1);
      ScanningLonger(b1.slots, Listed(), p + 1, cnt', ends');
      NoRoomLonger(b1.slots, Listed(), p + 1 - cnt', n);
      ExtendsTwice(b, b1);
    }

    /**
     The search for n + 1 slots in a row that are free or lie behind the end mark, stretching the
     directory as needed. The pointer ends up behind them.
     */
    method FindRoom(n: nat) returns (err: int, firstSect: nat, firstIdx: nat, ends: bool, ghost q: nat)
      requires Valid()
      modifies this`clust, this`sect, this`idx, this`chain, fat, fat.buf
      ensures fat.Valid()
      ensures err == ERR_NONE ==>
        && Valid() && Extends(old(Now())) && At(q + n + 1)
        && Room(Listed(), q, n, ends) && NoRoomBefore(Listed(), q, n)
        && StandsAt(q, firstSect, firstIdx)
    {
      hide Valid, Fat.Valid, Fat.L, Fat.T, ChainOf, OnlyGrew, SlotsOf, Sectors, Clusters, Secs, Quot, Extends, OthersKept, Listed, Now, InSector,
           IsChain, Scanning, Room, PaddedTo, Times, At, SlotFree, SlotLast;
      Facts();
      TimesZero(fat.g.spc);
      AtClust(sclust, 0);
      ExtendsSelf();
      ghost var b := Now();
      NowMeans();
      ScanningStart(b.slots);
      err, firstSect, firstIdx, ends, q := ERR_NONE, 0, 0, false, 0;
      var cnt: nat := 0;
      ghost var p: nat := 0;
      while cnt < n + 1
        invariant fat.Valid() && Valid() && At(p) && Extends(b)
        invariant err == ERR_NONE && cnt <= n + 1 && cnt <= p && q == p - cnt && Scanning(Listed(), p, cnt, ends)
        invariant 0 < cnt ==> StandsAt(q, firstSect, firstIdx)
        invariant NoRoomBefore(Listed(), q, n)
        decreases Ahead(|b.slots|, p, ends), n + 1 - cnt
      {
        err, firstSect, firstIdx, cnt, ends := Probe(p, cnt, ends, firstSect, firstIdx, n, b);
        if err != ERR_NONE {
          return;
        }
        p := p + 1;
        q := p - cnt;
      }
      AtMeans(p);
      ListedIs();
      ScanningDone(Listed(), p, n, ends);
    }

    /** Goes back to the slot that stands at the given sector and offset. */
    method Rewind(s: nat, i: nat, ghost q: nat)
      requires Valid() && StandsAt(q, s, i)
      modifies this`clust, this`sect, this`idx
      ensures Valid() && At(q)
    {
      hide Valid, Fat.Valid, Fat.L, Fat.T, ChainOf, Sectors, Clusters, Quot, Geometry.SectToClust;
      Facts();
      ClusterOfSector(fat.g, chain, q / 16);
      clust := fat.g.SectToClust(s);
      sect := s;
      idx := i;
    }

    /** The first k slots of the long name stand from q on, and every other slot is as in base. */
    ghost predicate Written(base: seq<Slot>, q: nat, name: seq<Byte>, crc: Byte, k: nat)
      requires Valid()
      reads this`chain, fat, fat.buf
    {
      && |Listed()| == |base| && k <= SlotsFor(|name|)
      && (forall i :: 0 <= i < k ==> GroupSlot(Listed(), q, name, crc, i))
      && (forall i :: 0 <= i < |base| && !(q <= i < q + k) ==> Listed()[i] == base[i])
    }

    /** One long name slot more. */
    lemma WrittenStep(base: seq<Slot>, before: seq<Slot>, q: nat, name: seq<Byte>, crc: Byte, k: nat)
      requires Valid() && 1 <= |name| <= 255 && k < SlotsFor(|name|) && q + k < |before| == |base|
      requires forall i :: 0 <= i < k ==> GroupSlot(before, q, name, crc, i)
      requires forall i :: 0 <= i < |base| && !(q <= i < q + k) ==> before[i] == base[i]
      requires Listed() == before[q + k := LfnSlot(Part(name, SlotsFor(|name|) - k), Ord(name, SlotsFor(|name|) - k), crc)]
      ensures Written(base, q, name, crc, k + 1)
    {
      hide Valid, Listed, Part, Ord, LfnSlot;
      assert GroupSlot(Listed(), q, name, crc, k);
      forall i | 0 <= i < k ensures GroupSlot(Listed(), q, name, crc, i) {
        assert GroupSlot(before, q, name, crc, i);
      }
    }

    /** Writes the long name slots of a name, the last fragment first, and stops behind them. */
    method WriteName(name: seq<Byte>, crc: Byte, ghost q: nat) returns (err: int)
      requires Valid() && At(q) && 1 <= |name| <= 255 && q + SlotsFor(|name|) < |Listed()|
      modifies this`clust, this`sect, this`idx, fat`disk, fat`bufDirty, fat`sect, fat.buf
      ensures Valid() && fat.T() == old(fat.T()) && OthersKept(fat.g, old(fat.L()), fat.L(), Secs())
      ensures err == ERR_NONE || err == ERR_IO
      ensures err == ERR_NONE ==> At(q + SlotsFor(|name|)) && Written(old(Listed()), q, name, crc, SlotsFor(|name|))
    {
      hide Valid, Fat.Valid, Fat.L, Fat.T, ChainOf, OnlyGrew, SlotsOf, Sectors, Clusters, Secs, Quot, OthersKept, Listed, InSector, At,
           Part, Ord, LfnSlot, GroupSlot, SlotsFor;
      Facts();
      ListedIs();
      ghost var base, l0 := Listed(), fat.L();
      OthersKeptSelf(fat.g, l0, Secs());
      err := ERR_NONE;
      var i := SlotsFor(|name|);
      while 0 < i
        invariant err == ERR_NONE && Valid() && fat.Valid() && i <= SlotsFor(|name|) && At(q + SlotsFor(|name|) - i)
        invariant fat.T() == old(fat.T()) && OthersKept(fat.g, l0, fat.L(), Secs())
        invariant Written(base, q, name, crc, SlotsFor(|name|) - i)
      {
        ghost var k, before, l1 := SlotsFor(|name|) - i, Listed(), fat.L();
        ListedIs();
        err := StoreLfn(q + k, Part(name, i), Ord(name, i), crc);
        Facts();
        OthersKeptTwice(fat.g, l0, l1, fat.L(), Secs(), Secs());
        if err != ERR_NONE {
          return;
        }
        WrittenStep(base, before, q, name, crc, k);
        ListedIs();
        label N:
        err := Next(q + k);
        ListedIs();
        if err != ERR_NONE {
          return;
        }
        assert Listed() == old@N(Listed());
        i := i - 1;
      }
    }

    /** Long name slots, short entry and end mark together are a new entry. */
    lemma AddedFrom(mid: seq<Slot>, marked: seq<Slot>, named: seq<Slot>, q: nat, name: seq<Byte>, ends: bool,
                    attr: Byte, start: nat, date: Half, time: Half)
      requires 1 <= |name| <= 255 && attr != ATTR_LFN && Room(mid, q, SlotsFor(|name|), ends)
      requires q + SlotsFor(|name|) < |mid| == |marked| == |named|
      requires forall i :: 0 <= i < |mid| && !(ends && i == q + SlotsFor(|name|) + 1) ==> marked[i] == mid[i]
      requires ends ==> q + SlotsFor(|name|) + 1 < |mid| && SlotLast(marked[q + SlotsFor(|name|) + 1])
      requires forall k :: 0 <= k < SlotsFor(|name|) ==> GroupSlot(named, q, name, Crc(SfnName(name)), k)
      requires forall i :: 0 <= i < |mid| && !(q <= i < q + SlotsFor(|name|)) ==> named[i] == marked[i]
      requires Valid() && Listed() == named[q + SlotsFor(|name|) := SfnSlot(SfnName(name), attr, start, date, time)]
      ensures Added(mid, Listed(), q, name, ends)
    {
      hide Valid, Listed, SfnName, SfnSlot, Crc, Room, SlotsFor;
      var n := SlotsFor(|name|);
      var sfn := SfnSlot(SfnName(name), attr, start, date, time);
      SfnSlotShort(name, attr, start, date, time);
      forall k | 0 <= k < n ensures GroupSlot(Listed(), q, name, Crc(SfnName(name)), k) {
        assert GroupSlot(named, q, name, Crc(SfnName(name)), k);
      }
    }

    /** Writes the end mark, the long name and the short entry into the room that was found. */
    method Fill(name: seq<Byte>, attr: Byte, start: nat, date: Half, time: Half,
                firstSect: nat, firstIdx: nat, ends: bool, ghost q: nat) returns (err: int)
      requires Valid() && At(q + SlotsFor(|name|) + 1) && 1 <= |name| <= 255 && attr != ATTR_LFN
      requires Room(Listed(), q, SlotsFor(|name|), ends) && StandsAt(q, firstSect, firstIdx)
      modifies this`clust, this`sect, this`idx, fat`disk, fat`bufDirty, fat`sect, fat.buf
      ensures Valid() && fat.T() == old(fat.T()) && OthersKept(fat.g, old(fat.L()), fat.L(), Secs())
      ensures err == ERR_NONE ==>
        && At(q + SlotsFor(|name|)) && Added(old(Listed()), Listed(), q, name, ends)
        && q + SlotsFor(|name|) < |Listed()| && Listed()[q + SlotsFor(|name|)] == SfnSlot(SfnName(name), attr, start, date, time)
    {
      hide Valid, Fat.Valid, Fat.L, Fat.T, ChainOf, OnlyGrew, SlotsOf, Sectors, Clusters, Secs, Quot, OthersKept, Listed, InSector, At,
           Extends, Now, SfnName, SfnSlot, Crc, Room, Added, PaddedTo, GroupSlot, SlotsFor;
      Facts();
      ListedIs();
      var n := SlotsFor(|name|);
      ghost var mid, l1 := Listed(), fat.L();
      RoomMeans(mid, q, n, ends);
      OthersKeptSelf(fat.g, l1, Secs());
      if ends {
        err := Mark(q + n + 1, SLOT_LAST);
        if err != ERR_NONE {
          return;
        }
      }
      Facts();
      ListedIs();
      ghost var marked, l2 := Listed(), fat.L();
      Rewind(firstSect, firstIdx, q);
      var sfn := PutSfnName(name);
      var crc := GetCrc(sfn);
      err := WriteName(name, crc, q);
      Facts();
      ListedIs();
      ghost var named, l3 := Listed(), fat.L();
      OthersKeptTwice(fat.g, l1, l2, l3, Secs(), Secs());
      if err != ERR_NONE {
        return;
      }
      err := StoreSfn(q + n, sfn, attr, start, date, time);
      Facts();
      ListedIs();
      OthersKeptTwice(fat.g, l1, l3, fat.L(), Secs(), Secs());
      if err != ERR_NONE {
        return;
      }
      AddedFrom(mid, marked, named, q, name, ends, attr, start, date, time);
    }

    /** What adding means for searches, when the directory was intact and the name was not there. */
    static lemma AddResult(s: seq<Slot>, mid: seq<Slot>, s': seq<Slot>, q: nat, name: seq<Byte>, ends: bool)
      requires PaddedTo(s, mid) && Room(mid, q, SlotsFor(|name|), ends) && Added(mid, s', q, name, ends)
      requires Intact(s, 0) && Lookup(s, name, 0) == NotFound && 0 !in name && 0xff !in name
      ensures Intact(s', 0) && Lookup(s', name, 0) == Found(q, q + SlotsFor(|name|))
      ensures Lookup(s', name, q + SlotsFor(|name|) + 1) == NotFound
      ensures forall m :: m != name ==> Lookup(s', m, 0) == Lookup(s, m, 0)
      ensures forall m :: Lookup(s, m, 0).Found? ==> Lookup(s, m, 0).first != q
    {
      hide Intact, Lookup, Room, Added, Zeroed;
      var z := mid[|s|..];
      assert mid == s + z;
      ZeroedMeans(z);
      LookupPadded(s, z, name, 0);
      AddedLookup(mid, s', q, name, ends);
      forall m
        ensures m != name ==> Lookup(s', m, 0) == Lookup(s, m, 0)
        ensures Lookup(s, m, 0).Found? ==> Lookup(s, m, 0).first != q
      {
        LookupPadded(s, z, m, 0);
        RoomTaken(mid, q, SlotsFor(|name|), ends, m);
      }
    }

    static lemma ZeroedMeans(z: seq<Slot>)
      requires Zeroed(z)
      ensures forall k :: 0 <= k < |z| ==> SlotLast(z[k])
    {
    }

    /** Every entry found before keeps its slots, byte for byte. */
    static lemma AddKeepsEntries(s: seq<Slot>, mid: seq<Slot>, s': seq<Slot>, q: nat, name: seq<Byte>, ends: bool, m: seq<Byte>, i: nat)
      requires PaddedTo(s, mid) && Room(mid, q, SlotsFor(|name|), ends) && Added(mid, s', q, name, ends)
      requires Intact(s, 0) && Lookup(s, m, 0).Found? && Lookup(s, m, 0).first <= i <= Lookup(s, m, 0).sfn
      ensures i < |s| && i < |s'| && s'[i] == s[i]
    {
      hide Intact, Lookup, Room, Zeroed;
      var z := mid[|s|..];
      assert mid == s + z;
      ZeroedMeans(z);
      LookupPadded(s, z, m, 0);
      AddedKeeps(mid, s', q, name, ends, m, i);
      FoundAt(s, m, 0);
    }

    /** The slots from first to last are the same in s and in s'. */
    static ghost predicate SlotsSame(s: seq<Slot>, s': seq<Slot>, first: nat, last: nat) {
      last < |s| && last < |s'| && forall i :: first <= i <= last ==> s'[i] == s[i]
    }

    /** The slots of every entry that a name denotes in s are the same in s'. */
    static ghost predicate EntriesKept(s: seq<Slot>, s': seq<Slot>) {
      Intact(s, 0) ==> forall m :: Lookup(s, m, 0).Found? ==> SlotsSame(s, s', Lookup(s, m, 0).first, Lookup(s, m, 0).sfn)
    }

    static lemma AddKeepsAll(s: seq<Slot>, mid: seq<Slot>, s': seq<Slot>, q: nat, name: seq<Byte>, ends: bool)
      requires PaddedTo(s, mid) && Room(mid, q, SlotsFor(|name|), ends) && Added(mid, s', q, name, ends)
      ensures EntriesKept(s, s')
    {
      hide Intact, Lookup, Room, Added, Zeroed, PaddedTo;
      if Intact(s, 0) {
        forall m | Lookup(s, m, 0).Found?
          ensures SlotsSame(s, s', Lookup(s, m, 0).first, Lookup(s, m, 0).sfn)
        {
          FoundAt(s, m, 0);
          AddKeepsEntries(s, mid, s', q, name, ends, m, Lookup(s, m, 0).sfn);
          forall i | Lookup(s, m, 0).first <= i <= Lookup(s, m, 0).sfn
            ensures s'[i] == s[i]
          {
            AddKeepsEntries(s, mid, s', q, name, ends, m, i);
          }
        }
      }
    }

    /** A search before and after is what a caller sees of adding a name. */
    static ghost predicate NewlyFound(s: seq<Slot>, s': seq<Slot>, name: seq<Byte>, q: nat) {
      Intact(s, 0) && Lookup(s, name, 0) == NotFound && 0 !in name && 0xff !in name ==>
        && Intact(s', 0) && Lookup(s', name, 0) == Found(q, q + SlotsFor(|name|))
        && Lookup(s', name, q + SlotsFor(|name|) + 1) == NotFound
        && (forall m :: m != name ==> Lookup(s', m, 0) == Lookup(s, m, 0))
        && (forall m :: Lookup(s, m, 0).Found? ==> Lookup(s, m, 0).first != q)
    }

    /**
     Adds an entry for a name at the first place with enough room. The pointer ends up on the short
     entry. mid is the old directory with the clusters that had to be added. In an intact directory
     without the name, the name is then found there and every other name as before.
     */
    method Add(name: seq<Byte>, attr: Byte, start: nat, date: Half, time: Half)
      returns (err: int, ghost q: nat, ghost mid: seq<Slot>, ghost ends: bool)
      requires Valid() && attr != ATTR_LFN
      modifies this`clust, this`sect, this`idx, this`chain, fat, fat.buf
      ensures fat.Valid()
      ensures !(1 <= |name| <= 255) ==> err == ERR_PARAM && Valid() && fat.L() == old(fat.L()) && chain == old(chain)
      ensures err == ERR_NONE ==>
        && 1 <= |name| <= 255 && Valid() && At(q + SlotsFor(|name|))
        && OnlyGrew(old(fat.T()), fat.T(), old(chain), chain) && fat.Drift() == old(fat.Drift()) && OthersKept(fat.g, old(fat.L()), fat.L(), Secs())
        && old(Secs()) <= Secs()
        && PaddedTo(old(Listed()), mid) && Room(mid, q, SlotsFor(|name|), ends) && NoRoomBefore(mid, q, SlotsFor(|name|))
        && Added(mid, Listed(), q, name, ends)
        && q + SlotsFor(|name|) < |Listed()| && Listed()[q + SlotsFor(|name|)] == SfnSlot(SfnName(name), attr, start, date, time)
        && NewlyFound(old(Listed()), Listed(), name, q) && EntriesKept(old(Listed()), Listed())
    {
      hide Valid, Fat.Valid, Fat.L, Fat.T, ChainOf, OnlyGrew, SlotsOf, Sectors, Clusters, Secs, Quot, OthersKept, Listed, InSector, At,
           Extends, Now, SfnName, SfnSlot, Crc, Room, Added, PaddedTo, StandsAt, Intact, Lookup, SlotsFor, EntriesKept, NoRoomBefore;
      Facts();
      q, mid, ends := 0, [], false;
      if |name| == 0 || 255 < |name| {
        return ERR_PARAM, q, mid, ends;
      }
      NowMeans();
      ghost var b := Now();
      var firstSect, firstIdx, eod;
      err, firstSect, firstIdx, eod, q := FindRoom(SlotsFor(|name|));
      if err != ERR_NONE {
        return;
      }
      ends := eod;
      mid := Listed();
      ExtendsMeans(b);
      ghost var l1 := fat.L();
      err := Fill(name, attr, start, date, time, firstSect, firstIdx, eod, q);
      Facts();
      if err == ERR_NONE {
        OthersKeptTwice(fat.g, b.l, l1, fat.L(), Secs(), Secs());
        AddKeepsAll(b.slots, mid, Listed(), q, name, ends);
        if Intact(b.slots, 0) && Lookup(b.slots, name, 0) == NotFound && 0 !in name && 0xff !in name {
          AddResult(b.slots, mid, Listed(), q, name, ends);
        }
      }
    }

    // -------------------------------------------------------------- searching

    /** Copies the characters of a long name slot to their place; says false on a 0xff character. */
    method ReadChars(s: Slot, cnt: nat) returns (good: bool)
      requires nameBuf.Length == 512 && cnt < 20
      modifies this`nameLen, nameBuf
      ensures good <==> 0xff !in Frag(s)
      ensures good ==> nameLen == old(nameLen) + |Frag(s)| && nameBuf[13 * cnt..13 * cnt + |Frag(s)|] == Frag(s)
      ensures forall k :: 0 <= k < 512 && !(13 * cnt <= k < 13 * cnt + 13) ==> nameBuf[k] == old(nameBuf[k])
    {
      hide Frag, Char;
      ghost var f := Frag(s);
      var i := 0;
      while i < 13
        invariant i <= |f| && nameLen == old(nameLen) + i
        invariant forall k :: 0 <= k < i ==> nameBuf[13 * cnt + k] == f[k] && f[k] != 0xff
        invariant forall k :: 0 <= k < 512 && !(13 * cnt <= k < 13 * cnt + 13) ==> nameBuf[k] == old(nameBuf[k])
      {
        var c := Char(s, i);
        if c == 0xff {
          assert f[i] == 0xff;
          return false;
        }
        if c == 0 {
          break;
        }
        nameBuf[13 * cnt + i] := c;
        nameLen := nameLen + 1;
        i := i + 1;
      }
      assert i == |f|;
      good := true;
    }

    /** The text of the first t slots of the group at p is at its place in the name buffer. */
    ghost predicate Parsed(slots: seq<Slot>, p: nat, n: nat, t: nat)
      requires nameBuf.Length == 512
      reads this`nameLen, nameBuf
    {
      && t <= n <= 20 && p + t <= |slots|
      && nameLen == |TextOf(slots, p, t)| && 13 * (n - t) + nameLen <= 512
      && nameBuf[13 * (n - t)..13 * (n - t) + nameLen] == TextOf(slots, p, t)
    }

    /** One fragment more: it stands right in front of the text parsed before. */
    lemma ParsedStep(slots: seq<Slot>, p: nat, n: nat, t: nat, text: seq<Byte>)
      requires nameBuf.Length == 512 && t < n <= 20 && p + t < |slots|
      requires text == TextOf(slots, p, t) && nameLen == |text| + |Frag(slots[p + t])| && 13 * (n - t) + |text| <= 512
      requires nameBuf[13 * (n - t - 1)..13 * (n - t - 1) + |Frag(slots[p + t])|] == Frag(slots[p + t])
      requires nameBuf[13 * (n - t)..13 * (n - t) + |text|] == text
      requires 0 < t ==> |Frag(slots[p + t])| == 13
      ensures Parsed(slots, p, n, t + 1)
    {
      hide Frag;
      Joined(nameBuf[..], 13 * (n - t - 1), Frag(slots[p + t]), text);
    }

    static lemma Joined(b: seq<Byte>, a: nat, f: seq<Byte>, text: seq<Byte>)
      requires a + 13 + |text| <= |b| && |f| <= 13 && (|text| > 0 ==> |f| == 13)
      requires b[a..a + |f|] == f && b[a + 13..a + 13 + |text|] == text
      ensures b[a..a + |f| + |text|] == f + text
    {
      if |text| > 0 {
        assert b[a..a + 13 + |text|] == b[a..a + 13] + b[a + 13..a + 13 + |text|];
      }
    }

    /** One round of parsing: checks the slot and takes its characters. */
    method TakeSlot(s: Slot, cnt: nat, ghost slots: seq<Slot>, ghost p: nat, ghost n: nat) returns (good: bool)
      requires nameBuf.Length == 512 && cnt < n <= 20
      requires Regular(slots, p) ==>
        n == Announced(slots[p]) && s == slots[p + (n - 1 - cnt)] && nameCrc == slots[p][LFN_CRC] && Parsed(slots, p, n, n - 1 - cnt)
      modifies this`nameLen, nameBuf
      ensures good <==> PartTaken(s, nameCrc)
      ensures good ==> nameLen == old(nameLen) + |Frag(s)|
      ensures Regular(slots, p) ==> good && Parsed(slots, p, n, n - cnt)
    {
      hide Parsed, Frag, TextOf, Char;
      ghost var t := n - 1 - cnt;
      if Regular(slots, p) {
        assert LongAt(slots, p, t);
        ParsedMeans(slots, p, n, t);
      }
      if !SlotLong(s) || s[LFN_CRC] != nameCrc {
        return false;
      }
      ghost var text := if Regular(slots, p) then TextOf(slots, p, t) else [];
      good := ReadChars(s, cnt);
      if Regular(slots, p) {
        assert nameBuf[13 * (n - t)..13 * (n - t) + |text|] == text;
        ParsedStep(slots, p, n, t, text);
      }
    }

    /** Steps to the next slot and reads it. */
    method StepLoad(ghost p: nat) returns (err: int, s: Slot)
      requires Valid() && At(p)
      modifies this`clust, this`sect, this`idx, fat`disk, fat`bufDirty, fat`sect, fat.buf
      ensures fat.Valid() && Valid() && Now() == old(Now())
      ensures err == ERR_NONE || err == ERR_IO || err == ERR_EOF
      ensures err == ERR_NONE ==> Buffered(p + 1, s)
      ensures err == ERR_EOF ==> p + 1 == |Listed()|
    {
      hide Valid, Fat.Valid, Fat.L, Fat.T, ChainOf, Sectors, Clusters, Secs, Quot, Listed, InSector, At, Now, Buffered;
      s := seq(32, _ => 0);
      err := Next(p);
      ListedIs();
      if err == ERR_NONE {
        err, s := Load(p + 1);
      }
    }

    /** Takes the slot at q, part of a long name that starts at p, and goes on to the next one. */
    method ParseRound(s: Slot, cnt: nat, ghost q: nat, ghost p: nat, ghost n: nat) returns (err: int, s': Slot)
      requires Valid() && Buffered(q, s) && cnt < n <= 20 && q == p + (n - 1 - cnt)
      requires Regular(Listed(), p) ==>
        n == Announced(Listed()[p]) && nameCrc == Listed()[p][LFN_CRC] && Parsed(Listed(), p, n, n - 1 - cnt)
      modifies this`clust, this`sect, this`idx, this`nameLen, nameBuf, fat`disk, fat`bufDirty, fat`sect, fat.buf
      ensures fat.Valid() && Valid() && Now() == old(Now()) && Listed() == old(Listed())
      ensures err == ERR_NONE ==> Buffered(q + 1, s') && PartTaken(s, nameCrc) && nameLen == old(nameLen) + |Frag(s)|
      ensures err == ERR_NONE || err == ERR_IO || (err == ERR_EOF && q + 1 == |Listed()|) || (err == ERR_BROKEN && !PartTaken(s, nameCrc))
      ensures Regular(Listed(), p) ==> (err == ERR_NONE || err == ERR_IO) && Parsed(Listed(), p, n, n - cnt)
    {
      hide Valid, Fat.Valid, Fat.L, Fat.T, ChainOf, Sectors, Clusters, Secs, Quot, Listed, InSector, At, Now, Parsed, Frag, TextOf, Char, Regular,
           SlotLong, SlotFree, SlotLast, LongPart, PartTaken, Buffered;
      BufferedMeans(q, s);
      Facts();
      NowMeans();
      ghost var slots := Listed();
      s' := s;
      var good := TakeSlot(s, cnt, slots, p, n);
      if !good {
        return ERR_BROKEN, s';
      }
      if Regular(slots, p) {
        RegularMeans(slots, p);
      }
      err, s' := StepLoad(q);
      NowMeans();
    }

    /**
     Parses the long name that starts at slot p. On a whole group it leaves the name in the buffer and
     the pointer on the short entry; q is where the pointer stands and s what is there.
     */
    method ParseName(ghost p: nat) returns (err: int, s: Slot, ghost q: nat)
      requires Valid() && At(p)
      modifies this`clust, this`sect, this`idx, this`nameLen, this`nameCrc, nameBuf, fat`disk, fat`bufDirty, fat`sect, fat.buf
      ensures fat.Valid() && Valid() && Now() == old(Now()) && Listed() == old(Listed())
      ensures err != ERR_IO ==> (err == ERR_NONE <==> Accepted(Listed(), p))
      ensures err == ERR_NONE ==>
        && q == p + Announced(Listed()[p]) && Buffered(q, s)
        && nameCrc == Listed()[p][LFN_CRC] && nameLen == |TextOf(Listed(), p, Announced(Listed()[p]))|
      ensures Regular(Listed(), p) ==>
        && (err == ERR_NONE || err == ERR_IO)
        && (err == ERR_NONE ==>
              Parsed(Listed(), p, Announced(Listed()[p]), Announced(Listed()[p])))
    {
      hide Valid, Fat.Valid, Fat.L, Fat.T, ChainOf, Sectors, Clusters, Secs, Quot, Listed, InSector, At, Now, Parsed, Frag, TextOf, Char, Regular,
           SlotLong, SlotFree, SlotLast, LongPart, PartTaken, TakenAt, Buffered;
      Facts();
      q := p;
      err, s := Load(p);
      if err != ERR_NONE {
        return;
      }
      ghost var slots := Listed();
      ghost var whole := Regular(slots, p);
      if whole {
        RegularMeans(slots, p);
      }
      BufferedMeans(p, s);
      nameCrc := s[LFN_CRC];
      nameLen := 0;
      if s[0] / HEAD % 2 == 0 {
        return ERR_BROKEN, s, q;
      }
      var cnt: nat := s[0] % 32;
      if 20 < cnt {
        return ERR_BROKEN, s, q;
      }
      ghost var n := cnt;
      ParsedNone(slots, p, n);
      while 0 < cnt
        invariant cnt <= n <= 20 && q == p + (n - cnt) && fat.Valid() && Valid() && Now() == old(Now()) && Listed() == slots && Buffered(q, s)
        invariant nameCrc == slots[p][LFN_CRC] && q < |slots| && s == slots[q] && nameLen == |TextOf(slots, p, n - cnt)|
        invariant forall t :: 0 <= t < n - cnt ==> TakenAt(slots, p, t)
        invariant whole ==> nameCrc == slots[p][LFN_CRC] && Parsed(slots, p, n, n - cnt)
      {
        cnt := cnt - 1;
        ghost var t := n - 1 - cnt;
        TakenMeans(slots, p, t);
        err, s := ParseRound(s, cnt, q, p, n);
        if err != ERR_NONE {
          return;
        }
        q := q + 1;
        BufferedMeans(q, s);
      }
      if whole {
        ParsedMeans(slots, p, n, n);
      }
      err := if nameLen <= 255 then ERR_NONE else ERR_BROKEN;
    }

    static lemma TakenMeans(slots: seq<Slot>, p: nat, t: nat)
      requires p + t < |slots|
      ensures TakenAt(slots, p, t) <==> PartTaken(slots[p + t], slots[p][LFN_CRC])
      ensures |TextOf(slots, p, t + 1)| == |Frag(slots[p + t])| + |TextOf(slots, p, t)| && TextOf(slots, p, 0) == []
    {
    }

    lemma BufferedMeans(p: nat, s: Slot)
      requires Valid() && Buffered(p, s)
      ensures fat.Valid() && At(p) && p < |Listed()| && s == Listed()[p]
    {
    }

    lemma ParsedNone(slots: seq<Slot>, p: nat, n: nat)
      requires nameBuf.Length == 512 && nameLen == 0 && n <= 20 && p <= |slots|
      ensures Parsed(slots, p, n, 0)
    {
    }

    lemma ParsedMeans(slots: seq<Slot>, p: nat, n: nat, t: nat)
      requires nameBuf.Length == 512 && Parsed(slots, p, n, t)
      ensures t <= n <= 20 && p + t <= |slots| && nameLen == |TextOf(slots, p, t)| && 13 * (n - t) + nameLen <= 512
      ensures nameBuf[13 * (n - t)..13 * (n - t) + nameLen] == TextOf(slots, p, t)
    {
    }

    /** The checks on the entry at p, whose first slot s is buffered: whether it goes by the name, and where it ends. */
    method Examine(name: seq<Byte>, sfn: seq<Byte>, s: Slot, ghost p: nat) returns (err: int, hit: bool, s': Slot, ghost k: nat)
      requires Valid() && Buffered(p, s) && sfn == SfnName(name) && !SlotFree(s)
      modifies this`clust, this`sect, this`idx, this`nameLen, this`nameCrc, nameBuf, fat`disk, fat`bufDirty, fat`sect, fat.buf
      ensures fat.Valid() && Valid() && Now() == old(Now()) && Listed() == old(Listed()) && p < |Listed()| && s == Listed()[p]
      ensures err == ERR_NONE ==> p <= k && Buffered(k, s')
      ensures Whole(Listed(), p) ==>
        && (err == ERR_NONE || err == ERR_IO)
        && (err == ERR_NONE ==> k == Listing.Next(Listed(), p) - 1 && (hit <==> Matches(Listed(), name, p)))
    {
      hide Valid, Fat.Valid, Fat.L, Fat.T, ChainOf, Sectors, Clusters, Secs, Quot, Listed, InSector, At, Now, Parsed, TextOf, Regular, SfnName,
           Buffered, Crc, LongPart;
      Facts();
      NowMeans();
      BufferedMeans(p, s);
      ghost var slots := Listed();
      err, hit, s', k := ERR_NONE, false, s, p;
      if SlotLong(s) {
        err, s', k := ParseName(p);
        if err != ERR_NONE {
          return;
        }
        BufferedMeans(k, s');
        var crc := GetCrc(s'[..11]);
        if Regular(slots, p) {
          RegularMeans(slots, p);
          ParsedMeans(slots, p, Announced(slots[p]), Announced(slots[p]));
        }
        if SlotFree(s') || SlotLong(s') || nameCrc != crc {
          return ERR_BROKEN, false, s', k;
        }
        hit := nameLen == |name| && nameLen <= 512 && nameBuf[..nameLen] == name;
      } else {
        hit := sfn == s[..11];
      }
    }

    /** A search that has come to slot p has passed nothing of that name. */
    static ghost predicate Searching(slots: seq<Slot>, name: seq<Byte>, p: nat) {
      Intact(slots, 0) ==> Intact(slots, p) && Lookup(slots, name, 0) == Lookup(slots, name, p)
    }

    static lemma SearchStep(slots: seq<Slot>, name: seq<Byte>, p: nat)
      requires Searching(slots, name, p) && p < |slots|
      ensures SlotLast(slots[p]) && Intact(slots, 0) ==> Lookup(slots, name, 0) == NotFound
      ensures !SlotLast(slots[p]) && SlotFree(slots[p]) ==> Searching(slots, name, p + 1)
      ensures Intact(slots, 0) && !SlotLast(slots[p]) ==> Whole(slots, p)
      ensures Intact(slots, 0) && !SlotFree(slots[p]) ==>
        if Matches(slots, name, p) then Lookup(slots, name, 0) == Found(p, Listing.Next(slots, p) - 1)
        else Searching(slots, name, Listing.Next(slots, p))
    {
      hide Whole, Matches;
    }

    static lemma SearchEnd(slots: seq<Slot>, name: seq<Byte>)
      requires Searching(slots, name, |slots|) && Intact(slots, 0)
      ensures Lookup(slots, name, 0) == NotFound
    {
    }

    /** One round of the search: looks at slot p, where s is, and steps behind the entry there. */
    method SearchRound(name: seq<Byte>, sfn: seq<Byte>, s: Slot, ghost p: nat) returns (err: int, hit: bool, s': Slot, ghost k: nat)
      requires Valid() && Buffered(p, s) && sfn == SfnName(name) && !SlotLast(s) && Searching(Listed(), name, p)
      modifies this`clust, this`sect, this`idx, this`nameLen, this`nameCrc, nameBuf, fat`disk, fat`bufDirty, fat`sect, fat.buf
      ensures fat.Valid() && Valid() && Now() == old(Now())
      ensures hit ==> err == ERR_NONE && p <= k && Buffered(k, s') && !SlotFree(s)
      ensures err == ERR_NONE && !hit ==> p <= k && Buffered(k + 1, s')
      ensures err == ERR_NONE && !hit ==> Searching(Now().slots, name, k + 1)
      ensures err == ERR_EOF && Intact(Now().slots, 0) ==> Searching(Now().slots, name, k + 1) && k + 1 == |Now().slots|
      ensures Intact(Now().slots, 0) ==>
        && (err == ERR_NONE || err == ERR_EOF || err == ERR_IO)
        && (hit ==> Lookup(Now().slots, name, 0) == Found(p, k))
    {
      hide Valid, Fat.Valid, Fat.L, Fat.T, ChainOf, Sectors, Clusters, Secs, Quot, Listed, InSector, At, Now, SfnName, Times,
           Buffered, Intact, Lookup, Whole, Matches, StandsAt, SlotFree, SlotLast, Listing.Next, SlotLong, Searching;
      ghost var slots := Listed();
      BufferedMeans(p, s);
      SearchStep(slots, name, p);
      NowMeans();
      err, hit, s', k := ERR_NONE, false, s, p;
      if !SlotFree(s) {
        err, hit, s', k := Examine(name, sfn, s, p);
        NowMeans();
        if err != ERR_NONE || hit {
          hit := err == ERR_NONE;
          return;
        }
        BufferedMeans(k, s');
      }
      SearchingAnyway(slots, name, k + 1);
      err, s' := StepLoad(k);
      NowMeans();
    }

    static lemma SearchingAnyway(slots: seq<Slot>, name: seq<Byte>, p: nat)
      ensures !Intact(slots, 0) ==> Searching(slots, name, p)
    {
    }

    /**
     Searches the directory for a name. In an intact directory it finds exactly what the name denotes:
     the pointer ends up on the short entry k, whose slot s is in the buffer, and firstSect and firstIdx say
     where the entry starts.
     */
    method Search(name: seq<Byte>) returns (err: int, s: Slot, firstSect: nat, firstIdx: nat, ghost f: nat, ghost k: nat)
      requires Valid()
      modifies this`clust, this`sect, this`idx, this`nameLen, this`nameCrc, nameBuf, fat`disk, fat`bufDirty, fat`sect, fat.buf
      ensures fat.Valid() && Valid() && Now() == old(Now())
      ensures err == ERR_NONE ==> f <= k && Buffered(k, s) && StandsAt(f, firstSect, firstIdx)
      ensures Intact(Now().slots, 0) ==>
        && (err == ERR_NONE || err == ERR_EOF || err == ERR_IO)
        && (err == ERR_NONE ==> Lookup(Now().slots, name, 0) == Found(f, k))
        && (err == ERR_EOF ==> Lookup(Now().slots, name, 0) == NotFound)
    {
      hide Valid, Fat.Valid, Fat.L, Fat.T, ChainOf, Sectors, Clusters, Secs, Quot, Listed, InSector, At, Now, SfnName, Times,
           Buffered, Intact, Lookup, Whole, Matches, StandsAt, SlotFree, SlotLast, Listing.Next, SlotLong, Searching;
      Facts();
      NowMeans();
      TimesZero(fat.g.spc);
      var sfn := PutSfnName(name);
      ghost var slots := Listed();
      AtClust(sclust, 0);
      SearchingStart(slots, name);
      err, s, firstSect, firstIdx, f, k := ERR_NONE, seq(32, _ => 0), 0, 0, 0, 0;
      ghost var p: nat := 0;
      err, s := Load(p);
      NowMeans();
      while err == ERR_NONE
        invariant Intact(slots, 0) ==> err == ERR_NONE || err == ERR_EOF || err == ERR_IO
        invariant fat.Valid() && Valid() && Now() == old(Now()) && Now().slots == slots
        invariant err == ERR_NONE ==> Buffered(p, s) && Searching(slots, name, p)
        invariant err == ERR_EOF && Intact(slots, 0) ==> p == |slots| && Searching(slots, name, p)
        decreases err == ERR_NONE, |slots| - p
      {
        NowMeans();
        BufferedMeans(p, s);
        SearchStep(slots, name, p);
        if SlotLast(s) {
          return ERR_EOF, s, firstSect, firstIdx, f, k;
        }
        if !SlotFree(s) {
          StandsHere(p);
          firstSect, firstIdx, f := sect, idx, p;
        }
        var hit;
        err, hit, s, k := SearchRound(name, sfn, s, p);
        if hit {
          return;
        }
        p := k + 1;
      }
      if err == ERR_EOF && Intact(slots, 0) {
        SearchEnd(slots, name);
      }
    }

    static lemma SearchingStart(slots: seq<Slot>, name: seq<Byte>)
      ensures Searching(slots, name, 0)
    {
    }

    lemma StandsHere(p: nat)
      requires Valid() && At(p)
      ensures StandsAt(p, sect, idx)
    {
    }

    // -------------------------------------------------------------- removing an entry

    /** The slots from f up to p have been marked free, and every other slot is as in base. */
    ghost predicate Marked(base: seq<Slot>, f: nat, p: nat)
      requires Valid()
      reads this`chain, fat, fat.buf
    {
      && |Listed()| == |base|
      && forall i :: 0 <= i < |base| ==> Listed()[i] == if f <= i < p then base[i][0 := SLOT_FREE] else base[i]
    }

    lemma MarkedNone(f: nat)
      requires Valid()
      ensures Marked(Listed(), f, f)
    {
    }

    lemma MarkedStep(base: seq<Slot>, before: seq<Slot>, f: nat, p: nat)
      requires Valid() && f <= p < |base| == |before|
      requires forall i :: 0 <= i < |base| ==> before[i] == if f <= i < p then base[i][0 := SLOT_FREE] else base[i]
      requires Listed() == before[p := before[p][0 := SLOT_FREE]]
      ensures Marked(base, f, p + 1)
    {
      hide Valid, Listed;
    }

    lemma MarkedMeans(base: seq<Slot>, f: nat, p: nat)
      requires Valid() && Marked(base, f, p)
      ensures |Listed()| == |base|
      ensures forall i :: 0 <= i < |base| ==> Listed()[i] == if f <= i < p then base[i][0 := SLOT_FREE] else base[i]
    {
    }

    /** The pointer is at slot p only. */
    lemma OnlyAt(p: nat, k: nat, s: nat, i: nat)
      requires Valid() && At(p) && StandsAt(k, s, i)
      ensures sect == s && idx == i <==> p == k
    {
      hide Valid;
      Facts();
    }

    /** Marks the slot under the pointer free, as part of a run of slots from f to k; says whether it was the last. */
    method MarkOne(ghost base: seq<Slot>, lastSect: nat, lastIdx: nat, ghost f: nat, ghost p: nat, ghost k: nat) returns (err: int, last: bool)
      requires Valid() && At(p) && StandsAt(k, lastSect, lastIdx) && f <= p && Marked(base, f, p)
      modifies this`clust, this`sect, this`idx, fat`disk, fat`bufDirty, fat`sect, fat.buf
      ensures Valid() && fat.T() == old(fat.T()) && OthersKept(fat.g, old(fat.L()), fat.L(), Secs())
      ensures err == ERR_NONE || err == ERR_IO || err == ERR_EOF
      ensures err == ERR_EOF ==> p + 1 == |base| && p != k
      ensures err == ERR_NONE ==> Marked(base, f, p + 1) && (last <==> p == k) && (!last ==> At(p + 1))
    {
      hide Valid, Fat.Valid, Fat.L, Fat.T, ChainOf, SlotsOf, Sectors, Clusters, Secs, Quot, OthersKept, Listed, InSector, At, StandsAt, Marked, Now;
      Facts();
      last := false;
      OnlyAt(p, k, lastSect, lastIdx);
      MarkedMeans(base, f, p);
      ghost var before := Listed();
      err := Mark(p, SLOT_FREE);
      if err != ERR_NONE {
        return;
      }
      MarkedStep(base, before, f, p);
      MarkedMeans(base, f, p + 1);
      NowMeans();
      if sect == lastSect && idx == lastIdx {
        return ERR_NONE, true;
      }
      err := Next(p);
      ListedIs();
      NowMeans();
      MarkedFrom(base, f, p + 1);
    }

    lemma MarkedFrom(base: seq<Slot>, f: nat, p: nat)
      requires Valid() && |Listed()| == |base|
      requires forall i :: 0 <= i < |base| ==> Listed()[i] == if f <= i < p then base[i][0 := SLOT_FREE] else base[i]
      ensures Marked(base, f, p)
    {
    }

    /** Marks free the slots of an entry, from its first one up to the short entry under the pointer. */
    method RemoveEntries(firstSect: nat, firstIdx: nat, ghost f: nat, ghost k: nat) returns (err: int)
      requires Valid() && At(k) && StandsAt(f, firstSect, firstIdx) && f <= k
      modifies this`clust, this`sect, this`idx, fat`disk, fat`bufDirty, fat`sect, fat.buf
      ensures Valid() && fat.T() == old(fat.T()) && OthersKept(fat.g, old(fat.L()), fat.L(), Secs())
      ensures err == ERR_NONE || err == ERR_IO
      ensures err == ERR_NONE ==> Removed(old(Listed()), Listed(), f, k)
    {
      hide Valid, Fat.Valid, Fat.L, Fat.T, ChainOf, SlotsOf, Sectors, Clusters, Secs, Quot, OthersKept, Listed, InSector, At, StandsAt, Marked, Now;
      Facts();
      ListedIs();
      AtMeans(k);
      StandsHere(k);
      ghost var base, l0 := Listed(), fat.L();
      OthersKeptSelf(fat.g, l0, Secs());
      MarkedNone(f);
      var lastSect, lastIdx := sect, idx;
      Rewind(firstSect, firstIdx, f);
      ghost var p := f;
      var last := false;
      err := ERR_NONE;
      while !last
        invariant fat.Valid() && Valid() && err == ERR_NONE && f <= p && (if last then p == k + 1 else p <= k && At(p))
        invariant fat.T() == old(fat.T()) && OthersKept(fat.g, l0, fat.L(), Secs()) && Marked(base, f, p)
        decreases k + 1 - p
      {
        ghost var l1 := fat.L();
        err, last := MarkOne(base, lastSect, lastIdx, f, p, k);
        Facts();
        OthersKeptTwice(fat.g, l0, l1, fat.L(), Secs(), Secs());
        if err != ERR_NONE {
          return;
        }
        p := p + 1;
      }
      MarkedMeans(base, f, k + 1);
    }

    // -------------------------------------------------------------- emptiness

    /** Behind the two entries of its own, the directory has only free slots up to an end mark. */
    static ghost predicate Vacant(slots: seq<Slot>) {
      exists e :: 2 <= e < |slots| && VacantTo(slots, e)
    }

    static ghost predicate VacantTo(slots: seq<Slot>, e: nat) {
      && e < |slots| && SlotLast(slots[e])
      && forall i :: 2 <= i < e ==> SlotFree(slots[i]) && !SlotLast(slots[i])
    }

    /** Tells whether a directory is empty; one without an end mark never is. */
    method CheckEmpty() returns (err: int)
      requires Valid() && At(0)
      modifies this`clust, this`sect, this`idx, fat`disk, fat`bufDirty, fat`sect, fat.buf
      ensures fat.Valid() && Valid() && Now() == old(Now())
      ensures err == ERR_NONE || err == ERR_DENIED || err == ERR_IO || err == ERR_EOF
      ensures err != ERR_IO ==> (err == ERR_NONE <==> Vacant(Now().slots))
    {
      hide Valid, Fat.Valid, Fat.L, Fat.T, ChainOf, Sectors, Clusters, Secs, Quot, Listed, InSector, At, Now, Buffered, SlotFree;
      NowMeans();
      ListedIs();
      Facts();
      ghost var slots := Listed();
      err := Next(0);
      NowMeans();
      if err != ERR_NONE {
        return;
      }
      var s;
      err, s := StepLoad(1);
      NowMeans();
      ghost var p: nat := 2;
      while err == ERR_NONE
        invariant fat.Valid() && Valid() && Now() == old(Now()) && Now().slots == slots && 2 <= p
        invariant err == ERR_NONE || err == ERR_IO || (err == ERR_EOF && p == |slots|)
        invariant err == ERR_NONE ==> Buffered(p, s)
        invariant forall i :: 2 <= i < p && i < |slots| ==> SlotFree(slots[i]) && !SlotLast(slots[i])
        decreases err == ERR_NONE, |slots| - p
      {
        NowMeans();
        BufferedMeans(p, s);
        FreeMeans(s);
        if SlotLast(s) {
          assert VacantTo(slots, p);
          return;
        }
        if !SlotFree(s) {
          NotVacant(slots, p);
          return ERR_DENIED;
        }
        err, s := StepLoad(p);
        NowMeans();
        p := p + 1;
      }
    }

    static lemma FreeMeans(s: Slot)
      ensures SlotLast(s) ==> SlotFree(s)
    {
    }

    static lemma NotVacant(slots: seq<Slot>, p: nat)
      requires 2 <= p < |slots| && !SlotFree(slots[p])
      requires forall i :: 2 <= i < p ==> !SlotLast(slots[i])
      ensures !Vacant(slots)
    {
      forall e | 2 <= e < |slots| ensures !VacantTo(slots, e) {}
    }
  }
}
