/** Open file handles: a byte sequence with a cursor, kept in a chain and one sector buffer. */
module Files {
  import opened Bytes
  import opened Chains
  import opened Volume
  import opened Layout
  import opened Entries
  import opened FatFs

  datatype Whence = SeekStart | SeekCurr | SeekEnd

  /** What a handle showed at some moment: the table, its clusters, the view, its sectors and bytes,
      how far the counter of free clusters is off and whether the tables agree. */
  datatype Snapshot = Snapshot(t: Table, chain: seq<nat>, view: seq<Sector>, secs: seq<nat>, data: seq<Byte>, drift: int, mirror: bool)

  const NOWHERE := 0xffff_ffff   // the sector of a handle that has buffered nothing yet

  class File {
    const fat: Fat
    const dirSect: nat
    const dirIdx: nat
    const sclust: nat
    const buf: array<Byte>
    const canRead: bool
    const canWrite: bool
    var clust: nat
    var sect: nat
    var size: nat
    var offset: nat
    var accessed: bool
    var modified: bool
    var dirty: bool
    // The clusters of the file, and the cluster its directory entry lies in.
    ghost var chain: seq<nat>
    ghost const dirClust: nat

    /** The sectors of the file. */
    ghost function Secs(): seq<nat>
      reads this`chain
    {
      if Clusters(fat.g, chain) then Sectors(fat.g, chain) else []
    }

    /** The chain is the file's own, and its directory entry and the volume buffer are elsewhere. */
    ghost predicate Owns()
      requires fat.Valid()
      reads this`chain, fat, fat.buf
    {
      Owned(fat.g, fat.T(), chain, sclust, fat.sect, dirSect, dirClust)
    }

    /** The buffer holds the sector under the cursor. */
    ghost predicate AtCursor()
      requires fat.Valid() && buf.Length == 512 && Clusters(fat.g, chain)
      reads this`clust, this`sect, this`offset, this`dirty, this`chain, buf, fat, fat.buf
    {
      && offset < 512 * |Secs()|
      && sect == Secs()[offset / 512] && sect < |fat.disk|
      && 1 <= fat.g.spc && Quot(offset, 512 * fat.g.spc) < |chain|
      && clust == chain[Quot(offset, 512 * fat.g.spc)]
      && (dirty || buf[..] == fat.L()[sect])
    }

    /** The logical disk as this handle sees it: its own buffer on top when it is dirty. */
    ghost function View(): (v: seq<Sector>)
      requires Valid()
      reads this`clust, this`sect, this`size, this`offset, this`dirty, this`chain, buf, fat, fat.buf
      ensures |v| == |fat.disk| && (sect != NOWHERE ==> sect < |v|)
    {
      Overlaid(fat.L(), dirty, sect, buf[..])
    }

    /** The bytes of the file's clusters as this handle sees them. */
    ghost function Data(): seq<Byte>
      requires Valid()
      reads this`clust, this`sect, this`size, this`offset, this`dirty, this`chain, buf, fat, fat.buf
    {
      Facts();
      Content(View(), Secs())
    }

    ghost predicate Valid()
      reads this`clust, this`sect, this`size, this`offset, this`dirty, this`chain, buf, fat, fat.buf
    {
      && fat.Valid() && buf.Length == 512 && buf != fat.buf
      && Owns()
      && dirIdx % 32 == 0 && dirIdx + 32 <= 512
      && offset < WORD && size < WORD && size <= 512 * |Secs()|
      && (if sect == NOWHERE then !dirty && offset == 0 && clust == sclust else AtCursor())
    }

    /** Valid, and the buffer has been filled by a first seek. */
    ghost predicate Ready()
      reads this`clust, this`sect, this`size, this`offset, this`dirty, this`chain, buf, fat, fat.buf
    {
      Valid() && sect != NOWHERE
    }

    ghost function Now(): Snapshot
      requires Valid()
      reads this`clust, this`sect, this`size, this`offset, this`dirty, this`chain, buf, fat, fat.buf
    {
      Snapshot(fat.T(), chain, View(), Secs(), Data(), fat.Drift(), fat.MirrorAgrees())
    }

    /** Since b the chain has only grown, by clusters that were free; all other entries are the same. */
    ghost predicate Grew(b: Snapshot)
      requires Valid()
      reads this`clust, this`sect, this`size, this`offset, this`dirty, this`chain, buf, fat, fat.buf
    {
      OnlyGrew(b.t, fat.T(), b.chain, chain) && b.secs <= Secs() && fat.Kept(b.drift, b.mirror)
    }

    /** Since b no byte of the file and no other data sector has changed. */
    ghost predicate Keeps(b: Snapshot)
      requires Valid()
      reads this`clust, this`sect, this`size, this`offset, this`dirty, this`chain, buf, fat, fat.buf
    {
      Grew(b) && SameData(fat.g, b.view, View()) && b.data <= Data()
    }

    lemma KeepsSelf()
      requires Valid()
      ensures Keeps(Now()) && Grew(Now())
    {
      OwnedParts(fat.g, fat.T(), chain, sclust, fat.sect, dirSect, dirClust);
      GrewNot(fat.T(), chain);
    }

    /** Growth before b' and since b' composes. */
    lemma GrewTwice(b: Snapshot, b': Snapshot)
      requires Valid() && Grew(b') && OnlyGrew(b.t, b'.t, b.chain, b'.chain) && b.secs <= b'.secs
      requires b'.drift == b.drift && (b.mirror ==> b'.mirror)
      requires |b'.t| <= BAD && IsChain(b'.t, b'.chain)
      ensures Grew(b)
    {
      OwnedParts(fat.g, fat.T(), chain, sclust, fat.sect, dirSect, dirClust);
      ChainGrewTwice(b.t, b'.t, fat.T(), b.chain, b'.chain, chain);
    }

    lemma GrewMeans(b: Snapshot)
      requires Valid() && Grew(b)
      ensures OnlyGrew(b.t, fat.T(), b.chain, chain) && b.secs <= Secs() && fat.Kept(b.drift, b.mirror)
      ensures |fat.T()| <= BAD && IsChain(fat.T(), chain)
    {
      OwnedParts(fat.g, fat.T(), chain, sclust, fat.sect, dirSect, dirClust);
    }

    /** Fills a handle from a directory entry: the last part of opening a file. */
    constructor (fat: Fat, dirSect: nat, dirIdx: nat, sclust: nat, size: nat,
                 canRead: bool, canWrite: bool, trunc: bool, ghost chain: seq<nat>, ghost dirClust: nat)
      requires fat.Valid() && Owned(fat.g, fat.T(), chain, sclust, fat.sect, dirSect, dirClust)
      requires dirIdx % 32 == 0 && dirIdx + 32 <= 512 && size < WORD && size <= 512 * |Sectors(fat.g, chain)|
      ensures Valid() && sect == NOWHERE && fresh(buf)
      ensures this.dirSect == dirSect && this.dirIdx == dirIdx && this.sclust == sclust
      ensures this.fat == fat && this.chain == chain && this.canRead == canRead && this.canWrite == canWrite
      ensures this.size == if trunc then 0 else size
      ensures modified == (0 < size && trunc) && !accessed
    {
      hide Fat.Valid, Fat.L, Fat.T, Geometry.Fits, Chains.WellFormed, Chains.IsChain, Layout.Owned, Layout.Sectors, Layout.Clusters, AtCursor;
      OwnedParts(fat.g, fat.T(), chain, sclust, fat.sect, dirSect, dirClust);
      this.fat, this.dirSect, this.dirIdx, this.sclust := fat, dirSect, dirIdx, sclust;
      this.chain, this.dirClust := chain, dirClust;
      this.canRead, this.canWrite := canRead, canWrite;
      clust, sect, offset := sclust, NOWHERE, 0;
      buf := new Byte[512](_ => 0);
      accessed, dirty := false, false;
      if 0 < size && trunc {
        this.size, modified := 0, true;
      } else {
        this.size, modified := size, false;
      }
    }

    lemma Facts()
      requires fat.Valid() && Owns()
      ensures Distinct(chain) && Distinct(Secs()) && OnDisk(Secs(), |fat.disk|)
      ensures forall x :: 0 <= x < |Secs()| ==> fat.g.dataSect <= Secs()[x] < |fat.disk|
      ensures fat.g.dataSect <= dirSect < |fat.disk| && dirSect !in Secs()
      ensures fat.sect !in Secs() && |fat.disk| < WORD && Clusters(fat.g, chain) && 1 <= fat.g.spc
      ensures |chain| > 0 && chain[0] == sclust && forall i :: 0 <= i < |chain| ==> 2 <= chain[i]
    {
      hide Fat.Valid, Fat.L, Fat.T, Geometry.Fits, Chains.WellFormed, Chains.IsChain, Layout.Owned, Layout.Sectors;
      fat.Fits();
      OwnedParts(fat.g, fat.T(), chain, sclust, fat.sect, dirSect, dirClust);
      OwnedFacts(fat.g, fat.T(), chain, sclust, fat.sect, dirSect, dirClust, |fat.disk|);
    }

    // -------------------------------------------------------------- seeking

    /** One step along the chain, stretching it at its end. k is the position of the current cluster. */
    method Advance(ghost k: nat) returns (err: int)
      requires fat.Valid() && Owns() && k < |chain| && clust == chain[k]
      modifies this`clust, this`chain, fat, fat.buf
      ensures fat.Valid() && WellFormed(fat.T())
      ensures SameData(fat.g, old(fat.L()), fat.L())
      ensures err == ERR_NONE ==>
        && Owns() && k + 1 < |chain| && clust == chain[k + 1]
        && old(chain) <= chain && |chain| == (if k + 1 < old(|chain|) then old(|chain|) else k + 2)
        && OnlyGrew(old(fat.T()), fat.T(), old(chain), chain) && fat.Kept(old(fat.Drift()), old(fat.MirrorAgrees()))
    {
      hide Fat.Valid, Fat.L, Fat.T, Geometry.Fits, Chains.WellFormed, Chains.IsChain, Chains.Stretched, Chains.Chosen,
           Layout.Owned, Layout.OnlyGrew, Layout.Sectors;
      ghost var g, n, t, c0, busy := fat.g, |fat.disk|, fat.T(), chain, fat.sect;
      fat.Fits();
      OwnedParts(g, t, chain, sclust, busy, dirSect, dirClust);
      ChainStep(t, chain, k);
      InTableMeans(t, clust);
      var next, kind;
      err, next, kind := fat.GetFat(clust);
      if err != ERR_NONE {
        return;
      }
      if kind == Bad || kind == Free {
        return ERR_BROKEN;
      }
      if kind == Last {
        ghost var done;
        err, next, done := fat.StretchChain(clust, 0);
        if err != ERR_NONE {
          return;
        }
        OwnedStretch(g, n, t, c0, sclust, busy, dirSect, dirClust, next, fat.sect);
        chain := chain + [next];
      } else {
        OwnedElsewhere(g, n, t, c0, sclust, busy, dirSect, dirClust, fat.sect);
        GrewNot(t, chain);
      }
      clust := next;
    }

    /** count steps along the chain from its k-th cluster, expanding it as needed. */
    method Follow(count: nat, ghost k: nat) returns (err: int)
      requires fat.Valid() && Owns() && k < |chain| && clust == chain[k]
      modifies this`clust, this`chain, fat, fat.buf
      ensures fat.Valid() && WellFormed(fat.T())
      ensures SameData(fat.g, old(fat.L()), fat.L())
      ensures err == ERR_NONE ==>
        && Owns() && k + count < |chain| && clust == chain[k + count]
        && old(chain) <= chain && |chain| == (if k + count < old(|chain|) then old(|chain|) else k + count + 1)
        && OnlyGrew(old(fat.T()), fat.T(), old(chain), chain) && fat.Kept(old(fat.Drift()), old(fat.MirrorAgrees()))
    {
      hide Fat.Valid, Fat.L, Fat.T, Fat.Drift, Fat.MirrorAgrees, Geometry.Fits, Chains.WellFormed, Chains.IsChain, Layout.Owned, Layout.OnlyGrew, Layout.Sectors;
      ghost var t0, l0, c0, d0, m0 := fat.T(), fat.L(), chain, fat.Drift(), fat.MirrorAgrees();
      err := ERR_NONE;
      OwnedParts(fat.g, t0, chain, sclust, fat.sect, dirSect, dirClust);
      GrewNot(t0, chain);
      for i := 0 to count
        invariant err == ERR_NONE && fat.Valid() && Owns() && WellFormed(fat.T())
        invariant SameData(fat.g, l0, fat.L())
        invariant k + i < |chain| && clust == chain[k + i]
        invariant c0 <= chain && |chain| == if k + i < |c0| then |c0| else k + i + 1
        invariant OnlyGrew(t0, fat.T(), c0, chain) && fat.Kept(d0, m0)
      {
        ghost var t1, c1 := fat.T(), chain;
        OwnedParts(fat.g, t1, c1, sclust, fat.sect, dirSect, dirClust);
        err := Advance(k + i);
        if err != ERR_NONE {
          return;
        }
        OwnedParts(fat.g, fat.T(), chain, sclust, fat.sect, dirSect, dirClust);
        ChainGrewTwice(t0, t1, fat.T(), c0, c1, chain);
      }
    }

    /**
     Puts the cursor at off, which lies in the current cluster. When that is another sector than
     ssect, the buffer is written back if dirty and refilled.
     */
    method Settle(off: nat, ssect: nat) returns (err: int)
      requires fat.Valid() && Owns() && buf.Length == 512 && buf != fat.buf && off < WORD
      requires Clusters(fat.g, chain) && 1 <= fat.g.spc
      requires Quot(off, 512 * fat.g.spc) < |chain| && clust == chain[Quot(off, 512 * fat.g.spc)]
      requires if ssect == NOWHERE then !dirty else ssect in Secs() && ssect < |fat.disk| && (dirty || buf[..] == fat.L()[ssect])
      modifies this`sect, this`offset, this`dirty, buf, fat`disk
      ensures fat.Valid() && fat.T() == old(fat.T()) && fat.Kept(old(fat.Drift()), old(fat.MirrorAgrees()))
      ensures err == ERR_NONE ==>
        && Owns() && AtCursor() && offset == off && sect != NOWHERE
        && Overlaid(fat.L(), dirty, sect, buf[..]) == old(Overlaid(fat.L(), dirty, ssect, buf[..]))
    {
      hide Fat.Valid, Fat.L, Fat.T, Fat.Drift, Fat.MirrorAgrees, Geometry.Fits, Chains.WellFormed, Chains.IsChain, Layout.Owned, Layout.OnlyGrew, Layout.Sectors, Layout.Clusters, Volume.Times, Volume.Quot;
      Facts();
      SectorOfOffset(fat.g, chain, off, 512 * fat.g.spc);
      sect := fat.g.ClustToSect(clust) + (off / 512) % fat.g.spc;
      offset := off;
      if sect != ssect {
        if dirty {
          var ok := fat.WriteThrough(buf, ssect);
          if !ok {
            return ERR_IO;
          }
          dirty := false;
        }
        var ok := fat.ReadThrough(buf, sect);
        if !ok {
          return ERR_IO;
        }
      }
      return ERR_NONE;
    }

    /** The offset a seek asks for. */
    function Target(delta: int, whence: Whence): (t: int)
      reads this`offset, this`size
      ensures whence == SeekStart ==> t == delta
      ensures whence == SeekCurr ==> t == offset + delta
      ensures whence == SeekEnd ==> t == size + delta
    {
      delta + match whence case SeekStart => 0 case SeekCurr => offset case SeekEnd => size
    }

    /**
     Moves the cursor, extending the chain when the target lies past its last cluster. No data
     sector changes as this handle sees them.
     */
    method Seek(delta: int, whence: Whence) returns (err: int)
      requires Valid()
      modifies this`clust, this`sect, this`offset, this`dirty, this`chain, buf, fat, fat.buf
      ensures fat.Valid()
      ensures old(Target(delta, whence)) < 0 || WORD <= old(Target(delta, whence)) ==>
        err == ERR_EOF && Valid() && offset == old(offset) && sect == old(sect) && chain == old(chain) && View() == old(View())
      ensures err == ERR_NONE ==>
        && Ready() && Valid() && offset == old(Target(delta, whence))
        && |chain| == (if Quot(offset, 512 * fat.g.spc) < old(|chain|) then old(|chain|) else Quot(offset, 512 * fat.g.spc) + 1)
        && Keeps(old(Now()))
    {
      hide Fat.Valid, Fat.L, Fat.T, Fat.Drift, Fat.MirrorAgrees, Geometry.Fits, Layout.Owned, Layout.OnlyGrew, Layout.Sectors, Layout.Clusters, AtCursor, Volume.Quot;
      var base := match whence case SeekStart => 0 case SeekCurr => offset case SeekEnd => size;
      var off := base + delta;
      if off < 0 || 0xffff_ffff < off {
        return ERR_EOF;
      }
      err := Reach(off);
    }

    /** Goes to the cluster of an offset, from the start of the chain when it lies behind. ssect is the sector that is buffered. */
    method Approach(off: nat) returns (err: int, ssect: nat)
      requires Valid() && off < WORD
      modifies this`clust, this`sect, this`offset, this`chain, fat, fat.buf
      ensures fat.Valid() && ssect == old(sect)
      ensures err == ERR_NONE ==>
        && Owns() && 1 <= fat.g.spc && Clusters(fat.g, chain) && Quot(off, 512 * fat.g.spc) < |chain| && clust == chain[Quot(off, 512 * fat.g.spc)]
        && (if ssect == NOWHERE then !dirty else ssect in Secs() && ssect < |fat.disk| && (dirty || buf[..] == fat.L()[ssect]))
        && |chain| == (if Quot(off, 512 * fat.g.spc) < old(|chain|) then old(|chain|) else Quot(off, 512 * fat.g.spc) + 1)
        && SameData(fat.g, old(View()), Overlaid(fat.L(), dirty, ssect, buf[..])) && old(Secs()) <= Secs()
        && OnlyGrew(old(fat.T()), fat.T(), old(chain), chain) && fat.Kept(old(fat.Drift()), old(fat.MirrorAgrees()))
    {
      hide Fat.Valid, Fat.L, Fat.T, Fat.Kept, Fat.Drift, Fat.MirrorAgrees, Volume.Overlaid, Geometry.Fits, Chains.WellFormed, Chains.IsChain, Layout.Owned, Layout.OnlyGrew, Layout.Sectors, Layout.Clusters,
           Volume.Times, Volume.Quot;
      Facts();
      ssect := sect;
      var clustSize := 512 * fat.g.spc;
      QuotZero(clustSize);
      ghost var l0, c0 := fat.L(), chain;
      var dst, src := Quot(off, clustSize), Quot(offset, clustSize);
      if dst < src {
        clust := sclust;
        sect := fat.g.ClustToSect(sclust);
        offset := 0;
        src := 0;
      }
      err := Follow(dst - src, src);
      if err != ERR_NONE {
        return;
      }
      Facts();
      SectorsPrefix(fat.g, c0, chain);
      OverlaidSame(fat.g, l0, fat.L(), dirty, ssect, buf[..]);
    }

    /** The part of a seek that follows the check of the target. */
    method Reach(off: nat) returns (err: int)
      requires Valid() && off < WORD
      modifies this`clust, this`sect, this`offset, this`dirty, this`chain, buf, fat, fat.buf
      ensures fat.Valid()
      ensures err == ERR_NONE ==>
        && Ready() && Valid() && offset == off
        && |chain| == (if Quot(offset, 512 * fat.g.spc) < old(|chain|) then old(|chain|) else Quot(offset, 512 * fat.g.spc) + 1)
        && Keeps(old(Now()))
    {
      hide Fat.Valid, Fat.L, Fat.T, Fat.Drift, Fat.MirrorAgrees, Geometry.Fits, Chains.WellFormed, Chains.IsChain, Layout.Owned, Layout.OnlyGrew, Layout.Sectors,
           Layout.Clusters, Volume.Times, Volume.Quot, Volume.SameData, Volume.Overlaid, Keeps, Grew, Now, Data, Ready;
      var ssect;
      err, ssect := Approach(off);
      if err != ERR_NONE {
        return;
      }
      err := Settle(off, ssect);
      if err == ERR_NONE {
        DataKept();
      }
    }

    // -------------------------------------------------------------- reading

    /** When the chain only grew and no data sector changed, no byte of the file did. */
    twostate lemma DataKept()
      requires old(Valid()) && Valid() && sect != NOWHERE
      requires old(Secs()) <= Secs() && OnlyGrew(old(fat.T()), fat.T(), old(chain), chain)
      requires SameData(fat.g, old(View()), View()) && fat.Kept(old(fat.Drift()), old(fat.MirrorAgrees()))
      ensures Ready() && Keeps(old(Now()))
    {
      hide Fat.Valid, Fat.L, Fat.T, Fat.Drift, Fat.MirrorAgrees, Geometry.Fits, Chains.WellFormed, Chains.IsChain, Layout.Owned, Layout.Sectors, Layout.Clusters,
           Layout.Content, Volume.Overlaid, Layout.OnlyGrew;
      Facts();
      ContentGrows(fat.g, old(View()), View(), old(Secs()), Secs());
    }

    /** What lies under the cursor is what the buffer holds. */
    lemma UnderCursor(cnt: nat)
      requires Valid() && sect != NOWHERE && offset % 512 + cnt <= 512
      ensures offset + cnt <= |Data()|
      ensures Data()[offset..offset + cnt] == buf[offset % 512..offset % 512 + cnt]
      ensures View()[sect] == buf[..]
    {
      hide Fat.Valid, Fat.L, Fat.T, Geometry.Fits, Chains.WellFormed, Chains.IsChain, Layout.Owned, Layout.Sectors, Layout.Clusters, Layout.Content, Volume.Quot;
      Facts();
      ContentOfSector(View(), Secs(), offset, cnt);
      assert View()[sect] == buf[..];
      assert buf[..][offset % 512..offset % 512 + cnt] == buf[offset % 512..offset % 512 + cnt];
    }

    static function Min(a: int, b: int): (m: int)
      ensures m <= a && m <= b && (m == a || m == b)
    {
      if a < b then a else b
    }

    /** How many bytes a read of len bytes can deliver. */
    function Readable(len: nat): (n: nat)
      reads this`offset, this`size
      ensures n <= len && (0 < n ==> offset + n <= size) && (n == len || size <= offset + n)
    {
      if offset < size then Min(len, size - offset) else 0
    }

    /** One round of reading: copies cnt bytes of the buffered sector to dst and moves the cursor behind them. */
    method ReadPart(dst: array<Byte>, at: nat, cnt: nat,
                    ghost b: Snapshot, ghost dst0: seq<Byte>, ghost o: nat)
      returns (err: int)
      requires Ready() && Keeps(b) && at + cnt <= dst.Length && dst != buf && dst != fat.buf
      requires offset % 512 + cnt <= 512 && offset == o + at && offset + cnt <= |b.data|
      requires Delivered(dst[..], dst0, b.data, o, at)
      modifies this`clust, this`sect, this`offset, this`dirty, this`chain, buf, fat, fat.buf, dst
      ensures fat.Valid() && Delivered(dst[..], dst0, b.data, o, at + cnt)
      ensures err == ERR_NONE ==> Ready() && offset == old(offset) + cnt && Keeps(b)
    {
      hide Fat.Valid, Fat.L, Fat.T, Geometry.Fits, Layout.Owned, Layout.OnlyGrew, Layout.Sectors, Layout.Clusters, Layout.Content,
           Volume.Quot, Owns, AtCursor, View, Secs, Data, Valid, Volume.SameData, Layout.Delivered;
      ReadyMeans();
      UnderCursor(cnt);
      DeliveredMeans(dst[..], dst0, b.data, o, at);
      ghost var d, x, now := Data(), dst[..], Now();
      KeepsMeans(b);
      NowMeans();
      var idx := offset % 512;
      assert buf[idx..idx + cnt] == d[o + at..o + at + cnt];
      forall i | 0 <= i < cnt { dst[at + i] := buf[idx + i]; }
      assert dst[..] == x[..at] + buf[idx..idx + cnt] + x[at + cnt..];
      DeliveredMore(x, dst[..], dst0, b.data, d, o, at, cnt);
      err := Seek(cnt, SeekCurr);
      if err == ERR_NONE {
        KeepsTwice(b, now);
      }
    }

    /** Copies up to len bytes from the cursor on, never past the size, and moves the cursor behind them. */
    method Read(dst: array<Byte>, len: nat) returns (err: int, bytes: nat)
      requires Ready() && len <= dst.Length && dst != buf && dst != fat.buf
      modifies this`clust, this`sect, this`offset, this`dirty, this`chain, this`accessed, buf, fat, fat.buf, dst
      ensures fat.Valid() && bytes <= old(Readable(len))
      ensures Delivered(dst[..], old(dst[..]), old(Data()), old(offset), bytes)
      ensures !canRead ==> err == ERR_DENIED && bytes == 0 && Ready() && offset == old(offset) && Data() == old(Data())
      ensures canRead && err == ERR_NONE ==>
        && Ready() && accessed
        && bytes == old(Readable(len)) && offset == old(offset) + bytes
        && Keeps(old(Now()))
    {
      hide *;
      ReadyMeans();
      KeepsSelf();
      NowMeans();
      bytes := 0;
      UnderCursor(0);
      DeliveredNone(dst[..], Data(), offset);
      if !canRead {
        return ERR_DENIED, bytes;
      }
      accessed := true;
      ghost var o, b, dst0 := offset, Now(), dst[..];
      var left := len;
      while 0 < left && offset < size
        invariant Ready() && Valid() && accessed && fat.Valid() && Keeps(b)
        invariant bytes + left == len && 0 <= left && offset == o + bytes && (0 < bytes ==> offset <= size) && size <= |b.data|
        invariant Delivered(dst[..], dst0, b.data, o, bytes)
        decreases left
      {
        ReadyMeans();
        var cnt := Min(left, Min(512 - offset % 512, size - offset));
        err := ReadPart(dst, bytes, cnt, b, dst0, o);
        bytes := bytes + cnt;
        left := left - cnt;
        if err != ERR_NONE {
          return;
        }
        ReadyMeans();
      }
      return ERR_NONE, bytes;
    }

    lemma KeepsMeans(b: Snapshot)
      requires Valid() && Keeps(b)
      ensures Grew(b) && SameData(fat.g, b.view, View()) && b.data <= Data()
      ensures Now().t == fat.T() && Now().chain == chain && Now().view == View() && Now().secs == Secs() && Now().data == Data()
      ensures Now().drift == fat.Drift() == b.drift && Now().mirror == fat.MirrorAgrees() && (b.mirror ==> Now().mirror)
    {
    }

    /** Keeping before b' and since b' composes. */
    lemma KeepsTwice(b: Snapshot, b': Snapshot)
      requires Valid() && Keeps(b') && OnlyGrew(b.t, b'.t, b.chain, b'.chain) && b.secs <= b'.secs
      requires |b'.t| <= BAD && IsChain(b'.t, b'.chain)
      requires SameData(fat.g, b.view, b'.view) && b.data <= b'.data && b'.drift == b.drift && (b.mirror ==> b'.mirror)
      ensures Keeps(b)
    {
      hide Fat.Valid, Fat.L, Fat.T, Layout.OnlyGrew, View, Secs, Data, Valid, Chains.IsChain;
      KeepsMeans(b');
      GrewTwice(b, b');
      SameDataTwice(fat.g, b.view, b'.view, View());
    }

    lemma ReadyMeans()
      requires Ready()
      ensures Valid() && sect != NOWHERE && fat.Valid() && buf.Length == 512 && buf != fat.buf
      ensures offset < WORD && size < WORD && size <= |Data()| && (dirty ==> sect < |fat.disk|)
      ensures Owns()
    {
    }

    lemma ValidMeans()
      requires Valid()
      ensures fat.Valid() && buf.Length == 512 && buf != fat.buf && dirIdx % 32 == 0 && dirIdx + 32 <= 512
      ensures offset < WORD && size < WORD && size <= |Data()| && (dirty ==> sect < |fat.disk|)
      ensures Owns()
    {
    }

    // -------------------------------------------------------------- writing

    /** The file holds d from o on; every other byte of its clusters, and every other data sector, is as in b. */
    ghost predicate Holds(b: Snapshot, o: nat, d: seq<Byte>)
      requires Valid()
      reads this`clust, this`sect, this`size, this`offset, this`dirty, this`chain, buf, fat, fat.buf
    {
      Grew(b) && Patched(fat.g, b.view, View(), Secs(), o, d)
    }

    /** The view after d is put over the bytes of the buffered sector from the cursor on. */
    ghost function Overwritten(d: seq<Byte>): seq<Sector>
      requires Ready() && offset % 512 + |d| <= 512
      reads this`clust, this`sect, this`size, this`offset, this`dirty, this`chain, buf, fat, fat.buf
    {
      View()[sect := Spliced(View()[sect], offset % 512, d)]
    }

    /** Copies bytes over part of the buffered sector. */
    method Overwrite(src: array<Byte>, at: nat, cnt: nat, ghost d: seq<Byte>)
      requires Ready() && at + cnt <= src.Length && src != buf && src != fat.buf && offset % 512 + cnt <= 512
      requires |d| == cnt && d == src[at..at + cnt]
      modifies this`dirty, buf
      ensures Ready() && dirty
      ensures View() == old(Overwritten(d)) && Secs() == old(Secs())
    {
      hide Fat.Valid, Fat.L, Fat.T, Geometry.Fits, Layout.Owned, Layout.Sectors, Layout.Clusters, Volume.Quot;
      UnderCursor(cnt);
      var idx := offset % 512;
      ghost var v, b := View(), buf[..];
      forall i | 0 <= i < cnt { buf[idx + i] := src[at + i]; }
      dirty := true;
      assert buf[..] == Spliced(b, idx, d);
    }

    /** One round of writing: copies cnt bytes into the buffered sector and moves the cursor behind them. */
    method WritePart(src: array<Byte>, at: nat, cnt: nat, ghost b: Snapshot, ghost o: nat)
      returns (err: int)
      requires at + cnt <= src.Length && Ready() && Holds(b, o, src[..at])
      requires src != buf && src != fat.buf && offset % 512 + cnt <= 512 && offset == o + at
      modifies this`clust, this`sect, this`offset, this`dirty, this`chain, buf, fat, fat.buf
      ensures fat.Valid()
      ensures err == ERR_NONE ==> Ready() && offset == old(offset) + cnt && Holds(b, o, src[..at + cnt])
    {
      hide Fat.Valid, Fat.L, Fat.T, Geometry.Fits, Layout.Owned, Layout.OnlyGrew, Layout.Sectors, Layout.Clusters, Layout.Content,
           Volume.Quot, Owns, View, Secs, Data, Valid, Volume.SameData, Layout.Patched, Layout.Spliced, Layout.Distinct, Layout.OnDisk;
      ReadyMeans();
      CursorSector();
      Facts();
      ghost var v, secs, d, e := View(), Secs(), src[..at], src[at..at + cnt];
      UnderCursor(cnt);
      Overwrite(src, at, cnt, e);
      PatchedStep(fat.g, b.view, v, secs, o, d, Spliced(v[sect], offset % 512, e), e);
      ghost var v1, now := View(), Now();
      NowMeans();
      GrewMeans(b);
      ReadyMeans();
      err := Seek(cnt, SeekCurr);
      if err == ERR_NONE {
        ReadyMeans();
        Facts();
        assert d + e == src[..at + cnt];
        SameDataMeans(fat.g, v1, View());
        GrewTwice(b, now);
        PatchedGrows(fat.g, b.view, v1, View(), secs, Secs(), o, d + e);
      }
    }

    lemma CursorSector()
      requires Ready()
      ensures offset < 512 * |Secs()| && sect == Secs()[offset / 512] && sect < |fat.disk|
      ensures Owns()
    {
    }

    /** The size follows the cursor when a write ended past it. */
    method GrowSize()
      requires fat.Valid()
      modifies this`size
      ensures size == if old(size) < offset then offset else old(size)
      ensures old(Ready()) ==> Ready() && View() == old(View()) && Secs() == old(Secs()) && Data() == old(Data())
    {
      hide Fat.Valid, Fat.L, Fat.T, Layout.Owned, Layout.Sectors, Layout.Clusters, Layout.Content, Volume.Quot;
      if size < offset {
        size := offset;
      }
    }

    lemma HoldsStart()
      requires Ready()
      ensures Holds(Now(), offset, [])
    {
      Facts();
      PatchedStart(fat.g, View(), Secs(), offset);
    }

    /** What has been written reads back; every other byte of the old file and every foreign sector is kept. */
    lemma HoldsMeans(b: Snapshot, o: nat, d: seq<Byte>)
      requires Valid() && Holds(b, o, d) && OnDisk(b.secs, |b.view|) && b.data == Content(b.view, b.secs)
      ensures o + |d| <= |Data()| && Data()[o..o + |d|] == d
      ensures |b.data| <= |Data()| && |b.view| == |View()|
      ensures forall k :: 0 <= k < |b.data| && !(o <= k < o + |d|) ==> Data()[k] == b.data[k]
      ensures forall s :: fat.g.dataSect <= s < |b.view| && s !in Secs() ==> View()[s] == b.view[s]
    {
      hide Fat.Valid, Fat.L, Fat.T, Layout.Owned, Layout.Sectors, Layout.Clusters, Layout.Content, Volume.Quot, Layout.OnlyGrew, Valid, View, Secs;
      ValidMeans();
      Facts();
      PatchedOld(fat.g, b.view, View(), b.secs, Secs(), o, d);
    }

    lemma DataNow()
      requires Valid()
      ensures Now() == Snapshot(fat.T(), chain, View(), Secs(), Data(), fat.Drift(), fat.MirrorAgrees())
    {
    }

    lemma NowMeans()
      requires Valid()
      ensures OnDisk(Now().secs, |Now().view|) && Now().data == Content(Now().view, Now().secs) && Now().data == Data()
      ensures IsChain(Now().t, Now().chain) && |Now().t| <= BAD
    {
      hide Fat.Valid, Fat.L, Fat.T, Layout.Sectors, Layout.Clusters, Layout.Content, Volume.Quot, View, Secs;
      Facts();
      OwnedParts(fat.g, fat.T(), chain, sclust, fat.sect, dirSect, dirClust);
    }

    /**
     Writes len bytes at the cursor, allocating clusters as needed. e is the error of the seek that
     stopped the loop: the source drops it and reports success either way.
     */
    method Write(src: array<Byte>, len: nat) returns (err: int, bytes: nat, e: int)
      requires Ready() && len <= src.Length && src != buf && src != fat.buf
      modifies this`clust, this`sect, this`size, this`offset, this`dirty, this`chain, this`accessed, this`modified, buf, fat, fat.buf
      ensures fat.Valid()
      ensures !canWrite ==>
        err == ERR_DENIED && bytes == 0 && Ready() && offset == old(offset) && size == old(size) && Data() == old(Data())
      ensures canWrite ==> err == ERR_NONE && modified && accessed
      ensures canWrite && e == ERR_NONE ==>
        && bytes == len && Ready() && offset == old(offset) + len
        && size == (if old(size) < offset then offset else old(size))
        && Holds(old(Now()), old(offset), src[..len])
    {
      hide Fat.Valid, Fat.L, Fat.T, Fat.Drift, Fat.MirrorAgrees, Geometry.Fits, Layout.Owned, Layout.OnlyGrew, Layout.Sectors, Layout.Clusters, Layout.Content,
           Volume.Quot, Owns, View, Secs, Data, Valid, Volume.SameData, Layout.Patched, Layout.Spliced, Layout.Distinct, Layout.OnDisk,
           Ready, AtCursor;
      ReadyMeans();
      HoldsStart();
      bytes, e := 0, ERR_NONE;
      if !canWrite {
        return ERR_DENIED, bytes, e;
      }
      modified, accessed := true, true;
      ghost var o, b := offset, Now();
      var left := len;
      assert src[..0] == [];
      while 0 < left
        invariant e == ERR_NONE && size == old(size) && Ready() && Valid() && modified && accessed && fat.Valid()
        invariant bytes + left == len && 0 <= left && offset == o + bytes
        invariant Holds(b, o, src[..bytes])
        decreases left
      {
        var cnt := Min(left, 512 - offset % 512);
        e := WritePart(src, bytes, cnt, b, o);
        bytes := bytes + cnt;
        left := left - cnt;
        if e != ERR_NONE {
          break;
        }
        ReadyMeans();
      }
      GrowSize();
      if e == ERR_NONE {
        ReadyMeans();
      }
      return ERR_NONE, bytes, e;
    }

    // -------------------------------------------------------------- synchronising

    /** The sector of the directory entry. */
    ghost function DirSector(): Sector
      requires Valid()
      reads this`clust, this`sect, this`size, this`offset, this`dirty, this`chain, buf, fat, fat.buf
    {
      Facts();
      View()[dirSect]
    }

    /** That sector with the entry brought up to date. */
    ghost function StampedDir(date: Half, time: Half): Sector
      requires Valid()
      reads this`clust, this`sect, this`size, this`offset, this`dirty, this`chain, this`accessed, this`modified, buf, fat, fat.buf
    {
      Stamped(DirSector(), dirIdx, accessed, modified, size, date, time)
    }

    /** The buffer always shows what the view says of its sector. */
    lemma ViewAtCursor()
      requires Ready()
      ensures sect < |fat.disk| && sect in Secs() && View() == fat.L()[sect := buf[..]] && View()[sect] == buf[..]
    {
      hide Fat.Valid, Fat.L, Fat.T, Layout.Owned, Layout.Sectors, Layout.Clusters, Volume.Quot;
    }

    /** The volume changed outside the file's sectors only, and shows the buffered sector. */
    twostate lemma StillReady()
      requires old(Ready()) && fat.Valid()
      requires offset == old(offset) && sect == old(sect) && size == old(size) && dirty == old(dirty) && clust == old(clust)
      requires chain == old(chain) && buf[..] == old(buf[..])
      requires fat.T() == old(fat.T()) && fat.sect !in Secs() && |fat.disk| == old(|fat.disk|)
      requires forall s :: 0 <= s < |fat.disk| && s in Secs() ==> fat.L()[s] == old(View())[s]
      ensures Ready() && Secs() == old(Secs()) && Data() == old(Data()) && View() == fat.L()
    {
      hide Fat.Valid, Fat.L, Fat.T, Layout.Sectors, Layout.Clusters, Volume.Quot, Layout.Content, Chains.WellFormed, Chains.IsChain;
      Facts();
      ContentSame(old(View()), fat.L(), Secs());
      assert Overlaid(fat.L(), dirty, sect, buf[..]) == fat.L();
    }

    /** Brings the directory entry up to date in the volume buffer. */
    method SyncEntry(date: Half, time: Half) returns (err: int)
      requires fat.Valid() && fat.g.dataSect <= dirSect < |fat.disk| && dirIdx + 32 <= 512
      modifies fat, fat.buf
      ensures fat.Valid() && |fat.disk| == old(|fat.disk|) && fat.T() == old(fat.T()) && fat.Kept(old(fat.Drift()), old(fat.MirrorAgrees()))
      ensures err != ERR_NONE ==> fat.sect == old(fat.sect) && fat.L() == old(fat.L())
      ensures err == ERR_NONE ==> fat.sect == dirSect
      ensures err == ERR_NONE ==>
        fat.L() == old(fat.L())[dirSect := Stamped(old(fat.L())[dirSect], dirIdx, accessed, modified, size, date, time)]
    {
      hide Fat.L, Fat.T, Entries.Stamped;
      fat.Fits();
      err := fat.UpdateBuf(dirSect);
      if err != ERR_NONE {
        return;
      }
      fat.StampBuf(dirIdx, accessed, modified, size, date, time);
    }

    /** Brings the directory entry up to date when the file was used, and writes the volume back. */
    method Flush(date: Half, time: Half) returns (err: int)
      requires fat.Valid() && fat.g.dataSect <= dirSect < |fat.disk| && dirIdx + 32 <= 512
      modifies fat, fat.buf
      ensures fat.Valid() && |fat.disk| == old(|fat.disk|) && fat.T() == old(fat.T()) && fat.Kept(old(fat.Drift()), old(fat.MirrorAgrees()))
      ensures fat.sect == old(fat.sect) || fat.sect == dirSect || fat.sect < fat.g.dataSect
      ensures err == ERR_NONE ==> fat.disk == fat.L()
      ensures err == ERR_NONE && (accessed || modified) ==>
        fat.L()[dirSect] == Stamped(old(fat.L())[dirSect], dirIdx, accessed, modified, size, date, time)
      ensures err == ERR_NONE && !accessed && !modified ==> fat.L()[dirSect] == old(fat.L())[dirSect]
      ensures forall s :: fat.g.dataSect <= s < |fat.disk| && s != dirSect ==> fat.L()[s] == old(fat.L())[s]
    {
      hide Fat.Valid, Fat.L, Fat.T, Fat.Info, Fat.Flushed, Entries.Stamped, Fat.MirrorAgrees;
      fat.Fits();
      if accessed || modified {
        err := SyncEntry(date, time);
        if err != ERR_NONE {
          return;
        }
      }
      err := fat.SyncFs();
    }

    /**
     Writes everything back: the file's buffer, its directory entry when the file was used, and the
     volume. On success the device itself carries the file's bytes and its size.
     */
    method Sync(date: Half, time: Half) returns (err: int)
      requires Ready()
      modifies this`accessed, this`modified, fat, fat.buf
      ensures fat.Valid()
      ensures err == ERR_NONE ==>
        && Ready() && !accessed && !modified
        && Secs() == old(Secs()) && Data() == old(Data()) && View() == fat.disk
        && fat.T() == old(fat.T()) && fat.Kept(old(fat.Drift()), old(fat.MirrorAgrees()))
        && SameDataBut(fat.g, old(View()), View(), dirSect)
        && DirSector() == (if old(accessed || modified) then old(StampedDir(date, time)) else old(DirSector()))
    {
      hide Fat.Valid, Fat.L, Fat.T, Fat.Info, Fat.Flushed, Fat.MirrorAgrees, Geometry.Fits, Layout.Owned, Layout.Sectors, Layout.Clusters, Layout.Content,
           Volume.Quot, Owns, View, Secs, Data, Valid, AtCursor, Volume.Overlaid, Entries.Stamped;
      ReadyMeans();
      ViewAtCursor();
      Facts();
      var ok := fat.WriteThrough(buf, sect);
      if !ok {
        return ERR_IO;
      }
      assert fat.L() == old(View());
      err := Flush(date, time);
      if err != ERR_NONE {
        return;
      }
      accessed, modified := false, false;
      StillReady();
    }
  }

  /** What a handle writes is what it reads back from the same place. */
  method WriteThenRead(f: File, src: array<Byte>, dst: array<Byte>, len: nat) returns (ok: bool)
    requires f.Ready() && f.canRead && f.canWrite && len <= src.Length && len <= dst.Length
    requires src != f.buf && src != f.fat.buf && dst != f.buf && dst != f.fat.buf && src != dst
    modifies f, f.buf, f.fat, f.fat.buf, dst
    ensures ok ==> dst[..len] == src[..len] && f.Ready() && f.offset == old(f.offset) + len
  {
    hide *;
    f.ReadyMeans();
    f.NowMeans();
    var o := f.offset;
    ghost var b, d := f.Now(), src[..len];
    var err, bytes, e := f.Write(src, len);
    if e != ERR_NONE {
      return false;
    }
    f.ReadyMeans();
    f.HoldsMeans(b, o, d);
    ghost var now := f.Now();
    f.NowMeans();
    ghost var dst0 := dst[..];
    err := f.Seek(o, SeekStart);
    if err != ERR_NONE {
      return false;
    }
    f.ReadyMeans();
    f.KeepsMeans(now);
    ghost var d1 := f.Data();
    assert d1[o..o + len] == d;
    err, bytes := f.Read(dst, len);
    DeliveredPrefix(dst[..], dst0, d1, o, bytes);
    ok := err == ERR_NONE;
  }
}
