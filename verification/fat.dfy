/** The volume handle: write-back buffer, allocation table and cluster allocator. */
module FatFs {
  import opened Bytes
  import opened Chains
  import opened Volume
  import opened Entries
  import opened Names
  import opened Slots

  const ERR_NONE := 0
  const ERR_BROKEN := -2
  const ERR_IO := -3
  const ERR_PARAM := -4
  const ERR_EOF := -6
  const ERR_DENIED := -7
  const ERR_FULL := -8

  /** The flag byte that get_fat reports for an entry. */
  function FlagByte(k: Link): Byte {
    match k
    case Free => 1
    case Used => 2
    case Last => 6
    case Bad => 8
    case Invalid => 0
  }

  class Fat {
    const g: Geometry
    // The device behind ops.read and ops.write.
    var disk: seq<Sector>
    // The one-sector buffer and the number of the sector it holds (0 before the first use).
    const buf: array<Byte>
    var sect: nat
    var bufDirty: bool
    var infoDirty: bool
    var lastUsed: nat
    var freeCnt: nat

    ghost predicate Valid()
      reads this, buf
    {
      && g.Fits(|disk|)
      && buf.Length == 512
      && sect < |disk|
      && (bufDirty ==> 0 < sect)
      && (bufDirty || sect == 0 || buf[..] == disk[sect])
      && InTableRange(lastUsed)
      && freeCnt < WORD
    }

    predicate InTableRange(c: nat) {
      2 <= c < g.clustCnt
    }

    /** The logical disk: the device overlaid by the buffer when it is dirty. */
    ghost function L(): (l: seq<Sector>)
      requires Valid()
      reads this, buf
      ensures |l| == |disk|
    {
      if bufDirty then disk[sect := buf[..]] else disk
    }

    /** The active table and its mirror. */
    ghost function T(): (t: Table)
      requires Valid()
      reads this, buf
      ensures |t| == g.clustCnt
    {
      TableAt(L(), g.fatSect0, g.clustCnt)
    }

    /** The information sector. */
    ghost function Info(): Sector
      requires Valid()
      reads this, buf
    {
      L()[g.infoSect]
    }

    ghost predicate MirrorAgrees()
      requires Valid()
      reads this, buf
    {
      Mirrors(g, L())
    }

    lemma Fits()
      requires Valid()
      ensures g.Fits(|disk|) && 1 <= g.spc && |T()| == g.clustCnt && g.clustCnt <= BAD && |disk| < WORD
      ensures 0 < g.infoSect < g.dataSect
    {
    }

    lemma BufferLength()
      requires Valid()
      ensures buf.Length == 512
    {
    }

    /** How far the counter is from the number of free entries, modulo 2^32. */
    ghost function Drift(): (d: int)
      requires Valid()
      reads this, buf
      ensures 0 <= d < WORD
    {
      Gap(freeCnt, FreeCount(T()))
    }

    /** The counter is off by d, and the tables agree if m says that they did. */
    ghost predicate Kept(d: int, m: bool)
      requires Valid()
      reads this, buf
    {
      Drift() == d && (m ==> MirrorAgrees())
    }

    /** The mounted handle over a device; the buffer holds nothing yet. */
    constructor (g: Geometry, disk: seq<Sector>, lastUsed: nat, freeCnt: nat)
      requires g.Fits(|disk|) && 2 <= lastUsed < g.clustCnt && freeCnt < WORD
      ensures Valid() && fresh(buf) && this.g == g
      ensures L() == disk && this.disk == disk && this.lastUsed == lastUsed && this.freeCnt == freeCnt
    {
      this.g, this.disk, this.lastUsed, this.freeCnt := g, disk, lastUsed, freeCnt;
      buf := new Byte[512](_ => 0);
      sect, bufDirty, infoDirty := 0, false, false;
    }

    // -------------------------------------------------------------- the device

    /** ops.read: fills the target on success and leaves it alone on failure. */
    method ReadSector(target: array<Byte>, s: nat) returns (ok: bool)
      requires target.Length == 512
      modifies target
      ensures ok ==> s < |disk| && target[..] == disk[s]
      ensures !ok ==> target[..] == old(target[..])
    {
      ok := *;
      if |disk| <= s {
        ok := false;
      }
      if ok {
        forall i | 0 <= i < 512 { target[i] := disk[s][i]; }
      }
    }

    /** ops.write: on failure the addressed sector may hold anything. */
    method WriteSector(source: array<Byte>, s: nat) returns (ok: bool)
      requires source.Length == 512
      modifies this`disk
      ensures |disk| == old(|disk|)
      ensures ok ==> s < |disk| && disk == old(disk)[s := source[..]]
      ensures forall i :: 0 <= i < |disk| && i != s ==> disk[i] == old(disk)[i]
    {
      ok := *;
      if |disk| <= s {
        ok := false;
      } else if ok {
        disk := disk[s := source[..]];
      } else {
        var junk: Sector := *;
        disk := disk[s := junk];
      }
    }

    /** A read past the buffer: it sees the logical disk as long as the buffer holds another sector. */
    method ReadThrough(target: array<Byte>, s: nat) returns (ok: bool)
      requires Valid() && target.Length == 512 && target != buf && sect != s
      modifies target
      ensures Valid() && L() == old(L())
      ensures ok ==> s < |disk| && target[..] == L()[s]
      ensures !ok ==> target[..] == old(target[..])
    {
      ok := ReadSector(target, s);
    }

    /** A write past the buffer: it changes one sector of the logical disk, the buffer holding another one. */
    method WriteThrough(source: array<Byte>, s: nat) returns (ok: bool)
      requires Valid() && source.Length == 512 && sect != s
      modifies this`disk
      ensures Valid() && |disk| == old(|disk|)
      ensures ok ==> s < |disk| && L() == old(L())[s := source[..]]
      ensures g.dataSect <= s ==> T() == old(T()) && Drift() == old(Drift())
      ensures g.dataSect <= s && old(MirrorAgrees()) ==> MirrorAgrees()
      ensures forall i :: 0 <= i < |disk| && i != s ==> L()[i] == old(L())[i]
    {
      hide Volume.TableAt;
      ok := WriteSector(source, s);
      if g.dataSect <= s {
        TablesUntouched(g, old(L()), L());
      }
    }

    // -------------------------------------------------------------- the write-back buffer

    /** Writes the buffer back when it is dirty. The logical disk never changes. */
    method SyncBuf() returns (err: int)
      requires Valid()
      modifies this`disk, this`bufDirty
      ensures Valid() && L() == old(L()) && T() == old(T())
      ensures err == ERR_NONE || err == ERR_IO
      ensures err == ERR_NONE ==> !bufDirty && disk == L()
      ensures err == ERR_IO ==> bufDirty && old(bufDirty)
    {
      if bufDirty {
        var ok := WriteSector(buf, sect);
        if !ok {
          assert L() == old(L());
          return ERR_IO;
        }
        bufDirty := false;
      }
      return ERR_NONE;
    }

    /** Makes the buffer hold sector s, writing the old one back first. The logical disk never changes. */
    method UpdateBuf(s: nat) returns (err: int)
      requires Valid() && 0 < s
      modifies this`disk, this`bufDirty, this`sect, buf
      ensures Valid() && L() == old(L()) && T() == old(T())
      ensures err == ERR_NONE || err == ERR_IO
      ensures err == ERR_NONE ==> sect == s && buf[..] == L()[s]
      ensures err != ERR_NONE ==> sect == old(sect)
      ensures bufDirty ==> old(bufDirty) && sect == old(sect)
    {
      if sect != s {
        err := SyncBuf();
        if err != ERR_NONE {
          return;
        }
        var ok := ReadSector(buf, s);
        if !ok {
          assert buf[..] == old(buf[..]);
          return ERR_IO;
        }
        sect := s;
      }
      return ERR_NONE;
    }

    /** Stores a 32-bit number into the buffered sector. */
    method Store(i: nat, v: nat)
      requires Valid() && 0 < sect && i + 4 <= 512
      requires buf[..] == L()[sect]
      modifies this`bufDirty, buf
      ensures Valid() && bufDirty
      ensures L() == old(L())[sect := WithU32(old(L())[sect], i, v)]
      ensures buf[..] == L()[sect]
    {
      StoreU32(buf, i, v);
      bufDirty := true;
    }

    /** Brings the directory entry at idx of the buffered sector up to date. */
    method StampBuf(idx: nat, accessed: bool, modified: bool, size: nat, date: Half, time: Half)
      requires Valid() && 0 < sect && idx + 32 <= 512
      requires buf[..] == L()[sect]
      modifies this`bufDirty, buf
      ensures Valid() && bufDirty
      ensures L() == old(L())[sect := Stamped(old(L())[sect], idx, accessed, modified, size, date, time)]
      ensures g.dataSect <= sect ==> T() == old(T()) && (old(MirrorAgrees()) ==> MirrorAgrees())
    {
      hide Volume.TableAt, Entries.Stamped;
      Stamp(buf, idx, accessed, modified, size, date, time);
      bufDirty := true;
      if g.dataSect <= sect {
        TablesUntouched(g, old(L()), L());
      }
    }

    /** Sets the first byte of a slot of the buffered directory sector. */
    method MarkSlot(idx: nat, b: Byte)
      requires Valid() && g.dataSect <= sect && idx + 32 <= 512
      requires buf[..] == L()[sect]
      modifies this`bufDirty, buf
      ensures Valid() && |disk| == old(|disk|) && T() == old(T())
      ensures L() == old(L())[sect := WithSlot(old(L())[sect], idx, old(L())[sect][idx..idx + 32][0 := b])]
    {
      hide Volume.TableAt;
      ghost var b0 := buf[..];
      buf[idx] := b;
      bufDirty := true;
      Spliced32(b0, buf[..], idx);
      assert buf[idx..idx + 32] == b0[idx..idx + 32][0 := b];
      TablesUntouched(g, old(L()), L());
    }

    /** Puts a long name slot into the buffered directory sector. */
    method PutLfn(idx: nat, f: seq<Byte>, ord: Byte, crc: Byte)
      requires Valid() && g.dataSect <= sect && idx + 32 <= 512 && |f| <= 13
      requires buf[..] == L()[sect]
      modifies this`bufDirty, buf
      ensures Valid() && |disk| == old(|disk|) && T() == old(T())
      ensures L() == old(L())[sect := WithSlot(old(L())[sect], idx, LfnSlot(f, ord, crc))]
    {
      hide Volume.TableAt, LfnSlot;
      WriteLfn(buf, idx, f, ord, crc);
      bufDirty := true;
      TablesUntouched(g, old(L()), L());
    }

    /** Puts a short entry into the buffered directory sector. */
    method PutSfn(idx: nat, sfn: seq<Byte>, attr: Byte, clust: nat, date: Half, time: Half)
      requires Valid() && g.dataSect <= sect && idx + 32 <= 512 && |sfn| == 11
      requires buf[..] == L()[sect]
      modifies this`bufDirty, buf
      ensures Valid() && |disk| == old(|disk|) && T() == old(T())
      ensures L() == old(L())[sect := WithSlot(old(L())[sect], idx, SfnSlot(sfn, attr, clust, date, time))]
    {
      hide Volume.TableAt, SfnSlot;
      WriteSfn(buf, idx, sfn, attr, clust, date, time);
      bufDirty := true;
      TablesUntouched(g, old(L()), L());
    }

    /** Stores both counters into the buffered information sector. */
    method StoreInfo()
      requires Valid() && sect == g.infoSect && buf[..] == L()[sect]
      modifies this`bufDirty, buf
      ensures Valid() && bufDirty
      ensures L() == old(L())[sect := WithInfo(old(L())[sect], lastUsed, freeCnt)]
    {
      Store(NEXT_FREE, lastUsed);
      Store(FREE_CNT, freeCnt);
    }

    /** Nothing is left to write, and the information sector carries the allocator's two numbers. */
    ghost predicate Flushed(info0: Sector)
      requires Valid()
      reads this, buf
    {
      && !bufDirty && !infoDirty && disk == L()
      && Info() == WithInfo(info0, lastUsed, freeCnt)
    }

    /** After a flush the device itself says which cluster was used last and how many are free. */
    lemma CountersOnDisk(info0: Sector)
      requires Valid() && Flushed(info0)
      ensures U32(disk[g.infoSect], 492) == lastUsed && U32(disk[g.infoSect], 488) == freeCnt
    {
      InfoReads(info0, lastUsed, freeCnt);
    }

    /** Flushes the buffer and, when the allocator changed something, the two counters of the information sector. */
    method SyncFs() returns (err: int)
      requires Valid()
      modifies this`disk, this`bufDirty, this`sect, this`infoDirty, buf
      ensures Valid()
      ensures err == ERR_NONE || err == ERR_IO
      ensures |disk| == old(|disk|) && forall s :: 0 <= s < |disk| && s != g.infoSect ==> L()[s] == old(L())[s]
      ensures T() == old(T()) && (old(MirrorAgrees()) ==> MirrorAgrees())
      ensures err == ERR_NONE ==>
        && !bufDirty && !infoDirty && disk == L()
        && L() == if old(infoDirty)
                  then old(L())[g.infoSect := WithInfo(old(L())[g.infoSect], lastUsed, freeCnt)]
                  else old(L())
      ensures sect == old(sect) || (sect == g.infoSect && sect < g.dataSect)
      ensures err == ERR_NONE && old(infoDirty) ==> sect == g.infoSect && sect < g.dataSect && Flushed(old(Info()))
      ensures SameData(g, old(L()), L())
    {
      hide Volume.TableAt;
      ghost var l0 := L();
      err := SyncBuf();
      if err != ERR_NONE {
        return;
      }
      if infoDirty {
        err := UpdateBuf(g.infoSect);
        if err != ERR_NONE {
          return;
        }
        StoreInfo();
        TablesUntouched(g, l0, L());
        err := SyncBuf();
        if err != ERR_NONE {
          return;
        }
        infoDirty := false;
      }
      return ERR_NONE;
    }

    // -------------------------------------------------------------- the allocation table

    /** Where the entry of a cluster is, and what its value means. */
    lemma EntryFormat(c: nat)
      requires Valid() && c < g.clustCnt
      ensures T()[c] == U32(L()[g.fatSect0 + c / 128], 4 * (c % 128)) % 0x1000_0000
      ensures var v, kind := T()[c], Classify(T()[c], g.clustCnt);
        && (kind == Free <==> v == 0) && (kind == Bad <==> v == 0x0fff_fff7)
        && (kind == Last <==> 0x0fff_fff8 <= v) && (kind == Used <==> 2 <= v < g.clustCnt)
    {
    }

    /** Reads one entry of the active table and says what it means. */
    method GetFat(clust: nat) returns (err: int, val: nat, kind: Link)
      requires Valid() && clust < g.clustCnt
      modifies this`disk, this`bufDirty, this`sect, buf
      ensures Valid() && L() == old(L()) && T() == old(T())
      ensures err == ERR_NONE || err == ERR_IO || err == ERR_BROKEN
      ensures err == ERR_NONE ==> val == T()[clust] && kind == Classify(val, g.clustCnt) && kind != Invalid
      ensures err == ERR_BROKEN ==> Classify(T()[clust], g.clustCnt) == Invalid
      ensures err == ERR_NONE ==> (InUse(T(), clust) <==> 2 <= clust && (kind == Used || kind == Last))
      ensures err == ERR_BROKEN ==> !InUse(T(), clust)
      ensures sect == old(sect) || sect < g.dataSect
      ensures err != ERR_IO ==> sect == g.fatSect0 + clust / 128
      ensures bufDirty ==> old(bufDirty) && sect == old(sect)
    {
      val, kind := 0, Invalid;
      err := UpdateBuf(g.fatSect0 + clust / 128);
      if err != ERR_NONE {
        return;
      }
      val := U32(buf[..], 4 * (clust % 128)) % HALF;
      assert val == T()[clust];
      kind := Classify(val, g.clustCnt);
      if kind == Invalid {
        return ERR_BROKEN, val, kind;
      }
      return ERR_NONE, val, kind;
    }

    /** Sets one entry of one table in the buffer. */
    method PutFat2(fs: nat, clust: nat, val: nat) returns (err: int)
      requires Valid() && clust < g.clustCnt && (fs == g.fatSect0 || (g.fatSect1 != 0 && fs == g.fatSect1))
      modifies this`disk, this`bufDirty, this`sect, buf
      ensures Valid()
      ensures err == ERR_NONE || err == ERR_IO
      ensures L() == if err == ERR_NONE then WithEntry(old(L()), fs, clust, val) else old(L())
      ensures sect == old(sect) || sect < g.dataSect
    {
      err := UpdateBuf(fs + clust / 128);
      if err != ERR_NONE {
        return;
      }
      var item := U32(buf[..], 4 * (clust % 128));
      Store(4 * (clust % 128), NewItem(item, val));
      return ERR_NONE;
    }

    /** Sets one entry: in the mirror first when mirroring is on, then in the active table. */
    method PutFat(clust: nat, val: nat) returns (err: int)
      requires Valid() && clust < g.clustCnt && val < HALF
      modifies this`disk, this`bufDirty, this`sect, buf
      ensures Valid()
      ensures err == ERR_NONE || err == ERR_IO
      ensures err == ERR_NONE ==> L() == PutBoth(g, old(L()), clust, val)
      ensures T() == if err == ERR_NONE then old(T())[clust := val] else old(T())
      ensures err == ERR_NONE && old(MirrorAgrees()) ==> MirrorAgrees()
      ensures SameData(g, old(L()), L()) && Info() == old(Info())
      ensures sect == old(sect) || sect < g.dataSect
    {
      hide Volume.TableAt;
      ghost var l0 := L();
      PutBothFacts(g, l0, clust, val);
      PutMirrorFacts(g, l0, clust, val);
      if g.fatSect1 != 0 {
        err := PutFat2(g.fatSect1, clust, val);
        if err != ERR_NONE {
          return;
        }
      }
      assert L() == PutMirror(g, l0, clust, val);
      err := PutFat2(g.fatSect0, clust, val);
    }

    // -------------------------------------------------------------- the allocator

    /**
     Frees the chain that starts at clust. Ends on any table, cyclic ones included: every round
     turns an occupied entry into a free one. freed lists what was freed, in order. A reserved entry, which is where
     an entry without clusters leads, is freed and counted like a cluster: the counter is one too high from then on.
     */
    method RemoveChain(clust: nat) returns (err: int, ghost freed: seq<nat>)
      requires Valid() && clust < g.clustCnt
      modifies this`disk, this`bufDirty, this`sect, this`infoDirty, this`freeCnt, buf
      ensures Valid()
      ensures err == ERR_NONE || err == ERR_IO || err == ERR_BROKEN
      ensures T() == Cleared(old(T()), freed)
      ensures err == ERR_NONE ==> freed != [] && IsRun(old(T()), freed) && freed[0] == clust
      ensures err == ERR_NONE ==> freeCnt == Plus(old(freeCnt), |freed|)
      ensures Drift() == if clust < 2 && freed != [] then Plus(old(Drift()), 1) else old(Drift())
      ensures err == ERR_NONE ==> (Drift() == old(Drift()) <==> 2 <= clust)
      ensures old(WellFormed(T()) && InUse(T(), clust) && IsHead(T(), clust)) ==> WellFormed(T()) && err != ERR_BROKEN
      ensures 2 <= clust && !old(InUse(T(), clust)) ==> err != ERR_NONE && T() == old(T())
      ensures old(WellFormed(T())) && clust < 2 && !old(InTable(T(), T()[clust])) ==>
        && WellFormed(T()) && (freed == [] || freed == [clust])
        && (err != ERR_IO ==> (err == ERR_NONE <==> EOC_MIN <= old(T()[clust])))
      ensures SameData(g, old(L()), L())
      ensures err == ERR_NONE && old(MirrorAgrees()) ==> MirrorAgrees()
      ensures err == ERR_NONE ==> Flushed(old(Info()))
      ensures sect == old(sect) || sect < g.dataSect
    {
      hide Volume.TableAt, Geometry.Fits, Chains.WellFormed, Chains.IsHead, Chains.FreeCount, Volume.Gap, Volume.Plus, Chains.Cleared, Chains.IsRun;
      PlusIsOff(Drift());
      infoDirty := true;
      err, freed := FreeRun(clust);
      if err == ERR_NONE {
        err := SyncFs();
      }
    }

    /** The freeing loop. */
    method FreeRun(clust: nat) returns (err: int, ghost freed: seq<nat>)
      requires Valid() && clust < g.clustCnt && infoDirty
      modifies this`disk, this`bufDirty, this`sect, this`freeCnt, buf
      ensures Valid()
      ensures err == ERR_NONE || err == ERR_IO || err == ERR_BROKEN
      ensures T() == Cleared(old(T()), freed) && freeCnt == Plus(old(freeCnt), |freed|)
      ensures err == ERR_NONE ==> freed != [] && IsRun(old(T()), freed) && freed[0] == clust
      ensures Drift() == if clust < 2 && freed != [] then Plus(old(Drift()), 1) else old(Drift())
      ensures old(WellFormed(T()) && InUse(T(), clust) && IsHead(T(), clust)) ==> WellFormed(T()) && err != ERR_BROKEN
      ensures 2 <= clust && !old(InUse(T(), clust)) ==> err != ERR_NONE && T() == old(T())
      ensures old(WellFormed(T())) && clust < 2 && !old(InTable(T(), T()[clust])) ==>
        && WellFormed(T()) && (freed == [] || freed == [clust])
        && (err != ERR_IO ==> (err == ERR_NONE <==> EOC_MIN <= old(T()[clust])))
      ensures SameData(g, old(L()), L()) && Info() == old(Info())
      ensures err == ERR_NONE && old(MirrorAgrees()) ==> MirrorAgrees()
      ensures sect == old(sect) || sect < g.dataSect
    {
      hide Volume.TableAt, Geometry.Fits, Chains.WellFormed, Chains.IsHead, Chains.FreeCount, Volume.Gap, Volume.Plus;
      ghost var t0: Table, l0 := T(), L();
      PlusZero(freeCnt);
      assert Cleared(t0, []) == t0 && IsPath(t0, [], clust);
      hide Chains.Cleared, Chains.IsPath, Chains.IsRun;
      ghost var good := WellFormed(t0) && InUse(t0, clust) && IsHead(t0, clust);
      ghost var lone := WellFormed(t0) && clust < 2 && !InTable(t0, t0[clust]);
      ghost var dead := 2 <= clust && !InUse(t0, clust);
      freed := [];
      var c: nat := clust;
      while true
        invariant Valid() && infoDirty && c < g.clustCnt && (freed != [] ==> 2 <= c)
        invariant T() == Cleared(t0, freed) && IsPath(t0, freed, c)
        invariant (freed + [c])[0] == clust
        invariant freeCnt == Plus(old(freeCnt), |freed|)
        invariant Drift() == if clust < 2 && freed != [] then Plus(old(Drift()), 1) else old(Drift())
        invariant good ==> WellFormed(T()) && InUse(T(), c) && IsHead(T(), c)
        invariant lone ==> WellFormed(T()) && freed == []
        invariant dead ==> freed == []
        invariant SameData(g, l0, L()) && Info() == old(Info())
        invariant old(MirrorAgrees()) ==> MirrorAgrees()
        invariant sect == old(sect) || sect < g.dataSect
        decreases |Occupied(T())|
      {
        ghost var t := T();
        var next, kind;
        err, next, kind := FreeOne(c);
        if err != ERR_NONE {
          return;
        }
        PathExtends(t0, freed, c);
        OccupiedShrinks(t, c);
        PlusTwice(old(freeCnt), |freed|, 1);
        freed := freed + [c];
        if kind == Last {
          break;
        }
        c := next;
      }
    }

    lemma PlusIsOff(d: int)
      requires 0 <= d < WORD
      ensures Plus(d, 1) != d
    {
    }

    /** One round of the freeing loop: reads the entry of c, sets it free and counts it. */
    method FreeOne(c: nat) returns (err: int, next: nat, kind: Link)
      requires Valid() && c < g.clustCnt
      modifies this`disk, this`bufDirty, this`sect, this`freeCnt, buf
      ensures Valid()
      ensures err == ERR_NONE || err == ERR_IO || err == ERR_BROKEN
      ensures err == ERR_BROKEN ==> !InUse(old(T()), c) && old(T()[c]) < EOC_MIN
      ensures err != ERR_NONE ==> T() == old(T()) && freeCnt == old(freeCnt)
      ensures err == ERR_NONE ==>
        && old(T()[c]) != 0 && (2 <= c ==> InUse(old(T()), c)) && next == old(T())[c] && (kind == Last <==> EOC_MIN <= next) && (kind != Last ==> InTableRange(next))
        && T() == old(T())[c := 0] && freeCnt == Plus(old(freeCnt), 1)
        && (old(WellFormed(T()) && (c < 2 || IsHead(T(), c))) ==>
              WellFormed(T()) && (2 <= c && kind != Last ==> InUse(T(), next) && IsHead(T(), next)))
      ensures err == ERR_NONE && old(MirrorAgrees()) ==> MirrorAgrees()
      ensures Drift() == if c < 2 && err == ERR_NONE then Plus(old(Drift()), 1) else old(Drift())
      ensures SameData(g, old(L()), L()) && Info() == old(Info())
      ensures sect == old(sect) || sect < g.dataSect
    {
      hide Volume.TableAt, Volume.Gap, Volume.Plus, Geometry.Fits, Chains.WellFormed, Chains.IsHead, Chains.FreeCount;
      ghost var t := T();
      err, next, kind := GetFat(c);
      if err != ERR_NONE {
        return;
      }
      if kind == Bad || kind == Free {
        return ERR_BROKEN, next, kind;
      }
      err := PutFat(c, 0);
      if err != ERR_NONE {
        return;
      }
      GapKept(freeCnt, FreeCount(t), 1);
      GapOff(freeCnt, FreeCount(t));
      freeCnt := Plus(freeCnt, 1);
      FreedIs(t, c);
    }

    static lemma FreedIs(t: Table, c: nat)
      requires c < |t| && t[c] != 0
      ensures FreeCount(t[c := 0]) == if c < 2 then FreeCount(t) else FreeCount(t) + 1
      ensures WellFormed(t) && c < 2 ==> WellFormed(t[c := 0])
      ensures WellFormed(t) && InUse(t, c) && IsHead(t, c) ==>
                WellFormed(t[c := 0]) && (InTable(t, t[c]) ==> InUse(t[c := 0], t[c]) && IsHead(t[c := 0], t[c]))
    {
      hide WellFormed, IsHead, FreeCount, FreeSet;
      if c < 2 {
        ReservedFreed(t, c);
      } else {
        CountAfterFree(t, c);
        if WellFormed(t) && InUse(t, c) && IsHead(t, c) {
          FreeHeadKeeps(t, c);
        }
      }
    }

    /** No free cluster lies strictly between lo and c, going cyclically upwards from lo. */
    static ghost predicate AllOccupied(t: Table, lo: nat, c: nat) {
      forall d: nat :: InTable(t, d) && Between(lo, d, c) ==> t[d] != 0
    }

    /**
     The scan for a free cluster that starts after lastUsed. When reading the table fails the source
     returns the flag byte of the entry read before instead of the error: flags is that byte.
     */
    method ScanFree(flags: Byte) returns (err: int, clust: nat, found: bool, ghost probes: nat)
      requires Valid()
      modifies this`disk, this`bufDirty, this`sect, buf
      ensures Valid() && L() == old(L()) && T() == old(T()) && InTableRange(clust)
      ensures found ==> err == ERR_NONE && FirstFreeAfter(T(), lastUsed, clust)
      ensures err == ERR_NONE && flags != 0 ==> found
      ensures err == ERR_FULL ==> forall d: nat :: InTable(T(), d) && d != lastUsed ==> T()[d] != 0
      ensures probes <= g.clustCnt - 3
      ensures sect == old(sect) || sect < g.dataSect
    {
      hide Volume.TableAt, Geometry.Fits;
      var last := flags;
      clust, probes := lastUsed, 0;
      ghost var t := T();
      while true
        invariant Valid() && L() == old(L()) && T() == t && InTableRange(clust)
        invariant clust != lastUsed ==> AllOccupied(t, lastUsed, clust) && t[clust] != 0
        invariant last == flags || 0 < last
        invariant probes == if clust < lastUsed then g.clustCnt - lastUsed + clust - 2 else clust - lastUsed
        invariant sect == old(sect) || sect < g.dataSect
        decreases if clust < lastUsed then lastUsed - clust else g.clustCnt - clust + lastUsed
      {
        clust := CyclicNext(clust, g.clustCnt);
        if clust == lastUsed {
          return ERR_FULL, clust, false, probes;
        }
        var next, kind;
        err, next, kind := GetFat(clust);
        probes := probes + 1;
        if err != ERR_NONE {
          return last, clust, false, probes;
        }
        last := FlagByte(kind);
        if kind == Free {
          return ERR_NONE, clust, true, probes;
        }
      }
    }

    /**
     Appends a free cluster to the chain that ends in prev, or starts a new chain when prev is 0.
     stale is what the uninitialised flag byte of the source happens to hold; it is returned as the
     error code when the very first read of a scan for a new chain fails. done says that the source
     reached its end without an error.
     */
    method StretchChain(prev: nat, stale: Byte) returns (err: int, out: nat, ghost done: bool)
      requires Valid() && (prev == 0 || IsTail(T(), prev))
      modifies this`disk, this`bufDirty, this`sect, this`infoDirty, this`lastUsed, this`freeCnt, buf
      ensures Valid()
      ensures done ==>
        && err == ERR_NONE
        && Chosen(old(T()), old(lastUsed), prev, out) && IsFree(old(T()), out)
        && T() == Stretched(old(T()), prev, out)
        && lastUsed == out && freeCnt == Plus(old(freeCnt), -1)
        && Drift() == old(Drift())
        && (old(MirrorAgrees()) ==> MirrorAgrees())
        && Flushed(old(Info())) && sect == g.infoSect && sect < g.dataSect
      ensures err == ERR_NONE && (prev != 0 || stale != 0) ==> done
      ensures err == ERR_NONE && !done ==> L() == old(L()) && T() == old(T())
      ensures err == ERR_FULL ==>
        T() == old(T()) && forall d: nat :: InTable(T(), d) && d != lastUsed ==> T()[d] != 0
      ensures old(WellFormed(T())) ==> WellFormed(T())
      ensures SameData(g, old(L()), L())
      ensures sect == old(sect) || sect < g.dataSect
    {
      hide Volume.TableAt, Geometry.Fits, Volume.Plus, Volume.Gap, Chains.FreeCount, Chains.WellFormed, Chains.IsHead;
      hide Chains.IsChain;
      ghost var t := T();
      done, out := false, 0;
      var clust, flags, next, kind, scan := prev, stale, 0, Invalid, true;
      infoDirty := true;
      if prev != 0 {
        clust := CyclicNext(clust, g.clustCnt);
        err, next, kind := GetFat(clust);
        if err != ERR_NONE {
          return;
        }
        flags := FlagByte(kind);
        if kind == Free {
          scan := false;
        }
      }
      if scan {
        var found;
        ghost var probes;
        err, clust, found, probes := ScanFree(flags);
        if !found {
          return;
        }
      }
      assert Chosen(t, lastUsed, prev, clust) && IsFree(t, clust);
      err, done := Attach(prev, clust);
      out := clust;
    }

    /** The second half of stretching: the end mark, the link, the counters and the flush. */
    method Attach(prev: nat, clust: nat) returns (err: int, ghost done: bool)
      requires Valid() && infoDirty && (prev == 0 || IsTail(T(), prev)) && IsFree(T(), clust)
      modifies this`disk, this`bufDirty, this`sect, this`infoDirty, this`lastUsed, this`freeCnt, buf
      ensures Valid()
      ensures err == ERR_NONE || err == ERR_IO
      ensures done <==> err == ERR_NONE
      ensures done ==>
        && T() == Stretched(old(T()), prev, clust)
        && lastUsed == clust && freeCnt == Plus(old(freeCnt), -1)
        && Drift() == old(Drift())
        && (old(MirrorAgrees()) ==> MirrorAgrees())
        && Flushed(old(Info())) && sect == g.infoSect && sect < g.dataSect
      ensures old(WellFormed(T())) ==> WellFormed(T())
      ensures SameData(g, old(L()), L())
      ensures sect == old(sect) || sect < g.dataSect
    {
      hide Volume.TableAt, Geometry.Fits, Volume.Plus, Volume.Gap, Chains.FreeCount, Chains.WellFormed;
      StretchSteps(T(), prev, clust);
      GapKept(freeCnt, FreeCount(T()), -1);
      hide Chains.Stretched, Chains.IsTail, Chains.IsFree;
      done := false;
      err := PutChain(prev, clust);
      if err != ERR_NONE {
        return;
      }
      lastUsed := clust;
      freeCnt := Plus(freeCnt, -1);
      err := SyncFs();
      done := err == ERR_NONE;
    }

    /** The two table writes of stretching: first the end mark, then the link. */
    method PutChain(prev: nat, clust: nat) returns (err: int)
      requires Valid() && (prev == 0 || IsTail(T(), prev)) && IsFree(T(), clust)
      modifies this`disk, this`bufDirty, this`sect, buf
      ensures Valid() && InTableRange(clust)
      ensures err == ERR_NONE || err == ERR_IO
      ensures err == ERR_NONE ==> T() == Stretched(old(T()), prev, clust) && (old(MirrorAgrees()) ==> MirrorAgrees())
      ensures old(WellFormed(T())) ==> WellFormed(T())
      ensures SameData(g, old(L()), L()) && Info() == old(Info())
      ensures sect == old(sect) || sect < g.dataSect
    {
      assert clust < HALF;
      hide Volume.TableAt, Geometry.Fits, Chains.WellFormed;
      StretchSteps(T(), prev, clust);
      err := PutFat(clust, EOC);
      if err != ERR_NONE {
        return;
      }
      if prev != 0 {
        err := PutFat(prev, clust);
      }
    }

    /** Starts a new chain of one cluster. */
    method CreateChain(stale: Byte) returns (err: int, out: nat, ghost done: bool)
      requires Valid()
      modifies this`disk, this`bufDirty, this`sect, this`infoDirty, this`lastUsed, this`freeCnt, buf
      ensures Valid()
      ensures done ==>
        && err == ERR_NONE
        && FirstFreeAfter(old(T()), old(lastUsed), out)
        && T() == old(T())[out := 0x0fff_ffff]
        && lastUsed == out && freeCnt == Plus(old(freeCnt), -1)
        && Drift() == old(Drift())
        && (old(MirrorAgrees()) ==> MirrorAgrees())
        && Flushed(old(Info())) && sect == g.infoSect && sect < g.dataSect
      ensures err == ERR_NONE && stale != 0 ==> done
      ensures err == ERR_NONE && !done ==> L() == old(L()) && T() == old(T())
      ensures err == ERR_FULL ==>
        T() == old(T()) && forall d: nat :: InTable(T(), d) && d != lastUsed ==> T()[d] != 0
      ensures old(WellFormed(T())) ==> WellFormed(T())
      ensures SameData(g, old(L()), L())
      ensures sect == old(sect) || sect < g.dataSect
    {
      hide Volume.TableAt, Geometry.Fits, Chains.WellFormed, Chains.FreeCount;
      err, out, done := StretchChain(0, stale);
    }

    /** Zeroes exactly one cluster. */
    method ClustClear(clust: nat) returns (err: int)
      requires Valid() && InTableRange(clust)
      modifies this`disk, this`bufDirty, this`sect, buf
      ensures Valid() && |disk| == old(|disk|)
      ensures err == ERR_NONE || err == ERR_IO
      ensures T() == old(T()) && Drift() == old(Drift()) && (old(MirrorAgrees()) ==> MirrorAgrees())
      ensures forall s :: 0 <= s < |disk| && !(g.ClustToSect(clust) <= s < g.ClustToSect(clust) + g.spc) ==> L()[s] == old(L())[s]
      ensures err == ERR_NONE ==> ClearedCluster(g, old(L()), L(), clust)
    {
      hide Volume.TableAt, Volume.Times;
      g.ClusterFits(clust, |disk|);
      err := ClearSectors(clust);
      TablesUntouched(g, old(L()), L());
    }

    /** The loop that zeroes every sector of a cluster, through the buffer. */
    method ClearSectors(clust: nat) returns (err: int)
      requires Valid() && InTableRange(clust)
      modifies this`disk, this`bufDirty, this`sect, buf
      ensures Valid()
      ensures err == ERR_NONE || err == ERR_IO
      ensures |disk| == old(|disk|)
      ensures forall s :: 0 <= s < |disk| && !(g.ClustToSect(clust) <= s < g.ClustToSect(clust) + g.spc) ==> L()[s] == old(L())[s]
      ensures err == ERR_NONE ==> ClearedCluster(g, old(L()), L(), clust)
      ensures err == ERR_NONE ==> !bufDirty && sect == g.ClustToSect(clust) + g.spc - 1
    {
      hide Volume.TableAt, Volume.Times;
      err := SyncBuf();
      if err != ERR_NONE {
        return;
      }
      g.ClusterFits(clust, |disk|);
      ghost var l0 := L();
      var first := g.ClustToSect(clust);
      var s := first;
      forall i | 0 <= i < 512 { buf[i] := 0; }
      assert buf[..] == Blank();
      for i := 0 to g.spc
        invariant err == ERR_NONE && s == first + i && |disk| == |l0| && !bufDirty && g.Fits(|disk|)
        invariant buf[..] == Blank() && (i > 0 ==> sect == s - 1)
        invariant forall j :: 0 <= j < |disk| ==> disk[j] == if first <= j < first + i then Blank() else l0[j]
      {
        bufDirty := true;
        sect := s;
        s := s + 1;
        err := SyncBuf();
        if err != ERR_NONE {
          return;
        }
      }
    }
  }
}
