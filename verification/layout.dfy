/** The sectors of a chain in order, and the bytes they hold. */
module Layout {
  import opened Bytes
  import opened Chains
  import opened Volume

  ghost predicate Clusters(g: Geometry, s: seq<nat>) {
    forall i :: 0 <= i < |s| ==> 2 <= s[i] < g.clustCnt
  }

  ghost predicate Distinct(s: seq<nat>) {
    forall i, j :: 0 <= i < j < |s| ==> s[i] != s[j]
  }

  ghost function ClusterSectors(g: Geometry, c: nat): (r: seq<nat>)
    requires 2 <= c
    ensures |r| == g.spc
  {
    seq(g.spc, (i: nat) => g.ClustToSect(c) + i)
  }

  /** The sectors of the clusters of s, in file order. */
  ghost function Sectors(g: Geometry, s: seq<nat>): (r: seq<nat>)
    requires Clusters(g, s)
    ensures |r| == Times(|s|, g.spc)
  {
    if s == [] then [] else Sectors(g, s[..|s| - 1]) + ClusterSectors(g, s[|s| - 1])
  }

  lemma SectorsAppend(g: Geometry, s: seq<nat>, c: nat)
    requires Clusters(g, s) && 2 <= c < g.clustCnt
    ensures Clusters(g, s + [c])
    ensures Sectors(g, s + [c]) == Sectors(g, s) + ClusterSectors(g, c)
  {
    assert (s + [c])[..|s|] == s;
  }

  /** Sector i of the k-th cluster stands at position k * spc + i. */
  lemma {:induction false} SectorAt(g: Geometry, s: seq<nat>, k: nat, i: nat)
    requires Clusters(g, s) && k < |s| && i < g.spc
    ensures Times(k, g.spc) + i < |Sectors(g, s)|
    ensures Sectors(g, s)[Times(k, g.spc) + i] == g.ClustToSect(s[k]) + i
  {
    var n := |s| - 1;
    if k < n {
      SectorAt(g, s[..n], k, i);
    }
  }

  /** Every sector of the list is a sector of one of the clusters. */
  lemma {:induction false} SectorOrigin(g: Geometry, s: seq<nat>, x: nat) returns (k: nat, i: nat)
    requires Clusters(g, s) && x < |Sectors(g, s)|
    ensures k < |s| && i < g.spc && x == Times(k, g.spc) + i
    ensures Sectors(g, s)[x] == g.ClustToSect(s[k]) + i
  {
    var n := |s| - 1;
    if x < Times(n, g.spc) {
      k, i := SectorOrigin(g, s[..n], x);
    } else {
      k, i := n, x - Times(n, g.spc);
    }
  }

  /** Different clusters have no sector in common. */
  lemma ClustersApart(g: Geometry, c: nat, i: nat, d: nat, j: nat)
    requires 2 <= c && 2 <= d && i < g.spc && j < g.spc
    ensures g.ClustToSect(c) + i == g.ClustToSect(d) + j ==> c == d && i == j
  {
    if c < d {
      TimesGrows(c - 2, d - 2, g.spc);
    } else if d < c {
      TimesGrows(d - 2, c - 2, g.spc);
    }
  }

  lemma SectorsDistinct(g: Geometry, s: seq<nat>)
    requires Clusters(g, s) && Distinct(s)
    ensures Distinct(Sectors(g, s))
  {
    var r := Sectors(g, s);
    forall x, y | 0 <= x < y < |r|
      ensures r[x] != r[y]
    {
      var k, i := SectorOrigin(g, s, x);
      var m, j := SectorOrigin(g, s, y);
      ClustersApart(g, s[k], i, s[m], j);
    }
  }

  /** The sectors of a chain lie in the data region. */
  lemma SectorsInData(g: Geometry, s: seq<nat>, n: nat)
    requires Clusters(g, s) && g.Fits(n)
    ensures forall x :: 0 <= x < |Sectors(g, s)| ==> g.dataSect <= Sectors(g, s)[x] < n
  {
    forall x | 0 <= x < |Sectors(g, s)|
      ensures g.dataSect <= Sectors(g, s)[x] < n
    {
      var k, i := SectorOrigin(g, s, x);
      g.ClusterFits(s[k], n);
    }
  }

  /** A sector of a cluster outside the chain is not in its list. */
  lemma OutsideChain(g: Geometry, s: seq<nat>, c: nat, i: nat)
    requires Clusters(g, s) && 2 <= c && c !in s && i < g.spc
    ensures g.ClustToSect(c) + i !in Sectors(g, s)
  {
    forall x | 0 <= x < |Sectors(g, s)|
      ensures Sectors(g, s)[x] != g.ClustToSect(c) + i
    {
      var k, j := SectorOrigin(g, s, x);
      ClustersApart(g, c, i, s[k], j);
    }
  }

  lemma {:induction false} SectorsPrefix(g: Geometry, s: seq<nat>, r: seq<nat>)
    requires Clusters(g, r) && s <= r
    ensures Clusters(g, s) && Sectors(g, s) <= Sectors(g, r)
    decreases |r|
  {
    if |s| == |r| {
      assert s == r;
    } else {
      var n := |r| - 1;
      SectorsPrefix(g, s, r[..n]);
    }
  }

  lemma DivMod(x: nat, n: nat, q: nat, r: nat)
    requires 1 <= n && r < n && x == q * n + r
    ensures Quot(x, n) == q && x % n == r
  {
    var a, b := Quot(x, n), x % n;
    assert x == a * n + b;
    MulOrder(a, q, n);
    MulOrder(q, a, n);
  }

  lemma MulOrder(a: nat, q: nat, n: nat)
    ensures a < q ==> a * n + n <= q * n
  {
    if a < q {
      TimesGrows(a, q, n);
      TimesIsProduct(a, n);
      TimesIsProduct(q, n);
    }
  }

  /**
   Byte offset o of a file lies in cluster Quot(o, size), size being the bytes of a cluster, and in
   sector (o / 512) % spc of that cluster.
   */
  lemma Locate(o: nat, spc: nat, size: nat)
    requires 1 <= spc && size == 512 * spc
    ensures (o / 512) % spc < spc
    ensures o / 512 == Times(Quot(o, size), spc) + (o / 512) % spc
  {
    var x := o / 512;
    var q, r := Quot(x, spc), x % spc;
    TimesIsProduct(q, spc);
    assert x == q * spc + r;
    assert q * size == 512 * (q * spc);
    DivMod(o, size, q, 512 * r + o % 512);
  }

  /** The sector the source computes for offset o is the one at position o / 512 of the list. */
  lemma SectorOfOffset(g: Geometry, s: seq<nat>, o: nat, size: nat)
    requires Clusters(g, s) && 1 <= g.spc && size == 512 * g.spc && Quot(o, size) < |s|
    ensures o < 512 * |Sectors(g, s)|
    ensures Sectors(g, s)[o / 512] == g.ClustToSect(s[Quot(o, size)]) + (o / 512) % g.spc
  {
    hide *;
    Locate(o, g.spc, size);
    SectorAt(g, s, Quot(o, size), (o / 512) % g.spc);
  }

  lemma QuotZero(size: nat)
    requires 1 <= size
    ensures Quot(0, size) == 0
  {
  }

  // ---------------------------------------------------------------- contents

  ghost predicate OnDisk(secs: seq<nat>, n: nat) {
    forall x :: 0 <= x < |secs| ==> secs[x] < n
  }

  ghost function ByteAt(l: seq<Sector>, secs: seq<nat>, k: nat): Byte
    requires OnDisk(secs, |l|) && k < 512 * |secs|
  {
    l[secs[k / 512]][k % 512]
  }

  /** The bytes of the sectors, in order. */
  ghost function Content(l: seq<Sector>, secs: seq<nat>): (r: seq<Byte>)
    requires OnDisk(secs, |l|)
    ensures |r| == 512 * |secs|
  {
    seq(512 * |secs|, k requires 0 <= k < 512 * |secs| => ByteAt(l, secs, k))
  }

  /** c with the bytes from o on overwritten by d. */
  ghost function Spliced(c: seq<Byte>, o: nat, d: seq<Byte>): (r: seq<Byte>)
    requires o + |d| <= |c|
    ensures |r| == |c|
  {
    c[..o] + d + c[o + |d|..]
  }

  /**
   v differs from v0 exactly in the bytes [o, o + |d|) of the listed sectors, which hold d;
   no other data sector differs.
   */
  ghost predicate Patched(g: Geometry, v0: seq<Sector>, v: seq<Sector>, secs: seq<nat>, o: nat, d: seq<Byte>)
  {
    && |v| == |v0| && OnDisk(secs, |v|)
    && o + |d| <= 512 * |secs|
    && (forall s :: g.dataSect <= s < |v| && s !in secs ==> v[s] == v0[s])
    && (forall k :: 0 <= k < 512 * |secs| ==>
          ByteAt(v, secs, k) == if o <= k < o + |d| then d[k - o] else ByteAt(v0, secs, k))
  }

  lemma PatchedStart(g: Geometry, v: seq<Sector>, secs: seq<nat>, o: nat)
    requires OnDisk(secs, |v|) && o <= 512 * |secs|
    ensures Patched(g, v, v, secs, o, [])
  {
  }

  /** When the data region is left alone and the chain grows, the content keeps what it held. */
  lemma ContentGrows(g: Geometry, v: seq<Sector>, v': seq<Sector>, secs: seq<nat>, secs': seq<nat>)
    requires SameData(g, v, v') && secs <= secs' && OnDisk(secs', |v|)
    requires forall x :: 0 <= x < |secs'| ==> g.dataSect <= secs'[x]
    ensures OnDisk(secs, |v|) && Content(v, secs) <= Content(v', secs')
  {
    forall x | 0 <= x < |secs| ensures secs[x] == secs'[x] {}
    forall k | 0 <= k < 512 * |secs|
      ensures Content(v, secs)[k] == Content(v', secs')[k]
    {
      assert secs[k / 512] == secs'[k / 512];
    }
  }

  lemma ContentSame(v: seq<Sector>, v': seq<Sector>, secs: seq<nat>)
    requires |v| == |v'| && OnDisk(secs, |v|)
    requires forall s :: 0 <= s < |v| && s in secs ==> v'[s] == v[s]
    ensures Content(v', secs) == Content(v, secs)
  {
    forall k | 0 <= k < 512 * |secs|
      ensures Content(v', secs)[k] == Content(v, secs)[k]
    {
      assert secs[k / 512] in secs;
    }
  }

  /** What a patch means for the old content: the bytes under it are d, all others are kept. */
  lemma PatchedOld(g: Geometry, v0: seq<Sector>, v: seq<Sector>, secs0: seq<nat>, secs: seq<nat>, o: nat, d: seq<Byte>)
    requires Patched(g, v0, v, secs, o, d) && secs0 <= secs && OnDisk(secs0, |v0|)
    ensures Content(v, secs)[o..o + |d|] == d
    ensures forall k :: 0 <= k < 512 * |secs0| && !(o <= k < o + |d|) ==> Content(v, secs)[k] == Content(v0, secs0)[k]
  {
    PatchedContent(g, v0, v, secs, o, d);
    forall k | 0 <= k < 512 * |secs0| && !(o <= k < o + |d|)
      ensures Content(v, secs)[k] == Content(v0, secs0)[k]
    {
      assert secs0[k / 512] == secs[k / 512];
      assert ByteAt(v, secs, k) == ByteAt(v0, secs, k);
    }
  }

  /** The bytes of one sector of the content. */
  lemma ContentOfSector(v: seq<Sector>, secs: seq<nat>, o: nat, cnt: nat)
    requires OnDisk(secs, |v|) && o < 512 * |secs| && o % 512 + cnt <= 512
    ensures Content(v, secs)[o..o + cnt] == v[secs[o / 512]][o % 512..o % 512 + cnt]
  {
    var a, b := Content(v, secs)[o..o + cnt], v[secs[o / 512]][o % 512..o % 512 + cnt];
    forall i | 0 <= i < cnt
      ensures a[i] == b[i]
    {
      assert Content(v, secs)[o + i] == ByteAt(v, secs, o + i);
      assert (o + i) / 512 == o / 512 && (o + i) % 512 == o % 512 + i;
    }
  }

  /** A patch is a splice of the content. */
  lemma PatchedContent(g: Geometry, v0: seq<Sector>, v: seq<Sector>, secs: seq<nat>, o: nat, d: seq<Byte>)
    requires Patched(g, v0, v, secs, o, d)
    ensures Content(v, secs) == Spliced(Content(v0, secs), o, d)
  {
    forall k | 0 <= k < 512 * |secs|
      ensures Content(v, secs)[k] == Spliced(Content(v0, secs), o, d)[k]
    {
      assert ByteAt(v, secs, k) == if o <= k < o + |d| then d[k - o] else ByteAt(v0, secs, k);
    }
  }

  /** A patch stays one when the chain grows and the data region is left alone. */
  lemma PatchedGrows(g: Geometry, v0: seq<Sector>, v: seq<Sector>, v': seq<Sector>,
                     secs: seq<nat>, secs': seq<nat>, o: nat, d: seq<Byte>)
    requires Patched(g, v0, v, secs, o, d) && SameData(g, v, v')
    requires secs <= secs' && Distinct(secs') && OnDisk(secs', |v|)
    requires forall x :: 0 <= x < |secs'| ==> g.dataSect <= secs'[x]
    ensures Patched(g, v0, v', secs', o, d)
  {
    forall k | 0 <= k < 512 * |secs'|
      ensures ByteAt(v', secs', k) == if o <= k < o + |d| then d[k - o] else ByteAt(v0, secs', k)
    {
      if k < 512 * |secs| {
        assert secs'[k / 512] == secs[k / 512];
        assert ByteAt(v, secs, k) == if o <= k < o + |d| then d[k - o] else ByteAt(v0, secs, k);
      } else {
        assert secs'[k / 512] !in secs;
      }
    }
  }

  /** Overwriting part of one listed sector, right after what was patched already, extends the patch. */
  lemma PatchedStep(g: Geometry, v0: seq<Sector>, v: seq<Sector>, secs: seq<nat>, o: nat, d: seq<Byte>,
                    new_: Sector, e: seq<Byte>)
    requires Patched(g, v0, v, secs, o, d) && Distinct(secs)
    requires o + |d| < 512 * |secs| && (o + |d|) % 512 + |e| <= 512
    requires new_ == Spliced(v[secs[(o + |d|) / 512]], (o + |d|) % 512, e)
    ensures Patched(g, v0, v[secs[(o + |d|) / 512] := new_], secs, o, d + e)
  {
    var p := o + |d|;
    var v' := v[secs[p / 512] := new_];
    forall k | 0 <= k < 512 * |secs|
      ensures ByteAt(v', secs, k) == if o <= k < o + |d + e| then (d + e)[k - o] else ByteAt(v0, secs, k)
    {
      assert ByteAt(v, secs, k) == if o <= k < o + |d| then d[k - o] else ByteAt(v0, secs, k);
      if k / 512 == p / 512 {
        assert ByteAt(v', secs, k) == new_[k % 512];
      } else {
        assert ByteAt(v', secs, k) == ByteAt(v, secs, k);
      }
    }
  }

  /** dst holds the n bytes of d from o on, then what was there before. */
  ghost predicate Delivered(dst: seq<Byte>, before: seq<Byte>, d: seq<Byte>, o: nat, n: nat) {
    n <= |before| && o + n <= |d| && dst == d[o..o + n] + before[n..]
  }

  lemma DeliveredNone(dst: seq<Byte>, d: seq<Byte>, o: nat)
    requires o <= |d|
    ensures Delivered(dst, dst, d, o, 0)
  {
  }

  lemma DeliveredPrefix(dst: seq<Byte>, before: seq<Byte>, d: seq<Byte>, o: nat, n: nat)
    requires Delivered(dst, before, d, o, n)
    ensures n <= |dst| && o + n <= |d| && dst[..n] == d[o..o + n]
  {
  }

  lemma DeliveredMeans(dst: seq<Byte>, before: seq<Byte>, d: seq<Byte>, o: nat, n: nat)
    requires Delivered(dst, before, d, o, n)
    ensures |dst| == |before| && n <= |dst| && o + n <= |d|
  {
  }

  /** Copying the next m bytes, taken from a longer copy of d, behind the ones copied before. */
  lemma DeliveredMore(dst: seq<Byte>, dst': seq<Byte>, before: seq<Byte>, d: seq<Byte>, d': seq<Byte>, o: nat, n: nat, m: nat)
    requires Delivered(dst, before, d, o, n) && n + m <= |before| && o + n + m <= |d| && d <= d'
    requires |dst| == |before| && dst' == dst[..n] + d'[o + n..o + n + m] + dst[n + m..]
    ensures Delivered(dst', before, d, o, n + m)
  {
    assert dst[..n] == d[o..o + n] && dst[n + m..] == before[n + m..];
    assert d[o..o + n] + d[o + n..o + n + m] == d[o..o + (n + m)];
    assert d'[o + n..o + n + m] == d[o + n..o + n + m];
  }

  // ---------------------------------------------------------------- ownership

  /**
   A chain that starts at first and is used by one open file: the volume buffer holds sector busy,
   which is not the file's, and the directory entry is in sector dirSect of another used cluster.
   */
  ghost predicate Owned(g: Geometry, t: Table, chain: seq<nat>, first: nat, busy: nat, dirSect: nat, dirClust: nat) {
    && |t| == g.clustCnt && WellFormed(t) && IsChain(t, chain) && chain[0] == first
    && Clusters(g, chain)
    && busy !in Sectors(g, chain)
    && InUse(t, dirClust) && dirClust !in chain
    && g.ClustToSect(dirClust) <= dirSect < g.ClustToSect(dirClust) + g.spc
  }

  /** The sectors of an owned chain are distinct data sectors, and none is the directory's. */
  lemma OwnedFacts(g: Geometry, t: Table, chain: seq<nat>, first: nat, busy: nat, dirSect: nat, dirClust: nat, n: nat)
    requires Owned(g, t, chain, first, busy, dirSect, dirClust) && g.Fits(n)
    ensures Distinct(chain) && Distinct(Sectors(g, chain)) && OnDisk(Sectors(g, chain), n)
    ensures forall x :: 0 <= x < |Sectors(g, chain)| ==> g.dataSect <= Sectors(g, chain)[x] < n
    ensures g.dataSect <= dirSect < n && dirSect !in Sectors(g, chain)
  {
    hide WellFormed, IsChain, Sectors, Times;
    OwnedParts(g, t, chain, first, busy, dirSect, dirClust);
    ChainDistinct(t, chain);
    SectorsDistinct(g, chain);
    SectorsInData(g, chain, n);
    g.ClusterFits(dirClust, n);
    OutsideChain(g, chain, dirClust, dirSect - g.ClustToSect(dirClust));
  }

  lemma OwnedElsewhere(g: Geometry, n: nat, t: Table, chain: seq<nat>, first: nat, busy: nat, dirSect: nat, dirClust: nat,
                       busy': nat)
    requires Owned(g, t, chain, first, busy, dirSect, dirClust) && g.Fits(n)
    requires busy' == busy || busy' < g.dataSect
    ensures Owned(g, t, chain, first, busy', dirSect, dirClust)
  {
    OwnedFacts(g, t, chain, first, busy, dirSect, dirClust, n);
  }

  /** A chain of a well-formed table that starts at first. */
  ghost predicate ChainOf(g: Geometry, t: Table, chain: seq<nat>, first: nat) {
    |t| == g.clustCnt && WellFormed(t) && IsChain(t, chain) && chain[0] == first && Clusters(g, chain)
  }

  lemma ChainOfParts(g: Geometry, t: Table, chain: seq<nat>, first: nat)
    requires ChainOf(g, t, chain, first)
    ensures |t| == g.clustCnt && |t| <= BAD && WellFormed(t) && IsChain(t, chain) && |chain| > 0 && chain[0] == first
    ensures Clusters(g, chain) && forall i :: 0 <= i < |chain| ==> 2 <= chain[i] < g.clustCnt
  {
  }

  lemma ChainOfFrom(g: Geometry, t: Table, chain: seq<nat>, first: nat)
    requires |t| == g.clustCnt && WellFormed(t) && IsChain(t, chain) && |chain| > 0 && chain[0] == first && Clusters(g, chain)
    ensures ChainOf(g, t, chain, first)
  {
  }

  lemma ChainOfFacts(g: Geometry, t: Table, chain: seq<nat>, first: nat, n: nat)
    requires ChainOf(g, t, chain, first) && g.Fits(n)
    ensures Distinct(chain) && Distinct(Sectors(g, chain)) && OnDisk(Sectors(g, chain), n)
    ensures forall x :: 0 <= x < |Sectors(g, chain)| ==> g.dataSect <= Sectors(g, chain)[x] < n
    ensures 1 <= g.spc && |chain| > 0 && chain[0] == first && Clusters(g, chain) && 0 < |Sectors(g, chain)|
    ensures forall i :: 0 <= i < |chain| ==> 2 <= chain[i] < g.clustCnt
  {
    hide WellFormed, IsChain, Sectors;
    ChainOfParts(g, t, chain, first);
    ChainDistinct(t, chain);
    SectorsDistinct(g, chain);
    SectorsInData(g, chain, n);
    SectorAt(g, chain, 0, 0);
  }

  lemma ChainOfTail(g: Geometry, t: Table, chain: seq<nat>, first: nat)
    requires ChainOf(g, t, chain, first)
    ensures |chain| > 0 && IsTail(t, chain[|chain| - 1])
  {
  }

  /** Stretching a chain from its tail leaves a chain, one cluster longer. */
  lemma ChainOfStretch(g: Geometry, t: Table, chain: seq<nat>, first: nat, c: nat)
    requires ChainOf(g, t, chain, first) && IsFree(t, c)
    ensures |chain| > 0 && IsTail(t, chain[|chain| - 1]) && 2 <= c < g.clustCnt && c !in chain && chain[|chain| - 1] < |t|
    ensures ChainOf(g, Stretched(t, chain[|chain| - 1], c), chain + [c], first)
    ensures OnlyGrew(t, Stretched(t, chain[|chain| - 1], c), chain, chain + [c])
  {
    hide *;
    ChainOfParts(g, t, chain, first);
    FreeOutside(t, chain, c);
    var p := chain[|chain| - 1];
    StretchKeeps(t, p, c);
    StretchLength(t, p, c);
    SectorsAppend(g, chain, c);
    GrewByOne(t, chain, c);
    ChainOfFrom(g, Stretched(t, p, c), chain + [c], first);
  }

  lemma StretchLength(t: Table, p: nat, c: nat)
    requires p < |t| && c < |t|
    ensures |Stretched(t, p, c)| == |t|
  {
  }

  /** Nothing but the old tail and clusters that were free changes in the table. */
  ghost predicate OnlyGrew(t: Table, t': Table, s: seq<nat>, s': seq<nat>) {
    && |t| == |t'| && |s| > 0 && s <= s'
    && (forall i :: |s| <= i < |s'| ==> IsFree(t, s'[i]))
    && (forall c: nat :: InTable(t, c) && c !in s'[|s| - 1..] ==> t'[c] == t[c])
  }

  /** Stretching an owned chain from its tail leaves an owned chain, one cluster longer. */
  lemma OwnedStretch(g: Geometry, n: nat, t: Table, chain: seq<nat>, first: nat, busy: nat, dirSect: nat, dirClust: nat,
                     c: nat, busy': nat)
    requires Owned(g, t, chain, first, busy, dirSect, dirClust) && g.Fits(n)
    requires IsFree(t, c) && busy' < g.dataSect
    ensures Owned(g, Stretched(t, chain[|chain| - 1], c), chain + [c], first, busy', dirSect, dirClust)
    ensures OnlyGrew(t, Stretched(t, chain[|chain| - 1], c), chain, chain + [c])
  {
    hide *;
    OwnedParts(g, t, chain, first, busy, dirSect, dirClust);
    FreeOutside(t, chain, c);
    var p := chain[|chain| - 1];
    StretchKeeps(t, p, c);
    SectorsAppend(g, chain, c);
    SectorsInData(g, chain + [c], n);
    StretchEntries(t, p, c, dirClust);
    GrewByOne(t, chain, c);
    OwnedFrom(g, Stretched(t, p, c), chain + [c], first, busy', dirSect, dirClust);
  }

  lemma OwnedParts(g: Geometry, t: Table, chain: seq<nat>, first: nat, busy: nat, dirSect: nat, dirClust: nat)
    requires Owned(g, t, chain, first, busy, dirSect, dirClust)
    ensures |t| == g.clustCnt && |t| <= BAD && WellFormed(t) && IsChain(t, chain) && |chain| > 0 && chain[0] == first
    ensures Clusters(g, chain) && busy !in Sectors(g, chain)
    ensures InUse(t, dirClust) && 2 <= dirClust < g.clustCnt && dirClust !in chain
    ensures g.ClustToSect(dirClust) <= dirSect < g.ClustToSect(dirClust) + g.spc
  {
  }

  lemma OwnedFrom(g: Geometry, t: Table, chain: seq<nat>, first: nat, busy: nat, dirSect: nat, dirClust: nat)
    requires |t| == g.clustCnt && WellFormed(t) && IsChain(t, chain) && |chain| > 0 && chain[0] == first
    requires Clusters(g, chain) && busy !in Sectors(g, chain)
    requires InUse(t, dirClust) && 2 <= dirClust && dirClust !in chain
    requires g.ClustToSect(dirClust) <= dirSect < g.ClustToSect(dirClust) + g.spc
    ensures Owned(g, t, chain, first, busy, dirSect, dirClust)
  {
  }

  /** A free cluster is in no chain, and a chain ends in a tail. */
  lemma FreeOutside(t: Table, s: seq<nat>, c: nat)
    requires WellFormed(t) && IsChain(t, s) && IsFree(t, c)
    ensures |s| > 0 && c !in s && IsTail(t, s[|s| - 1]) && 2 <= c < |t| && s[|s| - 1] in s && 2 <= s[|s| - 1] < |t|
  {
    forall i | 0 <= i < |s| ensures s[i] != c { ChainInUse(t, s, i); }
  }

  /** A cluster in use, other than the tail that is stretched, stays in use. */
  lemma StretchEntries(t: Table, p: nat, c: nat, d: nat)
    requires IsFree(t, c) && IsTail(t, p) && InUse(t, d) && d != p
    ensures d != c && InUse(Stretched(t, p, c), d) && |Stretched(t, p, c)| == |t|
  {
  }

  /** A chain that shares no cluster with one that grew is still a chain, and still shares none. */
  lemma OtherChainKept(t: Table, t': Table, s: seq<nat>, s': seq<nat>, r: seq<nat>)
    requires OnlyGrew(t, t', s, s') && IsChain(t, r) && forall c :: c in r ==> c !in s
    ensures IsChain(t', r) && (forall c :: c in r ==> c !in s')
  {
    forall i | 0 <= i < |r|
      ensures r[i] !in s' && t'[r[i]] == t[r[i]]
    {
      ChainInUse(t, r, i);
      assert r[i] in r;
      forall j | 0 <= j < |s'| ensures s'[j] != r[i] {
        assert j < |s| ==> s[j] == s'[j];
      }
    }
    forall i | 0 <= i < |r| - 1 ensures t'[r[i]] == r[i + 1] { assert t[r[i]] == r[i + 1]; }
  }

  /** Chains that share no cluster share no sector. */
  lemma SectorsApart(g: Geometry, s: seq<nat>, r: seq<nat>)
    requires Clusters(g, s) && Clusters(g, r) && forall c :: c in r ==> c !in s
    ensures forall x :: x in Sectors(g, r) ==> x !in Sectors(g, s)
  {
    forall x | 0 <= x < |Sectors(g, r)|
      ensures Sectors(g, r)[x] !in Sectors(g, s)
    {
      var k, i := SectorOrigin(g, r, x);
      OutsideChain(g, s, r[k], i);
    }
  }

  lemma GrewNot(t: Table, chain: seq<nat>)
    requires |chain| > 0
    ensures OnlyGrew(t, t, chain, chain)
  {
  }

  lemma GrewByOne(t: Table, chain: seq<nat>, c: nat)
    requires |chain| > 0 && IsFree(t, c) && 2 <= chain[|chain| - 1] < |t|
    ensures OnlyGrew(t, Stretched(t, chain[|chain| - 1], c), chain, chain + [c])
  {
    assert (chain + [c])[|chain| - 1..] == [chain[|chain| - 1], c];
  }

  /** Growth composes for chains. */
  lemma ChainGrewTwice(t: Table, t1: Table, t2: Table, s: seq<nat>, s1: seq<nat>, s2: seq<nat>)
    requires OnlyGrew(t, t1, s, s1) && OnlyGrew(t1, t2, s1, s2) && IsChain(t1, s1) && IsChain(t2, s2) && |t2| <= BAD
    ensures OnlyGrew(t, t2, s, s2)
  {
    ChainDistinct(t2, s2);
    forall i | 0 <= i < |s1|
      ensures InTable(t, s1[i]) && t1[s1[i]] != 0
    {
      ChainStep(t1, s1, i);
    }
    OnlyGrewTwice(t, t1, t2, s, s1, s2);
  }

  /** Growth composes. */
  lemma OnlyGrewTwice(t: Table, t1: Table, t2: Table, s: seq<nat>, s1: seq<nat>, s2: seq<nat>)
    requires OnlyGrew(t, t1, s, s1) && OnlyGrew(t1, t2, s1, s2) && Distinct(s2)
    requires forall i :: 0 <= i < |s1| ==> InTable(t, s1[i]) && t1[s1[i]] != 0
    ensures OnlyGrew(t, t2, s, s2)
  {
    forall i | |s| <= i < |s2|
      ensures IsFree(t, s2[i])
    {
      if i < |s1| {
        assert s1[i] == s2[i];
      } else {
        assert IsFree(t1, s2[i]);
        assert s2[i] !in s1[|s| - 1..];
      }
    }
    forall c: nat | InTable(t, c) && c !in s2[|s| - 1..]
      ensures t2[c] == t[c]
    {
      assert c !in s1[|s| - 1..] by { assert s1[|s| - 1..] <= s2[|s| - 1..]; }
      assert c !in s2[|s1| - 1..] by { assert s2[|s1| - 1..] == s2[|s| - 1..][|s1| - |s|..]; }
    }
  }
}
