/** A session on an open file: any list of seeks, reads, writes and syncs against plain bytes, a size and a cursor. */
module Sessions {
  import opened Bytes
  import opened Chains
  import opened Volume
  import opened Layout
  import opened Entries
  import opened FatFs
  import opened Files

  datatype Op =
    | Seek(delta: int, whence: Whence)
    | Read(len: nat)
    | Write(d: seq<Byte>)
    | Sync(date: Half, time: Half)

  /** What a file is to its user. Of the data, the bytes from the size on are room that was allocated ahead. */
  datatype Model = Model(data: seq<Byte>, size: nat, cursor: nat)

  function Base(a: Model, whence: Whence): int {
    match whence case SeekStart => 0 case SeekCurr => a.cursor case SeekEnd => a.size
  }

  function Readable(a: Model, len: nat): nat {
    if a.size <= a.cursor then 0 else if len < a.size - a.cursor then len else a.size - a.cursor
  }

  /** Data b is a with d written at o, and perhaps longer. */
  ghost predicate Replaced(a: seq<Byte>, o: nat, d: seq<Byte>, b: seq<Byte>) {
    && |a| <= |b| && o + |d| <= |b| && b[o..o + |d|] == d
    && forall k :: 0 <= k < |a| && !(o <= k < o + |d|) ==> b[k] == a[k]
  }

  /** An operation that succeeds on a delivers out and leaves b. */
  ghost predicate Done(a: Model, op: Op, out: seq<Byte>, b: Model) {
    match op
    case Seek(delta, whence) =>
      out == [] && b.cursor == Base(a, whence) + delta && b.size == a.size && a.data <= b.data
    case Read(len) =>
      && a.cursor + Readable(a, len) <= |a.data| && out == a.data[a.cursor..a.cursor + Readable(a, len)]
      && b.cursor == a.cursor + |out| && b.size == a.size && a.data <= b.data
    case Write(d) =>
      out == [] && b.cursor == a.cursor + |d| && b.size == (if a.size < b.cursor then b.cursor else a.size) && Replaced(a.data, a.cursor, d, b.data)
    case Sync(_, _) =>
      out == [] && b == a
  }

  /** No data sector apart from those of the file and the one with its directory entry differs. */
  ghost predicate Foreign(g: Geometry, v: seq<Sector>, v': seq<Sector>, secs: seq<nat>, x: nat) {
    |v'| == |v| && forall s :: g.dataSect <= s < |v| && s !in secs && s != x ==> v'[s] == v[s]
  }

  lemma ForeignTwice(g: Geometry, v: seq<Sector>, v1: seq<Sector>, v2: seq<Sector>, s1: seq<nat>, s2: seq<nat>, x: nat)
    requires Foreign(g, v, v1, s1, x) && Foreign(g, v1, v2, s2, x) && s1 <= s2
    ensures Foreign(g, v, v2, s2, x)
  {
    assert forall s :: s in s1 ==> s in s2;
  }

  ghost function ModelOf(f: File): Model
    requires f.Valid()
    reads f, f.buf, f.fat, f.fat.buf
  {
    Model(f.Data(), f.size, f.offset)
  }

  /** Since b the chain of the file has only grown, and nobody else's sectors, chains or counters have changed. */
  ghost predicate Since(f: File, b: Snapshot)
    requires f.Valid()
    reads f, f.buf, f.fat, f.fat.buf
  {
    f.Grew(b) && Foreign(f.fat.g, b.view, f.View(), f.Secs(), f.dirSect)
  }

  lemma SinceSelf(f: File)
    requires f.Valid()
    ensures Since(f, f.Now())
  {
    hide Fat.Valid, Fat.L, Fat.T, Layout.Owned, Layout.Sectors, Layout.Clusters, Layout.Content, Layout.OnlyGrew, File.Keeps;
    f.KeepsSelf();
  }

  lemma SinceTwice(f: File, b: Snapshot, b': Snapshot)
    requires f.Valid() && Since(f, b') && OnlyGrew(b.t, b'.t, b.chain, b'.chain) && b.secs <= b'.secs
    requires b'.drift == b.drift && (b.mirror ==> b'.mirror) && |b'.t| <= BAD && IsChain(b'.t, b'.chain)
    requires Foreign(f.fat.g, b.view, b'.view, b'.secs, f.dirSect)
    ensures Since(f, b)
  {
    hide Fat.Valid, Fat.L, Fat.T, Layout.OnlyGrew, Chains.IsChain, File.View, File.Secs, File.Valid, Foreign;
    f.GrewTwice(b, b');
    f.GrewMeans(b');
    ForeignTwice(f.fat.g, b.view, b'.view, f.View(), b'.secs, f.Secs(), f.dirSect);
  }

  lemma SinceMeans(f: File, b: Snapshot)
    requires f.Valid() && Since(f, b)
    ensures OnlyGrew(b.t, f.Now().t, b.chain, f.Now().chain) && b.secs <= f.Now().secs && f.Now().drift == b.drift && (b.mirror ==> f.Now().mirror)
    ensures |f.Now().t| <= BAD && IsChain(f.Now().t, f.Now().chain) && Foreign(f.fat.g, b.view, f.Now().view, f.Now().secs, f.dirSect)
  {
    hide Fat.Valid, Fat.L, Fat.T, Layout.OnlyGrew, Layout.Sectors, Layout.Clusters, Layout.Content, Chains.IsChain, File.Data;
    f.GrewMeans(b);
  }

  /** An operation that keeps the bytes and all data sectors. */
  lemma SinceKept(f: File, b: Snapshot)
    requires f.Valid() && f.Keeps(b)
    ensures Since(f, b) && b.data <= f.Data()
  {
    hide Fat.Valid, Fat.L, Fat.T, Layout.OnlyGrew, Layout.Sectors, Layout.Clusters, Layout.Content;
    f.KeepsMeans(b);
  }

  lemma SinceHolds(f: File, b: Snapshot, o: nat, d: seq<Byte>)
    requires f.Valid() && f.Holds(b, o, d)
    ensures Since(f, b)
  {
    hide Fat.Valid, Fat.L, Fat.T, Layout.OnlyGrew, Layout.Sectors, Layout.Clusters, Layout.Content, File.Valid, File.View, File.Secs, File.Grew;
  }

  lemma SinceSynced(f: File, b: Snapshot)
    requires f.Valid() && f.fat.T() == b.t && f.chain == b.chain && f.Secs() == b.secs && f.fat.Kept(b.drift, b.mirror)
    requires SameDataBut(f.fat.g, b.view, f.View(), f.dirSect)
    ensures Since(f, b)
  {
    hide Fat.Valid, Fat.L, Fat.T, Fat.Kept, Layout.Owned, Layout.OnlyGrew, Layout.Sectors, Layout.Clusters, Layout.Content;
    OwnedParts(f.fat.g, f.fat.T(), f.chain, f.sclust, f.fat.sect, f.dirSect, f.dirClust);
    GrewNot(f.fat.T(), f.chain);
  }

  method DoSeek(f: File, delta: int, whence: Whence) returns (ok: bool)
    requires f.Ready() && f.Valid()
    modifies f, f.buf, f.fat, f.fat.buf
    ensures ok ==> f.Ready() && f.Valid() && Done(old(ModelOf(f)), Seek(delta, whence), [], ModelOf(f)) && Since(f, old(f.Now()))
  {
    hide Fat.Valid, Fat.L, Fat.T, Fat.Drift, Fat.MirrorAgrees, Geometry.Fits, Layout.Owned, Layout.OnlyGrew, Layout.Sectors, Layout.Clusters, Layout.Content,
         Volume.Quot, Volume.SameData, Layout.Patched, Layout.OnDisk, File.Owns, File.View, File.Secs, File.Data, File.Valid, File.Ready, File.AtCursor,
         File.Keeps, File.Holds, File.Grew, File.Now, Since, Layout.Delivered;
    f.DataNow();
    ghost var b := f.Now();
    var err := f.Seek(delta, whence);
    ok := err == ERR_NONE;
    if ok {
      SinceKept(f, b);
    }
  }

  method DoRead(f: File, len: nat) returns (ok: bool, out: seq<Byte>)
    requires f.Ready() && f.Valid() && f.canRead
    modifies f, f.buf, f.fat, f.fat.buf
    ensures ok ==> f.Ready() && f.Valid() && Done(old(ModelOf(f)), Read(len), out, ModelOf(f)) && Since(f, old(f.Now()))
  {
    hide Fat.Valid, Fat.L, Fat.T, Fat.Drift, Fat.MirrorAgrees, Geometry.Fits, Layout.Owned, Layout.OnlyGrew, Layout.Sectors, Layout.Clusters, Layout.Content,
         Volume.Quot, Volume.SameData, Layout.Patched, Layout.OnDisk, File.Owns, File.View, File.Secs, File.Data, File.Valid, File.Ready, File.AtCursor,
         File.Keeps, File.Holds, File.Grew, File.Now, Since, Layout.Delivered;
    f.DataNow();
    f.ReadyMeans();
    ghost var b, o := f.Now(), f.offset;
    var dst := new Byte[len](_ => 0);
    ghost var dst0 := dst[..];
    var err, bytes := f.Read(dst, len);
    ok := err == ERR_NONE;
    DeliveredPrefix(dst[..], dst0, b.data, o, bytes);
    out := dst[..bytes];
    if ok {
      f.ReadyMeans();
      SinceKept(f, b);
    }
  }

  method DoWrite(f: File, d: seq<Byte>) returns (ok: bool)
    requires f.Ready() && f.Valid() && f.canWrite
    modifies f, f.buf, f.fat, f.fat.buf
    ensures ok ==> f.Ready() && f.Valid() && Done(old(ModelOf(f)), Write(d), [], ModelOf(f)) && Since(f, old(f.Now()))
  {
    hide Fat.Valid, Fat.L, Fat.T, Fat.Drift, Fat.MirrorAgrees, Geometry.Fits, Layout.Owned, Layout.OnlyGrew, Layout.Sectors, Layout.Clusters, Layout.Content,
         Volume.Quot, Volume.SameData, Layout.Patched, Layout.OnDisk, File.Owns, File.View, File.Secs, File.Data, File.Valid, File.Ready, File.AtCursor,
         File.Keeps, File.Holds, File.Grew, File.Now, Since, Layout.Delivered;
    f.DataNow();
    f.NowMeans();
    ghost var b, o := f.Now(), f.offset;
    var src := new Byte[|d|](i requires 0 <= i < |d| => d[i]);
    assert src[..|d|] == d;
    var err, bytes, e := f.Write(src, |d|);
    ok := e == ERR_NONE;
    if ok {
      f.ReadyMeans();
      f.HoldsMeans(b, o, d);
      SinceHolds(f, b, o, d);
    }
  }

  method DoSync(f: File, date: Half, time: Half) returns (ok: bool)
    requires f.Ready() && f.Valid()
    modifies f, f.buf, f.fat, f.fat.buf
    ensures ok ==> f.Ready() && f.Valid() && Done(old(ModelOf(f)), Sync(date, time), [], ModelOf(f)) && Since(f, old(f.Now()))
  {
    hide Fat.Valid, Fat.L, Fat.T, Fat.Drift, Fat.MirrorAgrees, Geometry.Fits, Layout.Owned, Layout.OnlyGrew, Layout.Sectors, Layout.Clusters, Layout.Content,
         Volume.Quot, Volume.SameData, Layout.Patched, Layout.OnDisk, File.Owns, File.View, File.Secs, File.Data, File.Valid, File.Ready, File.AtCursor,
         File.Keeps, File.Holds, File.Grew, File.Now, Since, Layout.Delivered;
    f.DataNow();
    ghost var b := f.Now();
    var err := f.Sync(date, time);
    ok := err == ERR_NONE;
    if ok {
      f.ReadyMeans();
      SinceSynced(f, b);
    }
  }

  /** One operation on a file that is open for reading and writing. */
  method Perform(f: File, op: Op) returns (ok: bool, out: seq<Byte>)
    requires f.Ready() && f.Valid() && f.canRead && f.canWrite
    modifies f, f.buf, f.fat, f.fat.buf
    ensures ok ==> f.Ready() && f.Valid() && Done(old(ModelOf(f)), op, out, ModelOf(f)) && Since(f, old(f.Now()))
  {
    hide File.Ready, File.Valid, File.Now, Since, Done, ModelOf;
    out := [];
    match op
    case Seek(delta, whence) => ok := DoSeek(f, delta, whence);
    case Read(len) => ok, out := DoRead(f, len);
    case Write(d) => ok := DoWrite(f, d);
    case Sync(date, time) => ok := DoSync(f, date, time);
  }

  /** A list of operations went through the models ms and delivered outs. */
  ghost predicate Went(ms: seq<Model>, ops: seq<Op>, outs: seq<seq<Byte>>) {
    |ms| == |ops| + 1 && |outs| == |ops| && forall i :: 0 <= i < |ops| ==> Done(ms[i], ops[i], outs[i], ms[i + 1])
  }

  lemma WentOn(ms: seq<Model>, ops: seq<Op>, outs: seq<seq<Byte>>, op: Op, out: seq<Byte>, m: Model)
    requires Went(ms, ops, outs) && Done(ms[|ops|], op, out, m)
    ensures Went(ms + [m], ops + [op], outs + [out])
  {
    hide Done;
  }

  /**
   Any list of operations, until one fails: each does to the bytes, the size and the cursor what it says, and the volume
   keeps everybody else's sectors and chains, the drift of its counter and the agreement of its tables.
   */
  method Run(f: File, ops: seq<Op>) returns (n: nat, outs: seq<seq<Byte>>, ghost ms: seq<Model>)
    requires f.Ready() && f.Valid() && f.canRead && f.canWrite
    modifies f, f.buf, f.fat, f.fat.buf
    ensures n <= |ops| && Went(ms, ops[..n], outs) && ms[0] == old(ModelOf(f))
    ensures n == |ops| ==> f.Ready() && f.Valid() && ModelOf(f) == ms[n] && Since(f, old(f.Now()))
  {
    hide File.Ready, File.Valid, File.Now, Since, Done, ModelOf, OnlyGrew, Foreign;
    ghost var b := f.Now();
    n, outs, ms := 0, [], [ModelOf(f)];
    SinceSelf(f);
    while n < |ops|
      invariant n <= |ops| && Went(ms, ops[..n], outs) && ms[0] == old(ModelOf(f))
      invariant f.Ready() && f.Valid() && ModelOf(f) == ms[n] && Since(f, b)
    {
      ghost var now := f.Now();
      SinceMeans(f, b);
      var ok, out := Perform(f, ops[n]);
      if !ok {
        return;
      }
      SinceTwice(f, b, now);
      assert ops[..n + 1] == ops[..n] + [ops[n]];
      WentOn(ms, ops[..n], outs, ops[n], out, ModelOf(f));
      n, outs, ms := n + 1, outs + [out], ms + [ModelOf(f)];
    }
    assert ops[..n] == ops;
  }

  /** A file that shares no cluster with this one, and whose sectors are not that of the directory entry, keeps its chain and every byte. */
  lemma OtherFileKept(g: Geometry, b: Snapshot, t: Table, chain: seq<nat>, v: seq<Sector>, x: nat, r: seq<nat>)
    requires Clusters(g, chain) && OnlyGrew(b.t, t, b.chain, chain) && Foreign(g, b.view, v, Sectors(g, chain), x)
    requires Clusters(g, r) && IsChain(b.t, r) && forall c :: c in r ==> c !in b.chain
    requires x !in Sectors(g, r) && OnDisk(Sectors(g, r), |b.view|) && forall y :: y in Sectors(g, r) ==> g.dataSect <= y
    ensures IsChain(t, r) && Content(v, Sectors(g, r)) == Content(b.view, Sectors(g, r))
  {
    hide Clusters, Sectors, OnlyGrew, Content, Chains.IsChain;
    OtherChainKept(b.t, t, b.chain, chain, r);
    SectorsApart(g, chain, r);
    ContentSame(b.view, v, Sectors(g, r));
  }

  // ---------------------------------------------------------------- what a session amounts to

  /** The byte at k after n operations: what the last write over it from operation m on put there, or what it was then. */
  ghost function ByteAfter(ms: seq<Model>, ops: seq<Op>, m: nat, n: nat, k: nat): Byte
    requires m <= n <= |ops| && |ms| == |ops| + 1 && k < |ms[m].data|
  {
    if n == m then ms[m].data[k]
    else
      match ops[n - 1]
      case Write(d) => if ms[n - 1].cursor <= k < ms[n - 1].cursor + |d| then d[k - ms[n - 1].cursor] else ByteAfter(ms, ops, m, n - 1, k)
      case _ => ByteAfter(ms, ops, m, n - 1, k)
  }

  lemma {:induction false} BytesKept(ms: seq<Model>, ops: seq<Op>, outs: seq<seq<Byte>>, m: nat, n: nat, k: nat)
    requires Went(ms, ops, outs) && m <= n <= |ops| && k < |ms[m].data|
    ensures k < |ms[n].data| && ms[n].data[k] == ByteAfter(ms, ops, m, n, k)
  {
    if m < n {
      BytesKept(ms, ops, outs, m, n - 1, k);
      assert Done(ms[n - 1], ops[n - 1], outs[n - 1], ms[n]);
      if ops[n - 1].Write? {
        var d, o := ops[n - 1].d, ms[n - 1].cursor;
        assert o <= k < o + |d| ==> ms[n].data[o..o + |d|][k - o] == d[k - o];
      }
    }
  }

  /** A read delivers, byte by byte, what was last written there. */
  lemma ReadsWhatWasWritten(ms: seq<Model>, ops: seq<Op>, outs: seq<seq<Byte>>, m: nat, i: nat, j: nat)
    requires Went(ms, ops, outs) && m <= i < |ops| && ops[i].Read? && j < |outs[i]| && ms[i].cursor + j < |ms[m].data|
    ensures outs[i][j] == ByteAfter(ms, ops, m, i, ms[i].cursor + j)
  {
    BytesKept(ms, ops, outs, m, i, ms[i].cursor + j);
    assert Done(ms[i], ops[i], outs[i], ms[i + 1]);
  }
}
