/** Steps on the page tables, as values. */
module TableSteps {

  import opened Tables

  /** Every table of the tree keeps its contents. */
  ghost predicate TablesKept(data: seq<Page>, after: seq<Page>, tables: map<Path, nat>) {
    |after| == |data| && forall p :: p in tables && tables[p] < |data| ==> after[tables[p]] == data[tables[p]]
  }

  lemma KeptTree(data: seq<Page>, after: seq<Page>, tables: map<Path, nat>)
    requires Tree(data, tables) && TablesKept(data, after, tables)
    ensures Tree(after, tables)
    ensures forall va: nat :: Leaf(after, tables, va) == Leaf(data, tables, va)
  {
    hide TableEntry, OneEach, Index, PathTo;
    forall p | p in tables
      ensures Node(after, tables, p)
    {
      assert Node(data, tables, p);
    }
  }

  /** A zeroed page f linked behind entry i of table p. */
  ghost predicate Links(data: seq<Page>, after: seq<Page>, tables: map<Path, nat>, p: Path, i: nat, f: nat) {
    && p in tables && |p| < LEVELS - 1 && i < ENTRIES && tables[p] < |data| && data[tables[p]][i] == 0
    && f < |data| && (forall q :: q in tables ==> tables[q] != f)
    && TableEntry(f) < 0x1_0000_0000_0000_0000
    && after == data[f := ZeroPage()][tables[p] := data[tables[p]][i := TableEntry(f)]]
  }

  lemma LinkRead(data: seq<Page>, after: seq<Page>, tables: map<Path, nat>, p: Path, i: nat, f: nat, q: Path)
    requires Tree(data, tables) && Links(data, after, tables, p, i, f) && q in tables
    ensures |after| == |data| && tables[q] < |data|
    ensures after[f] == ZeroPage()
    ensures after[tables[q]] == if q == p then data[tables[p]][i := TableEntry(f)] else data[tables[q]]
  {
    hide Node, ZeroPage, TableEntry;
    ParentOf(data, tables, q);
  }

  lemma LinkFresh(data: seq<Page>, after: seq<Page>, tables: map<Path, nat>, p: Path, i: nat, f: nat)
    requires Tree(data, tables) && Links(data, after, tables, p, i, f)
    ensures p + [i] !in tables
  {
    hide Tree, ZeroPage;
    Below(data, tables, p, i);
  }

  lemma LinkNode(data: seq<Page>, after: seq<Page>, tables: map<Path, nat>, p: Path, i: nat, f: nat, q: Path)
    requires Tree(data, tables) && Links(data, after, tables, p, i, f) && q in tables
    ensures Node(after, tables[p + [i] := f], q)
  {
    hide Tree, Links, Child, ZeroPage, TableEntry;
    LinkFresh(data, after, tables, p, i, f);
    LinkRead(data, after, tables, p, i, f, q);
    LinkParts(data, after, tables, p, i, f);
    ParentOf(data, tables, q);
    if |q| > 0 {
      LinkChild(data, after, tables, p, i, f, q);
    }
    if |q| < LEVELS - 1 {
      LinkBelow(data, after, tables, p, i, f, q);
    }
  }

  lemma LinkParts(data: seq<Page>, after: seq<Page>, tables: map<Path, nat>, p: Path, i: nat, f: nat)
    requires Links(data, after, tables, p, i, f)
    ensures p in tables && |p| < LEVELS - 1 && i < ENTRIES && f < |data| && tables[p] != f && tables[p] < |data|
    ensures TableEntry(f) < 0x1_0000_0000_0000_0000 && data[tables[p]][i] == 0
  {
  }

  lemma LinkChild(data: seq<Page>, after: seq<Page>, tables: map<Path, nat>, p: Path, i: nat, f: nat, q: Path)
    requires Tree(data, tables) && Links(data, after, tables, p, i, f) && q in tables && |q| > 0
    ensures Child(after, tables[p + [i] := f], q[..|q| - 1], q[|q| - 1], tables[q])
  {
    hide Tree, Links;
    LinkFresh(data, after, tables, p, i, f);
    LinkParts(data, after, tables, p, i, f);
    ParentOf(data, tables, q);
    var up := q[..|q| - 1];
    LinkRead(data, after, tables, p, i, f, up);
    assert q == up + [q[|q| - 1]];
    if up == p {
      assert q[|q| - 1] != i;
    }
  }

  lemma LinkBelow(data: seq<Page>, after: seq<Page>, tables: map<Path, nat>, p: Path, i: nat, f: nat, q: Path)
    requires Tree(data, tables) && Links(data, after, tables, p, i, f) && q in tables && |q| < LEVELS - 1
    ensures tables[q] < |after|
    ensures forall j :: 0 <= j < ENTRIES && after[tables[q]][j] != 0 ==> q + [j] in tables[p + [i] := f]
  {
    hide Tree, Links;
    LinkParts(data, after, tables, p, i, f);
    LinkRead(data, after, tables, p, i, f, q);
    forall j | 0 <= j < ENTRIES && after[tables[q]][j] != 0
      ensures q + [j] in tables[p + [i] := f]
    {
      Below(data, tables, q, j);
    }
  }

  lemma LinkNew(data: seq<Page>, after: seq<Page>, tables: map<Path, nat>, p: Path, i: nat, f: nat)
    requires Tree(data, tables) && Links(data, after, tables, p, i, f)
    ensures Node(after, tables[p + [i] := f], p + [i])
  {
    hide Tree, Links, TableEntry;
    LinkFresh(data, after, tables, p, i, f);
    LinkParts(data, after, tables, p, i, f);
    LinkRead(data, after, tables, p, i, f, p);
    assert (p + [i])[..|p|] == p;
  }

  /** Linking a zeroed page makes it a table, and no address finds anything else than before. */
  lemma LinkTree(data: seq<Page>, after: seq<Page>, tables: map<Path, nat>, p: Path, i: nat, f: nat)
    requires Tree(data, tables) && Links(data, after, tables, p, i, f)
    ensures p + [i] !in tables && Tree(after, tables[p + [i] := f])
  {
    hide Node, ZeroPage, TableEntry;
    LinkFresh(data, after, tables, p, i, f);
    var more := tables[p + [i] := f];
    forall q | q in more
      ensures Node(after, more, q)
    {
      if q == p + [i] {
        LinkNew(data, after, tables, p, i, f);
      } else {
        LinkNode(data, after, tables, p, i, f, q);
      }
    }
  }

  lemma LinkLeaf(data: seq<Page>, after: seq<Page>, tables: map<Path, nat>, p: Path, i: nat, f: nat, va: nat)
    requires Tree(data, tables) && Links(data, after, tables, p, i, f)
    ensures Leaf(after, tables[p + [i] := f], va) == Leaf(data, tables, va)
  {
    hide Tree, Links, TableEntry, Index;
    LinkFresh(data, after, tables, p, i, f);
    LinkParts(data, after, tables, p, i, f);
    LinkRead(data, after, tables, p, i, f, p);
    var q := PathTo(va, LEVELS - 1);
    if q in tables {
      LinkRead(data, after, tables, p, i, f, q);
    }
  }

  /** The first table of an address space. */
  lemma RootTree(data: seq<Page>, f: nat)
    requires f < |data| && data[f] == ZeroPage()
    ensures Tree(data, map[[] := f])
    ensures forall va: nat :: Leaf(data, map[[] := f], va) == 0
  {
    hide TableEntry, Index;
  }

  /** Writing a last-level entry leaves the tree as it is and changes what one page of addresses finds. */
  lemma LeafTree(data: seq<Page>, tables: map<Path, nat>, va: nat, w: Word)
    requires Tree(data, tables) && PathTo(va, LEVELS - 1) in tables && va < SPACE
    ensures tables[PathTo(va, LEVELS - 1)] < |data|
    ensures var f := tables[PathTo(va, LEVELS - 1)];
            Tree(data[f := data[f][Index(va, LEVELS - 1) := w]], tables)
  {
    hide TableEntry, Index;
    var p := PathTo(va, LEVELS - 1);
    ParentOf(data, tables, p);
    var f := tables[p];
    var after := data[f := data[f][Index(va, LEVELS - 1) := w]];
    forall q | q in tables
      ensures Node(after, tables, q)
    {
      LeafNode(data, tables, p, Index(va, LEVELS - 1), w, q);
    }
  }

  lemma LeafNode(data: seq<Page>, tables: map<Path, nat>, p: Path, i: nat, w: Word, q: Path)
    requires Tree(data, tables) && p in tables && |p| == LEVELS - 1 && i < ENTRIES && q in tables
    requires tables[p] < |data|
    ensures Node(data[tables[p] := data[tables[p]][i := w]], tables, q)
  {
    hide TableEntry;
    assert Node(data, tables, q);
  }

  lemma LeafWritten(data: seq<Page>, tables: map<Path, nat>, va: nat, w: Word, vb: nat)
    requires Tree(data, tables) && PathTo(va, LEVELS - 1) in tables && va < SPACE && vb < SPACE
    requires tables[PathTo(va, LEVELS - 1)] < |data|
    ensures var f := tables[PathTo(va, LEVELS - 1)];
            Leaf(data[f := data[f][Index(va, LEVELS - 1) := w]], tables, vb)
            == if vb / PAGE_SIZE == va / PAGE_SIZE then w else Leaf(data, tables, vb)
  {
    hide Node, Index;
    SamePath(va, vb);
    assert PathTo(va, LEVELS) == PathTo(va, LEVELS - 1) + [Index(va, LEVELS - 1)];
    assert PathTo(vb, LEVELS) == PathTo(vb, LEVELS - 1) + [Index(vb, LEVELS - 1)];
    if PathTo(va, LEVELS - 1) == PathTo(vb, LEVELS - 1) {
      assert PathTo(va, LEVELS) == PathTo(vb, LEVELS) <==> Index(va, LEVELS - 1) == Index(vb, LEVELS - 1);
    } else {
      assert PathTo(va, LEVELS)[..LEVELS - 1] == PathTo(va, LEVELS - 1);
      assert PathTo(vb, LEVELS)[..LEVELS - 1] == PathTo(vb, LEVELS - 1);
      assert PathTo(va, LEVELS) != PathTo(vb, LEVELS);
    }
  }
}

/** The address space of one process: a flat map from pages of addresses to physical pages, kept in page tables. */
module AddressSpaces {

  import opened Tables
  import opened TableSteps

  const MAX_PAGES := 16       // room in each of the two lists of a process

  ghost predicate Shape(m: Ram) {
    |m.used| == N_PAGES && |m.data| == N_PAGES
  }

  ghost function Free(m: Ram): set<nat> {
    set f: nat | f < |m.used| && !m.used[f]
  }

  /** Page f handed out: marked and zeroed. */
  ghost function Got(m: Ram, f: nat): Ram
    requires Shape(m) && f < N_PAGES
  {
    Ram(m.used[f := true], m.data[f := ZeroPage()])
  }

  /** Word i of page f written. */
  ghost function Put(m: Ram, f: nat, i: nat, w: Word): Ram
    requires Shape(m) && f < N_PAGES && i < ENTRIES
  {
    m.(data := m.data[f := m.data[f][i := w]])
  }

  /** What a list of mapped pages says about an address: the entry of its last mention, 0 when there is none. */
  ghost function Flat(user: seq<UserPage>, va: nat): nat {
    if user == [] then 0
    else
      var last := user[|user| - 1];
      if last.virtual / PAGE_SIZE == va / PAGE_SIZE then last.physical + PAGE_FLAGS else Flat(user[..|user| - 1], va)
  }

  ghost predicate Taken(m: Ram, tables: map<Path, nat>) {
    forall p :: p in tables ==> tables[p] < |m.used| && m.used[tables[p]]
  }

  ghost function Addresses(tables: map<Path, nat>): set<nat> {
    set p | p in tables :: Addr(tables[p])
  }

  /** The list holds the address of every table page once and nothing else. */
  ghost predicate Listed(kernel: seq<nat>, tables: map<Path, nat>) {
    |kernel| == |tables| && forall a :: a in kernel <==> a in Addresses(tables)
  }

  /** Every address finds through the tables what the list of mapped pages says. */
  ghost predicate Flattened(data: seq<Page>, tables: map<Path, nat>, user: seq<UserPage>) {
    forall va: nat :: va < SPACE ==> Leaf(data, tables, va) == Flat(user, va)
  }

  /** Mapped pages start at page addresses. */
  ghost predicate Aligned(user: seq<UserPage>) {
    forall i :: 0 <= i < |user| ==> user[i].physical % PAGE_SIZE == 0
  }

  /** What the list says is nothing or an entry that opens a page. */
  lemma {:induction false} FlatOpens(user: seq<UserPage>, va: nat)
    requires Aligned(user)
    ensures Flat(user, va) == 0 || PageDescriptor(Flat(user, va))
  {
    hide PageDescriptor;
    if user != [] {
      FlagsOpen(user[|user| - 1].physical);
      FlatOpens(user[..|user| - 1], va);
    }
  }

  ghost predicate Mapped(m: Ram, s: Space) {
    && Shape(m) && Tree(m.data, s.tables) && Rooted(s.pgd, s.tables) && Taken(m, s.tables)
    && Listed(s.kernel, s.tables) && Flattened(m.data, s.tables, s.user) && Aligned(s.user)
  }

  /** The page-table walk of an address space is its flat map. */
  lemma WalkFlat(m: Ram, s: Space, va: nat)
    requires Mapped(m, s) && va < SPACE
    ensures Walk(m.data, s.pgd, va) == Flat(s.user, va)
  {
    hide Tree, Rooted, Walk, Leaf, Flat, Aligned, PageDescriptor;
    FlatOpens(s.user, va);
    WalkIs(m.data, s.tables, s.pgd, va);
  }

  /** The list of table pages holds exactly the pages that can be reached from the top table. */
  lemma KernelListed(m: Ram, s: Space, a: nat)
    requires Mapped(m, s)
    ensures a in s.kernel <==> exists p: Path :: |p| < LEVELS && Reach(m.data, s.pgd, p) >= 0 && a == Addr(Reach(m.data, s.pgd, p))
  {
    hide Tree, Rooted, Reach, Flattened, Addr;
    forall p: Path | |p| < LEVELS
      ensures Reach(m.data, s.pgd, p) == if p in s.tables then s.tables[p] else -1
    {
      ReachIs(m.data, s.tables, s.pgd, p);
    }
    forall p | p in s.tables
      ensures |p| < LEVELS
    {
      ParentOf(m.data, s.tables, p);
    }
  }

  lemma ListedMore(kernel: seq<nat>, tables: map<Path, nat>, q: Path, f: nat)
    requires Listed(kernel, tables) && q !in tables
    ensures Listed(kernel + [Addr(f)], tables[q := f])
  {
    hide Addr;
    var more := tables[q := f];
    assert more.Keys == tables.Keys + {q};
    forall a
      ensures a in Addresses(more) <==> a in Addresses(tables) || a == Addr(f)
    {
      assert forall p :: p in more <==> p in tables || p == q;
      if a == Addr(f) {
        assert more[q] == f;
      }
      if a in Addresses(tables) {
        var p :| p in tables && a == Addr(tables[p]);
        assert more[p] == tables[p];
      }
    }
  }

  // ---------------------------------------------------------------- growing

  /** From one moment to a later one, an address space took some free pages as tables; the data of all other pages in use stay. */
  ghost predicate Grew(m: Ram, s: Space, n: Ram, t: Space) {
    && UsedMore(m, n, t.tables) && DataKept(m, s.tables, n) && TablesMore(m, s.tables, t.tables)
    && |Free(m)| + |s.tables| == |Free(n)| + |t.tables|
  }

  ghost predicate UsedMore(m: Ram, n: Ram, tables: map<Path, nat>) {
    |n.used| == |m.used| && forall g: nat :: g < |n.used| ==> (n.used[g] <==> m.used[g] || g in tables.Values)
  }

  ghost predicate DataKept(m: Ram, tables: map<Path, nat>, n: Ram) {
    && |n.data| == |m.data| == |m.used|
    && forall g: nat :: g < |m.used| && m.used[g] && g !in tables.Values ==> n.data[g] == m.data[g]
  }

  ghost predicate TablesMore(m: Ram, tables: map<Path, nat>, more: map<Path, nat>) {
    && (forall p :: p in tables ==> p in more && more[p] == tables[p])
    && (forall p :: p in more && p !in tables ==> more[p] in Free(m))
  }

  lemma GrewOn(m: Ram, s: Space, n: Ram, t: Space, o: Ram, u: Space)
    requires Grew(m, s, n, t) && Grew(n, t, o, u)
    ensures Grew(m, s, o, u)
  {
    hide Free;
    assert TablesMore(m, s.tables, u.tables) by {
      FreeIs(m);
      FreeIs(n);
      hide DataKept;
    }
    assert DataKept(m, s.tables, o) by {
      FreeIs(m);
      forall g: nat | g < |m.used| && m.used[g] && g !in s.tables.Values
        ensures g !in t.tables.Values
      {
      }
    }
    assert UsedMore(m, o, u.tables);
  }

  lemma FreeIs(m: Ram)
    ensures forall f: nat :: f in Free(m) <==> f < |m.used| && !m.used[f]
  {
  }

  lemma GrewNot(m: Ram, s: Space)
    requires Shape(m) && Taken(m, s.tables)
    ensures Grew(m, s, m, s)
  {
    forall g: nat | g in s.tables.Values
      ensures g < |m.used| && m.used[g]
    {
      var p :| p in s.tables && s.tables[p] == g;
    }
  }

  lemma FreeLess(m: Ram, f: nat)
    requires Shape(m) && f in Free(m)
    ensures Free(Got(m, f)) == Free(m) - {f} && |Free(Got(m, f))| == |Free(m)| - 1
  {
    hide ZeroPage;
    assert Free(Got(m, f)) == Free(m) - {f};
  }

  /** A page taken as the top table. */
  ghost function WithRoot(s: Space, f: nat): Space {
    Space(Addr(f), s.tables[[] := f], s.kernel + [Addr(f)], s.user)
  }

  lemma RootMapped(m: Ram, s: Space, f: nat)
    requires Mapped(m, s) && s.tables == map[] && f in Free(m)
    ensures Shape(m) && f < N_PAGES
    ensures Mapped(Got(m, f), WithRoot(s, f))
    ensures Grew(m, s, Got(m, f), WithRoot(s, f))
  {
    RootParts(m, s, f);
    RootGrew(m, s, f);
    RootFlat(m, s, f);
  }

  /** One more table in one more page is growth. */
  lemma GrewBy(m: Ram, s: Space, n: Ram, t: Space, q: Path, f: nat)
    requires Shape(m) && Shape(n) && f in Free(m) && q !in s.tables && t.tables == s.tables[q := f]
    requires n.used == m.used[f := true]
    requires forall g: nat :: g < N_PAGES && g != f && g !in s.tables.Values ==> n.data[g] == m.data[g]
    requires Taken(m, s.tables)
    ensures Grew(m, s, n, t)
  {
    hide Got;
    FreeLess(m, f);
    FreeAgain(Got(m, f), n) by {
      GotUsed(m, f);
    }
    assert t.tables.Keys == s.tables.Keys + {q};
    UsedBy(m, s, n, t, q, f);
  }

  lemma GotUsed(m: Ram, f: nat)
    requires Shape(m) && f < N_PAGES
    ensures Shape(Got(m, f)) && Got(m, f).used == m.used[f := true]
  {
  }

  lemma FreeAgain(m: Ram, n: Ram)
    requires m.used == n.used
    ensures Free(m) == Free(n)
  {
  }

  lemma UsedBy(m: Ram, s: Space, n: Ram, t: Space, q: Path, f: nat)
    requires f < |m.used| && q !in s.tables && t.tables == s.tables[q := f]
    requires n.used == m.used[f := true] && Taken(m, s.tables)
    ensures UsedMore(m, n, t.tables)
  {
    ValuesMore(s.tables, q, f);
    forall g: nat | g in s.tables.Values
      ensures g < |m.used| && m.used[g]
    {
      var p :| p in s.tables && s.tables[p] == g;
    }
  }

  lemma RootGrew(m: Ram, s: Space, f: nat)
    requires Shape(m) && s.tables == map[] && f in Free(m)
    ensures Grew(m, s, Got(m, f), WithRoot(s, f))
  {
    hide Addr, ZeroPage, Grew;
    GrewBy(m, s, Got(m, f), WithRoot(s, f), [], f);
  }

  lemma RootParts(m: Ram, s: Space, f: nat)
    requires Shape(m) && s.tables == map[] && f in Free(m) && Listed(s.kernel, s.tables)
    ensures Shape(Got(m, f)) && Tree(Got(m, f).data, map[[] := f])
    ensures Rooted(Addr(f), map[[] := f]) && Taken(Got(m, f), map[[] := f])
    ensures Listed(s.kernel + [Addr(f)], map[[] := f])
    ensures WithRoot(s, f).tables == map[[] := f]
  {
    hide Addr, ZeroPage, Tree, Listed, Leaf;
    RootTree(Got(m, f).data, f);
    ListedMore(s.kernel, s.tables, [], f);
    assert s.tables[[] := f] == map[[] := f];
  }

  lemma RootFlat(m: Ram, s: Space, f: nat)
    requires Shape(m) && s.tables == map[] && f in Free(m) && Flattened(m.data, s.tables, s.user)
    ensures Flattened(Got(m, f).data, map[[] := f], s.user)
  {
    hide ZeroPage, Tree, Flat, Index, PathTo;
    RootTree(Got(m, f).data, f);
    forall va: nat | va < SPACE
      ensures Leaf(Got(m, f).data, map[[] := f], va) == Flat(s.user, va)
    {
      assert Leaf(m.data, s.tables, va) == Flat(s.user, va);
    }
  }

  /** A page linked below table p. */
  ghost function WithTable(s: Space, q: Path, f: nat): Space {
    s.(tables := s.tables[q := f], kernel := s.kernel + [Addr(f)])
  }

  ghost predicate Linkable(m: Ram, s: Space, p: Path, i: nat, f: nat) {
    && p in s.tables && |p| < LEVELS - 1 && i < ENTRIES && s.tables[p] < N_PAGES && s.tables[p] != f
    && |m.data| == N_PAGES && m.data[s.tables[p]][i] == 0
    && f in Free(m) && f < N_PAGES && TableEntry(f) < 0x1_0000_0000_0000_0000
  }

  ghost function LinkedRam(m: Ram, s: Space, p: Path, i: nat, f: nat): Ram
    requires Shape(m) && Linkable(m, s, p, i, f)
  {
    Put(Got(m, f), s.tables[p], i, TableEntry(f))
  }

  lemma LinkedIs(m: Ram, s: Space, p: Path, i: nat, f: nat)
    requires Shape(m) && Linkable(m, s, p, i, f) && Taken(m, s.tables)
    ensures Links(m.data, LinkedRam(m, s, p, i, f).data, s.tables, p, i, f)
  {
    hide ZeroPage, TableEntry;
  }

  lemma LinkMapped(m: Ram, s: Space, p: Path, i: nat, f: nat)
    requires Mapped(m, s) && Linkable(m, s, p, i, f)
    ensures Mapped(LinkedRam(m, s, p, i, f), WithTable(s, p + [i], f))
    ensures p + [i] !in s.tables
    ensures Grew(m, s, LinkedRam(m, s, p, i, f), WithTable(s, p + [i], f))
  {
    hide Tree, Rooted, Taken, Listed, Flattened, Linkable, LinkedRam, Grew;
    LinkedParts(m, s, p, i, f);
    LinkedFlat(m, s, p, i, f);
    LinkedGrew(m, s, p, i, f);
  }

  lemma LinkedParts(m: Ram, s: Space, p: Path, i: nat, f: nat)
    requires Mapped(m, s) && Linkable(m, s, p, i, f)
    ensures p + [i] !in s.tables
    ensures Shape(LinkedRam(m, s, p, i, f)) && Tree(LinkedRam(m, s, p, i, f).data, s.tables[p + [i] := f])
    ensures Rooted(s.pgd, s.tables[p + [i] := f]) && Taken(LinkedRam(m, s, p, i, f), s.tables[p + [i] := f])
    ensures Listed(s.kernel + [Addr(f)], s.tables[p + [i] := f])
  {
    hide Tree, Listed, Addr, TableEntry, ZeroPage, Links, Flattened;
    LinkedIs(m, s, p, i, f);
    LinkTree(m.data, LinkedRam(m, s, p, i, f).data, s.tables, p, i, f);
    ListedMore(s.kernel, s.tables, p + [i], f);
  }

  lemma LinkedFlat(m: Ram, s: Space, p: Path, i: nat, f: nat)
    requires Mapped(m, s) && Linkable(m, s, p, i, f)
    ensures Flattened(LinkedRam(m, s, p, i, f).data, s.tables[p + [i] := f], s.user)
  {
    hide Tree, Listed, Links, Flat, Leaf, LinkedRam, Linkable, Rooted;
    LinkedIs(m, s, p, i, f);
    forall va: nat | va < SPACE
      ensures Leaf(LinkedRam(m, s, p, i, f).data, s.tables[p + [i] := f], va) == Flat(s.user, va)
    {
      assert Leaf(m.data, s.tables, va) == Flat(s.user, va);
      LinkLeaf(m.data, LinkedRam(m, s, p, i, f).data, s.tables, p, i, f, va);
    }
  }

  lemma LinkedGrew(m: Ram, s: Space, p: Path, i: nat, f: nat)
    requires Mapped(m, s) && Linkable(m, s, p, i, f)
    ensures Grew(m, s, LinkedRam(m, s, p, i, f), WithTable(s, p + [i], f))
  {
    hide Tree, Listed, Flattened, ZeroPage, TableEntry, Addr, Rooted, Grew;
    LinkedParts(m, s, p, i, f);
    assert s.tables[p] in s.tables.Values;
    GrewBy(m, s, LinkedRam(m, s, p, i, f), WithTable(s, p + [i], f), p + [i], f);
  }

  lemma ValuesMore(tables: map<Path, nat>, q: Path, f: nat)
    requires q !in tables
    ensures tables[q := f].Values == tables.Values + {f}
  {
    var more := tables[q := f];
    assert forall p :: p in tables ==> more[p] == tables[p];
    assert more[q] == f;
  }

  /** The last-level entry of a page of addresses written. */
  ghost function LeafRam(m: Ram, s: Space, va: nat, w: Word): Ram
    requires Shape(m) && PathTo(va, LEVELS - 1) in s.tables && s.tables[PathTo(va, LEVELS - 1)] < N_PAGES
  {
    Put(m, s.tables[PathTo(va, LEVELS - 1)], Index(va, LEVELS - 1), w)
  }

  ghost function Mention(s: Space, va: nat, pa: nat): Space {
    s.(user := s.user + [UserPage(pa, va)])
  }

  lemma LeafMapped(m: Ram, s: Space, va: nat, pa: nat)
    requires Mapped(m, s) && PathTo(va, LEVELS - 1) in s.tables && va < SPACE && pa < SPACE && pa % PAGE_SIZE == 0
    requires s.tables[PathTo(va, LEVELS - 1)] < N_PAGES
    ensures Mapped(LeafRam(m, s, va, pa + PAGE_FLAGS), Mention(s, va, pa))
    ensures Grew(m, s, LeafRam(m, s, va, pa + PAGE_FLAGS), Mention(s, va, pa))
  {
    hide Tree, Rooted, Listed, Flattened, Addr, PathTo, Index;
    LeafTree(m.data, s.tables, va, pa + PAGE_FLAGS);
    LeafFlat(m, s, va, pa);
  }

  lemma LeafFlat(m: Ram, s: Space, va: nat, pa: nat)
    requires Mapped(m, s) && PathTo(va, LEVELS - 1) in s.tables && va < SPACE && pa < SPACE
    requires s.tables[PathTo(va, LEVELS - 1)] < N_PAGES
    ensures Flattened(LeafRam(m, s, va, pa + PAGE_FLAGS).data, s.tables, s.user + [UserPage(pa, va)])
  {
    hide Tree, Rooted, Listed, Taken, Leaf, PathTo, Index;
    var after := LeafRam(m, s, va, pa + PAGE_FLAGS).data;
    var user := s.user + [UserPage(pa, va)];
    assert user[..|user| - 1] == s.user;
    forall vb: nat | vb < SPACE
      ensures Leaf(after, s.tables, vb) == Flat(user, vb)
    {
      assert Leaf(m.data, s.tables, vb) == Flat(s.user, vb);
      LeafWritten(m.data, s.tables, va, pa + PAGE_FLAGS, vb);
    }
  }
}

/** Who owns which page: the pages of an address space are its tables and the pages it maps. */
module Ownership {

  import opened Tables
  import opened TableSteps
  import opened AddressSpaces

  ghost function Mapping(user: seq<UserPage>): set<int> {
    set u | u in user :: FrameOf(u.physical)
  }

  ghost function Frames(s: Space): set<int> {
    s.tables.Values + Mapping(s.user)
  }

  /** The ways to the four tables that an address passes. */
  ghost function Ways(va: nat): (w: set<Path>) {
    {PathTo(va, 0), PathTo(va, 1), PathTo(va, 2), PathTo(va, 3)}
  }

  ghost function AllWays(user: seq<UserPage>): set<Path> {
    if user == [] then {} else AllWays(user[..|user| - 1]) + Ways(user[|user| - 1].virtual)
  }

  /** The mapped page is a page in use that is no table of this process. */
  ghost predicate Own(m: Ram, s: Space, u: UserPage) {
    var f := FrameOf(u.physical);
    0 <= f < |m.used| && u.physical == Addr(f) && m.used[f] && f !in s.tables.Values && u.virtual < SPACE
  }

  ghost predicate Apart(user: seq<UserPage>) {
    forall i, j :: 0 <= i < j < |user| ==> FrameOf(user[i].physical) != FrameOf(user[j].physical)
  }

  ghost predicate Owns(m: Ram, s: Space) {
    (forall i :: 0 <= i < |s.user| ==> Own(m, s, s.user[i])) && Apart(s.user)
  }

  /** An address space as the kernel keeps it: only mapped pages have tables, and the two lists have not overflowed. */
  ghost predicate Proper(m: Ram, s: Space) {
    && Mapped(m, s) && Owns(m, s) && s.tables.Keys == AllWays(s.user)
    && |s.user| <= MAX_PAGES && |s.kernel| <= MAX_PAGES
  }

  /** From one moment to a later one, an address space took free pages; pages in use elsewhere keep their contents. */
  ghost predicate Took(m: Ram, s: Space, n: Ram, t: Space) {
    && Shape(m) && Shape(n)
    && TookUsed(m, n, Frames(t)) && TookData(m, Frames(s), n) && TookFree(m, Frames(s), Frames(t))
    && |Free(m)| + |s.tables| + |s.user| == |Free(n)| + |t.tables| + |t.user|
  }

  ghost predicate TookUsed(m: Ram, n: Ram, frames: set<int>) {
    |n.used| == |m.used| && forall g: nat :: g < |n.used| ==> (n.used[g] <==> m.used[g] || g in frames)
  }

  ghost predicate TookData(m: Ram, frames: set<int>, n: Ram) {
    |n.data| == |m.data| == |m.used| && forall g: nat :: g < |m.used| && m.used[g] && g !in frames ==> n.data[g] == m.data[g]
  }

  ghost predicate TookFree(m: Ram, frames: set<int>, more: set<int>) {
    frames <= more && forall g: nat :: g in more && g !in frames ==> g in Free(m)
  }

  lemma TookOn(m: Ram, s: Space, n: Ram, t: Space, o: Ram, u: Space)
    requires Took(m, s, n, t) && Took(n, t, o, u)
    ensures Took(m, s, o, u)
  {
    hide Frames, Free;
    FreeIs(m);
    FreeIs(n);
  }

  lemma MappedKept(m: Ram, n: Ram, s: Space)
    requires Mapped(m, s) && Shape(n)
    requires forall g: nat :: g < N_PAGES && g in s.tables.Values ==> n.used[g] && n.data[g] == m.data[g]
    ensures Mapped(n, s)
  {
    hide Tree, Rooted, Listed, Leaf, Flat, PathTo;
    assert forall p :: p in s.tables ==> s.tables[p] in s.tables.Values;
    KeptTree(m.data, n.data, s.tables);
    forall va: nat | va < SPACE
      ensures Leaf(n.data, s.tables, va) == Flat(s.user, va)
    {
      assert Leaf(m.data, s.tables, va) == Flat(s.user, va);
    }
  }

  lemma GotMapped(m: Ram, s: Space, f: nat)
    requires Mapped(m, s) && f in Free(m)
    ensures Shape(m) && f < N_PAGES && f !in s.tables.Values && Mapped(Got(m, f), s)
  {
    hide Tree, Rooted, Listed, Flattened, ZeroPage, Mapped;
    MappedTaken(m, s);
    FreeIs(m);
    MappedKept(m, Got(m, f), s);
  }

  lemma MappedTaken(m: Ram, s: Space)
    requires Mapped(m, s)
    ensures Shape(m) && forall g: nat :: g in s.tables.Values ==> g < N_PAGES && m.used[g]
  {
    hide Tree, Rooted, Listed, Flattened;
  }

  /** A page f was handed out and then mapped, which took more pages as tables. */
  ghost predicate MappedIn(m: Ram, s: Space, f: nat, va: nat, n: Ram, t: Space) {
    && Shape(m) && f < N_PAGES && f in Free(m) && va < SPACE && Shape(n)
    && Grew(Got(m, f), s, n, t) && t.user == s.user + [UserPage(Addr(f), va)]
  }

  lemma MappedInTables(m: Ram, s: Space, f: nat, va: nat, n: Ram, t: Space)
    requires MappedIn(m, s, f, va, n, t) && Taken(m, s.tables)
    ensures s.tables.Values <= t.tables.Values && f !in t.tables.Values
    ensures forall g: nat :: g in t.tables.Values && g !in s.tables.Values ==> g in Free(m) && g != f
  {
    hide ZeroPage, UsedMore, DataKept;
    FreeLess(m, f);
    FreeIs(m);
    forall g | g in s.tables.Values
      ensures g in t.tables.Values
    {
      var p :| p in s.tables && s.tables[p] == g;
      assert t.tables[p] == g;
    }
    forall g: nat | g in t.tables.Values
      ensures g != f && (g !in s.tables.Values ==> g in Free(m))
    {
      var p :| p in t.tables && t.tables[p] == g;
      if p !in s.tables {
        assert g in Free(Got(m, f));
      } else {
        assert s.tables[p] == g;
      }
    }
  }

  lemma MappedInFrames(m: Ram, s: Space, f: nat, va: nat, n: Ram, t: Space)
    requires MappedIn(m, s, f, va, n, t)
    ensures Mapping(t.user) == Mapping(s.user) + {f as int}
  {
    hide Grew, Free, FrameOf, Addr, Got;
    FrameOfEntry(f, 0);
    var u := UserPage(Addr(f), va);
    assert t.user[|s.user|] == u;
    assert forall v :: v in t.user <==> v in s.user || v == u;
  }

  lemma MappedInTook(m: Ram, s: Space, f: nat, va: nat, n: Ram, t: Space)
    requires MappedIn(m, s, f, va, n, t) && Taken(m, s.tables) && Owns(m, s)
    ensures Took(m, s, n, t)
  {
    hide Mapping, Addr, Owns, Own, Taken, Free, TookUsed, ZeroPage, Grew, Got;
    MappedInTables(m, s, f, va, n, t);
    MappedInFrames(m, s, f, va, n, t);
    MappedInUsed(m, s, f, va, n, t);
    MappedInData(m, s, f, va, n, t);
    MappedInCount(m, s, f, va, n, t);
  }

  lemma MappedInUsed(m: Ram, s: Space, f: nat, va: nat, n: Ram, t: Space)
    requires MappedIn(m, s, f, va, n, t) && Taken(m, s.tables) && Owns(m, s)
    ensures TookUsed(m, n, Frames(t))
  {
    hide Mapping, DataKept, TablesMore, Owns, Addr, Taken, Free, ZeroPage;
    MappedInFrames(m, s, f, va, n, t);
    OwnsUsed(m, s);
  }

  lemma MappedInData(m: Ram, s: Space, f: nat, va: nat, n: Ram, t: Space)
    requires MappedIn(m, s, f, va, n, t) && Taken(m, s.tables)
    ensures n.data[f] == ZeroPage()
    ensures forall g: nat :: g < N_PAGES && m.used[g] && g !in s.tables.Values ==> n.data[g] == m.data[g]
  {
    hide UsedMore, TablesMore, Addr, ZeroPage;
    FreeIs(m);
    assert f !in s.tables.Values;
  }

  lemma MappedInCount(m: Ram, s: Space, f: nat, va: nat, n: Ram, t: Space)
    requires MappedIn(m, s, f, va, n, t)
    ensures |Free(m)| + |s.tables| + |s.user| == |Free(n)| + |t.tables| + |t.user|
  {
    hide UsedMore, TablesMore, DataKept, Addr, ZeroPage;
    FreeLess(m, f);
  }

  lemma MappedInOwns(m: Ram, s: Space, f: nat, va: nat, n: Ram, t: Space)
    requires MappedIn(m, s, f, va, n, t) && Taken(m, s.tables) && Owns(m, s)
    ensures Owns(n, t)
  {
    hide Addr, FrameOf, Grew, Taken, ZeroPage, Mapping, Got;
    FreeIs(m);
    FrameOfEntry(f, 0);
    MappedInTables(m, s, f, va, n, t);
    MappedInUsed(m, s, f, va, n, t);
    MappedInFrames(m, s, f, va, n, t);
    forall i | 0 <= i < |t.user|
      ensures Own(n, t, t.user[i]) && (i < |s.user| ==> FrameOf(t.user[i].physical) != f)
    {
      if i < |s.user| {
        assert Own(m, s, s.user[i]);
      }
    }
  }

  lemma OwnsUsed(m: Ram, s: Space)
    requires Owns(m, s)
    ensures forall g: nat :: g in Mapping(s.user) ==> g < |m.used| && m.used[g] && g !in s.tables.Values
  {
    hide Addr, FrameOf;
    forall g: nat | g in Mapping(s.user)
      ensures g < |m.used| && m.used[g] && g !in s.tables.Values
    {
      var u :| u in s.user && FrameOf(u.physical) == g;
      var i :| 0 <= i < |s.user| && s.user[i] == u;
      assert Own(m, s, s.user[i]);
    }
  }
}

/** The page allocator and the mapping of pages into an address space. */
module Paging {

  import opened Tables
  import opened TableSteps
  import opened AddressSpaces
  import opened Ownership

  class Memory {
    const used: array<bool>
    const data: array<Page>

    ghost function View(): Ram
      reads used, data
    {
      Ram(used[..], data[..])
    }

    ghost predicate Valid()
      reads used, data
    {
      Shape(View())
    }

    /** Every page is free; what the pages hold at the start is arbitrary. */
    constructor (initial: seq<Page>)
      requires |initial| == N_PAGES
      ensures Valid() && fresh(used) && fresh(data)
      ensures View() == Ram(seq(N_PAGES, _ => false), initial)
    {
      used := new bool[N_PAGES](_ => false);
      data := new Page[N_PAGES](i requires 0 <= i < N_PAGES => initial[i]);
    }

    /** Hands out the first free page, zeroed; 0 when there is none. */
    method GetFreePage() returns (page: nat)
      requires Valid()
      modifies used, data
      ensures Valid()
      ensures page == 0 ==> Free(View()) == {} && View() == old(View())
      ensures page != 0 ==>
                var f := FrameOf(page);
                0 <= f < N_PAGES && page == Addr(f) && f in Free(old(View())) && View() == Got(old(View()), f)
                && forall g: nat :: g < f ==> old(used[g])
      ensures page != 0 ==> 0x40_0000 <= page < 0x3f00_0000 && page % 0x1000 == 0
    {
      for i := 0 to N_PAGES
        invariant View() == old(View())
        invariant forall g: nat :: g < i ==> used[g]
      {
        if !used[i] {
          used[i] := true;
          data[i] := ZeroPage();
          FrameOfEntry(i, 0);
          return Addr(i);
        }
      }
      return 0;
    }

    /** Zeroes a page and marks it free; an address inside a page is refused. */
    method FreePage(page: nat) returns (err: int)
      requires Valid() && (page % PAGE_SIZE == 0 ==> 0 <= FrameOf(page) < N_PAGES)
      modifies used, data
      ensures Valid()
      ensures page % PAGE_SIZE != 0 ==> err == -1 && View() == old(View())
      ensures page % PAGE_SIZE == 0 ==>
                && err == 0
                && used[..] == old(used[..])[FrameOf(page) := false]
                && data[..] == old(data[..])[FrameOf(page) := ZeroPage()]
    {
      if page % PAGE_SIZE != 0 {
        return -1;
      }
      data[FrameOf(page)] := ZeroPage();
      used[FrameOf(page)] := false;
      return 0;
    }

    /** The page that the entry of a table leads to; a new zeroed one when the entry is not set. */
    method MapTable(f: nat, level: nat, va: nat) returns (next: nat, created: bool)
      requires Valid() && f < N_PAGES && used[f] && level < LEVELS - 1
      requires data[f][Index(va, level)] == 0 ==> Free(View()) != {}
      modifies used, data
      ensures Valid()
      ensures var entry := old(data[f][Index(va, level)]);
              created == (entry == 0) && (entry != 0 ==> next == entry - entry % PAGE_SIZE && View() == old(View()))
      ensures created ==>
                var g := FrameOf(next);
                0 <= g < N_PAGES && g in Free(old(View())) && next == Addr(g)
                && View() == Put(Got(old(View()), g), f, Index(va, level), TableEntry(g))
    {
      hide Addr, Index, ZeroPage;
      var i := Index(va, level);
      var entry := data[f][i];
      if entry == 0 {
        next := GetFreePage();
        var g := FrameOf(next);
        AddrBound(g);
        data[f] := data[f][i := TableEntry(g)];
        created := true;
      } else {
        next := entry - entry % PAGE_SIZE;
        created := false;
      }
    }

    /** Copies the contents of a page to another one. */
    method CopyPage(to: nat, from: nat)
      requires Valid() && to < N_PAGES && from < N_PAGES
      modifies data
      ensures Valid() && View() == old(View()).(data := old(View()).data[to := old(View()).data[from]])
    {
      data[to] := data[from];
    }

    /** Writes the last-level entry of an address. */
    method MapTableEntry(f: nat, va: nat, pa: nat)
      requires Valid() && f < N_PAGES && pa < SPACE
      modifies data
      ensures Valid() && View() == Put(old(View()), f, Index(va, LEVELS - 1), pa + PAGE_FLAGS)
    {
      hide Index;
      data[f] := data[f][Index(va, LEVELS - 1) := pa + PAGE_FLAGS];
    }
  }

  /** The pages fill the memory from the end of the kernel up to the device registers. */
  lemma PagesFill(f: nat)
    ensures Addr(0) == 0x40_0000 && Addr(N_PAGES) == 0x3f00_0000 && Addr(f + 1) == Addr(f) + 0x1000
  {
  }

  lemma AddrBound(f: nat)
    requires f < N_PAGES
    ensures 0 < Addr(f) && TableEntry(f) < 0x1_0000_0000_0000_0000 && Addr(f) < SPACE && Addr(f) % PAGE_SIZE == 0
  {
  }

  ghost function Lacking(s: Space, va: nat): set<Path> {
    Ways(va) - s.tables.Keys
  }

  /** The page tables and page lists of a process. */
  class Mm {
    var pgd: nat
    var kernelPages: seq<nat>
    var userPages: seq<UserPage>
    ghost var tables: map<Path, nat>

    ghost function View(): Space
      reads this
    {
      Space(pgd, tables, kernelPages, userPages)
    }

    constructor ()
      ensures View() == Space(0, map[], [], [])
    {
      pgd, kernelPages, userPages, tables := 0, [], [], map[];
    }

    /** Makes the top table if there is none yet. */
    method NeedTop(memory: Memory)
      requires Mapped(memory.View(), View())
      requires PathTo(0, 0) !in tables ==> Free(memory.View()) != {}
      modifies this, memory.used, memory.data
      ensures Mapped(memory.View(), View()) && [] in tables && pgd == Addr(tables[[]])
      ensures Grew(old(memory.View()), old(View()), memory.View(), View())
      ensures tables.Keys == old(tables.Keys) + {[]} && userPages == old(userPages)
    {
      hide Tree, Taken, Listed, Flattened, Addr, Got, Grew, Free;
      ghost var m, s := memory.View(), View();
      if pgd == 0 {
        NoTop(s);
        pgd := memory.GetFreePage();
        ghost var f := FrameOf(pgd);
        kernelPages := kernelPages + [pgd];
        tables := tables[[] := f];
        RootMapped(m, s, f);
      } else {
        GrewNot(m, s);
      }
    }

    /** Goes from the table of one level to the one of the next, which it makes when there is none. */
    method NextTable(memory: Memory, table: nat, level: nat, va: nat) returns (next: nat)
      requires Mapped(memory.View(), View()) && level < LEVELS - 1
      requires PathTo(va, level) in tables && table == Addr(tables[PathTo(va, level)])
      requires PathTo(va, level + 1) !in tables ==> Free(memory.View()) != {}
      modifies this, memory.used, memory.data
      ensures Mapped(memory.View(), View())
      ensures PathTo(va, level + 1) in tables && next == Addr(tables[PathTo(va, level + 1)])
      ensures Grew(old(memory.View()), old(View()), memory.View(), View())
      ensures tables.Keys == old(tables.Keys) + {PathTo(va, level + 1)} && userPages == old(userPages)
    {
      hide Tree, Listed, Flattened, Addr, Got, Grew, Free, Rooted, TableEntry, Index;
      ghost var m, s := memory.View(), View();
      ghost var p, i := PathTo(va, level), Index(va, level);
      assert PathTo(va, level + 1) == p + [i];
      TableParts(m, s, p, i);
      var created: bool;
      next, created := memory.MapTable(FrameOf(table), level, va);
      if created {
        ghost var f := FrameOf(next);
        kernelPages := kernelPages + [next];
        tables := tables[p + [i] := f];
        AddrBound(f);
        TableMade(m, s, memory.View(), p, i, f);
      } else {
        GrewNot(m, s);
      }
    }

    /** Goes down to the last table of an address, making the tables that lack on the way. */
    method NeedTables(memory: Memory, va: nat) returns (pte: nat)
      requires Mapped(memory.View(), View()) && |Lacking(View(), va)| <= |Free(memory.View())|
      modifies this, memory.used, memory.data
      ensures Mapped(memory.View(), View())
      ensures PathTo(va, 3) in tables && pte == Addr(tables[PathTo(va, 3)])
      ensures tables.Keys == old(tables.Keys) + Ways(va) && userPages == old(userPages)
      ensures Grew(old(memory.View()), old(View()), memory.View(), View())
    {
      hide Tree, Rooted, Listed, Flattened, Taken, Got, Grew, Addr, Index, Mapped, Free, PathTo, Shape, Ways, Lacking;
      ghost var m, s := memory.View(), View();
      WaysAre(va);
      LackFree(m, s, va, []);
      NeedTop(memory);
      ghost var m0, s0 := memory.View(), View();
      LackStep(m, s, m0, s0, va, []);
      LackFree(m0, s0, va, PathTo(va, 1));
      var pud := NextTable(memory, pgd, 0, va);
      ghost var m1, s1 := memory.View(), View();
      Onward(m, s, m0, s0, m1, s1, va, PathTo(va, 1));
      LackFree(m1, s1, va, PathTo(va, 2));
      var pmd := NextTable(memory, pud, 1, va);
      ghost var m2, s2 := memory.View(), View();
      Onward(m, s, m1, s1, m2, s2, va, PathTo(va, 2));
      LackFree(m2, s2, va, PathTo(va, 3));
      pte := NextTable(memory, pmd, 2, va);
      Onward(m, s, m2, s2, memory.View(), View(), va, PathTo(va, 3));
    }

    /** Maps a page of addresses to a physical page. */
    method MapPage(memory: Memory, va: nat, pa: nat)
      requires Mapped(memory.View(), View()) && va < SPACE && pa < SPACE && pa % PAGE_SIZE == 0
      requires |Lacking(View(), va)| <= |Free(memory.View())|
      modifies this, memory.used, memory.data
      ensures Mapped(memory.View(), View())
      ensures userPages == old(userPages) + [UserPage(pa, va)]
      ensures tables.Keys == old(tables.Keys) + Ways(va)
      ensures Grew(old(memory.View()), old(View()), memory.View(), View())
      ensures forall vb: nat :: vb < SPACE ==>
                Walk(memory.View().data, pgd, vb)
                == if vb / PAGE_SIZE == va / PAGE_SIZE then pa + PAGE_FLAGS else old(Walk(memory.View().data, pgd, vb))
      ensures OpensPage(Walk(memory.View().data, pgd, va), pa)
    {
      hide Tree, Rooted, Listed, Flattened, Taken, Put, Grew, Addr, Index, Mapped, PathTo, Shape, Ways, Lacking, FrameOf, OpensPage, Walk;
      ghost var m, s := memory.View(), View();
      var pte := NeedTables(memory, va);
      ghost var n, t := memory.View(), View();
      MappedUses(n, t, PathTo(va, 3));
      memory.MapTableEntry(FrameOf(pte), va, pa);
      userPages := userPages + [UserPage(pa, va)];
      LeafMapped(n, t, va, pa);
      GrewOn(m, s, n, t, memory.View(), View());
      WalksMapped(m, s, memory.View(), View(), va, pa);
      FlagsOpen(pa);
    }

    /** Takes a free page and maps a page of addresses to it; 0 when there is none. */
    method AllocateUserPage(memory: Memory, va: nat) returns (page: nat)
      requires Proper(memory.View(), View()) && va < SPACE
      requires |userPages| < MAX_PAGES && |kernelPages| + |Lacking(View(), va)| <= MAX_PAGES
      requires Free(memory.View()) != {} ==> |Lacking(View(), va)| < |Free(memory.View())|
      modifies this, memory.used, memory.data
      ensures Proper(memory.View(), View())
      ensures page == 0 <==> old(Free(memory.View())) == {}
      ensures page == 0 ==> memory.View() == old(memory.View()) && View() == old(View())
      ensures page != 0 ==>
                && 0 <= FrameOf(page) < N_PAGES && page == Addr(FrameOf(page)) && FrameOf(page) in Free(old(memory.View()))
                && memory.View().data[FrameOf(page)] == ZeroPage()
                && userPages == old(userPages) + [UserPage(page, va)]
                && tables.Keys == old(tables.Keys) + Ways(va)
                && Took(old(memory.View()), old(View()), memory.View(), View())
                && PagesKept(old(memory.View()), old(View()), memory.View())
    {
      hide Tree, Rooted, Listed, Flattened, Taken, Grew, Addr, Mapped, Free, Shape, Ways, FrameOf, Owns, Took, PagesKept;
      hide Got, AllWays, ZeroPage;
      ghost var m, s := memory.View(), View();
      assert memory.Valid() by {
        MappedTaken(m, s);
      }
      page := memory.GetFreePage();
      if page == 0 {
        return;
      }
      ghost var f := FrameOf(page);
      ReadyToMap(m, s, f, va);
      MapPage(memory, va, page);
      Allocated(m, s, f, va, memory.View(), View());
    }
  }

  /** The pages in use other than the tables of an address space, and so the pages it maps, keep their contents. */
  ghost predicate PagesKept(m: Ram, s: Space, n: Ram) {
    && |n.data| == |m.data| == |m.used|
    && forall g: nat :: g < |m.used| && m.used[g] && g !in s.tables.Values ==> n.data[g] == m.data[g]
  }

  lemma ReadyToMap(m: Ram, s: Space, f: nat, va: nat)
    requires Proper(m, s) && f in Free(m) && |Lacking(s, va)| < |Free(m)|
    ensures Shape(m) && f < N_PAGES && Addr(f) < SPACE && Addr(f) % PAGE_SIZE == 0
    ensures Mapped(Got(m, f), s) && |Lacking(s, va)| <= |Free(Got(m, f))|
  {
    hide Mapped, Owns, Lacking, Got, Addr, Free, AllWays;
    GotMapped(m, s, f);
    FreeLess(m, f);
    AddrBound(f);
  }

  lemma Allocated(m: Ram, s: Space, f: nat, va: nat, n: Ram, t: Space)
    requires Proper(m, s) && f in Free(m) && f < N_PAGES && va < SPACE && Mapped(n, t)
    requires |s.user| < MAX_PAGES && |s.kernel| + |Lacking(s, va)| <= MAX_PAGES
    requires Shape(m) && Grew(Got(m, f), s, n, t) && t.user == s.user + [UserPage(Addr(f), va)]
    requires t.tables.Keys == s.tables.Keys + Ways(va)
    ensures Proper(n, t) && Took(m, s, n, t) && PagesKept(m, s, n)
    ensures n.data[f] == ZeroPage()
  {
    hide Tree, Rooted, Flattened, Taken, Grew, Addr, Free, Ways, FrameOf, Owns, Took, Got, ZeroPage;
    assert MappedIn(m, s, f, va, n, t);
    MappedInTook(m, s, f, va, n, t);
    MappedInOwns(m, s, f, va, n, t);
    MappedInData(m, s, f, va, n, t);
    assert t.user[..|t.user| - 1] == s.user;
    LackingMade(s, t, va);
  }

  lemma LackingMade(s: Space, t: Space, va: nat)
    requires t.tables.Keys == s.tables.Keys + Ways(va)
    ensures |t.tables| == |s.tables| + |Lacking(s, va)|
  {
    hide Ways;
    assert t.tables.Keys == s.tables.Keys + Lacking(s, va);
    assert s.tables.Keys !! Lacking(s, va);
    assert |s.tables.Keys + Lacking(s, va)| == |s.tables.Keys| + |Lacking(s, va)|;
    assert |t.tables| == |t.tables.Keys|;
  }

  lemma WalksMapped(m: Ram, s: Space, n: Ram, t: Space, va: nat, pa: nat)
    requires Mapped(m, s) && Mapped(n, t) && t.user == s.user + [UserPage(pa, va)]
    ensures forall vb: nat :: vb < SPACE ==>
              Walk(n.data, t.pgd, vb)
              == if vb / PAGE_SIZE == va / PAGE_SIZE then pa + PAGE_FLAGS else Walk(m.data, s.pgd, vb)
  {
    hide Mapped, Walk;
    assert t.user[..|t.user| - 1] == s.user;
    forall vb: nat | vb < SPACE
      ensures Walk(n.data, t.pgd, vb)
              == if vb / PAGE_SIZE == va / PAGE_SIZE then pa + PAGE_FLAGS else Walk(m.data, s.pgd, vb)
    {
      WalkFlat(m, s, vb);
      WalkFlat(n, t, vb);
    }
  }

  lemma WaysAre(va: nat)
    ensures PathTo(va, 0) == []
    ensures forall p :: p in Ways(va) <==> p == PathTo(va, 0) || p == PathTo(va, 1) || p == PathTo(va, 2) || p == PathTo(va, 3)
  {
  }

  /** Where a table lacks there is a free page for it. */
  lemma LackFree(m: Ram, s: Space, va: nat, q: Path)
    requires |Lacking(s, va)| <= |Free(m)| && q in Ways(va)
    ensures q !in s.tables ==> Free(m) != {}
  {
    hide Free, Ways;
    assert q !in s.tables ==> q in Lacking(s, va);
  }

  lemma Onward(m: Ram, s: Space, n: Ram, t: Space, o: Ram, u: Space, va: nat, q: Path)
    requires |Lacking(t, va)| <= |Free(n)| && q in Ways(va)
    requires u.tables.Keys == t.tables.Keys + {q} && Grew(m, s, n, t) && Grew(n, t, o, u)
    ensures |Lacking(u, va)| <= |Free(o)| && Grew(m, s, o, u)
  {
    hide Grew;
    LackStep(n, t, o, u, va, q);
    GrewOn(m, s, n, t, o, u);
  }

  /** The free pages still suffice when a table has been made. */
  lemma LackStep(m: Ram, s: Space, n: Ram, t: Space, va: nat, q: Path)
    requires |Lacking(s, va)| <= |Free(m)| && q in Ways(va)
    requires t.tables.Keys == s.tables.Keys + {q} && Grew(m, s, n, t)
    ensures |Lacking(t, va)| <= |Free(n)|
  {
    hide Free, Ways, UsedMore, DataKept, TablesMore;
    if q in s.tables {
      assert t.tables.Keys == s.tables.Keys;
      assert |t.tables| == |s.tables|;
    } else {
      assert |t.tables| == |t.tables.Keys| == |s.tables.Keys| + 1;
      assert Lacking(t, va) == Lacking(s, va) - {q};
    }
  }

  lemma TableParts(m: Ram, s: Space, p: Path, i: nat)
    requires Mapped(m, s) && p in s.tables && |p| < LEVELS - 1 && i < ENTRIES
    ensures Shape(m) && s.tables[p] < N_PAGES && FrameOf(Addr(s.tables[p])) == s.tables[p] && m.used[s.tables[p]]
    ensures m.data[s.tables[p]][i] == 0 <==> p + [i] !in s.tables
    ensures p + [i] in s.tables ==>
              m.data[s.tables[p]][i] - m.data[s.tables[p]][i] % PAGE_SIZE == Addr(s.tables[p + [i]])
  {
    hide Tree, Rooted, Listed, Flattened, FrameOf, Addr;
    Below(m.data, s.tables, p, i);
    FrameOfEntry(s.tables[p], 0);
    if p + [i] in s.tables {
      FrameOfEntry(s.tables[p + [i]], TABLE_FLAGS);
    }
  }

  lemma TableMade(m: Ram, s: Space, n: Ram, p: Path, i: nat, f: nat)
    requires Mapped(m, s) && p in s.tables && |p| < LEVELS - 1 && i < ENTRIES && f < N_PAGES && f in Free(m)
    requires s.tables[p] < N_PAGES && m.data[s.tables[p]][i] == 0 && TableEntry(f) < 0x1_0000_0000_0000_0000
    requires n == Put(Got(m, f), s.tables[p], i, TableEntry(f))
    ensures Mapped(n, WithTable(s, p + [i], f)) && Grew(m, s, n, WithTable(s, p + [i], f))
  {
    hide Tree, Rooted, Listed, Flattened, Got, Grew, TableEntry, Addr, Mapped;
    assert s.tables[p] != f && Shape(m) by {
      MappedUses(m, s, p);
      FreeIs(m);
    }
    LinkMapped(m, s, p, i, f);
  }

  lemma MappedUses(m: Ram, s: Space, p: Path)
    requires Mapped(m, s) && p in s.tables
    ensures Shape(m) && s.tables[p] < N_PAGES && m.used[s.tables[p]] && FrameOf(Addr(s.tables[p])) == s.tables[p]
  {
    hide FrameOf, Addr, Tree, Rooted, Listed, Flattened;
    FrameOfEntry(s.tables[p], 0);
  }

  lemma NoTop(s: Space)
    requires Rooted(s.pgd, s.tables) && s.pgd == 0
    ensures s.tables == map[]
  {
  }
}
