/** Page tables as a radix tree stored in physical pages, and the walk that reads it. */
module Tables {

  type Word = w: nat | w < 0x1_0000_0000_0000_0000
  /** A physical page: 512 words of 64 bits. */
  type Page = s: seq<Word> | |s| == 512 witness seq(512, _ => 0)
  /** The table indices on the way from the top table to another one. */
  type Path = seq<nat>

  const ENTRIES := 512
  const LEVELS := 4
  const PAGE_SIZE := 4096
  const SPACE := 0x1_0000_0000_0000   // addresses have 48 bits
  const LOW_MEMORY := 0x40_0000
  const N_PAGES := 257024        // from the end of the kernel up to the device registers
  const TABLE_FLAGS := 3
  const PAGE_FLAGS := 0x447

  function ZeroPage(): Page {
    seq(512, _ => 0)
  }

  /** The physical address of a page. */
  function Addr(f: nat): nat {
    LOW_MEMORY + PAGE_SIZE * f
  }

  /** The page that a table entry points to: its flag bits are masked away. */
  function FrameOf(entry: nat): int {
    (entry - entry % PAGE_SIZE - LOW_MEMORY) / PAGE_SIZE
  }

  function TableEntry(f: nat): nat {
    Addr(f) + TABLE_FLAGS
  }

  lemma FrameOfEntry(f: nat, flags: nat)
    requires flags < PAGE_SIZE
    ensures FrameOf(Addr(f) + flags) == f && (Addr(f) + flags) - (Addr(f) + flags) % PAGE_SIZE == Addr(f)
  {
  }

  /** How much address space one entry of a table covers, from the top level 0 down to level 3. */
  function Span(level: nat): (n: nat)
    requires level < LEVELS
    ensures 0 < n
  {
    [0x80_0000_0000, 0x4000_0000, 0x20_0000, 0x1000][level]
  }

  /** The entry that an address selects in the table of a level. */
  function Index(va: nat, level: nat): (i: nat)
    requires level < LEVELS
    ensures i < ENTRIES
  {
    va / Span(level) % ENTRIES
  }

  /** The entries an address selects on the way down from the top. */
  function PathTo(va: nat, level: nat): (p: Path)
    requires level <= LEVELS
    ensures |p| == level && forall k :: 0 <= k < level ==> p[k] == Index(va, k)
  {
    if level == 0 then [] else PathTo(va, level - 1) + [Index(va, level - 1)]
  }

  /** Two addresses of 48 bits take the same way down exactly when they lie in the same page. */
  lemma SamePath(va: nat, vb: nat)
    requires va < SPACE && vb < SPACE
    ensures PathTo(va, LEVELS) == PathTo(vb, LEVELS) <==> va / PAGE_SIZE == vb / PAGE_SIZE
  {
    Digits(va);
    Digits(vb);
    var p, q := PathTo(va, LEVELS), PathTo(vb, LEVELS);
    assert p == q <==> p[0] == q[0] && p[1] == q[1] && p[2] == q[2] && p[3] == q[3];
  }

  /** The page number of an address is made of its four table indices. */
  lemma Digits(va: nat)
    requires va < SPACE
    ensures va / PAGE_SIZE == ((Index(va, 0) * 512 + Index(va, 1)) * 512 + Index(va, 2)) * 512 + Index(va, 3)
  {
    var n := va / PAGE_SIZE;
    assert va / 0x20_0000 == n / 512;
    assert va / 0x4000_0000 == n / 512 / 512;
    assert va / 0x80_0000_0000 == n / 512 / 512 / 512;
  }

  // ---------------------------------------------------------------- the tree

  /** The allocator's flags and the contents of all pages. */
  datatype Ram = Ram(used: seq<bool>, data: seq<Page>)

  datatype UserPage = UserPage(physical: nat, virtual: nat)

  /** The address space of a process: its top table (0 for none), the page of every table, and the two lists it keeps. */
  datatype Space = Space(pgd: nat, tables: map<Path, nat>, kernel: seq<nat>, user: seq<UserPage>)

  /** Table p of the tree is where its parent points, and has a child behind every entry that is set. */
  ghost predicate Node(data: seq<Page>, tables: map<Path, nat>, p: Path)
    requires p in tables
  {
    && |p| < LEVELS && tables[p] < |data|
    && (|p| > 0 ==> Child(data, tables, p[..|p| - 1], p[|p| - 1], tables[p]))
    && (|p| < LEVELS - 1 ==> forall i :: 0 <= i < ENTRIES && data[tables[p]][i] != 0 ==> p + [i] in tables)
  }

  /** Entry i of table p points to page f. */
  ghost predicate Child(data: seq<Page>, tables: map<Path, nat>, p: Path, i: nat, f: nat) {
    p in tables && tables[p] < |data| && i < ENTRIES && data[tables[p]][i] == TableEntry(f)
  }

  ghost predicate OneEach(tables: map<Path, nat>) {
    forall p, q :: p in tables && q in tables && tables[p] == tables[q] ==> p == q
  }

  /** The tables form a tree below the top one, stored in different pages. */
  ghost predicate Tree(data: seq<Page>, tables: map<Path, nat>) {
    && (forall p :: p in tables ==> Node(data, tables, p))
    && OneEach(tables)
    && (tables != map[] ==> [] in tables)
  }

  /** The hardware goes on to a next table only through a table descriptor: both type bits are set. */
  predicate TableDescriptor(w: nat) {
    w % 4 == 3
  }

  /** It reads or writes a page only through a page descriptor that has its access flag, bit 10, set. */
  predicate PageDescriptor(w: nat) {
    w % 4 == 3 && w / 0x400 % 2 == 1
  }

  /** The entry opens page pa to user programs: bits 6 and 7 let them read and write, and bits 2 to 4 choose memory kind 1. */
  predicate OpensPage(w: nat, pa: nat) {
    PageDescriptor(w) && w - w % PAGE_SIZE == pa && w / 0x40 % 4 == 1 && w / 4 % 8 == 1
  }

  /** The flags of a page entry do that for every page. */
  lemma FlagsOpen(pa: nat)
    requires pa % PAGE_SIZE == 0
    ensures OpensPage(pa + PAGE_FLAGS, pa)
  {
    var k := pa / PAGE_SIZE;
    assert pa == PAGE_SIZE * k;
    FlagPlaces(k);
    FlagValues(k);
  }

  lemma FlagPlaces(k: nat)
    ensures var w := PAGE_SIZE * k + PAGE_FLAGS;
      w / 0x400 == 4 * k + 1 && w / 0x40 == 64 * k + 17 && w / 4 == 1024 * k + 273 && w % PAGE_SIZE == PAGE_FLAGS
  {
  }

  lemma FlagValues(k: nat)
    ensures (4 * k + 1) % 2 == 1 && (64 * k + 17) % 4 == 1 && (1024 * k + 273) % 8 == 1 && (PAGE_SIZE * k + PAGE_FLAGS) % 4 == 3
  {
  }

  /** The page of the table that a way down from the top leads to, -1 when an entry on it is no table descriptor. */
  function Reach(data: seq<Page>, pgd: nat, p: Path): int
    decreases |p|
  {
    if p == [] then if pgd == 0 then -1 else FrameOf(pgd)
    else
      var f := Reach(data, pgd, p[..|p| - 1]);
      var i := p[|p| - 1];
      if !(0 <= f < |data|) || i >= ENTRIES || !TableDescriptor(data[f][i]) then -1 else FrameOf(data[f][i])
  }

  /** What the hardware finds for an address, going down one table after the other; 0 when there is no way. */
  function Walk(data: seq<Page>, pgd: nat, va: nat): nat {
    var f := Reach(data, pgd, PathTo(va, LEVELS - 1));
    if 0 <= f < |data| && PageDescriptor(data[f][Index(va, LEVELS - 1)]) then data[f][Index(va, LEVELS - 1)] else 0
  }

  ghost predicate Rooted(pgd: nat, tables: map<Path, nat>) {
    if tables == map[] then pgd == 0 else [] in tables && pgd == Addr(tables[[]])
  }

  /** The tables are all the tables that can be reached from the top one. */
  lemma {:induction false} ReachIs(data: seq<Page>, tables: map<Path, nat>, pgd: nat, p: Path)
    requires Tree(data, tables) && Rooted(pgd, tables) && |p| < LEVELS
    ensures Reach(data, pgd, p) == if p in tables then tables[p] else -1
    decreases |p|
  {
    hide FrameOf, Addr, Tree, TableDescriptor;
    if p == [] {
      RootIs(data, tables, pgd);
    } else {
      var up, i := p[..|p| - 1], p[|p| - 1];
      ReachIs(data, tables, pgd, up);
      assert p == up + [i];
      if up in tables && i < ENTRIES {
        Below(data, tables, up, i);
      } else if p in tables {
        ParentOf(data, tables, p);
      }
    }
  }

  lemma RootIs(data: seq<Page>, tables: map<Path, nat>, pgd: nat)
    requires Tree(data, tables) && Rooted(pgd, tables)
    ensures Reach(data, pgd, []) == if [] in tables then tables[[]] else -1
  {
    hide Node, OneEach;
    if tables != map[] {
      FrameOfEntry(tables[[]], 0);
    }
  }

  lemma ParentOf(data: seq<Page>, tables: map<Path, nat>, p: Path)
    requires Tree(data, tables) && p in tables
    ensures |p| < LEVELS && tables[p] < |data|
    ensures |p| > 0 ==> Child(data, tables, p[..|p| - 1], p[|p| - 1], tables[p])
  {
    hide OneEach, TableEntry;
    assert Node(data, tables, p);
  }

  /** The entry of a table tells exactly whether there is a table below and where. */
  lemma Below(data: seq<Page>, tables: map<Path, nat>, p: Path, i: nat)
    requires Tree(data, tables) && p in tables && |p| < LEVELS - 1 && i < ENTRIES
    ensures tables[p] < |data| && (p + [i] in tables <==> data[tables[p]][i] != 0)
    ensures TableDescriptor(data[tables[p]][i]) <==> p + [i] in tables
    ensures p + [i] in tables ==> data[tables[p]][i] == TableEntry(tables[p + [i]]) && FrameOf(data[tables[p]][i]) == tables[p + [i]]
  {
    hide OneEach, FrameOf, TableDescriptor, TableEntry, Addr;
    assert Node(data, tables, p);
    ZeroIsNone();
    if p + [i] in tables {
      ParentOf(data, tables, p + [i]);
      assert (p + [i])[..|p|] == p;
      TableFlags(tables[p + [i]]);
    }
  }

  lemma ZeroIsNone()
    ensures !PageDescriptor(0) && !TableDescriptor(0)
  {
  }

  lemma TableFlags(f: nat)
    ensures TableDescriptor(TableEntry(f)) && TableEntry(f) != 0 && FrameOf(TableEntry(f)) == f
  {
    hide FrameOf, TableDescriptor, Addr;
    FrameOfEntry(f, TABLE_FLAGS);
    LowBits(f);
  }

  lemma LowBits(f: nat)
    ensures TableDescriptor(Addr(f) + TABLE_FLAGS) && Addr(f) + TABLE_FLAGS != 0
  {
    assert Addr(f) == 4 * (0x10_0000 + 0x400 * f);
    ThreeLast(0x10_0000 + 0x400 * f);
  }

  lemma ThreeLast(k: nat)
    ensures (4 * k + 3) % 4 == 3
  {
  }

  /** The last-level entry of an address, read through the map of tables. */
  function Leaf(data: seq<Page>, tables: map<Path, nat>, va: nat): nat {
    var p := PathTo(va, LEVELS - 1);
    if p in tables && tables[p] < |data| then data[tables[p]][Index(va, LEVELS - 1)] else 0
  }

  lemma WalkIs(data: seq<Page>, tables: map<Path, nat>, pgd: nat, va: nat)
    requires Tree(data, tables) && Rooted(pgd, tables)
    ensures Walk(data, pgd, va) == if PageDescriptor(Leaf(data, tables, va)) then Leaf(data, tables, va) else 0
  {
    hide Tree, Reach, Index, Rooted, PageDescriptor;
    ZeroIsNone();
    var p := PathTo(va, LEVELS - 1);
    ReachIs(data, tables, pgd, p);
    if p in tables {
      ParentOf(data, tables, p);
    }
  }
}
