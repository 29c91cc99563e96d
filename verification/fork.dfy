/** Copying an address space for a new process. */
module Forking {

  import opened Tables
  import opened TableSteps
  import opened AddressSpaces
  import opened Ownership
  import opened Paging

  /** The pages that copying the first k mapped pages takes: one for each and one for each table on their ways. */
  ghost function Need(user: seq<UserPage>, k: nat): nat
    requires k <= |user|
  {
    k + |AllWays(user[..k])|
  }

  /** Free pages suffice, or run out just where a page is to be mapped, not in the middle of its tables. */
  ghost predicate Affordable(user: seq<UserPage>, free: nat) {
    free >= Need(user, |user|) || exists k :: 0 <= k < |user| && free == Need(user, k)
  }

  ghost predicate SameVirtual(user: seq<UserPage>, copy: seq<UserPage>) {
    |copy| <= |user| && forall j :: 0 <= j < |copy| ==> copy[j].virtual == user[j].virtual
  }

  lemma {:induction false} SameWays(user: seq<UserPage>, copy: seq<UserPage>)
    requires SameVirtual(user, copy)
    ensures AllWays(copy) == AllWays(user[..|copy|])
  {
    hide Ways;
    if copy != [] {
      var less, k := copy[..|copy| - 1], |copy|;
      SameWays(user, less);
      assert user[..k][..k - 1] == user[..|less|];
    }
  }

  lemma {:induction false} NeedGrows(user: seq<UserPage>, j: nat, k: nat)
    requires j <= k <= |user|
    ensures AllWays(user[..j]) <= AllWays(user[..k]) && Need(user, j) <= Need(user, k)
    decreases k
  {
    hide Ways;
    if j < k {
      NeedGrows(user, j, k - 1);
      assert user[..k][..k - 1] == user[..k - 1];
      Within(AllWays(user[..j]), AllWays(user[..k]));
    }
  }

  lemma Within<T>(a: set<T>, b: set<T>)
    requires a <= b
    ensures |a| <= |b|
  {
    assert b == a + (b - a);
  }

  lemma NeedNext(user: seq<UserPage>, copy: seq<UserPage>, s: Space)
    requires SameVirtual(user, copy) && |copy| < |user| && s.tables.Keys == AllWays(copy)
    ensures Need(user, |copy| + 1) == Need(user, |copy|) + 1 + |Lacking(s, user[|copy|].virtual)|
    ensures Need(user, |copy|) == |copy| + |s.tables|
  {
    hide Ways, Lacking, AllWays;
    SameWays(user, copy);
    WaysNext(user, |copy|, s);
    assert |s.tables| == |s.tables.Keys|;
  }

  lemma WaysNext(user: seq<UserPage>, k: nat, s: Space)
    requires k < |user| && s.tables.Keys == AllWays(user[..k])
    ensures |AllWays(user[..k + 1])| == |AllWays(user[..k])| + |Lacking(s, user[k].virtual)|
  {
    hide Ways;
    assert user[..k + 1][..k] == user[..k];
    JoinSize(AllWays(user[..k]), Ways(user[k].virtual));
  }

  lemma JoinSize<T>(a: set<T>, b: set<T>)
    ensures |a + b| == |a| + |b - a|
  {
    assert a + b == a + (b - a);
  }

  datatype Option<T> = None | Some(value: T)

  const Empty := Space(0, map[], [], [])

  /** What the copy has come to: the first mapped pages of the source, with the contents they had at the start. */
  ghost predicate Copied(m: Ram, user: seq<UserPage>, n: Ram, t: Space) {
    && Proper(n, t) && Took(m, Empty, n, t) && SameVirtual(user, t.user)
    && forall j :: 0 <= j < |t.user| ==> SamePage(m, user[j], n, t.user[j])
  }

  ghost predicate SamePage(m: Ram, u: UserPage, n: Ram, v: UserPage) {
    var f, g := FrameOf(u.physical), FrameOf(v.physical);
    0 <= f < |m.data| && 0 <= g < |n.data| && n.data[g] == m.data[f]
  }

  /** The next page fits: the free pages suffice for it and its tables, and the lists of the copy have room. */
  lemma NextFits(m: Ram, s: Space, n: Ram, t: Space)
    requires Proper(m, s) && Copied(m, s.user, n, t) && Affordable(s.user, |Free(m)|) && |t.user| < |s.user|
    ensures |Free(m)| == |Free(n)| + Need(s.user, |t.user|)
    ensures |t.user| < MAX_PAGES && |t.kernel| + |Lacking(t, s.user[|t.user|].virtual)| <= MAX_PAGES
    ensures Free(n) != {} ==> |Lacking(t, s.user[|t.user|].virtual)| < |Free(n)|
    ensures Free(n) == {} <==> |Free(m)| == Need(s.user, |t.user|)
  {
    hide Proper, Copied, Free, Lacking, Need, AllWays, Affordable, SameVirtual;
    var k := |t.user|;
    CopiedCount(m, s.user, n, t);
    NeedNext(s.user, t.user, t);
    NeedSource(m, s, k + 1);
    Afford(s.user, |Free(m)|, k);
  }

  lemma Afford(user: seq<UserPage>, free: nat, k: nat)
    requires Affordable(user, free) && k < |user|
    ensures free > Need(user, k) ==> free >= Need(user, k + 1)
  {
    hide Need;
    NeedGrows(user, k + 1, |user|);
    if i :| 0 <= i < |user| && free == Need(user, i) {
      if i <= k {
        NeedGrows(user, i, k);
      } else {
        NeedGrows(user, k + 1, i);
      }
    }
  }

  /** A process has as many tables as the ways to its pages, so a copy of it needs as many. */
  lemma NeedSource(m: Ram, s: Space, k: nat)
    requires Proper(m, s) && k <= |s.user|
    ensures Need(s.user, k) <= k + |s.kernel| && |s.kernel| <= MAX_PAGES && |s.user| <= MAX_PAGES
    ensures Need(s.user, |s.user|) == |s.user| + |s.kernel|
  {
    hide Owns, Tree, Rooted, Flattened, Taken, AllWays;
    NeedGrows(s.user, k, |s.user|);
    Within(AllWays(s.user[..k]), AllWays(s.user[..|s.user|]));
    assert s.user[..|s.user|] == s.user;
    assert |s.tables| == |s.tables.Keys|;
  }

  lemma CopiedCount(m: Ram, user: seq<UserPage>, n: Ram, t: Space)
    requires Copied(m, user, n, t)
    ensures SameVirtual(user, t.user) && t.tables.Keys == AllWays(t.user) && |t.kernel| == |t.tables|
    ensures |Free(m)| == |Free(n)| + |t.tables| + |t.user|
  {
    hide Owns, Tree, Rooted, Flattened, Taken, AllWays, SameVirtual, SamePage, TookUsed, TookData, TookFree, Free;
  }

  // ---------------------------------------------------------------- one page

  ghost function Written(m: Ram, f: nat, page: Page): Ram
    requires f < |m.data|
  {
    m.(data := m.data[f := page])
  }

  /** Writing a mapped page leaves the address space as it is. */
  lemma WrittenProper(m: Ram, s: Space, f: nat, page: Page)
    requires Proper(m, s) && f < |m.data| && f !in s.tables.Values
    ensures Proper(Written(m, f, page), s)
  {
    hide Mapped, AllWays;
    MappedTaken(m, s);
    MappedKept(m, Written(m, f, page), s);
    assert forall i :: 0 <= i < |s.user| ==> Own(m, s, s.user[i]);
  }

  /** A page not in use at the start can be written without touching what was in use then. */
  lemma WrittenTook(m: Ram, n: Ram, t: Space, f: nat, page: Page)
    requires Took(m, Empty, n, t) && f < N_PAGES && f in Free(m)
    ensures Took(m, Empty, Written(n, f, page), t)
  {
    hide Frames;
    assert Free(Written(n, f, page)) == Free(n);
  }

  lemma EmptyFrames()
    ensures Frames(Empty) == {}
  {
  }

  /** Pages in use elsewhere keep their state and contents. */
  lemma TookKeeps(m: Ram, s: Space, n: Ram, t: Space, f: nat)
    requires Took(m, s, n, t) && f < |m.used| && m.used[f] && f !in Frames(s)
    ensures Shape(m) && Shape(n) && n.used[f] && n.data[f] == m.data[f] && f !in Frames(t)
  {
    hide Frames;
    FreeIs(m);
  }

  lemma TookFrees(m: Ram, n: Ram, t: Space, f: nat)
    requires Took(m, Empty, n, t) && f in Free(n)
    ensures f < N_PAGES && f in Free(m)
  {
    hide Frames;
  }

  lemma OwnedPage(m: Ram, s: Space, i: nat)
    requires Proper(m, s) && i < |s.user|
    ensures Shape(m) && var f := FrameOf(s.user[i].physical);
                        0 <= f < N_PAGES && m.used[f] && f !in s.tables.Values && s.user[i].physical == Addr(f) && s.user[i].virtual < SPACE
  {
    hide Mapped, AllWays, Apart;
    MappedTaken(m, s);
    assert Own(m, s, s.user[i]);
  }

  /** A copied page keeps its contents while the next page is allocated and written. */
  lemma SamePageKept(m: Ram, u: UserPage, n: Ram, t: Space, v: UserPage, o: Ram, f: nat, page: Page)
    requires SamePage(m, u, n, v) && PagesKept(n, t, o) && f < |o.data| && f in Free(n)
    requires var g := FrameOf(v.physical); 0 <= g < |n.used| && n.used[g] && g !in t.tables.Values
    ensures SamePage(m, u, Written(o, f, page), v)
  {
  }

  /** The next page has been allocated and filled. */
  lemma CopiedNext(m: Ram, s: Space, n: Ram, t: Space, o: Ram, u: Space, page: nat, src: nat)
    requires Proper(m, s) && Copied(m, s.user, n, t) && |t.user| < |s.user|
    requires Proper(o, u) && Took(n, t, o, u) && PagesKept(n, t, o)
    requires u.user == t.user + [UserPage(page, s.user[|t.user|].virtual)]
    requires 0 <= FrameOf(page) < N_PAGES && FrameOf(page) in Free(n) && src == FrameOf(s.user[|t.user|].physical)
    ensures Shape(o) && src < N_PAGES && Copied(m, s.user, Written(o, FrameOf(page), o.data[src]), u)
  {
    hide Proper, Took, PagesKept, Free, Written, SamePage, FrameOf;
    var k, f := |t.user|, FrameOf(page);
    OwnedPage(m, s, k);
    OwnedPage(o, u, k);
    TookOn(m, Empty, n, t, o, u);
    EmptyFrames();
    TookKeeps(m, Empty, o, u, src);
    TookFrees(m, n, t, f);
    var after := Written(o, f, o.data[src]);
    WrittenProper(o, u, f, o.data[src]);
    WrittenTook(m, o, u, f, o.data[src]);
    forall j | 0 <= j < |u.user|
      ensures SamePage(m, s.user[j], after, u.user[j])
    {
      if j < k {
        OwnedPage(n, t, j);
        SamePageKept(m, s.user[j], n, t, t.user[j], o, f, o.data[src]);
      } else {
        SamePageNew(m, s.user[k], o, page, u.user[k]);
      }
    }
  }

  lemma SamePageNew(m: Ram, u: UserPage, o: Ram, page: nat, v: UserPage)
    requires Shape(m) && Shape(o) && v.physical == page && 0 <= FrameOf(page) < N_PAGES && 0 <= FrameOf(u.physical) < N_PAGES
    requires o.data[FrameOf(u.physical)] == m.data[FrameOf(u.physical)]
    ensures SamePage(m, u, Written(o, FrameOf(page), o.data[FrameOf(u.physical)]), v)
  {
  }

  lemma CopiedNone(m: Ram, s: Space)
    requires Proper(m, s)
    ensures Copied(m, s.user, m, Empty)
  {
    hide Free, Proper;
    EmptyFrames();
    FramesUsed(m, s);
    EmptyProper(m);
    assert |Empty.tables| == 0;
  }

  lemma NoWays()
    ensures AllWays([]) == {}
  {
  }

  lemma EmptyProper(m: Ram)
    requires Shape(m)
    ensures Proper(m, Empty)
  {
    hide AllWays, Mapped;
    EmptyMapped(m);
    NoWays();
  }

  lemma EmptyMapped(m: Ram)
    requires Shape(m)
    ensures Mapped(m, Empty)
  {
    hide Index, PathTo;
    assert Addresses(Empty.tables) == {};
    assert Tree(m.data, map[]);
  }

  /** The pages of an address space stay in use and keep their contents. */
  ghost predicate Spared(m: Ram, s: Space, n: Ram) {
    && Shape(m) && Shape(n)
    && forall g: nat :: g in Frames(s) ==> g < N_PAGES && n.used[g] && n.data[g] == m.data[g]
  }

  lemma SparedProper(m: Ram, s: Space, n: Ram)
    requires Proper(m, s) && Spared(m, s, n)
    ensures Proper(n, s)
  {
    hide Mapped, AllWays, Owns, Frames;
    TablesFrames(s);
    MappedKept(m, n, s);
    OwnsKept(m, n, s);
  }

  lemma TablesFrames(s: Space)
    ensures forall g :: g in s.tables.Values ==> g as int in Frames(s)
  {
  }

  lemma FramesUsed(m: Ram, s: Space)
    requires Proper(m, s)
    ensures Shape(m) && forall g :: g in Frames(s) ==> 0 <= g < N_PAGES && m.used[g]
  {
    hide Mapped, AllWays, Mapping, Owns, Frames;
    MappedTaken(m, s);
    OwnsUsed(m, s);
    FramesNat(s, m);
    FramesAre(s);
    forall g | g in Frames(s)
      ensures 0 <= g < N_PAGES && m.used[g]
    {
      var h: nat := g;
      assert h in s.tables.Values || h in Mapping(s.user);
    }
  }

  lemma FramesAre(s: Space)
    ensures forall g: nat :: g in Frames(s) ==> g in s.tables.Values || g in Mapping(s.user)
  {
  }

  /** What one address space takes spares every other one. */
  lemma TookSpares(m: Ram, s: Space, n: Ram, t: Space, other: Space)
    requires Took(m, s, n, t) && Proper(m, other) && Frames(other) !! Frames(s)
    ensures Spared(m, other, n) && Proper(n, other) && Frames(other) !! Frames(t)
  {
    hide Took, Frames, Proper;
    FramesUsed(m, other);
    assert Shape(m) && Shape(n) by {
      TookShape(m, s, n, t);
    }
    forall g: int | g in Frames(other)
      ensures 0 <= g < N_PAGES && n.used[g] && n.data[g] == m.data[g] && g !in Frames(t)
    {
      TookKeeps(m, s, n, t, g);
    }
    assert forall g: int :: g in Frames(other) ==> g !in Frames(t);
    SparedProper(m, other, n);
  }

  lemma TookShape(m: Ram, s: Space, n: Ram, t: Space)
    requires Took(m, s, n, t)
    ensures Shape(m) && Shape(n)
  {
  }

  lemma FramesNat(s: Space, m: Ram)
    requires Owns(m, s)
    ensures forall g :: g in Frames(s) ==> 0 <= g
  {
    forall g | g in Mapping(s.user)
      ensures 0 <= g
    {
      var u :| u in s.user && FrameOf(u.physical) == g;
      var i :| 0 <= i < |s.user| && s.user[i] == u;
      assert Own(m, s, s.user[i]);
    }
  }

  lemma OwnsKept(m: Ram, n: Ram, s: Space)
    requires Owns(m, s) && |n.used| == |m.used|
    requires forall g: nat :: g in Frames(s) && g < |n.used| ==> n.used[g]
    ensures Owns(n, s)
  {
    forall i | 0 <= i < |s.user|
      ensures Own(n, s, s.user[i])
    {
      assert Own(m, s, s.user[i]);
      assert FrameOf(s.user[i].physical) in Mapping(s.user);
    }
  }

  /**
   * Copies every mapped page of a process to a new one: a page of its own at the same virtual address. It stops with an
   * error when no page is free for the next one.
   */
  method CopyVirtualMemory(memory: Memory, source: Mm, destination: Mm) returns (err: int)
    requires source != destination && destination.View() == Empty
    requires Proper(memory.View(), source.View()) && Affordable(source.userPages, |Free(memory.View())|)
    modifies destination, memory.used, memory.data
    ensures Copied(old(memory.View()), source.userPages, memory.View(), destination.View())
    ensures Proper(memory.View(), source.View())
    ensures err == if old(|Free(memory.View())|) >= Need(source.userPages, |source.userPages|) then 0 else -1
    ensures err == 0 ==> |destination.userPages| == |source.userPages|
    ensures err == -1 ==> Free(memory.View()) == {} && |destination.userPages| < |source.userPages|
  {
    hide Proper, Copied, Affordable, Need, Took, PagesKept, Free, FrameOf, AllWays, Lacking, Shape, Ways, Addr;
    ghost var m, s := memory.View(), source.View();
    CopiedNone(m, s);
    for i := 0 to |source.userPages|
      invariant destination.userPages == destination.View().user && |destination.userPages| == i
      invariant source.View() == s
      invariant Copied(m, s.user, memory.View(), destination.View())
    {
      ghost var n, t := memory.View(), destination.View();
      NextFits(m, s, n, t);
      CopiedParts(m, s, n, t);
      var page := destination.AllocateUserPage(memory, source.userPages[i].virtual);
      if page == 0 {
        OthersCopied(m, s, n, t);
        NeedGrows(s.user, i + 1, |s.user|);
        NeedMore(s.user, i);
        return -1;
      }
      ghost var o := memory.View();
      OwnedPage(m, s, i);
      CopiedNext(m, s, n, t, o, destination.View(), page, FrameOf(source.userPages[i].physical));
      memory.CopyPage(FrameOf(page), FrameOf(source.userPages[i].physical));
    }
    OthersCopied(m, s, memory.View(), destination.View());
    CopiedCount(m, s.user, memory.View(), destination.View());
    AllNeed(m, s.user, memory.View(), destination.View());
    return 0;
  }

  lemma CopiedParts(m: Ram, s: Space, n: Ram, t: Space)
    requires Proper(m, s) && Copied(m, s.user, n, t) && |t.user| < |s.user|
    ensures Proper(n, t) && s.user[|t.user|].virtual < SPACE
  {
    hide Proper, Took;
    OwnedPage(m, s, |t.user|);
  }

  lemma OthersCopied(m: Ram, s: Space, n: Ram, t: Space)
    requires Proper(m, s) && Copied(m, s.user, n, t)
    ensures Proper(n, s)
  {
    hide Proper, Took;
    EmptyFrames();
    TookSpares(m, Empty, n, t, s);
  }

  lemma NeedMore(user: seq<UserPage>, k: nat)
    requires k < |user|
    ensures Need(user, k) < Need(user, k + 1)
  {
    hide AllWays;
    NeedGrows(user, k, k + 1);
    Within(AllWays(user[..k]), AllWays(user[..k + 1]));
  }

  lemma AllNeed(m: Ram, user: seq<UserPage>, n: Ram, t: Space)
    requires Copied(m, user, n, t) && |t.user| == |user|
    ensures |Free(n)| as int == |Free(m)| - Need(user, |user|)
  {
    hide Proper, Took, AllWays, Free;
    CopiedCount(m, user, n, t);
    SameWays(user, t.user);
    assert |t.tables| == |t.tables.Keys|;
  }

  // ---------------------------------------------------------------- reading memory

  /** The page of memory that an address reads, none where nothing is mapped. */
  function PageAt(m: Ram, s: Space, va: nat): Option<Page> {
    var entry := Walk(m.data, s.pgd, va);
    if entry == 0 || !(0 <= FrameOf(entry) < |m.data|) then None else Some(m.data[FrameOf(entry)])
  }

  ghost predicate AtPage(u: UserPage) {
    0 <= FrameOf(u.physical) < N_PAGES && u.physical == Addr(FrameOf(u.physical))
  }

  lemma {:induction false} SameFlat(m: Ram, s: Space, n: Ram, t: Space, k: nat, va: nat)
    requires Shape(m) && Shape(n) && SameVirtual(s.user, t.user) && k <= |t.user|
    requires forall j :: 0 <= j < k ==> SamePage(m, s.user[j], n, t.user[j])
    requires forall j :: 0 <= j < k ==> AtPage(s.user[j]) && AtPage(t.user[j])
    ensures var e, f := Flat(s.user[..k], va), Flat(t.user[..k], va);
            (e == 0 <==> f == 0)
            && (e != 0 ==> 0 <= FrameOf(e) < N_PAGES && 0 <= FrameOf(f) < N_PAGES && n.data[FrameOf(f)] == m.data[FrameOf(e)])
  {
    hide FrameOf, Addr;
    if k > 0 {
      assert s.user[..k][..k - 1] == s.user[..k - 1] && t.user[..k][..k - 1] == t.user[..k - 1];
      SameFlat(m, s, n, t, k - 1, va);
      assert SamePage(m, s.user[k - 1], n, t.user[k - 1]);
      FrameOfEntry(FrameOf(s.user[k - 1].physical), PAGE_FLAGS);
      FrameOfEntry(FrameOf(t.user[k - 1].physical), PAGE_FLAGS);
    }
  }

  /** Every address reads in a full copy what it read in the source when the copy was made. */
  lemma CopyReadsTheSame(m: Ram, s: Space, n: Ram, t: Space, va: nat)
    requires Proper(m, s) && Copied(m, s.user, n, t) && |t.user| == |s.user| && va < SPACE
    ensures PageAt(n, t, va) == PageAt(m, s, va)
  {
    hide Proper, Took, AllWays, FrameOf, Addr, Walk, Flat, SamePage, Shape;
    hide SameVirtual;
    CopyMapped(m, s, n, t);
    WalkFlat(m, s, va);
    WalkFlat(n, t, va);
    forall j | 0 <= j < |s.user|
      ensures AtPage(s.user[j]) && AtPage(t.user[j])
    {
      OwnedPage(m, s, j);
      OwnedPage(n, t, j);
    }
    SameFlat(m, s, n, t, |s.user|, va);
    assert s.user[..|s.user|] == s.user && t.user[..|s.user|] == t.user;
    ShapeIs(m);
    ShapeIs(n);
  }

  lemma ShapeIs(m: Ram)
    ensures Shape(m) ==> |m.data| == N_PAGES
  {
  }

  lemma CopyMapped(m: Ram, s: Space, n: Ram, t: Space)
    requires Proper(m, s) && Proper(n, t)
    ensures Mapped(m, s) && Mapped(n, t) && Shape(m) && Shape(n)
  {
    hide Tree, Rooted, Listed, Flattened, Taken, Owns;
  }
}
