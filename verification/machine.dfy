/** All processes' address spaces in one physical memory. */
module Machines {

  import opened Tables
  import opened TableSteps
  import opened AddressSpaces
  import opened Ownership
  import opened Paging
  import opened Forking
  import Scenes

  /** Every address space is proper, and no page belongs to two of them. */
  ghost predicate Together(m: Ram, views: seq<Space>) {
    && (forall i :: 0 <= i < |views| ==> Proper(m, views[i]))
    && (forall i, j :: 0 <= i < j < |views| ==> Frames(views[i]) !! Frames(views[j]))
  }

  lemma TookTogether(m: Ram, views: seq<Space>, k: nat, n: Ram, t: Space)
    requires Together(m, views) && k < |views| && Took(m, views[k], n, t) && Proper(n, t)
    ensures Together(n, views[k := t])
    ensures forall i :: 0 <= i < |views| && i != k ==> Spared(m, views[i], n)
  {
    hide Proper, Took, Frames, Spared;
    forall i | 0 <= i < |views| && i != k
      ensures Spared(m, views[i], n) && Proper(n, views[i]) && Frames(views[i]) !! Frames(t)
    {
      assert Frames(views[i]) !! Frames(views[k]);
      TookSpares(m, views[k], n, t, views[i]);
    }
  }

  lemma ForkTogether(m: Ram, views: seq<Space>, n: Ram, t: Space)
    requires Together(m, views) && Took(m, Empty, n, t) && Proper(n, t)
    ensures Together(n, views + [t])
    ensures forall i :: 0 <= i < |views| ==> Spared(m, views[i], n)
  {
    hide Proper, Took, Frames, Spared;
    EmptyFrames();
    forall i | 0 <= i < |views|
      ensures Spared(m, views[i], n) && Proper(n, views[i]) && Frames(views[i]) !! Frames(t)
    {
      TookSpares(m, Empty, n, t, views[i]);
    }
  }

  /** A page handed out to nobody in particular. */
  lemma GotTogether(m: Ram, views: seq<Space>, f: nat)
    requires Together(m, views) && Shape(m) && f < N_PAGES && f in Free(m)
    ensures Together(Got(m, f), views)
    ensures forall i :: 0 <= i < |views| ==> Spared(m, views[i], Got(m, f))
  {
    hide Proper, Frames, ZeroPage;
    forall i | 0 <= i < |views|
      ensures Spared(m, views[i], Got(m, f)) && Proper(Got(m, f), views[i])
    {
      FramesUsed(m, views[i]);
      FreeIs(m);
      SparedProper(m, views[i], Got(m, f));
    }
  }

  /** A page of process k written: every process keeps its address space, and the others their pages. */
  lemma WrittenTogether(m: Ram, views: seq<Space>, k: nat, i: nat, page: Page)
    requires Together(m, views) && k < |views| && i < |views[k].user|
    ensures Shape(m) && 0 <= FrameOf(views[k].user[i].physical) < N_PAGES
    ensures Together(Written(m, FrameOf(views[k].user[i].physical), page), views)
    ensures forall j :: 0 <= j < |views| && j != k ==> Spared(m, views[j], Written(m, FrameOf(views[k].user[i].physical), page))
  {
    hide Proper, Frames, FrameOf;
    OwnedPage(m, views[k], i);
    var f := FrameOf(views[k].user[i].physical);
    var n := Written(m, f, page);
    WrittenProper(m, views[k], f, page);
    MappedFrame(views[k], i);
    forall j | 0 <= j < |views| && j != k
      ensures Spared(m, views[j], n) && Proper(n, views[j])
    {
      assert Frames(views[j]) !! Frames(views[k]);
      FramesUsed(m, views[j]);
      SparedProper(m, views[j], n);
    }
  }

  lemma MappedFrame(s: Space, i: nat)
    requires i < |s.user|
    ensures FrameOf(s.user[i].physical) in Frames(s)
  {
  }

  /** A spared address space reads the same everywhere. */
  lemma SparedReads(m: Ram, s: Space, n: Ram, va: nat)
    requires Proper(m, s) && Spared(m, s, n) && va < SPACE
    ensures PageAt(n, s, va) == PageAt(m, s, va)
  {
    hide Proper, FrameOf, Addr, Walk, Flat, Frames;
    SparedProper(m, s, n);
    CopyMapped(m, s, n, s);
    WalkFlat(m, s, va);
    WalkFlat(n, s, va);
    FlatOwned(m, s, |s.user|, va);
    assert s.user[..|s.user|] == s.user;
  }

  lemma {:induction false} FlatOwned(m: Ram, s: Space, k: nat, va: nat)
    requires Proper(m, s) && k <= |s.user|
    ensures var e := Flat(s.user[..k], va); e != 0 ==> 0 <= FrameOf(e) < N_PAGES && FrameOf(e) in Frames(s)
  {
    hide Proper, FrameOf, Addr, Frames;
    if k > 0 {
      assert s.user[..k][..k - 1] == s.user[..k - 1];
      FlatOwned(m, s, k - 1, va);
      OwnedPage(m, s, k - 1);
      MappedFrame(s, k - 1);
      FrameOfEntry(FrameOf(s.user[k - 1].physical), PAGE_FLAGS);
    }
  }

  /** The copy has every mapped page of the source, and each address reads in it what it read in the source. */
  ghost predicate Full(m: Ram, s: Space, n: Ram, t: Space) {
    SameVirtual(s.user, t.user) && |t.user| == |s.user| && t.tables.Keys == s.tables.Keys
    && forall va: nat :: va < SPACE ==> PageAt(n, t, va) == PageAt(m, s, va)
  }

  lemma FullCopy(m: Ram, s: Space, n: Ram, o: Ram, t: Space)
    requires Proper(m, s) && Proper(n, s) && Spared(m, s, n) && Copied(n, s.user, o, t) && |t.user| == |s.user|
    ensures Full(m, s, o, t)
    ensures |Free(n)| == |Free(o)| + |s.user| + |s.kernel|
  {
    hide Proper, Took, PageAt, Spared, SamePage, Free, AllWays;
    forall va: nat | va < SPACE
      ensures PageAt(o, t, va) == PageAt(m, s, va)
    {
      CopyReadsTheSame(n, s, o, t, va);
      SparedReads(m, s, n, va);
    }
    CopiedCount(n, s.user, o, t);
    SameWays(s.user, t.user);
    assert s.user[..|s.user|] == s.user;
    NeedSource(n, s, |s.user|);
    ProperWays(n, s);
    assert |t.tables| == |t.tables.Keys|;
  }

  lemma ProperWays(m: Ram, s: Space)
    requires Proper(m, s)
    ensures s.tables.Keys == AllWays(s.user)
  {
  }

  lemma SparedSelf(m: Ram, views: seq<Space>)
    requires Together(m, views)
    ensures forall i :: 0 <= i < |views| ==> Spared(m, views[i], m)
  {
    hide Proper, Frames;
    forall i | 0 <= i < |views|
      ensures Spared(m, views[i], m)
    {
      FramesUsed(m, views[i]);
    }
  }

  lemma SparedOn(m: Ram, views: seq<Space>, n: Ram, o: Ram)
    requires forall i :: 0 <= i < |views| ==> Spared(m, views[i], n)
    requires forall i :: 0 <= i < |views| ==> Spared(n, views[i], o)
    ensures forall i :: 0 <= i < |views| ==> Spared(m, views[i], o)
  {
    hide Frames;
    forall i | 0 <= i < |views|
      ensures Spared(m, views[i], o)
    {
      assert Spared(m, views[i], n) && Spared(n, views[i], o);
    }
  }

  /** A page was taken for the control block, and then the memory of process k was copied. */
  lemma Forked(m: Ram, views: seq<Space>, k: nat, n: Ram, o: Ram, t: Space)
    requires Together(m, views) && Together(n, views) && k < |views|
    requires forall i :: 0 <= i < |views| ==> Spared(m, views[i], n)
    requires Copied(n, views[k].user, o, t)
    ensures Together(o, views + [t])
    ensures forall i :: 0 <= i < |views| ==> Spared(m, views[i], o)
    ensures |t.user| == |views[k].user| ==> Full(m, views[k], o, t) && |Free(n)| == |Free(o)| + |views[k].user| + |views[k].kernel|
  {
    hide Together, Proper, Took, Spared, Full, Free, AllWays, SamePage;
    ForkTogether(n, views, o, t);
    SparedOn(m, views, n, o);
    TogetherAt(m, views, k);
    TogetherAt(n, views, k);
    if |t.user| == |views[k].user| {
      FullCopy(m, views[k], n, o, t);
    }
  }

  class Machine {
    const memory: Memory
    var spaces: seq<Mm>

    ghost function Views(): (v: seq<Space>)
      reads this, spaces
      ensures |v| == |spaces| && forall i :: 0 <= i < |spaces| ==> v[i] == spaces[i].View()
    {
      seq(|spaces|, i requires 0 <= i < |spaces| reads this, spaces => spaces[i].View())
    }

    ghost predicate Valid()
      reads this, spaces, memory.used, memory.data
    {
      Together(memory.View(), Views()) && forall i, j :: 0 <= i < j < |spaces| ==> spaces[i] != spaces[j]
    }

    /** All pages are free, and the first process has no memory yet. */
    constructor (initial: seq<Page>)
      requires |initial| == N_PAGES
      ensures Valid() && Views() == [Empty] && |Free(memory.View())| == N_PAGES
    {
      memory := new Memory(initial);
      var first := new Mm();
      spaces := [first];
      new;
      assert Views() == [Empty];
      StartTogether(memory.View());
    }

    /** Gives process k a page of its own for an address. */
    method Allocate(k: nat, va: nat) returns (page: nat)
      requires Valid() && k < |spaces| && va < SPACE
      requires |spaces[k].userPages| < MAX_PAGES && |spaces[k].kernelPages| + |Lacking(spaces[k].View(), va)| <= MAX_PAGES
      requires Free(memory.View()) != {} ==> |Lacking(spaces[k].View(), va)| < |Free(memory.View())|
      modifies spaces[k], memory.used, memory.data
      ensures Valid()
      ensures page == 0 <==> old(Free(memory.View())) == {}
      ensures page == 0 ==> memory.View() == old(memory.View()) && Views() == old(Views())
      ensures page != 0 ==>
                && FrameOf(page) in Free(old(memory.View()))
                && Views() == old(Views())[k := spaces[k].View()] && spaces[k].userPages == old(spaces[k].userPages) + [UserPage(page, va)]
                && forall i :: 0 <= i < |spaces| && i != k ==> Spared(old(memory.View()), Views()[i], memory.View())
    {
      hide Together, Proper, Took, PagesKept, Free, FrameOf, Addr, Lacking, Ways, ZeroPage, Spared;
      ghost var m, views := memory.View(), Views();
      TogetherAt(m, views, k);
      page := spaces[k].AllocateUserPage(memory, va);
      assert Views() == views[k := spaces[k].View()];
      if page != 0 {
        TookTogether(m, views, k, memory.View(), spaces[k].View());
      } else {
        assert Views() == views;
      }
    }

    /** A new process with a copy of the memory of process k, and a page for its control block; -1 when it cannot be had. */
    method Fork(k: nat) returns (child: int)
      requires Valid() && k < |spaces|
      requires Free(memory.View()) != {} ==> Affordable(spaces[k].userPages, |Free(memory.View())| - 1)
      modifies this, memory.used, memory.data
      ensures Valid()
      ensures child == if old(Free(memory.View())) == {} || old(|spaces|) >= Scenes.N_PROCESSES then -1 else old(|spaces|)
      ensures child == -1 ==> Views() == old(Views())
      ensures child != -1 ==> |spaces| == child + 1 && Views()[..child] == old(Views())
      ensures forall i :: 0 <= i < old(|spaces|) ==> Spared(old(memory.View()), Views()[i], memory.View())
      ensures child != -1 && old(|Free(memory.View())|) > Need(old(spaces[k].userPages), |old(spaces[k].userPages)|) ==>
                && Full(old(memory.View()), Views()[k], memory.View(), Views()[child])
                && |Free(memory.View())| == old(|Free(memory.View())|) - 1 - |spaces[k].userPages| - |spaces[k].kernelPages|
    {
      hide Together, Proper, Took, PagesKept, Free, FrameOf, Addr, Lacking, Ways, ZeroPage, Spared, Affordable, Need, Copied, Got, Full;
      ghost var m, views := memory.View(), Views();
      TogetherAt(m, views, k);
      var pcb := memory.GetFreePage();
      assert Views() == views;
      if pcb == 0 {
        SparedSelf(m, views);
        return -1;
      }
      GotTogether(m, views, FrameOf(pcb));
      if |spaces| >= Scenes.N_PROCESSES {
        return -1;
      }
      ghost var n := memory.View();
      TogetherAt(n, views, k);
      FreeLess(m, FrameOf(pcb));
      var mm := new Mm();
      var err := CopyVirtualMemory(memory, spaces[k], mm);
      child := |spaces|;
      ghost var t := mm.View();
      Forked(m, views, k, n, memory.View(), t);
      spaces := spaces + [mm];
      assert Views() == views + [t];
    }
  }

  lemma TogetherAt(m: Ram, views: seq<Space>, k: nat)
    requires Together(m, views) && k < |views|
    ensures Proper(m, views[k]) && Shape(m)
  {
    hide Frames, Proper;
    FramesUsed(m, views[k]);
  }

  lemma StartTogether(m: Ram)
    requires m.used == seq(N_PAGES, _ => false) && |m.data| == N_PAGES
    ensures Together(m, [Empty]) && |Free(m)| == N_PAGES
  {
    hide Proper, Frames;
    EmptyProper(m);
    StartFree(m);
  }

  lemma StartFree(m: Ram)
    requires m.used == seq(N_PAGES, _ => false)
    ensures |Free(m)| == N_PAGES
  {
    assert Free(m) == Upto(N_PAGES);
  }

  ghost function Upto(n: nat): (u: set<nat>)
    ensures |u| == n && forall f: nat :: f in u <==> f < n
  {
    if n == 0 then {} else Upto(n - 1) + {n - 1}
  }
}
