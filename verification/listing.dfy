/** What a directory means: which entry a name finds, as a function of the directory's slots. */
module Listing {
  import opened Bytes
  import opened Entries
  import opened Names

  datatype Outcome = NotFound | Broken | Found(first: nat, sfn: nat)

  /** A search that arrives at p ends there. */
  predicate Stops(slots: seq<Slot>, p: nat) {
    |slots| <= p || SlotLast(slots[p])
  }

  /** The slot behind the entry, or the free slot, at p. */
  function Next(slots: seq<Slot>, p: nat): nat
    requires p < |slots|
  {
    if !SlotFree(slots[p]) && SlotLong(slots[p]) then p + Announced(slots[p]) + 1 else p + 1
  }

  /** A whole entry, long or short, or a free slot is at p. */
  ghost predicate Whole(slots: seq<Slot>, p: nat)
    requires p < |slots|
  {
    SlotFree(slots[p]) || !SlotLong(slots[p]) || Regular(slots, p)
  }

  /** The entry at p goes by the name: its long name is equal, or it has none and its short name is. */
  ghost predicate Matches(slots: seq<Slot>, name: seq<Byte>, p: nat)
    requires p < |slots| && Whole(slots, p) && !SlotFree(slots[p])
  {
    if SlotLong(slots[p]) then TextOf(slots, p, Announced(slots[p])) == name else slots[p][..11] == SfnName(name)
  }

  /** The first entry at or after p that goes by the name: where it starts and where its short entry is. */
  ghost function Lookup(slots: seq<Slot>, name: seq<Byte>, p: nat): Outcome
    decreases |slots| - p
  {
    if Stops(slots, p) then NotFound
    else if !Whole(slots, p) then Broken
    else if !SlotFree(slots[p]) && Matches(slots, name, p) then Found(p, Next(slots, p) - 1)
    else Lookup(slots, name, Next(slots, p))
  }

  /** From p up to the end mark, or to the end of the clusters, there are only whole entries and free slots. */
  ghost predicate Intact(slots: seq<Slot>, p: nat)
    decreases |slots| - p
  {
    Stops(slots, p) || (Whole(slots, p) && Intact(slots, Next(slots, p)))
  }

  /** Walking entry by entry from p arrives at q. */
  ghost predicate Reaches(slots: seq<Slot>, p: nat, q: nat)
    decreases |slots| - p
  {
    p == q || (p < q && !Stops(slots, p) && Whole(slots, p) && Reaches(slots, Next(slots, p), q))
  }

  // ---------------------------------------------------------------- decoding what was written

  /** The long name slots of a name stand at p, with a short entry of the same checksum behind them. */
  ghost predicate GroupAt(slots: seq<Slot>, p: nat, name: seq<Byte>, crc: Byte) {
    && 1 <= |name| <= 255
    && p + SlotsFor(|name|) < |slots| && ShortPart(slots[p + SlotsFor(|name|)], crc)
    && forall k :: 0 <= k < SlotsFor(|name|) ==> GroupSlot(slots, p, name, crc, k)
  }

  /** Slot k of the group holds fragment n - k of the name. */
  ghost predicate GroupSlot(slots: seq<Slot>, p: nat, name: seq<Byte>, crc: Byte, k: nat) {
    && |name| <= 255 && k < SlotsFor(|name|) && p + k < |slots|
    && slots[p + k] == LfnSlot(Part(name, SlotsFor(|name|) - k), Ord(name, SlotsFor(|name|) - k), crc)
  }

  lemma GroupSlotMeans(slots: seq<Slot>, p: nat, name: seq<Byte>, crc: Byte, k: nat)
    requires GroupSlot(slots, p, name, crc, k)
    ensures !SlotFree(slots[p + k]) && SlotLong(slots[p + k]) && slots[p + k][LFN_CRC] == crc
    ensures k == 0 ==> Announced(slots[p]) == SlotsFor(|name|) && slots[p][0] / HEAD % 2 == 1
    ensures var f := Part(name, SlotsFor(|name|) - k);
      0 !in f ==> Frag(slots[p + k]) == f
  {
    hide Part, LfnSlot, Frag;
    var n := SlotsFor(|name|);
    LfnSlotReads(Part(name, n - k), Ord(name, n - k), crc);
    FragRoundTrip(Part(name, n - k), Ord(name, n - k), crc);
  }

  /** A name is its fragments, one after the other. */
  lemma PartSplits(name: seq<Byte>, i: nat)
    requires 1 <= i <= SlotsFor(|name|)
    ensures name[13 * (i - 1)..] == Part(name, i) + (if i < SlotsFor(|name|) then name[13 * i..] else [])
    ensures forall b :: b in Part(name, i) ==> b in name
  {
  }

  /** The text of the first t slots of a group is the end of the name, if no fragment is cut short. */
  lemma {:induction false} GroupText(slots: seq<Slot>, p: nat, name: seq<Byte>, crc: Byte, t: nat)
    requires GroupAt(slots, p, name, crc) && t <= SlotsFor(|name|) && 0 !in name
    ensures TextOf(slots, p, t) == if t == 0 then [] else name[13 * (SlotsFor(|name|) - t)..]
  {
    hide Part, LfnSlot, Frag;
    if t > 0 {
      var i := SlotsFor(|name|) - t + 1;
      GroupText(slots, p, name, crc, t - 1);
      assert GroupSlot(slots, p, name, crc, t - 1);
      PartSplits(name, i);
      GroupSlotMeans(slots, p, name, crc, t - 1);
    }
  }

  lemma {:induction false} TextPlain(slots: seq<Slot>, p: nat, t: nat)
    requires p + t <= |slots| && forall k :: 0 <= k < t ==> LongAt(slots, p, k)
    ensures 0 !in TextOf(slots, p, t) && 0xff !in TextOf(slots, p, t)
  {
    hide Frag;
    if t > 0 {
      TextPlain(slots, p, t - 1);
      assert LongAt(slots, p, t - 1);
    }
  }

  /** Without 0x00 and 0xff bytes, the group is whole and decodes to the name. */
  lemma GroupDecodes(slots: seq<Slot>, p: nat, name: seq<Byte>, crc: Byte)
    requires GroupAt(slots, p, name, crc) && 0 !in name && 0xff !in name
    ensures Announced(slots[p]) == SlotsFor(|name|) && !SlotFree(slots[p]) && SlotLong(slots[p])
    ensures Regular(slots, p) && TextOf(slots, p, SlotsFor(|name|)) == name
  {
    hide Part, LfnSlot, Frag, TextOf;
    var n := SlotsFor(|name|);
    assert GroupSlot(slots, p, name, crc, 0);
    GroupSlotMeans(slots, p, name, crc, 0);
    GroupText(slots, p, name, crc, n);
    assert name[0..] == name;
    forall t | 0 <= t < n
      ensures LongAt(slots, p, t)
    {
      assert GroupSlot(slots, p, name, crc, t);
      GroupSlotMeans(slots, p, name, crc, t);
      PartSplits(name, n - t);
    }
  }

  /**
   The long name round trip: the slots written for a name of 1 to 255 bytes decode to that name
   exactly when it has no 0x00 and no 0xff byte.
   */
  lemma LfnRoundTrip(slots: seq<Slot>, p: nat, name: seq<Byte>, crc: Byte)
    requires GroupAt(slots, p, name, crc)
    ensures (Regular(slots, p) && TextOf(slots, p, Announced(slots[p])) == name) <==> (0 !in name && 0xff !in name)
  {
    hide Part, LfnSlot, Frag, TextOf;
    if Regular(slots, p) {
      TextPlain(slots, p, Announced(slots[p]));
    }
    if 0 !in name && 0xff !in name {
      GroupDecodes(slots, p, name, crc);
    }
  }

  // ---------------------------------------------------------------- frames

  lemma {:induction false} TextFrame(s: seq<Slot>, s': seq<Slot>, p: nat, t: nat)
    requires p + t <= |s| && p + t <= |s'| && forall k :: p <= k < p + t ==> s[k] == s'[k]
    ensures TextOf(s, p, t) == TextOf(s', p, t)
  {
    hide Frag;
    if t > 0 {
      TextFrame(s, s', p, t - 1);
    }
  }

  lemma RegularFrame(s: seq<Slot>, s': seq<Slot>, p: nat)
    requires Regular(s, p) && p + Announced(s[p]) < |s'|
    requires forall k :: p <= k <= p + Announced(s[p]) ==> s[k] == s'[k]
    ensures Regular(s', p) && TextOf(s', p, Announced(s[p])) == TextOf(s, p, Announced(s[p]))
  {
    var n := Announced(s[p]);
    TextFrame(s, s', p, n);
    forall t | 0 <= t < n
      ensures LongAt(s', p, t)
    {
      assert LongAt(s, p, t);
    }
  }

  lemma RegularMeans(s: seq<Slot>, p: nat)
    requires Regular(s, p)
    ensures p < |s| && var n := Announced(s[p]);
      s[p][0] / HEAD % 2 == 1 && 1 <= n <= 20 && p + n < |s| && |TextOf(s, p, n)| <= 255 && ShortPart(s[p + n], s[p][LFN_CRC])
  {
  }

  /** An entry that both directories hold whole, in the same slots, is found by the same names. */
  lemma EntryFrame(s: seq<Slot>, s': seq<Slot>, p: nat)
    requires p < |s| && !SlotFree(s[p]) && Whole(s, p) && Next(s, p) <= |s'|
    requires forall k :: p <= k < Next(s, p) ==> s[k] == s'[k]
    ensures p < |s'| && Whole(s', p) && Next(s', p) == Next(s, p)
    ensures forall m :: Matches(s', m, p) <==> Matches(s, m, p)
  {
    if SlotLong(s[p]) {
      RegularFrame(s, s', p);
    }
  }

  /** An entry ends inside the directory, and only its own slots can be taken. */
  lemma WholeEnds(s: seq<Slot>, p: nat)
    requires p < |s| && Whole(s, p)
    ensures p < Next(s, p) <= |s|
    ensures forall k :: p < k < Next(s, p) ==> !SlotFree(s[k])
  {
    if !SlotFree(s[p]) && SlotLong(s[p]) {
      var n := Announced(s[p]);
      forall k | p < k < Next(s, p)
        ensures !SlotFree(s[k])
      {
        if k < p + n {
          assert LongAt(s, p, k - p);
        }
      }
    }
  }

  /** A walk over a well-formed directory arrives at every free slot that no end mark precedes. */
  lemma {:induction false} ReachesFree(s: seq<Slot>, p: nat, q: nat)
    requires Intact(s, p) && p <= q < |s| && SlotFree(s[q])
    requires forall k :: p <= k < q ==> !SlotLast(s[k])
    ensures Reaches(s, p, q) && Intact(s, q)
    decreases q - p
  {
    if p < q {
      WholeEnds(s, p);
      ReachesFree(s, Next(s, p), q);
    }
  }

  /** The part of a search that lies before q. */
  ghost function LookupIn(slots: seq<Slot>, name: seq<Byte>, p: nat, q: nat): Outcome
    decreases |slots| - p
  {
    if p == q || Stops(slots, p) then NotFound
    else if !Whole(slots, p) then Broken
    else if !SlotFree(slots[p]) && Matches(slots, name, p) then Found(p, Next(slots, p) - 1)
    else LookupIn(slots, name, Next(slots, p), q)
  }

  /** A search that passes q is the part before q followed by the search from q. */
  lemma {:induction false} LookupSplit(s: seq<Slot>, m: seq<Byte>, p: nat, q: nat)
    requires Reaches(s, p, q) && q <= |s|
    ensures Lookup(s, m, p) == if LookupIn(s, m, p, q) == NotFound then Lookup(s, m, q) else LookupIn(s, m, p, q)
    ensures LookupIn(s, m, p, q) == NotFound || (LookupIn(s, m, p, q).Found? && LookupIn(s, m, p, q).sfn < q)
    decreases |s| - p
  {
    if p < q {
      WholeEnds(s, p);
      ReachesWithin(s, Next(s, p), q);
      LookupSplit(s, m, Next(s, p), q);
    }
  }

  /** Directories that agree below q give the same answers before q. */
  lemma {:induction false} LookupInFrame(s: seq<Slot>, s': seq<Slot>, m: seq<Byte>, p: nat, q: nat)
    requires Reaches(s, p, q) && q <= |s| && q <= |s'|
    requires forall k :: 0 <= k < q ==> s[k] == s'[k]
    ensures Reaches(s', p, q) && LookupIn(s', m, p, q) == LookupIn(s, m, p, q)
    decreases |s| - p
  {
    if p < q {
      WholeEnds(s, p);
      ReachesWithin(s, Next(s, p), q);
      if !SlotFree(s[p]) {
        EntryFrame(s, s', p);
      }
      LookupInFrame(s, s', m, Next(s, p), q);
    }
  }

  lemma ReachesWithin(s: seq<Slot>, p: nat, q: nat)
    requires Reaches(s, p, q)
    ensures p <= q
  {
  }

  /** Being intact below q carries over. */
  lemma {:induction false} IntactBelow(s: seq<Slot>, s': seq<Slot>, p: nat, q: nat)
    requires Reaches(s, p, q) && q <= |s| && q <= |s'|
    requires forall k :: 0 <= k < q ==> s[k] == s'[k]
    requires Intact(s', q)
    ensures Intact(s', p)
    decreases q - p
  {
    if p < q {
      WholeEnds(s, p);
      ReachesWithin(s, Next(s, p), q);
      if !SlotFree(s[p]) {
        EntryFrame(s, s', p);
      }
      IntactBelow(s, s', Next(s, p), q);
    }
  }

  /** Directories that agree from r on give the same answers from there. */
  lemma {:induction false} LookupAbove(s: seq<Slot>, s': seq<Slot>, m: seq<Byte>, p: nat, r: nat)
    requires |s| == |s'| && r <= p && Intact(s, p)
    requires forall k :: r <= k < |s| ==> s[k] == s'[k]
    ensures Intact(s', p) && Lookup(s', m, p) == Lookup(s, m, p)
    decreases |s| - p
  {
    if !Stops(s, p) {
      WholeEnds(s, p);
      if !SlotFree(s[p]) {
        EntryFrame(s, s', p);
      }
      LookupAbove(s, s', m, Next(s, p), r);
    }
  }

  /** Free slots are passed over. */
  lemma {:induction false} LookupSkips(s: seq<Slot>, m: seq<Byte>, p: nat, q: nat)
    requires p <= q <= |s| && forall k :: p <= k < q ==> s[k][0] == SLOT_FREE
    ensures Lookup(s, m, p) == Lookup(s, m, q)
    ensures Intact(s, p) <==> Intact(s, q)
    decreases q - p
  {
    hide Regular, TextOf, Matches;
    if p < q {
      LookupSkips(s, m, p + 1, q);
    }
  }

  /** Clusters of zeros behind a well-formed directory change nothing. */
  lemma {:induction false} LookupPadded(s: seq<Slot>, z: seq<Slot>, m: seq<Byte>, p: nat)
    requires Intact(s, p) && forall k :: 0 <= k < |z| ==> SlotLast(z[k])
    ensures Intact(s + z, p) && Lookup(s + z, m, p) == Lookup(s, m, p)
    decreases |s| - p
  {
    if p < |s| && !Stops(s, p) {
      WholeEnds(s, p);
      if !SlotFree(s[p]) {
        EntryFrame(s, s + z, p);
      }
      LookupPadded(s, z, m, Next(s, p));
    }
  }

  // ---------------------------------------------------------------- adding an entry

  /**
   The n + 1 slots from q on can be taken for a new entry: they are free, or lie behind the end mark;
   ends says that the first end mark is among them.
   */
  ghost predicate Room(s: seq<Slot>, q: nat, n: nat, ends: bool) {
    if ends then
      && q + n + 1 < |s|
      && exists e :: q <= e <= q + n && EndsAt(s, q, e)
    else
      && q + n < |s|
      && (forall k :: q <= k <= q + n ==> s[k][0] == SLOT_FREE)
      && (forall k :: 0 <= k <= q + n ==> !SlotLast(s[k]))
  }

  /** The first end mark is at e, and the slots from q up to it are free. */
  ghost predicate EndsAt(s: seq<Slot>, q: nat, e: nat) {
    && e < |s| && SlotLast(s[e])
    && (forall k :: 0 <= k < e ==> !SlotLast(s[k]))
    && (forall k :: q <= k < e ==> s[k][0] == SLOT_FREE)
  }

  /**
   The search for room has arrived at p: the last cnt slots can be taken, and ends says that an end
   mark has been met.
   */
  ghost predicate Scanning(s: seq<Slot>, p: nat, cnt: nat, ends: bool) {
    && cnt <= p <= |s|
    && var q := p - cnt;
    if ends then exists e :: q <= e < p && EndsAt(s, q, e)
    else (forall k :: 0 <= k < p ==> !SlotLast(s[k])) && (forall k :: q <= k < p ==> s[k][0] == SLOT_FREE)
  }

  lemma ScanningStart(s: seq<Slot>)
    ensures Scanning(s, 0, 0, false)
  {
  }

  /** One slot further: free slots, and all slots once an end mark has been met, are counted. */
  lemma ScanningStep(s: seq<Slot>, p: nat, cnt: nat, ends: bool)
    requires Scanning(s, p, cnt, ends) && p < |s|
    ensures Scanning(s, p + 1, if ends || SlotFree(s[p]) then cnt + 1 else 0, ends || SlotLast(s[p]))
  {
    if ends {
      var e :| p - cnt <= e < p && EndsAt(s, p - cnt, e);
      assert EndsAt(s, p + 1 - (cnt + 1), e);
    } else if SlotLast(s[p]) {
      assert EndsAt(s, p + 1 - (cnt + 1), p);
    }
  }

  lemma ScanningLonger(s: seq<Slot>, s': seq<Slot>, p: nat, cnt: nat, ends: bool)
    requires Scanning(s, p, cnt, ends) && s <= s'
    ensures Scanning(s', p, cnt, ends)
  {
    if ends {
      var e :| p - cnt <= e < p && EndsAt(s, p - cnt, e);
      assert EndsAt(s', p - cnt, e);
    }
  }

  lemma ScanningDone(s: seq<Slot>, p: nat, n: nat, ends: bool)
    requires Scanning(s, p, n + 1, ends) && p < |s|
    ensures Room(s, p - n - 1, n, ends)
  {
  }

  /** Slot k is in use, before any end mark. */
  ghost predicate UsedAt(s: seq<Slot>, k: nat) {
    k < |s| && !SlotFree(s[k]) && forall j :: 0 <= j < k ==> !SlotLast(s[j])
  }

  ghost predicate Blocked(s: seq<Slot>, p: nat, n: nat) {
    exists k :: p <= k <= p + n && UsedAt(s, k)
  }

  /** Any n + 1 slots in a row that start before q have one in use among them. */
  ghost predicate NoRoomBefore(s: seq<Slot>, q: nat, n: nat) {
    forall p: nat :: p < q ==> Blocked(s, p, n)
  }

  lemma NoRoomStep(s: seq<Slot>, p: nat, cnt: nat, ends: bool, n: nat)
    requires Scanning(s, p, cnt, ends) && p < |s| && cnt <= n && NoRoomBefore(s, p - cnt, n)
    ensures !ends && !SlotFree(s[p]) ==> NoRoomBefore(s, p + 1, n)
  {
    if !ends && !SlotFree(s[p]) {
      assert UsedAt(s, p);
      forall r: nat | r < p + 1
        ensures Blocked(s, r, n)
      {
      }
    }
  }

  lemma NoRoomLonger(s: seq<Slot>, s': seq<Slot>, q: nat, n: nat)
    requires NoRoomBefore(s, q, n) && s <= s'
    ensures NoRoomBefore(s', q, n)
  {
    forall p: nat | p < q
      ensures Blocked(s', p, n)
    {
      assert Blocked(s, p, n);
      var k :| p <= k <= p + n && UsedAt(s, k);
      assert UsedAt(s', k);
    }
  }

  /** s' is s with a new entry from q on, and a new end mark behind it when the old one was taken. */
  ghost predicate Added(s: seq<Slot>, s': seq<Slot>, q: nat, name: seq<Byte>, ends: bool) {
    var n := SlotsFor(|name|);
    && |s'| == |s|
    && GroupAt(s', q, name, Crc(SfnName(name)))
    && (forall k :: 0 <= k < q ==> s'[k] == s[k])
    && (ends ==> q + n + 1 < |s| && SlotLast(s'[q + n + 1]))
    && (!ends ==> forall k :: q + n < k < |s| ==> s'[k] == s[k])
  }

  /** The walk over the old directory arrives at the room, and finds nothing before its end. */
  lemma RoomReached(s: seq<Slot>, q: nat, n: nat, ends: bool, m: seq<Byte>)
    requires Intact(s, 0) && Room(s, q, n, ends)
    ensures Reaches(s, 0, q) && Intact(s, q)
    ensures Lookup(s, m, q) == if ends then NotFound else Lookup(s, m, q + n + 1)
    ensures !ends ==> Intact(s, q + n + 1)
  {
    ReachesFree(s, 0, q);
    if ends {
      var e :| q <= e <= q + n && EndsAt(s, q, e);
      LookupSkips(s, m, q, e);
    } else {
      LookupSkips(s, m, q, q + n + 1);
    }
  }

  /** The walk over the new directory reads the new entry there, and goes on behind it as before. */
  lemma AddedEntry(s: seq<Slot>, s': seq<Slot>, q: nat, name: seq<Byte>, ends: bool, m: seq<Byte>)
    requires Intact(s, 0) && Room(s, q, SlotsFor(|name|), ends) && Added(s, s', q, name, ends)
    requires 0 !in name && 0xff !in name
    ensures Intact(s', q)
    ensures Lookup(s', m, q) == if m == name then Found(q, q + SlotsFor(|name|)) else Lookup(s, m, q)
    ensures Lookup(s', m, q + SlotsFor(|name|) + 1) == Lookup(s, m, q)
  {
    hide Regular, TextOf, GroupAt, GroupSlot, Room;
    var n := SlotsFor(|name|);
    RoomReached(s, q, n, ends, m);
    GroupDecodes(s', q, name, Crc(SfnName(name)));
    if !ends {
      RoomMeans(s, q, n, ends);
      LookupAbove(s, s', m, q + n + 1, q + n + 1);
    }
  }

  /** No name is found where there is room. */
  lemma RoomTaken(s: seq<Slot>, q: nat, n: nat, ends: bool, m: seq<Byte>)
    requires Intact(s, 0) && Room(s, q, n, ends)
    ensures Lookup(s, m, 0).Found? ==> Lookup(s, m, 0).first != q
  {
    hide Lookup, Intact, Reaches, Regular, Matches, Whole;
    if Lookup(s, m, 0).Found? {
      FoundAt(s, m, 0);
    }
  }

  lemma RoomMeans(s: seq<Slot>, q: nat, n: nat, ends: bool)
    requires Room(s, q, n, ends)
    ensures q + n < |s| && (ends ==> q + n + 1 < |s|)
  {
  }

  /**
   Adding a name that was not there: it is found where it was put, every other name gives the answer
   it gave before, and the directory stays well formed.
   */
  lemma AddedLookup(s: seq<Slot>, s': seq<Slot>, q: nat, name: seq<Byte>, ends: bool)
    requires Intact(s, 0) && Room(s, q, SlotsFor(|name|), ends) && Added(s, s', q, name, ends)
    requires 0 !in name && 0xff !in name && Lookup(s, name, 0) == NotFound
    ensures Intact(s', 0)
    ensures Lookup(s', name, 0) == Found(q, q + SlotsFor(|name|))
    ensures Lookup(s', name, q + SlotsFor(|name|) + 1) == NotFound
    ensures forall m :: m != name ==> Lookup(s', m, 0) == Lookup(s, m, 0)
  {
    hide Regular, TextOf, GroupAt, GroupSlot, Room, Lookup, LookupIn, Reaches, Intact, Matches;
    RoomMeans(s, q, SlotsFor(|name|), ends);
    RoomReached(s, q, SlotsFor(|name|), ends, name);
    AddedEntry(s, s', q, name, ends, name);
    IntactBelow(s, s', 0, q);
    LookupSplit(s, name, 0, q);
    forall m
      ensures m == name ==> Lookup(s', m, 0) == Found(q, q + SlotsFor(|name|))
      ensures m != name ==> Lookup(s', m, 0) == Lookup(s, m, 0)
    {
      AddedEntry(s, s', q, name, ends, m);
      LookupInFrame(s, s', m, 0, q);
      LookupSplit(s, m, 0, q);
      LookupSplit(s', m, 0, q);
    }
  }

  /** An entry found before is the same, slot for slot, after adding. */
  lemma AddedKeeps(s: seq<Slot>, s': seq<Slot>, q: nat, name: seq<Byte>, ends: bool, m: seq<Byte>, i: nat)
    requires Intact(s, 0) && Room(s, q, SlotsFor(|name|), ends) && Added(s, s', q, name, ends)
    requires Lookup(s, m, 0).Found? && Lookup(s, m, 0).first <= i <= Lookup(s, m, 0).sfn
    ensures i < |s| && s'[i] == s[i]
  {
    hide Regular, TextOf, GroupAt, GroupSlot, Room, LookupIn, Reaches, Intact, Matches, Lookup;
    RoomMeans(s, q, SlotsFor(|name|), ends);
    RoomReached(s, q, SlotsFor(|name|), ends, m);
    LookupSplit(s, m, 0, q);
    FoundAt(s, m, 0);
    if !ends {
      LookupLater(s, m, q + SlotsFor(|name|) + 1);
    }
  }

  // ---------------------------------------------------------------- removing an entry

  /** s' is s with the slots from first to last marked free. */
  ghost predicate Removed(s: seq<Slot>, s': seq<Slot>, first: nat, last: nat) {
    && |s'| == |s| && first <= last < |s|
    && forall k :: 0 <= k < |s| ==> s'[k] == if first <= k <= last then s[k][0 := 0xe5] else s[k]
  }

  /** A name that is found is found at an entry the walk arrives at. */
  lemma {:induction false} FoundAt(s: seq<Slot>, m: seq<Byte>, p: nat)
    requires Intact(s, p) && Lookup(s, m, p).Found?
    ensures var r := Lookup(s, m, p);
      && p <= r.first <= r.sfn < |s| && Reaches(s, p, r.first) && !SlotFree(s[r.first]) && Whole(s, r.first)
      && Next(s, r.first) == r.sfn + 1 && Matches(s, m, r.first) && Intact(s, r.first)
      && !SlotFree(s[r.sfn]) && !SlotLong(s[r.sfn])
    decreases |s| - p
  {
    WholeEnds(s, p);
    if SlotFree(s[p]) || !Matches(s, m, p) {
      FoundAt(s, m, Next(s, p));
    }
  }

  /**
   Removing the entry a name found: a name whose first match it was now gives its next match, every
   other name gives the answer it gave before, and the directory stays well formed.
   */
  lemma RemovedLookup(s: seq<Slot>, s': seq<Slot>, name: seq<Byte>)
    requires Intact(s, 0) && Lookup(s, name, 0).Found?
    requires Removed(s, s', Lookup(s, name, 0).first, Lookup(s, name, 0).sfn)
    ensures Intact(s', 0)
    ensures forall m :: Lookup(s, m, 0) != Lookup(s, name, 0) ==> Lookup(s', m, 0) == Lookup(s, m, 0)
    ensures forall m :: Lookup(s, m, 0) == Lookup(s, name, 0) ==> Lookup(s', m, 0) == Lookup(s, m, Lookup(s, name, 0).sfn + 1)
  {
    hide Regular, TextOf, Lookup, LookupIn, Reaches, Intact, Matches, Whole, Next;
    FoundAt(s, name, 0);
    var r := Lookup(s, name, 0);
    LookupHere(s, name, r.first);
    LookupAbove(s, s', name, r.sfn + 1, r.sfn + 1);
    LookupSkips(s', name, r.first, r.sfn + 1);
    IntactBelow(s, s', 0, r.first);
    forall m
      ensures Lookup(s, m, 0) != r ==> Lookup(s', m, 0) == Lookup(s, m, 0)
      ensures Lookup(s, m, 0) == r ==> Lookup(s', m, 0) == Lookup(s, m, r.sfn + 1)
    {
      LookupAbove(s, s', m, r.sfn + 1, r.sfn + 1);
      LookupSkips(s', m, r.first, r.sfn + 1);
      LookupInFrame(s, s', m, 0, r.first);
      LookupSplit(s, m, 0, r.first);
      LookupSplit(s', m, 0, r.first);
      LookupHere(s, m, r.first);
      LookupLater(s, m, r.sfn + 1);
    }
  }

  /** A search that starts at an entry finds it or goes on behind it. */
  lemma LookupHere(s: seq<Slot>, m: seq<Byte>, p: nat)
    requires Intact(s, p) && p < |s| && !SlotFree(s[p]) && Whole(s, p)
    ensures Lookup(s, m, p) == Found(p, Next(s, p) - 1) || Lookup(s, m, p) == Lookup(s, m, Next(s, p))
    ensures Intact(s, Next(s, p))
  {
  }

  /** A search finds nothing before the place where it starts. */
  lemma LookupLater(s: seq<Slot>, m: seq<Byte>, p: nat)
    requires Intact(s, p)
    ensures Lookup(s, m, p).Found? ==> p <= Lookup(s, m, p).first
  {
    if Lookup(s, m, p).Found? {
      FoundAt(s, m, p);
    }
  }
}
