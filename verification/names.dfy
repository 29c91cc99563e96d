/** Directory slots, and the long and short names stored in them. */
module Names {
  import opened Bytes
  import opened Entries

  type Slot = s: seq<Byte> | |s| == 32 witness seq(32, _ => 0)

  const ATTR_LFN := 0x0f
  const SLOT_FREE := 0xe5
  const SLOT_LAST := 0x00
  const PAD := 0x20
  const HEAD := 0x40    // LFN_HEAD_MSK: set in the first slot of a long name
  const DOT := 0x2e
  const LFN_CRC := 13

  predicate SlotLast(s: Slot) { s[0] == SLOT_LAST }
  predicate SlotFree(s: Slot) { s[0] == SLOT_LAST || s[0] == SLOT_FREE }
  predicate SlotLong(s: Slot) { s[ATTR] == ATTR_LFN }

  // ---------------------------------------------------------------- long names

  /** The offset in a slot of the j-th of its 13 characters; the high byte of the character follows. */
  function LfnIndex(j: nat): (k: nat)
    requires j < 13
    ensures 1 <= k <= 30 && k != 11 && k != 12 && k != 13
  {
    if j < 5 then 1 + 2 * j else if j < 11 then 14 + 2 * (j - 5) else 28 + 2 * (j - 11)
  }

  function Char(s: Slot, j: nat): Byte
    requires j < 13
  {
    s[LfnIndex(j)]
  }

  /** The characters of the slot before its first zero character, from the j-th on. */
  function FragFrom(s: Slot, j: nat): (r: seq<Byte>)
    requires j <= 13
    ensures |r| <= 13 - j && 0 !in r
    ensures forall i :: 0 <= i < |r| ==> r[i] == Char(s, j + i) && r[i] != 0
    ensures j + |r| < 13 ==> Char(s, j + |r|) == 0
    decreases 13 - j
  {
    if j == 13 || Char(s, j) == 0 then [] else [Char(s, j)] + FragFrom(s, j + 1)
  }

  function Frag(s: Slot): (r: seq<Byte>)
    ensures |r| <= 13 && forall i :: 0 <= i < |r| ==> r[i] == Char(s, i) && r[i] != 0
    ensures |r| < 13 ==> Char(s, |r|) == 0
  {
    FragFrom(s, 0)
  }

  /** The low byte stored for character j of a slot that holds the fragment f. */
  function LowByte(f: seq<Byte>, j: nat): Byte {
    if j < |f| then f[j] else if j == |f| then 0 else 0xff
  }

  /** Its high byte: only the padding behind the terminator has one. */
  function HighByte(f: seq<Byte>, j: nat): Byte {
    if j <= |f| then 0 else 0xff
  }

  /** Byte k of a long name slot. */
  function LfnByte(f: seq<Byte>, ord: Byte, crc: Byte, k: nat): Byte {
    if k == 0 then ord
    else if k == ATTR then ATTR_LFN
    else if k == LFN_CRC then crc
    else if 1 <= k < 11 then (if k % 2 == 1 then LowByte(f, (k - 1) / 2) else HighByte(f, (k - 1) / 2))
    else if 14 <= k < 26 then (if k % 2 == 0 then LowByte(f, 5 + (k - 14) / 2) else HighByte(f, 5 + (k - 14) / 2))
    else if 28 <= k < 32 then (if k % 2 == 0 then LowByte(f, 11 + (k - 28) / 2) else HighByte(f, 11 + (k - 28) / 2))
    else 0
  }

  /** A long name slot: fragment f, sequence byte ord, checksum crc; type and cluster are zero. */
  function LfnSlot(f: seq<Byte>, ord: Byte, crc: Byte): (s: Slot)
    requires |f| <= 13
  {
    seq(32, (k: nat) => LfnByte(f, ord, crc, k))
  }

  /** The slot of the name "readme.txt", byte by byte. */
  lemma LfnSlotLayout(crc: Byte)
    ensures LfnSlot([0x72, 0x65, 0x61, 0x64, 0x6d, 0x65, 0x2e, 0x74, 0x78, 0x74], 0x41, crc)
         == [0x41, 0x72, 0, 0x65, 0, 0x61, 0, 0x64, 0, 0x6d, 0, 0x0f, 0, crc, 0x65, 0,
             0x2e, 0, 0x74, 0, 0x78, 0, 0x74, 0, 0, 0, 0, 0, 0xff, 0xff, 0xff, 0xff]
  {
  }

  lemma LfnSlotReads(f: seq<Byte>, ord: Byte, crc: Byte)
    requires |f| <= 13
    ensures var s := LfnSlot(f, ord, crc);
      s[0] == ord && SlotLong(s) && s[LFN_CRC] == crc && forall j :: 0 <= j < 13 ==> Char(s, j) == LowByte(f, j)
  {
    var s := LfnSlot(f, ord, crc);
    forall j | 0 <= j < 13
      ensures Char(s, j) == LowByte(f, j)
    {
      var k := LfnIndex(j);
      assert s[k] == LfnByte(f, ord, crc, k);
      if j < 5 { assert (k - 1) / 2 == j; }
      else if j < 11 { assert (k - 14) / 2 == j - 5; }
      else { assert (k - 28) / 2 == j - 11; }
    }
  }

  /** Characters of a fragment without zero bytes are read one after the other. */
  lemma {:induction false} FragReads(s: Slot, f: seq<Byte>, j: nat)
    requires j <= |f| <= 13 && 0 !in f && forall i :: 0 <= i < |f| ==> Char(s, i) == f[i]
    ensures FragFrom(s, j) == f[j..] + FragFrom(s, |f|)
    decreases |f| - j
  {
    hide Char;
    if j < |f| {
      FragReads(s, f, j + 1);
      assert f[j..] == [f[j]] + f[j + 1..];
    }
  }

  /** A fragment ends at the first zero character at the latest. */
  lemma {:induction false} FragStops(s: Slot, j: nat, k: nat)
    requires j <= k < 13 && Char(s, k) == 0
    ensures |FragFrom(s, j)| <= k - j
    decreases k - j
  {
    if j < k {
      FragStops(s, j + 1, k);
    }
  }

  /** A written fragment decodes to itself exactly when it has no zero byte. */
  lemma FragRoundTrip(f: seq<Byte>, ord: Byte, crc: Byte)
    requires |f| <= 13
    ensures Frag(LfnSlot(f, ord, crc)) == f <==> 0 !in f
    ensures |Frag(LfnSlot(f, ord, crc))| <= |f|
    ensures 0xff in Frag(LfnSlot(f, ord, crc)) ==> 0xff in f
  {
    var s := LfnSlot(f, ord, crc);
    LfnSlotReads(f, ord, crc);
    var r := Frag(s);
    if |f| < 13 {
      FragStops(s, 0, |f|);
    }
    assert forall i :: 0 <= i < |r| ==> r[i] == f[i];
    if 0 !in f {
      FragReads(s, f, 0);
    }
  }

  /** How many long name slots a name takes. */
  function SlotsFor(len: nat): (n: nat)
    ensures 13 * n < len + 13 && len <= 13 * n
  {
    (len + 12) / 13
  }

  /** The i-th fragment of a name, counting from 1. */
  function Part(name: seq<Byte>, i: nat): (f: seq<Byte>)
    requires 1 <= i <= SlotsFor(|name|)
    ensures 1 <= |f| <= 13 && (i < SlotsFor(|name|) ==> |f| == 13)
  {
    if 13 * i <= |name| then name[13 * (i - 1)..13 * i] else name[13 * (i - 1)..]
  }

  /** The sequence byte of the i-th fragment: the last one, which is stored first, is marked. */
  function Ord(name: seq<Byte>, i: nat): (b: Byte)
    requires 1 <= i <= SlotsFor(|name|) && |name| <= 255
    ensures b != SLOT_FREE && b != SLOT_LAST && b % 32 == i && (b / 0x40 % 2 == 1 <==> i == SlotsFor(|name|)) && b < 0x80
  {
    if i == SlotsFor(|name|) then HEAD + i else i
  }

  /** The text of the last t slots of a long name that starts at slot p, from slot p + t - 1 up to slot p. */
  function TextOf(slots: seq<Slot>, p: nat, t: nat): seq<Byte>
    requires p + t <= |slots|
  {
    if t == 0 then [] else Frag(slots[p + t - 1]) + TextOf(slots, p, t - 1)
  }

  /** The number of long name slots that the head slot announces. */
  function Announced(s: Slot): nat {
    s[0] % 32
  }

  /** The number and the mark of a head slot are those of the masks 0x1f and 0x40. */
  lemma SequenceMasks(s: Slot)
    ensures Announced(s) == ((s[0] as bv8) & 0x1f) as int
    ensures s[0] / HEAD % 2 == 1 <==> (s[0] as bv8) & 0x40 != 0
  {
    hide *;
    AsBits(s[0]);
    SequenceBits(s[0] as bv8);
    AnnouncedIs(s);
  }

  lemma SequenceBits(v: bv8)
    ensures (v as int) % 32 == (v & 0x1f) as int && ((v as int) / HEAD % 2 == 1 <==> v & 0x40 != 0)
  {
  }

  lemma AnnouncedIs(s: Slot)
    ensures Announced(s) == s[0] % 32
  {
  }

  /**
   A whole long name group starts at slot p: marked head, as many long slots with one checksum as
   announced, every fragment but the last one of the name full, no 0xff character, at most 255
   characters, and a short entry with that checksum behind them.
   */
  ghost predicate Regular(slots: seq<Slot>, p: nat) {
    && p < |slots|
    && var n := Announced(slots[p]);
    && slots[p][0] / HEAD % 2 == 1 && 1 <= n <= 20 && p + n < |slots|
    && (forall t :: 0 <= t < n ==> LongAt(slots, p, t))
    && |TextOf(slots, p, n)| <= 255
    && ShortPart(slots[p + n], slots[p][LFN_CRC])
  }

  /** What the parser asks of each slot of a long name. */
  predicate PartTaken(s: Slot, crc: Byte) {
    SlotLong(s) && s[LFN_CRC] == crc && 0xff !in Frag(s)
  }

  predicate TakenAt(slots: seq<Slot>, p: nat, t: nat) {
    p + t < |slots| && PartTaken(slots[p + t], slots[p][LFN_CRC])
  }

  /** What the parser accepts: it looks neither at how full the fragments are nor at the short entry behind them. */
  ghost predicate Accepted(slots: seq<Slot>, p: nat) {
    && p < |slots|
    && var n := Announced(slots[p]);
    && slots[p][0] / HEAD % 2 == 1 && n <= 20 && p + n < |slots|
    && (forall t :: 0 <= t < n ==> TakenAt(slots, p, t))
    && |TextOf(slots, p, n)| <= 255
  }

  /** What the parser does not ask: every slot is in use, and every fragment but the last one of the name is full. */
  predicate FullAt(slots: seq<Slot>, p: nat, t: nat) {
    p + t < |slots| && !SlotFree(slots[p + t]) && (0 < t ==> |Frag(slots[p + t])| == 13)
  }

  /** Exactly the accepted groups that lack something of this are not whole. */
  lemma AcceptedButNotWhole(slots: seq<Slot>, p: nat)
    ensures Regular(slots, p) <==>
            Accepted(slots, p)
            && (var n := Announced(slots[p]);
                1 <= n && ShortPart(slots[p + n], slots[p][LFN_CRC]) && forall t :: 0 <= t < n ==> FullAt(slots, p, t))
  {
    hide Frag, TextOf, SlotLong, SlotFree, ShortPart;
    forall t: nat | p + t < |slots|
      ensures LongAt(slots, p, t) <==> TakenAt(slots, p, t) && FullAt(slots, p, t)
    {
    }
  }

  /** Two fragments of one character each: the parser takes them, but leaves a gap between them in the name. */
  lemma GapAccepted(a: Slot, b: Slot, s: Slot)
    requires a == LfnSlot([0x61], 0x42, 0) && b == LfnSlot([0x62], 0x01, 0)
    ensures Accepted([a, b, s], 0) && !Regular([a, b, s], 0) && TextOf([a, b, s], 0, 2) == [0x62, 0x61]
  {
    var slots := [a, b, s];
    LfnSlotReads([0x61], 0x42, 0);
    LfnSlotReads([0x62], 0x01, 0);
    FragRoundTrip([0x61], 0x42, 0);
    FragRoundTrip([0x62], 0x01, 0);
    hide Frag, LfnSlot;
    assert TextOf(slots, 0, 0) == [] && TextOf(slots, 0, 1) == [0x61] && TextOf(slots, 0, 2) == [0x62] + [0x61];
    assert Announced(a) == 2;
    assert !LongAt(slots, 0, 1);
  }

  predicate LongAt(slots: seq<Slot>, p: nat, t: nat) {
    p + t < |slots| && LongPart(slots[p + t], slots[p][LFN_CRC], 0 < t)
  }

  predicate LongPart(s: Slot, crc: Byte, full: bool) {
    !SlotFree(s) && SlotLong(s) && s[LFN_CRC] == crc && 0xff !in Frag(s) && (full ==> |Frag(s)| == 13)
  }

  predicate ShortPart(s: Slot, crc: Byte) {
    !SlotFree(s) && !SlotLong(s) && Crc(s[..11]) == crc
  }

  // ---------------------------------------------------------------- checksum and short names

  /** The checksum of the first n bytes: rotate right, add, keep eight bits. */
  function CrcOf(name: seq<Byte>, n: nat): Byte
    requires n <= |name|
  {
    if n == 0 then 0
    else
      var sum := CrcOf(name, n - 1);
      (sum % 2 * 128 + sum / 2 + name[n - 1]) % 256
  }

  function Crc(name: seq<Byte>): Byte {
    CrcOf(name, |name|)
  }

  /** The checksum is the fold of one step over the bytes, from 0: rotate the eight bits to the right, then add the next byte. */
  lemma CrcStep(name: seq<Byte>, n: nat)
    requires n < |name|
    ensures CrcOf(name, 0) == 0
    ensures CrcOf(name, n + 1) == ((CrcOf(name, n) as bv8).RotateRight(1) as int + name[n]) % 256
  {
    hide CrcOf;
    CrcUnfolds(name, n);
    RotatedByte(CrcOf(name, n));
  }

  lemma CrcUnfolds(name: seq<Byte>, n: nat)
    requires n < |name|
    ensures CrcOf(name, 0) == 0
    ensures CrcOf(name, n + 1) == (CrcOf(name, n) % 2 * 128 + CrcOf(name, n) / 2 + name[n]) % 256
  {
  }

  lemma RotatedByte(b: Byte)
    ensures b % 2 * 128 + b / 2 == (b as bv8).RotateRight(1) as int
  {
    AsBits(b);
    Rotated(b as bv8);
  }

  lemma Rotated(v: bv8)
    ensures (v as int) % 2 * 128 + (v as int) / 2 == v.RotateRight(1) as int
  {
  }

  const README: seq<Byte> := [0x52, 0x45, 0x41, 0x44, 0x4d, 0x45, 0x20, 0x20, 0x54, 0x58, 0x54]    // "README  TXT"

  /** The checksum of the short name of readme.txt. */
  lemma CrcOfReadme()
    ensures Crc(README) == 0x73
  {
    hide CrcOf;
    CrcOfMost();
    CrcUnfolds(README, 9);
    CrcUnfolds(README, 10);
    assert CrcOf(README, 10) == 0x3e;
  }

  lemma CrcOfMost()
    ensures CrcOf(README, 9) == 0xcd
  {
    hide CrcOf;
    CrcOfBase();
    CrcUnfolds(README, 6);
    CrcUnfolds(README, 7);
    CrcUnfolds(README, 8);
    assert CrcOf(README, 7) == 0xa5 && CrcOf(README, 8) == 0xf2;
  }

  lemma CrcOfBase()
    ensures CrcOf(README, 6) == 0x0b
  {
    assert CrcOf(README, 0) == 0 && CrcOf(README, 1) == 0x52 && CrcOf(README, 2) == 0x6e && CrcOf(README, 3) == 0x78;
    assert CrcOf(README, 4) == 0x80 && CrcOf(README, 5) == 0x8d;
  }

  /** The checksum loop. */
  method GetCrc(name: seq<Byte>) returns (sum: Byte)
    requires |name| == 11
    ensures sum == Crc(name)
  {
    sum := 0;
    for i := 0 to 11
      invariant sum == CrcOf(name, i)
    {
      sum := (sum % 2 * 128 + sum / 2 + name[i]) % 256;
    }
  }

  const SPECIAL: seq<Byte> := [0x21, 0x23, 0x24, 0x25, 0x26, 0x27, 0x28, 0x29, 0x2d, 0x40, 0x5e, 0x5f, 0x60, 0x7b, 0x7d, 0x7e, 0x20]

  function Upper(c: Byte): Byte {
    if 0x61 <= c <= 0x7a then c - 0x20 else c
  }

  /** The character a short name stores for c: upper case letters and the special ones stay, all others become '_'. */
  function SfnChar(c: Byte): (r: Byte)
    ensures r != SLOT_FREE && r != SLOT_LAST
  {
    var u := Upper(c);
    if 0x41 <= u <= 0x5a || u in SPECIAL then u else 0x5f
  }

  /** Letters are stored in upper case; of the other characters, digits included, only the special ones stay. */
  lemma UpperCaseStored(c: Byte)
    ensures 0x61 <= c <= 0x7a ==> SfnChar(c) == c - 0x20
    ensures 0x41 <= c <= 0x5a ==> SfnChar(c) == c
    ensures !(0x41 <= c <= 0x5a || 0x61 <= c <= 0x7a) ==> SfnChar(c) == if c in SPECIAL then c else 0x5f
  {
  }

  /** Where the base of a short name ends: at the first dot, the end of the name or eight characters. */
  function BaseEnd(name: seq<Byte>, i: nat): (e: nat)
    requires i <= |name| && i <= 8
    ensures i <= e <= |name| && e <= 8
    decreases 8 - i
  {
    if i < |name| && i < 8 && name[i] != DOT then BaseEnd(name, i + 1) else i
  }

  /** Where the extension starts: behind the first dot at or after i. */
  function ExtStart(name: seq<Byte>, i: nat): (e: nat)
    requires i <= |name|
    ensures i <= e <= |name|
    decreases |name| - i
  {
    if i == |name| then i else if name[i] == DOT then i + 1 else ExtStart(name, i + 1)
  }

  function SfnByte(name: seq<Byte>, k: nat): Byte
  {
    var b := BaseEnd(name, 0);
    var e := ExtStart(name, b);
    if k < 8 then (if k < b then SfnChar(name[k]) else PAD)
    else if e + (k - 8) < |name| then SfnChar(name[e + (k - 8)]) else PAD
  }

  /** The short name made from a long one: eight characters of base and three of extension, padded. */
  function SfnName(name: seq<Byte>): (s: seq<Byte>)
    ensures |s| == 11
  {
    seq(11, (k: nat) => SfnByte(name, k))
  }

  /** The k-th of a number of stored characters: those of s, then blanks. */
  function Padded(s: seq<Byte>, k: nat): Byte {
    if k < |s| then SfnChar(s[k]) else 0x20
  }

  /** The short name of "base.ext", and of a base without a dot, has the two parts in their fields, cut short or padded. */
  lemma ShortNameOf(base: seq<Byte>, ext: seq<Byte>)
    requires DOT !in base
    ensures forall k :: 0 <= k < 8 ==> SfnName(base + [DOT] + ext)[k] == SfnName(base)[k] == Padded(base, k)
    ensures forall k :: 0 <= k < 3 ==> SfnName(base + [DOT] + ext)[8 + k] == Padded(ext, k) && SfnName(base)[8 + k] == 0x20
  {
    hide SfnChar, BaseEnd, ExtStart;
    ShortNameBytes(base, []);
    ShortNameBytes(base + [DOT] + ext, ext);
    BaseEnds(base, base, 0);
    BaseEnds(base + [DOT] + ext, base, 0);
    ExtStarts(base, base, BaseEnd(base, 0));
    ExtStarts(base + [DOT] + ext, base, BaseEnd(base, 0));
    forall k | 0 <= k < |ext|
      ensures (base + [DOT] + ext)[|base| + 1 + k] == ext[k]
    {
    }
  }

  lemma ShortNameBytes(name: seq<Byte>, ext: seq<Byte>)
    ensures BaseEnd(name, 0) <= |name| && ExtStart(name, BaseEnd(name, 0)) <= |name|
    ensures forall k :: 0 <= k < 8 ==> SfnName(name)[k] == if k < BaseEnd(name, 0) then SfnChar(name[k]) else 0x20
    ensures name[ExtStart(name, BaseEnd(name, 0))..] == ext ==> forall k :: 0 <= k < 3 ==> SfnName(name)[8 + k] == Padded(ext, k)
  {
    hide BaseEnd, ExtStart, SfnChar;
  }

  lemma {:induction false} BaseEnds(name: seq<Byte>, base: seq<Byte>, i: nat)
    requires base <= name && DOT !in base && (|base| < |name| ==> name[|base|] == DOT) && i <= 8 && i <= |base|
    ensures BaseEnd(name, i) == if |base| < 8 then |base| else 8
    decreases 8 - i
  {
    if i < 8 && i < |base| {
      BaseEnds(name, base, i + 1);
    }
  }

  lemma {:induction false} ExtStarts(name: seq<Byte>, base: seq<Byte>, i: nat)
    requires base <= name && DOT !in base && (|base| < |name| ==> name[|base|] == DOT) && i <= |base|
    ensures ExtStart(name, i) == if |base| < |name| then |base| + 1 else |base|
    decreases |base| - i
  {
    if i < |base| {
      ExtStarts(name, base, i + 1);
    }
  }

  /** A short name never looks like a free slot or the end of a directory. */
  lemma SfnNameTaken(name: seq<Byte>)
    ensures SfnName(name)[0] != SLOT_FREE && SfnName(name)[0] != SLOT_LAST
  {
    assert SfnName(name)[0] == SfnByte(name, 0);
  }

  /** The base loop and its padding. */
  method PutBase(name: seq<Byte>) returns (sfn: seq<Byte>, i: nat)
    ensures i == BaseEnd(name, 0) && |sfn| == 8 && forall k :: 0 <= k < 8 ==> sfn[k] == SfnByte(name, k)
  {
    hide SfnChar, ExtStart, SfnByte;
    i := 0;
    sfn := [];
    while i < |name| && i < 8 && name[i] != DOT
      invariant i <= |name| && i <= 8 && BaseEnd(name, 0) == BaseEnd(name, i)
      invariant |sfn| == i && forall k :: 0 <= k < i ==> sfn[k] == SfnChar(name[k])
    {
      sfn := sfn + [SfnChar(name[i])];
      i := i + 1;
    }
    BaseBytes(name);
    for j := i to 8
      invariant |sfn| == j && forall k :: 0 <= k < j ==> sfn[k] == SfnByte(name, k)
    {
      sfn := sfn + [PAD as Byte];
    }
  }

  lemma BaseBytes(name: seq<Byte>)
    ensures forall k :: 0 <= k < 8 ==> SfnByte(name, k) == if k < BaseEnd(name, 0) then SfnChar(name[k]) else PAD
  {
    hide BaseEnd, SfnChar, ExtStart;
  }

  /** The loop that passes the first dot. */
  method PassDot(name: seq<Byte>, start: nat) returns (i: nat)
    requires start <= |name|
    ensures i == ExtStart(name, start)
  {
    i := start;
    while i < |name| && name[i] != DOT
      invariant i <= |name| && ExtStart(name, start) == ExtStart(name, i)
    {
      i := i + 1;
    }
    if i < |name| {
      i := i + 1;
    }
  }

  /** Fills the eleven bytes of a short name. */
  method PutSfnName(name: seq<Byte>) returns (sfn: seq<Byte>)
    ensures sfn == SfnName(name)
  {
    hide BaseEnd, ExtStart;
    var i;
    sfn, i := PutBase(name);
    i := PassDot(name, i);
    ghost var e := i;
    var j := 0;
    while j < 3 && i < |name|
      invariant j <= 3 && i == e + j && i <= |name|
      invariant |sfn| == 8 + j && forall k :: 0 <= k < 8 + j ==> sfn[k] == SfnByte(name, k)
    {
      sfn := sfn + [SfnChar(name[i])];
      j, i := j + 1, i + 1;
    }
    while j < 3
      invariant j <= 3 && (j < 3 ==> |name| <= e + j)
      invariant |sfn| == 8 + j && forall k :: 0 <= k < 8 + j ==> sfn[k] == SfnByte(name, k)
    {
      sfn := sfn + [PAD as Byte];
      j := j + 1;
    }
  }
}
