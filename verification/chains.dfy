/**
 The allocation table as a value: a sequence of 28-bit entries, and the chains it holds.
 Entries 0 and 1 are reserved and belong to no chain.
 */
module Chains {

  type Table = seq<nat>

  const EOC := 0x0fff_ffff      // what the allocator writes at the end of a chain
  const EOC_MIN := 0x0fff_fff8  // every value from here on ends a chain
  const BAD := 0x0fff_fff7

  datatype Link = Free | Used | Last | Bad | Invalid

  /** What an entry with value v means in a table of n entries. */
  function Classify(v: nat, n: nat): Link {
    if v == 0 then Free
    else if v == BAD then Bad
    else if v >= EOC_MIN then Last
    else if 2 <= v < n then Used
    else Invalid
  }

  ghost predicate InTable(t: Table, c: nat) {
    2 <= c < |t|
  }

  ghost predicate IsFree(t: Table, c: nat) {
    InTable(t, c) && t[c] == 0
  }

  /** c belongs to some chain. */
  ghost predicate InUse(t: Table, c: nat) {
    InTable(t, c) && (InTable(t, t[c]) || EOC_MIN <= t[c])
  }

  /** c is the last cluster of a chain. */
  ghost predicate IsTail(t: Table, c: nat) {
    InTable(t, c) && EOC_MIN <= t[c]
  }

  /** No entry links to c. */
  ghost predicate IsHead(t: Table, c: nat) {
    forall d: nat :: InTable(t, d) ==> t[d] != c
  }

  /** s lists the clusters of a chain, in order, up to its end mark. */
  ghost predicate IsChain(t: Table, s: seq<nat>) {
    && |s| > 0
    && (forall i :: 0 <= i < |s| ==> InTable(t, s[i]))
    && (forall i :: 0 <= i < |s| - 1 ==> t[s[i]] == s[i + 1])
    && EOC_MIN <= t[s[|s| - 1]]
  }

  ghost predicate ChainFrom(t: Table, c: nat) {
    exists s :: IsChain(t, s) && s[0] == c
  }

  /** The table is a set of disjoint, acyclic chains with no link into a free or bad cluster. */
  ghost predicate WellFormed(t: Table) {
    |t| <= BAD && Sound(t) && Unshared(t) && Grounded(t)
  }

  /** Every entry is free, bad, an end mark or a link to a cluster that is in use. */
  ghost predicate Sound(t: Table) {
    forall c: nat :: InTable(t, c) ==>
      Classify(t[c], |t|) != Invalid && (InTable(t, t[c]) ==> InUse(t, t[c]))
  }

  /** No cluster has two predecessors. */
  ghost predicate Unshared(t: Table) {
    forall c: nat, d: nat :: InTable(t, c) && InTable(t, d) && InTable(t, t[c]) && t[c] == t[d] ==> c == d
  }

  /** Following the links from any cluster in use reaches an end mark. */
  ghost predicate Grounded(t: Table) {
    forall c: nat :: InUse(t, c) ==> ChainFrom(t, c)
  }

  // ---------------------------------------------------------------- chains

  lemma {:induction false} SharedSuffix(t: Table, s: seq<nat>, i: nat, j: nat, k: nat)
    requires IsChain(t, s) && i < j && j + k < |s| && s[i] == s[j]
    ensures s[i + k] == s[j + k]
  {
    if k > 0 {
      SharedSuffix(t, s, i, j, k - 1);
      assert s[i + (k - 1) + 1] == t[s[i + (k - 1)]];
      assert s[j + (k - 1) + 1] == t[s[j + (k - 1)]];
    }
  }

  /** Every cluster of a chain but the last one links onwards. */
  lemma InnerLinks(t: Table, s: seq<nat>)
    requires |t| <= BAD && IsChain(t, s)
    ensures forall i :: 0 <= i < |s| - 1 ==> t[s[i]] < EOC_MIN
  {
    forall i | 0 <= i < |s| - 1
      ensures t[s[i]] < EOC_MIN
    {
      assert t[s[i]] == s[i + 1] && InTable(t, s[i + 1]);
    }
  }

  /** A chain visits no cluster twice: following links from the head cannot loop. */
  lemma ChainDistinct(t: Table, s: seq<nat>)
    requires |t| <= BAD && IsChain(t, s)
    ensures forall i, j :: 0 <= i < j < |s| ==> s[i] != s[j]
  {
    InnerLinks(t, s);
    forall i, j | 0 <= i < j < |s|
      ensures s[i] != s[j]
    {
      if s[i] == s[j] {
        SharedSuffix(t, s, i, j, |s| - 1 - j);
      }
    }
  }

  /** The chain that starts at a cluster is unique. */
  lemma {:induction false} ChainUnique(t: Table, s: seq<nat>, r: seq<nat>)
    requires |t| <= BAD && IsChain(t, s) && IsChain(t, r) && s[0] == r[0]
    ensures s == r
    decreases |s|
  {
    InnerLinks(t, s);
    InnerLinks(t, r);
    if |s| == 1 {
      assert |r| == 1;
    } else {
      ChainTail(t, s);
      ChainTail(t, r);
      assert t[s[0]] == s[1] && t[r[0]] == r[1];
      ChainUnique(t, s[1..], r[1..]);
      assert s == [s[0]] + s[1..] && r == [r[0]] + r[1..];
    }
  }

  lemma ChainTail(t: Table, s: seq<nat>)
    requires IsChain(t, s) && |s| > 1
    ensures IsChain(t, s[1..])
  {
    var r := s[1..];
    forall i | 0 <= i < |r| - 1
      ensures t[r[i]] == r[i + 1]
    {
      assert t[s[i + 1]] == s[i + 1 + 1];
    }
  }

  /** Two chains of a well-formed table that start at different heads share no cluster. */
  lemma {:induction false} ChainsDisjoint(t: Table, s: seq<nat>, r: seq<nat>, i: nat, j: nat)
    requires WellFormed(t) && IsChain(t, s) && IsChain(t, r)
    requires IsHead(t, s[0]) && IsHead(t, r[0]) && s[0] != r[0]
    requires i < |s| && j < |r|
    ensures s[i] != r[j]
    decreases i
  {
    if i > 0 {
      assert t[s[i - 1]] == s[i - 1 + 1];
    }
    if j > 0 {
      assert t[r[j - 1]] == r[j - 1 + 1];
    }
    if i > 0 && j > 0 {
      ChainsDisjoint(t, s, r, i - 1, j - 1);
    }
  }

  /** Only the last cluster of a chain carries an end mark. */
  lemma TailIsLast(t: Table, s: seq<nat>, p: nat)
    requires |t| <= BAD && IsChain(t, s) && IsTail(t, p) && p in s
    ensures p == s[|s| - 1]
    ensures forall i :: 0 <= i < |s| - 1 ==> s[i] != p
  {
    forall i | 0 <= i < |s| - 1
      ensures s[i] != p
    {
      assert t[s[i]] == s[i + 1] && InTable(t, s[i + 1]);
    }
  }

  lemma ChainInUse(t: Table, s: seq<nat>, i: nat)
    requires IsChain(t, s) && i < |s|
    ensures InUse(t, s[i])
  {
    if i < |s| - 1 {
      assert t[s[i]] == s[i + 1] && InTable(t, s[i + 1]);
    }
  }

  /** What the entry of the k-th cluster of a chain says. */
  lemma ChainStep(t: Table, s: seq<nat>, k: nat)
    requires |t| <= BAD && IsChain(t, s) && k < |s|
    ensures InTable(t, s[k])
    ensures k + 1 < |s| ==> t[s[k]] == s[k + 1] && Classify(t[s[k]], |t|) == Used
    ensures k + 1 == |s| ==> IsTail(t, s[k]) && Classify(t[s[k]], |t|) == Last
  {
    if k + 1 < |s| {
      assert t[s[k]] == s[k + 1] && InTable(t, s[k + 1]);
    }
  }

  lemma InTableMeans(t: Table, c: nat)
    requires InTable(t, c)
    ensures 2 <= c < |t|
  {
  }

  /** An entry outside a chain can change without touching the chain. */
  lemma ChainKept(t: Table, s: seq<nat>, c: nat, v: nat)
    requires IsChain(t, s) && c < |t| && c !in s
    ensures IsChain(t[c := v], s)
  {
    var t' := t[c := v];
    forall i | 0 <= i < |s| - 1
      ensures t'[s[i]] == s[i + 1]
    {
      assert t[s[i]] == s[i + 1];
    }
  }

  // ---------------------------------------------------------------- the three table writes

  lemma AllocKeepsChain(t: Table, c: nat, s: seq<nat>)
    requires WellFormed(t) && IsFree(t, c) && IsChain(t, s)
    ensures c !in s && IsChain(t[c := EOC], s)
  {
    forall i | 0 <= i < |s| ensures s[i] != c { ChainInUse(t, s, i); }
    ChainKept(t, s, c, EOC);
  }

  /** Marking a free cluster as a one-cluster chain keeps the table well formed. */
  lemma AllocKeeps(t: Table, c: nat)
    requires WellFormed(t) && IsFree(t, c)
    ensures WellFormed(t[c := EOC])
    ensures IsChain(t[c := EOC], [c]) && IsHead(t[c := EOC], c)
    ensures forall s :: IsChain(t, s) ==> c !in s && IsChain(t[c := EOC], s)
  {
    var t' := t[c := EOC];
    assert IsChain(t', [c]);
    assert IsHead(t', c) && Sound(t') && Unshared(t');
    forall s | IsChain(t, s)
      ensures c !in s && IsChain(t', s)
    {
      AllocKeepsChain(t, c, s);
    }
    hide IsChain, Sound, Unshared;
    forall d: nat | InUse(t', d)
      ensures ChainFrom(t', d)
    {
      if d == c {
        assert [c][0] == d;
      } else {
        assert InUse(t, d);
        var s :| IsChain(t, s) && s[0] == d;
        assert IsChain(t', s);
      }
    }
  }

  /** Linking a tail to a one-cluster chain that nothing links to keeps the table well formed. */
  lemma LinkKeeps(t: Table, p: nat, c: nat)
    requires WellFormed(t) && IsTail(t, p) && IsTail(t, c) && p != c && IsHead(t, c)
    ensures WellFormed(t[p := c])
    ensures forall s :: IsChain(t, s) && p in s ==> IsChain(t[p := c], s + [c])
    ensures forall s :: IsChain(t, s) && p !in s ==> IsChain(t[p := c], s)
  {
    var t' := t[p := c];
    forall s | IsChain(t, s) && p in s
      ensures IsChain(t', s + [c])
    {
      TailIsLast(t, s, p);
      var r := s + [c];
      forall i | 0 <= i < |r| - 1
        ensures t'[r[i]] == r[i + 1]
      {
        if i < |s| - 1 { assert t[s[i]] == s[i + 1]; }
      }
    }
    forall s | IsChain(t, s) && p !in s
      ensures IsChain(t', s)
    {
      ChainKept(t, s, p, c);
    }
    forall d: nat | InUse(t', d)
      ensures ChainFrom(t', d)
    {
      assert InUse(t, d);
      var s :| IsChain(t, s) && s[0] == d;
      if p in s {
        assert IsChain(t', s + [c]) && (s + [c])[0] == d;
      } else {
        assert IsChain(t', s);
      }
    }
  }

  lemma ChainMissesHead(t: Table, h: nat, s: seq<nat>)
    requires IsChain(t, s) && IsHead(t, h) && s[0] != h && h < |t|
    ensures IsChain(t[h := 0], s)
  {
    forall i | 0 <= i < |s|
      ensures s[i] != h
    {
      if i > 0 { assert t[s[i - 1]] == s[i - 1 + 1]; }
    }
    ChainKept(t, s, h, 0);
  }

  lemma FreeHeadGrounded(t: Table, h: nat)
    requires WellFormed(t) && InUse(t, h) && IsHead(t, h)
    ensures Grounded(t[h := 0])
  {
    var t' := t[h := 0];
    forall d: nat | InUse(t', d)
      ensures ChainFrom(t', d)
    {
      assert InUse(t, d) && d != h;
      var s :| IsChain(t, s) && s[0] == d;
      ChainMissesHead(t, h, s);
    }
  }

  lemma FreeHeadChains(t: Table, h: nat)
    requires InUse(t, h) && IsHead(t, h)
    ensures forall s :: IsChain(t, s) && s[0] != h ==> IsChain(t[h := 0], s)
  {
    var t' := t[h := 0];
    forall s | IsChain(t, s) && s[0] != h
      ensures IsChain(t', s)
    {
      ChainMissesHead(t, h, s);
    }
  }

  lemma FreeHeadNext(t: Table, h: nat)
    requires WellFormed(t) && InUse(t, h) && IsHead(t, h)
    ensures Sound(t[h := 0]) && Unshared(t[h := 0])
    ensures InTable(t, t[h]) ==> IsHead(t[h := 0], t[h]) && InUse(t[h := 0], t[h])
  {
    hide IsChain, Grounded;
    assert t[h] != h;
  }

  /** Freeing the head of a chain keeps the table well formed, and its successor becomes a head. */
  lemma FreeHeadKeeps(t: Table, h: nat)
    requires WellFormed(t) && InUse(t, h) && IsHead(t, h)
    ensures WellFormed(t[h := 0])
    ensures InTable(t, t[h]) ==> IsHead(t[h := 0], t[h]) && InUse(t[h := 0], t[h])
    ensures forall s :: IsChain(t, s) && s[0] != h ==> IsChain(t[h := 0], s)
  {
    hide IsChain, Grounded;
    FreeHeadChains(t, h);
    FreeHeadGrounded(t, h);
    FreeHeadNext(t, h);
  }

  // ---------------------------------------------------------------- free clusters

  ghost function FreeSet(t: Table): set<nat> {
    set c | 2 <= c < |t| && t[c] == 0
  }

  ghost function FreeCount(t: Table): nat {
    |FreeSet(t)|
  }

  lemma CountAfterAlloc(t: Table, c: nat, v: nat)
    requires IsFree(t, c) && v != 0
    ensures FreeCount(t[c := v]) == FreeCount(t) - 1
  {
    assert FreeSet(t[c := v]) == FreeSet(t) - {c};
  }

  lemma CountAfterFree(t: Table, c: nat)
    requires InTable(t, c) && t[c] != 0
    ensures FreeCount(t[c := 0]) == FreeCount(t) + 1
  {
    assert FreeSet(t[c := 0]) == FreeSet(t) + {c};
  }

  lemma CountAfterRelink(t: Table, c: nat, v: nat)
    requires InTable(t, c) && t[c] != 0 && v != 0
    ensures FreeCount(t[c := v]) == FreeCount(t)
  {
    assert FreeSet(t[c := v]) == FreeSet(t);
  }

  /** The table with every cluster of s freed. */
  ghost function Cleared(t: Table, s: seq<nat>): (r: Table)
    ensures |r| == |t|
  {
    seq(|t|, c requires 0 <= c < |t| => if c in s then 0 else t[c])
  }

  /** A chain, or what a walk makes of one that starts at a reserved entry instead of a cluster. */
  ghost predicate IsRun(t: Table, s: seq<nat>) {
    && |s| > 0 && s[0] < |t|
    && (forall i :: 1 <= i < |s| ==> InTable(t, s[i]))
    && (forall i :: 0 <= i < |s| - 1 ==> t[s[i]] == s[i + 1])
    && EOC_MIN <= t[s[|s| - 1]]
  }

  lemma RunIsChain(t: Table, s: seq<nat>)
    ensures IsChain(t, s) <==> IsRun(t, s) && 2 <= s[0]
  {
  }

  /** s lists distinct used entries, each linking to the next one, and the last one to c; only the first may be a reserved one. */
  ghost predicate IsPath(t: Table, s: seq<nat>, c: nat) {
    && (forall i :: 0 <= i < |s| ==> s[i] < |t| && (0 < i ==> InTable(t, s[i])))
    && (forall i :: 0 <= i < |s| ==> t[s[i]] == if i + 1 < |s| then s[i + 1] else c)
  }

  lemma PathExtends(t: Table, s: seq<nat>, c: nat)
    requires IsPath(t, s, c) && c < |t| && (s != [] ==> InTable(t, c)) && Cleared(t, s)[c] != 0
    ensures c !in s && t[c] == Cleared(t, s)[c]
    ensures IsPath(t, s + [c], t[c])
    ensures Cleared(t, s + [c]) == Cleared(t, s)[c := 0]
    ensures EOC_MIN <= t[c] ==> IsRun(t, s + [c])
  {
    var r := s + [c];
    forall i | 0 <= i < |r|
      ensures t[r[i]] == if i + 1 < |r| then r[i + 1] else t[c]
    {
      if i < |s| { assert t[s[i]] == if i + 1 < |s| then s[i + 1] else c; }
    }
    assert forall d :: d in r <==> d in s || d == c;
    if EOC_MIN <= t[c] {
      forall i | 0 <= i < |r| - 1
        ensures t[r[i]] == r[i + 1]
      {
      }
    }
  }

  /** Which entries are not free: what a walk that frees as it goes uses up. */
  ghost function Occupied(t: Table): set<nat> {
    set c: nat | c < |t| && t[c] != 0
  }

  lemma OccupiedShrinks(t: Table, c: nat)
    requires c < |t| && t[c] != 0
    ensures |Occupied(t[c := 0])| < |Occupied(t)|
  {
    assert Occupied(t[c := 0]) == Occupied(t) - {c};
  }

  /** The two reserved entries are not counted, and no chain depends on them. */
  lemma ReservedFreed(t: Table, c: nat)
    requires c < 2 && c < |t|
    ensures FreeCount(t[c := 0]) == FreeCount(t)
    ensures WellFormed(t) ==> WellFormed(t[c := 0])
    ensures forall s :: IsChain(t, s) ==> IsChain(t[c := 0], s)
  {
    var t' := t[c := 0];
    assert FreeSet(t') == FreeSet(t);
    forall s | IsChain(t, s)
      ensures IsChain(t', s)
    {
      ChainKept(t, s, c, 0);
    }
    if WellFormed(t) {
      forall d: nat | InUse(t', d)
        ensures ChainFrom(t', d)
      {
        assert InUse(t, d);
        var s :| IsChain(t, s) && s[0] == d;
        assert IsChain(t', s);
      }
    }
  }

  // ---------------------------------------------------------------- the allocator's choice

  function CyclicNext(c: nat, n: nat): nat {
    if c + 1 >= n then 2 else c + 1
  }

  /** d lies strictly between lo and c when clusters are walked cyclically upwards from lo. */
  predicate Between(lo: nat, d: nat, c: nat) {
    if lo < c then lo < d < c else lo < d || d < c
  }

  /** c is the first free cluster met when scanning cyclically from the one after lo. */
  ghost predicate FirstFreeAfter(t: Table, lo: nat, c: nat) {
    && IsFree(t, c) && c != lo
    && forall d: nat :: InTable(t, d) && Between(lo, d, c) ==> t[d] != 0
  }

  /** The cluster that stretching the chain ending in prev (0 for a new chain) must take. */
  ghost predicate Chosen(t: Table, lastUsed: nat, prev: nat, c: nat) {
    if prev != 0 && IsFree(t, CyclicNext(prev, |t|))
    then c == CyclicNext(prev, |t|)
    else FirstFreeAfter(t, lastUsed, c)
  }

  /** The cluster that is chosen is determined by the table. */
  lemma ChosenUnique(t: Table, lastUsed: nat, prev: nat, c: nat, d: nat)
    requires Chosen(t, lastUsed, prev, c) && Chosen(t, lastUsed, prev, d)
    ensures c == d
  {
    assert c == d || Between(lastUsed, c, d) || Between(lastUsed, d, c);
  }

  ghost function Stretched(t: Table, prev: nat, c: nat): Table
    requires prev < |t| && c < |t|
  {
    if prev == 0 then t[c := EOC] else t[c := EOC][prev := c]
  }

  /** Stretching from a tail appends exactly the new cluster to its chain and keeps all other chains. */
  lemma StretchKeeps(t: Table, prev: nat, c: nat)
    requires WellFormed(t) && IsFree(t, c) && (prev == 0 || IsTail(t, prev))
    ensures WellFormed(Stretched(t, prev, c))
    ensures FreeCount(Stretched(t, prev, c)) == FreeCount(t) - 1
    ensures forall s :: IsChain(t, s) && prev in s ==> IsChain(Stretched(t, prev, c), s + [c])
    ensures forall s :: IsChain(t, s) && prev !in s ==> IsChain(Stretched(t, prev, c), s)
    ensures prev == 0 ==> IsChain(Stretched(t, 0, c), [c]) && IsHead(Stretched(t, 0, c), c)
  {
    AllocKeeps(t, c);
    CountAfterAlloc(t, c, EOC);
    if prev == 0 {
      forall s | IsChain(t, s) ensures 0 !in s {}
    } else {
      LinkKeeps(t[c := EOC], prev, c);
      CountAfterRelink(t[c := EOC], prev, c);
    }
  }

  /** After each of the two writes of stretching the table is well formed, and one cluster fewer is free. */
  lemma StretchSteps(t: Table, prev: nat, c: nat)
    requires IsFree(t, c) && (prev == 0 || IsTail(t, prev))
    ensures WellFormed(t) ==> WellFormed(t[c := EOC]) && WellFormed(Stretched(t, prev, c))
    ensures FreeCount(Stretched(t, prev, c)) == FreeCount(t) - 1
  {
    if WellFormed(t) {
      AllocKeeps(t, c);
      StretchKeeps(t, prev, c);
    } else {
      CountAfterAlloc(t, c, EOC);
      if prev != 0 {
        CountAfterRelink(t[c := EOC], prev, c);
      }
    }
  }

}
