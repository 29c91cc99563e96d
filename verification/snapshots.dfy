/**
 What picking a process does, as values: snapshots of states, signals and counters, and the lists of processes that
 a walk over a queue passes over, drops and keeps.
 */
module Snapshots {
  import opened Queues
  import opened Policies

  const KILL := 1
  const STOP := 2
  const RESUME := 3
  const N_LEVELS := 5

  ghost predicate Within(s: seq<PCB>, t: seq<PCB>) {
    forall i :: 0 <= i < |s| ==> s[i] in t
  }

  /** What becomes of a queued process with these pending signals. */
  function Fate(pending: set<nat>): State {
    if KILL in pending then Zombie else if STOP in pending then Stopped else Ready
  }

  /** A process that has ended, other than the idle task, stays ended. */
  ghost predicate DeadStay(idle: PCB, s: map<PCB, State>, s': map<PCB, State>) {
    forall x :: x in s && x != idle && s[x] == Zombie ==> x in s' && s'[x] == Zombie
  }

  lemma DeadTwice(idle: PCB, s: map<PCB, State>, s1: map<PCB, State>, s2: map<PCB, State>)
    requires DeadStay(idle, s, s1) && DeadStay(idle, s1, s2)
    ensures DeadStay(idle, s, s2)
  {
  }

  lemma DeadSame(idle: PCB, s: map<PCB, State>)
    ensures DeadStay(idle, s, s)
  {
  }

  /** A process that is neither ready nor running, other than the idle task, stays as it is. */
  ghost predicate Steady(idle: PCB, s: map<PCB, State>, s': map<PCB, State>) {
    forall x :: x in s && x != idle && s[x] != Ready && s[x] != Running ==> x in s' && s'[x] == s[x]
  }

  lemma SteadyTwice(idle: PCB, s: map<PCB, State>, s1: map<PCB, State>, s2: map<PCB, State>)
    requires Steady(idle, s, s1) && Steady(idle, s1, s2)
    ensures Steady(idle, s, s2)
  {
  }

  lemma SteadySame(idle: PCB, s: map<PCB, State>)
    ensures Steady(idle, s, s)
  {
  }

  lemma SteadyDead(idle: PCB, s: map<PCB, State>, s': map<PCB, State>)
    requires Steady(idle, s, s')
    ensures DeadStay(idle, s, s')
  {
  }

  /** p met the fate that its signals held for it; nobody else is affected. */
  ghost predicate Judged(s: map<PCB, State>, g: map<PCB, set<nat>>, s': map<PCB, State>, g': map<PCB, set<nat>>, p: PCB) {
    && p in s && p in g && s[p] == Ready && s' == s[p := Fate(g[p])]
    && g'.Keys == g.Keys && forall x :: x in g && x != p ==> g'[x] == g[x]
  }

  /**
   The first n processes of q met the fate their signals held for them, no other changed its state, and only
   the first m had a signal handled.
   */
  ghost predicate Fell(q: seq<PCB>, n: nat, m: nat, s: map<PCB, State>, g: map<PCB, set<nat>>, s': map<PCB, State>, g': map<PCB, set<nat>>) {
    && n <= m <= |q| && s'.Keys == s.Keys == g.Keys == g'.Keys && Distinct(q) && (forall i :: 0 <= i < |q| ==> q[i] in s)
    && (forall i :: 0 <= i < n ==> Fate(g[q[i]]) != Ready && s'[q[i]] == Fate(g[q[i]]))
    && (forall x :: x in s && x !in q[..n] ==> s'[x] == s[x])
    && (forall x :: x in g && x !in q[..m] ==> g'[x] == g[x])
  }

  lemma FellStart(q: seq<PCB>, s: map<PCB, State>, g: map<PCB, set<nat>>)
    requires Distinct(q) && s.Keys == g.Keys && forall i :: 0 <= i < |q| ==> q[i] in s
    ensures Fell(q, 0, 0, s, g, s, g)
  {
  }

  /** One process more. */
  lemma FellMore(q: seq<PCB>, n: nat, s: map<PCB, State>, g: map<PCB, set<nat>>,
                 s1: map<PCB, State>, g1: map<PCB, set<nat>>, s2: map<PCB, State>, g2: map<PCB, set<nat>>)
    requires n < |q| && Fell(q, n, n, s, g, s1, g1) && Judged(s1, g1, s2, g2, q[n])
    ensures q[n] in s2
    ensures s2[q[n]] == Ready ==> Fell(q, n, n + 1, s, g, s2, g2)
    ensures s2[q[n]] != Ready ==> Fell(q, n + 1, n + 1, s, g, s2, g2)
  {
    assert q[..n + 1] == q[..n] + [q[n]];
    assert q[n] !in q[..n];
  }

  /** What a pick had to choose from: the queue, the place where the walk ended, and the signals pending. */
  datatype Pick = Pick(q: seq<PCB>, n: nat, g: map<PCB, set<nat>>)

  /** n is the place in q of the first process that survives its signals g, or the end. */
  ghost predicate FirstSurvivor(q: seq<PCB>, n: nat, g: map<PCB, set<nat>>) {
    && n <= |q| && (forall i :: 0 <= i < |q| ==> q[i] in g)
    && (forall i :: 0 <= i < n ==> Fate(g[q[i]]) != Ready)
    && (n < |q| ==> Fate(g[q[n]]) == Ready)
  }

  /** In the states s', the first n processes of q met the fate that their signals g held for them. */
  ghost predicate PassedIn(q: seq<PCB>, n: nat, g: map<PCB, set<nat>>, s': map<PCB, State>) {
    n <= |q| && forall i :: 0 <= i < n ==> q[i] in g && q[i] in s' && s'[q[i]] == Fate(g[q[i]])
  }

  /** All of seen fell, and nobody else had a signal handled. */
  ghost predicate Scanned(seen: seq<PCB>, g: map<PCB, set<nat>>, s': map<PCB, State>, g': map<PCB, set<nat>>) {
    FirstSurvivor(seen, |seen|, g) && PassedIn(seen, |seen|, g, s') && SameOff(seen, g, g')
  }

  /** The first k lists, one after the other. */
  ghost function Flat(lists: seq<seq<PCB>>, k: nat): (r: seq<PCB>)
    requires k <= |lists|
  {
    if k == 0 then [] else Flat(lists, k - 1) + lists[k - 1]
  }

  lemma FlatStep(lists: seq<seq<PCB>>, k: nat)
    requires k <= |lists|
    ensures Flat(lists, 0) == [] && (k < |lists| ==> Flat(lists, k + 1) == Flat(lists, k) + lists[k])
  {
  }

  lemma {:induction false} FlatPrefix(lists: seq<seq<PCB>>, j: nat, k: nat)
    requires j <= k <= |lists|
    ensures Flat(lists, j) <= Flat(lists, k)
  {
    if j < k {
      FlatPrefix(lists, j, k - 1);
    }
  }

  lemma PrefixDistinct(a: seq<PCB>, b: seq<PCB>)
    requires a <= b && Distinct(b)
    ensures Distinct(a)
  {
    forall i, j | 0 <= i < j < |a| ensures a[i] != a[j] { assert a[i] == b[i] && a[j] == b[j]; }
  }

  /** One queue more. */
  lemma ScanMore(seen: seq<PCB>, b: seq<PCB>, m: nat, g: map<PCB, set<nat>>,
                 s1: map<PCB, State>, g1: map<PCB, set<nat>>, s2: map<PCB, State>, g2: map<PCB, set<nat>>)
    requires Scanned(seen, g, s1, g1) && Distinct(seen + b) && s1.Keys == g.Keys
    requires FirstSurvivor(b, m, g1) && PassedIn(b, m, g1, s2) && SameOff(b, s1, s2) && SameOff(b, g1, g2)
    ensures FirstSurvivor(seen + b, |seen| + m, g) && PassedIn(seen + b, |seen| + m, g, s2)
    ensures m == |b| ==> Scanned(seen + b, g, s2, g2)
  {
    var q := seen + b;
    forall i | 0 <= i < |b|
      ensures b[i] !in seen && b[i] in g && g1[b[i]] == g[b[i]]
    {
      forall j | 0 <= j < |seen| ensures seen[j] != b[i] { assert q[j] == seen[j] && q[|seen| + i] == b[i]; }
    }
    forall j | 0 <= j < |seen|
      ensures seen[j] !in b
    {
      forall i | 0 <= i < |b| ensures seen[j] != b[i] { assert q[j] == seen[j] && q[|seen| + i] == b[i]; }
    }
  }

  /** Of the states s, those of the first n processes of q became what their signals g said, and nothing else changed. */
  ghost predicate Discarded(q: seq<PCB>, n: nat, g: map<PCB, set<nat>>, s: map<PCB, State>, s': map<PCB, State>) {
    && n <= |q| && s.Keys == s'.Keys && s.Keys == g.Keys
    && (forall i :: 0 <= i < n ==> q[i] in s && s'[q[i]] == Fate(g[q[i]]))
    && (forall x :: x in s && x !in q[..n] ==> s'[x] == s[x])
  }

  /** The maps agree off q. */
  ghost predicate SameOff<T(!new)>(q: seq<PCB>, m: map<PCB, T>, m': map<PCB, T>) {
    m.Keys == m'.Keys && forall x :: x in m && x !in q ==> m'[x] == m[x]
  }

  /** The end of the walk over a queue. */
  lemma FellAll(q: seq<PCB>, s: map<PCB, State>, g: map<PCB, set<nat>>, s': map<PCB, State>, g': map<PCB, set<nat>>)
    requires Fell(q, |q|, |q|, s, g, s', g')
    ensures FirstSurvivor(q, |q|, g) && Discarded(q, |q|, g, s, s') && SameOff(q, g, g')
  {
  }

  /** The walk over a queue meets a process that survives. */
  lemma FellUpTo(q: seq<PCB>, n: nat, s: map<PCB, State>, g: map<PCB, set<nat>>,
                 s1: map<PCB, State>, g1: map<PCB, set<nat>>, s2: map<PCB, State>, g2: map<PCB, set<nat>>)
    requires n < |q| && Fell(q, n, n, s, g, s1, g1) && Judged(s1, g1, s2, g2, q[n])
    ensures q[n] in s2 && (s2[q[n]] == Ready ==> FirstSurvivor(q, n, g) && Discarded(q, n, g, s, s2) && SameOff(q, g, g2))
  {
    assert q[n] !in q[..n];
  }

  // ---------------------------------------------------------------- picking out of order

  /** The run queue q, what is left of it, the process chosen from it, and the signals that were pending. */
  datatype Choice = Choice(q: seq<PCB>, left: set<PCB>, next: PCB?, g: map<PCB, set<nat>>)

  /** In the states s', those of c that are neither left nor next met the fate that their signals held for them. */
  ghost predicate FallenIn(c: Choice, s': map<PCB, State>) {
    && (forall x :: x in c.q && x !in c.left && x != c.next ==> x in c.g && x in s' && Fate(c.g[x]) != Ready && s'[x] == Fate(c.g[x]))
    && (c.next != null ==> c.next in c.q && c.next !in c.left && c.next in c.g && Fate(c.g[c.next]) == Ready)
  }

  /** What a policy decided: the walk of a head policy with its level, or the choice of the others with the new epochs. */
  datatype Decision = Decision(r: Pick, c: Choice, e: nat, level: nat, lists: seq<seq<PCB>>)

  /** Nothing was decided. */
  ghost const Undecided := Decision(Pick([], 0, map[]), Choice([], {}, null, map[]), 0, 0, [])

  /** The processes of s that are in left, in the order of s. */
  ghost function Keep(s: seq<PCB>, left: set<PCB>): (r: seq<PCB>) {
    if s == [] then [] else Keep(s[..|s| - 1], left) + (if s[|s| - 1] in left then [s[|s| - 1]] else [])
  }

  lemma {:induction false} KeepAll(s: seq<PCB>, left: set<PCB>)
    requires forall p :: p in s ==> p in left
    ensures Keep(s, left) == s
  {
    if s != [] {
      KeepAll(s[..|s| - 1], left);
    }
  }

  lemma {:induction false} KeepMembers(s: seq<PCB>, left: set<PCB>)
    ensures forall p :: p in Keep(s, left) <==> p in s && p in left
    ensures forall i :: 0 <= i < |Keep(s, left)| ==> Keep(s, left)[i] in s && Keep(s, left)[i] in left
  {
    if s != [] {
      KeepMembers(s[..|s| - 1], left);
      assert s == s[..|s| - 1] + [s[|s| - 1]];
    }
  }

  lemma KeepStep(s: seq<PCB>, left: set<PCB>)
    ensures s == [] ==> Keep(s, left) == []
    ensures s != [] ==> Keep(s, left) == Keep(s[..|s| - 1], left) + if s[|s| - 1] in left then [s[|s| - 1]] else []
  {
  }

  /** Without one more process. */
  lemma {:induction false} KeepLess(s: seq<PCB>, left: set<PCB>, i: nat)
    requires Distinct(s) && i < |Keep(s, left)|
    ensures Keep(s, left - {Keep(s, left)[i]}) == Without(Keep(s, left), i)
  {
    KeepStep(s, left);
    KeepStep(s, left - {Keep(s, left)[i]});
    var t, x := s[..|s| - 1], s[|s| - 1];
    var k, p := Keep(t, left), Keep(s, left)[i];
    KeepMembers(t, left);
    forall j | 0 <= j < |t| ensures t[j] != x { assert t[j] == s[j]; }
    hide Keep;
    if i < |k| {
      assert p == k[i] && k[i] in k;
      KeepLess(t, left, i);
    } else {
      KeepSame(t, left, x);
    }
  }

  lemma {:induction false} KeepSame(s: seq<PCB>, left: set<PCB>, p: PCB)
    requires p !in s
    ensures Keep(s, left - {p}) == Keep(s, left)
  {
    if s != [] {
      KeepSame(s[..|s| - 1], left, p);
    }
  }

  /** Those of q that are not in left fell to the signals g, and nobody else had a signal handled. */
  ghost predicate FellOut(q: seq<PCB>, left: set<PCB>, s: map<PCB, State>, g: map<PCB, set<nat>>, s': map<PCB, State>, g': map<PCB, set<nat>>) {
    && s'.Keys == s.Keys == g.Keys == g'.Keys && (forall x :: x in q ==> x in g)
    && (forall x :: x in q && x !in left ==> Fate(g[x]) != Ready && s'[x] == Fate(g[x]))
    && (forall x :: x in s && (x !in q || x in left) ==> s'[x] == s[x] && g'[x] == g[x])
  }

  lemma FellOutStep(q: seq<PCB>, left: set<PCB>, p: PCB, s: map<PCB, State>, g: map<PCB, set<nat>>,
                    s1: map<PCB, State>, g1: map<PCB, set<nat>>, s2: map<PCB, State>, g2: map<PCB, set<nat>>)
    requires FellOut(q, left, s, g, s1, g1) && Judged(s1, g1, s2, g2, p) && p in q && p in left
    ensures p in s2 && p in g && s2[p] == Fate(g[p])
    ensures s2[p] != Ready ==> FellOut(q, left - {p}, s, g, s2, g2)
    ensures s2[p] == Ready ==> FellBut(q, left - {p}, p, s, g, s2)
  {
  }

  /** Of q, p was chosen, those that are neither left nor chosen fell to the signals g, and no other state changed. */
  ghost predicate FellBut(q: seq<PCB>, left: set<PCB>, p: PCB?, s: map<PCB, State>, g: map<PCB, set<nat>>, s': map<PCB, State>) {
    && s.Keys == s'.Keys && s.Keys == g.Keys && (forall x :: x in q ==> x in g)
    && (forall x :: x in q && x !in left && x != p ==> Fate(g[x]) != Ready && s'[x] == Fate(g[x]))
    && (forall x :: x in s && (x !in q || x in left || x == p) ==> s'[x] == s[x])
    && (p != null ==> p in q && p !in left && Fate(g[p]) == Ready)
  }

  lemma FellOutStart(q: seq<PCB>, left: set<PCB>, s: map<PCB, State>, g: map<PCB, set<nat>>)
    requires s.Keys == g.Keys && forall x :: x in q ==> x in g && x in left
    ensures FellOut(q, left, s, g, s, g)
  {
  }

  lemma FellOutEnd(q: seq<PCB>, left: set<PCB>, s: map<PCB, State>, g: map<PCB, set<nat>>, s': map<PCB, State>, g': map<PCB, set<nat>>)
    requires FellOut(q, left, s, g, s', g')
    ensures FellBut(q, left, null, s, g, s')
  {
  }

  /** i is the place of the process that the random number in state r makes win. */
  ghost predicate Wins(ts: seq<int>, r: Word, i: nat) {
    0 < Total(ts) && i == Winner(ts, Value(r) % Total(ts))
  }

  ghost function TicketsOf(s: seq<PCB>, m: map<PCB, int>): (r: seq<int>)
    ensures |r| == |s| && forall i :: 0 <= i < |s| ==> r[i] == if s[i] in m then m[s[i]] else 0
  {
    if s == [] then [] else TicketsOf(s[..|s| - 1], m) + [if s[|s| - 1] in m then m[s[|s| - 1]] else 0]
  }

  /** Process next, at place i, won a draw among those of q that were in pool. */
  ghost predicate DrawnAt(q: seq<PCB>, pool: set<PCB>, i: nat, next: PCB, r: Word, m: map<PCB, int>) {
    i < |Keep(q, pool)| && Keep(q, pool)[i] == next && Wins(TicketsOf(Keep(q, pool), m), r, i)
  }

  /** Process next won the last draw, among those of q that are left and itself, with random number r; or nobody is left. */
  ghost predicate Drawn(q: seq<PCB>, left: set<PCB>, next: PCB?, r: Word, m: map<PCB, int>) {
    if next == null then Keep(q, left) == [] else next !in left && exists i :: DrawnAt(q, left + {next}, i, next, r, m)
  }

  lemma DrawnNone(q: seq<PCB>, left: set<PCB>, r: Word, m: map<PCB, int>)
    requires Keep(q, left) == []
    ensures Drawn(q, left, null, r, m)
  {
  }

  lemma DrawnFrom(q: seq<PCB>, pool: set<PCB>, i: nat, r: Word, m: map<PCB, int>)
    requires i < |Keep(q, pool)| && Wins(TicketsOf(Keep(q, pool), m), r, i)
    ensures Drawn(q, pool - {Keep(q, pool)[i]}, Keep(q, pool)[i], r, m)
  {
    hide Keep, Wins;
    KeepMembers(q, pool);
    var p := Keep(q, pool)[i];
    var left := pool - {p};
    assert left + {p} == pool;
    assert DrawnAt(q, left + {p}, i, p, r, m);
  }

  // ---------------------------------------------------------------- the walk of the aging policy

  /**
   The first j processes of q had a signal handled: those of them in left survived, the others fell to the
   signals g. The rest of q, all of it in left, is untouched, and so is everybody else.
   */
  ghost predicate Sifted(q: seq<PCB>, j: nat, left: set<PCB>, s: map<PCB, State>, g: map<PCB, set<nat>>, s': map<PCB, State>, g': map<PCB, set<nat>>) {
    && j <= |q| && s'.Keys == s.Keys == g.Keys == g'.Keys && (forall i :: 0 <= i < |q| ==> q[i] in g)
    && (forall i :: 0 <= i < j && q[i] !in left ==> Fate(g[q[i]]) != Ready && s'[q[i]] == Fate(g[q[i]]))
    && (forall i :: 0 <= i < j && q[i] in left ==> Fate(g[q[i]]) == Ready && Fate(g'[q[i]]) == Ready && s'[q[i]] == s[q[i]])
    && (forall i :: j <= i < |q| ==> q[i] in left && g'[q[i]] == g[q[i]] && s'[q[i]] == s[q[i]])
    && (forall x :: x in s && x !in q ==> s'[x] == s[x] && g'[x] == g[x])
  }

  lemma SiftedStart(q: seq<PCB>, left: set<PCB>, s: map<PCB, State>, g: map<PCB, set<nat>>)
    requires s.Keys == g.Keys && forall i :: 0 <= i < |q| ==> q[i] in g && q[i] in left
    ensures Sifted(q, 0, left, s, g, s, g)
  {
  }

  /** What handling the signals of p, and only of p, does. */
  ghost predicate Examined(s: map<PCB, State>, g: map<PCB, set<nat>>, s': map<PCB, State>, g': map<PCB, set<nat>>, p: PCB) {
    && Judged(s, g, s', g', p) && (Fate(g[p]) == Ready ==> Fate(g'[p]) == Ready)
  }

  lemma SiftedStep(q: seq<PCB>, j: nat, left: set<PCB>, s: map<PCB, State>, g: map<PCB, set<nat>>,
                   s1: map<PCB, State>, g1: map<PCB, set<nat>>, s2: map<PCB, State>, g2: map<PCB, set<nat>>)
    requires Sifted(q, j, left, s, g, s1, g1) && Distinct(q) && j < |q| && Examined(s1, g1, s2, g2, q[j])
    ensures q[j] in s2 && s2[q[j]] == Fate(g[q[j]])
    ensures s2[q[j]] == Ready ==> Sifted(q, j + 1, left, s, g, s2, g2)
    ensures s2[q[j]] != Ready ==> Sifted(q, j + 1, left - {q[j]}, s, g, s2, g2)
  {
    forall i | 0 <= i < |q| && i != j ensures q[i] != q[j] {}
  }

  /** A second walk, over those who survived the first one, loses nobody. */
  lemma SiftedAgain(q: seq<PCB>, pool: set<PCB>, left: set<PCB>, s: map<PCB, State>, g: map<PCB, set<nat>>,
                    s1: map<PCB, State>, g1: map<PCB, set<nat>>, s2: map<PCB, State>, g2: map<PCB, set<nat>>)
    requires Sifted(q, |q|, pool, s, g, s1, g1)
    requires Sifted(Keep(q, pool), |Keep(q, pool)|, left, s1, g1, s2, g2)
    ensures Sifted(q, |q|, pool, s, g, s2, g2) && Keep(Keep(q, pool), left) == Keep(q, pool)
  {
    var r := Keep(q, pool);
    KeepMembers(q, pool);
    hide Keep;
    forall i | 0 <= i < |r|
      ensures r[i] in left
    {
      var k :| 0 <= k < |q| && q[k] == r[i];
    }
    KeepAll(r, left);
    forall i | 0 <= i < |q| && q[i] in pool
      ensures q[i] in r && Fate(g2[q[i]]) == Ready && s2[q[i]] == s[q[i]]
    {
      var k :| 0 <= k < |r| && r[k] == q[i];
    }
  }

  /** Those of q that are left survive the signals that are still pending, too. */
  ghost predicate Spared(q: seq<PCB>, left: set<PCB>, g': map<PCB, set<nat>>) {
    forall i :: 0 <= i < |q| && q[i] in left ==> q[i] in g' && Fate(g'[q[i]]) == Ready
  }

  /** After the walk, one of the survivors is chosen. */
  lemma SiftedChoice(q: seq<PCB>, pool: set<PCB>, p: PCB, s: map<PCB, State>, g: map<PCB, set<nat>>, s': map<PCB, State>, g': map<PCB, set<nat>>)
    requires Sifted(q, |q|, pool, s, g, s', g') && p in q && p in pool
    ensures FellBut(q, pool - {p}, p, s, g, s') && Spared(q, pool - {p}, g')
  {
  }

  lemma SiftedNone(q: seq<PCB>, pool: set<PCB>, s: map<PCB, State>, g: map<PCB, set<nat>>, s': map<PCB, State>, g': map<PCB, set<nat>>)
    requires Sifted(q, |q|, pool, s, g, s', g')
    ensures FellBut(q, pool, null, s, g, s') && Spared(q, pool, g')
  {
  }

  /** c' is what e recharges make of the counters c. */
  ghost predicate EpochsOf(c: map<PCB, int>, pr: map<PCB, int>, e: nat, c': map<PCB, int>) {
    c.Keys == c'.Keys && c.Keys == pr.Keys && forall x :: x in c ==> c'[x] == Epochs(c[x], pr[x], e)
  }

  /** next is the first with the largest counter among those of q that are left and itself, and that counter is positive. */
  ghost predicate Foremost(q: seq<PCB>, left: set<PCB>, next: PCB, c: map<PCB, int>) {
    next !in left && exists b :: ForemostAt(Keep(q, left + {next}), b, next, c)
  }

  ghost predicate ForemostAt(s: seq<PCB>, b: nat, next: PCB, c: map<PCB, int>) {
    && b < |s| && s[b] == next && (forall k :: 0 <= k < |s| ==> s[k] in c) && 0 < c[next]
    && (forall k :: 0 <= k < |s| ==> c[s[k]] <= c[next]) && (forall k :: 0 <= k < b ==> c[s[k]] < c[next])
  }

  /** After k recharges all of s are still exhausted. */
  ghost predicate Exhausted(s: seq<PCB>, c: map<PCB, int>, pr: map<PCB, int>, k: nat) {
    forall i :: 0 <= i < |s| ==> s[i] in c && s[i] in pr && Epochs(c[s[i]], pr[s[i]], k) <= 0
  }

  /** The outcome of the selection: c and pr are the counters and priorities at its start, e counts the new epochs. */
  ghost predicate Aged(q: seq<PCB>, left: set<PCB>, next: PCB?, c: map<PCB, int>, pr: map<PCB, int>, e: nat, c': map<PCB, int>) {
    && EpochsOf(c, pr, e, c')
    && (next == null ==> e == 0 && Keep(q, left) == [])
    && (next != null ==> Foremost(q, left, next, c') && forall k :: 0 <= k < e ==> Exhausted(Keep(q, left + {next}), c, pr, k))
  }

  // ---------------------------------------------------------------- waiting for a turn

  /** The slices that the processes of q other than p have left, by the counters c. */
  ghost function Load(q: seq<PCB>, p: PCB, c: map<PCB, int>): nat {
    if q == [] then 0
    else
      var x := q[|q| - 1];
      Load(q[..|q| - 1], p, c) + if x != p && x in c && 0 < c[x] then c[x] else 0
  }

  lemma LoadAppend(q: seq<PCB>, x: PCB, p: PCB, c: map<PCB, int>)
    ensures Load(q + [x], p, c) == Load(q, p, c) + if x != p && x in c && 0 < c[x] then c[x] else 0
  {
    assert (q + [x])[..|q|] == q;
  }

  /** Whoever is chosen, the slices of those that are left and its own add up to no more than all slices. */
  lemma {:induction false} LoadKeep(q: seq<PCB>, left: set<PCB>, next: PCB, p: PCB, c: map<PCB, int>)
    requires Distinct(q) && next !in left && next != p && next in c
    ensures Load(Keep(q, left), p, c) + (if next in q && 0 < c[next] then c[next] else 0) <= Load(q, p, c)
  {
    if q != [] {
      var t, x := q[..|q| - 1], q[|q| - 1];
      LoadKeep(t, left, next, p, c);
      assert q == t + [x];
      forall i | 0 <= i < |t| ensures t[i] != x { assert t[i] == q[i]; }
      assert next in q <==> next in t || next == x;
      assert Keep(q, left) == if x in left then Keep(t, left) + [x] else Keep(t, left);
      hide Load, Keep;
      LoadAppend(t, x, p, c);
      LoadAppend(Keep(t, left), x, p, c);
    }
  }

  /** Equal counters make equal loads. */
  lemma {:induction false} LoadSame(q: seq<PCB>, p: PCB, c: map<PCB, int>, c': map<PCB, int>)
    requires forall x :: x in q ==> x in c && x in c' && c[x] == c'[x]
    ensures Load(q, p, c) == Load(q, p, c')
  {
    if q != [] {
      LoadSame(q[..|q| - 1], p, c, c');
    }
  }

  /** A process without a slice adds nothing. */
  lemma LoadBehind(q: seq<PCB>, y: PCB, p: PCB, c: map<PCB, int>)
    requires y in c && c[y] <= 0
    ensures Load(q + [y], p, c) == Load(q, p, c)
  {
    assert (q + [y])[..|q|] == q;
  }

  lemma NotExhausted(s: seq<PCB>, c: map<PCB, int>, pr: map<PCB, int>, p: PCB)
    requires p in s && p in c && 0 < c[p]
    ensures !Exhausted(s, c, pr, 0)
  {
    var i :| 0 <= i < |s| && s[i] == p;
    assert p in pr ==> Epochs(c[s[i]], pr[s[i]], 0) == c[p];
  }

  /**
   With p in q, having a slice and surviving, the selection starts no new epoch; it chooses p, or leaves p
   behind with less to wait for: the slices left and the chosen one's are no more than there were.
   */
  lemma TurnNearer(q: seq<PCB>, left: set<PCB>, next: PCB?, c: map<PCB, int>, pr: map<PCB, int>, e: nat, c': map<PCB, int>, p: PCB)
    requires Aged(q, left, next, c, pr, e, c') && Distinct(q) && p in q && p in c && 0 < c[p] && (p in left || p == next)
    requires forall x :: x in q ==> x in c
    ensures e == 0 && next != null && next in c' && 0 < c'[next] && c' == c
    ensures next != p && next in q ==> p in left && p in Keep(q, left) && Load(Keep(q, left), p, c') + c'[next] <= Load(q, p, c)
  {
    hide Keep, Load;
    KeepMembers(q, left);
    assert p in left ==> p in Keep(q, left);
    assert next != null;
    KeepMembers(q, left + {next});
    NotExhausted(Keep(q, left + {next}), c, pr, p);
    if next != p {
      LoadKeep(q, left, next, p, c);
    }
  }

  // ---------------------------------------------------------------- queues and levels

  ghost predicate AwayFrom(s: seq<PCB>, t: seq<PCB>) {
    forall p :: p in s ==> p !in t
  }

  lemma WithMembers(s: seq<PCB>, k: nat, p: PCB)
    requires k <= |s|
    ensures forall i :: 0 <= i < |With(s, k, p)| ==> With(s, k, p)[i] == p || With(s, k, p)[i] in s
    ensures forall x :: x in s || x == p ==> x in With(s, k, p)
  {
  }

  lemma InsertionMeans(s: seq<PCB>, e: int, k: nat)
    requires InsertionPoint(s, e, k)
    ensures k <= |s|
  {
  }

  ghost predicate BehindShorter(s: seq<PCB>, p: PCB, e: map<PCB, int>, i: nat) {
    && i <= |s| && p in e && (forall j :: 0 <= j < |s| ==> s[j] in e)
    && (forall j :: 0 <= j < i ==> e[s[j]] <= e[p])
    && (i < |s| ==> e[p] < e[s[i]])
  }

  lemma SteadyDiscarded(idle: PCB, q: seq<PCB>, n: nat, g: map<PCB, set<nat>>, s: map<PCB, State>, s': map<PCB, State>)
    requires Discarded(q, n, g, s, s') && forall i :: 0 <= i < |q| ==> q[i] in s && s[q[i]] == Ready
    ensures Steady(idle, s, s')
  {
  }

  lemma DiscardedOnly(q: seq<PCB>, n: nat, g: map<PCB, set<nat>>, s: map<PCB, State>, s': map<PCB, State>)
    requires Discarded(q, n, g, s, s')
    ensures SameOff(q, s, s') && PassedIn(q, n, g, s')
  {
  }

  lemma SurvivorIn(q: seq<PCB>, n: nat, g: map<PCB, set<nat>>)
    requires FirstSurvivor(q, n, g)
    ensures n <= |q|
  {
  }

  /** The counters c with a quantum for process p, if there is one. */
  ghost function Given(c: map<PCB, int>, p: PCB?, quantum: int): map<PCB, int> {
    if p != null && 0 < quantum then c[p := quantum] else c
  }

  lemma KeysAgree(seen: seq<PCB>, g: map<PCB, set<nat>>, s': map<PCB, State>, g': map<PCB, set<nat>>)
    requires Scanned(seen, g, s', g') && s'.Keys == g'.Keys
    ensures s'.Keys == g.Keys
  {
  }

  lemma ScannedMeans(q: seq<PCB>, g: map<PCB, set<nat>>, s': map<PCB, State>, g': map<PCB, set<nat>>)
    requires Scanned(q, g, s', g')
    ensures FirstSurvivor(q, |q|, g) && PassedIn(q, |q|, g, s')
  {
  }

  /** The levels, with the outgoing process put back if it can run on. */
  ghost predicate LevelsBefore(before: seq<seq<PCB>>, lists: seq<seq<PCB>>, back: bool, p: PCB, dest: int) {
    |before| == |lists| == N_LEVELS && forall l :: 0 <= l < N_LEVELS ==> lists[l] == if back && l == dest then before[l] + [p] else before[l]
  }

  /** The levels before the one that was picked from are empty, the ones behind it untouched. */
  ghost predicate LevelsLeft(lists: seq<seq<PCB>>, after: seq<seq<PCB>>, q: seq<PCB>, n: nat, level: nat) {
    && |lists| == |after| == N_LEVELS && level <= N_LEVELS
    && (forall l :: 0 <= l < level ==> after[l] == [])
    && (forall l :: level < l < N_LEVELS ==> after[l] == lists[l])
    && if level < N_LEVELS then q == Flat(lists, level + 1) && |Flat(lists, level)| <= n < |q| && after[level] == q[n + 1..]
       else q == Flat(lists, N_LEVELS) && n == |q|
  }

  lemma TotalStep(ts: seq<int>, k: nat)
    requires k < |ts|
    ensures Total(ts[..k + 1]) == Total(ts[..k]) + Weight(ts[k])
  {
    assert ts[..k + 1][..k] == ts[..k];
  }

  lemma WinStart(ts: seq<int>)
    ensures Total(ts[..0]) == 0 && (0 < Total(ts) ==> ts != [])
  {
  }

  /** The walk stops at a process, and that one is the winner. */
  lemma WinStep(ts: seq<int>, winner: nat, i: nat)
    requires i < |ts| && Total(ts[..i]) <= winner < Total(ts)
    ensures Total(ts[..i + 1]) == Total(ts[..i]) + Weight(ts[i])
    ensures if winner < Total(ts[..i + 1]) then Winner(ts, winner) == i else i + 1 < |ts|
  {
    TotalStep(ts, i);
    WinnerRange(ts, winner, i);
    assert i + 1 == |ts| ==> ts[..i + 1] == ts;
  }

  lemma TotalZero(ts: seq<int>)
    ensures Total(ts) == 0 <==> ts == []
  {
  }

  lemma SteadyFell(idle: PCB, c: Choice, s: map<PCB, State>, s': map<PCB, State>)
    requires FellBut(c.q, c.left, c.next, s, c.g, s') && forall i :: 0 <= i < |c.q| ==> c.q[i] in s && s[c.q[i]] == Ready
    ensures Steady(idle, s, s')
  {
  }

  /** The walk stands at place i of the ready queue s; the first j processes of q have been looked at. */
  ghost predicate Walk(s: seq<PCB>, q: seq<PCB>, left: set<PCB>, j: nat, i: nat, node: PCB?, previous: PCB?) {
    && s == Keep(q, left) && i <= |s| && j <= |q| && s[i..] == q[j..]
    && node == (if i < |s| then s[i] else null) && previous == (if i == 0 then null else s[i - 1])
  }

  lemma WalkHere(s: seq<PCB>, q: seq<PCB>, left: set<PCB>, j: nat, i: nat, node: PCB, previous: PCB?)
    requires Walk(s, q, left, j, i, node, previous)
    ensures i < |s| && j < |q| && s[i] == node && q[j] == node && s == Keep(q, left) && previous == if i == 0 then null else s[i - 1]
  {
    assert s[i] == s[i..][0] && q[j] == q[j..][0];
  }

  lemma WalkKept(s: seq<PCB>, q: seq<PCB>, left: set<PCB>, j: nat, i: nat, node: PCB, previous: PCB?)
    requires Walk(s, q, left, j, i, node, previous)
    ensures Walk(s, q, left, j + 1, i + 1, After(s, i), node)
  {
    hide Keep;
    WalkHere(s, q, left, j, i, node, previous);
    assert s[i + 1..] == s[i..][1..] && q[j + 1..] == q[j..][1..];
  }

  lemma WalkDropped(s: seq<PCB>, q: seq<PCB>, left: set<PCB>, j: nat, i: nat, node: PCB, previous: PCB?)
    requires Walk(s, q, left, j, i, node, previous) && Distinct(q) && i < |s|
    ensures Walk(Without(s, i), q, left - {node}, j + 1, i, After(s, i), previous)
  {
    hide Keep, Distinct;
    WalkHere(s, q, left, j, i, node, previous);
    KeepLess(q, left, i);
    assert Without(s, i)[i..] == s[i + 1..] == s[i..][1..] && q[j + 1..] == q[j..][1..];
  }

  lemma WalkStart(q: seq<PCB>, left: set<PCB>, node: PCB?)
    requires Keep(q, left) == q && node == if q == [] then null else q[0]
    ensures Walk(q, q, left, 0, 0, node, null)
  {
  }

  lemma WalkEnd(s: seq<PCB>, q: seq<PCB>, left: set<PCB>, j: nat, i: nat, previous: PCB?)
    requires Walk(s, q, left, j, i, null, previous)
    ensures i == |s| && j == |q| && s == Keep(q, left)
  {
  }

  lemma LevelsPicked(lists: seq<seq<PCB>>, after: seq<seq<PCB>>, q: seq<PCB>, n: nat, level: nat)
    requires LevelsLeft(lists, after, q, n, level)
    ensures level < N_LEVELS <==> n < |q|
  {
  }

  lemma SetTwice(c: map<PCB, int>, p: PCB, x: int, y: int)
    ensures c[p := x][p := y] == c[p := y]
  {
  }

  /** From levels a to levels b, only the one of the pid changed: it is the queue priority, brought into range. */
  ghost predicate Enrolled(a: seq<int>, b: seq<int>, pid: nat, queuePriority: int) {
    pid < |a| && b == a[pid := StartLevel(queuePriority)]
  }

  function StartLevel(queuePriority: int): (l: int)
    ensures 0 <= l < N_LEVELS && (0 <= queuePriority < 5 ==> l == queuePriority)
    ensures (queuePriority < 0 ==> l == 0) && (5 <= queuePriority ==> l == 4)
  {
    if queuePriority < 0 then 0 else if queuePriority >= N_LEVELS then N_LEVELS - 1 else queuePriority
  }
}
