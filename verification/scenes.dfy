/**
 What each policy decides and what a tick does, as equations between scenes: a scene is everything that picking a
 process and counting ticks look at or change. From them follow the results about waiting, counters and boosts.
 */
module Scenes {
  import opened Queues
  import opened Policies
  import opened Snapshots

  datatype Algorithm = RoundRobin | Fcfs | Sjf | Lottery | Aging | Mlq | Mlfq

  /** What can happen to the system, one atomic step each: the timer, devices, and calls of the current process. */
  datatype Event =
    | Tick
    | Yield
    | Wait(pid: int)
    | Exit
    | Fork
    | Signal(pid: int, signal: nat)
    | Block(on: State)
    | Wake(pid: int)
    | SetParam(pid: int, param: Param, value: int)

  /** The parameters that can be set from outside. */
  datatype Param = Priority | TicketCount | QueuePriority

  const N_PROCESSES := 64
  const BOOST_PERIOD := 300

  datatype Scene = Scene(algo: Algorithm, idle: PCB, current: PCB, runnable: bool, dest: int, ready: seq<PCB>, levels: seq<seq<PCB>>,
                         states: map<PCB, State>, signals: map<PCB, set<nat>>, counters: map<PCB, int>, priorities: map<PCB, int>,
                         bursts: map<PCB, int>, shares: map<PCB, int>, rng: Word, level: seq<int>, ticks: int)

  // ---------------------------------------------------------------- what a policy decides

  predicate InLevels(algo: Algorithm) {
    algo == Mlq || algo == Mlfq
  }

  /**
   q is what the scheduler has to choose from: the queue s, with the outgoing process p put back if it can run
   on. The shortest-job policy puts it behind all that have no longer estimate e, the others at the end.
   */
  ghost predicate RunQueue(algo: Algorithm, s: seq<PCB>, back: bool, p: PCB, q: seq<PCB>, e: map<PCB, int>) {
    if !back then q == s
    else if algo != Sjf then q == s + [p]
    else exists i :: BehindShorter(s, p, e, i) && q == With(s, i, p)
  }

  /** From lists a to lists b, p was put where the policy wants it in list k, by the estimates e, and no other list changed. */
  ghost predicate Joined(algo: Algorithm, a: seq<seq<PCB>>, k: int, p: PCB, b: seq<seq<PCB>>, e: map<PCB, int>) {
    0 <= k < |a| && |b| == |a| && b == a[k := b[k]] && RunQueue(algo, a[k], true, p, b[k], e)
  }

  /** The quantum that a process picked from a level gets. */
  function Quantum(algo: Algorithm, level: nat): (ticks: int)
    requires level < N_LEVELS
    ensures 0 < ticks
  {
    if algo == Mlq then [10, 12, 14, 16, 20][level] else [5, 8, 10, 15, 20][level]
  }

  /** The two tables of quanta, from the highest level to the lowest. */
  lemma Quanta()
    ensures Quantum(Mlq, 0) == 10 && Quantum(Mlq, 1) == 12 && Quantum(Mlq, 2) == 14 && Quantum(Mlq, 3) == 16 && Quantum(Mlq, 4) == 20
    ensures Quantum(Mlfq, 0) == 5 && Quantum(Mlfq, 1) == 8 && Quantum(Mlfq, 2) == 10 && Quantum(Mlfq, 3) == 15 && Quantum(Mlfq, 4) == 20
  {
  }

  /** The quantum is given to the process that has the CPU in b, unless that is the idle task. */
  ghost predicate Recharges(a: Scene, quantum: int, b: Scene) {
    b.counters == Given(a.counters, if b.current == a.idle then null else b.current, quantum)
  }

  /** The first survivor of the queue, with the outgoing process put back where the policy wants it. */
  ghost predicate HeadPicked(a: Scene, r: Pick, quantum: int, b: Scene) {
    && r.g == a.signals && RunQueue(a.algo, a.ready, a.runnable, a.current, r.q, a.bursts)
    && FirstSurvivor(r.q, r.n, r.g) && PassedIn(r.q, r.n, r.g, b.states) && Recharges(a, quantum, b)
    && if r.n < |r.q| then b.current == r.q[r.n] && b.ready == r.q[r.n + 1..] else b.current == a.idle && b.ready == []
  }

  /** The choice c of a policy that removes from the middle of the queue. */
  ghost predicate ChoiceMade(a: Scene, c: Choice, b: Scene) {
    && c.g == a.signals && RunQueue(a.algo, a.ready, a.runnable, a.current, c.q, a.bursts) && FallenIn(c, b.states)
    && b.current == (if c.next == null then a.idle else c.next) && b.ready == Keep(c.q, c.left)
  }

  ghost predicate LevelPicked(a: Scene, r: Pick, level: nat, lists: seq<seq<PCB>>, b: Scene) {
    && r.g == a.signals && LevelsBefore(a.levels, lists, a.runnable, a.current, a.dest) && LevelsLeft(lists, b.levels, r.q, r.n, level)
    && FirstSurvivor(r.q, r.n, r.g) && PassedIn(r.q, r.n, r.g, b.states) && b.current == (if r.n < |r.q| then r.q[r.n] else a.idle)
    && Recharges(a, if level < N_LEVELS then Quantum(a.algo, level) else 0, b)
  }

  /** What the active policy makes of scene a is scene b. */
  ghost predicate Decided(a: Scene, d: Decision, b: Scene) {
    && b.algo == a.algo && b.idle == a.idle && (a.algo != Lottery ==> b.rng == a.rng)
    && b.priorities == a.priorities && b.shares == a.shares && b.bursts == a.bursts && b.level == a.level && b.ticks == a.ticks
    && match a.algo
       case RoundRobin => HeadPicked(a, d.r, 10, b)
       case Fcfs => HeadPicked(a, d.r, 0, b)
       case Sjf => HeadPicked(a, d.r, 0, b)
       case Lottery => ChoiceMade(a, d.c, b) && Drawn(d.c.q, d.c.left, d.c.next, b.rng, a.shares) && Rolled(a.rng, b.rng, |d.c.q| - |b.ready|) && Recharges(a, 10, b)
       case Aging =>
         ChoiceMade(a, d.c, b) && Aged(d.c.q, d.c.left, d.c.next, a.counters, a.priorities, d.e, b.counters) && Spared(d.c.q, d.c.left, b.signals)
       case Mlq => LevelPicked(a, d.r, d.level, d.lists, b)
       case Mlfq => LevelPicked(a, d.r, d.level, d.lists, b)
  }

  // ---------------------------------------------------------------- giving up the CPU

  /** Halving as the machine does it, towards zero. */
  function Halved(x: int): (r: int)
    ensures if 0 <= x then 2 * r <= x <= 2 * r + 1 else 2 * r - 1 <= x <= 2 * r
  {
    if 0 <= x then x / 2 else -(-x / 2)
  }

  /** Scene a after the burst of the current process, of t ticks, was estimated if the process cannot run on. */
  ghost function Estimated(a: Scene, t: int): Scene {
    if a.current == a.idle || a.current !in a.bursts || a.current !in a.states || a.states[a.current] == Running || a.states[a.current] == Ready then a
    else a.(bursts := a.bursts[a.current := Halved(t + a.bursts[a.current])])
  }

  /** Scene a after that, and after the slice of the current process was cleared. */
  ghost function BurstEnded(a: Scene, t: int): Scene {
    Estimated(a, t).(counters := a.counters[a.current := 0])
  }

  lemma EstimatedKeeps(a: Scene, t: int)
    ensures Estimated(a, t).counters == a.counters && Estimated(a, t).current == a.current && BurstEnded(a, t).counters == a.counters[a.current := 0]
    ensures Estimated(a, t).(counters := a.counters[a.current := 0]) == BurstEnded(a, t)
    ensures BurstEnded(a, t).states == a.states && BurstEnded(a, t).ready == a.ready && BurstEnded(a, t).signals == a.signals
    ensures BurstEnded(a, t).current == a.current && BurstEnded(a, t).runnable == a.runnable && BurstEnded(a, t).idle == a.idle
  {
  }

  lemma EndedTwice(a: Scene, t: int)
    ensures BurstEnded(a.(counters := a.counters[a.current := 0]), t) == BurstEnded(a, t)
  {
    SetTwice(a.counters, a.current, 0, 0);
    ghost var b := a.(counters := a.counters[a.current := 0]);
    EstimatedKeeps(a, t);
    EstimatedKeeps(b, t);
    hide BurstEnded, Halved;
    assert Estimated(b, t) == Estimated(a, t).(counters := b.counters);
  }

  /** Scene a when the current process is in state s and cannot run on. */
  ghost function Aside(a: Scene, s: State): Scene {
    a.(states := a.states[a.current := s], runnable := false)
  }

  /** Scene a with the states and queues of scene b. */
  ghost function Awakened(a: Scene, b: Scene): Scene {
    a.(states := b.states, ready := b.ready, levels := b.levels)
  }

  lemma AwakenedIs(a: Scene, b: Scene)
    requires FactsOf(a) == FactsOf(b) && a.runnable == b.runnable && a.level == b.level && a.ticks == b.ticks && a.dest == b.dest
    ensures b == Awakened(a, b) && (a.states == b.states && a.ready == b.ready && a.levels == b.levels ==> a == b)
  {
  }

  lemma RousedIs(a: Scene, p: PCB, b: Scene)
    requires b == Awakened(a, b) && b.states == a.states[p := Ready]
    ensures b == Roused(a, p, b)
  {
  }

  /** Scene a after the current process has ended, with the states and queues of scene b. */
  ghost function Died(a: Scene, b: Scene): Scene {
    Awakened(Aside(a, Zombie), b)
  }

  /** In scene n, which follows a, the process me is a zombie, exactly the processes in woken are newly ready, and all others are as they were. */
  ghost predicate EndedIn(a: Scene, n: Scene, me: PCB, woken: set<PCB>) {
    && n == Died(a, n) && n.states.Keys == a.states.Keys
    && forall p :: p in a.states ==> n.states[p] == if p == me then Zombie else if p in woken then Ready else a.states[p]
  }

  // ---------------------------------------------------------------- a tick, before anybody is picked

  /** Whether a tick in scene a is one that boosts. */
  ghost predicate BoostDue(a: Scene) {
    a.algo == Mlfq && a.ticks + 1 >= BOOST_PERIOD
  }

  /** The levels after a tick; c is what the counter of the current process has come to. */
  ghost function NextLevel(a: Scene, c: int): seq<int> {
    var b, pid := if BoostDue(a) then seq(N_PROCESSES, _ => 0) else a.level, a.current.pid;
    if a.algo == Mlfq && a.current != a.idle && c <= 0 && pid < |b| && b[pid] < N_LEVELS - 1 then b[pid := b[pid] + 1] else b
  }

  /** The bookkeeping of the multilevel policies. */
  ghost function Booked(a: Scene, c: int): Scene {
    var level := NextLevel(a, c);
    a.(levels := if BoostDue(a) then [Flat(a.levels, |a.levels|), [], [], [], []] else a.levels,
       level := level,
       ticks := if a.algo != Mlfq then a.ticks else if BoostDue(a) then 0 else a.ticks + 1,
       dest := if !InLevels(a.algo) then a.dest else if a.current.pid < |level| then level[a.current.pid] else NOWHERE)
  }

  lemma BookedNot(a: Scene, c: int)
    requires !InLevels(a.algo)
    ensures Booked(a, c) == a
  {
  }

  ghost function FactsOf(a: Scene): Scene {
    a.(runnable := false, dest := 0, ready := [], levels := [], states := map[], level := [], ticks := 0)
  }

  lemma BookedIs(a: Scene, b: Scene, c: int)
    requires FactsOf(a) == FactsOf(b) && a.runnable == b.runnable && a.ready == b.ready && a.states == b.states
    requires b.levels == Booked(a, c).levels && b.level == Booked(a, c).level && b.ticks == Booked(a, c).ticks && b.dest == Booked(a, c).dest
    ensures b == Booked(a, c)
  {
    hide Flat, NextLevel;
  }

  ghost function Counted(a: Scene): Scene {
    var c := if a.current in a.counters then a.counters[a.current] - 1 else 0;
    Booked(a.(counters := a.counters[a.current := c]), c)
  }

  /** The whole first half of a tick. */
  ghost function Ticked(a: Scene): Scene {
    var b := Counted(a);
    if b.current in b.counters && b.counters[b.current] <= 0 then b.(counters := b.counters[b.current := 0]) else b
  }

  lemma TickedIs(a: Scene)
    requires Counted(a).current in Counted(a).counters
    ensures var b := Counted(a); Ticked(a) == if b.counters[b.current] <= 0 then b.(counters := b.counters[b.current := 0]) else b
  {
    hide Counted;
  }

  /** What a tick leaves alone before anybody is picked, and what it does to the counters. */
  lemma TickedKeeps(a: Scene)
    ensures Ticked(a).states == a.states && Ticked(a).signals == a.signals && Ticked(a).current == a.current && Ticked(a).ready == a.ready
    ensures Ticked(a).priorities == a.priorities && Ticked(a).runnable == a.runnable && Ticked(a).algo == a.algo && Ticked(a).idle == a.idle
    ensures a.current in a.counters ==>
              Ticked(a).counters == a.counters[a.current := if a.counters[a.current] <= 1 then 0 else a.counters[a.current] - 1]
  {
    hide NextLevel, Flat;
    if a.current in a.counters {
      SetTwice(a.counters, a.current, a.counters[a.current] - 1, 0);
    }
  }

  // ---------------------------------------------------------------- waiting for a turn

  /** What holds between steps about a scene and its ready queue. */
  ghost predicate Settled(a: Scene) {
    && a.current in a.counters && a.current !in a.ready && a.idle !in a.ready && Distinct(a.ready)
    && forall x :: x in a.ready ==> x in a.counters && x in a.signals
  }

  lemma SettledMeans(a: Scene)
    requires Settled(a)
    ensures a.current in a.counters
  {
  }

  /** p waits in the ready queue with a slice left, and no signal will take it away. */
  ghost predicate Waiting(a: Scene, p: PCB) {
    p in a.ready && p in a.counters && 0 < a.counters[p] && p in a.signals && Fate(a.signals[p]) == Ready
  }

  /** How many ticks can pass before it is p's turn: the slices of the others in the queue and of the current process. */
  ghost function Ahead(a: Scene, p: PCB): (ticks: nat)
    ensures 1 <= ticks
  {
    Load(a.ready, p, a.counters) + if a.current in a.counters && 1 < a.counters[a.current] then a.counters[a.current] else 1
  }

  /** From scene a to scene b it became p's turn, or p came n ticks nearer to it; and no epoch began. */
  ghost predicate Nearer(a: Scene, b: Scene, p: PCB, n: nat) {
    && (b.current == p || (Waiting(b, p) && Ahead(b, p) + n <= Ahead(a, p)))
    && a.current in a.counters && a.counters.Keys == b.counters.Keys
    && (forall x :: x in a.counters && x != a.current ==> b.counters[x] == a.counters[x])
    && (b.counters[a.current] == 0 || b.counters[a.current] <= a.counters[a.current])
  }

  lemma NearerSame(a: Scene, p: PCB)
    requires Settled(a) && Waiting(a, p)
    ensures Nearer(a, a, p, 0)
  {
  }

  lemma NearerAnyway(a: Scene, b: Scene, p: PCB)
    requires Nearer(a, b, p, 1)
    ensures Nearer(a, b, p, 0)
  {
    hide Waiting;
  }

  lemma NearerSignals(a: Scene, g: map<PCB, set<nat>>, p: PCB)
    requires Settled(a) && Waiting(a, p) && p in g && g[p] == a.signals[p]
    ensures Nearer(a, a.(signals := g), p, 0)
  {
  }

  /** No counter is higher in b than in a, unless it was negative and is zero. */
  ghost predicate NoHigher(a: Scene, b: Scene) {
    a.counters.Keys == b.counters.Keys && forall x :: x in a.counters ==> b.counters[x] <= if 0 < a.counters[x] then a.counters[x] else 0
  }

  lemma NearerOn(a: Scene, b: Scene, c: Scene, p: PCB, m: nat, n: nat)
    requires Waiting(b, p) && Ahead(b, p) + m <= Ahead(a, p) && NoHigher(a, b) && p in a.counters && b.counters[p] == a.counters[p]
    requires Nearer(b, c, p, n) && p != b.current
    ensures NoHigher(a, c) && c.counters[p] == a.counters[p]
    ensures c.current == p || (Waiting(c, p) && Ahead(c, p) + m + n <= Ahead(a, p))
  {
    hide Waiting, Ahead;
  }

  /** The current process has given up its slice in scene a, giving scene m. */
  ghost predicate SliceGone(a: Scene, m: Scene) {
    && m.algo == a.algo && m.idle == a.idle && m.current == a.current && m.ready == a.ready && m.signals == a.signals
    && m.priorities == a.priorities
    && m.counters == a.counters[a.current := 0]
  }

  lemma SliceOver(a: Scene)
    requires a.algo == Aging && a.current in a.counters && a.counters[a.current] <= 1
    ensures SliceGone(a, Ticked(a))
  {
    hide Ticked;
    TickedKeeps(a);
  }

  lemma SliceGiven(a: Scene, t: int)
    ensures SliceGone(a, BurstEnded(a, t))
  {
  }

  lemma SliceAside(a: Scene, s: State, t: int)
    ensures SliceGone(a, BurstEnded(Aside(a, s), t))
  {
  }

  /** Whenever the slice of the current process is gone and the aging policy picks, it becomes p's turn or p is nearer to it. */
  lemma TurnPicked(a: Scene, m: Scene, d: Decision, b: Scene, p: PCB)
    requires a.algo == Aging && Settled(a) && Waiting(a, p) && SliceGone(a, m) && Decided(m, d, b)
    ensures Nearer(a, b, p, 1)
  {
    hide Keep, Load, Aged, Distinct;
    TurnChoice(a, m, d, b, p);
    TurnNearer(d.c.q, d.c.left, d.c.next, m.counters, m.priorities, d.e, b.counters, p);
    LoadSame(a.ready, p, a.counters, m.counters);
    LoadBehind(a.ready, a.current, p, m.counters);
    if b.current != p {
      SparedOne(d.c.q, d.c.left, b.signals, p);
    }
  }

  lemma TurnChoice(a: Scene, m: Scene, d: Decision, b: Scene, p: PCB)
    requires a.algo == Aging && Settled(a) && Waiting(a, p) && SliceGone(a, m) && Decided(m, d, b)
    ensures Aged(d.c.q, d.c.left, d.c.next, m.counters, m.priorities, d.e, b.counters) && Spared(d.c.q, d.c.left, b.signals)
    ensures d.c.q == (if m.runnable then a.ready + [a.current] else a.ready) && Distinct(d.c.q) && b.ready == Keep(d.c.q, d.c.left)
    ensures p in d.c.q && (p in d.c.left || p == d.c.next) && forall x :: x in d.c.q ==> x in m.counters
    ensures d.c.next != null ==> d.c.next in d.c.q && b.current == d.c.next
  {
    hide Keep, Aged, Spared;
  }

  /** A tick that leaves the current process its CPU. */
  lemma TurnTicked(a: Scene, p: PCB)
    requires a.algo == Aging && Settled(a) && Waiting(a, p) && 1 < a.counters[a.current]
    ensures Nearer(a, Ticked(a), p, 1)
  {
    hide Distinct, Ticked;
    TickedKeeps(a);
    LoadSame(a.ready, p, a.counters, Ticked(a).counters);
  }

  lemma SparedOne(q: seq<PCB>, left: set<PCB>, g: map<PCB, set<nat>>, p: PCB)
    requires Spared(q, left, g) && p in q && p in left
    ensures p in g && Fate(g[p]) == Ready
  {
  }

  // ---------------------------------------------------------------- counters under priority aging

  function Cap(counter: int, priority: int): int {
    if counter < 2 * priority then 2 * priority - 1 else counter
  }

  /** No counter rose above its cap, whatever was recharged, and priorities stayed. */
  ghost predicate Tempered(a: Scene, b: Scene) {
    forall x :: x in a.counters && x in a.priorities && 1 <= a.priorities[x] ==>
      && x in b.counters && x in b.priorities
      && b.priorities[x] == a.priorities[x] && b.counters[x] <= Cap(a.counters[x], a.priorities[x])
  }

  lemma TemperedSame(a: Scene, b: Scene)
    requires a.counters.Keys <= b.counters.Keys && a.priorities.Keys <= b.priorities.Keys
    requires forall x :: x in a.counters ==> b.counters[x] == a.counters[x]
    requires forall x :: x in a.priorities ==> b.priorities[x] == a.priorities[x]
    ensures Tempered(a, b)
  {
  }

  lemma TemperedTwice(a: Scene, b: Scene, c: Scene)
    requires Tempered(a, b) && Tempered(b, c)
    ensures Tempered(a, c)
  {
  }

  lemma TemperedPick(a: Scene, m: Scene, d: Decision, b: Scene)
    requires a.algo == Aging && a.current in a.counters && SliceGone(a, m) && Decided(m, d, b)
    ensures Tempered(a, b)
  {
    hide ChoiceMade, Foremost, Exhausted, Keep, Spared;
    forall x | x in a.counters && x in a.priorities && 1 <= a.priorities[x]
      ensures x in b.counters && b.counters[x] <= Cap(a.counters[x], a.priorities[x])
    {
      EpochsBound(m.counters[x], a.priorities[x], d.e);
    }
  }

  lemma TemperedTick(a: Scene)
    requires a.algo == Aging && a.current in a.counters
    ensures Tempered(a, Ticked(a))
  {
    hide Ticked;
    TickedKeeps(a);
  }

  lemma TickTempers(a: Scene, d: Decision, b: Scene)
    requires a.algo == Aging && a.current in a.counters
    requires if a.counters[a.current] <= 1 then Decided(Ticked(a), d, b) else b == Ticked(a)
    ensures Tempered(a, b)
  {
    hide Ticked, Decided, SliceGone, Tempered;
    if a.counters[a.current] <= 1 {
      SliceOver(a);
      TemperedPick(a, Ticked(a), d, b);
    } else {
      TemperedTick(a);
    }
  }

  lemma TemperedExit(a: Scene, n: Scene, t: int, d: Decision, b: Scene)
    requires a.algo == Aging && a.current in a.counters && n == Died(a, n) && Decided(BurstEnded(n, t), d, b)
    ensures Tempered(a, b)
  {
    hide BurstEnded, Decided, SliceGone, Tempered;
    SliceGiven(n, t);
    TemperedPick(n, BurstEnded(n, t), d, b);
    TemperedSame(a, n);
    TemperedTwice(a, n, b);
  }

  // ---------------------------------------------------------------- what each event does

  /** A scene and the rest of what steps look at: the process table, and for whom each process waits, the ticks of its burst and its queue priority. */
  datatype World = World(scene: Scene, table: seq<PCB>, waits: map<PCB, int>, spent: map<PCB, int>, classes: map<PCB, int>)

  /** What was found out on the way: the decision of the policy, and for an exit the scene after it and the queues while the waiters joined them. */
  datatype Note = Note(d: Decision, n: Scene, lists: seq<seq<seq<PCB>>>)

  /** All queues of a scene: the levels, and behind them the ready queue. */
  ghost function AllLists(a: Scene): (r: seq<seq<PCB>>)
    ensures |r| == |a.levels| + 1
  {
    a.levels + [a.ready]
  }

  /** The number of the queue that process p belongs into. */
  ghost function Goal(a: Scene, p: PCB): int {
    if !InLevels(a.algo) then N_LEVELS else if p.pid < |a.level| then a.level[p.pid] else NOWHERE
  }

  ghost predicate InSome(lists: seq<seq<PCB>>, p: PCB) {
    exists k :: 0 <= k < |lists| && p in lists[k]
  }

  /** Process p is ready exactly when it is in a queue, and runs only if it has the CPU. */
  ghost predicate Fits(a: Scene, p: PCB) {
    && p in a.states && (p != a.idle ==> (a.states[p] == Ready <==> InSome(AllLists(a), p)))
    && (a.states[p] == Running ==> p == a.current)
  }

  /** Every map says something about exactly the processes in the table. */
  ghost predicate Keyed(a: World) {
    var s, all := a.scene, set p | p in a.table;
    && s.states.Keys == all && s.signals.Keys == all && s.counters.Keys == all && s.priorities.Keys == all && s.bursts.Keys == all
    && s.shares.Keys == all && a.waits.Keys == all && a.spent.Keys == all && a.classes.Keys == all
  }

  /** What holds between steps: every state follows from the queues and the CPU, and pids are places in the table. */
  ghost predicate Coherent(a: World) {
    && 0 <= a.scene.ticks < BOOST_PERIOD && |a.scene.levels| == N_LEVELS && 0 < |a.table| <= N_PROCESSES && a.table[0] == a.scene.idle
    && a.scene.current in a.table && a.scene.dest == Goal(a.scene, a.scene.current)
    && (forall i :: 0 <= i < |a.table| ==> a.table[i].pid == i)
    && Keyed(a) && (forall p :: p in a.table ==> Fits(a.scene, p))
    && (a.scene.current != a.scene.idle ==> a.scene.states[a.scene.current] == Running)
    && a.scene.runnable == (a.scene.current != a.scene.idle)
  }

  /** The world that the system starts in: the idle task alone, with counter and priority 1 and 10 tickets, and everything else empty or zero. */
  ghost predicate Begun(a: World) {
    var s := a.scene;
    && a.table == [s.idle] && s.current == s.idle && s.ready == [] && s.levels == [[], [], [], [], []] && s.ticks == 0 && s.rng == Seed()
    && s.states == map[s.idle := Boot] && s.signals == map[s.idle := {}] && s.counters == map[s.idle := 1] && s.priorities == map[s.idle := 1]
    && s.bursts == map[s.idle := 0] && s.shares == map[s.idle := 10] && s.level == seq(N_PROCESSES, _ => 0)
    && a.waits == map[s.idle := -1] && a.spent == map[s.idle := 0] && a.classes == map[s.idle := 0]
  }

  /** The active policy picked, and whoever was neither ready nor running stayed as it was. */
  ghost predicate Picked(a: Scene, d: Decision, b: Scene) {
    Steady(a.idle, a.states, b.states) && Decided(a, d, b)
  }

  /** The ticks that the current process has run for without blocking. */
  ghost function BurstOf(a: World): int {
    if a.scene.current in a.spent then a.spent[a.scene.current] else 0
  }

  /** The bursts after the current process of scene m gave up the CPU: that of a process that cannot run on is over. */
  ghost function SpentAfter(m: Scene, spent: map<PCB, int>): map<PCB, int> {
    if m.current == m.idle || m.current !in m.states || m.states[m.current] == Running || m.states[m.current] == Ready then spent
    else spent[m.current := 0]
  }

  /** From world a, with scene m when the current process gave up the CPU, the end of its burst and a pick led to world b. */
  ghost predicate GivenUp(a: World, m: Scene, d: Decision, b: World) {
    b.table == a.table && b.classes == a.classes && b.spent == SpentAfter(m, a.spent) && Picked(BurstEnded(m, BurstOf(a)), d, b.scene)
  }

  /** Whether the next tick takes the CPU away: the slice ends, and the policy is neither first come, first served nor shortest job first. */
  ghost predicate SliceEnds(a: Scene) {
    a.algo != Fcfs && a.algo != Sjf && (a.current in a.counters ==> a.counters[a.current] <= 1)
  }

  ghost predicate TickDone(a: World, d: Decision, b: World) {
    && b.table == a.table && b.waits == a.waits && b.classes == a.classes && b.spent == a.spent[a.scene.current := BurstOf(a) + 1]
    && if SliceEnds(a.scene) then Picked(Ticked(a.scene), d, b.scene) else b.scene == Ticked(a.scene)
  }

  ghost predicate YieldDone(a: World, d: Decision, b: World) {
    b.waits == a.waits && GivenUp(a, a.scene, d, b)
  }

  /** The process with a pid is registered and in state s. */
  ghost predicate HasState(a: World, pid: int, s: set<State>) {
    0 <= pid < |a.table| && a.table[pid] in a.scene.states && a.scene.states[a.table[pid]] in s
  }

  ghost predicate WaitDone(a: World, pid: int, d: Decision, b: World) {
    if a.scene.current == a.scene.idle || !(0 <= pid < |a.table|) || HasState(a, pid, {Zombie}) then b == a
    else b.waits == a.waits[a.scene.current := pid] && GivenUp(a, Aside(a.scene, WaitingProcess), d, b)
  }

  ghost predicate BlockDone(a: World, on: State, d: Decision, b: World) {
    if a.scene.current == a.scene.idle || !(on == WaitingUart || on == WaitingSend || on == WaitingReceive) then b == a
    else b.waits == a.waits && GivenUp(a, Aside(a.scene, on), d, b)
  }

  /** The processes that wait for the current one. */
  ghost function WaitersOf(a: World): set<PCB> {
    set p | p in a.table && p in a.scene.states && p in a.waits && a.scene.states[p] == WaitingProcess && a.waits[p] == a.scene.current.pid
  }

  /** What the queues were, up to l, while those of the first n processes that are in woken joined theirs, in the order of the table. */
  ghost predicate Rejoining(a: World, woken: set<PCB>, lists: seq<seq<seq<PCB>>>, n: nat, l: seq<seq<PCB>>) {
    && n <= |a.table| && |lists| == n + 1 && lists[0] == AllLists(a.scene) && lists[n] == l
    && forall i :: 0 <= i < n ==> RejoinedAt(a, woken, a.table[i], lists[i], lists[i + 1])
  }

  ghost predicate RejoinedAt(a: World, woken: set<PCB>, p: PCB, l: seq<seq<PCB>>, l': seq<seq<PCB>>) {
    if p in woken && p != a.scene.idle then Joined(a.scene.algo, l, Goal(a.scene, p), p, l', a.scene.bursts) else l' == l
  }

  /** In scene n the current process of a has ended, and its waiters are ready and have joined their queues. */
  ghost predicate Ended(a: World, n: Scene, lists: seq<seq<seq<PCB>>>) {
    && EndedIn(a.scene, n, a.scene.current, WaitersOf(a))
    && Rejoining(a, WaitersOf(a), lists, |a.table|, AllLists(n))
  }

  ghost predicate ExitDone(a: World, w: Note, b: World) {
    if a.scene.current == a.scene.idle then b == a
    else
      && b.waits == (map p | p in a.waits :: if p in WaitersOf(a) then -1 else a.waits[p])
      && Ended(a, w.n, w.lists) && GivenUp(a, w.n, w.d, b)
  }

  /** World a after the current process got a child c, with the queues of scene n. */
  ghost function WithChild(a: World, c: PCB, n: Scene): World
    requires a.scene.current in a.scene.priorities && a.scene.current in a.scene.bursts && a.scene.current in a.scene.shares
    requires a.scene.current in a.classes && c.pid < |a.scene.level|
  {
    var s, me := a.scene, a.scene.current;
    World(s.(states := s.states[c := Ready], signals := s.signals[c := {}], counters := s.counters[c := 10],
             priorities := s.priorities[c := s.priorities[me]], bursts := s.bursts[c := s.bursts[me]], shares := s.shares[c := s.shares[me]],
             level := s.level[c.pid := StartLevel(a.classes[me])], ready := n.ready, levels := n.levels),
          a.table + [c], a.waits[c := -1], a.spent[c := 0], a.classes[c := a.classes[me]])
  }

  /** A child c has the next pid and what it takes over from its parent, and it is put into the queue that it belongs into. */
  ghost predicate ChildAdded(a: World, c: PCB, b: World) {
    && c.pid == |a.table| < |a.scene.level| && c !in a.table
    && a.scene.current in a.scene.priorities && a.scene.current in a.scene.bursts && a.scene.current in a.scene.shares && a.scene.current in a.classes
    && b == WithChild(a, c, b.scene) && Joined(a.scene.algo, AllLists(a.scene), Goal(b.scene, c), c, AllLists(b.scene), b.scene.bursts)
  }

  ghost predicate ForkDone(a: World, b: World) {
    if |a.table| >= 64 then b == a else |b.table| == |a.table| + 1 && ChildAdded(a, b.table[|a.table|], b)
  }

  ghost predicate SignalDone(a: World, pid: int, signal: nat, b: World) {
    if 0 <= pid < |a.table| && a.table[pid] in a.scene.signals then
      b == a.(scene := a.scene.(signals := a.scene.signals[a.table[pid] := a.scene.signals[a.table[pid]] + {signal}]))
    else b == a
  }

  /** Scene a with process p ready and the queues of scene b. */
  ghost function Roused(a: Scene, p: PCB, b: Scene): Scene {
    a.(states := a.states[p := Ready], ready := b.ready, levels := b.levels)
  }

  ghost predicate WakeDone(a: World, pid: int, b: World) {
    if 0 < pid && HasState(a, pid, {WaitingUart, WaitingSend, WaitingReceive}) then
      && b == a.(scene := Roused(a.scene, a.table[pid], b.scene))
      && Joined(a.scene.algo, AllLists(a.scene), Goal(a.scene, a.table[pid]), a.table[pid], AllLists(b.scene), a.scene.bursts)
    else b == a
  }

  ghost predicate SetDone(a: World, pid: int, param: Param, value: int, b: World) {
    if !(0 < pid < |a.table|) || !(if param == QueuePriority then 0 <= value < N_LEVELS else 1 <= value) then b == a
    else
      var s, p := a.scene, a.table[pid];
      match param
      case Priority => b == a.(scene := s.(priorities := s.priorities[p := value]))
      case TicketCount => b == a.(scene := s.(shares := s.shares[p := value]))
      case QueuePriority =>
        && pid < |s.level| && b.classes == a.classes[p := value]
        && b == a.(classes := b.classes, scene := s.(level := s.level[pid := value], dest := b.scene.dest))
  }

  /** Everything that event e makes of world a. */
  ghost predicate Followed(a: World, e: Event, w: Note, b: World) {
    && Coherent(a) && Coherent(b)
    && match e
       case Tick => TickDone(a, w.d, b)
       case Yield => YieldDone(a, w.d, b)
       case Wait(pid) => WaitDone(a, pid, w.d, b)
       case Exit => ExitDone(a, w, b)
       case Fork => ForkDone(a, b)
       case Signal(pid, signal) => SignalDone(a, pid, signal, b)
       case Block(on) => BlockDone(a, on, w.d, b)
       case Wake(pid) => WakeDone(a, pid, b)
       case SetParam(pid, param, value) => SetDone(a, pid, param, value, b)
  }

  /** The queue of the current process follows from the levels. */
  lemma CoherentDest(a: World, b: World)
    requires Coherent(a) && Coherent(b)
    ensures a.scene.dest == Goal(a.scene, a.scene.current) && b.scene.dest == Goal(b.scene, b.scene.current)
    ensures a.scene.current.pid < |a.table| && a.scene.runnable == (a.scene.current != a.scene.idle) && b.scene.runnable == (b.scene.current != b.scene.idle)
  {
    hide Fits, Keyed, Goal;
  }

  lemma WaitGone(a: World, pid: int, d: Decision, b: World)
    requires a.scene.current != a.scene.idle && 0 <= pid < |a.table| && !HasState(a, pid, {Zombie})
    requires b.waits == a.waits[a.scene.current := pid] && GivenUp(a, Aside(a.scene, WaitingProcess), d, b)
    ensures WaitDone(a, pid, d, b)
  {
    hide GivenUp;
  }

  lemma WaitSame(a: World, pid: int, d: Decision)
    requires !(0 <= pid < |a.table|) || HasState(a, pid, {Zombie})
    ensures WaitDone(a, pid, d, a)
  {
  }

  lemma AsideKeeps(a: Scene, s: State)
    ensures Aside(a, s).idle == a.idle
  {
  }

  lemma EndedIdle(a: World, n: Scene, lists: seq<seq<seq<PCB>>>)
    requires Ended(a, n, lists)
    ensures n.idle == a.scene.idle && n.current == a.scene.current
  {
    hide Rejoining, WaitersOf;
  }

  lemma GoalKept(a: Scene, b: Scene, p: PCB, k: nat, level: int)
    requires b.algo == a.algo && k < |a.level| && b.level == a.level[k := level] && p.pid != k
    ensures Goal(b, p) == Goal(a, p)
  {
  }

  lemma GoalSame(a: Scene, b: Scene, p: PCB)
    requires b.algo == a.algo && b.level == a.level
    ensures Goal(b, p) == Goal(a, p)
  {
  }

  lemma MapGrown<T(!new)>(m: map<PCB, T>, m': map<PCB, T>, s: seq<PCB>, c: PCB)
    requires m.Keys == (set p | p in s) && m'.Keys == (set p | p in s + [c]) && c !in s
    requires forall x :: x in s ==> m'[x] == m[x]
    ensures m' == m[c := m'[c]]
  {
  }

  /** The worlds say the same about process x. */
  ghost predicate SameAbout(a: World, b: World, x: PCB)
    requires Keyed(a) && Keyed(b) && x in a.table && x in b.table
  {
    && b.scene.states[x] == a.scene.states[x] && b.scene.signals[x] == a.scene.signals[x] && b.scene.counters[x] == a.scene.counters[x]
    && b.scene.priorities[x] == a.scene.priorities[x] && b.scene.bursts[x] == a.scene.bursts[x] && b.scene.shares[x] == a.scene.shares[x]
    && b.waits[x] == a.waits[x] && b.spent[x] == a.spent[x] && b.classes[x] == a.classes[x]
  }

  /** The maps of a world with one more process. */
  lemma WorldGrown(a: World, b: World, c: PCB)
    requires Keyed(a) && Keyed(b) && b.table == a.table + [c] && c !in a.table && forall x :: x in a.table ==> SameAbout(a, b, x)
    ensures b.scene.states == a.scene.states[c := b.scene.states[c]] && b.scene.signals == a.scene.signals[c := b.scene.signals[c]]
    ensures b.scene.counters == a.scene.counters[c := b.scene.counters[c]] && b.scene.priorities == a.scene.priorities[c := b.scene.priorities[c]]
    ensures b.scene.bursts == a.scene.bursts[c := b.scene.bursts[c]] && b.scene.shares == a.scene.shares[c := b.scene.shares[c]]
    ensures b.waits == a.waits[c := b.waits[c]] && b.spent == a.spent[c := b.spent[c]] && b.classes == a.classes[c := b.classes[c]]
  {
    MapGrown(a.scene.states, b.scene.states, a.table, c);
    MapGrown(a.scene.signals, b.scene.signals, a.table, c);
    MapGrown(a.scene.counters, b.scene.counters, a.table, c);
    MapGrown(a.scene.priorities, b.scene.priorities, a.table, c);
    MapGrown(a.scene.bursts, b.scene.bursts, a.table, c);
    MapGrown(a.scene.shares, b.scene.shares, a.table, c);
    MapGrown(a.waits, b.waits, a.table, c);
    MapGrown(a.spent, b.spent, a.table, c);
    MapGrown(a.classes, b.classes, a.table, c);
  }

  /** Events that have no effect: calls of the idle task, a fork when the table is full, and calls that name no process or no way to block. */
  ghost predicate Ineffective(a: World, e: Event) {
    match e
    case Wait(_) => a.scene.current == a.scene.idle
    case Exit => a.scene.current == a.scene.idle
    case Block(on) => a.scene.current == a.scene.idle || !(on == WaitingUart || on == WaitingSend || on == WaitingReceive)
    case Fork => |a.table| >= N_PROCESSES
    case Wake(pid) => !(0 < pid < |a.table|)
    case SetParam(pid, _, _) => !(0 <= pid < |a.table|)
    case _ => false
  }

  lemma NothingDone(a: World, e: Event, w: Note)
    requires Coherent(a)
    ensures Ineffective(a, e) ==> Followed(a, e, w, a)
  {
    hide Coherent, GivenUp, WaitersOf, Ended, ChildAdded, Joined, TickDone, YieldDone, SignalDone;
  }

  lemma Alone<T>(m: map<PCB, T>, p: PCB)
    requires m.Keys == {p}
    ensures m == map[p := m[p]]
  {
  }

  /** The maps of a world with one process. */
  lemma WorldAlone(a: World, p: PCB)
    requires Keyed(a) && a.table == [p]
    ensures a.scene.states == map[p := a.scene.states[p]] && a.scene.signals == map[p := a.scene.signals[p]]
    ensures a.scene.counters == map[p := a.scene.counters[p]] && a.scene.priorities == map[p := a.scene.priorities[p]]
    ensures a.scene.bursts == map[p := a.scene.bursts[p]] && a.scene.shares == map[p := a.scene.shares[p]]
    ensures a.waits == map[p := a.waits[p]] && a.spent == map[p := a.spent[p]] && a.classes == map[p := a.classes[p]]
  {
    assert (set x | x in a.table) == {p};
    Alone(a.scene.states, p);
    Alone(a.scene.signals, p);
    Alone(a.scene.counters, p);
    Alone(a.scene.priorities, p);
    Alone(a.scene.bursts, p);
    Alone(a.scene.shares, p);
    Alone(a.waits, p);
    Alone(a.spent, p);
    Alone(a.classes, p);
  }

  // ---------------------------------------------------------------- runs

  predicate Kills(e: Event) {
    e.Signal? && e.signal == KILL
  }

  predicate Moves(e: Event) {
    e.SetParam? && e.param == QueuePriority
  }

  lemma RejoiningNone(a: World, woken: set<PCB>)
    ensures Rejoining(a, woken, [AllLists(a.scene)], 0, AllLists(a.scene))
  {
  }

  lemma RejoiningMore(a: World, woken: set<PCB>, lists: seq<seq<seq<PCB>>>, n: nat, l: seq<seq<PCB>>, l': seq<seq<PCB>>)
    requires n < |a.table| && Rejoining(a, woken, lists, n, l) && RejoinedAt(a, woken, a.table[n], l, l')
    ensures Rejoining(a, woken, lists + [l'], n + 1, l')
  {
    hide RejoinedAt, AllLists;
  }

  lemma PickKeeps(a: Scene, d: Decision, b: Scene)
    requires Picked(a, d, b)
    ensures b.algo == a.algo && b.idle == a.idle && b.ticks == a.ticks && b.level == a.level
  {
  }

  /** Giving up the CPU counts no tick. */
  lemma GivenUpTicks(a: World, m: Scene, d: Decision, b: World)
    requires GivenUp(a, m, d, b)
    ensures b.scene.ticks == m.ticks && b.scene.algo == m.algo && b.scene.idle == m.idle
  {
    hide Picked;
    PickKeeps(BurstEnded(m, BurstOf(a)), d, b.scene);
  }

  lemma TickDoneTicks(a: World, d: Decision, b: World)
    requires TickDone(a, d, b)
    ensures b.scene.algo == a.scene.algo && b.scene.idle == a.scene.idle && b.scene.ticks == Ticked(a.scene).ticks && b.scene.level == Ticked(a.scene).level
  {
    hide Picked, Ticked;
    TickedKeeps(a.scene);
    if SliceEnds(a.scene) {
      PickKeeps(Ticked(a.scene), d, b.scene);
    }
  }

  lemma LeftTicks(a: World, e: Event, w: Note, b: World)
    requires Followed(a, e, w, b) && (e.Yield? || e.Wait? || e.Block? || e.Exit?)
    ensures b.scene.algo == a.scene.algo && b.scene.idle == a.scene.idle && b.scene.ticks == a.scene.ticks
  {
    hide GivenUp, Coherent, Rejoining, WaitersOf, SetDone, WakeDone, SignalDone, ForkDone, TickDone;
    match e
    case Yield => GivenUpTicks(a, a.scene, w.d, b);
    case Wait(_) => if b != a { GivenUpTicks(a, Aside(a.scene, WaitingProcess), w.d, b); }
    case Block(on) => if b != a { GivenUpTicks(a, Aside(a.scene, on), w.d, b); }
    case Exit => if a.scene.current != a.scene.idle { GivenUpTicks(a, w.n, w.d, b); }
  }

  lemma ForkTicks(a: World, b: World)
    requires ForkDone(a, b)
    ensures b.scene.algo == a.scene.algo && b.scene.idle == a.scene.idle && b.scene.ticks == a.scene.ticks
  {
    hide Joined, AllLists, Goal;
  }

  lemma SignalTicks(a: World, pid: int, signal: nat, b: World)
    requires SignalDone(a, pid, signal, b)
    ensures b.scene.algo == a.scene.algo && b.scene.idle == a.scene.idle && b.scene.ticks == a.scene.ticks
  {
  }

  lemma WakeTicks(a: World, pid: int, b: World)
    requires WakeDone(a, pid, b)
    ensures b.scene.algo == a.scene.algo && b.scene.idle == a.scene.idle && b.scene.ticks == a.scene.ticks
  {
    hide Joined, AllLists, Goal, HasState;
  }

  lemma SetTicks(a: World, pid: int, param: Param, value: int, b: World)
    requires SetDone(a, pid, param, value, b)
    ensures b.scene.algo == a.scene.algo && b.scene.idle == a.scene.idle && b.scene.ticks == a.scene.ticks
  {
  }

  lemma ChangedTicks(a: World, e: Event, w: Note, b: World)
    requires Followed(a, e, w, b) && (e.Fork? || e.Signal? || e.Wake? || e.SetParam?)
    ensures b.scene.algo == a.scene.algo && b.scene.idle == a.scene.idle && b.scene.ticks == a.scene.ticks
  {
    hide Coherent, SetDone, WakeDone, SignalDone, ForkDone, ExitDone, BlockDone, WaitDone, YieldDone, TickDone;
    match e
    case Fork => ForkTicks(a, b);
    case Signal(pid, signal) => SignalTicks(a, pid, signal, b);
    case Wake(pid) => WakeTicks(a, pid, b);
    case SetParam(pid, param, value) => SetTicks(a, pid, param, value, b);
  }

  /** Only a tick changes the tick count, and picking changes neither that nor a level. */
  lemma FollowedTicks(a: World, e: Event, w: Note, b: World)
    requires Followed(a, e, w, b)
    ensures 0 <= a.scene.ticks < BOOST_PERIOD && 0 <= b.scene.ticks < BOOST_PERIOD && b.scene.algo == a.scene.algo && b.scene.idle == a.scene.idle
    ensures b.scene.ticks == (if e == Event.Tick then Ticked(a.scene) else a.scene).ticks
    ensures e == Event.Tick ==> b.scene.level == Ticked(a.scene).level
  {
    hide Ticked, TickDone, Fits, ExitDone, BlockDone, WaitDone, YieldDone, SetDone, WakeDone, SignalDone, ForkDone;
    if e == Event.Tick {
      TickDoneTicks(a, w.d, b);
    } else if e.Yield? || e.Wait? || e.Block? || e.Exit? {
      LeftTicks(a, e, w, b);
    } else {
      ChangedTicks(a, e, w, b);
    }
  }

  lemma CurrentKeyed(a: World)
    requires Coherent(a)
    ensures a.scene.current in a.table && a.scene.current in a.scene.counters && a.scene.counters.Keys == a.scene.priorities.Keys == set p | p in a.table
  {
    hide Fits, AllLists, Goal;
  }

  lemma TemperedLeft(a: World, m: Scene, d: Decision, b: World)
    requires a.scene.algo == Aging && a.scene.current in a.scene.counters && SliceGone(a.scene, BurstEnded(m, BurstOf(a))) && GivenUp(a, m, d, b)
    ensures Tempered(a.scene, b.scene)
  {
    hide Tempered, Decided, BurstEnded, SliceGone;
    TemperedPick(a.scene, BurstEnded(m, BurstOf(a)), d, b.scene);
  }

  lemma TemperedTicked(a: World, d: Decision, b: World)
    requires a.scene.algo == Aging && a.scene.current in a.scene.counters && TickDone(a, d, b)
    ensures Tempered(a.scene, b.scene)
  {
    hide Tempered, Decided, Ticked;
    TickTempers(a.scene, d, b.scene);
  }

  lemma TemperedEnded(a: World, w: Note, b: World)
    requires a.scene.algo == Aging && a.scene.current in a.scene.counters && ExitDone(a, w, b)
    ensures Tempered(a.scene, b.scene)
  {
    hide Tempered, Decided, BurstEnded, Rejoining, WaitersOf;
    if a.scene.current == a.scene.idle {
      TemperedSame(a.scene, b.scene);
    } else {
      TemperedExit(a.scene, w.n, BurstOf(a), w.d, b.scene);
    }
  }

  lemma TemperedGrown(a: World, b: World)
    requires ForkDone(a, b) && a.scene.counters.Keys == a.scene.priorities.Keys == set p | p in a.table
    ensures Tempered(a.scene, b.scene)
  {
    hide Joined, AllLists, Goal;
    TemperedSame(a.scene, b.scene);
  }

  lemma TemperedWoken(a: World, pid: int, b: World)
    requires WakeDone(a, pid, b)
    ensures Tempered(a.scene, b.scene)
  {
    hide Joined, AllLists, Goal, HasState;
    TemperedSame(a.scene, b.scene);
  }

  lemma TemperedSignalled(a: World, pid: int, signal: nat, b: World)
    requires SignalDone(a, pid, signal, b)
    ensures Tempered(a.scene, b.scene)
  {
    TemperedSame(a.scene, b.scene);
  }

  /** Under the aging policy no event but the setting of a parameter lifts a counter above its cap. */
  lemma TemperedFollowed(a: World, e: Event, w: Note, b: World)
    requires Followed(a, e, w, b) && a.scene.algo == Aging && !e.SetParam?
    ensures Tempered(a.scene, b.scene)
  {
    hide Coherent, Tempered, GivenUp, SliceGone, BurstEnded, Aside, WakeDone, SignalDone, ForkDone, ExitDone, TickDone, HasState;
    CurrentKeyed(a);
    TemperedSame(a.scene, a.scene);
    match e
    case Tick => TemperedTicked(a, w.d, b);
    case Yield => SliceGiven(a.scene, BurstOf(a)); TemperedLeft(a, a.scene, w.d, b);
    case Wait(_) => if b != a { SliceAside(a.scene, WaitingProcess, BurstOf(a)); TemperedLeft(a, Aside(a.scene, WaitingProcess), w.d, b); }
    case Block(on) => if b != a { SliceAside(a.scene, on, BurstOf(a)); TemperedLeft(a, Aside(a.scene, on), w.d, b); }
    case Exit => TemperedEnded(a, w, b);
    case Fork => TemperedGrown(a, b);
    case Signal(pid, signal) => TemperedSignalled(a, pid, signal, b);
    case Wake(pid) => TemperedWoken(a, pid, b);
  }

  /** An event that brings nobody into the ready queue, unless it ends a process with waiters, and sends p no signal. */
  predicate Quiet(e: Event, p: PCB) {
    match e
    case Signal(pid, _) => pid != p.pid
    case Fork => false
    case Wake(_) => false
    case SetParam(_, _, _) => false
    case _ => true
  }

  lemma NearerLeft(a: World, m: Scene, d: Decision, b: World, p: PCB)
    requires a.scene.algo == Aging && Settled(a.scene) && Waiting(a.scene, p) && SliceGone(a.scene, BurstEnded(m, BurstOf(a))) && GivenUp(a, m, d, b)
    ensures Nearer(a.scene, b.scene, p, 1) && Nearer(a.scene, b.scene, p, 0)
  {
    hide Settled, Waiting, Nearer, Decided, BurstEnded, SliceGone;
    TurnPicked(a.scene, BurstEnded(m, BurstOf(a)), d, b.scene, p);
    NearerAnyway(a.scene, b.scene, p);
  }

  lemma NearerTicked(a: World, d: Decision, b: World, p: PCB)
    requires a.scene.algo == Aging && Settled(a.scene) && Waiting(a.scene, p) && TickDone(a, d, b)
    ensures Nearer(a.scene, b.scene, p, 1)
  {
    hide Settled, Waiting, Nearer, Decided, Ticked, SliceGone;
    SettledMeans(a.scene);
    if SliceEnds(a.scene) {
      SliceOver(a.scene);
      TurnPicked(a.scene, Ticked(a.scene), d, b.scene, p);
    } else {
      TurnTicked(a.scene, p);
    }
  }

  /** Nobody joins a queue when nobody is woken. */
  lemma {:induction false} NobodyJoins(a: World, lists: seq<seq<seq<PCB>>>, i: nat, l: seq<seq<PCB>>)
    requires Rejoining(a, {}, lists, |a.table|, l) && i <= |a.table|
    ensures lists[i] == AllLists(a.scene)
  {
    hide Joined;
    if i > 0 {
      NobodyJoins(a, lists, i - 1, l);
      assert RejoinedAt(a, {}, a.table[i - 1], lists[i - 1], lists[i]);
    }
  }

  lemma AllListsGive(a: Scene, b: Scene)
    requires AllLists(a) == AllLists(b)
    ensures a.levels == b.levels && a.ready == b.ready
  {
    assert a.levels == AllLists(a)[..|a.levels|] && b.levels == AllLists(b)[..|b.levels|];
    assert AllLists(a)[|a.levels|] == a.ready && AllLists(b)[|b.levels|] == b.ready;
  }

  lemma NobodyWoken(a: World, n: Scene, lists: seq<seq<seq<PCB>>>)
    requires Ended(a, n, lists) && WaitersOf(a) == {} && a.scene.current in a.scene.states
    ensures n == Aside(a.scene, Zombie)
  {
    hide AllLists, WaitersOf, RejoinedAt;
    NobodyJoins(a, lists, |a.table|, AllLists(n));
    AllListsGive(a.scene, n);
    assert n.states == a.scene.states[a.scene.current := Zombie];
  }

  lemma NearerEnded(a: World, w: Note, b: World, p: PCB)
    requires a.scene.algo == Aging && Settled(a.scene) && Waiting(a.scene, p) && ExitDone(a, w, b) && WaitersOf(a) == {}
    requires a.scene.current in a.scene.states
    ensures Nearer(a.scene, b.scene, p, 0)
  {
    hide Settled, Waiting, Nearer, GivenUp, Ended, BurstEnded, Aside, WaitersOf, SliceGone;
    if a.scene.current == a.scene.idle {
      NearerSame(a.scene, p);
    } else {
      NobodyWoken(a, w.n, w.lists);
      SliceAside(a.scene, Zombie, BurstOf(a));
      NearerLeft(a, w.n, w.d, b, p);
    }
  }

  lemma NearerSignalled(a: World, pid: int, signal: nat, b: World, p: PCB)
    requires Settled(a.scene) && Waiting(a.scene, p) && SignalDone(a, pid, signal, b) && pid != p.pid
    requires forall i :: 0 <= i < |a.table| ==> a.table[i].pid == i
    ensures Nearer(a.scene, b.scene, p, 0)
  {
    hide Settled, Nearer;
    NearerSame(a.scene, p);
    if b != a {
      NearerSignals(a.scene, b.scene.signals, p);
    }
  }

  lemma CoherentMeans(a: World)
    requires Coherent(a)
    ensures a.scene.current in a.scene.states && forall i :: 0 <= i < |a.table| ==> a.table[i].pid == i
  {
    hide Fits, AllLists, Goal;
  }

  /** One quiet event while p waits: it becomes p's turn, or p comes no further from it, and nearer with every tick. */
  lemma NearerFollowed(a: World, e: Event, w: Note, b: World, p: PCB)
    requires Followed(a, e, w, b) && a.scene.algo == Aging && Settled(a.scene) && Waiting(a.scene, p)
    requires Quiet(e, p) && (e == Event.Exit ==> WaitersOf(a) == {})
    ensures Nearer(a.scene, b.scene, p, if e == Event.Tick then 1 else 0)
  {
    hide Coherent, Settled, Waiting, Nearer, GivenUp, SliceGone, BurstEnded, Aside, SignalDone, ExitDone, TickDone, HasState, WaitersOf;
    CoherentMeans(a);
    NearerSame(a.scene, p);
    match e
    case Tick => NearerTicked(a, w.d, b, p);
    case Yield => SliceGiven(a.scene, BurstOf(a)); NearerLeft(a, a.scene, w.d, b, p);
    case Wait(_) => if b != a { SliceAside(a.scene, WaitingProcess, BurstOf(a)); NearerLeft(a, Aside(a.scene, WaitingProcess), w.d, b, p); }
    case Block(on) => if b != a { SliceAside(a.scene, on, BurstOf(a)); NearerLeft(a, Aside(a.scene, on), w.d, b, p); }
    case Exit => NearerEnded(a, w, b, p);
    case Signal(pid, signal) => NearerSignalled(a, pid, signal, b, p);
  }

  /** A run: the worlds before each event and at the end, and what was noted at each event. */
  datatype History = History(worlds: seq<World>, notes: seq<Note>)

  ghost predicate Trace(algo: Algorithm, h: History, events: seq<Event>) {
    && |h.worlds| == |events| + 1 == |h.notes| + 1 && h.worlds[0].scene.algo == algo
    && forall i :: 0 <= i < |events| ==> Followed(h.worlds[i], events[i], h.notes[i], h.worlds[i + 1])
  }

  lemma {:induction false} TraceAlgo(algo: Algorithm, h: History, events: seq<Event>, i: nat)
    requires Trace(algo, h, events) && i <= |events|
    ensures h.worlds[i].scene.algo == algo
  {
    hide Followed;
    if i > 0 {
      TraceAlgo(algo, h, events, i - 1);
      FollowedTicks(h.worlds[i - 1], events[i - 1], h.notes[i - 1], h.worlds[i]);
    }
  }

  ghost function Ticks(events: seq<Event>): nat {
    if events == [] then 0 else Ticks(events[..|events| - 1]) + if events[|events| - 1] == Event.Tick then 1 else 0
  }

  lemma TicksNone(events: seq<Event>)
    requires events == []
    ensures Ticks(events) == 0
  {
  }

  lemma TicksLast(events: seq<Event>)
    requires events != []
    ensures Ticks(events) == Ticks(events[..|events| - 1]) + if events[|events| - 1] == Event.Tick then 1 else 0
  {
  }

  lemma TickMore(events: seq<Event>, n: nat)
    requires n < |events|
    ensures Ticks(events[..n + 1]) == Ticks(events[..n]) + if events[n] == Event.Tick then 1 else 0
  {
    assert events[..n + 1][..n] == events[..n];
  }

  /** Every level entry is 0, except that the process with the given pid may have been demoted once. */
  ghost predicate AllTop(level: seq<int>, pid: nat) {
    |level| == N_PROCESSES && forall k :: 0 <= k < N_PROCESSES ==> level[k] == 0 || (k == pid && level[k] == 1)
  }

  /** Event n is a tick that boosts, and after it every level is the highest. */
  ghost predicate BoostedAt(h: History, events: seq<Event>, n: nat) {
    && n < |events| && n + 1 < |h.worlds| && events[n] == Event.Tick && BoostDue(h.worlds[n].scene)
    && h.worlds[n + 1].scene.ticks == 0 && AllTop(h.worlds[n + 1].scene.level, h.worlds[n].scene.current.pid)
  }

  lemma BoostsAt(h: History, events: seq<Event>, n: nat)
    requires Trace(Mlfq, h, events) && n < |events| && events[n] == Event.Tick && BoostDue(h.worlds[n].scene)
    ensures BoostedAt(h, events, n)
  {
    hide Followed;
    FollowedTicks(h.worlds[n], events[n], h.notes[n], h.worlds[n + 1]);
  }

  lemma {:induction false} TicksAddUp(h: History, events: seq<Event>, i: nat, j: nat)
    requires Trace(Mlfq, h, events) && i <= j <= |events|
    requires forall n :: i <= n < j ==> !BoostedAt(h, events, n)
    ensures h.worlds[j].scene.ticks == h.worlds[i].scene.ticks + Ticks(events[i..j])
    decreases j
  {
    hide BoostedAt, Ticks, Followed;
    if i == j {
      TicksNone(events[i..j]);
    } else {
      TicksAddUp(h, events, i, j - 1);
      assert events[i..j][..j - 1 - i] == events[i..j - 1];
      TicksLast(events[i..j]);
      FollowedTicks(h.worlds[j - 1], events[j - 1], h.notes[j - 1], h.worlds[j]);
      TraceAlgo(Mlfq, h, events, j - 1);
      if events[j - 1] == Event.Tick && BoostDue(h.worlds[j - 1].scene) {
        BoostsAt(h, events, j - 1);
      }
    }
  }

  lemma NoBoostFewTicks(h: History, events: seq<Event>, i: nat, j: nat)
    requires Trace(Mlfq, h, events) && i < j <= |events|
    requires forall n :: i <= n < j ==> !BoostedAt(h, events, n)
    ensures Ticks(events[i..j]) < BOOST_PERIOD
  {
    hide BoostedAt, Ticks, Followed;
    TicksAddUp(h, events, i, j);
    FollowedTicks(h.worlds[i], events[i], h.notes[i], h.worlds[i + 1]);
    FollowedTicks(h.worlds[j - 1], events[j - 1], h.notes[j - 1], h.worlds[j]);
  }

  /** In any run of the feedback policy, any stretch with as many ticks as the boost period has a boost in it. */
  lemma BoostComes(h: History, events: seq<Event>, i: nat, j: nat)
    requires Trace(Mlfq, h, events) && i < j <= |events| && 300 <= Ticks(events[i..j])
    ensures exists n :: i <= n < j && BoostedAt(h, events, n)
  {
    hide BoostedAt, Ticks, Trace;
    if forall n :: i <= n < j ==> !BoostedAt(h, events, n) {
      NoBoostFewTicks(h, events, i, j);
    }
  }
}
