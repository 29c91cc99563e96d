/** The scheduler: process table, ready queues, policies and the steps of the process state machine. */
module Scheduling {
  import opened Queues
  import opened Policies
  import opened Snapshots
  import opened Scenes

  const QUEUES := 6
  const READY_QUEUE := 5    // the queues below are the levels of the multilevel policies

  method EmptyQueues() returns (s: seq<ProcessQueue>)
    ensures |s| == QUEUES && (forall i, j :: 0 <= i < j < QUEUES ==> s[i] != s[j])
    ensures forall i :: 0 <= i < QUEUES ==> fresh(s[i]) && s[i].Valid() && s[i].nodes == []
  {
    s := [];
    while |s| < QUEUES
      invariant |s| <= QUEUES && (forall i, j :: 0 <= i < j < |s| ==> s[i] != s[j])
      invariant forall i :: 0 <= i < |s| ==> fresh(s[i]) && s[i].Valid() && s[i].nodes == []
    {
      var q := new ProcessQueue();
      s := s + [q];
    }
  }

  class Scheduler {
    const algo: Algorithm
    const init: PCB
    var current: PCB
    // The registered processes; a process sits at the index that is its pid.
    var processes: seq<PCB>
    const queues: seq<ProcessQueue>
    const queueLevel: array<int>
    var ticksSinceBoost: int
    var rngState: Word
    // A kill signal was sent, a queue priority was set by hand.
    ghost var killed: bool
    ghost var moved: bool

    /** The idle task alone, and empty queues. */
    constructor (algo: Algorithm)
      ensures Valid() && fresh(queues) && fresh(processes) && fresh(queueLevel)
      ensures this.algo == algo && current == init && processes == [init] && !killed && !moved
      ensures |queues| == QUEUES && Begun(Here())
    {
      this.algo := algo;
      var idle := new PCB(0, Boot, 1, 1, 0, 0, 10, 0);
      init, current, processes := idle, idle, [idle];
      var empty := EmptyQueues();
      queues := empty;
      queueLevel := new int[N_PROCESSES](_ => 0);
      ticksSinceBoost, rngState, killed, moved := 0, Seed(), false, false;
      new;
      hide *;
      Start();
    }

    lemma Start()
      requires processes == [init] && current == init && init.home == NOWHERE && init.state == Boot && init.counter == 1 && init.priority == 1 && init.pid == 0
      requires init.preemptDisabled == 0 && init.pending == {} && init.tickets == 10 && init.estBurst == 0
      requires init.pidToWait == -1 && init.burstTicks == 0 && init.queuePriority == 0 && ticksSinceBoost == 0 && rngState == Seed()
      requires |queues| == QUEUES && forall i, j :: 0 <= i < j < QUEUES ==> queues[i] != queues[j]
      requires forall k :: 0 <= k < QUEUES ==> queues[k].Valid() && queues[k].nodes == []
      requires queueLevel.Length == N_PROCESSES && forall i :: 0 <= i < N_PROCESSES ==> queueLevel[i] == 0
      ensures Valid() && Begun(Here())
    {
      hide Valid, Begun, Here, Seed;
      StartValid();
      StartHere();
    }

    lemma StartHere()
      requires processes == [init] && current == init && init.state == Boot && init.counter == 1 && init.priority == 1
      requires init.pending == {} && init.tickets == 10 && init.estBurst == 0 && init.pidToWait == -1 && init.burstTicks == 0 && init.queuePriority == 0
      requires |queues| == QUEUES && (forall k :: 0 <= k < QUEUES ==> queues[k].nodes == []) && ticksSinceBoost == 0 && rngState == Seed()
      requires queueLevel.Length == N_PROCESSES && forall i :: 0 <= i < N_PROCESSES ==> queueLevel[i] == 0
      ensures Begun(Here())
    {
      hide Seed, States, Signals, Counters, Priorities, Bursts, Shares, Waits, Spent, Classes, Here, Now, Levels, Lists, AllLists, Sees, Keyed;
      HereMeans();
      RecordsHere();
      assert Records(Here(), init);
      WorldAlone(Here(), init);
      NowParts();
      ListsNow();
      StartLists();
    }

    lemma StartLists()
      requires |queues| == QUEUES && forall k :: 0 <= k < QUEUES ==> queues[k].nodes == []
      ensures Levels() == [[], [], [], [], []]
    {
    }

    /** The idle task alone, and empty queues, satisfy every invariant. */
    lemma StartValid()
      requires processes == [init] && current == init && init.home == NOWHERE && init.state == Boot && init.priority == 1 && init.pid == 0
      requires init.preemptDisabled == 0 && init.pending == {} && init.estBurst == 0
      requires |queues| == QUEUES && forall i, j :: 0 <= i < j < QUEUES ==> queues[i] != queues[j]
      requires forall k :: 0 <= k < QUEUES ==> queues[k].Valid() && queues[k].nodes == []
      requires queueLevel.Length == N_PROCESSES && ticksSinceBoost == 0 && forall i :: 0 <= i < N_PROCESSES ==> queueLevel[i] == 0
      ensures Valid()
    {
      hide Inv, Queued, Registered, AllPlaced, NoLostWakeup, InOrder;
      StartQueued();
      StartPlaced();
      StartRest();
      InvFrom(null);
    }

    lemma StartQueued()
      requires processes == [init] && init.home == NOWHERE && |queues| == QUEUES
      requires forall i, j :: 0 <= i < j < QUEUES ==> queues[i] != queues[j]
      requires forall k :: 0 <= k < QUEUES ==> queues[k].Valid() && queues[k].nodes == []
      ensures Queued()
    {
    }

    lemma StartPlaced()
      requires processes == [init] && current == init && init.home == NOWHERE && init.state == Boot && init.priority == 1
      ensures AllPlaced(null)
    {
    }

    lemma StartRest()
      requires processes == [init] && current == init && init.state == Boot && init.pid == 0 && init.pending == {}
      requires |queues| == QUEUES && queues[READY_QUEUE].nodes == []
      requires queueLevel.Length == N_PROCESSES && ticksSinceBoost == 0 && forall i :: 0 <= i < N_PROCESSES ==> queueLevel[i] == 0
      ensures Registered() && NoLostWakeup() && InOrder()
    {
    }

    // -------------------------------------------------------------- invariants

    /**
     The queues are sound, disjoint lists of registered processes other than the idle task; home says
     of every process which queue, if any, it is in.
     */
    ghost predicate Queued()
      reads this`processes, queues, processes`nextReady, processes`home
    {
      && |queues| == QUEUES && (forall j, k :: 0 <= j < k < QUEUES ==> queues[j] != queues[k])
      && (forall k :: 0 <= k < QUEUES ==> Sound(queues[k], k))
      && (forall p :: p in processes ==> p.home == NOWHERE || (0 <= p.home < QUEUES && p in queues[p.home].nodes))
      && init in processes && init.home == NOWHERE
    }

    ghost predicate Sound(q: ProcessQueue, k: int)
      reads this`processes, q, processes`nextReady, processes`home
    {
      Within(q.nodes, processes) && q.Valid() && forall i :: 0 <= i < |q.nodes| ==> q.nodes[i].home == k
    }

    lemma SoundHere(k: nat)
      requires Queued() && k < QUEUES
      ensures k < |queues| && Sound(queues[k], k) && queues[k].Valid() && Within(queues[k].nodes, processes)
      ensures forall i :: 0 <= i < |queues[k].nodes| ==> queues[k].nodes[i].home == k && queues[k].nodes[i] in processes && queues[k].nodes[i] != init
      ensures forall p :: p in processes && p.home == k ==> p in queues[k].nodes
    {
    }

    /** No process of queue j is in queue k or nowhere. */
    lemma Apart(j: nat, k: nat)
      requires Queued() && j < QUEUES && k < QUEUES && j != k
      ensures |queues| == QUEUES && queues[j] != queues[k]
      ensures forall i :: 0 <= i < |queues[j].nodes| ==> queues[j].nodes[i] !in queues[k].nodes && queues[j].nodes[i].home == j
    {
      SoundHere(j);
      SoundHere(k);
    }

    lemma ApartAll(k: nat)
      requires Queued() && k < QUEUES
      ensures |queues| == QUEUES && forall j: nat :: j < QUEUES && j != k ==> queues[j] != queues[k] && AwayFrom(queues[j].nodes, queues[k].nodes)
      ensures forall j: nat :: j < QUEUES ==> Homely(queues[j].nodes)
    {
      forall j: nat | j < QUEUES && j != k
        ensures queues[j] != queues[k] && AwayFrom(queues[j].nodes, queues[k].nodes)
      {
        Apart(j, k);
      }
      forall j: nat | j < QUEUES
        ensures Homely(queues[j].nodes)
      {
        SoundHere(j);
      }
    }

    ghost predicate Homely(s: seq<PCB>)
      reads s`home
    {
      forall p :: p in s ==> p.home != NOWHERE
    }

    /** What stays when queue k changes: the other queues, their links and their homes. */
    twostate predicate OthersSame(k: nat)
      reads this`processes, queues, processes`nextReady, processes`home
    {
      && processes == old(processes) && |queues| == QUEUES
      && forall j :: 0 <= j < QUEUES && j != k ==> SameQueue(queues[j])
    }

    twostate predicate SameQueue(q: ProcessQueue)
      reads q, processes`nextReady, processes`home, this`processes
    {
      && q.nodes == old(q.nodes) && q.head == old(q.head) && q.tail == old(q.tail)
      && forall p :: p in processes && p in q.nodes ==> p.nextReady == old(p.nextReady) && p.home == old(p.home)
    }

    /** Queue k is sound again, it holds what it should, and the other queues are as they were. */
    twostate lemma QueuedAgain(k: nat)
      requires old(Queued()) && k < QUEUES && |queues| == QUEUES && OthersSame(k) && Sound(queues[k], k)
      requires forall p :: p in processes && p.home == k ==> p in queues[k].nodes
      requires forall p :: p in processes && p.home != k ==> p.home == old(p.home) || p.home == NOWHERE
      requires init.home == old(init.home)
      ensures Queued()
    {
      hide Queues.Linked, Queues.Distinct;
      forall j | 0 <= j < QUEUES
        ensures Sound(queues[j], j)
      {
        if j != k {
          assert old(Sound(queues[j], j));
          assert SameQueue(queues[j]);
        }
      }
    }

    /** Appends a process that is in no queue to queue k. */
    method Put(k: nat, p: PCB)
      requires Queued() && k < QUEUES && p in processes && p.home == NOWHERE && p != init
      modifies p`state, p`nextReady, p`home, queues[k], (set x | x in queues[k].nodes)`nextReady
      ensures Queued() && p.state == Ready && p.home == k
      ensures queues[k].nodes == old(queues[k].nodes) + [p]
    {
      hide Queued, Linked, Distinct;
      SoundHere(k);
      ApartAll(k);
      queues[k].Enqueue(p, init);
      p.home := k;
      QueuedAgain(k);
    }

    /** Inserts a process that is in no queue into queue k by its estimated burst. */
    method PutSorted(k: nat, p: PCB) returns (ghost i: nat)
      requires Queued() && k < QUEUES && p in processes && p.home == NOWHERE && p != init
      modifies p`state, p`nextReady, p`home, queues[k], (set x | x in queues[k].nodes)`nextReady
      ensures Queued() && p.state == Ready && p.home == k
      ensures InsertionPoint(old(queues[k].nodes), p.estBurst, i) && queues[k].nodes == With(old(queues[k].nodes), i, p)
    {
      hide Queued, Linked, Distinct, InsertionPoint, With;
      SoundHere(k);
      ApartAll(k);
      ghost var s := queues[k].nodes;
      i := queues[k].EnqueueSorted(p, init);
      InsertionMeans(s, p.estBurst, i);
      WithMembers(s, i, p);
      p.home := k;
      QueuedAgain(k);
    }

    /** Takes the process at the front of queue k, if there is one. */
    method Take(k: nat) returns (p: PCB?)
      requires Queued() && k < QUEUES
      modifies queues[k], (set x | x in queues[k].nodes)`nextReady, (set x | x in queues[k].nodes)`home
      ensures Queued()
      ensures if old(queues[k].nodes) == [] then p == null && queues[k].nodes == []
              else p == old(queues[k].nodes)[0] && queues[k].nodes == old(queues[k].nodes)[1..] && p.home == NOWHERE && p in processes && p != init
      ensures forall x :: x in processes && x != p ==> x.home == old(x.home)
    {
      hide Queued, Linked;
      SoundHere(k);
      ApartAll(k);
      p := queues[k].Dequeue();
      if p != null {
        p.home := NOWHERE;
      }
      QueuedAgain(k);
    }

    /** Unlinks process p, at place i of queue k, given its predecessor. */
    method Drop(k: nat, previous: PCB?, p: PCB, ghost i: nat)
      requires Queued() && k < QUEUES && i < |queues[k].nodes| && queues[k].nodes[i] == p
      requires previous == if i == 0 then null else queues[k].nodes[i - 1]
      modifies queues[k], (set x | x in queues[k].nodes)`nextReady, p`home
      ensures Queued() && queues[k].nodes == Without(old(queues[k].nodes), i) && p.home == NOWHERE && p in processes && p != init
    {
      hide Queued, Linked;
      SoundHere(k);
      ApartAll(k);
      queues[k].Remove(previous, p, i);
      p.home := NOWHERE;
      QueuedAgain(k);
    }

    // -------------------------------------------------------------- the state machine

    predicate Multi() {
      algo == Mlq || algo == Mlfq
    }

    /** Processes, pids and levels fit together. */
    ghost predicate Registered()
      reads this`processes, this`current, this`ticksSinceBoost, queueLevel
    {
      && 0 <= ticksSinceBoost < BOOST_PERIOD
      && 0 < |processes| <= N_PROCESSES && Distinct(processes) && processes[0] == init && current in processes
      && (forall i :: 0 <= i < |processes| ==> processes[i].pid == i)
      && queueLevel.Length == N_PROCESSES && forall i :: 0 <= i < N_PROCESSES ==> 0 <= queueLevel[i] < N_LEVELS
    }

    /**
     A registered process is ready exactly when it is in a queue, apart from out, which has just been taken
     from one; only the current one runs, and the queue is one that the policy uses.
     */
    ghost predicate Placed(p: PCB, out: PCB?)
      reads this`current, this`moved, p`state, p`home, p`priority, queueLevel
    {
      && 1 <= p.priority
      && (p != init ==> (p.state == Ready && p != out <==> p.home != NOWHERE))
      && (p.state == Running ==> p == current)
      && (p.home != NOWHERE ==> if Multi() then 0 <= p.home < N_LEVELS else p.home == READY_QUEUE)
      && (p.home != NOWHERE && Multi() && !moved && p.pid < queueLevel.Length ==> p.home == queueLevel[p.pid])
    }

    /** No process waits for one that has ended, as long as no process was killed. */
    ghost predicate NoLostWakeup()
      reads this`processes, this`killed, processes`state, processes`pending, processes`pidToWait
    {
      !killed ==> forall p :: p in processes ==> KILL !in p.pending && (p.state == WaitingProcess ==> WaitsWell(p))
    }

    ghost predicate WaitsWell(p: PCB)
      reads this`processes, p`pidToWait, processes`state
    {
      0 <= p.pidToWait < |processes| && processes[p.pidToWait].state != Zombie
    }

    static ghost predicate Sorted(s: seq<PCB>)
      reads s`estBurst
    {
      forall i, j :: 0 <= i < j < |s| ==> s[i].estBurst <= s[j].estBurst
    }

    ghost predicate AllPlaced(out: PCB?)
      reads this`processes, this`current, this`moved, processes`state, processes`home, processes`priority, queueLevel
    {
      forall p :: p in processes ==> Placed(p, out)
    }

    /** out is a process that a queue has just given up. */
    ghost predicate Taken(out: PCB?)
      reads this`processes, processes`state, processes`home
    {
      out != null ==> out in processes && out != init && out.state == Ready && out.home == NOWHERE
    }

    /** The queue of the shortest-job policy is in order. */
    ghost predicate InOrder()
      reads this`processes, queues, processes`estBurst
    {
      algo == Sjf && READY_QUEUE < |queues| && Within(queues[READY_QUEUE].nodes, processes) ==> Sorted(queues[READY_QUEUE].nodes)
    }

    /** What holds all the time, except that out has been taken from a queue and not been dispatched yet. */
    ghost predicate Inv(out: PCB?)
      reads this, processes, queues, queueLevel
    {
      Queued() && Registered() && NoLostWakeup() && AllPlaced(out) && Taken(out) && InOrder()
    }

    /** The state between two steps. */
    ghost predicate Valid()
      reads this, processes, queues, queueLevel
    {
      && Inv(null)
      && (current.state == Running || (current == init && init.state == Boot))
      && forall p :: p in processes ==> p.preemptDisabled == if p == current then 0 else 1
    }

    // -------------------------------------------------------------- signals

    /** The signal handler, for a process taken from a queue; one signal is handled at a time. */
    static method HandleSignals(p: PCB)
      requires p.state == Ready
      modifies p`state, p`pending
      ensures p.state == if 1 in old(p.pending) then Zombie else if 2 in old(p.pending) then Stopped else Ready
      ensures p.pending == if KILL in old(p.pending) then old(p.pending) - {KILL}
                           else if STOP in old(p.pending) then old(p.pending) - {STOP} else old(p.pending) - {RESUME}
    {
      if p.pending == {} {
        return;
      }
      if KILL in p.pending {
        p.state := Zombie;
        p.pending := p.pending - {KILL};
      } else if STOP in p.pending {
        p.state := Stopped;
        p.pending := p.pending - {STOP};
      } else if RESUME in p.pending {
        p.pending := p.pending - {RESUME};
      }
    }

    lemma ReadyThere(k: nat)
      requires Inv(null) && k < QUEUES
      ensures |queues| == QUEUES && forall i :: 0 <= i < |queues[k].nodes| ==> queues[k].nodes[i].state == Ready
    {
      SoundHere(k);
      forall i | 0 <= i < |queues[k].nodes|
        ensures queues[k].nodes[i].state == Ready
      {
        assert Placed(queues[k].nodes[i], null);
      }
    }

    lemma InvParts(out: PCB?)
      requires Inv(out)
      ensures Queued() && Registered() && NoLostWakeup() && AllPlaced(out) && Taken(out) && InOrder()
      ensures |queues| == QUEUES && current in processes && init in processes && init.home == NOWHERE && queueLevel.Length == N_PROCESSES
      ensures |processes| <= N_PROCESSES
    {
    }

    lemma InvFrom(out: PCB?)
      requires Queued() && Registered() && NoLostWakeup() && AllPlaced(out) && Taken(out) && InOrder()
      ensures Inv(out)
    {
    }

    /** Handling the signals of one process loses no wakeup. */
    twostate lemma WakeupKept(p: PCB)
      requires old(NoLostWakeup()) && processes == old(processes) && killed == old(killed) && p in processes
      requires forall x :: x in processes ==> x.pidToWait == old(x.pidToWait) && (x != p ==> x.state == old(x.state) && x.pending == old(x.pending))
      requires p.state == Fate(old(p.pending)) && p.pending <= old(p.pending)
      ensures NoLostWakeup()
    {
    }

    /** A process that left its queue, and may have become a zombie or have been stopped, is where it should be. */
    twostate lemma PlacedKept(p: PCB)
      requires (old(AllPlaced(null)) || old(AllPlaced(p))) && processes == old(processes) && current == old(current) && moved == old(moved)
      requires queueLevel[..] == old(queueLevel[..])
      requires p in processes && p.home == NOWHERE && p.priority == old(p.priority) && p.state != Running
      requires forall x :: x in processes && x != p ==> x.state == old(x.state) && x.home == old(x.home) && x.priority == old(x.priority)
      ensures AllPlaced(if p.state == Ready then p else null)
    {
      forall x | x in processes
        ensures Placed(x, if p.state == Ready then p else null)
      {
        assert old(Placed(x, null)) || old(Placed(x, p));
      }
    }

    /** A queue that lost its first process, or none, is still in order. */
    twostate lemma OrderTail(k: nat)
      requires old(InOrder()) && old(Queued()) && |queues| == QUEUES && k < QUEUES && processes == old(processes)
      requires forall j :: 0 <= j < QUEUES && j != k ==> queues[j].nodes == old(queues[j].nodes)
      requires queues[k].nodes == if old(queues[k].nodes) == [] then [] else old(queues[k].nodes)[1..]
      requires forall p :: p in processes ==> p.estBurst == old(p.estBurst)
      ensures InOrder()
    {
      if algo == Sjf {
        assert old(Sound(queues[READY_QUEUE], READY_QUEUE));
      }
    }

    ghost function Everyone(): set<PCB>
      reads this`processes
    {
      set p | p in processes
    }

    ghost function States(): (m: map<PCB, State>)
      reads this`processes, processes`state
    {
      map p | p in processes :: p.state
    }

    ghost function Signals(): (m: map<PCB, set<nat>>)
      reads this`processes, processes`pending
    {
      map p | p in processes :: p.pending
    }

    /** Takes the process at the front of queue k. */
    method TakeReady(k: nat) returns (p: PCB?)
      requires Inv(null) && k < QUEUES
      modifies queues[k], processes`nextReady, processes`home
      ensures Inv(p)
      ensures if old(queues[k].nodes) == [] then p == null && queues[k].nodes == []
              else p == old(queues[k].nodes)[0] && queues[k].nodes == old(queues[k].nodes)[1..]
    {
      hide Queued, Registered, NoLostWakeup, AllPlaced, Inv, InOrder, Linked;
      InvParts(null);
      SoundHere(k);
      ReadyThere(k);
      p := Take(k);
      OrderTail(k);
      if p != null {
        PlacedKept(p);
      }
      InvFrom(p);
    }

    /** Handles the signals of a process taken from a queue. */
    method Judge(p: PCB)
      requires Inv(p)
      modifies p`state, p`pending
      ensures Inv(if p.state == Ready then p else null)
      ensures Judged(old(States()), old(Signals()), States(), Signals(), p)
    {
      hide Queued, Registered, NoLostWakeup, AllPlaced, Inv, InOrder, Linked, States, Signals, Judged, Everyone;
      InvParts(p);
      SnapshotMeans();
      ghost var s, g := States(), Signals();
      HandleSignals(p);
      WakeupKept(p);
      PlacedKept(p);
      InvFrom(if p.state == Ready then p else null);
      JudgedFrom(s, g, p);
    }

    /** Takes the process at the front of queue k and handles its signals. */
    method TakeOne(k: nat) returns (p: PCB?)
      requires Inv(null) && k < QUEUES
      modifies queues[k], processes`nextReady, processes`home, processes`state, processes`pending
      ensures Inv(if p != null && p.state == Ready then p else null)
      ensures if old(queues[k].nodes) == [] then p == null && queues[k].nodes == [] && States() == old(States()) && Signals() == old(Signals())
              else p == old(queues[k].nodes)[0] && queues[k].nodes == old(queues[k].nodes)[1..] && Judged(old(States()), old(Signals()), States(), Signals(), p)
    {
      hide Queued, Registered, NoLostWakeup, AllPlaced, Inv, InOrder, Linked, States, Signals, Judged, Everyone;
      InvParts(null);
      SoundHere(k);
      p := TakeReady(k);
      InvParts(p);
      if p != null {
        Judge(p);
      }
    }

    /** Takes processes from the front of queue k, up to the first one that survives its signals. */
    method TakeLive(k: nat) returns (next: PCB?, ghost n: nat)
      requires Inv(null) && k < QUEUES
      modifies queues[k], processes`nextReady, processes`home, processes`state, processes`pending
      ensures Inv(next) && |queues| == QUEUES
      ensures FirstSurvivor(old(queues[k].nodes), n, old(Signals())) && Discarded(old(queues[k].nodes), n, old(Signals()), old(States()), States())
      ensures SameOff(old(queues[k].nodes), old(Signals()), Signals())
      ensures if n < |old(queues[k].nodes)| then next == old(queues[k].nodes)[n] && queues[k].nodes == old(queues[k].nodes)[n + 1..]
              else next == null && queues[k].nodes == []
    {
      hide Queued, Registered, NoLostWakeup, AllPlaced, Inv, InOrder, Linked, Fell, Judged, States, Signals, FirstSurvivor, Discarded, SameOff, Everyone, Within;
      InvParts(null);
      ghost var q, s, g := queues[k].nodes, States(), Signals();
      SoundHere(k);
      SnapshotMeans();
      FellStart(q, s, g);
      n := 0;
      while true
        invariant Inv(null) && |queues| == QUEUES && n <= |q| && queues[k].nodes == q[n..] && Fell(q, n, n, s, g, States(), Signals())
        decreases |q| - n
      {
        ghost var s1, g1 := States(), Signals();
        next := TakeOne(k);
        if next == null {
          FellAll(q, s, g, States(), Signals());
          return;
        }
        FellMore(q, n, s, g, s1, g1, States(), Signals());
        StateOf(next);
        if next.state == Ready {
          FellUpTo(q, n, s, g, s1, g1, States(), Signals());
          return;
        }
        n := n + 1;
      }
    }

    lemma StateOf(p: PCB)
      ensures p in States() ==> States()[p] == p.state
    {
    }

    lemma JudgedFrom(s: map<PCB, State>, g: map<PCB, set<nat>>, p: PCB)
      requires s.Keys == g.Keys == Everyone() && p in processes && p in s && s[p] == Ready && p.state == Fate(g[p])
      requires forall x :: x in processes && x != p ==> x in s && x.state == s[x] && x.pending == g[x]
      ensures Judged(s, g, States(), Signals(), p)
    {
    }

    lemma SnapshotMeans()
      ensures States().Keys == Signals().Keys == Everyone()
      ensures forall x :: x in processes ==> x in States() && x.state == States()[x] && x.pending == Signals()[x]
    {
    }

    // -------------------------------------------------------------- queueing

    /** The queue that the policy puts a process into. */
    function Dest(p: PCB): (k: int)
      requires p.pid < queueLevel.Length
      reads queueLevel
    {
      if Multi() then queueLevel[p.pid] else READY_QUEUE
    }

    /** s' is s with p put in where the policy wants it. */
    ghost predicate Inserted(s: seq<PCB>, p: PCB, s': seq<PCB>)
      reads s`estBurst, p`estBurst
    {
      if algo == Sjf then exists i :: InsertedAt(s, p, s', i) else s' == s + [p]
    }

    static ghost predicate InsertedAt(s: seq<PCB>, p: PCB, s': seq<PCB>, i: nat)
      reads s`estBurst, p`estBurst
    {
      InsertionPoint(s, p.estBurst, i) && s' == With(s, i, p)
    }

    /** The insertion policy of the active algorithm; the process becomes ready. */
    method Insert(p: PCB)
      requires Queued() && Registered() && p in processes && p != init && p.home == NOWHERE && p.pid < queueLevel.Length && 0 <= Dest(p) < QUEUES
      modifies p`state, p`home, queues, processes`nextReady
      ensures Queued() && p.state == Ready && p.home == Dest(p)
      ensures Inserted(old(queues[Dest(p)].nodes), p, queues[Dest(p)].nodes)
      ensures forall j :: 0 <= j < QUEUES && j != Dest(p) ==> queues[j].nodes == old(queues[j].nodes)
    {
      hide Queued, Registered, InsertionPoint, With;
      SoundHere(Dest(p));
      DistinctQueues();
      if algo == Sjf {
        ghost var i := PutSorted(READY_QUEUE, p);
        assert InsertedAt(old(queues[READY_QUEUE].nodes), p, queues[READY_QUEUE].nodes, i);
      } else {
        Put(Dest(p), p);
      }
    }

    lemma DistinctQueues()
      requires Queued()
      ensures |queues| == QUEUES && forall j, k :: 0 <= j < k < QUEUES ==> queues[j] != queues[k]
    {
    }

    /** A process put into the queue the policy wants is where it should be. */
    twostate lemma PlacedIn(p: PCB)
      requires (old(AllPlaced(null)) || old(AllPlaced(p))) && Registered()
      requires processes == old(processes) && current == old(current) && moved == old(moved) && queueLevel[..] == old(queueLevel[..])
      requires p in processes && p != init && p.pid < N_PROCESSES && p.state == Ready && p.home == Dest(p) && p.priority == old(p.priority)
      requires forall x :: x in processes && x != p ==> x.state == old(x.state) && x.home == old(x.home) && x.priority == old(x.priority)
      ensures AllPlaced(null)
    {
      forall x | x in processes
        ensures Placed(x, null)
      {
        assert old(Placed(x, null)) || old(Placed(x, p));
      }
    }

    /** Insertion keeps the queue of the shortest-job policy in order. */
    twostate lemma OrderIn(p: PCB)
      requires old(InOrder()) && old(Queued()) && |queues| == QUEUES && processes == old(processes) && p.pid < queueLevel.Length
      requires p in processes && forall x :: x in processes ==> x.estBurst == old(x.estBurst)
      requires algo == Sjf ==> Inserted(old(queues[READY_QUEUE].nodes), p, queues[READY_QUEUE].nodes)
      ensures InOrder()
    {
      if algo == Sjf {
        assert old(Sound(queues[READY_QUEUE], READY_QUEUE));
        var s := old(queues[READY_QUEUE].nodes);
        var i :| InsertedAt(s, p, queues[READY_QUEUE].nodes, i);
        SortedWith(s, p, i);
      }
    }

    static lemma SortedWith(s: seq<PCB>, p: PCB, i: nat)
      requires Sorted(s) && InsertionPoint(s, p.estBurst, i)
      ensures Sorted(With(s, i, p))
    {
    }

    lemma LevelOf(p: PCB)
      requires Registered() && p in processes
      ensures queueLevel.Length == N_PROCESSES && p.pid < N_PROCESSES && 0 <= Dest(p) < QUEUES
    {
    }

    /** Puts a process that is in no queue, whatever its state, into its queue. */
    method Admit(p: PCB)
      requires Queued() && Registered() && InOrder() && (AllPlaced(null) || AllPlaced(p))
      requires p in processes && p != init && p.home == NOWHERE
      modifies p`state, p`home, queues, processes`nextReady
      ensures Queued() && Registered() && InOrder() && AllPlaced(null) && p.state == Ready
      ensures p.pid < queueLevel.Length && 0 <= Dest(p) < QUEUES && Inserted(old(queues[Dest(p)].nodes), p, queues[Dest(p)].nodes)
      ensures forall j :: 0 <= j < QUEUES && j != Dest(p) ==> queues[j].nodes == old(queues[j].nodes)
    {
      hide Queued, Registered, AllPlaced, InOrder, Inserted;
      LevelOf(p);
      DistinctQueues();
      Insert(p);
      PlacedIn(p);
      OrderIn(p);
      DistinctQueues();
    }

    /** A process that becomes ready loses no wakeup. */
    twostate lemma WakeupReady(p: PCB)
      requires old(NoLostWakeup()) && processes == old(processes) && killed == old(killed) && p.state == Ready
      requires forall x :: x in processes ==> x.pending == old(x.pending) && (x != p ==> x.state == old(x.state) && x.pidToWait == old(x.pidToWait))
      ensures NoLostWakeup()
    {
    }

    // -------------------------------------------------------------- dispatching

    /** The counts of the preemption guard: c for the current process, one for every process that waits to be resumed. */
    ghost predicate Guarded(c: int)
      reads this`processes, this`current, processes`preemptDisabled
    {
      forall p :: p in processes ==> p.preemptDisabled == if p == current then c else 1
    }

    /** The scheduler can be entered: the current process is in no queue. */
    ghost predicate Callable()
      reads this, processes, queues, queueLevel
    {
      Inv(null) && Guarded(0) && current.home == NOWHERE
    }

    method PreemptDisable()
      requires current in processes && Guarded(0)
      modifies current`preemptDisabled
      ensures Guarded(1)
    {
      current.preemptDisabled := current.preemptDisabled + 1;
    }

    method PreemptEnable()
      requires current in processes && Guarded(1)
      modifies current`preemptDisabled
      ensures Guarded(0)
    {
      current.preemptDisabled := current.preemptDisabled - 1;
    }

    ghost function Bursts(): (m: map<PCB, int>)
      reads this`processes, processes`estBurst
    {
      map p | p in processes :: p.estBurst
    }

    lemma RunQueueFrom(s: seq<PCB>, back: bool, p: PCB, q: seq<PCB>)
      requires Within(s, processes) && p in processes && if back then Inserted(s, p, q) else q == s
      ensures RunQueue(algo, s, back, p, q, Bursts())
    {
      if back && algo == Sjf {
        var i :| InsertedAt(s, p, q, i);
        assert BehindShorter(s, p, Bursts(), i);
      }
    }

    /** Enters the scheduler. */
    method Enter()
      requires Callable()
      modifies processes`preemptDisabled
      ensures Inv(null) && Guarded(1)
    {
      hide Queued, Registered, NoLostWakeup, AllPlaced, Inv, InOrder;
      InvParts(null);
      PreemptDisable();
      InvFrom(null);
    }

    /** The outgoing process can run on, so it competes for the CPU. */
    predicate Runnable()
      reads this`current, current`state
    {
      current != init && current.state == Running
    }

    /** Nobody but p, which was running, changed its state. */
    lemma SteadyButOne(s: map<PCB, State>, p: PCB)
      requires s.Keys == Everyone() && p in s && s[p] == Running && forall x :: x in processes && x != p ==> x in s && x.state == s[x]
      ensures Steady(init, s, States())
    {
    }

    /** Puts the outgoing process back into its queue. */
    method PutBack()
      requires Inv(null) && current.home == NOWHERE && Runnable() && |queues| == QUEUES
      modifies current`state, current`home, queues, processes`nextReady
      ensures Inv(null) && current.state == Ready && current.pid < queueLevel.Length && 0 <= Dest(current) < QUEUES && |queues| == QUEUES
      ensures Inserted(old(queues[Dest(current)].nodes), current, queues[Dest(current)].nodes)
      ensures forall j :: 0 <= j < QUEUES && j != Dest(current) ==> queues[j].nodes == old(queues[j].nodes)
      ensures Steady(init, old(States()), States())
    {
      hide Queued, Registered, AllPlaced, InOrder, Inserted, Inv, NoLostWakeup, States, Steady, Everyone;
      InvParts(null);
      SnapshotMeans();
      ghost var states := States();
      Admit(current);
      SteadyButOne(states, current);
      WakeupReady(current);
      InvFrom(null);
    }

    /** Puts the outgoing process, if still runnable, back into its queue. */
    method Requeue()
      requires Inv(null) && current.home == NOWHERE
      modifies current`state, current`home, queues, processes`nextReady
      ensures Inv(null) && current.pid < queueLevel.Length && 0 <= Dest(current) < QUEUES && |queues| == QUEUES
      ensures current.state == if old(Runnable()) then Ready else old(current.state)
      ensures RunQueue(algo, old(queues[Dest(current)].nodes), old(Runnable()), current, queues[Dest(current)].nodes, old(Bursts()))
      ensures forall j :: 0 <= j < QUEUES && j != Dest(current) ==> queues[j].nodes == old(queues[j].nodes)
      ensures Steady(init, old(States()), States())
    {
      hide Queued, Registered, AllPlaced, InOrder, Inserted, Inv, NoLostWakeup, RunQueue, Bursts, States, Steady;
      InvParts(null);
      LevelOf(current);
      SoundHere(Dest(current));
      ghost var s, back := queues[Dest(current)].nodes, Runnable();
      SteadySame(init, States());
      if Runnable() {
        PutBack();
      }
      RunQueueFrom(s, back, current, queues[Dest(current)].nodes);
    }

    /** The switch itself: next runs from now on; a process that was still running is ready again. */
    method Handoff(next: PCB)
      requires next in processes && current in processes && (current.state == Running ==> current == init)
      modifies this`current, processes`state
      ensures Handover(next) && current == next && current.state == Running
      ensures forall p :: p in processes && p != next && p != old(current) ==> p.state == old(p.state)
      ensures old(current) != next ==> old(current).state == if old(current.state) == Running then Ready else old(current.state)
    {
      next.state := Running;
      if current == next {
        return;
      }
      var previous := current;
      if previous.state == Running {
        previous.state := Ready;
      }
      current := next;
    }

    /** Gives the CPU to a process that no queue holds: it becomes the only running one. */
    method SwitchTo(next: PCB)
      requires Inv(if next == init then null else next) && next in processes
      requires current.state == Running ==> current == init
      modifies this`current, processes`state
      ensures Inv(null) && current == next && current.state == Running && current.home == NOWHERE
      ensures forall p :: p in processes && p != next && p != old(current) ==> p.state == old(p.state)
      ensures old(current) != next ==> old(current).state == if old(current.state) == Running then Ready else old(current.state)
    {
      hide Queued, Registered, InOrder, NoLostWakeup, AllPlaced, Inv, Handover;
      InvParts(if next == init then null else next);
      Handoff(next);
      RegisteredWith(next);
      PlacedAfter(next);
      WakeupsAfter(next);
      InvFrom(null);
    }

    twostate lemma RegisteredWith(next: PCB)
      requires old(Registered()) && processes == old(processes) && ticksSinceBoost == old(ticksSinceBoost) && queueLevel[..] == old(queueLevel[..])
      requires next in processes && current == next
      ensures Registered()
    {
      assert forall i :: 0 <= i < queueLevel.Length ==> queueLevel[i] == queueLevel[..][i] == old(queueLevel[..])[i];
    }

    /** What dispatching changes: next runs, and the process that ran before, if it was another one, does not. */
    twostate predicate Handover(next: PCB)
      reads this, processes`state, processes`home, processes`priority, processes`pending, processes`pidToWait, queueLevel
    {
      && processes == old(processes) && next in processes && old(current) in processes
      && current == next && next.state == Running && queueLevel[..] == old(queueLevel[..]) && moved == old(moved) && killed == old(killed)
      && (old(current.state) == Running ==> old(current) == init)
      && (old(current) != next ==> old(current).state == if old(current.state) == Running then Ready else old(current.state))
      && (forall p :: p in processes && p != next && p != old(current) ==> p.state == old(p.state))
      && (forall p :: p in processes ==> p.home == old(p.home) && p.priority == old(p.priority) && p.pending == old(p.pending) && p.pidToWait == old(p.pidToWait))
    }

    twostate lemma PlacedAfter(next: PCB)
      requires Handover(next) && (if next == init then old(AllPlaced(null)) else old(AllPlaced(next)))
      requires next != init ==> old(next.state) == Ready && next.home == NOWHERE
      ensures AllPlaced(null)
    {
      forall p | p in processes
        ensures Placed(p, null)
      {
        assert old(Placed(p, if next == init then null else next));
      }
    }

    twostate lemma WakeupsAfter(next: PCB)
      requires Handover(next) && old(NoLostWakeup())
      ensures NoLostWakeup()
    {
      forall p | p in processes && !killed
        ensures KILL !in p.pending && (p.state == WaitingProcess ==> WaitsWell(p))
      {
        assert p.state == WaitingProcess ==> old(WaitsWell(p));
      }
    }

    /** Dispatching changes no process that was neither ready nor running. */
    lemma SteadyDispatched(s: map<PCB, State>, previous: PCB)
      requires s.Keys == Everyone() && current in s && (current == init || s[current] == Ready || s[current] == Running)
      requires forall p :: p in processes && p != current && p != previous ==> p in s && p.state == s[p]
      requires previous in s && (previous != current ==> previous.state == if s[previous] == Running then Ready else s[previous])
      ensures Steady(init, s, States())
    {
    }

    /** Leaves the scheduler. */
    method Resume()
      requires Inv(null) && Guarded(1) && (current.state == Running || (current == init && init.state == Boot))
      modifies processes`preemptDisabled
      ensures Valid()
    {
      hide Queued, Registered, NoLostWakeup, AllPlaced, InOrder, Inv;
      InvParts(null);
      PreemptEnable();
      InvFrom(null);
    }

    /** Gives the CPU to the process that was picked, or to the idle task. */
    method HandOver(next: PCB?)
      requires Inv(next) && (current.state == Running ==> current == init)
      modifies this`current, processes`state
      ensures Inv(null) && current == (if next == null then init else next) && current.state == Running
      ensures forall p :: p in processes && p != current && p != old(current) ==> p.state == old(p.state)
      ensures old(current) != current ==> old(current).state == if old(current.state) == Running then Ready else old(current.state)
      ensures Steady(init, old(States()), States())
    {
      hide Queued, Registered, NoLostWakeup, AllPlaced, InOrder, Inv, States, Steady, Everyone;
      InvParts(next);
      var p: PCB := if next == null then init else next;
      SnapshotMeans();
      ghost var states, previous := States(), current;
      SwitchTo(p);
      SteadyDispatched(states, previous);
    }

    /** Dispatches the process that was picked, or the idle task, and leaves the scheduler. */
    method Dispatch(next: PCB?)
      requires Inv(next) && Guarded(1) && (current.state == Running ==> current == init)
      modifies this`current, processes`state, processes`preemptDisabled
      ensures Valid() && current == if next == null then init else next
      ensures forall p :: p in processes && p != current && p != old(current) ==> p.state == old(p.state)
      ensures old(current) != current ==> old(current).state == if old(current.state) == Running then Ready else old(current.state)
      ensures Steady(init, old(States()), States())
    {
      hide Queued, Registered, NoLostWakeup, AllPlaced, InOrder, Inv, States, Steady, Valid;
      InvParts(next);
      GuardedSwitch(if next == null then init else next);
      HandOver(next);
      Resume();
    }

    lemma GuardedSwitch(p: PCB)
      requires Guarded(1) && p in processes
      ensures forall x :: x in processes ==> x.preemptDisabled == 1
    {
    }

    // -------------------------------------------------------------- round robin, first come first served, shortest job first

    /** The processes that were passed over met the fate that their signals held for them. */
    ghost predicate PassedOver(q: seq<PCB>, n: nat, g: map<PCB, set<nat>>)
      reads q`state
    {
      n <= |q| && forall i :: 0 <= i < n ==> q[i] in g && q[i].state == Fate(g[q[i]])
    }

    /** Takes the first survivor of queue k, while no process other than the idle task runs. */
    method TakeSurvivor(k: nat) returns (next: PCB?, ghost q: seq<PCB>, ghost n: nat)
      requires Inv(null) && k < QUEUES && (current.state == Running ==> current == init)
      modifies queues[k], processes`nextReady, processes`home, processes`state, processes`pending
      ensures Inv(next) && |queues| == QUEUES && (current.state == Running ==> current == init)
      ensures q == old(queues[k].nodes) && Within(q, processes) && Distinct(q) && init !in q
      ensures FirstSurvivor(q, n, old(Signals())) && PassedIn(q, n, old(Signals()), States())
      ensures SameOff(q, old(Signals()), Signals()) && SameOff(q, old(States()), States())
      ensures if n < |q| then next == q[n] && queues[k].nodes == q[n + 1..] else next == null && queues[k].nodes == []
      ensures Steady(init, old(States()), States())
    {
      hide Queued, Registered, NoLostWakeup, AllPlaced, Inv, InOrder, States, Signals, FirstSurvivor, Discarded, PassedIn, SameOff, Steady, Everyone;
      InvParts(null);
      q := queues[k].nodes;
      SoundHere(k);
      ReadyThere(k);
      ghost var s, g := States(), Signals();
      SnapshotMeans();
      next, n := TakeLive(k);
      InvParts(next);
      StayedPut(q, n, g, s);
      DiscardedOnly(q, n, g, s, States());
      SteadyDiscarded(init, q, n, g, s, States());
    }

    /** Puts the outgoing process back and takes the first survivor of the ready queue. */
    method ChooseHead() returns (next: PCB?, ghost q: seq<PCB>, ghost n: nat)
      requires Inv(null) && current.home == NOWHERE && !Multi()
      modifies queues, processes`nextReady, processes`home, processes`state, processes`pending
      ensures Inv(next) && |queues| == QUEUES && (current.state == Running ==> current == init)
      ensures Within(q, processes) && Distinct(q) && init !in q
      ensures RunQueue(algo, old(queues[READY_QUEUE].nodes), old(Runnable()), current, q, old(Bursts()))
      ensures FirstSurvivor(q, n, old(Signals())) && PassedOver(q, n, old(Signals()))
      ensures if n < |q| then next == q[n] && queues[READY_QUEUE].nodes == q[n + 1..] else next == null && queues[READY_QUEUE].nodes == []
      ensures Steady(init, old(States()), States())
    {
      hide Queued, Registered, NoLostWakeup, AllPlaced, Inv, InOrder, Signals, States, FirstSurvivor, PassedOver, PassedIn, SameOff, RunQueue, Bursts, Within, Distinct, Steady;
      InvParts(null);
      ghost var states := States();
      Requeue();
      ghost var states' := States();
      InvParts(null);
      next, q, n := TakeSurvivor(READY_QUEUE);
      SteadyTwice(init, states, states', States());
      PassedFrom(q, n, old(Signals()));
    }

    lemma PassedFrom(q: seq<PCB>, n: nat, g: map<PCB, set<nat>>)
      requires PassedIn(q, n, g, States())
      ensures PassedOver(q, n, g)
    {
    }

    /** Being discarded does not make a process run. */
    lemma StayedPut(q: seq<PCB>, n: nat, g: map<PCB, set<nat>>, s: map<PCB, State>)
      requires Discarded(q, n, g, s, States()) && current in s && (s[current] == Running ==> current == init) && current in processes
      ensures current.state == Running ==> current == init
    {
    }

    /** Dispatching changes nothing about the processes that were passed over. */
    twostate lemma StillPassedOver(r: Pick)
      requires old(PassedOver(r.q, r.n, r.g)) && FirstSurvivor(r.q, r.n, r.g) && processes == old(processes) && Within(r.q, processes)
      requires Distinct(r.q) && init !in r.q && current == if r.n < |r.q| then r.q[r.n] else init
      requires forall p :: p in processes && p != current && p != old(current) ==> p.state == old(p.state)
      requires old(current) != current ==> old(current).state == if old(current.state) == Running then Ready else old(current.state)
      ensures PassedOver(r.q, r.n, r.g)
    {
    }

    /** Dispatches the process that was picked. */
    method Conclude(next: PCB?, ghost r: Pick)
      requires Inv(next) && Guarded(1) && (current.state == Running ==> current == init)
      requires FirstSurvivor(r.q, r.n, r.g) && PassedOver(r.q, r.n, r.g) && Within(r.q, processes) && Distinct(r.q) && init !in r.q
      requires next == if r.n < |r.q| then r.q[r.n] else null
      modifies this`current, processes`state, processes`preemptDisabled
      ensures Valid() && PassedOver(r.q, r.n, r.g) && current == if r.n < |r.q| then r.q[r.n] else init
      ensures Steady(init, old(States()), States())
    {
      hide Queued, Registered, NoLostWakeup, AllPlaced, Inv, InOrder, FirstSurvivor, PassedOver, Within, Distinct, States, Steady;
      InvParts(next);
      SurvivorIn(r.q, r.n, r.g);
      Dispatch(next);
      StillPassedOver(r);
    }

    ghost function Counters(): (m: map<PCB, int>)
      reads this`processes, processes`counter
    {
      map p | p in processes :: p.counter
    }

    /** Recharges the process that was picked, if a quantum is given, and dispatches it. */
    method Finish(next: PCB?, quantum: int, ghost r: Pick)
      requires Inv(next) && Guarded(1) && (current.state == Running ==> current == init)
      requires FirstSurvivor(r.q, r.n, r.g) && PassedOver(r.q, r.n, r.g) && Within(r.q, processes) && Distinct(r.q) && init !in r.q
      requires next == if r.n < |r.q| then r.q[r.n] else null
      modifies this`current, processes`state, processes`preemptDisabled, processes`counter
      ensures Valid() && PassedOver(r.q, r.n, r.g) && current == if r.n < |r.q| then r.q[r.n] else init
      ensures Counters() == Given(old(Counters()), next, quantum)
      ensures Steady(init, old(States()), States())
    {
      hide Queued, Registered, NoLostWakeup, AllPlaced, Inv, InOrder, FirstSurvivor, PassedOver, Within, Distinct, Counters, States, Steady;
      InvParts(next);
      SurvivorIn(r.q, r.n, r.g);
      Give(next, quantum);
      InvFrom(next);
      Conclude(next, r);
    }

    method Give(next: PCB?, quantum: int)
      requires next != null ==> next in processes
      modifies processes`counter
      ensures Counters() == Given(old(Counters()), next, quantum)
    {
      if next != null && 0 < quantum {
        next.counter := quantum;
      }
    }

    /** The process that has the CPU, unless it is the idle task. */
    ghost function Picked(): PCB?
      reads this`current
    {
      if current == init then null else current
    }

    /** Picks the first survivor of the ready queue, and recharges it if a quantum is given. */
    method PickHead(quantum: int) returns (ghost r: Pick)
      requires Callable() && !Multi()
      modifies this`current, queues, processes`nextReady, processes`home, processes`state, processes`pending, processes`preemptDisabled, processes`counter
      ensures Valid() && r.g == old(Signals())
      ensures RunQueue(algo, old(queues[READY_QUEUE].nodes), old(Runnable()), old(current), r.q, old(Bursts()))
      ensures FirstSurvivor(r.q, r.n, r.g) && PassedOver(r.q, r.n, r.g) && Within(r.q, processes)
      ensures if r.n < |r.q| then current == r.q[r.n] && queues[READY_QUEUE].nodes == r.q[r.n + 1..]
              else current == init && queues[READY_QUEUE].nodes == []
      ensures Counters() == Given(old(Counters()), Picked(), quantum)
      ensures Steady(init, old(States()), States())
    {
      hide Queued, Registered, NoLostWakeup, AllPlaced, Inv, InOrder, RunQueue, Judged, States, Signals, FirstSurvivor, PassedOver, Within, Distinct,
           Bursts, Counters, Given, Steady;
      Enter();
      var next;
      ghost var q, n;
      ghost var states := States();
      next, q, n := ChooseHead();
      ghost var states' := States();
      r := Pick(q, n, old(Signals()));
      SurvivorIn(q, n, r.g);
      Finish(next, quantum, r);
      SteadyTwice(init, states, states', States());
    }

    // -------------------------------------------------------------- multilevel queues

    /** Takes the first survivor of level k, when all processes seen in the levels before it fell. */
    method ScanLevel(k: nat, ghost seen: seq<PCB>, ghost g: map<PCB, set<nat>>) returns (next: PCB?, ghost q: seq<PCB>, ghost n: nat)
      requires Inv(null) && k < QUEUES && (current.state == Running ==> current == init)
      requires Scanned(seen, g, States(), Signals()) && |queues| == QUEUES && Distinct(seen + queues[k].nodes)
      modifies queues[k], processes`nextReady, processes`home, processes`state, processes`pending
      ensures Inv(next) && |queues| == QUEUES && (current.state == Running ==> current == init)
      ensures q == seen + old(queues[k].nodes) && |seen| <= n <= |q| && FirstSurvivor(q, n, g) && PassedIn(q, n, g, States())
      ensures if n < |q| then next == q[n] && queues[k].nodes == q[n + 1..]
              else next == null && queues[k].nodes == [] && Scanned(q, g, States(), Signals())
      ensures Steady(init, old(States()), States())
    {
      hide Queued, Registered, NoLostWakeup, AllPlaced, Inv, InOrder, States, Signals, FirstSurvivor, PassedIn, SameOff, Within, Distinct, Scanned, Steady;
      InvParts(null);
      SnapshotMeans();
      KeysAgree(seen, g, States(), Signals());
      ghost var g1, s1, b, m := Signals(), States(), queues[k].nodes, 0;
      next, b, m := TakeSurvivor(k);
      q, n := seen + b, |seen| + m;
      SurvivorIn(b, m, g1);
      ScanMore(seen, b, m, g, s1, g1, States(), Signals());
    }

    /** The processes of each level. */
    ghost function Levels(): (r: seq<seq<PCB>>)
      requires |queues| == QUEUES
      reads queues
    {
      [queues[0].nodes, queues[1].nodes, queues[2].nodes, queues[3].nodes, queues[4].nodes]
    }

    /** No process is in two levels, or twice in one. */
    lemma {:induction false} LevelsDistinct(k: nat)
      requires Queued() && k <= N_LEVELS
      ensures |queues| == QUEUES && Distinct(Flat(Levels(), k)) && Within(Flat(Levels(), k), processes) && init !in Flat(Levels(), k)
      ensures forall i :: 0 <= i < |Flat(Levels(), k)| ==> Flat(Levels(), k)[i].home < k
    {
      hide Queued, Sound, Linked;
      DistinctQueues();
      if k > 0 {
        LevelsDistinct(k - 1);
        SoundHere(k - 1);
        assert queues[k - 1].nodes == Levels()[k - 1];
        assert Distinct(queues[k - 1].nodes);
      }
    }

    /** The levels below k are empty, the others untouched. */
    ghost predicate LevelsAt(lists: seq<seq<PCB>>, k: nat)
      reads queues
    {
      && |queues| == QUEUES && |lists| == N_LEVELS
      && (forall l :: 0 <= l < k && l < N_LEVELS ==> queues[l].nodes == [])
      && (forall l :: k <= l < N_LEVELS ==> queues[l].nodes == lists[l])
    }

    /** Takes the first survivor of the first level that has one. */
    method ScanLevels() returns (next: PCB?, level: nat, ghost q: seq<PCB>, ghost n: nat)
      requires Inv(null) && |queues| == QUEUES && (current.state == Running ==> current == init) && Distinct(Flat(Levels(), N_LEVELS))
      modifies queues, processes`nextReady, processes`home, processes`state, processes`pending
      ensures Inv(next) && |queues| == QUEUES && (current.state == Running ==> current == init)
      ensures FirstSurvivor(q, n, old(Signals())) && PassedIn(q, n, old(Signals()), States())
      ensures LevelsLeft(old(Levels()), Levels(), q, n, level) && next == if n < |q| then q[n] else null
      ensures Steady(init, old(States()), States())
    {
      hide Queued, Registered, NoLostWakeup, AllPlaced, Inv, InOrder, Signals, States, FirstSurvivor, PassedIn, SameOff, Within, Distinct, Scanned, Flat,
           LevelsAt, LevelsLeft, Steady;
      InvParts(null);
      ghost var lists, g := Levels(), Signals();
      ScannedNone(g);
      FlatStep(lists, 0);
      LevelsAtStart();
      ghost var states := States();
      SteadySame(init, states);
      next, level, q, n := null, 0, [], 0;
      while level < N_LEVELS
        invariant Inv(null) && level <= N_LEVELS && |queues| == QUEUES && (current.state == Running ==> current == init)
        invariant q == Flat(lists, level) && n == |q| && Scanned(q, g, States(), Signals()) && next == null
        invariant LevelsAt(lists, level) && Steady(init, states, States())
        decreases N_LEVELS - level
      {
        ghost var states' := States();
        next, q, n := ScanStep(level, lists, q, g);
        SteadyTwice(init, states, states', States());
        if next != null {
          return;
        }
        level := level + 1;
      }
      ScannedMeans(q, g, States(), Signals());
      LevelsDone(lists, q);
    }

    lemma LevelsAtStart()
      requires |queues| == QUEUES
      ensures LevelsAt(Levels(), 0)
    {
    }

    lemma LevelsDone(lists: seq<seq<PCB>>, q: seq<PCB>)
      requires LevelsAt(lists, N_LEVELS) && q == Flat(lists, N_LEVELS)
      ensures LevelsLeft(lists, Levels(), q, |q|, N_LEVELS)
    {
    }

    /** Looks at one level, the ones before it being empty by now. */
    method ScanStep(level: nat, ghost lists: seq<seq<PCB>>, ghost seen: seq<PCB>, ghost g: map<PCB, set<nat>>)
      returns (next: PCB?, ghost q: seq<PCB>, ghost n: nat)
      requires Inv(null) && level < N_LEVELS && (current.state == Running ==> current == init) && LevelsAt(lists, level)
      requires |lists| == N_LEVELS && Distinct(Flat(lists, N_LEVELS)) && seen == Flat(lists, level) && Scanned(seen, g, States(), Signals())
      modifies queues, processes`nextReady, processes`home, processes`state, processes`pending
      ensures Inv(next) && |queues| == QUEUES && (current.state == Running ==> current == init)
      ensures q == Flat(lists, level + 1) && n <= |q| && FirstSurvivor(q, n, g) && PassedIn(q, n, g, States())
      ensures next != null ==> n < |q| && next == q[n] && LevelsLeft(lists, Levels(), q, n, level)
      ensures next == null ==> n == |q| && Scanned(q, g, States(), Signals()) && LevelsAt(lists, level + 1)
      ensures Steady(init, old(States()), States())
    {
      hide Queued, Registered, NoLostWakeup, AllPlaced, Inv, InOrder, Signals, States, FirstSurvivor, PassedIn, SameOff, Within, Distinct, Scanned, Flat, Steady;
      InvParts(null);
      DistinctQueues();
      FlatStep(lists, level);
      FlatPrefix(lists, level + 1, N_LEVELS);
      PrefixDistinct(Flat(lists, level + 1), Flat(lists, N_LEVELS));
      next, q, n := ScanLevel(level, seen, g);
    }

    /** Puts the outgoing process back at its level. */
    method RequeueLevel() returns (ghost lists: seq<seq<PCB>>)
      requires Inv(null) && current.home == NOWHERE && Multi()
      modifies queues, processes`nextReady, processes`home, processes`state
      ensures Inv(null) && |queues| == QUEUES && lists == Levels() && (current.state == Running ==> current == init)
      ensures Distinct(Flat(lists, N_LEVELS)) && Within(Flat(lists, N_LEVELS), processes) && init !in Flat(lists, N_LEVELS)
      ensures current.pid < queueLevel.Length && LevelsBefore(old(Levels()), lists, old(Runnable()), current, Dest(current))
      ensures Steady(init, old(States()), States())
    {
      hide Queued, Registered, NoLostWakeup, AllPlaced, Inv, InOrder, Within, Distinct, Flat, LevelsBefore, RunQueue, States, Steady;
      InvParts(null);
      ghost var before, back := Levels(), Runnable();
      LevelDest(current);
      Requeue();
      InvParts(null);
      LevelsDistinct(N_LEVELS);
      lists := Levels();
      BeforeFrom(before, back, current, old(Bursts()));
    }

    lemma LevelDest(p: PCB)
      requires Registered() && p in processes && Multi()
      ensures p.pid < queueLevel.Length && 0 <= Dest(p) < N_LEVELS
    {
    }

    /** Puts the outgoing process back at its level and takes the first survivor of the first level that has one. */
    method ChooseLevel() returns (next: PCB?, level: nat, ghost lists: seq<seq<PCB>>, ghost r: Pick)
      requires Inv(null) && current.home == NOWHERE && Multi()
      modifies queues, processes`nextReady, processes`home, processes`state, processes`pending
      ensures Inv(next) && |queues| == QUEUES && (current.state == Running ==> current == init)
      ensures Within(r.q, processes) && Distinct(r.q) && init !in r.q && r.g == old(Signals())
      ensures FirstSurvivor(r.q, r.n, r.g) && PassedOver(r.q, r.n, r.g) && r.n <= |r.q| && (level < N_LEVELS <==> r.n < |r.q|)
      ensures LevelsLeft(lists, Levels(), r.q, r.n, level) && next == if r.n < |r.q| then r.q[r.n] else null
      ensures current.pid < queueLevel.Length && LevelsBefore(old(Levels()), lists, old(Runnable()), current, Dest(current))
      ensures Steady(init, old(States()), States())
    {
      hide Queued, Registered, NoLostWakeup, AllPlaced, Inv, InOrder, Signals, States, FirstSurvivor, PassedOver, PassedIn, Within, Distinct, Flat,
           LevelsLeft, LevelsBefore, RunQueue, Steady;
      InvParts(null);
      ghost var states := States();
      lists := RequeueLevel();
      ghost var states' := States();
      ghost var q, n;
      next, level, q, n := ScanLevels();
      SteadyTwice(init, states, states', States());
      InvParts(next);
      r := Pick(q, n, old(Signals()));
      SurvivorIn(q, n, r.g);
      PassedFrom(q, n, r.g);
      LeftWithin(lists, Levels(), q, n, level);
      LevelsPicked(lists, Levels(), q, n, level);
    }

    lemma BeforeFrom(before: seq<seq<PCB>>, back: bool, p: PCB, e: map<PCB, int>)
      requires |queues| == QUEUES && Multi() && p.pid < queueLevel.Length && 0 <= Dest(p) < N_LEVELS && |before| == N_LEVELS
      requires RunQueue(algo, before[Dest(p)], back, p, queues[Dest(p)].nodes, e)
      requires forall l :: 0 <= l < N_LEVELS && l != Dest(p) ==> queues[l].nodes == before[l]
      ensures LevelsBefore(before, Levels(), back, p, Dest(p))
    {
    }

    /** What was scanned is the beginning of all levels. */
    lemma LeftWithin(lists: seq<seq<PCB>>, after: seq<seq<PCB>>, q: seq<PCB>, n: nat, level: nat)
      requires LevelsLeft(lists, after, q, n, level)
      requires Distinct(Flat(lists, N_LEVELS)) && Within(Flat(lists, N_LEVELS), processes) && init !in Flat(lists, N_LEVELS)
      ensures Distinct(q) && Within(q, processes) && init !in q
    {
      hide Flat;
      var all := Flat(lists, N_LEVELS);
      FlatPrefix(lists, if level < N_LEVELS then level + 1 else N_LEVELS, N_LEVELS);
      PrefixDistinct(q, all);
      forall i | 0 <= i < |q| ensures q[i] in processes && q[i] != init { assert q[i] == all[i]; }
    }

    lemma ScannedNone(g: map<PCB, set<nat>>)
      requires g == Signals()
      ensures Scanned([], g, States(), g)
    {
    }

    // -------------------------------------------------------------- lottery

    static ghost function Tickets(s: seq<PCB>): (r: seq<int>)
      reads s`tickets
      ensures |r| == |s| && forall i :: 0 <= i < |s| ==> r[i] == s[i].tickets
    {
      if s == [] then [] else Tickets(s[..|s| - 1]) + [s[|s| - 1].tickets]
    }

    /** The walk that adds up the tickets of the ready queue. */
    method CountTickets() returns (total: nat)
      requires Queued()
      ensures |queues| == QUEUES && total == Total(Tickets(queues[READY_QUEUE].nodes))
    {
      hide Queued, Tickets;
      DistinctQueues();
      SoundHere(READY_QUEUE);
      ghost var s, ts := queues[READY_QUEUE].nodes, Tickets(queues[READY_QUEUE].nodes);
      total := 0;
      var p := queues[READY_QUEUE].head;
      ghost var k: nat := 0;
      while p != null
        invariant k <= |s| && p == (if k < |s| then s[k] else null) && total == Total(ts[..k])
        decreases |s| - k
      {
        TotalStep(ts, k);
        total := total + Weight(p.tickets);
        p := p.nextReady;
        k := k + 1;
      }
      assert ts[..|s|] == ts;
    }

    /** The walk to the holder of the winning ticket. */
    method FindWinner(winner: nat) returns (previous: PCB?, candidate: PCB, ghost i: nat)
      requires Queued() && |queues| == QUEUES && winner < Total(Tickets(queues[READY_QUEUE].nodes))
      ensures i == Winner(Tickets(queues[READY_QUEUE].nodes), winner) && candidate == queues[READY_QUEUE].nodes[i]
      ensures previous == if i == 0 then null else queues[READY_QUEUE].nodes[i - 1]
    {
      hide Queued, Tickets, Winner, Total, Linked;
      SoundHere(READY_QUEUE);
      ghost var s, ts := queues[READY_QUEUE].nodes, Tickets(queues[READY_QUEUE].nodes);
      WinStart(ts);
      HeadOf();
      previous, candidate, i := null, queues[READY_QUEUE].head, 0;
      var counter: nat := 0;
      while true
        invariant i < |s| && candidate == s[i] && previous == (if i == 0 then null else s[i - 1])
        invariant counter == Total(ts[..i]) && counter <= winner
        decreases |s| - i
      {
        WinStep(ts, winner, i);
        NextAfter(i);
        counter := counter + Weight(candidate.tickets);
        if winner < counter {
          return;
        }
        previous := candidate;
        i := i + 1;
        candidate := candidate.nextReady;
      }
    }

    /** Draws a winner with the random number that the timer yields. */
    method Draw(timer: Word) returns (previous: PCB?, candidate: PCB?, ghost i: nat)
      requires Queued()
      modifies this`rngState
      ensures Queued() && |queues| == QUEUES
      ensures var s := queues[READY_QUEUE].nodes;
        if s == [] then candidate == null && rngState == old(rngState)
        else
          && rngState == NextState(old(rngState), timer) && Wins(Tickets(s), rngState, i)
          && i < |s| && candidate == s[i] && previous == if i == 0 then null else s[i - 1]
    {
      hide Queued, Tickets, Winner, NextState, Value;
      previous, candidate, i := null, null, 0;
      var total := CountTickets();
      TotalZero(Tickets(queues[READY_QUEUE].nodes));
      if total == 0 {
        return;
      }
      rngState := NextState(rngState, timer);
      var winner := Value(rngState) % total;
      var c;
      previous, c, i := FindWinner(winner);
      candidate := c;
    }

    /** Draws a winner and takes it from the ready queue. */
    method DrawOne(timer: Word) returns (p: PCB?, ghost i: nat)
      requires Inv(null) && algo == Lottery
      modifies this`rngState, queues[READY_QUEUE], processes`nextReady, processes`home
      ensures Inv(p) && |queues| == QUEUES && Rolls(old(rngState), rngState, |old(queues[READY_QUEUE].nodes)|, |queues[READY_QUEUE].nodes|)
      ensures var s := old(queues[READY_QUEUE].nodes);
        if s == [] then p == null && rngState == old(rngState) && queues[READY_QUEUE].nodes == []
        else
          && rngState == NextState(old(rngState), timer) && Wins(old(Tickets(queues[READY_QUEUE].nodes)), rngState, i)
          && i < |s| && p == s[i] && queues[READY_QUEUE].nodes == Without(s, i)
    {
      hide Queued, Registered, NoLostWakeup, AllPlaced, Inv, InOrder, Tickets, Wins, NextState, Rolls, Without;
      InvParts(null);
      ghost var r, s := rngState, queues[READY_QUEUE].nodes;
      SoundHere(READY_QUEUE);
      var previous;
      previous, p, i := Draw(timer);
      InvFrom(null);
      if p != null {
        TakeAt(READY_QUEUE, previous, p, i);
        RollsTaken(r, timer, s, i);
      } else {
        RollsMean(r, timer, |s|);
      }
    }

    static lemma RollsTaken(r: Word, timer: Word, s: seq<PCB>, i: nat)
      requires i < |s|
      ensures Rolls(r, NextState(r, timer), |s|, |Without(s, i)|)
    {
      RollsMean(r, timer, |s|);
    }

    /** Takes the process at place i of queue k. */
    method TakeAt(k: nat, previous: PCB?, p: PCB, ghost i: nat)
      requires Inv(null) && k < QUEUES && |queues| == QUEUES && i < |queues[k].nodes| && queues[k].nodes[i] == p
      requires previous == if i == 0 then null else queues[k].nodes[i - 1]
      requires algo != Sjf
      modifies queues[k], processes`nextReady, p`home
      ensures Inv(p) && queues[k].nodes == Without(old(queues[k].nodes), i)
    {
      hide Queued, Registered, NoLostWakeup, AllPlaced, Inv, Linked;
      InvParts(null);
      SoundHere(k);
      ReadyThere(k);
      Drop(k, previous, p, i);
      PlacedKept(p);
      InvFrom(p);
    }

    /** One draw: a winner is taken and judged; left is what remains of q. */
    method DrawAndJudge(ghost q: seq<PCB>, ghost left: set<PCB>, ghost s: map<PCB, State>, ghost g: map<PCB, set<nat>>)
      returns (p: PCB?, ghost left': set<PCB>, ghost i: nat)
      requires Inv(null) && algo == Lottery && Distinct(q) && |queues| == QUEUES && queues[READY_QUEUE].nodes == Keep(q, left)
      requires FellOut(q, left, s, g, States(), Signals())
      modifies this`rngState, queues[READY_QUEUE], processes`nextReady, processes`home, processes`state, processes`pending
      ensures |queues| == QUEUES && queues[READY_QUEUE].nodes == Keep(q, left')
      ensures Rolls(old(rngState), rngState, |Keep(q, left)|, |Keep(q, left')|)
      ensures p == null ==> left' == left && Keep(q, left) == [] && FellOut(q, left, s, g, States(), Signals()) && Inv(null)
      ensures p != null ==> left' == left - {p} && |left'| < |left| && i < |Keep(q, left)| && p == Keep(q, left)[i] && Wins(old(Tickets(queues[READY_QUEUE].nodes)), rngState, i)
      ensures p != null && p.state == Ready ==> Inv(p) && FellBut(q, left', p, s, g, States())
      ensures p != null && p.state != Ready ==> Inv(null) && FellOut(q, left', s, g, States(), Signals())
    {
      hide Queued, Registered, NoLostWakeup, AllPlaced, Inv, InOrder, Tickets, Wins, NextState, Keep, FellOut, FellBut, Judged, States, Signals, Distinct, Rolls;
      var timer: Word := *;
      left' := left;
      p, i := DrawOne(timer);
      InvParts(p);
      if p != null {
        KeepLess(q, left, i);
        KeepMembers(q, left);
        ghost var s1, g1 := States(), Signals();
        Judge(p);
        left' := left - {p};
        FellOutStep(q, left, p, s, g, s1, g1, States(), Signals());
        StateOf(p);
        InvParts(if p.state == Ready then p else null);
      }
    }

    ghost function Shares(): (m: map<PCB, int>)
      reads this`processes, processes`tickets
    {
      map p | p in processes :: p.tickets
    }

    lemma SharesMean(s: seq<PCB>)
      requires Within(s, processes)
      ensures TicketsOf(s, Shares()) == Tickets(s)
    {
    }

    /** One draw; the search is over when its winner survives or nobody is left. */
    method DrawRound(ghost q: seq<PCB>, ghost left: set<PCB>, ghost s: map<PCB, State>, ghost g: map<PCB, set<nat>>, ghost r0: Word,
                     ghost m: map<PCB, int>)
      returns (next: PCB?, over: bool, ghost left': set<PCB>)
      requires Inv(null) && algo == Lottery && Distinct(q) && Within(q, processes) && |queues| == QUEUES && queues[READY_QUEUE].nodes == Keep(q, left)
      requires FellOut(q, left, s, g, States(), Signals()) && |Keep(q, left)| <= |q| && Rolled(r0, rngState, |q| - |Keep(q, left)|)
      requires m == Shares()
      modifies this`rngState, queues[READY_QUEUE], processes`nextReady, processes`home, processes`state, processes`pending
      ensures |queues| == QUEUES && queues[READY_QUEUE].nodes == Keep(q, left') && |Keep(q, left')| <= |q| && Rolled(r0, rngState, |q| - |Keep(q, left')|)
      ensures m == Shares() && (over ==> Inv(next) && FellBut(q, left', next, s, g, States()) && Drawn(q, left', next, rngState, m))
      ensures !over ==> Inv(null) && FellOut(q, left', s, g, States(), Signals()) && |left'| < |left|
    {
      hide Queued, Registered, NoLostWakeup, AllPlaced, Inv, InOrder, Tickets, Keep, FellOut, FellBut, States, Signals, Shares, Distinct, Drawn, Wins, Within, Rolls, Rolled;
      KeepWithin(q, left);
      SharesMean(Keep(q, left));
      ghost var i;
      ghost var r := rngState;
      next, left', i := DrawAndJudge(q, left, s, g);
      RollsOn(r0, r, rngState, |q|, |Keep(q, left)|, |Keep(q, left')|);
      over := next == null || next.state == Ready;
      if next == null {
        FellOutEnd(q, left, s, g, States(), Signals());
        DrawnNone(q, left, rngState, m);
      } else if next.state == Ready {
        DrawnFrom(q, left, i, rngState, m);
      }
    }

    /** The draws, until a winner survives its signals or nobody is left. */
    method DrawLive() returns (next: PCB?, ghost left: set<PCB>)
      requires Inv(null) && algo == Lottery && |queues| == QUEUES && (current.state == Running ==> current == init)
      modifies this`rngState, queues[READY_QUEUE], processes`nextReady, processes`home, processes`state, processes`pending
      ensures Inv(next) && |queues| == QUEUES
      ensures var q := old(queues[READY_QUEUE].nodes);
        && queues[READY_QUEUE].nodes == Keep(q, left) && FellBut(q, left, next, old(States()), old(Signals()), States())
        && Drawn(q, left, next, rngState, old(Shares())) && Rolled(old(rngState), rngState, |q| - |Keep(q, left)|)
    {
      hide Queued, Registered, NoLostWakeup, AllPlaced, Inv, InOrder, Tickets, Keep, FellOut, FellBut, States, Signals, Shares, Distinct, Drawn, Wins, Within,
           Linked, Rolls, Rolled, Everyone;
      InvParts(null);
      SoundHere(READY_QUEUE);
      SnapshotMeans();
      ghost var q, s, g, m := queues[READY_QUEUE].nodes, States(), Signals(), Shares();
      left := set x | x in q;
      KeepAll(q, left);
      FellOutStart(q, left, s, g);
      ghost var r0 := rngState;
      RolledNot(r0);
      next := null;
      var over := false;
      while !over
        invariant |queues| == QUEUES && queues[READY_QUEUE].nodes == Keep(q, left)
        invariant |Keep(q, left)| <= |q| && Rolled(r0, rngState, |q| - |Keep(q, left)|)
        invariant !over ==> Inv(null) && FellOut(q, left, s, g, States(), Signals())
        invariant m == Shares() && (over ==> Inv(next) && FellBut(q, left, next, s, g, States()) && Drawn(q, left, next, rngState, m))
        decreases !over, |left|
      {
        next, over, left := DrawRound(q, left, s, g, r0, m);
      }
    }

    lemma KeepWithin(q: seq<PCB>, left: set<PCB>)
      requires Within(q, processes)
      ensures Within(Keep(q, left), processes)
    {
      KeepMembers(q, left);
      forall i | 0 <= i < |Keep(q, left)| ensures Keep(q, left)[i] in processes { assert Keep(q, left)[i] in Keep(q, left); }
    }

    /** The chosen process survived its signals; those that are gone for another reason fell to theirs. */
    ghost predicate Fallen(c: Choice)
      reads c.q`state
    {
      && (forall x :: x in c.q && x !in c.left && x != c.next ==> x in c.g && Fate(c.g[x]) != Ready && x.state == Fate(c.g[x]))
      && (c.next != null ==> c.next in c.q && c.next !in c.left && c.next in c.g && Fate(c.g[c.next]) == Ready)
    }

    /** Dispatching changes nothing about the processes that fell. */
    twostate lemma StillFallen(c: Choice)
      requires old(Fallen(c)) && processes == old(processes) && Within(c.q, processes)
      requires init !in c.q && current == if c.next == null then init else c.next
      requires forall p :: p in processes && p != current && p != old(current) ==> p.state == old(p.state)
      requires old(current) != current ==> old(current).state == if old(current.state) == Running then Ready else old(current.state)
      ensures Fallen(c)
    {
    }

    lemma FallenFrom(c: Choice, s: map<PCB, State>)
      requires FellBut(c.q, c.left, c.next, s, c.g, States())
      ensures Fallen(c)
    {
    }

    /** A process that fell does not run. */
    lemma StayedDown(c: Choice, s: map<PCB, State>)
      requires FellBut(c.q, c.left, c.next, s, c.g, States()) && current in s && (s[current] == Running ==> current == init) && current in processes
      ensures current.state == Running ==> current == init
    {
    }

    /** Recharges the chosen process, if a quantum is given, and dispatches it. */
    method ConcludeChoice(quantum: int, next: PCB?, ghost c: Choice)
      requires Inv(next) && Guarded(1) && (current.state == Running ==> current == init)
      requires Fallen(c) && c.next == next && init !in c.q && Within(c.q, processes)
      modifies this`current, processes`state, processes`preemptDisabled, processes`counter
      ensures Valid() && Fallen(c) && current == if next == null then init else next
      ensures Counters() == Given(old(Counters()), Picked(), quantum)
      ensures Steady(init, old(States()), States())
    {
      hide Queued, Registered, NoLostWakeup, AllPlaced, Inv, InOrder, Fallen, Within, Counters, Given, States, Steady;
      InvParts(next);
      Give(next, quantum);
      InvFrom(next);
      DispatchChoice(next, c);
    }

    method DispatchChoice(next: PCB?, ghost c: Choice)
      requires Inv(next) && Guarded(1) && (current.state == Running ==> current == init)
      requires Fallen(c) && c.next == next && init !in c.q && Within(c.q, processes)
      modifies this`current, processes`state, processes`preemptDisabled
      ensures Valid() && Fallen(c) && current == if next == null then init else next
      ensures Steady(init, old(States()), States())
    {
      hide Queued, Registered, NoLostWakeup, AllPlaced, Inv, InOrder, Fallen, Within, States, Steady;
      InvParts(next);
      Dispatch(next);
      StillFallen(c);
    }

    /** Draws until a winner survives. */
    method TakeByLottery() returns (next: PCB?, ghost c: Choice)
      requires Inv(null) && algo == Lottery && (current.state == Running ==> current == init) && |queues| == QUEUES
      modifies this`rngState, queues[READY_QUEUE], processes`nextReady, processes`home, processes`state, processes`pending
      ensures Inv(next) && |queues| == QUEUES && (current.state == Running ==> current == init)
      ensures c.q == old(queues[READY_QUEUE].nodes) && c.next == next && c.g == old(Signals()) && Fallen(c) && init !in c.q && Within(c.q, processes)
      ensures queues[READY_QUEUE].nodes == Keep(c.q, c.left) && Drawn(c.q, c.left, next, rngState, old(Shares()))
      ensures Rolled(old(rngState), rngState, |c.q| - |queues[READY_QUEUE].nodes|)
      ensures Steady(init, old(States()), States())
    {
      hide Queued, Registered, NoLostWakeup, AllPlaced, Inv, InOrder, Signals, States, Shares, Within, Distinct, Keep, FellBut, Drawn, Fallen, Steady, Rolled, Everyone;
      InvParts(null);
      SoundHere(READY_QUEUE);
      ReadyThere(READY_QUEUE);
      SnapshotMeans();
      ghost var q, s, left := queues[READY_QUEUE].nodes, States(), {};
      next, left := DrawLive();
      InvParts(next);
      c := Choice(q, left, next, old(Signals()));
      FallenFrom(c, s);
      StayedDown(c, s);
      SteadyFell(init, c, s, States());
    }

    /** Puts the outgoing process back and draws until a winner survives. */
    method ChooseByLottery() returns (next: PCB?, ghost c: Choice)
      requires Inv(null) && current.home == NOWHERE && algo == Lottery
      modifies this`rngState, queues, processes`nextReady, processes`home, processes`state, processes`pending
      ensures Inv(next) && |queues| == QUEUES && (current.state == Running ==> current == init)
      ensures c.next == next && c.g == old(Signals()) && Fallen(c) && init !in c.q && Within(c.q, processes)
      ensures RunQueue(algo, old(queues[READY_QUEUE].nodes), old(Runnable()), current, c.q, old(Bursts()))
      ensures queues[READY_QUEUE].nodes == Keep(c.q, c.left) && Drawn(c.q, c.left, next, rngState, old(Shares()))
      ensures Rolled(old(rngState), rngState, |c.q| - |queues[READY_QUEUE].nodes|)
      ensures Steady(init, old(States()), States())
    {
      hide Queued, Registered, NoLostWakeup, AllPlaced, Inv, InOrder, Signals, States, Shares, RunQueue, Bursts, Within, Keep, Drawn, Fallen, Steady, Rolled;
      InvParts(null);
      ghost var states := States();
      Requeue();
      ghost var states' := States();
      InvParts(null);
      next, c := TakeByLottery();
      SteadyTwice(init, states, states', States());
    }

    /** The lottery: a winner that survives its signals is dispatched with a fresh quantum. */
    method PickLottery() returns (ghost c: Choice)
      requires Callable() && algo == Lottery
      modifies this`current, this`rngState, queues, processes`nextReady, processes`home, processes`state, processes`pending,
               processes`preemptDisabled, processes`counter
      ensures Valid() && c.g == old(Signals()) && Fallen(c) && Within(c.q, processes) && current == if c.next == null then init else c.next
      ensures RunQueue(algo, old(queues[READY_QUEUE].nodes), old(Runnable()), old(current), c.q, old(Bursts()))
      ensures queues[READY_QUEUE].nodes == Keep(c.q, c.left) && Drawn(c.q, c.left, c.next, rngState, old(Shares()))
      ensures Rolled(old(rngState), rngState, |c.q| - |queues[READY_QUEUE].nodes|)
      ensures Counters() == Given(old(Counters()), Picked(), 10)
      ensures Steady(init, old(States()), States())
    {
      hide Queued, Registered, NoLostWakeup, AllPlaced, Inv, InOrder, RunQueue, Signals, Within, Bursts, Fallen, Drawn, Keep, Shares, Counters, Given, States, Steady, Rolled;
      Enter();
      var next;
      ghost var states := States();
      next, c := ChooseByLottery();
      ghost var states' := States();
      ConcludeChoice(10, next, c);
      SteadyTwice(init, states, states', States());
    }

    // -------------------------------------------------------------- priority aging

    /** Handles the signals of a queued process, which leaves the queue if it does not survive them. */
    method Sift(previous: PCB?, p: PCB, ghost i: nat)
      requires Inv(null) && algo != Sjf && |queues| == QUEUES && i < |queues[READY_QUEUE].nodes| && queues[READY_QUEUE].nodes[i] == p
      requires previous == if i == 0 then null else queues[READY_QUEUE].nodes[i - 1]
      modifies queues[READY_QUEUE], processes`nextReady, processes`home, processes`state, processes`pending
      ensures Inv(null) && |queues| == QUEUES && Examined(old(States()), old(Signals()), States(), Signals(), p)
      ensures queues[READY_QUEUE].nodes == if p.state == Ready then old(queues[READY_QUEUE].nodes) else Without(old(queues[READY_QUEUE].nodes), i)
    {
      hide Queued, Registered, NoLostWakeup, AllPlaced, Inv, Linked, States, Signals, Examined, Everyone;
      InvParts(null);
      SoundHere(READY_QUEUE);
      ReadyThere(READY_QUEUE);
      SnapshotMeans();
      ghost var s, g := States(), Signals();
      HandleSignals(p);
      if p.state != Ready {
        Drop(READY_QUEUE, previous, p, i);
        DistinctQueues();
        PlacedKept(p);
      } else {
        PlacedSame();
      }
      WakeupKept(p);
      InvFrom(null);
      ExaminedFrom(s, g, p);
    }

    twostate lemma PlacedSame()
      requires old(AllPlaced(null)) && processes == old(processes) && current == old(current) && moved == old(moved)
      requires queueLevel[..] == old(queueLevel[..])
      requires forall x :: x in processes ==> x.state == old(x.state) && x.home == old(x.home) && x.priority == old(x.priority)
      ensures AllPlaced(null)
    {
      forall x | x in processes ensures Placed(x, null) { assert old(Placed(x, null)); }
    }

    lemma ExaminedFrom(s: map<PCB, State>, g: map<PCB, set<nat>>, p: PCB)
      requires s.Keys == g.Keys == Everyone() && p in processes && p in s && s[p] == Ready && p.state == Fate(g[p]) && p.pending <= g[p]
      requires forall x :: x in processes && x != p ==> x in s && x.state == s[x] && x.pending == g[x]
      ensures Examined(s, g, States(), Signals(), p)
    {
    }

    /** best is the first process with the largest positive counter among the first i of s; max is that counter. */
    ghost predicate Best(s: seq<PCB>, i: nat, b: nat, best: PCB?, bestPrevious: PCB?, max: int)
      reads s`counter
    {
      && i <= |s|
      && (best == null ==> max == 0 && forall k :: 0 <= k < i ==> s[k].counter <= 0)
      && (best != null ==>
            && b < i && best == s[b] && bestPrevious == (if b == 0 then null else s[b - 1]) && max == best.counter && 0 < max
            && (forall k :: 0 <= k < i ==> s[k].counter <= max) && (forall k :: 0 <= k < b ==> s[k].counter < max))
    }

    lemma BestStart(s: seq<PCB>)
      ensures Best(s, 0, 0, null, null, 0)
    {
    }

    /** One kept process more. */
    lemma BestStep(s: seq<PCB>, i: nat, b: nat, best: PCB?, bestPrevious: PCB?, max: int, previous: PCB?)
      requires Best(s, i, b, best, bestPrevious, max) && i < |s| && previous == if i == 0 then null else s[i - 1]
      ensures if max < s[i].counter then Best(s, i + 1, i, s[i], previous, s[i].counter) else Best(s, i + 1, b, best, bestPrevious, max)
    {
    }

    /** Unlinking what stands behind changes nothing about the best so far. */
    lemma BestWithout(s: seq<PCB>, i: nat, b: nat, best: PCB?, bestPrevious: PCB?, max: int)
      requires Best(s, i, b, best, bestPrevious, max) && i < |s|
      ensures Best(Without(s, i), i, b, best, bestPrevious, max)
    {
      var t := Without(s, i);
      assert forall k :: 0 <= k < i ==> t[k] == s[k];
    }

    lemma NextAfter(i: nat)
      requires Queued() && |queues| == QUEUES && i < |queues[READY_QUEUE].nodes|
      ensures queues[READY_QUEUE].nodes[i].nextReady == After(queues[READY_QUEUE].nodes, i)
    {
      SoundHere(READY_QUEUE);
    }

    /** Looks at the j-th process of q, at place i of the queue. */
    method SiftOne(node: PCB, previous: PCB?, ghost q: seq<PCB>, ghost left: set<PCB>, ghost j: nat, ghost i: nat,
                   ghost s: map<PCB, State>, ghost g: map<PCB, set<nat>>) returns (ghost left': set<PCB>)
      requires Inv(null) && algo != Sjf && |queues| == QUEUES && Distinct(q)
      requires i < |queues[READY_QUEUE].nodes| && queues[READY_QUEUE].nodes[i] == node && j < |q| && q[j] == node
      requires previous == if i == 0 then null else queues[READY_QUEUE].nodes[i - 1]
      requires Sifted(q, j, left, s, g, States(), Signals())
      modifies queues[READY_QUEUE], processes`nextReady, processes`home, processes`state, processes`pending
      ensures Inv(null) && |queues| == QUEUES && Sifted(q, j + 1, left', s, g, States(), Signals())
      ensures left' == if node.state == Ready then left else left - {node}
      ensures queues[READY_QUEUE].nodes == if node.state == Ready then old(queues[READY_QUEUE].nodes) else Without(old(queues[READY_QUEUE].nodes), i)
    {
      hide Inv, States, Signals, Examined, Distinct, Sifted, Without;
      ghost var s1, g1 := States(), Signals();
      Sift(previous, node, i);
      SiftedStep(q, j, left, s, g, s1, g1, States(), Signals());
      StateOf(node);
      left' := if node.state == Ready then left else left - {node};
    }

    /** One round of the walk. */
    method SiftRound(node: PCB, previous: PCB?, best: PCB?, bestPrevious: PCB?, max: int,
                     ghost q: seq<PCB>, ghost left: set<PCB>, ghost j: nat, ghost i: nat, ghost b: nat, ghost s: map<PCB, State>, ghost g: map<PCB, set<nat>>)
      returns (node': PCB?, previous': PCB?, best': PCB?, bestPrevious': PCB?, max': int, ghost left': set<PCB>, ghost i': nat, ghost b': nat)
      requires Inv(null) && algo != Sjf && |queues| == QUEUES && Distinct(q)
      requires Walk(queues[READY_QUEUE].nodes, q, left, j, i, node, previous) && Best(queues[READY_QUEUE].nodes, i, b, best, bestPrevious, max)
      requires Sifted(q, j, left, s, g, States(), Signals())
      modifies queues[READY_QUEUE], processes`nextReady, processes`home, processes`state, processes`pending
      ensures Inv(null) && |queues| == QUEUES && j < |q|
      ensures Walk(queues[READY_QUEUE].nodes, q, left', j + 1, i', node', previous') && Best(queues[READY_QUEUE].nodes, i', b', best', bestPrevious', max')
      ensures Sifted(q, j + 1, left', s, g, States(), Signals())
      ensures left' <= left
    {
      hide Queued, Registered, NoLostWakeup, AllPlaced, Inv, InOrder, Linked, States, Signals, Distinct, Keep, Best, Sifted, Walk;
      InvParts(null);
      ghost var t := queues[READY_QUEUE].nodes;
      previous', best', bestPrevious', max', i', b' := previous, best, bestPrevious, max, i, b;
      WalkHere(t, q, left, j, i, node, previous);
      NextAfter(i);
      node' := node.nextReady;
      left' := SiftOne(node, previous, q, left, j, i, s, g);
      if node.state != Ready {
        WalkDropped(t, q, left, j, i, node, previous);
        BestWithout(t, i, b, best, bestPrevious, max);
      } else {
        WalkKept(t, q, left, j, i, node, previous);
        BestStep(t, i, b, best, bestPrevious, max, previous);
        if node.counter > max {
          max', best', bestPrevious', b' := node.counter, node, previous, i;
        }
        previous' := node;
        i' := i + 1;
      }
    }

    /** The walk over the whole queue: who does not survive its signals leaves, and the best of the others is found. */
    method SiftAll() returns (best: PCB?, bestPrevious: PCB?, ghost left: set<PCB>, ghost b: nat, ghost max: int)
      requires Inv(null) && algo != Sjf && |queues| == QUEUES
      modifies queues[READY_QUEUE], processes`nextReady, processes`home, processes`state, processes`pending
      ensures Inv(null) && |queues| == QUEUES
      ensures var q := old(queues[READY_QUEUE].nodes);
        queues[READY_QUEUE].nodes == Keep(q, left) && Sifted(q, |q|, left, old(States()), old(Signals()), States(), Signals())
      ensures Best(queues[READY_QUEUE].nodes, |queues[READY_QUEUE].nodes|, b, best, bestPrevious, max)
    {
      hide Queued, Registered, NoLostWakeup, AllPlaced, Inv, InOrder, Linked, States, Signals, Distinct, Keep, Best, Sifted, Walk;
      InvParts(null);
      SoundHere(READY_QUEUE);
      SnapshotMeans();
      ghost var q, s, g := queues[READY_QUEUE].nodes, States(), Signals();
      left := set x | x in q;
      KeepAll(q, left);
      SiftedStart(q, left, s, g);
      HeadOf();
      var maxCounter, previous, node := 0, null, queues[READY_QUEUE].head;
      best, bestPrevious, b := null, null, 0;
      ghost var i: nat, j: nat := 0, 0;
      WalkStart(q, left, node);
      BestStart(q);
      while node != null
        invariant Inv(null) && |queues| == QUEUES && j <= |q|
        invariant Walk(queues[READY_QUEUE].nodes, q, left, j, i, node, previous)
        invariant Best(queues[READY_QUEUE].nodes, i, b, best, bestPrevious, maxCounter)
        invariant Sifted(q, j, left, s, g, States(), Signals())
        decreases |q| - j
      {
        node, previous, best, bestPrevious, maxCounter, left, i, b :=
          SiftRound(node, previous, best, bestPrevious, maxCounter, q, left, j, i, b, s, g);
        j := j + 1;
      }
      WalkEnd(queues[READY_QUEUE].nodes, q, left, j, i, previous);
      max := maxCounter;
    }

    lemma HeadOf()
      requires Queued() && |queues| == QUEUES
      ensures queues[READY_QUEUE].head == if queues[READY_QUEUE].nodes == [] then null else queues[READY_QUEUE].nodes[0]
    {
      SoundHere(READY_QUEUE);
    }

    ghost function Priorities(): (m: map<PCB, int>)
      reads this`processes, processes`priority
    {
      map p | p in processes :: p.priority
    }

    /** A new epoch: the counter of every registered process, blocked ones included, is recharged. */
    method RechargeAll()
      requires Distinct(processes)
      modifies processes`counter
      ensures forall p :: p in processes ==> Refilled(old(p.counter), p.priority, p.counter)
    {
      for i := 0 to |processes|
        invariant forall j :: 0 <= j < i ==> Refilled(old(processes[j].counter), processes[j].priority, processes[j].counter)
        invariant forall j :: i <= j < |processes| ==> processes[j].counter == old(processes[j].counter)
      {
        processes[i].counter := processes[i].counter / 2 + processes[i].priority;
      }
    }

    lemma EpochMore(c: map<PCB, int>, pr: map<PCB, int>, e: nat, c1: map<PCB, int>)
      requires EpochsOf(c, pr, e, c1) && pr == Priorities() && c1.Keys == Everyone()
      requires forall p :: p in processes ==> p in c1 && Refilled(c1[p], p.priority, p.counter)
      ensures EpochsOf(c, pr, e + 1, Counters())
    {
      hide Refilled, Recharged;
      forall p | p in processes
        ensures p.counter == Recharged(c1[p], p.priority)
      {
        RechargeIs(c1[p], p.priority, p.counter);
      }
    }

    /** One pass of the selection loop; pool, the survivors of the first pass, stays the same afterwards. */
    method SiftPool(ghost first: bool, ghost q: seq<PCB>, ghost pool: set<PCB>, ghost s: map<PCB, State>, ghost g: map<PCB, set<nat>>)
      returns (best: PCB?, bestPrevious: PCB?, ghost pool': set<PCB>, ghost b: nat, ghost max: int)
      requires Inv(null) && algo != Sjf && |queues| == QUEUES
      requires if first then queues[READY_QUEUE].nodes == q && s == States() && g == Signals()
               else queues[READY_QUEUE].nodes == Keep(q, pool) && Sifted(q, |q|, pool, s, g, States(), Signals())
      modifies queues[READY_QUEUE], processes`nextReady, processes`home, processes`state, processes`pending
      ensures Inv(null) && |queues| == QUEUES && (!first ==> pool' == pool)
      ensures queues[READY_QUEUE].nodes == Keep(q, pool') && Sifted(q, |q|, pool', s, g, States(), Signals())
      ensures Best(queues[READY_QUEUE].nodes, |queues[READY_QUEUE].nodes|, b, best, bestPrevious, max)
    {
      hide Queued, Registered, NoLostWakeup, AllPlaced, Inv, InOrder, States, Signals, Keep, Best, Sifted;
      ghost var s1, g1, left := States(), Signals(), {};
      best, bestPrevious, left, b, max := SiftAll();
      if first {
        pool' := left;
      } else {
        pool' := pool;
        SiftedAgain(q, pool, left, s, g, s1, g1, States(), Signals());
      }
    }

    /** How far the process at the head of the queue is from having a slice left. */
    ghost function Deficit(s: seq<PCB>): nat
      reads s`counter
    {
      if s == [] || 0 < s[0].counter then 0 else 1 - s[0].counter
    }

    /** What the choice of the best process means. */
    lemma BestChosen(q: seq<PCB>, pool: set<PCB>, b: nat, best: PCB, bestPrevious: PCB?, max: int, s: map<PCB, State>, g: map<PCB, set<nat>>)
      requires Distinct(q) && Within(q, processes) && Sifted(q, |q|, pool, s, g, States(), Signals())
      requires Best(Keep(q, pool), |Keep(q, pool)|, b, best, bestPrevious, max)
      ensures b < |Keep(q, pool)| && best == Keep(q, pool)[b] && bestPrevious == (if b == 0 then null else Keep(q, pool)[b - 1])
      ensures best in processes && best in pool && Keep(q, pool - {best}) == Without(Keep(q, pool), b)
      ensures FellBut(q, pool - {best}, best, s, g, States()) && Foremost(q, pool - {best}, best, Counters()) && Spared(q, pool - {best}, Signals())
    {
      hide Keep, States, Signals, Sifted, FellBut, Foremost, Distinct, Best, Counters, Spared;
      BestAt(Keep(q, pool), b, best, bestPrevious, max);
      KeepLess(q, pool, b);
      KeepMembers(q, pool);
      SiftedChoice(q, pool, best, s, g, States(), Signals());
      ForemostFrom(q, pool, b, best, bestPrevious, max);
    }

    /** The best process of the queue is taken. */
    method TakeBest(best: PCB, bestPrevious: PCB?, ghost q: seq<PCB>, ghost pool: set<PCB>, ghost b: nat, ghost max: int,
                    ghost s: map<PCB, State>, ghost g: map<PCB, set<nat>>)
      requires Inv(null) && algo != Sjf && |queues| == QUEUES && queues[READY_QUEUE].nodes == Keep(q, pool) && Distinct(q) && Within(q, processes)
      requires Best(queues[READY_QUEUE].nodes, |queues[READY_QUEUE].nodes|, b, best, bestPrevious, max)
      requires Sifted(q, |q|, pool, s, g, States(), Signals())
      modifies queues[READY_QUEUE], processes`nextReady, processes`home
      ensures Inv(best) && |queues| == QUEUES && queues[READY_QUEUE].nodes == Keep(q, pool - {best}) && best in pool
      ensures FellBut(q, pool - {best}, best, s, g, States()) && Foremost(q, pool - {best}, best, Counters()) && Spared(q, pool - {best}, Signals())
    {
      hide Queued, Registered, NoLostWakeup, AllPlaced, Inv, InOrder, States, Signals, Keep, Sifted, FellBut, Foremost, Distinct, Within, Counters, Best, Spared;
      BestChosen(q, pool, b, best, bestPrevious, max, s, g);
      TakeAt(READY_QUEUE, bestPrevious, best, b);
      InvParts(best);
    }

    lemma BestAt(s: seq<PCB>, b: nat, best: PCB, bestPrevious: PCB?, max: int)
      requires Best(s, |s|, b, best, bestPrevious, max)
      ensures b < |s| && best == s[b] && bestPrevious == if b == 0 then null else s[b - 1]
    {
    }

    lemma ForemostFrom(q: seq<PCB>, pool: set<PCB>, b: nat, best: PCB, bestPrevious: PCB?, max: int)
      requires Best(Keep(q, pool), |Keep(q, pool)|, b, best, bestPrevious, max) && Within(q, processes)
      ensures Foremost(q, pool - {best}, best, Counters())
    {
      KeepMembers(q, pool);
      KeepWithin(q, pool);
      assert pool - {best} + {best} == pool;
      assert ForemostAt(Keep(q, pool), b, best, Counters());
    }

    /** Recharging counters disturbs nothing. */
    method RechargeEveryone()
      requires Inv(null)
      modifies processes`counter
      ensures Inv(null) && forall p :: p in processes ==> Refilled(old(p.counter), p.priority, p.counter)
    {
      hide Queued, Registered, NoLostWakeup, AllPlaced, Inv, InOrder, Refilled, Distinct;
      InvParts(null);
      RegisteredOnce();
      RechargeAll();
      InvFrom(null);
    }

    /** Nobody in the queue has a slice left, so a new epoch begins. */
    method NewEpoch(ghost c: map<PCB, int>, ghost pr: map<PCB, int>, ghost e: nat)
      requires Inv(null) && |queues| == QUEUES && queues[READY_QUEUE].nodes != []
      requires forall i :: 0 <= i < |queues[READY_QUEUE].nodes| ==> queues[READY_QUEUE].nodes[i].counter <= 0
      requires EpochsOf(c, pr, e, Counters()) && pr == Priorities()
      modifies processes`counter
      ensures Inv(null) && |queues| == QUEUES && EpochsOf(c, pr, e + 1, Counters()) && pr == Priorities()
      ensures Exhausted(queues[READY_QUEUE].nodes, c, pr, e)
      ensures Deficit(queues[READY_QUEUE].nodes) < old(Deficit(queues[READY_QUEUE].nodes))
    {
      hide Queued, Registered, NoLostWakeup, AllPlaced, Inv, InOrder, Counters, Priorities, EpochsOf, Linked, Exhausted, Refilled, Everyone, Distinct, Within;
      InvParts(null);
      SoundHere(READY_QUEUE);
      CountersMean();
      ghost var c1, head, before := Counters(), queues[READY_QUEUE].nodes[0], queues[READY_QUEUE].nodes[0].counter;
      ExhaustedNow(queues[READY_QUEUE].nodes, c, pr, e);
      PriorityOf(head);
      RechargeEveryone();
      RechargeRises(before, head.priority, head.counter);
      EpochMore(c, pr, e, c1);
    }

    lemma CountersMean()
      ensures Counters().Keys == Everyone() && forall p :: p in processes ==> p in Counters() && Counters()[p] == p.counter
    {
    }

    lemma RegisteredOnce()
      requires Registered()
      ensures Distinct(processes)
    {
    }

    lemma PriorityOf(p: PCB)
      requires AllPlaced(null) && p in processes
      ensures 1 <= p.priority
    {
      assert Placed(p, null);
    }

    lemma ExhaustedNow(s: seq<PCB>, c: map<PCB, int>, pr: map<PCB, int>, e: nat)
      requires Within(s, processes) && EpochsOf(c, pr, e, Counters()) && forall i :: 0 <= i < |s| ==> s[i].counter <= 0
      ensures Exhausted(s, c, pr, e)
    {
    }

    /** One round of the selection loop; c and pr are the counters and priorities at its start. */
    method AgingRound(ghost first: bool, ghost q: seq<PCB>, ghost pool: set<PCB>, ghost s: map<PCB, State>, ghost g: map<PCB, set<nat>>,
                      ghost c: map<PCB, int>, ghost pr: map<PCB, int>, ghost e: nat)
      returns (next: PCB?, over: bool, ghost pool': set<PCB>, ghost left: set<PCB>)
      requires Inv(null) && algo == Aging && |queues| == QUEUES && Distinct(q) && Within(q, processes)
      requires if first then queues[READY_QUEUE].nodes == q && s == States() && g == Signals() && e == 0
               else queues[READY_QUEUE].nodes == Keep(q, pool) && Sifted(q, |q|, pool, s, g, States(), Signals()) && Keep(q, pool) != []
      requires EpochsOf(c, pr, e, Counters()) && pr == Priorities()
      requires forall k :: 0 <= k < e ==> Exhausted(Keep(q, pool), c, pr, k)
      modifies queues[READY_QUEUE], processes`nextReady, processes`home, processes`state, processes`pending, processes`counter
      ensures |queues| == QUEUES
      ensures over ==>
        && Inv(next) && queues[READY_QUEUE].nodes == Keep(q, left) && FellBut(q, left, next, s, g, States())
        && Aged(q, left, next, c, pr, e, Counters()) && Spared(q, left, Signals())
      ensures !over ==>
        && Inv(null) && queues[READY_QUEUE].nodes == Keep(q, pool') && Sifted(q, |q|, pool', s, g, States(), Signals()) && Keep(q, pool') != []
        && EpochsOf(c, pr, e + 1, Counters()) && pr == Priorities() && (forall k :: 0 <= k < e + 1 ==> Exhausted(Keep(q, pool'), c, pr, k))
        && (!first ==> Deficit(queues[READY_QUEUE].nodes) < old(Deficit(queues[READY_QUEUE].nodes)))
    {
      hide Queued, Registered, NoLostWakeup, AllPlaced, Inv, InOrder, States, Signals, Keep, Sifted, FellBut, Foremost, Distinct, Within, Counters, Priorities,
           Best, EpochsOf, Exhausted, Linked, Deficit, Spared;
      ghost var b, max;
      var best, bestPrevious;
      next, over, left := null, true, {};
      best, bestPrevious, pool', b, max := SiftPool(first, q, pool, s, g);
      if best != null {
        TakeBest(best, bestPrevious, q, pool', b, max, s, g);
        left, next := pool' - {best}, best;
        assert left + {best} == pool';
        return;
      }
      InvParts(null);
      HeadOf();
      if queues[READY_QUEUE].head == null {
        left := pool';
        SiftedNone(q, pool', s, g, States(), Signals());
        return;
      }
      BestNone(queues[READY_QUEUE].nodes, b, bestPrevious, max);
      NewEpoch(c, pr, e);
      over := false;
    }

    lemma BestNone(s: seq<PCB>, b: nat, bestPrevious: PCB?, max: int)
      requires Best(s, |s|, b, null, bestPrevious, max)
      ensures forall i :: 0 <= i < |s| ==> s[i].counter <= 0
    {
    }

    /** The selection loop of the aging policy. */
    method SelectAging() returns (next: PCB?, ghost left: set<PCB>, ghost e: nat)
      requires Inv(null) && algo == Aging && |queues| == QUEUES
      modifies queues[READY_QUEUE], processes`nextReady, processes`home, processes`state, processes`pending, processes`counter
      ensures Inv(next) && |queues| == QUEUES
      ensures var q := old(queues[READY_QUEUE].nodes);
        && queues[READY_QUEUE].nodes == Keep(q, left) && FellBut(q, left, next, old(States()), old(Signals()), States())
        && Aged(q, left, next, old(Counters()), old(Priorities()), e, Counters()) && Spared(q, left, Signals())
    {
      hide Queued, Registered, NoLostWakeup, AllPlaced, Inv, InOrder, States, Signals, Keep, Sifted, FellBut, Distinct, Within, Counters, Priorities,
           EpochsOf, Exhausted, Linked, Deficit, Aged, Spared;
      InvParts(null);
      SoundHere(READY_QUEUE);
      ghost var q, s, g, c, pr := queues[READY_QUEUE].nodes, States(), Signals(), Counters(), Priorities();
      ghost var pool: set<PCB>, first := {}, true;
      EpochsNone(c, pr);
      e, left, next := 0, {}, null;
      var over := false;
      while !over
        invariant |queues| == QUEUES
        invariant !over ==> Inv(null) && Within(q, processes) && EpochsOf(c, pr, e, Counters()) && pr == Priorities()
        invariant !over ==> forall k :: 0 <= k < e ==> Exhausted(Keep(q, pool), c, pr, k)
        invariant !over && first ==> queues[READY_QUEUE].nodes == q && s == States() && g == Signals() && e == 0
        invariant !over && !first ==> queues[READY_QUEUE].nodes == Keep(q, pool) && Sifted(q, |q|, pool, s, g, States(), Signals()) && Keep(q, pool) != []
        invariant over ==> Inv(next) && queues[READY_QUEUE].nodes == Keep(q, left) && FellBut(q, left, next, s, g, States())
        invariant over ==> Aged(q, left, next, c, pr, e, Counters()) && Spared(q, left, Signals())
        decreases !over, first, Deficit(queues[READY_QUEUE].nodes)
      {
        next, over, pool, left := AgingRound(first, q, pool, s, g, c, pr, e);
        first := false;
        if !over {
          e := e + 1;
        }
      }
    }

    lemma EpochsNone(c: map<PCB, int>, pr: map<PCB, int>)
      requires c == Counters() && pr == Priorities()
      ensures EpochsOf(c, pr, 0, c)
    {
    }

    /** Selects by counter. */
    method TakeByAging() returns (next: PCB?, ghost c: Choice, ghost e: nat)
      requires Inv(null) && algo == Aging && (current.state == Running ==> current == init) && |queues| == QUEUES
      modifies queues[READY_QUEUE], processes`nextReady, processes`home, processes`state, processes`pending, processes`counter
      ensures Inv(next) && |queues| == QUEUES && (current.state == Running ==> current == init)
      ensures c.q == old(queues[READY_QUEUE].nodes) && c.next == next && c.g == old(Signals()) && Fallen(c) && init !in c.q && Within(c.q, processes)
      ensures queues[READY_QUEUE].nodes == Keep(c.q, c.left) && Aged(c.q, c.left, next, old(Counters()), old(Priorities()), e, Counters())
      ensures Spared(c.q, c.left, Signals())
      ensures Steady(init, old(States()), States())
    {
      hide Queued, Registered, NoLostWakeup, AllPlaced, Inv, InOrder, Signals, States, Counters, Priorities, Within, Distinct, Keep, FellBut, Aged, Fallen, Spared, Steady, Everyone;
      InvParts(null);
      SoundHere(READY_QUEUE);
      ReadyThere(READY_QUEUE);
      SnapshotMeans();
      ghost var q, s, left := queues[READY_QUEUE].nodes, States(), {};
      next, left, e := SelectAging();
      InvParts(next);
      c := Choice(q, left, next, old(Signals()));
      FallenFrom(c, s);
      StayedDown(c, s);
      SteadyFell(init, c, s, States());
    }

    /** Puts the outgoing process back and selects by counter. */
    method ChooseByAging() returns (next: PCB?, ghost c: Choice, ghost e: nat)
      requires Inv(null) && current.home == NOWHERE && algo == Aging
      modifies queues, processes`nextReady, processes`home, processes`state, processes`pending, processes`counter
      ensures Inv(next) && |queues| == QUEUES && (current.state == Running ==> current == init)
      ensures c.next == next && c.g == old(Signals()) && Fallen(c) && init !in c.q && Within(c.q, processes)
      ensures RunQueue(algo, old(queues[READY_QUEUE].nodes), old(Runnable()), current, c.q, old(Bursts()))
      ensures queues[READY_QUEUE].nodes == Keep(c.q, c.left) && Aged(c.q, c.left, next, old(Counters()), old(Priorities()), e, Counters())
      ensures Spared(c.q, c.left, Signals())
      ensures Steady(init, old(States()), States())
    {
      hide Queued, Registered, NoLostWakeup, AllPlaced, Inv, InOrder, Signals, States, Counters, Priorities, RunQueue, Bursts, Within, Keep, Aged, Fallen, Spared, Steady;
      InvParts(null);
      ghost var states := States();
      Requeue();
      ghost var states' := States();
      InvParts(null);
      next, c, e := TakeByAging();
      SteadyTwice(init, states, states', States());
    }

    /**
     Priority aging: the first survivor with the largest counter is dispatched with the slice it has left;
     e new epochs were needed to find one, and there is none exactly when nobody survives.
     */
    method PickAging() returns (ghost c: Choice, ghost e: nat)
      requires Callable() && algo == Aging
      modifies this`current, queues, processes`nextReady, processes`home, processes`state, processes`pending,
               processes`preemptDisabled, processes`counter
      ensures Valid() && c.g == old(Signals()) && Fallen(c) && Within(c.q, processes) && current == if c.next == null then init else c.next
      ensures RunQueue(algo, old(queues[READY_QUEUE].nodes), old(Runnable()), old(current), c.q, old(Bursts()))
      ensures queues[READY_QUEUE].nodes == Keep(c.q, c.left) && Aged(c.q, c.left, c.next, old(Counters()), old(Priorities()), e, Counters())
      ensures Spared(c.q, c.left, Signals())
      ensures Steady(init, old(States()), States())
    {
      hide Queued, Registered, NoLostWakeup, AllPlaced, Inv, InOrder, RunQueue, Signals, Within, Bursts, Fallen, Aged, Keep, Counters, Priorities, Spared, Valid, States, Steady;
      Enter();
      var next;
      ghost var states := States();
      next, c, e := ChooseByAging();
      ghost var states' := States();
      DispatchChoice(next, c);
      SteadyTwice(init, states, states', States());
    }

    // -------------------------------------------------------------- multilevel queues, continued

    /** The multilevel policies: the first survivor of the lowest-numbered level that has one gets the quantum of that level. */
    method PickMultilevel() returns (ghost r: Pick, level: nat, ghost lists: seq<seq<PCB>>)
      requires Callable() && Multi() && |queues| == QUEUES && current.pid < queueLevel.Length
      modifies this`current, queues, processes`nextReady, processes`home, processes`state, processes`pending, processes`preemptDisabled, processes`counter
      ensures Valid() && r.g == old(Signals()) && |queues| == QUEUES
      ensures LevelsBefore(old(Levels()), lists, old(Runnable()), old(current), old(Dest(current)))
      ensures LevelsLeft(lists, Levels(), r.q, r.n, level)
      ensures FirstSurvivor(r.q, r.n, r.g) && PassedOver(r.q, r.n, r.g) && Within(r.q, processes) && current == if r.n < |r.q| then r.q[r.n] else init
      ensures Counters() == Given(old(Counters()), Picked(), if level < N_LEVELS then Quantum(algo, level) else 0)
      ensures Steady(init, old(States()), States())
    {
      hide Queued, Registered, NoLostWakeup, AllPlaced, Inv, InOrder, Signals, FirstSurvivor, PassedOver, Within, Distinct, LevelsLeft, LevelsBefore, Quantum,
           Levels, Dest, Counters, Given, Valid, States, Steady;
      Enter();
      var next;
      ghost var states := States();
      next, level, lists, r := ChooseLevel();
      ghost var states' := States();
      var quantum := if level < N_LEVELS then Quantum(algo, level) else 0;
      Finish(next, quantum, r);
      SteadyTwice(init, states, states', States());
    }

    // -------------------------------------------------------------- what a policy decides

    ghost function Now(): Scene
      requires |queues| == QUEUES
      reads this`current, this`processes, this`rngState, this`ticksSinceBoost, queues, queueLevel, current`state
      reads processes`state, processes`pending, processes`counter, processes`priority, processes`estBurst, processes`tickets
    {
      Scene(algo, init, current, Runnable(), if current.pid < queueLevel.Length then Dest(current) else NOWHERE, queues[READY_QUEUE].nodes, Levels(),
            States(), Signals(), Counters(), Priorities(), Bursts(), Shares(), rngState, queueLevel[..], ticksSinceBoost)
    }

    ghost function Waits(): (m: map<PCB, int>)
      reads this`processes, processes`pidToWait
    {
      map p | p in processes :: p.pidToWait
    }

    ghost function Spent(): (m: map<PCB, int>)
      reads this`processes, processes`burstTicks
    {
      map p | p in processes :: p.burstTicks
    }

    ghost function Classes(): (m: map<PCB, int>)
      reads this`processes, processes`queuePriority
    {
      map p | p in processes :: p.queuePriority
    }

    ghost function Here(): World
      requires |queues| == QUEUES
      reads this, processes, queues, queueLevel, current`state
    {
      World(Now(), processes, Waits(), Spent(), Classes())
    }

    lemma FallenNow(c: Choice)
      requires Fallen(c) && Within(c.q, processes)
      ensures FallenIn(c, States())
    {
    }

    lemma PassedNow(r: Pick)
      requires PassedOver(r.q, r.n, r.g) && FirstSurvivor(r.q, r.n, r.g) && Within(r.q, processes)
      ensures PassedIn(r.q, r.n, r.g, States())
    {
    }

    method DecideHead(quantum: int) returns (ghost d: Decision)
      requires Callable() && |queues| == QUEUES && (algo == RoundRobin || algo == Fcfs || algo == Sjf) && quantum == if algo == RoundRobin then 10 else 0
      modifies this`current, queues, processes`nextReady, processes`home, processes`state, processes`pending, processes`preemptDisabled, processes`counter
      ensures Valid() && Decided(old(Now()), d, Now()) && Steady(init, old(States()), States())
    {
      hide Callable, RunQueue, States, Signals, FirstSurvivor, PassedOver, PassedIn, Within, Bursts, Counters, Priorities, Shares, Given, Steady, Valid, Runnable, Levels, Dest, Now, LevelList;
      NowParts();
      ListsNow();
      ghost var r := PickHead(quantum);
      NowParts();
      ListsNow();
      d := Decision(r, Choice([], {}, null, map[]), 0, 0, []);
      PassedNow(r);
    }

    method DecideLottery() returns (ghost d: Decision)
      requires Callable() && |queues| == QUEUES && algo == Lottery
      modifies this`current, this`rngState, queues, processes`nextReady, processes`home, processes`state, processes`pending, processes`preemptDisabled, processes`counter
      ensures Valid() && Decided(old(Now()), d, Now()) && Steady(init, old(States()), States())
    {
      hide Callable, RunQueue, States, Signals, Within, Bursts, Counters, Priorities, Shares, Given, Steady, Valid, Runnable, Levels, Dest, Drawn, Keep, Fallen, FallenIn, Rolled, Now, LevelList;
      NowParts();
      ListsNow();
      ghost var c := PickLottery();
      NowParts();
      ListsNow();
      d := Decision(Pick([], 0, map[]), c, 0, 0, []);
      FallenNow(c);
    }

    method DecideAging() returns (ghost d: Decision)
      requires Callable() && |queues| == QUEUES && algo == Aging
      modifies this`current, queues, processes`nextReady, processes`home, processes`state, processes`pending, processes`preemptDisabled, processes`counter
      ensures Valid() && Decided(old(Now()), d, Now()) && Steady(init, old(States()), States())
    {
      hide Callable, RunQueue, States, Signals, Within, Bursts, Counters, Priorities, Shares, Given, Steady, Valid, Runnable, Levels, Dest, Aged, Keep, Fallen, FallenIn, Spared, Now, LevelList;
      NowParts();
      ListsNow();
      ghost var c, e := PickAging();
      NowParts();
      ListsNow();
      d := Decision(Pick([], 0, map[]), c, e, 0, []);
      FallenNow(c);
    }

    method DecideLevel() returns (ghost d: Decision)
      requires Callable() && Multi() && |queues| == QUEUES && current.pid < queueLevel.Length
      modifies this`current, queues, processes`nextReady, processes`home, processes`state, processes`pending, processes`preemptDisabled, processes`counter
      ensures Valid() && Decided(old(Now()), d, Now()) && Steady(init, old(States()), States())
    {
      hide Callable, RunQueue, States, Signals, FirstSurvivor, PassedOver, PassedIn, Within, Bursts, Counters, Priorities, Shares, Given, Steady, Valid, Runnable, Levels, Dest,
           LevelsBefore, LevelsLeft, Quantum, Now, LevelList;
      NowParts();
      ListsNow();
      DestNow();
      ghost var r, lists;
      var level;
      r, level, lists := PickMultilevel();
      NowParts();
      ListsNow();
      d := Decision(r, Choice([], {}, null, map[]), 0, level, lists);
      PassedNow(r);
    }

    lemma DestNow()
      requires |queues| == QUEUES && current.pid < queueLevel.Length
      ensures Now().dest == Dest(current)
    {
      hide States, Signals, Counters, Priorities, Bursts, Shares, Levels, Dest, Runnable;
    }

    // -------------------------------------------------------------- steps

    /** Whether the timer may take the CPU away. */
    predicate Preemptive() {
      algo != Fcfs && algo != Sjf
    }

    /** Lets the active algorithm pick the next process. */
    method PickNext() returns (ghost d: Decision)
      requires Callable() && |queues| == QUEUES
      modifies this`current, this`rngState, queues, processes`nextReady, processes`home, processes`state, processes`pending,
               processes`preemptDisabled, processes`counter
      ensures Valid() && Decided(old(Now()), d, Now()) && Steady(init, old(States()), States())
    {
      hide Queued, Registered, NoLostWakeup, AllPlaced, InOrder, Valid, Guarded, States, Steady, Decided, Now;
      InvParts(null);
      LevelOf(current);
      match algo
      case RoundRobin => d := DecideHead(10);
      case Fcfs => d := DecideHead(0);
      case Sjf => d := DecideHead(0);
      case Lottery => d := DecideLottery();
      case Aging => d := DecideAging();
      case Mlq => d := DecideLevel();
      case Mlfq => d := DecideLevel();
    }

    /** The estimate of a process that is in no queue does not matter to the order. */
    twostate lemma OrderKept(p: PCB)
      requires old(InOrder()) && old(Queued()) && Queued() && processes == old(processes) && p.home == NOWHERE
      requires |queues| == QUEUES && queues[READY_QUEUE].nodes == old(queues[READY_QUEUE].nodes)
      requires forall x :: x in processes && x != p ==> x.estBurst == old(x.estBurst)
      ensures InOrder()
    {
      SoundHere(READY_QUEUE);
    }

    lemma SceneMeans()
      requires |queues| == QUEUES && current in processes
      ensures Now().algo == algo && Now().idle == init
      ensures Now().current == current && Now().runnable == Runnable() && Now().states == States() && Now().signals == Signals()
      ensures Now().counters == Counters() && Now().priorities == Priorities() && Now().ready == queues[READY_QUEUE].nodes && Now().bursts == Bursts()
      ensures Now().states.Keys == Now().counters.Keys == Now().bursts.Keys == Now().signals.Keys == Everyone() && current in Everyone()
      ensures Now().states[current] == current.state && Now().counters[current] == current.counter && Now().bursts[current] == current.estBurst
    {
      hide Levels, Dest;
    }

    /** A new estimate for a burst that is over. */
    method PutEstimate()
      requires current in processes && |queues| == QUEUES
      modifies current`estBurst, current`burstTicks
      ensures Now() == old(Now()).(bursts := old(Bursts())[current := old(Halved(current.burstTicks + current.estBurst))])
      ensures current.burstTicks == 0 && current.estBurst == old(Halved(current.burstTicks + current.estBurst))
      ensures Spent() == old(Spent())[current := 0]
    {
      hide States, Signals, Counters, Priorities, Shares, Levels, Dest, Halved;
      current.estBurst := Halved(current.burstTicks + current.estBurst);
      current.burstTicks := 0;
    }

    method PutCounter(counter: int)
      requires current in processes && |queues| == QUEUES
      modifies current`counter
      ensures Now() == old(Now()).(counters := old(Now()).counters[current := counter]) && current.counter == counter
    {
      hide States, Signals, Bursts, Priorities, Shares, Levels, Dest;
      current.counter := counter;
    }

    /** A process that gives up the CPU and cannot run on gets a new estimate. */
    method Estimate()
      requires Inv(null) && current in processes && current.home == NOWHERE && |queues| == QUEUES
      modifies current`estBurst, current`burstTicks
      ensures Inv(null) && current in processes && Now() == Estimated(old(Now()), old(current.burstTicks))
      ensures Spent() == SpentAfter(old(Now()), old(Spent()))
    {
      hide Inv, Now, Bursts, Halved, Spent, Runnable, Everyone;
      SceneMeans();
      if current != init && current.state != Running && current.state != Ready {
        ReEstimate();
      }
    }

    /** A new estimate disturbs nothing. */
    method ReEstimate()
      requires Inv(null) && current in processes && current.home == NOWHERE && |queues| == QUEUES
      modifies current`estBurst, current`burstTicks
      ensures Inv(null) && Spent() == old(Spent())[current := 0]
      ensures Now() == old(Now()).(bursts := old(Bursts())[current := old(Halved(current.burstTicks + current.estBurst))])
    {
      hide Queued, Registered, NoLostWakeup, AllPlaced, Inv, InOrder, Now, Bursts, Halved, Spent;
      InvParts(null);
      DistinctQueues();
      PutEstimate();
      OrderKept(current);
      InvFrom(null);
    }

    /** The end of a CPU burst: a process that blocked gets a new estimate. */
    method EndBurst()
      requires Callable() && |queues| == QUEUES
      modifies processes`estBurst, processes`burstTicks, processes`counter
      ensures Callable() && Now() == BurstEnded(old(Now()), old(current.burstTicks)) && States() == old(States())
      ensures Spent() == SpentAfter(old(Now()), old(Spent()))
    {
      hide Inv, States, Now, Counters, Guarded, BurstEnded, Estimated, Runnable, Everyone, Callable, Spent, SpentAfter;
      CallableParts();
      CurrentNow();
      ghost var a, t := Now(), current.burstTicks;
      EstimatedKeeps(a, t);
      Estimate();
      ZeroCounter();
      StillCallable();
    }

    lemma CurrentNow()
      requires |queues| == QUEUES
      ensures Now().current == current && Now().algo == algo && Now().idle == init
    {
      hide States, Signals, Counters, Priorities, Bursts, Shares, Levels, Dest;
    }

    lemma CallableParts()
      requires Callable()
      ensures Inv(null) && Guarded(0) && current.home == NOWHERE && current in processes
    {
      hide Inv, Guarded;
      NowhereIff();
    }

    /** Gives up the CPU: the burst ends, and the active policy picks. */
    method Schedule() returns (ghost d: Decision)
      requires Callable() && |queues| == QUEUES
      modifies this`current, this`rngState, queues, processes`nextReady, processes`home, processes`state, processes`pending, processes`preemptDisabled,
               processes`counter, processes`estBurst, processes`burstTicks
      ensures Valid() && processes == old(processes)
      ensures Decided(BurstEnded(old(Now()), old(current.burstTicks)), d, Now()) && Spent() == SpentAfter(old(Now()), old(Spent()))
      ensures Steady(init, old(States()), States())
    {
      hide Inv, Guarded, Valid, States, Steady, Now, BurstEnded, Decided, Spent, SpentAfter;
      SteadySame(init, States());
      EndBurst();
      d := PickNext();
    }

    // -------------------------------------------------------------- the timer tick

    /** The level of a process that is in no queue can be changed. */
    method SetLevel(p: PCB, level: int, ghost out: PCB?)
      requires Inv(out) && p in processes && p.home == NOWHERE && 0 <= level < N_LEVELS
      modifies queueLevel
      ensures Inv(out) && queueLevel.Length == N_PROCESSES && p.pid < N_PROCESSES && queueLevel[..] == old(queueLevel[..])[p.pid := level]
    {
      hide Queued, NoLostWakeup, InOrder;
      InvParts(out);
      LevelOf(p);
      RegisteredOnce();
      queueLevel[p.pid] := level;
      forall x | x in processes
        ensures Placed(x, out)
      {
        assert old(Placed(x, out));
        if x.pid == p.pid {
          PidOnce(x, p);
        }
      }
    }

    lemma PidOnce(x: PCB, p: PCB)
      requires Registered() && x in processes && p in processes && x.pid == p.pid
      ensures x == p
    {
    }

    /** Moves the process at the front of a lower level to the end of level 0. */
    method Promote(k: nat) returns (more: bool)
      requires Inv(null) && Multi() && 0 < k < N_LEVELS && |queues| == QUEUES
      modifies queues[0], queues[k], queueLevel, processes`nextReady, processes`home, processes`state
      ensures Inv(null) && |queues| == QUEUES && more == (old(queues[k].nodes) != []) && States() == old(States())
      ensures if more then queues[0].nodes == old(queues[0].nodes) + [old(queues[k].nodes)[0]] && queues[k].nodes == old(queues[k].nodes)[1..]
              else queues[0].nodes == old(queues[0].nodes) && queues[k].nodes == old(queues[k].nodes)
    {
      hide Queued, Registered, NoLostWakeup, AllPlaced, Inv, InOrder, States;
      InvParts(null);
      DistinctQueues();
      var p := TakeReady(k);
      more := p != null;
      if p != null {
        InvParts(p);
        SetLevel(p, 0, p);
        PutFront(p);
      }
    }

    /** Appends a process whose level is 0 to level 0. */
    method PutFront(p: PCB)
      requires Inv(p) && Multi() && |queues| == QUEUES && p.pid < queueLevel.Length && queueLevel[p.pid] == 0
      modifies queues[0], processes`nextReady, p`home, p`state
      ensures Inv(null) && |queues| == QUEUES && queues[0].nodes == old(queues[0].nodes) + [p] && States() == old(States())
    {
      hide Queued, Registered, NoLostWakeup, AllPlaced, Inv, InOrder;
      InvParts(p);
      SoundHere(0);
      DistinctQueues();
      LevelOf(p);
      Put(0, p);
      PlacedIn(p);
      WakeupReady(p);
      NoOrder();
      InvFrom(null);
    }

    lemma NoOrder()
      requires Multi()
      ensures InOrder()
    {
    }

    /** Moves a whole lower level behind level 0, in order. */
    method DrainLevel(k: nat)
      requires Inv(null) && Multi() && 0 < k < N_LEVELS && |queues| == QUEUES
      modifies queues[0], queues[k], queueLevel, processes`nextReady, processes`home, processes`state
      ensures Inv(null) && |queues| == QUEUES && queues[k].nodes == [] && queues[0].nodes == old(queues[0].nodes) + old(queues[k].nodes)
      ensures States() == old(States())
    {
      hide Inv, States;
      ghost var a, s := queues[0].nodes, queues[k].nodes;
      ghost var j := 0;
      var more := true;
      while more
        invariant Inv(null) && |queues| == QUEUES && j <= |s|
        invariant queues[0].nodes == a + s[..j] && queues[k].nodes == s[j..] && (!more ==> j == |s|) && States() == old(States())
        decreases more, |s| - j
      {
        more := Promote(k);
        if more {
          assert a + s[..j + 1] == a + s[..j] + [s[j]];
          j := j + 1;
        }
      }
    }

    /** All levels behind level 0 drained, in order. */
    method DrainLevels()
      requires Inv(null) && Multi() && |queues| == QUEUES
      modifies queues, queueLevel, processes`nextReady, processes`home, processes`state
      ensures Inv(null) && |queues| == QUEUES && queues[0].nodes == Flat(old(Levels()), N_LEVELS) && queues[READY_QUEUE].nodes == old(queues[READY_QUEUE].nodes)
      ensures (forall l :: 1 <= l < N_LEVELS ==> queues[l].nodes == []) && States() == old(States())
    {
      hide Inv, Queued, Flat, States;
      InvParts(null);
      DistinctQueues();
      ghost var lists := Levels();
      FlatStep(lists, 0);
      for k := 1 to N_LEVELS
        invariant Inv(null) && |queues| == QUEUES && queues[0].nodes == Flat(lists, k)
        invariant queues[READY_QUEUE].nodes == old(queues[READY_QUEUE].nodes) && States() == old(States())
        invariant forall l :: 1 <= l < k ==> queues[l].nodes == []
        invariant forall l :: k <= l < N_LEVELS ==> queues[l].nodes == lists[l]
      {
        FlatStep(lists, k);
        DrainLevel(k);
      }
    }

    /** Sets the level of every pid to 0, when all queued processes are in level 0. */
    method ResetLevels()
      requires Inv(null) && Multi() && |queues| == QUEUES && forall l :: 1 <= l < N_LEVELS ==> queues[l].nodes == []
      modifies queueLevel
      ensures Inv(null) && queueLevel.Length == N_PROCESSES && forall i :: 0 <= i < N_PROCESSES ==> queueLevel[i] == 0
    {
      hide NoLostWakeup, InOrder;
      InvParts(null);
      for i := 0 to N_PROCESSES
        invariant forall j :: 0 <= j < i ==> queueLevel[j] == 0
        invariant forall j :: i <= j < N_PROCESSES ==> queueLevel[j] == old(queueLevel[j])
      {
        queueLevel[i] := 0;
      }
      forall x | x in processes
        ensures Placed(x, null)
      {
        assert old(Placed(x, null));
      }
    }

    /** The periodic boost: every process goes to level 0, in the order of the levels. */
    method Boost()
      requires Inv(null) && Multi() && |queues| == QUEUES
      modifies queues, queueLevel, processes`nextReady, processes`home, processes`state
      ensures Inv(null) && |queues| == QUEUES && queues[0].nodes == Flat(old(Levels()), N_LEVELS)
      ensures queues[READY_QUEUE].nodes == old(queues[READY_QUEUE].nodes)
      ensures forall l :: 1 <= l < N_LEVELS ==> queues[l].nodes == []
      ensures queueLevel.Length == N_PROCESSES && forall i :: 0 <= i < N_PROCESSES ==> queueLevel[i] == 0
      ensures States() == old(States())
    {
      hide Inv, Flat, States;
      DrainLevels();
      ResetLevels();
    }

    /** The level that a process with pid i has after a tick that boosts or not, before any demotion. */
    ghost function Levelled(boosted: bool): (r: seq<int>)
      requires queueLevel.Length == N_PROCESSES
      reads queueLevel
    {
      if boosted then seq(N_PROCESSES, _ => 0) else queueLevel[..]
    }

    lemma TicksInRange()
      requires Inv(null)
      ensures 0 <= ticksSinceBoost < BOOST_PERIOD
    {
      hide Queued;
      InvParts(null);
    }

    method SetTicks(ticks: int)
      requires Inv(null) && 0 <= ticks < BOOST_PERIOD
      modifies this`ticksSinceBoost
      ensures Inv(null) && ticksSinceBoost == ticks
    {
      hide Inv, Queued, NoLostWakeup, AllPlaced, InOrder;
      InvParts(null);
      ticksSinceBoost := ticks;
      InvFrom(null);
    }

    /** The boost half of the per-tick bookkeeping. */
    method TickBoost() returns (ghost boosted: bool)
      requires Inv(null) && Multi() && |queues| == QUEUES && queueLevel.Length == N_PROCESSES
      modifies this`ticksSinceBoost, queues, queueLevel, processes`nextReady, processes`home, processes`state
      ensures Inv(null) && |queues| == QUEUES && queueLevel.Length == N_PROCESSES && States() == old(States())
      ensures boosted == (algo == Mlfq && old(ticksSinceBoost) + 1 >= BOOST_PERIOD)
      ensures ticksSinceBoost == if algo != Mlfq then old(ticksSinceBoost) else if boosted then 0 else old(ticksSinceBoost) + 1
      ensures boosted ==> queues[0].nodes == Flat(old(Levels()), N_LEVELS) && forall l :: 1 <= l < N_LEVELS ==> queues[l].nodes == []
      ensures !boosted ==> Levels() == old(Levels())
      ensures queues[READY_QUEUE].nodes == old(queues[READY_QUEUE].nodes)
      ensures queueLevel[..] == old(Levelled(algo == Mlfq && ticksSinceBoost + 1 >= BOOST_PERIOD))
    {
      hide Inv, Flat, States, Levels;
      TicksInRange();
      boosted := false;
      if algo == Mlfq {
        if ticksSinceBoost + 1 >= BOOST_PERIOD {
          boosted := true;
          Boost();
          SetTicks(0);
        } else {
          SetTicks(ticksSinceBoost + 1);
        }
      }
    }

    /** Whether the current process has used up its slice and slides one level down. */
    predicate Expired()
      requires queueLevel.Length == N_PROCESSES && current.pid < N_PROCESSES
      reads this`current, current, queueLevel
    {
      && algo == Mlfq && current != init && current.counter <= 0 && current.preemptDisabled == 0
      && queueLevel[current.pid] < N_LEVELS - 1
    }

    /** The demotion half: only the level of the current process can change, by one. */
    method TickDemote()
      requires Inv(null) && Multi() && current.home == NOWHERE && queueLevel.Length == N_PROCESSES && current.pid < N_PROCESSES
      modifies queueLevel
      ensures Inv(null) && queueLevel.Length == N_PROCESSES
      ensures queueLevel[..] == if old(Expired()) then old(queueLevel[..])[current.pid := old(queueLevel[current.pid]) + 1] else old(queueLevel[..])
    {
      hide Inv, Queued, NoLostWakeup, AllPlaced, InOrder;
      InvParts(null);
      LevelsInRange();
      if Expired() {
        SetLevel(current, queueLevel[current.pid] + 1, null);
      }
    }

    lemma LevelsInRange()
      requires Registered()
      ensures queueLevel.Length == N_PROCESSES && forall i :: 0 <= i < N_PROCESSES ==> 0 <= queueLevel[i] < N_LEVELS
    {
    }

    /** The per-tick bookkeeping of the multilevel policies: the boost, then the demotion. */
    method OnTick() returns (ghost boosted: bool)
      requires Inv(null) && Multi() && |queues| == QUEUES && current.home == NOWHERE && queueLevel.Length == N_PROCESSES && current.pid < N_PROCESSES
      requires current.preemptDisabled == 0
      modifies this`ticksSinceBoost, queues, queueLevel, processes`nextReady, processes`home, processes`state
      ensures Inv(null) && |queues| == QUEUES && States() == old(States()) && current.home == NOWHERE
      ensures boosted == (algo == Mlfq && old(ticksSinceBoost) + 1 >= BOOST_PERIOD)
      ensures ticksSinceBoost == if algo != Mlfq then old(ticksSinceBoost) else if boosted then 0 else old(ticksSinceBoost) + 1
      ensures boosted ==> queues[0].nodes == Flat(old(Levels()), N_LEVELS) && forall l :: 1 <= l < N_LEVELS ==> queues[l].nodes == []
      ensures !boosted ==> Levels() == old(Levels())
      ensures queues[READY_QUEUE].nodes == old(queues[READY_QUEUE].nodes)
      ensures queueLevel.Length == N_PROCESSES && Demoted(old(Levelled(algo == Mlfq && ticksSinceBoost + 1 >= BOOST_PERIOD)), queueLevel[..])
    {
      hide Inv, Flat, States, Queued, NoLostWakeup, AllPlaced, InOrder;
      NowhereIff();
      SnapshotMeans();
      boosted := TickBoost();
      SnapshotMeans();
      NowhereIff();
      TickDemote();
    }

    /** Only the current process is demoted, by one level, when MLFQ finds its slice used up. */
    ghost predicate Demoted(before: seq<int>, after: seq<int>)
      reads this`current, current
    {
      && |before| == N_PROCESSES && current.pid < N_PROCESSES
      && after == if algo == Mlfq && current != init && current.counter <= 0 && before[current.pid] < N_LEVELS - 1
                  then before[current.pid := before[current.pid] + 1] else before
    }

    /** The idle task and processes that are not ready are in no queue, and they are the only ones. */
    lemma NowhereIff()
      requires Inv(null)
      ensures current in processes && (current.home == NOWHERE <==> current == init || current.state != Ready)
    {
      hide Queued;
      InvParts(null);
      assert Placed(current, null);
    }

    lemma ValidParts()
      requires Valid()
      ensures Callable() && Inv(null) && Guarded(0) && current in processes && current.preemptDisabled == 0 && current.home == NOWHERE
      ensures |queues| == QUEUES && queueLevel.Length == N_PROCESSES && current.pid < N_PROCESSES
      ensures current.state == Running || (current == init && init.state == Boot)
    {
      hide Queued;
      InvParts(null);
      LevelOf(current);
      NowhereIff();
    }

    lemma ValidFrom()
      requires Inv(null) && Guarded(0) && (current.state == Running || (current == init && init.state == Boot))
      ensures Valid()
    {
    }

    /** Counts a tick against the slice and the burst of the current process. */
    method CountTick()
      requires Inv(null) && current in processes && |queues| == QUEUES
      modifies current`counter, current`burstTicks
      ensures Inv(null) && Now() == old(Now()).(counters := old(Now()).counters[current := old(current.counter) - 1])
      ensures current.counter == old(current.counter) - 1 && current.burstTicks == old(current.burstTicks) + 1
    {
      hide Queued, Registered, NoLostWakeup, AllPlaced, Inv, InOrder, Now;
      InvParts(null);
      PutCounter(current.counter - 1);
      current.burstTicks := current.burstTicks + 1;
      InvFrom(null);
    }

    /** The bookkeeping of the multilevel policies, as a scene. */
    method BookLevels()
      requires Inv(null) && current.home == NOWHERE && current in processes && current.preemptDisabled == 0 && |queues| == QUEUES && Multi()
      requires queueLevel.Length == N_PROCESSES && current.pid < N_PROCESSES
      modifies this`ticksSinceBoost, queues, queueLevel, processes`nextReady, processes`home, processes`state
      ensures Inv(null) && current.home == NOWHERE && States() == old(States()) && Now() == Booked(old(Now()), current.counter)
    {
      hide Inv, States, Flat, Now, Booked, Levels, Demoted, Facts, FactsOf, Runnable;
      ghost var a := Now();
      NowIs();
      RunnableIs();
      ghost var boosted := OnTick();
      RunnableIs();
      if boosted {
        LevelsBoosted();
      }
      BookedNow(boosted, a);
    }

    lemma RunnableIs()
      requires current in processes
      ensures Runnable() <==> current != init && current in States() && States()[current] == Running
      ensures current in States() && current.state == States()[current]
    {
    }

    /** The bookkeeping that the active algorithm has for a tick, if any. */
    method Bookkeep()
      requires Inv(null) && Guarded(0) && current.home == NOWHERE && current in processes && current.preemptDisabled == 0 && |queues| == QUEUES
      modifies this`ticksSinceBoost, queues, queueLevel, processes`nextReady, processes`home, processes`state
      ensures Inv(null) && Guarded(0) && current.home == NOWHERE && current.state == old(current.state)
      ensures Now() == Booked(old(Now()), current.counter)
    {
      hide Queued, Registered, NoLostWakeup, AllPlaced, Inv, InOrder, Guarded, States, Now, Booked, Runnable;
      InvParts(null);
      LevelOf(current);
      RunnableIs();
      if Multi() {
        BookLevels();
      } else {
        NowIs();
        BookedNot(Now(), current.counter);
      }
      RunnableIs();
    }

    /** What a scene says apart from queues, states and levels. */
    ghost function Facts(): Scene
      reads this`current, this`processes, this`rngState, processes`pending, processes`counter, processes`priority, processes`estBurst, processes`tickets
    {
      Scene(algo, init, current, false, 0, [], [], map[], Signals(), Counters(), Priorities(), Bursts(), Shares(), rngState, [], 0)
    }

    lemma NowIs()
      requires |queues| == QUEUES
      ensures Now().algo == algo && Now().idle == init && |Levels()| == N_LEVELS && FactsOf(Now()) == Facts() && Now().levels == Levels() && Now().level == queueLevel[..]
      ensures Now().ticks == ticksSinceBoost && Now().runnable == Runnable() && Now().ready == queues[READY_QUEUE].nodes && Now().states == States()
      ensures Now().current == current && Now().dest == if current.pid < queueLevel.Length then Dest(current) else NOWHERE
    {
      hide States, Signals, Counters, Priorities, Bursts, Shares, Dest;
    }

    lemma BookedNow(boosted: bool, a: Scene)
      requires Multi() && |queues| == QUEUES && queueLevel.Length == N_PROCESSES && current.pid < N_PROCESSES && |a.levels| == N_LEVELS && |a.level| == N_PROCESSES
      requires boosted == (algo == Mlfq && a.ticks + 1 >= BOOST_PERIOD)
      requires FactsOf(a) == Facts() && a.current == current
      requires a.runnable == Runnable() && a.ready == queues[READY_QUEUE].nodes && a.states == States()
      requires Levels() == if boosted then [Flat(a.levels, N_LEVELS), [], [], [], []] else a.levels
      requires ticksSinceBoost == if algo != Mlfq then a.ticks else if boosted then 0 else a.ticks + 1
      requires Demoted(if boosted then seq(N_PROCESSES, _ => 0) else a.level, queueLevel[..])
      ensures Now() == Booked(a, current.counter)
    {
      NowIs();
      BookedIs(a, Now(), current.counter);
    }

    lemma LevelsBoosted()
      requires |queues| == QUEUES && forall l :: 1 <= l < N_LEVELS ==> queues[l].nodes == []
      ensures Levels() == [queues[0].nodes, [], [], [], []]
    {
    }

    /** Counts a tick and does the bookkeeping for it. */
    method CountAndBook()
      requires Valid() && |queues| == QUEUES
      modifies this`ticksSinceBoost, queues, queueLevel, processes`nextReady, processes`home, processes`state, processes`counter, current`burstTicks
      ensures Inv(null) && Guarded(0) && current.home == NOWHERE && current.state == old(current.state) && current in processes
      ensures Now() == Counted(old(Now()))
      ensures current.counter == old(current.counter) - 1 && current.burstTicks == old(current.burstTicks) + 1
    {
      hide Valid, Inv, Guarded, Now, Booked, Counters, Runnable, Spent;
      ValidParts();
      SceneMeans();
      CountTick();
      Bookkeep();
    }

    /** Whether the slice of the current process is used up; a negative rest becomes zero. */
    method Expire() returns (expired: bool)
      requires Inv(null) && Guarded(0) && current.home == NOWHERE && current in processes && |queues| == QUEUES
      requires current.state == Running || (current == init && init.state == Boot)
      modifies current`counter
      ensures Callable() && (!expired ==> Valid()) && expired == (old(current.counter) <= 0)
      ensures Now() == (if expired then old(Now()).(counters := old(Now()).counters[current := 0]) else old(Now())) && Spent() == old(Spent())
    {
      hide Valid, Inv, Guarded, Now, Counters, Runnable, Callable, Spent;
      SceneMeans();
      NotGuarded();
      expired := !(current.counter > 0 || current.preemptDisabled > 0);
      if expired {
        ZeroCounter();
      } else {
        ValidFrom();
      }
      StillCallable();
    }

    /** The first half of a timer tick: says whether the slice of the current process is used up. */
    method TickDown() returns (expired: bool)
      requires Valid() && |queues| == QUEUES
      modifies this`ticksSinceBoost, queues, queueLevel, processes`nextReady, processes`home, processes`state, processes`counter, current`burstTicks
      ensures Callable() && (!expired ==> Valid()) && current.state == old(current.state)
      ensures expired == (old(current.counter) <= 1) && Now() == Ticked(old(Now())) && current.burstTicks == old(current.burstTicks) + 1
    {
      hide Valid, Inv, Guarded, Now, Counted, Ticked, Runnable, Callable, Spent;
      ValidParts();
      ghost var a := Now();
      CountAndBook();
      SceneMeans();
      TickedIs(a);
      expired := Expire();
    }

    lemma NotGuarded()
      requires Guarded(0) && current in processes
      ensures current.preemptDisabled == 0
    {
    }

    method ZeroCounter()
      requires Inv(null) && current in processes && |queues| == QUEUES
      modifies current`counter
      ensures Inv(null) && Now() == old(Now()).(counters := old(Now()).counters[current := 0]) && current.counter == 0
    {
      hide Queued, Registered, NoLostWakeup, AllPlaced, Inv, InOrder, Now;
      InvParts(null);
      PutCounter(0);
      InvFrom(null);
    }

    /** A timer tick: the bookkeeping, and a pick when the slice is used up and the policy may take the CPU away. */
    method Tick() returns (ghost d: Decision)
      requires Valid() && |queues| == QUEUES
      modifies this`current, this`rngState, this`ticksSinceBoost, queues, queueLevel, processes`nextReady, processes`home, processes`state, processes`pending,
               processes`preemptDisabled, processes`counter, processes`burstTicks
      ensures Valid() && processes == old(processes) && Spent() == old(Spent()[current := current.burstTicks + 1])
      ensures if old(current.counter) <= 1 && algo != Fcfs && algo != Sjf then Decided(Ticked(old(Now())), d, Now()) else Now() == Ticked(old(Now()))
      ensures algo == Fcfs || algo == Sjf ==> current == old(current)
      ensures Steady(init, old(States()), States())
    {
      hide Valid, Guarded, Now, Callable, Decided, Ticked, Steady, States, Inv, Spent;
      ValidParts();
      ghost var a := Now();
      StatesAre();
      CurrentNow();
      d := Undecided;
      SteadySame(init, States());
      var expired := TickSpent();
      StatesTicked(a);
      if expired {
        if Preemptive() {
          d := PickNext();
        } else {
          CallableValid();
        }
      }
    }

    /** The first half of a tick, with what it makes of the bursts. */
    method TickSpent() returns (expired: bool)
      requires Valid() && |queues| == QUEUES
      modifies this`ticksSinceBoost, queues, queueLevel, processes`nextReady, processes`home, processes`state, processes`counter, current`burstTicks
      ensures Callable() && (!expired ==> Valid()) && current.state == old(current.state)
      ensures expired == (old(current.counter) <= 1) && Now() == Ticked(old(Now())) && Spent() == old(Spent()[current := current.burstTicks + 1])
    {
      hide Valid, Now, Ticked, Callable, Spent;
      ghost var me := current;
      CurrentIn();
      expired := TickDown();
      SpentOne(me);
    }

    lemma CurrentIn()
      requires Valid()
      ensures current in processes
    {
      hide Queued;
      ValidParts();
    }

    twostate lemma SpentOne(p: PCB)
      requires processes == old(processes) && p in processes
      requires forall x :: x in processes && x != p ==> x.burstTicks == old(x.burstTicks)
      ensures Spent() == old(Spent())[p := p.burstTicks]
    {
    }

    lemma StatesTicked(a: Scene)
      requires |queues| == QUEUES && Now() == Ticked(a)
      ensures States() == a.states
    {
      hide Ticked, States, Now;
      TickedKeeps(a);
      NowIs();
    }

    lemma CallableValid()
      requires Callable() && (current.state == Running || (current == init && init.state == Boot))
      ensures Valid()
    {
    }

    // -------------------------------------------------------------- waiting for a turn

    lemma SettledNow()
      requires Valid() && |queues| == QUEUES
      ensures Settled(Now()) && Now().algo == algo && Now().idle == init
    {
      hide Queued, Now, Registered, InOrder, NoLostWakeup, AllPlaced, Inv, Valid, Guarded, Linked;
      ValidParts();
      InvParts(null);
      SoundHere(READY_QUEUE);
      SceneMeans();
    }

    // -------------------------------------------------------------- system calls

    /** The process with a pid, if there is one. */
    method SearchProcess(pid: int) returns (p: PCB?)
      requires Registered()
      ensures if 0 <= pid < |processes| then p == processes[pid] else p == null
    {
      for i := 0 to |processes|
        invariant !(0 <= pid < i)
      {
        if processes[i].pid == pid {
          return processes[i];
        }
      }
      p := null;
    }

    /** Gives up the rest of the slice. */
    method Yield() returns (ghost d: Decision)
      requires Valid() && |queues| == QUEUES
      modifies this`current, this`rngState, queues, processes`nextReady, processes`home, processes`state, processes`pending, processes`preemptDisabled,
               processes`counter, processes`estBurst, processes`burstTicks
      ensures Valid() && processes == old(processes)
      ensures Decided(BurstEnded(old(Now()), old(current.burstTicks)), d, Now()) && Spent() == SpentAfter(old(Now()), old(Spent()))
      ensures Steady(init, old(States()), States())
    {
      hide Valid, Inv, Guarded, Callable, States, Steady, Now, BurstEnded, Decided, Spent;
      ValidParts();
      SceneMeans();
      EndedTwice(Now(), current.burstTicks);
      ZeroCounter();
      StillCallable();
      d := Schedule();
    }

    lemma StillCallable()
      requires Inv(null) && Guarded(0) && current.home == NOWHERE
      ensures Callable()
    {
    }

    /** Nobody but p, which had not ended, changed its state. */
    lemma DeadButOne(s: map<PCB, State>, p: PCB)
      requires s.Keys == Everyone() && p in s && s[p] != Zombie && forall x :: x in processes && x != p ==> x in s && x.state == s[x]
      ensures DeadStay(init, s, States())
    {
    }

    /** Changes the state of the current process, which does not become ready or a running one, and is not the idle task. */
    method Leave(s: State)
      requires current.state != Zombie
      requires Inv(null) && current != init && current.home == NOWHERE && s != Ready && s != Running && s != Zombie && s != WaitingProcess && |queues| == QUEUES
      modifies current`state
      ensures Inv(null) && current.state == s && Now() == Aside(old(Now()), s)
      ensures DeadStay(init, old(States()), States())
    {
      hide Queued, Registered, InOrder, NoLostWakeup, AllPlaced, Inv, States, DeadStay, Now;
      InvParts(null);
      SnapshotMeans();
      ghost var states := States();
      PutState(s);
      AsidePlaced(current);
      LeavingLosesNothing(current);
      DeadButOne(states, current);
      InvFrom(null);
    }

    /** Changes the state of the current process. */
    method PutState(s: State)
      requires current in processes && |queues| == QUEUES && s != Running
      modifies current`state
      ensures current.state == s && Now() == Aside(old(Now()), s)
    {
      hide Signals, Counters, Bursts, Priorities, Shares, Levels, Dest;
      current.state := s;
    }

    twostate lemma LeavingLosesNothing(p: PCB)
      requires old(NoLostWakeup()) && processes == old(processes) && killed == old(killed) && p in processes
      requires p.state != WaitingProcess && p.state != Zombie
      requires forall x :: x in processes ==> x.pending == old(x.pending) && x.pidToWait == old(x.pidToWait)
      requires forall x :: x in processes && x != p ==> x.state == old(x.state)
      ensures NoLostWakeup()
    {
      forall x | x in processes && !killed
        ensures KILL !in x.pending && (x.state == WaitingProcess ==> WaitsWell(x))
      {
        assert x.state == WaitingProcess ==> old(WaitsWell(x));
      }
    }

    /** Blocks on input or on a message: the caller leaves the CPU in that state, and the policy picks another process. */
    method Block(s: State) returns (ghost d: Decision)
      requires Valid() && current != init && (s == WaitingUart || s == WaitingSend || s == WaitingReceive) && |queues| == QUEUES
      modifies this`current, this`rngState, queues, processes`nextReady, processes`home, processes`state, processes`pending, processes`preemptDisabled,
               processes`counter, processes`estBurst, processes`burstTicks
      ensures Valid() && processes == old(processes) && old(current).state == s && current != old(current)
      ensures Decided(BurstEnded(Aside(old(Now()), s), old(current.burstTicks)), d, Now())
      ensures Spent() == SpentAfter(Aside(old(Now()), s), old(Spent())) && Steady(init, Aside(old(Now()), s).states, States())
      ensures DeadStay(init, old(States()), States())
    {
      hide Valid, Inv, Guarded, Callable, States, DeadStay, Steady, Now, Aside, BurstEnded, Decided, Spent, SpentAfter;
      ValidParts();
      ghost var states, me := States(), current;
      Leave(s);
      SnapshotMeans();
      ghost var states' := States();
      StatesAre();
      StillCallable();
      d := Schedule();
      ValidParts();
      StayedAside(states', me);
      SteadyDead(init, states', States());
      DeadTwice(init, states, states', States());
    }

    lemma StatesAre()
      requires |queues| == QUEUES
      ensures Now().states == States()
    {
      hide Signals, Counters, Bursts, Priorities, Shares, Levels, Dest, States, Runnable;
    }

    lemma StayedAside(s: map<PCB, State>, p: PCB)
      requires Steady(init, s, States()) && p in s && s[p] != Ready && s[p] != Running && p != init && p in processes
      ensures p.state == s[p]
    {
    }

    /** Makes the current process wait for another one that has not ended. */
    method LeaveFor(pid: nat)
      requires current.state != Zombie
      requires Inv(null) && current != init && current.home == NOWHERE && pid < |processes|
      requires processes[pid].state != Zombie && |queues| == QUEUES
      modifies current`state, current`pidToWait
      ensures Inv(null) && current.state == WaitingProcess && current.pidToWait == pid && Now() == Aside(old(Now()), WaitingProcess)
      ensures DeadStay(init, old(States()), States()) && Waits() == old(Waits()[current := pid])
    {
      hide Queued, Registered, InOrder, NoLostWakeup, AllPlaced, Inv, States, DeadStay, Now, Waits, Everyone, Aside, Runnable;
      InvParts(null);
      SnapshotMeans();
      ghost var states := States();
      PutState(WaitingProcess);
      PutWait(pid);
      AsidePlaced(current);
      WaitLosesNothing(current);
      DeadButOne(states, current);
      InvFrom(null);
    }

    /** Notes whom the current process waits for. */
    method PutWait(pid: nat)
      requires current in processes
      modifies current`pidToWait
      ensures current.pidToWait == pid && Waits() == old(Waits()[current := pid])
    {
      current.pidToWait := pid;
    }

    /** A process in no queue that is neither ready nor running is where it belongs. */
    twostate lemma AsidePlaced(p: PCB)
      requires old(AllPlaced(null)) && processes == old(processes) && current == old(current) && moved == old(moved)
      requires queueLevel[..] == old(queueLevel[..]) && p in processes && p.priority == old(p.priority)
      requires p.state != Ready && p.state != Running && p.home == NOWHERE
      requires forall x :: x in processes && x != p ==> x.state == old(x.state) && x.home == old(x.home) && x.priority == old(x.priority)
      ensures AllPlaced(null)
    {
      forall x | x in processes
        ensures Placed(x, null)
      {
        assert old(Placed(x, null));
      }
    }

    twostate lemma WaitLosesNothing(p: PCB)
      requires old(NoLostWakeup()) && processes == old(processes) && killed == old(killed) && p in processes
      requires p.state == WaitingProcess && WaitsWell(p)
      requires forall x :: x in processes ==> x.pending == old(x.pending)
      requires forall x :: x in processes && x != p ==> x.state == old(x.state) && x.pidToWait == old(x.pidToWait)
      ensures NoLostWakeup()
    {
      forall x | x in processes && !killed
        ensures KILL !in x.pending && (x.state == WaitingProcess ==> WaitsWell(x))
      {
        assert x != p && x.state == WaitingProcess ==> old(WaitsWell(x));
      }
    }

    /** Waits for a process to end: the caller leaves the CPU as its waiter, unless there is nothing to wait for. */
    method Wait(pid: int) returns (r: int, ghost d: Decision)
      requires Valid() && current != init && |queues| == QUEUES
      modifies this`current, this`rngState, queues, processes`nextReady, processes`home, processes`state, processes`pending, processes`preemptDisabled,
               processes`counter, processes`estBurst, processes`burstTicks, processes`pidToWait
      ensures Valid() && processes == old(processes)
      ensures r == if 0 <= pid < |processes| then 0 else -1
      ensures r != 0 || old(processes[pid].state) == Zombie ==> Now() == old(Now()) && Waits() == old(Waits()) && Spent() == old(Spent())
      ensures r == 0 && old(processes[pid].state) != Zombie ==>
        && old(current).state == WaitingProcess && old(current).pidToWait == pid && current != old(current)
        && Decided(BurstEnded(Aside(old(Now()), WaitingProcess), old(current.burstTicks)), d, Now()) && Waits() == old(Waits()[current := pid])
        && Spent() == SpentAfter(Aside(old(Now()), WaitingProcess), old(Spent())) && Steady(init, Aside(old(Now()), WaitingProcess).states, States())
      ensures DeadStay(init, old(States()), States())
    {
      hide Valid, Inv, Guarded, Callable, Queued, Registered, AllPlaced, InOrder, NoLostWakeup, States, DeadStay, Steady, Now, Aside, BurstEnded, Decided, Waits, Spent, SpentAfter;
      ValidParts();
      InvParts(null);
      DeadSame(init, States());
      d := Undecided;
      var target := SearchProcess(pid);
      if target == null {
        return -1, d;
      }
      if target.state == Zombie {
        return 0, d;
      }
      d := WaitFor(pid);
      r := 0;
    }

    /** Waits for a process that has not ended. */
    method WaitFor(pid: nat) returns (ghost d: Decision)
      requires Valid() && current != init && |queues| == QUEUES && pid < |processes| && processes[pid].state != Zombie
      modifies this`current, this`rngState, queues, processes`nextReady, processes`home, processes`state, processes`pending, processes`preemptDisabled,
               processes`counter, processes`estBurst, processes`burstTicks, processes`pidToWait
      ensures Valid() && processes == old(processes)
      ensures old(current).state == WaitingProcess && old(current).pidToWait == pid && current != old(current)
      ensures Decided(BurstEnded(Aside(old(Now()), WaitingProcess), old(current.burstTicks)), d, Now()) && Waits() == old(Waits()[current := pid])
      ensures Spent() == SpentAfter(Aside(old(Now()), WaitingProcess), old(Spent())) && Steady(init, Aside(old(Now()), WaitingProcess).states, States())
      ensures DeadStay(init, old(States()), States())
    {
      hide Valid, Inv, Guarded, Callable, States, DeadStay, Steady, Now, Aside, BurstEnded, Decided, Waits, Spent, SpentAfter;
      ValidParts();
      ghost var states, me := States(), current;
      LeaveFor(pid);
      SnapshotMeans();
      ghost var states' := States();
      StatesAre();
      StillCallable();
      d := Schedule();
      ValidParts();
      StayedAside(states', me);
      SteadyDead(init, states', States());
      DeadTwice(init, states, states', States());
    }

    ghost function Lists(): (r: seq<seq<PCB>>)
      reads queues
      ensures |r| == |queues| && forall k :: 0 <= k < |queues| ==> r[k] == queues[k].nodes
    {
      seq(|queues|, k requires 0 <= k < |queues| reads queues => queues[k].nodes)
    }

    ghost function LevelList(): seq<int>
      reads queueLevel
    {
      queueLevel[..]
    }

    lemma JoinedFrom(a: seq<seq<PCB>>, p: PCB)
      requires p.pid < queueLevel.Length && 0 <= Dest(p) < |queues| && |a| == |queues| && Within(a[Dest(p)], processes) && p in processes
      requires Inserted(a[Dest(p)], p, queues[Dest(p)].nodes)
      requires forall j :: 0 <= j < |queues| && j != Dest(p) ==> queues[j].nodes == a[j]
      ensures Joined(algo, a, Dest(p), p, Lists(), Bursts())
    {
      hide Inserted, RunQueue, Bursts;
      RunQueueFrom(a[Dest(p)], true, p, queues[Dest(p)].nodes);
      assert Lists() == a[Dest(p) := Lists()[Dest(p)]];
    }

    /** Puts a process that is in no queue into its queue, behind or between those that wait there. */
    method Join(p: PCB)
      requires Queued() && Registered() && InOrder() && (AllPlaced(null) || AllPlaced(p))
      requires p in processes && p != init && p.home == NOWHERE
      modifies p`state, p`home, queues, processes`nextReady
      ensures Queued() && Registered() && InOrder() && AllPlaced(null) && p.state == Ready
      ensures p.pid < queueLevel.Length && Joined(algo, old(Lists()), Dest(p), p, Lists(), Bursts())
    {
      hide Queued, AllPlaced, InOrder, Registered, Inserted, Joined, Bursts, Lists, Linked;
      LevelOf(p);
      DistinctQueues();
      SoundHere(Dest(p));
      ghost var lists := Lists();
      Admit(p);
      JoinedFrom(lists, p);
    }

    // -------------------------------------------------------------- ending a process

    /** A process waits for one that has not ended, or, from place i on, for the current one. */
    ghost predicate WaitsFor(p: PCB, i: nat)
      reads this`processes, this`current, p`pidToWait, processes`state
    {
      0 <= p.pidToWait < |processes| && (processes[p.pidToWait].state != Zombie || (i <= p.pid && processes[p.pidToWait] == current))
    }

    /** No wakeup is lost once the waiters from place i on are woken. */
    ghost predicate WakeupsLeft(i: nat)
      reads this`processes, this`current, this`killed, processes`state, processes`pending, processes`pidToWait
    {
      !killed ==> forall p :: p in processes ==> KILL !in p.pending && (p.state == WaitingProcess ==> WaitsFor(p, i))
    }

    /** Whether the process waits for the current one. */
    predicate IsWaiter(p: PCB)
      reads this`current, p`state, p`pidToWait
    {
      p.state == WaitingProcess && p.pidToWait == current.pid
    }

    /** Wakes the process at place i if it waits for the current one. */
    method WakeOne(i: nat)
      requires Queued() && Registered() && AllPlaced(null) && InOrder() && WakeupsLeft(i) && i < |processes| && current.state == Zombie
      modifies queues, processes`nextReady, processes`home, processes`state, processes`pidToWait
      ensures Queued() && Registered() && AllPlaced(null) && InOrder() && WakeupsLeft(i + 1)
      ensures processes[i].state == if old(IsWaiter(processes[i])) then Ready else old(processes[i].state)
      ensures processes[i].pidToWait == if old(IsWaiter(processes[i])) then -1 else old(processes[i].pidToWait)
      ensures forall p :: p in processes && p != processes[i] ==> p.state == old(p.state) && p.pidToWait == old(p.pidToWait)
      ensures processes[i].pid < queueLevel.Length
      ensures if old(IsWaiter(processes[i])) && processes[i] != init then Joined(algo, old(Lists()), Dest(processes[i]), processes[i], Lists(), Bursts())
              else Lists() == old(Lists())
    {
      hide Queued, Registered, InOrder, AllPlaced, WakeupsLeft, Joined, Bursts, Lists, Dest;
      LevelOf(processes[i]);
      var p := processes[i];
      RegisteredAt(i);
      if p.state == WaitingProcess && p.pidToWait == current.pid {
        WaiterPlaced(p);
        p.state := Ready;
        p.pidToWait := -1;
        WaiterOut(p);
        if p != init {
          Join(p);
        }
        WakeupsWoken(p);
      } else {
        WakeupsPassed(i);
      }
    }

    lemma RegisteredAt(i: nat)
      requires Registered() && i < |processes|
      ensures processes[i].pid == i && processes[i] in processes && current in processes
      ensures current.pid < |processes| && processes[current.pid] == current
    {
    }

    lemma WaiterPlaced(p: PCB)
      requires AllPlaced(null) && Queued() && p in processes && p.state == WaitingProcess
      ensures p.home == NOWHERE
    {
      assert Placed(p, null);
    }

    /** A process that was not ready and now is belongs into a queue, unless it is the idle task. */
    twostate lemma WaiterOut(p: PCB)
      requires old(AllPlaced(null)) && processes == old(processes) && current == old(current) && moved == old(moved)
      requires queueLevel[..] == old(queueLevel[..]) && p in processes && p.state == Ready && p.home == NOWHERE && p.priority == old(p.priority)
      requires forall x :: x in processes && x != p ==> x.state == old(x.state) && x.home == old(x.home) && x.priority == old(x.priority)
      ensures AllPlaced(p) && (p == init ==> AllPlaced(null))
    {
      forall x | x in processes
        ensures Placed(x, p) && (p == init ==> Placed(x, null))
      {
        assert old(Placed(x, null));
      }
    }

    twostate lemma WakeupsWoken(p: PCB)
      requires old(WakeupsLeft(p.pid)) && processes == old(processes) && killed == old(killed) && current == old(current)
      requires p.state == Ready && old(p.state) != Zombie && p in processes && Registered() && current.state == Zombie
      requires forall x :: x in processes ==> x.pending == old(x.pending) && (x != p ==> x.state == old(x.state) && x.pidToWait == old(x.pidToWait))
      ensures WakeupsLeft(p.pid + 1)
    {
      forall x | x in processes && !killed
        ensures KILL !in x.pending && (x.state == WaitingProcess ==> WaitsFor(x, p.pid + 1))
      {
        if x.pid == p.pid { PidOnce(x, p); }
        assert x != p && x.state == WaitingProcess ==> old(WaitsFor(x, p.pid));
      }
    }

    lemma WakeupsPassed(i: nat)
      requires WakeupsLeft(i) && Registered() && i < |processes| && !IsWaiter(processes[i])
      ensures WakeupsLeft(i + 1)
    {
      forall x | x in processes && !killed
        ensures KILL !in x.pending && (x.state == WaitingProcess ==> WaitsFor(x, i + 1))
      {
        if x.pid == i { PidOnce(x, processes[i]); }
        assert x.state == WaitingProcess ==> WaitsFor(x, i);
        RegisteredAt(i);
      }
    }

    /** Nobody waits for the current process. */
    predicate Unawaited()
      reads this`current, this`processes, processes`state, processes`pidToWait
    {
      forall p :: p in processes ==> !IsWaiter(p)
    }

    /** World a says what the queues are like that waiters join. */
    ghost predicate Sees(a: World)
      reads this`processes, queueLevel, processes`estBurst
    {
      a.scene.algo == algo && a.scene.idle == init && a.table == processes && a.scene.level == queueLevel[..] && a.scene.bursts == Bursts()
    }

    lemma SeesAt(a: World, woken: set<PCB>, p: PCB, l: seq<seq<PCB>>, l': seq<seq<PCB>>)
      requires Sees(a) && p.pid < queueLevel.Length
      requires if p in woken && p != init then Joined(algo, l, Dest(p), p, l', Bursts()) else l' == l
      ensures RejoinedAt(a, woken, p, l, l')
    {
      hide Joined;
    }

    /** Wakes the process at place i if it is in woken, and notes what the queues are then. */
    method WakeNext(i: nat, ghost a: World, ghost woken: set<PCB>, ghost lists: seq<seq<seq<PCB>>>) returns (ghost lists': seq<seq<seq<PCB>>>)
      requires Queued() && Registered() && AllPlaced(null) && InOrder() && WakeupsLeft(i) && i < |processes| && current.state == Zombie
      requires Sees(a) && Rejoining(a, woken, lists, i, Lists()) && (processes[i] in woken <==> IsWaiter(processes[i]))
      modifies queues, processes`nextReady, processes`home, processes`state, processes`pidToWait
      ensures Queued() && Registered() && AllPlaced(null) && InOrder() && WakeupsLeft(i + 1)
      ensures processes[i].state == if old(IsWaiter(processes[i])) then Ready else old(processes[i].state)
      ensures processes[i].pidToWait == if old(IsWaiter(processes[i])) then -1 else old(processes[i].pidToWait)
      ensures forall p :: p in processes && p != processes[i] ==> p.state == old(p.state) && p.pidToWait == old(p.pidToWait)
      ensures Sees(a) && Rejoining(a, woken, lists', i + 1, Lists())
    {
      hide Queued, Registered, InOrder, AllPlaced, WakeupsLeft, Joined, Bursts, Lists, Dest, Sees, RejoinedAt, Rejoining, AllLists;
      SeesTable(a);
      ghost var l := Lists();
      WakeOne(i);
      SeesAt(a, woken, processes[i], l, Lists());
      RejoiningMore(a, woken, lists, i, l, Lists());
      lists' := lists + [Lists()];
    }

    lemma SeesTable(a: World)
      requires Sees(a)
      ensures a.table == processes && a.scene.idle == init
    {
    }

    /** Makes ready exactly the processes that wait for the current one. */
    method WakeWaiters(ghost a: World, ghost woken: set<PCB>) returns (ghost lists: seq<seq<seq<PCB>>>)
      requires Queued() && Registered() && AllPlaced(null) && InOrder() && WakeupsLeft(0) && current.state == Zombie
      requires Sees(a) && Lists() == AllLists(a.scene) && forall p :: p in processes ==> (p in woken <==> IsWaiter(p))
      modifies queues, processes`nextReady, processes`home, processes`state, processes`pidToWait
      ensures forall p :: p in processes ==> p.state == if old(IsWaiter(p)) then Ready else old(p.state)
      ensures forall p :: p in processes ==> p.pidToWait == if old(IsWaiter(p)) then -1 else old(p.pidToWait)
      ensures Inv(null) && Rejoining(a, woken, lists, |processes|, Lists())
    {
      hide Queued, Registered, AllPlaced, InOrder, WakeupsLeft, NoLostWakeup, Inv, Sees, Rejoining, AllLists, Lists;
      RegisteredOnce();
      RejoiningNone(a, woken);
      lists := [AllLists(a.scene)];
      for i := 0 to |processes|
        invariant Queued() && Registered() && AllPlaced(null) && InOrder() && WakeupsLeft(i) && current.state == Zombie
        invariant forall j :: 0 <= j < |processes| ==> if j < i then Woken(processes[j]) else LeftWaiting(processes[j])
        invariant Sees(a) && Rejoining(a, woken, lists, i, Lists())
      {
        lists := WakeNext(i, a, woken, lists);
      }
      WakeupsDone();
      InvFrom(null);
      EveryoneWoken();
    }

    /** p is as it should be after the current process has ended. */
    twostate predicate Woken(p: PCB)
      reads p
    {
      p.state == (if old(IsWaiter(p)) then Ready else old(p.state)) && p.pidToWait == if old(IsWaiter(p)) then -1 else old(p.pidToWait)
    }

    twostate predicate LeftWaiting(p: PCB)
      reads p
    {
      p.state == old(p.state) && p.pidToWait == old(p.pidToWait)
    }

    twostate lemma EveryoneWoken()
      requires processes == old(processes) && forall j :: 0 <= j < |processes| ==> Woken(processes[j])
      ensures forall p :: p in processes ==> Woken(p)
    {
    }

    lemma WakeupsDone()
      requires WakeupsLeft(|processes|) && Registered()
      ensures NoLostWakeup()
    {
      forall p | p in processes && !killed
        ensures KILL !in p.pending && (p.state == WaitingProcess ==> WaitsWell(p))
      {
        assert p.state == WaitingProcess ==> WaitsFor(p, |processes|);
        var i :| 0 <= i < |processes| && processes[i] == p;
        RegisteredAt(i);
      }
    }

    /** The current process ends: it is a zombie from now on, and its waiters can wait on. */
    method Die()
      requires Inv(null) && current != init && current.home == NOWHERE && current.state != Ready
      requires |queues| == QUEUES
      modifies current`state
      ensures Queued() && Registered() && AllPlaced(null) && InOrder() && WakeupsLeft(0) && current.state == Zombie
      ensures Now() == Aside(old(Now()), Zombie)
    {
      hide Queued, Registered, InOrder, Now;
      InvParts(null);
      PutState(Zombie);
      forall x | x in processes ensures Placed(x, null) { assert old(Placed(x, null)); }
      forall p | p in processes && !killed
        ensures KILL !in p.pending && (p.state == WaitingProcess ==> WaitsFor(p, 0))
      {
        assert p.state == WaitingProcess ==> old(WaitsWell(p));
      }
    }

    /** Makes ready exactly the processes that wait for the current one, as a scene. */
    method Release(ghost a: World, ghost woken: set<PCB>) returns (ghost lists: seq<seq<seq<PCB>>>)
      requires Queued() && Registered() && AllPlaced(null) && InOrder() && WakeupsLeft(0) && current.state == Zombie && |queues| == QUEUES
      requires Sees(a) && Lists() == AllLists(a.scene) && forall p :: p in processes ==> (p in woken <==> IsWaiter(p))
      modifies queues, processes`nextReady, processes`home, processes`state, processes`pidToWait
      ensures forall p :: p in processes ==> p.state == if p in woken then Ready else old(p.state)
      ensures forall p :: p in processes ==> p.pidToWait == if p in woken then -1 else old(p.pidToWait)
      ensures Inv(null) && current.state == Zombie && Now() == Awakened(old(Now()), Now())
      ensures Rejoining(a, woken, lists, |processes|, Lists())
    {
      hide Queued, Registered, AllPlaced, InOrder, WakeupsLeft, Inv, Now, Facts, FactsOf, Levels, Runnable, States, IsWaiter, Dest, Sees, Lists, Rejoining, AllLists;
      NowIs();
      ghost var before := Now();
      NotRunnable();
      lists := WakeWaiters(a, woken);
      NowIs();
      NotRunnable();
      AwakenedIs(before, Now());
    }

    lemma NotRunnable()
      requires current.state == Zombie
      ensures !Runnable() && forall p :: p == current ==> !IsWaiter(p)
    {
    }

    /** The current process becomes a zombie, and exactly the processes that wait for it become ready, each of them in one queue. */
    method DieAndWake(ghost a: World, ghost woken: set<PCB>) returns (ghost lists: seq<seq<seq<PCB>>>)
      requires Inv(null) && current != init && current.home == NOWHERE && current.state == Running && |queues| == QUEUES
      requires Sees(a) && Lists() == AllLists(a.scene) && forall p :: p in processes ==> (p in woken <==> IsWaiter(p))
      modifies queues, processes`nextReady, processes`home, processes`state, processes`pidToWait
      ensures Inv(null) && current.state == Zombie && current.home == NOWHERE && processes == old(processes) && current == old(current)
      ensures forall p :: p in processes && p != current ==> p.state == if p in woken then Ready else old(p.state)
      ensures forall p :: p in processes ==> p.pidToWait == if p in woken then -1 else old(p.pidToWait)
      ensures Now() == Died(old(Now()), Now()) && Rejoining(a, woken, lists, |processes|, Lists())
      ensures DeadStay(init, old(States()), States())
    {
      hide Queued, Registered, AllPlaced, InOrder, WakeupsLeft, NoLostWakeup, Inv, States, DeadStay, Everyone, Now, Runnable, Aside, Awakened,
           Sees, Lists, Rejoining, AllLists;
      InvParts(null);
      SnapshotMeans();
      ghost var states := States();
      Die();
      lists := Release(a, woken);
      NowhereIff();
      DeadWoken(states);
    }

    /** Leaves a critical section. */
    method Quit()
      requires Inv(null) && Guarded(1) && current.home == NOWHERE
      modifies processes`preemptDisabled
      ensures Callable()
    {
      hide Queued, Registered, NoLostWakeup, AllPlaced, InOrder, Inv;
      InvParts(null);
      PreemptEnable();
      InvFrom(null);
    }

    /** Ends the current process and wakes its waiters, in a critical section. */
    method EndAndWake(ghost a: World, ghost woken: set<PCB>) returns (ghost lists: seq<seq<seq<PCB>>>)
      requires Callable() && current != init && current.state == Running && |queues| == QUEUES
      requires Sees(a) && Lists() == AllLists(a.scene) && forall p :: p in processes ==> (p in woken <==> IsWaiter(p))
      modifies queues, processes`nextReady, processes`home, processes`state, processes`pidToWait, processes`preemptDisabled
      ensures Callable() && current.state == Zombie && processes == old(processes) && current == old(current)
      ensures forall p :: p in processes && p != current ==> p.state == if p in woken then Ready else old(p.state)
      ensures forall p :: p in processes ==> p.pidToWait == if p in woken then -1 else old(p.pidToWait)
      ensures Now() == Died(old(Now()), Now()) && Rejoining(a, woken, lists, |processes|, Lists())
      ensures DeadStay(init, old(States()), States())
    {
      hide Inv, Guarded, States, DeadStay, IsWaiter, Now, Died, Sees, Lists, Rejoining, AllLists;
      Enter();
      lists := DieAndWake(a, woken);
      Quit();
    }

    /** Waking waiters wakes no process that has ended. */
    lemma DeadWoken(s: map<PCB, State>)
      requires s.Keys == Everyone() && current.state == Zombie
      requires forall p :: p in processes && p != current ==> p in s && (p.state == s[p] || s[p] == WaitingProcess)
      ensures DeadStay(init, s, States())
    {
    }

    lemma HereMeans()
      requires |queues| == QUEUES
      ensures Here().scene == Now() && Here().table == processes && Here().waits == Waits() && Here().spent == Spent() && Here().classes == Classes()
      ensures Sees(Here()) && Lists() == AllLists(Now())
    {
      hide States, Signals, Counters, Priorities, Shares, Dest, Runnable, Waits, Spent, Classes;
      assert Lists() == AllLists(Now());
    }

    /** The waiters of the current process, as a scene shows them. */
    lemma WaitersAre()
      requires |queues| == QUEUES
      ensures forall p :: p in processes ==> (p in WaitersOf(Here()) <==> IsWaiter(p))
      ensures Unawaited() <==> WaitersOf(Here()) == {}
    {
      hide Now;
      StatesNow();
      WaitsMean();
      CurrentNow();
      assert forall p :: p in WaitersOf(Here()) <==> p in processes && IsWaiter(p);
    }

    lemma WaitsMean()
      ensures Waits().Keys == Everyone() && forall p :: p in processes ==> p in Waits() && Waits()[p] == p.pidToWait
    {
    }

    lemma WaitsCleared(waits: map<PCB, int>, woken: set<PCB>)
      requires waits.Keys == Everyone() && forall p :: p in processes ==> p in waits && p.pidToWait == if p in woken then -1 else waits[p]
      ensures Waits() == map p | p in waits :: if p in woken then -1 else waits[p]
    {
    }

    /** Ends the current process and wakes its waiters, as a scene. */
    method EndScene() returns (ghost lists: seq<seq<seq<PCB>>>)
      requires Callable() && current != init && current.state == Running && |queues| == QUEUES && current in processes
      modifies queues, processes`nextReady, processes`home, processes`state, processes`pidToWait, processes`preemptDisabled
      ensures Callable() && processes == old(processes) && current == old(current) && Ended(old(Here()), Now(), lists)
      ensures Waits() == map p | p in old(Waits()) :: if p in WaitersOf(old(Here())) then -1 else old(Waits())[p]
      ensures current in States() && States()[current] == Zombie && DeadStay(init, old(States()), States()) && States() == Now().states
    {
      hide Inv, Guarded, Callable, DeadStay, Now, Died, States, IsWaiter, Waits, Spent, Classes, WaitersOf, Everyone, Here, EndedIn, Sees, Lists, Rejoining, AllLists;
      StatesNow();
      HereMeans();
      WaitsMean();
      ghost var a, waits := Here(), Waits();
      WaitersAre();
      CurrentNow();
      lists := EndAndWake(a, WaitersOf(a));
      StatesNow();
      StatesAre();
      EndedNow(a.scene, WaitersOf(a));
      HereMeans();
      WaitsCleared(waits, WaitersOf(a));
    }

    lemma StatesNow()
      requires |queues| == QUEUES
      ensures Now().states.Keys == Everyone() && (forall p :: p in processes ==> p in Now().states && Now().states[p] == p.state)
      ensures forall p :: p in processes ==> p in States() && States()[p] == p.state
    {
      hide Signals, Counters, Bursts, Priorities, Shares, Levels, Dest, Runnable;
    }

    lemma EndedNow(a: Scene, w: set<PCB>)
      requires |queues| == QUEUES && Now() == Died(a, Now()) && a.states.Keys == Everyone() && current.state == Zombie
      requires forall p :: p in processes && p != current ==> p in a.states && p.state == if p in w then Ready else a.states[p]
      ensures EndedIn(a, Now(), current, w)
    {
      hide Now, Died, States;
      StatesNow();
    }

    /**
     Ends the current process for good. In scene n it is a zombie and exactly its waiters have become ready, each in the queue
     that it belongs into; then the policy picks another process.
     */
    method Exit() returns (ghost n: Scene, ghost lists: seq<seq<seq<PCB>>>, ghost d: Decision)
      requires Valid() && current != init && |queues| == QUEUES
      modifies this`current, this`rngState, queues, processes`nextReady, processes`home, processes`state, processes`pending, processes`preemptDisabled,
               processes`counter, processes`estBurst, processes`burstTicks, processes`pidToWait
      ensures Valid() && processes == old(processes) && old(current) in processes && old(current).state == Zombie && current != old(current)
      ensures Waits() == map p | p in old(Waits()) :: if p in WaitersOf(old(Here())) then -1 else old(Waits())[p]
      ensures Ended(old(Here()), n, lists) && Decided(BurstEnded(n, old(current.burstTicks)), d, Now())
      ensures Spent() == SpentAfter(n, old(Spent())) && Steady(init, n.states, States())
      ensures DeadStay(init, old(States()), States())
    {
      hide Valid, Inv, Guarded, Callable, States, DeadStay, Steady, Now, Ended, BurstEnded, Decided, WaitersOf, Here, Waits, Spent, SpentAfter;
      ValidParts();
      ghost var states, me := States(), current;
      lists := EndScene();
      n := Now();
      ghost var states' := States();
      d := Schedule();
      ValidParts();
      StayedAside(states', me);
      SteadyDead(init, states', States());
      DeadTwice(init, states, states', States());
    }

    // -------------------------------------------------------------- waking, signals, parameters

    /** Whether the process is blocked on input or on a message. */
    predicate Blocked(p: PCB)
      reads p`state
    {
      p.state == WaitingUart || p.state == WaitingSend || p.state == WaitingReceive
    }

    /** Makes a blocked process ready, and puts it into its queue. */
    method Rouse(p: PCB)
      requires Inv(null) && p in processes && p != init && Blocked(p)
      modifies queues, processes`nextReady, processes`home, processes`state
      ensures Inv(null) && p.state == Ready && forall x :: x in processes && x != p ==> x.state == old(x.state)
      ensures p.pid < queueLevel.Length && Joined(algo, old(Lists()), Dest(p), p, Lists(), Bursts())
      ensures DeadStay(init, old(States()), States())
    {
      hide Queued, Registered, AllPlaced, InOrder, NoLostWakeup, Inv, States, DeadStay, Joined, Bursts, Lists, Dest, Everyone;
      InvParts(null);
      SnapshotMeans();
      ghost var states := States();
      BlockedPlaced(p);
      p.state := Ready;
      WaiterOut(p);
      Join(p);
      WakeupReady(p);
      DeadButOne(states, p);
      InvFrom(null);
    }

    /** The same, as a scene. */
    method RouseScene(p: PCB)
      requires Inv(null) && p in processes && p != init && Blocked(p) && |queues| == QUEUES
      modifies queues, processes`nextReady, processes`home, processes`state
      ensures Inv(null) && p.state == Ready && forall x :: x in processes && x != p ==> x.state == old(x.state)
      ensures p.pid < queueLevel.Length && Joined(algo, old(Lists()), Dest(p), p, Lists(), Bursts())
      ensures Now() == Roused(old(Now()), p, Now()) && DeadStay(init, old(States()), States())
    {
      hide Inv, States, DeadStay, Joined, Bursts, Lists, Dest, Now, Facts, FactsOf, Levels, Runnable, Roused, Awakened;
      NowIs();
      SnapshotMeans();
      NowhereIff();
      ghost var a, s := Now(), States();
      Rouse(p);
      NowIs();
      BlockedRuns(p);
      AwakenedIs(a, Now());
      StateSet(s, p);
      RousedIs(a, p, Now());
    }

    /** A process that is blocked and becomes ready runs neither before nor after. */
    twostate lemma BlockedRuns(p: PCB)
      requires old(Blocked(p)) && p.state == Ready && current == old(current) && processes == old(processes) && current in processes
      requires forall x :: x in processes && x != p ==> x.state == old(x.state)
      ensures Runnable() == old(Runnable())
    {
    }

    lemma StateSet(s: map<PCB, State>, p: PCB)
      requires s.Keys == Everyone() && p in processes && forall x :: x in processes && x != p ==> x in s && x.state == s[x]
      ensures States() == s[p := p.state]
    {
    }

    lemma BlockedPlaced(p: PCB)
      requires AllPlaced(null) && Queued() && p in processes && p.state != Ready && p != init
      ensures p.home == NOWHERE
    {
      assert Placed(p, null);
    }

    /** Input has arrived, or a message can be received or sent: a process blocked on it wakes up. */
    method Wake(p: PCB)
      requires Valid() && p in processes && p != init && |queues| == QUEUES
      modifies queues, processes`nextReady, processes`home, processes`state
      ensures Valid() && p.pid < queueLevel.Length
      ensures if old(Blocked(p)) then Now() == Roused(old(Now()), p, Now()) && Joined(algo, old(Lists()), Dest(p), p, Lists(), Bursts())
              else Now() == old(Now())
      ensures DeadStay(init, old(States()), States())
    {
      hide Valid, Inv, Guarded, States, DeadStay, Now, Joined, Bursts, Lists, Dest, Roused;
      ValidParts();
      PidIn(p);
      DeadSame(init, States());
      if Blocked(p) {
        CurrentRuns(p);
        RouseScene(p);
        ValidFrom();
      }
    }

    lemma CurrentRuns(p: PCB)
      requires Blocked(p) && (current.state == Running || (current == init && init.state == Boot))
      ensures p != current
    {
    }

    method PutSignal(p: PCB, signal: nat)
      requires p in processes
      modifies p`pending
      ensures p.pending == old(p.pending) + {signal} && Signals() == old(Signals()[p := p.pending + {signal}])
      ensures |queues| == QUEUES ==> Now() == old(Now()).(signals := Signals())
    {
      PutPending(p, signal);
    }

    method PutPending(p: PCB, signal: nat)
      requires p in processes
      modifies p`pending
      ensures p.pending == old(p.pending) + {signal}
      ensures |queues| == QUEUES ==> Now() == old(Now()).(signals := Signals())
    {
      hide States, Counters, Priorities, Bursts, Shares, Signals, Runnable, Levels, Dest;
      p.pending := p.pending + {signal};
    }

    /** Adds a signal to the pending ones. */
    method Post(p: PCB, signal: nat)
      requires Inv(null) && p in processes
      modifies this`killed, p`pending
      ensures Inv(null) && p.pending == old(p.pending) + {signal} && killed == (old(killed) || signal == KILL)
      ensures Signals() == old(Signals()[p := p.pending + {signal}])
      ensures |queues| == QUEUES ==> Now() == old(Now()).(signals := Signals())
    {
      hide Inv, Queued, AllPlaced, InOrder, NoLostWakeup, Registered, Now, Signals;
      InvParts(null);
      killed := killed || signal == KILL;
      PutSignal(p, signal);
      SignalLosesNothing(p);
      InvFrom(null);
    }

    /** Adds a signal to the ones pending for a process; it is looked at when a scheduler next meets the process. */
    method Signal(pid: int, signal: nat) returns (r: int)
      requires Valid() && |queues| == QUEUES
      modifies this`killed, processes`pending
      ensures Valid() && r == if 0 <= pid < |processes| then 0 else -1
      ensures killed == (old(killed) || (r == 0 && signal == KILL)) && States() == old(States())
      ensures Now() == old(Now()).(signals := Signals())
      ensures Signals() == if r == 0 then old(Signals()[processes[pid] := processes[pid].pending + {signal}]) else old(Signals())
    {
      hide Valid, Inv, Guarded, States, Registered, Queued, AllPlaced, InOrder, NoLostWakeup, Now, Signals, Runnable, Callable;
      ValidParts();
      SceneMeans();
      InvParts(null);
      var p := SearchProcess(pid);
      if p == null {
        return -1;
      }
      SendTo(p, signal);
      r := 0;
    }

    /** Adds a signal to the ones pending for process p. */
    method SendTo(p: PCB, signal: nat)
      requires Valid() && |queues| == QUEUES && p in processes
      modifies this`killed, p`pending
      ensures Valid() && p.pending == old(p.pending) + {signal} && killed == (old(killed) || signal == KILL) && States() == old(States())
      ensures Now() == old(Now()).(signals := Signals()) && forall x :: x in processes && x != p ==> x.pid != p.pid
      ensures Signals() == old(Signals()[p := p.pending + {signal}])
    {
      hide Valid, Inv, Guarded, States, Now, Signals, Runnable, Callable;
      ValidParts();
      PidsDiffer(p);
      Post(p, signal);
      ValidFrom();
    }

    lemma PidsDiffer(p: PCB)
      requires Inv(null) && p in processes
      ensures forall x :: x in processes && x != p ==> x.pid != p.pid
    {
      hide Queued, NoLostWakeup, AllPlaced, InOrder;
      InvParts(null);
    }

    twostate lemma SignalLosesNothing(p: PCB)
      requires old(NoLostWakeup()) && processes == old(processes) && (old(killed) ==> killed) && (KILL in p.pending && KILL !in old(p.pending) ==> killed)
      requires forall x :: x in processes ==> x.state == old(x.state) && x.pidToWait == old(x.pidToWait)
      requires forall x :: x in processes && x != p ==> x.pending == old(x.pending)
      ensures NoLostWakeup()
    {
      forall x | x in processes && !killed
        ensures KILL !in x.pending && (x.state == WaitingProcess ==> WaitsWell(x))
      {
        assert x.state == WaitingProcess ==> old(WaitsWell(x));
      }
    }

    /** Sets the static priority or the tickets of a process. */
    method SetStatic(p: PCB, param: Param, value: int)
      requires Inv(null) && p in processes && 1 <= value && param != QueuePriority
      modifies p`priority, p`tickets
      ensures Inv(null)
      ensures p.priority == (if param == Priority then value else old(p.priority))
      ensures p.tickets == if param == TicketCount then value else old(p.tickets)
    {
      hide Queued, Registered, InOrder, NoLostWakeup;
      InvParts(null);
      if param == Priority {
        p.priority := value;
      } else {
        p.tickets := value;
      }
      forall x | x in processes ensures Placed(x, null) { assert old(Placed(x, null)); }
    }

    /** Sets the queue priority of a process, and its level with it; a queued process stays where it is. */
    method SetQueue(p: PCB, value: int)
      requires Inv(null) && p in processes && 0 <= value < N_LEVELS
      modifies p`queuePriority, queueLevel, this`moved
      ensures Inv(null) && moved && p.queuePriority == value && p.pid < queueLevel.Length == N_PROCESSES && queueLevel[..] == old(queueLevel[..])[p.pid := value]
    {
      hide Queued, Registered, AllPlaced, InOrder, NoLostWakeup, Inv;
      InvParts(null);
      LevelOf(p);
      p.queuePriority := value;
      queueLevel[p.pid] := value;
      moved := true;
      RegisteredLevel(p);
      PlacedMoved();
      InvFrom(null);
    }

    twostate lemma RegisteredLevel(p: PCB)
      requires old(Registered()) && processes == old(processes) && current == old(current) && ticksSinceBoost == old(ticksSinceBoost)
      requires p.pid < N_PROCESSES == queueLevel.Length && 0 <= queueLevel[p.pid] < N_LEVELS
      requires queueLevel[..] == old(queueLevel[..])[p.pid := queueLevel[p.pid]]
      ensures Registered()
    {
      assert forall i :: 0 <= i < N_PROCESSES && i != p.pid ==> queueLevel[i] == queueLevel[..][i] == old(queueLevel[i]);
    }

    twostate lemma PlacedMoved()
      requires old(AllPlaced(null)) && processes == old(processes) && current == old(current) && moved
      requires forall x :: x in processes ==> x.state == old(x.state) && x.home == old(x.home) && x.priority == old(x.priority)
      ensures AllPlaced(null)
    {
      forall x | x in processes ensures Placed(x, null) { assert old(Placed(x, null)); }
    }

    /** Changes one scheduling parameter of a process; the idle task and values out of range are refused. */
    method SetParam(p: PCB, param: Param, value: int) returns (r: int)
      requires Valid() && p in processes
      modifies p`priority, p`tickets, p`queuePriority, queueLevel, this`moved
      ensures Valid() && (r == 0 || r == -1)
      ensures r == 0 <==> p != init && (if param == QueuePriority then 0 <= value < N_LEVELS else 1 <= value)
      ensures p.priority == (if r == 0 && param == Priority then value else old(p.priority))
      ensures p.tickets == (if r == 0 && param == TicketCount then value else old(p.tickets))
      ensures p.queuePriority == if r == 0 && param == QueuePriority then value else old(p.queuePriority)
      ensures moved == (old(moved) || (r == 0 && param == QueuePriority)) && p.pid < queueLevel.Length
      ensures queueLevel[..] == if r == 0 && param == QueuePriority then old(queueLevel[..])[p.pid := value] else old(queueLevel[..])
    {
      hide Valid, Inv, Guarded, Callable;
      ValidParts();
      PidIn(p);
      if p == init {
        return -1;
      }
      if param == QueuePriority {
        if value < 0 || N_LEVELS <= value {
          return -1;
        }
        SetQueue(p, value);
      } else {
        if value < 1 {
          return -1;
        }
        SetStatic(p, param, value);
      }
      ValidFrom();
      r := 0;
    }

    // -------------------------------------------------------------- new processes

    /** The level that a new process starts at. */
    lemma PidIn(p: PCB)
      requires Inv(null) && p in processes
      ensures p.pid < queueLevel.Length == N_PROCESSES
    {
      hide Queued, AllPlaced, InOrder, NoLostWakeup;
      InvParts(null);
      LevelOf(p);
    }

    /** A process that is about to be registered: in no queue, without signals, and waiting only for one that has not ended. */
    ghost predicate Newcomer(p: PCB)
      reads this`processes, processes`state, p`state, p`home, p`priority, p`pending, p`pidToWait
    {
      && p.state != Running && p.home == NOWHERE && 1 <= p.priority && p.pending == {}
      && (p.state == WaitingProcess ==> 0 <= p.pidToWait < |processes| && processes[p.pidToWait].state != Zombie)
    }

    /** Enters a new process into the table. */
    method Register(p: PCB)
      requires Inv(null) && p !in processes && |processes| < N_PROCESSES && p.pid == |processes|
      requires Newcomer(p)
      modifies this`processes, queueLevel
      ensures Queued() && Registered() && InOrder() && NoLostWakeup() && AllPlaced(if p.state == Ready then p else null)
      ensures processes == old(processes) + [p] && p.pid < queueLevel.Length && queueLevel[..] == old(queueLevel[..])[p.pid := StartLevel(p.queuePriority)]
    {
      hide Queued, Registered, InOrder, NoLostWakeup, AllPlaced, Inv;
      InvParts(null);
      LevelsInRange();
      processes := processes + [p];
      queueLevel[p.pid] := StartLevel(p.queuePriority);
      QueuedWith(p);
      RegisteredNew(p);
      WakeupsWith(p);
      PlacedWith(p);
      OrderWith(p);
    }

    twostate lemma QueuedWith(p: PCB)
      requires old(Queued()) && processes == old(processes) + [p] && p.home == NOWHERE
      requires unchanged(old(processes)) && unchanged(queues)
      ensures Queued()
    {
      forall k | 0 <= k < QUEUES
        ensures Sound(queues[k], k)
      {
        assert old(Sound(queues[k], k));
      }
    }

    twostate lemma RegisteredNew(p: PCB)
      requires old(Registered()) && processes == old(processes) + [p] && p !in old(processes) && p.pid == old(|processes|) < N_PROCESSES
      requires current == old(current) && ticksSinceBoost == old(ticksSinceBoost)
      requires queueLevel.Length == N_PROCESSES && queueLevel[..] == old(queueLevel[..])[p.pid := StartLevel(p.queuePriority)]
      ensures Registered()
    {
      forall i | 0 <= i < N_PROCESSES
        ensures 0 <= queueLevel[i] < N_LEVELS
      {
        assert queueLevel[i] == queueLevel[..][i];
        assert i != p.pid ==> queueLevel[i] == old(queueLevel[i]);
      }
    }

    twostate lemma WakeupsWith(p: PCB)
      requires old(NoLostWakeup()) && processes == old(processes) + [p] && Newcomer(p) && killed == old(killed)
      requires unchanged(old(processes)) && unchanged(queues)
      ensures NoLostWakeup()
    {
      forall x | x in processes && !killed
        ensures KILL !in x.pending && (x.state == WaitingProcess ==> WaitsWell(x))
      {
        assert x != p ==> x in old(processes);
        assert x != p && x.state == WaitingProcess ==> old(WaitsWell(x));
        assert x == p ==> processes[..|processes| - 1] == old(processes);
      }
    }

    twostate lemma PlacedWith(p: PCB)
      requires old(AllPlaced(null)) && old(Registered()) && processes == old(processes) + [p] && p !in old(processes) && p.pid == old(|processes|) < N_PROCESSES
      requires p.home == NOWHERE && p.state != Running && 1 <= p.priority && current == old(current) && moved == old(moved)
      requires queueLevel.Length == N_PROCESSES && queueLevel[..] == old(queueLevel[..])[p.pid := StartLevel(p.queuePriority)]
      requires unchanged(old(processes)) && unchanged(queues)
      ensures AllPlaced(if p.state == Ready then p else null)
    {
      forall x | x in processes
        ensures Placed(x, if p.state == Ready then p else null)
      {
        if x != p {
          assert x in old(processes) && old(Placed(x, null));
          var i :| 0 <= i < |old(processes)| && old(processes)[i] == x;
          assert queueLevel[x.pid] == queueLevel[..][x.pid] == old(queueLevel[x.pid]);
        }
      }
    }

    twostate lemma OrderWith(p: PCB)
      requires old(InOrder()) && old(Queued()) && processes == old(processes) + [p]
      requires unchanged(old(processes)) && unchanged(queues)
      ensures InOrder()
    {
      if algo == Sjf {
        assert old(Sound(queues[READY_QUEUE], READY_QUEUE));
      }
    }

    /** Registers a new process and queues it when it is ready; there is room for N_PROCESSES. */
    method AddProcess(p: PCB) returns (r: int)
      requires Inv(null) && p !in processes && p.pid == |processes| && Newcomer(p)
      modifies this`processes, queueLevel, queues, processes`nextReady, processes`home, processes`state, p`state, p`home, p`nextReady
      ensures Inv(null) && p.state == old(p.state)
      ensures if old(|processes|) >= N_PROCESSES then r == -1 && processes == old(processes) else r == 0 && processes == old(processes) + [p]
      ensures forall x :: x in old(processes) ==> x.state == old(x.state)
      ensures r != 0 ==> queueLevel[..] == old(queueLevel[..])
      ensures r == 0 ==> Enrolled(old(LevelList()), LevelList(), p.pid, p.queuePriority)
      ensures r == 0 && p.state == Ready ==> Joined(algo, old(Lists()), Dest(p), p, Lists(), Bursts())
      ensures r != 0 || p.state != Ready ==> Lists() == old(Lists())
    {
      hide Inv, Queued, AllPlaced, InOrder, NoLostWakeup, Registered, Inserted, Joined, Bursts, Lists, Linked;
      if |processes| >= N_PROCESSES {
        return -1;
      }
      NewFromInit(p);
      Register(p);
      if p.state == Ready {
        AdmitNew(p);
      } else {
        InvFrom(null);
      }
      r := 0;
    }

    /** Queues a process that was just registered. */
    method AdmitNew(p: PCB)
      requires Queued() && Registered() && InOrder() && NoLostWakeup() && AllPlaced(p) && p in processes && p != init && p.home == NOWHERE && p.state == Ready
      modifies queues, processes`nextReady, p`home, p`state
      ensures Inv(null) && p.state == Ready && p.pid < queueLevel.Length && Joined(algo, old(Lists()), Dest(p), p, Lists(), Bursts())
    {
      hide Inv, Queued, AllPlaced, InOrder, NoLostWakeup, Registered, Joined, Bursts, Lists;
      Join(p);
      WakeupReady(p);
      InvFrom(null);
    }

    lemma NewFromInit(p: PCB)
      requires Inv(null) && p !in processes
      ensures p != init
    {
      InvParts(null);
    }

    /** What a child takes over from its parent, and what it starts with. */
    ghost predicate Inherits(child: PCB, parent: PCB)
      reads child`priority, child`estBurst, child`queuePriority, child`tickets, child`counter, child`burstTicks, child`pending, child`pidToWait
      reads parent`priority, parent`estBurst, parent`queuePriority, parent`tickets
    {
      && child.priority == parent.priority && child.estBurst == parent.estBurst && child.queuePriority == parent.queuePriority
      && child.tickets == parent.tickets && child.counter == 10 && child.burstTicks == 0 && child.pending == {} && child.pidToWait == -1
    }

    /** Makes and registers a child of the current process. */
    method Spawn() returns (child: PCB)
      requires Inv(null) && Guarded(1) && |processes| < N_PROCESSES
      modifies this`processes, queueLevel, queues, processes`nextReady, processes`home, processes`state
      ensures Inv(null) && Guarded(1) && fresh(child) && processes == old(processes) + [child] && child.pid == old(|processes|)
      ensures child.state == Ready && child.home != NOWHERE && Inherits(child, current)
      ensures forall x :: x in old(processes) ==> x.state == old(x.state)
      ensures DeadStay(init, old(States()), States())
      ensures Enrolled(old(LevelList()), LevelList(), child.pid, child.queuePriority) && Joined(algo, old(Lists()), Dest(child), child, Lists(), Bursts())
    {
      hide Inv, Queued, Joined, Bursts, Lists, Enrolled, LevelList, States, DeadStay, Everyone;
      SnapshotMeans();
      ghost var states, before := States(), processes;
      PriorityIn();
      child := new PCB(|processes|, Ready, 10, current.priority, current.estBurst, current.queuePriority, current.tickets, 1);
      NewFromInit(child);
      var r := AddProcess(child);
      ReadyIsQueued(child);
      DeadKept(states, before);
    }

    /** The process half of fork: a ready child with the next free pid. */
    method Fork() returns (pid: int, ghost child: PCB)
      requires Valid() && |processes| < N_PROCESSES
      modifies this`processes, queueLevel, queues, processes`nextReady, processes`home, processes`state, processes`preemptDisabled
      ensures Valid() && pid == old(|processes|) && fresh(child) && processes == old(processes) + [child] && child.pid == pid
      ensures child.state == Ready && child.home != NOWHERE && Inherits(child, current)
      ensures forall x :: x in old(processes) ==> x.state == old(x.state)
      ensures Enrolled(old(LevelList()), LevelList(), child.pid, child.queuePriority) && Joined(algo, old(Lists()), Dest(child), child, Lists(), Bursts())
      ensures DeadStay(init, old(States()), States())
    {
      hide Valid, Inv, Callable, Guarded, States, DeadStay, Inherits, Joined, Bursts, Lists, Enrolled, LevelList;
      ValidParts();
      Enter();
      var p := Spawn();
      child := p;
      pid := p.pid;
      Resume();
    }

    /** Nobody changed its state. */
    lemma DeadKept(s: map<PCB, State>, before: seq<PCB>)
      requires (forall x :: x in s ==> x in before) && before <= processes && forall x :: x in before ==> x in s && x.state == s[x]
      ensures DeadStay(init, s, States())
    {
      forall i | 0 <= i < |before| ensures before[i] in processes { assert before[i] == processes[i]; }
    }

    lemma PidNotInit(pid: nat)
      requires Valid() && 0 < pid < |processes|
      ensures processes[pid] != init
    {
      hide Queued;
      ValidParts();
      InvParts(null);
      RegisteredAt(pid);
      RegisteredAt(0);
    }

    lemma PriorityIn()
      requires Inv(null)
      ensures 1 <= current.priority && current in processes
    {
      hide Queued;
      InvParts(null);
      PriorityOf(current);
    }

    lemma ReadyIsQueued(p: PCB)
      requires Inv(null) && p in processes && p != init && p.state == Ready
      ensures p.home != NOWHERE
    {
      hide Queued;
      InvParts(null);
      assert Placed(p, null);
    }

    // -------------------------------------------------------------- what a world shows

    lemma KeyedHere()
      requires |queues| == QUEUES
      ensures Keyed(Here())
    {
      hide Levels, Dest, Runnable;
    }

    /** A process is in some queue exactly when it has a home. */
    lemma HomeMeans(p: PCB)
      requires Queued() && p in processes && |queues| == QUEUES
      ensures InSome(AllLists(Now()), p) <==> p.home != NOWHERE
    {
      hide Now, AllLists, Lists, Here;
      HereMeans();
      ListsMean();
      if p.home != NOWHERE {
        HomeHere(p);
        SoundHere(p.home);
        assert p in AllLists(Now())[p.home];
      }
      forall k | 0 <= k < QUEUES && p in queues[k].nodes
        ensures p.home == k
      {
        SoundHere(k);
      }
    }

    lemma ListsMean()
      requires |queues| == QUEUES
      ensures |Lists()| == QUEUES && forall k :: 0 <= k < QUEUES ==> Lists()[k] == queues[k].nodes
    {
    }

    lemma HomeHere(p: PCB)
      requires Queued() && p in processes && p.home != NOWHERE
      ensures 0 <= p.home < QUEUES
    {
    }

    lemma FitsHere(p: PCB)
      requires Queued() && AllPlaced(null) && p in processes && |queues| == QUEUES
      ensures Fits(Now(), p)
    {
      hide Queued, Now, AllLists, InSome;
      HomeMeans(p);
      StatesNow();
      CurrentNow();
      assert Placed(p, null);
    }

    lemma CurrentHere()
      requires Inv(null) && |queues| == QUEUES
      ensures Now().dest == Goal(Now(), Now().current) && |Now().levels| == N_LEVELS && Now().ticks == ticksSinceBoost
      ensures Now().current == current && Now().idle == init && Now().runnable == Runnable()
    {
      hide Queued, Now, NoLostWakeup, AllPlaced, InOrder, Runnable;
      InvParts(null);
      LevelOf(current);
      NowIs();
    }

    /** What holds between steps, as a world shows it. */
    lemma CoherentHere()
      requires Valid() && |queues| == QUEUES
      ensures Coherent(Here())
    {
      hide Queued, Now, NoLostWakeup, AllPlaced, InOrder, Keyed, Fits, Goal, Here;
      ValidParts();
      InvParts(null);
      KeyedHere();
      HereMeans();
      CurrentHere();
      StatesNow();
      forall p | p in processes
        ensures Fits(Now(), p)
      {
        FitsHere(p);
      }
    }

    lemma BurstHere()
      requires |queues| == QUEUES && current in processes
      ensures BurstOf(Here()) == current.burstTicks && Here().scene.current == current && Here().scene.idle == init
    {
      hide States, Signals, Counters, Priorities, Bursts, Shares, Levels, Dest, Runnable, Waits, Classes;
    }

    /** The CPU was given up. */
    lemma GivenUpHere(a: World, m: Scene, d: Decision)
      requires |queues| == QUEUES && Decided(BurstEnded(m, BurstOf(a)), d, Now()) && Steady(init, m.states, States()) && m.idle == init
      requires processes == a.table && Classes() == a.classes && Spent() == SpentAfter(m, a.spent)
      ensures GivenUp(a, m, d, Here())
    {
      hide Decided, Steady, BurstEnded, Now, Here, SpentAfter, Spent, Classes, States;
      EstimatedKeeps(m, BurstOf(a));
      HereMeans();
      StatesAre();
    }

    // -------------------------------------------------------------- runs

    // Each of these is the step of that name, as an equation between worlds.

    method RunTick() returns (ghost d: Decision)
      requires Valid() && |queues| == QUEUES
      modifies this, processes, queues, queueLevel
      ensures Valid() && processes == old(processes) && DeadStay(init, old(States()), States()) && TickDone(old(Here()), d, Here())
      ensures killed == old(killed) && moved == old(moved)
    {
      hide Valid, Inv, Guarded, Callable, Now, Here, Ticked, Decided, Steady, DeadStay, States, Spent, Waits, Classes, TickDone;
      BeforeStep();
      ghost var a, states := Here(), States();
      d := Tick();
      SteadyDead(init, states, States());
      TickHere(a, states, d);
    }

    lemma BeforeStep()
      requires Valid() && |queues| == QUEUES
      ensures var a := Here();
        && a.scene == Now() && a.table == processes && a.waits == Waits() && a.spent == Spent() && a.classes == Classes()
        && a.scene.states == States() && a.scene.algo == algo && a.scene.idle == init && a.scene.current == current && BurstOf(a) == current.burstTicks
        && current in a.scene.counters && a.scene.counters[current] == current.counter
    {
      hide Valid, Now, Here, Spent, Waits, Classes, States, Sees, Lists, AllLists;
      ValidParts();
      HereMeans();
      BurstHere();
      SceneMeans();
    }

    lemma TickHere(a: World, states: map<PCB, State>, d: Decision)
      requires |queues| == QUEUES && processes == a.table && Waits() == a.waits && Classes() == a.classes
      requires a.scene.idle == init && a.scene.states == states && Steady(init, states, States()) && a.scene.current in a.scene.counters
      requires Spent() == a.spent[a.scene.current := BurstOf(a) + 1]
      requires if a.scene.counters[a.scene.current] <= 1 && a.scene.algo != Fcfs && a.scene.algo != Sjf then Decided(Ticked(a.scene), d, Now())
               else Now() == Ticked(a.scene)
      ensures TickDone(a, d, Here())
    {
      hide Decided, Steady, Ticked, Now, Here, Waits, Spent, Classes, States;
      TickedKeeps(a.scene);
      HereMeans();
      StatesAre();
    }

    method RunYield() returns (ghost d: Decision)
      requires Valid() && |queues| == QUEUES
      modifies this, processes, queues, queueLevel
      ensures Valid() && processes == old(processes) && DeadStay(init, old(States()), States()) && YieldDone(old(Here()), d, Here())
      ensures killed == old(killed) && moved == old(moved)
    {
      hide Valid, Inv, Guarded, Callable, Now, Here, BurstEnded, Decided, Steady, DeadStay, States, Spent, Waits, Classes, SpentAfter, GivenUp;
      ValidParts();
      HereMeans();
      BurstHere();
      StatesAre();
      ghost var a, states := Here(), States();
      d := Yield();
      SteadyDead(init, states, States());
      GivenUpHere(a, a.scene, d);
      HereMeans();
    }

    method RunBlock(s: State) returns (ghost d: Decision)
      requires Valid() && |queues| == QUEUES && current != init && (s == WaitingUart || s == WaitingSend || s == WaitingReceive)
      modifies this, processes, queues, queueLevel
      ensures Valid() && processes == old(processes) && DeadStay(init, old(States()), States()) && BlockDone(old(Here()), s, d, Here())
      ensures killed == old(killed) && moved == old(moved)
    {
      hide Valid, Inv, Guarded, Callable, Now, Here, BurstEnded, Aside, Decided, Steady, DeadStay, States, Spent, Waits, Classes, SpentAfter, GivenUp;
      ValidParts();
      HereMeans();
      BurstHere();
      ghost var a := Here();
      AsideKeeps(a.scene, s);
      d := Block(s);
      GivenUpHere(a, Aside(a.scene, s), d);
      HereMeans();
    }

    method RunWait(pid: int) returns (ghost d: Decision)
      requires Valid() && |queues| == QUEUES && current != init
      modifies this, processes, queues, queueLevel
      ensures Valid() && processes == old(processes) && DeadStay(init, old(States()), States()) && WaitDone(old(Here()), pid, d, Here())
      ensures killed == old(killed) && moved == old(moved)
    {
      hide Valid, Inv, Guarded, Callable, Now, Here, BurstEnded, Aside, Decided, Steady, DeadStay, States, Spent, Waits, Classes, SpentAfter, GivenUp, WaitDone, HasState, Sees, Lists, AllLists;
      BeforeStep();
      BeforeWait(pid);
      ghost var a := Here();
      ghost var gone := 0 <= pid < |processes| && processes[pid].state != Zombie;
      AsideKeeps(a.scene, WaitingProcess);
      var r;
      r, d := Wait(pid);
      HereMeans();
      if gone {
        GivenUpHere(a, Aside(a.scene, WaitingProcess), d);
        WaitGone(a, pid, d, Here());
      } else {
        SameWorld(a);
        WaitSame(a, pid, d);
      }
    }

    lemma BeforeWait(pid: int)
      requires Valid() && |queues| == QUEUES
      ensures HasState(Here(), pid, {Zombie}) <==> 0 <= pid < |processes| && processes[pid].state == Zombie
    {
      hide Valid, Now, Here, Spent, Waits, Classes, States;
      HereMeans();
      StatesNow();
    }

    lemma SameWorld(a: World)
      requires |queues| == QUEUES && Now() == a.scene && processes == a.table && Waits() == a.waits && Spent() == a.spent && Classes() == a.classes
      ensures Here() == a
    {
      hide Now, Waits, Spent, Classes;
    }

    method RunExit() returns (ghost w: Note)
      requires Valid() && |queues| == QUEUES && current != init
      modifies this, processes, queues, queueLevel
      ensures Valid() && processes == old(processes) && DeadStay(init, old(States()), States()) && ExitDone(old(Here()), w, Here())
      ensures killed == old(killed) && moved == old(moved)
    {
      hide Valid, Inv, Guarded, Callable, Now, Here, BurstEnded, Ended, Decided, Steady, DeadStay, States, Spent, Waits, Classes, SpentAfter, GivenUp, WaitersOf;
      ValidParts();
      HereMeans();
      BurstHere();
      ghost var a := Here();
      ghost var n, lists, d := Exit();
      w := Note(d, n, lists);
      EndedIdle(a, n, lists);
      GivenUpHere(a, n, d);
      HereMeans();
    }

    /** x is recorded in world a. */
    ghost predicate Records(a: World, x: PCB)
      reads x
    {
      && x in a.scene.states && x in a.scene.signals && x in a.scene.counters && x in a.scene.priorities && x in a.scene.bursts && x in a.scene.shares
      && x in a.waits && x in a.spent && x in a.classes
      && a.scene.states[x] == x.state && a.scene.signals[x] == x.pending && a.scene.counters[x] == x.counter && a.scene.priorities[x] == x.priority
      && a.scene.bursts[x] == x.estBurst && a.scene.shares[x] == x.tickets
      && a.waits[x] == x.pidToWait && a.spent[x] == x.burstTicks && a.classes[x] == x.queuePriority
    }

    lemma RecordsHere()
      requires |queues| == QUEUES
      ensures Keyed(Here()) && forall x :: x in processes ==> Records(Here(), x)
    {
      hide Levels, Dest, Runnable;
    }

    /** The maps of the world with one more process. */
    lemma MapsGrown(a: World, c: PCB)
      requires |queues| == QUEUES && Keyed(a) && processes == a.table + [c] && forall x :: x in a.table ==> Records(a, x)
      requires c !in a.table
      ensures var b := Here();
        && Keyed(b) && Records(b, c)
        && b.scene.states == a.scene.states[c := c.state] && b.scene.signals == a.scene.signals[c := c.pending]
        && b.scene.counters == a.scene.counters[c := c.counter] && b.scene.priorities == a.scene.priorities[c := c.priority]
        && b.scene.bursts == a.scene.bursts[c := c.estBurst] && b.scene.shares == a.scene.shares[c := c.tickets]
        && b.waits == a.waits[c := c.pidToWait] && b.spent == a.spent[c := c.burstTicks] && b.classes == a.classes[c := c.queuePriority]
    {
      hide Here, Now, Keyed, Sees, Lists;
      var b := Here();
      RecordsHere();
      HereMeans();
      forall x | x in a.table
        ensures SameAbout(a, b, x)
      {
        assert Records(a, x) && Records(b, x);
      }
      assert Records(b, c);
      hide Records;
      WorldGrown(a, b, c);
    }

    /** What fork leaves alone is recorded as before. */
    twostate lemma RecordsKept(a: World)
      requires forall x :: x in a.table ==> old(Records(a, x))
      requires forall x :: x in a.table ==>
        && x.state == old(x.state) && x.pending == old(x.pending) && x.counter == old(x.counter) && x.priority == old(x.priority)
        && x.estBurst == old(x.estBurst) && x.tickets == old(x.tickets) && x.pidToWait == old(x.pidToWait) && x.burstTicks == old(x.burstTicks)
        && x.queuePriority == old(x.queuePriority)
      ensures forall x :: x in a.table ==> Records(a, x)
    {
    }

    lemma NowParts()
      requires |queues| == QUEUES
      ensures Now() == Scene(algo, init, current, Runnable(), Now().dest, Now().ready, Now().levels, States(), Signals(), Counters(), Priorities(), Bursts(),
                             Shares(), rngState, LevelList(), ticksSinceBoost)
    {
      hide States, Signals, Counters, Priorities, Bursts, Shares, Levels, Dest, Runnable;
    }

    /** The queue that p belongs into, as a world shows it. */
    lemma GoalHere(p: PCB)
      requires |queues| == QUEUES && p.pid < queueLevel.Length
      ensures Goal(Now(), p) == Dest(p) && Now().algo == algo && Now().bursts == Bursts() && Now().level == LevelList()
    {
      hide States, Signals, Counters, Priorities, Bursts, Shares, Levels, Runnable;
    }

    /** The world after a child was made. */
    lemma ChildHere(a: World, c: PCB)
      requires |queues| == QUEUES && Keyed(a) && Coherent(a) && Coherent(Here()) && processes == a.table + [c] && (forall x :: x in a.table ==> Records(a, x))
      requires c !in a.table && current in a.table && a.scene.current == current && Inherits(c, current) && c.state == Ready && c.pid == |a.table|
      requires a.scene.algo == algo && a.scene.idle == init && a.scene.rng == rngState && a.scene.ticks == ticksSinceBoost
      requires Enrolled(a.scene.level, LevelList(), c.pid, c.queuePriority)
      requires Joined(algo, AllLists(a.scene), Goal(Now(), c), c, AllLists(Now()), Bursts())
      ensures ChildAdded(a, c, Here())
    {
      hide Coherent, States, Signals, Counters, Priorities, Bursts, Shares, Waits, Spent, Classes, Now, Here, LevelList, Runnable, Joined, AllLists, Goal, Keyed;
      MapsGrown(a, c);
      NowParts();
      HereMeans();
      assert Records(a, current);
      CoherentDest(a, Here());
      GoalKept(a.scene, Now(), current, c.pid, StartLevel(c.queuePriority));
    }

    method RunFork()
      requires Valid() && |queues| == QUEUES && |processes| < N_PROCESSES
      modifies this, processes, queues, queueLevel
      ensures Valid() && DeadStay(init, old(States()), States()) && ForkDone(old(Here()), Here())
      ensures |processes| == |old(processes)| + 1 && old(processes) <= processes && fresh(processes[|old(processes)|])
      ensures killed == old(killed) && moved == old(moved)
    {
      hide Valid, Now, Here, DeadStay, States, Inherits, Joined, Lists, LevelList, Bursts, Records, Keyed, Coherent, Enrolled, ChildAdded, AllLists, Goal;
      ghost var a := Here();
      CoherentHere();
      RecordsHere();
      HereMeans();
      NowParts();
      CurrentIn();
      var pid;
      ghost var child;
      pid, child := Fork();
      RecordsKept(a);
      CoherentHere();
      HereMeans();
      PidHere(child);
      GoalHere(child);
      ChildHere(a, child);
    }

    lemma PidHere(p: PCB)
      requires Valid() && p in processes
      ensures p.pid < queueLevel.Length
    {
      hide Queued;
      ValidParts();
      PidIn(p);
    }

    method RunSignal(pid: int, signal: nat)
      requires Valid() && |queues| == QUEUES
      modifies this, processes, queues, queueLevel
      ensures Valid() && processes == old(processes) && DeadStay(init, old(States()), States()) && SignalDone(old(Here()), pid, signal, Here())
      ensures (killed ==> old(killed) || signal == KILL) && moved == old(moved)
    {
      hide Valid, Now, Here, DeadStay, States, Signals, Waits, Spent, Classes;
      HereMeans();
      SignalsNow();
      ghost var a := Here();
      DeadSame(init, States());
      var r := Signal(pid, signal);
      HereMeans();
      SignalsNow();
      SignalledHere(a);
    }

    lemma SignalsNow()
      requires |queues| == QUEUES
      ensures Now().signals == Signals() && Signals().Keys == Everyone() && forall p :: p in processes ==> Signals()[p] == p.pending
    {
      hide States, Counters, Priorities, Bursts, Shares, Levels, Dest, Runnable;
    }

    lemma SignalledHere(a: World)
      requires |queues| == QUEUES && Now() == a.scene.(signals := Signals())
      requires processes == a.table && Waits() == a.waits && Spent() == a.spent && Classes() == a.classes
      ensures Here() == a.(scene := a.scene.(signals := Signals())) && (Signals() == a.scene.signals ==> Here() == a)
    {
      hide Now, Waits, Spent, Classes, Signals;
    }

    method RunWake(pid: nat)
      requires Valid() && |queues| == QUEUES && 0 < pid < |processes|
      modifies this, processes, queues, queueLevel
      ensures Valid() && processes == old(processes) && DeadStay(init, old(States()), States()) && WakeDone(old(Here()), pid, Here())
      ensures killed == old(killed) && moved == old(moved)
    {
      hide Valid, Now, Here, DeadStay, States, Joined, Lists, Bursts, Waits, Spent, Classes, Goal, AllLists, Roused;
      HereMeans();
      StatesNow();
      ghost var a := Here();
      PidNotInit(pid);
      PidHere(processes[pid]);
      GoalHere(processes[pid]);
      Wake(processes[pid]);
      HereMeans();
    }

    /** The maps after the parameters of p were set. */
    twostate lemma SetMaps(p: PCB)
      requires processes == old(processes) && p in processes
      requires forall x :: x in processes && x != p ==> x.priority == old(x.priority) && x.tickets == old(x.tickets) && x.queuePriority == old(x.queuePriority)
      ensures Priorities() == old(Priorities())[p := p.priority] && Shares() == old(Shares())[p := p.tickets]
      ensures Classes() == old(Classes())[p := p.queuePriority]
      ensures p.priority == old(p.priority) ==> Priorities() == old(Priorities())
      ensures p.tickets == old(p.tickets) ==> Shares() == old(Shares())
      ensures p.queuePriority == old(p.queuePriority) ==> Classes() == old(Classes())
    {
    }

    lemma SetHere(a: World, pid: nat, param: Param, value: int)
      requires |queues| == QUEUES && Coherent(a) && Coherent(Here()) && processes == a.table && pid < |a.table|
      requires a.scene.algo == algo && a.scene.idle == init && a.scene.current == current && a.scene.rng == rngState && a.scene.ticks == ticksSinceBoost
      requires a.scene.ready == Now().ready && a.scene.levels == Now().levels && States() == a.scene.states && Signals() == a.scene.signals
      requires Counters() == a.scene.counters && Bursts() == a.scene.bursts && Waits() == a.waits && Spent() == a.spent && pid < |a.scene.level|
      requires var done := 0 < pid && if param == QueuePriority then 0 <= value < N_LEVELS else 1 <= value;
        && Priorities() == (if done && param == Priority then a.scene.priorities[a.table[pid] := value] else a.scene.priorities)
        && Shares() == (if done && param == TicketCount then a.scene.shares[a.table[pid] := value] else a.scene.shares)
        && Classes() == (if done && param == QueuePriority then a.classes[a.table[pid] := value] else a.classes)
        && LevelList() == if done && param == QueuePriority then a.scene.level[pid := value] else a.scene.level
      ensures SetDone(a, pid, param, value, Here())
    {
      hide Coherent, States, Signals, Counters, Priorities, Bursts, Shares, Waits, Spent, Classes, Now, Here, LevelList, Runnable, Goal, AllLists, Lists, Sees;
      NowParts();
      HereMeans();
      CoherentDest(a, Here());
      if LevelList() == a.scene.level {
        GoalSame(a.scene, Now(), current);
      }
    }

    lemma ListsNow()
      requires |queues| == QUEUES
      ensures Now().ready == queues[READY_QUEUE].nodes && Now().levels == Levels()
    {
      hide States, Signals, Counters, Priorities, Bursts, Shares, Dest, Runnable, Levels;
    }

    method RunSet(pid: nat, param: Param, value: int)
      requires Valid() && |queues| == QUEUES && pid < |processes|
      modifies this, processes, queues, queueLevel
      ensures Valid() && processes == old(processes) && DeadStay(init, old(States()), States()) && SetDone(old(Here()), pid, param, value, Here())
      ensures killed == old(killed) && (moved ==> old(moved) || param == QueuePriority)
    {
      hide Valid, Now, Here, DeadStay, States, LevelList, Coherent, SetDone, Signals, Bursts, Counters, Waits, Spent, Levels, Priorities, Shares, Classes,
           Lists, AllLists, Sees;
      ghost var a, p := Here(), processes[pid];
      CoherentHere();
      HereMeans();
      NowParts();
      ListsNow();
      DeadSame(init, States());
      InitAt(pid);
      PidIs(pid);
      var r := SetParam(processes[pid], param, value);
      CoherentHere();
      ListsNow();
      PidIs(pid);
      SetMaps(p);
      SetHere(a, pid, param, value);
    }

    lemma PidIs(pid: nat)
      requires Valid() && pid < |processes|
      ensures processes[pid].pid == pid < queueLevel.Length && LevelList() == queueLevel[..]
    {
      hide Queued;
      ValidParts();
      InvParts(null);
      RegisteredAt(pid);
      LevelOf(processes[pid]);
    }

    lemma InitAt(pid: nat)
      requires Valid() && pid < |processes|
      ensures processes[pid] == init <==> pid == 0
    {
      hide Queued;
      ValidParts();
      InvParts(null);
      RegisteredAt(pid);
      RegisteredAt(0);
    }

    /**
     One step. The idle task makes no system calls but fork and yield, a full process table refuses new
     processes, and only devices and messages block or wake a process.
     */
    method Step(e: Event) returns (ghost w: Note)
      requires Valid() && |queues| == QUEUES
      modifies this, processes, queues, queueLevel
      ensures Valid() && old(processes) <= processes && (forall j :: 0 <= j < |processes| ==> processes[j] in old(processes) || fresh(processes[j]))
      ensures DeadStay(init, old(States()), States())
      ensures |processes| == |old(processes)| + if e == Event.Fork && |old(processes)| < N_PROCESSES then 1 else 0
      ensures (killed ==> old(killed) || Kills(e)) && (moved ==> old(moved) || Moves(e)) && Followed(old(Here()), e, w, Here())
    {
      hide Valid, States, DeadStay, Now, Here, Coherent, TickDone, YieldDone, WaitDone, BlockDone, ExitDone, ForkDone, SignalDone, WakeDone, SetDone;
      DeadSame(init, States());
      CoherentHere();
      BeforeStep();
      ghost var a := Here();
      w := Note(Undecided, a.scene, []);
      NothingDone(a, e, w);
      match e {
        case Tick => ghost var d := RunTick(); w := w.(d := d);
        case Yield => ghost var d := RunYield(); w := w.(d := d);
        case Wait(pid) => if current != init { ghost var d := RunWait(pid); w := w.(d := d); }
        case Exit => if current != init { w := RunExit(); }
        case Fork => if |processes| < N_PROCESSES { RunFork(); }
        case Signal(pid, signal) => RunSignal(pid, signal);
        case Block(on) =>
          if current != init && (on == WaitingUart || on == WaitingSend || on == WaitingReceive) { ghost var d := RunBlock(on); w := w.(d := d); }
        case Wake(pid) => if 0 < pid < |processes| { RunWake(pid); }
        case SetParam(pid, param, value) => if 0 <= pid < |processes| { RunSet(pid, param, value); }
      }
      CoherentHere();
    }

    /**
     Any run: each event makes of the world exactly what it says, every invariant is kept, processes are only added, and whoever has
     ended stays ended. Under the aging policy and without parameters being set, no counter ever rises above its cap. Only a kill
     signal is remembered as one, and only a queue priority that was set.
     */
    method Run(events: seq<Event>) returns (ghost h: History)
      requires Valid() && |queues| == QUEUES
      modifies this, processes, queues, queueLevel
      ensures Valid() && old(processes) <= processes && DeadStay(init, old(States()), States())
      ensures algo == Aging && (forall i :: 0 <= i < |events| ==> !events[i].SetParam?) ==> Tempered(old(Now()), Now())
      ensures killed ==> old(killed) || exists i :: 0 <= i < |events| && Kills(events[i])
      ensures moved ==> old(moved) || exists i :: 0 <= i < |events| && Moves(events[i])
      ensures Trace(algo, h, events) && h.worlds[0] == old(Here()) && h.worlds[|events|] == Here()
    {
      hide Valid, States, DeadStay, Now, Here, Tempered, Followed;
      ghost var states, a := States(), Here();
      DeadSame(init, states);
      HereIsNow();
      TemperedSame(a.scene, a.scene);
      h := History([a], []);
      for i := 0 to |events|
        invariant Valid() && old(processes) <= processes && (forall j :: 0 <= j < |processes| ==> processes[j] in old(processes) || fresh(processes[j]))
        invariant DeadStay(init, states, States()) && Here().scene == Now() && Now().algo == algo
        invariant algo == Aging && (forall j :: 0 <= j < i ==> !events[j].SetParam?) ==> Tempered(a.scene, Now())
        invariant killed ==> old(killed) || exists j :: 0 <= j < i && Kills(events[j])
        invariant moved ==> old(moved) || exists j :: 0 <= j < i && Moves(events[j])
        invariant |h.worlds| == i + 1 == |h.notes| + 1 && h.worlds[0] == a && h.worlds[i] == Here()
        invariant forall j :: 0 <= j < i ==> Followed(h.worlds[j], events[j], h.notes[j], h.worlds[j + 1])
      {
        ghost var states', b := States(), Here();
        ghost var w := Step(events[i]);
        DeadTwice(init, states, states', States());
        HereIsNow();
        if algo == Aging && forall j :: 0 <= j < i + 1 ==> !events[j].SetParam? {
          TemperedFollowed(b, events[i], w, Here());
          TemperedTwice(a.scene, b.scene, Now());
        }
        h := History(h.worlds + [Here()], h.notes + [w]);
      }
    }

    lemma HereIsNow()
      requires |queues| == QUEUES
      ensures Here().scene == Now() && Now().algo == algo && Here().table == processes
    {
      hide States, Signals, Counters, Priorities, Bursts, Shares, Levels, Dest;
    }

    // -------------------------------------------------------------- bounded waiting

    lemma PendingNow(p: PCB)
      requires |queues| == QUEUES && Valid() && Waiting(Now(), p)
      ensures p in processes && p in Signals() && Signals()[p] == p.pending && Now().signals == Signals()
    {
      hide Valid;
      ValidParts();
      SceneMeans();
      SnapshotMeans();
    }

    /** One quiet event while p waits: it becomes p's turn, or p comes no further from it, and nearer with every tick. */
    method Await(p: PCB, e: Event) returns (ghost w: Note)
      requires Valid() && |queues| == QUEUES && algo == Aging && Waiting(Now(), p) && Quiet(e, p) && (e == Event.Exit ==> Unawaited())
      modifies this, processes, queues, queueLevel
      ensures Valid() && processes == old(processes) && Nearer(old(Now()), Now(), p, if e == Event.Tick then 1 else 0)
      ensures Followed(old(Here()), e, w, Here())
    {
      hide Valid, Now, Here, Waiting, Nearer, Settled, Unawaited, WaitersOf, Followed, States, DeadStay;
      SettledNow();
      HereIsNow();
      WaitersAre();
      ghost var a := Here();
      w := Step(e);
      HereIsNow();
      NearerFollowed(a, e, w, Here(), p);
    }

    /**
     Bounded waiting under priority aging, over any list of events that brings nobody into the ready queue: the
     process p, which has a slice left and gets no signal, is given the CPU with that slice before any new epoch, and before
     more ticks than the slices of the others. The run stops there, or before an exit that would wake somebody.
     */
    method WaitTurn(p: PCB, events: seq<Event>) returns (n: nat)
      requires Valid() && |queues| == QUEUES && algo == Aging && Waiting(Now(), p) && forall i :: 0 <= i < |events| ==> Quiet(events[i], p)
      modifies this, processes, queues, queueLevel
      ensures Valid() && processes == old(processes) && n <= |events|
      ensures n < |events| ==> current == p || (events[n] == Event.Exit && !Unawaited())
      ensures Ticks(events[..n]) <= old(Ahead(Now(), p))
      ensures current == p || (Waiting(Now(), p) && Ahead(Now(), p) + Ticks(events[..n]) <= old(Ahead(Now(), p)))
      ensures NoHigher(old(Now()), Now()) && p.counter == old(p.counter)
    {
      hide Valid, Now, Waiting, Nearer, Settled, Unawaited, Ahead, Quiet;
      ghost var a := Now();
      WaitFacts(p);
      n := 0;
      while n < |events| && current != p && (events[n] != Event.Exit || Unawaited())
        invariant Valid() && processes == old(processes) && n <= |events| && p in processes
        invariant NoHigher(a, Now()) && p in a.counters && Now().counters[p] == a.counters[p]
        invariant current == p || (Waiting(Now(), p) && Ahead(Now(), p) + Ticks(events[..n]) <= Ahead(a, p))
        invariant Ticks(events[..n]) <= Ahead(a, p)
      {
        ghost var b := Now();
        WaitFacts(p);
        ghost var w := Await(p, events[n]);
        CounterNow(p);
        TickMore(events, n);
        NearerOn(a, b, Now(), p, Ticks(events[..n]), if events[n] == Event.Tick then 1 else 0);
        n := n + 1;
      }
      CounterNow(p);
    }

    lemma WaitFacts(p: PCB)
      requires Valid() && |queues| == QUEUES && Waiting(Now(), p)
      ensures p in processes && p != current && p in Now().counters && Now().counters[p] == p.counter && Now().current == current
      ensures NoHigher(Now(), Now())
    {
      hide Valid, Now;
      SettledNow();
      PendingNow(p);
      CounterNow(p);
    }

    lemma CounterNow(p: PCB)
      requires Valid() && |queues| == QUEUES && p in processes
      ensures p in Now().counters && Now().counters[p] == p.counter && Now().current == current
    {
      hide Valid;
      ValidParts();
    }

    /** How many queues hold a process. */
    ghost function Places(p: PCB): set<int>
      requires |queues| == QUEUES
      reads queues
    {
      set k | 0 <= k < QUEUES && p in queues[k].nodes
    }

    /**
     What every state of a run satisfies: the queues are acyclic lists with the true last node as their tail;
     a process is in at most one of them, and a process other than the idle task is in one exactly when it is
     ready; at most one process runs, and that is the current one, which is not a zombie.
     */
    lemma Reachable(p: PCB)
      requires Valid() && p in processes
      ensures |queues| == QUEUES && forall k :: 0 <= k < QUEUES ==> queues[k].Valid()
      ensures |Places(p)| <= 1
      ensures p != init ==> (p.state == Ready <==> |Places(p)| == 1)
      ensures p == init ==> Places(p) == {}
      ensures p.state == Running ==> p == current
      ensures current != init ==> current.state == Running && Places(current) == {}
    {
      hide Queued, Registered, NoLostWakeup, InOrder;
      ValidParts();
      InvParts(null);
      QueuesSound();
      PlacesOf(p);
      PlacesOf(current);
      assert Placed(p, null) && Placed(current, null);
    }

    lemma QueuesSound()
      requires Queued()
      ensures |queues| == QUEUES && forall k :: 0 <= k < QUEUES ==> queues[k].Valid()
    {
      forall k | 0 <= k < QUEUES ensures queues[k].Valid() { SoundHere(k); }
    }

    lemma PlacesOf(p: PCB)
      requires Queued() && p in processes
      ensures |queues| == QUEUES && Places(p) == if p.home == NOWHERE then {} else {p.home}
      ensures p == init ==> p.home == NOWHERE
    {
      DistinctQueues();
      forall k | 0 <= k < QUEUES
        ensures p in queues[k].nodes <==> p.home == k
      {
        SoundHere(k);
      }
    }

    /** Unless a queue priority was set by hand, a process queued under a multilevel policy is in the queue of its level. */
    lemma LevelMatches(p: PCB)
      requires Valid() && p in processes && Multi() && !moved
      ensures |queues| == QUEUES && p.pid < queueLevel.Length && 0 <= queueLevel[p.pid] < N_LEVELS
      ensures forall k :: 0 <= k < QUEUES && p in queues[k].nodes ==> k == queueLevel[p.pid]
    {
      hide Queued, NoLostWakeup, InOrder;
      ValidParts();
      InvParts(null);
      LevelDest(p);
      PlacesOf(p);
      assert Placed(p, null);
      forall k | 0 <= k < QUEUES && p in queues[k].nodes ensures k == queueLevel[p.pid] { assert k in Places(p); }
    }

    /** Under the shortest-job policy the ready queue is in the order of the estimates. */
    lemma ShortestFirst()
      requires Valid() && algo == Sjf
      ensures |queues| == QUEUES && Sorted(queues[READY_QUEUE].nodes)
    {
      hide Queued;
      ValidParts();
      InvParts(null);
      SoundHere(READY_QUEUE);
    }

    /** In runs without kill signals, whoever waits for a process waits for one that is registered and has not ended. */
    lemma WaitersAreLive(p: PCB)
      requires Valid() && p in processes && !killed && p.state == WaitingProcess
      ensures 0 <= p.pidToWait < |processes| && processes[p.pidToWait].pid == p.pidToWait && processes[p.pidToWait].state != Zombie
    {
      hide Queued, AllPlaced, InOrder;
      ValidParts();
      InvParts(null);
      assert WaitsWell(p);
      RegisteredAt(p.pidToWait);
    }

    ghost predicate AllWaitWell()
      reads this`processes, processes
    {
      forall p :: p in processes && p.state == WaitingProcess ==>
        0 <= p.pidToWait < |processes| && processes[p.pidToWait].pid == p.pidToWait && processes[p.pidToWait].state != Zombie
    }

    lemma EveryWaiterIsLive()
      requires Valid() && !killed
      ensures AllWaitWell()
    {
      hide Valid;
      forall p | p in processes && p.state == WaitingProcess
        ensures 0 <= p.pidToWait < |processes| && processes[p.pidToWait].pid == p.pidToWait && processes[p.pidToWait].state != Zombie
      {
        WaitersAreLive(p);
      }
    }

    ghost predicate AllAtLevel()
      reads this`processes, queues, queueLevel
    {
      && |queues| == QUEUES
      && (forall p :: p in processes ==> p.pid < queueLevel.Length && 0 <= queueLevel[p.pid] < N_LEVELS)
      && forall p, k :: p in processes && 0 <= k < QUEUES && p in queues[k].nodes ==> k == queueLevel[p.pid]
    }

    lemma EveryLevelMatches()
      requires Valid() && Multi() && !moved
      ensures AllAtLevel()
    {
      hide Valid;
      ValidParts();
      forall p | p in processes
        ensures p.pid < queueLevel.Length && 0 <= queueLevel[p.pid] < N_LEVELS
        ensures forall k :: 0 <= k < QUEUES && p in queues[k].nodes ==> k == queueLevel[p.pid]
      {
        LevelMatches(p);
      }
    }
  }

  /** No event of a list satisfies f. */
  ghost predicate None(events: seq<Event>, f: Event -> bool) {
    forall i :: 0 <= i < |events| ==> !f(events[i])
  }

  /**
   Any run from the start of the system, under any policy. Without a kill signal, whoever waits for a process waits for one that
   is registered and has not ended; without a queue priority being set, a process queued under a multilevel policy is in the queue of its level.
   */
  method RunFromStart(algo: Algorithm, events: seq<Event>) returns (s: Scheduler, ghost h: History)
    ensures s.Valid() && s.algo == algo && |s.queues| == QUEUES
    ensures Trace(algo, h, events) && Begun(h.worlds[0]) && h.worlds[|events|] == s.Here()
    ensures None(events, Kills) ==> !s.killed && s.AllWaitWell()
    ensures None(events, Moves) ==> !s.moved && (s.Multi() ==> s.AllAtLevel())
  {
    hide Scheduler.Valid, Trace, Scheduler.AllWaitWell, Scheduler.AllAtLevel, Begun, Scheduler.Here;
    s := new Scheduler(algo);
    s.ValidParts();
    h := s.Run(events);
    if !s.killed {
      s.EveryWaiterIsLive();
    }
    if !s.moved && s.Multi() {
      s.EveryLevelMatches();
    }
  }
}
