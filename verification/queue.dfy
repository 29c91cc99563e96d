/** Process control blocks and the intrusive queues that link them. */
module Queues {

  /** What a process does; Boot is the zero state that the idle task starts in. */
  datatype State = Boot | Running | Zombie | WaitingUart | WaitingReceive | WaitingSend | WaitingProcess | Stopped | Ready

  class PCB {
    const pid: nat
    var state: State
    var counter: int
    var priority: int
    var estBurst: int
    var burstTicks: int
    var queuePriority: int
    var tickets: int
    var preemptDisabled: int
    var pending: set<nat>
    var pidToWait: int
    var nextReady: PCB?
    // The number of the queue that links this process, or NOWHERE.
    ghost var home: int

    constructor (pid: nat, state: State, counter: int, priority: int, estBurst: int, queuePriority: int, tickets: int, preemptDisabled: int)
      ensures this.pid == pid && this.state == state && this.counter == counter && this.priority == priority
      ensures this.estBurst == estBurst && burstTicks == 0 && this.queuePriority == queuePriority && this.tickets == tickets
      ensures this.preemptDisabled == preemptDisabled && pending == {} && pidToWait == -1 && nextReady == null && home == NOWHERE
    {
      this.pid, this.state, this.counter, this.priority := pid, state, counter, priority;
      this.estBurst, burstTicks, this.queuePriority, this.tickets := estBurst, 0, queuePriority, tickets;
      this.preemptDisabled, pending, pidToWait, nextReady, home := preemptDisabled, {}, -1, null, NOWHERE;
    }
  }

  const NOWHERE := -1

  ghost predicate Distinct(s: seq<PCB>) {
    forall i, j :: 0 <= i < j < |s| ==> s[i] != s[j]
  }

  /** What stands behind place i. */
  ghost function After(s: seq<PCB>, i: nat): PCB? {
    if i + 1 < |s| then s[i + 1] else null
  }

  /** Every node points to the one behind it, and the last one to nothing. */
  ghost predicate Linked(s: seq<PCB>)
    reads s`nextReady
  {
    forall i :: 0 <= i < |s| ==> s[i].nextReady == After(s, i)
  }

  /** s without its element at k. */
  ghost function Without(s: seq<PCB>, k: nat): (r: seq<PCB>)
    requires k < |s|
    ensures |r| == |s| - 1
  {
    s[..k] + s[k + 1..]
  }

  /** Bypassing place k leaves the others linked. */
  lemma WithoutLinked(s: seq<PCB>, k: nat)
    requires Distinct(s) && k < |s|
    requires forall j :: 0 <= j < |s| && j != k ==> s[j].nextReady == if j + 1 == k then After(s, k) else After(s, j)
    ensures Distinct(Without(s, k)) && Linked(Without(s, k))
  {
    var r := Without(s, k);
    forall i | 0 <= i < |r|
      ensures r[i].nextReady == After(r, i)
    {
      var j := if i < k then i else i + 1;
      assert r[i] == s[j] && j != k;
    }
  }

  /** Inserting at place k, between its neighbours, keeps the others linked. */
  lemma WithLinked(s: seq<PCB>, k: nat, p: PCB)
    requires Distinct(s) && k <= |s| && p !in s
    requires p.nextReady == if k < |s| then s[k] else null
    requires forall j :: 0 <= j < |s| ==> s[j].nextReady == if j + 1 == k then p else After(s, j)
    ensures Distinct(With(s, k, p)) && Linked(With(s, k, p))
  {
    var r := With(s, k, p);
    forall i | 0 <= i < |r|
      ensures r[i].nextReady == After(r, i)
    {
      if i != k {
        var j := if i < k then i else i - 1;
        assert r[i] == s[j];
      }
    }
  }

  /** s with p put in at place k. */
  ghost function With(s: seq<PCB>, k: nat, p: PCB): (r: seq<PCB>)
    requires k <= |s|
    ensures |r| == |s| + 1
  {
    s[..k] + [p] + s[k..]
  }

  /** Where a process with estimate e belongs in a queue kept in order: before the first longer estimate. */
  ghost predicate InsertionPoint(s: seq<PCB>, e: int, k: nat)
    reads s`estBurst
  {
    && k <= |s|
    && (forall i :: 0 <= i < k ==> s[i].estBurst <= e)
    && (k < |s| ==> e < s[k].estBurst)
  }

  class ProcessQueue {
    var head: PCB?
    var tail: PCB?
    // The linked processes, in order.
    ghost var nodes: seq<PCB>

    constructor ()
      ensures Valid() && nodes == []
    {
      head, tail, nodes := null, null, [];
    }

    /** The list is acyclic, holds exactly nodes, and tail is the true last one. */
    ghost predicate Valid()
      reads this, nodes`nextReady
    {
      && Distinct(nodes) && Linked(nodes)
      && (nodes == [] ==> head == null && tail == null)
      && (nodes != [] ==> head == nodes[0] && tail == nodes[|nodes| - 1])
    }

    /** Appends a process and makes it ready; the idle task is never queued. */
    method Enqueue(p: PCB, init: PCB)
      requires Valid() && p !in nodes
      modifies this, p`state, p`nextReady, (set x | x in nodes)`nextReady
      ensures Valid()
      ensures nodes == if p == init then old(nodes) else old(nodes) + [p]
      ensures p.state == if p == init then old(p.state) else Ready
    {
      if p == init {
        return;
      }
      p.nextReady := null;
      p.state := Ready;
      if tail == null {
        head := p;
        tail := p;
      } else {
        tail.nextReady := p;
        tail := p;
      }
      nodes := nodes + [p];
    }

    /** Takes the process at the front, if there is one. */
    method Dequeue() returns (p: PCB?)
      requires Valid()
      modifies this, (set x | x in nodes)`nextReady
      ensures Valid()
      ensures if old(nodes) == [] then p == null && nodes == []
              else p == old(nodes)[0] && nodes == old(nodes)[1..] && p.nextReady == null
    {
      if head == null {
        return null;
      }
      ghost var s := nodes;
      p := head;
      head := p.nextReady;
      if head == null {
        tail := null;
      }
      p.nextReady := null;
      nodes := nodes[1..];
      forall i | 0 <= i < |nodes|
        ensures nodes[i] != p && nodes[i].nextReady == After(nodes, i)
      {
        assert nodes[i] == s[i + 1] && s[0] != s[i + 1];
      }
    }

    /** Unlinks the process at place k, given its predecessor. */
    method Remove(previous: PCB?, p: PCB, ghost k: nat)
      requires Valid() && k < |nodes| && nodes[k] == p && previous == if k == 0 then null else nodes[k - 1]
      modifies this, (set x | x in nodes)`nextReady
      ensures Valid() && nodes == Without(old(nodes), k) && p.nextReady == null
    {
      ghost var s := nodes;
      if previous == null {
        head := p.nextReady;
      } else {
        previous.nextReady := p.nextReady;
      }
      if tail == p {
        tail := previous;
      }
      p.nextReady := null;
      nodes := Without(nodes, k);
      WithoutLinked(s, k);
    }

    /** Puts a process behind the first k ones. */
    method InsertAt(p: PCB, c: PCB?, ghost k: nat)
      requires Valid() && p !in nodes && k <= |nodes| && nodes != [] && c == if k == 0 then null else nodes[k - 1]
      modifies this, p`nextReady, (set x | x in nodes)`nextReady
      ensures Valid() && nodes == With(old(nodes), k, p)
    {
      ghost var s := nodes;
      if c == null {
        p.nextReady := head;
        head := p;
      } else {
        p.nextReady := c.nextReady;
        c.nextReady := p;
        if p.nextReady == null {
          tail := p;
        }
      }
      nodes := With(nodes, k, p);
      WithLinked(s, k, p);
    }

    /** Inserts a process by its estimated burst, behind all that are not longer. */
    method EnqueueSorted(p: PCB, init: PCB) returns (ghost k: nat)
      requires Valid() && p !in nodes
      modifies this, p`state, p`nextReady, (set x | x in nodes)`nextReady
      ensures Valid()
      ensures p.state == if p == init then old(p.state) else Ready
      ensures if p == init then nodes == old(nodes)
              else InsertionPoint(old(nodes), p.estBurst, k) && nodes == With(old(nodes), k, p)
    {
      k := 0;
      if p == init {
        return;
      }
      p.nextReady := null;
      p.state := Ready;
      if head == null {
        head := p;
        tail := p;
        nodes := [p];
        return;
      }
      var c;
      c, k := FindPlace(p.estBurst);
      InsertAt(p, c, k);
    }

    /** The walk to the node behind which a process with estimate e belongs; null is the front. */
    method FindPlace(e: int) returns (c: PCB?, ghost k: nat)
      requires Valid() && nodes != []
      ensures InsertionPoint(nodes, e, k) && c == if k == 0 then null else nodes[k - 1]
    {
      if e < head.estBurst {
        return null, 0;
      }
      var d: PCB := head;
      k := 1;
      while d.nextReady != null
        invariant 1 <= k <= |nodes| && d == nodes[k - 1]
        invariant forall i :: 0 <= i < k ==> nodes[i].estBurst <= e
        decreases |nodes| - k
      {
        if e < d.nextReady.estBurst {
          break;
        }
        d := d.nextReady;
        k := k + 1;
      }
      c := d;
    }
  }
}
