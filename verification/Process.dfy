/** Processes as objects, and the status queues they move between. */
module Process {
  import opened Types
  import opened IntervalTree
  import opened ProcessModel
  import opened Memory

  datatype Status = RUNNABLE | BLOCKED | FINISHED

  class Process {
    const pid: nat
    const firstline: nat
    var currentline: nat
    var lastline: nat
    var currentPos: nat
    var currInterval: Tree
    var lineIntervals: Tree
    var waitTime: nat
    var waitingOnPage: VPage?
    var pageTable: map<nat, VPage>
    var status: Status

    constructor (pid: nat, lineIntervals: Interval)
      ensures Abs() == InitProc(pid, lineIntervals) && status == RUNNABLE
    {
      this.pid := pid;
      firstline, currentline, lastline := lineIntervals.low, lineIntervals.low, lineIntervals.high;
      currentPos := lineIntervals.fpos;
      this.lineIntervals, currInterval := InitNode(lineIntervals), InitNode(lineIntervals);
      waitTime, waitingOnPage, pageTable, status := 0, null, map[], RUNNABLE;
    }

    function Abs(): Proc
      reads this
    {
      Proc(pid, firstline, currentline, lastline, currentPos, currInterval, lineIntervals, waitTime,
           if waitingOnPage == null then None else Some(waitingOnPage.Id()), pageTable.Keys)
    }

    /** Another run of this process has been found in the trace. */
    method AddInterval(iv: Interval)
      modifies this`lastline, this`lineIntervals, this`currInterval
      ensures Abs() == old(Abs()).(lastline := lastline, lineIntervals := lineIntervals, currInterval := lineIntervals)
      ensures lastline == (if old(lastline) < iv.high then iv.high else old(lastline))
      ensures lineIntervals == Insert(old(lineIntervals), iv)
    {
      lastline := if lastline < iv.high then iv.high else lastline;
      lineIntervals := Insert(lineIntervals, iv);
      currInterval := lineIntervals;
    }

    /** Context switch: the rest of this process lies further on in the trace. */
    method GoToNextInterval()
      requires currInterval.Node? && currInterval.right.Node?
      modifies this`currInterval, this`currentline, this`currentPos
      ensures Abs() == JumpToNextInterval(old(Abs()))
    {
      currInterval := currInterval.right;
      currentline := currInterval.iv.low;
      currentPos := currInterval.iv.fpos;
    }
  }

  function AbsQueue(q: seq<Process>): (r: seq<Proc>)
    reads q
    ensures |r| == |q| && forall i :: 0 <= i < |q| ==> r[i] == q[i].Abs()
  {
    seq(|q|, i requires 0 <= i < |q| reads q => q[i].Abs())
  }

  lemma {:induction false} InsertionPointIs(q: seq<Proc>, pos: nat, n: nat)
    requires n <= |q| && (forall i :: 0 <= i < n ==> q[i].currentPos <= pos) && (n < |q| ==> q[n].currentPos > pos)
    ensures InsertionPoint(q, pos) == n
    decreases n
  {
    if n > 0 { InsertionPointIs(q[1..], pos, n - 1); }
  }

  lemma {:induction false} Inserted(q: seq<Process>, n: nat, p: Process)
    requires n <= |q|
    ensures AbsQueue(q[..n] + [p] + q[n..]) == AbsQueue(q)[..n] + [p.Abs()] + AbsQueue(q)[n..]
    ensures multiset(q[..n] + [p] + q[n..]) == multiset{p} + multiset(q)
  {
    assert q == q[..n] + q[n..];
  }

  /** Walks the queue past every process at or before `pos`. */
  method PlaceFor(q: seq<Proc>, pos: nat) returns (n: nat)
    ensures n == InsertionPoint(q, pos)
  {
    hide InsertionPoint;
    n := 0;
    if q != [] {
      while n < |q| && q[n].currentPos <= pos
        invariant n <= |q|
        invariant forall i :: 0 <= i < n ==> q[i].currentPos <= pos
      {
        n := n + 1;
      }
    }
    InsertionPointIs(q, pos, n);
  }

  /** Inserts `p` behind every process at or before its own position. */
  method EnqueueByPos(p: Proc, q: seq<Proc>) returns (r: seq<Proc>)
    ensures r == EnqueuePriority(p, q)
    ensures multiset(r) == multiset{p} + multiset(q)
  {
    hide InsertionPoint;
    var n := PlaceFor(q, p.currentPos);
    r := q[..n] + [p] + q[n..];
    assert q == q[..n] + q[n..];
  }

  lemma {:induction false} PlacedThere(p: Proc, q: seq<Proc>, n: nat)
    requires n == InsertionPoint(q, p.currentPos)
    ensures EnqueuePriority(p, q) == q[..n] + [p] + q[n..]
  {
  }

  /** Into a status queue: by file position if it is the runnable one, else at the tail. */
  method Enqueue(p: Process, q: seq<Process>, s: Status) returns (r: seq<Process>)
    ensures multiset(r) == multiset{p} + multiset(q)
    ensures s != RUNNABLE ==> r == q + [p]
    ensures s == RUNNABLE ==> AbsQueue(r) == EnqueuePriority(p.Abs(), AbsQueue(q))
  {
    hide AbsQueue, EnqueuePriority;
    if s == RUNNABLE {
      var n := 0;
      while n < |q| && q[n].currentPos <= p.currentPos
        invariant n <= |q|
        invariant forall i :: 0 <= i < n ==> q[i].currentPos <= p.currentPos
      {
        n := n + 1;
      }
      InsertionPointIs(AbsQueue(q), p.currentPos, n);
      r := q[..n] + [p] + q[n..];
      Inserted(q, n, p);
      PlacedThere(p.Abs(), AbsQueue(q), n);
    } else {
      r := q + [p];
    }
  }

  /** All the processes in the queues, wherever they stand. */
  ghost function AllOf(pq: map<Status, seq<Process>>): multiset<Process>
    requires RUNNABLE in pq && BLOCKED in pq && FINISHED in pq
  {
    multiset(pq[RUNNABLE]) + multiset(pq[BLOCKED]) + multiset(pq[FINISHED])
  }

  /** One more process in one queue is one more process in all. */
  lemma {:induction false} AllPlusOne(pq: map<Status, seq<Process>>, s: Status, p: Process, r: seq<Process>)
    requires RUNNABLE in pq && BLOCKED in pq && FINISHED in pq && multiset(r) == multiset{p} + multiset(pq[s])
    ensures AllOf(pq[s := r]) == multiset{p} + AllOf(pq)
  {
  }

  lemma {:induction false} MoveKeepsAll(pq: map<Status, seq<Process>>, s1: Status, s2: Status,
        p: Process, r: seq<Process>)
    requires RUNNABLE in pq && BLOCKED in pq && FINISHED in pq && pq[s1] != [] && p == pq[s1][0]
    requires multiset(r) == multiset{p} + multiset(pq[s1 := pq[s1][1..]][s2])
    ensures AllOf(pq[s1 := pq[s1][1..]][s2 := r]) == AllOf(pq)
  {
    hide AllOf;
    var rest := pq[s1 := pq[s1][1..]];
    assert pq[s1] == [p] + pq[s1][1..];
    AllPlusOne(rest, s1, p, pq[s1]);
    assert rest[s1 := pq[s1]] == pq;
    AllPlusOne(rest, s2, p, r);
  }

  /** The status queues: which processes are runnable, waiting for the disk, or done. */
  class ProcessQueues {
    var pq: map<Status, seq<Process>>

    ghost predicate Valid()
      reads this
    {
      RUNNABLE in pq && BLOCKED in pq && FINISHED in pq
    }

    constructor ()
      ensures Valid() && pq[RUNNABLE] == pq[BLOCKED] == pq[FINISHED] == []
    {
      pq := map[RUNNABLE := [], BLOCKED := [], FINISHED := []];
    }

    /** The head of queue `s1` goes to queue `s2`: among the runnable ones by file position,
        otherwise to the tail.  No process is lost or duplicated. */
    method SwitchStatus(s1: Status, s2: Status) returns (p: Process?)
      requires Valid() && s1 in pq && s2 in pq
      modifies this, if s1 in pq && pq[s1] != [] then {pq[s1][0]} else {}
      ensures Valid() && AllOf(pq) == old(AllOf(pq))
      ensures old(pq[s1]) == [] ==> p == null && pq == old(pq)
      ensures old(pq[s1]) != [] ==>
        && p == old(pq[s1][0]) && p.status == s2 && p.Abs() == old(p.Abs())
        && s2 in pq
        && var rest := old(pq)[s1 := old(pq[s1])[1..]];
           && pq == rest[s2 := pq[s2]]
           && (s2 != RUNNABLE ==> pq[s2] == rest[s2] + [p])
           && (s2 == RUNNABLE ==> AbsQueue(pq[s2]) == EnqueuePriority(p.Abs(), AbsQueue(rest[s2])))
    {
      hide AbsQueue, EnqueuePriority, AllOf;
      if pq[s1] == [] { return null; }
      var head: Process := pq[s1][0];
      p := head;
      p.status := s2;
      var rest := pq[s1 := pq[s1][1..]];
      var r := Enqueue(head, rest[s2], s2);
      MoveKeepsAll(pq, s1, s2, head, r);
      pq := rest[s2 := r];
    }
  }
}
