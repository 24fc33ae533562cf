/** Processes as values: the interval cursor, and the queues they stand in. */
module ProcessModel {
  import opened Types
  import opened IntervalTree

  /** A process.  `currInterval` is the part of the interval chain still to be run,
      starting with the interval being run. */
  datatype Proc = Proc(
    pid: nat,
    firstline: nat, currentline: nat, lastline: nat,
    currentPos: nat,
    currInterval: Tree, lineIntervals: Tree,
    waitTime: nat, waitingOnPage: Option<Page>,
    pageTable: set<nat>)

  function InitProc(pid: nat, iv: Interval): Proc {
    Proc(pid, iv.low, iv.low, iv.high, iv.fpos, InitNode(iv), InitNode(iv), 0, None, {})
  }

  // ---- the interval cursor --------------------------------------------------

  predicate HasLinesRemainingInFile(p: Proc) { p.currentline < p.lastline }

  predicate HasLinesRemainingInInterval(p: Proc)
    requires p.currInterval.Node?
  {
    p.currentline < p.currInterval.iv.high
  }

  predicate OnLastLineInInterval(p: Proc)
    requires p.currInterval.Node?
  {
    p.currInterval.iv.high == p.currentline
  }

  predicate HasIntervalsRemaining(p: Proc)
    requires p.currInterval.Node?
  {
    p.currInterval.right.Node?
  }

  function JumpToNextInterval(p: Proc): Proc
    requires p.currInterval.Node? && p.currInterval.right.Node?
  {
    var next := p.currInterval.right;
    p.(currInterval := next, currentline := next.iv.low, currentPos := next.iv.fpos)
  }

  /** The cursor stands on a line of the current interval, and the chain ends at `lastline`. */
  predicate CursorOk(p: Proc) {
    && p.currInterval.Node? && Chain(p.currInterval)
    && p.currInterval.iv.low <= p.currentline <= p.currInterval.iv.high
    && p.lastline == LastHigh(p.currInterval)
  }

  /** Lines the process has still to run, the current one included. */
  function LinesLeft(p: Proc): nat
    requires CursorOk(p)
    ensures LinesLeft(p) > 0
  {
    p.currInterval.iv.high - p.currentline + 1 + Lines(p.currInterval.right)
  }

  /** The three ways a hit moves the cursor use up exactly one line each, and the last
      one happens exactly when the process has run its last line. */
  lemma {:induction false} OneLinePerHit(p: Proc)
    requires CursorOk(p)
    ensures OnLastLineInInterval(p) && HasIntervalsRemaining(p) ==>
      CursorOk(JumpToNextInterval(p)) && LinesLeft(JumpToNextInterval(p)) == LinesLeft(p) - 1
    ensures HasLinesRemainingInInterval(p) ==>
      CursorOk(p.(currentline := p.currentline + 1))
          && LinesLeft(p.(currentline := p.currentline + 1)) == LinesLeft(p) - 1
    ensures !HasLinesRemainingInInterval(p) && !HasIntervalsRemaining(p) <==> p.currentline == p.lastline
    ensures p.currentline == p.lastline <==> LinesLeft(p) == 1
    ensures p.currentline == p.lastline <==> !HasLinesRemainingInFile(p)
  {
    ChainOrder(p.currInterval);
    if p.currInterval.right.Node? { ChainOrder(p.currInterval.right); }
  }

  lemma {:induction false} InitProcOk(pid: nat, iv: Interval)
    requires iv.low <= iv.high
    ensures CursorOk(InitProc(pid, iv)) && LinesLeft(InitProc(pid, iv)) == iv.high - iv.low + 1
    ensures Spine(InitNode(iv)) == [iv]
  {
    var t := InitNode(iv);
    assert Chain(t.right) && Spine(t.right) == [];
    assert LastHigh(t) == iv.high;
  }

  // ---- page tables ----------------------------------------------------------

  function PagesOf(p: Proc): set<Page> {
    set v | v in p.pageTable :: Page(p.pid, v)
  }

  // ---- queues ---------------------------------------------------------------

  ghost predicate SortedByPos(q: seq<Proc>) {
    forall i, j :: 0 <= i < j < |q| ==> q[i].currentPos <= q[j].currentPos
  }

  /** How many leading processes are at or before position `pos`. */
  function InsertionPoint(q: seq<Proc>, pos: nat): (n: nat)
    ensures n <= |q|
    ensures forall i :: 0 <= i < n ==> q[i].currentPos <= pos
    ensures n < |q| ==> q[n].currentPos > pos
  {
    if q == [] || q[0].currentPos > pos then 0 else 1 + InsertionPoint(q[1..], pos)
  }

  /** `p` enters the runnable queue behind every process at or before its own position. */
  function EnqueuePriority(p: Proc, q: seq<Proc>): seq<Proc> {
    var n := InsertionPoint(q, p.currentPos);
    q[..n] + [p] + q[n..]
  }

  lemma {:induction false} EnqueueKeepsSorted(p: Proc, q: seq<Proc>)
    requires SortedByPos(q)
    ensures SortedByPos(EnqueuePriority(p, q))
  {
  }

  lemma {:induction false} EnqueueMembers(p: Proc, q: seq<Proc>, x: Proc)
    ensures x in EnqueuePriority(p, q) <==> x == p || x in q
  {
    var n := InsertionPoint(q, p.currentPos);
    assert q == q[..n] + q[n..];
  }

  function Pids(q: seq<Proc>): seq<nat> {
    seq(|q|, i requires 0 <= i < |q| => q[i].pid)
  }

  lemma {:induction false} EnqueuePids(p: Proc, q: seq<Proc>)
    ensures multiset(Pids(EnqueuePriority(p, q))) == multiset{p.pid} + multiset(Pids(q))
  {
    var n := InsertionPoint(q, p.currentPos);
    assert Pids(EnqueuePriority(p, q)) == Pids(q)[..n] + [p.pid] + Pids(q)[n..];
    assert Pids(q) == Pids(q)[..n] + Pids(q)[n..];
  }

  /** Lines left to the processes of a queue, together. */
  function TotalLines(q: seq<Proc>): nat
    requires forall p :: p in q ==> CursorOk(p)
  {
    if q == [] then 0 else LinesLeft(q[0]) + TotalLines(q[1..])
  }

  lemma {:induction false} TotalLinesConcat(a: seq<Proc>, b: seq<Proc>)
    requires forall p :: p in a + b ==> CursorOk(p)
    ensures forall p :: p in a ==> CursorOk(p)
    ensures forall p :: p in b ==> CursorOk(p)
    ensures TotalLines(a + b) == TotalLines(a) + TotalLines(b)
  {
    if a == [] {
      assert a + b == b;
    } else {
      assert (a + b)[1..] == a[1..] + b;
      TotalLinesConcat(a[1..], b);
    }
  }

  lemma {:induction false} EnqueueTotalLines(p: Proc, q: seq<Proc>)
    requires CursorOk(p) && forall x :: x in q ==> CursorOk(x)
    ensures forall x :: x in EnqueuePriority(p, q) ==> CursorOk(x)
    ensures TotalLines(EnqueuePriority(p, q)) == LinesLeft(p) + TotalLines(q)
  {
    var n := InsertionPoint(q, p.currentPos);
    assert q == q[..n] + q[n..];
    TotalLinesConcat(q[..n], q[n..]);
    TotalLinesConcat(q[..n] + [p], q[n..]);
    TotalLinesConcat(q[..n], [p]);
  }
}
