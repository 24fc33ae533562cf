/** What the first pass makes of a trace: one process per pid, holding the maximal
    runs of its lines as a right-going chain. */
module TraceModel {
  import opened Types
  import opened IntervalTree
  import opened ProcessModel

  /** First line of the run of equal pids that line `i` belongs to. */
  function RunStart(trace: seq<Line>, i: nat): (s: nat)
    requires i < |trace|
    ensures s <= i
    ensures forall j :: s <= j <= i ==> trace[j].pid == trace[i].pid
    ensures s > 0 ==> trace[s - 1].pid != trace[i].pid
  {
    if i == 0 || trace[i - 1].pid != trace[i].pid then i else RunStart(trace, i - 1)
  }

  /** Position of the process with this pid, or the length of the sequence. */
  function IndexOfPid(procs: seq<Proc>, pid: nat): (n: nat)
    ensures n <= |procs|
    ensures n < |procs| ==> procs[n].pid == pid
    ensures n == |procs| ==> forall p :: p in procs ==> p.pid != pid
  {
    if procs == [] || procs[0].pid == pid then 0 else 1 + IndexOfPid(procs[1..], pid)
  }

  function ExtendProc(p: Proc, iv: Interval): Proc {
    p.(lastline := if p.lastline < iv.high then iv.high else p.lastline,
       lineIntervals := Insert(p.lineIntervals, iv),
       currInterval := Insert(p.lineIntervals, iv))
  }

  /** A finished run is given to its process, which is created if this is its first run. */
  function AddRun(procs: seq<Proc>, pid: nat, iv: Interval): seq<Proc> {
    var n := IndexOfPid(procs, pid);
    if n < |procs| then procs[n := ExtendProc(procs[n], iv)] else procs + [InitProc(pid, iv)]
  }

  function RunBefore(trace: seq<Line>, n: nat): Interval
    requires 0 < n <= |trace|
  {
    var s := RunStart(trace, n - 1);
    Interval(s + 1, n, NotedPos(s))
  }

  /** The processes after the runs in the first `n` lines have been added. */
  function Parse(trace: seq<Line>, n: nat): seq<Proc>
    requires n <= |trace|
  {
    if n == 0 then []
    else AddRun(Parse(trace, RunStart(trace, n - 1)), trace[n - 1].pid, RunBefore(trace, n))
  }

  // ---- correctness of the segmentation --------------------------------------

  /** `iv` (lines counted from 1) is a run of `pid` that cannot be extended either way. */
  ghost predicate MaximalRun(trace: seq<Line>, pid: nat, iv: Interval) {
    && 1 <= iv.low <= iv.high <= |trace|
    && (forall i :: iv.low - 1 <= i < iv.high ==> trace[i].pid == pid)
    && (iv.low > 1 ==> trace[iv.low - 2].pid != pid)
    && (iv.high < |trace| ==> trace[iv.high].pid != pid)
    && iv.fpos == NotedPos(iv.low - 1)
  }

  /** A process as the first pass leaves it. */
  ghost predicate Fresh(trace: seq<Line>, p: Proc) {
    && CursorOk(p) && p.currInterval == p.lineIntervals
    && p.firstline == p.currentline == p.lineIntervals.iv.low
    && 1 <= p.firstline && p.currentPos == NotedPos(p.firstline - 1)
    && p.waitTime == 0 && p.waitingOnPage == None && p.pageTable == {}
    && (forall iv :: iv in Spine(p.lineIntervals) ==> MaximalRun(trace, p.pid, iv))
    && forall i :: 0 <= i < p.firstline - 1 && i < |trace| ==> trace[i].pid != p.pid
  }

  /** Line `i` (from 1) lies in an interval of the process with its pid. */
  ghost predicate Covered(trace: seq<Line>, procs: seq<Proc>, i: nat)
    requires 1 <= i <= |trace|
  {
    exists p, iv :: p in procs && p.pid == trace[i - 1].pid && iv in Spine(p.lineIntervals) && Contains(iv, i)
  }

  /** No pid twice, and strictly increasing positions. */
  ghost predicate InOrder(procs: seq<Proc>) {
    && (forall i, j :: 0 <= i < j < |procs| ==> procs[i].pid != procs[j].pid)
    && (forall i, j :: 0 <= i < j < |procs| ==> procs[i].currentPos < procs[j].currentPos)
  }

  ghost predicate Segmented(trace: seq<Line>, n: nat, procs: seq<Proc>)
    requires n <= |trace|
  {
    && (forall p :: p in procs ==> Fresh(trace, p) && p.lastline <= n)
    && InOrder(procs)
    && (forall i :: 1 <= i <= n ==> Covered(trace, procs, i))
    && TotalLines(procs) == n
  }

  ghost predicate Boundary(trace: seq<Line>, n: nat) {
    n <= |trace| && (0 < n < |trace| ==> trace[n - 1].pid != trace[n].pid)
  }

  lemma {:induction false} RunBeforeIsMaximal(trace: seq<Line>, n: nat)
    requires 0 < n && Boundary(trace, n)
    ensures MaximalRun(trace, trace[n - 1].pid, RunBefore(trace, n))
    ensures Boundary(trace, RunStart(trace, n - 1))
  {
  }

  lemma {:induction false} TotalLinesUpdate(q: seq<Proc>, n: nat, p: Proc)
    requires n < |q| && CursorOk(p) && forall x :: x in q ==> CursorOk(x)
    ensures forall x :: x in q[n := p] ==> CursorOk(x)
    ensures TotalLines(q[n := p]) == TotalLines(q) - LinesLeft(q[n]) + LinesLeft(p)
  {
    assert q == q[..n] + [q[n]] + q[n + 1..];
    assert q[n := p] == q[..n] + [p] + q[n + 1..];
    TotalLinesConcat(q[..n] + [q[n]], q[n + 1..]);
    TotalLinesConcat(q[..n], [q[n]]);
    TotalLinesConcat(q[..n] + [p], q[n + 1..]);
    TotalLinesConcat(q[..n], [p]);
  }

  lemma {:induction false} ExtendKeepsFresh(trace: seq<Line>, p: Proc, iv: Interval)
    requires Fresh(trace, p) && MaximalRun(trace, p.pid, iv) && p.lastline < iv.low
    ensures Fresh(trace, ExtendProc(p, iv))
    ensures ExtendProc(p, iv).lastline == iv.high
    ensures Spine(ExtendProc(p, iv).lineIntervals) == Spine(p.lineIntervals) + [iv]
    ensures LinesLeft(ExtendProc(p, iv)) == LinesLeft(p) + (iv.high - iv.low + 1)
  {
    ChainOrder(p.lineIntervals);
    InsertExtendsChain(p.lineIntervals, iv);
  }

  lemma {:induction false} AddRunKeepsCover(trace: seq<Line>, procs: seq<Proc>, pid: nat, iv: Interval, i: nat)
    requires 1 <= i <= |trace| && MaximalRun(trace, pid, iv)
    requires forall p :: p in procs ==> Fresh(trace, p) && p.lastline < iv.low
    requires Covered(trace, procs, i) || Contains(iv, i)
    ensures Covered(trace, AddRun(procs, pid, iv), i)
  {
    var n := IndexOfPid(procs, pid);
    var after := AddRun(procs, pid, iv);
    assert after[n].pid == pid && after[n] in after;
    if n < |procs| { ExtendKeepsFresh(trace, procs[n], iv); }
    if Contains(iv, i) {
      assert iv in Spine(after[n].lineIntervals);
    } else {
      var p, j :| p in procs && p.pid == trace[i - 1].pid && j in Spine(p.lineIntervals) && Contains(j, i);
      var k :| 0 <= k < |procs| && procs[k] == p;
      assert after[k] in after && after[k].pid == p.pid && j in Spine(after[k].lineIntervals);
    }
  }

  /** The processes hold runs of earlier lines only, so a first run starts a new process
      whose pid has not been seen. */
  lemma {:induction false} NewPidUnseen(trace: seq<Line>, s: nat, procs: seq<Proc>, pid: nat, i: nat)
    requires s <= |trace| && Segmented(trace, s, procs) && forall p :: p in procs ==> p.pid != pid
    requires i < s
    ensures trace[i].pid != pid
  {
    assert Covered(trace, procs, i + 1);
  }

  ghost predicate Added(trace: seq<Line>, r: seq<Proc>, n: nat) {
    && (forall p :: p in r ==> Fresh(trace, p) && p.lastline <= n)
    && InOrder(r)
    && TotalLines(r) == n
  }

  lemma {:induction false} LaterRun(trace: seq<Line>, s: nat, procs: seq<Proc>, pid: nat, iv: Interval)
    requires s <= |trace| && Segmented(trace, s, procs) && iv.low == s + 1 && MaximalRun(trace, pid, iv)
    requires IndexOfPid(procs, pid) < |procs|
    ensures Added(trace, AddRun(procs, pid, iv), iv.high)
  {
    var n := IndexOfPid(procs, pid);
    var p := ExtendProc(procs[n], iv);
    ExtendKeepsFresh(trace, procs[n], iv);
    TotalLinesUpdate(procs, n, p);
    assert InOrder(procs[n := p]) by { assert p.pid == procs[n].pid && p.currentPos == procs[n].currentPos; }
  }

  lemma {:induction false} FirstRun(trace: seq<Line>, s: nat, procs: seq<Proc>, pid: nat, iv: Interval)
    requires s <= |trace| && Segmented(trace, s, procs) && iv.low == s + 1 && MaximalRun(trace, pid, iv)
    requires forall p :: p in procs ==> p.pid != pid
    ensures Added(trace, procs + [InitProc(pid, iv)], iv.high)
  {
    var p := InitProc(pid, iv);
    InitProcOk(pid, iv);
    assert Fresh(trace, p) by {
      forall i | 0 <= i < s ensures trace[i].pid != pid { NewPidUnseen(trace, s, procs, pid, i); }
    }
    assert InOrder(procs + [p]) by {
      forall x | x in procs ensures x.currentPos < p.currentPos { ChainOrder(x.currInterval); }
    }
    TotalLinesConcat(procs, [p]);
    assert TotalLines([p]) == LinesLeft(p) + TotalLines([]);
  }

  /** Every pid of the trace gets exactly its maximal runs: the chains are disjoint and in
      file order, they cover every line, and the processes stand in order of first
      occurrence, sorted by position. */
  lemma {:induction false} ParseCorrect(trace: seq<Line>, n: nat)
    requires Boundary(trace, n)
    ensures Segmented(trace, n, Parse(trace, n))
  {
    if n > 0 {
      var s := RunStart(trace, n - 1);
      var pid, iv := trace[n - 1].pid, RunBefore(trace, n);
      RunBeforeIsMaximal(trace, n);
      ParseCorrect(trace, s);
      if IndexOfPid(Parse(trace, s), pid) < |Parse(trace, s)| {
        LaterRun(trace, s, Parse(trace, s), pid, iv);
      } else {
        FirstRun(trace, s, Parse(trace, s), pid, iv);
      }
      forall i | 1 <= i <= n ensures Covered(trace, Parse(trace, n), i) {
        AddRunKeepsCover(trace, Parse(trace, s), pid, iv, i);
      }
    }
  }

  /** A pid has a process exactly when it occurs in the trace. */
  lemma {:induction false} ParsedPids(trace: seq<Line>, pid: nat)
    ensures (exists p :: p in Parse(trace, |trace|) && p.pid == pid) <==>
      exists i :: 0 <= i < |trace| && trace[i].pid == pid
  {
    ParseCorrect(trace, |trace|);
    var procs := Parse(trace, |trace|);
    if p :| p in procs && p.pid == pid {
      assert MaximalRun(trace, pid, Spine(p.lineIntervals)[0]);
      assert trace[p.firstline - 1].pid == pid;
    }
    if i :| 0 <= i < |trace| && trace[i].pid == pid { assert Covered(trace, procs, i + 1); }
  }

  /** A trace of one process is a single interval holding every line. */
  lemma {:induction false} SinglePidRun(trace: seq<Line>, pid: nat, i: nat)
    requires i < |trace| && forall j :: 0 <= j < |trace| ==> trace[j].pid == pid
    ensures RunStart(trace, i) == 0
  {
    if i > 0 { SinglePidRun(trace, pid, i - 1); }
  }

  lemma {:induction false} SinglePidParse(trace: seq<Line>, pid: nat)
    requires trace != [] && forall j :: 0 <= j < |trace| ==> trace[j].pid == pid
    ensures Parse(trace, |trace|) == [InitProc(pid, Interval(1, |trace|, NotedPos(0)))]
  {
    SinglePidRun(trace, pid, |trace| - 1);
    var n, iv := |trace|, Interval(1, |trace|, NotedPos(0));
    assert RunBefore(trace, n) == iv;
    assert Parse(trace, n) == AddRun(Parse(trace, 0), pid, iv);
    assert IndexOfPid([], pid) == 0;
  }
}
