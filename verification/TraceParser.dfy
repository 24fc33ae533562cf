/** The first pass over the trace, as the loop that makes it. */
module TraceParser {
  import opened Types
  import opened IntervalTree
  import opened TraceModel
  import opened Process

  /** The processes found so far, and the map from pids to them. */
  ghost predicate Owned(owners: map<nat, Process>, procs: seq<Process>)
    reads procs
  {
    && NoDup(procs)
    && (forall i :: 0 <= i < |procs| ==> procs[i].pid in owners && owners[procs[i].pid] == procs[i])
    && forall pid :: pid in owners ==> owners[pid] in procs && owners[pid].pid == pid
  }

  lemma {:induction false} OwnedIndex(owners: map<nat, Process>, procs: seq<Process>, pid: nat)
    requires Owned(owners, procs)
    ensures var n := IndexOfPid(AbsQueue(procs), pid);
      if pid in owners then n < |procs| && procs[n] == owners[pid] else n == |procs|
  {
    var n := IndexOfPid(AbsQueue(procs), pid);
    if pid in owners {
      var i :| 0 <= i < |procs| && procs[i] == owners[pid];
      assert AbsQueue(procs)[i] in AbsQueue(procs);
    } else {
      assert forall i :: 0 <= i < |procs| ==> AbsQueue(procs)[i].pid in owners;
    }
  }

  /** Gives a finished run to its process, creating the process if need be. */
  method EndRun(owners: map<nat, Process>, procs: seq<Process>, pid: nat, iv: Interval)
    returns (owners': map<nat, Process>, procs': seq<Process>)
    requires Owned(owners, procs)
    modifies procs
    ensures Owned(owners', procs')
    ensures AbsQueue(procs') == AddRun(old(AbsQueue(procs)), pid, iv)
    ensures forall p :: p in procs' ==> p in procs || fresh(p)
  {
    OwnedIndex(owners, procs, pid);
    if pid in owners {
      var p := owners[pid];
      ghost var n := IndexOfPid(AbsQueue(procs), pid);
      p.AddInterval(iv);
      owners', procs' := owners, procs;
      assert AbsQueue(procs') == old(AbsQueue(procs))[n := p.Abs()];
    } else {
      var p := new Process(pid, iv);
      owners', procs' := owners[pid := p], procs + [p];
    }
  }

  /** Reads the trace once.  Returns the number of the first line whose pid is 0, if there
      is one (the program then refuses the file), and otherwise the created processes in
      queue order. */
  method FirstPass(trace: seq<Line>) returns (bad: Option<nat>, procs: seq<Process>)
    ensures match bad
            case Some(n) =>
              && 1 <= n <= |trace| && trace[n - 1].pid == 0
              && forall i :: 0 <= i < n - 1 ==> trace[i].pid != 0
            case None =>
              && (forall i :: 0 <= i < |trace| ==> trace[i].pid != 0)
              && AbsQueue(procs) == Parse(trace, |trace|)
              && NoDup(procs) && forall p :: p in procs ==> fresh(p)
  {
    hide Parse, AddRun, InRun, NotedPos;
    procs := [];
    var owners: map<nat, Process> := map[];  // the search tree over pids
    var pid: nat := 0;
    var startLine: nat, startPos: nat := 1, 0;
    var currLine := 1;
    var more := true;
    RunBegins(trace);
    while more
      invariant 1 <= startLine <= currLine <= |trace| + (if more then 1 else 2)
      invariant more ==> currLine <= |trace| + 1
      invariant forall i :: 0 <= i < currLine - 1 && i < |trace| ==> trace[i].pid != 0
      invariant startPos == NotedPos(startLine - 1)
      invariant Owned(owners, procs) && forall p :: p in procs ==> fresh(p)
      invariant startLine <= |trace| + 1 && AbsQueue(procs) == Parse(trace, startLine - 1)
      invariant more ==> InRun(trace, pid, startLine, currLine)
      invariant !more ==> startLine == |trace| + 1
      decreases |trace| + 2 - currLine, more
    {
      var currPos := NotedPos(currLine - 1);
      more := currLine <= |trace|;
      var currPid := if more then trace[currLine - 1].pid else pid;
      if currPid == 0 && more { return Some(currLine), procs; }
      if more { RunGoesOn(trace, pid, currPid, startLine, currLine); }
      if pid == 0 { NoRunYet(trace, startLine, currLine); }
      if pid != 0 && (currPid != pid || !more) {
        RunEnds(trace, pid, startLine, currLine);
        owners, procs := EndRun(owners, procs, pid, Interval(startLine, currLine - 1, startPos));
        startPos := currPos;
        startLine := currLine;
      }
      pid := currPid;
      currLine := currLine + 1;
    }
    bad := None;
  }

  /** Lines `start` to `line - 1` are all of `pid` and begin a run; at the start no pid has
      been read yet. */
  ghost predicate InRun(trace: seq<Line>, pid: nat, start: nat, line: nat) {
    && 1 <= start <= line <= |trace| + 1
    && (pid == 0 <==> line == 1)
    && (line > 1 ==> start < line && RunStart(trace, line - 2) == start - 1 && trace[line - 2].pid == pid)
  }

  lemma {:induction false} RunBegins(trace: seq<Line>)
    ensures InRun(trace, 0, 1, 1) && Parse(trace, 0) == [] && NotedPos(0) == 0
  {
  }

  lemma {:induction false} RunGoesOn(trace: seq<Line>, pid: nat, next: nat, start: nat, line: nat)
    requires InRun(trace, pid, start, line) && line <= |trace| && next == trace[line - 1].pid != 0
    ensures InRun(trace, next, if pid == 0 || pid == next then start else line, line + 1)
  {
  }

  lemma {:induction false} NoRunYet(trace: seq<Line>, start: nat, line: nat)
    requires InRun(trace, 0, start, line)
    ensures start == line == 1
  {
  }

  lemma {:induction false} RunEnds(trace: seq<Line>, pid: nat, start: nat, line: nat)
    requires InRun(trace, pid, start, line) && pid != 0
    ensures line > 1 && start < line
    ensures var run := Interval(start, line - 1, NotedPos(start - 1));
      Parse(trace, line - 1) == AddRun(Parse(trace, start - 1), pid, run)
  {
    hide AddRun;
  }
}
