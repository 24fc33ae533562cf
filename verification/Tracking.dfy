/** Line by line, or not: the one file cursor serves every process correctly until a page is
    delivered to one process while another is in the middle of its lines.  Up to then every
    process reads the line it has got to; just after, one of them no longer will. */
module Tracking {
  import opened Types
  import opened IntervalTree
  import opened Replacement
  import opened ProcessModel
  import opened TraceModel
  import opened Machine
  import opened MachineInvariant
  import opened Runs
  import opened Accounting
  import Paging

  // ---- where every process stands -------------------------------------------

  /** The intervals still ahead of a process are runs of its own pid. */
  ghost predicate OwnRuns(env: Env, p: Proc) {
    forall iv :: iv in Spine(p.currInterval) ==> MaximalRun(env.trace, p.pid, iv)
  }

  /** The saved position is at or before the line the process has got to, in the same interval. */
  ghost predicate Anchored(p: Proc) {
    p.currInterval.Node? && p.currInterval.iv.low <= LineAt(p.currentPos) + 1 <= p.currentline
  }

  ghost predicate Settled(env: Env, s: State) {
    && (forall p :: p in s.runnable ==> OwnRuns(env, p) && Anchored(p))
    && (forall p :: p in s.blocked ==> OwnRuns(env, p) && Anchored(p))
  }

  /** The saved position is that of the line the process has got to. */
  predicate Saved(p: Proc) { LineAt(p.currentPos) + 1 == p.currentline }

  /** Every live process will next read the line it has got to: the head from where the loop
      would read for it, the others from their saved positions. */
  ghost predicate OnTrack(s: State) {
    && (forall p :: p in s.blocked ==> Saved(p))
    && (s.runnable != [] ==>
          && (forall p :: p in s.runnable[1..] ==> Saved(p))
          && LineAt(ReadPos(s)) + 1 == s.runnable[0].currentline)
  }

  /** A page is delivered while the process at the head is the one the cursor belongs to;
      harmless only if the resumed process goes ahead of it and it has run no line since its
      position was saved. */
  ghost predicate Overtakes(env: Env, s: State)
    requires Inv(env, s)
  {
    && EventOf(env, s).Loaded?
    && s.runnable != [] && s.current == Some(s.runnable[0].pid)
    && !(s.blocked[0].currentPos < s.runnable[0].currentPos && LineAt(s.runnable[0].currentPos) == LineAt(s.cursor))
  }

  // ---- the shape of one iteration -------------------------------------------

  lemma {:induction false} LoadShape(env: Env, s: State)
    requires Inv(env, s) && EventOf(env, s).Loaded?
    ensures s.blocked != []
    ensures var t := Step(env, s); var p := s.blocked[0].(waitTime := 0, waitingOnPage := None);
      && t.runnable == EnqueuePriority(p, s.runnable) && t.blocked == s.blocked[1..]
      && t.cursor == p.currentPos && t.current == s.current
  {
    hide QueueInv, LinesInv, MemOk, LoadPage, Allocated, Owns, EnqueuePriority;
    HeadsOk(env, s);
    AwaitsPage(env, s);
  }

  /** The head after its line has been read. */
  function Read(env: Env, s: State): Proc
    requires s.runnable != [] && CanRead(env, s)
  {
    s.runnable[0].(pageTable := s.runnable[0].pageTable + {NextPage(env, s).vpn})
  }

  lemma {:induction false} FaultShape(env: Env, s: State)
    requires Inv(env, s) && EventOf(env, s).Faulted?
    ensures s.runnable != [] && CanRead(env, s)
    ensures var t := Step(env, s);
      var pg := Some(NextPage(env, s));
      var q := Read(env, s).(waitTime := env.penalty, waitingOnPage := pg, currentPos := ReadPos(s));
      && t.runnable == s.runnable[1..] && t.blocked == Ticked(s.blocked) + [q] && t.current == Some(q.pid)
  {
    hide Inv, Step, EventOf, Resident;
    RunsHead(env, s);
  }

  /** After a hit: the next interval, the next line, or the end of the process. */
  lemma {:induction false} TouchShape(env: Env, s: State)
    requires Inv(env, s) && EventOf(env, s).Touched?
    ensures s.runnable != [] && CanRead(env, s) && s.runnable[0].currInterval.Node?
    ensures var t := Step(env, s); var h := Read(env, s);
      && t.blocked == Ticked(s.blocked)
      && if OnLastLineInInterval(h) && HasIntervalsRemaining(h) then
           var q := JumpToNextInterval(h);
           t.runnable == EnqueuePriority(q, s.runnable[1..]) && t.cursor == q.currentPos && t.current == Some(h.pid)
         else if HasLinesRemainingInInterval(h) then
           && t.runnable == [h.(currentline := h.currentline + 1)] + s.runnable[1..]
           && t.cursor == PosAfterReading(LineAt(ReadPos(s))) && t.current == Some(h.pid)
         else
           t.runnable == s.runnable[1..] && t.current == None
  {
    hide Inv, Step, EventOf, Resident, NotifyAccess, Clear, Forget, EnqueuePriority;
    RunsHead(env, s);
  }

  // ---- the intervals stay the process's own ---------------------------------

  lemma {:induction false} SpineParts(t: Tree)
    requires t.Node?
    ensures t.iv in Spine(t) && forall iv :: iv in Spine(t.right) ==> iv in Spine(t)
  {
  }

  /** The line a process has got to is in the trace, and its own. */
  lemma {:induction false} OwnLine(env: Env, p: Proc)
    requires OwnRuns(env, p) && CursorOk(p)
    ensures 1 <= p.currentline <= |env.trace| && env.trace[p.currentline - 1].pid == p.pid
  {
    SpineParts(p.currInterval);
    assert MaximalRun(env.trace, p.pid, p.currInterval.iv);
  }

  lemma {:induction false} TickedMember(q: seq<Proc>, x: Proc)
    requires x in Ticked(q)
    ensures exists y :: y in q && x == y.(waitTime := x.waitTime)
  {
    if q[0].waitTime == 0 || x in q {
      assert x == x.(waitTime := x.waitTime);
    } else {
      ReplaceHead(q, q[0].(waitTime := q[0].waitTime - 1), x);
      Members(q, x);
      assert q[0] in q;
    }
  }

  // ---- a delivery -----------------------------------------------------------

  lemma {:induction false} LoadSettled(env: Env, s: State)
    requires Inv(env, s) && Settled(env, s) && EventOf(env, s).Loaded?
    ensures Settled(env, Step(env, s))
  {
    hide Inv, Step, EventOf, EnqueuePriority, OwnRuns, Anchored;
    LoadShape(env, s);
    var t, p := Step(env, s), s.blocked[0].(waitTime := 0, waitingOnPage := None);
    SettledAlike(env, s.blocked[0], p);
    assert s.blocked[0] in s.blocked;
    forall x | x in t.runnable ensures OwnRuns(env, x) && Anchored(x) { EnqueueMembers(p, s.runnable, x); }
    forall x | x in t.blocked ensures x in s.blocked { Members(s.blocked, x); }
  }

  lemma {:induction false} SettledAlike(env: Env, p: Proc, q: Proc)
    requires p.pid == q.pid && p.currInterval == q.currInterval
    requires p.currentPos == q.currentPos && p.currentline == q.currentline
    ensures OwnRuns(env, p) ==> OwnRuns(env, q)
    ensures Anchored(p) ==> Anchored(q)
  {
  }

  /** The processes behind the one inserted at the front, or behind the old head. */
  lemma {:induction false} InsertedRest(p: Proc, q: seq<Proc>)
    requires q != []
    ensures var r := EnqueuePriority(p, q);
      && r != []
      && (p.currentPos < q[0].currentPos ==> r[0] == p && forall x :: x in r[1..] <==> x == q[0] || x in q[1..])
      && (p.currentPos >= q[0].currentPos ==> r[0] == q[0] && forall x :: x in r[1..] <==> x == p || x in q[1..])
  {
    var n := InsertionPoint(q, p.currentPos);
    var r := EnqueuePriority(p, q);
    if n == 0 {
      assert r[1..] == q == [q[0]] + q[1..];
    } else {
      assert q[1..] == q[1..n] + q[n..] && r[1..] == q[1..n] + [p] + q[n..];
    }
  }

  lemma {:induction false} AloneInserted(p: Proc)
    ensures EnqueuePriority(p, []) == [p]
  {
  }

  /** The resumed process and the head are on different lines of the trace. */
  lemma {:induction false} OtherLine(env: Env, s: State)
    requires Inv(env, s) && Settled(env, s) && s.runnable != [] && s.blocked != []
    ensures s.blocked[0].pid != s.runnable[0].pid && s.blocked[0].currentline != s.runnable[0].currentline
  {
    hide MemOk, LinesInv, Owns, Waiting, AllPids;
    HeadsOk(env, s);
    HeadIsAlone(env, s, s.blocked[0]);
    OwnLine(env, s.blocked[0]);
    OwnLine(env, s.runnable[0]);
  }

  /** A delivery leads off the track exactly when it overtakes. */
  lemma {:induction false} LoadTrack(env: Env, s: State)
    requires Inv(env, s) && Settled(env, s) && OnTrack(s) && EventOf(env, s).Loaded?
    ensures OnTrack(Step(env, s)) <==> !Overtakes(env, s)
  {
    hide Inv, Step, EventOf, EnqueuePriority, Settled, LineAt;
    LoadShape(env, s);
    var t, p := Step(env, s), s.blocked[0].(waitTime := 0, waitingOnPage := None);
    assert Saved(p) by { assert s.blocked[0] in s.blocked; }
    forall x | x in t.blocked ensures Saved(x) { Members(s.blocked, x); }
    if s.runnable == [] {
      AloneInserted(p);
    } else {
      OtherLine(env, s);
      InsertedRest(p, s.runnable);
      var h := s.runnable[0];
      if p.currentPos < h.currentPos {
        assert h in t.runnable[1..];
        assert OnTrack(t) <==> Saved(h);
      } else {
        assert p in t.runnable[1..];
        assert OnTrack(t) <==> LineAt(ReadPos(t)) + 1 == h.currentline;
      }
    }
  }

  // ---- a reference ----------------------------------------------------------

  /** On track the head reads a line of its own: the one it has got to. */
  lemma {:induction false} ReadsOwnLine(env: Env, s: State)
    requires Inv(env, s) && Settled(env, s) && OnTrack(s) && s.runnable != []
    ensures CanRead(env, s) && LineAt(ReadPos(s)) + 1 == s.runnable[0].currentline
    ensures env.trace[LineAt(ReadPos(s))].pid == s.runnable[0].pid
  {
    hide MemOk, LinesInv, Owns, Waiting, AllPids, SortedByPos, LineAt;
    HeadsOk(env, s);
    assert s.runnable[0] in s.runnable;
    OwnLine(env, s.runnable[0]);
  }

  /** The members of the disk queue stand where they stood a tick ago. */
  lemma {:induction false} TickedTrack(env: Env, q: seq<Proc>, x: Proc)
    requires forall p :: p in q ==> OwnRuns(env, p) && Anchored(p)
    requires x in Ticked(q)
    ensures OwnRuns(env, x) && Anchored(x)
    ensures (forall p :: p in q ==> Saved(p)) ==> Saved(x)
  {
    hide OwnRuns, Anchored, Ticked;
    TickedMember(q, x);
    var y :| y in q && x == y.(waitTime := x.waitTime);
    SettledAlike(env, y, x);
  }

  /** No other runnable process has the pid of the head. */
  lemma {:induction false} OthersDiffer(env: Env, s: State, x: Proc)
    requires Inv(env, s) && s.runnable != [] && x in s.runnable[1..]
    ensures x.pid != s.runnable[0].pid && x in s.runnable
  {
    hide MemOk, LinesInv, Owns, Waiting, AllPids, SortedByPos, CursorOk;
    HeadIsAlone(env, s, x);
    Members(s.runnable, x);
  }

  lemma {:induction false} FaultTrack(env: Env, s: State)
    requires Inv(env, s) && Settled(env, s) && OnTrack(s) && EventOf(env, s).Faulted?
    ensures Settled(env, Step(env, s)) && OnTrack(Step(env, s))
  {
    hide Inv, Step, EventOf, OwnRuns, LineAt, Ticked;
    FaultShape(env, s);
    var t, h := Step(env, s), s.runnable[0];
    var q := Read(env, s).(waitTime := env.penalty, waitingOnPage := Some(NextPage(env, s)), currentPos := ReadPos(s));
    assert h in s.runnable;
    OwnRunsAlike(env, h, q);
    forall x | x in t.runnable ensures x in s.runnable { Members(s.runnable, x); }
    forall x | x in t.blocked ensures OwnRuns(env, x) && Anchored(x) && Saved(x) {
      if x in Ticked(s.blocked) { TickedTrack(env, s.blocked, x); }
    }
    if t.runnable != [] {
      assert t.runnable[0] in s.runnable[1..];
      OthersDiffer(env, s, t.runnable[0]);
      forall x | x in t.runnable[1..] ensures x in s.runnable[1..] { Members(t.runnable, x); }
    }
  }

  lemma {:induction false} OwnRunsAlike(env: Env, p: Proc, q: Proc)
    requires p.pid == q.pid && p.currInterval == q.currInterval
    ensures OwnRuns(env, p) <==> OwnRuns(env, q)
  {
  }

  lemma {:induction false} JumpTrack(env: Env, s: State)
    requires Inv(env, s) && Settled(env, s) && OnTrack(s) && EventOf(env, s).Touched?
    requires s.runnable[0].currInterval.Node?
    requires OnLastLineInInterval(s.runnable[0]) && HasIntervalsRemaining(s.runnable[0])
    ensures Settled(env, Step(env, s)) && OnTrack(Step(env, s))
  {
    hide Inv, Step, EventOf, OwnRuns, Ticked, EnqueuePriority, Anchored;
    TouchShape(env, s);
    var t, h := Step(env, s), Read(env, s);
    var q := JumpToNextInterval(h);
    JumpedTo(env, s.runnable[0], h);
    var rest := s.runnable[1..];
    forall x | x in t.blocked ensures OwnRuns(env, x) && Anchored(x) && Saved(x) { TickedTrack(env, s.blocked, x); }
    forall x | x in rest ensures x in s.runnable && x.pid != h.pid && Saved(x) { OthersDiffer(env, s, x); }
    forall x | x in t.runnable ensures OwnRuns(env, x) && Anchored(x) { EnqueueMembers(q, rest, x); }
    if rest == [] {
      AloneInserted(q);
    } else {
      InsertedRest(q, rest);
      forall x | x in t.runnable[1..] ensures Saved(x) { Members(rest, x); }
      assert rest[0] in rest;
    }
  }

  lemma {:induction false} JumpedTo(env: Env, p: Proc, h: Proc)
    requires OwnRuns(env, p) && p.pid == h.pid && p.currInterval == h.currInterval
    requires h.currInterval.Node? && HasIntervalsRemaining(h)
    ensures var q := JumpToNextInterval(h); OwnRuns(env, q) && Anchored(q) && Saved(q)
  {
    SpineParts(h.currInterval);
    SpineParts(h.currInterval.right);
    assert MaximalRun(env.trace, h.pid, h.currInterval.right.iv);
  }

  lemma {:induction false} NextTrack(env: Env, s: State)
    requires Inv(env, s) && Settled(env, s) && OnTrack(s) && EventOf(env, s).Touched?
    requires s.runnable[0].currInterval.Node?
    requires !(OnLastLineInInterval(s.runnable[0]) && HasIntervalsRemaining(s.runnable[0]))
    ensures Settled(env, Step(env, s)) && OnTrack(Step(env, s))
  {
    hide Inv, Step, EventOf, OwnRuns, Ticked, EnqueuePriority;
    TouchShape(env, s);
    var t, h := Step(env, s), Read(env, s);
    assert s.runnable[0] in s.runnable;
    OwnRunsAlike(env, s.runnable[0], h.(currentline := h.currentline + 1));
    forall x | x in t.blocked ensures OwnRuns(env, x) && Anchored(x) && Saved(x) { TickedTrack(env, s.blocked, x); }
    forall x | x in s.runnable[1..] ensures x in s.runnable && x.pid != h.pid && Saved(x) { OthersDiffer(env, s, x); }
    if HasLinesRemainingInInterval(h) {
      assert t.runnable[1..] == s.runnable[1..];
      forall x | x in t.runnable ensures OwnRuns(env, x) && Anchored(x) { Members(t.runnable, x); }
    } else if t.runnable != [] {
      assert t.runnable[0] in s.runnable[1..];
      forall x | x in t.runnable[1..] ensures x in s.runnable[1..] { Members(t.runnable, x); }
    }
  }

  lemma {:induction false} TouchTrack(env: Env, s: State)
    requires Inv(env, s) && Settled(env, s) && OnTrack(s) && EventOf(env, s).Touched?
    ensures Settled(env, Step(env, s)) && OnTrack(Step(env, s))
  {
    hide Inv, Step, EventOf, Settled, OnTrack;
    TouchShape(env, s);
    if OnLastLineInInterval(s.runnable[0]) && HasIntervalsRemaining(s.runnable[0]) {
      JumpTrack(env, s);
    } else {
      NextTrack(env, s);
    }
  }

  lemma {:induction false} WaitTrack(env: Env, s: State)
    requires Inv(env, s) && Settled(env, s) && OnTrack(s) && EventOf(env, s).Skipped?
    ensures Settled(env, Step(env, s)) && OnTrack(Step(env, s))
  {
    hide Inv, Step, EventOf, OwnRuns, Anchored;
    StepEffect(env, s);
    var t := Step(env, s);
    var h := s.blocked[0].(waitTime := 1);
    assert s.blocked[0] in s.blocked;
    SettledAlike(env, s.blocked[0], h);
    forall x | x in t.blocked ensures OwnRuns(env, x) && Anchored(x) && Saved(x) {
      ReplaceHead(s.blocked, h, x);
      Members(s.blocked, x);
    }
  }

  // ---- the exact condition --------------------------------------------------

  lemma {:induction false} NeverStuck(env: Env, s: State)
    requires Inv(env, s) && Settled(env, s) && OnTrack(s)
    ensures !EventOf(env, s).Stuck?
  {
    hide MemOk, LinesInv, Owns, Waiting, AllPids, SortedByPos, CursorOk, LineAt, Settled, OnTrack, QueueInv, MemoryInv;
    if s.runnable != [] { ReadsOwnLine(env, s); }
  }

  /** One iteration leaves the track exactly if it is a delivery that overtakes. */
  lemma {:induction false} TrackStep(env: Env, s: State)
    requires Inv(env, s) && Settled(env, s) && OnTrack(s)
    ensures OnTrack(Step(env, s)) <==> !Overtakes(env, s)
    ensures Settled(env, Step(env, s))
    ensures !EventOf(env, s).Stuck?
  {
    hide Inv, Step, EventOf, Settled, OnTrack;
    NeverStuck(env, s);
    StepEffect(env, s);
    match EventOf(env, s)
    case Loaded(_) => LoadSettled(env, s); LoadTrack(env, s);
    case Touched(_) => TouchTrack(env, s);
    case Faulted(_) => FaultTrack(env, s);
    case Skipped => WaitTrack(env, s);
    case _ =>
  }

  /** The two ways off the track.  Resumed behind the head, the process drags the cursor to
      its own line and the head reads that line next.  Resumed ahead of it, the process runs
      first, and the head will go back to a line of its own before the one it had got to. */
  lemma {:induction false} OffTrack(env: Env, s: State)
    requires Inv(env, s) && Settled(env, s) && OnTrack(s) && Overtakes(env, s)
    ensures s.blocked != [] && s.runnable != []
    ensures var t := Step(env, s); var p, h := s.blocked[0], s.runnable[0];
      && |t.runnable| == |s.runnable| + 1
      && if p.currentPos < h.currentPos then
           && t.runnable[1] == h && LineAt(h.currentPos) + 1 < h.currentline <= |env.trace|
           && env.trace[LineAt(h.currentPos)].pid == h.pid
         else
           && t.runnable[0] == h && CanRead(env, t)
           && env.trace[LineAt(ReadPos(t))].pid == p.pid != h.pid
  {
    hide MemOk, LinesInv, Owns, AllPids, SortedByPos, LineAt, Step, EventOf, Waiting, MemoryInv;
    LoadShape(env, s);
    OtherLine(env, s);
    HeadsOk(env, s);
    var t, p, h := Step(env, s), s.blocked[0], s.runnable[0];
    var q := p.(waitTime := 0, waitingOnPage := None);
    FrontOrSecond(q, s.runnable);
    OwnLine(env, p);
    OwnLine(env, h);
    OwnAnchor(env, h);
  }

  lemma {:induction false} FrontOrSecond(p: Proc, q: seq<Proc>)
    requires q != []
    ensures |EnqueuePriority(p, q)| == |q| + 1
    ensures if p.currentPos < q[0].currentPos then EnqueuePriority(p, q)[1] == q[0]
          else EnqueuePriority(p, q)[0] == q[0]
  {
  }

  /** The line of the saved position belongs to the process too. */
  lemma {:induction false} OwnAnchor(env: Env, p: Proc)
    requires OwnRuns(env, p) && Anchored(p) && CursorOk(p)
    ensures LineAt(p.currentPos) < |env.trace| && env.trace[LineAt(p.currentPos)].pid == p.pid
  {
    SpineParts(p.currInterval);
    assert MaximalRun(env.trace, p.pid, p.currInterval.iv);
  }

  // ---- whole runs -----------------------------------------------------------

  lemma {:induction false} FirstLine(trace: seq<Line>)
    requires trace != []
    ensures var procs := Parse(trace, |trace|); procs != [] && procs[0].currentPos == 0 && procs[0].currentline == 1
  {
    ParseCorrect(trace, |trace|);
    var procs := Parse(trace, |trace|);
    assert Covered(trace, procs, 1);
    var p, iv :| p in procs && p.pid == trace[0].pid && iv in Spine(p.lineIntervals) && Contains(iv, 1);
    assert Fresh(trace, p) && p.firstline == 1;
    assert Fresh(trace, procs[0]);
  }

  /** At the start everyone is on track. */
  lemma {:induction false} BeginOnTrack(env: Env, policy: Policy)
    requires Start(env, policy)
    ensures Settled(env, Begin(env, policy)) && OnTrack(Begin(env, policy))
  {
    hide MemOk, Inv;
    ParseCorrect(env.trace, |env.trace|);
    var b := Begin(env, policy);
    assert b.runnable == Parse(env.trace, |env.trace|) && b.blocked == [];
    forall p | p in b.runnable ensures OwnRuns(env, p) && Anchored(p) && Saved(p) { assert Fresh(env.trace, p); }
    if b.runnable != [] {
      assert env.trace != [];
      FirstLine(env.trace);
      forall p | p in b.runnable[1..] ensures Saved(p) { Members(b.runnable, p); }
    }
  }

  ghost predicate OnTrackUpTo(env: Env, s: State, n: nat)
    requires Inv(env, s)
  {
    forall i: nat :: i <= n ==> OnTrack(Run(env, s, i))
  }

  ghost predicate NoneOvertakes(env: Env, s: State, n: nat)
    requires Inv(env, s)
  {
    forall i: nat :: i < n ==> !Overtakes(env, Run(env, s, i))
  }

  lemma {:induction false} OneIterationMore(env: Env, s: State, n: nat)
    requires Inv(env, s)
    ensures OnTrackUpTo(env, s, n + 1) <==> OnTrackUpTo(env, s, n) && OnTrack(Run(env, s, n + 1))
    ensures NoneOvertakes(env, s, n + 1) <==> NoneOvertakes(env, s, n) && !Overtakes(env, Run(env, s, n))
  {
    hide Inv, OnTrack, Overtakes, Run;
  }

  /** A run stays on track exactly as long as no delivery overtakes; until then every process
      reads its own lines, one after the other, and the program does not give up. */
  lemma {:induction false} TrackExactly(env: Env, s: State, n: nat)
    requires Inv(env, s) && Settled(env, s) && OnTrack(s) && !s.aborted
    ensures OnTrackUpTo(env, s, n) <==> NoneOvertakes(env, s, n)
    ensures OnTrackUpTo(env, s, n) ==> Settled(env, Run(env, s, n)) && !Run(env, s, n).aborted
  {
    hide Inv, Step, EventOf, Settled, OnTrack, Overtakes;
    assert Run(env, s, 0) == s;
    if n > 0 {
      TrackExactly(env, s, n - 1);
      OneIterationMore(env, s, n - 1);
      var t := Run(env, s, n - 1);
      if OnTrackUpTo(env, s, n - 1) {
        TrackStep(env, t);
        StepEffect(env, t);
      }
    }
  }

  // ---- every line once ------------------------------------------------------

  /** The lines (from 0) that have been hits in the first `n` iterations. */
  ghost function LinesHit(env: Env, s: State, n: nat): set<nat>
    requires Inv(env, s)
  {
    if n == 0 then {}
    else
      var t := Run(env, s, n - 1);
      LinesHit(env, s, n - 1) + HitLine(env, t)
  }

  /** The line hit by the iteration, if it is a hit. */
  ghost function HitLine(env: Env, s: State): set<nat>
    requires Inv(env, s)
  {
    if EventOf(env, s).Touched? && s.runnable != [] then {LineAt(ReadPos(s))} else {}
  }

  function Live(s: State): seq<Proc> { s.runnable + s.blocked }

  /** Each live process is past all the lines of its own that have been hit, and there have
      been as many hits as lines hit. */
  ghost predicate HitOnce(env: Env, s: State, lines: set<nat>) {
    && |lines| == s.tmr && (forall i :: i in lines ==> i < |env.trace|)
    && forall p, i :: p in Live(s) && i in lines && i < |env.trace| && env.trace[i].pid == p.pid ==>
        i + 1 < p.currentline
  }

  /** `x` is the same process as `y`, no further back, and further on if it has had a hit. */
  ghost predicate Continues(y: Proc, x: Proc, hit: bool) {
    y.pid == x.pid && y.currentline <= x.currentline && (hit ==> y.currentline < x.currentline)
  }

  ghost predicate Continued(s: State, x: Proc, e: Event) {
    exists y :: y in Live(s) && Continues(y, x, e.Touched? && s.runnable != [] && y == s.runnable[0])
  }

  lemma {:induction false} ContinuedAlike(s: State, y: Proc, x: Proc, e: Event)
    requires y in s.runnable || y in s.blocked
    requires y.pid == x.pid && y.currentline == x.currentline
    requires e.Touched? ==> s.runnable != [] && y != s.runnable[0]
    ensures Continued(s, x, e)
  {
    assert y in Live(s);
  }

  lemma {:induction false} TickedContinued(s: State, x: Proc, e: Event)
    requires x in Ticked(s.blocked)
    requires e.Touched? ==> s.runnable != [] && s.runnable[0] !in s.blocked
    ensures Continued(s, x, e)
  {
    hide Ticked, Continued;
    TickedMember(s.blocked, x);
    var y :| y in s.blocked && x == y.(waitTime := x.waitTime);
    ContinuedAlike(s, y, x, e);
  }

  lemma {:induction false} NotTwice(env: Env, s: State)
    requires Inv(env, s) && s.runnable != []
    ensures s.runnable[0] !in s.blocked && s.runnable[0] !in s.runnable[1..]
    ensures forall y :: y in Live(s) && y.pid == s.runnable[0].pid ==> y == s.runnable[0]
  {
    hide MemOk, LinesInv, Owns, Waiting, AllPids, SortedByPos, CursorOk;
    var h := s.runnable[0];
    forall y | y in s.runnable[1..] || y in s.blocked ensures y.pid != h.pid { HeadIsAlone(env, s, y); }
    forall y | y in Live(s) ensures y == h || y in s.runnable[1..] || y in s.blocked { Members(s.runnable, y); }
  }

  /** What is left of the runnable queue behind its head. */
  lemma {:induction false} RestContinued(env: Env, s: State, x: Proc, e: Event)
    requires Inv(env, s) && s.runnable != [] && x in s.runnable[1..]
    ensures Continued(s, x, e)
  {
    hide Inv, Continued;
    NotTwice(env, s);
    Members(s.runnable, x);
    ContinuedAlike(s, x, x, e);
  }

  lemma {:induction false} HeadContinued(s: State, x: Proc, e: Event)
    requires s.runnable != [] && x.pid == s.runnable[0].pid && s.runnable[0].currentline < x.currentline
    ensures Continued(s, x, e)
  {
    assert s.runnable[0] in Live(s);
    assert Continues(s.runnable[0], x, true);
  }

  lemma {:induction false} TouchContinues(env: Env, s: State, x: Proc)
    requires Inv(env, s) && EventOf(env, s).Touched? && x in Live(Step(env, s))
    ensures Continued(s, x, EventOf(env, s))
  {
    hide Inv, Step, EventOf, Continued, EnqueuePriority, Ticked;
    TouchShape(env, s);
    NotTwice(env, s);
    var t, h, e := Step(env, s), Read(env, s), EventOf(env, s);
    if x in t.blocked {
      TickedContinued(s, x, e);
    } else if OnLastLineInInterval(h) && HasIntervalsRemaining(h) {
      var q := JumpToNextInterval(h);
      JumpsForward(env, s);
      EnqueueMembers(q, s.runnable[1..], x);
      if x == q { HeadContinued(s, x, e); } else { RestContinued(env, s, x, e); }
    } else if x in s.runnable[1..] {
      RestContinued(env, s, x, e);
    } else {
      HeadContinued(s, x, e);
    }
  }

  lemma {:induction false} JumpsForward(env: Env, s: State)
    requires Inv(env, s) && s.runnable != [] && s.runnable[0].currInterval.Node? && HasIntervalsRemaining(s.runnable[0])
    ensures s.runnable[0].currentline < s.runnable[0].currInterval.right.iv.low
  {
    hide MemOk, LinesInv, Owns, Waiting, AllPids, SortedByPos;
    HeadsOk(env, s);
  }

  lemma {:induction false} OtherwiseContinues(env: Env, s: State, x: Proc)
    requires Inv(env, s) && !EventOf(env, s).Touched? && !EventOf(env, s).Stuck? && x in Live(Step(env, s))
    ensures Continued(s, x, EventOf(env, s))
  {
    hide Inv, Step, EventOf, Continued, EnqueuePriority, Ticked;
    StepEffect(env, s);
    var t, e := Step(env, s), EventOf(env, s);
    match e
    case Loaded(_) =>
      LoadShape(env, s);
      var p := s.blocked[0].(waitTime := 0, waitingOnPage := None);
      assert s.blocked[0] in s.blocked;
      if x in t.runnable { EnqueueMembers(p, s.runnable, x); } else { Members(s.blocked, x); }
      ContinuedAlike(s, if x == p then s.blocked[0] else x, x, e);
    case Faulted(_) =>
      FaultShape(env, s);
      if x in t.runnable {
        RestContinued(env, s, x, e);
      } else if x in Ticked(s.blocked) {
        TickedContinued(s, x, e);
      } else {
        assert s.runnable[0] in s.runnable;
        ContinuedAlike(s, s.runnable[0], x, e);
      }
    case Skipped =>
      var h := s.blocked[0].(waitTime := 1);
      assert s.blocked[0] in s.blocked;
      ReplaceHead(s.blocked, h, x);
      Members(s.blocked, x);
      ContinuedAlike(s, if x == h then s.blocked[0] else x, x, e);
    case _ => ContinuedAlike(s, x, x, e);
  }

  /** A hit on track is on a line not hit before. */
  lemma {:induction false} HitOnceStep(env: Env, s: State, lines: set<nat>)
    requires Inv(env, s) && Settled(env, s) && OnTrack(s) && HitOnce(env, s, lines)
    ensures HitOnce(env, Step(env, s), lines + HitLine(env, s))
  {
    hide Inv, Step, EventOf, Settled, OnTrack, LineAt, Live;
    TrackStep(env, s);
    StepEffect(env, s);
    var t, e, now := Step(env, s), EventOf(env, s), lines + HitLine(env, s);
    if e.Touched? {
      ReadsOwnLine(env, s);
      NotTwice(env, s);
      HeadIsLive(s);
      assert LineAt(ReadPos(s)) !in lines;
    }
    forall p, i | p in Live(t) && i in now && i < |env.trace| && env.trace[i].pid == p.pid
        ensures i + 1 < p.currentline {
      if e.Touched? { TouchContinues(env, s, p); } else { OtherwiseContinues(env, s, p); }
      var y :| y in Live(s) && Continues(y, p, e.Touched? && s.runnable != [] && y == s.runnable[0]);
    }
  }

  lemma {:induction false} HeadIsLive(s: State)
    requires s.runnable != []
    ensures s.runnable[0] in Live(s)
  {
  }

  lemma {:induction false} HitOnceRun(env: Env, s: State, n: nat)
    requires Inv(env, s) && Settled(env, s) && OnTrack(s) && !s.aborted && s.tmr == 0
    requires NoneOvertakes(env, s, n)
    ensures HitOnce(env, Run(env, s, n), LinesHit(env, s, n))
  {
    hide Inv, Step, EventOf, Settled, OnTrack, Overtakes, HitLine, HitOnce, OnTrackUpTo, NoneOvertakes;
    assert Run(env, s, 0) == s;
    if n == 0 {
      NoneHit(env, s);
    } else {
      OneIterationMore(env, s, n - 1);
      HitOnceRun(env, s, n - 1);
      TrackExactly(env, s, n - 1);
      OneState(env, s, n - 1);
      HitOnceStep(env, Run(env, s, n - 1), LinesHit(env, s, n - 1));
    }
  }

  lemma {:induction false} OneState(env: Env, s: State, n: nat)
    requires Inv(env, s) && OnTrackUpTo(env, s, n)
    ensures OnTrack(Run(env, s, n))
  {
    hide Inv, OnTrack, Run;
  }

  lemma {:induction false} NoneHit(env: Env, s: State)
    requires s.tmr == 0
    ensures HitOnce(env, s, {})
  {
  }

  /** All the lines of a trace. */
  function AllLines(n: nat): (r: set<nat>)
    ensures forall i :: i in r <==> 0 <= i < n
  {
    if n == 0 then {} else AllLines(n - 1) + {n - 1}
  }

  lemma {:induction false} CountLines(n: nat)
    ensures |AllLines(n)| == n
  {
    if n > 0 { CountLines(n - 1); }
  }

  /** Each of the first `n` references, hit or miss, is of the process and page its line names. */
  ghost predicate OwnReads(env: Env, s: State, n: nat)
    requires Inv(env, s)
  {
    forall k: nat :: k < n ==> OwnRead(env, Run(env, s, k))
  }

  ghost predicate OwnRead(env: Env, s: State)
    requires Inv(env, s)
  {
    EventOf(env, s).Touched? || EventOf(env, s).Faulted? ==>
      && s.runnable != [] && CanRead(env, s)
      && var line := env.trace[LineAt(ReadPos(s))]; EventOf(env, s).page == Page(line.pid, line.vpn)
  }

  lemma {:induction false} OwnReadOnTrack(env: Env, s: State)
    requires Inv(env, s) && Settled(env, s) && OnTrack(s)
    ensures OwnRead(env, s)
  {
    hide Inv, Step, EventOf, Settled, OnTrack, LineAt, Resident;
    if EventOf(env, s).Touched? || EventOf(env, s).Faulted? {
      RunsHead(env, s);
      ReadsOwnLine(env, s);
    }
  }

  lemma {:induction false} FewerIterations(env: Env, s: State, k: nat, n: nat)
    requires Inv(env, s) && k <= n && NoneOvertakes(env, s, n)
    ensures NoneOvertakes(env, s, k)
  {
    hide Inv, Run, Overtakes;
  }

  lemma {:induction false} OwnReadsRun(env: Env, s: State, n: nat)
    requires Inv(env, s) && Settled(env, s) && OnTrack(s) && !s.aborted && NoneOvertakes(env, s, n)
    ensures OwnReads(env, s, n)
  {
    hide Inv, Run, Settled, OnTrack, OnTrackUpTo, NoneOvertakes, OwnRead;
    forall k: nat | k < n ensures OwnRead(env, Run(env, s, k)) {
      FewerIterations(env, s, k, n);
      TrackExactly(env, s, k);
      OneState(env, s, k);
      OwnReadOnTrack(env, Run(env, s, k));
    }
  }

  /** When no delivery overtakes, the program simulates the trace line by line: it does not
      give up, every reference is of the process and page its line names, the hits fall on
      different lines, and when the loop ends every line has been hit, exactly once. */
  lemma {:induction false} LineByLine(env: Env, policy: Policy, n: nat)
    requires Start(env, policy)
    ensures var b := Begin(env, policy); var s := Run(env, b, n);
      NoneOvertakes(env, b, n) ==>
        && !s.aborted && OwnReads(env, b, n) && |LinesHit(env, b, n)| == s.tmr
        && (Halted(s) ==> s.tmr == |env.trace| && LinesHit(env, b, n) == AllLines(|env.trace|))
  {
    hide Inv, Step, Begin, Run, Settled, OnTrack, Overtakes, OnTrackUpTo, NoneOvertakes, LinesHit, Start, OwnReads;
    var b := Begin(env, policy);
    var s := Run(env, b, n);
    BeginFacts(env, policy);
    BeginOnTrack(env, policy);
    if NoneOvertakes(env, b, n) {
      TrackExactly(env, b, n);
      HitOnceRun(env, b, n);
      OwnReadsRun(env, b, n);
      if Halted(s) {
        AllLinesRun(env, s);
        CountLines(|env.trace|);
        Paging.SubsetCardinality(LinesHit(env, b, n), AllLines(|env.trace|));
      }
    }
  }
}
