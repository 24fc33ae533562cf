/** Whatever the file cursor does, every process goes through its own lines in the order of
    the trace: a hit takes it to the next line with its pid, and ends it after the last. */
module OwnLines {
  import opened Types
  import opened IntervalTree
  import opened Replacement
  import opened ProcessModel
  import opened TraceModel
  import opened Machine
  import opened MachineInvariant
  import opened Runs
  import opened Accounting
  import opened Tracking

  // Lines are counted from 1, so line l + 1 of the trace is `trace[l]`.

  /** Line `m` is the first one of `pid` after line `l`. */
  ghost predicate NextOwn(trace: seq<Line>, pid: nat, l: nat, m: nat) {
    l < m <= |trace| && trace[m - 1].pid == pid && forall j :: l <= j < m - 1 ==> trace[j].pid != pid
  }

  ghost predicate NoneAfter(trace: seq<Line>, pid: nat, l: nat) {
    forall j :: l <= j < |trace| ==> trace[j].pid != pid
  }

  ghost predicate Holds(t: Tree, i: nat) {
    exists iv :: iv in Spine(t) && Contains(iv, i)
  }

  /** All the process's lines from the one it has got to are in the intervals still ahead of it. */
  ghost predicate Ahead(env: Env, p: Proc) {
    && OwnRuns(env, p)
    && forall j :: p.currentline <= j + 1 && 0 <= j < |env.trace| && env.trace[j].pid == p.pid ==>
         Holds(p.currInterval, j + 1)
  }

  ghost predicate AllAhead(env: Env, s: State) {
    (forall p :: p in s.runnable ==> Ahead(env, p)) && (forall p :: p in s.blocked ==> Ahead(env, p))
  }

  predicate SamePlace(p: Proc, q: Proc) {
    p.pid == q.pid && p.currInterval == q.currInterval && p.currentline == q.currentline
  }

  lemma {:induction false} AheadAlike(env: Env, p: Proc, q: Proc)
    requires Ahead(env, p) && SamePlace(p, q)
    ensures Ahead(env, q)
  {
  }

  // ---- chains ---------------------------------------------------------------

  lemma {:induction false} ChainAfter(t: Tree, iv: Interval)
    requires Chain(t) && t.Node? && iv in Spine(t)
    ensures t.iv.low <= iv.low
  {
    if iv != t.iv && t.right.Node? { ChainAfter(t.right, iv); }
  }

  /** What is behind the current interval is held by the rest of the chain. */
  lemma {:induction false} HeldBehind(t: Tree, i: nat)
    requires Chain(t) && t.Node? && Holds(t, i) && i > t.iv.high
    ensures t.right.Node? && Holds(t.right, i) && i >= t.right.iv.low
  {
    var iv :| iv in Spine(t) && Contains(iv, i);
    assert iv in Spine(t.right);
    ChainAfter(t.right, iv);
  }

  // ---- one hit --------------------------------------------------------------

  /** The position after a jump is the one the first pass noted for the line jumped to. */
  lemma {:induction false} JumpPosition(env: Env, p: Proc)
    requires OwnRuns(env, p) && p.currInterval.Node? && HasIntervalsRemaining(p)
    ensures var q := JumpToNextInterval(p); q.currentline > 0 && q.currentPos == NotedPos(q.currentline - 1)
  {
    SpineParts(p.currInterval);
    SpineParts(p.currInterval.right);
    assert MaximalRun(env.trace, p.pid, p.currInterval.right.iv);
  }

  lemma {:induction false} JumpAhead(env: Env, p: Proc)
    requires Ahead(env, p) && CursorOk(p) && OnLastLineInInterval(p) && HasIntervalsRemaining(p)
    ensures Ahead(env, JumpToNextInterval(p))
    ensures NextOwn(env.trace, p.pid, p.currentline, JumpToNextInterval(p).currentline)
    ensures JumpToNextInterval(p).currentline > p.currentline + 1
  {
    hide Holds, LastHigh;
    var q, t := JumpToNextInterval(p), p.currInterval;
    SpineParts(t);
    SpineParts(t.right);
    assert MaximalRun(env.trace, p.pid, t.right.iv) && MaximalRun(env.trace, p.pid, t.iv);
    forall j | p.currentline <= j < |env.trace| && env.trace[j].pid == p.pid
      ensures j + 1 >= q.currentline && Holds(t.right, j + 1)
    {
      HeldBehind(t, j + 1);
    }
    assert env.trace[q.currentline - 1].pid == p.pid;
  }

  lemma {:induction false} NextAhead(env: Env, p: Proc)
    requires Ahead(env, p) && CursorOk(p) && HasLinesRemainingInInterval(p)
    ensures Ahead(env, p.(currentline := p.currentline + 1))
    ensures NextOwn(env.trace, p.pid, p.currentline, p.currentline + 1)
  {
    SpineParts(p.currInterval);
    assert MaximalRun(env.trace, p.pid, p.currInterval.iv);
  }

  lemma {:induction false} LastAhead(env: Env, p: Proc)
    requires Ahead(env, p) && CursorOk(p) && !HasLinesRemainingInInterval(p) && !HasIntervalsRemaining(p)
    ensures NoneAfter(env.trace, p.pid, p.currentline)
  {
    hide Holds;
    forall j | p.currentline <= j < |env.trace| ensures env.trace[j].pid != p.pid {
      if env.trace[j].pid == p.pid {
        HeldBehind(p.currInterval, j + 1);
        assert false;
      }
    }
  }

  // ---- every iteration keeps it ---------------------------------------------

  lemma {:induction false} TickedAhead(env: Env, q: seq<Proc>, x: Proc)
    requires (forall p :: p in q ==> Ahead(env, p)) && x in Ticked(q)
    ensures Ahead(env, x)
  {
    hide Ahead, Ticked;
    TickedMember(q, x);
    var y :| y in q && x == y.(waitTime := x.waitTime);
    AheadAlike(env, y, x);
  }

  lemma {:induction false} LoadAhead(env: Env, s: State)
    requires Inv(env, s) && AllAhead(env, s) && EventOf(env, s).Loaded?
    ensures AllAhead(env, Step(env, s))
  {
    hide Inv, Step, EventOf, EnqueuePriority, Ahead;
    LoadShape(env, s);
    var t, p := Step(env, s), s.blocked[0].(waitTime := 0, waitingOnPage := None);
    assert s.blocked[0] in s.blocked;
    AheadAlike(env, s.blocked[0], p);
    forall x | x in t.runnable ensures Ahead(env, x) { EnqueueMembers(p, s.runnable, x); }
    forall x | x in t.blocked ensures x in s.blocked { Members(s.blocked, x); }
  }

  lemma {:induction false} FaultAhead(env: Env, s: State)
    requires Inv(env, s) && AllAhead(env, s) && EventOf(env, s).Faulted?
    ensures AllAhead(env, Step(env, s))
  {
    hide Inv, Step, EventOf, Ahead, Ticked, LineAt;
    FaultShape(env, s);
    var t, h := Step(env, s), s.runnable[0];
    var q := Read(env, s).(waitTime := env.penalty, waitingOnPage := Some(NextPage(env, s)), currentPos := ReadPos(s));
    assert h in s.runnable;
    AheadAlike(env, h, q);
    forall x | x in t.runnable ensures x in s.runnable { Members(s.runnable, x); }
    forall x | x in t.blocked ensures Ahead(env, x) {
      if x in Ticked(s.blocked) { TickedAhead(env, s.blocked, x); }
    }
  }

  lemma {:induction false} OtherAhead(env: Env, s: State)
    requires Inv(env, s) && AllAhead(env, s)
    requires EventOf(env, s).Idle? || EventOf(env, s).Skipped? || EventOf(env, s).Stuck?
    ensures AllAhead(env, Step(env, s))
  {
    hide Inv, Step, EventOf, Ahead, Ticked;
    StepEffect(env, s);
    var t := Step(env, s);
    if EventOf(env, s).Skipped? {
      var h := s.blocked[0].(waitTime := 1);
      assert s.blocked[0] in s.blocked;
      AheadAlike(env, s.blocked[0], h);
      forall x | x in t.blocked ensures Ahead(env, x) { ReplaceHead(s.blocked, h, x); Members(s.blocked, x); }
    } else if EventOf(env, s).Stuck? {
      forall x | x in t.blocked ensures Ahead(env, x) { TickedAhead(env, s.blocked, x); }
    }
  }

  lemma {:induction false} HeadStands(env: Env, s: State)
    requires Inv(env, s) && s.runnable != []
    ensures s.runnable[0] in s.runnable && CursorOk(s.runnable[0])
  {
    hide MemoryInv, LinesInv, Waiting;
    HeadsOk(env, s);
  }

  /** What a hit does to the head's place among its own lines. */
  ghost predicate OnToNext(env: Env, s: State, t: State)
    requires s.runnable != []
  {
    var h := s.runnable[0];
    && (NoneAfter(env.trace, h.pid, h.currentline) ==> t.runnable == s.runnable[1..] && t.current == None)
    && forall m: nat :: NextOwn(env.trace, h.pid, h.currentline, m) ==>
         && t.current == Some(h.pid)
         && exists q :: q in t.runnable && q.pid == h.pid && q.currentline == m &&
              if m == h.currentline + 1 then q.currentPos == h.currentPos
              else q.currentPos == NotedPos(m - 1) && t.cursor == NotedPos(m - 1)
  }

  lemma {:induction false} OnlyNext(trace: seq<Line>, pid: nat, l: nat, m: nat)
    requires NextOwn(trace, pid, l, m)
    ensures !NoneAfter(trace, pid, l) && forall k :: NextOwn(trace, pid, l, k) ==> k == m
  {
  }

  lemma {:induction false} JumpedNext(env: Env, s: State)
    requires Inv(env, s) && AllAhead(env, s) && EventOf(env, s).Touched?
    requires s.runnable != [] && s.runnable[0].currInterval.Node?
    requires OnLastLineInInterval(s.runnable[0]) && HasIntervalsRemaining(s.runnable[0])
    ensures OnToNext(env, s, Step(env, s)) && AllAhead(env, Step(env, s))
  {
    hide Inv, Step, EventOf, Ahead, Ticked, EnqueuePriority, NextOwn, NoneAfter, CursorOk, OwnRuns, LineAt;
    TouchShape(env, s);
    HeadStands(env, s);
    var t, p, h := Step(env, s), s.runnable[0], Read(env, s);
    AheadAlike(env, p, h);
    CursorAlike(p, h);
    var q := JumpToNextInterval(h);
    JumpAhead(env, h);
    RunsOf(env, h);
    JumpPosition(env, h);
    OnlyNext(env.trace, p.pid, p.currentline, q.currentline);
    EnqueueMembers(q, s.runnable[1..], q);
    forall x | x in t.runnable ensures Ahead(env, x) {
      EnqueueMembers(q, s.runnable[1..], x);
      Members(s.runnable, x);
    }
    forall x | x in t.blocked ensures Ahead(env, x) { TickedAhead(env, s.blocked, x); }
  }

  lemma {:induction false} CursorAlike(p: Proc, h: Proc)
    requires CursorOk(p) && h == p.(pageTable := h.pageTable)
    ensures CursorOk(h)
  {
  }

  lemma {:induction false} RunsOf(env: Env, p: Proc)
    requires Ahead(env, p)
    ensures OwnRuns(env, p)
  {
  }

  lemma {:induction false} SteppedNext(env: Env, s: State)
    requires Inv(env, s) && AllAhead(env, s) && EventOf(env, s).Touched?
    requires s.runnable != [] && s.runnable[0].currInterval.Node?
    requires !(OnLastLineInInterval(s.runnable[0]) && HasIntervalsRemaining(s.runnable[0]))
    ensures OnToNext(env, s, Step(env, s)) && AllAhead(env, Step(env, s))
  {
    hide Inv, Step, EventOf, Ahead, Ticked, EnqueuePriority, NextOwn, NoneAfter, CursorOk, OwnRuns, LineAt;
    TouchShape(env, s);
    HeadStands(env, s);
    var t, p, h := Step(env, s), s.runnable[0], Read(env, s);
    AheadAlike(env, p, h);
    CursorAlike(p, h);
    forall x | x in s.runnable[1..] ensures Ahead(env, x) { Members(s.runnable, x); }
    forall x | x in t.blocked ensures Ahead(env, x) { TickedAhead(env, s.blocked, x); }
    if HasLinesRemainingInInterval(h) {
      NextAhead(env, h);
      OnlyNext(env.trace, p.pid, p.currentline, p.currentline + 1);
      assert t.runnable[0] in t.runnable;
    } else {
      StandsLast(h);
      LastAhead(env, h);
      NobodyNext(env.trace, p.pid, p.currentline);
    }
  }

  lemma {:induction false} StandsLast(p: Proc)
    requires CursorOk(p) && !HasLinesRemainingInInterval(p)
    ensures OnLastLineInInterval(p)
  {
  }

  lemma {:induction false} NobodyNext(trace: seq<Line>, pid: nat, l: nat)
    requires NoneAfter(trace, pid, l)
    ensures forall m :: !NextOwn(trace, pid, l, m)
  {
  }

  lemma {:induction false} StepAhead(env: Env, s: State)
    requires Inv(env, s) && AllAhead(env, s)
    ensures AllAhead(env, Step(env, s))
    ensures EventOf(env, s).Touched? ==> s.runnable != [] && OnToNext(env, s, Step(env, s))
  {
    hide Inv, Step, EventOf, AllAhead, OnToNext;
    match EventOf(env, s)
    case Loaded(_) => LoadAhead(env, s);
    case Faulted(_) => FaultAhead(env, s);
    case Touched(_) =>
      TouchShape(env, s);
      if OnLastLineInInterval(s.runnable[0]) && HasIntervalsRemaining(s.runnable[0]) {
        JumpedNext(env, s);
      } else {
        SteppedNext(env, s);
      }
    case _ => OtherAhead(env, s);
  }

  // ---- whole runs -----------------------------------------------------------

  lemma {:induction false} FreshAhead(trace: seq<Line>, env: Env, p: Proc)
    requires trace == env.trace && p in Parse(trace, |trace|)
    ensures Ahead(env, p)
  {
    hide CursorOk;
    var procs := Parse(trace, |trace|);
    ParseCorrect(trace, |trace|);
    assert Fresh(trace, p);
    forall j | p.currentline <= j + 1 && 0 <= j < |trace| && trace[j].pid == p.pid
      ensures Holds(p.currInterval, j + 1)
    {
      assert Covered(trace, procs, j + 1);
      var o, iv :| o in procs && o.pid == trace[j].pid && iv in Spine(o.lineIntervals) && Contains(iv, j + 1);
      assert o == p;
    }
  }

  lemma {:induction false} AheadInRun(env: Env, policy: Policy, n: nat)
    requires Start(env, policy)
    ensures AllAhead(env, Run(env, Begin(env, policy), n))
  {
    hide Inv, Step, EventOf, Ahead, OnToNext, Parse;
    var b := Begin(env, policy);
    if n == 0 {
      BeginsWith(env, policy);
      forall p | p in b.runnable ensures Ahead(env, p) { FreshAhead(env.trace, env, p); }
    } else {
      AheadInRun(env, policy, n - 1);
      StepAhead(env, Run(env, b, n - 1));
    }
  }

  lemma {:induction false} BeginsWith(env: Env, policy: Policy)
    requires Start(env, policy)
    ensures Begin(env, policy).runnable == Parse(env.trace, |env.trace|) && Begin(env, policy).blocked == []
  {
  }

  /** In every run, however pages are delivered and whatever lines have been read for it, a hit
      takes the process to the next line of the trace with its pid, at the position it has
      kept or, past lines of others, at the one noted for that line; after its last line it ends. */
  lemma {:induction false} LinesInOrder(env: Env, policy: Policy, n: nat)
    requires Start(env, policy)
    ensures var s := Run(env, Begin(env, policy), n);
      EventOf(env, s).Touched? ==> s.runnable != [] && OnToNext(env, s, Step(env, s))
  {
    hide Inv, Step, EventOf, AllAhead, OnToNext, Start, Begin, Run;
    AheadInRun(env, policy, n);
    StepAhead(env, Run(env, Begin(env, policy), n));
  }

  // ---- the interval tree of a process ---------------------------------------

  lemma {:induction false} TreesValid(trace: seq<Line>, n: nat)
    requires n <= |trace|
    ensures forall p :: p in Parse(trace, n) ==> Valid(p.lineIntervals)
  {
    hide Valid, Insert;
    if n > 0 {
      var s := RunStart(trace, n - 1);
      var pid, iv, procs := trace[n - 1].pid, RunBefore(trace, n), Parse(trace, s);
      TreesValid(trace, s);
      AloneValid(iv);
      var k := IndexOfPid(procs, pid);
      if k < |procs| { InsertCorrect(procs[k].lineIntervals, iv); }
    }
  }

  lemma {:induction false} SpineIsAll(t: Tree, iv: Interval)
    requires Chain(t)
    ensures iv in Intervals(t) <==> iv in Spine(t)
  {
    if t.Node? { SpineIsAll(t.right, iv); }
  }

  /** A search in the tree the first pass has built for a process finds exactly its own lines. */
  lemma {:induction false} TreeFindsOwnLines(trace: seq<Line>, p: Proc, j: nat)
    requires p in Parse(trace, |trace|) && j < |trace|
    ensures FindBool(p.lineIntervals, j + 1) <==> trace[j].pid == p.pid
  {
    hide CursorOk, Valid, Parse, FindBool, Intervals, Find;
    TreesValid(trace, |trace|);
    ParseCorrect(trace, |trace|);
    assert Fresh(trace, p);
    ChainOf(trace, p);
    FindCorrect(p.lineIntervals, j + 1);
    forall iv ensures iv in Intervals(p.lineIntervals) <==> iv in Spine(p.lineIntervals) {
      SpineIsAll(p.lineIntervals, iv);
    }
    if trace[j].pid == p.pid {
      FreshAhead(trace, Env(trace, 0, 0), p);
      assert Holds(p.lineIntervals, j + 1);
    } else {
      forall iv | iv in Spine(p.lineIntervals) ensures !Contains(iv, j + 1) {
        assert MaximalRun(trace, p.pid, iv);
      }
    }
  }

  lemma {:induction false} ChainOf(trace: seq<Line>, p: Proc)
    requires Fresh(trace, p)
    ensures Chain(p.lineIntervals)
  {
  }
}
