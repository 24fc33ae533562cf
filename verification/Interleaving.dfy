/** The processes share one position in the trace file, and a disk completion moves it even
    when the resumed process is not the one that runs next.  For every penalty of two ticks
    or more there is a well-formed trace of two processes on which the program reads past the
    end of the file and gives up. */
module Interleaving {
  import opened Types
  import opened IntervalTree
  import opened Replacement
  import opened ProcessModel
  import opened TraceModel
  import opened Machine
  import opened Runs
  import opened Accounting

  /** D + 1 lines of process 1, then one of process 2, all of page 0. */
  function Overtaken(d: nat): seq<Line> {
    seq(d + 2, i => Line(if i <= d then 1 else 2, 0))
  }

  ghost predicate Setting(env: Env, policy: Policy) {
    Start(env, policy) && env.penalty >= 2 && env.size >= 2 && env.trace == Overtaken(env.penalty)
  }

  lemma {:induction false} RunStarts(d: nat, i: nat)
    requires i <= d
    ensures RunStart(Overtaken(d), i) == 0
  {
    if i > 0 { RunStarts(d, i - 1); }
  }

  lemma {:induction false} OvertakenParse(d: nat)
    ensures Parse(Overtaken(d), d + 2) ==
      [InitProc(1, Interval(1, d + 1, NotedPos(0))), InitProc(2, Interval(d + 2, d + 2, NotedPos(d + 1)))]
  {
    var t := Overtaken(d);
    var one := Interval(1, d + 1, NotedPos(0));
    var two := Interval(d + 2, d + 2, NotedPos(d + 1));
    RunStarts(d, d);
    assert RunBefore(t, d + 1) == one && t[d].pid == 1;
    assert Parse(t, 0) == [] && IndexOfPid([], 1) == 0;
    assert Parse(t, d + 1) == AddRun([], 1, one) == [InitProc(1, one)];
    assert RunStart(t, d + 1) == d + 1;
    assert RunBefore(t, d + 2) == two && t[d + 1].pid == 2;
    var q := [InitProc(1, one)];
    assert q[0].pid == 1 && q[1..] == [] && IndexOfPid(q[1..], 2) == 0;
    assert IndexOfPid(q, 2) == 1 + IndexOfPid(q[1..], 2) == 1;
    assert AddRun(q, 2, two) == q + [InitProc(2, two)];
  }

  /** Process 1 stands at its line `k` (from 0); its page is resident. */
  ghost predicate First(env: Env, p: Proc, k: nat) {
    && p.pid == 1 && p.currentPos == 0 && p.currentline == k + 1
    && p.currInterval.Node? && p.currInterval.right.Nil? && p.currInterval.iv.high == env.penalty + 1
  }

  ghost predicate Second(env: Env, p: Proc) {
    p.pid == 2 && p.currentPos == NotedPos(env.penalty + 1)
  }

  /** Process 1 has run `k` lines, process 2 waits for the disk. */
  ghost predicate Running(env: Env, s: State, k: nat) {
    && !s.aborted && |s.runnable| == 1 && |s.blocked| == 1
    && First(env, s.runnable[0], k) && Second(env, s.blocked[0])
    && s.blocked[0].waitTime == env.penalty - k && k < env.penalty
    && LineAt(ReadPos(s)) == k && (k > 0 ==> s.current == Some(1))
    && Resident(s.frames, Page(1, 0)) && HasFree(s.frames)
  }

  /** Process 2 has its page; process 1 goes on, but at process 2's position. */
  ghost predicate Misled(env: Env, s: State) {
    && !s.aborted && |s.runnable| == 2 && s.blocked == []
    && env.penalty > 0 && First(env, s.runnable[0], env.penalty - 1)
    && s.current == Some(1) && LineAt(s.cursor) == env.penalty + 1
    && Resident(s.frames, Page(1, 0))
  }

  /** Process 1 has run one line too few, and the file is at its end. */
  ghost predicate AtEnd(env: Env, s: State) {
    && !s.aborted && s.runnable != [] && s.blocked == []
    && s.runnable[0].pid == 1 && s.current == Some(1) && LineAt(s.cursor) == |env.trace|
    && s.tmr < |env.trace|
  }

  lemma {:induction false} NextHit(env: Env, s: State, k: nat)
    requires Inv(env, s) && env.trace == Overtaken(env.penalty)
    requires Running(env, s, k) && k + 1 < env.penalty
    ensures Running(env, Step(env, s), k + 1)
  {
    hide Inv, MemOk, Allocated, Clear, Forget, EnqueuePriority;
    assert env.trace[k].vpn == 0;
  }

  lemma {:induction false} MovesCursor(env: Env, s: State)
    requires Inv(env, s) && env.trace == Overtaken(env.penalty) && env.penalty >= 2
    requires Running(env, s, env.penalty - 1)
    ensures Misled(env, Step(env, s))
  {
    HeadsOk(env, s);
    LoadKeepsMemOk(s.frames, s.policy, s.blocked[0].waitingOnPage.value);
    hide Inv, MemOk, Allocated, LoadPage;
    var p := s.blocked[0].(waitTime := 0, waitingOnPage := None);
    assert InsertionPoint(s.runnable[1..], p.currentPos) == 0;
    assert InsertionPoint(s.runnable, p.currentPos) == 1;
    assert EnqueuePriority(p, s.runnable) == [s.runnable[0], p];
  }

  lemma {:induction false} WrongLine(env: Env, s: State)
    requires Inv(env, s) && env.trace == Overtaken(env.penalty) && env.penalty >= 2 && Misled(env, s)
    ensures AtEnd(env, Step(env, s))
  {
    hide MemOk, Allocated, Clear, Forget, EnqueuePriority, QueueInv, MemoryInv;
    assert env.trace[env.penalty + 1].vpn == 0;
  }

  lemma {:induction false} GivesUp(env: Env, s: State)
    requires Inv(env, s) && AtEnd(env, s)
    ensures Step(env, s).aborted
  {
    hide Inv, MemOk;
  }

  // ---- the opening: both processes miss, process 1 gets its page -------------

  ghost predicate Opened(env: Env, s: State) {
    && !s.aborted && |s.runnable| == 2 && s.blocked == [] && s.current == Some(1) && s.cursor == 0
    && First(env, s.runnable[0], 0) && Second(env, s.runnable[1])
    && s.frames == EmptyFrames(env.size)
  }

  ghost predicate OneBlocked(env: Env, s: State) {
    && !s.aborted && |s.runnable| == 1 && |s.blocked| == 1 && s.current == Some(1)
    && First(env, s.blocked[0], 0) && Second(env, s.runnable[0])
    && s.blocked[0].waitTime == env.penalty && s.frames == EmptyFrames(env.size)
  }

  ghost predicate BothBlocked(env: Env, s: State, w: nat) {
    && !s.aborted && s.runnable == [] && |s.blocked| == 2 && s.current == Some(2)
    && First(env, s.blocked[0], 0) && Second(env, s.blocked[1])
    && s.blocked[0].waitTime == w && s.blocked[1].waitTime == env.penalty && s.frames == EmptyFrames(env.size)
  }

  lemma {:induction false} AtOpening(env: Env, policy: Policy)
    requires Setting(env, policy)
    ensures Opened(env, Begin(env, policy))
  {
    hide MemOk, Inv;
    OvertakenParse(env.penalty);
  }

  lemma {:induction false} FirstMiss(env: Env, s: State)
    requires Inv(env, s) && env.trace == Overtaken(env.penalty) && Opened(env, s)
    ensures OneBlocked(env, Step(env, s))
  {
    hide Inv, MemOk, Allocated;
    assert env.trace[0].vpn == 0;
  }

  lemma {:induction false} SecondMiss(env: Env, s: State)
    requires Inv(env, s) && env.trace == Overtaken(env.penalty) && env.penalty >= 2 && OneBlocked(env, s)
    ensures BothBlocked(env, Step(env, s), env.penalty - 1)
  {
    hide Inv, MemOk, Allocated;
    assert env.trace[env.penalty + 1].vpn == 0;
  }

  lemma {:induction false} Jump(env: Env, s: State)
    requires Inv(env, s) && env.penalty >= 3 && BothBlocked(env, s, env.penalty - 1)
    ensures BothBlocked(env, Step(env, s), 1)
  {
    hide Inv, MemOk, Allocated;
  }

  lemma {:induction false} FirstLoad(env: Env, s: State)
    requires Inv(env, s) && env.trace == Overtaken(env.penalty) && env.penalty >= 2 && env.size >= 2
          && BothBlocked(env, s, 1)
    ensures Running(env, Step(env, s), 0)
  {
    HeadsOk(env, s);
    LoadKeepsMemOk(s.frames, s.policy, s.blocked[0].waitingOnPage.value);
    NothingAllocated(env.size);
    hide Inv, MemOk, Allocated, LoadPage, EmptyFrames;
    var p := s.blocked[0].(waitTime := 0, waitingOnPage := None);
    assert EnqueuePriority(p, []) == [p];
  }

  /** Iterations until process 1 has its page: a jump among them if there is time for one. */
  function Lead(d: nat): nat { if d == 2 then 3 else 4 }

  lemma {:induction false} Opening(env: Env, policy: Policy)
    requires Setting(env, policy)
    ensures Running(env, Run(env, Begin(env, policy), Lead(env.penalty)), 0)
  {
    hide Inv, Step, Begin, Start, Opened, OneBlocked, BothBlocked, Running, Overtaken;
    AtOpening(env, policy);
    var b := Begin(env, policy);
    assert Run(env, b, 0) == b;
    FirstMiss(env, Run(env, b, 0));
    SecondMiss(env, Run(env, b, 1));
    if env.penalty > 2 { Jump(env, Run(env, b, 2)); }
    FirstLoad(env, Run(env, b, Lead(env.penalty) - 1));
  }

  lemma {:induction false} HitsGoOn(env: Env, policy: Policy, k: nat)
    requires Setting(env, policy) && k < env.penalty
    ensures Running(env, Run(env, Begin(env, policy), Lead(env.penalty) + k), k)
  {
    hide Inv, Step, Begin, Start, Running, Overtaken;
    if k == 0 {
      Opening(env, policy);
    } else {
      HitsGoOn(env, policy, k - 1);
      NextHit(env, Run(env, Begin(env, policy), Lead(env.penalty) + k - 1), k - 1);
    }
  }

  /** For every penalty of at least 2 ticks (2000000 in the program), every policy and every
      memory of at least two frames there is a well-formed trace of two processes that the
      program does not simulate to the end: it reads past the last line and gives up with
      lines of the trace not yet run. */
  lemma {:induction false} InterleavedTraceAborts(env: Env, policy: Policy)
    requires Setting(env, policy)
    ensures var s := Run(env, Begin(env, policy), Lead(env.penalty) + env.penalty + 2); s.aborted && s.tmr < |env.trace|
    ensures forall i :: 0 <= i < |env.trace| ==> env.trace[i].pid != 0
  {
    hide Inv, Step, Begin, Start, Running, Misled;
    var b, d := Begin(env, policy), env.penalty;
    var n := Lead(d) + d - 1;
    HitsGoOn(env, policy, d - 1);
    MovesCursor(env, Run(env, b, n));
    WrongLine(env, Run(env, b, n + 1));
    GivesUp(env, Run(env, b, n + 2));
    StepEffect(env, Run(env, b, n + 2));
  }
}
