/** Runs of the loop, and what each kind of iteration does to the clock, the counters
    and the disk queue. */
module Runs {
  import opened Types
  import opened Replacement
  import opened ProcessModel
  import opened Machine
  import opened MachineInvariant

  /** The state after `n` iterations. */
  function Run(env: Env, s: State, n: nat): (r: State)
    requires Inv(env, s)
    ensures Inv(env, r)
  {
    if n == 0 then s
    else
      var t := Run(env, s, n - 1);
      StepKeepsInv(env, t);
      Step(env, t)
  }

  lemma {:induction false} RunAdd(env: Env, s: State, m: nat, n: nat)
    requires Inv(env, s)
    ensures Run(env, s, m + n) == Run(env, Run(env, s, m), n)
  {
    hide Inv, Step;
    if n > 0 { RunAdd(env, s, m, n - 1); }
  }

  lemma {:induction false} RunKeepsPids(env: Env, s: State, n: nat)
    requires Inv(env, s)
    ensures AllPids(Run(env, s, n)) == AllPids(s)
  {
    hide Inv, Step, AllPids;
    if n > 0 {
      RunKeepsPids(env, s, n - 1);
      StepKeepsInv(env, Run(env, s, n - 1));
    }
  }

  lemma {:induction false} RunStaysHalted(env: Env, s: State, n: nat)
    requires Inv(env, s) && Halted(s)
    ensures Run(env, s, n) == s
  {
    hide Inv, MemOk;
    if n > 0 { RunStaysHalted(env, s, n - 1); }
  }

  /** Ticks left on the head of the disk queue; `idle` when nothing is queued. */
  function HeadWait(s: State, idle: nat): nat {
    if s.blocked == [] then idle else s.blocked[0].waitTime
  }

  lemma {:induction false} HitEffect(env: Env, u: State, pg: Page)
    requires u.runnable != [] && u.runnable[0].currInterval.Node? && Resident(u.frames, pg)
    ensures var m := Hit(u, pg);
      && m.blocked == u.blocked && m.time == u.time && m.tmr == u.tmr + 1 && m.tpi == u.tpi
      && m.aborted == u.aborted && |m.runnable| <= |u.runnable|
  {
  }

  ghost predicate Effect(env: Env, s: State, e: Event, t: State) {
    var w := HeadWait(s, 0);
    match e
    case Idle => t == s && Halted(s)
    case Loaded(pg) =>
      && !s.aborted && !t.aborted && w == 1
      && t.time == s.time + 1 && t.tmr == s.tmr && t.tpi == s.tpi
      && s.blocked != [] && t.blocked == s.blocked[1..] && |t.runnable| == |s.runnable| + 1
      && s.blocked[0].waitingOnPage == Some(pg) && Resident(t.frames, pg)
    case Skipped =>
      && !s.aborted && !t.aborted && s.runnable == [] && s.blocked != [] && w > 1
      && t == s.(time := s.time + w - 1, tmu := s.tmu + Allocated(s.frames) * (w - 1),
                 blocked := s.blocked[0 := s.blocked[0].(waitTime := 1)])
    case Touched(pg) =>
      && !s.aborted && !t.aborted && s.runnable != [] && w != 1
      && t.time == s.time + 1 && t.tmr == s.tmr + 1 && t.tpi == s.tpi
      && t.blocked == Ticked(s.blocked) && |t.runnable| <= |s.runnable|
    case Faulted(pg) =>
      && !s.aborted && !t.aborted && s.runnable != [] && w != 1
      && t.time == s.time + 1 && t.tmr == s.tmr && t.tpi == s.tpi + 1
      && t.runnable == s.runnable[1..] && t.frames == s.frames && t.current == Some(s.runnable[0].pid)
      && |t.blocked| == |s.blocked| + 1 && t.blocked[..|s.blocked|] == Ticked(s.blocked)
      && t.blocked[|s.blocked|].waitTime == env.penalty
      && t.blocked[|s.blocked|].pid == s.runnable[0].pid
    case Stuck =>
      && !s.aborted && t.aborted && s.runnable != [] && w != 1
      && t.time == s.time + 1 && t.tmr == s.tmr && t.tpi == s.tpi
      && t.blocked == Ticked(s.blocked) && t.runnable == s.runnable
  }

  /** The disk queue after one tick. */
  function Ticked(q: seq<Proc>): seq<Proc> {
    if q == [] || q[0].waitTime == 0 then q else q[0 := q[0].(waitTime := q[0].waitTime - 1)]
  }

  lemma {:induction false} SkipArithmetic(a: nat, w: nat)
    requires w > 1
    ensures a + a * (w - 2) == a * (w - 1)
  {
  }

  lemma {:induction false} SkipEffect(env: Env, s: State)
    requires Inv(env, s) && EventOf(env, s).Skipped?
    ensures Effect(env, s, Skipped, Step(env, s))
  {
    hide MemoryInv, QueueInv, LinesInv, Allocated, Execute;
    HeadsOk(env, s);
    SkipArithmetic(Allocated(s.frames), s.blocked[0].waitTime);
  }

  lemma {:induction false} LoadEffect(env: Env, s: State)
    requires Inv(env, s) && EventOf(env, s).Loaded?
    ensures Effect(env, s, EventOf(env, s), Step(env, s))
  {
    hide QueueInv, LinesInv, MemOk, LoadPage, Allocated;
    HeadsOk(env, s);
    LoadKeepsMemOk(s.frames, s.policy, s.blocked[0].waitingOnPage.value);
  }

  lemma {:induction false} FetchEffect(env: Env, t: State)
    requires t.runnable != [] && CanRead(env, t)
    ensures var u := Fetch(env, t);
      && u == t.(current := u.current, cursor := u.cursor, runnable := u.runnable)
      && u.current == Some(t.runnable[0].pid)
      && |u.runnable| == |t.runnable| && u.runnable[1..] == t.runnable[1..]
      && u.runnable[0] == t.runnable[0].(pageTable := u.runnable[0].pageTable)
  {
  }

  lemma {:induction false} MissEffect(env: Env, u: State, pg: Page, pos: nat)
    requires u.runnable != []
    ensures var m := Miss(env, u, pg, pos);
      && m.time == u.time && m.tmr == u.tmr && m.tpi == u.tpi + 1 && m.aborted == u.aborted
      && m.runnable == u.runnable[1..] && m.frames == u.frames && m.current == u.current
      && |m.blocked| == |u.blocked| + 1 && m.blocked[..|u.blocked|] == u.blocked
      && m.blocked[|u.blocked|].waitTime == env.penalty
      && m.blocked[|u.blocked|].pid == u.runnable[0].pid
  {
  }

  /** The iterations that get as far as reading a reference. */
  lemma {:induction false} RunsHead(env: Env, s: State)
    requires Inv(env, s) && (EventOf(env, s).Touched? || EventOf(env, s).Faulted?)
    ensures !s.aborted && s.runnable != [] && HeadWait(s, 0) != 1 && CanRead(env, s)
    ensures s.runnable[0].currInterval.Node?
    ensures s.blocked != [] ==> s.blocked[0].waitTime > 0
    ensures Tick(s).blocked == Ticked(s.blocked) && Tick(s).runnable == s.runnable && Tick(s).frames == s.frames
    ensures var pg := NextPage(env, s);
      EventOf(env, s) == if Resident(s.frames, pg) then Touched(pg) else Faulted(pg)
    ensures var u, pg := Fetch(env, Tick(s)), NextPage(env, s);
      Step(env, s) == if Resident(s.frames, pg) then Hit(u, pg) else Miss(env, u, pg, ReadPos(s))
  {
    hide MemOk, QueueInv, LinesInv, MemoryInv, Hit, Miss, Fetch, Resident, Allocated, Complete, FastForward;
    HeadsOk(env, s);
  }

  lemma {:induction false} TouchEffect(env: Env, s: State)
    requires Inv(env, s) && EventOf(env, s).Touched?
    ensures Effect(env, s, EventOf(env, s), Step(env, s))
  {
    hide Inv, Step, EventOf, Fetch, Hit, NextPage;
    RunsHead(env, s);
    var u := Fetch(env, Tick(s));
    FetchEffect(env, Tick(s));
    HitEffect(env, u, NextPage(env, s));
  }

  lemma {:induction false} FaultEffect(env: Env, s: State)
    requires Inv(env, s) && EventOf(env, s).Faulted?
    ensures Effect(env, s, EventOf(env, s), Step(env, s))
  {
    hide Inv, Step, EventOf, Fetch, Miss, NextPage;
    RunsHead(env, s);
    var u := Fetch(env, Tick(s));
    FetchEffect(env, Tick(s));
    MissEffect(env, u, NextPage(env, s), ReadPos(s));
  }

  lemma {:induction false} StuckEffect(env: Env, s: State)
    requires Inv(env, s) && EventOf(env, s).Stuck?
    ensures Effect(env, s, EventOf(env, s), Step(env, s))
  {
    hide MemoryInv, QueueInv, LinesInv, Allocated, Complete, FastForward;
    HeadsOk(env, s);
    assert Tick(s).blocked == Ticked(s.blocked);
  }

  /** What one iteration does to the clock, the counters and the disk queue, by kind of event. */
  lemma {:induction false} StepEffect(env: Env, s: State)
    requires Inv(env, s)
    ensures Effect(env, s, EventOf(env, s), Step(env, s))
  {
    match EventOf(env, s)
    case Idle => hide Inv;
    case Loaded(_) => hide Inv, Step, Effect; LoadEffect(env, s);
    case Touched(_) => hide Inv, Step, Effect; TouchEffect(env, s);
    case Skipped => hide Inv, Step, Effect; SkipEffect(env, s);
    case Faulted(_) => hide Inv, Step, Effect; FaultEffect(env, s);
    case Stuck => hide Inv, Step, Effect; StuckEffect(env, s);
  }

  // ---- counting along a run -------------------------------------------------

  /** How many disk loads the first `n` iterations complete. */
  ghost function Completions(env: Env, s: State, n: nat): nat
    requires Inv(env, s)
  {
    if n == 0 then 0
    else Completions(env, s, n - 1) + if EventOf(env, Run(env, s, n - 1)).Loaded? then 1 else 0
  }

  /** How many of the first `n` iterations of the loop start with an empty disk queue. */
  ghost function FreeTicks(env: Env, s: State, n: nat): nat
    requires Inv(env, s)
  {
    if n == 0 then 0
    else
      var t := Run(env, s, n - 1);
      FreeTicks(env, s, n - 1) + if !Halted(t) && t.blocked == [] then 1 else 0
  }
}
