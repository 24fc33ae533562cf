/** Where the simulated time goes: exact conservation laws over every run. */
module Accounting {
  import opened Types
  import opened Replacement
  import opened ProcessModel
  import opened Machine
  import opened MachineInvariant
  import opened Runs

  ghost predicate Start(env: Env, policy: Policy) {
    env.size > 0 && env.penalty > 0 && MemOk(EmptyFrames(env.size), policy)
  }

  /** The start of the simulation, for a trace with its first pass done. */
  function Begin(env: Env, policy: Policy): (s: State)
    requires Start(env, policy)
    ensures Inv(env, s)
  {
    InitInv(env, policy);
    Init(env, policy)
  }

  lemma {:induction false} BeginFacts(env: Env, policy: Policy)
    requires Start(env, policy)
    ensures var s := Begin(env, policy);
      && s.time == 0 && s.tmr == 0 && s.tpi == 0 && s.blocked == [] && s.finished == [] && !s.aborted
      && s.frames == EmptyFrames(env.size) && s.policy == policy
      && s.tmu == 0 && s.trp == 0 && s.cursor == 0
      && (s.runnable != [] ==> s.current == Some(s.runnable[0].pid))
  {
  }

  /** Time is disk service plus the ticks that began with an idle disk; every page-in has
      either completed or is still queued. */
  ghost predicate Balanced(env: Env, s: State, loads: nat, free: nat) {
    && s.time + HeadWait(s, env.penalty) == env.penalty * loads + env.penalty + free
    && s.tpi == loads + |s.blocked|
    && free <= s.tmr + s.tpi + (if s.aborted then 1 else 0)
  }

  lemma {:induction false} StepBalanced(env: Env, s: State, e: Event, t: State, loads: nat, free: nat)
    requires Effect(env, s, e, t) && Timers(env, s.blocked) && Balanced(env, s, loads, free)
    ensures Balanced(env, t, loads + (if e.Loaded? then 1 else 0),
                     free + (if !Halted(s) && s.blocked == [] then 1 else 0))
  {
    match e
    case Loaded(_) => assert env.penalty * (loads + 1) == env.penalty * loads + env.penalty;
    case Faulted(_) => if s.blocked != [] { assert t.blocked[0] == t.blocked[..|s.blocked|][0]; }
    case _ =>
  }

  lemma {:induction false} BalancedFrom(env: Env, s: State, n: nat)
    requires Inv(env, s) && Balanced(env, s, 0, 0)
    ensures Balanced(env, Run(env, s, n), Completions(env, s, n), FreeTicks(env, s, n))
  {
    hide Inv, Step, EventOf, Effect, Balanced, Timers;
    if n > 0 {
      var t := Run(env, s, n - 1);
      BalancedFrom(env, s, n - 1);
      StepEffect(env, t);
      TimersOf(env, t);
      StepBalanced(env, t, EventOf(env, t), Step(env, t), Completions(env, s, n - 1), FreeTicks(env, s, n - 1));
    }
  }

  /** In every reachable state the elapsed time is exactly: the penalty for each completed
      load, the part of the penalty already served to the head of the disk queue, and one
      tick for each iteration that began with the disk idle. */
  lemma {:induction false} TimeConservation(env: Env, policy: Policy, n: nat)
    requires Start(env, policy)
    ensures var b := Begin(env, policy); Balanced(env, Run(env, b, n), Completions(env, b, n), FreeTicks(env, b, n))
  {
    BeginFacts(env, policy);
    hide Inv, Begin;
    BalancedFrom(env, Begin(env, policy), n);
  }

  // ---- the averages ---------------------------------------------------------

  /** Each iteration charges the frames in use for the ticks it takes, and one tick to the
      runnable queue if it found a process there. */
  ghost predicate Charged(s: State, e: Event, t: State) {
    && t.time >= s.time
    && t.tmu == s.tmu + Allocated(s.frames) * (t.time - s.time)
    && t.trp == s.trp + (if e.Idle? || s.runnable == [] then 0 else 1)
  }

  lemma {:induction false} AdvanceKeepsCharges(u: State)
    requires u.runnable != [] && u.runnable[0].currInterval.Node?
    ensures Advance(u).tmu == u.tmu && Advance(u).trp == u.trp && Advance(u).time == u.time
  {
  }

  lemma {:induction false} ReferenceCharges(env: Env, s: State)
    requires Inv(env, s) && (EventOf(env, s).Touched? || EventOf(env, s).Faulted?)
    ensures Charged(s, EventOf(env, s), Step(env, s))
  {
    hide MemoryInv, QueueInv, LinesInv, MemOk, Allocated, Resident, Advance, NotifyAccess, Complete, FastForward, Owns;
    RunsHead(env, s);
    if EventOf(env, s).Touched? {
      var u, pg := Fetch(env, Tick(s)), NextPage(env, s);
      AdvanceKeepsCharges(u.(tmr := u.tmr + 1, policy := NotifyAccess(u.policy, pg, FrameOf(u.frames, pg))));
    }
  }

  lemma {:induction false} CompleteKeepsCharges(t: State)
    requires MemOk(t.frames, t.policy) && t.blocked != [] && t.blocked[0].waitingOnPage.Some?
    ensures Complete(t).tmu == t.tmu && Complete(t).trp == t.trp && Complete(t).time == t.time
  {
    hide MemOk, LoadPage;
  }

  lemma {:induction false} LoadCharges(env: Env, s: State)
    requires Inv(env, s) && (EventOf(env, s).Loaded? || EventOf(env, s).Stuck?)
    ensures Charged(s, EventOf(env, s), Step(env, s))
  {
    hide QueueInv, LinesInv, MemOk, Allocated, Owns, Hit, Miss, Fetch, Complete, FastForward, Waiting;
    HeadsOk(env, s);
    AwaitsPage(env, s);
    if EventOf(env, s).Loaded? { CompleteKeepsCharges(Tick(s)); }
  }

  lemma {:induction false} AwaitsPage(env: Env, s: State)
    requires Inv(env, s)
    ensures s.blocked != [] ==> s.blocked[0].waitingOnPage.Some?
  {
    HeadsOk(env, s);
  }

  lemma {:induction false} OtherCharges(env: Env, s: State)
    requires Inv(env, s) && (EventOf(env, s).Idle? || EventOf(env, s).Skipped?)
    ensures Charged(s, EventOf(env, s), Step(env, s))
  {
    hide Inv, Step, EventOf, Allocated, Halted;
    StepEffect(env, s);
  }

  lemma {:induction false} StepCharges(env: Env, s: State)
    requires Inv(env, s)
    ensures Charged(s, EventOf(env, s), Step(env, s))
  {
    hide Inv, Step, EventOf, Charged;
    match EventOf(env, s)
    case Touched(_) => ReferenceCharges(env, s);
    case Faulted(_) => ReferenceCharges(env, s);
    case Loaded(_) => LoadCharges(env, s);
    case Stuck => LoadCharges(env, s);
    case _ => OtherCharges(env, s);
  }

  /** Bounds on the accumulators behind the averages. */
  ghost predicate Averages(env: Env, s: State, loads: nat) {
    && s.tmr + s.tpi <= s.trp <= s.tmr + s.tpi + loads + (if s.aborted then 1 else 0)
    && s.tmu <= env.size * s.time
  }

  lemma {:induction false} StepAverages(env: Env, s: State, e: Event, t: State, loads: nat)
    requires Effect(env, s, e, t) && Charged(s, e, t) && Averages(env, s, loads) && |s.frames| == env.size
    ensures Averages(env, t, loads + if e.Loaded? then 1 else 0)
  {
    hide Allocated, Ticked;
    var a, d := Allocated(s.frames), t.time - s.time;
    ChargeAtMost(a, env.size, s.tmu, s.time, d);
  }

  lemma {:induction false} ChargeAtMost(a: nat, size: nat, tmu: nat, time: nat, d: nat)
    requires a <= size && tmu <= size * time
    ensures tmu + a * d <= size * (time + d)
  {
    assert a * d <= size * d;
  }

  lemma {:induction false} FrameCount(env: Env, s: State)
    requires Inv(env, s)
    ensures |s.frames| == env.size
  {
  }

  /** Memory in use never averages above the whole memory, and the ticks charged to the
      runnable queue are the references made, plus at most one for each load. */
  lemma {:induction false} AveragesHold(env: Env, policy: Policy, n: nat)
    requires Start(env, policy)
    ensures var b := Begin(env, policy); Averages(env, Run(env, b, n), Completions(env, b, n))
  {
    hide Inv, Step, EventOf, Effect, Charged, Begin, Start;
    var b := Begin(env, policy);
    if n == 0 {
      NothingCharged(env, policy);
    } else {
      AveragesHold(env, policy, n - 1);
      var s := Run(env, b, n - 1);
      StepEffect(env, s);
      FrameCount(env, s);
      StepCharges(env, s);
      StepAverages(env, s, EventOf(env, s), Step(env, s), Completions(env, b, n - 1));
    }
  }

  lemma {:induction false} NothingCharged(env: Env, policy: Policy)
    requires Start(env, policy)
    ensures Averages(env, Run(env, Begin(env, policy), 0), 0)
  {
    hide MemOk, Inv;
  }

  // ---- at the end -----------------------------------------------------------

  lemma {:induction false} TimersOf(env: Env, s: State)
    requires Inv(env, s)
    ensures Timers(env, s.blocked) && env.penalty > 0
  {
  }

  lemma {:induction false} AllLinesRun(env: Env, s: State)
    requires Inv(env, s) && !NotDone(s)
    ensures s.tmr == |env.trace|
  {
  }

  lemma {:induction false} AllFinished(s: State, b: State)
    requires !NotDone(s) && b.blocked == [] && b.finished == [] && AllPids(s) == AllPids(b)
    ensures multiset(s.finished) == multiset(Pids(b.runnable))
  {
    assert Pids(s.runnable) == [] && Pids(s.blocked) == [] && Pids(b.blocked) == [];
    assert AllPids(s) == multiset(s.finished);
    assert AllPids(b) == multiset(Pids(b.runnable));
  }

  lemma {:induction false} NothingQueued(env: Env, s: State, loads: nat, free: nat)
    requires Balanced(env, s, loads, free) && !NotDone(s) && !s.aborted
    ensures env.penalty * s.tpi <= s.time <= env.penalty * s.tpi + s.tmr + s.tpi
  {
  }

  /** At a normal exit every line of the trace has been run exactly once, every process has
      finished, and the running time is pinned between D * TPI and D * TPI + TMR + TPI. */
  lemma {:induction false} ExitStatistics(env: Env, policy: Policy, n: nat)
    requires Start(env, policy)
    requires var s := Run(env, Begin(env, policy), n); !s.aborted && !NotDone(s)
    ensures var s := Run(env, Begin(env, policy), n);
      && s.tmr == |env.trace|
      && env.penalty * s.tpi <= s.time <= env.penalty * s.tpi + s.tmr + s.tpi
      && multiset(s.finished) == multiset(Pids(Begin(env, policy).runnable))
  {
    BeginFacts(env, policy);
    hide Inv, Begin, Run, AllPids, Balanced, Start, NotDone;
    var b := Begin(env, policy);
    var s := Run(env, b, n);
    TimeConservation(env, policy, n);
    NothingQueued(env, s, Completions(env, b, n), FreeTicks(env, b, n));
    RunKeepsPids(env, b, n);
    AllFinished(s, b);
    AllLinesRun(env, s);
  }
}
