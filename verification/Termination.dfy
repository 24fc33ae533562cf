/** The loop ends.  A page is fetched at most every D ticks, and the process it was
    fetched for runs before another page can push it out, so hits keep happening. */
module Termination {
  import opened Types
  import opened Replacement
  import opened ProcessModel
  import opened Machine
  import opened MachineInvariant
  import opened Runs
  import opened Accounting

  /** The reference the `a`-th runnable process blocked on is now in memory, and that is
      the reference it will read when its turn comes. */
  ghost predicate WillHit(env: Env, s: State, a: nat) {
    && a < |s.runnable|
    && var q := s.runnable[a];
       && LineAt(q.currentPos) < |env.trace|
       && Resident(s.frames, Page(q.pid, env.trace[LineAt(q.currentPos)].vpn))
       && (s.current == Some(q.pid) ==> s.cursor == q.currentPos)
  }

  /** Its turn comes before the next disk load completes, even if everyone ahead blocks. */
  ghost predicate InTime(env: Env, s: State, a: nat) {
    if s.blocked == [] then a < env.penalty else a + 1 < s.blocked[0].waitTime
  }

  ghost predicate Promised(env: Env, s: State) {
    exists a: nat :: WillHit(env, s, a) && InTime(env, s, a)
  }

  /** A promised hit comes before anything else is loaded. */
  lemma {:induction false} PromiseKept(env: Env, s: State)
    requires Inv(env, s) && !s.aborted && Promised(env, s)
    ensures var e := EventOf(env, s);
      e.Touched? || e.Stuck? || (e.Faulted? && Promised(env, Step(env, s)))
  {
    var a: nat :| WillHit(env, s, a) && InTime(env, s, a);
    HeadsOk(env, s);
    StepEffect(env, s);
    if EventOf(env, s).Faulted? {
      var t := Step(env, s);
      PromisePassesOn(env, s, t, a);
    }
  }

  lemma {:induction false} PromisePassesOn(env: Env, s: State, t: State, a: nat)
    requires Inv(env, s) && EventOf(env, s).Faulted? && Effect(env, s, EventOf(env, s), t)
    requires WillHit(env, s, a) && InTime(env, s, a)
    ensures Promised(env, t)
  {
    RunsHead(env, s);
    assert a > 0;
    assert s.runnable[a] == s.runnable[1..][a - 1] && s.runnable[a] in s.runnable[1..];
    HeadIsAlone(env, s, s.runnable[a]);
    hide Inv, EventOf;
    if s.blocked != [] { assert t.blocked[0] == t.blocked[..|s.blocked|][0]; }
    assert WillHit(env, t, a - 1) && InTime(env, t, a - 1);
  }

  /** When the disk delivers, the resumed process will hit if its turn comes in time. */
  lemma {:induction false} LoadPromises(env: Env, s: State)
    requires Inv(env, s) && EventOf(env, s).Loaded?
    ensures exists a: nat :: a <= |s.runnable| && WillHit(env, Step(env, s), a)
  {
    hide MemOk, QueueInv, LinesInv, LoadPage, Allocated, Owns;
    HeadsOk(env, s);
    var p := s.blocked[0].(waitTime := 0, waitingOnPage := None);
    var t := Step(env, s);
    var a := InsertionPoint(s.runnable, p.currentPos);
    LoadKeepsMemOk(s.frames, s.policy, s.blocked[0].waitingOnPage.value);
    assert t.runnable == EnqueuePriority(p, s.runnable);
    assert t.runnable[a] == p;
    assert WillHit(env, t, a);
  }

  /** The number of live processes is at most the number ever created. */
  lemma {:induction false} LiveBound(s: State)
    ensures |s.runnable| + |s.blocked| <= |AllPids(s)|
  {
    assert |multiset(Pids(s.runnable))| == |s.runnable|;
    assert |multiset(Pids(s.blocked))| == |s.blocked|;
  }

  /** A disk slow enough, or few enough processes, for the hits to keep coming. */
  ghost predicate Paced(env: Env, s: State) {
    env.penalty >= 3 || |AllPids(s)| <= env.penalty
  }

  // ---- the measure ----------------------------------------------------------

  /** With no hit promised, how many loads can pass before one is: runnable processes that
      will be left over when the next load completes. */
  ghost function Rounds(env: Env, s: State): nat {
    if Promised(env, s) then 0
    else
      var lead := HeadWait(s, env.penalty + 1);
      1 + if |s.runnable| + 1 <= lead then 0 else |s.runnable| + 1 - lead
  }

  /** The two-digit number with these digits. */
  ghost function Digits(high: nat, base: nat, low: nat): nat { high * base + low }

  /** Two-digit numbers compare by their leading digits first. */
  lemma {:induction false} TwoDigits(high: nat, low: nat, high': nat, low': nat, base: nat)
    requires low' < base && (high' < high || (high' == high && low' <= low))
    ensures Digits(high', base, low') <= Digits(high, base, low)
    ensures high' < high || low' < low ==> Digits(high', base, low') < Digits(high, base, low)
  {
    if high' < high { assert high' * base + base == (high' + 1) * base <= high * base; }
  }

  ghost function LinesToRun(env: Env, s: State): nat {
    if s.tmr <= |env.trace| then |env.trace| - s.tmr else 0
  }

  /** Loads still possible, counting `Rounds` for every line left. */
  ghost function LoadsLeft(env: Env, s: State): nat {
    Digits(LinesToRun(env, s), |AllPids(s)| + 2, Rounds(env, s))
  }

  /** Iterations still possible. */
  ghost function Measure(env: Env, s: State): nat {
    if Halted(s) then 0 else Digits(LoadsLeft(env, s), env.penalty + 2, HeadWait(s, env.penalty + 1))
  }

  lemma {:induction false} RoundsBound(env: Env, s: State)
    requires Inv(env, s)
    ensures Rounds(env, s) <= |AllPids(s)| + 1
  {
    TimersOf(env, s);
    LiveBound(s);
  }

  lemma {:induction false} RoundsAfterLoad(env: Env, s: State)
    requires Inv(env, s) && Paced(env, s) && EventOf(env, s).Loaded?
    ensures Rounds(env, Step(env, s)) < Rounds(env, s)
    ensures |AllPids(s)| <= env.penalty ==> Promised(env, Step(env, s))
  {
    StepEffect(env, s);
    LoadPromises(env, s);
    if Promised(env, s) { PromiseKept(env, s); assert false; }
    var t := Step(env, s);
    var a: nat :| a <= |s.runnable| && WillHit(env, t, a);
    TimersOf(env, s);
    StepKeepsInv(env, s);
    LiveBound(t);
    hide Inv, Step, EventOf, WillHit;
    if InTime(env, t, a) {
      assert Promised(env, t);
    }
  }

  lemma {:induction false} RoundsOtherwise(env: Env, s: State)
    requires Inv(env, s) && (EventOf(env, s).Faulted? || EventOf(env, s).Skipped?)
    ensures Rounds(env, Step(env, s)) <= Rounds(env, s)
    ensures HeadWait(Step(env, s), env.penalty + 1) < HeadWait(s, env.penalty + 1)
  {
    StepEffect(env, s);
    TimersOf(env, s);
    if !s.aborted && Promised(env, s) { PromiseKept(env, s); }
    hide Inv, Step, EventOf, Promised;
    var t := Step(env, s);
    if EventOf(env, s).Faulted? && s.blocked != [] { assert t.blocked[0] == t.blocked[..|s.blocked|][0]; }
  }

  /** An iteration that does not abort makes lexicographic progress: a line is run, or the
      next promised hit comes closer, or the disk timer does. */
  lemma {:induction false} Progress(env: Env, s: State)
    requires Inv(env, s) && Paced(env, s) && !Halted(s) && !EventOf(env, s).Stuck?
    ensures var t := Step(env, s); var e := EventOf(env, s);
      && LinesToRun(env, t) == LinesToRun(env, s) - (if e.Touched? then 1 else 0)
      && (e.Loaded? ==> Rounds(env, t) < Rounds(env, s))
      && (e.Faulted? || e.Skipped? ==>
            Rounds(env, t) <= Rounds(env, s) && HeadWait(t, env.penalty + 1) < HeadWait(s, env.penalty + 1))
  {
    StepEffect(env, s);
    StepKeepsInv(env, s);
    var e := EventOf(env, s);
    if e.Loaded? { RoundsAfterLoad(env, s); }
    if e.Faulted? || e.Skipped? { RoundsOtherwise(env, s); }
    HitsWithinTrace(env, s);
    HitsWithinTrace(env, Step(env, s));
    hide Inv, Step, EventOf, Rounds;
  }

  /** Hits never outnumber the lines of the trace. */
  lemma {:induction false} HitsWithinTrace(env: Env, s: State)
    requires Inv(env, s)
    ensures s.tmr <= |env.trace|
  {
  }

  lemma {:induction false} PacedStays(env: Env, s: State)
    requires Inv(env, s) && Paced(env, s)
    ensures Inv(env, Step(env, s)) && Paced(env, Step(env, s)) && AllPids(Step(env, s)) == AllPids(s)
  {
    hide Inv, Step, AllPids;
    StepKeepsInv(env, s);
  }

  lemma {:induction false} NotIdle(env: Env, s: State)
    requires Inv(env, s) && !Halted(s)
    ensures !EventOf(env, s).Idle?
  {
  }

  lemma {:induction false} LoadsLeftFalls(env: Env, s: State)
    requires Inv(env, s) && Paced(env, s) && !Halted(s) && !EventOf(env, s).Stuck?
    ensures var t := Step(env, s); var e := EventOf(env, s);
      && LoadsLeft(env, t) <= LoadsLeft(env, s)
      && (e.Loaded? || e.Touched? ==> LoadsLeft(env, t) < LoadsLeft(env, s))
      && (e.Faulted? || e.Skipped? ==> HeadWait(t, env.penalty + 1) < HeadWait(s, env.penalty + 1))
  {
    hide Inv, Step, EventOf, Rounds, AllPids, LinesToRun, Paced, Halted, Digits, HeadWait;
    PacedStays(env, s);
    Progress(env, s);
    var t := Step(env, s);
    RoundsBound(env, t);
    NotIdle(env, s);
    TwoDigits(LinesToRun(env, s), Rounds(env, s), LinesToRun(env, t), Rounds(env, t), |AllPids(s)| + 2);
  }

  lemma {:induction false} WaitBound(env: Env, s: State)
    requires Inv(env, s)
    ensures 0 < HeadWait(s, env.penalty + 1) <= env.penalty + 1
  {
    hide Inv;
    TimersOf(env, s);
  }

  lemma {:induction false} StuckHalts(env: Env, s: State)
    requires Inv(env, s) && EventOf(env, s).Stuck?
    ensures Halted(Step(env, s))
  {
    hide Inv, Step, EventOf;
    StepEffect(env, s);
  }

  lemma {:induction false} MeasureDecreases(env: Env, s: State)
    requires Inv(env, s) && Paced(env, s) && !Halted(s)
    ensures Measure(env, Step(env, s)) < Measure(env, s)
  {
    hide Inv, Step, EventOf, LoadsLeft, Paced, Halted, HeadWait;
    PacedStays(env, s);
    var t := Step(env, s);
    WaitBound(env, s);
    WaitBound(env, t);
    if EventOf(env, s).Stuck? {
      StuckHalts(env, s);
    } else {
      LoadsLeftFalls(env, s);
      NotIdle(env, s);
      TwoDigits(LoadsLeft(env, s), HeadWait(s, env.penalty + 1),
        LoadsLeft(env, t), HeadWait(t, env.penalty + 1), env.penalty + 2);
    }
  }

  /** The loop ends, within `Measure` iterations: for every trace and every policy, with
      any number of processes when the penalty is at least 3 ticks (it is 2000000 in the
      program), and with at most D processes whatever the penalty D is. */
  lemma {:induction false} Terminates(env: Env, s: State)
    requires Inv(env, s) && Paced(env, s)
    ensures exists n: nat :: n <= Measure(env, s) && Halted(Run(env, s, n))
    decreases Measure(env, s)
  {
    hide Inv, Step, Measure, Paced, Halted;
    assert Run(env, s, 0) == s;
    if !Halted(s) {
      MeasureDecreases(env, s);
      PacedStays(env, s);
      var t := Step(env, s);
      Terminates(env, t);
      var n: nat :| n <= Measure(env, t) && Halted(Run(env, t, n));
      assert Run(env, s, 1) == t;
      RunAdd(env, s, 1, n);
      assert Halted(Run(env, s, 1 + n));
    }
  }

  // ---- how many page-ins a run can take -------------------------------------

  /** With at most D processes, loads never get ahead of hits by more than one, and when
      they are one ahead the next hit is already promised. */
  ghost predicate Alternating(env: Env, s: State, loads: nat) {
    s.aborted || loads <= s.tmr || (loads == s.tmr + 1 && Promised(env, s))
  }

  lemma {:induction false} StepAlternates(env: Env, s: State, loads: nat)
    requires Inv(env, s) && |AllPids(s)| <= env.penalty && Alternating(env, s, loads)
    ensures Alternating(env, Step(env, s), loads + if EventOf(env, s).Loaded? then 1 else 0)
  {
    hide Inv, Step, EventOf, Promised, AllPids;
    StepEffect(env, s);
    if EventOf(env, s).Loaded? {
      RoundsAfterLoad(env, s);
    }
    if !s.aborted && Promised(env, s) {
      PromiseKept(env, s);
    }
  }

  lemma {:induction false} HitsKeepUp(env: Env, s: State, n: nat)
    requires Inv(env, s) && |AllPids(s)| <= env.penalty && s.tmr == 0
    ensures Alternating(env, Run(env, s, n), Completions(env, s, n))
  {
    hide Inv, Step, EventOf, Alternating, AllPids;
    if n == 0 {
      AlternatingAtStart(env, s);
    } else {
      HitsKeepUp(env, s, n - 1);
      RunKeepsPids(env, s, n - 1);
      StepAlternates(env, Run(env, s, n - 1), Completions(env, s, n - 1));
    }
  }

  lemma {:induction false} AlternatingAtStart(env: Env, s: State)
    ensures Alternating(env, s, 0)
  {
  }

  lemma {:induction false} NoPromiseWhenDone(env: Env, s: State, loads: nat)
    requires Alternating(env, s, loads) && !s.aborted && !NotDone(s)
    ensures loads <= s.tmr
  {
  }

  lemma {:induction false} LoadsAtExit(env: Env, s: State, loads: nat, free: nat)
    requires Balanced(env, s, loads, free) && !NotDone(s)
    ensures s.tpi == loads
  {
  }

  lemma {:induction false} TimeBudget(d: nat, tpi: nat, tmr: nat, time: nat)
    requires tpi <= tmr && time <= d * tpi + tmr + tpi
    ensures time <= (d + 2) * tmr
  {
    assert d * tpi <= d * tmr;
  }

  /** With at most D processes a run that exits normally takes at most one page-in per
      line, and at most (D + 2) ticks per line. */
  lemma {:induction false} ExitBudget(env: Env, policy: Policy, n: nat)
    requires Start(env, policy) && |AllPids(Begin(env, policy))| <= env.penalty
    ensures var s := Run(env, Begin(env, policy), n);
      !s.aborted && !NotDone(s) ==> s.tpi <= s.tmr == |env.trace| && s.time <= (env.penalty + 2) * |env.trace|
  {
    hide Inv, Step, Run, Begin, AllPids, Start, Balanced, Alternating, NotDone;
    var b := Begin(env, policy);
    var s := Run(env, b, n);
    if !s.aborted && !NotDone(s) {
      BeginFacts(env, policy);
      HitsKeepUp(env, b, n);
      NoPromiseWhenDone(env, s, Completions(env, b, n));
      TimeConservation(env, policy, n);
      LoadsAtExit(env, s, Completions(env, b, n), FreeTicks(env, b, n));
      ExitStatistics(env, policy, n);
      TimeBudget(env.penalty, s.tpi, s.tmr, s.time);
    }
  }

  /** With any number of processes, loads are paid for out of `LoadsLeft`. */
  lemma {:induction false} LoadsAreBounded(env: Env, s: State, n: nat)
    requires Inv(env, s) && Paced(env, s)
    ensures Run(env, s, n).aborted || Completions(env, s, n) + LoadsLeft(env, Run(env, s, n)) <= LoadsLeft(env, s)
    ensures Paced(env, Run(env, s, n))
  {
    hide Inv, Step, EventOf, LoadsLeft, Paced, Halted;
    if n > 0 {
      LoadsAreBounded(env, s, n - 1);
      var t := Run(env, s, n - 1);
      PacedStays(env, t);
      if Halted(t) {
        HaltedIdles(env, t);
      } else if EventOf(env, t).Stuck? {
        StuckHalts(env, t);
        StepEffect(env, t);
      } else {
        LoadsLeftFalls(env, t);
        StepEffect(env, t);
      }
    }
  }

  lemma {:induction false} HaltedIdles(env: Env, s: State)
    requires Inv(env, s) && Halted(s)
    ensures Step(env, s) == s && EventOf(env, s) == Idle
  {
    hide Inv;
  }

  /** A run over any trace with N processes takes at most (lines + 1) * (N + 2) page-ins. */
  lemma {:induction false} PageInBudget(env: Env, policy: Policy, n: nat)
    requires Start(env, policy) && Paced(env, Begin(env, policy))
    ensures var s := Run(env, Begin(env, policy), n);
      s.aborted || s.tpi <= (|env.trace| + 1) * (|AllPids(s)| + 2) + |s.blocked|
  {
    hide Inv, Step, Run, Begin, AllPids, Start, Paced, Rounds, LinesToRun;
    var b := Begin(env, policy);
    BeginFacts(env, policy);
    LoadsAreBounded(env, b, n);
    RunKeepsPids(env, b, n);
    RoundsBound(env, b);
    TimeConservation(env, policy, n);
    LinesToRunBound(env, b);
    BudgetArithmetic(LinesToRun(env, b), |env.trace|, |AllPids(b)| + 2, Rounds(env, b));
  }

  lemma {:induction false} LinesToRunBound(env: Env, s: State)
    ensures LinesToRun(env, s) <= |env.trace|
  {
  }

  lemma {:induction false} BudgetArithmetic(l: nat, lines: nat, m: nat, r: nat)
    requires l <= lines && r <= m
    ensures Digits(l, m, r) <= (lines + 1) * m
  {
    assert l * m <= lines * m;
  }

  /** The simulation ends: for every trace and policy and any number of processes when the
      penalty is at least 3 ticks, and otherwise with at most as many processes as ticks. */
  lemma {:induction false} SimulationEnds(env: Env, policy: Policy)
    requires Start(env, policy)
    requires env.penalty >= 3 || |AllPids(Begin(env, policy))| <= env.penalty
    ensures exists n: nat :: Halted(Run(env, Begin(env, policy), n))
  {
    hide Inv, Step, Run, Begin, AllPids, Measure;
    Terminates(env, Begin(env, policy));
  }
}
