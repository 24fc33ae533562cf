/** The disk serves blocked processes in order, each after exactly its penalty, and the
    loop may jump over the ticks in which nothing can run. */
module DiskQueue {
  import opened Types
  import opened Machine
  import opened MachineInvariant
  import opened Runs
  import opened Accounting

  /** When the `i`-th process of the disk queue will be served. */
  function Deadline(env: Env, s: State, i: nat): nat
    requires i < |s.blocked|
  {
    s.time + s.blocked[0].waitTime + i * env.penalty
  }

  /** One iteration keeps every deadline: processes move up only when the head is served,
      and the head is served exactly at its deadline. */
  lemma {:induction false} DeadlineStep(env: Env, s: State, e: Event, t: State, i: nat)
    requires Effect(env, s, e, t) && Timers(env, s.blocked) && i < |s.blocked|
    ensures e.Loaded? ==> t.time == Deadline(env, s, 0)
    ensures e.Loaded? && i > 0 ==>
      t.blocked[i - 1] == s.blocked[i] && Deadline(env, t, i - 1) == Deadline(env, s, i)
    ensures !e.Loaded? ==>
      i < |t.blocked| && t.blocked[i].pid == s.blocked[i].pid && Deadline(env, t, i) == Deadline(env, s, i)
  {
    match e
    case Loaded(_) => if i > 0 { assert (i - 1) * env.penalty + env.penalty == i * env.penalty; }
    case Faulted(_) =>
      assert t.blocked[i] == t.blocked[..|s.blocked|][i];
      assert t.blocked[0] == t.blocked[..|s.blocked|][0];
    case _ =>
  }

  /** A process that blocks behind `b` others, with `w` ticks left on the head, has its
      deadline `w + b * D` ticks away, or `D` ticks if the disk was idle. */
  lemma {:induction false} BlockingDeadline(env: Env, s: State)
    requires Inv(env, s) && EventOf(env, s).Faulted?
    ensures var t := Step(env, s); var b := |s.blocked|;
      && |t.blocked| == b + 1 && t.blocked[b].pid == s.runnable[0].pid
      && Deadline(env, t, b) == t.time + (if b == 0 then env.penalty else s.blocked[0].waitTime - 1 + b * env.penalty)
  {
    hide Inv, Step, EventOf, Deadline;
    StepEffect(env, s);
    TimersOf(env, s);
    NewDeadline(env, s, EventOf(env, s), Step(env, s));
  }

  lemma {:induction false} NewDeadline(env: Env, s: State, e: Event, t: State)
    requires e.Faulted? && Effect(env, s, e, t) && Timers(env, s.blocked)
    ensures var b := |s.blocked|;
      Deadline(env, t, b) == t.time + (if b == 0 then env.penalty else s.blocked[0].waitTime - 1 + b * env.penalty)
  {
    if s.blocked != [] { assert t.blocked[0] == t.blocked[..|s.blocked|][0]; }
  }

  lemma {:induction false} LoadedQueue(env: Env, s: State, e: Event, t: State)
    requires Effect(env, s, e, t)
    ensures e.Loaded? ==> |t.blocked| + 1 == |s.blocked|
  {
  }

  /** First in, first out: after `c` completions the process that stood at place `i` stands
      at place `i - c`, with the deadline it always had. */
  lemma {:induction false} QueuePosition(env: Env, s: State, i: nat, n: nat)
    requires Inv(env, s) && i < |s.blocked|
    ensures Completions(env, s, n) <= i ==>
      var t := Run(env, s, n); var k := i - Completions(env, s, n);
      && k < |t.blocked| && t.blocked[k].pid == s.blocked[i].pid
      && Deadline(env, t, k) == Deadline(env, s, i)
  {
    hide Inv, Step, EventOf, Deadline, Effect, Timers;
    if n > 0 && Completions(env, s, n) <= i {
      QueuePosition(env, s, i, n - 1);
      var t := Run(env, s, n - 1);
      StepEffect(env, t);
      TimersOf(env, t);
      LoadedQueue(env, t, EventOf(env, t), Step(env, t));
      DeadlineStep(env, t, EventOf(env, t), Step(env, t), i - Completions(env, s, n - 1));
    }
  }

  /** The process at place `i` is served by the completion number `i + 1` from now, at
      exactly its deadline. */
  lemma {:induction false} ServedOnTime(env: Env, s: State, i: nat, n: nat)
    requires Inv(env, s) && i < |s.blocked|
    ensures Completions(env, s, n) == i && EventOf(env, Run(env, s, n)).Loaded? ==>
      && Run(env, s, n).blocked != [] && Run(env, s, n).blocked[0].pid == s.blocked[i].pid
      && Run(env, s, n + 1).time == Deadline(env, s, i)
  {
    hide Inv, Step, EventOf, Deadline, Effect, Timers;
    var t := Run(env, s, n);
    if Completions(env, s, n) == i && EventOf(env, t).Loaded? {
      QueuePosition(env, s, i, n);
      StepEffect(env, t);
      TimersOf(env, t);
      DeadlineStep(env, t, EventOf(env, t), Step(env, t), 0);
    }
  }

  lemma {:induction false} CompletionsShift(env: Env, s: State, n: nat)
    requires Inv(env, s)
    ensures Inv(env, Step(env, s))
    ensures Completions(env, s, n + 1) == (if EventOf(env, s).Loaded? then 1 else 0) + Completions(env, Step(env, s), n)
    ensures Run(env, s, n + 1) == Run(env, Step(env, s), n)
  {
    hide Inv, Step, EventOf;
    StepKeepsInv(env, s);
    if n == 0 {
      assert Run(env, s, 0) == s;
      assert Completions(env, s, 1) == Completions(env, s, 0) + if EventOf(env, s).Loaded? then 1 else 0;
    } else {
      CompletionsShift(env, s, n - 1);
    }
  }

  lemma {:induction false} QueuedIsLive(env: Env, s: State, i: nat)
    requires Inv(env, s) && i < |s.blocked| && !s.aborted
    ensures Step(env, s).time > s.time
    ensures Deadline(env, s, i) > s.time
  {
    hide Inv, Step, EventOf;
    NotHaltedWhenQueued(env, s);
    StepEffect(env, s);
    TimersOf(env, s);
  }

  lemma {:induction false} NotHaltedWhenQueued(env: Env, s: State)
    requires Inv(env, s) && s.blocked != [] && !s.aborted
    ensures !EventOf(env, s).Idle?
  {
  }

  ghost predicate ServedAfter(env: Env, s: State, i: nat, n: nat)
    requires Inv(env, s)
  {
    Run(env, s, n).aborted || (Completions(env, s, n) == i && EventOf(env, Run(env, s, n)).Loaded?)
  }

  lemma {:induction false} ServedShift(env: Env, s: State, i: nat, n: nat)
    requires Inv(env, s) && Inv(env, Step(env, s))
    requires EventOf(env, s).Loaded? ==> i > 0
    requires ServedAfter(env, Step(env, s), if EventOf(env, s).Loaded? then i - 1 else i, n)
    ensures ServedAfter(env, s, i, n + 1)
  {
    hide Inv, Step, EventOf, Run, Completions;
    CompletionsShift(env, s, n);
  }

  /** Every blocked process is served, unless the program aborts first. */
  lemma {:induction false} ServedAtLast(env: Env, s: State, i: nat)
    requires Inv(env, s) && i < |s.blocked|
    ensures exists n: nat :: ServedAfter(env, s, i, n)
    decreases Deadline(env, s, i) - s.time
  {
    hide Inv, Step, EventOf, Deadline, Effect, Timers;
    assert Run(env, s, 0) == s && Completions(env, s, 0) == 0;
    if s.aborted || (i == 0 && EventOf(env, s).Loaded?) {
      assert ServedAfter(env, s, i, 0);
    } else {
      var t := Step(env, s);
      var k := if EventOf(env, s).Loaded? then i - 1 else i;
      StepKeepsInv(env, s);
      StepEffect(env, s);
      TimersOf(env, s);
      DeadlineStep(env, s, EventOf(env, s), t, i);
      QueuedIsLive(env, s, i);
      LoadedQueue(env, s, EventOf(env, s), t);
      ServedAtLast(env, t, k);
      var n: nat :| ServedAfter(env, t, k, n);
      ServedShift(env, s, i, n);
    }
  }

  // ---- the jump over idle ticks ---------------------------------------------

  lemma {:induction false} SlowStepKeepsInv(env: Env, s: State)
    requires Inv(env, s)
    ensures Inv(env, SlowStep(env, s))
  {
    HeadsOk(env, s);
    if !Halted(s) && !Completes(s) && s.runnable == [] {
      TickCore(env, s);
    } else {
      StepKeepsInv(env, s);
    }
  }

  /** The state after `n` iterations of the loop without the jump. */
  function SlowRun(env: Env, s: State, n: nat): (r: State)
    requires Inv(env, s)
    ensures Inv(env, r)
  {
    if n == 0 then s
    else
      var t := SlowRun(env, s, n - 1);
      SlowStepKeepsInv(env, t);
      SlowStep(env, t)
  }

  lemma {:induction false} SlowRunAdd(env: Env, s: State, m: nat, n: nat)
    requires Inv(env, s)
    ensures SlowRun(env, s, m + n) == SlowRun(env, SlowRun(env, s, m), n)
  {
    hide Inv, SlowStep;
    if n > 0 { SlowRunAdd(env, s, m, n - 1); }
  }

  /** `k` ticks in which nothing happens. */
  function Waited(s: State, k: nat): State
    requires s.blocked != [] && k <= s.blocked[0].waitTime
  {
    s.(time := s.time + k, tmu := s.tmu + Allocated(s.frames) * k,
       blocked := s.blocked[0 := s.blocked[0].(waitTime := s.blocked[0].waitTime - k)])
  }

  lemma {:induction false} WaitOneMore(env: Env, s: State, k: nat)
    requires s.runnable == [] && !s.aborted && s.blocked != [] && k + 1 < s.blocked[0].waitTime
    requires Inv(env, Waited(s, k))
    ensures SlowStep(env, Waited(s, k)) == Waited(s, k + 1)
  {
    hide Inv;
    assert Allocated(s.frames) * k + Allocated(s.frames) == Allocated(s.frames) * (k + 1);
  }

  lemma {:induction false} SlowWait(env: Env, s: State, k: nat)
    requires Inv(env, s) && s.runnable == [] && !s.aborted && s.blocked != [] && k < s.blocked[0].waitTime
    ensures SlowRun(env, s, k) == Waited(s, k)
  {
    hide Inv, SlowStep;
    if k == 0 {
      assert s.blocked[0 := s.blocked[0].(waitTime := s.blocked[0].waitTime - 0)] == s.blocked;
    } else {
      SlowWait(env, s, k - 1);
      WaitOneMore(env, s, k - 1);
    }
  }

  /** One jump is worth exactly the idle ticks it skips. */
  lemma {:induction false} JumpIsWaiting(env: Env, s: State)
    requires Inv(env, s) && EventOf(env, s).Skipped?
    ensures s.blocked != [] && SlowRun(env, s, s.blocked[0].waitTime - 1) == Step(env, s)
  {
    hide Inv, Step, EventOf, SlowRun;
    StepEffect(env, s);
    SlowWait(env, s, s.blocked[0].waitTime - 1);
  }

  lemma {:induction false} OneSlowStep(env: Env, s: State)
    requires Inv(env, s) && !EventOf(env, s).Skipped?
    ensures SlowRun(env, s, 1) == Step(env, s)
  {
    hide Inv;
    assert SlowRun(env, s, 0) == s;
  }

  ghost predicate Reaches(env: Env, s: State, m: nat, t: State)
    requires Inv(env, s)
  {
    SlowRun(env, s, m) == t
  }

  /** Everything the loop reaches with the jump, the tick-by-tick loop reaches too: the same
      state in full, hence at the same time with the same statistics, timers, queues and memory. */
  lemma {:induction false} JumpsAreSound(env: Env, s: State, n: nat)
    requires Inv(env, s)
    ensures exists m: nat :: m >= n && Reaches(env, s, m, Run(env, s, n))
  {
    hide Inv, Step, EventOf;
    if n == 0 {
      assert Reaches(env, s, 0, Run(env, s, 0));
    } else {
      JumpsAreSound(env, s, n - 1);
      var t := Run(env, s, n - 1);
      var m: nat :| m >= n - 1 && Reaches(env, s, m, t);
      var k := StepInTicks(env, t);
      SlowRunAdd(env, s, m, k);
      assert Reaches(env, s, m + k, Run(env, s, n));
    }
  }

  lemma {:induction false} StepInTicks(env: Env, s: State) returns (k: nat)
    requires Inv(env, s)
    ensures k >= 1 && SlowRun(env, s, k) == Step(env, s)
  {
    hide Inv, Step, EventOf, SlowRun;
    if EventOf(env, s).Skipped? {
      JumpIsWaiting(env, s);
      StepEffect(env, s);
      k := s.blocked[0].waitTime - 1;
    } else {
      OneSlowStep(env, s);
      k := 1;
    }
  }

  lemma {:induction false} SlowStaysHalted(env: Env, s: State, n: nat)
    requires Inv(env, s) && Halted(s)
    ensures SlowRun(env, s, n) == s
  {
    hide Inv;
    if n > 0 { SlowStaysHalted(env, s, n - 1); }
  }

  /** Conversely every tick-by-tick run flows into the run with jumps, and a tick-by-tick
      run that has ended has ended in a state of the run with jumps. */
  lemma {:induction false} JumpsAreComplete(env: Env, s: State, m: nat)
    requires Inv(env, s)
    ensures exists l: nat, n: nat :: m <= l && Reaches(env, s, l, Run(env, s, n))
    ensures Halted(SlowRun(env, s, m)) ==> exists n: nat :: SlowRun(env, s, m) == Run(env, s, n)
  {
    hide Inv, SlowStep, Step, SlowRun, Run, Halted;
    JumpsAreSound(env, s, m);
    var l: nat :| l >= m && Reaches(env, s, l, Run(env, s, m));
    if Halted(SlowRun(env, s, m)) {
      SlowRunAdd(env, s, m, l - m);
      SlowStaysHalted(env, SlowRun(env, s, m), l - m);
    }
  }
}
