/** A trace of one process: the loop with its misses, waits and retries computes exactly
    what plain demand paging computes, in a time given by a closed formula. */
module SingleProcess {
  import opened Types
  import opened IntervalTree
  import opened Replacement
  import opened Paging
  import opened ProcessModel
  import opened TraceModel
  import opened Machine
  import opened Runs
  import opened Accounting
  import opened Termination

  ghost predicate OnePid(trace: seq<Line>, pid: nat) {
    trace != [] && forall i :: 0 <= i < |trace| ==> trace[i].pid == pid
  }

  /** The pages the trace refers to, in order. */
  function Refs(trace: seq<Line>): (r: seq<Page>)
    ensures |r| == |trace|
  {
    seq(|trace|, i requires 0 <= i < |trace| => Page(trace[i].pid, trace[i].vpn))
  }

  /** Demand paging over the first `i` references, from empty memory. */
  function Plain(env: Env, policy: Policy, i: nat): (r: Paged)
    requires Start(env, policy) && i <= |env.trace|
    ensures MemOk(r.frames, r.policy)
  {
    DemandRun(Paged(EmptyFrames(env.size), policy, 0), Refs(env.trace)[..i])
  }

  lemma {:induction false} PlainNext(env: Env, policy: Policy, i: nat)
    requires Start(env, policy) && i < |env.trace|
    ensures Plain(env, policy, i + 1) == Demand(Plain(env, policy, i), Refs(env.trace)[i])
  {
    hide Demand, Start;
    var r := Refs(env.trace);
    assert r[..i + 1][..i] == r[..i];
  }

  /** The process, wherever it stands, is at line `i` (counted from 0) of its one interval. */
  ghost predicate AtLine(env: Env, pid: nat, p: Proc, i: nat) {
    && p.pid == pid && i < |env.trace| && p.currentline == i + 1
    && p.currInterval.Node? && p.currInterval.right.Nil? && p.currInterval.iv.high == |env.trace|
  }

  ghost predicate Reading(env: Env, pid: nat, s: State, i: nat) {
    && |s.runnable| == 1 && s.blocked == [] && AtLine(env, pid, s.runnable[0], i)
    && LineAt(ReadPos(s)) == i
  }

  /** About to run line `i`, with memory as demand paging left it. */
  ghost predicate Ready(env: Env, policy: Policy, pid: nat, s: State, i: nat)
    requires Start(env, policy) && i <= |env.trace|
  {
    var d := Plain(env, policy, i);
    && Reading(env, pid, s, i)
    && s.frames == d.frames && s.policy == d.policy && s.tpi == d.faults
  }

  /** Line `i` has missed and waits for the disk. */
  ghost predicate Queued(env: Env, policy: Policy, pid: nat, s: State, i: nat)
    requires Start(env, policy) && i <= |env.trace|
  {
    var d := Plain(env, policy, i);
    && s.runnable == [] && |s.blocked| == 1 && AtLine(env, pid, s.blocked[0], i)
    && LineAt(s.blocked[0].currentPos) == i && s.current == Some(pid)
    && s.frames == d.frames && s.policy == d.policy && s.tpi == d.faults + 1
  }

  /** The page of line `i` has just been loaded; the line is about to be retried. */
  ghost predicate Fetched(env: Env, policy: Policy, pid: nat, s: State, i: nat)
    requires Start(env, policy) && i <= |env.trace|
  {
    var d := Plain(env, policy, i);
    && Reading(env, pid, s, i) && !Resident(d.frames, Refs(env.trace)[i])
    && (s.frames, s.policy) == LoadPage(d.frames, d.policy, Refs(env.trace)[i])
    && s.tpi == d.faults + 1
  }

  ghost predicate Finished(env: Env, policy: Policy, s: State)
    requires Start(env, policy)
  {
    s.runnable == [] && s.blocked == [] && s.tpi == Plain(env, policy, |env.trace|).faults
  }

  /** The simulation stands where demand paging stands after `tmr` references. */
  ghost predicate Refines(env: Env, policy: Policy, pid: nat, s: State)
    requires Start(env, policy)
  {
    && !s.aborted && s.tmr <= |env.trace|
    && (if s.tmr == |env.trace| then Finished(env, policy, s)
        else Ready(env, policy, pid, s, s.tmr) || Queued(env, policy, pid, s, s.tmr)
             || Fetched(env, policy, pid, s, s.tmr))
  }

  // ---- one iteration --------------------------------------------------------

  /** The page read at line `i`. */
  lemma {:induction false} ReadsLine(env: Env, pid: nat, s: State, i: nat)
    requires OnePid(env.trace, pid) && Reading(env, pid, s, i)
    ensures CanRead(env, s) && NextPage(env, s) == Refs(env.trace)[i]
  {
  }

  /** After a hit at line `i` the process stands at the next line, or has ended. */
  lemma {:induction false} AfterHit(env: Env, pid: nat, s: State, i: nat)
    requires OnePid(env.trace, pid) && Reading(env, pid, s, i) && Resident(s.frames, Refs(env.trace)[i])
    ensures CanRead(env, s) && s.runnable[0].currInterval.Node?
    ensures var pg := Refs(env.trace)[i]; var t := Hit(Fetch(env, s), pg);
      && t.blocked == [] && t.tmr == s.tmr + 1 && t.tpi == s.tpi && t.time == s.time && t.aborted == s.aborted
      && (i + 1 < |env.trace| ==> Reading(env, pid, t, i + 1) && t.frames == s.frames
                                  && t.policy == NotifyAccess(s.policy, pg, FrameOf(s.frames, pg)))
      && (i + 1 == |env.trace| ==> t.runnable == [])
  {
    ReadsLine(env, pid, s, i);
  }

  lemma {:induction false} AfterMiss(env: Env, pid: nat, s: State, i: nat)
    requires OnePid(env.trace, pid) && Reading(env, pid, s, i)
    ensures CanRead(env, s)
    ensures var t := Miss(env, Fetch(env, s), NextPage(env, s), ReadPos(s));
      && t.runnable == [] && |t.blocked| == 1 && AtLine(env, pid, t.blocked[0], i)
      && LineAt(t.blocked[0].currentPos) == i && t.current == Some(pid) && t.blocked[0].waitTime == env.penalty
      && t.frames == s.frames && t.policy == s.policy
  {
    ReadsLine(env, pid, s, i);
  }

  lemma {:induction false} TickReads(env: Env, pid: nat, s: State, i: nat)
    requires Reading(env, pid, s, i)
    ensures Reading(env, pid, Tick(s), i) && Tick(s).frames == s.frames && Tick(s).policy == s.policy
    ensures ReadPos(Tick(s)) == ReadPos(s)
  {
  }

  /** The iteration taken from a state that is about to read line `i`. */
  lemma {:induction false} ReadingStep(env: Env, pid: nat, s: State, i: nat)
    requires Inv(env, s) && OnePid(env.trace, pid) && Reading(env, pid, s, i) && !s.aborted
    ensures var pg := Refs(env.trace)[i]; var t := Step(env, s);
      if Resident(s.frames, pg) then
        && EventOf(env, s) == Touched(pg) && t.blocked == []
        && (i + 1 < |env.trace| ==> Reading(env, pid, t, i + 1) && t.frames == s.frames
                                    && t.policy == NotifyAccess(s.policy, pg, FrameOf(s.frames, pg)))
        && (i + 1 == |env.trace| ==> t.runnable == [])
      else
        && EventOf(env, s) == Faulted(pg)
        && t.runnable == [] && |t.blocked| == 1 && AtLine(env, pid, t.blocked[0], i)
        && LineAt(t.blocked[0].currentPos) == i && t.current == Some(pid) && t.blocked[0].waitTime == env.penalty
        && t.frames == s.frames && t.policy == s.policy
  {
    hide Inv, Hit, Miss, Fetch, NotifyAccess, Refs, Reading, ReadPos, AtLine, NextPage;
    ReadingEvent(env, pid, s, i);
    RunsHead(env, s);
    TickReads(env, pid, s, i);
    ReadsLine(env, pid, s, i);
    ReadsLine(env, pid, Tick(s), i);
    if EventOf(env, s).Touched? {
      AfterHit(env, pid, Tick(s), i);
    } else {
      AfterMiss(env, pid, Tick(s), i);
    }
  }

  lemma {:induction false} ReadingEvent(env: Env, pid: nat, s: State, i: nat)
    requires Inv(env, s) && OnePid(env.trace, pid) && Reading(env, pid, s, i) && !s.aborted
    ensures var pg := Refs(env.trace)[i];
      EventOf(env, s) == if Resident(s.frames, pg) then Touched(pg) else Faulted(pg)
  {
    hide Inv;
    ReadsLine(env, pid, s, i);
  }

  /** The iteration taken while the one process waits at line `i`. */
  ghost predicate WaitingAt(env: Env, pid: nat, s: State, i: nat) {
    && s.runnable == [] && |s.blocked| == 1 && AtLine(env, pid, s.blocked[0], i)
    && LineAt(s.blocked[0].currentPos) == i && s.current == Some(pid)
  }

  lemma {:induction false} DeliveryStep(env: Env, pid: nat, s: State, i: nat)
    requires Inv(env, s) && OnePid(env.trace, pid) && WaitingAt(env, pid, s, i) && Completes(s) && !s.aborted
    ensures var pg := Refs(env.trace)[i]; var t := Step(env, s);
      && EventOf(env, s) == Loaded(pg) && !Resident(s.frames, pg) && MemOk(s.frames, s.policy)
      && Reading(env, pid, t, i) && (t.frames, t.policy) == LoadPage(s.frames, s.policy, pg)
  {
    HeadsOk(env, s);
    var p := s.blocked[0].(waitTime := 0, waitingOnPage := None);
    assert EnqueuePriority(p, []) == [p];
  }

  lemma {:induction false} WaitingStep(env: Env, pid: nat, s: State, i: nat)
    requires Inv(env, s) && WaitingAt(env, pid, s, i) && !Completes(s) && !s.aborted
    ensures EventOf(env, s) == Skipped && WaitingAt(env, pid, Step(env, s), i)
    ensures Step(env, s).frames == s.frames && Step(env, s).policy == s.policy
  {
    hide Inv;
  }

  // ---- refinement -----------------------------------------------------------

  /** The running time so far: the penalty for each completed load, the part served to the
      queued one, and one tick for each hit and each miss. */
  ghost predicate Timed(env: Env, s: State) {
    && |s.blocked| <= s.tpi
    && s.time + HeadWait(s, env.penalty) == env.penalty * (s.tpi - |s.blocked|) + env.penalty + s.tmr + s.tpi
  }

  lemma {:induction false} TimedStep(env: Env, s: State, e: Event, t: State)
    requires Effect(env, s, e, t) && Timers(env, s.blocked) && Timed(env, s) && !e.Stuck?
    requires |s.blocked| + |s.runnable| <= 1
    ensures Timed(env, t)
  {
    match e
    case Loaded(_) => assert env.penalty * s.tpi == env.penalty * (s.tpi - 1) + env.penalty;
    case _ =>
  }

  lemma {:induction false} ReadyStep(env: Env, policy: Policy, pid: nat, s: State, i: nat)
    requires Start(env, policy) && Inv(env, s) && OnePid(env.trace, pid) && !s.aborted
    requires i < |env.trace| && (Ready(env, policy, pid, s, i) || Fetched(env, policy, pid, s, i))
    ensures var t := Step(env, s);
      if EventOf(env, s).Touched? then
        if i + 1 == |env.trace| then Finished(env, policy, t) else Ready(env, policy, pid, t, i + 1)
      else EventOf(env, s).Faulted? && Queued(env, policy, pid, t, i)
  {
    hide Inv, Step, EventOf, Reading, AtLine, Start, MemOk, Plain, NotifyAccess, LoadPage, Refs, OnePid;
    ReadingStep(env, pid, s, i);
    StepEffect(env, s);
    PlainNext(env, policy, i);
    if Fetched(env, policy, pid, s, i) { FetchedIsResident(env, policy, pid, s, i); }
  }

  /** After the load the retried reference is a hit, and what the policy is told is what
      demand paging tells it. */
  lemma {:induction false} FetchedIsResident(env: Env, policy: Policy, pid: nat, s: State, i: nat)
    requires Start(env, policy) && i < |env.trace| && Fetched(env, policy, pid, s, i)
    ensures Resident(s.frames, Refs(env.trace)[i])
  {
    hide Start, MemOk, Plain, LoadPage, Reading;
    var d := Plain(env, policy, i);
    LoadKeepsMemOk(d.frames, d.policy, Refs(env.trace)[i]);
  }

  lemma {:induction false} QueuedStep(env: Env, policy: Policy, pid: nat, s: State, i: nat)
    requires Start(env, policy) && Inv(env, s) && OnePid(env.trace, pid) && !s.aborted
    requires i < |env.trace| && Queued(env, policy, pid, s, i)
    ensures var t := Step(env, s);
      if EventOf(env, s).Loaded? then Fetched(env, policy, pid, t, i)
      else EventOf(env, s).Skipped? && Queued(env, policy, pid, t, i)
  {
    hide Inv, Step, EventOf, Reading, AtLine, Start, MemOk, Plain, LoadPage, Refs, OnePid, Completes;
    if Completes(s) { DeliveryStep(env, pid, s, i); } else { WaitingStep(env, pid, s, i); }
    StepEffect(env, s);
  }

  lemma {:induction false} FinishedStep(env: Env, policy: Policy, s: State)
    requires Start(env, policy) && Inv(env, s) && Finished(env, policy, s)
    ensures Step(env, s) == s && EventOf(env, s) == Idle
  {
    hide Inv, Start, Plain;
  }

  lemma {:induction false} AtMostOne(env: Env, policy: Policy, pid: nat, s: State)
    requires Start(env, policy) && Refines(env, policy, pid, s)
    ensures |s.blocked| + |s.runnable| <= 1
  {
    hide Start, Plain, LoadPage, Refs, AtLine;
  }

  /** Block, wait, load and retry: every iteration keeps the simulation in step with demand paging. */
  lemma {:induction false} StepRefines(env: Env, policy: Policy, pid: nat, s: State)
    requires Start(env, policy) && Inv(env, s) && OnePid(env.trace, pid)
    requires Refines(env, policy, pid, s) && Timed(env, s)
    ensures Refines(env, policy, pid, Step(env, s)) && Timed(env, Step(env, s))
  {
    hide Inv, Step, EventOf, Start, OnePid, Ready, Queued, Fetched, Finished, Timed, Timers;
    StepEffect(env, s);
    AtMostOne(env, policy, pid, s);
    TimersOf(env, s);
    if s.tmr == |env.trace| {
      FinishedStep(env, policy, s);
    } else if Queued(env, policy, pid, s, s.tmr) {
      QueuedStep(env, policy, pid, s, s.tmr);
    } else {
      ReadyStep(env, policy, pid, s, s.tmr);
    }
    TimedStep(env, s, EventOf(env, s), Step(env, s));
  }

  lemma {:induction false} BeginRefines(env: Env, policy: Policy, pid: nat)
    requires Start(env, policy) && OnePid(env.trace, pid)
    ensures Refines(env, policy, pid, Begin(env, policy)) && Timed(env, Begin(env, policy))
    ensures |AllPids(Begin(env, policy))| == 1
  {
    hide MemOk, Inv;
    SinglePidParse(env.trace, pid);
    var b := Begin(env, policy);
    assert b.runnable == [InitProc(pid, Interval(1, |env.trace|, NotedPos(0)))];
    assert Refs(env.trace)[..0] == [];
    assert Pids(b.runnable) == [pid] && Pids(b.blocked) == [];
    assert AllPids(b) == multiset{pid};
  }

  /** On a one-process trace the simulation is, after every iteration, in step with plain
      demand paging: same frames, same policy state, same faults, line by line. */
  lemma {:induction false} RefinesDemandPaging(env: Env, policy: Policy, pid: nat, n: nat)
    requires Start(env, policy) && OnePid(env.trace, pid)
    ensures var s := Run(env, Begin(env, policy), n); Refines(env, policy, pid, s) && Timed(env, s)
  {
    hide Inv, Step, Begin, Start, OnePid, Refines, Timed;
    if n == 0 {
      BeginRefines(env, policy, pid);
    } else {
      RefinesDemandPaging(env, policy, pid, n - 1);
      StepRefines(env, policy, pid, Run(env, Begin(env, policy), n - 1));
    }
  }

  lemma {:induction false} DoneStatistics(env: Env, policy: Policy, pid: nat, s: State)
    requires Start(env, policy) && Refines(env, policy, pid, s) && Timed(env, s) && Halted(s)
    ensures !s.aborted && s.tmr == |env.trace| && s.tpi == Plain(env, policy, |env.trace|).faults
    ensures s.time == env.penalty * s.tpi + s.tmr + s.tpi
  {
    hide Start, Plain, LoadPage, Refs, AtLine;
  }

  lemma {:induction false} PlainAll(env: Env, policy: Policy)
    requires Start(env, policy)
    ensures Plain(env, policy, |env.trace|) == DemandRun(Paged(EmptyFrames(env.size), policy, 0), Refs(env.trace))
  {
    hide Start, DemandRun;
    assert Refs(env.trace)[..|env.trace|] == Refs(env.trace);
  }

  /** For every one-process trace and every policy the simulation ends normally, having run
      every line; its page-ins are the faults of demand paging and its running time is
      exactly D * TPI + TMR + TPI. */
  lemma {:induction false} OneProcessResult(env: Env, policy: Policy, pid: nat, n: nat)
    requires Start(env, policy) && OnePid(env.trace, pid)
    ensures var s := Run(env, Begin(env, policy), n); Halted(s) ==>
      && !s.aborted && s.tmr == |env.trace|
      && s.tpi == DemandRun(Paged(EmptyFrames(env.size), policy, 0), Refs(env.trace)).faults
      && s.time == env.penalty * s.tpi + s.tmr + s.tpi
    ensures exists m: nat :: Halted(Run(env, Begin(env, policy), m))
  {
    hide Inv, Step, Begin, Start, OnePid, Refines, Timed, Run, Plain, DemandRun, Refs, Halted, AllPids;
    RefinesDemandPaging(env, policy, pid, n);
    if Halted(Run(env, Begin(env, policy), n)) {
      DoneStatistics(env, policy, pid, Run(env, Begin(env, policy), n));
      PlainAll(env, policy);
    }
    BeginRefines(env, policy, pid);
    PenaltyPositive(env, policy);
    SimulationEnds(env, policy);
  }

  lemma {:induction false} PenaltyPositive(env: Env, policy: Policy)
    requires Start(env, policy)
    ensures env.penalty >= 1
  {
  }
}
