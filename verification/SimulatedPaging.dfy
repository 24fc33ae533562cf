/** The paging theorems, for what the simulator reports on one-process traces. */
module SimulatedPaging {
  import opened Types
  import opened Replacement
  import opened Paging
  import opened Machine
  import opened Runs
  import opened Accounting
  import opened SingleProcess
  import opened FifoMemory
  import opened ClockBound

  /** `s` is the state in which the simulation ends. */
  ghost predicate Ends(env: Env, policy: Policy, s: State) {
    Start(env, policy) && Halted(s) && exists n: nat :: s == Run(env, Begin(env, policy), n)
  }

  /** A one-process simulation ends in such a state, and its statistics are those of demand paging. */
  lemma {:induction false} EndsSomewhere(env: Env, policy: Policy, pid: nat) returns (s: State)
    requires Start(env, policy) && OnePid(env.trace, pid)
    ensures Ends(env, policy, s)
  {
    hide Begin, Run, OnePid, Start, Halted;
    OneProcessResult(env, policy, pid, 0);
    var n: nat :| Halted(Run(env, Begin(env, policy), n));
    s := Run(env, Begin(env, policy), n);
  }

  lemma {:induction false} EndStatistics(env: Env, policy: Policy, pid: nat, s: State)
    requires Ends(env, policy, s) && OnePid(env.trace, pid)
    ensures MemOk(EmptyFrames(env.size), policy)
    ensures s.tpi == DemandRun(Paged(EmptyFrames(env.size), policy, 0), Refs(env.trace)).faults
    ensures s.tmr == |env.trace| && s.time == env.penalty * s.tpi + s.tmr + s.tpi
  {
    hide Begin, Run, OnePid, Halted, DemandRun, Refs;
    var n: nat :| s == Run(env, Begin(env, policy), n);
    OneProcessResult(env, policy, pid, n);
  }

  lemma {:induction false} QueueFaults(env: Env, d: Discipline, pid: nat, s: State)
    requires Ends(env, PolicyOf(d, []), s) && OnePid(env.trace, pid)
    ensures env.size > 0 && s.tpi == Faults(d, [], Refs(env.trace), env.size)
  {
    hide Begin, Run, OnePid, Halted, DemandRun, Refs, Faults, QueueRun, MemOk;
    EndStatistics(env, PolicyOf(d, []), pid, s);
    QueueIsEnough(d, Paged(EmptyFrames(env.size), PolicyOf(d, []), 0), [], Refs(env.trace));
  }

  lemma {:induction false} FewerFaultsLessTime(d: nat, a: nat, b: nat, n: nat)
    requires a <= b
    ensures d * a + n + a <= d * b + n + b
  {
  }

  // ---- more memory ----------------------------------------------------------

  /** Simulating the same one-process trace under LRU with more memory never reports more
      page-ins, nor a longer running time. */
  lemma {:induction false} MoreMemoryNeverHurtsLru(small: Env, large: Env, pid: nat, s: State, l: State)
    requires small.trace == large.trace && small.penalty == large.penalty && small.size <= large.size
    requires OnePid(small.trace, pid)
    ensures Ends(small, Lru([]), s) && Ends(large, Lru([]), l) ==> l.tpi <= s.tpi && l.time <= s.time
  {
    hide Ends, OnePid, DemandRun, Refs, Faults, QueueRun, MemOk;
    if Ends(small, Lru([]), s) && Ends(large, Lru([]), l) {
      QueueFaults(small, LeastRecent, pid, s);
      QueueFaults(large, LeastRecent, pid, l);
      EndStatistics(small, Lru([]), pid, s);
      EndStatistics(large, Lru([]), pid, l);
      LruInclusion(Refs(small.trace), small.size, large.size);
      FewerFaultsLessTime(small.penalty, l.tpi, s.tpi, s.tmr);
    }
  }

  /** Under FIFO, no one-process trace is reported with more page-ins for `l` frames than for `k`. */
  ghost predicate FifoNeverHurts(penalty: nat, k: nat, l: nat) {
    forall trace: seq<Line>, pid: nat, s: State, t: State ::
      OnePid(trace, pid) && Ends(Env(trace, penalty, k), Fifo([]), s) && Ends(Env(trace, penalty, l), Fifo([]), t)
      ==> t.tpi <= s.tpi
  }

  /** A trace with these references. */
  function LinesOf(refs: seq<Page>): (t: seq<Line>)
    ensures |t| == |refs| && Refs(t) == refs
  {
    var t := seq(|refs|, i requires 0 <= i < |refs| => Line(refs[i].pid, refs[i].vpn));
    assert Refs(t) == refs;
    t
  }

  lemma {:induction false} LinesOfOne(refs: seq<Page>)
    requires refs != [] && forall x :: x in refs ==> x.pid == 1
    ensures OnePid(LinesOf(refs), 1)
  {
    forall i | 0 <= i < |refs| ensures LinesOf(refs)[i].pid == 1 { assert Refs(LinesOf(refs))[i] == refs[i]; }
  }

  lemma {:induction false} FifoStarts(env: Env)
    requires env.size > 0 && env.penalty > 0
    ensures Start(env, Fifo([]))
  {
  }

  lemma {:induction false} AnomalousOfOne(k: nat, l: nat)
    requires 0 < k < l
    ensures Anomalous(k, l) != [] && forall x :: x in Anomalous(k, l) ==> x.pid == 1
  {
  }

  /** The trace of the anomaly, in the simulator: with more memory it takes one page-in more. */
  lemma {:induction false} FifoHurts(penalty: nat, k: nat, l: nat) returns (trace: seq<Line>, s: State, t: State)
    requires penalty > 0 && 0 < k < l < 2 * k - 1
    ensures OnePid(trace, 1)
    ensures Ends(Env(trace, penalty, k), Fifo([]), s) && Ends(Env(trace, penalty, l), Fifo([]), t)
    ensures t.tpi == s.tpi + 1 && t.time > s.time
  {
    hide Ends, OnePid, DemandRun, Refs, Faults, QueueRun, MemOk, Anomalous, Start, LinesOf;
    AnomalousOfOne(k, l);
    trace := LinesOf(Anomalous(k, l));
    LinesOfOne(Anomalous(k, l));
    var small, large := Env(trace, penalty, k), Env(trace, penalty, l);
    FifoStarts(small);
    FifoStarts(large);
    s := EndsSomewhere(small, Fifo([]), 1);
    t := EndsSomewhere(large, Fifo([]), 1);
    QueueFaults(small, FirstIn, 1, s);
    QueueFaults(large, FirstIn, 1, t);
    AnomalousFaults(k, l);
    EndStatistics(small, Fifo([]), 1, s);
    EndStatistics(large, Fifo([]), 1, t);
    FewerFaultsLessTime(penalty, s.tpi, t.tpi, s.tmr);
    assert penalty * t.tpi >= penalty * s.tpi;
  }

  /** More memory is safe for the simulator under FIFO exactly when there is none more, or at
      least twice as much less one frame. */
  lemma {:induction false} MoreMemoryUnderFifo(penalty: nat, k: nat, l: nat)
    requires penalty > 0 && 0 < k <= l
    ensures FifoNeverHurts(penalty, k, l) <==> l == k || l >= 2 * k - 1
  {
    hide Ends, OnePid, Faults, Refs;
    if k < l < 2 * k - 1 {
      var trace, s, t := FifoHurts(penalty, k, l);
    } else {
      forall trace: seq<Line>, pid: nat, s: State, t: State |
        OnePid(trace, pid) && Ends(Env(trace, penalty, k), Fifo([]), s) && Ends(Env(trace, penalty, l), Fifo([]), t)
        ensures t.tpi <= s.tpi
      {
        QueueFaults(Env(trace, penalty, k), FirstIn, pid, s);
        QueueFaults(Env(trace, penalty, l), FirstIn, pid, t);
        FifoMemoryExactly(k, l);
        assert NeverWorse(k, l);
      }
    }
  }

  // ---- schedules and stretches ----------------------------------------------

  /** The simulator's page-ins under LRU or FIFO are at most K times the disk reads of any
      schedule, even one that knows the whole trace. */
  lemma {:induction false} SimulatorIsCompetitive(env: Env, d: Discipline, pid: nat, s: State, held: seq<set<Page>>)
    requires OnePid(env.trace, pid) && Schedule(Refs(env.trace), held, env.size) && held[0] == {}
    ensures Ends(env, PolicyOf(d, []), s) ==> s.tpi <= env.size * Loads(held)
  {
    hide Ends, OnePid, Refs, Faults, Schedule;
    if Ends(env, PolicyOf(d, []), s) {
      QueueFaults(env, d, pid, s);
      Competitive(d, Refs(env.trace), held, env.size);
    }
  }

  /** Demand paging: a stretch of references adds at most one fault per page named. */
  lemma {:induction false} PlainStretch(env: Env, d: Discipline, i: nat, j: nat)
    requires Start(env, PolicyOf(d, [])) && i <= j <= |env.trace|
    requires |Named(Refs(env.trace)[i..j])| <= env.size
    ensures var p := PolicyOf(d, []);
      Plain(env, p, j).faults <= Plain(env, p, i).faults + |Named(Refs(env.trace)[i..j])|
  {
    hide MemOk, DemandRun, QueueRun, Faults, Named;
    var r, k := Refs(env.trace), env.size;
    var s := Paged(EmptyFrames(k), PolicyOf(d, []), 0);
    QueueIsEnough(d, s, [], r[..i]);
    QueueIsEnough(d, s, [], r[..j]);
    assert r[..j] == r[..i] + r[i..j];
    RunInTwo(d, [], r[..i], r[i..j], k);
    QueueRunOk(d, [], r[..i], k);
    PhaseBound(d, QueueRun(d, [], r[..i], k), r[i..j], k);
  }

  /** The line after the one a one-process simulation stands at. */
  function NextLine(env: Env, s: State): nat {
    if s.tmr < |env.trace| then s.tmr + 1 else s.tmr
  }

  /** The page-in counter lies between the faults of demand paging before and after the
      line the simulation stands at. */
  lemma {:induction false} CounterAtLine(env: Env, policy: Policy, pid: nat, s: State)
    requires Start(env, policy) && Inv(env, s) && OnePid(env.trace, pid) && Refines(env, policy, pid, s)
    ensures s.tmr <= NextLine(env, s) <= |env.trace|
    ensures Plain(env, policy, s.tmr).faults <= s.tpi <= Plain(env, policy, NextLine(env, s)).faults
  {
    hide Start, Plain, MemOk, LoadPage, NotifyAccess;
    if s.tmr < |env.trace| {
      PlainNext(env, policy, s.tmr);
      if Queued(env, policy, pid, s, s.tmr) {
        HeadsOk(env, s);
        assert !Resident(s.frames, Refs(env.trace)[s.tmr]);
      }
    }
  }

  /** Between any two states of a one-process run under LRU or FIFO, page-ins grow by at most
      one for each page named by the lines gone through, if these are at most K pages. */
  lemma {:induction false} StretchBound(env: Env, d: Discipline, pid: nat, m: nat, n: nat)
    requires Start(env, PolicyOf(d, [])) && OnePid(env.trace, pid)
    ensures var b := Begin(env, PolicyOf(d, []));
      var s, t := Run(env, b, m), Run(env, b, n);
      && NextLine(env, t) <= |env.trace|
      && (s.tmr <= NextLine(env, t) ==>
            var named := Named(Refs(env.trace)[s.tmr..NextLine(env, t)]);
            |named| <= env.size ==> t.tpi <= s.tpi + |named|)
  {
    hide Start, Begin, Run, OnePid, Refines, Timed, Plain, Inv, Refs, Named;
    var p := PolicyOf(d, []);
    var s, t := Run(env, Begin(env, p), m), Run(env, Begin(env, p), n);
    RefinesDemandPaging(env, p, pid, m);
    RefinesDemandPaging(env, p, pid, n);
    CounterAtLine(env, p, pid, s);
    CounterAtLine(env, p, pid, t);
    if s.tmr <= NextLine(env, t) && |Named(Refs(env.trace)[s.tmr..NextLine(env, t)])| <= env.size {
      PlainStretch(env, d, s.tmr, NextLine(env, t));
    }
  }

  // ---- Clock ----------------------------------------------------------------

  /** Under Clock, lengthening a one-process trace by references to at most `|bits|` pages adds
      at most one page-in for each of them. */
  ghost predicate ClockKeepsBound(penalty: nat, bits: seq<bool>) {
    forall trace: seq<Line>, more: seq<Line>, pid: nat, s: State, t: State ::
      && OnePid(trace, pid) && OnePid(trace + more, pid) && |Named(Refs(more))| <= |bits|
      && Ends(Env(trace, penalty, |bits|), Clock(0, bits), s)
      && Ends(Env(trace + more, penalty, |bits|), Clock(0, bits), t)
      ==> t.tpi <= s.tpi + |Named(Refs(more))|
  }

  lemma {:induction false} RefsConcat(a: seq<Line>, b: seq<Line>)
    ensures Refs(a + b) == Refs(a) + Refs(b)
  {
  }

  lemma {:induction false} LinesConcat(a: seq<Page>, b: seq<Page>)
    ensures LinesOf(a + b) == LinesOf(a) + LinesOf(b)
  {
    forall i | 0 <= i < |a + b| ensures LinesOf(a + b)[i] == (LinesOf(a) + LinesOf(b))[i] {
      assert Refs(LinesOf(a + b))[i] == (a + b)[i];
      if i < |a| { assert Refs(LinesOf(a))[i] == a[i]; } else { assert Refs(LinesOf(b))[i - |a|] == b[i - |a|]; }
    }
  }

  lemma {:induction false} ClockFaults(trace: seq<Line>, penalty: nat, bits: seq<bool>, pid: nat, s: State)
    requires Ends(Env(trace, penalty, |bits|), Clock(0, bits), s) && OnePid(trace, pid)
    ensures bits != [] && MemOk(Cold(bits).frames, Cold(bits).policy)
    ensures s.tpi == DemandRun(Cold(bits), Refs(trace)).faults
  {
    hide OnePid, DemandRun, Refs, MemOk, Run, Begin, Halted;
    EndStatistics(Env(trace, penalty, |bits|), Clock(0, bits), pid, s);
  }

  lemma {:induction false} ClockStarts(env: Env, bits: seq<bool>)
    requires env.size == |bits| > 0 && env.penalty > 0
    ensures Start(env, Clock(0, bits))
  {
  }

  /** With K frames, three or more, lines that refer to K pages can cost K + 1 page-ins. */
  lemma {:induction false} ClockBreaksBound(penalty: nat, bits: seq<bool>)
    returns (trace: seq<Line>, more: seq<Line>, s: State, t: State)
    requires penalty > 0 && |bits| >= 3
    ensures OnePid(trace, 1) && OnePid(trace + more, 1) && |Named(Refs(more))| == |bits|
    ensures Ends(Env(trace, penalty, |bits|), Clock(0, bits), s)
    ensures Ends(Env(trace + more, penalty, |bits|), Clock(0, bits), t)
    ensures t.tpi == s.tpi + |bits| + 1
  {
    hide Ends, OnePid, DemandRun, Refs, MemOk, Cold, Start, LinesOf, Named;
    var before, stretch := LargeMemoryBreaksBound(bits);
    assert forall x :: x in before ==> x in before + stretch;
    LinesOfOne(before);
    LinesOfOne(before + stretch);
    LinesConcat(before, stretch);
    trace, more := LinesOf(before), LinesOf(stretch);
    RefsConcat(trace, more);
    var a, b := Env(trace, penalty, |bits|), Env(trace + more, penalty, |bits|);
    ClockStarts(a, bits);
    ClockStarts(b, bits);
    s := EndsSomewhere(a, Clock(0, bits), 1);
    t := EndsSomewhere(b, Clock(0, bits), 1);
    ClockFaults(trace, penalty, bits, 1, s);
    ClockFaults(trace + more, penalty, bits, 1, t);
  }

  /** In the simulator too, Clock keeps the bound exactly with one or two frames. */
  lemma {:induction false} ClockInTheSimulator(penalty: nat, bits: seq<bool>)
    requires penalty > 0 && bits != []
    ensures ClockKeepsBound(penalty, bits) <==> |bits| <= 2
  {
    hide Ends, OnePid, DemandRun, Refs, MemOk, Cold, Named;
    if |bits| >= 3 {
      var trace, more, s, t := ClockBreaksBound(penalty, bits);
    } else {
      ClockBoundExactly(bits);
      forall trace: seq<Line>, more: seq<Line>, pid: nat, s: State, t: State |
        && OnePid(trace, pid) && OnePid(trace + more, pid) && |Named(Refs(more))| <= |bits|
        && Ends(Env(trace, penalty, |bits|), Clock(0, bits), s)
        && Ends(Env(trace + more, penalty, |bits|), Clock(0, bits), t)
        ensures t.tpi <= s.tpi + |Named(Refs(more))|
      {
        ClockFaults(trace, penalty, bits, pid, s);
        ClockFaults(trace + more, penalty, bits, pid, t);
        RefsConcat(trace, more);
      }
    }
  }
}
