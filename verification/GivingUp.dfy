/** When the program gives up: a read past the end of the file, or a search for a free frame
    that finds none although one is free. */
module GivingUp {
  import opened Types
  import opened Replacement
  import opened Paging
  import opened Machine
  import opened Runs
  import opened Accounting
  import opened Termination
  import opened Memory
  import opened SingleProcess
  import opened Interleaving
  import S = ShortPenalty
  import T = Tracking

  /** A page has come in and the search for a free frame fails. */
  ghost predicate NoFrameFor(env: Env, s: State)
    requires Inv(env, s)
  {
    EventOf(env, s).Loaded? && OutOfBits(s.frames)
  }

  lemma {:induction false} UncoveredSize(env: Env, s: State)
    requires Inv(env, s) && NoFrameFor(env, s)
    ensures env.size % 32 != 0
  {
    hide EventOf, QueueInv, LinesInv, MemOk, OutOfBits, Owns;
    if env.size % 32 == 0 { EnoughBits(s.frames); }
  }

  // ---- when the program stops -----------------------------------------------

  /** After `n` iterations the loop is over, or the program about to give up. */
  ghost predicate StopsAt(env: Env, s: State, n: nat)
    requires Inv(env, s)
  {
    Halted(Run(env, s, n)) || NoFrameFor(env, Run(env, s, n))
  }

  ghost predicate Stops(env: Env, s: State)
    requires Inv(env, s)
  {
    exists n: nat :: StopsAt(env, s, n)
  }

  /** Every simulation stops, unless the penalty is two ticks and there are more than two
      processes. */
  lemma {:induction false} StopsUnlessTwo(env: Env, policy: Policy)
    requires Start(env, policy) && (env.penalty != 2 || |AllPids(Begin(env, policy))| <= 2)
    ensures Stops(env, Begin(env, policy))
  {
    hide Inv, Begin, Run, Halted, NoFrameFor, AllPids;
    if env.penalty == 2 { SimulationEnds(env, policy); } else { S.EndsUnlessTwo(env, policy); }
    var n: nat :| Halted(Run(env, Begin(env, policy), n));
    assert StopsAt(env, Begin(env, policy), n);
  }

  // ---- the search, on a trace -----------------------------------------------

  /** One process refers to one page more than there are frames with a bit. */
  function OneTooMany(size: nat): seq<Line> {
    seq(Covered(size) + 1, i requires 0 <= i => Line(1, i))
  }

  /** The first `i` frames hold pages 0 .. i-1. */
  function FilledTo(size: nat, i: nat): (f: Frames)
    ensures |f| == size
  {
    seq(size, k requires 0 <= k => if k < i then Some(Page(1, k)) else None)
  }

  ghost predicate Overfull(env: Env) { env.size % 32 != 0 && env.trace == OneTooMany(env.size) }

  lemma {:induction false} FillsNext(size: nat, i: nat)
    requires i < size
    ensures HasFree(FilledTo(size, i)) && FirstFree(FilledTo(size, i)) == i
    ensures !Resident(FilledTo(size, i), Page(1, i))
    ensures FilledTo(size, i + 1) == FilledTo(size, i)[i := Some(Page(1, i))]
  {
    FirstFreeIs(FilledTo(size, i), i);
  }

  /** Demand paging fills the frames in order. */
  lemma {:induction false} PlainFills(env: Env, policy: Policy, i: nat)
    requires Start(env, policy) && Overfull(env) && i <= Covered(env.size)
    ensures Plain(env, policy, i).frames == FilledTo(env.size, i)
  {
    hide Start, MemOk, DemandRun, Allocated, Covered;
    if i == 0 {
      assert Refs(env.trace)[..0] == [];
      NothingRun(env, policy);
      assert EmptyFrames(env.size) == FilledTo(env.size, 0);
    } else {
      PlainFills(env, policy, i - 1);
      PlainNext(env, policy, i - 1);
      FillsNext(env.size, i - 1);
      assert Refs(env.trace)[i - 1] == Page(1, i - 1);
      LoadKeepsMemOk(Plain(env, policy, i - 1).frames, Plain(env, policy, i - 1).policy, Page(1, i - 1));
    }
  }

  lemma {:induction false} NothingRun(env: Env, policy: Policy)
    requires Start(env, policy)
    ensures Plain(env, policy, 0).frames == EmptyFrames(env.size)
  {
    assert Refs(env.trace)[..0] == [];
  }

  /** Somewhere on the way from 0 hits to more than `c` is the hit after `c`. */
  lemma {:induction false} HitAfter(env: Env, s: State, c: nat, n: nat) returns (k: nat)
    requires Inv(env, s) && s.tmr <= c < Run(env, s, n).tmr
    ensures k < n && Run(env, s, k).tmr == c && EventOf(env, Run(env, s, k)).Touched?
  {
    hide Inv, Step, EventOf;
    assert Run(env, s, 0) == s;
    var t := Run(env, s, n - 1);
    StepEffect(env, t);
    if t.tmr > c {
      k := HitAfter(env, s, c, n - 1);
    } else {
      k := n - 1;
    }
  }

  /** A hit on a page that demand paging would load comes right after its delivery. */
  lemma {:induction false} LoadBefore(env: Env, policy: Policy, pid: nat, k: nat)
    requires Start(env, policy) && OnePid(env.trace, pid)
    requires var s := Run(env, Begin(env, policy), k);
      && s.tmr < |env.trace| && EventOf(env, s).Touched?
      && !Resident(Plain(env, policy, s.tmr).frames, Refs(env.trace)[s.tmr])
    ensures k > 0
    ensures var s, t := Run(env, Begin(env, policy), k - 1), Run(env, Begin(env, policy), k);
      EventOf(env, s).Loaded? && s.frames == Plain(env, policy, t.tmr).frames
  {
    hide Inv, Step, EventOf, Begin, Start, MemOk, LoadPage, Plain, Refs, AtLine, OnePid;
    var b := Begin(env, policy);
    var t := Run(env, b, k);
    RefinesDemandPaging(env, policy, pid, k);
    HitIsResident(env, t);
    NotReady(env, policy, pid, t);
    StepEffect(env, t);
    if k == 0 {
      BeginFacts(env, policy);
      NothingRun(env, policy);
    } else {
      var s := Run(env, b, k - 1);
      RefinesDemandPaging(env, policy, pid, k - 1);
      StepEffect(env, s);
      assert t == Step(env, s);
      if s.tmr < |env.trace| && Queued(env, policy, pid, s, s.tmr) {
        QueuedStep(env, policy, pid, s, s.tmr);
      } else if s.tmr < |env.trace| {
        ReadyStep(env, policy, pid, s, s.tmr);
      } else {
        FinishedStep(env, policy, s);
      }
    }
  }

  lemma {:induction false} NotReady(env: Env, policy: Policy, pid: nat, t: State)
    requires Start(env, policy) && OnePid(env.trace, pid) && t.tmr < |env.trace|
    requires t.runnable != [] && CanRead(env, t) && Resident(t.frames, NextPage(env, t))
    requires !Resident(Plain(env, policy, t.tmr).frames, Refs(env.trace)[t.tmr])
    ensures !Ready(env, policy, pid, t, t.tmr)
  {
    hide Start, Plain, MemOk, Reading, Resident, OnePid, Refs;
    if Reading(env, pid, t, t.tmr) { ReadsLine(env, pid, t, t.tmr); }
  }

  lemma {:induction false} HitIsResident(env: Env, s: State)
    requires Inv(env, s) && EventOf(env, s).Touched?
    ensures s.runnable != [] && CanRead(env, s) && Resident(s.frames, NextPage(env, s))
  {
    hide MemoryInv, QueueInv, LinesInv, Resident;
    HeadsOk(env, s);
  }

  lemma {:induction false} OverfullRefs(env: Env)
    requires Overfull(env)
    ensures OnePid(env.trace, 1) && |env.trace| == Covered(env.size) + 1 && Covered(env.size) < env.size
    ensures Refs(env.trace)[Covered(env.size)] == Page(1, Covered(env.size))
    ensures forall i :: 0 <= i < |env.trace| ==> env.trace[i].pid != 0
  {
    hide Covered;
  }

  lemma {:induction false} FilledFails(size: nat)
    requires size % 32 != 0
    ensures OutOfBits(FilledTo(size, Covered(size)))
  {
    hide Covered;
    FillsNext(size, Covered(size));
  }

  /** With a number of frames that is not a multiple of 32 the program gives up on that trace. */
  lemma {:induction false} SearchFails(env: Env, policy: Policy) returns (k: nat)
    requires Start(env, policy) && Overfull(env)
    ensures NoFrameFor(env, Run(env, Begin(env, policy), k))
  {
    hide Inv, Step, EventOf, Begin, Run, Start, MemOk, Plain, Refs, OnePid, Covered, OutOfBits, Halted, Overfull;
    var b, c := Begin(env, policy), Covered(env.size);
    BeginFacts(env, policy);
    OverfullRefs(env);
    OneProcessResult(env, policy, 1, 0);
    var m: nat :| Halted(Run(env, b, m));
    OneProcessResult(env, policy, 1, m);
    var h := HitAfter(env, b, c, m);
    PlainFills(env, policy, c);
    SizeOf(env);
    FillsNext(env.size, c);
    LoadBefore(env, policy, 1, h);
    FilledFails(env.size);
    k := h - 1;
  }

  lemma {:induction false} SizeOf(env: Env)
    requires Overfull(env)
    ensures env.size % 32 != 0
  {
  }

  // ---- exactly when ---------------------------------------------------------

  ghost predicate GoodPids(trace: seq<Line>) {
    forall i :: 0 <= i < |trace| ==> trace[i].pid != 0
  }

  /** No trace makes the program give up, in either way. */
  ghost predicate NeverGivesUp(penalty: nat, size: nat, policy: Policy)
    requires penalty > 0 && size > 0 && MemOk(EmptyFrames(size), policy)
  {
    forall trace: seq<Line>, n: nat :: GoodPids(trace) ==>
      GoesOn(Env(trace, penalty, size), Begin(Env(trace, penalty, size), policy), n)
  }

  /** After `n` iterations the program has not given up, and is not about to. */
  ghost predicate GoesOn(env: Env, s: State, n: nat)
    requires Inv(env, s)
  {
    !Run(env, s, n).aborted && !NoFrameFor(env, Run(env, s, n))
  }

  /** Every trace is simulated without giving up if and only if the penalty is one tick and the
      number of frames a multiple of 32. */
  lemma {:induction false} GivesUpExactly(penalty: nat, size: nat, policy: Policy)
    requires penalty > 0 && size > 0 && MemOk(EmptyFrames(size), policy)
    ensures NeverGivesUp(penalty, size, policy) <==> penalty == 1 && size % 32 == 0
  {
    hide Inv, Begin, Run, MemOk, T.Settled, T.OnTrack, T.NoneOvertakes, S.OneInFlight, NoFrameFor;
    if size % 32 != 0 {
      var env := Env(OneTooMany(size), penalty, size);
      OverfullRefs(env);
      var k := SearchFails(env, policy);
      assert GoodPids(env.trace) && !GoesOn(env, Begin(env, policy), k);
    } else if penalty == 1 {
      forall trace: seq<Line>, n: nat | GoodPids(trace)
        ensures GoesOn(Env(trace, penalty, size), Begin(Env(trace, penalty, size), policy), n)
      {
        var env := Env(trace, penalty, size);
        S.NeverOvertaken(env, policy, n);
        T.LineByLine(env, policy, n);
        var s := Run(env, Begin(env, policy), n);
        if NoFrameFor(env, s) { UncoveredSize(env, s); }
      }
    } else {
      var env := Env(Overtaken(penalty), penalty, size);
      InterleavedTraceAborts(env, policy);
      assert GoodPids(env.trace) && !GoesOn(env, Begin(env, policy), Lead(penalty) + penalty + 2);
    }
  }
}
