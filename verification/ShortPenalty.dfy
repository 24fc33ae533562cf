/** Penalties of one and of two ticks, which leave the disk no time to fall behind.  With one
    tick every trace is simulated line by line, to the end.  With two the loop can go on
    for ever. */
module ShortPenalty {
  import opened Types
  import opened Replacement
  import opened ProcessModel
  import opened Machine
  import opened MachineInvariant
  import opened Runs
  import opened Accounting
  import opened Termination
  import opened Tracking

  // ---- one tick -------------------------------------------------------------

  /** The disk serves at most one process, and that is the one that ran last. */
  ghost predicate OneInFlight(s: State) {
    s.blocked != [] ==> |s.blocked| == 1 && s.current == Some(s.blocked[0].pid)
  }

  /** With a one-tick penalty whatever is queued is delivered at once. */
  lemma {:induction false} DeliveredAtOnce(env: Env, s: State)
    requires Inv(env, s) && env.penalty == 1 && !Halted(s)
    ensures EventOf(env, s).Loaded? <==> s.blocked != []
    ensures !EventOf(env, s).Skipped?
  {
    hide MemOk, LinesInv, Owns, AllPids, SortedByPos, CursorOk, Waiting;
  }

  lemma {:induction false} OneInFlightStep(env: Env, s: State)
    requires Inv(env, s) && env.penalty == 1 && OneInFlight(s)
    ensures OneInFlight(Step(env, s))
  {
    hide Inv, Step, EventOf, Ticked;
    StepEffect(env, s);
    if !Halted(s) {
      DeliveredAtOnce(env, s);
      if EventOf(env, s).Loaded? { LoadShape(env, s); }
      if EventOf(env, s).Faulted? {
        FaultShape(env, s);
        NoneTicked();
      }
      if EventOf(env, s).Touched? {
        TouchShape(env, s);
        NoneTicked();
      }
      if EventOf(env, s).Stuck? { NoneTicked(); }
    }
  }

  lemma {:induction false} NoneTicked()
    ensures Ticked([]) == []
  {
  }

  lemma {:induction false} NoOvertaking(env: Env, s: State)
    requires Inv(env, s) && Settled(env, s) && OneInFlight(s)
    ensures !Overtakes(env, s)
  {
    hide Inv, EventOf, Settled;
    if EventOf(env, s).Loaded? && s.runnable != [] {
      LoadShape(env, s);
      OtherLine(env, s);
    }
  }

  /** With a one-tick penalty no delivery ever overtakes. */
  lemma {:induction false} NeverOvertaken(env: Env, policy: Policy, n: nat)
    requires Start(env, policy) && env.penalty == 1
    ensures var b := Begin(env, policy);
      NoneOvertakes(env, b, n) && OneInFlight(Run(env, b, n)) && Settled(env, Run(env, b, n)) && OnTrack(Run(env, b, n))
  {
    hide Inv, Step, Begin, Settled, OnTrack, Overtakes, OnTrackUpTo, NoneOvertakes, Start;
    var b := Begin(env, policy);
    BeginFacts(env, policy);
    BeginOnTrack(env, policy);
    assert Run(env, b, 0) == b;
    if n == 0 {
      NoneYet(env, b);
    } else {
      NeverOvertaken(env, policy, n - 1);
      var t := Run(env, b, n - 1);
      NoOvertaking(env, t);
      OneIterationMore(env, b, n - 1);
      OneInFlightStep(env, t);
      TrackStep(env, t);
    }
  }

  lemma {:induction false} NoneYet(env: Env, s: State)
    requires Inv(env, s)
    ensures NoneOvertakes(env, s, 0)
  {
    hide Inv;
  }

  // ---- one tick: the loop ends ----------------------------------------------

  /** How many iterations can pass before a hit. */
  ghost function Stage(env: Env, s: State): (n: nat)
    requires Inv(env, s)
    ensures n <= 4
  {
    if s.blocked != [] then
      if s.runnable == [] || s.blocked[0].currentPos < s.runnable[0].currentPos then 1 else 3
    else if s.runnable == [] || EventOf(env, s).Touched? then 0
    else if s.current == Some(s.runnable[0].pid) then 4
    else 2
  }

  /** The resumed process stands at the front: it will hit. */
  lemma {:induction false} FrontHits(env: Env, s: State)
    requires Inv(env, s) && Settled(env, s) && EventOf(env, s).Loaded? && |s.blocked| == 1
    requires s.runnable == [] || s.blocked[0].currentPos < s.runnable[0].currentPos
    ensures var t := Step(env, s); t.blocked == [] && t.runnable != [] && Inv(env, t) && EventOf(env, t).Touched?
  {
    hide Inv, Step, EventOf, EnqueuePriority, Settled, Resident;
    LoadShape(env, s);
    StepEffect(env, s);
    StepKeepsInv(env, s);
    var t, p := Step(env, s), s.blocked[0].(waitTime := 0, waitingOnPage := None);
    if s.runnable == [] { AloneInserted(p); } else { InsertedRest(p, s.runnable); }
    HeadAwaits(env, s);
    HitAhead(env, t);
  }

  lemma {:induction false} HeadAwaits(env: Env, s: State)
    requires Inv(env, s) && s.blocked != []
    ensures Waiting(env, s.frames, s.blocked[0])
  {
    hide MemOk, LinesInv, Owns, AllPids, SortedByPos, CursorOk, Waiting;
    HeadsOk(env, s);
  }

  lemma {:induction false} HitAhead(env: Env, s: State)
    requires Inv(env, s) && !s.aborted && s.blocked == [] && s.runnable != [] && CanRead(env, s)
    ensures EventOf(env, s).Touched? <==> Resident(s.frames, NextPage(env, s))
  {
    hide MemOk, LinesInv, Owns, AllPids, SortedByPos, CursorOk, Waiting, Resident;
  }

  /** The next in the queue saved a position strictly behind the head's. */
  lemma {:induction false} NextIsFurther(env: Env, s: State)
    requires Inv(env, s) && Settled(env, s) && OnTrack(s) && |s.runnable| > 1
    requires s.current != Some(s.runnable[0].pid)
    ensures s.runnable[0].currentPos < s.runnable[1].currentPos
  {
    hide MemOk, LinesInv, Owns, AllPids, Waiting, LineAt;
    var h, x := s.runnable[0], s.runnable[1];
    assert h in s.runnable && x in s.runnable && x in s.runnable[1..];
    OwnLine(env, h);
    OwnLine(env, x);
    HeadIsAlone(env, s, x);
  }

  lemma {:induction false} StageFalls(env: Env, s: State)
    requires Inv(env, s) && Settled(env, s) && OnTrack(s) && OneInFlight(s) && env.penalty == 1 && !Halted(s)
    ensures Inv(env, Step(env, s))
    ensures EventOf(env, s).Touched? || Stage(env, Step(env, s)) < Stage(env, s)
  {
    hide Inv, Step, EventOf, Settled, OnTrack, EnqueuePriority, Ticked;
    StepKeepsInv(env, s);
    StepEffect(env, s);
    DeliveredAtOnce(env, s);
    NeverStuck(env, s);
    var t := Step(env, s);
    if EventOf(env, s).Loaded? {
      LoadShape(env, s);
      if s.runnable == [] || s.blocked[0].currentPos < s.runnable[0].currentPos {
        FrontHits(env, s);
      } else {
        OtherLine(env, s);
        InsertedRest(s.blocked[0].(waitTime := 0, waitingOnPage := None), s.runnable);
      }
    } else if EventOf(env, s).Faulted? {
      FaultShape(env, s);
      NoneTicked();
      if |s.runnable| > 1 && s.current != Some(s.runnable[0].pid) { NextIsFurther(env, s); }
    }
  }

  ghost function OneTickMeasure(env: Env, s: State): nat
    requires Inv(env, s)
  {
    5 * LinesToRun(env, s) + Stage(env, s)
  }

  lemma {:induction false} OneTickProgress(env: Env, s: State)
    requires Inv(env, s) && Settled(env, s) && OnTrack(s) && OneInFlight(s) && env.penalty == 1 && !Halted(s)
    ensures Inv(env, Step(env, s)) && OneTickMeasure(env, Step(env, s)) < OneTickMeasure(env, s)
  {
    hide Inv, Step, EventOf, Settled, OnTrack, Stage;
    StageFalls(env, s);
    StepEffect(env, s);
    HitsWithinTrace(env, s);
    HitsWithinTrace(env, Step(env, s));
    DeliveredAtOnce(env, s);
    NeverStuck(env, s);
  }

  lemma {:induction false} OneTickEnds(env: Env, s: State)
    requires Inv(env, s) && Settled(env, s) && OnTrack(s) && OneInFlight(s) && env.penalty == 1
    ensures exists n: nat :: Halted(Run(env, s, n))
    decreases OneTickMeasure(env, s)
  {
    hide Inv, Step, Settled, OnTrack, OneTickMeasure, Halted, OneInFlight, Overtakes;
    assert Run(env, s, 0) == s;
    if !Halted(s) {
      OneTickProgress(env, s);
      NoOvertaking(env, s);
      TrackStep(env, s);
      OneInFlightStep(env, s);
      var t := Step(env, s);
      OneTickEnds(env, t);
      var n: nat :| Halted(Run(env, t, n));
      assert Run(env, s, 1) == t;
      RunAdd(env, s, 1, n);
      assert Halted(Run(env, s, 1 + n));
    }
  }

  /** The simulation of every trace, under every policy and with any number of processes,
      ends unless the penalty is two ticks. */
  lemma {:induction false} EndsUnlessTwo(env: Env, policy: Policy)
    requires Start(env, policy) && env.penalty != 2
    ensures exists n: nat :: Halted(Run(env, Begin(env, policy), n))
  {
    hide Inv, Begin, Settled, OnTrack, Halted, OneInFlight, AllPids, Run;
    if env.penalty == 1 {
      OneTickAtStart(env, policy);
      OneTickEnds(env, Begin(env, policy));
    } else {
      PositivePenalty(env, policy);
      SimulationEnds(env, policy);
    }
  }

  lemma {:induction false} PositivePenalty(env: Env, policy: Policy)
    requires Start(env, policy)
    ensures env.penalty > 0
  {
  }

  lemma {:induction false} OneTickAtStart(env: Env, policy: Policy)
    requires Start(env, policy)
    ensures var b := Begin(env, policy); Settled(env, b) && OnTrack(b) && OneInFlight(b)
  {
    hide Inv, Begin, Settled, OnTrack, Start;
    BeginFacts(env, policy);
    BeginOnTrack(env, policy);
  }
}
