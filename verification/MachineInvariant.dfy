/** Every iteration of the loop keeps the invariant, for every policy and every trace. */
module MachineInvariant {
  import opened Types
  import opened IntervalTree
  import opened Replacement
  import opened ProcessModel
  import opened TraceModel
  import opened Machine

  // ---- queues ---------------------------------------------------------------

  lemma {:induction false} Members<T>(q: seq<T>, x: T)
    requires q != []
    ensures x in q <==> x == q[0] || x in q[1..]
  {
    assert q == [q[0]] + q[1..];
  }

  lemma {:induction false} HeadPids(q: seq<Proc>)
    requires q != []
    ensures multiset(Pids(q)) == multiset{q[0].pid} + multiset(Pids(q[1..]))
  {
    assert Pids(q) == [q[0].pid] + Pids(q[1..]);
  }

  lemma {:induction false} SnocPids(q: seq<Proc>, p: Proc)
    ensures multiset(Pids(q + [p])) == multiset(Pids(q)) + multiset{p.pid}
  {
    assert Pids(q + [p]) == Pids(q) + [p.pid];
  }

  lemma {:induction false} ReplaceHead(q: seq<Proc>, p: Proc, x: Proc)
    requires q != []
    ensures q[0 := p] == [p] + q[1..]
    ensures x in q[0 := p] <==> x == p || x in q[1..]
    ensures p.pid == q[0].pid ==> Pids(q[0 := p]) == Pids(q)
  {
    assert q[0 := p] == [p] + q[1..];
  }

  lemma {:induction false} ReplaceHeadLines(q: seq<Proc>, p: Proc)
    requires q != [] && CursorOk(p) && forall x :: x in q ==> CursorOk(x)
    ensures forall x :: x in q[0 := p] ==> CursorOk(x)
    ensures TotalLines(q[0 := p]) == LinesLeft(p) + TotalLines(q[1..])
  {
    forall x ensures x in q[0 := p] ==> x == p || x in q { ReplaceHead(q, p, x); Members(q, x); }
    assert q[0 := p][1..] == q[1..];
  }

  /** Owners stay owners when the head of a queue changes but keeps its pid and pages. */
  lemma {:induction false} OwnsReplaceHead(q: seq<Proc>, p: Proc, pg: Page)
    requires q != [] && p.pid == q[0].pid && q[0].pageTable <= p.pageTable && Owns(q, pg)
    ensures Owns(q[0 := p], pg)
  {
    var o :| o in q && o.pid == pg.pid && pg.vpn in o.pageTable;
    Members(q, o);
    ReplaceHead(q, p, p);
    ReplaceHead(q, p, o);
  }

  // ---- the tick -------------------------------------------------------------

  lemma {:induction false} TickCore(env: Env, s: State)
    requires Inv(env, s)
    ensures Core(env, Tick(s)) && AllPids(Tick(s)) == AllPids(s)
  {
    hide MemOk, Resident, Allocated, SortedByPos, Chain, LastHigh, Lines;
    if s.blocked != [] {
      HeadsOk(env, s);
      var p := s.blocked[0].(waitTime := s.blocked[0].waitTime - 1);
      var t := Tick(s);
      assert t.blocked == s.blocked[0 := p];
      ReplaceHead(s.blocked, p, p);
      ReplaceHeadLines(s.blocked, p);
      forall x | x in t.blocked ensures CursorOk(x) && Waiting(env, t.frames, x) {
        ReplaceHead(s.blocked, p, x);
        Members(s.blocked, x);
      }
      forall pg | Resident(t.frames, pg) ensures Owns(t.runnable, pg) || Owns(t.blocked, pg) {
        if Owns(s.blocked, pg) { OwnsReplaceHead(s.blocked, p, pg); }
      }
    }
  }

  // ---- completion -----------------------------------------------------------

  lemma {:induction false} CompleteMemory(env: Env, t: State)
    requires Core(env, t) && t.blocked != [] && Waiting(env, t.frames, t.blocked[0])
    ensures MemoryInv(env, Complete(t))
  {
    var p0 := t.blocked[0];
    var p := p0.(waitingOnPage := None);
    var u := Complete(t);
    LoadKeepsMemOk(t.frames, t.policy, p0.waitingOnPage.value);
    EnqueueMembers(p, t.runnable, p);
    forall pg | Resident(u.frames, pg) ensures Owns(u.runnable, pg) || Owns(u.blocked, pg) {
      if pg == p0.waitingOnPage.value {
        assert Owns(u.runnable, pg);
      } else if Owns(t.runnable, pg) {
        var o :| o in t.runnable && o.pid == pg.pid && pg.vpn in o.pageTable;
        EnqueueMembers(p, t.runnable, o);
      } else {
        var o :| o in t.blocked && o.pid == pg.pid && pg.vpn in o.pageTable;
        Members(t.blocked, o);
      }
    }
  }

  /** Loading one process's page leaves the pages other processes wait for out of memory. */
  lemma {:induction false} StillWaiting(env: Env, t: State, x: Proc)
    requires Core(env, t) && t.blocked != [] && Waiting(env, t.frames, t.blocked[0]) && x in t.blocked[1..]
    ensures Waiting(env, Complete(t).frames, x)
  {
    hide MemOk, LoadPage, LoadFrame, EnqueuePriority, SortedByPos, CursorOk, Owns, LinesInv, NoSharing;
    Members(t.blocked, x);
    var p := t.blocked[0];
    LoadKeepsMemOk(t.frames, t.policy, p.waitingOnPage.value);
    HeadPids(t.blocked);
    assert x.pid in Pids(t.blocked[1..]) by {
      var i :| 0 <= i < |t.blocked[1..]| && t.blocked[1..][i] == x;
      assert Pids(t.blocked[1..])[i] == x.pid;
    }
    assert AllPids(t)[p.pid] <= 1;
  }

  lemma {:induction false} CompletePids(env: Env, t: State)
    requires Core(env, t) && t.blocked != [] && Waiting(env, t.frames, t.blocked[0])
    ensures AllPids(Complete(t)) == AllPids(t) && SortedByPos(Complete(t).runnable)
  {
    var p := t.blocked[0].(waitingOnPage := None);
    HeadPids(t.blocked);
    EnqueuePids(p, t.runnable);
    EnqueueKeepsSorted(p, t.runnable);
  }

  lemma {:induction false} CompleteCore(env: Env, t: State)
    requires Core(env, t) && t.blocked != [] && Waiting(env, t.frames, t.blocked[0]) && t.blocked[0].waitTime == 0
    ensures Core(env, Complete(t)) && AllPids(Complete(t)) == AllPids(t)
  {
    CompleteMemory(env, t);
    CompletePids(env, t);
    HeadsOk(env, t);
    var p := t.blocked[0].(waitingOnPage := None);
    var u := Complete(t);
    forall x | x in u.runnable ensures CursorOk(x) && x.waitingOnPage == None && x.waitTime == 0 {
      EnqueueMembers(p, t.runnable, x);
    }
    forall x | x in u.blocked ensures CursorOk(x) && Waiting(env, u.frames, x) {
      Members(t.blocked, x);
      StillWaiting(env, t, x);
    }
    assert QueueInv(env, u);
    assert LinesInv(env, u) by { EnqueueTotalLines(p, t.runnable); }
  }

  // ---- reading a reference --------------------------------------------------

  lemma {:induction false} FetchCore(env: Env, t: State)
    requires Core(env, t) && t.runnable != [] && CanRead(env, t)
    ensures Core(env, Fetch(env, t)) && AllPids(Fetch(env, t)) == AllPids(t)
  {
    HeadsOk(env, t);
    var u := Fetch(env, t);
    var p := u.runnable[0];
    assert u.runnable == t.runnable[0 := p];
    ReplaceHead(t.runnable, p, p);
    ReplaceHeadLines(t.runnable, p);
    forall x | x in u.runnable ensures CursorOk(x) && x.waitingOnPage == None && x.waitTime == 0 {
      ReplaceHead(t.runnable, p, x);
      Members(t.runnable, x);
    }
    forall pg | Resident(u.frames, pg) ensures Owns(u.runnable, pg) || Owns(u.blocked, pg) {
      if Owns(t.runnable, pg) { OwnsReplaceHead(t.runnable, p, pg); }
    }
  }

  // ---- a miss ---------------------------------------------------------------

  lemma {:induction false} BlockMemory(env: Env, u: State, p: Proc, m: State)
    requires MemoryInv(env, u) && u.runnable != []
    requires p.pid == u.runnable[0].pid && p.pageTable == u.runnable[0].pageTable
    requires m.frames == u.frames && m.policy == u.policy
    requires m.runnable == u.runnable[1..] && m.blocked == u.blocked + [p]
    ensures MemoryInv(env, m)
  {
    forall pg | Resident(m.frames, pg) ensures Owns(m.runnable, pg) || Owns(m.blocked, pg) {
      if Owns(u.runnable, pg) {
        var o :| o in u.runnable && o.pid == pg.pid && pg.vpn in o.pageTable;
        Members(u.runnable, o);
        assert p in m.blocked;
      } else {
        var o :| o in u.blocked && o.pid == pg.pid && pg.vpn in o.pageTable;
        assert o in m.blocked;
      }
    }
  }

  lemma {:induction false} BlockPids(u: State, p: Proc, m: State)
    requires u.runnable != [] && p.pid == u.runnable[0].pid
    requires m.runnable == u.runnable[1..] && m.blocked == u.blocked + [p] && m.finished == u.finished
    ensures AllPids(m) == AllPids(u)
  {
    HeadPids(u.runnable);
    SnocPids(u.blocked, p);
  }

  lemma {:induction false} BlockQueues(env: Env, u: State, p: Proc, m: State)
    requires QueueInv(env, u) && LinesInv(env, u) && u.runnable != []
    requires p.pid == u.runnable[0].pid && CursorOk(p) && LinesLeft(p) == LinesLeft(u.runnable[0])
    requires Waiting(env, u.frames, p)
    requires m.frames == u.frames && m.tmr == u.tmr && m.finished == u.finished
    requires m.runnable == u.runnable[1..] && m.blocked == u.blocked + [p]
    ensures QueueInv(env, m) && LinesInv(env, m)
  {
    BlockPids(u, p, m);
    forall x | x in m.runnable ensures x in u.runnable { Members(u.runnable, x); }
    forall x | x in m.blocked ensures x in u.blocked || x == p { }
    BlockLines(u.blocked, p);
  }

  lemma {:induction false} BlockLines(q: seq<Proc>, p: Proc)
    requires CursorOk(p) && forall x :: x in q ==> CursorOk(x)
    ensures forall x :: x in q + [p] ==> CursorOk(x)
    ensures TotalLines(q + [p]) == TotalLines(q) + LinesLeft(p)
  {
    TotalLinesConcat(q, [p]);
    assert TotalLines([p]) == LinesLeft(p) + TotalLines([]);
  }

  lemma {:induction false} MissCore(env: Env, t: State)
    requires Core(env, t) && t.runnable != [] && CanRead(env, t) && !Resident(t.frames, NextPage(env, t))
    ensures var m := Miss(env, Fetch(env, t), NextPage(env, t), ReadPos(t));
      Core(env, m) && AllPids(m) == AllPids(t)
  {
    FetchCore(env, t);
    var u := Fetch(env, t);
    HeadsOk(env, u);
    var p := u.runnable[0].(waitTime := env.penalty, waitingOnPage := Some(NextPage(env, t)), currentPos := ReadPos(t));
    var m := Miss(env, u, NextPage(env, t), ReadPos(t));
    BlockMemory(env, u, p, m);
    BlockPids(u, p, m);
    BlockQueues(env, u, p, m);
  }

  // ---- a hit ----------------------------------------------------------------

  /** The touched state: the statistics and the policy know about the hit, the cursor has
      not moved yet. */
  ghost predicate Touching(env: Env, u: State) {
    && u.runnable != [] && MemoryInv(env, u) && QueueInv(env, u)
    && TotalLines(u.runnable) + TotalLines(u.blocked) + u.tmr == |env.trace| + 1
  }

  /** The head's cursor moves on, wherever it re-enters the runnable queue. */
  lemma {:induction false} MoveMemory(env: Env, u: State, q: Proc, m: State)
    requires MemoryInv(env, u) && u.runnable != []
    requires q.pid == u.runnable[0].pid && q.pageTable == u.runnable[0].pageTable
    requires m.frames == u.frames && m.policy == u.policy && m.blocked == u.blocked
    requires forall x :: x in m.runnable <==> x == q || x in u.runnable[1..]
    ensures MemoryInv(env, m)
  {
    forall pg | Resident(m.frames, pg) ensures Owns(m.runnable, pg) || Owns(m.blocked, pg) {
      if Owns(u.runnable, pg) {
        var o :| o in u.runnable && o.pid == pg.pid && pg.vpn in o.pageTable;
        Members(u.runnable, o);
        assert q in m.runnable;
      }
    }
  }

  lemma {:induction false} JumpCore(env: Env, u: State)
    requires Touching(env, u) && u.runnable[0].currInterval.Node?
    requires OnLastLineInInterval(u.runnable[0]) && HasIntervalsRemaining(u.runnable[0])
    ensures Core(env, Advance(u)) && AllPids(Advance(u)) == AllPids(u)
  {
    HeadsOk(env, u);
    var p := u.runnable[0];
    var q := JumpToNextInterval(p);
    var m := Advance(u);
    OneLinePerHit(p);
    forall x ensures x in m.runnable <==> x == q || x in u.runnable[1..] { EnqueueMembers(q, u.runnable[1..], x); }
    MoveMemory(env, u, q, m);
    HeadPids(u.runnable);
    EnqueuePids(q, u.runnable[1..]);
    EnqueueKeepsSorted(q, u.runnable[1..]);
    forall x | x in u.runnable[1..] ensures x in u.runnable { Members(u.runnable, x); }
    assert QueueInv(env, m);
    EnqueueTotalLines(q, u.runnable[1..]);
  }

  lemma {:induction false} NextLineCore(env: Env, u: State)
    requires Touching(env, u) && u.runnable[0].currInterval.Node? && HasLinesRemainingInInterval(u.runnable[0])
    ensures Core(env, Advance(u)) && AllPids(Advance(u)) == AllPids(u)
  {
    HeadsOk(env, u);
    var p := u.runnable[0];
    var q := p.(currentline := p.currentline + 1);
    var m := Advance(u);
    OneLinePerHit(p);
    assert m.runnable == u.runnable[0 := q];
    ReplaceHead(u.runnable, q, q);
    forall x ensures x in m.runnable <==> x == q || x in u.runnable[1..] { ReplaceHead(u.runnable, q, x); }
    MoveMemory(env, u, q, m);
    forall x | x in u.runnable[1..] ensures x in u.runnable { Members(u.runnable, x); }
    ReplaceHeadLines(u.runnable, q);
  }

  lemma {:induction false} DistinctFromHead(q: seq<Proc>, x: Proc)
    requires q != [] && x in q[1..] && multiset(Pids(q))[q[0].pid] <= 1
    ensures x.pid != q[0].pid
  {
    HeadPids(q);
    var i :| 0 <= i < |q[1..]| && q[1..][i] == x;
    assert Pids(q[1..])[i] == x.pid;
  }

  lemma {:induction false} PidsOfMember(q: seq<Proc>, x: Proc)
    requires x in q
    ensures x.pid in multiset(Pids(q))
  {
    var i :| 0 <= i < |q| && q[i] == x;
    assert Pids(q)[i] == x.pid;
  }

  /** No other process has the pid of the one at the head of the runnable queue. */
  lemma {:induction false} HeadIsAlone(env: Env, u: State, x: Proc)
    requires QueueInv(env, u) && u.runnable != [] && (x in u.runnable[1..] || x in u.blocked)
    ensures x.pid != u.runnable[0].pid
  {
    var pid := u.runnable[0].pid;
    assert AllPids(u)[pid] <= 1;
    if x in u.blocked { PidsOfMember(u.blocked, x); HeadPids(u.runnable); } else { DistinctFromHead(u.runnable, x); }
  }

  /** After a process has ended no frame holds a page of its, and every other process has
      in memory exactly what it had. */
  lemma {:induction false} QuitMemory(env: Env, u: State)
    requires u.runnable != [] && MemoryInv(env, u) && QueueInv(env, u)
    ensures MemoryInv(env, Quit(u))
    ensures forall pg :: Resident(Quit(u).frames, pg) <==> Resident(u.frames, pg) && pg.pid != u.runnable[0].pid
  {
    var p := u.runnable[0];
    var m := Quit(u);
    ForgetKeepsMemOk(u.frames, u.policy, PagesOf(p));
    forall pg ensures Resident(m.frames, pg) <==> Resident(u.frames, pg) && pg.pid != p.pid {
      ResidentClear(u.frames, PagesOf(p), pg);
      if Resident(u.frames, pg) { OwnerAmongOthers(env, u, pg); }
    }
    forall pg | Resident(m.frames, pg) ensures Owns(m.runnable, pg) || Owns(m.blocked, pg) {
      OwnerAmongOthers(env, u, pg);
    }
  }

  /** A resident page belongs to the head's page table, or to another live process. */
  lemma {:induction false} OwnerAmongOthers(env: Env, u: State, pg: Page)
    requires u.runnable != [] && MemoryInv(env, u) && QueueInv(env, u) && Resident(u.frames, pg)
    ensures if pg.pid == u.runnable[0].pid then pg in PagesOf(u.runnable[0])
            else Owns(u.runnable[1..], pg) || Owns(u.blocked, pg)
  {
    if Owns(u.blocked, pg) {
      var o :| o in u.blocked && o.pid == pg.pid && pg.vpn in o.pageTable;
      HeadIsAlone(env, u, o);
    } else {
      var o :| o in u.runnable && o.pid == pg.pid && pg.vpn in o.pageTable;
      Members(u.runnable, o);
      if o in u.runnable[1..] { HeadIsAlone(env, u, o); }
    }
  }

  lemma {:induction false} QuitPids(u: State)
    requires u.runnable != []
    ensures AllPids(Quit(u)) == AllPids(u)
  {
    HeadPids(u.runnable);
    assert multiset(u.finished + [u.runnable[0].pid]) == multiset(u.finished) + multiset{u.runnable[0].pid};
  }

  lemma {:induction false} QuitCore(env: Env, u: State)
    requires Touching(env, u) && u.runnable[0].currInterval.Node?
    requires !HasLinesRemainingInInterval(u.runnable[0]) && !HasIntervalsRemaining(u.runnable[0])
    ensures Core(env, Quit(u)) && AllPids(Quit(u)) == AllPids(u)
  {
    hide MemOk, Resident, Clear, Forget, Owns, Chain, AllPids, PagesOf;
    QuitMemory(env, u);
    HeadsOk(env, u);
    var m := Quit(u);
    OneLinePerHit(u.runnable[0]);
    QuitPids(u);
    forall x | x in m.runnable ensures x in u.runnable { Members(u.runnable, x); }
    assert QueueInv(env, m);
  }

  lemma {:induction false} AdvanceCore(env: Env, u: State)
    requires Touching(env, u) && u.runnable[0].currInterval.Node?
    ensures Core(env, Advance(u)) && AllPids(Advance(u)) == AllPids(u)
  {
    HeadsOk(env, u);
    var p := u.runnable[0];
    if OnLastLineInInterval(p) && HasIntervalsRemaining(p) {
      JumpCore(env, u);
    } else if HasLinesRemainingInInterval(p) {
      NextLineCore(env, u);
    } else {
      QuitCore(env, u);
    }
  }

  lemma {:induction false} CountHit(env: Env, u: State, pg: Page)
    requires Core(env, u) && u.runnable != [] && Resident(u.frames, pg)
    ensures var v := u.(tmr := u.tmr + 1, policy := NotifyAccess(u.policy, pg, FrameOf(u.frames, pg)));
      Touching(env, v) && AllPids(v) == AllPids(u)
  {
    hide MemOk, NotifyAccess;
    AccessKeepsMemOk(u.frames, u.policy, pg);
  }

  lemma {:induction false} HitCore(env: Env, t: State)
    requires Core(env, t) && t.runnable != [] && CanRead(env, t) && Resident(t.frames, NextPage(env, t))
    ensures t.runnable[0].currInterval.Node?
    ensures var m := Hit(Fetch(env, t), NextPage(env, t));
      Core(env, m) && AllPids(m) == AllPids(t)
  {
    hide MemOk, MemoryInv, QueueInv, LinesInv, Touching, AllPids, Advance, Resident;
    HeadsOk(env, t);
    FetchCore(env, t);
    var u := Fetch(env, t);
    var pg := NextPage(env, t);
    CountHit(env, u, pg);
    AdvanceCore(env, u.(tmr := u.tmr + 1, policy := NotifyAccess(u.policy, pg, FrameOf(u.frames, pg))));
  }

  // ---- the whole iteration --------------------------------------------------

  lemma {:induction false} AdvanceBlocked(u: State)
    requires u.runnable != [] && u.runnable[0].currInterval.Node?
    ensures Advance(u).blocked == u.blocked
  {
  }

  lemma {:induction false} ErrorCore(env: Env, t: State)
    requires Core(env, t)
    ensures t.runnable != [] ==> Core(env, ReadError(t)) && AllPids(ReadError(t)) == AllPids(t)
  {
    hide MemOk, Owns, SortedByPos, CursorOk, Waiting;
  }

  lemma {:induction false} StepCore(env: Env, s: State)
    requires Inv(env, s)
    ensures Core(env, Step(env, s)) && AllPids(Step(env, s)) == AllPids(s)
  {
    hide MemOk, MemoryInv, QueueInv, LinesInv, AllPids, Complete, FastForward, Hit, Miss, Fetch, ReadError, Waiting;
    HeadsOk(env, s);
    TickCore(env, s);
    var t := Tick(s);
    HeadsOk(env, t);
    ErrorCore(env, t);
    if Halted(s) {
    } else if Completes(s) {
      CompleteCore(env, t);
    } else if s.runnable == [] {
      var p := t.blocked[0].(waitTime := 1);
      SetTimerCore(env, t, p);
    } else if CanRead(env, t) {
      if Resident(t.frames, NextPage(env, t)) { HitCore(env, t); } else { MissCore(env, t); }
    }
  }

  lemma {:induction false} SetTimerCore(env: Env, t: State, p: Proc)
    requires Core(env, t) && t.blocked != [] && t.blocked[0].waitTime > 0 && p == t.blocked[0].(waitTime := 1)
    ensures Core(env, FastForward(t)) && AllPids(FastForward(t)) == AllPids(t)
  {
    HeadsOk(env, t);
    var u := FastForward(t);
    assert u.blocked == t.blocked[0 := p];
    ReplaceHead(t.blocked, p, p);
    ReplaceHeadLines(t.blocked, p);
    forall x | x in u.blocked ensures CursorOk(x) && Waiting(env, u.frames, x) {
      ReplaceHead(t.blocked, p, x);
      Members(t.blocked, x);
    }
    forall pg | Resident(u.frames, pg) ensures Owns(u.runnable, pg) || Owns(u.blocked, pg) {
      if Owns(t.blocked, pg) { OwnsReplaceHead(t.blocked, p, pg); }
    }
  }

  lemma {:induction false} StepTimers(env: Env, s: State)
    requires Inv(env, s)
    ensures Timers(env, Step(env, s).blocked)
  {
    HeadsOk(env, s);
    if !Halted(s) && !Completes(s) && s.runnable != [] { ExecuteTimers(env, s); }
  }

  lemma {:induction false} ExecuteTimers(env: Env, s: State)
    requires env.penalty > 0 && Timers(env, s.blocked) && !Completes(s)
    requires s.runnable != [] && s.runnable[0].currInterval.Node?
    ensures Timers(env, Execute(env, Tick(s)).blocked)
  {
    hide NotifyAccess, Advance, Allocated;
    var t := Tick(s);
    if CanRead(env, t) && Resident(t.frames, NextPage(env, t)) {
      var u, pg := Fetch(env, t), NextPage(env, t);
      AdvanceBlocked(u.(tmr := u.tmr + 1, policy := NotifyAccess(u.policy, pg, FrameOf(u.frames, pg))));
    }
  }

  /** One iteration keeps the invariant, and no process is created or lost: the three
      queues together hold the same pids as before. */
  lemma {:induction false} StepKeepsInv(env: Env, s: State)
    requires Inv(env, s)
    ensures Inv(env, Step(env, s)) && AllPids(Step(env, s)) == AllPids(s)
  {
    StepCore(env, s);
    StepTimers(env, s);
  }

  lemma {:induction false} InitInv(env: Env, policy: Policy)
    requires env.size > 0 && env.penalty > 0
    requires MemOk(EmptyFrames(env.size), policy)
    ensures Inv(env, Init(env, policy))
  {
    ParseCorrect(env.trace, |env.trace|);
    var s := Init(env, policy);
    forall x ensures AllPids(s)[x] <= 1 { DistinctPids(s.runnable, x); }
  }

  lemma {:induction false} DistinctPids(q: seq<Proc>, x: nat)
    requires forall i, j :: 0 <= i < j < |q| ==> q[i].pid != q[j].pid
    ensures multiset(Pids(q))[x] <= 1
  {
    if q != [] {
      HeadPids(q);
      DistinctPids(q[1..], x);
      forall i | 0 <= i < |q[1..]| ensures Pids(q[1..])[i] != q[0].pid { assert q[1..][i] == q[i + 1]; }
    }
  }

  // ---- process exit ---------------------------------------------------------

  /** The pages of other processes, in the same order. */
  function OthersOf(q: seq<Page>, pid: nat): seq<Page> {
    if q == [] then [] else (if q[0].pid == pid then [] else [q[0]]) + OthersOf(q[1..], pid)
  }

  lemma {:induction false} FilterIsOthers(q: seq<Page>, pid: nat, own: set<Page>)
    requires forall x :: x in q ==> (x in own <==> x.pid == pid)
    ensures Filter(q, own) == OthersOf(q, pid)
  {
    if q != [] { FilterIsOthers(q[1..], pid, own); }
  }

  ghost function OwnResident(f: Frames, pid: nat): set<Page> {
    set pg | pg in ResidentSet(f) && pg.pid == pid
  }

  /** What a process takes with it when it ends: its frames are emptied and no others, the
      count of frames in use and the eviction queue shrink by exactly its resident pages,
      and the other processes' pages keep their eviction order. */
  lemma {:induction false} ProcessExit(env: Env, u: State)
    requires u.runnable != [] && MemoryInv(env, u) && QueueInv(env, u)
    ensures var m := Quit(u); var pid := u.runnable[0].pid;
      && |m.frames| == |u.frames|
      && (forall i :: 0 <= i < |u.frames| ==>
            m.frames[i] == if u.frames[i].Some? && u.frames[i].value.pid == pid then None else u.frames[i])
      && Allocated(m.frames) == Allocated(u.frames) - |OwnResident(u.frames, pid)|
      && (u.policy.Queued() ==> m.policy.Queued() && m.policy.queue == OthersOf(u.policy.queue, pid)
                                && |m.policy.queue| == |u.policy.queue| - |OwnResident(u.frames, pid)|)
  {
    hide QueueInv, Allocated;
    var p, m := u.runnable[0], Quit(u);
    QuitMemory(env, u);
    forall pg | Resident(u.frames, pg) ensures pg in PagesOf(p) <==> pg.pid == p.pid { OwnerAmongOthers(env, u, pg); }
    forall i | 0 <= i < |u.frames| && u.frames[i].Some? ensures Resident(u.frames, u.frames[i].value) {
      assert u.frames[i] in u.frames;
    }
    ExitCounts(u.frames, m.frames, p.pid);
    if u.policy.Queued() {
      FilterIsOthers(u.policy.queue, p.pid, PagesOf(p));
      QueueLength(u.frames, u.policy);
      QueueLength(m.frames, m.policy);
    }
  }

  lemma {:induction false} ExitCounts(f: Frames, g: Frames, pid: nat)
    requires NoSharing(f) && NoSharing(g) && forall pg :: Resident(g, pg) <==> Resident(f, pg) && pg.pid != pid
    ensures Allocated(g) == Allocated(f) - |OwnResident(f, pid)|
  {
    AllocatedIsCardinality(f);
    AllocatedIsCardinality(g);
    forall pg ensures (pg in ResidentSet(f) <==> Resident(f, pg)) && (pg in ResidentSet(g) <==> Resident(g, pg)) {
      ResidentSetMembers(f, pg);
      ResidentSetMembers(g, pg);
    }
    assert ResidentSet(f) == ResidentSet(g) + OwnResident(f, pid);
    assert ResidentSet(g) !! OwnResident(f, pid);
  }
}
