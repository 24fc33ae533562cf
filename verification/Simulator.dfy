/** The simulator itself: the event loop over the process queues, the disk and memory,
    proved against the state machine of Machine.dfy. */
module Simulator {
  import opened Types
  import opened Replacement
  import opened ProcessModel
  import opened TraceModel
  import opened Machine
  import opened MachineInvariant
  import opened Runs
  import opened Accounting
  import opened GivingUp
  import opened Memory
  import opened Replacer
  import opened PageOps
  import P = Process
  import TraceParser

  /** The page tables of the processes in `q` list exactly the pages memory knows for them. */
  ghost predicate TablesMatch(q: seq<Proc>, known: set<Page>) {
    forall p, v :: p in q ==> (v in p.pageTable <==> Page(p.pid, v) in known)
  }

  class Simulator {
    const trace: seq<Line>
    const penalty: nat
    const memory: PhysicalMemory
    const replacement: ReplacementModule
    var time: nat
    var runnable: seq<Proc>
    var blocked: seq<Proc>
    var finished: seq<nat>
    var current: Option<nat>
    var cursor: nat
    var aborted: bool
    var outOfFrames: bool  // the program gave up looking for a free frame
    var tmu: nat  // the statistics: memory use and runnable ticks, accumulated,
    var trp: nat
    var tmr: nat  // memory references
    var tpi: nat  // page-ins

    function Environment(): Env { Env(trace, penalty, memory.memSize) }

    ghost function Abs(): State
      reads this, memory.memory, replacement, replacement.reflist
    {
      State(time, runnable, blocked, finished, current, cursor,
            memory.Frames(), replacement.Abs(), tmu, trp, tmr, tpi, aborted)
    }

    /** Memory and replacement module agree, and so do page tables and known pages. */
    ghost predicate Consistent()
      reads this, memory, memory.memory, memory.freelist, memory.pages.Values, replacement, replacement.reflist
    {
      && Agree(memory, replacement)
      && TablesMatch(runnable, memory.pages.Keys) && TablesMatch(blocked, memory.pages.Keys)
    }

    ghost function Footprint(): set<object>
      reads this, memory
    {
      {this, memory, memory.memory, memory.freelist, replacement, replacement.reflist} + memory.pages.Values
    }

    /** Memory, replacement module and statistics empty, after the first pass. */
    constructor (trace: seq<Line>, procs: seq<Proc>, size: nat, kind: Kind, penalty: nat, rand: nat -> nat)
      requires size > 0 && penalty > 0
      requires procs == Parse(trace, |trace|)
      ensures Consistent() && Environment() == Env(trace, penalty, size)
      ensures Abs() == Init(Environment(), replacement.Abs()) && Start(Environment(), replacement.Abs())
      ensures PolicyKind(replacement.Abs(), kind, rand) && fresh(Footprint()) && !outOfFrames
    {
      hide BitsAgree, Allocated, FramesOf, Parse, MemOk, Ids, EmptyFrames;
      this.trace, this.penalty := trace, penalty;
      memory := new PhysicalMemory(size);
      replacement := new ReplacementModule(kind, size, rand);
      time, runnable, blocked, finished, cursor, aborted := 0, procs, [], [], 0, false;
      tmu, trp, tmr, tpi, outOfFrames := 0, 0, 0, 0, false;
      current := if procs == [] then None else Some(procs[0].pid);
      new;
      EmptyTables(trace, procs);
      EmptyIsOk(memory.Frames(), replacement.Abs());
    }

    /** Clock, statistics and disk timer, at the top of every iteration. */
    method TickClock()
      requires Consistent() && (blocked != [] ==> blocked[0].waitTime > 0)
      modifies this`time, this`tmu, this`trp, this`blocked
      ensures Consistent() && Abs() == Tick(old(Abs()))
    {
      hide Agree, TablesMatch, Allocated, FramesOf, Ids;
      AgreeParts(memory, replacement);
      var alloc := memory.HowManyAllocPages();
      time := time + 1;
      tmu := tmu + alloc;
      trp := trp + if runnable != [] then 1 else 0;
      if blocked != [] {
        var p := blocked[0].(waitTime := blocked[0].waitTime - 1);
        HeadTables(blocked, p, memory.pages.Keys);
        blocked := blocked[0 := p];
      }
    }

    /** The head of the disk queue has its page: load it, evicting if needed, and resume.
        Nothing happens if the search for a free frame fails. */
    method FinishDiskIO() returns (ok: bool)
      requires Consistent() && MemOk(memory.Frames(), replacement.Abs())
      requires blocked != [] && Waiting(Environment(), memory.Frames(), blocked[0])
      modifies this`runnable, this`blocked, this`cursor
      modifies memory`numAllocated, memory.memory, memory.freelist, replacement, replacement.reflist,
          memory.pages.Values
      ensures Consistent() && memory.pages == old(memory.pages)
      ensures ok <==> !OutOfBits(old(memory.Frames()))
      ensures Abs() == if ok then Complete(old(Abs())) else old(Abs())
    {
      hide Agree, TablesMatch, Allocated, FramesOf, Ids, LoadPage, MemOk, EnqueuePriority, OutOfBits;
      var p := blocked[0];
      AwaitedKnown(Environment(), memory.Frames(), p, blocked, memory.pages.Keys);
      AgreeParts(memory, replacement);
      var v := memory.pages[p.waitingOnPage.value];
      InMemoryIsResident(memory, v);
      ok := LoadFromDisk(memory, replacement, v);
      if !ok { return; }
      p := p.(waitingOnPage := None);
      EnqueueTables(runnable, blocked, p, memory.pages.Keys);
      var queue := P.EnqueueByPos(p, runnable);
      runnable, blocked, cursor := queue, blocked[1..], p.currentPos;
    }

    /** Nothing can run: jump to one tick before the disk delivers. */
    method SkipAhead()
      requires Consistent() && blocked != [] && blocked[0].waitTime > 0
      modifies this`time, this`tmu, this`trp, this`blocked
      ensures Consistent() && Abs() == FastForward(old(Abs()))
    {
      hide Agree, TablesMatch, Allocated, FramesOf, Ids;
      AgreeParts(memory, replacement);
      var skip := blocked[0].waitTime - 1;
      var alloc := memory.HowManyAllocPages();
      var p := blocked[0].(waitTime := blocked[0].waitTime - skip);
      HeadTables(blocked, p, memory.pages.Keys);
      time := time + skip;
      tmu := tmu + alloc * skip;
      trp := trp + (if runnable != [] then 1 else 0) * skip;
      blocked := blocked[0 := p];
    }

    /** Reads the next line for the head process, from its own position unless it is still
        the current one, and finds or makes the record of the page referred to. */
    method FetchLine() returns (v: VPage, pos: nat)
      requires Consistent() && QueueInv(Environment(), Abs()) && runnable != [] && CanRead(Environment(), Abs())
      modifies this`current, this`cursor, this`runnable, memory`pages
      ensures Consistent() && Abs() == Fetch(Environment(), old(Abs()))
      ensures pos == ReadPos(old(Abs())) && v.Id() == NextPage(Environment(), old(Abs()))
      ensures v.Id() in memory.pages && memory.pages[v.Id()] == v
      ensures fresh(memory.pages.Values - old(memory.pages.Values))
    {
      hide Agree, TablesMatch, Allocated, FramesOf, Ids, QueueInv;
      var p := runnable[0];
      pos := if current == Some(p.pid) then cursor else p.currentPos;
      var vpn := trace[LineAt(pos)].vpn;
      var q := p.(pageTable := p.pageTable + {vpn});
      FetchTables(Environment(), Abs(), q, vpn, memory.pages.Keys);
      if Page(p.pid, vpn) in memory.pages {
        AgreeParts(memory, replacement);
        v := memory.pages[Page(p.pid, vpn)];
        assert memory.pages.Keys + {Page(p.pid, vpn)} == memory.pages.Keys;
      } else {
        ghost var known := memory.pages;
        v := NewPage(memory, replacement, p.pid, vpn);
        assert memory.pages.Keys == known.Keys + {Page(p.pid, vpn)};
        ValuesAdd(known, Page(p.pid, vpn), v);
      }
      current, cursor, runnable := Some(p.pid), PosAfterReading(LineAt(pos)), runnable[0 := q];
    }

    /** A miss: the head process queues for the disk. */
    method BlockHead(v: VPage, pos: nat)
      requires Consistent() && runnable != []
      modifies this`tpi, this`runnable, this`blocked
      ensures Consistent() && Abs() == Miss(Environment(), old(Abs()), v.Id(), pos)
    {
      hide Agree, TablesMatch, Allocated, FramesOf, Ids;
      var p := runnable[0].(waitTime := penalty, waitingOnPage := Some(v.Id()), currentPos := pos);
      BlockTables(runnable, blocked, p, memory.pages.Keys);
      tpi := tpi + 1;
      runnable, blocked := runnable[1..], blocked + [p];
    }

    /** The process has run its last line: free everything it has. */
    method EndProcess()
      requires Consistent() && QueueInv(Environment(), Abs()) && runnable != []
      modifies this`runnable, this`finished, this`current
      modifies memory`numAllocated, memory`pages, memory.memory, memory.freelist
      modifies replacement`queue, replacement`pages, memory.pages.Values
      ensures Consistent() && Abs() == Quit(old(Abs()))
      ensures memory.pages.Values <= old(memory.pages.Values)
    {
      hide Agree, TablesMatch, Allocated, FramesOf, Ids, QueueInv, Clear, Forget, PagesWith, PagesOf;
      var p := runnable[0];
      QuitTables(Environment(), Abs(), memory.pages.Keys);
      ghost var before := memory.pages;
      FreeAll(memory, replacement, p.pid, p.pageTable);
      FewerValues(before, PagesOf(p));
      assert memory.pages.Keys == before.Keys - PagesOf(p);
      runnable, finished, current := runnable[1..], finished + [p.pid], None;
    }

    /** After a hit: the next line, the next interval, or the end of the process. */
    method AdvanceHead()
      requires Consistent() && QueueInv(Environment(), Abs()) && runnable != [] && runnable[0].currInterval.Node?
      modifies this`runnable, this`finished, this`current, this`cursor
      modifies memory`numAllocated, memory`pages, memory.memory, memory.freelist
      modifies replacement`queue, replacement`pages, memory.pages.Values
      ensures Consistent() && Abs() == Advance(old(Abs()))
      ensures memory.pages.Values <= old(memory.pages.Values)
    {
      hide Agree, TablesMatch, Allocated, FramesOf, Ids, QueueInv, Quit, EnqueuePriority;
      var p := runnable[0];
      if OnLastLineInInterval(p) && HasIntervalsRemaining(p) {
        var q := JumpToNextInterval(p);
        RequeueTables(runnable, q, memory.pages.Keys);
        var queue := P.EnqueueByPos(q, runnable[1..]);
        runnable, cursor := queue, q.currentPos;
      } else if HasLinesRemainingInInterval(p) {
        var q := p.(currentline := p.currentline + 1);
        HeadTables(runnable, q, memory.pages.Keys);
        runnable := runnable[0 := q];
      } else {
        EndProcess();
      }
    }

    /** A hit: count it, tell the replacement module, and move on. */
    method HitPage(v: VPage)
      requires Consistent() && MemoryInv(Environment(), Abs()) && QueueInv(Environment(), Abs())
      requires runnable != [] && runnable[0].currInterval.Node?
      requires v.Id() in memory.pages && memory.pages[v.Id()] == v && v.inMemory
      modifies this`tmr, this`runnable, this`finished, this`current, this`cursor
      modifies memory`numAllocated, memory`pages, memory.memory, memory.freelist
      modifies replacement`queue, replacement`pages, replacement.reflist, memory.pages.Values
      ensures Resident(old(memory.Frames()), v.Id())
      ensures Consistent() && Abs() == Hit(old(Abs()), v.Id())
      ensures memory.pages.Values <= old(memory.pages.Values)
    {
      hide Agree, TablesMatch, Allocated, FramesOf, Ids, MemOk, Owns, QueueInv, NotifyAccess, Advance;
      TouchPage(memory, replacement, v);
      tmr := tmr + 1;
      SameQueues(Environment(), old(Abs()), Abs());
      AdvanceHead();
    }

    /** Simulates one reference of the process at the head of the runnable queue. */
    method RunReference()
      requires Consistent() && Core(Environment(), Abs()) && runnable != []
      requires runnable[0].currInterval.Node?
      modifies this`current, this`cursor, this`aborted, this`runnable, this`blocked, this`finished, this`tmr, this`tpi
      modifies memory`numAllocated, memory`pages, memory.memory, memory.freelist
      modifies replacement`queue, replacement`pages, replacement.reflist, memory.pages.Values
      ensures Consistent() && Abs() == Execute(Environment(), old(Abs()))
      ensures fresh(memory.pages.Values - old(memory.pages.Values))
    {
      hide Agree, TablesMatch, Allocated, FramesOf, Ids, MemOk, Owns, QueueInv, MemoryInv, LinesInv, Hit, Miss, Fetch;
      ghost var s := Abs();
      var pos := if current == Some(runnable[0].pid) then cursor else runnable[0].currentPos;
      if LineAt(pos) >= |trace| {
        // the read fails: the program gives up
        current, cursor, aborted := Some(runnable[0].pid), pos, true;
        return;
      }
      FetchFacts(Environment(), s);
      var v, at := FetchLine();
      AgreeParts(memory, replacement);
      InMemoryIsResident(memory, v);
      if v.inMemory {
        HitPage(v);
      } else {
        BlockHead(v, at);
      }
    }

    /** One iteration of the event loop.  It is a step of the state machine, or it ends the
        program because a page has come in and the search for a free frame fails. */
    method Iterate()
      requires Consistent() && Inv(Environment(), Abs()) && !aborted && (runnable != [] || blocked != [])
      requires !outOfFrames
      modifies Footprint()
      ensures Consistent()
      ensures outOfFrames <==> NoFrameFor(Environment(), old(Abs()))
      ensures Abs() == if outOfFrames then Tick(old(Abs())) else Step(Environment(), old(Abs()))
      ensures fresh(memory.pages.Values - old(memory.pages.Values))
    {
      hide Agree, TablesMatch, Allocated, FramesOf, Ids, MemOk, Owns, QueueInv, MemoryInv, LinesInv, OutOfBits,
        Complete, FastForward, Execute, Tick;
      ghost var s := Abs();
      IterationFacts(Environment(), s);
      TickClock();
      if blocked != [] && blocked[0].waitTime == 0 {
        var ok := FinishDiskIO();
        outOfFrames := !ok;
      } else if runnable == [] {
        SkipAhead();
      } else {
        RunReference();
      }
    }

    /** The event loop, on all inputs on which it stops: see `StopsUnlessTwo`. */
    method RunSimulation() returns (exitTime: nat)
      requires Consistent() && Inv(Environment(), Abs()) && Stops(Environment(), Abs()) && !outOfFrames
      modifies Footprint()
      ensures Consistent() && exitTime == time
      ensures !outOfFrames ==> Halted(Abs()) && exists n: nat :: Abs() == Run(Environment(), old(Abs()), n)
      ensures outOfFrames ==>
        && memory.memSize % 32 != 0
        && exists n: nat :: FailsAfter(Environment(), old(Abs()), n, Abs())
    {
      hide Inv, Step, Run, Consistent, Tick, NoFrameFor;
      ghost var s, n := Abs(), 0;
      ghost var env := Environment();
      ghost var last: nat :| StopsAt(env, s, last);
      RunZero(env, s);
      while !aborted && !outOfFrames && (runnable != [] || blocked != [])
        invariant Consistent() && n <= last
        invariant if outOfFrames then FailsAfter(env, s, n, Abs()) else Abs() == Run(env, s, n)
        invariant fresh(memory.pages.Values - old(memory.pages.Values))
        decreases last - n, !outOfFrames
      {
        RunNext(env, s, n);
        TimersOf(env, Abs());
        Iterate();
        if !outOfFrames { n := n + 1; }
      }
      if outOfFrames { UncoveredSize(env, Run(env, s, n)); }
      exitTime := time;
    }
  }

  /** The program gives up in state `t`, one tick after the first `n` iterations. */
  ghost predicate FailsAfter(env: Env, s: State, n: nat, t: State)
    requires Inv(env, s)
  {
    var u := Run(env, s, n);
    NoFrameFor(env, u) && (u.blocked != [] ==> u.blocked[0].waitTime > 0) && t == Tick(u)
  }

  lemma {:induction false} HeadTables(q: seq<Proc>, p: Proc, known: set<Page>)
    requires q != [] && TablesMatch(q, known) && p.pid == q[0].pid && p.pageTable == q[0].pageTable
    ensures TablesMatch(q[0 := p], known)
  {
    forall x | x in q[0 := p] ensures x == p || x in q { ReplaceHead(q, p, x); Members(q, x); }
    assert q[0] in q;
  }

  lemma {:induction false} EmptyTables(trace: seq<Line>, procs: seq<Proc>)
    requires procs == Parse(trace, |trace|)
    ensures TablesMatch(procs, {})
  {
    ParseCorrect(trace, |trace|);
  }

  lemma {:induction false} EmptyIsOk(f: Frames, p: Policy)
    requires |f| > 0 && forall i :: 0 <= i < |f| ==> f[i] == None
    requires (p == Lru([]) || p == Fifo([])) || (p.Clock? && |p.refs| == |f| && p.hand < |f|) || p.Random?
    ensures MemOk(f, p)
  {
  }

  lemma {:induction false} AwaitedKnown(env: Env, f: Frames, p: Proc, q: seq<Proc>, known: set<Page>)
    requires Waiting(env, f, p) && p in q && TablesMatch(q, known)
    ensures p.waitingOnPage.Some? && p.waitingOnPage.value in known && !Resident(f, p.waitingOnPage.value)
  {
  }

  lemma {:induction false} EnqueueTables(runnable: seq<Proc>, blocked: seq<Proc>, p: Proc, known: set<Page>)
    requires blocked != [] && TablesMatch(runnable, known) && TablesMatch(blocked, known)
    requires p.pid == blocked[0].pid && p.pageTable == blocked[0].pageTable
    ensures TablesMatch(EnqueuePriority(p, runnable), known) && TablesMatch(blocked[1..], known)
  {
    forall x | x in EnqueuePriority(p, runnable) ensures x == p || x in runnable { EnqueueMembers(p, runnable, x); }
    forall x | x in blocked[1..] ensures x in blocked { Members(blocked, x); }
    assert blocked[0] in blocked;
  }

  /** A page added to the head's table is a page of no other process. */
  lemma {:induction false} FetchTables(env: Env, s: State, q: Proc, vpn: nat, known: set<Page>)
    requires QueueInv(env, s) && s.runnable != []
    requires TablesMatch(s.runnable, known) && TablesMatch(s.blocked, known)
    requires q == s.runnable[0].(pageTable := s.runnable[0].pageTable + {vpn})
    ensures TablesMatch(s.runnable[0 := q], known + {Page(q.pid, vpn)})
          && TablesMatch(s.blocked, known + {Page(q.pid, vpn)})
    ensures Page(q.pid, vpn) in known <==> vpn in s.runnable[0].pageTable
  {
    assert s.runnable[0] in s.runnable;
    forall x | x in s.runnable[0 := q] ensures x == q || (x in s.runnable && x.pid != q.pid) {
      ReplaceHead(s.runnable, q, x);
      Members(s.runnable, x);
      if x in s.runnable[1..] { HeadIsAlone(env, s, x); }
    }
    forall x | x in s.blocked ensures x.pid != q.pid { HeadIsAlone(env, s, x); }
  }

  lemma {:induction false} BlockTables(runnable: seq<Proc>, blocked: seq<Proc>, p: Proc, known: set<Page>)
    requires runnable != [] && TablesMatch(runnable, known) && TablesMatch(blocked, known)
    requires p.pid == runnable[0].pid && p.pageTable == runnable[0].pageTable
    ensures TablesMatch(runnable[1..], known) && TablesMatch(blocked + [p], known)
  {
    forall x | x in runnable[1..] ensures x in runnable { Members(runnable, x); }
    assert runnable[0] in runnable;
  }

  lemma {:induction false} RequeueTables(runnable: seq<Proc>, q: Proc, known: set<Page>)
    requires runnable != [] && TablesMatch(runnable, known)
    requires q.pid == runnable[0].pid && q.pageTable == runnable[0].pageTable
    ensures TablesMatch(EnqueuePriority(q, runnable[1..]), known)
  {
    forall x | x in EnqueuePriority(q, runnable[1..]) ensures x == q || x in runnable {
      EnqueueMembers(q, runnable[1..], x);
      Members(runnable, x);
    }
    assert runnable[0] in runnable;
  }

  lemma {:induction false} QuitTables(env: Env, s: State, known: set<Page>)
    requires QueueInv(env, s) && s.runnable != []
    requires TablesMatch(s.runnable, known) && TablesMatch(s.blocked, known)
    ensures var p := s.runnable[0];
      && (forall v :: v in p.pageTable ==> Page(p.pid, v) in known)
      && PagesWith(p.pid, p.pageTable) == PagesOf(p)
      && TablesMatch(s.runnable[1..], known - PagesOf(p)) && TablesMatch(s.blocked, known - PagesOf(p))
  {
    assert s.runnable[0] in s.runnable;
    forall x | x in s.runnable[1..] ensures x in s.runnable && x.pid != s.runnable[0].pid {
      Members(s.runnable, x);
      HeadIsAlone(env, s, x);
    }
    forall x | x in s.blocked ensures x.pid != s.runnable[0].pid { HeadIsAlone(env, s, x); }
  }

  lemma {:induction false} FewerValues(pages: map<Page, VPage>, gone: set<Page>)
    ensures (pages - gone).Values <= pages.Values && (pages - gone).Keys == pages.Keys - gone
  {
  }

  lemma {:induction false} SameQueues(env: Env, s: State, t: State)
    requires QueueInv(env, s)
    requires t.runnable == s.runnable && t.blocked == s.blocked && t.finished == s.finished && t.frames == s.frames
    ensures QueueInv(env, t)
  {
  }

  lemma {:induction false} FetchFacts(env: Env, s: State)
    requires Core(env, s) && s.runnable != [] && CanRead(env, s)
    ensures Core(env, Fetch(env, s)) && Fetch(env, s).runnable != [] && Fetch(env, s).runnable[0].currInterval.Node?
    ensures Fetch(env, s).frames == s.frames
  {
    FetchCore(env, s);
    HeadsOk(env, Fetch(env, s));
  }

  /** What the branches of an iteration need, after the tick. */
  lemma {:induction false} IterationFacts(env: Env, s: State)
    requires Inv(env, s) && !Halted(s)
    ensures s.blocked != [] ==> s.blocked[0].waitTime > 0
    ensures var t := Tick(s);
      && Core(env, t) && t.runnable == s.runnable
      && (t.blocked != [] <==> s.blocked != [])
      && (t.blocked != [] ==> Waiting(env, t.frames, t.blocked[0]))
      && (t.blocked != [] && t.blocked[0].waitTime == 0 <==> Completes(s))
      && (EventOf(env, s).Loaded? <==> Completes(s)) && t.frames == s.frames
      && (t.runnable != [] ==> t.runnable[0].currInterval.Node?)
      && MemOk(t.frames, t.policy)
      && Step(env, s) == (if Completes(s) then Complete(t)
                          else if t.runnable == [] then FastForward(t)
                          else Execute(env, t))
  {
    TickCore(env, s);
    HeadsOk(env, s);
    HeadsOk(env, Tick(s));
  }

  lemma {:induction false} RunZero(env: Env, s: State)
    requires Inv(env, s)
    ensures Run(env, s, 0) == s
  {
  }

  lemma {:induction false} RunNext(env: Env, s: State, n: nat)
    requires Inv(env, s)
    ensures Run(env, s, n + 1) == Step(env, Run(env, s, n))
  {
    hide Inv, Step;
  }

  /** The whole program: the first pass over the trace, then the simulation.  A trace with
      a zero pid is refused with the number of the offending line.  Left out are only traces
      that the program would simulate for ever, and they need a penalty of two ticks. */
  method Simulate(trace: seq<Line>, size: nat, kind: Kind, penalty: nat, rand: nat -> nat)
    returns (bad: Option<nat>, sim: Simulator?)
    requires size > 0 && penalty > 0
    requires penalty == 2 && GoodPids(trace) ==> SurelyStops(Env(trace, penalty, size), kind, rand)
    ensures bad.Some? <==> exists i :: 0 <= i < |trace| && trace[i].pid == 0
    ensures bad.Some? ==> 1 <= bad.value <= |trace| && trace[bad.value - 1].pid == 0
    ensures bad.Some? ==> forall i :: 0 <= i < bad.value - 1 ==> trace[i].pid != 0
    ensures bad.Some? ==> sim == null
    ensures bad.None? ==> sim != null && sim.Consistent() && sim.Environment() == Env(trace, penalty, size)
    ensures bad.None? ==> Simulated(sim.Environment(), kind, rand, sim.outOfFrames, sim.Abs())
    ensures bad.None? && size % 32 == 0 ==> !sim.outOfFrames
  {
    hide Inv, Step, Run, Init, Simulator.Consistent, Start, Parse, Halted, Tick, PolicyKind, NoFrameFor, Stops;
    var procs: seq<P.Process>;
    bad, procs := TraceParser.FirstPass(trace);
    if bad.Some? { return bad, null; }
    var s := new Simulator(trace, P.AbsQueue(procs), size, kind, penalty, rand);
    ghost var policy := s.replacement.Abs();
    BeginIsInit(s.Environment(), policy);
    if penalty != 2 { StopsUnlessTwo(s.Environment(), policy); }
    var exitTime := s.RunSimulation();
    sim := s;
  }

  /** The simulation stops, whatever the initial reference bits of Clock. */
  ghost predicate SurelyStops(env: Env, kind: Kind, rand: nat -> nat) {
    forall policy: Policy :: Start(env, policy) && PolicyKind(policy, kind, rand) ==> Stops(env, Begin(env, policy))
  }

  /** The state in which a simulation ends: where the loop ends, or, if the program gave up
      looking for a free frame, where it did. */
  ghost predicate Simulated(env: Env, kind: Kind, rand: nat -> nat, outOfFrames: bool, t: State) {
    exists policy: Policy, n: nat ::
      && Start(env, policy) && PolicyKind(policy, kind, rand)
      && if outOfFrames then FailsAfter(env, Begin(env, policy), n, t)
         else Halted(t) && t == Run(env, Begin(env, policy), n)
  }

  /** The policy values the four modules start from. */
  ghost predicate PolicyKind(p: Policy, k: Kind, rand: nat -> nat) {
    match k
    case LRU => p == Lru([])
    case FIFO => p == Fifo([])
    case CLOCK => p.Clock? && p.hand == 0
    case RANDOM => p == Random(rand, 0)
  }

  lemma {:induction false} BeginIsInit(env: Env, policy: Policy)
    requires Start(env, policy)
    ensures Inv(env, Init(env, policy)) && Begin(env, policy) == Init(env, policy)
  {
    InitInv(env, policy);
  }
}
