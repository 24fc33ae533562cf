/** The simulation loop as a state machine: one `Step` is one iteration of the loop. */
module Machine {
  import opened Types
  import opened Replacement
  import opened ProcessModel
  import opened TraceModel

  /** What does not change during a run: the trace, the disk penalty in ticks, the frame count. */
  datatype Env = Env(trace: seq<Line>, penalty: nat, size: nat)

  /** Everything the loop reads or writes.  `current` is the process the loop last ran
      (its local variable `p`), `cursor` the position in the one shared trace file, and
      `aborted` says that the program gave up because a read ran past the end of the file. */
  datatype State = State(
    time: nat,
    runnable: seq<Proc>, blocked: seq<Proc>, finished: seq<nat>,
    current: Option<nat>, cursor: nat,
    frames: Frames, policy: Policy,
    tmu: nat, trp: nat, tmr: nat, tpi: nat,
    aborted: bool)

  predicate NotDone(s: State) { s.runnable != [] || s.blocked != [] }

  predicate Halted(s: State) { s.aborted || !NotDone(s) }

  function Init(env: Env, policy: Policy): State {
    var procs := Parse(env.trace, |env.trace|);
    State(0, procs, [], [], if procs == [] then None else Some(procs[0].pid), 0,
          EmptyFrames(env.size), policy, 0, 0, 0, 0, false)
  }

  // ---- the invariant --------------------------------------------------------

  function AllPids(s: State): multiset<nat> {
    multiset(Pids(s.runnable)) + multiset(Pids(s.blocked)) + multiset(s.finished)
  }

  /** The process waits for a page of its own that is not in memory, and its saved
      position is that of the reference it blocked on. */
  ghost predicate Waiting(env: Env, f: Frames, p: Proc) {
    && LineAt(p.currentPos) < |env.trace|
    && var v := env.trace[LineAt(p.currentPos)].vpn;
       p.waitingOnPage == Some(Page(p.pid, v)) && v in p.pageTable && !Resident(f, Page(p.pid, v))
  }

  /** Timers of the disk queue: the head has some of its penalty left, the others all of it. */
  ghost predicate Timers(env: Env, blocked: seq<Proc>) {
    && (blocked != [] ==> 1 <= blocked[0].waitTime <= env.penalty)
    && forall i :: 1 <= i < |blocked| ==> blocked[i].waitTime == env.penalty
  }

  ghost predicate Owns(q: seq<Proc>, pg: Page) {
    exists p :: p in q && p.pid == pg.pid && pg.vpn in p.pageTable
  }

  ghost predicate MemoryInv(env: Env, s: State) {
    && env.size > 0 && |s.frames| == env.size
    && MemOk(s.frames, s.policy)
    && forall pg :: Resident(s.frames, pg) ==> Owns(s.runnable, pg) || Owns(s.blocked, pg)
  }

  /** The status queues: no process twice, runnable ones in file order and not waiting,
      blocked ones waiting for a page; every cursor on a line of its own interval. */
  ghost predicate QueueInv(env: Env, s: State) {
    && (forall x :: AllPids(s)[x] <= 1)
    && SortedByPos(s.runnable)
    && (forall p :: p in s.runnable ==> CursorOk(p) && p.waitingOnPage == None && p.waitTime == 0)
    && (forall p :: p in s.blocked ==> CursorOk(p) && Waiting(env, s.frames, p))
  }

  /** Every line of the trace has either been run or is left to exactly one process. */
  ghost predicate LinesInv(env: Env, s: State)
    requires QueueInv(env, s)
  {
    TotalLines(s.runnable) + TotalLines(s.blocked) + s.tmr == |env.trace|
  }

  /** The invariant but for the disk timers, which hold only between iterations. */
  ghost predicate Core(env: Env, s: State) {
    MemoryInv(env, s) && QueueInv(env, s) && LinesInv(env, s)
  }

  ghost predicate Inv(env: Env, s: State) {
    Core(env, s) && env.penalty > 0 && Timers(env, s.blocked)
  }

  lemma {:induction false} HeadsOk(env: Env, s: State)
    requires QueueInv(env, s)
    ensures s.runnable != [] ==> s.runnable[0] in s.runnable && CursorOk(s.runnable[0])
    ensures s.blocked != [] ==>
      s.blocked[0] in s.blocked && CursorOk(s.blocked[0]) && Waiting(env, s.frames, s.blocked[0])
  {
  }

  // ---- one iteration --------------------------------------------------------

  /** The part of an iteration before any branch: clock, statistics, disk timer. */
  function Tick(s: State): State
    requires s.blocked != [] ==> s.blocked[0].waitTime > 0
  {
    s.(time := s.time + 1,
       tmu := s.tmu + Allocated(s.frames),
       trp := s.trp + if s.runnable != [] then 1 else 0,
       blocked := if s.blocked == [] then []
                  else s.blocked[0 := s.blocked[0].(waitTime := s.blocked[0].waitTime - 1)])
  }

  predicate Completes(s: State) { s.blocked != [] && s.blocked[0].waitTime == 1 }

  /** The disk delivers the page the head of the queue waits for, and the process resumes. */
  function Complete(t: State): State
    requires MemOk(t.frames, t.policy) && t.blocked != [] && t.blocked[0].waitingOnPage.Some?
  {
    var p := t.blocked[0].(waitingOnPage := None);
    var (f, q) := LoadPage(t.frames, t.policy, t.blocked[0].waitingOnPage.value);
    t.(frames := f, policy := q,
       blocked := t.blocked[1..], runnable := EnqueuePriority(p, t.runnable),
       cursor := p.currentPos)
  }

  /** With nothing to run, jump to one tick before the disk delivers. */
  function FastForward(t: State): State
    requires t.blocked != [] && t.blocked[0].waitTime > 0
  {
    var skip := t.blocked[0].waitTime - 1;
    t.(time := t.time + skip,
       tmu := t.tmu + Allocated(t.frames) * skip,
       trp := t.trp + (if t.runnable != [] then 1 else 0) * skip,
       blocked := t.blocked[0 := t.blocked[0].(waitTime := t.blocked[0].waitTime - skip)])
  }

  /** Where the process at the head of the queue reads: at the shared cursor if it is still
      the current one, else at its own saved position. */
  function ReadPos(s: State): nat
    requires s.runnable != []
  {
    if s.current == Some(s.runnable[0].pid) then s.cursor else s.runnable[0].currentPos
  }

  predicate CanRead(env: Env, s: State)
    requires s.runnable != []
  {
    LineAt(ReadPos(s)) < |env.trace|
  }

  /** The page the head process refers to next. */
  function NextPage(env: Env, s: State): Page
    requires s.runnable != [] && CanRead(env, s)
  {
    Page(s.runnable[0].pid, env.trace[LineAt(ReadPos(s))].vpn)
  }

  function ReadError(s: State): State
    requires s.runnable != []
  {
    s.(current := Some(s.runnable[0].pid), cursor := ReadPos(s), aborted := true)
  }

  /** The line has been read and the page has an entry in the page table. */
  function Fetch(env: Env, s: State): State
    requires s.runnable != [] && CanRead(env, s)
  {
    var p := s.runnable[0];
    s.(current := Some(p.pid),
       cursor := PosAfterReading(LineAt(ReadPos(s))),
       runnable := s.runnable[0 := p.(pageTable := p.pageTable + {NextPage(env, s).vpn})])
  }

  /** After a hit the head process goes on to its next line, next interval, or ends. */
  function Advance(u: State): State
    requires u.runnable != [] && u.runnable[0].currInterval.Node?
  {
    var p := u.runnable[0];
    if OnLastLineInInterval(p) && HasIntervalsRemaining(p) then
      var q := JumpToNextInterval(p);
      u.(runnable := EnqueuePriority(q, u.runnable[1..]), cursor := q.currentPos)
    else if HasLinesRemainingInInterval(p) then
      u.(runnable := u.runnable[0 := p.(currentline := p.currentline + 1)])
    else
      Quit(u)
  }

  /** The head process ends: it leaves the queue and all its pages are freed. */
  function Quit(u: State): State
    requires u.runnable != []
  {
    var p := u.runnable[0];
    u.(runnable := u.runnable[1..], finished := u.finished + [p.pid],
       frames := Clear(u.frames, PagesOf(p)), policy := Forget(u.policy, PagesOf(p)),
       current := None)
  }

  function Hit(u: State, pg: Page): State
    requires u.runnable != [] && u.runnable[0].currInterval.Node? && Resident(u.frames, pg)
  {
    Advance(u.(tmr := u.tmr + 1, policy := NotifyAccess(u.policy, pg, FrameOf(u.frames, pg))))
  }

  function Miss(env: Env, u: State, pg: Page, pos: nat): State
    requires u.runnable != []
  {
    var p := u.runnable[0].(waitTime := env.penalty, waitingOnPage := Some(pg), currentPos := pos);
    u.(tpi := u.tpi + 1, runnable := u.runnable[1..], blocked := u.blocked + [p])
  }

  /** Simulate one reference of the head process. */
  function Execute(env: Env, t: State): State
    requires t.runnable != [] && t.runnable[0].currInterval.Node?
  {
    if !CanRead(env, t) then ReadError(t)
    else
      var pg := NextPage(env, t);
      if Resident(t.frames, pg) then Hit(Fetch(env, t), pg) else Miss(env, Fetch(env, t), pg, ReadPos(t))
  }

  function Step(env: Env, s: State): State
    requires Inv(env, s)
  {
    HeadsOk(env, s);
    if Halted(s) then s
    else if Completes(s) then Complete(Tick(s))
    else if s.runnable == [] then FastForward(Tick(s))
    else Execute(env, Tick(s))
  }

  /** The same iteration without the jump: with nothing to run it just lets the tick pass. */
  function SlowStep(env: Env, s: State): State
    requires Inv(env, s)
  {
    if !Halted(s) && !Completes(s) && s.runnable == [] then Tick(s) else Step(env, s)
  }

  // ---- what an iteration does, as an event ----------------------------------

  datatype Event =
    | Idle                // nothing: the loop has ended
    | Loaded(page: Page)  // the disk delivered a page
    | Skipped             // every process was blocked
    | Touched(page: Page) // a hit
    | Faulted(page: Page) // a miss
    | Stuck               // the read ran past the end of the file

  function EventOf(env: Env, s: State): Event
    requires Inv(env, s)
  {
    HeadsOk(env, s);
    if Halted(s) then Idle
    else if Completes(s) then Loaded(s.blocked[0].waitingOnPage.value)
    else if s.runnable == [] then Skipped
    else if !CanRead(env, s) then Stuck
    else if Resident(s.frames, NextPage(env, s)) then Touched(NextPage(env, s))
    else Faulted(NextPage(env, s))
  }
}
