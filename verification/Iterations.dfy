/** The loop body once more, as a relation between the state before and the state after one
    iteration.  It says where everything is afterwards, not how to get there: which frame has
    changed and why that one, between which neighbours a process now stands, what is left of
    a queue.  The steps of Machine.dfy are exactly the pairs of states so related. */
module Iterations {
  import opened Types
  import opened IntervalTree
  import opened Replacement
  import opened ProcessModel
  import opened Machine
  import opened MachineInvariant
  import opened Runs

  // ---- memory and replacement policy ----------------------------------------

  ghost function InUse(f: Frames): set<nat> { set i: nat | i < |f| && f[i].Some? }

  /** The page moves from wherever it is to the tail. */
  ghost predicate ToTail(q: seq<Page>, pg: Page, r: seq<Page>) {
    exists i :: 0 <= i < |q| && q[i] == pg && r == q[..i] + q[i + 1..] + [pg]
  }

  /** A hit on `pg`: LRU moves it to the tail, Clock sets the bit of its frame. */
  ghost predicate Touches(f: Frames, p: Policy, pg: Page, q: Policy) {
    match p
    case Lru(a) => q.Lru? && ToTail(a, pg, q.queue)
    case Clock(h, bits) =>
      && q.Clock? && q.hand == h && |q.refs| == |bits| == |f|
      && forall i :: 0 <= i < |bits| ==> (q.refs[i] <==> bits[i] || f[i] == Some(pg))
    case _ => q == p
  }

  /** Frame `n`, not in use before, now holds `pg`. */
  ghost predicate Noted(p: Policy, pg: Page, n: nat, q: Policy) {
    match p
    case Lru(a) => q == Lru(a + [pg])
    case Fifo(a) => q == Fifo(a + [pg])
    case Clock(h, bits) => n < |bits| && q == Clock(h, bits[n := true])
    case Random(_, _) => q == p
  }

  /** The frame `i` places on from frame `h`. */
  function Place(h: nat, i: nat, k: nat): (n: nat)
    requires k > 0
    ensures n < k
  {
    (h + i) % k
  }

  /** The hand goes over `d` frames whose bits are set, clearing them, and stops at a frame whose
      bit is clear; after a whole lap every bit is. */
  ghost predicate SweepsTo(h: nat, bits: seq<bool>, d: nat, n: nat, q: Policy)
    requires bits != []
  {
    && d <= |bits| && n == Place(h, d, |bits|)
    && (forall i: nat :: i < d ==> bits[Place(h, i, |bits|)]) && (d < |bits| ==> !bits[n])
    && q.Clock? && q.hand == n && |q.refs| == |bits|
    && forall j :: 0 <= j < |bits| ==>
         (q.refs[j] <==> j == n || (bits[j] && forall i: nat :: i < d ==> Place(h, i, |bits|) != j))
  }

  /** The page in frame `n` makes room for `pg`: the one at the head of the eviction queue, the
      one at which the clock hand stops, or the one drawn. */
  ghost predicate Replaces(f: Frames, p: Policy, pg: Page, n: nat, q: Policy)
    requires n < |f|
  {
    match p
    case Lru(a) => a != [] && f[n] == Some(a[0]) && q == Lru(a[1..] + [pg])
    case Fifo(a) => a != [] && f[n] == Some(a[0]) && q == Fifo(a[1..] + [pg])
    case Clock(h, bits) => bits != [] && exists d: nat :: SweepsTo(h, bits, d, n, q)
    case Random(rand, c) => n == rand(c) % |f| && q == Random(rand, c + 1)
  }

  /** The page goes into the lowest empty frame if there is one. */
  ghost predicate GoesInto(f: Frames, p: Policy, pg: Page, n: nat, q: Policy) {
    && n < |f|
    && if None in f then f[n] == None && (forall i :: 0 <= i < n ==> f[i] != None) && Noted(p, pg, n, q)
       else Replaces(f, p, pg, n, q)
  }

  ghost predicate ComesIn(f: Frames, p: Policy, pg: Page, g: Frames, q: Policy) {
    exists n: nat :: GoesInto(f, p, pg, n, q) && g == f[n := Some(pg)]
  }

  /** Every page of process `pid` is gone, from frames and eviction queue, and no other. */
  ghost predicate Leaves(f: Frames, p: Policy, pid: nat, g: Frames, q: Policy) {
    && |g| == |f|
    && (forall i :: 0 <= i < |f| ==> g[i] == if f[i].Some? && f[i].value.pid == pid then None else f[i])
    && match p
       case Lru(a) => q == Lru(OthersOf(a, pid))
       case Fifo(a) => q == Fifo(OthersOf(a, pid))
       case _ => q == p
  }

  // ---- queues ---------------------------------------------------------------

  /** `p` stands behind everybody at or before its position, and before everybody after it. */
  ghost predicate StandsAt(q: seq<Proc>, p: Proc, n: nat, r: seq<Proc>) {
    && n <= |q| && r == q[..n] + [p] + q[n..]
    && (forall i :: 0 <= i < n ==> q[i].currentPos <= p.currentPos)
    && (forall i :: n <= i < |q| ==> q[i].currentPos > p.currentPos)
  }

  ghost predicate TakesPlace(q: seq<Proc>, p: Proc, r: seq<Proc>) {
    exists n: nat :: StandsAt(q, p, n, r)
  }

  /** The disk has worked one tick for the head of its queue. */
  function Served(q: seq<Proc>): seq<Proc>
    requires q != [] ==> q[0].waitTime > 0
  {
    if q == [] then [] else [q[0].(waitTime := q[0].waitTime - 1)] + q[1..]
  }

  // ---- one iteration --------------------------------------------------------

  ghost predicate Delivered(s: State, t: State)
    requires s.blocked != []
  {
    var p := s.blocked[0];
    && p.waitingOnPage.Some?
    && ComesIn(s.frames, s.policy, p.waitingOnPage.value, t.frames, t.policy)
    && TakesPlace(s.runnable, p.(waitTime := 0, waitingOnPage := None), t.runnable)
    && t == s.(time := s.time + 1, tmu := s.tmu + |InUse(s.frames)|,
               trp := s.trp + (if s.runnable == [] then 0 else 1),
               runnable := t.runnable, blocked := s.blocked[1..], cursor := p.currentPos,
               frames := t.frames, policy := t.policy)
  }

  ghost predicate Jumped(s: State, t: State)
    requires s.blocked != [] && s.blocked[0].waitTime > 0
  {
    var skipped := s.blocked[0].waitTime - 1;
    t == s.(time := s.time + skipped, tmu := s.tmu + |InUse(s.frames)| * skipped,
            blocked := [s.blocked[0].(waitTime := 1)] + s.blocked[1..])
  }

  /** Where the head reads. */
  function From(s: State): nat
    requires s.runnable != []
  {
    if s.current == Some(s.runnable[0].pid) then s.cursor else s.runnable[0].currentPos
  }

  /** What every reference does. */
  ghost function Begun(s: State): State
    requires s.runnable != [] && (s.blocked != [] ==> s.blocked[0].waitTime > 0)
  {
    s.(time := s.time + 1, tmu := s.tmu + |InUse(s.frames)|, trp := s.trp + 1, blocked := Served(s.blocked),
       current := Some(s.runnable[0].pid))
  }

  ghost predicate Missed(env: Env, s: State, pg: Page, t: State)
    requires s.runnable != [] && (s.blocked != [] ==> s.blocked[0].waitTime > 0)
  {
    var h := s.runnable[0];
    var p := h.(pageTable := h.pageTable + {pg.vpn}, waitTime := env.penalty, waitingOnPage := Some(pg),
                currentPos := From(s));
    t == Begun(s).(tpi := s.tpi + 1, cursor := PosAfterReading(LineAt(From(s))),
                   runnable := s.runnable[1..], blocked := Served(s.blocked) + [p])
  }

  /** After a hit, with `q` the policy already told of it: the last line of the process, a line
      with more to come in its interval, or the last of an interval with another to come. */
  ghost predicate MovedOn(s: State, pg: Page, q: Policy, t: State)
    requires s.runnable != [] && (s.blocked != [] ==> s.blocked[0].waitTime > 0)
  {
    var h := s.runnable[0].(pageTable := s.runnable[0].pageTable + {pg.vpn});
    var u := Begun(s).(tmr := s.tmr + 1, cursor := PosAfterReading(LineAt(From(s))), policy := q);
    && h.currInterval.Node?
    && if h.currentline == h.lastline then
         && Leaves(s.frames, q, h.pid, t.frames, t.policy)
         && t == u.(runnable := s.runnable[1..], finished := s.finished + [h.pid], current := None,
                    frames := t.frames, policy := t.policy)
       else if h.currentline < h.currInterval.iv.high then
         t == u.(runnable := [h.(currentline := h.currentline + 1)] + s.runnable[1..])
       else
         && h.currInterval.right.Node?
         && var iv := h.currInterval.right.iv;
            && TakesPlace(s.runnable[1..],
                          h.(currInterval := h.currInterval.right, currentline := iv.low, currentPos := iv.fpos),
                          t.runnable)
            && t == u.(runnable := t.runnable, cursor := iv.fpos)
  }

  ghost predicate Referred(env: Env, s: State, t: State)
    requires s.runnable != [] && (s.blocked != [] ==> s.blocked[0].waitTime > 0)
  {
    if LineAt(From(s)) >= |env.trace| then t == Begun(s).(cursor := From(s), aborted := true)
    else
      var pg := Page(s.runnable[0].pid, env.trace[LineAt(From(s))].vpn);
      if Some(pg) in s.frames then exists q: Policy :: Touches(s.frames, s.policy, pg, q) && MovedOn(s, pg, q, t)
      else Missed(env, s, pg, t)
  }

  ghost predicate Iterates(env: Env, s: State, t: State)
    requires Inv(env, s)
  {
    if s.aborted || (s.runnable == [] && s.blocked == []) then t == s
    else if s.blocked != [] && s.blocked[0].waitTime == 1 then Delivered(s, t)
    else if s.runnable == [] then Jumped(s, t)
    else Referred(env, s, t)
  }

  // ---- memory, proved -------------------------------------------------------

  lemma {:induction false} CountInUse(f: Frames)
    ensures |InUse(f)| == Allocated(f)
  {
    if f == [] {
      assert InUse(f) == {};
    } else {
      var last := |f| - 1;
      var g := f[..last];
      CountInUse(g);
      if f[last].Some? {
        assert InUse(f) == InUse(g) + {last};
      } else {
        assert InUse(f) == InUse(g);
      }
    }
  }

  lemma {:induction false} FilterOne(q: seq<Page>, pg: Page) returns (i: nat)
    requires NoDup(q) && pg in q
    ensures i < |q| && q[i] == pg && Filter(q, {pg}) == q[..i] + q[i + 1..]
  {
    hide NoDup;
    assert q == [q[0]] + q[1..];
    NoDupCons(q[0], q[1..]);
    if q[0] == pg {
      FilterNothing(q[1..], {pg});
      i := 0;
    } else {
      var j := FilterOne(q[1..], pg);
      i := j + 1;
      assert q[..i] == [q[0]] + q[1..][..j] && q[i + 1..] == q[1..][j + 1..];
    }
  }

  lemma {:induction false} TouchMeans(f: Frames, p: Policy, pg: Page)
    requires MemOk(f, p) && Resident(f, pg)
    ensures Touches(f, p, pg, NotifyAccess(p, pg, FrameOf(f, pg)))
  {
    if p.Lru? { var i := FilterOne(p.queue, pg); }
  }

  lemma {:induction false} PlaceIs(h: nat, i: nat, k: nat)
    requires h < k && i <= k
    ensures Place(h, i, k) == Ahead(h, i, k)
  {
    if h + i < k {
    } else if h + i < 2 * k {
      assert (h + i - k) % k == h + i - k;
    }
  }

  lemma {:induction false} SweepMeans(h: nat, bits: seq<bool>)
    requires h < |bits|
    ensures var d := SweepDistance(bits, h, 0); var n := Ahead(h, d, |bits|);
      SweepsTo(h, bits, d, n, Clock(n, Swept(bits, h, d)[n := true]))
  {
    hide SweepDistance, Place, Ahead, Behind;
    var k, d := |bits|, SweepDistance(bits, h, 0);
    var n := Ahead(h, d, k);
    PlaceIs(h, d, k);
    forall i: nat | i < d ensures bits[Place(h, i, k)] { PlaceIs(h, i, k); }
    forall j | 0 <= j < k
      ensures d <= Behind(h, j, k) <==> forall i: nat :: i < d ==> Place(h, i, k) != j
    {
      PassedOver(h, j, k, d);
    }
  }

  lemma {:induction false} PassedOver(h: nat, j: nat, k: nat, d: nat)
    requires h < k && j < k && d <= k
    ensures d <= Behind(h, j, k) <==> forall i: nat :: i < d ==> Place(h, i, k) != j
  {
    hide Place;
    var b := Behind(h, j, k);
    PlaceIs(h, b, k);
    forall i: nat | i < d && Place(h, i, k) == j ensures i == b { PlaceIs(h, i, k); }
  }

  lemma {:induction false} SomeNone(f: Frames)
    ensures HasFree(f) <==> None in f
  {
    if HasFree(f) { assert f[FirstFree(f)] == None; }
  }

  lemma {:induction false} LoadMeans(f: Frames, p: Policy, pg: Page)
    requires MemOk(f, p)
    ensures var (g, q) := LoadPage(f, p, pg); ComesIn(f, p, pg, g, q)
  {
    hide NoSharing, NoDup, HasFree, Allocated, SweepDistance, Swept, SweepsTo, Resident;
    SomeNone(f);
    var (g, q) := LoadPage(f, p, pg);
    var n := LoadFrame(f, p);
    if !HasFree(f) {
      if p.Queued() { QueueLength(f, p); HeldFirst(f, p); }
      if p.Clock? { SweepMeans(p.hand, p.refs); }
    }
    assert GoesInto(f, p, pg, n, q);
  }

  lemma {:induction false} HeldFirst(f: Frames, p: Policy)
    requires MemOk(f, p) && p.Queued() && !HasFree(f)
    ensures p.queue != [] && Resident(f, p.queue[0])
  {
    QueueLength(f, p);
  }

  lemma {:induction false} EnqueueMeans(p: Proc, q: seq<Proc>)
    requires SortedByPos(q)
    ensures TakesPlace(q, p, EnqueuePriority(p, q))
  {
    assert StandsAt(q, p, InsertionPoint(q, p.currentPos), EnqueuePriority(p, q));
  }

  // ---- the step, proved -----------------------------------------------------

  lemma {:induction false} TickMeans(s: State)
    requires s.blocked != [] ==> s.blocked[0].waitTime > 0
    ensures var t := Tick(s);
      t == s.(time := s.time + 1, tmu := s.tmu + |InUse(s.frames)|,
              trp := s.trp + (if s.runnable == [] then 0 else 1), blocked := Served(s.blocked))
  {
    hide Allocated;
    CountInUse(s.frames);
    assert Tick(s).blocked == Served(s.blocked);
  }

  lemma {:induction false} DeliveryMeans(env: Env, s: State)
    requires Inv(env, s) && EventOf(env, s).Loaded?
    ensures s.blocked != [] && s.blocked[0].waitTime == 1 && !s.aborted && Delivered(s, Step(env, s))
  {
    hide LinesInv, MemOk, LoadPage, Allocated, Owns, EnqueuePriority, Tick, SortedByPos, ComesIn, TakesPlace, InUse,
      CursorOk, AllPids, Resident;
    HeadsOk(env, s);
    TickMeans(s);
    var p := s.blocked[0].(waitTime := 0, waitingOnPage := None);
    LoadMeans(s.frames, s.policy, s.blocked[0].waitingOnPage.value);
    EnqueueMeans(p, s.runnable);
  }

  lemma {:induction false} JumpMeans(env: Env, s: State)
    requires Inv(env, s) && EventOf(env, s).Skipped?
    ensures s.blocked != [] && s.runnable == [] && s.blocked[0].waitTime > 1 && !s.aborted && Jumped(s, Step(env, s))
  {
    hide Inv, Step, EventOf, Allocated, InUse;
    StepEffect(env, s);
    CountInUse(s.frames);
    var p := s.blocked[0].(waitTime := 1);
    assert s.blocked[0 := p] == [p] + s.blocked[1..];
  }

  lemma {:induction false} AdvanceMeans(u: State)
    requires u.runnable != [] && CursorOk(u.runnable[0]) && SortedByPos(u.runnable)
    ensures var h, t := u.runnable[0], Advance(u);
      if h.currentline == h.lastline then t == Quit(u)
      else if h.currentline < h.currInterval.iv.high then
        t == u.(runnable := [h.(currentline := h.currentline + 1)] + u.runnable[1..])
      else
        && h.currInterval.right.Node?
        && var iv := h.currInterval.right.iv;
           && TakesPlace(u.runnable[1..],
                         h.(currInterval := h.currInterval.right, currentline := iv.low, currentPos := iv.fpos),
                         t.runnable)
           && t == u.(runnable := t.runnable, cursor := iv.fpos)
  {
    hide TakesPlace, EnqueuePriority, Quit;
    var h := u.runnable[0];
    OneLinePerHit(h);
    if HasIntervalsRemaining(h) { EnqueueMeans(JumpToNextInterval(h), u.runnable[1..]); }
  }

  lemma {:induction false} QuitMeans(env: Env, u: State)
    requires u.runnable != [] && MemoryInv(env, u) && QueueInv(env, u)
    ensures var t, pid := Quit(u), u.runnable[0].pid;
      && Leaves(u.frames, u.policy, pid, t.frames, t.policy)
      && t == u.(runnable := u.runnable[1..], finished := u.finished + [pid], current := None,
                 frames := t.frames, policy := t.policy)
  {
    hide MemoryInv, QueueInv, OwnResident, Clear, Allocated;
    ProcessExit(env, u);
  }

  /** The state in which the head moves on: the line has been read and the hit counted. */
  function Counted(env: Env, s: State): State
    requires s.runnable != [] && CanRead(env, s) && Resident(s.frames, NextPage(env, s))
    requires s.blocked != [] ==> s.blocked[0].waitTime > 0
  {
    var u, pg := Fetch(env, Tick(s)), NextPage(env, s);
    u.(tmr := u.tmr + 1, policy := NotifyAccess(u.policy, pg, FrameOf(u.frames, pg)))
  }

  lemma {:induction false} CountedMeans(env: Env, s: State)
    requires s.runnable != [] && CanRead(env, s) && Resident(s.frames, NextPage(env, s))
    requires s.blocked != [] ==> s.blocked[0].waitTime > 0
    ensures From(s) == ReadPos(s)
    ensures var v, pg, h := Counted(env, s), NextPage(env, s), s.runnable[0];
      && v == Begun(s).(tmr := s.tmr + 1, cursor := PosAfterReading(LineAt(From(s))), policy := v.policy,
                        runnable := [h.(pageTable := h.pageTable + {pg.vpn})] + s.runnable[1..])
      && v.policy == NotifyAccess(s.policy, pg, FrameOf(s.frames, pg))
  {
    hide Tick, InUse, NotifyAccess, Resident;
    TickMeans(s);
  }

  lemma {:induction false} CountedOk(env: Env, s: State)
    requires Inv(env, s) && EventOf(env, s).Touched?
    ensures s.runnable != [] && CanRead(env, s) && Resident(s.frames, NextPage(env, s))
    ensures s.blocked != [] ==> s.blocked[0].waitTime > 0
    ensures var v := Counted(env, s);
      v.runnable != [] && MemoryInv(env, v) && QueueInv(env, v) && SortedByPos(v.runnable) && CursorOk(v.runnable[0])
      && Step(env, s) == Advance(v)
  {
    hide Inv, Step, EventOf, Tick, Fetch, NextPage, Resident, NotifyAccess, Advance, MemOk, Owns, Waiting, AllPids,
      LinesInv, Allocated;
    RunsHead(env, s);
    SameNext(env, s);
    TickCore(env, s);
    FetchCore(env, Tick(s));
    FetchEffect(env, Tick(s));
    CountHit(env, Fetch(env, Tick(s)), NextPage(env, s));
    HeadsOk(env, Counted(env, s));
  }

  lemma {:induction false} SameNext(env: Env, s: State)
    requires s.runnable != [] && CanRead(env, s) && (s.blocked != [] ==> s.blocked[0].waitTime > 0)
    ensures CanRead(env, Tick(s)) && NextPage(env, Tick(s)) == NextPage(env, s) && Tick(s).runnable == s.runnable
    ensures Tick(s).frames == s.frames && ReadPos(Tick(s)) == ReadPos(s)
  {
  }

  lemma {:induction false} TouchedPlan(env: Env, s: State)
    requires Inv(env, s) && EventOf(env, s).Touched?
    ensures s.runnable != [] && CanRead(env, s) && Resident(s.frames, NextPage(env, s))
    ensures s.blocked != [] ==> s.blocked[0].waitTime > 0
    ensures var pg := NextPage(env, s);
      MovedOn(s, pg, NotifyAccess(s.policy, pg, FrameOf(s.frames, pg)), Step(env, s))
  {
    hide Inv, Step, EventOf, NextPage, Resident, NotifyAccess, Advance, MemoryInv, QueueInv, Counted, Leaves,
      TakesPlace, From, ReadPos, InUse, CanRead, SortedByPos, Quit, Served, LineAt, Chain, LastHigh;
    CountedOk(env, s);
    CountedMeans(env, s);
    var v := Counted(env, s);
    assert v.runnable[1..] == s.runnable[1..];
    AdvanceMeans(v);
    QuitMeans(env, v);
  }

  lemma {:induction false} PolicyTold(env: Env, s: State, pg: Page)
    requires Inv(env, s) && Resident(s.frames, pg)
    ensures Touches(s.frames, s.policy, pg, NotifyAccess(s.policy, pg, FrameOf(s.frames, pg)))
  {
    hide QueueInv, LinesInv, MemOk, Resident, Touches, NotifyAccess;
    TouchMeans(s.frames, s.policy, pg);
  }

  lemma {:induction false} TouchedMeans(env: Env, s: State)
    requires Inv(env, s) && EventOf(env, s).Touched?
    ensures s.runnable != [] && (s.blocked != [] ==> s.blocked[0].waitTime > 0) && Referred(env, s, Step(env, s))
  {
    hide Inv, Step, EventOf, MovedOn, Touches, NotifyAccess, LineAt;
    TouchedPlan(env, s);
    PolicyTold(env, s, NextPage(env, s));
  }

  lemma {:induction false} FaultedMeans(env: Env, s: State)
    requires Inv(env, s) && EventOf(env, s).Faulted?
    ensures s.runnable != [] && (s.blocked != [] ==> s.blocked[0].waitTime > 0) && Referred(env, s, Step(env, s))
  {
    hide Inv, Step, EventOf, Tick, InUse, LineAt;
    RunsHead(env, s);
    TickMeans(s);
    assert Served(s.blocked) == Ticked(s.blocked);
  }

  lemma {:induction false} StuckMeans(env: Env, s: State)
    requires Inv(env, s) && EventOf(env, s).Stuck?
    ensures s.runnable != [] && (s.blocked != [] ==> s.blocked[0].waitTime > 0) && Referred(env, s, Step(env, s))
  {
    hide MemoryInv, QueueInv, LinesInv, Allocated, Complete, FastForward, Tick, InUse;
    HeadsOk(env, s);
    TickMeans(s);
  }

  /** Which branch an iteration takes. */
  lemma {:induction false} Branch(env: Env, s: State)
    requires Inv(env, s)
    ensures var e := EventOf(env, s);
      && (e.Idle? <==> s.aborted || (s.runnable == [] && s.blocked == []))
      && (e.Loaded? <==> !e.Idle? && s.blocked != [] && s.blocked[0].waitTime == 1)
      && (e.Skipped? <==> !e.Idle? && !e.Loaded? && s.runnable == [])
  {
    hide MemoryInv, LinesInv, MemOk, Waiting, CursorOk;
    HeadsOk(env, s);
  }

  /** Every iteration is related to the state before it as the program's text says. */
  lemma {:induction false} StepIterates(env: Env, s: State)
    requires Inv(env, s)
    ensures Iterates(env, s, Step(env, s))
  {
    hide Inv, Step, EventOf, Delivered, Jumped, Referred;
    Branch(env, s);
    TimersRun(env, s);
    match EventOf(env, s)
    case Idle => StepEffect(env, s);
    case Loaded(_) => DeliveryMeans(env, s);
    case Skipped => JumpMeans(env, s);
    case Touched(_) => TouchedMeans(env, s);
    case Faulted(_) => FaultedMeans(env, s);
    case Stuck => StuckMeans(env, s);
  }

  lemma {:induction false} TimersRun(env: Env, s: State)
    requires Inv(env, s)
    ensures s.blocked != [] ==> s.blocked[0].waitTime > 0
  {
    hide MemoryInv, QueueInv, LinesInv;
  }

  // ---- and nothing else is --------------------------------------------------

  lemma {:induction false} OneTail(q: seq<Page>, pg: Page, r: seq<Page>, r': seq<Page>)
    requires NoDup(q) && ToTail(q, pg, r) && ToTail(q, pg, r')
    ensures r == r'
  {
  }

  lemma {:induction false} OneTouch(f: Frames, p: Policy, pg: Page, q: Policy, q': Policy)
    requires MemOk(f, p) && Touches(f, p, pg, q) && Touches(f, p, pg, q')
    ensures q == q'
  {
    hide NoSharing, NoDup, ToTail, Resident;
    if p.Lru? { OneTail(p.queue, pg, q.queue, q'.queue); }
  }

  lemma {:induction false} OneSweep(h: nat, bits: seq<bool>, d: nat, n: nat, q: Policy, d': nat, n': nat, q': Policy)
    requires bits != [] && SweepsTo(h, bits, d, n, q) && SweepsTo(h, bits, d', n', q')
    ensures n == n' && q == q'
  {
    hide Place;
    assert d == d';
    assert q.refs == q'.refs;
  }

  lemma {:induction false} OneVictim(f: Frames, p: Policy, pg: Page, n: nat, q: Policy, n': nat, q': Policy)
    requires MemOk(f, p) && n < |f| && n' < |f| && Replaces(f, p, pg, n, q) && Replaces(f, p, pg, n', q')
    ensures n == n' && q == q'
  {
    hide NoDup, Resident, SweepsTo;
    if p.Clock? {
      var d: nat :| SweepsTo(p.hand, p.refs, d, n, q);
      var d': nat :| SweepsTo(p.hand, p.refs, d', n', q');
      OneSweep(p.hand, p.refs, d, n, q, d', n', q');
    }
  }

  lemma {:induction false} OneLoad(f: Frames, p: Policy, pg: Page, g: Frames, q: Policy, g': Frames, q': Policy)
    requires MemOk(f, p) && ComesIn(f, p, pg, g, q) && ComesIn(f, p, pg, g', q')
    ensures g == g' && q == q'
  {
    hide MemOk, Replaces;
    var n: nat :| GoesInto(f, p, pg, n, q) && g == f[n := Some(pg)];
    var n': nat :| GoesInto(f, p, pg, n', q') && g' == f[n' := Some(pg)];
    if None !in f { OneVictim(f, p, pg, n, q, n', q'); }
  }

  lemma {:induction false} OnePlace(q: seq<Proc>, p: Proc, r: seq<Proc>, r': seq<Proc>)
    requires TakesPlace(q, p, r) && TakesPlace(q, p, r')
    ensures r == r'
  {
    var n: nat :| StandsAt(q, p, n, r);
    var n': nat :| StandsAt(q, p, n', r');
  }

  lemma {:induction false} OneExit(f: Frames, p: Policy, pid: nat, g: Frames, q: Policy, g': Frames, q': Policy)
    requires Leaves(f, p, pid, g, q) && Leaves(f, p, pid, g', q')
    ensures g == g' && q == q'
  {
  }

  lemma {:induction false} OneMove(s: State, pg: Page, q: Policy, t: State, u: State)
    requires s.runnable != [] && (s.blocked != [] ==> s.blocked[0].waitTime > 0)
    requires MovedOn(s, pg, q, t) && MovedOn(s, pg, q, u)
    ensures t == u
  {
    hide Leaves, TakesPlace, Served, From, LineAt, InUse;
    var h := s.runnable[0].(pageTable := s.runnable[0].pageTable + {pg.vpn});
    if h.currentline == h.lastline {
      OneExit(s.frames, q, h.pid, t.frames, t.policy, u.frames, u.policy);
    } else if h.currentline >= h.currInterval.iv.high {
      var iv := h.currInterval.right.iv;
      var p := h.(currInterval := h.currInterval.right, currentline := iv.low, currentPos := iv.fpos);
      OnePlace(s.runnable[1..], p, t.runnable, u.runnable);
    }
  }

  lemma {:induction false} OneReference(env: Env, s: State, t: State, u: State)
    requires Inv(env, s) && s.runnable != [] && (s.blocked != [] ==> s.blocked[0].waitTime > 0)
    requires Referred(env, s, t) && Referred(env, s, u)
    ensures t == u
  {
    hide QueueInv, LinesInv, MemOk, Touches, MovedOn, Served, From, LineAt, InUse, Owns, Resident;
    if LineAt(From(s)) < |env.trace| {
      var pg := Page(s.runnable[0].pid, env.trace[LineAt(From(s))].vpn);
      if Some(pg) in s.frames {
        var q: Policy :| Touches(s.frames, s.policy, pg, q) && MovedOn(s, pg, q, t);
        var q': Policy :| Touches(s.frames, s.policy, pg, q') && MovedOn(s, pg, q', u);
        OneTouch(s.frames, s.policy, pg, q, q');
        OneMove(s, pg, q, t, u);
      }
    }
  }

  lemma {:induction false} OneDelivery(env: Env, s: State, t: State, u: State)
    requires Inv(env, s) && s.blocked != [] && Delivered(s, t) && Delivered(s, u)
    ensures t == u
  {
    hide QueueInv, LinesInv, MemOk, ComesIn, TakesPlace, InUse, Owns, Resident;
    var p := s.blocked[0];
    OneLoad(s.frames, s.policy, p.waitingOnPage.value, t.frames, t.policy, u.frames, u.policy);
    OnePlace(s.runnable, p.(waitTime := 0, waitingOnPage := None), t.runnable, u.runnable);
  }

  /** The relation leaves nothing open: an iteration of the state machine leads from `s` to `t`
      exactly if the relation holds of them. */
  lemma {:induction false} StepExactly(env: Env, s: State, t: State)
    requires Inv(env, s)
    ensures Iterates(env, s, t) <==> t == Step(env, s)
  {
    hide Inv, Step, Delivered, Jumped, Referred;
    StepIterates(env, s);
    TimersRun(env, s);
    if Iterates(env, s, t) && !s.aborted && (s.runnable != [] || s.blocked != []) {
      if s.blocked != [] && s.blocked[0].waitTime == 1 {
        OneDelivery(env, s, t, Step(env, s));
      } else if s.runnable == [] {
        OneJump(s, t, Step(env, s));
      } else {
        OneReference(env, s, t, Step(env, s));
      }
    }
  }

  lemma {:induction false} OneJump(s: State, t: State, u: State)
    requires s.blocked != [] && s.blocked[0].waitTime > 0 && Jumped(s, t) && Jumped(s, u)
    ensures t == u
  {
    hide InUse;
  }

  // ---- what this says of hits and exits -------------------------------------

  /** A hit moves no page, unless the process has run its last line; then exactly its own pages
      leave memory. */
  lemma {:induction false} HitMemory(env: Env, s: State)
    requires Inv(env, s) && EventOf(env, s).Touched?
    ensures s.runnable != [] && MemOk(s.frames, s.policy) && Resident(s.frames, EventOf(env, s).page)
    ensures var h, pg, t := s.runnable[0], EventOf(env, s).page, Step(env, s);
      if h.currentline != h.lastline then
        t.frames == s.frames && t.policy == NotifyAccess(s.policy, pg, FrameOf(s.frames, pg))
      else
        && |t.frames| == |s.frames|
        && forall i :: 0 <= i < |s.frames| ==>
             t.frames[i] == if s.frames[i].Some? && s.frames[i].value.pid == h.pid then None else s.frames[i]
  {
    hide Inv, Step, EventOf, Resident, NotifyAccess, TakesPlace, Served, From, LineAt, InUse, MemOk;
    TouchedPlan(env, s);
    RunsHead(env, s);
    MemoryOk(env, s);
  }

  lemma {:induction false} MemoryOk(env: Env, s: State)
    requires Inv(env, s)
    ensures MemOk(s.frames, s.policy)
  {
    hide QueueInv, LinesInv, MemOk;
  }

  /** Processes are entered as finished in the order in which they end, and stay so. */
  lemma {:induction false} FinishedStep(env: Env, s: State)
    requires Inv(env, s)
    ensures var t := Step(env, s);
      if EventOf(env, s).Touched? && s.runnable != [] && s.runnable[0].currentline == s.runnable[0].lastline
      then t.finished == s.finished + [s.runnable[0].pid] else t.finished == s.finished
  {
    hide Inv, Step, EventOf, Touches, Leaves, TakesPlace, Served, From, LineAt, InUse, ComesIn;
    StepIterates(env, s);
    TimersRun(env, s);
    Branch(env, s);
    if EventOf(env, s).Touched? { TouchedPlan(env, s); } else { Unfinished(env, s); }
  }

  lemma {:induction false} Unfinished(env: Env, s: State)
    requires Inv(env, s) && !EventOf(env, s).Touched?
    ensures Step(env, s).finished == s.finished
  {
    hide MemoryInv, LinesInv, MemOk, Waiting, CursorOk, LoadPage, EnqueuePriority, Allocated;
    HeadsOk(env, s);
  }

  lemma {:induction false} FinishedGrows(env: Env, s: State, n: nat)
    requires Inv(env, s)
    ensures s.finished <= Run(env, s, n).finished
  {
    hide Inv, Step, EventOf;
    if n > 0 {
      FinishedGrows(env, s, n - 1);
      FinishedStep(env, Run(env, s, n - 1));
    }
  }
}
