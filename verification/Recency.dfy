/** In every run, however many processes take part, the eviction queues are ordered by
    time: LRU by last use, FIFO by load.  So the victim is the page used (loaded) longest ago. */
module Recency {
  import opened Types
  import opened Replacement
  import opened ProcessModel
  import opened Machine
  import opened Runs
  import opened Iterations

  // ---- what an iteration does to the policy ---------------------------------

  /** The policy afterwards: told of the load or the hit, and, if a process has ended,
      rid of that process's pages. */
  ghost predicate PolicyMoved(s: State, e: Event, t: State) {
    match e
    case Loaded(pg) => MemOk(s.frames, s.policy) && !Resident(s.frames, pg)
        && t.policy == LoadPage(s.frames, s.policy, pg).1
    case Touched(pg) =>
      && Resident(s.frames, pg)
      && var q := NotifyAccess(s.policy, pg, FrameOf(s.frames, pg));
         t.policy == q || exists gone: set<Page> :: t.policy == Forget(q, gone)
    case _ => t.policy == s.policy
  }

  lemma {:induction false} AdvancePolicy(u: State)
    requires u.runnable != [] && u.runnable[0].currInterval.Node?
    ensures Advance(u).policy == u.policy || Advance(u).policy == Forget(u.policy, PagesOf(u.runnable[0]))
  {
  }

  lemma {:induction false} HitPolicy(u: State, pg: Page)
    requires u.runnable != [] && u.runnable[0].currInterval.Node? && Resident(u.frames, pg)
    ensures var q := NotifyAccess(u.policy, pg, FrameOf(u.frames, pg));
      Hit(u, pg).policy == q || exists gone: set<Page> :: Hit(u, pg).policy == Forget(q, gone)
  {
    hide Advance;
    AdvancePolicy(u.(tmr := u.tmr + 1, policy := NotifyAccess(u.policy, pg, FrameOf(u.frames, pg))));
  }

  lemma {:induction false} LoadMoves(env: Env, s: State)
    requires Inv(env, s) && EventOf(env, s).Loaded?
    ensures PolicyMoved(s, EventOf(env, s), Step(env, s))
  {
    HeadsOk(env, s);
  }

  lemma {:induction false} TouchMoves(env: Env, s: State)
    requires Inv(env, s) && (EventOf(env, s).Touched? || EventOf(env, s).Faulted?)
    ensures PolicyMoved(s, EventOf(env, s), Step(env, s))
  {
    hide Inv, Step, EventOf, Hit, NotifyAccess, Forget, NextPage;
    RunsHead(env, s);
    FetchEffect(env, Tick(s));
    var u := Fetch(env, Tick(s));
    if EventOf(env, s).Touched? { HitPolicy(u, NextPage(env, s)); }
  }

  lemma {:induction false} StepMovesPolicy(env: Env, s: State)
    requires Inv(env, s)
    ensures PolicyMoved(s, EventOf(env, s), Step(env, s))
  {
    hide Inv, Step, PolicyMoved;
    match EventOf(env, s)
    case Loaded(_) => LoadMoves(env, s);
    case Touched(_) => TouchMoves(env, s);
    case Faulted(_) => TouchMoves(env, s);
    case _ => OtherMoves(env, s);
  }

  lemma {:induction false} OtherMoves(env: Env, s: State)
    requires Inv(env, s) && !EventOf(env, s).Loaded? && !EventOf(env, s).Touched? && !EventOf(env, s).Faulted?
    ensures PolicyMoved(s, EventOf(env, s), Step(env, s))
  {
    hide Inv;
  }

  // ---- stamps ---------------------------------------------------------------

  /** When each page was last loaded or hit. */
  ghost function LastUse(env: Env, s: State, n: nat): map<Page, nat>
    requires Inv(env, s)
  {
    if n == 0 then map[]
    else
      var t := Run(env, s, n - 1);
      match EventOf(env, t)
      case Loaded(pg) => LastUse(env, s, n - 1)[pg := Step(env, t).time]
      case Touched(pg) => LastUse(env, s, n - 1)[pg := Step(env, t).time]
      case _ => LastUse(env, s, n - 1)
  }

  /** When each page was last loaded. */
  ghost function LastLoad(env: Env, s: State, n: nat): map<Page, nat>
    requires Inv(env, s)
  {
    if n == 0 then map[]
    else
      var t := Run(env, s, n - 1);
      match EventOf(env, t)
      case Loaded(pg) => LastLoad(env, s, n - 1)[pg := Step(env, t).time]
      case _ => LastLoad(env, s, n - 1)
  }

  /** The pages of `q` in strictly increasing order of their stamps, none later than `now`. */
  ghost predicate Stamped(q: seq<Page>, stamp: map<Page, nat>, now: nat) {
    && (forall i :: 0 <= i < |q| ==> q[i] in stamp && stamp[q[i]] <= now)
    && forall i, j :: 0 <= i < j < |q| ==> stamp[q[i]] < stamp[q[j]]
  }

  lemma {:induction false} StampedTail(q: seq<Page>, stamp: map<Page, nat>, now: nat)
    requires Stamped(q, stamp, now) && q != []
    ensures Stamped(q[1..], stamp, now) && q[0] in stamp && stamp[q[0]] <= now
    ensures forall x :: x in q[1..] ==> x in stamp && stamp[q[0]] < stamp[x]
  {
  }

  lemma {:induction false} NothingStamped(stamp: map<Page, nat>, now: nat)
    ensures Stamped([], stamp, now)
  {
  }

  lemma {:induction false} StampedCons(x: Page, r: seq<Page>, stamp: map<Page, nat>, now: nat)
    requires Stamped(r, stamp, now) && x in stamp && stamp[x] <= now
    requires forall y :: y in r ==> y in stamp && stamp[x] < stamp[y]
    ensures Stamped([x] + r, stamp, now)
  {
  }

  lemma {:induction false} StampedFilter(q: seq<Page>, gone: set<Page>, stamp: map<Page, nat>, now: nat)
    requires Stamped(q, stamp, now)
    ensures Stamped(Filter(q, gone), stamp, now)
  {
    hide Stamped;
    if q == [] {
      assert Stamped([], stamp, now) by { NothingStamped(stamp, now); }
    } else {
      StampedTail(q, stamp, now);
      StampedFilter(q[1..], gone, stamp, now);
      var r := Filter(q[1..], gone);
      if q[0] !in gone { StampedCons(q[0], r, stamp, now); }
    }
  }


  /** A page stamped now goes to the tail. */
  lemma {:induction false} StampedSnoc(q: seq<Page>, pg: Page, stamp: map<Page, nat>, now: nat, time: nat)
    requires Stamped(q, stamp, now) && pg !in q && now < time
    ensures Stamped(q + [pg], stamp[pg := time], time)
  {
  }

  lemma {:induction false} StampedLater(q: seq<Page>, stamp: map<Page, nat>, now: nat, time: nat)
    requires Stamped(q, stamp, now) && now <= time
    ensures Stamped(q, stamp, time)
  {
  }

  lemma {:induction false} LoadStamps(f: Frames, p: Policy, pg: Page, stamp: map<Page, nat>, now: nat, time: nat)
    requires MemOk(f, p) && p.Queued() && !Resident(f, pg) && Stamped(p.queue, stamp, now) && now < time
    ensures var q := LoadPage(f, p, pg).1;
      q.Queued() && (q.Lru? <==> p.Lru?) && Stamped(q.queue, stamp[pg := time], time)
  {
    QueueLength(f, p);
    if HasFree(f) {
      StampedSnoc(p.queue, pg, stamp, now, time);
    } else {
      StampedTail(p.queue, stamp, now);
      StampedSnoc(p.queue[1..], pg, stamp, now, time);
    }
  }

  lemma {:induction false} TouchStamps(q: seq<Page>, pg: Page, gone: set<Page>, stamp: map<Page, nat>,
        now: nat, time: nat)
    requires Stamped(q, stamp, now) && now < time
    ensures var r := Filter(q, {pg}) + [pg];
      Stamped(r, stamp[pg := time], time) && Stamped(Filter(r, gone), stamp[pg := time], time)
  {
    StampedFilter(q, {pg}, stamp, now);
    StampedSnoc(Filter(q, {pg}), pg, stamp, now, time);
    StampedFilter(Filter(q, {pg}) + [pg], gone, stamp[pg := time], time);
  }

  lemma {:induction false} LruStep(s: State, e: Event, t: State, stamp: map<Page, nat>)
    requires s.policy.Lru? && Stamped(s.policy.queue, stamp, s.time) && PolicyMoved(s, e, t)
    requires if e.Loaded? || e.Touched? then s.time < t.time else s.time <= t.time
    ensures t.policy.Lru?
    ensures Stamped(t.policy.queue, if e.Loaded? || e.Touched? then stamp[e.page := t.time] else stamp, t.time)
  {
    match e
    case Loaded(pg) => LoadStamps(s.frames, s.policy, pg, stamp, s.time, t.time);
    case Touched(pg) =>
      var q := NotifyAccess(s.policy, pg, FrameOf(s.frames, pg));
      TouchStamps(s.policy.queue, pg, {}, stamp, s.time, t.time);
      if t.policy != q {
        var gone: set<Page> :| t.policy == Forget(q, gone);
        TouchStamps(s.policy.queue, pg, gone, stamp, s.time, t.time);
      }
    case _ => StampedLater(s.policy.queue, stamp, s.time, t.time);
  }

  lemma {:induction false} FifoStep(s: State, e: Event, t: State, stamp: map<Page, nat>)
    requires s.policy.Fifo? && Stamped(s.policy.queue, stamp, s.time) && PolicyMoved(s, e, t)
    requires if e.Loaded? then s.time < t.time else s.time <= t.time
    ensures t.policy.Fifo?
    ensures Stamped(t.policy.queue, if e.Loaded? then stamp[e.page := t.time] else stamp, t.time)
  {
    match e
    case Loaded(pg) => LoadStamps(s.frames, s.policy, pg, stamp, s.time, t.time);
    case Touched(pg) =>
      StampedLater(s.policy.queue, stamp, s.time, t.time);
      if t.policy != s.policy {
        var gone: set<Page> :| t.policy == Forget(s.policy, gone);
        StampedFilter(s.policy.queue, gone, stamp, t.time);
      }
    case _ => StampedLater(s.policy.queue, stamp, s.time, t.time);
  }

  lemma {:induction false} TimePasses(env: Env, s: State)
    requires Inv(env, s)
    ensures s.time <= Step(env, s).time
    ensures EventOf(env, s).Loaded? || EventOf(env, s).Touched? ==> s.time < Step(env, s).time
  {
    hide Inv, Step, EventOf;
    StepEffect(env, s);
  }

  /** In every run from an empty LRU queue, the queue lists the resident pages by strictly
      increasing time of last load or hit. */
  lemma {:induction false} LruByLastUse(env: Env, s: State, n: nat)
    requires Inv(env, s) && s.policy == Lru([])
    ensures var t := Run(env, s, n);
      t.policy.Lru? && Stamped(t.policy.queue, LastUse(env, s, n), t.time)
  {
    hide Inv, Step, EventOf, Stamped, PolicyMoved;
    if n == 0 {
      EmptyStamped(s.time);
    } else {
      LruByLastUse(env, s, n - 1);
      var t := Run(env, s, n - 1);
      StepMovesPolicy(env, t);
      TimePasses(env, t);
      LruStep(t, EventOf(env, t), Step(env, t), LastUse(env, s, n - 1));
    }
  }

  lemma {:induction false} EmptyStamped(now: nat)
    ensures Stamped([], map[], now)
  {
  }

  /** In every run from an empty FIFO queue, the queue lists the resident pages by strictly
      increasing time of load. */
  lemma {:induction false} FifoByLastLoad(env: Env, s: State, n: nat)
    requires Inv(env, s) && s.policy == Fifo([])
    ensures var t := Run(env, s, n);
      t.policy.Fifo? && Stamped(t.policy.queue, LastLoad(env, s, n), t.time)
  {
    hide Inv, Step, EventOf, Stamped, PolicyMoved;
    if n == 0 {
      EmptyStamped(s.time);
    } else {
      FifoByLastLoad(env, s, n - 1);
      var t := Run(env, s, n - 1);
      StepMovesPolicy(env, t);
      TimePasses(env, t);
      FifoStep(t, EventOf(env, t), Step(env, t), LastLoad(env, s, n - 1));
    }
  }

  /** The page in frame `n` has the smallest stamp of all resident pages. */
  ghost predicate Oldest(f: Frames, n: nat, stamp: map<Page, nat>) {
    && n < |f| && f[n].Some? && f[n].value in stamp
    && forall x :: Resident(f, x) && x != f[n].value ==> x in stamp && stamp[f[n].value] < stamp[x]
  }

  lemma {:induction false} VictimIsOldest(f: Frames, p: Policy, stamp: map<Page, nat>, now: nat)
    requires MemOk(f, p) && p.Queued() && !HasFree(f) && Stamped(p.queue, stamp, now)
    ensures Oldest(f, Victim(p, f).0, stamp)
  {
    QueueLength(f, p);
  }

  /** Whenever memory is full, LRU evicts the page used longest ago and FIFO the page
      loaded longest ago, over the whole history of the run. */
  lemma {:induction false} EvictsTheOldest(env: Env, s: State, n: nat)
    requires Inv(env, s) && (s.policy == Lru([]) || s.policy == Fifo([]))
    ensures var t := Run(env, s, n);
      && MemOk(t.frames, t.policy)
      && (!HasFree(t.frames) ==>
            Oldest(t.frames, Victim(t.policy, t.frames).0,
                   if s.policy.Lru? then LastUse(env, s, n) else LastLoad(env, s, n)))
  {
    hide Step, EventOf, Stamped, QueueInv, LinesInv, MemOk, Run, LastUse, LastLoad, HasFree;
    var t := Run(env, s, n);
    assert MemOk(t.frames, t.policy);
    if HasFree(t.frames) {
    } else if s.policy == Lru([]) {
      LruByLastUse(env, s, n);
      VictimIsOldest(t.frames, t.policy, LastUse(env, s, n), t.time);
    } else {
      FifoByLastLoad(env, s, n);
      VictimIsOldest(t.frames, t.policy, LastLoad(env, s, n), t.time);
    }
  }

  /** So the page a load replaces, with every frame in use, is the one used (under FIFO: loaded)
      longest ago. */
  lemma {:induction false} ReplacesTheOldest(env: Env, s: State, n: nat)
    requires Inv(env, s) && (s.policy == Lru([]) || s.policy == Fifo([]))
    ensures var t := Run(env, s, n);
      var stamp := if s.policy.Lru? then LastUse(env, s, n) else LastLoad(env, s, n);
      EventOf(env, t).Loaded? && None !in t.frames ==>
        exists k: nat ::
          Oldest(t.frames, k, stamp) && Step(env, t).frames == t.frames[k := Some(EventOf(env, t).page)]
  {
    hide Inv, Step, EventOf, Run, LastUse, LastLoad, Stamped, MemOk, Resident;
    var t := Run(env, s, n);
    if EventOf(env, t).Loaded? && None !in t.frames {
      MemoryOk(env, t);
      if s.policy.Lru? {
        LruByLastUse(env, s, n);
        var k := LoadReplaces(env, t);
        HeadIsOldest(t.frames, t.policy, k, LastUse(env, s, n), t.time);
      } else {
        FifoByLastLoad(env, s, n);
        var k := LoadReplaces(env, t);
        HeadIsOldest(t.frames, t.policy, k, LastLoad(env, s, n), t.time);
      }
    }
  }

  /** The frame a load goes into when none is free. */
  lemma {:induction false} LoadReplaces(env: Env, s: State) returns (k: nat)
    requires Inv(env, s) && EventOf(env, s).Loaded? && None !in s.frames && s.policy.Queued()
    ensures k < |s.frames| && s.policy.queue != [] && s.frames[k] == Some(s.policy.queue[0])
    ensures Step(env, s).frames == s.frames[k := Some(EventOf(env, s).page)]
  {
    hide Inv, Step, EventOf, Served, From, LineAt, InUse, TakesPlace;
    StepIterates(env, s);
    TimersRun(env, s);
    Branch(env, s);
    StepEffect(env, s);
    var pg, t := EventOf(env, s).page, Step(env, s);
    k :| GoesInto(s.frames, s.policy, pg, k, t.policy) && t.frames == s.frames[k := Some(pg)];
  }

  lemma {:induction false} HeadIsOldest(f: Frames, p: Policy, k: nat, stamp: map<Page, nat>, now: nat)
    requires MemOk(f, p) && p.Queued() && Stamped(p.queue, stamp, now)
    requires k < |f| && p.queue != [] && f[k] == Some(p.queue[0])
    ensures Oldest(f, k, stamp)
  {
  }

  /** In every reachable state of a Clock simulation whose memory is full, the bit under the
      hand is set.  So the frame refilled by the last eviction, where the hand still points,
      is the next victim exactly when every bit is set. */
  lemma {:induction false} ClockHandIsSet(env: Env, s: State, n: nat)
    requires Inv(env, s)
    ensures var t := Run(env, s, n); t.policy.Clock? && !HasFree(t.frames) ==>
      var h, r := t.policy.hand, t.policy.refs;
      && MemOk(t.frames, t.policy) && h < |r| && r[h]
      && (Victim(t.policy, t.frames).0 == h <==> forall i :: 0 <= i < |r| ==> r[i])
  {
    hide Step, QueueInv, LinesInv, Run, HasFree;
    var t := Run(env, s, n);
    if t.policy.Clock? && !HasFree(t.frames) {
      FullAtHand(env, t);
      ClockSparesHand(t.policy.refs, t.policy.hand);
    }
  }

  lemma {:induction false} FullAtHand(env: Env, t: State)
    requires Inv(env, t) && t.policy.Clock? && !HasFree(t.frames)
    ensures MemOk(t.frames, t.policy) && t.policy.refs[t.policy.hand]
  {
    hide QueueInv, LinesInv;
  }

  // ---- Random ---------------------------------------------------------------

  /** How many of the first `n` iterations bring in a page with every frame in use. */
  ghost function FullLoads(env: Env, s: State, n: nat): nat
    requires Inv(env, s)
  {
    if n == 0 then 0
    else
      var t := Run(env, s, n - 1);
      FullLoads(env, s, n - 1) + if EventOf(env, t).Loaded? && None !in t.frames then 1 else 0
  }

  lemma {:induction false} DrawStep(env: Env, s: State)
    requires Inv(env, s) && s.policy.Random?
    ensures var t := Step(env, s); var p := s.policy;
      if EventOf(env, s).Loaded? && None !in s.frames then
        && s.frames != [] && t.policy == Random(p.rand, p.draws + 1)
        && t.frames == s.frames[p.rand(p.draws) % |s.frames| := Some(EventOf(env, s).page)]
      else t.policy == p
  {
    hide Inv, Step, EventOf, Served, From, LineAt, InUse, TakesPlace;
    StepIterates(env, s);
    TimersRun(env, s);
    Branch(env, s);
    StepEffect(env, s);
    MemoryOk(env, s);
    if !EventOf(env, s).Loaded? { StepMovesPolicy(env, s); }
  }

  /** Under Random, on any stream of numbers, the frame refilled when none is free is the one
      named by the first number not used yet: one number for each earlier such load. */
  lemma {:induction false} RandomByDraws(env: Env, s: State, n: nat, rand: nat -> nat)
    requires Inv(env, s) && s.policy == Random(rand, 0)
    ensures var t := Run(env, s, n); EventOf(env, t).Loaded? && None !in t.frames ==>
      && t.frames != []
      && Step(env, t).frames ==
           t.frames[rand(FullLoads(env, s, n)) % |t.frames| := Some(EventOf(env, t).page)]
  {
    hide Inv, Step, EventOf, Run, FullLoads;
    DrawsCounted(env, s, n, rand);
    DrawStep(env, Run(env, s, n));
  }

  lemma {:induction false} DrawsCounted(env: Env, s: State, n: nat, rand: nat -> nat)
    requires Inv(env, s) && s.policy == Random(rand, 0)
    ensures Run(env, s, n).policy == Random(rand, FullLoads(env, s, n))
  {
    hide Inv, Step, EventOf;
    if n > 0 {
      DrawsCounted(env, s, n - 1, rand);
      DrawStep(env, Run(env, s, n - 1));
    }
  }
}
