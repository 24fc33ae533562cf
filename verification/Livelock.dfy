/** With a penalty of two ticks the loop need not end.  On the trace of JamTrace.dfy, with an
    even number of frames, every process in turn is dragged to the last line of the file and
    blocks there; then all of them take turns at that one position, and each page is replaced
    before the process it was loaded for runs again. */
module Livelock {
  import opened Types
  import opened Replacement
  import opened ProcessModel
  import opened TraceModel
  import opened Machine
  import opened MachineInvariant
  import opened Runs
  import opened Accounting
  import opened Aging
  import opened Views
  import opened JamTrace
  import opened ShortPenalty
  import GivingUp

  ghost predicate Jam(env: Env, m: nat) {
    m >= 3 && env.trace == Jammed(m) && env.penalty == 2 && env.size == 2 * m
  }

  // ---- memory ---------------------------------------------------------------

  /** Of processes that have come to the end, in the order in which they stand there, each
      one's last page will be gone by the time its turn comes; no other page but first pages
      of processes up to `top` is in memory. */
  ghost predicate Stocked(f: Frames, p: Policy, top: nat, n: nat, parked: seq<Seat>) {
    && Regular(f, p, n) && |parked| <= |f| + 1
    && (forall pg :: Resident(f, pg) ==> pg.pid <= top && (pg.vpn == 0 || (pg.vpn == 1 && Parks(parked, pg.pid))))
    && forall i :: 0 <= i < |parked| ==> Ages(f, p, Page(parked[i].pid, 1), |f| + 1 - |parked| + i)
  }

  ghost predicate Parks(parked: seq<Seat>, pid: nat) {
    exists i :: 0 <= i < |parked| && parked[i].pid == pid
  }

  lemma {:induction false} AgesLonger(f: Frames, p: Policy, x: Page, m: nat)
    requires MemOk(f, p) && Ages(f, p, x, m)
    ensures Ages(f, p, x, m + 1)
  {
  }

  lemma {:induction false} AgesNoMore(f: Frames, p: Policy, x: Page, n: nat)
    requires Regular(f, p, n) && Ages(f, p, x, 0)
    ensures !Resident(f, x)
  {
    hide NoSharing, NoDup, Unset;
    if p.Queued() {
      QueueLength(f, p);
      QueueHas(f, p, x);
    } else if p.Clock? {
      forall v | 0 <= v < |f| ensures f[v] != Some(x) { HandIsSetHere(f, p, v); }
    }
  }

  lemma {:induction false} HandIsSetHere(f: Frames, p: Policy, v: nat)
    requires MemOk(f, p) && p.Clock? && v < |f|
    ensures |p.refs| == |f| && p.hand < |f| && (v != p.hand ==> Behind(p.hand, v, |f|) > 0) && Allocated(f) <= |f|
  {
  }

  /** A first page comes in. */
  lemma {:induction false} StockFirst(f: Frames, p: Policy, top: nat, n: nat, parked: seq<Seat>, pid: nat)
    requires Stocked(f, p, top, n, parked) && !Resident(f, Page(pid, 0)) && pid <= top
    ensures MemOk(f, p)
    ensures var (g, r) := LoadPage(f, p, Page(pid, 0));
      && Stocked(g, r, top, n, parked) && Resident(g, Page(pid, 0))
      && Newest(g, r, Page(pid, 0)) && Marked(g, r, Page(pid, 0))
  {
    hide MemOk, Regular, Ages, LoadPage, Newest, Marked;
    var pg := Page(pid, 0);
    RegularParts(f, p, n);
    LoadRegular(f, p, pg, n);
    LoadKeepsMemOk(f, p, pg);
    LoadNew(f, p, pg, n);
    forall i | 0 <= i < |parked|
      ensures Ages(LoadPage(f, p, pg).0, LoadPage(f, p, pg).1, Page(parked[i].pid, 1), |f| + 1 - |parked| + i)
    {
      AgesLonger(f, p, Page(parked[i].pid, 1), |f| + 1 - |parked| + i);
      LoadAges(f, p, pg, n, Page(parked[i].pid, 1), |f| + 1 - |parked| + i);
    }
  }

  lemma {:induction false} RegularParts(f: Frames, p: Policy, n: nat)
    requires Regular(f, p, n)
    ensures MemOk(f, p) && 1 <= n < |f|
  {
  }

  /** A last page comes in, and its process joins the others at the end. */
  lemma {:induction false} StockLast(f: Frames, p: Policy, top: nat, n: nat, parked: seq<Seat>, a: Seat)
    requires Stocked(f, p, top, n, parked) && !Resident(f, Page(a.pid, 1)) && a.pid <= top
    requires |parked| <= |f| && forall i :: 0 <= i < |parked| ==> parked[i].pid != a.pid
    ensures MemOk(f, p)
    ensures var (g, r) := LoadPage(f, p, Page(a.pid, 1)); Stocked(g, r, top, n, parked + [a])
    ensures forall y :: Resident(f, y) && Newest(f, p, y) ==> Resident(LoadPage(f, p, Page(a.pid, 1)).0, y)
  {
    hide MemOk, Regular, Ages, LoadPage, Newest, Marked;
    var pg := Page(a.pid, 1);
    RegularParts(f, p, n);
    LoadRegular(f, p, pg, n);
    LoadKeepsMemOk(f, p, pg);
    LoadNew(f, p, pg, n);
    var (g, r) := LoadPage(f, p, pg);
    var all := parked + [a];
    assert all[|parked|] == a;
    forall i | 0 <= i < |all| ensures Ages(g, r, Page(all[i].pid, 1), |f| + 1 - |all| + i) {
      if i < |parked| { LoadAges(f, p, pg, n, Page(parked[i].pid, 1), |f| - |parked| + i); }
    }
    forall x | Resident(g, x)
      ensures x.pid <= top && (x.vpn == 0 || (x.vpn == 1 && Parks(all, x.pid)))
    {
      if x != pg && x.vpn == 1 {
        var i :| 0 <= i < |parked| && parked[i].pid == x.pid;
        assert all[i].pid == x.pid;
      }
    }
    forall y | Resident(f, y) && Newest(f, p, y) ensures Resident(g, y) { NewestStays(f, p, pg, n, y); }
  }

  /** A first page is touched. */
  lemma {:induction false} StockTouch(f: Frames, p: Policy, top: nat, n: nat, parked: seq<Seat>, pid: nat)
    requires Stocked(f, p, top, n, parked) && Resident(f, Page(pid, 0)) && MemOk(f, p)
    requires Marked(f, p, Page(pid, 0)) || n > 1
    ensures var pg := Page(pid, 0); var r := NotifyAccess(p, pg, FrameOf(f, pg));
      && Stocked(f, r, top, if Marked(f, p, pg) then n else n - 1, parked)
      && Marked(f, r, pg) && forall x :: Marked(f, p, x) ==> Marked(f, r, x)
  {
    hide MemOk, Regular, Ages, NotifyAccess, Newest, Marked, Resident;
    var pg := Page(pid, 0);
    TouchRegular(f, p, pg, n);
    TouchMarks(f, p, pg);
    forall i | 0 <= i < |parked|
      ensures Ages(f, NotifyAccess(p, pg, FrameOf(f, pg)), Page(parked[i].pid, 1), |f| + 1 - |parked| + i)
    {
      TouchAges(f, p, pg, n, Page(parked[i].pid, 1), |f| + 1 - |parked| + i);
    }
  }

  /** With one more process at the end than there are frames, the first one's page is gone. */
  lemma {:induction false} FirstIsGone(f: Frames, p: Policy, top: nat, n: nat, parked: seq<Seat>)
    requires Stocked(f, p, top, n, parked) && |parked| == |f| + 1
    ensures !Resident(f, Page(parked[0].pid, 1)) && Stocked(f, p, top, n, parked[1..])
  {
    hide Regular, Ages, MemOk, Resident;
    AgesNoMore(f, p, Page(parked[0].pid, 1), n);
    forall pg | Resident(f, pg) ensures pg.vpn == 1 ==> Parks(parked[1..], pg.pid) {
      if pg.vpn == 1 {
        var i :| 0 <= i < |parked| && parked[i].pid == pg.pid;
        assert i > 0 && parked[1..][i - 1].pid == pg.pid;
      }
    }
    RegularParts(f, p, n);
    forall i | 0 <= i < |parked[1..]| ensures Ages(f, p, Page(parked[1..][i].pid, 1), |f| + 1 - |parked[1..]| + i) {
      assert Ages(f, p, Page(parked[i + 1].pid, 1), |f| + 1 - |parked| + (i + 1));
    }
  }

  // ---- one pair after another -----------------------------------------------

  /** A process at the end, wherever it came from. */
  function FirstAtEnd(m: nat, r: nat): Seat
    requires r <= m
  {
    FirstSeat(m, r).(line := SecondStart(m, r), pos := End(m))
  }

  function SecondAtEnd(m: nat, r: nat): Seat
    requires r <= m
  {
    SecondSeat(m, r).(line := SecondStart(m, r) + 2, pos := End(m))
  }

  /** All of `parked` stand at the end, and their pids are below `pid`. */
  ghost predicate AtEnd(m: nat, parked: seq<Seat>, pid: nat) {
    forall i :: 0 <= i < |parked| ==> parked[i].pos == End(m) && parked[i].wait == 0 && parked[i].pid < pid
  }

  /** Both processes of pair `r` wait for their first pages; the pairs before have come to the end. */
  ghost predicate PairWaits(m: nat, s: State, r: nat, n: nat, parked: seq<Seat>)
    requires r <= m
  {
    && Looks(s, View(Rest(m, r, parked), [FirstSeat(m, r).(wait := 1), SecondSeat(m, r).(wait := 2)],
                     SecondPid(m, r), PosAfterReading(SecondStart(m, r))))
    && Stocked(s.frames, s.policy, SecondPid(m, r), n, parked)
    && AtEnd(m, parked, FirstPid(m, r)) && |parked| == 2 * (m - r)
  }

  /** Pair `r` has come to the end too, its second process still waiting for its last page. */
  ghost predicate PairEnds(m: nat, s: State, r: nat, n: nat, parked: seq<Seat>)
    requires r <= m
  {
    && Looks(s, View(Rest(m, r, parked), [SecondAtEnd(m, r).(wait := 2)],
                     SecondPid(m, r), PosAfterReading(Size(m) - 1)))
    && Stocked(s.frames, s.policy, SecondPid(m, r), n, parked)
    && AtEnd(m, parked, SecondPid(m, r)) && |parked| == 2 * (m - r) + 1
  }

  /** Who stands behind pair `r`: the pairs not started, and the processes at the end. */
  function Rest(m: nat, r: nat, parked: seq<Seat>): seq<Seat>
    requires r <= m
  {
    Unstarted(m, r) + parked
  }

  /** Behind the pairs already started stand the others, and then those at the end. */
  lemma {:induction false} Standing(m: nat, r: nat, parked: seq<Seat>, pid: nat)
    requires r <= m && AtEnd(m, parked, pid)
    ensures var q := Rest(m, r, parked);
      forall i :: 0 <= i < |q| ==> 2 * SecondStart(m, r) < q[i].pos <= End(m)
  {
    hide FirstStart, Tail;
    var q := Rest(m, r, parked);
    forall i | 0 <= i < |q| ensures 2 * SecondStart(m, r) < q[i].pos <= End(m) {
      if i < |Unstarted(m, r)| { UnstartedBounds(m, r, i); }
    }
  }

  /** Line `i` of a pair, read by a process. */
  lemma {:induction false} VpnAt(m: nat, i: nat)
    requires i < Size(m)
    ensures Jammed(m)[i].vpn == if i == Size(m) - 1 then 1 else 0
  {
  }

  lemma {:induction false} StockParts(f: Frames, p: Policy, top: nat, n: nat, parked: seq<Seat>)
    requires Stocked(f, p, top, n, parked)
    ensures Regular(f, p, n) && MemOk(f, p)
  {
  }

  /** A process that has run the first of its lines. */
  function Begun(a: Seat): Seat { a.(line := a.line + 1) }

  /** The first process of pair `r` has run its first line, the second is next to be served. */
  ghost predicate FirstGoes(m: nat, s: State, r: nat, n: nat, parked: seq<Seat>)
    requires r <= m
  {
    var a, pg := FirstSeat(m, r), Page(FirstPid(m, r), 0);
    && Looks(s, View([Begun(a)] + Rest(m, r, parked), [SecondSeat(m, r).(wait := 1)], a.pid,
                     PosAfterReading(FirstStart(m, r))))
    && Stocked(s.frames, s.policy, SecondPid(m, r), n, parked)
    && MemOk(s.frames, s.policy) && Resident(s.frames, pg) && Newest(s.frames, s.policy, pg)
  }

  /** The first process is `i` lines along the lines behind it, the second stands at its own. */
  ghost predicate Walking(m: nat, s: State, r: nat, n: nat, parked: seq<Seat>, i: nat)
    requires r <= m
  {
    var a, b := FirstSeat(m, r), SecondSeat(m, r);
    && Looks(s, View([a.(line := a.line + 1 + i), b] + Rest(m, r, parked), [], a.pid,
                     if i == 0 then b.pos else b.pos + 2 * i + 1))
    && Stocked(s.frames, s.policy, b.pid, if i == 0 then n + 1 else n, parked) && MemOk(s.frames, s.policy)
    && n >= 1 && Resident(s.frames, Page(a.pid, 0)) && (i > 0 ==> Marked(s.frames, s.policy, Page(a.pid, 0)))
    && Resident(s.frames, Page(b.pid, 0)) && Marked(s.frames, s.policy, Page(b.pid, 0))
  }

  /** The first process has come to the end and waits, the second has run its first line. */
  ghost predicate SecondGoes(m: nat, s: State, r: nat, n: nat, parked: seq<Seat>)
    requires r <= m
  {
    && Looks(s, View([Begun(SecondSeat(m, r))] + Rest(m, r, parked), [FirstAtEnd(m, r).(wait := 1)],
                     SecondPid(m, r), PosAfterReading(SecondStart(m, r))))
    && Stocked(s.frames, s.policy, SecondPid(m, r), n, parked)
  }

  /** The first process gets its page and runs its first line. */
  lemma {:induction false} FirstRuns(env: Env, m: nat, s: State, r: nat, n: nat, parked: seq<Seat>)
    requires Inv(env, s) && Jam(env, m) && r <= m && PairWaits(m, s, r, n, parked)
    ensures FirstGoes(m, Run(env, s, 2), r, n, parked)
  {
    hide Inv, Step, Looks, Stocked, Jammed, Unstarted, MemOk, LoadPage, NotifyAccess, Resident, Newest, Marked, Tail,
      Regular, Delivers, Refers, Rest;
    var a, b, q := FirstSeat(m, r), SecondSeat(m, r), Rest(m, r, parked);
    Standing(m, r, parked, FirstPid(m, r));
    VpnAt(m, FirstStart(m, r));
    assert Run(env, s, 0) == s;
    ToFront(q, a, [b.(wait := 2)], b.pid, PosAfterReading(SecondStart(m, r)));
    assert [a.(wait := 1)] + [b.(wait := 2)] == [a.(wait := 1), b.(wait := 2)];
    var v1 := View([a] + q, [b.(wait := 2)], b.pid, a.pos);
    DeliveryStep(env, s, View(q, [a.(wait := 1)] + [b.(wait := 2)], b.pid, PosAfterReading(SecondStart(m, r))), 0, v1);
    StockFirst(s.frames, s.policy, b.pid, n, parked, a.pid);
    var u := Run(env, s, 1);
    assert u == Step(env, s);
    StockParts(u.frames, u.policy, b.pid, n, parked);
    HitsAt(a, q, [b.(wait := 2)], b.pid, a.pos, 2);
    assert TickSeats([b.(wait := 2)]) == [b.(wait := 1)];
    ReferenceStep(env, u, v1, true,
      View([Begun(a)] + q, [b.(wait := 1)], a.pid, PosAfterReading(FirstStart(m, r))));
    StockTouch(u.frames, u.policy, b.pid, n, parked, a.pid);
    TouchNewest(u.frames, u.policy, Page(a.pid, 0), n);
    assert Run(env, s, 2) == Step(env, u);
  }

  /** The second process gets its page, and drags the first to its own first line. */
  lemma {:induction false} SecondComes(env: Env, m: nat, s: State, r: nat, n: nat, parked: seq<Seat>)
    requires Inv(env, s) && Jam(env, m) && r <= m && n >= 1 && AtEnd(m, parked, FirstPid(m, r))
    requires FirstGoes(m, s, r, n + 1, parked)
    ensures Walking(m, Step(env, s), r, n, parked, 0)
  {
    hide Inv, Step, Looks, Stocked, Jammed, Unstarted, MemOk, LoadPage, Resident, Newest, Marked, Tail,
      Regular, Delivers, Rest;
    var a, b, q := FirstSeat(m, r), SecondSeat(m, r), Rest(m, r, parked);
    Standing(m, r, parked, FirstPid(m, r));
    VpnAt(m, SecondStart(m, r));
    ToSecond(Begun(a), q, b, [], a.pid, PosAfterReading(FirstStart(m, r)));
    assert [b.(wait := 1)] + [] == [b.(wait := 1)];
    DeliveryStep(env, s, View([Begun(a)] + q, [b.(wait := 1)] + [], a.pid, PosAfterReading(FirstStart(m, r))), 1,
      View([Begun(a), b] + q, [], a.pid, b.pos));
    StockParts(s.frames, s.policy, b.pid, n + 1, parked);
    NewestStays(s.frames, s.policy, Page(b.pid, 0), n + 1, Page(a.pid, 0));
    StockFirst(s.frames, s.policy, b.pid, n + 1, parked, b.pid);
    StockParts(Step(env, s).frames, Step(env, s).policy, b.pid, n + 1, parked);
  }

  /** It walks on: every line to the last but one is of its own page. */
  lemma {:induction false} WalkStep(env: Env, m: nat, s: State, r: nat, n: nat, parked: seq<Seat>, i: nat)
    requires Inv(env, s) && Jam(env, m) && r <= m && i <= Tail(r) && Walking(m, s, r, n, parked, i)
    ensures Walking(m, Step(env, s), r, n, parked, i + 1)
  {
    hide Inv, Step, Looks, Stocked, Jammed, Unstarted, MemOk, NotifyAccess, Resident, Marked, Tail, Regular, Refers,
      Rest;
    var a, b, q := FirstSeat(m, r), SecondSeat(m, r), Rest(m, r, parked);
    var h := a.(line := a.line + 1 + i);
    var c := if i == 0 then b.pos else b.pos + 2 * i + 1;
    VpnAt(m, SecondStart(m, r) + i);
    assert [h, b] + q == [h] + ([b] + q) && [h.(line := h.line + 1), b] + q == [h.(line := h.line + 1)] + ([b] + q);
    HitsAt(h, [b] + q, [], a.pid, c, 2);
    assert TickSeats([]) == [];
    ReferenceStep(env, s, View([h] + ([b] + q), [], a.pid, c), true,
      View([h.(line := h.line + 1)] + ([b] + q), [], a.pid, PosAfterReading(SecondStart(m, r) + i)));
    var k := if i == 0 then n + 1 else n;
    StockTouch(s.frames, s.policy, b.pid, k, parked, a.pid);
    StockLess(s.frames, Step(env, s).policy, b.pid, n, parked);
  }

  lemma {:induction false} StockLess(f: Frames, p: Policy, top: nat, n: nat, parked: seq<Seat>)
    requires n >= 1 && (Stocked(f, p, top, n, parked) || Stocked(f, p, top, n + 1, parked))
    ensures Stocked(f, p, top, n, parked) && MemOk(f, p)
  {
    hide Ages;
  }

  lemma {:induction false} Walk(env: Env, m: nat, s: State, r: nat, n: nat, parked: seq<Seat>, i: nat)
    requires Inv(env, s) && Jam(env, m) && r <= m && i <= Tail(r) + 1 && Walking(m, s, r, n, parked, 0)
    ensures Walking(m, Run(env, s, i), r, n, parked, i)
  {
    hide Inv, Step, Walking, Tail, Jam;
    assert Run(env, s, 0) == s;
    if i > 0 {
      Walk(env, m, s, r, n, parked, i - 1);
      WalkStep(env, m, Run(env, s, i - 1), r, n, parked, i - 1);
    }
  }

  lemma {:induction false} NoLastPage(f: Frames, p: Policy, top: nat, n: nat, parked: seq<Seat>, pid: nat)
    requires Stocked(f, p, top, n, parked) && forall i :: 0 <= i < |parked| ==> parked[i].pid != pid
    ensures !Resident(f, Page(pid, 1))
  {
  }

  lemma {:induction false} NoPageYet(f: Frames, p: Policy, top: nat, n: nat, parked: seq<Seat>, pg: Page)
    requires Stocked(f, p, top, n, parked) && pg.pid > top
    ensures !Resident(f, pg)
  {
  }

  /** At the last line the first process blocks, and the second runs its own first line. */
  lemma {:induction false} SecondRuns(env: Env, m: nat, s: State, r: nat, n: nat, parked: seq<Seat>)
    requires Inv(env, s) && Jam(env, m) && r <= m && AtEnd(m, parked, FirstPid(m, r))
    requires Walking(m, s, r, n, parked, Tail(r) + 1)
    ensures SecondGoes(m, Run(env, s, 2), r, n, parked)
  {
    hide Inv, Step, Looks, Stocked, Jammed, Unstarted, MemOk, NotifyAccess, Resident, Marked, Tail, Regular, Refers,
      Rest;
    var a, b, q := FirstSeat(m, r), SecondSeat(m, r), Rest(m, r, parked);
    var h := a.(line := SecondStart(m, r));
    VpnAt(m, Size(m) - 1);
    VpnAt(m, SecondStart(m, r));
    assert Run(env, s, 0) == s;
    assert [h, b] + q == [h] + ([b] + q);
    MissesAt(h, [b] + q, [], a.pid, End(m), 2);
    assert TickSeats([]) == [] && [] + [FirstAtEnd(m, r).(wait := 2)] == [FirstAtEnd(m, r).(wait := 2)];
    NoLastPage(s.frames, s.policy, b.pid, n, parked, a.pid);
    var v := View([b] + q, [FirstAtEnd(m, r).(wait := 2)], a.pid, PosAfterReading(Size(m) - 1));
    ReferenceStep(env, s, View([h] + ([b] + q), [], a.pid, End(m)), false, v);
    var u := Run(env, s, 1);
    assert u == Step(env, s);
    HitsAt(b, q, [FirstAtEnd(m, r).(wait := 2)], a.pid, v.cursor, 2);
    assert TickSeats([FirstAtEnd(m, r).(wait := 2)]) == [FirstAtEnd(m, r).(wait := 1)];
    ReferenceStep(env, u, v, true,
      View([Begun(b)] + q, [FirstAtEnd(m, r).(wait := 1)], b.pid, PosAfterReading(SecondStart(m, r))));
    StockTouch(u.frames, u.policy, b.pid, n, parked, b.pid);
    assert Run(env, s, 2) == Step(env, u);
  }

  /** The first process is served again, drags the second to the end, and that blocks too. */
  lemma {:induction false} PairParks(env: Env, m: nat, s: State, r: nat, n: nat, parked: seq<Seat>)
    requires Inv(env, s) && Jam(env, m) && r <= m && AtEnd(m, parked, FirstPid(m, r)) && |parked| == 2 * (m - r)
    requires SecondGoes(m, s, r, n, parked)
    ensures PairEnds(m, Run(env, s, 2), r, n, parked + [FirstAtEnd(m, r)])
  {
    hide Inv, Step, Looks, Stocked, Jammed, Unstarted, MemOk, LoadPage, NotifyAccess, Resident, Newest, Marked, Tail,
      Regular, Delivers, Refers;
    var a, b, q := FirstAtEnd(m, r), SecondSeat(m, r), Rest(m, r, parked);
    var all := parked + [a];
    Standing(m, r, parked, FirstPid(m, r));
    VpnAt(m, Size(m) - 1);
    assert Run(env, s, 0) == s;
    assert forall i :: 0 <= i < |[Begun(b)] + q| ==> ([Begun(b)] + q)[i].pos <= a.pos;
    ToBack([Begun(b)] + q, a, [], b.pid, PosAfterReading(SecondStart(m, r)));
    assert [a.(wait := 1)] + [] == [a.(wait := 1)];
    assert [Begun(b)] + q + [a] == [Begun(b)] + Rest(m, r, all);
    var v := View([Begun(b)] + Rest(m, r, all), [], b.pid, a.pos);
    var v0 := View([Begun(b)] + q, [a.(wait := 1)] + [], b.pid, PosAfterReading(SecondStart(m, r)));
    DeliveryStep(env, s, v0, |q| + 1, v);
    FrameCountOf(env, s);
    StockLast(s.frames, s.policy, b.pid, n, parked, a);
    var u := Run(env, s, 1);
    assert u == Step(env, s);
    MissesAt(Begun(b), Rest(m, r, all), [], b.pid, a.pos, 2);
    assert TickSeats([]) == [] && [] + [SecondAtEnd(m, r).(wait := 2)] == [SecondAtEnd(m, r).(wait := 2)];
    NoLastPage(u.frames, u.policy, b.pid, n, all, b.pid);
    ReferenceStep(env, u, v, false,
      View(Rest(m, r, all), [SecondAtEnd(m, r).(wait := 2)], b.pid, PosAfterReading(Size(m) - 1)));
    assert Run(env, s, 2) == Step(env, u);
  }

  lemma {:induction false} FrameCountOf(env: Env, s: State)
    requires Inv(env, s)
    ensures |s.frames| == env.size
  {
    FrameCount(env, s);
  }

  /** One pair after another: from waiting for its first pages to the end. */
  lemma {:induction false} PairGoes(env: Env, m: nat, s: State, r: nat, n: nat, parked: seq<Seat>) returns (k: nat)
    requires Inv(env, s) && Jam(env, m) && r <= m && n >= 1 && PairWaits(m, s, r, n + 1, parked)
    ensures PairEnds(m, Run(env, s, k), r, n, parked + [FirstAtEnd(m, r)])
  {
    hide Inv, Step, Run, Looks, Stocked, Jam, FirstGoes, Walking, SecondGoes, PairEnds, AtEnd;
    FirstRuns(env, m, s, r, n + 1, parked);
    var t := Run(env, s, 2);
    SecondComes(env, m, t, r, n, parked);
    OneIteration(env, t);
    var u := Run(env, t, 1);
    Walk(env, m, u, r, n, parked, Tail(r) + 1);
    var w := Run(env, u, Tail(r) + 1);
    SecondRuns(env, m, w, r, n, parked);
    PairParks(env, m, Run(env, w, 2), r, n, parked);
    RunAdd(env, w, 2, 2);
    RunAdd(env, u, Tail(r) + 1, 4);
    RunAdd(env, t, 1, Tail(r) + 5);
    RunAdd(env, s, 2, Tail(r) + 6);
    k := Tail(r) + 8;
  }

  lemma {:induction false} OneIteration(env: Env, s: State)
    requires Inv(env, s)
    ensures Run(env, s, 1) == Step(env, s)
  {
    hide Inv, Step;
    assert Run(env, s, 0) == s;
  }

  /** Between two pairs: both processes of the next one miss, and the last one of this pair
      joins the others at the end. */
  lemma {:induction false} NextPair(env: Env, m: nat, s: State, r: nat, n: nat, parked: seq<Seat>)
    requires Inv(env, s) && Jam(env, m) && r < m && PairEnds(m, s, r + 1, n, parked)
    ensures PairWaits(m, Run(env, s, 3), r, n, parked + [SecondAtEnd(m, r + 1)])
  {
    hide Inv, Step, Looks, Stocked, Jammed, MemOk, LoadPage, NotifyAccess, Resident, Newest, Marked, Tail,
      Regular, Delivers, Refers, Unstarted;
    var a, b, z := FirstSeat(m, r), SecondSeat(m, r), SecondAtEnd(m, r + 1);
    var q, all := Rest(m, r, parked), parked + [z];
    Standing(m, r, parked, SecondPid(m, r + 1));
    VpnAt(m, Size(m) - 1);
    VpnAt(m, FirstStart(m, r));
    VpnAt(m, SecondStart(m, r));
    assert Run(env, s, 0) == s;
    PairUnstarted(m, r, parked);
    var c := PosAfterReading(Size(m) - 1);
    MissesAt(a, [b] + q, [z.(wait := 2)], z.pid, c, 2);
    assert TickSeats([z.(wait := 2)]) == [z.(wait := 1)];
    NoPageYet(s.frames, s.policy, z.pid, n, parked, Page(a.pid, 0));
    var v1 := View([b] + q, [z.(wait := 1)] + [a.(wait := 2)], a.pid, PosAfterReading(FirstStart(m, r)));
    ReferenceStep(env, s, View([a] + ([b] + q), [z.(wait := 2)], z.pid, c), false, v1);
    var u := Run(env, s, 1);
    assert u == Step(env, s);
    assert forall i :: 0 <= i < |[b] + q| ==> ([b] + q)[i].pos <= z.pos;
    ToBack([b] + q, z, [a.(wait := 2)], a.pid, v1.cursor);
    assert [b] + q + [z] == [b] + Rest(m, r, all);
    var v2 := View([b] + Rest(m, r, all), [a.(wait := 2)], a.pid, z.pos);
    DeliveryStep(env, u, v1, |q| + 1, v2);
    FrameCountOf(env, u);
    StockLast(u.frames, u.policy, z.pid, n, parked, z);
    var w := Run(env, s, 2);
    assert w == Step(env, u);
    MissesAt(b, Rest(m, r, all), [a.(wait := 2)], a.pid, z.pos, 2);
    assert TickSeats([a.(wait := 2)]) == [a.(wait := 1)];
    assert [a.(wait := 1)] + [b.(wait := 2)] == [a.(wait := 1), b.(wait := 2)];
    NoPageYet(w.frames, w.policy, z.pid, n, all, Page(b.pid, 0));
    ReferenceStep(env, w, v2, false,
      View(Rest(m, r, all), [a.(wait := 1)] + [b.(wait := 2)], b.pid, PosAfterReading(SecondStart(m, r))));
    StockHigher(w.frames, w.policy, z.pid, b.pid, n, all);
    assert Run(env, s, 3) == Step(env, w);
  }

  lemma {:induction false} PairUnstarted(m: nat, r: nat, parked: seq<Seat>)
    requires r < m
    ensures Rest(m, r + 1, parked) == [FirstSeat(m, r)] + ([SecondSeat(m, r)] + Rest(m, r, parked))
  {
  }

  lemma {:induction false} StockHigher(f: Frames, p: Policy, top: nat, more: nat, n: nat, parked: seq<Seat>)
    requires Stocked(f, p, top, n, parked) && top <= more
    ensures Stocked(f, p, more, n, parked)
  {
    hide Ages, Regular;
  }

  lemma {:induction false} PairsGo(env: Env, m: nat, s: State, r: nat, n: nat, parked: seq<Seat>)
    returns (k: nat, all: seq<Seat>)
    requires Inv(env, s) && Jam(env, m) && r <= m && n >= r + 2 && PairWaits(m, s, r, n, parked)
    ensures PairEnds(m, Run(env, s, k), 0, n - r - 1, all)
    decreases r
  {
    hide Inv, Step, Run, PairWaits, PairEnds, Jam;
    k := PairGoes(env, m, s, r, n - 1, parked);
    all := parked + [FirstAtEnd(m, r)];
    if r > 0 {
      var t := Run(env, s, k);
      NextPair(env, m, t, r - 1, n - 1, all);
      var u := Run(env, t, 3);
      var l, rest := PairsGo(env, m, u, r - 1, n - 1, all + [SecondAtEnd(m, r)]);
      RunAdd(env, t, 3, l);
      RunAdd(env, s, k, 3 + l);
      k, all := k + (3 + l), rest;
    }
  }

  // ---- the start ------------------------------------------------------------

  lemma {:induction false} AtStart(env: Env, m: nat, policy: Policy)
    requires Jam(env, m) && Start(env, policy)
    ensures Looks(Begin(env, policy), View(Unstarted(m, m + 1), [], FirstPid(m, m), 0))
  {
    hide MemOk, Inv, Parse, Jammed, Unstarted;
    JammedParse(m, 0);
    assert Parse(Jammed(m), Size(m)) + [] == Parse(Jammed(m), Size(m));
    UnstartedSit(m, m + 1);
  }

  lemma {:induction false} NothingStocked(env: Env, m: nat, policy: Policy)
    requires Jam(env, m) && InTurn(policy, env.size)
    ensures Stocked(EmptyFrames(env.size), policy, 0, 2 * m - 1, [])
  {
    hide Jammed;
    EmptyIsRegular(policy, env.size, 2 * m - 1);
  }

  /** At first both processes of the first pair miss. */
  lemma {:induction false} FirstPair(env: Env, m: nat, policy: Policy)
    requires Jam(env, m) && Start(env, policy) && InTurn(policy, env.size)
    ensures PairWaits(m, Run(env, Begin(env, policy), 2), m, 2 * m - 1, [])
  {
    hide Inv, Step, Looks, Stocked, Jammed, MemOk, Resident, Regular, Refers, Begin, Start, InTurn, Tail, Unstarted;
    BeginFacts(env, policy);
    AtStart(env, m, policy);
    NothingStocked(env, m, policy);
    var s, a, b, q := Begin(env, policy), FirstSeat(m, m), SecondSeat(m, m), Unstarted(m, m);
    assert Run(env, s, 0) == s;
    VpnAt(m, FirstStart(m, m));
    VpnAt(m, SecondStart(m, m));
    AllUnstarted(m);
    MissesAt(a, [b] + q, [], a.pid, 0, 2);
    assert TickSeats([]) == [] && [] + [a.(wait := 2)] == [a.(wait := 2)];
    NoPageYet(s.frames, s.policy, 0, 2 * m - 1, [], Page(a.pid, 0));
    var v1 := View([b] + q, [a.(wait := 2)], a.pid, PosAfterReading(FirstStart(m, m)));
    ReferenceStep(env, s, View([a] + ([b] + q), [], a.pid, 0), false, v1);
    var u := Run(env, s, 1);
    assert u == Step(env, s);
    MissesAt(b, q, [a.(wait := 2)], a.pid, v1.cursor, 2);
    assert TickSeats([a.(wait := 2)]) == [a.(wait := 1)];
    assert [a.(wait := 1)] + [b.(wait := 2)] == [a.(wait := 1), b.(wait := 2)];
    NoPageYet(u.frames, u.policy, 0, 2 * m - 1, [], Page(b.pid, 0));
    ReferenceStep(env, u, v1, false,
      View(q, [a.(wait := 1)] + [b.(wait := 2)], b.pid, PosAfterReading(SecondStart(m, m))));
    assert q == Rest(m, m, []);
    StockHigher(u.frames, u.policy, 0, b.pid, 2 * m - 1, []);
    assert Run(env, s, 2) == Step(env, u);
  }

  lemma {:induction false} AllUnstarted(m: nat)
    ensures Unstarted(m, m + 1) == [FirstSeat(m, m)] + ([SecondSeat(m, m)] + Unstarted(m, m))
    ensures FirstStart(m, m) == 0
  {
  }

  // ---- round and round ------------------------------------------------------

  /** All processes stand at the end; `z` is being served. */
  ghost predicate Turning(m: nat, s: State, n: nat, parked: seq<Seat>, z: Seat, cursor: nat) {
    && Looks(s, View(parked, [z.(wait := 2)], z.pid, cursor))
    && Stocked(s.frames, s.policy, 2 * m + 2, n, parked)
    && AtEnd(m, parked, 2 * m + 3) && |parked| == 2 * m + 1 && |s.frames| == 2 * m
    && z.pos == End(m) && z.wait == 0 && z.pid <= 2 * m + 2 && !Parks(parked, z.pid)
  }

  ghost predicate InRound(m: nat, s: State) {
    exists n: nat, parked: seq<Seat>, z: Seat, cursor: nat :: Turning(m, s, n, parked, z, cursor)
  }

  lemma {:induction false} TurnStep(env: Env, m: nat, s: State, n: nat, parked: seq<Seat>, z: Seat, cursor: nat)
    requires Inv(env, s) && Jam(env, m) && Turning(m, s, n, parked, z, cursor)
    ensures InRound(m, Run(env, s, 2))
  {
    hide Inv, Step, Looks, Stocked, Jammed, MemOk, LoadPage, Resident, Newest, Regular, Delivers, Refers, Tail;
    var x, q := parked[0], parked[1..];
    var x0 := x.(wait := 0);
    assert parked == [x] + q;
    VpnAt(m, Size(m) - 1);
    assert Run(env, s, 0) == s;
    assert Parks(parked, x.pid);
    FirstIsGone(s.frames, s.policy, 2 * m + 2, n, parked);
    MissesAt(x, q, [z.(wait := 2)], z.pid, cursor, 2);
    assert TickSeats([z.(wait := 2)]) == [z.(wait := 1)];
    var v1 := View(q, [z.(wait := 1)] + [x.(wait := 2)], x.pid, PosAfterReading(Size(m) - 1));
    ReferenceStep(env, s, View([x] + q, [z.(wait := 2)], z.pid, cursor), false, v1);
    var u := Run(env, s, 1);
    assert u == Step(env, s);
    ToBack(q, z, [x.(wait := 2)], x.pid, v1.cursor);
    DeliveryStep(env, u, v1, |q|, View(q + [z], [x.(wait := 2)], x.pid, z.pos));
    assert forall i :: 0 <= i < |q| ==> q[i] == parked[i + 1];
    StockLast(u.frames, u.policy, 2 * m + 2, n, q, z);
    var t := Run(env, s, 2);
    assert t == Step(env, u);
    OutOfQueue(env, m, t, q + [z], x, z.pos);
    FrameCountOf(env, t);
    assert Turning(m, t, n, q + [z], x0, z.pos);
  }

  /** The process that has just been blocked is not among those at the end. */
  lemma {:induction false} OutOfQueue(env: Env, m: nat, t: State, parked: seq<Seat>, x: Seat, cursor: nat)
    requires Inv(env, t) && Looks(t, View(parked, [x.(wait := 2)], x.pid, cursor))
    ensures !Parks(parked, x.pid)
  {
    hide Inv, Sits;
    SeatedTail(t.blocked, [x.(wait := 2)]);
    forall i | 0 <= i < |parked| ensures parked[i].pid != x.pid {
      InTwoQueues(env, t, t.runnable[i], t.blocked[0]);
      SeatPid(t.runnable[i], parked[i]);
      SeatPid(t.blocked[0], x.(wait := 2));
    }
  }

  lemma {:induction false} SeatPid(p: Proc, a: Seat)
    requires Sits(p, a)
    ensures p.pid == a.pid
  {
  }

  lemma {:induction false} InTwoQueues(env: Env, t: State, p: Proc, q: Proc)
    requires Inv(env, t) && p in t.runnable && q in t.blocked
    ensures p.pid != q.pid
  {
    hide MemOk, LinesInv, Owns, Waiting, SortedByPos, CursorOk;
    PidsOfMember(t.runnable, p);
    PidsOfMember(t.blocked, q);
    assert AllPids(t)[p.pid] <= 1;
  }

  lemma {:induction false} StaysInRound(env: Env, m: nat, s: State, k: nat)
    requires Inv(env, s) && Jam(env, m) && InRound(m, s)
    ensures InRound(m, Run(env, s, 2 * k))
  {
    hide Inv, Step, Turning, Jam, Run;
    if k == 0 {
      NoIteration(env, s);
    } else {
      StaysInRound(env, m, s, k - 1);
      var t := Run(env, s, 2 * (k - 1));
      var n: nat, parked: seq<Seat>, z: Seat, cursor: nat :| Turning(m, t, n, parked, z, cursor);
      TurnStep(env, m, t, n, parked, z, cursor);
      RunAdd(env, s, 2 * (k - 1), 2);
    }
  }

  lemma {:induction false} NoIteration(env: Env, s: State)
    requires Inv(env, s)
    ensures Run(env, s, 0) == s
  {
    hide Inv;
  }

  lemma {:induction false} RoundIsLive(m: nat, s: State)
    requires InRound(m, s)
    ensures !Halted(s)
  {
  }

  lemma {:induction false} RoundBegins(env: Env, m: nat, s: State, n: nat, parked: seq<Seat>)
    requires Inv(env, s) && Jam(env, m) && PairEnds(m, s, 0, n, parked)
    ensures InRound(m, s)
  {
    hide Inv, Looks, Stocked, Jammed, Tail;
    FrameCountOf(env, s);
    assert Rest(m, 0, parked) == parked;
    var z := SecondAtEnd(m, 0);
    assert Turning(m, s, n, parked, z, PosAfterReading(Size(m) - 1));
  }

  lemma {:induction false} ReachesRound(env: Env, m: nat, policy: Policy) returns (k: nat)
    requires Jam(env, m) && Start(env, policy) && InTurn(policy, env.size)
    ensures InRound(m, Run(env, Begin(env, policy), k))
  {
    hide Inv, Step, Run, Begin, PairWaits, PairEnds, Start, InTurn, Jammed;
    var b := Begin(env, policy);
    FirstPair(env, m, policy);
    var t := Run(env, b, 2);
    var l, all := PairsGo(env, m, t, m, 2 * m - 1, []);
    RoundBegins(env, m, Run(env, t, l), m - 2, all);
    RunAdd(env, b, 2, l);
    k := 2 + l;
  }

  /** With a penalty of two ticks and any even number of frames from six on, LRU, FIFO, Clock
      and a Random that draws the frames in turn have a trace that the loop never finishes: it
      neither ends nor reads past the end of the file, and with a multiple of 32 frames no
      search for a free frame fails either. */
  lemma {:induction false} NeverEnds(env: Env, m: nat, policy: Policy, n: nat)
    requires Jam(env, m) && Start(env, policy) && InTurn(policy, env.size)
    ensures !Halted(Run(env, Begin(env, policy), n))
    ensures env.size % 32 == 0 ==> !GivingUp.NoFrameFor(env, Run(env, Begin(env, policy), n))
  {
    hide Inv, Step, Begin, Jam, Run, InRound, Halted, Start, InTurn, GivingUp.NoFrameFor;
    var b := Begin(env, policy);
    if GivingUp.NoFrameFor(env, Run(env, b, n)) { GivingUp.UncoveredSize(env, Run(env, b, n)); }
    var k := ReachesRound(env, m, policy);
    StaysInRound(env, m, Run(env, b, k), n);
    RunAdd(env, b, k, 2 * n);
    RoundIsLive(m, Run(env, b, k + 2 * n));
    if Halted(Run(env, b, n)) {
      RunStaysHalted(env, Run(env, b, n), k + n);
      RunAdd(env, b, n, k + n);
      assert false;
    }
  }

  // ---- for which penalties --------------------------------------------------

  ghost predicate Finite(env: Env, policy: Policy)
    requires Start(env, policy)
  {
    exists n: nat :: Halted(Run(env, Begin(env, policy), n))
  }

  /** The simulation of every trace ends, or the program gives up. */
  ghost predicate AlwaysStops(penalty: nat, size: nat, policy: Policy)
    requires penalty > 0 && size > 0 && MemOk(EmptyFrames(size), policy)
  {
    forall trace: seq<Line> ::
      GivingUp.Stops(Env(trace, penalty, size), Begin(Env(trace, penalty, size), policy))
  }

  /** The loop ends for every trace. */
  ghost predicate AlwaysEnds(penalty: nat, size: nat, policy: Policy)
    requires penalty > 0 && size > 0 && MemOk(EmptyFrames(size), policy)
  {
    forall trace: seq<Line> :: Finite(Env(trace, penalty, size), policy)
  }

  /** Under LRU, FIFO, Clock with any initial bits, and a Random that draws the frames in turn,
      with any even number of frames from six on, the loop ends for every trace exactly when the
      penalty is not two ticks; and with every memory the free list serves in full, the program
      stops on every trace exactly then. */
  lemma {:induction false} EndsExactly(penalty: nat, size: nat, policy: Policy)
    requires penalty > 0 && size >= 6 && size % 2 == 0 && InTurn(policy, size) && MemOk(EmptyFrames(size), policy)
    ensures AlwaysEnds(penalty, size, policy) <==> penalty != 2
    ensures size % 32 == 0 ==> (AlwaysStops(penalty, size, policy) <==> penalty != 2)
  {
    hide Inv, Begin, Run, MemOk, Halted, InTurn, GivingUp.NoFrameFor;
    if penalty == 2 {
      var m := size / 2;
      var env := Env(Jammed(m), 2, size);
      forall n: nat
        ensures !Halted(Run(env, Begin(env, policy), n))
        ensures size % 32 == 0 ==> !GivingUp.StopsAt(env, Begin(env, policy), n)
      {
        NeverEnds(env, m, policy, n);
      }
      assert !Finite(env, policy) && (size % 32 == 0 ==> !GivingUp.Stops(env, Begin(env, policy)));
    } else {
      forall trace: seq<Line>
        ensures Finite(Env(trace, penalty, size), policy)
        ensures GivingUp.Stops(Env(trace, penalty, size), Begin(Env(trace, penalty, size), policy))
      {
        EndsUnlessTwo(Env(trace, penalty, size), policy);
        GivingUp.StopsUnlessTwo(Env(trace, penalty, size), policy);
      }
    }
  }
}
