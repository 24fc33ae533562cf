/** How long a page that is not referred to can stay in memory.  Under LRU, FIFO and Clock,
    and under Random when it draws the frames in turn, each load brings every other page
    closer to its own eviction, whatever is touched in between, as long as Clock never has to
    go a full lap. */
module Aging {
  import opened Types
  import opened Replacement
  import Paging

  ghost function Unset(refs: seq<bool>): set<nat> { set i: nat | i < |refs| && !refs[i] }

  /** Clock before its first eviction: frames filled in order, every bit of theirs set. */
  ghost predicate Filling(f: Frames, p: Policy)
    requires p.Clock? && |p.refs| == |f|
  {
    && p.hand == 0
    && (forall i :: 0 <= i < |f| ==> (f[i].Some? <==> i < Allocated(f)))
    && forall i :: 0 <= i < Allocated(f) ==> p.refs[i]
  }

  /** Random, on draws 0, 1, 2 and so on: frames are filled, and then refilled, in order. */
  ghost predicate RoundRobin(f: Frames, p: Policy)
    requires p.Random?
  {
    && (forall i: nat :: p.rand(i) == i) && (HasFree(f) ==> p.draws == 0)
    && (forall i :: 0 <= i < |f| ==> (f[i].Some? <==> i < Allocated(f)))
  }

  /** A state that the policy reaches from empty memory, in which Clock has, or will have, `n`
      frames with a clear bit. */
  ghost predicate Regular(f: Frames, p: Policy, n: nat) {
    && MemOk(f, p) && 1 <= n < |f|
    && (p.Random? ==> RoundRobin(f, p))
    && (p.Clock? ==> Filling(f, p) || (!HasFree(f) && |Unset(p.refs)| >= n))
  }

  /** `x` is out of memory, or will be after at most `m` loads if it is not touched. */
  ghost predicate Ages(f: Frames, p: Policy, x: Page, m: nat)
    requires MemOk(f, p)
  {
    match p
    case Lru(q) => AgesInQueue(q, |f|, x, m)
    case Fifo(q) => AgesInQueue(q, |f|, x, m)
    case Clock(h, refs) =>
      forall v :: 0 <= v < |f| && f[v] == Some(x) ==>
        if Filling(f, p) then v + 1 + |f| - Allocated(f) <= m
        else if v == h then |f| <= m
        else !refs[v] && Behind(h, v, |f|) <= m
    case Random(_, draws) =>
      forall v :: 0 <= v < |f| && f[v] == Some(x) ==>
        if HasFree(f) then v + 1 + |f| - Allocated(f) <= m else Behind(Drawn(draws, |f|), v, |f|) + 1 <= m
  }

  ghost predicate AgesInQueue(q: seq<Page>, k: nat, x: Page, m: nat) {
    forall t :: 0 <= t < |q| && q[t] == x ==> t + 1 + k - |q| <= m
  }

  /** The frame that the draw `c` picks. */
  function Drawn(c: nat, k: nat): (r: nat)
    requires k > 0
    ensures r < k
  {
    c % k
  }

  /** The frame before frame `h` in cyclic order. */
  function JustBefore(h: nat, k: nat): (r: nat)
    requires h < k
    ensures r < k
  {
    if h == 0 then k - 1 else h - 1
  }

  /** The page most recently loaded. */
  ghost predicate Newest(f: Frames, p: Policy, y: Page)
    requires MemOk(f, p)
  {
    match p
    case Lru(q) => q != [] && q[|q| - 1] == y
    case Fifo(q) => q != [] && q[|q| - 1] == y
    case Clock(h, _) => if Filling(f, p) then 0 < Allocated(f) && f[Allocated(f) - 1] == Some(y) else f[h] == Some(y)
    case Random(_, draws) =>
      if HasFree(f) then 0 < Allocated(f) && f[Allocated(f) - 1] == Some(y)
      else f[JustBefore(Drawn(draws, |f|), |f|)] == Some(y)
  }

  /** Touching the page changes nothing for Clock. */
  ghost predicate Marked(f: Frames, p: Policy, y: Page)
    requires MemOk(f, p)
  {
    p.Clock? ==> forall v :: 0 <= v < |f| && f[v] == Some(y) ==> p.refs[v]
  }

  // ---- queues ---------------------------------------------------------------

  lemma {:induction false} QueueLoad(f: Frames, p: Policy, pg: Page)
    requires MemOk(f, p) && p.Queued() && !Resident(f, pg)
    ensures var (g, r) := LoadPage(f, p, pg);
      r.Queued() && r.Lru? == p.Lru? && r.queue == Paging.Kept(p.queue, |f|) + [pg] && |p.queue| <= |f|
  {
    hide NoDup, NoSharing, Allocated, SweepDistance, Swept;
    QueueLength(f, p);
  }

  lemma {:induction false} QueueAges(q: seq<Page>, k: nat, x: Page, m: nat, pg: Page)
    requires k > 0 && |q| <= k && x != pg && AgesInQueue(q, k, x, m + 1)
    ensures AgesInQueue(Paging.Kept(q, k) + [pg], k, x, m)
  {
    var r := Paging.Kept(q, k) + [pg];
    forall t | 0 <= t < |r| && r[t] == x ensures t + 1 + k - |r| <= m {
      assert q[if |q| < k then t else t + 1] == x;
    }
  }

  lemma {:induction false} QueueNew(q: seq<Page>, k: nat, pg: Page)
    requires k > 0 && |q| <= k && pg !in q
    ensures AgesInQueue(Paging.Kept(q, k) + [pg], k, pg, k)
  {
  }

  /** Filtering moves nothing back. */
  lemma {:induction false} FilterMovesForward(q: seq<Page>, y: Page, x: Page, t: nat)
    requires t < |Filter(q, {y})| && Filter(q, {y})[t] == x
    ensures exists u :: t <= u < |q| && q[u] == x
  {
    if q[0] == y {
      FilterMovesForward(q[1..], y, x, t);
      var u :| t <= u < |q[1..]| && q[1..][u] == x;
      assert q[u + 1] == x;
    } else if t > 0 {
      FilterMovesForward(q[1..], y, x, t - 1);
      var u :| t - 1 <= u < |q[1..]| && q[1..][u] == x;
      assert q[u + 1] == x;
    }
  }

  lemma {:induction false} QueueTouch(q: seq<Page>, k: nat, x: Page, m: nat, y: Page)
    requires NoDup(q) && y in q && x != y && AgesInQueue(q, k, x, m)
    ensures AgesInQueue(Filter(q, {y}) + [y], k, x, m)
  {
    var r := Filter(q, {y}) + [y];
    FilterOneLength(q, y);
    forall t | 0 <= t < |r| && r[t] == x ensures t + 1 + k - |r| <= m {
      FilterMovesForward(q, y, x, t);
      var u :| t <= u < |q| && q[u] == x;
    }
  }

  // ---- Clock ----------------------------------------------------------------

  /** A load into a free frame. */
  lemma {:induction false} ClockFills(f: Frames, p: Policy, pg: Page)
    requires MemOk(f, p) && p.Clock? && Filling(f, p) && HasFree(f) && !Resident(f, pg)
    ensures var (g, r) := LoadPage(f, p, pg); var a := Allocated(f);
      && a < |f| && g == f[a := Some(pg)] && r == Clock(0, p.refs[a := true]) && Allocated(g) == a + 1
      && |r.refs| == |g| && Filling(g, r)
  {
    hide NoSharing, SweepDistance, Swept;
    var a := Allocated(f);
    FirstFreeIs(f, a);
    AllocatedUpdate(f, a, Some(pg));
  }

  /** The first eviction: a full lap, which clears every bit but that of the new page. */
  lemma {:induction false} ClockLaps(f: Frames, p: Policy, pg: Page)
    requires MemOk(f, p) && p.Clock? && Filling(f, p) && !HasFree(f) && !Resident(f, pg) && |f| >= 2
    ensures var (g, r) := LoadPage(f, p, pg);
      && g == f[0 := Some(pg)] && r.Clock? && r.hand == 0 && |r.refs| == |f| && r.refs[0]
      && (forall v :: 0 < v < |f| ==> !r.refs[v]) && !Filling(g, r) && !HasFree(g)
  {
    hide NoSharing, SweepDistance;
    DistanceIs(p.refs, 0, |f|);
    AllocatedUpdate(f, 0, Some(pg));
    var (g, r) := LoadPage(f, p, pg);
    assert !r.refs[1] && 1 < Allocated(g);
  }

  /** Every other eviction: the hand goes on to the first clear bit. */
  lemma {:induction false} ClockRolls(f: Frames, p: Policy, pg: Page) returns (d: nat)
    requires MemOk(f, p) && p.Clock? && !Filling(f, p) && !HasFree(f) && !Resident(f, pg) && Unset(p.refs) != {}
    ensures 0 < d < |f| && !p.refs[Ahead(p.hand, d, |f|)]
    ensures forall i :: 0 <= i < d ==> p.refs[Ahead(p.hand, i, |f|)]
    ensures var (g, r) := LoadPage(f, p, pg); var v := Ahead(p.hand, d, |f|);
      && g == f[v := Some(pg)] && r == Clock(v, Swept(p.refs, p.hand, d)[v := true])
      && !Filling(g, r) && !HasFree(g)
  {
    hide NoSharing, Swept, SweepDistance;
    d := SweepDistance(p.refs, p.hand, 0);
    var h, k := p.hand, |f|;
    var i :| i in Unset(p.refs);
    assert Ahead(h, Behind(h, i, k), k) == i;
    assert Ahead(h, 0, k) == h;
    var v := Ahead(h, d, k);
    AllocatedUpdate(f, v, Some(pg));
    assert Behind(h, h, k) == 0 < d;
    assert !Swept(p.refs, h, d)[v := true][h];
  }

  lemma {:induction false} UnsetAfterRoll(refs: seq<bool>, h: nat, d: nat)
    requires h < |refs| && 0 < d < |refs| && refs[h] && !refs[Ahead(h, d, |refs|)]
    ensures |Unset(Swept(refs, h, d)[Ahead(h, d, |refs|) := true])| >= |Unset(refs)|
  {
    var v := Ahead(h, d, |refs|);
    var a, b := Unset(refs), Unset(Swept(refs, h, d)[v := true]);
    assert Behind(h, h, |refs|) == 0;
    assert a - {v} + {h} <= b && v in a && h !in a;
    Paging.SubsetCardinality(a - {v} + {h}, b);
  }

  lemma {:induction false} UnsetAfterLap(refs: seq<bool>)
    requires refs != [] && forall v :: 0 < v < |refs| ==> !refs[v]
    ensures |Unset(refs)| >= |refs| - 1
  {
    if |refs| > 1 {
      var n := |refs| - 1;
      UnsetAfterLap(refs[..n]);
      assert n in Unset(refs) && n !in Unset(refs[..n]) && Unset(refs[..n]) + {n} <= Unset(refs);
      Paging.SubsetCardinality(Unset(refs[..n]) + {n}, Unset(refs));
    }
  }

  // ---- Random ---------------------------------------------------------------

  lemma {:induction false} RandomFills(f: Frames, p: Policy, pg: Page)
    requires MemOk(f, p) && p.Random? && RoundRobin(f, p) && HasFree(f) && !Resident(f, pg)
    ensures var (g, r) := LoadPage(f, p, pg); var a := Allocated(f);
      && g == f[a := Some(pg)] && r == p && Allocated(g) == a + 1 && RoundRobin(g, r)
      && Drawn(p.draws, |f|) == 0
  {
    hide NoSharing;
    var a := Allocated(f);
    FirstFreeIs(f, a);
    AllocatedUpdate(f, a, Some(pg));
  }

  lemma {:induction false} RandomRolls(f: Frames, p: Policy, pg: Page)
    requires MemOk(f, p) && p.Random? && RoundRobin(f, p) && !HasFree(f) && !Resident(f, pg)
    ensures var (g, r) := LoadPage(f, p, pg); var d := Drawn(p.draws, |f|);
      && g == f[d := Some(pg)] && r.Random? && RoundRobin(g, r) && !HasFree(g)
      && Drawn(r.draws, |f|) == if d + 1 == |f| then 0 else d + 1
  {
    hide NoSharing, Allocated;
    AllocatedUpdate(f, Drawn(p.draws, |f|), Some(pg));
    NextInTurn(p.draws, |f|);
  }

  lemma {:induction false} NextInTurn(c: nat, k: nat)
    requires k > 0
    ensures Drawn(c + 1, k) == if Drawn(c, k) + 1 == k then 0 else Drawn(c, k) + 1
  {
    var q, d := c / k, c % k;
    assert c + 1 == k * q + (d + 1);
    if d + 1 == k {
      assert c + 1 == k * (q + 1);
      RemainderIs(c + 1, k, q + 1, 0);
    } else {
      RemainderIs(c + 1, k, q, d + 1);
    }
  }

  lemma {:induction false} RemainderIs(c: nat, k: nat, q: nat, d: nat)
    requires c == k * q + d && d < k
    ensures c % k == d
  {
    var e := c / k;
    if e < q { Paging.Scale(k, e + 1, q); }
    if q < e { Paging.Scale(k, q + 1, e); }
  }

  lemma {:induction false} RandomLoadAges(f: Frames, p: Policy, pg: Page, x: Page, m: nat)
    requires MemOk(f, p) && p.Random? && RoundRobin(f, p) && !Resident(f, pg) && x != pg && Ages(f, p, x, m + 1)
    requires var (g, r) := LoadPage(f, p, pg); MemOk(g, r)
    ensures var (g, r) := LoadPage(f, p, pg); Ages(g, r, x, m)
  {
    hide NoSharing, Allocated, LoadPage, RoundRobin, MemOk, Drawn;
    if HasFree(f) { RandomFills(f, p, pg); } else { RandomRolls(f, p, pg); }
  }

  // ---- a load ---------------------------------------------------------------

  lemma {:induction false} LoadRegular(f: Frames, p: Policy, pg: Page, n: nat)
    requires Regular(f, p, n) && !Resident(f, pg)
    ensures var (g, r) := LoadPage(f, p, pg); Regular(g, r, n)
  {
    hide NoSharing, Allocated, Filling, Swept, SweepDistance, LoadPage, Unset, Ahead, Behind;
    LoadKeepsMemOk(f, p, pg);
    if p.Queued() {
      QueueLoad(f, p, pg);
    } else if p.Random? {
      if HasFree(f) { RandomFills(f, p, pg); } else { RandomRolls(f, p, pg); }
    } else if Filling(f, p) && HasFree(f) {
      ClockFills(f, p, pg);
    } else if Filling(f, p) {
      ClockLaps(f, p, pg);
      UnsetAfterLap(LoadPage(f, p, pg).1.refs);
    } else {
      var d := ClockRolls(f, p, pg);
      HandIsSet(f, p);
      UnsetAfterRoll(p.refs, p.hand, d);
    }
  }

  lemma {:induction false} HandIsSet(f: Frames, p: Policy)
    requires MemOk(f, p) && p.Clock? && !HasFree(f)
    ensures p.refs[p.hand]
  {
  }

  lemma {:induction false} ClockLoadAges(f: Frames, p: Policy, pg: Page, n: nat, x: Page, m: nat)
    requires Regular(f, p, n) && p.Clock? && !Resident(f, pg) && x != pg && Ages(f, p, x, m + 1)
    requires var (g, r) := LoadPage(f, p, pg); MemOk(g, r)
    ensures var (g, r) := LoadPage(f, p, pg); Ages(g, r, x, m)
  {
    hide NoSharing, Allocated, Filling, SweepDistance, LoadPage, MemOk;
    var (g, r) := LoadPage(f, p, pg);
    ClockShape(f, p);
    if Filling(f, p) && HasFree(f) {
      ClockFills(f, p, pg);
    } else if Filling(f, p) {
      ClockLaps(f, p, pg);
      CountIsFull(f);
      CountIsFull(g);
    } else {
      NotEmpty(p.refs, n);
      var d := ClockRolls(f, p, pg);
      var h, k := p.hand, |f|;
      forall v | 0 <= v < k && g[v] == Some(x) && v != r.hand ensures !r.refs[v] && Behind(r.hand, v, k) <= m {
        assert Ahead(h, Behind(h, v, k), k) == v;
      }
    }
  }

  lemma {:induction false} NotEmpty(refs: seq<bool>, n: nat)
    requires |Unset(refs)| >= n >= 1
    ensures Unset(refs) != {}
  {
  }

  lemma {:induction false} ClockShape(f: Frames, p: Policy)
    requires MemOk(f, p) && p.Clock?
    ensures |p.refs| == |f| && p.hand < |f| && |f| > 0
  {
  }

  lemma {:induction false} CountIsFull(f: Frames)
    requires !HasFree(f)
    ensures Allocated(f) == |f|
  {
  }

  /** A load brings every other page closer to its eviction. */
  lemma {:induction false} LoadAges(f: Frames, p: Policy, pg: Page, n: nat, x: Page, m: nat)
    requires Regular(f, p, n) && !Resident(f, pg) && x != pg && Ages(f, p, x, m + 1)
    ensures var (g, r) := LoadPage(f, p, pg); MemOk(g, r) && Ages(g, r, x, m)
  {
    hide NoSharing, Allocated, Filling, Swept, SweepDistance, LoadPage, Unset, NoDup, AgesInQueue, Ahead, Behind;
    LoadKeepsMemOk(f, p, pg);
    if p.Queued() {
      QueueLoad(f, p, pg);
      QueueAges(p.queue, |f|, x, m, pg);
    } else if p.Random? {
      RandomLoadAges(f, p, pg, x, m);
    } else {
      ClockLoadAges(f, p, pg, n, x, m);
    }
  }

  lemma {:induction false} RandomLoadNew(f: Frames, p: Policy, pg: Page)
    requires MemOk(f, p) && p.Random? && RoundRobin(f, p) && !Resident(f, pg)
    requires var (g, r) := LoadPage(f, p, pg); MemOk(g, r)
    ensures var (g, r) := LoadPage(f, p, pg);
      r.Random? && Ages(g, r, pg, |f|) && Newest(g, r, pg) && Resident(g, pg)
  {
    hide NoSharing, Allocated, LoadPage, RoundRobin, MemOk, Drawn;
    OnlyHere(f, pg);
    if HasFree(f) { RandomFills(f, p, pg); } else { RandomRolls(f, p, pg); }
  }

  /** What is loaded will be gone after as many loads as there are frames. */
  lemma {:induction false} LoadNew(f: Frames, p: Policy, pg: Page, n: nat)
    requires Regular(f, p, n) && !Resident(f, pg)
    ensures var (g, r) := LoadPage(f, p, pg);
      MemOk(g, r) && Ages(g, r, pg, |f|) && Newest(g, r, pg) && Marked(g, r, pg) && Resident(g, pg)
  {
    hide NoSharing, Allocated, Filling, Swept, SweepDistance, LoadPage, Unset, NoDup, AgesInQueue, Ahead, Behind, MemOk;
    LoadKeepsMemOk(f, p, pg);
    if p.Queued() {
      QueueLoad(f, p, pg);
      QueueHas(f, p, pg);
      QueueNew(p.queue, |f|, pg);
    } else if p.Random? {
      RandomLoadNew(f, p, pg);
    } else {
      ClockShape(f, p);
      OnlyHere(f, pg);
      if Filling(f, p) && HasFree(f) {
        ClockFills(f, p, pg);
      } else if Filling(f, p) {
        ClockLaps(f, p, pg);
      } else {
        NotEmpty(p.refs, n);
        var d := ClockRolls(f, p, pg);
      }
    }
  }

  lemma {:induction false} QueueHas(f: Frames, p: Policy, x: Page)
    requires MemOk(f, p) && p.Queued()
    ensures x in p.queue <==> Resident(f, x)
  {
  }

  lemma {:induction false} OnlyHere(f: Frames, x: Page)
    requires !Resident(f, x)
    ensures forall v :: 0 <= v < |f| ==> f[v] != Some(x)
  {
    forall v | 0 <= v < |f| ensures f[v] != Some(x) { assert f[v] in f; }
  }

  lemma {:induction false} RandomStays(f: Frames, p: Policy, pg: Page, y: Page)
    requires MemOk(f, p) && p.Random? && RoundRobin(f, p) && !Resident(f, pg) && Newest(f, p, y) && |f| > 1
    ensures Resident(LoadPage(f, p, pg).0, y)
  {
    hide NoSharing, Allocated, LoadPage, RoundRobin, MemOk, Drawn;
    var g := LoadPage(f, p, pg).0;
    if HasFree(f) {
      RandomFills(f, p, pg);
      assert g[Allocated(f) - 1] == Some(y);
    } else {
      RandomRolls(f, p, pg);
      assert g[JustBefore(Drawn(p.draws, |f|), |f|)] == Some(y);
    }
  }

  /** The page loaded last outlives one more load. */
  lemma {:induction false} NewestStays(f: Frames, p: Policy, pg: Page, n: nat, y: Page)
    requires Regular(f, p, n) && !Resident(f, pg) && Newest(f, p, y)
    ensures Resident(LoadPage(f, p, pg).0, y)
  {
    hide NoSharing, Allocated, Filling, Swept, SweepDistance, LoadPage, Unset, NoDup, Behind, MemOk;
    LoadKeepsMemOk(f, p, pg);
    var (g, r) := LoadPage(f, p, pg);
    if p.Queued() {
      QueueLoad(f, p, pg);
      assert y == r.queue[|r.queue| - 2];
      QueueHas(g, r, y);
    } else if p.Random? {
      RandomStays(f, p, pg, y);
    } else {
      ClockShape(f, p);
      if Filling(f, p) && HasFree(f) {
        ClockFills(f, p, pg);
        assert g[Allocated(f) - 1] == Some(y);
      } else if Filling(f, p) {
        ClockLaps(f, p, pg);
        CountIsFull(f);
        assert g[Allocated(f) - 1] == Some(y);
      } else {
        NotEmpty(p.refs, n);
        var d := ClockRolls(f, p, pg);
        assert g[p.hand] == Some(y);
      }
    }
  }

  // ---- a touch --------------------------------------------------------------

  lemma {:induction false} TouchQueue(f: Frames, p: Policy, y: Page)
    requires MemOk(f, p) && Resident(f, y) && p.Queued()
    ensures NotifyAccess(p, y, FrameOf(f, y)) == if p.Lru? then Lru(Filter(p.queue, {y}) + [y]) else p
    ensures NoDup(p.queue) && y in p.queue
  {
  }

  lemma {:induction false} FilterEnd(q: seq<Page>, y: Page)
    requires NoDup(q) && q != [] && q[|q| - 1] == y
    ensures Filter(q, {y}) + [y] == q
  {
    var t := q[..|q| - 1];
    assert q == t + [y];
    FilterAppend(t, [y], {y});
    FilterNothing(t, {y});
    assert Filter([y], {y}) == [];
  }

  /** A touch costs at most one clear bit, and none if the page is marked. */
  lemma {:induction false} TouchRegular(f: Frames, p: Policy, y: Page, n: nat)
    requires Regular(f, p, n) && Resident(f, y) && (Marked(f, p, y) || n > 1)
    ensures Regular(f, NotifyAccess(p, y, FrameOf(f, y)), if Marked(f, p, y) then n else n - 1)
  {
    hide NoSharing, Allocated, Filter, NoDup;
    AccessKeepsMemOk(f, p, y);
    if p.Clock? {
      var v := FrameOf(f, y);
      if !p.refs[v] {
        assert Unset(p.refs[v := true]) == Unset(p.refs) - {v};
      } else {
        assert p.refs[v := true] == p.refs;
      }
    }
  }

  /** A touch of another page does not lengthen a page's stay. */
  lemma {:induction false} TouchAges(f: Frames, p: Policy, y: Page, n: nat, x: Page, m: nat)
    requires Regular(f, p, n) && Resident(f, y) && (Marked(f, p, y) || n > 1) && x != y && Ages(f, p, x, m)
    ensures var r := NotifyAccess(p, y, FrameOf(f, y)); MemOk(f, r) && Ages(f, r, x, m)
  {
    hide NoSharing, Allocated, Filter, NoDup, AgesInQueue, Unset, Filling;
    AccessKeepsMemOk(f, p, y);
    if p.Queued() {
      TouchQueue(f, p, y);
      if p.Lru? { QueueTouch(p.queue, |f|, x, m, y); }
    } else if p.Clock? {
      TouchRegular(f, p, y, n);
      SameMode(f, p, FrameOf(f, y), n);
    }
  }

  /** Setting one more bit does not take Clock back to filling. */
  lemma {:induction false} SameMode(f: Frames, p: Policy, v: nat, n: nat)
    requires Regular(f, p, n) && p.Clock? && v < |f| && Regular(f, Clock(p.hand, p.refs[v := true]), 1)
    requires p.refs[v] || n > 1
    ensures Filling(f, p) <==> Filling(f, Clock(p.hand, p.refs[v := true]))
  {
    hide Unset;
    if !Filling(f, p) {
      CountIsFull(f);
      if p.refs[v] {
        assert p.refs[v := true] == p.refs;
      } else {
        TwoClear(p.refs, v, n);
        var i :| 0 <= i < |p.refs| && i != v && !p.refs[i];
        assert !p.refs[v := true][i] && i < Allocated(f);
      }
    }
  }

  lemma {:induction false} TwoClear(refs: seq<bool>, v: nat, n: nat)
    requires v < |refs| && |Unset(refs)| >= n > 1
    ensures exists i :: 0 <= i < |refs| && i != v && !refs[i]
  {
    if Unset(refs) <= {v} {
      Paging.SubsetCardinality(Unset(refs), {v});
      assert false;
    }
    var i :| i in Unset(refs) && i != v;
  }

  lemma {:induction false} TouchNewest(f: Frames, p: Policy, y: Page, n: nat)
    requires Regular(f, p, n) && Resident(f, y) && Newest(f, p, y) && Marked(f, p, y)
    ensures var r := NotifyAccess(p, y, FrameOf(f, y)); MemOk(f, r) && Newest(f, r, y) && r == p
  {
    hide NoSharing, Allocated, Filter, NoDup, Unset, Filling;
    AccessKeepsMemOk(f, p, y);
    if p.Queued() {
      TouchQueue(f, p, y);
      if p.Lru? { FilterEnd(p.queue, y); }
    } else if p.Clock? {
      assert p.refs[FrameOf(f, y) := true] == p.refs;
    }
  }

  lemma {:induction false} TouchMarks(f: Frames, p: Policy, y: Page)
    requires MemOk(f, p) && Resident(f, y)
    ensures var r := NotifyAccess(p, y, FrameOf(f, y)); MemOk(f, r) && Marked(f, r, y)
    ensures var r := NotifyAccess(p, y, FrameOf(f, y)); forall x :: Marked(f, p, x) ==> Marked(f, r, x)
  {
    AccessKeepsMemOk(f, p, y);
  }

  // ---- at the start ---------------------------------------------------------

  /** The policies that never evict a page out of turn, with nothing in memory: LRU, FIFO,
      Clock with any initial bits, and Random if it draws the frames in turn. */
  ghost predicate InTurn(p: Policy, k: nat) {
    || p == Lru([]) || p == Fifo([])
    || (p.Clock? && p.hand == 0 && |p.refs| == k)
    || (p.Random? && p.draws == 0 && forall i: nat :: p.rand(i) == i)
  }

  lemma {:induction false} EmptyIsRegular(p: Policy, k: nat, n: nat)
    requires InTurn(p, k) && 1 <= n < k
    ensures Regular(EmptyFrames(k), p, n)
  {
    NothingAllocated(k);
  }
}
