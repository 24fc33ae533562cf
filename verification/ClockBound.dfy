/** Clock and the fault bound that LRU and FIFO keep: a stretch of references naming at
    most k pages causes at most one fault per page named.  The hand stays on the frame it
    last gave away, so Clock keeps the bound with one or two frames and with no others. */
module ClockBound {
  import opened Types
  import opened Replacement
  import opened Paging

  /** Empty memory of `|bits|` frames under Clock.  The program does not initialise the
      reference bits, so they may be anything. */
  function Cold(bits: seq<bool>): Paged {
    Paged(EmptyFrames(|bits|), Clock(0, bits), 0)
  }

  lemma {:induction false} ColdIsOk(bits: seq<bool>)
    requires bits != []
    ensures MemOk(Cold(bits).frames, Cold(bits).policy)
  {
  }

  /** The bound, for every stretch of every run that starts with empty memory. */
  ghost predicate KeepsBound(bits: seq<bool>)
    requires bits != []
  {
    ColdIsOk(bits);
    forall before: seq<Page>, stretch: seq<Page> :: |Named(stretch)| <= |bits| ==>
      DemandRun(Cold(bits), before + stretch).faults <= DemandRun(Cold(bits), before).faults + |Named(stretch)|
  }

  // ---- one reference under Clock --------------------------------------------

  ghost predicate ClockOk(s: Paged) { MemOk(s.frames, s.policy) && s.policy.Clock? }

  ghost predicate Full(s: Paged) { forall i :: 0 <= i < |s.frames| ==> s.frames[i].Some? }

  lemma {:induction false} ClockParts(s: Paged)
    requires ClockOk(s)
    ensures |s.frames| > 0 && |s.policy.refs| == |s.frames| && s.policy.hand < |s.frames|
  {
  }

  /** A fault in full memory, the sweep passing `d` frames. */
  lemma {:induction false} SweepFault(s: Paged, x: Page, d: nat)
    requires ClockOk(s) && Full(s) && !Resident(s.frames, x) && d <= |s.frames|
    requires forall i :: 0 <= i < d ==> s.policy.refs[Ahead(s.policy.hand, i, |s.frames|)]
    requires d == |s.frames| || !s.policy.refs[Ahead(s.policy.hand, d, |s.frames|)]
    ensures var v := Ahead(s.policy.hand, d, |s.frames|);
      var bits := Swept(s.policy.refs, s.policy.hand, d)[v := true];
      Demand(s, x) == Paged(s.frames[v := Some(x)], Clock(v, bits), s.faults + 1)
  {
    hide Allocated, MemOk, SweepDistance, Swept;
    ClockParts(s);
    DistanceIs(s.policy.refs, s.policy.hand, d);
    LoadKeepsMemOk(s.frames, s.policy, x);
    var v := Ahead(s.policy.hand, d, |s.frames|);
    FoundThere(s.frames, v, x);
  }

  /** A page just loaded is found where it was put. */
  lemma {:induction false} FoundThere(f: Frames, v: nat, x: Page)
    requires v < |f| && !Resident(f, x)
    ensures Resident(f[v := Some(x)], x) && FrameOf(f[v := Some(x)], x) == v
  {
    var g := f[v := Some(x)];
    assert g[v] == Some(x);
    forall i | 0 <= i < |f| && i != v ensures g[i] != Some(x) { assert f[i] in f; }
  }

  /** A fault with a free frame: the hand stays where it is. */
  lemma {:induction false} FillFault(s: Paged, x: Page, n: nat)
    requires ClockOk(s) && !Resident(s.frames, x) && n < |s.frames|
    requires s.frames[n] == None && forall i :: 0 <= i < n ==> s.frames[i].Some?
    ensures Demand(s, x) == Paged(s.frames[n := Some(x)], Clock(s.policy.hand, s.policy.refs[n := true]), s.faults + 1)
  {
    hide MemOk, Allocated, FirstFree;
    FirstFreeIs(s.frames, n);
    LoadKeepsMemOk(s.frames, s.policy, x);
    FoundThere(s.frames, n, x);
    ClockParts(s);
    assert FirstFree(s.frames) == n;
  }

  lemma {:induction false} Touch(s: Paged, x: Page, n: nat)
    requires ClockOk(s) && n < |s.frames| && s.frames[n] == Some(x)
    ensures Demand(s, x) == s.(policy := Clock(s.policy.hand, s.policy.refs[n := true]))
  {
    var w := FrameOf(s.frames, x);
    assert w == n;
  }

  // ---- one or two frames: the bound holds -----------------------------------

  /** Two frames, filled in order from empty memory. */
  ghost predicate TwoFrames(s: Paged) {
    && ClockOk(s) && |s.frames| == 2
    && (s.frames[1].Some? ==> s.frames[0].Some?)
    && (s.frames[1] == None ==> s.policy.hand == 0)
  }

  /** The next page loaded goes into the other frame than the one of `x`. */
  ghost predicate PinnedAt(s: Paged, x: Page, i: nat)
    requires TwoFrames(s)
  {
    && i < 2 && s.frames[i] == Some(x)
    && var o := 1 - i;
       || s.frames[o] == None
       || (s.policy.hand == i && s.policy.refs[i] && !s.policy.refs[o])
       || (s.policy.hand == o && s.policy.refs[i])
  }

  ghost predicate Pinned(s: Paged, x: Page)
    requires TwoFrames(s)
  {
    PinnedAt(s, x, 0) || PinnedAt(s, x, 1)
  }

  lemma {:induction false} TwoFramesFault(s: Paged, x: Page)
    requires TwoFrames(s) && !Resident(s.frames, x)
    ensures var t := Demand(s, x);
      && TwoFrames(t) && t.faults == s.faults + 1 && Pinned(t, x)
      && forall y :: Pinned(s, y) ==> Resident(t.frames, y)
  {
    hide Demand, MemOk, Swept, SweepDistance;
    var t := Demand(s, x);
    TwoFramesOf(s);
    if s.frames[0] == None {
      FillFault(s, x, 0);
    } else if s.frames[1] == None {
      FillFault(s, x, 1);
      assert t.frames[0] == s.frames[0];
    } else {
      var h := s.policy.hand;
      assert Ahead(h, 0, 2) == h && Ahead(h, 1, 2) == 1 - h && Ahead(h, 2, 2) == h;
      SweepFault(s, x, if s.policy.refs[1 - h] then 2 else 1);
      assert t.frames[1 - t.policy.hand] == s.frames[1 - t.policy.hand];
    }
  }

  lemma {:induction false} TwoFramesOf(s: Paged)
    requires TwoFrames(s)
    ensures |s.policy.refs| == 2 && s.policy.hand < 2
    ensures s.frames[s.policy.hand].Some? ==> s.policy.refs[s.policy.hand]
  {
  }

  lemma {:induction false} TwoFramesTouch(s: Paged, x: Page)
    requires TwoFrames(s) && Resident(s.frames, x)
    ensures var t := Demand(s, x);
      TwoFrames(t) && t.faults == s.faults && t.frames == s.frames && (Pinned(s, x) ==> Pinned(t, x))
  {
    hide Demand;
    Touch(s, x, FrameOf(s.frames, x));
  }

  /** Inside a stretch that names the pages `d` and began with `f` faults: nothing has
      faulted yet, or one page has and is safe from the next fault, or all are in memory. */
  ghost predicate InPhase(s: Paged, d: set<Page>, f: nat) {
    || s.faults == f
    || (TwoFrames(s) && s.faults == f + 1 && exists x :: x in d && Pinned(s, x))
    || (s.faults <= f + |d| && forall x :: x in d ==> Resident(s.frames, x))
  }

  lemma {:induction false} TheTwo(d: set<Page>, x: Page, y: Page)
    requires |d| <= 2 && x in d && y in d && x != y
    ensures d == {x, y} && |d| == 2
  {
    SubsetCardinality({x, y}, d);
    assert |{x, y}| == 2;
  }

  lemma {:induction false} TheOne(d: set<Page>, x: Page)
    requires |d| <= 1 && x in d
    ensures d == {x} && |d| == 1
  {
    SubsetCardinality({x}, d);
  }

  lemma {:induction false} PhaseStepTwo(s: Paged, d: set<Page>, f: nat, y: Page)
    requires TwoFrames(s) && InPhase(s, d, f) && y in d && |d| <= 2
    ensures TwoFrames(Demand(s, y)) && InPhase(Demand(s, y), d, f)
  {
    hide Pinned, Demand, MemOk;
    SubsetCardinality({y}, d);
    var t := Demand(s, y);
    if Resident(s.frames, y) {
      TwoFramesTouch(s, y);
      if s.faults == f + 1 && exists x :: x in d && Pinned(s, x) {
        var x :| x in d && Pinned(s, x);
        PinnedIsResident(s, x);
        if x != y { TheTwo(d, x, y); }
      }
    } else {
      TwoFramesFault(s, y);
      if s.faults != f {
        var x :| x in d && Pinned(s, x);
        PinnedIsResident(s, x);
        TheTwo(d, x, y);
      }
    }
  }

  lemma {:induction false} PinnedIsResident(s: Paged, x: Page)
    requires TwoFrames(s) && Pinned(s, x)
    ensures Resident(s.frames, x)
  {
  }

  lemma {:induction false} PhaseStepOne(s: Paged, d: set<Page>, f: nat, y: Page)
    requires ClockOk(s) && |s.frames| == 1 && InPhase(s, d, f) && y in d && |d| <= 1
    ensures InPhase(Demand(s, y), d, f)
  {
    TheOne(d, y);
    hide MemOk, LoadPage, NotifyAccess;
  }

  lemma {:induction false} ClockStays(bits: seq<bool>, refs: seq<Page>)
    requires bits != [] && MemOk(Cold(bits).frames, Cold(bits).policy)
    ensures var s := DemandRun(Cold(bits), refs); ClockOk(s) && |s.frames| == |bits| && (|bits| == 2 ==> TwoFrames(s))
  {
    hide Demand, MemOk;
    if refs != [] {
      var s := DemandRun(Cold(bits), refs[..|refs| - 1]);
      var x := refs[|refs| - 1];
      ClockStays(bits, refs[..|refs| - 1]);
      DemandKeepsClock(s, x);
      if |bits| == 2 {
        if Resident(s.frames, x) { TwoFramesTouch(s, x); } else { TwoFramesFault(s, x); }
      }
    }
  }

  lemma {:induction false} DemandKeepsClock(s: Paged, x: Page)
    requires ClockOk(s)
    ensures Demand(s, x).policy.Clock?
  {
    hide MemOk, Allocated, SweepDistance, Swept;
  }

  lemma {:induction false} DemandSnoc(s: Paged, refs: seq<Page>, x: Page)
    requires MemOk(s.frames, s.policy)
    ensures DemandRun(s, refs + [x]) == Demand(DemandRun(s, refs), x)
  {
    hide Demand, MemOk;
    assert (refs + [x])[..|refs + [x]| - 1] == refs;
  }

  lemma {:induction false} SmallPhase(bits: seq<bool>, before: seq<Page>, stretch: seq<Page>, d: set<Page>)
    requires 0 < |bits| <= 2 && MemOk(Cold(bits).frames, Cold(bits).policy)
    requires |d| <= |bits| && forall x :: x in stretch ==> x in d
    ensures InPhase(DemandRun(Cold(bits), before + stretch), d, DemandRun(Cold(bits), before).faults)
  {
    hide Demand, DemandRun, MemOk, TwoFrames, Cold;
    if stretch == [] {
      assert before + stretch == before;
    } else {
      var rest, y := stretch[..|stretch| - 1], stretch[|stretch| - 1];
      assert before + stretch == before + rest + [y];
      SmallPhase(bits, before, rest, d);
      ClockStays(bits, before + rest);
      DemandSnoc(Cold(bits), before + rest, y);
      var s, f := DemandRun(Cold(bits), before + rest), DemandRun(Cold(bits), before).faults;
      if |bits| == 1 { PhaseStepOne(s, d, f, y); } else { PhaseStepTwo(s, d, f, y); }
    }
  }

  lemma {:induction false} SmallMemoryKeepsBound(bits: seq<bool>)
    requires 0 < |bits| <= 2
    ensures KeepsBound(bits)
  {
    hide DemandRun, MemOk, TwoFrames, Cold, Named;
    ColdIsOk(bits);
    forall before: seq<Page>, stretch: seq<Page> | |Named(stretch)| <= |bits|
      ensures DemandRun(Cold(bits), before + stretch).faults <= DemandRun(Cold(bits), before).faults + |Named(stretch)|
    {
      NamedMembers(stretch);
      SmallPhase(bits, before, stretch, Named(stretch));
      PhaseCost(DemandRun(Cold(bits), before + stretch), Named(stretch), DemandRun(Cold(bits), before).faults);
    }
  }

  lemma {:induction false} NamedMembers(refs: seq<Page>)
    ensures forall x :: x in refs <==> x in Named(refs)
  {
  }

  lemma {:induction false} PhaseCost(s: Paged, d: set<Page>, f: nat)
    requires InPhase(s, d, f)
    ensures s.faults <= f + |d|
  {
    if x :| x in d { SubsetCardinality({x}, d); }
  }

  // ---- three frames or more: the bound fails --------------------------------
  //
  // Fill memory with pages 0 .. k-1, fault on page k (a full lap: it replaces page 0 and
  // clears every other bit), touch the pages in frames 2 .. k-1.  Then refer to k new pages
  // in turn: the third replaces the first, and the first faults again at the end.

  /** Pages 0 .. n-1 loaded into frames 0 .. n-1. */
  function Filled(bits: seq<bool>, n: nat): Paged {
    Paged(seq(|bits|, i requires 0 <= i => if i < n then Some(Pg(i)) else None),
          Clock(0, seq(|bits|, i requires 0 <= i < |bits| => i < n || bits[i])), n)
  }

  /** Page k in frame 0 after a full lap, and frames 2 .. m-1 touched since. */
  function Lapped(k: nat, m: nat): Paged {
    Paged(seq(k, i requires 0 <= i => Some(Pg(if i == 0 then k else i))),
          Clock(0, seq(k, i => i == 0 || 2 <= i < m)), k + 1)
  }

  /** Which page frame `i` holds after `j` new pages. */
  function HeldAfter(k: nat, j: nat, i: nat): nat {
    if j == 1 then (if i == 0 then k else if i == 1 then k + 1 else i)
    else if i == 0 then k + 2
    else if i == 1 && j == 2 then k + 1
    else if i + 2 <= j then k + i + 2
    else i
  }

  /** After `j` of the new pages k+1 .. 2k. */
  function Renewed(k: nat, j: nat): Paged
    requires 1 <= j <= k
  {
    Paged(seq(k, i requires 0 <= i => Some(Pg(HeldAfter(k, j, i)))),
          if j == 1 then Clock(1, seq(k, i => i != 0)) else Clock(j - 2, seq(k, i => i == j - 2)),
          k + 1 + j)
  }

  lemma {:induction false} FillOne(bits: seq<bool>, n: nat)
    requires n < |bits| && ClockOk(Filled(bits, n))
    ensures Demand(Filled(bits, n), Pg(n)) == Filled(bits, n + 1)
  {
    hide Demand, MemOk;
    var s := Filled(bits, n);
    assert Pg(n).vpn == n;
    FillFault(s, Pg(n), n);
    assert s.frames[n := Some(Pg(n))] == Filled(bits, n + 1).frames;
    assert s.policy.refs[n := true] == Filled(bits, n + 1).policy.refs;
  }

  lemma {:induction false} FullLap(bits: seq<bool>)
    requires |bits| >= 2 && ClockOk(Filled(bits, |bits|))
    ensures Demand(Filled(bits, |bits|), Pg(|bits|)) == Lapped(|bits|, 2)
  {
    hide Demand, MemOk;
    var k, s := |bits|, Filled(bits, |bits|);
    SweepFault(s, Pg(k), k);
    assert s.frames[0 := Some(Pg(k))] == Lapped(k, 2).frames;
    assert Swept(s.policy.refs, 0, k)[0 := true] == Lapped(k, 2).policy.refs;
  }

  lemma {:induction false} TouchOne(k: nat, m: nat)
    requires 2 <= m < k && ClockOk(Lapped(k, m))
    ensures Demand(Lapped(k, m), Pg(m)) == Lapped(k, m + 1)
  {
    hide Demand, MemOk;
    var s := Lapped(k, m);
    Touch(s, Pg(m), m);
    assert s.policy.refs[m := true] == Lapped(k, m + 1).policy.refs;
  }

  lemma {:induction false} FirstNew(k: nat)
    requires k >= 3 && ClockOk(Lapped(k, k))
    ensures Demand(Lapped(k, k), Pg(k + 1)) == Renewed(k, 1)
  {
    hide Demand, MemOk;
    var s, t := Lapped(k, k), Renewed(k, 1);
    forall i | 0 <= i < k ensures s.frames[i].Some? && s.frames[i].value.vpn <= k {
      assert s.frames[i] == Some(Pg(if i == 0 then k else i));
    }
    SweepFault(s, Pg(k + 1), 1);
    assert s.frames[1 := Some(Pg(k + 1))] == t.frames;
    assert Swept(s.policy.refs, 0, 1)[1 := true] == t.policy.refs;
  }

  lemma {:induction false} NextNew(k: nat, j: nat)
    requires k >= 3 && 1 <= j < k && ClockOk(Renewed(k, j))
    ensures Demand(Renewed(k, j), Pg(k + j + 1)) == Renewed(k, j + 1)
  {
    hide Demand, MemOk;
    var s, t := Renewed(k, j), Renewed(k, j + 1);
    var h := s.policy.hand;
    var d, v := if j == 1 then k - 1 else 1, if j == 1 then 0 else j - 1;
    SweepFault(s, Pg(k + j + 1), d);
    assert s.frames[v := Some(Pg(k + j + 1))] == t.frames;
    assert Swept(s.policy.refs, h, d)[v := true] == t.policy.refs;
  }

  /** By then the first of the new pages has been replaced again. */
  lemma {:induction false} FirstIsGone(k: nat)
    requires k >= 3 && ClockOk(Renewed(k, k))
    ensures Demand(Renewed(k, k), Pg(k + 1)).faults == Renewed(k, k).faults + 1
  {
    hide MemOk, LoadPage, NotifyAccess;
  }

  function Filling(n: nat): seq<Page> { seq(n, i requires 0 <= i => Pg(i)) }

  function Touching(m: nat): seq<Page> { seq(m, i requires 0 <= i => Pg(i + 2)) }

  /** The new pages k+1 .. k+j. */
  function NewPages(k: nat, j: nat): seq<Page> { seq(j, i requires 0 <= i => Pg(k + 1 + i)) }

  lemma {:induction false} FillingSnoc(n: nat)
    ensures Filling(n + 1) == Filling(n) + [Pg(n)]
  {
  }

  lemma {:induction false} NothingTouched()
    ensures Touching(0) == []
  {
  }

  lemma {:induction false} TouchingSnoc(k: nat, m: nat)
    ensures Filling(k + 1) + Touching(m + 1) == Filling(k + 1) + Touching(m) + [Pg(m + 2)]
  {
    assert Touching(m + 1) == Touching(m) + [Pg(m + 2)];
  }

  lemma {:induction false} RunFilling(bits: seq<bool>, n: nat)
    requires n <= |bits| && bits != [] && MemOk(Cold(bits).frames, Cold(bits).policy)
    ensures DemandRun(Cold(bits), Filling(n)) == Filled(bits, n) && ClockOk(Filled(bits, n))
  {
    hide Demand, MemOk, ClockOk, Filled, Cold;
    ClockStays(bits, Filling(n));
    if n == 0 {
      assert Filling(0) == [];
      NothingFilled(bits);
    } else {
      RunFilling(bits, n - 1);
      FillOne(bits, n - 1);
      FillingSnoc(n - 1);
      DemandSnoc(Cold(bits), Filling(n - 1), Pg(n - 1));
    }
  }

  lemma {:induction false} NothingFilled(bits: seq<bool>)
    ensures Cold(bits) == Filled(bits, 0)
  {
    assert Cold(bits).frames == Filled(bits, 0).frames;
    assert Cold(bits).policy.refs == Filled(bits, 0).policy.refs;
  }

  lemma {:induction false} RunTouching(bits: seq<bool>, k: nat, m: nat)
    requires k == |bits| && k >= 3 && m + 2 <= k && MemOk(Cold(bits).frames, Cold(bits).policy)
    ensures DemandRun(Cold(bits), Filling(k + 1) + Touching(m)) == Lapped(k, m + 2) && ClockOk(Lapped(k, m + 2))
  {
    hide Demand, MemOk, DemandRun, ClockOk, Lapped, Filled, Filling, Touching, Cold;
    ClockStays(bits, Filling(k + 1) + Touching(m));
    if m == 0 {
      RunFilling(bits, k);
      FullLap(bits);
      FillingSnoc(k);
      NothingTouched();
      assert Filling(k + 1) + [] == Filling(k + 1);
      DemandSnoc(Cold(bits), Filling(k), Pg(k));
    } else {
      RunTouching(bits, k, m - 1);
      TouchOne(k, m + 1);
      TouchingSnoc(k, m - 1);
      DemandSnoc(Cold(bits), Filling(k + 1) + Touching(m - 1), Pg(m + 1));
    }
  }

  function Before(k: nat): seq<Page>
    requires k >= 2
  {
    Filling(k + 1) + Touching(k - 2)
  }

  lemma {:induction false} RunNewPages(bits: seq<bool>, k: nat, j: nat)
    requires k == |bits| && k >= 3 && 1 <= j <= k && MemOk(Cold(bits).frames, Cold(bits).policy)
    ensures DemandRun(Cold(bits), Before(k) + NewPages(k, j)) == Renewed(k, j) && ClockOk(Renewed(k, j))
  {
    hide Demand, MemOk, DemandRun, ClockOk, Lapped, Renewed, Filling, Touching, Cold;
    ClockStays(bits, Before(k) + NewPages(k, j));
    assert Before(k) + NewPages(k, j) == Before(k) + NewPages(k, j - 1) + [Pg(k + j)];
    DemandSnoc(Cold(bits), Before(k) + NewPages(k, j - 1), Pg(k + j));
    if j == 1 {
      RunTouching(bits, k, k - 2);
      FirstNew(k);
      assert Before(k) + NewPages(k, 0) == Before(k);
    } else {
      RunNewPages(bits, k, j - 1);
      NextNew(k, j - 1);
    }
  }

  lemma {:induction false} NewPagesNamed(k: nat, j: nat)
    ensures |Named(NewPages(k, j))| == j && (forall x :: x in NewPages(k, j) ==> k < x.vpn <= k + j)
  {
    if j == 0 {
      assert NewPages(k, 0) == [];
    } else {
      NewPagesNamed(k, j - 1);
      assert NewPages(k, j) == NewPages(k, j - 1) + [Pg(k + j)];
      NamedSnoc(NewPages(k, j));
    }
  }

  /** With k frames, three or more, a stretch naming k pages can cost k + 1 faults. */
  lemma {:induction false} LargeMemoryBreaksBound(bits: seq<bool>) returns (before: seq<Page>, stretch: seq<Page>)
    requires |bits| >= 3
    ensures MemOk(Cold(bits).frames, Cold(bits).policy) && |Named(stretch)| == |bits|
    ensures before != [] && forall x :: x in before + stretch ==> x.pid == 1
    ensures DemandRun(Cold(bits), before + stretch).faults == DemandRun(Cold(bits), before).faults + |bits| + 1
  {
    var k := |bits|;
    ColdIsOk(bits);
    hide Demand, MemOk, DemandRun, ClockOk, Lapped, Cold, Before, NewPages, Named;
    before, stretch := Before(k), NewPages(k, k) + [Pg(k + 1)];
    BeforeRun(bits, k);
    RunNewPages(bits, k, k);
    FirstIsGone(k);
    assert before + stretch == before + NewPages(k, k) + [Pg(k + 1)];
    DemandSnoc(Cold(bits), before + NewPages(k, k), Pg(k + 1));
    NamedAgain(k);
    OfProcessOne(k);
  }

  lemma {:induction false} OfProcessOne(k: nat)
    requires k >= 2
    ensures Before(k) != [] && forall x :: x in Before(k) + (NewPages(k, k) + [Pg(k + 1)]) ==> x.pid == 1
  {
  }

  lemma {:induction false} BeforeRun(bits: seq<bool>, k: nat)
    requires k == |bits| && k >= 3 && MemOk(Cold(bits).frames, Cold(bits).policy)
    ensures DemandRun(Cold(bits), Before(k)).faults == k + 1
  {
    hide DemandRun, MemOk, Cold, Filling, Touching, ClockOk;
    RunTouching(bits, k, k - 2);
  }

  lemma {:induction false} NamedAgain(k: nat)
    requires k > 0
    ensures |Named(NewPages(k, k) + [Pg(k + 1)])| == k
  {
    var stretch := NewPages(k, k) + [Pg(k + 1)];
    NewPagesNamed(k, k);
    assert NewPages(k, k)[0] == Pg(k + 1);
    NamedSnoc(stretch);
    assert stretch[..|stretch| - 1] == NewPages(k, k);
    assert Named(stretch) == Named(NewPages(k, k));
  }

  /** Clock keeps the fault bound with one or two frames, and breaks it with every other
      number; memory sizes the bitmap can serve are multiples of 32, so the simulator's
      Clock never keeps it. */
  lemma {:induction false} ClockBoundExactly(bits: seq<bool>)
    requires bits != []
    ensures KeepsBound(bits) <==> |bits| <= 2
  {
    hide DemandRun, MemOk, Cold;
    if |bits| <= 2 {
      SmallMemoryKeepsBound(bits);
    } else {
      var before, stretch := LargeMemoryBreaksBound(bits);
      ColdIsOk(bits);
      assert DemandRun(Cold(bits), before + stretch).faults > DemandRun(Cold(bits), before).faults + |Named(stretch)|;
    }
  }
}
