/** Plain demand paging as a fold over page references, and the classical theorems
    about it: LRU inclusion, the fault bound on stretches with few distinct pages,
    and competitiveness against every schedule. */
module Paging {
  import opened Types
  import opened Replacement

  // ---- demand paging on frames and policy -----------------------------------

  /** A page of process 1, for traces written out. */
  function Pg(vpn: nat): Page { Page(1, vpn) }

  datatype Paged = Paged(frames: Frames, policy: Policy, faults: nat)

  /** One reference: touch the page if resident, else load it (evicting if full) and touch it. */
  function Demand(s: Paged, pg: Page): (r: Paged)
    requires MemOk(s.frames, s.policy)
    ensures MemOk(r.frames, r.policy) && |r.frames| == |s.frames| && Resident(r.frames, pg)
  {
    if Resident(s.frames, pg) then
      AccessKeepsMemOk(s.frames, s.policy, pg);
      s.(policy := NotifyAccess(s.policy, pg, FrameOf(s.frames, pg)))
    else
      LoadKeepsMemOk(s.frames, s.policy, pg);
      var (g, q) := LoadPage(s.frames, s.policy, pg);
      AccessKeepsMemOk(g, q, pg);
      Paged(g, NotifyAccess(q, pg, FrameOf(g, pg)), s.faults + 1)
  }

  function DemandRun(s: Paged, refs: seq<Page>): (r: Paged)
    requires MemOk(s.frames, s.policy)
    ensures MemOk(r.frames, r.policy) && |r.frames| == |s.frames|
  {
    if refs == [] then s else Demand(DemandRun(s, refs[..|refs| - 1]), refs[|refs| - 1])
  }

  // ---- the queue policies alone ---------------------------------------------

  datatype Discipline = LeastRecent | FirstIn

  function PolicyOf(d: Discipline, q: seq<Page>): Policy {
    if d == LeastRecent then Lru(q) else Fifo(q)
  }

  /** The eviction queue after a reference to `x`, with `k` frames. */
  function QueueRef(d: Discipline, q: seq<Page>, x: Page, k: nat): seq<Page>
    requires k > 0
  {
    if x in q then (if d == LeastRecent then Filter(q, {x}) + [x] else q)
    else Kept(q, k) + [x]
  }

  /** What stays of the queue when a page is to be loaded. */
  function Kept(q: seq<Page>, k: nat): seq<Page>
    requires k > 0
  {
    if |q| < k then q else q[1..]
  }

  function QueueRun(d: Discipline, q: seq<Page>, refs: seq<Page>, k: nat): seq<Page>
    requires k > 0
  {
    if refs == [] then q
    else QueueRef(d, QueueRun(d, q, refs[..|refs| - 1], k), refs[|refs| - 1], k)
  }

  /** Page faults taken along the way. */
  function Faults(d: Discipline, q: seq<Page>, refs: seq<Page>, k: nat): nat
    requires k > 0
  {
    if refs == [] then 0
    else
      Faults(d, q, refs[..|refs| - 1], k)
      + if refs[|refs| - 1] in QueueRun(d, q, refs[..|refs| - 1], k) then 0 else 1
  }

  ghost predicate QueueOk(q: seq<Page>, k: nat) { k > 0 && NoDup(q) && |q| <= k }

  lemma {:induction false} QueueRefOk(d: Discipline, q: seq<Page>, x: Page, k: nat)
    requires QueueOk(q, k)
    ensures QueueOk(QueueRef(d, q, x, k), k)
  {
    if x in q { FilterOneLength(q, x); }
  }

  lemma {:induction false} QueueRunOk(d: Discipline, q: seq<Page>, refs: seq<Page>, k: nat)
    requires QueueOk(q, k)
    ensures QueueOk(QueueRun(d, q, refs, k), k)
  {
    if refs != [] {
      QueueRunOk(d, q, refs[..|refs| - 1], k);
      QueueRefOk(d, QueueRun(d, q, refs[..|refs| - 1], k), refs[|refs| - 1], k);
    }
  }

  /** Frames and policy move together with the bare queue: same queue, same faults,
      and a reference faults exactly when it is not in the queue. */
  lemma {:induction false} QueueIsEnough(d: Discipline, s: Paged, q: seq<Page>, refs: seq<Page>)
    requires MemOk(s.frames, s.policy) && s.policy == PolicyOf(d, q)
    ensures var r := DemandRun(s, refs);
      && r.policy == PolicyOf(d, QueueRun(d, q, refs, |s.frames|))
      && r.faults == s.faults + Faults(d, q, refs, |s.frames|)
  {
    if refs != [] {
      var before := refs[..|refs| - 1];
      QueueIsEnough(d, s, q, before);
      DemandIsQueueRef(d, DemandRun(s, before), QueueRun(d, q, before, |s.frames|), refs[|refs| - 1]);
    }
  }

  lemma {:induction false} DemandIsQueueRef(d: Discipline, s: Paged, q: seq<Page>, x: Page)
    requires MemOk(s.frames, s.policy) && s.policy == PolicyOf(d, q)
    ensures Demand(s, x).policy == PolicyOf(d, QueueRef(d, q, x, |s.frames|))
    ensures Demand(s, x).faults == s.faults + if x in q then 0 else 1
  {
    if x !in q {
      QueueLength(s.frames, s.policy);
      var v := Kept(q, |s.frames|);
      FilterNothing(v, {x});
      FilterAppend(v, [x], {x});
      assert Filter([x], {x}) == [];
      assert LoadPage(s.frames, s.policy, x).1 == PolicyOf(d, v + [x]);
    }
  }

  lemma {:induction false} RunInTwo(d: Discipline, q: seq<Page>, a: seq<Page>, b: seq<Page>, k: nat)
    requires k > 0
    ensures QueueRun(d, q, a + b, k) == QueueRun(d, QueueRun(d, q, a, k), b, k)
    ensures Faults(d, q, a + b, k) == Faults(d, q, a, k) + Faults(d, QueueRun(d, q, a, k), b, k)
  {
    if b == [] {
      assert a + b == a;
    } else {
      assert (a + b)[..|a + b| - 1] == a + b[..|b| - 1];
      RunInTwo(d, q, a, b[..|b| - 1], k);
    }
  }

  // ---- LRU inclusion --------------------------------------------------------

  ghost predicate IsSuffix<T>(a: seq<T>, b: seq<T>) {
    |a| <= |b| && a == b[|b| - |a|..]
  }

  /** The smaller memory's queue is the recent end of the larger one's, as long as it can be. */
  ghost predicate Included(a: seq<Page>, k: nat, b: seq<Page>, l: nat) {
    && NoDup(b) && |b| <= l
    && IsSuffix(a, b)
    && |a| == if |b| < k then |b| else k
  }

  lemma {:induction false} SuffixSnoc(c: seq<Page>, a: seq<Page>, x: Page)
    ensures IsSuffix(a + [x], c + a + [x])
  {
    assert (c + a + [x])[|c|..] == a + [x];
  }

  lemma {:induction false} NoDupParts(c: seq<Page>, a: seq<Page>)
    requires NoDup(c + a)
    ensures NoDup(c) && NoDup(a) && forall x :: x in a ==> x !in c
  {
    assert forall i :: 0 <= i < |a| ==> (c + a)[|c| + i] == a[i];
    assert forall i :: 0 <= i < |c| ==> (c + a)[i] == c[i];
  }

  lemma {:induction false} InclusionHitBoth(c: seq<Page>, a: seq<Page>, x: Page)
    requires NoDup(c + a) && x in a
    ensures Filter(c + a, {x}) + [x] == c + Filter(a, {x}) + [x]
    ensures |Filter(a, {x})| == |a| - 1
  {
    hide NoDup, Filter;
    NoDupParts(c, a);
    FilterAppend(c, a, {x});
    FilterNothing(c, {x});
    FilterOneLength(a, x);
  }

  lemma {:induction false} InclusionHitLarge(c: seq<Page>, a: seq<Page>, x: Page)
    requires NoDup(c + a) && x in c && x !in a && a != []
    ensures Filter(c + a, {x}) + [x] == (Filter(c, {x}) + [a[0]]) + a[1..] + [x]
    ensures |Filter(c, {x})| == |c| - 1
  {
    hide NoDup, Filter;
    NoDupParts(c, a);
    FilterAppend(c, a, {x});
    FilterNothing(a, {x});
    FilterOneLength(c, x);
    assert Filter(c, {x}) + a == (Filter(c, {x}) + [a[0]]) + a[1..];
  }

  lemma {:induction false} InclusionStep(a: seq<Page>, k: nat, b: seq<Page>, l: nat, x: Page)
    requires 0 < k <= l && Included(a, k, b, l)
    ensures Included(QueueRef(LeastRecent, a, x, k), k, QueueRef(LeastRecent, b, x, l), l)
  {
    hide NoDup, Filter, IsSuffix;
    var c := b[..|b| - |a|];
    SuffixSplit(a, b);
    QueueRefOk(LeastRecent, b, x, l);
    if x in a {
      InclusionHitBoth(c, a, x);
      SuffixSnoc(c, Filter(a, {x}), x);
    } else if x in b {
      assert x in c;
      InclusionHitLarge(c, a, x);
      SuffixSnoc(Filter(c, {x}) + [a[0]], a[1..], x);
    } else {
      var rest := Kept(b, l)[..|Kept(b, l)| - |Kept(a, k)|];
      assert Kept(b, l) == rest + Kept(a, k);
      SuffixSnoc(rest, Kept(a, k), x);
    }
  }

  lemma {:induction false} SuffixSplit(a: seq<Page>, b: seq<Page>)
    requires IsSuffix(a, b)
    ensures |a| <= |b| && b == b[..|b| - |a|] + a
  {
  }

  /** With LRU, after every reference the pages held by `k` frames are among those held
      by `l >= k` frames, and more memory never means more faults. */
  lemma {:induction false} LruInclusion(refs: seq<Page>, k: nat, l: nat)
    requires 0 < k <= l
    ensures Included(QueueRun(LeastRecent, [], refs, k), k, QueueRun(LeastRecent, [], refs, l), l)
    ensures forall x :: x in QueueRun(LeastRecent, [], refs, k) ==> x in QueueRun(LeastRecent, [], refs, l)
    ensures Faults(LeastRecent, [], refs, l) <= Faults(LeastRecent, [], refs, k)
  {
    if refs != [] {
      var before := refs[..|refs| - 1];
      LruInclusion(before, k, l);
      InclusionStep(QueueRun(LeastRecent, [], before, k), k, QueueRun(LeastRecent, [], before, l), l, refs[|refs| - 1]);
    }
  }

  // ---- stretches naming few pages -------------------------------------------

  ghost function Named<T>(refs: seq<T>): set<T> { set x | x in refs }

  lemma {:induction false} NamedSnoc(refs: seq<Page>)
    requires refs != []
    ensures Named(refs) == Named(refs[..|refs| - 1]) + {refs[|refs| - 1]}
  {
    assert refs == refs[..|refs| - 1] + [refs[|refs| - 1]];
  }

  lemma {:induction false} NoMoreThanNamed(s: seq<Page>, d: set<Page>)
    requires NoDup(s) && forall x :: x in s ==> x in d
    ensures |s| <= |d|
    ensures |s| == |d| ==> Named(s) == d
  {
    NoDupCardinality(s);
    SubsetCardinality(Named(s), d);
  }

  lemma {:induction false} SubsetCardinality<T>(a: set<T>, b: set<T>)
    requires a <= b
    ensures |a| <= |b|
    ensures |a| == |b| ==> a == b
  {
    assert b == a + (b - a);
    assert |b| == |a| + |b - a|;
  }

  lemma {:induction false} FifoStretchStep(m: seq<Page>, n: nat, d: set<Page>, x: Page, k: nat)
    requires QueueOk(m, k) && n <= |m| && x !in m && |d + {x}| <= k
    requires forall y :: y in m[|m| - n..] ==> y in d
    ensures var r := Kept(m, k) + [x];
      n + 1 <= |r| && forall y :: y in r[|r| - (n + 1)..] ==> y in d + {x}
  {
    var newest := m[|m| - n..];
    assert NoDup(newest + [x]);
    NoMoreThanNamed(newest + [x], d + {x});
    var r := Kept(m, k) + [x];
    assert r[|r| - (n + 1)..] == newest + [x];
  }

  /** FIFO: the pages faulted on during the stretch are the newest in the queue. */
  lemma {:induction false} FifoStretch(q: seq<Page>, refs: seq<Page>, k: nat)
    requires QueueOk(q, k) && |Named(refs)| <= k
    ensures var r := QueueRun(FirstIn, q, refs, k); var n := Faults(FirstIn, q, refs, k);
      n <= |r| && forall x :: x in r[|r| - n..] ==> x in Named(refs)
  {
    if refs != [] {
      var before, x := refs[..|refs| - 1], refs[|refs| - 1];
      NamedSnoc(refs);
      SubsetCardinality(Named(before), Named(refs));
      FifoStretch(q, before, k);
      QueueRunOk(FirstIn, q, before, k);
      var m := QueueRun(FirstIn, q, before, k);
      if x !in m { FifoStretchStep(m, Faults(FirstIn, q, before, k), Named(before), x, k); }
    }
  }

  /** The newest entries of the queue `r` are exactly the pages of `d`. */
  ghost predicate NewestAre(r: seq<Page>, d: set<Page>) {
    |d| <= |r| && Named(r[|r| - |d|..]) == d
  }

  /** LRU: the pages named during the stretch are the newest in the queue. */
  lemma {:induction false} LruStretch(q: seq<Page>, refs: seq<Page>, k: nat)
    requires QueueOk(q, k) && |Named(refs)| <= k
    ensures NewestAre(QueueRun(LeastRecent, q, refs, k), Named(refs))
    ensures Faults(LeastRecent, q, refs, k) <= |Named(refs)|
  {
    if refs == [] {
      assert Named(refs) == {};
    } else {
      var before, x := refs[..|refs| - 1], refs[|refs| - 1];
      NamedSnoc(refs);
      SubsetCardinality(Named(before), Named(refs));
      LruStretch(q, before, k);
      QueueRunOk(LeastRecent, q, before, k);
      LruStretchStep(QueueRun(LeastRecent, q, before, k), Named(before), x, k);
    }
  }

  lemma {:induction false} LruStretchStep(m: seq<Page>, d: set<Page>, x: Page, k: nat)
    requires QueueOk(m, k) && NewestAre(m, d) && |d + {x}| <= k
    ensures NewestAre(QueueRef(LeastRecent, m, x, k), d + {x})
    ensures x in d ==> x in m && d + {x} == d
  {
    hide NoDup, Filter, NewestAre, Named, Kept, QueueOk;
    NewestSplit(m, d);
    var older, newest := m[..|m| - |d|], m[|m| - |d|..];
    if x in d {
      assert d + {x} == d;
      NewestTouched(m, older, newest, d, x, k);
    } else if x in m {
      FilterAppend(older, newest, {x});
      FilterNothing(newest, {x});
      NewestAppended(Filter(older, {x}), newest, d, x);
    } else {
      NewestJoined(m, newest, d, x, k);
    }
  }

  /** One of the newest pages is used again. */
  lemma {:induction false} NewestTouched(m: seq<Page>, older: seq<Page>, newest: seq<Page>, d: set<Page>,
        x: Page, k: nat)
    requires QueueOk(m, k) && m == older + newest && Named(newest) == d && |newest| == |d| && x in newest && x in d
    ensures NewestAre(Filter(m, {x}) + [x], d)
  {
    hide NoDup, Filter, NewestAre, Named;
    InclusionHitBoth(older, newest, x);
    NamedWithout(newest, d, x);
    NewestAppended(older, Filter(newest, {x}), d - {x}, x);
    assert d - {x} + {x} == d;
  }

  /** A page from outside memory joins the newest; none of them is evicted for it. */
  lemma {:induction false} NewestJoined(m: seq<Page>, newest: seq<Page>, d: set<Page>, x: Page, k: nat)
    requires k > 0 && |newest| == |d| <= |m| && newest == m[|m| - |d|..] && Named(newest) == d
    requires x !in d && |d + {x}| <= k
    ensures NewestAre(Kept(m, k) + [x], d + {x})
  {
    hide NewestAre, Named;
    assert |d + {x}| == |d| + 1;
    var rest := Kept(m, k)[..|Kept(m, k)| - |d|];
    assert Kept(m, k) == rest + newest;
    NewestAppended(rest, newest, d, x);
  }

  lemma {:induction false} NewestSplit(m: seq<Page>, d: set<Page>)
    requires NewestAre(m, d)
    ensures |d| <= |m| && m == m[..|m| - |d|] + m[|m| - |d|..] && Named(m[|m| - |d|..]) == d
    ensures forall x :: x in m[|m| - |d|..] <==> x in d
  {
    var newest := m[|m| - |d|..];
    forall x ensures x in newest <==> x in d { assert x in newest <==> x in Named(newest); }
  }

  lemma {:induction false} NamedWithout(q: seq<Page>, d: set<Page>, x: Page)
    requires Named(q) == d
    ensures Named(Filter(q, {x})) == d - {x}
  {
  }

  lemma {:induction false} NewestAppended(older: seq<Page>, newest: seq<Page>, d: set<Page>, x: Page)
    requires |newest| == |d| && Named(newest) == d && x !in d
    ensures NewestAre(older + newest + [x], d + {x})
  {
    var r := older + newest + [x];
    assert r[|r| - |d + {x}|..] == newest + [x];
  }

  /** From any state, a stretch of references naming at most `k` distinct pages causes
      at most one fault per page named, so at most `k`, with LRU and with FIFO. */
  lemma {:induction false} PhaseBound(d: Discipline, q: seq<Page>, refs: seq<Page>, k: nat)
    requires QueueOk(q, k) && |Named(refs)| <= k
    ensures Faults(d, q, refs, k) <= |Named(refs)|
  {
    if d == LeastRecent {
      LruStretch(q, refs, k);
    } else {
      FifoStretch(q, refs, k);
      QueueRunOk(FirstIn, q, refs, k);
      var r := QueueRun(FirstIn, q, refs, k);
      NoMoreThanNamed(r[|r| - Faults(FirstIn, q, refs, k)..], Named(refs));
    }
  }

  // ---- competitiveness ------------------------------------------------------

  /** A schedule for `refs` with `k` frames, of any kind whatever: `held[i]` is what memory
      holds just before reference `i`; it may look ahead and may load pages early. */
  ghost predicate Schedule(refs: seq<Page>, held: seq<set<Page>>, k: nat) {
    && |held| == |refs| + 1
    && (forall i :: 0 <= i < |held| ==> |held[i]| <= k)
    && forall i :: 0 <= i < |refs| ==> refs[i] in held[i + 1]
  }

  /** Pages the schedule reads from disk. */
  ghost function Loads(held: seq<set<Page>>): nat {
    if |held| < 2 then 0 else |held[1] - held[0]| + Loads(held[1..])
  }

  lemma {:induction false} LoadsInTwo(held: seq<set<Page>>, m: nat)
    requires m < |held|
    ensures Loads(held) == Loads(held[..m + 1]) + Loads(held[m..])
  {
    if m == 0 {
      assert held[0..] == held;
    } else {
      LoadsInTwo(held[1..], m - 1);
      assert held[1..][..m] == held[..m + 1][1..];
      assert held[1..][m - 1..] == held[m..];
    }
  }

  /** A schedule that comes to hold a page it did not hold has loaded something. */
  lemma {:induction false} MustLoad(held: seq<set<Page>>, x: Page, at: nat)
    requires at < |held| && x in held[at] && x !in held[0]
    ensures Loads(held) >= 1
  {
    if x in held[1] {
      assert x in held[1] - held[0];
    } else {
      MustLoad(held[1..], x, at - 1);
    }
  }

  /** Length of the longest prefix naming at most `k` pages. */
  ghost function PhaseLength(refs: seq<Page>, k: nat, m: nat): (n: nat)
    requires m <= |refs| && |Named(refs[..m])| <= k
    ensures m <= n <= |refs| && |Named(refs[..n])| <= k
    ensures n < |refs| ==> |Named(refs[..n + 1])| > k
    decreases |refs| - m
  {
    if m == |refs| || |Named(refs[..m + 1])| > k then m else PhaseLength(refs, k, m + 1)
  }

  /** After serving the first page of a phase, every schedule reads the disk before it has
      served the first page of the next phase. */
  lemma {:induction false} EveryPhaseCosts(refs: seq<Page>, held: seq<set<Page>>, k: nat, m: nat)
    requires 0 < m < |refs| && Schedule(refs, held, k) && |Named(refs[..m + 1])| > k
    ensures Loads(held[1..m + 2]) >= 1
  {
    var phase := refs[..m + 1];
    if Named(phase) <= held[1] {
      SubsetCardinality(Named(phase), held[1]);
      assert false;
    }
    var x :| x in Named(phase) && x !in held[1];
    var i :| 0 <= i < |phase| && phase[i] == x;
    assert refs[i] in held[i + 1];
    assert held[1..m + 2][i] == held[i + 1];
    MustLoad(held[1..m + 2], x, i);
  }

  lemma {:induction false} Scale(k: nat, a: nat, b: nat)
    requires a <= b
    ensures k * a <= k * b && k + k * a == k * (a + 1)
  {
  }

  lemma {:induction false} ScheduleSuffix(refs: seq<Page>, held: seq<set<Page>>, k: nat, m: nat)
    requires m <= |refs| && Schedule(refs, held, k)
    ensures Schedule(refs[m..], held[m..], k)
  {
    forall i | 0 <= i < |refs[m..]| ensures refs[m..][i] in held[m..][i + 1] {
      assert refs[m + i] in held[m + i + 1];
    }
  }

  lemma {:induction false} LoadsAcrossPhase(refs: seq<Page>, held: seq<set<Page>>, k: nat, m: nat)
    requires 0 < m < |refs| && Schedule(refs, held, k) && |Named(refs[..m + 1])| > k
    ensures Loads(held[1..]) >= Loads(held[m..][1..]) + 1
  {
    EveryPhaseCosts(refs, held, k, m);
    LoadsInTwo(held[1..], m);
    assert held[1..][..m + 1] == held[1..m + 2] && held[1..][m..] == held[m..][1..];
  }

  lemma {:induction false} PhaseNonempty(refs: seq<Page>, k: nat)
    requires k > 0 && refs != []
    ensures |Named(refs[..0])| <= k && PhaseLength(refs, k, 0) > 0
  {
    assert Named(refs[..0]) == {};
    assert Named(refs[..1]) == {refs[0]};
  }

  lemma {:induction false} OnePhaseMore(first: nat, rest: nat, k: nat, later: nat, all: nat)
    requires first <= k && rest <= k * (later + 1) && all >= later + 1
    ensures first + rest <= k * (all + 1)
  {
    Scale(k, later + 2, all + 1);
    assert k + k * (later + 1) == k * (later + 2);
  }

  lemma {:induction false} ScheduleLength(refs: seq<Page>, held: seq<set<Page>>, k: nat)
    requires Schedule(refs, held, k)
    ensures |held| == |refs| + 1
  {
  }

  lemma {:induction false} CompetitiveFrom(d: Discipline, q: seq<Page>, refs: seq<Page>, held: seq<set<Page>>, k: nat)
    requires QueueOk(q, k) && refs != [] && Schedule(refs, held, k)
    ensures Faults(d, q, refs, k) <= k * (Loads(held[1..]) + 1)
    decreases |refs|
  {
    hide Faults, QueueRun, Named, Schedule, Loads, NoDup;
    ScheduleLength(refs, held, k);
    PhaseNonempty(refs, k);
    var m := PhaseLength(refs, k, 0);
    PhaseBound(d, q, refs[..m], k);
    if m == |refs| {
      assert refs[..m] == refs;
      Scale(k, 1, Loads(held[1..]) + 1);
    } else {
      NextPhases(d, q, refs, held, k, m);
      LoadsAcrossPhase(refs, held, k, m);
      var now, later := Faults(d, q, refs[..m], k), Faults(d, QueueRun(d, q, refs[..m], k), refs[m..], k);
      OnePhaseMore(now, later, k, Loads(held[m..][1..]), Loads(held[1..]));
    }
  }

  lemma {:induction false} NextPhases(d: Discipline, q: seq<Page>, refs: seq<Page>, held: seq<set<Page>>,
        k: nat, m: nat)
    requires QueueOk(q, k) && 0 < m < |refs| && Schedule(refs, held, k)
    ensures Faults(d, q, refs, k) == Faults(d, q, refs[..m], k) + Faults(d, QueueRun(d, q, refs[..m], k), refs[m..], k)
    ensures Faults(d, QueueRun(d, q, refs[..m], k), refs[m..], k) <= k * (Loads(held[m..][1..]) + 1)
    decreases |refs|, 0
  {
    assert refs == refs[..m] + refs[m..];
    RunInTwo(d, q, refs[..m], refs[m..], k);
    QueueRunOk(d, q, refs[..m], k);
    ScheduleSuffix(refs, held, k, m);
    CompetitiveFrom(d, QueueRun(d, q, refs[..m], k), refs[m..], held[m..], k);
  }

  /** LRU and FIFO are k-competitive: from empty memory they fault at most `k` times as
      often as any schedule with `k` frames reads the disk. */
  lemma {:induction false} Competitive(d: Discipline, refs: seq<Page>, held: seq<set<Page>>, k: nat)
    requires k > 0 && Schedule(refs, held, k) && held[0] == {}
    ensures Faults(d, [], refs, k) <= k * Loads(held)
  {
    if refs != [] {
      CompetitiveFrom(d, [], refs, held, k);
      assert refs[0] in held[1] - held[0];
      Scale(k, Loads(held[1..]) + 1, Loads(held));
    }
  }
}
