/** FIFO with less and with more memory.  More frames never cost faults when there are none
    more, or at least twice as many less one; for every size in between there is a trace on
    which the larger memory faults more often. */
module FifoMemory {
  import opened Types
  import opened Paging

  /** `l` frames never fault more often than `k`, from empty memory. */
  ghost predicate NeverWorse(k: nat, l: nat)
    requires k > 0 && l > 0
  {
    forall refs: seq<Page> :: Faults(FirstIn, [], refs, l) <= Faults(FirstIn, [], refs, k)
  }

  // ---- enough memory: every fault is paid for --------------------------------
  //
  // While a page stays in the small memory, the large one does not load it twice.  So a
  // fault of the large memory alone, on a page of the small one, is the first since that
  // page came into the small memory, and it came in by a fault of the small memory alone.

  /** The pages behind `x` in the queue: loaded after it. */
  ghost function After(q: seq<Page>, x: Page): set<Page> {
    if q == [] then {} else if q[0] == x then Named(q[1..]) else After(q[1..], x)
  }

  /** A page `x` in both memories: of the pages the large one has loaded since, no more are
      missing from the small one than the small one has loaded since. */
  ghost predicate Settled(small: seq<Page>, large: seq<Page>, x: Page) {
    x in large && |After(large, x) - Named(small)| <= |After(small, x)|
  }

  /** `credit` are pages of the small memory that the large one may still have to load. */
  ghost predicate Paid(small: seq<Page>, large: seq<Page>, credit: set<Page>) {
    && credit <= Named(small)
    && forall x :: x in small && x !in credit ==> Settled(small, large, x)
  }

  lemma {:induction false} AfterSnoc(q: seq<Page>, x: Page, z: Page)
    requires NoDup(q) && x in q && z !in q
    ensures After(q + [z], x) == After(q, x) + {z}
  {
    if q[0] == x {
      assert (q + [z])[1..] == q[1..] + [z];
    } else {
      assert q == [q[0]] + q[1..] && (q + [z])[1..] == q[1..] + [z];
      NoDupCons(q[0], q[1..]);
      AfterSnoc(q[1..], x, z);
    }
  }

  lemma {:induction false} AfterTail(q: seq<Page>, x: Page)
    requires NoDup(q) && q != [] && x in q[1..]
    ensures After(q[1..], x) == After(q, x)
  {
    assert q == [q[0]] + q[1..];
    NoDupCons(q[0], q[1..]);
  }

  lemma {:induction false} AfterMembers(q: seq<Page>, x: Page)
    requires NoDup(q) && x in q
    ensures After(q, x) <= Named(q) - {x}
    ensures |After(q, x)| < |q|
    ensures x == q[0] ==> |After(q, x)| == |q| - 1
  {
    assert q == [q[0]] + q[1..];
    NoDupCons(q[0], q[1..]);
    if q[0] == x {
      NoDupCardinality(q[1..]);
    } else {
      AfterMembers(q[1..], x);
    }
  }

  lemma {:induction false} NewestHasNoneAfter(q: seq<Page>, z: Page)
    requires z !in q
    ensures After(q + [z], z) == {}
  {
    if q == [] {
      assert ([z])[1..] == [];
    } else {
      assert q == [q[0]] + q[1..] && (q + [z])[1..] == q[1..] + [z];
      NewestHasNoneAfter(q[1..], z);
    }
  }

  lemma {:induction false} AfterLoad(q: seq<Page>, x: Page, z: Page, k: nat)
    requires QueueOk(q, k) && z !in q && x in Kept(q, k)
    ensures x in q && After(Kept(q, k) + [z], x) == After(q, x) + {z} && z !in After(q, x)
  {
    hide After, NoDup;
    if |q| >= k {
      assert q == [q[0]] + q[1..];
      NoDupCons(q[0], q[1..]);
      AfterTail(q, x);
    }
    AfterSnoc(Kept(q, k), x, z);
    AfterMembers(q, x);
  }

  /** One load by the small memory drops at most one page from it. */
  lemma {:induction false} OneDropped(a: set<Page>, q: seq<Page>, z: Page, k: nat)
    requires k > 0
    ensures |a + {z} - Named(Kept(q, k) + [z])| <= |a - Named(q)| + 1
    ensures |a - Named(Kept(q, k) + [z])| <= |a - Named(q)| + 1
  {
    var r := Kept(q, k) + [z];
    assert z in r;
    var gone := if |q| < k then {} else if q == [] then {} else {q[0]};
    forall x | x in q && x !in gone ensures x in r {
      if |q| >= k { assert q == [q[0]] + q[1..]; }
    }
    SubsetCardinality(a + {z} - Named(r), (a - Named(q)) + gone);
    SubsetCardinality(a - Named(r), (a - Named(q)) + gone);
  }

  lemma {:induction false} SplitBy(a: set<Page>, b: set<Page>)
    ensures |a| == |a * b| + |a - b|
  {
    assert a == a * b + (a - b);
  }

  /** With `l >= 2 * k - 1` frames a page of the small memory is not pushed out of the large
      one: too few pages have been referred to since. */
  lemma {:induction false} NotPushedOut(small: seq<Page>, k: nat, large: seq<Page>, l: nat, x: Page, z: Page)
    requires QueueOk(small, k) && QueueOk(large, l) && 2 * k - 1 <= l
    requires x in small && x in large && z !in large
    requires |After(large, x) + {z} - Named(small)| <= |After(small, x)|
    ensures x in Kept(large, l)
  {
    hide After, NoDup, Named;
    AfterMembers(large, x);
    AfterMembers(small, x);
    if |large| >= l {
      assert large == [large[0]] + large[1..];
      if x == large[0] {
        var a := After(large, x) + {z};
        InOthers(a, large, small, x, z);
        SplitBy(a, Named(small));
        assert false;
      }
    }
  }

  lemma {:induction false} InOthers(a: set<Page>, large: seq<Page>, small: seq<Page>, x: Page, z: Page)
    requires NoDup(large) && NoDup(small) && x in small && x in large && z !in large && a == After(large, x) + {z}
    ensures |a| == |After(large, x)| + 1 && |a * Named(small)| <= |small| - 1
  {
    hide After;
    AfterMembers(large, x);
    assert z !in After(large, x);
    NoDupCardinality(small);
    assert Named(small) == set y | y in small;
    SubsetCardinality(a * Named(small), Named(small) - {x});
  }

  // ---- the four kinds of reference ------------------------------------------

  /** A fault of the large memory alone uses up the credit of its page. */
  lemma {:induction false} LargeAlone(small: seq<Page>, k: nat, large: seq<Page>, l: nat, credit: set<Page>, z: Page)
    requires QueueOk(small, k) && QueueOk(large, l) && 2 * k - 1 <= l && Paid(small, large, credit)
    requires z in small && z !in large
    ensures z in credit && Paid(small, Kept(large, l) + [z], credit - {z})
  {
    hide After, NoDup;
    var r := Kept(large, l) + [z];
    forall x | x in small && x !in credit - {z} ensures Settled(small, r, x) {
      if x == z {
        NewestHasNoneAfter(Kept(large, l), z);
      } else {
        assert After(large, x) + {z} - Named(small) == After(large, x) - Named(small);
        NotPushedOut(small, k, large, l, x, z);
        AfterLoad(large, x, z, l);
      }
    }
  }

  /** A fault of the small memory alone brings in a page with a credit. */
  lemma {:induction false} SmallAlone(small: seq<Page>, k: nat, large: seq<Page>, credit: set<Page>, z: Page)
    requires QueueOk(small, k) && Paid(small, large, credit) && z !in small
    ensures var r := Kept(small, k) + [z]; Paid(r, large, credit * Named(r) + {z})
  {
    hide After, NoDup, Named;
    var r := Kept(small, k) + [z];
    NamedMember(r);
    forall x | x in r && x !in credit * Named(r) + {z} ensures Settled(r, large, x) {
      InKept(small, k, x);
      AfterLoad(small, x, z, k);
      OneDropped(After(large, x), small, z, k);
    }
  }

  lemma {:induction false} InKept(q: seq<Page>, k: nat, x: Page)
    requires k > 0
    ensures x in Kept(q, k) ==> x in q
  {
  }

  lemma {:induction false} NamedMember(q: seq<Page>)
    ensures forall x :: x in Named(q) <==> x in q
  {
  }

  /** A fault of both. */
  lemma {:induction false} BothFault(small: seq<Page>, k: nat, large: seq<Page>, l: nat, credit: set<Page>, z: Page)
    requires QueueOk(small, k) && QueueOk(large, l) && 2 * k - 1 <= l && Paid(small, large, credit)
    requires z !in small && z !in large
    ensures var r := Kept(small, k) + [z]; Paid(r, Kept(large, l) + [z], credit * Named(r))
  {
    hide After, NoDup, Named;
    var r, t := Kept(small, k) + [z], Kept(large, l) + [z];
    NamedMember(r);
    KeptOk(small, k, z);
    forall x | x in r && x !in credit * Named(r) ensures Settled(r, t, x) {
      if x == z {
        NewestHasNoneAfter(Kept(large, l), z);
      } else {
        InKept(small, k, x);
        AfterLoad(small, x, z, k);
        OneDropped(After(large, x), small, z, k);
        NotPushedOut(r, k, large, l, x, z);
        AfterLoad(large, x, z, l);
      }
    }
  }

  lemma {:induction false} KeptOk(q: seq<Page>, k: nat, z: Page)
    requires QueueOk(q, k) && z !in q
    ensures QueueOk(Kept(q, k) + [z], k)
  {
    QueueRefOk(FirstIn, q, z, k);
  }

  /** The faults of the large memory and its outstanding credits are within the faults of
      the small one. */
  lemma {:induction false} FaultsArePaid(refs: seq<Page>, k: nat, l: nat) returns (credit: set<Page>)
    requires 0 < k <= l && 2 * k - 1 <= l
    ensures Paid(QueueRun(FirstIn, [], refs, k), QueueRun(FirstIn, [], refs, l), credit)
    ensures Faults(FirstIn, [], refs, l) + |credit| <= Faults(FirstIn, [], refs, k)
  {
    hide Paid, NoDup;
    if refs == [] {
      credit := {};
      NothingOwed();
    } else {
      var before, z := refs[..|refs| - 1], refs[|refs| - 1];
      var c := FaultsArePaid(before, k, l);
      EmptyOk(k);
      EmptyOk(l);
      QueueRunOk(FirstIn, [], before, k);
      QueueRunOk(FirstIn, [], before, l);
      var small, large := QueueRun(FirstIn, [], before, k), QueueRun(FirstIn, [], before, l);
      credit := c;
      if z in small && z !in large {
        LargeAlone(small, k, large, l, c, z);
        credit := c - {z};
      } else if z !in small && z in large {
        SmallAlone(small, k, large, c, z);
        credit := c * Named(Kept(small, k) + [z]) + {z};
        SubsetCardinality(credit, c + {z});
      } else if z !in small {
        BothFault(small, k, large, l, c, z);
        credit := c * Named(Kept(small, k) + [z]);
        SubsetCardinality(credit, c);
      }
    }
  }

  lemma {:induction false} NothingOwed()
    ensures Paid([], [], {})
  {
  }

  lemma {:induction false} EmptyOk(k: nat)
    requires k > 0
    ensures QueueOk([], k)
  {
  }

  // ---- too little memory: the anomaly ---------------------------------------
  //
  // Pages 0 .. l-1 fill the large memory.  Pages 0 .. k-2 then fault in the small one only,
  // page l faults in both, and pages 0 .. l in turn all fault in the large memory, while the
  // small one still holds 0 .. k-2 and, if l < 2 * k - 1, page l to the end.

  /** Pages `a` to `b - 1`. */
  function Range(a: nat, b: nat): (r: seq<Page>)
    requires a <= b
    ensures |r| == b - a && forall i :: 0 <= i < b - a ==> r[i] == Pg(a + i)
  {
    seq(b - a, i requires 0 <= i => Pg(a + i))
  }

  lemma {:induction false} RangeHas(a: nat, b: nat, n: nat)
    requires a <= b
    ensures Pg(n) in Range(a, b) <==> a <= n < b
  {
    if a <= n < b { assert Range(a, b)[n - a] == Pg(n); }
  }

  lemma {:induction false} OneMore(refs: seq<Page>, x: Page, m: nat)
    requires m > 0
    ensures QueueRun(FirstIn, [], refs + [x], m) == QueueRef(FirstIn, QueueRun(FirstIn, [], refs, m), x, m)
    ensures Faults(FirstIn, [], refs + [x], m) ==
      Faults(FirstIn, [], refs, m) + if x in QueueRun(FirstIn, [], refs, m) then 0 else 1
  {
    assert (refs + [x])[..|refs + [x]| - 1] == refs;
  }

  /** After `refs`, memory of `m` frames holds `q`, and there have been `f` faults. */
  ghost predicate Holds(refs: seq<Page>, m: nat, q: seq<Page>, f: nat) {
    m > 0 && QueueRun(FirstIn, [], refs, m) == q && Faults(FirstIn, [], refs, m) == f
  }

  lemma {:induction false} Fill(m: nat, n: nat)
    requires 0 < m && n <= m
    ensures Holds(Range(0, n), m, Range(0, n), n)
  {
    if n == 0 {
      assert Range(0, 0) == [];
    } else {
      Fill(m, n - 1);
      assert Range(0, n) == Range(0, n - 1) + [Pg(n - 1)];
      OneMore(Range(0, n - 1), Pg(n - 1), m);
      RangeHas(0, n - 1, n - 1);
    }
  }

  lemma {:induction false} OneMiss(refs: seq<Page>, m: nat, q: seq<Page>, f: nat, x: Page)
    requires Holds(refs, m, q, f) && |q| == m && x !in q
    ensures Holds(refs + [x], m, q[1..] + [x], f + 1)
  {
    OneMore(refs, x, m);
  }

  lemma {:induction false} OneHit(refs: seq<Page>, m: nat, q: seq<Page>, f: nat, x: Page)
    requires Holds(refs, m, q, f) && x in q
    ensures Holds(refs + [x], m, q, f)
  {
    OneMore(refs, x, m);
  }

  lemma {:induction false} RangeSnoc(refs: seq<Page>, a: nat, b: nat)
    requires a < b
    ensures refs + Range(a, b) == refs + Range(a, b - 1) + [Pg(b - 1)]
  {
    assert Range(a, b) == Range(a, b - 1) + [Pg(b - 1)];
  }

  lemma {:induction false} RangeNone(refs: seq<Page>, a: nat)
    ensures refs + Range(a, a) == refs
  {
    assert Range(a, a) == [];
  }

  /** The queue slides by one page. */
  lemma {:induction false} Slide(q: seq<Page>, a: nat, c: nat)
    requires a <= c && c + 1 - a <= |q|
    ensures (q[c - a..] + Range(a, c))[1..] + [Pg(c)] == q[c + 1 - a..] + Range(a, c + 1)
    ensures Pg(c) !in q[c - a..] ==> Pg(c) !in q[c - a..] + Range(a, c)
  {
    RangeSnoc(q[c + 1 - a..], a, c + 1);
    RangeHas(a, c, c);
    assert (q[c - a..] + Range(a, c))[1..] == q[c - a..][1..] + Range(a, c);
    assert q[c - a..][1..] == q[c + 1 - a..];
  }

  /** A stretch that misses every time pushes out as many pages as it brings in. */
  lemma {:induction false} AllMiss(refs: seq<Page>, m: nat, q: seq<Page>, f: nat, a: nat, b: nat)
    requires Holds(refs, m, q, f) && |q| == m && a <= b && b - a <= m
    requires forall i :: a <= i < b ==> Pg(i) !in q[i - a..]
    ensures Holds(refs + Range(a, b), m, q[b - a..] + Range(a, b), f + b - a)
  {
    hide Holds;
    if a == b {
      RangeNone(refs, a);
      RangeNone(q, a);
      assert q[0..] == q;
    } else {
      AllMiss(refs, m, q, f, a, b - 1);
      RangeSnoc(refs, a, b);
      Slide(q, a, b - 1);
      OneMiss(refs + Range(a, b - 1), m, q[b - 1 - a..] + Range(a, b - 1), f + b - 1 - a, Pg(b - 1));
    }
  }

  lemma {:induction false} AllHit(refs: seq<Page>, m: nat, q: seq<Page>, f: nat, a: nat, b: nat)
    requires Holds(refs, m, q, f) && a <= b && forall i :: a <= i < b ==> Pg(i) in q
    ensures Holds(refs + Range(a, b), m, q, f)
  {
    hide Holds;
    if a == b {
      RangeNone(refs, a);
    } else {
      AllHit(refs, m, q, f, a, b - 1);
      RangeSnoc(refs, a, b);
      OneHit(refs + Range(a, b - 1), m, q, f, Pg(b - 1));
    }
  }

  lemma {:induction false} RangeJoin(refs: seq<Page>, a: nat, b: nat, c: nat)
    requires a <= b <= c
    ensures refs + Range(a, b) + Range(b, c) == refs + Range(a, c)
  {
    assert Range(a, b) + Range(b, c) == Range(a, c);
  }

  lemma {:induction false} RangeDrop(a: nat, b: nat, n: nat)
    requires a + n <= b
    ensures Range(a, b)[n..] == Range(a + n, b)
  {
  }

  /** The trace that FIFO serves better with `k` frames than with `l`. */
  function Anomalous(k: nat, l: nat): seq<Page>
    requires 0 < k < l
  {
    Range(0, l) + Range(0, k - 1) + Range(l, l + 1) + Range(0, l + 1)
  }

  lemma {:induction false} LargeOnAnomalous(k: nat, l: nat)
    requires 0 < k < l
    ensures Faults(FirstIn, [], Anomalous(k, l), l) == 2 * l + 2
  {
    hide QueueRun, Faults, Range;
    var all := Range(0, l);
    Fill(l, l);
    forall i | 0 <= i < l ensures Pg(i) in all { RangeHas(0, l, i); }
    AllHit(all, l, all, l, 0, k - 1);
    var r := all + Range(0, k - 1) + Range(l, l + 1);
    OneBeyond(all + Range(0, k - 1), l, l);
    var q := Range(1, l + 1);
    forall i | 0 <= i < l ensures Pg(i) !in q[i..] {
      RangeDrop(1, l + 1, i);
      RangeHas(1 + i, l + 1, i);
    }
    AllMiss(r, l, q, l + 1, 0, l);
    RangeDrop(1, l + 1, l);
    RangeNone([], l + 1);
    assert q[l..] + all == all;
    OneBeyond(r + all, l, 2 * l + 1);
    RangeJoin(r, 0, l, l + 1);
  }

  /** Pages 0 .. l-1 fill the memory; page l replaces page 0. */
  lemma {:induction false} OneBeyond(refs: seq<Page>, l: nat, f: nat)
    requires l > 0 && Holds(refs, l, Range(0, l), f)
    ensures Holds(refs + Range(l, l + 1), l, Range(1, l + 1), f + 1)
  {
    hide Holds, Range;
    RangeHas(0, l, l);
    assert Range(0, l)[0..] == Range(0, l);
    AllMiss(refs, l, Range(0, l), f, l, l + 1);
    RangeDrop(0, l, 1);
    RangeJoin([], 1, l, l + 1);
    assert [] + Range(1, l) == Range(1, l) && [] + Range(1, l + 1) == Range(1, l + 1);
  }

  /** The small memory once the first `l` pages have gone through it. */
  lemma {:induction false} SmallFilled(k: nat, l: nat)
    requires 0 < k < l <= 2 * k
    ensures Holds(Range(0, l), k, Range(l - k, l), l)
  {
    hide Holds, Range;
    Fill(k, k);
    var q := Range(0, k);
    forall i | k <= i < l ensures Pg(i) !in q[i - k..] {
      RangeDrop(0, k, i - k);
      RangeHas(i - k, k, i);
    }
    AllMiss(q, k, q, k, k, l);
    RangeJoin([], 0, k, l);
    RangeDrop(0, k, l - k);
    RangeJoin([], l - k, k, l);
    assert [] + Range(0, k) == Range(0, k) && [] + Range(0, l) == Range(0, l);
    assert [] + Range(l - k, k) == Range(l - k, k) && [] + Range(l - k, l) == Range(l - k, l);
  }

  /** The small memory once it holds pages 0 .. k-2 and page l. */
  lemma {:induction false} SmallPrepared(k: nat, l: nat)
    requires 0 < k < l <= 2 * k
    ensures Holds(Range(0, l) + Range(0, k - 1) + Range(l, l + 1), k, Range(0, k - 1) + Range(l, l + 1), l + k)
  {
    hide Holds, Range;
    SmallFilled(k, l);
    var q := Range(l - k, l);
    forall i | 0 <= i < k - 1 ensures Pg(i) !in q[i..] {
      RangeDrop(l - k, l, i);
      RangeHas(l - k + i, l, i);
    }
    AllMiss(Range(0, l), k, q, l, 0, k - 1);
    RangeDrop(l - k, l, k - 1);
    var r := Range(l - 1, l) + Range(0, k - 1);
    RangeHas(l - 1, l, l);
    RangeHas(0, k - 1, l);
    assert r[0..] == r && r[1..] == Range(0, k - 1);
    AllMiss(Range(0, l) + Range(0, k - 1), k, r, l + k - 1, l, l + 1);
  }

  /** Pages 0 .. k-2 and page l, as the small memory holds them. */
  lemma {:induction false} InPrepared(k: nat, l: nat)
    requires 0 < k < l < 2 * k - 1
    ensures var q := Range(0, k - 1) + Range(l, l + 1);
      && |q| == k && (forall i: nat :: Pg(i) in q <==> i < k - 1 || i == l)
      && (forall i :: k - 1 <= i < l ==> Pg(i) !in q[i - (k - 1)..])
      && Pg(l) in q[l - (k - 1)..]
  {
    hide Range;
    var q := Range(0, k - 1) + Range(l, l + 1);
    forall i: nat ensures Pg(i) in q <==> i < k - 1 || i == l {
      RangeHas(0, k - 1, i);
      RangeHas(l, l + 1, i);
    }
    assert q[l - (k - 1)..][k - 1 - (l - (k - 1))] == q[k - 1] == Pg(l);
  }

  lemma {:induction false} SmallOnAnomalous(k: nat, l: nat)
    requires 0 < k < l < 2 * k - 1
    ensures Holds(Anomalous(k, l), k, (Range(0, k - 1) + Range(l, l + 1))[l - (k - 1)..] + Range(k - 1, l), 2 * l + 1)
  {
    hide Holds, Range;
    SmallPrepared(k, l);
    InPrepared(k, l);
    var r := Range(0, l) + Range(0, k - 1) + Range(l, l + 1);
    var q := Range(0, k - 1) + Range(l, l + 1);
    AllHit(r, k, q, l + k, 0, k - 1);
    AllMiss(r + Range(0, k - 1), k, q, l + k, k - 1, l);
    var t := q[l - (k - 1)..] + Range(k - 1, l);
    AllHit(r + Range(0, k - 1) + Range(k - 1, l), k, t, 2 * l + 1, l, l + 1);
    RangeJoin(r, 0, k - 1, l);
    RangeJoin(r, 0, l, l + 1);
  }

  lemma {:induction false} AnomalousFaults(k: nat, l: nat)
    requires 0 < k < l < 2 * k - 1
    ensures Faults(FirstIn, [], Anomalous(k, l), l) == Faults(FirstIn, [], Anomalous(k, l), k) + 1
  {
    hide Faults, QueueRun, Range, Anomalous;
    SmallOnAnomalous(k, l);
    LargeOnAnomalous(k, l);
  }

  /** Between two memory sizes FIFO is safe exactly when they are equal or the larger has at
      least twice as many frames less one. */
  lemma {:induction false} FifoMemoryExactly(k: nat, l: nat)
    requires 0 < k <= l
    ensures NeverWorse(k, l) <==> l == k || l >= 2 * k - 1
  {
    hide Faults, Anomalous;
    if k < l < 2 * k - 1 {
      AnomalousFaults(k, l);
      assert Faults(FirstIn, [], Anomalous(k, l), l) > Faults(FirstIn, [], Anomalous(k, l), k);
    } else if l != k {
      forall refs: seq<Page> ensures Faults(FirstIn, [], refs, l) <= Faults(FirstIn, [], refs, k) {
        var credit := FaultsArePaid(refs, k, l);
      }
    }
  }
}
