/** Values shared by every module: pages, trace lines, file positions and the
    contents of physical memory. */
module Types {

  datatype Option<+T> = None | Some(value: T)

  /** A virtual page, identified by its process and its virtual page number. */
  datatype Page = Page(pid: nat, vpn: nat)

  /** One line of the trace file. */
  datatype Line = Line(pid: nat, vpn: nat)

  /** Physical memory: what each frame holds. */
  type Frames = seq<Option<Page>>

  // ---- file positions -------------------------------------------------------
  //
  // The first pass notes positions that stand just before the newline ending the
  // previous line (its scanf format has no trailing newline); the simulator's own
  // scanf skips that newline.  Both kinds of position precede the same line, but
  // they are different numbers, and the scheduler compares them.  A position is
  // therefore 2 * line (noted by the first pass) or 2 * line + 1 (reached by reading),
  // with lines counted from 0.

  function NotedPos(line: nat): nat { 2 * line }

  function PosAfterReading(line: nat): nat { 2 * (line + 1) + 1 }

  function LineAt(pos: nat): nat { pos / 2 }

  /** Both kinds of position lead to their line, and the one noted for a line is the smaller. */
  lemma {:induction false} PositionsOrdered(line: nat)
    ensures LineAt(NotedPos(line)) == line && LineAt(PosAfterReading(line)) == line + 1
    ensures NotedPos(line + 1) < PosAfterReading(line) < NotedPos(line + 2)
  {
  }

  // ---- frames ---------------------------------------------------------------

  function EmptyFrames(n: nat): (f: Frames)
    ensures |f| == n && forall i :: 0 <= i < n ==> f[i] == None
  {
    seq(n, _ => None)
  }

  predicate Resident(f: Frames, pg: Page) { Some(pg) in f }

  /** The lowest frame holding `pg`. */
  function FrameOf(f: Frames, pg: Page): (n: nat)
    requires Resident(f, pg)
    ensures n < |f| && f[n] == Some(pg)
  {
    if f[0] == Some(pg) then 0 else 1 + FrameOf(f[1..], pg)
  }

  /** No two frames hold the same page. */
  ghost predicate NoSharing(f: Frames) {
    forall i, j :: 0 <= i < j < |f| && f[i].Some? ==> f[i] != f[j]
  }

  ghost function ResidentSet(f: Frames): set<Page> {
    set i | 0 <= i < |f| && f[i].Some? :: f[i].value
  }

  /** How many frames are occupied. */
  function Allocated(f: Frames): (n: nat)
    ensures n <= |f|
    ensures n == |f| <==> forall i :: 0 <= i < |f| ==> f[i].Some?
  {
    if f == [] then 0
    else
      var rest := Allocated(f[..|f| - 1]);
      assert forall i :: 0 <= i < |f| - 1 ==> f[..|f| - 1][i] == f[i];
      rest + if f[|f| - 1].Some? then 1 else 0
  }

  predicate HasFree(f: Frames) { Allocated(f) < |f| }

  /** The lowest-numbered free frame. */
  function FirstFree(f: Frames): (n: nat)
    requires HasFree(f)
    ensures n < |f| && f[n] == None
    ensures forall i :: 0 <= i < n ==> f[i].Some?
  {
    FirstFreeFrom(f, 0)
  }

  function FirstFreeFrom(f: Frames, from: nat): (n: nat)
    requires HasFree(f) && from < |f|
    requires forall i :: 0 <= i < from ==> f[i].Some?
    ensures from <= n < |f| && f[n] == None
    ensures forall i :: 0 <= i < n ==> f[i].Some?
    decreases |f| - from
  {
    if f[from] == None then from else FirstFreeFrom(f, from + 1)
  }

  lemma {:induction false} FirstFreeIs(f: Frames, n: nat)
    requires n < |f| && f[n] == None && forall i :: 0 <= i < n ==> f[i].Some?
    ensures HasFree(f) && FirstFree(f) == n
  {
  }

  /** The frames after the pages in `gone` have been dropped. */
  function Clear(f: Frames, gone: set<Page>): (r: Frames)
    ensures |r| == |f|
    ensures forall i :: 0 <= i < |f| ==>
      r[i] == if f[i].Some? && f[i].value in gone then None else f[i]
  {
    seq(|f|, i requires 0 <= i < |f| => if f[i].Some? && f[i].value in gone then None else f[i])
  }

  lemma {:induction false} ResidentClear(f: Frames, gone: set<Page>, pg: Page)
    ensures Resident(Clear(f, gone), pg) <==> Resident(f, pg) && pg !in gone
  {
    if Resident(f, pg) && pg !in gone {
      assert Clear(f, gone)[FrameOf(f, pg)] == Some(pg);
    }
  }

  lemma {:induction false} ResidentUpdate(f: Frames, n: nat, pg: Page, x: Page)
    requires n < |f| && NoSharing(f) && !Resident(f, pg)
    ensures NoSharing(f[n := Some(pg)])
    ensures Resident(f[n := Some(pg)], x) <==> x == pg || (Resident(f, x) && f[n] != Some(x))
  {
    var g := f[n := Some(pg)];
    assert g[n] == Some(pg);
    if Resident(f, x) && f[n] != Some(x) { assert g[FrameOf(f, x)] == Some(x); }
    if Resident(g, x) && x != pg { assert f[FrameOf(g, x)] == Some(x); }
  }

  /** Filling a free frame adds one to the count; swapping the page in a full one keeps it. */
  lemma {:induction false} AllocatedUpdate(f: Frames, n: nat, v: Option<Page>)
    requires n < |f|
    ensures Allocated(f[n := v]) ==
      Allocated(f) + (if v.Some? then 1 else 0) - (if f[n].Some? then 1 else 0)
  {
    var last := |f| - 1;
    if n == last {
      assert f[n := v][..last] == f[..last];
    } else {
      assert f[n := v][..last] == f[..last][n := v];
      AllocatedUpdate(f[..last], n, v);
    }
  }

  lemma {:induction false} NothingAllocated(n: nat)
    ensures Allocated(EmptyFrames(n)) == 0
  {
    if n > 0 {
      NothingAllocated(n - 1);
      assert EmptyFrames(n)[..n - 1] == EmptyFrames(n - 1);
    }
  }

  /** With no page in two frames, the count is the size of the resident set. */
  lemma {:induction false} AllocatedIsCardinality(f: Frames)
    requires NoSharing(f)
    ensures Allocated(f) == |ResidentSet(f)|
  {
    if f == [] {
      assert ResidentSet(f) == {};
    } else {
      var last := |f| - 1;
      var g := f[..last];
      AllocatedIsCardinality(g);
      assert forall i :: 0 <= i < last ==> g[i] == f[i];
      if f[last].Some? {
        assert f[last].value !in ResidentSet(g);
        assert ResidentSet(f) == ResidentSet(g) + {f[last].value};
      } else {
        assert ResidentSet(f) == ResidentSet(g);
      }
    }
  }

  lemma {:induction false} ResidentSetMembers(f: Frames, pg: Page)
    ensures pg in ResidentSet(f) <==> Resident(f, pg)
  {
    if Resident(f, pg) { assert f[FrameOf(f, pg)].Some?; }
  }

  // ---- duplicate-free page sequences ----------------------------------------

  ghost predicate NoDup<T>(q: seq<T>) {
    forall i, j :: 0 <= i < j < |q| ==> q[i] != q[j]
  }

  lemma {:induction false} NoDupSnoc<T>(q: seq<T>, x: T)
    requires NoDup(q) && x !in q
    ensures NoDup(q + [x])
  {
  }

  lemma {:induction false} NoDupCons<T>(x: T, q: seq<T>)
    requires NoDup([x] + q)
    ensures NoDup(q) && x !in q
  {
    assert forall i :: 0 <= i < |q| ==> ([x] + q)[i + 1] == q[i];
    assert ([x] + q)[0] == x;
  }

  /** `q` without the pages in `gone`, in the same order. */
  function Filter(q: seq<Page>, gone: set<Page>): (r: seq<Page>)
    ensures forall x :: x in r <==> x in q && x !in gone
    ensures NoDup(q) ==> NoDup(r)
    ensures |r| <= |q|
  {
    if q == [] then []
    else
      assert q == [q[0]] + q[1..];
      if q[0] in gone then Filter(q[1..], gone) else [q[0]] + Filter(q[1..], gone)
  }

  lemma {:induction false} FilterNothing(q: seq<Page>, gone: set<Page>)
    requires forall x :: x in q ==> x !in gone
    ensures Filter(q, gone) == q
  {
    if q != [] { FilterNothing(q[1..], gone); }
  }

  lemma {:induction false} FilterAppend(a: seq<Page>, b: seq<Page>, gone: set<Page>)
    ensures Filter(a + b, gone) == Filter(a, gone) + Filter(b, gone)
  {
    if a == [] {
      assert a + b == b;
    } else {
      assert (a + b)[1..] == a[1..] + b;
      FilterAppend(a[1..], b, gone);
    }
  }

  lemma {:induction false} FilterTwice(q: seq<Page>, a: set<Page>, b: set<Page>)
    ensures Filter(Filter(q, a), b) == Filter(q, a + b)
  {
    if q != [] { FilterTwice(q[1..], a, b); }
  }

  lemma {:induction false} NoDupCardinality(q: seq<Page>)
    requires NoDup(q)
    ensures |q| == |set x | x in q|
  {
    if q != [] {
      NoDupCardinality(q[1..]);
      assert (set x | x in q) == (set x | x in q[1..]) + {q[0]};
    }
  }

  /** Removing the one occurrence of `x` shortens the sequence by one. */
  lemma {:induction false} FilterOneLength(q: seq<Page>, x: Page)
    requires NoDup(q) && x in q
    ensures |Filter(q, {x})| == |q| - 1
  {
    NoDupCardinality(q);
    NoDupCardinality(Filter(q, {x}));
    assert (set y | y in q) == (set y | y in Filter(q, {x})) + {x};
  }
}
