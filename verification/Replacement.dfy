/** The four replacement policies as functions on values, and what a disk load does
    to the frames and to the policy.  The classes in Memory.dfy and Replacer.dfy are
    proved against these functions. */
module Replacement {
  import opened Types

  /** The bookkeeping of the replacement module linked into the simulator.
      Queues hold the oldest page first.  `Random` carries the stream of numbers
      returned by the C library's generator, and how many have been drawn. */
  datatype Policy =
    | Lru(queue: seq<Page>)
    | Fifo(queue: seq<Page>)
    | Clock(hand: nat, refs: seq<bool>)
    | Random(rand: nat -> nat, draws: nat)
  {
    predicate Queued() { Lru? || Fifo? }
  }

  /** The policy describes exactly the resident pages of `f`. */
  ghost predicate MemOk(f: Frames, p: Policy) {
    && |f| > 0
    && NoSharing(f)
    && match p {
         case Lru(q) => NoDup(q) && forall x :: x in q <==> Resident(f, x)
         case Fifo(q) => NoDup(q) && forall x :: x in q <==> Resident(f, x)
         case Clock(h, r) => |r| == |f| && h < |r| && (f[h].Some? ==> r[h])
         case Random(_, _) => true
       }
  }

  /** The queue is as long as the number of occupied frames. */
  lemma {:induction false} QueueLength(f: Frames, p: Policy)
    requires MemOk(f, p) && p.Queued()
    ensures |p.queue| == Allocated(f)
  {
    NoDupCardinality(p.queue);
    AllocatedIsCardinality(f);
    forall x ensures x in p.queue <==> x in ResidentSet(f) { ResidentSetMembers(f, x); }
    assert (set x | x in p.queue) == ResidentSet(f);
  }

  // ---- the clock sweep ------------------------------------------------------

  /** The frame `d` places after `h` in cyclic order over `n` frames. */
  function Ahead(h: nat, d: nat, n: nat): (r: nat)
    requires h < n && d <= n
    ensures r < n
  {
    if h + d < n then h + d else h + d - n
  }

  /** How many places frame `i` is after `h`. */
  function Behind(h: nat, i: nat, n: nat): (d: nat)
    requires h < n && i < n
    ensures d < n && Ahead(h, d, n) == i
  {
    if h <= i then i - h else i + n - h
  }

  /** Distance from the hand to the first clear bit, or a full lap if there is none. */
  function SweepDistance(refs: seq<bool>, h: nat, d: nat): (r: nat)
    requires h < |refs| && d <= |refs|
    requires forall i :: 0 <= i < d ==> refs[Ahead(h, i, |refs|)]
    ensures d <= r <= |refs|
    ensures forall i :: 0 <= i < r ==> refs[Ahead(h, i, |refs|)]
    ensures r < |refs| ==> !refs[Ahead(h, r, |refs|)]
    decreases |refs| - d
  {
    if d == |refs| || !refs[Ahead(h, d, |refs|)] then d else SweepDistance(refs, h, d + 1)
  }

  /** The bits after the hand has passed `d` frames: exactly those are cleared. */
  function Swept(refs: seq<bool>, h: nat, d: nat): (r: seq<bool>)
    requires h < |refs|
    ensures |r| == |refs|
    ensures forall i :: 0 <= i < |refs| ==> r[i] == (refs[i] && d <= Behind(h, i, |refs|))
  {
    seq(|refs|, i requires 0 <= i < |refs| => refs[i] && d <= Behind(h, i, |refs|))
  }

  lemma {:induction false} DistanceIs(refs: seq<bool>, h: nat, d: nat)
    requires h < |refs| && d <= |refs| && (forall i :: 0 <= i < d ==> refs[Ahead(h, i, |refs|)])
    requires d == |refs| || !refs[Ahead(h, d, |refs|)]
    ensures SweepDistance(refs, h, 0) == d
  {
    var e := SweepDistance(refs, h, 0);
    assert forall i :: 0 <= i < d ==> refs[Ahead(h, i, |refs|)];
  }

  /** When the bit under the hand is set, the frame under the hand is the victim only
      if every bit is set; otherwise the victim is the first frame after the hand
      whose bit is clear. */
  lemma {:induction false} ClockSparesHand(refs: seq<bool>, h: nat)
    requires h < |refs| && refs[h]
    ensures var v := Ahead(h, SweepDistance(refs, h, 0), |refs|);
      && (v == h <==> forall i :: 0 <= i < |refs| ==> refs[i])
      && (v != h ==> !refs[v] && forall i :: 0 <= i < |refs| && Behind(h, i, |refs|) < Behind(h, v, |refs|) ==> refs[i])
  {
    var n := |refs|;
    var d := SweepDistance(refs, h, 0);
    assert Ahead(h, 0, n) == h;
    forall i | 0 <= i < n && Behind(h, i, n) < d ensures refs[i] {
      assert refs[Ahead(h, Behind(h, i, n), n)];
    }
  }

  // ---- the interface of the replacement module ------------------------------

  function NotifyAccess(p: Policy, pg: Page, ppn: nat): Policy {
    match p
    case Lru(q) => Lru(Filter(q, {pg}) + [pg])
    case Fifo(q) => p
    case Clock(h, r) => if ppn < |r| then Clock(h, r[ppn := true]) else p
    case Random(_, _) => p
  }

  function NotifyLoad(p: Policy, pg: Page, ppn: nat): Policy {
    match p
    case Lru(q) => Lru(q + [pg])
    case Fifo(q) => Fifo(q + [pg])
    case Clock(_, _) => NotifyAccess(p, pg, ppn)
    case Random(_, _) => p
  }

  /** The frame to evict from full memory, and the policy after giving it up. */
  function Victim(p: Policy, f: Frames): (r: (nat, Policy))
    requires MemOk(f, p) && !HasFree(f)
    ensures r.0 < |f|
  {
    match p
    case Lru(q) => QueueLength(f, p); (FrameOf(f, q[0]), Lru(q[1..]))
    case Fifo(q) => QueueLength(f, p); (FrameOf(f, q[0]), Fifo(q[1..]))
    case Clock(h, r) =>
      var d := SweepDistance(r, h, 0);
      (Ahead(h, d, |r|), Clock(Ahead(h, d, |r|), Swept(r, h, d)))
    case Random(rand, n) => (rand(n) % |f|, Random(rand, n + 1))
  }

  /** Freeing the overhead of the pages in `gone`. */
  function Forget(p: Policy, gone: set<Page>): Policy {
    match p
    case Lru(q) => Lru(Filter(q, gone))
    case Fifo(q) => Fifo(Filter(q, gone))
    case Clock(_, _) => p
    case Random(_, _) => p
  }

  /** A disk load: into the lowest free frame, or over a victim when memory is full. */
  function LoadPage(f: Frames, p: Policy, pg: Page): (r: (Frames, Policy))
    requires MemOk(f, p)
  {
    if HasFree(f) then
      var n := FirstFree(f);
      (f[n := Some(pg)], NotifyLoad(p, pg, n))
    else
      var (n, q) := Victim(p, f);
      (f[n := Some(pg)], NotifyLoad(q, pg, n))
  }

  /** Where `LoadPage` puts the page. */
  function LoadFrame(f: Frames, p: Policy): (n: nat)
    requires MemOk(f, p)
    ensures n < |f|
  {
    if HasFree(f) then FirstFree(f) else Victim(p, f).0
  }

  // ---- agreement is kept ----------------------------------------------------

  lemma {:induction false} AccessKeepsMemOk(f: Frames, p: Policy, pg: Page)
    requires MemOk(f, p) && Resident(f, pg)
    ensures MemOk(f, NotifyAccess(p, pg, FrameOf(f, pg)))
  {
  }

  /** What a load does to the frames: the page comes in, the page of the frame it lands in goes. */
  lemma {:induction false} LoadChangesOneFrame(f: Frames, p: Policy, pg: Page)
    requires MemOk(f, p) && !Resident(f, pg)
    ensures var g := LoadPage(f, p, pg).0;
      && |g| == |f| && NoSharing(g) && Resident(g, pg)
      && Allocated(g) == (if HasFree(f) then Allocated(f) + 1 else |f|)
      && forall x :: Resident(g, x) <==> x == pg || (Resident(f, x) && f[LoadFrame(f, p)] != Some(x))
  {
    var n := LoadFrame(f, p);
    AllocatedUpdate(f, n, Some(pg));
    forall x ensures Resident(f[n := Some(pg)], x) <==> x == pg || (Resident(f, x) && f[n] != Some(x)) {
      ResidentUpdate(f, n, pg, x);
    }
    ResidentUpdate(f, n, pg, pg);
  }

  /** With memory full there is a page to evict. */
  lemma {:induction false} SomeVictim(f: Frames, p: Policy)
    requires MemOk(f, p) && p.Queued() && !HasFree(f)
    ensures p.queue != []
  {
    QueueLength(f, p);
  }

  lemma {:induction false} LoadKeepsQueue(f: Frames, p: Policy, pg: Page)
    requires MemOk(f, p) && !Resident(f, pg) && p.Queued()
    ensures var (g, q) := LoadPage(f, p, pg);
      q.Queued() && NoDup(q.queue) && forall x :: x in q.queue <==> Resident(g, x)
  {
    hide NoDup, NoSharing, Allocated, HasFree, SweepDistance, Swept;
    LoadChangesOneFrame(f, p, pg);
    if HasFree(f) {
      NoDupSnoc(p.queue, pg);
    } else {
      SomeVictim(f, p);
      assert p.queue == [p.queue[0]] + p.queue[1..];
      NoDupCons(p.queue[0], p.queue[1..]);
      NoDupSnoc(p.queue[1..], pg);
    }
  }

  /** Loading a page that is not resident keeps policy and frames in agreement. */
  lemma {:induction false} LoadKeepsMemOk(f: Frames, p: Policy, pg: Page)
    requires MemOk(f, p) && !Resident(f, pg)
    ensures var (g, q) := LoadPage(f, p, pg);
      && |g| == |f| && MemOk(g, q) && Resident(g, pg)
      && Allocated(g) == (if HasFree(f) then Allocated(f) + 1 else |f|)
      && forall x :: Resident(g, x) <==> x == pg || (Resident(f, x) && f[LoadFrame(f, p)] != Some(x))
  {
    LoadChangesOneFrame(f, p, pg);
    if p.Queued() { LoadKeepsQueue(f, p, pg); }
  }

  lemma {:induction false} ForgetKeepsMemOk(f: Frames, p: Policy, gone: set<Page>)
    requires MemOk(f, p)
    ensures MemOk(Clear(f, gone), Forget(p, gone))
  {
    forall x ensures Resident(Clear(f, gone), x) <==> Resident(f, x) && x !in gone {
      ResidentClear(f, gone, x);
    }
  }
}
