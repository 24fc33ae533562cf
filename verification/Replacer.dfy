/** The replacement modules: one set of bookkeeping, updated in place.  The program links
    exactly one of four implementations of the same interface; `kind` says which. */
module Replacer {
  import opened Types
  import opened Replacement
  import opened Memory

  datatype Kind = LRU | FIFO | CLOCK | RANDOM

  function Ids(q: seq<VPage>): seq<Page> {
    seq(|q|, i requires 0 <= i < |q| => q[i].Id())
  }

  /** Unlinking one element of a tail queue. */
  function Unlink(q: seq<VPage>, v: VPage): (r: seq<VPage>)
    ensures forall x :: x in r ==> x in q
  {
    if q == [] then [] else if q[0] == v then q[1..] else [q[0]] + Unlink(q[1..], v)
  }

  lemma {:induction false} UnlinkIsFilter(q: seq<VPage>, v: VPage)
    requires NoDup(Ids(q)) && v in q
    ensures Ids(Unlink(q, v)) == Filter(Ids(q), {v.Id()})
    ensures |Unlink(q, v)| == |q| - 1
    ensures forall x :: x in Unlink(q, v) <==> x in q && x != v
  {
    hide NoDup, Ids;
    HeadOfIds(q);
    if q[0] == v {
      FilterNothing(Ids(q[1..]), {v.Id()});
    } else {
      UnlinkIsFilter(q[1..], v);
      IdsCons(q[0], Unlink(q[1..], v));
    }
  }

  lemma {:induction false} IdsCons(x: VPage, q: seq<VPage>)
    ensures Ids([x] + q) == [x.Id()] + Ids(q)
  {
  }

  /** The head's identity is its own, and nobody else's in the queue. */
  lemma {:induction false} HeadOfIds(q: seq<VPage>)
    requires q != [] && NoDup(Ids(q))
    ensures Ids(q)[1..] == Ids(q[1..]) && NoDup(Ids(q[1..])) && Ids(q) == [q[0].Id()] + Ids(q[1..])
    ensures q[0].Id() !in Ids(q[1..]) && q[0] !in q[1..]
    ensures forall x :: x in q[1..] ==> x.Id() in Ids(q[1..])
    ensures forall x :: x in q <==> x == q[0] || x in q[1..]
  {
    hide NoDup;
    var t := q[1..];
    assert q == [q[0]] + t && Ids(q)[1..] == Ids(t);
    assert Ids(q) == [q[0].Id()] + Ids(t);
    NoDupCons(q[0].Id(), Ids(t));
    forall x | x in t ensures x.Id() in Ids(t) {
      var i :| 0 <= i < |t| && t[i] == x;
      assert Ids(t)[i] == x.Id();
    }
  }

  class ReplacementModule {
    const kind: Kind
    const capacity: nat
    var queue: seq<VPage>  // LRU and FIFO: oldest first
    var pages: int         // LRU and FIFO: length of the queue
    var clockHand: nat
    const reflist: array<bool>
    const rand: nat -> nat
    var draws: nat

    ghost function Abs(): Policy
      reads this, reflist
    {
      match kind
      case LRU => Lru(Ids(queue))
      case FIFO => Fifo(Ids(queue))
      case CLOCK => Clock(clockHand, reflist[..])
      case RANDOM => Random(rand, draws)
    }

    ghost predicate Valid()
      reads this, reflist
    {
      && capacity > 0 && reflist.Length == capacity && clockHand < capacity
      && pages == |queue| && NoDup(Ids(queue))
    }

    /** The flags of the pages in `universe` say which of them are queued. */
    ghost predicate Flagged(universe: set<VPage>)
      reads this, universe
    {
      && (forall v :: v in queue ==> v in universe)
      && forall v :: v in universe ==> (v.inQueue <==> v in queue)
    }

    constructor (kind: Kind, numberOfPhysicalPages: nat, rand: nat -> nat)
      requires numberOfPhysicalPages > 0
      ensures Valid() && fresh(reflist) && this.kind == kind && capacity == numberOfPhysicalPages
      ensures queue == []
      ensures match kind
              case LRU => Abs() == Lru([])
              case FIFO => Abs() == Fifo([])
              case CLOCK => Abs().Clock? && Abs().hand == 0 && |Abs().refs| == numberOfPhysicalPages
              case RANDOM => Abs() == Random(rand, 0)
    {
      this.kind, capacity, this.rand := kind, numberOfPhysicalPages, rand;
      queue, pages, clockHand, draws := [], 0, 0, 0;
      reflist := new bool[numberOfPhysicalPages];
    }

    method NotifyPageAccess(v: VPage)
      requires Valid()
      requires kind == LRU ==> v in queue
      requires kind == CLOCK ==> v.currentPPN < capacity
      modifies this`queue, reflist
      ensures Valid() && Abs() == NotifyAccess(old(Abs()), v.Id(), v.currentPPN)
      ensures forall x :: x in queue <==> x in old(queue)
      ensures kind != LRU ==> queue == old(queue)
    {
      if kind == LRU {
        UnlinkIsFilter(queue, v);
        assert Ids(Unlink(queue, v) + [v]) == Filter(Ids(queue), {v.Id()}) + [v.Id()];
        queue := Unlink(queue, v) + [v];
      } else if kind == CLOCK {
        reflist[v.currentPPN] := true;
      }
    }

    method NotifyPageLoad(v: VPage)
      requires Valid()
      requires kind == LRU || kind == FIFO ==> !v.inQueue && v.Id() !in Ids(queue)
      requires kind == CLOCK ==> v.currentPPN < capacity
      modifies this`queue, this`pages, reflist, v`inQueue
      ensures Valid() && Abs() == NotifyLoad(old(Abs()), v.Id(), v.currentPPN)
      ensures if kind == LRU || kind == FIFO then queue == old(queue) + [v] && v.inQueue
              else queue == old(queue) && v.inQueue == old(v.inQueue)
    {
      if kind == LRU || kind == FIFO {
        v.inQueue := true;
        assert Ids(queue + [v]) == Ids(queue) + [v.Id()];
        queue := queue + [v];
        pages := pages + 1;
      } else if kind == CLOCK {
        NotifyPageAccess(v);
      }
    }

    /** Clears reference bits until it finds a frame whose bit is clear. */
    method Sweep()
      requires Valid()
      modifies this`clockHand, reflist
      ensures Valid()
      ensures var r := old(reflist[..]); var d := SweepDistance(r, old(clockHand), 0);
        clockHand == Ahead(old(clockHand), d, |r|) && reflist[..] == Swept(r, old(clockHand), d)
    {
      ghost var r, h, d := reflist[..], clockHand, 0;
      while reflist[clockHand]
        invariant Valid() && d <= capacity
        invariant clockHand == Ahead(h, d, capacity)
        invariant reflist[..] == Swept(r, h, d)
        invariant forall i :: 0 <= i < d ==> r[Ahead(h, i, capacity)]
        decreases capacity - d
      {
        SweptOne(r, h, d);
        reflist[clockHand] := false;
        clockHand := (clockHand + 1) % capacity;
        d := d + 1;
      }
      SweepStops(r, h, d);
    }

    /** The frame to evict.  The queue policies drop their head; Clock sweeps; Random draws. */
    method GetPageToEvict(ghost f: Frames) returns (ppn: nat)
      requires Valid() && MemOk(f, Abs()) && !HasFree(f) && |f| == capacity
      requires forall v :: v in queue ==> v.currentPPN < |f| && f[v.currentPPN] == Some(v.Id())
      requires kind == LRU || kind == FIFO || queue == []
      modifies this, reflist, if queue == [] then {} else {queue[0]}
      ensures Valid() && (ppn, Abs()) == Victim(old(Abs()), f)
      ensures if kind == LRU || kind == FIFO
              then old(queue) != [] && queue == old(queue)[1..] && !old(queue[0]).inQueue
                   && old(queue[0]).inMemory == old(queue[0].inMemory)
                       && old(queue[0]).currentPPN == old(queue[0].currentPPN)
              else queue == old(queue)
    {
      match kind
      case CLOCK =>
        Sweep();
        ppn := clockHand;
      case RANDOM =>
        ppn := rand(draws) % capacity;
        draws := draws + 1;
      case _ =>
        QueueLength(f, Abs());
        var n1 := queue[0];
        assert Ids(queue)[0] == n1.Id();
        FrameIsUnique(f, n1.currentPPN, n1.Id());
        assert Ids(queue[1..]) == Ids(queue)[1..];
        queue := queue[1..];
        n1.inQueue := false;
        pages := pages - 1;
        ppn := n1.currentPPN;
    }

    /** Frees the overhead of a page, unlinking it if it is queued. */
    method FreeOverhead(v: VPage)
      requires Valid()
      requires kind == LRU || kind == FIFO ==> (v.inQueue <==> v in queue) && (v.Id() in Ids(queue) ==> v in queue)
      modifies this`queue, this`pages
      ensures Valid() && Abs() == Forget(old(Abs()), {v.Id()})
      ensures kind == LRU || kind == FIFO ==> forall x :: x in queue <==> x in old(queue) && x != v
      ensures kind == CLOCK || kind == RANDOM ==> queue == old(queue)
    {
      if kind == LRU || kind == FIFO {
        if v.inQueue {
          UnlinkIsFilter(queue, v);
          queue := Unlink(queue, v);
          pages := pages - 1;
        } else {
          IdsMember(queue, v);
          FilterNothing(Ids(queue), {v.Id()});
        }
      }
    }
  }

  lemma {:induction false} IdsMember(q: seq<VPage>, v: VPage)
    requires v.Id() !in Ids(q)
    ensures v !in q
  {
    forall i | 0 <= i < |q| ensures q[i] != v { assert Ids(q)[i] in Ids(q); }
  }

  lemma {:induction false} FrameIsUnique(f: Frames, n: nat, pg: Page)
    requires n < |f| && NoSharing(f) && f[n] == Some(pg)
    ensures Resident(f, pg) && FrameOf(f, pg) == n
  {
  }

  /** Clearing the bit under the hand extends the swept stretch by one frame. */
  lemma {:induction false} SweptOne(r: seq<bool>, h: nat, d: nat)
    requires h < |r| && d <= |r| && Swept(r, h, d)[Ahead(h, d, |r|)]
    ensures d < |r| && r[Ahead(h, d, |r|)]
    ensures Swept(r, h, d)[Ahead(h, d, |r|) := false] == Swept(r, h, d + 1)
    ensures (Ahead(h, d, |r|) + 1) % |r| == Ahead(h, d + 1, |r|)
  {
    SweptMore(r, h, d);
    NextAhead(h, d, |r|);
  }

  lemma {:induction false} NextAhead(h: nat, d: nat, n: nat)
    requires h < n && d < n
    ensures (Ahead(h, d, n) + 1) % n == Ahead(h, d + 1, n)
  {
    var a := Ahead(h, d, n) + 1;
    if a == n { assert a % n == 0; } else { assert a % n == a; }
  }

  lemma {:induction false} SweptMore(r: seq<bool>, h: nat, d: nat)
    requires h < |r| && d <= |r| && Swept(r, h, d)[Ahead(h, d, |r|)]
    ensures d < |r| && r[Ahead(h, d, |r|)]
    ensures Swept(r, h, d)[Ahead(h, d, |r|) := false] == Swept(r, h, d + 1)
  {
    var a, b := Swept(r, h, d)[Ahead(h, d, |r|) := false], Swept(r, h, d + 1);
    forall i | 0 <= i < |r| ensures a[i] == b[i] {
      assert i == Ahead(h, d, |r|) <==> Behind(h, i, |r|) == d;
    }
  }

  lemma {:induction false} SweepStops(r: seq<bool>, h: nat, d: nat)
    requires h < |r| && d <= |r| && !Swept(r, h, d)[Ahead(h, d, |r|)]
    requires forall i :: 0 <= i < d ==> r[Ahead(h, i, |r|)]
    ensures SweepDistance(r, h, 0) == d
  {
    assert forall e :: 0 <= e < d ==> r[Ahead(h, e, |r|)];
  }
}
