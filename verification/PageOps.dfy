/** Memory and replacement module together: creating, loading, touching and freeing pages
    keeps frame array, bitmap, pages and eviction queue in agreement. */
module PageOps {
  import opened Types
  import opened Replacement
  import opened Memory
  import opened Replacer

  /** The two modules agree: same size, no shared arrays, and the queue flag of every page
      says whether the page is queued. */
  ghost predicate Agree(m: PhysicalMemory, r: ReplacementModule)
    reads m, m.memory, m.freelist, m.pages.Values, r, r.reflist
  {
    && m.Valid() && r.Valid() && r.capacity == m.memSize
    && r.reflist as object != m.memory as object && r.reflist as object != m.freelist as object
    && if r.kind == LRU || r.kind == FIFO then r.Flagged(m.pages.Values) else r.queue == []
  }

  lemma {:induction false} InMemoryIsResident(m: PhysicalMemory, v: VPage)
    requires m.Valid() && v.Id() in m.pages && m.pages[v.Id()] == v
    ensures v.inMemory <==> Resident(m.Frames(), v.Id())
    ensures v.inMemory ==> v.currentPPN < m.memSize && m.Frames()[v.currentPPN] == Some(v.Id())
    ensures v.inMemory ==> forall n :: 0 <= n < m.memSize && m.Frames()[n] == Some(v.Id()) ==> n == v.currentPPN
  {
    hide BitsAgree, Allocated;
    forall n | 0 <= n < m.memSize ensures m.Frames()[n] == Some(v.Id()) <==> v.inMemory && n == v.currentPPN {
      assert m.Frames()[n] == if m.memory[n] == null then None else Some(m.memory[n].Id());
    }
    if Resident(m.Frames(), v.Id()) { assert m.Frames()[FrameOf(m.Frames(), v.Id())] == Some(v.Id()); }
    if v.inMemory { assert m.Frames()[v.currentPPN] == Some(v.Id()); }
  }

  lemma {:induction false} FrameHolds(m: PhysicalMemory, n: nat)
    requires m.Valid() && n < m.memSize
    ensures |m.Frames()| == m.memSize
    ensures m.Frames()[n] == if m.memory[n] == null then None else Some(m.memory[n].Id())
    ensures !HasFree(m.Frames()) ==> m.memory[n] != null
  {
    hide BitsAgree;
  }

  /** A frame in use has a bit. */
  lemma {:induction false} HeldIsCovered(m: PhysicalMemory, n: nat)
    requires m.Valid() && n < m.memSize && m.memory[n] != null
    ensures n < Covered(m.memSize)
  {
  }

  /** Every queued page knows its frame. */
  lemma {:induction false} QueuedPlaces(m: PhysicalMemory, r: ReplacementModule)
    requires Agree(m, r) && MemOk(m.Frames(), r.Abs())
    ensures forall v :: v in r.queue ==> v.currentPPN < m.memSize && m.Frames()[v.currentPPN] == Some(v.Id())
  {
    forall v | v in r.queue ensures v.currentPPN < m.memSize && m.Frames()[v.currentPPN] == Some(v.Id()) {
      var i :| 0 <= i < |r.queue| && r.queue[i] == v;
      assert Ids(r.queue)[i] == v.Id();
      assert v in m.pages.Values;
      var pg :| pg in m.pages && m.pages[pg] == v;
      InMemoryIsResident(m, v);
    }
  }

  /** A page that is not in memory is not queued either. */
  lemma {:induction false} AbsentNotQueued(m: PhysicalMemory, r: ReplacementModule, v: VPage)
    requires Agree(m, r) && MemOk(m.Frames(), r.Abs()) && (r.kind == LRU || r.kind == FIFO)
    requires v.Id() in m.pages && m.pages[v.Id()] == v && !v.inMemory
    ensures !v.inQueue && v.Id() !in Ids(r.queue)
  {
    InMemoryIsResident(m, v);
    IdsMember(r.queue, v);
  }

  /** The page enters the empty frame `ppn`, and the replacement module is told. */
  method LoadInto(m: PhysicalMemory, r: ReplacementModule, v: VPage, ppn: nat)
    requires Agree(m, r) && ppn < Covered(m.memSize) && m.memory[ppn] == null
    requires v.Id() in m.pages && m.pages[v.Id()] == v && !v.inMemory
    requires r.kind == LRU || r.kind == FIFO ==> !v.inQueue && v.Id() !in Ids(r.queue)
    modifies m`numAllocated, m.memory, m.freelist, r`queue, r`pages, r.reflist, v
    ensures Agree(m, r)
    ensures m.Frames() == old(m.Frames())[ppn := Some(v.Id())]
    ensures r.Abs() == NotifyLoad(old(r.Abs()), v.Id(), ppn)
  {
    hide BitsAgree, FramesOf, Ids, NotifyLoad, Allocated;
    m.LoadPage(v, ppn);
    r.NotifyPageLoad(v);
  }

  /** The replacement module picks a victim; memory is as it was. */
  method PickVictim(m: PhysicalMemory, r: ReplacementModule) returns (ppn: nat)
    requires Agree(m, r) && MemOk(m.Frames(), r.Abs()) && !HasFree(m.Frames())
    modifies r, r.reflist, m.pages.Values
    ensures Agree(m, r) && ppn < m.memSize && m.memory[ppn] != null
    ensures (ppn, r.Abs()) == Victim(old(r.Abs()), m.Frames())
    ensures forall v :: v in m.pages.Values ==> v.inMemory == old(v.inMemory)
    ensures forall x :: x in r.queue ==> x in old(r.queue)
    ensures forall v :: v in m.pages.Values && !old(v.inQueue) ==> !v.inQueue
    ensures forall x :: x in Ids(r.queue) ==> x in old(Ids(r.queue))
  {
    hide BitsAgree, MemOk, HasFree, FramesOf, Ids, Victim, Allocated, NoDup;
    QueuedPlaces(m, r);
    FrameHolds(m, 0);
    if r.queue != [] { IdsTail(r.queue); }
    ppn := r.GetPageToEvict(m.Frames());
    FrameHolds(m, ppn);
  }

  /** The replacement module picks a victim and its frame is emptied. */
  method EvictVictim(m: PhysicalMemory, r: ReplacementModule) returns (ppn: nat)
    requires Agree(m, r) && MemOk(m.Frames(), r.Abs()) && !HasFree(m.Frames())
    modifies m`numAllocated, m.memory, m.freelist, r, r.reflist, m.pages.Values
    ensures Agree(m, r) && ppn < Covered(m.memSize) && m.memory[ppn] == null
    ensures (ppn, r.Abs()) == Victim(old(r.Abs()), old(m.Frames()))
    ensures m.Frames() == old(m.Frames())[ppn := None]
    ensures forall v :: v in m.pages.Values && !old(v.inMemory) ==> !v.inMemory
    ensures forall x :: x in r.queue ==> x in old(r.queue)
    ensures forall v :: v in m.pages.Values && !old(v.inQueue) ==> !v.inQueue
    ensures forall x :: x in Ids(r.queue) ==> x in old(Ids(r.queue))
  {
    hide BitsAgree, MemOk, HasFree, FramesOf, Ids, Victim, Allocated, NoDup;
    ppn := PickVictim(m, r);
    HeldIsCovered(m, ppn);
    m.EvictPage(ppn);
    FrameHolds(m, ppn);
  }

  lemma {:induction false} IdsTail(q: seq<VPage>)
    requires q != [] && NoDup(Ids(q))
    ensures forall x :: x in Ids(q[1..]) ==> x in Ids(q)
    ensures forall v :: v in q[1..] <==> v in q && v != q[0]
  {
    assert Ids(q[1..]) == Ids(q)[1..];
    forall i | 0 < i < |q| ensures q[i] != q[0] { assert Ids(q)[0] != Ids(q)[i]; }
  }

  /** The disk has delivered `v`: it goes into the lowest free frame, or over the victim
      when memory is full.  The program gives up if a frame is free but no bit says so. */
  method LoadFromDisk(m: PhysicalMemory, r: ReplacementModule, v: VPage) returns (ok: bool)
    requires Agree(m, r) && MemOk(m.Frames(), r.Abs())
    requires v.Id() in m.pages && m.pages[v.Id()] == v && !v.inMemory
    modifies m`numAllocated, m.memory, m.freelist, r, r.reflist, m.pages.Values
    ensures Agree(m, r)
    ensures ok <==> !OutOfBits(old(m.Frames()))
    ensures (m.Frames(), r.Abs()) ==
      if ok then LoadPage(old(m.Frames()), old(r.Abs()), v.Id()) else (old(m.Frames()), old(r.Abs()))
  {
    hide BitsAgree, MemOk, FirstFree, HasFree, FramesOf, Ids, NotifyLoad, Allocated, Victim, Agree, ScanFails;
    hide BitmapReaches;
    AgreeParts(m, r);
    if r.kind == LRU || r.kind == FIFO { AbsentNotQueued(m, r, v); }
    FrameHolds(m, 0);
    var free := m.HasFreePage();
    if free {
      var ppn := m.GetFreePage();
      if ppn == None { return false; }
      FrameHolds(m, ppn.value);
      LoadInto(m, r, v, ppn.value);
    } else {
      var ppn := EvictVictim(m, r);
      ghost var emptied := m.Frames();
      LoadInto(m, r, v, ppn);
      assert emptied[ppn := Some(v.Id())] == old(m.Frames())[ppn := Some(v.Id())];
    }
    ok := true;
  }

  lemma {:induction false} AgreeParts(m: PhysicalMemory, r: ReplacementModule)
    requires Agree(m, r)
    ensures m.Valid() && r.Valid() && m.memSize > 0
    ensures forall pg :: pg in m.pages ==> m.pages[pg].Id() == pg
  {
  }

  lemma {:induction false} ValuesAdd(pages: map<Page, VPage>, pg: Page, v: VPage)
    requires pg !in pages
    ensures forall x :: x in pages[pg := v].Values <==> x == v || x in pages.Values
  {
    var after := pages[pg := v];
    assert after[pg] == v;
    forall x | x in pages.Values ensures x in after.Values {
      var k :| k in pages && pages[k] == x;
      assert after[k] == x;
    }
  }

  lemma {:induction false} ValuesRemove(pages: map<Page, VPage>, pg: Page)
    requires pg in pages && forall k :: k in pages ==> pages[k].Id() == k
    ensures forall x :: x in (pages - {pg}).Values <==> x in pages.Values && x != pages[pg]
  {
    var after := pages - {pg};
    forall x | x in pages.Values && x != pages[pg] ensures x in after.Values {
      var k :| k in pages && pages[k] == x;
      assert k in after && after[k] == x;
    }
  }

  /** A page gets its record the first time it is referred to. */
  method NewPage(m: PhysicalMemory, r: ReplacementModule, pid: nat, vpn: nat) returns (v: VPage)
    requires Agree(m, r) && Page(pid, vpn) !in m.pages
    modifies m`pages
    ensures Agree(m, r) && fresh(v) && v.Id() == Page(pid, vpn) && !v.inMemory
    ensures m.pages == old(m.pages)[Page(pid, vpn) := v]
  {
    hide BitsAgree, FramesOf, Ids, Allocated, NoDup;
    v := new VPage(pid, vpn);
    ValuesAdd(m.pages, Page(pid, vpn), v);
    m.pages := m.pages[Page(pid, vpn) := v];
  }

  /** A reference to a resident page. */
  method TouchPage(m: PhysicalMemory, r: ReplacementModule, v: VPage)
    requires Agree(m, r) && MemOk(m.Frames(), r.Abs())
    requires v.Id() in m.pages && m.pages[v.Id()] == v && v.inMemory
    modifies r`queue, r.reflist
    ensures Agree(m, r)
    ensures Resident(m.Frames(), v.Id())
    ensures r.Abs() == NotifyAccess(old(r.Abs()), v.Id(), FrameOf(m.Frames(), v.Id()))
  {
    hide BitsAgree, FramesOf, Allocated, NotifyAccess;
    InMemoryIsResident(m, v);
    if r.kind == LRU { PresentQueued(m, r, v); }
    r.NotifyPageAccess(v);
  }

  lemma {:induction false} PresentQueued(m: PhysicalMemory, r: ReplacementModule, v: VPage)
    requires Agree(m, r) && MemOk(m.Frames(), r.Abs()) && (r.kind == LRU || r.kind == FIFO)
    requires v.Id() in m.pages && m.pages[v.Id()] == v && v.inMemory
    ensures v in r.queue
  {
    InMemoryIsResident(m, v);
    assert v.Id() in Ids(r.queue);
    QueuedById(m, r, v);
  }

  /** A queued page with this page's identity is this page. */
  lemma {:induction false} QueuedById(m: PhysicalMemory, r: ReplacementModule, v: VPage)
    requires Agree(m, r) && (r.kind == LRU || r.kind == FIFO)
    requires v.Id() in m.pages && m.pages[v.Id()] == v
    ensures v.Id() in Ids(r.queue) ==> v in r.queue
  {
    if v.Id() in Ids(r.queue) {
      var i :| 0 <= i < |Ids(r.queue)| && Ids(r.queue)[i] == v.Id();
      var x := r.queue[i];
      assert x in m.pages.Values;
      var pg :| pg in m.pages && m.pages[pg] == x;
    }
  }

  /** Frees a page of a process that is ending: out of memory, out of the queue. */
  method FreePage(m: PhysicalMemory, r: ReplacementModule, v: VPage)
    requires Agree(m, r) && v.Id() in m.pages && m.pages[v.Id()] == v
    modifies m`numAllocated, m`pages, m.memory, m.freelist, r`queue, r`pages, v
    ensures Agree(m, r) && m.pages == old(m.pages) - {v.Id()}
    ensures m.Frames() == Clear(old(m.Frames()), {v.Id()})
    ensures r.Abs() == Forget(old(r.Abs()), {v.Id()})
  {
    hide BitsAgree, FramesOf, Allocated, Ids, NoDup, Agree, Clear, Forget;
    EvictIfResident(m, r, v);
    DropPage(m, r, v);
  }

  method EvictIfResident(m: PhysicalMemory, r: ReplacementModule, v: VPage)
    requires Agree(m, r) && v.Id() in m.pages && m.pages[v.Id()] == v
    modifies m`numAllocated, m.memory, m.freelist, v
    ensures Agree(m, r) && !v.inMemory && r.Abs() == old(r.Abs())
    ensures m.Frames() == Clear(old(m.Frames()), {v.Id()})
  {
    hide BitsAgree, FramesOf, Allocated, Ids, NoDup;
    InMemoryIsResident(m, v);
    ClearOne(m.Frames(), v.Id(), v.currentPPN);
    FrameHolds(m, 0);
    if v.inMemory {
      FrameHolds(m, v.currentPPN);
      m.EvictPage(v.currentPPN);
    }
  }

  method DropPage(m: PhysicalMemory, r: ReplacementModule, v: VPage)
    requires Agree(m, r) && v.Id() in m.pages && m.pages[v.Id()] == v && !v.inMemory
    modifies m`pages, r`queue, r`pages
    ensures Agree(m, r) && m.pages == old(m.pages) - {v.Id()}
    ensures r.Abs() == Forget(old(r.Abs()), {v.Id()})
  {
    hide BitsAgree, FramesOf, Allocated, Ids, NoDup, Forget, EmptyFrames, Filter;
    if r.kind == LRU || r.kind == FIFO { QueuedById(m, r, v); }
    AgreeParts(m, r);
    ValuesRemove(m.pages, v.Id());
    r.FreeOverhead(v);
    m.Discard(v);
  }

  lemma {:induction false} ClearOne(f: Frames, pg: Page, n: nat)
    ensures !Resident(f, pg) ==> Clear(f, {pg}) == f
    ensures n < |f| && f[n] == Some(pg) && (forall i :: 0 <= i < |f| && f[i] == Some(pg) ==> i == n) ==>
      Clear(f, {pg}) == f[n := None]
  {
    if !Resident(f, pg) {
      forall i | 0 <= i < |f| ensures Clear(f, {pg})[i] == f[i] { assert f[i] in f; }
    }
  }

  /** The pages with these numbers of one process. */
  function PagesWith(pid: nat, vpns: set<nat>): set<Page> {
    set v | v in vpns :: Page(pid, v)
  }

  lemma {:induction false} OnePageMore(f: Frames, p: Policy, pid: nat, done: set<nat>, vpn: nat)
    ensures PagesWith(pid, done + {vpn}) == PagesWith(pid, done) + {Page(pid, vpn)}
    ensures Clear(Clear(f, PagesWith(pid, done)), {Page(pid, vpn)}) == Clear(f, PagesWith(pid, done + {vpn}))
    ensures Forget(Forget(p, PagesWith(pid, done)), {Page(pid, vpn)}) == Forget(p, PagesWith(pid, done + {vpn}))
  {
    assert PagesWith(pid, done + {vpn}) == PagesWith(pid, done) + {Page(pid, vpn)};
    if p.Queued() { FilterTwice(p.queue, PagesWith(pid, done), {Page(pid, vpn)}); }
  }

  lemma {:induction false} NoPages(f: Frames, p: Policy, pid: nat)
    ensures PagesWith(pid, {}) == {} && Clear(f, PagesWith(pid, {})) == f && Forget(p, PagesWith(pid, {})) == p
  {
    if p.Queued() { FilterNothing(p.queue, {}); }
  }

  lemma {:induction false} MapMinus(pages: map<Page, VPage>, a: set<Page>, b: set<Page>)
    ensures (pages - a) - b == pages - (a + b)
  {
  }

  /** Frees every page of a page table, in whatever order the table is walked. */
  method FreeAll(m: PhysicalMemory, r: ReplacementModule, pid: nat, table: set<nat>)
    requires Agree(m, r) && forall v :: v in table ==> Page(pid, v) in m.pages
    modifies m`numAllocated, m`pages, m.memory, m.freelist, r`queue, r`pages, m.pages.Values
    ensures Agree(m, r) && m.pages == old(m.pages) - PagesWith(pid, table)
    ensures m.Frames() == Clear(old(m.Frames()), PagesWith(pid, table))
    ensures r.Abs() == Forget(old(r.Abs()), PagesWith(pid, table))
  {
    hide Agree, Clear, Forget, PagesWith, FramesOf, Ids, Allocated;
    var done := {};
    NoPages(m.Frames(), r.Abs(), pid);
    assert old(m.pages) - {} == old(m.pages);
    while table - done != {}
      invariant done <= table && Agree(m, r)
      invariant m.pages == old(m.pages) - PagesWith(pid, done)
      invariant m.Frames() == Clear(old(m.Frames()), PagesWith(pid, done))
      invariant r.Abs() == Forget(old(r.Abs()), PagesWith(pid, done))
      decreases table - done
    {
      var vpn :| vpn in table - done;
      StillKnown(old(m.pages), pid, done, vpn);
      AgreeParts(m, r);
      FreePage(m, r, m.pages[Page(pid, vpn)]);
      OnePageMore(old(m.Frames()), old(r.Abs()), pid, done, vpn);
      MapMinus(old(m.pages), PagesWith(pid, done), {Page(pid, vpn)});
      done := done + {vpn};
    }
    NothingLeft(table, done);
  }

  lemma {:induction false} NothingLeft(table: set<nat>, done: set<nat>)
    requires done <= table && table - done == {}
    ensures done == table
  {
    forall v | v in table ensures v in done { assert v !in table - done; }
  }

  lemma {:induction false} StillKnown(pages: map<Page, VPage>, pid: nat, done: set<nat>, vpn: nat)
    requires Page(pid, vpn) in pages && vpn !in done
    ensures Page(pid, vpn) in pages - PagesWith(pid, done)
  {
  }
}
