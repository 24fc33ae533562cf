/** Physical memory: the frame array, the bitmap of frames in use and the count of them,
    kept in agreement with the pages' own notion of where they are. */
module Memory {
  import opened Types
  import opened Bitmap

  /** A virtual page.  `inQueue` is the flag in the replacement module's overhead for it. */
  class VPage {
    const pid: nat
    const vpn: nat
    var inMemory: bool
    var currentPPN: nat
    var inQueue: bool

    constructor (pid: nat, vpn: nat)
      ensures this.pid == pid && this.vpn == vpn && !inMemory && !inQueue
    {
      this.pid, this.vpn := pid, vpn;
      inMemory, inQueue := false, false;
    }

    function Id(): Page { Page(pid, vpn) }
  }

  function FramesOf(memory: seq<VPage?>): Frames {
    seq(|memory|, i requires 0 <= i < |memory| => if memory[i] == null then None else Some(memory[i].Id()))
  }

  /** The free list has a word for every 32 frames: the frames of a last, incomplete group
      have no bit and are never used. */
  function Covered(size: nat): (n: nat)
    ensures n <= size && (n == size <==> size % 32 == 0)
  {
    32 * (size / 32)
  }

  /** The bit of a frame is set exactly when the frame holds a page. */
  ghost predicate BitsAgree(memory: seq<VPage?>, words: seq<bv32>) {
    && |memory| > 0 && |words| == |memory| / 32
    && (forall i :: 0 <= i < Covered(|memory|) ==> (IsSet(words[WordOf(i)], OffsetOf(i)) <==> memory[i] != null))
    && (forall i :: Covered(|memory|) <= i < |memory| ==> memory[i] == null)
  }

  lemma {:induction false} WordHolds(memory: seq<VPage?>, words: seq<bv32>, word: nat)
    requires BitsAgree(memory, words) && word < |words|
    ensures 32 * (word + 1) <= Covered(|memory|)
    ensures forall j :: 0 <= j < 32 ==> (IsSet(words[word], j) <==> memory[FrameAt(word, j)] != null)
  {
    hide IsSet;
    forall j | 0 <= j < 32 ensures IsSet(words[word], j) <==> memory[FrameAt(word, j)] != null {
      assert FrameAt(word, j) < Covered(|memory|);
    }
  }

  lemma {:induction false} LoadAgrees(memory: seq<VPage?>, words: seq<bv32>, n: nat, v: VPage)
    requires BitsAgree(memory, words) && n < Covered(|memory|)
    ensures WordOf(n) < |words|
    ensures BitsAgree(memory[n := v], words[WordOf(n) := WithBit(words[WordOf(n)], OffsetOf(n))])
  {
    hide IsSet, WithBit;
    forall i | 0 <= i < Covered(|memory|) { SetFrame(words, n, i); }
  }

  lemma {:induction false} EvictAgrees(memory: seq<VPage?>, words: seq<bv32>, n: nat)
    requires BitsAgree(memory, words) && n < |memory| && memory[n] != null
    ensures WordOf(n) < |words| && IsSet(words[WordOf(n)], OffsetOf(n))
    ensures BitsAgree(memory[n := null], words[WordOf(n) := Flipped(words[WordOf(n)], OffsetOf(n))])
  {
    hide IsSet, Flipped;
    forall i | 0 <= i < Covered(|memory|) { FlipFrame(words, n, i); }
  }

  /** Frames without a bit are empty. */
  ghost predicate BitmapReaches(f: Frames) {
    forall i :: Covered(|f|) <= i < |f| ==> f[i] == None
  }

  /** Every frame with a bit is in use, so the scan for a free frame finds none. */
  ghost predicate ScanFails(f: Frames) {
    forall i :: 0 <= i < Covered(|f|) ==> f[i].Some?
  }

  /** A frame is free, but none that has a bit. */
  ghost predicate OutOfBits(f: Frames) { HasFree(f) && ScanFails(f) }

  lemma {:induction false} EnoughBits(f: Frames)
    requires |f| % 32 == 0
    ensures !OutOfBits(f)
  {
    hide Covered;
    assert Covered(|f|) == |f|;
  }

  /** The scan can be relied on to find a frame whenever the count of allocated frames says
      there is one. */
  ghost predicate ScanReliable(size: nat) {
    forall f: Frames :: |f| == size && BitmapReaches(f) && HasFree(f) ==> !ScanFails(f)
  }

  /** Exactly the multiples of 32 are safe memory sizes: with any other the program can find
      itself asking for a free frame that the scan cannot see, and gives up. */
  lemma {:induction false} AllocatorExactly(size: nat)
    ensures ScanReliable(size) <==> size % 32 == 0
  {
    if size % 32 != 0 {
      var f := seq(size, i requires 0 <= i => if i < Covered(size) then Some(Page(1, i)) else None);
      assert f[Covered(size)] == None;
      assert BitmapReaches(f) && HasFree(f) && ScanFails(f);
    }
  }

  class PhysicalMemory {
    const memSize: nat
    const memory: array<VPage?>
    const freelist: array<bv32>
    var numAllocated: nat
    var pages: map<Page, VPage>  // every page created and not yet freed: the page tables, together

    /** A page is in memory exactly when the frame it names holds it. */
    ghost predicate Placed()
      reads this, memory, pages.Values
    {
      && (forall pg :: pg in pages ==> pages[pg].Id() == pg)
      && (forall i :: 0 <= i < memory.Length && memory[i] != null ==>
            && memory[i].Id() in pages && pages[memory[i].Id()] == memory[i]
            && pages[memory[i].Id()].inMemory && pages[memory[i].Id()].currentPPN == i)
      && (forall pg :: pg in pages && pages[pg].inMemory ==>
            pages[pg].currentPPN < memory.Length && memory[pages[pg].currentPPN] == pages[pg])
    }

    ghost predicate Valid()
      reads this, memory, freelist, pages.Values
    {
      && memory as object != freelist as object
      && memory.Length == memSize && BitsAgree(memory[..], freelist[..]) && Placed()
      && numAllocated == Allocated(FramesOf(memory[..]))
    }

    ghost function Frames(): Frames
      reads memory
    {
      FramesOf(memory[..])
    }

    constructor (numberOfPhysicalPages: nat)
      requires numberOfPhysicalPages > 0
      ensures Valid() && fresh(memory) && fresh(freelist)
      ensures pages == map[] && memSize == numberOfPhysicalPages
      ensures Frames() == EmptyFrames(numberOfPhysicalPages)
    {
      hide BitsAgree, Allocated, EmptyFrames, FramesOf;
      memSize, numAllocated, pages := numberOfPhysicalPages, 0, map[];
      memory := new VPage?[numberOfPhysicalPages](_ => null);
      freelist := new bv32[numberOfPhysicalPages / 32](_ => 0);
      new;
      assert forall i :: 0 <= i < |memory[..]| ==> memory[..][i] == null;
      assert forall i :: 0 <= i < |freelist[..]| ==> freelist[..][i] == 0;
      NothingMapped(memory[..], freelist[..]);
    }

    method HasFreePage() returns (b: bool)
      requires Valid()
      ensures b == HasFree(Frames())
    {
      b := memSize > numAllocated;
    }

    method HowManyAllocPages() returns (n: nat)
      requires Valid()
      ensures n == Allocated(Frames())
    {
      n := numAllocated;
    }

    /** The lowest-numbered free frame, found word by word; `None` stands for the failure
        exit, taken when every frame that has a bit is in use. */
    method GetFreePage() returns (ppn: Option<nat>)
      requires Valid()
      ensures ppn == None <==> ScanFails(Frames())
      ensures ppn.Some? ==> HasFree(Frames()) && ppn.value == FirstFree(Frames()) < Covered(memSize)
      ensures BitmapReaches(Frames())
    {
      hide IsSet, Placed, FirstFree, BitsAgree;
      Sizes(memory[..], freelist[..]);
      var word := 0;
      while word < memSize / 32
        invariant word <= memSize / 32
        invariant forall i :: 0 <= i < 32 * word ==> memory[i] != null
      {
        var offset := FindFirstZero(freelist[word]);
        WordHolds(memory[..], freelist[..], word);
        forall i | 32 * word <= i < 32 * word + (if offset >= 0 then offset else 32) ensures memory[i] != null {
          assert FrameAt(word, i - 32 * word) == i;
        }
        if offset >= 0 {
          assert memory[FrameAt(word, offset)] == null;
          assert Frames()[word * 32 + offset] == None;
          FirstFreeIs(Frames(), word * 32 + offset);
          return Some(word * 32 + offset);
        }
        word := word + 1;
      }
      assert forall i :: 0 <= i < Covered(memSize) ==> Frames()[i].Some?;
      return None;
    }

    /** Puts a page into an empty frame. */
    method LoadPage(v: VPage, ppn: nat)
      requires Valid() && ppn < Covered(memSize) && memory[ppn] == null
      requires v.Id() in pages && pages[v.Id()] == v && !v.inMemory
      modifies this`numAllocated, memory, freelist, v`inMemory, v`currentPPN
      ensures Valid()
      ensures Frames() == old(Frames())[ppn := Some(v.Id())]
      ensures v.inMemory && v.currentPPN == ppn
    {
      hide BitsAgree, WithBit, Allocated;
      LoadAgrees(memory[..], freelist[..], ppn, v);
      AllocatedUpdate(Frames(), ppn, Some(v.Id()));
      memory[ppn] := v;
      v.inMemory := true;
      v.currentPPN := ppn;
      freelist[WordOf(ppn)] := WithBit(freelist[WordOf(ppn)], OffsetOf(ppn));
      numAllocated := numAllocated + 1;
      assert freelist[..] == old(freelist[..])[WordOf(ppn) := WithBit(old(freelist[WordOf(ppn)]), OffsetOf(ppn))];
      assert memory[..] == old(memory[..])[ppn := v];
      assert Frames() == old(Frames())[ppn := Some(v.Id())];
    }

    /** Empties a frame. */
    method EvictPage(ppn: nat)
      requires Valid() && ppn < memSize && memory[ppn] != null
      modifies this`numAllocated, memory, freelist, memory[ppn]
      ensures Valid()
      ensures Frames() == old(Frames())[ppn := None]
      ensures !old(memory[ppn]).inMemory && old(memory[ppn]).inQueue == old(memory[ppn].inQueue)
    {
      hide BitsAgree, IsSet, Flipped, Allocated;
      EvictAgrees(memory[..], freelist[..], ppn);
      AllocatedUpdate(Frames(), ppn, None);
      memory[ppn].inMemory := false;
      memory[ppn] := null;
      if IsSet(freelist[WordOf(ppn)], OffsetOf(ppn)) {
        freelist[WordOf(ppn)] := Flipped(freelist[WordOf(ppn)], OffsetOf(ppn));
        numAllocated := numAllocated - 1;
      }
      assert freelist[..] == old(freelist[..])[WordOf(ppn) := Flipped(old(freelist[WordOf(ppn)]), OffsetOf(ppn))];
      assert memory[..] == old(memory[..])[ppn := null];
      assert Frames() == old(Frames())[ppn := None];
    }

    /** Forgets a page that is not in memory. */
    method Discard(v: VPage)
      requires Valid() && v.Id() in pages && pages[v.Id()] == v && !v.inMemory
      modifies this`pages
      ensures Valid() && pages == old(pages) - {v.Id()}
    {
      hide BitsAgree, Allocated, FramesOf;
      assert forall i :: 0 <= i < memory.Length && memory[i] != null ==> memory[i].Id() != v.Id();
      pages := pages - {v.Id()};
    }
  }

  /** Where the free list keeps what: frame `i` has, in word i / 32, the bit worth 2 to the
      power 31 - i % 32. */
  lemma {:induction false} FreeListBit(m: PhysicalMemory, i: nat)
    requires m.Valid() && i < 32 * (m.memSize / 32)
    ensures i / 32 < m.freelist.Length
    ensures (m.freelist[i / 32] >> (31 - (i % 32) as bv5)) & 1 == 1 <==> m.memory[i] != null
  {
    hide IsSetAt, Allocated, FramesOf;
    BitIs(m.freelist[WordOf(i)], Shift(OffsetOf(i)));
  }

  lemma {:induction false} Sizes(memory: seq<VPage?>, words: seq<bv32>)
    requires BitsAgree(memory, words)
    ensures |words| == |memory| / 32 && BitmapReaches(FramesOf(memory))
  {
  }

  lemma {:induction false} NothingMapped(memory: seq<VPage?>, freelist: seq<bv32>)
    requires forall i :: 0 <= i < |memory| ==> memory[i] == null
    requires forall i :: 0 <= i < |freelist| ==> freelist[i] == 0
    requires |memory| > 0 && |freelist| == |memory| / 32
    ensures FramesOf(memory) == EmptyFrames(|memory|) && Allocated(FramesOf(memory)) == 0
    ensures BitsAgree(memory, freelist)
  {
    hide IsSetAt;
    NothingAllocated(|memory|);
    assert FramesOf(memory) == EmptyFrames(|memory|);
    forall i: nat | WordOf(i) < |freelist|
      ensures !IsSet(freelist[WordOf(i)], OffsetOf(i))
    {
      ClearWordAt(Shift(OffsetOf(i)));
    }
  }
}
