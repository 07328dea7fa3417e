/**
  The code of kmalloc and kfree as steps of the machine of callers (kern/vm/kmalloc.c:923-1267):
  each method runs the methods of `Heap` that make up one stretch of code, and what it does
  to the heap and to its caller's local variables is one step of `HeapRuns`. So everything
  proved of all runs there holds of this code, however many callers run it at once.
*/
module HeapCalls {
  import opened Basics
  import opened Words
  import opened PageRefs
  import opened HeapState
  import opened HeapSteps
  import opened HeapPages
  import opened HeapFree
  import opened Allocations
  import opened KMalloc
  import opened HeapRuns

  /** subpage_kmalloc until it first drops the lock. */
  method Begin(heap: Heap, sz: nat) returns (retptr: Option<nat>, p': Phase, ghost e: Event)
    requires heap.Valid() && sz < LARGEST
    modifies heap
    ensures heap.Valid() && Local(old(heap.h), Idle, e, heap.h, p')
    ensures retptr.Some? <==> p'.Idle?
    ensures retptr.Some? ==> Gains(old(heap.h), heap.h, retptr.value, sz)
  {
    hide Heap.Valid, Size, FirstFit, PopSafe, NoRoom;
    var b := BlockTypeFor(sz);
    ghost var s;
    retptr, s := heap.TryAllocate(b.value, sz);
    if retptr.Some? {
      return retptr, Idle, Hit(sz, b.value, s);
    }
    return None, NeedPage(b.value, sz), Miss(sz, b.value);
  }

  /** One block more is live, with the size asked for. */
  ghost predicate Gains(h: State, h': State, a: nat, sz: nat) {
    a !in h.live && h'.live == h.live[a := sz]
  }

  /** The end of subpage_kmalloc, with a page and a descriptor whose root has its page. */
  method PublishPage(heap: Heap, b: nat, sz: nat, page: nat, slot: nat) returns (retptr: nat)
    requires heap.Valid() && b < NSIZES && sz <= Size(b) && slot in heap.h.pending && RootHasPage(heap.h, slot)
    requires page in heap.h.held && heap.h.held[page] == Holding(1, Transit)
    modifies heap
    ensures heap.Valid() && Publishes(old(heap.h), b, sz, page, slot, heap.h)
    ensures Gains(old(heap.h), heap.h, retptr, sz)
  {
    hide Ok, Ready, PopSafe, Size, RootHasPage;
    SlotReady(heap.h, page, slot);
    PublishedLive(heap.h, b, sz, page, slot);
    retptr := heap.Publish(slot, page, b, sz);
  }

  lemma PublishedLive(h: State, b: nat, sz: nat, page: nat, slot: nat)
    requires Ok(h) && Ready(h, slot, page) && b < NSIZES && sz <= Size(b)
    ensures |h.sizebases| == NSIZES == |h.same| && PopSafe(Published(h, slot, page, b), slot)
    ensures var h1 := Published(h, slot, page, b); Popped(h1, slot, sz).live == h.live[h1.free[slot][0] := sz]
  {
    hide Ok, Ready, Size, PageAddr, Fresh, FreshLinks, LastOffset, Blocks, Pack;
    PublishOk(h, slot, page, b, sz);
    hide PopSafe;
  }

  /** With a page in hand: allocpageref, up to the point where it may drop the lock, and what follows if it does not. */
  method WithPage(heap: Heap, p: Phase) returns (retptr: Option<nat>, p': Phase, ghost e: Event)
    requires heap.Valid() && p.HavePage? && PhaseOk(heap.h, p)
    modifies heap
    ensures heap.Valid() && Local(old(heap.h), p, e, heap.h, p')
    ensures retptr.Some? <==> p'.Idle?
    ensures retptr.Some? ==> Gains(old(heap.h), heap.h, retptr.value, p.sz)
  {
    hide Ok, Size, Publishes, Bit, Put;
    ghost var h := heap.h;
    assert p.page in OwnPages(p);
    var slot := heap.TakeDescriptor();
    if slot.None? {
      return None, Returning(p.page), NoSlot;
    }
    PutPages(h.roots, slot.value);
    if heap.t.roots[slot.value / PER_PAGE].page == 0 {
      return None, NeedRefPage(p.b, p.sz, p.page, slot.value), GetSlot(slot.value);
    }
    var a := PublishPage(heap, p.b, p.sz, p.page, slot.value);
    return Some(a), Idle, GetSlot(slot.value);
  }

  /** With the answer to its request for a page of descriptors: the end of allocpagerefpage, and what follows. */
  method WithRefPage(heap: Heap, p: Phase) returns (retptr: Option<nat>, p': Phase, ghost e: Event)
    requires heap.Valid() && p.HaveRefPage? && PhaseOk(heap.h, p)
    modifies heap
    ensures heap.Valid() && Local(old(heap.h), p, e, heap.h, p')
    ensures retptr.Some? <==> p'.Idle?
    ensures retptr.Some? ==> Gains(old(heap.h), heap.h, retptr.value, p.sz)
  {
    hide Ok, Size, Publishes;
    e := Settle;
    ghost var h := heap.h;
    assert p.page in OwnPages(p) && p.slot in OwnSlots(p) && (p.va != 0 ==> p.va in OwnPages(p));
    RootsOfOk(h);
    var had := heap.t.roots[p.slot / PER_PAGE].page != 0;
    var ok := heap.InstallRefPage(p.slot, p.va);
    if !ok {
      return None, Returning(p.page), e;
    }
    if had && p.va != 0 {
      return None, SpareRefPage(p.b, p.sz, p.page, p.slot, p.va), e;
    }
    var a := PublishPage(heap, p.b, p.sz, p.page, p.slot);
    return Some(a), Idle, e;
  }

  /** The spare page of descriptors given back and the lock taken again: the rest of subpage_kmalloc. */
  method WithSlot(heap: Heap, p: Phase) returns (retptr: nat, ghost e: Event)
    requires heap.Valid() && p.HaveSlot? && PhaseOk(heap.h, p)
    modifies heap
    ensures heap.Valid() && Local(old(heap.h), p, e, heap.h, Idle)
    ensures Gains(old(heap.h), heap.h, retptr, p.sz)
  {
    hide Ok, Size, Publishes;
    assert p.page in OwnPages(p) && p.slot in OwnSlots(p);
    retptr := PublishPage(heap, p.b, p.sz, p.page, p.slot);
    e := Finish;
  }

  predicate OutsideLock(p: Phase) { p.NeedPage? || p.NeedRefPage? || p.SpareRefPage? || p.Returning? }

  /** The calls made without the lock; `va` is what alloc_kpages returns, where it is called. */
  method PageCall(heap: Heap, p: Phase, va: nat) returns (p': Phase, ghost e: Event)
    requires heap.Valid() && OutsideLock(p) && PhaseOk(heap.h, p) && (va != 0 ==> Grantable(heap.h, va, 1))
    modifies heap
    ensures heap.Valid() && Local(old(heap.h), p, e, heap.h, p')
  {
    hide Ok, Size, Grantable, Granted, Dropped;
    match p
    case NeedPage(b, sz) =>
      e := GetPage(va);
      if va == 0 {
        p' := Idle;
      } else {
        heap.AllocKPages(va, 1, Transit);
        p' := HavePage(b, sz, va);
      }
    case NeedRefPage(b, sz, page, slot) =>
      e := GetRefPage(va);
      if va != 0 {
        heap.AllocKPages(va, 1, Transit);
      }
      p' := HaveRefPage(b, sz, page, slot, va);
    case SpareRefPage(b, sz, page, slot, spare) =>
      assert spare in OwnPages(p);
      heap.FreeKPages(spare);
      p', e := HaveSlot(b, sz, page, slot), ReturnSpare;
    case Returning(page) =>
      assert page in OwnPages(p);
      heap.FreeKPages(page);
      p', e := Idle, ReturnPage;
  }

  /** kmalloc of a big size, with what alloc_kpages returns; where the rounding wraps, no page stands behind it. */
  method BigRequest(heap: Heap, sz: nat, va: nat) returns (retptr: nat, ghost e: Event)
    requires heap.Valid() && LARGEST <= sz < WORD && (va != 0 && sz <= WORD - PAGE ==> Grantable(heap.h, va, NPages(sz)))
    modifies heap
    ensures heap.Valid() && Local(old(heap.h), Idle, e, heap.h, Idle)
    ensures retptr == va
    ensures heap.h.held == if va != 0 && sz <= WORD - PAGE then old(heap.h).held[va := Holding(NPages(sz), Big(sz))] else old(heap.h).held
  {
    hide Ok, Grantable, NPages;
    var r := Route(sz);
    NPagesEnough(sz);
    if va != 0 && r.npages > 0 {
      heap.AllocKPages(va, r.npages, Big(sz));
    }
    retptr, e := va, BigAlloc(sz, r.npages, va);
  }

  /** kfree of an allocation, up to the return of its page; `ok` is false if an assertion fails on the way. */
  method FreeBlock(heap: Heap, ptr: nat) returns (ok: bool, p': Phase, ghost e: Event)
    requires heap.Valid() && Allocated(heap.h, ptr)
    modifies heap
    ensures ok <==> !Stuck(old(heap.h), ptr)
    ensures ok ==> heap.Valid() && Local(old(heap.h), Idle, e, heap.h, p') && Frees(e) == {ptr}
    ensures ok ==> p' == if e.FreeLast? then Returning(PageOf(ptr)) else Idle
  {
    hide Ok, Stuck, Owned, Misaligned, KeepsPage, LosesPage, PageOf, PageAddr;
    WhoFrees(heap.h, ptr);
    ghost var h := heap.h;
    var r := heap.SubpageFree(ptr);
    ok, p', e := !r.AssertionFailed?, Idle, BigFree(ptr);
    if r.NotOurs? {
      heap.FreeKPages(ptr);
    } else if r.Emptied? {
      ghost var s :| LosesPage(h, s, ptr, heap.h);
      LostPage(h, s, ptr, heap.h);
      LostSlot(h, s, ptr, heap.h);
      p', e := Returning(r.page), FreeLast(s, ptr);
    } else if r.Kept? {
      ghost var s :| KeepsPage(h, s, ptr, heap.h);
      e := HeapRuns.Event.Free(s, ptr);
    }
  }

  lemma LostSlot(h: State, s: nat, a: nat, h': State)
    requires LosesPage(h, s, a, h')
    ensures s in h.pab
  {
  }

  /** Whatever a caller that is not idle does next: one step. */
  method Continue(heap: Heap, p: Phase, va: nat) returns (retptr: Option<nat>, p': Phase, ghost e: Event)
    requires heap.Valid() && !p.Idle? && PhaseOk(heap.h, p)
    requires OutsideLock(p) && va != 0 ==> Grantable(heap.h, va, 1)
    modifies heap
    ensures heap.Valid() && Local(old(heap.h), p, e, heap.h, p')
    ensures retptr.Some? ==> p'.Idle? && !p.Returning? && Gains(old(heap.h), heap.h, retptr.value, p.sz)
    ensures retptr.None? && p'.Idle? ==> OutsideLock(p)
  {
    hide Heap.Valid, PhaseOk, Local, Grantable;
    retptr := None;
    if p.HavePage? {
      retptr, p', e := WithPage(heap, p);
    } else if p.HaveRefPage? {
      retptr, p', e := WithRefPage(heap, p);
    } else if p.HaveSlot? {
      var a;
      a, e := WithSlot(heap, p);
      retptr, p' := Some(a), Idle;
    } else {
      p', e := PageCall(heap, p, va);
    }
  }

  /** So among any other callers it keeps the invariant of all runs, and theirs of what they carry. */
  lemma CallKeeps(g: System, t: nat, e: Event, h': State, p': Phase)
    requires Inv(g) && t in g.callers && Local(g.h, g.callers[t], e, h', p')
    ensures var g' := System(h', g.callers[t := p']);
      Follows(g, g') && Inv(g') && forall u :: u in g.callers && u != t ==> u in g'.callers && PhaseOk(h', g.callers[u])
  {
    hide Inv, Local, PhaseOk;
    var g' := System(h', g.callers[t := p']);
    assert Next(g, g', t, e);
    StepKeeps(g, g', t, e);
    InvPhases(g');
    forall u | u in g.callers && u != t ensures u in g'.callers && PhaseOk(h', g.callers[u]) {
      assert g'.callers[u] == g.callers[u];
    }
  }

  lemma InvPhases(g: System)
    requires Inv(g)
    ensures forall u :: u in g.callers ==> PhaseOk(g.h, g.callers[u])
  {
  }
}
