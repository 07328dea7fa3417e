/**
  The kernel heap allocator (kern/vm/kmalloc.c, as built: no SLOW, GUARDS or LABELS).
  Each method of `Heap` is one stretch of code that runs under kmalloc_spinlock, or one
  call of alloc_kpages or free_kpages made without it; what a caller carries from one
  stretch to the next (a slot, a page) is passed back in. `Valid` holds whenever the lock
  is free, so it holds over every interleaving of callers.
*/
module KMalloc {
  import opened Basics
  import opened Words
  import opened Arith
  import opened Chains
  import opened PageRefs
  import opened HeapState
  import opened HeapSteps
  import opened HeapPages
  import opened HeapFree
  import opened Allocations

  /** The block type for a request; `None` is the source's panic. */
  method BlockTypeFor(sz: nat) returns (b: Option<nat>)
    ensures b.None? <==> sz > LARGEST
    ensures b.Some? ==> b.value < NSIZES && sz <= Size(b.value)
    ensures b.Some? ==> forall c: nat :: c < b.value ==> Size(c) < sz
  {
    var i := 0;
    while i < NSIZES
      invariant 0 <= i <= NSIZES
      invariant forall c: nat :: c < i ==> Size(c) < sz
    {
      if sz <= Size(i) {
        SizeFacts(i);
        return Some(i);
      }
      i := i + 1;
    }
    assert Size(7) < sz;
    return None;
  }

  /** The page count of a big request; the rounding is done in a 32-bit size_t. */
  function NPages(sz: nat): nat { (sz + PAGE - 1) % WORD / PAGE }

  /** Rounding up gives enough pages exactly when it does not wrap. */
  lemma NPagesEnough(sz: nat)
    requires sz < WORD
    ensures sz <= NPages(sz) * PAGE <==> sz <= WORD - PAGE
    ensures sz <= WORD - PAGE ==> NPages(sz) * PAGE < sz + PAGE
    ensures sz > WORD - PAGE <==> sz > 0 && NPages(sz) == 0
  {
    if sz <= WORD - PAGE {
      assert (sz + PAGE - 1) % WORD == sz + PAGE - 1;
    } else {
      assert (sz + PAGE - 1) % WORD == sz + PAGE - 1 - WORD;
    }
  }

  /** Which allocator serves a request, and with what. */
  datatype Request = Subpage(b: nat) | WholePages(npages: nat)

  /** kmalloc's choice; for the sizes it passes on, the block type search does not panic. */
  method Route(sz: nat) returns (r: Request)
    requires sz < WORD
    ensures r.Subpage? <==> sz < LARGEST
    ensures r.Subpage? ==> r.b < NSIZES && sz <= Size(r.b) && forall c: nat :: c < r.b ==> Size(c) < sz
    ensures r.WholePages? ==> r.npages == NPages(sz)
  {
    if sz >= LARGEST {
      return WholePages((sz + PAGE - 1) % WORD / PAGE);
    }
    var b := BlockTypeFor(sz);
    return Subpage(b.value);
  }

  datatype FreeResult =
    | NotOurs                  // the pointer is on no heap page
    | BadAddress               // it is on one, but is not the address of a block: a panic
    | Kept                     // the block went back to its page
    | Emptied(page: nat)       // so did the last one; the page is to be returned
    | AssertionFailed          // the walk over the roots met a stranded root

  /** What a second free comes to when the block is not at the head of its list, each outcome with its condition. */
  ghost predicate Unnoticed(h: State, s: nat, a: nat, r: FreeResult, h': State) {
    && FreeAlready(h, s, a)
    && (r.Kept? <==> !Empties(h, s))
    && (r.AssertionFailed? <==> Empties(h, s) && Stranded(h.roots, s))
    && (r.Emptied? <==> Empties(h, s) && !Stranded(h.roots, s))
    && (r.Emptied? ==> r.page == PageOf(a))
    && (!r.AssertionFailed? ==> FreedTwice(h, s, a, h'))
  }

  /** The allocator's tables, as the source's file-level variables and the memory they point to. */
  datatype Tables = Tables(
    sizebases: seq<Option<nat>>, allbase: Option<nat>,
    nextSame: Links, nextAll: Links,
    pab: map<nat, nat>, offset: map<nat, nat>, nfree: map<nat, nat>,
    links: Links, roots: seq<Root>)

  function TablesOf(h: State): Tables {
    Tables(h.sizebases, h.allbase, h.nextSame, h.nextAll, h.pab, h.offset, h.nfree, h.links, h.roots)
  }

  /** Page `s` is the first on its size's list that has a free block. */
  ghost predicate FirstFit(h: State, b: nat, s: nat) {
    && b < |h.same| && s in h.nfree && 0 < h.nfree[s]
    && exists i :: 0 <= i < |h.same[b]| && h.same[b][i] == s && AllFull(h, h.same[b][..i])
  }

  ghost predicate AllFull(h: State, l: seq<nat>) {
    forall s :: s in l ==> s in h.nfree && h.nfree[s] == 0
  }

  ghost predicate NoRoom(h: State, b: nat) {
    b < |h.same| && AllFull(h, h.same[b])
  }

  /** The walk over the pages of one size, up to the first with a free block. */
  method FirstWithRoom(base: Option<nat>, next: Links, nfree: map<nat, nat>, pab: map<nat, nat>, ghost l: seq<nat>, b: nat)
      returns (pr: Option<nat>, ghost i: nat)
    requires Chain(base, next, l)
    requires forall k :: 0 <= k < |l| ==> l[k] in nfree && l[k] in pab && BlockType(pab[l[k]]) == b
    ensures i <= |l| && pr == At(l, i)
    ensures forall k :: 0 <= k < i ==> nfree[l[k]] == 0
    ensures i < |l| ==> 0 < nfree[l[i]]
  {
    pr, i := base, 0;
    while pr.Some?
      invariant 0 <= i <= |l| && pr == At(l, i)
      invariant forall k :: 0 <= k < i ==> nfree[l[k]] == 0
      decreases |l| - i
    {
      assert BlockType(pab[pr.value]) == b;
      if nfree[pr.value] > 0 {
        return;
      }
      pr, i := next[pr.value], i + 1;
    }
  }

  method FindPage(t: Tables, b: nat, ghost h: State) returns (pr: Option<nat>)
    requires t == TablesOf(h) && Core(h) && b < NSIZES
    ensures pr.Some? ==> FirstFit(h, b, pr.value)
    ensures pr.None? ==> NoRoom(h, b)
  {
    hide Core, BlockType, Chain;
    SizeWalk(h, b);
    ghost var i;
    pr, i := FirstWithRoom(t.sizebases[b], t.nextSame, t.nfree, t.pab, h.same[b], b);
    assert pr.Some? ==> AllFull(h, h.same[b][..i]);
  }

  /** The walk over all heap pages for the one that holds an address. */
  method FindOwner(t: Tables, ptraddr: nat, ghost h: State) returns (pr: Option<nat>)
    requires t == TablesOf(h) && Core(h)
    ensures pr.None? ==> forall s :: s in h.all ==> !OnPage(h, s, ptraddr)
    ensures pr.Some? ==> pr.value in h.all && OnPage(h, pr.value, ptraddr)
  {
    hide Core, PageAddr;
    AllWalk(h);
    pr := t.allbase;
    ghost var i := 0;
    while pr.Some?
      invariant 0 <= i <= |h.all| && pr == At(h.all, i)
      invariant forall k :: 0 <= k < i ==> !OnPage(h, h.all[k], ptraddr)
      decreases |h.all| - i
    {
      var prpage := PageAddr(t.pab[pr.value]);
      if prpage <= ptraddr && ptraddr < prpage + PAGE {
        return;
      }
      pr, i := t.nextAll[pr.value], i + 1;
    }
  }

  class Heap {
    var t: Tables
    ghost var h: State  // the tables and what they stand for

    ghost predicate Synced()
      reads this
    {
      t == TablesOf(h)
    }

    ghost predicate Valid()
      reads this
    {
      Synced() && Ok(h)
    }

    constructor ()
      ensures Valid() && h.live == map[] && h.held == map[] && h.all == []
    {
      var roots := seq(NROOTS, _ => Root(0, seq(WORDS, _ => seq(WORD_BITS, _ => false)), 0));
      var sizebases := seq(NSIZES, _ => None);
      t := Tables(sizebases, None, map[], map[], map[], map[], map[], map[], roots);
      h := State(sizebases, None, map[], map[], map[], map[], map[], map[], roots,
                 [], seq(NSIZES, _ => []), map[], map[], {}, map[]);
      new;
      EmptyOk(h);
    }

    // ---------- allocating a small block ----------

    /** doalloc: take the head of a page's free list. */
    method TakeBlock(s: nat, sz: nat) returns (retptr: nat)
      requires Synced() && PopSafe(h, s)
      modifies this
      ensures Synced() && PopSafe(old(h), s) && h == Popped(old(h), s, sz)
      ensures retptr == old(h).free[s][0]
    {
      hide PageAddr;
      assert t.offset[s] < PAGE;
      var prpage := PageAddr(t.pab[s]);
      retptr := prpage + t.offset[s];
      var fl := t.links[retptr];
      var n := t.nfree[s] - 1;
      assert if fl.Some? then n > 0 && 0 <= fl.value - prpage < PAGE else n == 0;
      var off := if fl.Some? then fl.value - prpage else INVALID;
      t := t.(links := t.links - {retptr}, nfree := t.nfree[s := n], offset := t.offset[s := off]);
      h := Popped(h, s, sz);
    }

    /** subpage_kmalloc up to the point where it drops the lock: a block, or no change. */
    method TryAllocate(b: nat, sz: nat) returns (retptr: Option<nat>, ghost s: nat)
      requires Valid() && b < NSIZES && sz <= Size(b)
      modifies this
      ensures Valid()
      ensures retptr.None? ==> h == old(h) && NoRoom(h, b)
      ensures retptr.Some? ==>
        && FirstFit(old(h), b, s) && PopSafe(old(h), s) && h == Popped(old(h), s, sz)
        && retptr.value == old(h).free[s][0] && retptr.value !in old(h).live
    {
      hide Size, Core, NoneFullyFree, PopSafe;
      var pr := FindPage(t, b, h);
      if pr.None? {
        return None, 0;
      }
      PopFound(h, b, pr.value, sz);
      var p := TakeBlock(pr.value, sz);
      return Some(p), pr.value;
    }

    // ---------- descriptors and whole pages ----------

    /** allocpageref up to the point where it may drop the lock: the first clear bit is taken. */
    method TakeDescriptor() returns (slot: Option<nat>)
      requires Valid()
      modifies this
      ensures Valid() && RootsOk(old(h).roots)
      ensures slot.None? ==> h == old(h) && forall s: nat :: s < NROOTS * PER_PAGE ==> Bit(old(h).roots, s)
      ensures slot.Some? ==>
        && slot.value !in old(h).pending && slot.value !in h.all
        && slot.value < NROOTS * PER_PAGE && !Bit(old(h).roots, slot.value)
        && (forall s: nat :: s < slot.value ==> Bit(old(h).roots, s))
        && h == Taken(old(h), slot.value)
    {
      hide Core, NoneFullyFree, Bit, Put;
      RootsOfOk(h);
      var roots';
      slot, roots' := TakeSlot(t.roots);
      if slot.Some? {
        TakeOk(h, slot.value);
        t := t.(roots := roots');
        h := Taken(h, slot.value);
      }
    }

    /** alloc_kpages(n) returning `va`, which the caller now holds. */
    ghost method AllocKPages(va: nat, n: nat, use: Use)
      requires Valid() && Grantable(h, va, n) && (use.Transit? || (use.Big? && use.size <= n * PAGE))
      modifies this
      ensures Valid() && h == Granted(old(h), va, n, use)
    {
      GrantOk(h, va, n, use);
      h := Granted(h, va, n, use);
    }

    /** free_kpages(va) by its holder. */
    ghost method FreeKPages(va: nat)
      requires Valid() && va in h.held && (h.held[va].use.Transit? || h.held[va].use.Big?)
      modifies this
      ensures Valid() && h == Dropped(old(h), va)
    {
      DropOk(h, va);
      h := Dropped(h, va);
    }

    /**
      The end of allocpagerefpage, with the lock held again: `va` is what alloc_kpages
      returned for the root of `slot`. Someone else may have installed a page meanwhile; then
      `va` stays in the caller's hands to be returned.
    */
    method InstallRefPage(slot: nat, va: nat) returns (ok: bool)
      requires Valid() && slot in h.pending
      requires va != 0 ==> va in h.held && h.held[va] == Holding(1, Transit)
      modifies this
      ensures Valid() && slot / PER_PAGE < NROOTS == |h.roots| == |old(h).roots|
      ensures ok <==> h.roots[slot / PER_PAGE].page != 0
      ensures va != 0 ==> ok
      ensures va == 0 || old(h).roots[slot / PER_PAGE].page != 0 ==> h == old(h)
      ensures va != 0 && old(h).roots[slot / PER_PAGE].page == 0 ==> h == Installed(old(h), slot / PER_PAGE, va)
    {
      hide Core, NoneFullyFree, Bit;
      RootsOfOk(h);
      var r := slot / PER_PAGE;
      if va != 0 && t.roots[r].page == 0 {
        InstallOk(h, r, va);
        t := t.(roots := t.roots[r := t.roots[r].(page := va)]);
        h := Installed(h, r, va);
      }
      ok := t.roots[r].page != 0;
    }

    /** The rest of subpage_kmalloc: thread the page, list it, and take its first block. */
    method Publish(slot: nat, page: nat, b: nat, sz: nat) returns (retptr: nat)
      requires Valid() && Ready(h, slot, page) && b < NSIZES && sz <= Size(b)
      modifies this
      ensures Valid()
      ensures |old(h).sizebases| == NSIZES == |old(h).same| && PopSafe(Published(old(h), slot, page, b), slot)
      ensures h == Popped(Published(old(h), slot, page, b), slot, sz)
      ensures retptr == Published(old(h), slot, page, b).free[slot][0] && retptr !in old(h).live
    {
      hide Ok, Ready, PopSafe, Size;
      PublishOk(h, slot, page, b, sz);
      ListPage(slot, page, b);
      retptr := TakeBlock(slot, sz);
    }

    method ListPage(slot: nat, page: nat, b: nat)
      requires Synced() && b < NSIZES && |h.sizebases| == NSIZES == |h.same|
      modifies this
      ensures Synced() && |old(h).sizebases| == NSIZES == |old(h).same| && h == Published(old(h), slot, page, b)
    {
      hide Fresh, FreshLinks, LastOffset, Size, Blocks, Pack;
      var threaded, off := Thread(t.links, page, b);
      t := t.(links := threaded, pab := t.pab[slot := Pack(page, b)], nfree := t.nfree[slot := Blocks(b)],
              offset := t.offset[slot := off],
              nextSame := t.nextSame[slot := t.sizebases[b]], sizebases := t.sizebases[b := Some(slot)],
              nextAll := t.nextAll[slot := t.allbase], allbase := Some(slot));
      h := Published(h, slot, page, b);
    }

    // ---------- freeing ----------

    /** kfree of what kmalloc returned; `ok` is false if an assertion fails on the way. */
    method Free(ptr: nat) returns (ok: bool)
      requires Valid() && (ptr == 0 || Allocated(h, ptr))
      modifies this
      ensures ok <==> ptr == 0 || !Stuck(old(h), ptr)
      ensures ok ==> Valid()
      ensures ptr == 0 ==> h == old(h)
      ensures ptr !in old(h).live && ptr != 0 ==> h == Dropped(old(h), ptr)
      ensures ok && ptr != 0 && ptr in old(h).live ==> Freed(old(h), ptr, h)
    {
      if ptr == 0 {
        return true;
      }
      hide Ok, Stuck, Owned, Misaligned, KeepsPage, LosesPage, PageOf;
      WhoFrees(h, ptr);
      var r := SubpageFree(ptr);
      if r.NotOurs? {
        assert ptr % PAGE == 0;
        FreeKPages(ptr);
      } else if r.Emptied? {
        ghost var s :| LosesPage(old(h), s, ptr, h);
        LostPage(old(h), s, ptr, h);
        FreeKPages(r.page);
      } else if r.Kept? {
        assert Freed(old(h), ptr, h);
      }
      ok := !r.AssertionFailed?;
    }

    /** The free block goes back on the page's free list. */
    method ReturnBlock(s: nat, ptraddr: nat)
      requires Synced() && s in h.pab && s in h.offset && s in h.nfree && s in h.free && PageAddr(h.pab[s]) <= ptraddr
      modifies this
      ensures Synced() && h == Pushed(old(h), s, ptraddr)
    {
      hide PageAddr;
      var prpage := PageAddr(t.pab[s]);
      var offset := ptraddr - prpage;
      var next := if t.offset[s] == INVALID then None else Some(prpage + t.offset[s]);
      t := t.(links := t.links[ptraddr := next], offset := t.offset[s := offset], nfree := t.nfree[s := t.nfree[s] + 1]);
      h := Pushed(h, s, ptraddr);
    }

    /** remove_lists and freepageref, for a page that became entirely free. */
    method RetirePage(s: nat) returns (ok: bool)
      requires Synced() && Retirable(h, s)
      modifies this
      ensures ok <==> !Stranded(old(h).roots, s)
      ensures ok ==> Synced() && Retirable(old(h), s) && h == Retired(old(h), s)
    {
      hide PageAddr, Without, Put, Bit;
      var b := BlockType(t.pab[s]);
      var sb, ns := RemoveFrom(t.sizebases[b], t.nextSame, s, h.same[b]);
      var ab, na := RemoveFrom(t.allbase, t.nextAll, s, h.all);
      var rel := ReleaseSlot(t.roots, s);
      if rel.Panicked? {
        return false;
      }
      t := t.(sizebases := t.sizebases[b := sb], nextSame := ns, allbase := ab, nextAll := na, roots := rel.roots);
      h := Retired(h, s);
      return true;
    }

    /**
      subpage_kfree while it holds the lock, for any address. A block that is free already is
      noticed only at the head of its free list.
    */
    method SubpageFree(ptraddr: nat) returns (r: FreeResult)
      requires Valid()
      modifies this
      ensures r.NotOurs? <==> !Owned(old(h), ptraddr)
      ensures r.BadAddress? <==> Misaligned(old(h), ptraddr)
      ensures r.NotOurs? || r.BadAddress? ==> Valid() && h == old(h)
      ensures !Again(old(h), ptraddr) ==>
        && (!r.AssertionFailed? ==> Valid())
        && (r.Kept? ==> exists s :: KeepsPage(old(h), s, ptraddr, h))
        && (r.Emptied? ==> r.page == PageOf(ptraddr) && exists s :: LosesPage(old(h), s, ptraddr, h))
        && (r.AssertionFailed? <==> Stuck(old(h), ptraddr))
      ensures AtHead(old(h), ptraddr) ==> r.AssertionFailed?
      ensures Again(old(h), ptraddr) && !AtHead(old(h), ptraddr) ==> exists s :: Unnoticed(old(h), s, ptraddr, r, h)
    {
      hide Core, NoneFullyFree, PageAddr, BlockType, Size, KeepsPage, LosesPage, Unnoticed;
      var pr := FindOwner(t, ptraddr, h);
      if pr.None? {
        return NotOurs;
      }
      var s := pr.value;
      OwnerFields(h, s);
      SizeFacts(BlockType(h.pab[s]));
      OnlyOwner(h, s, ptraddr);
      if (ptraddr - PageAddr(t.pab[s])) % Size(BlockType(t.pab[s])) != 0 {
        return BadAddress;
      }
      hide Owned, Misaligned, Again, AtHead;
      r := ReturnToPage(s, ptraddr);
    }

    /** The rest, once the page is found and the address is that of one of its blocks. */
    method ReturnToPage(s: nat, ptraddr: nat) returns (r: FreeResult)
      requires Valid() && s in h.all && Aligned(h, s, ptraddr)
      modifies this
      ensures r.Kept? || r.Emptied? || r.AssertionFailed?
      ensures ptraddr in old(h).live ==>
        && (!r.AssertionFailed? ==> Valid())
        && (r.Kept? ==> KeepsPage(old(h), s, ptraddr, h))
        && (r.Emptied? ==> r.page == PageOf(ptraddr) && LosesPage(old(h), s, ptraddr, h))
        && (r.AssertionFailed? <==> CannotRetire(old(h), s, ptraddr))
      ensures ptraddr !in old(h).live ==>
        && FreeAlready(old(h), s, ptraddr)
        && if old(h).offset[s] == ptraddr - PageAddr(old(h).pab[s]) then r.AssertionFailed?
           else Unnoticed(old(h), s, ptraddr, r, h)
    {
      hide Core, NoneFullyFree, PageAddr, Blocks, BlockType, Size, Stranded, Retirable, Retired, PageOf;
      OwnerFields(h, s);
      var prpage, blktype := PageAddr(t.pab[s]), BlockType(t.pab[s]);
      if t.offset[s] != INVALID && t.offset[s] == ptraddr - prpage {
        HeadIsFree(h, s, ptraddr);
        return AssertionFailed;
      }
      if ptraddr in h.live { ReturnOk(h, s, ptraddr); }
      PushedRetirable(h, s, ptraddr);
      ReturnBlock(s, ptraddr);
      if t.nfree[s] == Blocks(blktype) {
        var ok := RetirePage(s);
        if !ok {
          return AssertionFailed;
        }
        PageOfBlock(old(h), s, ptraddr);
        return Emptied(prpage);
      }
      return Kept;
    }
  }

  lemma PageOfBlock(h: State, s: nat, a: nat)
    requires Core(h) && s in h.all && OnPage(h, s, a)
    ensures PageOf(a) == PageAddr(h.pab[s])
  {
    hide Core;
    var k := h.pab[s] / PAGE;
    DivModUnique(a, PAGE, k, a - k * PAGE);
  }

  ghost predicate Marks(freemap: seq<bool>, page: nat, z: nat, free: seq<nat>) {
    forall i: nat :: i < |freemap| ==> (freemap[i] <==> BlockAddr(page, z, i) in free)
  }

  lemma MarkFree(freemap: seq<bool>, free: seq<nat>, k: nat, page: nat, z: nat, index: nat)
    requires k < |free| && index < |freemap| && 0 < z && free[k] == BlockAddr(page, z, index)
    requires Marks(freemap, page, z, free[..k])
    ensures Marks(freemap[index := true], page, z, free[..k + 1])
  {
    assert free[..k + 1] == free[..k] + [free[k]];
    forall i: nat | i < |freemap| && BlockAddr(page, z, i) == free[k] ensures i == index {
      SameBlock(page, z, i, index);
    }
  }

  lemma SameBlock(page: nat, z: nat, i: nat, j: nat)
    requires 0 < z && BlockAddr(page, z, i) == BlockAddr(page, z, j)
    ensures i == j
  {
    if i < j { MulMono(i + 1, j, z); MulDistrib(i, 1, z); }
    if j < i { MulMono(j + 1, i, z); MulDistrib(j, 1, z); }
  }

  /** What walking a page's free list relies on. */
  lemma PageWalk(h: State, s: nat)
    requires Ok(h) && s in h.all
    ensures s in h.pab && s in h.offset && s in h.nfree && s in h.free && BlockType(h.pab[s]) < NSIZES
    ensures FreeBase(PageAddr(h.pab[s]), h.offset[s]) == At(h.free[s], 0)
    ensures forall i :: 0 <= i < |h.free[s]| ==> h.free[s][i] in h.links && h.links[h.free[s][i]] == At(h.free[s], i + 1)
    ensures forall a :: a in h.free[s] ==> IsBlock(a, PageAddr(h.pab[s]), BlockType(h.pab[s]))
    ensures forall a :: IsBlock(a, PageAddr(h.pab[s]), BlockType(h.pab[s])) ==> (a in h.live <==> a !in h.free[s])
  {
    assert SlotOk(h, s) && PageOk(s, h.pab[s], h.offset[s], h.nfree[s], h.links, h.free[s], h.live);
  }

  /** A block's number on its page. */
  function BlockIndex(a: nat, page: nat, b: nat): (i: nat)
    requires b < NSIZES && IsBlock(a, page, b)
    ensures i < Blocks(b) && 0 < Size(b) && a == BlockAddr(page, Size(b), i)
  {
    IndexFacts(a, page, b);
    (a - page) / Size(b)
  }

  lemma NoMarks(n: nat, page: nat, z: nat)
    ensures Marks(seq(n, _ => false), page, z, [])
  {
  }

  lemma BlockOf(page: nat, b: nat, i: nat)
    requires b < NSIZES && i < Blocks(b)
    ensures IsBlock(BlockAddr(page, Size(b), i), page, b)
  {
    BlockAt(i, page, b);
  }

  /** The walk over a page's free list. */
  method FreeMap(links: Links, start: Option<nat>, page: nat, b: nat, ghost free: seq<nat>) returns (freemap: seq<bool>)
    requires b < NSIZES && start == At(free, 0)
    requires forall i :: 0 <= i < |free| ==> free[i] in links && links[free[i]] == At(free, i + 1) && IsBlock(free[i], page, b)
    ensures |freemap| == Blocks(b) && Marks(freemap, page, Size(b), free)
  {
    var n, z := Blocks(b), Size(b);
    SizeFacts(b);
    hide Size, Blocks, IsBlock, BlockAddr, Marks, BlockIndex;
    freemap := seq(n, _ => false);
    ghost var k := 0;
    NoMarks(n, page, z);
    assert free[..0] == [];
    var fl := start;
    while fl.Some?
      invariant 0 <= k <= |free| && fl == At(free, k) && |freemap| == n
      invariant Marks(freemap, page, z, free[..k])
      decreases |free| - k
    {
      var index := BlockIndex(fl.value, page, b);
      MarkFree(freemap, free, k, page, z, index);
      freemap := freemap[index := true];
      fl, k := links[fl.value], k + 1;
    }
    assert free[..k] == free;
  }

  /** The map of a page's free blocks, and the number of bytes in use on it. */
  method SubpageStats(t: Tables, s: nat, ghost h: State) returns (freemap: seq<bool>, used: nat)
    requires t == TablesOf(h) && Ok(h) && s in h.all
    ensures s in h.pab && BlockType(h.pab[s]) < NSIZES
    ensures |freemap| == Blocks(BlockType(h.pab[s]))
    ensures forall i: nat :: i < |freemap| ==>
      (freemap[i] <==> BlockAddr(PageAddr(h.pab[s]), Size(BlockType(h.pab[s])), i) !in h.live)
    ensures used == Size(BlockType(h.pab[s])) * |LiveOn(h, s)|
  {
    hide Ok, PageAddr, BlockType, Size, Blocks, LiveOn, IsBlock, BlockAddr, Marks;
    PageCounts(h, s);
    PageWalk(h, s);
    var prpage, blktype := PageAddr(t.pab[s]), BlockType(t.pab[s]);
    var n, z := Blocks(blktype), Size(blktype);
    var fl := if t.offset[s] == INVALID then None else Some(prpage + t.offset[s]);
    freemap := FreeMap(t.links, fl, prpage, blktype, h.free[s]);
    NotFreeIsLive(freemap, prpage, blktype, h.free[s], h.live);
    used := z * (n - t.nfree[s]);
  }

  lemma NotFreeIsLive(freemap: seq<bool>, page: nat, b: nat, free: seq<nat>, live: map<nat, nat>)
    requires b < NSIZES && |freemap| == Blocks(b) && Marks(freemap, page, Size(b), free)
    requires forall a :: IsBlock(a, page, b) ==> (a in live <==> a !in free)
    ensures forall i: nat :: i < |freemap| ==> (freemap[i] <==> BlockAddr(page, Size(b), i) !in live)
  {
    hide Size, Blocks, IsBlock, BlockAddr;
    forall i: nat | i < |freemap| ensures freemap[i] <==> BlockAddr(page, Size(b), i) !in live {
      BlockOf(page, b, i);
    }
  }

  lemma IndexIs(l: seq<nat>, x: nat, i: nat)
    requires NoDup(l) && i < |l| && l[i] == x
    ensures x in l && IndexOf(l, x) == i
  {
    var k := IndexOf(l, x);
    assert l[k] == x;
  }

  /** Unlinking one node from one list, walking the pointers that lead to it. */
  method RemoveFrom(base: Option<nat>, next: Links, pr: nat, ghost l: seq<nat>) returns (base': Option<nat>, next': Links)
    requires Chain(base, next, l)
    ensures pr !in l ==> base' == base && next' == next
    ensures pr in l ==>
      && pr in next
      && base' == UnlinkBase(base, next, l, IndexOf(l, pr)) && next' == UnlinkLinks(next, l, IndexOf(l, pr))
  {
    hide IndexOf, Chain, NoDup;
    ChainBase(base, next, l);
    var prev, guy := None, base;
    ghost var i := 0;
    while guy.Some?
      invariant 0 <= i <= |l| && guy == At(l, i)
      invariant prev == if i == 0 then None else Some(l[i - 1])
      invariant forall k :: 0 <= k < i ==> l[k] != pr
      decreases |l| - i
    {
      ChainLeads(base, next, l, i);
      if guy.value == pr {
        IndexIs(l, pr, i);
        if prev.None? {
          return next[pr], next;
        }
        return base, next[prev.value := next[pr]];
      }
      prev, guy, i := guy, next[guy.value], i + 1;
    }
    return base, next;
  }

  /** The loop that threads a fresh page, block by block; returns the last block's offset. */
  method Thread(links: Links, page: nat, b: nat) returns (links': Links, off: nat)
    requires b < NSIZES
    ensures links' == FreshLinks(links, page, Size(b), Blocks(b))
    ensures off == LastOffset(b)
  {
    SizeFacts(b);
    var z, n := Size(b), Blocks(b);
    hide Size, Blocks;
    var fl := page;
    links' := links[fl := None];
    assert BlockAddr(page, z, 0) == page;
    assert FreshLinks(links, page, z, 1) == links' by { assert FreshLinks(links, page, z, 0) == links; }
    var i := 1;
    while i < n
      invariant 1 <= i <= n
      invariant fl == BlockAddr(page, z, i - 1)
      invariant links' == FreshLinks(links, page, z, i)
    {
      fl := page + i * z;
      links' := links'[fl := Some(page + (i - 1) * z)];
      i := i + 1;
    }
    off := fl - page;
  }

  lemma RootsOfOk(h: State)
    requires Ok(h)
    ensures RootsOk(h.roots)
    ensures forall t :: t in h.pending ==> Bit(h.roots, t) && t / PER_PAGE < NROOTS
  {
  }

  lemma TakeOk(h: State, s: nat)
    requires Ok(h) && s < NROOTS * PER_PAGE && !Bit(h.roots, s)
    ensures Ok(Taken(h, s)) && s !in h.pending && s !in h.all
  {
    TakeCore(h, s);
    hide Core, Bit, Put, BlockType, Blocks;
    FullFrame(h, Taken(h, s));
  }

  lemma InstallOk(h: State, r: nat, va: nat)
    requires Ok(h) && r < NROOTS && |h.roots| == NROOTS && h.roots[r].page == 0
    requires va in h.held && h.held[va] == Holding(1, Transit)
    ensures Ok(Installed(h, r, va)) && va != 0
  {
    assert va != 0 by { hide Lists, Pages, LiveOk, Bit; }
    InstallCore(h, r, va);
    hide Core, BlockType, Blocks;
    FullFrame(h, Installed(h, r, va));
  }

  lemma GrantOk(h: State, va: nat, n: nat, use: Use)
    requires Ok(h) && Grantable(h, va, n) && (use.Transit? || (use.Big? && use.size <= n * PAGE))
    ensures Ok(Granted(h, va, n, use))
  {
    GrantCore(h, va, n, use);
    hide Core, BlockType, Blocks;
    FullFrame(h, Granted(h, va, n, use));
  }

  lemma DropOk(h: State, va: nat)
    requires Ok(h) && va in h.held && (h.held[va].use.Transit? || h.held[va].use.Big?)
    ensures Ok(Dropped(h, va))
  {
    DropCore(h, va);
    hide Core, BlockType, Blocks;
    FullFrame(h, Dropped(h, va));
  }

  lemma FullFrame(h: State, h': State)
    requires NoneFullyFree(h) && h'.all == h.all && h'.pab == h.pab && h'.nfree == h.nfree
    ensures NoneFullyFree(h')
  {
    forall t | t in h'.all ensures !FullyFree(h', t) { assert !FullyFree(h, t); }
  }

  lemma PublishOk(h: State, s: nat, page: nat, b: nat, sz: nat)
    requires Ok(h) && Ready(h, s, page) && b < NSIZES && sz <= Size(b)
    ensures |h.sizebases| == NSIZES == |h.same|
    ensures var h' := Published(h, s, page, b);
      && PopSafe(h', s) && Ok(Popped(h', s, sz))
      && h'.free[s][0] !in h.live
  {
    PublishCore(h, s, page, b);
    PublishFacts(h, s, page, b);
    hide Core, Fresh, FreshLinks, LastOffset, Size, Blocks, Pack, PageAddr, BlockType, Ready;
    PopFresh(Published(h, s, page, b), s, b, sz);
  }

  lemma PublishFacts(h: State, s: nat, page: nat, b: nat)
    requires Ok(h) && Ready(h, s, page) && b < NSIZES
    ensures |h.sizebases| == NSIZES == |h.same|
    ensures var h' := Published(h, s, page, b);
      && s in h'.all && BlockType(h'.pab[s]) == b && 0 < h'.nfree[s]
      && forall t :: t in h'.all && t != s ==> !FullyFree(h', t)
  {
    PackParts(page, b) by { assert page % PAGE == 0; }
    SizeFacts(b);
    var h' := Published(h, s, page, b);
    hide Core, Fresh, FreshLinks, LastOffset, Size, Blocks, Pack, PageAddr, BlockType, Ready;
    forall t | t in h'.all && t != s ensures !FullyFree(h', t) {
      assert t in h.all && !FullyFree(h, t);
    }
  }

  /** Taking a block from the only page that may be entirely free leaves none that is. */
  lemma PopFresh(h: State, s: nat, b: nat, sz: nat)
    requires Core(h) && s in h.all && b < NSIZES && s in h.pab && s in h.nfree
    requires BlockType(h.pab[s]) == b && 0 < h.nfree[s] && sz <= Size(b)
    requires forall t :: t in h.all && t != s ==> !FullyFree(h, t)
    ensures PopSafe(h, s) && Ok(Popped(h, s, sz)) && h.free[s][0] !in h.live
  {
    PopReady(h, s);
    PopCore(h, s, sz);
    AtMostAll(h, s);
    hide Core;
    PopNotFull(h, s, sz);
  }

  lemma AtMostAll(h: State, s: nat)
    requires Core(h) && s in h.all
    ensures s in h.nfree && s in h.pab && BlockType(h.pab[s]) < NSIZES && h.nfree[s] <= Blocks(BlockType(h.pab[s]))
  {
    assert PageOk(s, h.pab[s], h.offset[s], h.nfree[s], h.links, h.free[s], h.live);
  }

  lemma PopNotFull(h: State, s: nat, sz: nat)
    requires PopSafe(h, s) && BlockType(h.pab[s]) < NSIZES && h.nfree[s] <= Blocks(BlockType(h.pab[s]))
    requires forall t :: t in h.all && t != s ==> !FullyFree(h, t)
    ensures NoneFullyFree(Popped(h, s, sz))
  {
    hide Blocks, BlockType, PageAddr;
    var h' := Popped(h, s, sz);
    forall t | t in h'.all ensures !FullyFree(h', t) {
      if t != s { assert !FullyFree(h, t); }
    }
  }

  /** What the walk over one size's list relies on. */
  lemma SizeWalk(h: State, b: nat)
    requires Core(h) && b < NSIZES
    ensures |h.sizebases| == |h.same| == NSIZES && Chain(h.sizebases[b], h.nextSame, h.same[b])
    ensures forall i :: 0 <= i < |h.same[b]| ==>
      && h.same[b][i] in h.nextSame && h.nextSame[h.same[b][i]] == At(h.same[b], i + 1)
      && h.same[b][i] in h.nfree && h.same[b][i] in h.pab && BlockType(h.pab[h.same[b][i]]) == b
    ensures h.sizebases[b] == At(h.same[b], 0)
  {
    assert SizeList(h.sizebases[b], h.nextSame, h.same[b], h.all, h.pab, b);
    hide PageOk, Held, LiveOk, BlockType, PageAddr, Bit;
    forall i | 0 <= i < |h.same[b]| ensures h.same[b][i] in h.nfree {
      assert h.same[b][i] in h.same[b] && SlotOk(h, h.same[b][i]);
    }
  }

  lemma PopFound(h: State, b: nat, s: nat, sz: nat)
    requires Ok(h) && b < NSIZES && FirstFit(h, b, s) && sz <= Size(b)
    ensures PopSafe(h, s) && Ok(Popped(h, s, sz)) && h.free[s][0] !in h.live
  {
    assert s in h.all && BlockType(h.pab[s]) == b by {
      assert SizeList(h.sizebases[b], h.nextSame, h.same[b], h.all, h.pab, b);
    }
    hide Core, PageAddr, Size, Blocks, BlockType, NoneFullyFree;
    assert forall t :: t in h.all && t != s ==> !FullyFree(h, t) by { FullMeans(h); }
    PopFresh(h, s, b, sz);
  }

  lemma FullMeans(h: State)
    requires NoneFullyFree(h)
    ensures forall t :: t in h.all ==> !FullyFree(h, t)
  {
  }

  lemma EmptyOk(h: State)
    requires h.sizebases == seq(NSIZES, _ => None) && h.allbase == None && h.all == []
    requires h.same == seq(NSIZES, _ => []) && h.live == map[] && h.pending == {} && h.held == map[]
    requires h.roots == seq(NROOTS, _ => Root(0, seq(WORDS, _ => seq(WORD_BITS, _ => false)), 0))
    ensures Ok(h)
  {
    EmptyCount();
  }

  lemma EmptyCount()
    ensures Count(seq(WORDS, _ => seq(WORD_BITS, _ => false))) == 0
  {
    var w := seq(WORD_BITS, _ => false);
    ClearWord(w);
    ClearWords(seq(WORDS, _ => w));
  }

  lemma {:induction false} ClearWord(w: seq<bool>)
    requires forall i :: 0 <= i < |w| ==> !w[i]
    ensures CountWord(w) == 0
  {
    if w != [] { ClearWord(w[1..]); }
  }

  lemma {:induction false} ClearWords(ws: seq<seq<bool>>)
    requires forall i :: 0 <= i < |ws| ==> CountWord(ws[i]) == 0
    ensures Count(ws) == 0
  {
    if ws != [] { ClearWords(ws[1..]); }
  }
}
