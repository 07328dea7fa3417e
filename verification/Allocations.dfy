/**
  What callers of kmalloc and kfree may rely on (kern/vm/kmalloc.c:901-1267): the memory
  behind every pointer handed out and not yet freed.
*/
module Allocations {
  import opened Basics
  import opened Arith
  import opened Chains
  import opened PageRefs
  import opened HeapState
  import opened HeapPages
  import opened HeapFree

  /** `x` was returned by kmalloc and has not been freed. */
  ghost predicate Allocated(h: State, x: nat) {
    x in h.live || (x in h.held && h.held[x].use.Big?)
  }

  ghost predicate Small(h: State, x: nat) {
    && x in h.live && PageOf(x) in h.held && h.held[PageOf(x)].use.HeapPage?
    && h.held[PageOf(x)].use.slot in h.pab && BlockType(h.pab[h.held[PageOf(x)].use.slot]) < NSIZES
  }

  ghost function SmallBytes(h: State, x: nat): (n: nat)
    requires Small(h, x)
    ensures SMALLEST <= n <= LARGEST
  {
    Size(BlockType(h.pab[h.held[PageOf(x)].use.slot]))
  }

  lemma SmallFacts(h: State, x: nat)
    requires Ok(h) && x in h.live
    ensures Small(h, x) && h.live[x] <= SmallBytes(h, x) && h.held[PageOf(x)].npages == 1
    ensures PageOf(x) <= x && x + SmallBytes(h, x) <= PageOf(x) + PAGE
    ensures IsBlock(x, PageOf(x), BlockType(h.pab[h.held[PageOf(x)].use.slot]))
    ensures x % SmallBytes(h, x) == 0 && x > 0
  {
    assert LiveOk(h, x) && UseOk(h, PageOf(x)) by { hide Bit, Lists, Pages; }
    assert 0 < PageOf(x) by { hide Bit, Lists, Pages; }
    var b := BlockType(h.pab[h.held[PageOf(x)].use.slot]);
    hide Core, NoneFullyFree;
    assert PageOf(x) % PAGE == 0;
    BlockPage(x, PageOf(x), b);
    BlockAligned(x, PageOf(x), b);
  }

  /** A block's address is a multiple of the block size. */
  lemma BlockAligned(a: nat, page: nat, b: nat)
    requires page % PAGE == 0 && b < NSIZES && IsBlock(a, page, b)
    ensures a % Size(b) == 0
  {
    SizeFacts(b);
    var z, n := Size(b), Blocks(b);
    var q, k := page / PAGE, (a - page) / z;
    assert page == q * PAGE && a - page == k * z;
    MulAssoc(q, n, z);
    MulDistrib(q * n, k, z);
    MulMono(0, q * n + k, z);
    DivModUnique(a, z, q * n + k, 0);
  }

  /** The bytes behind an allocation. */
  ghost function Bytes(h: State, x: nat): (n: nat)
    requires Ok(h) && Allocated(h, x)
    ensures x in h.live ==> 0 < n
  {
    if x in h.live then SmallFacts(h, x); SmallBytes(h, x) else h.held[x].npages * PAGE
  }

  ghost function Requested(h: State, x: nat): nat
    requires Allocated(h, x)
  {
    if x in h.live then h.live[x] else h.held[x].use.size
  }

  ghost predicate Disjoint(x: nat, m: nat, y: nat, n: nat) {
    x + m <= y || y + n <= x
  }

  /** Every allocation is big enough, and aligned to its block or page; small ones stay in one page. */
  lemma BigEnough(h: State, x: nat)
    requires Ok(h) && Allocated(h, x)
    ensures Requested(h, x) <= Bytes(h, x) && 0 < x
    ensures x in h.live ==> x % Bytes(h, x) == 0 && x % PAGE + Bytes(h, x) <= PAGE
    ensures x !in h.live ==> x % PAGE == 0
  {
    if x in h.live {
      SmallFacts(h, x);
    } else {
      assert UseOk(h, x) && x % PAGE == 0 && 0 < x by { hide Bit, Lists, Pages, LiveOk; }
    }
  }

  /** Any two allocations lie apart. */
  lemma AllDisjoint(h: State, x: nat, y: nat)
    requires Ok(h) && Allocated(h, x) && Allocated(h, y) && x != y
    ensures Disjoint(x, Bytes(h, x), y, Bytes(h, y))
  {
    hide Ok;
    if x in h.live && y in h.live {
      SmallSmall(h, x, y);
    } else if x in h.live {
      SmallBig(h, x, y);
    } else if y in h.live {
      SmallBig(h, y, x);
    } else {
      RangesApart(h, x, y);
    }
  }

  lemma RangesApart(h: State, p: nat, q: nat)
    requires Ok(h) && p in h.held && q in h.held && p != q
    ensures Apart(p, h.held[p].npages, q, h.held[q].npages)
  {
    hide Bit, Lists, Pages, LiveOk, UseOk;
  }

  lemma SmallSmall(h: State, x: nat, y: nat)
    requires Ok(h) && x in h.live && y in h.live && x != y
    ensures Disjoint(x, Bytes(h, x), y, Bytes(h, y))
  {
    hide Ok;
    SmallFacts(h, x);
    SmallFacts(h, y);
    var p, q := PageOf(x), PageOf(y);
    if p == q {
      var b := BlockType(h.pab[h.held[p].use.slot]);
      hide PageOf, BlockType, Size, IsBlock;
      if x < y { BlocksApart(x, y, p, b); } else { BlocksApart(y, x, p, b); }
    } else {
      hide PageOf, BlockType, Size, IsBlock;
      RangesApart(h, p, q);
    }
  }

  lemma SmallBig(h: State, x: nat, y: nat)
    requires Ok(h) && x in h.live && y in h.held && !h.held[y].use.HeapPage?
    ensures Disjoint(x, Bytes(h, x), y, h.held[y].npages * PAGE)
  {
    hide Ok;
    SmallFacts(h, x);
    hide PageOf, BlockType, Size, IsBlock;
    RangesApart(h, PageOf(x), y);
  }

  // ---------- which mechanism an address belongs to ----------

  /** A live block lies on exactly the listed page it came from; a big allocation on none. */
  lemma Routes(h: State, x: nat)
    requires Ok(h)
    ensures x in h.live ==> exists s :: Returns(h, s, x)
    ensures x in h.held && !h.held[x].use.HeapPage? ==> forall s :: s in h.all ==> !OnPage(h, s, x)
  {
    if x in h.live {
      SmallFacts(h, x);
      assert LiveOk(h, x);
      var s := h.held[PageOf(x)].use.slot;
      assert SlotOk(h, s);
      assert Returns(h, s, x);
    }
    if x in h.held && !h.held[x].use.HeapPage? {
      forall s | s in h.all ensures !OnPage(h, s, x) {
        assert SlotOk(h, s);
        var p := PageAddr(h.pab[s]);
        assert Apart(p, 1, x, h.held[x].npages) by { RangesApart(h, p, x); }
        hide Bit, Lists, PageOk, LiveOk;
      }
    }
  }

  /** `x` is an allocation in both states or in neither, and if so the same one. */
  ghost predicate SameAllocation(h: State, h': State, x: nat) {
    && Ok(h) && Ok(h')
    && (Allocated(h, x) <==> Allocated(h', x))
    && (Allocated(h, x) ==> Bytes(h, x) == Bytes(h', x) && Requested(h, x) == Requested(h', x))
  }

  /** Giving up the pages of no other allocation, and the block at `a` only, affects nothing else. */
  lemma OthersSame(h: State, h': State, a: nat, x: nat)
    requires Ok(h) && Ok(h') && h'.pab == h.pab && x != a
    requires x in h'.live <==> x in h.live
    requires x in h.live ==> h'.live[x] == h.live[x]
    requires x in h'.held && h'.held[x].use.Big? <==> x in h.held && h.held[x].use.Big?
    requires forall p :: p in h'.held && !h'.held[p].use.Transit? ==> p in h.held && h.held[p] == h'.held[p]
    ensures SameAllocation(h, h', x)
  {
    hide Ok;
    if x in h.live {
      SmallFacts(h, x);
      SmallFacts(h', x);
    }
  }

  /** Block `a` was freed, and its page given back if that left it entirely free. */
  ghost predicate Freed(h: State, a: nat, h': State) {
    || (exists s :: KeepsPage(h, s, a, h'))
    || (exists s, h1 :: LosesPage(h, s, a, h1) && h' == Dropped(h1, PageOf(a)))
  }

  /** A live block is freed by the subpage allocator, a big allocation by free_kpages. */
  lemma WhoFrees(h: State, x: nat)
    requires Ok(h) && Allocated(h, x)
    ensures x in h.live ==> Owned(h, x) && !Misaligned(h, x)
    ensures !Again(h, x)
    ensures x !in h.live ==> x % PAGE == 0 && !Owned(h, x) && !Misaligned(h, x) && !Stuck(h, x)
    ensures x in h.live ==> x !in h.held || !h.held[x].use.Big?
  {
    Routes(h, x);
    if x in h.live {
      var s :| Returns(h, s, x);
      forall u | u in h.all && OnPage(h, u, x) ensures Aligned(h, u, x) { OneOwner(h, s, u, x); }
      assert OnPage(h, s, x);
    } else {
      BigEnough(h, x);
    }
  }

  lemma LostPage(h: State, s: nat, a: nat, h': State)
    requires Ok(h) && LosesPage(h, s, a, h')
    ensures PageAddr(h.pab[s]) == PageOf(a) && h'.held == h.held[PageOf(a) := Holding(1, Transit)]
    ensures a in h.live && h'.live == h.live - {a} && h'.pab == h.pab
  {
    assert PageAddr(h.pab[s]) == PageOf(a);
    hide Ok, PageOf, PageAddr, Without, Put, Bit, BlockType, Chain;
  }

  /** Freeing a block takes that allocation away and no other. */
  lemma FreesOne(h: State, a: nat, h': State)
    requires Ok(h) && Ok(h') && Freed(h, a, h')
    ensures a in h.live && !Allocated(h', a)
    ensures forall x :: x != a ==> SameAllocation(h, h', x)
  {
    hide Ok, KeepsPage, LosesPage, SameAllocation, PageOf;
    FreedTables(h, a, h');
    WhoFrees(h, a);
    hide Freed, Owned, Misaligned;
    forall x | x != a ensures SameAllocation(h, h', x) {
      OthersSame(h, h', a, x);
    }
  }

  lemma FreedTables(h: State, a: nat, h': State)
    requires Ok(h) && Freed(h, a, h')
    ensures a in h.live && h'.live == h.live - {a} && h'.pab == h.pab
    ensures h'.held == h.held || h'.held == h.held - {PageOf(a)}
    ensures PageOf(a) in h.held && h.held[PageOf(a)].use.HeapPage?
  {
    hide Ok, PageOf, KeepsPage, LosesPage;
    if s :| KeepsPage(h, s, a, h') {
      KeptTables(h, s, a, h');
    } else {
      var s, h1 :| LosesPage(h, s, a, h1) && h' == Dropped(h1, PageOf(a));
      LostPage(h, s, a, h1);
    }
    SmallFacts(h, a);
  }

  lemma KeptTables(h: State, s: nat, a: nat, h': State)
    requires KeepsPage(h, s, a, h')
    ensures a in h.live && h'.live == h.live - {a} && h'.pab == h.pab && h'.held == h.held
  {
  }

  // ---------- how much of a page is in use ----------

  ghost function LiveOn(h: State, s: nat): set<nat>
    requires s in h.pab && BlockType(h.pab[s]) < NSIZES
  {
    set a | a in h.live && IsBlock(a, PageAddr(h.pab[s]), BlockType(h.pab[s]))
  }

  ghost function Members(l: seq<nat>): set<nat> { set x | x in l }

  lemma {:induction false} MembersCount(l: seq<nat>)
    requires NoDup(l)
    ensures |Members(l)| == |l|
  {
    if l != [] {
      MembersCount(l[1..]);
      assert l == [l[0]] + l[1..];
      assert Members(l) == {l[0]} + Members(l[1..]);
    } else {
      assert Members(l) == {};
    }
  }

  /** Free and live blocks partition the page, so their numbers add up. */
  lemma PageCounts(h: State, s: nat)
    requires Ok(h) && s in h.all
    ensures s in h.pab && s in h.nfree && BlockType(h.pab[s]) < NSIZES
    ensures h.nfree[s] + |LiveOn(h, s)| == Blocks(BlockType(h.pab[s]))
  {
    hide Ok;
    PageFacts(h, s);
    var page, b := PageAddr(h.pab[s]), BlockType(h.pab[s]);
    SizeFacts(b);
    FreshMembers(page, b);
    FreshChain(h.links, page, Size(b), Blocks(b));
    hide Size, Blocks, PageAddr, BlockType, Fresh, FreshLinks, FreshHead, IsBlock;
    SplitCounts(Fresh(page, Size(b), Blocks(b)), h.free[s], LiveOn(h, s));
  }

  lemma PageFacts(h: State, s: nat)
    requires Ok(h) && s in h.all
    ensures s in h.pab && s in h.nfree && s in h.free && BlockType(h.pab[s]) < NSIZES
    ensures h.nfree[s] == |h.free[s]| && NoDup(h.free[s])
    ensures forall a :: a in h.free[s] ==> IsBlock(a, PageAddr(h.pab[s]), BlockType(h.pab[s]))
    ensures forall a :: IsBlock(a, PageAddr(h.pab[s]), BlockType(h.pab[s])) ==> (a in h.live <==> a !in h.free[s])
  {
    assert SlotOk(h, s) && PageOk(s, h.pab[s], h.offset[s], h.nfree[s], h.links, h.free[s], h.live);
  }

  lemma SplitCounts(all: seq<nat>, free: seq<nat>, live: set<nat>)
    requires NoDup(all) && NoDup(free)
    requires forall x :: x in free ==> x in all && x !in live
    requires forall x :: x in live ==> x in all
    requires forall x :: x in all ==> x in free || x in live
    ensures |free| + |live| == |all|
  {
    MembersCount(all);
    MembersCount(free);
    assert Members(all) == Members(free) + live;
    assert Members(free) !! live;
  }
}
