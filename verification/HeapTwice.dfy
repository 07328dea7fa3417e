/**
  Freeing a block that is free already (kern/vm/kmalloc.c:1156-1195): the source looks only
  at the head of the page's free list. When the block is further down, one of three things
  happens at the end of the call. While the page's count stays below the full page, the free
  list is a cycle, and no reading of the tables is a heap any more. When the count reaches it,
  the page is given back although one of its blocks is allocated, unless an assertion fails.
*/
module HeapTwice {
  import opened Basics
  import opened Chains
  import opened PageRefs
  import opened HeapState
  import opened HeapSteps
  import opened HeapPages
  import opened HeapFree
  import opened Allocations
  import opened KMalloc
  import HeapRuns
  import HeapLeak

  /** Some heap that keeps the invariant has these tables. */
  ghost predicate Readable(t: Tables) {
    exists h :: TablesOf(h) == t && Core(h)
  }

  /** A chain that leads through `l` to its own base has no end. */
  lemma {:induction false} Follows(base: nat, next: Links, m: seq<nat>, l: seq<nat>, i: nat)
    requires Chain(Some(base), next, m) && base in next && next[base] == At(l, 0)
    requires i < |l| && (forall j :: 0 <= j < i ==> l[j] in next && next[l[j]] == At(l, j + 1))
    ensures i + 1 < |m| && m[i + 1] == l[i]
    decreases i
  {
    assert m[0] == base;
    if i == 0 {
      ChainLeads(Some(base), next, m, 0);
    } else {
      Follows(base, next, m, l, i - 1);
      ChainLeads(Some(base), next, m, i);
    }
  }

  lemma NoCycle(base: nat, next: Links, m: seq<nat>, l: seq<nat>, k: nat)
    requires base in next && next[base] == At(l, 0) && k < |l| && l[k] == base
    requires forall j :: 0 <= j < k ==> l[j] in next && next[l[j]] == At(l, j + 1)
    ensures !Chain(Some(base), next, m)
  {
    if Chain(Some(base), next, m) {
      assert m[0] == base;
      Follows(base, next, m, l, k);
    }
  }

  lemma FreeListed(h: State, s: nat, a: nat)
    requires Core(h) && FreeAlready(h, s, a)
    ensures a in h.free[s] && Chain(FreeBase(PageAddr(h.pab[s]), h.offset[s]), h.links, h.free[s])
    ensures a - PageAddr(h.pab[s]) != INVALID
  {
    assert SlotOk(h, s) && PageOk(s, h.pab[s], h.offset[s], h.nfree[s], h.links, h.free[s], h.live);
    assert IsBlock(a, PageAddr(h.pab[s]), BlockType(h.pab[s]));
  }

  lemma ChainStarts(h: State, s: nat)
    requires s in h.pab && s in h.offset && s in h.free && Chain(FreeBase(PageAddr(h.pab[s]), h.offset[s]), h.links, h.free[s])
    ensures FreeBase(PageAddr(h.pab[s]), h.offset[s]) == At(h.free[s], 0)
  {
  }

  lemma ListedChain(h: State, s: nat)
    requires Core(h) && s in h.all
    ensures s in h.pab && s in h.offset && s in h.free
    ensures Chain(FreeBase(PageAddr(h.pab[s]), h.offset[s]), h.links, h.free[s])
  {
    assert SlotOk(h, s) && PageOk(s, h.pab[s], h.offset[s], h.nfree[s], h.links, h.free[s], h.live);
  }

  lemma SameListed(h: State, h': State)
    requires Core(h) && Core(h') && h'.allbase == h.allbase && h'.nextAll == h.nextAll
    ensures h'.all == h.all
  {
    ChainUnique(h.allbase, h.nextAll, h.all, h'.all);
  }

  /** No heap has the tables in which a block is on its page's free list twice. */
  lemma Unreadable(h: State, s: nat, a: nat, h': State)
    requires Core(h) && FreeAlready(h, s, a) && TablesOf(h') == TablesOf(Pushed(h, s, a))
    ensures !Core(h')
  {
    hide Core, PageAddr, BlockType, Size, Chain;
    FreeListed(h, s, a);
    if Core(h') {
      SameListed(h, h');
      ListedChain(h', s);
      var l, next := h.free[s], h'.links;
      var k := FirstIndex(l, a);
      forall j | 0 <= j < k ensures l[j] in next && next[l[j]] == At(l, j + 1) {
        ChainLeads(FreeBase(PageAddr(h.pab[s]), h.offset[s]), h.links, l, j);
      }
      ChainStarts(h, s);
      NoCycle(a, next, h'.free[s], l, k);
    }
  }

  lemma {:induction false} FirstIndex(l: seq<nat>, a: nat) returns (k: nat)
    requires a in l
    ensures k < |l| && l[k] == a && forall j :: 0 <= j < k ==> l[j] != a
  {
    if l[0] == a {
      k := 0;
    } else {
      k := FirstIndex(l[1..], a);
      k := k + 1;
    }
  }

  // ---------- the end of the call ----------

  /** The call gets past its assertions: the block is not at the head of the list, and no root is in the way of a page that goes. */
  ghost predicate Finishes(h: State, s: nat, a: nat) {
    && s in h.all && s in h.offset && s in h.nfree && s in h.free && Aligned(h, s, a)
    && h.offset[s] != a - PageAddr(h.pab[s])
    && !(Empties(h, s) && Stranded(h.roots, s))
  }

  /** The state it ends in. */
  ghost function After(h: State, s: nat, a: nat): State
    requires Core(h) && Finishes(h, s, a)
  {
    PushedRetirable(h, s, a);
    if Empties(h, s) then Retired(Pushed(h, s, a), s) else Pushed(h, s, a)
  }

  /** Some heap has these tables, and in it every allocation but `a` is as it was. */
  ghost predicate OthersSurvive(h: State, a: nat, t: Tables) {
    exists h' :: TablesOf(h') == t && LeavesOthers(h, a, h')
  }

  ghost predicate LeavesOthers(h: State, a: nat, h': State) {
    Ok(h') && forall x :: x != a ==> SameAllocation(h, h', x)
  }

  // ---------- the page that is given back ----------

  lemma OnlyMember(l: set<nat>) returns (x: nat)
    requires |l| == 1
    ensures l == {x}
  {
    x :| x in l;
    assert |l - {x}| == 0;
    assert l == {x};
  }

  lemma LiveReturns(h: State, s: nat, x: nat)
    requires Core(h) && s in h.all && s in h.pab && BlockType(h.pab[s]) < NSIZES && x in LiveOn(h, s)
    ensures Returns(h, s, x)
  {
    OwnerFields(h, s);
    hide Core, Size, PageAddr, BlockType;
  }

  /** All blocks but one are free, so one is allocated, and it is not the one freed again. */
  lemma OneLeft(h: State, s: nat, a: nat) returns (x: nat)
    requires Ok(h) && FreeAlready(h, s, a) && Empties(h, s)
    ensures LiveOn(h, s) == {x} && x in h.live && x != a && Returns(h, s, x)
    ensures PageOf(x) == PageOf(a) == PageAddr(h.pab[s])
  {
    hide Core, NoneFullyFree, Blocks, Size, PageAddr, BlockType, PageOf, LiveOn;
    PageCounts(h, s);
    x := OnlyMember(LiveOn(h, s));
    LiveReturns(h, s, x);
    PageOfBlock(h, s, a);
    PageOfBlock(h, s, x);
  }

  /** What a heap does not look at: the free list and the count of a page that is not listed. */
  ghost predicate DiffersOffList(h: State, h': State, page: nat) {
    && h' == h.(links := h'.links, offset := h'.offset, nfree := h'.nfree)
    && (forall u :: u in h.all && u in h.offset ==> u in h'.offset && h'.offset[u] == h.offset[u])
    && (forall u :: u in h.all && u in h.nfree ==> u in h'.nfree && h'.nfree[u] == h.nfree[u])
    && (forall y :: y in h.links && PageOf(y) != page ==> y in h'.links && h'.links[y] == h.links[y])
  }

  lemma SlotOffList(h: State, h': State, page: nat, u: nat)
    requires Core(h) && DiffersOffList(h, h', page) && u in h.all && PageAddr(h.pab[u]) != page
    ensures SlotOk(h', u) && PageOk(u, h'.pab[u], h'.offset[u], h'.nfree[u], h'.links, h'.free[u], h'.live)
  {
    assert SlotOk(h, u) && PageOk(u, h.pab[u], h.offset[u], h.nfree[u], h.links, h.free[u], h.live);
    var l, p, b := h.free[u], PageAddr(h.pab[u]), BlockType(h.pab[u]);
    hide Core, Size, BlockType, Bit;
    forall i | 0 <= i < |l| ensures l[i] in h'.links && h'.links[l[i]] == h.links[l[i]] {
      assert l[i] in l;
      BlockPage(l[i], p, b);
    }
  }

  lemma CoreOffList(h: State, h': State, page: nat)
    requires Core(h) && DiffersOffList(h, h', page)
    requires forall u :: u in h.all && u in h.pab ==> PageAddr(h.pab[u]) != page
    ensures Core(h')
  {
    hide PageOk, Bit, Size, PageAddr, BlockType, IsBlock, PageOf, UseOk, Apart;
    ListsFrame(h, h');
    HeldFrame(h, h');
    hide Lists, Held;
    forall u | u in h.all
      ensures SlotOk(h', u) && PageOk(u, h'.pab[u], h'.offset[u], h'.nfree[u], h'.links, h'.free[u], h'.live)
    {
      assert SlotOk(h, u);
      SlotOffList(h, h', page, u);
    }
    hide SlotOk;
    forall x | x in h'.live ensures LiveOk(h', x) {
      assert LiveOk(h, x);
    }
  }

  /** The two blocks of a page lead to the same tables when the page goes, but for what nobody reads any more. */
  ghost function Patched(h: State, s: nat, a: nat, x: nat): State
    requires s in h.all && s in h.offset && s in h.nfree && s in h.free && OnPage(h, s, a) && OnPage(h, s, x)
    requires Retirable(Pushed(h, s, x), s)
  {
    var h1 := Pushed(h, s, a);
    Retired(Pushed(h, s, x), s).(links := h1.links, offset := h1.offset, nfree := h1.nfree)
  }

  lemma PatchedTables(h: State, s: nat, a: nat, x: nat)
    requires s in h.all && s in h.offset && s in h.nfree && s in h.free && OnPage(h, s, a) && OnPage(h, s, x)
    requires Retirable(Pushed(h, s, x), s) && Retirable(Pushed(h, s, a), s)
    ensures TablesOf(Patched(h, s, a, x)) == TablesOf(Retired(Pushed(h, s, a), s))
  {
    hide PageAddr, BlockType, Without, Put, Bit, IndexOf, Chain;
  }

  lemma RetiredListed(h: State, s: nat, x: nat)
    requires Core(h) && s in h.all && s in h.offset && s in h.nfree && s in h.free && OnPage(h, s, x)
    requires Retirable(Pushed(h, s, x), s)
    ensures var h3 := Retired(Pushed(h, s, x), s);
      h3.pab == h.pab && forall u :: u in h3.all ==> u in h.all && u != s
  {
    var k := IndexOf(h.all, s);
    WithoutMembers(h.all, k);
    assert Retired(Pushed(h, s, x), s).all == Without(h.all, k) by {
      hide PageAddr, BlockType, Without, Put, Bit, IndexOf, Chain, Core;
    }
    hide Core, Retired, Without;
    RetiredPab(h, s, x);
  }

  lemma RetiredPab(h: State, s: nat, x: nat)
    requires s in h.pab && s in h.offset && s in h.nfree && s in h.free && OnPage(h, s, x) && Retirable(Pushed(h, s, x), s)
    ensures var h1 := Pushed(h, s, x); var h3 := Retired(h1, s);
      h3.pab == h.pab && h3.links == h1.links && h3.offset == h1.offset && h3.nfree == h1.nfree
  {
    hide PageAddr, BlockType, Without, Put, Bit, IndexOf, Chain;
  }

  /** No page still listed is the one that went. */
  lemma GoneFromLists(h: State, s: nat, x: nat)
    requires Core(h) && s in h.all && s in h.offset && s in h.nfree && s in h.free && OnPage(h, s, x)
    requires Retirable(Pushed(h, s, x), s)
    ensures var h3 := Retired(Pushed(h, s, x), s);
      forall u :: u in h3.all && u in h3.pab ==> PageAddr(h3.pab[u]) != PageAddr(h.pab[s])
  {
    RetiredListed(h, s, x);
    hide Core, Retired, PageAddr, Retirable;
    var h3 := Retired(Pushed(h, s, x), s);
    forall u | u in h3.all && u in h3.pab ensures PageAddr(h3.pab[u]) != PageAddr(h.pab[s]) {
      if PageAddr(h.pab[u]) == PageAddr(h.pab[s]) { OneOwner(h, s, u, x); }
    }
  }

  lemma PatchedDiffers(h: State, s: nat, a: nat, x: nat)
    requires Core(h) && s in h.all && s in h.offset && s in h.nfree && s in h.free && OnPage(h, s, a) && OnPage(h, s, x)
    requires Retirable(Pushed(h, s, x), s)
    ensures DiffersOffList(Retired(Pushed(h, s, x), s), Patched(h, s, a, x), PageAddr(h.pab[s]))
  {
    hide Core, Retired, PageAddr, PageOf, Retirable;
    PageOfBlock(h, s, a);
    PageOfBlock(h, s, x);
    RetiredListed(h, s, x);
    RetiredPab(h, s, x);
  }

  lemma PatchedOk(h: State, s: nat, a: nat, x: nat)
    requires Ok(h) && Returns(h, s, x) && Empties(h, s) && OnPage(h, s, a)
    ensures Retirable(Pushed(h, s, x), s) && Ok(Patched(h, s, a, x))
  {
    hide Core, NoneFullyFree, Empties, PageAddr, BlockType, Size, Retired, Retirable;
    ReturnOk(h, s, x);
    GoneFromLists(h, s, x);
    PatchedDiffers(h, s, a, x);
    var h3, h2 := Retired(Pushed(h, s, x), s), Patched(h, s, a, x);
    CoreOffList(h3, h2, PageAddr(h.pab[s]));
    StillNoneFull(h3, h2, PageAddr(h.pab[s]));
  }

  lemma StillNoneFull(h: State, h': State, page: nat)
    requires Core(h) && NoneFullyFree(h) && DiffersOffList(h, h', page)
    ensures NoneFullyFree(h')
  {
    forall u | u in h'.all ensures !FullyFree(h', u) {
      assert SlotOk(h, u) && !FullyFree(h, u);
    }
  }

  /**
    When a second free makes a page's count full, the page is given back. The tables are those
    of a heap again, but one block of that page is allocated, and is the only one.
  */
  lemma TwiceEmptied(h: State, s: nat, a: nat) returns (x: nat)
    requires Ok(h) && FreeAlready(h, s, a) && Empties(h, s)
    ensures LiveOn(h, s) == {x} && x in h.live && x != a && PageOf(x) == PageOf(a)
    ensures Retirable(Pushed(h, s, a), s) && Readable(TablesOf(Retired(Pushed(h, s, a), s)))
  {
    hide Core, NoneFullyFree, Empties, PageAddr, BlockType, Size, Retired, Retirable, LiveOn, PageOf, Patched;
    x := OneLeft(h, s, a);
    PushedRetirable(h, s, a);
    PatchedOk(h, s, a, x);
    PatchedTables(h, s, a, x);
    var h2 := Patched(h, s, a, x);
    assert TablesOf(h2) == TablesOf(Retired(Pushed(h, s, a), s)) && Core(h2);
  }

  /** Otherwise no heap has the tables. */
  lemma TwiceKept(h: State, s: nat, a: nat)
    requires Core(h) && FreeAlready(h, s, a)
    ensures !Readable(TablesOf(Pushed(h, s, a)))
  {
    hide Core, PageAddr, BlockType, Size;
    if Readable(TablesOf(Pushed(h, s, a))) {
      var h' :| TablesOf(h') == TablesOf(Pushed(h, s, a)) && Core(h');
      Unreadable(h, s, a, h');
    }
  }

  // ---------- what survives ----------

  lemma FreedSurvives(h: State, s: nat, a: nat)
    requires Ok(h) && Finishes(h, s, a) && a in h.live
    ensures OthersSurvive(h, a, TablesOf(After(h, s, a)))
  {
    hide Core, NoneFullyFree, Empties, PageAddr, BlockType, Size, Retired, Retirable, Stranded, PageOf, SameAllocation, Freed;
    var h1 := After(h, s, a);
    ReturnOk(h, s, a);
    var h2 := h1;
    if Empties(h, s) {
      assert LosesPage(h, s, a, h1);
      LostPage(h, s, a, h1);
      h2 := Dropped(h1, PageOf(a));
      DropOk(h1, PageOf(a));
      FreedByLosing(h, s, a, h1);
    } else {
      FreedByKeeping(h, s, a, h1);
    }
    FreesOne(h, a, h2);
    assert TablesOf(h2) == TablesOf(h1) && LeavesOthers(h, a, h2);
  }

  lemma FreedByLosing(h: State, s: nat, a: nat, h1: State)
    requires LosesPage(h, s, a, h1)
    ensures Freed(h, a, Dropped(h1, PageOf(a)))
  {
    hide LosesPage, PageOf;
  }

  lemma FreedByKeeping(h: State, s: nat, a: nat, h1: State)
    requires Returns(h, s, a) && !Empties(h, s) && h1 == Pushed(h, s, a)
    ensures Freed(h, a, h1)
  {
    assert KeepsPage(h, s, a, h1);
    hide KeepsPage;
  }

  /** A block of a page that no list has any more is no allocation of any heap with these lists. */
  lemma NotAllocatedOff(h: State, h': State, x: nat)
    requires Ok(h) && Ok(h') && x in h.live && SameAllocation(h, h', x)
    ensures exists u :: u in h'.all && u in h'.pab && PageAddr(h'.pab[u]) == PageOf(x)
  {
    SmallIsSmall(h, x);
    if x in h'.live {
      hide Ok;
      LiveListed(h', x);
    } else {
      BigIsBig(h', x);
    }
  }

  lemma SmallIsSmall(h: State, x: nat)
    requires Ok(h) && x in h.live
    ensures Bytes(h, x) < PAGE
  {
    BigEnough(h, x);
    SmallFacts(h, x);
    hide Ok;
  }

  lemma BigIsBig(h: State, x: nat)
    requires Ok(h) && Allocated(h, x) && x !in h.live
    ensures Bytes(h, x) >= PAGE
  {
  }

  lemma LiveListed(h: State, x: nat)
    requires Ok(h) && x in h.live
    ensures exists u :: u in h.all && u in h.pab && PageAddr(h.pab[u]) == PageOf(x)
  {
    assert LiveOk(h, x);
  }

  /** The one allocated block of a page given back is gone from every heap that the tables can be read as. */
  lemma BlockLost(h: State, s: nat, a: nat, h': State) returns (x: nat)
    requires Ok(h) && FreeAlready(h, s, a) && Empties(h, s) && Retirable(Pushed(h, s, a), s)
    requires Ok(h') && TablesOf(h') == TablesOf(Retired(Pushed(h, s, a), s))
    ensures x in h.live && x != a && !SameAllocation(h, h', x)
  {
    hide Core, NoneFullyFree, Empties, PageAddr, BlockType, Size, Retired, Retirable, LiveOn, PageOf, SameAllocation;
    x := OneLeft(h, s, a);
    PatchedOk(h, s, a, x);
    PatchedTables(h, s, a, x);
    GoneFromLists(h, s, x);
    SameListed(Patched(h, s, a, x), h');
    RetiredListed(h, s, x);
    if SameAllocation(h, h', x) { NotAllocatedOff(h, h', x); }
  }

  lemma TwiceLoses(h: State, s: nat, a: nat)
    requires Ok(h) && Finishes(h, s, a) && FreeAlready(h, s, a)
    ensures !OthersSurvive(h, a, TablesOf(After(h, s, a)))
  {
    hide Core, NoneFullyFree, Empties, PageAddr, BlockType, Size, Retired, Retirable, Stranded, SameAllocation;
    PushedRetirable(h, s, a);
    if OthersSurvive(h, a, TablesOf(After(h, s, a))) {
      var h' :| TablesOf(h') == TablesOf(After(h, s, a)) && LeavesOthers(h, a, h');
      if Empties(h, s) {
        var x := BlockLost(h, s, a, h');
      } else {
        Unreadable(h, s, a, h');
      }
    }
  }

  /**
    A call that finishes leaves the tables of a heap in which every other allocation is as it
    was if and only if the block it was given was allocated.
  */
  lemma SurvivesIff(h: State, s: nat, a: nat)
    requires Ok(h) && Finishes(h, s, a)
    ensures OthersSurvive(h, a, TablesOf(After(h, s, a))) <==> a in h.live
  {
    hide Core, NoneFullyFree, After, OthersSurvive, Empties, Stranded, Size, PageAddr, BlockType;
    if a in h.live { FreedSurvives(h, s, a); } else { TwiceLoses(h, s, a); }
  }

  /** `After` is the state that the call ends in, for a block that was allocated and for one that was not. */
  lemma EndsInAfter(h: State, s: nat, a: nat, h': State)
    requires Core(h) && Finishes(h, s, a) && (KeepsPage(h, s, a, h') || LosesPage(h, s, a, h') || FreedTwice(h, s, a, h'))
    ensures h' == After(h, s, a)
  {
    hide Core, Empties, PageAddr, BlockType, Size, Retired, Retirable, Stranded;
  }

  // ---------- such a call ----------

  /** On every page with two free blocks, the second one of the list can be freed again unnoticed. */
  lemma SecondFree(h: State, s: nat)
    requires Ok(h) && s in h.all && s in h.free && 2 <= |h.free[s]| && !Stranded(h.roots, s)
    ensures FreeAlready(h, s, h.free[s][1]) && Finishes(h, s, h.free[s][1])
  {
    hide Core, NoneFullyFree, PageAddr, BlockType, Size, Stranded, Blocks;
    var l := h.free[s];
    PageFacts(h, s);
    OwnerFields(h, s);
    PageWalk(h, s);
    assert l[1] in l && l[0] != l[1];
    assert IsBlock(l[1], PageAddr(h.pab[s]), BlockType(h.pab[s]));
  }

  /** And a run from an empty heap leads to one: a first small request leaves a page with one block taken. */
  lemma TwiceCanHappen() returns (g: HeapRuns.System, s: nat, a: nat)
    ensures HeapLeak.Reachable(g) && Ok(g.h) && FreeAlready(g.h, s, a) && Finishes(g.h, s, a)
    ensures !OthersSurvive(g.h, a, TablesOf(After(g.h, s, a)))
  {
    hide *;
    var h;
    g, h := HeapLeak.FirstBlock();
    s, a := 0, h.free[0][1];
    SecondFree(h, s);
    TwiceLoses(h, s, a);
  }
}
