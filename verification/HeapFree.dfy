/**
  Returning a block to its page, and the page itself once it is entirely free
  (kern/vm/kmalloc.c:872-893, 1074-1204).
*/
module HeapFree {
  import opened Chains
  import opened PageRefs
  import opened HeapState
  import opened HeapSteps
  import opened HeapPages

  predicate OnPage(h: State, s: nat, a: nat) {
    s in h.pab && PageAddr(h.pab[s]) <= a < PageAddr(h.pab[s]) + PAGE
  }

  predicate Aligned(h: State, s: nat, a: nat) {
    OnPage(h, s, a) && BlockType(h.pab[s]) < NSIZES && (a - PageAddr(h.pab[s])) % Size(BlockType(h.pab[s])) == 0
  }

  /** `a` is a live block of listed page `s`. */
  ghost predicate Returns(h: State, s: nat, a: nat) {
    && s in h.all && s in h.offset && s in h.nfree && s in h.free
    && Aligned(h, s, a) && a in h.live
  }

  ghost predicate Owned(h: State, a: nat) {
    exists s :: s in h.all && OnPage(h, s, a)
  }

  ghost predicate Misaligned(h: State, a: nat) {
    exists s :: s in h.all && OnPage(h, s, a) && !Aligned(h, s, a)
  }

  /** `a` is a block of listed page `s` that is free already. */
  ghost predicate FreeAlready(h: State, s: nat, a: nat) {
    s in h.all && s in h.offset && s in h.nfree && s in h.free && Aligned(h, s, a) && a !in h.live
  }

  ghost predicate Again(h: State, a: nat) {
    exists s :: FreeAlready(h, s, a)
  }

  /** And it is the first of the page's free list. */
  ghost predicate AtHead(h: State, a: nat) {
    exists s :: FreeAlready(h, s, a) && h.offset[s] == a - PageAddr(h.pab[s])
  }

  /** One more free block and page `s` is entirely free. */
  ghost predicate Empties(h: State, s: nat) {
    s in h.pab && s in h.nfree && BlockType(h.pab[s]) < NSIZES && h.nfree[s] + 1 == Blocks(BlockType(h.pab[s]))
  }

  /** At most one page holds any address. */
  lemma OneOwner(h: State, s: nat, t: nat, a: nat)
    requires Core(h) && s in h.all && t in h.all && OnPage(h, s, a) && OnPage(h, t, a)
    ensures s == t
  {
    assert SlotOk(h, s) && SlotOk(h, t);
    assert PageAddr(h.pab[s]) == PageAddr(h.pab[t]);
  }

  lemma OwnerFields(h: State, s: nat)
    requires Core(h) && s in h.all
    ensures s in h.pab && s in h.offset && s in h.nfree && s in h.free && BlockType(h.pab[s]) < NSIZES
    ensures |h.roots| == NROOTS && s < NROOTS * PER_PAGE
  {
    assert SlotOk(h, s);
  }

  lemma AllWalk(h: State)
    requires Core(h)
    ensures h.allbase == At(h.all, 0)
    ensures forall i :: 0 <= i < |h.all| ==>
      h.all[i] in h.nextAll && h.nextAll[h.all[i]] == At(h.all, i + 1) && h.all[i] in h.pab
  {
    hide PageOk, Held, LiveOk, BlockType, PageAddr, Bit;
    forall i | 0 <= i < |h.all| ensures h.all[i] in h.pab {
      assert SlotOk(h, h.all[i]);
    }
  }

  ghost function IndexOf(l: seq<nat>, x: nat): (k: nat)
    requires x in l
    ensures k < |l| && l[k] == x
  {
    var k: nat :| k < |l| && l[k] == x;
    k
  }

  // ---------- retiring a page ----------

  ghost predicate Retirable(h: State, s: nat) {
    && |h.sizebases| == NSIZES == |h.same|
    && s in h.pab && BlockType(h.pab[s]) < NSIZES
    && Chain(h.sizebases[BlockType(h.pab[s])], h.nextSame, h.same[BlockType(h.pab[s])])
    && s in h.same[BlockType(h.pab[s])] && s in h.nextSame
    && Chain(h.allbase, h.nextAll, h.all) && s in h.all && s in h.nextAll
    && RootsOk(h.roots) && Bit(h.roots, s) && h.roots[s / PER_PAGE].page != 0 && 0 < h.roots[s / PER_PAGE].numinuse
  }

  lemma ListedRetirable(h: State, s: nat)
    requires Core(h) && s in h.all
    ensures Retirable(h, s)
  {
    assert SlotOk(h, s);
    var b := BlockType(h.pab[s]);
    PutOk(h.roots, s, false);
    hide Bit, RootOk, PageOk, BlockType, PageAddr, LiveOk, Held;
    assert SizeList(h.sizebases[b], h.nextSame, h.same[b], h.all, h.pab, b);
    assert s in h.same[b];
    var i, j := IndexOf(h.all, s), IndexOf(h.same[b], s);
    assert h.all[i] in h.nextAll && h.same[b][j] in h.nextSame;
  }

  /** Unlisted from both lists, its descriptor released, the page in the caller's hands. */
  ghost function Retired(h: State, s: nat): State
    requires Retirable(h, s)
  {
    var b := BlockType(h.pab[s]);
    Removed(h, b, IndexOf(h.all, s), IndexOf(h.same[b], s))
  }

  lemma RetireOk(h: State, s: nat)
    requires Core(h) && s in h.all && FullyFree(h, s)
    requires forall t :: t in h.all && t != s ==> !FullyFree(h, t)
    ensures Retirable(h, s) && Ok(Retired(h, s))
  {
    ListedRetirable(h, s);
    var b := BlockType(h.pab[s]);
    var ka, ks := IndexOf(h.all, s), IndexOf(h.same[b], s);
    RemoveCore(h, b, ka, ks);
    WithoutMembers(h.all, ka);
    hide Core, BlockType, Blocks, PageAddr, Without, Put, Bit;
    var h' := Retired(h, s);
    forall t | t in h'.all ensures !FullyFree(h', t) {
      assert !FullyFree(h, t);
    }
  }

  // ---------- returning a block ----------

  /** The outcomes of returning block `a` to page `s`: the page stays, goes, or cannot go. */
  ghost predicate KeepsPage(h: State, s: nat, a: nat, h': State) {
    Returns(h, s, a) && !Empties(h, s) && h' == Pushed(h, s, a)
  }

  ghost predicate LosesPage(h: State, s: nat, a: nat, h': State) {
    && Returns(h, s, a) && Empties(h, s) && !Stranded(h.roots, s)
    && Retirable(Pushed(h, s, a), s) && h' == Retired(Pushed(h, s, a), s)
  }

  ghost predicate CannotRetire(h: State, s: nat, a: nat) {
    Returns(h, s, a) && Empties(h, s) && Stranded(h.roots, s)
  }

  ghost predicate Stuck(h: State, a: nat) {
    exists s :: CannotRetire(h, s, a)
  }

  // ---------- a block that is free already ----------

  /** The block is put on the free list a second time; then the page goes if its count has become full. */
  ghost predicate FreedTwice(h: State, s: nat, a: nat, h': State) {
    && FreeAlready(h, s, a)
    && var h1 := Pushed(h, s, a);
    if Empties(h, s) then Retirable(h1, s) && h' == Retired(h1, s) else h' == h1
  }

  lemma PushedRetirable(h: State, s: nat, a: nat)
    requires Core(h) && s in h.all && s in h.offset && s in h.nfree && s in h.free && OnPage(h, s, a)
    ensures Retirable(Pushed(h, s, a), s)
  {
    ListedRetirable(h, s);
    hide Core, BlockType, PageAddr, Chain, Bit;
  }

  /** The head of a free list is a free block. */
  lemma HeadIsFree(h: State, s: nat, a: nat)
    requires Core(h) && s in h.all && Aligned(h, s, a) && s in h.offset && h.offset[s] == a - PageAddr(h.pab[s])
    ensures FreeAlready(h, s, a) && h.free[s] != [] && h.free[s][0] == a
  {
    assert SlotOk(h, s) && PageOk(s, h.pab[s], h.offset[s], h.nfree[s], h.links, h.free[s], h.live);
    hide Core, BlockType, PageAddr, Size, Bit;
    assert h.free[s] != [] && h.free[s][0] == a;
    assert a in h.free[s];
  }

  /** What holds of an address's one page decides what holds of the address. */
  lemma OnlyOwner(h: State, s: nat, a: nat)
    requires Core(h) && s in h.all && OnPage(h, s, a)
    ensures Owned(h, a) && (Misaligned(h, a) <==> !Aligned(h, s, a))
    ensures Stuck(h, a) <==> CannotRetire(h, s, a)
    ensures Again(h, a) <==> FreeAlready(h, s, a)
    ensures AtHead(h, a) <==> FreeAlready(h, s, a) && h.offset[s] == a - PageAddr(h.pab[s])
  {
    hide Core, PageAddr, BlockType, Size, Blocks, Stranded;
    forall u | u in h.all && OnPage(h, u, a) ensures u == s { OneOwner(h, s, u, a); }
  }

  lemma ReturnCore(h: State, s: nat, a: nat)
    requires Ok(h) && Returns(h, s, a)
    ensures Core(Pushed(h, s, a))
    ensures forall t :: t in h.all && t != s ==> !FullyFree(Pushed(h, s, a), t)
    ensures FullyFree(Pushed(h, s, a), s) <==> Empties(h, s)
  {
    hide Core, NoneFullyFree, BlockType, Blocks, PageAddr, Size;
    PushCore(h, s, a);
    PushedFull(h, s, a);
  }

  lemma PushedFull(h: State, s: nat, a: nat)
    requires NoneFullyFree(h) && Returns(h, s, a)
    ensures forall t :: t in h.all && t != s ==> !FullyFree(Pushed(h, s, a), t)
    ensures FullyFree(Pushed(h, s, a), s) <==> Empties(h, s)
  {
    hide BlockType, Blocks, PageAddr, Size;
    var h' := Pushed(h, s, a);
    forall t | t in h.all && t != s ensures !FullyFree(h', t) {
      assert !FullyFree(h, t);
    }
  }

  lemma ReturnOk(h: State, s: nat, a: nat)
    requires Ok(h) && Returns(h, s, a)
    ensures !Empties(h, s) ==> Ok(Pushed(h, s, a))
    ensures Empties(h, s) ==> Retirable(Pushed(h, s, a), s) && Ok(Retired(Pushed(h, s, a), s))
  {
    ReturnCore(h, s, a);
    var h' := Pushed(h, s, a);
    hide Core, BlockType, Blocks, PageAddr, Pushed;
    assert h'.all == h.all by { KeptAll(h, s, a); }
    if Empties(h, s) {
      RetireOk(h', s);
    }
  }

  lemma KeptAll(h: State, s: nat, a: nat)
    requires Returns(h, s, a)
    ensures Pushed(h, s, a).all == h.all && Pushed(h, s, a).roots == h.roots
  {
  }
}
