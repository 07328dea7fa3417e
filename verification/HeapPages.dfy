/**
  The heap's updates of whole pages: threading a fresh page's free list and listing it,
  and unlisting a page that became entirely free (kern/vm/kmalloc.c:1037-1062, 1184-1192).
*/
module HeapPages {
  import opened Basics
  import opened Chains
  import opened PageRefs
  import opened HeapState
  import opened HeapSteps
  import opened Arith

  // ---------- the free list of a fresh page ----------

  function BlockAddr(page: nat, z: nat, i: nat): nat { page + i * z }

  /** The first `k` blocks of a page, last one first. */
  function Fresh(page: nat, z: nat, k: nat): seq<nat> {
    if k == 0 then [] else [BlockAddr(page, z, k - 1)] + Fresh(page, z, k - 1)
  }

  function FreshHead(page: nat, z: nat, k: nat): Option<nat> {
    if k == 0 then None else Some(BlockAddr(page, z, k - 1))
  }

  /** The links after threading the first `k` blocks, each to the one before it. */
  function FreshLinks(links: Links, page: nat, z: nat, k: nat): Links {
    if k == 0 then links
    else FreshLinks(links, page, z, k - 1)[BlockAddr(page, z, k - 1) := FreshHead(page, z, k - 1)]
  }

  lemma {:induction false} FreshIs(page: nat, z: nat, k: nat, a: nat) returns (i: nat)
    requires a in Fresh(page, z, k)
    ensures i < k && a == BlockAddr(page, z, i)
  {
    hide BlockAddr;
    if a == BlockAddr(page, z, k - 1) {
      i := k - 1;
    } else {
      i := FreshIs(page, z, k - 1, a);
    }
  }

  lemma {:induction false} FreshHas(page: nat, z: nat, k: nat, i: nat)
    requires i < k
    ensures BlockAddr(page, z, i) in Fresh(page, z, k)
  {
    hide BlockAddr;
    if i < k - 1 { FreshHas(page, z, k - 1, i); }
  }

  lemma FreshNew(page: nat, z: nat, k: nat)
    requires 0 < z
    ensures BlockAddr(page, z, k) !in Fresh(page, z, k)
  {
    if BlockAddr(page, z, k) in Fresh(page, z, k) {
      var i := FreshIs(page, z, k, BlockAddr(page, z, k));
      MulMono(i + 1, k, z);
      MulDistrib(i, 1, z);
    }
  }

  lemma {:induction false} FreshChain(links: Links, page: nat, z: nat, k: nat)
    requires 0 < z
    ensures Chain(FreshHead(page, z, k), FreshLinks(links, page, z, k), Fresh(page, z, k))
    ensures |Fresh(page, z, k)| == k
  {
    hide Chain, BlockAddr;
    if k > 0 {
      FreshChain(links, page, z, k - 1);
      FreshNew(page, z, k - 1);
      ChainPush(FreshHead(page, z, k - 1), FreshLinks(links, page, z, k - 1), Fresh(page, z, k - 1), BlockAddr(page, z, k - 1));
    } else {
      ChainEmpty(links);
    }
  }

  lemma {:induction false} FreshLinksElsewhere(links: Links, page: nat, z: nat, k: nat, x: nat)
    requires x !in Fresh(page, z, k)
    ensures x in FreshLinks(links, page, z, k) <==> x in links
    ensures x in links ==> FreshLinks(links, page, z, k)[x] == links[x]
  {
    hide BlockAddr;
    if k > 0 {
      assert Fresh(page, z, k) == [BlockAddr(page, z, k - 1)] + Fresh(page, z, k - 1);
      FreshLinksElsewhere(links, page, z, k - 1, x);
    }
  }

  /** The threaded addresses are exactly the page's blocks. */
  lemma FreshMembers(page: nat, b: nat)
    requires b < NSIZES
    ensures forall a :: a in Fresh(page, Size(b), Blocks(b)) <==> IsBlock(a, page, b)
  {
    var z, n := Size(b), Blocks(b);
    forall a | a in Fresh(page, z, n) ensures IsBlock(a, page, b) {
      var i := FreshIs(page, z, n, a);
      BlockAt(i, page, b);
    }
    forall a | IsBlock(a, page, b) ensures a in Fresh(page, z, n) {
      IndexFacts(a, page, b);
      FreshHas(page, z, n, Index(a, page, b));
    }
  }

  function LastOffset(b: nat): (r: nat)
    requires b < NSIZES
    ensures r < PAGE
  {
    SizeFacts(b);
    MulDistrib(Blocks(b) - 1, 1, Size(b));
    (Blocks(b) - 1) * Size(b)
  }

  /** Threading a whole page gives a free list of all its blocks. */
  lemma FreshPage(s: nat, links: Links, page: nat, b: nat, live: map<nat, nat>)
    requires b < NSIZES && page % PAGE == 0
    requires forall a :: a in live ==> !IsBlock(a, page, b)
    ensures PageOk(s, Pack(page, b), LastOffset(b), Blocks(b),
                   FreshLinks(links, page, Size(b), Blocks(b)), Fresh(page, Size(b), Blocks(b)), live)
  {
    hide Chain, Fresh, FreshLinks, FreshHead, IsBlock, Size, Blocks, Pack, PageAddr, BlockType, LastOffset;
    PackParts(page, b);
    SizeFacts(b);
    FreshChain(links, page, Size(b), Blocks(b));
    FreshMembers(page, b);
    LastIsHead(page, b);
  }

  lemma LastIsHead(page: nat, b: nat)
    requires b < NSIZES
    ensures Some(page + LastOffset(b)) == FreshHead(page, Size(b), Blocks(b))
  {
    SizeFacts(b);
    hide Size, Blocks;
  }

  /** A page is unaffected by changes to links outside its free list. */
  lemma PageLinks(t: nat, pab: nat, offset: nat, nfree: nat, links: Links, free: seq<nat>, live: map<nat, nat>, links': Links)
    requires PageOk(t, pab, offset, nfree, links, free, live)
    requires forall x :: x in free && x in links ==> x in links' && links'[x] == links[x]
    ensures PageOk(t, pab, offset, nfree, links', free, live)
  {
    forall i | 0 <= i < |free| ensures free[i] in links' && links'[free[i]] == At(free, i + 1) {
      assert free[i] in free;
    }
  }

  // ---------- listing a page ----------

  function Published(h: State, s: nat, page: nat, b: nat): State
    requires b < NSIZES && |h.sizebases| == NSIZES == |h.same|
  {
    h.(sizebases := h.sizebases[b := Some(s)], allbase := Some(s),
       nextSame := h.nextSame[s := h.sizebases[b]], nextAll := h.nextAll[s := h.allbase],
       pab := h.pab[s := Pack(page, b)],
       offset := h.offset[s := LastOffset(b)],
       nfree := h.nfree[s := Blocks(b)],
       links := FreshLinks(h.links, page, Size(b), Blocks(b)),
       all := [s] + h.all,
       same := h.same[b := [s] + h.same[b]],
       free := h.free[s := Fresh(page, Size(b), Blocks(b))],
       pending := h.pending - {s},
       held := h.held[page := Holding(1, HeapPage(s))])
  }

  lemma PublishLists(h: State, s: nat, page: nat, b: nat)
    requires Lists(h) && b < NSIZES && s !in h.all && page % PAGE == 0
    ensures Lists(Published(h, s, page, b))
  {
    var h' := Published(h, s, page, b);
    PackParts(page, b);
    ChainPush(h.allbase, h.nextAll, h.all, s);
    hide Chain, SizeList, Fresh, FreshLinks, Size, Blocks, Pack, PageAddr, BlockType, LastOffset;
    forall c | 0 <= c < NSIZES ensures SizeList(h'.sizebases[c], h'.nextSame, h'.same[c], h'.all, h'.pab, c) {
      PushSize(h.sizebases[c], h.nextSame, h.same[c], h.all, h.pab, c, s, h'.pab[s], h.sizebases[b]);
    }
  }

  lemma PushSize(base: Option<nat>, next: Links, l: seq<nat>, all: seq<nat>, pab: map<nat, nat>, c: nat, s: nat, x: nat, y: Option<nat>)
    requires SizeList(base, next, l, all, pab, c) && s !in all
    ensures BlockType(x) == c && y == base ==> SizeList(Some(s), next[s := y], [s] + l, [s] + all, pab[s := x], c)
    ensures BlockType(x) != c ==> SizeList(base, next[s := y], l, [s] + all, pab[s := x], c)
  {
    ChainPush(base, next, l, s);
    ChainFrame(base, next, l, s, y);
    hide Chain, BlockType;
  }

  /** No live block lies on a page that is not yet listed. */
  lemma NotLiveYet(h: State, page: nat, b: nat)
    requires forall a :: a in h.live ==> LiveOk(h, a)
    requires b < NSIZES && page in h.held && !h.held[page].use.HeapPage? && page % PAGE == 0
    ensures forall a :: a in h.live ==> !IsBlock(a, page, b)
  {
    forall a | a in h.live ensures !IsBlock(a, page, b) {
      assert LiveOk(h, a);
      if IsBlock(a, page, b) { BlockPage(a, page, b); }
    }
  }

  /** A listed page's free blocks are not among the blocks of a page at another address. */
  lemma FreshElsewhere(t: nat, pab: nat, offset: nat, nfree: nat, links: Links, free: seq<nat>, live: map<nat, nat>, page: nat, b: nat)
    requires PageOk(t, pab, offset, nfree, links, free, live)
    requires b < NSIZES && page % PAGE == 0 && PageAddr(pab) != page
    ensures PageOk(t, pab, offset, nfree, FreshLinks(links, page, Size(b), Blocks(b)), free, live)
  {
    FreshMembers(page, b);
    hide Fresh, FreshLinks, Chain, IsBlock, Size, Blocks, PageAddr, BlockType;
    forall x | x in free && x in links
      ensures x in FreshLinks(links, page, Size(b), Blocks(b))
      ensures FreshLinks(links, page, Size(b), Blocks(b))[x] == links[x]
    {
      OtherBlock(x, pab, page, b);
      FreshLinksElsewhere(links, page, Size(b), Blocks(b), x);
    }
    PageLinks(t, pab, offset, nfree, links, free, live, FreshLinks(links, page, Size(b), Blocks(b)));
  }

  lemma OtherBlock(x: nat, pab: nat, page: nat, b: nat)
    requires b < NSIZES && page % PAGE == 0 && BlockType(pab) < NSIZES && PageAddr(pab) != page
    requires IsBlock(x, PageAddr(pab), BlockType(pab))
    ensures !IsBlock(x, page, b)
  {
    BlockPage(x, PageAddr(pab), BlockType(pab));
    if IsBlock(x, page, b) { BlockPage(x, page, b); }
  }

  lemma PublishPages(h: State, s: nat, page: nat, b: nat)
    requires RootsOk(h.roots) && Pages(h) && |h.sizebases| == |h.same| == NSIZES
    requires b < NSIZES && s !in h.all && Bit(h.roots, s) && h.roots[s / PER_PAGE].page != 0
    requires page % PAGE == 0 && page in h.held && h.held[page] == Holding(1, Transit)
    requires forall a :: a in h.live ==> !IsBlock(a, page, b)
    ensures Pages(Published(h, s, page, b))
  {
    var h' := Published(h, s, page, b);
    PackParts(page, b);
    FreshPage(s, h.links, page, b, h.live);
    hide PageOk, Fresh, FreshLinks, Size, Blocks, Pack, PageAddr, BlockType, IsBlock, Bit, RootOk, LastOffset;
    forall t | t in h'.all
      ensures SlotOk(h', t)
      ensures PageOk(t, h'.pab[t], h'.offset[t], h'.nfree[t], h'.links, h'.free[t], h'.live)
    {
      if t != s {
        assert t in h.all && SlotOk(h, t);
        assert PageAddr(h.pab[t]) != page;
        FreshElsewhere(t, h.pab[t], h.offset[t], h.nfree[t], h.links, h.free[t], h.live, page, b);
      }
    }
  }

  lemma PublishHeld(h: State, s: nat, page: nat, b: nat)
    requires |h.roots| == NROOTS && Held(h) && |h.sizebases| == |h.same| == NSIZES
    requires b < NSIZES && s !in h.all
    requires page in h.held && h.held[page] == Holding(1, Transit)
    ensures Held(Published(h, s, page, b))
  {
    var h' := Published(h, s, page, b);
    PackParts(page, b);
    hide Fresh, FreshLinks, Size, Blocks, Pack, PageAddr, BlockType, Apart, LastOffset;
    forall p | p in h'.held ensures UseOk(h', p) {
      assert UseOk(h, p);
    }
  }

  lemma PublishLive(h: State, s: nat, page: nat, b: nat)
    requires |h.sizebases| == |h.same| == NSIZES && b < NSIZES && s !in h.all
    requires page in h.held && !h.held[page].use.HeapPage?
    requires forall a :: a in h.live ==> LiveOk(h, a)
    ensures forall a :: a in h.live ==> LiveOk(Published(h, s, page, b), a)
  {
    var h' := Published(h, s, page, b);
    hide Fresh, FreshLinks, Size, Blocks, Pack, PageAddr, BlockType, IsBlock, LastOffset;
    forall a | a in h.live ensures LiveOk(h', a) {
      assert LiveOk(h, a);
    }
  }

  /** A slot taken for a new page, and a page obtained for it, may be listed. */
  ghost predicate Ready(h: State, s: nat, page: nat) {
    && RootsOk(h.roots)
    && s in h.pending && s < NROOTS * PER_PAGE && h.roots[s / PER_PAGE].page != 0
    && page in h.held && h.held[page] == Holding(1, Transit)
  }

  lemma PublishCore(h: State, s: nat, page: nat, b: nat)
    requires Core(h) && Ready(h, s, page) && b < NSIZES
    ensures Core(Published(h, s, page, b))
  {
    hide Chain, SizeList, Fresh, FreshLinks, Size, Blocks, Pack, PageAddr, BlockType, IsBlock, Bit, PageOk, LiveOk, LastOffset, RootOk;
    assert s in h.all ==> SlotOk(h, s);
    assert page % PAGE == 0;
    PublishLists(h, s, page, b);
    PublishHeld(h, s, page, b);
    PublishLive(h, s, page, b);
    NotLiveYet(h, page, b);
    PublishPages(h, s, page, b);
    hide Lists, Held, Pages, SlotOk;
  }

  // ---------- unlisting a page ----------

  /** The base and links after unlinking the node at `k`. */
  function UnlinkBase(base: Option<nat>, next: Links, l: seq<nat>, k: nat): Option<nat>
    requires k < |l| && l[k] in next
  {
    if k == 0 then next[l[k]] else base
  }

  function UnlinkLinks(next: Links, l: seq<nat>, k: nat): Links
    requires k < |l| && l[k] in next
  {
    if k == 0 then next else next[l[k - 1] := next[l[k]]]
  }

  /** The state after both list walks of remove_lists. */
  function Unlisted(h: State, b: nat, ka: nat, ks: nat): State
    requires b < NSIZES && |h.sizebases| == NSIZES == |h.same|
    requires ka < |h.all| && h.all[ka] in h.nextAll && ks < |h.same[b]| && h.same[b][ks] in h.nextSame
  {
    h.(allbase := UnlinkBase(h.allbase, h.nextAll, h.all, ka),
       nextAll := UnlinkLinks(h.nextAll, h.all, ka),
       sizebases := h.sizebases[b := UnlinkBase(h.sizebases[b], h.nextSame, h.same[b], ks)],
       nextSame := UnlinkLinks(h.nextSame, h.same[b], ks),
       all := Without(h.all, ka),
       same := h.same[b := Without(h.same[b], ks)])
  }

  /** Both lists lose exactly the one page and keep their order. */
  lemma UnlistLists(h: State, b: nat, ka: nat, ks: nat)
    requires Lists(h) && b < NSIZES && ka < |h.all| && ks < |h.same[b]| && h.all[ka] == h.same[b][ks]
    ensures h.all[ka] in h.nextAll && h.same[b][ks] in h.nextSame
    ensures Lists(Unlisted(h, b, ka, ks))
    ensures forall t :: t in Without(h.all, ka) <==> t in h.all && t != h.all[ka]
  {
    ChainUnlink(h.allbase, h.nextAll, h.all, ka);
    WithoutMembers(h.all, ka);
    ChainUnlink(h.sizebases[b], h.nextSame, h.same[b], ks);
    var h' := Unlisted(h, b, ka, ks);
    hide Chain, SizeList, NoDup, Without;
    forall c | 0 <= c < NSIZES ensures SizeList(h'.sizebases[c], h'.nextSame, h'.same[c], h'.all, h'.pab, c) {
      if c == b {
        UnlistSize(h.sizebases[b], h.nextSame, h.same[b], h.all, h.pab, b, ks, h'.all);
      } else {
        UnlistOther(h, b, c, ks, h'.all);
      }
    }
  }

  lemma UnlistSize(base: Option<nat>, next: Links, l: seq<nat>, all: seq<nat>, pab: map<nat, nat>, b: nat, ks: nat, all': seq<nat>)
    requires SizeList(base, next, l, all, pab, b) && ks < |l| && l[ks] in next
    requires forall t :: t in all' <==> t in all && t != l[ks]
    ensures SizeList(UnlinkBase(base, next, l, ks), UnlinkLinks(next, l, ks), Without(l, ks), all', pab, b)
  {
    ChainUnlink(base, next, l, ks);
    WithoutMembers(l, ks);
    hide Chain, BlockType;
  }

  lemma UnlistOther(h: State, b: nat, c: nat, ks: nat, all': seq<nat>)
    requires Lists(h) && b < NSIZES && c < NSIZES && b != c && ks < |h.same[b]| && h.same[b][ks] in h.nextSame
    requires forall t :: t in all' <==> t in h.all && t != h.same[b][ks]
    ensures SizeList(h.sizebases[c], UnlinkLinks(h.nextSame, h.same[b], ks), h.same[c], all', h.pab, c)
  {
    hide Chain, BlockType;
    assert SizeList(h.sizebases[b], h.nextSame, h.same[b], h.all, h.pab, b);
    assert SizeList(h.sizebases[c], h.nextSame, h.same[c], h.all, h.pab, c);
    assert h.same[b][ks] in h.same[b];
    if ks > 0 {
      var x := h.same[b][ks - 1];
      assert x in h.same[b];
      ChainFrame(h.sizebases[c], h.nextSame, h.same[c], x, h.nextSame[h.same[b][ks]]);
    }
  }

  function Removed(h: State, b: nat, ka: nat, ks: nat): State
    requires b < NSIZES && |h.sizebases| == NSIZES == |h.same|
    requires ka < |h.all| && h.all[ka] in h.nextAll && ks < |h.same[b]| && h.same[b][ks] in h.nextSame
    requires h.all[ka] in h.pab && RootsOk(h.roots) && h.all[ka] < NROOTS * PER_PAGE
    requires 0 < h.roots[h.all[ka] / PER_PAGE].numinuse
  {
    Unlisted(h, b, ka, ks).(
      roots := Put(h.roots, h.all[ka], false, -1),
      held := h.held[PageAddr(h.pab[h.all[ka]]) := Holding(1, Transit)])
  }

  ghost predicate Retires(h: State, h': State, s: nat)
    requires RootsOk(h.roots)
  {
    && s in h.all && SlotOk(h, s)
    && h' == h.(sizebases := h'.sizebases, allbase := h'.allbase, nextSame := h'.nextSame, nextAll := h'.nextAll,
                all := h'.all, same := h'.same, roots := h'.roots,
                held := h.held[PageAddr(h.pab[s]) := Holding(1, Transit)])
    && (forall t :: t in h'.all <==> t in h.all && t != s)
    && RootsOk(h'.roots)
    && (forall t: nat :: t != s ==> Bit(h'.roots, t) == Bit(h.roots, t))
    && (forall r :: 0 <= r < NROOTS ==> h'.roots[r].page == h.roots[r].page)
  }

  lemma RetirePages(h: State, h': State, s: nat)
    requires RootsOk(h.roots) && Pages(h) && Retires(h, h', s)
    ensures Pages(h')
  {
    hide PageOk, RootOk, PageAddr, BlockType, Retires;
    RetireAll(h, h', s);
    forall t | t in h'.all
      ensures SlotOk(h', t)
      ensures PageOk(t, h'.pab[t], h'.offset[t], h'.nfree[t], h'.links, h'.free[t], h'.live)
    {
      assert t in h.all;
      RetireSlot(h, h', s, t);
    }
  }

  lemma RetireAll(h: State, h': State, s: nat)
    requires RootsOk(h.roots) && Retires(h, h', s)
    ensures RootsOk(h'.roots)
    ensures forall t :: t in h'.all ==> t in h.all
  {
  }

  lemma RetireSlot(h: State, h': State, s: nat, t: nat)
    requires RootsOk(h.roots) && RootsOk(h'.roots) && Retires(h, h', s) && t in h'.all && SlotOk(h, t)
    ensures SlotOk(h', t)
    ensures h'.pab == h.pab && h'.offset == h.offset && h'.nfree == h.nfree && h'.links == h.links
    ensures h'.free == h.free && h'.live == h.live
  {
    hide RootOk, PageAddr, BlockType;
    assert Bit(h'.roots, t) == Bit(h.roots, t);
    assert t / PER_PAGE < NROOTS;
    assert PageAddr(h.pab[t]) != PageAddr(h.pab[s]);
  }

  lemma RetireHeld(h: State, h': State, s: nat)
    requires RootsOk(h.roots) && Held(h) && Retires(h, h', s)
    ensures Held(h')
  {
    hide Bit, RootOk, PageAddr, BlockType, Apart;
    forall p | p in h'.held ensures UseOk(h', p) {
      assert UseOk(h, p);
    }
  }

  /** An entirely free page carries no live block, so no live block loses its page. */
  lemma RetireLive(h: State, h': State, s: nat)
    requires Core(h) && Retires(h, h', s) && FullyFree(h, s)
    ensures forall a :: a in h'.live ==> LiveOk(h', a)
  {
    hide Bit, RootOk, Lists, Held;
    assert PageOk(s, h.pab[s], h.offset[s], h.nfree[s], h.links, h.free[s], h.live);
    BlockCount(h.free[s], PageAddr(h.pab[s]), BlockType(h.pab[s]));
    hide PageOk, IsBlock, Size, Blocks, PageAddr, BlockType, FullyFree;
    forall a | a in h'.live ensures LiveOk(h', a) {
      assert LiveOk(h, a);
    }
  }

  lemma RemoveRetires(h: State, b: nat, ka: nat, ks: nat)
    requires Lists(h) && RootsOk(h.roots) && b < NSIZES
    requires ka < |h.all| && ks < |h.same[b]| && h.all[ka] == h.same[b][ks] && SlotOk(h, h.all[ka])
    ensures h.all[ka] in h.nextAll && h.same[b][ks] in h.nextSame && h.all[ka] < NROOTS * PER_PAGE
    ensures 0 < h.roots[h.all[ka] / PER_PAGE].numinuse
    ensures Lists(Removed(h, b, ka, ks)) && Retires(h, Removed(h, b, ka, ks), h.all[ka])
  {
    var s := h.all[ka];
    UnlistLists(h, b, ka, ks);
    PutOk(h.roots, s, false);
    PutFrame(h.roots, s, false, -1);
    hide Chain, SizeList, Bit, RootOk, PageAddr, BlockType, Put, Without;
    ListsFrame(Unlisted(h, b, ka, ks), Removed(h, b, ka, ks));
  }

  lemma RemoveCore(h: State, b: nat, ka: nat, ks: nat)
    requires Core(h) && b < NSIZES && ka < |h.all| && ks < |h.same[b]| && h.all[ka] == h.same[b][ks]
    requires FullyFree(h, h.all[ka])
    ensures h.all[ka] in h.nextAll && h.same[b][ks] in h.nextSame && h.all[ka] < NROOTS * PER_PAGE
    ensures 0 < h.roots[h.all[ka] / PER_PAGE].numinuse
    ensures Core(Removed(h, b, ka, ks))
  {
    var s := h.all[ka];
    assert SlotOk(h, s);
    hide Chain, SizeList, PageOk, RootOk, Bit, LiveOk, PageAddr, BlockType, Put, Without, FullyFree, Held, SlotOk;
    RemoveRetires(h, b, ka, ks);
    var h' := Removed(h, b, ka, ks);
    RetireLive(h, h', s);
    RetirePages(h, h', s);
    RetireHeld(h, h', s);
    RetirePending(h, h', s);
    hide Lists, Pages, Removed, Retires;
  }

  lemma RetirePending(h: State, h': State, s: nat)
    requires RootsOk(h.roots) && Retires(h, h', s) && forall t :: t in h.pending ==> Bit(h.roots, t)
    ensures RootsOk(h'.roots) && forall t :: t in h'.pending ==> Bit(h'.roots, t)
  {
    hide Bit, RootOk, PageAddr, BlockType;
  }

  // ---------- slots and page ranges ----------

  function Taken(h: State, s: nat): State
    requires RootsOk(h.roots) && s < NROOTS * PER_PAGE
  {
    h.(roots := Put(h.roots, s, true, 1), pending := h.pending + {s})
  }

  /** Only roots, page uses and pending slots may differ; listed pages keep theirs. */
  lemma SlotChange(h: State, h': State)
    requires Core(h)
    requires h' == h.(roots := h'.roots, pending := h'.pending, held := h'.held)
    requires RootsOk(h'.roots) && Held(h')
    requires forall t: nat :: Bit(h.roots, t) ==> Bit(h'.roots, t)
    requires forall r :: 0 <= r < NROOTS && h.roots[r].page != 0 ==> h'.roots[r].page != 0
    requires forall t :: t in h'.pending ==> Bit(h'.roots, t) && (t in h.pending || !Bit(h.roots, t))
    requires forall p :: p in h.held && h.held[p].use.HeapPage? ==> p in h'.held && h'.held[p] == h.held[p]
    ensures Core(h')
  {
    hide Chain, SizeList, PageOk, RootOk, PageAddr, BlockType, Size, IsBlock;
    ListsFrame(h, h');
    forall t | t in h.all ensures SlotOk(h', t) {
      assert SlotOk(h, t);
    }
    forall a | a in h.live ensures LiveOk(h', a) {
      assert LiveOk(h, a);
    }
    hide Lists, Held, LiveOk, SlotOk, Bit;
  }

  lemma TakeCore(h: State, s: nat)
    requires Core(h) && s < NROOTS * PER_PAGE && !Bit(h.roots, s)
    ensures Core(Taken(h, s))
    ensures s !in h.pending && s !in h.all
  {
    PutOk(h.roots, s, true);
    PutFrame(h.roots, s, true, 1);
    var h' := Taken(h, s);
    assert s in h.all ==> SlotOk(h, s);
    hide Chain, SizeList, PageOk, RootOk, PageAddr, BlockType, Bit, Put, LiveOk, Lists, Pages, Apart;
    forall p | p in h'.held ensures UseOk(h', p) { assert UseOk(h, p); }
    SlotChange(h, h');
  }

  /** The contract of alloc_kpages: page-aligned, not null, apart from every range held. */
  ghost predicate Grantable(h: State, va: nat, n: nat) {
    && 0 < va && va % PAGE == 0 && 1 <= n
    && va !in h.held
    && forall q :: q in h.held ==> Apart(va, n, q, h.held[q].npages)
  }

  function Granted(h: State, va: nat, n: nat, use: Use): State {
    h.(held := h.held[va := Holding(n, use)])
  }

  lemma GrantCore(h: State, va: nat, n: nat, use: Use)
    requires Core(h) && Grantable(h, va, n)
    requires use.Transit? || (use.Big? && use.size <= n * PAGE)
    ensures Core(Granted(h, va, n, use))
  {
    var h' := Granted(h, va, n, use);
    hide Chain, SizeList, PageOk, RootOk, PageAddr, BlockType, Bit, LiveOk, Lists, Pages, Apart;
    forall p | p in h'.held ensures UseOk(h', p) {
      if p != va { assert UseOk(h, p); }
    }
    forall p, q | p in h'.held && q in h'.held && p != q ensures Apart(p, h'.held[p].npages, q, h'.held[q].npages) {
      if p == va {
        assert Apart(va, n, q, h.held[q].npages);
      } else if q == va {
        assert Apart(va, n, p, h.held[p].npages);
        ApartSymmetric(va, n, p, h.held[p].npages);
      }
    }
    SlotChange(h, h');
  }

  lemma ApartSymmetric(p: nat, m: nat, q: nat, n: nat)
    requires Apart(p, m, q, n)
    ensures Apart(q, n, p, m)
  {
  }

  function Dropped(h: State, va: nat): State {
    h.(held := h.held - {va})
  }

  lemma DropCore(h: State, va: nat)
    requires Core(h) && va in h.held && (h.held[va].use.Transit? || h.held[va].use.Big?)
    ensures Core(Dropped(h, va))
  {
    var h' := Dropped(h, va);
    hide Chain, SizeList, PageOk, RootOk, PageAddr, BlockType, Bit, LiveOk, Lists, Pages, Apart;
    forall p | p in h'.held ensures UseOk(h', p) { assert UseOk(h, p); }
    SlotChange(h, h');
  }

  /** A page of descriptors is installed in a root that has none. */
  function Installed(h: State, r: nat, va: nat): State
    requires r < NROOTS == |h.roots|
  {
    h.(roots := h.roots[r := h.roots[r].(page := va)], held := h.held[va := Holding(1, RefPage(r))])
  }

  lemma InstallCore(h: State, r: nat, va: nat)
    requires Core(h) && r < NROOTS && h.roots[r].page == 0
    requires va in h.held && h.held[va] == Holding(1, Transit)
    ensures Core(Installed(h, r, va))
  {
    var h' := Installed(h, r, va);
    assert 0 < va;
    hide Chain, SizeList, PageOk, PageAddr, BlockType, LiveOk, Lists, Pages, Apart, Count, Shaped;
    assert RootsOk(h'.roots);
    forall t: nat ensures Bit(h'.roots, t) == Bit(h.roots, t) {}
    hide Bit, RootOk;
    forall p | p in h'.held ensures UseOk(h', p) { assert UseOk(h, p); }
    SlotChange(h, h');
  }
}
