/**
  The kernel heap's tables as one value, and what must hold of them whenever the heap's
  spinlock is free (kern/vm/kmalloc.c). The `pageref` fields are maps from slot to field;
  `links` is the first word of every free block; the last six fields are what the tables
  stand for.
*/
module HeapState {
  import opened Basics
  import opened Chains
  import opened PageRefs
  import opened Arith

  const PAGE := 4096
  const NSIZES := 8
  const SMALLEST := 16
  const LARGEST := 2048
  const INVALID := 0xffff

  function Size(b: nat): nat
    requires b < NSIZES
  {
    [16, 32, 64, 128, 256, 512, 1024, 2048][b]
  }

  function Blocks(b: nat): nat
    requires b < NSIZES
  {
    PAGE / Size(b)
  }

  lemma SizeFacts(b: nat)
    requires b < NSIZES
    ensures SMALLEST <= Size(b) <= LARGEST && 2 <= Blocks(b) <= 256
    ensures Blocks(b) * Size(b) == PAGE
  {
  }

  // A page address and a block type packed in one word: MKPAB, PR_PAGEADDR, PR_BLOCKTYPE.

  function Pack(page: nat, blktype: nat): nat { page / PAGE * PAGE + blktype % PAGE }

  function PageAddr(pab: nat): nat { pab / PAGE * PAGE }

  function BlockType(pab: nat): nat { pab % PAGE }

  lemma PackParts(page: nat, blktype: nat)
    requires page % PAGE == 0 && blktype < PAGE
    ensures PageAddr(Pack(page, blktype)) == page && BlockType(Pack(page, blktype)) == blktype
  {
  }

  function PageOf(a: nat): nat { a / PAGE * PAGE }

  /** What a range of pages obtained from alloc_kpages is used for. */
  datatype Use = HeapPage(slot: nat) | RefPage(root: nat) | Big(size: nat) | Transit

  datatype Holding = Holding(npages: nat, use: Use)

  datatype State = State(
    sizebases: seq<Option<nat>>, allbase: Option<nat>,
    nextSame: Links, nextAll: Links,
    pab: map<nat, nat>, offset: map<nat, nat>, nfree: map<nat, nat>,
    links: Links, roots: seq<Root>,
    all: seq<nat>,                // the slots on the list of all pages, in order
    same: seq<seq<nat>>,          // the slots on each list of pages of one size
    free: map<nat, seq<nat>>,     // the free block addresses of each page, in list order
    live: map<nat, nat>,          // allocated small blocks: address to requested size
    pending: set<nat>,            // slots taken but not, or never, put on the lists
    held: map<nat, Holding>       // page ranges held, by base address
  )

  function FreeBase(page: nat, offset: nat): Option<nat> {
    if offset == INVALID then None else Some(page + offset)
  }

  /** `a` is the address of one of the page's blocks. */
  predicate IsBlock(a: nat, page: nat, b: nat)
    requires b < NSIZES
  {
    page <= a < page + PAGE && (a - page) % Size(b) == 0
  }

  // ---------- the invariant ----------

  ghost predicate SlotOk(h: State, s: nat)
    requires RootsOk(h.roots)
  {
    && Bit(h.roots, s)
    && h.roots[s / PER_PAGE].page != 0
    && s !in h.pending
    && s in h.pab && s in h.offset && s in h.nfree && s in h.free
    && BlockType(h.pab[s]) < NSIZES
    && PageAddr(h.pab[s]) in h.held
    && h.held[PageAddr(h.pab[s])] == Holding(1, HeapPage(s))
  }

  /** The page's free list, its counter, and the split of its blocks into free and live. */
  ghost predicate PageOk(s: nat, pab: nat, offset: nat, nfree: nat, links: Links, free: seq<nat>, live: map<nat, nat>) {
    && BlockType(pab) < NSIZES
    && (offset == INVALID || offset < PAGE)
    && Chain(FreeBase(PageAddr(pab), offset), links, free)
    && nfree == |free| <= Blocks(BlockType(pab))
    && (forall a :: a in free ==> IsBlock(a, PageAddr(pab), BlockType(pab)))
    && (forall a :: IsBlock(a, PageAddr(pab), BlockType(pab)) ==> (a in live <==> a !in free))
  }

  ghost predicate Pages(h: State)
    requires RootsOk(h.roots)
  {
    forall s :: s in h.all ==>
      && SlotOk(h, s)
      && PageOk(s, h.pab[s], h.offset[s], h.nfree[s], h.links, h.free[s], h.live)
  }

  /** The list of one size holds exactly the listed pages of that block type. */
  ghost predicate SizeList(base: Option<nat>, next: Links, l: seq<nat>, all: seq<nat>, pab: map<nat, nat>, b: nat) {
    && Chain(base, next, l)
    && (forall s :: s in l <==> s in all && s in pab && BlockType(pab[s]) == b)
  }

  ghost predicate Lists(h: State) {
    && |h.sizebases| == |h.same| == NSIZES
    && Chain(h.allbase, h.nextAll, h.all)
    && (forall b :: 0 <= b < NSIZES ==> SizeList(h.sizebases[b], h.nextSame, h.same[b], h.all, h.pab, b))
  }

  /** Every live block lies on a listed heap page, at a block boundary, and is big enough. */
  ghost predicate LiveOk(h: State, a: nat) {
    && PageOf(a) in h.held
    && h.held[PageOf(a)].use.HeapPage?
    && var s := h.held[PageOf(a)].use.slot;
    && s in h.all && s in h.pab && PageAddr(h.pab[s]) == PageOf(a) && BlockType(h.pab[s]) < NSIZES
    && IsBlock(a, PageOf(a), BlockType(h.pab[s]))
    && a in h.live && h.live[a] <= Size(BlockType(h.pab[s]))
  }

  ghost predicate Apart(p: nat, m: nat, q: nat, n: nat) {
    p + m * PAGE <= q || q + n * PAGE <= p
  }

  ghost predicate UseOk(h: State, p: nat)
    requires p in h.held && |h.roots| == NROOTS
  {
    match h.held[p].use
    case HeapPage(s) => h.held[p].npages == 1 && s in h.all && s in h.pab && PageAddr(h.pab[s]) == p
    case RefPage(r) => h.held[p].npages == 1 && r < NROOTS && h.roots[r].page == p
    case Big(size) => size <= h.held[p].npages * PAGE
    case Transit => true
  }

  ghost predicate Held(h: State)
    requires |h.roots| == NROOTS
  {
    && (forall p :: p in h.held ==> 0 < p && p % PAGE == 0 && 1 <= h.held[p].npages && UseOk(h, p))
    && (forall p, q :: p in h.held && q in h.held && p != q ==> Apart(p, h.held[p].npages, q, h.held[q].npages))
    && (forall r :: 0 <= r < NROOTS && h.roots[r].page != 0 ==>
          h.roots[r].page in h.held && h.held[h.roots[r].page] == Holding(1, RefPage(r)))
  }

  /** What holds at every moment between two complete updates. */
  ghost predicate Core(h: State) {
    && RootsOk(h.roots)
    && Lists(h)
    && Pages(h)
    && (forall a :: a in h.live ==> LiveOk(h, a))
    && (forall s :: s in h.pending ==> Bit(h.roots, s))
    && Held(h)
  }

  ghost predicate FullyFree(h: State, s: nat) {
    s in h.pab && s in h.nfree && BlockType(h.pab[s]) < NSIZES && h.nfree[s] == Blocks(BlockType(h.pab[s]))
  }

  ghost predicate NoneFullyFree(h: State) {
    forall s :: s in h.all ==> !FullyFree(h, s)
  }

  /** What holds whenever the lock is free: also, no listed page is entirely free. */
  ghost predicate Ok(h: State) {
    Core(h) && NoneFullyFree(h)
  }

  // ---------- blocks ----------

  /** A block's page is the page it is cut from; blocks of different pages differ. */
  lemma BlockPage(a: nat, page: nat, b: nat)
    requires page % PAGE == 0 && b < NSIZES && IsBlock(a, page, b)
    ensures PageOf(a) == page
    ensures a + Size(b) <= page + PAGE
  {
    SizeFacts(b);
    var z, k, r := Size(b), (a - page) / Size(b), PAGE - (a - page);
    assert a - page == k * z;
    BlockEnd(k, z, Blocks(b));
  }

  lemma BlockEnd(k: int, z: int, n: int)
    requires 0 < z && k * z < n * z
    ensures (k + 1) * z <= n * z
  {
    if k >= n {
      MulMono(n, k, z);
    } else {
      MulMono(k + 1, n, z);
    }
  }

  /** Two different blocks of one page do not overlap. */
  lemma BlocksApart(a: nat, c: nat, page: nat, b: nat)
    requires b < NSIZES && IsBlock(a, page, b) && IsBlock(c, page, b) && a < c
    ensures a + Size(b) <= c
  {
    SizeFacts(b);
    var z := Size(b);
    var i, j := (a - page) / z, (c - page) / z;
    assert a - page == i * z && c - page == j * z;
    BlockEnd(i, z, j);
  }
}
