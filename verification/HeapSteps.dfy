/**
  The updates the heap makes under its spinlock, and that each keeps the invariant
  (kern/vm/kmalloc.c:922-1204).
*/
module HeapSteps {
  import opened Basics
  import opened Chains
  import opened PageRefs
  import opened HeapState
  import opened Arith

  // ---------- how many blocks a page has ----------

  lemma {:induction false} Pigeonhole(l: seq<nat>, n: nat)
    requires NoDup(l) && forall i :: 0 <= i < |l| ==> l[i] < n
    ensures |l| <= n
    ensures |l| == n ==> forall k: nat :: k < n ==> k in l
    decreases n
  {
    if l != [] { assert l[0] < n; }
    if n == 0 {
    } else if n - 1 in l {
      var k: nat :| k < |l| && l[k] == n - 1;
      var m := Without(l, k);
      WithoutMembers(l, k);
      forall i | 0 <= i < |m| ensures m[i] < n - 1 { assert m[i] in m && m[i] in l && m[i] != l[k]; }
      Pigeonhole(m, n - 1);
      if |l| == n {
        forall j: nat | j < n ensures j in l {
          if j < n - 1 { assert j in m; }
        }
      }
    } else {
      forall i | 0 <= i < |l| ensures l[i] < n - 1 { assert l[i] in l; }
      Pigeonhole(l, n - 1);
    }
  }

  function Index(a: nat, page: nat, b: nat): nat
    requires b < NSIZES && IsBlock(a, page, b)
  {
    (a - page) / Size(b)
  }

  lemma IndexFacts(a: nat, page: nat, b: nat)
    requires b < NSIZES && IsBlock(a, page, b)
    ensures Index(a, page, b) < Blocks(b) && a == page + Index(a, page, b) * Size(b)
  {
    SizeFacts(b);
    var k, z := Index(a, page, b), Size(b);
    assert a - page == k * z;
    if k >= Blocks(b) { MulMono(Blocks(b), k, z); }
  }

  lemma BlockAt(k: nat, page: nat, b: nat)
    requires b < NSIZES && k < Blocks(b)
    ensures IsBlock(page + k * Size(b), page, b) && Index(page + k * Size(b), page, b) == k
  {
    SizeFacts(b);
    MulMono(k, Blocks(b) - 1, Size(b));
    MulDistrib(Blocks(b) - 1, 1, Size(b));
    MulMono(0, k, Size(b));
    DivModUnique(k * Size(b), Size(b), k, 0);
  }

  /** A page holds at most PAGE_SIZE / size different blocks, and that many are all of them. */
  lemma BlockCount(l: seq<nat>, page: nat, b: nat)
    requires b < NSIZES && NoDup(l) && forall a :: a in l ==> IsBlock(a, page, b)
    ensures |l| <= Blocks(b)
    ensures |l| == Blocks(b) ==> forall a :: IsBlock(a, page, b) ==> a in l
  {
    var idx := seq(|l|, i requires 0 <= i < |l| => assert l[i] in l; Index(l[i], page, b));
    forall i | 0 <= i < |l| ensures idx[i] < Blocks(b) && l[i] == page + idx[i] * Size(b) {
      assert l[i] in l;
      IndexFacts(l[i], page, b);
    }
    Pigeonhole(idx, Blocks(b));
    if |l| == Blocks(b) {
      forall a | IsBlock(a, page, b) ensures a in l {
        IndexFacts(a, page, b);
        assert Index(a, page, b) in idx;
        var i :| 0 <= i < |idx| && idx[i] == Index(a, page, b);
        assert l[i] == a;
      }
    }
  }

  // ---------- one page ----------

  /** A block address is not one of another listed page's blocks. */
  lemma OtherPage(h: State, s: nat, t: nat, a: nat)
    requires Core(h) && s in h.all && t in h.all && s != t
    requires IsBlock(a, PageAddr(h.pab[s]), BlockType(h.pab[s]))
    ensures !IsBlock(a, PageAddr(h.pab[t]), BlockType(h.pab[t]))
    ensures a !in h.free[t]
  {
    assert SlotOk(h, s) && SlotOk(h, t);
    BlockPage(a, PageAddr(h.pab[s]), BlockType(h.pab[s]));
    if IsBlock(a, PageAddr(h.pab[t]), BlockType(h.pab[t])) {
      BlockPage(a, PageAddr(h.pab[t]), BlockType(h.pab[t]));
    }
    assert PageOk(t, h.pab[t], h.offset[t], h.nfree[t], h.links, h.free[t], h.live);
  }

  /** Changes at one address leave alone every page the address is not a block of. */
  lemma PageFrame(t: nat, pab: nat, offset: nat, nfree: nat, links: Links, free: seq<nat>, live: map<nat, nat>,
                  links': Links, live': map<nat, nat>, a: nat)
    requires PageOk(t, pab, offset, nfree, links, free, live)
    requires !IsBlock(a, PageAddr(pab), BlockType(pab))
    requires forall x :: x != a ==> (x in links <==> x in links') && (x in links ==> links'[x] == links[x])
    requires forall x :: x != a ==> (x in live <==> x in live')
    ensures PageOk(t, pab, offset, nfree, links', free, live')
  {
    assert a !in free;
    forall i | 0 <= i < |free| ensures free[i] in links' && links'[free[i]] == At(free, i + 1) {
      assert free[i] in free;
    }
  }

  function OffsetOf(page: nat, next: Option<nat>): int {
    if next.None? then INVALID else next.value - page
  }

  lemma PagePop(s: nat, pab: nat, offset: nat, nfree: nat, links: Links, free: seq<nat>, live: map<nat, nat>, sz: nat)
    requires PageOk(s, pab, offset, nfree, links, free, live) && free != []
    ensures free[0] in links && FreeBase(PageAddr(pab), offset) == Some(free[0])
    ensures 0 <= OffsetOf(PageAddr(pab), links[free[0]])
    ensures PageOk(s, pab, OffsetOf(PageAddr(pab), links[free[0]]), nfree - 1,
                   links - {free[0]}, free[1..], live[free[0] := sz])
  {
    var a, tail := free[0], free[1..];
    var page, next := PageAddr(pab), links[a];
    ChainPop(FreeBase(page, offset), links, free);
    ChainForget(next, links, tail, a);
    TailMembers(free);
    assert next == At(free, 1) == At(tail, 0);
    hide Chain, NoDup, IsBlock, Size, PageAddr, BlockType;
    assert free[0] in free;
    if tail != [] {
      assert tail[0] in tail;
      NextOffset(tail[0], page, BlockType(pab));
    }
    assert FreeBase(page, OffsetOf(page, next)) == next;
  }

  lemma TailMembers(l: seq<nat>)
    requires NoDup(l) && l != []
    ensures forall x :: x in l[1..] <==> x in l && x != l[0]
  {
    assert l == [l[0]] + l[1..];
  }

  lemma NextOffset(a: nat, page: nat, b: nat)
    requires b < NSIZES && IsBlock(a, page, b)
    ensures 0 <= a - page < PAGE && a - page != INVALID
  {
  }

  lemma PagePush(s: nat, pab: nat, offset: nat, nfree: nat, links: Links, free: seq<nat>, live: map<nat, nat>, a: nat)
    requires PageOk(s, pab, offset, nfree, links, free, live)
    requires IsBlock(a, PageAddr(pab), BlockType(pab)) && a in live
    ensures PageOk(s, pab, a - PageAddr(pab), nfree + 1,
                   links[a := FreeBase(PageAddr(pab), offset)], [a] + free, live - {a})
  {
    ChainPush(FreeBase(PageAddr(pab), offset), links, free, a);
    BlockCount([a] + free, PageAddr(pab), BlockType(pab));
  }

  // ---------- taking and returning a block ----------

  /** The fields the pop reads are there, and its assertions hold. */
  ghost predicate PopSafe(h: State, s: nat) {
    && s in h.pab && s in h.offset && s in h.nfree && s in h.free && 0 < h.nfree[s]
    && h.offset[s] < PAGE
    && h.free[s] != [] && h.free[s][0] in h.links && h.free[s][0] == PageAddr(h.pab[s]) + h.offset[s]
    && 0 <= OffsetOf(PageAddr(h.pab[s]), h.links[h.free[s][0]])
    && (h.links[h.free[s][0]].Some? ==> OffsetOf(PageAddr(h.pab[s]), h.links[h.free[s][0]]) < PAGE)
    && (h.links[h.free[s][0]].None? <==> h.nfree[s] == 1)
  }

  function Popped(h: State, s: nat, sz: nat): State
    requires PopSafe(h, s)
  {
    var a := h.free[s][0];
    h.(links := h.links - {a},
       offset := h.offset[s := OffsetOf(PageAddr(h.pab[s]), h.links[a])],
       nfree := h.nfree[s := h.nfree[s] - 1],
       free := h.free[s := h.free[s][1..]],
       live := h.live[a := sz])
  }

  function Pushed(h: State, s: nat, a: nat): State
    requires s in h.pab && s in h.offset && s in h.nfree && s in h.free && PageAddr(h.pab[s]) <= a
  {
    h.(links := h.links[a := FreeBase(PageAddr(h.pab[s]), h.offset[s])],
       offset := h.offset[s := a - PageAddr(h.pab[s])],
       nfree := h.nfree[s := h.nfree[s] + 1],
       free := h.free[s := [a] + h.free[s]],
       live := h.live - {a})
  }

  /** A page with a free block can give up the head of its free list. */
  lemma PopReady(h: State, s: nat)
    requires Core(h) && s in h.all && 0 < h.nfree[s]
    ensures PopSafe(h, s)
    ensures IsBlock(h.free[s][0], PageAddr(h.pab[s]), BlockType(h.pab[s])) && h.free[s][0] !in h.live
  {
    PagePop(s, h.pab[s], h.offset[s], h.nfree[s], h.links, h.free[s], h.live, 0);
    assert h.free[s][0] in h.free[s];
    ChainPop(FreeBase(PageAddr(h.pab[s]), h.offset[s]), h.links, h.free[s]);
  }

  /** Two states that differ only in one page's free list and one of its blocks. */
  ghost predicate DifferAt(h: State, h': State, s: nat, a: nat) {
    && h' == h.(links := h'.links, offset := h'.offset, nfree := h'.nfree, free := h'.free, live := h'.live)
    && s in h'.offset && s in h'.nfree && s in h'.free
    && (forall t :: t != s && t in h.offset ==> t in h'.offset && h'.offset[t] == h.offset[t])
    && (forall t :: t != s && t in h.nfree ==> t in h'.nfree && h'.nfree[t] == h.nfree[t])
    && (forall t :: t != s && t in h.free ==> t in h'.free && h'.free[t] == h.free[t])
    && (forall x :: x != a ==> (x in h.links <==> x in h'.links) && (x in h.links ==> h'.links[x] == h.links[x]))
    && (forall x :: x != a ==> (x in h.live <==> x in h'.live) && (x in h.live ==> h'.live[x] == h.live[x]))
  }

  lemma BlockChangePages(h: State, h': State, s: nat, a: nat)
    requires Core(h) && s in h.all && DifferAt(h, h', s, a)
    requires IsBlock(a, PageAddr(h.pab[s]), BlockType(h.pab[s]))
    requires PageOk(s, h.pab[s], h'.offset[s], h'.nfree[s], h'.links, h'.free[s], h'.live)
    ensures Pages(h')
  {
    hide PageOk, Bit, IsBlock, Chain, Size, Held, Lists;
    forall t | t in h'.all
      ensures SlotOk(h', t)
      ensures PageOk(t, h'.pab[t], h'.offset[t], h'.nfree[t], h'.links, h'.free[t], h'.live)
    {
      assert SlotOk(h, t);
      if t != s {
        OtherPage(h, s, t, a);
        PageFrame(t, h.pab[t], h.offset[t], h.nfree[t], h.links, h.free[t], h.live, h'.links, h'.live, a);
      }
    }
  }

  lemma BlockChangeLive(h: State, h': State, s: nat, a: nat)
    requires Core(h) && s in h.all && DifferAt(h, h', s, a)
    requires IsBlock(a, PageAddr(h.pab[s]), BlockType(h.pab[s]))
    requires a in h'.live ==> h'.live[a] <= Size(BlockType(h.pab[s]))
    ensures forall x :: x in h'.live ==> LiveOk(h', x)
  {
    hide PageOk, Bit, Chain, Held, Lists;
    assert SlotOk(h, s);
    BlockPage(a, PageAddr(h.pab[s]), BlockType(h.pab[s]));
    hide IsBlock, Size, PageAddr, BlockType;
    forall x | x in h'.live ensures LiveOk(h', x) {
      if x != a { assert LiveOk(h, x); }
    }
  }

  lemma BlockChange(h: State, h': State, s: nat, a: nat)
    requires Core(h) && s in h.all && DifferAt(h, h', s, a)
    requires IsBlock(a, PageAddr(h.pab[s]), BlockType(h.pab[s]))
    requires PageOk(s, h.pab[s], h'.offset[s], h'.nfree[s], h'.links, h'.free[s], h'.live)
    requires a in h'.live ==> h'.live[a] <= Size(BlockType(h.pab[s]))
    ensures Core(h')
  {
    BlockChangePages(h, h', s, a);
    BlockChangeLive(h, h', s, a);
    HeldFrame(h, h');
    ListsFrame(h, h');
    hide PageOk, Bit, IsBlock, Chain, Size, Held, LiveOk, Pages, PageAddr, BlockType, Lists, RootsOk, SlotOk;
  }

  lemma PopCore(h: State, s: nat, sz: nat)
    requires Core(h) && s in h.all && 0 < h.nfree[s] && sz <= Size(BlockType(h.pab[s]))
    ensures PopSafe(h, s)
    ensures Core(Popped(h, s, sz))
  {
    PopReady(h, s);
    PagePop(s, h.pab[s], h.offset[s], h.nfree[s], h.links, h.free[s], h.live, sz);
    hide Core, PageOk, IsBlock, Size, PageAddr, BlockType;
    PoppedDiffers(h, s, sz);
    hide DifferAt;
    BlockChange(h, Popped(h, s, sz), s, h.free[s][0]);
  }

  lemma PoppedDiffers(h: State, s: nat, sz: nat)
    requires PopSafe(h, s)
    ensures DifferAt(h, Popped(h, s, sz), s, h.free[s][0])
  {
  }

  lemma PushedDiffers(h: State, s: nat, a: nat)
    requires s in h.pab && s in h.offset && s in h.nfree && s in h.free && PageAddr(h.pab[s]) <= a
    ensures DifferAt(h, Pushed(h, s, a), s, a)
  {
  }

  lemma PushCore(h: State, s: nat, a: nat)
    requires Core(h) && s in h.all && a in h.live
    requires IsBlock(a, PageAddr(h.pab[s]), BlockType(h.pab[s]))
    ensures Core(Pushed(h, s, a))
  {
    PagePush(s, h.pab[s], h.offset[s], h.nfree[s], h.links, h.free[s], h.live, a);
    assert PageAddr(h.pab[s]) <= a && a !in Pushed(h, s, a).live;
    hide Core, PageOk, IsBlock, Size, PageAddr, BlockType;
    PushedDiffers(h, s, a);
    hide DifferAt;
    BlockChange(h, Pushed(h, s, a), s, a);
  }

  lemma ListsFrame(h: State, h': State)
    requires Lists(h)
    requires h'.sizebases == h.sizebases && h'.allbase == h.allbase && h'.nextSame == h.nextSame
    requires h'.nextAll == h.nextAll && h'.all == h.all && h'.same == h.same && h'.pab == h.pab
    ensures Lists(h')
  {
  }

  /** The page ranges depend only on which pages are listed and on the roots. */
  lemma HeldFrame(h: State, h': State)
    requires |h.roots| == NROOTS && Held(h)
    requires h'.held == h.held && h'.roots == h.roots && h'.all == h.all && h'.pab == h.pab
    ensures Held(h')
  {
    forall p | p in h'.held ensures UseOk(h', p) {
      assert UseOk(h, p);
    }
  }
}
