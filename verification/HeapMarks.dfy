/**
  Which descriptors are marked in any state of any run (kern/vm/kmalloc.c:222-339), and so
  when exactly freeing a block fails an assertion: an earlier root must have no page and all
  256 of its descriptors marked.
*/
module HeapMarks {
  import opened PageRefs
  import opened HeapState
  import opened HeapPages
  import opened HeapFree
  import opened HeapRuns

  predicate HasPage(roots: seq<Root>, s: nat)
    requires |roots| == NROOTS && s < NROOTS * PER_PAGE
  {
    roots[s / PER_PAGE].page != 0
  }

  /** A descriptor marked in a later root means that a root without a page is marked entirely. */
  ghost predicate InOrder(roots: seq<Root>) {
    && RootsOk(roots)
    && forall s: nat, t: nat :: s / PER_PAGE < t / PER_PAGE && Bit(roots, t) && !HasPage(roots, s) ==> Bit(roots, s)
  }

  // ---------- what a step does to the roots ----------

  ghost predicate Marks(roots: seq<Root>, roots': seq<Root>, s: nat) {
    && RootsOk(roots) && s < NROOTS * PER_PAGE && !Bit(roots, s) && (forall t: nat :: t < s ==> Bit(roots, t))
    && roots' == Put(roots, s, true, 1)
  }

  ghost predicate Backs(roots: seq<Root>, roots': seq<Root>, r: nat) {
    r < |roots| == |roots'| && roots'[r].page != 0 && roots' == roots[r := roots[r].(page := roots'[r].page)]
  }

  ghost predicate Unmarks(roots: seq<Root>, roots': seq<Root>, s: nat) {
    && RootsOk(roots) && Bit(roots, s) && HasPage(roots, s) && 0 < roots[s / PER_PAGE].numinuse
    && roots' == Put(roots, s, false, -1)
  }

  lemma MarkKeeps(roots: seq<Root>, roots': seq<Root>, slot: nat)
    requires InOrder(roots) && Marks(roots, roots', slot)
    ensures InOrder(roots')
  {
    PutOk(roots, slot, true);
    PutFrame(roots, slot, true, 1);
    hide Put, Bit, RootOk;
    forall s: nat, t: nat | s / PER_PAGE < t / PER_PAGE && Bit(roots', t) && !HasPage(roots', s) ensures Bit(roots', s) {
      assert s < t;
    }
  }

  lemma BackKeeps(roots: seq<Root>, roots': seq<Root>, r: nat)
    requires InOrder(roots) && Backs(roots, roots', r)
    ensures InOrder(roots')
  {
    assert forall s: nat :: Bit(roots', s) == Bit(roots, s);
    hide Bit;
  }

  lemma UnmarkKeeps(roots: seq<Root>, roots': seq<Root>, slot: nat)
    requires InOrder(roots) && Unmarks(roots, roots', slot)
    ensures InOrder(roots')
  {
    PutOk(roots, slot, false);
    PutFrame(roots, slot, false, -1);
    hide Put, Bit, RootOk;
    forall s: nat, t: nat | s / PER_PAGE < t / PER_PAGE && Bit(roots', t) && !HasPage(roots', s) ensures Bit(roots', s) {
      assert Bit(roots, t) && !HasPage(roots, s);
    }
  }

  // ---------- runs ----------

  lemma SlotMarks(h: State, p: Phase, slot: nat, h': State, p': Phase)
    requires Local(h, p, GetSlot(slot), h', p')
    ensures Marks(h.roots, h'.roots, slot)
  {
    hide Put, Bit, PageAddr, Fresh, FreshLinks, LastOffset, Blocks, Pack, Size;
  }

  lemma SettleBacks(h: State, p: Phase, h': State, p': Phase)
    requires Local(h, p, Settle, h', p') && |h.roots| == NROOTS
    ensures p.HaveRefPage? && (h'.roots == h.roots || Backs(h.roots, h'.roots, p.slot / PER_PAGE))
  {
    hide PageAddr, Fresh, FreshLinks, LastOffset, Blocks, Pack, Size;
  }

  lemma FreeUnmarks(h: State, s: nat, a: nat, h': State)
    requires LosesPage(h, s, a, h')
    ensures Unmarks(h.roots, h'.roots, s)
  {
    hide Put, Bit, PageAddr, BlockType, Stranded, Empties;
    KeptAll(h, s, a);
  }

  lemma SameRoots(h: State, p: Phase, e: Event, h': State, p': Phase)
    requires Local(h, p, e, h', p') && !e.GetSlot? && !e.Settle? && !e.FreeLast?
    ensures h'.roots == h.roots
  {
    hide PageAddr, Fresh, FreshLinks, LastOffset, Blocks, Pack, Size, Bit, Empties, BlockType;
  }

  lemma StepOrder(h: State, p: Phase, e: Event, h': State, p': Phase)
    requires InOrder(h.roots) && Local(h, p, e, h', p')
    ensures InOrder(h'.roots)
  {
    hide InOrder, Local, Marks, Backs, Unmarks;
    match e
    case GetSlot(slot) =>
      SlotMarks(h, p, slot, h', p');
      MarkKeeps(h.roots, h'.roots, slot);
    case Settle =>
      OrderOk(h.roots);
      SettleBacks(h, p, h', p');
      if h'.roots != h.roots { BackKeeps(h.roots, h'.roots, p.slot / PER_PAGE); }
    case FreeLast(s, a) =>
      FreeLastLoses(h, p, s, a, h', p');
      FreeUnmarks(h, s, a, h');
      UnmarkKeeps(h.roots, h'.roots, s);
    case _ => SameRoots(h, p, e, h', p');
  }

  lemma OrderOk(roots: seq<Root>)
    requires InOrder(roots)
    ensures RootsOk(roots)
  {
  }

  lemma FreeLastLoses(h: State, p: Phase, s: nat, a: nat, h': State, p': Phase)
    requires Local(h, p, FreeLast(s, a), h', p')
    ensures LosesPage(h, s, a, h')
  {
  }

  lemma {:induction false} RunOrder(gs: seq<System>, i: nat)
    requires Run(gs) && i < |gs|
    ensures InOrder(gs[i].h.roots)
  {
    hide Ok, Local, InOrder;
    if i == 0 {
      EmptyOrder(gs[0]);
    } else {
      RunOrder(gs, i - 1);
      var k := i - 1;
      assert Follows(gs[k], gs[k + 1]);
      var t, e :| Next(gs[k], gs[k + 1], t, e);
      StepOrder(gs[k].h, gs[k].callers[t], e, gs[k + 1].h, gs[k + 1].callers[t]);
    }
  }

  lemma EmptyOrder(g: System)
    requires Start(g)
    ensures InOrder(g.h.roots)
  {
    hide Bit;
  }

  // ---------- the assertion ----------

  /** A root before the slot's own without a page and with all of its descriptors marked. */
  ghost predicate RootLost(roots: seq<Root>, s: nat) {
    exists k :: 0 <= k < |roots| && k < s / PER_PAGE && roots[k].page == 0 && roots[k].numinuse == PER_PAGE
  }

  lemma StrandedIsLost(roots: seq<Root>, t: nat)
    requires InOrder(roots) && Bit(roots, t)
    ensures Stranded(roots, t) <==> RootLost(roots, t)
  {
    if Stranded(roots, t) {
      var k :| 0 <= k < |roots| && k < t / PER_PAGE && roots[k].page == 0 && roots[k].numinuse > 0;
      RootFull(roots, t, k);
    }
  }

  lemma RootFull(roots: seq<Root>, t: nat, k: nat)
    requires InOrder(roots) && Bit(roots, t) && k < t / PER_PAGE && k < NROOTS && roots[k].page == 0
    ensures roots[k].numinuse == PER_PAGE
  {
    var ws := roots[k].inuse;
    forall i, b | 0 <= i < |ws| && 0 <= b < |ws[i]| ensures ws[i][b] {
      var s := k * PER_PAGE + i * WORD_BITS + b;
      SlotParts(k, i, b);
      assert !HasPage(roots, s);
      assert Bit(roots, s);
    }
    CountFull(ws);
  }

  /**
    In every state of every run, freeing a block fails an assertion if and only if it is the
    last of its page and an earlier root has no page and all 256 of its descriptors marked.
  */
  lemma StuckIff(gs: seq<System>, i: nat, a: nat)
    requires Run(gs) && i < |gs|
    ensures Stuck(gs[i].h, a) <==> exists s :: Returns(gs[i].h, s, a) && Empties(gs[i].h, s) && RootLost(gs[i].h.roots, s)
  {
    RunOrder(gs, i);
    RunKeeps(gs, i);
    var h := gs[i].h;
    hide Run, InOrder, Ok;
    forall s | Returns(h, s, a) ensures Stranded(h.roots, s) <==> RootLost(h.roots, s) {
      ListedMarked(h, s);
      StrandedIsLost(h.roots, s);
    }
    hide Stranded, RootLost, Returns, Empties;
    if Stuck(h, a) {
      var s :| CannotRetire(h, s, a);
      assert Returns(h, s, a) && Empties(h, s) && RootLost(h.roots, s);
    }
    if exists s :: Returns(h, s, a) && Empties(h, s) && RootLost(h.roots, s) {
      var s :| Returns(h, s, a) && Empties(h, s) && RootLost(h.roots, s);
      assert CannotRetire(h, s, a);
    }
  }

  lemma ListedMarked(h: State, s: nat)
    requires Ok(h) && s in h.all
    ensures RootsOk(h.roots) && Bit(h.roots, s)
  {
    assert SlotOk(h, s);
  }
}
