/**
  Pages that are no longer used are given back (kern/vm/kmalloc.c:1042-1062, 1184-1191): in
  every run a page that serves no purpose is in the hands of a caller that is about to use it
  or return it, so when no call is in progress the heap holds nothing but pages of blocks,
  pages of descriptors and big allocations.
*/
module HeapReturns {
  import opened PageRefs
  import opened HeapState
  import opened HeapSteps
  import opened HeapPages
  import opened HeapFree
  import opened Allocations
  import opened KMalloc
  import opened HeapRuns

  ghost predicate InHands(g: System, a: nat) {
    exists t :: t in g.callers && a in OwnPages(g.callers[t])
  }

  ghost predicate NoneLost(g: System) {
    forall a :: a in g.h.held && g.h.held[a].use.Transit? ==> InHands(g, a)
  }

  /** What is in transit afterwards is in the caller's hands, or was and is in somebody else's. */
  ghost predicate Accounts(h: State, p: Phase, h': State, p': Phase) {
    forall a :: a in h'.held && h'.held[a].use.Transit? ==>
      a in OwnPages(p') || (a in h.held && h.held[a].use.Transit? && a !in OwnPages(p))
  }

  // ---------- each step ----------

  lemma SameHeld(h: State, p: Phase, h': State, p': Phase)
    requires h'.held == h.held && OwnPages(p) <= OwnPages(p')
    ensures Accounts(h, p, h', p')
  {
  }

  lemma PublishHolds(h: State, b: nat, sz: nat, page: nat, slot: nat, h': State)
    requires Publishes(h, b, sz, page, slot, h')
    ensures h'.held == h.held[page := Holding(1, HeapPage(slot))]
  {
    hide Fresh, FreshLinks, LastOffset, Size, Blocks, Pack, PageAddr;
  }

  lemma AccountSame(h: State, p: Phase, e: Event, h': State, p': Phase)
    requires Local(h, p, e, h', p') && (e.Hit? || e.Miss? || e.NoSlot?)
    ensures Accounts(h, p, h', p')
  {
    hide TypeFor, FirstFit, NoRoom, RootsOk, Bit, Accounts, PageAddr;
    assert h'.held == h.held;
    hide Popped, PopSafe;
    SameHeld(h, p, h', p');
  }

  lemma Grants(h: State, p: Phase, va: nat, n: nat, use: Use, p': Phase)
    requires OwnPages(p) <= OwnPages(p') && (use.Transit? ==> va in OwnPages(p'))
    ensures Accounts(h, p, Granted(h, va, n, use), p')
  {
    hide OwnPages;
  }

  lemma AccountGrant(h: State, p: Phase, e: Event, h': State, p': Phase)
    requires Local(h, p, e, h', p') && (e.GetPage? || e.GetRefPage? || e.BigAlloc?)
    ensures Accounts(h, p, h', p')
  {
    hide Grantable, NPages, Accounts, Granted;
    if h' == h {
      SameHeld(h, p, h', p');
    } else if e.BigAlloc? {
      Grants(h, p, e.va, e.n, Big(e.sz), p');
    } else {
      Grants(h, p, e.va, 1, Transit, p');
    }
  }

  lemma Drops(h: State, p: Phase, va: nat, p': Phase)
    requires OwnPages(p) <= OwnPages(p') + {va}
    ensures Accounts(h, p, Dropped(h, va), p')
  {
    hide OwnPages;
  }

  lemma AccountReturn(h: State, p: Phase, e: Event, h': State, p': Phase)
    requires Local(h, p, e, h', p') && (e.ReturnSpare? || e.ReturnPage? || e.BigFree?)
    ensures Accounts(h, p, h', p')
  {
    hide Accounts, Dropped;
    Drops(h, p, if e.ReturnSpare? then p.va else if e.ReturnPage? then p.page else e.va, p');
  }

  lemma AccountPublish(h: State, p: Phase, b: nat, sz: nat, page: nat, slot: nat, h': State)
    requires Publishes(h, b, sz, page, slot, h') && OwnPages(p) == {page}
    ensures Accounts(h, p, h', Idle)
  {
    hide Publishes;
    PublishHolds(h, b, sz, page, slot, h');
  }

  lemma AccountSlot(h: State, p: Phase, slot: nat, h': State, p': Phase)
    requires Local(h, p, GetSlot(slot), h', p')
    ensures Accounts(h, p, h', p')
  {
    hide RootHasPage, Publishes, Accounts, Put, Bit, RootOk;
    assert Taken(h, slot).held == h.held;
    hide Taken;
    if RootHasPage(h, slot) {
      AccountPublish(Taken(h, slot), p, p.b, p.sz, p.page, slot, h');
      SameAccount(h, Taken(h, slot), p, h', p');
    } else {
      SameHeld(h, p, h', p');
    }
  }

  lemma SameAccount(h: State, h1: State, p: Phase, h': State, p': Phase)
    requires h1.held == h.held && Accounts(h1, p, h', p')
    ensures Accounts(h, p, h', p')
  {
  }

  lemma AccountSettle(h: State, p: Phase, h': State, p': Phase)
    requires Local(h, p, Settle, h', p') && PhaseOk(h, p)
    ensures Accounts(h, p, h', p')
  {
    hide RootHasPage, Publishes, PhaseOk;
    if RootHasPage(h, p.slot) {
      if p.va == 0 { AccountPublish(h, p, p.b, p.sz, p.page, p.slot, h'); }
    } else if p.va != 0 {
      PublishHolds(Installed(h, p.slot / PER_PAGE, p.va), p.b, p.sz, p.page, p.slot, h');
    }
  }

  lemma AccountFree(h: State, p: Phase, e: Event, h': State, p': Phase)
    requires Ok(h) && Local(h, p, e, h', p') && (e.Free? || e.FreeLast?)
    ensures Accounts(h, p, h', p')
  {
    hide Ok;
    if e.FreeLast? {
      LostPage(h, e.s, e.a, h');
      hide LosesPage, PageAddr, PageOf;
    } else {
      hide Returns, Empties;
    }
  }

  lemma StepAccounts(h: State, p: Phase, e: Event, h': State, p': Phase)
    requires Ok(h) && PhaseOk(h, p) && Local(h, p, e, h', p')
    ensures Accounts(h, p, h', p')
  {
    hide Ok, PhaseOk, Accounts;
    if e.Hit? || e.Miss? || e.NoSlot? {
      hide Local;
      AccountSame(h, p, e, h', p');
    } else if e.GetPage? || e.GetRefPage? || e.BigAlloc? {
      hide Local;
      AccountGrant(h, p, e, h', p');
    } else if e.ReturnSpare? || e.ReturnPage? || e.BigFree? {
      hide Local;
      AccountReturn(h, p, e, h', p');
    } else if e.GetSlot? {
      hide Local;
      AccountSlot(h, p, e.slot, h', p');
    } else if e.Settle? {
      hide Local;
      AccountSettle(h, p, h', p');
    } else if e.Finish? {
      AccountPublish(h, p, p.b, p.sz, p.page, p.slot, h');
    } else {
      hide Local;
      AccountFree(h, p, e, h', p');
    }
  }

  // ---------- runs ----------

  lemma StepLosesNone(g: System, g': System, t: nat, e: Event)
    requires Inv(g) && NoneLost(g) && Next(g, g', t, e)
    ensures NoneLost(g')
  {
    hide Ok, Local, OwnPages;
    assert PhaseOk(g.h, g.callers[t]);
    hide Inv;
    StepAccounts(g.h, g.callers[t], e, g'.h, g'.callers[t]);
    forall a | a in g'.h.held && g'.h.held[a].use.Transit? ensures InHands(g', a) {
      if a in OwnPages(g'.callers[t]) {
        assert InHands(g', a);
      } else {
        assert InHands(g, a);
        var u :| u in g.callers && a in OwnPages(g.callers[u]);
        assert u != t && g'.callers[u] == g.callers[u];
      }
    }
  }

  /** In every run, a page in transit is in the hands of some caller. */
  lemma {:induction false} TransitInHands(gs: seq<System>, i: nat)
    requires Run(gs) && i < |gs|
    ensures NoneLost(gs[i])
  {
    hide Ok, Inv, Next, NoneLost;
    if i == 0 {
      StartLosesNone(gs[0]);
    } else {
      TransitInHands(gs, i - 1);
      RunKeeps(gs, i - 1);
      var k := i - 1;
      assert Follows(gs[k], gs[k + 1]);
      var t, e :| Next(gs[k], gs[k + 1], t, e);
      StepLosesNone(gs[k], gs[k + 1], t, e);
    }
  }

  lemma StartLosesNone(g: System)
    requires Start(g)
    ensures NoneLost(g)
  {
    hide Ok;
  }

  /** When no call is in progress, every page the heap holds serves a purpose. */
  lemma AllReturned(gs: seq<System>, i: nat, a: nat)
    requires Run(gs) && i < |gs| && (forall t :: t in gs[i].callers ==> gs[i].callers[t] == Idle) && a in gs[i].h.held
    ensures var use := gs[i].h.held[a].use; use.HeapPage? || use.RefPage? || use.Big?
  {
    hide Run;
    TransitInHands(gs, i);
  }

  /** A caller that has a page to give back can do nothing else, and then the heap does not hold it. */
  lemma GivesBack(g: System, g': System, t: nat, e: Event, page: nat)
    requires Next(g, g', t, e) && g.callers[t] == Returning(page)
    ensures e == ReturnPage && g'.h.held == g.h.held - {page} && g'.callers[t] == Idle
  {
  }

  /** That is so of the page of a freed block, once all its blocks are free. */
  lemma EmptiedGoesBack(g: System, g': System, t: nat, s: nat, a: nat)
    requires Inv(g) && Next(g, g', t, FreeLast(s, a))
    ensures g'.callers[t] == Returning(PageOf(a)) && PageOf(a) in g'.h.held && g'.h.held[PageOf(a)] == Holding(1, Transit)
    ensures s in g.h.all && s !in g'.h.all
  {
    hide Ok, Inv, PageAddr, PageOf;
    StepKeeps(g, g', t, FreeLast(s, a));
    OkOf(g);
    OkOf(g');
    LostPage(g.h, s, a, g'.h);
    if s in g'.h.all { OwnHeapPage(g'.h, s); }
  }

  lemma OkOf(g: System)
    requires Inv(g)
    ensures Ok(g.h)
  {
  }

  // ---------- nothing stays allocated, and no page is got in vain ----------

  /** What a call of kfree is given was allocated and is no longer. */
  lemma FreedIsGone(g: System, g': System, t: nat, e: Event, a: nat)
    requires Inv(g) && Next(g, g', t, e)
    requires (e.Free? && e.a == a) || (e.FreeLast? && e.a == a) || (e.BigFree? && e.va == a)
    ensures Allocated(g.h, a) && !Allocated(g'.h, a)
  {
    hide Ok, Inv, KeepsPage, LosesPage, PageAddr;
    StepKeeps(g, g', t, e);
    OkOf(g);
    OkOf(g');
    if e.FreeLast? {
      LostPage(g.h, e.s, a, g'.h);
    } else if e.Free? {
      assert Freed(g.h, a, g'.h);
      FreesOne(g.h, a, g'.h);
    }
    WhoFrees(g.h, a);
    hide Local, Stuck, Owned, Misaligned, Again;
  }

  /** A page is asked for only when every block of the size is in use. */
  lemma NoFreeBlock(g: System, g': System, t: nat, sz: nat, b: nat, s: nat)
    requires Inv(g) && Next(g, g', t, Miss(sz, b)) && s in g.h.all && s in g.h.pab && BlockType(g.h.pab[s]) == b
    ensures s in g.h.free && g.h.free[s] == []
  {
    hide Ok, Inv;
    OkOf(g);
    FullPage(g.h, s);
  }

  lemma FullPage(h: State, s: nat)
    requires Ok(h) && s in h.all && s in h.pab
    ensures s in h.nfree && s in h.free && h.nfree[s] == |h.free[s]|
    ensures BlockType(h.pab[s]) < NSIZES == |h.same| && s in h.same[BlockType(h.pab[s])]
  {
    assert SlotOk(h, s) && PageOk(s, h.pab[s], h.offset[s], h.nfree[s], h.links, h.free[s], h.live);
    var b := BlockType(h.pab[s]);
    assert SizeList(h.sizebases[b], h.nextSame, h.same[b], h.all, h.pab, b);
  }
}
