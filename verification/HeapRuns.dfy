/**
  Any number of callers inside kmalloc and kfree at once (kern/vm/kmalloc.c). A step is one
  stretch of code under the heap's spinlock, or one call of alloc_kpages or free_kpages made
  between two such stretches; a caller's phase holds its local variables while it does not
  hold the lock. Every step keeps the heap's invariant and every caller's claim to what it
  carries.
*/
module HeapRuns {
  import opened Words
  import opened Chains
  import opened PageRefs
  import opened HeapState
  import opened HeapSteps
  import opened HeapPages
  import opened HeapFree
  import opened Allocations
  import opened KMalloc

  /** Where a caller is, and what it has in its hands. */
  datatype Phase =
    | Idle
    | NeedPage(b: nat, sz: nat)                                  // no page of the size has room
    | HavePage(b: nat, sz: nat, page: nat)
    | NeedRefPage(b: nat, sz: nat, page: nat, slot: nat)         // the slot's root has no page yet
    | HaveRefPage(b: nat, sz: nat, page: nat, slot: nat, va: nat)  // va is 0 if there was none
    | SpareRefPage(b: nat, sz: nat, page: nat, slot: nat, va: nat) // someone else was faster
    | HaveSlot(b: nat, sz: nat, page: nat, slot: nat)
    | Returning(page: nat)                                       // the page is to be given back

  datatype System = System(h: State, callers: map<nat, Phase>)

  datatype Event =
    | Hit(sz: nat, b: nat, s: nat)
    | Miss(sz: nat, b: nat)
    | GetPage(va: nat)
    | GetSlot(slot: nat)
    | NoSlot
    | GetRefPage(va: nat)
    | Settle
    | ReturnSpare
    | Finish
    | ReturnPage
    | Free(s: nat, a: nat)
    | FreeLast(s: nat, a: nat)
    | BigAlloc(sz: nat, n: nat, va: nat)
    | BigFree(va: nat)

  function OwnPages(p: Phase): set<nat> {
    match p
    case Idle => {}
    case NeedPage(_, _) => {}
    case HavePage(_, _, page) => {page}
    case NeedRefPage(_, _, page, _) => {page}
    case HaveRefPage(_, _, page, _, va) => if va == 0 then {page} else {page, va}
    case SpareRefPage(_, _, page, _, va) => {page, va}
    case HaveSlot(_, _, page, _) => {page}
    case Returning(page) => {page}
  }

  function OwnSlots(p: Phase): set<nat> {
    match p
    case NeedRefPage(_, _, _, slot) => {slot}
    case HaveRefPage(_, _, _, slot, _) => {slot}
    case SpareRefPage(_, _, _, slot, _) => {slot}
    case HaveSlot(_, _, _, slot) => {slot}
    case _ => {}
  }

  ghost predicate RequestOk(p: Phase) {
    p.Idle? || p.Returning? || (p.b < NSIZES && p.sz <= Size(p.b))
  }

  ghost predicate RootHasPage(h: State, slot: nat) {
    slot / PER_PAGE < |h.roots| && h.roots[slot / PER_PAGE].page != 0
  }

  /** Pages in hand are held by nobody else; slots in hand are taken. */
  ghost predicate PhaseOk(h: State, p: Phase) {
    && RequestOk(p)
    && (forall a :: a in OwnPages(p) ==> a in h.held && h.held[a] == Holding(1, Transit))
    && (p.HaveRefPage? && p.va != 0 ==> p.page != p.va)
    && (p.SpareRefPage? ==> p.page != p.va)
    && (forall s :: s in OwnSlots(p) ==> s in h.pending)
    && (p.SpareRefPage? || p.HaveSlot? ==> RootHasPage(h, p.slot))
  }

  ghost predicate Apart2(p: Phase, q: Phase) {
    OwnPages(p) !! OwnPages(q) && OwnSlots(p) !! OwnSlots(q)
  }

  ghost predicate Inv(g: System) {
    && Ok(g.h)
    && (forall t :: t in g.callers ==> PhaseOk(g.h, g.callers[t]))
    && (forall t, u :: t in g.callers && u in g.callers && t != u ==> Apart2(g.callers[t], g.callers[u]))
  }

  // ---------- the steps ----------

  /** The block type a request is given: the smallest that is big enough. */
  ghost predicate TypeFor(sz: nat, b: nat) {
    b < NSIZES && sz <= Size(b) && forall c: nat :: c < b ==> Size(c) < sz
  }

  /** The end of a small allocation that needed a fresh page. */
  ghost predicate Publishes(h: State, b: nat, sz: nat, page: nat, slot: nat, h': State) {
    && b < NSIZES && |h.sizebases| == NSIZES == |h.same|
    && PopSafe(Published(h, slot, page, b), slot)
    && h' == Popped(Published(h, slot, page, b), slot, sz)
  }

  ghost predicate FirstClearSlot(h: State, slot: nat) {
    && RootsOk(h.roots) && slot < NROOTS * PER_PAGE && !Bit(h.roots, slot)
    && forall s: nat :: s < slot ==> Bit(h.roots, s)
  }

  ghost predicate Local(h: State, p: Phase, e: Event, h': State, p': Phase) {
    match e
    case Hit(sz, b, s) =>
      && p.Idle? && p'.Idle? && sz < LARGEST && TypeFor(sz, b)
      && FirstFit(h, b, s) && PopSafe(h, s) && h' == Popped(h, s, sz)
    case Miss(sz, b) =>
      p.Idle? && sz < LARGEST && TypeFor(sz, b) && NoRoom(h, b) && h' == h && p' == NeedPage(b, sz)
    case GetPage(va) =>
      && p.NeedPage?
      && if va == 0 then h' == h && p' == Idle
         else Grantable(h, va, 1) && h' == Granted(h, va, 1, Transit) && p' == HavePage(p.b, p.sz, va)
    case GetSlot(slot) =>
      && p.HavePage? && FirstClearSlot(h, slot)
      && if RootHasPage(h, slot) then Publishes(Taken(h, slot), p.b, p.sz, p.page, slot, h') && p' == Idle
         else h' == Taken(h, slot) && p' == NeedRefPage(p.b, p.sz, p.page, slot)
    case NoSlot =>
      && p.HavePage? && RootsOk(h.roots) && (forall s: nat :: s < NROOTS * PER_PAGE ==> Bit(h.roots, s))
      && h' == h && p' == Returning(p.page)
    case GetRefPage(va) =>
      && p.NeedRefPage? && p' == HaveRefPage(p.b, p.sz, p.page, p.slot, va)
      && if va == 0 then h' == h else Grantable(h, va, 1) && h' == Granted(h, va, 1, Transit)
    case Settle =>
      && p.HaveRefPage?
      && if RootHasPage(h, p.slot) then
           if p.va == 0 then Publishes(h, p.b, p.sz, p.page, p.slot, h') && p' == Idle
           else h' == h && p' == SpareRefPage(p.b, p.sz, p.page, p.slot, p.va)
         else
           if p.va == 0 then h' == h && p' == Returning(p.page)
           else
             && p.slot / PER_PAGE < NROOTS == |h.roots|
             && Publishes(Installed(h, p.slot / PER_PAGE, p.va), p.b, p.sz, p.page, p.slot, h') && p' == Idle
    case ReturnSpare =>
      p.SpareRefPage? && h' == Dropped(h, p.va) && p' == HaveSlot(p.b, p.sz, p.page, p.slot)
    case Finish =>
      p.HaveSlot? && Publishes(h, p.b, p.sz, p.page, p.slot, h') && p' == Idle
    case ReturnPage =>
      p.Returning? && h' == Dropped(h, p.page) && p' == Idle
    case Free(s, a) =>
      p.Idle? && KeepsPage(h, s, a, h') && p' == Idle
    case FreeLast(s, a) =>
      p.Idle? && LosesPage(h, s, a, h') && s in h.pab && p' == Returning(PageAddr(h.pab[s]))
    case BigAlloc(sz, n, va) =>
      && p.Idle? && p'.Idle? && LARGEST <= sz < WORD && n == NPages(sz)
      && if va == 0 || n == 0 then h' == h else Grantable(h, va, n) && h' == Granted(h, va, n, Big(sz))
    case BigFree(va) =>
      p.Idle? && p'.Idle? && va in h.held && h.held[va].use.Big? && h' == Dropped(h, va)
  }

  ghost predicate Next(g: System, g': System, t: nat, e: Event) {
    && t in g.callers && t in g'.callers
    && Local(g.h, g.callers[t], e, g'.h, g'.callers[t])
    && g'.callers == g.callers[t := g'.callers[t]]
  }

  // ---------- what a step leaves to the others ----------

  /** Of what is in anybody's hands, at most the given pages and slots change. */
  ghost predicate Leaves(h: State, h': State, pages: set<nat>, slots: set<nat>) {
    && (forall a :: a in h.held && h.held[a].use.Transit? && a !in pages ==> a in h'.held && h'.held[a] == h.held[a])
    && (forall s :: s in h.pending && s !in slots ==> s in h'.pending)
    && (forall s: nat :: RootHasPage(h, s) ==> RootHasPage(h', s))
  }

  lemma OthersKeep(h: State, h': State, p: Phase, q: Phase)
    requires PhaseOk(h, q) && Apart2(p, q) && Leaves(h, h', OwnPages(p), OwnSlots(p))
    ensures PhaseOk(h', q)
  {
  }

  /** What a caller newly holds was in nobody's hands. */
  ghost predicate Acquires(h: State, p: Phase, p': Phase) {
    && (forall a :: a in OwnPages(p') ==> a in OwnPages(p) || a !in h.held || !h.held[a].use.Transit?)
    && (forall s :: s in OwnSlots(p') ==> s in OwnSlots(p) || s !in h.pending)
  }

  lemma OthersApart(h: State, p: Phase, p': Phase, q: Phase)
    requires PhaseOk(h, q) && Apart2(p, q) && Acquires(h, p, p')
    ensures Apart2(p', q) && Apart2(q, p')
  {
    hide OwnPages, OwnSlots, RequestOk, RootHasPage;
  }

  /** What a step of one caller must do for the whole system to stay consistent. */
  ghost predicate Advances(h: State, p: Phase, h': State, p': Phase) {
    && Ok(h') && PhaseOk(h', p')
    && Leaves(h, h', OwnPages(p), OwnSlots(p)) && Acquires(h, p, p')
  }

  lemma CallerStep(g: System, t: nat, h': State, p': Phase)
    requires Inv(g) && t in g.callers && Advances(g.h, g.callers[t], h', p')
    ensures Inv(System(h', g.callers[t := p']))
  {
    hide Ok, Leaves, RootHasPage, RequestOk, Acquires, OwnPages, OwnSlots, PhaseOk, Apart2;
    var p := g.callers[t];
    forall u | u in g.callers && u != t ensures PhaseOk(h', g.callers[u]) && Apart2(p', g.callers[u]) && Apart2(g.callers[u], p') {
      var q := g.callers[u];
      assert PhaseOk(g.h, q) && Apart2(p, q);
      OthersKeep(g.h, h', p, q);
      OthersApart(g.h, p, p', q);
    }
  }

  // ---------- each step keeps the invariant ----------

  /** A step that touches no page in hand, no pending slot and no root's page. */
  lemma HandsFrame(h: State, h': State, pages: set<nat>, slots: set<nat>)
    requires h'.held == h.held && h'.pending == h.pending && h'.roots == h.roots
    ensures Leaves(h, h', pages, slots)
  {
  }

  lemma HitStep(h: State, sz: nat, b: nat, s: nat)
    requires Ok(h) && TypeFor(sz, b) && FirstFit(h, b, s) && PopSafe(h, s)
    ensures Advances(h, Idle, Popped(h, s, sz), Idle)
  {
    hide Ok, Size, FirstFit, Leaves, PageAddr;
    PopFound(h, b, s, sz);
    HandsFrame(h, Popped(h, s, sz), {}, {});
    hide PopSafe;
  }

  lemma SameHeap(h: State, p: Phase, p': Phase)
    requires Ok(h) && PhaseOk(h, p')
    requires OwnPages(p') <= OwnPages(p) && OwnSlots(p') <= OwnSlots(p)
    ensures Advances(h, p, h, p')
  {
    hide Ok, PhaseOk, OwnPages, OwnSlots;
  }

  lemma GrantLeaves(h: State, va: nat, n: nat, use: Use, pages: set<nat>, slots: set<nat>)
    requires va !in h.held
    ensures Leaves(h, Granted(h, va, n, use), pages, slots)
  {
  }

  lemma GrantPhase(h: State, p: Phase, p': Phase, va: nat)
    requires PhaseOk(h, p) && RequestOk(p') && va !in h.held
    requires OwnPages(p') == OwnPages(p) + {va} && OwnSlots(p') <= OwnSlots(p)
    requires !p'.SpareRefPage? && !p'.HaveSlot? && (p'.HaveRefPage? ==> p'.page in OwnPages(p) && p'.va == va)
    ensures PhaseOk(Granted(h, va, 1, Transit), p') && Acquires(h, p, p')
  {
    hide OwnPages, OwnSlots, RequestOk, RootHasPage;
  }

  lemma GrantStep(h: State, p: Phase, p': Phase, va: nat)
    requires Ok(h) && PhaseOk(h, p) && RequestOk(p') && Grantable(h, va, 1)
    requires OwnPages(p') == OwnPages(p) + {va} && OwnSlots(p') <= OwnSlots(p)
    requires !p'.SpareRefPage? && !p'.HaveSlot? && (p'.HaveRefPage? ==> p'.page in OwnPages(p) && p'.va == va)
    ensures Advances(h, p, Granted(h, va, 1, Transit), p')
  {
    hide Ok, OwnPages, OwnSlots, RequestOk, Leaves, Acquires, PhaseOk, Granted;
    GrantOk(h, va, 1, Transit);
    GrantLeaves(h, va, 1, Transit, OwnPages(p), OwnSlots(p));
    GrantPhase(h, p, p', va);
  }

  lemma BigStep(h: State, sz: nat, n: nat, va: nat)
    requires Ok(h) && sz < WORD && n == NPages(sz) && n > 0 && Grantable(h, va, n)
    ensures Advances(h, Idle, Granted(h, va, n, Big(sz)), Idle)
  {
    NPagesEnough(sz);
    hide Ok, NPages;
    GrantOk(h, va, n, Big(sz));
  }

  lemma DropStep(h: State, p: Phase, p': Phase, va: nat)
    requires Ok(h) && PhaseOk(h, p) && RequestOk(p')
    requires va in h.held && (h.held[va].use.Big? || (h.held[va].use.Transit? && va in OwnPages(p)))
    requires OwnPages(p') <= OwnPages(p) - {va} && OwnSlots(p') <= OwnSlots(p)
    requires !p'.HaveRefPage? && !p'.SpareRefPage? && (p'.HaveSlot? ==> RootHasPage(h, p'.slot))
    ensures Advances(h, p, Dropped(h, va), p')
  {
    hide Ok, OwnPages, OwnSlots, RequestOk;
    DropOk(h, va);
  }

  lemma TakeStep(h: State, p: Phase, slot: nat)
    requires Ok(h) && PhaseOk(h, p) && p.HavePage? && FirstClearSlot(h, slot)
    ensures Advances(h, p, Taken(h, slot), NeedRefPage(p.b, p.sz, p.page, slot)) && slot !in h.pending
  {
    TakeOk(h, slot);
    PutPages(h.roots, slot);
    hide Ok, Put, Bit, Size;
  }

  lemma PutPages(roots: seq<Root>, s: nat)
    requires RootsOk(roots) && s < NROOTS * PER_PAGE
    ensures |Put(roots, s, true, 1)| == |roots| == NROOTS
    ensures forall r :: 0 <= r < NROOTS ==> Put(roots, s, true, 1)[r].page == roots[r].page
  {
  }

  lemma FinishStep(h: State, p: Phase, b: nat, sz: nat, page: nat, slot: nat, h': State)
    requires Ok(h) && b < NSIZES && sz <= Size(b) && Publishes(h, b, sz, page, slot, h')
    requires slot in h.pending && RootHasPage(h, slot) && page in h.held && h.held[page] == Holding(1, Transit)
    requires page in OwnPages(p) && slot in OwnSlots(p)
    ensures Advances(h, p, h', Idle)
  {
    assert PhaseOk(h', Idle) && Acquires(h, p, Idle);
    hide Ok, Size, OwnPages, OwnSlots, Published, Popped, PopSafe, RootHasPage, PhaseOk, Acquires, Leaves;
    SlotReady(h, page, slot);
    hide Ready;
    PublishOk(h, slot, page, b, sz);
    FinishLeaves(h, p, b, sz, page, slot, h');
  }

  lemma SlotReady(h: State, page: nat, slot: nat)
    requires Ok(h) && slot in h.pending && RootHasPage(h, slot) && page in h.held && h.held[page] == Holding(1, Transit)
    ensures Ready(h, slot, page)
  {
    hide Ok;
    RootsOfOk(h);
  }

  lemma FinishLeaves(h: State, p: Phase, b: nat, sz: nat, page: nat, slot: nat, h': State)
    requires Publishes(h, b, sz, page, slot, h')
    requires page in OwnPages(p) && slot in OwnSlots(p)
    ensures Leaves(h, h', OwnPages(p), OwnSlots(p))
  {
    hide OwnPages, OwnSlots, Fresh, FreshLinks, LastOffset, Size, Blocks, Pack, PageAddr;
    assert h'.held == h.held[page := Holding(1, HeapPage(slot))] && h'.pending == h.pending - {slot} && h'.roots == h.roots;
    hide PopSafe, Published, Popped;
  }

  /** Two consecutive stretches of one caller, the lock held throughout. */
  lemma Then(h: State, p: Phase, h1: State, p1: Phase, h2: State)
    requires Advances(h, p, h1, p1) && Advances(h1, p1, h2, Idle)
    ensures Advances(h, p, h2, Idle)
  {
    hide Ok, RootHasPage;
    assert OwnPages(Idle) == {} && OwnSlots(Idle) == {};
    hide OwnPages, OwnSlots;
  }

  lemma TakeBackedStep(h: State, p: Phase, slot: nat)
    requires Ok(h) && PhaseOk(h, p) && p.HavePage? && FirstClearSlot(h, slot) && RootHasPage(h, slot)
    ensures Advances(h, p, Taken(h, slot), HaveSlot(p.b, p.sz, p.page, slot))
  {
    TakeStep(h, p, slot);
    hide Ok, Taken, Size;
  }

  lemma InstallStep(h: State, p: Phase)
    requires Ok(h) && PhaseOk(h, p) && p.HaveRefPage? && p.va != 0 && !RootHasPage(h, p.slot)
    ensures p.slot / PER_PAGE < NROOTS == |h.roots|
    ensures Advances(h, p, Installed(h, p.slot / PER_PAGE, p.va), HaveSlot(p.b, p.sz, p.page, p.slot))
  {
    hide Ok, Size, Bit;
    assert p.slot in OwnSlots(p) && p.va in OwnPages(p) && p.page in OwnPages(p);
    RootsOfOk(h);
    InstallOk(h, p.slot / PER_PAGE, p.va);
    hide RootOk;
  }

  lemma FreeStep(h: State, s: nat, a: nat, h': State)
    requires Ok(h) && KeepsPage(h, s, a, h')
    ensures Advances(h, Idle, h', Idle)
  {
    hide Ok, Empties, Aligned, PageAddr, Leaves;
    ReturnOk(h, s, a);
    HandsFrame(h, h', {}, {});
    hide Returns;
  }

  lemma FreeLastStep(h: State, s: nat, a: nat, h': State)
    requires Ok(h) && LosesPage(h, s, a, h')
    ensures s in h.pab && Advances(h, Idle, h', Returning(PageAddr(h.pab[s])))
  {
    hide Ok, LosesPage, PageAddr, PageOf;
    LostPage(h, s, a, h');
    LostHands(h, s, a, h');
    OwnHeapPage(h, s);
    assert Ok(h') by { LostOk(h, s, a, h'); }
    hide RootHasPage;
  }

  lemma LostOk(h: State, s: nat, a: nat, h': State)
    requires Ok(h) && LosesPage(h, s, a, h')
    ensures Ok(h')
  {
    hide Ok, Empties, PageAddr, BlockType, Stranded, Retired, Retirable, Aligned;
    ReturnOk(h, s, a);
  }

  lemma LostHands(h: State, s: nat, a: nat, h': State)
    requires LosesPage(h, s, a, h')
    ensures s in h.all && s in h.pab && h'.pending == h.pending
    ensures forall t: nat :: RootHasPage(h', t) <==> RootHasPage(h, t)
  {
    hide Empties, PageAddr, BlockType, Stranded, Retired, Retirable;
    var h1 := Pushed(h, s, a);
    RetiredHands(h1, s);
    assert forall t: nat :: RootHasPage(h', t) <==> RootHasPage(h1, t);
    assert forall t: nat :: RootHasPage(h1, t) <==> RootHasPage(h, t);
  }

  lemma OwnHeapPage(h: State, s: nat)
    requires Ok(h) && s in h.all
    ensures s in h.pab && PageAddr(h.pab[s]) in h.held && h.held[PageAddr(h.pab[s])].use.HeapPage?
  {
    assert SlotOk(h, s);
  }

  lemma RetiredHands(h: State, s: nat)
    requires Retirable(h, s)
    ensures Retired(h, s).held == h.held[PageAddr(h.pab[s]) := Holding(1, Transit)]
    ensures Retired(h, s).pending == h.pending
    ensures forall t: nat :: RootHasPage(Retired(h, s), t) <==> RootHasPage(h, t)
  {
    assert Retired(h, s).roots == Put(h.roots, s, false, -1) by { hide Put, Bit, PageAddr, Without, Chain; }
    hide PageAddr, Without, Chain;
    forall t: nat ensures RootHasPage(Retired(h, s), t) <==> RootHasPage(h, t) {
    }
  }

  /** Every step of every caller keeps the invariant. */
  lemma StepKeeps(g: System, g': System, t: nat, e: Event)
    requires Inv(g) && Next(g, g', t, e)
    ensures Inv(g')
  {
    var h, p, h', p' := g.h, g.callers[t], g'.h, g'.callers[t];
    assert PhaseOk(h, p);
    hide Ok, Inv;
    LocalAdvances(h, p, e, h', p');
    hide Local, Advances, PhaseOk;
    CallerStep(g, t, h', p');
    assert g' == System(h', g.callers[t := p']);
  }

  lemma LocalAdvances(h: State, p: Phase, e: Event, h': State, p': Phase)
    requires Ok(h) && PhaseOk(h, p) && Local(h, p, e, h', p')
    ensures Advances(h, p, h', p')
  {
    hide Ok, Advances, Taken, Installed, Dropped, Granted, Retired, Popped, Published, Publishes, Grantable, FirstFit;
    hide KeepsPage, LosesPage, Size, PopSafe, FirstClearSlot, NPages;
    match e
    case Hit(sz, b, s) => HitStep(h, sz, b, s);
    case Miss(sz, b) => SameHeap(h, p, p');
    case GetPage(va) => if va == 0 { SameHeap(h, p, p'); } else { GrantStep(h, p, p', va); }
    case GetSlot(slot) => SlotStep(h, p, slot, h', p');
    case NoSlot => SameHeap(h, p, p');
    case GetRefPage(va) => if va == 0 { SameHeap(h, p, p'); } else { GrantStep(h, p, p', va); }
    case Settle => SettleStep(h, p, h', p');
    case ReturnSpare => DropStep(h, p, p', p.va);
    case Finish => FinishStep(h, p, p.b, p.sz, p.page, p.slot, h');
    case ReturnPage => DropStep(h, p, p', p.page);
    case Free(s, a) => FreeStep(h, s, a, h');
    case FreeLast(s, a) => FreeLastStep(h, s, a, h');
    case BigAlloc(sz, n, va) => if va == 0 || n == 0 { SameHeap(h, p, p'); } else { BigStep(h, sz, n, va); }
    case BigFree(va) => DropStep(h, p, p', va);
  }

  lemma SlotStep(h: State, p: Phase, slot: nat, h': State, p': Phase)
    requires Ok(h) && PhaseOk(h, p) && Local(h, p, GetSlot(slot), h', p')
    ensures Advances(h, p, h', p')
  {
    hide Ok, Taken, Publishes, Size, Bit;
    if RootHasPage(h, slot) {
      var q := HaveSlot(p.b, p.sz, p.page, slot);
      TakeBackedStep(h, p, slot);
      FinishStep(Taken(h, slot), q, p.b, p.sz, p.page, slot, h');
      hide Advances;
      Then(h, p, Taken(h, slot), q, h');
    } else {
      TakeStep(h, p, slot);
    }
  }

  lemma SettleStep(h: State, p: Phase, h': State, p': Phase)
    requires Ok(h) && PhaseOk(h, p) && Local(h, p, Settle, h', p')
    ensures Advances(h, p, h', p')
  {
    hide Ok, Installed, Publishes, Size;
    if RootHasPage(h, p.slot) {
      if p.va == 0 {
        FinishStep(h, p, p.b, p.sz, p.page, p.slot, h');
      } else {
        SameHeap(h, p, p');
      }
    } else if p.va == 0 {
      SameHeap(h, p, p');
    } else {
      var q, h1 := HaveSlot(p.b, p.sz, p.page, p.slot), Installed(h, p.slot / PER_PAGE, p.va);
      InstallStep(h, p);
      FinishStep(h1, q, p.b, p.sz, p.page, p.slot, h');
      hide Advances;
      Then(h, p, h1, q, h');
    }
  }

  // ---------- runs ----------

  ghost predicate NoneMarked(h: State) {
    RootsOk(h.roots) && forall s: nat :: !Bit(h.roots, s)
  }

  ghost predicate Start(g: System) {
    && Ok(g.h) && g.h.live == map[] && g.h.held == map[] && g.h.pending == {} && NoneMarked(g.h)
    && forall t :: t in g.callers ==> g.callers[t].Idle?
  }

  /** A run from an empty heap: any callers, any interleaving, any outcome of alloc_kpages. */
  ghost predicate Run(gs: seq<System>) {
    && gs != [] && Start(gs[0])
    && forall i :: 0 <= i < |gs| - 1 ==> Follows(gs[i], gs[i + 1])
  }

  ghost predicate Follows(g: System, g': System) {
    exists t, e :: Next(g, g', t, e)
  }

  lemma {:induction false} RunKeeps(gs: seq<System>, i: nat)
    requires Run(gs) && i < |gs|
    ensures Inv(gs[i])
  {
    hide Ok, Next;
    if i > 0 {
      RunKeeps(gs, i - 1);
      var k := i - 1;
      var t, e :| Next(gs[k], gs[k + 1], t, e);
      StepKeeps(gs[k], gs[k + 1], t, e);
    }
  }

  /** In every state of every run, allocations are big enough, aligned and pairwise disjoint. */
  lemma RunAllocations(gs: seq<System>, i: nat, x: nat, y: nat)
    requires Run(gs) && i < |gs| && Allocated(gs[i].h, x) && Allocated(gs[i].h, y)
    ensures Ok(gs[i].h)
    ensures var h := gs[i].h;
      && Requested(h, x) <= Bytes(h, x)
      && (x in h.live ==> x % Bytes(h, x) == 0 && x % PAGE + Bytes(h, x) <= PAGE)
      && (x !in h.live ==> x % PAGE == 0)
      && (x != y ==> Disjoint(x, Bytes(h, x), y, Bytes(h, y)))
  {
    RunKeeps(gs, i);
    hide Ok, Run;
    BigEnough(gs[i].h, x);
    if x != y { AllDisjoint(gs[i].h, x, y); }
  }

  // ---------- a step disturbs no allocation but the one it frees ----------

  function Frees(e: Event): set<nat> {
    match e
    case Free(_, a) => {a}
    case FreeLast(_, a) => {a}
    case BigFree(va) => {va}
    case _ => {}
  }

  ghost predicate Persists(h: State, h': State, x: nat) {
    && Ok(h) && Ok(h') && Allocated(h, x) && Allocated(h', x)
    && Bytes(h, x) == Bytes(h', x) && Requested(h, x) == Requested(h', x)
  }

  /** What a step leaves of the tables that say where allocations are and how big. */
  ghost predicate Frame(h: State, h': State, freed: set<nat>) {
    && (forall x :: x in h.live && x !in freed ==> x in h'.live && h'.live[x] == h.live[x])
    && (forall s :: s in h.all && s in h.pab ==> s in h'.pab && h'.pab[s] == h.pab[s])
    && (forall p :: p in h.held && h.held[p].use.Big? && p !in freed ==> p in h'.held && h'.held[p] == h.held[p])
    && (forall p :: p in h.held && h.held[p].use.HeapPage? ==>
          p in h'.held && (h'.held[p] == h.held[p] || h'.held[p].use.Transit?))
  }

  lemma FramePersists(h: State, h': State, freed: set<nat>, x: nat)
    requires Ok(h) && Ok(h') && Frame(h, h', freed) && Allocated(h, x) && x !in freed
    ensures Persists(h, h', x)
  {
    hide Ok;
    if x in h.live {
      SmallFacts(h, x);
      SmallFacts(h', x);
      WhereIs(h, x);
    } else {
      WhoFrees(h', x);
    }
  }

  lemma WhereIs(h: State, x: nat)
    requires Ok(h) && x in h.live
    ensures PageOf(x) in h.held && h.held[PageOf(x)].use.HeapPage?
    ensures h.held[PageOf(x)].use.slot in h.all && h.held[PageOf(x)].use.slot in h.pab
  {
    assert LiveOk(h, x);
  }

  lemma HitFrame(h: State, sz: nat, b: nat, s: nat)
    requires Ok(h) && TypeFor(sz, b) && FirstFit(h, b, s) && PopSafe(h, s)
    ensures Frame(h, Popped(h, s, sz), {})
  {
    hide Ok, Size, FirstFit, PageAddr;
    PopFound(h, b, s, sz);
  }

  lemma FinishFrame(h: State, b: nat, sz: nat, page: nat, slot: nat, h': State)
    requires Ok(h) && b < NSIZES && sz <= Size(b) && Publishes(h, b, sz, page, slot, h')
    requires slot in h.pending && RootHasPage(h, slot) && page in h.held && h.held[page] == Holding(1, Transit)
    ensures Frame(h, h', {})
  {
    hide Ok, Size, RootHasPage, PageAddr, Fresh, FreshLinks, LastOffset, Blocks, Pack;
    SlotReady(h, page, slot);
    hide Ready, PopSafe;
    PublishOk(h, slot, page, b, sz);
    PendingUnlisted(h, slot);
  }

  lemma PendingUnlisted(h: State, slot: nat)
    requires Ok(h) && slot in h.pending
    ensures slot !in h.all
  {
    assert slot in h.all ==> SlotOk(h, slot);
  }

  /** Steps that leave the blocks alone, and of the page ranges change only what is in hand. */
  lemma HandFrame(h: State, h': State)
    requires h'.live == h.live && h'.pab == h.pab
    requires forall p :: p in h.held && !h.held[p].use.Transit? ==> p in h'.held && h'.held[p] == h.held[p]
    ensures Frame(h, h', {})
  {
  }

  lemma GrantFrame(h: State, va: nat, n: nat, use: Use)
    requires va !in h.held
    ensures Frame(h, Granted(h, va, n, use), {})
  {
  }

  lemma DropFrame(h: State, va: nat)
    requires va in h.held && !h.held[va].use.HeapPage?
    ensures h.held[va].use.Transit? ==> Frame(h, Dropped(h, va), {})
    ensures Frame(h, Dropped(h, va), {va})
  {
  }

  lemma FreeFrame(h: State, s: nat, a: nat, h': State)
    requires Ok(h) && KeepsPage(h, s, a, h')
    ensures Frame(h, h', {a})
  {
    hide Ok, KeepsPage;
    KeptTables(h, s, a, h');
  }

  lemma FreeLastFrame(h: State, s: nat, a: nat, h': State)
    requires Ok(h) && LosesPage(h, s, a, h')
    ensures Frame(h, h', {a})
  {
    hide Ok, LosesPage, PageOf, PageAddr;
    LostPage(h, s, a, h');
    WhereIs(h, a);
  }

  lemma SettleFrame(h: State, p: Phase, h': State, p': Phase)
    requires Ok(h) && PhaseOk(h, p) && Local(h, p, Settle, h', p')
    ensures Frame(h, h', {})
  {
    hide Ok, Publishes, Size, Installed, Frame;
    assert p.page in OwnPages(p) && p.slot in OwnSlots(p) && p.slot in h.pending;
    if p.va != 0 && !RootHasPage(h, p.slot) {
      InstallFinish(h, p, h');
    } else if p.va == 0 && RootHasPage(h, p.slot) {
      FinishFrame(h, p.b, p.sz, p.page, p.slot, h');
    } else {
      HandFrame(h, h);
    }
  }

  lemma SlotInHand(h: State, p: Phase, h': State, p': Phase)
    requires Advances(h, p, h', p') && p'.HaveSlot?
    ensures Ok(h') && p'.slot in h'.pending && RootHasPage(h', p'.slot)
    ensures p'.page in h'.held && h'.held[p'.page] == Holding(1, Transit) && p'.b < NSIZES && p'.sz <= Size(p'.b)
  {
    hide Ok, Leaves, Acquires, Size, RootHasPage;
    assert p'.page in OwnPages(p') && p'.slot in OwnSlots(p');
  }

  lemma InstallFinish(h: State, p: Phase, h': State)
    requires Ok(h) && PhaseOk(h, p) && p.HaveRefPage? && p.va != 0 && !RootHasPage(h, p.slot)
    requires p.slot / PER_PAGE < NROOTS == |h.roots|
    requires Publishes(Installed(h, p.slot / PER_PAGE, p.va), p.b, p.sz, p.page, p.slot, h')
    ensures Frame(h, h', {})
  {
    var h1, q := Installed(h, p.slot / PER_PAGE, p.va), HaveSlot(p.b, p.sz, p.page, p.slot);
    assert p.va in OwnPages(p) && h.held[p.va] == Holding(1, Transit);
    hide Ok, Publishes, Size, Frame, Installed, PhaseOk, Advances, RootHasPage;
    InstallStep(h, p);
    SlotInHand(h, p, h1, q);
    FinishFrame(h1, p.b, p.sz, p.page, p.slot, h');
    InstalledFrame(h, p.slot / PER_PAGE, p.va, h');
  }

  lemma InstalledFrame(h: State, r: nat, va: nat, h': State)
    requires r < NROOTS == |h.roots| && Frame(Installed(h, r, va), h', {})
    requires va in h.held && h.held[va].use.Transit?
    ensures Frame(h, h', {})
  {
  }

  lemma SlotFrame(h: State, p: Phase, slot: nat, h': State, p': Phase)
    requires Ok(h) && PhaseOk(h, p) && Local(h, p, GetSlot(slot), h', p')
    ensures Frame(h, h', {})
  {
    hide Ok, Publishes, Size, Bit, Put;
    if RootHasPage(h, slot) {
      TakeBackedStep(h, p, slot);
      FinishFrame(Taken(h, slot), p.b, p.sz, p.page, slot, h');
    } else {
      HandFrame(h, h');
    }
  }

  lemma LocalFrame(h: State, p: Phase, e: Event, h': State, p': Phase)
    requires Ok(h) && PhaseOk(h, p) && Local(h, p, e, h', p')
    ensures Frame(h, h', Frees(e))
  {
    hide Ok, Frame, Taken, Installed, Dropped, Granted, Retired, Popped, Published, Publishes, FirstFit;
    hide KeepsPage, LosesPage, Size, PopSafe, FirstClearSlot, NPages;
    match e
    case Hit(sz, b, s) => HitFrame(h, sz, b, s);
    case Miss(_, _) => HandFrame(h, h);
    case GetPage(va) => if va == 0 { HandFrame(h, h); } else { GrantFrame(h, va, 1, Transit); }
    case GetSlot(slot) => SlotFrame(h, p, slot, h', p');
    case NoSlot => HandFrame(h, h);
    case GetRefPage(va) => if va == 0 { HandFrame(h, h); } else { GrantFrame(h, va, 1, Transit); }
    case Settle => SettleFrame(h, p, h', p');
    case ReturnSpare => DropFrame(h, p.va);
    case Finish => FinishFrame(h, p.b, p.sz, p.page, p.slot, h');
    case ReturnPage => DropFrame(h, p.page);
    case Free(s, a) => FreeFrame(h, s, a, h');
    case FreeLast(s, a) => FreeLastFrame(h, s, a, h');
    case BigAlloc(sz, n, va) => if va == 0 || n == 0 { HandFrame(h, h); } else { GrantFrame(h, va, n, Big(sz)); }
    case BigFree(va) => DropFrame(h, va);
  }

  /** Whatever one caller does, every allocation it does not free stays where it is, as it is. */
  lemma StepPersists(g: System, g': System, t: nat, e: Event, x: nat)
    requires Inv(g) && Next(g, g', t, e) && Allocated(g.h, x) && x !in Frees(e)
    ensures Persists(g.h, g'.h, x)
  {
    var p, p' := g.callers[t], g'.callers[t];
    assert PhaseOk(g.h, p);
    StepKeeps(g, g', t, e);
    hide Ok, Local, PhaseOk, Frame, Persists;
    LocalFrame(g.h, p, e, g'.h, p');
    FramePersists(g.h, g'.h, Frees(e), x);
  }
}
