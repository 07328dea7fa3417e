/**
  A run of the heap that ends in a failed assertion (kern/vm/kmalloc.c:283-290, 318-319):
  256 allocations that find no page for the descriptors each leave a bit set in root 0; the
  next one takes a descriptor from root 1; freeing its block then walks over root 0, whose
  counter is positive although it has no page.
*/
module HeapLeak {
  import opened Basics
  import opened PageRefs
  import opened HeapState
  import opened HeapSteps
  import opened HeapPages
  import opened HeapFree
  import opened Allocations
  import opened KMalloc
  import opened HeapRuns

  ghost predicate Reachable(g: System) {
    exists gs :: gs != [] && Run(gs) && gs[|gs| - 1] == g
  }

  lemma Reach(g: System, g': System, t: nat, e: Event)
    requires Reachable(g) && Next(g, g', t, e)
    ensures Reachable(g')
  {
    hide Next, Start;
    var gs :| gs != [] && Run(gs) && gs[|gs| - 1] == g;
    var gs' := gs + [g'];
    assert Follows(g, g');
    hide Follows;
    forall i | 0 <= i < |gs'| - 1 ensures Follows(gs'[i], gs'[i + 1]) {
      if i < |gs| - 1 { assert gs'[i] == gs[i] && gs'[i + 1] == gs[i + 1]; }
    }
    assert Run(gs');
  }

  /** One caller, number 0. */
  function Alone(h: State, p: Phase): System { System(h, map[0 := p]) }

  lemma AloneStep(h: State, p: Phase, e: Event, h': State, p': Phase)
    requires Reachable(Alone(h, p)) && Local(h, p, e, h', p')
    ensures Reachable(Alone(h', p'))
  {
    hide Reachable, Local;
    assert map[0 := p][0 := p'] == map[0 := p'];
    Reach(Alone(h, p), Alone(h', p'), 0, e);
  }

  // ---------- the leaks ----------

  function EmptyRoots(): seq<Root> {
    seq(NROOTS, _ => Root(0, seq(WORDS, _ => seq(WORD_BITS, _ => false)), 0))
  }

  function EmptyHeap(roots: seq<Root>, pending: set<nat>): State {
    State(seq(NSIZES, _ => None), None, map[], map[], map[], map[], map[], map[], roots,
          [], seq(NSIZES, _ => []), map[], map[], pending, map[])
  }

  /** The first `n` bits are set, and no root has a page. */
  ghost predicate Leaked(roots: seq<Root>, n: nat) {
    && RootsOk(roots)
    && (forall t: nat :: Bit(roots, t) <==> t < n)
    && (forall r :: 0 <= r < NROOTS ==> roots[r].page == 0)
    && (n <= PER_PAGE ==> roots[0].numinuse == n)
  }

  lemma NoneLeaked()
    ensures Leaked(EmptyRoots(), 0)
  {
    EmptyCount();
  }

  lemma OneMoreLeaked(roots: seq<Root>, n: nat)
    requires Leaked(roots, n) && n < PER_PAGE
    ensures Leaked(Put(roots, n, true, 1), n + 1)
  {
    PutOk(roots, n, true);
    PutFrame(roots, n, true, 1);
    assert n / PER_PAGE == 0;
    hide Bit, RootOk;
  }

  /** With these roots, slot `n` is the first clear one and its root has no page. */
  lemma LeakedSlot(h: State, n: nat)
    requires Leaked(h.roots, n) && n < NROOTS * PER_PAGE
    ensures FirstClearSlot(h, n) && !RootHasPage(h, n)
  {
    hide RootOk;
  }

  const FIRST := 4096
  const SECOND := 8192

  function WithPage(roots: seq<Root>, pending: set<nat>): State {
    Granted(EmptyHeap(roots, pending), FIRST, 1, Transit)
  }

  // Each step of the one caller, from any heap that allows it.

  lemma Misses(h: State)
    requires Reachable(Alone(h, Idle)) && NoRoom(h, 0)
    ensures Reachable(Alone(h, NeedPage(0, 16)))
  {
    assert TypeFor(16, 0);
    hide Reachable, NoRoom, TypeFor;
    AloneStep(h, Idle, Miss(16, 0), h, NeedPage(0, 16));
  }

  lemma GetsPage(h: State)
    requires Reachable(Alone(h, NeedPage(0, 16))) && Grantable(h, FIRST, 1)
    ensures Reachable(Alone(Granted(h, FIRST, 1, Transit), HavePage(0, 16, FIRST)))
  {
    hide Reachable, Grantable, Granted;
    AloneStep(h, NeedPage(0, 16), GetPage(FIRST), Granted(h, FIRST, 1, Transit), HavePage(0, 16, FIRST));
  }

  lemma GetsSlot(h: State, n: nat)
    requires Reachable(Alone(h, HavePage(0, 16, FIRST))) && FirstClearSlot(h, n) && !RootHasPage(h, n)
    ensures Reachable(Alone(Taken(h, n), NeedRefPage(0, 16, FIRST, n)))
  {
    hide Reachable, RootHasPage, Put;
    AloneStep(h, HavePage(0, 16, FIRST), GetSlot(n), Taken(h, n), NeedRefPage(0, 16, FIRST, n));
  }

  lemma GivesUp(h: State, n: nat)
    requires Reachable(Alone(h, NeedRefPage(0, 16, FIRST, n))) && !RootHasPage(h, n)
    ensures Reachable(Alone(Dropped(h, FIRST), Idle))
  {
    hide Reachable, RootHasPage, Dropped;
    AloneStep(h, NeedRefPage(0, 16, FIRST, n), GetRefPage(0), h, HaveRefPage(0, 16, FIRST, n, 0));
    AloneStep(h, HaveRefPage(0, 16, FIRST, n, 0), Settle, h, Returning(FIRST));
    AloneStep(h, Returning(FIRST), ReturnPage, Dropped(h, FIRST), Idle);
  }

  lemma EmptyAllows(roots: seq<Root>, pending: set<nat>)
    ensures NoRoom(EmptyHeap(roots, pending), 0) && Grantable(EmptyHeap(roots, pending), FIRST, 1)
  {
  }

  /** A request for 16 bytes, up to the point where a page for descriptors is needed. */
  lemma UpToRefPage(roots: seq<Root>, pending: set<nat>, n: nat)
    requires Reachable(Alone(EmptyHeap(roots, pending), Idle)) && Leaked(roots, n) && n < NROOTS * PER_PAGE
    ensures RootsOk(WithPage(roots, pending).roots)
    ensures Reachable(Alone(Taken(WithPage(roots, pending), n), NeedRefPage(0, 16, FIRST, n)))
  {
    EmptyAllows(roots, pending);
    LeakedSlot(WithPage(roots, pending), n);
    hide Reachable, NoRoom, Grantable, RootHasPage, Leaked, EmptyHeap;
    Misses(EmptyHeap(roots, pending));
    GetsPage(EmptyHeap(roots, pending));
    GetsSlot(WithPage(roots, pending), n);
  }

  lemma LeakOnce(roots: seq<Root>, pending: set<nat>, n: nat)
    requires Reachable(Alone(EmptyHeap(roots, pending), Idle)) && Leaked(roots, n) && n < PER_PAGE
    ensures Leaked(Put(roots, n, true, 1), n + 1)
    ensures Reachable(Alone(EmptyHeap(Put(roots, n, true, 1), pending + {n}), Idle))
  {
    hide Reachable;
    UpToRefPage(roots, pending, n);
    OneMoreLeaked(roots, n);
    var h := Taken(WithPage(roots, pending), n);
    assert !RootHasPage(h, n) by { assert n / PER_PAGE == 0; }
    GivesUp(h, n);
    assert Dropped(h, FIRST) == EmptyHeap(Put(roots, n, true, 1), pending + {n}) by {
      hide Put;
      assert h.held - {FIRST} == map[];
    }
  }

  lemma {:induction false} LeakMany(n: nat) returns (roots: seq<Root>, pending: set<nat>)
    requires n <= PER_PAGE
    ensures Leaked(roots, n) && Reachable(Alone(EmptyHeap(roots, pending), Idle))
  {
    hide Leaked, Reachable, Put;
    if n == 0 {
      roots, pending := EmptyRoots(), {};
      NoneLeaked();
      Begin();
    } else {
      roots, pending := LeakMany(n - 1);
      LeakOnce(roots, pending, n - 1);
      LeakedOk(roots, n - 1);
      roots, pending := Put(roots, n - 1, true, 1), pending + {n - 1};
    }
  }

  lemma LeakedOk(roots: seq<Root>, n: nat)
    requires Leaked(roots, n)
    ensures RootsOk(roots)
  {
  }

  lemma Begin()
    ensures Reachable(Alone(EmptyHeap(EmptyRoots(), {}), Idle))
  {
    var g := Alone(EmptyHeap(EmptyRoots(), {}), Idle);
    EmptyOk(g.h);
    assert NoneMarked(g.h) by { NoneLeaked(); }
    hide Ok, EmptyHeap, NoneMarked;
    assert Run([g]);
  }

  // ---------- the failure ----------

  /** The allocation after the leaks succeeds, with a descriptor of the second root. */
  lemma GetsRefPage(h: State, n: nat)
    requires Reachable(Alone(h, NeedRefPage(0, 16, FIRST, n))) && Grantable(h, SECOND, 1)
    ensures Reachable(Alone(Granted(h, SECOND, 1, Transit), HaveRefPage(0, 16, FIRST, n, SECOND)))
  {
    hide Reachable, Grantable, Granted;
    AloneStep(h, NeedRefPage(0, 16, FIRST, n), GetRefPage(SECOND), Granted(h, SECOND, 1, Transit), HaveRefPage(0, 16, FIRST, n, SECOND));
  }

  lemma ReachableOk(h: State, p: Phase)
    requires Reachable(Alone(h, p))
    ensures Ok(h) && PhaseOk(h, p)
  {
    hide Run, Ok, PhaseOk;
    var gs :| gs != [] && Run(gs) && gs[|gs| - 1] == Alone(h, p);
    RunKeeps(gs, |gs| - 1);
    assert 0 in Alone(h, p).callers;
  }

  lemma Finishes(h: State, n: nat) returns (h': State)
    requires Reachable(Alone(h, HaveRefPage(0, 16, FIRST, n, SECOND))) && !RootHasPage(h, n)
    ensures n / PER_PAGE < NROOTS == |h.roots| && Reachable(Alone(h', Idle)) && Ok(h')
    ensures Publishes(Installed(h, n / PER_PAGE, SECOND), 0, 16, FIRST, n, h')
  {
    hide Reachable, Ok, Size, RootHasPage, Leaves, Acquires, Publishes, PhaseOk, Advances;
    var p, q := HaveRefPage(0, 16, FIRST, n, SECOND), HaveSlot(0, 16, FIRST, n);
    ReachableOk(h, p);
    InstallStep(h, p);
    var h1 := Installed(h, n / PER_PAGE, SECOND);
    SlotInHand(h, p, h1, q);
    SlotReady(h1, FIRST, n);
    h' := PublishWitness(h1, n);
    AloneStep(h, p, Settle, h', Idle);
    ReachableOk(h', Idle);
  }

  lemma PublishWitness(h: State, n: nat) returns (h': State)
    requires Ok(h) && Ready(h, n, FIRST) && 16 <= Size(0)
    ensures Publishes(h, 0, 16, FIRST, n, h')
  {
    hide Ok, Ready, Size;
    PublishOk(h, n, FIRST, 0, 16);
    h' := Popped(Published(h, n, FIRST, 0), n, 16);
  }

  /** What is known of the heap after the allocation. */
  lemma Published1(h: State, n: nat, h': State)
    requires h.all == [] && Publishes(h, 0, 16, FIRST, n, h')
    ensures h'.all == [n] && h'.roots == h.roots && n in h'.pab && n in h'.nfree
    ensures BlockType(h'.pab[n]) == 0 && h'.nfree[n] + 1 == Blocks(0)
    ensures exists a :: a in h'.live
  {
    PackParts(FIRST, 0);
    hide Size, Blocks, Fresh, FreshLinks, LastOffset, Pack, PageAddr, BlockType;
    var h1 := Published(h, n, FIRST, 0);
    assert h1.free[n][0] in h'.live;
    assert [n] + h.all == [n];
  }

  lemma BlockIsStuck(h: State, n: nat, a: nat)
    requires Ok(h) && h.all == [n] && a in h.live && Stranded(h.roots, n)
    requires n in h.pab && n in h.nfree && BlockType(h.pab[n]) == 0 && h.nfree[n] + 1 == Blocks(0)
    ensures Stuck(h, a)
  {
    hide Ok, Stranded, BlockType, Blocks, Aligned;
    Routes(h, a);
    var s :| Returns(h, s, a);
    assert s == n;
    assert CannotRetire(h, n, a);
  }

  lemma LeakedStrands(h: State, pending: set<nat>, roots: seq<Root>)
    requires Leaked(roots, PER_PAGE) && h == Granted(Taken(WithPage(roots, pending), PER_PAGE), SECOND, 1, Transit)
    ensures !RootHasPage(h, PER_PAGE) && h.all == [] && |h.roots| == NROOTS
    ensures Stranded(Installed(h, 1, SECOND).roots, PER_PAGE)
  {
    var rs := Installed(h, 1, SECOND).roots;
    assert rs[0].page == 0 && rs[0].numinuse == PER_PAGE;
  }

  /**
    The heap reaches, from empty and with no caller breaking the rules, a state in which
    freeing an allocated block fails an assertion.
  */
  lemma AssertionCanFail() returns (g: System, a: nat)
    ensures Reachable(g) && Allocated(g.h, a) && Stuck(g.h, a)
  {
    hide Reachable, Leaked, Ok, Publishes, Stranded, RootHasPage, Stuck;
    var roots, pending := LeakMany(PER_PAGE);
    UpToRefPage(roots, pending, PER_PAGE);
    var h := Taken(WithPage(roots, pending), PER_PAGE);
    assert Grantable(h, SECOND, 1);
    GetsRefPage(h, PER_PAGE);
    var h1 := Granted(h, SECOND, 1, Transit);
    LeakedStrands(h1, pending, roots);
    var h' := Finishes(h1, PER_PAGE);
    Published1(Installed(h1, 1, SECOND), PER_PAGE, h');
    a :| a in h'.live;
    BlockIsStuck(h', PER_PAGE, a);
    g := Alone(h', Idle);
  }

  /** The first request for 16 bytes to an empty heap: one page, listed with descriptor 0, and one of its blocks taken. */
  lemma FirstBlock() returns (g: System, h: State)
    ensures Reachable(g) && g.h == h && Ok(h) && h.all == [0] && 0 in h.free && 2 <= |h.free[0]| && !Stranded(h.roots, 0)
  {
    hide Reachable, Leaked, Ok, Publishes, RootHasPage, Stranded;
    NoneLeaked();
    Begin();
    UpToRefPage(EmptyRoots(), {}, 0);
    var h0 := Taken(WithPage(EmptyRoots(), {}), 0);
    assert Grantable(h0, SECOND, 1);
    GetsRefPage(h0, 0);
    var h1 := Granted(h0, SECOND, 1, Transit);
    FirstTaken(h1);
    h := Finishes(h1, 0);
    Published1(Installed(h1, 0, SECOND), 0, h);
    g := Alone(h, Idle);
    ManyFree(h, 0);
    NoneBefore(h.roots);
  }

  lemma FirstTaken(h: State)
    requires Leaked(EmptyRoots(), 0) && h == Granted(Taken(WithPage(EmptyRoots(), {}), 0), SECOND, 1, Transit)
    ensures !RootHasPage(h, 0) && h.all == []
  {
  }

  lemma NoneBefore(roots: seq<Root>)
    ensures !Stranded(roots, 0)
  {
  }

  lemma ManyFree(h: State, s: nat)
    requires Ok(h) && s in h.all && s in h.pab && s in h.nfree && BlockType(h.pab[s]) == 0 && h.nfree[s] + 1 == Blocks(0)
    ensures s in h.free && 2 <= |h.free[s]|
  {
    PageFacts(h, s);
  }
}
