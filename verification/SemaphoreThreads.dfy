/**
  The semaphore on the thread system: P and V (kern/thread/synch.c:89-135) as code that the
  CPUs of `ThreadSystem` run, with its count and each thread's place in the code beside them.
  Every run of this machine is a run of the thread system and, seen from the semaphore, a run
  of `Semaphore`: the sleepers are the threads on the wait channel, in order, and the holder
  of the spinlock is who runs on the CPU that holds it. An interrupt handler on an idle CPU,
  which has no thread of its own, may call V and counts as a caller of its own.
*/
module SemaphoreThreads {
  import opened Basics
  import opened Words
  import opened ThreadSystem
  import opened ThreadPlaces
  import opened ThreadRuns
  import opened ThreadQueues
  import opened ThreadCpus
  import S = Semaphore

  /**
    The semaphore's wait channel and spinlock. Its callers are threads, numbered below `first`,
    and the interrupt handlers of idle CPUs, numbered from there on by CPU.
  */
  datatype Sem = Sem(w: nat, l: nat, first: nat)

  datatype World = World(g: System, a: S.State)

  /** Who runs on the CPU: a handler if it is idle, else its current thread. */
  function Who(x: Sem, k: Cpu, c: nat): nat { if k.phase.Idle? then x.first + c else k.cur }

  predicate IsCaller(x: Sem, k: Cpu) { k.phase.Idle? || k.cur < x.first }

  function Caller(x: Sem, g: System, c: nat): nat
    requires c in g.cpus
  {
    Who(x, g.cpus[c], c)
  }

  /** The step of the thread system uses the semaphore's spinlock or wait channel. */
  predicate Concerns(g: System, s: Step, x: Sem)
    requires Enabled(g, s)
  {
    match s
    case Want(_, l) => l == x.l
    case Got(c) => g.cpus[c].want == Some(Lk(x.l))
    case Release(_, l) => l == x.l
    case Grab(_, w) => w == x.w
    case SwitchStart(_, ns, w, l) => ns.Sleep? && (w == x.w || l == x.l)
    case SwitchPlace(c) => g.cpus[c].phase.ns.Sleep? && g.cpus[c].phase.w == x.w
    case _ => false
  }

  // ---------- the code ----------

  datatype Act =
    | Other(s: Step)        // anything that does not concern the semaphore
    | BeginP(t: nat)
    | BeginV(t: nat)
    | WantLock(c: nat)      // spinlock_acquire in P and V, and in wchan_sleep on waking up
    | GetLock(c: nat)
    | TakeUnit(c: nat)      // P: the count is positive
    | StartSleep(c: nat)    // P: it is not
    | FallAsleep(c: nat)    // on the channel, the spinlock released
    | AddUnit(c: nat)       // V
    | WakeOne(c: nat)       // V: wchan_wakeone finds a sleeper
    | WakeNone(c: nat)      // V: or it does not
    | EndV(c: nat)          // V: spinlock_release

  /** The CPU takes this step of the thread system for its caller. */
  ghost predicate Runs(x: Sem, v: World, v': World, s: Step) {
    Enabled(v.g, s) && At(x, v, s.c) && v'.g == Apply(v.g, s)
  }

  ghost predicate At(x: Sem, v: World, c: nat) {
    c in v.g.cpus && IsCaller(x, v.g.cpus[c]) && Caller(x, v.g, c) in v.a.phase
  }

  ghost predicate Inside(g: System, x: Sem, t: nat) {
    exists c :: c in g.cpus && IsCaller(x, g.cpus[c]) && Caller(x, g, c) == t && Lk(x.l) in g.cpus[c].holds
  }

  predicate ToLock(p: S.Phase) { p.WantP? || p.WantV? || p.Woken? }

  ghost predicate Begins(x: Sem, v: World, v': World, t: nat, p: S.Phase) {
    && t in v.a.phase && v.a.phase[t].Outside? && !Inside(v.g, x, t) && (p.WantP? ==> t < x.first)
    && v' == World(v.g, v.a.(phase := v.a.phase[t := p]))
  }

  ghost predicate Wants(x: Sem, v: World, v': World, c: nat) {
    Runs(x, v, v', Want(c, x.l)) && (v.g.cpus[c].phase.Running? || v.g.cpus[c].phase.Idle?) && ToLock(v.a.phase[Caller(x, v.g, c)]) && v'.a == v.a
  }

  ghost predicate Gets(x: Sem, v: World, v': World, c: nat) {
    && Runs(x, v, v', Got(c)) && v.g.cpus[c].want == Some(Lk(x.l))
    && var t, a := Caller(x, v.g, c), v.a;
    v'.a == a.(lock := Some(t), phase := a.phase[t := if a.phase[t].WantV? then S.Adding else S.Testing])
  }

  ghost predicate Takes(x: Sem, v: World, v': World, c: nat) {
    && Runs(x, v, v', Release(c, x.l)) && v.a.phase[Caller(x, v.g, c)].Testing? && v.a.count > 0
    && var t, a := Caller(x, v.g, c), v.a;
    v'.a == a.(count := a.count - 1, ps := a.ps + 1, lock := None, phase := a.phase[t := S.Outside],
               woken := a.woken - {t}, holders := a.holders + {t})
  }

  ghost predicate Starts(x: Sem, v: World, v': World, c: nat) {
    Runs(x, v, v', SwitchStart(c, Sleep, x.w, x.l)) && v.a.phase[Caller(x, v.g, c)].Testing? && v.a.count == 0 && v'.a == v.a
  }

  ghost predicate Falls(x: Sem, v: World, v': World, c: nat) {
    && Runs(x, v, v', SwitchPlace(c)) && Concerns(v.g, SwitchPlace(c), x)
    && var t, a := Caller(x, v.g, c), v.a;
    v'.a == a.(sleepers := ListAt(v'.g, Channel(x.w)), lock := None, phase := a.phase[t := S.Sleeping], woken := a.woken - {t})
  }

  ghost predicate Adds(x: Sem, v: World, v': World, c: nat) {
    && At(x, v, c) && v.a.phase[Caller(x, v.g, c)].Adding? && v.a.count + 1 < WORD
    && var t, a := Caller(x, v.g, c), v.a;
    v' == World(v.g, a.(count := a.count + 1, vs := a.vs + 1, phase := a.phase[t := S.Waking], holders := a.holders - {t}))
  }

  ghost predicate Wakes(x: Sem, v: World, v': World, c: nat) {
    && Runs(x, v, v', Grab(c, x.w)) && v.a.phase[Caller(x, v.g, c)].Waking?
    && var t, z, a := Caller(x, v.g, c), v.g.lists[Channel(x.w)][0], v.a;
    v'.a == a.(lock := None, phase := a.phase[t := S.Outside][z := S.Woken],
               sleepers := ListAt(v'.g, Channel(x.w)), woken := a.woken + {z})
  }

  ghost predicate WakesNobody(x: Sem, v: World, v': World, c: nat) {
    && At(x, v, c) && v.a.phase[Caller(x, v.g, c)].Waking? && ListAt(v.g, Channel(x.w)) == []
    && v' == World(v.g, v.a.(lock := None, phase := v.a.phase[Caller(x, v.g, c) := S.Outside]))
  }

  ghost predicate Ends(x: Sem, v: World, v': World, c: nat) {
    Runs(x, v, v', Release(c, x.l)) && v.a.phase[Caller(x, v.g, c)].Outside? && v'.a == v.a
  }

  ghost predicate Elsewhere(x: Sem, v: World, v': World, s: Step) {
    Enabled(v.g, s) && !Concerns(v.g, s, x) && v'.g == Apply(v.g, s) && v'.a == v.a
  }

  ghost predicate Next(x: Sem, v: World, v': World, act: Act) {
    match act
    case Other(s) => Elsewhere(x, v, v', s)
    case BeginP(t) => Begins(x, v, v', t, S.WantP)
    case BeginV(t) => Begins(x, v, v', t, S.WantV)
    case WantLock(c) => Wants(x, v, v', c)
    case GetLock(c) => Gets(x, v, v', c)
    case TakeUnit(c) => Takes(x, v, v', c)
    case StartSleep(c) => Starts(x, v, v', c)
    case FallAsleep(c) => Falls(x, v, v', c)
    case AddUnit(c) => Adds(x, v, v', c)
    case WakeOne(c) => Wakes(x, v, v', c)
    case WakeNone(c) => WakesNobody(x, v, v', c)
    case EndV(c) => Ends(x, v, v', c)
  }

  // ---------- how the two fit together ----------

  /** One CPU: what its caller is doing when it has, wants or gives up the semaphore's spinlock. */
  ghost predicate CpuOk(x: Sem, k: Cpu, c: nat, a: S.State) {
    && (Lk(x.l) in k.holds ==>
          && IsCaller(x, k) && Who(x, k, c) in a.phase
          && if k.phase.Switching? then k.phase == Switching(Sleep, x.w, x.l) && a.phase[k.cur].Testing? && a.count == 0
             else (k.phase.Running? || k.phase.Idle?) && (S.HasLock(a.phase[Who(x, k, c)]) || a.phase[Who(x, k, c)].Outside?))
    && (k.want == Some(Lk(x.l)) ==>
          (k.phase.Running? || k.phase.Idle?) && IsCaller(x, k) && Who(x, k, c) in a.phase && ToLock(a.phase[Who(x, k, c)]))
    && (k.phase.Switching? && k.phase.ns.Sleep? && (k.phase.w == x.w || k.phase.l == x.l) ==> Lk(x.l) in k.holds)
  }

  ghost predicate CpusOk(x: Sem, v: World) {
    forall c :: c in v.g.cpus ==> CpuOk(x, v.g.cpus[c], c, v.a)
  }

  ghost predicate Fits(x: Sem, v: World) {
    && Channel(x.w) in v.g.lists && v.g.lists[Channel(x.w)] == v.a.sleepers
    && CpusOk(x, v)
    && (v.a.lock.Some? ==> Inside(v.g, x, v.a.lock.value))
  }

  ghost predicate J(x: Sem, v: World) {
    Inv(v.g) && S.Inv(v.a) && Fits(x, v)
  }

  // ---------- a step that does not concern the semaphore ----------

  ghost predicate Stays(x: Sem, k: Cpu, k': Cpu, c: nat, a: S.State) {
    CpuOk(x, k', c, a) && (Lk(x.l) in k.holds ==> Lk(x.l) in k'.holds && IsCaller(x, k') && Who(x, k', c) == Who(x, k, c))
  }

  lemma LocksStay(x: Sem, k: Cpu, k': Cpu, c: nat, a: S.State)
    requires CpuOk(x, k, c, a) && KeepsLock(Lk(x.l), k, k')
    ensures Stays(x, k, k', c, a)
  {
  }

  /** A CPU in the middle of thread_switch, or about to enter it, has no part in the semaphore. */
  lemma SwitchStays(x: Sem, g: System, s: Step, a: S.State)
    requires Enabled(g, s) && Switches(s) && !Concerns(g, s, x) && CpuOk(x, g.cpus[s.c], s.c, a)
    ensures OnlyCpu(g, Apply(g, s), s.c) && Stays(x, g.cpus[s.c], Apply(g, s).cpus[s.c], s.c, a)
  {
    hide Apply, Enabled;
    CpuThere(g, s);
    NotInvolved(x, g, s, a);
    hide CpuOk;
    if s.SwitchStart? {
      StartCpu(g, s.c, s.ns, s.w, s.l);
    } else if s.SwitchPlace? {
      PlaceCpu(g, s.c);
    } else if s.PickNone? || s.Doze? || s.Rouse? || s.Unidle? || s.PickNext? {
      PickCpu(g, s);
    } else {
      LeaveCpu(g, s);
    }
    Uninvolved(x, g.cpus[s.c], Apply(g, s).cpus[s.c], s.c, a);
  }

  lemma NotInvolved(x: Sem, g: System, s: Step, a: S.State)
    requires Enabled(g, s) && Switches(s) && !Concerns(g, s, x) && CpuOk(x, g.cpus[s.c], s.c, a)
    ensures Lk(x.l) !in g.cpus[s.c].holds && g.cpus[s.c].want != Some(Lk(x.l))
  {
    hide Free;
  }

  lemma Uninvolved(x: Sem, k: Cpu, k': Cpu, c: nat, a: S.State)
    requires Lk(x.l) !in k.holds && Lk(x.l) !in k'.holds && k'.want != Some(Lk(x.l))
    requires k'.phase.Switching? ==> !(k'.phase.ns.Sleep? && (k'.phase.w == x.w || k'.phase.l == x.l))
    ensures Stays(x, k, k', c, a)
  {
  }

  lemma OtherCpu(x: Sem, g: System, s: Step, a: S.State)
    requires Enabled(g, s) && !Concerns(g, s, x) && CpuOk(x, g.cpus[s.c], s.c, a)
    ensures OnlyCpu(g, Apply(g, s), s.c) && Stays(x, g.cpus[s.c], Apply(g, s).cpus[s.c], s.c, a)
  {
    if Switches(s) {
      hide Apply, Enabled;
      SwitchStays(x, g, s, a);
    } else if Moves(s) {
      hide Apply, Enabled;
      MoveCpu(g, s);
      LocksStay(x, g.cpus[s.c], Apply(g, s).cpus[s.c], s.c, a);
    } else {
      hide Apply, Enabled;
      LockCpu(g, s, Lk(x.l));
      LocksStay(x, g.cpus[s.c], Apply(g, s).cpus[s.c], s.c, a);
    }
  }

  lemma OtherList(x: Sem, g: System, s: Step)
    requires Enabled(g, s) && !Concerns(g, s, x) && Channel(x.w) in g.lists
    ensures Channel(x.w) in Apply(g, s).lists && Apply(g, s).lists[Channel(x.w)] == g.lists[Channel(x.w)]
  {
    var p := Channel(x.w);
    StepQueue(g, s, p);
    assert !TakesLast(s, p) && Arriving(g, s, p) == [] && Leaving(g, s, p) == [];
    hide Apply, Enabled, Arriving, Leaving;
    assert g.lists[p] + [] == g.lists[p] && [] + Apply(g, s).lists[p] == Apply(g, s).lists[p];
  }

  lemma OtherFits(x: Sem, v: World, v': World, s: Step)
    requires Fits(x, v) && Elsewhere(x, v, v', s)
    ensures Fits(x, v')
  {
    hide Apply, Enabled, Concerns, CpuOk;
    assert s.c in v.g.cpus by { CpuThere(v.g, s); }
    OtherCpu(x, v.g, s, v.a);
    OtherList(x, v.g, s);
    var g, g' := v.g, v'.g;
    forall c | c in g'.cpus ensures CpuOk(x, g'.cpus[c], c, v.a) {
      if c != s.c { assert g'.cpus[c] == g.cpus[c]; }
    }
    if v.a.lock.Some? {
      var t := v.a.lock.value;
      var c :| c in g.cpus && IsCaller(x, g.cpus[c]) && Caller(x, g, c) == t && Lk(x.l) in g.cpus[c].holds;
      assert c in g'.cpus && IsCaller(x, g'.cpus[c]) && Caller(x, g', c) == t && Lk(x.l) in g'.cpus[c].holds;
    }
  }

  lemma CpuThere(g: System, s: Step)
    requires Enabled(g, s)
    ensures s.c in g.cpus && g.cpus[s.c].cur in g.threads
  {
  }

  // ---------- the semaphore's own steps ----------

  lemma CallerUnique(x: Sem, g: System, c: nat, d: nat)
    requires Inv(g) && c in g.cpus && d in g.cpus && IsCaller(x, g.cpus[c]) && IsCaller(x, g.cpus[d])
    requires Caller(x, g, c) == Caller(x, g, d)
    ensures c == d
  {
    assert CurOk(g, c) && CurOk(g, d);
  }

  lemma LockUnique(g: System, c: nat, d: nat, l: Lock)
    requires Inv(g) && c in g.cpus && d in g.cpus && l in g.cpus[c].holds && l in g.cpus[d].holds
    ensures c == d
  {
    assert Exclusive(g);
  }

  /** A thread past the acquisition runs on the CPU that holds the spinlock, and nobody else does. */
  lemma Holder(x: Sem, v: World, c: nat)
    requires J(x, v) && At(x, v, c) && S.HasLock(v.a.phase[Caller(x, v.g, c)])
    ensures Lk(x.l) in v.g.cpus[c].holds
    ensures v.a.lock == Some(Caller(x, v.g, c))
  {
    hide Inv, CpuOk;
    assert S.LockOk(v.a);
    var t := Caller(x, v.g, c);
    assert v.a.lock == Some(t);
    var d :| d in v.g.cpus && IsCaller(x, v.g.cpus[d]) && Caller(x, v.g, d) == t && Lk(x.l) in v.g.cpus[d].holds;
    CallerUnique(x, v.g, c, d);
  }

  /** Threads that are on their way to the spinlock, but for `t`, still are. */
  ghost predicate WaitersStay(a: S.State, a': S.State, t: nat) {
    forall u :: u in a.phase && u != t && ToLock(a.phase[u]) ==> u in a'.phase && ToLock(a'.phase[u])
  }

  lemma OthersFit(x: Sem, v: World, v': World, c: nat)
    requires Inv(v.g) && CpusOk(x, v) && OnlyCpu(v.g, v'.g, c) && CpuOk(x, v'.g.cpus[c], c, v'.a) && IsCaller(x, v.g.cpus[c])
    requires WaitersStay(v.a, v'.a, Caller(x, v.g, c))
    requires forall d :: d in v.g.cpus && d != c ==> Lk(x.l) !in v.g.cpus[d].holds
    ensures CpusOk(x, v')
  {
    hide Inv;
    forall d | d in v'.g.cpus && d != c ensures CpuOk(x, v'.g.cpus[d], d, v'.a) {
      assert d in v.g.cpus && v'.g.cpus[d] == v.g.cpus[d];
      assert CpuOk(x, v.g.cpus[d], d, v.a);
      if IsCaller(x, v.g.cpus[d]) && Caller(x, v.g, d) == Caller(x, v.g, c) { CallerUnique(x, v.g, d, c); }
    }
  }

  lemma NoOtherHolds(x: Sem, g: System, c: nat)
    requires Inv(g) && c in g.cpus && Lk(x.l) in g.cpus[c].holds
    ensures forall d :: d in g.cpus && d != c ==> Lk(x.l) !in g.cpus[d].holds
  {
    hide Inv;
    forall d | d in g.cpus && d != c ensures Lk(x.l) !in g.cpus[d].holds {
      if Lk(x.l) in g.cpus[d].holds { LockUnique(g, c, d, Lk(x.l)); }
    }
  }

  /** What spinlock_acquire, its end and spinlock_release do to the CPU. */
  lemma LockSteps(g: System, c: nat, l: nat)
    requires c in g.cpus
    ensures Enabled(g, Want(c, l)) ==>
      var g' := Apply(g, Want(c, l));
      && OnlyCpu(g, g', c) && g'.lists == g.lists && Lk(l) !in g.cpus[c].holds
      && var k, k' := g.cpus[c], g'.cpus[c];
      k'.holds == k.holds && k'.want == Some(Lk(l)) && k'.cur == k.cur && k'.phase == k.phase
    ensures Enabled(g, Got(c)) ==>
      var g' := Apply(g, Got(c));
      && OnlyCpu(g, g', c) && g'.lists == g.lists && g.cpus[c].want.Some? && Free(g, g.cpus[c].want.value)
      && var k, k' := g.cpus[c], g'.cpus[c];
      k'.holds == k.holds + {k.want.value} && k'.want == None && k'.cur == k.cur && k'.phase == k.phase
    ensures Enabled(g, Release(c, l)) ==>
      var g' := Apply(g, Release(c, l));
      && OnlyCpu(g, g', c) && g'.lists == g.lists && Lk(l) in g.cpus[c].holds && !g.cpus[c].phase.Switching?
      && var k, k' := g.cpus[c], g'.cpus[c];
      k'.holds == k.holds - {Lk(l)} && k'.want == None && k'.cur == k.cur && k'.phase == k.phase
  {
  }

  /** Seen from the semaphore, nothing happened or one of its steps. */
  ghost predicate Simulates(a: S.State, a': S.State) { a' == a || S.Next(a, a') }

  lemma Does(a: S.State, e: S.Step, a': S.State)
    requires S.Enabled(a, e) && a' == S.Apply(a, e)
    ensures Simulates(a, a')
  {
  }

  lemma BeginFits(x: Sem, v: World, v': World, t: nat, p: S.Phase)
    requires J(x, v) && Begins(x, v, v', t, p) && (p.WantP? || p.WantV?)
    ensures Fits(x, v') && Simulates(v.a, v'.a)
  {
    hide J, Inv, S.Inv;
    JParts(x, v);
    Does(v.a, if p.WantP? then S.StartP(t) else S.StartV(t), v'.a);
    hide Simulates;
    forall c | c in v'.g.cpus ensures CpuOk(x, v'.g.cpus[c], c, v'.a) {
      assert CpuOk(x, v.g.cpus[c], c, v.a);
    }
  }

  lemma WantFits(x: Sem, v: World, v': World, c: nat)
    requires J(x, v) && Wants(x, v, v', c)
    ensures Fits(x, v') && Simulates(v.a, v'.a)
  {
    hide J, Inv, S.Inv, Enabled, Apply, Inside;
    JParts(x, v);
    CpuThere(v.g, Want(c, x.l));
    LockSteps(v.g, c, x.l);
    forall d | d in v'.g.cpus ensures CpuOk(x, v'.g.cpus[d], d, v'.a) {
      assert CpuOk(x, v.g.cpus[d], d, v.a);
    }
    hide CpuOk;
    if v.a.lock.Some? { InsideStays(x, v, v', c); }
  }

  lemma InsideStays(x: Sem, v: World, v': World, c: nat)
    requires v.a.lock.Some? && Inside(v.g, x, v.a.lock.value) && OnlyCpu(v.g, v'.g, c)
    requires Caller(x, v'.g, c) == Caller(x, v.g, c) && v.g.cpus[c].holds <= v'.g.cpus[c].holds
    requires IsCaller(x, v.g.cpus[c]) ==> IsCaller(x, v'.g.cpus[c])
    ensures Inside(v'.g, x, v.a.lock.value)
  {
    var t := v.a.lock.value;
    var d :| d in v.g.cpus && IsCaller(x, v.g.cpus[d]) && Caller(x, v.g, d) == t && Lk(x.l) in v.g.cpus[d].holds;
    assert d in v'.g.cpus && IsCaller(x, v'.g.cpus[d]) && Caller(x, v'.g, d) == t && Lk(x.l) in v'.g.cpus[d].holds;
  }

  /** Nobody is past the acquisition while no CPU holds the spinlock. */
  lemma FreeMeansOutside(x: Sem, v: World)
    requires Fits(x, v) && Free(v.g, Lk(x.l))
    ensures v.a.lock.None? && forall d :: d in v.g.cpus ==> Lk(x.l) !in v.g.cpus[d].holds
  {
  }

  lemma GetFits(x: Sem, v: World, v': World, c: nat)
    requires J(x, v) && Gets(x, v, v', c)
    ensures Fits(x, v') && Simulates(v.a, v'.a)
  {
    hide J, Inv, S.Inv, Enabled, Apply;
    JParts(x, v);
    CpuThere(v.g, Got(c));
    LockSteps(v.g, c, x.l);
    FreeMeansOutside(x, v);
    hide Free;
    var t := Caller(x, v.g, c);
    assert CpuOk(x, v.g.cpus[c], c, v.a);
    Does(v.a, S.Lock(t), v'.a);
    hide Simulates, S.Enabled, S.Apply;
    assert IsCaller(x, v'.g.cpus[c]) && Caller(x, v'.g, c) == t && Lk(x.l) in v'.g.cpus[c].holds;
    assert CpuOk(x, v'.g.cpus[c], c, v'.a);
    hide CpuOk;
    OthersFit(x, v, v', c);
  }

  lemma TakeFits(x: Sem, v: World, v': World, c: nat)
    requires J(x, v) && Takes(x, v, v', c)
    ensures Fits(x, v') && Simulates(v.a, v'.a)
  {
    hide J, Inv, S.Inv, Enabled, Apply, Inside;
    JParts(x, v);
    CpuThere(v.g, Release(c, x.l));
    LockSteps(v.g, c, x.l);
    Does(v.a, S.Take(Caller(x, v.g, c)), v'.a);
    hide Simulates, S.Enabled, S.Apply;
    NoOtherHolds(x, v.g, c);
    assert CpuOk(x, v'.g.cpus[c], c, v'.a);
    hide CpuOk;
    OthersFit(x, v, v', c);
  }

  lemma NobodyInside(x: Sem, v: World, c: nat)
    requires J(x, v) && At(x, v, c) && Lk(x.l) in v.g.cpus[c].holds && v.a.phase[Caller(x, v.g, c)].Outside?
    ensures v.a.lock.None?
  {
    hide Inv;
    assert S.LockOk(v.a);
    if v.a.lock.Some? {
      var d :| d in v.g.cpus && IsCaller(x, v.g.cpus[d]) && Caller(x, v.g, d) == v.a.lock.value && Lk(x.l) in v.g.cpus[d].holds;
      LockUnique(v.g, c, d, Lk(x.l));
    }
  }

  lemma EndFits(x: Sem, v: World, v': World, c: nat)
    requires J(x, v) && Ends(x, v, v', c)
    ensures Fits(x, v') && Simulates(v.a, v'.a)
  {
    hide J, Inv, S.Inv, Enabled, Apply, Inside;
    JParts(x, v);
    CpuThere(v.g, Release(c, x.l));
    LockSteps(v.g, c, x.l);
    NobodyInside(x, v, c);
    NoOtherHolds(x, v.g, c);
    assert CpuOk(x, v'.g.cpus[c], c, v'.a);
    hide CpuOk;
    OthersFit(x, v, v', c);
  }

  lemma StartHolds(g: System, c: nat, w: nat, l: nat)
    requires Enabled(g, SwitchStart(c, Sleep, w, l))
    ensures c in g.cpus && Lk(l) in g.cpus[c].holds && g.cpus[c].phase.Running?
  {
  }

  lemma StartFits(x: Sem, v: World, v': World, c: nat)
    requires J(x, v) && Starts(x, v, v', c)
    ensures Fits(x, v') && Simulates(v.a, v'.a)
  {
    hide J, Inv, S.Inv, Enabled, Apply, Inside;
    JParts(x, v);
    StartHolds(v.g, c, x.w, x.l);
    StartCpu(v.g, c, Sleep, x.w, x.l);
    NoOtherHolds(x, v.g, c);
    assert CpuOk(x, v'.g.cpus[c], c, v'.a);
    hide CpuOk;
    OthersFit(x, v, v', c);
    if v.a.lock.Some? { InsideStays(x, v, v', c); }
  }

  lemma FallList(x: Sem, g: System, c: nat)
    requires Enabled(g, SwitchPlace(c)) && Concerns(g, SwitchPlace(c), x) && Channel(x.w) in g.lists
    ensures var g', p := Apply(g, SwitchPlace(c)), Channel(x.w);
      c in g.cpus && g.cpus[c].phase.Switching? && p in g'.lists && g'.lists[p] == g.lists[p] + [g.cpus[c].cur]
  {
    var s, p := SwitchPlace(c), Channel(x.w);
    StepQueue(g, s, p);
    assert Arriving(g, s, p) == [g.cpus[c].cur] && Leaving(g, s, p) == [];
    hide Apply, Arriving, Leaving;
    assert [] + Apply(g, s).lists[p] == Apply(g, s).lists[p];
  }

  lemma FallFits(x: Sem, v: World, v': World, c: nat)
    requires J(x, v) && Falls(x, v, v', c)
    ensures Fits(x, v') && Simulates(v.a, v'.a)
  {
    hide J, Inv, S.Inv, Enabled, Apply, Inside;
    JParts(x, v);
    FallList(x, v.g, c);
    PlaceCpu(v.g, c);
    assert CpuOk(x, v.g.cpus[c], c, v.a);
    assert Lk(x.l) in v.g.cpus[c].holds;
    Does(v.a, S.GoToSleep(Caller(x, v.g, c)), v'.a);
    hide Simulates, S.Enabled, S.Apply;
    NoOtherHolds(x, v.g, c);
    assert CpuOk(x, v'.g.cpus[c], c, v'.a);
    hide CpuOk;
    OthersFit(x, v, v', c);
  }

  lemma SameCpus(g: System, c: nat)
    requires c in g.cpus
    ensures OnlyCpu(g, g, c)
  {
    assert g.cpus == g.cpus[c := g.cpus[c]];
  }

  lemma AddFits(x: Sem, v: World, v': World, c: nat)
    requires J(x, v) && Adds(x, v, v', c)
    ensures Fits(x, v') && Simulates(v.a, v'.a)
  {
    hide J, Inv, S.Inv, Inside, OnlyCpu;
    Holder(x, v, c);
    JParts(x, v);
    assert CpuOk(x, v.g.cpus[c], c, v.a);
    Does(v.a, S.Add(Caller(x, v.g, c)), v'.a);
    hide Simulates, S.Enabled, S.Apply;
    SameCpus(v.g, c);
    NoOtherHolds(x, v.g, c);
    assert CpuOk(x, v'.g.cpus[c], c, v'.a);
    hide CpuOk;
    OthersFit(x, v, v', c);
  }

  lemma NoneFits(x: Sem, v: World, v': World, c: nat)
    requires J(x, v) && WakesNobody(x, v, v', c)
    ensures Fits(x, v') && Simulates(v.a, v'.a)
  {
    hide J, Inv, S.Inv, Inside, OnlyCpu;
    Holder(x, v, c);
    JParts(x, v);
    assert CpuOk(x, v.g.cpus[c], c, v.a);
    Does(v.a, S.Wake(Caller(x, v.g, c)), v'.a);
    hide Simulates, S.Enabled, S.Apply;
    SameCpus(v.g, c);
    NoOtherHolds(x, v.g, c);
    assert CpuOk(x, v'.g.cpus[c], c, v'.a);
    hide CpuOk;
    OthersFit(x, v, v', c);
  }

  lemma GrabList(x: Sem, g: System, c: nat)
    requires Enabled(g, Grab(c, x.w))
    ensures var g', p := Apply(g, Grab(c, x.w)), Channel(x.w);
      p in g.lists && g.lists[p] != [] && p in g'.lists && g'.lists[p] == g.lists[p][1..]
  {
    var s, p := Grab(c, x.w), Channel(x.w);
    StepQueue(g, s, p);
    assert g.lists[p] != [] && Arriving(g, s, p) == [] && Leaving(g, s, p) == [g.lists[p][0]];
    hide Apply, Arriving, Leaving;
    assert g.lists[p] + [] == g.lists[p];
  }

  lemma SleeperAt(a: S.State)
    requires S.Inv(a) && a.sleepers != []
    ensures a.sleepers[0] in a.phase && a.phase[a.sleepers[0]].Sleeping?
  {
    assert a.sleepers[0] in a.sleepers;
  }

  lemma WakeFits(x: Sem, v: World, v': World, c: nat)
    requires J(x, v) && Wakes(x, v, v', c)
    ensures Fits(x, v') && Simulates(v.a, v'.a)
  {
    hide J, Inv, S.Inv, Enabled, Apply, Inside, OnlyCpu;
    JParts(x, v);
    CpuThere(v.g, Grab(c, x.w));
    GrabList(x, v.g, c);
    SleeperAt(v.a);
    Holder(x, v, c);
    MoveCpu(v.g, Grab(c, x.w));
    assert CpuOk(x, v.g.cpus[c], c, v.a);
    Does(v.a, S.Wake(Caller(x, v.g, c)), v'.a);
    hide Simulates, S.Enabled, S.Apply;
    NoOtherHolds(x, v.g, c);
    CpuIn(v.g, v'.g, c);
    assert CpuOk(x, v'.g.cpus[c], c, v'.a);
    hide CpuOk;
    OthersFit(x, v, v', c);
  }

  lemma CpuIn(g: System, g': System, c: nat)
    requires OnlyCpu(g, g', c)
    ensures c in g.cpus && c in g'.cpus
  {
  }

  /** Every step of the code keeps the fit, and is a step of the thread system and of the semaphore, or none. */
  lemma ActFits(x: Sem, v: World, v': World, act: Act)
    requires J(x, v) && Next(x, v, v', act)
    ensures J(x, v') && Simulates(v.a, v'.a) && (v'.g == v.g || Follows(v.g, v'.g))
  {
    hide J, Fits, Simulates, Elsewhere, Begins, Wants, Gets, Takes, Starts, Falls, Adds, Wakes, WakesNobody, Ends;
    JParts(x, v);
    match act {
      case Other(s) => OtherStep(x, v, v', s);
      case BeginP(t) => BeginFits(x, v, v', t, S.WantP);
      case BeginV(t) => BeginFits(x, v, v', t, S.WantV);
      case WantLock(c) => WantFits(x, v, v', c);
      case GetLock(c) => GetFits(x, v, v', c);
      case TakeUnit(c) => TakeFits(x, v, v', c);
      case StartSleep(c) => StartFits(x, v, v', c);
      case FallAsleep(c) => FallFits(x, v, v', c);
      case AddUnit(c) => AddFits(x, v, v', c);
      case WakeOne(c) => WakeFits(x, v, v', c);
      case WakeNone(c) => NoneFits(x, v, v', c);
      case EndV(c) => EndFits(x, v, v', c);
    }
    Stepped(x, v, v', act);
    hide Inv, S.Inv;
    if v'.g != v.g { FollowsKeeps(v.g, v'.g); }
    SimulatesKeeps(v.a, v'.a);
    JWhole(x, v');
  }

  lemma JParts(x: Sem, v: World)
    requires J(x, v)
    ensures Inv(v.g) && S.Inv(v.a) && Fits(x, v)
  {
  }

  lemma JWhole(x: Sem, v: World)
    requires Inv(v.g) && S.Inv(v.a) && Fits(x, v)
    ensures J(x, v)
  {
  }

  lemma OtherStep(x: Sem, v: World, v': World, s: Step)
    requires J(x, v) && Elsewhere(x, v, v', s)
    ensures Fits(x, v') && Simulates(v.a, v'.a)
  {
    hide Inv, S.Inv, Fits, Enabled, Apply;
    OtherFits(x, v, v', s);
  }

  lemma Stepped(x: Sem, v: World, v': World, act: Act)
    requires Next(x, v, v', act)
    ensures v'.g == v.g || Follows(v.g, v'.g)
  {
    hide Enabled, Apply, Concerns, Inside;
  }

  lemma FollowsKeeps(g: System, g': System)
    requires Inv(g) && Follows(g, g')
    ensures Inv(g')
  {
    hide Inv, Enabled, Apply;
    var s :| Enabled(g, s) && g' == Apply(g, s);
    StepKeeps(g, s);
  }

  lemma SimulatesKeeps(a: S.State, a': S.State)
    requires S.Inv(a) && Simulates(a, a')
    ensures S.Inv(a')
  {
    hide S.Inv, S.Enabled, S.Apply;
    if a' != a {
      var e :| S.Enabled(a, e) && a' == S.Apply(a, e);
      S.StepKeeps(a, e);
    }
  }

  // ---------- runs ----------

  ghost predicate Start(x: Sem, v: World) {
    Boot(v.g) && S.Start(v.a) && Channel(x.w) in v.g.lists
  }

  ghost predicate Acts(x: Sem, v: World, v': World) {
    exists act :: Next(x, v, v', act)
  }

  ghost predicate Run(x: Sem, vs: seq<World>) {
    vs != [] && Start(x, vs[0]) && forall i :: 0 <= i < |vs| - 1 ==> Acts(x, vs[i], vs[i + 1])
  }

  lemma StartFitsIn(x: Sem, v: World)
    requires Start(x, v)
    ensures J(x, v)
  {
    BootOk(v.g);
    hide Inv;
    assert CpusOk(x, v);
  }

  lemma ActsFit(x: Sem, v: World, v': World)
    requires J(x, v) && Acts(x, v, v')
    ensures J(x, v') && Simulates(v.a, v'.a) && (v'.g == v.g || Follows(v.g, v'.g))
  {
    hide J, Next, Simulates;
    var act :| Next(x, v, v', act);
    ActFits(x, v, v', act);
  }

  /** The fit holds in every state of every run. */
  lemma {:induction false} RunFits(x: Sem, vs: seq<World>, i: nat)
    requires Run(x, vs) && i < |vs|
    ensures J(x, vs[i])
  {
    hide J, Start, Acts, Simulates, Follows;
    if i == 0 {
      StartFitsIn(x, vs[0]);
    } else {
      RunFits(x, vs, i - 1);
      var k := i - 1;
      assert Acts(x, vs[k], vs[k + 1]);
      ActsFit(x, vs[k], vs[k + 1]);
    }
  }

  ghost predicate Arrives(gs: seq<System>, g0: System, g: System) {
    IsRun(gs) && gs[0] == g0 && gs[|gs| - 1] == g
  }

  lemma OneFurther(gs: seq<System>, g0: System, g: System, g': System) returns (gs': seq<System>)
    requires Arrives(gs, g0, g) && Follows(g, g')
    ensures Arrives(gs', g0, g')
  {
    hide Follows, Boot;
    gs' := gs + [g'];
    forall i | 0 <= i < |gs'| - 1 ensures Follows(gs'[i], gs'[i + 1]) {
      if i < |gs| - 1 { assert gs'[i] == gs[i] && gs'[i + 1] == gs[i + 1]; }
    }
  }

  lemma Simulated(ss: seq<S.State>, a0: S.State, a: S.State, a': S.State) returns (ss': seq<S.State>)
    requires S.Reaches(ss, a0, a) && Simulates(a, a')
    ensures S.Reaches(ss', a0, a')
  {
    ss' := ss;
    if a' != a {
      hide S.Enabled, S.Apply;
      var e :| S.Enabled(a, e) && a' == S.Apply(a, e);
      hide S.Reaches, Simulates;
      ss' := S.Extend(ss, a0, a, e);
    }
  }

  lemma StartRuns(x: Sem, v: World)
    requires Start(x, v)
    ensures Arrives([v.g], v.g, v.g) && S.Reaches([v.a], v.a, v.a)
  {
    hide Boot;
  }

  /** Every run is a run of the thread system, and from the semaphore's side a run of the semaphore. */
  lemma {:induction false} RunProjects(x: Sem, vs: seq<World>, i: nat) returns (gs: seq<System>, ss: seq<S.State>)
    requires Run(x, vs) && i < |vs|
    ensures Arrives(gs, vs[0].g, vs[i].g) && S.Reaches(ss, vs[0].a, vs[i].a)
  {
    hide Start, Acts, Simulates, Follows, S.Reaches, Arrives, J;
    if i == 0 {
      gs, ss := [vs[0].g], [vs[0].a];
      StartRuns(x, vs[0]);
    } else {
      var k := i - 1;
      gs, ss := RunProjects(x, vs, k);
      RunFits(x, vs, k);
      assert Acts(x, vs[k], vs[k + 1]);
      ActsFit(x, vs[k], vs[k + 1]);
      ss := Simulated(ss, vs[0].a, vs[k].a, vs[i].a);
      if vs[i].g != vs[k].g { gs := OneFurther(gs, vs[0].g, vs[k].g, vs[i].g); }
    }
  }

  /**
    So on the CPUs, too, no wakeup is lost: while threads are on the semaphore's channel and
    no CPU holds its spinlock, there are no more units than woken threads yet to take them;
    the units are conserved; and the channel holds exactly the sleeping threads.
  */
  lemma NoneForgotten(x: Sem, vs: seq<World>, i: nat)
    requires Run(x, vs) && i < |vs|
    ensures var g, a := vs[i].g, vs[i].a;
      && Channel(x.w) in g.lists
      && (g.lists[Channel(x.w)] != [] && Free(g, Lk(x.l)) ==> a.count <= |a.woken|)
      && a.count + a.ps == a.initial + a.vs
      && forall t :: t in g.lists[Channel(x.w)] <==> t in a.phase && a.phase[t].Sleeping?
  {
    hide Run, Inv;
    RunFits(x, vs, i);
    var v := vs[i];
    if Free(v.g, Lk(x.l)) { FreeMeansOutside(x, v); }
    assert S.ListsOk(v.a) && S.NoneLost(v.a);
    hide CpusOk;
  }

  /** Whoever is past the acquisition runs on the CPU that holds the spinlock. */
  lemma SpinlockIsTheLock(x: Sem, vs: seq<World>, i: nat, t: nat)
    requires Run(x, vs) && i < |vs| && t in vs[i].a.phase && S.HasLock(vs[i].a.phase[t])
    ensures Inside(vs[i].g, x, t) && vs[i].a.lock == Some(t)
  {
    hide Run, Inv, CpusOk, Inside;
    RunFits(x, vs, i);
    assert S.LockOk(vs[i].a);
  }
}
