/**
  Interrupt-level counting (kern/thread/spl.c:87-160, spinlock.c:75-134, thread.c:549-775).
  A CPU's interrupts are off exactly while its current thread's count is positive, but for the
  moment in cpu_idle that lets them in; the count
  is the thread's spl plus the CPU's spinlocks, and a thread that is not current carries one
  for its spl and one for the run queue lock it will release when it runs again.
*/
module ThreadIpl {
  import opened Basics
  import opened ThreadSystem
  import opened ThreadPlaces
  import opened ThreadSteps
  import opened ThreadRuns

  predicate Counted(t: Thread, k: Cpu) {
    && t.ipl == (if t.curspl then 1 else 0) + k.spinlocks
    && (k.irqOff <==> t.ipl > 0 && !k.phase.Dozing?)
    && (!k.phase.Running? ==> t.curspl)
  }

  predicate Parked(t: Thread) { t.curspl && t.ipl == 2 }

  predicate IsCur(g: System, t: nat)
    requires t in g.threads
  {
    g.threads[t].cpu in g.cpus && g.cpus[g.threads[t].cpu].cur == t
  }

  ghost predicate IplOk(g: System) {
    && (forall c :: c in g.cpus ==> g.cpus[c].cur in g.threads && Counted(g.threads[g.cpus[c].cur], g.cpus[c]))
    && (forall t :: t in g.threads && !IsCur(g, t) ==> Parked(g.threads[t]))
  }

  // ---------- one thread on one CPU ----------

  lemma SplCounts(t: Thread, k: Cpu, high: bool)
    requires Counted(t, k) && 0 <= k.spinlocks && !k.phase.Dozing?
    ensures var t', k' := SplT(t, high), SplC(t, k, high);
      && t'.ipl == (if t'.curspl then 1 else 0) + k'.spinlocks && (k'.irqOff <==> t'.ipl > 0) && t'.curspl == high
  {
  }

  lemma WantCounts(t: Thread, k: Cpu, l: Lock)
    requires Counted(t, k) && 0 <= k.spinlocks && !k.phase.Dozing?
    ensures Counted(RaiseT(t), WantC(t, k, l))
  {
  }

  lemma ReleaseCounts(t: Thread, k: Cpu, l: Lock)
    requires Counted(t, k) && 0 < k.spinlocks && !k.phase.Dozing?
    ensures Counted(LowerT(t), ReleaseC(t, k, l))
  {
  }

  /** The counter of spinlocks is never below the number held: releasing finds it positive. */
  lemma HeldCounted(k: Cpu, c: nat)
    requires Shape(k, c)
    ensures 0 <= k.spinlocks && (k.holds != {} ==> 0 < k.spinlocks)
  {
  }

  // ---------- the whole system ----------

  /** A step of CPU `c` that keeps its current thread. */
  lemma IplLocal(g: System, g': System, c: nat)
    requires IplOk(g) && c in g.cpus && c in g'.cpus && g'.cpus == g.cpus[c := g'.cpus[c]]
    requires var x := g.cpus[c].cur;
      && g'.cpus[c].cur == x && x in g'.threads && g'.threads == g.threads[x := g'.threads[x]]
      && g'.threads[x].cpu == g.threads[x].cpu == c && Counted(g'.threads[x], g'.cpus[c])
    requires forall d :: d in g.cpus && d != c ==> g.cpus[d].cur != g.cpus[c].cur
    ensures IplOk(g')
  {
    hide Counted, Parked;
    forall t | t in g'.threads && !IsCur(g', t) ensures Parked(g'.threads[t]) {
      assert t in g.threads && !IsCur(g, t);
    }
  }

  /** A step that moves a thread but changes no counter. */
  lemma IplMove(g: System, g': System, c: nat, t: nat)
    requires IplOk(g) && c in g.cpus && c in g'.cpus && g'.cpus == g.cpus[c := g'.cpus[c]]
    requires t in g.threads && t in g'.threads && g'.threads == g.threads[t := g'.threads[t]]
    requires g'.threads[t].curspl == g.threads[t].curspl && g'.threads[t].ipl == g.threads[t].ipl
    requires g'.cpus[c].cur == g.cpus[c].cur && g'.cpus[c].phase == g.cpus[c].phase
    requires g'.cpus[c].spinlocks == g.cpus[c].spinlocks && g'.cpus[c].irqOff == g.cpus[c].irqOff
    requires g'.threads[t].cpu == g.threads[t].cpu || !IsCur(g, t)
    ensures IplOk(g')
  {
    forall u | u in g'.threads && !IsCur(g', u) ensures Parked(g'.threads[u]) {
      if u != t { assert !IsCur(g, u); }
    }
  }

  /** What the steps of a CPU know about it. */
  lemma CpuFacts(g: System, c: nat)
    requires Inv(g) && IplOk(g) && c in g.cpus
    ensures g.cpus[c].cur in g.threads && CurT(g, c).cpu == c && Counted(CurT(g, c), g.cpus[c])
    ensures Shape(g.cpus[c], c) && 0 <= g.cpus[c].spinlocks && (g.cpus[c].holds != {} ==> 0 < g.cpus[c].spinlocks)
    ensures forall d :: d in g.cpus && d != c ==> g.cpus[d].cur != g.cpus[c].cur
  {
    hide Inv, Lists, Exclusive, HandOk, ThreadOk;
    InvAt(g, c);
    HeldCounted(g.cpus[c], c);
    forall d | d in g.cpus && d != c ensures g.cpus[d].cur != g.cpus[c].cur {
      InvAt(g, d);
    }
  }

  lemma LocalIpl(g: System, c: nat, t: Thread, k: Cpu)
    requires Inv(g) && IplOk(g) && c in g.cpus && k.cur == g.cpus[c].cur && t.cpu == c && Counted(t, k)
    ensures IplOk(Local(g, c, t, k))
  {
    hide Inv, Counted, Parked, Shape, IplOk;
    CpuFacts(g, c);
    IplLocal(g, Local(g, c, t, k), c);
  }

  lemma StartIpl(g: System, c: nat, l: Lock, op: Op)
    requires Inv(g) && IplOk(g) && c in g.cpus && g.cpus[c].cur in g.threads && !g.cpus[c].phase.Dozing?
    ensures IplOk(StartAcquire(g, c, l, op))
  {
    hide Inv, IplOk, Shape;
    CpuFacts(g, c);
    WantCounts(CurT(g, c), g.cpus[c], l);
    LocalIpl(g, c, RaiseT(CurT(g, c)), WantC(CurT(g, c), g.cpus[c], l).(op := op));
  }

  lemma EndIpl(g: System, c: nat, l: Lock, op: Op)
    requires Inv(g) && IplOk(g) && c in g.cpus && g.cpus[c].cur in g.threads && l in g.cpus[c].holds && !g.cpus[c].phase.Dozing?
    ensures IplOk(EndCritical(g, c, l, op))
  {
    hide Inv, IplOk, Shape;
    CpuFacts(g, c);
    ReleaseCounts(CurT(g, c), g.cpus[c], l);
    LocalIpl(g, c, LowerT(CurT(g, c)), ReleaseC(CurT(g, c), g.cpus[c], l).(op := op));
  }

  lemma OpWant(k: Cpu, c: nat)
    requires Shape(k, c)
    ensures k.op.Placed? ==> k.want.None?
    ensures !k.op.NoOp? ==> !k.phase.Dozing?
  {
  }

  lemma LockIpl(g: System, s: Step)
    requires Inv(g) && IplOk(g) && Enabled(g, s)
    requires s.Want? || s.Release? || s.PlaceStart? || s.PlaceEnd? || s.MigrateStart? || s.TakeEnd? || s.GiveStart? || s.GiveEnd? || s.BackStart? || s.BackEnd?
    ensures IplOk(Apply(g, s))
  {
    hide Inv, IplOk, Counted, Free, Local, Shape;
    var c := s.c;
    CpuFacts(g, c);
    OpWant(g.cpus[c], c);
    if s.PlaceEnd? || s.TakeEnd? || s.GiveEnd? || s.BackEnd? { HasRq(g.cpus[c], c); }
    match s
    case Want(_, l) => StartIpl(g, c, Lk(l), NoOp);
    case Release(_, l) => EndIpl(g, c, Lk(l), NoOp);
    case PlaceStart(_) =>
      var d := g.threads[g.lists[Hand(c)][0]].cpu;
      StartIpl(g, c, Rq(d), Placing(d));
    case PlaceEnd(_) => EndIpl(g, c, Rq(g.cpus[c].op.d), OpAfter(g, c));
    case MigrateStart(_) => StartIpl(g, c, Rq(c), Taking);
    case TakeEnd(_) => EndIpl(g, c, Rq(c), Dealing);
    case GiveStart(_, d) => StartIpl(g, c, Rq(d), Giving(d));
    case GiveEnd(_) => EndIpl(g, c, Rq(g.cpus[c].op.d), Dealing);
    case BackStart(_) => StartIpl(g, c, Rq(c), PuttingBack);
    case BackEnd(_) => EndIpl(g, c, Rq(c), NoOp);
  }

  /** In thread_switch with the run queue lock, the CPU counts at least that lock. */
  lemma RqCounted(k: Cpu, c: nat)
    requires Shape(k, c) && k.want.None? && (k.phase.Switching? || k.phase.Picking? || k.phase.Resuming?)
    ensures 0 < k.spinlocks && (k.phase.Picking? ==> k.spinlocks == 1)
  {
    InSwitch(k, c);
    HasRq(k, c);
    HeldCounted(k, c);
  }

  /** The steps of thread_switch up to the choice of the next thread. */
  lemma SwitchIpl(g: System, s: Step)
    requires Inv(g) && IplOk(g) && Enabled(g, s)
    requires s.SetSpl? || s.Got? || s.SwitchStart? || s.SwitchNothing? || s.SwitchTag?
    ensures IplOk(Apply(g, s))
  {
    hide Inv, IplOk, Free, Shape;
    var c := s.c;
    CpuFacts(g, c);
    var k, t := g.cpus[c], CurT(g, c);
    match s
    case SetSpl(_, high) => SplCounts(t, k, high); LocalIpl(g, c, SplT(t, high), SplC(t, k, high));
    case Got(_) =>
      LocalIpl(g, c, t, k.(holds := k.holds + {k.want.value}, want := None));
      assert g.threads[k.cur := t] == g.threads;
    case SwitchStart(_, ns, w, l) =>
      var t1, k1 := SplT(t, true).(saved := Some(t.curspl)), SplC(t, k, true);
      SplCounts(t, k, true);
      LocalIpl(g, c, RaiseT(t1), WantC(t1, k1, Rq(c)).(phase := Switching(ns, w, l)));
    case SwitchNothing(_) =>
      var t1, k1, high := LowerT(t), ReleaseC(t, k, Rq(c)), t.saved == Some(true);
      RqCounted(k, c);
      ReleaseCounts(t, k, Rq(c));
      SplCounts(t1, k1, high);
      LocalIpl(g, c, SplT(t1, high), SplC(t1, k1, high).(phase := Running));
    case SwitchTag(_) => LocalIpl(g, c, t.(tag := Sleep, boot := false), k.(phase := Picking));
  }

  /** Idling, and the steps of the thread that comes out of the switch. */
  lemma ResumeIpl(g: System, s: Step)
    requires Inv(g) && IplOk(g) && Enabled(g, s)
    requires s.PickNone? || s.Doze? || s.Rouse? || s.Unidle? || s.Resume? || s.ResumeEnd? || s.MigrateEnd?
    ensures IplOk(Apply(g, s))
  {
    hide Inv, IplOk, Free, Shape;
    var c := s.c;
    CpuFacts(g, c);
    var k, t := g.cpus[c], CurT(g, c);
    match s
    case PickNone(_) =>
      RqCounted(k, c);
      LocalIpl(g, c, LowerT(t), ReleaseC(t, k, Rq(c)).(phase := Idle));
    case Doze(_) => LocalIpl(g, c, t, k.(phase := Dozing, irqOff := false));
    case Rouse(_) => DozeCounted(t, k, c); LocalIpl(g, c, t, k.(phase := Idle, irqOff := true));
    case MigrateEnd(_) => LocalIpl(g, c, t, k.(op := NoOp));
    case Unidle(_) => LocalIpl(g, c, RaiseT(t), WantC(t, k, Rq(c)).(phase := Picking));
    case Resume(_) =>
      ResumeWant(k, c);
      RqCounted(k, c);
      LocalIpl(g, c, LowerT(t).(tag := Run), ReleaseC(t, k, Rq(c)).(phase := Exorcising));
    case ResumeEnd(_) =>
      var high := t.saved == Some(true);
      SplCounts(t, k, high);
      LocalIpl(g, c, SplT(t, high), SplC(t, k, high).(phase := Running));
  }

  /** On coming back, the level is still raised. */
  lemma DozeCounted(t: Thread, k: Cpu, c: nat)
    requires Shape(k, c) && Counted(t, k) && k.phase.Dozing?
    ensures t.ipl == 1
  {
  }

  lemma ResumeWant(k: Cpu, c: nat)
    requires Shape(k, c) && k.phase.Resuming?
    ensures k.want.None?
  {
  }

  lemma PlaceIpl(g: System, c: nat)
    requires Inv(g) && IplOk(g) && Enabled(g, SwitchPlace(c))
    ensures IplOk(Apply(g, SwitchPlace(c)))
  {
    hide Inv, Free, IplOk, Shape;
    CpuFacts(g, c);
    assert Apply(g, SwitchPlace(c)) == PlaceCur(g, c) && g.cpus[c].phase.Switching? && g.cpus[c].want.None?;
    hide Apply, Enabled;
    RqCounted(g.cpus[c], c);
    IplLocal(g, PlaceCur(g, c), c);
  }

  lemma MoveIpl(g: System, s: Step)
    requires Inv(g) && IplOk(g) && Enabled(g, s)
    requires s.Launch? || s.Grab? || s.PlaceOne? || s.TakeOne? || s.BackOne? || s.SkipOne?
    ensures IplOk(Apply(g, s))
  {
    var c := s.c;
    hide Inv, IplOk, Free;
    var g' := Apply(g, s);
    assert g.cpus[c := g.cpus[c]] == g.cpus;
    match s
    case Launch(_, t) => IplMove(g, g', c, t);
    case Grab(_, w) => IplMove(g, g', c, g.lists[Channel(w)][0]);
    case PlaceOne(_) => IplMove(g, g', c, g.lists[Hand(c)][0]);
    case TakeOne(_) => IplMove(g, g', c, g.lists[RunQueue(c)][|g.lists[RunQueue(c)]| - 1]);
    case BackOne(_) => IplMove(g, g', c, g.lists[Hand(c)][0]);
    case SkipOne(_) =>
      assert g.threads[g.cpus[c].cur := CurT(g, c)] == g.threads;
      IplMove(g, g', c, g.cpus[c].cur);
  }

  lemma GiveIpl(g: System, c: nat)
    requires Inv(g) && IplOk(g) && Enabled(g, GiveOne(c))
    ensures IplOk(Apply(g, GiveOne(c)))
  {
    hide Inv, IplOk, Free, Lists, Exclusive, Shape, CurOk, IsList;
    var t := g.lists[Hand(c)][0];
    HeadAt(g, Hand(c));
    assert g.cpus[c := g.cpus[c]] == g.cpus;
    IplMove(g, Apply(g, GiveOne(c)), c, t);
  }

  /** The context switch: each thread carries the count that the run queue lock requires. */
  lemma PickIpl(g: System, c: nat)
    requires Inv(g) && IplOk(g) && Enabled(g, PickNext(c))
    ensures IplOk(Apply(g, PickNext(c)))
  {
    hide Inv, Free, IplOk, Shape, CurOk, Lists, Exclusive, HandOk, IsList;
    CpuFacts(g, c);
    HeadAt(g, RunQueue(c));
    assert g.cpus[c].phase.Picking? && g.cpus[c].want.None? && Apply(g, PickNext(c)) == Picked(g, c);
    hide Apply, Enabled;
    RqCounted(g.cpus[c], c);
    forall d | d in g.cpus ensures g.cpus[d].cur in g.threads && CurT(g, d).cpu == d { CpuFacts(g, d); }
    PickedIpl(g, c);
  }

  lemma PickedIpl(g: System, c: nat)
    requires IplOk(g) && c in g.cpus && RunQueue(c) in g.lists && g.lists[RunQueue(c)] != []
    requires g.lists[RunQueue(c)][0] in g.threads && g.threads[g.lists[RunQueue(c)][0]].cpu == c
    requires g.cpus[c].phase.Picking? && g.cpus[c].spinlocks == 1
    requires forall d :: d in g.cpus && d != c ==> g.cpus[d].cur != g.cpus[c].cur
    requires forall d :: d in g.cpus ==> g.cpus[d].cur in g.threads && g.threads[g.cpus[d].cur].cpu == d
    ensures IplOk(Picked(g, c))
  {
    var t, x, g' := g.lists[RunQueue(c)][0], g.cpus[c].cur, Picked(g, c);
    assert Parked(g.threads[x]);
    assert t != x ==> !IsCur(g, t);
    assert Parked(g.threads[t]);
    forall u | u in g'.threads && !IsCur(g', u) ensures Parked(g'.threads[u]) {
      if u != x { assert !IsCur(g, u); }
    }
  }

  lemma ForkIpl(g: System, c: nat, t: nat)
    requires Inv(g) && IplOk(g) && Enabled(g, Fork(c, t))
    ensures IplOk(Apply(g, Fork(c, t)))
  {
    hide Inv, IplOk, Free;
    var g' := Apply(g, Fork(c, t));
    assert t !in g.threads && g' == g.(threads := g.threads[t := g'.threads[t]]) && Parked(g'.threads[t]);
    hide Apply, Enabled;
    forall d | d in g.cpus ensures g.cpus[d].cur in g.threads { CpuFacts(g, d); }
    SameCurs(g, g');
  }

  /** Threads come and go, none of them current. */
  lemma SameCurs(g: System, g': System)
    requires IplOk(g) && g'.cpus == g.cpus
    requires forall c :: c in g.cpus ==> g.cpus[c].cur in g'.threads && g'.threads[g.cpus[c].cur] == g.threads[g.cpus[c].cur]
    requires forall u :: u in g'.threads ==> Parked(g'.threads[u]) || (u in g.threads && g.threads[u] == g'.threads[u])
    ensures IplOk(g')
  {
    forall u | u in g'.threads && !IsCur(g', u) ensures Parked(g'.threads[u]) {
      if u in g.threads && g.threads[u] == g'.threads[u] { assert !IsCur(g, u); }
    }
  }

  lemma ExorciseIpl(g: System, c: nat)
    requires Inv(g) && IplOk(g) && Enabled(g, Exorcise(c))
    ensures IplOk(Apply(g, Exorcise(c)))
  {
    hide Inv, IplOk, Free;
    ExorciseSafe(g, c);
    var z, g' := g.lists[Zombies(c)][0], Apply(g, Exorcise(c));
    assert g'.threads == g.threads - {z} && g'.cpus == g.cpus;
    hide Apply, Enabled;
    forall d | d in g.cpus ensures g.cpus[d].cur in g.threads { CpuFacts(g, d); }
    SameCurs(g, g');
  }

  /** Every step keeps the counts. */
  lemma StepCounts(g: System, s: Step)
    requires Inv(g) && IplOk(g) && Enabled(g, s)
    ensures IplOk(Apply(g, s))
  {
    hide Inv, IplOk, Enabled, Apply;
    match s
    case Fork(c, t) => ForkIpl(g, c, t);
    case GiveOne(c) => GiveIpl(g, c);
    case PickNext(c) => PickIpl(g, c);
    case Exorcise(c) => ExorciseIpl(g, c);
    case SwitchPlace(c) => PlaceIpl(g, c);
    case _ =>
      if s.Launch? || s.Grab? || s.PlaceOne? || s.TakeOne? || s.BackOne? || s.SkipOne? {
        MoveIpl(g, s);
      } else if s.SetSpl? || s.Got? || s.SwitchStart? || s.SwitchNothing? || s.SwitchTag? {
        SwitchIpl(g, s);
      } else if s.PickNone? || s.Doze? || s.Rouse? || s.Unidle? || s.Resume? || s.ResumeEnd? || s.MigrateEnd? {
        ResumeIpl(g, s);
      } else {
        LockIpl(g, s);
      }
  }

  lemma BootCounts(g: System)
    requires Boot(g)
    ensures IplOk(g)
  {
    assert forall t :: t in g.threads ==> IsCur(g, t);
  }

  /** In every state of every run the counts are right, on every CPU and for every thread. */
  lemma {:induction false} RunCounts(gs: seq<System>, i: nat)
    requires IsRun(gs) && i < |gs|
    ensures IplOk(gs[i])
  {
    hide Inv, IplOk, Boot, Enabled, Apply;
    if i == 0 {
      BootCounts(gs[0]);
    } else {
      var k := i - 1;
      RunKeeps(gs, k);
      RunCounts(gs, k);
      assert Follows(gs[k], gs[k + 1]);
      var s :| Enabled(gs[k], s) && gs[k + 1] == Apply(gs[k], s);
      StepCounts(gs[k], s);
    }
  }
}
