/** Each step of the thread system keeps the invariant (kern/thread/thread.c:297-1105). */
module ThreadSteps {
  import opened Basics
  import opened ThreadSystem
  import opened ThreadPlaces

  // ---------- steps that move no thread ----------

  /** Phases with the same demands on the current thread's place and tag. */
  function Standing(p: Phase): nat {
    match p
    case Tagging => 1
    case Picking => 2
    case Idle => 2
    case Dozing => 2
    case Resuming => 3
    case _ => 0
  }

  ghost predicate SameClass(a: Op, b: Op) {
    Wakes(a) == Wakes(b) && Migrates(a) == Migrates(b)
  }

  /** No thread is current on two CPUs. */
  lemma OneCpu(g: System, c: nat, d: nat)
    requires c in g.cpus && d in g.cpus && CurOk(g, c) && CurOk(g, d) && g.cpus[c].cur == g.cpus[d].cur
    ensures c == d
  {
  }

  lemma LocalCur(g: System, c: nat, r: Thread, k: Cpu)
    requires c in g.cpus && CurOk(g, c) && ThreadOk(g, g.cpus[c].cur)
    requires var t := CurT(g, c); r.place == t.place && r.cpu == t.cpu && r.tag == t.tag && r.boot == t.boot
    requires k.cur == g.cpus[c].cur && Standing(k.phase) == Standing(g.cpus[c].phase)
    requires SameClass(g.cpus[c].op, k.op) || r.place != Hand(c)
    ensures CurOk(Local(g, c, r, k), c) && ThreadOk(Local(g, c, r, k), k.cur)
  {
  }

  lemma InvAt(g: System, c: nat)
    requires Inv(g) && c in g.cpus
    ensures Shape(g.cpus[c], c) && CurOk(g, c) && HandOk(g, c)
    ensures g.cpus[c].cur in g.threads && ThreadOk(g, g.cpus[c].cur)
    ensures Lists(g) && Exclusive(g)
    ensures RunQueue(c) in g.lists && Zombies(c) in g.lists && Hand(c) in g.lists
  {
    assert CurOk(g, c);
  }

  /** The thread a wakeup is about to place, if any, and its CPU. */
  ghost predicate TargetOk(g: System, c: nat, op: Op) {
    var h := ListAt(g, Hand(c));
    && (op.NoOp? ==> h == [])
    && (op.Placing? ==> h != [] && h[0] in g.threads && g.threads[h[0]].cpu == op.d)
    && (op.Giving? ==> op.d in g.cpus)
  }

  lemma HandLocal(g: System, c: nat, r: Thread, k: Cpu)
    requires c in g.cpus && g.cpus[c].cur in g.threads && r.cpu == CurT(g, c).cpu
    requires TargetOk(g, c, k.op)
    ensures HandOk(Local(g, c, r, k), c)
  {
  }

  /** Of a step that moves no thread and changes no tag, only the locks need a proof. */
  lemma LocalStep(g: System, c: nat, r: Thread, k: Cpu)
    requires Inv(g) && c in g.cpus && g.cpus[c].cur in g.threads
    requires var t := CurT(g, c); r.place == t.place && r.cpu == t.cpu && r.tag == t.tag && r.boot == t.boot
    requires k.cur == g.cpus[c].cur && Standing(k.phase) == Standing(g.cpus[c].phase) && Shape(k, c)
    requires forall l :: l in k.holds ==> l in g.cpus[c].holds || Free(g, l)
    requires SameClass(g.cpus[c].op, k.op) || ListAt(g, Hand(c)) == []
    requires TargetOk(g, c, k.op)
    ensures Inv(Local(g, c, r, k))
  {
    hide Shape, Exclusive, Lists, HandOk, Free, ThreadOk, CurOk, SameClass, Standing, KeepsHand, TargetOk;
    HandLocal(g, c, r, k);
    var g', x := Local(g, c, r, k), g.cpus[c].cur;
    SameLists(g, g', x);
    HandKept(g, g', c, x);
    InHand(g, c, x);
    LocalCur(g, c, r, k);
    forall d | d in g.cpus && d != c ensures g.cpus[d].cur != x {
      if g.cpus[d].cur == x { OneCpu(g, c, d); }
    }
    OneStep(g, g', c, x);
  }

  lemma InHand(g: System, c: nat, t: nat)
    requires Lists(g) && c in g.cpus && t in g.threads
    ensures g.threads[t].place == Hand(c) <==> t in ListAt(g, Hand(c))
  {
    assert Hand(c) in g.lists && IsList(g.threads, g.lists[Hand(c)], Hand(c));
  }

  lemma HandKept(g: System, g': System, c: nat, t: nat)
    requires Lists(g) && c in g.cpus && c in g'.cpus
    requires SameClass(g.cpus[c].op, g'.cpus[c].op) || ListAt(g, Hand(c)) == []
    ensures KeepsHand(g, g', c, t)
  {
    assert Hand(c) in g.lists && IsList(g.threads, g.lists[Hand(c)], Hand(c));
  }

  // ---------- locks ----------

  /** Starting to wait for a lock: a plain one, or the run queue lock the code has come to. */
  lemma ShapeWant(k: Cpu, k': Cpu, c: nat, l: Lock)
    requires Shape(k, c) && k.want.None? && l !in k.holds
    requires k'.holds == k.holds && k'.want == Some(l) && k'.spinlocks == k.spinlocks + 1
    requires k'.op.NoOp? || k'.phase.Running? || k'.phase.Idle?
    requires PhaseOk(k', c) && !k'.op.Placed?
    requires RqAt(k, c).None?
    requires RqAt(k', c) == if l.Rq? then Some(l.c) else None
    ensures Shape(k', c)
  {
  }

  lemma ShapeRelease(k: Cpu, k': Cpu, c: nat, l: Lock)
    requires Shape(k, c) && k.want.None? && l in k.holds
    requires k'.holds == k.holds - {l} && k'.want.None? && k'.spinlocks == k.spinlocks - 1
    requires k'.op.NoOp? || k'.phase.Running? || k'.phase.Idle?
    requires PhaseOk(k', c)
    requires if l.Rq? then RqAt(k', c).None? else RqAt(k', c) == RqAt(k, c)
    ensures Shape(k', c)
  {
    assert |k.holds| == |k'.holds| + 1;
  }

  /** At a point that belongs to a run queue lock, nothing waited for means the lock is held. */
  lemma HasRq(k: Cpu, c: nat)
    requires Shape(k, c) && k.want.None? && RqAt(k, c).Some?
    ensures Rq(RqAt(k, c).value) in k.holds
  {
  }

  lemma SameShape(k: Cpu, k': Cpu, c: nat)
    requires Shape(k, c) && k' == k.(irqOff := k'.irqOff)
    ensures Shape(k', c)
  {
  }

  lemma ShapeGot(k: Cpu, c: nat)
    requires Shape(k, c) && k.want.Some?
    ensures Shape(k.(holds := k.holds + {k.want.value}, want := None), c)
  {
  }

  lemma SplStep(g: System, c: nat, high: bool)
    requires Inv(g) && Enabled(g, SetSpl(c, high))
    ensures Inv(Apply(g, SetSpl(c, high)))
  {
    hide Inv, Shape, Free, CurOk, ThreadOk, Lists, Exclusive;
    InvAt(g, c);
    var k, t := g.cpus[c], CurT(g, c);
    SameShape(k, SplC(t, k, high), c);
    LocalStep(g, c, SplT(t, high), SplC(t, k, high));
  }

  lemma WantStep(g: System, c: nat, l: nat)
    requires Inv(g) && Enabled(g, Want(c, l))
    ensures Inv(Apply(g, Want(c, l)))
  {
    hide Inv, Shape, Free, CurOk, ThreadOk, Lists, Exclusive;
    InvAt(g, c);
    var k, t := g.cpus[c], CurT(g, c);
    var k' := WantC(t, k, Lk(l)).(op := NoOp);
    ShapeWant(k, k', c, Lk(l));
    LocalStep(g, c, RaiseT(t), k');
  }

  lemma ReleaseStep(g: System, c: nat, l: nat)
    requires Inv(g) && Enabled(g, Release(c, l))
    ensures Inv(Apply(g, Release(c, l)))
  {
    hide Inv, Shape, Free, CurOk, ThreadOk, Lists, Exclusive;
    InvAt(g, c);
    var k, t := g.cpus[c], CurT(g, c);
    var k' := ReleaseC(t, k, Lk(l)).(op := NoOp);
    ShapeRelease(k, k', c, Lk(l));
    LocalStep(g, c, LowerT(t), k');
  }

  lemma GotStep(g: System, c: nat)
    requires Inv(g) && Enabled(g, Got(c))
    ensures Inv(Apply(g, Got(c)))
  {
    hide Inv, Shape, Free, CurOk, ThreadOk, Lists, Exclusive;
    InvAt(g, c);
    var k, t := g.cpus[c], CurT(g, c);
    var k' := k.(holds := k.holds + {k.want.value}, want := None);
    ShapeGot(k, c);
    LocalStep(g, c, t, k');
    assert g.threads[k.cur := t] == g.threads;
  }

  /** The starts and ends of the critical sections of wakeup and migration. */
  lemma CriticalStart(g: System, c: nat, l: Lock, op: Op)
    requires Inv(g) && c in g.cpus && g.cpus[c].cur in g.threads
    requires var k := g.cpus[c];
      && k.want.None? && (k.phase.Running? || k.phase.Idle?) && RqAt(k, c).None?
      && l.Rq? && !op.NoOp? && !op.Placed? && RqAt(k.(op := op), c) == Some(l.c)
      && (SameClass(k.op, op) || k.op.NoOp?)
    requires TargetOk(g, c, op)
    ensures Inv(StartAcquire(g, c, l, op))
  {
    hide Inv, Shape, Free, CurOk, ThreadOk, Lists, Exclusive, TargetOk;
    InvAt(g, c);
    var k, t := g.cpus[c], CurT(g, c);
    var k' := WantC(t, k, l).(op := op);
    NotHeld(k, c, l);
    ShapeWant(k, k', c, l);
    LocalStep(g, c, RaiseT(t), k');
  }

  lemma NotHeld(k: Cpu, c: nat, l: Lock)
    requires Shape(k, c) && RqAt(k, c).None? && l.Rq?
    ensures l !in k.holds
  {
    assert l == Rq(l.c);
  }

  lemma CriticalEnd(g: System, c: nat, op: Op)
    requires Inv(g) && c in g.cpus && g.cpus[c].cur in g.threads
    requires var k := g.cpus[c];
      && k.want.None? && (k.phase.Running? || k.phase.Idle?) && !k.op.NoOp? && RqAt(k, c).Some?
      && RqAt(k.(op := op), c).None? && !op.Placing? && !op.Giving? && (SameClass(k.op, op) || ListAt(g, Hand(c)) == [])
    requires op.NoOp? ==> ListAt(g, Hand(c)) == []
    ensures Inv(EndCritical(g, c, Rq(RqAt(g.cpus[c], c).value), op))
  {
    hide Inv, Shape, Free, CurOk, ThreadOk, Lists, Exclusive;
    InvAt(g, c);
    var k, t := g.cpus[c], CurT(g, c);
    var l := Rq(RqAt(k, c).value);
    var k' := ReleaseC(t, k, l).(op := op);
    HasRq(k, c);
    ShapeRelease(k, k', c, l);
    LocalStep(g, c, LowerT(t), k');
  }

  // ---------- thread_switch, where it moves no thread ----------

  lemma SwitchStartStep(g: System, c: nat, ns: Tag, w: nat, l: nat)
    requires Inv(g) && Enabled(g, SwitchStart(c, ns, w, l))
    ensures Inv(Apply(g, SwitchStart(c, ns, w, l)))
  {
    hide Inv;
    var k, t := g.cpus[c], CurT(g, c);
    var t1, k1 := SplT(t, true).(saved := Some(t.curspl)), SplC(t, k, true);
    var k' := WantC(t1, k1, Rq(c)).(phase := Switching(ns, w, l));
    assert Apply(g, SwitchStart(c, ns, w, l)) == Local(g, c, RaiseT(t1), k');
    assert k.phase.Running? && k.op.NoOp? && k.want.None? && !ns.Run? && k.holds == if ns.Sleep? then {Lk(l)} else {};
    hide Apply, Enabled;
    SwitchWants(g, c, RaiseT(t1), k');
  }

  lemma SwitchWants(g: System, c: nat, r: Thread, k': Cpu)
    requires Inv(g) && c in g.cpus && g.cpus[c].cur in g.threads
    requires var t := CurT(g, c); r.place == t.place && r.cpu == t.cpu && r.tag == t.tag && r.boot == t.boot
    requires var k := g.cpus[c];
      && k.phase.Running? && k.op.NoOp? && k.want.None? && k'.phase.Switching? && !k'.phase.ns.Run?
      && k.holds == (if k'.phase.ns.Sleep? then {Lk(k'.phase.l)} else {})
      && k' == k.(want := Some(Rq(c)), spinlocks := k.spinlocks + 1, irqOff := k'.irqOff, phase := k'.phase)
    ensures Inv(Local(g, c, r, k'))
  {
    hide Inv, Shape, Free, CurOk, ThreadOk, Lists, Exclusive, HandOk;
    InvAt(g, c);
    NoOpTarget(g, c);
    NotHeld(g.cpus[c], c, Rq(c));
    ShapeWant(g.cpus[c], k', c, Rq(c));
    hide TargetOk;
    LocalStep(g, c, r, k');
  }

  lemma NoOpTarget(g: System, c: nat)
    requires c in g.cpus && HandOk(g, c) && g.cpus[c].op.NoOp?
    ensures TargetOk(g, c, NoOp)
  {
  }

  lemma SwitchNothingStep(g: System, c: nat)
    requires Inv(g) && Enabled(g, SwitchNothing(c))
    ensures Inv(Apply(g, SwitchNothing(c)))
  {
    hide Inv, Shape, Free, CurOk, ThreadOk, Lists, Exclusive;
    InvAt(g, c);
    var k, t := g.cpus[c], CurT(g, c);
    var t1, k1 := LowerT(t), ReleaseC(t, k, Rq(c));
    var high := t.saved == Some(true);
    var k' := SplC(t1, k1, high).(phase := Running);
    assert Apply(g, SwitchNothing(c)) == Local(g, c, SplT(t1, high), k');
    assert k.phase.Switching? && k.want.None?;
    hide Apply, Enabled;
    InSwitch(k, c);
    HasRq(k, c);
    ShapeRelease(k, k', c, Rq(c));
    LocalStep(g, c, SplT(t1, high), k');
  }

  lemma InSwitch(k: Cpu, c: nat)
    requires Shape(k, c) && !k.phase.Running? && !k.phase.Idle? && !k.phase.Dozing?
    ensures k.op.NoOp? && (!k.phase.Exorcising? ==> RqAt(k, c) == Some(c))
  {
  }

  lemma PickNoneStep(g: System, c: nat)
    requires Inv(g) && Enabled(g, PickNone(c))
    ensures Inv(Apply(g, PickNone(c)))
  {
    hide Inv, Shape, Free, CurOk, ThreadOk, Lists, Exclusive;
    InvAt(g, c);
    var k, t := g.cpus[c], CurT(g, c);
    var k' := ReleaseC(t, k, Rq(c)).(phase := Idle);
    InSwitch(k, c);
    HasRq(k, c);
    ShapeRelease(k, k', c, Rq(c));
    LocalStep(g, c, LowerT(t), k');
  }

  lemma UnidleStep(g: System, c: nat)
    requires Inv(g) && Enabled(g, Unidle(c))
    ensures Inv(Apply(g, Unidle(c)))
  {
    hide Inv, Shape, Free, CurOk, ThreadOk, Lists, Exclusive;
    InvAt(g, c);
    var k, t := g.cpus[c], CurT(g, c);
    var k' := WantC(t, k, Rq(c)).(phase := Picking);
    ShapeWant(k, k', c, Rq(c));
    LocalStep(g, c, RaiseT(t), k');
  }

  lemma DozeShape(k: Cpu, c: nat)
    requires Shape(k, c)
    ensures k.phase.Idle? && k.op.NoOp? && k.want.None? && k.holds == {} ==> Shape(k.(phase := Dozing, irqOff := false), c)
    ensures k.phase.Dozing? ==> Shape(k.(phase := Idle, irqOff := true), c)
  {
  }

  /** Turning interrupts on in cpu_idle, and off again. */
  lemma DozeStep(g: System, s: Step)
    requires Inv(g) && Enabled(g, s) && (s.Doze? || s.Rouse?)
    ensures Inv(Apply(g, s))
  {
    hide Inv, Shape, Free, CurOk, ThreadOk, Lists, Exclusive;
    var c := s.c;
    InvAt(g, c);
    var k, t := g.cpus[c], CurT(g, c);
    DozeShape(k, c);
    LocalStep(g, c, t, if s.Doze? then k.(phase := Dozing, irqOff := false) else k.(phase := Idle, irqOff := true));
  }

  lemma EndShape(k: Cpu, c: nat)
    requires Shape(k, c) && k.op.Dealing?
    ensures Shape(k.(op := NoOp), c)
  {
  }

  /** The end of a migration that left no victim. */
  lemma MigrateEndStep(g: System, c: nat)
    requires Inv(g) && Enabled(g, MigrateEnd(c))
    ensures Inv(Apply(g, MigrateEnd(c)))
  {
    hide Inv, Shape, Free, CurOk, ThreadOk, Lists, Exclusive;
    InvAt(g, c);
    var k := g.cpus[c];
    EndShape(k, c);
    LocalStep(g, c, CurT(g, c), k.(op := NoOp));
  }

  lemma ResumeEndStep(g: System, c: nat)
    requires Inv(g) && Enabled(g, ResumeEnd(c))
    ensures Inv(Apply(g, ResumeEnd(c)))
  {
    hide Inv, Shape, Free, CurOk, ThreadOk, Lists, Exclusive;
    InvAt(g, c);
    var k, t := g.cpus[c], CurT(g, c);
    var high := t.saved == Some(true);
    var k' := SplC(t, k, high).(phase := Running);
    LeaveShape(k, k', c);
    LocalStep(g, c, SplT(t, high), k');
  }

  lemma LeaveShape(k: Cpu, k': Cpu, c: nat)
    requires Shape(k, c) && k.phase.Exorcising? && k' == k.(irqOff := k'.irqOff, phase := Running)
    ensures Shape(k', c)
  {
  }

  /** Steps that change the current thread's tag and move nobody. */
  lemma TagStep(g: System, c: nat, r: Thread, k: Cpu)
    requires Inv(g) && c in g.cpus && g.cpus[c].cur in g.threads
    requires r.place == CurT(g, c).place && r.cpu == CurT(g, c).cpu && k.cur == g.cpus[c].cur
    requires g.cpus[c].op.NoOp? && k.op.NoOp? && k.holds <= g.cpus[c].holds && Shape(k, c)
    requires CurOk(Local(g, c, r, k), c) && ThreadOk(Local(g, c, r, k), k.cur)
    ensures Inv(Local(g, c, r, k))
  {
    hide Inv, Shape, Exclusive, Lists, Free, ThreadOk, CurOk, KeepsHand;
    InvAt(g, c);
    var g', x := Local(g, c, r, k), g.cpus[c].cur;
    SameLists(g, g', x);
    HandKept(g, g', c, x);
    forall d | d in g.cpus && d != c ensures g.cpus[d].cur != x {
      InvAt(g, d);
      if g.cpus[d].cur == x { OneCpu(g, c, d); }
    }
    OneStep(g, g', c, x);
  }

  lemma SwitchTagStep(g: System, c: nat)
    requires Inv(g) && Enabled(g, SwitchTag(c))
    ensures Inv(Apply(g, SwitchTag(c)))
  {
    hide Inv, Free, Lists, Exclusive, HandOk, Shape, CurOk, ThreadOk;
    InvAt(g, c);
    var k, t := g.cpus[c], CurT(g, c);
    assert k.phase.Tagging? && Apply(g, SwitchTag(c)) == Local(g, c, t.(tag := Sleep, boot := false), k.(phase := Picking));
    hide Apply, Enabled;
    TagShape(k, c);
    TaggedNow(g, c);
    TagStep(g, c, t.(tag := Sleep, boot := false), k.(phase := Picking));
  }

  lemma TagShape(k: Cpu, c: nat)
    requires Shape(k, c) && k.phase.Tagging?
    ensures k.op.NoOp? && Shape(k.(phase := Picking), c)
  {
  }

  lemma TaggedNow(g: System, c: nat)
    requires c in g.cpus && CurOk(g, c) && ThreadOk(g, g.cpus[c].cur) && g.cpus[c].phase.Tagging?
    ensures var g' := Local(g, c, CurT(g, c).(tag := Sleep, boot := false), g.cpus[c].(phase := Picking));
      CurOk(g', c) && ThreadOk(g', g.cpus[c].cur)
  {
  }

  lemma ResumeStep(g: System, c: nat)
    requires Inv(g) && Enabled(g, Resume(c))
    ensures Inv(Apply(g, Resume(c)))
  {
    hide Inv, Free, Lists, Exclusive, HandOk;
    InvAt(g, c);
    var k, t := g.cpus[c], CurT(g, c);
    var k' := ReleaseC(t, k, Rq(c)).(phase := Exorcising);
    assert k.phase.Resuming? && Apply(g, Resume(c)) == Local(g, c, LowerT(t).(tag := Run), k');
    hide Apply, Enabled;
    ShapeRelease(k, k', c, Rq(c));
    hide Shape;
    TagStep(g, c, LowerT(t).(tag := Run), k');
  }

  // ---------- steps that move a thread from one list to another ----------

  ghost predicate OnList(p: Place) { !p.OnCpu? && !p.Embryo? }

  /** A current thread that is moved between lists stays a legal current thread. */
  lemma CurMoved(g: System, g': System, d: nat, t: nat)
    requires d in g.cpus && d in g'.cpus && CurOk(g, d) && g.cpus[d].cur == t
    requires g'.cpus[d].cur == t && g'.cpus[d].phase == g.cpus[d].phase
    requires t in g'.threads && g'.threads[t].cpu == g.threads[t].cpu && g'.threads[t].boot == g.threads[t].boot
    requires OnList(g.threads[t].place) && OnList(g'.threads[t].place)
    requires g'.threads[t].tag == g.threads[t].tag || g'.threads[t].tag.Ready?
    requires Tagged(g, t) ==> g'.threads[t].tag == g.threads[t].tag && g'.threads[t].place.Hand?
    ensures CurOk(g', d)
  {
  }

  lemma ListMove(g: System, g': System, c: nat, t: nat)
    requires Inv(g) && Changes(g, g', c, t) && KeepsHand(g, g', c, t) && Lists(g')
    requires g'.cpus[c] == g.cpus[c].(op := g'.cpus[c].op) && Shape(g'.cpus[c], c)
    requires g'.threads[t].cpu == g.threads[t].cpu && g'.threads[t].boot == g.threads[t].boot
    requires OnList(g.threads[t].place) && OnList(g'.threads[t].place)
    requires g'.threads[t].tag == g.threads[t].tag || g'.threads[t].tag.Ready?
    requires Tagged(g, t) ==> g'.threads[t].tag == g.threads[t].tag && g'.threads[t].place.Hand?
    requires ThreadOk(g', t) && HandOk(g', c)
    ensures Inv(g')
  {
    hide Inv, Shape, Free, CurOk, ThreadOk, Lists, Exclusive, HandOk, KeepsHand, OnList, Tagged;
    InvAt(g, c);
    var x := g.cpus[c].cur;
    if x != t {
      OtherThread(g, g', c, t, x);
      SameCur(g, g', c, t);
    } else {
      CurMoved(g, g', c, t);
    }
    forall d | d in g.cpus && d != c && g.cpus[d].cur == t ensures CurOk(g', d) {
      InvAt(g, d);
      CurMoved(g, g', d, t);
    }
    OneStep(g, g', c, t);
  }

  lemma SameCur(g: System, g': System, c: nat, t: nat)
    requires Changes(g, g', c, t) && CurOk(g, c) && g.cpus[c].cur != t
    requires g'.cpus[c] == g.cpus[c].(op := g'.cpus[c].op)
    ensures CurOk(g', c)
  {
  }

  /** The thread at the head of a list, and what its place says about it. */
  lemma HeadAt(g: System, p: Place)
    requires Inv(g) && p in g.lists && g.lists[p] != []
    ensures g.lists[p][0] in g.threads && g.threads[g.lists[p][0]].place == p && ThreadOk(g, g.lists[p][0])
    ensures OnList(p) && IsList(g.threads, g.lists[p], p)
  {
    assert IsList(g.threads, g.lists[p], p);
    assert g.lists[p][0] in g.lists[p];
  }

  lemma MoveHeadLists(g: System, p: Place, r: Thread)
    requires Lists(g) && p in g.lists && g.lists[p] != [] && r.place in g.lists && p != r.place
    requires g.lists[p][0] in g.threads && g.threads[g.lists[p][0]].place == p
    ensures Lists(MoveHead(g, p, r))
  {
    var t, q := g.lists[p][0], r.place;
    var g' := MoveHead(g, p, r);
    assert IsList(g.threads, g.lists[p], p) && IsList(g.threads, g.lists[q], q);
    HeadLeaves(g.lists[p]);
    JoinsTail(g.lists[q], t);
    assert g'.lists.Keys == g.lists.Keys;
    hide Lists, Loses, Gains, IsList;
    MoveLists(g, g', t, p, q);
  }

  /** Lists do not depend on what the CPUs are doing. */
  lemma ListsCpus(g: System, g': System)
    requires Lists(g) && g'.threads == g.threads && g'.lists == g.lists && g'.cpus.Keys == g.cpus.Keys
    ensures Lists(g')
  {
  }

  lemma ShapeOp(k: Cpu, c: nat, op: Op)
    requires Shape(k, c) && (k.phase.Running? || k.phase.Idle?) && RqAt(k, c) == RqAt(k.(op := op), c)
    requires op.Placed? ==> k.want.None?
    ensures Shape(k.(op := op), c)
  {
  }

  /** What the thread must be like to land on the list at `r.place`. */
  ghost predicate Lands(g: System, c: nat, t: nat, r: Thread, op: Op)
    requires t in g.threads
  {
    && r.cpu in g.cpus
    && match r.place
       case RunQueue(d) => r.cpu == d && r.tag.Ready? && !r.boot
       case Hand(d) => d == c && Wakes(op) && r.tag == g.threads[t].tag && g.threads[t].place.Channel?
       case _ => false
  }

  function HeadMoved(g: System, c: nat, p: Place, r: Thread, op: Op): System
    requires c in g.cpus && p in g.lists && g.lists[p] != [] && r.place in g.lists
  {
    MoveHead(g, p, r).(cpus := g.cpus[c := g.cpus[c].(op := op)])
  }

  lemma Landed(g: System, c: nat, p: Place, r: Thread, op: Op)
    requires c in g.cpus && p in g.lists && g.lists[p] != [] && r.place in g.lists
    requires var t := g.lists[p][0];
      && t in g.threads && ThreadOk(g, t) && Lands(g, c, t, r, op)
      && r.cpu == g.threads[t].cpu && r.boot == g.threads[t].boot
    ensures ThreadOk(HeadMoved(g, c, p, r, op), g.lists[p][0])
  {
  }

  lemma HeadMovedLists(g: System, c: nat, p: Place, r: Thread, op: Op)
    requires Lists(g) && c in g.cpus && p in g.lists && g.lists[p] != [] && r.place in g.lists && p != r.place
    requires g.lists[p][0] in g.threads && g.threads[g.lists[p][0]].place == p
    ensures Lists(HeadMoved(g, c, p, r, op))
  {
    hide Lists;
    MoveHeadLists(g, p, r);
    ListsCpus(MoveHead(g, p, r), HeadMoved(g, c, p, r, op));
  }

  lemma HeadMovedChanges(g: System, c: nat, p: Place, r: Thread, op: Op)
    requires c in g.cpus && p in g.lists && g.lists[p] != [] && r.place in g.lists
    requires g.lists[p][0] in g.threads && r.cpu == g.threads[g.lists[p][0]].cpu
    requires p.Hand? ==> p.c == c
    requires r.place.Hand? ==> r.place.c == c
    ensures Changes(g, HeadMoved(g, c, p, r, op), c, g.lists[p][0])
  {
  }

  lemma HeadMove(g: System, c: nat, p: Place, r: Thread, op: Op)
    requires Inv(g) && c in g.cpus && p in g.lists && g.lists[p] != [] && r.place in g.lists && p != r.place
    requires p.Hand? ==> p.c == c
    requires Shape(g.cpus[c].(op := op), c) && !op.NoOp? && !op.Placing? && !op.Giving?
    requires SameClass(g.cpus[c].op, op) || ListAt(g, Hand(c)) == []
    requires var t := g.lists[p][0];
      && t in g.threads && Lands(g, c, t, r, op)
      && r.cpu == g.threads[t].cpu && r.boot == g.threads[t].boot
      && (Tagged(g, t) ==> r.place.Hand?)
    ensures Inv(HeadMoved(g, c, p, r, op))
  {
    hide Inv, Shape, Exclusive, CurOk, Lists, ThreadOk, SameClass, Tagged, KeepsHand, IsList;
    HeadAt(g, p);
    InvAt(g, c);
    var t, g' := g.lists[p][0], HeadMoved(g, c, p, r, op);
    HeadMovedLists(g, c, p, r, op);
    HeadMovedChanges(g, c, p, r, op);
    Landed(g, c, p, r, op);
    HandKept(g, g', c, t);
    hide Changes;
    assert HandOk(g', c);
    ListMove(g, g', c, t);
  }

  lemma GrabStep(g: System, c: nat, w: nat)
    requires Inv(g) && Enabled(g, Grab(c, w))
    ensures Inv(Apply(g, Grab(c, w)))
  {
    hide Inv, Shape, Free, Exclusive, CurOk, Lists, IsList;
    InvAt(g, c);
    var k, p := g.cpus[c], Channel(w);
    HeadAt(g, p);
    ShapeOp(k, c, Waking);
    HeadMove(g, c, p, g.threads[g.lists[p][0]].(place := Hand(c)), Waking);
  }

  /** A thread whose tag is not yet set is covered by its CPU's run queue lock. */
  lemma NotTagged(g: System, c: nat, t: nat)
    requires Inv(g) && c in g.cpus && t in g.threads && Rq(g.threads[t].cpu) in g.cpus[c].holds
    requires g.cpus[c].phase.Running? || g.cpus[c].phase.Idle?
    ensures !Tagged(g, t)
  {
    hide CurOk, ThreadOk, Lists, HandOk;
    var d := g.threads[t].cpu;
    assert d in g.cpus ==> Shape(g.cpus[d], d);
  }

  lemma OpPhase(g: System, c: nat)
    requires Inv(g) && c in g.cpus && !g.cpus[c].op.NoOp?
    ensures g.cpus[c].phase.Running? || g.cpus[c].phase.Idle?
  {
    assert Shape(g.cpus[c], c);
  }

  /** thread_make_runnable puts the woken thread on its own CPU's run queue. */
  lemma PlaceOneStep(g: System, c: nat)
    requires Inv(g) && Enabled(g, PlaceOne(c))
    ensures Inv(Apply(g, PlaceOne(c)))
  {
    hide Inv, Shape, Free, Exclusive, CurOk, Lists, IsList, Tagged;
    InvAt(g, c);
    OpPhase(g, c);
    var k, p := g.cpus[c], Hand(c);
    HeadAt(g, p);
    var t, d := g.lists[p][0], k.op.d;
    HasRq(k, c);
    NotTagged(g, c, t);
    ShapeOp(k, c, Placed(d));
    HeadMove(g, c, p, g.threads[t].(tag := Ready, place := RunQueue(d)), Placed(d));
  }

  lemma BackOneStep(g: System, c: nat)
    requires Inv(g) && Enabled(g, BackOne(c))
    ensures Inv(Apply(g, BackOne(c)))
  {
    hide Inv, Shape, Free, Exclusive, CurOk, Lists, IsList;
    InvAt(g, c);
    OpPhase(g, c);
    var k, p := g.cpus[c], Hand(c);
    HeadAt(g, p);
    var t := g.lists[p][0];
    ShapeOp(k, c, k.op);
    HeadMove(g, c, p, g.threads[t].(place := RunQueue(c)), k.op);
    assert k.(op := k.op) == k && g.cpus[c := k] == g.cpus;
  }

  /** A migrated thread gets its new CPU; it is nobody's current thread. */
  lemma GiveOneStep(g: System, c: nat)
    requires Inv(g) && Enabled(g, GiveOne(c))
    ensures Inv(Apply(g, GiveOne(c)))
  {
    hide Inv, Free, Exclusive, CurOk, Lists, IsList, Shape;
    InvAt(g, c);
    var k, p, d := g.cpus[c], Hand(c), g.cpus[c].op.d;
    HeadAt(g, p);
    var t := g.lists[p][0];
    var r := g.threads[t].(cpu := d, place := RunQueue(d));
    var g' := Apply(g, GiveOne(c));
    assert g' == MoveHead(g, p, r);
    hide Apply, Enabled;
    MoveHeadLists(g, p, r);
    GiveChanges(g, c, r);
    HandKept(g, g', c, t);
    OtherThread(g, g', c, t, k.cur);
    SameCur(g, g', c, t);
    forall e | e in g.cpus && e != c ensures g.cpus[e].cur != t { InvAt(g, e); CurHome(g, e); }
    assert ThreadOk(g', t) && HandOk(g', c);
    hide ThreadOk, Changes, HandOk;
    OneStep(g, g', c, t);
  }

  lemma CurHome(g: System, c: nat)
    requires c in g.cpus && CurOk(g, c)
    ensures g.threads[g.cpus[c].cur].cpu == c
  {
  }

  lemma GiveChanges(g: System, c: nat, r: Thread)
    requires c in g.cpus && Hand(c) in g.lists && g.lists[Hand(c)] != [] && r.place in g.lists && r.place.RunQueue?
    requires g.lists[Hand(c)][0] in g.threads && g.threads[g.lists[Hand(c)][0]].place == Hand(c)
    ensures Changes(g, MoveHead(g, Hand(c), r), c, g.lists[Hand(c)][0])
  {
    assert g.cpus[c := g.cpus[c]] == g.cpus;
  }

  /** The migrating CPU takes a thread from the end of its own run queue. */
  lemma TakeOneStep(g: System, c: nat)
    requires Inv(g) && Enabled(g, TakeOne(c))
    ensures Inv(Apply(g, TakeOne(c)))
  {
    hide Inv, Free, Exclusive, CurOk, Lists, Shape;
    InvAt(g, c);
    OpPhase(g, c);
    var k, q := g.cpus[c], g.lists[RunQueue(c)];
    var t := q[|q| - 1];
    HeadAt(g, RunQueue(c));
    LastAt(g, RunQueue(c));
    var r := g.threads[t].(place := Hand(c));
    var g' := Apply(g, TakeOne(c));
    assert g' == Move(g, t, r, RunQueue(c), q[..|q| - 1], Hand(c), [t] + g.lists[Hand(c)]);
    hide Apply, Enabled;
    TakeLists(g, c);
    TakeChanges(g, c);
    HandKept(g, g', c, t);
    assert ThreadOk(g', t) && HandOk(g', c);
    hide ThreadOk, Changes, HandOk, IsList;
    ListMove(g, g', c, t);
  }

  lemma LastAt(g: System, p: Place)
    requires Inv(g) && p in g.lists && g.lists[p] != []
    ensures var t := g.lists[p][|g.lists[p]| - 1]; t in g.threads && g.threads[t].place == p && ThreadOk(g, t)
  {
    assert IsList(g.threads, g.lists[p], p);
    assert g.lists[p][|g.lists[p]| - 1] in g.lists[p];
  }

  function TakenLast(g: System, c: nat): System
    requires RunQueue(c) in g.lists && Hand(c) in g.lists && g.lists[RunQueue(c)] != []
    requires g.lists[RunQueue(c)][|g.lists[RunQueue(c)]| - 1] in g.threads
  {
    var q := g.lists[RunQueue(c)];
    var t := q[|q| - 1];
    Move(g, t, g.threads[t].(place := Hand(c)), RunQueue(c), q[..|q| - 1], Hand(c), [t] + g.lists[Hand(c)])
  }

  lemma TakeLists(g: System, c: nat)
    requires Lists(g) && RunQueue(c) in g.lists && Hand(c) in g.lists && g.lists[RunQueue(c)] != []
    requires var t := g.lists[RunQueue(c)][|g.lists[RunQueue(c)]| - 1]; t in g.threads && g.threads[t].place == RunQueue(c)
    ensures Lists(TakenLast(g, c))
  {
    var p, q := RunQueue(c), Hand(c);
    var t, g' := g.lists[p][|g.lists[p]| - 1], TakenLast(g, c);
    assert IsList(g.threads, g.lists[p], p) && IsList(g.threads, g.lists[q], q);
    LastLeaves(g.lists[p]);
    JoinsHead(g.lists[q], t);
    assert g'.lists.Keys == g.lists.Keys;
    hide Lists, Loses, Gains, IsList;
    MoveLists(g, g', t, p, q);
  }

  lemma TakeChanges(g: System, c: nat)
    requires c in g.cpus && RunQueue(c) in g.lists && Hand(c) in g.lists && g.lists[RunQueue(c)] != []
    requires g.lists[RunQueue(c)][|g.lists[RunQueue(c)]| - 1] in g.threads
    ensures Changes(g, TakenLast(g, c), c, g.lists[RunQueue(c)][|g.lists[RunQueue(c)]| - 1])
  {
    assert g.cpus[c := g.cpus[c]] == g.cpus;
  }

  /** curthread, met among the victims, goes to the end of them. */
  lemma SkipOneStep(g: System, c: nat)
    requires Inv(g) && Enabled(g, SkipOne(c))
    ensures Inv(Apply(g, SkipOne(c)))
  {
    hide Inv, Free, Exclusive, CurOk, Lists, Shape, ThreadOk;
    InvAt(g, c);
    var g', x := Apply(g, SkipOne(c)), g.cpus[c].cur;
    SkipLists(g, c);
    assert g.cpus[c := g.cpus[c]] == g.cpus && g.threads[x := g.threads[x]] == g.threads;
    assert Changes(g, g', c, x);
    HandKept(g, g', c, x);
    assert HandOk(g', c);
    hide Apply, Enabled, HandOk;
    SameSystem(g, g', c);
    OneStep(g, g', c, x);
  }

  lemma SkipLists(g: System, c: nat)
    requires Lists(g) && c in g.cpus && g.lists[Hand(c)] != []
    ensures Lists(g.(lists := g.lists[Hand(c) := g.lists[Hand(c)][1..] + [g.lists[Hand(c)][0]]]))
  {
    var l := g.lists[Hand(c)];
    var l' := l[1..] + [l[0]];
    assert IsList(g.threads, l, Hand(c));
    assert l == [l[0]] + l[1..];
    assert NoDup(l') && forall t :: t in l' <==> t in l;
  }

  /** Threads and CPUs are as they were. */
  lemma SameSystem(g: System, g': System, c: nat)
    requires Inv(g) && g'.threads == g.threads && g'.cpus == g.cpus && c in g.cpus
    ensures forall u :: u in g.threads ==> ThreadOk(g', u)
    ensures forall d :: d in g.cpus ==> CurOk(g', d)
  {
    forall u | u in g.threads ensures ThreadOk(g', u) { assert ThreadOk(g, u); }
    forall d | d in g.cpus ensures CurOk(g', d) { assert CurOk(g, d); }
  }

  // ---------- the rest of wakeup and migration ----------

  lemma CriticalStep(g: System, s: Step)
    requires Inv(g) && Enabled(g, s)
    requires s.PlaceStart? || s.MigrateStart? || s.GiveStart? || s.BackStart?
    ensures Inv(Apply(g, s))
  {
    hide Inv, Shape, Free, Exclusive, CurOk, Lists, ThreadOk;
    var c := s.c;
    InvAt(g, c);
    if !g.cpus[c].op.NoOp? { OpPhase(g, c); }
    match s
    case PlaceStart(_) =>
      var d := g.threads[g.lists[Hand(c)][0]].cpu;
      CriticalStart(g, c, Rq(d), Placing(d));
    case MigrateStart(_) => CriticalStart(g, c, Rq(c), Taking);
    case GiveStart(_, d) => CriticalStart(g, c, Rq(d), Giving(d));
    case BackStart(_) => CriticalStart(g, c, Rq(c), PuttingBack);
  }

  lemma CriticalEndStep(g: System, s: Step)
    requires Inv(g) && Enabled(g, s)
    requires s.PlaceEnd? || s.TakeEnd? || s.GiveEnd? || s.BackEnd?
    ensures Inv(Apply(g, s))
  {
    hide Inv, Free, Exclusive, CurOk, Lists, ThreadOk, RqOk, PhaseOk;
    var c := s.c;
    InvAt(g, c);
    OpPhase(g, c);
    hide Shape;
    match s
    case PlaceEnd(_) => CriticalEnd(g, c, OpAfter(g, c));
    case TakeEnd(_) => CriticalEnd(g, c, Dealing);
    case GiveEnd(_) => CriticalEnd(g, c, Dealing);
    case BackEnd(_) => CriticalEnd(g, c, NoOp);
  }

  /** A forked thread is taken up by thread_make_runnable. */
  lemma LaunchStep(g: System, c: nat, t: nat)
    requires Inv(g) && Enabled(g, Launch(c, t))
    ensures Inv(Apply(g, Launch(c, t)))
  {
    hide Inv, Free, Exclusive, Lists, Shape, CurOk, ThreadOk, HandOk;
    InvAt(g, c);
    assert Apply(g, Launch(c, t)) == Launched(g, c, t);
    hide Apply;
    LaunchOk(g, c, t);
  }

  function Launched(g: System, c: nat, t: nat): System
    requires c in g.cpus && t in g.threads
  {
    g.(threads := g.threads[t := g.threads[t].(place := Hand(c))], lists := g.lists[Hand(c) := [t]],
       cpus := g.cpus[c := g.cpus[c].(op := Waking)])
  }

  lemma LaunchOk(g: System, c: nat, t: nat)
    requires Inv(g) && c in g.cpus && t in g.threads && g.threads[t].place.Embryo?
    requires g.cpus[c].phase.Running? && g.cpus[c].op.NoOp? && g.cpus[c].want.None?
    ensures Inv(Launched(g, c, t))
  {
    hide Inv, Free, Exclusive, Lists, Shape;
    InvAt(g, c);
    var k, g' := g.cpus[c], Launched(g, c, t);
    ThreadAt(g, t);
    assert ThreadOk(g', t) && HandOk(g', c) && Changes(g, g', c, t);
    forall d | d in g.cpus ensures g.cpus[d].cur != t { InvAt(g, d); }
    HandKept(g, g', c, t);
    OtherThread(g, g', c, t, k.cur);
    SameCur(g, g', c, t);
    hide ThreadOk, CurOk, Changes, HandOk;
    ShapeOp(k, c, Waking);
    LaunchLists(g, g', c, t);
    OneStep(g, g', c, t);
  }

  lemma ThreadAt(g: System, t: nat)
    requires Inv(g) && t in g.threads
    ensures ThreadOk(g, t)
  {
  }

  lemma LaunchLists(g: System, g': System, c: nat, t: nat)
    requires Lists(g) && c in g.cpus && t in g.threads && g.threads[t].place.Embryo? && ListAt(g, Hand(c)) == []
    requires g'.cpus.Keys == g.cpus.Keys && g'.lists == g.lists[Hand(c) := [t]]
    requires g'.threads == g.threads[t := g.threads[t].(place := Hand(c))]
    ensures Lists(g')
  {
    assert Gains(g.lists[Hand(c)], [t], t);
    assert g'.lists.Keys == g.lists.Keys;
    hide Lists, Gains, Loses;
    assert Embryo !in g.lists by { EmbryoUnlisted(g); }
    MoveLists(g, g', t, Embryo, Hand(c));
  }

  lemma EmbryoUnlisted(g: System)
    requires Lists(g)
    ensures Embryo !in g.lists
  {
  }

  // ---------- thread_switch, where it moves threads ----------

  /** The place, tag and lock state the current thread is left in. */
  lemma PlaceCurShape(k: Cpu, k': Cpu, c: nat)
    requires Shape(k, c) && k.phase.Switching? && k.want.None? && !k.phase.ns.Sleep?
    requires k' == k.(phase := Picking)
    ensures Shape(k', c)
  {
  }

  lemma PlaceSleepShape(k: Cpu, k': Cpu, c: nat)
    requires Shape(k, c) && k.phase.Switching? && k.want.None? && k.phase.ns.Sleep?
    requires k' == k.(irqOff := k'.irqOff, phase := Tagging, holds := k.holds - {Lk(k.phase.l)}, spinlocks := k.spinlocks - 1)
    ensures Shape(k', c)
  {
    var l := Lk(k.phase.l);
    assert l in k.holds - {Rq(c)};
    assert |k.holds| == |k'.holds| + 1;
    assert k'.holds == {Rq(c)};
  }

  /** The current thread goes from the CPU to the end of the list at `r.place`. */
  function CurPlaced(g: System, c: nat, r: Thread, k: Cpu): System
    requires c in g.cpus && r.place in g.lists
  {
    Local(g, c, r, k).(lists := g.lists[r.place := g.lists[r.place] + [g.cpus[c].cur]])
  }

  lemma CurPlacedLists(g: System, c: nat, r: Thread, k: Cpu)
    requires Lists(g) && c in g.cpus && r.place in g.lists && g.cpus[c].cur in g.threads && CurT(g, c).place == OnCpu(c)
    ensures Lists(CurPlaced(g, c, r, k))
  {
    var g', q, x := CurPlaced(g, c, r, k), r.place, g.cpus[c].cur;
    assert IsList(g.threads, g.lists[q], q) && OnCpu(c) !in g.lists;
    JoinsTail(g.lists[q], x);
    assert g'.lists.Keys == g.lists.Keys;
    hide Lists, Gains, Loses, IsList;
    MoveLists(g, g', x, OnCpu(c), q);
  }

  lemma PlaceStep(g: System, c: nat, r: Thread, k: Cpu)
    requires Inv(g) && c in g.cpus && g.cpus[c].cur in g.threads && CurT(g, c).place == OnCpu(c)
    requires r.place in g.lists && !r.place.Hand? && r.cpu == CurT(g, c).cpu
    requires k.cur == g.cpus[c].cur && k.op.NoOp? && g.cpus[c].op.NoOp? && k.holds <= g.cpus[c].holds && Shape(k, c)
    requires CurOk(CurPlaced(g, c, r, k), c) && ThreadOk(CurPlaced(g, c, r, k), k.cur)
    ensures Inv(CurPlaced(g, c, r, k))
  {
    hide Inv, Shape, Exclusive, Lists, Free, ThreadOk, CurOk, KeepsHand, HandOk;
    InvAt(g, c);
    var g', x := CurPlaced(g, c, r, k), g.cpus[c].cur;
    CurPlacedLists(g, c, r, k);
    HandKept(g, g', c, x);
    HandEmpty(g, g', c);
    forall d | d in g.cpus && d != c ensures g.cpus[d].cur != x {
      InvAt(g, d);
      if g.cpus[d].cur == x { OneCpu(g, c, d); }
    }
    OneStep(g, g', c, x);
  }

  lemma HandEmpty(g: System, g': System, c: nat)
    requires c in g.cpus && c in g'.cpus && HandOk(g, c) && g.cpus[c].op.NoOp? && g'.cpus[c].op.NoOp?
    requires ListAt(g', Hand(c)) == ListAt(g, Hand(c))
    ensures HandOk(g', c)
  {
  }

  lemma SwitchPlaceStep(g: System, c: nat)
    requires Inv(g) && Enabled(g, SwitchPlace(c))
    ensures Inv(Apply(g, SwitchPlace(c)))
  {
    hide Inv, Free, Exclusive, Lists, HandOk;
    InvAt(g, c);
    assert Apply(g, SwitchPlace(c)) == PlaceCur(g, c);
    var k, t := g.cpus[c], CurT(g, c);
    hide Apply, Enabled;
    if k.phase.ns.Sleep? {
      SleepStep(g, c);
    } else if k.phase.ns.Zombie? {
      PlaceCurShape(k, k.(phase := Picking), c);
      PlaceStep(g, c, t.(place := Zombies(c), tag := Zombie, boot := false), k.(phase := Picking));
    } else {
      PlaceCurShape(k, k.(phase := Picking), c);
      PlaceStep(g, c, t.(place := RunQueue(c), tag := Ready, boot := false), k.(phase := Picking));
    }
  }

  lemma SleepStep(g: System, c: nat)
    requires Inv(g) && c in g.cpus && g.cpus[c].cur in g.threads && g.cpus[c].want.None?
    requires g.cpus[c].phase.Switching? && g.cpus[c].phase.ns.Sleep?
    requires RunQueue(c) in g.lists && Zombies(c) in g.lists && Channel(g.cpus[c].phase.w) in g.lists
    ensures Inv(PlaceCur(g, c))
  {
    hide Inv, Free, Exclusive, Lists, HandOk;
    InvAt(g, c);
    var k, t := g.cpus[c], CurT(g, c);
    var p, k' := Channel(k.phase.w), ReleaseC(t, k, Lk(k.phase.l)).(phase := Tagging);
    PlaceSleepShape(k, k', c);
    PlaceStep(g, c, LowerT(t).(place := p), k');
  }

  /** The next thread becomes current; the previous one stays where thread_switch put it. */
  lemma PickNextStep(g: System, c: nat)
    requires Inv(g) && Enabled(g, PickNext(c))
    ensures Inv(Apply(g, PickNext(c)))
  {
    hide Inv, Free, Exclusive, Lists, HandOk, IsList, Shape, CurOk, ThreadOk;
    InvAt(g, c);
    HeadAt(g, RunQueue(c));
    var k, g' := g.cpus[c], Apply(g, PickNext(c));
    assert k.phase.Picking? && k.want.None? && g' == Picked(g, c);
    hide Apply, Enabled;
    PickOk(g, c);
  }

  function Picked(g: System, c: nat): System
    requires c in g.cpus && RunQueue(c) in g.lists && g.lists[RunQueue(c)] != [] && g.lists[RunQueue(c)][0] in g.threads
  {
    var q := g.lists[RunQueue(c)];
    g.(threads := g.threads[q[0] := g.threads[q[0]].(place := OnCpu(c))], lists := g.lists[RunQueue(c) := q[1..]],
       cpus := g.cpus[c := g.cpus[c].(cur := q[0], phase := Resuming)])
  }

  lemma PickOk(g: System, c: nat)
    requires Inv(g) && c in g.cpus && RunQueue(c) in g.lists && g.lists[RunQueue(c)] != []
    requires g.cpus[c].phase.Picking? && g.cpus[c].want.None?
    requires g.lists[RunQueue(c)][0] in g.threads
    ensures Inv(Picked(g, c))
  {
    hide Inv, Free, Exclusive, Lists, HandOk, IsList, Shape;
    InvAt(g, c);
    InSwitch(g.cpus[c], c);
    HeadAt(g, RunQueue(c));
    var t, x, g' := g.lists[RunQueue(c)][0], g.cpus[c].cur, Picked(g, c);
    PickShape(g.cpus[c], c, t);
    assert Changes(g, g', c, t) && CurOk(g', c) && ThreadOk(g', t);
    if x != t { Displaced(g, g', c, t); }
    forall d | d in g.cpus && d != c ensures g.cpus[d].cur != t { InvAt(g, d); }
    hide ThreadOk, CurOk, Changes;
    PickLists(g, g', c);
    HandKept(g, g', c, t);
    HandEmpty(g, g', c);
    OneStep(g, g', c, t);
  }

  lemma PickShape(k: Cpu, c: nat, t: nat)
    requires Shape(k, c) && k.phase.Picking? && k.want.None?
    ensures Shape(k.(cur := t, phase := Resuming), c)
  {
  }

  lemma Displaced(g: System, g': System, c: nat, t: nat)
    requires Changes(g, g', c, t) && CurOk(g, c) && g.cpus[c].phase.Picking? && g.cpus[c].cur != t
    requires ThreadOk(g, g.cpus[c].cur) && SameClass(g.cpus[c].op, g'.cpus[c].op)
    ensures g.cpus[c].cur in g'.threads && ThreadOk(g', g.cpus[c].cur)
  {
  }

  lemma PickLists(g: System, g': System, c: nat)
    requires Lists(g) && RunQueue(c) in g.lists && g.lists[RunQueue(c)] != []
    requires var q := g.lists[RunQueue(c)];
      && q[0] in g.threads && g.threads[q[0]].place == RunQueue(c)
      && g'.threads == g.threads[q[0] := g.threads[q[0]].(place := OnCpu(c))]
      && g'.lists == g.lists[RunQueue(c) := q[1..]] && g'.cpus.Keys == g.cpus.Keys
    ensures Lists(g')
  {
    var q := g.lists[RunQueue(c)];
    assert IsList(g.threads, q, RunQueue(c)) && OnCpu(c) !in g.lists;
    HeadLeaves(q);
    assert g'.lists.Keys == g.lists.Keys;
    hide Lists, Gains, Loses, IsList;
    MoveLists(g, g', q[0], RunQueue(c), OnCpu(c));
  }

  // ---------- new and dead threads ----------

  lemma ForkStep(g: System, c: nat, t: nat)
    requires Inv(g) && Enabled(g, Fork(c, t))
    ensures Inv(Apply(g, Fork(c, t)))
  {
    hide Inv, Free, Lists, Exclusive, HandOk, Shape, ThreadOk;
    InvAt(g, c);
    var r := Thread(Ready, CurT(g, c).cpu, Embryo, false, true, 2, None);
    assert t !in g.threads && Apply(g, Fork(c, t)) == g.(threads := g.threads[t := r]);
    hide Apply, Enabled;
    NewThread(g, t, r);
  }

  lemma NewThread(g: System, t: nat, r: Thread)
    requires Inv(g) && t !in g.threads && r.place.Embryo? && r.tag.Ready? && !r.boot && r.cpu in g.cpus
    ensures Inv(g.(threads := g.threads[t := r]))
  {
    var g' := g.(threads := g.threads[t := r]);
    hide Lists, Shape, ThreadOk, CurOk, HandOk;
    NewLists(g, t, r);
    forall u | u in g'.threads ensures ThreadOk(g', u) {
      if u != t { ThreadFrame(g, g', u); } else { NewbornOk(g', t); }
    }
    forall d | d in g'.cpus ensures CurOk(g', d) && HandOk(g', d) {
      InvAt(g, d);
      CpuFrame(g, g', d);
    }
  }

  lemma NewbornOk(g: System, t: nat)
    requires t in g.threads && g.threads[t].place.Embryo? && g.threads[t].tag.Ready? && !g.threads[t].boot && g.threads[t].cpu in g.cpus
    ensures ThreadOk(g, t)
  {
  }

  /** A thread's own record and the CPUs decide whether it is as it should be. */
  lemma ThreadFrame(g: System, g': System, u: nat)
    requires u in g.threads && u in g'.threads && g'.threads[u] == g.threads[u] && g'.cpus == g.cpus && ThreadOk(g, u)
    ensures ThreadOk(g', u)
  {
  }

  lemma CpuFrame(g: System, g': System, d: nat)
    requires d in g.cpus && g'.cpus == g.cpus && CurOk(g, d) && HandOk(g, d)
    requires g.cpus[d].cur in g'.threads && g'.threads[g.cpus[d].cur] == g.threads[g.cpus[d].cur]
    requires ListAt(g', Hand(d)) == ListAt(g, Hand(d))
    requires forall u :: u in ListAt(g, Hand(d)) && u in g.threads ==> u in g'.threads && g'.threads[u] == g.threads[u]
    ensures CurOk(g', d) && HandOk(g', d)
  {
    var l := ListAt(g, Hand(d));
    assert l != [] ==> l[0] in l;
  }

  lemma NewLists(g: System, t: nat, r: Thread)
    requires Lists(g) && t !in g.threads && r.place.Embryo?
    ensures Lists(g.(threads := g.threads[t := r]))
  {
    var g' := g.(threads := g.threads[t := r]);
    forall p | p in g'.lists ensures IsList(g'.threads, g'.lists[p], p) {
      assert IsList(g.threads, g.lists[p], p);
    }
  }

  /** The next zombie to go is one, and is no CPU's current thread. */
  ghost predicate MayDestroy(g: System, c: nat) {
    && Zombies(c) in g.lists && g.lists[Zombies(c)] != []
    && var z := g.lists[Zombies(c)][0];
    && z in g.threads && g.threads[z].tag.Zombie? && g.threads[z].place == Zombies(c)
    && forall d :: d in g.cpus ==> g.cpus[d].cur != z
  }

  /** exorcise never destroys a current thread, and only destroys zombies. */
  lemma ExorciseSafe(g: System, c: nat)
    requires Inv(g) && Enabled(g, Exorcise(c))
    ensures MayDestroy(g, c)
  {
    hide Inv, Free, Exclusive, Lists, Shape, IsList, HandOk;
    InvAt(g, c);
    assert g.cpus[c].phase.Exorcising? && g.lists[Zombies(c)] != [];
    hide Enabled;
    HeadAt(g, Zombies(c));
    forall d | d in g.cpus ensures g.cpus[d].cur != g.lists[Zombies(c)][0] {
      InvAt(g, d);
    }
  }

  lemma ExorciseStep(g: System, c: nat)
    requires Inv(g) && Enabled(g, Exorcise(c))
    ensures Inv(Apply(g, Exorcise(c)))
  {
    hide Inv, Free, Lists, Shape, ThreadOk, CurOk, HandOk, Exclusive;
    ExorciseSafe(g, c);
    InvAt(g, c);
    var z := g.lists[Zombies(c)][0];
    assert Apply(g, Exorcise(c)) == g.(threads := g.threads - {z}, lists := g.lists[Zombies(c) := g.lists[Zombies(c)][1..]]);
    hide Apply, Enabled;
    DeadLists(g, c);
    Destroyed(g, g.(threads := g.threads - {z}, lists := g.lists[Zombies(c) := g.lists[Zombies(c)][1..]]), z);
  }

  lemma DeadLists(g: System, c: nat)
    requires Lists(g) && Zombies(c) in g.lists && g.lists[Zombies(c)] != []
    ensures Lists(g.(threads := g.threads - {g.lists[Zombies(c)][0]}, lists := g.lists[Zombies(c) := g.lists[Zombies(c)][1..]]))
  {
    var l := g.lists[Zombies(c)];
    var g' := g.(threads := g.threads - {l[0]}, lists := g.lists[Zombies(c) := l[1..]]);
    assert IsList(g.threads, l, Zombies(c));
    HeadLeaves(l);
    assert l[0] in l;
    forall p | p in g'.lists ensures IsList(g'.threads, g'.lists[p], p) {
      assert IsList(g.threads, g.lists[p], p);
    }
  }

  lemma Destroyed(g: System, g': System, z: nat)
    requires Inv(g) && z in g.threads && g.threads[z].place.Zombies? && Lists(g')
    requires g'.threads == g.threads - {z} && g'.cpus == g.cpus
    requires forall d :: d in g.cpus ==> g.cpus[d].cur != z
    requires forall d: nat :: ListAt(g', Hand(d)) == ListAt(g, Hand(d))
    ensures Inv(g')
  {
    hide Shape, Lists, ThreadOk, CurOk, HandOk;
    forall u | u in g'.threads ensures ThreadOk(g', u) { ThreadFrame(g, g', u); }
    forall d | d in g'.cpus ensures CurOk(g', d) && HandOk(g', d) {
      StillThere(g, d, z);
      InvAt(g, d);
      CpuFrame(g, g', d);
    }
  }

  lemma StillThere(g: System, d: nat, z: nat)
    requires Inv(g) && d in g.cpus && z in g.threads && g.threads[z].place.Zombies?
    ensures z !in ListAt(g, Hand(d))
  {
    assert IsList(g.threads, g.lists[Hand(d)], Hand(d));
  }
}
