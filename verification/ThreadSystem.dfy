/**
  The thread system as a step machine (kern/thread/thread.c, spl.c, spinlock.c): any number
  of CPUs, threads and wait channels. A step is what one CPU does between two points where
  another can interfere: starting to wait for a spinlock, getting it, or a stretch of code
  up to and including the release of one. A list of threads is kept under the place it
  stands for, so a private list on a CPU's stack is a place too.
*/
module ThreadSystem {
  import opened Basics

  /** t_state. */
  datatype Tag = Run | Ready | Sleep | Zombie

  datatype Place =
    | OnCpu(c: nat)
    | RunQueue(c: nat)
    | Channel(w: nat)
    | Zombies(c: nat)
    | Hand(c: nat)      // a waker's or migrator's local variable or private list
    | Embryo            // created by thread_fork, not yet made runnable

  /** `saved` is the spl kept on the stack by thread_switch; a new thread has none. */
  datatype Thread = Thread(
    tag: Tag, cpu: nat, place: Place, boot: bool,
    curspl: bool, ipl: int, saved: Option<bool>)

  datatype Lock = Rq(c: nat) | Lk(n: nat)

  /** How far the CPU is in thread_switch; `Running` is any other code. */
  datatype Phase =
    | Running
    | Switching(ns: Tag, w: nat, l: nat)  // getting the run queue lock
    | Tagging                             // on the channel, its lock released, tag not yet set
    | Picking                             // looking for the next thread
    | Idle                                // cpu_idle and its interrupt handlers, interrupts off
    | Dozing                              // cpu_idle with interrupts on
    | Resuming                            // in the new thread, run queue lock still held
    | Exorcising

  /** thread_make_runnable and thread_consider_migration, run by any code or interrupt handler. */
  datatype Op = NoOp | Waking | Placing(d: nat) | Placed(d: nat) | Taking | Dealing | Giving(d: nat) | PuttingBack

  datatype Cpu = Cpu(
    cur: nat, phase: Phase, op: Op,
    holds: set<Lock>, want: Option<Lock>, spinlocks: int, irqOff: bool)

  datatype System = System(threads: map<nat, Thread>, cpus: map<nat, Cpu>, lists: map<Place, seq<nat>>)

  // ---------- interrupt levels ----------

  function RaiseT(t: Thread): Thread { t.(ipl := t.ipl + 1) }

  function RaiseC(t: Thread, k: Cpu): Cpu { k.(irqOff := k.irqOff || t.ipl == 0) }

  function LowerT(t: Thread): Thread { t.(ipl := t.ipl - 1) }

  function LowerC(t: Thread, k: Cpu): Cpu { k.(irqOff := k.irqOff && t.ipl != 1) }

  /** splx: raising and lowering only when the level really changes. */
  function SplT(t: Thread, high: bool): Thread {
    (if !t.curspl && high then RaiseT(t) else if t.curspl && !high then LowerT(t) else t).(curspl := high)
  }

  function SplC(t: Thread, k: Cpu, high: bool): Cpu {
    if !t.curspl && high then RaiseC(t, k) else if t.curspl && !high then LowerC(t, k) else k
  }

  /** The start of spinlock_acquire, up to the spinning. */
  function WantC(t: Thread, k: Cpu, l: Lock): Cpu {
    RaiseC(t, k).(spinlocks := k.spinlocks + 1, want := Some(l))
  }

  function ReleaseC(t: Thread, k: Cpu, l: Lock): Cpu {
    LowerC(t, k).(spinlocks := k.spinlocks - 1, holds := k.holds - {l})
  }

  // ---------- the steps ----------

  datatype Step =
    | SetSpl(c: nat, high: bool)
    | Want(c: nat, l: nat)
    | Got(c: nat)
    | Release(c: nat, l: nat)
    | Fork(c: nat, t: nat)
    | Launch(c: nat, t: nat)
    | Grab(c: nat, w: nat)
    | PlaceStart(c: nat)
    | PlaceOne(c: nat)
    | PlaceEnd(c: nat)
    | MigrateStart(c: nat)
    | TakeOne(c: nat)
    | TakeEnd(c: nat)
    | GiveStart(c: nat, d: nat)
    | GiveOne(c: nat)
    | SkipOne(c: nat)
    | GiveEnd(c: nat)
    | BackStart(c: nat)
    | BackOne(c: nat)
    | BackEnd(c: nat)
    | MigrateEnd(c: nat)
    | SwitchStart(c: nat, ns: Tag, w: nat, l: nat)
    | SwitchNothing(c: nat)
    | SwitchPlace(c: nat)
    | SwitchTag(c: nat)
    | PickNone(c: nat)
    | Doze(c: nat)
    | Rouse(c: nat)
    | Unidle(c: nat)
    | PickNext(c: nat)
    | Resume(c: nat)
    | Exorcise(c: nat)
    | ResumeEnd(c: nat)

  function CurT(g: System, c: nat): Thread
    requires c in g.cpus && g.cpus[c].cur in g.threads
  {
    g.threads[g.cpus[c].cur]
  }

  function ListAt(g: System, p: Place): seq<nat> {
    if p in g.lists then g.lists[p] else []
  }

  predicate Free(g: System, l: Lock) {
    forall d :: d in g.cpus ==> l !in g.cpus[d].holds
  }

  /** Code that is not in the middle of thread_switch or of a wakeup or migration. */
  predicate Plain(k: Cpu) {
    (k.phase.Running? || k.phase.Idle? || k.phase.Exorcising?) && k.op.NoOp? && k.want.None?
  }

  /** Code, or an interrupt handler on an idle CPU, that may wake or migrate threads. */
  predicate Handler(k: Cpu) {
    (k.phase.Running? || k.phase.Idle?) && k.want.None?
  }

  predicate HoldsSome(k: Cpu) {
    exists l :: l in k.holds && l.Lk?
  }

  predicate Enabled(g: System, s: Step) {
    && s.c in g.cpus && g.cpus[s.c].cur in g.threads
    && var k := g.cpus[s.c];
    match s
    case SetSpl(_, _) => Plain(k) && k.phase.Running?
    case Want(_, l) => Plain(k) && Lk(l) !in k.holds
    case Got(_) => k.want.Some? && Free(g, k.want.value)
    case Release(_, l) => Plain(k) && Lk(l) in k.holds
    case Fork(_, t) => Plain(k) && k.phase.Running? && t !in g.threads
    case Launch(_, t) => Plain(k) && k.phase.Running? && t in g.threads && g.threads[t].place.Embryo?
    case Grab(c, w) =>
      && Handler(k) && (k.op.NoOp? || k.op.Waking?) && HoldsSome(k)
      && ListAt(g, Channel(w)) != [] && ListAt(g, Channel(w))[0] in g.threads && Hand(c) in g.lists
    case PlaceStart(c) =>
      && k.op.Waking? && k.want.None? && ListAt(g, Hand(c)) != [] && ListAt(g, Hand(c))[0] in g.threads
    case PlaceOne(c) =>
      && k.op.Placing? && k.want.None? && RunQueue(k.op.d) in g.lists
      && ListAt(g, Hand(c)) != [] && ListAt(g, Hand(c))[0] in g.threads
    case PlaceEnd(_) => k.op.Placed?
    case MigrateStart(_) => Handler(k) && k.op.NoOp?
    case TakeOne(c) =>
      && k.op.Taking? && k.want.None? && Hand(c) in g.lists && ListAt(g, RunQueue(c)) != []
      && ListAt(g, RunQueue(c))[|ListAt(g, RunQueue(c))| - 1] in g.threads
    case TakeEnd(_) => k.op.Taking? && k.want.None?
    case GiveStart(c, d) => k.op.Dealing? && k.want.None? && d != c && d in g.cpus
    case GiveOne(c) =>
      && k.op.Giving? && k.want.None? && RunQueue(k.op.d) in g.lists
      && ListAt(g, Hand(c)) != [] && ListAt(g, Hand(c))[0] in g.threads && ListAt(g, Hand(c))[0] != k.cur
    case SkipOne(c) => k.op.Giving? && k.want.None? && ListAt(g, Hand(c)) != [] && ListAt(g, Hand(c))[0] == k.cur
    case GiveEnd(_) => k.op.Giving? && k.want.None?
    case BackStart(c) => k.op.Dealing? && k.want.None? && ListAt(g, Hand(c)) != []
    case BackOne(c) =>
      && k.op.PuttingBack? && k.want.None? && RunQueue(c) in g.lists
      && ListAt(g, Hand(c)) != [] && ListAt(g, Hand(c))[0] in g.threads
    case BackEnd(c) => k.op.PuttingBack? && k.want.None? && ListAt(g, Hand(c)) == []
    case MigrateEnd(c) => k.op.Dealing? && k.want.None? && ListAt(g, Hand(c)) == []
    case SwitchStart(_, ns, w, l) =>
      && Plain(k) && k.phase.Running? && !ns.Run?
      && (if ns.Sleep? then k.holds == {Lk(l)} && Channel(w) in g.lists else k.holds == {})
    case SwitchNothing(c) => k.phase.Switching? && k.want.None? && k.phase.ns.Ready? && ListAt(g, RunQueue(c)) == []
    case SwitchPlace(c) =>
      && k.phase.Switching? && k.want.None? && !(k.phase.ns.Ready? && ListAt(g, RunQueue(c)) == [])
      && RunQueue(c) in g.lists && Zombies(c) in g.lists && (k.phase.ns.Sleep? ==> Channel(k.phase.w) in g.lists)
    case SwitchTag(_) => k.phase.Tagging?
    case PickNone(c) => k.phase.Picking? && k.want.None? && ListAt(g, RunQueue(c)) == []
    case Doze(_) => k.phase.Idle? && k.op.NoOp? && k.want.None? && k.holds == {}
    case Rouse(_) => k.phase.Dozing?
    case Unidle(_) => k.phase.Idle? && k.op.NoOp? && k.want.None? && k.holds == {}
    case PickNext(c) =>
      k.phase.Picking? && k.want.None? && ListAt(g, RunQueue(c)) != [] && ListAt(g, RunQueue(c))[0] in g.threads
    case Resume(_) => k.phase.Resuming?
    case Exorcise(c) => k.phase.Exorcising? && k.op.NoOp? && k.want.None? && ListAt(g, Zombies(c)) != []
    case ResumeEnd(c) => k.phase.Exorcising? && k.op.NoOp? && k.want.None? && k.holds == {} && ListAt(g, Zombies(c)) == []
  }

  /** CPU `c` and its current thread take new values. */
  function Local(g: System, c: nat, t: Thread, k: Cpu): System
    requires c in g.cpus
  {
    g.(threads := g.threads[g.cpus[c].cur := t], cpus := g.cpus[c := k])
  }

  function StartAcquire(g: System, c: nat, l: Lock, op: Op): System
    requires c in g.cpus && g.cpus[c].cur in g.threads
  {
    var t := CurT(g, c);
    Local(g, c, RaiseT(t), WantC(t, g.cpus[c], l).(op := op))
  }

  function EndCritical(g: System, c: nat, l: Lock, op: Op): System
    requires c in g.cpus && g.cpus[c].cur in g.threads
  {
    var t := CurT(g, c);
    Local(g, c, LowerT(t), ReleaseC(t, g.cpus[c], l).(op := op))
  }

  /** Thread `t` takes the value `r`, leaving the list `p`, now `l`, for the list `q`, now `m`. */
  function Move(g: System, t: nat, r: Thread, p: Place, l: seq<nat>, q: Place, m: seq<nat>): System {
    g.(threads := g.threads[t := r], lists := g.lists[p := l][q := m])
  }

  /** The head of the list at `p` becomes `r` and goes to the end of the list at `r.place`. */
  function MoveHead(g: System, p: Place, r: Thread): System
    requires p in g.lists && g.lists[p] != [] && r.place in g.lists
  {
    Move(g, g.lists[p][0], r, p, g.lists[p][1..], r.place, g.lists[r.place] + [g.lists[p][0]])
  }

  function OpAfter(g: System, c: nat): Op {
    if ListAt(g, Hand(c)) == [] then NoOp else Waking
  }

  function Apply(g: System, s: Step): System
    requires Enabled(g, s)
  {
    var c := s.c;
    var k := g.cpus[c];
    var t := CurT(g, c);
    match s
    case SetSpl(_, high) => Local(g, c, SplT(t, high), SplC(t, k, high))
    case Want(_, l) => StartAcquire(g, c, Lk(l), NoOp)
    case Got(_) => g.(cpus := g.cpus[c := k.(holds := k.holds + {k.want.value}, want := None)])
    case Release(_, l) => EndCritical(g, c, Lk(l), NoOp)
    case Fork(_, n) => g.(threads := g.threads[n := Thread(Ready, t.cpu, Embryo, false, true, 2, None)])
    case Launch(_, n) =>
      g.(threads := g.threads[n := g.threads[n].(place := Hand(c))], lists := g.lists[Hand(c) := [n]],
         cpus := g.cpus[c := k.(op := Waking)])
    case Grab(_, w) =>
      MoveHead(g, Channel(w), g.threads[g.lists[Channel(w)][0]].(place := Hand(c))).(cpus := g.cpus[c := k.(op := Waking)])
    case PlaceStart(_) =>
      var d := g.threads[g.lists[Hand(c)][0]].cpu;
      StartAcquire(g, c, Rq(d), Placing(d))
    case PlaceOne(_) =>
      MoveHead(g, Hand(c), g.threads[g.lists[Hand(c)][0]].(tag := Ready, place := RunQueue(k.op.d))).(
        cpus := g.cpus[c := k.(op := Placed(k.op.d))])
    case PlaceEnd(_) => EndCritical(g, c, Rq(k.op.d), OpAfter(g, c))
    case MigrateStart(_) => StartAcquire(g, c, Rq(c), Taking)
    case TakeOne(_) =>
      var q := g.lists[RunQueue(c)];
      var n := q[|q| - 1];
      Move(g, n, g.threads[n].(place := Hand(c)), RunQueue(c), q[..|q| - 1], Hand(c), [n] + g.lists[Hand(c)])
    case TakeEnd(_) => EndCritical(g, c, Rq(c), Dealing)
    case GiveStart(_, d) => StartAcquire(g, c, Rq(d), Giving(d))
    case GiveOne(_) =>
      MoveHead(g, Hand(c), g.threads[g.lists[Hand(c)][0]].(cpu := k.op.d, place := RunQueue(k.op.d)))
    case SkipOne(_) => g.(lists := g.lists[Hand(c) := g.lists[Hand(c)][1..] + [g.lists[Hand(c)][0]]])
    case GiveEnd(_) => EndCritical(g, c, Rq(k.op.d), Dealing)
    case BackStart(_) => StartAcquire(g, c, Rq(c), PuttingBack)
    case BackOne(_) => MoveHead(g, Hand(c), g.threads[g.lists[Hand(c)][0]].(place := RunQueue(c)))
    case BackEnd(_) => EndCritical(g, c, Rq(c), NoOp)
    case MigrateEnd(_) => Local(g, c, t, k.(op := NoOp))
    case SwitchStart(_, ns, w, l) =>
      var t1, k1 := SplT(t, true).(saved := Some(t.curspl)), SplC(t, k, true);
      Local(g, c, RaiseT(t1), WantC(t1, k1, Rq(c)).(phase := Switching(ns, w, l)))
    case SwitchNothing(_) =>
      var t1, k1 := LowerT(t), ReleaseC(t, k, Rq(c));
      Local(g, c, SplT(t1, t.saved == Some(true)), SplC(t1, k1, t.saved == Some(true)).(phase := Running))
    case SwitchPlace(_) => PlaceCur(g, c)
    case SwitchTag(_) => Local(g, c, t.(tag := Sleep, boot := false), k.(phase := Picking))
    case PickNone(_) => Local(g, c, LowerT(t), ReleaseC(t, k, Rq(c)).(phase := Idle))
    case Doze(_) => Local(g, c, t, k.(phase := Dozing, irqOff := false))
    case Rouse(_) => Local(g, c, t, k.(phase := Idle, irqOff := true))
    case Unidle(_) => Local(g, c, RaiseT(t), WantC(t, k, Rq(c)).(phase := Picking))
    case PickNext(_) =>
      var q := g.lists[RunQueue(c)];
      g.(threads := g.threads[q[0] := g.threads[q[0]].(place := OnCpu(c))], lists := g.lists[RunQueue(c) := q[1..]],
         cpus := g.cpus[c := k.(cur := q[0], phase := Resuming)])
    case Resume(_) => Local(g, c, LowerT(t).(tag := Run), ReleaseC(t, k, Rq(c)).(phase := Exorcising))
    case Exorcise(_) =>
      g.(threads := g.threads - {g.lists[Zombies(c)][0]}, lists := g.lists[Zombies(c) := g.lists[Zombies(c)][1..]])
    case ResumeEnd(_) =>
      Local(g, c, SplT(t, t.saved == Some(true)), SplC(t, k, t.saved == Some(true)).(phase := Running))
  }

  /** thread_switch puts the current thread where it is to wait. */
  function PlaceCur(g: System, c: nat): System
    requires c in g.cpus && g.cpus[c].cur in g.threads && g.cpus[c].phase.Switching?
    requires RunQueue(c) in g.lists && Zombies(c) in g.lists
    requires g.cpus[c].phase.ns.Sleep? ==> Channel(g.cpus[c].phase.w) in g.lists
  {
    var k, t := g.cpus[c], CurT(g, c);
    match k.phase.ns
    case Sleep =>
      var p := Channel(k.phase.w);
      Local(g, c, LowerT(t).(place := p), ReleaseC(t, k, Lk(k.phase.l)).(phase := Tagging)).(
        lists := g.lists[p := g.lists[p] + [k.cur]])
    case Zombie =>
      Local(g, c, t.(place := Zombies(c), tag := Zombie, boot := false), k.(phase := Picking)).(
        lists := g.lists[Zombies(c) := g.lists[Zombies(c)] + [k.cur]])
    case _ =>
      Local(g, c, t.(place := RunQueue(c), tag := Ready, boot := false), k.(phase := Picking)).(
        lists := g.lists[RunQueue(c) := g.lists[RunQueue(c)] + [k.cur]])
  }
}
