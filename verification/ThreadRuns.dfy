/**
  The thread system over whole runs (kern/thread/thread.c): what holds in every state that
  any interleaving of the CPUs' steps can reach from boot.
*/
module ThreadRuns {
  import opened Basics
  import opened ThreadSystem
  import opened ThreadPlaces
  import opened ThreadSteps

  /** Every step of every CPU keeps the invariant. */
  lemma StepKeeps(g: System, s: Step)
    requires Inv(g) && Enabled(g, s)
    ensures Inv(Apply(g, s))
  {
    hide Inv, Enabled, Apply;
    match s
    case SetSpl(c, high) => SplStep(g, c, high);
    case Want(c, l) => WantStep(g, c, l);
    case Got(c) => GotStep(g, c);
    case Release(c, l) => ReleaseStep(g, c, l);
    case Fork(c, t) => ForkStep(g, c, t);
    case Launch(c, t) => LaunchStep(g, c, t);
    case Grab(c, w) => GrabStep(g, c, w);
    case PlaceStart(_) => CriticalStep(g, s);
    case PlaceOne(c) => PlaceOneStep(g, c);
    case PlaceEnd(_) => CriticalEndStep(g, s);
    case MigrateStart(_) => CriticalStep(g, s);
    case TakeOne(c) => TakeOneStep(g, c);
    case TakeEnd(_) => CriticalEndStep(g, s);
    case GiveStart(_, _) => CriticalStep(g, s);
    case GiveOne(c) => GiveOneStep(g, c);
    case SkipOne(c) => SkipOneStep(g, c);
    case GiveEnd(_) => CriticalEndStep(g, s);
    case BackStart(_) => CriticalStep(g, s);
    case BackOne(c) => BackOneStep(g, c);
    case BackEnd(_) => CriticalEndStep(g, s);
    case MigrateEnd(c) => MigrateEndStep(g, c);
    case SwitchStart(c, ns, w, l) => SwitchStartStep(g, c, ns, w, l);
    case SwitchNothing(c) => SwitchNothingStep(g, c);
    case SwitchPlace(c) => SwitchPlaceStep(g, c);
    case SwitchTag(c) => SwitchTagStep(g, c);
    case PickNone(c) => PickNoneStep(g, c);
    case Doze(_) => DozeStep(g, s);
    case Rouse(_) => DozeStep(g, s);
    case Unidle(c) => UnidleStep(g, c);
    case PickNext(c) => PickNextStep(g, c);
    case Resume(c) => ResumeStep(g, c);
    case Exorcise(c) => ExorciseStep(g, c);
    case ResumeEnd(c) => ResumeEndStep(g, c);
  }

  /** cpu_create: each CPU runs its own first thread, at spl high, and every list is empty. */
  ghost predicate Boot(g: System) {
    && (forall c :: c in g.cpus ==>
          && g.cpus[c] == Cpu(g.cpus[c].cur, Running, NoOp, {}, None, 0, true)
          && g.cpus[c].cur in g.threads
          && g.threads[g.cpus[c].cur] == Thread(Ready, c, OnCpu(c), true, true, 1, None)
          && RunQueue(c) in g.lists && Zombies(c) in g.lists && Hand(c) in g.lists)
    && (forall t :: t in g.threads ==> g.threads[t].cpu in g.cpus && g.cpus[g.threads[t].cpu].cur == t)
    && (forall p :: p in g.lists ==> !p.OnCpu? && !p.Embryo? && g.lists[p] == [])
  }

  lemma BootOk(g: System)
    requires Boot(g)
    ensures Inv(g)
  {
    hide Shape, CurOk, HandOk, ThreadOk, Lists, Boot;
    forall c | c in g.cpus ensures Shape(g.cpus[c], c) && CurOk(g, c) && HandOk(g, c) { BootCpu(g, c); }
    forall t | t in g.threads ensures ThreadOk(g, t) { BootThread(g, t); }
    BootLists(g);
  }

  lemma BootCpu(g: System, c: nat)
    requires Boot(g) && c in g.cpus
    ensures Shape(g.cpus[c], c) && CurOk(g, c) && HandOk(g, c)
  {
  }

  lemma BootThread(g: System, t: nat)
    requires Boot(g) && t in g.threads
    ensures ThreadOk(g, t)
  {
  }

  lemma BootLists(g: System)
    requires Boot(g)
    ensures Lists(g) && Exclusive(g)
  {
    forall t | t in g.threads ensures g.threads[t].place.OnCpu? {
      var c := g.threads[t].cpu;
      assert c in g.cpus && g.cpus[c].cur == t;
    }
  }

  ghost predicate Follows(g: System, g': System) {
    exists s :: Enabled(g, s) && g' == Apply(g, s)
  }

  ghost predicate IsRun(gs: seq<System>) {
    gs != [] && Boot(gs[0]) && forall i :: 0 <= i < |gs| - 1 ==> Follows(gs[i], gs[i + 1])
  }

  lemma {:induction false} RunKeeps(gs: seq<System>, i: nat)
    requires IsRun(gs) && i < |gs|
    ensures Inv(gs[i])
  {
    hide Inv, Boot, Enabled, Apply;
    if i == 0 {
      BootOk(gs[0]);
    } else {
      RunKeeps(gs, i - 1);
      var k := i - 1;
      assert Follows(gs[k], gs[k + 1]);
      var s :| Enabled(gs[k], s) && gs[k + 1] == Apply(gs[k], s);
      StepKeeps(gs[k], s);
    }
  }

  // ---------- what the invariant says ----------

  /** A thread is on at most one list, once, and on none while it runs. */
  lemma OnePlace(g: System, p: Place, i: nat, q: Place, j: nat)
    requires Inv(g) && p in g.lists && q in g.lists && i < |g.lists[p]| && j < |g.lists[q]|
    requires g.lists[p][i] == g.lists[q][j]
    ensures p == q && i == j
    ensures g.lists[p][i] in g.threads && !g.threads[g.lists[p][i]].place.OnCpu?
  {
    assert IsList(g.threads, g.lists[p], p) && IsList(g.threads, g.lists[q], q);
    assert g.lists[p][i] in g.lists[p] && g.lists[q][j] in g.lists[q];
  }

  /** While its CPU's run queue lock is free, a thread's tag says where it is. */
  lemma TagsAgree(g: System, t: nat)
    requires Inv(g) && t in g.threads && Free(g, Rq(g.threads[t].cpu))
    ensures var r := g.threads[t];
      match r.place
      case OnCpu(c) => r.cpu == c && g.cpus[c].cur == t && r.tag == if r.boot then Ready else Run
      case RunQueue(c) => r.cpu == c && r.tag.Ready?
      case Channel(_) => r.tag.Sleep?
      case Zombies(c) => r.cpu == c && r.tag.Zombie?
      case Hand(_) => r.tag.Sleep? || r.tag.Ready?
      case Embryo => r.tag.Ready?
  {
    var c := g.threads[t].cpu;
    assert ThreadOk(g, t);
    InvAt(g, c);
    hide Lists, Exclusive, HandOk;
    if g.threads[t].place.OnCpu? {
      InvAt(g, g.threads[t].place.c);
    }
  }

  /** At boot every CPU runs a thread with the tag S_READY. */
  lemma BootTag(g: System, c: nat)
    requires Boot(g) && c in g.cpus
    ensures g.cpus[c].cur in g.threads
    ensures var r := g.threads[g.cpus[c].cur]; r.place == OnCpu(c) && r.boot && r.tag == Ready
  {
  }

  /** The step in which thread_switch changes the tag of the thread it leaves. */
  predicate SwitchesOut(g: System, s: Step, t: nat)
    requires Enabled(g, s)
  {
    g.cpus[s.c].cur == t && (s.SwitchTag? || (s.SwitchPlace? && !g.cpus[s.c].phase.ns.Sleep?))
  }

  /** Only its first switch ends that exception. */
  lemma BootUntilSwitched(g: System, s: Step, t: nat)
    requires Enabled(g, s) && t in g.threads && t in Apply(g, s).threads
    ensures Apply(g, s).threads[t].boot <==> g.threads[t].boot && !SwitchesOut(g, s, t)
  {
    if s.SwitchPlace? {
      assert Apply(g, s) == PlaceCur(g, s.c);
      hide Apply, Enabled;
    } else if s.Launch? || s.Grab? || s.PlaceOne? || s.TakeOne? || s.GiveOne? || s.BackOne? || s.PickNext? {
      MovesKeepBoot(g, s, t);
    } else {
      hide Enabled;
    }
  }

  lemma MovesKeepBoot(g: System, s: Step, t: nat)
    requires Enabled(g, s) && t in g.threads
    requires s.Launch? || s.Grab? || s.PlaceOne? || s.TakeOne? || s.GiveOne? || s.BackOne? || s.PickNext?
    ensures t in Apply(g, s).threads && Apply(g, s).threads[t].boot == g.threads[t].boot
  {
  }

  /** No thread is lost: it runs, is being forked, or is on the list that is its place. */
  lemma AlwaysSomewhere(g: System, t: nat)
    requires Inv(g) && t in g.threads
    ensures var p := g.threads[t].place;
      || (p.OnCpu? && p.c in g.cpus && g.cpus[p.c].cur == t)
      || p.Embryo?
      || (p in g.lists && exists i :: 0 <= i < |g.lists[p]| && g.lists[p][i] == t)
  {
    var p := g.threads[t].place;
    assert ThreadOk(g, t);
    if !p.OnCpu? && !p.Embryo? {
      assert IsList(g.threads, g.lists[p], p);
      assert t in g.lists[p];
    }
  }

  /** The thread whose tag a step may change. */
  function Retagged(g: System, s: Step): Option<nat>
    requires Enabled(g, s)
  {
    match s
    case PlaceOne(c) => Some(g.lists[Hand(c)][0])
    case SwitchPlace(c) => Some(g.cpus[c].cur)
    case SwitchTag(c) => Some(g.cpus[c].cur)
    case Resume(c) => Some(g.cpus[c].cur)
    case _ => None
  }

  lemma TagsKept(g: System, s: Step, t: nat)
    requires Enabled(g, s) && t in g.threads && Retagged(g, s) != Some(t)
    ensures t in Apply(g, s).threads ==> Apply(g, s).threads[t].tag == g.threads[t].tag
  {
    if s.SwitchPlace? {
      assert Apply(g, s) == PlaceCur(g, s.c);
      hide Apply, Enabled;
    } else if s.Launch? || s.Grab? || s.PlaceOne? || s.TakeOne? || s.GiveOne? || s.SkipOne? || s.BackOne? || s.PickNext? {
      MovesKeepTags(g, s, t);
    } else {
      hide Enabled;
    }
  }

  lemma MovesKeepTags(g: System, s: Step, t: nat)
    requires Enabled(g, s) && t in g.threads && Retagged(g, s) != Some(t)
    requires s.Launch? || s.Grab? || s.PlaceOne? || s.TakeOne? || s.GiveOne? || s.SkipOne? || s.BackOne? || s.PickNext?
    ensures t in Apply(g, s).threads ==> Apply(g, s).threads[t].tag == g.threads[t].tag
  {
  }

  /** A zombie stays one until it is destroyed. */
  lemma ZombieStays(g: System, s: Step, t: nat)
    requires Inv(g) && Enabled(g, s) && t in g.threads && g.threads[t].tag.Zombie?
    ensures t in Apply(g, s).threads ==> Apply(g, s).threads[t].tag.Zombie? && Apply(g, s).threads[t].place.Zombies?
  {
    hide Inv, Apply;
    NotRetagged(g, s, t);
    TagsKept(g, s, t);
    StepKeeps(g, s);
    hide Enabled;
    if t in Apply(g, s).threads { ZombiePlace(Apply(g, s), t); }
  }

  lemma NotRetagged(g: System, s: Step, t: nat)
    requires Inv(g) && Enabled(g, s) && t in g.threads && g.threads[t].tag.Zombie?
    ensures Retagged(g, s) != Some(t)
  {
    hide Inv, Lists, Shape, Exclusive, IsList;
    InvAt(g, s.c);
    if s.PlaceOne? { HeadAt(g, Hand(s.c)); }
  }

  lemma ZombiePlace(g: System, t: nat)
    requires Inv(g) && t in g.threads && g.threads[t].tag.Zombie?
    ensures g.threads[t].place.Zombies?
  {
    hide Inv, Lists, Shape, Exclusive, HandOk;
    ThreadAt(g, t);
    var p := g.threads[t].place;
    if p.OnCpu? { InvAt(g, p.c); }
  }
}
