/**
  What each step of the thread system does to the CPU that takes it, and that it does nothing
  to the others and to what they have in their hands (kern/thread/thread.c, spinlock.c).
*/
module ThreadCpus {
  import opened Basics
  import opened ThreadSystem
  import opened ThreadQueues

  predicate OnlyCpu(g: System, g': System, c: nat) {
    c in g.cpus && c in g'.cpus && g'.cpus == g.cpus[c := g'.cpus[c]]
  }

  /** Steps by which a CPU changes where a thread is, but not its own locks, thread or phase. */
  predicate Moves(s: Step) {
    || s.Fork? || s.Launch? || s.Grab? || s.PlaceOne? || s.TakeOne? || s.GiveOne? || s.SkipOne? || s.BackOne? || s.Exorcise?
  }

  /** Steps of thread_switch. */
  predicate Switches(s: Step) {
    || s.SwitchStart? || s.SwitchNothing? || s.SwitchPlace? || s.SwitchTag? || s.PickNone? || s.Doze? || s.Rouse?
    || s.Unidle? || s.PickNext? || s.Resume? || s.ResumeEnd?
  }

  predicate SameLocks(k: Cpu, k': Cpu) {
    k'.holds == k.holds && k'.want == k.want && k'.cur == k.cur && k'.phase == k.phase
  }

  lemma MoveCpu(g: System, s: Step)
    requires Enabled(g, s) && Moves(s)
    ensures OnlyCpu(g, Apply(g, s), s.c) && SameLocks(g.cpus[s.c], Apply(g, s).cpus[s.c])
  {
    assert g.cpus == g.cpus[s.c := g.cpus[s.c]];
    hide Enabled;
  }

  lemma PlaceCpu(g: System, c: nat)
    requires Enabled(g, SwitchPlace(c))
    ensures var g' := Apply(g, SwitchPlace(c));
      && OnlyCpu(g, g', c)
      && var k, k' := g.cpus[c], g'.cpus[c];
      && k'.cur == k.cur && k'.want == k.want
      && k'.holds == (if k.phase.ns.Sleep? then k.holds - {Lk(k.phase.l)} else k.holds)
      && k'.phase == if k.phase.ns.Sleep? then Tagging else Picking
  {
    assert Apply(g, SwitchPlace(c)) == PlaceCur(g, c);
    hide Apply, Enabled;
  }

  /** The other steps of thread_switch, which give up or get no lock but the run queue's. */
  predicate LeavesOtherLocks(k: Cpu, k': Cpu, c: nat) {
    && k'.holds <= k.holds <= k'.holds + {Rq(c)}
    && (k'.want == k.want || k'.want == Some(Rq(c)))
    && !k'.phase.Switching?
  }

  lemma LeaveCpu(g: System, s: Step)
    requires Enabled(g, s) && (s.SwitchNothing? || s.SwitchTag? || s.Resume? || s.ResumeEnd?)
    ensures OnlyCpu(g, Apply(g, s), s.c) && LeavesOtherLocks(g.cpus[s.c], Apply(g, s).cpus[s.c], s.c)
  {
    assert s.c in g.cpus;
    hide Enabled;
  }

  lemma PickCpu(g: System, s: Step)
    requires Enabled(g, s) && (s.PickNone? || s.Doze? || s.Rouse? || s.Unidle? || s.PickNext?)
    ensures OnlyCpu(g, Apply(g, s), s.c) && LeavesOtherLocks(g.cpus[s.c], Apply(g, s).cpus[s.c], s.c)
  {
    assert s.c in g.cpus;
    hide Enabled;
  }

  lemma StartCpu(g: System, c: nat, ns: Tag, w: nat, l: nat)
    requires Enabled(g, SwitchStart(c, ns, w, l))
    ensures var g' := Apply(g, SwitchStart(c, ns, w, l));
      && OnlyCpu(g, g', c) && g'.lists == g.lists
      && var k, k' := g.cpus[c], g'.cpus[c];
      k'.holds == k.holds && k'.want == Some(Rq(c)) && k'.cur == k.cur && k'.phase == Switching(ns, w, l)
  {
    assert c in g.cpus;
    hide Enabled;
  }

  /** Every other step acquires or releases. */
  predicate KeepsLock(l: Lock, k: Cpu, k': Cpu) {
    && k'.cur == k.cur && k'.phase == k.phase
    && (l in k'.holds <==> l in k.holds)
    && (k'.want == Some(l) <==> k.want == Some(l))
  }

  lemma LockCpu(g: System, s: Step, l: Lock)
    requires Enabled(g, s) && !Moves(s) && !Switches(s) && l.Lk?
    requires !(s.Want? && Lk(s.l) == l) && !(s.Release? && Lk(s.l) == l) && !(s.Got? && g.cpus[s.c].want == Some(l))
    ensures OnlyCpu(g, Apply(g, s), s.c) && KeepsLock(l, g.cpus[s.c], Apply(g, s).cpus[s.c])
  {
  }

  lemma OneCpuOnly(g: System, s: Step)
    requires Enabled(g, s)
    ensures OnlyCpu(g, Apply(g, s), s.c)
  {
    hide Enabled, Apply;
    if Moves(s) {
      MoveCpu(g, s);
    } else if s.SwitchStart? {
      StartCpu(g, s.c, s.ns, s.w, s.l);
    } else if s.SwitchPlace? {
      PlaceCpu(g, s.c);
    } else if s.PickNone? || s.Doze? || s.Rouse? || s.Unidle? || s.PickNext? {
      PickCpu(g, s);
    } else if Switches(s) {
      LeaveCpu(g, s);
    } else {
      LockOnly(g, s);
    }
  }

  lemma LockOnly(g: System, s: Step)
    requires Enabled(g, s) && !Moves(s) && !Switches(s)
    ensures OnlyCpu(g, Apply(g, s), s.c)
  {
    assert s.c in g.cpus;
    hide Enabled;
  }

  /** Nobody reaches into another CPU's hands. */
  lemma HandsApart(g: System, s: Step, c: nat)
    requires Enabled(g, s) && s.c != c
    ensures ListAt(Apply(g, s), Hand(c)) == ListAt(g, Hand(c))
  {
    if s.SwitchPlace? {
      assert Apply(g, s) == PlaceCur(g, s.c);
      hide Apply, Enabled;
    } else if Moves(s) || s.PickNext? {
      MovesApart(g, s, c);
    } else {
      hide Enabled;
    }
  }

  lemma MovesApart(g: System, s: Step, c: nat)
    requires Enabled(g, s) && s.c != c && (Moves(s) || s.PickNext?)
    ensures ListAt(Apply(g, s), Hand(c)) == ListAt(g, Hand(c))
  {
  }

  /** To another CPU's run queue, threads are only added. */
  lemma QueueGrows(g: System, s: Step, c: nat)
    requires Enabled(g, s) && s.c != c && RunQueue(c) in g.lists
    ensures RunQueue(c) in Apply(g, s).lists && g.lists[RunQueue(c)] <= Apply(g, s).lists[RunQueue(c)]
  {
    var p := RunQueue(c);
    StepQueue(g, s, p);
    assert !TakesLast(s, p) && Leaving(g, s, p) == [];
    hide Apply, Enabled, Leaving, Arriving;
    assert [] + Apply(g, s).lists[p] == Apply(g, s).lists[p];
  }
}
