/**
  What thread_switch does with the state it was called with (kern/thread/thread.c:577-660,
  792-837): the caller goes where that state says, however long the CPU waited for the run
  queue lock, and a caller that asked to be a zombie never runs again.
*/
module ThreadSwitch {
  import opened ThreadSystem
  import opened ThreadPlaces
  import opened ThreadSteps
  import opened ThreadRuns
  import opened ThreadQueues
  import opened ThreadCpus
  import opened ThreadLevels

  lemma {:induction false} TraceKeeps(gs: seq<System>, ss: seq<Step>, i: nat, j: nat)
    requires IsTrace(gs, ss) && i <= j < |gs| && Inv(gs[i])
    ensures Inv(gs[j])
    decreases j - i
  {
    hide Inv, Enabled, Apply;
    if i < j {
      var k := j - 1;
      TraceKeeps(gs, ss, i, k);
      assert Enabled(gs[k], ss[k]) && gs[k + 1] == Apply(gs[k], ss[k]);
      StepKeeps(gs[k], ss[k]);
    }
  }

  // ---------- the caller's place ----------

  /** CPU `c` is in thread_switch for thread `t`, which asked for `ns`. */
  predicate SwitchingFor(g: System, c: nat, t: nat, ns: Tag, w: nat, l: nat) {
    c in g.cpus && g.cpus[c].cur == t && g.cpus[c].phase == Switching(ns, w, l)
  }

  lemma StartsSwitching(g: System, c: nat, ns: Tag, w: nat, l: nat)
    requires Enabled(g, SwitchStart(c, ns, w, l))
    ensures c in g.cpus && SwitchingFor(Apply(g, SwitchStart(c, ns, w, l)), c, g.cpus[c].cur, ns, w, l)
  {
  }

  /** Only getting the lock, going on without switching, and leaving are possible there. */
  lemma SwitchingSteps(g: System, s: Step)
    requires Inv(g) && Enabled(g, s) && g.cpus[s.c].phase.Switching?
    ensures s.Got? || s.SwitchNothing? || s.SwitchPlace?
  {
    hide Inv, Lists, Exclusive, HandOk, CurOk, ThreadOk;
    InvAt(g, s.c);
    assert g.cpus[s.c].op.NoOp?;
    hide Shape;
  }

  lemma GotKeeps(g: System, c: nat)
    requires Enabled(g, Got(c))
    ensures c in g.cpus && Apply(g, Got(c)).threads == g.threads && Apply(g, Got(c)).lists == g.lists
    ensures Apply(g, Got(c)).cpus[c].cur == g.cpus[c].cur && Apply(g, Got(c)).cpus[c].phase == g.cpus[c].phase
  {
  }

  lemma StillSwitching(g: System, s: Step, c: nat, t: nat, ns: Tag, w: nat, l: nat)
    requires Inv(g) && Enabled(g, s) && SwitchingFor(g, c, t, ns, w, l) && (s.c == c ==> s.Got?)
    ensures SwitchingFor(Apply(g, s), c, t, ns, w, l)
  {
    hide Inv, Enabled, Apply;
    OneCpuOnly(g, s);
    if s.c == c { GotKeeps(g, c); }
  }

  /** Until the CPU has done more than get the lock, it is switching for the caller. */
  lemma {:induction false} SwitchingUntil(gs: seq<System>, ss: seq<Step>, i: nat, j: nat, c: nat, t: nat, ns: Tag, w: nat, l: nat)
    requires IsTrace(gs, ss) && i <= j < |gs| && Inv(gs[i]) && SwitchingFor(gs[i], c, t, ns, w, l)
    requires forall k :: i <= k < j && ss[k].c == c ==> ss[k].Got?
    ensures SwitchingFor(gs[j], c, t, ns, w, l)
    decreases j - i
  {
    hide Inv, Enabled, Apply, SwitchingFor;
    if i < j {
      var k := j - 1;
      SwitchingUntil(gs, ss, i, k, c, t, ns, w, l);
      TraceKeeps(gs, ss, i, k);
      assert Enabled(gs[k], ss[k]) && gs[k + 1] == Apply(gs[k], ss[k]);
      StillSwitching(gs[k], ss[k], c, t, ns, w, l);
    }
  }

  /** The thread has gone to the end of the list at `p`, and no other list or thread has changed. */
  ghost predicate PutAway(g: System, g': System, t: nat, p: Place) {
    && t in g'.threads && g'.threads[t].place == p
    && ListAt(g', p) == ListAt(g, p) + [t]
    && (forall q :: q != p ==> ListAt(g', q) == ListAt(g, q))
    && (forall x :: x in g.threads && x != t ==> x in g'.threads && g'.threads[x] == g.threads[x])
  }

  lemma PlacesCur(g: System, c: nat)
    requires Enabled(g, SwitchPlace(c)) && !g.cpus[c].phase.ns.Run?
    ensures var k, g' := g.cpus[c], Apply(g, SwitchPlace(c));
      && (k.phase.ns == Ready ==> PutAway(g, g', k.cur, RunQueue(c)))
      && (k.phase.ns == Sleep ==> PutAway(g, g', k.cur, Channel(k.phase.w)))
      && (k.phase.ns == Zombie ==> PutAway(g, g', k.cur, Zombies(c)) && g'.threads[k.cur].tag == Zombie)
      && !(k.phase.ns == Ready && ListAt(g, RunQueue(c)) == [])
  {
    assert Apply(g, SwitchPlace(c)) == PlaceCur(g, c);
    hide Enabled, Apply;
  }

  /** The thread goes on as it was. */
  predicate GoesOn(g: System, g': System, c: nat, t: nat) {
    && g'.lists == g.lists && t in g.threads && t in g'.threads && g'.threads[t].place == g.threads[t].place
    && c in g'.cpus && g'.cpus[c].cur == t && g'.cpus[c].phase == Running
  }

  lemma NothingMoves(g: System, c: nat)
    requires Enabled(g, SwitchNothing(c))
    ensures c in g.cpus && g.cpus[c].phase.ns == Ready && ListAt(g, RunQueue(c)) == []
    ensures GoesOn(g, Apply(g, SwitchNothing(c)), c, g.cpus[c].cur)
  {
  }

  /**
    The caller of thread_switch goes on only if it asked to stay ready and nobody else is;
    otherwise it goes behind the ready threads of its CPU, behind the sleepers of the channel it
    named, or to the zombies of its CPU, as it asked.
  */
  lemma DoesAsAsked(gs: seq<System>, ss: seq<Step>, i: nat, j: nat, c: nat, ns: Tag, w: nat, l: nat)
    requires IsTrace(gs, ss) && i < j < |ss| && Inv(gs[i])
    requires ss[i] == SwitchStart(c, ns, w, l) && ss[j].c == c && !ss[j].Got?
    requires forall k :: i < k < j && ss[k].c == c ==> ss[k].Got?
    ensures c in gs[i].cpus
    ensures var t := gs[i].cpus[c].cur;
      if ns == Ready && ListAt(gs[j], RunQueue(c)) == [] then GoesOn(gs[j], gs[j + 1], c, t)
      else if ns == Ready then PutAway(gs[j], gs[j + 1], t, RunQueue(c))
      else if ns == Sleep then PutAway(gs[j], gs[j + 1], t, Channel(w))
      else ns == Zombie && PutAway(gs[j], gs[j + 1], t, Zombies(c))
  {
    hide Inv, Enabled, Apply, PutAway, GoesOn;
    assert Enabled(gs[i], ss[i]) && gs[i + 1] == Apply(gs[i], ss[i]);
    StartsSwitching(gs[i], c, ns, w, l);
    TraceKeeps(gs, ss, i, i + 1);
    SwitchingUntil(gs, ss, i + 1, j, c, gs[i].cpus[c].cur, ns, w, l);
    TraceKeeps(gs, ss, i, j);
    assert Enabled(gs[j], ss[j]) && gs[j + 1] == Apply(gs[j], ss[j]);
    EndsAsAsked(gs[j], ss[j]);
  }

  lemma EndsAsAsked(g: System, s: Step)
    requires Inv(g) && Enabled(g, s) && g.cpus[s.c].phase.Switching? && !s.Got?
    ensures var k, g' := g.cpus[s.c], Apply(g, s);
      if k.phase.ns == Ready && ListAt(g, RunQueue(s.c)) == [] then GoesOn(g, g', s.c, k.cur)
      else if k.phase.ns == Ready then PutAway(g, g', k.cur, RunQueue(s.c))
      else if k.phase.ns == Sleep then PutAway(g, g', k.cur, Channel(k.phase.w))
      else k.phase.ns == Zombie && PutAway(g, g', k.cur, Zombies(s.c)) && g'.threads[k.cur].tag == Zombie
  {
    SwitchingSteps(g, s);
    SwitchingTag(g, s.c);
    hide Inv, Enabled, Apply, PutAway, GoesOn;
    if s.SwitchPlace? { PlacesCur(g, s.c); } else { NothingMoves(g, s.c); }
  }

  lemma SwitchingTag(g: System, c: nat)
    requires Inv(g) && c in g.cpus && g.cpus[c].phase.Switching?
    ensures !g.cpus[c].phase.ns.Run?
  {
    hide Inv, Lists, Exclusive, HandOk, CurOk, ThreadOk;
    InvAt(g, c);
  }

  /** With the lock, the CPU takes the first ready thread, and idles only if there is none. */
  lemma PicksFirst(g: System, s: Step)
    requires Inv(g) && Enabled(g, s) && g.cpus[s.c].phase == Picking && g.cpus[s.c].want.None?
    ensures var k, g', q := g.cpus[s.c], Apply(g, s), ListAt(g, RunQueue(s.c));
      && s.c in g'.cpus
      && if q == [] then g'.cpus[s.c].cur == k.cur && g'.cpus[s.c].phase == Idle && g'.lists == g.lists
         else g'.cpus[s.c].cur == q[0] && g'.cpus[s.c].phase == Resuming && ListAt(g', RunQueue(s.c)) == q[1..]
  {
    hide Inv, Lists, Exclusive, HandOk, CurOk, ThreadOk;
    InvAt(g, s.c);
    assert g.cpus[s.c].op.NoOp?;
    hide Shape;
    assert s.PickNone? || s.PickNext?;
  }

  /** When thread_switch returns in another thread, no zombie of its CPU is left. */
  lemma NoZombiesLeft(g: System, c: nat, t: nat)
    requires Inv(g) && Enabled(g, ResumeEnd(c)) && t in Apply(g, ResumeEnd(c)).threads
    ensures var r := Apply(g, ResumeEnd(c)).threads[t]; !(r.tag == Zombie && r.cpu == c)
  {
    hide Inv, IsList, Shape, HandOk, CurOk, Exclusive;
    var g' := Apply(g, ResumeEnd(c));
    assert ListAt(g', Zombies(c)) == [];
    StepKeeps(g, ResumeEnd(c));
    hide Enabled, Apply, Lists, ThreadOk;
    if g'.threads[t].tag == Zombie {
      ZombiePlace(g', t);
      ZombieListed(g', t);
    }
  }

  lemma ZombieListed(g: System, t: nat)
    requires Inv(g) && t in g.threads && g.threads[t].place.Zombies?
    ensures g.threads[t].place == Zombies(g.threads[t].cpu) && t in ListAt(g, Zombies(g.threads[t].cpu))
  {
    hide Shape, HandOk, CurOk, Exclusive;
    assert ThreadOk(g, t);
    assert g.threads[t].place in g.lists && IsList(g.threads, g.lists[g.threads[t].place], g.threads[t].place);
  }

  // ---------- exiting ----------

  /** The thread has called thread_exit, and is on its way to the zombies or among them. */
  ghost predicate Exiting(g: System, t: nat) {
    t in g.threads && (g.threads[t].tag == Zombie || exists c, w, l :: SwitchingFor(g, c, t, Zombie, w, l))
  }

  lemma ExitStep(g: System, s: Step, t: nat)
    requires Inv(g) && Enabled(g, s) && Exiting(g, t) && t in Apply(g, s).threads
    ensures Exiting(Apply(g, s), t)
  {
    hide Inv, Enabled, Apply;
    if g.threads[t].tag == Zombie {
      ZombieStays(g, s, t);
    } else {
      var c, w, l :| SwitchingFor(g, c, t, Zombie, w, l);
      if s.c == c && !s.Got? {
        InvAt(g, c);
        EndsAsAsked(g, s);
      } else {
        StillSwitching(g, s, c, t, Zombie, w, l);
      }
    }
  }

  lemma ExitingIsNotRunning(g: System, t: nat)
    requires Inv(g) && Exiting(g, t)
    ensures !Runs(g, t)
  {
    hide Inv, Lists, Exclusive, Shape, HandOk, ThreadOk;
    forall c | c in g.cpus && g.cpus[c].cur == t && g.cpus[c].phase.Running? ensures false {
      InvAt(g, c);
      var d, w, l :| SwitchingFor(g, d, t, Zombie, w, l);
      CurOnce(g, c, d);
    }
  }

  lemma {:induction false} StaysExiting(gs: seq<System>, ss: seq<Step>, t: nat, i: nat, j: nat)
    requires IsTrace(gs, ss) && i <= j < |gs| && Inv(gs[i]) && Exiting(gs[i], t)
    requires forall k :: i <= k <= j ==> t in gs[k].threads
    ensures Exiting(gs[j], t)
    decreases j - i
  {
    hide Inv, Enabled, Apply, Exiting;
    if i < j {
      var k := j - 1;
      StaysExiting(gs, ss, t, i, k);
      TraceKeeps(gs, ss, i, k);
      assert Enabled(gs[k], ss[k]) && gs[k + 1] == Apply(gs[k], ss[k]);
      ExitStep(gs[k], ss[k], t);
    }
  }

  /** thread_exit does not return: the thread never runs again. */
  lemma ExitIsFinal(gs: seq<System>, ss: seq<Step>, i: nat, j: nat, c: nat, w: nat, l: nat)
    requires IsTrace(gs, ss) && i < j < |gs| && Inv(gs[i]) && ss[i] == SwitchStart(c, Zombie, w, l) && c in gs[i].cpus
    requires forall k :: i < k <= j ==> gs[i].cpus[c].cur in gs[k].threads
    ensures !Runs(gs[j], gs[i].cpus[c].cur)
  {
    hide Inv, Enabled, Apply, Runs;
    var t := gs[i].cpus[c].cur;
    assert Enabled(gs[i], ss[i]) && gs[i + 1] == Apply(gs[i], ss[i]);
    StartsSwitching(gs[i], c, Zombie, w, l);
    TraceKeeps(gs, ss, i, i + 1);
    StaysExiting(gs, ss, t, i + 1, j);
    TraceKeeps(gs, ss, i, j);
    ExitingIsNotRunning(gs[j], t);
  }

  /** A thread starts life on the CPU of its parent, and waits for thread_fork to make it runnable. */
  lemma ForkedBeside(g: System, c: nat, t: nat)
    requires Inv(g) && Enabled(g, Fork(c, t))
    ensures var g' := Apply(g, Fork(c, t));
      && t !in g.threads && t in g'.threads && g'.threads[t].cpu == c && g'.threads[t].place == Embryo && g'.threads[t].tag == Ready
      && g'.lists == g.lists && g'.cpus == g.cpus && (forall x :: x in g.threads ==> x in g'.threads && g'.threads[x] == g.threads[x])
  {
    hide Inv, Lists, Exclusive, Shape, HandOk, ThreadOk;
    InvAt(g, c);
  }
}
