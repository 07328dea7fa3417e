/**
  What a thread finds when it runs again (kern/thread/thread.c:577-780, spl.c:132-160): the
  interrupt level it had when it called thread_switch, or spl 0 if it has never run; that it
  changes only by splx while it runs; and that a thread that called thread_exit never runs
  again.
*/
module ThreadLevels {
  import opened Basics
  import opened ThreadSystem
  import opened ThreadPlaces
  import opened ThreadSteps
  import opened ThreadQueues
  import opened ThreadCpus

  /** The thread is current on a CPU that is not in thread_switch and not idle. */
  ghost predicate Runs(g: System, t: nat) {
    exists c :: c in g.cpus && g.cpus[c].cur == t && g.cpus[c].phase.Running?
  }

  /** The thread is in thread_switch or not current; `saved` is the level on its stack, if it has one. */
  ghost predicate Away(g: System, t: nat, saved: Option<bool>) {
    t in g.threads && g.threads[t].saved == saved && !Runs(g, t)
  }

  // ---------- one step ----------

  /** Steps that end thread_switch. */
  predicate Ends(s: Step) { s.SwitchNothing? || s.ResumeEnd? }

  lemma EndsAt(g: System, s: Step)
    requires Enabled(g, s) && Ends(s)
    ensures var x := g.cpus[s.c].cur; var g' := Apply(g, s);
      && x in g.threads && g'.threads.Keys == g.threads.Keys
      && g'.threads[x].curspl == (g.threads[x].saved == Some(true))
      && (forall t :: t in g.threads && t != x ==> g'.threads[t] == g.threads[t])
      && g'.cpus == g.cpus[s.c := g'.cpus[s.c]] && g'.cpus[s.c].cur == x
  {
  }

  // What the other steps do, group by group: no CPU comes to run a thread, and no thread but the
  // one that starts to switch has its saved level changed, or its level but for splx.

  predicate EntersNothing(k: Cpu, k': Cpu) {
    k'.phase.Running? ==> k.phase.Running? && k'.cur == k.cur
  }

  lemma LeaveEnters(g: System, s: Step)
    requires Enabled(g, s) && (s.SwitchTag? || s.Resume? || s.PickNone? || s.Doze? || s.Rouse? || s.Unidle? || s.PickNext?)
    ensures s.c in Apply(g, s).cpus && EntersNothing(g.cpus[s.c], Apply(g, s).cpus[s.c])
  {
    assert s.c in g.cpus;
    hide Enabled;
  }

  lemma LockEnters(g: System, s: Step)
    requires Enabled(g, s) && !Moves(s) && !Switches(s)
    ensures s.c in Apply(g, s).cpus && EntersNothing(g.cpus[s.c], Apply(g, s).cpus[s.c])
  {
    assert s.c in g.cpus;
    hide Enabled;
  }

  lemma OthersEnter(g: System, s: Step)
    requires Enabled(g, s) && !Ends(s)
    ensures s.c in Apply(g, s).cpus && EntersNothing(g.cpus[s.c], Apply(g, s).cpus[s.c])
  {
    hide Enabled, Apply;
    if Moves(s) {
      MoveCpu(g, s);
    } else if s.SwitchStart? {
      StartCpu(g, s.c, s.ns, s.w, s.l);
    } else if s.SwitchPlace? {
      PlaceCpu(g, s.c);
    } else if Switches(s) {
      LeaveEnters(g, s);
    } else {
      LockEnters(g, s);
    }
  }

  /** The thread keeps its level and the level saved on its stack. */
  predicate SameLevel(r: Thread, r': Thread) { r'.curspl == r.curspl && r'.saved == r.saved }

  lemma HeadLevel(g: System, s: Step, t: nat)
    requires Enabled(g, s) && (s.Grab? || s.PlaceOne? || s.GiveOne? || s.BackOne?) && t in g.threads
    ensures t in Apply(g, s).threads && SameLevel(g.threads[t], Apply(g, s).threads[t])
  {
  }

  lemma MovesLevel(g: System, s: Step, t: nat)
    requires Enabled(g, s) && Moves(s) && t in g.threads && t in Apply(g, s).threads
    ensures SameLevel(g.threads[t], Apply(g, s).threads[t])
  {
    if s.Grab? || s.PlaceOne? || s.GiveOne? || s.BackOne? {
      hide Enabled, Apply;
      HeadLevel(g, s, t);
    } else {
      assert s.Fork? ==> s.t !in g.threads;
      hide Enabled;
    }
  }

  lemma PlaceLevel(g: System, c: nat, t: nat)
    requires Enabled(g, SwitchPlace(c)) && t in g.threads
    ensures t in Apply(g, SwitchPlace(c)).threads && SameLevel(g.threads[t], Apply(g, SwitchPlace(c)).threads[t])
  {
    assert Apply(g, SwitchPlace(c)) == PlaceCur(g, c);
    hide Enabled, Apply;
  }

  lemma PickLevel(g: System, s: Step, t: nat)
    requires Enabled(g, s) && (s.SwitchTag? || s.Resume? || s.PickNone? || s.Doze? || s.Rouse? || s.Unidle? || s.PickNext?)
    requires t in g.threads
    ensures t in Apply(g, s).threads && SameLevel(g.threads[t], Apply(g, s).threads[t])
  {
    assert s.c in g.cpus && g.cpus[s.c].cur in g.threads;
    hide Enabled;
  }

  lemma LockLevel(g: System, s: Step, t: nat)
    requires Enabled(g, s) && !Moves(s) && !Switches(s) && t in g.threads
    ensures t in Apply(g, s).threads
    ensures if s.SetSpl? && g.cpus[s.c].cur == t
      then Apply(g, s).threads[t].curspl == s.high && Apply(g, s).threads[t].saved == g.threads[t].saved
      else SameLevel(g.threads[t], Apply(g, s).threads[t])
  {
    assert s.c in g.cpus && g.cpus[s.c].cur in g.threads;
    hide Enabled;
  }

  lemma StartLevel(g: System, c: nat, ns: Tag, w: nat, l: nat, t: nat)
    requires Enabled(g, SwitchStart(c, ns, w, l)) && t in g.threads && g.cpus[c].cur != t
    ensures t in Apply(g, SwitchStart(c, ns, w, l)).threads
    ensures SameLevel(g.threads[t], Apply(g, SwitchStart(c, ns, w, l)).threads[t])
  {
    assert c in g.cpus && g.cpus[c].cur in g.threads;
    hide Enabled;
  }

  lemma OthersLevel(g: System, s: Step, t: nat)
    requires Enabled(g, s) && !Ends(s) && t in g.threads && t in Apply(g, s).threads
    requires s.SwitchStart? ==> g.cpus[s.c].cur != t
    ensures if s.SetSpl? && g.cpus[s.c].cur == t
      then Apply(g, s).threads[t].curspl == s.high && Apply(g, s).threads[t].saved == g.threads[t].saved
      else SameLevel(g.threads[t], Apply(g, s).threads[t])
  {
    hide Enabled, Apply;
    if Moves(s) {
      MovesLevel(g, s, t);
    } else if s.SwitchStart? {
      StartLevel(g, s.c, s.ns, s.w, s.l, t);
    } else if s.SwitchPlace? {
      PlaceLevel(g, s.c, t);
    } else if Switches(s) {
      PickLevel(g, s, t);
    } else {
      LockLevel(g, s, t);
    }
  }

  lemma StartsRunning(g: System, s: Step)
    requires Enabled(g, s) && s.SwitchStart?
    ensures s.c in g.cpus && g.cpus[s.c].phase.Running?
  {
  }

  /** Until the thread runs again the level stays saved, and then it is the one it runs at. */
  lemma AwayStep(g: System, s: Step, t: nat, saved: Option<bool>)
    requires Away(g, t, saved) && Enabled(g, s) && t in Apply(g, s).threads
    ensures var g' := Apply(g, s); if Runs(g', t) then g'.threads[t].curspl == (saved == Some(true)) else Away(g', t, saved)
  {
    hide Enabled, Apply;
    if Ends(s) {
      EndsAt(g, s);
      EndKeepsSaved(g, s, t);
    } else {
      OneCpuOnly(g, s);
      OthersEnter(g, s);
      if s.SwitchStart? { StartsRunning(g, s); }
      OthersLevel(g, s, t);
    }
  }

  lemma EndKeepsSaved(g: System, s: Step, t: nat)
    requires Enabled(g, s) && Ends(s) && t in g.threads
    ensures t in Apply(g, s).threads && Apply(g, s).threads[t].saved == g.threads[t].saved
    ensures Runs(Apply(g, s), t) && !Runs(g, t) ==> g.cpus[s.c].cur == t
  {
  }

  // ---------- whole runs ----------

  /** After moment `i` and up to moment `j` the thread exists, and between them it does not run. */
  ghost predicate AbsentBetween(gs: seq<System>, t: nat, i: nat, j: nat)
    requires i < j < |gs|
  {
    (forall k :: i < k <= j ==> t in gs[k].threads) && (forall k :: i < k < j ==> !Runs(gs[k], t))
  }

  lemma {:induction false} StaysAway(gs: seq<System>, ss: seq<Step>, t: nat, i: nat, k: nat, saved: Option<bool>)
    requires IsTrace(gs, ss) && i <= k < |gs| && Away(gs[i], t, saved)
    requires forall m :: i <= m <= k ==> t in gs[m].threads && !Runs(gs[m], t)
    ensures Away(gs[k], t, saved)
    decreases k - i
  {
    hide Runs, Enabled, Apply;
    if i < k {
      StaysAway(gs, ss, t, i, k - 1, saved);
      assert Enabled(gs[k - 1], ss[k - 1]) && gs[k - 1 + 1] == Apply(gs[k - 1], ss[k - 1]);
      AwayStep(gs[k - 1], ss[k - 1], t, saved);
    }
  }

  /** The first moment after `i` at which the thread runs finds it at the level that was saved at `i + 1`. */
  lemma RunsAtSaved(gs: seq<System>, ss: seq<Step>, t: nat, i: nat, j: nat, saved: Option<bool>)
    requires IsTrace(gs, ss) && i < j < |gs| && AbsentBetween(gs, t, i, j) && Runs(gs[j], t)
    requires Away(gs[i + 1], t, saved)
    ensures gs[j].threads[t].curspl == (saved == Some(true))
  {
    hide Runs, Enabled, Apply;
    assert i + 1 < j;
    StaysAway(gs, ss, t, i + 1, j - 1, saved);
    assert Enabled(gs[j - 1], ss[j - 1]) && gs[j - 1 + 1] == Apply(gs[j - 1], ss[j - 1]);
    AwayStep(gs[j - 1], ss[j - 1], t, saved);
  }

  lemma StartSaves(g: System, c: nat, ns: Tag, w: nat, l: nat)
    requires Inv(g) && Enabled(g, SwitchStart(c, ns, w, l))
    ensures c in g.cpus && var t := g.cpus[c].cur;
      t in g.threads && Away(Apply(g, SwitchStart(c, ns, w, l)), t, Some(g.threads[t].curspl))
  {
    hide Inv, Lists, Exclusive, Shape, HandOk, ThreadOk;
    StartCpu(g, c, ns, w, l);
    var g', t := Apply(g, SwitchStart(c, ns, w, l)), g.cpus[c].cur;
    assert t in g'.threads && g'.threads[t].saved == Some(g.threads[t].curspl);
    hide Enabled, Apply;
    forall d | d in g'.cpus && g'.cpus[d].cur == t && g'.cpus[d].phase.Running? ensures false {
      assert d != c;
      CurOnce(g, c, d);
    }
  }

  lemma CurOnce(g: System, c: nat, d: nat)
    requires Inv(g) && c in g.cpus && d in g.cpus && g.cpus[c].cur == g.cpus[d].cur
    ensures c == d
  {
    hide Inv, Lists, Exclusive, Shape, HandOk, ThreadOk;
    InvAt(g, c);
    InvAt(g, d);
  }

  /** A thread that called thread_switch, in whatever state it asked for, runs again at the level it called it at. */
  lemma LevelRestored(gs: seq<System>, ss: seq<Step>, i: nat, j: nat)
    requires IsTrace(gs, ss) && i < j < |gs| && Inv(gs[i]) && ss[i].SwitchStart? && ss[i].c in gs[i].cpus
    requires var t := gs[i].cpus[ss[i].c].cur; AbsentBetween(gs, t, i, j) && Runs(gs[j], t)
    ensures var t := gs[i].cpus[ss[i].c].cur; gs[j].threads[t].curspl == gs[i].threads[t].curspl
  {
    var s := ss[i];
    var t := gs[i].cpus[s.c].cur;
    assert Enabled(gs[i], s) && gs[i + 1] == Apply(gs[i], s) && t in gs[i].threads;
    hide Inv, Runs, Enabled, Apply;
    StartSaves(gs[i], s.c, s.ns, s.w, s.l);
    RunsAtSaved(gs, ss, t, i, j, Some(gs[i].threads[t].curspl));
  }

  lemma Forked(g: System, c: nat, t: nat)
    requires Enabled(g, Fork(c, t))
    ensures var g' := Apply(g, Fork(c, t)); g'.cpus == g.cpus && t !in g.threads && t in g'.threads && g'.threads[t].saved == None
  {
  }

  lemma ForkSaves(g: System, c: nat, t: nat)
    requires Inv(g) && Enabled(g, Fork(c, t))
    ensures Away(Apply(g, Fork(c, t)), t, None)
  {
    hide Inv, Enabled, Apply, Lists, Exclusive, Shape, HandOk, ThreadOk;
    Forked(g, c, t);
    forall d | d in g.cpus ensures g.cpus[d].cur in g.threads { InvAt(g, d); }
  }

  /** A new thread first runs at spl 0. */
  lemma StartsAtSpl0(gs: seq<System>, ss: seq<Step>, t: nat, i: nat, j: nat)
    requires IsTrace(gs, ss) && i < j < |gs| && Inv(gs[i]) && ss[i].Fork? && ss[i].t == t
    requires AbsentBetween(gs, t, i, j) && Runs(gs[j], t)
    ensures !gs[j].threads[t].curspl
  {
    hide Inv, Runs, Enabled, Apply, AbsentBetween;
    assert Enabled(gs[i], ss[i]) && gs[i + 1] == Apply(gs[i], ss[i]);
    ForkSaves(gs[i], ss[i].c, t);
    RunsAtSaved(gs, ss, t, i, j, None);
  }

  /** While it runs, splx and nothing else changes its level, to the one it was given. */
  lemma OnlySplx(g: System, s: Step, t: nat)
    requires Inv(g) && Enabled(g, s) && t in g.threads && t in Apply(g, s).threads && Runs(g, t) && Runs(Apply(g, s), t)
    ensures Apply(g, s).threads[t].curspl
         == if s.SetSpl? && g.cpus[s.c].cur == t then s.high else g.threads[t].curspl
  {
    hide Inv, Enabled, Apply;
    var c :| c in g.cpus && g.cpus[c].cur == t && g.cpus[c].phase.Running?;
    StepCpu(g, s);
    if g.cpus[s.c].cur == t { CurOnce(g, c, s.c); }
    if Ends(s) {
      EndsOutside(g, s);
      EndsAt(g, s);
    } else if s.SwitchStart? && s.c == c {
      StartSaves(g, c, s.ns, s.w, s.l);
    } else {
      OthersLevel(g, s, t);
    }
  }

  lemma StepCpu(g: System, s: Step)
    requires Enabled(g, s)
    ensures s.c in g.cpus
  {
  }

  lemma EndsOutside(g: System, s: Step)
    requires Enabled(g, s) && Ends(s)
    ensures s.c in g.cpus && !g.cpus[s.c].phase.Running?
  {
  }
}
