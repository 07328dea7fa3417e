/**
  thread_consider_migration as a stretch of a run of the thread system
  (kern/thread/thread.c:878-980): from any state, and whatever the other CPUs do each time a
  lock is waited for, the code's steps are steps of `ThreadSystem`, and they leave the queues
  that `Migration` computes from what was found.
*/
module MigrationRuns {
  import opened Basics
  import opened ThreadSystem
  import opened ThreadPlaces
  import opened ThreadSteps
  import opened ThreadRuns
  import opened ThreadCpus
  import opened Migration

  // ---------- stretches of runs ----------

  ghost predicate Stretch(gs: seq<System>) {
    gs != [] && forall i :: 0 <= i < |gs| - 1 ==> Follows(gs[i], gs[i + 1])
  }

  ghost predicate Leads(g: System, g': System) {
    exists gs :: Stretch(gs) && gs[0] == g && gs[|gs| - 1] == g'
  }

  lemma LeadsSelf(g: System)
    ensures Leads(g, g)
  {
    assert Stretch([g]);
  }

  lemma LeadsStep(g: System, s: Step)
    requires Enabled(g, s)
    ensures Leads(g, Apply(g, s))
  {
    hide Enabled, Apply;
    assert Follows(g, Apply(g, s));
    hide Follows;
    var gs := [g, Apply(g, s)];
    assert Stretch(gs);
  }

  lemma LeadsThen(g: System, g1: System, g2: System)
    requires Leads(g, g1) && Leads(g1, g2)
    ensures Leads(g, g2)
  {
    hide Follows;
    var gs :| Stretch(gs) && gs[0] == g && gs[|gs| - 1] == g1;
    var hs :| Stretch(hs) && hs[0] == g1 && hs[|hs| - 1] == g2;
    var ks := gs + hs[1..];
    forall i | 0 <= i < |ks| - 1 ensures Follows(ks[i], ks[i + 1]) {
      if i < |gs| - 1 {
        assert ks[i] == gs[i] && ks[i + 1] == gs[i + 1];
      } else {
        assert ks[i] == hs[i - |gs| + 1] && ks[i + 1] == hs[i - |gs| + 2];
      }
    }
    assert Stretch(ks) && ks[0] == g && ks[|ks| - 1] == g2;
  }

  // ---------- what the others do ----------

  ghost predicate OtherFollows(c: nat, g: System, g': System) {
    exists s :: Enabled(g, s) && s.c != c && g' == Apply(g, s)
  }

  ghost predicate OtherStretch(c: nat, gs: seq<System>) {
    gs != [] && forall i :: 0 <= i < |gs| - 1 ==> OtherFollows(c, gs[i], gs[i + 1])
  }

  /** Steps of CPUs other than `c`, any number of them, lead from one state to the other. */
  ghost predicate OthersLead(c: nat, g: System, g': System) {
    exists gs :: OtherStretch(c, gs) && gs[0] == g && gs[|gs| - 1] == g'
  }

  /** What they leave alone. */
  ghost predicate Spared(c: nat, g: System, g': System) {
    && c in g.cpus && c in g'.cpus && g'.cpus[c] == g.cpus[c] && g'.cpus.Keys == g.cpus.Keys
    && ListAt(g', Hand(c)) == ListAt(g, Hand(c))
    && RunQueue(c) in g.lists && RunQueue(c) in g'.lists && g.lists[RunQueue(c)] <= g'.lists[RunQueue(c)]
  }

  lemma OtherSpares(c: nat, g: System, g': System)
    requires Inv(g) && c in g.cpus && OtherFollows(c, g, g')
    ensures Inv(g') && Spared(c, g, g') && Follows(g, g')
  {
    hide Inv, Enabled, Apply;
    var s :| Enabled(g, s) && s.c != c && g' == Apply(g, s);
    StepKeeps(g, s);
    QueueThere(g, c);
    StepSpares(c, g, s);
  }

  lemma QueueThere(g: System, c: nat)
    requires Inv(g) && c in g.cpus
    ensures RunQueue(c) in g.lists
  {
    hide Inv, Lists, Exclusive, Shape, CurOk, HandOk, ThreadOk;
    InvAt(g, c);
  }

  lemma StepSpares(c: nat, g: System, s: Step)
    requires Enabled(g, s) && s.c != c && c in g.cpus && RunQueue(c) in g.lists
    ensures Spared(c, g, Apply(g, s))
  {
    hide Enabled, Apply, ListAt;
    OneCpuOnly(g, s);
    HandsApart(g, s, c);
    QueueGrows(g, s, c);
  }

  lemma {:induction false} OthersSpare(c: nat, gs: seq<System>, i: nat)
    requires OtherStretch(c, gs) && i < |gs| && Inv(gs[0]) && c in gs[0].cpus
    ensures Inv(gs[i]) && Spared(c, gs[0], gs[i])
    decreases i
  {
    hide Inv, OtherFollows;
    if i == 0 {
      InvAt(gs[0], c);
    } else {
      var k := i - 1;
      OthersSpare(c, gs, k);
      assert OtherFollows(c, gs[k], gs[k + 1]);
      OtherSpares(c, gs[k], gs[k + 1]);
    }
  }

  lemma Interference(c: nat, g: System, g': System)
    requires Inv(g) && c in g.cpus && OthersLead(c, g, g')
    ensures Inv(g') && Spared(c, g, g') && Leads(g, g')
  {
    hide Inv, OtherFollows, Follows, Spared;
    var gs :| OtherStretch(c, gs) && gs[0] == g && gs[|gs| - 1] == g';
    OthersSpare(c, gs, |gs| - 1);
    forall i | 0 <= i < |gs| - 1 ensures Follows(gs[i], gs[i + 1]) {
      assert OtherFollows(c, gs[i], gs[i + 1]);
      OthersSpare(c, gs, i);
      SparedCpu(c, g, gs[i]);
      OtherSpares(c, gs[i], gs[i + 1]);
    }
    assert Stretch(gs);
  }

  lemma SparedCpu(c: nat, g: System, g': System)
    requires Spared(c, g, g')
    ensures c in g'.cpus
  {
  }

  // ---------- the code, one critical section at a time ----------

  /** CPU `c` is at this point of the code, with the lock it belongs to. */
  ghost predicate Doing(g: System, c: nat, op: Op) {
    Inv(g) && c in g.cpus && g.cpus[c].op == op && g.cpus[c].want.None?
  }

  function Queue(g: System, c: nat): seq<nat> { ListAt(g, RunQueue(c)) }

  function Victims(g: System, c: nat): seq<nat> { ListAt(g, Hand(c)) }

  lemma TakeOneFacts(g: System, c: nat)
    requires Doing(g, c, Taking) && Queue(g, c) != []
    ensures Enabled(g, TakeOne(c))
    ensures var g', q := Apply(g, TakeOne(c)), Queue(g, c);
      Doing(g', c, Taking) && g'.cpus == g.cpus && Queue(g', c) == q[..|q| - 1] && Victims(g', c) == [q[|q| - 1]] + Victims(g, c)
  {
    hide Inv, Lists, Exclusive, Shape, CurOk, HandOk, ThreadOk;
    InvAt(g, c);
    LastAt(g, RunQueue(c));
    StepKeeps(g, TakeOne(c));
  }

  lemma LastAt(g: System, p: Place)
    requires Lists(g) && p in g.lists && g.lists[p] != []
    ensures g.lists[p][|g.lists[p]| - 1] in g.threads
  {
    var l := g.lists[p];
    assert IsList(g.threads, l, p) && l[|l| - 1] in l;
  }

  /** The state after the loop that takes the victims. */
  ghost function TakenAll(g: System, c: nat, n: nat): System
    requires Doing(g, c, Taking) && n <= |Queue(g, c)|
    decreases n
  {
    if n == 0 then g
    else
      TakeOneFacts(g, c);
      TakenAll(Apply(g, TakeOne(c)), c, n - 1)
  }

  lemma {:induction false} TakenFacts(g: System, c: nat, n: nat)
    requires Doing(g, c, Taking) && n <= |Queue(g, c)|
    ensures var g', q := TakenAll(g, c, n), Queue(g, c);
      && Doing(g', c, Taking) && g'.cpus == g.cpus && Leads(g, g')
      && Queue(g', c) == q[..|q| - n] && Victims(g', c) == q[|q| - n..] + Victims(g, c)
    decreases n
  {
    hide Leads, Enabled, Apply, Doing, ListAt;
    if n == 0 {
      LeadsSelf(g);
    } else {
      TakeOneFacts(g, c);
      LeadsStep(g, TakeOne(c));
      var g1, q := Apply(g, TakeOne(c)), Queue(g, c);
      TakenFacts(g1, c, n - 1);
      LeadsThen(g, g1, TakenAll(g1, c, n - 1));
      assert q[|q| - n..] == q[..|q| - 1][|q| - n..] + [q[|q| - 1]];
    }
  }

  lemma GiveFacts(g: System, c: nat, d: nat)
    requires Doing(g, c, Giving(d)) && d != c && Victims(g, c) != []
    ensures var s := if Victims(g, c)[0] == g.cpus[c].cur then SkipOne(c) else GiveOne(c); var v := Victims(g, c);
      && Enabled(g, s)
      && var g' := Apply(g, s);
      && Doing(g', c, Giving(d)) && g'.cpus == g.cpus && Queue(g', c) == Queue(g, c)
      && (if s.SkipOne? then Queue(g', d) == Queue(g, d) && Victims(g', c) == v[1..] + [v[0]]
          else Queue(g', d) == Queue(g, d) + [v[0]] && Victims(g', c) == v[1..])
  {
    hide Inv, Enabled, Apply;
    Hands(g, c, d);
    var s := if Victims(g, c)[0] == g.cpus[c].cur then SkipOne(c) else GiveOne(c);
    if s.SkipOne? { SkipState(g, c, d); } else { GiveState(g, c, d); }
    StepKeeps(g, s);
  }

  /** What the steps of the loop find: the target's queue, and victims that exist. */
  lemma Hands(g: System, c: nat, d: nat)
    requires Doing(g, c, Giving(d)) && Victims(g, c) != []
    ensures g.cpus[c].cur in g.threads && Hand(c) in g.lists && RunQueue(c) in g.lists && RunQueue(d) in g.lists
    ensures g.lists[Hand(c)] != [] && g.lists[Hand(c)][0] in g.threads
  {
    hide Inv, Lists, Exclusive, Shape, CurOk, ThreadOk, IsList;
    InvAt(g, c);
    assert d in g.cpus;
    InvAt(g, d);
    HeadAt(g, Hand(c));
  }

  lemma SkipState(g: System, c: nat, d: nat)
    requires c in g.cpus && g.cpus[c].op == Giving(d) && g.cpus[c].want.None? && g.cpus[c].cur in g.threads
    requires Hand(c) in g.lists && g.lists[Hand(c)] != [] && g.lists[Hand(c)][0] == g.cpus[c].cur
    ensures Enabled(g, SkipOne(c))
    ensures var g', v := Apply(g, SkipOne(c)), g.lists[Hand(c)];
      g'.cpus == g.cpus && Queue(g', c) == Queue(g, c) && Queue(g', d) == Queue(g, d) && Victims(g', c) == v[1..] + [v[0]]
  {
  }

  lemma GiveState(g: System, c: nat, d: nat)
    requires c in g.cpus && g.cpus[c].op == Giving(d) && g.cpus[c].want.None? && g.cpus[c].cur in g.threads && d != c
    requires Hand(c) in g.lists && RunQueue(d) in g.lists
    requires g.lists[Hand(c)] != [] && g.lists[Hand(c)][0] in g.threads && g.lists[Hand(c)][0] != g.cpus[c].cur
    ensures Enabled(g, GiveOne(c))
    ensures var g', v := Apply(g, GiveOne(c)), g.lists[Hand(c)];
      g'.cpus == g.cpus && Queue(g', c) == Queue(g, c) && Queue(g', d) == Queue(g, d) + [v[0]] && Victims(g', c) == v[1..]
  {
  }

  /** The state after the loop that fills the queue of CPU `d`. */
  ghost function Given(g: System, c: nat, d: nat, toSend: nat, share: nat): System
    requires Doing(g, c, Giving(d)) && d != c && toSend <= |Victims(g, c)|
    decreases toSend
  {
    if |Queue(g, d)| >= share || toSend == 0 then g
    else
      GiveFacts(g, c, d);
      Given(Apply(g, if Victims(g, c)[0] == g.cpus[c].cur then SkipOne(c) else GiveOne(c)), c, d, toSend - 1, share)
  }

  lemma {:induction false} GivenFacts(g: System, c: nat, d: nat, toSend: nat, share: nat)
    requires Doing(g, c, Giving(d)) && d != c && toSend <= |Victims(g, c)|
    ensures var g' := Given(g, c, d, toSend, share);
      && Doing(g', c, Giving(d)) && g'.cpus == g.cpus && Queue(g', c) == Queue(g, c) && Leads(g, g')
      && var r := Delivered(Queue(g, d), Victims(g, c), toSend, share, g.cpus[c].cur);
      Queue(g', d) == r.to && Victims(g', c) == r.victims
    decreases toSend
  {
    hide Leads, Enabled, Apply, ListAt, Inv, Delivered;
    var cur, q, v := g.cpus[c].cur, Queue(g, d), Victims(g, c);
    if |q| >= share || toSend == 0 {
      LeadsSelf(g);
      DeliveredEnd(q, v, toSend, share, cur);
    } else {
      DeliveredStep(q, v, toSend, share, cur);
      GiveFacts(g, c, d);
      var s := if v[0] == cur then SkipOne(c) else GiveOne(c);
      LeadsStep(g, s);
      var g1 := Apply(g, s);
      GivenFacts(g1, c, d, toSend - 1, share);
      LeadsThen(g, g1, Given(g1, c, d, toSend - 1, share));
    }
  }

  lemma BackFacts(g: System, c: nat)
    requires Doing(g, c, PuttingBack) && Victims(g, c) != []
    ensures Enabled(g, BackOne(c))
    ensures var g', v := Apply(g, BackOne(c)), Victims(g, c);
      Doing(g', c, PuttingBack) && g'.cpus == g.cpus && Queue(g', c) == Queue(g, c) + [v[0]] && Victims(g', c) == v[1..]
  {
    hide Inv, Lists, Exclusive, Shape, CurOk, HandOk, ThreadOk, IsList;
    InvAt(g, c);
    HeadAt(g, Hand(c));
    StepKeeps(g, BackOne(c));
  }

  /** The loop that puts left-over victims back. */
  lemma {:induction false} BackAll(g: System, c: nat) returns (g': System)
    requires Doing(g, c, PuttingBack)
    ensures Doing(g', c, PuttingBack) && g'.cpus == g.cpus && Leads(g, g')
    ensures Queue(g', c) == Queue(g, c) + Victims(g, c) && Victims(g', c) == []
    decreases |Victims(g, c)|
  {
    hide Leads, Enabled, Apply, ListAt, Doing;
    g' := g;
    LeadsSelf(g);
    var v := Victims(g, c);
    if v != [] {
      BackFacts(g, c);
      LeadsStep(g, BackOne(c));
      var g1 := Apply(g, BackOne(c));
      g' := BackAll(g1, c);
      LeadsThen(g, g1, g');
      assert v == [v[0]] + v[1..];
    }
  }

  // ---------- taking a lock and giving it up ----------

  /** The lock that a step starts to wait for, and the code that it belongs to. */
  function WantedBy(s: Step): Lock
    requires s.MigrateStart? || s.GiveStart? || s.BackStart?
  {
    if s.GiveStart? then Rq(s.d) else Rq(s.c)
  }

  function NextOp(s: Step): Op
    requires s.MigrateStart? || s.GiveStart? || s.BackStart?
  {
    match s
    case MigrateStart(_) => Taking
    case GiveStart(_, d) => Giving(d)
    case _ => PuttingBack
  }

  /** The state in which the lock is obtained, after whatever the others did meanwhile. */
  ghost predicate Waits(g: System, c: nat, s: Step, f: System) {
    && s.c == c && Enabled(g, s) && (s.MigrateStart? || s.GiveStart? || s.BackStart?)
    && OthersLead(c, Apply(g, s), f) && Free(f, WantedBy(s))
  }

  /** The same CPUs, and the same current thread on `c`. */
  predicate SameCpus(g: System, g': System, c: nat) {
    g'.cpus.Keys == g.cpus.Keys && c in g.cpus && g'.cpus[c].cur == g.cpus[c].cur
  }

  lemma StartsWaiting(g: System, c: nat, s: Step)
    requires Inv(g) && s.c == c && Enabled(g, s) && (s.MigrateStart? || s.GiveStart? || s.BackStart?)
    ensures var g' := Apply(g, s);
      && Inv(g') && SameCpus(g, g', c) && g'.lists == g.lists
      && g'.cpus[c].op == NextOp(s) && g'.cpus[c].want == Some(WantedBy(s))
  {
    hide Inv;
    StepKeeps(g, s);
  }

  lemma Gets(f: System, c: nat)
    requires Inv(f) && c in f.cpus && f.cpus[c].want.Some? && Free(f, f.cpus[c].want.value)
    ensures Enabled(f, Got(c))
    ensures var g' := Apply(f, Got(c));
      Inv(g') && SameCpus(f, g', c) && g'.lists == f.lists && g'.cpus[c].op == f.cpus[c].op && g'.cpus[c].want.None?
  {
    hide Inv, Shape, CurOk, HandOk, ThreadOk, Lists, Exclusive, Free;
    InvAt(f, c);
    StepKeeps(f, Got(c));
  }

  lemma Acquires(g: System, c: nat, s: Step, f: System)
    requires Inv(g) && Waits(g, c, s, f)
    ensures c in f.cpus && Enabled(f, Got(c))
    ensures var g' := Apply(f, Got(c));
      && Doing(g', c, NextOp(s)) && SameCpus(g, g', c) && Leads(g, g') && g'.lists == f.lists
      && Victims(g', c) == Victims(g, c) && Queue(g, c) <= Queue(g', c)
  {
    hide Inv, Enabled, Apply, Leads, OthersLead, Free;
    StartsWaiting(g, c, s);
    var g1 := Apply(g, s);
    LeadsStep(g, s);
    Interference(c, g1, f);
    LeadsThen(g, g1, f);
    Gets(f, c);
    LeadsStep(f, Got(c));
    LeadsThen(g, f, Apply(f, Got(c)));
  }

  function EndOp(s: Step): Op
    requires s.TakeEnd? || s.GiveEnd? || s.BackEnd? || s.MigrateEnd?
  {
    if s.TakeEnd? || s.GiveEnd? then Dealing else NoOp
  }

  lemma Ends(g: System, c: nat, s: Step)
    requires s.c == c
    requires (s.TakeEnd? && Doing(g, c, Taking)) || (s.GiveEnd? && c in g.cpus && g.cpus[c].op.Giving? && Doing(g, c, g.cpus[c].op))
      || (s.BackEnd? && Doing(g, c, PuttingBack) && Victims(g, c) == []) || (s.MigrateEnd? && Doing(g, c, Dealing) && Victims(g, c) == [])
    ensures Enabled(g, s)
    ensures var g' := Apply(g, s);
      Doing(g', c, EndOp(s)) && SameCpus(g, g', c) && Leads(g, g') && g'.lists == g.lists
  {
    hide Inv, Leads, Enabled, Apply;
    CurThere(g, c);
    EndState(g, c, s);
    StepKeeps(g, s);
    LeadsStep(g, s);
  }

  lemma CurThere(g: System, c: nat)
    requires Inv(g) && c in g.cpus
    ensures g.cpus[c].cur in g.threads
  {
    hide Inv, Lists, Exclusive, Shape, CurOk, HandOk, ThreadOk;
    InvAt(g, c);
  }

  lemma EndState(g: System, c: nat, s: Step)
    requires s.c == c && c in g.cpus && g.cpus[c].cur in g.threads && g.cpus[c].want.None?
    requires (s.TakeEnd? && g.cpus[c].op.Taking?) || (s.GiveEnd? && g.cpus[c].op.Giving?)
      || (s.BackEnd? && g.cpus[c].op.PuttingBack? && Victims(g, c) == []) || (s.MigrateEnd? && g.cpus[c].op.Dealing? && Victims(g, c) == [])
    ensures Enabled(g, s)
    ensures var g' := Apply(g, s);
      SameCpus(g, g', c) && g'.lists == g.lists && g'.cpus[c].op == EndOp(s) && g'.cpus[c].want.None?
  {
  }

  // ---------- one other CPU ----------

  /** The state after a visit to CPU `d`, whose lock was obtained in the state `f`. */
  ghost function Visited(g: System, c: nat, d: nat, toSend: nat, share: nat, f: System): System
    requires Doing(g, c, Dealing) && d != c && toSend <= |Victims(g, c)| && Waits(g, c, GiveStart(c, d), f)
  {
    hide Inv, Enabled, Apply, Leads, Waits, Delivered, Given;
    Acquires(g, c, GiveStart(c, d), f);
    var g1 := Apply(f, Got(c));
    GivenFacts(g1, c, d, toSend, share);
    var g2 := Given(g1, c, d, toSend, share);
    Ends(g2, c, GiveEnd(c));
    Apply(g2, GiveEnd(c))
  }

  lemma VisitFacts(g: System, c: nat, d: nat, toSend: nat, share: nat, f: System)
    requires Doing(g, c, Dealing) && d != c && toSend <= |Victims(g, c)| && Waits(g, c, GiveStart(c, d), f)
    ensures var g' := Visited(g, c, d, toSend, share, f); var r := Delivered(Queue(f, d), Victims(g, c), toSend, share, g.cpus[c].cur);
      && Doing(g', c, Dealing) && SameCpus(g, g', c) && Leads(g, g') && Queue(g, c) <= Queue(g', c)
      && Queue(g', d) == r.to && Victims(g', c) == r.victims
  {
    hide Leads, Enabled, Apply, Inv, Waits, Delivered, Given;
    Acquires(g, c, GiveStart(c, d), f);
    var g1 := Apply(f, Got(c));
    GivenFacts(g1, c, d, toSend, share);
    var g2 := Given(g1, c, d, toSend, share);
    Ends(g2, c, GiveEnd(c));
    var g3 := Apply(g2, GiveEnd(c));
    LeadsThen(g, g1, g2);
    LeadsThen(g, g2, g3);
    assert Visited(g, c, d, toSend, share, f) == g3;
  }

  // ---------- all of them ----------

  /** The end of the loop over the CPUs, and each queue as it was when its lock was released. */
  datatype Tour = Tour(end: System, left: map<nat, seq<nat>>)

  /** The loop, where the lock of CPU `j` is obtained in the state `founds[j]`; None if the others cannot lead there. */
  ghost function Toured(g: System, c: nat, i: nat, toSend: nat, share: nat, founds: seq<System>): Option<Tour>
    requires Doing(g, c, Dealing) && toSend <= |Victims(g, c)|
    decreases |founds| - i
  {
    if i >= |founds| || toSend == 0 then Some(Tour(g, map[]))
    else if i == c then Toured(g, c, i + 1, toSend, share, founds)
    else if !Waits(g, c, GiveStart(c, i), founds[i]) then None
    else
      VisitFacts(g, c, i, toSend, share, founds[i]);
      var r := Delivered(Queue(founds[i], i), Victims(g, c), toSend, share, g.cpus[c].cur);
      var rest := Toured(Visited(g, c, i, toSend, share, founds[i]), c, i + 1, r.toSend, share, founds);
      if rest.None? then None else Some(Tour(rest.value.end, rest.value.left[i := r.to]))
  }

  /** The queues are those found. */
  ghost predicate Found(qs: seq<seq<nat>>, founds: seq<System>, c: nat, i: nat) {
    |qs| == |founds| && forall j :: i <= j < |qs| && j != c ==> qs[j] == Queue(founds[j], j)
  }

  ghost predicate TourEnds(g: System, c: nat, i: nat, t: Tour, r: Dealt<seq<seq<nat>>>) {
    && Doing(t.end, c, Dealing) && SameCpus(g, t.end, c) && Leads(g, t.end) && Queue(g, c) <= Queue(t.end, c)
    && Victims(t.end, c) == r.victims
    && (forall d :: d in t.left ==> i <= d < |r.to| && t.left[d] == r.to[d])
  }

  lemma {:induction false} TourFacts(g: System, c: nat, i: nat, toSend: nat, share: nat, founds: seq<System>, qs: seq<seq<nat>>)
    requires Doing(g, c, Dealing) && toSend <= |Victims(g, c)| && i <= |founds| && Found(qs, founds, c, i)
    requires Toured(g, c, i, toSend, share, founds).Some?
    ensures TourEnds(g, c, i, Toured(g, c, i, toSend, share, founds).value,
                     HandedOut(qs, i, c, Victims(g, c), toSend, share, g.cpus[c].cur))
    decreases |founds| - i
  {
    hide Leads, Inv, Waits, Delivered, HandedOut, ListAt, Visited, TourEnds;
    var cur, v := g.cpus[c].cur, Victims(g, c);
    if i == |founds| || toSend == 0 {
      LeadsSelf(g);
      HandedOutEnd(qs, i, c, v, toSend, share, cur);
      TourNone(g, c, i, qs, toSend);
    } else {
      HandedOutStep(qs, i, c, v, toSend, share, cur);
      if i == c {
        TourFacts(g, c, i + 1, toSend, share, founds, qs);
        TourSkip(g, c, i, Toured(g, c, i + 1, toSend, share, founds).value, HandedOut(qs, i, c, v, toSend, share, cur));
      } else {
        VisitFacts(g, c, i, toSend, share, founds[i]);
        var g1, d := Visited(g, c, i, toSend, share, founds[i]), Delivered(qs[i], v, toSend, share, cur);
        var qs1 := qs[i := d.to];
        TourFacts(g1, c, i + 1, d.toSend, share, founds, qs1);
        HandedOutKeeps(qs1, i + 1, c, d.victims, d.toSend, share, cur, i);
        TourOn(g, g1, c, i, Toured(g1, c, i + 1, d.toSend, share, founds).value, HandedOut(qs, i, c, v, toSend, share, cur), d.to);
      }
    }
  }

  lemma TourNone(g: System, c: nat, i: nat, qs: seq<seq<nat>>, toSend: nat)
    requires Doing(g, c, Dealing) && Leads(g, g)
    ensures TourEnds(g, c, i, Tour(g, map[]), Dealt(qs, Victims(g, c), toSend))
  {
    hide Leads, Inv;
  }

  lemma TourSkip(g: System, c: nat, i: nat, t: Tour, r: Dealt<seq<seq<nat>>>)
    requires TourEnds(g, c, i + 1, t, r)
    ensures TourEnds(g, c, i, t, r)
  {
    hide Leads, Inv;
  }

  lemma TourOn(g: System, g1: System, c: nat, i: nat, t: Tour, r: Dealt<seq<seq<nat>>>, q: seq<nat>)
    requires SameCpus(g, g1, c) && Leads(g, g1) && Queue(g, c) <= Queue(g1, c)
    requires TourEnds(g1, c, i + 1, t, r) && i < |r.to| && r.to[i] == q
    ensures TourEnds(g, c, i, Tour(t.end, t.left[i := q]), r)
  {
    hide Leads, Inv, ListAt;
    LeadsThen(g, g1, t.end);
  }

  // ---------- the whole of it ----------

  /** The victims taken, and the own lock released: its lock was obtained in the state `f`. */
  ghost function Started(g: System, c: nat, f: System, toSend: nat): (g': System)
    requires Inv(g) && Waits(g, c, MigrateStart(c), f) && toSend <= |Queue(f, c)|
    ensures Doing(g', c, Dealing) && toSend <= |Victims(g', c)|
  {
    hide Inv, Enabled, Apply, Leads, Waits, TakenAll;
    Acquires(g, c, MigrateStart(c), f);
    var g1 := Apply(f, Got(c));
    TakenFacts(g1, c, toSend);
    var g2 := TakenAll(g1, c, toSend);
    Ends(g2, c, TakeEnd(c));
    Apply(g2, TakeEnd(c))
  }

  lemma StartedFacts(g: System, c: nat, f: System, toSend: nat)
    requires Inv(g) && Waits(g, c, MigrateStart(c), f) && toSend <= |Queue(f, c)|
    ensures var g', q := Started(g, c, f, toSend), Queue(f, c);
      && Doing(g', c, Dealing) && SameCpus(g, g', c) && Leads(g, g')
      && Queue(g', c) == q[..|q| - toSend] && Victims(g', c) == q[|q| - toSend..]
  {
    hide Leads, Enabled, Apply, Inv, Waits, TakenAll;
    NothingInHand(g, c, f);
    Acquires(g, c, MigrateStart(c), f);
    var g1 := Apply(f, Got(c));
    TakenFacts(g1, c, toSend);
    var g2 := TakenAll(g1, c, toSend);
    Ends(g2, c, TakeEnd(c));
    LeadsThen(g, g1, g2);
    LeadsThen(g, g2, Apply(g2, TakeEnd(c)));
    assert Started(g, c, f, toSend) == Apply(g2, TakeEnd(c));
  }

  lemma NothingInHand(g: System, c: nat, f: System)
    requires Inv(g) && Waits(g, c, MigrateStart(c), f)
    ensures Victims(g, c) == []
  {
    hide Inv, Lists, Exclusive, Shape, CurOk, ThreadOk, Apply, OthersLead, Free;
    assert c in g.cpus && g.cpus[c].op.NoOp?;
    hide Enabled;
    InvAt(g, c);
  }

  lemma Finished(g: System, c: nat, f: System) returns (g': System)
    requires Doing(g, c, Dealing) && (Victims(g, c) != [] ==> Waits(g, c, BackStart(c), f))
    ensures Doing(g', c, NoOp) && Leads(g, g') && Victims(g', c) == []
    ensures Queue(g', c) == if Victims(g, c) == [] then Queue(g, c) else Queue(f, c) + Victims(g, c)
    ensures Victims(g, c) != [] ==> Queue(g, c) <= Queue(f, c)
  {
    hide Leads, Enabled, Apply, Inv, Waits;
    if Victims(g, c) == [] {
      Ends(g, c, MigrateEnd(c));
      g' := Apply(g, MigrateEnd(c));
    } else {
      Acquires(g, c, BackStart(c), f);
      var g1 := Apply(f, Got(c));
      var g2 := BackAll(g1, c);
      Ends(g2, c, BackEnd(c));
      g' := Apply(g2, BackEnd(c));
      LeadsThen(g, g1, g2);
      LeadsThen(g, g2, g');
    }
  }

  /**
    What the others do can be this: CPU `c` gets its own lock in the state `f`, each other
    CPU's in its state of `founds`, and its own again, if there are victims left, in `last`.
  */
  ghost predicate Goes(g: System, c: nat, f: System, toSend: nat, share: nat, founds: seq<System>, last: System) {
    hide Inv, Waits, Started, Toured;
    && Inv(g) && Waits(g, c, MigrateStart(c), f) && toSend <= |Queue(f, c)|
    && var t := Toured(Started(g, c, f, toSend), c, 0, toSend, share, founds);
    t.Some? && (Victims(t.value.end, c) != [] ==> Waits(t.value.end, c, BackStart(c), last))
  }

  ghost function TourOf(g: System, c: nat, f: System, toSend: nat, share: nat, founds: seq<System>, last: System): Tour
    requires Goes(g, c, f, toSend, share, founds, last)
  {
    hide Inv, Waits, Started, Toured;
    Toured(Started(g, c, f, toSend), c, 0, toSend, share, founds).value
  }

  /** The queues are those that `Migration.ConsiderMigration` computes. */
  ghost predicate Computed(mine: seq<nat>, c: nat, toSend: nat, share: nat, cur: nat, qs: seq<seq<nat>>, left: map<nat, seq<nat>>,
                           arrivals: seq<nat>, own: seq<nat>)
    requires toSend <= |mine|
  {
    var k := |mine| - toSend;
    var r := HandedOut(qs, 0, c, mine[k..], toSend, share, cur);
    own == mine[..k] + arrivals + r.victims && forall d :: d in left ==> d < |r.to| && left[d] == r.to[d]
  }

  /**
    From any state in which CPU `c` may start, and whatever the others do, the code leads to a
    state in which its queue is what it kept, what arrived, and the victims left over from what
    it handed out; every other queue was, when its lock was released, the one computed from
    what was found.
  */
  lemma MigrationIsRun(g: System, c: nat, f: System, toSend: nat, share: nat, founds: seq<System>, qs: seq<seq<nat>>, last: System)
      returns (g': System, arrivals: seq<nat>)
    requires Goes(g, c, f, toSend, share, founds, last) && Found(qs, founds, c, 0)
    ensures Leads(g, g') && Doing(g', c, NoOp) && Victims(g', c) == []
    ensures c in g.cpus && toSend <= |Queue(f, c)|
    ensures Computed(Queue(f, c), c, toSend, share, g.cpus[c].cur, qs,
                     TourOf(g, c, f, toSend, share, founds, last).left, arrivals, Queue(g', c))
  {
    hide Leads, Inv, Waits, HandedOut, Toured, Started, ListAt;
    StartedFacts(g, c, f, toSend);
    var g1 := Started(g, c, f, toSend);
    TourFacts(g1, c, 0, toSend, share, founds, qs);
    var t := Toured(g1, c, 0, toSend, share, founds).value;
    g' := Finished(t.end, c, last);
    LeadsThen(g, g1, t.end);
    LeadsThen(g, t.end, g');
    var kept, found := Queue(g1, c), if Victims(t.end, c) == [] then Queue(t.end, c) else Queue(last, c);
    arrivals := found[|kept|..];
    assert found == kept + arrivals;
  }
}
