/**
  What every step of the thread system keeps (kern/thread/thread.c): each thread is in one
  place, its state tag and CPU agree with the place, and the run queue lock covers the
  moments when they do not.
*/
module ThreadPlaces {
  import opened Basics
  import opened ThreadSystem

  // ---------- one CPU ----------

  /** The run queue whose lock the CPU's code holds or is getting. */
  function RqAt(k: Cpu, c: nat): Option<nat> {
    match k.op
    case NoOp => if k.phase.Running? || k.phase.Idle? || k.phase.Dozing? || k.phase.Exorcising? then None else Some(c)
    case Waking => None
    case Dealing => None
    case Placing(d) => Some(d)
    case Placed(d) => Some(d)
    case Giving(d) => Some(d)
    case _ => Some(c)
  }

  ghost predicate RqOk(k: Cpu, c: nat) {
    && (forall d: nat :: Rq(d) in k.holds ==> RqAt(k, c) == Some(d))
    && (k.want.Some? && k.want.value.Rq? ==> RqAt(k, c) == Some(k.want.value.c))
    && (RqAt(k, c).Some? ==> (Rq(RqAt(k, c).value) in k.holds <==> k.want != Some(Rq(RqAt(k, c).value))))
  }

  ghost predicate PhaseOk(k: Cpu, c: nat) {
    match k.phase
    case Switching(ns, _, l) =>
      && !ns.Run? && (k.want.None? || k.want == Some(Rq(c)))
      && k.holds - {Rq(c)} == if ns.Sleep? then {Lk(l)} else {}
    case Tagging => k.holds == {Rq(c)} && k.want.None?
    case Resuming => k.holds == {Rq(c)} && k.want.None?
    case Dozing => k.holds == {} && k.want.None?
    case Picking => (k.holds == {Rq(c)} && k.want.None?) || (k.holds == {} && k.want == Some(Rq(c)))
    case _ => true
  }

  /** Which locks the CPU holds and waits for, at each point of its code. */
  ghost predicate Shape(k: Cpu, c: nat) {
    && RqOk(k, c) && PhaseOk(k, c)
    && (k.want.Some? ==> k.want.value !in k.holds)
    && k.spinlocks == |k.holds| + (if k.want.Some? then 1 else 0)
    && (k.op.NoOp? || k.phase.Running? || k.phase.Idle?)
    && (k.op.Placed? ==> k.want.None?)
  }

  ghost predicate Exclusive(g: System) {
    forall c, d, l :: c in g.cpus && d in g.cpus && l in g.cpus[c].holds && l in g.cpus[d].holds ==> c == d
  }

  // ---------- lists and places ----------

  ghost predicate IsList(threads: map<nat, Thread>, l: seq<nat>, p: Place) {
    NoDup(l) && forall t :: t in l <==> t in threads && threads[t].place == p
  }

  ghost predicate Lists(g: System) {
    && (forall p :: p in g.lists ==> !p.OnCpu? && !p.Embryo? && IsList(g.threads, g.lists[p], p))
    && (forall c :: c in g.cpus ==> RunQueue(c) in g.lists && Zombies(c) in g.lists && Hand(c) in g.lists)
    && (forall t :: t in g.threads && !g.threads[t].place.OnCpu? && !g.threads[t].place.Embryo? ==> g.threads[t].place in g.lists)
  }

  // ---------- threads ----------

  /** The tag of a running thread; the first thread of each CPU has S_READY until it is switched out. */
  predicate RunTag(t: Thread) { if t.boot then t.tag.Ready? else t.tag.Run? }

  /** In thread_switch, already on its channel, tag not yet changed. */
  predicate Tagged(g: System, t: nat)
    requires t in g.threads
  {
    var c := g.threads[t].cpu;
    c in g.cpus && g.cpus[c].phase.Tagging? && g.cpus[c].cur == t
  }

  predicate Wakes(op: Op) { op.Waking? || op.Placing? || op.Placed? }

  predicate Migrates(op: Op) { op.Taking? || op.Dealing? || op.Giving? || op.PuttingBack? }

  ghost predicate ThreadOk(g: System, t: nat)
    requires t in g.threads
  {
    var r := g.threads[t];
    && r.cpu in g.cpus
    && match r.place
       case OnCpu(c) => c in g.cpus && g.cpus[c].cur == t
       case RunQueue(c) => r.cpu == c && r.tag.Ready? && !r.boot
       case Channel(_) => (r.tag.Sleep? && !r.boot) || (RunTag(r) && Tagged(g, t))
       case Zombies(c) => r.cpu == c && r.tag.Zombie? && !r.boot
       case Hand(c) =>
         && c in g.cpus
         && (Wakes(g.cpus[c].op) || Migrates(g.cpus[c].op))
         && (Wakes(g.cpus[c].op) ==> ((r.tag.Sleep? || r.tag.Ready?) && !r.boot) || (RunTag(r) && Tagged(g, t)))
         && (Migrates(g.cpus[c].op) ==> r.tag.Ready? && !r.boot && r.cpu == c)
       case Embryo => r.tag.Ready? && !r.boot
  }

  /** The current thread; only a CPU with nothing to run leaves it on a list. */
  ghost predicate CurOk(g: System, c: nat)
    requires c in g.cpus
  {
    var k := g.cpus[c];
    && k.cur in g.threads
    && var r := g.threads[k.cur];
    && r.cpu == c
    && match k.phase
       case Tagging => RunTag(r) && (r.place.Channel? || r.place.Hand?)
       case Resuming => r.place == OnCpu(c) && r.tag.Ready? && !r.boot
       case Picking => !r.place.OnCpu? && !r.place.Embryo? && !r.tag.Run? && !r.boot
       case Idle => !r.place.OnCpu? && !r.place.Embryo? && !r.tag.Run? && !r.boot
       case Dozing => !r.place.OnCpu? && !r.place.Embryo? && !r.tag.Run? && !r.boot
       case _ => r.place == OnCpu(c) && RunTag(r)
  }

  /** What the CPU has in its hands, as far as its code relies on it. */
  ghost predicate HandOk(g: System, c: nat)
    requires c in g.cpus
  {
    var op, l := g.cpus[c].op, ListAt(g, Hand(c));
    && (op.NoOp? ==> l == [])
    && (op.Placing? ==> l != [] && l[0] in g.threads && g.threads[l[0]].cpu == op.d)
    && (op.Giving? ==> op.d in g.cpus)
  }

  ghost predicate Inv(g: System) {
    && (forall c :: c in g.cpus ==> Shape(g.cpus[c], c))
    && Exclusive(g)
    && Lists(g)
    && (forall t :: t in g.threads ==> ThreadOk(g, t))
    && (forall c :: c in g.cpus ==> CurOk(g, c))
    && (forall c :: c in g.cpus ==> HandOk(g, c))
  }

  // ---------- one step at a time ----------

  /** One CPU's record and one thread's record change, and nobody else's hands. */
  ghost predicate Changes(g: System, g': System, c: nat, t: nat) {
    && c in g.cpus && c in g'.cpus && g'.cpus == g.cpus[c := g'.cpus[c]]
    && t in g.threads && t in g'.threads && g'.threads == g.threads[t := g'.threads[t]]
    && (g'.threads[t].cpu == g.threads[t].cpu || g.threads[t].place == Hand(c))
    && (forall d :: d in g.cpus && d != c ==> ListAt(g', Hand(d)) == ListAt(g, Hand(d)))
  }

  /** The CPU goes on with what it is doing, or has nobody else in its hands. */
  ghost predicate KeepsHand(g: System, g': System, c: nat, t: nat)
    requires c in g.cpus && c in g'.cpus
  {
    || (Wakes(g.cpus[c].op) == Wakes(g'.cpus[c].op) && Migrates(g.cpus[c].op) == Migrates(g'.cpus[c].op))
    || (forall u :: u in g.threads && u != t ==> g.threads[u].place != Hand(c))
  }

  lemma OtherThread(g: System, g': System, c: nat, t: nat, u: nat)
    requires Changes(g, g', c, t) && KeepsHand(g, g', c, t)
    requires u in g.threads && u != t && ThreadOk(g, u)
    requires u != g.cpus[c].cur || (g'.cpus[c].cur == u && g'.cpus[c].phase == g.cpus[c].phase)
    ensures u in g'.threads && ThreadOk(g', u)
  {
  }

  lemma OtherHand(g: System, g': System, c: nat, t: nat, d: nat)
    requires Changes(g, g', c, t) && d in g.cpus && d != c && HandOk(g, d) && Lists(g)
    ensures d in g'.cpus && HandOk(g', d)
  {
    var l := ListAt(g, Hand(d));
    assert Hand(d) in g.lists && IsList(g.threads, l, Hand(d));
    assert l != [] ==> l[0] in l;
  }

  lemma ExclusiveStep(g: System, g': System, c: nat)
    requires Exclusive(g) && c in g.cpus && c in g'.cpus && g'.cpus == g.cpus[c := g'.cpus[c]]
    requires forall l :: l in g'.cpus[c].holds ==> l in g.cpus[c].holds || Free(g, l)
    ensures Exclusive(g')
  {
  }

  /** What has to be shown of a step; everything else stays as it was. */
  lemma OneStep(g: System, g': System, c: nat, t: nat)
    requires Inv(g) && Changes(g, g', c, t) && KeepsHand(g, g', c, t)
    requires Shape(g'.cpus[c], c)
    requires forall l :: l in g'.cpus[c].holds ==> l in g.cpus[c].holds || Free(g, l)
    requires Lists(g')
    requires ThreadOk(g', t) && g.cpus[c].cur in g'.threads && ThreadOk(g', g.cpus[c].cur)
    requires CurOk(g', c) && HandOk(g', c)
    requires forall d :: d in g.cpus && d != c && g.cpus[d].cur == t ==> CurOk(g', d)
    ensures Inv(g')
  {
    hide Shape, Exclusive, Lists, ThreadOk, CurOk, HandOk, KeepsHand, Free;
    ExclusiveStep(g, g', c);
    OtherThreads(g, g', c, t);
    OtherCpus(g, g', c, t);
  }

  lemma OtherThreads(g: System, g': System, c: nat, t: nat)
    requires Changes(g, g', c, t) && KeepsHand(g, g', c, t)
    requires forall u :: u in g.threads ==> ThreadOk(g, u)
    requires ThreadOk(g', t) && g.cpus[c].cur in g'.threads && ThreadOk(g', g.cpus[c].cur)
    ensures forall u :: u in g'.threads ==> ThreadOk(g', u)
  {
    hide ThreadOk, KeepsHand;
    forall u | u in g'.threads ensures ThreadOk(g', u) {
      if u != t && u != g.cpus[c].cur {
        OtherThread(g, g', c, t, u);
      }
    }
  }

  lemma OtherCpus(g: System, g': System, c: nat, t: nat)
    requires Changes(g, g', c, t) && Lists(g)
    requires forall d :: d in g.cpus ==> CurOk(g, d) && HandOk(g, d) && Shape(g.cpus[d], d)
    requires CurOk(g', c) && HandOk(g', c) && Shape(g'.cpus[c], c)
    requires forall d :: d in g.cpus && d != c && g.cpus[d].cur == t ==> CurOk(g', d)
    ensures forall d :: d in g'.cpus ==> CurOk(g', d) && HandOk(g', d) && Shape(g'.cpus[d], d)
  {
    hide Lists, HandOk, CurOk, Shape;
    forall d | d in g'.cpus ensures CurOk(g', d) && HandOk(g', d) && Shape(g'.cpus[d], d) {
      if d != c {
        OtherHand(g, g', c, t, d);
        if g.cpus[d].cur != t { OtherCur(g, g', c, t, d); }
      }
    }
  }

  lemma OtherCur(g: System, g': System, c: nat, t: nat, d: nat)
    requires Changes(g, g', c, t) && d in g.cpus && d != c && CurOk(g, d) && g.cpus[d].cur != t
    ensures d in g'.cpus && CurOk(g', d)
  {
  }

  // ---------- lists ----------

  ghost predicate Loses(l: seq<nat>, l': seq<nat>, t: nat) {
    NoDup(l') && forall u :: u in l' <==> u in l && u != t
  }

  ghost predicate Gains(l: seq<nat>, l': seq<nat>, t: nat) {
    NoDup(l') && forall u :: u in l' <==> u in l || u == t
  }

  lemma HeadLeaves(l: seq<nat>)
    requires NoDup(l) && l != []
    ensures Loses(l, l[1..], l[0])
  {
    assert l == [l[0]] + l[1..];
  }

  lemma LastLeaves(l: seq<nat>)
    requires NoDup(l) && l != []
    ensures Loses(l, l[..|l| - 1], l[|l| - 1])
  {
    assert l == l[..|l| - 1] + [l[|l| - 1]];
  }

  lemma JoinsTail(l: seq<nat>, t: nat)
    requires NoDup(l) && t !in l
    ensures Gains(l, l + [t], t)
  {
  }

  lemma JoinsHead(l: seq<nat>, t: nat)
    requires NoDup(l) && t !in l
    ensures Gains(l, [t] + l, t)
  {
  }

  /** A thread moves from one list to another, or to or from a place without a list. */
  lemma MoveLists(g: System, g': System, t: nat, p: Place, q: Place)
    requires Lists(g) && t in g.threads && g.threads[t].place == p && p != q
    requires g'.cpus.Keys == g.cpus.Keys && t in g'.threads && g'.threads == g.threads[t := g'.threads[t]]
    requires g'.threads[t].place == q && g'.lists.Keys == g.lists.Keys
    requires forall r :: r in g.lists && r != p && r != q ==> g'.lists[r] == g.lists[r]
    requires p in g.lists ==> Loses(g.lists[p], g'.lists[p], t)
    requires if q in g.lists then Gains(g.lists[q], g'.lists[q], t) else q.OnCpu? || q.Embryo?
    ensures Lists(g')
  {
    forall r | r in g'.lists ensures !r.OnCpu? && !r.Embryo? && IsList(g'.threads, g'.lists[r], r) {
      assert IsList(g.threads, g.lists[r], r);
    }
  }

  lemma SameLists(g: System, g': System, t: nat)
    requires Lists(g) && g'.lists == g.lists && g'.cpus.Keys == g.cpus.Keys
    requires t in g.threads && t in g'.threads && g'.threads == g.threads[t := g'.threads[t]]
    requires g'.threads[t].place == g.threads[t].place
    ensures Lists(g')
  {
    forall r | r in g'.lists ensures IsList(g'.threads, g'.lists[r], r) {
      assert IsList(g.threads, g.lists[r], r);
    }
  }
}
