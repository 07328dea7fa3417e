/**
  Run queues, wait channels and zombie lists as queues over whole runs (kern/thread/thread.c):
  threads leave in the order in which they came, except that migration takes from the end of
  a run queue.
*/
module ThreadQueues {
  import opened Basics
  import opened ThreadSystem
  import opened ThreadPlaces
  import opened ThreadSteps
  import opened ThreadRuns

  predicate IsQueue(p: Place) { p.RunQueue? || p.Channel? || p.Zombies? }

  function Only(yes: bool, t: nat): seq<nat> { if yes then [t] else [] }

  /** Where thread_switch puts the current thread. */
  function Destination(c: nat, phase: Phase): Place
    requires phase.Switching?
  {
    match phase.ns
    case Sleep => Channel(phase.w)
    case Zombie => Zombies(c)
    case _ => RunQueue(c)
  }

  /** The thread that a step puts on `p`, if any. */
  function Arriving(g: System, s: Step, p: Place): seq<nat>
    requires Enabled(g, s)
  {
    var k := g.cpus[s.c];
    match s
    case SwitchPlace(c) => Only(p == Destination(c, k.phase), k.cur)
    case PlaceOne(c) => Only(p == RunQueue(k.op.d), g.lists[Hand(c)][0])
    case GiveOne(c) => Only(p == RunQueue(k.op.d), g.lists[Hand(c)][0])
    case BackOne(c) => Only(p == RunQueue(c), g.lists[Hand(c)][0])
    case _ => []
  }

  /** The thread that a step takes off `p`, if any. */
  function Leaving(g: System, s: Step, p: Place): seq<nat>
    requires Enabled(g, s)
  {
    match s
    case Grab(_, w) => Only(p == Channel(w), g.lists[Channel(w)][0])
    case PickNext(c) => Only(p == RunQueue(c), g.lists[RunQueue(c)][0])
    case Exorcise(c) => Only(p == Zombies(c), g.lists[Zombies(c)][0])
    case TakeOne(c) => Only(p == RunQueue(c), g.lists[RunQueue(c)][|g.lists[RunQueue(c)]| - 1])
    case _ => []
  }

  /** Migration takes from the end of a run queue. */
  predicate TakesLast(s: Step, p: Place) { s.TakeOne? && p == RunQueue(s.c) }

  /** A step puts a thread at the end of the list, takes its head, or leaves it. */
  lemma StepQueue(g: System, s: Step, p: Place)
    requires Enabled(g, s) && IsQueue(p) && p in g.lists
    ensures p in Apply(g, s).lists
    ensures var l, l' := g.lists[p], Apply(g, s).lists[p];
      if TakesLast(s, p) then l == l' + Leaving(g, s, p) && Arriving(g, s, p) == []
      else l + Arriving(g, s, p) == Leaving(g, s, p) + l'
  {
    if s.SwitchPlace? {
      assert Apply(g, s) == PlaceCur(g, s.c);
      hide Apply, Enabled;
    } else if s.Grab? || s.TakeOne? || s.PickNext? || s.Exorcise? {
      TakeFrom(g, s, p);
    } else if s.PlaceOne? || s.GiveOne? || s.BackOne? {
      PutOn(g, s, p);
    } else {
      hide Enabled;
    }
  }

  lemma TakeFrom(g: System, s: Step, p: Place)
    requires Enabled(g, s) && IsQueue(p) && p in g.lists
    requires s.Grab? || s.TakeOne? || s.PickNext? || s.Exorcise?
    ensures p in Apply(g, s).lists
    ensures var l, l' := g.lists[p], Apply(g, s).lists[p];
      if TakesLast(s, p) then l == l' + Leaving(g, s, p) && Arriving(g, s, p) == []
      else l + Arriving(g, s, p) == Leaving(g, s, p) + l'
  {
  }

  lemma PutOn(g: System, s: Step, p: Place)
    requires Enabled(g, s) && IsQueue(p) && p in g.lists
    requires s.PlaceOne? || s.GiveOne? || s.BackOne?
    ensures p in Apply(g, s).lists
    ensures g.lists[p] + Arriving(g, s, p) == Apply(g, s).lists[p] && Leaving(g, s, p) == []
  {
  }

  // ---------- arriving and leaving are changes of place ----------

  lemma ArrivingElsewhere(g: System, s: Step, p: Place, t: nat)
    requires Inv(g) && Enabled(g, s) && IsQueue(p) && t in Arriving(g, s, p)
    ensures t in g.threads && g.threads[t].place != p
  {
    hide Inv, Lists, Shape, Exclusive, HandOk, IsList;
    InvAt(g, s.c);
    if !s.SwitchPlace? { HeadAt(g, Hand(s.c)); }
  }

  lemma LeavingListed(g: System, s: Step, p: Place, t: nat)
    requires Enabled(g, s) && p in g.lists && t in Leaving(g, s, p)
    ensures Arriving(g, s, p) == [] && Leaving(g, s, p) == [t]
    ensures var l := g.lists[p]; l != [] && t == if TakesLast(s, p) then l[|l| - 1] else l[0]
  {
  }

  lemma Parts(l: seq<nat>, a: seq<nat>, d: seq<nat>, l': seq<nat>, last: bool, t: nat)
    requires NoDup(l) && NoDup(l')
    requires if last then l == l' + d && a == [] else l + a == d + l'
    requires t in a ==> t !in l
    requires t in d ==> a == [] && d == [t] && l != [] && t == if last then l[|l| - 1] else l[0]
    ensures t in a <==> t in l' && t !in l
    ensures t in d <==> t in l && t !in l'
  {
    assert t in l + a <==> t in l || t in a;
    assert t in d + l' <==> t in d || t in l';
    assert t in l' + d <==> t in d || t in l';
    if t in d {
      assert l + a == l;
      forall k | 0 <= k < |l'| ensures l'[k] != t {
        assert l'[k] == if last then l[k] else l[k + 1];
      }
    }
  }

  /** The threads that arrive are those whose place becomes the list. */
  lemma ArrivesIff(g: System, s: Step, p: Place, t: nat)
    requires Inv(g) && Enabled(g, s) && IsQueue(p) && p in g.lists
    ensures var g' := Apply(g, s);
      t in Arriving(g, s, p) <==>
        (t in g'.threads && g'.threads[t].place == p && !(t in g.threads && g.threads[t].place == p))
  {
    StepQueue(g, s, p);
    StepKeeps(g, s);
    hide Inv, Enabled, Apply, Arriving, Leaving;
    var g' := Apply(g, s);
    ListedAt(g, p, t);
    ListedAt(g', p, t);
    if t in Arriving(g, s, p) { ArrivingElsewhere(g, s, p, t); }
    if t in Leaving(g, s, p) { LeavingListed(g, s, p, t); }
    Parts(g.lists[p], Arriving(g, s, p), Leaving(g, s, p), g'.lists[p], TakesLast(s, p), t);
  }

  /** The threads that leave are those whose place stops being the list, or that are destroyed. */
  lemma LeavesIff(g: System, s: Step, p: Place, t: nat)
    requires Inv(g) && Enabled(g, s) && IsQueue(p) && p in g.lists
    ensures var g' := Apply(g, s);
      t in Leaving(g, s, p) <==>
        (t in g.threads && g.threads[t].place == p && !(t in g'.threads && g'.threads[t].place == p))
  {
    StepQueue(g, s, p);
    StepKeeps(g, s);
    hide Inv, Enabled, Apply, Arriving, Leaving;
    var g' := Apply(g, s);
    ListedAt(g, p, t);
    ListedAt(g', p, t);
    if t in Arriving(g, s, p) { ArrivingElsewhere(g, s, p, t); }
    if t in Leaving(g, s, p) { LeavingListed(g, s, p, t); }
    Parts(g.lists[p], Arriving(g, s, p), Leaving(g, s, p), g'.lists[p], TakesLast(s, p), t);
  }

  lemma ListedAt(g: System, p: Place, t: nat)
    requires Inv(g) && p in g.lists
    ensures NoDup(g.lists[p])
    ensures t in g.lists[p] <==> t in g.threads && g.threads[t].place == p
  {
    assert IsList(g.threads, g.lists[p], p);
  }

  // ---------- whole runs ----------

  /** A run with its steps named. */
  ghost predicate IsTrace(gs: seq<System>, ss: seq<Step>) {
    |gs| == |ss| + 1 && forall i :: 0 <= i < |ss| ==> Enabled(gs[i], ss[i]) && gs[i + 1] == Apply(gs[i], ss[i])
  }

  /** The threads that came to `p` between two moments of a run, in the order in which they came. */
  ghost function Came(gs: seq<System>, ss: seq<Step>, p: Place, i: nat, j: nat): seq<nat>
    requires IsTrace(gs, ss) && i <= j <= |ss|
    decreases j - i
  {
    if i == j then [] else Came(gs, ss, p, i, j - 1) + Arriving(gs[j - 1], ss[j - 1], p)
  }

  /** The threads that left it, in the order in which they left. */
  ghost function Left(gs: seq<System>, ss: seq<Step>, p: Place, i: nat, j: nat): seq<nat>
    requires IsTrace(gs, ss) && i <= j <= |ss|
    decreases j - i
  {
    if i == j then [] else Left(gs, ss, p, i, j - 1) + Leaving(gs[j - 1], ss[j - 1], p)
  }

  ghost predicate NoneTakenLast(ss: seq<Step>, p: Place, i: nat, j: nat)
    requires i <= j <= |ss|
  {
    forall k :: i <= k < j ==> !TakesLast(ss[k], p)
  }

  /** While no migration takes from it, a list is first in, first out. */
  lemma {:induction false} FirstInFirstOut(gs: seq<System>, ss: seq<Step>, p: Place, i: nat, j: nat)
    requires IsTrace(gs, ss) && i <= j <= |ss| && IsQueue(p) && p in gs[i].lists && NoneTakenLast(ss, p, i, j)
    ensures p in gs[j].lists && gs[i].lists[p] + Came(gs, ss, p, i, j) == Left(gs, ss, p, i, j) + gs[j].lists[p]
    ensures Left(gs, ss, p, i, j) <= gs[i].lists[p] + Came(gs, ss, p, i, j)
    decreases j - i
  {
    hide Enabled, Apply, Arriving, Leaving;
    if i < j {
      var k := j - 1;
      FirstInFirstOut(gs, ss, p, i, k);
      assert Enabled(gs[k], ss[k]) && gs[k + 1] == Apply(gs[k], ss[k]);
      StepQueue(gs[k], ss[k], p);
      Chained(gs[i].lists[p], Came(gs, ss, p, i, k), Left(gs, ss, p, i, k), gs[k].lists[p],
        Arriving(gs[k], ss[k], p), Leaving(gs[k], ss[k], p), gs[j].lists[p]);
    }
  }

  lemma Chained(l: seq<nat>, came: seq<nat>, left: seq<nat>, m: seq<nat>, a: seq<nat>, d: seq<nat>, n: seq<nat>)
    requires l + came == left + m && m + a == d + n
    ensures l + (came + a) == (left + d) + n
  {
    assert l + (came + a) == (l + came) + a;
    assert left + (m + a) == (left + m) + a;
    assert left + (d + n) == (left + d) + n;
  }

  /** A wait channel or a zombie list is a queue in every run: nobody is woken before an earlier sleeper. */
  lemma WokenInOrder(gs: seq<System>, ss: seq<Step>, p: Place, i: nat, j: nat)
    requires IsTrace(gs, ss) && i <= j <= |ss| && (p.Channel? || p.Zombies?) && p in gs[i].lists
    ensures p in gs[j].lists && gs[i].lists[p] + Came(gs, ss, p, i, j) == Left(gs, ss, p, i, j) + gs[j].lists[p]
    ensures Left(gs, ss, p, i, j) <= gs[i].lists[p] + Came(gs, ss, p, i, j)
  {
    hide IsTrace, Came, Left;
    FirstInFirstOut(gs, ss, p, i, j);
  }
}
