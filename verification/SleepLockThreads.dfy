/**
  The sleep lock on the thread system (kern/thread/synch.c:182-225): its code is that of the
  semaphore, run by the CPUs from a count of 1. Exactly when it excludes there.
*/
module SleepLockThreads {
  import opened ThreadSystem
  import opened SemaphoreThreads
  import L = SleepLock

  /** The step is no release, or a release by a caller that holds the lock. */
  ghost predicate ByHolder(x: Sem, v: World, act: Act) {
    act.AddUnit? ==> act.c in v.g.cpus && Caller(x, v.g, act.c) in v.a.holders
  }

  /** Seen from the lock, a step of the CPUs is none of its steps, or one that releases if and only if this one does. */
  lemma ActUnits(x: Sem, v: World, v': World, act: Act)
    requires Next(x, v, v', act) && L.Units(v.a) == 1
    ensures L.Units(v'.a) == if ByHolder(x, v, act) then 1 else 2
  {
    match act
    case AddUnit(c) =>
      hide Adds;
      AddUnits(x, v, v', c);
    case TakeUnit(c) =>
      hide Takes;
      TakeUnits(x, v, v', c);
    case _ =>
      hide Enabled, Apply, Concerns, Inside, Runs, At;
  }

  lemma AddUnits(x: Sem, v: World, v': World, c: nat)
    requires Adds(x, v, v', c) && L.Units(v.a) == 1
    ensures L.Units(v'.a) == if ByHolder(x, v, AddUnit(c)) then 1 else 2
  {
    var t := Caller(x, v.g, c);
    if t !in v.a.holders { assert v.a.holders - {t} == v.a.holders; }
  }

  lemma TakeUnits(x: Sem, v: World, v': World, c: nat)
    requires Takes(x, v, v', c) && L.Units(v.a) == 1
    ensures L.Units(v'.a) == 1
  {
    hide Enabled, Apply;
    assert v.a.holders == {};
  }

  /** A run with its steps named, from a fresh lock. */
  ghost predicate Trace(x: Sem, vs: seq<World>, acts: seq<Act>) {
    && |vs| == |acts| + 1 && Start(x, vs[0]) && vs[0].a.initial == 1
    && forall i :: 0 <= i < |acts| ==> Next(x, vs[i], vs[i + 1], acts[i])
  }

  ghost predicate InOrder(vs: seq<World>, n: nat)
    requires n < |vs|
  {
    forall i :: 0 <= i <= n ==> L.Units(vs[i].a) == 1
  }

  ghost predicate HoldersRelease(x: Sem, vs: seq<World>, acts: seq<Act>, n: nat)
    requires n <= |acts| < |vs|
  {
    forall i :: 0 <= i < n ==> ByHolder(x, vs[i], acts[i])
  }

  /** On the CPUs, among any other threads, the lock is in order up to a moment if and only if every release before was by a holder. */
  lemma {:induction false} InOrderIff(x: Sem, vs: seq<World>, acts: seq<Act>, n: nat)
    requires Trace(x, vs, acts) && n <= |acts|
    ensures InOrder(vs, n) <==> HoldersRelease(x, vs, acts, n)
  {
    if n == 0 {
      L.StartUnits(vs[0].a);
    } else {
      hide Start, Next, L.Units, ByHolder;
      var k := n - 1;
      InOrderIff(x, vs, acts, k);
      if InOrder(vs, k) {
        assert L.Units(vs[k].a) == 1;
        ActUnits(x, vs[k], vs[k + 1], acts[k]);
        assert InOrder(vs, n) <==> L.Units(vs[k + 1].a) == 1;
        assert HoldersRelease(x, vs, acts, n) <==> ByHolder(x, vs[k], acts[k]);
      }
    }
  }

  /** Then at most one caller holds it, whatever CPUs they run on. */
  lemma OneHolder(x: Sem, vs: seq<World>, acts: seq<Act>, n: nat, t: nat, u: nat)
    requires Trace(x, vs, acts) && n <= |acts| && HoldersRelease(x, vs, acts, n)
    ensures t in vs[n].a.holders && u in vs[n].a.holders ==> t == u
    ensures vs[n].a.count == 1 <==> vs[n].a.holders == {}
  {
    InOrderIff(x, vs, acts, n);
    assert L.Units(vs[n].a) == 1;
    hide Trace, HoldersRelease, InOrder;
    L.AtMostOne(vs[n].a, t, u);
  }
}
