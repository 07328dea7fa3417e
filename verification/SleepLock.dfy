/**
  The sleep lock (kern/thread/synch.c:137-250): the protocol of the semaphore from a count of
  1, without a record of the holder. Exactly when it excludes, and exactly when lock_do_i_hold
  tells the truth.
*/
module SleepLock {
  import opened Basics
  import opened Words
  import opened Semaphore

  /** What there is to hold, and what is held; 1 for a lock in order. */
  function Units(s: State): nat { |s.holders| + s.count }

  /** The step is no release, or a release by a thread that holds the lock. */
  predicate ByHolder(s: State, e: Step) { e.Add? ==> e.t in s.holders }

  /** A release keeps the lock in order if and only if the releaser holds it; nothing else can disturb it. */
  lemma UnitsStep(s: State, e: Step)
    requires Enabled(s, e) && Units(s) == 1
    ensures Units(Apply(s, e)) == if ByHolder(s, e) then 1 else 2
  {
    if e.Take? {
      assert s.holders == {};
    } else if e.Add? && e.t !in s.holders {
      assert s.holders - {e.t} == s.holders;
    }
  }

  /** A run of the lock with its steps named. */
  ghost predicate Trace(ss: seq<State>, es: seq<Step>) {
    && |ss| == |es| + 1 && Start(ss[0]) && ss[0].initial == 1
    && forall i :: 0 <= i < |es| ==> Enabled(ss[i], es[i]) && ss[i + 1] == Apply(ss[i], es[i])
  }

  ghost predicate InOrder(ss: seq<State>, n: nat)
    requires n < |ss|
  {
    forall i :: 0 <= i <= n ==> Units(ss[i]) == 1
  }

  ghost predicate HoldersRelease(ss: seq<State>, es: seq<Step>, n: nat)
    requires n <= |es| < |ss|
  {
    forall i :: 0 <= i < n ==> ByHolder(ss[i], es[i])
  }

  /** The lock is in order up to a moment of a run if and only if every release before was by a holder. */
  lemma {:induction false} InOrderIff(ss: seq<State>, es: seq<Step>, n: nat)
    requires Trace(ss, es) && n <= |es|
    ensures InOrder(ss, n) <==> HoldersRelease(ss, es, n)
  {
    hide Enabled, Apply, Units, ByHolder;
    if n == 0 {
      StartUnits(ss[0]);
    } else {
      var k := n - 1;
      InOrderIff(ss, es, k);
      if InOrder(ss, k) {
        assert Units(ss[k]) == 1;
        UnitsStep(ss[k], es[k]);
        assert InOrder(ss, n) <==> Units(ss[k + 1]) == 1;
        assert HoldersRelease(ss, es, n) <==> ByHolder(ss[k], es[k]);
      }
    }
  }

  lemma StartUnits(s: State)
    requires Start(s) && s.initial == 1
    ensures Units(s) == 1
  {
  }

  /** Then at most one thread holds it, and none while the count is 1. */
  lemma LockExcludes(ss: seq<State>, es: seq<Step>, n: nat, t: nat, u: nat)
    requires Trace(ss, es) && n <= |es| && HoldersRelease(ss, es, n)
    ensures t in ss[n].holders && u in ss[n].holders ==> t == u
    ensures ss[n].count == 1 <==> ss[n].holders == {}
    ensures ss[n].count <= 1
  {
    InOrderIff(ss, es, n);
    assert Units(ss[n]) == 1;
    hide Trace;
    AtMostOne(ss[n], t, u);
  }

  lemma AtMostOne(s: State, t: nat, u: nat)
    requires Units(s) == 1
    ensures t in s.holders && u in s.holders ==> t == u
    ensures s.count == 1 <==> s.holders == {}
    ensures s.count <= 1
  {
    if t in s.holders {
      assert |s.holders - {t}| == 0;
      assert s.holders == {t};
    }
  }

  // ---------- a stranger's release ----------

  lemma ReachedInv(ss: seq<State>, s0: State, s: State)
    requires Reaches(ss, s0, s)
    ensures Inv(s)
  {
    hide Inv;
    RunKeeps(ss, |ss| - 1);
  }

  /** A thread on its way in takes the lock, undisturbed. */
  lemma Enters(ss: seq<State>, s0: State, s: State, t: nat) returns (ss': seq<State>, s': State)
    requires Reaches(ss, s0, s) && s.lock.None? && 0 < s.count
    requires t in s.phase && (s.phase[t].WantP? || s.phase[t].Woken?)
    ensures Reaches(ss', s0, s') && ss <= ss' && s'.lock.None? && s'.count == s.count - 1
    ensures s'.holders == s.holders + {t} && s'.phase == s.phase[t := Outside]
  {
    hide Reaches;
    var s1 := Apply(s, Lock(t));
    ss' := Extend(ss, s0, s, Lock(t));
    ss' := Extend(ss', s0, s1, Take(t));
    s' := Apply(s1, Take(t));
    assert s'.phase == s.phase[t := Outside];
  }

  lemma EntersFromOutside(ss: seq<State>, s0: State, s: State, t: nat) returns (ss': seq<State>, s': State)
    requires Reaches(ss, s0, s) && s.lock.None? && 0 < s.count && t in s.phase && s.phase[t].Outside?
    ensures Reaches(ss', s0, s') && ss <= ss' && s'.lock.None? && s'.count == s.count - 1
    ensures s'.holders == s.holders + {t} && s'.phase == s.phase
  {
    hide Reaches;
    var s1 := Apply(s, StartP(t));
    ss' := Extend(ss, s0, s, StartP(t));
    ss', s' := Enters(ss', s0, s1, t);
    assert s1.phase[t := Outside] == s.phase;
  }

  /** What is left of a release after the count was raised. */
  lemma Leaves(ss: seq<State>, s0: State, s: State, t: nat) returns (ss': seq<State>, s': State)
    requires Reaches(ss, s0, s) && t in s.phase && s.phase[t].Waking?
    ensures Reaches(ss', s0, s') && ss <= ss' && s'.lock.None? && s'.count == s.count && s'.holders == s.holders
    ensures t in s'.phase && s'.phase[t].Outside?
    ensures forall u :: u in s.phase && u != t ==>
      u in s'.phase && s'.phase[u] == if s.sleepers != [] && u == s.sleepers[0] then Woken else s.phase[u]
  {
    ReachedInv(ss, s0, s);
    hide Reaches;
    ss' := Extend(ss, s0, s, Wake(t));
    s' := Apply(s, Wake(t));
    if s.sleepers != [] { assert s.sleepers[0] in s.sleepers; }
  }

  lemma EntersAfterRelease(ss: seq<State>, s0: State, s: State, t: nat) returns (ss': seq<State>, s': State)
    requires Reaches(ss, s0, s) && s.lock.None? && s.count + 1 < WORD && t in s.phase && s.phase[t].WantV?
    ensures Reaches(ss', s0, s') && ss <= ss' && s'.holders == s.holders + {t}
  {
    hide Reaches;
    var s1 := Apply(s, Lock(t));
    ss' := Extend(ss, s0, s, Lock(t));
    var s2 := Apply(s1, Add(t));
    ss' := Extend(ss', s0, s1, Add(t));
    var s3;
    ss', s3 := Leaves(ss', s0, s2, t);
    ss', s' := EntersFromOutside(ss', s0, s3, t);
    assert s.holders - {t} + {t} == s.holders + {t};
  }

  /** Whatever another thread is doing, it can become a holder next. */
  lemma AnyEnters(ss: seq<State>, s0: State, s: State, t: nat) returns (ss': seq<State>, s': State)
    requires Reaches(ss, s0, s) && s.lock.None? && 0 < s.count && s.count + 1 < WORD
    requires t in s.phase && !s.phase[t].Sleeping?
    ensures Reaches(ss', s0, s') && ss <= ss' && s'.holders == s.holders + {t}
  {
    ReachedInv(ss, s0, s);
    assert !HasLock(s.phase[t]);
    hide Reaches, Inv;
    match s.phase[t]
    case Outside => ss', s' := EntersFromOutside(ss, s0, s, t);
    case WantV => ss', s' := EntersAfterRelease(ss, s0, s, t);
    case _ => ss', s' := Enters(ss, s0, s, t);
  }

  /**
    The first release by a thread that does not hold the lock, in any run and whatever the
    other threads are doing, can be followed by two threads holding it, as soon as there is a
    second thread at all.
  */
  lemma StrangerBreaks(ss: seq<State>, s0: State, s: State, t: nat, u: nat) returns (ss': seq<State>, s': State)
    requires Reaches(ss, s0, s) && Units(s) == 1
    requires Enabled(s, Add(t)) && t !in s.holders && u in s.phase && u != t
    ensures Reaches(ss', s0, s') && ss + [Apply(s, Add(t))] <= ss' && 2 <= |s'.holders|
  {
    ReachedInv(ss, s0, s);
    hide Reaches;
    var s1 := Apply(s, Add(t));
    ss' := Extend(ss, s0, s, Add(t));
    var s2;
    ss', s2 := Leaves(ss', s0, s1, t);
    assert s.holders - {t} == s.holders;
    var s3;
    ss', s3 := EntersFromOutside(ss', s0, s2, t);
    if |s.holders| == 1 {
      s' := s3;
    } else {
      assert s.holders == {};
      var x := if s.phase[u].Sleeping? then s.sleepers[0] else u;
      assert x in s.phase && x != t && !s3.phase[x].Sleeping? by {
        if s.phase[u].Sleeping? { assert u in s.sleepers && s.sleepers[0] in s.sleepers; }
      }
      ss', s' := AnyEnters(ss', s0, s3, x);
      assert s'.holders == {t, x};
    }
  }

  /** It happens: two threads, the lock free, and one of them releases it. */
  lemma ReleaseByStranger() returns (ss: seq<State>, s: State)
    ensures Run(ss) && ss[0].initial == 1 && ss[|ss| - 1] == s && 2 <= |s.holders|
  {
    var s0 := State(1, [], None, map[0 := Outside, 1 := Outside], 1, 0, 0, {}, {});
    ss := [s0];
    assert Reaches(ss, s0, s0);
    var s1 := Apply(s0, StartV(0));
    ss := Extend(ss, s0, s0, StartV(0));
    var s2 := Apply(s1, Lock(0));
    ss := Extend(ss, s0, s1, Lock(0));
    ss, s := StrangerBreaks(ss, s0, s2, 0, 1);
  }

  // ---------- lock_do_i_hold ----------

  /** lock_do_i_hold called by `t`, where `creator` is the thread that created the lock. */
  predicate DoIHold(s: State, creator: nat, t: nat) { s.count != 1 && t == creator }

  ghost predicate TellsTruth(s: State, creator: nat) {
    forall t :: DoIHold(s, creator, t) <==> t in s.holders
  }

  /** Of a lock in order it tells everybody the truth if and only if the lock is free or its creator's. */
  lemma TruthIff(s: State, creator: nat)
    requires Units(s) == 1
    ensures TellsTruth(s, creator) <==> s.count == 1 || creator in s.holders
  {
    if s.count == 0 {
      assert DoIHold(s, creator, creator);
      if creator in s.holders {
        assert |s.holders - {creator}| == 0;
        assert s.holders == {creator};
      }
    }
  }

  ghost predicate OnlyTakenBy(es: seq<Step>, n: nat, creator: nat)
    requires n <= |es|
  {
    forall i :: 0 <= i < n ==> es[i].Take? ==> es[i].t == creator
  }

  ghost predicate AlwaysTrue(ss: seq<State>, n: nat, creator: nat)
    requires n < |ss|
  {
    forall i :: 0 <= i <= n ==> TellsTruth(ss[i], creator)
  }

  lemma TruthStep(s: State, e: Step, creator: nat)
    requires Enabled(s, e) && Units(s) == 1 && ByHolder(s, e) && TellsTruth(s, creator)
    ensures TellsTruth(Apply(s, e), creator) <==> (e.Take? ==> e.t == creator)
  {
    var s' := Apply(s, e);
    UnitsStep(s, e);
    TruthIff(s, creator);
    TruthIff(s', creator);
    hide TellsTruth;
    if e.Take? {
      assert s.holders == {} && s'.holders == {e.t};
    }
  }

  /** So in a run in order it never lies if and only if nobody but the creator ever takes the lock. */
  lemma {:induction false} DoIHoldIff(ss: seq<State>, es: seq<Step>, n: nat, creator: nat)
    requires Trace(ss, es) && n <= |es| && HoldersRelease(ss, es, n)
    ensures AlwaysTrue(ss, n, creator) <==> OnlyTakenBy(es, n, creator)
  {
    hide Enabled, Apply, Units, TellsTruth, ByHolder;
    InOrderIff(ss, es, n);
    assert Units(ss[0]) == 1 && Units(ss[n]) == 1;
    if n == 0 {
      StartTruth(ss[0], creator);
    } else {
      var k := n - 1;
      DoIHoldIff(ss, es, k, creator);
      if AlwaysTrue(ss, k, creator) {
        assert Units(ss[k]) == 1 && TellsTruth(ss[k], creator) && ByHolder(ss[k], es[k]);
        TruthStep(ss[k], es[k], creator);
        assert AlwaysTrue(ss, n, creator) <==> TellsTruth(ss[k + 1], creator);
        assert OnlyTakenBy(es, n, creator) <==> (es[k].Take? ==> es[k].t == creator);
      }
    }
  }

  /** A run in order in which it lies to both: the creator, 0, does not hold the lock, and thread 1 does. */
  lemma DoIHoldLies() returns (ss: seq<State>, s: State)
    ensures Run(ss) && ss[0].initial == 1 && ss[|ss| - 1] == s && s.holders == {1} && Units(s) == 1
    ensures DoIHold(s, 0, 0) && !DoIHold(s, 0, 1)
  {
    var s0 := State(1, [], None, map[0 := Outside, 1 := Outside], 1, 0, 0, {}, {});
    ss := [s0];
    assert Reaches(ss, s0, s0);
    ss, s := EntersFromOutside(ss, s0, s0, 1);
    assert s0.holders + {1} == {1};
  }

  lemma StartTruth(s: State, creator: nat)
    requires Start(s) && s.initial == 1
    ensures TellsTruth(s, creator)
  {
  }
}
