/**
  Semaphores (kern/thread/synch.c:89-135), as a step machine over any number of threads. The spinlock is explicit:
  only its holder is past the acquisition, and going to sleep puts the thread on the wait
  channel and releases the spinlock in one step (thread.c:619-631).
*/
module Semaphore {
  import opened Basics
  import opened Words

  /** Where a thread is in P or V. */
  datatype Phase =
    | Outside
    | WantP
    | WantV
    | Testing     // P, lock held, about to test the count
    | Sleeping
    | Woken       // taken off the channel, lock not yet reacquired
    | Adding      // V, lock held
    | Waking      // V, count raised, about to wake one sleeper

  datatype State = State(
    count: nat,
    sleepers: seq<nat>,
    lock: Option<nat>,
    phase: map<nat, Phase>,
    initial: nat, ps: nat, vs: nat,  // completed decrements and increments
    woken: set<nat>,                 // threads woken and yet to test again
    holders: set<nat>                // for the sleep lock: acquired and not released
  )

  datatype Step =
    | StartP(t: nat) | StartV(t: nat) | Lock(t: nat)
    | Take(t: nat) | GoToSleep(t: nat)
    | Add(t: nat) | Wake(t: nat)

  predicate Enabled(s: State, e: Step) {
    && e.t in s.phase
    && var p := s.phase[e.t];
    match e
    case StartP(_) => p.Outside?
    case StartV(_) => p.Outside?
    case Lock(_) => s.lock.None? && (p.WantP? || p.WantV? || p.Woken?)
    case Take(_) => p.Testing? && s.count > 0
    case GoToSleep(_) => p.Testing? && s.count == 0
    case Add(_) => p.Adding? && s.count + 1 < WORD
    case Wake(_) => p.Waking?
  }

  function Apply(s: State, e: Step): State
    requires Enabled(s, e)
  {
    var t := e.t;
    match e
    case StartP(_) => s.(phase := s.phase[t := WantP])
    case StartV(_) => s.(phase := s.phase[t := WantV])
    case Lock(_) => s.(lock := Some(t), phase := s.phase[t := if s.phase[t].WantV? then Adding else Testing])
    case Take(_) =>
      s.(count := s.count - 1, ps := s.ps + 1, lock := None, phase := s.phase[t := Outside],
         woken := s.woken - {t}, holders := s.holders + {t})
    case GoToSleep(_) =>
      s.(sleepers := s.sleepers + [t], lock := None, phase := s.phase[t := Sleeping], woken := s.woken - {t})
    case Add(_) =>
      s.(count := s.count + 1, vs := s.vs + 1, phase := s.phase[t := Waking], holders := s.holders - {t})
    case Wake(_) =>
      var s1 := s.(lock := None, phase := s.phase[t := Outside]);
      if s.sleepers == [] then s1
      else
        s1.(sleepers := s.sleepers[1..], phase := s1.phase[s.sleepers[0] := Woken], woken := s.woken + {s.sleepers[0]})
  }

  // ---------- the invariant ----------

  predicate HasLock(p: Phase) { p.Testing? || p.Adding? || p.Waking? }

  /** The spinlock's holder is the one thread inside. */
  ghost predicate LockOk(s: State) {
    forall t :: t in s.phase ==> (HasLock(s.phase[t]) <==> s.lock == Some(t))
  }

  ghost predicate ListsOk(s: State) {
    && NoDup(s.sleepers)
    && (forall t :: t in s.sleepers <==> t in s.phase && s.phase[t].Sleeping?)
    && (forall t :: t in s.woken ==> t in s.phase && (s.phase[t].Woken? || s.phase[t].Testing?))
    && (forall t :: t in s.phase && s.phase[t].Woken? ==> t in s.woken)
  }

  function MidV(s: State): nat {
    if s.lock.Some? && s.lock.value in s.phase && s.phase[s.lock.value].Waking? then 1 else 0
  }

  /** Whoever sleeps, sleeps rightly: every unit of the count is somebody's to come and take. */
  ghost predicate NoneLost(s: State) {
    s.sleepers != [] ==> s.count <= |s.woken| + MidV(s)
  }

  ghost predicate Inv(s: State) {
    && s.count + s.ps == s.initial + s.vs
    && s.count < WORD
    && LockOk(s) && ListsOk(s) && NoneLost(s)
  }

  lemma StepKeeps(s: State, e: Step)
    requires Inv(s) && Enabled(s, e)
    ensures Inv(Apply(s, e)) && Apply(s, e).initial == s.initial
  {
    LockKept(s, e);
    ListsKept(s, e);
    LostKept(s, e);
  }

  lemma LockKept(s: State, e: Step)
    requires LockOk(s) && ListsOk(s) && Enabled(s, e)
    ensures LockOk(Apply(s, e))
  {
    if s.sleepers != [] { assert s.sleepers[0] in s.sleepers; }
  }

  lemma ListsKept(s: State, e: Step)
    requires LockOk(s) && ListsOk(s) && Enabled(s, e)
    ensures ListsOk(Apply(s, e))
  {
    if s.sleepers != [] {
      assert s.sleepers[0] in s.sleepers;
      assert s.sleepers == [s.sleepers[0]] + s.sleepers[1..];
    }
  }

  lemma LostKept(s: State, e: Step)
    requires LockOk(s) && ListsOk(s) && NoneLost(s) && Enabled(s, e)
    ensures NoneLost(Apply(s, e))
  {
    if s.sleepers != [] { assert s.sleepers[0] in s.sleepers; }
  }

  // ---------- runs ----------

  ghost predicate Start(s: State) {
    && s.count == s.initial < WORD && s.ps == 0 && s.vs == 0
    && s.sleepers == [] && s.lock.None? && s.woken == {} && s.holders == {}
    && forall t :: t in s.phase ==> s.phase[t].Outside?
  }

  ghost predicate Next(s: State, s': State) {
    exists e :: Enabled(s, e) && s' == Apply(s, e)
  }

  ghost predicate Run(ss: seq<State>) {
    ss != [] && Start(ss[0]) && forall i :: 0 <= i < |ss| - 1 ==> Next(ss[i], ss[i + 1])
  }

  /** In every run the count is conserved and no wakeup is lost. */
  lemma {:induction false} RunKeeps(ss: seq<State>, i: nat)
    requires Run(ss) && i < |ss|
    ensures Inv(ss[i]) && ss[i].initial == ss[0].initial
    ensures ss[i].count + ss[i].ps == ss[0].count + ss[i].vs
    ensures ss[i].sleepers != [] && ss[i].lock.None? ==> ss[i].count <= |ss[i].woken|
  {
    if i > 0 {
      RunKeeps(ss, i - 1);
      var k := i - 1;
      assert Next(ss[k], ss[k + 1]);
      var e :| Enabled(ss[k], e) && ss[k + 1] == Apply(ss[k], e);
      hide Enabled, Apply;
      StepKeeps(ss[k], e);
    }
  }

  /** A run that ends in `s`. */
  ghost predicate Reaches(ss: seq<State>, s0: State, s: State) {
    Run(ss) && ss[0] == s0 && ss[|ss| - 1] == s
  }

  lemma Extend(ss: seq<State>, s0: State, s: State, e: Step) returns (ss': seq<State>)
    requires Reaches(ss, s0, s) && Enabled(s, e)
    ensures Reaches(ss', s0, Apply(s, e)) && ss' == ss + [Apply(s, e)]
  {
    ss' := ss + [Apply(s, e)];
    assert Next(s, Apply(s, e));
    hide Next, Enabled, Apply;
    forall i | 0 <= i < |ss'| - 1 ensures Next(ss'[i], ss'[i + 1]) {
      if i < |ss| - 1 { assert ss'[i] == ss[i] && ss'[i + 1] == ss[i + 1]; }
    }
  }
}
