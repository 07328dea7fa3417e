/**
  thread_consider_migration (kern/thread/thread.c:878-980). The run queues' locks are taken
  one at a time, so each queue is an input as found when its lock is obtained: `counted` for
  the census, `mine` for taking the victims, `theirs` for handing them out, and `arrivals`
  for what others have meanwhile put on the sender's own queue.
*/
module Migration {
  import opened Basics

  // ---------- counting ----------

  function Sum(qs: seq<seq<nat>>): nat {
    if qs == [] then 0 else Sum(qs[..|qs| - 1]) + |qs[|qs| - 1]|
  }

  function DivRoundUp(a: nat, b: nat): nat
    requires 0 < b
  {
    (a + b - 1) / b
  }

  lemma DivRoundUpEnough(a: nat, b: nat)
    requires 0 < b
    ensures a <= DivRoundUp(a, b) * b < a + b
  {
  }

  /** The census loop. */
  method Census(counted: seq<seq<nat>>, me: nat) returns (my: nat, total: nat)
    requires me < |counted|
    ensures my == |counted[me]| && total == Sum(counted)
  {
    my, total := 0, 0;
    for i := 0 to |counted|
      invariant total == Sum(counted[..i])
      invariant i > me ==> my == |counted[me]|
    {
      assert counted[..i + 1][..i] == counted[..i];
      total := total + |counted[i]|;
      if i == me {
        my := |counted[i]|;
      }
    }
    assert counted[..|counted|] == counted;
  }

  // ---------- conservation ----------

  function Flat(qs: seq<seq<nat>>): multiset<nat> {
    if qs == [] then multiset{} else multiset(qs[0]) + Flat(qs[1..])
  }

  lemma AddToBoth(a: multiset<nat>, b: multiset<nat>, c: multiset<nat>, d: multiset<nat>, e: multiset<nat>)
    requires b + c == d + e
    ensures (a + b) + c == (a + d) + e
  {
    assert (a + b) + c == a + (b + c);
  }

  /** What one queue gains, the victims lose. */
  lemma MovedOver(f: multiset<nat>, f': multiset<nat>, q: multiset<nat>, s: multiset<nat>, v: multiset<nat>, v': multiset<nat>)
    requires f' + q == f + (q + s) && s + v' == v
    ensures f' + v' == f + v
  {
    forall x ensures (f' + v')[x] == (f + v)[x] {
      assert (f' + q)[x] == f'[x] + q[x] && (f + (q + s))[x] == f[x] + q[x] + s[x];
      assert (s + v')[x] == s[x] + v'[x];
    }
  }

  lemma {:induction false} FlatUpdate(qs: seq<seq<nat>>, i: nat, q: seq<nat>)
    requires i < |qs|
    ensures Flat(qs[i := q]) + multiset(qs[i]) == Flat(qs) + multiset(q)
  {
    if i == 0 {
      assert qs[i := q][1..] == qs[1..];
    } else {
      assert qs[i := q][1..] == qs[1..][i - 1 := q];
      FlatUpdate(qs[1..], i - 1, q);
      AddToBoth(multiset(qs[0]), Flat(qs[1..][i - 1 := q]), multiset(qs[i]), Flat(qs[1..]), multiset(q));
    }
  }

  // ---------- handing out ----------

  /** There is a victim for every thread still to send; one spare victim can only be curthread. */
  ghost predicate Stocked(victims: seq<nat>, toSend: nat, cur: nat) {
    && NoDup(victims)
    && (|victims| == toSend || (|victims| == toSend + 1 && victims[toSend] == cur))
  }

  /** Exactly the threads of `sent` have been given the CPU `c`. */
  ghost predicate Assigned(before: map<nat, nat>, after: map<nat, nat>, sent: seq<nat>, c: nat) {
    && (forall t :: t in sent ==> t in after && after[t] == c)
    && (forall t :: t in before && t !in sent ==> t in after && after[t] == before[t])
  }

  /** What is left of one other queue, the victims and the number to send when that queue is filled up to the share. */
  datatype Dealt<T> = Dealt(to: T, victims: seq<nat>, toSend: nat)

  function Delivered(q: seq<nat>, victims: seq<nat>, toSend: nat, share: nat, cur: nat): (r: Dealt<seq<nat>>)
    requires toSend <= |victims|
    ensures r.toSend <= |r.victims|
    decreases toSend
  {
    if |q| >= share || toSend == 0 then Dealt(q, victims, toSend)
    else if victims[0] == cur then Delivered(q, victims[1..] + [cur], toSend - 1, share, cur)
    else Delivered(q + [victims[0]], victims[1..], toSend - 1, share, cur)
  }

  /** The same over all other queues, from CPU `i` on. */
  function HandedOut(qs: seq<seq<nat>>, i: nat, me: nat, victims: seq<nat>, toSend: nat, share: nat, cur: nat): (r: Dealt<seq<seq<nat>>>)
    requires toSend <= |victims|
    ensures |r.to| == |qs| && r.toSend <= |r.victims|
    decreases |qs| - i
  {
    if i >= |qs| || toSend == 0 then Dealt(qs, victims, toSend)
    else if i == me then HandedOut(qs, i + 1, me, victims, toSend, share, cur)
    else
      var d := Delivered(qs[i], victims, toSend, share, cur);
      HandedOut(qs[i := d.to], i + 1, me, d.victims, d.toSend, share, cur)
  }

  /** What filling one queue comes to. */
  ghost predicate Fills(q: seq<nat>, victims: seq<nat>, toSend: nat, share: nat, cur: nat, r: Dealt<seq<nat>>) {
    && q <= r.to && cur !in r.to[|q|..]
    && multiset(r.to[|q|..]) + multiset(r.victims) == multiset(victims)
    && Stocked(r.victims, r.toSend, cur) && r.toSend <= toSend
    && |r.to| <= Max(|q|, share)
    && (r.toSend == 0 || share <= |r.to|)
    && |r.to| - |q| <= toSend - r.toSend
    && (cur in r.victims <==> cur in victims)
  }

  lemma {:induction false} DeliveredFills(q: seq<nat>, victims: seq<nat>, toSend: nat, share: nat, cur: nat)
    requires Stocked(victims, toSend, cur) && toSend <= |victims|
    ensures Fills(q, victims, toSend, share, cur, Delivered(q, victims, toSend, share, cur))
    decreases toSend
  {
    hide Stocked, Delivered, Fills;
    if |q| >= share || toSend == 0 {
      DeliveredEnd(q, victims, toSend, share, cur);
      FillsNothing(q, victims, toSend, share, cur);
    } else {
      TailStocked(victims, toSend, cur);
      DeliveredStep(q, victims, toSend, share, cur);
      if victims[0] == cur {
        DeliveredFills(q, victims[1..] + [cur], toSend - 1, share, cur);
        FillsPast(q, victims, toSend, share, cur, Delivered(q, victims, toSend, share, cur));
      } else {
        DeliveredFills(q + [victims[0]], victims[1..], toSend - 1, share, cur);
        FillsOne(q, victims, toSend, share, cur, Delivered(q, victims, toSend, share, cur));
      }
    }
  }

  lemma FillsNothing(q: seq<nat>, victims: seq<nat>, toSend: nat, share: nat, cur: nat)
    requires Stocked(victims, toSend, cur) && (|q| >= share || toSend == 0)
    ensures Fills(q, victims, toSend, share, cur, Dealt(q, victims, toSend))
  {
    hide Stocked;
  }

  lemma FillsPast(q: seq<nat>, victims: seq<nat>, toSend: nat, share: nat, cur: nat, r: Dealt<seq<nat>>)
    requires victims != [] && victims[0] == cur && 0 < toSend && Fills(q, victims[1..] + [cur], toSend - 1, share, cur, r)
    ensures Fills(q, victims, toSend, share, cur, r)
  {
    hide Stocked;
    assert victims == [cur] + victims[1..];
    assert multiset(victims[1..] + [cur]) == multiset(victims);
  }

  lemma FillsOne(q: seq<nat>, victims: seq<nat>, toSend: nat, share: nat, cur: nat, r: Dealt<seq<nat>>)
    requires victims != [] && victims[0] != cur && 0 < toSend && |q| < share
    requires Fills(q + [victims[0]], victims[1..], toSend - 1, share, cur, r)
    ensures Fills(q, victims, toSend, share, cur, r)
  {
    hide Stocked;
    var t := victims[0];
    assert victims == [t] + victims[1..];
    assert r.to[|q|..] == [t] + r.to[|q| + 1..];
  }

  /** The loop that fills one other queue up to the share. */
  method Deliver(q0: seq<nat>, c: nat, victims0: seq<nat>, toSend0: nat, share: nat, cur: nat, cpuOf0: map<nat, nat>)
      returns (q: seq<nat>, victims: seq<nat>, toSend: nat, cpuOf: map<nat, nat>, ghost sent: seq<nat>)
    requires Stocked(victims0, toSend0, cur)
    ensures toSend0 <= |victims0| && Delivered(q0, victims0, toSend0, share, cur) == Dealt(q, victims, toSend)
    ensures Fills(q0, victims0, toSend0, share, cur, Dealt(q, victims, toSend))
    ensures q == q0 + sent && Assigned(cpuOf0, cpuOf, sent, c)
  {
    StockedEnough(victims0, toSend0, cur);
    DeliveredFills(q0, victims0, toSend0, share, cur);
    q, victims, toSend, cpuOf, sent := q0, victims0, toSend0, cpuOf0, [];
    assert Assigned(cpuOf0, cpuOf, sent, c);
    hide Stocked, Assigned, Delivered, Fills;
    while |q| < share && toSend > 0
      invariant toSend <= |victims| && q == q0 + sent && Assigned(cpuOf0, cpuOf, sent, c)
      invariant Delivered(q0, victims0, toSend0, share, cur) == Delivered(q, victims, toSend, share, cur)
      decreases toSend
    {
      DeliveredStep(q, victims, toSend, share, cur);
      var t := victims[0];
      victims := victims[1..];
      if t == cur {
        victims := victims + [t];
        toSend := toSend - 1;
        continue;
      }
      OneMoreAssigned(cpuOf0, cpuOf, sent, c, t);
      cpuOf := cpuOf[t := c];
      q := q + [t];
      sent := sent + [t];
      toSend := toSend - 1;
    }
    DeliveredEnd(q, victims, toSend, share, cur);
  }

  lemma DeliveredStep(q: seq<nat>, victims: seq<nat>, toSend: nat, share: nat, cur: nat)
    requires |q| < share && 0 < toSend <= |victims|
    ensures Delivered(q, victims, toSend, share, cur)
         == if victims[0] == cur then Delivered(q, victims[1..] + [cur], toSend - 1, share, cur)
            else Delivered(q + [victims[0]], victims[1..], toSend - 1, share, cur)
  {
  }

  lemma DeliveredEnd(q: seq<nat>, victims: seq<nat>, toSend: nat, share: nat, cur: nat)
    requires toSend <= |victims| && (|q| >= share || toSend == 0)
    ensures Delivered(q, victims, toSend, share, cur) == Dealt(q, victims, toSend)
  {
  }

  lemma HandedOutStep(qs: seq<seq<nat>>, i: nat, me: nat, victims: seq<nat>, toSend: nat, share: nat, cur: nat)
    requires i < |qs| && 0 < toSend <= |victims|
    ensures HandedOut(qs, i, me, victims, toSend, share, cur)
         == if i == me then HandedOut(qs, i + 1, me, victims, toSend, share, cur)
            else
              var d := Delivered(qs[i], victims, toSend, share, cur);
              HandedOut(qs[i := d.to], i + 1, me, d.victims, d.toSend, share, cur)
  {
    hide Delivered;
  }

  lemma HandedOutEnd(qs: seq<seq<nat>>, i: nat, me: nat, victims: seq<nat>, toSend: nat, share: nat, cur: nat)
    requires toSend <= |victims| && (i >= |qs| || toSend == 0)
    ensures HandedOut(qs, i, me, victims, toSend, share, cur) == Dealt(qs, victims, toSend)
  {
  }

  lemma StockedEnough(victims: seq<nat>, toSend: nat, cur: nat)
    requires Stocked(victims, toSend, cur)
    ensures toSend <= |victims|
  {
  }

  lemma OneMoreAssigned(before: map<nat, nat>, after: map<nat, nat>, sent: seq<nat>, c: nat, t: nat)
    requires Assigned(before, after, sent, c)
    ensures Assigned(before, after[t := c], sent + [t], c)
  {
  }

  lemma TailStocked(victims: seq<nat>, toSend: nat, cur: nat)
    requires Stocked(victims, toSend, cur) && 0 < toSend
    ensures victims != []
    ensures victims[0] != cur ==> Stocked(victims[1..], toSend - 1, cur)
    ensures victims[0] == cur ==> Stocked(victims[1..] + [cur], toSend - 1, cur)
  {
  }

  /** What the queues from `i` on, except the sender's, can still take. */
  function Room(qs: seq<seq<nat>>, me: nat, share: nat, i: nat): nat
    requires i <= |qs|
    decreases |qs| - i
  {
    if i == |qs| then 0
    else (if i != me && |qs[i]| < share then share - |qs[i]| else 0) + Room(qs, me, share, i + 1)
  }

  lemma {:induction false} RoomBound(qs: seq<seq<nat>>, me: nat, share: nat, i: nat)
    requires i <= |qs| && me < |qs|
    ensures Room(qs, me, share, i) + Sum(qs) - Sum(qs[..i]) - (if i <= me then |qs[me]| else 0)
         >= share * (|qs| - i - (if i <= me then 1 else 0))
    decreases |qs| - i
  {
    if i == |qs| {
      assert qs[..i] == qs;
    } else {
      RoomBound(qs, me, share, i + 1);
      assert qs[..i + 1][..i] == qs[..i];
      var k := |qs| - (i + 1) - (if i + 1 <= me then 1 else 0);
      assert share * (k + 1) == share * k + share;
    }
  }

  /** The other queues together have room for all that the sender has above the share. */
  lemma RoomEnough(qs: seq<seq<nat>>, me: nat, share: nat)
    requires me < |qs| && Sum(qs) <= share * |qs| && share <= |qs[me]|
    ensures |qs[me]| - share <= Room(qs, me, share, 0)
  {
    RoomBound(qs, me, share, 0);
    assert qs[..0] == [];
    assert share * |qs| == share * (|qs| - 1) + share;
  }

  /** A queue only gains threads, at its end, never curthread, and not beyond the share. */
  ghost predicate Receives(before: seq<nat>, after: seq<nat>, share: nat, cur: nat) {
    && before <= after
    && cur !in after[|before|..]
    && |after| <= Max(|before|, share)
  }

  /** Every thread of queue `q` has the CPU `c`. */
  ghost predicate HomeIs(cpuOf: map<nat, nat>, q: seq<nat>, c: nat) {
    forall t :: t in q ==> t in cpuOf && cpuOf[t] == c
  }

  ghost predicate Separate(p: seq<nat>, q: seq<nat>) {
    forall t :: t in p ==> t !in q
  }

  ghost predicate AllHome(cpuOf: map<nat, nat>, qs: seq<seq<nat>>, me: nat, victims: seq<nat>) {
    && HomeIs(cpuOf, victims, me)
    && (forall c :: 0 <= c < |qs| && c != me ==> HomeIs(cpuOf, qs[c], c) && Separate(qs[c], victims))
  }

  /** So far only victims have been given another CPU, and every queue holds its own CPU's threads. */
  ghost predicate Homes(cpuOf0: map<nat, nat>, cpuOf: map<nat, nat>, theirs: seq<seq<nat>>, out: seq<seq<nat>>, me: nat,
                        victims0: seq<nat>, victims: seq<nat>) {
    && (AllHome(cpuOf0, theirs, me, victims0) ==> AllHome(cpuOf, out, me, victims))
    && (forall t :: t in victims ==> t in victims0)
    && (forall t :: t in cpuOf0 && t !in victims0 ==> t in cpuOf && cpuOf[t] == cpuOf0[t])
  }

  lemma DeliverHome(cpuOf0: map<nat, nat>, cpuOf: map<nat, nat>, cpuOf': map<nat, nat>, theirs: seq<seq<nat>>, qs: seq<seq<nat>>,
                    me: nat, c: nat, victims0: seq<nat>, victims: seq<nat>, victims': seq<nat>, sent: seq<nat>)
    requires c < |qs| && c != me && Homes(cpuOf0, cpuOf, theirs, qs, me, victims0, victims)
    requires Assigned(cpuOf, cpuOf', sent, c) && NoDup(victims)
    requires multiset(sent) + multiset(victims') == multiset(victims)
    ensures Homes(cpuOf0, cpuOf', theirs, qs[c := qs[c] + sent], me, victims0, victims')
  {
    forall t | t in sent || t in victims' ensures t in victims {
      assert t in multiset(sent) + multiset(victims');
    }
    forall t | t in sent ensures t !in victims' {
      NoDupOnce(victims, t);
    }
  }

  lemma {:induction false} NoDupOnce(l: seq<nat>, x: nat)
    requires NoDup(l)
    ensures multiset(l)[x] <= 1
  {
    if l != [] {
      assert l == [l[0]] + l[1..];
      NoDupOnce(l[1..], x);
      assert forall k :: 0 <= k < |l[1..]| ==> l[1..][k] == l[k + 1];
      assert l[0] !in l[1..];
    }
  }

  /** Queues before CPU `i` are not touched any more. */
  lemma {:induction false} HandedOutKeeps(qs: seq<seq<nat>>, i: nat, me: nat, victims: seq<nat>, toSend: nat, share: nat, cur: nat, j: nat)
    requires j < i <= |qs| && toSend <= |victims|
    ensures HandedOut(qs, i, me, victims, toSend, share, cur).to[j] == qs[j]
    decreases |qs| - i
  {
    hide HandedOut, Delivered;
    if i == |qs| || toSend == 0 {
      HandedOutEnd(qs, i, me, victims, toSend, share, cur);
    } else {
      HandedOutStep(qs, i, me, victims, toSend, share, cur);
      if i == me {
        HandedOutKeeps(qs, i + 1, me, victims, toSend, share, cur, j);
      } else {
        var d := Delivered(qs[i], victims, toSend, share, cur);
        HandedOutKeeps(qs[i := d.to], i + 1, me, d.victims, d.toSend, share, cur, j);
      }
    }
  }

  /** What handing out over the queues from `i` on comes to. */
  ghost predicate Deals(qs: seq<seq<nat>>, i: nat, me: nat, victims: seq<nat>, toSend: nat, share: nat, cur: nat, r: Dealt<seq<seq<nat>>>) {
    && |r.to| == |qs| && i <= |qs| && me < |qs| && r.to[me] == qs[me]
    && (forall c :: 0 <= c < |qs| ==> Receives(qs[c], r.to[c], share, cur))
    && (forall c :: 0 <= c < i ==> r.to[c] == qs[c])
    && Flat(r.to) + multiset(r.victims) == Flat(qs) + multiset(victims)
    && Stocked(r.victims, r.toSend, cur) && r.toSend <= toSend
    && (toSend <= Room(qs, me, share, i) ==> r.toSend == 0)
    && (cur in r.victims <==> cur in victims)
  }

  lemma {:induction false} HandedOutDeals(qs: seq<seq<nat>>, i: nat, me: nat, victims: seq<nat>, toSend: nat, share: nat, cur: nat)
    requires i <= |qs| && me < |qs| && Stocked(victims, toSend, cur) && toSend <= |victims|
    ensures Deals(qs, i, me, victims, toSend, share, cur, HandedOut(qs, i, me, victims, toSend, share, cur))
    decreases |qs| - i
  {
    hide Deals, HandedOut, Delivered, Stocked, Fills;
    if i == |qs| || toSend == 0 {
      HandedOutEnd(qs, i, me, victims, toSend, share, cur);
      DealsNothing(qs, i, me, victims, toSend, share, cur);
    } else {
      HandedOutStep(qs, i, me, victims, toSend, share, cur);
      var r := HandedOut(qs, i, me, victims, toSend, share, cur);
      if i == me {
        HandedOutDeals(qs, i + 1, me, victims, toSend, share, cur);
        DealsPast(qs, i, me, victims, toSend, share, cur, r);
      } else {
        var d := Delivered(qs[i], victims, toSend, share, cur);
        DeliveredFills(qs[i], victims, toSend, share, cur);
        FillsStocked(qs[i], victims, toSend, share, cur, d);
        HandedOutDeals(qs[i := d.to], i + 1, me, d.victims, d.toSend, share, cur);
        DealsOne(qs, i, me, victims, toSend, share, cur, d, r);
      }
    }
  }

  lemma FillsStocked(q: seq<nat>, victims: seq<nat>, toSend: nat, share: nat, cur: nat, r: Dealt<seq<nat>>)
    requires Fills(q, victims, toSend, share, cur, r)
    ensures Stocked(r.victims, r.toSend, cur)
  {
  }

  lemma DealsNothing(qs: seq<seq<nat>>, i: nat, me: nat, victims: seq<nat>, toSend: nat, share: nat, cur: nat)
    requires i <= |qs| && me < |qs| && Stocked(victims, toSend, cur) && (i == |qs| || toSend == 0)
    ensures Deals(qs, i, me, victims, toSend, share, cur, Dealt(qs, victims, toSend))
  {
    hide Stocked, Flat;
  }

  lemma DealsPast(qs: seq<seq<nat>>, i: nat, me: nat, victims: seq<nat>, toSend: nat, share: nat, cur: nat, r: Dealt<seq<seq<nat>>>)
    requires i == me < |qs| && Deals(qs, i + 1, me, victims, toSend, share, cur, r)
    ensures Deals(qs, i, me, victims, toSend, share, cur, r)
  {
    hide Stocked, Flat, Receives;
  }

  lemma DealsOne(qs: seq<seq<nat>>, i: nat, me: nat, victims: seq<nat>, toSend: nat, share: nat, cur: nat,
                 d: Dealt<seq<nat>>, r: Dealt<seq<seq<nat>>>)
    requires i < |qs| && me < |qs| && i != me && Fills(qs[i], victims, toSend, share, cur, d)
    requires Deals(qs[i := d.to], i + 1, me, d.victims, d.toSend, share, cur, r)
    ensures Deals(qs, i, me, victims, toSend, share, cur, r)
  {
    hide Stocked, Flat;
    var qs', sent := qs[i := d.to], d.to[|qs[i]|..];
    assert r.to[i] == d.to && Receives(qs[i], d.to, share, cur);
    forall c | 0 <= c < |qs| && c != i ensures Receives(qs[c], r.to[c], share, cur) {
      assert qs'[c] == qs[c] && Receives(qs'[c], r.to[c], share, cur);
    }
    hide Receives;
    assert d.to == qs[i] + sent;
    FlatUpdate(qs, i, d.to);
    MovedOver(Flat(qs), Flat(qs'), multiset(qs[i]), multiset(sent), multiset(victims), multiset(d.victims));
    RoomAfter(qs, qs', me, share, i + 1);
  }

  lemma {:induction false} RoomAfter(qs: seq<seq<nat>>, qs': seq<seq<nat>>, me: nat, share: nat, i: nat)
    requires |qs'| == |qs| && i <= |qs| && forall c :: i <= c < |qs| ==> qs'[c] == qs[c]
    ensures Room(qs', me, share, i) == Room(qs, me, share, i)
    decreases |qs| - i
  {
    if i < |qs| { RoomAfter(qs, qs', me, share, i + 1); }
  }

  /** The loop over the other CPUs. */
  method HandOut(theirs: seq<seq<nat>>, me: nat, cur: nat, share: nat, victims0: seq<nat>, toSend0: nat, cpuOf0: map<nat, nat>)
      returns (out: seq<seq<nat>>, victims: seq<nat>, cpuOf: map<nat, nat>, toSend: nat)
    requires me < |theirs| && Stocked(victims0, toSend0, cur)
    ensures toSend0 <= |victims0| && HandedOut(theirs, 0, me, victims0, toSend0, share, cur) == Dealt(out, victims, toSend)
    ensures Deals(theirs, 0, me, victims0, toSend0, share, cur, Dealt(out, victims, toSend))
    ensures Homes(cpuOf0, cpuOf, theirs, out, me, victims0, victims)
  {
    StockedEnough(victims0, toSend0, cur);
    HandedOutDeals(theirs, 0, me, victims0, toSend0, share, cur);
    out, victims, toSend, cpuOf := theirs, victims0, toSend0, cpuOf0;
    assert Homes(cpuOf0, cpuOf, theirs, out, me, victims0, victims);
    hide Homes, Stocked, Delivered, HandedOut, Deals, Fills, Assigned;
    var i := 0;
    while i < |theirs| && toSend > 0
      invariant 0 <= i <= |theirs| == |out| && toSend <= |victims| && Stocked(victims, toSend, cur)
      invariant HandedOut(theirs, 0, me, victims0, toSend0, share, cur) == HandedOut(out, i, me, victims, toSend, share, cur)
      invariant Homes(cpuOf0, cpuOf, theirs, out, me, victims0, victims)
    {
      HandedOutStep(out, i, me, victims, toSend, share, cur);
      if i != me {
        var q, victims', cpuOf';
        ghost var sent, was := [], Dealt(out[i], victims, toSend);
        q, victims', toSend, cpuOf', sent := Deliver(out[i], i, victims, toSend, share, cur, cpuOf);
        SentHome(cpuOf0, cpuOf, cpuOf', theirs, out, me, i, victims0, was, share, cur, Dealt(q, victims', toSend), sent);
        out, victims, cpuOf := out[i := q], victims', cpuOf';
      }
      i := i + 1;
    }
    HandedOutEnd(out, i, me, victims, toSend, share, cur);
  }

  lemma SentHome(cpuOf0: map<nat, nat>, cpuOf: map<nat, nat>, cpuOf': map<nat, nat>, theirs: seq<seq<nat>>, qs: seq<seq<nat>>,
                 me: nat, c: nat, victims0: seq<nat>, was: Dealt<seq<nat>>, share: nat, cur: nat, r: Dealt<seq<nat>>, sent: seq<nat>)
    requires c < |qs| && c != me && was.to == qs[c] && Stocked(was.victims, was.toSend, cur)
    requires Homes(cpuOf0, cpuOf, theirs, qs, me, victims0, was.victims)
    requires Assigned(cpuOf, cpuOf', sent, c) && r.to == qs[c] + sent && Fills(qs[c], was.victims, was.toSend, share, cur, r)
    ensures Homes(cpuOf0, cpuOf', theirs, qs[c := r.to], me, victims0, r.victims)
    ensures Stocked(r.victims, r.toSend, cur) && r.toSend <= |r.victims|
  {
    hide Homes, Assigned;
    assert r.to[|qs[c]|..] == sent;
    DeliverHome(cpuOf0, cpuOf, cpuOf', theirs, qs, me, c, victims0, was.victims, r.victims, sent);
  }

  /** Nothing changed between the census and the end. */
  ghost predicate Quiet(counted: seq<seq<nat>>, me: nat, mine: seq<nat>, theirs: seq<seq<nat>>, arrivals: seq<nat>)
    requires me < |counted|
  {
    mine == counted[me] && theirs == counted && arrivals == []
  }

  /** Every queue holds threads of its own CPU only. */
  ghost predicate Settled(cpuOf: map<nat, nat>, theirs: seq<seq<nat>>, me: nat, own: seq<nat>) {
    && HomeIs(cpuOf, own, me)
    && (forall c :: 0 <= c < |theirs| && c != me ==> HomeIs(cpuOf, theirs[c], c))
  }

  method ConsiderMigration(counted: seq<seq<nat>>, me: nat, cur: nat, mine: seq<nat>, theirs: seq<seq<nat>>,
                           arrivals: seq<nat>, cpuOf0: map<nat, nat>)
      returns (own: seq<nat>, out: seq<seq<nat>>, cpuOf: map<nat, nat>, ghost share: nat)
    requires me < |counted| == |theirs| && |counted[me]| <= |mine| && NoDup(mine)
    ensures share == DivRoundUp(Sum(counted), |counted|)
    ensures |counted[me]| < share ==> own == mine + arrivals && out == theirs && cpuOf == cpuOf0
    ensures Flat(out) + multiset(own) == Flat(theirs) + multiset(mine + arrivals)
    ensures |out| == |theirs| && forall c :: 0 <= c < |out| ==> Receives(theirs[c], out[c], share, cur)
    ensures share <= |counted[me]| && Quiet(counted, me, mine, theirs, arrivals) ==>
      |own| == share + if cur in mine[share..] then 1 else 0
    ensures Settled(cpuOf0, theirs, me, mine + arrivals) && Separate(arrivals, mine) ==> Settled(cpuOf, out, me, own)
    ensures share <= |counted[me]| ==>
      var n := |counted[me]| - share; var k := |mine| - n;
      var r := HandedOut(theirs, 0, me, mine[k..], n, share, cur);
      out == r.to && own == mine[..k] + arrivals + r.victims
  {
    hide HandedOut, Homes, Flat, Settled, Separate;
    var my, total := Census(counted, me);
    var oneShare := DivRoundUp(total, |counted|);
    share := oneShare;
    own, out, cpuOf := mine + arrivals, theirs, cpuOf0;
    if my < oneShare {
      return;
    }
    var toSend := my - oneShare;
    var rest, victims := TakeVictims(mine, toSend);
    ghost var victims0, toSend0 := victims, toSend;
    out, victims, cpuOf, toSend := HandOut(theirs, me, cur, oneShare, victims, toSend, cpuOf0);
    own := rest + arrivals + victims;
    assert mine == rest + victims0;
    PutBack(Flat(theirs), Flat(out), rest, arrivals, victims0, victims);
    if Settled(cpuOf0, theirs, me, mine + arrivals) && Separate(arrivals, mine) {
      StaySettled(cpuOf0, cpuOf, theirs, out, me, rest, arrivals, victims0, victims);
    }
    if Quiet(counted, me, mine, theirs, arrivals) {
      DivRoundUpEnough(total, |counted|);
      RoomEnough(counted, me, oneShare);
    }
  }

  lemma StaySettled(cpuOf0: map<nat, nat>, cpuOf: map<nat, nat>, theirs: seq<seq<nat>>, out: seq<seq<nat>>, me: nat,
                    rest: seq<nat>, arrivals: seq<nat>, victims0: seq<nat>, victims: seq<nat>)
    requires Homes(cpuOf0, cpuOf, theirs, out, me, victims0, victims) && |out| == |theirs| && me < |out|
    requires NoDup(rest + victims0) && Separate(arrivals, rest + victims0)
    requires Settled(cpuOf0, theirs, me, rest + victims0 + arrivals)
    ensures Settled(cpuOf, out, me, rest + arrivals + victims)
  {
    forall c | 0 <= c < |theirs| && c != me ensures Separate(theirs[c], victims0) {
      forall t | t in theirs[c] ensures t !in victims0 {
        assert cpuOf0[t] == c;
        assert t in victims0 ==> t in rest + victims0 + arrivals;
      }
    }
    assert forall t :: t in victims0 ==> t in rest + victims0 + arrivals;
    assert AllHome(cpuOf0, theirs, me, victims0);
    forall t | t in rest || t in arrivals ensures t in cpuOf && cpuOf[t] == me {
      assert t in rest + victims0 + arrivals && t !in victims0 by { RestApart(rest, victims0, t); }
    }
  }

  lemma RestApart(rest: seq<nat>, victims: seq<nat>, t: nat)
    requires NoDup(rest + victims)
    ensures t in rest ==> t !in victims
  {
    var l := rest + victims;
    assert forall i :: 0 <= i < |victims| ==> victims[i] == l[|rest| + i];
    assert forall i :: 0 <= i < |rest| ==> rest[i] == l[i];
  }

  lemma PutBack(f: multiset<nat>, f': multiset<nat>, rest: seq<nat>, arrivals: seq<nat>, v: seq<nat>, v': seq<nat>)
    requires f' + multiset(v') == f + multiset(v)
    ensures f' + multiset(rest + arrivals + v') == f + multiset(rest + v + arrivals)
  {
    var r := multiset(rest) + multiset(arrivals);
    assert multiset(rest + arrivals + v') == r + multiset(v') && multiset(rest + v + arrivals) == r + multiset(v);
    AddToBoth(r, f', multiset(v'), f, multiset(v));
    assert f' + (r + multiset(v')) == (r + f') + multiset(v') && f + (r + multiset(v)) == (r + f) + multiset(v);
  }

  /** The loop that moves the last threads of the sender's queue to the victims list. */
  method TakeVictims(mine: seq<nat>, toSend: nat) returns (rest: seq<nat>, victims: seq<nat>)
    requires toSend <= |mine|
    ensures rest == mine[..|mine| - toSend] && victims == mine[|mine| - toSend..]
  {
    rest, victims := mine, [];
    for i := 0 to toSend
      invariant rest == mine[..|mine| - i] && victims == mine[|mine| - i..]
    {
      var t := rest[|rest| - 1];
      rest := rest[..|rest| - 1];
      victims := [t] + victims;
    }
  }

  // ---------- the order in which threads are sent ----------

  /** The list without one thread. */
  function Others(l: seq<nat>, x: nat): seq<nat> {
    if l == [] then [] else (if l[0] == x then [] else [l[0]]) + Others(l[1..], x)
  }

  lemma {:induction false} OthersJoin(a: seq<nat>, b: seq<nat>, x: nat)
    ensures Others(a + b, x) == Others(a, x) + Others(b, x)
  {
    if a == [] {
      assert a + b == b;
    } else {
      assert (a + b)[1..] == a[1..] + b;
      OthersJoin(a[1..], b, x);
    }
  }

  /** A queue gets the next victims, curthread passed over. */
  lemma {:induction false} DeliveredInOrder(q: seq<nat>, victims: seq<nat>, toSend: nat, share: nat, cur: nat)
    requires toSend <= |victims|
    ensures var r := Delivered(q, victims, toSend, share, cur);
      q <= r.to && r.to[|q|..] + Others(r.victims, cur) == Others(victims, cur)
    decreases toSend
  {
    if |q| < share && toSend > 0 {
      assert victims == [victims[0]] + victims[1..];
      if victims[0] == cur {
        DeliveredInOrder(q, victims[1..] + [cur], toSend - 1, share, cur);
        OthersJoin(victims[1..], [cur], cur);
      } else {
        DeliveredInOrder(q + [victims[0]], victims[1..], toSend - 1, share, cur);
        var r := Delivered(q, victims, toSend, share, cur);
        assert r.to[|q|..] == [victims[0]] + r.to[|q| + 1..];
      }
    }
  }

  ghost predicate Grown(before: seq<seq<nat>>, after: seq<seq<nat>>) {
    |before| == |after| && forall j :: 0 <= j < |before| ==> before[j] <= after[j]
  }

  /** What the queues got, from CPU `i` on, one after the other. */
  ghost function Sent(before: seq<seq<nat>>, after: seq<seq<nat>>, i: nat): seq<nat>
    requires Grown(before, after)
    decreases |before| - i
  {
    if i >= |before| then [] else after[i][|before[i]|..] + Sent(before, after, i + 1)
  }

  lemma {:induction false} SentSame(before: seq<seq<nat>>, after: seq<seq<nat>>, i: nat)
    requires Grown(before, after) && forall j :: i <= j < |before| ==> before[j] == after[j]
    ensures Sent(before, after, i) == []
    decreases |before| - i
  {
    if i < |before| { SentSame(before, after, i + 1); }
  }

  lemma {:induction false} SentFrom(before: seq<seq<nat>>, middle: seq<seq<nat>>, after: seq<seq<nat>>, i: nat)
    requires Grown(before, after) && Grown(middle, after) && |middle| == |before|
    requires forall j :: i <= j < |before| ==> before[j] == middle[j]
    ensures Sent(before, after, i) == Sent(middle, after, i)
    decreases |before| - i
  {
    if i < |before| { SentFrom(before, middle, after, i + 1); }
  }

  /** The other CPUs get the victims in order, curthread passed over, first the first of them as many as it has room for. */
  lemma {:induction false} SentInOrder(qs: seq<seq<nat>>, i: nat, me: nat, victims: seq<nat>, toSend: nat, share: nat, cur: nat)
    requires toSend <= |victims|
    ensures var r := HandedOut(qs, i, me, victims, toSend, share, cur);
      && Grown(qs, r.to) && (forall j :: 0 <= j < |qs| && (j < i || j == me) ==> r.to[j] == qs[j])
      && Sent(qs, r.to, i) + Others(r.victims, cur) == Others(victims, cur)
    decreases |qs| - i
  {
    hide Delivered, Others;
    var r := HandedOut(qs, i, me, victims, toSend, share, cur);
    if i >= |qs| || toSend == 0 {
      SentSame(qs, r.to, i);
    } else if i == me {
      SentInOrder(qs, i + 1, me, victims, toSend, share, cur);
    } else {
      var d := Delivered(qs[i], victims, toSend, share, cur);
      DeliveredInOrder(qs[i], victims, toSend, share, cur);
      SentInOrder(qs[i := d.to], i + 1, me, d.victims, d.toSend, share, cur);
      SentFrom(qs, qs[i := d.to], r.to, i + 1);
      assert r.to[i] == d.to;
      assert d.to[|qs[i]|..] + (Sent(qs, r.to, i + 1) + Others(r.victims, cur))
          == (d.to[|qs[i]|..] + Sent(qs, r.to, i + 1)) + Others(r.victims, cur);
    }
  }
}
