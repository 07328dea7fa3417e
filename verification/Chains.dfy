/**
  Singly linked lists in a table of next pointers, read as sequences. The kernel heap
  (kern/vm/kmalloc.c) keeps three kinds: the free list inside each heap page, the list of
  pages of one block size and the list of all pages.
*/
module Chains {
  import opened Basics

  type Links = map<nat, Option<nat>>

  function At(l: seq<nat>, i: nat): Option<nat> {
    if i < |l| then Some(l[i]) else None
  }

  /** Walking `next` from `base` visits exactly `l`, each node once, and ends at NULL. */
  ghost predicate Chain(base: Option<nat>, next: Links, l: seq<nat>) {
    && base == At(l, 0)
    && NoDup(l)
    && forall i :: 0 <= i < |l| ==> l[i] in next && next[l[i]] == At(l, i + 1)
  }

  lemma ChainBase(base: Option<nat>, next: Links, l: seq<nat>)
    requires Chain(base, next, l)
    ensures base == At(l, 0) && NoDup(l)
  {
  }

  lemma ChainLeads(base: Option<nat>, next: Links, l: seq<nat>, i: nat)
    requires Chain(base, next, l) && i < |l|
    ensures l[i] in next && next[l[i]] == At(l, i + 1)
  {
  }

  lemma ChainEmpty(next: Links)
    ensures Chain(None, next, [])
  {
  }

  /** A chain is untouched by a change to a node that is not on it. */
  lemma ChainFrame(base: Option<nat>, next: Links, l: seq<nat>, x: nat, y: Option<nat>)
    requires Chain(base, next, l) && x !in l
    ensures Chain(base, next[x := y], l)
  {
  }

  lemma ChainForget(base: Option<nat>, next: Links, l: seq<nat>, x: nat)
    requires Chain(base, next, l) && x !in l
    ensures Chain(base, next - {x}, l)
  {
  }

  lemma ChainPush(base: Option<nat>, next: Links, l: seq<nat>, x: nat)
    requires Chain(base, next, l) && x !in l
    ensures Chain(Some(x), next[x := base], [x] + l)
  {
    var l', next' := [x] + l, next[x := base];
    forall i | 0 <= i < |l'| ensures l'[i] in next' && next'[l'[i]] == At(l', i + 1) {
      if i > 0 { assert l'[i] == l[i - 1]; }
    }
  }

  lemma ChainPop(base: Option<nat>, next: Links, l: seq<nat>)
    requires Chain(base, next, l) && l != []
    ensures base == Some(l[0]) && l[0] in next
    ensures Chain(next[l[0]], next, l[1..]) && l[0] !in l[1..]
  {
    var l' := l[1..];
    forall i | 0 <= i < |l'| ensures l'[i] in next && next[l'[i]] == At(l', i + 1) {
      assert l'[i] == l[i + 1];
    }
  }

  function Without(l: seq<nat>, k: nat): seq<nat>
    requires k < |l|
  {
    l[..k] + l[k + 1..]
  }

  /** Unlinking the node at `k`: its predecessor, or the base, takes over its next pointer. */
  lemma ChainUnlink(base: Option<nat>, next: Links, l: seq<nat>, k: nat)
    requires Chain(base, next, l) && k < |l|
    ensures k == 0 ==> Chain(next[l[0]], next, Without(l, 0))
    ensures k > 0 ==> Chain(base, next[l[k - 1] := next[l[k]]], Without(l, k))
    ensures l[k] !in Without(l, k)
  {
    var l' := Without(l, k);
    forall i | 0 <= i < |l'| ensures l'[i] != l[k] && l'[i] == l[if i < k then i else i + 1] {
    }
    if k > 0 {
      var next' := next[l[k - 1] := next[l[k]]];
      forall i | 0 <= i < |l'| ensures l'[i] in next' && next'[l'[i]] == At(l', i + 1) {
      }
    }
  }

  lemma WithoutMembers(l: seq<nat>, k: nat)
    requires k < |l| && NoDup(l)
    ensures forall x :: x in Without(l, k) <==> x in l && x != l[k]
    ensures NoDup(Without(l, k)) && |Without(l, k)| == |l| - 1
  {
    var l' := Without(l, k);
    forall x | x in l && x != l[k] ensures x in l' {
      var i :| 0 <= i < |l| && l[i] == x;
      assert l'[if i < k then i else i - 1] == x;
    }
  }

  /** A chain determines its sequence: walking it gives one result. */
  lemma {:induction false} ChainUnique(base: Option<nat>, next: Links, l: seq<nat>, m: seq<nat>)
    requires Chain(base, next, l) && Chain(base, next, m)
    ensures l == m
    decreases |l|
  {
    if l == [] || m == [] {
    } else {
      ChainPop(base, next, l);
      ChainPop(base, next, m);
      ChainUnique(next[l[0]], next, l[1..], m[1..]);
      assert l == [l[0]] + l[1..] && m == [m[0]] + m[1..];
    }
  }
}
