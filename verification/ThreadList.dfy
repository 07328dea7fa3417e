/**
  The sentinel doubly linked list of threads (kern/thread/threadlist.c). A thread's list
  node is embedded in it, so a node stands for its thread here; the two bookend nodes of a
  list, whose self pointer is null in the source, are the nodes that are no threads.
*/
module ThreadList {

  class Node {
    var prev: Node?
    var next: Node?
    const isThread: bool

    constructor (isThread: bool)
      ensures this.isThread == isThread && Unlinked()
    {
      this.isThread := isThread;
      prev, next := null, null;
    }

    predicate Unlinked()
      reads this
    {
      prev == null && next == null
    }
  }

  ghost predicate AllDifferent(s: seq<Node>) {
    forall i, j :: 0 <= i < j < |s| ==> s[i] != s[j]
  }

  /** `s` is a whole chain: consecutive nodes point at each other, and the ends at nothing. */
  ghost predicate Linked(s: seq<Node>)
    reads s
  {
    && 2 <= |s| && AllDifferent(s)
    && s[0].prev == null && s[|s| - 1].next == null
    && (forall i :: 0 <= i < |s| - 1 ==> s[i].next == s[i + 1])
    && (forall i :: 0 < i < |s| ==> s[i].prev == s[i - 1])
  }

  ghost function Inserted(s: seq<Node>, k: nat, n: Node): seq<Node>
    requires k < |s|
  {
    s[..k + 1] + [n] + s[k + 1..]
  }

  ghost function Deleted(s: seq<Node>, k: nat): seq<Node>
    requires k < |s|
  {
    s[..k] + s[k + 1..]
  }

  lemma InsertedAt(s: seq<Node>, k: nat, n: Node)
    requires k < |s| && AllDifferent(s) && n !in s
    ensures var s' := Inserted(s, k, n);
      && |s'| == |s| + 1 && AllDifferent(s')
      && forall i :: 0 <= i < |s'| ==> s'[i] == if i <= k then s[i] else if i == k + 1 then n else s[i - 1]
  {
  }

  /** threadlist_insertafternode, on the node at position `k` of a chain. */
  method InsertAfterNode(onlist: Node, addee: Node, ghost s: seq<Node>, ghost k: nat)
    requires Linked(s) && k < |s| - 1 && s[k] == onlist
    requires addee !in s && addee.Unlinked()
    modifies addee, onlist, onlist.next
    ensures Linked(Inserted(s, k, addee))
  {
    assert onlist.next == s[k + 1] && onlist.next.prev == onlist;
    addee.prev := onlist;
    addee.next := onlist.next;
    addee.prev.next := addee;
    addee.next.prev := addee;
    InsertedAt(s, k, addee);
    ghost var s' := Inserted(s, k, addee);
    hide Inserted;
    forall i | 0 <= i < |s'| - 1 ensures s'[i].next == s'[i + 1] {
      assert i < k ==> s[i].next == s[i + 1];
      assert i > k + 1 ==> s[i - 1].next == s[i];
    }
    forall i | 0 < i < |s'| ensures s'[i].prev == s'[i - 1] {
      assert 0 < i <= k ==> s[i].prev == s[i - 1];
      assert i > k + 2 ==> s[i - 1].prev == s[i - 2];
    }
  }

  /** threadlist_insertbeforenode, on the node at position `k` of a chain. */
  method InsertBeforeNode(addee: Node, onlist: Node, ghost s: seq<Node>, ghost k: nat)
    requires Linked(s) && 0 < k < |s| && s[k] == onlist
    requires addee !in s && addee.Unlinked()
    modifies addee, onlist, onlist.prev
    ensures Linked(Inserted(s, k - 1, addee))
  {
    assert onlist.prev == s[k - 1] && onlist.prev.next == onlist;
    addee.prev := onlist.prev;
    addee.next := onlist;
    addee.prev.next := addee;
    addee.next.prev := addee;
    InsertedAt(s, k - 1, addee);
    ghost var s' := Inserted(s, k - 1, addee);
    hide Inserted;
    forall i | 0 <= i < |s'| - 1 ensures s'[i].next == s'[i + 1] {
      assert i < k - 1 ==> s[i].next == s[i + 1];
      assert i > k ==> s[i - 1].next == s[i];
    }
    forall i | 0 < i < |s'| ensures s'[i].prev == s'[i - 1] {
      assert 0 < i < k ==> s[i].prev == s[i - 1];
      assert i > k + 1 ==> s[i - 1].prev == s[i - 2];
    }
  }

  /** threadlist_removenode, on the node at position `k` of a chain. */
  method RemoveNode(tln: Node, ghost s: seq<Node>, ghost k: nat)
    requires Linked(s) && 0 < k < |s| - 1 && s[k] == tln
    modifies tln, tln.prev, tln.next
    ensures Linked(Deleted(s, k)) && tln.Unlinked() && tln !in Deleted(s, k)
  {
    assert tln.prev == s[k - 1] && tln.next == s[k + 1];
    tln.prev.next := tln.next;
    tln.next.prev := tln.prev;
    tln.prev := null;
    tln.next := null;
    ghost var s' := Deleted(s, k);
    assert forall i :: 0 <= i < |s'| ==> s'[i] == if i < k then s[i] else s[i + 1];
  }

  lemma BookendsStay(head: Node, nodes: seq<Node>, tail: Node, k: nat)
    requires k < |nodes|
    ensures Deleted([head] + nodes + [tail], k + 1) == [head] + (nodes[..k] + nodes[k + 1..]) + [tail]
  {
  }

  class List {
    const head: Node
    const tail: Node
    var count: nat
    ghost var nodes: seq<Node>

    ghost function Whole(): seq<Node>
      reads this
    {
      [head] + nodes + [tail]
    }

    ghost function Repr(): set<object>
      reads this
    {
      {this, head, tail} + set n | n in nodes
    }

    ghost predicate Valid()
      reads this, Repr()
    {
      && !head.isThread && !tail.isThread
      && (forall i :: 0 <= i < |nodes| ==> nodes[i].isThread)
      && Linked(Whole())
      && count == |nodes|
    }

    constructor ()
      ensures Valid() && nodes == []
      ensures fresh(head) && fresh(tail)
    {
      head := new Node(false);
      tail := new Node(false);
      count := 0;
      nodes := [];
      new;
      head.next := tail;
      tail.prev := head;
    }

    predicate IsEmpty()
      requires Valid()
      reads this, Repr()
      ensures IsEmpty() <==> nodes == []
    {
      count == 0
    }

    method AddHead(t: Node)
      requires Valid() && t.isThread && t !in nodes && t.Unlinked()
      modifies Repr(), t
      ensures Valid() && nodes == [t] + old(nodes)
    {
      assert head.next == Whole()[1];
      InsertAfterNode(head, t, Whole(), 0);
      count := count + 1;
      nodes := [t] + nodes;
      assert Whole() == Inserted(old(Whole()), 0, t);
    }

    method AddTail(t: Node)
      requires Valid() && t.isThread && t !in nodes && t.Unlinked()
      modifies Repr(), t
      ensures Valid() && nodes == old(nodes) + [t]
    {
      ghost var n := |nodes|;
      assert tail.prev == Whole()[n];
      InsertBeforeNode(t, tail, Whole(), n + 1);
      count := count + 1;
      nodes := nodes + [t];
      assert Whole() == Inserted(old(Whole()), n, t);
    }

    method RemHead() returns (t: Node?)
      requires Valid()
      modifies Repr()
      ensures Valid()
      ensures t == null <==> old(nodes) == []
      ensures t == null ==> nodes == old(nodes)
      ensures t != null ==> t.isThread && t.Unlinked() && old(nodes) == [t] + nodes && t !in nodes && t !in Repr()
    {
      var tln := head.next;
      assert tln == Whole()[1] && (nodes != [] ==> tln.next == Whole()[2]);
      if tln.next == null {
        return null;
      }
      assert tln == nodes[0];
      RemoveNode(tln, Whole(), 1);
      count := count - 1;
      nodes := nodes[1..];
      assert Whole() == Deleted(old(Whole()), 1);
      return tln;
    }

    method RemTail() returns (t: Node?)
      requires Valid()
      modifies Repr()
      ensures Valid()
      ensures t == null <==> old(nodes) == []
      ensures t == null ==> nodes == old(nodes)
      ensures t != null ==> t.isThread && t.Unlinked() && old(nodes) == nodes + [t] && t !in nodes
    {
      ghost var n := |nodes|;
      var tln := tail.prev;
      assert tln == Whole()[n] && (nodes != [] ==> tln.prev == Whole()[n - 1]);
      if tln.prev == null {
        return null;
      }
      assert tln == nodes[n - 1];
      RemoveNode(tln, Whole(), n);
      count := count - 1;
      nodes := nodes[..n - 1];
      assert Whole() == Deleted(old(Whole()), n);
      return tln;
    }

    method InsertAfter(onlist: Node, addee: Node, ghost k: nat)
      requires Valid() && k < |nodes| && nodes[k] == onlist
      requires addee.isThread && addee !in nodes && addee.Unlinked()
      modifies Repr(), addee
      ensures Valid() && nodes == old(nodes[..k + 1]) + [addee] + old(nodes[k + 1..])
    {
      assert Whole()[k + 1] == onlist && onlist.next == Whole()[k + 2];
      InsertAfterNode(onlist, addee, Whole(), k + 1);
      count := count + 1;
      nodes := nodes[..k + 1] + [addee] + nodes[k + 1..];
      assert Whole() == Inserted(old(Whole()), k + 1, addee);
    }

    method InsertBefore(addee: Node, onlist: Node, ghost k: nat)
      requires Valid() && k < |nodes| && nodes[k] == onlist
      requires addee.isThread && addee !in nodes && addee.Unlinked()
      modifies Repr(), addee
      ensures Valid() && nodes == old(nodes[..k]) + [addee] + old(nodes[k..])
    {
      assert Whole()[k + 1] == onlist && onlist.prev == Whole()[k];
      InsertBeforeNode(addee, onlist, Whole(), k + 1);
      count := count + 1;
      nodes := nodes[..k] + [addee] + nodes[k..];
      assert Whole() == Inserted(old(Whole()), k, addee);
    }

    /** A thread's neighbours are on the list, or are its bookends. */
    lemma Neighbours(k: nat)
      requires Valid() && k < |nodes|
      ensures Whole()[k + 1] == nodes[k] && nodes[k].prev in Repr() && nodes[k].next in Repr()
    {
      var w := Whole();
      assert w[k + 1] == nodes[k] && w[k + 1].prev == w[k] && w[k + 1].next == w[k + 2];
      assert forall i :: 0 <= i < |w| ==> w[i] in Repr();
    }

    method Remove(t: Node, ghost k: nat)
      requires Valid() && k < |nodes| && nodes[k] == t
      modifies Repr()
      ensures Valid() && t.Unlinked() && nodes == old(nodes[..k]) + old(nodes[k + 1..])
    {
      Neighbours(k);
      hide Linked, Deleted;
      RemoveNode(t, Whole(), k + 1);
      count := count - 1;
      BookendsStay(head, nodes, tail, k);
      nodes := nodes[..k] + nodes[k + 1..];
    }

    /** THREADLIST_FORALL visits the threads in list order. */
    method Forward() returns (visited: seq<Node>)
      requires Valid()
      ensures visited == nodes
    {
      visited := [];
      var itervar := head.next;
      assert itervar == Whole()[1];
      while itervar.isThread
        invariant |visited| <= |nodes| && visited == nodes[..|visited|]
        invariant itervar == Whole()[|visited| + 1]
        decreases |nodes| - |visited|
      {
        assert itervar.next == Whole()[|visited| + 2];
        visited := visited + [itervar];
        itervar := itervar.next;
      }
    }

    /** THREADLIST_FORALL_REV visits the same threads in the opposite order. */
    method Backward() returns (visited: seq<Node>)
      requires Valid()
      ensures |visited| == |nodes| && forall i :: 0 <= i < |nodes| ==> visited[i] == nodes[|nodes| - 1 - i]
    {
      visited := [];
      var itervar := tail.prev;
      ghost var k := |nodes|;
      assert itervar == Whole()[k];
      while itervar.isThread
        invariant 0 <= k <= |nodes| && itervar == Whole()[k]
        invariant |visited| == |nodes| - k && forall i :: 0 <= i < |visited| ==> visited[i] == nodes[|nodes| - 1 - i]
        decreases k
      {
        assert itervar.prev == Whole()[k - 1];
        visited := visited + [itervar];
        itervar := itervar.prev;
        k := k - 1;
      }
    }
  }

  method MoveHead(from: List, to: List) returns (moved: bool)
    requires from.Valid() && to.Valid() && from.Repr() !! to.Repr()
    modifies from.Repr(), to.Repr()
    ensures from.Valid() && to.Valid() && from.Repr() !! to.Repr()
    ensures moved <==> old(from.nodes) != []
    ensures from.nodes == if moved then old(from.nodes)[1..] else []
    ensures to.nodes + from.nodes == old(to.nodes) + old(from.nodes)
    ensures from.Repr() <= old(from.Repr()) && to.Repr() <= old(from.Repr() + to.Repr())
  {
    hide List.Valid;
    var t := from.RemHead();
    if t == null {
      return false;
    }
    assert t in old(from.nodes) && t in old(from.Repr()) && t !in to.Repr();
    to.AddTail(t);
    return true;
  }

  /**
    Moving every thread of one list to the end of another, as wchan_wakeall does before it
    wakes them; a third list is left exactly as it was.
  */
  method MoveAll(from: List, to: List, ghost other: List)
    requires from.Valid() && to.Valid() && other.Valid()
    requires from.Repr() !! to.Repr() !! other.Repr()
    modifies from.Repr(), to.Repr()
    ensures from.Valid() && to.Valid() && other.Valid()
    ensures from.nodes == [] && to.nodes == old(to.nodes) + old(from.nodes)
    ensures other.nodes == old(other.nodes)
  {
    hide List.Valid;
    var more := true;
    while more
      invariant from.Valid() && to.Valid() && from.Repr() !! to.Repr()
      invariant from.Repr() <= old(from.Repr()) && to.Repr() <= old(from.Repr() + to.Repr())
      invariant to.nodes + from.nodes == old(to.nodes) + old(from.nodes)
      invariant !more ==> from.nodes == []
      decreases |from.nodes|, more
    {
      more := MoveHead(from, to);
    }
  }
}
