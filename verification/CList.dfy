/** The circular doubly linked list of the queues, relinked in place, against the sequence of its nodes. */
module CList {

  class Node {
    var next: Node
    var prev: Node

    constructor ()
      ensures next == this && prev == this
    {
      next, prev := this, this;
    }

    // Linked to nothing but itself.
    ghost predicate Alone()
      reads this
    {
      next == this && prev == this
    }

    method Init()
      modifies this
      ensures Alone()
    {
      next, prev := this, this;
    }
  }

  function Following(i: nat, n: nat): (r: nat)
    requires i < n
    ensures r < n
  {
    if i == n - 1 then 0 else i + 1
  }

  function Preceding(i: nat, n: nat): (r: nat)
    requires i < n
    ensures r < n
  {
    if i == 0 then n - 1 else i - 1
  }

  ghost predicate Distinct(ns: seq<Node>) {
    forall i, j :: 0 <= i < j < |ns| ==> ns[i] != ns[j]
  }

  // The nodes are linked in a ring, both ways, in this order.
  ghost predicate Ring(ns: seq<Node>)
    reads ns
  {
    && Distinct(ns)
    && (forall i :: 0 <= i < |ns| - 1 ==> ns[i].next == ns[i + 1])
    && (forall i :: 0 < i < |ns| ==> ns[i].prev == ns[i - 1])
    && (ns != [] ==> ns[|ns| - 1].next == ns[0] && ns[0].prev == ns[|ns| - 1])
  }

  class List {
    var head: Node?
    ghost var nodes: seq<Node>

    ghost predicate Valid()
      reads this, nodes
    {
      && (nodes == [] ==> head == null)
      && (nodes != [] ==> head == nodes[0])
      && Ring(nodes)
    }

    constructor ()
      ensures Valid() && nodes == []
    {
      head, nodes := null, [];
    }

    method InsertFront(node: Node)
      requires Valid() && node !in nodes && node.Alone()
      modifies this, node, nodes
      ensures Valid() && nodes == [node] + old(nodes)
    {
      if head != null {
        var last := head.prev;
        node.next := head;
        node.prev := last;
        last.next := node;
        head.prev := node;
      }
      head := node;
      nodes := [node] + nodes;
    }

    method InsertBack(node: Node)
      requires Valid() && node !in nodes && node.Alone()
      modifies this, node, nodes
      ensures Valid() && nodes == old(nodes) + [node]
    {
      if head == null {
        head := node;
      } else {
        var last := head.prev;
        node.next := head;
        head.prev := node;
        node.prev := last;
        last.next := node;
      }
      nodes := nodes + [node];
    }

    method InsertAfter(start: Node, after: Node)
      requires Valid() && start in nodes && after !in nodes
      modifies this, after, nodes
      ensures Valid() && start in old(nodes)
      ensures nodes == var k := Position(old(nodes), start);
                       old(nodes)[..k + 1] + [after] + old(nodes)[k + 1..]
    {
      hide Position, Ring;
      ghost var ns, n, k := nodes, |nodes|, Position(nodes, start);
      Links(ns);
      assert start.next == ns[Following(k, n)];
      after.next := start.next;
      start.next := after;
      after.prev := start;
      after.next.prev := after;
      nodes := ns[..k + 1] + [after] + ns[k + 1..];
      RingInserted(ns, k, after);
    }

    // The source relinks a first node and an inner one in two branches that differ
    // only in the head.
    method Remove(node: Node)
      requires Valid() && node in nodes
      modifies this, nodes
      ensures Valid() && node.Alone() && node in old(nodes)
      ensures nodes == Without(old(nodes), node)
    {
      hide Position, Ring, Distinct;
      ghost var ns, k := nodes, Position(nodes, node);
      Neighbours(ns, k);
      if node.next == node {
        head := null;
      } else if head == node {
        head := node.next;
      }
      Unlink(ns, k, node);
      nodes := ns[..k] + ns[k + 1..];
    }

    method Pop() returns (node: Node?)
      requires Valid()
      modifies this, nodes
      ensures Valid()
      ensures old(nodes) == [] ==> node == null && nodes == []
      ensures old(nodes) != [] ==> node == old(nodes)[0] && nodes == old(nodes)[1..] && node.Alone()
    {
      node := head;
      if node != null {
        Remove(node);
      }
    }
  }

  lemma Neighbours(ns: seq<Node>, k: nat)
    requires Ring(ns) && k < |ns|
    ensures ns[k].next == ns[Following(k, |ns|)] && ns[k].prev == ns[Preceding(k, |ns|)]
    ensures ns[k].next == ns[k] <==> |ns| == 1
    ensures ns[k] == ns[0] <==> k == 0
  {
  }

  // The two links around a node lead past it.
  method Bypass(ghost ns: seq<Node>, ghost k: nat, before: Node, behind: Node)
    requires Distinct(ns) && 1 < |ns| && k < |ns|
    requires before == ns[Preceding(k, |ns|)] && behind == ns[Following(k, |ns|)]
    modifies before, behind
    ensures forall i :: 0 <= i < |ns| ==> ns[i].next == if i == Preceding(k, |ns|) then behind else old(ns[i].next)
    ensures forall i :: 0 <= i < |ns| ==> ns[i].prev == if i == Following(k, |ns|) then before else old(ns[i].prev)
  {
    before.next := behind;
    behind.prev := before;
  }

  lemma OthersDiffer(ns: seq<Node>, k: nat)
    requires Distinct(ns) && k < |ns|
    ensures forall i :: 0 <= i < |ns| && i != k ==> ns[i] != ns[k]
  {
  }

  method Unlink(ghost ns: seq<Node>, ghost k: nat, node: Node)
    requires Ring(ns) && k < |ns| && node == ns[k]
    modifies ns
    ensures node.Alone() && Ring(ns[..k] + ns[k + 1..])
  {
    hide Ring, Distinct, Following, Preceding;
    Neighbours(ns, k);
    Links(ns);
    OthersDiffer(ns, k);
    if node.next != node {
      Bypass(ns, k, node.prev, node.next);
      node.Init();
      RingRemoved(ns, k);
    } else {
      node.Init();
      NoneLeft(ns, k);
    }
  }

  lemma NoneLeft(ns: seq<Node>, k: nat)
    requires |ns| == 1 && k < |ns|
    ensures ns[..k] + ns[k + 1..] == [] && Ring(ns[..k] + ns[k + 1..])
  {
  }

  ghost function Position(ns: seq<Node>, x: Node): (k: nat)
    requires x in ns
    ensures k < |ns| && ns[k] == x && x !in ns[..k]
  {
    if ns[0] == x then 0 else 1 + Position(ns[1..], x)
  }

  ghost function Without(ns: seq<Node>, x: Node): seq<Node>
    requires x in ns
  {
    var k := Position(ns, x);
    ns[..k] + ns[k + 1..]
  }

  lemma StillDistinct(ns: seq<Node>, k: nat, x: Node)
    requires Distinct(ns) && k <= |ns| && x !in ns
    ensures Distinct(ns[..k] + [x] + ns[k..])
  {
    var ms := ns[..k] + [x] + ns[k..];
    forall i, j | 0 <= i < j < |ms| ensures ms[i] != ms[j] {
      if i != k {
        assert ms[i] == ns[if i < k then i else i - 1];
      }
      if j != k {
        assert ms[j] == ns[if j < k then j else j - 1];
      }
    }
  }

  lemma AlsoDistinct(ns: seq<Node>, k: nat)
    requires Distinct(ns) && k < |ns|
    ensures Distinct(ns[..k] + ns[k + 1..])
  {
  }

  lemma Links(ns: seq<Node>)
    requires Ring(ns)
    ensures Distinct(ns)
    ensures forall i :: 0 <= i < |ns| ==> ns[i].next == ns[Following(i, |ns|)]
    ensures forall i :: 0 <= i < |ns| ==> ns[i].prev == ns[Preceding(i, |ns|)]
  {
  }

  // The links after an insertion make a ring again.
  lemma RingInserted(ns: seq<Node>, k: nat, x: Node)
    requires Distinct(ns) && k < |ns| && x !in ns
    requires x.next == ns[Following(k, |ns|)] && x.prev == ns[k]
    requires forall i :: 0 <= i < |ns| ==> ns[i].next == if i == k then x else ns[Following(i, |ns|)]
    requires forall i :: 0 <= i < |ns| ==> ns[i].prev == if i == Following(k, |ns|) then x else ns[Preceding(i, |ns|)]
    ensures Ring(ns[..k + 1] + [x] + ns[k + 1..])
  {
    StillDistinct(ns, k + 1, x);
    hide Distinct;
    var ms := ns[..k + 1] + [x] + ns[k + 1..];
    InsertedNext(ns, k, x, ms);
    InsertedPrev(ns, k, x, ms);
  }

  lemma InsertedNext(ns: seq<Node>, k: nat, x: Node, ms: seq<Node>)
    requires k < |ns| && ms == ns[..k + 1] + [x] + ns[k + 1..]
    requires x.next == ns[Following(k, |ns|)]
    requires forall i :: 0 <= i < |ns| ==> ns[i].next == if i == k then x else ns[Following(i, |ns|)]
    ensures forall i :: 0 <= i < |ns| ==> ms[i].next == ms[i + 1]
    ensures ms[|ns|].next == ms[0]
  {
    hide Following;
    forall i | 0 <= i < |ns| ensures ms[i].next == ms[i + 1] {
      InsertedNextAt(ns, k, x, ms, i);
    }
    InsertedNextAt(ns, k, x, ms, |ns|);
  }

  lemma InsertedNextAt(ns: seq<Node>, k: nat, x: Node, ms: seq<Node>, i: nat)
    requires k < |ns| && ms == ns[..k + 1] + [x] + ns[k + 1..] && i <= |ns|
    requires x.next == ns[Following(k, |ns|)]
    requires forall m :: 0 <= m < |ns| ==> ns[m].next == if m == k then x else ns[Following(m, |ns|)]
    ensures i < |ns| ==> ms[i].next == ms[i + 1]
    ensures i == |ns| ==> ms[i].next == ms[0]
  {
    assert ms[0] == ns[0];
    if i <= k {
      assert ms[i] == ns[i] && ms[i + 1] == if i == k then x else ns[i + 1];
    } else if i == k + 1 {
      assert ms[i] == x && (i < |ns| ==> ms[i + 1] == ns[i]);
    } else {
      assert ms[i] == ns[i - 1] && (i < |ns| ==> ms[i + 1] == ns[i]);
    }
  }

  lemma InsertedPrev(ns: seq<Node>, k: nat, x: Node, ms: seq<Node>)
    requires k < |ns| && ms == ns[..k + 1] + [x] + ns[k + 1..]
    requires x.prev == ns[k]
    requires forall i :: 0 <= i < |ns| ==> ns[i].prev == if i == Following(k, |ns|) then x else ns[Preceding(i, |ns|)]
    ensures forall i :: 0 < i <= |ns| ==> ms[i].prev == ms[i - 1]
    ensures ms[0].prev == ms[|ns|]
  {
    hide Following, Preceding;
    forall i | 0 < i <= |ns| ensures ms[i].prev == ms[i - 1] {
      InsertedPrevAt(ns, k, x, ms, i);
    }
    InsertedPrevAt(ns, k, x, ms, 0);
  }

  lemma InsertedPrevAt(ns: seq<Node>, k: nat, x: Node, ms: seq<Node>, i: nat)
    requires k < |ns| && ms == ns[..k + 1] + [x] + ns[k + 1..] && i <= |ns|
    requires x.prev == ns[k]
    requires forall m :: 0 <= m < |ns| ==> ns[m].prev == if m == Following(k, |ns|) then x else ns[Preceding(m, |ns|)]
    ensures 0 < i ==> ms[i].prev == ms[i - 1]
    ensures i == 0 ==> ms[i].prev == ms[|ns|]
  {
    if i == 0 {
      assert ms[0] == ns[0] && ms[|ns|] == if k == |ns| - 1 then x else ns[|ns| - 1];
    } else if i <= k {
      assert ms[i] == ns[i] && ms[i - 1] == ns[i - 1];
    } else if i == k + 1 {
      assert ms[i] == x && ms[i - 1] == ns[k];
    } else {
      assert ms[i] == ns[i - 1] && ms[i - 1] == if i == k + 2 then x else ns[i - 2];
    }
  }

  // The links after a removal make a ring again, of all nodes but one.
  lemma RingRemoved(ns: seq<Node>, k: nat)
    requires Distinct(ns) && k < |ns|
    requires forall i :: 0 <= i < |ns| && i != k ==>
               ns[i].next == if i == Preceding(k, |ns|) then ns[Following(k, |ns|)] else ns[Following(i, |ns|)]
    requires forall i :: 0 <= i < |ns| && i != k ==>
               ns[i].prev == if i == Following(k, |ns|) then ns[Preceding(k, |ns|)] else ns[Preceding(i, |ns|)]
    ensures Ring(ns[..k] + ns[k + 1..])
  {
    var ms, n := ns[..k] + ns[k + 1..], |ns|;
    AlsoDistinct(ns, k);
    hide Distinct, Following, Preceding;
    forall i | 0 <= i < n - 1
      ensures ms[i].next == if i == n - 2 then ms[0] else ms[i + 1]
      ensures ms[i].prev == if i == 0 then ms[n - 2] else ms[i - 1]
    {
      RemovedNextAt(ns, k, ms, i);
      RemovedPrevAt(ns, k, ms, i);
    }
  }

  lemma RemovedNextAt(ns: seq<Node>, k: nat, ms: seq<Node>, i: nat)
    requires k < |ns| && ms == ns[..k] + ns[k + 1..] && i < |ms|
    requires forall i :: 0 <= i < |ns| && i != k ==>
               ns[i].next == if i == Preceding(k, |ns|) then ns[Following(k, |ns|)] else ns[Following(i, |ns|)]
    ensures ms[i].next == if i == |ms| - 1 then ms[0] else ms[i + 1]
  {
    var m := if i < k then i else i + 1;
    assert ms[i] == ns[m];
    if i == |ms| - 1 {
      assert ms[0] == if k == 0 then ns[1] else ns[0];
    } else {
      assert ms[i + 1] == if i + 1 < k then ns[i + 1] else ns[i + 2];
    }
  }

  lemma RemovedPrevAt(ns: seq<Node>, k: nat, ms: seq<Node>, i: nat)
    requires k < |ns| && ms == ns[..k] + ns[k + 1..] && i < |ms|
    requires forall i :: 0 <= i < |ns| && i != k ==>
               ns[i].prev == if i == Following(k, |ns|) then ns[Preceding(k, |ns|)] else ns[Preceding(i, |ns|)]
    ensures ms[i].prev == if i == 0 then ms[|ms| - 1] else ms[i - 1]
  {
    var m := if i < k then i else i + 1;
    assert ms[i] == ns[m];
    if i == 0 {
      assert ms[|ms| - 1] == if k == |ms| then ns[k - 1] else ns[|ms|];
    } else {
      assert ms[i - 1] == if i - 1 < k then ns[i - 1] else ns[i];
    }
  }

  // ---------- traversals ----------

  // The nodes a traversal visits: up to the first one whose callback says exit.
  ghost function UpTo(ns: seq<Node>, exit: set<Node>): (r: seq<Node>)
    ensures |r| <= |ns| && r == ns[..|r|]
  {
    if ns == [] then []
    else if ns[0] in exit then ns[..1]
    else [ns[0]] + UpTo(ns[1..], exit)
  }

  ghost function Kept(ns: seq<Node>, removed: set<Node>): (r: seq<Node>)
    ensures forall i :: 0 <= i < |r| ==> r[i] in ns && r[i] !in removed
  {
    if ns == [] then []
    else if ns[|ns| - 1] in removed then Kept(ns[..|ns| - 1], removed)
    else Kept(ns[..|ns| - 1], removed) + [ns[|ns| - 1]]
  }

  // The list during a traversal: what is left of the visited nodes, then the others.
  ghost function Left(was: seq<Node>, i: nat, removed: set<Node>): seq<Node>
    requires i <= |was|
  {
    Kept(was[..i], removed) + was[i..]
  }

  // One more node visited.
  lemma Visit(was: seq<Node>, i: nat, removed: set<Node>)
    requires i < |was| && Distinct(Left(was, i, removed))
    ensures var cur, node, k := Left(was, i, removed), was[i], |Kept(was[..i], removed)|;
            && |cur| == k + |was| - i && cur[k] == node && node in cur
            && (cur[0] == node <==> k == 0)
            && (i + 1 < |was| ==> cur[k + 1] == was[i + 1])
            && (node in removed ==> Without(cur, node) == Left(was, i + 1, removed))
            && (node !in removed ==> cur == Left(was, i + 1, removed))
            && (i + 1 < |was| ==>
                  && Left(was, i + 1, removed) != []
                  && Left(was, i + 1, removed)[0] == if k == 0 && node in removed then was[i + 1] else cur[0])
  {
    hide Left, Distinct, Position;
    var kept, node, cur := Kept(was[..i], removed), was[i], Left(was, i, removed);
    LeftSplits(was, i, removed);
    KeptStep(was, i, removed);
    DistinctPosition(cur, |kept|);
    WithoutMiddle(kept, node, was[i + 1..]);
  }

  lemma LeftSplits(was: seq<Node>, i: nat, removed: set<Node>)
    requires i < |was|
    ensures Left(was, i, removed) == Kept(was[..i], removed) + [was[i]] + was[i + 1..]
  {
    assert was[i..] == [was[i]] + was[i + 1..];
  }

  lemma KeptStep(was: seq<Node>, i: nat, removed: set<Node>)
    requires i < |was|
    ensures Left(was, i + 1, removed) ==
              Kept(was[..i], removed) + (if was[i] in removed then [] else [was[i]]) + was[i + 1..]
  {
    assert was[..i + 1][..i] == was[..i];
  }

  lemma DistinctPosition(ns: seq<Node>, k: nat)
    requires Distinct(ns) && k < |ns|
    ensures ns[k] in ns && Position(ns, ns[k]) == k && (ns[0] == ns[k] <==> k == 0)
  {
    assert ns[Position(ns, ns[k])] == ns[k];
  }

  lemma WithoutMiddle(a: seq<Node>, x: Node, b: seq<Node>)
    requires x in a + [x] + b && Position(a + [x] + b, x) == |a|
    ensures Without(a + [x] + b, x) == a + b
  {
  }

  lemma NextInRing(ns: seq<Node>, k: nat)
    requires Ring(ns) && k < |ns|
    ensures ns[k].next == (if k == |ns| - 1 then ns[0] else ns[k + 1])
    ensures ns[k].next == ns[0] <==> k == |ns| - 1
  {
  }

  lemma UpToStep(was: seq<Node>, i: nat, exit: set<Node>)
    requires i <= |was| && UpTo(was, exit) == was[..i] + UpTo(was[i..], exit)
    ensures i < |was| && was[i] in exit ==> UpTo(was, exit) == was[..i + 1]
    ensures i < |was| && was[i] !in exit ==> UpTo(was, exit) == was[..i + 1] + UpTo(was[i + 1..], exit)
    ensures i == |was| ==> UpTo(was, exit) == was
  {
    if i < |was| {
      assert was[i..][..1] == [was[i]] && was[i..][1..] == was[i + 1..];
      assert was[..i] + [was[i]] == was[..i + 1];
    } else {
      assert was[i..] == [] && was[..i] == was;
    }
  }

  // What a callback does to the list.
  method Callback(list: List, node: Node, removed: set<Node>)
    requires list.Valid() && node in list.nodes
    modifies list, list.nodes
    ensures list.Valid() && node in old(list.nodes)
    ensures node in removed ==> node.Alone() && list.nodes == Without(old(list.nodes), node)
    ensures node !in removed ==> node.next == old(node.next) && list.nodes == old(list.nodes)
  {
    if node in removed {
      list.Remove(node);
    }
  }

  // CF_CList_Traverse from the head with a callback that takes the nodes in
  // `removed` off the list as it is called for them, and asks to stop at those in
  // `exit`: each node up to the first exit is visited once and in order.
  method Traverse(list: List, removed: set<Node>, exit: set<Node>) returns (visited: seq<Node>)
    requires list.Valid()
    modifies list, list.nodes
    ensures list.Valid()
    ensures visited == UpTo(old(list.nodes), exit)
    ensures list.nodes == Left(old(list.nodes), |visited|, removed)
  {
    hide Ring, Distinct, Kept, UpTo, Without, Position, Left;
    ghost var was := list.nodes;
    StartTraversal(was, removed, exit);
    visited := [];
    var start := list.head;
    var node := list.head;
    if node == null {
      return;
    }
    var last := false;
    while !last
      invariant list.Valid()
      invariant |visited| <= |was| && visited == was[..|visited|]
      invariant list.nodes == Left(was, |visited|, removed)
      invariant UpTo(was, exit) == was[..|visited|] + UpTo(was[|visited|..], exit)
      invariant last <==> |visited| == |was|
      invariant !last ==> node == was[|visited|] && list.nodes != [] && start == list.nodes[0]
      invariant forall i :: 0 <= i < |list.nodes| ==> list.nodes[i] in was
      decreases |was| - |visited|
      modifies list, was
    {
      ghost var i := |visited|;
      ghost var k := |Kept(was[..i], removed)|;
      RingIsDistinct(list.nodes);
      Visit(was, i, removed);
      UpToStep(was, i, exit);
      NextInRing(list.nodes, k);
      var nodeNext := node.next;
      last := nodeNext == start;
      visited := visited + [node];
      LeftFrom(was, i + 1, removed);
      Callback(list, node, removed);
      if node in exit {
        return;
      }
      if start == node && node.next != nodeNext {
        start := nodeNext;
      }
      node := nodeNext;
    }
    UpToStep(was, |visited|, exit);
  }

  lemma StartTraversal(was: seq<Node>, removed: set<Node>, exit: set<Node>)
    ensures Left(was, 0, removed) == was
    ensures UpTo(was, exit) == was[..0] + UpTo(was[0..], exit)
    ensures was == [] ==> UpTo(was, exit) == []
  {
    assert was[0..] == was && was[..0] == [];
  }

  lemma LeftFrom(was: seq<Node>, i: nat, removed: set<Node>)
    requires i <= |was|
    ensures forall m :: 0 <= m < |Left(was, i, removed)| ==> Left(was, i, removed)[m] in was
  {
  }

  lemma RingIsDistinct(ns: seq<Node>)
    requires Ring(ns)
    ensures Distinct(ns)
  {
  }
}
