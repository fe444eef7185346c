/**
  The doubly linked intrusive list of lib/glacier/container/intrusive_list.h.

  The links live in the elements. Valid says that the links, the ends and the size all represent
  one sequence.
 */
module IntrusiveList {
  import opened Common

  class Node {
    var next: Node?
    var prev: Node?

    constructor ()
      ensures next == null && prev == null
    {
      next, prev := null, null;
    }
  }

  ghost function Nth(s: seq<Node>, i: int): Node? { if 0 <= i < |s| then s[i] else null }

  ghost function Without(s: seq<Node>, i: int): seq<Node>
    requires 0 <= i < |s|
  {
    s[..i] + s[i + 1..]
  }

  lemma {:induction false} WithoutOnce(s: seq<Node>, i: int)
    requires 0 <= i < |s| && NoDup(s)
    ensures NoDup(Without(s, i)) && s[i] !in Without(s, i)
    ensures Nth(Without(s, i), 0) == Nth(s, if i == 0 then 1 else 0)
    ensures Nth(Without(s, i), |s| - 2) == Nth(s, if i == |s| - 1 then |s| - 2 else |s| - 1)
  {
  }

  lemma {:induction false} NthWithout(s: seq<Node>, i: int, k: int)
    requires 0 <= i < |s| && 0 <= k < |s| - 1
    ensures Without(s, i)[k] == s[if k < i then k else k + 1]
    ensures Nth(Without(s, i), k + 1) == Nth(s, if k + 1 < i then k + 1 else k + 2)
    ensures Nth(Without(s, i), k - 1) == Nth(s, if k - 1 < i then k - 1 else k)
  {
  }

  // Element i is linked to its neighbours.
  ghost predicate Linked(s: seq<Node>, i: int)
    requires 0 <= i < |s|
    reads s
  {
    s[i].next == Nth(s, i + 1) && s[i].prev == Nth(s, i - 1)
  }

  // Element k is linked to its neighbours other than element i.
  ghost predicate Bypasses(s: seq<Node>, i: int, k: int)
    requires 0 <= k < |s|
    reads s
  {
    s[k].next == Nth(s, if k + 1 == i then i + 1 else k + 1) && s[k].prev == Nth(s, if k - 1 == i then i - 1 else k - 1)
  }

  lemma {:induction false} BypassedIsLinked(s: seq<Node>, i: int)
    requires 0 <= i < |s| && forall k {:trigger Bypasses(s, i, k)} :: 0 <= k < |s| && k != i ==> Bypasses(s, i, k)
    ensures forall k {:trigger Linked(Without(s, i), k)} :: 0 <= k < |s| - 1 ==> Linked(Without(s, i), k)
  {
    forall k | 0 <= k < |s| - 1 ensures Linked(Without(s, i), k) {
      NthWithout(s, i, k);
      assert Bypasses(s, i, if k < i then k else k + 1);
    }
  }

  class IntrusiveList {
    var front: Node?
    var back: Node?
    var size: nat
    ghost var elems: seq<Node>

    ghost predicate Valid()
      reads this, elems
    {
      && size == |elems| && front == Nth(elems, 0) && back == Nth(elems, |elems| - 1) && NoDup(elems)
      && forall i {:trigger Linked(elems, i)} :: 0 <= i < |elems| ==> Linked(elems, i)
    }

    constructor ()
      ensures Valid() && elems == []
    {
      front, back, size, elems := null, null, 0, [];
    }

    method PushFront(obj: Node)
      requires Valid() && obj !in elems
      modifies this, obj, front
      ensures Valid() && elems == [obj] + old(elems)
    {
      size := size + 1;
      obj.next := front;
      obj.prev := null;
      elems := [obj] + elems;
      if front == null {
        front := obj;
        back := obj;
        return;
      }
      front.prev := obj;
      front := obj;
      forall k | 0 <= k < |elems| ensures Linked(elems, k) {
        if k > 0 { assert old(Linked(elems, k - 1)); }
      }
    }

    method PushBack(obj: Node)
      requires Valid() && obj !in elems
      modifies this, obj, back
      ensures Valid() && elems == old(elems) + [obj]
    {
      if front == null {
        PushFront(obj);
        return;
      }
      size := size + 1;
      back.next := obj;
      obj.prev := back;
      obj.next := null;
      back := obj;
      elems := elems + [obj];
      forall k | 0 <= k < |elems| ensures Linked(elems, k) {
        if k < |old(elems)| { assert old(Linked(elems, k)); }
      }
    }

    method Remove(obj: Node, ghost i: int)
      requires Valid() && 0 <= i < |elems| && elems[i] == obj
      modifies this, obj, obj.next, obj.prev
      ensures Valid() && elems == Without(old(elems), i) && obj.next == null && obj.prev == null
    {
      assert Linked(elems, i);
      if front == obj {
        front := obj.next;
      }
      if back == obj {
        back := obj.prev;
      }
      Unlink(obj, i);
      size := size - 1;
      WithoutOnce(elems, i);
      BypassedIsLinked(elems, i);
      elems := Without(elems, i);
    }

    // Joins the neighbours of obj.
    method Unlink(obj: Node, ghost i: int)
      requires 0 <= i < |elems| && elems[i] == obj && NoDup(elems)
               && forall k {:trigger Linked(elems, k)} :: 0 <= k < |elems| ==> Linked(elems, k)
      modifies obj, obj.next, obj.prev
      ensures obj.next == null && obj.prev == null
      ensures forall k {:trigger Bypasses(elems, i, k)} :: 0 <= k < |elems| && k != i ==> Bypasses(elems, i, k)
    {
      assert Linked(elems, i) && (i > 0 ==> Linked(elems, i - 1)) && (i + 1 < |elems| ==> Linked(elems, i + 1));
      if obj.prev != null {
        obj.prev.next := obj.next;
      }
      if obj.next != null {
        obj.next.prev := obj.prev;
      }
      obj.prev := null;
      obj.next := null;
      forall k | 0 <= k < |elems| && k != i ensures Bypasses(elems, i, k) {
        assert old(Linked(elems, k));
      }
    }

    method PopFront() returns (r: Node?)
      requires Valid()
      modifies this, front, if front == null then null else front.next
      ensures Valid()
      ensures r == Nth(old(elems), 0) && elems == if old(elems) == [] then [] else old(elems)[1..]
      ensures r != null ==> r.next == null && r.prev == null
    {
      if front == null {
        return null;
      }
      assert Linked(elems, 0) && (|elems| > 1 ==> Linked(elems, 1));
      size := size - 1;
      r := front;
      elems := elems[1..];
      if front == back {
        front := null;
        back := null;
        return;
      }
      front := front.next;
      front.prev := null;
      r.next := null;
      forall k | 0 <= k < |elems| ensures Linked(elems, k) {
        assert old(Linked(elems, k + 1));
      }
    }

    method PopBack() returns (r: Node?)
      requires Valid()
      modifies this, back, if back == null then null else back.prev, front
      ensures Valid()
      ensures r == Nth(old(elems), |old(elems)| - 1)
              && elems == if old(elems) == [] then [] else old(elems)[..|old(elems)| - 1]
      ensures r != null ==> r.next == null && r.prev == null
    {
      if back == null {
        return null;
      }
      ghost var n := |elems| - 1;
      assert Linked(elems, n) && (n > 0 ==> Linked(elems, n - 1));
      if front == back {
        r := PopFront();
        return;
      }
      size := size - 1;
      r := back;
      elems := elems[..n];
      back := back.prev;
      back.next := null;
      r.prev := null;
      forall k | 0 <= k < |elems| ensures Linked(elems, k) {
        assert old(Linked(elems, k));
      }
    }
  }

  // ----- A walk that removes as it goes -----

  ghost predicate Disjoint(s: seq<Node>, t: seq<Node>) { forall x :: x in s ==> x !in t }

  // Every listed node has a count; the first i are one lower than at the start.
  ghost predicate Counted(s: seq<Node>, start: map<Node, nat>, ticks: map<Node, nat>, i: nat) {
    forall k :: 0 <= k < |s| ==>
                  s[k] in start && s[k] in ticks && start[s[k]] >= 1 && ticks[s[k]] == start[s[k]] - if k < i then 1
                  else 0
  }

  // The walk over all has reached its i-th node.
  ghost predicate Reached(all: seq<Node>, start: map<Node, nat>, from: seq<Node>, to0: seq<Node>, to: seq<Node>,
                          i: nat) {
    i <= |all| && from == Kept(all, start, i) + all[i..] && to == to0 + Due(all, start, i)
  }

  lemma {:induction false} ReachedNode(all: seq<Node>, start: map<Node, nat>, from: seq<Node>, to0: seq<Node>,
                                       to: seq<Node>, i: nat)
    requires Reached(all, start, from, to0, to, i) && i < |all|
    ensures |Kept(all, start, i)| < |from| && from[|Kept(all, start, i)|] == all[i]
    ensures Nth(from, |Kept(all, start, i)| + 1) == Nth(all, i + 1)
    ensures if TicksOf(start, all[i]) == 1
            then Reached(all, start, Without(from, |Kept(all, start, i)|), to0, to + [all[i]], i + 1)
            else Reached(all, start, from, to0, to, i + 1)
  {
    var kept := Kept(all, start, i);
    assert all[i..] == [all[i]] + all[i + 1..];
    assert Without(from, |kept|) == kept + all[i + 1..];
    assert to0 + (Due(all, start, i) + [all[i]]) == to + [all[i]];
    assert kept + [] == kept && Due(all, start, i) + [] == Due(all, start, i);
    assert (kept + [all[i]]) + all[i + 1..] == from;
  }

  lemma {:induction false} ReachedStart(all: seq<Node>, start: map<Node, nat>, to0: seq<Node>)
    ensures Reached(all, start, all, to0, to0, 0)
  {
    assert [] + all[0..] == all && to0 + [] == to0;
  }

  lemma {:induction false} ReachedEnd(all: seq<Node>, start: map<Node, nat>, from: seq<Node>, to0: seq<Node>,
                                      to: seq<Node>)
    requires Reached(all, start, from, to0, to, |all|)
    ensures from == Kept(all, start, |all|)
  {
    assert all[|all|..] == [];
  }

  // Moves a node from one list to the back of another.
  method Move(from: IntrusiveList, to: IntrusiveList, node: Node, ghost k: int)
    requires from != to && from.Valid() && to.Valid() && Disjoint(from.elems, to.elems)
    requires 0 <= k < |from.elems| && from.elems[k] == node
    modifies from, to, from.elems, to.elems
    ensures from.Valid() && to.Valid() && Disjoint(from.elems, to.elems)
    ensures from.elems == Without(old(from.elems), k) && to.elems == old(to.elems) + [node]
  {
    assert Linked(from.elems, k);
    WithoutOnce(from.elems, k);
    assert node in from.elems && (node.next != null ==> node.next in from.elems)
    && (node.prev != null ==> node.prev in from.elems);
    from.Remove(node, k);
    assert to.back != null ==> to.back in to.elems;
    forall x | x in from.elems ensures x in old(from.elems) && x != node {
    }
    to.PushBack(node);
  }

  lemma {:induction false} CountedStep(s: seq<Node>, start: map<Node, nat>, ticks: map<Node, nat>, i: nat)
    requires Counted(s, start, ticks, i) && i < |s| && NoDup(s)
    ensures s[i] in ticks && ticks[s[i]] == start[s[i]] >= 1 && Counted(s, start, ticks[s[i] := ticks[s[i]] - 1], i + 1)
  {
  }

  ghost predicate Within(s: seq<Node>, nodes: set<Node>) { forall k :: 0 <= k < |s| ==> s[k] in nodes }

  ghost predicate Apart(from: IntrusiveList, to: IntrusiveList)
    reads from, to, from.elems, to.elems
  {
    from != to && from.Valid() && to.Valid() && Disjoint(from.elems, to.elems)
  }

  // The walk over all is at its i-th node, with what went before it decided.
  ghost predicate Walking(from: IntrusiveList, to: IntrusiveList, all: seq<Node>, start: map<Node, nat>,
                          ticks: map<Node, nat>,
                          to0: seq<Node>, i: nat, nodes: set<Node>)
    reads from, to, from.elems, to.elems
  {
    && Apart(from, to) && Within(from.elems, nodes) && Within(to.elems, nodes) && NoDup(all)
    && Reached(all, start, from.elems, to0, to.elems, i) && Counted(all, start, ticks, i)
  }

  method Visit(from: IntrusiveList, to: IntrusiveList, node: Node, ticks: map<Node, nat>, ghost all: seq<Node>,
               ghost start: map<Node, nat>, ghost to0: seq<Node>, ghost i: nat, ghost nodes: set<Node>)
    returns (next: Node?, ticks': map<Node, nat>)
    requires Walking(from, to, all, start, ticks, to0, i, nodes) && i < |all| && node == all[i]
    modifies from, to, nodes
    ensures Walking(from, to, all, start, ticks', to0, i + 1, nodes) && next == Nth(all, i + 1)
  {
    ghost var k := |Kept(all, start, i)|;
    ReachedNode(all, start, from.elems, to0, to.elems, i);
    CountedStep(all, start, ticks, i);
    assert Linked(from.elems, k);
    ticks' := ticks[node := ticks[node] - 1];
    next := node.next;
    if ticks'[node] == 0 {
      Move(from, to, node, k);
    }
  }

  /**
   * Takes one off every count and moves the nodes that reach zero from one list to the back of
   * the other, following the next pointers of the list it is changing.
   */
  method MoveDue(from: IntrusiveList, to: IntrusiveList, start: map<Node, nat>, ghost nodes: set<Node>)
    returns (ticks: map<Node, nat>)
    requires Apart(from, to) && Within(from.elems, nodes) && Within(to.elems, nodes)
    requires Counted(from.elems, start, start, 0)
    modifies from, to, nodes
    ensures Apart(from, to)
    ensures from.elems == Kept(old(from.elems), start, |old(from.elems)|)
    ensures to.elems == old(to.elems) + Due(old(from.elems), start, |old(from.elems)|)
    ensures Counted(old(from.elems), start, ticks, |old(from.elems)|)
  {
    ghost var all, to0 := from.elems, to.elems;
    ReachedStart(all, start, to0);
    ticks := Walk(from, to, start, all, to0, nodes);
    ReachedEnd(all, start, from.elems, to0, to.elems);
  }

  method Walk(from: IntrusiveList, to: IntrusiveList, start: map<Node, nat>, ghost all: seq<Node>, ghost to0: seq<Node>,
              ghost nodes: set<Node>) returns (ticks: map<Node, nat>)
    requires Walking(from, to, all, start, start, to0, 0, nodes) && from.front == Nth(all, 0)
    modifies from, to, nodes
    ensures Walking(from, to, all, start, ticks, to0, |all|, nodes)
  {
    ghost var i := 0;
    ticks := start;
    var node := from.front;
    while node != null
      invariant 0 <= i <= |all| && node == Nth(all, i) && Walking(from, to, all, start, ticks, to0, i, nodes)
      decreases |all| - i
    {
      node, ticks := Visit(from, to, node, ticks, all, start, to0, i, nodes);
      i := i + 1;
    }
  }
}
