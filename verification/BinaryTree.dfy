/**
  The parent-pointer search tree of lib/glacier/container/binary_tree.h.

  Nodes live in a store that maps references to cells, so that
  every link the code follows or changes is explicit.  Ghost state gives each node its
  in-order position and the range of positions its subtree covers; with that, the whole
  shape is described by conditions on one node and its neighbours.
 */
module BinaryTree {
  import opened Common
  import opened TreeLayout

  datatype Ref = Null | Ptr(address: nat)

  datatype Cell<V> = Cell(key: int, value: V, left: Ref, right: Ref, parent: Ref)

  type Store<V> = map<Ref, Cell<V>>

  // The range of each node, the number of positions, the node holding each key, and the
  // finite map the tree stands for.
  datatype Shape<V> = Shape(span: map<Ref, Span>, size: int, byKey: map<int, Ref>, entries: map<int, V>)

  // Positions follow the order of the keys.
  ghost predicate InOrder<V>(store: Store<V>, span: map<Ref, Span>, n: Ref, m: Ref) {
    && n in span && m in span && n in store && m in store
    && (span[n].at < span[m].at <==> store[n].key < store[m].key)
    && (span[n].at == span[m].at ==> n == m)
  }

  ghost predicate Ordered<V>(store: Store<V>, span: map<Ref, Span>, size: int) {
    && (forall n :: n in span ==> n in store && 0 <= span[n].at < size)
    && (forall n, m {:trigger InOrder(store, span, n, m)} :: n in span && m in span ==> InOrder(store, span, n, m))
  }

  lemma {:induction false} OrderAround<V>(store: Store<V>, span: map<Ref, Span>, size: int, n: Ref)
    requires Ordered(store, span, size) && n in span
    ensures forall m :: m in span ==> InOrder(store, span, n, m) && InOrder(store, span, m, n)
  {
  }

  ghost predicate Indexed<V>(store: Store<V>, sh: Shape<V>) {
    && (forall n :: n in sh.span ==> n in store && store[n].key in sh.byKey && sh.byKey[store[n].key] == n)
    && (forall k {:trigger sh.byKey[k]} :: k in sh.byKey ==>
          sh.byKey[k] in sh.span && sh.byKey[k] in store && store[sh.byKey[k]].key == k)
    && (forall k {:trigger sh.byKey[k]} :: k in sh.byKey ==>
                                             k in sh.entries && sh.entries[k] == store[sh.byKey[k]].value)
    && sh.byKey.Keys == sh.entries.Keys
  }

  // The left child, or its absence, agrees with the range of n.
  ghost predicate LeftLinked<V>(store: Store<V>, span: map<Ref, Span>, n: Ref)
    requires n in span && n in store
  {
    var l := store[n].left;
    && (l == Null <==> span[n].lo == span[n].at)
    && (l != Null ==> l in span && l in store && store[l].parent == n
                      && span[l].lo == span[n].lo && span[l].hi == span[n].at)
  }

  ghost predicate RightLinked<V>(store: Store<V>, span: map<Ref, Span>, n: Ref)
    requires n in span && n in store
  {
    var r := store[n].right;
    && (r == Null <==> span[n].at + 1 == span[n].hi)
    && (r != Null ==> r in span && r in store && store[r].parent == n
                      && span[r].lo == span[n].at + 1 && span[r].hi == span[n].hi)
  }

  ghost predicate ParentLinked<V>(store: Store<V>, root: Ref, span: map<Ref, Span>, n: Ref)
    requires n in store
  {
    var p := store[n].parent;
    && (p == Null <==> n == root)
    && (p != Null ==> p in span && p in store && (store[p].left == n || store[p].right == n))
  }

  // One node agrees with its range, its children and its parent.
  ghost predicate Linked<V>(store: Store<V>, root: Ref, span: map<Ref, Span>, size: int, n: Ref) {
    && n != Null && n in span && n in store
    && 0 <= span[n].lo <= span[n].at < span[n].hi <= size
    && LeftLinked(store, span, n)
    && RightLinked(store, span, n)
    && ParentLinked(store, root, span, n)
  }

  ghost predicate AllLinked<V>(store: Store<V>, root: Ref, span: map<Ref, Span>, size: int) {
    forall n {:trigger Linked(store, root, span, size, n)} :: n in span ==> Linked(store, root, span, size, n)
  }

  lemma {:induction false} LinkedAt<V>(store: Store<V>, root: Ref, span: map<Ref, Span>, size: int, n: Ref)
    requires AllLinked(store, root, span, size) && n in span
    ensures Linked(store, root, span, size, n)
  {
  }

  /** The links form a search tree with consistent parent pointers. */
  ghost predicate Tree<V>(store: Store<V>, root: Ref, sh: Shape<V>) {
    && Ordered(store, sh.span, sh.size)
    && Indexed(store, sh)
    && (root == Null ==> sh.span == map[] && sh.size == 0)
    && (root != Null ==> root in sh.span && sh.span[root].lo == 0 && sh.span[root].hi == sh.size)
    && AllLinked(store, root, sh.span, sh.size)
  }

  // Positions below `cut` hold smaller keys, the others larger or equal ones.
  ghost predicate CutBelow<V>(store: Store<V>, span: map<Ref, Span>, key: int, cut: int) {
    forall m :: m in span && m in store ==> (span[m].at < cut <==> store[m].key < key)
  }

  ghost predicate CutAbove<V>(store: Store<V>, span: map<Ref, Span>, key: int, cut: int) {
    forall m :: m in span && m in store ==> (span[m].at < cut <==> store[m].key <= key)
  }

  // Addresses from the given one on are unused.
  ghost predicate Below<V>(store: Store<V>, next: nat) {
    forall r :: r in store && r.Ptr? ==> r.address < next
  }

  class BinaryTree<V> {
    var store: Store<V>
    var root: Ref
    var nextAddress: nat
    ghost var sh: Shape<V>

    ghost predicate Valid()
      reads this
    {
      && Tree(store, root, sh)
      && Below(store, nextAddress)
    }

    ghost predicate At(n: Ref)
      reads this
    {
      Linked(store, root, sh.span, sh.size, n)
    }

    ghost function Map(): map<int, V>
      reads this
    {
      sh.entries
    }

    ghost predicate RootIs(key: int)
      reads this
    {
      root != Null && root in store && store[root].key == key
    }

    constructor ()
      ensures Valid() && Map() == map[]
    {
      store := map[];
      root := Null;
      nextAddress := 0;
      sh := Shape(map[], 0, map[], map[]);
    }

    method FindOrInsertionParent(key: int) returns (current: Ref)
      requires Valid()
      ensures current == Null <==> root == Null
      ensures current != Null ==> At(current)
      ensures current != Null && key <= store[current].key ==> CutBelow(store, sh.span, key, sh.span[current].at)
      ensures current != Null && key >= store[current].key ==> CutAbove(store, sh.span, key, sh.span[current].at + 1)
      ensures current != Null && key < store[current].key ==>
                store[current].left == Null && CutAbove(store, sh.span, key, sh.span[current].at)
      ensures current != Null && key > store[current].key ==>
                store[current].right == Null && CutBelow(store, sh.span, key, sh.span[current].at + 1)
    {
      if root == Null {
        return Null;
      }
      current := root;
      while true
        invariant current in sh.span
        invariant forall m :: m in sh.span ==> (sh.span[m].at < sh.span[current].lo ==> store[m].key < key)
        invariant forall m :: m in sh.span ==> (sh.span[m].at >= sh.span[current].hi ==> store[m].key > key)
        decreases sh.span[current].hi - sh.span[current].lo
      {
        assert At(current);
        OrderAround(store, sh.span, sh.size, current);
        if key == store[current].key {
          return;
        } else if key < store[current].key {
          if store[current].left == Null {
            return;
          }
          current := store[current].left;
        } else {
          if store[current].right == Null {
            return;
          }
          current := store[current].right;
        }
      }
    }

    method Find(key: int) returns (r: Option<V>)
      requires Valid()
      ensures r == if key in Map() then Some(Map()[key]) else None
    {
      var current := FindOrInsertionParent(key);
      if current == Null {
        return None;
      }
      if store[current].key == key {
        return Some(store[current].value);
      }
      return None;
    }

    /** Stores the value at the key, replacing the value of a key already present. */
    method Insert(key: int, value: V)
      requires Valid()
      modifies this
      ensures Valid() && Map() == old(Map())[key := value]
      ensures forall k :: old(RootIs(k)) ==> RootIs(k)
      ensures old(Map()) == map[] ==> RootIs(key)
    {
      if Map() == map[] { EmptyHasNoRoot(store, root, sh); }
      var parent := FindOrInsertionParent(key);
      if parent == Null {
        Plant(key, value);
      } else if store[parent].key > key {
        AddChild(parent, true, key, value);
      } else if store[parent].key < key {
        AddChild(parent, false, key, value);
      } else {
        Revalue(parent, value);
      }
    }

    method Revalue(n: Ref, value: V)
      requires Valid() && n in sh.span && n in store && store[n].key in sh.entries
      modifies this`store, this`sh
      ensures Valid() && Map() == old(Map())[old(store[n].key) := value]
      ensures forall k :: old(RootIs(k)) ==> RootIs(k)
    {
      RevalueKeepsTree(store, root, sh, n, value);
      sh := sh.(entries := sh.entries[store[n].key := value]);
      store := store[n := store[n].(value := value)];
    }

    method Plant(key: int, value: V)
      requires Valid() && root == Null
      modifies this
      ensures Valid() && Map() == old(Map())[key := value] && RootIs(key)
    {
      assert forall k :: k in sh.entries ==> k in sh.byKey && sh.byKey[k] in sh.span;
      root := Ptr(nextAddress);
      nextAddress := nextAddress + 1;
      store := store[root := Cell(key, value, Null, Null, Null)];
      sh := Shape(map[root := Span(0, 0, 1)], 1, map[key := root], map[key := value]);
      assert At(root);
    }

    method AddChild(parent: Ref, asLeft: bool, key: int, value: V)
      requires Valid() && CanGraft(store, root, sh, parent, asLeft, Ptr(nextAddress), key)
      modifies this
      ensures Valid() && Map() == old(Map())[key := value]
      ensures forall k :: old(RootIs(k)) ==> RootIs(k)
    {
      var leaf := Ptr(nextAddress);
      nextAddress := nextAddress + 1;
      GraftKeepsAll(store, root, sh, parent, asLeft, leaf, key, value);
      sh := Grafted(sh, parent, asLeft, leaf, key, value);
      store := GraftedStore(store, parent, asLeft, leaf, key, value);
    }

    ghost predicate TwoChildren(key: int)
      reads this
    {
      key in sh.byKey && sh.byKey[key] in store && store[sh.byKey[key]].left != Null
      && store[sh.byKey[key]].right != Null
    }

    ghost function Layout(): Layout
      reads this
    {
      LayoutOf(sh)
    }

    /**
      Deleting the key leaves this other one: with two children, the next key takes over the place of
      the node with its own subtree, and the rest of the subtree of the node is lost.
     */
    ghost predicate Leaves(key: int, k: int)
      reads this
    {
      StaysWithout(Layout(), TwoChildren(key), key, k)
    }

    /** Removes the key, and what goes with it; w is the gap that closes in the layout. */
    method Delete(key: int) returns (ghost w: Window)
      requires Valid()
      modifies this
      ensures Valid()
      ensures forall k :: k in Map() <==> k in old(Map()) && old(Leaves(key, k))
      ensures forall k :: k in Map() ==> Map()[k] == old(Map())[k]
      ensures Map() == old(Map()) - {key} <==> !old(TwoChildren(key))
      ensures key in old(Map()) ==> IsCut(old(Layout()), key, w) && Layout() == Cut(old(Layout()), w)
    {
      var node := FindOrInsertionParent(key);
      w := Window(0, 0, 0, 0);
      if node == Null || store[node].key != key {
        return;
      }
      ghost var before := store;
      var child := Replacement(node);
      w := WindowOf(sh.span, node, child);
      Relink(before, node, child);
      LayoutAfterDelete(before, old(root), old(sh), node, child, key, w);
    }

    // The node that takes the place of a deleted one.
    method Replacement(node: Ref) returns (child: Ref)
      requires Valid() && node in sh.span && sh.byKey[store[node].key] == node
      modifies this`store
      ensures CanPrune(old(store), root, sh.span, sh.size, node, child)
      ensures StayingCells(old(store), sh.span, WindowOf(sh.span, node, child), store)
      ensures node in store && store[node] == old(store)[node] && Below(store, nextAddress)
      ensures Pruned(sh, node, child).entries == Map() - {store[node].key} <==> !old(TwoChildren(store[node].key))
      ensures Replaces(old(store), sh.span, node, child)
    {
      LinkedAt(store, root, sh.span, sh.size, node);
      if store[node].left == Null {
        child := store[node].right;
        PruneOne(store, root, sh, node, child);
      } else if store[node].right == Null {
        child := store[node].left;
        PruneOne(store, root, sh, node, child);
      } else {
        child := FirstBelow(store[node].right);
        PruneTwo(store, root, sh, node, child);
        assert store[store[node].left].key in Map() - {store[node].key};
        if child != store[node].right {
          var above := store[child].parent;
          UnhookKeepsCells(store, root, sh, node, child, above, store[above].(left := store[child].right));
          store := store[above := store[above].(left := store[child].right)];
        }
      }
    }

    method FirstBelow(top: Ref) returns (n: Ref)
      requires Valid() && top in sh.span
      ensures n in sh.span && sh.span[n].at == sh.span[n].lo == sh.span[top].lo
      ensures n != top ==> store[n].parent in sh.span && store[store[n].parent].left == n
                           && sh.span[n].hi <= sh.span[store[n].parent].at < sh.span[top].hi
    {
      n := top;
      while store[n].left != Null
        invariant At(n) && sh.span[n].lo == sh.span[top].lo && sh.span[n].hi <= sh.span[top].hi
        invariant n != top ==> store[n].parent in sh.span && store[store[n].parent].left == n
                               && sh.span[n].hi <= sh.span[store[n].parent].at < sh.span[top].hi
        decreases sh.span[n].hi - sh.span[n].lo
      {
        n := store[n].left;
        LinkedAt(store, root, sh.span, sh.size, n);
      }
    }

    method Relink(ghost before: Store<V>, node: Ref, child: Ref)
      requires CanRelink(before, root, sh, node, child, store, nextAddress)
      modifies this
      ensures Valid() && sh == Pruned(old(sh), node, child)
      ensures PrunedFrom(before, old(sh).span, WindowOf(old(sh).span, node, child), node, child, store)
    {
      RelinkKeepsTree(before, root, sh, node, child, store, nextAddress);
      RelinkPrunes(before, root, sh.span, sh.size, node, child, store);
      PutInPlace(node, child, Pruned(sh, node, child));
    }

    // Points the links around node at child; sh' is the shape of what results.
    method PutInPlace(node: Ref, child: Ref, ghost sh': Shape<V>)
      requires node in store && (node != root ==> store[node].parent in store) && (child != Null ==> child in store)
      requires Tree(Relinked(store, root, node, child), if node == root then child else root, sh')
      requires Below(Relinked(store, root, node, child), nextAddress)
      modifies this
      ensures Valid() && sh == sh' && store == Relinked(old(store), old(root), node, child)
    {
      store := Relinked(store, root, node, child);
      if node == root {
        root := child;
      }
      sh := sh';
    }

    method Predecessor(key: int) returns (r: Option<V>)
      requires Valid()
      ensures IsPredecessor(Map(), key, r)
    {
      var current := FindOrInsertionParent(key);
      if current == Null {
        return None;
      }
      ghost var cut := sh.span[current].at;
      if store[current].key < key {
        TopOfCut(store, root, sh, key, cut + 1, current);
        return Some(store[current].value);
      }
      if store[current].left != Null {
        current := store[current].left;
        while store[current].right != Null
          invariant current in sh.span && sh.span[current].hi == cut
          decreases sh.span[current].hi - sh.span[current].lo
        {
          assert At(current);
          current := store[current].right;
        }
        assert At(current);
        TopOfCut(store, root, sh, key, cut, current);
        return Some(store[current].value);
      }
      var parent := store[current].parent;
      while parent != Null && store[parent].left == current
        invariant At(current) && parent == store[current].parent && sh.span[current].lo == cut
        decreases sh.size - (sh.span[current].hi - sh.span[current].lo)
      {
        assert At(parent);
        current := parent;
        parent := store[current].parent;
      }
      if parent != Null {
        assert At(parent);
        TopOfCut(store, root, sh, key, cut, parent);
        return Some(store[parent].value);
      }
      NoneInCut(store, root, sh, key);
      return None;
    }

    method Successor(key: int) returns (r: Option<V>)
      requires Valid()
      ensures IsSuccessor(Map(), key, r)
    {
      var current := FindOrInsertionParent(key);
      if current == Null {
        return None;
      }
      ghost var cut := sh.span[current].at;
      if store[current].key > key {
        BottomOfCut(store, root, sh, key, cut, current);
        return Some(store[current].value);
      }
      cut := cut + 1;
      if store[current].right != Null {
        current := store[current].right;
        while store[current].left != Null
          invariant current in sh.span && sh.span[current].lo == cut
          decreases sh.span[current].hi - sh.span[current].lo
        {
          assert At(current);
          current := store[current].left;
        }
        assert At(current);
        BottomOfCut(store, root, sh, key, cut, current);
        return Some(store[current].value);
      }
      var parent := store[current].parent;
      while parent != Null && store[parent].right == current
        invariant At(current) && parent == store[current].parent && sh.span[current].hi == cut
        decreases sh.size - (sh.span[current].hi - sh.span[current].lo)
      {
        assert At(parent);
        current := parent;
        parent := store[current].parent;
      }
      if parent != Null {
        assert At(parent);
        BottomOfCut(store, root, sh, key, cut, parent);
        return Some(store[parent].value);
      }
      NoneAboveCut(store, root, sh, key);
      return None;
    }
  }

  // The node just below the cut holds the greatest key below the key searched for.
  lemma {:induction false} TopOfCut<V>(store: Store<V>, root: Ref, sh: Shape<V>, key: int, cut: int, n: Ref)
    requires Tree(store, root, sh) && CutBelow(store, sh.span, key, cut)
    requires n in sh.span && sh.span[n].at == cut - 1
    ensures IsPredecessor(sh.entries, key, Some(store[n].value))
  {
    var b := store[n].key;
    assert b in sh.entries && b < key && sh.entries[b] == store[n].value;
    OrderAround(store, sh.span, sh.size, n);
    forall k | k in sh.entries && k < key ensures k <= b {
      assert sh.byKey[k] in sh.span;
    }
  }

  lemma {:induction false} NoneInCut<V>(store: Store<V>, root: Ref, sh: Shape<V>, key: int)
    requires Tree(store, root, sh) && CutBelow(store, sh.span, key, 0)
    ensures IsPredecessor(sh.entries, key, None)
  {
    forall k | k in sh.entries ensures key <= k {
      assert sh.byKey[k] in sh.span;
    }
  }

  lemma {:induction false} BottomOfCut<V>(store: Store<V>, root: Ref, sh: Shape<V>, key: int, cut: int, n: Ref)
    requires Tree(store, root, sh) && CutAbove(store, sh.span, key, cut)
    requires n in sh.span && sh.span[n].at == cut
    ensures IsSuccessor(sh.entries, key, Some(store[n].value))
  {
    var b := store[n].key;
    assert b in sh.entries && b > key && sh.entries[b] == store[n].value;
    OrderAround(store, sh.span, sh.size, n);
    forall k | k in sh.entries && k > key ensures b <= k {
      assert sh.byKey[k] in sh.span;
    }
  }

  lemma {:induction false} NoneAboveCut<V>(store: Store<V>, root: Ref, sh: Shape<V>, key: int)
    requires Tree(store, root, sh) && CutAbove(store, sh.span, key, sh.size)
    ensures IsSuccessor(sh.entries, key, None)
  {
    forall k | k in sh.entries ensures k <= key {
      assert sh.byKey[k] in sh.span;
    }
  }

  lemma {:induction false} EmptyHasNoRoot<V>(store: Store<V>, root: Ref, sh: Shape<V>)
    requires Tree(store, root, sh) && sh.entries == map[]
    ensures root == Null
  {
  }

  lemma {:induction false} RevalueKeepsLinks<V>(store: Store<V>, root: Ref, span: map<Ref, Span>, size: int, n: Ref,
                                                value: V)
    requires AllLinked(store, root, span, size) && n in span && n in store
    ensures AllLinked(store[n := store[n].(value := value)], root, span, size)
  {
    forall m | m in span ensures Linked(store[n := store[n].(value := value)], root, span, size, m) {
      assert Linked(store, root, span, size, m);
    }
  }

  lemma {:induction false} RevalueKeepsTree<V>(store: Store<V>, root: Ref, sh: Shape<V>, n: Ref, value: V)
    requires Tree(store, root, sh) && n in sh.span
    ensures Tree(store[n := store[n].(value := value)], root, sh.(entries := sh.entries[store[n].key := value]))
  {
    var store' := store[n := store[n].(value := value)];
    forall l, m | l in sh.span && m in sh.span ensures InOrder(store', sh.span, l, m) {
      assert InOrder(store, sh.span, l, m);
    }
    RevalueKeepsLinks(store, root, sh.span, sh.size, n, value);
  }

  // Ranges after a new leaf takes position pos, as a left or as a right child.
  ghost function Shifted(s: Span, pos: int, asLeft: bool): Span {
    Span(if s.lo > pos || (!asLeft && s.lo == pos) then s.lo + 1 else s.lo,
         if s.at >= pos then s.at + 1 else s.at,
         if s.hi > pos || (!asLeft && s.hi == pos) then s.hi + 1 else s.hi)
  }

  ghost function GraftedSpan(span: map<Ref, Span>, pos: int, asLeft: bool, leaf: Ref): map<Ref, Span> {
    (map n | n in span :: Shifted(span[n], pos, asLeft))[leaf := Span(pos, pos, pos + 1)]
  }

  // The position a new leaf takes beside its parent.
  ghost function LeafPosition(span: map<Ref, Span>, parent: Ref, asLeft: bool): int
    requires parent in span
  {
    if asLeft then span[parent].at else span[parent].at + 1
  }

  ghost function Grafted<V>(sh: Shape<V>, parent: Ref, asLeft: bool, leaf: Ref, key: int, value: V): Shape<V>
    requires parent in sh.span
  {
    Shape(GraftedSpan(sh.span, LeafPosition(sh.span, parent, asLeft), asLeft, leaf), sh.size + 1, sh.byKey[key := leaf],
          sh.entries[key := value])
  }

  // The cells after a new leaf is attached to its parent.
  function GraftedStore<V>(store: Store<V>, parent: Ref, asLeft: bool, leaf: Ref, key: int, value: V): Store<V>
    requires parent in store
  {
    var planted := store[leaf := Cell(key, value, Null, Null, Null)];
    var p := planted[parent];
    var hung := planted[parent := if asLeft then p.(left := leaf) else p.(right := leaf)];
    hung[leaf := hung[leaf].(parent := parent)]
  }

  ghost predicate CanGraft<V>(store: Store<V>, root: Ref, sh: Shape<V>, parent: Ref, asLeft: bool, leaf: Ref,
                              key: int) {
    && Tree(store, root, sh) && parent in sh.span && leaf !in store && leaf != Null && key !in sh.entries
    && (if asLeft then store[parent].left == Null else store[parent].right == Null)
    && CutBelow(store, sh.span, key, LeafPosition(sh.span, parent, asLeft))
  }

  lemma {:induction false} GraftKeepsOrder<V>(store: Store<V>, span: map<Ref, Span>, size: int, pos: int,
                           parent: Ref, asLeft: bool, leaf: Ref, key: int, value: V)
    requires Ordered(store, span, size) && parent in store && leaf !in store && 0 <= pos <= size
    requires CutBelow(store, span, key, pos) && forall n :: n in span ==> store[n].key != key
    ensures Ordered(GraftedStore(store, parent, asLeft, leaf, key, value), GraftedSpan(span, pos, asLeft, leaf),
                    size + 1)
  {
    var store', span' := GraftedStore(store, parent, asLeft, leaf, key, value), GraftedSpan(span, pos, asLeft, leaf);
    forall n, m | n in span' && m in span' ensures InOrder(store', span', n, m) {
      assert n in span && m in span ==> InOrder(store, span, n, m);
    }
  }

  lemma {:induction false} GraftKeepsIndex<V>(store: Store<V>, sh: Shape<V>, parent: Ref, asLeft: bool, leaf: Ref,
                                              key: int, value: V)
    requires Indexed(store, sh) && parent in store && parent in sh.span && leaf !in store && key !in sh.entries
    ensures Indexed(GraftedStore(store, parent, asLeft, leaf, key, value),
                    Grafted(sh, parent, asLeft, leaf, key, value))
  {
  }

  lemma {:induction false} GraftKeepsLinks<V>(store: Store<V>, root: Ref, span: map<Ref, Span>, size: int,
                           parent: Ref, asLeft: bool, leaf: Ref, key: int, value: V, n: Ref)
    requires Linked(store, root, span, size, parent) && Linked(store, root, span, size, n)
    requires leaf !in store && leaf != Null
    requires if asLeft then store[parent].left == Null else store[parent].right == Null
    requires span[n].at == span[parent].at ==> n == parent
    ensures Linked(GraftedStore(store, parent, asLeft, leaf, key, value), root,
                   GraftedSpan(span, LeafPosition(span, parent, asLeft), asLeft, leaf), size + 1, n)
  {
  }

  lemma {:induction false} GraftLinksLeaf<V>(store: Store<V>, root: Ref, span: map<Ref, Span>, size: int,
                          parent: Ref, asLeft: bool, leaf: Ref, key: int, value: V)
    requires Linked(store, root, span, size, parent)
    requires leaf !in store && leaf != Null && leaf != root
    requires if asLeft then store[parent].left == Null else store[parent].right == Null
    ensures Linked(GraftedStore(store, parent, asLeft, leaf, key, value), root,
                   GraftedSpan(span, LeafPosition(span, parent, asLeft), asLeft, leaf), size + 1, leaf)
  {
  }

  lemma {:induction false} GraftKeepsAllLinks<V>(store: Store<V>, root: Ref, span: map<Ref, Span>, size: int,
                              parent: Ref, asLeft: bool, leaf: Ref, key: int, value: V)
    requires AllLinked(store, root, span, size) && parent in span && parent in store
    requires leaf !in store && leaf != Null && leaf != root
    requires if asLeft then store[parent].left == Null else store[parent].right == Null
    requires forall n :: n in span && span[n].at == span[parent].at ==> n == parent
    ensures AllLinked(GraftedStore(store, parent, asLeft, leaf, key, value), root,
                      GraftedSpan(span, LeafPosition(span, parent, asLeft), asLeft, leaf), size + 1)
  {
    var pos := LeafPosition(span, parent, asLeft);
    var store', span' := GraftedStore(store, parent, asLeft, leaf, key, value), GraftedSpan(span, pos, asLeft, leaf);
    LinkedAt(store, root, span, size, parent);
    forall n | n in span' ensures Linked(store', root, span', size + 1, n) {
      if n == leaf {
        GraftLinksLeaf(store, root, span, size, parent, asLeft, leaf, key, value);
      } else {
        LinkedAt(store, root, span, size, n);
        GraftKeepsLinks(store, root, span, size, parent, asLeft, leaf, key, value, n);
      }
    }
  }

  lemma {:induction false} GraftedOrder<V>(store: Store<V>, root: Ref, sh: Shape<V>, parent: Ref, asLeft: bool,
                                           leaf: Ref, key: int, value: V)
    requires CanGraft(store, root, sh, parent, asLeft, leaf, key)
    ensures Ordered(GraftedStore(store, parent, asLeft, leaf, key, value),
                    GraftedSpan(sh.span, LeafPosition(sh.span, parent, asLeft), asLeft, leaf), sh.size + 1)
  {
    assert forall n :: n in sh.span ==> store[n].key != key;
    GraftKeepsOrder(store, sh.span, sh.size, LeafPosition(sh.span, parent, asLeft), parent, asLeft, leaf, key, value);
  }

  lemma {:induction false} GraftedLinks<V>(store: Store<V>, root: Ref, sh: Shape<V>, parent: Ref, asLeft: bool,
                                           leaf: Ref, key: int, value: V)
    requires CanGraft(store, root, sh, parent, asLeft, leaf, key)
    ensures AllLinked(GraftedStore(store, parent, asLeft, leaf, key, value), root,
                      GraftedSpan(sh.span, LeafPosition(sh.span, parent, asLeft), asLeft, leaf), sh.size + 1)
  {
    OrderAround(store, sh.span, sh.size, parent);
    GraftKeepsAllLinks(store, root, sh.span, sh.size, parent, asLeft, leaf, key, value);
  }

  /** A new leaf keeps the shape and adds one entry to the map. */
  lemma {:induction false} GraftKeepsTree<V>(store: Store<V>, root: Ref, sh: Shape<V>, parent: Ref, asLeft: bool,
                                             leaf: Ref, key: int, value: V)
    requires CanGraft(store, root, sh, parent, asLeft, leaf, key)
    ensures Tree(GraftedStore(store, parent, asLeft, leaf, key, value), root,
                 Grafted(sh, parent, asLeft, leaf, key, value))
  {
    GraftedOrder(store, root, sh, parent, asLeft, leaf, key, value);
    GraftKeepsIndex(store, sh, parent, asLeft, leaf, key, value);
    GraftedLinks(store, root, sh, parent, asLeft, leaf, key, value);
  }

  // What is left to know of the new leaf.
  lemma {:induction false} GraftKeepsAll<V>(store: Store<V>, root: Ref, sh: Shape<V>, parent: Ref, asLeft: bool,
                                            leaf: Ref, key: int, value: V)
    requires CanGraft(store, root, sh, parent, asLeft, leaf, key) && leaf.Ptr? && Below(store, leaf.address)
    ensures var store', sh' := GraftedStore(store, parent, asLeft, leaf, key, value),
                               Grafted(sh, parent, asLeft, leaf, key, value);
            && Tree(store', root, sh') && Below(store', leaf.address + 1) && sh'.entries == sh.entries[key := value]
            && (root in store ==> root in store' && store'[root].key == store[root].key)
  {
    GraftKeepsTree(store, root, sh, parent, asLeft, leaf, key, value);
  }

  // ----- The layout of the keys -----

  ghost function LayoutOf<V>(sh: Shape<V>): Layout {
    map k | k in sh.byKey && sh.byKey[k] in sh.span :: sh.span[sh.byKey[k]]
  }

  // Every position of a subtree has a node.
  lemma {:induction false} NodeAt<V>(store: Store<V>, root: Ref, span: map<Ref, Span>, size: int, n: Ref, x: int)
    returns (m: Ref)
    requires AllLinked(store, root, span, size) && n in span && span[n].lo <= x < span[n].hi
    ensures m in span && span[m].at == x
    decreases span[n].hi - span[n].lo
  {
    LinkedAt(store, root, span, size, n);
    m := n;
    if x < span[n].at {
      m := NodeAt(store, root, span, size, store[n].left, x);
    } else if x > span[n].at {
      m := NodeAt(store, root, span, size, store[n].right, x);
    }
  }

  // A node is not in the subtree of another one in its own subtree.
  lemma {:induction false} NotBothWithin<V>(store: Store<V>, root: Ref, span: map<Ref, Span>, size: int, n: Ref, m: Ref)
    requires AllLinked(store, root, span, size) && Distinct(span) && n in span && m in span && n != m
    requires span[n].lo <= span[m].at < span[n].hi
    ensures !(span[m].lo <= span[n].at < span[m].hi)
  {
    LinkedAt(store, root, span, size, n);
    Within(store, root, span, size, if span[m].at < span[n].at then store[n].left else store[n].right, m);
  }

  lemma {:induction false} KeysNested<V>(store: Store<V>, root: Ref, sh: Shape<V>, j: int, k: int)
    requires Tree(store, root, sh) && j in sh.byKey && k in sh.byKey
    ensures Nested(LayoutOf(sh), j, k)
  {
    var n, m := sh.byKey[j], sh.byKey[k];
    OrderedIsDistinct(store, sh.span, sh.size);
    assert InOrder(store, sh.span, n, m);
    if sh.span[n].lo <= sh.span[m].at < sh.span[n].hi {
      Within(store, root, sh.span, sh.size, n, m);
      if n != m { NotBothWithin(store, root, sh.span, sh.size, n, m); }
    }
  }

  /** The keys of a tree are laid out as its subtrees are nested. */
  lemma {:induction false} TreeIsLaid<V>(store: Store<V>, root: Ref, sh: Shape<V>)
    requires Tree(store, root, sh)
    ensures Laid(LayoutOf(sh), sh.size) && LayoutOf(sh).Keys == sh.entries.Keys
  {
    var t := LayoutOf(sh);
    forall k | k in sh.byKey ensures k in t && Placed(t, sh.size, k) {
      LinkedAt(store, root, sh.span, sh.size, sh.byKey[k]);
    }
    forall k ensures k in t.Keys <==> k in sh.byKey.Keys { assert k in t <==> k in sh.byKey; }
    forall j, k | j in t && k in t ensures Nested(t, j, k) { KeysNested(store, root, sh, j, k); }
    forall x | 0 <= x < sh.size ensures Taken(t, x) {
      var m := NodeAt(store, root, sh.span, sh.size, root, x);
      assert store[m].key in t;
    }
  }

  /** The root has every key under it. */
  lemma {:induction false} RootIsOver<V>(t: BinaryTree<V>, base: int, l: int, g: int)
    requires t.Valid() && t.RootIs(base) && l in t.Map() && g in t.Map() && l < base < g
    ensures HasRight(t.Layout(), base) && Under(t.Layout(), base, l)
  {
    LinkedAt(t.store, t.root, t.sh.span, t.sh.size, t.root);
    TreeIsLaid(t.store, t.root, t.sh);
    assert t.sh.byKey[base] == t.root;
    PlacedAt(t.Layout(), t.sh.size, l);
    NestedAt(t.Layout(), t.sh.size, base, g);
  }

  // ----- Removing a node -----

  ghost function WindowOf(span: map<Ref, Span>, n: Ref, child: Ref): Window
    requires n in span && (child != Null ==> child in span)
  {
    if child == Null then Window(span[n].lo, span[n].hi, span[n].hi, span[n].hi)
    else Window(span[n].lo, span[child].lo, span[child].hi, span[n].hi)
  }

  ghost function PrunedSpan(span: map<Ref, Span>, w: Window): map<Ref, Span> {
    map m | m in span && w.Stays(span[m].at) :: Span(w.Close(span[m].lo), w.Close(span[m].at), w.Close(span[m].hi))
  }

  ghost predicate Distinct(span: map<Ref, Span>) {
    forall l, k :: l in span && k in span && span[l].at == span[k].at ==> l == k
  }

  // A node whose position lies in the range of n has its whole range there.
  lemma {:induction false} Within<V>(store: Store<V>, root: Ref, span: map<Ref, Span>, size: int, n: Ref, m: Ref)
    requires AllLinked(store, root, span, size) && n in span && m in span
    requires Distinct(span)
    requires span[n].lo <= span[m].at < span[n].hi
    ensures span[n].lo <= span[m].lo && span[m].hi <= span[n].hi
    decreases span[n].hi - span[n].lo
  {
    LinkedAt(store, root, span, size, n);
    if span[m].at < span[n].at {
      LinkedAt(store, root, span, size, store[n].left);
      Within(store, root, span, size, store[n].left, m);
    } else if span[m].at > span[n].at {
      LinkedAt(store, root, span, size, store[n].right);
      Within(store, root, span, size, store[n].right, m);
    }
  }

  // Below the top of a subtree, parents belong to it as well.
  lemma {:induction false} ParentWithin<V>(store: Store<V>, root: Ref, span: map<Ref, Span>, size: int, n: Ref, m: Ref)
    requires AllLinked(store, root, span, size) && n in span && m in span && m in store && n != m
    requires Distinct(span)
    requires span[n].lo <= span[m].at < span[n].hi
    ensures store[m].parent in span && span[n].lo <= span[store[m].parent].at < span[n].hi
    decreases span[n].hi - span[n].lo
  {
    LinkedAt(store, root, span, size, n);
    var c := if span[m].at < span[n].at then store[n].left else store[n].right;
    LinkedAt(store, root, span, size, c);
    if c != m {
      ParentWithin(store, root, span, size, c, m);
    }
  }

  // What a staying cell becomes when child takes the place of n below the parent of n.
  ghost function PrunedCell<V>(store: Store<V>, n: Ref, child: Ref, m: Ref): Cell<V>
    requires n in store && m in store
  {
    var c := store[m];
    if m == child then c.(parent := store[n].parent)
    else if m != store[n].parent then c
    else if c.right == n then c.(right := child)
    else c.(left := child)
  }

  ghost predicate PrunedFrom<V>(store: Store<V>, span: map<Ref, Span>, w: Window, n: Ref, child: Ref, store': Store<V>)
    requires n in store
  {
    forall m :: m in span && w.Stays(span[m].at) ==>
                  m in store && m in store' && store'[m] == PrunedCell(store, n, child, m)
  }

  ghost predicate StayingCells<V>(store: Store<V>, span: map<Ref, Span>, w: Window, store': Store<V>) {
    forall m :: m in span && w.Stays(span[m].at) ==> m in store && m in store' && store'[m] == store[m]
  }

  // n gives way to child, a node of its subtree or nothing.
  ghost predicate CanPrune<V>(store: Store<V>, root: Ref, span: map<Ref, Span>, size: int, n: Ref, child: Ref) {
    && AllLinked(store, root, span, size) && Distinct(span)
    && n in span && n in store
    && (child != Null ==> child in span && child in store && child != n
                          && span[n].lo <= span[child].lo && span[child].hi <= span[n].hi
                          && !(span[child].lo <= span[n].at < span[child].hi))
  }

  // The neighbours of a staying node stay, except n itself.
  ghost predicate NeighboursStay<V>(store: Store<V>, span: map<Ref, Span>, w: Window, n: Ref, child: Ref, m: Ref)
    requires m in store
  {
    var c := store[m];
    && (c.left != Null && c.left != n ==> c.left in span && w.Stays(span[c.left].at))
    && (c.right != Null && c.right != n ==> c.right in span && w.Stays(span[c.right].at))
    && (m != child && c.parent != Null ==> c.parent in span && w.Stays(span[c.parent].at))
    && (child != Null ==> c.left != child && c.right != child)
  }

  lemma {:induction false} StayingNeighbours<V>(store: Store<V>, root: Ref, span: map<Ref, Span>, size: int, n: Ref,
                                                child: Ref, m: Ref)
    requires CanPrune(store, root, span, size, n, child)
    requires m in span && m in store && WindowOf(span, n, child).Stays(span[m].at)
    ensures NeighboursStay(store, span, WindowOf(span, n, child), n, child, m)
  {
    LinkedAt(store, root, span, size, m);
    LinkedAt(store, root, span, size, n);
    if child != Null {
      LinkedAt(store, root, span, size, child);
      ParentWithin(store, root, span, size, n, child);
    }
    if child != Null && span[child].lo <= span[m].at < span[child].hi {
      Within(store, root, span, size, child, m);
      if store[m].left != Null { LinkedAt(store, root, span, size, store[m].left); }
      if store[m].right != Null { LinkedAt(store, root, span, size, store[m].right); }
      if m != child { ParentWithin(store, root, span, size, child, m); }
    } else {
      OutsideNeighbours(store, root, span, size, n, m);
    }
  }

  lemma {:induction false} OutsideNeighbours<V>(store: Store<V>, root: Ref, span: map<Ref, Span>, size: int, n: Ref,
                                                m: Ref)
    requires AllLinked(store, root, span, size) && Distinct(span) && n in span && m in span && m in store
    requires !(span[n].lo <= span[m].at < span[n].hi)
    ensures forall c :: c in {store[m].left, store[m].right, store[m].parent} && c != Null && c != n
                        ==> c in span && !(span[n].lo <= span[c].at < span[n].hi)
  {
    LinkedAt(store, root, span, size, m);
    forall c | c in {store[m].left, store[m].right} && c != Null && c != n
      ensures c in span && !(span[n].lo <= span[c].at < span[n].hi)
    {
      LinkedAt(store, root, span, size, c);
      if span[n].lo <= span[c].at < span[n].hi {
        ParentWithin(store, root, span, size, n, c);
      }
    }
    var p := store[m].parent;
    if p != Null && span[n].lo <= span[p].at < span[n].hi {
      LinkedAt(store, root, span, size, p);
      Within(store, root, span, size, n, p);
    }
  }

  // Everything known about a staying node m when n gives way to child.
  ghost predicate PruneSite<V>(store: Store<V>, root: Ref, span: map<Ref, Span>, size: int, n: Ref, child: Ref,
                               store': Store<V>, m: Ref) {
    && Linked(store, root, span, size, m) && Linked(store, root, span, size, n)
    && (child != Null ==> child in span && child != root && store[n].parent != child
                          && span[n].lo <= span[child].lo <= span[child].at < span[child].hi <= span[n].hi)
    && var w := WindowOf(span, n, child);
    && w.Stays(span[m].at) && !w.Stays(span[n].at)
    && NeighboursStay(store, span, w, n, child, m) && PrunedFrom(store, span, w, n, child, store')
    && (store[m].left != Null ==> span[m].lo <= span[store[m].left].at < span[m].at)
    && (store[m].right != Null ==> span[m].at < span[store[m].right].at < span[m].hi)
  }

  // Where n hangs below its parent, child hangs afterwards.
  lemma {:induction false} PruneMovesChild<V>(store: Store<V>, root: Ref, span: map<Ref, Span>, size: int, n: Ref,
                                              child: Ref, store': Store<V>, m: Ref)
    requires PruneSite(store, root, span, size, n, child, store', m) && m == store[n].parent
    ensures var w := WindowOf(span, n, child);
            && store'[m] == (if store[m].right == n then store[m].(right := child) else store[m].(left := child))
            && (if child == Null then w.Close(span[n].lo) == w.Close(span[n].hi)
                else && child in store' && store'[child].parent == m && child in PrunedSpan(span, w)
                     && w.Close(span[child].lo) == w.Close(span[n].lo) && w.Close(span[child].hi) == w.Close(span[n].hi)
                     && w.Close(span[n].lo) < w.Close(span[n].hi))
  {
    if child != Null {
      assert WindowOf(span, n, child).Stays(span[child].at);
    }
  }

  lemma {:induction false} PruneKeepsLeft<V>(store: Store<V>, root: Ref, span: map<Ref, Span>, size: int, n: Ref,
                                             child: Ref, store': Store<V>, m: Ref)
    requires PruneSite(store, root, span, size, n, child, store', m)
    ensures LeftLinked(store', PrunedSpan(span, WindowOf(span, n, child)), m)
  {
    var w, s, l := WindowOf(span, n, child), span[m], store[m].left;
    if m == store[n].parent {
      PruneMovesChild(store, root, span, size, n, child, store', m);
    }
    if l != Null && l != n {
      CloseBetween(w, s.lo, span[l].at, s.at);
    }
  }

  lemma {:induction false} PruneKeepsRight<V>(store: Store<V>, root: Ref, span: map<Ref, Span>, size: int, n: Ref,
                                              child: Ref, store': Store<V>, m: Ref)
    requires PruneSite(store, root, span, size, n, child, store', m)
    ensures RightLinked(store', PrunedSpan(span, WindowOf(span, n, child)), m)
  {
    if store[m].right == n {
      CloseStep(WindowOf(span, n, child), span[m].at);
      PruneMovesChild(store, root, span, size, n, child, store', m);
    } else {
      PruneKeepsOtherRight(store, root, span, size, n, child, store', m);
    }
  }

  lemma {:induction false} PruneKeepsOtherRight<V>(store: Store<V>, root: Ref, span: map<Ref, Span>, size: int, n: Ref,
                                                   child: Ref, store': Store<V>, m: Ref)
    requires PruneSite(store, root, span, size, n, child, store', m) && store[m].right != n
    ensures RightLinked(store', PrunedSpan(span, WindowOf(span, n, child)), m)
  {
    var w, s, r := WindowOf(span, n, child), span[m], store[m].right;
    CloseStep(w, s.at);
    OtherRightStays(store, root, span, size, n, child, store', m);
    if r != Null { CloseBetween(w, s.at + 1, span[r].at, s.hi); }
  }

  lemma {:induction false} OtherRightStays<V>(store: Store<V>, root: Ref, span: map<Ref, Span>, size: int, n: Ref,
                                              child: Ref, store': Store<V>, m: Ref)
    requires PruneSite(store, root, span, size, n, child, store', m) && store[m].right != n
    ensures store'[m].right == store[m].right
  {
    if m == store[n].parent { PruneMovesChild(store, root, span, size, n, child, store', m); }
  }

  lemma {:induction false} PruneKeepsParent<V>(store: Store<V>, root: Ref, span: map<Ref, Span>, size: int, n: Ref,
                                               child: Ref, store': Store<V>, m: Ref)
    requires PruneSite(store, root, span, size, n, child, store', m)
    requires store[n].parent != Null ==> WindowOf(span, n, child).Stays(span[store[n].parent].at)
    ensures ParentLinked(store', if n == root then child else root, PrunedSpan(span, WindowOf(span, n, child)), m)
  {
  }

  // The node that gives way and its replacement, seen from outside the subtree.
  lemma {:induction false} PruneEnds<V>(store: Store<V>, root: Ref, span: map<Ref, Span>, size: int, n: Ref, child: Ref)
    requires CanPrune(store, root, span, size, n, child)
    ensures var w := WindowOf(span, n, child);
            && Linked(store, root, span, size, n) && w.Proper() && !w.Stays(span[n].at)
            && (child != Null ==>
                  child != root && store[n].parent != child && span[child].lo <= span[child].at < span[child].hi)
            && (store[n].parent != Null ==> store[n].parent in span && w.Stays(span[store[n].parent].at))
  {
    LinkedAt(store, root, span, size, n);
    if child != Null {
      LinkedAt(store, root, span, size, child);
      ParentWithin(store, root, span, size, n, child);
      LinkedAt(store, root, span, size, store[child].parent);
    }
    var q := store[n].parent;
    if q != Null {
      LinkedAt(store, root, span, size, q);
      if span[n].lo <= span[q].at < span[n].hi {
        Within(store, root, span, size, n, q);
      }
    }
  }

  lemma {:induction false} PruneSiteAt<V>(store: Store<V>, root: Ref, span: map<Ref, Span>, size: int, n: Ref,
                                          child: Ref, store': Store<V>, m: Ref)
    requires CanPrune(store, root, span, size, n, child) && m in span && m in store
    requires WindowOf(span, n, child).Stays(span[m].at)
             && PrunedFrom(store, span, WindowOf(span, n, child), n, child, store')
    ensures PruneSite(store, root, span, size, n, child, store', m)
  {
    PruneEnds(store, root, span, size, n, child);
    StayingNeighbours(store, root, span, size, n, child, m);
    LinkedAt(store, root, span, size, m);
    if store[m].left != Null { LinkedAt(store, root, span, size, store[m].left); }
    if store[m].right != Null { LinkedAt(store, root, span, size, store[m].right); }
  }

  lemma {:induction false} PruneKeepsLinks<V>(store: Store<V>, root: Ref, span: map<Ref, Span>, size: int, n: Ref,
                                              child: Ref, store': Store<V>, m: Ref)
    requires CanPrune(store, root, span, size, n, child) && m in span && m in store
    requires WindowOf(span, n, child).Stays(span[m].at)
             && PrunedFrom(store, span, WindowOf(span, n, child), n, child, store')
    ensures var w := WindowOf(span, n, child);
            Linked(store', if n == root then child else root, PrunedSpan(span, w), w.Close(size), m)
  {
    var w := WindowOf(span, n, child);
    PruneSiteAt(store, root, span, size, n, child, store', m);
    PruneEnds(store, root, span, size, n, child);
    PruneKeepsLeft(store, root, span, size, n, child, store', m);
    PruneKeepsRight(store, root, span, size, n, child, store', m);
    PruneKeepsParent(store, root, span, size, n, child, store', m);
    CloseRange(w, span[m], size);
  }

  lemma {:induction false} CloseRange(w: Window, s: Span, size: int)
    requires w.Proper() && w.Stays(s.at) && 0 <= s.lo <= s.at < s.hi <= size && w.lo >= 0
    ensures 0 <= w.Close(s.lo) <= w.Close(s.at) < w.Close(s.hi) <= w.Close(size)
  {
  }

  lemma {:induction false} PruneKeepsAllLinks<V>(store: Store<V>, root: Ref, span: map<Ref, Span>, size: int, n: Ref,
                                                 child: Ref, store': Store<V>)
    requires CanPrune(store, root, span, size, n, child)
    requires PrunedFrom(store, span, WindowOf(span, n, child), n, child, store')
    ensures var w := WindowOf(span, n, child);
            AllLinked(store', if n == root then child else root, PrunedSpan(span, w), w.Close(size))
  {
    var w := WindowOf(span, n, child);
    forall m | m in PrunedSpan(span, w)
      ensures Linked(store', if n == root then child else root, PrunedSpan(span, w), w.Close(size), m)
    {
      PruneKeepsLinks(store, root, span, size, n, child, store', m);
    }
  }

  ghost function Pruned<V>(sh: Shape<V>, n: Ref, child: Ref): Shape<V>
    requires n in sh.span && (child != Null ==> child in sh.span)
  {
    var w := WindowOf(sh.span, n, child);
    var byKey := map k | k in sh.byKey && sh.byKey[k] in sh.span && w.Stays(sh.span[sh.byKey[k]].at) :: sh.byKey[k];
    Shape(PrunedSpan(sh.span, w), w.Close(sh.size), byKey, map k | k in sh.entries && k in byKey :: sh.entries[k])
  }

  lemma {:induction false} PruneKeepsOrder<V>(store: Store<V>, span: map<Ref, Span>, size: int, w: Window, n: Ref,
                                              child: Ref, store': Store<V>)
    requires Ordered(store, span, size) && w.Proper() && w.lo >= 0 && w.hi <= size
    requires n in store && PrunedFrom(store, span, w, n, child, store')
    ensures Ordered(store', PrunedSpan(span, w), w.Close(size))
  {
    var span' := PrunedSpan(span, w);
    forall m | m in span' ensures m in store' && 0 <= span'[m].at < w.Close(size) {
      CloseIsMonotone(w, span[m].at, size);
    }
    forall l, m | l in span' && m in span' ensures InOrder(store', span', l, m) {
      assert InOrder(store, span, l, m);
      if span[l].at <= span[m].at {
        CloseIsMonotone(w, span[l].at, span[m].at);
      } else {
        CloseIsMonotone(w, span[m].at, span[l].at);
      }
    }
  }

  lemma {:induction false} PruneKeepsIndex<V>(store: Store<V>, sh: Shape<V>, n: Ref, child: Ref, store': Store<V>)
    requires Indexed(store, sh) && n in sh.span && (child != Null ==> child in sh.span)
    requires n in store && PrunedFrom(store, sh.span, WindowOf(sh.span, n, child), n, child, store')
    ensures Indexed(store', Pruned(sh, n, child))
  {
    var w, sh' := WindowOf(sh.span, n, child), Pruned(sh, n, child);
    forall m | m in sh'.span ensures m in store' && store'[m].key in sh'.byKey && sh'.byKey[store'[m].key] == m {
      assert store'[m].key == store[m].key;
    }
    PruneKeepsEntries(store, sh, n, child, store');
  }

  lemma {:induction false} PruneKeepsEntries<V>(store: Store<V>, sh: Shape<V>, n: Ref, child: Ref, store': Store<V>)
    requires Indexed(store, sh) && n in sh.span && (child != Null ==> child in sh.span)
    requires n in store && PrunedFrom(store, sh.span, WindowOf(sh.span, n, child), n, child, store')
    ensures var sh' := Pruned(sh, n, child);
            forall k {:trigger sh'.byKey[k]} :: k in sh'.byKey ==>
              && sh'.byKey[k] in sh'.span && sh'.byKey[k] in store' && store'[sh'.byKey[k]].key == k
              && k in sh'.entries && sh'.entries[k] == store'[sh'.byKey[k]].value
  {
    var w, sh' := WindowOf(sh.span, n, child), Pruned(sh, n, child);
    forall k | k in sh'.byKey
      ensures sh'.byKey[k] in sh'.span && sh'.byKey[k] in store' && store'[sh'.byKey[k]].key == k
      ensures k in sh'.entries && sh'.entries[k] == store'[sh'.byKey[k]].value
    {
      var m := sh.byKey[k];
      assert m in sh.span && w.Stays(sh.span[m].at);
    }
  }

  lemma {:induction false} OrderedIsDistinct<V>(store: Store<V>, span: map<Ref, Span>, size: int)
    requires Ordered(store, span, size)
    ensures Distinct(span)
  {
    forall l, k | l in span && k in span && span[l].at == span[k].at ensures l == k {
      assert InOrder(store, span, l, k);
    }
  }

  lemma {:induction false} PruneKeepsRoot<V>(store: Store<V>, root: Ref, sh: Shape<V>, n: Ref, child: Ref)
    requires Tree(store, root, sh) && CanPrune(store, root, sh.span, sh.size, n, child)
    ensures var root', sh' := if n == root then child else root, Pruned(sh, n, child);
            && (root' == Null ==> sh'.span == map[] && sh'.size == 0)
            && (root' != Null ==> root' in sh'.span && sh'.span[root'].lo == 0 && sh'.span[root'].hi == sh'.size)
  {
    PruneEnds(store, root, sh.span, sh.size, n, child);
    var w := WindowOf(sh.span, n, child);
    if n != root {
      LinkedAt(store, root, sh.span, sh.size, root);
      if sh.span[n].lo <= sh.span[root].at < sh.span[n].hi {
        ParentWithin(store, root, sh.span, sh.size, n, root);
        LinkedAt(store, root, sh.span, sh.size, Null);
      }
      CloseIsMonotone(w, 0, sh.span[n].lo);
    }
  }

  /** Letting child take the place of n keeps the shape of everything that stays. */
  lemma {:induction false} PruneKeepsTree<V>(store: Store<V>, root: Ref, sh: Shape<V>, n: Ref, child: Ref,
                                             store': Store<V>)
    requires Tree(store, root, sh) && CanPrune(store, root, sh.span, sh.size, n, child)
    requires PrunedFrom(store, sh.span, WindowOf(sh.span, n, child), n, child, store')
    ensures Tree(store', if n == root then child else root, Pruned(sh, n, child))
  {
    PruneEnds(store, root, sh.span, sh.size, n, child);
    PruneKeepsRoot(store, root, sh, n, child);
    PruneKeepsOrder(store, sh.span, sh.size, WindowOf(sh.span, n, child), n, child, store');
    PruneKeepsIndex(store, sh, n, child, store');
    PruneKeepsAllLinks(store, root, sh.span, sh.size, n, child, store');
  }

  // child is all there is below n.
  ghost predicate OnlyChild<V>(store: Store<V>, n: Ref, child: Ref) {
    n in store && if store[n].left == Null then child == store[n].right
    else store[n].right == Null && child == store[n].left
  }

  lemma {:induction false} OthersStay<V>(store: Store<V>, root: Ref, span: map<Ref, Span>, size: int, n: Ref,
                                         child: Ref)
    requires AllLinked(store, root, span, size) && Distinct(span) && n in span && OnlyChild(store, n, child)
    ensures child != Null ==> child in span
    ensures var w := WindowOf(span, n, child); w.Proper() && forall m :: m in span ==> (w.Stays(span[m].at) <==> m != n)
  {
    LinkedAt(store, root, span, size, n);
    if child != Null { LinkedAt(store, root, span, size, child); }
    var w := WindowOf(span, n, child);
    forall m | m in span ensures w.Stays(span[m].at) <==> m != n {
      assert span[m].at == span[n].at ==> m == n;
    }
  }

  // child is the one child of n, or the node right after it.
  ghost predicate Replaces<V>(store: Store<V>, span: map<Ref, Span>, n: Ref, child: Ref) {
    && n in store && n in span
    && if store[n].left == Null || store[n].right == Null then OnlyChild(store, n, child)
       else child in span && span[child].at == span[n].at + 1
  }

  // With at most one child, exactly the removed node goes.
  lemma {:induction false} PruneOne<V>(store: Store<V>, root: Ref, sh: Shape<V>, n: Ref, child: Ref)
    requires Tree(store, root, sh) && n in sh.span
    requires OnlyChild(store, n, child)
    ensures CanPrune(store, root, sh.span, sh.size, n, child)
    ensures Pruned(sh, n, child).entries == sh.entries - {store[n].key}
  {
    OrderedIsDistinct(store, sh.span, sh.size);
    LinkedAt(store, root, sh.span, sh.size, n);
    OthersStay(store, root, sh.span, sh.size, n, child);
    OneEntryGoes(store, sh, n, child);
  }

  lemma {:induction false} OneEntryGoes<V>(store: Store<V>, sh: Shape<V>, n: Ref, child: Ref)
    requires Indexed(store, sh) && n in sh.span && n in store && (child != Null ==> child in sh.span)
    requires var w := WindowOf(sh.span, n, child); forall m :: m in sh.span ==> (w.Stays(sh.span[m].at) <==> m != n)
    ensures Pruned(sh, n, child).entries == sh.entries - {store[n].key}
  {
    var left := Pruned(sh, n, child);
    forall k | k in sh.entries ensures k in left.entries <==> k != store[n].key {
      assert sh.byKey[k] in sh.span && store[sh.byKey[k]].key == k;
      assert sh.byKey[store[n].key] == n;
    }
    assert left.entries == sh.entries - {store[n].key};
  }

  // With two children, at least the left one is lost as well.
  lemma {:induction false} PruneTwo<V>(store: Store<V>, root: Ref, sh: Shape<V>, n: Ref, child: Ref)
    requires Tree(store, root, sh) && n in sh.span && store[n].left != Null && store[n].right != Null
    requires child in sh.span && sh.span[child].lo == sh.span[child].at == sh.span[n].at + 1
    ensures CanPrune(store, root, sh.span, sh.size, n, child)
    ensures store[n].left in store
            && var l := store[store[n].left].key; l in sh.entries && l < store[n].key
                                                  && l !in Pruned(sh, n, child).entries
  {
    OrderedIsDistinct(store, sh.span, sh.size);
    LinkedAt(store, root, sh.span, sh.size, n);
    LinkedAt(store, root, sh.span, sh.size, child);
    LinkedAt(store, root, sh.span, sh.size, store[n].left);
    LinkedAt(store, root, sh.span, sh.size, store[n].right);
    Within(store, root, sh.span, sh.size, n, child);
    assert InOrder(store, sh.span, store[n].left, n);
  }

  // The layout of what stays is that of before with the gap closed.
  lemma {:induction false} PrunedLayout<V>(store: Store<V>, sh: Shape<V>, n: Ref, child: Ref)
    requires Indexed(store, sh) && n in sh.span && (child != Null ==> child in sh.span)
    ensures LayoutOf(Pruned(sh, n, child)) == Cut(LayoutOf(sh), WindowOf(sh.span, n, child))
    ensures Pruned(sh, n, child).entries.Keys == Cut(LayoutOf(sh), WindowOf(sh.span, n, child)).Keys
  {
    forall k | k in sh.byKey ensures sh.byKey[k] in sh.span { assert sh.byKey[k] in store; }
  }

  lemma {:induction false} ReplacementCuts<V>(store: Store<V>, root: Ref, sh: Shape<V>, n: Ref, child: Ref, key: int)
    requires Tree(store, root, sh) && Replaces(store, sh.span, n, child) && store[n].key == key
    ensures (child != Null ==> child in sh.span) && IsCut(LayoutOf(sh), key, WindowOf(sh.span, n, child))
  {
    LinkedAt(store, root, sh.span, sh.size, n);
    assert sh.byKey[key] == n && LayoutOf(sh)[key] == sh.span[n];
    if store[n].left != Null && store[n].right != Null {
      TreeIsLaid(store, root, sh);
      var m := store[child].key;
      assert sh.byKey[m] == child && LayoutOf(sh)[m] == sh.span[child];
      assert Next(LayoutOf(sh), key, m);
      NextBegins(LayoutOf(sh), sh.size, key, m);
      LinkedAt(store, root, sh.span, sh.size, child);
    }
  }

  lemma {:induction false} LayoutAfterDelete<V>(store: Store<V>, root: Ref, sh: Shape<V>, n: Ref, child: Ref, key: int,
                                                w: Window)
    requires Tree(store, root, sh) && Replaces(store, sh.span, n, child) && store[n].key == key
    requires (child != Null ==> child in sh.span) && w == WindowOf(sh.span, n, child)
    ensures IsCut(LayoutOf(sh), key, w) && LayoutOf(Pruned(sh, n, child)) == Cut(LayoutOf(sh), w)
    ensures var two := store[n].left != Null && store[n].right != Null;
            forall k :: k in Pruned(sh, n, child).entries <==>
                          k in sh.entries && StaysWithout(LayoutOf(sh), two, key, k)
  {
    ReplacementCuts(store, root, sh, n, child, key);
    PrunedLayout(store, sh, n, child);
    TreeIsLaid(store, root, sh);
    LinkedAt(store, root, sh.span, sh.size, n);
    var two := store[n].left != Null && store[n].right != Null;
    forall k | k in sh.entries ensures w.Stays(LayoutOf(sh)[k].at) <==> StaysWithout(LayoutOf(sh), two, key, k) {
      GoesWith(LayoutOf(sh), sh.size, key, w, k);
    }
  }

  // The cells after child is hung in the place of node.
  function Relinked<V>(store: Store<V>, root: Ref, node: Ref, child: Ref): Store<V>
    requires node in store && (node != root ==> store[node].parent in store) && (child != Null ==> child in store)
  {
    var parent := store[node].parent;
    var above := if node == root then store
                 else if store[parent].right == node then store[parent := store[parent].(right := child)]
                 else store[parent := store[parent].(left := child)];
    if child == Null then above else above[child := above[child].(parent := parent)]
  }

  lemma {:induction false} RelinkPrunes<V>(before: Store<V>, root: Ref, span: map<Ref, Span>, size: int, node: Ref,
                                           child: Ref, store: Store<V>)
    requires CanPrune(before, root, span, size, node, child)
             && StayingCells(before, span, WindowOf(span, node, child), store)
    requires node in store && store[node] == before[node]
    ensures (node != root ==> store[node].parent in store) && (child != Null ==> child in store)
    ensures PrunedFrom(before, span, WindowOf(span, node, child), node, child, Relinked(store, root, node, child))
  {
    PruneEnds(before, root, span, size, node, child);
    var w := WindowOf(span, node, child);
    if child != Null { assert w.Stays(span[child].at); }
    forall m | m in span && w.Stays(span[m].at)
      ensures Relinked(store, root, node, child)[m] == PrunedCell(before, node, child, m)
    {
      LinkedAt(before, root, span, size, m);
    }
  }

  // The store is the one before, but for cells that are about to go.
  ghost predicate CanRelink<V>(before: Store<V>, root: Ref, sh: Shape<V>, node: Ref, child: Ref, store: Store<V>,
                               next: nat) {
    && Tree(before, root, sh) && CanPrune(before, root, sh.span, sh.size, node, child)
    && StayingCells(before, sh.span, WindowOf(sh.span, node, child), store)
    && node in store && store[node] == before[node] && Below(store, next)
  }

  lemma {:induction false} RelinkKeepsTree<V>(before: Store<V>, root: Ref, sh: Shape<V>, node: Ref, child: Ref,
                                              store: Store<V>, next: nat)
    requires CanRelink(before, root, sh, node, child, store, next)
    ensures (node != root ==> store[node].parent in store) && (child != Null ==> child in store)
    ensures Tree(Relinked(store, root, node, child), if node == root then child else root, Pruned(sh, node, child))
    ensures Below(Relinked(store, root, node, child), next)
  {
    RelinkPrunes(before, root, sh.span, sh.size, node, child, store);
    PruneKeepsTree(before, root, sh, node, child, Relinked(store, root, node, child));
  }

  // The link cut below the parent of the successor belongs to no staying node.
  lemma {:induction false} UnhookKeepsCells<V>(store: Store<V>, root: Ref, sh: Shape<V>, node: Ref, child: Ref,
                                               above: Ref, cell: Cell<V>)
    requires Tree(store, root, sh) && node in sh.span && child in sh.span && above in sh.span
             && store[node].right in sh.span
    requires sh.span[child].hi <= sh.span[above].at < sh.span[store[node].right].hi
    requires sh.span[child].lo == sh.span[node].at + 1
    ensures StayingCells(store, sh.span, WindowOf(sh.span, node, child), store[above := cell])
    ensures above != node
  {
    LinkedAt(store, root, sh.span, sh.size, node);
    LinkedAt(store, root, sh.span, sh.size, child);
    LinkedAt(store, root, sh.span, sh.size, store[node].right);
    assert !WindowOf(sh.span, node, child).Stays(sh.span[above].at);
  }
}
