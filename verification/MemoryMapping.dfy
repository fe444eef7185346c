/**
  The interval map of zion/lib/memory_mapping_tree.cpp: which memory object backs which range
  of addresses.  The mappings are held by the search tree, whose deletion can lose entries.
 */
module MemoryMapping {
  import opened Common
  import opened TreeLayout
  import Trees = BinaryTree

  // Ends are stored as the 64-bit sum of base and size.
  datatype Mapping = Mapping(base: nat, limit: nat, obj: nat) {
    predicate Contains(vaddr: nat) { base <= vaddr < limit }
  }

  datatype ErrorCode = OK | ALREADY_EXISTS | INVALID_ARGUMENT | FAILED_PRECONDITION

  type Mappings = map<int, Mapping>

  /** Two ranges that may not both be mapped: the upper one begins before the lower one ends. */
  predicate Conflict(a: Mapping, b: Mapping) {
    a.base == b.base || a.base < b.base < a.limit || b.base < a.base < b.limit
  }

  /** No mapping is in the way of the new one. */
  ghost predicate Unobstructed(tree: Mappings, m: Mapping) { forall k :: k in tree ==> !Conflict(m, tree[k]) }

  ghost predicate Keyed(tree: Mappings) {
    forall k :: k in tree ==> k == tree[k].base && tree[k].base < U64_LIMIT && tree[k].limit < U64_LIMIT
  }

  ghost predicate Apart(tree: Mappings, j: int, k: int) {
    j in tree && k in tree && (j == k || !Conflict(tree[j], tree[k]))
  }

  /** No two mappings meet. */
  ghost predicate Disjoint(tree: Mappings) {
    && Keyed(tree)
    && (forall j, k {:trigger Apart(tree, j, k)} :: j in tree && k in tree ==> Apart(tree, j, k))
  }

  // Mappings stay disjoint when one that meets none is added, and when some go.
  lemma {:induction false} AddKeepsDisjoint(tree: Mappings, m: Mapping)
    requires Disjoint(tree) && m.base < U64_LIMIT && m.limit < U64_LIMIT
    requires Unobstructed(tree, m)
    ensures Disjoint(tree[m.base := m])
  {
    var tree' := tree[m.base := m];
    forall j, k | j in tree' && k in tree' ensures Apart(tree', j, k) {
      if j != m.base && k != m.base { assert Apart(tree, j, k); }
    }
  }

  lemma {:induction false} LessKeepsDisjoint(tree: Mappings, tree': Mappings)
    requires Disjoint(tree) && forall k :: k in tree' ==> k in tree && tree'[k] == tree[k]
    ensures Disjoint(tree')
  {
    forall j, k | j in tree' && k in tree' ensures Apart(tree', j, k) {
      assert Apart(tree, j, k);
    }
  }

  /** Some mapping begins before the address and ends beyond it. */
  ghost predicate Straddled(tree: Mappings, cut: int) {
    exists k :: k in tree && tree[k].base < cut < tree[k].limit
  }

  /** What is left when the mappings based in [base, limit) go. */
  ghost predicate Without(tree: Mappings, base: nat, limit: nat, left: Mappings) {
    && (forall k :: k in left <==> k in tree && !(base <= k < limit))
    && (forall k :: k in left ==> left[k] == tree[k])
  }

  /** Non-empty ranges conflict exactly when they share an address. */
  lemma {:induction false} ConflictIsOverlap(a: Mapping, b: Mapping)
    requires a.base < a.limit && b.base < b.limit
    ensures Conflict(a, b) <==> exists x: nat :: a.Contains(x) && b.Contains(x)
  {
    if Conflict(a, b) {
      var x := if a.base < b.base then b.base else a.base;
      assert a.Contains(x) && b.Contains(x);
    }
  }

  // Only the nearest mapping below an address can reach beyond it.
  lemma {:induction false} NearestReaches(tree: Mappings, cut: int, k: int, r: Option<Mapping>)
    requires Disjoint(tree) && k in tree && tree[k].base < cut && IsPredecessor(tree, cut, r)
    ensures r.Some? && r.value.base in tree && tree[r.value.base] == r.value
            && (tree[k].limit > cut ==> k == r.value.base)
  {
    var b :| b in tree && b < cut && tree[b] == r.value && forall j :: j in tree && j < cut ==> j <= b;
    assert Apart(tree, k, b);
  }

  // Only the nearest mapping from an address down can contain it, also for the last address there is.
  lemma {:induction false} NearestContains(tree: Mappings, vaddr: nat, r: Option<Mapping>)
    requires Disjoint(tree) && vaddr < U64_LIMIT && IsPredecessor(tree, Add64(vaddr, 1), r)
    ensures forall k :: k in tree && tree[k].Contains(vaddr) ==> r == Some(tree[k])
    ensures r.Some? ==> r.value.base in tree && tree[r.value.base] == r.value && r.value.base <= vaddr
  {
    forall k | k in tree && tree[k].Contains(vaddr) ensures r == Some(tree[k]) {
      NearestReaches(tree, vaddr + 1, k, r);
      assert Apart(tree, k, r.value.base);
    }
  }

  lemma {:induction false} NearestStraddles(tree: Mappings, cut: int, r: Option<Mapping>)
    requires Disjoint(tree) && IsPredecessor(tree, cut, r)
    ensures Straddled(tree, cut) <==> r.Some? && r.value.limit > cut
  {
    if k :| k in tree && tree[k].base < cut < tree[k].limit {
      NearestReaches(tree, cut, k, r);
    }
  }

  // The new range meets one that begins below it exactly when the nearest of those reaches into it.
  lemma {:induction false} ConflictBelow(tree: Mappings, m: Mapping, r: Option<Mapping>)
    requires Disjoint(tree) && IsPredecessor(tree, m.base, r)
    ensures r.Some? && r.value.limit > m.base <==> exists k :: k in tree && k < m.base && Conflict(m, tree[k])
  {
    forall k | k in tree && k < m.base && tree[k].limit > m.base ensures r.Some? && r.value.limit > m.base {
      NearestReaches(tree, m.base, k, r);
    }
  }

  lemma {:induction false} ConflictAbove(tree: Mappings, m: Mapping, r: Option<Mapping>)
    requires Disjoint(tree) && IsSuccessor(tree, m.base, r)
    ensures r.Some? && r.value.base < m.limit <==> exists k :: k in tree && k > m.base && Conflict(m, tree[k])
  {
  }

  lemma {:induction false} Smaller(now: Mappings, now': Mappings, key: int)
    requires key in now && key !in now' && forall k :: k in now' ==> k in now
    ensures |now'| < |now|
  {
    forall k | k in now'.Keys ensures k in now.Keys - {key} { assert k in now'; }
    SubsetSize(now'.Keys, now.Keys - {key});
    assert |now.Keys - {key}| == |now| - 1;
  }

  lemma {:induction false} SubsetSize(s: set<int>, t: set<int>)
    requires s <= t
    ensures |s| <= |t|
  {
    assert t == s + (t - s);
  }

  /** The mappings outside the range that deleting those in it does not lose. */
  ghost function RemainingIn(tree: Mappings, layout: Layout, base: int, limit: int): Mappings {
    map k | k in tree && !(base <= k < limit) && !Lost(layout, base, limit, k) :: tree[k]
  }

  lemma {:induction false} RemainingExactly(tree: Mappings, layout: Layout, base: nat, limit: nat)
    requires tree.Keys == layout.Keys
    ensures Without(tree, base, limit, RemainingIn(tree, layout, base, limit)) <==>
              forall j :: j in tree && j < base ==> !LostBelow(layout, base, limit, j)
  {
    NothingLost(layout, base, limit);
  }

  lemma {:induction false} NothingInRange(tree: Mappings, layout: Layout, base: int, limit: int)
    requires tree.Keys == layout.Keys && forall k :: k in tree ==> !(base <= k < limit)
    ensures RemainingIn(tree, layout, base, limit) == tree
  {
    forall j | j in tree ensures !Lost(layout, base, limit, j) {
    }
  }

  lemma {:induction false} StepKeepsRemaining(tree: Mappings, tree': Mappings, layout: Layout, size: int, base: int,
                                              limit: int, key: int, w: Window)
    requires tree.Keys == layout.Keys && tree'.Keys == Cut(layout, w).Keys
    requires forall k :: k in tree' ==> k in tree && tree'[k] == tree[k]
    requires FirstOf(layout, size, base, key, w) && key < limit
    ensures RemainingIn(tree', Cut(layout, w), base, limit) == RemainingIn(tree, layout, base, limit)
  {
    forall j | j in tree && !(base <= j < limit)
      ensures Lost(layout, base, limit, j) <==> j !in tree' || Lost(Cut(layout, w), base, limit, j)
    {
      StepKeepsLost(layout, size, base, limit, key, w, j);
    }
  }

  class MemoryMappingTree {
    const nodes: Trees.BinaryTree<Mapping>

    ghost function Tree(): Mappings
      reads nodes
    {
      nodes.Map()
    }

    ghost predicate Valid()
      reads nodes
    {
      nodes.Valid() && Disjoint(Tree())
    }

    /** Freeing the range loses a mapping below it. */
    ghost predicate Splits(base: int, limit: int)
      reads nodes
    {
      exists j :: j in Tree() && j < base && LostBelow(nodes.Layout(), base, limit, j)
    }

    /** What is left when the range is freed. */
    ghost function Remaining(base: int, limit: int): Mappings
      reads nodes
    {
      RemainingIn(Tree(), nodes.Layout(), base, limit)
    }

    lemma NothingBelow(base: int, limit: int)
      requires forall k :: k in Tree() ==> base <= k
      ensures !Splits(base, limit)
    {
    }

    lemma RootSplits(base: int, limit: int, l: int, g: int)
      requires Valid() && nodes.RootIs(base) && base < limit && l in Tree() && l < base && g in Tree() && g > base
      ensures Splits(base, limit) && LostBelow(nodes.Layout(), base, limit, l)
    {
      Trees.RootIsOver(nodes, base, l, g);
    }

    constructor ()
      ensures Valid() && Tree() == map[] && fresh(nodes)
    {
      nodes := new Trees.BinaryTree<Mapping>();
    }

    /** Maps an object of the given size; fails exactly when the new range conflicts with a mapping. */
    method AddInMemoryObject(vaddr: nat, obj: nat, size: nat) returns (code: ErrorCode)
      requires Valid() && vaddr < U64_LIMIT
      modifies nodes
      ensures Valid()
      ensures var m := Mapping(vaddr, Add64(vaddr, size), obj);
              && (code == OK <==> Unobstructed(old(Tree()), m))
              && (code == OK ==> Tree() == old(Tree())[vaddr := m])
      ensures code != OK ==> code == ALREADY_EXISTS && Tree() == old(Tree())
      ensures forall k :: old(nodes.RootIs(k)) ==> nodes.RootIs(k)
      ensures code == OK && old(Tree()) == map[] ==> nodes.RootIs(vaddr)
    {
      ghost var m := Mapping(vaddr, Add64(vaddr, size), obj);
      var predecessor := nodes.Predecessor(vaddr);
      ConflictBelow(Tree(), m, predecessor);
      if predecessor.Some? && predecessor.value.limit > vaddr {
        return ALREADY_EXISTS;
      }
      var found := nodes.Find(vaddr);
      if found.Some? {
        return ALREADY_EXISTS;
      }
      var successor := nodes.Successor(vaddr);
      ConflictAbove(Tree(), m, successor);
      if successor.Some? && successor.value.base < Add64(vaddr, size) {
        return ALREADY_EXISTS;
      }
      AddKeepsDisjoint(Tree(), m);
      nodes.Insert(vaddr, Mapping(vaddr, Add64(vaddr, size), obj));
      return OK;
    }

    // Deletes the first mapping from base on, which leaves what will remain of the others as it is.
    method DeleteFirst(base: int, limit: int, key: int)
      requires Valid() && key in Tree() && base <= key < limit && forall k :: k in Tree() ==> !(base <= k < key)
      modifies nodes
      ensures Valid() && key !in Tree() && |Tree()| < |old(Tree())| && forall k :: k in Tree() ==> k in old(Tree())
      ensures Remaining(base, limit) == old(Remaining(base, limit))
    {
      ghost var before, layout, size := Tree(), nodes.Layout(), nodes.sh.size;
      Trees.TreeIsLaid(nodes.store, nodes.root, nodes.sh);
      var w := nodes.Delete(key);
      Trees.TreeIsLaid(nodes.store, nodes.root, nodes.sh);
      StepKeepsRemaining(before, Tree(), layout, size, base, limit, key, w);
      Smaller(before, Tree(), key);
      LessKeepsDisjoint(before, Tree());
    }

    /**
      Removes the mappings based in [base, limit).  Fails, changing nothing, when the range is empty
      or a mapping straddles one of its ends.  What is lost besides is determined by the layout of the
      tree before; it is nothing exactly when no mapping below the range is under one of the range that
      has a right child.
     */
    method FreeMemoryRange(base: nat, limit: nat) returns (code: ErrorCode)
      requires Valid()
      modifies nodes
      ensures Valid()
      ensures code == INVALID_ARGUMENT <==> limit <= base
      ensures code == FAILED_PRECONDITION <==>
                base < limit && (Straddled(old(Tree()), base) || Straddled(old(Tree()), limit))
      ensures code == OK ==> Tree() == old(Remaining(base, limit))
      ensures code == OK ==> (Without(old(Tree()), base, limit, Tree()) <==> !old(Splits(base, limit)))
      ensures code != OK ==> nodes.sh == old(nodes.sh)
      ensures code != ALREADY_EXISTS
    {
      if limit <= base {
        return INVALID_ARGUMENT;
      }
      var predecessor := nodes.Predecessor(base);
      NearestStraddles(Tree(), base, predecessor);
      if predecessor.Some? && predecessor.value.limit > base {
        return FAILED_PRECONDITION;
      }
      var lastPredecessor := nodes.Predecessor(limit);
      NearestStraddles(Tree(), limit, lastPredecessor);
      if lastPredecessor.Some? && lastPredecessor.value.limit > limit {
        return FAILED_PRECONDITION;
      }
      Trees.TreeIsLaid(nodes.store, nodes.root, nodes.sh);
      RemainingExactly(Tree(), nodes.Layout(), base, limit);
      DeleteRange(base, limit);
      return OK;
    }

    // The first mapping that begins after base and before limit.
    method FirstWithin(base: nat, limit: nat) returns (r: Option<int>)
      requires Valid()
      ensures r == None ==> forall k :: k in Tree() ==> !(base < k < limit)
      ensures r.Some? ==> r.value in Tree() && base < r.value < limit && forall k ::
                k in Tree() ==> !(base < k < r.value)
    {
      var successor := nodes.Successor(base);
      if successor.None? || successor.value.base >= limit {
        return None;
      }
      return Some(successor.value.base);
    }

    // With no mapping in the range there is nothing to do.
    lemma {:induction false} RangeDone(base: nat, limit: nat)
      requires Valid() && base !in Tree() && forall k :: k in Tree() ==> !(base < k < limit)
      ensures Remaining(base, limit) == Tree()
    {
      Trees.TreeIsLaid(nodes.store, nodes.root, nodes.sh);
      NothingInRange(Tree(), nodes.Layout(), base, limit);
    }

    method DeleteRange(base: nat, limit: nat)
      requires Valid() && base < limit
      modifies nodes
      ensures Valid() && Tree() == old(Remaining(base, limit))
    {
      ghost var left := Remaining(base, limit);
      var found := nodes.Find(base);
      if found.Some? {
        DeleteFirst(base, limit, base);
      }
      while true
        invariant Valid() && base !in Tree() && Remaining(base, limit) == left
        decreases |Tree()|
      {
        var next := FirstWithin(base, limit);
        if next.None? {
          RangeDone(base, limit);
          return;
        }
        DeleteFirst(base, limit, next.value);
      }
    }

    /** The mapping that contains an address. */
    method GetMemoryMappingForAddr(vaddr: nat) returns (r: Option<Mapping>)
      requires Valid() && vaddr < U64_LIMIT
      ensures r == None <==> forall k :: k in Tree() ==> !Tree()[k].Contains(vaddr)
      ensures r.Some? ==> r.value.Contains(vaddr) && r.value.base in Tree() && Tree()[r.value.base] == r.value
    {
      var mapping := nodes.Predecessor(Add64(vaddr, 1));
      NearestContains(Tree(), vaddr, mapping);
      if mapping.None? {
        return None;
      }
      if mapping.value.limit <= vaddr {
        return None;
      }
      return mapping;
    }
  }

  /** At most one mapping contains an address, so a lookup has one possible answer. */
  lemma {:induction false} ContainsOnce(tree: Mappings, j: int, k: int, vaddr: nat)
    requires Disjoint(tree) && j in tree && k in tree && tree[j].Contains(vaddr) && tree[k].Contains(vaddr)
    ensures j == k
  {
    assert Apart(tree, j, k);
  }
}
