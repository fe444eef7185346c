/**
  Where the keys of a search tree lie: the in-order position of each key and the range of positions
  its subtree covers.

  Deleting a key closes the gap left by what goes with it.  The theory here says, for the layout a
  tree has before the keys of a range are deleted in ascending order, which other keys get lost.
 */
module TreeLayout {

  // A subtree covers the positions [lo, hi), its top sits at position `at`.
  datatype Span = Span(lo: int, at: int, hi: int)

  // The positions [lo, hi) of a removed subtree shrink to the positions [a, b) that stay.
  datatype Window = Window(lo: int, a: int, b: int, hi: int) {
    ghost predicate Proper() { lo <= a <= b <= hi }

    ghost predicate Stays(x: int) { x < lo || a <= x < b || hi <= x }

    ghost function Close(x: int): int {
      if x <= lo then x else if x <= a then lo else if x <= b then x - (a - lo)
      else if x <= hi then b - (a - lo) else x - (a - lo) - (hi - b)
    }
  }

  lemma {:induction false} CloseIsMonotone(w: Window, x: int, y: int)
    requires w.Proper() && x <= y
    ensures w.Close(x) <= w.Close(y)
    ensures w.Stays(x) && x < y ==> w.Close(x) < w.Close(y)
  {
  }

  lemma {:induction false} CloseStep(w: Window, x: int)
    requires w.Proper() && w.Stays(x)
    ensures w.Close(x + 1) == w.Close(x) + 1
  {
  }

  lemma {:induction false} CloseBetween(w: Window, x: int, y: int, z: int)
    requires w.Proper() && w.Stays(y) && x <= y < z
    ensures w.Close(x) < w.Close(z)
  {
  }

  // ----- Layouts -----

  type Layout = map<int, Span>

  /** m lies in the subtree of n. */
  ghost predicate Under(t: Layout, n: int, m: int) { n in t && m in t && t[n].lo <= t[m].at < t[n].hi }

  ghost predicate HasRight(t: Layout, n: int) { n in t && t[n].at + 1 < t[n].hi }

  /** m is the key right after n. */
  ghost predicate Next(t: Layout, n: int, m: int) { n in t && m in t && t[m].at == t[n].at + 1 }

  ghost predicate Placed(t: Layout, size: int, n: int) { n in t && 0 <= t[n].lo <= t[n].at < t[n].hi <= size }

  // Positions follow the keys, and subtrees are nested or apart.
  ghost predicate Nested(t: Layout, n: int, m: int) {
    && n in t && m in t && (n < m <==> t[n].at < t[m].at)
    && (Under(t, n, m) ==> t[n].lo <= t[m].lo && t[m].hi <= t[n].hi && (n != m ==> !Under(t, m, n)))
  }

  ghost predicate Taken(t: Layout, x: int) { exists n :: n in t && t[n].at == x }

  /** The layout of a tree of the given size. */
  ghost predicate Laid(t: Layout, size: int) {
    && (forall n {:trigger Placed(t, size, n)} :: n in t ==> Placed(t, size, n))
    && (forall n, m {:trigger Nested(t, n, m)} :: n in t && m in t ==> Nested(t, n, m))
    && (forall x {:trigger Taken(t, x)} :: 0 <= x < size ==> Taken(t, x))
  }

  lemma {:induction false} PlacedAt(t: Layout, size: int, n: int)
    requires Laid(t, size) && n in t
    ensures Placed(t, size, n)
  {
  }

  lemma {:induction false} NestedAt(t: Layout, size: int, n: int, m: int)
    requires Laid(t, size) && n in t && m in t
    ensures Nested(t, n, m) && Nested(t, m, n) && Placed(t, size, n) && Placed(t, size, m)
    ensures t[n].at == t[m].at <==> n == m
  {
    assert Nested(t, n, m) && Nested(t, m, n);
    PlacedAt(t, size, n);
    PlacedAt(t, size, m);
  }

  // ----- Deleting a key -----

  /** What stays of the subtree of a deleted key: its one child, or the subtree of the next key. */
  ghost predicate IsCut(t: Layout, key: int, w: Window) {
    && key in t && w.lo == t[key].lo && w.hi == t[key].hi
    && if t[key].lo == t[key].at then w.a == t[key].at + 1 && w.b == t[key].hi
       else if t[key].at + 1 == t[key].hi then w.a == t[key].lo && w.b == t[key].at
       else w.a == t[key].at + 1 && exists m :: Next(t, key, m) && w.b == t[m].hi
  }

  ghost function Cut(t: Layout, w: Window): Layout {
    map n | n in t && w.Stays(t[n].at) :: Span(w.Close(t[n].lo), w.Close(t[n].at), w.Close(t[n].hi))
  }

  // The subtree of the next key begins with it.
  lemma {:induction false} NextBegins(t: Layout, size: int, n: int, m: int)
    requires Laid(t, size) && HasRight(t, n) && Next(t, n, m)
    ensures Under(t, n, m) && t[m].lo == t[m].at && t[m].hi <= t[n].hi
  {
    NestedAt(t, size, n, m);
  }

  lemma {:induction false} CutIsProper(t: Layout, size: int, key: int, w: Window)
    requires Laid(t, size) && IsCut(t, key, w)
    ensures w.Proper()
  {
    PlacedAt(t, size, key);
    if t[key].lo != t[key].at && HasRight(t, key) {
      var m :| Next(t, key, m) && w.b == t[m].hi;
      NextBegins(t, size, key, m);
      PlacedAt(t, size, m);
    }
  }

  /** What goes with a key that has at most one child below it is nothing else. */
  lemma {:induction false} OneChildGoes(t: Layout, size: int, key: int, w: Window, j: int)
    requires Laid(t, size) && IsCut(t, key, w) && (t[key].lo == t[key].at || !HasRight(t, key)) && j in t
    ensures w.Stays(t[j].at) <==> j != key
  {
    NestedAt(t, size, key, j);
  }

  /** What goes with a key that has two is its whole subtree but for that of the next key. */
  lemma {:induction false} TwoChildrenGo(t: Layout, size: int, key: int, w: Window, j: int)
    requires Laid(t, size) && IsCut(t, key, w) && t[key].lo != t[key].at && HasRight(t, key) && j in t
    ensures w.Stays(t[j].at) <==> !Under(t, key, j) || exists m :: Next(t, key, m) && Under(t, m, j)
  {
    var s :| Next(t, key, s) && w.b == t[s].hi;
    NextBegins(t, size, key, s);
    forall m | Next(t, key, m) ensures m == s { NestedAt(t, size, m, s); }
  }

  ghost predicate UnderNext(t: Layout, n: int, j: int) { exists m :: Next(t, n, m) && Under(t, m, j) }

  /** The key k is still there without the other one, which has two children or not. */
  ghost predicate StaysWithout(t: Layout, two: bool, key: int, k: int) {
    k != key && (two && Under(t, key, k) ==> UnderNext(t, key, k))
  }

  lemma {:induction false} GoesWith(t: Layout, size: int, key: int, w: Window, j: int)
    requires Laid(t, size) && IsCut(t, key, w) && j in t
    ensures w.Stays(t[j].at) <==> StaysWithout(t, t[key].lo != t[key].at && HasRight(t, key), key, j)
  {
    PlacedAt(t, size, key);
    if t[key].lo == t[key].at || !HasRight(t, key) {
      OneChildGoes(t, size, key, w, j);
    } else {
      TwoChildrenGo(t, size, key, w, j);
      forall m | Next(t, key, m) && j == key ensures !Under(t, m, j) { NextBegins(t, size, key, m); }
    }
  }

  // Keys that stay are below each other as before.
  lemma {:induction false} CutKeepsUnder(t: Layout, w: Window, n: int, m: int)
    requires w.Proper() && n in t && m in t && w.Stays(t[n].at) && w.Stays(t[m].at)
    ensures Under(Cut(t, w), n, m) <==> Under(t, n, m)
  {
    if t[m].at < t[n].lo {
      CloseIsMonotone(w, t[m].at, t[n].lo);
    } else {
      CloseIsMonotone(w, t[n].lo, t[m].at);
    }
    if t[m].at < t[n].hi {
      CloseIsMonotone(w, t[m].at, t[n].hi);
    } else {
      CloseIsMonotone(w, t[n].hi, t[m].at);
    }
  }

  // A larger key that stays keeps the one after it, if that is below it.
  lemma {:induction false} NextStays(t: Layout, size: int, key: int, w: Window, n: int, m: int)
    requires Laid(t, size) && IsCut(t, key, w) && n in t && n > key && w.Stays(t[n].at)
    requires HasRight(t, n) && Next(t, n, m)
    ensures w.Stays(t[m].at)
  {
    NestedAt(t, size, key, n);
    if t[key].lo != t[key].at && HasRight(t, key) {
      var s :| Next(t, key, s) && w.b == t[s].hi;
      NextBegins(t, size, key, s);
      NestedAt(t, size, s, n);
    }
  }

  lemma {:induction false} CutKeepsRight(t: Layout, size: int, key: int, w: Window, n: int)
    requires Laid(t, size) && IsCut(t, key, w) && n in t && n > key && w.Stays(t[n].at)
    ensures HasRight(Cut(t, w), n) <==> HasRight(t, n)
  {
    CutIsProper(t, size, key, w);
    PlacedAt(t, size, n);
    CloseStep(w, t[n].at);
    if HasRight(t, n) {
      assert Taken(t, t[n].at + 1);
      var m :| m in t && t[m].at == t[n].at + 1;
      NextStays(t, size, key, w, n, m);
      CloseIsMonotone(w, t[m].at, t[n].hi);
    }
  }

  lemma {:induction false} CutKeepsNext(t: Layout, size: int, key: int, w: Window, n: int, m: int)
    requires Laid(t, size) && IsCut(t, key, w) && n in t && n > key && w.Stays(t[n].at)
    requires HasRight(t, n) && m in t && w.Stays(t[m].at)
    ensures Next(Cut(t, w), n, m) <==> Next(t, n, m)
  {
    CutIsProper(t, size, key, w);
    PlacedAt(t, size, n);
    CloseStep(w, t[n].at);
    assert Taken(t, t[n].at + 1);
    var s :| s in t && t[s].at == t[n].at + 1;
    NextStays(t, size, key, w, n, s);
    if t[m].at < t[s].at {
      CloseIsMonotone(w, t[m].at, t[s].at);
    } else {
      CloseIsMonotone(w, t[s].at, t[m].at);
    }
  }

  // ----- Deleting a range -----

  /** A key below the range is lost when it lies under a key of the range that has a right child. */
  ghost predicate LostBelow(t: Layout, base: int, limit: int, j: int) {
    exists n :: base <= n < limit && HasRight(t, n) && Under(t, n, j)
  }

  /** When its turn comes, n still has a key below the range under it, and a right child. */
  ghost predicate Splits(t: Layout, base: int, n: int) {
    HasRight(t, n) && exists j :: j < base && Under(t, n, j) && !LostBelow(t, base, n, j)
  }

  /** A key above the range is lost when it lies under such a key, and not under the one after it. */
  ghost predicate LostAbove(t: Layout, base: int, limit: int, j: int) {
    exists n :: base <= n < limit && Splits(t, base, n) && Under(t, n, j) && !UnderNext(t, n, j)
  }

  ghost predicate Lost(t: Layout, base: int, limit: int, j: int) {
    if j < base then LostBelow(t, base, limit, j) else LostAbove(t, base, limit, j)
  }

  // The first key of the range that is left is deleted next.
  ghost predicate FirstOf(t: Layout, size: int, base: int, key: int, w: Window) {
    Laid(t, size) && IsCut(t, key, w) && base <= key && forall k :: k in t ==> !(base <= k < key)
  }

  // A key with one from below the range under it is not under the key deleted, and so stays.
  lemma {:induction false} OverSmallStays(t: Layout, size: int, base: int, key: int, w: Window, n: int, j: int)
    requires FirstOf(t, size, base, key, w) && n > key && j < base && Under(t, n, j)
    ensures w.Stays(t[n].at)
  {
    NestedAt(t, size, key, n);
    NestedAt(t, size, key, j);
    if t[key].lo == t[key].at || !HasRight(t, key) {
      OneChildGoes(t, size, key, w, n);
    } else {
      TwoChildrenGo(t, size, key, w, n);
    }
  }

  // What the deletion of the first key takes from below the range.
  lemma {:induction false} SmallGoes(t: Layout, size: int, base: int, key: int, w: Window, j: int)
    requires FirstOf(t, size, base, key, w) && j in t && j < base
    ensures !w.Stays(t[j].at) <==> HasRight(t, key) && Under(t, key, j)
  {
    NestedAt(t, size, key, j);
    if t[key].lo == t[key].at || !HasRight(t, key) {
      OneChildGoes(t, size, key, w, j);
    } else {
      TwoChildrenGo(t, size, key, w, j);
      forall m | Next(t, key, m) ensures !Under(t, m, j) { NextBegins(t, size, key, m); }
    }
  }

  /** Deleting the first key changes for no key below the range whether it is lost in the end. */
  lemma {:induction false} StepBelow(t: Layout, size: int, base: int, limit: int, key: int, w: Window, j: int)
    requires FirstOf(t, size, base, key, w) && key < limit && j in t && j < base
    ensures LostBelow(t, base, limit, j) <==> j !in Cut(t, w) || LostBelow(Cut(t, w), base, limit, j)
  {
    CutIsProper(t, size, key, w);
    SmallGoes(t, size, base, key, w, j);
    if n :| base <= n < limit && HasRight(t, n) && Under(t, n, j) && n != key {
      OverSmallStays(t, size, base, key, w, n, j);
      CutKeepsRight(t, size, key, w, n);
      if w.Stays(t[j].at) { CutKeepsUnder(t, w, n, j); }
    }
    if n :| base <= n < limit && HasRight(Cut(t, w), n) && Under(Cut(t, w), n, j) {
      KeyGoes(t, size, key, w);
      CutKeepsRight(t, size, key, w, n);
      CutKeepsUnder(t, w, n, j);
    }
  }

  lemma {:induction false} KeyGoes(t: Layout, size: int, key: int, w: Window)
    requires Laid(t, size) && IsCut(t, key, w)
    ensures key !in Cut(t, w)
  {
    PlacedAt(t, size, key);
  }

  // A larger key that stays splits as it did.
  lemma {:induction false} StepSplits(t: Layout, size: int, base: int, key: int, w: Window, n: int)
    requires FirstOf(t, size, base, key, w) && n in t && n > key && w.Stays(t[n].at)
    ensures Splits(Cut(t, w), base, n) <==> Splits(t, base, n)
  {
    CutIsProper(t, size, key, w);
    CutKeepsRight(t, size, key, w, n);
    forall j | j in t && j < base
      ensures Under(t, n, j) && !LostBelow(t, base, n, j) <==>
              Under(Cut(t, w), n, j) && !LostBelow(Cut(t, w), base, n, j)
    {
      StepBelow(t, size, base, n, key, w, j);
      if w.Stays(t[j].at) { CutKeepsUnder(t, w, n, j); }
    }
  }

  // A key with two children has one from below the range under it, if it is the first.
  lemma {:induction false} FirstSplits(t: Layout, size: int, base: int, key: int, w: Window)
    requires FirstOf(t, size, base, key, w)
    ensures Splits(t, base, key) <==> t[key].lo != t[key].at && HasRight(t, key)
  {
    PlacedAt(t, size, key);
    if t[key].lo != t[key].at && HasRight(t, key) {
      assert Taken(t, t[key].at - 1);
      var j :| j in t && t[j].at == t[key].at - 1;
      NestedAt(t, size, key, j);
      assert Under(t, key, j) && !LostBelow(t, base, key, j);
    }
    if Splits(t, base, key) {
      var j :| j < base && Under(t, key, j) && !LostBelow(t, base, key, j);
      NestedAt(t, size, key, j);
    }
  }

  // What the deletion of the first key takes from above it.
  lemma {:induction false} LargeGoes(t: Layout, size: int, base: int, key: int, w: Window, j: int)
    requires FirstOf(t, size, base, key, w) && j in t && j > key
    ensures !w.Stays(t[j].at) <==> Splits(t, base, key) && Under(t, key, j) && !UnderNext(t, key, j)
  {
    FirstSplits(t, size, base, key, w);
    if t[key].lo == t[key].at || !HasRight(t, key) {
      OneChildGoes(t, size, key, w, j);
    } else {
      TwoChildrenGo(t, size, key, w, j);
    }
  }

  lemma {:induction false} StepUnderNext(t: Layout, size: int, base: int, key: int, w: Window, n: int, j: int)
    requires FirstOf(t, size, base, key, w) && n in t && n > key && w.Stays(t[n].at) && HasRight(t, n)
    requires j in t && w.Stays(t[j].at)
    ensures UnderNext(Cut(t, w), n, j) <==> UnderNext(t, n, j)
  {
    CutIsProper(t, size, key, w);
    if m :| Next(t, n, m) && Under(t, m, j) {
      NextStays(t, size, key, w, n, m);
      CutKeepsNext(t, size, key, w, n, m);
      CutKeepsUnder(t, w, m, j);
    }
    if m :| Next(Cut(t, w), n, m) && Under(Cut(t, w), m, j) {
      CutKeepsNext(t, size, key, w, n, m);
      CutKeepsUnder(t, w, m, j);
    }
  }

  /** Deleting the first key changes for no key above the range whether it is lost in the end. */
  lemma {:induction false} StepAbove(t: Layout, size: int, base: int, limit: int, key: int, w: Window, j: int)
    requires FirstOf(t, size, base, key, w) && key < limit && j in t && j >= limit
    ensures LostAbove(t, base, limit, j) <==> j !in Cut(t, w) || LostAbove(Cut(t, w), base, limit, j)
  {
    CutIsProper(t, size, key, w);
    LargeGoes(t, size, base, key, w, j);
    if n :| base <= n < limit && Splits(t, base, n) && Under(t, n, j) && !UnderNext(t, n, j) && n != key {
      StepAboveFrom(t, size, base, limit, key, w, n, j);
    }
    if n :| base <= n < limit && Splits(Cut(t, w), base, n) && Under(Cut(t, w), n, j) && !UnderNext(Cut(t, w), n, j) {
      KeyGoes(t, size, key, w);
      StepSplits(t, size, base, key, w, n);
      CutKeepsUnder(t, w, n, j);
      StepUnderNext(t, size, base, key, w, n, j);
    }
  }

  lemma {:induction false} StepAboveFrom(t: Layout, size: int, base: int, limit: int, key: int, w: Window, n: int,
                                         j: int)
    requires FirstOf(t, size, base, key, w) && key < n < limit && j in t
    requires Splits(t, base, n) && Under(t, n, j) && !UnderNext(t, n, j)
    ensures j !in Cut(t, w) || LostAbove(Cut(t, w), base, limit, j)
  {
    CutIsProper(t, size, key, w);
    var i :| i < base && Under(t, n, i) && !LostBelow(t, base, n, i);
    OverSmallStays(t, size, base, key, w, n, i);
    if w.Stays(t[j].at) {
      StepSplits(t, size, base, key, w, n);
      CutKeepsUnder(t, w, n, j);
      StepUnderNext(t, size, base, key, w, n, j);
    }
  }

  /** Deleting the first key changes for no key outside the range whether it is lost in the end. */
  lemma {:induction false} StepKeepsLost(t: Layout, size: int, base: int, limit: int, key: int, w: Window, j: int)
    requires FirstOf(t, size, base, key, w) && key < limit && j in t && !(base <= j < limit)
    ensures Lost(t, base, limit, j) <==> j !in Cut(t, w) || Lost(Cut(t, w), base, limit, j)
  {
    if j < base {
      StepBelow(t, size, base, limit, key, w, j);
    } else {
      StepAbove(t, size, base, limit, key, w, j);
    }
  }

  /** Nothing is lost exactly when nothing below the range is. */
  lemma {:induction false} NothingLost(t: Layout, base: int, limit: int)
    ensures (forall j :: j in t && !(base <= j < limit) ==> !Lost(t, base, limit, j)) <==>
              forall j :: j in t && j < base ==> !LostBelow(t, base, limit, j)
  {
    if (forall j :: j in t && j < base ==> !LostBelow(t, base, limit, j)) {
      forall n, j | base <= n < limit && j < base && HasRight(t, n) ensures !Under(t, n, j) {
        if Under(t, n, j) { assert LostBelow(t, base, limit, j); }
      }
    } else {
      var j :| j in t && j < base && LostBelow(t, base, limit, j);
      assert Lost(t, base, limit, j);
    }
  }
}
