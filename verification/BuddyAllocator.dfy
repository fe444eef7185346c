/**
  The userspace buddy allocator of lib/mammoth/util/new.cpp.

  Memory is seen through the block headers stored in it: a map from block addresses to slots.
  Ghost state records the blocks an arena is tiled by, which of them are free, and what each
  live block was asked for.
 */
module BuddyAllocator {
  import opened Common
  import opened Bits

  const ARENA: nat := 13   // An arena is 0x2000 bytes, aligned to its size.
  const SMALLEST: nat := 5 // The smallest block is 32 bytes.

  // ----- Alignment to powers of two -----

  ghost predicate Aligned(a: int, k: nat)
    decreases k
  {
    k == 0 || (a % 2 == 0 && Aligned(a / 2, k - 1))
  }

  lemma {:induction false} AlignedIsMultiple(a: nat, k: nat)
    ensures Aligned(a, k) <==> a % Pow2(k) == 0
  {
    if k > 0 {
      AlignedIsMultiple(a / 2, k - 1);
      HalveDivMod(a, Pow2(k - 1));
    }
  }

  lemma {:induction false} AlignedMono(a: int, k: nat, j: nat)
    requires Aligned(a, j) && k <= j
    ensures Aligned(a, k)
    decreases k
  {
    if k > 0 { AlignedMono(a / 2, k - 1, j - 1); }
  }

  lemma {:induction false} AlignedStep(a: int, k: nat)
    requires Aligned(a, k)
    ensures Aligned(a + Pow2(k), k) && Aligned(a - Pow2(k), k)
    ensures Aligned(a, k + 1) <==> !Aligned(a + Pow2(k), k + 1)
    ensures Aligned(a, k + 1) <==> !Aligned(a - Pow2(k), k + 1)
    decreases k
  {
    if k > 0 {
      AlignedStep(a / 2, k - 1);
      assert (a + Pow2(k)) / 2 == a / 2 + Pow2(k - 1) && (a - Pow2(k)) / 2 == a / 2 - Pow2(k - 1);
    }
  }

  // Aligned addresses are a whole step apart.
  lemma {:induction false} AlignedGap(x: int, y: int, k: nat)
    requires Aligned(x, k) && Aligned(y, k) && x < y
    ensures x + Pow2(k) <= y
    decreases k
  {
    if k > 0 { AlignedGap(x / 2, y / 2, k - 1); }
  }

  lemma {:induction false} Pow2Grows(k: nat, j: nat)
    requires k <= j
    ensures Pow2(k) <= Pow2(j) && (k < j ==> 2 * Pow2(k) <= Pow2(j))
  {
    if k < j { Pow2Grows(k, j - 1); }
  }

  // ----- Buddies -----

  /** The address GetBuddy computes. */
  function BuddyOf(a: nat, size: nat): nat { Xor(a, size) }

  /** The lower of two buddies, where their parent block begins. */
  ghost function Parent(a: nat, k: nat): int { if Aligned(a, k + 1) then a else a - Pow2(k) }

  /** Flipping the size bit moves between the two halves of the parent block. */
  lemma {:induction false} BuddyIsOtherHalf(a: nat, k: nat)
    requires Aligned(a, k)
    ensures BuddyOf(a, Pow2(k)) == (if Aligned(a, k + 1) then a + Pow2(k) else a - Pow2(k))
    ensures Aligned(BuddyOf(a, Pow2(k)), k) && Parent(BuddyOf(a, Pow2(k)), k) == Parent(a, k) >= 0
    ensures Aligned(Parent(a, k), k + 1)
  {
    XorPow2(a, k);
    AlignedIsMultiple(a, k);
    AlignedIsMultiple(a, k + 1);
    DivModProduct(a, Pow2(k), 2);
    AlignedStep(a, k);
  }

  // ----- Tilings -----

  datatype Ptr = Null | Ptr(at: nat)

  // Blocks and the exponents of their sizes.
  type Blocks = map<Ptr, nat>

  ghost predicate InBlock(blocks: Blocks, b: Ptr, x: int)
    requires b in blocks && b.Ptr?
  {
    b.at <= x < b.at + Pow2(blocks[b])
  }

  ghost predicate Covered(blocks: Blocks, x: int) {
    exists b :: b in blocks && b.Ptr? && InBlock(blocks, b, x)
  }

  ghost predicate InArena(arenas: set<nat>, x: int) {
    exists a :: a in arenas && a <= x < a + 0x2000
  }

  ghost predicate Apart(blocks: Blocks, b: Ptr, c: Ptr)
    requires b in blocks && c in blocks && b.Ptr? && c.Ptr?
  {
    b == c || b.at + Pow2(blocks[b]) <= c.at || c.at + Pow2(blocks[c]) <= b.at
  }

  // A block is a power of two in size, aligned to its size, and in an arena.
  ghost predicate GoodBlock(blocks: Blocks, arenas: set<nat>, b: Ptr) {
    b.Ptr? && b in blocks && SMALLEST <= blocks[b] <= ARENA && Aligned(b.at, blocks[b]) && InArena(arenas, b.at)
  }

  /** The blocks tile the arenas: every block well formed, no two overlapping, every byte in one. */
  ghost predicate Tiling(blocks: Blocks, arenas: set<nat>) {
    && (forall b {:trigger GoodBlock(blocks, arenas, b)} :: b in blocks ==> GoodBlock(blocks, arenas, b))
    && (forall b, c {:trigger Apart(blocks, b, c)} :: b in blocks && c in blocks ==>
          GoodBlock(blocks, arenas, b) && GoodBlock(blocks, arenas, c) && Apart(blocks, b, c))
    && (forall x {:trigger Covered(blocks, x)} :: InArena(arenas, x) ==> Covered(blocks, x))
    && (forall a :: a in arenas ==> Aligned(a, ARENA) && a > 0)
  }

  lemma {:induction false} GoodAt(blocks: Blocks, arenas: set<nat>, b: Ptr)
    requires Tiling(blocks, arenas) && b in blocks
    ensures GoodBlock(blocks, arenas, b)
  {
  }

  lemma {:induction false} ApartAt(blocks: Blocks, arenas: set<nat>, b: Ptr, c: Ptr)
    requires Tiling(blocks, arenas) && b in blocks && c in blocks
    ensures GoodBlock(blocks, arenas, b) && GoodBlock(blocks, arenas, c) && Apart(blocks, b, c)
  {
    GoodAt(blocks, arenas, b);
    GoodAt(blocks, arenas, c);
    assert Apart(blocks, b, c);
  }

  // A block lies within the arena it begins in.
  lemma {:induction false} BlockInArena(arenas: set<nat>, a: nat, base: int, k: nat)
    requires k <= ARENA && Aligned(a, ARENA) && Aligned(base, k) && a <= base < a + 0x2000
    ensures base + Pow2(k) <= a + 0x2000
  {
    assert Pow2(ARENA) == 0x2000;
    AlignedStep(a, ARENA);
    AlignedMono(a + 0x2000, k, ARENA);
    AlignedGap(base, a + 0x2000, k);
  }

  // The parent of a block below arena size lies in the same arena.
  lemma {:induction false} ParentInArena(arenas: set<nat>, a: nat, base: nat, k: nat)
    requires k < ARENA && Aligned(a, ARENA) && Aligned(base, k) && a <= base < a + 0x2000
    ensures a <= Parent(base, k) && Parent(base, k) + Pow2(k + 1) <= a + 0x2000
  {
    BuddyIsOtherHalf(base, k);
    AlignedMono(a, k + 1, ARENA);
    if Parent(base, k) < a { AlignedGap(Parent(base, k), a, k + 1); }
    BlockInArena(arenas, a, Parent(base, k), k + 1);
  }

  // A block at least as large as the parent, and meeting it, contains it.
  lemma {:induction false} LargerContainsParent(c: nat, j: nat, parent: int, k: nat, x: int)
    requires k < j && Aligned(c, j) && Aligned(parent, k + 1)
    requires c <= x < c + Pow2(j) && parent <= x < parent + Pow2(k + 1)
    ensures c <= parent && parent + Pow2(k + 1) <= c + Pow2(j)
  {
    AlignedMono(c, k + 1, j);
    AlignedStep(c, j);
    AlignedMono(c + Pow2(j), k + 1, j);
    if parent < c { AlignedGap(parent, c, k + 1); }
    AlignedGap(parent, c + Pow2(j), k + 1);
  }

  // A block apart from b that contains the buddy address begins there and is no larger.
  lemma {:induction false} MeetsBuddy(b: nat, k: nat, c: nat, j: nat)
    requires Aligned(b, k) && Aligned(c, j)
    requires c <= BuddyOf(b, Pow2(k)) < c + Pow2(j)
    requires c == b ==> j == k
    requires c != b ==> b + Pow2(k) <= c || c + Pow2(j) <= b
    ensures c == BuddyOf(b, Pow2(k)) && j <= k
  {
    var x := BuddyOf(b, Pow2(k));
    BuddyIsOtherHalf(b, k);
    if j > k {
      LargerContainsParent(c, j, Parent(b, k), k, x);
    } else {
      AlignedMono(x, j, k);
      if c < x { AlignedGap(c, x, j); }
    }
  }

  lemma {:induction false} BuddyInArena(arenas: set<nat>, base: nat, k: nat)
    requires (forall a :: a in arenas ==> Aligned(a, ARENA)) && InArena(arenas, base) && k < ARENA && Aligned(base, k)
    ensures InArena(arenas, BuddyOf(base, Pow2(k))) && BuddyOf(base, Pow2(k)) != base
  {
    BuddyIsOtherHalf(base, k);
    var a :| a in arenas && a <= base < a + 0x2000;
    ParentInArena(arenas, a, base, k);
  }

  /** In a tiling, the buddy address of a block is the start of a block no larger than it. */
  lemma {:induction false} BuddyIsBlock(blocks: Blocks, arenas: set<nat>, b: Ptr)
    requires Tiling(blocks, arenas) && b in blocks && b.Ptr? && blocks[b] < ARENA
    ensures var c := Ptr(BuddyOf(b.at, Pow2(blocks[b])));
            c in blocks && c != b && blocks[c] <= blocks[b]
  {
    var x := BuddyOf(b.at, Pow2(blocks[b]));
    assert GoodBlock(blocks, arenas, b);
    BuddyInArena(arenas, b.at, blocks[b]);
    assert Covered(blocks, x);
    var c :| c in blocks && c.Ptr? && InBlock(blocks, c, x);
    assert GoodBlock(blocks, arenas, c) && Apart(blocks, b, c);
    MeetsBuddy(b.at, blocks[b], c.at, blocks[c]);
  }

  // ----- Splitting, merging, adding -----

  ghost function SplitBlocks(blocks: Blocks, b: Ptr): Blocks
    requires b in blocks && b.Ptr? && blocks[b] > 0
  {
    SplitInto(blocks, b, Ptr(b.at + Pow2(blocks[b] - 1)), blocks[b] - 1)
  }

  // Block b becomes two blocks, b and h, of size 2^k.
  ghost function SplitInto(blocks: Blocks, b: Ptr, h: Ptr, k: nat): Blocks { blocks[b := k][h := k] }

  ghost predicate CanSplit(blocks: Blocks, arenas: set<nat>, b: Ptr, h: Ptr, k: nat) {
    Tiling(blocks, arenas) && b in blocks && b.Ptr? && blocks[b] == k + 1 && k >= SMALLEST && h == Ptr(b.at + Pow2(k))
    && Pow2(k + 1) == 2 * Pow2(k)
  }

  lemma {:induction false} SplitNumbers(base: nat, k: nat)
    requires Aligned(base, k + 1)
    ensures Aligned(base, k) && Aligned(base + Pow2(k), k) && BuddyOf(base, Pow2(k)) == base + Pow2(k)
  {
    AlignedMono(base, k, k + 1);
    BuddyIsOtherHalf(base, k);
    AlignedStep(base, k);
  }

  lemma {:induction false} UpperHalfInArena(arenas: set<nat>, base: nat, k: nat)
    requires k < ARENA && Aligned(base, k + 1) && InArena(arenas, base) && forall a :: a in arenas ==> Aligned(a, ARENA)
    ensures InArena(arenas, base + Pow2(k))
  {
    var a :| a in arenas && a <= base < a + 0x2000;
    BlockInArena(arenas, a, base, k + 1);
    assert Pow2(k + 1) == 2 * Pow2(k);
  }

  lemma {:induction false} SplitGood(blocks: Blocks, arenas: set<nat>, b: Ptr, h: Ptr, k: nat)
    requires CanSplit(blocks, arenas, b, h, k)
    ensures GoodBlock(SplitInto(blocks, b, h, k), arenas, b) && GoodBlock(SplitInto(blocks, b, h, k), arenas, h)
            && h !in blocks
  {
    LowerHalfGood(blocks, arenas, b, h, k);
    UpperHalfGood(blocks, arenas, b, h, k);
    HalfIsNoBlock(blocks, arenas, b, h, k);
  }

  lemma {:induction false} LowerHalfGood(blocks: Blocks, arenas: set<nat>, b: Ptr, h: Ptr, k: nat)
    requires CanSplit(blocks, arenas, b, h, k)
    ensures GoodBlock(SplitInto(blocks, b, h, k), arenas, b)
  {
    GoodAt(blocks, arenas, b);
    SplitNumbers(b.at, k);
  }

  lemma {:induction false} UpperHalfGood(blocks: Blocks, arenas: set<nat>, b: Ptr, h: Ptr, k: nat)
    requires CanSplit(blocks, arenas, b, h, k)
    ensures GoodBlock(SplitInto(blocks, b, h, k), arenas, h)
  {
    GoodAt(blocks, arenas, b);
    UpperHalfNumbers(arenas, b.at, k);
  }

  lemma {:induction false} UpperHalfNumbers(arenas: set<nat>, base: nat, k: nat)
    requires k < ARENA && Aligned(base, k + 1) && InArena(arenas, base) && forall a :: a in arenas ==> Aligned(a, ARENA)
    ensures Aligned(base + Pow2(k), k) && InArena(arenas, base + Pow2(k))
  {
    SplitNumbers(base, k);
    UpperHalfInArena(arenas, base, k);
  }

  lemma {:induction false} HalfIsNoBlock(blocks: Blocks, arenas: set<nat>, b: Ptr, h: Ptr, k: nat)
    requires CanSplit(blocks, arenas, b, h, k)
    ensures h !in blocks
  {
    if h in blocks { ApartAt(blocks, arenas, b, h); }
  }

  // Blocks apart from the whole are apart from its halves.
  lemma {:induction false} SplitApart(blocks: Blocks, arenas: set<nat>, b: Ptr, h: Ptr, k: nat, c: Ptr, d: Ptr)
    requires CanSplit(blocks, arenas, b, h, k) && h !in blocks
    requires var blocks' := SplitInto(blocks, b, h, k); c in blocks' && d in blocks' && c.Ptr? && d.Ptr?
    ensures Apart(SplitInto(blocks, b, h, k), c, d)
  {
    var p, q := if c == h then b else c, if d == h then b else d;
    if p != q {
      WithinOwner(blocks, b, h, k, c, p);
      WithinOwner(blocks, b, h, k, d, q);
      ApartAt(blocks, arenas, p, q);
    }
  }

  // A block after the split lies within the block it comes from.
  lemma {:induction false} WithinOwner(blocks: Blocks, b: Ptr, h: Ptr, k: nat, c: Ptr, p: Ptr)
    requires b in blocks && b.Ptr? && blocks[b] == k + 1 && h == Ptr(b.at + Pow2(k)) && Pow2(k + 1) == 2 * Pow2(k)
    requires c in SplitInto(blocks, b, h, k) && c.Ptr? && h !in blocks && p == if c == h then b else c
    ensures p in blocks && p.Ptr? && p.at <= c.at
    ensures c.at + Pow2(SplitInto(blocks, b, h, k)[c]) <= p.at + Pow2(blocks[p])
  {
  }

  lemma {:induction false} SplitCovers(blocks: Blocks, b: Ptr, h: Ptr, k: nat, x: int)
    requires b in blocks && b.Ptr? && blocks[b] == k + 1 && h == Ptr(b.at + Pow2(k)) && Pow2(k + 1) == 2 * Pow2(k)
    requires Covered(blocks, x) && h !in blocks
    ensures Covered(SplitInto(blocks, b, h, k), x)
  {
    var c :| c in blocks && c.Ptr? && InBlock(blocks, c, x);
    var d := if c != b then c else if x < b.at + Pow2(k) then b else h;
    assert InBlock(SplitInto(blocks, b, h, k), d, x);
  }

  /** Halving a block keeps the tiling. */
  lemma {:induction false} SplitIntoKeepsTiling(blocks: Blocks, arenas: set<nat>, b: Ptr, h: Ptr, k: nat)
    requires CanSplit(blocks, arenas, b, h, k)
    ensures Tiling(SplitInto(blocks, b, h, k), arenas) && h !in blocks
  {
    var blocks' := SplitInto(blocks, b, h, k);
    SplitGood(blocks, arenas, b, h, k);
    forall c | c in blocks' ensures GoodBlock(blocks', arenas, c) {
      if c != b && c != h { GoodAt(blocks, arenas, c); }
    }
    forall c, d | c in blocks' && d in blocks'
      ensures GoodBlock(blocks', arenas, c) && GoodBlock(blocks', arenas, d) && Apart(blocks', c, d) {
      assert c.Ptr? && d.Ptr?;
      SplitApart(blocks, arenas, b, h, k, c, d);
    }
    forall x | InArena(arenas, x) ensures Covered(blocks', x) {
      assert Covered(blocks, x);
      SplitCovers(blocks, b, h, k, x);
    }
  }

  lemma {:induction false} SplitKeepsTiling(blocks: Blocks, arenas: set<nat>, b: Ptr)
    requires Tiling(blocks, arenas) && b in blocks && b.Ptr? && blocks[b] > SMALLEST
    ensures Tiling(SplitBlocks(blocks, b), arenas)
    ensures Ptr(b.at + Pow2(blocks[b] - 1)) !in blocks
  {
    SplitIntoKeepsTiling(blocks, arenas, b, Ptr(b.at + Pow2(blocks[b] - 1)), blocks[b] - 1);
  }

  ghost function MergeBlocks(blocks: Blocks, b: Ptr, c: Ptr): Blocks
    requires b in blocks && c in blocks && b.Ptr? && c.Ptr?
  {
    var low := if c.at < b.at then c else b;
    (blocks - {b, c})[low := blocks[b] + 1]
  }

  ghost predicate AreBuddies(blocks: Blocks, b: Ptr, c: Ptr) {
    b in blocks && c in blocks && b.Ptr? && c.Ptr? && blocks[b] == blocks[c] < ARENA
    && c.at == BuddyOf(b.at, Pow2(blocks[b]))
  }

  lemma {:induction false} MergeGood(blocks: Blocks, arenas: set<nat>, b: Ptr, c: Ptr)
    requires Tiling(blocks, arenas) && AreBuddies(blocks, b, c)
    ensures var low, high := if c.at < b.at then c else b, if c.at < b.at then b else c;
            && b != c && high.at == low.at + Pow2(blocks[b]) && Pow2(blocks[b] + 1) == 2 * Pow2(blocks[b])
            && GoodBlock(MergeBlocks(blocks, b, c), arenas, low)
  {
    assert GoodBlock(blocks, arenas, b) && GoodBlock(blocks, arenas, c);
    BuddyIsOtherHalf(b.at, blocks[b]);
  }

  lemma {:induction false} MergeCovers(blocks: Blocks, b: Ptr, c: Ptr, low: Ptr, high: Ptr, x: int)
    requires b in blocks && c in blocks && b.Ptr? && c.Ptr? && blocks[b] == blocks[c] && Covered(blocks, x)
    requires low == (if c.at < b.at then c else b) && high == (if c.at < b.at then b else c)
    requires high.at == low.at + Pow2(blocks[b])
    ensures Covered(MergeBlocks(blocks, b, c), x)
  {
    var d :| d in blocks && d.Ptr? && InBlock(blocks, d, x);
    var e := if d == b || d == c then low else d;
    assert InBlock(MergeBlocks(blocks, b, c), e, x);
  }

  // Blocks apart from both buddies are apart from the whole.
  lemma {:induction false} MergeApart(blocks: Blocks, arenas: set<nat>, b: Ptr, c: Ptr, low: Ptr, high: Ptr,
                                      d: Ptr, e: Ptr)
    requires Tiling(blocks, arenas) && AreBuddies(blocks, b, c) && b != c
    requires low == (if c.at < b.at then c else b) && high == (if c.at < b.at then b else c)
    requires high.at == low.at + Pow2(blocks[b]) && Pow2(blocks[b] + 1) == 2 * Pow2(blocks[b])
    requires var blocks' := MergeBlocks(blocks, b, c); d in blocks' && e in blocks' && d.Ptr? && e.Ptr?
    ensures Apart(MergeBlocks(blocks, b, c), d, e)
  {
    ApartAt(blocks, arenas, d, e);
    ApartAt(blocks, arenas, d, high);
    ApartAt(blocks, arenas, high, e);
  }

  /** Joining two buddies gives an aligned block of twice the size and keeps the tiling. */
  lemma {:induction false} MergeKeepsTiling(blocks: Blocks, arenas: set<nat>, b: Ptr, c: Ptr)
    requires Tiling(blocks, arenas) && AreBuddies(blocks, b, c)
    ensures Tiling(MergeBlocks(blocks, b, c), arenas)
  {
    var blocks' := MergeBlocks(blocks, b, c);
    var low, high := if c.at < b.at then c else b, if c.at < b.at then b else c;
    MergeGood(blocks, arenas, b, c);
    forall d | d in blocks' ensures GoodBlock(blocks', arenas, d) {
      if d != low { assert GoodBlock(blocks, arenas, d); }
    }
    forall d, e | d in blocks' && e in blocks'
      ensures GoodBlock(blocks', arenas, d) && GoodBlock(blocks', arenas, e) && Apart(blocks', d, e)
    {
      assert GoodBlock(blocks', arenas, d) && GoodBlock(blocks', arenas, e);
      MergeApart(blocks, arenas, b, c, low, high, d, e);
    }
    forall x | InArena(arenas, x) ensures Covered(blocks', x) {
      assert Covered(blocks, x);
      MergeCovers(blocks, b, c, low, high, x);
    }
  }

  // A fresh region of 0x4000 bytes, aligned to 0x2000, away from the others.
  ghost predicate FreshRegion(arenas: set<nat>, v: nat) {
    v > 0 && Aligned(v, ARENA) && forall a :: a in arenas ==> a + 0x4000 <= v || v + 0x4000 <= a
  }

  lemma {:induction false} GoodWithArena(blocks: Blocks, arenas: set<nat>, v: nat, d: Ptr)
    requires Tiling(blocks, arenas) && FreshRegion(arenas, v) && d in blocks[Ptr(v) := ARENA]
    ensures GoodBlock(blocks[Ptr(v) := ARENA], arenas + {v}, d)
  {
    if d != Ptr(v) {
      assert GoodBlock(blocks, arenas, d);
      var a :| a in arenas && a <= d.at < a + 0x2000;
      assert a in arenas + {v};
    }
  }

  lemma {:induction false} AddArenaKeepsTiling(blocks: Blocks, arenas: set<nat>, v: nat)
    requires Tiling(blocks, arenas) && FreshRegion(arenas, v)
    ensures Tiling(blocks[Ptr(v) := ARENA], arenas + {v}) && Ptr(v) !in blocks
  {
    var blocks', arenas' := blocks[Ptr(v) := ARENA], arenas + {v};
    assert Pow2(ARENA) == 0x2000;
    if Ptr(v) in blocks { GoodAt(blocks, arenas, Ptr(v)); }
    assert InArena(arenas', v);
    forall d | d in blocks' ensures GoodBlock(blocks', arenas', d) { GoodWithArena(blocks, arenas, v, d); }
    forall d, e | d in blocks' && e in blocks'
      ensures GoodBlock(blocks', arenas', d) && GoodBlock(blocks', arenas', e) && Apart(blocks', d, e) {
      assert GoodBlock(blocks', arenas', d) && GoodBlock(blocks', arenas', e);
      if d != Ptr(v) && e != Ptr(v) { assert Apart(blocks, d, e); }
      else if d != Ptr(v) { ApartFromArena(blocks, arenas, d, v); }
      else if e != Ptr(v) { ApartFromArena(blocks, arenas, e, v); }
    }
    forall x | InArena(arenas', x) ensures Covered(blocks', x) {
      if v <= x < v + 0x2000 {
        assert InBlock(blocks', Ptr(v), x);
      } else {
        assert InArena(arenas, x) && Covered(blocks, x);
        var d :| d in blocks && d.Ptr? && InBlock(blocks, d, x);
        assert d in blocks' && InBlock(blocks', d, x);
      }
    }
  }

  lemma {:induction false} ApartFromArena(blocks: Blocks, arenas: set<nat>, d: Ptr, v: nat)
    requires Tiling(blocks, arenas) && FreshRegion(arenas, v) && d in blocks && d.Ptr?
    ensures d.at + Pow2(blocks[d]) <= v || v + 0x4000 <= d.at
  {
    assert GoodBlock(blocks, arenas, d);
    var a :| a in arenas && a <= d.at < a + 0x2000;
    BlockInArena(arenas, a, d.at, blocks[d]);
  }

  // ----- The free list -----

  datatype Slot = Slot(next: Ptr, prev: Ptr, size: nat)

  type Memory = map<Ptr, Slot>

  function Nth(list: seq<Ptr>, i: int): Ptr { if 0 <= i < |list| then list[i] else Null }

  ghost predicate LinkedAt(mem: Memory, list: seq<Ptr>, i: int)
    requires 0 <= i < |list|
  {
    && list[i].Ptr? && list[i] in mem
    && mem[list[i]].next == Nth(list, i + 1) && mem[list[i]].prev == Nth(list, i - 1)
  }

  /** Following next from front visits the listed blocks in order, and prev leads back. */
  ghost predicate FreeList(mem: Memory, front: Ptr, list: seq<Ptr>) {
    && front == Nth(list, 0)
    && NoDup(list)
    && (forall i {:trigger LinkedAt(mem, list, i)} :: 0 <= i < |list| ==> LinkedAt(mem, list, i))
  }

  // Headers other than those of the given blocks are untouched, and no size changes.
  ghost predicate OnlyLinksOf(mem: Memory, mem': Memory, touched: set<Ptr>) {
    forall p :: p in mem ==> p in mem' && mem'[p].size == mem[p].size && (p !in touched ==> mem'[p] == mem[p])
  }

  /** Remove: takes a block out of the list and clears its links. */
  function Unlinked(mem: Memory, p: Ptr): Memory
    requires p in mem && (mem[p].prev != Null ==> mem[p].prev in mem) && (mem[p].next != Null ==> mem[p].next in mem)
  {
    var prev, next := mem[p].prev, mem[p].next;
    var m1 := if prev != Null then mem[prev := mem[prev].(next := next)] else mem;
    var m2 := if next != Null then m1[next := m1[next].(prev := prev)] else m1;
    m2[p := m2[p].(next := Null, prev := Null)]
  }

  ghost function Without(list: seq<Ptr>, i: int): seq<Ptr>
    requires 0 <= i < |list|
  {
    list[..i] + list[i + 1..]
  }

  lemma {:induction false} UnlinkKeepsList(mem: Memory, front: Ptr, list: seq<Ptr>, i: int)
    requires FreeList(mem, front, list) && 0 <= i < |list|
    ensures LinkedAt(mem, list, i) && (i > 0 ==> LinkedAt(mem, list, i - 1))
            && (i + 1 < |list| ==> LinkedAt(mem, list, i + 1))
    ensures FreeList(Unlinked(mem, list[i]), if front == list[i] then mem[list[i]].next else front, Without(list, i))
    ensures OnlyLinksOf(mem, Unlinked(mem, list[i]), {list[i], Nth(list, i - 1), Nth(list, i + 1)})
  {
    assert LinkedAt(mem, list, i);
    if i > 0 { assert LinkedAt(mem, list, i - 1); }
    if i + 1 < |list| { assert LinkedAt(mem, list, i + 1); }
    var mem', list' := Unlinked(mem, list[i]), Without(list, i);
    forall j | 0 <= j < |list'| ensures LinkedAt(mem', list', j) {
      UnlinkedAt(mem, list, i, j);
    }
  }

  lemma {:induction false} UnlinkedAt(mem: Memory, list: seq<Ptr>, i: int, j: int)
    requires NoDup(list) && 0 <= i < |list| && 0 <= j < |list| - 1
    requires LinkedAt(mem, list, i) && (i > 0 ==> LinkedAt(mem, list, i - 1))
             && (i + 1 < |list| ==> LinkedAt(mem, list, i + 1))
    requires LinkedAt(mem, list, if j < i then j else j + 1)
    ensures LinkedAt(Unlinked(mem, list[i]), Without(list, i), j)
  {
    var k := if j < i then j else j + 1;
    assert Without(list, i)[j] == list[k];
    assert list[k] != list[i];
  }

  /** Puts a block with no predecessor at the front of the list. */
  function Pushed(mem: Memory, front: Ptr, p: Ptr): Memory
    requires p in mem && (front != Null ==> front in mem)
  {
    var m1 := if front != Null then mem[front := mem[front].(prev := p)] else mem;
    m1[p := m1[p].(next := front)]
  }

  lemma {:induction false} PushKeepsList(mem: Memory, front: Ptr, list: seq<Ptr>, p: Ptr)
    requires FreeList(mem, front, list) && p.Ptr? && p in mem && mem[p].prev == Null && p !in list
    ensures front != Null ==> front in mem
    ensures FreeList(Pushed(mem, front, p), p, [p] + list)
    ensures OnlyLinksOf(mem, Pushed(mem, front, p), {p, front})
  {
    if |list| > 0 { assert LinkedAt(mem, list, 0); }
    var mem', list' := Pushed(mem, front, p), [p] + list;
    forall j | 0 <= j < |list'| ensures LinkedAt(mem', list', j) {
      if j > 0 { assert LinkedAt(mem, list, j - 1) && list'[j] == list[j - 1]; }
    }
  }

  /** Split: halves a listed block and lists its upper half n behind it. */
  function SplitSlots(mem: Memory, p: Ptr, n: Ptr): Memory
    requires p in mem && (mem[p].next != Null ==> mem[p].next in mem)
  {
    var half := mem[p].size / 2;
    var m1 := mem[p := mem[p].(size := half)];
    var next := m1[p].next;
    var m2 := m1[n := Slot(next, p, half)];
    var m3 := if next != Null then m2[next := m2[next].(prev := n)] else m2;
    m3[p := m3[p].(next := n)]
  }

  ghost function WithAfter(list: seq<Ptr>, i: int, n: Ptr): seq<Ptr>
    requires 0 <= i < |list|
  {
    list[..i + 1] + [n] + list[i + 1..]
  }

  lemma {:induction false} SplitKeepsList(mem: Memory, front: Ptr, list: seq<Ptr>, i: int, n: Ptr)
    requires FreeList(mem, front, list) && 0 <= i < |list| && n.Ptr? && n !in list
    ensures LinkedAt(mem, list, i) && (mem[list[i]].next != Null ==> mem[list[i]].next in mem)
    ensures FreeList(SplitSlots(mem, list[i], n), front, WithAfter(list, i, n))
    ensures var mem' := SplitSlots(mem, list[i], n);
            && (forall q :: q in mem && q != list[i] && q != n ==> q in mem' && mem'[q].size == mem[q].size)
            && (forall q :: q in mem && q !in {list[i], n, Nth(list, i + 1)} ==> mem'[q] == mem[q])
            && list[i] in mem' && n in mem' && mem'[list[i]].size == mem'[n].size == mem[list[i]].size / 2
  {
    assert LinkedAt(mem, list, i);
    if i + 1 < |list| { assert LinkedAt(mem, list, i + 1); }
    var mem', list' := SplitSlots(mem, list[i], n), WithAfter(list, i, n);
    forall j | 0 <= j < |list'| ensures LinkedAt(mem', list', j) {
      if j != i + 1 {
        var k := if j <= i then j else j - 1;
        assert LinkedAt(mem, list, k);
        SplitAt(mem, list, i, n, j);
      }
    }
  }

  lemma {:induction false} SplitAt(mem: Memory, list: seq<Ptr>, i: int, n: Ptr, j: int)
    requires NoDup(list) && 0 <= i < |list| && n.Ptr? && n !in list && 0 <= j <= |list| && j != i + 1
    requires LinkedAt(mem, list, i) && (i + 1 < |list| ==> LinkedAt(mem, list, i + 1))
    requires LinkedAt(mem, list, if j <= i then j else j - 1)
    ensures LinkedAt(SplitSlots(mem, list[i], n), WithAfter(list, i, n), j)
  {
    var k := if j <= i then j else j - 1;
    assert WithAfter(list, i, n)[j] == list[k];
    assert k != i ==> list[k] != list[i];
    assert list[k] != n;
  }

  // ----- The whole state -----

  // Blocks, the free ones in list order, the live ones with the sizes asked for, and those an
  // operation is holding in between.
  datatype Heap = Heap(blocks: Blocks, arenas: set<nat>, free: seq<Ptr>, live: map<Ptr, nat>, loose: set<Ptr>)

  /** The payload asked for fits the block, or the 0x4000-byte region of a whole arena. */
  predicate Fits(k: nat, size: nat) {
    size + 24 <= Pow2(k) || (k == ARENA && size + 24 <= 0x4000)
  }

  /** The block is no larger than the payload and its header call for. */
  predicate Snug(k: nat, size: nat) {
    k <= SMALLEST || Pow2(k - 1) < size + 24
  }

  // The header of a block agrees with what the block is used for.
  ghost predicate Header(mem: Memory, h: Heap, b: Ptr) {
    && b in h.blocks && b in mem && mem[b].size == Pow2(h.blocks[b])
    && (b in h.free ==> b !in h.live && b !in h.loose)
    && (b in h.live ==> b !in h.loose && Fits(h.blocks[b], h.live[b]))
    && (b in h.free || b in h.live || b in h.loose)
    && (b !in h.free ==> mem[b].next == Null && mem[b].prev == Null)
  }

  ghost predicate RegionsApart(arenas: set<nat>) {
    forall a, c :: a in arenas && c in arenas && a < c ==> a + 0x4000 <= c
  }

  ghost predicate Headers(mem: Memory, h: Heap) {
    && (forall b {:trigger Header(mem, h, b)} :: b in h.blocks ==> Header(mem, h, b))
    && (forall b :: b in h.free || b in h.live || b in h.loose ==> b in h.blocks)
  }

  /** Tiling, free list and headers agree. */
  ghost predicate State(mem: Memory, front: Ptr, h: Heap) {
    Tiling(h.blocks, h.arenas) && RegionsApart(h.arenas) && FreeList(mem, front, h.free) && Headers(mem, h)
  }

  lemma {:induction false} HeaderAt(mem: Memory, front: Ptr, h: Heap, b: Ptr)
    requires State(mem, front, h) && b in h.blocks
    ensures Header(mem, h, b)
  {
  }

  ghost function RemovedHeap(h: Heap, i: int): Heap
    requires 0 <= i < |h.free|
  {
    h.(free := Without(h.free, i), loose := h.loose + {h.free[i]})
  }

  lemma {:induction false} InWithout(list: seq<Ptr>, i: int, b: Ptr)
    requires NoDup(list) && 0 <= i < |list|
    ensures b in Without(list, i) <==> b in list && b != list[i]
  {
    if b in list && b != list[i] {
      var j :| 0 <= j < |list| && list[j] == b;
      assert b == Without(list, i)[if j < i then j else j - 1];
    }
  }

  lemma {:induction false} RemoveKeepsState(mem: Memory, front: Ptr, h: Heap, i: int)
    requires State(mem, front, h) && 0 <= i < |h.free|
    ensures LinkedAt(mem, h.free, i) && (i > 0 ==> LinkedAt(mem, h.free, i - 1))
            && (i + 1 < |h.free| ==> LinkedAt(mem, h.free, i + 1))
    ensures State(Unlinked(mem, h.free[i]), if front == h.free[i] then mem[h.free[i]].next
                  else front, RemovedHeap(h, i))
  {
    UnlinkKeepsList(mem, front, h.free, i);
    var mem', h' := Unlinked(mem, h.free[i]), RemovedHeap(h, i);
    forall b | b in h.blocks ensures Header(mem', h', b) {
      HeaderAt(mem, front, h, b);
      InWithout(h.free, i, b);
    }
    forall b | b in h'.free || b in h'.live || b in h'.loose ensures b in h'.blocks {
      InWithout(h.free, i, b);
    }
  }

  lemma {:induction false} PushKeepsState(mem: Memory, front: Ptr, h: Heap, p: Ptr)
    requires State(mem, front, h) && p in h.loose
    ensures p in mem && (front != Null ==> front in mem)
    ensures State(Pushed(mem, front, p), p, h.(free := [p] + h.free, loose := h.loose - {p}))
  {
    HeaderAt(mem, front, h, p);
    GoodAt(h.blocks, h.arenas, p);
    PushKeepsList(mem, front, h.free, p);
    var mem', h' := Pushed(mem, front, p), h.(free := [p] + h.free, loose := h.loose - {p});
    forall b | b in h.blocks ensures Header(mem', h', b) {
      HeaderAt(mem, front, h, b);
    }
  }

  ghost function SplitHeap(h: Heap, i: int): Heap
    requires 0 <= i < |h.free| && h.free[i] in h.blocks && h.free[i].Ptr? && h.blocks[h.free[i]] > 0
  {
    var p := h.free[i];
    h.(blocks := SplitBlocks(h.blocks, p), free := WithAfter(h.free, i, Ptr(p.at + Pow2(h.blocks[p] - 1))))
  }

  lemma {:induction false} InWithAfter(list: seq<Ptr>, i: int, n: Ptr, b: Ptr)
    requires 0 <= i < |list|
    ensures b in WithAfter(list, i, n) <==> b in list || b == n
  {
    if b in list {
      var j :| 0 <= j < |list| && list[j] == b;
      assert b == WithAfter(list, i, n)[if j <= i then j else j + 1];
    }
    assert WithAfter(list, i, n)[i + 1] == n;
  }

  lemma {:induction false} SplitSizes(blocks: Blocks, arenas: set<nat>, p: Ptr)
    requires Tiling(blocks, arenas) && p in blocks && Pow2(blocks[p]) > 32
    ensures p.Ptr? && SMALLEST < blocks[p] && Pow2(blocks[p]) == 2 * Pow2(blocks[p] - 1)
    ensures BuddyOf(p.at, Pow2(blocks[p] - 1)) == p.at + Pow2(blocks[p] - 1)
    ensures Ptr(p.at + Pow2(blocks[p] - 1)) !in blocks
  {
    GoodAt(blocks, arenas, p);
    assert Pow2(SMALLEST) == 32;
    SplitNumbers(p.at, blocks[p] - 1);
    SplitKeepsTiling(blocks, arenas, p);
  }

  // What Split needs to know about the block it halves.
  lemma {:induction false} SplitPossible(mem: Memory, front: Ptr, h: Heap, i: int)
    requires State(mem, front, h) && 0 <= i < |h.free| && h.free[i] in mem && mem[h.free[i]].size > 32
    ensures var p := h.free[i];
            && p in h.blocks && p.Ptr? && SMALLEST < h.blocks[p]
            && mem[p].size == Pow2(h.blocks[p]) == 2 * Pow2(h.blocks[p] - 1)
            && BuddyOf(p.at, mem[p].size / 2) == p.at + Pow2(h.blocks[p] - 1)
            && Ptr(p.at + Pow2(h.blocks[p] - 1)) !in h.blocks
            && LinkedAt(mem, h.free, i) && (mem[p].next != Null ==> mem[p].next in mem)
  {
    var p := h.free[i];
    HeaderAt(mem, front, h, p);
    SplitSizes(h.blocks, h.arenas, p);
    assert LinkedAt(mem, h.free, i);
    if i + 1 < |h.free| { assert LinkedAt(mem, h.free, i + 1); }
  }

  lemma {:induction false} SplitKeepsState(mem: Memory, front: Ptr, h: Heap, i: int)
    requires State(mem, front, h) && 0 <= i < |h.free|
    requires var p := h.free[i];
             && p in h.blocks && p in mem && p.Ptr? && SMALLEST < h.blocks[p] && mem[p].size == Pow2(h.blocks[p])
             && Ptr(p.at + Pow2(h.blocks[p] - 1)) !in h.blocks && (mem[p].next != Null ==> mem[p].next in mem)
    ensures var p := h.free[i];
            State(SplitSlots(mem, p, Ptr(p.at + Pow2(h.blocks[p] - 1))), front, SplitHeap(h, i))
  {
    var p := h.free[i];
    var n := Ptr(p.at + Pow2(h.blocks[p] - 1));
    SplitKeepsTiling(h.blocks, h.arenas, p);
    assert n !in h.free;
    SplitKeepsList(mem, front, h.free, i, n);
    var mem', h' := SplitSlots(mem, p, n), SplitHeap(h, i);
    forall b | b in h'.blocks ensures Header(mem', h', b) {
      InWithAfter(h.free, i, n, b);
      if b != n { HeaderAt(mem, front, h, b); }
    }
    forall b | b in h'.free || b in h'.live || b in h'.loose ensures b in h'.blocks {
      InWithAfter(h.free, i, n, b);
    }
  }

  ghost function MergedHeap(h: Heap, b: Ptr, c: Ptr): Heap
    requires b in h.blocks && c in h.blocks && b.Ptr? && c.Ptr?
  {
    h.(blocks := MergeBlocks(h.blocks, b, c), loose := h.loose - {b, c} + {if c.at < b.at then c else b})
  }

  lemma {:induction false} MergeKeepsState(mem: Memory, front: Ptr, h: Heap, b: Ptr, c: Ptr)
    requires State(mem, front, h) && AreBuddies(h.blocks, b, c) && b in h.loose && c in h.loose
    ensures var low := if c.at < b.at then c else b;
            low in mem && State(mem[low := mem[low].(size := mem[low].size * 2)], front, MergedHeap(h, b, c))
  {
    var low := if c.at < b.at then c else b;
    HeaderAt(mem, front, h, b);
    HeaderAt(mem, front, h, c);
    MergeGood(h.blocks, h.arenas, b, c);
    MergeKeepsTiling(h.blocks, h.arenas, b, c);
    var mem', h' := mem[low := mem[low].(size := mem[low].size * 2)], MergedHeap(h, b, c);
    forall d | d in h'.blocks ensures Header(mem', h', d) {
      HeaderAt(mem, front, h, d);
    }
    forall i | 0 <= i < |h.free| ensures LinkedAt(mem', h.free, i) {
      assert LinkedAt(mem, h.free, i) && h.free[i] in h.free;
    }
    forall d | d in h'.free || d in h'.live || d in h'.loose ensures d in h'.blocks {
      HeaderAt(mem, front, h, d);
    }
  }

  lemma {:induction false} AddPageKeepsState(mem: Memory, front: Ptr, h: Heap, v: nat)
    requires State(mem, front, h) && FreshRegion(h.arenas, v)
    ensures State(mem[Ptr(v) := Slot(Null, Null, 0x2000)], front,
                  h.(blocks := h.blocks[Ptr(v) := ARENA], arenas := h.arenas + {v}, loose := h.loose + {Ptr(v)}))
    ensures Ptr(v) !in h.blocks
  {
    AddArenaKeepsTiling(h.blocks, h.arenas, v);
    assert Pow2(ARENA) == 0x2000;
    var mem' := mem[Ptr(v) := Slot(Null, Null, 0x2000)];
    var h' := h.(blocks := h.blocks[Ptr(v) := ARENA], arenas := h.arenas + {v}, loose := h.loose + {Ptr(v)});
    forall d | d in h'.blocks ensures Header(mem', h', d) {
      if d != Ptr(v) { HeaderAt(mem, front, h, d); }
    }
    forall i | 0 <= i < |h.free| ensures LinkedAt(mem', h.free, i) {
      assert LinkedAt(mem, h.free, i) && h.free[i] in h.free;
    }
  }

  lemma {:induction false} TakeKeepsState(mem: Memory, front: Ptr, h: Heap, p: Ptr, size: nat)
    requires State(mem, front, h) && p in h.loose && p in h.blocks && Fits(h.blocks[p], size)
    ensures State(mem, front, h.(live := h.live[p := size], loose := h.loose - {p}))
  {
    var h' := h.(live := h.live[p := size], loose := h.loose - {p});
    forall d | d in h'.blocks ensures Header(mem, h', d) { HeaderAt(mem, front, h, d); }
  }

  lemma {:induction false} DropKeepsState(mem: Memory, front: Ptr, h: Heap, p: Ptr)
    requires State(mem, front, h) && p in h.live
    ensures State(mem, front, h.(live := h.live - {p}, loose := h.loose + {p}))
  {
    var h' := h.(live := h.live - {p}, loose := h.loose + {p});
    forall d | d in h'.blocks ensures Header(mem, h', d) { HeaderAt(mem, front, h, d); }
  }

  lemma {:induction false} NthIsNull(mem: Memory, front: Ptr, list: seq<Ptr>, i: int)
    requires FreeList(mem, front, list) && 0 <= i <= |list|
    ensures Nth(list, i) == Null <==> i == |list|
  {
    if i < |list| { assert LinkedAt(mem, list, i); }
  }

  lemma {:induction false} Pow2Order(j: nat, k: nat)
    ensures Pow2(j) < Pow2(k) <==> j < k
    ensures Pow2(j) == Pow2(k) <==> j == k
  {
    if j < k { Pow2Grows(j, k); }
    if k < j { Pow2Grows(k, j); }
  }

  /** The listed block of least size among those of at least the needed size; Null if there is none. */
  ghost predicate SmallestFit(mem: Memory, list: seq<Ptr>, needed: nat, best: Ptr) {
    && (best != Null ==> best in list && best in mem && mem[best].size >= needed)
    && (forall b :: b in list ==> b in mem && (mem[b].size < needed || (best != Null && mem[best].size <= mem[b].size)))
  }

  // The block the search and the new arenas lead to.
  ghost predicate Chosen(mem: Memory, h: Heap, needed: nat, first: nat, second: nat, best: Ptr, arenas: set<nat>) {
    if h.free == [] then
      if needed <= 0x2000 then best == Ptr(first) && arenas == h.arenas + {first}
      else best == Ptr(second) && arenas == h.arenas + {first, second}
    else
      || (best != Null && SmallestFit(mem, h.free, needed, best) && arenas == h.arenas)
      || (SmallestFit(mem, h.free, needed, Null) && best == Ptr(first) && arenas == h.arenas + {first})
  }

  /** No free block has room for the payload and its header. */
  ghost predicate NoneFits(h: Heap, size: nat) {
    forall c :: c in h.free && c in h.blocks ==> Pow2(h.blocks[c]) < size + 24
  }

  /** A free block with room, and none with room is smaller. */
  ghost predicate BestFree(h: Heap, size: nat, b: Ptr) {
    && b in h.free && b in h.blocks && size + 24 <= Pow2(h.blocks[b])
    && forall c :: c in h.free && c in h.blocks && size + 24 <= Pow2(h.blocks[c]) ==> h.blocks[b] <= h.blocks[c]
  }

  /**
   * No arena is added while a free block has room, and the payload goes into a smallest such block.  Otherwise one
   * is added; two if nothing at all is free and even a whole one is too small.
   */
  ghost predicate Served(h: Heap, size: nat, first: nat, second: nat, b: Ptr, arenas: set<nat>) {
    if !NoneFits(h, size) then BestFree(h, size, b) && arenas == h.arenas
    else if h.free == [] && size + 24 > 0x2000 then b == Ptr(second) && arenas == h.arenas + {first, second}
    else b == Ptr(first) && arenas == h.arenas + {first}
  }

  // A block is at least the size NeededSize finds exactly when the payload and its header fit into it.
  lemma {:induction false} NeededTells(size: nat, k: nat, j: nat)
    requires size + 24 <= Pow2(k) && Snug(k, size) && SMALLEST <= j
    ensures size + 24 <= Pow2(j) <==> Pow2(k) <= Pow2(j)
  {
    Pow2Order(j, k);
    if j < k { Pow2Grows(j, k - 1); }
  }

  lemma {:induction false} FreeShows(mem: Memory, front: Ptr, h: Heap, size: nat, k: nat, b: Ptr)
    requires State(mem, front, h) && size + 24 <= Pow2(k) && Snug(k, size) && b in h.free
    ensures b in h.blocks && b in mem && mem[b].size == Pow2(h.blocks[b])
    ensures size + 24 <= Pow2(h.blocks[b]) <==> mem[b].size >= Pow2(k)
  {
    HeaderAt(mem, front, h, b);
    GoodAt(h.blocks, h.arenas, b);
    NeededTells(size, k, h.blocks[b]);
  }

  lemma {:induction false} ChosenServes(mem: Memory, front: Ptr, h: Heap, size: nat, k: nat, first: nat, second: nat,
                                        best: Ptr, arenas: set<nat>)
    requires State(mem, front, h) && size + 24 <= Pow2(k) && Snug(k, size)
    requires Chosen(mem, h, Pow2(k), first, second, best, arenas)
    ensures Served(h, size, first, second, best, arenas)
  {
    NeededTells(size, k, ARENA);
    assert Pow2(ARENA) == 0x2000;
    forall b | b in h.free
      ensures b in h.blocks && b in mem && mem[b].size == Pow2(h.blocks[b])
      ensures size + 24 <= Pow2(h.blocks[b]) <==> mem[b].size >= Pow2(k)
    {
      FreeShows(mem, front, h, size, k, b);
    }
    if !NoneFits(h, size) {
      forall c | c in h.free && size + 24 <= Pow2(h.blocks[c]) ensures best in h.free && h.blocks[best] <= h.blocks[c] {
        Pow2Order(h.blocks[c], h.blocks[best]);
      }
    }
  }

  // With one whole arena free, it is that one or none.
  lemma {:induction false} OnlyArena(mem: Memory, front: Ptr, h: Heap, v: nat, needed: nat, best: Ptr)
    requires State(mem, front, h) && h.free == [Ptr(v)] && Ptr(v) in h.blocks && h.blocks[Ptr(v)] == ARENA
    requires SmallestFit(mem, h.free, needed, best)
    ensures best == if needed <= 0x2000 then Ptr(v) else Null
  {
    HeaderAt(mem, front, h, Ptr(v));
    assert Pow2(ARENA) == 0x2000;
    assert h.free[0] in h.free;
  }

  /** A listed block shows a link in its header exactly when it is not the only one. */
  lemma {:induction false} LinkedTellsFree(mem: Memory, front: Ptr, list: seq<Ptr>, b: Ptr)
    requires FreeList(mem, front, list) && b in list
    ensures b in mem && (mem[b].next != Null || mem[b].prev != Null <==> |list| > 1)
  {
    var i :| 0 <= i < |list| && list[i] == b;
    assert LinkedAt(mem, list, i);
    NthIsNull(mem, front, list, i + 1);
    if i > 0 { NthIsNull(mem, front, list, i - 1); }
  }

  // The size NeededSize finds, or a whole arena instead of it, is right for the payload.
  lemma {:induction false} NeededFits(size: nat, k: nat, j: nat)
    requires size + 24 <= 0x4000 && size + 24 <= Pow2(k) && Snug(k, size)
    requires j == k || (j == ARENA && j < k)
    ensures Fits(j, size) && Snug(j, size)
  {
    if j < k { Pow2Grows(j - 1, k - 1); }
  }

  /**
   * Nothing among the other free blocks is left to merge b with, except a buddy that is alone on
   * the list and so shows no link.
   */
  ghost predicate Coalesced(blocks: Blocks, b: Ptr, others: seq<Ptr>) {
    && b in blocks && b.Ptr?
    && (blocks[b] < ARENA ==>
          var c := Ptr(BuddyOf(b.at, Pow2(blocks[b])));
          c in blocks && (c !in others || |others| == 1 || blocks[c] != blocks[b]))
  }

  // ----- Payloads freed before -----

  // Header p was merged into the free block c. It still shows its last size and no links, and so
  // does the header of its lower buddy, unless c begins there.
  ghost predicate Absorbed(mem: Memory, h: Heap, p: Ptr, c: Ptr, k: nat) {
    && p.Ptr? && c.Ptr? && c in h.blocks && (c in h.free || c in h.loose)
    && k < h.blocks[c] && Aligned(p.at, k) && !Aligned(p.at, k + 1)
    && c.at + Pow2(k) <= p.at < c.at + Pow2(h.blocks[c])
    && p in mem && mem[p] == Slot(Null, Null, Pow2(k))
    && var q := Ptr(p.at - Pow2(k)); q in mem && (q != c ==> mem[q].next == mem[q].prev == Null)
  }

  /** What memory still tells of a payload that was freed and not handed out again. */
  ghost predicate Recalled(mem: Memory, h: Heap, p: Ptr) {
    p in h.free || p in h.loose || exists c, k: nat :: Absorbed(mem, h, p, c, k)
  }

  ghost predicate Recalls(mem: Memory, h: Heap, freed: set<Ptr>) {
    forall p :: p in freed ==> Recalled(mem, h, p)
  }

  // Nothing changes in memory away from the blocks' own headers.
  ghost predicate SameInside(mem: Memory, mem': Memory, blocks: Blocks) {
    forall x :: x in mem && x.Ptr? && x !in blocks ==> x in mem' && mem'[x] == mem[x]
  }

  // No block begins inside another one.
  lemma {:induction false} InsideIsNoBlock(blocks: Blocks, arenas: set<nat>, c: Ptr, x: Ptr)
    requires Tiling(blocks, arenas) && c in blocks && c.Ptr? && x.Ptr? && c.at < x.at < c.at + Pow2(blocks[c])
    ensures x !in blocks
  {
    if x in blocks { ApartAt(blocks, arenas, c, x); }
  }

  lemma {:induction false} StaysAbsorbed(mem: Memory, mem': Memory, h: Heap, h': Heap, p: Ptr, c: Ptr, k: nat)
    requires Tiling(h.blocks, h.arenas) && Absorbed(mem, h, p, c, k) && SameInside(mem, mem', h.blocks) && c in mem'
    requires c in h'.blocks && h'.blocks[c] == h.blocks[c] && (c in h'.free || c in h'.loose)
    ensures Absorbed(mem', h', p, c, k)
  {
    var q := AbsorbedInside(mem, h, p, c, k);
    Rehomed(mem, mem', h', p, c, k, q);
  }

  // Steps that leave the blocks and what is not live as they are.
  lemma {:induction false} SameBlocksRecall(mem: Memory, mem': Memory, front: Ptr, h: Heap, h': Heap, freed: set<Ptr>)
    requires State(mem, front, h) && Recalls(mem, h, freed) && SameInside(mem, mem', h.blocks)
    requires forall b :: b in h.free || b in h.loose ==>
               b in mem' && b in h'.blocks && h'.blocks[b] == h.blocks[b] && (b in h'.free || b in h'.loose)
    ensures Recalls(mem', h', freed)
  {
    forall p | p in freed ensures Recalled(mem', h', p) {
      if p !in h.free && p !in h.loose {
        var c, k: nat :| Absorbed(mem, h, p, c, k);
        StaysAbsorbed(mem, mem', h, h', p, c, k);
      }
    }
  }

  lemma {:induction false} RemoveRecalls(mem: Memory, front: Ptr, h: Heap, i: int, freed: set<Ptr>)
    requires State(mem, front, h) && 0 <= i < |h.free| && Recalls(mem, h, freed)
    ensures LinkedAt(mem, h.free, i) && (i > 0 ==> LinkedAt(mem, h.free, i - 1))
            && (i + 1 < |h.free| ==> LinkedAt(mem, h.free, i + 1))
    ensures Recalls(Unlinked(mem, h.free[i]), RemovedHeap(h, i), freed)
  {
    UnlinkKeepsList(mem, front, h.free, i);
    var mem', h' := Unlinked(mem, h.free[i]), RemovedHeap(h, i);
    forall b | b in h.free || b in h.loose ensures b in mem' && b in h'.blocks && (b in h'.free || b in h'.loose) {
      HeaderAt(mem, front, h, b);
      InWithout(h.free, i, b);
    }
    SameBlocksRecall(mem, mem', front, h, h', freed);
  }

  lemma {:induction false} PushRecalls(mem: Memory, front: Ptr, h: Heap, p: Ptr, freed: set<Ptr>)
    requires State(mem, front, h) && p in h.loose && Recalls(mem, h, freed) && p in mem
             && (front != Null ==> front in mem)
    ensures Recalls(Pushed(mem, front, p), h.(free := [p] + h.free, loose := h.loose - {p}), freed)
  {
    var mem', h' := Pushed(mem, front, p), h.(free := [p] + h.free, loose := h.loose - {p});
    forall b | b in h.free || b in h.loose ensures b in mem' && b in h'.blocks && (b in h'.free || b in h'.loose) {
      HeaderAt(mem, front, h, b);
    }
    SameBlocksRecall(mem, mem', front, h, h', freed);
  }

  lemma {:induction false} AddPageRecalls(mem: Memory, front: Ptr, h: Heap, v: nat, freed: set<Ptr>)
    requires State(mem, front, h) && FreshRegion(h.arenas, v) && Recalls(mem, h, freed)
    ensures Recalls(mem[Ptr(v) := Slot(Null, Null, 0x2000)],
                    h.(blocks := h.blocks[Ptr(v) := ARENA], arenas := h.arenas + {v}, loose := h.loose + {Ptr(v)}),
                        freed)
  {
    AddArenaKeepsTiling(h.blocks, h.arenas, v);
    var mem' := mem[Ptr(v) := Slot(Null, Null, 0x2000)];
    var h' := h.(blocks := h.blocks[Ptr(v) := ARENA], arenas := h.arenas + {v}, loose := h.loose + {Ptr(v)});
    forall p | p in freed ensures Recalled(mem', h', p) {
      if p !in h.free && p !in h.loose {
        var c, k: nat :| Absorbed(mem, h, p, c, k);
        ApartFromArena(h.blocks, h.arenas, c, v);
        assert Absorbed(mem', h', p, c, k);
      }
    }
  }

  // A header absorbed by a block that is halved is in one of the halves, or begins the upper one.
  lemma {:induction false} HalfAbsorbs(base: nat, j: nat, p: nat, k: nat)
    requires Aligned(base, j + 1) && Aligned(p, k) && !Aligned(p, k + 1) && k <= j
    requires base + Pow2(k) <= p < base + 2 * Pow2(j)
    ensures p < base + Pow2(j) ==> k < j
    ensures p > base + Pow2(j) ==> k < j && base + Pow2(j) + Pow2(k) <= p
  {
    SplitNumbers(base, j);
    if k == j {
      AlignedGap(base, p, j);
      if p > base + Pow2(j) { AlignedGap(base + Pow2(j), p, j); }
    } else if p > base + Pow2(j) {
      AlignedMono(base + Pow2(j), k, j);
      AlignedGap(base + Pow2(j), p, k);
    }
  }

  // Memory with the header of n written and links of blocks changed.
  ghost predicate SameBut(mem: Memory, mem': Memory, blocks: Blocks, n: Ptr) {
    forall x :: x in mem ==> x in mem' && (x.Ptr? && x !in blocks && x != n ==> mem'[x] == mem[x])
  }

  lemma {:induction false} SplitRecallsOne(mem: Memory, mem': Memory, front: Ptr, h: Heap, h': Heap, i: int, b: Ptr,
                                           n: Ptr, j: nat, p: Ptr, c: Ptr, k: nat)
    requires State(mem, front, h) && 0 <= i < |h.free| && h.free[i] == b && b in h.blocks && b.Ptr?
    requires SMALLEST <= j && h.blocks[b] == j + 1 && n == Ptr(b.at + Pow2(j)) && n !in h.blocks && n in mem'
    requires h' == SplitHeap(h, i) && (forall x :: x in h'.free <==> x in h.free || x == n)
    requires SameBut(mem, mem', h.blocks, n) && p != n && Absorbed(mem, h, p, c, k)
    ensures Recalled(mem', h', p)
  {
    if c == b {
      HalfAbsorbed(mem, mem', h, h', p, k, b, n, j);
    } else {
      HeaderAt(mem, front, h, c);
      SplitAway(mem, mem', h, h', p, c, k, b, n, j);
    }
  }

  lemma {:induction false} SplitRecalls(mem: Memory, front: Ptr, h: Heap, i: int, freed: set<Ptr>, b: Ptr, n: Ptr,
                                        j: nat)
    requires State(mem, front, h) && 0 <= i < |h.free| && h.free[i] == b && Recalls(mem, h, freed) && b in mem
    requires b in h.blocks && b.Ptr? && SMALLEST <= j && h.blocks[b] == j + 1 && n == Ptr(b.at + Pow2(j))
             && n !in h.blocks
    requires mem[b].next != Null ==> mem[b].next in mem
    ensures Recalls(SplitSlots(mem, b, n), SplitHeap(h, i), freed)
  {
    var mem', h' := SplitSlots(mem, b, n), SplitHeap(h, i);
    SplitKeepsList(mem, front, h.free, i, n);
    forall x ensures x in h'.free <==> x in h.free || x == n { InWithAfter(h.free, i, n, x); }
    forall p | p in freed ensures Recalled(mem', h', p) {
      if p !in h.free && p !in h.loose && p != n {
        var c, k: nat :| Absorbed(mem, h, p, c, k);
        SplitRecallsOne(mem, mem', front, h, h', i, b, n, j, p, c, k);
      }
    }
  }

  // The headers an absorbed one depends on are inside its block.
  lemma {:induction false} AbsorbedInside(mem: Memory, h: Heap, p: Ptr, c: Ptr, k: nat) returns (q: Ptr)
    requires Tiling(h.blocks, h.arenas) && Absorbed(mem, h, p, c, k)
    ensures q.Ptr? && q.at + Pow2(k) == p.at && c.at <= q.at < p.at < c.at + Pow2(h.blocks[c])
    ensures p !in h.blocks && q in mem && (q != c ==> q !in h.blocks && mem[q].next == mem[q].prev == Null)
  {
    q := Ptr(p.at - Pow2(k));
    InsideIsNoBlock(h.blocks, h.arenas, c, p);
    if q != c { InsideIsNoBlock(h.blocks, h.arenas, c, q); }
  }

  lemma {:induction false} HalfAbsorbed(mem: Memory, mem': Memory, h: Heap, h': Heap, p: Ptr, k: nat, b: Ptr, n: Ptr,
                                        j: nat)
    requires Tiling(h.blocks, h.arenas) && Absorbed(mem, h, p, b, k) && p != n && SameBut(mem, mem', h.blocks, n)
    requires h.blocks[b] == j + 1 && n == Ptr(b.at + Pow2(j)) && n in mem'
    requires b in h'.blocks && n in h'.blocks && h'.blocks[b] == h'.blocks[n] == j && b in h'.free && n in h'.free
    ensures Absorbed(mem', h', p, if p.at < n.at then b else n, k)
  {
    var q := AbsorbedInside(mem, h, p, b, k);
    GoodAt(h.blocks, h.arenas, b);
    assert Pow2(j + 1) == 2 * Pow2(j);
    HalfAbsorbs(b.at, j, p.at, k);
    Rehomed(mem, mem', h', p, if p.at < n.at then b else n, k, q);
  }

  lemma {:induction false} Rehomed(mem: Memory, mem': Memory, h': Heap, p: Ptr, d: Ptr, k: nat, q: Ptr)
    requires p.Ptr? && p in mem && mem[p] == Slot(Null, Null, Pow2(k)) && Aligned(p.at, k) && !Aligned(p.at, k + 1)
    requires p in mem' && mem'[p] == mem[p] && q in mem' && (q != d ==> mem'[q].next == mem'[q].prev == Null)
    requires d.Ptr? && d in h'.blocks && (d in h'.free || d in h'.loose) && k < h'.blocks[d]
    requires q.Ptr? && q.at + Pow2(k) == p.at && d.at <= q.at && p.at < d.at + Pow2(h'.blocks[d])
    ensures Absorbed(mem', h', p, d, k)
  {
  }

  // The upper half of a block is not in another.
  lemma {:induction false} HalfElsewhere(blocks: Blocks, arenas: set<nat>, b: Ptr, c: Ptr, j: nat)
    requires Tiling(blocks, arenas) && b in blocks && b.Ptr? && c in blocks && c.Ptr? && c != b && blocks[b] == j + 1
    ensures !(c.at <= b.at + Pow2(j) < c.at + Pow2(blocks[c]))
  {
    ApartAt(blocks, arenas, b, c);
    assert Pow2(j + 1) == 2 * Pow2(j);
  }

  lemma {:induction false} SplitAway(mem: Memory, mem': Memory, h: Heap, h': Heap, p: Ptr, c: Ptr, k: nat, b: Ptr,
                                     n: Ptr, j: nat)
    requires Tiling(h.blocks, h.arenas) && Absorbed(mem, h, p, c, k) && SameBut(mem, mem', h.blocks, n) && c in mem
    requires b in h.blocks && b.Ptr? && c != b && h.blocks[b] == j + 1 && n == Ptr(b.at + Pow2(j))
    requires c in h'.blocks && h'.blocks[c] == h.blocks[c] && (c in h'.free || c in h'.loose)
    ensures Absorbed(mem', h', p, c, k)
  {
    HalfElsewhere(h.blocks, h.arenas, b, c, j);
    var q := AbsorbedInside(mem, h, p, c, k);
    Rehomed(mem, mem', h', p, c, k, q);
  }

  lemma {:induction false} MergeRecalls(mem: Memory, front: Ptr, h: Heap, b: Ptr, c: Ptr, low: Ptr, high: Ptr,
                                        freed: set<Ptr>)
    requires State(mem, front, h) && AreBuddies(h.blocks, b, c) && b in h.loose && c in h.loose
             && Recalls(mem, h, freed)
    requires low == (if c.at < b.at then c else b) && high == (if c.at < b.at then b else c) && low in mem
    ensures Recalls(mem[low := mem[low].(size := mem[low].size * 2)], MergedHeap(h, b, c), freed)
  {
    var mem', h' := mem[low := mem[low].(size := mem[low].size * 2)], MergedHeap(h, b, c);
    MergeGood(h.blocks, h.arenas, b, c);
    HeaderAt(mem, front, h, high);
    HighAbsorbed(mem, front, h, b, c, low, high);
    forall p | p in freed ensures Recalled(mem', h', p) {
      if p != high && p !in h.free && p !in h.loose {
        var d, k: nat :| Absorbed(mem, h, p, d, k);
        MergeAbsorbs(mem, mem', h, h', p, d, k, low, high);
      } else if p in h.free {
        HeaderAt(mem, front, h, p);
      }
    }
  }

  lemma {:induction false} MergeAbsorbs(mem: Memory, mem': Memory, h: Heap, h': Heap, p: Ptr, d: Ptr, k: nat, low: Ptr,
                                        high: Ptr)
    requires Tiling(h.blocks, h.arenas) && Absorbed(mem, h, p, d, k)
    requires low in h.blocks && high in h.blocks && low.Ptr? && high.Ptr? && high.at == low.at + Pow2(h.blocks[low])
    requires h.blocks[low] == h.blocks[high] && Pow2(h.blocks[low] + 1) == 2 * Pow2(h.blocks[low])
    requires high in mem && mem[high].next == mem[high].prev == Null
    requires low in mem && mem' == mem[low := mem[low].(size := mem[low].size * 2)]
    requires low in h'.blocks && h'.blocks[low] == h.blocks[low] + 1 && low in h'.loose
    requires d != low && d != high ==> d in h'.blocks && h'.blocks[d] == h.blocks[d] && (d in h'.free || d in h'.loose)
    ensures Absorbed(mem', h', p, if d == high then low else d, k)
  {
    var q := AbsorbedInside(mem, h, p, d, k);
    Rehomed(mem, mem', h', p, if d == high then low else d, k, q);
  }

  // The upper of two merged buddies is absorbed by the lower one.
  lemma {:induction false} HighAbsorbed(mem: Memory, front: Ptr, h: Heap, b: Ptr, c: Ptr, low: Ptr, high: Ptr)
    requires State(mem, front, h) && AreBuddies(h.blocks, b, c) && b in h.loose && c in h.loose
    requires low == (if c.at < b.at then c else b) && high == (if c.at < b.at then b else c) && low in mem
    ensures Absorbed(mem[low := mem[low].(size := mem[low].size * 2)], MergedHeap(h, b, c), high, low, h.blocks[b])
  {
    MergeGood(h.blocks, h.arenas, b, c);
    HighAligned(h.blocks, h.arenas, b, c, low, high, h.blocks[b]);
    HeaderAt(mem, front, h, high);
    var mem', h' := mem[low := mem[low].(size := mem[low].size * 2)], MergedHeap(h, b, c);
    Rehomed(mem, mem', h', high, low, h.blocks[b], low);
  }

  lemma {:induction false} HighAligned(blocks: Blocks, arenas: set<nat>, b: Ptr, c: Ptr, low: Ptr, high: Ptr, k: nat)
    requires Tiling(blocks, arenas) && AreBuddies(blocks, b, c) && k == blocks[b]
    requires low == (if c.at < b.at then c else b) && high == (if c.at < b.at then b else c)
    ensures Aligned(high.at, k) && !Aligned(high.at, k + 1)
  {
    GoodAt(blocks, arenas, b);
    BuddyIsOtherHalf(b.at, k);
    AlignedStep(low.at, k);
  }

  /** Freed payloads are forgotten once the memory at their header is handed out. */
  ghost function Unclaimed(freed: set<Ptr>, blocks: Blocks, b: Ptr): set<Ptr>
    requires b in blocks && b.Ptr?
  {
    set p | p in freed && !(p.Ptr? && InBlock(blocks, b, p.at))
  }

  lemma {:induction false} TakeRecalls(mem: Memory, front: Ptr, h: Heap, b: Ptr, size: nat, freed: set<Ptr>)
    requires State(mem, front, h) && b in h.loose && b in h.blocks && b.Ptr? && Recalls(mem, h, freed)
    ensures Recalls(mem, h.(live := h.live[b := size], loose := h.loose - {b}), Unclaimed(freed, h.blocks, b))
  {
    var h' := h.(live := h.live[b := size], loose := h.loose - {b});
    forall p | p in Unclaimed(freed, h.blocks, b) ensures Recalled(mem, h', p) {
      if p !in h.free && p !in h.loose {
        var c, k: nat :| Absorbed(mem, h, p, c, k);
        assert c != b && Absorbed(mem, h', p, c, k);
      }
    }
  }

  // ----- Frees that are not caught -----

  /** No arrangement of blocks and free list accounts for the memory. */
  ghost predicate Corrupt(mem: Memory, front: Ptr) {
    forall h :: !State(mem, front, h)
  }

  // The buddy test finds nothing to merge for a payload freed before whose header shows no link.
  lemma {:induction false} MissedHasNoBuddy(mem: Memory, front: Ptr, h: Heap, p: Ptr)
    requires State(mem, front, h) && h.loose == {} && Recalled(mem, h, p)
    requires p in mem && mem[p].next == mem[p].prev == Null && mem[p].size < 0x2000
    ensures p.Ptr? && var q := Ptr(BuddyOf(p.at, mem[p].size));
            q in mem && ((mem[q].next == Null && mem[q].prev == Null) || mem[q].size != mem[p].size)
  {
    if p in h.free {
      SoleHasNoBuddy(mem, front, h, p);
    } else {
      var c, k: nat :| Absorbed(mem, h, p, c, k);
      BuddyIsOtherHalf(p.at, k);
      HeaderAt(mem, front, h, c);
      Pow2Order(k, h.blocks[c]);
    }
  }

  lemma {:induction false} SoleHasNoBuddy(mem: Memory, front: Ptr, h: Heap, p: Ptr)
    requires State(mem, front, h) && h.loose == {} && p in h.free
    requires p in mem && mem[p].next == mem[p].prev == Null && mem[p].size < 0x2000
    ensures p.Ptr? && var q := Ptr(BuddyOf(p.at, mem[p].size)); q in mem && mem[q].next == mem[q].prev == Null
  {
    HeaderAt(mem, front, h, p);
    GoodAt(h.blocks, h.arenas, p);
    assert Pow2(ARENA) == 0x2000;
    Pow2Order(h.blocks[p], ARENA);
    LinkedTellsFree(mem, front, h.free, p);
    BuddyIsBlock(h.blocks, h.arenas, p);
    HeaderAt(mem, front, h, Ptr(BuddyOf(p.at, mem[p].size)));
  }

  /** Freeing the only free block again makes the free list a loop. */
  lemma {:induction false} SoleFreeCorrupts(mem: Memory, front: Ptr, list: seq<Ptr>, p: Ptr)
    requires FreeList(mem, front, list) && list == [p]
    ensures p in mem && Corrupt(Pushed(mem, front, p), p)
  {
    assert LinkedAt(mem, list, 0);
    var mem' := Pushed(mem, front, p);
    forall h ensures !State(mem', p, h) {
      if State(mem', p, h) { NoSelfLink(mem', p, h.free); }
    }
  }

  lemma {:induction false} NoSelfLink(mem: Memory, front: Ptr, list: seq<Ptr>)
    requires FreeList(mem, front, list) && front in mem && front != Null
    ensures mem[front].next != front
  {
    assert LinkedAt(mem, list, 0);
  }

  // A memory and a front describe one list at most.
  lemma {:induction false} OneList(mem: Memory, front: Ptr, s: seq<Ptr>, t: seq<Ptr>, n: nat)
    requires FreeList(mem, front, s) && FreeList(mem, front, t) && n <= |s|
    ensures n <= |t| && s[..n] == t[..n]
  {
    if n > 0 {
      OneList(mem, front, s, t, n - 1);
      NthIsNull(mem, front, s, n - 1);
      NthIsNull(mem, front, t, n - 1);
      if n > 1 { assert LinkedAt(mem, s, n - 2) && LinkedAt(mem, t, n - 2)
                && s[n - 2] == s[..n - 1][n - 2] == t[n - 2]; }
      assert s[..n] == s[..n - 1] + [s[n - 1]] && t[..n] == t[..n - 1] + [t[n - 1]];
    }
  }

  /** Freeing a merged block again lists a block inside another free one. */
  lemma {:induction false} MergedFreeCorrupts(mem: Memory, front: Ptr, h: Heap, p: Ptr, c: Ptr, k: nat)
    requires State(mem, front, h) && h.loose == {} && Absorbed(mem, h, p, c, k)
    ensures (front != Null ==> front in mem) && Corrupt(Pushed(mem, front, p), p)
  {
    InsideIsNoBlock(h.blocks, h.arenas, c, p);
    HeaderAt(mem, front, h, c);
    PushKeepsList(mem, front, h.free, p);
    var mem' := Pushed(mem, front, p);
    forall g ensures !State(mem', p, g) {
      if State(mem', p, g) {
        var list := [p] + h.free;
        OneList(mem', p, list, g.free, |list|);
        assert c in list && p in list && list == g.free[..|list|];
        HeaderAt(mem', p, g, c);
        HeaderAt(mem', p, g, p);
        ApartAt(g.blocks, g.arenas, c, p);
      }
    }
  }

  /** The block below is the buddy of p, of the same size, and free. */
  ghost predicate LowerBuddyFree(h: Heap, p: Ptr) {
    exists c :: AreBuddies(h.blocks, p, c) && c in h.free && c.at < p.at
  }

  lemma {:induction false} RecalledAddress(mem: Memory, front: Ptr, h: Heap, p: Ptr)
    requires State(mem, front, h) && (p in h.live || Recalled(mem, h, p))
    ensures p in mem && p.Ptr? && (p !in h.free ==> mem[p].next == mem[p].prev == Null)
            && (p in h.live ==> p !in h.free)
  {
    if p in h.blocks {
      HeaderAt(mem, front, h, p);
      GoodAt(h.blocks, h.arenas, p);
    }
  }

  lemma {:induction false} DropRecalls(mem: Memory, front: Ptr, h: Heap, p: Ptr, freed: set<Ptr>)
    requires State(mem, front, h) && p in h.live && Recalls(mem, h, freed)
    ensures Recalls(mem, h.(live := h.live - {p}, loose := h.loose + {p}), freed + {p})
  {
    var h' := h.(live := h.live - {p}, loose := h.loose + {p});
    forall x | x in freed + {p} ensures Recalled(mem, h', x) {
      if x != p && x !in h.free && x !in h.loose {
        var c, k: nat :| Absorbed(mem, h, x, c, k);
        assert Absorbed(mem, h', x, c, k);
      }
    }
  }

  // The buddy of a block shows a link and the same size only if it is free to merge with.
  lemma {:induction false} BuddyShowsFree(mem: Memory, front: Ptr, h: Heap, p: Ptr, c: Ptr)
    requires State(mem, front, h) && p in h.loose && p in mem && mem[p].size < 0x2000
    requires p.Ptr? && c == Ptr(BuddyOf(p.at, mem[p].size))
    ensures c in mem
    ensures if (mem[c].next != Null || mem[c].prev != Null) && mem[c].size == mem[p].size
            then AreBuddies(h.blocks, p, c) && c in h.free else Coalesced(h.blocks, p, h.free)
  {
    HeaderAt(mem, front, h, p);
    assert Pow2(ARENA) == 0x2000;
    Pow2Order(h.blocks[p], ARENA);
    BuddyIsBlock(h.blocks, h.arenas, p);
    HeaderAt(mem, front, h, c);
    Pow2Order(h.blocks[p], h.blocks[c]);
    if c in h.free { LinkedTellsFree(mem, front, h.free, c); }
  }

  lemma {:induction false} MissedCorrupts(mem: Memory, front: Ptr, h: Heap, p: Ptr)
    requires State(mem, front, h) && h.loose == {} && Recalled(mem, h, p)
    requires p in mem && mem[p].next == mem[p].prev == Null
    ensures (front != Null ==> front in mem) && Corrupt(Pushed(mem, front, p), p)
  {
    if p in h.free {
      LinkedTellsFree(mem, front, h.free, p);
      assert h.free == [p];
      SoleFreeCorrupts(mem, front, h.free, p);
    } else {
      var c, k: nat :| Absorbed(mem, h, p, c, k);
      MergedFreeCorrupts(mem, front, h, p, c, k);
    }
  }

  // ----- What a client holds -----

  /** Bytes a block stands for: the block, and for a live one its header and payload. */
  ghost function Extent(h: Heap, b: Ptr): nat
    requires b in h.blocks
  {
    if b in h.live && h.live[b] + 24 > Pow2(h.blocks[b]) then h.live[b] + 24 else Pow2(h.blocks[b])
  }

  // A block of arena size is a whole arena.
  lemma {:induction false} WholeArena(blocks: Blocks, arenas: set<nat>, b: Ptr)
    requires Tiling(blocks, arenas) && b in blocks && blocks[b] == ARENA
    ensures b.Ptr? && b.at in arenas
  {
    GoodAt(blocks, arenas, b);
    assert Pow2(ARENA) == 0x2000;
    var a :| a in arenas && a <= b.at < a + 0x2000;
    if a < b.at { AlignedGap(a, b.at, ARENA); }
  }

  // A block other than a whole arena keeps clear of the region the arena was mapped with.
  lemma {:induction false} ClearOfRegion(h: Heap, b: Ptr, c: Ptr)
    requires Tiling(h.blocks, h.arenas) && RegionsApart(h.arenas)
    requires b in h.blocks && c in h.blocks && b != c && h.blocks[b] == ARENA
    ensures b.Ptr? && c.Ptr?
    ensures b.at + 0x4000 <= c.at
            || (c.at + Pow2(h.blocks[c]) <= b.at && (h.blocks[c] == ARENA ==> c.at + 0x4000 <= b.at))
  {
    WholeArena(h.blocks, h.arenas, b);
    ApartAt(h.blocks, h.arenas, b, c);
    assert Pow2(ARENA) == 0x2000;
    if h.blocks[c] == ARENA { WholeArena(h.blocks, h.arenas, c); }
    var a :| a in h.arenas && a <= c.at < a + 0x2000;
    BlockInArena(h.arenas, a, c.at, h.blocks[c]);
  }

  /** No two blocks share a byte, payloads that overhang their block included. */
  lemma {:induction false} ExtentsDisjoint(mem: Memory, front: Ptr, h: Heap, b: Ptr, c: Ptr)
    requires State(mem, front, h) && b in h.blocks && c in h.blocks && b != c
    ensures b.Ptr? && c.Ptr? && (b.at + Extent(h, b) <= c.at || c.at + Extent(h, c) <= b.at)
  {
    HeaderAt(mem, front, h, b);
    HeaderAt(mem, front, h, c);
    ApartAt(h.blocks, h.arenas, b, c);
    assert Pow2(ARENA) == 0x2000;
    if h.blocks[b] == ARENA { ClearOfRegion(h, b, c); }
    if h.blocks[c] == ARENA { ClearOfRegion(h, c, b); }
  }

  /** Live payloads overlap neither each other nor any block's header. */
  lemma {:induction false} PayloadsDisjoint(mem: Memory, front: Ptr, h: Heap, b: Ptr, x: int)
    requires State(mem, front, h) && b in h.live && b.Ptr? && b.at + 24 <= x < b.at + 24 + h.live[b]
    ensures forall c :: c in h.live && c != b ==> c.Ptr? && !(c.at + 24 <= x < c.at + 24 + h.live[c])
    ensures forall c :: c in h.blocks ==> c.Ptr? && !(c.at <= x < c.at + 24)
  {
    forall c | c in h.blocks && c != b
      ensures c.Ptr? && !(c.at <= x < c.at + 24) && (c in h.live ==> !(c.at + 24 <= x < c.at + 24 + h.live[c]))
    {
      ExtentsDisjoint(mem, front, h, b, c);
      HeaderAt(mem, front, h, c);
      GoodAt(h.blocks, h.arenas, c);
      Pow2Grows(SMALLEST, h.blocks[c]);
      assert Pow2(SMALLEST) == 32;
    }
  }

  /** The payload at ptr lies within the 0x4000 bytes mapped for an arena. */
  ghost predicate Mapped(h: Heap, ptr: nat, size: nat) {
    exists a :: a in h.arenas && a <= ptr && ptr + size <= a + 0x4000
  }

  /** Every live payload lies in memory the kernel mapped for the allocator. */
  lemma {:induction false} PayloadMapped(mem: Memory, front: Ptr, h: Heap, b: Ptr)
    requires State(mem, front, h) && b in h.live
    ensures b.Ptr? && Mapped(h, b.at + 24, h.live[b])
  {
    HeaderAt(mem, front, h, b);
    GoodAt(h.blocks, h.arenas, b);
    if h.blocks[b] == ARENA {
      WholeArena(h.blocks, h.arenas, b);
      assert Pow2(ARENA) == 0x2000;
      assert b.at + 24 + h.live[b] <= b.at + 0x4000;
    } else {
      var a :| a in h.arenas && a <= b.at < a + 0x2000;
      BlockInArena(h.arenas, a, b.at, h.blocks[b]);
    }
  }

  // What a client writes to its payload touches no header that matters.
  lemma {:induction false} WriteKeeps(mem: Memory, front: Ptr, h: Heap, b: Ptr, x: nat, s: Slot, freed: set<Ptr>)
    requires State(mem, front, h) && Recalls(mem, h, freed)
    requires b in h.live && b.Ptr? && b.at + 24 <= x < b.at + 24 + h.live[b]
    ensures State(mem[Ptr(x) := s], front, h) && Recalls(mem[Ptr(x) := s], h, freed)
  {
    var mem' := mem[Ptr(x) := s];
    PayloadsDisjoint(mem, front, h, b, x);
    forall c | c in h.blocks ensures Header(mem', h, c) { HeaderAt(mem, front, h, c); }
    forall i | 0 <= i < |h.free| ensures LinkedAt(mem', h.free, i) {
      assert LinkedAt(mem, h.free, i) && h.free[i] in h.free;
    }
    forall p | p in freed ensures Recalled(mem', h, p) {
      if p !in h.free && p !in h.loose {
        var c, k: nat :| Absorbed(mem, h, p, c, k);
        WriteElsewhere(mem, front, h, b, c, x);
        var q := AbsorbedInside(mem, h, p, c, k);
        Rehomed(mem, mem', h, p, c, k, q);
      }
    }
  }

  lemma {:induction false} WriteElsewhere(mem: Memory, front: Ptr, h: Heap, b: Ptr, c: Ptr, x: nat)
    requires State(mem, front, h) && b in h.live && b.Ptr? && b.at + 24 <= x < b.at + 24 + h.live[b]
    requires c in h.blocks && c.Ptr? && (c in h.free || c in h.loose)
    ensures !(c.at <= x < c.at + Pow2(h.blocks[c]))
  {
    HeaderAt(mem, front, h, b);
    HeaderAt(mem, front, h, c);
    ExtentsDisjoint(mem, front, h, b, c);
  }

  // ----- The code -----

  /** The smallest block size, from 32 bytes up, that holds a header and the payload. */
  method NeededSize(size: nat) returns (pow2: nat, ghost k: nat)
    ensures pow2 == Pow2(k) && k >= SMALLEST && size + 24 <= pow2
    ensures Snug(k, size)
  {
    var needed := size + 24;
    pow2, k := 32, SMALLEST;
    assert Pow2(SMALLEST) == 32;
    while pow2 < needed
      invariant pow2 == Pow2(k) && k >= SMALLEST && (k == SMALLEST || Pow2(k - 1) < needed)
      decreases needed - pow2
    {
      pow2 := pow2 * 2;
      k := k + 1;
    }
  }

  lemma {:induction false} SplitKeepsAll(mem: Memory, front: Ptr, h: Heap, i: int, freed: set<Ptr>)
    requires State(mem, front, h) && Recalls(mem, h, freed)
    requires 0 <= i < |h.free| && h.free[i] in mem && mem[h.free[i]].size > 32
    ensures var p := h.free[i];
            && p in h.blocks && p.Ptr? && h.blocks[p] > SMALLEST && (mem[p].next != Null ==> mem[p].next in mem)
            && var mem', h' := SplitSlots(mem, p, Ptr(BuddyOf(p.at, mem[p].size / 2))), SplitHeap(h, i);
               State(mem', front, h') && Recalls(mem', h', freed)
  {
    var p := h.free[i];
    SplitPossible(mem, front, h, i);
    SplitKeepsState(mem, front, h, i);
    SplitRecalls(mem, front, h, i, freed, p, Ptr(p.at + Pow2(h.blocks[p] - 1)), h.blocks[p] - 1);
  }

  class BuddyAllocator {
    var mem: Memory
    var front: Ptr
    ghost var h: Heap
    ghost var freed: set<Ptr> // Payloads freed whose header has not been handed out since.

    ghost predicate Intact()
      reads this
    {
      State(mem, front, h) && Recalls(mem, h, freed)
    }

    ghost predicate Valid()
      reads this
    {
      Intact() && h.loose == {}
    }

    constructor (v: nat)
      requires FreshRegion({}, v)
      ensures Valid() && h.live == map[] && h.free == [Ptr(v)] && h.arenas == {v} && freed == {}
    {
      mem := map[];
      front := Null;
      h, freed := Heap(map[], {}, [], map[], {}), {};
      new;
      AddPage(v);
    }

    /** Lists a fresh region as one free block of 0x2000 bytes. */
    method AddPage(v: nat)
      requires Intact() && FreshRegion(h.arenas, v)
      modifies this
      ensures Intact() && freed == old(freed) && front == Ptr(v) && Ptr(v) !in old(h.blocks)
      ensures h == old(h).(blocks := old(h.blocks)[Ptr(v) := ARENA], arenas := old(h.arenas) + {v},
                           free := [Ptr(v)] + old(h.free), loose := h.loose)
      ensures h.loose == old(h.loose) - {Ptr(v)}
    {
      AddPageKeepsState(mem, front, h, v);
      AddPageRecalls(mem, front, h, v, freed);
      mem := mem[Ptr(v) := Slot(Null, Null, 0x2000)];
      h := h.(blocks := h.blocks[Ptr(v) := ARENA], arenas := h.arenas + {v}, loose := h.loose + {Ptr(v)});
      PushKeepsState(mem, front, h, Ptr(v));
      PushRecalls(mem, front, h, Ptr(v), freed);
      mem := Pushed(mem, front, Ptr(v));
      front := Ptr(v);
      h := h.(free := [Ptr(v)] + h.free, loose := h.loose - {Ptr(v)});
    }

    method Remove(p: Ptr, ghost i: int)
      requires Intact() && 0 <= i < |h.free| && h.free[i] == p
      modifies this
      ensures Intact() && freed == old(freed) && h == RemovedHeap(old(h), i)
    {
      RemoveKeepsState(mem, front, h, i);
      RemoveRecalls(mem, front, h, i, freed);
      var next := mem[p].next;
      mem := Unlinked(mem, p);
      if front == p {
        front := next;
      }
      h := RemovedHeap(h, i);
    }

    method Split(p: Ptr, ghost i: int)
      requires Intact() && 0 <= i < |h.free| && h.free[i] == p && p in mem && mem[p].size > 32
      modifies this
      ensures Intact() && freed == old(freed)
      ensures old(p in h.blocks && p.Ptr? && h.blocks[p] > SMALLEST) && h == SplitHeap(old(h), i)
    {
      SplitKeepsAll(mem, front, h, i, freed);
      mem := SplitSlots(mem, p, Ptr(BuddyOf(p.at, mem[p].size / 2)));
      h := SplitHeap(h, i);
    }

    // Splitting, told in terms of the block.
    method Halve(p: Ptr, ghost i: int)
      requires Intact() && 0 <= i < |h.free| && h.free[i] == p && p in mem && mem[p].size > 32
      modifies this
      ensures Intact() && freed == old(freed) && i < |h.free| && h.free[i] == p && old(p in h.blocks) && p in h.blocks
      ensures h.blocks[p] + 1 == old(h.blocks[p]) && p in mem && mem[p].size == Pow2(h.blocks[p])
      ensures h.live == old(h.live) && h.arenas == old(h.arenas) && h.loose == old(h.loose)
    {
      Split(p, i);
      HeaderAt(mem, front, h, p);
    }

    /** A smallest free block that is large enough, Null if there is none. */
    method BestFit(needed: nat) returns (best: Ptr, ghost at: int)
      requires State(mem, front, h)
      ensures SmallestFit(mem, h.free, needed, best)
      ensures best != Null ==> 0 <= at < |h.free| && h.free[at] == best
    {
      best, at := Null, 0;
      var slot := front;
      ghost var i := 0;
      NthIsNull(mem, front, h.free, 0);
      while slot != Null
        invariant 0 <= i <= |h.free| && slot == Nth(h.free, i) && (slot == Null <==> i == |h.free|)
        invariant SmallestFit(mem, h.free[..i], needed, best)
        invariant best != Null ==> 0 <= at < i && h.free[at] == best
        decreases |h.free| - i
      {
        assert LinkedAt(mem, h.free, i);
        if mem[slot].size >= needed && (best == Null || mem[slot].size < mem[best].size) {
          best, at := slot, i;
        }
        slot := mem[slot].next;
        assert h.free[..i + 1] == h.free[..i] + [h.free[i]];
        i := i + 1;
        NthIsNull(mem, front, h.free, i);
      }
      assert h.free[..i] == h.free;
    }

    /** Halves the free block at i until it is no larger than needed. */
    method SplitDown(p: Ptr, needed: nat, ghost k: nat, ghost start: int)
      requires Intact() && 0 <= start < |h.free| && h.free[start] == p && p in h.blocks
      requires needed == Pow2(k) && SMALLEST <= k && (k <= h.blocks[p] || h.blocks[p] == ARENA)
      modifies this
      ensures Intact() && freed == old(freed) && 0 <= start < |h.free| && h.free[start] == p && p in h.blocks
      ensures h.blocks[p] == if k <= old(h.blocks[p]) then k else ARENA
      ensures h.live == old(h.live) && h.arenas == old(h.arenas) && h.loose == old(h.loose)
    {
      HeaderAt(mem, front, h, p);
      ghost var k0 := h.blocks[p];
      while mem[p].size > needed
        invariant Intact() && freed == old(freed) && start < |h.free| && h.free[start] == p
        invariant p in h.blocks && p in mem && mem[p].size == Pow2(h.blocks[p])
        invariant if k <= k0 then k <= h.blocks[p] <= k0 else h.blocks[p] == k0
        invariant h.live == old(h.live) && h.arenas == old(h.arenas) && h.loose == old(h.loose)
        decreases h.blocks[p]
      {
        Pow2Order(h.blocks[p], k);
        Pow2Order(SMALLEST, k);
        Halve(p, start);
      }
      Pow2Order(k, h.blocks[p]);
    }

    /** Adds an arena if nothing is free, and says where a further one would go. */
    method MakeNonEmpty(first: nat, second: nat) returns (region: nat)
      requires Intact() && FreshRegion(h.arenas, first) && FreshRegion(h.arenas + {first}, second)
      modifies this
      ensures Intact() && freed == old(freed) && FreshRegion(h.arenas, region)
      ensures h.live == old(h.live) && h.loose == old(h.loose)
      ensures if old(h.free) != [] then mem == old(mem) && h == old(h) && region == first
              else h.free == [Ptr(first)] && Ptr(first) in h.blocks && h.blocks[Ptr(first)] == ARENA
                   && h.arenas == old(h.arenas) + {first} && region == second
    {
      NthIsNull(mem, front, h.free, 0);
      region := first;
      if front == Null {
        AddPage(first);
        region := second;
      }
    }

    /** A smallest free block that is large enough, or a whole new arena. */
    method Choose(needed: nat, ghost k: nat, first: nat, second: nat) returns (best: Ptr, ghost i: int)
      requires Intact() && needed == Pow2(k)
      requires FreshRegion(h.arenas, first) && FreshRegion(h.arenas + {first}, second)
      modifies this
      ensures Intact() && freed == old(freed) && 0 <= i < |h.free| && h.free[i] == best && best in h.blocks
      ensures k <= h.blocks[best] || h.blocks[best] == ARENA
      ensures Chosen(old(mem), old(h), needed, first, second, best, h.arenas)
      ensures h.live == old(h.live) && h.loose == old(h.loose)
    {
      var region := MakeNonEmpty(first, second);
      best, i := BestFit(needed);
      if old(h.free) == [] { OnlyArena(mem, front, h, first, needed, best); }
      if best == Null {
        AddPage(region);
        best, i := front, 0;
      } else {
        HeaderAt(mem, front, h, best);
        Pow2Order(h.blocks[best], k);
      }
    }

    method Take(p: Ptr, ghost i: int, ghost size: nat)
      requires Intact() && 0 <= i < |h.free| && h.free[i] == p && p in h.blocks && Fits(h.blocks[p], size)
      modifies this
      ensures Intact() && p.Ptr? && p !in old(h.live) && h.live == old(h.live)[p := size]
      ensures h.blocks == old(h.blocks) && h.arenas == old(h.arenas) && h.loose == old(h.loose)
      ensures freed == Unclaimed(old(freed), h.blocks, p)
    {
      HeaderAt(mem, front, h, p);
      GoodAt(h.blocks, h.arenas, p);
      Remove(p, i);
      TakeKeepsState(mem, front, h, p, size);
      TakeRecalls(mem, front, h, p, size, freed);
      freed := Unclaimed(freed, h.blocks, p);
      h := h.(live := h.live[p := size], loose := h.loose - {p});
    }

    /**
     * A payload of the given size in a block no one holds, or nothing when it cannot fit four pages.
     * first and second are where the kernel maps the regions asked for, if any are.
     */
    method Allocate(size: nat, first: nat, second: nat) returns (r: Option<nat>)
      requires Valid() && FreshRegion(h.arenas, first) && FreshRegion(h.arenas + {first}, second)
      modifies this
      ensures Valid()
      ensures r == None <==> size > 0x4000 - 24
      ensures r == None ==> h == old(h) && freed == old(freed)
      ensures r.Some? ==> r.value >= 24 && Ptr(r.value - 24) !in old(h.live)
                          && h.live == old(h.live)[Ptr(r.value - 24) := size]
      ensures r.Some? ==> Served(old(h), size, first, second, Ptr(r.value - 24), h.arenas)
      ensures r.Some? ==> Ptr(r.value - 24) in h.blocks && Snug(h.blocks[Ptr(r.value - 24)], size)
      ensures r.Some? ==> freed == Unclaimed(old(freed), h.blocks, Ptr(r.value - 24))
      ensures r.Some? ==> Mapped(h, r.value, size)
    {
      if size > 0x4000 - 24 {
        return None;
      }
      var needed, k := NeededSize(size);
      var best, i := Choose(needed, k, first, second);
      ChosenServes(old(mem), old(front), old(h), size, k, first, second, best, h.arenas);
      SplitDown(best, needed, k, i);
      NeededFits(size, k, h.blocks[best]);
      Take(best, i, size);
      r := Some(best.at + 24);
      PayloadMapped(mem, front, h, best);
    }

    // A payload freed before whose header shows no link.
    ghost predicate Missed(p: Ptr)
      reads this
    {
      h.loose == {} && Recalled(mem, h, p) && p in mem && mem[p].next == mem[p].prev == Null
    }

    /** Whether a merge applies: the buddy is listed as free and has the same size. */
    method Mergeable(p: Ptr) returns (merge: bool, buddy: Ptr)
      requires State(mem, front, h) && (p in h.loose || Missed(p))
      ensures merge ==> p in h.loose && AreBuddies(h.blocks, p, buddy) && buddy in h.free
      ensures !merge && p in h.loose ==> Coalesced(h.blocks, p, h.free)
    {
      if p in h.loose {
        HeaderAt(mem, front, h, p);
        GoodAt(h.blocks, h.arenas, p);
      } else {
        RecalledAddress(mem, front, h, p);
      }
      assert Pow2(ARENA) == 0x2000;
      buddy := Ptr(BuddyOf(p.at, mem[p].size));
      merge := false;
      if mem[p].size < 0x2000 {
        if p in h.loose {
          BuddyShowsFree(mem, front, h, p, buddy);
        } else {
          MissedHasNoBuddy(mem, front, h, p);
        }
        merge := (mem[buddy].next != Null || mem[buddy].prev != Null) && mem[buddy].size == mem[p].size;
      } else if p in h.loose {
        Pow2Order(h.blocks[p], ARENA);
      }
    }

    /** Takes the free buddy off the list and joins the two into the block at the lower address. */
    method Merge(p: Ptr, buddy: Ptr) returns (low: Ptr)
      requires Intact() && h.loose == {p} && AreBuddies(h.blocks, p, buddy) && buddy in h.free
      modifies this
      ensures Intact() && freed == old(freed) && h.loose == {low} && low in h.blocks
      ensures h.blocks[low] == old(h.blocks[p]) + 1 && |h.free| < |old(h.free)|
      ensures low == (if buddy.at < p.at then buddy else p)
      ensures low.Ptr? && p.at + Pow2(old(h.blocks[p])) <= low.at + Pow2(h.blocks[low])
      ensures h.live == old(h.live) && h.arenas == old(h.arenas)
    {
      MergeGood(h.blocks, h.arenas, p, buddy);
      ghost var i :| 0 <= i < |h.free| && h.free[i] == buddy;
      Remove(buddy, i);
      low := p;
      if buddy.at < p.at {
        low := buddy;
      }
      MergeKeepsState(mem, front, h, p, buddy);
      MergeRecalls(mem, front, h, p, buddy, low, if buddy.at < p.at then p else buddy, freed);
      mem := mem[low := mem[low].(size := mem[low].size * 2)];
      h := MergedHeap(h, p, buddy);
    }

    /** Merges the block with its free buddies as long as there are any. */
    method Coalesce(p: Ptr) returns (slot: Ptr)
      requires Intact() && (h.loose == {p} || Missed(p))
      modifies this
      ensures Intact() && freed == old(freed) && h.live == old(h.live) && h.arenas == old(h.arenas)
      ensures |h.free| <= |old(h.free)|
      ensures old(h.loose == {}) ==> slot == p && mem == old(mem) && front == old(front) && h == old(h)
      ensures old(h.loose == {p}) ==> p.Ptr? && slot.Ptr? && slot in h.blocks && h.loose == {slot}
                                      && InBlock(h.blocks, slot, p.at) && Coalesced(h.blocks, slot, h.free)
      ensures old(h.loose == {p} && |h.free| > 1 && LowerBuddyFree(h, p)) ==> slot.at < p.at
    {
      slot := p;
      if p in h.loose { GoodAt(h.blocks, h.arenas, p); }
      var merge, buddy := Mergeable(slot);
      while merge
        invariant Intact() && freed == old(freed) && h.live == old(h.live) && h.arenas == old(h.arenas)
        invariant |h.free| <= |old(h.free)|
        invariant if old(h.loose == {}) then !merge && slot == p && mem == old(mem) && front == old(front)
                                             && h == old(h)
                  else h.loose == {slot} && p.Ptr? && slot.Ptr? && slot in h.blocks && h.blocks[slot] <= ARENA
                       && InBlock(h.blocks, slot, p.at)
        invariant merge ==> AreBuddies(h.blocks, slot, buddy) && buddy in h.free
        invariant !merge && old(h.loose == {p}) ==> Coalesced(h.blocks, slot, h.free)
        invariant old(h.loose == {p} && |h.free| > 1 && LowerBuddyFree(h, p)) ==>
                    slot.at < p.at || (slot == p && merge && buddy.at < p.at)
        decreases ARENA - if slot in h.blocks then h.blocks[slot] else 0
      {
        slot := Merge(slot, buddy);
        merge, buddy := Mergeable(slot);
      }
    }

    /**
     * Gives a payload back.  For one that was freed before and not handed out again, this is caught
     * exactly when its block is still on the free list and is not alone there.  A free that should
     * have been caught and is not leaves memory that no arrangement of blocks accounts for.
     */
    method Free(ptr: nat) returns (crashed: bool)
      requires Valid() && ptr >= 24 && (Ptr(ptr - 24) in h.live || Ptr(ptr - 24) in freed)
      modifies this
      ensures crashed <==> old(Ptr(ptr - 24) in h.free && |h.free| > 1)
      ensures crashed ==> mem == old(mem) && front == old(front) && h == old(h) && freed == old(freed)
      ensures crashed || old(Ptr(ptr - 24) in h.live) ==> Valid()
      ensures !crashed && old(Ptr(ptr - 24) !in h.live) ==> Corrupt(mem, front)
      ensures old(Ptr(ptr - 24) in h.live) ==>
                && h.live == old(h.live) - {Ptr(ptr - 24)} && freed == old(freed) + {Ptr(ptr - 24)}
                && h.arenas == old(h.arenas)
                && front in h.blocks && front.Ptr? && InBlock(h.blocks, front, ptr - 24)
                && h.free != [] && h.free[0] == front && |h.free| <= |old(h.free)| + 1
                && Coalesced(h.blocks, front, h.free[1..])
                && (old(|h.free| > 1 && LowerBuddyFree(h, Ptr(ptr - 24))) ==> front.at < ptr - 24)
    {
      var slot := Ptr(ptr - 24);
      RecalledAddress(mem, front, h, slot);
      if slot in h.free { LinkedTellsFree(mem, front, h.free, slot); }
      if mem[slot].next != Null || mem[slot].prev != Null {
        return true;
      }
      crashed := false;
      if slot in h.live {
        DropKeepsState(mem, front, h, slot);
        DropRecalls(mem, front, h, slot, freed);
        h, freed := h.(live := h.live - {slot}, loose := h.loose + {slot}), freed + {slot};
      }
      slot := Coalesce(slot);
      ghost var others := h.free;
      if h.loose == {} {
        MissedCorrupts(mem, front, h, slot);
      } else {
        PushKeepsState(mem, front, h, slot);
        PushRecalls(mem, front, h, slot, freed);
        h := h.(free := [slot] + h.free, loose := h.loose - {slot});
        assert h.free[1..] == others;
      }
      mem := Pushed(mem, front, slot);
      front := slot;
    }

    /** A client may write anything to its payload, headers of blocks that were there included. */
    method ClientWrite(ghost b: Ptr, x: nat, s: Slot)
      requires Valid() && b in h.live && b.Ptr? && b.at + 24 <= x < b.at + 24 + h.live[b]
      modifies this`mem
      ensures Valid()
    {
      WriteKeeps(mem, front, h, b, x, s, freed);
      mem := mem[Ptr(x) := s];
    }
  }

  /** With nothing else free, freeing a payload twice is never caught. */
  method FreeTwiceAlone(a: BuddyAllocator, ptr: nat) returns (caught: bool)
    requires a.Valid() && ptr >= 24 && Ptr(ptr - 24) in a.h.live && a.h.free == []
    modifies a
    ensures !caught && Corrupt(a.mem, a.front)
  {
    caught := a.Free(ptr);
    caught := a.Free(ptr);
  }

  /** However much else is free, freeing a payload twice that merged with its lower buddy is never caught. */
  method FreeTwiceMerged(a: BuddyAllocator, ptr: nat) returns (caught: bool)
    requires a.Valid() && ptr >= 24 && Ptr(ptr - 24) in a.h.live && |a.h.free| > 1 && LowerBuddyFree(a.h, Ptr(ptr - 24))
    modifies a
    ensures !caught && Corrupt(a.mem, a.front)
  {
    caught := a.Free(ptr);
    InsideIsNoBlock(a.h.blocks, a.h.arenas, a.front, Ptr(ptr - 24));
    caught := a.Free(ptr);
  }
}
