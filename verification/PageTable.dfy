/**
  The four-level page tables of zion/memory/paging_util.cpp.

  Physical memory is a map from page frames to their 512 words; the higher-half direct map
  through which the kernel reaches them is left out of the addresses.
 */
module PageTable {
  import opened Common
  import opened Bits

  datatype Frame = Frame(number: nat)

  type Memory = map<Frame, seq<nat>>

  const LEVELS: nat := 4

  // The arithmetic reading of the bits of a table entry and of an address.
  predicate Present(word: nat) { word % 2 == 1 }

  function Target(word: nat): Frame { Frame(word / 0x1000) }

  function PageAlign(address: nat): (r: nat) {
    address - address % 0x1000
  }

  function Divisor(level: nat): (d: nat)
    requires 1 <= level <= LEVELS
    ensures d > 0
  {
    if level == 1 then 0x1000 else if level == 2 then 0x20_0000 else if level == 3 then 0x4000_0000 else 0x80_0000_0000
  }

  function Index(address: nat, level: nat): (i: nat)
    requires 1 <= level <= LEVELS
    ensures i < 512
  {
    (address / Divisor(level)) % 512
  }

  function PageNumber(address: nat): nat { (address / 0x1000) % 0x10_0000_0000 }

  /** A virtual page, named by its index at each of the four levels. */
  datatype Page = Page(pml4: nat, pdp: nat, pd: nat, pt: nat) {
    predicate Proper() { pml4 < 512 && pdp < 512 && pd < 512 && pt < 512 }

    function At(level: nat): nat
      requires 1 <= level <= LEVELS
    {
      if level == 1 then pt else if level == 2 then pd else if level == 3 then pdp else pml4
    }
  }

  function PageOf(address: nat): (p: Page)
    ensures p.Proper()
  {
    Page(Index(address, 4), Index(address, 3), Index(address, 2), Index(address, 1))
  }

  /** What the hardware finds for a page, from a table of the given level down. */
  function Walk(mem: Memory, table: Frame, page: Page, level: nat): Option<Frame>
    requires 1 <= level <= LEVELS
    decreases level
  {
    if table !in mem || |mem[table]| != 512 || page.At(level) >= 512 then None
    else
      var word := mem[table][page.At(level)];
      if !Present(word) then None
      else if level == 1 then Some(Target(word))
      else Walk(mem, Target(word), page, level - 1)
  }

  // ----- The code's bit expressions -----

  lemma {:induction false} PresentBit(word: nat)
    ensures And(word, 1) == word % 2 && (And(word, 1) != 0 <==> Present(word))
  {
    AndLowMask(word, 1);
    assert Pow2(1) == 2;
  }

  lemma {:induction false} MaskedWord(word: nat)
    requires word < U64_LIMIT
    ensures And(word, 0xFFFF_FFFF_FFFF_F000) == PageAlign(word) == Target(word).number * 0x1000
  {
    MaskLow12(word, Pow2(64), Pow2(12));
  }

  lemma {:induction false} MaskLow12(word: nat, top: nat, low: nat)
    requires word < U64_LIMIT && top == Pow2(64) && low == Pow2(12)
    ensures And(word, 0xFFFF_FFFF_FFFF_F000) == PageAlign(word)
  {
    Pow2Values();
    AndFieldMask(word, 12, 64);
    SmallMod(word, top);
  }

  lemma {:induction false} EntryWord(frame: Frame, bits: nat)
    requires bits < 0x1000
    ensures Or(frame.number * 0x1000, bits) == frame.number * 0x1000 + bits
    ensures Target(Or(frame.number * 0x1000, bits)) == frame
  {
    Pow2Values();
    OrAligned(frame.number * 0x1000, bits, 12);
  }

  // ShiftForEntryIndexing: mask to 48 bits, shift down to the field, scale to bytes, mask.
  function EntryOffset(address: nat, shift: nat): nat {
    And(ShiftRight(And(address, Pow2(48) - 1), shift) * 8, 0xFF8)
  }

  lemma {:induction false} EntryOffsetIsIndex(address: nat, level: nat)
    requires 1 <= level <= LEVELS
    ensures EntryOffset(address, 12 + 9 * (level - 1)) == 8 * Index(address, level)
  {
    var shift, r := 12 + 9 * (level - 1), And(address, Pow2(48) - 1);
    MaskedField(address, level, 48);
    ByteMask(ShiftRight(r, shift));
  }

  lemma {:induction false} ByteMask(y: nat)
    ensures And(y * 8, 0xFF8) == 8 * (y % 512)
  {
    assert Pow2(3) == 8;
    Pow2Values();
    AndFieldMask(y * 8, 3, 12);
    EightTimes(y);
  }

  lemma {:induction false} MaskedField(address: nat, level: nat, bits: nat)
    requires 1 <= level <= LEVELS && bits == 48
    ensures ShiftRight(And(address, Pow2(bits) - 1), 12 + 9 * (level - 1)) % 512 == Index(address, level)
  {
    DivisorIsPower(level);
    NineBitField(address, 12 + 9 * (level - 1), 36 - 9 * level, bits, Divisor(level), 9);
  }

  lemma {:induction false} DivisorIsPower(level: nat)
    requires 1 <= level <= LEVELS
    ensures Divisor(level) == Pow2(12 + 9 * (level - 1)) && Pow2(9) == 512
  {
    Pow2Values();
  }

  // A field of nine bits, with some below it and the rest above.
  lemma {:induction false} NineBitField(address: nat, below: nat, above: nat, bits: nat, d: nat, nine: nat)
    requires bits == below + nine + above && Pow2(nine) == 512 && d == Pow2(below)
    ensures ShiftRight(And(address, Pow2(bits) - 1), below) % 512 == (address / d) % 512
  {
    Pow2Sum(nine, above);
    Pow2Sum(below, nine + above);
    MaskedFieldAt(address, below, bits, d, Pow2(above));
  }

  lemma {:induction false} MaskedFieldAt(address: nat, shift: nat, bits: nat, d: nat, c: nat)
    requires d == Pow2(shift) && c > 0 && d * (512 * c) == Pow2(bits)
    ensures ShiftRight(And(address, Pow2(bits) - 1), shift) % 512 == (address / d) % 512
  {
    AndLowMask(address, bits);
    ShiftRightDivides(address % Pow2(bits), shift);
    FieldOfMasked(address, d, 512 * c, c, Pow2(bits));
  }

  lemma {:induction false} FieldOfMasked(address: nat, d: nat, m: nat, c: nat, total: nat)
    requires d > 0 && c > 0 && m == 512 * c && total == d * m
    ensures total > 0 && ((address % total) / d) % 512 == (address / d) % 512
  {
    DivOfMod(address, d, m);
    ModMod512(address / d, c);
  }

  // The quotient of a remainder is the remainder of the quotient.
  lemma {:induction false} DivOfMod(a: nat, d: nat, m: nat)
    requires d > 0 && m > 0
    ensures d * m > 0 && (a % (d * m)) / d == (a / d) % m
  {
    DivModProduct(a, d, m);
    QuotientOf(d, a % d, (a / d) % m);
  }

  lemma {:induction false} ModMod512(x: nat, c: nat)
    requires c > 0
    ensures (x % (512 * c)) % 512 == x % 512
  {
    DivModProduct(x, 512, c);
    var q := (x / 512) % c;
    assert x % (512 * c) == x % 512 + 512 * q;
  }

  lemma {:induction false} EightTimes(y: nat)
    ensures (y * 8) % 0x1000 - (y * 8) % 8 == 8 * (y % 512)
  {
    DivModProduct(y * 8, 8, 512);
  }

  lemma {:induction false} QuotientOf(d: nat, r: nat, q: nat)
    requires r < d
    ensures (r + d * q) / d == q
  {
    DivModUnique(r + d * q, d, q, r);
  }

  lemma {:induction false} SameDigit(d: nat, rest: nat, e: nat, other: nat)
    requires d < 512 && e < 512
    ensures d + 512 * rest == e + 512 * other <==> d == e && rest == other
  {
  }

  /** Two addresses name the same page exactly when their bits 12 to 47 agree. */
  lemma {:induction false} PageIsBits12To47(v: nat, w: nat)
    ensures PageOf(v) == PageOf(w) <==> PageNumber(v) == PageNumber(w)
  {
    Digits(v);
    Digits(w);
    var v3, w3 := Index(v, 3) + 512 * Index(v, 4), Index(w, 3) + 512 * Index(w, 4);
    SameDigit(Index(v, 3), Index(v, 4), Index(w, 3), Index(w, 4));
    var v2, w2 := Index(v, 2) + 512 * v3, Index(w, 2) + 512 * w3;
    SameDigit(Index(v, 2), v3, Index(w, 2), w3);
    SameDigit(Index(v, 1), v2, Index(w, 1), w2);
  }

  // The indices are the digits of the page number in base 512.
  lemma {:induction false} IndexChain(v: nat)
    ensures var x := v / 0x1000;
            && Index(v, 1) == x % 512 && Index(v, 2) == x / 512 % 512
            && Index(v, 3) == x / 512 / 512 % 512 && Index(v, 4) == x / 512 / 512 / 512 % 512
  {
    var x := v / 0x1000;
    DivModProduct(v, 0x1000, 512);
    DivModProduct(v, 0x1000, 0x4_0000);
    DivModProduct(v, 0x1000, 0x800_0000);
    DivModProduct(x, 512, 512);
    DivModProduct(x, 512, 0x4_0000);
    DivModProduct(x / 512, 512, 512);
  }

  lemma {:induction false} Digits(v: nat)
    ensures PageNumber(v) == Index(v, 1) + 512 * (Index(v, 2) + 512 * (Index(v, 3) + 512 * Index(v, 4)))
  {
    var x := v / 0x1000;
    IndexChain(v);
    DivModProduct(x, 512, 0x800_0000);
    DivModProduct(x / 512, 512, 0x4_0000);
    DivModProduct(x / 512 / 512, 512, 512);
  }

  lemma {:induction false} SmallPow2Values()
    ensures Pow2(9) == 512 && Pow2(12) == 0x1000 && Pow2(21) == 0x20_0000 && Pow2(30) == 0x4000_0000
  {
    Pow2Sum(9, 3); Pow2Sum(12, 9); Pow2Sum(21, 9);
  }

  lemma {:induction false} Pow2Values()
    ensures Pow2(9) == 512 && Pow2(12) == 0x1000 && Pow2(21) == 0x20_0000 && Pow2(30) == 0x4000_0000
    ensures Pow2(36) == 0x10_0000_0000 && Pow2(39) == 0x80_0000_0000 && Pow2(48) == 0x1_0000_0000_0000
            && Pow2(64) == U64_LIMIT
  {
    SmallPow2Values();
    Pow2Sum(30, 6); Pow2Sum(36, 3); Pow2Sum(39, 9); Pow2Sum(48, 16);
  }

  lemma {:induction false} Pow2Sum(a: nat, b: nat)
    ensures Pow2(a + b) == Pow2(a) * Pow2(b)
  {
    if b != 0 {
      Pow2Sum(a, b - 1);
    }
  }

  /** Physical memory after one word of one page is stored. */
  function Write(mem: Memory, t: Frame, i: nat, word: nat): Memory
    requires t in mem && i < |mem[t]|
  {
    var page: seq<nat> := mem[t][i := word];
    mem[t := page]
  }

  // ----- Tables forming a tree -----

  datatype Slot = Slot(table: Frame, index: nat)

  // The level of each table and the one entry that points to it.
  datatype Shape = Shape(level: map<Frame, int>, up: map<Frame, Slot>)

  ghost predicate IsTable(mem: Memory, sh: Shape, t: Frame) {
    t in sh.level && 1 <= sh.level[t] <= LEVELS && t in mem && |mem[t]| == 512
  }

  ghost predicate PointsDown(mem: Memory, sh: Shape, t: Frame, i: nat)
    requires IsTable(mem, sh, t) && i < 512
  {
    Present(mem[t][i]) && sh.level[t] > 1 ==>
      var c := Target(mem[t][i]);
      c in sh.level && sh.level[c] == sh.level[t] - 1 && c in sh.up && sh.up[c] == Slot(t, i)
  }

  ghost predicate Tables(mem: Memory, root: Frame, sh: Shape) {
    && root in sh.level && sh.level[root] == LEVELS
    && (forall t {:trigger IsTable(mem, sh, t)} :: t in sh.level ==> IsTable(mem, sh, t))
    && (forall t, i: nat {:trigger PointsDown(mem, sh, t, i)} :: t in sh.level && i < 512 ==>
                                                                   IsTable(mem, sh, t) && PointsDown(mem, sh, t, i))
  }

  // The level-1 table a page leads to.
  ghost function Leaf(mem: Memory, table: Frame, page: Page, level: nat): Option<Frame>
    requires 1 <= level <= LEVELS && page.Proper()
  {
    TableAt(mem, table, page, level, 1)
  }

  // The table of level k that a page leads to.
  ghost function TableAt(mem: Memory, table: Frame, page: Page, level: nat, k: nat): Option<Frame>
    requires 1 <= k <= level <= LEVELS && page.Proper()
    decreases level
  {
    if level == k then Some(table)
    else if table !in mem || |mem[table]| != 512 || !Present(mem[table][page.At(level)]) then None
    else TableAt(mem, Target(mem[table][page.At(level)]), page, level - 1, k)
  }

  // Pages that share a table share every index above it.
  lemma {:induction false} TableDeterminesPath(mem: Memory, root: Frame, sh: Shape, t: Frame, u: Frame, p: Page,
                                               q: Page, level: nat, k: nat)
    requires Tables(mem, root, sh) && 1 <= k <= level <= LEVELS && p.Proper() && q.Proper()
    requires t in sh.level && u in sh.level && sh.level[t] == sh.level[u] == level
    requires TableAt(mem, t, p, level, k) == TableAt(mem, u, q, level, k) && TableAt(mem, t, p, level, k).Some?
    ensures t == u && forall l :: k < l <= level ==> p.At(l) == q.At(l)
    decreases level
  {
    if level > k {
      var i, j := p.At(level), q.At(level);
      assert IsTable(mem, sh, t) && PointsDown(mem, sh, t, i);
      assert IsTable(mem, sh, u) && PointsDown(mem, sh, u, j);
      TableDeterminesPath(mem, root, sh, Target(mem[t][i]), Target(mem[u][j]), p, q, level - 1, k);
    }
  }

  lemma {:induction false} TableAtLevel(mem: Memory, root: Frame, sh: Shape, u: Frame, t: Frame, p: Page, level: nat,
                                        k: nat)
    requires Tables(mem, root, sh) && 1 <= k <= level <= LEVELS && p.Proper() && u in sh.level && sh.level[u] == level
    requires TableAt(mem, u, p, level, k) == Some(t)
    ensures IsTable(mem, sh, t) && sh.level[t] == k
    decreases level
  {
    assert IsTable(mem, sh, u) && PointsDown(mem, sh, u, p.At(level));
    if level > k { TableAtLevel(mem, root, sh, Target(mem[u][p.At(level)]), t, p, level - 1, k); }
  }

  // The table below the one reached.
  lemma {:induction false} NextReached(mem: Memory, root: Frame, sh: Shape, u: Frame, t: Frame, p: Page, level: nat,
                                       k: nat)
    requires Tables(mem, root, sh) && 1 < k <= level <= LEVELS && p.Proper() && u in sh.level && sh.level[u] == level
    requires TableAt(mem, u, p, level, k) == Some(t) && IsTable(mem, sh, t) && Present(mem[t][p.At(k)])
    ensures TableAt(mem, u, p, level, k - 1) == Some(Target(mem[t][p.At(k)]))
    decreases level
  {
    assert IsTable(mem, sh, u) && PointsDown(mem, sh, u, p.At(level));
    if level > k { NextReached(mem, root, sh, Target(mem[u][p.At(level)]), t, p, level - 1, k); }
  }

  // Writing a level-1 entry changes the walks that use it and no others.
  lemma {:induction false} LeafWriteWalk(mem: Memory, root: Frame, sh: Shape, pt: Frame, i: nat, word: nat, t: Frame,
                                         q: Page, level: nat)
    requires Tables(mem, root, sh) && 1 <= level <= LEVELS && i < 512 && q.Proper()
    requires sh.level.Keys >= {pt} && sh.level[pt] == 1 && IsTable(mem, sh, pt) && t in sh.level && sh.level[t] == level
    ensures Walk(Write(mem, pt, i, word), t, q, level) ==
            if Leaf(mem, t, q, level) == Some(pt) && q.pt == i
            then (if Present(word) then Some(Target(word)) else None) else Walk(mem, t, q, level)
    decreases level
  {
    assert IsTable(mem, sh, t) && PointsDown(mem, sh, t, q.At(level));
    if level > 1 && Present(mem[t][q.At(level)]) {
      LeafWriteWalk(mem, root, sh, pt, i, word, Target(mem[t][q.At(level)]), q, level - 1);
    }
  }

  lemma {:induction false} LeafWriteKeepsTables(mem: Memory, root: Frame, sh: Shape, pt: Frame, i: nat, word: nat)
    requires Tables(mem, root, sh) && IsTable(mem, sh, pt) && sh.level[pt] == 1 && i < 512
    ensures Tables(Write(mem, pt, i, word), root, sh)
  {
    var mem' := Write(mem, pt, i, word);
    forall t | t in sh.level ensures IsTable(mem', sh, t) { assert IsTable(mem, sh, t); }
    forall t, j: nat | t in sh.level && j < 512 ensures IsTable(mem', sh, t) && PointsDown(mem', sh, t, j) {
      assert IsTable(mem', sh, t) && IsTable(mem, sh, t) && PointsDown(mem, sh, t, j);
    }
  }

  /** Writing the level-1 entry of a page changes that page and no other. */
  lemma {:induction false} LeafWriteIsPageWrite(mem: Memory, root: Frame, sh: Shape, pt: Frame, p: Page, word: nat,
                                                q: Page)
    requires Tables(mem, root, sh) && p.Proper() && q.Proper() && Leaf(mem, root, p, LEVELS) == Some(pt)
    requires IsTable(mem, sh, pt) && sh.level[pt] == 1
    ensures Walk(Write(mem, pt, p.pt, word), root, q, LEVELS) ==
            if q != p then Walk(mem, root, q, LEVELS) else if Present(word) then Some(Target(word)) else None
  {
    LeafWriteWalk(mem, root, sh, pt, p.pt, word, root, q, LEVELS);
    if Leaf(mem, root, q, LEVELS) == Some(pt) && q.pt == p.pt {
      TableDeterminesPath(mem, root, sh, root, root, p, q, LEVELS, 1);
      assert p.At(4) == q.At(4) && p.At(3) == q.At(3) && p.At(2) == q.At(2);
    }
  }

  lemma {:induction false} LeafWrite(mem: Memory, root: Frame, sh: Shape, pt: Frame, p: Page, word: nat)
    requires Tables(mem, root, sh) && p.Proper() && Leaf(mem, root, p, LEVELS) == Some(pt)
    requires IsTable(mem, sh, pt) && sh.level[pt] == 1
    ensures Tables(Write(mem, pt, p.pt, word), root, sh)
    ensures forall q: Page | q.Proper() ::
              Walk(Write(mem, pt, p.pt, word), root, q, LEVELS) ==
              if q != p then Walk(mem, root, q, LEVELS) else if Present(word) then Some(Target(word)) else None
  {
    LeafWriteKeepsTables(mem, root, sh, pt, p.pt, word);
    forall q: Page | q.Proper()
      ensures Walk(Write(mem, pt, p.pt, word), root, q, LEVELS) ==
              if q != p then Walk(mem, root, q, LEVELS) else if Present(word) then Some(Target(word)) else None
    {
      LeafWriteIsPageWrite(mem, root, sh, pt, p, word, q);
    }
  }

  function ZeroPage(): (p: seq<nat>)
    ensures |p| == 512 && forall i :: 0 <= i < 512 ==> p[i] == 0
  {
    seq(512, i => 0)
  }

  // Hanging a zeroed page below an absent entry.
  function Install(mem: Memory, t: Frame, i: nat, page: Frame, word: nat): Memory
    requires t in mem && i < |mem[t]| && page != t
  {
    Write(mem[page := ZeroPage()], t, i, word)
  }

  function Installed(sh: Shape, t: Frame, i: nat, page: Frame): Shape
    requires t in sh.level
  {
    Shape(sh.level[page := sh.level[t] - 1], sh.up[page := Slot(t, i)])
  }

  ghost predicate CanInstall(mem: Memory, root: Frame, sh: Shape, t: Frame, i: nat, page: Frame, word: nat) {
    && Tables(mem, root, sh) && IsTable(mem, sh, t) && sh.level[t] > 1 && i < 512
    && !Present(mem[t][i]) && page !in sh.level && Present(word) && Target(word) == page
  }

  lemma {:induction false} InstallKeepsTables(mem: Memory, root: Frame, sh: Shape, t: Frame, i: nat, page: Frame,
                                              word: nat)
    requires CanInstall(mem, root, sh, t, i, page, word)
    ensures Tables(Install(mem, t, i, page, word), root, Installed(sh, t, i, page))
  {
    var mem', sh' := Install(mem, t, i, page, word), Installed(sh, t, i, page);
    forall u | u in sh'.level ensures IsTable(mem', sh', u) {
      if u != page { assert IsTable(mem, sh, u); }
    }
    forall u, j: nat | u in sh'.level && j < 512 ensures IsTable(mem', sh', u) && PointsDown(mem', sh', u, j) {
      assert IsTable(mem', sh', u);
      if u != page { assert IsTable(mem, sh, u) && PointsDown(mem, sh, u, j); }
    }
  }

  // An empty table below an entry that was absent translates nothing new.
  lemma {:induction false} InstallKeepsWalk(mem: Memory, root: Frame, sh: Shape, t: Frame, i: nat, page: Frame,
                                            word: nat, u: Frame, q: Page, level: nat)
    requires CanInstall(mem, root, sh, t, i, page, word) && 1 <= level <= LEVELS && q.Proper()
    requires u in sh.level && sh.level[u] == level
    ensures Walk(Install(mem, t, i, page, word), u, q, level) == Walk(mem, u, q, level)
    decreases level
  {
    var j := q.At(level);
    assert IsTable(mem, sh, u) && PointsDown(mem, sh, u, j);
    if level > 1 && Present(mem[u][j]) {
      InstallKeepsWalk(mem, root, sh, t, i, page, word, Target(mem[u][j]), q, level - 1);
    }
  }

  lemma {:induction false} InstallReaches(mem: Memory, root: Frame, sh: Shape, t: Frame, page: Frame, word: nat,
                                          u: Frame, p: Page, level: nat, k: nat)
    requires p.Proper() && 1 < k <= level <= LEVELS && CanInstall(mem, root, sh, t, p.At(k), page, word)
    requires u in sh.level && sh.level[u] == level && sh.level[t] == k && TableAt(mem, u, p, level, k) == Some(t)
    ensures TableAt(Install(mem, t, p.At(k), page, word), u, p, level, k - 1) == Some(page)
    decreases level
  {
    assert IsTable(mem, sh, u) && PointsDown(mem, sh, u, p.At(level));
    if level > k { InstallReaches(mem, root, sh, t, page, word, Target(mem[u][p.At(level)]), p, level - 1, k); }
  }

  // With its level-1 table at hand, the walk of a page is that table's entry.
  lemma {:induction false} LeafEntryIsWalk(mem: Memory, root: Frame, sh: Shape, t: Frame, pt: Frame, p: Page,
                                           level: nat)
    requires Tables(mem, root, sh) && 1 <= level <= LEVELS && t in sh.level && sh.level[t] == level && p.Proper()
    requires Leaf(mem, t, p, level) == Some(pt)
    ensures IsTable(mem, sh, pt) && sh.level[pt] == 1
    ensures Walk(mem, t, p, level) == if Present(mem[pt][p.pt]) then Some(Target(mem[pt][p.pt])) else None
    decreases level
  {
    assert IsTable(mem, sh, t) && PointsDown(mem, sh, t, p.At(level));
    if level > 1 {
      LeafEntryIsWalk(mem, root, sh, Target(mem[t][p.At(level)]), pt, p, level - 1);
    }
  }

  lemma {:induction false} WalkStep(mem: Memory, root: Frame, sh: Shape, t: Frame, p: Page)
    requires Tables(mem, root, sh) && t in sh.level && 2 <= sh.level[t] <= LEVELS && p.Proper()
    ensures IsTable(mem, sh, t)
    ensures var level := sh.level[t];
            var e := mem[t][p.At(level)];
            if Present(e)
            then IsTable(mem, sh, Target(e)) && sh.level[Target(e)] == level - 1
                 && Walk(mem, t, p, level) == Walk(mem, Target(e), p, level - 1)
                 && Leaf(mem, t, p, level) == Leaf(mem, Target(e), p, level - 1)
            else Walk(mem, t, p, level) == None
  {
    assert IsTable(mem, sh, t) && PointsDown(mem, sh, t, p.At(sh.level[t]));
    var e := mem[t][p.At(sh.level[t])];
    if Present(e) { assert IsTable(mem, sh, Target(e)); }
  }

  // How many tables a page still lacks below a table of the given level.
  ghost function Missing(mem: Memory, table: Frame, page: Page, level: nat): (n: nat)
    requires 1 <= level <= LEVELS && page.Proper()
    ensures n < level
    decreases level
  {
    if level == 1 then 0
    else if table !in mem || |mem[table]| != 512 || !Present(mem[table][page.At(level)]) then level - 1
    else Missing(mem, Target(mem[table][page.At(level)]), page, level - 1)
  }

  // ----- Access rights -----

  datatype Access = Access(write: bool, user: bool)

  /** What an entry allows: writing by bit 1, user mode by bit 2. */
  function AccessOf(word: nat): Access { Access((word / 2) % 2 == 1, (word / 4) % 2 == 1) }

  /** The entries present on the way to a page, from the top down. */
  ghost function Path(mem: Memory, table: Frame, page: Page, level: nat): (words: seq<nat>)
    requires 1 <= level <= LEVELS && page.Proper()
    ensures |words| <= level
    decreases level
  {
    if table !in mem || |mem[table]| != 512 || !Present(mem[table][page.At(level)]) then []
    else
      var word := mem[table][page.At(level)];
      [word] + if level == 1 then [] else Path(mem, Target(word), page, level - 1)
  }

  /** What all entries on the way allow. */
  ghost function Rights(path: seq<nat>): Access {
    Access(forall i :: 0 <= i < |path| ==> AccessOf(path[i]).write,
           forall i :: 0 <= i < |path| ==> AccessOf(path[i]).user)
  }

  // Entries added to a way, all with the same access.
  ghost predicate Extends(path: seq<nat>, path': seq<nat>, a: Access) {
    path <= path' && forall i :: |path| <= i < |path'| ==> AccessOf(path'[i]) == a
  }

  /** Each entry allows writing and, in the lower half of memory and only there, user mode. */
  ghost predicate Marked(path: seq<nat>, page: Page) {
    forall i :: 0 <= i < |path| ==> AccessOf(path[i]) == Access(true, page.pml4 < 256)
  }

  ghost predicate GuardedAt(mem: Memory, root: Frame, q: Page) {
    q.Proper() ==> Marked(Path(mem, root, q, LEVELS), q)
  }

  ghost predicate Guarded(mem: Memory, root: Frame) {
    forall q: Page {:trigger GuardedAt(mem, root, q)} :: GuardedAt(mem, root, q)
  }

  lemma {:induction false} PathIsWalk(mem: Memory, t: Frame, q: Page, level: nat)
    requires 1 <= level <= LEVELS && q.Proper()
    ensures Walk(mem, t, q, level).Some? <==> |Path(mem, t, q, level)| == level
    decreases level
  {
    if t in mem && |mem[t]| == 512 && Present(mem[t][q.At(level)]) && level > 1 {
      PathIsWalk(mem, Target(mem[t][q.At(level)]), q, level - 1);
    }
  }

  /** Tables with nothing in them are guarded. */
  lemma {:induction false} EmptyGuarded(mem: Memory, root: Frame)
    requires root in mem && forall i: nat :: i < |mem[root]| ==> !Present(mem[root][i])
    ensures Guarded(mem, root)
  {
    forall q: Page ensures GuardedAt(mem, root, q) {
      if q.Proper() { assert Path(mem, root, q, LEVELS) == []; }
    }
  }

  /** In guarded tables every page mapped is writable, and open to user mode exactly in the lower half. */
  lemma {:induction false} GuardedRights(mem: Memory, root: Frame, q: Page)
    requires Guarded(mem, root) && q.Proper() && Walk(mem, root, q, LEVELS).Some?
    ensures Rights(Path(mem, root, q, LEVELS)) == Access(true, q.pml4 < 256)
  {
    var path := Path(mem, root, q, LEVELS);
    PathIsWalk(mem, root, q, LEVELS);
    assert GuardedAt(mem, root, q) && AccessOf(path[0]) == Access(true, q.pml4 < 256);
  }

  // Writing a level-1 entry changes the end of the ways that use it and no others.
  lemma {:induction false} LeafWritePath(mem: Memory, root: Frame, sh: Shape, pt: Frame, i: nat, word: nat, t: Frame,
                                         q: Page, level: nat)
    requires Tables(mem, root, sh) && 1 <= level <= LEVELS && i < 512 && q.Proper()
    requires IsTable(mem, sh, pt) && sh.level[pt] == 1 && t in sh.level && sh.level[t] == level
    ensures var path := Path(mem, t, q, level);
            if Leaf(mem, t, q, level) == Some(pt) && q.pt == i
            then |path| >= level - 1
                 && Path(Write(mem, pt, i, word), t, q, level) == path[..level - 1] + if Present(word) then [word]
                 else []
            else Path(Write(mem, pt, i, word), t, q, level) == path
    decreases level
  {
    assert IsTable(mem, sh, t) && PointsDown(mem, sh, t, q.At(level));
    if level > 1 {
      var e := mem[t][q.At(level)];
      if Present(e) {
        LeafWritePath(mem, root, sh, pt, i, word, Target(e), q, level - 1);
        var rest := Path(mem, Target(e), q, level - 1);
        if |rest| >= level - 2 { PrefixOfCons(e, rest, level - 1); }
      }
    }
  }

  lemma {:induction false} PrefixOfCons(e: nat, path: seq<nat>, n: nat)
    requires 1 <= n <= |path| + 1
    ensures ([e] + path)[..n] == [e] + path[..n - 1]
  {
  }

  // A table below an entry that was absent makes the ways that end there one longer.
  lemma {:induction false} InstallPath(mem: Memory, root: Frame, sh: Shape, t: Frame, i: nat, page: Frame, word: nat,
                                       u: Frame, q: Page, level: nat)
    requires CanInstall(mem, root, sh, t, i, page, word) && 1 <= level <= LEVELS && q.Proper()
    requires u in sh.level && sh.level[u] == level
    ensures var k := sh.level[t];
            Path(Install(mem, t, i, page, word), u, q, level) ==
            Path(mem, u, q, level)
            + if k <= level && TableAt(mem, u, q, level, k) == Some(t) && q.At(k) == i then [word] else []
    decreases level
  {
    var j := q.At(level);
    assert IsTable(mem, sh, u) && PointsDown(mem, sh, u, j);
    if level > 1 && Present(mem[u][j]) {
      InstallPath(mem, root, sh, t, i, page, word, Target(mem[u][j]), q, level - 1);
    }
  }

  // The way to a page stays or gets longer; it stays for pages under other top-level entries.
  ghost predicate GrewAt(mem: Memory, mem': Memory, root: Frame, top: nat, a: Access, q: Page)
    requires q.Proper()
  {
    && Extends(Path(mem, root, q, LEVELS), Path(mem', root, q, LEVELS), a)
    && (Path(mem', root, q, LEVELS) != Path(mem, root, q, LEVELS) ==> q.pml4 == top)
  }

  ghost predicate Grew(mem: Memory, mem': Memory, root: Frame, top: nat, a: Access) {
    forall q: Page {:trigger GrewAt(mem, mem', root, top, a, q)} :: q.Proper() ==> GrewAt(mem, mem', root, top, a, q)
  }

  lemma {:induction false} GrewOn(mem: Memory, mem1: Memory, mem2: Memory, root: Frame, top: nat, a: Access)
    requires Grew(mem, mem1, root, top, a) && Grew(mem1, mem2, root, top, a)
    ensures Grew(mem, mem2, root, top, a)
  {
    forall q: Page | q.Proper() ensures GrewAt(mem, mem2, root, top, a, q) {
      assert GrewAt(mem, mem1, root, top, a, q) && GrewAt(mem1, mem2, root, top, a, q);
    }
  }

  lemma {:induction false} InstallGrows(mem: Memory, root: Frame, sh: Shape, t: Frame, page: Frame, word: nat, p: Page,
                                        k: nat)
    requires Tables(mem, root, sh) && p.Proper() && t in sh.level && sh.level[t] == k && 1 < k <= LEVELS
    requires CanInstall(mem, root, sh, t, p.At(k), page, word) && TableAt(mem, root, p, LEVELS, k) == Some(t)
    ensures Grew(mem, Install(mem, t, p.At(k), page, word), root, p.pml4, AccessOf(word))
  {
    var mem' := Install(mem, t, p.At(k), page, word);
    forall q: Page | q.Proper() ensures GrewAt(mem, mem', root, p.pml4, AccessOf(word), q) {
      InstallPath(mem, root, sh, t, p.At(k), page, word, root, q, LEVELS);
      if TableAt(mem, root, q, LEVELS, k) == Some(t) && q.At(k) == p.At(k) {
        TableDeterminesPath(mem, root, sh, root, root, p, q, LEVELS, k);
        assert q.At(4) == p.At(4);
      }
    }
  }

  lemma {:induction false} FillGrows(mem: Memory, root: Frame, sh: Shape, pt: Frame, p: Page, word: nat)
    requires Tables(mem, root, sh) && p.Proper() && Leaf(mem, root, p, LEVELS) == Some(pt)
    requires IsTable(mem, sh, pt) && sh.level[pt] == 1 && !Present(mem[pt][p.pt]) && Present(word)
    ensures Grew(mem, Write(mem, pt, p.pt, word), root, p.pml4, AccessOf(word))
  {
    LeafEntryIsWalk(mem, root, sh, root, pt, p, LEVELS);
    PathIsWalk(mem, root, p, LEVELS);
    var mem' := Write(mem, pt, p.pt, word);
    forall q: Page | q.Proper() ensures GrewAt(mem, mem', root, p.pml4, AccessOf(word), q) {
      LeafWritePath(mem, root, sh, pt, p.pt, word, root, q, LEVELS);
      if Leaf(mem, root, q, LEVELS) == Some(pt) && q.pt == p.pt {
        TableDeterminesPath(mem, root, sh, root, root, p, q, LEVELS, 1);
        assert q.At(4) == p.At(4) && q.At(3) == p.At(3) && q.At(2) == p.At(2) && q == p;
      }
    }
  }

  // All that installing the table a page lacks does.
  lemma {:induction false} InstallTable(mem: Memory, root: Frame, sh: Shape, t: Frame, page: Frame, word: nat, p: Page,
                                        k: nat)
    requires Tables(mem, root, sh) && p.Proper() && t in sh.level && sh.level[t] == k && 1 < k <= LEVELS
    requires CanInstall(mem, root, sh, t, p.At(k), page, word) && TableAt(mem, root, p, LEVELS, k) == Some(t)
    ensures var mem' := Install(mem, t, p.At(k), page, word);
            && Tables(mem', root, Installed(sh, t, p.At(k), page)) && Grew(mem, mem', root, p.pml4, AccessOf(word))
            && TableAt(mem', root, p, LEVELS, k - 1) == Some(page)
            && forall q: Page :: q.Proper() ==> Walk(mem', root, q, LEVELS) == Walk(mem, root, q, LEVELS)
  {
    var i := p.At(k);
    InstallKeepsTables(mem, root, sh, t, i, page, word);
    InstallGrows(mem, root, sh, t, page, word, p, k);
    InstallReaches(mem, root, sh, t, page, word, root, p, LEVELS, k);
    forall q: Page | q.Proper()
      ensures Walk(Install(mem, t, i, page, word), root, q, LEVELS) == Walk(mem, root, q, LEVELS)
    {
      InstallKeepsWalk(mem, root, sh, t, i, page, word, root, q, LEVELS);
    }
  }

  // Clearing an entry cuts the way to its page short.
  lemma {:induction false} ClearCuts(mem: Memory, root: Frame, sh: Shape, pt: Frame, p: Page, word: nat, q: Page)
    requires Tables(mem, root, sh) && p.Proper() && q.Proper() && Leaf(mem, root, p, LEVELS) == Some(pt)
    requires IsTable(mem, sh, pt) && sh.level[pt] == 1 && !Present(word)
    ensures Path(Write(mem, pt, p.pt, word), root, q, LEVELS) <= Path(mem, root, q, LEVELS)
    ensures q != p ==> Path(Write(mem, pt, p.pt, word), root, q, LEVELS) == Path(mem, root, q, LEVELS)
  {
    LeafWritePath(mem, root, sh, pt, p.pt, word, root, q, LEVELS);
    if Leaf(mem, root, q, LEVELS) == Some(pt) && q.pt == p.pt {
      TableDeterminesPath(mem, root, sh, root, root, p, q, LEVELS, 1);
      assert q.At(4) == p.At(4) && q.At(3) == p.At(3) && q.At(2) == p.At(2) && q == p;
    }
  }

  lemma {:induction false} ClearKeepsRights(mem: Memory, root: Frame, sh: Shape, pt: Frame, p: Page, word: nat)
    requires Tables(mem, root, sh) && p.Proper() && Leaf(mem, root, p, LEVELS) == Some(pt)
    requires IsTable(mem, sh, pt) && sh.level[pt] == 1 && !Present(word)
    ensures var mem' := Write(mem, pt, p.pt, word);
            && (forall q: Page {:trigger Path(mem', root, q, LEVELS)} :: q.Proper() && q != p ==>
                  Path(mem', root, q, LEVELS) == Path(mem, root, q, LEVELS))
            && (Guarded(mem, root) ==> Guarded(mem', root))
  {
    var mem' := Write(mem, pt, p.pt, word);
    forall q: Page {:trigger Path(mem', root, q, LEVELS)} | q.Proper()
      ensures Path(mem', root, q, LEVELS) <= Path(mem, root, q, LEVELS)
      ensures q != p ==> Path(mem', root, q, LEVELS) == Path(mem, root, q, LEVELS)
    {
      ClearCuts(mem, root, sh, pt, p, word, q);
    }
    if Guarded(mem, root) {
      forall q: Page ensures GuardedAt(mem', root, q) { assert GuardedAt(mem, root, q); }
    }
  }

  lemma {:induction false} GuardedGrew(mem: Memory, mem': Memory, root: Frame, top: nat, a: Access)
    requires Guarded(mem, root) && Grew(mem, mem', root, top, a) && a == Access(true, top < 256)
    ensures Guarded(mem', root)
  {
    forall q: Page ensures GuardedAt(mem', root, q) {
      if q.Proper() { assert GrewAt(mem, mem', root, top, a, q) && GuardedAt(mem, root, q); }
    }
  }

  /** What a page newly mapped allows: what the entries there were do, and the new ones. */
  lemma {:induction false} RightsOfNew(mem: Memory, mem': Memory, root: Frame, top: nat, a: Access, p: Page)
    requires p.Proper() && Grew(mem, mem', root, top, a)
    requires Walk(mem, root, p, LEVELS) == None && Walk(mem', root, p, LEVELS).Some?
    ensures var was := Rights(Path(mem, root, p, LEVELS));
            Rights(Path(mem', root, p, LEVELS)) == Access(was.write && a.write, was.user && a.user)
  {
    assert GrewAt(mem, mem', root, top, a, p);
    PathIsWalk(mem, root, p, LEVELS);
    PathIsWalk(mem', root, p, LEVELS);
    RightsExtend(Path(mem, root, p, LEVELS), Path(mem', root, p, LEVELS), a);
  }

  lemma {:induction false} RightsExtend(path: seq<nat>, path': seq<nat>, a: Access)
    requires Extends(path, path', a) && |path| < |path'|
    ensures Rights(path') == Access(Rights(path).write && a.write, Rights(path).user && a.user)
  {
    forall i | 0 <= i < |path| ensures path[i] == path'[i] {
    }
    assert AccessOf(path'[|path|]) == a;
  }

  lemma {:induction false} MappedStay(mem: Memory, mem': Memory, root: Frame, top: nat, a: Access, q: Page)
    requires q.Proper() && Grew(mem, mem', root, top, a) && Walk(mem, root, q, LEVELS).Some?
    ensures Path(mem', root, q, LEVELS) == Path(mem, root, q, LEVELS)
  {
    assert GrewAt(mem, mem', root, top, a, q);
    PathIsWalk(mem, root, q, LEVELS);
  }

  // What mapping the page of an address does to the rights of all pages.
  lemma {:induction false} MapRights(mem: Memory, mem': Memory, root: Frame, vaddr: nat, ok: bool)
    requires Grew(mem, mem', root, PageOf(vaddr).pml4, Access(true, !Higher(vaddr)))
    requires ok ==> Walk(mem, root, PageOf(vaddr), LEVELS) == None && Walk(mem', root, PageOf(vaddr), LEVELS).Some?
    ensures ok ==> var was := Rights(Path(mem, root, PageOf(vaddr), LEVELS));
                   Rights(Path(mem', root, PageOf(vaddr), LEVELS)) == Access(was.write, was.user && !Higher(vaddr))
    ensures forall q: Page {:trigger Path(mem', root, q, LEVELS)} ::
              q.Proper() && Walk(mem, root, q, LEVELS) != None ==>
              Path(mem', root, q, LEVELS) == Path(mem, root, q, LEVELS)
    ensures Guarded(mem, root) && Canonical(vaddr) ==>
              && Guarded(mem', root)
              && (ok ==> Rights(Path(mem', root, PageOf(vaddr), LEVELS)) == Access(true, !Higher(vaddr)))
  {
    var p, a := PageOf(vaddr), Access(true, !Higher(vaddr));
    if ok { RightsOfNew(mem, mem', root, p.pml4, a, p); }
    forall q: Page {:trigger Path(mem', root, q, LEVELS)} | q.Proper() && Walk(mem, root, q, LEVELS) != None
      ensures Path(mem', root, q, LEVELS) == Path(mem, root, q, LEVELS)
    {
      MappedStay(mem, mem', root, p.pml4, a, q);
    }
    if Guarded(mem, root) && Canonical(vaddr) {
      HigherIndex(vaddr);
      GuardedGrew(mem, mem', root, p.pml4, a);
      if ok { GuardedRights(mem', root, p); }
    }
  }

  ghost predicate SameWalks(mem: Memory, mem': Memory, root: Frame) {
    forall q: Page {:trigger Walk(mem', root, q, LEVELS)} :: q.Proper() ==>
      Walk(mem', root, q, LEVELS) == Walk(mem, root, q, LEVELS)
  }

  // ----- The code -----

  /** The test of the present bit. */
  function HasPresentBit(word: nat): (b: bool)
    ensures b <==> Present(word)
  {
    PresentBit(word);
    And(word, PRESENT_BIT) != 0
  }

  function WithoutPresent(word: nat): (r: nat)
    requires Present(word)
    ensures !Present(r) && r + 1 == word
  {
    PresentBit(word);
    word - And(word, PRESENT_BIT)
  }

  /** The mask that clears the low twelve bits. */
  function ClearLow12(word: nat): (r: nat)
    ensures r == PageAlign(word) == Target(word).number * 0x1000
    ensures word < U64_LIMIT ==> r == And(word, 0xFFFF_FFFF_FFFF_F000)
  {
    LowMask12(word);
    if word < U64_LIMIT then
      MaskedWord(word);
      And(word, 0xFFFF_FFFF_FFFF_F000)
    else word - And(word, 0xFFF)
  }

  lemma {:induction false} LowMask12(word: nat)
    ensures And(word, 0xFFF) == word % 0x1000
  {
    Pow2Values();
    AndLowMask(word, 12);
  }

  /** The table or page an entry names. */
  function TargetOf(word: nat): (f: Frame)
    ensures f == Target(word)
  {
    Frame(ClearLow12(word) / 0x1000)
  }

  /** The entries of the four tables an address selects. */
  function EntriesOf(address: nat): (p: Page)
    ensures p == PageOf(address)
  {
    EntryOffsetIsIndex(address, 4);
    EntryOffsetIsIndex(address, 3);
    EntryOffsetIsIndex(address, 2);
    EntryOffsetIsIndex(address, 1);
    Page(EntryOffset(address, 39) / 8, EntryOffset(address, 30) / 8, EntryOffset(address, 21) / 8,
         EntryOffset(address, 12) / 8)
  }

  const PRESENT_BIT: nat := 1
  const READ_WRITE_BIT: nat := 2
  const USER_MODE_BIT: nat := 4
  const HIGHER_HALF: nat := 0xFFFF_8000_0000_0000

  // Pages the physical allocator will hand out next.
  ghost predicate Supply(free: seq<Frame>, sh: Shape) {
    && (forall i :: 0 <= i < |free| ==> free[i] !in sh.level && free[i].number > 0)
    && (forall i, j :: 0 <= i < j < |free| ==> free[i] != free[j])
  }

  predicate AccessBits(bits: nat) { bits < 0x1000 && bits % 2 == 1 }

  lemma {:induction false} TableWord(page: Frame, bits: nat)
    requires AccessBits(bits)
    ensures Present(Or(page.number * 0x1000, bits)) && Target(Or(page.number * 0x1000, bits)) == page
    ensures AccessOf(Or(page.number * 0x1000, bits)) == AccessOf(bits)
  {
    EntryWord(page, bits);
    OddWord(page.number, bits);
    AccessOfWord(page.number, bits);
  }

  lemma {:induction false} AccessOfWord(n: nat, bits: nat)
    ensures AccessOf(n * 0x1000 + bits) == AccessOf(bits)
  {
    AccessOfSum(n * 0x200, bits);
  }

  lemma {:induction false} AccessOfSum(n: nat, bits: nat)
    ensures AccessOf(8 * n + bits) == AccessOf(bits)
  {
    assert (8 * n + bits) / 2 == 4 * n + bits / 2 && (8 * n + bits) / 4 == 2 * n + bits / 4;
  }

  lemma {:induction false} OddWord(n: nat, bits: nat)
    requires bits % 2 == 1
    ensures (n * 0x1000 + bits) % 2 == 1
  {
    assert n * 0x1000 + bits == 2 * (n * 0x800) + bits;
  }

  lemma {:induction false} AlignedWord(paddr: nat, bits: nat)
    requires AccessBits(bits)
    ensures Present(PageAlign(paddr) + bits) && Target(PageAlign(paddr) + bits) == Target(paddr)
  {
  }

  lemma {:induction false} FrameOfPhys(n: nat)
    ensures Target(n * 0x1000) == Frame(n) && (n * 0x1000) % 0x1000 == 0
  {
    DivModUnique(n * 0x1000, 0x1000, n, 0);
  }

  lemma {:induction false} AlignedPage(address: nat)
    ensures PageOf(PageAlign(address)) == PageOf(address)
  {
    assert PageAlign(address) / 0x1000 == address / 0x1000;
    PageIsBits12To47(PageAlign(address), address);
  }

  lemma {:induction false} WithinPage(page: nat, w: nat)
    requires page % 0x1000 == 0 && page <= w < page + 0x1000
    ensures PageOf(w) == PageOf(page)
  {
    assert w / 0x1000 == page / 0x1000;
    PageIsBits12To47(w, page);
  }

  /** Bits 47 to 63 are all ones. */
  predicate Higher(v: nat) { v % U64_LIMIT >= HIGHER_HALF }

  // Addresses the hardware can fault on.
  predicate Canonical(vaddr: nat) {
    vaddr < 0x8000_0000_0000 || 0xFFFF_8000_0000_0000 <= vaddr < U64_LIMIT
  }

  ghost predicate AllCanonical(lo: nat, hi: nat) { forall x: nat :: lo <= x < hi ==> Canonical(x) }

  lemma {:induction false} CanonicalIn(lo: nat, hi: nat, x: nat)
    requires AllCanonical(lo, hi) && lo <= x < hi
    ensures Canonical(x)
  {
  }

  ghost predicate AllProper(pages: seq<Page>) { forall i :: 0 <= i < |pages| ==> pages[i].Proper() }

  lemma {:induction false} RangeProper(start: nat, size: nat)
    ensures AllProper(RangePages(start, size))
  {
  }

  lemma {:induction false} HigherTest(v: nat)
    ensures And(v, HIGHER_HALF) == HIGHER_HALF <==> Higher(v)
  {
    Pow2Values();
    Pow2Sum(39, 8);
    assert Pow2(8) == 256;
    MaskedHigh(v, 47, 64);
  }

  lemma {:induction false} MaskedHigh(v: nat, k: nat, n: nat)
    requires Pow2(k) == 0x8000_0000_0000 && Pow2(n) == U64_LIMIT && k <= n
    ensures And(v, HIGHER_HALF) == HIGHER_HALF <==> Higher(v)
  {
    AndFieldMask(v, k, n);
    var w := v % U64_LIMIT;
    var q, r := w / 0x8000_0000_0000, w % 0x8000_0000_0000;
    RestIs(v, 0x2_0000 * (v / U64_LIMIT) + q, r);
    TopPart(q, r);
  }

  lemma {:induction false} RestIs(v: nat, q: nat, r: nat)
    requires r < 0x8000_0000_0000 && v == 0x8000_0000_0000 * q + r
    ensures v % 0x8000_0000_0000 == r
  {
  }

  lemma {:induction false} TopPart(q: nat, r: nat)
    requires q < 0x2_0000 && r < 0x8000_0000_0000
    ensures 0x8000_0000_0000 * q == HIGHER_HALF <==> 0x8000_0000_0000 * q + r >= HIGHER_HALF
  {
  }

  lemma {:induction false} HigherAligned(v: nat)
    ensures Higher(PageAlign(v)) <==> Higher(v)
  {
    assert PageAlign(v) % U64_LIMIT == v % U64_LIMIT - v % 0x1000;
  }

  // The halves of memory are told apart by the top-level index.
  lemma {:induction false} HigherIndex(v: nat)
    requires Canonical(v)
    ensures Higher(v) <==> PageOf(v).pml4 >= 256
  {
    var q, r := v / 0x80_0000_0000, v % 0x80_0000_0000;
    TopBits(v, q, r);
    TopIndex(q);
  }

  lemma {:induction false} TopBits(v: nat, q: nat, r: nat)
    requires Canonical(v) && v == 0x80_0000_0000 * q + r && r < 0x80_0000_0000
    ensures if Higher(v) then 0x1FF_FF00 <= q < 0x200_0000 else q < 256
  {
  }

  lemma {:induction false} TopIndex(q: nat)
    requires q < 256 || 0x1FF_FF00 <= q < 0x200_0000
    ensures q % 512 >= 256 <==> q >= 256
  {
    if q >= 256 { assert q == 512 * 0xFFFF + (q - 0x1FF_FE00); }
  }

  // Present and writable; open to user mode below the higher half.
  method AccessFor(v: nat) returns (bits: nat)
    ensures AccessBits(bits) && AccessOf(bits) == Access(true, !Higher(v))
  {
    HigherTest(v);
    bits := Or(PRESENT_BIT, READ_WRITE_BIT);
    if And(v, HIGHER_HALF) != HIGHER_HALF {
      bits := Or(bits, USER_MODE_BIT);
    }
  }

  lemma {:induction false} LeafWord(paddr: nat, bits: nat)
    requires AccessBits(bits)
    ensures Present(Or(ClearLow12(paddr), bits)) && Target(Or(ClearLow12(paddr), bits)) == Target(paddr)
    ensures AccessOf(Or(ClearLow12(paddr), bits)) == AccessOf(bits)
  {
    AlignedWord(paddr, bits);
    TableWord(Target(paddr), bits);
  }

  class PageTables {
    var mem: Memory
    const root: Frame
    var free: seq<Frame>
    ghost var sh: Shape

    ghost predicate Valid()
      reads this
    {
      Tables(mem, root, sh) && Supply(free, sh)
    }

    ghost function Lookup(page: Page): Option<Frame>
      reads this
    {
      Walk(mem, root, page, LEVELS)
    }

    /** What all entries on the way to a page allow. */
    ghost function Allowed(page: Page): Access
      requires page.Proper()
      reads this
    {
      Rights(Path(mem, root, page, LEVELS))
    }

    ghost function Lacking(page: Page): nat
      requires page.Proper()
      reads this
    {
      Missing(mem, root, page, LEVELS)
    }

    /** The table below the entry for a page, allocated and zeroed when the entry is absent. */
    method NextTable(t: Frame, level: nat, page: Page, bits: nat) returns (ok: bool, next: Frame)
      requires Valid() && t in sh.level && sh.level[t] == level && 1 < level <= LEVELS && page.Proper()
               && AccessBits(bits) && TableAt(mem, root, page, LEVELS, level) == Some(t)
      modifies this
      ensures Valid() && (forall u :: u in old(sh.level) ==> u in sh.level && sh.level[u] == old(sh.level)[u])
      ensures forall q: Page :: q.Proper() ==> Lookup(q) == old(Lookup(q))
      ensures Grew(old(mem), mem, root, page.pml4, AccessOf(bits))
      ensures ok ==> next in sh.level && sh.level[next] == level - 1 && IsTable(mem, sh, t)
                     && Present(mem[t][page.At(level)]) && Target(mem[t][page.At(level)]) == next
      ensures ok ==> TableAt(mem, root, page, LEVELS, level - 1) == Some(next)
      ensures forall u :: u in old(sh.level) && u != t && u in old(mem) ==> u in mem && mem[u] == old(mem)[u]
      ensures ok ==> var used := old(Missing(mem, t, page, level)) - Missing(mem, next, page, level - 1);
                     0 <= used <= |old(free)| && free == old(free)[used..]
      ensures !ok ==> old(free) == free == [] && old(Missing(mem, t, page, level)) > 0
    {
      var i := page.At(level);
      assert IsTable(mem, sh, t) && PointsDown(mem, sh, t, i);
      if !HasPresentBit(mem[t][i]) {
        if free == [] {
          return false, t;
        }
        var empty := free[0];
        var word := Or(empty.number * 0x1000, bits);
        TableWord(empty, bits);
        InstallTable(mem, root, sh, t, empty, word, page, level);
        mem := Install(mem, t, i, empty, word);
        sh := Installed(sh, t, i, empty);
        free := free[1..];
      } else {
        NextReached(mem, root, sh, root, t, page, LEVELS, level);
      }
      return true, TargetOf(mem[t][i]);
    }

    /** The level-1 table for a page, after adding the tables it lacks. */
    method LeafTable(page: Page, bits: nat) returns (ok: bool, pt: Frame)
      requires Valid() && page.Proper() && AccessBits(bits)
      modifies this
      ensures Valid() && Grew(old(mem), mem, root, page.pml4, AccessOf(bits))
      ensures forall q: Page :: q.Proper() ==> Lookup(q) == old(Lookup(q))
      ensures ok <==> old(Lacking(page)) <= |old(free)|
      ensures ok ==> Leaf(mem, root, page, LEVELS) == Some(pt) && free == old(free)[old(Lacking(page))..]
      ensures !ok ==> free == []
    {
      var pdp, pd;
      ok, pdp := Descend(root, 4, page, bits, mem);
      if !ok { return false, root; }
      ok, pd := Descend(pdp, 3, page, bits, old(mem));
      if !ok { return false, root; }
      ok, pt := Descend(pd, 2, page, bits, old(mem));
      if !ok { return false, root; }
    }

    // One table down, told in terms of the way to the page from the top.
    method Descend(t: Frame, level: nat, page: Page, bits: nat, ghost was: Memory) returns (ok: bool, next: Frame)
      requires Valid() && 1 < level <= LEVELS && page.Proper() && AccessBits(bits)
      requires TableAt(mem, root, page, LEVELS, level) == Some(t)
      requires Grew(was, mem, root, page.pml4, AccessOf(bits)) && SameWalks(was, mem, root)
      modifies this
      ensures Valid() && Grew(was, mem, root, page.pml4, AccessOf(bits)) && SameWalks(was, mem, root)
      ensures ok ==> TableAt(mem, root, page, LEVELS, level - 1) == Some(next)
      ensures ok ==> var used := old(Missing(mem, t, page, level)) - Missing(mem, next, page, level - 1);
                     0 <= used <= |old(free)| && free == old(free)[used..]
      ensures !ok ==> old(free) == free == [] && old(Missing(mem, t, page, level)) > 0
    {
      TableAtLevel(mem, root, sh, root, t, page, LEVELS, level);
      ghost var before := mem;
      ok, next := NextTable(t, level, page, bits);
      GrewOn(was, before, mem, root, page.pml4, AccessOf(bits));
    }

    method FillEntry(page: Page, bits: nat, word: nat) returns (ok: bool)
      requires Valid() && page.Proper() && AccessBits(bits) && Present(word) && AccessOf(word) == AccessOf(bits)
      modifies this
      ensures Valid() && |free| <= |old(free)| && Grew(old(mem), mem, root, page.pml4, AccessOf(bits))
      ensures ok <==> old(Lookup(page)) == None && old(Lacking(page)) <= |old(free)|
      ensures forall q: Page :: q.Proper() ==>
                                  Lookup(q) == if ok && q == page then Some(Target(word)) else old(Lookup(q))
      ensures ok ==> free == old(free)[old(Lacking(page))..]
    {
      var pt;
      ok, pt := LeafTable(page, bits);
      if !ok { return; }
      LeafEntryIsWalk(mem, root, sh, root, pt, page, LEVELS);
      if HasPresentBit(mem[pt][page.pt]) {
        return false;
      }
      LeafWrite(mem, root, sh, pt, page, word);
      FillGrows(mem, root, sh, pt, page, word);
      GrewOn(old(mem), mem, Write(mem, pt, page.pt, word), root, page.pml4, AccessOf(bits));
      mem := Write(mem, pt, page.pt, word);
    }

    /** Maps one page; false stands for a panic: no page left for a table, or the page already mapped. */
    method MapPage(vaddr: nat, paddr: nat) returns (ok: bool)
      requires Valid()
      modifies this
      ensures Valid() && |free| <= |old(free)|
      ensures ok <==> old(Lookup(PageOf(vaddr))) == None && old(Lacking(PageOf(vaddr))) <= |old(free)|
      ensures forall q: Page :: q.Proper() ==>
                                  Lookup(q) == if ok && q == PageOf(vaddr) then Some(Target(paddr)) else old(Lookup(q))
      ensures ok ==> free == old(free)[old(Lacking(PageOf(vaddr)))..]
      ensures ok ==> var was := old(Allowed(PageOf(vaddr)));
                     Allowed(PageOf(vaddr)) == Access(was.write, was.user && !Higher(vaddr))
      ensures forall q: Page {:trigger Allowed(q)} :: q.Proper() && old(Lookup(q)) != None ==>
                                                        Allowed(q) == old(Allowed(q))
      ensures old(Guarded(mem, root)) && Canonical(vaddr) ==>
                Guarded(mem, root) && (ok ==> Allowed(PageOf(vaddr)) == Access(true, !Higher(vaddr)))
    {
      var v := ClearLow12(vaddr);
      var bits := AccessFor(v);
      AlignedPage(vaddr);
      HigherAligned(vaddr);
      LeafWord(paddr, bits);
      ok := FillEntry(EntriesOf(v), bits, Or(ClearLow12(paddr), bits));
      MapRights(old(mem), mem, root, vaddr, ok);
    }

    /** Removes the translation of one page, whether or not there is one. */
    method UnmapPage(vaddr: nat)
      requires Valid()
      modifies this`mem
      ensures Valid()
      ensures forall q: Page :: q.Proper() ==> Lookup(q) == if q == PageOf(vaddr) then None else old(Lookup(q))
      ensures forall q: Page {:trigger Allowed(q)} :: q.Proper() && q != PageOf(vaddr) ==> Allowed(q) == old(Allowed(q))
      ensures old(Guarded(mem, root)) ==> Guarded(mem, root)
    {
      var p := EntriesOf(vaddr);
      var found, pt := LeafIfPresent(p);
      if !found { return; }
      LeafEntryIsWalk(mem, root, sh, root, pt, p, LEVELS);
      if !HasPresentBit(mem[pt][p.pt]) { return; }
      ClearEntry(p, pt);
    }

    // Clears the present bit of the entry of a page.
    method ClearEntry(p: Page, pt: Frame)
      requires Valid() && p.Proper() && Leaf(mem, root, p, LEVELS) == Some(pt)
      requires IsTable(mem, sh, pt) && sh.level[pt] == 1 && Present(mem[pt][p.pt])
      modifies this`mem
      ensures Valid()
      ensures forall q: Page :: q.Proper() ==> Lookup(q) == if q == p then None else old(Lookup(q))
      ensures forall q: Page {:trigger Allowed(q)} :: q.Proper() && q != p ==> Allowed(q) == old(Allowed(q))
      ensures old(Guarded(mem, root)) ==> Guarded(mem, root)
    {
      var word := WithoutPresent(mem[pt][p.pt]);
      LeafWrite(mem, root, sh, pt, p, word);
      ClearKeepsRights(mem, root, sh, pt, p, word);
      mem := Write(mem, pt, p.pt, word);
    }

    // The level-1 table for a page, if all tables above it are there.
    method LeafIfPresent(p: Page) returns (found: bool, pt: Frame)
      requires Valid() && p.Proper()
      ensures found ==> Leaf(mem, root, p, LEVELS) == Some(pt) && IsTable(mem, sh, pt)
      ensures !found ==> Lookup(p) == None
    {
      WalkStep(mem, root, sh, root, p);
      var pml4e := mem[root][p.pml4];
      if !HasPresentBit(pml4e) { return false, root; }
      WalkStep(mem, root, sh, Target(pml4e), p);
      var pdpe := mem[TargetOf(pml4e)][p.pdp];
      if !HasPresentBit(pdpe) { return false, root; }
      WalkStep(mem, root, sh, Target(pdpe), p);
      var pde := mem[TargetOf(pdpe)][p.pd];
      if !HasPresentBit(pde) { return false, root; }
      return true, TargetOf(pde);
    }

    /** The physical page behind an address, 0 when there is none. */
    method PagePhysIfResident(virt: nat) returns (phys: nat)
      requires Valid()
      ensures phys == match Lookup(PageOf(virt)) case None => 0 case Some(f) => f.number * 0x1000
    {
      var p := EntriesOf(virt);
      var found, pt := LeafIfPresent(p);
      if !found { return 0; }
      LeafEntryIsWalk(mem, root, sh, root, pt, p, LEVELS);
      var pte := mem[pt][p.pt];
      if !HasPresentBit(pte) { return 0; }
      return ClearLow12(pte);
    }

    /** The physical page behind an address, mapped now if need be; false stands for a panic. */
    method AllocatePageIfNecessary(address: nat) returns (ok: bool, phys: nat)
      requires Valid()
      modifies this
      ensures Valid() && |free| <= |old(free)|
      ensures ok <==> match old(Lookup(PageOf(address)))
                      case None => |old(free)| >= 1 + old(Lacking(PageOf(address)))
                      case Some(f) => f.number > 0
      ensures ok ==> phys % 0x1000 == 0 && Target(phys) != Frame(0) && Lookup(PageOf(address)) == Some(Target(phys))
      ensures forall q: Page :: q.Proper() && (!ok || q != PageOf(address) || old(Lookup(q)) != None) ==>
                                  Lookup(q) == old(Lookup(q))
      ensures forall q: Page {:trigger Allowed(q)} :: q.Proper() && old(Lookup(q)) != None ==>
                                                        Allowed(q) == old(Allowed(q))
      ensures old(Guarded(mem, root)) && Canonical(address) ==> Guarded(mem, root)
    {
      phys := PagePhysIfResident(address);
      if phys != 0 {
        return true, phys;
      }
      if free == [] {
        return false, 0;
      }
      phys := free[0].number * 0x1000;
      FrameOfPhys(free[0].number);
      free := free[1..];
      ok := MapPage(address, phys);
    }

    // AllocatePageIfNecessary, told in terms of the page alone.
    method TouchPage(address: nat, ghost page: Page) returns (ok: bool)
      requires Valid() && page == PageOf(address)
      modifies this
      ensures Valid() && |free| <= |old(free)|
      ensures ok ==> Lookup(page) != None
      ensures forall q: Page :: q.Proper() && (q != page || old(Lookup(q)) != None) ==> Lookup(q) == old(Lookup(q))
      ensures old(Lookup(page)) == None ==> Lookup(page) != Some(Frame(0))
      ensures !ok ==> old(Lookup(page)) == Some(Frame(0)) || |free| < LEVELS
      ensures old(Guarded(mem, root)) && Canonical(address) ==> Guarded(mem, root)
    {
      var phys;
      ok, phys := AllocatePageIfNecessary(address);
    }

    method TouchNext(ghost was: Memory, address: nat, ghost pages: seq<Page>, ghost k: nat, ghost safe: bool)
      returns (ok: bool)
      requires Valid() && k < |pages| && pages[k] == PageOf(address) && Progress(was, mem, root, pages, k)
      requires AllProper(pages)
      requires safe ==> Canonical(address) && Guarded(mem, root)
      modifies this
      ensures Valid() && Progress(was, mem, root, pages, if ok then k + 1 else k) && (safe ==> Guarded(mem, root))
      ensures !ok ==> |free| < LEVELS || Walk(was, root, pages[k], LEVELS) == Some(Frame(0))
    {
      ghost var before := mem;
      ok := TouchPage(address, pages[k]);
      Progressed(was, before, mem, root, pages, k, ok);
    }

    /** Makes every page of a range resident; translations present before stay as they are. */
    method EnsureResident(start: nat, size: nat) returns (ok: bool)
      requires Valid()
      modifies this
      ensures Valid()
      ensures ok ==> forall q :: q in RangePages(start, size) ==> Lookup(q) != None
      ensures forall q: Page :: q.Proper() && (old(Lookup(q)) != None || q !in RangePages(start, size)) ==>
                                  Lookup(q) == old(Lookup(q))
      ensures !ok ==> |free| < LEVELS || exists q :: q in RangePages(start, size) && old(Lookup(q)) == Some(Frame(0))
      ensures old(Guarded(mem, root)) && AllCanonical(PageAlign(start), start + size) ==> Guarded(mem, root)
    {
      var max := start + size;
      var address := PageAlign(start);
      ghost var pages, k := RangePages(start, size), 0;
      ghost var safe := Guarded(mem, root) && AllCanonical(address, max);
      RangeProper(start, size);
      ok := true;
      while address < max
        invariant Valid() && 0 <= k <= |pages| && address == PageAlign(start) + 0x1000 * k
                  && (address < max <==> k < |pages|)
        invariant Progress(old(mem), mem, root, pages, k) && (safe ==> Guarded(mem, root))
        decreases |pages| - k
      {
        RangePageAt(start, size, k);
        if safe { CanonicalIn(PageAlign(start), max, address); }
        ok := TouchNext(old(mem), address, pages, k, safe);
        if !ok { return; }
        address := address + 0x1000;
        k := k + 1;
        StillInRange(start, size, k);
      }
    }
  }

  // The first k pages are resident. Of the translations of before, those present and those of other
  // pages are as they were.
  ghost predicate Progress(was: Memory, mem: Memory, root: Frame, pages: seq<Page>, k: nat)
    requires k <= |pages|
  {
    && (forall i :: 0 <= i < k ==> Walk(mem, root, pages[i], LEVELS) != None)
    && (forall q: Page :: q.Proper() && (Walk(was, root, q, LEVELS) != None || q !in pages) ==>
                            Walk(mem, root, q, LEVELS) == Walk(was, root, q, LEVELS))
    && forall q: Page :: q.Proper() && Walk(was, root, q, LEVELS) == None ==>
                           Walk(mem, root, q, LEVELS) != Some(Frame(0))
  }

  lemma {:induction false} Progressed(was: Memory, mem: Memory, mem': Memory, root: Frame, pages: seq<Page>, k: nat,
                                      ok: bool)
    requires k < |pages| && AllProper(pages) && Progress(was, mem, root, pages, k)
    requires forall q: Page :: q.Proper() && (q != pages[k] || Walk(mem, root, q, LEVELS) != None) ==>
                                 Walk(mem', root, q, LEVELS) == Walk(mem, root, q, LEVELS)
    requires Walk(mem, root, pages[k], LEVELS) == None ==> Walk(mem', root, pages[k], LEVELS) != Some(Frame(0))
    requires ok ==> Walk(mem', root, pages[k], LEVELS) != None
    ensures Progress(was, mem', root, pages, if ok then k + 1 else k)
  {
  }

  // How many pages a range of bytes touches, and which.
  ghost function PageCount(start: nat, size: nat): nat {
    (start % 0x1000 + size + 0x1000 - 1) / 0x1000
  }

  ghost function RangePages(start: nat, size: nat): seq<Page> {
    seq(PageCount(start, size), i requires i >= 0 => PageOf(PageAlign(start) + 0x1000 * i))
  }

  lemma {:induction false} RangePageAt(start: nat, size: nat, k: nat)
    requires k < |RangePages(start, size)|
    ensures RangePages(start, size)[k] == PageOf(PageAlign(start) + 0x1000 * k)
  {
  }

  lemma {:induction false} StillInRange(start: nat, size: nat, k: nat)
    ensures PageAlign(start) + 0x1000 * k < start + size <==> k < PageCount(start, size)
  {
  }

  lemma {:induction false} PageStep(a: nat, k: int, q: int)
    requires q == a / 0x1000 + k
    ensures PageAlign(a) + 0x1000 * k == 0x1000 * q && PageAlign(a) <= a < PageAlign(a) + 0x1000
    ensures (0x1000 * q) % 0x1000 == 0
  {
    assert PageAlign(a) == 0x1000 * (a / 0x1000);
  }

  /** The pages of a range are exactly the pages of its addresses. */
  lemma {:induction false} AddressInRangePages(start: nat, size: nat, w: nat)
    requires start <= w < start + size
    ensures PageOf(w) in RangePages(start, size)
  {
    var q := w / 0x1000;
    var k := q - start / 0x1000;
    PageStep(start, k, q);
    PageStep(w, 0, q);
    StillInRange(start, size, k);
    RangePageAt(start, size, k);
    WithinPage(0x1000 * q, w);
  }

  lemma {:induction false} RangePageHasAddress(start: nat, size: nat, k: nat) returns (w: nat)
    requires size > 0 && k < |RangePages(start, size)|
    ensures start <= w < start + size && PageOf(w) == RangePages(start, size)[k]
  {
    var q := start / 0x1000 + k;
    PageStep(start, k, q);
    RangePageAt(start, size, k);
    StillInRange(start, size, k);
    w := if k == 0 then start else 0x1000 * q;
    WithinPage(0x1000 * q, w);
  }
}
