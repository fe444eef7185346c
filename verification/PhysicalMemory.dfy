/**
  Physical page allocation (zion/memory/physical_memory.cpp): the bootstrap allocator, the
  manager that takes over from it, and the pages they hand out.

  For every page, the places that hold it are counted, so that one equation says both that no
  page is lost and that no page is in two places.
 */
module PhysicalMemory {
  datatype Block = Block(base: nat, pages: nat) {
    predicate Has(p: nat) {
      base <= p < base + 0x1000 * pages && (p - base) % 0x1000 == 0
    }
  }

  // One entry of the boot loader's memory map.
  datatype Entry = Entry(usable: bool, base: nat, length: nat) {
    function Region(): Block { Block(base, length / 0x1000) }
  }

  // Page(p) is a page address; Panic a call to panic; Crash a null pointer followed.
  datatype Outcome = Page(address: nat) | Panic | Crash

  ghost function One(b: bool): nat { if b then 1 else 0 }

  /** How many of the blocks have the page. */
  ghost function InBlocks(blocks: seq<Block>, p: nat): nat {
    if blocks == [] then 0 else One(blocks[0].Has(p)) + InBlocks(blocks[1..], p)
  }

  ghost function InSingles(singles: seq<nat>, p: nat): nat {
    if singles == [] then 0 else One(singles[0] == p) + InSingles(singles[1..], p)
  }

  // A block and its first n pages.
  lemma {:induction false} BlockSplits(b: Block, n: nat, p: nat)
    requires n <= b.pages
    ensures One(b.Has(p)) == One(Block(b.base, n).Has(p)) + One(Block(b.base + 0x1000 * n, b.pages - n).Has(p))
  {
    assert (p - (b.base + 0x1000 * n)) % 0x1000 == (p - b.base) % 0x1000;
  }

  // Taking pages from the front of one block takes them from the whole.
  lemma {:induction false} TakeFromBlock(blocks: seq<Block>, i: nat, n: nat, p: nat)
    requires i < |blocks| && n <= blocks[i].pages
    ensures var b := blocks[i];
            InBlocks(blocks, p) == InBlocks(blocks[i := Block(b.base + 0x1000 * n, b.pages - n)],
                                            p) + One(Block(b.base, n).Has(p))
    decreases i
  {
    var b := blocks[i];
    var left := blocks[i := Block(b.base + 0x1000 * n, b.pages - n)];
    if i == 0 {
      BlockSplits(b, n, p);
      assert left[1..] == blocks[1..];
    } else {
      TakeFromBlock(blocks[1..], i - 1, n, p);
      assert left[1..] == blocks[1..][i - 1 := left[i]];
    }
  }

  ghost predicate AllEmpty(blocks: seq<Block>) {
    forall i :: 0 <= i < |blocks| ==> blocks[i].pages == 0
  }

  // Blocks have no pages exactly when no page is in them.
  lemma {:induction false} EmptyBlocksHaveNone(blocks: seq<Block>, p: nat)
    requires AllEmpty(blocks)
    ensures InBlocks(blocks, p) == 0
  {
    if blocks != [] { EmptyBlocksHaveNone(blocks[1..], p); }
  }

  lemma {:induction false} BlockPageIsIn(blocks: seq<Block>, i: nat, p: nat)
    requires i < |blocks| && blocks[i].Has(p)
    ensures InBlocks(blocks, p) > 0
    decreases i
  {
    if i > 0 { BlockPageIsIn(blocks[1..], i - 1, p); }
  }

  lemma {:induction false} SinglePageIsIn(singles: seq<nat>, i: nat)
    requires i < |singles|
    ensures InSingles(singles, singles[i]) > 0
    decreases i
  {
    if i > 0 { SinglePageIsIn(singles[1..], i - 1); }
  }

  /** How many usable entries of the memory map have the page. */
  ghost function InUsable(entries: seq<Entry>, p: nat): nat {
    if entries == [] then 0 else One(entries[0].usable && entries[0].Region().Has(p)) + InUsable(entries[1..], p)
  }

  // Usable entries are disjoint and start at different addresses.
  ghost predicate GoodMap(entries: seq<Entry>) {
    && (forall p: nat :: InUsable(entries, p) <= 1)
    && (forall i, j :: 0 <= i < j < |entries| && entries[i].usable && entries[j].usable ==>
                         entries[i].base != entries[j].base)
  }

  /** The bootstrap allocator: a cursor through the first large enough usable entry. */
  datatype Bootstrap = Bootstrap(enabled: bool, initPage: nat, nextPage: nat, maxPage: nat) {
    function Used(): Block
      requires initPage <= nextPage
    {
      Block(initPage, (nextPage - initPage) / 0x1000)
    }

    // The states that start from InitBootstrapPageAllocation and allocate pages.
    ghost predicate Of(entries: seq<Entry>) {
      && initPage <= nextPage <= maxPage && (nextPage - initPage) % 0x1000 == 0
      && (!enabled ==> initPage == nextPage)
      && (enabled ==> maxPage == initPage + 0x9000
                      && exists i :: 0 <= i < |entries| && entries[i].usable && entries[i].base == initPage
                                     && entries[i].length >= 0x9000)
    }

    ghost predicate TakenFrom(entries: seq<Entry>) {
      exists i :: 0 <= i < |entries| && entries[i].usable && entries[i].base == initPage
    }
  }

  lemma {:induction false} UsableSnoc(entries: seq<Entry>, e: Entry, p: nat)
    ensures InUsable(entries + [e], p) == InUsable(entries, p) + One(e.usable && e.Region().Has(p))
  {
    if entries == [] {
      assert entries + [e] == [e];
    } else {
      UsableSnoc(entries[1..], e, p);
      assert (entries + [e])[1..] == entries[1..] + [e];
    }
  }

  // The entry the bootstrap allocator used gives up exactly the pages it handed out.
  lemma {:induction false} TakeoverStep(entries: seq<Entry>, boot: Bootstrap, i: nat, p: nat)
    requires GoodMap(entries) && boot.Of(entries) && i < |entries| && entries[i].usable
             && entries[i].base == boot.initPage
    ensures boot.nextPage - boot.initPage <= entries[i].length
    ensures !boot.TakenFrom(entries[..i]) && boot.TakenFrom(entries[..i + 1])
    ensures var rest := Block(boot.nextPage, (entries[i].length - (boot.nextPage - boot.initPage)) / 0x1000);
            One(entries[i].Region().Has(p)) == One(boot.Used().Has(p)) + One(rest.Has(p))
  {
    var u := boot.Used().pages;
    assert boot.nextPage == boot.initPage + 0x1000 * u;
    assert u <= entries[i].Region().pages by {
      if boot.enabled {
        var j :| 0 <= j < |entries| && entries[j].usable && entries[j].base == boot.initPage
        && entries[j].length >= 0x9000;
        assert i == j;
      }
    }
    BlockSplits(entries[i].Region(), u, p);
    assert entries[..i + 1][i] == entries[i];
  }

  lemma {:induction false} TakeoverSkip(entries: seq<Entry>, boot: Bootstrap, i: nat)
    requires i < |entries| && !(entries[i].usable && entries[i].base == boot.initPage)
    ensures boot.TakenFrom(entries[..i + 1]) <==> boot.TakenFrom(entries[..i])
  {
    assert forall j :: 0 <= j < i ==> entries[..i][j] == entries[..i + 1][j];
  }

  // The blocks have the usable pages, but for those handed out already.
  ghost predicate TakenOver(list: seq<Block>, entries: seq<Entry>, boot: Bootstrap)
    requires boot.initPage <= boot.nextPage
  {
    forall p: nat :: InBlocks(list, p) + One(boot.TakenFrom(entries) && boot.Used().Has(p)) == InUsable(entries, p)
  }

  lemma {:induction false} TakeoverKeeps(list: seq<Block>, list': seq<Block>, entries: seq<Entry>, boot: Bootstrap,
                                         i: nat)
    requires GoodMap(entries) && boot.Of(entries) && i < |entries| && TakenOver(list, entries[..i], boot)
    requires var e, used := entries[i], boot.nextPage - boot.initPage;
             if !e.usable then list' == list
             else if e.base == boot.initPage then
               used <= e.length && list' == [Block(boot.nextPage, (e.length - used) / 0x1000)] + list
             else list' == [Block(e.base, e.length / 0x1000)] + list
    ensures TakenOver(list', entries[..i + 1], boot)
  {
    assert entries[..i + 1] == entries[..i] + [entries[i]];
    forall p: nat ensures InBlocks(list', p) + One(boot.TakenFrom(entries[..i + 1])
                                                   && boot.Used().Has(p)) == InUsable(entries[..i + 1], p) {
      UsableSnoc(entries[..i], entries[i], p);
      if entries[i].usable && entries[i].base == boot.initPage {
        TakeoverStep(entries, boot, i, p);
      } else {
        TakeoverSkip(entries, boot, i);
      }
    }
  }

  /** The blocks of the usable regions, the one the bootstrap allocator works on from its next page on. */
  method TakeOver(entries: seq<Entry>, boot: Bootstrap) returns (list: seq<Block>)
    requires GoodMap(entries) && boot.Of(entries)
    ensures TakenOver(list, entries, boot)
  {
    list := [];
    for i := 0 to |entries|
      invariant TakenOver(list, entries[..i], boot)
    {
      ghost var before := list;
      if entries[i].usable {
        var base, size := entries[i].base, entries[i].length;
        if base == boot.initPage {
          TakeoverStep(entries, boot, i, 0);
          base := boot.nextPage;
          size := size - (boot.nextPage - boot.initPage);
        }
        list := [Block(base, size / 0x1000)] + list;
      }
      TakeoverKeeps(before, list, entries, boot, i);
    }
    assert entries[..|entries|] == entries;
  }

  /** The first page the bootstrap allocator has left, or a panic. */
  method BootstrapAllocate(boot: Bootstrap, ghost entries: seq<Entry>) returns (r: Outcome, boot': Bootstrap)
    requires boot.Of(entries)
    ensures boot'.Of(entries)
    ensures r.Page? <==> boot.enabled && boot.nextPage < boot.maxPage
    ensures r.Page? ==> forall p: nat :: boot'.Used().Has(p) <==> boot.Used().Has(p) || p == r.address
    ensures r.Page? ==> !boot.Used().Has(r.address)
    ensures !r.Page? ==> r == Panic && boot' == boot
  {
    if !boot.enabled {
      return Panic, boot;
    }
    var page := boot.nextPage;
    if page == boot.maxPage {
      return Panic, boot;
    }
    boot' := boot.(nextPage := page + 0x1000);
    forall p: nat ensures boot'.Used().Has(p) <==> boot.Used().Has(p) || p == page {
      BlockSplits(boot'.Used(), boot.Used().pages, p);
      assert Block(page, 1).Has(p) <==> p == page;
    }
    return Page(page), boot';
  }

  method InitBootstrap(entries: seq<Entry>) returns (boot: Bootstrap)
    ensures boot.Of(entries) && boot.initPage == boot.nextPage
    ensures boot.enabled <==> exists i :: 0 <= i < |entries| && entries[i].usable && entries[i].length >= 0x9000
  {
    for i := 0 to |entries|
      invariant forall j :: 0 <= j < i ==> !(entries[j].usable && entries[j].length >= 0x9000)
    {
      if entries[i].usable && entries[i].length >= 0x9000 {
        return Bootstrap(true, entries[i].base, entries[i].base, entries[i].base + 0x9000);
      }
    }
    return Bootstrap(false, 0, 0, 0);
  }

  lemma {:induction false} TakeFromBlocks(blocks: seq<Block>, i: nat, n: nat)
    requires i < |blocks| && n <= blocks[i].pages
    ensures var b := blocks[i];
            forall p: nat :: InBlocks(blocks, p) == InBlocks(blocks[i := Block(b.base + 0x1000 * n, b.pages - n)], p)
                                                    + One(Block(b.base, n).Has(p))
  {
    forall p: nat { TakeFromBlock(blocks, i, n, p); }
  }

  /** The list from the first block on that is not empty. */
  function Nonempty(blocks: seq<Block>): seq<Block> {
    if blocks == [] || blocks[0].pages > 0 then blocks else Nonempty(blocks[1..])
  }

  /** What is left of a list when n pages have been taken from the front of block i. */
  function Less(blocks: seq<Block>, i: nat, n: nat): seq<Block>
    requires i < |blocks| && n <= blocks[i].pages
  {
    blocks[..i] + [Block(blocks[i].base + 0x1000 * n, blocks[i].pages - n)] + blocks[i + 1..]
  }

  /** The first block of the list with at least n pages. */
  ghost predicate FirstLong(blocks: seq<Block>, i: nat, n: nat) {
    i < |blocks| && blocks[i].pages >= n && forall j :: 0 <= j < i ==> blocks[j].pages < n
  }

  class PhysicalMemoryManager {
    var blocks: seq<Block>
    var singles: seq<nat>
    ghost var held: iset<nat>
    ghost const usable: iset<nat>

    ghost function Free(p: nat): nat
      reads this
    {
      InBlocks(blocks, p) + InSingles(singles, p)
    }

    /** Every usable page, and no other, is in exactly one place: a free block, the single pages, or held. */
    ghost predicate Valid()
      reads this
    {
      forall p: nat :: Free(p) + One(p in held) == One(p in usable)
    }

    ghost predicate HasFreePage()
      reads this
    {
      singles != [] || !AllEmpty(blocks)
    }

    /** Hands out one page, if one is free. */
    method AllocatePage() returns (r: Outcome)
      requires Valid()
      modifies this
      ensures Valid()
      ensures r.Page? <==> old(HasFreePage())
      ensures r.Page? ==> r.address !in old(held) && held == old(held) + iset{r.address}
      ensures !r.Page? ==> held == old(held)
      ensures r == Panic <==> old(singles) == [] && old(blocks) == []
      ensures old(singles) != [] ==> r == Page(old(singles)[0]) && singles == old(singles)[1..] && blocks == old(blocks)
      ensures old(singles) == [] ==> var rest := Nonempty(old(blocks));
                                     && singles == [] && (rest == [] ==> blocks == [])
                                     && (rest != [] ==> rest[0].pages > 0 && r == Page(rest[0].base)
                                                        && blocks == Nonempty(Less(rest, 0, 1)[..1]) + rest[1..])
    {
      if |singles| > 0 {
        var page := TakeSingle();
        return Page(page);
      }
      if |blocks| == 0 {
        return Panic;
      }
      ghost var k := SkipEmptyBlocks();
      if |blocks| == 0 {
        return Crash;
      }
      assert old(blocks)[k] == blocks[0];
      var page := TakePages(0, 1);
      ghost var rest := Nonempty(old(blocks));
      assert Less(rest, 0, 1)[..1] == [blocks[0]] && blocks[1..] == rest[1..];
      if blocks[0].pages == 0 {
        blocks := blocks[1..];
      }
      return Page(page);
    }

    method TakeSingle() returns (page: nat)
      requires Valid() && singles != []
      modifies this`singles, this`held
      ensures Valid() && singles == old(singles)[1..]
      ensures page == old(singles)[0] && page !in old(held) && held == old(held) + iset{page}
    {
      page := singles[0];
      SinglePageIsIn(singles, 0);
      singles := singles[1..];
      held := held + iset{page};
    }

    // Drops the empty blocks at the front of the list.
    method SkipEmptyBlocks() returns (ghost k: nat)
      requires Valid()
      modifies this`blocks
      ensures Valid()
      ensures k <= |old(blocks)| && blocks == old(blocks)[k..] && forall j :: 0 <= j < k ==> old(blocks)[j].pages == 0
      ensures blocks == Nonempty(old(blocks)) && (blocks != [] ==> blocks[0].pages > 0)
    {
      k := 0;
      while |blocks| > 0 && blocks[0].pages == 0
        invariant Valid() && k <= |old(blocks)| && blocks == old(blocks)[k..]
        invariant (forall j :: 0 <= j < k ==> old(blocks)[j].pages == 0) && Nonempty(blocks) == Nonempty(old(blocks))
        decreases |blocks|
      {
        blocks := blocks[1..];
        k := k + 1;
      }
    }

    // Takes n pages from the front of block i.
    method TakePages(i: nat, n: nat) returns (page: nat)
      requires Valid() && i < |blocks| && n <= blocks[i].pages
      modifies this
      ensures Valid() && singles == old(singles)
      ensures blocks == Less(old(blocks), i, n)
      ensures page == old(blocks)[i].base && forall p: nat :: Block(page, n).Has(p) ==> p !in old(held)
      ensures held == old(held) + iset p: nat | Block(page, n).Has(p)
    {
      page := blocks[i].base;
      TakeFromBlocks(blocks, i, n);
      held := held + iset p: nat | Block(page, n).Has(p);
      blocks := blocks[i := Block(blocks[i].base + 0x1000 * n, blocks[i].pages - n)];
    }

    /** Hands out n adjacent pages: the first block large enough gives them. */
    method AllocateContinuous(n: nat) returns (r: Outcome)
      requires Valid()
      modifies this
      ensures Valid()
      ensures r.Page? <==> exists i :: 0 <= i < |old(blocks)| && old(blocks)[i].pages >= n && !old(AllEmpty(blocks))
      ensures r.Page? ==> (forall p: nat :: Block(r.address, n).Has(p) ==> p !in old(held))
                          && held == old(held) + iset p: nat | Block(r.address, n).Has(p)
      ensures !r.Page? ==> held == old(held)
      ensures r == Crash <==> old(blocks) != [] && old(AllEmpty(blocks))
      ensures singles == old(singles) && (!r.Page? ==> blocks == Nonempty(old(blocks)))
      ensures r.Page? ==> var rest := Nonempty(old(blocks));
                          exists i: nat :: FirstLong(rest, i, n) && r == Page(rest[i].base)
                                           && blocks == Less(rest, i, n)
    {
      if |blocks| == 0 {
        return Panic;
      }
      ghost var k := SkipEmptyBlocks();
      if |blocks| == 0 {
        return Crash;
      }
      for i := 0 to |blocks|
        invariant forall j :: 0 <= j < i ==> blocks[j].pages < n
      {
        if blocks[i].pages >= n {
          assert old(blocks)[k + i] == blocks[i];
          assert FirstLong(blocks, i, n);
          var page := TakePages(i, n);
          return Page(page);
        }
      }
      assert forall j :: k <= j < |old(blocks)| ==> old(blocks)[j] == blocks[j - k];
      return Panic;
    }

    method FreePage(page: nat)
      requires Valid() && page in held
      modifies this
      ensures Valid() && held == old(held) - iset{page} && singles == [page] + old(singles) && blocks == old(blocks)
    {
      singles := [page] + singles;
      held := held - iset{page};
    }

    method FreePages(page: nat, n: nat)
      requires Valid() && forall p: nat :: Block(page, n).Has(p) ==> p in held
      modifies this
      ensures Valid() && held == old(held) - iset p: nat | Block(page, n).Has(p)
      ensures blocks == [Block(page, n)] + old(blocks) && singles == old(singles)
    {
      blocks := [Block(page, n)] + blocks;
      held := held - iset p: nat | Block(page, n).Has(p);
    }

    /** Takes over the usable regions; what the bootstrap allocator handed out counts as held. */
    constructor (entries: seq<Entry>, boot: Bootstrap)
      requires GoodMap(entries) && boot.Of(entries)
      ensures Valid()
      ensures usable == iset p: nat | InUsable(entries, p) > 0
      ensures held == iset p: nat | boot.Used().Has(p)
    {
      var list := TakeOver(entries, boot);
      blocks := list;
      singles := [];
      usable := iset p: nat | InUsable(entries, p) > 0;
      held := iset p: nat | boot.Used().Has(p);
      new;
    }
  }

  /** A page can be handed out exactly when some page is in a free place. */
  lemma {:induction false} FreePlaceExists(blocks: seq<Block>, singles: seq<nat>)
    ensures singles != [] || !AllEmpty(blocks) <==> exists p: nat :: InBlocks(blocks, p) + InSingles(singles, p) > 0
  {
    if singles != [] {
      SinglePageIsIn(singles, 0);
    } else if !AllEmpty(blocks) {
      var i :| 0 <= i < |blocks| && blocks[i].pages != 0;
      BlockPageIsIn(blocks, i, blocks[i].base);
    } else {
      forall p: nat ensures InBlocks(blocks, p) + InSingles(singles, p) == 0 { EmptyBlocksHaveNone(blocks, p); }
    }
  }
}
