/**
  Reading a list of ext2 blocks in few disk reads: the run coalescing of
  sys/victoriafalls/fs/ext2/ext2_block_reader.cpp, and the disk server that answers it
  (sys/denali/denali_server.cpp).
 */
module BlockReader {

  datatype Range = Range(lba: nat, size: nat)

  /** The sectors from lba on. */
  function Span(lba: nat, size: nat): (r: seq<nat>)
    ensures |r| == size
  {
    if size == 0 then [] else Span(lba, size - 1) + [lba + size - 1]
  }

  /** The sectors the first n ranges ask for, in order. */
  function Expand(ranges: seq<Range>, n: nat): seq<nat>
    requires n <= |ranges|
  {
    if n == 0 then [] else Expand(ranges, n - 1) + Span(ranges[n - 1].lba, ranges[n - 1].size)
  }

  /** The product a * s, as a sum. */
  function Times(a: nat, s: nat): nat { if a == 0 then 0 else Times(a - 1, s) + s }

  lemma {:induction false} TimesIsProduct(a: nat, s: nat)
    ensures Times(a, s) == a * s
  {
    if a > 0 { TimesIsProduct(a - 1, s); }
  }

  lemma {:induction false} TimesSum(a: nat, b: nat, s: nat)
    ensures Times(a + b, s) == Times(a, s) + Times(b, s)
  {
    if b > 0 { TimesSum(a, b - 1, s); }
  }

  /** The sectors of the first n listed blocks, in order, with s sectors to a block. */
  function Sectors(blocks: seq<nat>, n: nat, offset: nat, s: nat): seq<nat>
    requires n <= |blocks|
  {
    if n == 0 then [] else Sectors(blocks, n - 1, offset, s) + Span(offset + Times(blocks[n - 1], s), s)
  }

  lemma {:induction false} SpanAt(lba: nat, size: nat, i: nat)
    requires i < size
    ensures Span(lba, size)[i] == lba + i
  {
    if i < size - 1 { SpanAt(lba, size - 1, i); }
  }

  lemma {:induction false} SpanSplit(lba: nat, m: nat, n: nat)
    ensures Span(lba, m + n) == Span(lba, m) + Span(lba + m, n)
  {
    if n > 0 {
      SpanSplit(lba, m, n - 1);
      Append3(Span(lba, m), Span(lba + m, n - 1), [lba + m + n - 1]);
    }
  }

  lemma {:induction false} Append3(a: seq<nat>, b: seq<nat>, c: seq<nat>)
    ensures (a + b) + c == a + (b + c)
  {
  }

  // One more block makes a run of blocks one range.
  lemma {:induction false} RunGrows(first: nat, n: nat, more: nat, offset: nat, s: nat)
    requires more == n + 1
    ensures Span(offset + Times(first, s), Times(n, s)) + Span(offset + Times(first + n, s),
                                                               s) == Span(offset + Times(first, s), Times(more, s))
  {
    TimesSum(first, n, s);
    SpanSplit(offset + Times(first, s), Times(n, s), s);
  }

  lemma {:induction false} ExpandPrefix(ranges: seq<Range>, r: Range, n: nat)
    requires n <= |ranges|
    ensures Expand(ranges + [r], n) == Expand(ranges, n)
  {
    if n > 0 { ExpandPrefix(ranges, r, n - 1); }
  }

  /** No range could be joined with the next one. */
  ghost predicate Maximal(ranges: seq<Range>) {
    forall j :: 0 <= j < |ranges| - 1 ==> ranges[j].lba + ranges[j].size != ranges[j + 1].lba
  }

  lemma {:induction false} NextRunApart(last: nat, next: nat, offset: nat, s: nat)
    requires next != last + 1 && s > 0
    ensures offset + Times(last + 1, s) != offset + Times(next, s)
  {
    if next < last + 1 {
      TimesSum(next, last + 1 - next, s);
    } else {
      TimesSum(last + 1, next - last - 1, s);
    }
  }

  // Blocks i to i + run - 1 are consecutive.
  ghost predicate IsRun(blocks: seq<nat>, i: nat, run: nat) {
    0 < run && i + run <= |blocks| && forall j :: i <= j < i + run ==> blocks[j] == blocks[i] + (j - i)
  }

  lemma {:induction false} RunSectors(blocks: seq<nat>, i: nat, run: nat, end: nat, offset: nat, s: nat)
    requires IsRun(blocks, i, run) && end == i + run
    ensures Sectors(blocks, end, offset, s) == Sectors(blocks, i, offset,
                                                       s) + Span(offset + Times(blocks[i], s), Times(run, s))
    decreases run
  {
    if run > 1 {
      var last, shorter := end - 1, run - 1;
      RunSectors(blocks, i, shorter, last, offset, s);
      assert blocks[last] == blocks[i] + shorter;
      RunGrows(blocks[i], shorter, run, offset, s);
      Append3(Sectors(blocks, i, offset, s), Span(offset + Times(blocks[i], s), Times(shorter, s)),
              Span(offset + Times(blocks[last], s), s));
    } else {
      assert Times(1, s) == Times(0, s) + s;
    }
  }

  /** How many blocks from i on are consecutive. */
  method RunLength(blocks: seq<nat>, i: nat) returns (run: nat)
    requires i < |blocks|
    ensures IsRun(blocks, i, run) && (i + run < |blocks| ==> blocks[i + run] != blocks[i + run - 1] + 1)
  {
    run := 1;
    while i + run < |blocks| && blocks[i + run] == blocks[i + run - 1] + 1
      invariant IsRun(blocks, i, run)
    {
      run := run + 1;
    }
  }

  // The ranges cover the first i blocks, and the run before i has ended.
  ghost predicate Covers(ranges: seq<Range>, blocks: seq<nat>, i: nat, offset: nat, s: nat) {
    && i <= |blocks| && |ranges| <= i && Expand(ranges, |ranges|) == Sectors(blocks, i, offset, s) && Maximal(ranges)
    && (forall j :: 0 <= j < |ranges| ==> ranges[j].size > 0)
    && (ranges != [] ==>
          var last := ranges[|ranges| - 1];
          i > 0 && last.lba + last.size == offset + Times(blocks[i - 1] + 1, s))
    && (0 < i < |blocks| ==> blocks[i] != blocks[i - 1] + 1)
  }

  lemma {:induction false} CoversMore(ranges: seq<Range>, blocks: seq<nat>, i: nat, run: nat, end: nat, r: Range,
                                      offset: nat, s: nat)
    requires s > 0 && Covers(ranges, blocks, i, offset, s) && i < |blocks| && IsRun(blocks, i, run) && end == i + run
    requires end < |blocks| ==> blocks[end] != blocks[end - 1] + 1
    requires r.lba == offset + Times(blocks[i], s) && r.size == Times(run, s)
    ensures Covers(ranges + [r], blocks, end, offset, s)
  {
    RunSectors(blocks, i, run, end, offset, s);
    ExpandPrefix(ranges, r, |ranges|);
    TimesSum(blocks[i], run, s);
    if ranges != [] { NextRunApart(blocks[i - 1], blocks[i], offset, s); }
  }

  ghost predicate SomeAtLeast(ranges: seq<Range>, size: nat) {
    exists j :: 0 <= j < |ranges| && ranges[j].size >= size
  }

  ghost predicate FromRun(r: Range, blocks: seq<nat>, s: nat) {
    exists i: nat, run: nat {:trigger IsRun(blocks, i, run)} :: IsRun(blocks, i, run) && r.size == Times(run, s)
  }

  // Every range is a run, and every run of the first i blocks lies in a range.
  ghost predicate RunsFit(ranges: seq<Range>, blocks: seq<nat>, i: nat, s: nat) {
    && (forall j :: 0 <= j < |ranges| ==> FromRun(ranges[j], blocks, s))
    && (forall k: nat, run: nat {:trigger IsRun(blocks, k, run)} ::
      IsRun(blocks, k, run) && k + run <= i ==> SomeAtLeast(ranges, Times(run, s)))
  }

  lemma {:induction false} TimesMono(a: nat, b: nat, s: nat)
    requires a <= b
    ensures Times(a, s) <= Times(b, s)
  {
    TimesSum(a, b - a, s);
  }

  lemma {:induction false} RunsFitMore(ranges: seq<Range>, blocks: seq<nat>, i: nat, run: nat, r: Range, s: nat)
    requires RunsFit(ranges, blocks, i, s) && IsRun(blocks, i, run) && r.size == Times(run, s)
    requires i > 0 ==> blocks[i] != blocks[i - 1] + 1
    ensures RunsFit(ranges + [r], blocks, i + run, s)
  {
    var ranges' := ranges + [r];
    assert FromRun(r, blocks, s);
    forall j | 0 <= j < |ranges'| ensures FromRun(ranges'[j], blocks, s) {
      if j < |ranges| { assert FromRun(ranges[j], blocks, s); }
    }
    forall k: nat, n: nat | IsRun(blocks, k, n) && k + n <= i + run ensures SomeAtLeast(ranges', Times(n, s)) {
      if k + n <= i {
        var j :| 0 <= j < |ranges| && ranges[j].size >= Times(n, s);
        assert ranges'[j].size >= Times(n, s);
      } else if k < i {
        assert false;
      } else {
        TimesMono(n, run, s);
        assert ranges'[|ranges|].size >= Times(n, s);
      }
    }
  }

  /** No run of consecutive blocks spans 65536 sectors. */
  ghost predicate NoLongRun(blocks: seq<nat>, s: nat) {
    forall i: nat, run: nat {:trigger IsRun(blocks, i, run)} :: IsRun(blocks, i, run) ==> Times(run, s) < 0x1_0000
  }

  lemma {:induction false} ShortWhenNoLongRun(ranges: seq<Range>, blocks: seq<nat>, s: nat)
    requires RunsFit(ranges, blocks, |blocks|, s)
    ensures Short(ranges) <==> NoLongRun(blocks, s)
  {
    if NoLongRun(blocks, s) {
      forall j | 0 <= j < |ranges| ensures ranges[j].size < 0x1_0000 { assert FromRun(ranges[j], blocks, s); }
    } else {
      var i: nat, run: nat :| IsRun(blocks, i, run) && Times(run, s) >= 0x1_0000;
      assert SomeAtLeast(ranges, Times(run, s));
    }
  }

  predicate Short(ranges: seq<Range>) { forall j :: 0 <= j < |ranges| ==> ranges[j].size < 0x1_0000 }

  ghost predicate Progress(ranges: seq<Range>, blocks: seq<nat>, i: nat, offset: nat, s: nat) {
    Covers(ranges, blocks, i, offset, s) && RunsFit(ranges, blocks, i, s)
  }

  // The range of the run that begins at block i.
  method NextRange(ghost ranges: seq<Range>, blocks: seq<nat>, i: nat, offset: nat, s: nat)
    returns (range: Range, next: nat)
    requires s > 0 && i < |blocks| && Progress(ranges, blocks, i, offset, s)
    ensures i < next <= |blocks| && Progress(ranges + [range], blocks, next, offset, s)
  {
    var run := RunLength(blocks, i);
    TimesIsProduct(blocks[i], s);
    TimesIsProduct(run, s);
    range := Range(offset + blocks[i] * s, run * s);
    next := i + run;
    CoversMore(ranges, blocks, i, run, next, range, offset, s);
    RunsFitMore(ranges, blocks, i, run, range, s);
  }

  lemma {:induction false} ProgressEnds(ranges: seq<Range>, blocks: seq<nat>, offset: nat, s: nat)
    requires Progress(ranges, blocks, |blocks|, offset, s)
    ensures Expand(ranges, |ranges|) == Sectors(blocks, |blocks|, offset, s)
    ensures Maximal(ranges) && |ranges| <= |blocks| && forall j :: 0 <= j < |ranges| ==> ranges[j].size > 0
    ensures Short(ranges) <==> NoLongRun(blocks, s)
  {
    ShortWhenNoLongRun(ranges, blocks, s);
  }

  /** One range for each run of consecutive block numbers. */
  method Coalesce(blocks: seq<nat>, offset: nat, s: nat) returns (ranges: seq<Range>)
    requires s > 0
    ensures Expand(ranges, |ranges|) == Sectors(blocks, |blocks|, offset, s)
    ensures Maximal(ranges) && |ranges| <= |blocks| && forall j :: 0 <= j < |ranges| ==> ranges[j].size > 0
    ensures Short(ranges) <==> NoLongRun(blocks, s)
  {
    ranges := [];
    var i := 0;
    while i < |blocks|
      invariant 0 <= i <= |blocks| && Progress(ranges, blocks, i, offset, s)
    {
      var range, next := NextRange(ranges, blocks, i, offset, s);
      ranges := ranges + [range];
      i := next;
    }
    ProgressEnds(ranges, blocks, offset, s);
  }

  // Where sector r of block j stands among the sectors of the first n blocks.
  lemma {:induction false} SectorAt(blocks: seq<nat>, n: nat, offset: nat, s: nat, j: nat, r: nat)
    requires j < n <= |blocks| && r < s
    ensures Times(j, s) + r < |Sectors(blocks, n, offset, s)|
    ensures Sectors(blocks, n, offset, s)[Times(j, s) + r] == offset + Times(blocks[j], s) + r
  {
    SectorsLength(blocks, n - 1, offset, s);
    if j < n - 1 {
      SectorAt(blocks, n - 1, offset, s, j, r);
    } else {
      SpanAt(offset + Times(blocks[j], s), s, r);
    }
  }

  // ----- The disk server -----

  type Disk = nat -> nat

  /** What the disk holds in the listed sectors. */
  function Contents(disk: Disk, sectors: seq<nat>): (r: seq<nat>)
    ensures |r| == |sectors| && forall i :: 0 <= i < |r| ==> r[i] == disk(sectors[i])
  {
    seq(|sectors|, i requires 0 <= i < |sectors| => disk(sectors[i]))
  }

  function TotalSize(ranges: seq<Range>, n: nat): nat
    requires n <= |ranges|
  {
    if n == 0 then 0 else TotalSize(ranges, n - 1) + ranges[n - 1].size
  }

  /** One transfer into the region at a position counted in sectors; the device takes 16 bits of the count. */
  function Transfer(disk: Disk, r: Range, region: seq<nat>, at: nat): (region': seq<nat>)
    requires at + r.size <= |region|
    ensures |region'| == |region|
  {
    var n := r.size % 0x1_0000;
    region[..at] + Contents(disk, Span(r.lba, n)) + region[at + n..]
  }

  lemma {:induction false} TotalMono(ranges: seq<Range>, m: nat, n: nat)
    requires m <= n <= |ranges|
    ensures TotalSize(ranges, m) <= TotalSize(ranges, n)
  {
    if m < n { TotalMono(ranges, m, n - 1); }
  }

  /** The region after the first n ranges have been read. */
  function ReadUpTo(disk: Disk, ranges: seq<Range>, n: nat, region: seq<nat>): (region': seq<nat>)
    requires n <= |ranges| && TotalSize(ranges, n) <= |region|
    ensures |region'| == |region|
  {
    if n == 0 then region
    else Transfer(disk, ranges[n - 1], ReadUpTo(disk, ranges, n - 1, region), TotalSize(ranges, n - 1))
  }

  lemma {:induction false} ExpandLength(ranges: seq<Range>, n: nat)
    requires n <= |ranges|
    ensures |Expand(ranges, n)| == TotalSize(ranges, n)
  {
    if n > 0 { ExpandLength(ranges, n - 1); }
  }

  /** Sector i of what was asked for ends up as sector i of the region; the rest is left alone. */
  lemma {:induction false} ReadsInOrder(disk: Disk, ranges: seq<Range>, n: nat, region: seq<nat>)
    requires n <= |ranges| && TotalSize(ranges, n) <= |region| && Short(ranges)
    ensures ReadUpTo(disk, ranges, n, region) == Contents(disk, Expand(ranges, n)) + region[TotalSize(ranges, n)..]
  {
    ExpandLength(ranges, n);
    if n > 0 {
      ReadsInOrder(disk, ranges, n - 1, region);
      ExpandLength(ranges, n - 1);
      var r := ranges[n - 1];
      assert r.size % 0x1_0000 == r.size;
      ContentsJoin(disk, Expand(ranges, n - 1), Span(r.lba, r.size));
      Overwrite(Contents(disk, Expand(ranges, n - 1)), Contents(disk, Span(r.lba, r.size)), region,
                TotalSize(ranges, n - 1), r.size);
    } else {
      assert Contents(disk, Expand(ranges, n)) == [];
    }
  }

  lemma {:induction false} ContentsJoin(disk: Disk, s: seq<nat>, t: seq<nat>)
    ensures Contents(disk, s + t) == Contents(disk, s) + Contents(disk, t)
  {
  }

  lemma {:induction false} Overwrite(done: seq<nat>, more: seq<nat>, region: seq<nat>, at: nat, n: nat)
    requires |done| == at && |more| == n && at + n <= |region|
    ensures var all := done + region[at..]; all[..at] + more + all[at + n..] == (done + more) + region[at + n..]
  {
  }

  // Nothing later writes to a place before it.
  lemma {:induction false} PlaceKept(disk: Disk, ranges: seq<Range>, m: nat, n: nat, region: seq<nat>, i: nat)
    requires m <= n <= |ranges| && TotalSize(ranges, m) <= TotalSize(ranges, n) <= |region| && i < TotalSize(ranges, m)
    ensures ReadUpTo(disk, ranges, n, region)[i] == ReadUpTo(disk, ranges, m, region)[i]
  {
    if m < n {
      TotalMono(ranges, m, n - 1);
      PlaceKept(disk, ranges, m, n - 1, region, i);
    }
  }

  // What lies beyond the ranges read is as it was.
  lemma {:induction false} PlaceUntouched(disk: Disk, ranges: seq<Range>, n: nat, region: seq<nat>, i: nat)
    requires n <= |ranges| && TotalSize(ranges, n) <= i < |region|
    ensures ReadUpTo(disk, ranges, n, region)[i] == region[i]
  {
    if n > 0 { PlaceUntouched(disk, ranges, n - 1, region, i); }
  }

  // A read of 65536 sectors or more leaves a sector of its range unread.
  lemma {:induction false} LongLeavesGap(disk: Disk, ranges: seq<Range>, region: seq<nat>, n: nat) returns (i: nat)
    requires n < |ranges| && TotalSize(ranges, |ranges|) <= |region| && ranges[n].size >= 0x1_0000
    ensures i < TotalSize(ranges, |ranges|) && ReadUpTo(disk, ranges, |ranges|, region)[i] == region[i]
  {
    TotalMono(ranges, n + 1, |ranges|);
    TotalMono(ranges, n, n + 1);
    i := TotalSize(ranges, n) + ranges[n].size % 0x1_0000;
    PlaceUntouched(disk, ranges, n, region, i);
    PlaceKept(disk, ranges, n + 1, |ranges|, region, i);
  }

  /** The region holds what was asked for, whatever was on the disk and in memory. */
  ghost predicate Faithful(ranges: seq<Range>) {
    forall disk: Disk, region {:trigger ReadUpTo(disk, ranges, |ranges|, region)} ::
      |region| == TotalSize(ranges, |ranges|) ==>
      ReadUpTo(disk, ranges, |ranges|, region) == Contents(disk, Expand(ranges, |ranges|))
  }

  /** Reading many ranges is right exactly when each has fewer than 65536 sectors. */
  lemma {:induction false} FaithfulWhenShort(ranges: seq<Range>)
    ensures Faithful(ranges) <==> Short(ranges)
  {
    var all := |ranges|;
    if Short(ranges) {
      forall disk: Disk, region | |region| == TotalSize(ranges, all)
        ensures ReadUpTo(disk, ranges, all, region) == Contents(disk, Expand(ranges, all))
      {
        ReadsInOrder(disk, ranges, all, region);
      }
    } else {
      var n :| 0 <= n < |ranges| && ranges[n].size >= 0x1_0000;
      var ones: Disk := _ => 1;
      var zeros: seq<nat> := seq(TotalSize(ranges, all), _ => 0);
      var i := LongLeavesGap(ones, ranges, zeros, n);
      ExpandLength(ranges, all);
      assert Contents(ones, Expand(ranges, all))[i] == 1;
    }
  }

  /**
   * The server adds up the sizes, then reads range after range, each 512 bytes per sector
   * further on than the one before.
   */
  method HandleReadMany(disk: Disk, ranges: seq<Range>, memory: seq<nat>) returns (region: seq<nat>, sectors: nat)
    requires TotalSize(ranges, |ranges|) <= |memory|
    ensures sectors == TotalSize(ranges, |ranges|) && region == ReadUpTo(disk, ranges, |ranges|, memory[..sectors])
    ensures Short(ranges) ==> region == Contents(disk, Expand(ranges, |ranges|))
  {
    sectors := 0;
    for i := 0 to |ranges|
      invariant sectors == TotalSize(ranges, i)
    {
      sectors := sectors + ranges[i].size;
    }
    region := memory[..sectors];
    if Short(ranges) { ReadsInOrder(disk, ranges, |ranges|, region); }
    region := ReadEach(disk, ranges, region);
  }

  method ReadEach(disk: Disk, ranges: seq<Range>, memory: seq<nat>) returns (region: seq<nat>)
    requires TotalSize(ranges, |ranges|) <= |memory|
    ensures region == ReadUpTo(disk, ranges, |ranges|, memory)
  {
    region := memory;
    var paddr := 0;
    for i := 0 to |ranges|
      invariant paddr == 512 * TotalSize(ranges, i) && TotalSize(ranges, i) <= |memory|
      invariant region == ReadUpTo(disk, ranges, i, memory)
    {
      TotalMono(ranges, i + 1, |ranges|);
      assert paddr / 512 == TotalSize(ranges, i);
      region := Transfer(disk, ranges[i], region, paddr / 512);
      paddr := paddr + ranges[i].size * 512;
    }
  }

  /** Sector r of block j of the list is where it belongs. */
  ghost predicate SectorRead(disk: Disk, blocks: seq<nat>, offset: nat, s: nat, region: seq<nat>, j: nat, r: nat)
    requires j < |blocks|
  {
    j * s + r < |region| && region[j * s + r] == disk(offset + blocks[j] * s + r)
  }

  lemma {:induction false} AllSectorsRead(disk: Disk, blocks: seq<nat>, offset: nat, s: nat, region: seq<nat>)
    requires region == Contents(disk, Sectors(blocks, |blocks|, offset, s))
    ensures forall j: nat, r: nat :: j < |blocks| && r < s ==> SectorRead(disk, blocks, offset, s, region, j, r)
  {
    forall j: nat, r: nat | j < |blocks| && r < s ensures SectorRead(disk, blocks, offset, s, region, j, r) {
      SectorAt(blocks, |blocks|, offset, s, j, r);
      TimesIsProduct(j, s);
      TimesIsProduct(blocks[j], s);
    }
  }

  /**
   * A list of blocks read through the server: block after block, sector after sector. That is right
   * for every disk and memory exactly if no run is too long; otherwise a sector is what memory held.
   */
  method ReadBlocks(disk: Disk, blocks: seq<nat>, offset: nat, s: nat, memory: seq<nat>)
    returns (region: seq<nat>, ghost ranges: seq<Range>)
    requires s > 0 && |blocks| * s <= |memory|
    ensures |region| == |blocks| * s == |Sectors(blocks, |blocks|, offset, s)|
    ensures NoLongRun(blocks, s) ==> region == Contents(disk, Sectors(blocks, |blocks|, offset, s))
    ensures NoLongRun(blocks, s) ==>
              forall j: nat, r: nat :: j < |blocks| && r < s ==> SectorRead(disk, blocks, offset, s, region, j, r)
    ensures !NoLongRun(blocks, s) ==> exists i :: 0 <= i < |region| && region[i] == memory[i]
    ensures TotalSize(ranges, |ranges|) == |region| && region == ReadUpTo(disk, ranges, |ranges|, memory[..|region|])
    ensures Faithful(ranges) <==> NoLongRun(blocks, s)
  {
    var requests := Coalesce(blocks, offset, s);
    ranges := requests;
    FaithfulWhenShort(ranges);
    ExpandLength(ranges, |ranges|);
    SectorsLength(blocks, |blocks|, offset, s);
    TimesIsProduct(|blocks|, s);
    var sectors;
    region, sectors := HandleReadMany(disk, requests, memory);
    if Short(ranges) { AllSectorsRead(disk, blocks, offset, s, region); }
    if !Short(ranges) {
      var n :| 0 <= n < |ranges| && ranges[n].size >= 0x1_0000;
      var i := LongLeavesGap(disk, ranges, memory[..sectors], n);
    }
  }

  lemma {:induction false} SectorsLength(blocks: seq<nat>, n: nat, offset: nat, s: nat)
    requires n <= |blocks|
    ensures |Sectors(blocks, n, offset, s)| == Times(n, s)
  {
    if n > 0 { SectorsLength(blocks, n - 1, offset, s); }
  }
}
