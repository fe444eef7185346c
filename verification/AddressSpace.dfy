/**
  Address spaces (zion/object/address_space.cpp) and the memory objects behind them
  (zion/object/memory_object.cpp): page tables filled lazily from the interval map.
 */
module AddressSpace {
  import opened Common
  import opened Bits
  import opened PageTable
  import opened MemoryMapping
  import opened TreeLayout
  import Trees = BinaryTree

  // Pages of a variable object are allocated on first use; a fixed object or a view is
  // a stretch of physical memory.
  datatype MemoryObject =
    | Variable(pages: seq<Option<Frame>>)
    | Physical(paddr: nat, bytes: nat)
  {
    function Size(): nat {
      match this
      case Variable(pages) => 0x1000 * |pages|
      case Physical(_, bytes) => bytes
    }

    /** The frame behind a page of the object, if there is one yet. */
    function FrameOf(page: nat): Option<Frame> {
      match this
      case Variable(pages) => if page < |pages| then pages[page] else None
      case Physical(paddr, _) => Some(Target(paddr + 0x1000 * page))
    }
  }

  type Objects = map<nat, MemoryObject>

  /** The first address of a page whose address fits 48 bits. */
  function AddressOf(p: Page): nat {
    0x1000 * (p.pt + 512 * (p.pd + 512 * (p.pdp + 512 * p.pml4)))
  }

  ghost predicate IsUser(p: Page) { p.Proper() && p.pml4 < 256 }

  lemma {:induction false} AddressOfPage(v: nat)
    requires v < 0x1_0000_0000_0000
    ensures AddressOf(PageOf(v)) == PageAlign(v)
  {
    Digits(v);
    SmallMod(v / 0x1000, 0x10_0000_0000);
  }

  lemma {:induction false} PageOfAddress(p: Page)
    requires p.Proper()
    ensures AddressOf(p) % 0x1000 == 0 && AddressOf(p) < 0x1_0000_0000_0000 && PageOf(AddressOf(p)) == p
    ensures IsUser(p) ==> AddressOf(p) < 0x8000_0000_0000
  {
    var r3 := p.pdp + 512 * p.pml4;
    var r2 := p.pd + 512 * r3;
    var x := p.pt + 512 * r2;
    Digit(p.pdp, p.pml4);
    Digit(p.pd, r3);
    Digit(p.pt, r2);
    IndexOfPage(x, p.pt, r2, p.pd, r3, p.pdp, p.pml4);
  }

  lemma {:induction false} IndexOfPage(x: nat, d1: nat, r1: nat, d2: nat, r2: nat, d3: nat, d4: nat)
    requires x % 512 == d1 && x / 512 == r1 && r1 % 512 == d2 && r1 / 512 == r2 && r2 % 512 == d3
             && r2 / 512 == d4 < 512
    ensures PageOf(0x1000 * x) == Page(d4, d3, d2, d1)
  {
    IndexChain(0x1000 * x);
    assert (0x1000 * x) / 0x1000 == x;
  }

  lemma {:induction false} Digit(d: nat, rest: nat)
    requires d < 512
    ensures (d + 512 * rest) % 512 == d && (d + 512 * rest) / 512 == rest
  {
  }

  // The frame the interval map and the object give for an address of a mapping.
  function FrameAt(objects: Objects, m: Mapping, vaddr: nat): Option<Frame>
    requires m.Contains(vaddr)
  {
    if m.obj in objects then objects[m.obj].FrameOf((vaddr - m.base) / 0x1000) else None
  }

  ghost predicate BackedBy(tree: Mappings, objects: Objects, p: Page, f: Frame, k: int) {
    k in tree && tree[k].Contains(AddressOf(p)) && FrameAt(objects, tree[k], AddressOf(p)) == Some(f)
  }

  /** A mapping and its object give this frame for this page. */
  ghost predicate Backed(tree: Mappings, objects: Objects, p: Page, f: Frame) {
    exists k :: BackedBy(tree, objects, p, f, k)
  }

  // Mappings end where their object does.
  ghost predicate Fitting(tree: Mappings, objects: Objects) {
    forall k :: k in tree ==>
                  tree[k].obj in objects && tree[k].limit == Add64(tree[k].base, objects[tree[k].obj].Size())
  }

  /** The page of the address lies in the mapping from its first address on, in one page of the object. */
  predicate InStep(m: Mapping, vaddr: nat) {
    m.base <= PageAlign(vaddr) && m.base <= vaddr && (PageAlign(vaddr) - m.base) / 0x1000 == (vaddr - m.base) / 0x1000
  }

  // Objects only gain frames.
  ghost predicate Grown(objects: Objects, objects': Objects) {
    forall o :: o in objects ==> o in objects' && objects'[o].Size() == objects[o].Size()
                                 && forall i: nat :: objects[o].FrameOf(i).Some? ==>
                                                       objects'[o].FrameOf(i) == objects[o].FrameOf(i)
  }

  lemma {:induction false} BackedStays(tree: Mappings, objects: Objects, tree': Mappings, objects': Objects, p: Page,
                                       f: Frame, k: int)
    requires BackedBy(tree, objects, p, f, k) && Grown(objects, objects')
    requires k in tree' && tree'[k] == tree[k]
    ensures Backed(tree', objects', p, f)
  {
    assert BackedBy(tree', objects', p, f, k);
  }

  /** Addresses of a mapping that begins on a page boundary are all in step. */
  lemma {:induction false} AlignedInStep(m: Mapping, vaddr: nat)
    requires m.base % 0x1000 == 0 && m.base <= vaddr
    ensures InStep(m, vaddr)
  {
  }

  /** One call on an address space. */
  datatype Call =
    | NewVariable(size: nat)
    | NewPhysical(paddr: nat, bytes: nat)
    | MapAt(vaddr: nat, obj: nat)
    | MapAnywhere(obj: nat, align: nat)
    | Touch(vaddr: nat)
    | FreeRange(base: nat, limit: nat, dying: bool)
  {
    predicate Legal() {
      match this
      case NewVariable(size) => size < U64_LIMIT
      case NewPhysical(_, bytes) => bytes < U64_LIMIT
      case MapAt(vaddr, _) => vaddr < U64_LIMIT
      case MapAnywhere(_, align) => align < U64_LIMIT
      case Touch(vaddr) => Canonical(vaddr)
      case FreeRange(base, limit, dying) => limit < U64_LIMIT && (dying || limit <= base || SweepEnds(base, limit))
    }
  }

  datatype Fault = Unresolved | Resolved | Panic

  // ----- What calls do to a state -----

  /** The state of an address space, as a value. */
  datatype Snap = Snap(mem: Memory, root: Frame, free: seq<Frame>, nodes: Trees.Shape<Mapping>, objects: Objects,
                       next: nat) {
    ghost function Tree(): Mappings { nodes.entries }

    ghost function Layout(): Layout { Trees.LayoutOf(nodes) }
  }

  ghost function LookupIn(s: Snap, p: Page): Option<Frame> { Walk(s.mem, s.root, p, LEVELS) }

  /** Every translation of a user page is the frame its mapping gives. */
  ghost predicate CoherentIn(s: Snap) {
    forall p: Page :: IsUser(p) && LookupIn(s, p).Some? ==> Backed(s.Tree(), s.objects, p, LookupIn(s, p).value)
  }

  // Coherence does not depend on what is mapped next.
  lemma {:induction false} SameCoherence(s: Snap, s': Snap)
    requires s'.(next := s.next) == s
    ensures CoherentIn(s) <==> CoherentIn(s')
  {
    forall p: Page ensures LookupIn(s, p) == LookupIn(s', p) {
    }
  }

  ghost predicate SoundIn(s: Snap) {
    && Disjoint(s.Tree()) && s.nodes.byKey.Keys == s.Tree().Keys && Fitting(s.Tree(), s.objects)
    && IsBoundary(s.next)
  }

  // m is the mapping that has the address.
  ghost predicate Maps(tree: Mappings, m: Mapping, vaddr: nat) {
    m.base in tree && tree[m.base] == m && m.Contains(vaddr)
  }

  lemma {:induction false} OneMaps(tree: Mappings, vaddr: nat, m: Mapping)
    requires Disjoint(tree) && Maps(tree, m, vaddr)
    ensures forall n :: Maps(tree, n, vaddr) ==> n == m
  {
    forall n | Maps(tree, n, vaddr) ensures n == m { ContainsOnce(tree, n.base, m.base, vaddr); }
  }

  lemma {:induction false} NoneMaps(tree: Mappings, vaddr: nat)
    requires forall k :: k in tree ==> !tree[k].Contains(vaddr)
    ensures forall m :: !Maps(tree, m, vaddr)
  {
  }

  // The page of the object has no frame yet.
  predicate Needs(objects: Objects, obj: nat, page: nat) {
    obj in objects && objects[obj].Variable? && page < |objects[obj].pages| && objects[obj].pages[page] == None
  }

  /** The objects with the next free frame behind the page, if it has none. */
  function Filled(objects: Objects, obj: nat, page: nat, free: seq<Frame>): Objects {
    if Needs(objects, obj, page) && free != [] then
      objects[obj := Variable(objects[obj].pages[page := Some(free[0])])]
    else objects
  }

  predicate CanFill(s: Snap, obj: nat, page: nat) { !Needs(s.objects, obj, page) || s.free != [] }

  /** The objects with the page filled, and the frames that are left. */
  function AfterFill(s: Snap, obj: nat, page: nat): Snap {
    s.(objects := Filled(s.objects, obj, page, s.free),
       free := if Needs(s.objects, obj, page) && s.free != [] then s.free[1..] else s.free)
  }

  function PageIn(m: Mapping, vaddr: nat): nat
    requires m.Contains(vaddr)
  {
    (vaddr - m.base) / 0x1000
  }

  /** There are pages enough for a fault at the address, and no translation in its way. */
  ghost predicate CanMap(s: Snap, m: Mapping, vaddr: nat)
    requires m.Contains(vaddr)
  {
    HasRoom(s, PageOf(vaddr), if Needs(s.objects, m.obj, PageIn(m, vaddr)) then 1 else 0)
  }

  // The page has no translation, and there are frames for the tables it lacks and some more.
  ghost predicate HasRoom(s: Snap, p: Page, more: nat)
    requires p.Proper()
  {
    LookupIn(s, p) == None && Missing(s.mem, s.root, p, LEVELS) + more <= |s.free|
  }

  /** The fault gives the page of the address its frame, with a new one behind it if need be, or only takes that. */
  ghost predicate Faulted(s: Snap, m: Mapping, vaddr: nat, s': Snap)
    requires m.Contains(vaddr)
  {
    && s'.nodes == s.nodes && s'.next == s.next && s'.objects == Filled(s.objects, m.obj, PageIn(m, vaddr), s.free)
    && forall q: Page :: q.Proper() ==>
         LookupIn(s', q) == if CanMap(s, m, vaddr) && q == PageOf(vaddr) then FrameAt(s'.objects, m, vaddr)
                            else LookupIn(s, q)
  }

  /** What comes of a fault at an address, which at most one mapping has. */
  ghost predicate Touched(s: Snap, vaddr: nat, r: Fault, s': Snap) {
    if vaddr < 0x1000 || forall m :: !Maps(s.Tree(), m, vaddr) then
      r == Unresolved && s' == s
    else
      forall m :: Maps(s.Tree(), m, vaddr) ==>
                    r == (if CanMap(s, m, vaddr) then Resolved else Panic) && Faulted(s, m, vaddr, s')
  }

  // Giving one page a frame, for which the tables it lacks may be needed.
  ghost predicate FrameMapped(s: Snap, p: Page, f: Frame, ok: bool, s': Snap)
    requires p.Proper()
  {
    && s'.nodes == s.nodes && s'.next == s.next && s'.objects == s.objects && (ok <==> HasRoom(s, p, 0))
    && forall q: Page :: q.Proper() ==> LookupIn(s', q) == if ok && q == p then Some(f) else LookupIn(s, q)
  }

  // A fault is filling the page, which takes one frame, and then mapping it.
  lemma {:induction false} FillThenMap(s: Snap, m: Mapping, vaddr: nat, f: Frame, ok: bool, s': Snap)
    requires m.Contains(vaddr)
    requires var filled := AfterFill(s, m.obj, PageIn(m, vaddr));
             if CanFill(s, m.obj, PageIn(m, vaddr))
             then FrameMapped(filled, PageOf(vaddr), f, ok, s') && FrameAt(filled.objects, m, vaddr) == Some(f)
             else !ok && s' == filled
    ensures (ok <==> CanMap(s, m, vaddr)) && Faulted(s, m, vaddr, s')
  {
    forall q: Page ensures LookupIn(AfterFill(s, m.obj, PageIn(m, vaddr)), q) == LookupIn(s, q) {
    }
  }

  lemma {:induction false} FillGrows(objects: Objects, obj: nat, page: nat, free: seq<Frame>)
    ensures Grown(objects, Filled(objects, obj, page, free))
  {
    if Needs(objects, obj, page) && free != [] { AllocationGrows(objects, obj, page, free[0]); }
  }

  /** A fault keeps a coherent state coherent unless it gives a user page a frame other than the map does. */
  lemma {:induction false} FaultCoherence(s: Snap, m: Mapping, vaddr: nat, s': Snap)
    requires SoundIn(s) && CoherentIn(s) && Maps(s.Tree(), m, vaddr) && Canonical(vaddr) && Faulted(s, m, vaddr, s')
    ensures CoherentIn(s') <==> !(vaddr < 0x8000_0000_0000 && CanMap(s, m, vaddr) && !SameFrame(s, m, vaddr))
  {
    FillGrows(s.objects, m.obj, PageIn(m, vaddr), s.free);
    GrowthKeepsBacked(s.Tree(), s.objects, s'.objects);
    PageOfObject(s.Tree(), s.objects, m, vaddr);
    if vaddr >= 0x8000_0000_0000 { KernelPage(vaddr); } else { UserPage(vaddr); }
  }

  /** The map gives the page of the address the frame of the address from its first address on. */
  ghost predicate SameFrame(s: Snap, m: Mapping, vaddr: nat)
    requires m.Contains(vaddr)
  {
    var next := Filled(s.objects, m.obj, PageIn(m, vaddr), s.free);
    FrameAt(next, m, vaddr).Some? && Backed(s.Tree(), next, PageOf(vaddr), FrameAt(next, m, vaddr).value)
  }

  /** A fault at a user address that is resolved with a frame of another page. */
  ghost predicate FaultBreaks(s: Snap, vaddr: nat) {
    0x1000 <= vaddr < 0x8000_0000_0000
    && exists m :: Maps(s.Tree(), m, vaddr) && CanMap(s, m, vaddr) && !SameFrame(s, m, vaddr)
  }

  lemma {:induction false} FaultBreaksExactly(s: Snap, m: Mapping, vaddr: nat, s': Snap)
    requires SoundIn(s) && Maps(s.Tree(), m, vaddr) && Canonical(vaddr) && vaddr >= 0x1000 && Faulted(s, m, vaddr, s')
    ensures Touched(s, vaddr, if CanMap(s, m, vaddr) then Resolved else Panic, s')
    ensures CoherentIn(s) ==> (CoherentIn(s') <==> !BreaksIn(s, Call.Touch(vaddr)))
  {
    OneMaps(s.Tree(), vaddr, m);
    if CoherentIn(s) { FaultCoherence(s, m, vaddr, s'); }
  }

  ghost predicate CanFree(tree: Mappings, base: nat, limit: nat) {
    base < limit && !Straddled(tree, base) && !Straddled(tree, limit)
  }

  /** Freeing the range leaves the translation of the page without a mapping. */
  ghost predicate Stranded(s: Snap, base: nat, limit: nat, dying: bool, p: Page)
    requires base < limit
  {
    && IsUser(p) && LookupIn(s, p).Some? && (dying || p !in SweptPages(base, limit))
    && !HasPage(RemainingIn(s.Tree(), s.Layout(), base, limit), p)
  }

  /** The range is freed: what is left of the mappings, and of the translations unless the process is dying. */
  ghost predicate Freed(s: Snap, base: nat, limit: nat, dying: bool, s': Snap)
    requires base < limit
  {
    && s'.objects == s.objects && s'.next == s.next && s'.Tree() == RemainingIn(s.Tree(), s.Layout(), base, limit)
    && forall q: Page :: q.Proper() ==>
         LookupIn(s', q) == if !dying && q in SweptPages(base, limit) then None else LookupIn(s, q)
  }

  /** Some page that begins in the range has a translation. */
  ghost predicate Resident(s: Snap, base: nat, limit: nat) {
    exists p: Page :: IsUser(p) && base <= AddressOf(p) < limit && LookupIn(s, p) != None
  }

  // Both conditions.
  lemma {:induction false} FreeCoherence(s: Snap, base: nat, limit: nat, dying: bool, splits: bool, s': Snap)
    requires SoundIn(s) && CanFree(s.Tree(), base, limit) && Freed(s, base, limit, dying, s')
    requires !splits ==> Without(s.Tree(), base, limit, s'.Tree())
    ensures CoherentIn(s) ==> (CoherentIn(s') <==> !BreaksIn(s, FreeRange(base, limit, dying)))
    ensures CoherentIn(s) && !splits ==> (CoherentIn(s') <==> !(dying && Resident(s, base, limit)))
  {
    if CoherentIn(s) {
      FreeBreaksExactly(s, base, limit, dying, s');
      if !splits { FreeUnsplit(s, base, limit, dying, s'); }
    }
  }

  /** Freeing a range keeps a coherent state coherent unless a translation is left without a mapping. */
  lemma {:induction false} FreeBreaksExactly(s: Snap, base: nat, limit: nat, dying: bool, s': Snap)
    requires SoundIn(s) && CoherentIn(s) && CanFree(s.Tree(), base, limit) && Freed(s, base, limit, dying, s')
    ensures CoherentIn(s') <==> !FreeBreaks(s, base, limit, dying)
  {
    LessIsBacked(s.Tree(), s'.Tree(), s.objects);
    if !CoherentIn(s') {
      var p: Page :| IsUser(p) && LookupIn(s', p).Some? && !Backed(s'.Tree(), s.objects, p, LookupIn(s', p).value);
      assert Stranded(s, base, limit, dying, p);
    }
  }

  /** When no other mapping is lost, only translations of the range can be left. */
  lemma {:induction false} FreeUnsplit(s: Snap, base: nat, limit: nat, dying: bool, s': Snap)
    requires SoundIn(s) && CoherentIn(s) && CanFree(s.Tree(), base, limit) && Freed(s, base, limit, dying, s')
    requires Without(s.Tree(), base, limit, s'.Tree())
    ensures CoherentIn(s') <==> !(dying && Resident(s, base, limit))
  {
    FreeSplitsBacked(s.Tree(), s'.Tree(), s.objects, base, limit);
    SweepClears(base, limit);
  }

  ghost predicate FreeBreaks(s: Snap, base: nat, limit: nat, dying: bool) {
    CanFree(s.Tree(), base, limit) && exists p :: Stranded(s, base, limit, dying, p)
  }

  /** The call makes a coherent state incoherent. */
  ghost predicate BreaksIn(s: Snap, call: Call) {
    match call
    case Touch(vaddr) => FaultBreaks(s, vaddr)
    case FreeRange(base, limit, dying) => FreeBreaks(s, base, limit, dying)
    case _ => false
  }

  /** The mapping of an object at an address, if there is room for it, is new. */
  ghost predicate Added(s: Snap, v: nat, obj: nat, s': Snap) {
    s'.Tree() == if v < U64_LIMIT && obj in s.objects && Fits(s, v, obj) then s.Tree()[v := NewMapping(s, v, obj)]
                 else s.Tree()
  }

  ghost function NewMapping(s: Snap, v: nat, obj: nat): Mapping
    requires v < U64_LIMIT && obj in s.objects
  {
    Mapping(v, Add64(v, s.objects[obj].Size()), obj)
  }

  ghost predicate Fits(s: Snap, v: nat, obj: nat)
    requires v < U64_LIMIT && obj in s.objects
  {
    Unobstructed(s.Tree(), NewMapping(s, v, obj))
  }

  /**
    The object is mapped at the next address that meets the alignment, if there is space for it and nothing in
    the way, and the region is used up to its end either way; an object of size zero changes nothing.
   */
  ghost predicate MappedAnywhere(s: Snap, obj: nat, align: nat, s': Snap)
    requires IsBoundary(s.next) && align < U64_LIMIT
  {
    && s'.(nodes := s.nodes, next := s.next) == s
    && if obj !in s.objects || s.objects[obj].Size() == 0 then s' == s
       else
         var size, v := s.objects[obj].Size(), NextAddress(s.next, align);
         && s'.next == RangeEnd(v, size)
         && if HasSpace(s.next, size, align) then Added(s, v, obj, s') else s'.Tree() == s.Tree()
  }

  lemma {:induction false} AnywhereStep(s: Snap, obj: nat, align: nat, ok: bool, s': Snap)
    requires IsBoundary(s.next) && align < U64_LIMIT && obj in s.objects && s'.(nodes := s.nodes, next := s.next) == s
    requires HasSpace(s.next, s.objects[obj].Size(), align)
    requires var v := NextAddress(s.next, align);
             && s'.next == RangeEnd(v, s.objects[obj].Size()) && (ok <==> Fits(s, v, obj))
             && s'.Tree() == if ok then s.Tree()[v := NewMapping(s, v, obj)] else s.Tree()
    ensures MappedAnywhere(s, obj, align, s')
  {
  }

  /** One object is new, and nothing else. */
  ghost predicate Created(s: Snap, obj: nat, o: MemoryObject, s': Snap) {
    obj !in s.objects && s' == s.(objects := s.objects[obj := o])
  }

  /** Whole pages for at least the given size, none of them allocated yet. */
  ghost predicate Unallocated(o: MemoryObject, size: nat) {
    && o.Variable? && (size + 0x1000 <= U64_LIMIT ==> size <= o.Size() < size + 0x1000)
    && forall i: nat :: o.FrameOf(i) == None
  }

  /** What the call does to the mappings, the objects and the translations. */
  ghost predicate Stepped(s: Snap, call: Call, s': Snap) {
    match call
    case NewVariable(size) => exists obj, o :: Created(s, obj, o, s') && Unallocated(o, size)
    case NewPhysical(paddr, bytes) => exists obj :: Created(s, obj, Physical(paddr, bytes), s')
    case MapAt(v, obj) => s'.(nodes := s.nodes) == s && Added(s, v, obj, s')
    case MapAnywhere(obj, align) => align < U64_LIMIT && IsBoundary(s.next) && MappedAnywhere(s, obj, align, s')
    case Touch(vaddr) => exists r :: Touched(s, vaddr, r, s')
    case FreeRange(base, limit, dying) =>
      if CanFree(s.Tree(), base, limit) then Freed(s, base, limit, dying, s') else s' == s
  }

  /** A call from one state to the next, and exactly when it breaks coherence. */
  ghost predicate StepOf(s: Snap, call: Call, s': Snap) {
    && SoundIn(s) && SoundIn(s') && Stepped(s, call, s')
    && (CoherentIn(s) ==> (CoherentIn(s') <==> !BreaksIn(s, call)))
    && KeepsGuard(s, s')
  }

  // Tables that are guarded stay so.
  ghost predicate KeepsGuard(s: Snap, s': Snap) { Guarded(s.mem, s.root) ==> Guarded(s'.mem, s'.root) }

  lemma {:induction false} MapStep(s: Snap, v: nat, obj: nat, ok: bool, s': Snap)
    requires SoundIn(s) && SoundIn(s') && (CoherentIn(s) ==> CoherentIn(s')) && s'.(nodes := s.nodes) == s
    requires v < U64_LIMIT && obj in s.objects && (ok <==> Fits(s, v, obj))
    requires s'.Tree() == if ok then s.Tree()[v := NewMapping(s, v, obj)] else s.Tree()
    ensures StepOf(s, MapAt(v, obj), s')
  {
  }

  /** The states of a run, from before the first call on. */
  ghost predicate IsTrace(trace: seq<Snap>, calls: seq<Call>) { Begins(trace, calls, |calls|) }

  // The states of the first n calls.
  ghost predicate Begins(trace: seq<Snap>, calls: seq<Call>, n: nat) {
    && |trace| == n + 1 && n <= |calls|
    && forall i {:trigger StepOf(trace[i], calls[i], trace[i + 1])} :: 0 <= i < n ==>
         StepOf(trace[i], calls[i], trace[i + 1])
  }

  lemma {:induction false} StepAt(trace: seq<Snap>, calls: seq<Call>, i: nat)
    requires IsTrace(trace, calls) && i < |calls|
    ensures StepOf(trace[i], calls[i], trace[i + 1])
  {
  }

  // What every step carries on holds to the end.
  lemma {:induction false} Carried(holds: seq<bool>, n: nat)
    requires n < |holds| && holds[0] && forall i :: 0 <= i < |holds| - 1 && holds[i] ==> holds[i + 1]
    ensures holds[n]
  {
    if n > 0 { Carried(holds, n - 1); }
  }

  /** A run stays coherent throughout exactly when no call of it breaks coherence in its turn. */
  lemma {:induction false} CoherentThroughout(trace: seq<Snap>, calls: seq<Call>)
    requires IsTrace(trace, calls) && CoherentIn(trace[0])
    ensures (forall i {:trigger CoherentIn(trace[i])} :: 0 <= i <= |calls| ==> CoherentIn(trace[i])) <==>
              NoneBreaks(trace, calls)
  {
    if NoneBreaks(trace, calls) {
      forall i | 0 <= i <= |calls| ensures CoherentIn(trace[i]) { CoherentWhile(trace, calls, i); }
    }
    if forall i {:trigger CoherentIn(trace[i])} :: 0 <= i <= |calls| ==> CoherentIn(trace[i]) {
      forall i | 0 <= i < |calls| ensures !BreaksIn(trace[i], calls[i]) { StepCoheres(trace, calls, i); }
    }
  }

  ghost predicate NoneBreaks(trace: seq<Snap>, calls: seq<Call>)
    requires |trace| == |calls| + 1
  {
    forall i {:trigger BreaksIn(trace[i], calls[i])} :: 0 <= i < |calls| ==> !BreaksIn(trace[i], calls[i])
  }

  lemma {:induction false} CoherentWhile(trace: seq<Snap>, calls: seq<Call>, n: nat)
    requires IsTrace(trace, calls) && CoherentIn(trace[0]) && NoneBreaks(trace, calls) && n <= |calls|
    ensures CoherentIn(trace[n])
  {
    var holds := seq(|trace|, i requires 0 <= i < |trace| => CoherentIn(trace[i]));
    forall i | 0 <= i < |holds| - 1 && holds[i] ensures holds[i + 1] { StepCoheres(trace, calls, i); }
    Carried(holds, n);
  }

  lemma {:induction false} StepCoheres(trace: seq<Snap>, calls: seq<Call>, i: nat)
    requires IsTrace(trace, calls) && i < |calls|
    ensures CoherentIn(trace[i]) ==> (CoherentIn(trace[i + 1]) <==> !BreaksIn(trace[i], calls[i]))
  {
    StepAt(trace, calls, i);
  }

  lemma {:induction false} GuardedPage(s: Snap, p: Page)
    requires Guarded(s.mem, s.root) && p.Proper()
    ensures LookupIn(s, p).Some? ==> Rights(Path(s.mem, s.root, p, LEVELS)) == Access(true, p.pml4 < 256)
  {
    if LookupIn(s, p).Some? { GuardedRights(s.mem, s.root, p); }
  }

  // Guarded tables stay guarded.
  lemma {:induction false} StaysGuarded(trace: seq<Snap>, calls: seq<Call>, n: nat)
    requires IsTrace(trace, calls) && Guarded(trace[0].mem, trace[0].root) && n <= |calls|
    ensures Guarded(trace[n].mem, trace[n].root)
  {
    var holds := seq(|trace|, i requires 0 <= i < |trace| => Guarded(trace[i].mem, trace[i].root));
    forall i | 0 <= i < |holds| - 1 && holds[i] ensures holds[i + 1] { StepGuards(trace, calls, i); }
    Carried(holds, n);
  }

  lemma {:induction false} StepGuards(trace: seq<Snap>, calls: seq<Call>, i: nat)
    requires IsTrace(trace, calls) && i < |calls|
    ensures KeepsGuard(trace[i], trace[i + 1])
  {
    StepAt(trace, calls, i);
  }

  /** Through a run from guarded tables, every page is writable, and open to user mode exactly in the lower half. */
  lemma {:induction false} GuardedThroughout(trace: seq<Snap>, calls: seq<Call>, n: nat, p: Page)
    requires IsTrace(trace, calls) && Guarded(trace[0].mem, trace[0].root) && n <= |calls| && p.Proper()
    ensures LookupIn(trace[n], p).Some? ==>
              Rights(Path(trace[n].mem, trace[n].root, p, LEVELS)) == Access(true, p.pml4 < 256)
  {
    StaysGuarded(trace, calls, n);
    GuardedPage(trace[n], p);
  }

  /** Calls that never break coherence: mapping on page boundaries, freeing from address 0 on, and the rest. */
  predicate Careful(call: Call) {
    match call
    case MapAt(vaddr, _) => vaddr % 0x1000 == 0
    case FreeRange(base, _, dying) => base == 0 && !dying
    case _ => true
  }

  ghost predicate AlignedIn(s: Snap) { forall k :: k in s.Tree() ==> s.Tree()[k].base % 0x1000 == 0 }

  /** Faults in step with their mapping never break coherence. */
  lemma {:induction false} FaultInStep(s: Snap, vaddr: nat)
    requires SoundIn(s) && forall m :: Maps(s.Tree(), m, vaddr) ==> InStep(m, vaddr)
    ensures !FaultBreaks(s, vaddr)
  {
    forall m | vaddr < 0x8000_0000_0000 && Maps(s.Tree(), m, vaddr) && CanMap(s, m, vaddr)
      ensures SameFrame(s, m, vaddr)
    {
      var next := Filled(s.objects, m.obj, PageIn(m, vaddr), s.free);
      PageOfObject(s.Tree(), s.objects, m, vaddr);
      assert FrameAt(next, m, vaddr).Some?;
      FaultIsBacked(s.Tree(), next, m, vaddr, FrameAt(next, m, vaddr).value);
    }
  }

  // Nothing is below address 0, so freeing from there on loses nothing else.
  lemma {:induction false} FreeFromZero(s: Snap, limit: nat)
    requires SoundIn(s) && CoherentIn(s)
    ensures !FreeBreaks(s, 0, limit, false)
  {
    if CanFree(s.Tree(), 0, limit) {
      forall p ensures !Stranded(s, 0, limit, false, p) {
        if IsUser(p) && LookupIn(s, p).Some? && p !in SweptPages(0, limit) {
          SweepClears(0, limit);
          var k :| BackedBy(s.Tree(), s.objects, p, LookupIn(s, p).value, k);
          assert k in RemainingIn(s.Tree(), s.Layout(), 0, limit) by { NoneBelowZero(s, limit, k); }
        }
      }
    }
  }

  lemma {:induction false} NoneBelowZero(s: Snap, limit: nat, k: int)
    requires SoundIn(s)
    ensures !LostAbove(s.Layout(), 0, limit, k)
  {
    forall j | j in s.Layout() ensures j >= 0 { assert j in s.nodes.byKey.Keys; }
  }

  lemma {:induction false} AnywhereAligned(s: Snap, obj: nat, align: nat, s': Snap)
    requires IsBoundary(s.next) && align < U64_LIMIT && AlignedIn(s) && MappedAnywhere(s, obj, align, s')
    ensures AlignedIn(s')
  {
    if obj in s.objects { AddedAligned(s, NextAddress(s.next, align), obj, s'); }
  }

  lemma {:induction false} AddedAligned(s: Snap, v: nat, obj: nat, s': Snap)
    requires AlignedIn(s) && IsBoundary(v)
    ensures s'.Tree() == s.Tree() || Added(s, v, obj, s') ==> AlignedIn(s')
  {
  }

  lemma {:induction false} CarefulStep(s: Snap, call: Call, s': Snap)
    requires StepOf(s, call, s') && Careful(call) && AlignedIn(s) && CoherentIn(s)
    ensures AlignedIn(s') && CoherentIn(s')
  {
    match call
    case MapAnywhere(obj, align) => AnywhereAligned(s, obj, align, s');
    case Touch(vaddr) =>
      forall m | Maps(s.Tree(), m, vaddr) ensures InStep(m, vaddr) { AlignedInStep(m, vaddr); }
      FaultInStep(s, vaddr);
    case FreeRange(base, limit, dying) => FreeFromZero(s, limit);
    case _ =>
  }

  /** Runs of careful calls stay coherent. */
  lemma {:induction false} CarefulRun(trace: seq<Snap>, calls: seq<Call>, n: nat)
    requires IsTrace(trace, calls) && n <= |calls| && (forall i :: 0 <= i < |calls| ==> Careful(calls[i]))
    requires AlignedIn(trace[0]) && CoherentIn(trace[0])
    ensures AlignedIn(trace[n]) && CoherentIn(trace[n])
  {
    if n > 0 {
      CarefulRun(trace, calls, n - 1);
      StepAt(trace, calls, n - 1);
      CarefulStep(trace[n - 1], calls[n - 1], trace[n]);
    }
  }

  class AddressSpace {
    const pt: PageTables
    const mm: MemoryMappingTree
    var objects: Objects
    var nextObject: nat
    var nextMemmapAddr: nat

    ghost predicate Valid()
      reads this, pt, mm.nodes
    {
      && pt.Valid() && mm.Valid() && Fitting(mm.Tree(), objects)
      && (forall o :: o in objects ==> o < nextObject && objects[o].Size() < U64_LIMIT)
      && IsBoundary(nextMemmapAddr)
    }

    ghost function Snapshot(): Snap
      reads this, pt, mm.nodes
    {
      Snap(pt.mem, pt.root, pt.free, mm.nodes.sh, objects, nextMemmapAddr)
    }

    ghost predicate Coherent()
      reads this, pt, mm.nodes
    {
      CoherentIn(Snapshot())
    }

    ghost predicate Breaks(call: Call)
      reads this, pt, mm.nodes
    {
      BreaksIn(Snapshot(), call)
    }

    constructor (tables: PageTables)
      requires tables.Valid() && forall p: Page :: IsUser(p) ==> tables.Lookup(p) == None
      ensures Valid() && Coherent() && pt == tables && fresh(mm) && fresh(mm.nodes)
      ensures mm.Tree() == map[] && objects == map[] && nextMemmapAddr == 0x20_0000_0000
    {
      pt := tables;
      mm := new MemoryMappingTree();
      objects := map[];
      nextObject := 0;
      nextMemmapAddr := 0x20_0000_0000;
    }

    /** A new object of at least the given size, in whole pages, none of them allocated yet. */
    method CreateVariableObject(size: nat) returns (obj: nat)
      requires Valid() && size < U64_LIMIT
      modifies this`objects, this`nextObject
      ensures Valid() && (old(Coherent()) ==> Coherent()) && Grown(old(objects), objects)
      ensures obj !in old(objects) && obj in objects && Unallocated(objects[obj], size)
      ensures objects == old(objects)[obj := objects[obj]]
    {
      var size_ := size;
      if size % 0x1000 != 0 {
        size_ := Add64(PageAlign(size), 0x1000);
      }
      obj := nextObject;
      nextObject := nextObject + 1;
      objects := objects[obj := Variable(seq(size_ / 0x1000, i => None))];
      GrowthKeepsBacked(mm.Tree(), old(objects), objects);
    }

    /** A new object over a stretch of physical memory. */
    method CreatePhysicalObject(paddr: nat, bytes: nat) returns (obj: nat)
      requires Valid() && bytes < U64_LIMIT
      modifies this`objects, this`nextObject
      ensures Valid() && (old(Coherent()) ==> Coherent()) && Grown(old(objects), objects)
      ensures obj !in old(objects) && objects == old(objects)[obj := Physical(paddr, bytes)]
    {
      obj := nextObject;
      nextObject := nextObject + 1;
      objects := objects[obj := Physical(paddr, bytes)];
      GrowthKeepsBacked(mm.Tree(), old(objects), objects);
    }

    /**
      The next unused aligned range of the memory map region.  False stands for a panic, exactly when the
      size is zero or the range ends beyond the region.
     */
    method GetNextMemMapAddr(size: nat, align: nat) returns (ok: bool, address: nat)
      requires IsBoundary(nextMemmapAddr) && size < U64_LIMIT && align < U64_LIMIT
      modifies this`nextMemmapAddr
      ensures IsBoundary(nextMemmapAddr) && IsBoundary(address)
      ensures ok <==> HasSpace(old(nextMemmapAddr), size, align)
      ensures size > 0 ==> address == NextAddress(old(nextMemmapAddr), align)
                           && nextMemmapAddr == RangeEnd(address, size)
      ensures size == 0 ==> nextMemmapAddr == old(nextMemmapAddr)
      ensures ok && old(nextMemmapAddr) <= HALF && size <= HALF && align <= HALF ==>
                old(nextMemmapAddr) <= address && address + size <= nextMemmapAddr
    {
      if size == 0 {
        return false, 0;
      }
      address := nextMemmapAddr;
      if align > 0 {
        ghost var x;
        address, x := AlignUp(nextMemmapAddr, align);
        FirstIsNext(nextMemmapAddr, align, x);
        if old(nextMemmapAddr) <= HALF && align <= HALF { AlignedByHalf(nextMemmapAddr, align, x); }
      }
      RoundedUp(address, size);
      nextMemmapAddr := Add64(address, Add64(PageAlign(size - 1), 0x1000));
      ok := nextMemmapAddr < 0x30_0000_0000;
    }

    /** Maps an object at the next aligned address of the region; None stands for a panic. */
    method MapInMemoryObjectAnywhere(obj: nat, align: nat) returns (r: Option<ErrorCode>, vaddr: nat)
      requires Valid() && obj in objects && align < U64_LIMIT
      modifies this`nextMemmapAddr, mm.nodes
      ensures Valid() && (old(Coherent()) ==> Coherent()) && MappedAnywhere(old(Snapshot()), obj, align, Snapshot())
      ensures r == None <==> !HasSpace(old(nextMemmapAddr), objects[obj].Size(), align)
      ensures r != None ==> vaddr == NextAddress(old(nextMemmapAddr), align)
      ensures r != None ==> r == Some(if Fits(old(Snapshot()), vaddr, obj) then OK else ALREADY_EXISTS)
    {
      ghost var s := Snapshot();
      var ok;
      ok, vaddr := GetNextMemMapAddr(objects[obj].Size(), align);
      SameCoherence(s, Snapshot());
      if !ok {
        return None, 0;
      }
      var code := MapInMemoryObject(vaddr, obj);
      AnywhereStep(s, obj, align, code == OK, Snapshot());
      r := Some(code);
    }

    /** Maps an object at an address. */
    method MapInMemoryObject(vaddr: nat, obj: nat) returns (code: ErrorCode)
      requires Valid() && obj in objects && vaddr < U64_LIMIT
      modifies mm.nodes
      ensures Valid() && (old(Coherent()) ==> Coherent())
      ensures code == OK <==> Fits(old(Snapshot()), vaddr, obj)
      ensures code == OK ==> mm.Tree() == old(mm.Tree())[vaddr := NewMapping(old(Snapshot()), vaddr, obj)]
      ensures code != OK ==> code == ALREADY_EXISTS && mm.Tree() == old(mm.Tree())
      ensures forall k :: old(mm.nodes.RootIs(k)) ==> mm.nodes.RootIs(k)
      ensures code == OK && old(mm.Tree()) == map[] ==> mm.nodes.RootIs(vaddr)
    {
      ghost var s := Snapshot();
      code := mm.AddInMemoryObject(vaddr, obj, objects[obj].Size());
      AddCoherence(s, vaddr, NewMapping(s, vaddr, obj), Snapshot());
    }

    /** The physical page behind a page of an object, allocated on first use; false stands for a panic. */
    method PageNumberToPhysAddr(obj: nat, page: nat) returns (ok: bool, phys: nat)
      requires Valid() && obj in objects && (objects[obj].Variable? ==> page < |objects[obj].pages|)
      modifies this`objects, pt`free
      ensures Valid() && Snapshot() == AfterFill(old(Snapshot()), obj, page)
      ensures ok <==> CanFill(old(Snapshot()), obj, page)
      ensures ok ==> objects[obj].FrameOf(page) == Some(Target(phys))
    {
      match objects[obj] {
        case Physical(paddr, _) =>
          return true, paddr + 0x1000 * page;
        case Variable(pages) =>
          if pages[page] == None {
            if pt.free == [] {
              return false, 0;
            }
            AllocationGrows(objects, obj, page, pt.free[0]);
            objects := objects[obj := Variable(pages[page := Some(pt.free[0])])];
            pt.free := pt.free[1..];
          }
          return true, objects[obj].pages[page].value.number * 0x1000;
      }
    }

    // Maps the page of vaddr to the frame its mapping gives.
    method MapFaultingPage(vaddr: nat, m: Mapping) returns (ok: bool)
      requires Valid() && Maps(mm.Tree(), m, vaddr)
      modifies this`objects, pt
      ensures Valid() && (ok <==> old(CanMap(Snapshot(), m, vaddr))) && Faulted(old(Snapshot()), m, vaddr, Snapshot())
      ensures old(Guarded(pt.mem, pt.root)) && Canonical(vaddr) ==> Guarded(pt.mem, pt.root)
    {
      PageOfObject(mm.Tree(), objects, m, vaddr);
      ghost var s := Snapshot();
      var phys;
      ok, phys := PageNumberToPhysAddr(m.obj, PageIn(m, vaddr));
      if ok {
        ok := MapFrame(vaddr, phys);
      }
      FillThenMap(s, m, vaddr, Target(phys), ok, Snapshot());
    }

    method MapFrame(vaddr: nat, phys: nat) returns (ok: bool)
      requires Valid()
      modifies pt
      ensures Valid() && FrameMapped(old(Snapshot()), PageOf(vaddr), Target(phys), ok, Snapshot())
      ensures old(Guarded(pt.mem, pt.root)) && Canonical(vaddr) ==> Guarded(pt.mem, pt.root)
    {
      ok := pt.MapPage(vaddr, phys);
    }

    /**
      Resolves a fault from the interval map: the faulting page, and no other, gains its frame.  The space
      stays coherent exactly when the map gives the page that frame from its first address on.
     */
    method HandlePageFault(vaddr: nat) returns (r: Fault)
      requires Valid() && Canonical(vaddr)
      modifies this`objects, pt
      ensures Valid() && Touched(old(Snapshot()), vaddr, r, Snapshot())
      ensures old(Guarded(pt.mem, pt.root)) ==> Guarded(pt.mem, pt.root)
      ensures old(Coherent()) ==> (Coherent() <==> !old(Breaks(Touch(vaddr))))
    {
      if vaddr < 0x1000 {
        return Unresolved;
      }
      var mapping := mm.GetMemoryMappingForAddr(vaddr);
      if mapping.None? {
        NoneMaps(mm.Tree(), vaddr);
        return Unresolved;
      }
      r := ResolveFault(vaddr, mapping.value);
    }

    // Maps the page of vaddr, and says when that keeps the space coherent.
    method ResolveFault(vaddr: nat, m: Mapping) returns (r: Fault)
      requires Valid() && Maps(mm.Tree(), m, vaddr) && Canonical(vaddr) && vaddr >= 0x1000
      modifies this`objects, pt
      ensures Valid() && Touched(old(Snapshot()), vaddr, r, Snapshot())
      ensures old(Guarded(pt.mem, pt.root)) ==> Guarded(pt.mem, pt.root)
      ensures old(Coherent()) ==> (Coherent() <==> !old(Breaks(Touch(vaddr))))
    {
      ghost var s := Snapshot();
      var ok := MapFaultingPage(vaddr, m);
      r := if ok then Resolved else Panic;
      FaultBreaksExactly(s, m, vaddr, Snapshot());
    }

    // Unmaps the page of every page-sized step from base below limit, then the page of limit.
    method UnmapRange(base: nat, limit: nat)
      requires pt.Valid() && base < limit < U64_LIMIT && SweepEnds(base, limit)
      modifies pt`mem
      ensures pt.Valid() && (old(Guarded(pt.mem, pt.root)) ==> Guarded(pt.mem, pt.root))
      ensures forall q: Page :: q.Proper() ==>
                                  pt.Lookup(q) == if q in SweptPages(base, limit) then None else old(pt.Lookup(q))
    {
      ghost var swept, j, safe := SweptPages(base, limit), 0, Guarded(pt.mem, pt.root);
      var address := base;
      while address < limit
        invariant pt.Valid() && 0 <= j < |swept| && Cleared(old(pt.mem), swept[..j])
        invariant safe ==> Guarded(pt.mem, pt.root)
        invariant address == base + 0x1000 * j && (address < limit <==> j < |swept| - 1)
        decreases |swept| - j
      {
        SweptAt(base, limit, j);
        UnmapOne(address, old(pt.mem), swept, j);
        NextStep(base, limit, address, j);
        address := Add64(address, 0x1000);
        j := j + 1;
      }
      SweptLast(base, limit, j);
      UnmapOne(limit, old(pt.mem), swept, j);
    }

    // The tables are those of before without the pages.
    ghost predicate Cleared(mem: Memory, pages: seq<Page>)
      reads pt
    {
      forall q: Page :: q.Proper() ==> pt.Lookup(q) == if q in pages then None else Walk(mem, pt.root, q, LEVELS)
    }

    method UnmapOne(address: nat, ghost mem: Memory, ghost pages: seq<Page>, ghost j: nat)
      requires pt.Valid() && j < |pages| && pages[j] == PageOf(address) && Cleared(mem, pages[..j])
      modifies pt`mem
      ensures pt.Valid() && Cleared(mem, pages[..j + 1])
      ensures old(Guarded(pt.mem, pt.root)) ==> Guarded(pt.mem, pt.root)
    {
      pt.UnmapPage(address);
    }

    /**
      Removes the mappings of a range and, unless the process is dying, its translations.  Coherence is lost
      exactly when a translation is left whose page was in the range or in a mapping that the tree loses.
     */
    method FreeAddressRange(base: nat, limit: nat, isDyingProc: bool) returns (code: ErrorCode)
      requires Valid() && limit < U64_LIMIT
      requires isDyingProc || !CanFree(mm.Tree(), base, limit) || SweepEnds(base, limit)
      modifies mm.nodes, pt`mem
      ensures Valid()
      ensures code == INVALID_ARGUMENT <==> limit <= base
      ensures code == FAILED_PRECONDITION <==>
                base < limit && (Straddled(old(mm.Tree()), base) || Straddled(old(mm.Tree()), limit))
      ensures code != ALREADY_EXISTS && (code != OK ==> Snapshot() == old(Snapshot()))
      ensures code == OK ==> Freed(old(Snapshot()), base, limit, isDyingProc, Snapshot())
      ensures code == OK ==> (Without(old(mm.Tree()), base, limit, mm.Tree()) <==> !old(mm.Splits(base, limit)))
      ensures isDyingProc ==> pt.mem == old(pt.mem)
      ensures old(Coherent()) && code == OK && !old(mm.Splits(base, limit)) ==>
                (Coherent() <==> !(isDyingProc && Resident(old(Snapshot()), base, limit)))
      ensures old(Coherent()) ==> (Coherent() <==> !old(Breaks(FreeRange(base, limit, isDyingProc))))
      ensures old(Guarded(pt.mem, pt.root)) ==> Guarded(pt.mem, pt.root)
    {
      ghost var s, splits := Snapshot(), mm.Splits(base, limit);
      code := mm.FreeMemoryRange(base, limit);
      if code == OK {
        DropTranslations(base, limit, isDyingProc, s, splits);
      }
    }

    // The part of freeing a range that is about the tables.
    method DropTranslations(base: nat, limit: nat, isDyingProc: bool, ghost s: Snap, ghost splits: bool)
      requires Valid() && limit < U64_LIMIT && (isDyingProc || SweepEnds(base, limit))
      requires SoundIn(s) && CanFree(s.Tree(), base, limit) && Snapshot().(nodes := s.nodes) == s
      requires mm.Tree() == RemainingIn(s.Tree(), s.Layout(), base, limit)
      requires !splits ==> Without(s.Tree(), base, limit, mm.Tree())
      modifies pt`mem
      ensures Valid() && Freed(s, base, limit, isDyingProc, Snapshot()) && (isDyingProc ==> pt.mem == old(pt.mem))
      ensures old(Guarded(pt.mem, pt.root)) ==> Guarded(pt.mem, pt.root)
      ensures CoherentIn(s) ==> (Coherent() <==> !BreaksIn(s, FreeRange(base, limit, isDyingProc)))
      ensures CoherentIn(s) && !splits ==> (Coherent() <==> !(isDyingProc && Resident(s, base, limit)))
    {
      if !isDyingProc {
        UnmapRange(base, limit);
      }
      FreeCoherence(s, base, limit, isDyingProc, splits, Snapshot());
    }

    method FreeBreaking(base: nat, limit: nat)
      requires Valid() && Coherent() && limit + 0x1000 <= U64_LIMIT
      requires Breaks(FreeRange(base, limit, false))
      modifies mm.nodes, pt`mem
      ensures Valid() && !Coherent()
    {
      var code := FreeAddressRange(base, limit, false);
    }

    /**
      Any sequence of calls.  The trace has the state before each call, what the call did to it, and
      exactly when it broke coherence.
     */
    method Run(calls: seq<Call>) returns (ghost trace: seq<Snap>)
      requires Valid() && forall i :: 0 <= i < |calls| ==> calls[i].Legal()
      modifies this, pt, mm.nodes
      ensures Valid() && IsTrace(trace, calls)
      ensures trace[0] == old(Snapshot()) && trace[|calls|] == Snapshot()
    {
      trace := [Snapshot()];
      for i := 0 to |calls|
        invariant Valid() && Begins(trace, calls, i) && trace[0] == old(Snapshot()) && trace[i] == Snapshot()
      {
        assert calls[i].Legal();
        ghost var before := trace;
        Perform(calls[i]);
        trace := trace + [Snapshot()];
        LongerTrace(before, calls, i, Snapshot());
      }
    }

    method Perform(call: Call)
      requires Valid() && call.Legal()
      modifies this, pt, mm.nodes
      ensures Valid() && StepOf(old(Snapshot()), call, Snapshot())
    {
      match call {
        case Touch(vaddr) => PerformTouch(vaddr);
        case FreeRange(base, limit, dying) => PerformFree(base, limit, dying);
        case MapAt(vaddr, obj) =>
          if obj in objects { PerformMap(vaddr, obj); } else { NothingMapped(call); }
        case MapAnywhere(obj, align) =>
          if obj in objects { PerformMapAnywhere(obj, align); } else { NothingMapped(call); }
        case NewVariable(size) => PerformNew(call);
        case NewPhysical(paddr, bytes) => PerformNew(call);
      }
    }

    method PerformNew(call: Call)
      requires Valid() && call.Legal() && (call.NewVariable? || call.NewPhysical?)
      modifies this`objects, this`nextObject
      ensures Valid() && StepOf(old(Snapshot()), call, Snapshot())
    {
      ghost var s := Snapshot();
      if call.NewVariable? {
        var obj := CreateVariableObject(call.size);
        assert Created(s, obj, objects[obj], Snapshot());
      } else {
        var obj := CreatePhysicalObject(call.paddr, call.bytes);
        assert Created(s, obj, Physical(call.paddr, call.bytes), Snapshot());
      }
    }

    method PerformMap(vaddr: nat, obj: nat)
      requires Valid() && obj in objects && vaddr < U64_LIMIT
      modifies mm.nodes
      ensures Valid() && StepOf(old(Snapshot()), MapAt(vaddr, obj), Snapshot())
    {
      ghost var s := Snapshot();
      var code := MapInMemoryObject(vaddr, obj);
      MapStep(s, vaddr, obj, code == OK, Snapshot());
    }

    lemma NothingMapped(call: Call)
      requires Valid() && call.Legal() && (call.MapAt? || call.MapAnywhere?) && call.obj !in objects
      ensures StepOf(Snapshot(), call, Snapshot())
    {
    }

    method PerformMapAnywhere(obj: nat, align: nat)
      requires Valid() && obj in objects && align < U64_LIMIT
      modifies this`nextMemmapAddr, mm.nodes
      ensures Valid() && StepOf(old(Snapshot()), MapAnywhere(obj, align), Snapshot())
    {
      var r, vaddr := MapInMemoryObjectAnywhere(obj, align);
    }

    method PerformTouch(vaddr: nat)
      requires Valid() && Canonical(vaddr)
      modifies this`objects, pt
      ensures Valid() && StepOf(old(Snapshot()), Touch(vaddr), Snapshot())
    {
      var _ := HandlePageFault(vaddr);
    }

    method PerformFree(base: nat, limit: nat, dying: bool)
      requires Valid() && FreeRange(base, limit, dying).Legal()
      modifies mm.nodes, pt`mem
      ensures Valid() && StepOf(old(Snapshot()), FreeRange(base, limit, dying), Snapshot())
    {
      var _ := FreeAddressRange(base, limit, dying);
    }
  }

  lemma {:induction false} LongerTrace(trace: seq<Snap>, calls: seq<Call>, n: nat, s: Snap)
    requires n < |calls| && Begins(trace, calls, n) && StepOf(trace[n], calls[n], s)
    ensures Begins(trace + [s], calls, n + 1)
  {
    var trace' := trace + [s];
    forall i | 0 <= i < n + 1 ensures StepOf(trace'[i], calls[i], trace'[i + 1]) {
      if i < n { assert StepOf(trace[i], calls[i], trace[i + 1]); }
    }
  }

  /** From a new address space, runs of careful calls end coherent. */
  method RunCarefully(tables: PageTables, calls: seq<Call>) returns (s: AddressSpace)
    requires tables.Valid() && forall p: Page :: IsUser(p) ==> tables.Lookup(p) == None
    requires forall i :: 0 <= i < |calls| ==> calls[i].Legal() && Careful(calls[i])
    modifies tables
    ensures s.Valid() && s.Coherent()
  {
    s := new AddressSpace(tables);
    var trace := s.Run(calls);
    CarefulRun(trace, calls, |calls|);
  }

  // ----- Calls that break coherence -----

  // Tables with no user translation, and pages enough to add one.
  ghost predicate Unused(tables: PageTables)
    reads tables
  {
    tables.Valid() && |tables.free| >= LEVELS && forall p: Page :: IsUser(p) ==> tables.Lookup(p) == None
  }

  // A page boundary with room below and above.
  predicate Boundary(v: nat) { v % 0x1000 == 0 && 0x1000 <= v < 0x7000_0000_0000 }

  lemma {:induction false} BoundaryPage(v: nat)
    requires Boundary(v)
    ensures IsUser(PageOf(v)) && AddressOf(PageOf(v)) == v
  {
    UserPage(v);
    AddressOfPage(v);
  }

  // The page is all that is mapped.
  ghost predicate Alone(tree: Mappings, v: nat) {
    v in tree && forall k :: k in tree ==> k == v && tree[k].base == v && tree[k].limit == v + 0x1000
  }

  // A space where a page is mapped and touched.
  method MapAndTouch(tables: PageTables, v: nat) returns (s: AddressSpace)
    requires Unused(tables) && Boundary(v)
    modifies tables
    ensures fresh(s) && fresh(s.mm.nodes) && s.pt == tables && s.Valid() && s.Coherent()
    ensures Alone(s.mm.Tree(), v) && tables.Lookup(PageOf(v)) != None
  {
    s := MapOne(tables, v);
    BoundaryPage(v);
    Touch(s, v);
  }

  method MapOne(tables: PageTables, v: nat) returns (s: AddressSpace)
    requires Unused(tables) && Boundary(v)
    ensures fresh(s) && fresh(s.mm.nodes) && s.pt == tables && s.Valid() && s.Coherent() && Alone(s.mm.Tree(), v)
  {
    var obj;
    s, obj := SpaceWithPage(tables);
    AddPage(s, v, obj);
  }

  // A space with nothing mapped, and an object of one page.
  method SpaceWithPage(tables: PageTables) returns (s: AddressSpace, obj: nat)
    requires Unused(tables)
    ensures fresh(s) && fresh(s.mm.nodes) && s.pt == tables && s.Valid() && s.Coherent() && s.mm.Tree() == map[]
    ensures obj in s.objects && s.objects[obj] == Physical(0x5000, 0x1000)
  {
    s := new AddressSpace(tables);
    obj := s.CreatePhysicalObject(0x5000, 0x1000);
  }

  method Touch(s: AddressSpace, v: nat)
    requires Boundary(v) && s.Valid() && s.Coherent() && v in s.mm.Tree() && s.mm.Tree()[v].limit > v
    requires s.pt.Lookup(PageOf(v)) == None && |s.pt.free| >= LEVELS
    modifies s`objects, s.pt
    ensures s.Valid() && s.Coherent() && s.pt.Lookup(PageOf(v)) != None
  {
    ghost var before := s.Snapshot();
    BoundaryFault(before, v);
    var fault := s.HandlePageFault(v);
    TouchedBoundary(before, v, fault, s.Snapshot());
  }

  // A fault on a page boundary keeps the state coherent.
  lemma {:induction false} BoundaryFault(s: Snap, v: nat)
    requires SoundIn(s) && Boundary(v) && v in s.Tree() && s.Tree()[v].limit > v
    ensures !FaultBreaks(s, v) && Maps(s.Tree(), s.Tree()[v], v)
  {
    OneMaps(s.Tree(), v, s.Tree()[v]);
    AlignedInStep(s.Tree()[v], v);
    FaultInStep(s, v);
  }

  lemma {:induction false} TouchedBoundary(s: Snap, v: nat, r: Fault, s': Snap)
    requires SoundIn(s) && Boundary(v) && v in s.Tree() && s.Tree()[v].limit > v && Touched(s, v, r, s')
    requires LookupIn(s, PageOf(v)) == None && |s.free| >= LEVELS
    ensures LookupIn(s', PageOf(v)) != None
  {
    var m := s.Tree()[v];
    PageOfObject(s.Tree(), s.objects, m, v);
    assert Maps(s.Tree(), m, v) && CanMap(s, m, v);
  }

  /** The unmapping system call, which frees as for a dying process, leaves a translation behind. */
  method UnmapLeavesTranslation(tables: PageTables, v: nat) returns (s: AddressSpace)
    requires Unused(tables) && Boundary(v)
    modifies tables
    ensures s.Valid() && !s.Coherent()
  {
    s := MapAndTouch(tables, v);
    Unmap(s, v);
  }

  method Unmap(s: AddressSpace, v: nat)
    requires Boundary(v) && s.Valid() && s.Coherent() && s.pt.Lookup(PageOf(v)) != None
    requires Alone(s.mm.Tree(), v)
    modifies s.mm.nodes, s.pt`mem
    ensures s.Valid() && !s.Coherent()
  {
    BoundaryPage(v);
    s.mm.NothingBelow(v, v + 0x1000);
    assert Resident(s.Snapshot(), v, v + 0x1000);
    var code := s.FreeAddressRange(v, v + 0x1000, true);
  }

  // Three neighbouring ranges, the middle one mapped first.
  method MapThree(s: AddressSpace, v: nat, obj: nat)
    requires Boundary(v) && s.Valid() && s.Coherent() && s.mm.Tree() == map[]
    requires obj in s.objects && s.objects[obj].Size() == 0x1000
    modifies s.mm.nodes
    ensures s.Valid() && s.Coherent() && InRow(s.mm.Tree(), v) && s.mm.nodes.RootIs(v + 0x1000)
  {
    RoomForThree(v, obj);
    AddPage(s, v + 0x1000, obj);
    AddPage(s, v, obj);
    AddPage(s, v + 0x2000, obj);
  }

  ghost function PageAt(v: nat, obj: nat): Mapping { Mapping(v, v + 0x1000, obj) }

  ghost function One(v: nat, obj: nat): Mappings { map[][v + 0x1000 := PageAt(v + 0x1000, obj)] }

  ghost function Two(v: nat, obj: nat): Mappings { One(v, obj)[v := PageAt(v, obj)] }

  ghost function Three(v: nat, obj: nat): Mappings { Two(v, obj)[v + 0x2000 := PageAt(v + 0x2000, obj)] }

  // Three mappings of one page each, next to each other.
  ghost predicate InRow(tree: Mappings, v: nat) {
    && v in tree && v + 0x1000 in tree && v + 0x2000 in tree
    && forall k :: k in tree ==> tree[k].base == k && tree[k].limit == k + 0x1000
                                 && (k == v || k == v + 0x1000 || k == v + 0x2000)
  }

  // All mappings are of one page, and none of them meets the page at v.
  ghost predicate Room(tree: Mappings, v: nat) {
    forall k :: k in tree ==> tree[k].limit == k + 0x1000 && (k + 0x1000 <= v || v + 0x1000 <= k)
  }

  lemma {:induction false} RoomForThree(v: nat, obj: nat)
    ensures Room(map[], v + 0x1000) && Room(One(v, obj), v) && Room(Two(v, obj), v + 0x2000) && InRow(Three(v, obj), v)
  {
  }

  // Maps a page where none meets it.
  method AddPage(s: AddressSpace, v: nat, obj: nat)
    requires s.Valid() && obj in s.objects && s.objects[obj].Size() == 0x1000 && v < 0x7000_0000_2000
    requires Room(s.mm.Tree(), v)
    modifies s.mm.nodes
    ensures s.Valid() && (old(s.Coherent()) ==> s.Coherent())
    ensures s.mm.Tree() == old(s.mm.Tree())[v := PageAt(v, obj)]
    ensures forall k :: old(s.mm.nodes.RootIs(k)) ==> s.mm.nodes.RootIs(k)
    ensures old(s.mm.Tree()) == map[] ==> s.mm.nodes.RootIs(v)
  {
    RoomIsFree(s.mm.Tree(), v, obj, s.objects[obj].Size());
    var code := s.MapInMemoryObject(v, obj);
  }

  lemma {:induction false} RoomIsFree(tree: Mappings, v: nat, obj: nat, size: nat)
    requires Room(tree, v) && Disjoint(tree) && size == 0x1000 && v < 0x7000_0000_2000
    ensures Mapping(v, Add64(v, size), obj) == PageAt(v, obj)
    ensures Unobstructed(tree, PageAt(v, obj))
  {
  }

  /** Freeing the middle one of three ranges, mapped first, loses the lower one and leaves its translation. */
  method FreeLosesMapping(tables: PageTables, v: nat) returns (s: AddressSpace)
    requires Unused(tables) && Boundary(v)
    modifies tables
    ensures s.Valid() && !s.Coherent()
  {
    s := SpaceWithThree(tables, v);
    BoundaryPage(v);
    var base, limit := TouchFirst(s, v);
    s.FreeBreaking(base, limit);
  }

  method SpaceWithThree(tables: PageTables, v: nat) returns (s: AddressSpace)
    requires Unused(tables) && Boundary(v)
    ensures fresh(s) && fresh(s.mm.nodes) && s.pt == tables && s.Valid() && s.Coherent()
    ensures InRow(s.mm.Tree(), v) && s.mm.nodes.RootIs(v + 0x1000)
  {
    var obj;
    s, obj := SpaceWithPage(tables);
    MapThree(s, v, obj);
  }

  method TouchFirst(s: AddressSpace, v: nat) returns (base: nat, limit: nat)
    requires Boundary(v) && s.Valid() && s.Coherent() && InRow(s.mm.Tree(), v) && s.mm.nodes.RootIs(v + 0x1000)
    requires s.pt.Lookup(PageOf(v)) == None && |s.pt.free| >= LEVELS
    modifies s`objects, s.pt
    ensures s.Valid() && s.Coherent() && s.Breaks(FreeRange(base, limit, false)) && limit + 0x1000 <= U64_LIMIT
  {
    base, limit := v + 0x1000, v + 0x2000;
    Touch(s, v);
    MiddleBreaks(s.mm, s.Snapshot(), v, base, limit);
  }

  lemma {:induction false} MiddleBreaks(mm: MemoryMappingTree, s: Snap, v: nat, base: nat, limit: nat)
    requires mm.Valid() && mm.nodes.RootIs(base) && s.nodes == mm.nodes.sh
    requires Boundary(v) && InRow(s.Tree(), v) && LookupIn(s, PageOf(v)).Some?
    requires base == v + 0x1000 && limit == v + 0x2000
    ensures BreaksIn(s, FreeRange(base, limit, false))
  {
    mm.RootSplits(base, limit, v, limit);
    LowerIsStranded(s, v, base, limit);
  }

  lemma {:induction false} LowerIsStranded(s: Snap, v: nat, base: nat, limit: nat)
    requires Boundary(v) && InRow(s.Tree(), v) && LookupIn(s, PageOf(v)).Some?
    requires base == v + 0x1000 && limit == v + 0x2000 && LostBelow(Trees.LayoutOf(s.nodes), base, limit, v)
    ensures BreaksIn(s, FreeRange(base, limit, false))
  {
    BoundaryPage(v);
    NotSwept(v);
    assert v !in RemainingIn(s.Tree(), s.Layout(), base, limit);
    assert Stranded(s, base, limit, false, PageOf(v));
  }

  /** A fault in a mapping that does not begin on a page boundary gives its page the frame of another. */
  method UnalignedFault(tables: PageTables, v: nat) returns (s: AddressSpace)
    requires Unused(tables) && Boundary(v)
    modifies tables
    ensures s.Valid() && !s.Coherent()
  {
    s := new AddressSpace(tables);
    var obj := s.CreatePhysicalObject(0x5000, 0x2000);
    var code := s.MapInMemoryObject(v + 0x800, obj);
    UserPage(v + 0x1800);
    TouchUnaligned(s, v, obj);
  }

  method TouchUnaligned(s: AddressSpace, v: nat, obj: nat)
    requires Boundary(v) && s.Valid() && s.Coherent()
             && s.mm.Tree() == map[v + 0x800 := Mapping(v + 0x800, v + 0x2800, obj)]
    requires obj in s.objects && s.objects[obj] == Physical(0x5000, 0x2000)
    requires s.pt.Lookup(PageOf(v + 0x1800)) == None && |s.pt.free| >= LEVELS
    modifies s`objects, s.pt
    ensures s.Valid() && !s.Coherent()
  {
    UnalignedBreaks(s.Snapshot(), v, obj);
    var fault := s.HandlePageFault(v + 0x1800);
  }

  lemma {:induction false} UnalignedBreaks(s: Snap, v: nat, obj: nat)
    requires Boundary(v) && s.Tree() == map[v + 0x800 := Mapping(v + 0x800, v + 0x2800, obj)]
    requires obj in s.objects && s.objects[obj] == Physical(0x5000, 0x2000)
    requires LookupIn(s, PageOf(v + 0x1800)) == None && |s.free| >= LEVELS
    ensures FaultBreaks(s, v + 0x1800)
  {
    var m := s.Tree()[v + 0x800];
    NextFrame(s.Tree(), s.objects, v, obj);
    assert Maps(s.Tree(), m, v + 0x1800) && CanMap(s, m, v + 0x1800) && !SameFrame(s, m, v + 0x1800);
  }

  lemma {:induction false} NextFrame(tree: Mappings, objects: Objects, v: nat, obj: nat)
    requires Boundary(v) && tree == map[v + 0x800 := Mapping(v + 0x800, v + 0x2800, obj)]
    requires obj in objects && objects[obj] == Physical(0x5000, 0x2000)
    ensures tree[v + 0x800].Contains(v + 0x1800) && FrameAt(objects, tree[v + 0x800], v + 0x1800) == Some(Frame(6))
    ensures !Backed(tree, objects, PageOf(v + 0x1800), Frame(6))
  {
    assert objects[obj].FrameOf(0) == Some(Frame(5)) && objects[obj].FrameOf(1) == Some(Frame(6));
    OffsetsInPages(v);
    var m := tree[v + 0x800];
    assert FrameAt(objects, m, v + 0x1000) == Some(Frame(5));
  }

  lemma {:induction false} OffsetsInPages(v: nat)
    requires Boundary(v)
    ensures AddressOf(PageOf(v + 0x1800)) == v + 0x1000
    ensures (v + 0x1800 - (v + 0x800)) / 0x1000 == 1 && (v + 0x1000 - (v + 0x800)) / 0x1000 == 0
  {
    AddressOfPage(v + 0x1800);
    HalfPage(v / 0x1000 + 1);
    assert v + 0x1000 == 0x1000 * (v / 0x1000 + 1);
  }

  lemma {:induction false} HalfPage(q: nat)
    ensures PageAlign(0x1000 * q + 0x800) == 0x1000 * q
  {
    DivModUnique(0x1000 * q + 0x800, 0x1000, q, 0x800);
  }

  lemma {:induction false} OneStep(base: nat, limit: nat)
    requires limit == base + 0x1000
    ensures Steps(base, limit) == [PageOf(base)]
  {
    assert |Steps(base, limit)| == 1;
  }

  lemma {:induction false} NotSwept(v: nat)
    requires Boundary(v)
    ensures PageOf(v) !in SweptPages(v + 0x1000, v + 0x2000)
  {
    AddressOfPage(v);
    AddressOfPage(v + 0x1000);
    AddressOfPage(v + 0x2000);
    OneStep(v + 0x1000, v + 0x2000);
  }

  // ----- Alignment -----

  const HALF: nat := 0x4000_0000_0000_0000

  /** A page boundary that is a 64-bit address. */
  predicate IsBoundary(a: nat) { a % 0x1000 == 0 && a < U64_LIMIT }

  /** Where a range of the size that begins at the address ends, in whole pages and 64 bits. */
  function RangeEnd(address: nat, size: nat): nat { (address + 0x1000 * ((size + 0xFFF) / 0x1000)) % U64_LIMIT }

  /** The next address of the region: from its last end on, the first boundary that meets the alignment. */
  ghost function NextAddress(a: nat, align: nat): (r: nat)
    requires IsBoundary(a) && align < U64_LIMIT
    ensures IsBoundary(r)
  {
    if align == 0 then a
    else
      FirstExists(a, align);
      var x: nat :| FirstAligned(a, align, x);
      Around(x)
  }

  ghost predicate HasSpace(a: nat, size: nat, align: nat)
    requires IsBoundary(a) && align < U64_LIMIT
  {
    size > 0 && RangeEnd(NextAddress(a, align), size) < 0x30_0000_0000
  }

  lemma {:induction false} FirstExists(a: nat, align: nat)
    requires a % 0x1000 == 0 && a <= U64_LIMIT && 0 < align < U64_LIMIT
    ensures exists x: nat :: FirstAligned(a, align, x)
    ensures forall x: nat :: FirstAligned(a, align, x) ==> x <= U64_LIMIT
    decreases U64_LIMIT - a
  {
    AroundTheEnd(align);
    FirstBounded(a, align);
    if And(a, align - 1) == 0 {
      assert FirstAligned(a, align, a);
    } else {
      assert a != U64_LIMIT;
      NextBoundary(a, align, a);
      FirstExists(a + 0x1000, align);
      var x: nat :| FirstAligned(a + 0x1000, align, x);
      assert FirstAligned(a, align, x);
    }
  }

  lemma {:induction false} FirstBounded(a: nat, align: nat)
    requires a <= U64_LIMIT && 0 < align < U64_LIMIT
    ensures forall x: nat :: FirstAligned(a, align, x) ==> x <= U64_LIMIT
  {
    AroundTheEnd(align);
    forall x: nat | FirstAligned(a, align, x) ensures x <= U64_LIMIT { FirstIsFirst(a, align, x, U64_LIMIT); }
  }

  lemma {:induction false} FirstIsNext(a: nat, align: nat, x: nat)
    requires IsBoundary(a) && 0 < align < U64_LIMIT && FirstAligned(a, align, x)
    ensures NextAddress(a, align) == Around(x)
  {
    FirstExists(a, align);
    forall y: nat | FirstAligned(a, align, y) ensures y == x {
      FirstIsFirst(a, align, x, y);
      FirstIsFirst(a, align, y, x);
    }
  }

  /** The first page boundary from a on that has no bit in common with align - 1. */
  ghost predicate FirstAligned(a: nat, align: nat, x: nat)
    requires align > 0
  {
    && a <= x && x % 0x1000 == 0 && And(x, align - 1) == 0
    && forall y: nat :: a <= y < x && y % 0x1000 == 0 ==> And(y, align - 1) != 0
  }

  // Words the alignment divides have no bit in common with it.
  lemma {:induction false} AndDisjoint(a: nat, b: nat, k: nat)
    requires a % Pow2(k) == 0 && b < Pow2(k)
    ensures And(a, b) == 0
  {
    if k > 0 {
      HalveDivMod(a, Pow2(k - 1));
      AndDisjoint(a / 2, b / 2, k - 1);
    }
  }

  lemma {:induction false} AlignedByHalf(a: nat, align: nat, x: nat)
    requires a <= HALF && 0 < align <= HALF && FirstAligned(a, align, x)
    ensures x <= HALF
  {
    HalfIsPower();
    AndDisjoint(HALF, align - 1, 62);
    FirstIsFirst(a, align, x, HALF);
  }

  lemma {:induction false} FirstIsFirst(a: nat, align: nat, x: nat, y: nat)
    requires align > 0 && FirstAligned(a, align, x) && a <= y && y % 0x1000 == 0 && And(y, align - 1) == 0
    ensures x <= y
  {
  }

  lemma {:induction false} HalfIsPower()
    ensures Pow2(62) == HALF && Pow2(64) == U64_LIMIT
  {
    Pow2Values();
    assert Pow2(2) == 4;
    Pow2Sum(12, 2);
    Pow2Sum(48, 14);
    assert Pow2(14) == 0x4000;
  }

  lemma {:induction false} AndOfPower(a: nat, b: nat, k: nat)
    requires a == Pow2(k) && b < a
    ensures And(a, b) == 0
  {
    DivModUnique(a, Pow2(k), 1, 0);
    AndDisjoint(a, b, k);
  }

  lemma {:induction false} LimitPower() returns (k: nat)
    ensures Pow2(k) == U64_LIMIT
  {
    HalfIsPower();
    k := 64;
  }

  /** Steps page by page to the first boundary that meets the alignment, around the end of memory if need be. */
  method AlignUp(a: nat, align: nat) returns (r: nat, ghost x: nat)
    requires a % 0x1000 == 0 && a < U64_LIMIT && 0 < align < U64_LIMIT
    ensures FirstAligned(a, align, x) && x <= U64_LIMIT && r == Around(x) && r % 0x1000 == 0
  {
    r, x := a, a;
    AroundTheEnd(align);
    while And(r, align - 1) != 0
      invariant a <= x <= U64_LIMIT && x % 0x1000 == 0 && r == Around(x)
      invariant forall y: nat :: a <= y < x && y % 0x1000 == 0 ==> And(y, align - 1) != 0
      decreases U64_LIMIT - x
    {
      NextBoundary(a, align, x);
      r := Add64(r, 0x1000);
      x := x + 0x1000;
    }
  }

  // 64-bit addresses up to the end of memory, which is 0 again.
  ghost function Around(x: nat): nat { if x == U64_LIMIT then 0 else x }

  lemma {:induction false} AroundTheEnd(align: nat)
    requires 0 < align < U64_LIMIT
    ensures forall x: nat {:trigger And(x, align - 1)} :: x == U64_LIMIT ==> And(x, align - 1) == 0
  {
    forall x: nat {:trigger And(x, align - 1)} | x == U64_LIMIT ensures And(x, align - 1) == 0 {
      var k := LimitPower();
      AndOfPower(x, align - 1, k);
    }
  }

  lemma {:induction false} NextBoundary(a: nat, align: nat, x: nat)
    requires x % 0x1000 == 0 && x < U64_LIMIT && 0 < align && And(x, align - 1) != 0
    requires forall y: nat :: a <= y < x && y % 0x1000 == 0 ==> And(y, align - 1) != 0
    ensures x + 0x1000 <= U64_LIMIT && (x + 0x1000) % 0x1000 == 0 && Add64(x, 0x1000) == Around(x + 0x1000)
    ensures forall y: nat :: a <= y < x + 0x1000 && y % 0x1000 == 0 ==> And(y, align - 1) != 0
  {
    forall y: nat | a <= y < x + 0x1000 && y % 0x1000 == 0 ensures And(y, align - 1) != 0 {
      if y >= x { assert y == x; }
    }
  }

  lemma {:induction false} RoundedUp(a: nat, size: nat)
    requires a % 0x1000 == 0 && a < U64_LIMIT && 0 < size < U64_LIMIT
    ensures var rounded := Add64(PageAlign(size - 1), 0x1000);
            && Add64(a, rounded) % 0x1000 == 0 && (a <= HALF && size <= HALF ==> a + size <= Add64(a, rounded))
            && Add64(a, rounded) == RangeEnd(a, size)
  {
    var q, n := a / 0x1000, (size - 1) / 0x1000 + 1;
    assert n == (size + 0xFFF) / 0x1000;
    assert a == 0x1000 * q && PageAlign(size - 1) + 0x1000 == 0x1000 * n && size <= 0x1000 * n < size + 0x1000;
    SumOfPages(q, n);
  }

  lemma {:induction false} SumOfPages(q: nat, n: nat)
    requires 0x1000 * q < U64_LIMIT && 0x1000 * n <= U64_LIMIT
    ensures Add64(0x1000 * q, Add64(0x1000 * n, 0)) % 0x1000 == 0
    ensures 0x1000 * q + 0x1000 * n < U64_LIMIT ==> Add64(0x1000 * q, Add64(0x1000 * n, 0)) == 0x1000 * (q + n)
  {
    var limit := U64_LIMIT / 0x1000;
    assert U64_LIMIT == 0x1000 * limit && n <= limit && q < limit;
    var m := if n == limit then 0 else n;
    assert Add64(0x1000 * n, 0) == 0x1000 * m;
    var sum := if q + m < limit then q + m else q + m - limit;
    assert Add64(0x1000 * q, 0x1000 * m) == 0x1000 * sum;
  }

  // A frame added to an object is an addition, not a change.
  lemma {:induction false} AllocationGrows(objects: Objects, obj: nat, page: nat, f: Frame)
    requires obj in objects && objects[obj].Variable? && page < |objects[obj].pages| && objects[obj].pages[page] == None
    ensures Grown(objects, objects[obj := Variable(objects[obj].pages[page := Some(f)])])
  {
  }

  // An address of a mapping is in a page its object has.
  lemma {:induction false} PageOfObject(tree: Mappings, objects: Objects, m: Mapping, vaddr: nat)
    requires Fitting(tree, objects) && m.base in tree && tree[m.base] == m && m.Contains(vaddr)
    ensures m.obj in objects
    ensures objects[m.obj].Variable? ==> (vaddr - m.base) / 0x1000 < |objects[m.obj].pages|
  {
    assert vaddr - m.base < objects[m.obj].Size();
  }

  // Growing objects keeps everything backed.
  lemma {:induction false} GrowthKeepsBacked(tree: Mappings, objects: Objects, objects': Objects)
    requires Grown(objects, objects')
    ensures forall p: Page, f: Frame :: Backed(tree, objects, p, f) ==> Backed(tree, objects', p, f)
  {
    forall p: Page, f: Frame | Backed(tree, objects, p, f) ensures Backed(tree, objects', p, f) {
      var k :| BackedBy(tree, objects, p, f, k);
      BackedStays(tree, objects, tree, objects', p, f, k);
    }
  }

  // The page of a mapped user address in step with it is backed by its mapping.
  lemma {:induction false} FaultIsBacked(tree: Mappings, objects: Objects, m: Mapping, vaddr: nat, f: Frame)
    requires m.base in tree && tree[m.base] == m && InStep(m, vaddr) && m.Contains(vaddr) && vaddr < 0x1_0000_0000_0000
    requires FrameAt(objects, m, vaddr) == Some(f)
    ensures Backed(tree, objects, PageOf(vaddr), f)
  {
    AddressOfPage(vaddr);
    assert BackedBy(tree, objects, PageOf(vaddr), f, m.base);
  }

  // Only lower-half addresses have user pages.
  lemma {:induction false} KernelPage(vaddr: nat)
    requires 0xFFFF_8000_0000_0000 <= vaddr < U64_LIMIT
    ensures !IsUser(PageOf(vaddr))
  {
    assert vaddr / 0x80_0000_0000 >= 0x1FF_FF00;
  }

  lemma {:induction false} UserPage(vaddr: nat)
    requires vaddr < 0x8000_0000_0000
    ensures IsUser(PageOf(vaddr))
  {
    assert vaddr / 0x80_0000_0000 < 256;
  }

  // More mappings leave what was backed backed.
  lemma {:induction false} AddCoherence(s: Snap, v: nat, m: Mapping, s': Snap)
    requires s'.(nodes := s.nodes) == s && Fitting(s.Tree(), s.objects)
    requires m.obj in s.objects && m.limit == Add64(m.base, s.objects[m.obj].Size())
    requires s'.Tree() == s.Tree() || (s'.Tree() == s.Tree()[v := m] && Unobstructed(s.Tree(), m) && v !in s.Tree())
    ensures (CoherentIn(s) ==> CoherentIn(s')) && Fitting(s'.Tree(), s'.objects)
  {
    forall p: Page | CoherentIn(s) && IsUser(p) && LookupIn(s', p).Some?
      ensures Backed(s'.Tree(), s'.objects, p, LookupIn(s', p).value)
    {
      assert LookupIn(s', p) == LookupIn(s, p);
      var f := LookupIn(s, p).value;
      var k :| BackedBy(s.Tree(), s.objects, p, f, k);
      BackedStays(s.Tree(), s.objects, s'.Tree(), s'.objects, p, f, k);
    }
  }

  // The addresses base, base + 0x1000, ... below limit, as pages.
  ghost function Steps(base: nat, limit: nat): seq<Page>
    requires base < limit
  {
    seq((limit - base + 0xFFF) / 0x1000, j requires j >= 0 => PageOf(base + 0x1000 * j))
  }

  ghost function SweptPages(base: nat, limit: nat): seq<Page>
    requires base < limit
  {
    Steps(base, limit) + [PageOf(limit)]
  }

  lemma {:induction false} StepIs(base: nat, limit: nat, j: nat)
    requires base < limit && j < |Steps(base, limit)|
    ensures Steps(base, limit)[j] == PageOf(base + 0x1000 * j)
  {
  }

  lemma {:induction false} SweptAt(base: nat, limit: nat, j: nat)
    requires base < limit && j < |SweptPages(base, limit)| - 1
    ensures SweptPages(base, limit)[j] == PageOf(base + 0x1000 * j)
  {
    StepIs(base, limit, j);
  }

  lemma {:induction false} SweptLast(base: nat, limit: nat, j: nat)
    requires base < limit && j == |SweptPages(base, limit)| - 1
    ensures SweptPages(base, limit)[j] == PageOf(limit) && SweptPages(base, limit)[..j + 1] == SweptPages(base, limit)
  {
  }

  lemma {:induction false} StepCount(base: nat, limit: nat, j: nat)
    requires base < limit
    ensures base + 0x1000 * j < limit <==> j < |Steps(base, limit)|
  {
  }

  /** The addresses of the sweep, 64 bits wide, get past the limit. */
  predicate SweepEnds(base: nat, limit: nat) {
    limit + 0x1000 <= U64_LIMIT || limit % 0x1000 <= base % 0x1000
  }

  /** The sweep ends exactly then; otherwise it goes around for ever. */
  lemma {:induction false} SweepEndsExactly(base: nat, limit: nat)
    requires base < limit < U64_LIMIT
    ensures SweepEnds(base, limit) <==> exists j: nat :: (base + 0x1000 * j) % U64_LIMIT >= limit
  {
    if SweepEnds(base, limit) {
      var j := (limit - base + 0xFFF) / 0x1000;
      StepsReach(base, limit, j);
      assert (base + 0x1000 * j) % U64_LIMIT >= limit;
    } else {
      forall j: nat ensures (base + 0x1000 * j) % U64_LIMIT < limit {
        assert (base + 0x1000 * j) % U64_LIMIT % 0x1000 == base % 0x1000;
      }
    }
  }

  lemma {:induction false} StepsReach(base: nat, limit: nat, j: nat)
    requires base < limit < U64_LIMIT && SweepEnds(base, limit) && j == (limit - base + 0xFFF) / 0x1000
    ensures limit <= base + 0x1000 * j < U64_LIMIT
  {
  }

  lemma {:induction false} NextStep(base: nat, limit: nat, address: nat, j: nat)
    requires base < limit < U64_LIMIT && SweepEnds(base, limit) && address == base + 0x1000 * j < limit
    ensures Add64(address, 0x1000) == base + 0x1000 * (j + 1)
    ensures Add64(address, 0x1000) < limit <==> j + 1 < |Steps(base, limit)|
  {
    StepsReach(base, limit, (limit - base + 0xFFF) / 0x1000);
    StepCount(base, limit, j + 1);
  }

  // The first step of the sweep from an address on.
  lemma {:induction false} FirstStep(base: nat, a: nat) returns (j: nat)
    requires base < a + 0x1000
    ensures a <= base + 0x1000 * j < a + 0x1000
  {
    j := if a <= base then 0 else (a - base + 0xFFF) / 0x1000;
  }

  /** The sweep meets every page that meets the range, whatever the alignment of its ends. */
  lemma {:induction false} SweepMeets(base: nat, limit: nat, p: Page)
    requires base < limit && p.Proper() && AddressOf(p) < limit && base < AddressOf(p) + 0x1000
    ensures p in SweptPages(base, limit)
  {
    PageOfAddress(p);
    var a := AddressOf(p);
    var j := FirstStep(base, a);
    var x := base + 0x1000 * j;
    if x < limit {
      StepCount(base, limit, j);
      StepIs(base, limit, j);
      WithinPage(a, x);
      assert p == SweptPages(base, limit)[j];
    } else {
      WithinPage(a, limit);
      assert p == SweptPages(base, limit)[|Steps(base, limit)|];
    }
  }

  lemma {:induction false} SweepClears(base: nat, limit: nat)
    requires base < limit
    ensures forall p: Page :: IsUser(p) && base <= AddressOf(p) < limit ==> p in SweptPages(base, limit)
  {
    forall p: Page | IsUser(p) && base <= AddressOf(p) < limit ensures p in SweptPages(base, limit) {
      SweepMeets(base, limit, p);
    }
  }

  ghost predicate HasPage(tree: Mappings, p: Page) { exists k :: k in tree && tree[k].Contains(AddressOf(p)) }

  // Of what was backed, what is left of the mappings backs exactly the pages they still have.
  lemma {:induction false} LessIsBacked(tree: Mappings, left: Mappings, objects: Objects)
    requires Disjoint(tree) && forall k :: k in left ==> k in tree && left[k] == tree[k]
    ensures forall p: Page, f: Frame :: Backed(tree, objects, p, f) ==>
              (Backed(left, objects, p, f) <==> HasPage(left, p))
  {
    forall p: Page, f: Frame | Backed(tree, objects, p, f) ensures Backed(left, objects, p, f) <==> HasPage(left, p) {
      var k :| BackedBy(tree, objects, p, f, k);
      if HasPage(left, p) {
        var j :| j in left && left[j].Contains(AddressOf(p));
        ContainsOnce(tree, j, k, AddressOf(p));
        BackedStays(tree, objects, left, objects, p, f, k);
      }
    }
  }

  // Freeing a range leaves backed exactly the pages outside it.
  lemma {:induction false} FreeSplitsBacked(tree: Mappings, left: Mappings, objects: Objects, base: nat, limit: nat)
    requires Disjoint(tree) && Without(tree, base, limit, left) && base < limit
    requires !Straddled(tree, base) && !Straddled(tree, limit)
    ensures forall p: Page, f: Frame :: Backed(tree, objects, p, f) ==>
              (Backed(left, objects, p, f) <==> !(base <= AddressOf(p) < limit))
  {
    forall p: Page, f: Frame | Backed(tree, objects, p, f)
      ensures Backed(left, objects, p, f) <==> !(base <= AddressOf(p) < limit)
    {
      var k :| BackedBy(tree, objects, p, f, k);
      assert k == tree[k].base;
      if !(base <= AddressOf(p) < limit) {
        BackedStays(tree, objects, left, objects, p, f, k);
      }
    }
  }
}
