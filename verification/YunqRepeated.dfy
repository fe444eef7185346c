/**
  Repeated numbers in the code the Rust generator emits (yunq/rust/src/codegen.rs), for messages
  all of whose fields are such.

  The numbers go to the place the slot names counted from the start of the buffer, not from the
  start of the message; each slot is written after its numbers and before those of the next field,
  and the header last. What overwrites what is decided by the offset of the message and the
  lengths of the lists.
 */
module YunqRepeated {
  import opened Common
  import opened YunqFormat
  import opened YunqWrites
  import Rust = YunqRust

  type Lists = seq<seq<nat>>

  predicate InRange(ns: seq<nat>) { forall i :: 0 <= i < |ns| ==> ns[i] < U64_LIMIT }

  predicate ListsOf(nss: Lists, counts: seq<nat>) {
    |nss| == |counts| && forall i :: 0 <= i < |nss| ==> |nss[i]| == counts[i] && InRange(nss[i])
  }

  // The numbers of the first i fields together.
  function Count(counts: seq<nat>, i: nat): nat
    requires i <= |counts|
  {
    if i == 0 then 0 else Count(counts, i - 1) + counts[i - 1]
  }

  /** Where the numbers of field i go. */
  function At(counts: seq<nat>, i: nat): nat
    requires i <= |counts|
  {
    24 + 8 * |counts| + 8 * Count(counts, i)
  }

  lemma {:induction false} AtMono(counts: seq<nat>, i: nat, j: nat)
    requires i <= j <= |counts|
    ensures At(counts, i) <= At(counts, j)
  {
    if i < j { AtMono(counts, i, j - 1); }
  }

  /** The bytes of the first i numbers. */
  function Words(ns: seq<nat>, i: nat): (r: Bytes)
    requires i <= |ns|
    ensures |r| == 8 * i
  {
    if i == 0 then [] else Words(ns, i - 1) + Digits(ns[i - 1], 8)
  }

  function Header(core: nat, size: nat): (r: Bytes)
    ensures |r| == 16
  {
    Digits(IDENT, 4) + Digits(core, 4) + Digits(size, 4) + Digits(0, 4)
  }

  predicate Room(length: nat, off: nat, counts: seq<nat>) {
    off + 16 <= length
    && (counts != [] ==> Slot(off, |counts|) <= length && At(counts, |counts|) <= length)
  }

  // What is written for each field: the bytes of the numbers, and the slot.
  predicate Pieces(counts: seq<nat>, ds: seq<Bytes>, ss: seq<Bytes>) {
    |ds| == |ss| == |counts| && forall i :: 0 <= i < |counts| ==> |ds[i]| == 8 * counts[i] && |ss[i]| == 8
  }

  /** The buffer after the first m fields. */
  function EmitFields(a: Bytes, off: nat, counts: seq<nat>, ds: seq<Bytes>, ss: seq<Bytes>, m: nat): (b: Bytes)
    requires Pieces(counts, ds, ss) && Room(|a|, off, counts) && m <= |counts|
    ensures |b| == |a|
  {
    if m == 0 then a
    else
      AtMono(counts, m, |counts|);
      Put(Put(EmitFields(a, off, counts, ds, ss, m - 1), At(counts, m - 1), ds[m - 1]), Slot(off, m - 1), ss[m - 1])
  }

  /** The buffer after all fields and the header. */
  function Emit(a: Bytes, off: nat, counts: seq<nat>, ds: seq<Bytes>, ss: seq<Bytes>, h: Bytes): (c: Bytes)
    requires Pieces(counts, ds, ss) && Room(|a|, off, counts) && |h| == 16
    ensures |c| == |a|
  {
    Put(EmitFields(a, off, counts, ds, ss, |counts|), off, h)
  }

  ghost predicate DataAre(counts: seq<nat>, nss: Lists, ds: seq<Bytes>) {
    ListsOf(nss, counts) && |ds| == |counts| && forall i :: 0 <= i < |counts| ==> ds[i] == Words(nss[i], counts[i])
  }

  ghost predicate SlotsAre(counts: seq<nat>, ss: seq<Bytes>) {
    |ss| == |counts| && forall i :: 0 <= i < |counts| ==> ss[i] == Pointer(At(counts, i), counts[i])
  }

  function DataOf(counts: seq<nat>, nss: Lists): (ds: seq<Bytes>)
    requires ListsOf(nss, counts)
    ensures DataAre(counts, nss, ds)
  {
    seq(|counts|, i requires 0 <= i < |counts| => Words(nss[i], counts[i]))
  }

  function SlotsOf(counts: seq<nat>): (ss: seq<Bytes>)
    ensures SlotsAre(counts, ss)
  {
    seq(|counts|, i requires 0 <= i < |counts| => Pointer(At(counts, i), counts[i]))
  }

  function HeaderOf(counts: seq<nat>): (h: Bytes)
    ensures |h| == 16
  {
    Header(24 + 8 * |counts|, At(counts, |counts|))
  }

  // ----- The code -----

  // Writing two pieces side by side is writing them together.
  lemma {:induction false} PutBeside(a: Bytes, k: nat, s: Bytes, t: Bytes)
    requires k + |s| + |t| <= |a|
    ensures Put(Put(a, k, s), k + |s|, t) == Put(a, k, s + t)
  {
  }

  // Some of it is written, if there was room where it begins.
  ghost predicate Partly(before: Bytes, b: Bytes, k: nat, data: Bytes) {
    |b| == |before| && (k <= |before| ==> k + |data| <= |before| && b == Put(before, k, data))
  }

  lemma {:induction false} PartlyMore(before: Bytes, b: Bytes, c: Bytes, k: nat, data: Bytes, more: Bytes)
    requires Partly(before, b, k, data) && k + |data| + |more| <= |b| && c == Put(b, k + |data|, more)
    ensures Partly(before, c, k, data + more)
  {
    PutBeside(before, k, data, more);
  }

  method WriteMore(buf: array<Byte>, ghost k: nat, ghost data: Bytes, at: nat, more: Bytes, ghost before: Bytes)
    returns (ok: bool)
    requires at == k + |data| && Partly(before, buf[..], k, data)
    modifies buf
    ensures ok <==> at + |more| <= buf.Length
    ensures ok ==> Partly(before, buf[..], k, data + more)
  {
    ghost var b := buf[..];
    ok := Rust.WriteAt(buf, at, more);
    if ok { PartlyMore(before, b, buf[..], k, data, more); }
  }

  /** serialize_repeated. */
  method SerializeRepeated(buf: array<Byte>, k: nat, ns: seq<nat>) returns (ok: bool)
    modifies buf
    ensures ok <==> ns == [] || k + 8 * |ns| <= buf.Length
    ensures ok && k <= buf.Length ==> buf[..] == Put(old(buf[..]), k, Words(ns, |ns|))
  {
    for i := 0 to |ns|
      invariant (i > 0 ==> k + 8 * i <= buf.Length) && Partly(old(buf[..]), buf[..], k, Words(ns, i))
    {
      ok := WriteMore(buf, k, Words(ns, i), k + 8 * i, Digits(ns[i], 8), old(buf[..]));
      if !ok { return false; }
    }
    return true;
  }

  method WriteNumbers(buf: array<Byte>, k: nat, numbers: seq<nat>) returns (ok: bool)
    modifies buf
    requires numbers != []
    ensures ok <==> k + 4 * |numbers| <= buf.Length
    ensures ok ==> buf[..] == Put(old(buf[..]), k, Quads(numbers, |numbers|))
  {
    for i := 0 to |numbers|
      invariant (i > 0 ==> k + 4 * i <= buf.Length) && Partly(old(buf[..]), buf[..], k, Quads(numbers, i))
    {
      ok := WriteMore(buf, k, Quads(numbers, i), k + 4 * i, Digits(numbers[i], 4), old(buf[..]));
      if !ok { return false; }
    }
    return true;
  }

  function Quads(numbers: seq<nat>, i: nat): (r: Bytes)
    requires i <= |numbers|
    ensures |r| == 4 * i
  {
    if i == 0 then [] else Quads(numbers, i - 1) + Digits(numbers[i - 1], 4)
  }

  lemma {:induction false} QuadsOf(a: nat, b: nat, c: nat, d: nat)
    ensures Quads([a, b], 2) == Digits(a, 4) + Digits(b, 4)
    ensures Quads([a, b, c, d], 4) == Digits(a, 4) + Digits(b, 4) + Digits(c, 4) + Digits(d, 4)
  {
    assert Quads([a, b], 1) == Digits(a, 4);
    var s := [a, b, c, d];
    assert Quads(s, 1) == Digits(a, 4) && Quads(s, 2) == Digits(a, 4) + Digits(b, 4);
    assert Quads(s, 3) == Digits(a, 4) + Digits(b, 4) + Digits(c, 4);
  }

  method WriteSlot(buf: array<Byte>, k: nat, at: nat, n: nat) returns (ok: bool)
    modifies buf
    ensures ok <==> k + 8 <= buf.Length
    ensures ok ==> buf[..] == Put(old(buf[..]), k, Pointer(at, n))
  {
    QuadsOf(at, n, 0, 0);
    ok := WriteNumbers(buf, k, [at, n]);
  }

  method WriteHeader(buf: array<Byte>, k: nat, core: nat, size: nat) returns (ok: bool)
    modifies buf
    ensures ok <==> k + 16 <= buf.Length
    ensures ok ==> buf[..] == Put(old(buf[..]), k, Header(core, size))
  {
    QuadsOf(IDENT, core, size, 0);
    ok := WriteNumbers(buf, k, [IDENT, core, size, 0]);
  }

  // The code emitted for one field.
  method SerializeField(buf: array<Byte>, off: nat, i: nat, next: nat, ns: seq<nat>) returns (ok: bool)
    modifies buf
    ensures ok <==> (ns == [] || next + 8 * |ns| <= buf.Length) && Slot(off, i) + 8 <= buf.Length
    ensures ok && next <= buf.Length ==>
              buf[..] == Put(Put(old(buf[..]), next, Words(ns, |ns|)), Slot(off, i), Pointer(next, |ns|))
  {
    ok := SerializeRepeated(buf, next, ns);
    if !ok { return; }
    ok := WriteSlot(buf, Slot(off, i), next, |ns|);
  }

  // The first i fields were in bounds.
  predicate RoomFor(length: nat, off: nat, counts: seq<nat>, i: nat)
    requires i <= |counts|
  {
    (i > 0 ==> Slot(off, i) <= length) && (Count(counts, i) > 0 ==> At(counts, i) <= length)
  }

  lemma {:induction false} RoomIsForAll(length: nat, off: nat, counts: seq<nat>, i: nat)
    requires i <= |counts| && Room(length, off, counts)
    ensures RoomFor(length, off, counts, i) && At(counts, i) <= At(counts, |counts|)
  {
    AtMono(counts, i, |counts|);
  }

  /** The emitted serializer. */
  method Serialize(buf: array<Byte>, off: nat, nss: Lists, ghost counts: seq<nat>) returns (ok: bool)
    requires ListsOf(nss, counts) && At(counts, |counts|) < U32_LIMIT
    modifies buf
    ensures ok <==> Room(buf.Length, off, counts)
    ensures ok ==> buf[..] == Emit(old(buf[..]), off, counts, DataOf(counts, nss), SlotsOf(counts), HeaderOf(counts))
  {
    ok := SerializeAll(buf, off, nss, counts, DataOf(counts, nss), SlotsOf(counts));
  }

  method SerializeAll(buf: array<Byte>, off: nat, nss: Lists, ghost counts: seq<nat>, ghost ds: seq<Bytes>,
                      ghost ss: seq<Bytes>) returns (ok: bool)
    requires At(counts, |counts|) < U32_LIMIT && DataAre(counts, nss, ds) && SlotsAre(counts, ss)
    requires Pieces(counts, ds, ss)
    modifies buf
    ensures ok <==> Room(buf.Length, off, counts)
    ensures ok ==> buf[..] == Emit(old(buf[..]), off, counts, ds, ss, HeaderOf(counts))
  {
    var next := 24 + 8 * |nss|;
    for i := 0 to |nss|
      invariant next == At(counts, i) && SoFar(old(buf[..]), buf[..], off, counts, ds, ss, i)
    {
      ok := SerializeNext(buf, off, nss, i, next, counts, ds, ss, old(buf[..]));
      if !ok { return; }
      next := next + 8 * |nss[i]|;
    }
    ok := FinishHeader(buf, off, |nss|, next, counts, ds, ss, old(buf[..]));
  }

  // The first i fields were in bounds and, if the rest is too, are what the buffer holds.
  ghost predicate SoFar(before: Bytes, b: Bytes, off: nat, counts: seq<nat>, ds: seq<Bytes>, ss: seq<Bytes>, i: nat)
    requires Pieces(counts, ds, ss) && i <= |counts|
  {
    && |b| == |before| && RoomFor(|b|, off, counts, i)
    && (Room(|b|, off, counts) ==> b == EmitFields(before, off, counts, ds, ss, i))
  }

  method SerializeNext(buf: array<Byte>, off: nat, nss: Lists, i: nat, next: nat, ghost counts: seq<nat>,
                       ghost ds: seq<Bytes>, ghost ss: seq<Bytes>, ghost before: Bytes) returns (ok: bool)
    requires Pieces(counts, ds, ss) && DataAre(counts, nss, ds) && SlotsAre(counts, ss)
    requires i < |counts| && next == At(counts, i)
    requires SoFar(before, buf[..], off, counts, ds, ss, i)
    modifies buf
    ensures ok ==> SoFar(before, buf[..], off, counts, ds, ss, i + 1)
    ensures !ok ==> !Room(buf.Length, off, counts)
  {
    if Room(buf.Length, off, counts) { RoomIsForAll(buf.Length, off, counts, i + 1); }
    ok := SerializeField(buf, off, i, next, nss[i]);
  }

  method FinishHeader(buf: array<Byte>, off: nat, fields: nat, next: nat, ghost counts: seq<nat>, ghost ds: seq<Bytes>,
                      ghost ss: seq<Bytes>, ghost before: Bytes) returns (ok: bool)
    requires Pieces(counts, ds, ss) && fields == |counts| && next == At(counts, fields)
    requires SoFar(before, buf[..], off, counts, ds, ss, fields)
    modifies buf
    ensures ok <==> Room(buf.Length, off, counts)
    ensures ok ==> buf[..] == Emit(before, off, counts, ds, ss, HeaderOf(counts))
  {
    RoomInAll(buf.Length, off, counts);
    ok := WriteHeader(buf, off, 24 + 8 * fields, next);
  }

  lemma {:induction false} RoomInAll(length: nat, off: nat, counts: seq<nat>)
    requires RoomFor(length, off, counts, |counts|)
    ensures Room(length, off, counts) <==> off + 16 <= length
  {
  }

  /** The number that bytes stand for. */
  function Read(b: Bytes): nat { if b == [] then 0 else b[0] + 256 * Read(b[1..]) }

  function ReadAt(buf: Bytes, k: nat, w: nat): Rust.Outcome<nat> {
    if k + w > |buf| then Rust.Failed(Rust.BufferSize) else Rust.Done(Read(buf[k..k + w]))
  }

  /** Reading w bytes as the rest of the emitted code does. */
  lemma {:induction false} ReadsAlike(buf: Bytes, k: nat, w: nat)
    ensures ReadAt(buf, k, w) == Rust.At(buf, k, w)
    decreases w
  {
    if 0 < w && k + w <= |buf| {
      ReadsAlike(buf, k + 1, w - 1);
      assert buf[k..k + w][1..] == buf[k + 1..k + 1 + (w - 1)];
    }
  }

  /** parse_repeated: the first i numbers. */
  function ParseRepeated(buf: Bytes, k: nat, i: nat): Rust.Outcome<seq<nat>> {
    if i == 0 then Rust.Done([])
    else
      var before :- ParseRepeated(buf, k, i - 1);
      var n :- ReadAt(buf, k + 8 * (i - 1), 8);
      Rust.Done(before + [n])
  }

  /** The code emitted to parse the first m fields. */
  function ParseFields(buf: Bytes, off: nat, m: nat): Rust.Outcome<Lists> {
    if m == 0 then Rust.Done([])
    else
      var before :- ParseFields(buf, off, m - 1);
      var at :- ReadAt(buf, Slot(off, m - 1), 4);
      var n :- ReadAt(buf, Slot(off, m - 1) + 4, 4);
      var ns :- ParseRepeated(buf, at, n);
      Rust.Done(before + [ns])
  }

  /** The emitted parser. */
  function Parse(buf: Bytes, off: nat, fields: nat): Rust.Outcome<Lists> {
    var ident :- ReadAt(buf, off, 4);
    if ident != IDENT then Rust.Failed(Rust.InvalidArgument) else ParseFields(buf, off, fields)
  }

  // ----- What is left in the buffer -----

  predicate InData(counts: seq<nat>, j: nat, p: nat) { j < |counts| && At(counts, j) <= p < At(counts, j + 1) }

  predicate InSlot(off: nat, i: nat, p: nat) { Slot(off, i) <= p < Slot(off, i) + 8 }

  predicate InHeader(off: nat, p: nat) { off <= p < off + 16 }

  /** A byte of the numbers of field j that one of the slots up to m, written later, has too. */
  ghost predicate Overwritten(off: nat, j: nat, m: nat, p: nat) { exists i: nat :: j <= i < m && InSlot(off, i, p) }

  /** A byte of slot i that the numbers of a later field up to m have too. */
  ghost predicate Buried(counts: seq<nat>, i: nat, m: nat, p: nat) {
    exists j: nat :: i < j < m && InData(counts, j, p)
  }

  ghost predicate Survives(off: nat, counts: seq<nat>, j: nat, p: nat) {
    InData(counts, j, p) && !InHeader(off, p) && !Overwritten(off, j, |counts|, p)
  }

  lemma {:induction false} PutAt(a: Bytes, k: nat, data: Bytes, p: nat)
    requires k + |data| <= |a| && p < |a|
    ensures Put(a, k, data)[p] == if k <= p < k + |data| then data[p - k] else a[p]
  {
  }

  // One more field.
  lemma {:induction false} NextAt(a: Bytes, off: nat, counts: seq<nat>, ds: seq<Bytes>, ss: seq<Bytes>, m: nat, p: nat)
    requires Pieces(counts, ds, ss) && Room(|a|, off, counts) && 0 < m <= |counts| && p < |a|
    ensures EmitFields(a, off, counts, ds, ss, m)[p] ==
            if InSlot(off, m - 1, p) then ss[m - 1][p - Slot(off, m - 1)]
            else if InData(counts, m - 1, p) then ds[m - 1][p - At(counts, m - 1)]
            else EmitFields(a, off, counts, ds, ss, m - 1)[p]
  {
    AtMono(counts, m, |counts|);
    var b := EmitFields(a, off, counts, ds, ss, m - 1);
    PutAt(b, At(counts, m - 1), ds[m - 1], p);
    PutAt(Put(b, At(counts, m - 1), ds[m - 1]), Slot(off, m - 1), ss[m - 1], p);
  }

  lemma {:induction false} OneField(counts: seq<nat>, i: nat, j: nat, p: nat)
    requires InData(counts, i, p) && InData(counts, j, p)
    ensures i == j
  {
    if i < j { AtMono(counts, i + 1, j); }
    if j < i { AtMono(counts, j + 1, i); }
  }

  // The byte at p: what was written there last.
  function ByteAt(a: Bytes, off: nat, counts: seq<nat>, ds: seq<Bytes>, ss: seq<Bytes>, m: nat, p: nat): Byte
    requires Pieces(counts, ds, ss) && m <= |counts| && p < |a|
  {
    if m == 0 then a[p]
    else if InSlot(off, m - 1, p) then ss[m - 1][p - Slot(off, m - 1)]
    else if InData(counts, m - 1, p) then ds[m - 1][p - At(counts, m - 1)]
    else ByteAt(a, off, counts, ds, ss, m - 1, p)
  }

  lemma {:induction false} EmitIs(a: Bytes, off: nat, counts: seq<nat>, ds: seq<Bytes>, ss: seq<Bytes>, m: nat, p: nat)
    requires Pieces(counts, ds, ss) && Room(|a|, off, counts) && m <= |counts| && p < |a|
    ensures EmitFields(a, off, counts, ds, ss, m)[p] == ByteAt(a, off, counts, ds, ss, m, p)
  {
    if m > 0 {
      NextAt(a, off, counts, ds, ss, m, p);
      EmitIs(a, off, counts, ds, ss, m - 1, p);
    }
  }

  lemma {:induction false} DataStays(a: Bytes, off: nat, counts: seq<nat>, ds: seq<Bytes>, ss: seq<Bytes>, m: nat,
                                     j: nat, p: nat)
    requires Pieces(counts, ds, ss) && j < m <= |counts| && p < |a|
    requires InData(counts, j, p) && !Overwritten(off, j, m, p)
    ensures ByteAt(a, off, counts, ds, ss, m, p) == ds[j][p - At(counts, j)]
  {
    assert !InSlot(off, m - 1, p);
    if j < m - 1 {
      if InData(counts, m - 1, p) { OneField(counts, j, m - 1, p); }
      DataStays(a, off, counts, ds, ss, m - 1, j, p);
    }
  }

  lemma {:induction false} SlotStays(a: Bytes, off: nat, counts: seq<nat>, ds: seq<Bytes>, ss: seq<Bytes>, m: nat,
                                     i: nat, p: nat)
    requires Pieces(counts, ds, ss) && i < m <= |counts| && p < |a|
    requires InSlot(off, i, p) && !Buried(counts, i, m, p)
    ensures ByteAt(a, off, counts, ds, ss, m, p) == ss[i][p - Slot(off, i)]
  {
    if i < m - 1 {
      assert !InData(counts, m - 1, p);
      SlotStays(a, off, counts, ds, ss, m - 1, i, p);
    }
  }

  // Fields that differ in the numbers of field j only leave a difference only where those survive.
  lemma {:induction false} SameElsewhere(a: Bytes, off: nat, counts: seq<nat>, ds: seq<Bytes>, ds': seq<Bytes>,
                                         ss: seq<Bytes>, m: nat, j: nat, p: nat)
    requires Pieces(counts, ds, ss) && Pieces(counts, ds', ss) && m <= |counts| && p < |a|
    requires (forall i :: 0 <= i < |counts| && i != j ==> ds[i] == ds'[i])
    requires j < m && InData(counts, j, p) ==> Overwritten(off, j, m, p)
    ensures ByteAt(a, off, counts, ds, ss, m, p) == ByteAt(a, off, counts, ds', ss, m, p)
  {
    if m > 0 && !InSlot(off, m - 1, p) {
      OverwrittenBefore(off, j, m, p);
      if !InData(counts, m - 1, p) { SameElsewhere(a, off, counts, ds, ds', ss, m - 1, j, p); }
    }
  }

  lemma {:induction false} OverwrittenBefore(off: nat, j: nat, m: nat, p: nat)
    requires m > 0 && !InSlot(off, m - 1, p)
    ensures Overwritten(off, j, m, p) <==> Overwritten(off, j, m - 1, p)
  {
  }

  lemma {:induction false} EmitAt(a: Bytes, off: nat, counts: seq<nat>, ds: seq<Bytes>, ss: seq<Bytes>, h: Bytes,
                                  p: nat)
    requires Pieces(counts, ds, ss) && Room(|a|, off, counts) && |h| == 16 && p < |a|
    ensures Emit(a, off, counts, ds, ss, h)[p] ==
            if InHeader(off, p) then h[p - off] else ByteAt(a, off, counts, ds, ss, |counts|, p)
  {
    PutAt(EmitFields(a, off, counts, ds, ss, |counts|), off, h, p);
    EmitIs(a, off, counts, ds, ss, |counts|, p);
  }

  lemma {:induction false} EmitSame(a: Bytes, off: nat, counts: seq<nat>, ds: seq<Bytes>, ds': seq<Bytes>,
                                    ss: seq<Bytes>, h: Bytes, j: nat, p: nat)
    requires Pieces(counts, ds, ss) && Pieces(counts, ds', ss) && Room(|a|, off, counts) && |h| == 16 && p < |a|
    requires (forall i :: 0 <= i < |counts| && i != j ==> ds[i] == ds'[i]) && !Survives(off, counts, j, p)
    ensures Emit(a, off, counts, ds, ss, h)[p] == Emit(a, off, counts, ds', ss, h)[p]
  {
    EmitAt(a, off, counts, ds, ss, h, p);
    EmitAt(a, off, counts, ds', ss, h, p);
    if !InHeader(off, p) { SameElsewhere(a, off, counts, ds, ds', ss, |counts|, j, p); }
  }

  // ----- Numbers in bytes -----

  lemma {:induction false} ReadDigits(n: nat, w: nat)
    requires n < Limit(w)
    ensures Read(Digits(n, w)) == n
  {
    if w > 0 {
      ReadDigits(n / 256, w - 1);
      assert Digits(n, w)[1..] == Digits(n / 256, w - 1);
    }
  }

  lemma {:induction false} SameParts(x: Byte, a: nat, y: Byte, b: nat)
    requires x + 256 * a == y + 256 * b
    ensures x == y && a == b
  {
  }

  lemma {:induction false} SameBytes(a: Bytes, b: Bytes)
    requires |a| == |b| && Read(a) == Read(b)
    ensures a == b
  {
    if a != [] {
      SameParts(a[0], Read(a[1..]), b[0], Read(b[1..]));
      SameBytes(a[1..], b[1..]);
      assert a == [a[0]] + a[1..] && b == [b[0]] + b[1..];
    }
  }

  // What slots and headers say.
  ghost predicate Tell(counts: seq<nat>, ss: seq<Bytes>, h: Bytes) {
    && |ss| == |counts| && |h| == 16 && Read(h[..4]) == IDENT
    && forall i :: 0 <= i < |counts| ==> TellsOf(ss[i], At(counts, i), counts[i])
  }

  ghost predicate TellsOf(s: Bytes, at: nat, n: nat) { |s| == 8 && Read(s[..4]) == at && Read(s[4..]) == n }

  lemma {:induction false} PointerTells(at: nat, n: nat, w: nat)
    requires w == 4 && at < U32_LIMIT && n < U32_LIMIT
    ensures TellsOf(Digits(at, w) + Digits(n, w), at, n)
  {
    Limits();
    ReadDigits(at, w);
    ReadDigits(n, w);
    assert (Digits(at, w) + Digits(n, w))[..w] == Digits(at, w) && (Digits(at, w) + Digits(n, w))[w..] == Digits(n, w);
  }

  lemma {:induction false} HeaderTells(rest: Bytes, ident: nat, w: nat)
    requires w == 4 && ident < U32_LIMIT
    ensures Read((Digits(ident, w) + rest)[..w]) == ident
  {
    Limits();
    ReadDigits(ident, w);
    assert (Digits(ident, w) + rest)[..w] == Digits(ident, w);
  }

  lemma {:induction false} HeaderOfTells(counts: seq<nat>)
    ensures Read(HeaderOf(counts)[..4]) == IDENT
  {
    var rest := Digits(24 + 8 * |counts|, 4) + Digits(At(counts, |counts|), 4) + Digits(0, 4);
    assert HeaderOf(counts) == Digits(IDENT, 4) + rest;
    HeaderTells(rest, IDENT, 4);
  }

  lemma {:induction false} AllTell(counts: seq<nat>)
    requires At(counts, |counts|) < U32_LIMIT
    ensures Tell(counts, SlotsOf(counts), HeaderOf(counts))
  {
    HeaderOfTells(counts);
    SlotsTell(counts, SlotsOf(counts));
  }

  lemma {:induction false} SlotsTell(counts: seq<nat>, ss: seq<Bytes>)
    requires At(counts, |counts|) < U32_LIMIT && SlotsAre(counts, ss)
    ensures forall i :: 0 <= i < |counts| ==> TellsOf(ss[i], At(counts, i), counts[i])
  {
    forall i | 0 <= i < |counts| ensures TellsOf(ss[i], At(counts, i), counts[i]) {
      AtMono(counts, i + 1, |counts|);
      SlotTells(At(counts, i), counts[i]);
    }
  }

  lemma {:induction false} SlotTells(at: nat, n: nat)
    requires at < U32_LIMIT && n < U32_LIMIT
    ensures TellsOf(Pointer(at, n), at, n)
  {
    PointerTells(at, n, 4);
  }

  // ----- When lists come back -----

  /** A byte of the numbers of field j keeps clear of the header and of all slots, but for the places of empty lists. */
  ghost predicate ClearAt(off: nat, counts: seq<nat>, j: nat, p: nat) {
    && !InHeader(off, p)
    && forall i: nat :: i < |counts| && InSlot(off, i, p) ==> i < j && counts[i] == 0 && p < Slot(off, i) + 4
  }

  ghost predicate Clear(off: nat, counts: seq<nat>) {
    forall j: nat, p: nat :: InData(counts, j, p) ==> ClearAt(off, counts, j, p)
  }

  // All lists of these lengths come back, with these slots and this header.
  ghost predicate ComeBackWith(off: nat, counts: seq<nat>, ss: seq<Bytes>, h: Bytes)
    requires Tell(counts, ss, h)
  {
    forall a: Bytes, nss: Lists {:trigger Emit(a, off, counts, DataOf(counts, nss), ss, h)} ::
      ListsOf(nss, counts) && Room(|a|, off, counts) ==>
        Parse(Emit(a, off, counts, DataOf(counts, nss), ss, h), off, |counts|) == Rust.Done(nss)
  }

  /** All lists of these lengths come back, whatever the buffer held. */
  ghost predicate ComeBack(off: nat, counts: seq<nat>)
    requires At(counts, |counts|) < U32_LIMIT
  {
    AllTell(counts);
    ComeBackWith(off, counts, SlotsOf(counts), HeaderOf(counts))
  }

  lemma {:induction false} ClearByte(a: Bytes, off: nat, counts: seq<nat>, ds: seq<Bytes>, ss: seq<Bytes>, h: Bytes,
                                     j: nat, p: nat)
    requires Pieces(counts, ds, ss) && Room(|a|, off, counts) && |h| == 16 && InData(counts, j, p) && p < |a|
    requires ClearAt(off, counts, j, p)
    ensures Emit(a, off, counts, ds, ss, h)[p] == ds[j][p - At(counts, j)]
  {
    EmitAt(a, off, counts, ds, ss, h, p);
    DataStays(a, off, counts, ds, ss, |counts|, j, p);
  }

  lemma {:induction false} ClearSlot(a: Bytes, off: nat, counts: seq<nat>, ds: seq<Bytes>, ss: seq<Bytes>, h: Bytes,
                                     i: nat, p: nat)
    requires Pieces(counts, ds, ss) && Room(|a|, off, counts) && |h| == 16 && Clear(off, counts)
    requires i < |counts| && InSlot(off, i, p) && p < |a| && (counts[i] > 0 || p >= Slot(off, i) + 4)
    ensures Emit(a, off, counts, ds, ss, h)[p] == ss[i][p - Slot(off, i)]
  {
    EmitAt(a, off, counts, ds, ss, h, p);
    SlotStays(a, off, counts, ds, ss, |counts|, i, p);
  }

  lemma {:induction false} ClearData(a: Bytes, off: nat, counts: seq<nat>, ds: seq<Bytes>, ss: seq<Bytes>, h: Bytes,
                                     j: nat)
    requires Pieces(counts, ds, ss) && Room(|a|, off, counts) && |h| == 16 && Clear(off, counts) && j < |counts|
    ensures At(counts, j + 1) <= |a| && Emit(a, off, counts, ds, ss, h)[At(counts, j)..At(counts, j + 1)] == ds[j]
  {
    AtMono(counts, j + 1, |counts|);
    var part := Emit(a, off, counts, ds, ss, h)[At(counts, j)..At(counts, j + 1)];
    forall x | 0 <= x < |part| ensures part[x] == ds[j][x] {
      assert InData(counts, j, At(counts, j) + x);
      ClearByte(a, off, counts, ds, ss, h, j, At(counts, j) + x);
    }
  }

  // A part of a slot that no numbers reach.
  lemma {:induction false} ClearPart(a: Bytes, off: nat, counts: seq<nat>, ds: seq<Bytes>, ss: seq<Bytes>, h: Bytes,
                                     i: nat, x: nat, y: nat)
    requires Pieces(counts, ds, ss) && Room(|a|, off, counts) && |h| == 16 && Clear(off, counts) && i < |counts|
    requires x <= y <= 8 && (counts[i] > 0 || x >= 4)
    ensures Emit(a, off, counts, ds, ss, h)[Slot(off, i) + x..Slot(off, i) + y] == ss[i][x..y]
  {
    var part := Emit(a, off, counts, ds, ss, h)[Slot(off, i) + x..Slot(off, i) + y];
    forall z | 0 <= z < |part| ensures part[z] == ss[i][x..y][z] {
      assert InSlot(off, i, Slot(off, i) + x + z);
      ClearSlot(a, off, counts, ds, ss, h, i, Slot(off, i) + x + z);
    }
  }

  // A buffer that has the numbers from k on gives them back.
  lemma {:induction false} WordsParse(c: Bytes, k: nat, ns: seq<nat>, i: nat)
    requires i <= |ns| && InRange(ns) && k + 8 * i <= |c| && c[k..k + 8 * i] == Words(ns, i)
    ensures ParseRepeated(c, k, i) == Rust.Done(ns[..i])
  {
    if i > 0 {
      WordsEnd(c, k, ns, i);
      WordsParse(c, k, ns, i - 1);
      NextParses(c, k, ns[..i - 1], ns[i - 1], i);
      assert ns[..i] == ns[..i - 1] + [ns[i - 1]];
    }
  }

  lemma {:induction false} WordsEnd(c: Bytes, k: nat, ns: seq<nat>, i: nat)
    requires 0 < i <= |ns| && ns[i - 1] < U64_LIMIT && k + 8 * i <= |c| && c[k..k + 8 * i] == Words(ns, i)
    ensures c[k..k + 8 * (i - 1)] == Words(ns, i - 1) && ReadAt(c, k + 8 * (i - 1), 8) == Rust.Done(ns[i - 1])
  {
    var l := k + 8 * (i - 1);
    assert c[k..l] == c[k..k + 8 * i][..8 * (i - 1)] && c[l..l + 8] == c[k..k + 8 * i][8 * (i - 1)..];
    Limits();
    ReadDigits(ns[i - 1], 8);
  }

  lemma {:induction false} NextParses(c: Bytes, k: nat, before: seq<nat>, n: nat, i: nat)
    requires i > 0 && ParseRepeated(c, k, i - 1) == Rust.Done(before) && ReadAt(c, k + 8 * (i - 1), 8) == Rust.Done(n)
    ensures ParseRepeated(c, k, i) == Rust.Done(before + [n])
  {
  }

  /** The slot of field i leads to the list. */
  ghost predicate FieldReads(c: Bytes, off: nat, i: nat, ns: seq<nat>) {
    && Slot(off, i) + 8 <= |c| && Read(c[Slot(off, i) + 4..Slot(off, i) + 8]) == |ns|
    && ParseRepeated(c, PlaceIn(c, off, i), |ns|) == Rust.Done(ns)
  }

  // Where the slot of field i says its numbers are.
  function PlaceIn(c: Bytes, off: nat, i: nat): nat
    requires Slot(off, i) + 8 <= |c|
  {
    Read(c[Slot(off, i)..Slot(off, i) + 4])
  }

  lemma {:induction false} FieldsParse(c: Bytes, off: nat, nss: Lists, m: nat)
    requires m <= |nss| && forall i :: 0 <= i < m ==> FieldReads(c, off, i, nss[i])
    ensures ParseFields(c, off, m) == Rust.Done(nss[..m])
  {
    if m > 0 {
      FieldsParse(c, off, nss, m - 1);
      NextParsed(c, off, m, nss[..m - 1], nss[m - 1]);
      assert nss[..m] == nss[..m - 1] + [nss[m - 1]];
    }
  }

  lemma {:induction false} NextParsed(c: Bytes, off: nat, m: nat, before: Lists, ns: seq<nat>)
    requires m > 0 && ParseFields(c, off, m - 1) == Rust.Done(before) && FieldReads(c, off, m - 1, ns)
    ensures ParseFields(c, off, m) == Rust.Done(before + [ns])
  {
  }

  // A slot that is there, with the numbers where it says.
  lemma {:induction false} ReadsFrom(c: Bytes, off: nat, i: nat, s: Bytes, at: nat, ns: seq<nat>)
    requires TellsOf(s, at, |ns|) && InRange(ns) && Slot(off, i) + 8 <= |c|
    requires c[Slot(off, i) + 4..Slot(off, i) + 8] == s[4..8]
    requires ns != [] ==> c[Slot(off, i)..Slot(off, i) + 4] == s[..4] && at + 8 * |ns| <= |c|
                          && c[at..at + 8 * |ns|] == Words(ns, |ns|)
    ensures FieldReads(c, off, i, ns)
  {
    if ns != [] {
      WordsParse(c, at, ns, |ns|);
      assert ns[..|ns|] == ns;
    }
    assert s[4..8] == s[4..];
  }

  lemma {:induction false} FieldParses(a: Bytes, off: nat, counts: seq<nat>, nss: Lists, ss: seq<Bytes>, h: Bytes,
                                       i: nat)
    requires ListsOf(nss, counts) && Pieces(counts, DataOf(counts, nss), ss) && Room(|a|, off, counts) && |h| == 16
    requires Clear(off, counts) && i < |counts| && TellsOf(ss[i], At(counts, i), counts[i])
    ensures FieldReads(Emit(a, off, counts, DataOf(counts, nss), ss, h), off, i, nss[i])
  {
    var c := Emit(a, off, counts, DataOf(counts, nss), ss, h);
    ClearPart(a, off, counts, DataOf(counts, nss), ss, h, i, 4, 8);
    if counts[i] > 0 { ClearPart(a, off, counts, DataOf(counts, nss), ss, h, i, 0, 4); }
    ClearData(a, off, counts, DataOf(counts, nss), ss, h, i);
    ReadsFrom(c, off, i, ss[i], At(counts, i), nss[i]);
  }

  lemma {:induction false} HeaderParses(a: Bytes, off: nat, counts: seq<nat>, ds: seq<Bytes>, ss: seq<Bytes>, h: Bytes)
    requires Pieces(counts, ds, ss) && Room(|a|, off, counts) && |h| == 16 && Read(h[..4]) == IDENT
    ensures ReadAt(Emit(a, off, counts, ds, ss, h), off, 4) == Rust.Done(IDENT)
  {
    assert Emit(a, off, counts, ds, ss, h)[off..off + 4] == h[..4];
  }

  lemma {:induction false} ClearComesBack(a: Bytes, off: nat, counts: seq<nat>, nss: Lists, ss: seq<Bytes>, h: Bytes)
    requires ListsOf(nss, counts) && Room(|a|, off, counts) && Tell(counts, ss, h) && Clear(off, counts)
    ensures Parse(Emit(a, off, counts, DataOf(counts, nss), ss, h), off, |counts|) == Rust.Done(nss)
  {
    var c := Emit(a, off, counts, DataOf(counts, nss), ss, h);
    HeaderParses(a, off, counts, DataOf(counts, nss), ss, h);
    forall i | 0 <= i < |counts| ensures FieldReads(c, off, i, nss[i]) { FieldParses(a, off, counts, nss, ss, h, i); }
    FieldsParse(c, off, nss, |counts|);
    assert nss[..|counts|] == nss;
  }

  // ----- When they do not -----

  // Numbers all of whose bytes are d.
  function Eight(d: Byte): (b: Bytes)
    ensures |b| == 8 && forall i :: 0 <= i < 8 ==> b[i] == d
  {
    seq(8, _ => d)
  }

  lemma {:induction false} ReadBelow(b: Bytes)
    ensures Read(b) < Limit(|b|)
  {
    if b != [] { ReadBelow(b[1..]); }
  }

  function Filled(d: Byte, n: nat): (ns: seq<nat>)
    ensures |ns| == n && InRange(ns) && forall i :: 0 <= i < n ==> ns[i] == Read(Eight(d))
  {
    ReadBelow(Eight(d));
    Limits();
    seq(n, _ => Read(Eight(d)))
  }

  lemma {:induction false} ParsedNumber(buf: Bytes, k: nat, n: nat, i: nat, ns: seq<nat>)
    requires ParseRepeated(buf, k, n) == Rust.Done(ns) && i < n
    ensures |ns| == n && k + 8 * i + 8 <= |buf| && Read(buf[k + 8 * i..k + 8 * i + 8]) == ns[i]
  {
    var before := ParseRepeated(buf, k, n - 1).value;
    if i < n - 1 {
      ParsedNumber(buf, k, n - 1, i, before);
    } else if n > 1 {
      ParsedNumber(buf, k, n - 1, 0, before);
    }
  }

  lemma {:induction false} ParsedByte(c: Bytes, k: nat, n: nat, d: Byte, p: nat)
    requires ParseRepeated(c, k, n) == Rust.Done(Filled(d, n)) && k <= p < k + 8 * n
    ensures p < |c| && c[p] == d
  {
    var i, j := (p - k) / 8, (p - k) % 8;
    ParsedNumber(c, k, n, i, Filled(d, n));
    var b := c[k + 8 * i..k + 8 * i + 8];
    SameBytes(b, Eight(d));
    assert c[p] == b[j];
  }

  lemma {:induction false} ParsedLength(buf: Bytes, k: nat, n: nat, ns: seq<nat>)
    requires ParseRepeated(buf, k, n) == Rust.Done(ns)
    ensures |ns| == n
  {
    if n > 0 { ParsedLength(buf, k, n - 1, ParseRepeated(buf, k, n - 1).value); }
  }

  lemma {:induction false} LastParsed(c: Bytes, off: nat, m: nat, nss: Lists) returns (before: Lists)
    requires m > 0 && ParseFields(c, off, m) == Rust.Done(nss)
    ensures ParseFields(c, off, m - 1) == Rust.Done(before) && nss != [] && before == nss[..|nss| - 1]
    ensures FieldReads(c, off, m - 1, nss[|nss| - 1])
  {
    before := ParseFields(c, off, m - 1).value;
    var k := Slot(off, m - 1);
    ParsedLength(c, PlaceIn(c, off, m - 1), Read(c[k + 4..k + 8]), nss[|nss| - 1]);
  }

  lemma {:induction false} ParsedField(c: Bytes, off: nat, m: nat, i: nat, nss: Lists)
    requires ParseFields(c, off, m) == Rust.Done(nss) && i < m
    ensures |nss| == m && FieldReads(c, off, i, nss[i])
  {
    var before := LastParsed(c, off, m, nss);
    if i < m - 1 {
      ParsedField(c, off, m - 1, i, before);
    } else if m > 1 {
      ParsedField(c, off, m - 1, 0, before);
    }
  }

  // The lists with field i filled with one byte.
  function With(counts: seq<nat>, nss: Lists, i: nat, d: Byte): (r: Lists)
    requires ListsOf(nss, counts) && i < |counts|
    ensures ListsOf(r, counts)
  {
    nss[i := Filled(d, counts[i])]
  }

  lemma {:induction false} WithDiffers(counts: seq<nat>, nss: Lists, i: nat, d: Byte)
    requires ListsOf(nss, counts) && i < |counts|
    ensures var ds, ds' := DataOf(counts, nss), DataOf(counts, With(counts, nss, i, d));
            forall k :: 0 <= k < |counts| && k != i ==> ds'[k] == ds[k]
  {
  }

  // What of field i does not survive does not depend on its numbers.
  lemma {:induction false} WithSame(a: Bytes, off: nat, counts: seq<nat>, nss: Lists, ss: seq<Bytes>, h: Bytes, i: nat,
                                    d: Byte, p: nat)
    requires ListsOf(nss, counts) && Pieces(counts, DataOf(counts, nss), ss) && Room(|a|, off, counts) && |h| == 16
    requires i < |counts| && p < |a| && !Survives(off, counts, i, p)
    ensures Emit(a, off, counts, DataOf(counts, With(counts, nss, i, d)), ss, h)[p] ==
            Emit(a, off, counts, DataOf(counts, nss), ss, h)[p]
  {
    WithDiffers(counts, nss, i, d);
    EmitSame(a, off, counts, DataOf(counts, With(counts, nss, i, d)), DataOf(counts, nss), ss, h, i, p);
  }

  lemma {:induction false} PlaceFixed(a: Bytes, off: nat, counts: seq<nat>, nss: Lists, ss: seq<Bytes>, h: Bytes,
                                      i: nat,
                                      d: Byte)
    requires ListsOf(nss, counts) && Pieces(counts, DataOf(counts, nss), ss) && Room(|a|, off, counts) && |h| == 16
    requires i < |counts|
    ensures PlaceIn(Emit(a, off, counts, DataOf(counts, With(counts, nss, i, d)), ss, h), off, i) ==
            PlaceIn(Emit(a, off, counts, DataOf(counts, nss), ss, h), off, i)
  {
    WithDiffers(counts, nss, i, d);
    PartFixed(a, off, counts, DataOf(counts, With(counts, nss, i, d)), DataOf(counts, nss), ss, h, i);
  }

  lemma {:induction false} PartFixed(a: Bytes, off: nat, counts: seq<nat>, ds: seq<Bytes>, ds': seq<Bytes>,
                                     ss: seq<Bytes>, h: Bytes, i: nat)
    requires Pieces(counts, ds, ss) && Pieces(counts, ds', ss) && Room(|a|, off, counts) && |h| == 16
    requires i < |counts| && forall k :: 0 <= k < |counts| && k != i ==> ds[k] == ds'[k]
    ensures Emit(a, off, counts, ds, ss, h)[Slot(off, i)..Slot(off, i) + 4] ==
            Emit(a, off, counts, ds', ss, h)[Slot(off, i)..Slot(off, i) + 4]
  {
    var k := Slot(off, i);
    var part, part' := Emit(a, off, counts, ds, ss, h)[k..k + 4], Emit(a, off, counts, ds', ss, h)[k..k + 4];
    forall x | 0 <= x < 4 ensures part[x] == part'[x] {
      assert InSlot(off, i, k + x);
      EmitSame(a, off, counts, ds, ds', ss, h, i, k + x);
    }
  }

  lemma {:induction false} FieldBack(a: Bytes, off: nat, counts: seq<nat>, nss: Lists, ss: seq<Bytes>, h: Bytes, i: nat)
    requires ListsOf(nss, counts) && Room(|a|, off, counts) && Tell(counts, ss, h) && ComeBackWith(off, counts, ss, h)
    requires i < |counts|
    ensures FieldReads(Emit(a, off, counts, DataOf(counts, nss), ss, h), off, i, nss[i])
  {
    var c := Emit(a, off, counts, DataOf(counts, nss), ss, h);
    assert Parse(c, off, |counts|) == Rust.Done(nss);
    ParsedField(c, off, |counts|, i, nss);
  }

  // Where field i is read from, its bytes are found.
  lemma {:induction false} FilledThere(a: Bytes, off: nat, counts: seq<nat>, nss: Lists, ss: seq<Bytes>, h: Bytes,
                                       i: nat, d: Byte, p: nat)
    requires ListsOf(nss, counts) && Room(|a|, off, counts) && Tell(counts, ss, h) && ComeBackWith(off, counts, ss, h)
    requires i < |counts|
    requires var at := PlaceIn(Emit(a, off, counts, DataOf(counts, nss), ss, h), off, i);
             at <= p < at + 8 * counts[i]
    ensures p < |a| && Emit(a, off, counts, DataOf(counts, With(counts, nss, i, d)), ss, h)[p] == d
  {
    var c := Emit(a, off, counts, DataOf(counts, With(counts, nss, i, d)), ss, h);
    PlaceFixed(a, off, counts, nss, ss, h, i, d);
    FieldBack(a, off, counts, With(counts, nss, i, d), ss, h, i);
    ParsedByte(c, PlaceIn(c, off, i), counts[i], d, p);
  }

  lemma {:induction false} SurvivesThere(a: Bytes, off: nat, counts: seq<nat>, nss: Lists, ss: seq<Bytes>, h: Bytes,
                                         i: nat, p: nat)
    requires ListsOf(nss, counts) && Room(|a|, off, counts) && Tell(counts, ss, h) && ComeBackWith(off, counts, ss, h)
    requires i < |counts|
    requires var at := PlaceIn(Emit(a, off, counts, DataOf(counts, nss), ss, h), off, i);
             at <= p < at + 8 * counts[i]
    ensures Survives(off, counts, i, p)
  {
    FilledThere(a, off, counts, nss, ss, h, i, 0, p);
    FilledThere(a, off, counts, nss, ss, h, i, 1, p);
    if !Survives(off, counts, i, p) {
      WithSame(a, off, counts, nss, ss, h, i, 0, p);
      WithSame(a, off, counts, nss, ss, h, i, 1, p);
    }
  }

  // So it is read from where it was put, and nothing of it is overwritten.
  lemma {:induction false} ReadsItself(a: Bytes, off: nat, counts: seq<nat>, nss: Lists, ss: seq<Bytes>, h: Bytes,
                                       i: nat)
    requires ListsOf(nss, counts) && Room(|a|, off, counts) && Tell(counts, ss, h) && ComeBackWith(off, counts, ss, h)
    requires i < |counts| && counts[i] > 0
    ensures PlaceIn(Emit(a, off, counts, DataOf(counts, nss), ss, h), off, i) == At(counts, i)
    ensures forall p: nat :: InData(counts, i, p) ==> Survives(off, counts, i, p)
  {
    var at := PlaceIn(Emit(a, off, counts, DataOf(counts, nss), ss, h), off, i);
    forall p: nat | at <= p < at + 8 * counts[i] ensures Survives(off, counts, i, p) {
      SurvivesThere(a, off, counts, nss, ss, h, i, p);
    }
    assert Survives(off, counts, i, at) && Survives(off, counts, i, at + 8 * counts[i] - 1);
  }

  // Lists that come back leave the same lengths, and the same places of lists not empty.
  lemma {:induction false} SlotsKept(a: Bytes, off: nat, counts: seq<nat>, nss: Lists, nss': Lists, ss: seq<Bytes>,
                                     h: Bytes, i: nat, p: nat)
    requires ListsOf(nss, counts) && ListsOf(nss', counts) && Room(|a|, off, counts) && Tell(counts, ss, h)
    requires ComeBackWith(off, counts, ss, h)
    requires i < |counts| && InSlot(off, i, p) && (p >= Slot(off, i) + 4 || counts[i] > 0)
    ensures Emit(a, off, counts, DataOf(counts, nss), ss, h)[p] == Emit(a, off, counts, DataOf(counts, nss'), ss, h)[p]
  {
    var c, c' := Emit(a, off, counts, DataOf(counts, nss), ss, h), Emit(a, off, counts, DataOf(counts, nss'), ss, h);
    if p >= Slot(off, i) + 4 {
      FieldBack(a, off, counts, nss, ss, h, i);
      FieldBack(a, off, counts, nss', ss, h, i);
      SameBytes(c[Slot(off, i) + 4..Slot(off, i) + 8], c'[Slot(off, i) + 4..Slot(off, i) + 8]);
      assert c[p] == c[Slot(off, i) + 4..Slot(off, i) + 8][p - (Slot(off, i) + 4)];
    } else {
      ReadsItself(a, off, counts, nss, ss, h, i);
      ReadsItself(a, off, counts, nss', ss, h, i);
      SameBytes(c[Slot(off, i)..Slot(off, i) + 4], c'[Slot(off, i)..Slot(off, i) + 4]);
      assert c[p] == c[Slot(off, i)..Slot(off, i) + 4][p - Slot(off, i)];
    }
  }

  lemma {:induction false} OnlyClearAt(a: Bytes, off: nat, counts: seq<nat>, nss: Lists, ss: seq<Bytes>, h: Bytes,
                                       j: nat, p: nat, i: nat)
    requires ListsOf(nss, counts) && Room(|a|, off, counts) && Tell(counts, ss, h) && ComeBackWith(off, counts, ss, h)
    requires InData(counts, j, p) && i < |counts| && InSlot(off, i, p)
    ensures i < j && counts[i] == 0 && p < Slot(off, i) + 4
  {
    ReadsItself(a, off, counts, nss, ss, h, j);
    FilledThere(a, off, counts, nss, ss, h, j, 0, p);
    FilledThere(a, off, counts, nss, ss, h, j, 1, p);
    if p >= Slot(off, i) + 4 || counts[i] > 0 {
      SlotsKept(a, off, counts, With(counts, nss, j, 0), With(counts, nss, j, 1), ss, h, i, p);
    }
  }

  lemma {:induction false} OnlyClear(a: Bytes, off: nat, counts: seq<nat>, nss: Lists, ss: seq<Bytes>, h: Bytes)
    requires ListsOf(nss, counts) && Room(|a|, off, counts) && Tell(counts, ss, h) && ComeBackWith(off, counts, ss, h)
    ensures Clear(off, counts)
  {
    forall j: nat, p: nat | InData(counts, j, p) ensures ClearAt(off, counts, j, p) {
      ReadsItself(a, off, counts, nss, ss, h, j);
      forall i: nat | i < |counts| && InSlot(off, i, p) ensures i < j && counts[i] == 0 && p < Slot(off, i) + 4 {
        OnlyClearAt(a, off, counts, nss, ss, h, j, p, i);
      }
    }
  }

  lemma {:induction false} ExactlyWith(off: nat, counts: seq<nat>, ss: seq<Bytes>, h: Bytes)
    requires Tell(counts, ss, h)
    ensures ComeBackWith(off, counts, ss, h) <==> Clear(off, counts)
  {
    if Clear(off, counts) {
      forall a: Bytes, nss: Lists | ListsOf(nss, counts) && Room(|a|, off, counts)
        ensures Parse(Emit(a, off, counts, DataOf(counts, nss), ss, h), off, |counts|) == Rust.Done(nss)
      {
        ClearComesBack(a, off, counts, nss, ss, h);
      }
    }
    if ComeBackWith(off, counts, ss, h) {
      var a: Bytes := seq(off + At(counts, |counts|), _ => 0);
      var nss := seq(|counts|, i requires 0 <= i < |counts| => Filled(0, counts[i]));
      OnlyClear(a, off, counts, nss, ss, h);
    }
  }

  /**
    All lists of given lengths come back exactly when their bytes keep clear of the header and the
    slots, where an empty list needs only the length in its slot.
   */
  lemma {:induction false} RepeatedExactly(off: nat, counts: seq<nat>)
    requires At(counts, |counts|) < U32_LIMIT
    ensures ComeBack(off, counts) <==> Clear(off, counts)
  {
    AllTell(counts);
    ExactlyWith(off, counts, SlotsOf(counts), HeaderOf(counts));
  }

  /** At the start of a buffer all lists come back. */
  lemma {:induction false} StartsComeBack(counts: seq<nat>)
    requires At(counts, |counts|) < U32_LIMIT
    ensures ComeBack(0, counts)
  {
    forall j: nat, p: nat | InData(counts, j, p) ensures ClearAt(0, counts, j, p) { AtMono(counts, 0, j); }
    RepeatedExactly(0, counts);
  }

  // The first byte of the numbers is in a slot if there are two fields or more, and so are the next seven.
  lemma {:induction false} RequestClash(counts: seq<nat>, j: nat)
    requires |counts| > 1 && j < |counts| && counts[j] > 0 && Count(counts, j) == 0
    ensures !Clear(16, counts)
  {
    var i, p := |counts| - 2, At(counts, j) + 4;
    assert At(counts, j) == Slot(16, i);
    assert InData(counts, j, p) && InSlot(16, i, p) && !ClearAt(16, counts, j, p);
  }

  lemma {:induction false} NoData(counts: seq<nat>, j: nat, p: nat)
    requires Count(counts, |counts|) == 0
    ensures !InData(counts, j, p)
  {
    if j < |counts| {
      AtMono(counts, 0, j);
      AtMono(counts, j + 1, |counts|);
    }
  }

  // The first field with numbers.
  lemma {:induction false} FirstFilled(counts: seq<nat>, n: nat) returns (j: nat)
    requires n <= |counts| && Count(counts, n) > 0
    ensures j < n && counts[j] > 0 && Count(counts, j) == 0
  {
    if Count(counts, n - 1) > 0 { j := FirstFilled(counts, n - 1); } else { j := n - 1; }
  }

  /** In a request, at byte 16, lists come back if all are empty, or if one number in one field is all there is. */
  lemma {:induction false} RequestsCarryOne(counts: seq<nat>)
    requires At(counts, |counts|) < U32_LIMIT
    ensures ComeBack(16, counts) <==> Count(counts, |counts|) == 0 || counts == [1]
  {
    RepeatedExactly(16, counts);
    if Count(counts, |counts|) == 0 {
      forall j: nat, p: nat ensures !InData(counts, j, p) { NoData(counts, j, p); }
    } else if |counts| > 1 {
      var j := FirstFilled(counts, |counts|);
      RequestClash(counts, j);
    } else {
      OneListInRequest(counts, counts[0]);
    }
  }

  lemma {:induction false} OneListInRequest(counts: seq<nat>, n: nat)
    requires counts == [n] && n > 0
    ensures Clear(16, counts) <==> n == 1
  {
    assert Count(counts, 1) == n && At(counts, 0) == 32;
    if n > 1 {
      assert InData(counts, 0, 40) && InSlot(16, 0, 40);
    }
  }
}
