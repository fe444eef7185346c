/**
  The yunq wire format shared by the C++ library (lib/yunq) and the generated Rust code
  (yunq/rust/src/codegen.rs).

  A message is a 24-byte header, one 8-byte slot per field, and the extensions the slots point
  to: strings, repeated numbers and nested messages. MessageAt says what it is for a buffer to
  hold a message; it names neither serializer.
 */
module YunqFormat {
  import opened Common

  type Byte = b: int | 0 <= b < 256
  type Bytes = seq<Byte>

  datatype FieldType =
    | U64Type
    | I64Type
    | StringType
    | RepeatedU64Type
    | NestedType(schema: Schema)
    | RepeatedNestedType(schema: Schema)
    | CapabilityType

  datatype Schema = Schema(fields: seq<FieldType>)

  datatype Value =
    | U64(n: nat)
    | I64(i: int)
    | String(s: Bytes)
    | RepeatedU64(ns: seq<nat>)
    | Nested(m: Message)
    | RepeatedNested(ms: seq<Message>)
    | Capability(cap: nat)

  datatype Message = Message(fields: seq<Value>)

  const IDENT: nat := 0x33441122
  const U32_LIMIT: nat := 0x1_0000_0000

  predicate HasType(v: Value, t: FieldType)
    decreases v
  {
    match t
    case U64Type => v.U64? && v.n < U64_LIMIT
    case I64Type => v.I64? && -0x8000_0000_0000_0000 <= v.i < 0x8000_0000_0000_0000
    case StringType => v.String?
    case RepeatedU64Type => v.RepeatedU64? && forall j :: 0 <= j < |v.ns| ==> v.ns[j] < U64_LIMIT
    case NestedType(s) => v.Nested? && Typed(v.m, s)
    case RepeatedNestedType(s) => v.RepeatedNested? && forall j :: 0 <= j < |v.ms| ==> Typed(v.ms[j], s)
    case CapabilityType => v.Capability? && v.cap < U64_LIMIT
  }

  /** The message has the fields of the schema, each in range. */
  predicate Typed(m: Message, s: Schema)
    decreases m
  {
    |m.fields| == |s.fields| && forall i :: 0 <= i < |m.fields| ==> HasType(m.fields[i], s.fields[i])
  }

  // ----- Little-endian numbers -----

  function Limit(w: nat): nat { if w == 0 then 1 else 256 * Limit(w - 1) }

  lemma {:induction false} Limits()
    ensures Limit(4) == U32_LIMIT && Limit(8) == U64_LIMIT
  {
    assert Limit(4) == 256 * Limit(3) && Limit(3) == 256 * Limit(2) && Limit(2) == 256 * Limit(1);
    assert Limit(8) == 256 * Limit(7) && Limit(7) == 256 * Limit(6) && Limit(6) == 256 * Limit(5)
    && Limit(5) == 256 * Limit(4);
  }

  /** The w-byte number at k. */
  function Num(buf: Bytes, k: nat, w: nat): nat
    requires k + w <= |buf|
    decreases w
  {
    if w == 0 then 0 else buf[k] + 256 * Num(buf, k + 1, w - 1)
  }

  function Digits(n: nat, w: nat): (r: Bytes)
    ensures |r| == w
  {
    if w == 0 then [] else [n % 256] + Digits(n / 256, w - 1)
  }

  /** The buffer with data written over it at k. */
  function Put(buf: Bytes, k: nat, data: Bytes): (r: Bytes)
    requires k + |data| <= |buf|
    ensures |r| == |buf|
  {
    buf[..k] + data + buf[k + |data|..]
  }

  ghost predicate Holds(buf: Bytes, k: nat, data: Bytes) {
    k + |data| <= |buf| && forall j :: 0 <= j < |data| ==> buf[k + j] == data[j]
  }

  // The buffers agree on [lo, hi), as far as they reach.
  ghost predicate Same(a: Bytes, b: Bytes, lo: int, hi: int) {
    |a| == |b| && forall j {:trigger b[j]} :: lo <= j < hi && 0 <= j < |a| ==> a[j] == b[j]
  }

  // The buffers agree outside [lo, hi).
  ghost predicate Outside(a: Bytes, b: Bytes, lo: int, hi: int) {
    |a| == |b| && forall j {:trigger b[j]} :: (j < lo || hi <= j) && 0 <= j < |a| ==> a[j] == b[j]
  }

  lemma {:induction false} PutHolds(buf: Bytes, k: nat, data: Bytes)
    requires k + |data| <= |buf|
    ensures Holds(Put(buf, k, data), k, data) && Outside(buf, Put(buf, k, data), k, k + |data|)
  {
  }

  lemma {:induction false} HoldsTail(buf: Bytes, k: nat, data: Bytes)
    requires Holds(buf, k, data) && |data| > 0
    ensures Holds(buf, k + 1, data[1..])
  {
    var tail := data[1..];
    forall j | 0 <= j < |tail| ensures buf[(k + 1) + j] == tail[j] {
      assert buf[k + (j + 1)] == data[j + 1];
    }
  }

  lemma {:induction false} NumOfDigits(buf: Bytes, k: nat, n: nat, w: nat)
    requires n < Limit(w) && Holds(buf, k, Digits(n, w))
    ensures Num(buf, k, w) == n
    decreases w
  {
    if w > 0 {
      HoldsTail(buf, k, Digits(n, w));
      assert Digits(n, w)[1..] == Digits(n / 256, w - 1);
      NumOfDigits(buf, k + 1, n / 256, w - 1);
      assert buf[k + 0] == Digits(n, w)[0];
    }
  }

  lemma {:induction false} NumFrame(a: Bytes, b: Bytes, k: nat, w: nat)
    requires k + w <= |a| && Same(a, b, k, k + w)
    ensures Num(a, k, w) == Num(b, k, w)
    decreases w
  {
    if w > 0 { NumFrame(a, b, k + 1, w - 1); }
  }

  // Four bytes as a number, the lowest first.
  function Of(a: nat, b: nat, c: nat, d: nat): nat { a + 256 * (b + 256 * (c + 256 * d)) }

  lemma {:induction false} OneDigit(x: nat, y: nat, x': nat, y': nat)
    requires x < 256 && x' < 256 && x + 256 * y == x' + 256 * y'
    ensures x == x' && y == y'
  {
  }

  lemma {:induction false} FourDigits(buf: Bytes, k: nat)
    requires k + 4 <= |buf|
    ensures Num(buf, k, 4) == Of(buf[k], buf[k + 1], buf[k + 2], buf[k + 3])
  {
    assert Num(buf, k + 3, 1) == buf[k + 3];
    assert Num(buf, k + 1, 3) == buf[k + 1] + 256 * Num(buf, k + 2, 2);
  }

  /** Only one row of four bytes has a given value. */
  lemma {:induction false} FourBytes(buf: Bytes, k: nat, d: Bytes)
    requires k + 4 <= |buf| && |d| == 4
    ensures Num(buf, k, 4) == Of(d[0], d[1], d[2], d[3]) <==> buf[k..k + 4] == d
  {
    FourDigits(buf, k);
    var s := buf[k..k + 4];
    if Num(buf, k, 4) == Of(d[0], d[1], d[2], d[3]) {
      OneDigit(s[0], Of(s[1], s[2], s[3], 0), d[0], Of(d[1], d[2], d[3], 0));
      OneDigit(s[1], Of(s[2], s[3], 0, 0), d[1], Of(d[2], d[3], 0, 0));
      OneDigit(s[2], s[3], d[2], d[3]);
    }
  }

  const IDENT_BYTES: Bytes := [0x22, 0x11, 0x44, 0x33]

  lemma {:induction false} IdentBytes(buf: Bytes, k: nat)
    requires k + 4 <= |buf|
    ensures Num(buf, k, 4) == IDENT <==> buf[k..k + 4] == IDENT_BYTES
  {
    FourBytes(buf, k, IDENT_BYTES);
  }

  // ----- Layout -----

  /** Bytes a value takes up among the extensions. */
  function Ext(v: Value): nat
    decreases v
  {
    match v
    case String(s) => |s|
    case RepeatedU64(ns) => 8 * |ns|
    case Nested(m) => ExtAt(m, |m.fields|)
    case RepeatedNested(ms) => Sizes(ms, |ms|)
    case _ => 0
  }

  /** Total size of the first j messages. */
  function Sizes(ms: seq<Message>, j: nat): nat
    requires j <= |ms|
    decreases ms, j
  {
    if j == 0 then 0 else Sizes(ms, j - 1) + ExtAt(ms[j - 1], |ms[j - 1].fields|)
  }

  /** Where the extension of field i begins, counted from the start of the message. */
  function ExtAt(m: Message, i: nat): (r: nat)
    requires i <= |m.fields|
    ensures r >= 24 + 8 * |m.fields|
    decreases m, i
  {
    if i == 0 then 24 + 8 * |m.fields| else ExtAt(m, i - 1) + Ext(m.fields[i - 1])
  }

  function Size(m: Message): nat { ExtAt(m, |m.fields|) }

  lemma {:induction false} ExtAtMono(m: Message, i: nat, j: nat)
    requires i <= j <= |m.fields|
    ensures ExtAt(m, i) <= ExtAt(m, j)
  {
    if i < j { ExtAtMono(m, i, j - 1); }
  }

  lemma {:induction false} SizesMono(ms: seq<Message>, i: nat, j: nat)
    requires i <= j <= |ms|
    ensures Sizes(ms, i) <= Sizes(ms, j)
  {
    if i < j { SizesMono(ms, i, j - 1); }
  }

  function Slot(off: nat, i: nat): nat { off + 24 + 8 * i }

  // ----- What is in the buffer -----

  /**
   * What the slot of a capability holds: its value, or its place in the capability buffer,
   * counted afresh in every nested message or through all of them.
   */
  datatype Numbering = ByValue | PerMessage | Global

  function CapCount(v: Value, style: Numbering): nat
    decreases v
  {
    match v
    case Capability(_) => 1
    case Nested(m) => if style == Global then CapsUpTo(m, |m.fields|, style) else 0
    case _ => 0
  }

  /** Capabilities numbered before field i. */
  function CapsUpTo(m: Message, i: nat, style: Numbering): nat
    requires i <= |m.fields|
    decreases m, i
  {
    if i == 0 then 0 else CapsUpTo(m, i - 1, style) + CapCount(m.fields[i - 1], style)
  }

  lemma {:induction false} CapsUpToMono(m: Message, i: nat, j: nat, style: Numbering)
    requires i <= j <= |m.fields|
    ensures CapsUpTo(m, i, style) <= CapsUpTo(m, j, style)
  {
    if i < j { CapsUpToMono(m, i, j - 1, style); }
  }

  function ToU64(i: int): int { if i < 0 then i + U64_LIMIT else i }

  function FromU64(n: nat): int { if n < 0x8000_0000_0000_0000 then n else n - U64_LIMIT }

  ghost predicate WordAt(buf: Bytes, k: nat, n: int) {
    k + 8 <= |buf| && Num(buf, k, 8) == n
  }

  ghost predicate PointerAt(buf: Bytes, k: nat, offset: nat, length: nat) {
    k + 8 <= |buf| && Num(buf, k, 4) == offset && Num(buf, k + 4, 4) == length
  }

  // The first j numbers, one after another.
  ghost predicate WordsAt(buf: Bytes, k: nat, ns: seq<nat>, j: nat)
    requires j <= |ns|
  {
    j == 0 || (WordsAt(buf, k, ns, j - 1) && WordAt(buf, k + 8 * (j - 1), ns[j - 1]))
  }

  ghost predicate FieldAt(buf: Bytes, off: nat, i: nat, ext: nat, v: Value, style: Numbering, base: nat)
    decreases v
  {
    match v
    case U64(n) => WordAt(buf, Slot(off, i), n)
    case I64(n) => WordAt(buf, Slot(off, i), ToU64(n))
    case String(s) => PointerAt(buf, Slot(off, i), ext, |s|) && Holds(buf, off + ext, s)
    case RepeatedU64(ns) => PointerAt(buf, Slot(off, i), ext, 8 * |ns|) && WordsAt(buf, off + ext, ns, |ns|)
    case Nested(m) => PointerAt(buf, Slot(off, i), ext, Size(m))
    && MessageAt(buf, off + ext, m, style, if style == Global then base else 0)
    case RepeatedNested(ms) =>
      PointerAt(buf, Slot(off, i), ext, Sizes(ms, |ms|)) && MessagesAt(buf, off + ext, ms, |ms|, style)
    case Capability(c) => WordAt(buf, Slot(off, i), if style == ByValue then c else base)
  }

  ghost predicate MessagesAt(buf: Bytes, at: nat, ms: seq<Message>, j: nat, style: Numbering)
    requires j <= |ms|
    decreases ms, j
  {
    j == 0 || (MessagesAt(buf, at, ms, j - 1, style) && MessageAt(buf, at + Sizes(ms, j - 1), ms[j - 1], style, 0))
  }

  // The first i fields.
  ghost predicate FieldsAt(buf: Bytes, off: nat, m: Message, i: nat, style: Numbering, base: nat)
    requires i <= |m.fields|
    decreases m, i
  {
    i == 0 || (FieldsAt(buf, off, m, i - 1, style, base)
               && FieldAt(buf, off, i - 1, ExtAt(m, i - 1), m.fields[i - 1], style, base + CapsUpTo(m, i - 1, style)))
  }

  ghost predicate HeaderAt(buf: Bytes, off: nat, core: nat, size: nat) {
    && off + 16 <= |buf| && Num(buf, off, 4) == IDENT && Num(buf, off + 4, 4) == core
    && Num(buf, off + 8, 4) == size && Num(buf, off + 12, 4) == 0
  }

  /** The buffer holds the message at off. */
  ghost predicate MessageAt(buf: Bytes, off: nat, m: Message, style: Numbering, base: nat)
    decreases m, |m.fields| + 1
  {
    HeaderAt(buf, off, 24 + 8 * |m.fields|, Size(m)) && FieldsAt(buf, off, m, |m.fields|, style, base)
  }

  // ----- What a message depends on -----

  lemma {:induction false} WordsFrame(a: Bytes, b: Bytes, k: nat, ns: seq<nat>, j: nat)
    requires j <= |ns| && WordsAt(a, k, ns, j) && Same(a, b, k, k + 8 * j)
    ensures WordsAt(b, k, ns, j)
  {
    if j > 0 {
      WordsFrame(a, b, k, ns, j - 1);
      NumFrame(a, b, k + 8 * (j - 1), 8);
    }
  }

  lemma {:induction false} HoldsFrame(a: Bytes, b: Bytes, k: nat, data: Bytes)
    requires Holds(a, k, data) && Same(a, b, k, k + |data|)
    ensures Holds(b, k, data)
  {
  }

  lemma {:induction false} SlotFrame(a: Bytes, b: Bytes, k: nat)
    requires Same(a, b, k, k + 8)
    ensures forall n :: WordAt(a, k, n) ==> WordAt(b, k, n)
    ensures forall offset, length :: PointerAt(a, k, offset, length) ==> PointerAt(b, k, offset, length)
  {
    if k + 8 <= |a| {
      NumFrame(a, b, k, 8);
      NumFrame(a, b, k, 4);
      NumFrame(a, b, k + 4, 4);
    }
  }

  lemma {:induction false} FieldFrame(a: Bytes, b: Bytes, off: nat, i: nat, ext: nat, v: Value, style: Numbering,
                                      base: nat)
    requires FieldAt(a, off, i, ext, v, style, base)
    requires Same(a, b, Slot(off, i), Slot(off, i) + 8) && Same(a, b, off + ext, off + ext + Ext(v))
    ensures FieldAt(b, off, i, ext, v, style, base)
    decreases v
  {
    SlotFrame(a, b, Slot(off, i));
    match v
    case String(s) => HoldsFrame(a, b, off + ext, s);
    case RepeatedU64(ns) => WordsFrame(a, b, off + ext, ns, |ns|);
    case Nested(m) => MessageFrame(a, b, off + ext, m, style, if style == Global then base else 0);
    case RepeatedNested(ms) => MessagesFrame(a, b, off + ext, ms, |ms|, style);
    case _ =>
  }

  lemma {:induction false} MessagesFrame(a: Bytes, b: Bytes, at: nat, ms: seq<Message>, j: nat, style: Numbering)
    requires j <= |ms| && MessagesAt(a, at, ms, j, style) && Same(a, b, at, at + Sizes(ms, j))
    ensures MessagesAt(b, at, ms, j, style)
    decreases ms, j
  {
    if j > 0 {
      MessagesFrame(a, b, at, ms, j - 1, style);
      MessageFrame(a, b, at + Sizes(ms, j - 1), ms[j - 1], style, 0);
    }
  }

  // The first i fields live in their slots and in the extensions before that of field i.
  lemma {:induction false} FieldsFrame(a: Bytes, b: Bytes, off: nat, m: Message, i: nat, style: Numbering, base: nat)
    requires i <= |m.fields| && FieldsAt(a, off, m, i, style, base)
    requires Same(a, b, Slot(off, 0), Slot(off, i)) && Same(a, b, off + ExtAt(m, 0), off + ExtAt(m, i))
    ensures FieldsAt(b, off, m, i, style, base)
    decreases m, i
  {
    if i > 0 {
      ExtAtMono(m, 0, i - 1);
      FieldsFrame(a, b, off, m, i - 1, style, base);
      FieldFrame(a, b, off, i - 1, ExtAt(m, i - 1), m.fields[i - 1], style, base + CapsUpTo(m, i - 1, style));
    }
  }

  lemma {:induction false} HeaderFrame(a: Bytes, b: Bytes, off: nat, core: nat, size: nat)
    requires HeaderAt(a, off, core, size) && Same(a, b, off, off + 16)
    ensures HeaderAt(b, off, core, size)
  {
    NumFrame(a, b, off, 4);
    NumFrame(a, b, off + 4, 4);
    NumFrame(a, b, off + 8, 4);
    NumFrame(a, b, off + 12, 4);
  }

  /** Whether a message is in a buffer depends only on the Size(m) bytes it occupies. */
  lemma {:induction false} MessageFrame(a: Bytes, b: Bytes, off: nat, m: Message, style: Numbering, base: nat)
    requires MessageAt(a, off, m, style, base) && Same(a, b, off, off + Size(m))
    ensures MessageAt(b, off, m, style, base)
    decreases m, |m.fields| + 1
  {
    HeaderFrame(a, b, off, 24 + 8 * |m.fields|, Size(m));
    FieldsFrame(a, b, off, m, |m.fields|, style, base);
  }

  lemma {:induction false} FieldOf(buf: Bytes, off: nat, m: Message, n: nat, k: nat, style: Numbering, base: nat)
    requires k < n <= |m.fields| && FieldsAt(buf, off, m, n, style, base)
    ensures FieldAt(buf, off, k, ExtAt(m, k), m.fields[k], style, base + CapsUpTo(m, k, style))
    decreases n
  {
    if k < n - 1 { FieldOf(buf, off, m, n - 1, k, style, base); }
  }

  lemma {:induction false} HoldsIsSlice(buf: Bytes, k: nat, data: Bytes)
    requires Holds(buf, k, data)
    ensures buf[k..k + |data|] == data
  {
  }
}
