/**
  The C++ serializer of lib/yunq/serialize.h and lib/yunq/serialize.cpp, driven field by field
  in the order of the generated code (yunq/message.cpp.jinja).
 */
module YunqSerializer {
  import opened Common
  import opened YunqFormat
  import opened YunqWrites

  // ----- Capabilities -----

  /** The most capability slots any one message, nested ones included, numbers. */
  function MostCaps(m: Message, i: nat): nat
    requires i <= |m.fields|
    decreases m, i
  {
    if i == 0 then 0 else Max(MostCaps(m, i - 1), MostCapsIn(m, i - 1))
  }

  function MostCapsIn(m: Message, i: nat): nat
    requires i < |m.fields|
    decreases m, i
  {
    match m.fields[i]
    case Capability(_) => CapsUpTo(m, i, PerMessage) + 1
    case Nested(n) => MostCaps(n, |n.fields|)
    case RepeatedNested(ms) => MostCapsAll(ms, |ms|)
    case _ => 0
  }

  function MostCapsAll(ms: seq<Message>, j: nat): nat
    requires j <= |ms|
    decreases ms, j
  {
    if j == 0 then 0 else Max(MostCapsAll(ms, j - 1), MostCaps(ms[j - 1], |ms[j - 1].fields|))
  }

  lemma {:induction false} MostCapsUpTo(m: Message, i: nat, j: nat)
    requires i <= j <= |m.fields|
    ensures MostCaps(m, i) <= MostCaps(m, j)
  {
    if i < j { MostCapsUpTo(m, i, j - 1); }
  }

  lemma {:induction false} MostCapsMono(ms: seq<Message>, i: nat, j: nat)
    requires i <= j <= |ms|
    ensures MostCapsAll(ms, i) <= MostCapsAll(ms, j)
  {
    if i < j { MostCapsMono(ms, i, j - 1); }
  }

  function Max(a: nat, b: nat): nat { if a < b then b else a }

  /** What a capability buffer holds, and how many slots from the front are in use. */
  datatype CapState = CapState(slots: seq<nat>, used: nat) {
    function Stored(k: nat, cap: nat): (r: CapState)
      ensures |r.slots| == |slots|
    {
      if k < |slots| then CapState(slots[k := cap], Max(used, k + 1)) else this
    }
  }

  /** The capability buffer after the first i fields are written. */
  function Caps(c: CapState, m: Message, i: nat): (r: CapState)
    requires i <= |m.fields|
    ensures |r.slots| == |c.slots|
    decreases m, i
  {
    if i == 0 then c else CapsOf(Caps(c, m, i - 1), m, i - 1)
  }

  // The capability buffer after field i is written.
  function CapsOf(c: CapState, m: Message, i: nat): (r: CapState)
    requires i < |m.fields|
    ensures |r.slots| == |c.slots|
    decreases m, i
  {
    match m.fields[i]
    case Capability(cap) => c.Stored(CapsUpTo(m, i, PerMessage), cap)
    case Nested(n) => Caps(c, n, |n.fields|)
    case RepeatedNested(ms) => CapsAll(c, ms, |ms|)
    case _ => c
  }

  function CapsAll(c: CapState, ms: seq<Message>, j: nat): (r: CapState)
    requires j <= |ms|
    ensures |r.slots| == |c.slots|
    decreases ms, j
  {
    if j == 0 then c else Caps(CapsAll(c, ms, j - 1), ms[j - 1], |ms[j - 1].fields|)
  }

  class CapBuffer {
    var state: CapState

    constructor (size: nat)
      ensures |state.slots| == size && state.used == 0
    {
      state := CapState(seq(size, _ => 0), 0);
    }

    method WriteAt(k: nat, cap: nat)
      requires k < |state.slots|
      modifies this
      ensures state == old(state).Stored(k, cap)
    {
      state := state.(slots := state.slots[k := cap]);
      if state.used < k + 1 {
        state := state.(used := k + 1);
      }
    }
  }

  // What serializing the next field needs.
  lemma {:induction false} NextField(m: Message, i: nat, schema: Schema)
    requires Typed(m, schema) && i < |m.fields|
    ensures HasType(m.fields[i], schema.fields[i]) && MostCapsIn(m, i) <= MostCaps(m, |m.fields|)
    ensures ExtAt(m, 0) <= ExtAt(m, i) <= ExtAt(m, i) + Ext(m.fields[i]) == ExtAt(m, i + 1) <= Size(m)
  {
    ExtAtMono(m, 0, i);
    ExtAtMono(m, i + 1, |m.fields|);
    MostCapsUpTo(m, i + 1, |m.fields|);
  }

  // What serializing the next of several messages needs.
  lemma {:induction false} NextMessage(ms: seq<Message>, j: nat, schema: Schema)
    requires HasType(RepeatedNested(ms), RepeatedNestedType(schema)) && j < |ms|
    ensures Typed(ms[j], schema) && Sizes(ms, j) + Size(ms[j]) == Sizes(ms, j + 1) <= Sizes(ms, |ms|)
    ensures MostCaps(ms[j], |ms[j].fields|) <= MostCapsAll(ms, |ms|)
  {
    SizesMono(ms, j + 1, |ms|);
    MostCapsMono(ms, j + 1, |ms|);
  }

  // ----- The serializer -----

  ghost function StyleOf(caps: CapBuffer?): Numbering { if caps == null then ByValue else PerMessage }

  class Serializer {
    const buffer: array<Byte>
    const offset: nat
    const coreSize: nat
    const caps: CapBuffer?
    var nextExtension: nat
    var nextCap: nat

    constructor (buffer: array<Byte>, offset: nat, fields: nat, caps: CapBuffer?)
      ensures this.buffer == buffer && this.offset == offset && this.caps == caps
      ensures coreSize == nextExtension == 24 + 8 * fields && nextCap == 0
    {
      this.buffer, this.offset, this.caps := buffer, offset, caps;
      coreSize, nextExtension, nextCap := 24 + 8 * fields, 24 + 8 * fields, 0;
    }

    // Slot i is before the extensions; len more bytes fit the buffer and a 32-bit offset.
    ghost predicate Room(i: nat, len: nat)
      reads this
    {
      && Slot(offset, i) + 8 <= offset + nextExtension <= offset + nextExtension + len <= buffer.Length
      && offset + nextExtension + len < U32_LIMIT
    }

    method WriteU64(i: nat, n: nat)
      requires Room(i, 0) && n < U64_LIMIT
      modifies buffer
      ensures Written(old(buffer[..]), buffer[..], offset, i, nextExtension, U64(n), StyleOf(caps), nextCap)
    {
      WordWritten(buffer[..], Slot(offset, i), n);
      WriteBytes(buffer, Slot(offset, i), Digits(n, 8));
    }

    method WriteI64(i: nat, n: int)
      requires Room(i, 0) && HasType(I64(n), I64Type)
      modifies buffer
      ensures Written(old(buffer[..]), buffer[..], offset, i, nextExtension, I64(n), StyleOf(caps), nextCap)
    {
      WordWritten(buffer[..], Slot(offset, i), ToU64(n));
      WriteBytes(buffer, Slot(offset, i), Digits(ToU64(n), 8));
    }

    method WriteString(i: nat, s: Bytes)
      requires Room(i, |s|)
      modifies buffer, this`nextExtension
      ensures nextExtension == old(nextExtension) + |s|
      ensures Written(old(buffer[..]), buffer[..], offset, i, old(nextExtension), String(s), StyleOf(caps), nextCap)
    {
      var ext := nextExtension;
      ghost var before := buffer[..];
      WriteData(buffer, offset + ext, s);
      nextExtension := ext + |s|;
      ghost var a := buffer[..];
      WritePointer(i, ext, |s|);
      StringWritten(before, a, buffer[..], offset, i, ext, s, StyleOf(caps), nextCap);
    }

    method WritePointer(i: nat, ext: nat, length: nat)
      requires Slot(offset, i) + 8 <= buffer.Length && ext < U32_LIMIT && length < U32_LIMIT
      modifies buffer
      ensures PointerAt(buffer[..], Slot(offset, i), ext, length)
      ensures Outside(old(buffer[..]), buffer[..], Slot(offset, i), Slot(offset, i) + 8)
    {
      PointerWritten(buffer[..], Slot(offset, i), ext, length);
      WriteBytes(buffer, Slot(offset, i), Pointer(ext, length));
    }

    method WriteRepeatedU64(i: nat, ns: seq<nat>)
      requires Room(i, 8 * |ns|) && HasType(RepeatedU64(ns), RepeatedU64Type)
      modifies buffer, this`nextExtension
      ensures nextExtension == old(nextExtension) + 8 * |ns|
      ensures Written(old(buffer[..]), buffer[..], offset, i, old(nextExtension), RepeatedU64(ns), StyleOf(caps),
                      nextCap)
    {
      var ext := nextExtension;
      ghost var before := buffer[..];
      nextExtension := nextExtension + 8 * |ns|;
      WritePointer(i, ext, 8 * |ns|);
      WriteWords(i, ext, ns, before);
    }

    // The numbers one after another; before is the buffer as it was before the pointer.
    method WriteWords(i: nat, ext: nat, ns: seq<nat>, ghost before: Bytes)
      requires offset + ext + 8 * |ns| <= buffer.Length && Slot(offset, i) + 8 <= offset + ext
      requires HasType(RepeatedU64(ns), RepeatedU64Type) && WordsWritten(before, buffer[..], offset, i, ext, ns, 0)
      modifies buffer
      ensures WordsWritten(before, buffer[..], offset, i, ext, ns, |ns|)
    {
      for j := 0 to |ns|
        invariant WordsWritten(before, buffer[..], offset, i, ext, ns, j)
      {
        ghost var b := buffer[..];
        WriteWord(buffer, offset + ext + 8 * j, ns[j]);
        WordsStep(before, b, buffer[..], offset, i, ext, ns, j);
      }
    }

    method WriteCapability(i: nat, cap: nat)
      requires Room(i, 0) && cap < U64_LIMIT
      requires caps != null ==> nextCap < |caps.state.slots| < U64_LIMIT
      modifies buffer, this`nextCap, caps
      ensures Written(old(buffer[..]), buffer[..], offset, i, nextExtension, Capability(cap), StyleOf(caps),
                      old(nextCap))
      ensures caps == null ==> nextCap == old(nextCap)
      ensures caps != null ==> nextCap == old(nextCap) + 1
      ensures caps != null ==> caps.state == old(caps.state).Stored(old(nextCap), cap)
    {
      if caps != null {
        WordWritten(buffer[..], Slot(offset, i), nextCap);
        WriteBytes(buffer, Slot(offset, i), Digits(nextCap, 8));
        caps.WriteAt(nextCap, cap);
        nextCap := nextCap + 1;
      } else {
        WriteU64(i, cap);
      }
    }

    method WriteHeader()
      requires offset + 16 <= buffer.Length && nextExtension < U32_LIMIT && coreSize < U32_LIMIT
      modifies buffer
      ensures HeaderAt(buffer[..], offset, coreSize, nextExtension)
      ensures Outside(old(buffer[..]), buffer[..], offset, offset + 16)
    {
      WriteU32(buffer, offset, IDENT);
      ghost var b1 := buffer[..];
      WriteU32(buffer, offset + 4, coreSize);
      ghost var b2 := buffer[..];
      WriteU32(buffer, offset + 8, nextExtension);
      ghost var b3 := buffer[..];
      WriteU32(buffer, offset + 12, 0);
      HeaderWritten(old(buffer[..]), b1, b2, b3, buffer[..], offset, coreSize, nextExtension);
    }

    /** The call the generated code makes for field i. */
    method Write(m: Message, i: nat, ghost t: FieldType)
      requires i < |m.fields| && HasType(m.fields[i], t) && Room(i, Ext(m.fields[i]))
      requires caps != null ==>
                 nextCap == CapsUpTo(m, i, PerMessage) && MostCapsIn(m, i) <= |caps.state.slots| < U64_LIMIT
      modifies buffer, this`nextExtension, this`nextCap, caps
      ensures nextExtension == old(nextExtension) + Ext(m.fields[i])
      ensures Written(old(buffer[..]), buffer[..], offset, i, old(nextExtension), m.fields[i], StyleOf(caps),
                      old(nextCap))
      ensures caps != null ==> nextCap == CapsUpTo(m, i + 1, PerMessage) && caps.state == CapsOf(old(caps.state), m, i)
      decreases m, 0
    {
      match m.fields[i] {
        case U64(n) => WriteU64(i, n);
        case I64(n) => WriteI64(i, n);
        case String(s) => WriteString(i, s);
        case RepeatedU64(ns) => WriteRepeatedU64(i, ns);
        case Nested(n) => WriteMessage(i, n, t.schema);
        case RepeatedNested(ms) => WriteRepeatedMessage(i, ms, t.schema);
        case Capability(c) => WriteCapability(i, c);
      }
    }

    /** Serializes a nested message into the next extension. */
    method WriteMessage(i: nat, m: Message, ghost schema: Schema)
      requires Typed(m, schema) && Room(i, Size(m))
      requires caps != null ==> MostCaps(m, |m.fields|) <= |caps.state.slots| < U64_LIMIT
      modifies buffer, this`nextExtension, caps
      ensures nextExtension == old(nextExtension) + Size(m)
      ensures Written(old(buffer[..]), buffer[..], offset, i, old(nextExtension), Nested(m), StyleOf(caps), nextCap)
      ensures caps != null ==> caps.state == Caps(old(caps.state), m, |m.fields|)
      decreases m, |m.fields| + 2
    {
      var length := SerializeToBytes(buffer, offset + nextExtension, m, schema, caps);
      ghost var a := buffer[..];
      WritePointer(i, nextExtension, length);
      NestedWritten(old(buffer[..]), a, buffer[..], offset, i, nextExtension, m, StyleOf(caps), nextCap);
      nextExtension := nextExtension + length;
    }

    /** Serializes messages one after another into the next extension. */
    method WriteRepeatedMessage(i: nat, ms: seq<Message>, ghost schema: Schema)
      requires HasType(RepeatedNested(ms), RepeatedNestedType(schema)) && Room(i, Sizes(ms, |ms|))
      requires caps != null ==> MostCapsAll(ms, |ms|) <= |caps.state.slots| < U64_LIMIT
      modifies buffer, this`nextExtension, caps
      ensures nextExtension == old(nextExtension) + Sizes(ms, |ms|)
      ensures Written(old(buffer[..]), buffer[..], offset, i, old(nextExtension), RepeatedNested(ms), StyleOf(caps),
                      nextCap)
      ensures caps != null ==> caps.state == CapsAll(old(caps.state), ms, |ms|)
      decreases ms, 1
    {
      var ext := nextExtension;
      var length := SerializeAll(buffer, offset + ext, ms, schema, caps);
      ghost var a := buffer[..];
      WritePointer(i, ext, length);
      RepeatedWritten(old(buffer[..]), a, buffer[..], offset, i, ext, ms, StyleOf(caps), nextCap);
      nextExtension := nextExtension + length;
    }
  }

  /** Writes the messages one after another. */
  method SerializeAll(buf: array<Byte>, at: nat, ms: seq<Message>, ghost schema: Schema, caps: CapBuffer?)
    returns (length: nat)
    requires HasType(RepeatedNested(ms), RepeatedNestedType(schema))
    requires at + Sizes(ms, |ms|) <= buf.Length && at + Sizes(ms, |ms|) < U32_LIMIT
    requires caps != null ==> MostCapsAll(ms, |ms|) <= |caps.state.slots| < U64_LIMIT
    modifies buf, caps
    ensures length == Sizes(ms, |ms|) && MessagesWritten(old(buf[..]), buf[..], at, ms, |ms|, StyleOf(caps))
    ensures caps != null ==> caps.state == CapsAll(old(caps.state), ms, |ms|)
    decreases ms, 0
  {
    length := 0;
    var j := 0;
    while j < |ms|
      invariant 0 <= j <= |ms| && length == Sizes(ms, j)
      invariant MessagesWritten(old(buf[..]), buf[..], at, ms, j, StyleOf(caps))
      invariant caps != null ==> caps.state == CapsAll(old(caps.state), ms, j)
    {
      NextMessage(ms, j, schema);
      var n := SerializeNext(buf, at, ms, j, at + length, schema, old(buf[..]), caps);
      length := length + n;
      j := j + 1;
    }
  }

  method SerializeNext(buf: array<Byte>, ghost at: nat, ms: seq<Message>, j: nat, k: nat, ghost schema: Schema,
                       ghost start: Bytes, caps: CapBuffer?)
    returns (n: nat)
    requires j < |ms| && Typed(ms[j], schema) && k + Size(ms[j]) <= buf.Length && k + Size(ms[j]) < U32_LIMIT
    requires caps != null ==> MostCaps(ms[j], |ms[j].fields|) <= |caps.state.slots| < U64_LIMIT
    requires k == at + Sizes(ms, j) && MessagesWritten(start, buf[..], at, ms, j, StyleOf(caps))
    modifies buf, caps
    ensures n == Size(ms[j]) && MessagesWritten(start, buf[..], at, ms, j + 1, StyleOf(caps))
    ensures caps != null ==> caps.state == Caps(old(caps.state), ms[j], |ms[j].fields|)
    decreases ms[j], |ms[j].fields| + 2
  {
    n := SerializeToBytes(buf, k, ms[j], schema, caps);
    MessagesStep(start, old(buf[..]), buf[..], at, ms, j, k, StyleOf(caps));
  }

  /**
   * Writes the message at off and nothing outside its Size(m) bytes, whatever the buffer held.
   * With a capability buffer, capabilities go there and slots hold their numbers.
   */
  method SerializeToBytes(buf: array<Byte>, off: nat, m: Message, ghost schema: Schema, caps: CapBuffer?)
    returns (size: nat)
    requires Typed(m, schema) && off + Size(m) <= buf.Length && off + Size(m) < U32_LIMIT
    requires caps != null ==> MostCaps(m, |m.fields|) <= |caps.state.slots| < U64_LIMIT
    modifies buf, caps
    ensures size == Size(m) && MessageAt(buf[..], off, m, StyleOf(caps), 0)
    ensures Outside(old(buf[..]), buf[..], off, off + Size(m))
    ensures caps != null ==> caps.state == Caps(old(caps.state), m, |m.fields|)
    decreases m, |m.fields| + 1
  {
    var ser := new Serializer(buf, off, |m.fields|, caps);
    var i := 0;
    while i < |m.fields|
      invariant 0 <= i <= |m.fields| && ser.buffer == buf && ser.offset == off && ser.caps == caps
      invariant ser.nextExtension == ExtAt(m, i) && (caps != null ==> ser.nextCap == CapsUpTo(m, i, PerMessage))
      invariant FieldsWritten(old(buf[..]), buf[..], off, m, i, StyleOf(caps), 0)
      invariant caps != null ==> caps.state == Caps(old(caps.state), m, i)
    {
      ghost var a := buf[..];
      NextField(m, i, schema);
      ghost var ext, number := ser.nextExtension, ser.nextCap;
      ser.Write(m, i, schema.fields[i]);
      FieldsStep(old(buf[..]), a, buf[..], off, m, i, StyleOf(caps), 0, ext, number);
      i := i + 1;
    }
    ghost var a := buf[..];
    ser.WriteHeader();
    FieldsThenHeader(old(buf[..]), a, buf[..], off, m, StyleOf(caps), 0);
    size := ser.nextExtension;
  }
}
