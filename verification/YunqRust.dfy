/**
  The serializers and parsers the Rust generator emits (yunq/rust/src/codegen.rs) over its
  bounds-checked buffer (rust/lib/yunq/src/buffer.rs), for schemas without repeated fields.

  Capabilities are appended to one list and numbered through all nested messages.
 */
module YunqRust {
  import opened Common
  import opened YunqFormat
  import opened YunqWrites

  datatype ZError = BufferSize | InvalidArgument | InvalidResponse

  /** No repeated field at any depth. */
  predicate Plain(s: Schema)
    decreases s
  {
    forall i :: 0 <= i < |s.fields| ==> PlainType(s.fields[i])
  }

  predicate PlainType(t: FieldType)
    decreases t
  {
    match t
    case RepeatedU64Type => false
    case RepeatedNestedType(_) => false
    case NestedType(s) => Plain(s)
    case _ => true
  }

  // ----- When a message fits -----

  // Every write for the first i fields stays within n bytes.
  predicate FieldsFit(m: Message, i: nat, off: nat, n: nat)
    requires i <= |m.fields|
    decreases m, i
  {
    i == 0 || (FieldsFit(m, i - 1, off, n) && FieldFits(m.fields[i - 1], i - 1, ExtAt(m, i - 1), off, n))
  }

  predicate FieldFits(v: Value, i: nat, ext: nat, off: nat, n: nat)
    decreases v
  {
    && Slot(off, i) + 8 <= n
    && (v.String? ==> off + ext + |v.s| <= n)
    && (v.Nested? ==> MessageFits(v.m, off + ext, n))
  }

  predicate MessageFits(m: Message, off: nat, n: nat)
    decreases m, |m.fields| + 1
  {
    FieldsFit(m, |m.fields|, off, n) && off + 16 <= n
  }

  /** What fits is decided by the size, up to the 8 option bytes that are never written. */
  lemma {:induction false} FitsBySize(m: Message, s: Schema, off: nat, n: nat)
    requires Typed(m, s) && Plain(s)
    ensures off + Size(m) <= n ==> MessageFits(m, off, n)
    ensures MessageFits(m, off, n) ==> off + Size(m) <= n + 8
    decreases m, |m.fields| + 1
  {
    ExtAtMono(m, 0, |m.fields|);
    FieldsFitBySize(m, |m.fields|, s, off, n);
  }

  lemma {:induction false} FieldsFitBySize(m: Message, i: nat, s: Schema, off: nat, n: nat)
    requires i <= |m.fields| && Typed(m, s) && Plain(s)
    ensures off + ExtAt(m, i) <= n ==> FieldsFit(m, i, off, n)
    ensures FieldsFit(m, i, off, n) && i > 0 ==> Slot(off, i) <= n
    ensures FieldsFit(m, i, off, n) ==> ExtAt(m, i) == ExtAt(m, 0) || off + ExtAt(m, i) <= n + 8
    decreases m, i
  {
    if i > 0 {
      ExtAtMono(m, 0, i - 1);
      FieldsFitBySize(m, i - 1, s, off, n);
      FieldFitsBySize(m.fields[i - 1], s.fields[i - 1], i - 1, ExtAt(m, i - 1), off, n);
    }
  }

  lemma {:induction false} FieldFitsBySize(v: Value, t: FieldType, i: nat, ext: nat, off: nat, n: nat)
    requires HasType(v, t) && PlainType(t) && Slot(off, i) + 8 <= off + ext
    ensures off + ext + Ext(v) <= n ==> FieldFits(v, i, ext, off, n)
    ensures FieldFits(v, i, ext, off, n) ==> Slot(off, i) + 8 <= n && (Ext(v) == 0 || off + ext + Ext(v) <= n + 8)
    decreases v
  {
    if v.Nested? { FitsBySize(v.m, t.schema, off + ext, n); }
  }

  lemma {:induction false} FieldsFitMono(m: Message, i: nat, j: nat, off: nat, n: nat)
    requires i <= j <= |m.fields| && FieldsFit(m, j, off, n)
    ensures FieldsFit(m, i, off, n)
  {
    if i < j { FieldsFitMono(m, i, j - 1, off, n); }
  }

  // ----- Capabilities in order -----

  function CapList(m: Message, i: nat): seq<nat>
    requires i <= |m.fields|
    decreases m, i
  {
    if i == 0 then [] else CapList(m, i - 1) + CapListOf(m.fields[i - 1])
  }

  function CapListOf(v: Value): seq<nat>
    decreases v
  {
    match v
    case Capability(c) => [c]
    case Nested(m) => CapList(m, |m.fields|)
    case _ => []
  }

  lemma {:induction false} CapListLength(m: Message, i: nat)
    requires i <= |m.fields|
    ensures |CapList(m, i)| == CapsUpTo(m, i, Global)
    decreases m, i
  {
    if i > 0 {
      CapListLength(m, i - 1);
      CapListOfLength(m.fields[i - 1]);
    }
  }

  lemma {:induction false} CapListOfLength(v: Value)
    ensures |CapListOf(v)| == CapCount(v, Global)
    decreases v
  {
    if v.Nested? { CapListLength(v.m, |v.m.fields|); }
  }

  // ----- Serializing -----

  method WriteAt(buf: array<Byte>, k: nat, data: Bytes) returns (ok: bool)
    modifies buf
    ensures ok <==> k + |data| <= buf.Length
    ensures ok ==> buf[..] == Put(old(buf[..]), k, data)
    ensures !ok ==> buf[..] == old(buf[..])
  {
    if k + |data| > buf.Length {
      return false;
    }
    WriteBytes(buf, k, data);
    return true;
  }

  method WriteWord(buf: array<Byte>, k: nat, n: nat) returns (ok: bool)
    requires n < U64_LIMIT
    modifies buf
    ensures ok <==> k + 8 <= buf.Length
    ensures ok ==> WordAt(buf[..], k, n)
    ensures Outside(old(buf[..]), buf[..], k, k + 8)
  {
    if k + 8 <= buf.Length { WordWritten(buf[..], k, n); }
    ok := WriteAt(buf, k, Digits(n, 8));
  }

  /** The offset and then the length of an extension. */
  method WritePointer(buf: array<Byte>, k: nat, offset: nat, length: nat) returns (ok: bool)
    requires offset < U32_LIMIT && length < U32_LIMIT
    modifies buf
    ensures ok <==> k + 8 <= buf.Length
    ensures ok ==> PointerAt(buf[..], k, offset, length)
    ensures Outside(old(buf[..]), buf[..], k, k + 8)
  {
    ok := WriteNumber(buf, k, offset);
    if !ok { return; }
    ghost var a := buf[..];
    ok := WriteNumber(buf, k + 4, length);
    NumFrame(a, buf[..], k, 4);
  }

  method WriteNumber(buf: array<Byte>, k: nat, n: nat) returns (ok: bool)
    requires n < U32_LIMIT
    modifies buf
    ensures ok <==> k + 4 <= buf.Length
    ensures ok ==> Num(buf[..], k, 4) == n
    ensures Outside(old(buf[..]), buf[..], k, k + 4)
  {
    if k + 4 <= buf.Length { U32Written(buf[..], k, n); }
    ok := WriteAt(buf, k, Digits(n, 4));
  }

  method WriteHeader(buf: array<Byte>, off: nat, core: nat, size: nat) returns (ok: bool)
    requires core < U32_LIMIT && size < U32_LIMIT
    modifies buf
    ensures ok <==> off + 16 <= buf.Length
    ensures ok ==> HeaderAt(buf[..], off, core, size)
    ensures Outside(old(buf[..]), buf[..], off, off + 16)
  {
    ok := WriteNumber(buf, off, IDENT);
    if !ok { return; }
    ghost var b1 := buf[..];
    ok := WriteNumber(buf, off + 4, core);
    if !ok { return; }
    ghost var b2 := buf[..];
    ok := WriteNumber(buf, off + 8, size);
    if !ok { return; }
    ghost var b3 := buf[..];
    ok := WriteNumber(buf, off + 12, 0);
    if ok { HeaderWritten(old(buf[..]), b1, b2, b3, buf[..], off, core, size); }
  }

  method WriteSlice(buf: array<Byte>, k: nat, data: Bytes) returns (ok: bool)
    modifies buf
    ensures ok <==> k + |data| <= buf.Length
    ensures ok ==> Holds(buf[..], k, data)
    ensures Outside(old(buf[..]), buf[..], k, k + |data|)
  {
    if k + |data| <= buf.Length { PutHolds(buf[..], k, data); }
    ok := WriteAt(buf, k, data);
  }

  method SerializeString(buf: array<Byte>, off: nat, i: nat, next: nat, s: Bytes, ghost number: nat) returns (ok: bool)
    requires next + |s| < U32_LIMIT && Slot(0, i) + 8 <= next
    modifies buf
    ensures ok <==> FieldFits(String(s), i, next, off, buf.Length)
    ensures ok ==> Written(old(buf[..]), buf[..], off, i, next, String(s), Global, number)
    ensures Wrote(old(buf[..]), buf[..], off, i, next, |s|)
  {
    ok := WriteSlice(buf, off + next, s);
    if ok {
      ghost var a := buf[..];
      ok := WritePointer(buf, Slot(off, i), next, |s|);
      if ok { StringWritten(old(buf[..]), a, buf[..], off, i, next, s, Global, number); }
    }
  }

  /** The code emitted for field i: next is where its extension goes, caps the list so far. */
  method SerializeField(buf: array<Byte>, off: nat, m: Message, i: nat, next: nat, caps: seq<nat>, ghost t: FieldType)
    returns (ok: bool, next': nat, caps': seq<nat>)
    requires i < |m.fields| && HasType(m.fields[i], t) && PlainType(t)
             && |caps| + CapCount(m.fields[i], Global) < U64_LIMIT
    requires next == ExtAt(m, i) && Size(m) < U32_LIMIT && Slot(0, i) + 8 <= next
    modifies buf
    ensures ok <==> FieldFits(m.fields[i], i, next, off, buf.Length)
    ensures ok ==> Written(old(buf[..]), buf[..], off, i, next, m.fields[i], Global, |caps|)
    ensures ok ==> next' == ExtAt(m, i + 1) && caps' == caps + CapListOf(m.fields[i])
    ensures Wrote(old(buf[..]), buf[..], off, i, next, Ext(m.fields[i]))
    decreases m, i
  {
    var slot := Slot(off, i);
    ExtAtMono(m, i + 1, |m.fields|);
    next', caps' := next, caps;
    match m.fields[i] {
      case U64(n) =>
        ok := WriteWord(buf, slot, n);
      case I64(n) =>
        ok := WriteWord(buf, slot, ToU64(n));
      case Capability(c) =>
        caps' := caps + [c];
        ok := WriteWord(buf, slot, |caps|);
      case String(s) =>
        next' := next + |s|;
        ok := SerializeString(buf, off, i, next, s, |caps|);
      case Nested(n) =>
        ok, next', caps' := SerializeNested(buf, off, i, next, n, caps, t.schema);
    }
  }

  method SerializeNested(buf: array<Byte>, off: nat, i: nat, next: nat, n: Message, caps: seq<nat>,
                         ghost schema: Schema)
    returns (ok: bool, next': nat, caps': seq<nat>)
    requires Typed(n, schema) && Plain(schema) && |caps| + CapsUpTo(n, |n.fields|, Global) < U64_LIMIT
    requires next + Size(n) < U32_LIMIT && Slot(0, i) + 8 <= next
    modifies buf
    ensures ok <==> FieldFits(Nested(n), i, next, off, buf.Length)
    ensures ok ==> Written(old(buf[..]), buf[..], off, i, next, Nested(n), Global, |caps|)
    ensures ok ==> next' == next + Size(n) && caps' == caps + CapList(n, |n.fields|)
    ensures Wrote(old(buf[..]), buf[..], off, i, next, Size(n))
    decreases n, |n.fields| + 2
  {
    var r;
    next' := next;
    r, caps' := Serialize(buf, off + next, n, caps, schema);
    ok := r.Ok?;
    if ok {
      ghost var a := buf[..];
      next' := next + r.value;
      ok := WritePointer(buf, Slot(off, i), next, r.value);
      if ok { NestedWritten(old(buf[..]), a, buf[..], off, i, next, n, Global, |caps|); }
    }
  }

  lemma {:induction false} NextReady(m: Message, i: nat, s: Schema, first: seq<nat>)
    requires Typed(m, s) && Plain(s) && i < |m.fields| && |first| + CapsUpTo(m, |m.fields|, Global) < U64_LIMIT
    ensures HasType(m.fields[i], s.fields[i]) && PlainType(s.fields[i]) && Slot(0, i) + 8 <= ExtAt(m, i)
    ensures |first + CapList(m, i)| == |first| + CapsUpTo(m, i, Global)
    ensures |first| + CapsUpTo(m, i, Global) + CapCount(m.fields[i], Global) < U64_LIMIT
  {
    ExtAtMono(m, 0, i);
    CapListLength(m, i);
    CapsUpToMono(m, i + 1, |m.fields|, Global);
  }

  // Field i, after those before it.
  method SerializeNext(buf: array<Byte>, off: nat, m: Message, i: nat, next: nat, caps: seq<nat>, ghost s: Schema,
                       ghost first: seq<nat>, ghost before: Bytes)
    returns (ok: bool, next': nat, caps': seq<nat>)
    requires Typed(m, s) && Plain(s) && Size(m) < U32_LIMIT && |first| + CapsUpTo(m, |m.fields|, Global) < U64_LIMIT
    requires i < |m.fields| && next == ExtAt(m, i) && caps == first + CapList(m, i) && FieldsFit(m, i, off, buf.Length)
    requires FieldsWritten(before, buf[..], off, m, i, Global, |first|)
    modifies buf
    ensures ok <==> FieldsFit(m, i + 1, off, buf.Length)
    ensures !ok ==> !MessageFits(m, off, buf.Length) && Outside(before, buf[..], off, off + Size(m))
    ensures ok ==> next' == ExtAt(m, i + 1) && caps' == first + CapList(m, i + 1)
    ensures ok ==> FieldsWritten(before, buf[..], off, m, i + 1, Global, |first|)
    decreases m, |m.fields|
  {
    ghost var a := buf[..];
    NextReady(m, i, s, first);
    ok, next', caps' := SerializeField(buf, off, m, i, next, caps, s.fields[i]);
    FieldsOutside(before, a, buf[..], off, m, i);
    if ok {
      FieldsStep(before, a, buf[..], off, m, i, Global, |first|, next, |caps|);
    } else if FieldsFit(m, |m.fields|, off, buf.Length) {
      FieldsFitMono(m, i + 1, |m.fields|, off, buf.Length);
    }
  }

  /**
   * Succeeds exactly when the message fits, then holds it at off; writes nothing outside its
   * Size(m) bytes either way.
   */
  method Serialize(buf: array<Byte>, off: nat, m: Message, caps: seq<nat>, ghost s: Schema)
    returns (r: Result<nat, ZError>, caps': seq<nat>)
    requires Typed(m, s) && Plain(s) && Size(m) < U32_LIMIT && |caps| + CapsUpTo(m, |m.fields|, Global) < U64_LIMIT
    modifies buf
    ensures r == if MessageFits(m, off, buf.Length) then Ok(Size(m)) else Err(BufferSize)
    ensures r.Ok? ==> MessageAt(buf[..], off, m, Global, |caps|) && caps' == caps + CapList(m, |m.fields|)
    ensures Outside(old(buf[..]), buf[..], off, off + Size(m))
    decreases m, |m.fields| + 1
  {
    var next := 24 + 8 * |m.fields|;
    caps' := caps;
    var i := 0;
    while i < |m.fields|
      invariant 0 <= i <= |m.fields| && next == ExtAt(m, i) && caps' == caps + CapList(m, i)
      invariant FieldsFit(m, i, off, buf.Length)
      invariant FieldsWritten(old(buf[..]), buf[..], off, m, i, Global, |caps|)
    {
      var ok;
      ok, next, caps' := SerializeNext(buf, off, m, i, next, caps', s, caps, old(buf[..]));
      if !ok {
        return Err(BufferSize), caps';
      }
      i := i + 1;
    }
    var ok := FinishMessage(buf, off, m, |caps|, old(buf[..]));
    return if ok then Ok(next) else Err(BufferSize), caps';
  }

  // The header, after all fields.
  method FinishMessage(buf: array<Byte>, off: nat, m: Message, ghost base: nat, ghost before: Bytes) returns (ok: bool)
    requires Size(m) < U32_LIMIT && FieldsFit(m, |m.fields|, off, buf.Length)
    requires FieldsWritten(before, buf[..], off, m, |m.fields|, Global, base)
    modifies buf
    ensures ok <==> MessageFits(m, off, buf.Length)
    ensures ok ==> MessageAt(buf[..], off, m, Global, base)
    ensures Outside(before, buf[..], off, off + Size(m))
  {
    ghost var a := buf[..];
    ok := WriteHeader(buf, off, 24 + 8 * |m.fields|, Size(m));
    if ok { FieldsThenHeader(before, a, buf[..], off, m, Global, base); }
  }

  // ----- Parsing -----

  /** The result of the emitted code, or a panic on a capability number out of range. */
  datatype Outcome<+T> = Done(value: T) | Failed(error: ZError) | Panics {
    predicate IsFailure() { !Done? }

    function PropagateFailure<U>(): Outcome<U>
      requires IsFailure()
    {
      if Panics? then Panics else Failed(error)
    }

    function Extract(): T
      requires !IsFailure()
    {
      value
    }
  }

  function At(buf: Bytes, k: nat, w: nat): Outcome<nat> {
    if k + w > |buf| then Failed(BufferSize) else Done(Num(buf, k, w))
  }

  function StrAt(buf: Bytes, k: nat, length: nat, utf8: Bytes -> bool): Outcome<Bytes> {
    if k + length > |buf| then Failed(BufferSize)
    else if !utf8(buf[k..k + length]) then Failed(InvalidArgument)
    else Done(buf[k..k + length])
  }

  function ParseField(buf: Bytes, off: nat, i: nat, t: FieldType, caps: seq<nat>, utf8: Bytes -> bool): Outcome<Value>
    requires PlainType(t)
    decreases t, 0, 0
  {
    var slot := Slot(off, i);
    match t
    case StringType =>
      var at :- At(buf, slot, 4);
      var length :- At(buf, slot + 4, 4);
      var s :- StrAt(buf, off + at, length, utf8);
      Done(String(s))
    case NestedType(schema) =>
      var at :- At(buf, slot, 4);
      var m :- Parse(buf, off + at, schema, caps, utf8);
      Done(Nested(m))
    case U64Type =>
      var n :- At(buf, slot, 8);
      Done(U64(n))
    case I64Type =>
      var n :- At(buf, slot, 8);
      Done(I64(FromU64(n)))
    case CapabilityType =>
      var n :- At(buf, slot, 8);
      if n < |caps| then Done(Capability(caps[n])) else Panics
  }

  // Fields from i on.
  function ParseFields(buf: Bytes, off: nat, s: Schema, i: nat, caps: seq<nat>,
                       utf8: Bytes -> bool): Outcome<seq<Value>>
    requires i <= |s.fields| && Plain(s)
    decreases s, 0, |s.fields| - i
  {
    if i == |s.fields| then Done([])
    else
      var first :- ParseField(buf, off, i, s.fields[i], caps, utf8);
      var rest :- ParseFields(buf, off, s, i + 1, caps, utf8);
      Done([first] + rest)
  }

  /** The emitted parse. */
  function Parse(buf: Bytes, off: nat, s: Schema, caps: seq<nat>, utf8: Bytes -> bool): Outcome<Message>
    requires Plain(s)
    decreases s, 1, 0
  {
    var ident :- At(buf, off, 4);
    if ident != IDENT then Failed(InvalidArgument)
    else
      var fields :- ParseFields(buf, off, s, 0, caps, utf8);
      Done(Message(fields))
  }

  // Every string of the message is valid, as the Rust type demands.
  predicate Strings(m: Message, utf8: Bytes -> bool)
    decreases m
  {
    forall i :: 0 <= i < |m.fields| ==> StringsIn(m.fields[i], utf8)
  }

  predicate StringsIn(v: Value, utf8: Bytes -> bool)
    decreases v
  {
    (v.String? ==> utf8(v.s)) && (v.Nested? ==> Strings(v.m, utf8))
  }

  // The listed capabilities stand in caps from number on.
  ghost predicate Listed(caps: seq<nat>, number: nat, list: seq<nat>) {
    number + |list| <= |caps| && forall j :: 0 <= j < |list| ==> caps[number + j] == list[j]
  }

  lemma {:induction false} ListedParts(caps: seq<nat>, number: nat, s: seq<nat>, t: seq<nat>)
    requires Listed(caps, number, s + t)
    ensures Listed(caps, number, s) && Listed(caps, number + |s|, t)
  {
    forall j | 0 <= j < |s| ensures caps[number + j] == s[j] { assert caps[number + j] == (s + t)[j]; }
    forall j | 0 <= j < |t|
      ensures caps[(number + |s|) + j] == t[j] { assert caps[number + (|s| + j)] == (s + t)[|s| + j]; }
  }

  lemma {:induction false} ListedField(caps: seq<nat>, base: nat, m: Message, n: nat, k: nat)
    requires k < n <= |m.fields| && Listed(caps, base, CapList(m, n))
    ensures Listed(caps, base + CapsUpTo(m, k, Global), CapListOf(m.fields[k]))
    decreases n
  {
    ListedParts(caps, base, CapList(m, n - 1), CapListOf(m.fields[n - 1]));
    CapListLength(m, n - 1);
    if k < n - 1 { ListedField(caps, base, m, n - 1, k); }
  }

  lemma {:induction false} ParsesField(buf: Bytes, off: nat, i: nat, ext: nat, v: Value, t: FieldType, number: nat,
                                       caps: seq<nat>, utf8: Bytes -> bool)
    requires FieldAt(buf, off, i, ext, v, Global, number) && HasType(v, t) && PlainType(t) && StringsIn(v, utf8)
    requires Listed(caps, number, CapListOf(v))
    ensures ParseField(buf, off, i, t, caps, utf8) == Done(v)
    decreases v, 0
  {
    match v
    case String(s) => HoldsIsSlice(buf, off + ext, s);
    case Nested(m) => Parses(buf, off + ext, m, t.schema, number, caps, utf8);
    case Capability(c) => assert CapListOf(v)[0] == c == caps[number + 0];
    case _ =>
  }

  lemma {:induction false} NextParsed(buf: Bytes, off: nat, s: Schema, i: nat, caps: seq<nat>, utf8: Bytes -> bool,
                                      fields: seq<Value>)
    requires i < |s.fields| == |fields| && Plain(s)
             && ParseField(buf, off, i, s.fields[i], caps, utf8) == Done(fields[i])
    requires ParseFields(buf, off, s, i + 1, caps, utf8) == Done(fields[i + 1..])
    ensures ParseFields(buf, off, s, i, caps, utf8) == Done(fields[i..])
  {
    assert fields[i..] == [fields[i]] + fields[i + 1..];
  }

  lemma {:induction false} FieldReady(buf: Bytes, off: nat, m: Message, i: nat, s: Schema, base: nat, caps: seq<nat>,
                                      utf8: Bytes -> bool)
    requires i < |m.fields| && MessageAt(buf, off, m, Global, base) && Typed(m, s) && Plain(s) && Strings(m, utf8)
    requires Listed(caps, base, CapList(m, |m.fields|))
    ensures FieldAt(buf, off, i, ExtAt(m, i), m.fields[i], Global, base + CapsUpTo(m, i, Global))
    ensures HasType(m.fields[i], s.fields[i]) && PlainType(s.fields[i]) && StringsIn(m.fields[i], utf8)
    ensures Listed(caps, base + CapsUpTo(m, i, Global), CapListOf(m.fields[i]))
  {
    FieldOf(buf, off, m, |m.fields|, i, Global, base);
    ListedField(caps, base, m, |m.fields|, i);
  }

  lemma {:induction false} ParsesFields(buf: Bytes, off: nat, m: Message, i: nat, s: Schema, base: nat, caps: seq<nat>,
                                        utf8: Bytes -> bool)
    requires i <= |m.fields| && MessageAt(buf, off, m, Global, base) && Typed(m, s) && Plain(s) && Strings(m, utf8)
    requires Listed(caps, base, CapList(m, |m.fields|))
    ensures ParseFields(buf, off, s, i, caps, utf8) == Done(m.fields[i..])
    decreases m, |m.fields| - i
  {
    if i < |m.fields| {
      FieldReady(buf, off, m, i, s, base, caps, utf8);
      ParsesField(buf, off, i, ExtAt(m, i), m.fields[i], s.fields[i], base + CapsUpTo(m, i, Global), caps, utf8);
      ParsesFields(buf, off, m, i + 1, s, base, caps, utf8);
      NextParsed(buf, off, s, i, caps, utf8, m.fields);
    } else {
      assert m.fields[i..] == [];
    }
  }

  /** Parsing gives back the message, nested capabilities included. */
  lemma {:induction false} Parses(buf: Bytes, off: nat, m: Message, s: Schema, base: nat, caps: seq<nat>,
                                  utf8: Bytes -> bool)
    requires MessageAt(buf, off, m, Global, base) && Typed(m, s) && Plain(s) && Strings(m, utf8)
    requires Listed(caps, base, CapList(m, |m.fields|))
    ensures Parse(buf, off, s, caps, utf8) == Done(m)
    decreases m, |m.fields| + 1
  {
    ParsesFields(buf, off, m, 0, s, base, caps, utf8);
    assert m.fields[0..] == m.fields;
  }

  /** The message and every message in it begin with the four bytes of the identifier. */
  ghost predicate Identified(buf: Bytes, off: nat, s: Schema)
    requires Plain(s)
    decreases s
  {
    && off + 4 <= |buf| && buf[off..off + 4] == IDENT_BYTES
    && forall i :: 0 <= i < |s.fields| && PlainType(s.fields[i]) && s.fields[i].NestedType? ==>
                     Slot(off, i) + 4 <= |buf| && Identified(buf, off + Num(buf, Slot(off, i), 4), s.fields[i].schema)
  }

  /** Whatever is parsed has the identifier wherever a message begins. */
  lemma {:induction false} AcceptsIdentified(buf: Bytes, off: nat, s: Schema, caps: seq<nat>, utf8: Bytes -> bool)
    requires Plain(s) && Parse(buf, off, s, caps, utf8).Done?
    ensures Identified(buf, off, s)
    decreases s
  {
    IdentBytes(buf, off);
    forall i | 0 <= i < |s.fields| && s.fields[i].NestedType?
      ensures Slot(off, i) + 4 <= |buf| && Identified(buf, off + Num(buf, Slot(off, i), 4), s.fields[i].schema)
    {
      FieldParsed(buf, off, s, 0, i, caps, utf8);
      AcceptsIdentified(buf, off + Num(buf, Slot(off, i), 4), s.fields[i].schema, caps, utf8);
    }
  }

  lemma {:induction false} FieldParsed(buf: Bytes, off: nat, s: Schema, j: nat, i: nat, caps: seq<nat>,
                                       utf8: Bytes -> bool)
    requires Plain(s) && j <= i < |s.fields| && ParseFields(buf, off, s, j, caps, utf8).Done?
    ensures PlainType(s.fields[i]) && ParseField(buf, off, i, s.fields[i], caps, utf8).Done?
    decreases i - j
  {
    if j < i { FieldParsed(buf, off, s, j + 1, i, caps, utf8); }
  }

  /** Anything that does not begin with the identifier is refused. */
  lemma {:induction false} RefusesOthers(buf: Bytes, off: nat, s: Schema, caps: seq<nat>, utf8: Bytes -> bool)
    requires Plain(s)
    ensures off + 4 > |buf| ==> Parse(buf, off, s, caps, utf8) == Failed(BufferSize)
    ensures off + 4 <= |buf| && buf[off..off + 4] != IDENT_BYTES ==>
              Parse(buf, off, s, caps, utf8) == Failed(InvalidArgument)
  {
    if off + 4 <= |buf| { IdentBytes(buf, off); }
  }

  // ----- Requests -----

  const SENTINEL: nat := 0xBEEFDEAD

  /** The sentinel, the length and the request number, then the message at byte 16. */
  method SerializeAsRequest(buf: array<Byte>, id: nat, m: Message, caps: seq<nat>, ghost s: Schema)
    returns (r: Result<nat, ZError>, caps': seq<nat>)
    requires Typed(m, s) && Plain(s) && 16 + Size(m) < U32_LIMIT && |caps| + CapsUpTo(m, |m.fields|, Global) < U64_LIMIT
             && id < U64_LIMIT
    modifies buf
    ensures r == if MessageFits(m, 16, buf.Length) then Ok(16 + Size(m)) else Err(BufferSize)
    ensures r.Ok? ==> Num(buf[..], 0, 4) == SENTINEL && Num(buf[..], 4, 4) == 16 + Size(m) && WordAt(buf[..], 8, id)
    ensures r.Ok? ==> MessageAt(buf[..], 16, m, Global, |caps|) && caps' == caps + CapList(m, |m.fields|)
    ensures Outside(old(buf[..]), buf[..], 0, 16 + Size(m))
  {
    caps' := caps;
    var ok := WriteNumber(buf, 0, SENTINEL);
    if !ok { return Err(BufferSize), caps'; }
    ghost var b1 := buf[..];
    ok := WriteWord(buf, 8, id);
    if !ok { return Err(BufferSize), caps'; }
    ghost var b2 := buf[..];
    var length;
    length, caps' := Serialize(buf, 16, m, caps, s);
    if length.Err? { return length, caps'; }
    ghost var b3 := buf[..];
    ok := WriteNumber(buf, 4, 16 + length.value);
    NumFrame(b1, buf[..], 0, 4);
    SlotFrame(b2, buf[..], 8);
    MessageFrame(b3, buf[..], 16, m, Global, |caps|);
    return Ok(16 + length.value), caps';
  }

  function ParseFromRequest(buf: Bytes, s: Schema, caps: seq<nat>, utf8: Bytes -> bool): Outcome<Message>
    requires Plain(s)
  {
    var sentinel :- At(buf, 0, 4);
    if sentinel != SENTINEL then Failed(InvalidResponse) else Parse(buf, 16, s, caps, utf8)
  }

  const SENTINEL_BYTES: Bytes := [0xAD, 0xDE, 0xEF, 0xBE]

  /** A request is refused unless it begins with the four bytes of the sentinel, and has a message at byte 16. */
  lemma {:induction false} RefusesRequests(buf: Bytes, s: Schema, caps: seq<nat>, utf8: Bytes -> bool)
    requires Plain(s)
    ensures var r := ParseFromRequest(buf, s, caps, utf8);
            if |buf| < 4 then r == Failed(BufferSize)
            else if buf[..4] != SENTINEL_BYTES then r == Failed(InvalidResponse)
            else if |buf| < 20 then r == Failed(BufferSize)
            else if buf[16..20] != IDENT_BYTES then r == Failed(InvalidArgument)
            else r.Done? ==> Identified(buf, 16, s)
  {
    if |buf| >= 4 {
      FourBytes(buf, 0, SENTINEL_BYTES);
      assert buf[0..4] == buf[..4];
      RefusesOthers(buf, 16, s, caps, utf8);
      if Parse(buf, 16, s, caps, utf8).Done? { AcceptsIdentified(buf, 16, s, caps, utf8); }
    }
  }

  /** Sends a request and parses it on the other side. */
  method RoundTrip(buf: array<Byte>, id: nat, m: Message, s: Schema, utf8: Bytes -> bool)
    returns (sent: bool, r: Outcome<Message>)
    requires Typed(m, s) && Plain(s) && Strings(m, utf8) && id < U64_LIMIT
    requires 16 + Size(m) < U32_LIMIT && CapsUpTo(m, |m.fields|, Global) < U64_LIMIT
    modifies buf
    ensures sent <==> MessageFits(m, 16, buf.Length)
    ensures sent ==> r == Done(m)
  {
    var length, caps := SerializeAsRequest(buf, id, m, [], s);
    sent := length.Ok?;
    if sent {
      assert caps == CapList(m, |m.fields|);
      Parses(buf[..], 16, m, s, 0, caps, utf8);
    }
    r := ParseFromRequest(buf[..], s, caps, utf8);
  }
}
