/**
  The C++ parser of lib/yunq/message_view.h and lib/yunq/message_view.cpp, as the generated
  code calls it (yunq/message.cpp.jinja).

  Reads are not checked against the buffer, the status of a nested parse is dropped, and a
  repeated message of length zero is parsed forever. Where that happens the result is
  Unspecified: the model says nothing about it.
 */
module YunqView {
  import opened Common
  import opened YunqFormat

  datatype Parsed<T> = Parsed(value: T) | Invalid | Unspecified

  /** ReadRepeated: the 8-byte numbers from k while the position is below end. */
  function ReadWords(buf: Bytes, k: nat, end: nat): (r: Parsed<seq<nat>>)
    ensures !r.Invalid?
    decreases end - k
  {
    if k >= end then Parsed([])
    else if k + 8 > |buf| then Unspecified
    else
      var rest := ReadWords(buf, k + 8, end);
      if rest.Parsed? then Parsed([Num(buf, k, 8)] + rest.value) else Unspecified
  }

  function ReadString(buf: Bytes, k: nat, length: nat): Parsed<Bytes> {
    if k + length <= |buf| then Parsed(buf[k..k + length]) else Unspecified
  }

  function ReadCapability(buf: Bytes, k: nat, caps: Option<seq<nat>>): Parsed<nat> {
    if k + 8 > |buf| then Unspecified
    else match caps
      case None => Parsed(Num(buf, k, 8))
      case Some(slots) => if Num(buf, k, 8) < |slots| then Parsed(slots[Num(buf, k, 8)]) else Unspecified
  }

  function ParseField(buf: Bytes, off: nat, i: nat, t: FieldType, caps: Option<seq<nat>>): Parsed<Value>
    decreases t, 0, 0
  {
    var slot := Slot(off, i);
    if slot + 8 > |buf| then Unspecified
    else
      var at, length := off + Num(buf, slot, 4), Num(buf, slot + 4, 4);
      match t
      case U64Type => Parsed(U64(Num(buf, slot, 8)))
      case I64Type => Parsed(I64(FromU64(Num(buf, slot, 8))))
      case StringType =>
        var r := ReadString(buf, at, length);
        if r.Parsed? then Parsed(String(r.value)) else Unspecified
      case RepeatedU64Type =>
        var r := ReadWords(buf, at, at + length);
        if r.Parsed? then Parsed(RepeatedU64(r.value)) else Unspecified
      case NestedType(s) =>
        var r := ParseMessage(buf, at, s, None);
        if r.Parsed? then Parsed(Nested(r.value)) else Unspecified
      case RepeatedNestedType(s) =>
        var r := ParseMessages(buf, at, at + length, s);
        if r.Parsed? then Parsed(RepeatedNested(r.value)) else Unspecified
      case CapabilityType =>
        var r := ReadCapability(buf, slot, caps);
        if r.Parsed? then Parsed(Capability(r.value)) else Unspecified
  }

  /** ReadRepeatedMessage: messages from k while the position is below end. */
  function ParseMessages(buf: Bytes, k: nat, end: nat, schema: Schema): (r: Parsed<seq<Message>>)
    ensures !r.Invalid?
    decreases schema, 2, end - k
  {
    if k >= end then Parsed([])
    else
      var first := ParseMessage(buf, k, schema, None);
      if !first.Parsed? || k + 12 > |buf| || Num(buf, k + 8, 4) == 0 then Unspecified
      else
        var rest := ParseMessages(buf, k + Num(buf, k + 8, 4), end, schema);
        if rest.Parsed? then Parsed([first.value] + rest.value) else Unspecified
  }

  // Fields from i on.
  function ParseFields(buf: Bytes, off: nat, schema: Schema, i: nat, caps: Option<seq<nat>>): Parsed<seq<Value>>
    requires i <= |schema.fields|
    decreases schema, 0, |schema.fields| - i
  {
    if i == |schema.fields| then Parsed([])
    else
      var first := ParseField(buf, off, i, schema.fields[i], caps);
      var rest := ParseFields(buf, off, schema, i + 1, caps);
      if first.Parsed? && rest.Parsed? then Parsed([first.value] + rest.value) else Unspecified
  }

  /** ParseFromBytes, with or without a capability buffer. */
  function ParseMessage(buf: Bytes, off: nat, schema: Schema, caps: Option<seq<nat>>): Parsed<Message>
    decreases schema, 1, 0
  {
    if off + 4 > |buf| then Unspecified
    else if Num(buf, off, 4) != IDENT then Invalid
    else
      var r := ParseFields(buf, off, schema, 0, caps);
      if r.Parsed? then Parsed(Message(r.value)) else Unspecified
  }

  // ----- What comes back -----

  /** The message a reader sees for m: nested capabilities come back as their slots hold them. */
  function Seen(m: Message, style: Numbering, caps: Option<seq<nat>>): Message
    decreases m, |m.fields| + 1
  {
    Message(SeenFields(m, 0, style, caps))
  }

  // Fields from i on.
  function SeenFields(m: Message, i: nat, style: Numbering, caps: Option<seq<nat>>): seq<Value>
    requires i <= |m.fields|
    decreases m, |m.fields| - i
  {
    if i == |m.fields| then []
    else [SeenField(m.fields[i], style, caps, CapsUpTo(m, i, style))] + SeenFields(m, i + 1, style, caps)
  }

  function SeenField(v: Value, style: Numbering, caps: Option<seq<nat>>, number: nat): Value
    decreases v
  {
    match v
    case Nested(n) => Nested(Seen(n, style, None))
    case RepeatedNested(ms) => RepeatedNested(SeenAll(ms, 0, style))
    case Capability(c) =>
      if style == ByValue then v
      else if caps.Some? && number < |caps.value| then Capability(caps.value[number])
      else Capability(number)
    case _ => v
  }

  function SeenAll(ms: seq<Message>, j: nat, style: Numbering): seq<Message>
    requires j <= |ms|
    decreases ms, |ms| - j
  {
    if j == |ms| then [] else [Seen(ms[j], style, None)] + SeenAll(ms, j + 1, style)
  }

  lemma {:induction false} MessageOf(buf: Bytes, at: nat, ms: seq<Message>, n: nat, k: nat, style: Numbering)
    requires k < n <= |ms| && MessagesAt(buf, at, ms, n, style)
    ensures MessageAt(buf, at + Sizes(ms, k), ms[k], style, 0)
    decreases n
  {
    if k < n - 1 { MessageOf(buf, at, ms, n - 1, k, style); }
  }

  lemma {:induction false} WordsRead(buf: Bytes, k: nat, ns: seq<nat>, j: nat)
    requires j <= |ns| && WordsAt(buf, k, ns, |ns|)
    ensures ReadWords(buf, k + 8 * j, k + 8 * |ns|) == Parsed(ns[j..])
    decreases |ns| - j
  {
    if j < |ns| {
      WordOf(buf, k, ns, |ns|, j);
      WordsRead(buf, k, ns, j + 1);
      assert ns[j..] == [ns[j]] + ns[j + 1..];
      assert k + 8 * j + 8 == k + 8 * (j + 1);
    } else {
      assert ns[j..] == [];
    }
  }

  lemma {:induction false} WordOf(buf: Bytes, k: nat, ns: seq<nat>, n: nat, j: nat)
    requires j < n <= |ns| && WordsAt(buf, k, ns, n)
    ensures WordAt(buf, k + 8 * j, ns[j])
    decreases n
  {
    if j < n - 1 { WordOf(buf, k, ns, n - 1, j); }
  }

  // The capability buffer, if there is one, has every number up to n.
  ghost predicate CapsReach(caps: Option<seq<nat>>, style: Numbering, n: nat) {
    style != Global && (caps.Some? ==> style == PerMessage && n <= |caps.value|)
  }

  lemma {:induction false} ParsesField(buf: Bytes, off: nat, i: nat, ext: nat, v: Value, t: FieldType, style: Numbering,
                                       caps: Option<seq<nat>>, number: nat)
    requires FieldAt(buf, off, i, ext, v, style, number) && HasType(v, t)
             && CapsReach(caps, style, number + CapCount(v, style))
    ensures ParseField(buf, off, i, t, caps) == Parsed(SeenField(v, style, caps, number))
    decreases v, 0
  {
    match v
    case String(s) =>
      StringField(buf, off, i, ext, s, caps);
    case RepeatedU64(ns) =>
      RepeatedU64Field(buf, off, i, ext, ns, caps);
    case Nested(n) =>
      ParsesMessage(buf, off + ext, n, t.schema, style, None);
      NestedField(buf, off, i, ext, Size(n), t.schema, Seen(n, style, None), caps);
    case RepeatedNested(ms) =>
      ParsesMessages(buf, off + ext, ms, 0, off + ext, off + ext + Sizes(ms, |ms|), t.schema, style);
      RepeatedNestedField(buf, off, i, ext, Sizes(ms, |ms|), t.schema, SeenAll(ms, 0, style), caps);
    case _ =>
      WordField(buf, off, i, ext, v, t, style, caps, number);
  }

  lemma {:induction false} WordField(buf: Bytes, off: nat, i: nat, ext: nat, v: Value, t: FieldType, style: Numbering,
                                     caps: Option<seq<nat>>, number: nat)
    requires v.U64? || v.I64? || v.Capability?
    requires FieldAt(buf, off, i, ext, v, style, number) && HasType(v, t)
             && CapsReach(caps, style, number + CapCount(v, style))
    ensures ParseField(buf, off, i, t, caps) == Parsed(SeenField(v, style, caps, number))
  {
  }

  lemma {:induction false} StringField(buf: Bytes, off: nat, i: nat, ext: nat, s: Bytes, caps: Option<seq<nat>>)
    requires PointerAt(buf, Slot(off, i), ext, |s|) && Holds(buf, off + ext, s)
    ensures ParseField(buf, off, i, StringType, caps) == Parsed(String(s))
  {
    HoldsIsSlice(buf, off + ext, s);
  }

  lemma {:induction false} RepeatedU64Field(buf: Bytes, off: nat, i: nat, ext: nat, ns: seq<nat>,
                                            caps: Option<seq<nat>>)
    requires PointerAt(buf, Slot(off, i), ext, 8 * |ns|) && WordsAt(buf, off + ext, ns, |ns|)
    ensures ParseField(buf, off, i, RepeatedU64Type, caps) == Parsed(RepeatedU64(ns))
  {
    WordsRead(buf, off + ext, ns, 0);
    assert ns[0..] == ns;
  }

  lemma {:induction false} NestedField(buf: Bytes, off: nat, i: nat, ext: nat, size: nat, schema: Schema, m: Message,
                                       caps: Option<seq<nat>>)
    requires PointerAt(buf, Slot(off, i), ext, size) && ParseMessage(buf, off + ext, schema, None) == Parsed(m)
    ensures ParseField(buf, off, i, NestedType(schema), caps) == Parsed(Nested(m))
  {
  }

  lemma {:induction false} RepeatedNestedField(buf: Bytes, off: nat, i: nat, ext: nat, size: nat, schema: Schema,
                                               ms: seq<Message>, caps: Option<seq<nat>>)
    requires PointerAt(buf, Slot(off, i), ext, size)
             && ParseMessages(buf, off + ext, off + ext + size, schema) == Parsed(ms)
    ensures ParseField(buf, off, i, RepeatedNestedType(schema), caps) == Parsed(RepeatedNested(ms))
  {
  }

  lemma {:induction false} MessageHere(buf: Bytes, at: nat, ms: seq<Message>, j: nat, k: nat, schema: Schema,
                                       style: Numbering)
    requires j < |ms| && MessagesAt(buf, at, ms, |ms|, style) && HasType(RepeatedNested(ms), RepeatedNestedType(schema))
    requires k == at + Sizes(ms, j)
    ensures Typed(ms[j], schema) && MessageAt(buf, k, ms[j], style, 0)
    ensures k + 12 <= |buf| && Num(buf, k + 8, 4) == Size(ms[j]) > 0
    ensures Sizes(ms, j) + Size(ms[j]) == Sizes(ms, j + 1) <= Sizes(ms, |ms|)
  {
    MessageOf(buf, at, ms, |ms|, j, style);
    SizesMono(ms, j + 1, |ms|);
  }

  lemma {:induction false} NextMessage(buf: Bytes, k: nat, len: nat, end: nat, schema: Schema, m: Message,
                                       ms: seq<Message>)
    requires k < end && k + 12 <= |buf| && 0 < len == Num(buf, k + 8, 4)
    requires ParseMessage(buf, k, schema, None) == Parsed(m) && ParseMessages(buf, k + len, end, schema) == Parsed(ms)
    ensures ParseMessages(buf, k, end, schema) == Parsed([m] + ms)
  {
  }

  lemma {:induction false} ParsesMessages(buf: Bytes, at: nat, ms: seq<Message>, j: nat, k: nat, end: nat,
                                          schema: Schema, style: Numbering)
    requires j <= |ms| && MessagesAt(buf, at, ms, |ms|, style) && style != Global
    requires HasType(RepeatedNested(ms), RepeatedNestedType(schema))
    requires k == at + Sizes(ms, j) && end == at + Sizes(ms, |ms|)
    ensures ParseMessages(buf, k, end, schema) == Parsed(SeenAll(ms, j, style))
    decreases ms, |ms| - j
  {
    if j < |ms| {
      MessageHere(buf, at, ms, j, k, schema, style);
      ParsesMessage(buf, k, ms[j], schema, style, None);
      var len := Size(ms[j]);
      ParsesMessages(buf, at, ms, j + 1, k + len, end, schema, style);
      NextMessage(buf, k, len, end, schema, Seen(ms[j], style, None), SeenAll(ms, j + 1, style));
    }
  }

  lemma {:induction false} ParsesFields(buf: Bytes, off: nat, m: Message, i: nat, schema: Schema, style: Numbering,
                                        caps: Option<seq<nat>>)
    requires i <= |m.fields| && MessageAt(buf, off, m, style, 0) && Typed(m, schema)
    requires CapsReach(caps, style, CapsUpTo(m, |m.fields|, style))
    ensures ParseFields(buf, off, schema, i, caps) == Parsed(SeenFields(m, i, style, caps))
    decreases m, |m.fields| - i
  {
    if i < |m.fields| {
      FieldOf(buf, off, m, |m.fields|, i, style, 0);
      CapsUpToMono(m, i + 1, |m.fields|, style);
      ParsesField(buf, off, i, ExtAt(m, i), m.fields[i], schema.fields[i], style, caps, CapsUpTo(m, i, style));
      ParsesFields(buf, off, m, i + 1, schema, style, caps);
    }
  }

  /** Parsing a buffer that holds a message gives back what the reader sees of it. */
  lemma {:induction false} ParsesMessage(buf: Bytes, off: nat, m: Message, schema: Schema, style: Numbering,
                                         caps: Option<seq<nat>>)
    requires MessageAt(buf, off, m, style, 0) && Typed(m, schema)
    requires CapsReach(caps, style, CapsUpTo(m, |m.fields|, style))
    ensures ParseMessage(buf, off, schema, caps) == Parsed(Seen(m, style, caps))
    decreases m, |m.fields| + 1
  {
    ParsesFields(buf, off, m, 0, schema, style, caps);
  }

  /** A message is refused exactly when the four bytes it begins with are not those of the identifier. */
  lemma {:induction false} RefusesOthers(buf: Bytes, off: nat, schema: Schema, caps: Option<seq<nat>>)
    ensures ParseMessage(buf, off, schema, caps) == Invalid <==>
            off + 4 <= |buf| && buf[off..off + 4] != IDENT_BYTES
  {
    if off + 4 <= |buf| { IdentBytes(buf, off); }
  }

  // ----- The loops -----

  function After<T>(done: seq<T>, rest: Parsed<seq<T>>): Parsed<seq<T>> {
    if rest.Parsed? then Parsed(done + rest.value) else Unspecified
  }

  lemma {:induction false} AfterNone<T>(rest: Parsed<seq<T>>)
    requires !rest.Invalid?
    ensures After([], rest) == rest
  {
    if rest.Parsed? { assert [] + rest.value == rest.value; }
  }

  lemma {:induction false} AfterOne<T>(done: seq<T>, x: T, rest: Parsed<seq<T>>)
    ensures After(done, After([x], rest)) == After(done + [x], rest)
  {
    if rest.Parsed? { assert done + ([x] + rest.value) == done + [x] + rest.value; }
  }

  method ReadRepeated(buf: Bytes, k: nat, length: nat) returns (r: Parsed<seq<nat>>)
    ensures r == ReadWords(buf, k, k + length)
  {
    var v := [];
    var i := k;
    AfterNone(ReadWords(buf, k, k + length));
    while i < k + length
      invariant i >= k && ReadWords(buf, k, k + length) == After(v, ReadWords(buf, i, k + length))
    {
      if i + 8 > |buf| {
        return Unspecified;
      }
      AfterOne(v, Num(buf, i, 8), ReadWords(buf, i + 8, k + length));
      v := v + [Num(buf, i, 8)];
      i := i + 8;
    }
    assert v + [] == v;
    return Parsed(v);
  }

  method ReadRepeatedMessage(buf: Bytes, k: nat, length: nat, schema: Schema) returns (r: Parsed<seq<Message>>)
    ensures r == ParseMessages(buf, k, k + length, schema)
  {
    var messages := [];
    var i := k;
    AfterNone(ParseMessages(buf, k, k + length, schema));
    while i < k + length
      invariant i >= k && ParseMessages(buf, k, k + length,
                                        schema) == After(messages, ParseMessages(buf, i, k + length, schema))
    {
      var message := ParseMessage(buf, i, schema, None);
      if !message.Parsed? || i + 12 > |buf| || Num(buf, i + 8, 4) == 0 {
        return Unspecified;
      }
      AfterOne(messages, message.value, ParseMessages(buf, i + Num(buf, i + 8, 4), k + length, schema));
      messages := messages + [message.value];
      i := i + Num(buf, i + 8, 4);
    }
    assert messages + [] == messages;
    return Parsed(messages);
  }
}
