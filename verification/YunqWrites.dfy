/** Writing parts of a yunq message over a buffer, one after another. */
module YunqWrites {
  import opened Common
  import opened YunqFormat

  // ----- Effect of single writes -----

  lemma {:induction false} WordWritten(a: Bytes, k: nat, n: nat)
    requires k + 8 <= |a| && n < U64_LIMIT
    ensures WordAt(Put(a, k, Digits(n, 8)), k, n) && Outside(a, Put(a, k, Digits(n, 8)), k, k + 8)
  {
    Limits();
    PutHolds(a, k, Digits(n, 8));
    NumOfDigits(Put(a, k, Digits(n, 8)), k, n, 8);
  }

  lemma {:induction false} HoldsParts(buf: Bytes, k: nat, s: Bytes, t: Bytes)
    requires Holds(buf, k, s + t)
    ensures Holds(buf, k, s) && Holds(buf, k + |s|, t)
  {
    forall j | 0 <= j < |s| ensures buf[k + j] == s[j] { assert buf[k + j] == (s + t)[j]; }
    forall j | 0 <= j < |t| ensures buf[(k + |s|) + j] == t[j] { assert buf[k + (|s| + j)] == (s + t)[|s| + j]; }
  }

  function Pointer(offset: nat, length: nat): Bytes { Digits(offset, 4) + Digits(length, 4) }

  lemma {:induction false} PointerWritten(a: Bytes, k: nat, offset: nat, length: nat)
    requires k + 8 <= |a| && offset < U32_LIMIT && length < U32_LIMIT
    ensures PointerAt(Put(a, k, Pointer(offset, length)), k, offset, length)
    ensures Outside(a, Put(a, k, Pointer(offset, length)), k, k + 8)
  {
    Limits();
    var b := Put(a, k, Pointer(offset, length));
    PutHolds(a, k, Pointer(offset, length));
    HoldsParts(b, k, Digits(offset, 4), Digits(length, 4));
    NumOfDigits(b, k, offset, 4);
    NumOfDigits(b, k + 4, length, 4);
  }

  lemma {:induction false} U32Written(a: Bytes, k: nat, n: nat)
    requires k + 4 <= |a| && n < U32_LIMIT
    ensures Num(Put(a, k, Digits(n, 4)), k, 4) == n && Outside(a, Put(a, k, Digits(n, 4)), k, k + 4)
  {
    Limits();
    PutHolds(a, k, Digits(n, 4));
    NumOfDigits(Put(a, k, Digits(n, 4)), k, n, 4);
  }

  // Four numbers written one after the other.
  lemma {:induction false} HeaderWritten(a: Bytes, b1: Bytes, b2: Bytes, b3: Bytes, b4: Bytes, k: nat, core: nat,
                                         size: nat)
    requires k + 16 <= |a| && Outside(a, b1, k, k + 4) && Outside(b1, b2, k + 4, k + 8)
    requires Outside(b2, b3, k + 8, k + 12) && Outside(b3, b4, k + 12, k + 16)
    requires Num(b1, k, 4) == IDENT && Num(b2, k + 4, 4) == core && Num(b3, k + 8, 4) == size && Num(b4, k + 12, 4) == 0
    ensures HeaderAt(b4, k, core, size) && Outside(a, b4, k, k + 16)
  {
    NumFrame(b1, b4, k, 4);
    NumFrame(b2, b4, k + 4, 4);
    NumFrame(b3, b4, k + 8, 4);
  }

  // Only slot i and the len bytes of extension at ext changed.
  ghost predicate Wrote(a: Bytes, b: Bytes, off: nat, i: nat, ext: nat, len: nat) {
    && |a| == |b|
    && forall j {:trigger b[j]} | 0 <= j < |a| ::
      Slot(off, i) <= j < Slot(off, i) + 8 || off + ext <= j < off + ext + len || a[j] == b[j]
  }

  /** Field i now holds v, and nothing but its slot and extension changed. */
  ghost predicate Written(a: Bytes, b: Bytes, off: nat, i: nat, ext: nat, v: Value, style: Numbering, base: nat) {
    FieldAt(b, off, i, ext, v, style, base) && Wrote(a, b, off, i, ext, Ext(v))
  }

  // A repeated field with j of its numbers written.
  ghost predicate WordsWritten(a: Bytes, b: Bytes, off: nat, i: nat, ext: nat, ns: seq<nat>, j: nat)
    requires j <= |ns|
  {
    PointerAt(b, Slot(off, i), ext, 8 * |ns|) && WordsAt(b, off + ext, ns, j) && Wrote(a, b, off, i, ext, 8 * |ns|)
  }

  lemma {:induction false} WordsStep(a: Bytes, b: Bytes, c: Bytes, off: nat, i: nat, ext: nat, ns: seq<nat>, j: nat)
    requires j < |ns| && off + ext + 8 * |ns| <= |b| && Slot(off, i) + 8 <= off + ext
    requires WordsWritten(a, b, off, i, ext, ns, j)
    requires WordAt(c, off + ext + 8 * j, ns[j]) && Outside(b, c, off + ext + 8 * j, off + ext + 8 * j + 8)
    ensures WordsWritten(a, c, off, i, ext, ns, j + 1)
  {
    WordsFrame(b, c, off + ext, ns, j);
    SlotFrame(b, c, Slot(off, i));
  }

  lemma {:induction false} StringWritten(a: Bytes, b: Bytes, c: Bytes, off: nat, i: nat, ext: nat, s: Bytes,
                                         style: Numbering, base: nat)
    requires Outside(a, b, off + ext, off + ext + |s|) && Holds(b, off + ext, s)
    requires Outside(b, c, Slot(off, i), Slot(off, i) + 8) && PointerAt(c, Slot(off, i), ext, |s|)
             && Slot(off, i) + 8 <= off + ext
    ensures Written(a, c, off, i, ext, String(s), style, base)
  {
    HoldsFrame(b, c, off + ext, s);
  }

  lemma {:induction false} NestedWritten(a: Bytes, b: Bytes, c: Bytes, off: nat, i: nat, ext: nat, m: Message,
                                         style: Numbering, base: nat)
    requires Outside(a, b, off + ext, off + ext + Size(m))
             && MessageAt(b, off + ext, m, style, if style == Global then base else 0)
    requires Outside(b, c, Slot(off, i), Slot(off, i) + 8) && PointerAt(c, Slot(off, i), ext, Size(m))
             && Slot(off, i) + 8 <= off + ext
    ensures Written(a, c, off, i, ext, Nested(m), style, base)
  {
    MessageFrame(b, c, off + ext, m, style, if style == Global then base else 0);
  }

  lemma {:induction false} RepeatedWritten(a: Bytes, b: Bytes, c: Bytes, off: nat, i: nat, ext: nat, ms: seq<Message>,
                                           style: Numbering, base: nat)
    requires MessagesWritten(a, b, off + ext, ms, |ms|, style)
    requires Outside(b, c, Slot(off, i), Slot(off, i) + 8) && PointerAt(c, Slot(off, i), ext, Sizes(ms, |ms|))
             && Slot(off, i) + 8 <= off + ext
    ensures Written(a, c, off, i, ext, RepeatedNested(ms), style, base)
  {
    MessagesFrame(b, c, off + ext, ms, |ms|, style);
  }

  // The first j messages are written at a place, and nothing else.
  ghost predicate MessagesWritten(a: Bytes, b: Bytes, at: nat, ms: seq<Message>, j: nat, style: Numbering)
    requires j <= |ms|
  {
    MessagesAt(b, at, ms, j, style) && Outside(a, b, at, at + Sizes(ms, j))
  }

  lemma {:induction false} MessagesStep(a: Bytes, b: Bytes, c: Bytes, at: nat, ms: seq<Message>, j: nat, k: nat,
                                        style: Numbering)
    requires j < |ms| && MessagesWritten(a, b, at, ms, j, style) && k == at + Sizes(ms, j)
    requires MessageAt(c, k, ms[j], style, 0) && Outside(b, c, k, k + Size(ms[j]))
    ensures MessagesWritten(a, c, at, ms, j + 1, style)
  {
    MessagesFrame(b, c, at, ms, j, style);
  }

  // The first i fields are written, and nothing outside the message.
  ghost predicate FieldsWritten(a: Bytes, b: Bytes, off: nat, m: Message, i: nat, style: Numbering, base: nat)
    requires i <= |m.fields|
  {
    FieldsAt(b, off, m, i, style, base) && Outside(a, b, off, off + Size(m))
  }

  lemma {:induction false} FieldsOutside(a: Bytes, b: Bytes, c: Bytes, off: nat, m: Message, i: nat)
    requires i < |m.fields| && Outside(a, b, off, off + Size(m)) && Wrote(b, c, off, i, ExtAt(m, i), Ext(m.fields[i]))
    ensures Outside(a, c, off, off + Size(m))
  {
    FieldBounds(m, i);
    OutsideAfter(a, b, c, off, i, ExtAt(m, i), Ext(m.fields[i]), Size(m));
  }

  lemma {:induction false} FieldBounds(m: Message, i: nat)
    requires i < |m.fields|
    ensures 32 + 8 * i <= Size(m) && ExtAt(m, i) + Ext(m.fields[i]) <= Size(m)
  {
    ExtAtMono(m, i + 1, |m.fields|);
    ExtAtMono(m, 0, |m.fields|);
  }

  lemma {:induction false} OutsideAfter(a: Bytes, b: Bytes, c: Bytes, off: nat, i: nat, ext: nat, len: nat, size: nat)
    requires Outside(a, b, off, off + size) && Wrote(b, c, off, i, ext, len) && 32 + 8 * i <= size && ext + len <= size
    ensures Outside(a, c, off, off + size)
  {
  }

  lemma {:induction false} AnyNumber(buf: Bytes, off: nat, i: nat, ext: nat, v: Value, n: nat, number: nat)
    requires FieldAt(buf, off, i, ext, v, ByValue, n)
    ensures FieldAt(buf, off, i, ext, v, ByValue, number)
  {
  }

  lemma {:induction false} FieldsStep(a: Bytes, b: Bytes, c: Bytes, off: nat, m: Message, i: nat, style: Numbering,
                                      base: nat, ext: nat, number: nat)
    requires i < |m.fields| && FieldsWritten(a, b, off, m, i, style, base)
    requires ext == ExtAt(m, i) && (style != ByValue ==> number == base + CapsUpTo(m, i, style))
    requires Written(b, c, off, i, ext, m.fields[i], style, number)
    ensures FieldsWritten(a, c, off, m, i + 1, style, base)
  {
    FieldsOutside(a, b, c, off, m, i);
    if style == ByValue { AnyNumber(c, off, i, ext, m.fields[i], number, base + CapsUpTo(m, i, style)); }
    ExtAtMono(m, 0, i);
    FieldsFrame(b, c, off, m, i, style, base);
  }

  lemma {:induction false} FieldsThenHeader(a: Bytes, b: Bytes, c: Bytes, off: nat, m: Message, style: Numbering,
                                            base: nat)
    requires FieldsWritten(a, b, off, m, |m.fields|, style, base)
    requires HeaderAt(c, off, 24 + 8 * |m.fields|, Size(m)) && Outside(b, c, off, off + 16)
    ensures MessageAt(c, off, m, style, base) && Outside(a, c, off, off + Size(m))
  {
    FieldsFrame(b, c, off, m, |m.fields|, style, base);
  }

  method WriteBytes(buf: array<Byte>, k: nat, data: Bytes)
    requires k + |data| <= buf.Length
    modifies buf
    ensures buf[..] == Put(old(buf[..]), k, data)
  {
    ghost var a := buf[..];
    for i := 0 to |data|
      invariant forall j :: k <= j < k + i ==> buf[j] == data[j - k]
      invariant forall j :: 0 <= j < buf.Length && !(k <= j < k + i) ==> buf[j] == a[j]
    {
      buf[k + i] := data[i];
    }
    PutIs(a, k, data, buf[..]);
  }

  lemma {:induction false} PutIs(a: Bytes, k: nat, data: Bytes, b: Bytes)
    requires k + |data| <= |a| == |b|
    requires forall j :: 0 <= j < |b| ==> b[j] == if k <= j < k + |data| then data[j - k] else a[j]
    ensures b == Put(a, k, data)
  {
  }

  method WriteData(buf: array<Byte>, k: nat, data: Bytes)
    requires k + |data| <= buf.Length
    modifies buf
    ensures Holds(buf[..], k, data) && Outside(old(buf[..]), buf[..], k, k + |data|)
  {
    PutHolds(buf[..], k, data);
    WriteBytes(buf, k, data);
  }

  method WriteWord(buf: array<Byte>, k: nat, n: nat)
    requires k + 8 <= buf.Length && n < U64_LIMIT
    modifies buf
    ensures WordAt(buf[..], k, n) && Outside(old(buf[..]), buf[..], k, k + 8)
  {
    WordWritten(buf[..], k, n);
    WriteBytes(buf, k, Digits(n, 8));
  }

  method WriteU32(buf: array<Byte>, k: nat, n: nat)
    requires k + 4 <= buf.Length && n < U32_LIMIT
    modifies buf
    ensures Num(buf[..], k, 4) == n && Outside(old(buf[..]), buf[..], k, k + 4)
  {
    U32Written(buf[..], k, n);
    WriteBytes(buf, k, Digits(n, 4));
  }
}
