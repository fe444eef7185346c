/**
  The C++ and the Rust side of yunq read each other's messages, for schemas both support:
  no repeated fields, and capabilities only in the outermost message.
 */
module YunqAgreement {
  import opened Common
  import opened YunqFormat
  import opened YunqSerializer
  import View = YunqView
  import Rust = YunqRust
  import opened YunqRoundTrip

  // ----- Numbering does not matter without capabilities -----

  lemma {:induction false} NoCapsCounted(m: Message, i: nat, s: Schema)
    requires i <= |m.fields| && Typed(m, s) && NoCaps(s)
    ensures CapsUpTo(m, i, Global) == 0
    decreases m, i
  {
    if i > 0 {
      NoCapsCounted(m, i - 1, s);
      NoCapsBelowCounted(m.fields[i - 1], s.fields[i - 1]);
    }
  }

  lemma {:induction false} NoCapsBelowCounted(v: Value, t: FieldType)
    requires HasType(v, t) && NoCapsBelow(t)
    ensures CapCount(v, Global) == CapCount(v, PerMessage)
    decreases v, 0
  {
    if v.Nested? { NoCapsCounted(v.m, |v.m.fields|, t.schema); }
  }

  lemma {:induction false} NoCapsAnyStyle(buf: Bytes, off: nat, m: Message, s: Schema, style: Numbering, base: nat,
                                          style': Numbering, base': nat)
    requires Typed(m, s) && NoCaps(s) && MessageAt(buf, off, m, style, base)
    ensures MessageAt(buf, off, m, style', base')
    decreases m, |m.fields| + 1
  {
    NoCapsFields(buf, off, m, |m.fields|, s, style, base, style', base');
  }

  lemma {:induction false} NoCapsFields(buf: Bytes, off: nat, m: Message, i: nat, s: Schema, style: Numbering,
                                        base: nat, style': Numbering, base': nat)
    requires i <= |m.fields| && Typed(m, s) && NoCaps(s) && FieldsAt(buf, off, m, i, style, base)
    ensures FieldsAt(buf, off, m, i, style', base')
    decreases m, i
  {
    if i > 0 {
      NoCapsFields(buf, off, m, i - 1, s, style, base, style', base');
      NoCapsField(buf, off, i - 1, ExtAt(m, i - 1), m.fields[i - 1], s.fields[i - 1],
                  style, base + CapsUpTo(m, i - 1, style), style', base' + CapsUpTo(m, i - 1, style'));
    }
  }

  lemma {:induction false} NoCapsField(buf: Bytes, off: nat, i: nat, ext: nat, v: Value, t: FieldType, style: Numbering,
                                       n: nat, style': Numbering, n': nat)
    requires HasType(v, t) && NoCapsBelow(t) && !v.Capability? && FieldAt(buf, off, i, ext, v, style, n)
    ensures FieldAt(buf, off, i, ext, v, style', n')
    decreases v, 0
  {
    match v
    case Nested(m) =>
      NoCapsAnyStyle(buf, off + ext, m, t.schema, style, if style == Global then n
                     else 0, style', if style' == Global then n' else 0);
    case RepeatedNested(ms) => NoCapsAll(buf, off + ext, ms, |ms|, t.schema, style, style');
    case _ =>
  }

  lemma {:induction false} NoCapsAll(buf: Bytes, at: nat, ms: seq<Message>, j: nat, s: Schema, style: Numbering,
                                     style': Numbering)
    requires j <= |ms| && HasType(RepeatedNested(ms), RepeatedNestedType(s)) && NoCaps(s)
             && MessagesAt(buf, at, ms, j, style)
    ensures MessagesAt(buf, at, ms, j, style')
    decreases ms, j
  {
    if j > 0 {
      NoCapsAll(buf, at, ms, j - 1, s, style, style');
      NoCapsAnyStyle(buf, at + Sizes(ms, j - 1), ms[j - 1], s, style, 0, style', 0);
    }
  }

  // ----- Capabilities on top -----

  lemma {:induction false} OnTopCounted(m: Message, i: nat, s: Schema)
    requires i <= |m.fields| && Typed(m, s) && CapsOnTop(s)
    ensures CapsUpTo(m, i, Global) == CapsUpTo(m, i, PerMessage)
  {
    if i > 0 {
      OnTopCounted(m, i - 1, s);
      NoCapsBelowCounted(m.fields[i - 1], s.fields[i - 1]);
    }
  }

  lemma {:induction false} OnTopFields(buf: Bytes, off: nat, m: Message, i: nat, s: Schema, style: Numbering,
                                       style': Numbering)
    requires i <= |m.fields| && Typed(m, s) && CapsOnTop(s) && FieldsAt(buf, off, m, i, style, 0)
    requires style != ByValue && style' != ByValue
    ensures FieldsAt(buf, off, m, i, style', 0)
    decreases i
  {
    if i > 0 {
      OnTopFields(buf, off, m, i - 1, s, style, style');
      OnTopCounted(m, i - 1, s);
      if !m.fields[i - 1].Capability? {
        NoCapsField(buf, off, i - 1, ExtAt(m, i - 1), m.fields[i - 1], s.fields[i - 1],
                    style, CapsUpTo(m, i - 1, style), style', CapsUpTo(m, i - 1, style'));
      }
    }
  }

  /** Both serializers leave the same message in the buffer. */
  lemma {:induction false} OnTopAgrees(buf: Bytes, off: nat, m: Message, s: Schema)
    requires Typed(m, s) && CapsOnTop(s)
    ensures MessageAt(buf, off, m, PerMessage, 0) <==> MessageAt(buf, off, m, Global, 0)
  {
    if MessageAt(buf, off, m, PerMessage, 0) { OnTopFields(buf, off, m, |m.fields|, s, PerMessage, Global); }
    if MessageAt(buf, off, m, Global, 0) { OnTopFields(buf, off, m, |m.fields|, s, Global, PerMessage); }
  }

  // Both number the capabilities alike.
  lemma {:induction false} HeldIsListed(slots: seq<nat>, m: Message, i: nat, s: Schema)
    requires i <= |m.fields| && Typed(m, s) && CapsOnTop(s) && CapsHeld(slots, m)
    ensures Rust.Listed(slots, 0, Rust.CapList(m, i))
    decreases i
  {
    if i > 0 {
      HeldIsListed(slots, m, i - 1, s);
      assert CapHeld(slots, m, i - 1);
      Rust.CapListLength(m, i - 1);
      Rust.CapListOfLength(m.fields[i - 1]);
      OnTopCounted(m, i - 1, s);
      NoCapsBelowCounted(m.fields[i - 1], s.fields[i - 1]);
    }
  }

  lemma {:induction false} ListIsHeld(m: Message, s: Schema)
    requires Typed(m, s) && CapsOnTop(s)
    ensures CapsHeld(Rust.CapList(m, |m.fields|), m)
  {
    var list := Rust.CapList(m, |m.fields|);
    forall k | 0 <= k < |m.fields| ensures CapHeld(list, m, k) {
      Rust.ListedField(list, 0, m, |m.fields|, k);
      OnTopCounted(m, k, s);
      if m.fields[k].Capability? { assert list[CapsUpTo(m, k, Global) + 0] == Rust.CapListOf(m.fields[k])[0]; }
    }
  }

  // ----- Each side parses the other -----

  /** Rust reads what C++ wrote. */
  lemma {:induction false} RustReadsCpp(buf: Bytes, off: nat, m: Message, s: Schema, c: CapState, utf8: Bytes -> bool)
    requires Typed(m, s) && CapsOnTop(s) && Rust.Plain(s) && Rust.Strings(m, utf8)
    requires CapsUpTo(m, |m.fields|, PerMessage) <= |c.slots|
    requires MessageAt(buf, off, m, PerMessage, 0)
    ensures Rust.Parse(buf, off, s, Caps(c, m, |m.fields|).slots, utf8) == Rust.Done(m)
  {
    var slots := Caps(c, m, |m.fields|).slots;
    OnTopAgrees(buf, off, m, s);
    HeldOnTop(c, m, s);
    HeldIsListed(slots, m, |m.fields|, s);
    Rust.Parses(buf, off, m, s, 0, slots, utf8);
  }

  /** C++ reads what Rust wrote. */
  lemma {:induction false} CppReadsRust(buf: Bytes, off: nat, m: Message, s: Schema)
    requires Typed(m, s) && CapsOnTop(s) && MessageAt(buf, off, m, Global, 0)
    ensures View.ParseMessage(buf, off, s, Some(Rust.CapList(m, |m.fields|))) == View.Parsed(m)
  {
    var list := Rust.CapList(m, |m.fields|);
    OnTopAgrees(buf, off, m, s);
    OnTopCounted(m, |m.fields|, s);
    Rust.CapListLength(m, |m.fields|);
    View.ParsesMessage(buf, off, m, s, PerMessage, Some(list));
    ListIsHeld(m, s);
    SeenHeld(list, m, s);
  }
}
