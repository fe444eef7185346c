/**
  What the C++ side of yunq gives back of a message it wrote.

  Written without a capability buffer, every message comes back. Written with one, capabilities
  are numbered afresh in each nested message and nested messages are parsed without the buffer,
  so a schema is safe exactly when its nested messages carry no capabilities.
 */
module YunqRoundTrip {
  import opened Common
  import opened YunqFormat
  import opened YunqSerializer
  import opened YunqView

  // ----- Without a capability buffer -----

  lemma {:induction false} SeenByValue(m: Message)
    ensures Seen(m, ByValue, None) == m
    decreases m, |m.fields| + 1
  {
    SeenFieldsByValue(m, 0);
    assert m.fields[0..] == m.fields;
  }

  lemma {:induction false} SeenFieldsByValue(m: Message, i: nat)
    requires i <= |m.fields|
    ensures SeenFields(m, i, ByValue, None) == m.fields[i..]
    decreases m, |m.fields| - i
  {
    if i < |m.fields| {
      SeenFieldsByValue(m, i + 1);
      match m.fields[i]
      case Nested(n) => SeenByValue(n);
      case RepeatedNested(ms) => SeenAllByValue(ms, 0); assert ms[0..] == ms;
      case _ =>
    }
  }

  lemma {:induction false} SeenAllByValue(ms: seq<Message>, j: nat)
    requires j <= |ms|
    ensures SeenAll(ms, j, ByValue) == ms[j..]
    decreases ms, |ms| - j
  {
    if j < |ms| {
      SeenByValue(ms[j]);
      SeenAllByValue(ms, j + 1);
    }
  }

  // ----- With a capability buffer -----

  /** No field of the message, at any depth, is a capability. */
  predicate NoCaps(s: Schema)
    decreases s
  {
    forall i :: 0 <= i < |s.fields| ==> s.fields[i] != CapabilityType && NoCapsBelow(s.fields[i])
  }

  predicate NoCapsBelow(t: FieldType)
    decreases t
  {
    match t
    case NestedType(s) => NoCaps(s)
    case RepeatedNestedType(s) => NoCaps(s)
    case _ => true
  }

  /** Nested messages carry no capabilities; the message itself may. */
  predicate CapsOnTop(s: Schema) {
    forall i :: 0 <= i < |s.fields| ==> NoCapsBelow(s.fields[i])
  }

  lemma {:induction false} NoCapsSeen(m: Message, s: Schema, style: Numbering)
    requires Typed(m, s) && NoCaps(s)
    ensures Seen(m, style, None) == m
    decreases m, |m.fields| + 1
  {
    NoCapsSeenFields(m, 0, s, style);
    assert m.fields[0..] == m.fields;
  }

  lemma {:induction false} NoCapsSeenFields(m: Message, i: nat, s: Schema, style: Numbering)
    requires i <= |m.fields| && Typed(m, s) && NoCaps(s)
    ensures SeenFields(m, i, style, None) == m.fields[i..]
    decreases m, |m.fields| - i
  {
    if i < |m.fields| {
      NoCapsSeenFields(m, i + 1, s, style);
      NoCapsBelowSeen(m.fields[i], s.fields[i], style, None, CapsUpTo(m, i, style));
      assert m.fields[i..] == [m.fields[i]] + m.fields[i + 1..];
    }
  }

  lemma {:induction false} NoCapsBelowSeen(v: Value, t: FieldType, style: Numbering, caps: Option<seq<nat>>,
                                           number: nat)
    requires HasType(v, t) && NoCapsBelow(t) && !v.Capability?
    ensures SeenField(v, style, caps, number) == v
    decreases v, 0
  {
    match v
    case Nested(n) => NoCapsSeen(n, t.schema, style);
    case RepeatedNested(ms) => NoCapsSeenAll(ms, 0, t.schema, style); assert ms[0..] == ms;
    case _ =>
  }

  lemma {:induction false} NoCapsSeenAll(ms: seq<Message>, j: nat, s: Schema, style: Numbering)
    requires j <= |ms| && HasType(RepeatedNested(ms), RepeatedNestedType(s)) && NoCaps(s)
    ensures SeenAll(ms, j, style) == ms[j..]
    decreases ms, |ms| - j
  {
    if j < |ms| {
      NoCapsSeen(ms[j], s, style);
      NoCapsSeenAll(ms, j + 1, s, style);
    }
  }

  lemma {:induction false} NoCapsStored(c: CapState, m: Message, i: nat, s: Schema)
    requires i <= |m.fields| && Typed(m, s) && NoCaps(s)
    ensures Caps(c, m, i) == c
    decreases m, i
  {
    if i > 0 {
      NoCapsStored(c, m, i - 1, s);
      NoCapsBelowStored(c, m, i - 1, s.fields[i - 1]);
    }
  }

  lemma {:induction false} NoCapsBelowStored(c: CapState, m: Message, i: nat, t: FieldType)
    requires i < |m.fields| && HasType(m.fields[i], t) && NoCapsBelow(t) && !m.fields[i].Capability?
    ensures CapsOf(c, m, i) == c
    decreases m.fields[i], 0
  {
    match m.fields[i]
    case Nested(n) => NoCapsStored(c, n, |n.fields|, t.schema);
    case RepeatedNested(ms) => NoCapsStoredAll(c, ms, |ms|, t.schema);
    case _ =>
  }

  lemma {:induction false} NoCapsStoredAll(c: CapState, ms: seq<Message>, j: nat, s: Schema)
    requires j <= |ms| && HasType(RepeatedNested(ms), RepeatedNestedType(s)) && NoCaps(s)
    ensures CapsAll(c, ms, j) == c
    decreases ms, j
  {
    if j > 0 {
      NoCapsStoredAll(c, ms, j - 1, s);
      NoCapsStored(c, ms[j - 1], |ms[j - 1].fields|, s);
    }
  }

  // With capabilities on top only, the buffer ends up with each at its number.
  lemma {:induction false} StoredOnTop(c: CapState, m: Message, i: nat, k: nat, s: Schema)
    requires k < i <= |m.fields| && Typed(m, s) && CapsOnTop(s) && m.fields[k].Capability?
    requires CapsUpTo(m, |m.fields|, PerMessage) <= |c.slots|
    ensures CapsUpTo(m, k, PerMessage) < |c.slots| && Caps(c, m, i).slots[CapsUpTo(m, k, PerMessage)] == m.fields[k].cap
    decreases i
  {
    CapsUpToMono(m, k + 1, i, PerMessage);
    CapsUpToMono(m, i, |m.fields|, PerMessage);
    if k < i - 1 {
      CapsUpToMono(m, k + 1, i - 1, PerMessage);
      StoredOnTop(c, m, i - 1, k, s);
      if !m.fields[i - 1].Capability? {
        NoCapsBelowStored(Caps(c, m, i - 1), m, i - 1, s.fields[i - 1]);
      }
    }
  }

  // Each capability of the message itself stands in the buffer at its number.
  ghost predicate CapsHeld(slots: seq<nat>, m: Message) {
    forall k {:trigger CapHeld(slots, m, k)} :: 0 <= k < |m.fields| ==> CapHeld(slots, m, k)
  }

  ghost predicate CapHeld(slots: seq<nat>, m: Message, k: nat)
    requires k < |m.fields|
  {
    m.fields[k].Capability? ==>
      CapsUpTo(m, k, PerMessage) < |slots| && slots[CapsUpTo(m, k, PerMessage)] == m.fields[k].cap
  }

  lemma {:induction false} HeldOnTop(c: CapState, m: Message, s: Schema)
    requires Typed(m, s) && CapsOnTop(s) && CapsUpTo(m, |m.fields|, PerMessage) <= |c.slots|
    ensures CapsHeld(Caps(c, m, |m.fields|).slots, m)
  {
    forall k | 0 <= k < |m.fields| ensures CapHeld(Caps(c, m, |m.fields|).slots, m, k) {
      if m.fields[k].Capability? { StoredOnTop(c, m, |m.fields|, k, s); }
    }
  }

  lemma {:induction false} SeenFieldsHeld(slots: seq<nat>, m: Message, i: nat, s: Schema)
    requires i <= |m.fields| && Typed(m, s) && CapsOnTop(s) && CapsHeld(slots, m)
    ensures SeenFields(m, i, PerMessage, Some(slots)) == m.fields[i..]
    decreases |m.fields| - i
  {
    if i < |m.fields| {
      SeenFieldsHeld(slots, m, i + 1, s);
      assert CapHeld(slots, m, i);
      if !m.fields[i].Capability? {
        NoCapsBelowSeen(m.fields[i], s.fields[i], PerMessage, Some(slots), CapsUpTo(m, i, PerMessage));
      }
    }
  }

  lemma {:induction false} SeenHeld(slots: seq<nat>, m: Message, s: Schema)
    requires Typed(m, s) && CapsOnTop(s) && CapsHeld(slots, m)
    ensures Seen(m, PerMessage, Some(slots)) == m
  {
    SeenFieldsHeld(slots, m, 0, s);
    assert m.fields[0..] == m.fields;
  }

  /** Capabilities on top come back through the capability buffer, whatever it held before. */
  lemma {:induction false} SeenOnTop(c: CapState, m: Message, s: Schema)
    requires Typed(m, s) && CapsOnTop(s) && CapsUpTo(m, |m.fields|, PerMessage) <= |c.slots|
    ensures Seen(m, PerMessage, Some(Caps(c, m, |m.fields|).slots)) == m
  {
    HeldOnTop(c, m, s);
    SeenHeld(Caps(c, m, |m.fields|).slots, m, s);
  }

  // ----- A message that does not come back -----

  /** A message of the schema with every capability 1 and every repeated field of length at most one. */
  function Sample(s: Schema): Message
    decreases s, |s.fields| + 1
  {
    Message(SampleFields(s, |s.fields|))
  }

  function SampleFields(s: Schema, i: nat): (r: seq<Value>)
    requires i <= |s.fields|
    ensures |r| == i
    decreases s, i
  {
    if i == 0 then [] else SampleFields(s, i - 1) + [SampleField(s.fields[i - 1])]
  }

  function SampleField(t: FieldType): Value
    decreases t, 0
  {
    match t
    case U64Type => U64(0)
    case I64Type => I64(0)
    case StringType => String([])
    case RepeatedU64Type => RepeatedU64([])
    case NestedType(s) => Nested(Sample(s))
    case RepeatedNestedType(s) => RepeatedNested([Sample(s)])
    case CapabilityType => Capability(1)
  }

  lemma {:induction false} SampleAt(s: Schema, n: nat, i: nat)
    requires i < n <= |s.fields|
    ensures SampleFields(s, n)[i] == SampleField(s.fields[i])
    decreases n
  {
    if i < n - 1 { SampleAt(s, n - 1, i); }
  }

  lemma {:induction false} SampleTyped(s: Schema)
    ensures Typed(Sample(s), s)
    decreases s, 1
  {
    forall i | 0 <= i < |s.fields| ensures HasType(Sample(s).fields[i], s.fields[i]) {
      SampleAt(s, |s.fields|, i);
      SampleFieldTyped(s.fields[i]);
    }
  }

  lemma {:induction false} SampleFieldTyped(t: FieldType)
    ensures HasType(SampleField(t), t)
    decreases t, 0
  {
    match t
    case NestedType(s) => SampleTyped(s);
    case RepeatedNestedType(s) => SampleTyped(s);
    case _ =>
  }

  lemma {:induction false} SeenAt(m: Message, i: nat, k: nat, style: Numbering, caps: Option<seq<nat>>)
    requires i <= k < |m.fields|
    ensures |SeenFields(m, i, style, caps)| == |m.fields| - i
    ensures SeenFields(m, i, style, caps)[k - i] == SeenField(m.fields[k], style, caps, CapsUpTo(m, k, style))
    decreases |m.fields| - i
  {
    if i < k {
      SeenAt(m, i + 1, k, style, caps);
    } else if i + 1 < |m.fields| {
      SeenAt(m, i + 1, i + 1, style, caps);
    }
  }

  // If the sample comes back, the first i fields hold no capability.
  lemma {:induction false} SampleHasNone(s: Schema, i: nat)
    requires i <= |s.fields| && Seen(Sample(s), PerMessage, None) == Sample(s)
    ensures CapsUpTo(Sample(s), i, PerMessage) == 0
    ensures forall k :: 0 <= k < i ==> s.fields[k] != CapabilityType && NoCapsBelow(s.fields[k])
    decreases s, 1, i
  {
    if i > 0 {
      SampleHasNone(s, i - 1);
      SampleAt(s, |s.fields|, i - 1);
      SeenAt(Sample(s), 0, i - 1, PerMessage, None);
      SampleFieldSeen(s.fields[i - 1], None, CapsUpTo(Sample(s), i - 1, PerMessage));
    }
  }

  lemma {:induction false} SampleFieldSeen(t: FieldType, caps: Option<seq<nat>>, number: nat)
    requires SeenField(SampleField(t), PerMessage, caps, number) == SampleField(t)
    ensures NoCapsBelow(t)
    decreases t, 0
  {
    match t
    case NestedType(s) => SampleHasNone(s, |s.fields|);
    case RepeatedNestedType(s) =>
      var all := SeenAll([Sample(s)], 0, PerMessage);
      assert all == [Sample(s)] && all[0] == Seen(Sample(s), PerMessage, None);
      SampleHasNone(s, |s.fields|);
    case _ =>
  }

  /** The message comes back when written and read with the capability buffer, whatever it held. */
  ghost predicate ComesBack(m: Message) {
    forall c: CapState {:trigger ComesBackThrough(m, c)} :: ComesBackThrough(m, c)
  }

  ghost predicate ComesBackThrough(m: Message, c: CapState) {
    CapsUpTo(m, |m.fields|, PerMessage) <= |c.slots| ==> Seen(m, PerMessage, Some(Caps(c, m, |m.fields|).slots)) == m
  }

  /** A schema is safe to send with capabilities exactly when its nested messages have none. */
  lemma {:induction false} SafeSchemas(s: Schema)
    ensures CapsOnTop(s) <==> forall m :: Typed(m, s) ==> ComesBack(m)
  {
    if CapsOnTop(s) {
      forall m | Typed(m, s) ensures ComesBack(m) {
        forall c: CapState ensures ComesBackThrough(m, c) {
          if CapsUpTo(m, |m.fields|, PerMessage) <= |c.slots| { SeenOnTop(c, m, s); }
        }
      }
    } else {
      var m := Sample(s);
      SampleTyped(s);
      if ComesBack(m) { SampleShows(s); }
    }
  }

  lemma {:induction false} ComesBackOnce(m: Message) returns (caps: Option<seq<nat>>)
    requires ComesBack(m)
    ensures Seen(m, PerMessage, caps) == m
  {
    var n := CapsUpTo(m, |m.fields|, PerMessage);
    var slots: seq<nat> := seq(n, _ => 0);
    var c := CapState(slots, 0);
    assert ComesBackThrough(m, c);
    caps := Some(Caps(c, m, |m.fields|).slots);
  }

  lemma {:induction false} SampleShows(s: Schema)
    requires ComesBack(Sample(s))
    ensures CapsOnTop(s)
  {
    var m := Sample(s);
    var caps := ComesBackOnce(m);
    forall k | 0 <= k < |s.fields| ensures NoCapsBelow(s.fields[k]) {
      SampleShowsAt(s, k, caps);
    }
  }

  lemma {:induction false} SampleShowsAt(s: Schema, k: nat, caps: Option<seq<nat>>)
    requires k < |s.fields| && Seen(Sample(s), PerMessage, caps) == Sample(s)
    ensures NoCapsBelow(s.fields[k])
  {
    var m := Sample(s);
    SampleAt(s, |s.fields|, k);
    SeenAt(m, 0, k, PerMessage, caps);
    SampleFieldSeen(s.fields[k], caps, CapsUpTo(m, k, PerMessage));
  }

  // ----- The round trip -----

  method RoundTrip(buf: array<Byte>, off: nat, m: Message, schema: Schema, caps: CapBuffer?)
    returns (r: Parsed<Message>)
    requires Typed(m, schema) && off + Size(m) <= buf.Length && off + Size(m) < U32_LIMIT
    requires caps != null ==> CapsOnTop(schema) && MostCaps(m, |m.fields|) <= |caps.state.slots| < U64_LIMIT
    modifies buf, caps
    ensures r == Parsed(m) && Outside(old(buf[..]), buf[..], off, off + Size(m))
  {
    var size := SerializeToBytes(buf, off, m, schema, caps);
    if caps == null {
      ParsesMessage(buf[..], off, m, schema, ByValue, None);
      SeenByValue(m);
      r := ParseMessage(buf[..], off, schema, None);
    } else {
      TopWithinMost(m, |m.fields|);
      ParsesMessage(buf[..], off, m, schema, PerMessage, Some(caps.state.slots));
      SeenOnTop(old(caps.state), m, schema);
      r := ParseMessage(buf[..], off, schema, Some(caps.state.slots));
    }
  }

  lemma {:induction false} TopWithinMost(m: Message, i: nat)
    requires i <= |m.fields|
    ensures CapsUpTo(m, i, PerMessage) <= MostCaps(m, i)
  {
    if i > 0 { TopWithinMost(m, i - 1); }
  }
}
