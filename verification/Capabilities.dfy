/**
  Capability tables and the system calls that create, copy, move and drop capabilities
  (zion/capability, zion/syscall/capability.cpp, zion/syscall/ipc.cpp, zion/syscall/process.cpp).

  Every capability object has a name of its own, so that holding the same object twice can be
  told from holding two equal ones. In the system calls a table is a finite map; the class at the
  end keeps it in a hash map, as the kernel does.
 */
module Capabilities {
  import opened Common
  import Maps = HashMap

  datatype Pid = Pid(n: nat)
  datatype Obj = Obj(n: nat)
  datatype Ref = Ref(n: nat)
  datatype Id = Id(n: nat)

  const WRITE: bv64 := 0x1
  const READ: bv64 := 0x2
  const TRANSMIT: bv64 := 0x10
  const DUPLICATE: bv64 := 0x20
  const SPAWN_PROCESS: bv64 := 0x100

  datatype Cap = Cap(obj: Obj, perms: bv64)

  predicate HasPermissions(perms: bv64, requested: bv64) { perms & requested == requested }

  datatype Kind = Channel(peer: Obj) | Port | Endpoint | ReplyPort | Process(pid: Pid) | Other

  datatype Error = CapNotFound | CapWrongType | CapPermissionDenied | BufferSize | Unimplemented | FailedPrecondition
      | Empty | Internal

  datatype Message = Message(bytes: nat, caps: seq<Ref>, reply: Option<Ref>)

  /** Messages waiting, and how many went before them. */
  datatype Queue = Queue(popped: nat, pending: seq<Message>)

  datatype Table = Table(next: nat, entries: map<Id, Ref>)

  datatype Kernel = Kernel(
    tables: map<Pid, Table>,
    queues: map<Obj, Queue>,
    caps: map<Ref, Cap>,
    kinds: map<Obj, Kind>,
    nextRef: nat,
    nextObj: nat)

  function TableOf(k: Kernel, p: Pid): Table { if p in k.tables then k.tables[p] else Table(0x100, map[]) }

  function QueueOf(k: Kernel, o: Obj): Queue { if o in k.queues then k.queues[o] else Queue(0, []) }

  function KindOf(k: Kernel, o: Obj): Kind { if o in k.kinds then k.kinds[o] else Other }

  function CapOf(k: Kernel, c: Ref): Cap { if c in k.caps then k.caps[c] else Cap(Obj(0), 0) }

  function Lookup(k: Kernel, p: Pid, id: Id): Option<Ref> {
    if id in TableOf(k, p).entries then Some(TableOf(k, p).entries[id]) else None
  }

  // ----- Tables -----

  function Added(t: Table, c: Ref): Table { Table(t.next + 1, t.entries[Id(t.next) := c]) }

  function AddedAll(t: Table, refs: seq<Ref>, n: nat): Table
    requires n <= |refs|
  {
    if n == 0 then t else Added(AddedAll(t, refs, n - 1), refs[n - 1])
  }

  datatype Taken = Taken(table: Table, refs: seq<Ref>, error: Option<Error>)

  /** Takes the first n listed capabilities out of the table, stopping at the first that cannot be sent. */
  function Take(t: Table, caps: map<Ref, Cap>, ids: seq<Id>, n: nat): Taken
    requires n <= |ids|
  {
    if n == 0 then Taken(t, [], None)
    else
      var r := Take(t, caps, ids, n - 1);
      var id := ids[n - 1];
      if r.error.Some? then r
      else if id !in r.table.entries then r.(error := Some(CapNotFound))
      else
        var c := r.table.entries[id];
        if c !in caps || !HasPermissions(caps[c].perms, TRANSMIT) then r.(error := Some(CapPermissionDenied))
        else Taken(r.table.(entries := r.table.entries - {id}), r.refs + [c], None)
  }

  // ----- System calls -----

  // A new capability to obj in the table of p.
  function NewCap(k: Kernel, p: Pid, o: Obj, perms: bv64): Kernel {
    k.(caps := k.caps[Ref(k.nextRef) := Cap(o, perms)], nextRef := k.nextRef + 1,
       tables := k.tables[p := Added(TableOf(k, p), Ref(k.nextRef))])
  }

  function NewObj(k: Kernel, kind: Kind): Kernel {
    k.(kinds := k.kinds[Obj(k.nextObj) := kind], nextObj := k.nextObj + 1)
  }

  /** A new object, and a capability to it for p. */
  function Create(k: Kernel, p: Pid, kind: Kind, perms: bv64): Kernel {
    NewCap(NewObj(k, kind), p, Obj(k.nextObj), perms)
  }

  datatype Outcome = Outcome(k: Kernel, error: Option<Error>)

  function CapDuplicate(k: Kernel, p: Pid, id: Id, mask: bv64): Outcome {
    var c := Lookup(k, p, id);
    if c == None then Outcome(k, Some(CapNotFound))
    else if CapOf(k, c.value).perms & DUPLICATE == 0 then Outcome(k, Some(CapPermissionDenied))
    else Outcome(NewCap(k, p, CapOf(k, c.value).obj, CapOf(k, c.value).perms & mask), None)
  }

  function CapRelease(k: Kernel, p: Pid, id: Id): Outcome {
    if Lookup(k, p, id) == None then Outcome(k, Some(CapNotFound))
    else Outcome(k.(tables := k.tables[p := TableOf(k, p).(entries := TableOf(k, p).entries - {id})]), None)
  }

  function ReleaseAll(k: Kernel, p: Pid): Kernel {
    k.(tables := k.tables[p := TableOf(k, p).(entries := map[])])
  }

  function Validate(k: Kernel, c: Option<Ref>, ok: bool, perms: bv64): Option<Error> {
    if c == None then Some(CapNotFound)
    else if !ok then Some(CapWrongType)
    else if !HasPermissions(CapOf(k, c.value).perms, perms) then Some(CapPermissionDenied)
    else None
  }

  /** Which of the kernel's message objects a call is for. */
  datatype Call = OnChannel | OnPort | OnEndpoint | OnReplyPort

  predicate Matches(call: Call, kind: Kind) {
    match call
    case OnChannel => kind.Channel?
    case OnPort => kind == Port
    case OnEndpoint => kind == Endpoint
    case OnReplyPort => kind == ReplyPort
  }

  // The queue a message sent to o goes to.
  function Target(k: Kernel, o: Obj): Obj { if KindOf(k, o).Channel? then KindOf(k, o).peer else o }

  function Push(k: Kernel, o: Obj, m: Message): Outcome {
    var q := QueueOf(k, o);
    if KindOf(k, o) == ReplyPort && q.popped + |q.pending| > 0 then Outcome(k, Some(FailedPrecondition))
    else Outcome(k.(queues := k.queues[o := q.(pending := q.pending + [m])]), None)
  }

  // The listed capabilities leave the table of p and travel with the message.
  function Deliver(k: Kernel, p: Pid, o: Obj, bytes: nat, ids: seq<Id>, reply: Option<Ref>): Outcome {
    if bytes > 0x1000 then Outcome(k, Some(Unimplemented))
    else
      var t := Take(TableOf(k, p), k.caps, ids, |ids|);
      var k' := k.(tables := k.tables[p := t.table]);
      if t.error.Some? then Outcome(k', t.error) else Push(k', o, Message(bytes, t.refs, reply))
  }

  /** ChannelSend, PortSend and ReplyPortSend. */
  function Send(k: Kernel, p: Pid, call: Call, id: Id, bytes: nat, ids: seq<Id>): Outcome {
    var c := Lookup(k, p, id);
    var error := Validate(k, c, c.Some? && call != OnEndpoint
                          && Matches(call, KindOf(k, CapOf(k, c.value).obj)), WRITE);
    if error.Some? then Outcome(k, error) else Deliver(k, p, Target(k, CapOf(k, c.value).obj), bytes, ids, None)
  }

  /** A reply port for the answer: one end to read it stays here, the other travels with the message. */
  function EndpointSend(k: Kernel, p: Pid, id: Id, bytes: nat, ids: seq<Id>): Outcome {
    var c := Lookup(k, p, id);
    var error := Validate(k, c, c.Some? && KindOf(k, CapOf(k, c.value).obj) == Endpoint, WRITE);
    if error.Some? then Outcome(k, error)
    else
      Deliver(WithReplyPort(k, p), p, CapOf(k, c.value).obj, bytes, ids, Some(Ref(k.nextRef + 1)))
  }

  // A fresh reply port: p can read it; the end to write it is held by nobody yet.
  function WithReplyPort(k: Kernel, p: Pid): Kernel {
    WithEnd(Create(k, p, ReplyPort, READ), Cap(Obj(k.nextObj), WRITE | TRANSMIT))
  }

  function WithEnd(k: Kernel, cap: Cap): Kernel {
    k.(caps := k.caps[Ref(k.nextRef) := cap], nextRef := k.nextRef + 1)
  }

  /** The message at the front moves its capabilities into the table of p. */
  function Receive(k: Kernel, p: Pid, o: Obj, bytes: nat, room: nat): Outcome {
    var q := QueueOf(k, o);
    if KindOf(k, o) == ReplyPort && q.popped > 0 then Outcome(k, Some(FailedPrecondition))
    else if q.pending == [] then Outcome(k, Some(Empty))
    else
      var m := q.pending[0];
      if m.bytes > bytes || |m.caps| > room then Outcome(k, Some(BufferSize))
      else
        var t := AddedAll(TableOf(k, p), m.caps, |m.caps|);
        var t' := if KindOf(k, o) == Endpoint && m.reply.Some? then Added(t, m.reply.value) else t;
        Outcome(k.(queues := k.queues[o := Queue(q.popped + 1, q.pending[1..])], tables := k.tables[p := t']),
                if KindOf(k, o) == Endpoint && m.reply == None then Some(Internal) else None)
  }

  function Recv(k: Kernel, p: Pid, call: Call, id: Id, bytes: nat, room: nat): Outcome {
    var c := Lookup(k, p, id);
    var error := Validate(k, c, c.Some? && Matches(call, KindOf(k, CapOf(k, c.value).obj)), READ);
    if error.Some? then Outcome(k, error) else Receive(k, p, CapOf(k, c.value).obj, bytes, room)
  }

  /** A new process, and a capability handed to it if one is named. */
  function ProcessSpawn(k: Kernel, p: Pid, id: Id, child: Pid, perms: bv64, spacePerms: bv64,
                        bootstrap: Option<Id>): Outcome {
    var c := Lookup(k, p, id);
    var error := Validate(k, c, c.Some? && KindOf(k, CapOf(k, c.value).obj).Process?, SPAWN_PROCESS);
    if error.Some? then Outcome(k, error)
    else
      var k' := Create(Create(k, p, Process(child), perms), p, Other, spacePerms);
      if bootstrap == None then Outcome(k', None) else HandOver(k', p, bootstrap.value, child)
  }

  function HandOver(k: Kernel, p: Pid, id: Id, child: Pid): Outcome {
    var c := Lookup(k, p, id);
    if c == None then Outcome(k, Some(CapNotFound))
    else if !HasPermissions(CapOf(k, c.value).perms, TRANSMIT) then Outcome(k, Some(CapPermissionDenied))
    else
      var k' := CapRelease(k, p, id).k;
      Outcome(k'.(tables := k'.tables[child := Added(TableOf(k', child), c.value)]), None)
  }

  // ----- Where every capability is -----

  datatype Place = InTable(p: Pid, id: Id) | InMessage(o: Obj, number: nat, i: nat) | AsReply(o: Obj, number: nat)

  type Whereabouts = map<Ref, Place>

  ghost predicate RefAt(caps: map<Ref, Cap>, loc: Whereabouts, c: Ref, place: Place) {
    c in caps && c in loc && loc[c] == place
  }

  ghost predicate EntryOk(k: Kernel, loc: Whereabouts, p: Pid, id: Id)
    requires p in k.tables && id in k.tables[p].entries
  {
    RefAt(k.caps, loc, k.tables[p].entries[id], InTable(p, id)) && 0x100 <= id.n < k.tables[p].next
  }

  // Message m is number n of queue o.
  ghost predicate MessageOk(caps: map<Ref, Cap>, loc: Whereabouts, o: Obj, n: nat, m: Message) {
    && (forall i :: 0 <= i < |m.caps| ==> RefAt(caps, loc, m.caps[i], InMessage(o, n, i)))
    && (m.reply.Some? ==> RefAt(caps, loc, m.reply.value, AsReply(o, n)))
  }

  ghost predicate QueueOk(caps: map<Ref, Cap>, loc: Whereabouts, o: Obj, q: Queue) {
    forall j :: 0 <= j < |q.pending| ==> MessageOk(caps, loc, o, q.popped + j, q.pending[j])
  }

  /** Everything held is where loc says, so nothing is held twice. */
  ghost predicate Inv(k: Kernel, loc: Whereabouts) {
    && (forall p, id {:trigger EntryOk(k, loc, p, id)} :: p in k.tables && id in k.tables[p].entries ==>
                                                            EntryOk(k, loc, p, id))
    && (forall o {:trigger QueueOk(k.caps, loc, o, k.queues[o])} ::
      o in k.queues ==> QueueOk(k.caps, loc, o, k.queues[o]))
    && (forall c :: c in k.caps || c in loc ==> c.n < k.nextRef)
    && (forall p :: p in k.tables ==> k.tables[p].next >= 0x100)
  }

  lemma {:induction false} EntryAt(k: Kernel, loc: Whereabouts, p: Pid, id: Id)
    requires Inv(k, loc) && p in k.tables && id in k.tables[p].entries
    ensures EntryOk(k, loc, p, id)
  {
  }

  lemma {:induction false} QueueAt(k: Kernel, loc: Whereabouts, o: Obj)
    requires Inv(k, loc) && o in k.queues
    ensures QueueOk(k.caps, loc, o, k.queues[o])
  {
  }

  // A capability of p that the kernel makes up.
  lemma {:induction false} NewCapKeeps(k: Kernel, loc: Whereabouts, p: Pid, o: Obj, perms: bv64)
    returns (loc': Whereabouts)
    requires Inv(k, loc)
    ensures Inv(NewCap(k, p, o, perms), loc')
  {
    var k', c, id := NewCap(k, p, o, perms), Ref(k.nextRef), Id(TableOf(k, p).next);
    loc' := loc[c := InTable(p, id)];
    forall p', id' | p' in k'.tables && id' in k'.tables[p'].entries ensures EntryOk(k', loc', p', id') {
      if p' != p || id' != id { EntryAt(k, loc, p', id'); }
    }
    forall o' | o' in k'.queues ensures QueueOk(k'.caps, loc', o', k'.queues[o']) {
      QueueAt(k, loc, o');
    }
  }

  lemma {:induction false} NewObjKeeps(k: Kernel, loc: Whereabouts, kind: Kind)
    requires Inv(k, loc)
    ensures Inv(NewObj(k, kind), loc)
  {
    var k' := NewObj(k, kind);
    forall p, id | p in k'.tables && id in k'.tables[p].entries
      ensures EntryOk(k', loc, p, id) { EntryAt(k, loc, p, id); }
    forall o | o in k'.queues ensures QueueOk(k'.caps, loc, o, k'.queues[o]) { QueueAt(k, loc, o); }
  }

  lemma {:induction false} CreateKeeps(k: Kernel, loc: Whereabouts, p: Pid, kind: Kind, perms: bv64)
    returns (loc': Whereabouts)
    requires Inv(k, loc)
    ensures Inv(Create(k, p, kind, perms), loc')
  {
    NewObjKeeps(k, loc, kind);
    loc' := NewCapKeeps(NewObj(k, kind), loc, p, Obj(k.nextObj), perms);
  }

  // Dropping entries of a table.
  lemma {:induction false} DropKeeps(k: Kernel, loc: Whereabouts, p: Pid, t: Table)
    requires Inv(k, loc) && t.next == TableOf(k, p).next && Fewer(t.entries, TableOf(k, p).entries)
    ensures Inv(k.(tables := k.tables[p := t]), loc)
  {
    var k' := k.(tables := k.tables[p := t]);
    forall p', id | p' in k'.tables && id in k'.tables[p'].entries
      ensures EntryOk(k', loc, p', id) { EntryAt(k, loc, p', id); }
    forall o | o in k'.queues ensures QueueOk(k'.caps, loc, o, k'.queues[o]) { QueueAt(k, loc, o); }
  }

  ghost predicate Fewer(m: map<Id, Ref>, n: map<Id, Ref>) {
    forall id :: id in m ==> id in n && m[id] == n[id]
  }

  // ----- Taking capabilities out of a table -----

  predicate Transmits(caps: map<Ref, Cap>, c: Ref) { c in caps && HasPermissions(caps[c].perms, TRANSMIT) }

  predicate SendableAt(t: Table, caps: map<Ref, Cap>, ids: seq<Id>, i: nat)
    requires i < |ids|
  {
    ids[i] in t.entries && Transmits(caps, t.entries[ids[i]]) && ids[i] !in ids[..i]
  }

  /** The first n listed ids are distinct, present, and may be sent. */
  predicate Sendable(t: Table, caps: map<Ref, Cap>, ids: seq<Id>, n: nat)
    requires n <= |ids|
  {
    n == 0 || (Sendable(t, caps, ids, n - 1) && SendableAt(t, caps, ids, n - 1))
  }

  lemma {:induction false} SendableEach(t: Table, caps: map<Ref, Cap>, ids: seq<Id>, n: nat, i: nat)
    requires i < n <= |ids| && Sendable(t, caps, ids, n)
    ensures SendableAt(t, caps, ids, i)
  {
    if i < n - 1 { SendableEach(t, caps, ids, n - 1, i); }
  }

  // The table after the first n listed capabilities have gone.
  ghost predicate TakenOut(t: Table, t': Table, ids: seq<Id>, refs: seq<Ref>) {
    && t'.next == t.next && |refs| <= |ids|
    && (forall i :: 0 <= i < |refs| ==> ids[i] in t.entries && refs[i] == t.entries[ids[i]])
    && (forall id :: id in t'.entries <==> id in t.entries && id !in ids[..|refs|])
    && Fewer(t'.entries, t.entries)
  }

  lemma {:induction false} TakenOutStep(t: Table, t': Table, ids: seq<Id>, refs: seq<Ref>)
    requires TakenOut(t, t', ids, refs) && |refs| < |ids| && ids[|refs|] in t'.entries
    ensures TakenOut(t, t'.(entries := t'.entries - {ids[|refs|]}), ids, refs + [t'.entries[ids[|refs|]]])
  {
    var n := |refs|;
    assert ids[..n + 1] == ids[..n] + [ids[n]];
  }

  /**
   * Sending succeeds exactly when the listed ids are distinct, present and transmittable. What is
   * listed before a failure has left the table all the same.
   */
  lemma {:induction false} TakeTakes(t: Table, caps: map<Ref, Cap>, ids: seq<Id>, n: nat)
    requires n <= |ids|
    ensures var r := Take(t, caps, ids, n);
            && TakenOut(t, r.table, ids, r.refs) && Sendable(t, caps, ids, |r.refs|)
            && (r.error == None <==> Sendable(t, caps, ids, n)) && (r.error == None ==> |r.refs| == n)
            && (r.error.Some? ==> |r.refs| < n && !SendableAt(t, caps, ids, |r.refs|))
  {
    if n > 0 {
      TakeTakes(t, caps, ids, n - 1);
      var before := Take(t, caps, ids, n - 1);
      if before.error == None && ids[n - 1] in before.table.entries { TakenOutStep(t, before.table, ids, before.refs); }
    }
  }

  // ----- Moving capabilities -----

  datatype Dest = ToMessage(o: Obj, number: nat) | ToTable(p: Pid, next: nat)

  function Spot(d: Dest, i: nat): Place {
    match d
    case ToMessage(o, number) => InMessage(o, number, i)
    case ToTable(p, next) => InTable(p, Id(next + i))
  }

  ghost function Moved(loc: Whereabouts, refs: seq<Ref>, d: Dest, n: nat): Whereabouts
    requires n <= |refs|
  {
    if n == 0 then loc else Moved(loc, refs, d, n - 1)[refs[n - 1] := Spot(d, n - 1)]
  }

  lemma {:induction false} MovedAt(loc: Whereabouts, refs: seq<Ref>, d: Dest, n: nat, c: Ref)
    requires n <= |refs|
    ensures c !in refs[..n] ==>
              (c in Moved(loc, refs, d, n) <==> c in loc) && (c in loc ==> Moved(loc, refs, d, n)[c] == loc[c])
  {
    if n > 0 {
      MovedAt(loc, refs, d, n - 1, c);
      assert refs[..n] == refs[..n - 1] + [refs[n - 1]];
    }
  }

  ghost predicate Distinct(refs: seq<Ref>) { forall i, j :: 0 <= i < j < |refs| ==> refs[i] != refs[j] }

  lemma {:induction false} MovedTo(loc: Whereabouts, refs: seq<Ref>, d: Dest, n: nat, i: nat)
    requires i < n <= |refs| && Distinct(refs)
    ensures refs[i] in Moved(loc, refs, d, n) && Moved(loc, refs, d, n)[refs[i]] == Spot(d, i)
  {
    if i < n - 1 { MovedTo(loc, refs, d, n - 1, i); }
  }

  // Capabilities in different places are different.
  lemma {:induction false} TakenDistinct(k: Kernel, loc: Whereabouts, p: Pid, ids: seq<Id>, refs: seq<Ref>)
    requires Inv(k, loc) && p in k.tables && |refs| == |ids|
    requires Sendable(k.tables[p], k.caps, ids, |ids|)
    requires forall i :: 0 <= i < |ids| ==> ids[i] in k.tables[p].entries && refs[i] == k.tables[p].entries[ids[i]]
    ensures Distinct(refs)
  {
    forall i, j | 0 <= i < j < |refs| ensures refs[i] != refs[j] {
      SendableEach(k.tables[p], k.caps, ids, |ids|, i);
      SendableEach(k.tables[p], k.caps, ids, |ids|, j);
      EntryAt(k, loc, p, ids[i]);
      EntryAt(k, loc, p, ids[j]);
      assert ids[i] in ids[..j];
    }
  }

  /** Something is held at the place. */
  ghost predicate Occupied(k: Kernel, place: Place) {
    match place
    case InTable(p, id) => p in k.tables && id in k.tables[p].entries
    case InMessage(o, number, i) =>
      o in k.queues && k.queues[o].popped <= number < k.queues[o].popped + |k.queues[o].pending|
    case AsReply(o, number) =>
      o in k.queues && k.queues[o].popped <= number < k.queues[o].popped + |k.queues[o].pending|
  }

  // A capability that has just left the place it was at.
  ghost predicate Unheld(k: Kernel, loc: Whereabouts, c: Ref) {
    c in k.caps && (c in loc ==> !Occupied(k, loc[c]))
  }

  // Changing where loc puts capabilities that nobody holds.
  lemma {:induction false} MoveKeeps(k: Kernel, loc: Whereabouts, refs: seq<Ref>, d: Dest)
    requires Inv(k, loc) && forall i :: 0 <= i < |refs| ==> Unheld(k, loc, refs[i])
    ensures Inv(k, Moved(loc, refs, d, |refs|))
  {
    var loc' := Moved(loc, refs, d, |refs|);
    assert refs[..|refs|] == refs;
    forall p, id | p in k.tables && id in k.tables[p].entries ensures EntryOk(k, loc', p, id) {
      EntryAt(k, loc, p, id);
      MovedAt(loc, refs, d, |refs|, k.tables[p].entries[id]);
    }
    forall o | o in k.queues ensures QueueOk(k.caps, loc', o, k.queues[o]) {
      MoveKeepsQueue(k, loc, refs, d, o);
    }
    forall c | c in loc' ensures c.n < k.nextRef {
      MovedAt(loc, refs, d, |refs|, c);
    }
  }

  lemma {:induction false} MoveKeepsQueue(k: Kernel, loc: Whereabouts, refs: seq<Ref>, d: Dest, o: Obj)
    requires Inv(k, loc) && o in k.queues && forall i :: 0 <= i < |refs| ==> Unheld(k, loc, refs[i])
    ensures QueueOk(k.caps, Moved(loc, refs, d, |refs|), o, k.queues[o])
  {
    var loc', q := Moved(loc, refs, d, |refs|), k.queues[o];
    assert refs[..|refs|] == refs;
    QueueAt(k, loc, o);
    forall j | 0 <= j < |q.pending| ensures MessageOk(k.caps, loc', o, q.popped + j, q.pending[j]) {
      var m := q.pending[j];
      assert MessageOk(k.caps, loc, o, q.popped + j, m);
      forall i | 0 <= i < |m.caps| ensures RefAt(k.caps, loc', m.caps[i], InMessage(o, q.popped + j, i)) {
        MovedAt(loc, refs, d, |refs|, m.caps[i]);
      }
      if m.reply.Some? { MovedAt(loc, refs, d, |refs|, m.reply.value); }
    }
  }

  // Replacing a queue by one that loc agrees with.
  lemma {:induction false} SetQueueKeeps(k: Kernel, loc: Whereabouts, o: Obj, q: Queue)
    requires Inv(k, loc) && QueueOk(k.caps, loc, o, q)
    ensures Inv(k.(queues := k.queues[o := q]), loc)
  {
    var k' := k.(queues := k.queues[o := q]);
    forall p, id | p in k'.tables && id in k'.tables[p].entries
      ensures EntryOk(k', loc, p, id) { EntryAt(k, loc, p, id); }
    forall o' | o' in k'.queues ensures QueueOk(k'.caps, loc, o', k'.queues[o']) {
      if o' != o { QueueAt(k, loc, o'); }
    }
  }

  // A message joins a queue with capabilities that loc already puts there.
  lemma {:induction false} PushKeeps(k: Kernel, loc: Whereabouts, o: Obj, m: Message)
    requires Inv(k, loc) && MessageOk(k.caps, loc, o, QueueOf(k, o).popped + |QueueOf(k, o).pending|, m)
    ensures Inv(Push(k, o, m).k, loc)
  {
    var q := QueueOf(k, o);
    if o in k.queues { QueueAt(k, loc, o); }
    var q' := q.(pending := q.pending + [m]);
    forall j | 0 <= j < |q'.pending| ensures MessageOk(k.caps, loc, o, q'.popped + j, q'.pending[j]) {
      if j < |q.pending| { assert MessageOk(k.caps, loc, o, q.popped + j, q.pending[j]); }
    }
    SetQueueKeeps(k, loc, o, q');
  }

  // ----- Every call keeps the invariant -----

  // What has been taken out of the table is held by nobody.
  lemma {:induction false} TakenUnheld(k: Kernel, loc: Whereabouts, p: Pid, ids: seq<Id>, t: Table, refs: seq<Ref>)
    requires Inv(k, loc) && p in k.tables && TakenOut(k.tables[p], t, ids, refs)
    ensures forall i :: 0 <= i < |refs| ==> Unheld(k.(tables := k.tables[p := t]), loc, refs[i]) && refs[i] in loc
  {
    forall i | 0 <= i < |refs| ensures Unheld(k.(tables := k.tables[p := t]), loc, refs[i]) && refs[i] in loc {
      EntryAt(k, loc, p, ids[i]);
      assert ids[i] in ids[..|refs|];
    }
  }

  lemma {:induction false} SentMessageOk(caps: map<Ref, Cap>, loc: Whereabouts, o: Obj, n: nat, m: Message)
    requires Distinct(m.caps) && (forall i :: 0 <= i < |m.caps| ==> m.caps[i] in caps)
    requires m.reply.Some? ==> m.reply.value in caps && m.reply.value !in m.caps
    ensures var there := Moved(loc, m.caps, ToMessage(o, n), |m.caps|);
            MessageOk(caps, if m.reply.Some? then there[m.reply.value := AsReply(o, n)] else there, o, n, m)
  {
    forall i | 0 <= i < |m.caps|
      ensures m.caps[i] in Moved(loc, m.caps, ToMessage(o, n), |m.caps|)
      ensures Moved(loc, m.caps, ToMessage(o, n), |m.caps|)[m.caps[i]] == InMessage(o, n, i)
    {
      MovedTo(loc, m.caps, ToMessage(o, n), |m.caps|, i);
    }
  }

  // A capability that loc does not know yet gets a place.
  lemma {:induction false} PlaceKeeps(k: Kernel, loc: Whereabouts, c: Ref, place: Place)
    requires Inv(k, loc) && c !in loc && c.n < k.nextRef
    ensures Inv(k, loc[c := place])
  {
    var loc' := loc[c := place];
    forall p, id | p in k.tables && id in k.tables[p].entries
      ensures EntryOk(k, loc', p, id) { EntryAt(k, loc, p, id); }
    forall o | o in k.queues ensures QueueOk(k.caps, loc', o, k.queues[o]) {
      QueueAt(k, loc, o);
      forall j | 0 <= j < |k.queues[o].pending|
        ensures MessageOk(k.caps, loc', o, k.queues[o].popped + j, k.queues[o].pending[j]) {
        assert MessageOk(k.caps, loc, o, k.queues[o].popped + j, k.queues[o].pending[j]);
      }
    }
  }

  lemma {:induction false} DeliverKeeps(k: Kernel, loc: Whereabouts, p: Pid, o: Obj, bytes: nat, ids: seq<Id>,
                                        reply: Option<Ref>) returns (loc': Whereabouts)
    requires Inv(k, loc) && p in k.tables && (reply.Some? ==> reply.value in k.caps && reply.value !in loc)
    ensures Inv(Deliver(k, p, o, bytes, ids, reply).k, loc')
  {
    loc' := loc;
    if bytes <= 0x1000 {
      TakeTakes(k.tables[p], k.caps, ids, |ids|);
      var t := Take(k.tables[p], k.caps, ids, |ids|);
      DropKeeps(k, loc, p, t.table);
      var k' := k.(tables := k.tables[p := t.table]);
      if t.error == None {
        TakenUnheld(k, loc, p, ids, t.table, t.refs);
        TakenDistinct(k, loc, p, ids, t.refs);
        loc' := SentKeeps(k', loc, o, Message(bytes, t.refs, reply));
      }
    }
  }

  // Capabilities that nobody holds go with a message, and with them a reply port that has no place yet.
  lemma {:induction false} SentKeeps(k: Kernel, loc: Whereabouts, o: Obj, m: Message) returns (loc': Whereabouts)
    requires Inv(k, loc) && Distinct(m.caps)
    requires forall i :: 0 <= i < |m.caps| ==> Unheld(k, loc, m.caps[i]) && m.caps[i] in loc && m.caps[i] in k.caps
    requires m.reply.Some? ==> m.reply.value in k.caps && m.reply.value !in loc
    ensures Inv(Push(k, o, m).k, loc')
  {
    var n := QueueOf(k, o).popped + |QueueOf(k, o).pending|;
    MoveKeeps(k, loc, m.caps, ToMessage(o, n));
    loc' := Moved(loc, m.caps, ToMessage(o, n), |m.caps|);
    SentMessageOk(k.caps, loc, o, n, m);
    if m.reply.Some? {
      MovedAt(loc, m.caps, ToMessage(o, n), |m.caps|, m.reply.value);
      assert m.caps[..|m.caps|] == m.caps;
      PlaceKeeps(k, loc', m.reply.value, AsReply(o, n));
      loc' := loc'[m.reply.value := AsReply(o, n)];
    }
    PushKeeps(k, loc', o, m);
  }

  lemma {:induction false} SendKeeps(k: Kernel, loc: Whereabouts, p: Pid, call: Call, id: Id, bytes: nat, ids: seq<Id>)
    returns (loc': Whereabouts)
    requires Inv(k, loc)
    ensures Inv(Send(k, p, call, id, bytes, ids).k, loc')
  {
    loc' := loc;
    var c := Lookup(k, p, id);
    if c.Some? { loc' := DeliverKeeps(k, loc, p, Target(k, CapOf(k, c.value).obj), bytes, ids, None); }
    if Send(k, p, call, id, bytes, ids).k == k { loc' := loc; }
  }

  // The other end of a reply port, not yet anywhere.
  lemma {:induction false} NewEndKeeps(k: Kernel, loc: Whereabouts, cap: Cap)
    requires Inv(k, loc)
    ensures Inv(WithEnd(k, cap), loc) && Ref(k.nextRef) !in loc
  {
    var k' := WithEnd(k, cap);
    forall p, id | p in k'.tables && id in k'.tables[p].entries
      ensures EntryOk(k', loc, p, id) { EntryAt(k, loc, p, id); }
    forall o | o in k'.queues ensures QueueOk(k'.caps, loc, o, k'.queues[o]) {
      QueueAt(k, loc, o);
      forall j | 0 <= j < |k.queues[o].pending|
        ensures MessageOk(k'.caps, loc, o, k.queues[o].popped + j, k.queues[o].pending[j]) {
        assert MessageOk(k.caps, loc, o, k.queues[o].popped + j, k.queues[o].pending[j]);
      }
    }
  }

  lemma {:induction false} EndpointSendKeeps(k: Kernel, loc: Whereabouts, p: Pid, id: Id, bytes: nat, ids: seq<Id>)
    returns (loc': Whereabouts)
    requires Inv(k, loc)
    ensures Inv(EndpointSend(k, p, id, bytes, ids).k, loc')
  {
    loc' := loc;
    var o := RequestIs(k, p, id, bytes, ids);
    if o.Some? { loc' := RequestKeeps(k, loc, p, o.value, bytes, ids); }
  }

  // A request changes nothing, or is the delivery of a message with a fresh reply port.
  lemma {:induction false} RequestIs(k: Kernel, p: Pid, id: Id, bytes: nat, ids: seq<Id>) returns (o: Option<Obj>)
    ensures EndpointSend(k, p, id, bytes, ids).k ==
            if o == None then k
            else Deliver(WithReplyPort(k, p), p, o.value, bytes, ids, Some(Ref(k.nextRef + 1))).k
  {
    var c := Lookup(k, p, id);
    if Validate(k, c, c.Some? && KindOf(k, CapOf(k, c.value).obj) == Endpoint, WRITE) == None {
      o := Some(CapOf(k, c.value).obj);
    } else {
      o := None;
    }
  }

  lemma {:induction false} RequestKeeps(k: Kernel, loc: Whereabouts, p: Pid, o: Obj, bytes: nat, ids: seq<Id>)
    returns (loc': Whereabouts)
    requires Inv(k, loc)
    ensures Inv(Deliver(WithReplyPort(k, p), p, o, bytes, ids, Some(Ref(k.nextRef + 1))).k, loc')
  {
    var loc1 := ReplyPortKeeps(k, loc, p);
    loc' := DeliverKeeps(WithReplyPort(k, p), loc1, p, o, bytes, ids, Some(Ref(k.nextRef + 1)));
  }

  lemma {:induction false} ReplyPortKeeps(k: Kernel, loc: Whereabouts, p: Pid) returns (loc': Whereabouts)
    requires Inv(k, loc)
    ensures Inv(WithReplyPort(k, p), loc') && p in WithReplyPort(k, p).tables
    ensures Ref(k.nextRef + 1) in WithReplyPort(k, p).caps && Ref(k.nextRef + 1) !in loc'
  {
    loc' := CreateKeeps(k, loc, p, ReplyPort, READ);
    NewEndKeeps(Create(k, p, ReplyPort, READ), loc', Cap(Obj(k.nextObj), WRITE | TRANSMIT));
  }

  // Filing capabilities under the next ids of a table, when loc already puts them there.
  lemma {:induction false} AddAllKeeps(k: Kernel, loc: Whereabouts, p: Pid, t: Table, refs: seq<Ref>, n: nat)
    requires n <= |refs| && t == TableOf(k, p)
    requires Inv(k, loc) && forall i :: 0 <= i < |refs| ==> RefAt(k.caps, loc, refs[i], InTable(p, Id(t.next + i)))
    ensures AddedAll(t, refs, n).next == t.next + n && Inv(k.(tables := k.tables[p := AddedAll(t, refs, n)]), loc)
  {
    if n == 0 {
      DropKeeps(k, loc, p, t);
    } else {
      AddAllKeeps(k, loc, p, t, refs, n - 1);
      AddOneKeeps(k.(tables := k.tables[p := AddedAll(t, refs, n - 1)]), loc, p, refs[n - 1]);
      assert k.tables[p := AddedAll(t, refs, n - 1)][p := AddedAll(t, refs, n)] == k.tables[p := AddedAll(t, refs, n)];
    }
  }

  lemma {:induction false} AddOneKeeps(k: Kernel, loc: Whereabouts, p: Pid, c: Ref)
    requires Inv(k, loc) && RefAt(k.caps, loc, c, InTable(p, Id(TableOf(k, p).next)))
    ensures Inv(k.(tables := k.tables[p := Added(TableOf(k, p), c)]), loc)
  {
    var k' := k.(tables := k.tables[p := Added(TableOf(k, p), c)]);
    forall p', id | p' in k'.tables && id in k'.tables[p'].entries ensures EntryOk(k', loc, p', id) {
      if p' != p || id != Id(TableOf(k, p).next) { EntryAt(k, loc, p', id); }
    }
    forall o | o in k'.queues ensures QueueOk(k'.caps, loc, o, k'.queues[o]) { QueueAt(k, loc, o); }
  }

  // The front message leaves its queue; what it carried is held by nobody.
  lemma {:induction false} PopKeeps(k: Kernel, loc: Whereabouts, o: Obj)
    requires Inv(k, loc) && o in k.queues && k.queues[o].pending != []
    ensures var q := k.queues[o];
            var k' := k.(queues := k.queues[o := Queue(q.popped + 1, q.pending[1..])]);
            && Inv(k', loc) && MessageOk(k.caps, loc, o, q.popped, q.pending[0])
            && (forall i :: 0 <= i < |q.pending[0].caps| ==> Unheld(k', loc, q.pending[0].caps[i]))
            && (q.pending[0].reply.Some? ==> Unheld(k', loc, q.pending[0].reply.value))
  {
    var q := k.queues[o];
    QueueAt(k, loc, o);
    assert MessageOk(k.caps, loc, o, q.popped + 0, q.pending[0]);
    var q' := Queue(q.popped + 1, q.pending[1..]);
    forall j | 0 <= j < |q'.pending| ensures MessageOk(k.caps, loc, o, q'.popped + j, q'.pending[j]) {
      assert MessageOk(k.caps, loc, o, q.popped + (j + 1), q.pending[j + 1]);
    }
    SetQueueKeeps(k, loc, o, q');
  }

  // The capabilities a received message brings, in the order they are filed.
  function Brought(k: Kernel, o: Obj, m: Message): seq<Ref> {
    if KindOf(k, o) == Endpoint && m.reply.Some? then m.caps + [m.reply.value] else m.caps
  }

  lemma {:induction false} BroughtDistinct(k: Kernel, loc: Whereabouts, o: Obj, n: nat, m: Message)
    requires MessageOk(k.caps, loc, o, n, m)
    ensures Distinct(Brought(k, o, m))
  {
    var refs := Brought(k, o, m);
    forall i, j | 0 <= i < j < |refs| ensures refs[i] != refs[j] {
      assert RefAt(k.caps, loc, refs[i], InMessage(o, n, i));
      if j < |m.caps| { assert RefAt(k.caps, loc, refs[j], InMessage(o, n, j)); }
    }
  }

  lemma {:induction false} AddedAllPrefix(t: Table, refs: seq<Ref>, more: seq<Ref>, n: nat)
    requires n <= |refs|
    ensures AddedAll(t, refs + more, n) == AddedAll(t, refs, n)
  {
    if n > 0 { AddedAllPrefix(t, refs, more, n - 1); }
  }

  // Filing capabilities that nobody holds.
  lemma {:induction false} FileKeeps(k: Kernel, loc: Whereabouts, p: Pid, refs: seq<Ref>) returns (loc': Whereabouts)
    requires Inv(k, loc) && Distinct(refs) && forall i :: 0 <= i < |refs| ==> Unheld(k, loc, refs[i])
    ensures Inv(k.(tables := k.tables[p := AddedAll(TableOf(k, p), refs, |refs|)]), loc')
  {
    var t := TableOf(k, p);
    MoveKeeps(k, loc, refs, ToTable(p, t.next));
    loc' := Moved(loc, refs, ToTable(p, t.next), |refs|);
    forall i | 0 <= i < |refs| ensures RefAt(k.caps, loc', refs[i], InTable(p, Id(t.next + i))) {
      MovedTo(loc, refs, ToTable(p, t.next), |refs|, i);
    }
    AddAllKeeps(k, loc', p, t, refs, |refs|);
  }

  lemma {:induction false} ReceiveKeeps(k: Kernel, loc: Whereabouts, p: Pid, o: Obj, bytes: nat, room: nat)
    returns (loc': Whereabouts)
    requires Inv(k, loc)
    ensures Inv(Receive(k, p, o, bytes, room).k, loc')
  {
    loc' := loc;
    var q := QueueOf(k, o);
    if Receive(k, p, o, bytes, room).k != k && q.pending != [] {
      var m := q.pending[0];
      PopKeeps(k, loc, o);
      BroughtDistinct(k, loc, o, q.popped, m);
      var k' := k.(queues := k.queues[o := Queue(q.popped + 1, q.pending[1..])]);
      loc' := FileKeeps(k', loc, p, Brought(k, o, m));
      if m.reply.Some? { AddedAllPrefix(TableOf(k, p), m.caps, [m.reply.value], |m.caps|); }
    }
  }

  lemma {:induction false} RecvKeeps(k: Kernel, loc: Whereabouts, p: Pid, call: Call, id: Id, bytes: nat, room: nat)
    returns (loc': Whereabouts)
    requires Inv(k, loc)
    ensures Inv(Recv(k, p, call, id, bytes, room).k, loc')
  {
    loc' := loc;
    var c := Lookup(k, p, id);
    if c.Some? { loc' := ReceiveKeeps(k, loc, p, CapOf(k, c.value).obj, bytes, room); }
    if Recv(k, p, call, id, bytes, room).k == k { loc' := loc; }
  }

  lemma {:induction false} ReleaseKeeps(k: Kernel, loc: Whereabouts, p: Pid, id: Id)
    requires Inv(k, loc)
    ensures Inv(CapRelease(k, p, id).k, loc)
    ensures Lookup(k, p, id).Some? ==> Unheld(CapRelease(k, p, id).k, loc, Lookup(k, p, id).value)
  {
    if Lookup(k, p, id).Some? {
      EntryAt(k, loc, p, id);
      DropKeeps(k, loc, p, TableOf(k, p).(entries := TableOf(k, p).entries - {id}));
    }
  }

  // A capability goes from one table to another.
  lemma {:induction false} HandOverKeeps(k: Kernel, loc: Whereabouts, p: Pid, id: Id, child: Pid)
    returns (loc': Whereabouts)
    requires Inv(k, loc)
    ensures Inv(HandOver(k, p, id, child).k, loc')
  {
    loc' := loc;
    if HandOver(k, p, id, child).error == None {
      ReleaseKeeps(k, loc, p, id);
      var k', c := CapRelease(k, p, id).k, Lookup(k, p, id).value;
      loc' := FileKeeps(k', loc, child, [c]);
      assert AddedAll(TableOf(k', child), [c], 1) == Added(AddedAll(TableOf(k', child), [c], 0), c);
    }
  }

  lemma {:induction false} SpawnKeeps(k: Kernel, loc: Whereabouts, p: Pid, id: Id, child: Pid, perms: bv64,
                                      spacePerms: bv64, bootstrap: Option<Id>)
    returns (loc': Whereabouts)
    requires Inv(k, loc)
    ensures Inv(ProcessSpawn(k, p, id, child, perms, spacePerms, bootstrap).k, loc')
  {
    var loc1 := CreateKeeps(k, loc, p, Process(child), perms);
    var k1 := Create(k, p, Process(child), perms);
    loc' := CreateKeeps(k1, loc1, p, Other, spacePerms);
    if bootstrap.Some? { loc' := HandOverKeeps(Create(k1, p, Other, spacePerms), loc', p, bootstrap.value, child); }
    if ProcessSpawn(k, p, id, child, perms, spacePerms, bootstrap).k == k { loc' := loc; }
  }

  lemma {:induction false} DuplicateKeeps(k: Kernel, loc: Whereabouts, p: Pid, id: Id, mask: bv64)
    returns (loc': Whereabouts)
    requires Inv(k, loc)
    ensures Inv(CapDuplicate(k, p, id, mask).k, loc')
  {
    loc' := loc;
    if CapDuplicate(k, p, id, mask).error == None {
      var cap := CapOf(k, Lookup(k, p, id).value);
      loc' := NewCapKeeps(k, loc, p, cap.obj, cap.perms & mask);
    }
  }

  // ----- Whole runs -----

  datatype Op =
    | CreateObject(p: Pid, kind: Kind, perms: bv64)
    | Duplicate(p: Pid, id: Id, mask: bv64)
    | Release(p: Pid, id: Id)
    | SendMessage(p: Pid, call: Call, id: Id, bytes: nat, ids: seq<Id>)
    | SendRequest(p: Pid, id: Id, bytes: nat, ids: seq<Id>)
    | ReceiveMessage(p: Pid, call: Call, id: Id, bytes: nat, room: nat)
    | Spawn(p: Pid, id: Id, child: Pid, perms: bv64, spacePerms: bv64, bootstrap: Option<Id>)
    | Exit(p: Pid)

  function Step(k: Kernel, op: Op): Kernel {
    match op
    case CreateObject(p, kind, perms) => Create(k, p, kind, perms)
    case Duplicate(p, id, mask) => CapDuplicate(k, p, id, mask).k
    case Release(p, id) => CapRelease(k, p, id).k
    case SendMessage(p, call, id, bytes, ids) => Send(k, p, call, id, bytes, ids).k
    case SendRequest(p, id, bytes, ids) => EndpointSend(k, p, id, bytes, ids).k
    case ReceiveMessage(p, call, id, bytes, room) => Recv(k, p, call, id, bytes, room).k
    case Spawn(p, id, child, perms, spacePerms, bootstrap) =>
      ProcessSpawn(k, p, id, child, perms, spacePerms, bootstrap).k
    case Exit(p) => ReleaseAll(k, p)
  }

  function Run(k: Kernel, ops: seq<Op>): Kernel {
    if ops == [] then k else Step(Run(k, ops[..|ops| - 1]), ops[|ops| - 1])
  }

  lemma {:induction false} StepKeeps(k: Kernel, loc: Whereabouts, op: Op) returns (loc': Whereabouts)
    requires Inv(k, loc)
    ensures Inv(Step(k, op), loc')
  {
    loc' := loc;
    match op
    case CreateObject(p, kind, perms) => loc' := CreateKeeps(k, loc, p, kind, perms);
    case Duplicate(p, id, mask) => loc' := DuplicateKeeps(k, loc, p, id, mask);
    case Release(p, id) => ReleaseKeeps(k, loc, p, id);
    case SendMessage(p, call, id, bytes, ids) => loc' := SendKeeps(k, loc, p, call, id, bytes, ids);
    case SendRequest(p, id, bytes, ids) => loc' := EndpointSendKeeps(k, loc, p, id, bytes, ids);
    case ReceiveMessage(p, call, id, bytes, room) => loc' := RecvKeeps(k, loc, p, call, id, bytes, room);
    case Spawn(p, id, child, perms, spacePerms, bootstrap) =>
      loc' := SpawnKeeps(k, loc, p, id, child, perms, spacePerms, bootstrap);
    case Exit(p) => DropKeeps(k, loc, p, TableOf(k, p).(entries := map[]));
  }

  lemma {:induction false} RunKeeps(k: Kernel, loc: Whereabouts, ops: seq<Op>) returns (loc': Whereabouts)
    requires Inv(k, loc)
    ensures Inv(Run(k, ops), loc')
  {
    loc' := loc;
    if ops != [] {
      var loc1 := RunKeeps(k, loc, ops[..|ops| - 1]);
      loc' := StepKeeps(Run(k, ops[..|ops| - 1]), loc1, ops[|ops| - 1]);
    }
  }

  // ----- Linearity -----

  /** Capability c is held at the place: in a table entry, in a queued message, or as a queued message's reply port. */
  predicate HeldAt(k: Kernel, place: Place, c: Ref) {
    match place
    case InTable(p, id) => p in k.tables && id in k.tables[p].entries && k.tables[p].entries[id] == c
    case InMessage(o, number, i) =>
      && o in k.queues && 0 <= number - k.queues[o].popped < |k.queues[o].pending|
      && i < |k.queues[o].pending[number - k.queues[o].popped].caps|
      && k.queues[o].pending[number - k.queues[o].popped].caps[i] == c
    case AsReply(o, number) =>
      && o in k.queues && 0 <= number - k.queues[o].popped < |k.queues[o].pending|
      && k.queues[o].pending[number - k.queues[o].popped].reply == Some(c)
  }

  lemma {:induction false} HeldWhereSaid(k: Kernel, loc: Whereabouts, place: Place, c: Ref)
    requires Inv(k, loc) && HeldAt(k, place, c)
    ensures RefAt(k.caps, loc, c, place)
  {
    match place
    case InTable(p, id) => EntryAt(k, loc, p, id);
    case InMessage(o, number, i) =>
      QueueAt(k, loc, o);
      var q, j := k.queues[o], number - k.queues[o].popped;
      assert MessageOk(k.caps, loc, o, q.popped + j, q.pending[j]);
    case AsReply(o, number) =>
      QueueAt(k, loc, o);
      var q, j := k.queues[o], number - k.queues[o].popped;
      assert MessageOk(k.caps, loc, o, q.popped + j, q.pending[j]);
  }

  predicate Initial(k: Kernel) {
    k.tables == map[] && k.queues == map[] && k.caps == map[]
  }

  /** However system calls succeed or fail, no capability object is ever in two places. */
  lemma {:induction false} Linearity(k: Kernel, ops: seq<Op>, place: Place, place': Place, c: Ref)
    requires Initial(k) && HeldAt(Run(k, ops), place, c) && HeldAt(Run(k, ops), place', c)
    ensures place == place'
  {
    var loc := RunKeeps(k, map[], ops);
    HeldWhereSaid(Run(k, ops), loc, place, c);
    HeldWhereSaid(Run(k, ops), loc, place', c);
  }

  // ----- Permissions -----

  /** A copy of src that adds no permission; src may be copied. */
  ghost predicate CopyOf(cap: Cap, src: Cap) {
    cap.obj == src.obj && cap.perms & src.perms == cap.perms && HasPermissions(src.perms, DUPLICATE)
  }

  // The capability is to an object made since k, or copied from one there was in k.
  ghost predicate Justified(k: Kernel, cap: Cap) {
    cap.obj.n >= k.nextObj || exists c {:trigger k.caps[c]} :: c in k.caps && CopyOf(cap, k.caps[c])
  }

  ghost predicate Grows(k: Kernel, k': Kernel) {
    && k.nextObj <= k'.nextObj
    && (forall c :: c in k.caps ==> c in k'.caps && k'.caps[c] == k.caps[c])
    && (forall c {:trigger c in k'.caps} :: c in k'.caps ==> c in k.caps || Justified(k, k'.caps[c]))
  }

  lemma {:induction false} CopyOfCopy(a: Cap, b: Cap, c: Cap)
    requires CopyOf(a, b) && CopyOf(b, c)
    ensures CopyOf(a, c)
  {
  }

  lemma {:induction false} GrowsOn(k: Kernel, k1: Kernel, k2: Kernel)
    requires Grows(k, k1) && Grows(k1, k2)
    ensures Grows(k, k2)
  {
    forall c | c in k2.caps && c !in k.caps ensures Justified(k, k2.caps[c]) {
      if c !in k1.caps && k2.caps[c].obj.n < k1.nextObj {
        var c1 :| c1 in k1.caps && CopyOf(k2.caps[c], k1.caps[c1]);
        if c1 in k.caps {
          assert CopyOf(k2.caps[c], k.caps[c1]);
        } else if k1.caps[c1].obj.n < k.nextObj {
          var c0 :| c0 in k.caps && CopyOf(k1.caps[c1], k.caps[c0]);
          CopyOfCopy(k2.caps[c], k1.caps[c1], k.caps[c0]);
        }
      }
    }
  }

  lemma {:induction false} CreateGrows(k: Kernel, loc: Whereabouts, p: Pid, kind: Kind, perms: bv64)
    requires Inv(k, loc)
    ensures Grows(k, Create(k, p, kind, perms))
  {
  }

  lemma {:induction false} CopyGrows(k: Kernel, p: Pid, cap: Cap)
    requires Ref(k.nextRef) !in k.caps && Justified(k, cap)
    ensures Grows(k, NewCap(k, p, cap.obj, cap.perms))
  {
  }

  lemma {:induction false} LookupKnown(k: Kernel, loc: Whereabouts, p: Pid, id: Id)
    requires Inv(k, loc) && Lookup(k, p, id).Some?
    ensures Lookup(k, p, id).value in k.caps && Ref(k.nextRef) !in k.caps
  {
    EntryAt(k, loc, p, id);
  }

  lemma {:induction false} MaskedCopy(cap: Cap, mask: bv64)
    requires cap.perms & DUPLICATE != 0
    ensures CopyOf(Cap(cap.obj, cap.perms & mask), cap)
  {
  }

  lemma {:induction false} DuplicateJustified(k: Kernel, p: Pid, id: Id, mask: bv64) returns (cap: Cap)
    requires CapDuplicate(k, p, id, mask).error == None && Lookup(k, p, id).value in k.caps
    ensures Justified(k, cap) && CapDuplicate(k, p, id, mask).k == NewCap(k, p, cap.obj, cap.perms)
  {
    var c := Lookup(k, p, id).value;
    var src := k.caps[c];
    MaskedCopy(src, mask);
    cap := Cap(src.obj, src.perms & mask);
    assert CapDuplicate(k, p, id, mask).k == NewCap(k, p, cap.obj, cap.perms);
    assert CopyOf(cap, k.caps[c]);
  }

  lemma {:induction false} DuplicateGrows(k: Kernel, loc: Whereabouts, p: Pid, id: Id, mask: bv64)
    requires Inv(k, loc) && CapDuplicate(k, p, id, mask).error == None
    ensures Grows(k, CapDuplicate(k, p, id, mask).k)
  {
    LookupKnown(k, loc, p, id);
    var cap := DuplicateJustified(k, p, id, mask);
    CopyGrows(k, p, cap);
  }

  lemma {:induction false} ReplyPortGrows(k: Kernel, loc: Whereabouts, p: Pid)
    requires Inv(k, loc)
    ensures Grows(k, WithReplyPort(k, p))
  {
  }

  lemma {:induction false} DeliverSame(k: Kernel, p: Pid, o: Obj, bytes: nat, ids: seq<Id>, reply: Option<Ref>)
    ensures Deliver(k, p, o, bytes, ids, reply).k.caps == k.caps
            && Deliver(k, p, o, bytes, ids, reply).k.nextObj == k.nextObj
  {
  }

  lemma {:induction false} SpawnGrows(k: Kernel, loc: Whereabouts, p: Pid, id: Id, child: Pid, perms: bv64,
                                      spacePerms: bv64, bootstrap: Option<Id>)
    requires Inv(k, loc)
    ensures Grows(k, ProcessSpawn(k, p, id, child, perms, spacePerms, bootstrap).k)
  {
    var k1 := Create(k, p, Process(child), perms);
    CreateGrows(k, loc, p, Process(child), perms);
    var loc1 := CreateKeeps(k, loc, p, Process(child), perms);
    CreateGrows(k1, loc1, p, Other, spacePerms);
    GrowsOn(k, k1, Create(k1, p, Other, spacePerms));
  }

  lemma {:induction false} SameGrows(k: Kernel, k': Kernel)
    requires k'.caps == k.caps && k'.nextObj == k.nextObj
    ensures Grows(k, k')
  {
  }

  lemma {:induction false} SendRequestGrows(k: Kernel, loc: Whereabouts, p: Pid, id: Id, bytes: nat, ids: seq<Id>)
    requires Inv(k, loc)
    ensures Grows(k, EndpointSend(k, p, id, bytes, ids).k)
  {
    var k', c := EndpointSend(k, p, id, bytes, ids).k, Lookup(k, p, id);
    if k' == k {
      SameGrows(k, k);
    } else {
      ReplyPortGrows(k, loc, p);
      DeliverSame(WithReplyPort(k, p), p, CapOf(k, c.value).obj, bytes, ids, Some(Ref(k.nextRef + 1)));
      SameGrows(WithReplyPort(k, p), k');
      GrowsOn(k, WithReplyPort(k, p), k');
    }
  }

  lemma {:induction false} StepGrows(k: Kernel, loc: Whereabouts, op: Op)
    requires Inv(k, loc)
    ensures Grows(k, Step(k, op))
  {
    match op
    case CreateObject(p, kind, perms) => CreateGrows(k, loc, p, kind, perms);
    case Duplicate(p, id, mask) =>
      if CapDuplicate(k, p, id, mask).error == None { DuplicateGrows(k, loc, p, id, mask); } else { SameGrows(k, k); }
    case SendRequest(p, id, bytes, ids) => SendRequestGrows(k, loc, p, id, bytes, ids);
    case Spawn(p, id, child, perms, spacePerms, bootstrap) =>
      SpawnGrows(k, loc, p, id, child, perms, spacePerms, bootstrap);
    case _ =>
      CallsCreateNothing(k, op);
      SameGrows(k, Step(k, op));
  }

  lemma {:induction false} CallsCreateNothing(k: Kernel, op: Op)
    requires op.Release? || op.SendMessage? || op.ReceiveMessage? || op.Exit?
    ensures Step(k, op).caps == k.caps && Step(k, op).nextObj == k.nextObj
  {
    match op
    case SendMessage(p, call, id, bytes, ids) =>
      if Lookup(k, p, id).Some? { DeliverSame(k, p, Target(k, CapOf(k, Lookup(k, p, id).value).obj), bytes, ids,
                                              None); }
    case _ =>
  }

  lemma {:induction false} RunGrows(k: Kernel, loc: Whereabouts, ops: seq<Op>)
    requires Inv(k, loc)
    ensures Grows(k, Run(k, ops))
  {
    if ops != [] {
      var before := ops[..|ops| - 1];
      RunGrows(k, loc, before);
      var loc' := RunKeeps(k, loc, before);
      StepGrows(Run(k, before), loc', ops[|ops| - 1]);
      GrowsOn(k, Run(k, before), Run(k, ops));
    }
  }

  /**
   * Whatever calls are made, a capability there was keeps its object and permissions, and any other
   * to an object of the start has no more permissions than one that was there and could be duplicated.
   */
  lemma {:induction false} NoAmplification(k: Kernel, loc: Whereabouts, ops: seq<Op>, c: Ref)
    requires Inv(k, loc)
    ensures c in k.caps ==> c in Run(k, ops).caps && Run(k, ops).caps[c] == k.caps[c]
    ensures c !in k.caps && c in Run(k, ops).caps && Run(k, ops).caps[c].obj.n < k.nextObj ==>
            exists c0 :: c0 in k.caps && CopyOf(Run(k, ops).caps[c], k.caps[c0])
  {
    RunGrows(k, loc, ops);
  }

  // ----- Ids -----

  /** An id given out before names what it named, or nothing. */
  ghost predicate NoReuse(t: Table, t': Table) {
    t.next <= t'.next && forall id :: id in t'.entries && id.n < t.next ==>
                                        id in t.entries && t'.entries[id] == t.entries[id]
  }

  lemma {:induction false} AddedAllNoReuse(t: Table, refs: seq<Ref>, n: nat)
    requires n <= |refs|
    ensures NoReuse(t, AddedAll(t, refs, n))
  {
    if n > 0 { AddedAllNoReuse(t, refs, n - 1); }
  }

  lemma {:induction false} DeliverNoReuse(k: Kernel, p: Pid, o: Obj, bytes: nat, ids: seq<Id>, reply: Option<Ref>,
                                          p': Pid)
    ensures NoReuse(TableOf(k, p'), TableOf(Deliver(k, p, o, bytes, ids, reply).k, p'))
  {
    DeliverTables(k, p, o, bytes, ids, reply);
    TakeNoReuse(TableOf(k, p), k.caps, ids);
  }

  lemma {:induction false} DeliverTables(k: Kernel, p: Pid, o: Obj, bytes: nat, ids: seq<Id>, reply: Option<Ref>)
    ensures Deliver(k, p, o, bytes, ids, reply).k.tables ==
            if bytes > 0x1000 then k.tables else k.tables[p := Take(TableOf(k, p), k.caps, ids, |ids|).table]
  {
  }

  lemma {:induction false} TakeNoReuse(t: Table, caps: map<Ref, Cap>, ids: seq<Id>)
    ensures NoReuse(t, Take(t, caps, ids, |ids|).table)
  {
    TakeTakes(t, caps, ids, |ids|);
  }

  lemma {:induction false} ReceiveNoReuse(k: Kernel, p: Pid, o: Obj, bytes: nat, room: nat, p': Pid)
    ensures NoReuse(TableOf(k, p'), TableOf(Receive(k, p, o, bytes, room).k, p'))
  {
    var q := QueueOf(k, o);
    if q.pending != [] { AddedAllNoReuse(TableOf(k, p), q.pending[0].caps, |q.pending[0].caps|); }
  }

  lemma {:induction false} NoReuseOn(t: Table, t1: Table, t2: Table)
    requires NoReuse(t, t1) && NoReuse(t1, t2)
    ensures NoReuse(t, t2)
  {
  }

  lemma {:induction false} CreateNoReuse(k: Kernel, p: Pid, kind: Kind, perms: bv64, p': Pid)
    ensures NoReuse(TableOf(k, p'), TableOf(Create(k, p, kind, perms), p'))
  {
  }

  lemma {:induction false} HandOverNoReuse(k: Kernel, p: Pid, id: Id, child: Pid, p': Pid)
    ensures NoReuse(TableOf(k, p'), TableOf(HandOver(k, p, id, child).k, p'))
  {
  }

  lemma {:induction false} SpawnNoReuse(k: Kernel, p: Pid, id: Id, child: Pid, perms: bv64, spacePerms: bv64,
                                        bootstrap: Option<Id>, p': Pid)
    ensures NoReuse(TableOf(k, p'), TableOf(ProcessSpawn(k, p, id, child, perms, spacePerms, bootstrap).k, p'))
  {
    var k1 := Create(k, p, Process(child), perms);
    var k2 := Create(k1, p, Other, spacePerms);
    CreateNoReuse(k, p, Process(child), perms, p');
    CreateNoReuse(k1, p, Other, spacePerms, p');
    NoReuseOn(TableOf(k, p'), TableOf(k1, p'), TableOf(k2, p'));
    if bootstrap.Some? {
      HandOverNoReuse(k2, p, bootstrap.value, child, p');
      NoReuseOn(TableOf(k, p'), TableOf(k2, p'), TableOf(HandOver(k2, p, bootstrap.value, child).k, p'));
    }
  }

  lemma {:induction false} SendRequestNoReuse(k: Kernel, p: Pid, id: Id, bytes: nat, ids: seq<Id>, p': Pid)
    ensures NoReuse(TableOf(k, p'), TableOf(EndpointSend(k, p, id, bytes, ids).k, p'))
  {
    var o := RequestIs(k, p, id, bytes, ids);
    if o.Some? {
      CreateNoReuse(k, p, ReplyPort, READ, p');
      assert TableOf(WithReplyPort(k, p), p') == TableOf(Create(k, p, ReplyPort, READ), p');
      DeliverNoReuse(WithReplyPort(k, p), p, o.value, bytes, ids, Some(Ref(k.nextRef + 1)), p');
    }
  }

  lemma {:induction false} SendNoReuse(k: Kernel, p: Pid, call: Call, id: Id, bytes: nat, ids: seq<Id>, p': Pid)
    ensures NoReuse(TableOf(k, p'), TableOf(Send(k, p, call, id, bytes, ids).k, p'))
  {
    if Send(k, p, call, id, bytes, ids).k != k {
      DeliverNoReuse(k, p, Target(k, CapOf(k, Lookup(k, p, id).value).obj), bytes, ids, None, p');
    }
  }

  lemma {:induction false} RecvNoReuse(k: Kernel, p: Pid, call: Call, id: Id, bytes: nat, room: nat, p': Pid)
    ensures NoReuse(TableOf(k, p'), TableOf(Recv(k, p, call, id, bytes, room).k, p'))
  {
    if Recv(k, p, call, id, bytes, room).k != k {
      ReceiveNoReuse(k, p, CapOf(k, Lookup(k, p, id).value).obj, bytes, room, p');
    }
  }

  lemma {:induction false} StepNoReuse(k: Kernel, op: Op, p': Pid)
    ensures NoReuse(TableOf(k, p'), TableOf(Step(k, op), p'))
  {
    match op
    case CreateObject(p, kind, perms) => CreateNoReuse(k, p, kind, perms, p');
    case SendMessage(p, call, id, bytes, ids) => SendNoReuse(k, p, call, id, bytes, ids, p');
    case SendRequest(p, id, bytes, ids) => SendRequestNoReuse(k, p, id, bytes, ids, p');
    case ReceiveMessage(p, call, id, bytes, room) => RecvNoReuse(k, p, call, id, bytes, room, p');
    case Spawn(p, id, child, perms, spacePerms, bootstrap) =>
      SpawnNoReuse(k, p, id, child, perms, spacePerms, bootstrap, p');
    case _ => TableNoReuse(k, op, p');
  }

  lemma {:induction false} TableNoReuse(k: Kernel, op: Op, p': Pid)
    requires op.Duplicate? || op.Release? || op.Exit?
    ensures NoReuse(TableOf(k, p'), TableOf(Step(k, op), p'))
  {
  }

  /** An id of a process names one capability until it is lost, and never another. */
  lemma {:induction false} IdsNotReused(k: Kernel, ops: seq<Op>, p: Pid)
    ensures NoReuse(TableOf(k, p), TableOf(Run(k, ops), p))
  {
    if ops != [] {
      IdsNotReused(k, ops[..|ops| - 1], p);
      StepNoReuse(Run(k, ops[..|ops| - 1]), ops[|ops| - 1], p);
    }
  }

  // ----- Permissions of the calls -----

  /** The process may make the call on the object behind the id. */
  predicate Authorised(k: Kernel, p: Pid, call: Call, id: Id, perms: bv64) {
    var c := Lookup(k, p, id);
    c.Some? && Matches(call, KindOf(k, CapOf(k, c.value).obj)) && HasPermissions(CapOf(k, c.value).perms, perms)
  }

  /** A send succeeds exactly when authorised, small, with sendable capabilities, and to a port still open. */
  lemma {:induction false} SendExactly(k: Kernel, p: Pid, call: Call, id: Id, bytes: nat, ids: seq<Id>)
    requires call != OnEndpoint
    ensures Send(k, p, call, id, bytes, ids).error == None <==>
            && Authorised(k, p, call, id, WRITE) && bytes <= 0x1000 && Sendable(TableOf(k, p), k.caps, ids, |ids|)
            && var q := QueueOf(k, Target(k, CapOf(k, Lookup(k, p, id).value).obj));
               KindOf(k, Target(k, CapOf(k, Lookup(k, p, id).value).obj)) == ReplyPort ==> q.popped + |q.pending| == 0
  {
    TakeTakes(TableOf(k, p), k.caps, ids, |ids|);
  }

  /** A receive can take the front message. */
  predicate Receivable(k: Kernel, p: Pid, call: Call, id: Id, bytes: nat, room: nat) {
    Authorised(k, p, call, id, READ)
    && var o := CapOf(k, Lookup(k, p, id).value).obj;
       var q := QueueOf(k, o);
       && q.pending != [] && q.pending[0].bytes <= bytes && |q.pending[0].caps| <= room
       && (KindOf(k, o) == ReplyPort ==> q.popped == 0)
  }

  // Added one after another, capabilities get consecutive ids and change no other.
  lemma {:induction false} AddedAllAt(t: Table, refs: seq<Ref>, n: nat)
    requires n <= |refs|
    ensures AddedAll(t, refs, n).next == t.next + n
    ensures forall i: nat :: i < n ==> Names(AddedAll(t, refs, n), Id(t.next + i), refs[i])
    ensures SameElsewhere(t, AddedAll(t, refs, n))
  {
    if n > 0 { AddedAllAt(t, refs, n - 1); }
  }

  predicate Names(t: Table, id: Id, c: Ref) { id in t.entries && t.entries[id] == c }

  // Ids below the next one of t name what they did.
  ghost predicate SameElsewhere(t: Table, t': Table) {
    forall id: Id, c: Ref :: id.n < t.next ==> (Names(t', id, c) <==> Names(t, id, c))
  }

  /**
   * A receive takes the front message of the queue exactly when it can; its capabilities then have
   * consecutive new ids, the reply capability the last one. Otherwise nothing changes.
   */
  lemma {:induction false} RecvExactly(k: Kernel, p: Pid, call: Call, id: Id, bytes: nat, room: nat)
    ensures !Receivable(k, p, call, id, bytes, room) ==> Recv(k, p, call, id, bytes, room).k == k
    ensures Receivable(k, p, call, id, bytes, room) ==>
            var k', o := Recv(k, p, call, id, bytes, room).k, CapOf(k, Lookup(k, p, id).value).obj;
            var q, m, t, t' := QueueOf(k, o), QueueOf(k, o).pending[0], TableOf(k, p), TableOf(k', p);
            && QueueOf(k', o) == Queue(q.popped + 1, q.pending[1..])
            && (forall i: nat :: i < |m.caps| ==> Names(t', Id(t.next + i), m.caps[i]))
            && (KindOf(k, o) == Endpoint && m.reply.Some? ==> Names(t', Id(t.next + |m.caps|), m.reply.value))
            && SameElsewhere(t, t') && (forall p' :: p' != p ==> TableOf(k', p') == TableOf(k, p'))
  {
    if Receivable(k, p, call, id, bytes, room) {
      ReceiveExactly(k, p, CapOf(k, Lookup(k, p, id).value).obj, bytes, room);
    }
  }

  lemma {:induction false} ReceiveExactly(k: Kernel, p: Pid, o: Obj, bytes: nat, room: nat)
    requires QueueOf(k, o).pending != [] && QueueOf(k, o).pending[0].bytes <= bytes
             && |QueueOf(k, o).pending[0].caps| <= room && (KindOf(k, o) == ReplyPort ==> QueueOf(k, o).popped == 0)
    ensures var k', q, m := Receive(k, p, o, bytes, room).k, QueueOf(k, o), QueueOf(k, o).pending[0];
            var t, t' := TableOf(k, p), TableOf(k', p);
            && QueueOf(k', o) == Queue(q.popped + 1, q.pending[1..])
            && (forall i: nat :: i < |m.caps| ==> Names(t', Id(t.next + i), m.caps[i]))
            && (KindOf(k, o) == Endpoint && m.reply.Some? ==> Names(t', Id(t.next + |m.caps|), m.reply.value))
            && SameElsewhere(t, t') && (forall p' :: p' != p ==> TableOf(k', p') == TableOf(k, p'))
  {
    var m := QueueOf(k, o).pending[0];
    AddedAllAt(TableOf(k, p), m.caps, |m.caps|);
  }

  // ----- Capabilities that may not be sent -----

  lemma {:induction false} PushHeld(k: Kernel, o: Obj, m: Message, place: Place, c: Ref)
    requires c !in m.caps && m.reply != Some(c) && HeldAt(Push(k, o, m).k, place, c)
    ensures HeldAt(k, place, c)
  {
  }

  lemma {:induction false} DropHeld(k: Kernel, p: Pid, t: Table, place: Place, c: Ref)
    requires Fewer(t.entries, TableOf(k, p).entries) && HeldAt(k.(tables := k.tables[p := t]), place, c)
    ensures HeldAt(k, place, c)
  {
  }

  lemma {:induction false} TakenTransmit(t: Table, caps: map<Ref, Cap>, ids: seq<Id>, n: nat, c: Ref)
    requires n <= |ids| && !Transmits(caps, c)
    ensures c !in Take(t, caps, ids, n).refs && Fewer(Take(t, caps, ids, n).table.entries, t.entries)
  {
    TakeTakes(t, caps, ids, n);
    var r := Take(t, caps, ids, n);
    forall i | 0 <= i < |r.refs| ensures r.refs[i] != c { SendableEach(t, caps, ids, |r.refs|, i); }
  }

  lemma {:induction false} DeliverHeld(k: Kernel, p: Pid, o: Obj, bytes: nat, ids: seq<Id>, reply: Option<Ref>,
                                       place: Place, c: Ref)
    requires !Transmits(k.caps, c) && reply != Some(c) && HeldAt(Deliver(k, p, o, bytes, ids, reply).k, place, c)
    ensures HeldAt(k, place, c)
  {
    if bytes <= 0x1000 {
      TakenTransmit(TableOf(k, p), k.caps, ids, |ids|, c);
      var t := Take(TableOf(k, p), k.caps, ids, |ids|);
      var k' := k.(tables := k.tables[p := t.table]);
      if t.error == None { PushHeld(k', o, Message(bytes, t.refs, reply), place, c); }
      DropHeld(k, p, t.table, place, c);
    }
  }

  // What a process holds after a receive it held before, or it was in the message.
  lemma {:induction false} ReceiveHeld(k: Kernel, p: Pid, o: Obj, bytes: nat, room: nat, place: Place, c: Ref)
    requires HeldAt(Receive(k, p, o, bytes, room).k, place, c)
    ensures HeldAt(k, place, c) || HeldAt(k, AsReply(o, QueueOf(k, o).popped), c)
            || exists i: nat :: HeldAt(k, InMessage(o, QueueOf(k, o).popped, i), c)
  {
    var q := QueueOf(k, o);
    if q.pending != [] && place.InTable? && place.p == p && !HeldAt(k, place, c) {
      var caps := q.pending[0].caps;
      AddedAllFrom(TableOf(k, p), caps, |caps|, place.id);
      if c in caps {
        var i :| 0 <= i < |caps| && caps[i] == c;
        assert HeldAt(k, InMessage(o, q.popped, i), c);
      }
    }
  }

  lemma {:induction false} AddedAllFrom(t: Table, refs: seq<Ref>, n: nat, id: Id)
    requires n <= |refs|
    ensures id in AddedAll(t, refs, n).entries ==>
            (id in t.entries && AddedAll(t, refs, n).entries[id] == t.entries[id])
            || AddedAll(t, refs, n).entries[id] in refs
  {
    if n > 0 { AddedAllFrom(t, refs, n - 1, id); }
  }

  lemma {:induction false} CreateHeld(k: Kernel, p: Pid, kind: Kind, perms: bv64, place: Place, c: Ref)
    requires c != Ref(k.nextRef) && HeldAt(Create(k, p, kind, perms), place, c)
    ensures HeldAt(k, place, c)
  {
  }

  lemma {:induction false} HandOverHeld(k: Kernel, p: Pid, id: Id, child: Pid, place: Place, c: Ref)
    requires !HasPermissions(CapOf(k, c).perms, TRANSMIT) && HeldAt(HandOver(k, p, id, child).k, place, c)
    ensures HeldAt(k, place, c)
  {
  }

  lemma {:induction false} SpawnHeld(k: Kernel, p: Pid, id: Id, child: Pid, perms: bv64, spacePerms: bv64,
                                     bootstrap: Option<Id>, place: Place, c: Ref)
    requires c.n < k.nextRef && c in k.caps && !Transmits(k.caps, c)
    requires HeldAt(ProcessSpawn(k, p, id, child, perms, spacePerms, bootstrap).k, place, c)
    ensures HeldAt(k, place, c)
  {
    var k1 := Create(k, p, Process(child), perms);
    var k2 := Create(k1, p, Other, spacePerms);
    if ProcessSpawn(k, p, id, child, perms, spacePerms, bootstrap).k != k {
      if bootstrap.Some? { HandOverHeld(k2, p, bootstrap.value, child, place, c); }
      CreateHeld(k1, p, Other, spacePerms, place, c);
      CreateHeld(k, p, Process(child), perms, place, c);
    }
  }

  lemma {:induction false} SendRequestHeld(k: Kernel, p: Pid, id: Id, bytes: nat, ids: seq<Id>, place: Place, c: Ref)
    requires c.n < k.nextRef && c in k.caps && !Transmits(k.caps, c)
             && HeldAt(EndpointSend(k, p, id, bytes, ids).k, place, c)
    ensures HeldAt(k, place, c)
  {
    var o := RequestIs(k, p, id, bytes, ids);
    if o.Some? { RequestHeld(k, p, o.value, bytes, ids, place, c); }
  }

  lemma {:induction false} RequestHeld(k: Kernel, p: Pid, o: Obj, bytes: nat, ids: seq<Id>, place: Place, c: Ref)
    requires c.n < k.nextRef && c in k.caps && !Transmits(k.caps, c)
    requires HeldAt(Deliver(WithReplyPort(k, p), p, o, bytes, ids, Some(Ref(k.nextRef + 1))).k, place, c)
    ensures HeldAt(k, place, c)
  {
    ReplyPortKept(k, p, c);
    DeliverHeld(WithReplyPort(k, p), p, o, bytes, ids, Some(Ref(k.nextRef + 1)), place, c);
    EndHeld(Create(k, p, ReplyPort, READ), Cap(Obj(k.nextObj), WRITE | TRANSMIT), place, c);
    CreateHeld(k, p, ReplyPort, READ, place, c);
  }

  lemma {:induction false} EndHeld(k: Kernel, cap: Cap, place: Place, c: Ref)
    requires HeldAt(WithEnd(k, cap), place, c)
    ensures HeldAt(k, place, c)
  {
  }

  lemma {:induction false} ReplyPortKept(k: Kernel, p: Pid, c: Ref)
    requires c.n < k.nextRef && c in k.caps && !Transmits(k.caps, c)
    ensures !Transmits(WithReplyPort(k, p).caps, c)
  {
  }

  /** The capability is held in this entry, or nowhere. */
  ghost predicate OnlyAt(k: Kernel, c: Ref, home: Place) { forall place :: HeldAt(k, place, c) ==> place == home }

  /** Whatever calls are made, a capability that may not be transmitted stays in its entry or is dropped for good. */
  lemma {:induction false} StaysPut(k: Kernel, loc: Whereabouts, ops: seq<Op>, p: Pid, id: Id, c: Ref)
    requires Inv(k, loc) && HeldAt(k, InTable(p, id), c) && !Transmits(k.caps, c)
    ensures OnlyAt(Run(k, ops), c, InTable(p, id))
  {
    HeldWhereSaid(k, loc, InTable(p, id), c);
    if ops == [] {
      forall place | HeldAt(k, place, c) ensures place == InTable(p, id) { HeldWhereSaid(k, loc, place, c); }
    } else {
      var before, op := Run(k, ops[..|ops| - 1]), ops[|ops| - 1];
      StaysPut(k, loc, ops[..|ops| - 1], p, id, c);
      RunGrows(k, loc, ops[..|ops| - 1]);
      var loc' := RunKeeps(k, loc, ops[..|ops| - 1]);
      StepStaysPut(before, loc', op, InTable(p, id), c);
    }
  }

  lemma {:induction false} StepStaysPut(k: Kernel, loc: Whereabouts, op: Op, home: Place, c: Ref)
    requires Inv(k, loc) && c in k.caps && !Transmits(k.caps, c) && home.InTable? && OnlyAt(k, c, home)
    ensures OnlyAt(Step(k, op), c, home)
  {
    forall place | HeldAt(Step(k, op), place, c) ensures place == home { HeldBefore(k, loc, op, c, place, home); }
  }

  lemma {:induction false} SendHeld(k: Kernel, p: Pid, call: Call, id: Id, bytes: nat, ids: seq<Id>, place: Place,
                                    c: Ref)
    requires !Transmits(k.caps, c) && HeldAt(Send(k, p, call, id, bytes, ids).k, place, c)
    ensures HeldAt(k, place, c)
  {
    if Send(k, p, call, id, bytes, ids).k != k {
      DeliverHeld(k, p, Target(k, CapOf(k, Lookup(k, p, id).value).obj), bytes, ids, None, place, c);
    }
  }

  lemma {:induction false} RecvHeld(k: Kernel, p: Pid, call: Call, id: Id, bytes: nat, room: nat, c: Ref, place: Place,
                                    home: Place)
    requires home.InTable? && OnlyAt(k, c, home) && HeldAt(Recv(k, p, call, id, bytes, room).k, place, c)
    ensures HeldAt(k, place, c)
  {
    if Recv(k, p, call, id, bytes, room).k != k {
      ReceiveHeld(k, p, CapOf(k, Lookup(k, p, id).value).obj, bytes, room, place, c);
    }
  }

  lemma {:induction false} HeldBefore(k: Kernel, loc: Whereabouts, op: Op, c: Ref, place: Place, home: Place)
    requires Inv(k, loc) && c in k.caps && !Transmits(k.caps, c) && HeldAt(Step(k, op), place, c)
    requires home.InTable? && OnlyAt(k, c, home)
    ensures HeldAt(k, place, c)
  {
    match op
    case CreateObject(p, kind, perms) => CreateHeld(k, p, kind, perms, place, c);
    case SendMessage(p, call, id, bytes, ids) =>
      SendHeld(k, p, call, id, bytes, ids, place, c);
    case SendRequest(p, id, bytes, ids) => SendRequestHeld(k, p, id, bytes, ids, place, c);
    case ReceiveMessage(p, call, id, bytes, room) => RecvHeld(k, p, call, id, bytes, room, c, place, home);
    case Spawn(p, id, child, perms, spacePerms, bootstrap) =>
      SpawnHeld(k, p, id, child, perms, spacePerms, bootstrap, place, c);
    case Duplicate(p, id, mask) => DuplicateHeld(k, p, id, mask, place, c);
    case Release(p, id) => ReleaseHeld(k, p, id, place, c);
    case Exit(p) => DropHeld(k, p, TableOf(k, p).(entries := map[]), place, c);
  }

  lemma {:induction false} DuplicateHeld(k: Kernel, p: Pid, id: Id, mask: bv64, place: Place, c: Ref)
    requires c != Ref(k.nextRef) && HeldAt(CapDuplicate(k, p, id, mask).k, place, c)
    ensures HeldAt(k, place, c)
  {
  }

  lemma {:induction false} ReleaseHeld(k: Kernel, p: Pid, id: Id, place: Place, c: Ref)
    requires HeldAt(CapRelease(k, p, id).k, place, c)
    ensures HeldAt(k, place, c)
  {
  }

  // ----- The code -----

  ghost predicate IssuedOne(entries: map<Id, Ref>, next: nat, id: Id) { id in entries ==> id.n < next }

  ghost predicate Issued(entries: map<Id, Ref>, next: nat) {
    forall id {:trigger IssuedOne(entries, next, id)} :: IssuedOne(entries, next, id)
  }

  // Ids stay below the next one when the next is given out and when some are taken back.
  lemma {:induction false} IssuedNext(entries: map<Id, Ref>, next: nat, c: Ref)
    requires Issued(entries, next)
    ensures Id(next) !in entries && Issued(entries[Id(next) := c], next + 1)
  {
    assert IssuedOne(entries, next, Id(next));
    var entries', next' := entries[Id(next) := c], next + 1;
    forall id ensures IssuedOne(entries', next', id) { assert IssuedOne(entries, next, id); }
  }

  lemma {:induction false} IssuedLess(entries: map<Id, Ref>, next: nat, id: Id)
    requires Issued(entries, next)
    ensures Issued(entries - {id}, next)
  {
    forall id' ensures IssuedOne(entries - {id}, next, id') { assert IssuedOne(entries, next, id'); }
  }

  ghost predicate NoneBelow(entries: map<Id, Ref>, i: nat) { forall id :: id in entries ==> id.n >= i }

  lemma {:induction false} NoneBelowNext(entries: map<Id, Ref>, i: nat)
    requires NoneBelow(entries, i)
    ensures NoneBelow(entries - {Id(i)}, i + 1)
  {
  }

  lemma {:induction false} NoneAtAll(entries: map<Id, Ref>, next: nat)
    requires Issued(entries, next) && NoneBelow(entries, next)
    ensures entries == map[]
  {
    forall id ensures id !in entries { assert IssuedOne(entries, next, id); }
  }

  class CapabilityTable {
    var next: nat
    const capabilities: Maps.HashMap<Id, Ref>

    ghost function Entries(): map<Id, Ref>
      reads capabilities
    {
      capabilities.contents
    }

    ghost function Now(): Table
      reads this, capabilities
    {
      Table(next, Entries())
    }

    /** Every id in use was given out before, and the hash map has buckets once one was. */
    ghost predicate Valid()
      reads this, capabilities
    {
      && capabilities.Valid() && next >= 0x100 && Issued(Entries(), next)
      && (next > 0x100 <==> |capabilities.data| > 0)
    }

    constructor (hash: Id -> nat)
      ensures Valid() && Now() == Table(0x100, map[]) && fresh(capabilities)
    {
      next := 0x100;
      capabilities := new Maps.HashMap<Id, Ref>(hash);
    }

    /** Never meets an id that is in use, which would be a kernel panic. */
    method AddExistingCapability(c: Ref) returns (id: Id, panics: bool)
      requires Valid()
      modifies this, capabilities
      ensures Valid() && Now() == Added(old(Now()), c) && id == Id(old(next)) && !panics
    {
      IssuedNext(Entries(), next, c);
      id := Id(next);
      next := next + 1;
      var ok := capabilities.Insert(id, c);
      panics := !ok;
    }

    method GetCapability(id: Id, fallback: Ref) returns (r: Option<Ref>)
      requires Valid()
      modifies capabilities
      ensures Valid() && Now() == old(Now())
      ensures r == if id in Entries() then Some(Entries()[id]) else None
    {
      var there := capabilities.Contains(id);
      if !there {
        return None;
      }
      var c := capabilities.At(id, fallback);
      assert Entries() == old(Entries());
      return Some(c);
    }

    /** Looking up and deleting never store a default or miss the id. */
    method ReleaseCapability(id: Id, fallback: Ref) returns (r: Option<Ref>)
      requires Valid()
      modifies capabilities
      ensures Valid() && Entries() == old(Entries()) - {id}
      ensures r == if id in old(Entries()) then Some(old(Entries())[id]) else None
    {
      IssuedLess(Entries(), next, id);
      r := GetCapability(id, fallback);
      if r.Some? {
        var _ := capabilities.Delete(id);
      } else {
        assert Entries() == old(Entries()) - {id};
      }
    }

    /** Leaves no capability. Divides by zero exactly if none was ever added. */
    method ReleaseAll() returns (crashes: bool)
      requires Valid()
      modifies capabilities
      ensures Valid() && Entries() == map[]
      ensures crashes <==> next == 0x100
    {
      for i := 0 to next
        invariant Valid() && (i > 0 ==> next > 0x100) && NoneBelow(Entries(), i)
      {
        NoneBelowNext(Entries(), i);
        if |capabilities.data| == 0 {
          return true;
        }
        IssuedLess(Entries(), next, Id(i));
        var _ := capabilities.Delete(Id(i));
      }
      NoneAtAll(Entries(), next);
      return false;
    }

    /** The loop of a send over the listed capabilities. */
    method TranslateRequest(caps: map<Ref, Cap>, ids: seq<Id>, fallback: Ref)
      returns (refs: seq<Ref>, error: Option<Error>)
      requires Valid()
      modifies capabilities
      ensures Valid() && Taken(Now(), refs, error) == Take(old(Now()), caps, ids, |ids|)
      ensures error == None <==> Sendable(old(Now()), caps, ids, |ids|)
    {
      ghost var start := Now();
      refs, error := TakeEach(caps, ids, fallback);
      TakeTakes(start, caps, ids, |ids|);
    }

    method TakeEach(caps: map<Ref, Cap>, ids: seq<Id>, fallback: Ref) returns (refs: seq<Ref>, error: Option<Error>)
      requires Valid()
      modifies capabilities
      ensures Valid() && Taken(Now(), refs, error) == Take(old(Now()), caps, ids, |ids|)
    {
      ghost var start := Now();
      refs, error := [], None;
      for i := 0 to |ids|
        invariant Valid() && error == None && Taken(Now(), refs, None) == Take(start, caps, ids, i)
      {
        refs, error := TakeNextOne(caps, ids, i, refs, fallback, start);
        if error.Some? {
          TakeStops(start, caps, ids, i + 1, |ids|);
          return;
        }
      }
    }

    // One more of the listed capabilities; start is the table the loop began with.
    method TakeNextOne(caps: map<Ref, Cap>, ids: seq<Id>, i: nat, refs: seq<Ref>, fallback: Ref, ghost start: Table)
      returns (refs': seq<Ref>, error: Option<Error>)
      requires Valid() && i < |ids| && Taken(Now(), refs, None) == Take(start, caps, ids, i)
      modifies capabilities
      ensures Valid() && Taken(Now(), refs', error) == Take(start, caps, ids, i + 1)
    {
      TakeNext(start, caps, ids, i, Now(), refs);
      var c;
      c, error := TakeOne(caps, ids[i], fallback);
      refs' := if error == None then refs + [c] else refs;
    }

    // Takes a capability out of the table if it may be sent.
    method TakeOne(caps: map<Ref, Cap>, id: Id, fallback: Ref) returns (c: Ref, error: Option<Error>)
      requires Valid()
      modifies capabilities
      ensures Valid() && error == WhyNot(old(Now()), caps, id)
      ensures Now() == if error == None then Dropped(old(Now()), id) else old(Now())
      ensures error == None ==> Names(old(Now()), id, c)
    {
      var r := GetCapability(id, fallback);
      if r == None {
        return fallback, Some(CapNotFound);
      }
      if !Transmits(caps, r.value) {
        return fallback, Some(CapPermissionDenied);
      }
      r := ReleaseCapability(id, fallback);
      return r.value, None;
    }

    /** The loop of a receive: the capabilities get consecutive new ids. */
    method TranslateResponse(refs: seq<Ref>) returns (ids: seq<Id>)
      requires Valid()
      modifies this, capabilities
      ensures Valid() && Now() == AddedAll(old(Now()), refs, |refs|)
      ensures ids == NewIds(old(next), |refs|)
    {
      ghost var start := Now();
      ids := [];
      for i := 0 to |refs|
        invariant Valid() && GaveOut(start, refs, i, ids)
      {
        ids := AddNextOne(refs, i, ids, start);
      }
    }

    // The first i capabilities have been added to the table, under these ids.
    ghost predicate GaveOut(start: Table, refs: seq<Ref>, i: nat, ids: seq<Id>)
      reads this, capabilities
    {
      i <= |refs| && Now() == AddedAll(start, refs, i) && ids == NewIds(start.next, i)
    }

    method AddNextOne(refs: seq<Ref>, i: nat, ids: seq<Id>, ghost start: Table) returns (ids': seq<Id>)
      requires Valid() && i < |refs| && GaveOut(start, refs, i, ids)
      modifies this, capabilities
      ensures Valid() && GaveOut(start, refs, i + 1, ids')
    {
      AddedAllAt(start, refs, i);
      var id, panics := AddExistingCapability(refs[i]);
      ids' := ids + [id];
    }
  }

  /** The ids given out one after another. */
  ghost function NewIds(next: nat, n: nat): seq<Id> { if n == 0 then [] else NewIds(next, n - 1) + [Id(next + n - 1)] }

  /** Why the capability cannot be sent, if it cannot. */
  function WhyNot(t: Table, caps: map<Ref, Cap>, id: Id): Option<Error> {
    if id !in t.entries then Some(CapNotFound)
    else if !Transmits(caps, t.entries[id]) then Some(CapPermissionDenied)
    else None
  }

  function Dropped(t: Table, id: Id): Table { t.(entries := t.entries - {id}) }

  lemma {:induction false} TakeNext(t: Table, caps: map<Ref, Cap>, ids: seq<Id>, i: nat, now: Table, refs: seq<Ref>)
    requires i < |ids| && Taken(now, refs, None) == Take(t, caps, ids, i)
    ensures Take(t, caps, ids, i + 1).error == WhyNot(now, caps, ids[i])
    ensures WhyNot(now, caps, ids[i]).Some? ==> Take(t, caps, ids, i + 1) == Taken(now, refs, WhyNot(now, caps, ids[i]))
    ensures WhyNot(now, caps, ids[i]) == None ==>
            Take(t, caps, ids, i + 1) == Taken(Dropped(now, ids[i]), refs + [now.entries[ids[i]]], None)
  {
  }

  lemma {:induction false} TakeStops(t: Table, caps: map<Ref, Cap>, ids: seq<Id>, m: nat, n: nat)
    requires m <= n <= |ids| && Take(t, caps, ids, m).error.Some?
    ensures Take(t, caps, ids, n) == Take(t, caps, ids, m)
  {
    if m < n { TakeStops(t, caps, ids, m, n - 1); }
  }
}
