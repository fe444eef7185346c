/**
  What the system calls on capabilities do (zion/syscall/capability.cpp, zion/syscall/ipc.cpp,
  zion/syscall/process.cpp): for each, the exact error it gives and, when it succeeds, everything
  it changes in tables, queues and objects.
 */
module SystemCalls {
  import opened Common
  import opened Capabilities

  // ----- What stays and what changes -----

  ghost predicate SameObjects(k: Kernel, k': Kernel) {
    k'.caps == k.caps && k'.kinds == k.kinds && k'.nextRef == k.nextRef && k'.nextObj == k.nextObj
  }

  ghost predicate SameTables(k: Kernel, k': Kernel,
                             p: Pid) { forall p' :: p' != p ==> TableOf(k', p') == TableOf(k, p') }

  ghost predicate SameQueues(k: Kernel, k': Kernel) { forall o :: QueueOf(k', o) == QueueOf(k, o) }

  /** The message joins the back of one queue, and the other queues stay. */
  ghost predicate Joins(k: Kernel, o: Obj, m: Message, k': Kernel) {
    forall o' :: QueueOf(k', o') ==
                 if o' == o then Queue(QueueOf(k, o).popped, QueueOf(k, o).pending + [m]) else QueueOf(k, o')
  }

  /** The ids name nothing any more, and the others what they did. */
  ghost predicate Lacks(t: Table, ids: seq<Id>, t': Table) {
    t'.next == t.next && forall id, c :: Names(t', id, c) <==> Names(t, id, c) && id !in ids
  }

  /** The next id names the capability, and the others what they did. */
  ghost predicate Gains(t: Table, c: Ref, t': Table) {
    t'.next == t.next + 1 && forall id, c' :: Names(t', id, c') <==>
                                                if id == Id(t.next) then c' == c else Names(t, id, c')
  }

  /** One more capability object. */
  ghost predicate Issues(k: Kernel, cap: Cap, k': Kernel) {
    k'.nextRef == k.nextRef + 1 && k'.caps == k.caps[Ref(k.nextRef) := cap]
  }

  /** The process has one more capability, under its next id. */
  ghost predicate Receives(k: Kernel, p: Pid, cap: Cap, k': Kernel) {
    && k'.kinds == k.kinds && k'.nextObj == k.nextObj && Issues(k, cap, k')
    && Gains(TableOf(k, p), Ref(k.nextRef), TableOf(k', p)) && SameTables(k, k', p) && SameQueues(k, k')
  }

  // The capabilities the ids name, in order.
  function RefsOf(t: Table, ids: seq<Id>): (refs: seq<Ref>)
    requires forall i :: 0 <= i < |ids| ==> ids[i] in t.entries
    ensures |refs| == |ids| && forall i :: 0 <= i < |ids| ==> Names(t, ids[i], refs[i])
  {
    seq(|ids|, i requires 0 <= i < |ids| => t.entries[ids[i]])
  }

  ghost predicate AllNamed(t: Table, ids: seq<Id>) { forall i :: 0 <= i < |ids| ==> ids[i] in t.entries }

  // ----- Creating, copying and dropping -----

  lemma {:induction false} NewCapDoes(k: Kernel, p: Pid, o: Obj, perms: bv64)
    ensures Receives(k, p, Cap(o, perms), NewCap(k, p, o, perms))
  {
  }

  /** A new object gets a number of its own, and the process a capability to it under its next id. */
  lemma {:induction false} CreateDoes(k: Kernel, p: Pid, kind: Kind, perms: bv64)
    ensures var k' := Create(k, p, kind, perms);
            && k'.nextObj == k.nextObj + 1 && k'.kinds == k.kinds[Obj(k.nextObj) := kind]
            && Issues(k, Cap(Obj(k.nextObj), perms), k') && Gains(TableOf(k, p), Ref(k.nextRef), TableOf(k', p))
            && SameTables(k, k', p) && SameQueues(k, k')
  {
  }

  /** The ids of a process that has no table yet begin at 0x100. */
  lemma {:induction false} FirstId(k: Kernel, p: Pid, kind: Kind, perms: bv64)
    requires p !in k.tables
    ensures var t := TableOf(Create(k, p, kind, perms), p);
            t.next == 0x101 && forall id, c :: Names(t, id, c) <==> id == Id(0x100) && c == Ref(k.nextRef)
  {
    CreateDoes(k, p, kind, perms);
  }

  /** A copy has exactly the permissions of the original that the mask leaves, under the next id. */
  lemma {:induction false} DuplicateDoes(k: Kernel, p: Pid, id: Id, mask: bv64)
    requires CapDuplicate(k, p, id, mask).error == None
    ensures Lookup(k, p, id).Some?
    ensures var cap := CapOf(k, Lookup(k, p, id).value);
            Receives(k, p, Cap(cap.obj, cap.perms & mask), CapDuplicate(k, p, id, mask).k)
  {
    var cap := CapOf(k, Lookup(k, p, id).value);
    var perms := CopiedPerms(k, p, id, mask);
    NewCapDoes(k, p, cap.obj, perms);
  }

  // What is left of the permissions, by name.
  lemma {:induction false} CopiedPerms(k: Kernel, p: Pid, id: Id, mask: bv64) returns (perms: bv64)
    requires CapDuplicate(k, p, id, mask).error == None
    ensures Lookup(k, p, id).Some? && perms == CapOf(k, Lookup(k, p, id).value).perms & mask
    ensures CapDuplicate(k, p, id, mask).k == NewCap(k, p, CapOf(k, Lookup(k, p, id).value).obj, perms)
  {
    perms := CapOf(k, Lookup(k, p, id).value).perms & mask;
  }

  /** There is no copy exactly when there is no original, or it may not be copied. */
  lemma {:induction false} DuplicateErrors(k: Kernel, p: Pid, id: Id, mask: bv64)
    ensures var r, c := CapDuplicate(k, p, id, mask), Lookup(k, p, id);
            if c == None then r == Outcome(k, Some(CapNotFound))
            else if CapOf(k, c.value).perms & DUPLICATE == 0 then r == Outcome(k, Some(CapPermissionDenied))
            else r.error == None
  {
  }

  /** Releasing a capability takes its id away, and nothing else changes. */
  lemma {:induction false} ReleaseDoes(k: Kernel, p: Pid, id: Id)
    ensures var r := CapRelease(k, p, id);
            && (r.error == if Lookup(k, p, id) == None then Some(CapNotFound) else None)
            && Lacks(TableOf(k, p), [id], TableOf(r.k, p)) && SameTables(k, r.k, p) && SameQueues(k, r.k)
            && SameObjects(k, r.k)
  {
  }

  /** A process that exits holds nothing any more. */
  lemma {:induction false} ReleaseAllDoes(k: Kernel, p: Pid)
    ensures var k' := ReleaseAll(k, p);
            && TableOf(k', p).entries == map[] && TableOf(k', p).next == TableOf(k, p).next && SameTables(k, k', p)
            && SameQueues(k, k') && SameObjects(k, k')
  {
  }

  // ----- Sending -----

  /** The first listed id that cannot be sent, and why. */
  ghost predicate FirstBad(t: Table, caps: map<Ref, Cap>, ids: seq<Id>, i: nat, e: Error) {
    && i < |ids| && Sendable(t, caps, ids, i) && !SendableAt(t, caps, ids, i)
    && e == if ids[i] !in t.entries || ids[i] in ids[..i] then CapNotFound else CapPermissionDenied
  }

  lemma {:induction false} TakeErrors(t: Table, caps: map<Ref, Cap>, ids: seq<Id>, n: nat)
    requires n <= |ids|
    ensures var r := Take(t, caps, ids, n);
            r.error.Some? ==> |r.refs| < n && FirstBad(t, caps, ids, |r.refs|, r.error.value)
  {
    if n > 0 {
      TakeErrors(t, caps, ids, n - 1);
      if Take(t, caps, ids, n - 1).error == None { LastTaken(t, caps, ids, n); }
    }
  }

  // The last id of those asked for is the first that cannot be sent.
  lemma {:induction false} LastTaken(t: Table, caps: map<Ref, Cap>, ids: seq<Id>, n: nat)
    requires 0 < n <= |ids| && Take(t, caps, ids, n - 1).error == None
    ensures var r := Take(t, caps, ids, n);
            r.error.Some? ==> |r.refs| == n - 1 && FirstBad(t, caps, ids, n - 1, r.error.value)
  {
    TakeTakes(t, caps, ids, n - 1);
    StillThere(t, Take(t, caps, ids, n - 1).table, ids, Take(t, caps, ids, n - 1).refs);
  }

  lemma {:induction false} StillThere(t: Table, t': Table, ids: seq<Id>, refs: seq<Ref>)
    requires TakenOut(t, t', ids, refs) && |refs| < |ids|
    ensures var id := ids[|refs|];
            && (id in t'.entries <==> id in t.entries && id !in ids[..|refs|])
            && (id in t'.entries ==> t'.entries[id] == t.entries[id])
  {
  }

  lemma {:induction false} TakeAll(t: Table, caps: map<Ref, Cap>, ids: seq<Id>)
    requires Take(t, caps, ids, |ids|).error == None
    ensures AllNamed(t, ids)
    ensures var r := Take(t, caps, ids, |ids|); r.refs == RefsOf(t, ids) && Lacks(t, ids, r.table)
  {
    TakeTakes(t, caps, ids, |ids|);
    assert ids[..|ids|] == ids;
  }

  lemma {:induction false} DeliverDoes(k: Kernel, p: Pid, o: Obj, bytes: nat, ids: seq<Id>, reply: Option<Ref>)
    requires Deliver(k, p, o, bytes, ids, reply).error == None
    ensures AllNamed(TableOf(k, p), ids)
    ensures var k' := Deliver(k, p, o, bytes, ids, reply).k;
            && Joins(k, o, Message(bytes, RefsOf(TableOf(k, p), ids), reply), k')
            && Lacks(TableOf(k, p), ids, TableOf(k', p)) && SameTables(k, k', p) && SameObjects(k, k')
  {
    TakeAll(TableOf(k, p), k.caps, ids);
  }

  /**
    A send that succeeds puts one message at the back of one queue, that of the other end for a channel and that
    of the object itself otherwise.  It carries what the ids named, in order, which the sender then lacks.
   */
  lemma {:induction false} SendDoes(k: Kernel, p: Pid, call: Call, id: Id, bytes: nat, ids: seq<Id>)
    requires call != OnEndpoint && Send(k, p, call, id, bytes, ids).error == None
    ensures Authorised(k, p, call, id, WRITE) && AllNamed(TableOf(k, p), ids)
    ensures var k', o := Send(k, p, call, id, bytes, ids).k, CapOf(k, Lookup(k, p, id).value).obj;
            var to := if o in k.kinds && k.kinds[o].Channel? then k.kinds[o].peer else o;
            && Joins(k, to, Message(bytes, RefsOf(TableOf(k, p), ids), None), k')
            && Lacks(TableOf(k, p), ids, TableOf(k', p)) && SameTables(k, k', p) && SameObjects(k, k')
  {
    DeliverDoes(k, p, Target(k, CapOf(k, Lookup(k, p, id).value).obj), bytes, ids, None);
  }

  /** The ids up to the first bad one are gone. */
  ghost predicate StopsShort(t: Table, caps: map<Ref, Cap>, ids: seq<Id>, t': Table, e: Error) {
    exists i: nat :: FirstBad(t, caps, ids, i, e) && Lacks(t, ids[..i], t')
  }

  lemma {:induction false} TakeFails(t: Table, caps: map<Ref, Cap>, ids: seq<Id>)
    requires Take(t, caps, ids, |ids|).error.Some?
    ensures var r := Take(t, caps, ids, |ids|); StopsShort(t, caps, ids, r.table, r.error.value)
  {
    var r := Take(t, caps, ids, |ids|);
    TakeTakes(t, caps, ids, |ids|);
    TakeErrors(t, caps, ids, |ids|);
    assert Lacks(t, ids[..|r.refs|], r.table);
  }

  /** The error of a delivery, and what it leaves: the ids before the first bad one are gone all the same. */
  ghost predicate FailsAs(k: Kernel, p: Pid, o: Obj, bytes: nat, ids: seq<Id>, r: Outcome) {
    && SameTables(k, r.k, p) && SameObjects(k, r.k) && (r.error.Some? ==> SameQueues(k, r.k))
    && if bytes > 0x1000 then r.error == Some(Unimplemented) && TableOf(r.k, p) == TableOf(k, p)
       else if !Sendable(TableOf(k, p), k.caps, ids, |ids|) then
         r.error.Some? && StopsShort(TableOf(k, p), k.caps, ids, TableOf(r.k, p), r.error.value)
       else
         && Lacks(TableOf(k, p), ids, TableOf(r.k, p))
         && r.error == if KindOf(k, o) == ReplyPort && QueueOf(k, o) != Queue(0, []) then Some(FailedPrecondition)
                       else None
  }

  lemma {:induction false} DeliverFails(k: Kernel, p: Pid, o: Obj, bytes: nat, ids: seq<Id>, reply: Option<Ref>)
    ensures FailsAs(k, p, o, bytes, ids, Deliver(k, p, o, bytes, ids, reply))
  {
    var t, r := TableOf(k, p), Deliver(k, p, o, bytes, ids, reply);
    if bytes <= 0x1000 {
      TakeTakes(t, k.caps, ids, |ids|);
      var taken := Take(t, k.caps, ids, |ids|);
      if taken.error.Some? { TakeFails(t, k.caps, ids); } else { TakeAll(t, k.caps, ids); }
    }
  }

  /** The error of a call by a process that may not make it. */
  ghost predicate Forbids(k: Kernel, p: Pid, call: Call, id: Id, e: Error) {
    e == if Lookup(k, p, id) == None then CapNotFound
         else if !Matches(call, KindOf(k, CapOf(k, Lookup(k, p, id).value).obj)) then CapWrongType
         else CapPermissionDenied
  }

  /** The error of every send, in the order the kernel finds them. */
  lemma {:induction false} SendErrors(k: Kernel, p: Pid, call: Call, id: Id, bytes: nat, ids: seq<Id>)
    requires call != OnEndpoint
    ensures var r := Send(k, p, call, id, bytes, ids);
            if !Authorised(k, p, call, id, WRITE) then r.k == k && r.error.Some?
                                                       && Forbids(k, p, call, id, r.error.value)
            else
              var o := CapOf(k, Lookup(k, p, id).value).obj;
              FailsAs(k, p, if o in k.kinds && k.kinds[o].Channel? then k.kinds[o].peer else o, bytes, ids, r)
  {
    if Authorised(k, p, call, id, WRITE) {
      DeliverFails(k, p, Target(k, CapOf(k, Lookup(k, p, id).value).obj), bytes, ids, None);
    }
  }

  // ----- Requests -----

  /** A reply port is there: one end to read it with the process, another to write it with nobody yet. */
  lemma {:induction false} ReplyPortDoes(k: Kernel, p: Pid)
    ensures var k1, o := WithReplyPort(k, p), Obj(k.nextObj);
            && k1.nextObj == k.nextObj + 1 && k1.kinds == k.kinds[o := ReplyPort] && k1.nextRef == k.nextRef + 2
            && k1.caps == k.caps[Ref(k.nextRef) := Cap(o, READ)][Ref(k.nextRef + 1) := Cap(o, WRITE | TRANSMIT)]
            && Gains(TableOf(k, p), Ref(k.nextRef), TableOf(k1, p)) && SameTables(k, k1, p) && SameQueues(k, k1)
  {
  }

  /**
    A request that succeeds puts one message at the back of the queue of the endpoint, with what the ids named and
    the end of a new reply port that may be written and passed on.  The sender has the end that may be read.
   */
  lemma {:induction false} RequestDoes(k: Kernel, p: Pid, id: Id, bytes: nat, ids: seq<Id>)
    requires EndpointSend(k, p, id, bytes, ids).error == None
    ensures Authorised(k, p, OnEndpoint, id, WRITE) && AllNamed(TableOf(k, p), ids)
    ensures var k', o := EndpointSend(k, p, id, bytes, ids).k, Obj(k.nextObj);
            && Joins(k, CapOf(k, Lookup(k, p, id).value).obj,
                     Message(bytes, RefsOf(TableOf(k, p), ids), Some(Ref(k.nextRef + 1))), k')
            && k'.nextObj == k.nextObj + 1 && k'.kinds == k.kinds[o := ReplyPort] && k'.nextRef == k.nextRef + 2
            && k'.caps == k.caps[Ref(k.nextRef) := Cap(o, READ)][Ref(k.nextRef + 1) := Cap(o, WRITE | TRANSMIT)]
            && SameTables(k, k', p) && Lacks(TableOf(WithReplyPort(k, p), p), ids, TableOf(k', p))
  {
    var k1, k' := WithReplyPort(k, p), EndpointSend(k, p, id, bytes, ids).k;
    var o, reply := CapOf(k, Lookup(k, p, id).value).obj, Some(Ref(k.nextRef + 1));
    ReplyPortDoes(k, p);
    DeliverDoes(k1, p, o, bytes, ids, reply);
    NewEndNotSent(k, p, o, bytes, ids);
    JoinsAfter(k, k1, p, o, Message(bytes, RefsOf(TableOf(k, p), ids), reply), k');
  }

  lemma {:induction false} JoinsAfter(k: Kernel, k1: Kernel, p: Pid, o: Obj, m: Message, k': Kernel)
    requires SameQueues(k, k1) && SameTables(k, k1, p) && Joins(k1, o, m, k') && SameTables(k1, k', p)
    ensures Joins(k, o, m, k') && SameTables(k, k', p)
  {
  }

  // The end that may be read may not be passed on, so what is sent was there before.
  lemma {:induction false} NewEndNotSent(k: Kernel, p: Pid, o: Obj, bytes: nat, ids: seq<Id>)
    requires Deliver(WithReplyPort(k, p), p, o, bytes, ids, Some(Ref(k.nextRef + 1))).error == None
    ensures AllNamed(TableOf(WithReplyPort(k, p), p), ids) && AllNamed(TableOf(k, p), ids)
    ensures RefsOf(TableOf(WithReplyPort(k, p), p), ids) == RefsOf(TableOf(k, p), ids)
  {
    var k1 := WithReplyPort(k, p);
    var t1 := TableOf(k1, p);
    TakeTakes(t1, k1.caps, ids, |ids|);
    forall i | 0 <= i < |ids| ensures ids[i] in t1.entries && ids[i] != Id(TableOf(k, p).next) {
      SendableEach(t1, k1.caps, ids, |ids|, i);
      ReadEndStays(k, p);
    }
  }

  lemma {:induction false} ReadEndStays(k: Kernel, p: Pid)
    ensures !Transmits(WithReplyPort(k, p).caps, Ref(k.nextRef))
    ensures Names(TableOf(WithReplyPort(k, p), p), Id(TableOf(k, p).next), Ref(k.nextRef))
  {
  }

  /** The error of every request; the reply port stays behind when it fails after that. */
  lemma {:induction false} RequestErrors(k: Kernel, p: Pid, id: Id, bytes: nat, ids: seq<Id>)
    ensures var r := EndpointSend(k, p, id, bytes, ids);
            if !Authorised(k, p, OnEndpoint, id, WRITE)
            then r.k == k && r.error.Some? && Forbids(k, p, OnEndpoint, id, r.error.value)
            else FailsAs(WithReplyPort(k, p), p, CapOf(k, Lookup(k, p, id).value).obj, bytes, ids, r)
  {
    if Authorised(k, p, OnEndpoint, id, WRITE) {
      DeliverFails(WithReplyPort(k, p), p, CapOf(k, Lookup(k, p, id).value).obj, bytes, ids, Some(Ref(k.nextRef + 1)));
    }
  }

  // ----- Receiving -----

  /** The error of every receive, in the order the kernel finds them. */
  lemma {:induction false} RecvErrors(k: Kernel, p: Pid, call: Call, id: Id, bytes: nat, room: nat)
    ensures var r := Recv(k, p, call, id, bytes, room);
            if !Authorised(k, p, call, id, READ) then r.k == k && r.error.Some?
                                                      && Forbids(k, p, call, id, r.error.value)
            else
              var o := CapOf(k, Lookup(k, p, id).value).obj;
              var q := QueueOf(k, o);
              r.error == if KindOf(k, o) == ReplyPort && q.popped > 0 then Some(FailedPrecondition)
                         else if q.pending == [] then Some(Empty)
                         else if q.pending[0].bytes > bytes || |q.pending[0].caps| > room then Some(BufferSize)
                         else if KindOf(k, o) == Endpoint && q.pending[0].reply == None then Some(Internal)
                         else None
  {
  }

  // ----- Processes -----

  /** The capability leaves the one table and is under the next id of the other. */
  ghost predicate Moves(k: Kernel, p: Pid, id: Id, child: Pid, c: Ref, k': Kernel) {
    && SameObjects(k, k') && SameQueues(k, k') && (forall q :: q != p && q != child ==> TableOf(k', q) == TableOf(k, q))
    && exists t :: Lacks(TableOf(k, p), [id], t) && (p != child ==> TableOf(k', p) == t)
                   && Gains(if p == child then t else TableOf(k, child), c, TableOf(k', child))
  }

  /** A capability is handed over exactly when the process has it and may pass it on. */
  ghost predicate HandsOver(k: Kernel, p: Pid, id: Id, child: Pid, r: Outcome) {
    var c := Lookup(k, p, id);
    if c == None then r == Outcome(k, Some(CapNotFound))
    else if !HasPermissions(CapOf(k, c.value).perms, TRANSMIT) then r == Outcome(k, Some(CapPermissionDenied))
    else r.error == None && Moves(k, p, id, child, c.value, r.k)
  }

  lemma {:induction false} HandOverDoes(k: Kernel, p: Pid, id: Id, child: Pid)
    ensures HandsOver(k, p, id, child, HandOver(k, p, id, child))
  {
    var c, k1 := Lookup(k, p, id), CapRelease(k, p, id).k;
    ReleaseDoes(k, p, id);
    if c.Some? && HasPermissions(CapOf(k, c.value).perms, TRANSMIT) {
      assert Lacks(TableOf(k, p), [id], TableOf(k1, p));
    }
  }

  /** The new process and its address space, and the capabilities to them for the one that spawned it. */
  ghost predicate Spawned(k: Kernel, p: Pid, child: Pid, perms: bv64, spacePerms: bv64, k': Kernel) {
    var process, space := Obj(k.nextObj), Obj(k.nextObj + 1);
    && k'.nextObj == k.nextObj + 2 && k'.kinds == k.kinds[process := Process(child)][space := Other]
    && k'.nextRef == k.nextRef + 2 && SameTables(k, k', p) && SameQueues(k, k')
    && k'.caps == k.caps[Ref(k.nextRef) := Cap(process, perms)][Ref(k.nextRef + 1) := Cap(space, spacePerms)]
    && exists t :: Gains(TableOf(k, p), Ref(k.nextRef), t) && Gains(t, Ref(k.nextRef + 1), TableOf(k', p))
  }

  /** A process is spawned exactly when the caller may; the bootstrap capability, if any, then goes to it. */
  lemma {:induction false} SpawnDoes(k: Kernel, p: Pid, id: Id, child: Pid, perms: bv64, spacePerms: bv64,
                                     bootstrap: Option<Id>)
    ensures var r, c := ProcessSpawn(k, p, id, child, perms, spacePerms, bootstrap), Lookup(k, p, id);
            if c == None then r == Outcome(k, Some(CapNotFound))
            else if !KindOf(k, CapOf(k, c.value).obj).Process? then r == Outcome(k, Some(CapWrongType))
            else if !HasPermissions(CapOf(k, c.value).perms, SPAWN_PROCESS)
            then r == Outcome(k, Some(CapPermissionDenied))
            else
              exists k1 :: && Spawned(k, p, child, perms, spacePerms, k1)
                           && if bootstrap == None then r == Outcome(k1, None)
                              else HandsOver(k1, p, bootstrap.value, child, r)
  {
    var k1 := Create(Create(k, p, Process(child), perms), p, Other, spacePerms);
    CreatedTwice(k, p, child, perms, spacePerms);
    if bootstrap.Some? { HandOverDoes(k1, p, bootstrap.value, child); }
  }

  lemma {:induction false} CreatedTwice(k: Kernel, p: Pid, child: Pid, perms: bv64, spacePerms: bv64)
    ensures Spawned(k, p, child, perms, spacePerms, Create(Create(k, p, Process(child), perms), p, Other, spacePerms))
  {
    var k1 := Create(k, p, Process(child), perms);
    CreateDoes(k, p, Process(child), perms);
    CreateDoes(k1, p, Other, spacePerms);
    assert Gains(TableOf(k, p), Ref(k.nextRef), TableOf(k1, p));
  }
}
