/**
  The kernel message queues of zion/lib/message_queue.cpp, one kernel step at a time.

  A receiver that finds nothing waits in blocked. A sender lets the first one go; it is then in
  woken until it runs again and looks at the queue once more.
 */
module MessageQueue {
  import opened Common

  datatype Tid = Tid(n: nat)

  datatype Message = Message(data: seq<nat>, caps: seq<nat>, reply: bool)

  datatype Received = Waits | TooBig | Done(m: Message) | Refused

  predicate Fits(m: Message, data: nat, caps: nat) { |m.data| <= data && |m.caps| <= caps }

  // ----- Endpoints, ports and channels -----

  /** failures counts woken receivers whose buffers were too small. */
  datatype Queue = Queue(
    pending: seq<Message>,
    blocked: seq<Tid>,
    woken: set<Tid>,
    sent: seq<Message>,
    received: seq<Message>,
    failures: nat)

  const EMPTY := Queue([], [], {}, [], [], 0)

  function Pushed(q: Queue, m: Message): Queue {
    var q' := q.(pending := q.pending + [m], sent := q.sent + [m]);
    if q.blocked == [] then q' else q'.(blocked := q.blocked[1..], woken := q.woken + {q.blocked[0]})
  }

  function Popped(q: Queue, t: Tid, data: nat, caps: nat): (Queue, Received) {
    var q' := q.(woken := q.woken - {t});
    if q.pending == [] then (q'.(blocked := q.blocked + [t]), Waits)
    else if !Fits(q.pending[0], data, caps) then (q'.(failures := q.failures + if t in q.woken then 1 else 0), TooBig)
    else (q'.(pending := q.pending[1..], received := q.received + [q.pending[0]]), Done(q.pending[0]))
  }

  datatype Op = Push(m: Message) | Pop(t: Tid, data: nat, caps: nat)

  function Step(q: Queue, op: Op): Queue {
    match op
    case Push(m) => Pushed(q, m)
    case Pop(t, data, caps) => Popped(q, t, data, caps).0
  }

  /** A thread that waits in the queue does not ask again. */
  predicate Allowed(q: Queue, op: Op) { op.Pop? ==> op.t !in q.blocked }

  function Run(q: Queue, ops: seq<Op>): Queue {
    if ops == [] then q else Step(Run(q, ops[..|ops| - 1]), ops[|ops| - 1])
  }

  predicate AllowedRun(q: Queue, ops: seq<Op>) {
    ops == [] || (AllowedRun(q, ops[..|ops| - 1]) && Allowed(Run(q, ops[..|ops| - 1]), ops[|ops| - 1]))
  }

  /**
   * What was received and what is pending is what was sent, in order; and while a receiver
   * waits, every pending message has a receiver on its way, but for those that had no room.
   */
  ghost predicate Inv(q: Queue) {
    && q.sent == q.received + q.pending
    && NoDup(q.blocked) && (forall t :: t in q.blocked ==> t !in q.woken)
    && (q.blocked != [] ==> |q.pending| <= |q.woken| + q.failures)
  }

  lemma {:induction false} PushKeeps(q: Queue, m: Message)
    requires Inv(q)
    ensures Inv(Pushed(q, m))
  {
    var q' := Pushed(q, m);
    assert q.received + (q.pending + [m]) == (q.received + q.pending) + [m];
    if q.blocked != [] {
      assert q.blocked == [q.blocked[0]] + q.blocked[1..];
      assert q'.woken == q.woken + {q.blocked[0]} && |q'.woken| == |q.woken| + 1;
    }
  }

  lemma {:induction false} PopKeeps(q: Queue, t: Tid, data: nat, caps: nat)
    requires Inv(q) && t !in q.blocked
    ensures Inv(Popped(q, t, data, caps).0)
  {
    if q.pending != [] {
      assert q.pending == [q.pending[0]] + q.pending[1..];
      assert q.received + q.pending == (q.received + [q.pending[0]]) + q.pending[1..];
    }
    if t in q.woken {
      assert |q.woken - {t}| == |q.woken| - 1;
    } else {
      assert q.woken - {t} == q.woken;
    }
  }

  /** In every state of every run. */
  lemma {:induction false} RunKeeps(q: Queue, ops: seq<Op>)
    requires Inv(q) && AllowedRun(q, ops)
    ensures Inv(Run(q, ops))
  {
    if ops != [] {
      var before := Run(q, ops[..|ops| - 1]);
      RunKeeps(q, ops[..|ops| - 1]);
      match ops[|ops| - 1]
      case Push(m) => PushKeeps(before, m);
      case Pop(t, data, caps) => PopKeeps(before, t, data, caps);
    }
  }

  /** What a look at the queue gives: nothing there, no room for the first message, or that message. */
  ghost predicate Answers(pending: seq<Message>, data: nat, caps: nat, r: Received) {
    && (r == Waits <==> pending == [])
    && (r == TooBig <==> pending != [] && (|pending[0].data| > data || |pending[0].caps| > caps))
    && (forall m :: r == Done(m) <==> pending != [] && m == pending[0] && |m.data| <= data && |m.caps| <= caps)
  }

  /** What has been sent and not received is all there, and a receiver with room gets the first of it. */
  lemma {:induction false} PopExactly(q: Queue, t: Tid, data: nat, caps: nat)
    requires Inv(q)
    ensures var (q', r) := Popped(q, t, data, caps);
            && Answers(q.sent[|q.received|..], data, caps, r) && q'.sent == q.sent && q'.woken == q.woken - {t}
            && q'.received == q.sent[..|q.received| + if r.Done? then 1 else 0]
            && q'.pending == q.sent[|q'.received|..]
            && q'.blocked == if r == Waits then q.blocked + [t] else q.blocked
  {
    assert q.sent[|q.received|..] == q.pending;
    assert q.sent[..|q.received|] == q.received;
  }

  /** The messages a run sends, in order. */
  function Pushes(ops: seq<Op>): seq<Message> {
    if ops == [] then []
    else Pushes(ops[..|ops| - 1]) + if ops[|ops| - 1].Push? then [ops[|ops| - 1].m] else []
  }

  /** The messages its receivers get, in order. */
  function Gets(q: Queue, ops: seq<Op>): seq<Message> {
    if ops == [] then []
    else Gets(q, ops[..|ops| - 1]) + match ops[|ops| - 1]
                                     case Push(_) => []
                                     case Pop(t, data, caps) => Got(Popped(Run(q, ops[..|ops| - 1]), t, data, caps).1)
  }

  function Got(r: Received): seq<Message> { if r.Done? then [r.m] else [] }

  lemma {:induction false} History(ops: seq<Op>)
    ensures Run(EMPTY, ops).sent == Pushes(ops) && Run(EMPTY, ops).received == Gets(EMPTY, ops)
  {
    if ops != [] { History(ops[..|ops| - 1]); }
  }

  /** Messages are received in the order sent, each at most once, and the others are still there. */
  lemma {:induction false} DeliveredInOrder(ops: seq<Op>)
    requires AllowedRun(EMPTY, ops)
    ensures Pushes(ops) == Gets(EMPTY, ops) + Run(EMPTY, ops).pending
  {
    History(ops);
    RunKeeps(EMPTY, ops);
  }

  /** After any run, a receiver with room gets the first message sent that nobody has got yet. */
  lemma {:induction false} NextDelivered(ops: seq<Op>, t: Tid, data: nat, caps: nat)
    requires AllowedRun(EMPTY, ops)
    ensures |Gets(EMPTY, ops)| <= |Pushes(ops)|
    ensures Answers(Pushes(ops)[|Gets(EMPTY, ops)|..], data, caps, Popped(Run(EMPTY, ops), t, data, caps).1)
  {
    DeliveredInOrder(ops);
    History(ops);
    RunKeeps(EMPTY, ops);
    PopExactly(Run(EMPTY, ops), t, data, caps);
  }

  /** No lost wakeup: while someone waits, each pending message has a receiver on its way. */
  ghost predicate NoLost(q: Queue) { q.blocked != [] ==> |q.pending| <= |q.woken| }

  /** A receiver let go for a message has no room for it, and no other one is on its way. */
  predicate LosesOne(q: Queue, op: Op) {
    && op.Pop? && op.t in q.woken && q.pending != [] && !Fits(q.pending[0], op.data, op.caps)
    && q.blocked != [] && |q.pending| == |q.woken|
  }

  /** A step loses a wakeup exactly in that case. */
  lemma {:induction false} StepLosesExactly(q: Queue, op: Op)
    requires Inv(q) && NoLost(q) && Allowed(q, op)
    ensures NoLost(Step(q, op)) <==> !LosesOne(q, op)
  {
    match op
    case Push(m) =>
      if q.blocked != [] { assert |q.woken + {q.blocked[0]}| == |q.woken| + 1; }
    case Pop(t, data, caps) =>
      if t in q.woken {
        assert |q.woken - {t}| == |q.woken| - 1;
      } else {
        assert q.woken - {t} == q.woken;
      }
  }

  /** No step of the run is such a case. */
  predicate NeverLoses(q: Queue, ops: seq<Op>) {
    ops == [] || (NeverLoses(q, ops[..|ops| - 1]) && !LosesOne(Run(q, ops[..|ops| - 1]), ops[|ops| - 1]))
  }

  ghost predicate NoLostThroughout(q: Queue, ops: seq<Op>) {
    NoLost(Run(q, ops)) && (ops == [] || NoLostThroughout(q, ops[..|ops| - 1]))
  }

  /** No wakeup is lost anywhere in a run exactly when no step of it is such a case. */
  lemma {:induction false} NoLostWakeup(q: Queue, ops: seq<Op>)
    requires Inv(q) && NoLost(q) && AllowedRun(q, ops)
    ensures NoLostThroughout(q, ops) <==> NeverLoses(q, ops)
  {
    if ops != [] {
      var n := |ops| - 1;
      NoLostWakeup(q, ops[..n]);
      RunKeeps(q, ops[..n]);
      if NoLost(Run(q, ops[..n])) { StepLosesExactly(Run(q, ops[..n]), ops[n]); }
    }
  }

  // No receiver that was let go for a message finds its buffers too small.
  predicate WokenFit(q: Queue, ops: seq<Op>) {
    ops == [] ||
    (WokenFit(q, ops[..|ops| - 1]) &&
     var before, op := Run(q, ops[..|ops| - 1]), ops[|ops| - 1];
     op.Pop? && op.t in before.woken && before.pending != [] ==> Fits(before.pending[0], op.data, op.caps))
  }

  /** Runs in which receivers that were let go have room lose no wakeup. */
  lemma {:induction false} RoomIsEnough(q: Queue, ops: seq<Op>)
    requires Inv(q) && NoLost(q) && AllowedRun(q, ops) && WokenFit(q, ops)
    ensures NoLost(Run(q, ops))
  {
    if ops != [] {
      var n := |ops| - 1;
      RoomIsEnough(q, ops[..n]);
      RunKeeps(q, ops[..n]);
      StepLosesExactly(Run(q, ops[..n]), ops[n]);
    }
  }

  /** A woken receiver with too small a buffer leaves the message behind and wakes nobody. */
  lemma {:induction false} LostWakeup(m: Message, a: Tid, b: Tid)
    requires a != b && |m.data| > 0
    ensures var ops := [Pop(a, 0, 0), Pop(b, 0, 0), Push(m), Pop(a, 0, 0)];
            && AllowedRun(EMPTY, ops)
            && Run(EMPTY, ops).pending == [m] && Run(EMPTY, ops).blocked == [b] && Run(EMPTY, ops).woken == {}
  {
    var ops := [Pop(a, 0, 0), Pop(b, 0, 0), Push(m), Pop(a, 0, 0)];
    var q1 := EMPTY.(blocked := [a]);
    var q2 := EMPTY.(blocked := [a, b]);
    var q3 := Queue([m], [b], {a}, [m], [], 0);
    assert ops[..3] == [Pop(a, 0, 0), Pop(b, 0, 0), Push(m)] && ops[..3][..2] == [Pop(a, 0, 0), Pop(b, 0, 0)];
    assert ops[..3][..2][..1] == [Pop(a, 0, 0)] && ops[..3][..2][..1][..0] == [];
    assert Run(EMPTY, ops[..3][..2][..1]) == q1 && AllowedRun(EMPTY, ops[..3][..2][..1]);
    assert Run(EMPTY, ops[..3][..2]) == q2 && AllowedRun(EMPTY, ops[..3][..2]);
    assert Run(EMPTY, ops[..3]) == q3 && AllowedRun(EMPTY, ops[..3]);
    assert {a} - {a} == {};
  }

  class UnboundedMessageQueue {
    var pending: seq<Message>
    var blocked: seq<Tid>
    ghost var history: Queue

    ghost function Now(): Queue
      reads this
    {
      history.(pending := pending, blocked := blocked)
    }

    ghost predicate Valid()
      reads this
    {
      Inv(Now())
    }

    constructor ()
      ensures Valid() && Now() == EMPTY
    {
      pending, blocked, history := [], [], EMPTY;
    }

    /** Returns the thread to put on the runnable queue, if one was waiting. */
    method PushBack(m: Message) returns (wake: Option<Tid>)
      requires Valid()
      modifies this
      ensures Valid() && Now() == Pushed(old(Now()), m)
      ensures pending == old(pending) + [m]
      ensures wake == if old(blocked) == [] then None else Some(old(blocked)[0])
      ensures blocked == if wake == None then [] else old(blocked)[1..]
    {
      PushKeeps(Now(), m);
      history := Pushed(Now(), m);
      pending := pending + [m];
      wake := None;
      if |blocked| > 0 {
        wake := Some(blocked[0]);
        blocked := blocked[1..];
      }
    }

    /** One look at the queue by thread t. */
    method PopFront(t: Tid, data: nat, caps: nat) returns (r: Received)
      requires Valid() && t !in blocked
      modifies this
      ensures Valid() && (Now(), r) == Popped(old(Now()), t, data, caps) && Answers(old(pending), data, caps, r)
      ensures pending == if r.Done? then old(pending)[1..] else old(pending)
      ensures blocked == if r == Waits then old(blocked) + [t] else old(blocked)
    {
      PopKeeps(Now(), t, data, caps);
      history := Popped(Now(), t, data, caps).0;
      if |pending| == 0 {
        blocked := blocked + [t];
        return Waits;
      }
      if |pending[0].data| > data || |pending[0].caps| > caps {
        return TooBig;
      }
      r := Done(pending[0]);
      pending := pending[1..];
    }
  }

  // ----- Reply ports -----

  /** accepted and delivered are what senders and receivers have seen of the one message. */
  datatype Single = Single(hasWritten: bool, hasRead: bool, message: Option<Message>, accepted: seq<Message>,
                           delivered: seq<Message>)

  const UNUSED := Single(false, false, None, [], [])

  function PushSingle(q: Single, m: Message): (Single, bool) {
    if m.reply || q.hasWritten then (q, false)
    else (q.(hasWritten := true, message := Some(m), accepted := q.accepted + [m]), true)
  }

  function PopSingle(q: Single, data: nat, caps: nat): (Single, Received) {
    if !q.hasWritten || q.message == None then (q, Waits)
    else if q.hasRead then (q, Refused)
    else if !Fits(q.message.value, data, caps) then (q, TooBig)
    else (q.(hasRead := true, delivered := q.delivered + [q.message.value]), Done(q.message.value))
  }

  datatype SingleOp = PushOne(m: Message) | PopOne(data: nat, caps: nat)

  function RunSingle(q: Single, ops: seq<SingleOp>): Single {
    if ops == [] then q
    else
      var before := RunSingle(q, ops[..|ops| - 1]);
      match ops[|ops| - 1]
      case PushOne(m) => PushSingle(before, m).0
      case PopOne(data, caps) => PopSingle(before, data, caps).0
  }

  ghost predicate SingleInv(q: Single) {
    && q.accepted == (if q.hasWritten && q.message.Some? then [q.message.value] else [])
    && q.delivered == (if q.hasRead then q.accepted else []) && (q.hasRead ==> q.hasWritten)
    && (q.hasWritten ==> q.message.Some?)
  }

  /** A reply port takes at most one message and hands out exactly that one, at most once. */
  lemma {:induction false} AtMostOneReply(ops: seq<SingleOp>)
    ensures SingleInv(RunSingle(UNUSED, ops))
    ensures var q := RunSingle(UNUSED, ops); |q.accepted| <= 1 && q.delivered <= q.accepted
  {
    if ops != [] { AtMostOneReply(ops[..|ops| - 1]); }
  }

  /**
   * What a look at a reply port gives: nothing accepted yet, the message already handed out, no room for it,
   * or the message.
   */
  ghost predicate Replies(q: Single, data: nat, caps: nat, r: Received) {
    && (r == Waits <==> q.accepted == [])
    && (r == Refused <==> q.delivered != [])
    && (r == TooBig <==> q.accepted != [] && q.delivered == [] &&
                         (|q.accepted[0].data| > data || |q.accepted[0].caps| > caps))
    && (forall m :: r == Done(m) <==> q.accepted == [m] && q.delivered == [] && |m.data| <= data && |m.caps| <= caps)
  }

  lemma {:induction false} PopSingleExactly(q: Single, data: nat, caps: nat)
    requires SingleInv(q)
    ensures var (q', r) := PopSingle(q, data, caps);
            && SingleInv(q') && Replies(q, data, caps, r) && q'.accepted == q.accepted
            && q'.delivered == if r.Done? then q.accepted else q.delivered
  {
  }

  /** A message is accepted exactly when it is the first and brings no reply port of its own. */
  lemma {:induction false} PushSingleExactly(q: Single, m: Message)
    requires SingleInv(q)
    ensures var (q', ok) := PushSingle(q, m);
            && SingleInv(q') && (ok <==> !m.reply && q.accepted == []) && q'.delivered == q.delivered
            && q'.accepted == if ok then [m] else q.accepted
  {
  }

  /** The first message of a run that brings no reply port of its own. */
  function FirstPushed(ops: seq<SingleOp>): seq<Message> {
    if ops == [] then []
    else
      var earlier, op := FirstPushed(ops[..|ops| - 1]), ops[|ops| - 1];
      if earlier == [] && op.PushOne? && !op.m.reply then [op.m] else earlier
  }

  /** A look at the port after that message is there, with room for it. */
  predicate CanTake(ops: seq<SingleOp>, i: nat)
    requires i < |ops|
  {
    ops[i].PopOne? && FirstPushed(ops[..i]) != [] && Fits(FirstPushed(ops[..i])[0], ops[i].data, ops[i].caps)
  }

  predicate Taken(ops: seq<SingleOp>) { exists i: nat :: i < |ops| && CanTake(ops, i) }

  lemma {:induction false} TakenGrows(ops: seq<SingleOp>)
    requires ops != []
    ensures Taken(ops) <==> Taken(ops[..|ops| - 1]) || CanTake(ops, |ops| - 1)
  {
    var n := |ops| - 1;
    forall i: nat | i < n ensures CanTake(ops[..n], i) <==> CanTake(ops, i) { assert ops[..n][..i] == ops[..i]; }
    if Taken(ops[..n]) {
      var i: nat :| i < n && CanTake(ops[..n], i);
      assert CanTake(ops, i);
    }
  }

  /** A reply port accepts the first such message, and has handed it out exactly when someone had room for it. */
  lemma {:induction false} ReplyDelivered(ops: seq<SingleOp>)
    ensures var q := RunSingle(UNUSED, ops);
            SingleInv(q) && q.accepted == FirstPushed(ops) && q.delivered == if Taken(ops) then q.accepted else []
  {
    if ops != [] {
      var n := |ops| - 1;
      ReplyDelivered(ops[..n]);
      TakenGrows(ops);
      if Taken(ops[..n]) { TakenNeedsOne(ops[..n]); }
      var before := RunSingle(UNUSED, ops[..n]);
      match ops[n]
      case PushOne(m) => PushSingleExactly(before, m);
      case PopOne(data, caps) => PopSingleExactly(before, data, caps);
    }
  }

  lemma {:induction false} FirstStays(ops: seq<SingleOp>, i: nat)
    requires i <= |ops| && FirstPushed(ops[..i]) != []
    ensures FirstPushed(ops) == FirstPushed(ops[..i])
  {
    if i == |ops| {
      assert ops[..i] == ops;
    } else {
      assert ops[..|ops| - 1][..i] == ops[..i];
      FirstStays(ops[..|ops| - 1], i);
    }
  }

  lemma {:induction false} TakenNeedsOne(ops: seq<SingleOp>)
    requires Taken(ops)
    ensures FirstPushed(ops) != []
  {
    var i: nat :| i < |ops| && CanTake(ops, i);
    FirstStays(ops, i);
  }

  /** Of the looks at a reply port exactly the first that can take the message gets it. */
  lemma {:induction false} FirstTakes(ops: seq<SingleOp>, i: nat)
    requires i < |ops| && ops[i].PopOne?
    ensures var r := PopSingle(RunSingle(UNUSED, ops[..i]), ops[i].data, ops[i].caps).1;
            forall m :: r == Done(m) <==> CanTake(ops, i) && !Taken(ops[..i]) && [m] == FirstPushed(ops)
  {
    ReplyDelivered(ops[..i]);
    PopSingleExactly(RunSingle(UNUSED, ops[..i]), ops[i].data, ops[i].caps);
    if FirstPushed(ops[..i]) != [] { FirstStays(ops, i); }
  }

  class SingleMessageQueue {
    var hasWritten: bool
    var hasRead: bool
    var message: Option<Message>
    var blocked: seq<Tid>
    ghost var history: Single

    ghost function Now(): Single
      reads this
    {
      history.(hasWritten := hasWritten, hasRead := hasRead, message := message)
    }

    ghost predicate Valid()
      reads this
    {
      SingleInv(Now())
    }

    constructor ()
      ensures Valid() && Now() == UNUSED && blocked == []
    {
      hasWritten, hasRead, message, blocked, history := false, false, None, [], UNUSED;
    }

    method PushBack(m: Message) returns (ok: bool, wake: Option<Tid>)
      requires Valid()
      modifies this
      ensures Valid() && (Now(), ok) == PushSingle(old(Now()), m)
      ensures ok <==> !m.reply && old(Now()).accepted == []
      ensures Now().accepted == (if ok then [m] else old(Now()).accepted) && Now().delivered == old(Now()).delivered
      ensures wake == if ok && old(blocked) != [] then Some(old(blocked)[0]) else None
      ensures blocked == if ok && old(blocked) != [] then old(blocked)[1..] else old(blocked)
    {
      wake := None;
      PushSingleExactly(Now(), m);
      history := PushSingle(Now(), m).0;
      if m.reply {
        return false, None;
      }
      if hasWritten {
        return false, None;
      }
      message := Some(m);
      hasWritten := true;
      ok := true;
      if |blocked| > 0 {
        wake := Some(blocked[0]);
        blocked := blocked[1..];
      }
    }

    method PopFront(t: Tid, data: nat, caps: nat) returns (r: Received)
      requires Valid() && t !in blocked
      modifies this
      ensures Valid() && (Now(), r) == PopSingle(old(Now()), data, caps)
      ensures Replies(old(Now()), data, caps, r)
      ensures Now().accepted == old(Now()).accepted
      ensures Now().delivered == if r.Done? then old(Now()).accepted else old(Now()).delivered
      ensures blocked == if r == Waits then old(blocked) + [t] else old(blocked)
    {
      PopSingleExactly(Now(), data, caps);
      history := PopSingle(Now(), data, caps).0;
      if !hasWritten {
        blocked := blocked + [t];
        return Waits;
      }
      if hasRead {
        return Refused;
      }
      if |message.value.data| > data || |message.value.caps| > caps {
        return TooBig;
      }
      hasRead := true;
      r := Done(message.value);
    }
  }
}
