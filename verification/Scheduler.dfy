/**
  The kernel scheduler of zion/scheduler/scheduler.cpp with the thread states of
  zion/object/thread.cpp, as a state machine over atomic kernel steps.

  Queues are sequences of threads. The state of a blocked thread names the queue it waits in, and
  that of a dying thread the list it was left in, neither of which the source stores. A step that
  would reach a kernel panic has no result.
 */
module Scheduler {
  import opened Common

  datatype Tid = Tid(n: nat)

  const IDLE := Tid(0)

  datatype LeftIn = NoList | SleepList | WaitList(q: nat)

  datatype ThreadState =
    | Created
    | Running
    | Runnable
    | Blocked(on: nat)
    | Sleeping
    | Cleanup(left: LeftIn)
    | Finished(left: LeftIn)

  predicate IsDying(s: ThreadState) { s.Cleanup? || s.Finished? }

  // The list of sleepers has the thread.
  predicate InSleepList(s: ThreadState) { s == Sleeping || (IsDying(s) && s.left == SleepList) }

  predicate InWaitList(s: ThreadState, q: nat) { s == Blocked(q) || (IsDying(s) && s.left == WaitList(q)) }

  /** The state of a thread killed in the given one. */
  function Killed(s: ThreadState): ThreadState {
    Cleanup(if s == Sleeping then SleepList else if s.Blocked? then WaitList(s.on) else NoList)
  }

  datatype Machine = Machine(
    current: Tid,
    enabled: bool,
    runnable: seq<Tid>,
    sleeping: seq<Tid>,
    waits: map<nat, seq<Tid>>,
    state: map<Tid, ThreadState>,
    ticks: map<Tid, nat>)

  function Waiting(waits: map<nat, seq<Tid>>, q: nat): seq<Tid> { if q in waits then waits[q] else [] }

  function StateOf(m: Machine, t: Tid): ThreadState { if t in m.state then m.state[t] else Finished(NoList) }

  // ----- The steps -----

  function WithState(m: Machine, t: Tid, s: ThreadState): Option<Machine> {
    if IsDying(StateOf(m, t)) then None else Some(m.(state := m.state[t := s]))
  }

  /** The queue with the dying threads at its front dropped. */
  function Cleared(queue: seq<Tid>, state: map<Tid, ThreadState>): seq<Tid> {
    if queue != [] && (queue[0] !in state || IsDying(state[queue[0]])) then Cleared(queue[1..], state) else queue
  }

  function Swapped(m: Machine): Option<Machine> {
    if StateOf(m, m.current) != Runnable then None else Some(m.(state := m.state[m.current := Running]))
  }

  function Yielded(m: Machine): Option<Machine> {
    if !m.enabled then Some(m)
    else
      var queue := Cleared(m.runnable, m.state);
      if m.current == IDLE then
        if queue == [] then None
        else Swapped(m.(current := queue[0], runnable := queue[1..],
                              state := if IsDying(StateOf(m, IDLE)) then m.state else m.state[IDLE := Runnable]))
      else if queue == [] then Swapped(m.(current := IDLE, runnable := []))
      else Swapped(m.(current := queue[0], runnable := queue[1..]))
  }

  function Enqueued(m: Machine, t: Tid): Option<Machine> {
    var m' := m.(runnable := m.runnable + [t]);
    if m.current == IDLE then Yielded(m') else Some(m')
  }

  // One off each of the first i counters, as an unsigned 64-bit decrement.
  function Ticked(s: seq<Tid>, ticks: map<Tid, nat>, i: nat): map<Tid, nat>
    requires i <= |s|
  {
    if i == 0 then ticks
    else
      var before := Ticked(s, ticks, i - 1);
      before[s[i - 1] := if TicksOf(before, s[i - 1]) == 0 then U64_LIMIT - 1 else TicksOf(before, s[i - 1]) - 1]
  }

  function AllRunnable(state: map<Tid, ThreadState>, s: seq<Tid>, i: nat): map<Tid, ThreadState>
    requires i <= |s|
  {
    if i == 0 then state else AllRunnable(state, s, i - 1)[s[i - 1] := Runnable]
  }

  function AfterTick(m: Machine): Machine {
    var woken := Due(m.sleeping, m.ticks, |m.sleeping|);
    m.(sleeping := Kept(m.sleeping, m.ticks, |m.sleeping|), runnable := m.runnable + woken,
       ticks := Ticked(m.sleeping, m.ticks, |m.sleeping|), state := AllRunnable(m.state, woken, |woken|))
  }

  function SleepersTicked(m: Machine): Option<Machine> {
    var woken := Due(m.sleeping, m.ticks, |m.sleeping|);
    if exists t :: t in woken && IsDying(StateOf(m, t)) then None else Some(AfterTick(m))
  }

  function Preempted(m: Machine): Option<Machine> {
    if !m.enabled then Some(m)
    else
      var slept := SleepersTicked(m);
      if slept == None then None else Rotate(slept.value)
  }

  /** The rest of Preempt: the current thread goes to the back and the front takes over. */
  function Rotate(m: Machine): Option<Machine> {
    var queue := Cleared(m.runnable, m.state);
    if queue == [] then Some(m.(runnable := queue))
    else
      var m' := WithState(m, m.current, Runnable);
      if m' == None then None
      else
        var queue' := queue + [m.current];
        Swapped(m'.value.(current := queue'[0], runnable := queue'[1..]))
  }

  function PutToSleep(m: Machine, millis: nat): Option<Machine> {
    var m1 := WithState(m, m.current, Sleeping);
    if m1 == None then None
    else Yielded(m1.value.(ticks := m.ticks[m.current := millis / 50 + 1], sleeping := m.sleeping + [m.current]))
  }

  /** The current thread waits in queue q: Thread::Wait, Mutex::Lock, Semaphore::Wait and the message queues. */
  function Parked(m: Machine, q: nat): Option<Machine> {
    var m1 := WithState(m, m.current, Blocked(q));
    if m1 == None then None else Yielded(m1.value.(waits := m.waits[q := Waiting(m.waits, q) + [m.current]]))
  }

  /** The thread at the front of queue q is let go. */
  function Released(m: Machine, q: nat): Option<Machine> {
    if Waiting(m.waits, q) == [] then Some(m)
    else
      var t := Waiting(m.waits, q)[0];
      var m1 := WithState(m, t, Runnable);
      if m1 == None then None else Enqueued(m1.value.(waits := m.waits[q := Waiting(m.waits, q)[1..]]), t)
  }

  datatype Op =
    | Start(t: Tid)
    | Boot
    | Tick
    | SleepFor(millis: nat)
    | BlockOn(q: nat)
    | WakeOne(q: nat)
    | Exit
    | Kill(t: Tid)
    | Finish(t: Tid)

  function Step(m: Machine, op: Op): Option<Machine> {
    match op
    case Start(t) => Enqueued(m.(state := m.state[t := Runnable]), t)
    case Boot => Yielded(m.(enabled := true))
    case Tick => Preempted(m)
    case SleepFor(millis) => PutToSleep(m, millis)
    case BlockOn(q) => Parked(m, q)
    case WakeOne(q) => Released(m, q)
    case Exit => Yielded(m.(state := m.state[m.current := Cleanup(NoList)]))
    case Kill(t) => WithState(m, t, Killed(StateOf(m, t)))
    case Finish(t) => Some(m.(state := m.state[t := AfterCleanup(StateOf(m, t))]))
  }

  function AfterCleanup(s: ThreadState): ThreadState { Finished(if IsDying(s) then s.left else NoList) }

  predicate AnyLive(queue: seq<Tid>, state: map<Tid, ThreadState>) {
    exists i :: 0 <= i < |queue| && queue[i] in state && !IsDying(state[queue[i]])
  }

  /**
   * Steps the kernel takes: each thread starts once, only a thread other than the idle one sleeps,
   * blocks or exits, boot ends with something to run, and any other thread may be killed.
   */
  predicate Requested(m: Machine, op: Op) {
    match op
    case Start(t) => StateOf(m, t) == Created && t != IDLE
    case Boot => !m.enabled && AnyLive(m.runnable, m.state)
    case Tick => true
    case SleepFor(_) => m.current != IDLE
    case BlockOn(_) => m.current != IDLE
    case WakeOne(_) => true
    case Exit => m.current != IDLE
    case Kill(t) => t != IDLE && t != m.current && !IsDying(StateOf(m, t))
    case Finish(t) => StateOf(m, t).Cleanup?
  }

  /** A killed thread is still among the sleepers and this is its last tick, or it is the next to be let go. */
  predicate WakesDying(m: Machine, op: Op) {
    match op
    case Tick => m.enabled && exists t :: t in m.sleeping && TicksOf(m.ticks, t) == 1 && IsDying(StateOf(m, t))
    case WakeOne(q) => Waiting(m.waits, q) != [] && IsDying(StateOf(m, Waiting(m.waits, q)[0]))
    case _ => false
  }

  predicate Allowed(m: Machine, op: Op) { Requested(m, op) && !WakesDying(m, op) }

  // ----- The invariant -----

  // The state of t matches its place; r is the thread that has the processor.
  ghost predicate ThreadOk(m: Machine, r: Option<Tid>, t: Tid)
    requires t in m.state
  {
    && (t in m.runnable ==> m.state[t] == Runnable || IsDying(m.state[t]))
    && (t in m.sleeping <==> InSleepList(m.state[t]))
    && (t in m.sleeping ==> TicksOf(m.ticks, t) >= 1)
    && (forall q :: t in Waiting(m.waits, q) <==> InWaitList(m.state[t], q))
    && (t in m.runnable && IsDying(m.state[t]) ==> m.state[t].left == NoList)
    && (m.state[t] == Runnable ==> t in m.runnable || t == IDLE)
    && (r == Some(t) <==> m.state[t] == Running || (t == IDLE && m.state[t] == Created))
    && (t == IDLE ==> m.state[t] == Runnable || m.state[t] == Running || (m.state[t] == Created && !m.enabled))
  }

  // Queues hold known threads, each once.
  ghost predicate QueuesOk(m: Machine) {
    && NoDup(m.runnable) && NoDup(m.sleeping) && (forall q :: NoDup(Waiting(m.waits, q)))
    && (forall t :: t in m.runnable || t in m.sleeping ==> t in m.state)
    && (forall q, t :: t in Waiting(m.waits, q) ==> t in m.state)
  }

  ghost predicate Places(m: Machine, r: Option<Tid>) {
    && QueuesOk(m) && IDLE in m.state
    && (forall t {:trigger ThreadOk(m, r, t)} :: t in m.state ==> ThreadOk(m, r, t))
    && (r.Some? ==> r.value == m.current && m.current in m.state)
    && (m.enabled || m.current == IDLE)
  }

  ghost predicate Inv(m: Machine) { Places(m, Some(m.current)) }

  lemma {:induction false} ThreadAt(m: Machine, r: Option<Tid>, t: Tid)
    requires Places(m, r) && t in m.state
    ensures ThreadOk(m, r, t)
  {
  }

  // ----- Dropping dead threads -----

  lemma {:induction false} ClearedSuffix(queue: seq<Tid>, state: map<Tid, ThreadState>) returns (k: nat)
    ensures k <= |queue| && Cleared(queue, state) == queue[k..]
    ensures forall i :: 0 <= i < k ==> queue[i] !in state || IsDying(state[queue[i]])
    ensures k < |queue| ==> queue[k] in state && !IsDying(state[queue[k]])
  {
    if queue != [] && (queue[0] !in state || IsDying(state[queue[0]])) {
      var k' := ClearedSuffix(queue[1..], state);
      k := k' + 1;
      assert queue[1..][k'..] == queue[k..];
      forall i | 0 <= i < k ensures queue[i] !in state || IsDying(state[queue[i]]) {
        if i > 0 { assert queue[i] == queue[1..][i - 1]; }
      }
    } else {
      k := 0;
      assert queue[0..] == queue;
    }
  }

  lemma {:induction false} NoDupSuffix(s: seq<Tid>, k: nat)
    requires NoDup(s) && k <= |s|
    ensures NoDup(s[k..])
  {
  }

  lemma {:induction false} NoDupConcat(s: seq<Tid>, t: seq<Tid>)
    requires NoDup(s) && NoDup(t) && forall x :: x in s ==> x !in t
    ensures NoDup(s + t)
  {
    forall i, j | 0 <= i < j < |s + t| ensures (s + t)[i] != (s + t)[j] {
      if i < |s| <= j { assert s[i] in s; }
    }
  }

  lemma {:induction false} ClearKeeps(m: Machine, r: Option<Tid>)
    requires Places(m, r)
    ensures Places(m.(runnable := Cleared(m.runnable, m.state)), r)
    ensures Cleared(m.runnable, m.state) != [] ==> StateOf(m, Cleared(m.runnable, m.state)[0]) == Runnable
    ensures AnyLive(m.runnable, m.state) ==> Cleared(m.runnable, m.state) != []
  {
    var k := ClearedSuffix(m.runnable, m.state);
    var m' := m.(runnable := m.runnable[k..]);
    NoDupSuffix(m.runnable, k);
    forall t | t in m'.state ensures ThreadOk(m', r, t) {
      ThreadAt(m, r, t);
      ClearedKeepsLive(m.runnable, m.state, k, t);
    }
    if k < |m.runnable| { ThreadAt(m, r, m.runnable[k]); }
  }

  lemma {:induction false} ClearedKeepsLive(queue: seq<Tid>, state: map<Tid, ThreadState>, k: nat, t: Tid)
    requires k <= |queue| && forall i :: 0 <= i < k ==> queue[i] !in state || IsDying(state[queue[i]])
    ensures t in queue[k..] ==> t in queue
    ensures t in queue && t in state && !IsDying(state[t]) ==> t in queue[k..]
  {
    if t in queue && t in state && !IsDying(state[t]) {
      var i :| 0 <= i < |queue| && queue[i] == t;
      assert queue[k..][i - k] == t;
    }
  }

  // ----- Giving the processor away -----

  // The front of the queue takes over.
  lemma {:induction false} DispatchKeeps(m: Machine)
    requires Places(m, None) && m.enabled && m.runnable != [] && StateOf(m, m.runnable[0]) == Runnable
    ensures var next := Swapped(m.(current := m.runnable[0], runnable := m.runnable[1..]));
            next.Some? && Inv(next.value)
  {
    var t := m.runnable[0];
    var m' := m.(current := t, runnable := m.runnable[1..], state := m.state[t := Running]);
    NoDupSuffix(m.runnable, 1);
    forall u | u in m'.state ensures ThreadOk(m', Some(t), u) {
      ThreadAt(m, None, u);
      assert u in m.runnable <==> u == t || u in m.runnable[1..];
    }
  }

  lemma {:induction false} IdleKeeps(m: Machine)
    requires Places(m, None) && m.enabled && m.runnable == []
    ensures var next := Swapped(m.(current := IDLE));
            next.Some? && Inv(next.value)
  {
    ThreadAt(m, None, IDLE);
    var m' := m.(current := IDLE, state := m.state[IDLE := Running]);
    forall u | u in m'.state ensures ThreadOk(m', Some(IDLE), u) {
      ThreadAt(m, None, u);
    }
  }

  /** A thread that has given up the processor yields to the next one, or to the idle thread. */
  lemma {:induction false} YieldKeeps(m: Machine)
    requires m.enabled && m.current != IDLE && Places(m, None)
    ensures Yielded(m).Some? && Inv(Yielded(m).value)
  {
    ClearKeeps(m, None);
    var m' := m.(runnable := Cleared(m.runnable, m.state));
    if m'.runnable == [] {
      IdleKeeps(m');
    } else {
      DispatchKeeps(m');
    }
  }

  /** The idle thread yields when there is something to run. */
  lemma {:induction false} IdleYieldKeeps(m: Machine)
    requires m.enabled && m.current == IDLE && IDLE in m.state && !IsDying(m.state[IDLE]) && IDLE !in m.runnable
    requires Places(m.(state := m.state[IDLE := Runnable]), None) && AnyLive(m.runnable, m.state)
    ensures Yielded(m).Some? && Inv(Yielded(m).value)
  {
    var m1 := m.(state := m.state[IDLE := Runnable]);
    var i :| 0 <= i < |m.runnable| && m.runnable[i] in m.state && !IsDying(m.state[m.runnable[i]]);
    assert m1.runnable[i] in m1.state && !IsDying(m1.state[m1.runnable[i]]);
    ClearKeeps(m1, None);
    ClearedIgnores(m.runnable, m.state, IDLE, Runnable);
    DispatchKeeps(m1.(runnable := Cleared(m.runnable, m.state)));
  }

  lemma {:induction false} ClearedIgnores(queue: seq<Tid>, state: map<Tid, ThreadState>, t: Tid, s: ThreadState)
    requires t !in queue
    ensures Cleared(queue, state[t := s]) == Cleared(queue, state)
  {
    if queue != [] { ClearedIgnores(queue[1..], state, t, s); }
  }

  // The idle thread gives up the processor.
  lemma {:induction false} IdleGivesUp(m: Machine)
    requires Inv(m) && m.current == IDLE
    ensures !IsDying(m.state[IDLE]) && IDLE !in m.runnable
    ensures Places(m.(enabled := true, state := m.state[IDLE := Runnable]), None)
  {
    var m' := m.(enabled := true, state := m.state[IDLE := Runnable]);
    ThreadAt(m, Some(IDLE), IDLE);
    forall t | t in m'.state ensures ThreadOk(m', None, t) {
      ThreadAt(m, Some(IDLE), t);
    }
  }

  lemma {:induction false} EnqueueKeeps(m: Machine, t: Tid)
    requires Inv(m.(runnable := m.runnable + [t])) && StateOf(m, t) == Runnable
    ensures Enqueued(m, t).Some? && Inv(Enqueued(m, t).value)
  {
    var m' := m.(runnable := m.runnable + [t]);
    if m.current == IDLE && m.enabled {
      IdleGivesUp(m');
      assert m'.runnable[|m.runnable|] == t;
      assert m'.(enabled := true) == m';
      IdleYieldKeeps(m');
    }
  }

  // ----- Every step keeps the invariant -----

  lemma {:induction false} StartKeeps(m: Machine, t: Tid)
    requires Inv(m) && StateOf(m, t) == Created && t != IDLE
    ensures Step(m, Start(t)).Some? && Inv(Step(m, Start(t)).value)
  {
    var m' := m.(runnable := m.runnable + [t], state := m.state[t := Runnable]);
    ThreadAt(m, Some(m.current), t);
    forall u | u in m'.state ensures ThreadOk(m', Some(m.current), u) {
      ThreadAt(m, Some(m.current), u);
    }
    EnqueueKeeps(m.(state := m.state[t := Runnable]), t);
  }

  lemma {:induction false} BootKeeps(m: Machine)
    requires Inv(m) && Allowed(m, Boot)
    ensures Step(m, Boot).Some? && Inv(Step(m, Boot).value)
  {
    IdleGivesUp(m);
    IdleYieldKeeps(m.(enabled := true));
  }

  function FallAsleep(m: Machine, n: nat): Machine {
    m.(ticks := m.ticks[m.current := n], sleeping := m.sleeping + [m.current], state := m.state[m.current := Sleeping])
  }

  lemma {:induction false} FallAsleepKeeps(m: Machine, n: nat)
    requires Inv(m) && m.current != IDLE && n >= 1
    ensures !IsDying(m.state[m.current]) && Places(FallAsleep(m, n), None)
  {
    var m' := FallAsleep(m, n);
    ThreadAt(m, Some(m.current), m.current);
    forall u | u in m'.state ensures ThreadOk(m', None, u) {
      ThreadAt(m, Some(m.current), u);
    }
  }

  lemma {:induction false} SleepKeeps(m: Machine, millis: nat)
    requires Inv(m) && m.current != IDLE
    ensures Step(m, SleepFor(millis)).Some? && Inv(Step(m, SleepFor(millis)).value)
  {
    FallAsleepKeeps(m, millis / 50 + 1);
    YieldKeeps(FallAsleep(m, millis / 50 + 1));
  }

  function JoinQueue(m: Machine, q: nat): Machine {
    m.(waits := m.waits[q := Waiting(m.waits, q) + [m.current]], state := m.state[m.current := Blocked(q)])
  }

  lemma {:induction false} BlockKeeps(m: Machine, q: nat)
    requires Inv(m) && m.current != IDLE
    ensures Step(m, BlockOn(q)).Some? && Inv(Step(m, BlockOn(q)).value)
  {
    JoinQueueKeeps(m, q);
    YieldKeeps(JoinQueue(m, q));
  }

  lemma {:induction false} JoinQueueKeeps(m: Machine, q: nat)
    requires Inv(m) && m.current != IDLE
    ensures !IsDying(m.state[m.current]) && Places(JoinQueue(m, q), None)
  {
    var t := m.current;
    ThreadAt(m, Some(t), t);
    var m' := JoinQueue(m, q);
    forall u | u in m'.state ensures ThreadOk(m', None, u) {
      ThreadAt(m, Some(t), u);
      forall p ensures u in Waiting(m'.waits, p) <==> u in Waiting(m.waits, p) || (u == t && p == q) {
      }
    }
    forall p ensures NoDup(Waiting(m'.waits, p)) && forall u :: u in Waiting(m'.waits, p) ==> u in m'.state {
      assert NoDup(Waiting(m.waits, p));
    }
  }

  function LeaveQueue(m: Machine, q: nat): Machine
    requires Waiting(m.waits, q) != []
  {
    m.(waits := m.waits[q := Waiting(m.waits, q)[1..]], state := m.state[Waiting(m.waits, q)[0] := Runnable])
  }

  lemma {:induction false} LeaveQueueKeeps(m: Machine, q: nat)
    requires Inv(m) && Waiting(m.waits, q) != [] && !WakesDying(m, WakeOne(q))
    ensures StateOf(m, Waiting(m.waits, q)[0]) == Blocked(q)
    ensures Inv(LeaveQueue(m, q).(runnable := m.runnable + [Waiting(m.waits, q)[0]]))
  {
    var queue := Waiting(m.waits, q);
    var t := queue[0];
    ThreadAt(m, Some(m.current), t);
    ThreadAt(m, Some(m.current), IDLE);
    assert t in Waiting(m.waits, q);
    var m' := LeaveQueue(m, q).(runnable := m.runnable + [t]);
    forall u | u in m'.state ensures ThreadOk(m', Some(m.current), u) {
      ThreadAt(m, Some(m.current), u);
      forall p ensures u in Waiting(m'.waits, p) <==> u in Waiting(m.waits, p) && !(u == t && p == q) {
        assert queue == [t] + queue[1..] && NoDup(queue);
      }
    }
    forall p ensures NoDup(Waiting(m'.waits, p)) && forall u :: u in Waiting(m'.waits, p) ==> u in m'.state {
      assert NoDup(Waiting(m.waits, p));
      if p == q { NoDupSuffix(queue, 1); }
    }
  }

  lemma {:induction false} WakeKeeps(m: Machine, q: nat)
    requires Inv(m) && !WakesDying(m, WakeOne(q))
    ensures Step(m, WakeOne(q)).Some? && Inv(Step(m, WakeOne(q)).value)
  {
    if Waiting(m.waits, q) != [] {
      LeaveQueueKeeps(m, q);
      EnqueueKeeps(LeaveQueue(m, q), Waiting(m.waits, q)[0]);
    }
  }

  lemma {:induction false} ExitKeeps(m: Machine)
    requires Inv(m) && m.current != IDLE
    ensures Step(m, Exit).Some? && Inv(Step(m, Exit).value)
  {
    var t := m.current;
    ThreadAt(m, Some(t), t);
    var m' := m.(state := m.state[t := Cleanup(NoList)]);
    forall u | u in m'.state ensures ThreadOk(m', None, u) {
      ThreadAt(m, Some(t), u);
    }
    YieldKeeps(m');
  }

  lemma {:induction false} KillKeeps(m: Machine, t: Tid)
    requires Inv(m) && Allowed(m, Kill(t))
    ensures Step(m, Kill(t)).Some? && Inv(Step(m, Kill(t)).value)
  {
    var m' := m.(state := m.state[t := Killed(StateOf(m, t))]);
    ThreadAt(m, Some(m.current), t);
    forall u | u in m'.state ensures ThreadOk(m', Some(m.current), u) {
      ThreadAt(m, Some(m.current), u);
    }
  }

  lemma {:induction false} FinishKeeps(m: Machine, t: Tid)
    requires Inv(m) && StateOf(m, t).Cleanup?
    ensures Step(m, Finish(t)).Some? && Inv(Step(m, Finish(t)).value)
  {
    var m' := m.(state := m.state[t := AfterCleanup(StateOf(m, t))]);
    ThreadAt(m, Some(m.current), t);
    forall u | u in m'.state ensures ThreadOk(m', Some(m.current), u) {
      ThreadAt(m, Some(m.current), u);
    }
  }

  // ----- The timer -----

  lemma {:induction false} WokenFrom(s: seq<Tid>, ticks: map<Tid, nat>, i: nat, t: Tid)
    requires i <= |s|
    ensures t in Due(s, ticks, i) <==> t in s[..i] && TicksOf(ticks, t) == 1
    ensures t in Kept(s, ticks, i) <==> t in s[..i] && TicksOf(ticks, t) != 1
  {
    if i > 0 {
      WokenFrom(s, ticks, i - 1, t);
      assert s[..i] == s[..i - 1] + [s[i - 1]];
    }
  }

  lemma {:induction false} WokenOnce(s: seq<Tid>, ticks: map<Tid, nat>, i: nat)
    requires i <= |s| && NoDup(s)
    ensures NoDup(Due(s, ticks, i)) && NoDup(Kept(s, ticks, i))
  {
    if i > 0 {
      WokenOnce(s, ticks, i - 1);
      WokenFrom(s, ticks, i - 1, s[i - 1]);
      NotBefore(s, i - 1);
    }
  }

  lemma {:induction false} NotBefore(s: seq<Tid>, i: nat)
    requires i < |s| && NoDup(s)
    ensures s[i] !in s[..i]
  {
  }

  lemma {:induction false} TickedAt(s: seq<Tid>, ticks: map<Tid, nat>, i: nat, t: Tid)
    requires i <= |s| && NoDup(s) && (t in s ==> TicksOf(ticks, t) >= 1)
    ensures TicksOf(Ticked(s, ticks, i), t) == TicksOf(ticks, t) - if t in s[..i] then 1 else 0
  {
    if i > 0 {
      TickedAt(s, ticks, i - 1, t);
      NotBefore(s, i - 1);
      assert s[..i] == s[..i - 1] + [s[i - 1]];
    }
  }

  lemma {:induction false} AllRunnableAt(state: map<Tid, ThreadState>, s: seq<Tid>, i: nat, t: Tid)
    requires i <= |s|
    ensures t in AllRunnable(state, s, i) <==> t in state || t in s[..i]
    ensures t in AllRunnable(state, s, i) ==> AllRunnable(state, s, i)[t] == if t in s[..i] then Runnable else state[t]
  {
    if i > 0 {
      AllRunnableAt(state, s, i - 1, t);
      assert s[..i] == s[..i - 1] + [s[i - 1]];
    }
  }

  // What one tick does to one thread.
  lemma {:induction false} TickOne(m: Machine, t: Tid)
    requires NoDup(m.sleeping) && (t in m.sleeping ==> TicksOf(m.ticks, t) >= 1 && t in m.state)
    ensures var m', due := AfterTick(m), t in m.sleeping && TicksOf(m.ticks, t) == 1;
            && (t in m'.state <==> t in m.state) && (t in m.state ==>
                                                       m'.state[t] == if due then Runnable else m.state[t])
            && (t in m'.sleeping <==> t in m.sleeping && !due) && (t in m'.runnable <==> t in m.runnable || due)
            && TicksOf(m'.ticks, t) == TicksOf(m.ticks, t) - if t in m.sleeping then 1 else 0
  {
    var s, n := m.sleeping, |m.sleeping|;
    var woken := Due(s, m.ticks, n);
    WokenFrom(s, m.ticks, n, t);
    TickedAt(s, m.ticks, n, t);
    AllRunnableAt(m.state, woken, |woken|, t);
    assert s[..n] == s && woken[..|woken|] == woken;
  }

  lemma {:induction false} TickKeepsQueues(m: Machine, r: Option<Tid>)
    requires Places(m, r)
    ensures QueuesOk(AfterTick(m))
  {
    var m' := AfterTick(m);
    var n := |m.sleeping|;
    WokenOnce(m.sleeping, m.ticks, n);
    forall t | t in m.sleeping || t in m.runnable || t in m'.runnable || t in m'.sleeping
      ensures t in m'.state && (t in m.runnable ==> t !in Due(m.sleeping, m.ticks, n))
    {
      if t in m.state { ThreadAt(m, r, t); }
      TickOne(m, t);
      WokenFrom(m.sleeping, m.ticks, n, t);
      assert m.sleeping[..n] == m.sleeping;
    }
    NoDupConcat(m.runnable, Due(m.sleeping, m.ticks, n));
    forall q, t | t in Waiting(m'.waits, q) ensures t in m'.state {
      assert t in Waiting(m.waits, q);
      ThreadAt(m, r, t);
      TickOne(m, t);
    }
  }

  lemma {:induction false} TickKeeps(m: Machine, r: Option<Tid>)
    requires Places(m, r) && m.enabled && !WakesDying(m, Tick)
    ensures SleepersTicked(m) == Some(AfterTick(m)) && Places(AfterTick(m), r)
  {
    var m' := AfterTick(m);
    var n := |m.sleeping|;
    forall t | t in Due(m.sleeping, m.ticks, n) ensures !IsDying(StateOf(m, t)) {
      WokenFrom(m.sleeping, m.ticks, n, t);
      assert m.sleeping[..n] == m.sleeping;
      ThreadAt(m, r, t);
    }
    TickKeepsQueues(m, r);
    ThreadAt(m, r, IDLE);
    TickOne(m, IDLE);
    if r.Some? { ThreadAt(m, r, r.value); TickOne(m, r.value); }
    forall t | t in m'.state ensures ThreadOk(m', r, t) {
      if t in m.state { ThreadAt(m, r, t); }
      TickOne(m, t);
    }
  }

  // The current thread goes to the back of the queue.
  lemma {:induction false} StepBackKeeps(m: Machine)
    requires Inv(m) && m.enabled
    ensures StateOf(m, m.current) == Running
    ensures Places(m.(runnable := m.runnable + [m.current], state := m.state[m.current := Runnable]), None)
  {
    var t := m.current;
    var m' := m.(runnable := m.runnable + [t], state := m.state[t := Runnable]);
    ThreadAt(m, Some(t), t);
    ThreadAt(m, Some(t), IDLE);
    forall u | u in m'.state ensures ThreadOk(m', None, u) {
      ThreadAt(m, Some(t), u);
    }
  }

  /** The timer never swaps to a thread that cannot run. */
  lemma {:induction false} PreemptKeeps(m: Machine)
    requires Inv(m) && !WakesDying(m, Tick)
    ensures Step(m, Tick).Some? && Inv(Step(m, Tick).value)
  {
    if m.enabled {
      TickKeeps(m, Some(m.current));
      var m1 := AfterTick(m);
      ClearKeeps(m1, Some(m.current));
      var m2 := m1.(runnable := Cleared(m1.runnable, m1.state));
      if m2.runnable != [] {
        StepBackKeeps(m2);
        var m3 := m2.(runnable := m2.runnable + [m2.current], state := m2.state[m2.current := Runnable]);
        assert m3.runnable[0] == m2.runnable[0];
        DispatchKeeps(m3);
      }
    }
  }

  /** A step panics exactly when it wakes a thread that was killed. */
  lemma {:induction false} PanicsExactly(m: Machine, op: Op)
    requires Inv(m) && Requested(m, op)
    ensures Step(m, op) == None <==> WakesDying(m, op)
  {
    if !WakesDying(m, op) {
      StepKeeps(m, op);
    } else if op == Tick {
      var t :| t in m.sleeping && TicksOf(m.ticks, t) == 1 && IsDying(StateOf(m, t));
      WokenFrom(m.sleeping, m.ticks, |m.sleeping|, t);
      assert m.sleeping[..|m.sleeping|] == m.sleeping;
    }
  }

  /** A process that is killed while a thread of it sleeps takes the kernel down on the tick that ends the sleep. */
  lemma {:induction false} KilledSleeperPanics(m: Machine, t: Tid)
    requires Inv(m) && m.enabled && t != IDLE && Asleep(m, t, 1)
    ensures Requested(m, Kill(t)) && Step(m, Kill(t)).Some? && Step(Step(m, Kill(t)).value, Tick) == None
  {
    ThreadAt(m, Some(m.current), t);
    StepKeeps(m, Kill(t));
    PanicsExactly(Step(m, Kill(t)).value, Tick);
  }

  /** No other kernel step panics, and each keeps every thread in one place that its state matches. */
  lemma {:induction false} StepKeeps(m: Machine, op: Op)
    requires Inv(m) && Allowed(m, op)
    ensures Step(m, op).Some? && Inv(Step(m, op).value)
  {
    match op
    case Start(t) => StartKeeps(m, t);
    case Boot => BootKeeps(m);
    case Tick => PreemptKeeps(m);
    case SleepFor(millis) => SleepKeeps(m, millis);
    case BlockOn(q) => BlockKeeps(m, q);
    case WakeOne(q) => WakeKeeps(m, q);
    case Exit => ExitKeeps(m);
    case Kill(t) => KillKeeps(m, t);
    case Finish(t) => FinishKeeps(m, t);
  }

  // ----- What each step does -----

  /** The first thread of the queue that is not dying takes the processor, or the idle thread if all are. */
  ghost predicate TakesOver(m: Machine, queue: seq<Tid>) {
    || (m.current == IDLE && m.runnable == [] && forall i :: 0 <= i < |queue| ==> IsDying(StateOf(m, queue[i])))
    || exists k :: FirstLive(m, queue, k)
  }

  ghost predicate FirstLive(m: Machine, queue: seq<Tid>, k: int) {
    && 0 <= k < |queue| && m.current == queue[k] && m.runnable == queue[k + 1..]
    && forall i :: 0 <= i < k ==> IsDying(StateOf(m, queue[i]))
  }

  /** The processor goes to the next thread of the queue; the current one is left with state s, the woken can run. */
  ghost predicate Switched(m: Machine, queue: seq<Tid>, s: ThreadState, woken: seq<Tid>, m': Machine) {
    && TakesOver(m', queue)
    && forall u :: StateOf(m', u) == if u == m'.current then Running else if u == m.current then s
                                     else if u in woken then Runnable else StateOf(m, u)
  }

  ghost predicate SameClock(m: Machine, m': Machine) { m'.sleeping == m.sleeping && m'.ticks == m.ticks }

  ghost predicate SameQueues(m: Machine, m': Machine) { forall q :: Waiting(m'.waits, q) == Waiting(m.waits, q) }

  /** The thread can run: at the back of the queue, or at once if the idle thread had the processor. */
  ghost predicate MadeRunnable(m: Machine, t: Tid, m': Machine) {
    && SameClock(m, m') && m'.enabled == m.enabled
    && if m.enabled && m.current == IDLE then Switched(m, m.runnable + [t], Runnable, [t], m')
       else
         && m'.current == m.current && m'.runnable == m.runnable + [t]
         && forall u :: StateOf(m', u) == if u == t then Runnable else StateOf(m, u)
  }

  /** The effect of each step, in terms of who runs, who waits where, and in which state. */
  ghost predicate Does(m: Machine, op: Op, m': Machine) {
    match op
    case Start(t) => SameQueues(m, m') && MadeRunnable(m, t, m')
    case Boot => m'.enabled && SameClock(m, m') && SameQueues(m, m') && Switched(m, m.runnable, Runnable, [], m')
    case Tick => if m.enabled then TimerFired(m, m') else m' == m
    case SleepFor(millis) =>
      && m'.enabled && SameQueues(m, m') && Switched(m, m.runnable, Sleeping, [], m')
      && m'.sleeping == m.sleeping + [m.current]
      && forall u :: TicksOf(m'.ticks, u) == if u == m.current then millis / 50 + 1 else TicksOf(m.ticks, u)
    case BlockOn(q) =>
      && m'.enabled && SameClock(m, m') && Switched(m, m.runnable, Blocked(q), [], m')
      && forall p :: Waiting(m'.waits, p) == Waiting(m.waits, p) + if p == q then [m.current] else []
    case WakeOne(q) =>
      if Waiting(m.waits, q) == [] then m' == m
      else
        && MadeRunnable(m, Waiting(m.waits, q)[0], m')
        && forall p :: Waiting(m'.waits, p) == Waiting(m.waits, p)[if p == q then 1 else 0..]
    case Exit =>
      m'.enabled && SameClock(m, m') && SameQueues(m, m') && Switched(m, m.runnable, Cleanup(NoList), [], m')
    case Kill(t) =>
      && m'.(state := m.state) == m && IsDying(StateOf(m', t))
      && (forall u :: u != t ==> StateOf(m', u) == StateOf(m, u))
      && (InSleepList(StateOf(m', t)) <==> InSleepList(StateOf(m, t)))
      && forall q :: InWaitList(StateOf(m', t), q) <==> InWaitList(StateOf(m, t), q)
    case Finish(t) =>
      && m'.(state := m.state) == m && (forall u :: u != t ==> StateOf(m', u) == StateOf(m, u))
      && StateOf(m, t).Cleanup? && StateOf(m', t) == Finished(StateOf(m, t).left)
  }

  /**
    Each sleeper has one tick less, and those that have none left join the queue in order.  If a thread of the
    queue can run, the first one does and the current one goes to the very back.
   */
  ghost predicate TimerFired(m: Machine, m': Machine) {
    var woken := Due(m.sleeping, m.ticks, |m.sleeping|);
    && m'.enabled && SameQueues(m, m') && m'.sleeping == Kept(m.sleeping, m.ticks, |m.sleeping|)
    && (forall u :: TicksOf(m'.ticks, u) == TicksOf(m.ticks, u) - if u in m.sleeping then 1 else 0)
    && (forall u :: u in woken <==> u in m.sleeping && TicksOf(m.ticks, u) == 1)
    && if AnyLive(m.runnable + woken, m.state) then Switched(m, m.runnable + woken + [m.current], Runnable, woken, m')
       else m'.runnable == [] && woken == [] && m'.current == m.current && forall u :: StateOf(m', u) == StateOf(m, u)
  }

  lemma {:induction false} YieldDoes(m: Machine, queue: seq<Tid>)
    requires m.enabled && Yielded(m).Some? && (m.current == IDLE ==> !IsDying(StateOf(m, IDLE)) && IDLE !in m.runnable)
    requires queue == m.runnable
    ensures var m' := Yielded(m).value;
            && TakesOver(m', queue) && m'.enabled && SameClock(m, m') && m'.waits == m.waits
            && forall u :: StateOf(m', u) == if u == m'.current then Running
                                             else if u == m.current == IDLE then Runnable else StateOf(m, u)
  {
    var m' := Yielded(m).value;
    var k := ClearedSuffix(queue, m.state);
    if k < |queue| {
      assert Cleared(queue, m.state)[0] == queue[k] && Cleared(queue, m.state)[1..] == queue[k + 1..];
      assert FirstLive(m', queue, k);
    }
  }

  lemma {:induction false} EnqueueDoes(m: Machine, t: Tid, was: Machine)
    requires Enqueued(m, t).Some? && StateOf(m, t) == Runnable && t != m.current && t != IDLE
    requires m.current == IDLE ==> !IsDying(StateOf(m, IDLE)) && IDLE !in m.runnable
    requires was.(state := m.state, waits := m.waits) == m
    requires forall u :: u != t ==> StateOf(m, u) == StateOf(was, u)
    ensures MadeRunnable(was, t, Enqueued(m, t).value) && Enqueued(m, t).value.waits == m.waits
  {
    if m.enabled && m.current == IDLE { YieldDoes(m.(runnable := m.runnable + [t]), m.runnable + [t]); }
  }

  lemma {:induction false} StartDoes(m: Machine, t: Tid)
    requires Inv(m) && Allowed(m, Start(t))
    ensures Step(m, Start(t)).Some? && Does(m, Start(t), Step(m, Start(t)).value)
  {
    StepKeeps(m, Start(t));
    ThreadAt(m, Some(m.current), t);
    ThreadAt(m, Some(m.current), IDLE);
    EnqueueDoes(m.(state := m.state[t := Runnable]), t, m);
  }

  lemma {:induction false} WakeDoes(m: Machine, q: nat)
    requires Inv(m) && Allowed(m, WakeOne(q))
    ensures Step(m, WakeOne(q)).Some? && Does(m, WakeOne(q), Step(m, WakeOne(q)).value)
  {
    StepKeeps(m, WakeOne(q));
    if Waiting(m.waits, q) != [] {
      LeaveQueueKeeps(m, q);
      ThreadAt(m, Some(m.current), m.current);
      ThreadAt(m, Some(m.current), IDLE);
      EnqueueDoes(LeaveQueue(m, q), Waiting(m.waits, q)[0], m);
    }
  }

  lemma {:induction false} BootDoes(m: Machine)
    requires Inv(m) && Allowed(m, Boot)
    ensures Step(m, Boot).Some? && Does(m, Boot, Step(m, Boot).value)
  {
    StepKeeps(m, Boot);
    ThreadAt(m, Some(m.current), IDLE);
    YieldDoes(m.(enabled := true), m.runnable);
  }

  // The current thread stops running and yields.
  lemma {:induction false} LeaveDoes(m: Machine, m1: Machine, s: ThreadState)
    requires m.enabled && m.current != IDLE && Yielded(m1).Some?
    requires m1.(sleeping := m.sleeping, ticks := m.ticks, waits := m.waits) == m.(state := m.state[m.current := s])
    ensures var m' := Yielded(m1).value;
            && m'.enabled && SameClock(m1, m') && m'.waits == m1.waits && Switched(m, m.runnable, s, [], m')
  {
    YieldDoes(m1, m.runnable);
  }

  lemma {:induction false} SleepDoes(m: Machine, millis: nat)
    requires Inv(m) && m.current != IDLE
    ensures Step(m, SleepFor(millis)).Some? && Does(m, SleepFor(millis), Step(m, SleepFor(millis)).value)
  {
    SleepKeeps(m, millis);
    ThreadAt(m, Some(m.current), m.current);
    LeaveDoes(m, FallAsleep(m, millis / 50 + 1), Sleeping);
  }

  lemma {:induction false} BlockDoes(m: Machine, q: nat)
    requires Inv(m) && m.current != IDLE
    ensures Step(m, BlockOn(q)).Some? && Does(m, BlockOn(q), Step(m, BlockOn(q)).value)
  {
    BlockKeeps(m, q);
    ThreadAt(m, Some(m.current), m.current);
    LeaveDoes(m, JoinQueue(m, q), Blocked(q));
  }

  lemma {:induction false} ExitDoes(m: Machine)
    requires Inv(m) && m.current != IDLE
    ensures Step(m, Exit).Some? && Does(m, Exit, Step(m, Exit).value)
  {
    ExitKeeps(m);
    LeaveDoes(m, m.(state := m.state[m.current := Cleanup(NoList)]), Cleanup(NoList));
  }

  lemma {:induction false} RotateDoes(m: Machine)
    requires Inv(m) && m.enabled && Rotate(m).Some?
    ensures var m' := Rotate(m).value;
            && m'.enabled && SameClock(m, m') && m'.waits == m.waits
            && if AnyLive(m.runnable, m.state) then Switched(m, m.runnable + [m.current], Runnable, [], m')
               else m' == m.(runnable := [])
  {
    var m' := Rotate(m).value;
    var k := ClearedSuffix(m.runnable, m.state);
    ThreadAt(m, Some(m.current), m.current);
    if k < |m.runnable| {
      var queue := m.runnable + [m.current];
      assert Cleared(m.runnable, m.state) + [m.current] == queue[k..];
      assert queue[k..][0] == queue[k] && queue[k..][1..] == queue[k + 1..];
      assert FirstLive(m', queue, k);
    }
  }

  lemma {:induction false} TickDoes(m: Machine)
    requires Inv(m) && Allowed(m, Tick)
    ensures Step(m, Tick).Some? && Does(m, Tick, Step(m, Tick).value)
  {
    StepKeeps(m, Tick);
    if m.enabled {
      TickKeeps(m, Some(m.current));
      RotateDoes(AfterTick(m));
      TimerDoes(m, Step(m, Tick).value);
    }
  }

  lemma {:induction false} TimerDoes(m: Machine, m': Machine)
    requires Inv(m) && Allowed(m, Tick) && m.enabled && Inv(AfterTick(m))
    requires var m1 := AfterTick(m);
             && m'.enabled && SameClock(m1, m') && m'.waits == m1.waits
             && if AnyLive(m1.runnable, m1.state) then Switched(m1, m1.runnable + [m1.current], Runnable, [], m')
                else m' == m1.(runnable := [])
    ensures TimerFired(m, m')
  {
    var m1, woken := AfterTick(m), Due(m.sleeping, m.ticks, |m.sleeping|);
    assert m.sleeping[..|m.sleeping|] == m.sleeping;
    forall u
      ensures TicksOf(m'.ticks, u) == TicksOf(m.ticks, u) - if u in m.sleeping then 1 else 0
      ensures u in woken <==> u in m.sleeping && TicksOf(m.ticks, u) == 1
      ensures StateOf(m1, u) == if u in woken then Runnable else StateOf(m, u)
      ensures u in m1.state <==> u in m.state
    {
      if u in m.state { ThreadAt(m, Some(m.current), u); }
      TickOne(m, u);
      WokenFrom(m.sleeping, m.ticks, |m.sleeping|, u);
    }
    TimerLive(m, m1, woken);
  }

  // Those that can run after the timer fired could do so before, or are woken by it.
  lemma {:induction false} TimerLive(m: Machine, m1: Machine, woken: seq<Tid>)
    requires m1.runnable == m.runnable + woken
    requires forall u :: u in woken ==> u in m.state && !IsDying(StateOf(m, u))
    requires forall u :: (u in m1.state <==> u in m.state)
                         && StateOf(m1, u) == if u in woken then Runnable else StateOf(m, u)
    ensures AnyLive(m1.runnable, m1.state) <==> AnyLive(m.runnable + woken, m.state)
    ensures !AnyLive(m1.runnable, m1.state) ==> woken == []
  {
    forall i | 0 <= i < |m1.runnable|
      ensures m1.runnable[i] in m1.state && !IsDying(m1.state[m1.runnable[i]]) <==>
              m1.runnable[i] in m.state && !IsDying(m.state[m1.runnable[i]])
    {
      var u := m1.runnable[i];
      assert StateOf(m1, u) == if u in woken then Runnable else StateOf(m, u);
    }
    if woken != [] {
      assert m1.runnable[|m.runnable|] == woken[0] && woken[0] in woken;
    }
  }

  /** Every allowed step does just that. */
  lemma {:induction false} StepDoes(m: Machine, op: Op)
    requires Inv(m) && Allowed(m, op)
    ensures Step(m, op).Some? && Does(m, op, Step(m, op).value)
  {
    match op
    case Start(t) => StartDoes(m, t);
    case Boot => BootDoes(m);
    case Tick => TickDoes(m);
    case SleepFor(millis) => SleepDoes(m, millis);
    case BlockOn(q) => BlockDoes(m, q);
    case WakeOne(q) => WakeDoes(m, q);
    case Exit => ExitDoes(m);
    case Kill(t) => KillDoes(m, t);
    case Finish(t) =>
  }

  lemma {:induction false} KillDoes(m: Machine, t: Tid)
    requires Inv(m) && Allowed(m, Kill(t))
    ensures Step(m, Kill(t)).Some? && Does(m, Kill(t), Step(m, Kill(t)).value)
  {
    StepKeeps(m, Kill(t));
  }

  // ----- Whole runs -----

  /** The kernel before boot: the idle thread runs, the others are not started. */
  predicate Initial(m: Machine) {
    && m.current == IDLE && !m.enabled && m.runnable == [] && m.sleeping == [] && m.waits == map[]
    && IDLE in m.state && forall t :: t in m.state ==> m.state[t] == Created
  }

  /** The states a run visits, one after each step; None once a step panics. */
  function Run(m: Machine, ops: seq<Op>): Option<Machine> {
    if ops == [] then Some(m)
    else
      var before := Run(m, ops[..|ops| - 1]);
      if before == None then None else Step(before.value, ops[|ops| - 1])
  }

  /** Every step of the run is one the kernel takes. */
  ghost predicate AllowedRun(m: Machine, ops: seq<Op>) {
    ops == [] || (AllowedRun(m, ops[..|ops| - 1])
                  && var before := Run(m, ops[..|ops| - 1]); before.Some? ==> Allowed(before.value, ops[|ops| - 1]))
  }

  lemma {:induction false} InitialInv(m: Machine)
    requires Initial(m)
    ensures Inv(m)
  {
    forall t | t in m.state ensures ThreadOk(m, Some(m.current), t) {
    }
  }

  /** No run panics: the invariant holds in every state reached. */
  lemma {:induction false} RunKeeps(m: Machine, ops: seq<Op>)
    requires Inv(m) && AllowedRun(m, ops)
    ensures Run(m, ops).Some? && Inv(Run(m, ops).value)
  {
    if ops != [] {
      RunKeeps(m, ops[..|ops| - 1]);
      StepKeeps(Run(m, ops[..|ops| - 1]).value, ops[|ops| - 1]);
    }
  }

  /** Every step of the run is asked for by the kernel, whether or not it panics. */
  ghost predicate RequestedRun(m: Machine, ops: seq<Op>) {
    ops == [] || (RequestedRun(m, ops[..|ops| - 1])
                  && var before := Run(m, ops[..|ops| - 1]); before.Some? ==> Requested(before.value, ops[|ops| - 1]))
  }

  /** No step of the run wakes a thread that was killed. */
  ghost predicate WakesNoneDying(m: Machine, ops: seq<Op>) {
    ops == [] || (WakesNoneDying(m, ops[..|ops| - 1])
                  && var before := Run(m, ops[..|ops| - 1]); before.Some? ==> !WakesDying(before.value, ops[|ops| - 1]))
  }

  /** A run panics exactly when a step of it wakes a thread that was killed. */
  lemma {:induction false} RunPanicsExactly(m: Machine, ops: seq<Op>)
    requires Inv(m) && RequestedRun(m, ops)
    ensures Run(m, ops).Some? <==> WakesNoneDying(m, ops)
    ensures Run(m, ops).Some? ==> Inv(Run(m, ops).value)
  {
    if ops != [] {
      var n := |ops| - 1;
      RunPanicsExactly(m, ops[..n]);
      if Run(m, ops[..n]).Some? {
        PanicsExactly(Run(m, ops[..n]).value, ops[n]);
        if !WakesDying(Run(m, ops[..n]).value, ops[n]) { StepKeeps(Run(m, ops[..n]).value, ops[n]); }
      }
    }
  }

  /** No thread was killed while it slept or waited. */
  ghost predicate NoneLeft(state: map<Tid, ThreadState>) {
    forall t :: t in state && IsDying(state[t]) ==> state[t].left == NoList
  }

  /** Threads are killed only while they neither sleep nor wait. */
  ghost predicate KillsAwake(m: Machine, ops: seq<Op>) {
    ops == [] || (KillsAwake(m, ops[..|ops| - 1])
                  && var before, op := Run(m, ops[..|ops| - 1]), ops[|ops| - 1];
                     before.Some? && op.Kill? ==>
                       !StateOf(before.value, op.t).Sleeping? && !StateOf(before.value, op.t).Blocked?)
  }

  lemma {:induction false} StepNoneLeft(m: Machine, op: Op)
    requires NoneLeft(m.state) && Step(m, op).Some?
    requires op.Kill? ==> !StateOf(m, op.t).Sleeping? && !StateOf(m, op.t).Blocked?
    ensures NoneLeft(Step(m, op).value.state)
  {
    match op
    case Start(t) => EnqueueNoneLeft(m.(state := m.state[t := Runnable]), t);
    case Boot => YieldNoneLeft(m.(enabled := true));
    case Tick =>
      if m.enabled {
        TickNoneLeft(m);
        RotateNoneLeft(AfterTick(m));
      }
    case SleepFor(millis) => YieldNoneLeft(FallAsleep(m, millis / 50 + 1));
    case BlockOn(q) => YieldNoneLeft(JoinQueue(m, q));
    case WakeOne(q) => WakeNoneLeft(m, q);
    case Exit => YieldNoneLeft(m.(state := m.state[m.current := Cleanup(NoList)]));
    case _ =>
  }

  lemma {:induction false} YieldNoneLeft(m: Machine)
    requires NoneLeft(m.state) && Yielded(m).Some?
    ensures NoneLeft(Yielded(m).value.state)
  {
  }

  lemma {:induction false} RotateNoneLeft(m: Machine)
    requires NoneLeft(m.state) && Rotate(m).Some?
    ensures NoneLeft(Rotate(m).value.state)
  {
  }

  lemma {:induction false} EnqueueNoneLeft(m: Machine, t: Tid)
    requires NoneLeft(m.state) && Enqueued(m, t).Some?
    ensures NoneLeft(Enqueued(m, t).value.state)
  {
    if m.current == IDLE { YieldNoneLeft(m.(runnable := m.runnable + [t])); }
  }

  lemma {:induction false} TickNoneLeft(m: Machine)
    requires NoneLeft(m.state)
    ensures NoneLeft(AfterTick(m).state)
  {
    var woken := Due(m.sleeping, m.ticks, |m.sleeping|);
    forall t | t in AfterTick(m).state && IsDying(AfterTick(m).state[t]) ensures AfterTick(m).state[t].left == NoList {
      AllRunnableAt(m.state, woken, |woken|, t);
    }
  }

  lemma {:induction false} WakeNoneLeft(m: Machine, q: nat)
    requires NoneLeft(m.state) && Released(m, q).Some?
    ensures NoneLeft(Released(m, q).value.state)
  {
    if Waiting(m.waits, q) != [] { EnqueueNoneLeft(LeaveQueue(m, q), Waiting(m.waits, q)[0]); }
  }

  /** If threads are killed only while they neither sleep nor wait, no run panics. */
  lemma {:induction false} AwakeKillsNeverPanic(m: Machine, ops: seq<Op>)
    requires Inv(m) && NoneLeft(m.state) && RequestedRun(m, ops) && KillsAwake(m, ops)
    ensures Run(m, ops).Some? && NoneLeft(Run(m, ops).value.state)
  {
    if ops != [] {
      var n := |ops| - 1;
      AwakeKillsNeverPanic(m, ops[..n]);
      RunPanicsExactly(m, ops[..n]);
      var before := Run(m, ops[..n]).value;
      NoneLeftWakesNone(before, ops[n]);
      PanicsExactly(before, ops[n]);
      StepNoneLeft(before, ops[n]);
    }
  }

  lemma {:induction false} NoneLeftWakesNone(m: Machine, op: Op)
    requires Inv(m) && NoneLeft(m.state)
    ensures !WakesDying(m, op)
  {
    forall t | t in m.state ensures ThreadOk(m, Some(m.current), t) { ThreadAt(m, Some(m.current), t); }
    if op.WakeOne? && Waiting(m.waits, op.q) != [] { assert Waiting(m.waits, op.q)[0] in Waiting(m.waits, op.q); }
  }

  /** In every state reached a thread is in at most one place, and a queued idle thread is not running. */
  lemma {:induction false} OnePlace(m: Machine, t: Tid, p: nat, q: nat)
    requires Inv(m) && t in m.state
    ensures t == m.current ==> t !in m.runnable && t !in m.sleeping && t !in Waiting(m.waits, q)
    ensures t in m.runnable ==> t !in m.sleeping && t !in Waiting(m.waits, q)
    ensures t in m.sleeping ==> t !in Waiting(m.waits, q)
    ensures t in Waiting(m.waits, p) && t in Waiting(m.waits, q) ==> p == q
  {
    ThreadAt(m, Some(m.current), t);
  }

  // ----- Bounded waiting -----

  /** t can run and has i threads ahead of it. */
  ghost predicate Queued(m: Machine, t: Tid, i: int) {
    0 <= i < |m.runnable| && m.runnable[i] == t && StateOf(m, t) == Runnable
  }

  function Ticks(ops: seq<Op>): nat {
    if ops == [] then 0 else Ticks(ops[..|ops| - 1]) + if ops[|ops| - 1] == Tick then 1 else 0
  }

  // Dropping dead threads moves t forward.
  lemma {:induction false} ClearAdvances(m: Machine, t: Tid, i: int) returns (i': int)
    requires Queued(m, t, i)
    ensures i' <= i && Queued(m.(runnable := Cleared(m.runnable, m.state)), t, i')
  {
    var k := ClearedSuffix(m.runnable, m.state);
    i' := i - k;
  }

  lemma {:induction false} SwapAdvances(m: Machine, t: Tid, i: int)
    requires Queued(m, t, i) && NoDup(m.runnable)
    requires var next := Swapped(m.(current := m.runnable[0], runnable := m.runnable[1..])); next.Some?
    ensures var next := Swapped(m.(current := m.runnable[0], runnable := m.runnable[1..])).value;
            next.current == t || Queued(next, t, i - 1)
  {
  }

  lemma {:induction false} YieldAdvances(m: Machine, t: Tid, i: int) returns (i': int)
    requires m.enabled && Queued(m, t, i) && NoDup(m.runnable) && Yielded(m).Some?
    ensures Yielded(m).value.current == t || (i' < i && Queued(Yielded(m).value, t, i'))
  {
    var j := ClearAdvances(m, t, i);
    var k := ClearedSuffix(m.runnable, m.state);
    NoDupSuffix(m.runnable, k);
    var state := if m.current == IDLE && !IsDying(StateOf(m, IDLE)) then m.state[IDLE := Runnable] else m.state;
    SwapAdvances(m.(runnable := Cleared(m.runnable, m.state), state := state), t, j);
    i' := j - 1;
  }

  lemma {:induction false} EnqueueAdvances(m: Machine, u: Tid, t: Tid, i: int) returns (i': int)
    requires Queued(m, t, i) && NoDup(m.runnable + [u]) && Enqueued(m, u).Some?
    ensures Enqueued(m, u).value.current == t || (i' <= i && Queued(Enqueued(m, u).value, t, i'))
  {
    i' := i;
    if m.current == IDLE && m.enabled { i' := YieldAdvances(m.(runnable := m.runnable + [u]), t, i); }
  }

  lemma {:induction false} PreemptAdvances(m: Machine, t: Tid, i: int) returns (i': int)
    requires Inv(m) && Allowed(m, Tick) && m.enabled && Queued(m, t, i)
    ensures Step(m, Tick).Some? && (Step(m, Tick).value.current == t || (i' < i && Queued(Step(m, Tick).value, t, i')))
  {
    PreemptKeeps(m);
    TickKeeps(m, Some(m.current));
    ThreadAt(m, Some(m.current), t);
    TickOne(m, t);
    var m1 := AfterTick(m);
    ClearKeeps(m1, Some(m.current));
    var j := ClearAdvances(m1, t, i);
    var m2 := m1.(runnable := Cleared(m1.runnable, m1.state));
    StepBackKeeps(m2);
    SwapAdvances(m2.(runnable := m2.runnable + [m2.current], state := m2.state[m2.current := Runnable]), t, j);
    i' := j - 1;
  }

  lemma {:induction false} StartAdvances(m: Machine, u: Tid, t: Tid, i: int) returns (i': int)
    requires Inv(m) && Allowed(m, Start(u)) && Queued(m, t, i)
    ensures Step(m, Start(u)).Some?
            && (Step(m, Start(u)).value.current == t || (i' <= i && Queued(Step(m, Start(u)).value, t, i')))
  {
    StepKeeps(m, Start(u));
    ThreadAt(m, Some(m.current), u);
    i' := EnqueueAdvances(m.(state := m.state[u := Runnable]), u, t, i);
  }

  lemma {:induction false} WakeAdvances(m: Machine, q: nat, t: Tid, i: int) returns (i': int)
    requires Inv(m) && Allowed(m, WakeOne(q)) && Queued(m, t, i)
    ensures Step(m, WakeOne(q)).Some?
            && (Step(m, WakeOne(q)).value.current == t || (i' <= i && Queued(Step(m, WakeOne(q)).value, t, i')))
  {
    StepKeeps(m, WakeOne(q));
    i' := i;
    if Waiting(m.waits, q) != [] {
      LeaveQueueKeeps(m, q);
      i' := EnqueueAdvances(LeaveQueue(m, q), Waiting(m.waits, q)[0], t, i);
    }
  }

  // The current thread stops running and yields.
  lemma {:induction false} LeaveAdvances(m: Machine, op: Op, t: Tid, i: int) returns (i': int)
    requires Inv(m) && Allowed(m, op) && (op.SleepFor? || op.BlockOn? || op.Exit?) && Queued(m, t, i)
    ensures Step(m, op).Some? && (Step(m, op).value.current == t || (i' <= i && Queued(Step(m, op).value, t, i')))
  {
    StepKeeps(m, op);
    ThreadAt(m, Some(m.current), m.current);
    ThreadAt(m, Some(m.current), t);
    match op
    case SleepFor(millis) => i' := YieldAdvances(FallAsleep(m, millis / 50 + 1), t, i);
    case BlockOn(q) => i' := YieldAdvances(JoinQueue(m, q), t, i);
    case Exit => i' := YieldAdvances(m.(state := m.state[m.current := Cleanup(NoList)]), t, i);
  }

  /** No step moves a waiting thread back, and every tick moves it forward. */
  lemma {:induction false} StepAdvances(m: Machine, op: Op, t: Tid, i: int) returns (i': int)
    requires Inv(m) && Allowed(m, op) && m.enabled && Queued(m, t, i) && op != Kill(t)
    ensures Step(m, op).Some? && Step(m, op).value.enabled
    ensures Step(m, op).value.current == t
            || (Queued(Step(m, op).value, t, i') && i' <= i - if op == Tick then 1 else 0)
  {
    i' := i;
    match op
    case Start(u) => i' := StartAdvances(m, u, t, i);
    case Boot => assert false;
    case Tick => i' := PreemptAdvances(m, t, i);
    case WakeOne(q) => i' := WakeAdvances(m, q, t, i);
    case Kill(u) => StepKeeps(m, op);
    case Finish(u) => StepKeeps(m, op);
    case _ => i' := LeaveAdvances(m, op, t, i);
  }

  ghost predicate RanBy(m: Machine, ops: seq<Op>, t: Tid) {
    exists j {:trigger ops[..j]} :: 0 <= j <= |ops| && Run(m, ops[..j]).Some? && Run(m, ops[..j]).value.current == t
  }

  lemma {:induction false} RanByLonger(m: Machine, ops: seq<Op>, n: nat, t: Tid)
    requires n <= |ops| && RanBy(m, ops[..n], t)
    ensures RanBy(m, ops, t)
  {
    var j :| 0 <= j <= n && Run(m, ops[..n][..j]).Some? && Run(m, ops[..n][..j]).value.current == t;
    assert ops[..n][..j] == ops[..j];
  }

  // Until t runs, each tick leaves one thread fewer ahead of it.
  lemma {:induction false} RunAdvances(m: Machine, ops: seq<Op>, t: Tid, i: int) returns (i': int)
    requires Inv(m) && AllowedRun(m, ops) && m.enabled && Queued(m, t, i) && Kill(t) !in ops
    ensures Run(m, ops).Some? && Run(m, ops).value.enabled
    ensures RanBy(m, ops, t) || (Queued(Run(m, ops).value, t, i') && i' + Ticks(ops) <= i)
  {
    i' := i;
    RunKeeps(m, ops);
    if ops != [] {
      var n := |ops| - 1;
      i' := RunAdvances(m, ops[..n], t, i);
      if RanBy(m, ops[..n], t) {
        RanByLonger(m, ops, n, t);
        StepStaysEnabled(Run(m, ops[..n]).value, ops[n]);
      } else {
        RunKeeps(m, ops[..n]);
        i' := StepAdvances(Run(m, ops[..n]).value, ops[n], t, i');
        assert ops[..n + 1] == ops;
      }
    }
  }

  lemma {:induction false} StepStaysEnabled(m: Machine, op: Op)
    requires m.enabled && Step(m, op).Some?
    ensures Step(m, op).value.enabled
  {
  }

  /**
   * A thread with i others ahead of it runs before the timer has fired i + 1 times, whatever else
   * happens, unless it is killed.
   */
  lemma {:induction false} BoundedWaiting(m: Machine, ops: seq<Op>, t: Tid, i: int)
    requires Inv(m) && AllowedRun(m, ops) && m.enabled && Queued(m, t, i) && Kill(t) !in ops
    requires Ticks(ops) >= i + 1
    ensures RanBy(m, ops, t)
  {
    var i' := RunAdvances(m, ops, t, i);
  }

  // ----- Exact sleep -----

  /** t sleeps and n more ticks will wake it. */
  ghost predicate Asleep(m: Machine, t: Tid, n: nat) {
    StateOf(m, t) == Sleeping && TicksOf(m.ticks, t) == n
  }

  lemma {:induction false} YieldLeavesAsleep(m: Machine, t: Tid, n: nat)
    requires Yielded(m).Some? && Asleep(m, t, n) && t != IDLE
    ensures Asleep(Yielded(m).value, t, n)
  {
  }

  /** Sleeping for some milliseconds counts the whole timer periods of 50 in them, and one more. */
  lemma {:induction false} SleepSets(m: Machine, millis: nat)
    requires Inv(m) && m.current != IDLE
    ensures Step(m, SleepFor(millis)).Some? && Asleep(Step(m, SleepFor(millis)).value, m.current, millis / 50 + 1)
  {
    SleepKeeps(m, millis);
    ThreadAt(m, Some(m.current), m.current);
    YieldLeavesAsleep(FallAsleep(m, millis / 50 + 1), m.current, millis / 50 + 1);
  }

  lemma {:induction false} RotateLeavesAsleep(m: Machine, t: Tid, n: nat)
    requires Rotate(m).Some? && Asleep(m, t, n) && t != m.current
    ensures Asleep(Rotate(m).value, t, n)
  {
  }

  lemma {:induction false} RotateKeepsQueued(m: Machine, t: Tid)
    requires Rotate(m).Some? && t in m.runnable && StateOf(m, t) == Runnable && t != m.current
    ensures Rotate(m).value.current == t || t in Rotate(m).value.runnable
    ensures StateOf(Rotate(m).value, t) == Runnable || StateOf(Rotate(m).value, t) == Running
  {
    var k := ClearedSuffix(m.runnable, m.state);
    ClearedKeepsLive(m.runnable, m.state, k, t);
    var queue := Cleared(m.runnable, m.state) + [m.current];
    assert t in m.runnable[k..] && t in queue;
    assert queue == [queue[0]] + queue[1..];
    assert t == queue[0] || t in queue[1..];
    assert m.runnable[k..] != [];
  }

  lemma {:induction false} TickWakes(m: Machine, t: Tid, n: nat)
    requires Inv(m) && Allowed(m, Tick) && m.enabled && Asleep(m, t, n)
    ensures n >= 1 && Step(m, Tick).Some?
    ensures n > 1 ==> Asleep(Step(m, Tick).value, t, n - 1)
    ensures n == 1 ==> Step(m, Tick).value.current == t || t in Step(m, Tick).value.runnable
    ensures n == 1 ==> StateOf(Step(m, Tick).value, t) != Sleeping
  {
    PreemptKeeps(m);
    ThreadAt(m, Some(m.current), t);
    ThreadAt(m, Some(m.current), m.current);
    TickKeeps(m, Some(m.current));
    TickOne(m, t);
    if n > 1 {
      RotateLeavesAsleep(AfterTick(m), t, n - 1);
    } else {
      RotateKeepsQueued(AfterTick(m), t);
    }
  }

  // Other steps leave a sleeper alone.
  lemma {:induction false} StepLeavesAsleep(m: Machine, op: Op, t: Tid, n: nat)
    requires Inv(m) && Allowed(m, op) && m.enabled && Asleep(m, t, n) && op != Tick && op != Kill(t)
    ensures Step(m, op).Some? && Asleep(Step(m, op).value, t, n)
  {
    StepKeeps(m, op);
    ThreadAt(m, Some(m.current), t);
    ThreadAt(m, Some(m.current), m.current);
    match op
    case Start(u) => EnqueueLeavesAsleep(m.(state := m.state[u := Runnable]), u, t, n);
    case Boot => assert false;
    case SleepFor(millis) => YieldLeavesAsleep(FallAsleep(m, millis / 50 + 1), t, n);
    case BlockOn(q) => YieldLeavesAsleep(JoinQueue(m, q), t, n);
    case Exit => YieldLeavesAsleep(m.(state := m.state[m.current := Cleanup(NoList)]), t, n);
    case WakeOne(q) =>
      if Waiting(m.waits, q) != [] {
        LeaveQueueKeeps(m, q);
        EnqueueLeavesAsleep(LeaveQueue(m, q), Waiting(m.waits, q)[0], t, n);
      }
    case Kill(u) => ThreadAt(m, Some(m.current), u);
    case Finish(u) =>
  }

  lemma {:induction false} EnqueueLeavesAsleep(m: Machine, u: Tid, t: Tid, n: nat)
    requires Enqueued(m, u).Some? && Asleep(m, t, n) && t != IDLE
    ensures Asleep(Enqueued(m, u).value, t, n)
  {
    if m.current == IDLE { YieldLeavesAsleep(m.(runnable := m.runnable + [u]), t, n); }
  }

  /** Through any run with fewer than n ticks the sleeper stays asleep, its counter down by the ticks. */
  lemma {:induction false} StaysAsleep(m: Machine, ops: seq<Op>, t: Tid, n: nat)
    requires Inv(m) && AllowedRun(m, ops) && m.enabled && Asleep(m, t, n) && Ticks(ops) < n && Kill(t) !in ops
    ensures Run(m, ops).Some? && Run(m, ops).value.enabled && Asleep(Run(m, ops).value, t, n - Ticks(ops))
  {
    if ops != [] {
      var k := |ops| - 1;
      StaysAsleep(m, ops[..k], t, n);
      RunKeeps(m, ops[..k]);
      var before := Run(m, ops[..k]).value;
      if ops[k] == Tick {
        TickWakes(before, t, n - Ticks(ops[..k]));
      } else {
        StepLeavesAsleep(before, ops[k], t, n - Ticks(ops));
      }
      StepStaysEnabled(before, ops[k]);
    }
  }

  /** The n-th tick is the one that makes the sleeper runnable. */
  lemma {:induction false} ExactSleep(m: Machine, ops: seq<Op>, t: Tid, n: nat)
    requires Inv(m) && AllowedRun(m, ops) && m.enabled && Asleep(m, t, n) && Kill(t) !in ops
    requires ops != [] && ops[|ops| - 1] == Tick && Ticks(ops) == n
    ensures Run(m, ops).Some? && StateOf(Run(m, ops).value, t) != Sleeping
    ensures Run(m, ops).value.current == t || t in Run(m, ops).value.runnable
  {
    var k := |ops| - 1;
    StaysAsleep(m, ops[..k], t, n);
    RunKeeps(m, ops[..k]);
    TickWakes(Run(m, ops[..k]).value, t, 1);
  }

  // ----- The code -----

  // The walk over the sleepers of m has visited i of them; the next one is at this position.
  ghost predicate Walked(m: Machine, m': Machine, i: nat, next: nat)
    requires i <= |m.sleeping|
  {
    var still, woken := Kept(m.sleeping, m.ticks, i), Due(m.sleeping, m.ticks, i);
    && m'.sleeping == still + m.sleeping[i..] && next == |still|
    && m' == m.(sleeping := m'.sleeping, runnable := m.runnable + woken, ticks := Ticked(m.sleeping, m.ticks, i),
                state := AllRunnable(m.state, woken, |woken|))
  }

  lemma {:induction false} TickedElsewhere(s: seq<Tid>, ticks: map<Tid, nat>, i: nat, t: Tid)
    requires i < |s| && NoDup(s) && s[i] == t
    ensures TicksOf(Ticked(s, ticks, i), t) == TicksOf(ticks, t)
  {
    NotBefore(s, i);
    TickedBefore(s, ticks, i, t);
  }

  lemma {:induction false} TickedBefore(s: seq<Tid>, ticks: map<Tid, nat>, i: nat, t: Tid)
    requires i <= |s| && t !in s[..i]
    ensures TicksOf(Ticked(s, ticks, i), t) == TicksOf(ticks, t)
  {
    if i > 0 { TickedBefore(s, ticks, i - 1, t); }
  }

  lemma {:induction false} WalkNext(m: Machine, m': Machine, i: nat, next: nat)
    requires i <= |m.sleeping| && NoDup(m.sleeping) && Walked(m, m', i, next) && next < |m'.sleeping|
    ensures i < |m.sleeping| && m'.sleeping[next] == m.sleeping[i]
            && TicksOf(m'.ticks, m.sleeping[i]) == TicksOf(m.ticks, m.sleeping[i])
  {
    TickedElsewhere(m.sleeping, m.ticks, i, m.sleeping[i]);
  }

  lemma {:induction false} WalkStays(m: Machine, m': Machine, i: nat, next: nat, left: nat)
    requires i < |m.sleeping| && Walked(m, m', i, next) && TicksOf(m.ticks, m.sleeping[i]) != 1
    requires left == if TicksOf(m'.ticks, m.sleeping[i]) == 0 then U64_LIMIT - 1
             else TicksOf(m'.ticks, m.sleeping[i]) - 1
    ensures Walked(m, m'.(ticks := m'.ticks[m.sleeping[i] := left]), i + 1, next + 1)
  {
    var still, t := Kept(m.sleeping, m.ticks, i), m.sleeping[i];
    assert m.sleeping[i..] == [t] + m.sleeping[i + 1..];
    assert still + ([t] + m.sleeping[i + 1..]) == (still + [t]) + m.sleeping[i + 1..];
    assert Due(m.sleeping, m.ticks, i + 1) == Due(m.sleeping, m.ticks, i) + [] == Due(m.sleeping, m.ticks, i);
  }

  lemma {:induction false} WalkStart(m: Machine)
    ensures Walked(m, m, 0, 0)
  {
    assert [] + m.sleeping[0..] == m.sleeping && m.runnable + [] == m.runnable;
  }

  lemma {:induction false} WalkWakes(m: Machine, m': Machine, i: nat, next: nat)
    requires i < |m.sleeping| && Walked(m, m', i, next)
             && TicksOf(m.ticks, m.sleeping[i]) == 1 == TicksOf(m'.ticks, m.sleeping[i])
    requires next < |m'.sleeping|
    ensures var t := m.sleeping[i];
            Walked(m, m'.(sleeping := m'.sleeping[..next] + m'.sleeping[next + 1..], runnable := m'.runnable + [t],
                          ticks := m'.ticks[t := 0], state := m'.state[t := Runnable]), i + 1, next)
  {
    var still := Kept(m.sleeping, m.ticks, i);
    assert m.sleeping[i..] == [m.sleeping[i]] + m.sleeping[i + 1..];
    assert m'.sleeping[..next] == still && m'.sleeping[next + 1..] == m.sleeping[i + 1..];
    var woken := Due(m.sleeping, m.ticks, i);
    assert m.runnable + (woken + [m.sleeping[i]]) == (m.runnable + woken) + [m.sleeping[i]];
    AllRunnableMore(m.state, woken, m.sleeping[i]);
  }

  lemma {:induction false} AllRunnableMore(state: map<Tid, ThreadState>, s: seq<Tid>, t: Tid)
    ensures AllRunnable(state, s + [t], |s| + 1) == AllRunnable(state, s, |s|)[t := Runnable]
  {
    AllRunnablePrefix(state, s, t, |s|);
  }

  lemma {:induction false} AllRunnablePrefix(state: map<Tid, ThreadState>, s: seq<Tid>, t: Tid, i: nat)
    requires i <= |s|
    ensures AllRunnable(state, s + [t], i) == AllRunnable(state, s, i)
  {
    if i > 0 { AllRunnablePrefix(state, s, t, i - 1); }
  }

  lemma {:induction false} WalkDone(m: Machine, m': Machine, i: nat, next: nat)
    requires i <= |m.sleeping| && Walked(m, m', i, next) && next >= |m'.sleeping|
    ensures m' == AfterTick(m)
  {
    assert i == |m.sleeping| && m.sleeping[i..] == [];
  }

  // Waking does not meet a dying thread.
  lemma {:induction false} WalkAlive(m: Machine, m': Machine, i: nat, next: nat)
    requires i < |m.sleeping| && Walked(m, m', i, next) && TicksOf(m.ticks, m.sleeping[i]) == 1
             && SleepersTicked(m).Some?
    ensures !IsDying(StateOf(m', m.sleeping[i]))
  {
    var t := m.sleeping[i];
    var woken := Due(m.sleeping, m.ticks, i);
    WokenFrom(m.sleeping, m.ticks, |m.sleeping|, t);
    assert m.sleeping[..|m.sleeping|] == m.sleeping;
    AllRunnableAt(m.state, woken, |woken|, t);
  }

  class Scheduler {
    var current: Tid
    var enabled: bool
    var runnable: seq<Tid>
    var sleeping: seq<Tid>
    var waits: map<nat, seq<Tid>>
    var state: map<Tid, ThreadState>
    var ticks: map<Tid, nat>

    function Now(): Machine
      reads this
    {
      Machine(current, enabled, runnable, sleeping, waits, state, ticks)
    }

    constructor (threads: set<Tid>)
      requires IDLE in threads
      ensures Initial(Now()) && Inv(Now()) && state.Keys == threads
    {
      current, enabled, runnable, sleeping, waits, ticks := IDLE, false, [], [], map[], map[];
      state := map t | t in threads :: Created;
      new;
      InitialInv(Now());
    }

    // Panics on a dying thread.
    method SetState(t: Tid, s: ThreadState)
      requires !IsDying(StateOf(Now(), t))
      modifies this`state
      ensures WithState(old(Now()), t, s) == Some(Now())
    {
      state := state[t := s];
    }

    // Panics unless the thread to run is runnable.
    method SwapToCurrent()
      requires StateOf(Now(), current) == Runnable
      modifies this`state
      ensures Swapped(old(Now())) == Some(Now())
    {
      state := state[current := Running];
    }

    method ClearDeadThreadsFromFront()
      modifies this`runnable
      ensures runnable == Cleared(old(runnable), state)
    {
      while |runnable| > 0 && (runnable[0] !in state || IsDying(state[runnable[0]]))
        invariant Cleared(runnable, state) == Cleared(old(runnable), state)
        decreases |runnable|
      {
        runnable := runnable[1..];
      }
    }

    /** Visits each sleeper once although it takes threads off the list as it goes. */
    method DecrementSleepingThreads()
      requires NoDup(sleeping) && SleepersTicked(Now()).Some?
      modifies this`sleeping, this`runnable, this`ticks, this`state
      ensures SleepersTicked(old(Now())) == Some(Now())
    {
      ghost var m := Now();
      WalkStart(m);
      ghost var i, next := WalkAll(m);
      WalkDone(m, Now(), i, next);
    }

    method WalkAll(ghost m: Machine) returns (ghost i: nat, ghost end: nat)
      requires NoDup(m.sleeping) && SleepersTicked(m).Some? && Walked(m, Now(), 0, 0)
      modifies this`sleeping, this`runnable, this`ticks, this`state
      ensures i <= |m.sleeping| && Walked(m, Now(), i, end) && end >= |sleeping|
    {
      i := 0;
      var next := 0;
      while next < |sleeping|
        invariant 0 <= i <= |m.sleeping| && 0 <= next <= |sleeping| && Walked(m, Now(), i, next)
        decreases |m.sleeping| - i
      {
        WalkNext(m, Now(), i, next);
        next := Visit(next, m, i);
        i := i + 1;
      }
      end := next;
    }

    // One more sleeper; m is the state the walk began in.
    method Visit(next: nat, ghost m: Machine, ghost i: nat) returns (next': nat)
      requires NoDup(m.sleeping) && SleepersTicked(m).Some? && i < |m.sleeping| && next < |sleeping|
               && Walked(m, Now(), i, next)
      requires sleeping[next] == m.sleeping[i] && TicksOf(ticks, m.sleeping[i]) == TicksOf(m.ticks, m.sleeping[i])
      modifies this`sleeping, this`runnable, this`ticks, this`state
      ensures Walked(m, Now(), i + 1, next') && next' <= |sleeping|
    {
      var t := sleeping[next];
      if TicksOf(ticks, t) == 1 {
        WalkAlive(m, Now(), i, next);
        WalkWakes(m, Now(), i, next);
      } else {
        WalkStays(m, Now(), i, next, if TicksOf(ticks, t) == 0 then U64_LIMIT - 1 else TicksOf(ticks, t) - 1);
      }
      ticks := ticks[t := if t !in ticks || ticks[t] == 0 then U64_LIMIT - 1 else ticks[t] - 1];
      next' := next;
      if ticks[t] == 0 {
        sleeping := sleeping[..next] + sleeping[next + 1..];
        SetState(t, Runnable);
        runnable := runnable + [t];
      } else {
        next' := next + 1;
      }
    }

    method Yield()
      requires Yielded(Now()).Some?
      modifies this
      ensures Yielded(old(Now())) == Some(Now())
    {
      if !enabled {
        return;
      }
      ClearDeadThreadsFromFront();
      var prev := current;
      if prev == IDLE {
        current, runnable := runnable[0], runnable[1..];
        if !IsDying(StateOf(Now(), prev)) {
          SetState(prev, Runnable);
        }
      } else if |runnable| == 0 {
        current := IDLE;
      } else {
        current, runnable := runnable[0], runnable[1..];
      }
      SwapToCurrent();
    }

    method Enqueue(t: Tid)
      requires Enqueued(Now(), t).Some?
      modifies this
      ensures Enqueued(old(Now()), t) == Some(Now())
    {
      runnable := runnable + [t];
      if current == IDLE {
        Yield();
      }
    }

    method Preempt()
      requires Inv(Now()) && Allowed(Now(), Tick)
      modifies this
      ensures Preempted(old(Now())) == Some(Now()) && Inv(Now()) && Does(old(Now()), Tick, Now())
    {
      PreemptKeeps(Now());
      TickDoes(Now());
      if !enabled {
        return;
      }
      TickKeeps(Now(), Some(current));
      DecrementSleepingThreads();
      ghost var m := Now();
      ClearDeadThreadsFromFront();
      if |runnable| == 0 {
        return;
      }
      var prev := current;
      SetState(prev, Runnable);
      runnable := runnable + [prev];
      current, runnable := runnable[0], runnable[1..];
      SwapToCurrent();
    }

    method Sleep(millis: nat)
      requires Inv(Now()) && current != IDLE
      modifies this
      ensures PutToSleep(old(Now()), millis) == Some(Now()) && Inv(Now()) && Does(old(Now()), SleepFor(millis), Now())
    {
      SleepKeeps(Now(), millis);
      SleepDoes(Now(), millis);
      ticks := ticks[current := millis / 50 + 1];
      SetState(current, Sleeping);
      sleeping := sleeping + [current];
      Yield();
    }

    /** The current thread waits in queue q. */
    method Block(q: nat)
      requires Inv(Now()) && current != IDLE
      modifies this
      ensures Parked(old(Now()), q) == Some(Now()) && Inv(Now()) && Does(old(Now()), BlockOn(q), Now())
    {
      BlockKeeps(Now(), q);
      BlockDoes(Now(), q);
      SetState(current, Blocked(q));
      waits := waits[q := Waiting(waits, q) + [current]];
      Yield();
    }

    /** The first thread waiting in queue q is let go. */
    method Wake(q: nat)
      requires Inv(Now()) && Allowed(Now(), WakeOne(q))
      modifies this
      ensures Released(old(Now()), q) == Some(Now()) && Inv(Now()) && Does(old(Now()), WakeOne(q), Now())
    {
      WakeKeeps(Now(), q);
      WakeDoes(Now(), q);
      if |Waiting(waits, q)| > 0 {
        var t := waits[q][0];
        waits := waits[q := waits[q][1..]];
        SetState(t, Runnable);
        Enqueue(t);
      }
    }

    /** One kernel step; never a panic. */
    method Perform(op: Op)
      requires Inv(Now()) && Allowed(Now(), op)
      modifies this
      ensures Step(old(Now()), op) == Some(Now()) && Inv(Now()) && Does(old(Now()), op, Now())
    {
      StepKeeps(Now(), op);
      StepDoes(Now(), op);
      match op {
        case Start(t) => state := state[t := Runnable]; Enqueue(t);
        case Boot => enabled := true; Yield();
        case Tick => Preempt();
        case SleepFor(millis) => Sleep(millis);
        case BlockOn(q) => Block(q);
        case WakeOne(q) => Wake(q);
        case Exit => state := state[current := Cleanup(NoList)]; Yield();
        case Kill(t) => SetState(t, Killed(StateOf(Now(), t)));
        case Finish(t) => state := state[t := AfterCleanup(StateOf(Now(), t))];
      }
    }
  }
}
