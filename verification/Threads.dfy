/** The scheduler: run queues under a bitmap, wait queues, sleeping threads, and what each
    call on them does to the state of all threads. A context switch changes the current thread. */
module Threads {
  import opened Options
  import opened RunBitmap

  const NO_ERROR := 0
  const ERR_NOT_SUSPENDED := -10
  const ERR_NOT_BLOCKED := -12
  const ERR_TIMED_OUT := -13

  const QUANTUM := 5
  const IDLE_PRIORITY := 0

  type Tid = nat
  type Qid = nat

  datatype Status = Suspended | Ready | Running | Blocked | Sleeping | Dead

  /** `waiting` is blocking_wait_queue, `ret` is wait_queue_block_ret. */
  datatype Thread = Thread(priority: nat, status: Status, quantum: int, waiting: Option<Qid>, ret: int)

  datatype WaitQueue = WaitQueue(list: seq<Tid>, count: int)

  /** `boot` is the thread that becomes the idle thread, `idling` once it has; `sleepers`
      and `timeouts` are the threads with a sleep timer or a wait timeout pending. */
  datatype State = State(
    threads: map<Tid, Thread>, run: seq<seq<Tid>>, bitmap: bv32, current: Tid,
    boot: Tid, idling: bool, waits: map<Qid, WaitQueue>, sleepers: set<Tid>, timeouts: set<Tid>)

  // ---- queues ----

  predicate Distinct(q: seq<Tid>) {
    forall i, j | 0 <= i < j < |q| :: q[i] != q[j]
  }

  function Remove(q: seq<Tid>, t: Tid): seq<Tid> {
    if q == [] then [] else if q[0] == t then q[1..] else [q[0]] + Remove(q[1..], t)
  }

  lemma {:induction false} RemoveIs(q: seq<Tid>, t: Tid)
    requires Distinct(q)
    ensures Distinct(Remove(q, t)) && forall u :: u in Remove(q, t) <==> u in q && u != t
    ensures |Remove(q, t)| == |q| - (if t in q then 1 else 0)
    decreases |q|
  {
    if q != [] {
      var x, rest := q[0], q[1..];
      assert x !in rest;
      RemoveIs(rest, t);
      assert forall u :: u in q <==> u == x || u in rest;
    }
  }

  /** The others stay, in their order. */
  lemma {:induction false} RemoveSplits(q: seq<Tid>, t: Tid) returns (i: nat)
    requires t in q
    ensures i < |q| && q[i] == t && Remove(q, t) == q[..i] + q[i + 1..]
    decreases |q|
  {
    i := 0;
    if q[0] != t {
      i := RemoveSplits(q[1..], t);
      i := i + 1;
      assert q[..i] == [q[0]] + q[1..][..i - 1];
    }
  }

  lemma DistinctAdd(q: seq<Tid>, t: Tid)
    requires Distinct(q) && t !in q
    ensures Distinct([t] + q) && Distinct(q + [t])
    ensures forall u :: u in [t] + q <==> u == t || u in q
    ensures forall u :: u in q + [t] <==> u == t || u in q
  {
  }

  lemma DistinctTail(q: seq<Tid>)
    requires Distinct(q) && q != []
    ensures Distinct(q[1..]) && forall u :: u in q[1..] <==> u in q && u != q[0]
  {
    forall u | u in q && u != q[0]
      ensures u in q[1..]
    {
      var i :| 0 <= i < |q| && q[i] == u;
      assert q[1..][i - 1] == u;
    }
  }

  // ---- the invariant ----

  /** The run queues hold each ready thread once, at its priority, and nothing else. */
  ghost predicate RunPlaces(s: State) {
    && |s.run| == NUM_PRIORITIES && Tracks(s.bitmap, s.run)
    && (forall p | 0 <= p < NUM_PRIORITIES :: Distinct(s.run[p]))
    && forall p, t | 0 <= p < NUM_PRIORITIES ::
         t in s.run[p] <==> t in s.threads && s.threads[t].status.Ready? && s.threads[t].priority == p
  }

  /** Each wait queue holds each thread blocked on it once, and counts them. */
  ghost predicate WaitPlaces(s: State) {
    && (forall q | q in s.waits :: Distinct(s.waits[q].list) && s.waits[q].count == |s.waits[q].list|)
    && forall q, t | q in s.waits ::
         t in s.waits[q].list <==> t in s.threads && s.threads[t].status.Blocked? && s.threads[t].waiting == Some(q)
  }

  ghost predicate ThreadsFine(s: State) {
    forall t | t in s.threads ::
      && s.threads[t].priority < NUM_PRIORITIES && s.threads[t].quantum <= QUANTUM
      && (if s.threads[t].status.Blocked? then s.threads[t].waiting.Some? && s.threads[t].waiting.value in s.waits
          else s.threads[t].waiting.None?)
  }

  /** Only the current thread runs, the sleepers sleep, the boot thread is always runnable. */
  ghost predicate OthersPlaced(s: State) {
    && s.current in s.threads && s.boot in s.threads
    && (forall t | t in s.threads && s.threads[t].status.Running? :: t == s.current)
    && (forall t :: t in s.sleepers <==> t in s.threads && s.threads[t].status.Sleeping?)
    && (s.threads[s.boot].status.Ready? || s.threads[s.boot].status.Running?)
    && (s.idling ==> s.threads[s.boot].priority == IDLE_PRIORITY)
  }

  /** What holds at every point outside the queue manipulations themselves. */
  ghost predicate Placed(s: State) {
    RunPlaces(s) && WaitPlaces(s) && ThreadsFine(s) && OthersPlaced(s)
  }

  /** The invariant between steps. */
  ghost predicate Inv(s: State) {
    Placed(s) && s.threads[s.current].status.Running?
  }

  // ---- primitives ----

  /** insert_in_run_queue_head and insert_in_run_queue_tail */
  function Insert(s: State, t: Tid, head: bool): State
    requires t in s.threads && s.threads[t].priority < NUM_PRIORITIES == |s.run|
  {
    var p := s.threads[t].priority;
    s.(run := s.run[p := if head then [t] + s.run[p] else s.run[p] + [t]], bitmap := WithMask(s.bitmap, Mask(p)))
  }

  /** The thread leaves its wait queue or its sleep. */
  function Detach(s: State, t: Tid): State
    requires t in s.threads
  {
    var th := s.threads[t];
    if th.waiting.Some? && th.waiting.value in s.waits then
      var q := th.waiting.value;
      s.(waits := s.waits[q := WaitQueue(Remove(s.waits[q].list, t), s.waits[q].count - 1)],
         threads := s.threads[t := th.(waiting := None)])
    else s.(sleepers := s.sleepers - {t})
  }

  function MarkReady(s: State, t: Tid): State
    requires t in s.threads
  {
    s.(threads := s.threads[t := s.threads[t].(status := Ready)])
  }

  /** A thread from wherever it is into its run queue. */
  function Enlist(s: State, t: Tid, head: bool): State
    requires t in s.threads && s.threads[t].priority < NUM_PRIORITIES == |s.run|
  {
    Insert(MarkReady(Detach(s, t), t), t, head)
  }

  /** What taking a thread off its wait queue or sleep leaves. */
  ghost predicate Detached(s: State, d: State, t: Tid) {
    && d.run == s.run && d.bitmap == s.bitmap && d.current == s.current && d.boot == s.boot
    && d.idling == s.idling && d.timeouts == s.timeouts && d.threads.Keys == s.threads.Keys
    && t in s.threads && (forall u | u in s.threads && u != t :: d.threads[u] == s.threads[u])
    && d.threads[t] == s.threads[t].(status := Ready, waiting := None)
    && forall u :: u in d.sleepers <==> u in s.sleepers && u != t
  }

  lemma DetachedIs(s: State, t: Tid)
    requires Placed(s) && t in s.threads && !s.threads[t].status.Ready?
    ensures Detached(s, MarkReady(Detach(s, t), t), t)
  {
    hide RunPlaces, WaitPlaces, Remove;
  }

  lemma DetachedWaits(s: State, t: Tid)
    requires Placed(s) && t in s.threads && !s.threads[t].status.Ready?
    ensures WaitPlaces(MarkReady(Detach(s, t), t))
  {
    hide RunPlaces, OthersPlaced;
    var th := s.threads[t];
    if th.waiting.Some? {
      RemoveIs(s.waits[th.waiting.value].list, t);
    }
    hide Remove, Distinct;
  }

  lemma DetachedFine(s: State, t: Tid)
    requires Placed(s) && t in s.threads && !s.threads[t].status.Ready?
    ensures ThreadsFine(MarkReady(Detach(s, t), t))
  {
    hide RunPlaces, WaitPlaces, OthersPlaced, Remove;
  }

  /** Moving a thread into its run queue keeps every thread in its one place. */
  lemma EnlistPlaced(s: State, t: Tid, head: bool)
    requires Placed(s) && t in s.threads && !s.threads[t].status.Ready?
    ensures Placed(Enlist(s, t, head))
    ensures Enlist(s, t, head).threads == s.threads[t := s.threads[t].(status := Ready, waiting := None)]
  {
    hide Distinct, Mask, WithMask;
    DetachedIs(s, t);
    DetachedWaits(s, t);
    DetachedFine(s, t);
    var d, e := MarkReady(Detach(s, t), t), Enlist(s, t, head);
    hide Detach, MarkReady, WaitPlaces;
    InsertedRun(s, d, t, head);
    SamePlaces(d, e);
  }

  lemma SamePlaces(d: State, e: State)
    requires WaitPlaces(d) && ThreadsFine(d) && e.threads == d.threads && e.waits == d.waits
    ensures WaitPlaces(e) && ThreadsFine(e)
  {
    hide Distinct;
  }

  lemma InsertedRun(s: State, d: State, t: Tid, head: bool)
    requires RunPlaces(s) && d.run == s.run && d.bitmap == s.bitmap && t in s.threads && !s.threads[t].status.Ready?
    requires d.threads.Keys == s.threads.Keys && (forall u | u in s.threads && u != t :: d.threads[u] == s.threads[u])
    requires d.threads[t].status.Ready? && d.threads[t].priority == s.threads[t].priority < NUM_PRIORITIES
    ensures RunPlaces(Insert(d, t, head))
  {
    hide Distinct, Bit, Mask, WithMask;
    var p := s.threads[t].priority;
    var e := Insert(d, t, head);
    DistinctAdd(s.run[p], t);
    forall r | 0 <= r < NUM_PRIORITIES
      ensures Bit(e.bitmap, r) <==> e.run[r] != []
    {
      SetBit(s.bitmap, p, r);
    }
  }

  // ---- thread_resched ----

  function TopQueue(s: State): int { HIGHEST_PRIORITY - LeadingZeros(s.bitmap, HIGHEST_PRIORITY) }

  function Switched(th: Thread): Thread {
    th.(status := Running, quantum := if th.quantum <= 0 then QUANTUM else th.quantum)
  }

  /** thread_resched: the head of the queue the leading zeros point at becomes current; a
      thread that was not current starts with a fresh quantum if its own is used up. */
  function Resched(s: State): State {
    var p := TopQueue(s);
    if |s.run| != NUM_PRIORITIES || p < 0 || s.run[p] == [] || s.run[p][0] !in s.threads then s
    else
      var t, rest := s.run[p][0], s.run[p][1..];
      var th := s.threads[t];
      s.(run := s.run[p := rest], bitmap := if rest == [] then WithoutMask(s.bitmap, Mask(p))
        else s.bitmap, current := t,
         threads := s.threads[t := if t == s.current then th.(status := Running) else Switched(th)])
  }

  /** Some thread is ready: the boot thread if no other. */
  lemma BootReady(s: State)
    requires Placed(s) && !s.threads[s.current].status.Running?
    ensures HighestNonEmpty(s.run, HIGHEST_PRIORITY) >= 0
  {
    hide Distinct, Bit, WaitPlaces;
    var p := s.threads[s.boot].priority;
    assert s.boot in s.run[p];
  }

  /** The bitmap is never empty when thread_resched looks at it, the thread it picks is the
      head of the highest non-empty queue, and afterwards every thread is in its place. */
  lemma ReschedPlaced(s: State)
    requires Placed(s) && !s.threads[s.current].status.Running?
    ensures s.bitmap != 0 && TopQueue(s) == HighestNonEmpty(s.run, HIGHEST_PRIORITY) >= 0
    ensures Inv(Resched(s)) && Resched(s).current == s.run[TopQueue(s)][0]
    ensures forall t | t in s.threads && t != Resched(s).current :: Resched(s).threads[t] == s.threads[t]
  {
    hide Distinct, Bit, Mask, WithoutMask, LeadingZeros, WaitPlaces;
    ClzIsScan(s.bitmap, s.run);
    BootReady(s);
    var p := TopQueue(s);
    var t, e := s.run[p][0], Resched(s);
    assert t in s.run[p];
    PoppedRun(s, e, p, t);
    OthersWait(s, e, t);
  }

  lemma OthersWait(s: State, e: State, t: Tid)
    requires WaitPlaces(s) && e.waits == s.waits && t in s.threads && e.threads.Keys == s.threads.Keys
    requires !s.threads[t].status.Blocked? && !e.threads[t].status.Blocked?
    requires forall u | u in s.threads && u != t :: e.threads[u] == s.threads[u]
    ensures WaitPlaces(e)
  {
    hide Distinct;
  }

  lemma PoppedRun(s: State, e: State, p: nat, t: Tid)
    requires RunPlaces(s) && p < NUM_PRIORITIES && s.run[p] != [] && t == s.run[p][0]
    requires e.threads.Keys == s.threads.Keys
    requires e.run == s.run[p := s.run[p][1..]]
    requires e.bitmap == if s.run[p][1..] == [] then WithoutMask(s.bitmap, Mask(p)) else s.bitmap
    requires t in s.threads && !e.threads[t].status.Ready?
    requires forall u | u in s.threads && u != t :: e.threads[u] == s.threads[u]
    ensures RunPlaces(e)
  {
    hide Distinct, Bit, Mask, WithoutMask;
    assert t in s.run[p];
    DistinctTail(s.run[p]);
    forall r | 0 <= r < NUM_PRIORITIES
      ensures Bit(e.bitmap, r) <==> e.run[r] != []
    {
      SetBit(s.bitmap, p, r);
    }
  }

  /** With the records `threads` and the queues `run`, the first thread of the highest queue in
      use gets the processor. If it is not `c`, who had it, and has used up its quantum, it gets
      five ticks; its quantum stays what it was otherwise. */
  ghost predicate Takes(threads: map<Tid, Thread>, run: seq<seq<Tid>>, c: Tid, e: State) {
    && |run| == NUM_PRIORITIES
    && var p := HighestNonEmpty(run, HIGHEST_PRIORITY);
       p >= 0
       && var t := run[p][0];
          && t in threads && threads[t].priority == p && e.current == t && e.run == run[p := run[p][1..]]
          && var spent := t != c && threads[t].quantum <= 0;
             e.threads == threads[t := threads[t].(status := Running, quantum := if spent then 5
               else threads[t].quantum)]
  }

  /** All but the queues, the records and the choice of a thread. */
  predicate RestSame(s: State, e: State) {
    e.boot == s.boot && e.idling == s.idling && e.waits == s.waits && e.sleepers == s.sleepers
      && e.timeouts == s.timeouts
  }

  lemma ReschedTakes(s: State)
    requires Placed(s) && HighestNonEmpty(s.run, HIGHEST_PRIORITY) >= 0
    ensures Takes(s.threads, s.run, s.current, Resched(s)) && RestSame(s, Resched(s))
  {
    hide Distinct, Bit, Mask, WithoutMask, LeadingZeros, WaitPlaces;
    ClzIsScan(s.bitmap, s.run);
    var p := HighestNonEmpty(s.run, HIGHEST_PRIORITY);
    assert s.run[p][0] in s.run[p];
  }

  // ---- the current thread gives way ----

  /** A thread marked ready and put into its run queue, from no other queue. */
  function EnlistRaw(s: State, t: Tid, head: bool): State
    requires t in s.threads && s.threads[t].priority < NUM_PRIORITIES == |s.run|
  {
    Insert(MarkReady(s, t), t, head)
  }

  lemma RawIsEnlist(s: State, t: Tid, head: bool)
    requires Placed(s) && t in s.threads && (s.threads[t].status.Running? || s.threads[t].status.Suspended?)
    ensures s.threads[t].priority < NUM_PRIORITIES == |s.run| && EnlistRaw(s, t, head) == Enlist(s, t, head)
  {
    hide Distinct, Insert;
    assert s.sleepers - {t} == s.sleepers;
  }

  function SetQuantum(s: State, q: int): State
    requires s.current in s.threads
  {
    s.(threads := s.threads[s.current := s.threads[s.current].(quantum := q)])
  }

  /** thread_yield */
  function Yield(s: State): State
    requires s.current in s.threads && s.threads[s.current].priority < NUM_PRIORITIES == |s.run|
  {
    Resched(EnlistRaw(SetQuantum(s, 0), s.current, false))
  }

  /** thread_preempt: back to the head of its queue with quantum left, to the tail without. */
  function Preempt(s: State): State
    requires s.current in s.threads && s.threads[s.current].priority < NUM_PRIORITIES == |s.run|
  {
    Resched(EnlistRaw(s, s.current, s.threads[s.current].quantum > 0))
  }

  /** thread_timer_tick, and whether to reschedule. */
  function Tick(s: State): (State, bool)
    requires s.current in s.threads
  {
    if s.idling && s.current == s.boot then (s, false)
    else
      var q := s.threads[s.current].quantum - 1;
      (SetQuantum(s, q), q <= 0)
  }

  lemma QuantumPlaced(s: State, q: int)
    requires Placed(s) && q <= QUANTUM
    ensures Placed(SetQuantum(s, q))
    ensures SetQuantum(s, q).threads[s.current].status == s.threads[s.current].status
  {
    hide Distinct, Tracks;
  }

  /** Giving way keeps the invariant. */
  lemma YieldInv(s: State)
    requires Inv(s)
    ensures s.current in s.threads && s.threads[s.current].priority < NUM_PRIORITIES == |s.run|
    ensures Inv(Yield(s)) && Inv(Preempt(s)) && Inv(Tick(s).0)
  {
    hide RunPlaces, WaitPlaces, Resched, Enlist, EnlistRaw, Insert;
    QuantumPlaced(s, 0);
    if !(s.idling && s.current == s.boot) {
      QuantumPlaced(s, s.threads[s.current].quantum - 1);
    }
    GiveWay(SetQuantum(s, 0), false);
    GiveWay(s, s.threads[s.current].quantum > 0);
  }

  lemma GiveWay(s: State, head: bool)
    requires Inv(s)
    ensures s.threads[s.current].priority < NUM_PRIORITIES == |s.run|
    ensures Placed(EnlistRaw(s, s.current, head)) && !EnlistRaw(s, s.current, head).threads[s.current].status.Running?
    ensures EnlistRaw(s, s.current, head).current == s.current
    ensures Inv(Resched(EnlistRaw(s, s.current, head)))
  {
    hide RunPlaces, WaitPlaces, Resched;
    RawIsEnlist(s, s.current, head);
    EnlistPlaced(s, s.current, head);
    ReschedPlaced(EnlistRaw(s, s.current, head));
  }

  // ---- leaving the processor for a wait queue, for a sleep, for good ----

  /** The thread's own record and queue entry when it blocks. */
  function Waiting(s: State, q: Qid, timed: bool): State
    requires s.current in s.threads && q in s.waits
  {
    var c := s.current;
    s.(waits := s.waits[q := WaitQueue(s.waits[q].list + [c], s.waits[q].count + 1)],
       threads := s.threads[c := s.threads[c].(status := Blocked, waiting := Some(q), ret := NO_ERROR)],
       timeouts := if timed then s.timeouts + {c} else s.timeouts)
  }

  /** wait_queue_block up to the switch, for a timeout other than zero. */
  function BlockOn(s: State, q: Qid, timed: bool): State
    requires s.current in s.threads && q in s.waits
  {
    Resched(Waiting(s, q, timed))
  }

  /** thread_sleep up to the switch. */
  function Sleep(s: State): State
    requires s.current in s.threads
  {
    var c := s.current;
    Resched(s.(threads := s.threads[c := s.threads[c].(status := Sleeping)], sleepers := s.sleepers + {c}))
  }

  function Die(s: State): State
    requires s.current in s.threads
  {
    s.(threads := s.threads[s.current := s.threads[s.current].(status := Dead)])
  }

  lemma WaitingPlaced(s: State, q: Qid, timed: bool)
    requires Inv(s) && q in s.waits && s.current != s.boot
    ensures Placed(Waiting(s, q, timed))
  {
    hide Tracks;
    var c, e := s.current, Waiting(s, q, timed);
    assert c !in s.waits[q].list;
    DistinctAdd(s.waits[q].list, c);
    hide Distinct;
    assert RunPlaces(e) by { hide WaitPlaces; }
  }

  lemma LeavingPlaced(s: State, th: Thread, sleepers: set<Tid>)
    requires Inv(s) && s.current != s.boot
    requires th == s.threads[s.current].(status := th.status) && (th.status.Sleeping? || th.status.Dead?)
    requires sleepers == if th.status.Sleeping? then s.sleepers + {s.current} else s.sleepers
    ensures Placed(s.(threads := s.threads[s.current := th], sleepers := sleepers))
  {
    hide Tracks, Distinct;
  }

  /** Blocking and sleeping keep the invariant, for any thread but the one that becomes idle. */
  lemma BlockInv(s: State, q: Qid, timed: bool)
    requires Inv(s) && s.current != s.boot
    ensures q in s.waits ==> Inv(BlockOn(s, q, timed))
    ensures Inv(Sleep(s))
  {
    hide RunPlaces, WaitPlaces, Resched;
    if q in s.waits {
      WaitingPlaced(s, q, timed);
      ReschedPlaced(Waiting(s, q, timed));
    }
    var c := s.current;
    var th := s.threads[c].(status := Sleeping);
    LeavingPlaced(s, th, s.sleepers + {c});
    ReschedPlaced(s.(threads := s.threads[c := th], sleepers := s.sleepers + {c}));
  }

  // ---- waking ----

  /** The thread taken off a wait queue with the result it will see, not yet in a run queue. */
  function Unhooked(s: State, t: Tid, err: int): State
    requires t in s.threads && s.threads[t].waiting.Some? && s.threads[t].waiting.value in s.waits
  {
    var q := s.threads[t].waiting.value;
    s.(waits := s.waits[q := WaitQueue(Remove(s.waits[q].list, t), s.waits[q].count - 1)],
       threads := s.threads[t := s.threads[t].(status := Ready, waiting := None, ret := err)])
  }

  /** thread_unblock_from_wait_queue, less the critical section. */
  function Unblock(s: State, t: Tid, resched: bool, err: int): (State, int)
    requires t in s.threads && ThreadsFine(s) && |s.run| == NUM_PRIORITIES
  {
    if !s.threads[t].status.Blocked? then (s, ERR_NOT_BLOCKED)
    else
      var e := Insert(Unhooked(s, t, err), t, true);
      (if resched then Resched(e) else e, NO_ERROR)
  }

  /** wait_queue_wake_one; the woken thread goes in front of the current one. */
  function WakeOne(s: State, q: Qid, resched: bool, err: int): (State, int)
    requires Inv(s) && q in s.waits
  {
    if s.waits[q].list == [] then (s, 0)
    else
      var t := s.waits[q].list[0];
      WokenThread(s, q, t);
      var a := Unhooked(s, t, err);
      var b := if resched then EnlistRaw(a, s.current, true) else a;
      var e := Insert(b, t, true);
      (if resched then Resched(e) else e, 1)
  }

  lemma WokenThread(s: State, q: Qid, t: Tid)
    requires Placed(s) && q in s.waits && t in s.waits[q].list
    ensures t in s.threads && s.threads[t].status.Blocked? && s.threads[t].waiting == Some(q)
    ensures s.threads[t].priority < NUM_PRIORITIES
    ensures |s.run| == NUM_PRIORITIES && s.current in s.threads && s.threads[s.current].priority < NUM_PRIORITIES
    ensures s.threads[s.current].status.Running? ==> t != s.current
  {
    hide Distinct, Tracks;
    assert s.current in s.threads;
  }

  /** Setting the result of a thread moves nobody. */
  function WithRet(s: State, t: Tid, err: int): State
    requires t in s.threads
  {
    s.(threads := s.threads[t := s.threads[t].(ret := err)])
  }

  lemma WithRetPlaced(s: State, t: Tid, err: int)
    requires Placed(s) && t in s.threads
    ensures Placed(WithRet(s, t, err)) && WithRet(s, t, err).threads[t].status == s.threads[t].status
    ensures Inv(s) ==> Inv(WithRet(s, t, err))
  {
    hide Distinct, Tracks;
  }

  /** Unhooking and inserting is one move from the wait queue to the run queue. */
  lemma UnhookedIs(s: State, t: Tid, err: int)
    requires Placed(s) && t in s.threads && s.threads[t].status.Blocked?
    ensures s.threads[t].waiting.Some? && s.threads[t].waiting.value in s.waits
    ensures s.threads[t].priority < NUM_PRIORITIES
    ensures |s.run| == NUM_PRIORITIES
    ensures Insert(Unhooked(s, t, err), t, true) == Enlist(WithRet(s, t, err), t, true)
  {
    hide Distinct, Tracks, Remove;
    assert t !in s.sleepers;
  }

  /** With the current thread put back first, it is two such moves. */
  lemma UnhookedBehind(s: State, t: Tid, err: int)
    requires Inv(s) && t in s.threads && s.threads[t].status.Blocked?
    ensures s.threads[t].waiting.Some? && s.threads[t].waiting.value in s.waits && |s.run| == NUM_PRIORITIES
    ensures s.threads[t].priority < NUM_PRIORITIES && s.threads[s.current].priority < NUM_PRIORITIES
    ensures Enlist(WithRet(s, t, err), s.current, true).threads[t].priority < NUM_PRIORITIES
    ensures Insert(EnlistRaw(Unhooked(s, t, err), s.current, true), t, true) ==
            Enlist(Enlist(WithRet(s, t, err), s.current, true), t, true)
  {
    BehindFacts(s, t);
    hide Inv, Placed, Remove, Mask, WithMask;
    assert s.sleepers - {s.current} == s.sleepers && s.sleepers - {t} == s.sleepers;
    var c, r := s.current, WithRet(s, t, err);
    var x, y := r.threads[t], s.threads[c].(status := Ready);
    Reordered(s.threads, t, x, x.(waiting := None), x.(waiting := None, status := Ready), c, y);
    assert Enlist(r, c, true) == Insert(r.(threads := r.threads[c := y]), c, true);
    assert EnlistRaw(Unhooked(s, t, err), c, true).threads
        == Enlist(Enlist(r, c, true), t, true).threads;
  }

  lemma Reordered(m: map<Tid, Thread>, t: Tid, x: Thread, y: Thread, z: Thread, c: Tid, w: Thread)
    requires t != c
    ensures m[t := z][c := w] == m[t := x][c := w][t := y][t := z]
  {
  }

  lemma BehindFacts(s: State, t: Tid)
    requires Inv(s) && t in s.threads && s.threads[t].status.Blocked?
    ensures s.threads[t].waiting.Some? && s.threads[t].waiting.value in s.waits && |s.run| == NUM_PRIORITIES
    ensures s.current in s.threads && s.threads[s.current].status.Running? && s.threads[s.current].waiting.None?
    ensures s.threads[t].priority < NUM_PRIORITIES && s.threads[s.current].priority < NUM_PRIORITIES
    ensures t !in s.sleepers && s.current !in s.sleepers
  {
    hide Distinct, Tracks, RunPlaces, WaitPlaces;
    QueuesThere(s);
  }

  /** Waking keeps the invariant; with rescheduling the woken thread and the current one are
      both ready before the choice is made. */
  lemma WakeOneInv(s: State, q: Qid, resched: bool, err: int)
    requires Inv(s) && q in s.waits
    ensures Inv(WakeOne(s, q, resched, err).0)
  {
    hide RunPlaces, WaitPlaces, Resched, Enlist, EnlistRaw, Insert, Unhooked;
    if s.waits[q].list != [] {
      var t := s.waits[q].list[0];
      WokenThread(s, q, t);
      var r := WithRet(s, t, err);
      WithRetPlaced(s, t, err);
      if resched {
        UnhookedBehind(s, t, err);
        EnlistPlaced(r, s.current, true);
        var b := Enlist(r, s.current, true);
        EnlistSides(r, s.current, true);
        EnlistPlaced(b, t, true);
        QueuesThere(b);
        EnlistSides(b, t, true);
        ReschedPlaced(Enlist(b, t, true));
      } else {
        UnhookedIs(s, t, err);
        EnlistPlaced(r, t, true);
        EnlistSides(r, t, true);
      }
    }
  }

  lemma QueuesThere(s: State)
    requires Placed(s)
    ensures |s.run| == NUM_PRIORITIES
  {
  }

  lemma EnlistSides(s: State, t: Tid, head: bool)
    requires t in s.threads && s.threads[t].priority < NUM_PRIORITIES == |s.run|
    ensures Enlist(s, t, head).current == s.current && Enlist(s, t, head).boot == s.boot
    ensures Enlist(s, t, head).timeouts == s.timeouts
  {
    hide Remove, Mask, WithMask;
  }

  lemma UnblockInv(s: State, t: Tid, resched: bool, err: int)
    requires Inv(s) && t in s.threads
    ensures |s.run| == NUM_PRIORITIES
    ensures !resched ==> Inv(Unblock(s, t, resched, err).0)
    ensures !s.threads[t].status.Blocked? ==> Unblock(s, t, resched, err).0 == s
  {
    hide WaitPlaces, Enlist, Insert, Unhooked, Distinct, Tracks;
    if s.threads[t].status.Blocked? {
      UnhookedIs(s, t, err);
      WithRetPlaced(s, t, err);
      EnlistPlaced(WithRet(s, t, err), t, true);
      EnlistSides(WithRet(s, t, err), t, true);
    }
  }

  /** Rescheduling out of thread_unblock_from_wait_queue, which unlike the wait queue
      functions does not put the current thread back, loses that thread: it is left running
      in name but no longer current, and in no queue. So it is safe only from a thread that
      has itself left the processor. */
  lemma UnblockReschedLoses(s: State, t: Tid, err: int)
    requires Inv(s) && t in s.threads && s.threads[t].status.Blocked?
    ensures |s.run| == NUM_PRIORITIES
    ensures !Inv(Unblock(s, t, true, err).0) && Unblock(s, t, true, err).0.current != s.current
  {
    hide Enlist, Insert, Unhooked, Distinct, Tracks, LeadingZeros, Mask, WithoutMask;
    UnhookedIs(s, t, err);
    var r := WithRet(s, t, err);
    WithRetPlaced(s, t, err);
    EnlistPlaced(r, t, true);
    EnlistSides(r, t, true);
    var e := Enlist(r, t, true);
    SomeReady(e, t);
    assert e.threads[s.current].status.Running?;
    assert s.current !in e.run[TopQueue(e)];
  }

  lemma SomeReady(e: State, t: Tid)
    requires Placed(e) && t in e.threads && e.threads[t].status.Ready?
    ensures TopQueue(e) == HighestNonEmpty(e.run, HIGHEST_PRIORITY) >= 0 && e.run[TopQueue(e)][0] in e.threads
    ensures e.run[TopQueue(e)][0] in e.run[TopQueue(e)]
  {
    hide Distinct, Bit, LeadingZeros, WaitPlaces;
    ClzIsScan(e.bitmap, e.run);
    assert t in e.run[e.threads[t].priority];
    assert e.run[TopQueue(e)][0] in e.run[TopQueue(e)];
  }
}
