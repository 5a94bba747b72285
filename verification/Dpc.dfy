/** Deferred procedure calls: a list filled by anyone and drained by one thread over an event. */
module Dpcs {
  import opened Options
  import opened RunBitmap
  import opened Threads
  import opened Scheduling
  import opened Mutexes
  import opened KernelThreads
  import opened Events
  import Switching

  /** A callback with its argument. */
  type Call = nat

  /** Where the dpc thread stands in its loop: before event_wait, inside it, about to take the
      next call, or making the call. */
  datatype DpcPc = AtWait | InWait | AtTake | Making(call: Call)

  /** `queued` and `made` are the history: the calls queued so far, and those made so far. */
  datatype DpcWorld = DpcWorld(e: EventWorld, list: seq<Call>, thread: Tid, pc: DpcPc, queued: seq<Call>,
                               made: seq<Call>)

  function InHand(w: DpcWorld): seq<Call> { if w.pc.Making? then [w.pc.call] else [] }

  /** The dpc thread is blocked on the event only inside its wait. */
  ghost predicate ThreadPlace(w: DpcWorld) {
    && w.thread in w.e.s.threads && w.e.q in w.e.s.waits && w.thread != w.e.s.boot
    && (w.thread in w.e.s.waits[w.e.q].list ==> w.pc.InWait?)
  }

  /** The invariant: calls left mean the event is signalled, so that the dpc thread is not
      waiting for it; and what was queued is what was made, in hand, or still listed, in order. */
  ghost predicate DInv(w: DpcWorld) {
    && EInv(w.e) && !w.e.auto && ThreadPlace(w)
    && (w.list != [] ==> w.e.signalled)
    && w.queued == w.made + InHand(w) + w.list
  }

  /** dpc_queue */
  function Queue(w: DpcWorld, call: Call, resched: bool): DpcWorld
    requires Inv(w.e.s) && w.e.q in w.e.s.waits
  {
    w.(list := w.list + [call], queued := w.queued + [call], e := Signal(w.e, resched))
  }

  /** thread_exit of the current thread: its cleanup is queued, then another thread runs. */
  function ExitThread(w: DpcWorld, cleanup: Call): DpcWorld
    requires Inv(w.e.s) && w.e.q in w.e.s.waits && w.e.s.current != w.e.s.boot
  {
    w.(list := w.list + [cleanup], queued := w.queued + [cleanup],
       e := w.e.(s := Exit(w.e.s, if w.e.signalled then None else Some(w.e.q)), signalled := true,
                 raised := w.e.raised + 1, absorbed := if w.e.signalled then w.e.absorbed + 1 else w.e.absorbed))
  }

  /** One step of dpc_thread_routine, by the dpc thread. */
  function Serve(w: DpcWorld): DpcWorld
    requires Inv(w.e.s) && w.e.q in w.e.s.waits && w.e.s.current == w.thread != w.e.s.boot
  {
    match w.pc
    case AtWait => w.(e := Wait(w.e, Infinite), pc := if w.e.signalled then AtTake else InWait)
    case InWait => w.(pc := AtTake)
    case AtTake =>
      if w.list == [] then w.(e := Unsignal(w.e), pc := AtWait)
      else w.(list := w.list[1..], pc := Making(w.list[0]))
    case Making(call) => w.(made := w.made + [call], pc := AtWait)
  }

  datatype DpcMove = QueueMove(call: Call, resched: bool) | ExitMove(cleanup: Call) | ServeMove | ElseMove(step: Step)

  /** Anyone may queue at any time, the dpc thread within its calls included; other steps
      leave the event alone, and the dpc thread itself only waits where its loop does. */
  ghost predicate DpcCan(w: DpcWorld, m: DpcMove) {
    Inv(w.e.s) && w.e.q in w.e.s.waits && match m
    case QueueMove(_, _) => true
    case ExitMove(_) => w.e.s.current != w.e.s.boot && w.e.s.current != w.thread
    case ServeMove => w.e.s.current == w.thread != w.e.s.boot
    case ElseMove(x) => Apart(w.e.s, w.e.q, x)
  }

  function DpcDone(w: DpcWorld, m: DpcMove): DpcWorld
    requires DpcCan(w, m)
  {
    match m
    case QueueMove(call, resched) => Queue(w, call, resched)
    case ExitMove(cleanup) => ExitThread(w, cleanup)
    case ServeMove => Serve(w)
    case ElseMove(x) => w.(e := w.e.(s := Do(w.e.s, x)))
  }

  lemma ExitWakes(s: State, wake: Option<Qid>, q: Qid)
    requires Inv(s) && s.current != s.boot && q in s.waits && (wake == None || wake == Some(q))
    ensures Inv(Exit(s, wake)) && q in Exit(s, wake).waits && Exit(s, wake).boot == s.boot
    ensures Exit(s, wake).waits[q].list == if wake == None then s.waits[q].list else []
  {
    ExitInv(s, wake);
    CurrentThere(s);
    LeavingPlaced(s, s.threads[s.current].(status := Dead), s.sleepers);
    hide Inv, Placed, Resched, WakeEach;
    if wake.Some? {
      WakeEachDoes(Die(s), q, NO_ERROR);
      ReschedWaits(WakeEach(Die(s), q, NO_ERROR));
      ReschedBoot(WakeEach(Die(s), q, NO_ERROR));
    } else {
      ReschedWaits(Die(s));
      ReschedBoot(Die(s));
    }
  }

  lemma ReschedBoot(s: State)
    ensures Resched(s).boot == s.boot
  {
    hide TopQueue, Mask, WithoutMask;
  }

  /** Signalling removes waiters and nothing else that matters here. */
  lemma SignalPlace(w: EventWorld, resched: bool)
    requires EInv(w) && !w.auto
    ensures var v := Signal(w, resched);
            && EInv(v) && v.signalled && v.q == w.q && v.q in v.s.waits && v.s.waits[v.q].list == []
            && v.s.threads.Keys == w.s.threads.Keys && v.s.boot == w.s.boot && !v.auto
  {
    hide Inv, WakeOne, WakeAll;
    DoneInv(w, SignalMove(resched));
    WakeAllKeys(w.s, w.q, resched, NO_ERROR);
    WakeAllBoot(w.s, w.q, resched, NO_ERROR);
  }

  lemma WakeAllBoot(s: State, q: Qid, resched: bool, err: int)
    requires Inv(s) && q in s.waits
    ensures WakeAll(s, q, resched, err).0.boot == s.boot
  {
    hide Placed, Inv, Resched, WakeEach, Insert;
    YieldInv(s);
    GiveWay(s, true);
    Mutexes.PlacedOf(s);
    var a := if resched && s.waits[q].count > 0 then EnlistRaw(s, s.current, true) else s;
    RawBoot(s, s.current);
    RawKeeps(s, s.current, true);
    WakeEachDoes(a, q, err);
    ReschedBoot(WakeEach(a, q, err));
  }

  lemma RawBoot(s: State, t: Tid)
    requires t in s.threads && s.threads[t].priority < NUM_PRIORITIES == |s.run|
    ensures EnlistRaw(s, t, true).boot == s.boot
  {
  }

  lemma QueuedInv(w: DpcWorld, call: Call, resched: bool)
    requires DInv(w)
    ensures DInv(Queue(w, call, resched))
  {
    hide EInv, Signal, Inv;
    EventIn(w.e);
    SignalPlace(w.e, resched);
    EventIn(Signal(w.e, resched));
    var v := Queue(w, call, resched);
    assert v.queued == w.made + InHand(w) + (w.list + [call]);
  }

  lemma EventIn(e: EventWorld)
    requires EInv(e)
    ensures Inv(e.s) && e.q in e.s.waits
  {
  }

  lemma ExitedInv(w: DpcWorld, cleanup: Call)
    requires DInv(w) && w.e.s.current != w.e.s.boot && w.e.s.current != w.thread
    ensures DInv(ExitThread(w, cleanup))
  {
    hide Inv, Exit;
    var wake := if w.e.signalled then None else Some(w.e.q);
    ExitWakes(w.e.s, wake, w.e.q);
    ExitKeys(w.e.s, wake);
    var v := ExitThread(w, cleanup);
    assert v.queued == w.made + InHand(w) + (w.list + [cleanup]);
  }

  lemma ServeInv(w: DpcWorld)
    requires DInv(w) && w.e.s.current == w.thread
    ensures DInv(Serve(w))
  {
    hide Inv, BlockOn;
    CurrentRuns(w.e.s);
    InQueue(w.e.s, w.e.q, w.thread);
    match w.pc
    case AtWait =>
      DoneInv(w.e, WaitMove(Infinite));
      if !w.e.signalled {
        BlockDoes(w.e.s, w.e.q, false);
        BlockBoot(w.e.s, w.e.q, false);
      }
    case InWait =>
    case AtTake =>
      if w.list != [] {
        assert w.list == [w.list[0]] + w.list[1..];
        assert w.made + [] + w.list == w.made + [w.list[0]] + w.list[1..];
      }
    case Making(call) =>
      assert w.made + [call] + w.list == w.made + [call] + [] + w.list;
  }

  lemma BlockBoot(s: State, q: Qid, timed: bool)
    requires s.current in s.threads && q in s.waits
    ensures BlockOn(s, q, timed).boot == s.boot
  {
    hide Resched;
    ReschedBoot(Waiting(s, q, timed));
  }

  lemma ElseInv(w: DpcWorld, x: Step)
    requires DInv(w) && Apart(w.e.s, w.e.q, x)
    ensures DInv(w.(e := w.e.(s := Do(w.e.s, x))))
  {
    hide Inv, Do, Allowed;
    ApartKeeps(w.e.s, w.e.q, x);
    StepThreads(w.e.s, x);
    StepBoot(w.e.s, x);
    QueueOnlyShrinks(w.e.s, w.e.q, x, w.thread);
  }

  lemma QueueOnlyShrinks(s: State, q: Qid, x: Step, t: Tid)
    requires Inv(s) && q in s.waits && Apart(s, q, x)
    ensures q in Do(s, x).waits && (t in Do(s, x).waits[q].list ==> t in s.waits[q].list)
  {
    hide Inv, Do, TimeoutFires;
    if x.TimeoutStep? {
      TimeoutThere(s, x);
      TimeoutSpares(s, x.t, q);
      QueueDistinct(s, q);
      RemoveIs(s.waits[q].list, x.t);
    } else {
      StepSpares(s, x, q);
    }
  }

  /** The boot thread is fixed. */
  lemma StepBoot(s: State, x: Step)
    requires Inv(s) && Allowed(s, x)
    ensures Do(s, x).boot == s.boot
  {
    hide Inv, Placed, Resched, EnlistRaw, Insert, WakeEach;
    YieldInv(s);
    match x
    case YieldStep =>
      ReschedBoot(EnlistRaw(SetQuantum(s, 0), s.current, false));
      AnyBoot(SetQuantum(s, 0), s.current, false);
    case PreemptStep =>
      ReschedBoot(EnlistRaw(s, s.current, s.threads[s.current].quantum > 0));
      AnyBoot(s, s.current, s.threads[s.current].quantum > 0);
    case TickStep =>
    case BlockStep(q, timed) => BlockBoot(s, q, timed);
    case ReturnStep =>
    case WakeOneStep(q, resched, err) => WakeOneBoot(s, q, resched, err);
    case WakeAllStep(q, resched, err) => WakeAllBoot(s, q, resched, err);
    case TimeoutStep(u) => TimeoutBoot(s, u);
    case SleepStep =>
      ReschedBoot(s.(threads := s.threads[s.current := s.threads[s.current].(status := Sleeping)],
        sleepers := s.sleepers + {s.current}));
    case SleepOverStep(u) => SleepBoot(s, u);
    case ExitStep(wake) => ExitBoot(s, wake);
    case CreateStep(u, priority) =>
    case ResumeStep(u) => ResumeBoot(s, u);
    case PriorityStep(to) =>
    case IdleStep =>
    case QueueStep(q) =>
  }

  lemma AnyBoot(s: State, t: Tid, head: bool)
    requires t in s.threads && s.threads[t].priority < NUM_PRIORITIES == |s.run|
    ensures EnlistRaw(s, t, head).boot == s.boot && Insert(s, t, head).boot == s.boot
  {
  }

  lemma WakeOneBoot(s: State, q: Qid, resched: bool, err: int)
    requires Inv(s) && q in s.waits
    ensures WakeOne(s, q, resched, err).0.boot == s.boot
  {
    hide Placed, Resched, Insert;
    if s.waits[q].list != [] {
      var t := s.waits[q].list[0];
      WokenThread(s, q, t);
      var u := Unhooked(s, t, err);
      InsertWaits(MarkReady(u, s.current), s.current, true);
      AnyBoot(u, s.current, true);
      var b := if resched then EnlistRaw(u, s.current, true) else u;
      AnyBoot(b, t, true);
      ReschedBoot(Insert(b, t, true));
    }
  }

  lemma TimeoutBoot(s: State, t: Tid)
    requires Inv(s) && t in s.timeouts && t in s.threads
    ensures TimeoutFires(s, t).boot == s.boot
  {
    QueuesThere(s);
    hide RunPlaces, WaitPlaces, OthersPlaced, Insert;
    if s.threads[t].status.Blocked? {
      AnyBoot(Unhooked(s, t, ERR_TIMED_OUT), t, true);
    }
  }

  lemma SleepBoot(s: State, t: Tid)
    requires Inv(s) && t in s.sleepers
    ensures SleepOver(s, t).boot == s.boot
  {
    QueuesThereInv(s);
    SleeperThere(s, t);
    hide Inv, Insert;
    AnyBoot(MarkReady(s.(sleepers := s.sleepers - {t}), t), t, true);
  }

  lemma ExitBoot(s: State, wake: Option<Qid>)
    requires Inv(s) && s.current != s.boot && (wake.Some? ==> wake.value in s.waits)
    ensures Exit(s, wake).boot == s.boot
  {
    CurrentThere(s);
    LeavingPlaced(s, s.threads[s.current].(status := Dead), s.sleepers);
    hide Inv, Placed, Resched, WakeEach;
    if wake.Some? {
      WakeEachDoes(Die(s), wake.value, NO_ERROR);
      ReschedBoot(WakeEach(Die(s), wake.value, NO_ERROR));
    } else {
      ReschedBoot(Die(s));
    }
  }

  lemma ResumeBoot(s: State, t: Tid)
    requires Inv(s) && t in s.threads && s.threads[t].status.Suspended?
    ensures Resume(s, t).0.boot == s.boot
  {
    QueuesThereInv(s);
    CurrentThere(s);
    RawIsEnlist(s, t, true);
    EnlistPlaced(s, t, true);
    RawKeeps(s, t, true);
    AnyBoot(s, t, true);
    hide RunPlaces, WaitPlaces, ThreadsFine, OthersPlaced, EnlistRaw, Enlist, Resched;
    var r := EnlistRaw(s, t, true);
    YieldInv(r);
    AnyBoot(SetQuantum(r, 0), r.current, false);
    ReschedBoot(EnlistRaw(SetQuantum(r, 0), r.current, false));
  }

  lemma DpcInv(w: DpcWorld, m: DpcMove)
    requires DInv(w) && DpcCan(w, m)
    ensures DInv(DpcDone(w, m))
  {
    hide DInv, Queue, ExitThread, Serve, Do, Apart, Inv;
    match m
    case QueueMove(call, resched) => QueuedInv(w, call, resched);
    case ExitMove(cleanup) => ExitedInv(w, cleanup);
    case ServeMove => ServeInv(w);
    case ElseMove(x) => ElseInv(w, x);
  }

  ghost predicate DpcRun(w: DpcWorld, ms: seq<DpcMove>, v: DpcWorld)
    decreases |ms|
  {
    if ms == [] then v == w else DpcCan(w, ms[0]) && DpcRun(DpcDone(w, ms[0]), ms[1..], v)
  }

  /** Over every run each call queued is made once, in the order of queueing, or still to be
      made; while any is left the dpc thread is not waiting for the event. */
  lemma {:induction false} RunDpc(w: DpcWorld, ms: seq<DpcMove>, v: DpcWorld)
    requires DInv(w) && DpcRun(w, ms, v)
    ensures DInv(v) && v.made <= v.queued
    ensures v.list != [] ==> v.thread in v.e.s.threads && v.e.q in v.e.s.waits && v.thread !in v.e.s.waits[v.e.q].list
    decreases |ms|
  {
    if ms != [] {
      hide DInv, DpcCan, DpcDone;
      DpcInv(w, ms[0]);
      RunDpc(DpcDone(w, ms[0]), ms[1..], v);
    } else {
      hide Inv;
      assert v.made + InHand(v) + v.list == v.made + (InHand(v) + v.list);
    }
  }

  /** The dpc list with its event and its one consumer. */
  class DpcList {
    const event: Event
    var list: seq<Call>
    var pc: DpcPc
    const thread: Tid
    ghost var queued: seq<Call>
    ghost var made: seq<Call>

    ghost function W(k: Kernel): DpcWorld
      reads this, k, event
    {
      DpcWorld(event.W(k), list, thread, pc, queued, made)
    }

    /** dpc_init, with its thread created already. */
    constructor (k: Kernel, event: Event, thread: Tid)
      requires EInv(event.W(k)) && !event.auto && thread in k.threads && thread != k.boot
      requires event.q in k.waits && thread !in k.waits[event.q].list
      ensures DInv(W(k)) && this.event == event && this.thread == thread && list == []
    {
      this.event, this.thread, list, pc, queued, made := event, thread, [], AtWait, [], [];
    }

    /** dpc_queue */
    method DpcQueue(k: Kernel, call: Call, noresched: bool)
      requires DInv(W(k))
      modifies this, k, event
      ensures W(k) == Queue(old(W(k)), call, !noresched) && DInv(W(k))
      ensures list == old(list) + [call] && event.signalled
      ensures !old(event.signalled) && event.q in old(k.waits) && old(k.waits[event.q].list) != [] ==>
                if noresched then k.current == old(k.current) else Switching.BestRuns(k.St())
    {
      hide DInv, EInv, Signal, Switching.BestRuns;
      DpcEvent(W(k));
      QueuedInv(W(k), call, !noresched);
      EventIn(event.W(k));
      list := list + [call];
      queued := queued + [call];
      event.SignalEvent(k, !noresched);
    }

    lemma DpcEvent(w: DpcWorld)
      requires DInv(w)
      ensures EInv(w.e) && !w.e.auto
    {
    }

    /** The critical section of dpc_thread_routine: take the next call or unsignal. */
    method Take(k: Kernel) returns (call: Option<Call>)
      requires DInv(W(k)) && pc.AtTake? && k.current == thread
      modifies this, event
      ensures W(k) == Serve(old(W(k))) && DInv(W(k))
      ensures call == if old(list) == [] then None else Some(old(list[0]))
    {
      hide EInv, Inv;
      EventIn(event.W(k));
      ServeInv(W(k));
      if list == [] {
        event.UnsignalEvent(k);
        pc := AtWait;
        return None;
      }
      call := Some(list[0]);
      pc := Making(list[0]);
      list := list[1..];
    }
  }
}
