/** Events over the scheduler's wait queue: who is released by which signal. */
module Events {
  import opened Options
  import opened Threads
  import opened Scheduling
  import opened Waking
  import opened Mutexes
  import opened KernelThreads
  import Switching

  /** The scheduler and an event with its wait queue `q`. The counters are the history:
      signals raised (an event created signalled counts one), waits they let go on, signals
      that found the event already signalled, and signals withdrawn by event_unsignal. */
  datatype EventWorld = EventWorld(s: State, q: Qid, auto: bool, signalled: bool,
                                   raised: nat, released: nat, absorbed: nat, withdrawn: nat)

  ghost predicate EInv(w: EventWorld) {
    && Inv(w.s) && w.q in w.s.waits
    && (w.signalled ==> w.s.waits[w.q].list == [])
    && (w.auto ==> w.raised == w.released + w.absorbed + w.withdrawn + if w.signalled then 1 else 0)
  }

  /** event_wait_timeout up to the switch. */
  function Wait(w: EventWorld, timeout: Timeout): EventWorld
    requires Inv(w.s) && w.q in w.s.waits && (w.signalled || timeout.Zero? || w.s.current != w.s.boot)
  {
    if w.signalled then if w.auto then w.(signalled := false, released := w.released + 1) else w
    else if timeout.Zero? then w
    else CurrentThere(w.s); w.(s := BlockOn(w.s, w.q, timeout.Finite?))
  }

  /** event_signal */
  function Signal(w: EventWorld, resched: bool): EventWorld
    requires Inv(w.s) && w.q in w.s.waits
  {
    var v := w.(raised := w.raised + 1);
    if w.signalled then v.(absorbed := w.absorbed + 1)
    else if w.auto then
      var (s, n) := WakeOne(w.s, w.q, resched, NO_ERROR);
      if n <= 0 then v.(s := s, signalled := true) else v.(s := s, released := w.released + 1)
    else v.(signalled := true, s := WakeAll(w.s, w.q, resched, NO_ERROR).0)
  }

  /** event_unsignal */
  function Unsignal(w: EventWorld): EventWorld {
    w.(signalled := false, withdrawn := if w.signalled then w.withdrawn + 1 else w.withdrawn)
  }

  /** A step of the scheduler on other wait queues, or a timeout, or an interrupt. */
  ghost predicate Apart(s: State, q: Qid, x: Step) {
    && Allowed(s, x)
    && ((x.BlockStep? || x.WakeOneStep? || x.WakeAllStep?) ==> x.q != q)
    && (x.ExitStep? ==> x.wake != Some(q))
  }

  datatype EventMove = WaitMove(timeout: Timeout) | SignalMove(resched: bool) | UnsignalMove | StepMove(step: Step)

  ghost predicate CanDo(w: EventWorld, m: EventMove) {
    Inv(w.s) && w.q in w.s.waits && match m
    case WaitMove(timeout) => w.signalled || timeout.Zero? || w.s.current != w.s.boot
    case StepMove(x) => Apart(w.s, w.q, x)
    case _ => true
  }

  function Done(w: EventWorld, m: EventMove): EventWorld
    requires CanDo(w, m)
  {
    match m
    case WaitMove(timeout) => Wait(w, timeout)
    case SignalMove(resched) => Signal(w, resched)
    case UnsignalMove => Unsignal(w)
    case StepMove(x) => w.(s := Do(w.s, x))
  }

  /** Waking all leaves nobody waiting. */
  lemma WakeAllEmpties(s: State, q: Qid, resched: bool, err: int)
    requires Inv(s) && q in s.waits
    ensures q in WakeAll(s, q, resched, err).0.waits && WakeAll(s, q, resched, err).0.waits[q].list == []
    ensures Inv(WakeAll(s, q, resched, err).0) && WakeAll(s, q, resched, err).1 == |s.waits[q].list|
  {
    WakeAllInv(s, q, resched, err);
    hide Placed, Inv, Resched, WakeEach, Insert;
    YieldInv(s);
    GiveWay(s, true);
    Mutexes.PlacedOf(s);
    InsertWaits(MarkReady(s, s.current), s.current, true);
    var a := if resched && s.waits[q].count > 0 then EnlistRaw(s, s.current, true) else s;
    WakeEachTimes(a, q, err);
    ReschedWaits(WakeEach(a, q, err));
  }

  /** Every waiter is released by an event_signal without auto-unsignal, with NO_ERROR. */
  lemma SignalReleasesAll(w: EventWorld, resched: bool, t: Tid)
    requires EInv(w) && !w.auto && t in w.s.waits[w.q].list
    ensures t in w.s.threads && w.s.threads[t].status.Blocked?
    ensures Told(Signal(w, resched).s, t, NO_ERROR)
  {
    hide Inv;
    InQueue(w.s, w.q, t);
    AllTold(w.s, w.q, resched, NO_ERROR, t);
  }

  lemma AllTold(s: State, q: Qid, resched: bool, err: int, t: Tid)
    requires Inv(s) && q in s.waits && t in s.waits[q].list
    ensures Told(WakeAll(s, q, resched, err).0, t, err)
  {
    hide Placed, Inv, Resched, WakeEach, EnlistRaw;
    YieldInv(s);
    GiveWay(s, true);
    RawKeeps(s, s.current, true);
    Mutexes.PlacedOf(s);
    var a := if resched && s.waits[q].count > 0 then EnlistRaw(s, s.current, true) else s;
    WakeEachDoes(a, q, err);
    ReschedTells(WakeEach(a, q, err), t);
  }

  /** An auto-unsignal event releases exactly the first waiter, if there is one, with and
      without rescheduling; every other thread blocked on any queue stays in its place. */
  lemma SignalReleasesFirst(w: EventWorld, resched: bool)
    requires EInv(w) && w.auto && w.s.waits[w.q].list != []
    ensures var v, t := Signal(w, resched), w.s.waits[w.q].list[0];
            && !v.signalled && v.released == w.released + 1
            && w.q in v.s.waits && v.s.waits[w.q].list == w.s.waits[w.q].list[1..] && Told(v.s, t, NO_ERROR)
    ensures forall u, p | Waits(w.s, u, p) && u != w.s.waits[w.q].list[0] :: Waits(Signal(w, resched).s, u, p)
  {
    hide Inv, Waits, Do, WakeOne;
    WakeDoes(w.s, w.q, resched, NO_ERROR);
    WakeCount(w.s, w.q, resched);
    forall u, p | Waits(w.s, u, p) && u != w.s.waits[w.q].list[0]
      ensures Waits(Signal(w, resched).s, u, p)
    {
      OtherWaitersStay(w.s, w.q, resched, u, p);
    }
  }

  /** A wake leaves every other waiter where it is. */
  lemma OtherWaitersStay(s: State, q: Qid, resched: bool, u: Tid, p: Qid)
    requires Inv(s) && q in s.waits && s.waits[q].list != [] && Waits(s, u, p) && u != s.waits[q].list[0]
    ensures Waits(WakeOne(s, q, resched, NO_ERROR).0, u, p)
  {
    hide Inv, WakeOne;
    StepDecides(s, WakeOneStep(q, resched, NO_ERROR), u, p);
  }

  lemma WakeCount(s: State, q: Qid, resched: bool)
    requires Inv(s) && q in s.waits
    ensures WakeOne(s, q, resched, NO_ERROR).1 == if s.waits[q].list == [] then 0 else 1
    ensures s.waits[q].list == [] ==> WakeOne(s, q, resched, NO_ERROR).0 == s
  {
    hide Inv, Resched, Insert;
  }

  lemma WakeQueue(s: State, q: Qid, resched: bool)
    requires Inv(s) && q in s.waits
    ensures Inv(WakeOne(s, q, resched, NO_ERROR).0) && q in WakeOne(s, q, resched, NO_ERROR).0.waits
  {
    WakeOneInv(s, q, resched, NO_ERROR);
    hide Placed, Resched, Insert;
    if s.waits[q].list != [] {
      var t := s.waits[q].list[0];
      WokenThread(s, q, t);
      var u := Unhooked(s, t, NO_ERROR);
      InsertWaits(MarkReady(u, s.current), s.current, true);
      var b := if resched then EnlistRaw(u, s.current, true) else u;
      InsertWaits(b, t, true);
      ReschedWaits(Insert(b, t, true));
    }
  }

  /** Steps elsewhere add nobody to the queue. */
  lemma ApartKeeps(s: State, q: Qid, x: Step)
    requires Inv(s) && q in s.waits && Apart(s, q, x)
    ensures Inv(Do(s, x)) && q in Do(s, x).waits
    ensures s.waits[q].list == [] ==> Do(s, x).waits[q].list == []
  {
    hide Inv, Do, TimeoutFires;
    DoInv(s, x);
    if x.TimeoutStep? {
      TimeoutThere(s, x);
      TimeoutSpares(s, x.t, q);
    } else {
      StepSpares(s, x, q);
    }
  }

  /** A signalled event never has waiters, and an auto-unsignal event accounts for every
      signal: it released one wait, is still pending, was absorbed or was withdrawn. */
  lemma DoneInv(w: EventWorld, m: EventMove)
    requires EInv(w) && CanDo(w, m)
    ensures EInv(Done(w, m))
  {
    hide Inv, WakeOne, WakeAll, BlockOn, Do, Apart;
    match m
    case WaitMove(timeout) =>
      if !w.signalled && !timeout.Zero? {
        BlockDoes(w.s, w.q, timeout.Finite?);
      }
    case SignalMove(resched) =>
      WakeCount(w.s, w.q, resched);
      WakeQueue(w.s, w.q, resched);
      WakeAllEmpties(w.s, w.q, resched, NO_ERROR);
    case UnsignalMove =>
    case StepMove(x) =>
      ApartKeeps(w.s, w.q, x);
  }

  ghost predicate EventRun(w: EventWorld, ms: seq<EventMove>, v: EventWorld)
    decreases |ms|
  {
    if ms == [] then v == w else CanDo(w, ms[0]) && EventRun(Done(w, ms[0]), ms[1..], v)
  }

  lemma {:induction false} RunEvent(w: EventWorld, ms: seq<EventMove>, v: EventWorld)
    requires EInv(w) && EventRun(w, ms, v)
    ensures EInv(v)
    decreases |ms|
  {
    hide EInv, CanDo, Done;
    if ms != [] {
      DoneInv(w, ms[0]);
      RunEvent(Done(w, ms[0]), ms[1..], v);
    }
  }

  class Event {
    const q: Qid
    const auto: bool
    var signalled: bool
    ghost var raised: nat
    ghost var released: nat
    ghost var absorbed: nat
    ghost var withdrawn: nat

    ghost function W(k: Kernel): EventWorld
      reads this, k
    {
      EventWorld(k.St(), q, auto, signalled, raised, released, absorbed, withdrawn)
    }

    /** event_init, on an empty wait queue of its own. */
    constructor (k: Kernel, q: Qid, initial: bool, auto: bool)
      requires Inv(k.St()) && q in k.waits && k.waits[q].list == []
      ensures EInv(W(k)) && this.q == q && this.auto == auto && signalled == initial
    {
      this.q, this.auto, signalled := q, auto, initial;
      raised, released, absorbed, withdrawn := if initial then 1 else 0, 0, 0, 0;
    }

    /** event_wait_timeout up to the switch; `ret` is final unless it waits. */
    method WaitTimeout(k: Kernel, timeout: nat, infinite: bool) returns (waits: bool, ret: int)
      requires EInv(W(k)) && (signalled || (timeout == 0 && !infinite) || k.current != k.boot)
      modifies this, k
      ensures W(k) == Wait(old(W(k)), if infinite then Infinite else if timeout == 0 then Zero else Finite)
      ensures EInv(W(k))
      ensures waits <==> !old(signalled) && (infinite || timeout > 0)
      ensures !waits ==> ret == if old(signalled) then NO_ERROR else ERR_TIMED_OUT
      ensures signalled <==> old(signalled) && !auto
      ensures !waits ==> k.St() == old(k.St())
      ensures waits ==>
                var c := old(k.current);
                && k.waits == old(k.waits)[q := WaitQueue(old(k.waits[q].list) + [c], old(k.waits[q].count) + 1)]
                && k.timeouts == (if infinite then old(k.timeouts) else old(k.timeouts) + {c})
                && Switching.BestRuns(k.St())
    {
      hide Inv, BlockOn, WakeOne, WakeAll, Switching.BestRuns;
      DoneInv(W(k), WaitMove(if infinite then Infinite else if timeout == 0 then Zero else Finite));
      waits, ret := false, NO_ERROR;
      if signalled {
        if auto {
          signalled := false;
          released := released + 1;
        }
      } else {
        CurrentThere(k.St());
        if infinite || timeout > 0 {
          Switching.BlockBest(k.St(), q, !infinite);
        }
        var timedOut := k.WaitQueueBlock(q, timeout, infinite);
        if timedOut {
          ret := ERR_TIMED_OUT;
        } else {
          waits := true;
        }
      }
    }

    /** event_signal */
    method SignalEvent(k: Kernel, resched: bool)
      requires EInv(W(k))
      modifies this, k
      ensures W(k) == Signal(old(W(k)), resched) && EInv(W(k))
      ensures signalled <==> !auto || old(signalled) || old(k.waits[q].list) == []
      ensures old(signalled) ==> k.St() == old(k.St())
      ensures !old(signalled) && old(k.waits[q].list) != [] ==>
                if resched then Switching.BestRuns(k.St()) else k.current == old(k.current)
    {
      hide Inv, WakeOne, WakeAll, BlockOn, Switching.BestRuns;
      WakeCount(k.St(), q, resched);
      if k.waits[q].list != [] {
        Switching.WakeOneBest(k.St(), q, resched, NO_ERROR);
        Switching.WakeAllBest(k.St(), q, resched, NO_ERROR);
      }
      DoneInv(W(k), SignalMove(resched));
      raised := raised + 1;
      if !signalled {
        if auto {
          var n := k.WaitQueueWakeOne(q, resched, NO_ERROR);
          if n <= 0 {
            signalled := true;
          } else {
            released := released + 1;
          }
        } else {
          signalled := true;
          var n := k.WaitQueueWakeAll(q, resched, NO_ERROR);
        }
      } else {
        absorbed := absorbed + 1;
      }
    }

    /** event_unsignal */
    method UnsignalEvent(k: Kernel)
      requires EInv(W(k))
      modifies this
      ensures W(k) == Unsignal(old(W(k))) && EInv(W(k)) && !signalled
    {
      hide Inv;
      withdrawn := if signalled then withdrawn + 1 else withdrawn;
      signalled := false;
    }
  }
}
