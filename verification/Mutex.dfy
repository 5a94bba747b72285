/** The mutex over the scheduler's wait queue: every interleaving of acquires with and without
    timeout, releases, timeouts and scheduling. */
module Mutexes {
  import opened Options
  import opened RunBitmap
  import opened Threads
  import opened Scheduling
  import opened KernelThreads
  import Switching

  /** Where a thread stands in the code: outside, or inside wait_queue_block of an acquire. */
  datatype Pc = Out | Acquiring(timed: bool)

  /** The scheduler, the mutex with its wait queue `q`, and where each thread stands.
      `handed` is the thread a release has handed the mutex to and that has not run since,
      `late` are the threads timed out that have not yet backed out of the count. */
  datatype World = World(s: State, q: Qid, count: int, holder: Option<Tid>, pcs: map<Tid, Pc>, handed: Option<Tid>,
                         late: set<Tid>)

  predicate Inside(w: World, t: Tid) { t in w.pcs && w.pcs[t].Acquiring? }

  /** The thread has the mutex, or will find it has when it runs. */
  ghost predicate Owns(w: World, t: Tid) {
    w.holder == Some(t)
    || (Inside(w, t) && t in w.s.threads && !w.s.threads[t].status.Blocked? && w.s.threads[t].ret == NO_ERROR)
  }

  predicate Owned(w: World) { w.holder.Some? || w.handed.Some? }

  /** The threads inside an acquire: waiting, handed the mutex, or late. */
  ghost predicate InsidePlaces(w: World) {
    && w.q in w.s.waits
    && (forall t | Inside(w, t) :: t in w.s.threads &&
          if w.s.threads[t].status.Blocked? then w.s.threads[t].waiting == Some(w.q) && w.handed != Some(t)
            && t !in w.late
          else if w.s.threads[t].ret == NO_ERROR then w.handed == Some(t) && t !in w.late
          else w.s.threads[t].ret == ERR_TIMED_OUT && w.pcs[t].timed && t in w.late && w.handed != Some(t))
    && (forall t | t in w.s.waits[w.q].list :: Inside(w, t))
    && (forall t | t in w.late :: Inside(w, t) && !w.s.threads[t].status.Blocked? && w.s.threads[t].ret != NO_ERROR)
    && (w.handed.Some? ==> Inside(w, w.handed.value) && !w.s.threads[w.handed.value].status.Blocked?
                           && w.s.threads[w.handed.value].ret == NO_ERROR)
    && (forall t | Inside(w, t) && !w.pcs[t].timed :: t !in w.s.timeouts)
  }

  /** The invariant: at most one of holder and handed, and the count is owner plus waiters
      plus those who have timed out but not backed out. */
  ghost predicate MInv(w: World) {
    && Inv(w.s) && InsidePlaces(w)
    && !(w.holder.Some? && w.handed.Some?)
    && (w.holder.Some? ==> !Inside(w, w.holder.value))
    && w.count == (if Owned(w) then 1 else 0) + |w.s.waits[w.q].list| + |w.late|
  }

  /** At most one thread owns the mutex. */
  lemma MutualExclusion(w: World, t: Tid, u: Tid)
    requires MInv(w) && Owns(w, t) && Owns(w, u)
    ensures t == u
  {
    hide Inv;
  }

  // ---- the calls ----

  datatype Timeout = Zero | Finite | Infinite

  /** mutex_acquire and mutex_acquire_timeout up to the switch. A thread that calls has no
      wait timer of its own left, and must not hold the mutex already. */
  ghost predicate MayAcquire(w: World, timeout: Timeout) {
    Inv(w.s) && w.q in w.s.waits && w.s.current in w.pcs && w.pcs[w.s.current].Out? && w.holder != Some(w.s.current)
    && w.s.current !in w.s.timeouts && (w.count > 0 && !timeout.Zero? ==> w.s.current != w.s.boot)
  }

  function Acquire(w: World, timeout: Timeout): World
    requires MayAcquire(w, timeout)
  {
    var c := w.s.current;
    CurrentThere(w.s);
    if w.count + 1 > 1 then
      if timeout.Zero? then w.(count := w.count + 1 - 1)
      else w.(count := w.count + 1, s := BlockOn(w.s, w.q, timeout.Finite?),
        pcs := w.pcs[c := Acquiring(timeout.Finite?)])
    else w.(count := w.count + 1, holder := Some(c))
  }

  lemma CurrentThere(s: State)
    requires Inv(s)
    ensures s.current in s.threads
  {
  }

  /** The rest of an acquire, when its thread has the processor again. */
  function Return(w: World): World
    requires Inv(w.s) && Inside(w, w.s.current)
  {
    var c := w.s.current;
    CurrentThere(w.s);
    var ret := w.s.threads[c].ret;
    var s := w.s.(timeouts := w.s.timeouts - {c});
    var v := w.(s := s, pcs := w.pcs[c := Out], late := w.late - {c},
                handed := if w.handed == Some(c) then None else w.handed);
    if ret >= NO_ERROR then v.(holder := Some(c))
    else if !w.pcs[c].timed then v
    else if ret == ERR_TIMED_OUT then v.(count := v.count - 1)
    else v.(holder := Some(c))
  }

  /** mutex_release by the holder. */
  function Release(w: World): World
    requires Inv(w.s) && w.q in w.s.waits && w.holder == Some(w.s.current)
  {
    var v := w.(holder := None, count := w.count - 1);
    if v.count >= 1 then
      v.(s := WakeOne(w.s, w.q, true, NO_ERROR).0,
         handed := if w.s.waits[w.q].list == [] then w.handed else Some(w.s.waits[w.q].list[0]))
    else v
  }

  // ---- everything else that happens ----

  /** A step of the scheduler that is not this mutex's: an interrupt at any time, or a call
      by a thread that is not inside an acquire, on other wait queues. */
  ghost predicate Elsewhere(w: World, x: Step) {
    && Allowed(w.s, x)
    && (Inside(w, w.s.current) ==> x.PreemptStep? || x.TickStep? || x.TimeoutStep? || x.SleepOverStep?)
    && match x
       case BlockStep(q, _) => q != w.q
       case WakeOneStep(q, _, _) => q != w.q
       case WakeAllStep(q, _, _) => q != w.q
       case ExitStep(wake) => wake != Some(w.q)
       case _ => true
  }

  function Other(w: World, x: Step): World
    requires Inv(w.s) && Elsewhere(w, x)
  {
    w.(s := Do(w.s, x),
       pcs := if x.CreateStep? then w.pcs[x.t := Out] else w.pcs,
       late := if x.TimeoutStep? && x.t in w.s.threads && w.s.threads[x.t].status.Blocked?
         && w.s.threads[x.t].waiting == Some(w.q)
               then w.late + {x.t} else w.late)
  }

  /** No thread is created under the number of one inside an acquire. */
  ghost predicate KnownThreads(w: World) {
    forall t | t in w.pcs :: t in w.s.threads
  }

  datatype Move = AcquireMove(timeout: Timeout) | ReturnMove | ReleaseMove | OtherMove(step: Step)

  ghost predicate CanMove(w: World, m: Move) {
    Inv(w.s) && match m
    case AcquireMove(timeout) => MayAcquire(w, timeout)
    case ReturnMove => Inside(w, w.s.current)
    case ReleaseMove => w.q in w.s.waits && w.holder == Some(w.s.current) && !Inside(w, w.s.current)
    case OtherMove(x) => Elsewhere(w, x)
  }

  function Moved(w: World, m: Move): World
    requires CanMove(w, m)
  {
    match m
    case AcquireMove(timeout) => Acquire(w, timeout)
    case ReturnMove => Return(w)
    case ReleaseMove => Release(w)
    case OtherMove(x) => Other(w, x)
  }

  // ---- what scheduler steps elsewhere leave alone ----

  /** Rescheduling touches no wait queue. */
  lemma ReschedWaits(s: State)
    ensures Resched(s).waits == s.waits && Resched(s).timeouts == s.timeouts
  {
    hide TopQueue, Mask, WithoutMask;
  }

  lemma InsertWaits(s: State, t: Tid, head: bool)
    requires t in s.threads && s.threads[t].priority < NUM_PRIORITIES == |s.run|
    ensures Insert(s, t, head).waits == s.waits && Insert(s, t, head).timeouts == s.timeouts
    ensures Insert(s, t, head).threads == s.threads && |Insert(s, t, head).run| == |s.run|
  {
  }

  /** The wait queue `q` and the timeouts are left alone. */
  predicate Spared(s: State, e: State, q: Qid) {
    q in s.waits && q in e.waits && e.waits[q] == s.waits[q] && e.timeouts == s.timeouts
  }

  /** A wake on another queue leaves `q` as it is. */
  lemma WakeOneSpares(s: State, p: Qid, q: Qid, resched: bool, err: int)
    requires Inv(s) && p in s.waits && q in s.waits && p != q
    ensures Spared(s, WakeOne(s, p, resched, err).0, q)
  {
    hide Placed, Resched, Insert;
    if s.waits[p].list != [] {
      var t := s.waits[p].list[0];
      WokenThread(s, p, t);
      var u := Unhooked(s, t, err);
      InsertWaits(MarkReady(u, s.current), s.current, true);
      var b := if resched then EnlistRaw(u, s.current, true) else u;
      InsertWaits(b, t, true);
      ReschedWaits(Insert(b, t, true));
    }
  }

  lemma WakeAllSpares(s: State, p: Qid, q: Qid, resched: bool, err: int)
    requires Inv(s) && p in s.waits && q in s.waits && p != q
    ensures Spared(s, WakeAll(s, p, resched, err).0, q)
  {
    hide Placed, Inv, Resched, WakeEach, Insert;
    YieldInv(s);
    GiveWay(s, true);
    InsertWaits(MarkReady(s, s.current), s.current, true);
    PlacedOf(s);
    var a := if resched && s.waits[p].count > 0 then EnlistRaw(s, s.current, true) else s;
    WakeEachTimes(a, p, err);
    ReschedWaits(WakeEach(a, p, err));
  }

  lemma PlacedOf(s: State)
    requires Inv(s)
    ensures Placed(s)
  {
  }

  lemma {:induction false} WakeEachTimes(s: State, p: Qid, err: int)
    requires Placed(s) && p in s.waits
    ensures WakeEach(s, p, err).timeouts == s.timeouts && WakeEach(s, p, err).waits == s.waits[p := WaitQueue([], 0)]
    decreases |s.waits[p].list|
  {
    WakeEachDoes(s, p, err);
    hide Placed, Insert;
    if s.waits[p].list != [] {
      var t := s.waits[p].list[0];
      WakeStep(s, p, t, err);
      InsertWaits(Unhooked(s, t, err), t, true);
      WakeEachTimes(Insert(Unhooked(s, t, err), t, true), p, err);
    }
  }

  lemma LeavingSpares(s: State, p: Qid, q: Qid, timed: bool)
    requires Inv(s) && q in s.waits
    ensures s.current in s.threads
    ensures p in s.waits && p != q ==> q in BlockOn(s, p, timed).waits && BlockOn(s, p, timed).waits[q] == s.waits[q]
    ensures p in s.waits ==> BlockOn(s, p, timed).timeouts == if timed then s.timeouts + {s.current} else s.timeouts
    ensures Spared(s, Sleep(s), q)
  {
    hide Placed, Resched;
    CurrentThere(s);
    var c := s.current;
    if p in s.waits {
      ReschedWaits(Waiting(s, p, timed));
    }
    ReschedWaits(s.(threads := s.threads[c := s.threads[c].(status := Sleeping)], sleepers := s.sleepers + {c}));
  }

  lemma ExitSpares(s: State, wake: Option<Qid>, q: Qid)
    requires Inv(s) && s.current != s.boot && (wake.Some? ==> wake.value in s.waits) && q in s.waits && wake != Some(q)
    ensures Spared(s, Exit(s, wake), q)
  {
    CurrentThere(s);
    LeavingPlaced(s, s.threads[s.current].(status := Dead), s.sleepers);
    hide Inv, Placed, Resched, WakeEach;
    if wake.Some? {
      WakeEachTimes(Die(s), wake.value, NO_ERROR);
      ReschedWaits(WakeEach(Die(s), wake.value, NO_ERROR));
    } else {
      ReschedWaits(Die(s));
    }
  }

  lemma GiveWaySpares(s: State, q: Qid)
    requires Inv(s) && q in s.waits
    ensures s.current in s.threads && s.threads[s.current].priority < NUM_PRIORITIES == |s.run|
    ensures Spared(s, Yield(s), q) && Spared(s, Preempt(s), q) && Spared(s, Tick(s).0, q)
  {
    hide Placed, Inv, Resched, Insert;
    YieldInv(s);
    var z, head := SetQuantum(s, 0), s.threads[s.current].quantum > 0;
    InsertWaits(MarkReady(z, s.current), s.current, false);
    ReschedWaits(EnlistRaw(z, s.current, false));
    InsertWaits(MarkReady(s, s.current), s.current, head);
    ReschedWaits(EnlistRaw(s, s.current, head));
  }

  lemma ResumeSpares(s: State, t: Tid, q: Qid)
    requires Inv(s) && t in s.threads && s.threads[t].status.Suspended? && q in s.waits
    ensures Spared(s, Resume(s, t).0, q)
  {
    RawIsEnlist(s, t, true);
    EnlistPlaced(s, t, true);
    RawKeeps(s, t, true);
    InsertWaits(MarkReady(s, t), t, true);
    hide RunPlaces, WaitPlaces, ThreadsFine, OthersPlaced, EnlistRaw, Enlist, Yield;
    assert EnlistRaw(s, t, true).timeouts == s.timeouts by { RawTimes(s, t); }
    GiveWaySpares(EnlistRaw(s, t, true), q);
  }

  lemma RawTimes(s: State, t: Tid)
    requires t in s.threads && s.threads[t].priority < NUM_PRIORITIES == |s.run|
    ensures EnlistRaw(s, t, true).timeouts == s.timeouts
  {
  }

  /** A timeout takes its thread out of the wait queue it is in, and leaves the others alone. */
  lemma TimeoutSpares(s: State, t: Tid, q: Qid)
    requires Inv(s) && t in s.timeouts && t in s.threads && q in s.waits
    ensures var e := TimeoutFires(s, t);
            && q in e.waits && e.timeouts == s.timeouts - {t}
            && (s.threads[t].status.Blocked? && s.threads[t].waiting == Some(q) ==>
                  e.waits[q].list == Remove(s.waits[q].list, t)
                  && t in e.threads && !e.threads[t].status.Blocked? && e.threads[t].ret == ERR_TIMED_OUT)
            && (!(s.threads[t].status.Blocked? && s.threads[t].waiting == Some(q)) ==> e.waits[q] == s.waits[q])
  {
    QueuesThere(s);
    hide RunPlaces, WaitPlaces, OthersPlaced, Insert, Remove;
    if s.threads[t].status.Blocked? {
      InsertWaits(Unhooked(s, t, ERR_TIMED_OUT), t, true);
    }
  }

  /** A step elsewhere that is no timeout leaves the mutex's wait queue alone. */
  lemma StepSpares(s: State, x: Step, q: Qid)
    requires Inv(s) && Allowed(s, x) && q in s.waits && !x.TimeoutStep?
    requires (x.BlockStep? || x.WakeOneStep? || x.WakeAllStep?) ==> x.q != q
    requires x.ExitStep? ==> x.wake != Some(q)
    ensures var e := Do(s, x);
            && q in e.waits && e.waits[q] == s.waits[q]
            && e.timeouts <= s.timeouts + (if x.BlockStep? then {s.current} else {})
  {
    hide Inv, Placed, Yield, Preempt, Tick, BlockOn, WakeOne, WakeAll, TimeoutFires, Sleep, Exit, Resume;
    YieldInv(s);
    match x
    case YieldStep => GiveWaySpares(s, q);
    case PreemptStep => GiveWaySpares(s, q);
    case TickStep => GiveWaySpares(s, q);
    case BlockStep(p, timed) => LeavingSpares(s, p, q, timed);
    case ReturnStep =>
    case WakeOneStep(p, resched, err) => WakeOneSpares(s, p, q, resched, err);
    case WakeAllStep(p, resched, err) => WakeAllSpares(s, p, q, resched, err);
    case SleepStep => LeavingSpares(s, q, q, false);
    case SleepOverStep(u) =>
      QueuesThereInv(s);
      SleeperThere(s, u);
      InsertWaits(MarkReady(s.(sleepers := s.sleepers - {u}), u), u, true);
    case ExitStep(wake) => ExitSpares(s, wake, q);
    case CreateStep(u, priority) =>
    case ResumeStep(u) => ResumeSpares(s, u, q);
    case PriorityStep(to) =>
    case IdleStep =>
    case QueueStep(p) =>
  }

  // ---- a thread inside an acquire is left alone by steps elsewhere ----

  lemma CurrentTold(s: State, x: Step)
    requires Inv(s) && Allowed(s, x) && (x.PreemptStep? || x.TickStep? || x.TimeoutStep? || x.SleepOverStep?)
    ensures s.current in s.threads && !s.threads[s.current].status.Blocked?
    ensures Told(Do(s, x), s.current, s.threads[s.current].ret)
  {
    hide Placed, Resched, EnlistRaw, Insert, TimeoutFires;
    YieldInv(s);
    var t := s.current;
    match x
    case PreemptStep =>
      var head := s.threads[t].quantum > 0;
      RawTells(s, t, head, t);
      ReschedTells(EnlistRaw(s, t, head), t);
    case TickStep =>
    case TimeoutStep(u) => TimeoutTells(s, u, t);
    case SleepOverStep(u) =>
      QueuesThereInv(s);
      SleeperThere(s, u);
      InsertThreads(MarkReady(s.(sleepers := s.sleepers - {u}), u), u);
  }

  lemma InsideTold(w: World, x: Step, t: Tid)
    requires MInv(w) && Elsewhere(w, x) && Inside(w, t) && !w.s.threads[t].status.Blocked?
    ensures Told(Do(w.s, x), t, w.s.threads[t].ret)
  {
    hide Inv, Allowed, Do;
    if t == w.s.current {
      CurrentTold(w.s, x);
    } else {
      StepTells(w.s, x, t);
    }
  }

  /** Who is in the wait queue, from the invariant. */
  lemma InQueue(s: State, q: Qid, t: Tid)
    requires Inv(s) && q in s.waits
    ensures t in s.waits[q].list <==> t in s.threads && s.threads[t].status.Blocked? && s.threads[t].waiting == Some(q)
  {
    hide RunPlaces, ThreadsFine, OthersPlaced, Distinct;
  }

  /** The places of the threads inside survive a step that spares the queue. */
  lemma SparedPlaces(w: World, v: World)
    requires Inv(w.s) && InsidePlaces(w) && Inv(v.s) && v.q == w.q && v.handed == w.handed && v.late == w.late
    requires w.q in v.s.waits && v.s.waits[w.q] == w.s.waits[w.q]
    requires forall t :: Inside(v, t) <==> Inside(w, t)
    requires forall t | Inside(w, t) :: t in v.pcs && v.pcs[t] == w.pcs[t]
    requires forall t | Inside(w, t) && !w.s.threads[t].status.Blocked? :: Told(v.s, t, w.s.threads[t].ret)
    requires forall t | Inside(w, t) && !w.pcs[t].timed :: t !in v.s.timeouts
    ensures InsidePlaces(v)
  {
    hide Inv;
    forall t | Inside(v, t)
      ensures t in v.s.threads
      ensures if v.s.threads[t].status.Blocked? then v.s.threads[t].waiting == Some(v.q) && v.handed != Some(t)
              && t !in v.late
              else if v.s.threads[t].ret == NO_ERROR then v.handed == Some(t) && t !in v.late
              else v.s.threads[t].ret == ERR_TIMED_OUT && v.pcs[t].timed && t in v.late && v.handed != Some(t)
    {
      assert Inside(w, t);
      InQueue(w.s, w.q, t);
      InQueue(v.s, w.q, t);
    }
  }

  // ---- every move keeps the invariant ----

  lemma OtherInv(w: World, x: Step)
    requires MInv(w) && KnownThreads(w) && Elsewhere(w, x)
    ensures MInv(Other(w, x)) && KnownThreads(Other(w, x))
  {
    hide Inv, Do, Allowed, Distinct, Told;
    var v := Other(w, x);
    DoInv(w.s, x);
    StepThreads(w.s, x);
    forall t | Inside(w, t) && !w.s.threads[t].status.Blocked?
      ensures Told(v.s, t, w.s.threads[t].ret)
    {
      InsideTold(w, x, t);
    }
    assert x.CreateStep? ==> x.t !in w.pcs by {
      if x.CreateStep? {
        FreshThread(w.s, x);
      }
    }
    if x.TimeoutStep? {
      TimeoutThere(w.s, x);
      TimeoutMove(w, x, v);
    } else {
      StepSpares(w.s, x, w.q);
      SparedPlaces(w, v);
    }
  }

  lemma FreshThread(s: State, x: Step)
    requires Allowed(s, x) && x.CreateStep?
    ensures x.t !in s.threads
  {
  }

  lemma TimeoutThere(s: State, x: Step)
    requires Inv(s) && Allowed(s, x) && x.TimeoutStep?
    ensures x.t in s.timeouts && x.t in s.threads && Do(s, x) == TimeoutFires(s, x.t)
  {
    hide Inv, TimeoutFires;
  }

  /** No step removes a thread. */
  lemma StepThreads(s: State, x: Step)
    requires Inv(s) && Allowed(s, x)
    ensures forall t | t in s.threads :: t in Do(s, x).threads
    ensures x.CreateStep? ==> x.t in Do(s, x).threads
  {
    hide Inv;
    forall t | t in s.threads
      ensures t in Do(s, x).threads
    {
      StepKeepsThread(s, x, t);
    }
  }

  lemma StepKeepsThread(s: State, x: Step, t: Tid)
    requires Inv(s) && Allowed(s, x) && t in s.threads
    ensures t in Do(s, x).threads
  {
    hide Inv, Placed, Resched, EnlistRaw, Insert, WakeEach, Waiting;
    YieldInv(s);
    match x
    case YieldStep =>
      ReschedKeys(EnlistRaw(SetQuantum(s, 0), s.current, false));
      RawKeeps(SetQuantum(s, 0), s.current, false);
    case PreemptStep =>
      ReschedKeys(EnlistRaw(s, s.current, s.threads[s.current].quantum > 0));
      RawKeeps(s, s.current, s.threads[s.current].quantum > 0);
    case TickStep =>
    case BlockStep(q, timed) => ReschedKeys(Waiting(s, q, timed)); WaitingKeys(s, q, timed);
    case ReturnStep =>
    case WakeOneStep(q, resched, err) => WakeKeys(s, q, resched, err);
    case WakeAllStep(q, resched, err) => WakeKeys(s, q, resched, err);
    case TimeoutStep(u) => TimeoutKeys(s, u);
    case SleepStep =>
      ReschedKeys(s.(threads := s.threads[s.current := s.threads[s.current].(status := Sleeping)],
        sleepers := s.sleepers + {s.current}));
    case SleepOverStep(u) => SleepKeys(s, u);
    case ExitStep(wake) => ExitKeys(s, wake);
    case CreateStep(u, priority) =>
    case ResumeStep(u) => ResumeKeys(s, u);
    case PriorityStep(to) =>
    case IdleStep =>
    case QueueStep(q) =>
  }

  lemma ReschedKeys(s: State)
    ensures Resched(s).threads.Keys == s.threads.Keys
  {
    hide TopQueue, Mask, WithoutMask;
  }

  lemma WaitingKeys(s: State, q: Qid, timed: bool)
    requires s.current in s.threads && q in s.waits
    ensures Waiting(s, q, timed).threads.Keys == s.threads.Keys
  {
  }

  lemma WakeKeys(s: State, q: Qid, resched: bool, err: int)
    requires Inv(s) && q in s.waits
    ensures WakeOne(s, q, resched, err).0.threads.Keys == s.threads.Keys
    ensures WakeAll(s, q, resched, err).0.threads.Keys == s.threads.Keys
  {
    WakeOneKeys(s, q, resched, err);
    WakeAllKeys(s, q, resched, err);
  }

  lemma WakeOneKeys(s: State, q: Qid, resched: bool, err: int)
    requires Inv(s) && q in s.waits
    ensures WakeOne(s, q, resched, err).0.threads.Keys == s.threads.Keys
  {
    hide Placed, Resched, Insert;
    if s.waits[q].list != [] {
      var t := s.waits[q].list[0];
      WokenThread(s, q, t);
      var u := Unhooked(s, t, err);
      InsertWaits(MarkReady(u, s.current), s.current, true);
      var b := if resched then EnlistRaw(u, s.current, true) else u;
      InsertWaits(b, t, true);
      ReschedKeys(Insert(b, t, true));
    }
  }

  lemma WakeAllKeys(s: State, q: Qid, resched: bool, err: int)
    requires Inv(s) && q in s.waits
    ensures WakeAll(s, q, resched, err).0.threads.Keys == s.threads.Keys
  {
    hide Placed, Inv, Resched, WakeEach, Insert;
    YieldInv(s);
    GiveWay(s, true);
    InsertWaits(MarkReady(s, s.current), s.current, true);
    PlacedOf(s);
    var a := if resched && s.waits[q].count > 0 then EnlistRaw(s, s.current, true) else s;
    WakeEachDoes(a, q, err);
    ReschedKeys(WakeEach(a, q, err));
  }

  lemma TimeoutKeys(s: State, t: Tid)
    requires Inv(s) && t in s.timeouts && t in s.threads
    ensures TimeoutFires(s, t).threads.Keys == s.threads.Keys
  {
    QueuesThere(s);
    hide RunPlaces, WaitPlaces, OthersPlaced, Insert;
    if s.threads[t].status.Blocked? {
      InsertWaits(Unhooked(s, t, ERR_TIMED_OUT), t, true);
    }
  }

  lemma SleepKeys(s: State, t: Tid)
    requires Inv(s) && t in s.sleepers
    ensures SleepOver(s, t).threads.Keys == s.threads.Keys
  {
    QueuesThereInv(s);
    SleeperThere(s, t);
    hide Inv, Insert;
    InsertWaits(MarkReady(s.(sleepers := s.sleepers - {t}), t), t, true);
  }

  lemma ExitKeys(s: State, wake: Option<Qid>)
    requires Inv(s) && s.current != s.boot && (wake.Some? ==> wake.value in s.waits)
    ensures Exit(s, wake).threads.Keys == s.threads.Keys
  {
    CurrentThere(s);
    LeavingPlaced(s, s.threads[s.current].(status := Dead), s.sleepers);
    hide Inv, Placed, Resched, WakeEach;
    if wake.Some? {
      WakeEachDoes(Die(s), wake.value, NO_ERROR);
      ReschedKeys(WakeEach(Die(s), wake.value, NO_ERROR));
    } else {
      ReschedKeys(Die(s));
    }
  }

  lemma ResumeKeys(s: State, t: Tid)
    requires Inv(s) && t in s.threads && s.threads[t].status.Suspended?
    ensures Resume(s, t).0.threads.Keys == s.threads.Keys
  {
    RawIsEnlist(s, t, true);
    EnlistPlaced(s, t, true);
    RawKeeps(s, t, true);
    hide RunPlaces, WaitPlaces, ThreadsFine, OthersPlaced, EnlistRaw, Enlist, Resched;
    YieldKeys(EnlistRaw(s, t, true));
  }

  lemma YieldKeys(r: State)
    requires Inv(r)
    ensures Yield(r).threads.Keys == r.threads.Keys
  {
    hide RunPlaces, WaitPlaces, ThreadsFine, OthersPlaced, EnlistRaw, Resched;
    YieldInv(r);
    RawKeeps(SetQuantum(r, 0), r.current, false);
    ReschedKeys(EnlistRaw(SetQuantum(r, 0), r.current, false));
  }

  /** A timeout moves its thread from the waiters to the late ones. */
  lemma TimeoutMove(w: World, x: Step, v: World)
    requires MInv(w) && x.TimeoutStep? && x.t in w.s.timeouts && x.t in w.s.threads
    requires v == w.(s := TimeoutFires(w.s, x.t), late := v.late)
    requires v.late == if w.s.threads[x.t].status.Blocked? && w.s.threads[x.t].waiting == Some(w.q) then w.late + {x.t}
               else w.late
    requires Inv(v.s) && forall t | Inside(w, t) && !w.s.threads[t].status.Blocked? :: Told(v.s, t, w.s.threads[t].ret)
    requires forall t | t in w.s.threads :: t in v.s.threads
    ensures MInv(v)
  {
    hide Inv, TimeoutFires;
    TimeoutSpares(w.s, x.t, w.q);
    if w.s.threads[x.t].status.Blocked? && w.s.threads[x.t].waiting == Some(w.q) {
      InQueue(w.s, w.q, x.t);
      QueueDistinct(w.s, w.q);
      RemoveIs(w.s.waits[w.q].list, x.t);
      LatePlaces(w, x.t, v);
      assert x.t !in w.late;
    } else {
      SparedPlaces(w, v);
    }
  }

  lemma QueueDistinct(s: State, q: Qid)
    requires Inv(s) && q in s.waits
    ensures Distinct(s.waits[q].list)
  {
    hide RunPlaces, ThreadsFine, OthersPlaced, Distinct;
  }

  lemma LatePlaces(w: World, u: Tid, v: World)
    requires Inv(w.s) && InsidePlaces(w) && Inv(v.s) && v.q == w.q && v.handed == w.handed
    requires v.late == w.late + {u} && v.pcs == w.pcs
    requires u in w.s.waits[w.q].list && w.q in v.s.waits && u in w.s.timeouts && v.s.timeouts <= w.s.timeouts
    requires forall t :: t in v.s.waits[w.q].list <==> t in w.s.waits[w.q].list && t != u
    requires u in v.s.threads && !v.s.threads[u].status.Blocked? && v.s.threads[u].ret == ERR_TIMED_OUT
    requires forall t | Inside(w, t) && !w.s.threads[t].status.Blocked? :: Told(v.s, t, w.s.threads[t].ret)
    ensures InsidePlaces(v)
  {
    hide Inv;
    forall t | Inside(v, t)
      ensures t in v.s.threads
      ensures if v.s.threads[t].status.Blocked? then v.s.threads[t].waiting == Some(v.q) && v.handed != Some(t)
              && t !in v.late
              else if v.s.threads[t].ret == NO_ERROR then v.handed == Some(t) && t !in v.late
              else v.s.threads[t].ret == ERR_TIMED_OUT && v.pcs[t].timed && t in v.late && v.handed != Some(t)
    {
      InQueue(w.s, w.q, t);
      InQueue(v.s, w.q, t);
      InQueue(w.s, w.q, u);
    }
  }

  /** A thread that blocks is the last in the queue; nobody else is touched. */
  lemma BlockDoes(s: State, q: Qid, timed: bool)
    requires Inv(s) && q in s.waits && s.current != s.boot
    ensures s.current in s.threads && Inv(BlockOn(s, q, timed))
    ensures var e := BlockOn(s, q, timed);
            && q in e.waits && e.waits[q].list == s.waits[q].list + [s.current]
            && e.timeouts == (if timed then s.timeouts + {s.current} else s.timeouts)
            && e.threads.Keys == s.threads.Keys
    ensures forall t | t in s.threads && t != s.current && !s.threads[t].status.Blocked? ::
              Told(BlockOn(s, q, timed), t, s.threads[t].ret)
  {
    BlockInv(s, q, timed);
    forall t | t in s.threads && t != s.current && !s.threads[t].status.Blocked?
      ensures Told(BlockOn(s, q, timed), t, s.threads[t].ret)
    {
      LeaveTells(s, q, timed, t);
    }
    hide Placed, Resched;
    CurrentThere(s);
    ReschedWaits(Waiting(s, q, timed));
    ReschedKeys(Waiting(s, q, timed));
  }

  /** The places of the threads inside when one more has joined the waiters. */
  lemma JoinedPlaces(w: World, v: World, c: Tid, timed: bool)
    requires Inv(w.s) && InsidePlaces(w) && Inv(v.s) && v.q == w.q && v.handed == w.handed && v.late == w.late
    requires c in w.s.threads && !Inside(w, c) && v.pcs == w.pcs[c := Acquiring(timed)]
    requires w.q in v.s.waits && v.s.waits[w.q].list == w.s.waits[w.q].list + [c]
    requires v.s.timeouts == (if timed then w.s.timeouts + {c} else w.s.timeouts) && (!timed ==> c !in w.s.timeouts)
    requires forall t | t in w.s.threads && t != c && !w.s.threads[t].status.Blocked? ::
               Told(v.s, t, w.s.threads[t].ret)
    ensures InsidePlaces(v)
  {
    hide Inv;
    forall t | Inside(v, t)
      ensures t in v.s.threads
      ensures if v.s.threads[t].status.Blocked? then v.s.threads[t].waiting == Some(v.q) && v.handed != Some(t)
              && t !in v.late
              else if v.s.threads[t].ret == NO_ERROR then v.handed == Some(t) && t !in v.late
              else v.s.threads[t].ret == ERR_TIMED_OUT && v.pcs[t].timed && t in v.late && v.handed != Some(t)
    {
      InQueue(w.s, w.q, t);
      InQueue(v.s, w.q, t);
    }
  }

  lemma AcquireInv(w: World, timeout: Timeout)
    requires MInv(w) && KnownThreads(w) && MayAcquire(w, timeout)
    ensures MInv(Acquire(w, timeout)) && KnownThreads(Acquire(w, timeout))
  {
    hide Inv, BlockOn, InsidePlaces;
    var c, v := w.s.current, Acquire(w, timeout);
    CurrentThere(w.s);
    if w.count > 0 && !timeout.Zero? {
      BlockDoes(w.s, w.q, timeout.Finite?);
      JoinedPlaces(w, v, c, timeout.Finite?);
      assert v.holder.Some? ==> v.holder.value != c;
    } else if w.count == 0 {
      HolderPlaces(w, v);
    }
  }

  /** Who holds the mutex is no matter for the places. */
  lemma HolderPlaces(w: World, v: World)
    requires InsidePlaces(w) && v.s == w.s && v.q == w.q && v.pcs == w.pcs && v.handed == w.handed && v.late == w.late
    ensures InsidePlaces(v)
  {
    hide Inv;
  }

  lemma LateSize(late: set<Tid>, c: Tid)
    requires c in late
    ensures |late - {c}| == |late| - 1
  {
  }

  /** The places of the threads inside when the current one has left. */
  lemma LeftPlaces(w: World, v: World, c: Tid)
    requires InsidePlaces(w) && Inside(w, c) && !w.s.threads[c].status.Blocked?
    requires c !in w.s.waits[w.q].list
    requires v.s == w.s.(timeouts := w.s.timeouts - {c}) && v.q == w.q && v.pcs == w.pcs[c := Out]
    requires v.late == w.late - {c}
    requires v.handed == if w.handed == Some(c) then None else w.handed
    ensures InsidePlaces(v)
  {
  }

  lemma ReturnInv(w: World)
    requires MInv(w) && KnownThreads(w) && Inside(w, w.s.current)
    ensures MInv(Return(w)) && KnownThreads(Return(w))
  {
    hide Inv, InsidePlaces, KnownThreads;
    var c, v := w.s.current, Return(w);
    CurrentRuns(w.s);
    QueueIn(w);
    InQueue(w.s, w.q, c);
    TimeoutsFree(w.s, w.s.timeouts - {c});
    LeftPlaces(w, v, c);
    WhichWay(w, c);
    if c in w.late {
      LateSize(w.late, c);
    } else {
      assert w.late - {c} == w.late;
    }
    KnownLeft(w, v, c);
  }

  lemma KnownLeft(w: World, v: World, c: Tid)
    requires KnownThreads(w) && c in w.pcs && v.pcs == w.pcs[c := Out] && v.s.threads == w.s.threads
    ensures KnownThreads(v)
  {
  }

  lemma CurrentRuns(s: State)
    requires Inv(s)
    ensures s.current in s.threads && !s.threads[s.current].status.Blocked?
  {
  }

  /** A returning thread has been handed the mutex or is late. */
  lemma WhichWay(w: World, c: Tid)
    requires InsidePlaces(w) && Inside(w, c) && c in w.s.threads && !w.s.threads[c].status.Blocked?
    ensures if w.s.threads[c].ret == NO_ERROR then w.handed == Some(c) && c !in w.late
            else w.s.threads[c].ret == ERR_TIMED_OUT && w.pcs[c].timed && c in w.late && w.handed != Some(c)
  {
  }

  /** A wake takes the first waiter, and tells it so. */
  lemma WakeDoes(s: State, q: Qid, resched: bool, err: int)
    requires Inv(s) && q in s.waits && s.waits[q].list != []
    ensures var e, t := WakeOne(s, q, resched, err).0, s.waits[q].list[0];
            && Inv(e) && q in e.waits && e.waits[q].list == s.waits[q].list[1..] && e.timeouts == s.timeouts
            && e.threads.Keys == s.threads.Keys && Told(e, t, err) && t in s.threads && t != s.current
    ensures forall t | t in s.threads && t != s.current && !s.threads[t].status.Blocked? ::
              Told(WakeOne(s, q, resched, err).0, t, s.threads[t].ret)
  {
    WakeOneInv(s, q, resched, err);
    WakeOneKeys(s, q, resched, err);
    forall t | t in s.threads && t != s.current && !s.threads[t].status.Blocked?
      ensures Told(WakeOne(s, q, resched, err).0, t, s.threads[t].ret)
    {
      WakeOneTells(s, q, resched, err, t);
    }
    hide Placed, Resched, Insert;
    var t := s.waits[q].list[0];
    WokenThread(s, q, t);
    var u := Unhooked(s, t, err);
    RemoveFirst(s.waits[q].list);
    InsertWaits(MarkReady(u, s.current), s.current, true);
    var b := if resched then EnlistRaw(u, s.current, true) else u;
    InsertWaits(b, t, true);
    ReschedWaits(Insert(b, t, true));
    ReschedTells(Insert(b, t, true), t);
  }

  lemma RemoveFirst(q: seq<Tid>)
    requires q != []
    ensures Remove(q, q[0]) == q[1..]
  {
  }

  /** The places of the threads inside when the first waiter has been handed the mutex. */
  lemma HandedPlaces(w: World, v: World, u: Tid)
    requires Inv(w.s) && InsidePlaces(w) && Inv(v.s) && v.q == w.q && w.handed == None && v.handed == Some(u)
    requires v.late == w.late
    requires v.pcs == w.pcs && w.s.waits[w.q].list != [] && u == w.s.waits[w.q].list[0]
    requires w.q in v.s.waits && v.s.waits[w.q].list == w.s.waits[w.q].list[1..] && v.s.timeouts == w.s.timeouts
    requires Told(v.s, u, NO_ERROR)
    requires forall t | Inside(w, t) && !w.s.threads[t].status.Blocked? :: Told(v.s, t, w.s.threads[t].ret)
    ensures InsidePlaces(v)
  {
    hide Inv;
    QueueDistinct(w.s, w.q);
    DistinctTail(w.s.waits[w.q].list);
    InQueue(w.s, w.q, u);
    hide Distinct;
    forall t | Inside(v, t)
      ensures t in v.s.threads
      ensures if v.s.threads[t].status.Blocked? then v.s.threads[t].waiting == Some(v.q) && v.handed != Some(t)
              && t !in v.late
              else if v.s.threads[t].ret == NO_ERROR then v.handed == Some(t) && t !in v.late
              else v.s.threads[t].ret == ERR_TIMED_OUT && v.pcs[t].timed && t in v.late && v.handed != Some(t)
    {
      InQueue(w.s, w.q, t);
      InQueue(v.s, w.q, t);
    }
  }

  lemma ReleaseInv(w: World)
    requires MInv(w) && KnownThreads(w) && w.holder == Some(w.s.current)
    ensures MInv(Release(w)) && KnownThreads(Release(w))
  {
    hide Inv, InsidePlaces, WakeOne;
    QueueIn(w);
    var v := Release(w);
    if w.s.waits[w.q].list != [] {
      WakeDoes(w.s, w.q, true, NO_ERROR);
      NotBlockedInside(w);
      HandedPlaces(w, v, w.s.waits[w.q].list[0]);
    } else {
      NoWake(w.s, w.q);
      HolderPlaces(w, v);
    }
  }

  lemma QueueIn(w: World)
    requires MInv(w)
    ensures w.q in w.s.waits
  {
  }

  lemma NoWake(s: State, q: Qid)
    requires Inv(s) && q in s.waits && s.waits[q].list == []
    ensures WakeOne(s, q, true, NO_ERROR).0 == s
  {
    hide Inv;
  }

  lemma NotBlockedInside(w: World)
    requires MInv(w) && w.holder == Some(w.s.current)
    ensures forall t | Inside(w, t) :: t in w.s.threads && t != w.s.current
  {
    hide Inv;
  }

  /** Every interleaving keeps the invariant. */
  lemma MoveInv(w: World, m: Move)
    requires MInv(w) && KnownThreads(w) && CanMove(w, m)
    ensures MInv(Moved(w, m)) && KnownThreads(Moved(w, m))
  {
    hide MInv, KnownThreads, MayAcquire, Elsewhere, Inv, Inside;
    match m
    case AcquireMove(timeout) => AcquireInv(w, timeout);
    case ReturnMove => ReturnInv(w);
    case ReleaseMove => ReleaseInv(w);
    case OtherMove(x) => OtherInv(w, x);
  }

  /** `v` is reached from `w` by the moves. */
  ghost predicate Leads(w: World, ms: seq<Move>, v: World)
    decreases |ms|
  {
    if ms == [] then v == w else CanMove(w, ms[0]) && Leads(Moved(w, ms[0]), ms[1..], v)
  }

  /** Over all interleavings there is at most one owner, and the count is the owner, the
      waiters and the late ones together. */
  lemma {:induction false} RunMutex(w: World, ms: seq<Move>, v: World)
    requires MInv(w) && KnownThreads(w) && Leads(w, ms, v)
    ensures MInv(v) && KnownThreads(v)
    decreases |ms|
  {
    hide MInv, KnownThreads, CanMove, Moved;
    if ms != [] {
      MoveInv(w, ms[0]);
      RunMutex(Moved(w, ms[0]), ms[1..], v);
    }
  }

  // ---- do waiters imply an owner? ----

  /** No thread waits for a mutex that nobody has. */
  ghost predicate WaitersOwned(w: World) {
    w.q in w.s.waits && (w.s.waits[w.q].list != [] ==> Owned(w))
  }

  /** The guard of the move that fails: an acquire that finds the count positive although
      there is no holder, every count being that of a thread that has timed out and not yet
      backed out. */
  ghost predicate Strands(w: World, m: Move) {
    m.AcquireMove? && !m.timeout.Zero? && w.count > 0 && w.holder.None? && w.count == |w.late|
  }

  /** A move leaves a waiter without an owner exactly when it is such an acquire. */
  lemma WaitersOwnedIff(w: World, m: Move)
    requires MInv(w) && KnownThreads(w) && WaitersOwned(w) && CanMove(w, m)
    ensures WaitersOwned(Moved(w, m)) <==> !Strands(w, m)
  {
    hide MInv, Inv, Acquire, Return, Release, Other, WaitersOwned, Allowed;
    match m
    case AcquireMove(timeout) => AcquireOwned(w, timeout);
    case ReturnMove => ReturnKept(w);
    case ReleaseMove => ReleaseOwned(w);
    case OtherMove(x) => OtherOwned(w, x);
  }

  lemma AcquireOwned(w: World, timeout: Timeout)
    requires MInv(w) && WaitersOwned(w) && MayAcquire(w, timeout)
    ensures WaitersOwned(Acquire(w, timeout)) <==> !Strands(w, AcquireMove(timeout))
  {
    hide Inv, InsidePlaces, BlockOn;
    if w.count > 0 && !timeout.Zero? {
      BlockDoes(w.s, w.q, timeout.Finite?);
    }
  }

  lemma ReturnKept(w: World)
    requires MInv(w) && WaitersOwned(w) && Inside(w, w.s.current)
    ensures Inv(w.s) && WaitersOwned(Return(w))
  {
    hide Inv, InsidePlaces;
    ReturnOwned(w);
  }

  lemma ReleaseOwned(w: World)
    requires MInv(w) && WaitersOwned(w) && w.q in w.s.waits && w.holder == Some(w.s.current)
    ensures Inv(w.s) && WaitersOwned(Release(w))
  {
    hide Inv, InsidePlaces, WakeOne;
    if w.s.waits[w.q].list != [] {
      WakeDoes(w.s, w.q, true, NO_ERROR);
    } else if w.count > 1 {
      NoWake(w.s, w.q);
    }
  }

  lemma OtherOwned(w: World, x: Step)
    requires MInv(w) && WaitersOwned(w) && Elsewhere(w, x)
    ensures Inv(w.s) && WaitersOwned(Other(w, x))
  {
    hide Inv, InsidePlaces, Do, Allowed;
    if x.TimeoutStep? {
      TimeoutThere(w.s, x);
      TimeoutSpares(w.s, x.t, w.q);
      hide TimeoutFires;
      if w.s.threads[x.t].status.Blocked? && w.s.threads[x.t].waiting == Some(w.q) {
        InQueue(w.s, w.q, x.t);
      }
    } else {
      StepSpares(w.s, x, w.q);
    }
  }

  /** Backing out changes no ownership; being handed the mutex makes it held. */
  lemma ReturnOwned(w: World)
    requires MInv(w) && Inside(w, w.s.current)
    ensures Owned(Return(w)) == Owned(w) && w.q in Return(w).s.waits && Return(w).s.waits[w.q] == w.s.waits[w.q]
  {
    var c := w.s.current;
    assert !w.s.threads[c].status.Blocked?;
    hide Inv;
  }

  /** Such an acquire only ever happens while somebody is late, and then nobody has been
      handed the mutex either. */
  lemma StrandsOnlyLate(w: World, m: Move)
    requires MInv(w) && Strands(w, m)
    ensures w.late != {} && !Owned(w) && forall t :: !Owns(w, t)
  {
    hide Inv;
  }

  /** A thread waits without a timeout for a mutex that nobody has. */
  ghost predicate Stranded(w: World, t: Tid) {
    !Owned(w) && w.q in w.s.waits && t in w.s.waits[w.q].list && Inside(w, t) && !w.pcs[t].timed
  }

  lemma StrandedThere(w: World, t: Tid)
    requires MInv(w) && Stranded(w, t)
    ensures t in w.s.threads && t != w.s.current && t !in w.s.timeouts && w.count > 0 && w.holder.None?
  {
    InQueue(w.s, w.q, t);
    CurrentRuns(w.s);
    hide Inv;
  }

  lemma StrandedOther(w: World, x: Step, t: Tid)
    requires MInv(w) && KnownThreads(w) && Elsewhere(w, x) && Stranded(w, t)
    ensures Stranded(Other(w, x), t)
  {
    StrandedThere(w, t);
    hide Inv, Do, Allowed, InsidePlaces, KnownThreads;
    if x.TimeoutStep? {
      TimeoutThere(w.s, x);
      TimeoutSpares(w.s, x.t, w.q);
      QueueDistinct(w.s, w.q);
      RemoveIs(w.s.waits[w.q].list, x.t);
      hide TimeoutFires, Distinct;
    } else {
      StepSpares(w.s, x, w.q);
      if x.CreateStep? {
        FreshThread(w.s, x);
      }
    }
  }

  lemma StrandedAcquire(w: World, timeout: Timeout, t: Tid)
    requires MInv(w) && MayAcquire(w, timeout) && Stranded(w, t)
    ensures Stranded(Acquire(w, timeout), t)
  {
    hide Inv, BlockOn, InsidePlaces;
    StrandedThere(w, t);
    if !timeout.Zero? {
      BlockDoes(w.s, w.q, timeout.Finite?);
    }
  }

  lemma StrandedReturn(w: World, t: Tid)
    requires MInv(w) && Inside(w, w.s.current) && Stranded(w, t)
    ensures Stranded(Return(w), t)
  {
    hide Inv, InsidePlaces;
    StrandedThere(w, t);
    ReturnOwned(w);
  }

  /** No move by anyone helps it. */
  lemma StrandedMove(w: World, m: Move, t: Tid)
    requires MInv(w) && KnownThreads(w) && CanMove(w, m) && Stranded(w, t)
    ensures Stranded(Moved(w, m), t)
  {
    hide Inv, MInv, KnownThreads, Stranded, MayAcquire, Elsewhere, Acquire, Return, Release, Other;
    StrandedThere(w, t);
    match m
    case AcquireMove(timeout) => StrandedAcquire(w, timeout, t);
    case ReturnMove => StrandedReturn(w, t);
    case ReleaseMove =>
    case OtherMove(x) => StrandedOther(w, x, t);
  }

  /** Once it is so it stays so: over every run the thread stays in the queue, and nobody ever
      owns the mutex again. */
  lemma {:induction false} StrandedStays(w: World, ms: seq<Move>, v: World, t: Tid)
    requires MInv(w) && KnownThreads(w) && Leads(w, ms, v) && Stranded(w, t)
    ensures Stranded(v, t) && forall u :: !Owns(v, u)
    decreases |ms|
  {
    hide MInv, KnownThreads, CanMove, Moved, Stranded;
    if ms == [] {
      NobodyOwns(w, t);
    } else {
      MoveInv(w, ms[0]);
      StrandedMove(w, ms[0], t);
      StrandedStays(Moved(w, ms[0]), ms[1..], v, t);
    }
  }

  lemma NobodyOwns(w: World, t: Tid)
    requires MInv(w) && Stranded(w, t)
    ensures forall u :: !Owns(w, u)
  {
    hide Inv;
  }

  /** Without timed acquires nobody is ever late, and waiters do have an owner. */
  ghost predicate Untimed(w: World) {
    w.late == {} && forall t | Inside(w, t) :: !w.pcs[t].timed
  }

  predicate UntimedMove(m: Move) { m.AcquireMove? ==> !m.timeout.Finite? }

  lemma UntimedKept(w: World, m: Move)
    requires MInv(w) && KnownThreads(w) && WaitersOwned(w) && Untimed(w) && CanMove(w, m) && UntimedMove(m)
    ensures WaitersOwned(Moved(w, m)) && Untimed(Moved(w, m))
  {
    StillUntimed(w, m);
    if Strands(w, m) {
      StrandsOnlyLate(w, m);
    }
    hide MInv, KnownThreads, WaitersOwned, Moved;
    WaitersOwnedIff(w, m);
  }

  lemma StillUntimed(w: World, m: Move)
    requires MInv(w) && Untimed(w) && CanMove(w, m) && UntimedMove(m)
    ensures Untimed(Moved(w, m))
  {
    hide Inv, WakeOne, BlockOn, Do;
    match m
    case AcquireMove(timeout) =>
    case ReturnMove =>
    case ReleaseMove =>
    case OtherMove(x) =>
      if x.TimeoutStep? {
        TimeoutThere(w.s, x);
        InQueue(w.s, w.q, x.t);
      }
  }

  /** In a run without timed acquires every waiter has somebody to wait for, at every point. */
  lemma {:induction false} UntimedRun(w: World, ms: seq<Move>, v: World)
    requires MInv(w) && KnownThreads(w) && WaitersOwned(w) && Untimed(w) && Leads(w, ms, v)
    requires forall i | 0 <= i < |ms| :: UntimedMove(ms[i])
    ensures WaitersOwned(v)
    decreases |ms|
  {
    hide MInv, KnownThreads, CanMove, Moved, WaitersOwned, Untimed;
    if ms != [] {
      MoveInv(w, ms[0]);
      UntimedKept(w, ms[0]);
      UntimedRun(Moved(w, ms[0]), ms[1..], v);
    }
  }

  /** A new mutex. */
  lemma NewMutex(s: State, q: Qid, pcs: map<Tid, Pc>)
    requires Inv(s) && q in s.waits && s.waits[q].list == [] && pcs == map t | t in s.threads :: Out
    ensures var w := World(s, q, 0, None, pcs, None, {}); MInv(w) && KnownThreads(w) && WaitersOwned(w) && Untimed(w)
  {
    hide Inv;
  }

  // ---- the mutex as the code updates it ----

  class Mutex {
    const q: Qid
    var count: int
    var holder: Option<Tid>
    ghost var pcs: map<Tid, Pc>
    ghost var handed: Option<Tid>
    ghost var late: set<Tid>

    ghost function W(k: Kernel): World
      reads this, k
    {
      World(k.St(), q, count, holder, pcs, handed, late)
    }

    /** mutex_init, on an empty wait queue of its own. */
    constructor (k: Kernel, q: Qid)
      requires Inv(k.St()) && q in k.waits && k.waits[q].list == []
      ensures MInv(W(k)) && KnownThreads(W(k)) && WaitersOwned(W(k)) && this.q == q && count == 0 && holder == None
    {
      this.q, count, holder := q, 0, None;
      pcs, handed, late := map t | t in k.threads :: Out, None, {};
      new;
      NewMutex(k.St(), q, pcs);
    }

    /** mutex_acquire and mutex_acquire_timeout up to the switch; `ret` is final unless it waits. */
    method AcquireBegin(k: Kernel, timeout: nat, infinite: bool) returns (waits: bool, ret: int)
      requires MInv(W(k)) && KnownThreads(W(k))
      requires MayAcquire(W(k), if infinite then Infinite else if timeout == 0 then Zero else Finite)
      modifies this, k
      ensures W(k) == Acquire(old(W(k)), if infinite then Infinite else if timeout == 0 then Zero else Finite)
      ensures MInv(W(k)) && KnownThreads(W(k))
      ensures waits <==> old(count) > 0 && (infinite || timeout > 0)
      ensures !waits ==> ret == if old(count) > 0 then ERR_TIMED_OUT else NO_ERROR
      ensures !waits && ret == NO_ERROR ==> holder == Some(k.current)
      ensures !waits ==> k.St() == old(k.St())
      ensures waits ==>
                var c := old(k.current);
                && k.waits == old(k.waits)[q := WaitQueue(old(k.waits[q].list) + [c], old(k.waits[q].count) + 1)]
                && k.timeouts == (if infinite then old(k.timeouts) else old(k.timeouts) + {c})
                && Switching.BestRuns(k.St())
    {
      hide Inv, InsidePlaces, BlockOn, Switching.BestRuns;
      if count > 0 && (infinite || timeout > 0) {
        Switching.BlockBest(k.St(), q, !infinite);
      }
      AcquireInv(W(k), if infinite then Infinite else if timeout == 0 then Zero else Finite);
      CurrentThere(k.St());
      waits, ret := false, NO_ERROR;
      count := count + 1;
      if count > 1 {
        var c := k.current;
        var timedOut := k.WaitQueueBlock(q, timeout, infinite);
        if timedOut {
          count := count - 1;
          return false, ERR_TIMED_OUT;
        }
        pcs := pcs[c := Acquiring(!infinite)];
        return true, ret;
      }
      holder := Some(k.current);
    }

    /** The rest of an acquire, when its thread has the processor again: cancel the timer,
        then take the mutex or back out. */
    method AcquireEnd(k: Kernel) returns (ret: int)
      requires MInv(W(k)) && KnownThreads(W(k)) && Inside(W(k), k.current)
      modifies this, k
      ensures W(k) == Return(old(W(k))) && MInv(W(k)) && KnownThreads(W(k))
      ensures ret == NO_ERROR || ret == ERR_TIMED_OUT
      ensures ret == NO_ERROR ==> holder == Some(k.current) && forall t | Owns(W(k), t) :: t == k.current
      ensures ret == ERR_TIMED_OUT ==> holder == old(holder) && count == old(count) - 1
    {
      hide Inv, InsidePlaces;
      ghost var w := W(k);
      ReturnInv(w);
      CurrentRuns(k.St());
      WhichWay(w, k.current);
      ret := k.threads[k.current].ret;
      k.timeouts := k.timeouts - {k.current};
      if ret < NO_ERROR {
        count := count - 1;
      } else {
        holder := Some(k.current);
      }
      late := late - {k.current};
      handed := if handed == Some(k.current) then None else handed;
      pcs := pcs[k.current := Out];
      OneOwner(W(k));
      assert ret == NO_ERROR ==> Owns(W(k), k.current);
    }

    lemma OneOwner(w: World)
      requires MInv(w)
      ensures forall t, u | Owns(w, t) && Owns(w, u) :: t == u
    {
      forall t, u | Owns(w, t) && Owns(w, u)
        ensures t == u
      {
        MutualExclusion(w, t, u);
      }
    }

    lemma ReleaseSwitches(s: State, q: Qid)
      requires Inv(s) && q in s.waits
      ensures s.waits[q].list != [] ==> Switching.BestRuns(WakeOne(s, q, true, NO_ERROR).0)
      ensures s.waits[q].list == [] ==> WakeOne(s, q, true, NO_ERROR).0 == s
    {
      hide Inv, Switching.BestRuns;
      if s.waits[q].list != [] {
        hide WakeOne;
        Switching.WakeOneBest(s, q, true, NO_ERROR);
      }
    }

    /** mutex_release: the first waiter, if any, becomes the owner. */
    method ReleaseMutex(k: Kernel)
      requires MInv(W(k)) && KnownThreads(W(k)) && holder == Some(k.current)
      modifies this, k
      ensures W(k) == Release(old(W(k))) && MInv(W(k)) && KnownThreads(W(k))
      ensures holder == None && count == old(count) - 1
      ensures old(k.waits[q].list) != [] ==> handed == Some(old(k.waits[q].list[0])) && Switching.BestRuns(k.St())
      ensures old(k.waits[q].list) == [] ==> k.St() == old(k.St())
    {
      hide Inv, InsidePlaces, WakeOne, Switching.BestRuns;
      QueueIn(W(k));
      ReleaseSwitches(k.St(), q);
      ReleaseInv(W(k));
      holder := None;
      count := count - 1;
      if count >= 1 {
        handed := if k.waits[q].list == [] then handed else Some(k.waits[q].list[0]);
        var n := k.WaitQueueWakeOne(q, true, NO_ERROR);
      }
    }
  }
}
