/** Every call and interrupt that reaches the scheduler as one step, what all runs keep, how
    long a ready thread waits, and who decides what a woken thread is told. */
module Scheduling {
  import opened Options
  import opened RunBitmap
  import opened Threads

  // ---- waking a whole wait queue ----

  /** The loop of wait_queue_wake_all: each thread in turn to the head of its run queue. */
  function WakeEach(s: State, q: Qid, err: int): (e: State)
    requires Placed(s) && q in s.waits
    decreases |s.waits[q].list|
  {
    if s.waits[q].list == [] then s
    else
      var t := s.waits[q].list[0];
      WakeStep(s, q, t, err);
      WakeEach(Insert(Unhooked(s, t, err), t, true), q, err)
  }

  /** One thread woken: its place and its result change, and nothing else. */
  lemma WakeStep(s: State, q: Qid, t: Tid, err: int)
    requires Placed(s) && q in s.waits && s.waits[q].list != [] && t == s.waits[q].list[0]
    ensures t in s.threads && s.threads[t].status.Blocked? && s.threads[t].waiting == Some(q)
    ensures |s.run| == NUM_PRIORITIES && s.threads[t].priority < NUM_PRIORITIES
    ensures var e := Insert(Unhooked(s, t, err), t, true);
            && Placed(e) && q in e.waits && e.waits ==
                 s.waits[q := WaitQueue(s.waits[q].list[1..], s.waits[q].count - 1)]
            && e.threads == s.threads[t := s.threads[t].(status := Ready, waiting := None, ret := err)]
            && e.current == s.current && e.boot == s.boot
  {
    hide RunPlaces, WaitPlaces, Enlist, EnlistRaw;
    assert t in s.waits[q].list;
    WokenThread(s, q, t);
    WithRetPlaced(s, t, err);
    UnhookedIs(s, t, err);
    EnlistPlaced(WithRet(s, t, err), t, true);
  }

  /** The threads `l` have been woken out of queue `q`, which is empty now; everything else
      about threads and wait queues is as before. */
  ghost predicate AllWoken(s: State, e: State, q: Qid, l: seq<Tid>, err: int) {
    && e.current == s.current && e.boot == s.boot && e.threads.Keys == s.threads.Keys
    && e.waits == s.waits[q := WaitQueue([], 0)]
    && (forall t | t in l :: t in s.threads && e.threads[t] ==
         s.threads[t].(status := Ready, waiting := None, ret := err))
    && forall t | t in s.threads && t !in l :: e.threads[t] == s.threads[t]
  }

  lemma {:induction false} WakeEachDoes(s: State, q: Qid, err: int)
    requires Placed(s) && q in s.waits
    ensures Placed(WakeEach(s, q, err)) && AllWoken(s, WakeEach(s, q, err), q, s.waits[q].list, err)
    decreases |s.waits[q].list|
  {
    EmptyCount(s, q);
    var l := s.waits[q].list;
    if l == [] {
      hide Placed;
    } else {
      var t := l[0];
      WakeStep(s, q, t, err);
      ListDistinct(s, q);
      hide Placed, Insert, Unhooked, AllWoken;
      var m := Insert(Unhooked(s, t, err), t, true);
      WakeEachDoes(m, q, err);
      OneMoreWoken(s, m, WakeEach(m, q, err), q, t, l, err);
    }
  }

  lemma OneMoreWoken(s: State, m: State, e: State, q: Qid, t: Tid, l: seq<Tid>, err: int)
    requires Distinct(l) && l != [] && t == l[0] && t in s.threads && q in s.waits
    requires m.waits == s.waits[q := WaitQueue(l[1..], s.waits[q].count - 1)]
    requires m.threads == s.threads[t := s.threads[t].(status := Ready, waiting := None, ret := err)]
    requires m.current == s.current && m.boot == s.boot
    requires AllWoken(m, e, q, l[1..], err)
    ensures AllWoken(s, e, q, l, err)
  {
    DistinctTail(l);
  }

  lemma EmptyCount(s: State, q: Qid)
    requires Placed(s) && q in s.waits
    ensures s.waits[q].count == |s.waits[q].list|
    ensures s.waits[q].list == [] ==> s.waits == s.waits[q := WaitQueue([], 0)]
  {
    hide RunPlaces, ThreadsFine, Distinct;
    assert s.waits[q].list == [] ==> s.waits[q] == WaitQueue([], 0);
  }

  lemma ListDistinct(s: State, q: Qid)
    requires Placed(s) && q in s.waits
    ensures Distinct(s.waits[q].list)
  {
    hide RunPlaces, ThreadsFine, Distinct;
  }

  /** wait_queue_wake_all */
  function WakeAll(s: State, q: Qid, resched: bool, err: int): (State, int)
    requires Inv(s) && q in s.waits
  {
    YieldInv(s);
    GiveWay(s, true);
    var a := if resched && s.waits[q].count > 0 then EnlistRaw(s, s.current, true) else s;
    var e := WakeEach(a, q, err);
    (if resched && |s.waits[q].list| > 0 then Resched(e) else e, |s.waits[q].list|)
  }

  lemma WakeAllInv(s: State, q: Qid, resched: bool, err: int)
    requires Inv(s) && q in s.waits
    ensures Inv(WakeAll(s, q, resched, err).0)
  {
    YieldInv(s);
    GiveWay(s, true);
    EmptyCount(s, q);
    CurrentWaits(s, q);
    var a := if resched && s.waits[q].count > 0 then EnlistRaw(s, s.current, true) else s;
    RawKeeps(s, s.current, true);
    hide RunPlaces, WaitPlaces, ThreadsFine, Resched, EnlistRaw, WakeEach, OthersPlaced;
    WakeEachDoes(a, q, err);
    if resched && |s.waits[q].list| > 0 {
      ReschedPlaced(WakeEach(a, q, err));
    }
  }

  lemma CurrentWaits(s: State, q: Qid)
    requires Inv(s) && q in s.waits
    ensures s.current !in s.waits[q].list
  {
    hide RunPlaces, ThreadsFine, Distinct;
  }

  lemma RawKeeps(s: State, t: Tid, head: bool)
    requires t in s.threads && s.threads[t].priority < NUM_PRIORITIES == |s.run|
    ensures EnlistRaw(s, t, head).waits == s.waits && EnlistRaw(s, t, head).current == s.current
    ensures EnlistRaw(s, t, head).threads == s.threads[t := s.threads[t].(status := Ready)]
  {
  }

  /** Before the reschedule of a wake everyone is in place. */
  lemma WokenPlaced(s: State, q: Qid, err: int)
    requires Inv(s) && q in s.waits && s.waits[q].list != []
    ensures var t := s.waits[q].list[0];
            && t in s.threads && s.threads[t].waiting.Some? && s.threads[t].waiting.value in s.waits
            && |s.run| == NUM_PRIORITIES && s.current in s.threads && s.threads[s.current].priority < NUM_PRIORITIES
            && s.threads[t].priority < NUM_PRIORITIES
            && var e := Insert(EnlistRaw(Unhooked(s, t, err), s.current, true), t, true);
               Placed(e) && !e.threads[s.current].status.Running? && e.current == s.current
  {
    hide RunPlaces, WaitPlaces, Resched, Enlist, EnlistRaw, Insert, Unhooked;
    var t := s.waits[q].list[0];
    WokenThread(s, q, t);
    var r := WithRet(s, t, err);
    WithRetPlaced(s, t, err);
    UnhookedBehind(s, t, err);
    EnlistPlaced(r, s.current, true);
    var b := Enlist(r, s.current, true);
    EnlistSides(r, s.current, true);
    EnlistPlaced(b, t, true);
    QueuesThere(b);
    EnlistSides(b, t, true);
  }

  // ---- the other calls ----

  /** thread_resume */
  function Resume(s: State, t: Tid): (State, int)
    requires Inv(s) && t in s.threads
  {
    if s.threads[t].status.Ready? || s.threads[t].status.Running? then (s, ERR_NOT_SUSPENDED)
    else
      QueuesThere(s);
      assert s.threads[t].priority < NUM_PRIORITIES && s.threads[s.current].priority < NUM_PRIORITIES;
      (Yield(EnlistRaw(s, t, true)), NO_ERROR)
  }

  /** thread_sleep_handler: the sleep timer is gone, the thread ready. */
  function SleepOver(s: State, t: Tid): State
    requires Inv(s) && t in s.sleepers
  {
    QueuesThere(s);
    Insert(MarkReady(s.(sleepers := s.sleepers - {t}), t), t, true)
  }

  /** The wait timeout fires: wait_queue_timeout_handler. */
  function TimeoutFires(s: State, t: Tid): State
    requires Inv(s) && t in s.timeouts && t in s.threads
  {
    QueuesThere(s);
    var r := Unblock(s, t, false, ERR_TIMED_OUT).0;
    r.(timeouts := r.timeouts - {t})
  }

  /** thread_exit: the cleanup call wakes the waiters of the dpc event, if that was unsignalled. */
  function Exit(s: State, wake: Option<Qid>): State
    requires Inv(s) && s.current != s.boot && (wake.Some? ==> wake.value in s.waits)
  {
    LeavingPlaced(s, s.threads[s.current].(status := Dead), s.sleepers);
    Resched(if wake.Some? then WakeEach(Die(s), wake.value, NO_ERROR) else Die(s))
  }

  /** thread_create: suspended. */
  function Create(s: State, t: Tid, priority: nat): State {
    s.(threads := s.threads[t := Thread(priority, Suspended, 0, None, NO_ERROR)])
  }

  /** thread_set_priority */
  function SetPriority(s: State, priority: int): State
    requires s.current in s.threads
  {
    var p := if priority < 0 then 0 else if priority > HIGHEST_PRIORITY then HIGHEST_PRIORITY else priority;
    s.(threads := s.threads[s.current := s.threads[s.current].(priority := p)])
  }

  /** thread_become_idle */
  function BecomeIdle(s: State): State
    requires s.current in s.threads
  {
    SetPriority(s, IDLE_PRIORITY).(idling := true)
  }

  // ---- thread_resume and the state it is called in ----

  /** thread_resume keeps every thread in one place exactly when the thread is suspended or
      already runnable: a blocked thread would stay in its wait queue, a sleeping one would
      keep its timer. (It must not be called on a dead thread at all.) */
  lemma ResumeInv(s: State, t: Tid)
    requires Inv(s) && t in s.threads && !s.threads[t].status.Dead?
    ensures Inv(Resume(s, t).0) <==> s.threads[t].status in {Suspended, Ready, Running}
  {
    if s.threads[t].status.Suspended? {
      RawIsEnlist(s, t, true);
      EnlistPlaced(s, t, true);
      RawKeeps(s, t, true);
      hide RunPlaces, WaitPlaces, ThreadsFine, EnlistRaw, Enlist, Yield;
      YieldInv(EnlistRaw(s, t, true));
    } else if s.threads[t].status.Blocked? || s.threads[t].status.Sleeping? {
      ResumeMisplaces(s, t);
    }
  }

  lemma ResumeMisplaces(s: State, t: Tid)
    requires Inv(s) && t in s.threads && (s.threads[t].status.Blocked? || s.threads[t].status.Sleeping?)
    ensures !Inv(Resume(s, t).0)
  {
    var e := Resume(s, t).0;
    ResumeKeeps(s, t);
    hide RunPlaces, Resume;
    if s.threads[t].status.Blocked? {
      var q := s.threads[t].waiting.value;
      assert t in s.waits[q].list && t in e.waits[q].list;
    } else {
      assert t in e.sleepers;
    }
  }

  lemma ResumeKeeps(s: State, t: Tid)
    requires Inv(s) && t in s.threads && (s.threads[t].status.Blocked? || s.threads[t].status.Sleeping?)
    ensures var e := Resume(s, t).0;
            e.waits == s.waits && e.sleepers == s.sleepers && t in e.threads
              && (e.threads[t].status.Ready? || e.threads[t].status.Running?)
  {
    hide RunPlaces, WaitPlaces, Distinct, TopQueue, Mask, WithMask, WithoutMask;
  }

  // ---- steps and runs ----

  datatype Step =
    | YieldStep
    | PreemptStep
    | TickStep
    | BlockStep(q: Qid, timed: bool)
    | ReturnStep
    | WakeOneStep(q: Qid, resched: bool, err: int)
    | WakeAllStep(q: Qid, resched: bool, err: int)
    | TimeoutStep(t: Tid)
    | SleepStep
    | SleepOverStep(t: Tid)
    | ExitStep(wake: Option<Qid>)
    | CreateStep(t: Tid, priority: nat)
    | ResumeStep(t: Tid)
    | PriorityStep(to: int)
    | IdleStep
    | QueueStep(q: Qid)

  /** What the code demands of each call: the thread that becomes idle never leaves the
      processor for good, a thread is created once, only a suspended thread is resumed. */
  ghost predicate Allowed(s: State, x: Step) {
    match x
    case BlockStep(q, _) => q in s.waits && s.current != s.boot
    case WakeOneStep(q, _, _) => q in s.waits
    case WakeAllStep(q, _, _) => q in s.waits
    case TimeoutStep(t) => t in s.timeouts && t in s.threads
    case SleepStep => s.current != s.boot
    case SleepOverStep(t) => t in s.sleepers
    case ExitStep(wake) => s.current != s.boot && (wake.Some? ==> wake.value in s.waits)
    case CreateStep(t, priority) => t !in s.threads && priority < NUM_PRIORITIES
    case ResumeStep(t) => t in s.threads && s.threads[t].status.Suspended?
    case PriorityStep(_) => !(s.idling && s.current == s.boot)
    case IdleStep => s.current == s.boot
    case QueueStep(q) => q !in s.waits
    case _ => true
  }

  function Do(s: State, x: Step): State
    requires Inv(s) && Allowed(s, x)
  {
    hide Inv, Placed, Yield, Preempt, Tick, BlockOn, WakeOne, WakeAll, TimeoutFires, Sleep, SleepOver, Exit, Create,
      Resume, SetPriority, BecomeIdle;
    YieldInv(s);
    match x
    case YieldStep => Yield(s)
    case PreemptStep => Preempt(s)
    case TickStep => Tick(s).0
    case BlockStep(q, timed) => BlockOn(s, q, timed)
    case ReturnStep => s.(timeouts := s.timeouts - {s.current})
    case WakeOneStep(q, resched, err) => WakeOne(s, q, resched, err).0
    case WakeAllStep(q, resched, err) => WakeAll(s, q, resched, err).0
    case TimeoutStep(t) => TimeoutFires(s, t)
    case SleepStep => Sleep(s)
    case SleepOverStep(t) => SleepOver(s, t)
    case ExitStep(wake) => Exit(s, wake)
    case CreateStep(t, priority) => Create(s, t, priority)
    case ResumeStep(t) => Resume(s, t).0
    case PriorityStep(to) => SetPriority(s, to)
    case IdleStep => BecomeIdle(s)
    case QueueStep(q) => s.(waits := s.waits[q := WaitQueue([], 0)])
  }

  lemma TimeoutsFree(s: State, timeouts: set<Tid>)
    requires Inv(s)
    ensures Inv(s.(timeouts := timeouts))
  {
    hide Distinct, Tracks;
  }

  lemma TimeoutInv(s: State, t: Tid)
    requires Inv(s) && t in s.timeouts && t in s.threads
    ensures Inv(TimeoutFires(s, t))
  {
    UnblockInv(s, t, false, ERR_TIMED_OUT);
    hide Placed, Unblock;
    var r := Unblock(s, t, false, ERR_TIMED_OUT).0;
    TimeoutsFree(r, r.timeouts - {t});
  }

  lemma SleepOverInv(s: State, t: Tid)
    requires Inv(s) && t in s.sleepers
    ensures Inv(SleepOver(s, t))
  {
    assert t in s.threads && s.threads[t].status.Sleeping?;
    EnlistPlaced(s, t, true);
    hide RunPlaces, WaitPlaces, Insert;
    assert SleepOver(s, t) == Enlist(s, t, true);
    EnlistSides(s, t, true);
  }

  lemma ExitInv(s: State, wake: Option<Qid>)
    requires Inv(s) && s.current != s.boot && (wake.Some? ==> wake.value in s.waits)
    ensures Inv(Exit(s, wake))
  {
    LeavingPlaced(s, s.threads[s.current].(status := Dead), s.sleepers);
    var d := Die(s);
    assert d == s.(threads := s.threads[s.current := s.threads[s.current].(status := Dead)], sleepers := s.sleepers);
    if wake.Some? {
      CurrentWaits(s, wake.value);
      WakeEachDoes(d, wake.value, NO_ERROR);
      hide RunPlaces, WaitPlaces, ThreadsFine, Resched, WakeEach;
      ReschedPlaced(WakeEach(d, wake.value, NO_ERROR));
    } else {
      hide RunPlaces, WaitPlaces, ThreadsFine, Resched, WakeEach;
      ReschedPlaced(d);
    }
  }

  lemma CreateInv(s: State, t: Tid, priority: nat)
    requires Inv(s) && t !in s.threads && priority < NUM_PRIORITIES
    ensures Inv(Create(s, t, priority))
  {
    hide Distinct, Tracks;
  }

  lemma PriorityInv(s: State, priority: int, idle: bool)
    requires Inv(s) && (s.idling && s.current == s.boot ==> priority == IDLE_PRIORITY)
    ensures Inv(SetPriority(s, priority))
    ensures s.current == s.boot && priority == IDLE_PRIORITY ==> Inv(BecomeIdle(s))
  {
    hide Distinct, Tracks;
  }

  lemma QueueInv(s: State, q: Qid)
    requires Inv(s) && q !in s.waits
    ensures Inv(s.(waits := s.waits[q := WaitQueue([], 0)]))
  {
    hide Distinct, Tracks;
    assert Distinct([]) by { NothingTwice(); }
  }

  lemma NothingTwice()
    ensures Distinct([])
  {
  }

  /** Every step keeps the invariant. */
  lemma DoInv(s: State, x: Step)
    requires Inv(s) && Allowed(s, x)
    ensures Inv(Do(s, x))
  {
    hide RunPlaces, WaitPlaces, ThreadsFine, OthersPlaced, Placed, Yield, Preempt, Tick, Resched, Waiting;
    YieldInv(s);
    match x
    case YieldStep =>
    case PreemptStep =>
    case TickStep =>
    case BlockStep(q, timed) => BlockInv(s, q, timed);
    case ReturnStep => TimeoutsFree(s, s.timeouts - {s.current});
    case WakeOneStep(q, resched, err) => WakeOneInv(s, q, resched, err);
    case WakeAllStep(q, resched, err) => WakeAllInv(s, q, resched, err);
    case TimeoutStep(t) => TimeoutInv(s, t);
    case SleepStep => BlockInv(s, 0, false);
    case SleepOverStep(t) => SleepOverInv(s, t);
    case ExitStep(wake) => ExitInv(s, wake);
    case CreateStep(t, priority) => CreateInv(s, t, priority);
    case ResumeStep(t) => ResumeInv(s, t);
    case PriorityStep(to) => PriorityInv(s, to, false);
    case IdleStep => PriorityInv(s, IDLE_PRIORITY, true);
    case QueueStep(q) => QueueInv(s, q);
  }

  /** `e` is reached from `s` by the steps. */
  ghost predicate Reaches(s: State, xs: seq<Step>, e: State)
    decreases |xs|
  {
    Inv(s) && if xs == [] then e == s else Allowed(s, xs[0]) && Reaches(Do(s, xs[0]), xs[1..], e)
  }

  /** Every reachable state keeps the invariant. */
  lemma {:induction false} RunInv(s: State, xs: seq<Step>, e: State)
    requires Reaches(s, xs, e)
    ensures Inv(e)
    decreases |xs|
  {
    hide Inv, Allowed, Do;
    if xs != [] {
      RunInv(Do(s, xs[0]), xs[1..], e);
    }
  }

  /** thread_init_early: the boot thread runs, at the highest priority, with all queues empty. */
  function Initial(boot: Tid): State {
    State(map[boot := Thread(HIGHEST_PRIORITY, Running, 0, None, NO_ERROR)], seq(NUM_PRIORITIES, _ => []), 0, boot,
          boot, false, map[], {}, {})
  }

  lemma InitialInv(boot: Tid)
    ensures Inv(Initial(boot))
  {
    hide Mask, Meets;
    forall p | 0 <= p < NUM_PRIORITIES
      ensures !Bit(0, p)
    {
      NoBits(0, p);
    }
  }

  /** Where a thread can be found. */
  ghost predicate InRun(s: State, t: Tid, p: nat) { p < |s.run| && t in s.run[p] }

  ghost predicate InWait(s: State, t: Tid, q: Qid) { q in s.waits && t in s.waits[q].list }

  /** Each thread is in exactly one place, the one its state says. */
  lemma OnePlace(s: State, t: Tid)
    requires Inv(s) && t in s.threads
    ensures s.threads[t].status.Running? <==> t == s.current
    ensures forall p: nat :: InRun(s, t, p) <==> s.threads[t].status.Ready? && p == s.threads[t].priority
    ensures forall q: Qid :: InWait(s, t, q) <==> s.threads[t].status.Blocked? && Some(q) == s.threads[t].waiting
    ensures t in s.sleepers <==> s.threads[t].status.Sleeping?
    ensures forall p | 0 <= p < |s.run| :: Distinct(s.run[p])
    ensures forall q | q in s.waits :: Distinct(s.waits[q].list) && s.waits[q].count == |s.waits[q].list|
    ensures s.threads[t].quantum <= QUANTUM
  {
    hide Distinct, Tracks;
  }

  // ---- who decides what a woken thread is told ----

  /** Rescheduling changes no result and blocks nobody. */
  lemma ReschedTells(s: State, t: Tid)
    requires t in s.threads
    ensures t in Resched(s).threads && Resched(s).threads[t].ret == s.threads[t].ret
    ensures Resched(s).threads[t].status.Blocked? ==> s.threads[t].status.Blocked?
    ensures Resched(s).threads.Keys == s.threads.Keys
  {
    hide TopQueue, Mask, WithoutMask;
  }

  lemma RawTells(s: State, u: Tid, head: bool, t: Tid)
    requires u in s.threads && s.threads[u].priority < NUM_PRIORITIES == |s.run| && t in s.threads
    ensures t in EnlistRaw(s, u, head).threads && EnlistRaw(s, u, head).threads[t].ret == s.threads[t].ret
    ensures EnlistRaw(s, u, head).threads[t].status.Blocked? ==> s.threads[t].status.Blocked?
  {
  }

  /** What a thread that is neither running nor blocked will be told stays what it is. */
  ghost predicate Told(s: State, t: Tid, ret: int) {
    t in s.threads && !s.threads[t].status.Blocked? && s.threads[t].ret == ret
  }

  lemma WakeAllTells(s: State, q: Qid, resched: bool, err: int, t: Tid)
    requires Inv(s) && q in s.waits && t != s.current && t in s.threads && !s.threads[t].status.Blocked?
    ensures Told(WakeAll(s, q, resched, err).0, t, s.threads[t].ret)
  {
    hide Placed, Resched, WakeEach, EnlistRaw;
    YieldInv(s);
    GiveWay(s, true);
    NotWaiting(s, q, t);
    CurrentWaits(s, q);
    var a := if resched && s.waits[q].count > 0 then EnlistRaw(s, s.current, true) else s;
    RawKeeps(s, s.current, true);
    WakeEachDoes(a, q, err);
    ReschedTells(WakeEach(a, q, err), t);
  }

  lemma WakeOneTells(s: State, q: Qid, resched: bool, err: int, t: Tid)
    requires Inv(s) && q in s.waits && t != s.current && t in s.threads && !s.threads[t].status.Blocked?
    ensures Told(WakeOne(s, q, resched, err).0, t, s.threads[t].ret)
  {
    NotWaiting(s, q, t);
    hide RunPlaces, WaitPlaces, ThreadsFine, OthersPlaced, Resched, Insert, EnlistRaw, Placed;
    if s.waits[q].list != [] {
      var u := s.waits[q].list[0];
      WokenThread(s, q, u);
      var a := Unhooked(s, u, err);
      var b := if resched then EnlistRaw(a, s.current, true) else a;
      RawKeeps(a, s.current, true);
      RawTells(a, s.current, true, t);
      RawTells(a, s.current, true, u);
      InsertThreads(b, u);
      ReschedTells(Insert(b, u, true), t);
    }
  }

  lemma InsertThreads(s: State, t: Tid)
    requires t in s.threads && s.threads[t].priority < NUM_PRIORITIES == |s.run|
    ensures Insert(s, t, true).threads == s.threads
  {
  }

  lemma NotWaiting(s: State, q: Qid, t: Tid)
    requires Inv(s) && q in s.waits && t in s.threads && !s.threads[t].status.Blocked?
    ensures t !in s.waits[q].list
  {
    hide RunPlaces, ThreadsFine, Distinct;
  }

  lemma TimeoutTells(s: State, u: Tid, t: Tid)
    requires Inv(s) && u in s.timeouts && u in s.threads && t in s.threads && !s.threads[t].status.Blocked?
    ensures Told(TimeoutFires(s, u), t, s.threads[t].ret)
  {
    QueuesThere(s);
    hide RunPlaces, WaitPlaces, OthersPlaced, Insert;
    if s.threads[u].status.Blocked? {
      InsertThreads(Unhooked(s, u, ERR_TIMED_OUT), u);
    }
  }

  lemma ExitTells(s: State, wake: Option<Qid>, t: Tid)
    requires Inv(s) && s.current != s.boot && (wake.Some? ==> wake.value in s.waits)
    requires t != s.current && t in s.threads && !s.threads[t].status.Blocked?
    ensures Told(Exit(s, wake), t, s.threads[t].ret)
  {
    LeavingPlaced(s, s.threads[s.current].(status := Dead), s.sleepers);
    if wake.Some? {
      NotWaiting(s, wake.value, t);
      WakeEachDoes(Die(s), wake.value, NO_ERROR);
      hide RunPlaces, WaitPlaces, ThreadsFine, OthersPlaced, Resched, WakeEach;
      ReschedTells(WakeEach(Die(s), wake.value, NO_ERROR), t);
    } else {
      hide RunPlaces, WaitPlaces, ThreadsFine, OthersPlaced, Resched, WakeEach;
      ReschedTells(Die(s), t);
    }
  }

  lemma GiveWayTells(s: State, t: Tid)
    requires Inv(s) && t != s.current && t in s.threads && !s.threads[t].status.Blocked?
    ensures s.current in s.threads && s.threads[s.current].priority < NUM_PRIORITIES == |s.run|
    ensures Told(Yield(s), t, s.threads[t].ret) && Told(Preempt(s), t, s.threads[t].ret)
    ensures Told(Tick(s).0, t, s.threads[t].ret)
  {
    hide Placed, Inv, Resched, EnlistRaw;
    YieldInv(s);
    RawTells(SetQuantum(s, 0), s.current, false, t);
    ReschedTells(EnlistRaw(SetQuantum(s, 0), s.current, false), t);
    var head := s.threads[s.current].quantum > 0;
    RawTells(s, s.current, head, t);
    ReschedTells(EnlistRaw(s, s.current, head), t);
  }

  lemma LeaveTells(s: State, q: Qid, timed: bool, t: Tid)
    requires Inv(s) && t != s.current && t in s.threads && !s.threads[t].status.Blocked?
    ensures q in s.waits ==> Told(BlockOn(s, q, timed), t, s.threads[t].ret)
    ensures Told(Sleep(s), t, s.threads[t].ret)
  {
    hide RunPlaces, WaitPlaces, ThreadsFine, Resched;
    var c := s.current;
    if q in s.waits {
      ReschedTells(Waiting(s, q, timed), t);
    }
    ReschedTells(s.(threads := s.threads[c := s.threads[c].(status := Sleeping)], sleepers := s.sleepers + {c}), t);
  }

  lemma ResumeTells(s: State, u: Tid, t: Tid)
    requires Inv(s) && u in s.threads && s.threads[u].status.Suspended?
    requires t != s.current && t in s.threads && !s.threads[t].status.Blocked?
    ensures Told(Resume(s, u).0, t, s.threads[t].ret)
  {
    ResumeInv(s, u);
    RawIsEnlist(s, u, true);
    EnlistPlaced(s, u, true);
    RawKeeps(s, u, true);
    hide RunPlaces, WaitPlaces, ThreadsFine, OthersPlaced, EnlistRaw, Enlist, Yield;
    GiveWayTells(EnlistRaw(s, u, true), t);
  }

  /** No step by anyone else changes what a woken thread will be told. */
  lemma StepTells(s: State, x: Step, t: Tid)
    requires Inv(s) && Allowed(s, x) && t != s.current && t in s.threads && !s.threads[t].status.Blocked?
    ensures Told(Do(s, x), t, s.threads[t].ret)
  {
    hide Inv, Placed, Yield, Preempt, Tick, BlockOn, WakeOne, WakeAll, TimeoutFires, Sleep, Exit, Resume;
    YieldInv(s);
    match x
    case YieldStep => GiveWayTells(s, t);
    case PreemptStep => GiveWayTells(s, t);
    case TickStep => GiveWayTells(s, t);
    case BlockStep(q, timed) => LeaveTells(s, q, timed, t);
    case ReturnStep =>
    case WakeOneStep(q, resched, err) => WakeOneTells(s, q, resched, err, t);
    case WakeAllStep(q, resched, err) => WakeAllTells(s, q, resched, err, t);
    case TimeoutStep(u) => TimeoutTells(s, u, t);
    case SleepStep => LeaveTells(s, 0, false, t);
    case SleepOverStep(u) =>
      QueuesThereInv(s);
      SleeperThere(s, u);
      InsertThreads(MarkReady(s.(sleepers := s.sleepers - {u}), u), u);
    case ExitStep(wake) => ExitTells(s, wake, t);
    case CreateStep(u, priority) =>
    case ResumeStep(u) => ResumeTells(s, u, t);
    case PriorityStep(to) =>
    case IdleStep =>
    case QueueStep(q) =>
  }

  lemma QueuesThereInv(s: State)
    requires Inv(s)
    ensures |s.run| == NUM_PRIORITIES
  {
  }

  lemma SleeperThere(s: State, u: Tid)
    requires Inv(s) && u in s.sleepers
    ensures u in s.threads && s.threads[u].priority < NUM_PRIORITIES
  {
    hide RunPlaces, WaitPlaces;
  }

  /** The thread is not current at any point of the run but its end. */
  ghost predicate StaysOff(s: State, xs: seq<Step>, t: Tid)
    decreases |xs|
  {
    xs == [] || (Inv(s) && Allowed(s, xs[0]) && t != s.current && StaysOff(Do(s, xs[0]), xs[1..], t))
  }

  /** Over any run, what a woken thread is to be told is still the same when it next gets the
      processor. */
  lemma {:induction false} RunTells(s: State, xs: seq<Step>, e: State, t: Tid, ret: int)
    requires Reaches(s, xs, e) && StaysOff(s, xs, t) && Told(s, t, ret)
    ensures Told(e, t, ret)
    decreases |xs|
  {
    hide Inv, Allowed, Do;
    if xs != [] {
      StepTells(s, xs[0], t);
      RunTells(Do(s, xs[0]), xs[1..], e, t, ret);
    }
  }

  // ---- how long a ready thread waits ----

  /** The timer interrupt: timer_tick always asks for a reschedule, so the tick is followed by a preemption. */
  function TickInterrupt(s: State): State
    requires Inv(s)
  {
    YieldInv(s);
    Preempt(Tick(s).0)
  }

  /** `t` is ready at position `k` of queue `p`, and nothing of higher priority is runnable. */
  ghost predicate InLine(s: State, t: Tid, p: nat, k: nat) {
    && Inv(s) && 0 < p < NUM_PRIORITIES && k < |s.run[p]| && s.run[p][k] == t
    && (forall r | p < r < NUM_PRIORITIES :: s.run[r] == [])
    && s.threads[s.current].priority <= p
  }

  /** Ticks until `t` runs, at most. */
  function Turns(s: State, p: nat, k: nat): int
    requires s.current in s.threads
  {
    var c := s.threads[s.current];
    if c.priority == p then (if c.quantum > 0 then c.quantum else 1) + QUANTUM * k else QUANTUM * k + 1
  }

  /** The effect of a preemption, seen from the queue `p` that is the highest in use. */
  ghost predicate Preempted(s: State, e: State, p: nat) {
    && |s.run| == NUM_PRIORITIES == |e.run| && p < NUM_PRIORITIES && s.run[p] != []
    && s.current in s.threads && e.current in e.threads
    && (forall r | p < r < NUM_PRIORITIES :: e.run[r] == []) && e.threads[e.current].priority == p
    && var c := s.threads[s.current];
       if c.priority == p && c.quantum > 0
       then e.current == s.current && e.run[p] == s.run[p] && e.threads[e.current].quantum == c.quantum
       else
         && e.current == s.run[p][0]
         && e.run[p] == (if c.priority == p then s.run[p][1..] + [s.current] else s.run[p][1..])
  }

  lemma PreemptIs(s: State, t: Tid, p: nat, k: nat)
    requires InLine(s, t, p, k)
    ensures s.current in s.threads && s.threads[s.current].priority < NUM_PRIORITIES == |s.run|
    ensures Inv(Preempt(s)) && Preempted(s, Preempt(s), p)
  {
    hide Placed, Inv, EnlistRaw, Resched;
    YieldInv(s);
    var c := s.threads[s.current];
    var head := c.quantum > 0;
    GiveWay(s, head);
    var a := EnlistRaw(s, s.current, head);
    RawQueues(s, head, p);
    ReschedTop(a, p);
  }

  /** Rescheduling takes the head of the highest queue in use. */
  lemma ReschedTop(s: State, p: nat)
    requires Placed(s) && !s.threads[s.current].status.Running? && p < NUM_PRIORITIES == |s.run| && s.run[p] != []
    requires forall r | p < r < NUM_PRIORITIES :: s.run[r] == []
    ensures var e := Resched(s);
            && e.current == s.run[p][0] && e.run == s.run[p := s.run[p][1..]]
            && e.current in s.threads && e.current in e.threads && e.threads[e.current].priority == p
            && (e.current == s.current ==> e.threads[e.current].quantum == s.threads[e.current].quantum)
  {
    hide RunPlaces, WaitPlaces, ThreadsFine, LeadingZeros, Mask, WithoutMask;
    ReschedPlaced(s);
    HighestIs(s, p);
    HeadPriority(s, p);
  }

  lemma RawQueues(s: State, head: bool, p: nat)
    requires Inv(s) && p < NUM_PRIORITIES && s.threads[s.current].priority <= p
    requires forall r | p < r < NUM_PRIORITIES :: s.run[r] == []
    ensures |s.run| == NUM_PRIORITIES && s.threads[s.current].priority < NUM_PRIORITIES
    ensures var a := EnlistRaw(s, s.current, head);
            && |a.run| == NUM_PRIORITIES && a.current == s.current
            && a.threads == s.threads[s.current := s.threads[s.current].(status := Ready)]
            && (forall r | p < r < NUM_PRIORITIES :: a.run[r] == [])
            && a.run[p] == (if s.threads[s.current].priority < p then s.run[p]
                            else if head then [s.current] + s.run[p] else s.run[p] + [s.current])
  {
    hide Distinct, Tracks, WaitPlaces;
  }

  lemma HighestIs(s: State, p: nat)
    requires |s.run| == NUM_PRIORITIES && p < NUM_PRIORITIES && s.run[p] != []
    requires forall r | p < r < NUM_PRIORITIES :: s.run[r] == []
    ensures HighestNonEmpty(s.run, HIGHEST_PRIORITY) == p
  {
  }

  lemma HeadPriority(s: State, p: nat)
    requires Placed(s) && p < NUM_PRIORITIES
    ensures |s.run| == NUM_PRIORITIES
    ensures s.run[p] != [] ==> s.run[p][0] in s.threads && s.threads[s.run[p][0]].priority == p
  {
    hide Distinct, Tracks, WaitPlaces;
    assert s.run[p] != [] ==> s.run[p][0] in s.run[p];
  }

  /** After a preemption the thread runs or is in line, no later than before. */
  lemma PreemptedLine(s: State, e: State, t: Tid, p: nat, k: nat)
    requires InLine(s, t, p, k) && Inv(e) && Preempted(s, e, p)
    ensures e.current == t || exists k' :: InLine(e, t, p, k') && Turns(e, p, k') <= Turns(s, p, k)
  {
    hide Placed;
    QuantumBound(e);
    var c := s.threads[s.current];
    if c.priority == p && c.quantum > 0 {
      assert InLine(e, t, p, k);
    } else if k > 0 {
      assert s.run[p][1..][k - 1] == t;
      assert e.run[p][k - 1] == t;
      assert InLine(e, t, p, k - 1);
      assert Turns(e, p, k - 1) <= QUANTUM + QUANTUM * (k - 1);
    }
  }

  /** A preemption never makes the wait longer. */
  lemma PreemptInLine(s: State, t: Tid, p: nat, k: nat)
    requires InLine(s, t, p, k)
    ensures s.current in s.threads && s.threads[s.current].priority < NUM_PRIORITIES == |s.run|
    ensures Inv(Preempt(s))
    ensures Preempt(s).current == t
            || exists k' :: InLine(Preempt(s), t, p, k') && Turns(Preempt(s), p, k') <= Turns(s, p, k)
  {
    hide Preempt, Inv, Preempted;
    PreemptIs(s, t, p, k);
    PreemptedLine(s, Preempt(s), t, p, k);
  }

  lemma QuantumBound(s: State)
    requires Inv(s)
    ensures s.current in s.threads && s.threads[s.current].quantum <= QUANTUM
  {
    hide RunPlaces, WaitPlaces;
  }

  /** A tick takes at least one turn off the wait. */
  lemma TickInLine(s: State, t: Tid, p: nat, k: nat)
    requires InLine(s, t, p, k)
    ensures s.current in s.threads && Inv(TickInterrupt(s))
    ensures var e := TickInterrupt(s);
            e.current == t || exists k' :: InLine(e, t, p, k') && Turns(e, p, k') <= Turns(s, p, k) - 1
  {
    YieldInv(s);
    TickLine(s, t, p, k);
    hide Preempt, Placed, Preempted, Tick;
    var m := Tick(s).0;
    PreemptIs(m, t, p, k);
    TickedLine(s, m, Preempt(m), t, p, k);
  }

  lemma TickedLine(s: State, m: State, e: State, t: Tid, p: nat, k: nat)
    requires InLine(m, t, p, k) && Inv(e) && Preempted(m, e, p) && s.current in s.threads
    requires m.threads[m.current].priority == s.threads[s.current].priority
    requires s.threads[s.current].priority == p ==> m.threads[m.current].quantum == s.threads[s.current].quantum - 1
    ensures e.current == t || exists k' :: InLine(e, t, p, k') && Turns(e, p, k') <= Turns(s, p, k) - 1
  {
    hide Placed;
    QuantumBound(e);
    var c := m.threads[m.current];
    if c.priority == p && c.quantum > 0 {
      assert InLine(e, t, p, k);
    } else if k > 0 {
      assert m.run[p][1..][k - 1] == t;
      assert e.run[p][k - 1] == t;
      assert InLine(e, t, p, k - 1);
      assert Turns(e, p, k - 1) <= QUANTUM + QUANTUM * (k - 1);
    }
  }

  lemma TickLine(s: State, t: Tid, p: nat, k: nat)
    requires InLine(s, t, p, k)
    ensures s.current in s.threads
    ensures var m := Tick(s).0;
            && InLine(m, t, p, k) && m.current == s.current
               && m.threads[m.current].priority == s.threads[s.current].priority
            && (s.threads[s.current].priority == p ==> m.threads[m.current].quantum == s.threads[s.current].quantum - 1)
  {
    YieldInv(s);
    hide RunPlaces, WaitPlaces, ThreadsFine;
  }

  /** A run of timer interrupts and preemptions. */
  datatype Beat = TickBeat | PreemptBeat

  function Next(s: State, b: Beat): (e: State)
    requires Inv(s)
    ensures Inv(e)
  {
    YieldInv(s);
    YieldInv(Tick(s).0);
    if b.TickBeat? then TickInterrupt(s) else Preempt(s)
  }

  function Beats(s: State, bs: seq<Beat>): State
    requires Inv(s)
    decreases |bs|
  {
    if bs == [] then s else Beats(Next(s, bs[0]), bs[1..])
  }

  function Ticks(bs: seq<Beat>): nat {
    if bs == [] then 0 else (if bs[0].TickBeat? then 1 else 0) + Ticks(bs[1..])
  }

  lemma BeatsStep(s: State, b: Beat, bs: seq<Beat>)
    requires Inv(s)
    ensures Beats(s, [b] + bs) == Beats(Next(s, b), bs)
    ensures Ticks([b] + bs) == (if b.TickBeat? then 1 else 0) + Ticks(bs)
  {
    hide Next, Inv;
    assert ([b] + bs)[1..] == bs;
  }

  lemma BeatInLine(s: State, b: Beat, t: Tid, p: nat, k: nat)
    requires InLine(s, t, p, k)
    ensures Inv(s) && s.current in s.threads
    ensures var e := Next(s, b);
            e.current == t || exists k' ::
              InLine(e, t, p, k') && Turns(e, p, k') <= Turns(s, p, k) - (if b.TickBeat? then 1 else 0)
  {
    hide TickInterrupt, Preempt, Placed;
    if b.TickBeat? {
      TickInLine(s, t, p, k);
    } else {
      PreemptInLine(s, t, p, k);
    }
  }

  /** Within the given number of ticks, however many preemptions come between, the thread runs. */
  lemma {:induction false} RunsWithin(s: State, bs: seq<Beat>, t: Tid, p: nat, k: nat) returns (n: nat)
    requires InLine(s, t, p, k) && s.current in s.threads && Ticks(bs) >= Turns(s, p, k)
    ensures Inv(s) && n <= |bs| && Beats(s, bs[..n]).current == t && Ticks(bs[..n]) <= Turns(s, p, k)
    decreases |bs|
  {
    hide InLine, Inv, Next, Turns, Beats;
    InLineInv(s, t, p, k);
    SomeTurns(s, p, k);
    var b, rest := bs[0], bs[1..];
    assert bs == [b] + rest;
    BeatsStep(s, b, rest);
    BeatInLine(s, b, t, p, k);
    var e := Next(s, b);
    QuantumBound(e);
    if e.current == t {
      n := 1;
      assert bs[..1] == [b] + [];
      BeatsStep(s, b, []);
      NoBeats(e);
    } else {
      var k' :| InLine(e, t, p, k') && Turns(e, p, k') <= Turns(s, p, k) - (if b.TickBeat? then 1 else 0);
      InLineInv(e, t, p, k');
      n := RunsWithin(e, rest, t, p, k');
      assert bs[..n + 1] == [b] + rest[..n];
      BeatsStep(s, b, rest[..n]);
      n := n + 1;
    }
  }

  lemma SomeTurns(s: State, p: nat, k: nat)
    requires s.current in s.threads
    ensures Turns(s, p, k) >= 1 && Ticks([]) == 0
  {
  }

  lemma NoBeats(s: State)
    requires Inv(s)
    ensures Beats(s, []) == s
  {
  }

  lemma InLineInv(s: State, t: Tid, p: nat, k: nat)
    requires InLine(s, t, p, k)
    ensures Inv(s) && s.current in s.threads
  {
  }

  /** A thread ready at position `k` with nothing higher runnable runs within 5 * (k + 1) ticks. */
  lemma ReadyRuns(s: State, bs: seq<Beat>, t: Tid, p: nat, k: nat) returns (n: nat)
    requires InLine(s, t, p, k) && Ticks(bs) >= QUANTUM * (k + 1)
    ensures Inv(s) && n <= |bs| && Beats(s, bs[..n]).current == t && Ticks(bs[..n]) <= QUANTUM * (k + 1)
  {
    QuantumBound(s);
    n := RunsWithin(s, bs, t, p, k);
  }
}
