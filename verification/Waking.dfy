/** Who wakes a blocked thread, and what it is told: a wake of its queue or its own timeout,
    whichever comes first. */
module Waking {
  import opened Options
  import opened RunBitmap
  import opened Threads
  import opened Scheduling

  /** The result a step gives the blocked thread `t`, if it is a step that wakes it: its own
      timeout, a wake of its queue when it is first in it, a wake of its whole queue, or an
      exit that signals its queue. */
  function Wakes(s: State, x: Step, t: Tid): Option<int>
    requires t in s.threads
  {
    var q := s.threads[t].waiting;
    match x
    case TimeoutStep(u) => if u == t then Some(ERR_TIMED_OUT) else None
    case WakeOneStep(p, _, err) =>
      if q == Some(p) && p in s.waits && s.waits[p].list != [] && s.waits[p].list[0] == t then Some(err) else None
    case WakeAllStep(p, _, err) => if q == Some(p) then Some(err) else None
    case ExitStep(wake) => if wake.Some? && q == wake then Some(NO_ERROR) else None
    case _ => None
  }

  ghost predicate Waits(s: State, t: Tid, q: Qid) {
    t in s.threads && s.threads[t].status.Blocked? && s.threads[t].waiting == Some(q) && q in s.waits
      && t in s.waits[q].list
  }

  /** The queue the thread is waiting on, and the result it holds. */
  predicate Holds(s: State, t: Tid, q: Option<Qid>, ret: int) {
    t in s.threads && s.threads[t].waiting == q && s.threads[t].ret == ret
  }

  lemma ReschedHolds(s: State, t: Tid, q: Option<Qid>, ret: int)
    requires Holds(s, t, q, ret)
    ensures Holds(Resched(s), t, q, ret)
  {
    hide TopQueue, Mask, WithoutMask;
  }

  lemma RawHolds(s: State, u: Tid, head: bool, t: Tid, q: Option<Qid>, ret: int)
    requires u in s.threads && s.threads[u].priority < NUM_PRIORITIES == |s.run| && Holds(s, t, q, ret)
    ensures Holds(EnlistRaw(s, u, head), t, q, ret) && |EnlistRaw(s, u, head).run| == |s.run|
  {
  }

  // ---- what each call leaves a blocked thread with ----

  lemma GiveWayHolds(s: State, t: Tid, q: Option<Qid>, ret: int)
    requires Inv(s) && t != s.current && Holds(s, t, q, ret)
    ensures s.current in s.threads && s.threads[s.current].priority < NUM_PRIORITIES == |s.run|
    ensures Holds(Yield(s), t, q, ret) && Holds(Preempt(s), t, q, ret) && Holds(Tick(s).0, t, q, ret)
  {
    hide Placed, Inv, Resched, EnlistRaw;
    YieldInv(s);
    RawHolds(SetQuantum(s, 0), s.current, false, t, q, ret);
    ReschedHolds(EnlistRaw(SetQuantum(s, 0), s.current, false), t, q, ret);
    var head := s.threads[s.current].quantum > 0;
    RawHolds(s, s.current, head, t, q, ret);
    ReschedHolds(EnlistRaw(s, s.current, head), t, q, ret);
  }

  lemma LeaveHolds(s: State, p: Qid, timed: bool, t: Tid, q: Option<Qid>, ret: int)
    requires Inv(s) && t != s.current && Holds(s, t, q, ret)
    ensures p in s.waits ==> Holds(BlockOn(s, p, timed), t, q, ret)
    ensures Holds(Sleep(s), t, q, ret)
  {
    hide RunPlaces, WaitPlaces, ThreadsFine, Resched;
    var c := s.current;
    if p in s.waits {
      ReschedHolds(Waiting(s, p, timed), t, q, ret);
    }
    ReschedHolds(s.(threads := s.threads[c := s.threads[c].(status := Sleeping)], sleepers := s.sleepers + {c}), t, q,
      ret);
  }

  lemma ResumeHolds(s: State, u: Tid, t: Tid, q: Option<Qid>, ret: int)
    requires Inv(s) && u in s.threads && s.threads[u].status.Suspended? && t != s.current && Holds(s, t, q, ret)
    ensures Holds(Resume(s, u).0, t, q, ret)
  {
    ResumeInv(s, u);
    RawIsEnlist(s, u, true);
    EnlistPlaced(s, u, true);
    RawKeeps(s, u, true);
    hide RunPlaces, WaitPlaces, ThreadsFine, OthersPlaced, EnlistRaw, Enlist, Yield;
    GiveWayHolds(EnlistRaw(s, u, true), t, q, ret);
  }

  lemma TimeoutHolds(s: State, u: Tid, t: Tid)
    requires Inv(s) && u in s.timeouts && u in s.threads && t in s.threads && s.threads[t].status.Blocked?
    ensures if u == t then Holds(TimeoutFires(s, u), t, None, ERR_TIMED_OUT)
            else Holds(TimeoutFires(s, u), t, s.threads[t].waiting, s.threads[t].ret)
  {
    QueuesThere(s);
    hide RunPlaces, WaitPlaces, OthersPlaced, Insert;
    if s.threads[u].status.Blocked? {
      InsertThreads(Unhooked(s, u, ERR_TIMED_OUT), u);
    }
  }

  lemma WakeOneHolds(s: State, p: Qid, resched: bool, err: int, t: Tid)
    requires Inv(s) && p in s.waits && t in s.threads && s.threads[t].status.Blocked? && t != s.current
    ensures if s.waits[p].list != [] && s.waits[p].list[0] == t then Holds(WakeOne(s, p, resched, err).0, t, None, err)
            else Holds(WakeOne(s, p, resched, err).0, t, s.threads[t].waiting, s.threads[t].ret)
  {
    hide RunPlaces, WaitPlaces, ThreadsFine, OthersPlaced, Resched, Insert, EnlistRaw, Placed;
    if s.waits[p].list != [] {
      var u := s.waits[p].list[0];
      WokenThread(s, p, u);
      var a := Unhooked(s, u, err);
      var q, ret := a.threads[t].waiting, a.threads[t].ret;
      var b := if resched then EnlistRaw(a, s.current, true) else a;
      RawKeeps(a, s.current, true);
      RawHolds(a, s.current, true, t, q, ret);
      InsertThreads(b, u);
      ReschedHolds(Insert(b, u, true), t, q, ret);
    }
  }

  lemma InItsQueue(s: State, q: Qid, t: Tid)
    requires Inv(s) && q in s.waits && t in s.threads && s.threads[t].status.Blocked?
    ensures t in s.waits[q].list <==> s.threads[t].waiting == Some(q)
  {
    hide RunPlaces, ThreadsFine, OthersPlaced, Distinct;
  }

  lemma WakeAllHolds(s: State, p: Qid, resched: bool, err: int, t: Tid)
    requires Inv(s) && p in s.waits && t in s.threads && s.threads[t].status.Blocked? && t != s.current
    ensures if s.threads[t].waiting == Some(p) then Holds(WakeAll(s, p, resched, err).0, t, None, err)
            else Holds(WakeAll(s, p, resched, err).0, t, s.threads[t].waiting, s.threads[t].ret)
  {
    InItsQueue(s, p, t);
    hide Placed, Resched, WakeEach, EnlistRaw, Inv, AllWoken;
    YieldInv(s);
    GiveWay(s, true);
    CurrentWaits(s, p);
    var a := if resched && s.waits[p].count > 0 then EnlistRaw(s, s.current, true) else s;
    RawKeeps(s, s.current, true);
    PlacedNow(s);
    WakeEachDoes(a, p, err);
    var q, ret := s.threads[t].waiting, s.threads[t].ret;
    EachHolds(a, WakeEach(a, p, err), p, s.waits[p].list, err, t, q, ret);
    ReschedHolds(WakeEach(a, p, err), t, if q == Some(p) then None else q, if q == Some(p) then err else ret);
  }

  lemma EachHolds(a: State, e: State, p: Qid, l: seq<Tid>, err: int, t: Tid, q: Option<Qid>, ret: int)
    requires p in a.waits && AllWoken(a, e, p, l, err) && Holds(a, t, q, ret) && (t in l <==> q == Some(p))
    ensures Holds(e, t, if q == Some(p) then None else q, if q == Some(p) then err else ret)
  {
  }

  lemma PlacedNow(s: State)
    requires Inv(s)
    ensures Placed(s)
  {
  }

  lemma ExitHolds(s: State, wake: Option<Qid>, t: Tid)
    requires Inv(s) && s.current != s.boot && (wake.Some? ==> wake.value in s.waits)
    requires t in s.threads && s.threads[t].status.Blocked? && t != s.current
    ensures if wake.Some? && s.threads[t].waiting == wake then Holds(Exit(s, wake), t, None, NO_ERROR)
            else Holds(Exit(s, wake), t, s.threads[t].waiting, s.threads[t].ret)
  {
    LeavingPlaced(s, s.threads[s.current].(status := Dead), s.sleepers);
    if wake.Some? {
      InItsQueue(s, wake.value, t);
      WakeEachDoes(Die(s), wake.value, NO_ERROR);
      hide RunPlaces, WaitPlaces, ThreadsFine, OthersPlaced, Resched, WakeEach;
      var e := WakeEach(Die(s), wake.value, NO_ERROR);
      ReschedHolds(e, t, e.threads[t].waiting, e.threads[t].ret);
    } else {
      hide RunPlaces, WaitPlaces, ThreadsFine, OthersPlaced, Resched, WakeEach;
      ReschedHolds(Die(s), t, s.threads[t].waiting, s.threads[t].ret);
    }
  }

  lemma StepHolds(s: State, x: Step, t: Tid)
    requires Inv(s) && Allowed(s, x) && t in s.threads && s.threads[t].status.Blocked? && t != s.current
    ensures match Wakes(s, x, t)
            case Some(r) => Holds(Do(s, x), t, None, r)
            case None => Holds(Do(s, x), t, s.threads[t].waiting, s.threads[t].ret)
  {
    hide Inv, Placed, Yield, Preempt, Tick, BlockOn, WakeOne, WakeAll, TimeoutFires, Sleep, Exit, Resume;
    YieldInv(s);
    var q, ret := s.threads[t].waiting, s.threads[t].ret;
    match x
    case YieldStep => GiveWayHolds(s, t, q, ret);
    case PreemptStep => GiveWayHolds(s, t, q, ret);
    case TickStep => GiveWayHolds(s, t, q, ret);
    case BlockStep(p, timed) => LeaveHolds(s, p, timed, t, q, ret);
    case ReturnStep =>
    case WakeOneStep(p, resched, err) =>
      InItsQueue(s, p, t);
      WakeOneHolds(s, p, resched, err, t);
    case WakeAllStep(p, resched, err) => WakeAllHolds(s, p, resched, err, t);
    case TimeoutStep(u) => TimeoutHolds(s, u, t);
    case SleepStep => LeaveHolds(s, 0, false, t, q, ret);
    case SleepOverStep(u) =>
      QueuesThereInv(s);
      SleeperThere(s, u);
      InsertThreads(MarkReady(s.(sleepers := s.sleepers - {u}), u), u);
    case ExitStep(wake) => ExitHolds(s, wake, t);
    case CreateStep(u, priority) =>
    case ResumeStep(u) => ResumeHolds(s, u, t, q, ret);
    case PriorityStep(to) =>
    case IdleStep =>
    case QueueStep(p) =>
  }

  // ---- the first that comes decides ----

  lemma WaitsNow(s: State, t: Tid)
    requires Inv(s) && t in s.threads
    ensures s.threads[t].waiting.Some? ==> Waits(s, t, s.threads[t].waiting.value)
    ensures s.threads[t].waiting.None? ==> !s.threads[t].status.Blocked?
    ensures s.threads[t].status.Blocked? ==> t != s.current && s.threads[t].waiting.Some?
  {
    hide RunPlaces, Distinct;
  }

  /** A step wakes a blocked thread only if it is its own timeout or a wake that reaches it,
      and then with that step's result; after any other step it waits in the same queue. */
  lemma StepDecides(s: State, x: Step, t: Tid, q: Qid)
    requires Inv(s) && Allowed(s, x) && Waits(s, t, q)
    ensures match Wakes(s, x, t)
            case Some(r) => Told(Do(s, x), t, r)
            case None => Waits(Do(s, x), t, q)
  {
    hide Inv, Allowed, Do;
    WaitsNow(s, t);
    StepHolds(s, x, t);
    DoInv(s, x);
    WaitsNow(Do(s, x), t);
  }

  /** The state after the first `i` steps. */
  ghost function StateAt(s: State, xs: seq<Step>, i: nat): State
    decreases |xs|
  {
    if i == 0 || xs == [] || !Inv(s) || !Allowed(s, xs[0]) then s else StateAt(Do(s, xs[0]), xs[1..], i - 1)
  }

  /** Over any run from a state in which the thread is blocked: either no step wakes it and it
      still waits in its queue, or the first of the steps that do, a wake or its timeout,
      decides what it is told, and it is still told that when it next gets the processor. */
  lemma {:induction false} FirstDecides(s: State, xs: seq<Step>, e: State, t: Tid, q: Qid) returns (k: nat, r: int)
    requires Reaches(s, xs, e) && Waits(s, t, q)
    ensures k <= |xs| && forall i | 0 <= i < k ::
              Waits(StateAt(s, xs, i), t, q) && Wakes(StateAt(s, xs, i), xs[i], t) == None
    ensures k == |xs| ==> Waits(e, t, q)
    ensures k < |xs| ==>
              && Waits(StateAt(s, xs, k), t, q) && Wakes(StateAt(s, xs, k), xs[k], t) == Some(r)
              && Told(StateAt(s, xs, k + 1), t, r)
              && (StaysOff(StateAt(s, xs, k + 1), xs[k + 1..], t) ==> Told(e, t, r))
    decreases |xs|
  {
    hide Inv, Allowed, Do, Told, Wakes, Waits;
    k, r := 0, 0;
    if xs != [] {
      var m, ys := Do(s, xs[0]), xs[1..];
      assert Waits(s, t, q) ==> t in s.threads by { WaitsThere(s, t, q); }
      StepDecides(s, xs[0], t, q);
      match Wakes(s, xs[0], t)
      case Some(res) =>
        r := res;
        assert StateAt(s, xs, 1) == m && xs[0 + 1..] == ys;
        assert StateAt(s, xs, 0) == s;
        if StaysOff(m, ys, t) {
          RunTells(m, ys, e, t, res);
        }
      case None =>
        k, r := FirstDecides(m, ys, e, t, q);
        forall i | 0 <= i < k + 1
          ensures Waits(StateAt(s, xs, i), t, q)
          ensures var m := StateAt(s, xs, i); t in m.threads && Wakes(m, xs[i], t) == None
        {
          if i > 0 {
            NextState(s, xs, i - 1);
            WaitsThere(StateAt(m, ys, i - 1), t, q);
          }
        }
        NextState(s, xs, k);
        NextState(s, xs, k + 1);
        assert k < |ys| ==> xs[k + 1 + 1..] == ys[k + 1..];
        k := k + 1;
    }
  }

  lemma NextState(s: State, xs: seq<Step>, i: nat)
    requires xs != [] && Inv(s) && Allowed(s, xs[0])
    ensures StateAt(s, xs, 0) == s && StateAt(s, xs, i + 1) == StateAt(Do(s, xs[0]), xs[1..], i)
  {
    hide Inv, Allowed, Do;
  }

  lemma WaitsThere(s: State, t: Tid, q: Qid)
    requires Waits(s, t, q)
    ensures t in s.threads
  {
  }
}
