/** One timer at a time: what the calls and the ticks make of it, whatever the other timers in the
    queue do; and that a cancelled timer is out for good until it is set again. */
module Arming {
  import opened Options
  import opened Word32
  import opened Timers

  /** What there is to know of one timer. */
  datatype Phase = Phase(queued: bool, scheduled: u32, period: u32, callback: Option<nat>)

  function PhaseOf(c: Clock, t: Id): Phase
    requires t in c.timers
  {
    Phase(t in c.queue, c.timers[t].scheduled, c.timers[t].period, c.timers[t].callback)
  }

  /** A set timer is due its delay after the call, at least one millisecond; only a periodic one has a
      period; a cancelled one is out of the queue and has neither period nor callback. */
  function Called(p: Phase, a: Action, t: Id): Phase {
    if a.t != t then p
    else match a
      case CancelTimer(_) => p.(queued := false, period := 0, callback := None)
      case SetOneshot(_, at, delay, callback) =>
        if p.queued then p else Phase(true, U32(at + if delay == 0 then 1 else delay), 0, Some(callback))
      case SetPeriodic(_, at, period, callback) =>
        var d: u32 := if period == 0 then 1 else period;
        if p.queued then p else Phase(true, U32(at + d), d, Some(callback))
  }

  function AllCalled(p: Phase, acts: seq<Action>, t: Id): Phase
    decreases |acts|
  {
    if acts == [] then p else AllCalled(Called(p, acts[0], t), acts[1..], t)
  }

  /** Every timer queued is one, and once. */
  predicate Fine(c: Clock) { Known(c) && Once(c.queue) }

  lemma InsertFine(c: Clock, t: Id)
    requires Fine(c) && t in c.timers && t !in c.queue
    ensures Fine(Insert(c, t)) && Insert(c, t).timers == c.timers
    ensures forall u :: u in Insert(c, t).queue <==> u == t || u in c.queue
  {
    hide TimeGt;
    OnceInsert(c.queue, Place(c, c.timers[t].scheduled), t);
  }

  lemma CancelFine(c: Clock, t: Id)
    requires Fine(c) && t in c.timers
    ensures Fine(Cancel(c, t)) && forall u :: u in Cancel(c, t).queue <==> u in c.queue && u != t
  {
    hide Once, Delete;
    DeleteIs(c.queue, t);
  }

  /** A call on one timer changes that timer as it should and no other. */
  lemma ActPhase(c: Clock, a: Action, t: Id)
    requires Fine(c) && t in c.timers
    ensures Fine(Act(c, a)) && Act(c, a).timers.Keys == c.timers.Keys
    ensures PhaseOf(Act(c, a), t) == Called(PhaseOf(c, t), a, t)
  {
    hide Once, Insert, Delete;
    if a.t in c.timers {
      match a
      case CancelTimer(u) => CancelFine(c, u);
      case SetOneshot(u, at, _, callback) =>
        if u !in c.queue {
          InsertFine(c.(timers := c.timers[u := Timer(U32(at + Delay(a)), 0, Some(callback))]), u);
        }
      case SetPeriodic(u, at, _, callback) =>
        if u !in c.queue {
          InsertFine(c.(timers := c.timers[u := Timer(U32(at + Delay(a)), Delay(a), Some(callback))]), u);
        }
    }
  }

  lemma {:induction false} ActsPhase(c: Clock, acts: seq<Action>, t: Id)
    requires Fine(c) && t in c.timers
    ensures Fine(ActAll(c, acts)) && ActAll(c, acts).timers.Keys == c.timers.Keys
    ensures PhaseOf(ActAll(c, acts), t) == AllCalled(PhaseOf(c, t), acts, t)
    decreases |acts|
  {
    hide Act, Once, Called;
    if acts != [] {
      ActPhase(c, acts[0], t);
      ActsPhase(Act(c, acts[0]), acts[1..], t);
    }
  }

  /** The head fires: it leaves the queue, its callback makes its calls, and if it was periodic and is
      neither cancelled nor queued then, it goes back in, one period from now. */
  function HeadAfter(p: Phase, acts: seq<Action>, t: Id, now: u32): Phase {
    var w := AllCalled(p.(queued := false), acts, t);
    if p.period > 0 && !w.queued && w.period > 0 then w.(queued := true, scheduled := U32(now + w.period)) else w
  }

  lemma TailFine(c: Clock)
    requires Fine(c) && c.queue != []
    ensures Fine(c.(queue := c.queue[1..])) && forall u :: u in c.queue[1..] <==> u in c.queue && u != c.queue[0]
  {
    assert c.queue == [c.queue[0]] + c.queue[1..];
  }

  lemma RearmPhase(e: Clock, h: Id, periodic: bool, now: u32, t: Id)
    requires Fine(e) && h in e.timers && t in e.timers
    ensures var d := Rearm(e, h, periodic, now);
            && Fine(d) && d.timers.Keys == e.timers.Keys
            && PhaseOf(d, t) ==
               if t == h && periodic && h !in e.queue && e.timers[h].period > 0
               then PhaseOf(e, h).(queued := true, scheduled := U32(now + e.timers[h].period))
               else PhaseOf(e, t)
  {
    hide Once, Insert;
    if periodic && h !in e.queue && e.timers[h].period > 0 {
      InsertFine(e.(timers := e.timers[h := e.timers[h].(scheduled := U32(now + e.timers[h].period))]), h);
    }
  }

  /** What a firing makes of the timer that fires, and of every other. */
  lemma FiredPhase(c: Clock, now: u32, acts: seq<Action>, t: Id)
    requires Fine(c) && c.queue != [] && t in c.timers
    ensures c.queue[0] in c.timers && Fine(Fired(c, now, acts)) && Fired(c, now, acts).timers.Keys == c.timers.Keys
    ensures PhaseOf(Fired(c, now, acts), t) ==
            if t == c.queue[0] then HeadAfter(PhaseOf(c, t), acts, t, now) else AllCalled(PhaseOf(c, t), acts, t)
  {
    var h, r := c.queue[0], c.(queue := c.queue[1..]);
    assert h in c.queue;
    TailFine(c);
    hide Once, Rearm;
    ActsPhase(r, acts, t);
    ActsPhase(r, acts, h);
    RearmPhase(ActAll(r, acts), h, c.timers[h].period > 0, now, t);
  }

  // ---- the last call counts ----

  lemma {:induction false} CalledApart(p: Phase, acts: seq<Action>, t: Id)
    requires forall a | a in acts :: a.t != t
    ensures AllCalled(p, acts, t) == p
    decreases |acts|
  {
    if acts != [] {
      CalledApart(Called(p, acts[0], t), acts[1..], t);
    }
  }

  lemma {:induction false} CalledLast(p: Phase, acts: seq<Action>, t: Id, i: nat)
    requires i < |acts| && acts[i] == CancelTimer(t) && forall j | i < j < |acts| :: acts[j].t != t
    ensures !AllCalled(p, acts, t).queued && AllCalled(p, acts, t).period == 0
    decreases |acts|
  {
    if i == 0 {
      CalledApart(Called(p, acts[0], t), acts[1..], t);
    } else {
      CalledLast(Called(p, acts[0], t), acts[1..], t, i - 1);
    }
  }

  /** If the last call on a timer is timer_cancel it is not queued after the firing, be it the timer
      that fires or any other. */
  lemma LastCancelled(c: Clock, now: u32, acts: seq<Action>, t: Id, i: nat)
    requires Fine(c) && c.queue != [] && t in c.timers
    requires i < |acts| && acts[i] == CancelTimer(t) && forall j | i < j < |acts| :: acts[j].t != t
    ensures c.queue[0] in c.timers && t !in Fired(c, now, acts).queue
  {
    FiredPhase(c, now, acts, t);
    hide Fired;
    CalledLast(PhaseOf(c, t), acts, t, i);
    CalledLast(PhaseOf(c, t).(queued := false), acts, t, i);
  }

  /** A timer that fires and is not called upon is queued again exactly when it is periodic, and then
      one period from now. */
  lemma LeftAlone(c: Clock, now: u32, acts: seq<Action>)
    requires Fine(c) && c.queue != [] && forall a | a in acts :: a.t != c.queue[0]
    ensures var t := c.queue[0];
            && t in c.timers && var e := Fired(c, now, acts);
               && (t in e.queue <==> c.timers[t].period > 0) && t in e.timers
               && (t in e.queue ==> e.timers[t].scheduled == U32(now + c.timers[t].period))
               && e.timers[t].period == c.timers[t].period && e.timers[t].callback == c.timers[t].callback
  {
    assert c.queue[0] in c.queue;
    FiredPhase(c, now, acts, c.queue[0]);
    hide Fired;
    CalledApart(PhaseOf(c, c.queue[0]).(queued := false), acts, c.queue[0]);
  }

  // ---- runs of calls and ticks ----

  /** A call from outside, or a timer interrupt with the calls of its callbacks; `lo` starts a window
      of half the clock's range with all times in it. */
  datatype Happening = Call(a: Action) | TickAt(lo: u32, now: u32, script: Script)

  /** What timer_tick fires, and the clock it leaves. */
  function FiredAt(c: Clock, h: Happening): seq<Id>
    requires h.TickAt? && Known(c)
  {
    ToFire(DueNow(c, h.lo, h.now), {}, h.script, 0)
  }

  function Happened(c: Clock, h: Happening): Clock
    requires Known(c)
  {
    match h
    case Call(a) => Act(c, a)
    case TickAt(_, now, script) => Firings(c, now, script, |FiredAt(c, h)|)
  }

  /** The clock after all that happens. */
  function Run(c: Clock, hs: seq<Happening>): Clock
    decreases |hs|
  {
    if hs == [] || !Known(c) then c else Run(Happened(c, hs[0]), hs[1..])
  }

  /** The timers fired, tick by tick. */
  function AllFired(c: Clock, hs: seq<Happening>): seq<Id>
    decreases |hs|
  {
    if hs == [] || !Known(c) then []
    else (if hs[0].TickAt? then FiredAt(c, hs[0]) else []) + AllFired(Happened(c, hs[0]), hs[1..])
  }

  predicate Sets(a: Action, t: Id) { a.t == t && !a.CancelTimer? }

  /** Nobody sets the timer. */
  ghost predicate NotSet(h: Happening, t: Id) {
    match h
    case Call(a) => !Sets(a, t)
    case TickAt(_, _, script) => forall n: nat, i: nat | i < |script(n)| :: !Sets(script(n)[i], t)
  }

  /** Out of the queue, and nothing that would put it back. */
  predicate Off(c: Clock, t: Id) {
    t in c.timers && t !in c.queue && c.timers[t].period == 0
  }

  lemma {:induction false} StaysOff(p: Phase, acts: seq<Action>, t: Id)
    requires !p.queued && p.period == 0 && forall i | 0 <= i < |acts| :: !Sets(acts[i], t)
    ensures var q := AllCalled(p, acts, t); !q.queued && q.period == 0
    decreases |acts|
  {
    if acts != [] {
      StaysOff(Called(p, acts[0], t), acts[1..], t);
    }
  }

  lemma {:induction false} FiringsOff(c: Clock, now: u32, script: Script, n: nat, t: Id)
    requires Fine(c) && Off(c, t) && forall m: nat, i: nat | i < |script(m)| :: !Sets(script(m)[i], t)
    ensures Fine(Firings(c, now, script, n)) && Off(Firings(c, now, script, n), t)
  {
    if n > 0 {
      hide Fired, Fine, Off;
      FiringsOff(c, now, script, n - 1, t);
      FiringOff(Firings(c, now, script, n - 1), now, script(n - 1), t);
    }
  }

  lemma FiringOff(e: Clock, now: u32, acts: seq<Action>, t: Id)
    requires Fine(e) && Off(e, t) && forall i | 0 <= i < |acts| :: !Sets(acts[i], t)
    ensures Known(e) && e.queue != [] && e.queue[0] in e.timers ==>
              Fine(Fired(e, now, acts)) && Off(Fired(e, now, acts), t)
  {
    hide Once, Fired;
    if e.queue != [] {
      assert e.queue[0] in e.queue;
      FiredPhase(e, now, acts, t);
      StaysOff(PhaseOf(e, t), acts, t);
    }
  }

  lemma HappensOff(c: Clock, h: Happening, t: Id)
    requires Fine(c) && Off(c, t) && NotSet(h, t)
    ensures Fine(Happened(c, h)) && Off(Happened(c, h), t)
    ensures h.TickAt? ==> t !in FiredAt(c, h)
  {
    match h
    case Call(a) =>
      hide Act, Once;
      ActPhase(c, a, t);
    case TickAt(lo, now, script) =>
      hide Firings, ToFire, DueCount;
      FiringsOff(c, now, script, |FiredAt(c, h)|, t);
      OnceParts(c.queue, DueCount(c, lo, now));
      hide Once;
      ToFireOnly(DueNow(c, lo, now), {}, script, 0);
  }

  /** Over any run of calls and ticks, a cancelled timer is in no queue and does not fire until it is
      set again. */
  lemma {:induction false} OffUntilSet(c: Clock, hs: seq<Happening>, t: Id)
    requires Fine(c) && Off(c, t) && forall i | 0 <= i < |hs| :: NotSet(hs[i], t)
    ensures Off(Run(c, hs), t) && t !in AllFired(c, hs)
    decreases |hs|
  {
    if hs != [] {
      hide Happened, FiredAt, NotSet, Off, Once;
      HappensOff(c, hs[0], t);
      OffUntilSet(Happened(c, hs[0]), hs[1..], t);
    }
  }

  /** So it is once timer_cancel has been called, whatever the timer was before. */
  lemma CancelledForGood(c: Clock, hs: seq<Happening>, t: Id)
    requires Fine(c) && t in c.timers && forall i | 0 <= i < |hs| :: NotSet(hs[i], t)
    ensures var e := Act(c, CancelTimer(t)); t !in Run(e, hs).queue && t !in AllFired(e, hs)
  {
    hide Act, Run, AllFired, NotSet, Once;
    ActPhase(c, CancelTimer(t), t);
    OffUntilSet(Act(c, CancelTimer(t)), hs, t);
  }
}
