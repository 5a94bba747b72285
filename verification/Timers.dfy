/** The timer queue: sorted by a wrapping clock, drained at each tick, with callbacks that
    may set and cancel timers. */
module Timers {
  import opened Options
  import opened Word32

  type Id = nat

  /** `callback` stands for the function pointer with its argument; NULL is None. */
  datatype Timer = Timer(scheduled: u32, period: u32, callback: Option<nat>)

  /** The queue and all timers; a timer is in the list when it is in `queue`. */
  datatype Clock = Clock(queue: seq<Id>, timers: map<Id, Timer>)

  /** TIME_GT and TIME_LT: the sign of the 32-bit difference. */
  predicate TimeGt(a: u32, b: u32) { S32(a - b) > 0 }

  predicate TimeLt(a: u32, b: u32) { S32(a - b) < 0 }

  // ---- a window of half the range in which the comparison is an order ----

  const HALF := 0x8000_0000

  /** How far `t` lies after the start of the window. */
  function Pos(lo: u32, t: u32): nat { U32(t - lo) }

  lemma GtIsOrder(lo: u32, a: u32, b: u32)
    requires Pos(lo, a) < HALF && Pos(lo, b) < HALF
    ensures TimeGt(a, b) <==> Pos(lo, a) > Pos(lo, b)
    ensures TimeLt(a, b) <==> Pos(lo, a) < Pos(lo, b)
  {
  }

  lemma PosAdd(lo: u32, a: u32, d: u32)
    requires Pos(lo, a) + d < HALF
    ensures Pos(lo, U32(a + d)) == Pos(lo, a) + d
  {
  }

  // ---- the queue ----

  predicate Once(q: seq<Id>) {
    forall i, j | 0 <= i < j < |q| :: q[i] != q[j]
  }

  predicate Listed(c: Clock, lo: u32) {
    forall t | t in c.queue :: t in c.timers && Pos(lo, c.timers[t].scheduled) < HALF && c.timers[t].callback.Some?
  }

  function At(c: Clock, lo: u32, t: Id): nat
    requires t in c.timers
  {
    Pos(lo, c.timers[t].scheduled)
  }

  predicate Sorted(c: Clock, lo: u32)
    requires Listed(c, lo)
  {
    forall i, j | 0 <= i < j < |c.queue| :: At(c, lo, c.queue[i]) <= At(c, lo, c.queue[j])
  }

  /** The invariant: each timer queued once, all live times in the window, in order. */
  predicate TInv(c: Clock, lo: u32) {
    Once(c.queue) && Listed(c, lo) && Sorted(c, lo)
  }

  /** How many timers stand before one that is later than `time`. */
  function Place(c: Clock, time: u32): (i: nat)
    requires forall t | t in c.queue :: t in c.timers
    ensures i <= |c.queue|
    ensures forall j | 0 <= j < i :: !TimeGt(c.timers[c.queue[j]].scheduled, time)
    ensures i < |c.queue| ==> TimeGt(c.timers[c.queue[i]].scheduled, time)
    decreases |c.queue|
  {
    if c.queue == [] || TimeGt(c.timers[c.queue[0]].scheduled, time) then 0
      else 1 + Place(c.(queue := c.queue[1..]), time)
  }

  /** insert_timer_in_queue: before the first timer that is later. */
  function Insert(c: Clock, t: Id): Clock
    requires t in c.timers && forall u | u in c.queue :: u in c.timers
  {
    var i := Place(c, c.timers[t].scheduled);
    c.(queue := c.queue[..i] + [t] + c.queue[i..])
  }

  function Delete(q: seq<Id>, t: Id): (r: seq<Id>)
    ensures t !in q ==> r == q
  {
    if q == [] then [] else if q[0] == t then q[1..] else [q[0]] + Delete(q[1..], t)
  }

  /** timer_set: `now` is what current_time returns. The code panics on a queued timer. */
  function Set(c: Clock, t: Id, now: u32, delay: u32, period: u32, callback: nat): Clock
    requires t in c.timers && t !in c.queue && forall u | u in c.queue :: u in c.timers
  {
    Insert(c.(timers := c.timers[t := Timer(U32(now + delay), period, Some(callback))]), t)
  }

  /** timer_cancel: out of the queue, and never re-armed by a callback still running. */
  function Cancel(c: Clock, t: Id): Clock
    requires t in c.timers
  {
    c.(queue := Delete(c.queue, t), timers := c.timers[t := c.timers[t].(period := 0, callback := None)])
  }

  /** The order of a queue split at the place of a new timer: ties go before it. */
  lemma PlaceSplits(c: Clock, lo: u32, time: u32)
    requires TInv(c, lo) && Pos(lo, time) < HALF
    ensures var i := Place(c, time);
            && (forall j | 0 <= j < i :: At(c, lo, c.queue[j]) <= Pos(lo, time))
            && (forall j | i <= j < |c.queue| :: At(c, lo, c.queue[j]) > Pos(lo, time))
  {
    var i := Place(c, time);
    forall j | 0 <= j < i
      ensures At(c, lo, c.queue[j]) <= Pos(lo, time)
    {
      GtIsOrder(lo, c.timers[c.queue[j]].scheduled, time);
    }
    if i < |c.queue| {
      GtIsOrder(lo, c.timers[c.queue[i]].scheduled, time);
    }
  }

  /** Inserting keeps the queue sorted, and puts the timer behind all that are due no later:
      first in, first out among equal times. */
  lemma InsertKeeps(c: Clock, lo: u32, t: Id)
    requires TInv(c, lo) && t in c.timers && t !in c.queue
    requires Pos(lo, c.timers[t].scheduled) < HALF && c.timers[t].callback.Some?
    ensures TInv(Insert(c, t), lo)
    ensures var i := Place(c, c.timers[t].scheduled);
            && Insert(c, t).queue == c.queue[..i] + [t] + c.queue[i..]
            && (forall j | 0 <= j < i :: At(c, lo, c.queue[j]) <= At(c, lo, t))
            && (forall j | i <= j < |c.queue| :: At(c, lo, c.queue[j]) > At(c, lo, t))
  {
    hide Pos, TimeGt, Place, Once, Sorted, At;
    var i := Place(c, c.timers[t].scheduled);
    PlaceSplits(c, lo, c.timers[t].scheduled);
    OnceInsert(c.queue, i, t);
    assert forall u :: u in Insert(c, t).queue <==> u == t || u in c.queue;
    SortedInsert(c, Insert(c, t), lo, i, t);
    assert At(c, lo, t) == Pos(lo, c.timers[t].scheduled) by { AtIs(c, lo, t); }
  }

  lemma AtIs(c: Clock, lo: u32, t: Id)
    requires t in c.timers
    ensures At(c, lo, t) == Pos(lo, c.timers[t].scheduled)
  {
    hide Pos;
  }

  lemma Inserted(q: seq<Id>, i: nat, t: Id)
    requires i <= |q|
    ensures var r := q[..i] + [t] + q[i..];
            forall j | 0 <= j < |r| :: r[j] == if j < i then q[j] else if j == i then t else q[j - 1]
  {
  }

  lemma OnceInsert(q: seq<Id>, i: nat, t: Id)
    requires Once(q) && i <= |q| && t !in q
    ensures Once(q[..i] + [t] + q[i..])
    ensures forall u :: u in q[..i] + [t] + q[i..] <==> u == t || u in q
  {
    Inserted(q, i, t);
    assert q == q[..i] + q[i..];
  }

  lemma SortedInsert(c: Clock, e: Clock, lo: u32, i: nat, t: Id)
    requires Listed(c, lo) && Sorted(c, lo) && Listed(e, lo) && i <= |c.queue| && e.timers == c.timers && t in c.timers
    requires e.queue == c.queue[..i] + [t] + c.queue[i..]
    requires forall j | 0 <= j < i :: At(c, lo, c.queue[j]) <= Pos(lo, c.timers[t].scheduled)
    requires forall j | i <= j < |c.queue| :: At(c, lo, c.queue[j]) > Pos(lo, c.timers[t].scheduled)
    ensures Sorted(e, lo)
  {
    hide Pos, At;
    var r := e.queue;
    Inserted(c.queue, i, t);
    forall j, k | 0 <= j < k < |r|
      ensures At(e, lo, r[j]) <= At(e, lo, r[k])
    {
      var u, v := r[j], r[k];
      AtIs(c, lo, u);
      AtIs(c, lo, v);
      AtIs(e, lo, u);
      AtIs(e, lo, v);
    }
  }

  lemma {:induction false} DeleteIs(q: seq<Id>, t: Id)
    requires Once(q)
    ensures Once(Delete(q, t)) && forall u :: u in Delete(q, t) <==> u in q && u != t
    decreases |q|
  {
    if q != [] {
      var x, rest := q[0], q[1..];
      assert x !in rest;
      DeleteIs(rest, t);
      assert forall u :: u in q <==> u == x || u in rest;
    }
  }

  /** What is left stands in the order it stood. */
  lemma {:induction false} DeleteOrder(q: seq<Id>, t: Id, i: nat, j: nat) returns (k: nat, l: nat)
    requires i < j < |Delete(q, t)|
    ensures k < l < |q| && Delete(q, t)[i] == q[k] && Delete(q, t)[j] == q[l]
    decreases |q|
  {
    if q[0] == t {
      k, l := i + 1, j + 1;
    } else if i == 0 {
      k := 0;
      l := DeleteOne(q[1..], t, j - 1);
      l := l + 1;
    } else {
      k, l := DeleteOrder(q[1..], t, i - 1, j - 1);
      k, l := k + 1, l + 1;
    }
  }

  lemma {:induction false} DeleteOne(q: seq<Id>, t: Id, j: nat) returns (l: nat)
    requires j < |Delete(q, t)|
    ensures l < |q| && Delete(q, t)[j] == q[l]
    decreases |q|
  {
    if q[0] == t {
      l := j + 1;
    } else if j == 0 {
      l := 0;
    } else {
      l := DeleteOne(q[1..], t, j - 1);
      l := l + 1;
    }
  }

  lemma CancelKeeps(c: Clock, lo: u32, t: Id)
    requires TInv(c, lo) && t in c.timers
    ensures TInv(Cancel(c, t), lo) && t !in Cancel(c, t).queue
  {
    hide Pos, Delete;
    DeleteIs(c.queue, t);
    var e := Cancel(c, t);
    forall i, j | 0 <= i < j < |e.queue|
      ensures At(e, lo, e.queue[i]) <= At(e, lo, e.queue[j])
    {
      var k, l := DeleteOrder(c.queue, t, i, j);
    }
  }

  // ---- what callbacks do ----

  /** A call made inside a callback; `at` is what current_time returned to it. */
  datatype Action =
    | SetOneshot(t: Id, at: u32, delay: u32, callback: nat)
    | SetPeriodic(t: Id, at: u32, period: u32, callback: nat)
    | CancelTimer(t: Id)

  /** Delays and periods of zero are made one. */
  function Delay(a: Action): u32
    requires !a.CancelTimer?
  {
    var d := if a.SetOneshot? then a.delay else a.period;
    if d == 0 then 1 else d
  }

  predicate Known(c: Clock) { forall t | t in c.queue :: t in c.timers }

  /** One call; setting a timer that is queued, where the code panics, is left out. */
  function Act(c: Clock, a: Action): Clock
    requires Known(c)
  {
    if a.t !in c.timers then c
    else match a
      case SetOneshot(t, at, _, callback) => if t in c.queue then c else Set(c, t, at, Delay(a), 0, callback)
      case SetPeriodic(t, at, _, callback) => if t in c.queue then c else Set(c, t, at, Delay(a), Delay(a), callback)
      case CancelTimer(t) => Cancel(c, t)
  }

  /** The calls of one callback, at or after `now`, all within the window. */
  predicate Timely(a: Action, lo: u32, now: u32) {
    a.CancelTimer? || (Pos(lo, now) <= Pos(lo, a.at) && Pos(lo, a.at) + Delay(a) < HALF)
  }

  /** Periodic timers have a callback and a period that stays in the window. */
  predicate Periods(c: Clock, lo: u32, now: u32) {
    forall t | t in c.timers && c.timers[t].period > 0 ::
      c.timers[t].callback.Some? && Pos(lo, now) + c.timers[t].period < HALF
  }

  /** The first `k` timers in the queue are due at `now`, the others are not. */
  predicate DueUpTo(c: Clock, lo: u32, now: u32, k: nat)
    requires Listed(c, lo)
  {
    k <= |c.queue| && forall j | 0 <= j < |c.queue| :: At(c, lo, c.queue[j]) <= Pos(lo, now) <==> j < k
  }

  /** The list without the ids in `gone`. */
  function Without(q: seq<Id>, gone: set<Id>): seq<Id> {
    if q == [] then [] else (if q[0] in gone then [] else [q[0]]) + Without(q[1..], gone)
  }

  lemma {:induction false} WithoutIs(q: seq<Id>, gone: set<Id>)
    ensures forall u :: u in Without(q, gone) <==> u in q && u !in gone
  {
    if q != [] {
      WithoutIs(q[1..], gone);
      assert forall u :: u in q <==> u == q[0] || u in q[1..];
    }
  }

  lemma {:induction false} WithoutMore(q: seq<Id>, gone: set<Id>, t: Id)
    requires Once(q)
    ensures Without(q, gone + {t}) == Delete(Without(q, gone), t)
    decreases |q|
  {
    if q != [] {
      var x, rest := q[0], q[1..];
      assert x !in rest;
      WithoutMore(rest, gone, t);
      WithoutIs(rest, gone);
      var w := Without(rest, gone);
      assert ([x] + w)[1..] == w && [] + w == w;
    }
  }

  lemma DeleteCons(x: Id, q: seq<Id>, t: Id)
    ensures Delete([x] + q, t) == if x == t then q else [x] + Delete(q, t)
  {
    assert ([x] + q)[1..] == q;
  }

  lemma ConsAssoc(x: Id, p: seq<Id>, q: seq<Id>)
    ensures [x] + (p + q) == [x] + p + q
  {
  }

  lemma ConsIn(x: Id, q: seq<Id>, t: Id)
    ensures t in [x] + q <==> t == x || t in q
  {
  }

  lemma {:induction false} DeleteSplit(a: seq<Id>, b: seq<Id>, t: Id)
    ensures Delete(a + b, t) == if t in a then Delete(a, t) + b else a + Delete(b, t)
    decreases |a|
  {
    hide Delete;
    if a == [] {
      assert a + b == b && a + Delete(b, t) == Delete(b, t);
    } else {
      var x, rest := a[0], a[1..];
      assert a == [x] + rest;
      ConsAssoc(x, rest, b);
      DeleteCons(x, rest, t);
      DeleteCons(x, rest + b, t);
      DeleteSplit(rest, b, t);
      ConsIn(x, rest, t);
      ConsAssoc(x, Delete(rest, t), b);
      ConsAssoc(x, rest, Delete(b, t));
    }
  }

  /** Setting a timer, after now, leaves the timers due where they are. */
  lemma SetSparesDue(c: Clock, lo: u32, now: u32, k: nat, t: Id, at: u32, delay: u32, period: u32, callback: nat)
    requires TInv(c, lo) && DueUpTo(c, lo, now, k) && t in c.timers && t !in c.queue
    requires Pos(lo, now) <= Pos(lo, at) && 0 < delay && Pos(lo, at) + delay < HALF
    ensures var e := Set(c, t, at, delay, period, callback);
            TInv(e, lo) && DueUpTo(e, lo, now, k) && k <= |c.queue| && e.queue[..k] == c.queue[..k]
  {
    hide Once, Sorted, Pos, TimeGt, Place, DueUpTo;
    PosAdd(lo, at, delay);
    DueBound(c, lo, now, k);
    var d := c.(timers := c.timers[t := Timer(U32(at + delay), period, Some(callback))]);
    SameQueue(c, d, lo, t);
    InsertKeeps(d, lo, t);
    LaterInserted(c, d, Insert(d, t), lo, now, k, Place(d, d.timers[t].scheduled), t);
  }

  lemma LaterInserted(c: Clock, d: Clock, e: Clock, lo: u32, now: u32, k: nat, i: nat, t: Id)
    requires Listed(c, lo) && DueUpTo(c, lo, now, k) && Listed(d, lo) && Listed(e, lo) && t in d.timers && t !in c.queue
    requires d.queue == c.queue && e.timers == d.timers && forall u | u in c.queue :: d.timers[u] == c.timers[u]
    requires i <= |c.queue| && e.queue == c.queue[..i] + [t] + c.queue[i..] && At(d, lo, t) > Pos(lo, now)
    requires forall j | i <= j < |c.queue| :: At(d, lo, c.queue[j]) > At(d, lo, t)
    ensures DueUpTo(e, lo, now, k) && e.queue[..k] == c.queue[..k]
  {
    hide Pos;
    assert i < |c.queue| ==> At(d, lo, c.queue[i]) == At(c, lo, c.queue[i]);
    assert k <= i;
    forall j | 0 <= j < |e.queue|
      ensures At(e, lo, e.queue[j]) <= Pos(lo, now) <==> j < k
    {
      assert e.queue[j] == if j < i then c.queue[j] else if j == i then t else c.queue[j - 1];
    }
  }

  lemma SameQueue(c: Clock, d: Clock, lo: u32, t: Id)
    requires TInv(c, lo) && t !in c.queue && d.queue == c.queue && d.timers.Keys == c.timers.Keys
    requires forall u | u in c.timers && u != t :: d.timers[u] == c.timers[u]
    ensures TInv(d, lo)
  {
    hide Pos, Once;
  }

  /** Cancelling takes one timer out and leaves the others due where they are. */
  lemma CancelSparesDue(c: Clock, lo: u32, now: u32, k: nat, t: Id) returns (l: nat)
    requires TInv(c, lo) && DueUpTo(c, lo, now, k) && t in c.timers
    ensures var e := Cancel(c, t);
            TInv(e, lo) && DueUpTo(e, lo, now, l) && e.queue[..l] == Delete(c.queue[..k], t)
  {
    hide Pos, Once, Sorted, Delete, DueUpTo;
    CancelKeeps(c, lo, t);
    assert k <= |c.queue| by { DueBound(c, lo, now, k); }
    var a, b := c.queue[..k], c.queue[k..];
    assert c.queue == a + b;
    DeleteSplit(a, b, t);
    OnceParts(c.queue, k);
    DeleteIs(a, t);
    DeleteIs(b, t);
    OnceApart(c.queue, k, t);
    if t in a {
      DeleteAbsent(b, t);
    } else {
      DeleteAbsent(a, t);
    }
    l := |Delete(a, t)|;
    DueParts(c, Cancel(c, t), lo, now, k, Delete(a, t), Delete(b, t));
  }

  lemma DueBound(c: Clock, lo: u32, now: u32, k: nat)
    requires Listed(c, lo) && DueUpTo(c, lo, now, k)
    ensures k <= |c.queue|
  {
  }

  /** Fewer timers due in front, fewer not due behind. */
  lemma DueParts(c: Clock, e: Clock, lo: u32, now: u32, k: nat, a: seq<Id>, b: seq<Id>)
    requires Listed(c, lo) && DueUpTo(c, lo, now, k) && Listed(e, lo) && e.queue == a + b
    requires (forall u | u in a :: u in c.queue[..k]) && (forall u | u in b :: u in c.queue[k..])
    requires forall u | u in c.queue && u in e.queue :: e.timers[u].scheduled == c.timers[u].scheduled
    ensures DueUpTo(e, lo, now, |a|)
  {
    hide Pos;
    forall j | 0 <= j < |e.queue|
      ensures At(e, lo, e.queue[j]) <= Pos(lo, now) <==> j < |a|
    {
      var u := e.queue[j];
      if j < |a| {
        assert u == a[j];
        var x := c.queue[..k];
        assert u in x;
        var m :| 0 <= m < |x| && x[m] == u;
        assert c.queue[m] == u;
      } else {
        assert u == b[j - |a|];
        var x := c.queue[k..];
        assert u in x;
        var m :| 0 <= m < |x| && x[m] == u;
        assert c.queue[k + m] == u;
      }
    }
  }

  lemma DeleteAbsent(q: seq<Id>, t: Id)
    requires t !in q
    ensures Delete(q, t) == q
  {
  }

  lemma OnceParts(q: seq<Id>, k: nat)
    requires Once(q) && k <= |q|
    ensures Once(q[..k]) && Once(q[k..])
  {
  }

  lemma OnceApart(q: seq<Id>, k: nat, t: Id)
    requires Once(q) && k <= |q|
    ensures !(t in q[..k] && t in q[k..])
  {
  }

  /** Ids cancelled by the calls. */
  function Cancelled(acts: seq<Action>): set<Id> {
    if acts == [] then {} else (if acts[0].CancelTimer? then {acts[0].t} else {}) + Cancelled(acts[1..])
  }

  /** One call of a callback: of the timers due it can only take some out. */
  lemma ActSparesDue(c: Clock, lo: u32, now: u32, k: nat, a: Action, due: seq<Id>, gone: set<Id>) returns (l: nat)
    requires TInv(c, lo) && DueUpTo(c, lo, now, k) && Timely(a, lo, now) && Periods(c, lo, now) && Once(due)
    requires a.SetPeriodic? ==> Pos(lo, now) + Delay(a) < HALF
    requires c.queue[..k] == Without(due, gone) && a.t in c.timers
    ensures var e := Act(c, a);
            TInv(e, lo) && DueUpTo(e, lo, now, l) && Periods(e, lo, now) && e.timers.Keys == c.timers.Keys
            && e.queue[..l] == Without(due, gone + Cancelled([a]))
  {
    hide Once, Sorted, Pos, Without;
    match a
    case SetOneshot(t, at, _, callback) =>
      if t !in c.queue {
        SetSparesDue(c, lo, now, k, t, at, Delay(a), 0, callback);
      }
      l := k;
      assert gone + Cancelled([a]) == gone;
    case SetPeriodic(t, at, _, callback) =>
      if t !in c.queue {
        SetSparesDue(c, lo, now, k, t, at, Delay(a), Delay(a), callback);
      }
      l := k;
      assert gone + Cancelled([a]) == gone;
    case CancelTimer(t) =>
      l := CancelSparesDue(c, lo, now, k, t);
      WithoutMore(due, gone, t);
      assert Cancelled([a]) == {t} by { assert [a][1..] == []; }
  }

  /** The calls a callback makes are on initialized timers and in the window. */
  predicate Proper(ids: set<Id>, lo: u32, now: u32, acts: seq<Action>) {
    forall a | a in acts :: a.t in ids && Timely(a, lo, now) && (a.SetPeriodic? ==> Pos(lo, now) + Delay(a) < HALF)
  }

  function ActAll(c: Clock, acts: seq<Action>): Clock
    requires Known(c)
    decreases |acts|
  {
    if acts == [] then c else if Known(Act(c, acts[0])) then ActAll(Act(c, acts[0]), acts[1..]) else c
  }

  lemma {:induction false} CallbackSparesDue(c: Clock, lo: u32, now: u32, k: nat, acts: seq<Action>, due: seq<Id>,
                                             gone: set<Id>)
    returns (l: nat)
    requires TInv(c, lo) && DueUpTo(c, lo, now, k) && Periods(c, lo, now) && Proper(c.timers.Keys, lo, now, acts)
    requires Once(due)
    requires c.queue[..k] == Without(due, gone)
    ensures var e := ActAll(c, acts);
            TInv(e, lo) && DueUpTo(e, lo, now, l) && Periods(e, lo, now) && e.timers.Keys == c.timers.Keys
            && e.queue[..l] == Without(due, gone + Cancelled(acts))
    decreases |acts|
  {
    hide Once, Sorted, Pos, Without, DueUpTo, Act, Periods, Timely;
    if acts == [] {
      l := k;
      assert gone + Cancelled([]) == gone;
    } else {
      var a := acts[0];
      l := ActSparesDue(c, lo, now, k, a, due, gone);
      l := CallbackSparesDue(Act(c, a), lo, now, l, acts[1..], due, gone + Cancelled([a]));
      assert gone + Cancelled([a]) + Cancelled(acts[1..]) == gone + Cancelled(acts) by {
        assert [a][1..] == [];
      }
    }
  }

  // ---- timer_tick ----

  /** A periodic timer that its callback has neither cancelled nor queued goes back in. */
  function Rearm(c: Clock, t: Id, periodic: bool, now: u32): Clock
    requires Known(c) && t in c.timers
  {
    if periodic && t !in c.queue && c.timers[t].period > 0
    then Insert(c.(timers := c.timers[t := c.timers[t].(scheduled := U32(now + c.timers[t].period))]), t)
    else c
  }

  lemma RearmSparesDue(c: Clock, lo: u32, now: u32, k: nat, t: Id, periodic: bool)
    requires TInv(c, lo) && DueUpTo(c, lo, now, k) && Periods(c, lo, now) && t in c.timers
    ensures var e := Rearm(c, t, periodic, now);
            TInv(e, lo) && DueUpTo(e, lo, now, k) && Periods(e, lo, now) && e.timers.Keys == c.timers.Keys
            && k <= |c.queue| && k <= |e.queue| && e.queue[..k] == c.queue[..k]
  {
    hide TInv, Periods, DueUpTo, Pos, U32;
    KnownIn(c, lo);
    if periodic && t !in c.queue && c.timers[t].period > 0 {
      var th := c.timers[t];
      PeriodOf(c, lo, now, t);
      SetSparesDue(c, lo, now, k, t, now, th.period, th.period, th.callback.value);
      assert c.timers[t := Timer(U32(now + th.period), th.period, Some(th.callback.value))] ==
        c.timers[t := th.(scheduled := U32(now + th.period))];
      assert Rearm(c, t, periodic, now) == Set(c, t, now, th.period, th.period, th.callback.value);
      PeriodsKept(c, Rearm(c, t, periodic, now), lo, now);
    } else {
      DueWithin(c, lo, now, k);
    }
  }

  lemma KnownIn(c: Clock, lo: u32)
    requires TInv(c, lo)
    ensures Known(c) && Listed(c, lo)
  {
    hide Sorted, Once, Pos;
  }

  lemma DueWithin(c: Clock, lo: u32, now: u32, k: nat)
    requires TInv(c, lo) && DueUpTo(c, lo, now, k)
    ensures k <= |c.queue|
  {
    hide Pos;
  }

  lemma PeriodOf(c: Clock, lo: u32, now: u32, t: Id)
    requires Periods(c, lo, now) && t in c.timers && c.timers[t].period > 0
    ensures c.timers[t].callback.Some? && Pos(lo, now) + c.timers[t].period < HALF
  {
    hide Pos;
  }

  lemma PeriodsKept(c: Clock, e: Clock, lo: u32, now: u32)
    requires Periods(c, lo, now) && e.timers.Keys == c.timers.Keys
    requires forall t | t in c.timers ::
               e.timers[t].period == c.timers[t].period && e.timers[t].callback == c.timers[t].callback
    ensures Periods(e, lo, now)
  {
    hide Pos;
  }

  /** The callbacks of one tick: the calls made by the first, the second, and so on. */
  type Script = nat -> seq<Action>

  /** The timers a tick is to fire, told from the timers due when it starts: in queue order,
      without those cancelled by a callback before their turn. */
  function ToFire(due: seq<Id>, gone: set<Id>, script: Script, n: nat): seq<Id> {
    if due == [] then []
    else if due[0] in gone then ToFire(due[1..], gone, script, n)
    else [due[0]] + ToFire(due[1..], gone + {due[0]} + Cancelled(script(n)), script, n + 1)
  }

  /** What is left to fire depends only on those still due. */
  lemma {:induction false} ToFireNext(due: seq<Id>, gone: set<Id>, script: Script, n: nat)
    requires Once(due)
    ensures Without(due, gone) == [] ==> ToFire(due, gone, script, n) == []
    ensures Without(due, gone) != [] ==>
              var t := Without(due, gone)[0];
              ToFire(due, gone, script, n) == [t] + ToFire(due, gone + {t} + Cancelled(script(n)), script, n + 1)
    decreases |due|
  {
    hide Once;
    if due != [] {
      OnceParts(due, 1);
      if due[0] in gone {
        assert [] + Without(due[1..], gone) == Without(due[1..], gone);
        ToFireNext(due[1..], gone, script, n);
        if Without(due, gone) != [] {
          var t := Without(due, gone)[0];
          SkipGone(due, gone + {t} + Cancelled(script(n)), script, n + 1);
        }
      } else {
        SkipGone(due, gone + {due[0]} + Cancelled(script(n)), script, n + 1);
      }
    }
  }

  lemma SkipGone(due: seq<Id>, gone: set<Id>, script: Script, n: nat)
    requires due != [] && due[0] in gone
    ensures ToFire(due, gone, script, n) == ToFire(due[1..], gone, script, n)
  {
  }

  /** The firings from `n` up to `m` do not cancel `t`. */
  predicate Quiet(script: Script, n: nat, m: nat, t: Id) {
    forall i | n <= i < m :: t !in Cancelled(script(i))
  }

  /** Timer `due[k]` fires unless the callback of a timer that fires before it cancels it;
      `before` are the firings before its turn. */
  lemma {:induction false} ToFireAll(due: seq<Id>, gone: set<Id>, script: Script, n: nat, k: nat)
    requires Once(due) && k < |due| && due[k] !in gone
    ensures var before, all := ToFire(due[..k], gone, script, n), ToFire(due, gone, script, n);
            && before <= all
            && (due[k] in all <==> Quiet(script, n, n + |before|, due[k]))
    decreases |due|
  {
    OnceParts(due, 1);
    if k > 0 {
      var x, rest, t := due[0], due[1..], due[k];
      assert due[..k][1..] == rest[..k - 1] && rest[k - 1] == t && due[..k][0] == x;
      if x in gone {
        ToFireAll(rest, gone, script, n, k - 1);
      } else {
        var g := gone + {x} + Cancelled(script(n));
        var b, a := ToFire(rest[..k - 1], g, script, n + 1), ToFire(rest, g, script, n + 1);
        if t in g {
          ToFireOnly(rest, g, script, n + 1);
          ToFirePrefix(rest, g, script, n + 1, k - 1);
        } else {
          ToFireAll(rest, g, script, n + 1, k - 1);
        }
      }
    }
  }

  lemma {:induction false} ToFirePrefix(due: seq<Id>, gone: set<Id>, script: Script, n: nat, k: nat)
    requires k <= |due|
    ensures ToFire(due[..k], gone, script, n) <= ToFire(due, gone, script, n)
    decreases |due|
  {
    if k > 0 {
      assert due[..k][1..] == due[1..][..k - 1];
      if due[0] in gone {
        ToFirePrefix(due[1..], gone, script, n, k - 1);
      } else {
        ToFirePrefix(due[1..], gone + {due[0]} + Cancelled(script(n)), script, n + 1, k - 1);
      }
    }
  }

  /** No timer fires after the callback of an earlier firing has cancelled it. */
  lemma {:induction false} NeverAfterCancel(due: seq<Id>, gone: set<Id>, script: Script, n: nat, j: nat, i: nat)
    requires Once(due) && j < i < |ToFire(due, gone, script, n)|
    ensures ToFire(due, gone, script, n)[i] !in Cancelled(script(n + j))
    decreases |due|
  {
    OnceParts(due, 1);
    var rest := due[1..];
    if due[0] in gone {
      NeverAfterCancel(rest, gone, script, n, j, i);
    } else {
      var g := gone + {due[0]} + Cancelled(script(n));
      var a := ToFire(rest, g, script, n + 1);
      assert ToFire(due, gone, script, n)[i] == a[i - 1];
      ToFireOnly(rest, g, script, n + 1);
      if j > 0 {
        NeverAfterCancel(rest, g, script, n + 1, j - 1, i - 1);
        assert n + 1 + (j - 1) == n + j;
      }
    }
  }

  /** Timers fire in the order in which they stood in the queue. */
  lemma {:induction false} ToFireOrder(due: seq<Id>, gone: set<Id>, script: Script, n: nat, i: nat, j: nat)
    returns (a: nat, b: nat)
    requires i < j < |ToFire(due, gone, script, n)|
    ensures a < b < |due| && due[a] == ToFire(due, gone, script, n)[i] && due[b] == ToFire(due, gone, script, n)[j]
    decreases |due|
  {
    var rest := due[1..];
    if due[0] in gone {
      a, b := ToFireOrder(rest, gone, script, n, i, j);
      a, b := a + 1, b + 1;
    } else {
      var g := gone + {due[0]} + Cancelled(script(n));
      if i > 0 {
        a, b := ToFireOrder(rest, g, script, n + 1, i - 1, j - 1);
        a, b := a + 1, b + 1;
      } else {
        a := 0;
        b := ToFirePlace(rest, g, script, n + 1, j - 1);
        b := b + 1;
      }
    }
  }

  lemma {:induction false} ToFirePlace(due: seq<Id>, gone: set<Id>, script: Script, n: nat, j: nat) returns (b: nat)
    requires j < |ToFire(due, gone, script, n)|
    ensures b < |due| && due[b] == ToFire(due, gone, script, n)[j]
    decreases |due|
  {
    if due[0] in gone {
      b := ToFirePlace(due[1..], gone, script, n, j);
      b := b + 1;
    } else if j == 0 {
      b := 0;
    } else {
      b := ToFirePlace(due[1..], gone + {due[0]} + Cancelled(script(n)), script, n + 1, j - 1);
      b := b + 1;
    }
  }

  lemma {:induction false} ToFireOnly(due: seq<Id>, gone: set<Id>, script: Script, n: nat)
    requires Once(due)
    ensures forall t | t in ToFire(due, gone, script, n) :: t in due && t !in gone
    ensures Once(ToFire(due, gone, script, n))
    decreases |due|
  {
    if due != [] {
      OnceParts(due, 1);
      var x, rest := due[0], due[1..];
      assert x !in rest;
      if x in gone {
        ToFireOnly(rest, gone, script, n);
      } else {
        ToFireOnly(rest, gone + {x} + Cancelled(script(n)), script, n + 1);
      }
    }
  }

  /** The timers due at `now`. */
  function DueNow(c: Clock, lo: u32, now: u32): seq<Id>
    requires Known(c)
  {
    c.queue[..DueCount(c, lo, now)]
  }

  function DueCount(c: Clock, lo: u32, now: u32): (k: nat)
    requires Known(c)
    ensures k <= |c.queue|
    decreases |c.queue|
  {
    if c.queue == [] || At(c, lo, c.queue[0]) > Pos(lo, now) then 0
      else 1 + DueCount(c.(queue := c.queue[1..]), lo, now)
  }

  lemma {:induction false} DueIs(c: Clock, lo: u32, now: u32)
    requires TInv(c, lo)
    ensures DueUpTo(c, lo, now, DueCount(c, lo, now)) && Once(DueNow(c, lo, now))
    decreases |c.queue|
  {
    OnceParts(c.queue, DueCount(c, lo, now));
    hide Pos;
    if c.queue != [] {
      var r := c.(queue := c.queue[1..]);
      OnceParts(c.queue, 1);
      hide Once;
      RestInv(c, lo);
      DueIs(r, lo, now);
      assert forall j | 0 < j < |c.queue| ::
        c.queue[j] == r.queue[j - 1] && At(c, lo, c.queue[j]) == At(r, lo, r.queue[j - 1]);
      assert forall j | 0 <= j < |c.queue| :: At(c, lo, c.queue[0]) <= At(c, lo, c.queue[j]);
    }
  }

  lemma RestInv(c: Clock, lo: u32)
    requires TInv(c, lo) && c.queue != []
    ensures TInv(c.(queue := c.queue[1..]), lo)
  {
    hide Pos;
    OnceParts(c.queue, 1);
  }

  /** Firing the head leaves the others due. */
  lemma HeadFired(c: Clock, lo: u32, now: u32, k: nat)
    requires TInv(c, lo) && DueUpTo(c, lo, now, k) && k > 0 && Periods(c, lo, now)
    ensures var r := c.(queue := c.queue[1..]);
            TInv(r, lo) && DueUpTo(r, lo, now, k - 1) && Periods(r, lo, now) && r.queue[..k - 1] == c.queue[..k][1..]
  {
    RestInv(c, lo);
    hide Pos, Once, Sorted;
  }

  /** A timer interrupt's work up to the re-arming: the head leaves the queue, its callback runs. */
  function Fired(c: Clock, now: u32, acts: seq<Action>): Clock
    requires Known(c) && c.queue != [] && c.queue[0] in c.timers
  {
    var t := c.queue[0];
    var e := ActAll(c.(queue := c.queue[1..]), acts);
    if Known(e) && t in e.timers then Rearm(e, t, c.timers[t].period > 0, now) else e
  }

  /** The clock after the first `n` firings of a tick. */
  function Firings(c: Clock, now: u32, script: Script, n: nat): Clock {
    if n == 0 then c
    else
      var e := Firings(c, now, script, n - 1);
      if Known(e) && e.queue != [] && e.queue[0] in e.timers then Fired(e, now, script(n - 1)) else e
  }

  lemma FiredSparesDue(c: Clock, lo: u32, now: u32, k: nat, acts: seq<Action>, due: seq<Id>, gone: set<Id>)
    returns (l: nat)
    requires TInv(c, lo) && DueUpTo(c, lo, now, k) && k > 0 && Periods(c, lo, now) && Once(due)
    requires Proper(c.timers.Keys, lo, now, acts) && c.queue[..k] == Without(due, gone)
    ensures var e, t := Fired(c, now, acts), c.queue[0];
            TInv(e, lo) && DueUpTo(e, lo, now, l) && Periods(e, lo, now) && e.timers.Keys == c.timers.Keys
            && e.queue[..l] == Without(due, gone + {t} + Cancelled(acts))
            && Rearmed(e, ActAll(c.(queue := c.queue[1..]), acts), t, c.timers[t].period > 0, now)
  {
    hide Once, Sorted, Pos, Without, DueUpTo, Periods, Proper, ActAll;
    DueBound(c, lo, now, k);
    var t := c.queue[0];
    HeadFired(c, lo, now, k);
    WithoutMore(due, gone, t);
    assert Delete(c.queue[..k], t) == c.queue[..k][1..];
    var r := c.(queue := c.queue[1..]);
    l := CallbackSparesDue(r, lo, now, k - 1, acts, due, gone + {t});
    var e := ActAll(r, acts);
    RearmSparesDue(e, lo, now, l, t, c.timers[t].period > 0);
    assert l <= |e.queue| by { DueBound(e, lo, now, l); }
  }

  /** The rule of re-arming: exactly a periodic timer that is neither queued nor cancelled
      after its callback goes back in, one period from now; nothing else changes. */
  predicate Rearmed(e: Clock, d: Clock, t: Id, periodic: bool, now: u32) {
    if periodic && t !in d.queue && t in d.timers && d.timers[t].period > 0
    then t in e.queue && t in e.timers && e.timers ==
      d.timers[t := d.timers[t].(scheduled := U32(now + d.timers[t].period))]
    else e == d
  }

  class TimerQueue {
    var queue: seq<Id>
    var timers: map<Id, Timer>

    function C(): Clock
      reads this
    {
      Clock(queue, timers)
    }

    /** insert_timer_in_queue */
    method InsertTimerInQueue(t: Id)
      requires t in timers && Known(C())
      modifies this`queue
      ensures C() == Insert(old(C()), t)
    {
      var i := 0;
      while i < |queue| && !TimeGt(timers[queue[i]].scheduled, timers[t].scheduled)
        invariant i <= |queue| && queue == old(queue)
        invariant Place(C(), timers[t].scheduled) == i + Place(C().(queue := queue[i..]), timers[t].scheduled)
      {
        assert queue[i..][1..] == queue[i + 1..];
        i := i + 1;
      }
      queue := queue[..i] + [t] + queue[i..];
    }

    /** timer_set, on a timer not queued. */
    method TimerSet(t: Id, now: u32, delay: u32, period: u32, callback: nat)
      requires t in timers && t !in queue && Known(C())
      modifies this
      ensures C() == Set(old(C()), t, now, delay, period, callback)
    {
      timers := timers[t := Timer(U32(now + delay), period, Some(callback))];
      InsertTimerInQueue(t);
    }

    /** timer_cancel */
    method TimerCancel(t: Id)
      requires t in timers
      modifies this
      ensures C() == Cancel(old(C()), t)
    {
      if t in queue {
        queue := Delete(queue, t);
      }
      timers := timers[t := timers[t].(period := 0, callback := None)];
    }

    /** One call made by a callback: timer_set_oneshot, timer_set_periodic or timer_cancel. */
    method MakeCall(a: Action)
      requires a.t in timers && Known(C())
      modifies this
      ensures C() == Act(old(C()), a)
    {
      match a {
        case SetOneshot(t, at, delay, callback) =>
          if t !in queue {
            TimerSet(t, at, if delay == 0 then 1 else delay, 0, callback);
          }
        case SetPeriodic(t, at, period, callback) =>
          if t !in queue {
            TimerSet(t, at, if period == 0 then 1 else period, if period == 0 then 1 else period, callback);
          }
        case CancelTimer(t) =>
          TimerCancel(t);
      }
    }

    /** The calls of one callback. */
    method RunCallback(acts: seq<Action>, ghost lo: u32, ghost now: u32, ghost k: nat)
      requires TInv(C(), lo) && DueUpTo(C(), lo, now, k) && Periods(C(), lo, now) && Proper(timers.Keys, lo, now, acts)
      modifies this
      ensures Known(old(C())) && C() == ActAll(old(C()), acts)
    {
      hide Sorted, Once, Pos, Periods, DueUpTo, Without, Timely, Act, Delay;
      var i := 0;
      ghost var l: nat := k;
      while i < |acts|
        invariant i <= |acts| && TInv(C(), lo) && DueUpTo(C(), lo, now, l) && Periods(C(), lo, now)
        invariant ActAll(C(), acts[i..]) == ActAll(old(C()), acts) && timers.Keys == old(timers.Keys)
      {
        assert acts[i] in acts && acts[i..][1..] == acts[i + 1..];
        DueBound(C(), lo, now, l);
        KeptBy(C(), lo, now, l);
        l := ActSparesDue(C(), lo, now, l, acts[i], queue[..l], {});
        MakeCall(acts[i]);
        i := i + 1;
      }
    }

    lemma KeptBy(c: Clock, lo: u32, now: u32, l: nat)
      requires TInv(c, lo) && l <= |c.queue|
      ensures Without(c.queue[..l], {}) == c.queue[..l] && Once(c.queue[..l])
    {
      OnceParts(c.queue, l);
      WithoutNone(c.queue[..l]);
    }

    /** The re-arming after a callback. */
    method PutBack(t: Id, periodic: bool, now: u32)
      requires t in timers && Known(C())
      modifies this
      ensures C() == Rearm(old(C()), t, periodic, now)
    {
      if periodic && t !in queue && timers[t].period > 0 {
        timers := timers[t := timers[t].(scheduled := U32(now + timers[t].period))];
        InsertTimerInQueue(t);
      }
    }

    /** The body of the loop of timer_tick: the head leaves the queue, its callback runs, and
        it goes back in when it is to be re-armed. */
    method FireHead(now: u32, acts: seq<Action>, ghost lo: u32, ghost k: nat, ghost due: seq<Id>, ghost gone: set<Id>)
      returns (t: Id, ghost l: nat)
      requires TInv(C(), lo) && DueUpTo(C(), lo, now, k) && 0 < k <= |queue| && Periods(C(), lo, now) && Once(due)
      requires Proper(timers.Keys, lo, now, acts) && queue[..k] == Without(due, gone)
      modifies this
      ensures old(|queue|) > 0 && t == old(queue[0]) && Known(old(C())) && t in old(timers)
      ensures C() == Fired(old(C()), now, acts)
      ensures TInv(C(), lo) && DueUpTo(C(), lo, now, l) && l <= |queue| && l < k && Periods(C(), lo, now)
      ensures timers.Keys == old(timers.Keys) && queue[..l] == Without(due, gone + {t} + Cancelled(acts))
    {
      hide TInv, Pos, Periods, DueUpTo, Without, ActAll, Proper, Act, Rearm, Rearmed;
      ghost var c := C();
      KnownIn(c, lo);
      t := queue[0];
      HeadFired(c, lo, now, k);
      WithoutShrinks(due, gone, t, Cancelled(acts));
      l := FiredSparesDue(c, lo, now, k, acts, due, gone);
      FiredKnown(c, now, acts, lo, k);
      var periodic := timers[t].period > 0;
      queue := queue[1..];
      RunCallback(acts, lo, now, k - 1);
      PutBack(t, periodic, now);
      KnownIn(C(), lo);
      DueBound(C(), lo, now, l);
    }

    /** timer_tick: fires what is due and not cancelled before its turn, in queue order, and
        stops with every timer left strictly after now. */
    method TimerTick(now: u32, script: Script, ghost lo: u32) returns (fired: seq<Id>)
      requires TInv(C(), lo) && Pos(lo, now) < HALF && Periods(C(), lo, now)
      requires forall n: nat :: Proper(timers.Keys, lo, now, script(n))
      modifies this
      ensures TInv(C(), lo) && Periods(C(), lo, now)
      ensures Known(old(C())) && fired == ToFire(DueNow(old(C()), lo, now), {}, script, 0)
      ensures C() == Firings(old(C()), now, script, |fired|)
      ensures forall i, j | 0 <= j < i < |fired| :: fired[i] !in Cancelled(script(j))
      ensures forall t | t in queue :: TimeGt(timers[t].scheduled, now)
    {
      hide TInv, Pos, Periods, DueUpTo, Without, ActAll, Proper, ToFire, TimeLt, TimeGt, Fired, DueCount, Cancelled,
        Once, Sorted, Firings;
      KnownIn(C(), lo);
      assert Firings(C(), now, script, 0) == C() by { NoFirings(C(), now, script); }
      ghost var due := DueNow(C(), lo, now);
      DueIs(C(), lo, now);
      ghost var k: nat, gone: set<Id> := |due|, {};
      WithoutNone(due);
      fired := [];
      HeadDue(C(), lo, now, k);
      while |queue| > 0 && !TimeLt(now, timers[queue[0]].scheduled)
        invariant TInv(C(), lo) && Listed(C(), lo) && DueUpTo(C(), lo, now, k) && k <= |queue| && Periods(C(), lo, now)
        invariant timers.Keys == old(timers.Keys) && queue[..k] == Without(due, gone) && Once(due)
        invariant fired + ToFire(due, gone, script, |fired|) == ToFire(due, {}, script, 0)
        invariant |queue| > 0 ==> queue[0] in timers && (TimeLt(now, timers[queue[0]].scheduled) <==> k == 0)
        invariant C() == Firings(old(C()), now, script, |fired|)
        decreases k
      {
        NextFiring(old(C()), now, script, |fired|);
        ToFireNext(due, gone, script, |fired|);
        var t;
        ghost var was := fired;
        t, k := FireHead(now, script(|fired|), lo, k, due, gone);
        gone := gone + {t} + Cancelled(script(|fired|));
        fired := fired + [t];
        assert was + ([t] + ToFire(due, gone, script, |fired|)) == fired + ToFire(due, gone, script, |fired|);
        KnownIn(C(), lo);
        HeadDue(C(), lo, now, k);
      }
      NoneDue(C(), lo, now, k);
      ToFireNext(due, gone, script, |fired|);
      assert k == 0;
      NoneAfterCancel(due, script);
    }

    lemma NoneAfterCancel(due: seq<Id>, script: Script)
      requires Once(due)
      ensures var all := ToFire(due, {}, script, 0); forall i, j | 0 <= j < i < |all| :: all[i] !in Cancelled(script(j))
    {
      var all := ToFire(due, {}, script, 0);
      forall i, j | 0 <= j < i < |all|
        ensures all[i] !in Cancelled(script(j))
      {
        NeverAfterCancel(due, {}, script, 0, j, i);
        assert 0 + j == j;
      }
    }

    lemma NoFirings(c: Clock, now: u32, script: Script)
      ensures Firings(c, now, script, 0) == c
    {
      hide Fired;
    }

    lemma NextFiring(c: Clock, now: u32, script: Script, n: nat)
      ensures var e := Firings(c, now, script, n);
              Known(e) && e.queue != [] && e.queue[0] in e.timers ==>
                Firings(c, now, script, n + 1) == Fired(e, now, script(n))
    {
      hide Fired, Known;
    }

    lemma FiredKnown(c: Clock, now: u32, acts: seq<Action>, lo: u32, k: nat)
      requires TInv(c, lo) && DueUpTo(c, lo, now, k) && k > 0 && Periods(c, lo, now)
      requires Proper(c.timers.Keys, lo, now, acts)
      ensures k <= |c.queue|
      ensures var d := ActAll(c.(queue := c.queue[1..]), acts); Known(d) && c.queue[0] in d.timers
    {
      hide Sorted, Pos, Periods, DueUpTo, ActAll, Proper;
      assert k <= |c.queue| by { DueBound(c, lo, now, k); }
      HeadFired(c, lo, now, k);
      var r := c.(queue := c.queue[1..]);
      KeptBy(r, lo, now, k - 1);
      hide Once, Without;
      var l := CallbackSparesDue(r, lo, now, k - 1, acts, r.queue[..k - 1], {});
    }

    lemma HeadDue(c: Clock, lo: u32, now: u32, k: nat)
      requires TInv(c, lo) && DueUpTo(c, lo, now, k) && Pos(lo, now) < HALF
      ensures |c.queue| > 0 ==> (TimeLt(now, c.timers[c.queue[0]].scheduled) <==> k == 0)
    {
      hide Sorted, Once;
      if |c.queue| > 0 {
        GtIsOrder(lo, now, c.timers[c.queue[0]].scheduled);
        hide Pos, TimeLt, TimeGt;
      }
    }

    lemma NoneDue(c: Clock, lo: u32, now: u32, k: nat)
      requires TInv(c, lo) && DueUpTo(c, lo, now, k) && Pos(lo, now) < HALF && k == 0
      ensures forall t | t in c.queue :: TimeGt(c.timers[t].scheduled, now)
    {
      hide Sorted, Once;
      forall t | t in c.queue
        ensures TimeGt(c.timers[t].scheduled, now)
      {
        var j :| 0 <= j < |c.queue| && c.queue[j] == t;
        GtIsOrder(lo, c.timers[t].scheduled, now);
        hide Pos, TimeGt;
      }
    }
  }

  lemma {:induction false} WithoutNone(q: seq<Id>)
    ensures Without(q, {}) == q
    decreases |q|
  {
    if q != [] {
      WithoutNone(q[1..]);
      assert q == [q[0]] + q[1..];
    }
  }

  lemma {:induction false} WithoutFewer(q: seq<Id>, gone: set<Id>, more: set<Id>)
    requires gone <= more
    ensures |Without(q, more)| <= |Without(q, gone)|
    ensures (exists t :: t in q && t in more && t !in gone) ==> |Without(q, more)| < |Without(q, gone)|
    decreases |q|
  {
    if q != [] {
      WithoutFewer(q[1..], gone, more);
    }
  }

  /** Each firing takes at least its own timer out of those due. */
  lemma WithoutShrinks(due: seq<Id>, gone: set<Id>, t: Id, more: set<Id>)
    requires Without(due, gone) != [] && t == Without(due, gone)[0]
    ensures |Without(due, gone + {t} + more)| < |Without(due, gone)|
  {
    WithoutIs(due, gone);
    assert t in Without(due, gone);
    WithoutFewer(due, gone, gone + {t} + more);
  }
}
