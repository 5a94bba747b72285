/** What each call does to the queues, the quanta and the choice of the next thread, said without
    the functions that compute it; and how long a thread keeps the processor it has got. */
module Switching {
  import opened Options
  import opened RunBitmap
  import opened Threads
  import opened Scheduling

  /** The queues with `t` ahead of queue `p`, and with `t` behind it. */
  function Ahead(run: seq<seq<Tid>>, p: nat, t: Tid): (r: seq<seq<Tid>>)
    requires p < |run|
    ensures |r| == |run|
  {
    run[p := [t] + run[p]]
  }

  function Behind(run: seq<seq<Tid>>, p: nat, t: Tid): (r: seq<seq<Tid>>)
    requires p < |run|
    ensures |r| == |run|
  {
    run[p := run[p] + [t]]
  }

  lemma Runner(s: State)
    requires Inv(s)
    ensures s.current in s.threads && s.threads[s.current].status.Running?
    ensures s.threads[s.current].priority < NUM_PRIORITIES == |s.run|
  {
    hide Distinct, Tracks, WaitPlaces;
  }

  lemma RawIs(s: State, t: Tid, head: bool)
    requires t in s.threads && s.threads[t].priority < NUM_PRIORITIES == |s.run|
    ensures var e := EnlistRaw(s, t, head);
            && e.run == (if head then Ahead(s.run, s.threads[t].priority, t)
                 else Behind(s.run, s.threads[t].priority, t))
            && e.threads == s.threads[t := s.threads[t].(status := Ready)] && e.current == s.current && RestSame(s, e)
  {
  }

  /** Once the current thread has left the processor another takes it. */
  lemma LeftTakes(x: State)
    requires Placed(x) && !x.threads[x.current].status.Running?
    ensures Takes(x.threads, x.run, x.current, Resched(x)) && RestSame(x, Resched(x))
  {
    ReschedPlaced(x);
    hide Placed, Takes, Resched;
    ReschedTakes(x);
  }

  // ---- giving way ----

  /** thread_yield: the caller is last in its queue, with no quantum left. */
  lemma YieldTakes(s: State)
    requires Inv(s)
    ensures s.current in s.threads && s.threads[s.current].priority < NUM_PRIORITIES == |s.run|
    ensures var c, th := s.current, s.threads[s.current];
            Takes(s.threads[c := th.(status := Ready, quantum := 0)], Behind(s.run, th.priority, c), c, Yield(s))
    ensures RestSame(s, Yield(s)) && Inv(Yield(s))
  {
    Runner(s);
    var x := YieldShape(s);
    hide Inv, Placed, Resched, Takes, Yield, Behind;
    LeftTakes(x);
  }

  /** The caller in its queue, before the next thread is chosen. */
  lemma YieldShape(s: State) returns (x: State)
    requires Inv(s)
    ensures s.current in s.threads && s.threads[s.current].priority < NUM_PRIORITIES == |s.run|
    ensures Placed(x) && x.current == s.current && !x.threads[s.current].status.Running? && RestSame(s, x)
    ensures var c, th := s.current, s.threads[s.current];
            x.threads == s.threads[c := th.(status := Ready, quantum := 0)] && x.run == Behind(s.run, th.priority, c)
    ensures Yield(s) == Resched(x) && Inv(Resched(x))
  {
    Runner(s);
    Spent(s);
    var z, c := SetQuantum(s, 0), s.current;
    hide Inv, Placed, Resched, EnlistRaw, SetQuantum;
    GiveWay(z, false);
    RawIs(z, c, false);
    x := EnlistRaw(z, c, false);
    WrittenTwice(s.threads, c, z.threads[c], z.threads[c].(status := Ready));
  }

  lemma WrittenTwice(m: map<Tid, Thread>, c: Tid, x: Thread, y: Thread)
    ensures m[c := x][c := y] == m[c := y]
  {
  }

  lemma Spent(s: State)
    requires Inv(s)
    ensures var z, c := SetQuantum(s, 0), s.current;
            && Inv(z) && c in s.threads && z.threads == s.threads[c := s.threads[c].(quantum := 0)]
            && z.run == s.run && z.current == c && RestSame(s, z)
  {
    Runner(s);
    QuantumPlaced(s, 0);
    hide Placed;
  }

  /** thread_preempt: ahead of its queue with quantum left, behind it without. */
  lemma PreemptTakes(s: State)
    requires Inv(s)
    ensures s.current in s.threads && s.threads[s.current].priority < NUM_PRIORITIES == |s.run|
    ensures var c, th := s.current, s.threads[s.current];
            var run := if th.quantum > 0 then Ahead(s.run, th.priority, c) else Behind(s.run, th.priority, c);
            Takes(s.threads[c := th.(status := Ready)], run, c, Preempt(s))
    ensures RestSame(s, Preempt(s)) && Inv(Preempt(s))
  {
    Runner(s);
    YieldInv(s);
    hide Inv, Placed, Resched, Takes, EnlistRaw;
    var head := s.threads[s.current].quantum > 0;
    GiveWay(s, head);
    RawIs(s, s.current, head);
    LeftTakes(EnlistRaw(s, s.current, head));
  }

  /** thread_timer_tick: one tick less, and a reschedule when none is left; for the idle thread
      neither. */
  lemma TickIs(s: State)
    requires Inv(s)
    ensures s.current in s.threads
    ensures var c, e, idle := s.current, Tick(s).0, s.idling && s.current == s.boot;
            && e == s.(threads := e.threads) && e.threads.Keys == s.threads.Keys
            && (forall t | t in s.threads && t != c :: e.threads[t] == s.threads[t])
            && e.threads[c] == s.threads[c].(quantum := s.threads[c].quantum - if idle then 0 else 1)
            && (Tick(s).1 <==> !idle && s.threads[c].quantum <= 1)
  {
    Runner(s);
    hide Inv;
  }

  // ---- leaving ----

  /** wait_queue_block: last in the wait queue, told NO_ERROR unless somebody says otherwise. */
  lemma BlockTakes(s: State, q: Qid, timed: bool)
    requires Inv(s) && q in s.waits && s.current != s.boot
    ensures s.current in s.threads
    ensures var c, th, e := s.current, s.threads[s.current], BlockOn(s, q, timed);
            && Takes(s.threads[c := th.(status := Blocked, waiting := Some(q), ret := NO_ERROR)], s.run, c, e) && Inv(e)
            && e.waits == s.waits[q := WaitQueue(s.waits[q].list + [c], s.waits[q].count + 1)]
            && e.timeouts == (if timed then s.timeouts + {c} else s.timeouts)
            && e.boot == s.boot && e.idling == s.idling && e.sleepers == s.sleepers
  {
    Runner(s);
    WaitingPlaced(s, q, timed);
    BlockInv(s, q, timed);
    hide Inv, Placed, Resched, Takes;
    LeftTakes(Waiting(s, q, timed));
  }

  /** thread_sleep */
  lemma SleepTakes(s: State)
    requires Inv(s) && s.current != s.boot
    ensures s.current in s.threads
    ensures var c, e := s.current, Sleep(s);
            && Takes(s.threads[c := s.threads[c].(status := Sleeping)], s.run, c, e) && Inv(e)
            && e.sleepers == s.sleepers + {c} && RestSame(s, e.(sleepers := s.sleepers))
  {
    Runner(s);
    BlockInv(s, 0, false);
    var c := s.current;
    var th := s.threads[c].(status := Sleeping);
    LeavingPlaced(s, th, s.sleepers + {c});
    hide Inv, Placed, Resched, Takes;
    LeftTakes(s.(threads := s.threads[c := th], sleepers := s.sleepers + {c}));
  }

  // ---- waking ----

  /** wait_queue_wake_one: the first waiter goes ahead of its queue, and with rescheduling the
      caller ahead of its own before that. */
  lemma WakeOneTakes(s: State, q: Qid, resched: bool, err: int)
    requires Inv(s) && q in s.waits && s.waits[q].list != []
    ensures var c, t := s.current, s.waits[q].list[0];
            && c in s.threads && t in s.threads && t != c
            && s.threads[c].priority < NUM_PRIORITIES == |s.run| && s.threads[t].priority < NUM_PRIORITIES
            && var e := WakeOne(s, q, resched, err).0;
               var threads := s.threads[t := s.threads[t].(status := Ready, waiting := None, ret := err)];
               && Inv(e) && WakeOne(s, q, resched, err).1 == 1
               && e.waits == s.waits[q := WaitQueue(s.waits[q].list[1..], s.waits[q].count - 1)]
               && RestSame(s, e.(waits := s.waits))
               && if resched then
                    Takes(threads[c := threads[c].(status := Ready)],
                          Ahead(Ahead(s.run, s.threads[c].priority, c), s.threads[t].priority, t), c, e)
                  else
                    e.threads == threads && e.run == Ahead(s.run, s.threads[t].priority, t) && e.current == c
  {
    Runner(s);
    WokenThread(s, q, s.waits[q].list[0]);
    WakeOneInv(s, q, resched, err);
    if resched {
      var y := WakeOneShape(s, q, err);
      hide Inv, Placed, Resched, Takes, WakeOne, Ahead;
      LeftTakes(y);
    } else {
      WakeOneStays(s, q, err);
    }
  }

  /** The two threads in their queues, before one of them is chosen. */
  lemma WakeOneShape(s: State, q: Qid, err: int) returns (y: State)
    requires Inv(s) && q in s.waits && s.waits[q].list != []
    ensures var c, t := s.current, s.waits[q].list[0];
            && c in s.threads && t in s.threads && t != c
            && s.threads[c].priority < NUM_PRIORITIES == |s.run| && s.threads[t].priority < NUM_PRIORITIES
            && var threads := s.threads[t := s.threads[t].(status := Ready, waiting := None, ret := err)];
               && y.threads == threads[c := threads[c].(status := Ready)] && y.current == c
               && y.run == Ahead(Ahead(s.run, s.threads[c].priority, c), s.threads[t].priority, t)
    ensures y.waits == s.waits[q := WaitQueue(s.waits[q].list[1..], s.waits[q].count - 1)]
    ensures Placed(y) && !y.threads[y.current].status.Running? && RestSame(s, y.(waits := s.waits))
    ensures WakeOne(s, q, true, err) == (Resched(y), 1)
  {
    Runner(s);
    var c, t := s.current, s.waits[q].list[0];
    WokenThread(s, q, t);
    WokenPlaced(s, q, err);
    var u := Unhooked(s, t, err);
    hide Inv, Placed, Resched, EnlistRaw;
    RawIs(u, c, true);
    var b := EnlistRaw(u, c, true);
    InsertedIs(b, t);
    y := Insert(b, t, true);
  }

  lemma WakeOneStays(s: State, q: Qid, err: int)
    requires Inv(s) && q in s.waits && s.waits[q].list != []
    ensures var t, e := s.waits[q].list[0], WakeOne(s, q, false, err).0;
            && t in s.threads && s.threads[t].priority < |s.run| && e.current == s.current
            && e.threads == s.threads[t := s.threads[t].(status := Ready, waiting := None, ret := err)]
            && e.run == Ahead(s.run, s.threads[t].priority, t) && RestSame(s, e.(waits := s.waits))
            && e.waits == s.waits[q := WaitQueue(s.waits[q].list[1..], s.waits[q].count - 1)]
            && WakeOne(s, q, false, err).1 == 1
  {
    Runner(s);
    var t := s.waits[q].list[0];
    WokenThread(s, q, t);
    hide Inv, Placed;
    InsertedIs(Unhooked(s, t, err), t);
  }

  lemma InsertedIs(s: State, t: Tid)
    requires t in s.threads && s.threads[t].priority < NUM_PRIORITIES == |s.run|
    ensures var e := Insert(s, t, true);
            && e.run == Ahead(s.run, s.threads[t].priority, t) && e.threads == s.threads && e.current == s.current
            && RestSame(s, e)
  {
  }

  /** The first thread of the highest queue in use gets the processor. */
  lemma HeadTakes(threads: map<Tid, Thread>, run: seq<seq<Tid>>, c: Tid, e: State, p: nat)
    requires Takes(threads, run, c, e) && p < NUM_PRIORITIES == |run| && run[p] != []
    requires forall k | p < k < NUM_PRIORITIES :: run[k] == []
    ensures e.current == run[p][0] && e.run == run[p := run[p][1..]] && HighestNonEmpty(run, HIGHEST_PRIORITY) == p
  {
    assert HighestNonEmpty(run, HIGHEST_PRIORITY) == p;
  }

  predicate Leads(run: seq<seq<Tid>>, p: nat, t: Tid) {
    p < |run| && run[p] != [] && run[p][0] == t
  }

  lemma TwoAhead(run: seq<seq<Tid>>, p: nat, c: Tid, r: nat, t: Tid)
    requires p < |run| && r < |run|
    ensures var z := Ahead(Ahead(run, p, c), r, t);
            && |z| == |run| && Leads(z, r, t) && (if p == r then z[p][1..] == [c] + run[p] else z[p] == [c] + run[p])
            && forall k | 0 <= k < |run| && k != p && k != r :: z[k] == run[k]
  {
  }

  /** With rescheduling, and nothing of higher priority about, the thread woken runs at once unless
      the caller has the higher priority; the other of the two is ahead of its queue. */
  lemma WokenRuns(s: State, q: Qid, err: int, c: Tid, t: Tid, e: State)
    requires Inv(s) && q in s.waits && s.waits[q].list != [] && c == s.current && t == s.waits[q].list[0]
    requires e == WakeOne(s, q, true, err).0
    ensures c in s.threads && t in s.threads
    ensures Quiet(s, if s.threads[c].priority < s.threads[t].priority then s.threads[t].priority
                     else s.threads[c].priority) ==>
              if s.threads[c].priority <= s.threads[t].priority
              then e.current == t && Leads(e.run, s.threads[c].priority, c)
              else e.current == c && Leads(e.run, s.threads[t].priority, t)
  {
    hide Inv, WakeOne, Takes, HighestNonEmpty, Ahead, Leads, Quiet;
    WakeOneTakes(s, q, true, err);
    var p, r := s.threads[c].priority, s.threads[t].priority;
    if Quiet(s, if p < r then r else p) {
      var threads := s.threads[t := s.threads[t].(status := Ready, waiting := None, ret := err)];
      TwoTake(threads[c := threads[c].(status := Ready)], s, p, c, r, t, e);
    }
  }

  lemma TwoTake(threads: map<Tid, Thread>, s: State, p: nat, c: Tid, r: nat, t: Tid, e: State)
    requires p < NUM_PRIORITIES == |s.run| && r < NUM_PRIORITIES && Quiet(s, if p < r then r else p)
    requires Takes(threads, Ahead(Ahead(s.run, p, c), r, t), c, e)
    ensures if p <= r then e.current == t && Leads(e.run, p, c) else e.current == c && Leads(e.run, r, t)
  {
    hide Takes, HighestNonEmpty;
    TwoAhead(s.run, p, c, r, t);
    HeadTakes(threads, Ahead(Ahead(s.run, p, c), r, t), c, e, if p < r then r else p);
    hide Ahead;
  }

  /** No queue above `p` is in use. */
  predicate Quiet(s: State, p: nat) {
    |s.run| == NUM_PRIORITIES && forall k | p < k < NUM_PRIORITIES :: s.run[k] == []
  }

  /** The queues once the threads of `list` have been put ahead of their own, one by one. */
  function AllAhead(run: seq<seq<Tid>>, threads: map<Tid, Thread>, list: seq<Tid>): seq<seq<Tid>>
    decreases |list|
  {
    if list == [] then run
    else if list[0] in threads && threads[list[0]].priority < |run|
    then AllAhead(Ahead(run, threads[list[0]].priority, list[0]), threads, list[1..])
    else AllAhead(run, threads, list[1..])
  }

  /** Those of priority `p`, the last first. */
  function Backwards(threads: map<Tid, Thread>, list: seq<Tid>, p: nat): seq<Tid> {
    if list == [] then []
    else Backwards(threads, list[1..], p) + if list[0] in threads && threads[list[0]].priority == p then [list[0]]
      else []
  }

  /** So each queue then starts with those woken into it, in the reverse of the order they waited in. */
  lemma {:induction false} AheadBackwards(run: seq<seq<Tid>>, threads: map<Tid, Thread>, list: seq<Tid>, p: nat)
    requires p < |run|
    ensures |AllAhead(run, threads, list)| == |run|
    ensures AllAhead(run, threads, list)[p] == Backwards(threads, list, p) + run[p]
    decreases |list|
  {
    if list != [] {
      var t := list[0];
      if t in threads && threads[t].priority < |run| {
        AheadBackwards(Ahead(run, threads[t].priority, t), threads, list[1..], p);
      } else {
        AheadBackwards(run, threads, list[1..], p);
      }
    }
  }

  lemma {:induction false} EachAhead(s: State, q: Qid, err: int, threads: map<Tid, Thread>)
    requires Placed(s) && q in s.waits && |s.run| == NUM_PRIORITIES
    requires forall t | t in s.waits[q].list ::
               t in threads && t in s.threads && threads[t].priority == s.threads[t].priority
    ensures WakeEach(s, q, err).run == AllAhead(s.run, threads, s.waits[q].list)
    ensures RestSame(s, WakeEach(s, q, err).(waits := s.waits))
    decreases |s.waits[q].list|
  {
    var l := s.waits[q].list;
    if l != [] {
      var t := l[0];
      WakeStep(s, q, t, err);
      hide Placed, Unhooked;
      UnhookedRun(s, t, err);
      InsertedIs(Unhooked(s, t, err), t);
      EachAhead(Insert(Unhooked(s, t, err), t, true), q, err, threads);
    }
  }

  lemma UnhookedRun(s: State, t: Tid, err: int)
    requires t in s.threads && s.threads[t].waiting.Some? && s.threads[t].waiting.value in s.waits
    ensures var e := Unhooked(s, t, err);
            && e.run == s.run && e.current == s.current && RestSame(s, e.(waits := s.waits))
            && t in e.threads && e.threads[t].priority == s.threads[t].priority
  {
  }

  /** wait_queue_wake_all: every waiter ahead of its queue, in turn, and with rescheduling the
      caller ahead of its own before that. */
  lemma WakeAllTakes(s: State, q: Qid, resched: bool, err: int) returns (threads: map<Tid, Thread>)
    requires Inv(s) && q in s.waits
    ensures s.current in s.threads && s.threads[s.current].priority < NUM_PRIORITIES == |s.run|
    ensures WokenAll(s, threads, s.waits[q].list, err, resched && s.waits[q].list != [])
    ensures var c, l, e := s.current, s.waits[q].list, WakeAll(s, q, resched, err).0;
            && Inv(e) && WakeAll(s, q, resched, err).1 == |l| && RestSame(s, e.(waits := s.waits))
            && if resched && l != []
               then Takes(threads, AllAhead(Ahead(s.run, s.threads[c].priority, c), s.threads, l), c, e)
               else e.threads == threads && e.run == AllAhead(s.run, s.threads, l) && e.current == c
  {
    Runner(s);
    WakeAllInv(s, q, resched, err);
    var a := WakeAllShape(s, q, resched, err);
    hide Placed, Resched, WakeEach, Takes, Inv, WakeAll, AllAhead, Ahead;
    var w := WakeEach(a, q, err);
    threads := w.threads;
    AllWokenIs(s, a, q, err, resched && s.waits[q].list != []);
    hide WokenAll;
    EachAhead(a, q, err, s.threads);
    if resched && s.waits[q].list != [] {
      StillReady(s, w, s.waits[q].list, err);
      LeftTakes(w);
    }
  }

  lemma StillReady(s: State, w: State, l: seq<Tid>, err: int)
    requires s.current in s.threads && WokenAll(s, w.threads, l, err, true) && w.current == s.current
    ensures w.current in w.threads && !w.threads[w.current].status.Running?
  {
  }

  lemma AllWokenIs(s: State, a: State, q: Qid, err: int, gave: bool)
    requires s.current in s.threads && Placed(a) && q in a.waits && a.current == s.current
    requires s.current !in a.waits[q].list
    requires forall t | t in a.waits[q].list :: t in s.threads
    requires a.threads == if gave then s.threads[s.current := s.threads[s.current].(status := Ready)] else s.threads
    ensures Placed(WakeEach(a, q, err)) && WakeEach(a, q, err).current == s.current
    ensures WokenAll(s, WakeEach(a, q, err).threads, a.waits[q].list, err, gave)
  {
    hide Placed, WakeEach;
    WakeEachDoes(a, q, err);
  }

  /** Before the waiters are woken. */
  lemma WakeAllShape(s: State, q: Qid, resched: bool, err: int) returns (a: State)
    requires Inv(s) && q in s.waits
    ensures Placed(a) && |s.run| == NUM_PRIORITIES == |a.run|
    ensures var c, l := s.current, s.waits[q].list;
            && c in s.threads && s.threads[c].priority < NUM_PRIORITIES && a.current == c && c !in l
            && (forall t | t in l :: t in s.threads) && RestSame(s, a)
            && (if resched && l != [] then
                  && a.threads == s.threads[c := s.threads[c].(status := Ready)]
                  && a.run == Ahead(s.run, s.threads[c].priority, c)
                else a.threads == s.threads && a.run == s.run)
            && WakeAll(s, q, resched, err) ==
               (if resched && l != [] then Resched(WakeEach(a, q, err)) else WakeEach(a, q, err), |l|)
  {
    Runner(s);
    EmptyCount(s, q);
    CurrentWaits(s, q);
    WaitersThere(s, q);
    YieldInv(s);
    GiveWay(s, true);
    PlacedOf(s);
    hide Placed, Resched, WakeEach, Inv, EnlistRaw;
    RawIs(s, s.current, true);
    a := if resched && s.waits[q].count > 0 then EnlistRaw(s, s.current, true) else s;
  }

  lemma PlacedOf(s: State)
    requires Inv(s)
    ensures Placed(s)
  {
  }

  lemma WaitersThere(s: State, q: Qid)
    requires Inv(s) && q in s.waits
    ensures forall t | t in s.waits[q].list :: t in s.threads
  {
    hide RunPlaces, ThreadsFine, Distinct;
  }

  /** The records once the threads `l` have been woken, and the caller put in its queue if `gave`. */
  ghost predicate WokenAll(s: State, threads: map<Tid, Thread>, l: seq<Tid>, err: int, gave: bool)
    requires s.current in s.threads
  {
    && threads.Keys == s.threads.Keys && s.current !in l
    && (forall t | t in l :: t in s.threads && threads[t] ==
         s.threads[t].(status := Ready, waiting := None, ret := err))
    && (forall t | t in s.threads && t !in l && t != s.current :: threads[t] == s.threads[t])
    && threads[s.current] == if gave then s.threads[s.current].(status := Ready) else s.threads[s.current]
  }

  /** thread_resume: the thread ahead of its queue, the caller yields. */
  lemma ResumeTakes(s: State, u: Tid)
    requires Inv(s) && u in s.threads && s.threads[u].status.Suspended?
    ensures var c, th := s.current, s.threads[u];
            && c in s.threads && c != u && th.priority < NUM_PRIORITIES == |s.run|
               && s.threads[c].priority < NUM_PRIORITIES
            && var e := Resume(s, u).0;
               && Takes(s.threads[u := th.(status := Ready)][c := s.threads[c].(status := Ready, quantum := 0)],
                        Behind(Ahead(s.run, th.priority, u), s.threads[c].priority, c), c, e)
               && Inv(e) && RestSame(s, e) && Resume(s, u).1 == NO_ERROR
  {
    Runner(s);
    ResumeInv(s, u);
    RawIsEnlist(s, u, true);
    EnlistPlaced(s, u, true);
    RawIs(s, u, true);
    var x := EnlistRaw(s, u, true);
    assert Inv(x);
    hide Inv, Placed, Takes, EnlistRaw, Enlist, Yield;
    YieldTakes(x);
  }

  /** The sleep is over, or the wait timed out: ahead of its queue, and no switch yet. */
  lemma SleepOverIs(s: State, t: Tid)
    requires Inv(s) && t in s.sleepers
    ensures t in s.threads && s.threads[t].priority < NUM_PRIORITIES == |s.run|
    ensures var e := SleepOver(s, t);
            && e.run == Ahead(s.run, s.threads[t].priority, t) && e.current == s.current
            && e.threads == s.threads[t := s.threads[t].(status := Ready)] && e.sleepers == s.sleepers - {t}
            && RestSame(s, e.(sleepers := s.sleepers))
  {
    QueuesThere(s);
    SleeperThere(s, t);
    hide Inv;
    InsertedIs(MarkReady(s.(sleepers := s.sleepers - {t}), t), t);
  }

  lemma TimeoutIs(s: State, t: Tid)
    requires Inv(s) && t in s.timeouts && t in s.threads
    ensures var e, th := TimeoutFires(s, t), s.threads[t];
            && e.current == s.current && e.timeouts == s.timeouts - {t} && e.sleepers == s.sleepers
            && if th.status.Blocked? then
                 && th.priority < NUM_PRIORITIES == |s.run| && e.run == Ahead(s.run, th.priority, t)
                 && e.threads == s.threads[t := th.(status := Ready, waiting := None, ret := ERR_TIMED_OUT)]
               else e.run == s.run && e.threads == s.threads && e.waits == s.waits
  {
    QueuesThere(s);
    if s.threads[t].status.Blocked? {
      UnhookedIs(s, t, ERR_TIMED_OUT);
      hide Inv, Placed;
      UnhookedRun(s, t, ERR_TIMED_OUT);
      InsertedIs(Unhooked(s, t, ERR_TIMED_OUT), t);
    }
    hide Inv, Placed;
  }

  /** thread_exit: dead, the waiters of the dpc event woken, another thread runs. */
  lemma ExitTakes(s: State, wake: Option<Qid>) returns (threads: map<Tid, Thread>)
    requires Inv(s) && s.current != s.boot && (wake.Some? ==> wake.value in s.waits)
    ensures s.current in s.threads && |s.run| == NUM_PRIORITIES
    ensures var c, e := s.current, Exit(s, wake);
            var l := if wake.Some? then s.waits[wake.value].list else [];
            && Inv(e) && RestSame(s, e.(waits := s.waits))
            && WokenAll(s.(threads := s.threads[c := s.threads[c].(status := Dead)]), threads, l, NO_ERROR, false)
            && Takes(threads, AllAhead(s.run, s.threads, l), c, e)
  {
    Runner(s);
    ExitInv(s, wake);
    var d := DeadPlaced(s);
    threads := d.threads;
    if wake.Some? {
      CurrentWaits(s, wake.value);
      WaitersThere(s, wake.value);
      hide Placed, Resched, WakeEach, Takes, Inv, AllAhead;
      AllWokenIs(d, d, wake.value, NO_ERROR, false);
      EachAhead(d, wake.value, NO_ERROR, s.threads);
      var w := WakeEach(d, wake.value, NO_ERROR);
      threads := w.threads;
      assert !w.threads[w.current].status.Running?;
      hide WokenAll;
      LeftTakes(w);
    } else {
      hide Placed, Resched, Takes, Inv;
      assert WokenAll(d, d.threads, [], NO_ERROR, false);
      LeftTakes(d);
    }
  }

  lemma DeadPlaced(s: State) returns (d: State)
    requires Inv(s) && s.current != s.boot
    ensures s.current in s.threads && d == Die(s) && Placed(d)
    ensures d == s.(threads := s.threads[s.current := s.threads[s.current].(status := Dead)])
  {
    Runner(s);
    d := Die(s);
    LeavingPlaced(s, s.threads[s.current].(status := Dead), s.sleepers);
    hide Placed;
    assert d == s.(threads := s.threads[s.current := s.threads[s.current].(status := Dead)], sleepers := s.sleepers);
  }

  /** thread_set_priority keeps a priority that is one and takes the nearest otherwise. */
  lemma PriorityIs(s: State, priority: int)
    requires Inv(s)
    ensures s.current in s.threads
    ensures var c, e := s.current, SetPriority(s, priority);
            && e == s.(threads := e.threads) && e.threads.Keys == s.threads.Keys
            && (forall t | t in s.threads && t != c :: e.threads[t] == s.threads[t])
            && e.threads[c] == s.threads[c].(priority := e.threads[c].priority)
            && (0 <= priority <= 31 ==> e.threads[c].priority == priority)
            && (priority < 0 ==> e.threads[c].priority == 0) && (priority > 31 ==> e.threads[c].priority == 31)
  {
    Runner(s);
    hide Inv;
  }

  /** thread_create and thread_become_idle. */
  lemma CreateIs(s: State, t: Tid, p: nat)
    ensures var e := Create(s, t, p);
            && e == s.(threads := e.threads) && e.threads.Keys == s.threads.Keys + {t}
            && (forall u | u in s.threads && u != t :: e.threads[u] == s.threads[u])
            && var th := e.threads[t]; th.status.Suspended? && th.priority == p && th.quantum == 0 && th.waiting.None?
  {
  }

  lemma IdleIs(s: State)
    requires Inv(s)
    ensures s.current in s.threads
    ensures var c, e := s.current, BecomeIdle(s);
            && e == s.(threads := e.threads, idling := true) && e.threads.Keys == s.threads.Keys
            && (forall t | t in s.threads && t != c :: e.threads[t] == s.threads[t])
            && e.threads[c] == s.threads[c].(priority := 0)
  {
    Runner(s);
    hide Inv;
    PriorityIs(s, IDLE_PRIORITY);
  }

  // ---- what every reschedule brings about ----

  /** Nothing of higher priority than the thread that runs is ready. */
  ghost predicate BestRuns(s: State) {
    s.current in s.threads && Quiet(s, s.threads[s.current].priority)
  }

  lemma TakesBest(threads: map<Tid, Thread>, run: seq<seq<Tid>>, c: Tid, e: State)
    requires Takes(threads, run, c, e)
    ensures BestRuns(e)
  {
  }

  /** With rescheduling a wake that wakes somebody lets the best thread run; without it the caller
      goes on. */
  lemma WakeOneBest(s: State, q: Qid, resched: bool, err: int)
    requires Inv(s) && q in s.waits && s.waits[q].list != []
    ensures if resched then BestRuns(WakeOne(s, q, resched, err).0)
              else WakeOne(s, q, resched, err).0.current == s.current
  {
    hide Takes, WakeOne, Inv, BestRuns, Ahead;
    WakeOneTakes(s, q, resched, err);
    var c, t, e := s.current, s.waits[q].list[0], WakeOne(s, q, resched, err).0;
    if resched {
      var woken := s.threads[t := s.threads[t].(status := Ready, waiting := None, ret := err)];
      TakesBest(woken[c := woken[c].(status := Ready)],
                Ahead(Ahead(s.run, s.threads[c].priority, c), s.threads[t].priority, t), c, e);
    }
  }

  lemma WakeAllBest(s: State, q: Qid, resched: bool, err: int)
    requires Inv(s) && q in s.waits && s.waits[q].list != []
    ensures if resched then BestRuns(WakeAll(s, q, resched, err).0)
              else WakeAll(s, q, resched, err).0.current == s.current
  {
    hide Takes, WakeAll, Inv, BestRuns, Ahead, AllAhead, WokenAll;
    var threads := WakeAllTakes(s, q, resched, err);
    var c, l := s.current, s.waits[q].list;
    if resched {
      TakesBest(threads, AllAhead(Ahead(s.run, s.threads[c].priority, c), s.threads, l), c,
        WakeAll(s, q, resched, err).0);
    }
  }

  lemma BlockBest(s: State, q: Qid, timed: bool)
    requires Inv(s) && q in s.waits && s.current != s.boot
    ensures BestRuns(BlockOn(s, q, timed)) && s.current in s.threads
    ensures var c, e := s.current, BlockOn(s, q, timed);
            && e.waits == s.waits[q := WaitQueue(s.waits[q].list + [c], s.waits[q].count + 1)]
            && e.timeouts == if timed then s.timeouts + {c} else s.timeouts
  {
    hide Takes, BlockOn, Inv, BestRuns;
    BlockTakes(s, q, timed);
    var c := s.current;
    TakesBest(s.threads[c := s.threads[c].(status := Blocked, waiting := Some(q), ret := NO_ERROR)], s.run, c,
              BlockOn(s, q, timed));
  }

  // ---- time slices ----

  /** Either nobody else has got the processor, or whoever has starts with five ticks if it had
      none left and with what it had otherwise, and nothing of higher priority is ready. */
  ghost predicate Handed(s: State, e: State) {
    e.current == s.current ||
    (&& e.current in s.threads && e.current in e.threads
     && e.threads[e.current].quantum == (if s.threads[e.current].quantum <= 0 then 5 else s.threads[e.current].quantum)
     && Quiet(e, e.threads[e.current].priority))
  }

  /** The others' quanta are as they were. */
  predicate QuantaKept(s: State, threads: map<Tid, Thread>) {
    && threads.Keys == s.threads.Keys
    && forall t | t in s.threads && t != s.current :: threads[t].quantum == s.threads[t].quantum
  }

  lemma TakesHanded(s: State, threads: map<Tid, Thread>, run: seq<seq<Tid>>, e: State)
    requires s.current in s.threads && Takes(threads, run, s.current, e) && QuantaKept(s, threads)
    ensures Handed(s, e)
  {
  }

  lemma OneWritten(s: State, c: Tid, x: Thread)
    requires s.current in s.threads && c == s.current
    ensures QuantaKept(s, s.threads[c := x])
  {
  }

  lemma TwoWritten(s: State, t: Tid, x: Thread, y: Thread)
    requires s.current in s.threads && t in s.threads && t != s.current && x.quantum == s.threads[t].quantum
    ensures QuantaKept(s, s.threads[t := x][s.current := y])
  {
  }

  lemma AllWritten(s: State, d: State, threads: map<Tid, Thread>, l: seq<Tid>, err: int, gave: bool)
    requires s.current in s.threads && d.current == s.current && QuantaKept(s, d.threads)
    requires d.current in d.threads && WokenAll(d, threads, l, err, gave)
    ensures QuantaKept(s, threads)
  {
  }

  lemma WakeOneHanded(s: State, q: Qid, resched: bool, err: int)
    requires Inv(s) && q in s.waits
    ensures Handed(s, WakeOne(s, q, resched, err).0)
  {
    hide Placed;
    if s.waits[q].list != [] {
      WakeOneTakes(s, q, resched, err);
      hide Inv, Takes, WakeOne, Ahead, QuantaKept;
      var c, t, e := s.current, s.waits[q].list[0], WakeOne(s, q, resched, err).0;
      if resched {
        hide Handed;
        var x := s.threads[t].(status := Ready, waiting := None, ret := err);
        var woken := s.threads[t := x];
        TwoWritten(s, t, x, woken[c].(status := Ready));
        TakesHanded(s, woken[c := woken[c].(status := Ready)],
                    Ahead(Ahead(s.run, s.threads[c].priority, c), s.threads[t].priority, t), e);
      }
    }
  }

  lemma WakeAllHanded(s: State, q: Qid, resched: bool, err: int)
    requires Inv(s) && q in s.waits
    ensures Handed(s, WakeAll(s, q, resched, err).0)
  {
    var threads := WakeAllTakes(s, q, resched, err);
    var c, l := s.current, s.waits[q].list;
    hide Inv, Takes, WakeAll, Ahead, AllAhead, WokenAll;
    if resched && l != [] {
      AllWritten(s, s, threads, l, err, true);
      hide Handed, QuantaKept;
      TakesHanded(s, threads, AllAhead(Ahead(s.run, s.threads[c].priority, c), s.threads, l),
                  WakeAll(s, q, resched, err).0);
    }
  }

  lemma YieldHanded(s: State)
    requires Inv(s)
    ensures s.current in s.threads && s.threads[s.current].priority < NUM_PRIORITIES == |s.run| && Handed(s, Yield(s))
  {
    YieldTakes(s);
    var c, x := s.current, s.threads[s.current].(status := Ready, quantum := 0);
    hide Inv, Takes, Yield, Handed, Behind, QuantaKept;
    OneWritten(s, c, x);
    TakesHanded(s, s.threads[c := x], Behind(s.run, s.threads[c].priority, c), Yield(s));
  }

  lemma PreemptHanded(s: State)
    requires Inv(s)
    ensures s.current in s.threads && s.threads[s.current].priority < NUM_PRIORITIES == |s.run| && Handed(s, Preempt(s))
  {
    PreemptTakes(s);
    var c, th := s.current, s.threads[s.current];
    hide Inv, Takes, Preempt, Handed, Ahead, Behind, QuantaKept;
    OneWritten(s, c, th.(status := Ready));
    TakesHanded(s, s.threads[c := th.(status := Ready)],
                if th.quantum > 0 then Ahead(s.run, th.priority, c) else Behind(s.run, th.priority, c), Preempt(s));
  }

  lemma LeaveHanded(s: State, q: Qid, timed: bool)
    requires Inv(s) && s.current != s.boot
    ensures s.current in s.threads && (q in s.waits ==> Handed(s, BlockOn(s, q, timed))) && Handed(s, Sleep(s))
  {
    SleepTakes(s);
    if q in s.waits {
      BlockTakes(s, q, timed);
    }
    hide Inv, Takes, BlockOn, Sleep, Handed, QuantaKept;
    var c, th := s.current, s.threads[s.current];
    OneWritten(s, c, th.(status := Sleeping));
    TakesHanded(s, s.threads[c := th.(status := Sleeping)], s.run, Sleep(s));
    if q in s.waits {
      var x := th.(status := Blocked, waiting := Some(q), ret := NO_ERROR);
      OneWritten(s, c, x);
      TakesHanded(s, s.threads[c := x], s.run, BlockOn(s, q, timed));
    }
  }

  lemma ExitHanded(s: State, wake: Option<Qid>)
    requires Inv(s) && s.current != s.boot && (wake.Some? ==> wake.value in s.waits)
    ensures Handed(s, Exit(s, wake))
  {
    var threads := ExitTakes(s, wake);
    var c, l := s.current, if wake.Some? then s.waits[wake.value].list else [];
    var d := s.(threads := s.threads[c := s.threads[c].(status := Dead)]);
    hide Inv, Takes, Exit, Handed, AllAhead, WokenAll;
    OneWritten(s, c, s.threads[c].(status := Dead));
    AllWritten(s, d, threads, l, NO_ERROR, false);
    hide QuantaKept;
    TakesHanded(s, threads, AllAhead(s.run, s.threads, l), Exit(s, wake));
  }

  lemma ResumeHanded(s: State, u: Tid)
    requires Inv(s) && u in s.threads && s.threads[u].status.Suspended?
    ensures Handed(s, Resume(s, u).0)
  {
    ResumeTakes(s, u);
    var c, x := s.current, s.threads[u].(status := Ready);
    hide Inv, Takes, Resume, Handed, Ahead, Behind, QuantaKept;
    TwoWritten(s, u, x, s.threads[c].(status := Ready, quantum := 0));
    TakesHanded(s, s.threads[u := x][c := s.threads[c].(status := Ready, quantum := 0)],
                Behind(Ahead(s.run, s.threads[u].priority, u), s.threads[c].priority, c), Resume(s, u).0);
  }

  /** Whatever step hands the processor over, it hands over a whole slice to a thread that had
      used up its own. */
  lemma StepHanded(s: State, x: Step)
    requires Inv(s) && Allowed(s, x)
    ensures Handed(s, Do(s, x))
  {
    hide Inv, Placed, Yield, Preempt, Tick, BlockOn, WakeOne, WakeAll, TimeoutFires, Sleep, SleepOver, Exit, Resume,
      Handed;
    match x
    case YieldStep => YieldHanded(s);
    case PreemptStep => PreemptHanded(s);
    case TickStep =>
      TickIs(s);
      StaysHanded(s, Tick(s).0);
    case BlockStep(q, timed) => LeaveHanded(s, q, timed);
    case WakeOneStep(q, resched, err) => WakeOneHanded(s, q, resched, err);
    case WakeAllStep(q, resched, err) => WakeAllHanded(s, q, resched, err);
    case TimeoutStep(t) =>
      TimeoutIs(s, t);
      StaysHanded(s, TimeoutFires(s, t));
    case SleepStep => LeaveHanded(s, 0, false);
    case SleepOverStep(t) =>
      SleepOverIs(s, t);
      StaysHanded(s, SleepOver(s, t));
    case ExitStep(wake) => ExitHanded(s, wake);
    case ResumeStep(t) => ResumeHanded(s, t);
    case _ =>
      CurrentHere(s);
      StaysHanded(s, Do(s, x));
  }

  lemma CurrentHere(s: State)
    requires Inv(s)
    ensures s.current in s.threads
  {
  }

  lemma StaysHanded(s: State, e: State)
    requires e.current == s.current
    ensures Handed(s, e)
  {
  }

  /** `c` runs with `q` ticks left, and nothing of higher priority is ready; it is not the idle thread,
      which has no slices. */
  ghost predicate Slice(s: State, c: Tid, q: int) {
    && Inv(s) && s.current == c && c in s.threads && s.threads[c].quantum == q
    && Quiet(s, s.threads[c].priority) && !(s.idling && c == s.boot)
  }

  lemma PreemptKeeps(s: State, c: Tid, q: int)
    requires Slice(s, c, q) && q > 0
    ensures s.current in s.threads && s.threads[s.current].priority < NUM_PRIORITIES == |s.run|
    ensures Slice(Preempt(s), c, q) && Preempt(s).run == s.run
    ensures c in Preempt(s).threads && Preempt(s).threads[c].priority == s.threads[c].priority
  {
    PreemptTakes(s);
    var th, e := s.threads[c], Preempt(s);
    hide Inv, Takes, Preempt, HighestNonEmpty;
    var run := Ahead(s.run, th.priority, c);
    HeadTakes(s.threads[c := th.(status := Ready)], run, c, e, th.priority);
    assert ([c] + s.run[th.priority])[1..] == s.run[th.priority];
    assert run[th.priority := s.run[th.priority]] == s.run;
    TakesRecord(s.threads[c := th.(status := Ready)], run, c, e);
  }

  lemma TakesRecord(threads: map<Tid, Thread>, run: seq<seq<Tid>>, c: Tid, e: State)
    requires Takes(threads, run, c, e)
    ensures e.current in threads && e.current in e.threads
    ensures e.threads[e.current].priority == threads[e.current].priority
    ensures e.current == c ==> e.threads[c].quantum == threads[c].quantum
  {
  }

  lemma TickTakes(s: State, c: Tid, q: int)
    requires Slice(s, c, q)
    ensures Slice(Tick(s).0, c, q - 1) && Tick(s).0.run == s.run
    ensures Tick(s).0.threads[c].priority == s.threads[c].priority
  {
    TickIs(s);
    YieldInv(s);
    hide Inv, Tick;
  }

  /** A slice goes on through ticks that leave some of it and through any preemption. */
  lemma BeatKeeps(s: State, b: Beat, c: Tid, q: int)
    requires Slice(s, c, q) && q > if b.TickBeat? then 1 else 0
    ensures Slice(Next(s, b), c, q - if b.TickBeat? then 1 else 0) && Next(s, b).run == s.run
    ensures Next(s, b).threads[c].priority == s.threads[c].priority
  {
    hide Inv, Preempt, Tick, Slice;
    SliceInv(s, c, q);
    if b.TickBeat? {
      TickTakes(s, c, q);
      SliceInv(Tick(s).0, c, q - 1);
      PreemptKeeps(Tick(s).0, c, q - 1);
      SliceInv(Preempt(Tick(s).0), c, q - 1);
    } else {
      PreemptKeeps(s, c, q);
      SliceInv(Preempt(s), c, q);
    }
  }

  lemma SliceInv(s: State, c: Tid, q: int)
    requires Slice(s, c, q)
    ensures Inv(s) && c in s.threads && s.current == c
  {
  }

  /** It lasts for as many ticks as it has, less the last, however many preemptions come between. */
  lemma {:induction false} SliceLasts(s: State, bs: seq<Beat>, c: Tid, q: int)
    requires Slice(s, c, q) && Ticks(bs) < q
    ensures Slice(Beats(s, bs), c, q - Ticks(bs)) && Beats(s, bs).run == s.run
    ensures Beats(s, bs).threads[c].priority == s.threads[c].priority
    decreases |bs|
  {
    hide Inv, Next, Slice, Beats;
    SliceInv(s, c, q);
    if bs == [] {
      NoBeats(s);
      NoTicks();
    } else {
      var b, rest := bs[0], bs[1..];
      assert bs == [b] + rest;
      BeatsStep(s, b, rest);
      BeatKeeps(s, b, c, q);
      var e, n := Next(s, b), if b.TickBeat? then 1 else 0;
      SliceLasts(e, rest, c, q - n);
    }
  }

  lemma NoTicks()
    ensures Ticks([]) == 0
  {
  }

  /** A thread switched to with a used-up quantum stays current through its first four ticks, by
      whatever step it came to run and however many preemptions come between. */
  lemma FourTicks(s: State, x: Step, e: State, bs: seq<Beat>)
    requires Inv(s) && Allowed(s, x) && e == Do(s, x) && e.current != s.current && !(e.idling && e.current == e.boot)
    requires e.current in s.threads && s.threads[e.current].quantum <= 0 && Ticks(bs) <= 4
    ensures Inv(e) && Beats(e, bs).current == e.current
  {
    hide Inv, Do, Beats, Allowed, Slice;
    SliceStarts(s, x, e);
    SliceInv(e, e.current, 5);
    SliceLasts(e, bs, e.current, 5);
    SliceInv(Beats(e, bs), e.current, 5 - Ticks(bs));
  }

  lemma SliceStarts(s: State, x: Step, e: State)
    requires Inv(s) && Allowed(s, x) && e == Do(s, x) && e.current != s.current && !(e.idling && e.current == e.boot)
    requires e.current in s.threads && s.threads[e.current].quantum <= 0
    ensures Slice(e, e.current, 5)
  {
    hide Inv, Do, Allowed;
    StepHanded(s, x);
    DoInv(s, x);
  }

  /** With the last tick of its slice it makes room for the next thread of its priority. */
  lemma SliceEnds(s: State, bs: seq<Beat>, c: Tid, q: int)
    requires Slice(s, c, q) && q > 0 && Ticks(bs) == q - 1 && s.run[s.threads[c].priority] != []
    ensures Inv(Beats(s, bs)) && Next(Beats(s, bs), TickBeat).current == s.run[s.threads[c].priority][0]
  {
    hide Inv, Slice, Next, Beats;
    SliceInv(s, c, q);
    SliceLasts(s, bs, c, q);
    SliceInv(Beats(s, bs), c, 1);
    LastTick(Beats(s, bs), c);
  }

  lemma LastTick(e: State, c: Tid)
    requires Slice(e, c, 1) && e.run[e.threads[c].priority] != []
    ensures Inv(e) && Next(e, TickBeat).current == e.run[e.threads[c].priority][0]
  {
    TickTakes(e, c, 1);
    var m := Tick(e).0;
    SliceInv(m, c, 0);
    PreemptTakes(m);
    hide Inv, Takes, Tick, Preempt, HighestNonEmpty;
    var th := m.threads[c];
    HeadTakes(m.threads[c := th.(status := Ready)], Behind(m.run, th.priority, c), c, Preempt(m), th.priority);
  }
}
