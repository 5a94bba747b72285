/** How a mutex comes to have a waiter and no owner: the moves, and the way from boot to the
    state they start in. */
module Stranding {
  import opened Options
  import opened RunBitmap
  import opened Threads
  import opened Scheduling
  import opened Mutexes

  /** Thread `a` runs, `b` is the only other thread of its priority and ready, and nothing of
      higher priority is. */
  ghost predicate Pair(s: State, a: Tid, b: Tid, p: nat) {
    && Inv(s) && s.current == a && a != s.boot && b != s.boot && a != b && p < NUM_PRIORITIES
    && s.threads[a].priority == p && s.run[p] == [b] && forall r | p < r < NUM_PRIORITIES :: s.run[r] == []
  }

  lemma PairFacts(s: State, a: Tid, b: Tid, p: nat)
    requires Pair(s, a, b, p)
    ensures |s.run| == NUM_PRIORITIES && a in s.threads && b in s.threads && !s.threads[b].status.Blocked?
    ensures s.threads[b].priority == p
  {
    hide Distinct, Tracks, WaitPlaces;
    assert b in s.run[p];
  }

  /** No thread is gone or has another priority. */
  predicate SamePriorities(s: State, e: State) {
    e.threads.Keys == s.threads.Keys && forall t | t in s.threads :: e.threads[t].priority == s.threads[t].priority
  }

  predicate SameSides(s: State, e: State) {
    && e.boot == s.boot && e.idling == s.idling && e.timeouts == s.timeouts && e.waits == s.waits
    && SamePriorities(s, e)
  }

  lemma ReschedSides(s: State)
    ensures SameSides(s, Resched(s))
  {
    hide TopQueue, Mask, WithoutMask;
  }

  lemma RawSides(s: State, t: Tid, head: bool)
    requires t in s.threads && s.threads[t].priority < NUM_PRIORITIES == |s.run|
    ensures SameSides(s, EnlistRaw(s, t, head))
  {
  }

  lemma SidesTrans(s: State, d: State, e: State)
    requires SameSides(s, d) && SameSides(d, e)
    ensures SameSides(s, e)
  {
  }

  lemma QuantumSides(s: State, q: int)
    requires s.current in s.threads
    ensures SameSides(s, SetQuantum(s, q)) && SetQuantum(s, q).run == s.run && SetQuantum(s, q).current == s.current
  {
  }

  lemma YieldSides(s: State)
    requires Inv(s)
    ensures s.current in s.threads && s.threads[s.current].priority < NUM_PRIORITIES == |s.run|
    ensures SameSides(s, Yield(s)) && Inv(Yield(s))
  {
    YieldInv(s);
    hide Inv, EnlistRaw, Resched, SetQuantum, SameSides;
    var z := SetQuantum(s, 0);
    QuantumSides(s, 0);
    assert z.threads[z.current].priority < NUM_PRIORITIES by { PriorityKept(s, z); }
    RawSides(z, z.current, false);
    ReschedSides(EnlistRaw(z, z.current, false));
    SidesTrans(s, z, EnlistRaw(z, z.current, false));
    SidesTrans(s, EnlistRaw(z, z.current, false), Yield(s));
  }

  lemma PriorityKept(s: State, e: State)
    requires SameSides(s, e) && s.current in s.threads && e.current == s.current
    ensures e.current in e.threads && e.threads[e.current].priority == s.threads[s.current].priority
  {
  }

  /** `p` is the highest queue in use, if any. */
  predicate Highest(s: State, p: nat) {
    p < NUM_PRIORITIES == |s.run| && forall r | p < r < NUM_PRIORITIES :: s.run[r] == []
  }

  /** The first of `l` runs, the others are what is left in queue `p`. */
  ghost predicate FirstRuns(e: State, p: nat, l: seq<Tid>) {
    Inv(e) && Highest(e, p) && l != [] && e.current == l[0] && e.run[p] == l[1..]
  }

  lemma TopRuns(x: State, p: nat, l: seq<Tid>)
    requires Placed(x) && !x.threads[x.current].status.Running? && Highest(x, p) && x.run[p] == l && l != []
    ensures FirstRuns(Resched(x), p, l)
  {
    hide RunPlaces, WaitPlaces, ThreadsFine, TopQueue, Mask, WithoutMask;
    ReschedPlaced(x);
    ReschedTop(x, p);
  }

  /** Who is in queue `p` when the current thread has given way. */
  function Lined(s: State, p: nat): seq<Tid>
    requires p < |s.run| && s.current in s.threads
  {
    s.run[p] + if s.threads[s.current].priority == p then [s.current] else []
  }

  lemma LinedUp(s: State, p: nat)
    requires Inv(s) && Highest(s, p) && s.threads[s.current].priority <= p
    ensures s.threads[s.current].priority < NUM_PRIORITIES
    ensures var x := EnlistRaw(SetQuantum(s, 0), s.current, false);
            Placed(x) && x.current in x.threads && !x.threads[x.current].status.Running? && Highest(x, p)
              && x.run[p] == Lined(s, p)
  {
    QuantumInv(s);
    var z := SetQuantum(s, 0);
    hide Placed, Inv, EnlistRaw, Resched, SetQuantum, SameSides;
    GiveWay(z, false);
    RawQueues(z, false, p);
    RawSides(z, z.current, false);
    NoneAdded(s.run[p]);
  }

  lemma NoneAdded(q: seq<Tid>)
    ensures q + [] == q
  {
  }

  lemma QuantumInv(s: State)
    requires Inv(s)
    ensures var z := SetQuantum(s, 0);
            && Inv(z) && z.run == s.run && z.current == s.current && s.current in z.threads
            && z.threads[s.current].priority == s.threads[s.current].priority
  {
    QuantumPlaced(s, 0);
    hide Placed;
  }

  /** What a yield does to the highest queue in use. */
  lemma YieldTop(s: State, p: nat)
    requires Inv(s) && Highest(s, p) && s.threads[s.current].priority <= p && Lined(s, p) != []
    ensures s.threads[s.current].priority < NUM_PRIORITIES
    ensures FirstRuns(Yield(s), p, Lined(s, p)) && SameSides(s, Yield(s))
  {
    LinedUp(s, p);
    YieldSides(s);
    hide Placed, Inv, EnlistRaw, Resched, SameSides, Lined, FirstRuns, Highest;
    TopRuns(EnlistRaw(SetQuantum(s, 0), s.current, false), p, Lined(s, p));
  }

  /** The other thread of the pair runs when the one running yields. */
  lemma YieldPair(s: State, a: Tid, b: Tid, p: nat)
    requires Pair(s, a, b, p)
    ensures s.current in s.threads && s.threads[s.current].priority < NUM_PRIORITIES == |s.run|
    ensures Pair(Yield(s), b, a, p) && SameSides(s, Yield(s))
  {
    PairFacts(s, a, b, p);
    hide Placed, Yield;
    YieldTop(s, p);
    assert [b] + [a] == [b, a] && [b, a][1..] == [a];
  }

  /** And when it blocks. */
  lemma BlockPair(s: State, a: Tid, b: Tid, p: nat, q: Qid, timed: bool)
    requires Pair(s, a, b, p) && q in s.waits
    ensures var e := BlockOn(s, q, timed);
            && Inv(e) && e.current == b && e.boot == s.boot && b in e.threads && !e.threads[b].status.Blocked?
  {
    PairFacts(s, a, b, p);
    WaitingPlaced(s, q, timed);
    BlockInv(s, q, timed);
    ReschedTop(Waiting(s, q, timed), p);
    ReschedSides(Waiting(s, q, timed));
    hide Resched, RunPlaces, WaitPlaces, ThreadsFine;
  }

  // ---- the moves ----

  /** The mutex just initialized. */
  function NewWorld(s: State, q: Qid): World {
    World(s, q, 0, None, map t | t in s.threads :: Out, None, {})
  }

  /** Neither does the idle thread run at any move, nor the thread that will become it. */
  ghost predicate OffIdle(w: World, ms: seq<Move>)
    decreases |ms|
  {
    ms == [] || (w.s.current != w.s.boot && CanMove(w, ms[0]) && OffIdle(Moved(w, ms[0]), ms[1..]))
  }

  lemma OneMove(w: World, m: Move, ms: seq<Move>, v: World)
    requires CanMove(w, m) && w.s.current != w.s.boot && Leads(Moved(w, m), ms, v) && OffIdle(Moved(w, m), ms)
    ensures Leads(w, [m] + ms, v) && OffIdle(w, [m] + ms)
  {
    hide CanMove, Moved;
    assert ([m] + ms)[1..] == ms;
  }

  /** `a` takes the free mutex. */
  lemma FirstMove(s: State, q: Qid, a: Tid, b: Tid, p: nat)
    requires Pair(s, a, b, p) && q in s.waits && s.waits[q].list == [] && a !in s.timeouts
    ensures var w, m := NewWorld(s, q), AcquireMove(Infinite);
            && MInv(w) && KnownThreads(w) && CanMove(w, m)
            && Moved(w, m) == w.(count := 1, holder := Some(a))
  {
    PairFacts(s, a, b, p);
    NewMutex(s, q, NewWorld(s, q).pcs);
    hide Inv, MInv, KnownThreads;
  }

  /** `a` yields to `b`. */
  lemma SecondMove(w: World, a: Tid, b: Tid, p: nat)
    requires Pair(w.s, a, b, p) && !Inside(w, a)
    ensures CanMove(w, OtherMove(YieldStep))
    ensures w.s.current in w.s.threads && w.s.threads[w.s.current].priority < NUM_PRIORITIES == |w.s.run|
    ensures Moved(w, OtherMove(YieldStep)) == w.(s := Yield(w.s))
  {
    PairFacts(w.s, a, b, p);
    hide Placed, Yield;
  }

  /** `b` waits for it, with a timeout, and `a` runs again. */
  lemma ThirdMove(w: World, a: Tid, b: Tid, p: nat)
    requires Pair(w.s, b, a, p) && w.q in w.s.waits && w.s.waits[w.q].list == []
    requires b in w.pcs && w.pcs[b].Out? && w.holder == Some(a) && w.count == 1 && b !in w.s.timeouts
    ensures w.s.current in w.s.threads && CanMove(w, AcquireMove(Finite))
    ensures Moved(w, AcquireMove(Finite)) ==
              w.(count := 2, s := BlockOn(w.s, w.q, true), pcs := w.pcs[b := Acquiring(true)])
    ensures var e := BlockOn(w.s, w.q, true);
            && Inv(e) && e.current == a && e.boot == w.s.boot && w.q in e.waits && e.waits[w.q].list == [b]
            && e.timeouts == w.s.timeouts + {b} && e.threads.Keys == w.s.threads.Keys
            && b in e.threads && e.threads[b].status.Blocked? && e.threads[b].waiting == Some(w.q)
  {
    PairFacts(w.s, b, a, p);
    BlockPair(w.s, b, a, p, w.q, true);
    BlockDoes(w.s, w.q, true);
    InQueue(BlockOn(w.s, w.q, true), w.q, b);
    hide Inv, BlockOn;
    assert [] + [b] == [b];
  }

  /** The timeout of `b` fires. */
  lemma FourthMove(w: World, a: Tid, b: Tid)
    requires MInv(w) && w.s.current == a && !Inside(w, a) && b in w.s.timeouts
    requires w.s.waits[w.q].list == [b] && b in w.s.threads && w.s.threads[b].status.Blocked?
    requires w.s.threads[b].waiting == Some(w.q)
    ensures CanMove(w, OtherMove(TimeoutStep(b)))
    ensures Moved(w, OtherMove(TimeoutStep(b))) == w.(s := TimeoutFires(w.s, b), late := w.late + {b})
    ensures var e := TimeoutFires(w.s, b);
            && e.current == a && e.boot == w.s.boot && w.q in e.waits && e.waits[w.q].list == []
            && e.timeouts == w.s.timeouts - {b} && e.threads.Keys == w.s.threads.Keys
  {
    TimeoutSpares(w.s, b, w.q);
    QueuesThere(w.s);
    hide Placed, Insert, Inv, InsidePlaces;
    assert Remove([b], b) == [b][1..] == [];
    InsertSides(Unhooked(w.s, b, ERR_TIMED_OUT), b);
  }

  lemma InsertSides(s: State, t: Tid)
    requires t in s.threads && s.threads[t].priority < NUM_PRIORITIES == |s.run|
    ensures Insert(s, t, true).current == s.current && Insert(s, t, true).boot == s.boot
    ensures Insert(s, t, true).threads == s.threads
  {
  }

  /** `a` releases the mutex: the count says that somebody waits, but nobody does. */
  lemma FifthMove(w: World, a: Tid)
    requires MInv(w) && w.s.current == a && w.holder == Some(a) && w.count == 2 && w.s.waits[w.q].list == []
    requires !Inside(w, a)
    ensures CanMove(w, ReleaseMove) && Moved(w, ReleaseMove) == w.(holder := None, count := 1)
  {
    QueueIn(w);
    NoWake(w.s, w.q);
    hide Inv, InsidePlaces, WakeOne;
  }

  /** The five moves that follow each other, and what they come to. */
  ghost predicate LateNow(w: World, a: Tid, b: Tid) {
    && MInv(w) && KnownThreads(w) && w.s.current == a && a != w.s.boot && a in w.pcs && w.pcs[a].Out?
       && a !in w.s.timeouts
    && w.holder.None? && w.count == 1 && w.late == {b} && w.q in w.s.waits && w.s.waits[w.q].list == []
  }

  lemma LateReached(s: State, q: Qid, a: Tid, b: Tid, p: nat) returns (ms: seq<Move>, v: World)
    requires Pair(s, a, b, p) && q in s.waits && s.waits[q].list == [] && a !in s.timeouts && b !in s.timeouts
    ensures Leads(NewWorld(s, q), ms, v) && OffIdle(NewWorld(s, q), ms) && LateNow(v, a, b)
  {
    hide Placed, Inv, MInv, KnownThreads, CanMove, Moved, Leads, OffIdle, BlockOn, TimeoutFires, Yield, Pair;
    var w0, m1 := NewWorld(s, q), AcquireMove(Infinite);
    PairThere(s, a, b, p);
    FirstMove(s, q, a, b, p);
    MoveInv(w0, m1);
    var w1, m2 := Moved(w0, m1), OtherMove(YieldStep);
    SecondMove(w1, a, b, p);
    YieldPair(s, a, b, p);
    MoveInv(w1, m2);
    var w2, m3 := Moved(w1, m2), AcquireMove(Finite);
    PairThere(w2.s, b, a, p);
    ThirdMove(w2, a, b, p);
    MoveInv(w2, m3);
    var w3, m4 := Moved(w2, m3), OtherMove(TimeoutStep(b));
    FourthMove(w3, a, b);
    MoveInv(w3, m4);
    var w4, m5 := Moved(w3, m4), ReleaseMove;
    FifthMove(w4, a);
    MoveInv(w4, m5);
    v := Moved(w4, m5);
    ms := [m1] + ([m2] + ([m3] + ([m4] + ([m5] + []))));
    NoMove(v);
    OneMove(w4, m5, [], v);
    OneMove(w3, m4, [m5] + [], v);
    OneMove(w2, m3, [m4] + ([m5] + []), v);
    OneMove(w1, m2, [m3] + ([m4] + ([m5] + [])), v);
    OneMove(w0, m1, [m2] + ([m3] + ([m4] + ([m5] + []))), v);
    assert {} + {b} == {b};
    assert v.s.timeouts == s.timeouts + {b} - {b};
  }

  lemma NoMove(v: World)
    ensures Leads(v, [], v) && OffIdle(v, [])
  {
  }

  lemma PairThere(s: State, a: Tid, b: Tid, p: nat)
    requires Pair(s, a, b, p)
    ensures s.current == a && a != s.boot && a != b && a in s.threads && b in s.threads
  {
    PairFacts(s, a, b, p);
  }

  /** From a new mutex, with two threads of one priority that is the highest in use: the moves
      that lead to a state in which an acquire without timeout makes its caller wait, for good,
      for a mutex that nobody has. */
  lemma WaitersOwnedFails(s: State, q: Qid, a: Tid, b: Tid, p: nat) returns (ms: seq<Move>, v: World)
    requires Pair(s, a, b, p) && q in s.waits && s.waits[q].list == [] && a !in s.timeouts && b !in s.timeouts
    ensures Leads(NewWorld(s, q), ms, v) && OffIdle(NewWorld(s, q), ms) && WaitersOwned(v)
    ensures CanMove(v, AcquireMove(Infinite)) && Strands(v, AcquireMove(Infinite))
    ensures Stranded(Moved(v, AcquireMove(Infinite)), a)
  {
    ms, v := LateReached(s, q, a, b, p);
    hide Pair, Leads, OffIdle, NewWorld, CanMove, Moved, LateNow, Strands, Stranded, WaitersOwned;
    LateStrands(v, a, b);
  }

  lemma LateStrands(v: World, a: Tid, b: Tid)
    requires LateNow(v, a, b)
    ensures WaitersOwned(v) && CanMove(v, AcquireMove(Infinite)) && Strands(v, AcquireMove(Infinite))
    ensures Stranded(Moved(v, AcquireMove(Infinite)), a)
  {
    hide Inv, InsidePlaces, BlockOn;
    assert |{b}| == 1;
    BlockDoes(v.s, v.q, false);
    assert [] + [a] == [a];
  }

  // ---- from boot to such a pair ----

  lemma RaisedTop(s: State, u: Tid, p: nat)
    requires Inv(s) && Highest(s, p) && u in s.threads && s.threads[u].status.Suspended? && s.threads[u].priority == p
    requires s.threads[s.current].priority <= p
    ensures var x := EnlistRaw(s, u, true);
            && Inv(x) && Highest(x, p) && x.current == s.current && x.run[p] == [u] + s.run[p] && SameSides(s, x)
  {
    RawIsEnlist(s, u, true);
    EnlistPlaced(s, u, true);
    RawKeeps(s, u, true);
    RawSides(s, u, true);
    hide RunPlaces, WaitPlaces, ThreadsFine, SameSides, Mask, WithMask;
  }

  /** A thread of the highest priority in use runs as soon as it is resumed. */
  lemma ResumeTop(s: State, u: Tid, p: nat)
    requires Inv(s) && Highest(s, p) && u in s.threads && s.threads[u].status.Suspended? && s.threads[u].priority == p
    requires s.current in s.threads && s.threads[s.current].priority <= p
    ensures FirstRuns(Resume(s, u).0, p, [u] + Lined(s, p)) && SameSides(s, Resume(s, u).0)
  {
    RaisedTop(s, u, p);
    var x := EnlistRaw(s, u, true);
    LinedRaised(s, x, u, p);
    hide Placed, Inv, EnlistRaw, Yield, SameSides, Lined, FirstRuns, Highest;
    YieldTop(x, p);
    SidesTrans(s, x, Yield(x));
  }

  lemma LinedRaised(s: State, x: State, u: Tid, p: nat)
    requires p < |s.run| == |x.run| && s.current in s.threads && x.current == s.current && SameSides(s, x)
    requires x.run[p] == [u] + s.run[p] && s.threads[s.current].priority <= p
    ensures x.current in x.threads && x.threads[x.current].priority <= p
    ensures Lined(x, p) == [u] + Lined(s, p)
  {
  }

  lemma ReschedOthers(s: State, t: Tid)
    requires t in s.threads && t != Resched(s).current
    ensures t in Resched(s).threads && Resched(s).threads[t] == s.threads[t]
  {
    hide TopQueue, Mask, WithoutMask;
  }

  /** A resumption leaves a third thread's record alone. */
  lemma ResumeOthers(s: State, u: Tid, t: Tid)
    requires Inv(s) && u in s.threads && s.threads[u].status.Suspended? && t in s.threads && t != u && t != s.current
    requires t != Resume(s, u).0.current
    ensures t in Resume(s, u).0.threads && Resume(s, u).0.threads[t] == s.threads[t]
  {
    ResumeInv(s, u);
    RawIsEnlist(s, u, true);
    EnlistPlaced(s, u, true);
    RawKeeps(s, u, true);
    var x := EnlistRaw(s, u, true);
    hide RunPlaces, WaitPlaces, ThreadsFine, OthersPlaced, EnlistRaw, Enlist, Yield;
    YieldOthers(x, t);
  }

  lemma YieldOthers(x: State, t: Tid)
    requires Inv(x) && t in x.threads && t != x.current
    ensures x.threads[x.current].priority < NUM_PRIORITIES == |x.run|
    ensures Yield(x).current != t ==> t in Yield(x).threads && Yield(x).threads[t] == x.threads[t]
  {
    YieldInv(x);
    QuantumInv(x);
    var z := SetQuantum(x, 0);
    RawKeeps(z, z.current, false);
    hide Inv, EnlistRaw, Resched;
    if Yield(x).current != t {
      ReschedOthers(EnlistRaw(z, z.current, false), t);
    }
  }

  // ---- the run from boot ----

  /** thread_become_idle does not return: once the boot thread has become the idle thread, only
      interrupts find it running. */
  ghost predicate IdleIdles(s: State, xs: seq<Step>)
    decreases |xs|
  {
    xs == [] ||
    (&& Inv(s) && Allowed(s, xs[0]) && (s.idling && s.current == s.boot ==> FromInterrupt(xs[0]))
     && IdleIdles(Do(s, xs[0]), xs[1..]))
  }

  predicate FromInterrupt(x: Step) {
    x.PreemptStep? || x.TickStep? || x.TimeoutStep? || x.SleepOverStep?
  }

  /** A run in which the idle thread makes no call. */
  ghost predicate Runs(s: State, xs: seq<Step>, e: State) {
    Reaches(s, xs, e) && IdleIdles(s, xs)
  }

  lemma OneStepRuns(s: State, x: Step)
    requires Inv(s) && Allowed(s, x) && (s.idling && s.current == s.boot ==> FromInterrupt(x))
    ensures Runs(s, [x], Do(s, x)) && Inv(Do(s, x))
  {
    DoInv(s, x);
    hide Inv, Allowed, Do;
    assert Reaches(Do(s, x), [], Do(s, x)) && IdleIdles(Do(s, x), []);
    assert [x][1..] == [];
  }

  lemma {:induction false} MoreSteps(s: State, xs: seq<Step>, m: State, ys: seq<Step>, e: State)
    requires Runs(s, xs, m) && Runs(m, ys, e)
    ensures Runs(s, xs + ys, e)
    decreases |xs|
  {
    hide Inv, Allowed, Do;
    if xs == [] {
      assert [] + ys == ys;
    } else {
      MoreSteps(Do(s, xs[0]), xs[1..], m, ys, e);
      assert (xs + ys)[1..] == xs[1..] + ys;
    }
  }

  lemma QueueRuns(s: State, q: Qid)
    requires Inv(s) && !s.idling && q !in s.waits
    ensures var e := s.(waits := s.waits[q := WaitQueue([], 0)]); Inv(e) && Runs(s, [QueueStep(q)], e)
  {
    hide Inv, Runs, Yield, Preempt, Tick, BlockOn, WakeOne, WakeAll, TimeoutFires, Sleep, SleepOver, Exit, Resume;
    OneStepRuns(s, QueueStep(q));
  }

  lemma CreateRuns(s: State, t: Tid, p: nat)
    requires Inv(s) && !s.idling && t !in s.threads && p < NUM_PRIORITIES
    ensures Inv(Create(s, t, p)) && Runs(s, [CreateStep(t, p)], Create(s, t, p))
  {
    hide Inv, Runs, Yield, Preempt, Tick, BlockOn, WakeOne, WakeAll, TimeoutFires, Sleep, SleepOver, Exit, Resume;
    OneStepRuns(s, CreateStep(t, p));
  }

  lemma ResumeRuns(s: State, u: Tid)
    requires Inv(s) && !s.idling && u in s.threads && s.threads[u].status.Suspended?
    ensures Inv(Resume(s, u).0) && Runs(s, [ResumeStep(u)], Resume(s, u).0)
  {
    hide Inv, Runs, Yield, Preempt, Tick, BlockOn, WakeOne, WakeAll, TimeoutFires, Sleep, SleepOver, Exit, Resume;
    OneStepRuns(s, ResumeStep(u));
  }

  lemma CurrentBelow(s: State)
    requires Inv(s)
    ensures s.current in s.threads && s.threads[s.current].priority < NUM_PRIORITIES == |s.run|
  {
    hide Distinct, Tracks, WaitPlaces;
  }

  lemma YieldRuns(s: State)
    requires Inv(s) && !s.idling
    ensures s.current in s.threads && s.threads[s.current].priority < NUM_PRIORITIES == |s.run|
    ensures Runs(s, [YieldStep], Yield(s))
  {
    CurrentBelow(s);
    hide Inv, Runs, Yield, Preempt, Tick, BlockOn, WakeOne, WakeAll, TimeoutFires, Sleep, SleepOver, Exit, Resume;
    OneStepRuns(s, YieldStep);
  }

  lemma IdleRuns(s: State)
    requires Inv(s) && !s.idling && s.current == s.boot && s.current in s.threads
    ensures Inv(BecomeIdle(s)) && Runs(s, [IdleStep], BecomeIdle(s))
  {
    hide Inv, Runs, Yield, Preempt, Tick, BlockOn, WakeOne, WakeAll, TimeoutFires, Sleep, SleepOver, Exit, Resume;
    OneStepRuns(s, IdleStep);
  }

  lemma PreemptRuns(s: State)
    requires Inv(s)
    ensures s.current in s.threads && s.threads[s.current].priority < NUM_PRIORITIES == |s.run|
    ensures Runs(s, [PreemptStep], Preempt(s))
  {
    CurrentBelow(s);
    hide Inv, Runs, Yield, Preempt, Tick, BlockOn, WakeOne, WakeAll, TimeoutFires, Sleep, SleepOver, Exit, Resume;
    OneStepRuns(s, PreemptStep);
  }

  /** Booted, with a wait queue and two threads created; the boot thread still runs, at the
      highest priority. */
  function Started(boot: Tid, a: Tid, b: Tid, q: Qid, p: nat): State {
    Create(Create(Initial(boot).(waits := map[q := WaitQueue([], 0)]), a, p), b, p)
  }

  function Creations(a: Tid, b: Tid, q: Qid, p: nat): seq<Step> {
    [QueueStep(q)] + [CreateStep(a, p)] + [CreateStep(b, p)]
  }

  lemma StartedRuns(boot: Tid, a: Tid, b: Tid, q: Qid, p: nat)
    requires a != boot && b != boot && a != b && p < NUM_PRIORITIES
    ensures Runs(Initial(boot), Creations(a, b, q, p), Started(boot, a, b, q, p))
    ensures Inv(Started(boot, a, b, q, p))
  {
    hide Inv, Runs;
    var s0 := Initial(boot);
    InitialInv(boot);
    assert s0.waits[q := WaitQueue([], 0)] == map[q := WaitQueue([], 0)];
    var s1 := s0.(waits := map[q := WaitQueue([], 0)]);
    QueueRuns(s0, q);
    CreateRuns(s1, a, p);
    var s2 := Create(s1, a, p);
    CreateRuns(s2, b, p);
    var s3 := Create(s2, b, p);
    hide Initial, Create;
    MoreSteps(s0, [QueueStep(q)], s1, [CreateStep(a, p)], s2);
    MoreSteps(s0, [QueueStep(q)] + [CreateStep(a, p)], s2, [CreateStep(b, p)], s3);
  }

  predicate Created(s: State, t: Tid, p: nat) {
    t in s.threads && t != s.boot && s.threads[t].status.Suspended? && s.threads[t].priority == p
  }

  /** The boot thread runs, alone, at the highest priority, and has created two threads. */
  ghost predicate Fresh(s: State, a: Tid, b: Tid, p: nat) {
    && Inv(s) && !s.idling && s.current == s.boot && s.boot in s.threads && a != b && p < NUM_PRIORITIES
    && s.threads[s.boot].priority == HIGHEST_PRIORITY
    && |s.run| == NUM_PRIORITIES && (forall r | 0 <= r < NUM_PRIORITIES :: s.run[r] == [])
    && Created(s, a, p) && Created(s, b, p)
  }

  lemma StartedFacts(boot: Tid, a: Tid, b: Tid, q: Qid, p: nat)
    requires a != boot && b != boot && a != b && p < NUM_PRIORITIES && Inv(Started(boot, a, b, q, p))
    ensures var s := Started(boot, a, b, q, p);
            Fresh(s, a, b, p) && s.waits == map[q := WaitQueue([], 0)] && s.timeouts == {}
  {
    hide Inv;
  }

  /** The boot thread runs, and `b` and `a` are the threads of the highest queue in use. */
  ghost predicate Poised(s: State, a: Tid, b: Tid, p: nat) {
    && Inv(s) && !s.idling && s.current == s.boot && a != b && a != s.boot && b != s.boot
    && Highest(s, p) && s.run[p] == [b, a]
  }

  // ---- priorities below the boot thread's: it stays current through both resumptions ----

  /** The only thread of the highest priority in use goes on when it yields. */
  lemma YieldAlone(s: State, h: nat)
    requires Inv(s) && Highest(s, h) && s.run[h] == [] && s.threads[s.current].priority == h
    ensures Inv(Yield(s)) && Yield(s).current == s.current && Yield(s).run == s.run
  {
    YieldKeeps(s);
    var y := EnlistRaw(SetQuantum(s, 0), s.current, false);
    LinedUp(s, h);
    GivenWay(s, h);
    hide Placed, Inv, EnlistRaw, Resched, SetQuantum;
    ReschedTop(y, h);
    assert [] + [s.current] == [s.current] && [s.current][1..] == [];
    assert s.run[h := [s.current]][h := []] == s.run;
  }

  lemma YieldKeeps(s: State)
    requires Inv(s)
    ensures s.current in s.threads && s.threads[s.current].priority < NUM_PRIORITIES == |s.run| && Inv(Yield(s))
  {
    YieldInv(s);
    hide Inv, Yield;
  }

  lemma GivenWay(s: State, h: nat)
    requires s.current in s.threads && s.threads[s.current].priority == h < NUM_PRIORITIES == |s.run|
    ensures var y := EnlistRaw(SetQuantum(s, 0), s.current, false);
            y.current == s.current && y.run == s.run[h := s.run[h] + [s.current]]
  {
    RawAppends(SetQuantum(s, 0), s.current, h);
  }

  lemma RawAppends(s: State, t: Tid, p: nat)
    requires t in s.threads && s.threads[t].priority == p < NUM_PRIORITIES == |s.run|
    ensures EnlistRaw(s, t, false).run == s.run[p := s.run[p] + [t]]
    ensures EnlistRaw(s, t, true).run == s.run[p := [t] + s.run[p]]
  {
  }

  lemma ResumeBelow(s: State, u: Tid, p: nat, h: nat)
    requires Inv(s) && p < h && Highest(s, h) && s.run[h] == [] && s.current in s.threads
    requires s.threads[s.current].priority == h && Created(s, u, p)
    ensures var e := Resume(s, u).0;
            Inv(e) && e.current == s.current && e.run == s.run[p := [u] + s.run[p]] && SameSides(s, e)
  {
    RawIsEnlist(s, u, true);
    EnlistPlaced(s, u, true);
    RawKeeps(s, u, true);
    RawSides(s, u, true);
    RawAppends(s, u, p);
    var x := EnlistRaw(s, u, true);
    hide RunPlaces, WaitPlaces, ThreadsFine, OthersPlaced, EnlistRaw, Enlist, Yield, SameSides;
    assert Inv(x);
    PriorityKept(s, x);
    YieldAlone(x, h);
    YieldSides(x);
    SidesTrans(s, x, Yield(x));
  }

  lemma PoisedBelow(s: State, a: Tid, b: Tid, p: nat) returns (xs: seq<Step>, e: State)
    requires Fresh(s, a, b, p) && p < HIGHEST_PRIORITY
    ensures Runs(s, xs, e) && Poised(e, a, b, p) && SameSides(s, e)
  {
    hide Inv, Runs, Resume;
    ResumeRuns(s, a);
    ResumeBelow(s, a, p, HIGHEST_PRIORITY);
    ResumeOthers(s, a, b);
    var m := Resume(s, a).0;
    ResumeRuns(m, b);
    ResumeBelow(m, b, p, HIGHEST_PRIORITY);
    e := Resume(m, b).0;
    assert [b] + ([a] + []) == [b, a];
    SidesTrans(s, m, e);
    xs := [ResumeStep(a)] + [ResumeStep(b)];
    MoreSteps(s, [ResumeStep(a)], m, [ResumeStep(b)], e);
  }

  // ---- the boot thread's own priority: each thread runs as soon as it is resumed ----

  lemma PoisedTop(s: State, a: Tid, b: Tid, p: nat) returns (xs: seq<Step>, e: State)
    requires Fresh(s, a, b, p) && p == HIGHEST_PRIORITY
    ensures Runs(s, xs, e) && Poised(e, a, b, p) && SameSides(s, e)
  {
    hide Inv, Runs, Resume, Yield;
    ResumeRuns(s, b);
    ResumeTop(s, b, p);
    ResumeOthers(s, b, a);
    var m := Resume(s, b).0;
    assert [b] + ([] + [s.boot]) == [b, s.boot] && [b, s.boot][1..] == [s.boot];
    ResumeRuns(m, a);
    ResumeTop(m, a, p);
    var n := Resume(m, a).0;
    assert [a] + ([s.boot] + [b]) == [a, s.boot, b] && [a, s.boot, b][1..] == [s.boot, b];
    YieldRuns(n);
    YieldTop(n, p);
    e := Yield(n);
    assert [s.boot, b] + [a] == [s.boot, b, a] && [s.boot, b, a][1..] == [b, a];
    SidesTrans(s, m, n);
    SidesTrans(s, n, e);
    MoreSteps(s, [ResumeStep(b)], m, [ResumeStep(a)], n);
    MoreSteps(s, [ResumeStep(b)] + [ResumeStep(a)], n, [YieldStep], e);
    xs := [ResumeStep(b)] + [ResumeStep(a)] + [YieldStep];
  }

  // ---- the boot thread becomes idle, and an interrupt takes the processor from it ----

  lemma IdleLine(s: State, a: Tid, b: Tid, p: nat)
    requires Poised(s, a, b, p) && 0 < p && s.current in s.threads && Inv(BecomeIdle(s))
    ensures InLine(BecomeIdle(s), b, p, 0)
  {
    hide Inv;
  }

  lemma PreemptSides(s: State)
    requires Inv(s)
    ensures s.current in s.threads && s.threads[s.current].priority < NUM_PRIORITIES == |s.run|
    ensures SameSides(s, Preempt(s))
  {
    YieldInv(s);
    hide Inv, EnlistRaw, Resched, SameSides;
    var head := s.threads[s.current].quantum > 0;
    RawSides(s, s.current, head);
    ReschedSides(EnlistRaw(s, s.current, head));
    SidesTrans(s, EnlistRaw(s, s.current, head), Preempt(s));
  }

  lemma IdlePair(s: State, a: Tid, b: Tid, p: nat) returns (e: State)
    requires Poised(s, a, b, p) && 0 < p && s.current in s.threads
    ensures Runs(s, [IdleStep] + [PreemptStep], e) && Pair(e, b, a, p)
    ensures e.timeouts == s.timeouts && e.waits == s.waits
  {
    hide Inv, Runs, Preempt;
    IdleRuns(s);
    IdleLine(s, a, b, p);
    var m := BecomeIdle(s);
    PreemptRuns(m);
    PreemptIs(m, b, p, 0);
    PreemptSides(m);
    e := Preempt(m);
    assert [b, a][1..] == [a];
    MoreSteps(s, [IdleStep], m, [PreemptStep], e);
  }

  lemma CurrentIn(s: State)
    requires Inv(s)
    ensures s.current in s.threads
  {
  }

  /** Such a pair is reached from boot: the boot thread creates and resumes the two, becomes
      the idle thread, and an interrupt takes the processor from it. */
  lemma PairFromBoot(boot: Tid, a: Tid, b: Tid, q: Qid, p: nat) returns (xs: seq<Step>, e: State)
    requires a != boot && b != boot && a != b && 0 < p < NUM_PRIORITIES
    ensures Reaches(Initial(boot), xs, e) && IdleIdles(Initial(boot), xs)
    ensures Pair(e, b, a, p) && e.timeouts == {} && e.waits == map[q := WaitQueue([], 0)]
  {
    StartedRuns(boot, a, b, q, p);
    StartedFacts(boot, a, b, q, p);
    var s := Started(boot, a, b, q, p);
    hide Inv, Started, Initial, Creations, Pair, Reaches, IdleIdles;
    var ys, m;
    if p < HIGHEST_PRIORITY {
      ys, m := PoisedBelow(s, a, b, p);
    } else {
      ys, m := PoisedTop(s, a, b, p);
    }
    CurrentIn(m);
    e := IdlePair(m, a, b, p);
    MoreSteps(Initial(boot), Creations(a, b, q, p), s, ys, m);
    xs := Creations(a, b, q, p) + ys + ([IdleStep] + [PreemptStep]);
    MoreSteps(Initial(boot), Creations(a, b, q, p) + ys, m, [IdleStep] + [PreemptStep], e);
  }

  /** From boot to a mutex with a waiter and no owner: nothing in the code prevents it. */
  lemma StrandedFromBoot(boot: Tid, a: Tid, b: Tid, q: Qid, p: nat)
    returns (xs: seq<Step>, s: State, ms: seq<Move>, v: World)
    requires a != boot && b != boot && a != b && 0 < p < NUM_PRIORITIES
    ensures Reaches(Initial(boot), xs, s) && IdleIdles(Initial(boot), xs)
    ensures Leads(NewWorld(s, q), ms, v) && OffIdle(NewWorld(s, q), ms) && WaitersOwned(v)
    ensures CanMove(v, AcquireMove(Infinite)) && Stranded(Moved(v, AcquireMove(Infinite)), b)
  {
    hide Pair, Reaches, IdleIdles, Leads, OffIdle, NewWorld, WaitersOwned, CanMove, Moved, Strands, Stranded, Initial;
    xs, s := PairFromBoot(boot, a, b, q, p);
    ms, v := WaitersOwnedFails(s, q, b, a, p);
  }
}
