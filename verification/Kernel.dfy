/** The scheduler's functions as they update the global run queues, the bitmap, the current
    thread and the thread records, each proved to be the step it is modelled by. */
module KernelThreads {
  import opened Options
  import opened RunBitmap
  import opened Threads
  import opened Scheduling

  class Kernel {
    var threads: map<Tid, Thread>
    var run: seq<seq<Tid>>
    var bitmap: bv32
    var current: Tid
    const boot: Tid
    var idling: bool
    var waits: map<Qid, WaitQueue>
    var sleepers: set<Tid>
    var timeouts: set<Tid>
    /** critical_section_count, as far as one call that does not switch threads changes it. */
    var nesting: int

    function St(): State
      reads this
    {
      State(threads, run, bitmap, current, boot, idling, waits, sleepers, timeouts)
    }

    /** thread_init_early */
    constructor (boot: Tid)
      ensures Inv(St()) && St() == Initial(boot) && nesting == 1
    {
      threads := map[boot := Thread(HIGHEST_PRIORITY, Running, 0, None, NO_ERROR)];
      run, bitmap, current, this.boot, idling := seq(NUM_PRIORITIES, _ => []), 0, boot, boot, false;
      waits, sleepers, timeouts, nesting := map[], {}, {}, 1;
      new;
      InitialInv(boot);
      assert run == Initial(boot).run;
    }

    method SetStatus(t: Tid, status: Status)
      requires t in threads
      modifies this`threads
      ensures threads == old(threads)[t := old(threads[t]).(status := status)]
    {
      threads := threads[t := threads[t].(status := status)];
    }

    /** insert_in_run_queue_head */
    method InsertHead(t: Tid)
      requires t in threads && threads[t].priority < NUM_PRIORITIES == |run|
      modifies this`run, this`bitmap
      ensures St() == Insert(old(St()), t, true)
    {
      var p := threads[t].priority;
      run := run[p := [t] + run[p]];
      bitmap := WithMask(bitmap, Mask(p));
    }

    /** insert_in_run_queue_tail */
    method InsertTail(t: Tid)
      requires t in threads && threads[t].priority < NUM_PRIORITIES == |run|
      modifies this`run, this`bitmap
      ensures St() == Insert(old(St()), t, false)
    {
      var p := threads[t].priority;
      run := run[p := run[p] + [t]];
      bitmap := WithMask(bitmap, Mask(p));
    }

    /** thread_resched, by a thread that has left the processor or is in its run queue; called
        by a thread that still runs it finds another one ready. */
    method ThreadResched()
      requires Placed(St()) && (threads[current].status.Running? ==> SomebodyReady(St()))
      modifies this`run, this`bitmap, this`threads, this`current
      ensures St() == Resched(old(St()))
      ensures Takes(old(threads), old(run), old(current), St()) && RestSame(old(St()), St())
      ensures !old(threads[current]).status.Running? ==> Inv(St())
    {
      hide Placed, LeadingZeros, Mask, WithoutMask;
      ghost var s := St();
      PickFacts(s);
      ReschedTakes(s);
      hide HighestNonEmpty;
      var next := HIGHEST_PRIORITY - LeadingZeros(bitmap, HIGHEST_PRIORITY);
      var newthread := run[next][0];
      run := run[next := run[next][1..]];
      if run[next] == [] {
        bitmap := WithoutMask(bitmap, Mask(next));
      }
      SetStatus(newthread, Running);
      if newthread != current {
        if threads[newthread].quantum <= 0 {
          threads := threads[newthread := threads[newthread].(quantum := QUANTUM)];
        }
        current := newthread;
      }
      assert St() == Resched(s);
      hide Resched, TopQueue;
      if !s.threads[s.current].status.Running? {
        ReschedPlaced(s);
      }
    }

    ghost predicate SomebodyReady(s: State) {
      exists t :: t in s.threads && s.threads[t].status.Ready?
    }

    lemma PickFacts(s: State)
      requires Placed(s) && (s.threads[s.current].status.Running? ==> SomebodyReady(s))
      ensures s.current in s.threads && |s.run| == NUM_PRIORITIES && HighestNonEmpty(s.run, HIGHEST_PRIORITY) >= 0
      ensures 0 <= TopQueue(s) < NUM_PRIORITIES && s.run[TopQueue(s)] != [] && s.run[TopQueue(s)][0] in s.threads
    {
      hide Distinct, Bit, LeadingZeros;
      if s.threads[s.current].status.Running? {
        var t :| t in s.threads && s.threads[t].status.Ready?;
        SomeReady(s, t);
        assert HighestNonEmpty(s.run, HIGHEST_PRIORITY) >= 0;
      } else {
        ClzIsScan(s.bitmap, s.run);
        BootReady(s);
      }
      assert s.run[TopQueue(s)][0] in s.run[TopQueue(s)];
    }

    lemma CurrentFacts(s: State)
      requires Inv(s)
      ensures s.current in s.threads && s.threads[s.current].status.Running?
      ensures s.threads[s.current].priority < NUM_PRIORITIES == |s.run|
    {
      hide Distinct, Tracks, WaitPlaces;
    }

    /** thread_yield */
    method ThreadYield()
      requires Inv(St())
      modifies this
      ensures St() == Yield(old(St())) && Inv(St()) && nesting == old(nesting)
    {
      hide Inv, Placed, Insert, Resched;
      CurrentFacts(St());
      YieldInv(St());
      QuantumInv(St());
      GiveWay(SetQuantum(St(), 0), false);
      SetStatus(current, Ready);
      threads := threads[current := threads[current].(quantum := 0)];
      assert threads == MarkReady(SetQuantum(old(St()), 0), current).threads;
      InsertTail(current);
      ThreadResched();
    }

    lemma QuantumInv(s: State)
      requires Inv(s)
      ensures Inv(SetQuantum(s, 0))
    {
      QuantumPlaced(s, 0);
    }

    /** thread_preempt */
    method ThreadPreempt()
      requires Inv(St())
      modifies this
      ensures St() == Preempt(old(St())) && Inv(St())
    {
      hide Inv, Placed, Insert, Resched;
      CurrentFacts(St());
      YieldInv(St());
      GiveWay(St(), threads[current].quantum > 0);
      SetStatus(current, Ready);
      if threads[current].quantum > 0 {
        InsertHead(current);
      } else {
        InsertTail(current);
      }
      ThreadResched();
    }

    /** thread_timer_tick */
    method ThreadTimerTick() returns (resched: bool)
      requires Inv(St())
      modifies this`threads
      ensures (St(), resched) == Tick(old(St())) && Inv(St())
    {
      hide Inv, Placed;
      CurrentFacts(St());
      YieldInv(St());
      if idling && current == boot {
        return false;
      }
      threads := threads[current := threads[current].(quantum := threads[current].quantum - 1)];
      resched := threads[current].quantum <= 0;
    }

    /** wait_queue_block up to the switch; with a timeout of zero it does nothing. */
    method WaitQueueBlock(q: Qid, timeout: nat, infinite: bool) returns (timedOut: bool)
      requires Inv(St()) && q in waits && (timeout > 0 || infinite ==> current != boot)
      modifies this
      ensures timedOut <==> timeout == 0 && !infinite
      ensures timedOut ==> St() == old(St())
      ensures !timedOut ==> St() == BlockOn(old(St()), q, !infinite) && Inv(St())
    {
      hide Inv, Placed, Resched;
      CurrentFacts(St());
      if timeout == 0 && !infinite {
        return true;
      }
      WaitingPlaced(St(), q, !infinite);
      BlockInv(St(), q, !infinite);
      waits := waits[q := WaitQueue(waits[q].list + [current], waits[q].count + 1)];
      threads := threads[current := threads[current].(status := Blocked, waiting := Some(q), ret := NO_ERROR)];
      if !infinite {
        timeouts := timeouts + {current};
      }
      ThreadResched();
      timedOut := false;
    }

    /** wait_queue_wake_one */
    method WaitQueueWakeOne(q: Qid, resched: bool, err: int) returns (n: int)
      requires Inv(St()) && q in waits
      modifies this
      ensures (St(), n) == WakeOne(old(St()), q, resched, err) && Inv(St()) && nesting == old(nesting)
    {
      hide Inv, Placed, Insert, Resched;
      ghost var s := St();
      CurrentFacts(s);
      WakeOneInv(s, q, resched, err);
      if waits[q].list == [] {
        return 0;
      }
      HeadWaits(s, q);
      var t := waits[q].list[0];
      waits := waits[q := WaitQueue(waits[q].list[1..], waits[q].count - 1)];
      threads := threads[t := threads[t].(status := Ready, ret := err, waiting := None)];
      assert St() == Unhooked(s, t, err);
      if resched {
        SetStatus(current, Ready);
        InsertHead(current);
        InsertShape(Unhooked(s, t, err).(threads := threads), current);
      }
      ghost var b := St();
      InsertHead(t);
      if resched {
        WokenPlaced(s, q, err);
        ThreadResched();
      }
      n := 1;
    }

    lemma HeadWaits(s: State, q: Qid)
      requires Inv(s) && q in s.waits && s.waits[q].list != []
      ensures var t := s.waits[q].list[0];
              && t in s.threads && s.threads[t].waiting == Some(q) && s.threads[t].priority < NUM_PRIORITIES
                 && t != s.current
              && Remove(s.waits[q].list, t) == s.waits[q].list[1..]
    {
      hide RunPlaces, Distinct;
      assert s.waits[q].list[0] in s.waits[q].list;
    }

    lemma InsertShape(s: State, t: Tid)
      requires t in s.threads && s.threads[t].priority < NUM_PRIORITIES == |s.run|
      ensures |Insert(s, t, true).run| == |s.run| && Insert(s, t, true).threads == s.threads
      ensures Insert(s, t, true).current == s.current
    {
    }

    /** wait_queue_wake_all */
    method WaitQueueWakeAll(q: Qid, resched: bool, err: int) returns (n: int)
      requires Inv(St()) && q in waits
      modifies this
      ensures (St(), n) == WakeAll(old(St()), q, resched, err) && Inv(St())
    {
      hide Inv, Placed, Insert, Resched, AllWoken;
      ghost var s := St();
      CurrentFacts(s);
      WakeAllInv(s, q, resched, err);
      PlacedOf(s);
      EmptyCount(s, q);
      CurrentWaits(s, q);
      YieldInv(s);
      GiveWay(s, true);
      RawKeeps(s, current, true);
      if resched && waits[q].count > 0 {
        SetStatus(current, Ready);
        InsertHead(current);
      }
      ghost var a := St();
      WakeEachDoes(a, q, err);
      WokenCurrent(a, WakeEach(a, q, err), q, err);
      n := 0;
      while waits[q].list != []
        invariant Placed(St()) && q in waits && current == s.current
        invariant WakeEach(St(), q, err) == WakeEach(a, q, err)
        invariant n >= 0 && n + |waits[q].list| == |s.waits[q].list|
        decreases |waits[q].list|
      {
        n := WakeNext(q, err, n);
      }
      assert St() == WakeEach(a, q, err);
      if resched && n > 0 {
        ThreadResched();
      }
    }

    lemma PlacedOf(s: State)
      requires Inv(s)
      ensures Placed(s)
    {
    }

    lemma WokenCurrent(a: State, e: State, q: Qid, err: int)
      requires Placed(a) && q in a.waits && AllWoken(a, e, q, a.waits[q].list, err)
      requires a.current !in a.waits[q].list
      ensures e.current == a.current && a.current in a.threads && a.current in e.threads
      ensures e.threads[e.current] == a.threads[a.current]
    {
      hide RunPlaces, WaitPlaces;
    }

    /** The body of the loop of wait_queue_wake_all. */
    method WakeNext(q: Qid, err: int, n: int) returns (m: int)
      requires Placed(St()) && q in waits && waits[q].list != []
      modifies this`waits, this`threads, this`run, this`bitmap
      ensures Placed(St()) && q in waits && waits[q].list == old(waits[q].list)[1..]
      ensures WakeEach(St(), q, err) == WakeEach(old(St()), q, err) && m == n + 1
    {
      hide Placed, Insert;
      ghost var s := St();
      var t := waits[q].list[0];
      WakeStep(s, q, t, err);
      RemoveHead(waits[q].list);
      waits := waits[q := WaitQueue(waits[q].list[1..], waits[q].count - 1)];
      threads := threads[t := threads[t].(status := Ready, ret := err, waiting := None)];
      assert St() == Unhooked(s, t, err);
      InsertHead(t);
      m := n + 1;
    }

    lemma RemoveHead(q: seq<Tid>)
      requires q != []
      ensures Remove(q, q[0]) == q[1..]
    {
    }

    /** thread_unblock_from_wait_queue. With a thread that is not blocked it returns early and
        leaves the critical section entered; with rescheduling it loses the current thread. */
    method ThreadUnblock(t: Tid, resched: bool, err: int) returns (r: int)
      requires Inv(St()) && t in threads
      modifies this
      ensures |old(St()).run| == NUM_PRIORITIES && (St(), r) == Unblock(old(St()), t, resched, err)
      ensures Inv(St()) <==> !(resched && old(threads[t]).status.Blocked?)
      ensures nesting == old(nesting) <==> old(threads[t]).status.Blocked?
      ensures !old(threads[t]).status.Blocked? ==> nesting == old(nesting) + 1
    {
      hide Placed, Insert, Resched;
      ghost var s := St();
      UnblockInv(s, t, resched, err);
      nesting := nesting + 1;
      if !threads[t].status.Blocked? {
        return ERR_NOT_BLOCKED;
      }
      PlacedOf(s);
      UnhookedIs(s, t, err);
      UnblockInv(s, t, false, err);
      UnblockReschedLoses(s, t, err);
      var q := threads[t].waiting.value;
      waits := waits[q := WaitQueue(Remove(waits[q].list, t), waits[q].count - 1)];
      threads := threads[t := threads[t].(waiting := None, status := Ready, ret := err)];
      assert St() == Unhooked(s, t, err);
      InsertHead(t);
      if resched {
        InsertThreads(Unhooked(s, t, err), t);
        ThreadResched();
      }
      nesting := nesting - 1;
      r := NO_ERROR;
    }

    /** thread_resume of a thread that is not blocked, sleeping or dead. */
    method ThreadResume(t: Tid) returns (r: int)
      requires Inv(St()) && t in threads && threads[t].status in {Suspended, Ready, Running}
      modifies this
      ensures (St(), r) == Resume(old(St()), t) && Inv(St())
    {
      hide Inv, Placed, Insert, Yield;
      ghost var s := St();
      CurrentFacts(s);
      ResumeInv(s, t);
      if threads[t].status.Ready? || threads[t].status.Running? {
        return ERR_NOT_SUSPENDED;
      }
      RaisedInv(s, t);
      SetStatus(t, Ready);
      InsertHead(t);
      ThreadYield();
      r := NO_ERROR;
    }

    lemma RaisedInv(s: State, t: Tid)
      requires Inv(s) && t in s.threads && s.threads[t].status.Suspended?
      ensures |s.run| == NUM_PRIORITIES && s.threads[t].priority < NUM_PRIORITIES && Inv(EnlistRaw(s, t, true))
    {
      RawIsEnlist(s, t, true);
      EnlistPlaced(s, t, true);
      RawKeeps(s, t, true);
      hide RunPlaces, WaitPlaces, ThreadsFine, EnlistRaw, Enlist;
    }

    /** thread_sleep up to the switch. */
    method ThreadSleep()
      requires Inv(St()) && current != boot
      modifies this
      ensures St() == Sleep(old(St())) && Inv(St())
    {
      hide Inv, Placed, Resched;
      ghost var s := St();
      CurrentFacts(s);
      BlockInv(s, 0, false);
      LeavingPlaced(s, s.threads[current].(status := Sleeping), sleepers + {current});
      sleepers := sleepers + {current};
      SetStatus(current, Sleeping);
      ThreadResched();
    }

    /** thread_sleep_handler */
    method SleepHandler(t: Tid)
      requires Inv(St()) && t in sleepers
      modifies this
      ensures St() == SleepOver(old(St()), t) && Inv(St())
    {
      hide Placed, Insert;
      SleepOverInv(St(), t);
      SleeperFacts(St(), t);
      sleepers := sleepers - {t};
      SetStatus(t, Ready);
      InsertHead(t);
    }

    lemma SleeperFacts(s: State, t: Tid)
      requires Inv(s) && t in s.sleepers
      ensures t in s.threads && s.threads[t].priority < NUM_PRIORITIES == |s.run|
    {
      hide RunPlaces, WaitPlaces;
      QueuesThere(s);
    }

    /** wait_queue_timeout_handler, and whether it asks for a reschedule. */
    method TimeoutHandler(t: Tid) returns (resched: bool)
      requires Inv(St()) && t in timeouts && t in threads
      modifies this
      ensures St() == TimeoutFires(old(St()), t) && Inv(St())
      ensures resched <==> old(threads[t]).status.Blocked?
    {
      hide Inv, Placed, Insert;
      TimeoutInv(St(), t);
      var r := ThreadUnblock(t, false, ERR_TIMED_OUT);
      timeouts := timeouts - {t};
      resched := r >= NO_ERROR;
    }

    /** thread_exit. `wake` is the wait queue of the dpc event, when queueing the cleanup call
        signals it. */
    method ThreadExit(wake: Option<Qid>)
      requires Inv(St()) && current != boot && (wake.Some? ==> wake.value in waits)
      modifies this
      ensures St() == Exit(old(St()), wake) && Inv(St())
    {
      hide Inv, Placed, Insert, Resched, AllWoken;
      ghost var s := St();
      CurrentFacts(s);
      ExitInv(s, wake);
      LeavingPlaced(s, s.threads[s.current].(status := Dead), s.sleepers);
      SetStatus(current, Dead);
      assert St() == Die(s);
      if wake.Some? {
        ghost var a := St();
        CurrentWaits(s, wake.value);
        WakeEachDoes(a, wake.value, NO_ERROR);
        WokenCurrent(a, WakeEach(a, wake.value, NO_ERROR), wake.value, NO_ERROR);
        var n := 0;
        while waits[wake.value].list != []
          invariant Placed(St()) && wake.value in waits
          invariant WakeEach(St(), wake.value, NO_ERROR) == WakeEach(a, wake.value, NO_ERROR)
          decreases |waits[wake.value].list|
        {
          n := WakeNext(wake.value, NO_ERROR, n);
        }
      }
      ThreadResched();
    }

    /** thread_create: the new thread waits, suspended, for thread_resume. */
    method ThreadCreate(t: Tid, priority: nat)
      requires Inv(St()) && t !in threads && priority < NUM_PRIORITIES
      modifies this`threads
      ensures St() == Create(old(St()), t, priority) && Inv(St())
    {
      hide Inv, Placed;
      CreateInv(St(), t, priority);
      threads := threads[t := Thread(priority, Suspended, 0, None, NO_ERROR)];
    }

    /** thread_become_idle, by the thread the system booted on. */
    method ThreadBecomeIdle()
      requires Inv(St()) && current == boot && !idling
      modifies this`threads, this`idling
      ensures St() == BecomeIdle(old(St())) && Inv(St())
    {
      hide Inv, Placed;
      CurrentFacts(St());
      PriorityInv(St(), IDLE_PRIORITY, true);
      ThreadSetPriority(IDLE_PRIORITY);
      idling := true;
    }

    /** thread_set_priority */
    method ThreadSetPriority(priority: int)
      requires Inv(St()) && !(idling && current == boot)
      modifies this`threads
      ensures St() == SetPriority(old(St()), priority) && Inv(St())
    {
      hide Inv, Placed;
      CurrentFacts(St());
      PriorityInv(St(), priority, false);
      var p := priority;
      if p < 0 {
        p := 0;
      }
      if p > HIGHEST_PRIORITY {
        p := HIGHEST_PRIORITY;
      }
      threads := threads[current := threads[current].(priority := p)];
    }
  }
}
